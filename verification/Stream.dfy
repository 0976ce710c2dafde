/** Reading a response body under a size cap (src/fetch/stream.rs). */
module Stream {
  import opened Base64
  import opened Http
  import opened Sequences
  import opened Wrappers

  datatype OnLimit = Truncate | Abort | Error

  datatype StreamedBytes = Complete(bytes: seq<Byte>) | Truncated(bytes: seq<Byte>)

  datatype StreamError = Read | LimitExceeded | TooLarge(got: nat, max: nat)

  /** The bytes that arrive before the stream ends or a read fails. */
  function Received(stream: seq<Chunk>): seq<Byte> {
    if stream == [] || stream[0].ReadFailed? then [] else stream[0].bytes + Received(stream[1..])
  }

  /** How many bytes have arrived when the first chunk passes the cap, `have` bytes being there already. */
  function FirstOver(have: nat, stream: seq<Chunk>, max: nat): (got: nat)
    requires have <= max < have + |Received(stream)|
    ensures max < got <= have + |Received(stream)|
    decreases stream
  {
    var n := have + |stream[0].bytes|;
    if n > max then n else FirstOver(n, stream[1..], max)
  }

  /**
   The outcome once `have` is accumulated and `stream` is still to come, in terms of the bytes
   received alone, apart from the count inside `TooLarge`.
   */
  function Outcome(have: seq<Byte>, stream: seq<Chunk>, max: nat, onLimit: OnLimit)
    : Result<StreamedBytes, StreamError>
    requires |have| <= max
  {
    var body := have + Received(stream);
    if |body| <= max then
      if ReadFailed in stream then Err(Read) else Ok(Complete(body))
    else
      match onLimit
      case Truncate => Ok(Truncated(body[..max]))
      case Abort => Err(LimitExceeded)
      case Error => Err(TooLarge(FirstOver(|have|, stream, max), max))
  }

  lemma {:induction false} OutcomeStep(have: seq<Byte>, stream: seq<Chunk>, max: nat, onLimit: OnLimit)
    requires stream != [] && stream[0].Data? && |have + stream[0].bytes| <= max
    ensures Outcome(have, stream, max, onLimit) == Outcome(have + stream[0].bytes, stream[1..], max, onLimit)
  {
    assert have + Received(stream) == have + stream[0].bytes + Received(stream[1..]);
    assert stream == [stream[0]] + stream[1..];
  }

  lemma {:induction false} OutcomeOver(have: seq<Byte>, stream: seq<Chunk>, max: nat)
    requires stream != [] && stream[0].Data? && |have| <= max < |have + stream[0].bytes|
    ensures Outcome(have, stream, max, Truncate) == Ok(Truncated(have + stream[0].bytes[..max - |have|]))
  {
    assert (have + Received(stream))[..max] == have + stream[0].bytes[..max - |have|];
  }

  method StreamBytesWithLimit(stream: seq<Chunk>, max: nat, onLimit: OnLimit)
    returns (r: Result<StreamedBytes, StreamError>)
    ensures r == Outcome([], stream, max, onLimit)
  {
    var accumulated: seq<Byte> := [];
    var i := 0;
    while i < |stream|
      invariant 0 <= i <= |stream|
      invariant |accumulated| <= max
      invariant Outcome([], stream, max, onLimit) == Outcome(accumulated, stream[i..], max, onLimit)
    {
      var next := stream[i];
      assert stream[i..][0] == next && stream[i..][1..] == stream[i + 1..];
      if next.ReadFailed? {
        return Err(Read);
      }
      var chunk := next.bytes;
      if |accumulated| + |chunk| > max {
        match onLimit
        case Truncate =>
          var room: nat := max - |accumulated|;
          OutcomeOver(accumulated, stream[i..], max);
          return Ok(Truncated(accumulated + chunk[..room]));
        case Abort =>
          return Err(LimitExceeded);
        case Error =>
          return Err(TooLarge(|accumulated| + |chunk|, max));
      }
      OutcomeStep(accumulated, stream[i..], max, onLimit);
      accumulated := accumulated + chunk;
      i := i + 1;
    }
    assert stream[i..] == [] && accumulated + [] == accumulated;
    return Ok(Complete(accumulated));
  }

  /** The chunks of a body that is cut before each of the given lengths. */
  function Whole(pieces: seq<seq<Byte>>): seq<Chunk> {
    seq(|pieces|, i requires 0 <= i < |pieces| => Data(pieces[i]))
  }

  lemma {:induction false} ReceivedWhole(pieces: seq<seq<Byte>>)
    ensures Received(Whole(pieces)) == Flat(pieces)
    ensures ReadFailed !in Whole(pieces)
  {
    if pieces != [] {
      assert Whole(pieces)[1..] == Whole(pieces[1..]);
      ReceivedWhole(pieces[1..]);
    }
  }

  /** These bytes, cut somehow. */
  ghost predicate IsBody(stream: seq<Chunk>, bytes: seq<Byte>) {
    exists pieces: seq<seq<Byte>> :: stream == Whole(pieces) && Flat(pieces) == bytes
  }

  /** A stream is a body if and only if no read fails, and then what is received is that body. */
  lemma {:induction false} IsBodyExactly(stream: seq<Chunk>, bytes: seq<Byte>)
    ensures IsBody(stream, bytes) <==> ReadFailed !in stream && Received(stream) == bytes
  {
    if IsBody(stream, bytes) {
      var pieces: seq<seq<Byte>> :| stream == Whole(pieces) && Flat(pieces) == bytes;
      ReceivedWhole(pieces);
    }
    if ReadFailed !in stream {
      forall i | 0 <= i < |stream|
        ensures stream[i].Data?
      {
        assert stream[i] in stream;
      }
      var pieces := seq(|stream|, i requires 0 <= i < |stream| => stream[i].bytes);
      assert stream == Whole(pieces);
      ReceivedWhole(pieces);
    }
  }

  /**
   The outcome does not depend on how a body is cut into chunks: it is the whole body when
   that fits, else exactly the first `max` bytes, or an error. Only the byte count that a
   `TooLarge` error reports can differ between cuttings, and it stays within the body.
   */
  lemma {:induction false} ChunkSplitInvariance(pieces: seq<seq<Byte>>, max: nat, onLimit: OnLimit)
    ensures var body := Flat(pieces);
            match Outcome([], Whole(pieces), max, onLimit)
            case Ok(Complete(bytes)) => |body| <= max && bytes == body
            case Ok(Truncated(bytes)) => max < |body| && onLimit == Truncate && bytes == body[..max]
            case Err(LimitExceeded) => max < |body| && onLimit == Abort
            case Err(TooLarge(got, m)) => m == max < got <= |body| && onLimit == Error
            case Err(Read) => false
  {
    ReceivedWhole(pieces);
  }

  /** Two cuttings of one body agree on everything but the count inside `TooLarge`. */
  lemma {:induction false} SameBodySameOutcome(p: seq<seq<Byte>>, q: seq<seq<Byte>>, max: nat, onLimit: OnLimit)
    requires Flat(p) == Flat(q)
    ensures var a, b := Outcome([], Whole(p), max, onLimit), Outcome([], Whole(q), max, onLimit);
            a == b || (onLimit == Error && a.Err? && b.Err? && a.error.TooLarge? && b.error.TooLarge?)
  {
    ReceivedWhole(p);
    ReceivedWhole(q);
  }

  /** Where the first read fails. */
  function FirstFailure(stream: seq<Chunk>): (k: nat)
    requires ReadFailed in stream
    ensures k < |stream| && stream[k].ReadFailed?
  {
    if stream[0].ReadFailed? then 0
    else
      assert stream == [stream[0]] + stream[1..];
      1 + FirstFailure(stream[1..])
  }

  /** The first failure is the one with none before it, and what is received comes before it. */
  lemma {:induction false} FirstFailureExactly(stream: seq<Chunk>, k: nat)
    requires k < |stream| && stream[k].ReadFailed?
    ensures ReadFailed in stream
    ensures k == FirstFailure(stream) <==> ReadFailed !in stream[..k]
    ensures k == FirstFailure(stream) ==> Received(stream[..k]) == Received(stream)
  {
    assert stream[k] in stream;
    if k > 0 {
      assert stream[..k] == [stream[0]] + stream[1..][..k - 1];
      if stream[0].Data? {
        FirstFailureExactly(stream[1..], k - 1);
      }
    }
  }

  /** A read error is reported exactly when it comes before the cap is passed. */
  lemma {:induction false} ReadErrorExactly(stream: seq<Chunk>, max: nat, onLimit: OnLimit)
    ensures Outcome([], stream, max, onLimit) == Err(Read)
            <==> exists k :: 0 <= k < |stream| && stream[k].ReadFailed? && |Received(stream[..k])| <= max
                             && ReadFailed !in stream[..k]
  {
    assert [] + Received(stream) == Received(stream);
    if ReadFailed in stream {
      var first := FirstFailure(stream);
      FirstFailureExactly(stream, first);
      forall k | 0 <= k < |stream| && stream[k].ReadFailed? && ReadFailed !in stream[..k]
        ensures k == first
      {
        FirstFailureExactly(stream, k);
      }
    }
  }
}
