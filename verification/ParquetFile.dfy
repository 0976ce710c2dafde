/** Writing all rows in batches, and reading the file back (src/export/parquet.rs). */
module ParquetFile {
  import opened ExportRows
  import opened RecordBatches
  import opened Sequences
  import opened Wrappers
  import opened Parquet
  import opened ParquetReading
  import Fields

  // ---------- Batches ----------

  /** The full batches of some rows, and the rows left over. */
  function FullBatches<T>(rows: seq<T>, size: nat): seq<seq<T>>
    requires size >= 1
  {
    if |rows| < size then [] else [rows[..size]] + FullBatches(rows[size..], size)
  }

  function LeftOver<T>(rows: seq<T>, size: nat): (rest: seq<T>)
    requires size >= 1
    ensures |rest| < size
  {
    if |rows| < size then rows else LeftOver(rows[size..], size)
  }

  function Batches<T>(rows: seq<T>, size: nat): seq<seq<T>>
    requires size >= 1
  {
    FullBatches(rows, size) + (if LeftOver(rows, size) == [] then [] else [LeftOver(rows, size)])
  }

  lemma {:induction false} BatchPush<T>(rows: seq<T>, row: T, size: nat)
    requires size >= 1
    ensures var batch := LeftOver(rows, size) + [row];
            if |batch| == size then
              FullBatches(rows + [row], size) == FullBatches(rows, size) + [batch] && LeftOver(rows + [row], size) == []
            else
              FullBatches(rows + [row], size) == FullBatches(rows, size) && LeftOver(rows + [row], size) == batch
    decreases |rows|
  {
    var longer := rows + [row];
    if |rows| >= size {
      assert longer[..size] == rows[..size] && longer[size..] == rows[size..] + [row];
      BatchPush(rows[size..], row, size);
    } else if |longer| == size {
      assert longer[..size] == longer && longer[size..] == [];
    }
  }

  /** The batches are the rows in order; none is empty, and all but the last have exactly the batch size. */
  lemma {:induction false} BatchesConserveRows<T>(rows: seq<T>, size: nat)
    requires size >= 1
    ensures Flat(Batches(rows, size)) == rows
    ensures forall b :: b in Batches(rows, size) ==> 1 <= |b| <= size
    ensures forall i :: 0 <= i < |Batches(rows, size)| - 1 ==> |Batches(rows, size)[i]| == size
    decreases |rows|
  {
    if |rows| >= size {
      var rest := Batches(rows[size..], size);
      BatchesConserveRows(rows[size..], size);
      assert Batches(rows, size) == [rows[..size]] + rest;
    } else if rows != [] {
      assert Batches(rows, size) == [rows];
      assert Flat([rows]) == rows + Flat([]);
    }
  }

  /** More rows only add to the full batches. */
  lemma {:induction false} FullBatchesGrow<T>(rows: seq<T>, more: seq<T>, size: nat)
    requires size >= 1
    ensures FullBatches(rows, size) <= FullBatches(rows + more, size)
    decreases |rows|
  {
    if |rows| >= size {
      var longer := rows + more;
      assert longer[..size] == rows[..size] && longer[size..] == rows[size..] + more;
      FullBatchesGrow(rows[size..], more, size);
    }
  }

  // ---------- Writing ----------

  /** What the row query yields next; it also fails when a row cannot be built. */
  datatype Fetched = Fetched(row: ExportRow) | QueryFailed

  datatype ExportError = NoOutputFile | CannotCreate | QueryError | WriteError | CloseError

  /** The rows that arrive before the query ends or fails. */
  function Arrived(stream: seq<Fetched>): seq<ExportRow> {
    if stream == [] || stream[0].QueryFailed? then [] else [stream[0].row] + Arrived(stream[1..])
  }

  const BATCH_SIZE := 10_000

  /** The batches that should be written: after a query failure, only the full ones. */
  function Planned(stream: seq<Fetched>): seq<seq<ExportRow>> {
    if QueryFailed in stream then FullBatches(Arrived(stream), BATCH_SIZE) else Batches(Arrived(stream), BATCH_SIZE)
  }

  function EncodeBatches(batches: seq<seq<ExportRow>>): seq<RecordBatch> {
    Mapped(EncodeBatch, batches)
  }

  /** What a file holds once some batches are written to it in turn, up to the first that it refuses. */
  function Kept<B>(accepts: seq<B> -> bool, before: seq<B>, todo: seq<B>): seq<B>
    decreases |todo|
  {
    if todo == [] || !accepts(before + [todo[0]]) then before
    else Kept(accepts, before + [todo[0]], todo[1..])
  }

  lemma {:induction false} KeptIsPrefix<B>(accepts: seq<B> -> bool, before: seq<B>, todo: seq<B>)
    ensures before <= Kept(accepts, before, todo) <= before + todo
    decreases |todo|
  {
    if todo != [] && accepts(before + [todo[0]]) {
      KeptIsPrefix(accepts, before + [todo[0]], todo[1..]);
      assert before + [todo[0]] + todo[1..] == before + todo;
    }
  }

  /** A file takes all of `done`, one write after the other. */
  predicate TakesAll<B(==)>(accepts: seq<B> -> bool, before: seq<B>, done: seq<B>) {
    Kept(accepts, before, done) == before + done
  }

  /** What is kept of `done` and more, once `done` is taken. */
  lemma {:induction false} KeptAfter<B>(accepts: seq<B> -> bool, before: seq<B>, done: seq<B>, more: seq<B>)
    requires TakesAll(accepts, before, done)
    ensures Kept(accepts, before, done + more) == Kept(accepts, before + done, more)
    decreases |done|
  {
    if done == [] {
      assert done + more == more && before + done == before;
    } else {
      var first, rest := done[0], done[1..];
      assert |Kept(accepts, before, done)| > |before|;
      assert (done + more)[1..] == rest + more;
      assert before + done == before + [first] + rest;
      KeptAfter(accepts, before + [first], rest, more);
    }
  }

  lemma {:induction false} TakesMore<B>(accepts: seq<B> -> bool, before: seq<B>, done: seq<B>, batch: B)
    requires TakesAll(accepts, before, done)
    ensures TakesAll(accepts, before, done + [batch]) <==> accepts(before + done + [batch])
  {
    KeptAfter(accepts, before, done, [batch]);
    assert before + (done + [batch]) == before + done + [batch];
  }

  /** A refused batch is where writing stops. */
  lemma {:induction false} Refused<B>(accepts: seq<B> -> bool, before: seq<B>, done: seq<B>, batch: B, planned: seq<B>)
    requires done + [batch] <= planned
    requires TakesAll(accepts, before, done) && !accepts(before + done + [batch])
    ensures Kept(accepts, before, planned) == before + done && !TakesAll(accepts, before, planned)
  {
    var more := planned[|done|..];
    assert planned == done + more && more[0] == batch;
    KeptAfter(accepts, before, done, more);
  }

  lemma {:induction false} ArrivedPush(stream: seq<Fetched>, i: nat)
    requires i <= |stream| && QueryFailed !in stream[..i]
    ensures Arrived(stream) == Arrived(stream[..i]) + Arrived(stream[i..])
    ensures |Arrived(stream[..i])| == i
  {
    if i > 0 {
      assert stream[..i][0] == stream[0] && stream[0] in stream[..i];
      assert stream[..i][1..] == stream[1..][..i - 1] && stream[i..] == stream[1..][i - 1..];
      forall f | f in stream[1..][..i - 1]
        ensures f in stream[..i]
      {
      }
      ArrivedPush(stream[1..], i - 1);
    } else {
      assert stream[0..] == stream;
    }
  }

  lemma {:induction false} ArrivedStep(stream: seq<Fetched>, i: nat)
    requires i < |stream| && QueryFailed !in stream[..i] && stream[i].Fetched?
    ensures QueryFailed !in stream[..i + 1]
    ensures Arrived(stream[..i + 1]) == Arrived(stream[..i]) + [stream[i].row]
  {
    var longer := stream[..i + 1];
    assert longer == stream[..i] + [stream[i]];
    assert longer[..i] == stream[..i] && longer[i..] == [stream[i]];
    ArrivedPush(longer, i);
    assert Arrived([stream[i]]) == [stream[i].row] + Arrived([]);
  }

  /** The batches filled so far are the first of the planned ones. */
  lemma {:induction false} FilledIsPlanned(stream: seq<Fetched>, i: nat)
    requires i <= |stream| && QueryFailed !in stream[..i]
    ensures FullBatches(Arrived(stream[..i]), BATCH_SIZE) <= Planned(stream)
  {
    ArrivedPush(stream, i);
    FullBatchesGrow(Arrived(stream[..i]), Arrived(stream[i..]), BATCH_SIZE);
  }

  lemma {:induction false} FailureStops(stream: seq<Fetched>, i: nat)
    requires i < |stream| && QueryFailed !in stream[..i] && stream[i].QueryFailed?
    ensures QueryFailed in stream && Arrived(stream) == Arrived(stream[..i])
  {
    ArrivedPush(stream, i);
    assert stream[i] in stream && stream[i..][0] == stream[i];
  }

  /** A file holds what it held before and the batches written since. */
  ghost predicate HasWritten(w: ArrowWriter, before: seq<RecordBatch>, written: seq<seq<ExportRow>>)
    reads w
  {
    w.batches == before + EncodeBatches(written) && TakesAll(w.accepts, before, EncodeBatches(written)) && !w.closed
  }

  /** A file takes the batches written and then refuses one. */
  ghost predicate Refuses(w: ArrowWriter, before: seq<RecordBatch>, written: seq<seq<ExportRow>>,
                          batch: seq<ExportRow>)
  {
    && TakesAll(w.accepts, before, EncodeBatches(written))
    && !w.accepts(before + EncodeBatches(written) + [EncodeBatch(batch)])
  }

  method Flush(w: ArrowWriter, batch: seq<ExportRow>, ghost before: seq<RecordBatch>,
               ghost written: seq<seq<ExportRow>>)
    returns (ok: bool)
    requires HasWritten(w, before, written)
    modifies w
    ensures ok ==> HasWritten(w, before, written + [batch])
    ensures !ok ==> HasWritten(w, before, written) && Refuses(w, before, written, batch)
  {
    TakesMore(w.accepts, before, EncodeBatches(written), EncodeBatch(batch));
    MappedConcat(EncodeBatch, written, [batch]);
    assert Mapped(EncodeBatch, [batch]) == [EncodeBatch(batch)];
    ok := WriteBatch(w, batch);
    assert before + EncodeBatches(written + [batch]) == before + EncodeBatches(written) + [EncodeBatch(batch)];
  }

  /** So a refused batch of the plan leaves the file with what was kept of the plan. */
  lemma {:induction false} RefusedInPlan(w: ArrowWriter, before: seq<RecordBatch>, written: seq<seq<ExportRow>>,
                                         batch: seq<ExportRow>, planned: seq<seq<ExportRow>>)
    requires Refuses(w, before, written, batch) && written + [batch] <= planned
    ensures Kept(w.accepts, before, EncodeBatches(planned)) == before + EncodeBatches(written)
    ensures !TakesAll(w.accepts, before, EncodeBatches(planned))
  {
    MappedConcat(EncodeBatch, written, [batch]);
    assert Mapped(EncodeBatch, [batch]) == [EncodeBatch(batch)];
    EncodedPrefix(EncodeBatch, written + [batch], planned);
    Refused(w.accepts, before, EncodeBatches(written), EncodeBatch(batch), EncodeBatches(planned));
  }

  /**
   Exports a stream of rows, for any file. The file always holds the planned batches up to the
   first that it refuses; the count is returned, and the file closed, exactly when the query ends,
   the file takes every batch, and it can be closed. Then it holds every row.
   */
  method ExportParquet(file: Option<ArrowWriter>, output: Option<string>, stream: seq<Fetched>)
    returns (r: Result<nat, ExportError>)
    requires file.Some? ==> !file.value.closed
    modifies if file.Some? then {file.value} else {}
    ensures output.None? || output.value == "-" ==> r == Err(NoOutputFile)
    ensures output.Some? && output.value != "-" && file.None? ==> r == Err(CannotCreate)
    ensures file.Some? && r == Err(NoOutputFile) ==> file.value.batches == old(file.value.batches)
    ensures output.Some? && output.value != "-" && file.Some? ==>
              var w, planned := file.value, EncodeBatches(Planned(stream));
              var taken := TakesAll(w.accepts, old(w.batches), planned);
              && w.batches == Kept(w.accepts, old(w.batches), planned)
              && r == (if !taken then Err(WriteError)
                       else if QueryFailed in stream then Err(QueryError)
                       else if !w.closes then Err(CloseError)
                       else Ok(|stream|))
              && (w.closed <==> r.Ok?)
    ensures r.Ok? && old(file.value.batches) == [] ==>
              HoldsFirst(file.value.batches, stream, |stream|) && r.value == |stream|
    ensures && output.Some? && output.value != "-" && file.Some? && QueryFailed !in stream
            && (forall batches :: file.value.accepts(batches)) && file.value.closes
            ==> r == Ok(|stream|)
  {
    if output.None? || output.value == "-" {
      return Err(NoOutputFile);
    }
    if file.None? {
      return Err(CannotCreate);
    }
    r := WriteAll(file.value, stream);
    ghost var w, planned := file.value, EncodeBatches(Planned(stream));
    if forall batches :: w.accepts(batches) {
      TakesEverything(w.accepts, old(w.batches), planned);
    }
    if r.Ok? && old(w.batches) == [] {
      EmptyTakes(w.accepts, planned);
      WholeExport(stream);
    }
  }

  method WriteAll(w: ArrowWriter, stream: seq<Fetched>) returns (r: Result<nat, ExportError>)
    requires !w.closed
    modifies w
    ensures var planned := EncodeBatches(Planned(stream));
            var taken := TakesAll(w.accepts, old(w.batches), planned);
            && w.batches == Kept(w.accepts, old(w.batches), planned)
            && r == (if !taken then Err(WriteError)
                     else if QueryFailed in stream then Err(QueryError)
                     else if !w.closes then Err(CloseError)
                     else Ok(|stream|))
            && (w.closed <==> r.Ok?)
  {
    var batchRows: seq<ExportRow> := [];
    var recordCount := 0;
    ghost var before, written: seq<seq<ExportRow>> := w.batches, [];
    assert before + [] == before;
    for i := 0 to |stream|
      invariant QueryFailed !in stream[..i] && recordCount == i
      invariant batchRows == LeftOver(Arrived(stream[..i]), BATCH_SIZE)
      invariant written == FullBatches(Arrived(stream[..i]), BATCH_SIZE)
      invariant HasWritten(w, before, written)
    {
      if stream[i].QueryFailed? {
        FailureStops(stream, i);
        return Err(QueryError);
      }
      ArrivedStep(stream, i);
      BatchPush(Arrived(stream[..i]), stream[i].row, BATCH_SIZE);
      batchRows := batchRows + [stream[i].row];
      if |batchRows| >= BATCH_SIZE {
        var ok := Flush(w, batchRows, before, written);
        if !ok {
          FilledIsPlanned(stream, i + 1);
          RefusedInPlan(w, before, written, batchRows, Planned(stream));
          return Err(WriteError);
        }
        written := written + [batchRows];
        batchRows := [];
      }
      recordCount := recordCount + 1;
    }
    assert stream[..|stream|] == stream;
    if batchRows != [] {
      var ok := Flush(w, batchRows, before, written);
      if !ok {
        RefusedInPlan(w, before, written, batchRows, Planned(stream));
        return Err(WriteError);
      }
      written := written + [batchRows];
    }
    assert written == Planned(stream);
    var ok := w.Close();
    return if ok then Ok(recordCount) else Err(CloseError);
  }

  lemma {:induction false} EncodedPrefix<S, T>(f: S -> T, a: seq<S>, b: seq<S>)
    requires a <= b
    ensures Mapped(f, a) <= Mapped(f, b)
  {
  }

  // ---------- Reading the file back ----------

  lemma {:induction false} AllArrive(stream: seq<Fetched>)
    requires QueryFailed !in stream
    ensures |Arrived(stream)| == |stream|
    ensures forall i :: 0 <= i < |stream| ==> stream[i] == Fetched(Arrived(stream)[i])
  {
    if stream != [] {
      assert stream[0] in stream;
      AllArrive(stream[1..]);
    }
  }

  lemma {:induction false} FirstArrive(stream: seq<Fetched>, n: nat)
    requires n < |stream| && stream[n].QueryFailed? && QueryFailed !in stream[..n]
    ensures |Arrived(stream)| == n
    ensures forall i :: 0 <= i < n ==> stream[i] == Fetched(Arrived(stream)[i])
  {
    FailureStops(stream, n);
    AllArrive(stream[..n]);
  }

  lemma {:induction false} TakesEverything<B>(accepts: seq<B> -> bool, before: seq<B>, todo: seq<B>)
    requires forall b :: accepts(b)
    ensures TakesAll(accepts, before, todo)
    decreases |todo|
  {
    if todo == [] {
      assert before + todo == before;
    } else {
      TakesEverything(accepts, before + [todo[0]], todo[1..]);
      assert before + [todo[0]] + todo[1..] == before + todo;
    }
  }

  lemma {:induction false} FullBatchesHold<T>(rows: seq<T>, size: nat) returns (n: nat)
    requires size >= 1
    ensures n == |FullBatches(rows, size)| && |Flat(FullBatches(rows, size))| == n * size
    ensures Flat(FullBatches(rows, size)) <= rows && |rows| < (n + 1) * size
    decreases |rows|
  {
    if |rows| < size {
      n := 0;
    } else {
      var m := FullBatchesHold(rows[size..], size);
      n := m + 1;
      var rest := Flat(FullBatches(rows[size..], size));
      OneBatchMore(rows, size, rest);
      Distribute(m, size);
    }
  }

  lemma {:induction false} OneBatchMore<T>(rows: seq<T>, size: nat, rest: seq<T>)
    requires size <= |rows| && rest <= rows[size..]
    ensures rows[..size] + rest <= rows && |rows[..size] + rest| == size + |rest|
  {
    assert rows == rows[..size] + rows[size..];
  }

  lemma {:induction false} Distribute(m: nat, size: nat)
    ensures (m + 1) * size == m * size + size && (m + 1 + 1) * size == m * size + size + size
  {
  }

  /** A reader of one batch. */
  function ReadBatch(batch: RecordBatch): seq<ReadRow>
    requires Readable(batch)
  {
    seq(RowCount(batch), i requires 0 <= i < RowCount(batch) => RowIn(batch, i))
  }

  ghost predicate AllReadable(batches: seq<RecordBatch>) {
    forall b :: b in batches ==> Readable(b)
  }

  /** A reader of a whole file. */
  function ReadFile(batches: seq<RecordBatch>): seq<ReadRow>
    requires AllReadable(batches)
  {
    if batches == [] then []
    else
      assert forall b :: b in batches[1..] ==> b in batches;
      ReadBatch(batches[0]) + ReadFile(batches[1..])
  }

  lemma {:induction false} ReadOfEncode(rows: seq<ExportRow>)
    ensures Readable(EncodeBatch(rows))
    ensures ReadBatch(EncodeBatch(rows)) == Mapped(Exported, rows)
  {
    BatchIsReadable(rows);
    RowCountOfBuilt(PushOrder(), Fields.Schema(), rows);
    forall i | 0 <= i < |rows|
      ensures RowIn(EncodeBatch(rows), i) == Exported(rows[i])
    {
      TypedRoundTrip(rows, i);
    }
  }

  lemma {:induction false} ReadOfEncodedBatches(batches: seq<seq<ExportRow>>)
    ensures AllReadable(EncodeBatches(batches))
    ensures ReadFile(EncodeBatches(batches)) == Mapped(Exported, Flat(batches))
  {
    if batches != [] {
      var first, rest := batches[0], batches[1..];
      ReadOfEncode(first);
      ReadOfEncodedBatches(rest);
      ReadCons(EncodeBatch(first), EncodeBatches(rest), EncodeBatches(batches));
      MappedConcat(Exported, first, Flat(rest));
    }
  }

  lemma {:induction false} ReadCons(first: RecordBatch, rest: seq<RecordBatch>, batches: seq<RecordBatch>)
    requires Readable(first) && AllReadable(rest)
    requires |batches| == |rest| + 1 && batches[0] == first && batches[1..] == rest
    ensures AllReadable(batches) && ReadFile(batches) == ReadBatch(first) + ReadFile(rest)
  {
    assert batches == [first] + rest;
  }

  /** What a file holds reads back as the first rows that the query yielded, in order. */
  ghost predicate HoldsFirst(batches: seq<RecordBatch>, stream: seq<Fetched>, n: nat) {
    && AllReadable(batches)
    && |ReadFile(batches)| == n <= |stream|
    && forall i :: 0 <= i < n ==> stream[i].Fetched? && ReadFile(batches)[i] == Exported(stream[i].row)
  }

  lemma {:induction false} HeldRows(batches: seq<seq<ExportRow>>, stream: seq<Fetched>, rows: seq<ExportRow>)
    requires Flat(batches) <= rows && |rows| <= |stream|
    requires forall i :: 0 <= i < |rows| ==> stream[i] == Fetched(rows[i])
    ensures HoldsFirst(EncodeBatches(batches), stream, |Flat(batches)|)
  {
    ReadOfEncodedBatches(batches);
  }

  /** If the query does not fail and the file takes all batches, the file holds every row. */
  lemma {:induction false} WholeExport(stream: seq<Fetched>)
    requires QueryFailed !in stream
    ensures HoldsFirst(EncodeBatches(Planned(stream)), stream, |stream|)
  {
    AllArrive(stream);
    BatchesConserveRows(Arrived(stream), BATCH_SIZE);
    HeldRows(Planned(stream), stream, Arrived(stream));
  }

  /** If the query fails behind `n` rows, a file that takes everything holds all full batches of 10000 of them. */
  lemma {:induction false} FailedQuery(stream: seq<Fetched>, n: nat) returns (full: nat)
    requires n < |stream| && stream[n].QueryFailed? && QueryFailed !in stream[..n]
    ensures HoldsFirst(EncodeBatches(Planned(stream)), stream, full * 10_000)
    ensures full * 10_000 <= n < full * 10_000 + 10_000
  {
    FirstArrive(stream, n);
    assert stream[n] in stream;
    full := FullBatchesHold(Arrived(stream), BATCH_SIZE);
    HeldRows(Planned(stream), stream, Arrived(stream));
  }

  lemma {:induction false} EmptyTakes<B>(accepts: seq<B> -> bool, planned: seq<B>)
    requires TakesAll(accepts, [], planned)
    ensures Kept(accepts, [], planned) == planned
  {
    assert [] + planned == planned;
  }

  /** Whatever the batch size, the file reads back as all the rows in order. */
  lemma {:induction false} FileRoundTrip(rows: seq<ExportRow>, size: nat)
    requires size >= 1
    ensures AllReadable(EncodeBatches(Batches(rows, size)))
    ensures ReadFile(EncodeBatches(Batches(rows, size))) == Mapped(Exported, rows)
  {
    BatchesConserveRows(rows, size);
    ReadOfEncodedBatches(Batches(rows, size));
  }

  /** An empty file keeps the first of what is written to it. */
  lemma {:induction false} KeptOfMapped<S, B>(accepts: seq<B> -> bool, f: S -> B, items: seq<S>) returns (n: nat)
    ensures n <= |items| && Kept(accepts, [], Mapped(f, items)) == Mapped(f, items[..n])
  {
    var todo := Mapped(f, items);
    KeptIsPrefix(accepts, [], todo);
    n := |Kept(accepts, [], todo)|;
    assert [] + todo == todo;
    assert todo[..n] == Mapped(f, items[..n]);
  }

  /** After any export to an empty file, even a failed one, the batches it took read back as the first rows in order. */
  lemma {:induction false} FileAlwaysReads(stream: seq<Fetched>, accepts: seq<RecordBatch> -> bool)
    ensures var kept := Kept(accepts, [], EncodeBatches(Planned(stream)));
            AllReadable(kept) && ReadFile(kept) <= Mapped(Exported, Arrived(stream))
  {
    var planned := Planned(stream);
    var n := KeptOfMapped(accepts, EncodeBatch, planned);
    ReadOfEncodedBatches(planned[..n]);
    PlannedIsPrefix(stream, n);
    EncodedPrefix(Exported, Flat(planned[..n]), Arrived(stream));
  }

  /**
   If the query yields rows as they are built, then in whatever the file took, counts are the
   lengths of the lists beside them and final redirects are the last ones listed.
   */
  lemma {:induction false} FileIsConsistent(stream: seq<Fetched>, accepts: seq<RecordBatch> -> bool)
    requires forall row :: row in Arrived(stream) ==> IsBuilt(row)
    ensures var kept := Kept(accepts, [], EncodeBatches(Planned(stream)));
            AllReadable(kept) && forall r :: r in ReadFile(kept) ==> IsConsistent(r)
  {
    FileAlwaysReads(stream, accepts);
    ConsistentRows(ReadFile(Kept(accepts, [], EncodeBatches(Planned(stream)))), Arrived(stream));
  }

  lemma {:induction false} ConsistentRows(read: seq<ReadRow>, rows: seq<ExportRow>)
    requires read <= Mapped(Exported, rows) && forall row :: row in rows ==> IsBuilt(row)
    ensures forall r :: r in read ==> IsConsistent(r)
  {
    forall i | 0 <= i < |read|
      ensures IsConsistent(read[i])
    {
      assert read[i] == Exported(rows[i]) && rows[i] in rows;
      BuiltIsConsistent(rows[i]);
    }
  }

  lemma {:induction false} PlannedIsPrefix(stream: seq<Fetched>, n: nat)
    requires n <= |Planned(stream)|
    ensures Flat(Planned(stream)[..n]) <= Arrived(stream)
  {
    var all := Batches(Arrived(stream), BATCH_SIZE);
    assert Planned(stream) <= all;
    BatchesConserveRows(Arrived(stream), BATCH_SIZE);
    assert all == Planned(stream)[..n] + all[n..];
    FlatConcat(Planned(stream)[..n], all[n..]);
  }
}
