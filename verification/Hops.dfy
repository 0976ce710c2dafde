/** Following redirects by hand, up to a limit: what both hop loops have in common. */
module Hops {
  import opened Http
  import opened Wrappers

  /** Where the answer to a request for a URL leads on to, if anywhere. */
  type Next = (string, Exchange) -> Option<string>

  type Network = seq<string> -> Exchange

  /** The URLs requested after `before`, starting with `url` and following at most `limit` redirects. */
  function Trail(next: Next, network: Network, before: seq<string>, url: string, limit: nat): (trail: seq<string>)
    ensures 1 <= |trail| <= limit + 1
    ensures trail[0] == url
    decreases limit
  {
    var here := before + [url];
    var to := next(url, network(here));
    if limit == 0 || to.None? then [url] else [url] + Trail(next, network, here, to.value, limit - 1)
  }

  /** The answer to the `i`-th request of a trail. */
  function AnswerAt(network: Network, before: seq<string>, trail: seq<string>, i: nat): Exchange
    requires i < |trail|
  {
    network(before + trail[..i + 1])
  }

  function LastAnswer(network: Network, before: seq<string>, trail: seq<string>): Exchange
    requires trail != []
  {
    AnswerAt(network, before, trail, |trail| - 1)
  }

  /** Each answer but the last leads to the next URL, and the last leads nowhere unless the limit is used up. */
  ghost predicate IsTrail(next: Next, network: Network, before: seq<string>, url: string, limit: nat,
                          trail: seq<string>)
  {
    && 1 <= |trail| <= limit + 1
    && trail[0] == url
    && (forall i :: 0 <= i < |trail| - 1 ==>
                      next(trail[i], AnswerAt(network, before, trail, i)) == Some(trail[i + 1]))
    && (|trail| <= limit ==> next(trail[|trail| - 1], LastAnswer(network, before, trail)).None?)
  }

  lemma {:induction false} AnswerAtShift(network: Network, before: seq<string>, url: string, rest: seq<string>, i: nat)
    requires i < |rest|
    ensures AnswerAt(network, before, [url] + rest, i + 1) == AnswerAt(network, before + [url], rest, i)
  {
    assert ([url] + rest)[..i + 2] == [url] + rest[..i + 1];
    assert before + ([url] + rest[..i + 1]) == before + [url] + rest[..i + 1];
  }

  lemma {:induction false} AnswerAtFirst(network: Network, before: seq<string>, trail: seq<string>)
    requires trail != []
    ensures AnswerAt(network, before, trail, 0) == network(before + [trail[0]])
  {
    assert trail[..1] == [trail[0]];
  }

  lemma {:induction false} TrailIsTrail(next: Next, network: Network, before: seq<string>, url: string, limit: nat)
    ensures IsTrail(next, network, before, url, limit, Trail(next, network, before, url, limit))
    decreases limit
  {
    var trail := Trail(next, network, before, url, limit);
    AnswerAtFirst(network, before, trail);
    if |trail| > 1 {
      var rest := trail[1..];
      assert trail == [url] + rest;
      TrailIsTrail(next, network, before + [url], rest[0], limit - 1);
      forall i | 0 <= i < |rest|
        ensures AnswerAt(network, before, trail, i + 1) == AnswerAt(network, before + [url], rest, i)
      {
        AnswerAtShift(network, before, url, rest, i);
      }
      forall i | 0 <= i < |trail| - 1
        ensures next(trail[i], AnswerAt(network, before, trail, i)) == Some(trail[i + 1])
      {
        if i > 0 {
          assert rest[i - 1] == trail[i] && rest[i] == trail[i + 1];
          assert next(rest[i - 1], AnswerAt(network, before + [url], rest, i - 1)) == Some(rest[i]);
        }
      }
    }
  }

  lemma {:induction false} OnlyTrail(next: Next, network: Network, before: seq<string>, url: string, limit: nat,
                                     trail: seq<string>)
    requires IsTrail(next, network, before, url, limit, trail)
    ensures trail == Trail(next, network, before, url, limit)
    decreases limit
  {
    AnswerAtFirst(network, before, trail);
    if |trail| > 1 {
      var rest := trail[1..];
      assert trail == [url] + rest;
      assert next(trail[0], AnswerAt(network, before, trail, 0)) == Some(trail[1]);
      forall i | 0 <= i < |rest|
        ensures AnswerAt(network, before + [url], rest, i) == AnswerAt(network, before, trail, i + 1)
      {
        AnswerAtShift(network, before, url, rest, i);
      }
      forall i | 0 <= i < |rest| - 1
        ensures next(rest[i], AnswerAt(network, before + [url], rest, i)) == Some(rest[i + 1])
      {
        assert next(trail[i + 1], AnswerAt(network, before, trail, i + 1)) == Some(trail[i + 2]);
      }
      OnlyTrail(next, network, before + [url], rest[0], limit - 1, rest);
    }
  }

  /** The trail is the one sequence of URLs that is linked and maximal. */
  lemma {:induction false} TrailExactly(next: Next, network: Network, before: seq<string>, url: string, limit: nat,
                                        trail: seq<string>)
    ensures trail == Trail(next, network, before, url, limit)
            <==> IsTrail(next, network, before, url, limit, trail)
  {
    TrailIsTrail(next, network, before, url, limit);
    if IsTrail(next, network, before, url, limit, trail) {
      OnlyTrail(next, network, before, url, limit, trail);
    }
  }

  /** A lower limit only cuts the trail short. */
  lemma {:induction false} TrailPrefix(next: Next, network: Network, before: seq<string>, url: string,
                                       low: nat, high: nat)
    requires low <= high
    ensures var longer := Trail(next, network, before, url, high);
            Trail(next, network, before, url, low)
            == longer[..if |longer| <= low + 1 then |longer| else low + 1]
    decreases low
  {
    var here := before + [url];
    var to := next(url, network(here));
    if low > 0 && to.Some? {
      TrailPrefix(next, network, here, to.value, low - 1, high - 1);
    }
  }

  /** One turn of a loop: what is requested so far and what is still to come make up the same URLs. */
  lemma {:induction false} TrailTurn(next: Next, network: Network, before: seq<string>, url: string, limit: nat)
    ensures var here := before + [url];
            var to := next(url, network(here));
            before + Trail(next, network, before, url, limit)
            == if limit == 0 || to.None? then here else here + Trail(next, network, here, to.value, limit - 1)
  {
  }
}
