/** Resolving a redirect chain hop by hop (src/fetch/redirects.rs). */
module Redirects {
  import opened Http
  import opened Wrappers
  import Hops

  /** One entry of the chain: a URL that was fetched and the status it answered with. */
  datatype Hop = Hop(url: string, status: nat)

  datatype Resolved = Resolved(finalUrl: string, chain: seq<Hop>, response: Option<Response>)

  datatype Failure = ZeroMaxHops | UnsafeStart | RequestFailed | BadLocation

  /** What stays fixed during one run. */
  datatype Policy = Policy(rules: UrlRules, startedHttps: bool, allowLoopback: bool)

  predicate IsRedirectStatus(status: nat) {
    status == 301 || status == 302 || status == 303 || status == 307 || status == 308
  }

  predicate IsLoopback(rules: UrlRules, url: string) {
    match rules.parse(url)
    case Some(Url(_, _, Some(Ipv4(address)), _, _)) => address / 0x100_0000 == 127
    case Some(Url(_, _, Some(Ipv6(address)), _, _)) => address == 1
    case _ => false
  }

  predicate TargetAllowed(policy: Policy, target: Url) {
    && !(policy.startedHttps && target.scheme == "http")
    && ((policy.allowLoopback && IsLoopback(policy.rules, target.text)) || policy.rules.safe(target.text))
  }

  function StartPolicy(rules: UrlRules, allowLoopback: bool, start: string): Policy {
    var parsed := rules.parse(start);
    Policy(rules, parsed.Some? && parsed.value.scheme == "https", allowLoopback)
  }

  /** A Location is an absolute URL, or else relative to the URL that answered. */
  function ResolveTarget(rules: UrlRules, current: string, location: string): Option<Url> {
    match rules.parse(location)
    case Some(target) => Some(target)
    case None =>
      match rules.parse(current)
      case None => None
      case Some(base) => rules.join(base, location)
  }

  /** The URL that an answer redirects to, when that may be followed. */
  function Redirect(policy: Policy, from: string, exchange: Exchange): Option<string> {
    if exchange.SendFailed? || !IsRedirectStatus(exchange.response.status) || !exchange.response.location.Text?
    then None
    else
      var target := ResolveTarget(policy.rules, from, exchange.response.location.text);
      if target.Some? && TargetAllowed(policy, target.value) then Some(target.value.text) else None
  }

  function Follow(policy: Policy): Hops.Next {
    (from: string, exchange: Exchange) => Redirect(policy, from, exchange)
  }

  /** The URLs that a run requests. */
  function ChainTrail(policy: Policy, network: Hops.Network, before: seq<string>, start: string, maxHops: nat)
    : seq<string>
    requires maxHops > 0
  {
    Hops.Trail(Follow(policy), network, before, start, maxHops - 1)
  }

  predicate HasBadLocation(rules: UrlRules, url: string, response: Response) {
    && IsRedirectStatus(response.status)
    && response.location.Text?
    && ResolveTarget(rules, url, response.location.text).None?
  }

  function StatusOf(exchange: Exchange): nat {
    if exchange.Answered? then exchange.response.status else 0
  }

  function ChainOf(network: Hops.Network, before: seq<string>, trail: seq<string>): seq<Hop> {
    seq(|trail|, i requires 0 <= i < |trail| => Hop(trail[i], StatusOf(Hops.AnswerAt(network, before, trail, i))))
  }

  /** How the last answer of a run decides its outcome. */
  function Ending(rules: UrlRules, url: string, last: Exchange, chain: seq<Hop>): Result<Resolved, Failure> {
    if last.SendFailed? then Err(RequestFailed)
    else if HasBadLocation(rules, url, last.response) then Err(BadLocation)
    else
      var response := if IsRedirectStatus(last.response.status) then None else Some(last.response);
      Ok(Resolved(url, chain, response))
  }

  /** Where a run leaves the loop. */
  datatype Exit = SendError | FinalAnswer | NoLocation | InvalidLocation | TargetRefused | HopLimit

  /** The exit that the last answer leads to. */
  function ExitOf(policy: Policy, url: string, last: Exchange): Exit {
    if last.SendFailed? then SendError
    else if !IsRedirectStatus(last.response.status) then FinalAnswer
    else if !last.response.location.Text? then NoLocation
    else
      match ResolveTarget(policy.rules, url, last.response.location.text)
      case None => InvalidLocation
      case Some(target) => if TargetAllowed(policy, target) then HopLimit else TargetRefused
  }

  /** The outcome of a run, read off the URLs it requests. */
  function Outcome(policy: Policy, network: Hops.Network, before: seq<string>, start: string, maxHops: nat)
    : Result<Resolved, Failure>
    requires maxHops > 0
  {
    var trail := ChainTrail(policy, network, before, start, maxHops);
    Ending(policy.rules, trail[|trail| - 1], Hops.LastAnswer(network, before, trail), ChainOf(network, before, trail))
  }

  /** The rest of a run that is about to request `current` and has recorded `chain`. */
  function Rest(policy: Policy, network: Hops.Network, here: seq<string>, current: string, limit: nat,
                chain: seq<Hop>)
    : Result<Resolved, Failure>
    decreases limit
  {
    var exchange := network(here + [current]);
    var longer := chain + [Hop(current, StatusOf(exchange))];
    var to := Redirect(policy, current, exchange);
    if limit == 0 || to.None? then Ending(policy.rules, current, exchange, longer)
    else Rest(policy, network, here + [current], to.value, limit - 1, longer)
  }

  lemma {:induction false} RestIsOutcome(policy: Policy, network: Hops.Network, here: seq<string>, current: string,
                                         limit: nat, chain: seq<Hop>)
    ensures var trail := Hops.Trail(Follow(policy), network, here, current, limit);
            Rest(policy, network, here, current, limit, chain)
            == Ending(policy.rules, trail[|trail| - 1], Hops.LastAnswer(network, here, trail),
                      chain + ChainOf(network, here, trail))
    decreases limit
  {
    var trail := Hops.Trail(Follow(policy), network, here, current, limit);
    Hops.AnswerAtFirst(network, here, trail);
    var exchange := network(here + [current]);
    var entry := Hop(current, StatusOf(exchange));
    if |trail| == 1 {
      assert ChainOf(network, here, trail) == [entry];
    } else {
      var to := Redirect(policy, current, exchange).value;
      var rest := Hops.Trail(Follow(policy), network, here + [current], to, limit - 1);
      assert trail == [current] + rest;
      RestIsOutcome(policy, network, here + [current], to, limit - 1, chain + [entry]);
      TrailEndsAlike(network, here, current, rest, chain);
    }
  }

  /** A trail ends as its rest does, and its chain is one entry longer. */
  lemma {:induction false} TrailEndsAlike(network: Hops.Network, here: seq<string>, url: string, rest: seq<string>,
                                          chain: seq<Hop>)
    requires rest != []
    ensures ([url] + rest)[|rest|] == rest[|rest| - 1]
    ensures Hops.LastAnswer(network, here, [url] + rest) == Hops.LastAnswer(network, here + [url], rest)
    ensures chain + ChainOf(network, here, [url] + rest)
            == chain + [Hop(url, StatusOf(network(here + [url])))] + ChainOf(network, here + [url], rest)
  {
    Hops.AnswerAtShift(network, here, url, rest, |rest| - 1);
    ChainOfCons(network, here, url, rest);
  }

  lemma {:induction false} ChainOfCons(network: Hops.Network, here: seq<string>, url: string, rest: seq<string>)
    ensures ChainOf(network, here, [url] + rest)
            == [Hop(url, StatusOf(network(here + [url])))] + ChainOf(network, here + [url], rest)
  {
    var trail := [url] + rest;
    Hops.AnswerAtFirst(network, here, trail);
    forall i | 0 <= i < |rest|
      ensures ChainOf(network, here, trail)[i + 1] == ChainOf(network, here + [url], rest)[i]
    {
      Hops.AnswerAtShift(network, here, url, rest, i);
    }
  }

  lemma {:induction false} RunIsOutcome(policy: Policy, network: Hops.Network, before: seq<string>, start: string,
                                        maxHops: nat)
    requires maxHops > 0
    ensures Rest(policy, network, before, start, maxHops - 1, []) == Outcome(policy, network, before, start, maxHops)
  {
    RestIsOutcome(policy, network, before, start, maxHops - 1, []);
    var chain := ChainOf(network, before, ChainTrail(policy, network, before, start, maxHops));
    assert [] + chain == chain;
  }

  /** The URLs requested once `here` are and `current` is next, `limit` redirects being left. */
  function Remaining(policy: Policy, network: Hops.Network, here: seq<string>, current: string, limit: nat)
    : seq<string>
  {
    here + Hops.Trail(Follow(policy), network, here, current, limit)
  }

  /** The URL requested last, and the answer to it. */
  function LastUrl(client: Client): string
    requires client.requested != []
    reads client
  {
    client.requested[|client.requested| - 1]
  }

  /** The loop, with the exit that it takes. */
  method FollowChain(client: Client, policy: Policy, start: string, maxHops: nat)
    returns (r: Result<Resolved, Failure>, ghost exit: Exit)
    requires maxHops > 0
    modifies client
    ensures client.requested != []
    ensures r == Rest(policy, client.network, old(client.requested), start, maxHops - 1, [])
    ensures client.requested == Remaining(policy, client.network, old(client.requested), start, maxHops - 1)
    ensures exit == ExitOf(policy, LastUrl(client), client.network(client.requested))
  {
    ghost var outcome := Rest(policy, client.network, client.requested, start, maxHops - 1, []);
    ghost var all := Remaining(policy, client.network, client.requested, start, maxHops - 1);
    exit := HopLimit;
    var chain: seq<Hop> := [];
    var current := start;
    var lastFetchedUrl := start;
    var finalResponse: Option<Response> := None;
    var hopNum := 0;
    while hopNum < maxHops
      invariant hopNum < maxHops
      invariant outcome == Rest(policy, client.network, client.requested, current, maxHops - 1 - hopNum, chain)
      invariant all == Remaining(policy, client.network, client.requested, current, maxHops - 1 - hopNum)
      invariant finalResponse == None
    {
      Hops.TrailTurn(Follow(policy), client.network, client.requested, current, maxHops - 1 - hopNum);
      lastFetchedUrl := current;
      var exchange := client.Get(current);
      if exchange.SendFailed? {
        return Err(RequestFailed), SendError;
      }
      var response := exchange.response;
      chain := chain + [Hop(current, response.status)];
      if IsRedirectStatus(response.status) {
        if response.location.Missing? || response.location.Unreadable? {
          exit := NoLocation;
          break;
        }
        var target := ResolveTarget(policy.rules, current, response.location.text);
        if target.None? {
          return Err(BadLocation), InvalidLocation;
        }
        if !TargetAllowed(policy, target.value) {
          exit := TargetRefused;
          break;
        }
        if hopNum == maxHops - 1 {
          exit := HopLimit;
          break;
        }
        current := target.value.text;
        hopNum := hopNum + 1;
        continue;
      }
      finalResponse := Some(response);
      exit := FinalAnswer;
      break;
    }
    if chain == [] || chain[|chain| - 1].url != lastFetchedUrl {
      // The entry with status 0 that would be pushed here never is.
      assert false;
    }
    r := Ok(Resolved(lastFetchedUrl, chain, finalResponse));
  }

  /** A whole run: its result, the URLs it requests, and the exit it takes unless it is rejected at once. */
  method ResolveRedirectChain(client: Client, rules: UrlRules, start: string, maxHops: nat, allowLoopback: bool)
    returns (r: Result<Resolved, Failure>, ghost exit: Option<Exit>)
    modifies client
    ensures old(client.requested) <= client.requested
    ensures forall url :: url in client.requested[|old(client.requested)|..] ==> MayRequest(rules, allowLoopback, url)
    ensures maxHops == 0 ==> r == Err(ZeroMaxHops) && exit.None? && client.requested == old(client.requested)
    ensures maxHops > 0 && !MayRequest(rules, allowLoopback, start) ==>
              r == Err(UnsafeStart) && exit.None? && client.requested == old(client.requested)
    ensures maxHops > 0 && MayRequest(rules, allowLoopback, start) ==>
              IsRun(rules, allowLoopback, client.network, old(client.requested), start, maxHops,
                    client.requested[|old(client.requested)|..])
    ensures maxHops > 0 && MayRequest(rules, allowLoopback, start) ==>
              var policy := StartPolicy(rules, allowLoopback, start);
              var trail := ChainTrail(policy, client.network, old(client.requested), start, maxHops);
              && r == Outcome(policy, client.network, old(client.requested), start, maxHops)
              && client.requested == old(client.requested) + trail
              && exit == Some(ExitOf(policy, trail[|trail| - 1], client.network(client.requested)))
  {
    if maxHops == 0 {
      return Err(ZeroMaxHops), None;
    }
    LoopbackExactly(rules, start);
    var skipInitialValidation := allowLoopback && IsLoopback(rules, start);
    if !skipInitialValidation && !rules.safe(start) {
      return Err(UnsafeStart), None;
    }
    var policy := StartPolicy(rules, allowLoopback, start);
    ghost var before := client.requested;
    RunIsOutcome(policy, client.network, before, start, maxHops);
    TrailIsRun(rules, allowLoopback, client.network, before, start, maxHops);
    ghost var trail := ChainTrail(policy, client.network, before, start, maxHops);
    RunIsSafe(rules, allowLoopback, client.network, before, start, maxHops, trail);
    ghost var taken: Exit;
    r, taken := FollowChain(client, policy, start, maxHops);
    exit := Some(taken);
    assert client.requested[|before|..] == trail;
  }

  // ---------- What every run keeps ----------

  /** A URL at a loopback address: 127.0.0.0 to 127.255.255.255, or ::1. */
  ghost predicate IsAtLoopback(rules: UrlRules, url: string) {
    exists u :: rules.parse(url) == Some(u) && u.host.Some? &&
                match u.host.value
                case Ipv4(address) => 0x7F00_0000 <= address <= 0x7FFF_FFFF
                case Ipv6(address) => address == 1
                case Domain(_) => false
  }

  /** A URL that may be requested: it is safe, or at a loopback address if those are allowed. */
  ghost predicate MayRequest(rules: UrlRules, allowLoopback: bool, url: string) {
    rules.safe(url) || (allowLoopback && IsAtLoopback(rules, url))
  }

  /** A Location names a URL: it is an absolute URL, or else one relative to the URL that answered. */
  ghost predicate IsNamed(rules: UrlRules, from: string, location: string, target: Url) {
    || rules.parse(location) == Some(target)
    || (rules.parse(location).None? &&
        exists base :: rules.parse(from) == Some(base) && rules.join(base, location) == Some(target))
  }

  /** A run that starts on https does not go on to http. */
  ghost predicate IsDowngrade(rules: UrlRules, start: string, target: Url) {
    target.scheme == "http" && exists u :: rules.parse(start) == Some(u) && u.scheme == "https"
  }

  /** An answer leads to a URL: it is a redirect whose Location names it, and it may be requested. */
  ghost predicate Leads(rules: UrlRules, allowLoopback: bool, start: string, from: string, answer: Exchange,
                        to: string)
  {
    && answer.Answered?
    && answer.response.status in {301, 302, 303, 307, 308}
    && answer.response.location.Text?
    && MayRequest(rules, allowLoopback, to)
    && exists target :: IsNamed(rules, from, answer.response.location.text, target) && target.text == to
                        && !IsDowngrade(rules, start, target)
  }

  /**
   The URLs of a run: each answer leads to the next URL, and while hops remain a run stops only at
   an answer that leads nowhere.
   */
  ghost predicate IsRun(rules: UrlRules, allowLoopback: bool, network: Hops.Network, before: seq<string>,
                        start: string, maxHops: nat, trail: seq<string>)
  {
    && 1 <= |trail| <= maxHops
    && trail[0] == start
    && (forall i :: 0 <= i < |trail| - 1 ==>
                      Leads(rules, allowLoopback, start, trail[i], Hops.AnswerAt(network, before, trail, i),
                            trail[i + 1]))
    && (|trail| < maxHops ==>
          LeadsNowhere(rules, allowLoopback, start, trail[|trail| - 1], Hops.LastAnswer(network, before, trail)))
  }

  ghost predicate LeadsNowhere(rules: UrlRules, allowLoopback: bool, start: string, from: string, answer: Exchange) {
    forall to :: !Leads(rules, allowLoopback, start, from, answer, to)
  }

  lemma {:induction false} LoopbackExactly(rules: UrlRules, url: string)
    ensures IsLoopback(rules, url) <==> IsAtLoopback(rules, url)
  {
  }

  lemma {:induction false} NamedExactly(rules: UrlRules, from: string, location: string, target: Url)
    ensures ResolveTarget(rules, from, location) == Some(target) <==> IsNamed(rules, from, location, target)
  {
  }

  /** What is followed is exactly what an answer leads to. */
  lemma {:induction false} LeadsExactly(rules: UrlRules, allowLoopback: bool, start: string, from: string,
                                        answer: Exchange, to: string)
    ensures Redirect(StartPolicy(rules, allowLoopback, start), from, answer) == Some(to)
            <==> Leads(rules, allowLoopback, start, from, answer, to)
  {
    LoopbackExactly(rules, to);
    if answer.Answered? && answer.response.location.Text? {
      var location := answer.response.location.text;
      var resolved := ResolveTarget(rules, from, location);
      if resolved.Some? {
        NamedExactly(rules, from, location, resolved.value);
      }
      forall target | IsNamed(rules, from, location, target)
        ensures resolved == Some(target)
      {
        NamedExactly(rules, from, location, target);
      }
    }
  }

  lemma {:induction false} TrailIsRun(rules: UrlRules, allowLoopback: bool, network: Hops.Network,
                                      before: seq<string>, start: string, maxHops: nat)
    requires maxHops > 0
    ensures IsRun(rules, allowLoopback, network, before, start, maxHops,
                  ChainTrail(StartPolicy(rules, allowLoopback, start), network, before, start, maxHops))
  {
    var policy := StartPolicy(rules, allowLoopback, start);
    var trail := ChainTrail(policy, network, before, start, maxHops);
    Hops.TrailIsTrail(Follow(policy), network, before, start, maxHops - 1);
    forall i | 0 <= i < |trail| - 1
      ensures Leads(rules, allowLoopback, start, trail[i], Hops.AnswerAt(network, before, trail, i), trail[i + 1])
    {
      var answer := Hops.AnswerAt(network, before, trail, i);
      assert Follow(policy)(trail[i], answer) == Some(trail[i + 1]);
      LeadsExactly(rules, allowLoopback, start, trail[i], answer, trail[i + 1]);
    }
    if |trail| < maxHops {
      var url, last := trail[|trail| - 1], Hops.LastAnswer(network, before, trail);
      assert Follow(policy)(url, last).None?;
      forall to
        ensures !Leads(rules, allowLoopback, start, url, last, to)
      {
        LeadsExactly(rules, allowLoopback, start, url, last, to);
      }
    }
  }

  /** Every URL that a run requests may be requested. */
  lemma {:induction false} RunIsSafe(rules: UrlRules, allowLoopback: bool, network: Hops.Network,
                                     before: seq<string>, start: string, maxHops: nat, trail: seq<string>)
    requires IsRun(rules, allowLoopback, network, before, start, maxHops, trail)
    requires MayRequest(rules, allowLoopback, start)
    ensures forall url :: url in trail ==> MayRequest(rules, allowLoopback, url)
  {
    forall i | 0 <= i < |trail|
      ensures MayRequest(rules, allowLoopback, trail[i])
    {
      if i > 0 {
        assert Leads(rules, allowLoopback, start, trail[i - 1], Hops.AnswerAt(network, before, trail, i - 1),
                     trail[i - 1 + 1]);
      }
    }
  }

  /** URL `i + 1` is where the answer to URL `i` redirects to, and may be followed. */
  ghost predicate Linked(policy: Policy, network: Hops.Network, before: seq<string>, trail: seq<string>, i: nat)
    requires i + 1 < |trail|
  {
    var answer := Hops.AnswerAt(network, before, trail, i);
    && answer.Answered?
    && answer.response.status in {301, 302, 303, 307, 308}
    && answer.response.location.Text?
    && MayRequest(policy.rules, policy.allowLoopback, trail[i + 1])
    && exists target :: IsNamed(policy.rules, trail[i], answer.response.location.text, target)
                        && target.text == trail[i + 1] && (policy.startedHttps ==> target.scheme != "http")
  }

  /** Every URL after the first is named by a redirect and may be requested; https never goes on to http. */
  lemma {:induction false} EveryHopIsAllowed(policy: Policy, network: Hops.Network, before: seq<string>,
                                             start: string, maxHops: nat)
    requires maxHops > 0
    ensures var trail := ChainTrail(policy, network, before, start, maxHops);
            && 1 <= |trail| <= maxHops
            && trail[0] == start
            && forall i :: 0 <= i < |trail| - 1 ==> Linked(policy, network, before, trail, i)
  {
    var trail := ChainTrail(policy, network, before, start, maxHops);
    Hops.TrailIsTrail(Follow(policy), network, before, start, maxHops - 1);
    forall i | 0 <= i < |trail| - 1
      ensures Linked(policy, network, before, trail, i)
    {
      var answer := Hops.AnswerAt(network, before, trail, i);
      assert Follow(policy)(trail[i], answer) == Some(trail[i + 1]);
      RedirectLinks(policy, trail[i], answer);
    }
  }

  /** A URL with the status that a request for it was answered with. */
  ghost predicate Recorded(entry: Hop, url: string, answer: Exchange) {
    entry.url == url && answer.Answered? && entry.status == answer.response.status
  }

  /**
   A successful run returns the 1 to `maxHops` URLs it requested, each with the status it was
   answered with, so no entry is made up; the last is the final URL, all before it are
   redirects, and the response is there exactly when the last is not.
   */
  lemma {:induction false} SuccessfulRun(policy: Policy, network: Hops.Network, before: seq<string>, start: string,
                                         maxHops: nat)
    requires maxHops > 0
    requires Outcome(policy, network, before, start, maxHops).Ok?
    ensures var trail := ChainTrail(policy, network, before, start, maxHops);
            var Resolved(finalUrl, chain, response) := Outcome(policy, network, before, start, maxHops).value;
            && 1 <= |chain| == |trail| <= maxHops
            && chain[0].url == start
            && chain[|chain| - 1].url == finalUrl
            && (forall i :: 0 <= i < |chain| ==>
                              Recorded(chain[i], trail[i], Hops.AnswerAt(network, before, trail, i)))
            && (forall i :: 0 <= i < |chain| - 1 ==> IsRedirectStatus(chain[i].status))
            && (response.Some? <==> !IsRedirectStatus(chain[|chain| - 1].status))
  {
    EveryHopIsAllowed(policy, network, before, start, maxHops);
    var trail := ChainTrail(policy, network, before, start, maxHops);
    var chain := ChainOf(network, before, trail);
    forall i | 0 <= i < |trail|
      ensures Recorded(chain[i], trail[i], Hops.AnswerAt(network, before, trail, i))
      ensures i < |trail| - 1 ==> IsRedirectStatus(chain[i].status)
    {
      assert i < |trail| - 1 ==> Linked(policy, network, before, trail, i);
    }
  }

  lemma {:induction false} RedirectLinks(policy: Policy, from: string, answer: Exchange)
    requires Redirect(policy, from, answer).Some?
    ensures && answer.Answered?
            && answer.response.status in {301, 302, 303, 307, 308}
            && answer.response.location.Text?
            && var to := Redirect(policy, from, answer).value;
            && MayRequest(policy.rules, policy.allowLoopback, to)
            && exists target :: IsNamed(policy.rules, from, answer.response.location.text, target)
                                && target.text == to && (policy.startedHttps ==> target.scheme != "http")
  {
    var target := ResolveTarget(policy.rules, from, answer.response.location.text).value;
    NamedExactly(policy.rules, from, answer.response.location.text, target);
    LoopbackExactly(policy.rules, target.text);
  }

  /**
   What each exit comes to, and only that exit: which results it gives, and that the hop limit
   stops only runs that have used it up.
   */
  lemma {:induction false} WhyRunsStop(policy: Policy, network: Hops.Network, before: seq<string>, start: string,
                                       maxHops: nat)
    requires maxHops > 0
    ensures var trail := ChainTrail(policy, network, before, start, maxHops);
            var last := Hops.LastAnswer(network, before, trail);
            var exit := ExitOf(policy, trail[|trail| - 1], last);
            var result := Outcome(policy, network, before, start, maxHops);
            && (exit == SendError <==> result == Err(RequestFailed))
            && (exit == InvalidLocation <==> result == Err(BadLocation))
            && (exit == FinalAnswer <==> result.Ok? && result.value.response.Some?)
            && (exit == FinalAnswer ==> result.value.response.value == last.response)
            && (exit == NoLocation || exit == TargetRefused || exit == HopLimit
                <==> result.Ok? && result.value.response.None?)
            && (exit == HopLimit ==> |trail| == maxHops)
  {
    Hops.TrailIsTrail(Follow(policy), network, before, start, maxHops - 1);
  }

  lemma {:induction false} ChainOfPrefix(network: Hops.Network, before: seq<string>, trail: seq<string>, n: nat)
    requires 1 <= n <= |trail|
    ensures ChainOf(network, before, trail[..n]) == ChainOf(network, before, trail)[..n]
    ensures Hops.LastAnswer(network, before, trail[..n]) == Hops.AnswerAt(network, before, trail, n - 1)
  {
    forall i | 0 <= i < n
      ensures Hops.AnswerAt(network, before, trail[..n], i) == Hops.AnswerAt(network, before, trail, i)
    {
      assert trail[..n][..i + 1] == trail[..i + 1];
    }
  }

  /** A run that stops at an answer that leads on succeeds without a response. */
  lemma {:induction false} CutShort(policy: Policy, url: string, answer: Exchange, chain: seq<Hop>)
    requires Redirect(policy, url, answer).Some?
    ensures Ending(policy.rules, url, answer, chain) == Ok(Resolved(url, chain, None))
  {
  }

  /** As much of a result as a lower cap allows, with the response only if nothing is cut off. */
  function Cut(r: Resolved, cap: nat): Resolved
    requires r.chain != [] && cap > 0
  {
    if |r.chain| <= cap then r else Resolved(r.chain[cap - 1].url, r.chain[..cap], None)
  }

  /** How a run ends whose trail is the first part of the trail of a run that succeeds. */
  lemma {:induction false} PrefixEnds(policy: Policy, network: Hops.Network, before: seq<string>, trail: seq<string>,
                                      cap: nat, r: Resolved)
    requires trail != [] && cap > 0
    requires cap < |trail| ==>
               Redirect(policy, trail[cap - 1], Hops.AnswerAt(network, before, trail, cap - 1)).Some?
    requires Ending(policy.rules, trail[|trail| - 1], Hops.LastAnswer(network, before, trail),
                    ChainOf(network, before, trail)) == Ok(r)
    ensures var shorter := trail[..if |trail| <= cap then |trail| else cap];
            && r.chain != []
            && Ending(policy.rules, shorter[|shorter| - 1], Hops.LastAnswer(network, before, shorter),
                      ChainOf(network, before, shorter)) == Ok(Cut(r, cap))
  {
    if cap < |trail| {
      ChainOfPrefix(network, before, trail, cap);
      CutShort(policy, trail[cap - 1], Hops.AnswerAt(network, before, trail, cap - 1),
               ChainOf(network, before, trail)[..cap]);
    } else {
      assert trail[..|trail|] == trail;
    }
  }

  /**
   Two runs against the same network: if the run with the higher cap succeeds, so does the one
   with the lower cap, and its chain is as much of the longer chain as the cap allows. It ends
   with the same response unless the cap cut it short.
   */
  lemma {:induction false} LowerCapIsPrefix(policy: Policy, network: Hops.Network, before: seq<string>, start: string,
                                            low: nat, high: nat)
    requires 0 < low <= high
    requires Outcome(policy, network, before, start, high).Ok?
    ensures var longer := Outcome(policy, network, before, start, high).value;
            longer.chain != [] && Outcome(policy, network, before, start, low) == Ok(Cut(longer, low))
  {
    var longer := ChainTrail(policy, network, before, start, high);
    Hops.TrailPrefix(Follow(policy), network, before, start, low - 1, high - 1);
    if low < |longer| {
      GoesOn(policy, network, before, start, high, low - 1);
    }
    PrefixEnds(policy, network, before, longer, low, Outcome(policy, network, before, start, high).value);
  }

  lemma {:induction false} GoesOn(policy: Policy, network: Hops.Network, before: seq<string>, start: string,
                                  maxHops: nat, i: nat)
    requires maxHops > 0 && i + 1 < |ChainTrail(policy, network, before, start, maxHops)|
    ensures var trail := ChainTrail(policy, network, before, start, maxHops);
            Redirect(policy, trail[i], Hops.AnswerAt(network, before, trail, i)).Some?
  {
    var trail := ChainTrail(policy, network, before, start, maxHops);
    Hops.TrailIsTrail(Follow(policy), network, before, start, maxHops - 1);
    assert Follow(policy)(trail[i], Hops.AnswerAt(network, before, trail, i)) == Some(trail[i + 1]);
  }
}
