/** Favicon fetching and the text that is hashed for it (src/fetch/favicon.rs). */
module Favicon {
  import opened Base64
  import opened Http
  import opened Wrappers
  import Hops
  import Stream
  import Text

  // ---------- The text under the hash ----------

  const CHARS_PER_LINE := 76
  const BYTES_PER_LINE := 57

  /** A line break after every full line of characters. */
  function Broken(text: string): string {
    if |text| < CHARS_PER_LINE then text
    else text[..CHARS_PER_LINE] + "\n" + Broken(text[CHARS_PER_LINE..])
  }

  function Terminated(text: string): string {
    if text != "" && text[|text| - 1] == '\n' then text else text + "\n"
  }

  /** What the single pass over the encoded characters builds. */
  function ShodanText(raw: seq<Byte>): string {
    Terminated(Broken(Encode(raw)))
  }

  /** The reference: Python's `base64.encodebytes`, one encoded and terminated line for each 57 bytes. */
  function EncodeBytes(raw: seq<Byte>): string {
    if raw == [] then ""
    else if |raw| <= BYTES_PER_LINE then Encode(raw) + "\n"
    else Encode(raw[..BYTES_PER_LINE]) + "\n" + EncodeBytes(raw[BYTES_PER_LINE..])
  }

  lemma {:induction false} BrokenPush(text: string, ch: char)
    ensures Broken(text + [ch])
            == Broken(text) + [ch] + (if (|text| + 1) % CHARS_PER_LINE == 0 then "\n" else "")
  {
    var t := text + [ch];
    if |text| >= CHARS_PER_LINE {
      BrokenPush(text[CHARS_PER_LINE..], ch);
      SamePlaceInLine(|text| + 1);
      assert t[..CHARS_PER_LINE] == text[..CHARS_PER_LINE];
      assert t[CHARS_PER_LINE..] == text[CHARS_PER_LINE..] + [ch];
    } else if |t| == CHARS_PER_LINE {
      assert t[..CHARS_PER_LINE] == t && t[CHARS_PER_LINE..] == "";
    }
  }

  lemma {:induction false} SamePlaceInLine(n: nat)
    requires n >= CHARS_PER_LINE
    ensures (n - CHARS_PER_LINE) % CHARS_PER_LINE == n % CHARS_PER_LINE
  {
  }

  method FormatForHash(raw: seq<Byte>) returns (formatted: string)
    ensures formatted == ShodanText(raw)
  {
    var text := Encode(raw);
    formatted := "";
    for i := 0 to |text|
      invariant formatted == Broken(text[..i])
    {
      BrokenPush(text[..i], text[i]);
      assert text[..i + 1] == text[..i] + [text[i]];
      formatted := formatted + [text[i]];
      if (i + 1) % CHARS_PER_LINE == 0 {
        formatted := formatted + "\n";
      }
    }
    assert text[..|text|] == text;
    if formatted == "" || formatted[|formatted| - 1] != '\n' {
      formatted := formatted + "\n";
    }
  }

  lemma {:induction false} EncodeLine(raw: seq<Byte>)
    ensures 0 < |raw| <= BYTES_PER_LINE ==> 0 < |Encode(raw)| <= CHARS_PER_LINE
    ensures |raw| == BYTES_PER_LINE ==> |Encode(raw)| == CHARS_PER_LINE
  {
    var groups := LengthOfEncode(raw);
    GroupsInLine(|raw|, groups);
  }

  lemma {:induction false} GroupsInLine(length: nat, groups: nat)
    requires 3 * groups - 3 < length <= 3 * groups
    ensures 0 < length <= BYTES_PER_LINE ==> 0 < 4 * groups <= CHARS_PER_LINE
    ensures length == BYTES_PER_LINE ==> 4 * groups == CHARS_PER_LINE
  {
  }

  /** The single pass equals the line-by-line encoding on every non-empty input. */
  lemma {:induction false} ShodanTextIsEncodeBytes(raw: seq<Byte>)
    requires raw != []
    ensures ShodanText(raw) == EncodeBytes(raw)
  {
    if |raw| <= BYTES_PER_LINE {
      OneLine(raw);
    } else {
      var line, rest := raw[..BYTES_PER_LINE], raw[BYTES_PER_LINE..];
      assert raw == line + rest;
      ShodanTextIsEncodeBytes(rest);
      FirstLine(line, rest);
    }
  }

  lemma {:induction false} OneLine(raw: seq<Byte>)
    requires 0 < |raw| <= BYTES_PER_LINE
    ensures ShodanText(raw) == EncodeBytes(raw)
  {
    EncodeIsOneLine(raw);
    EncodeLine(raw);
    BrokenOneLine(Encode(raw));
  }

  lemma {:induction false} BrokenOneLine(text: string)
    requires 0 < |text| <= CHARS_PER_LINE && '\n' !in text
    ensures Terminated(Broken(text)) == text + "\n"
  {
    if |text| == CHARS_PER_LINE {
      assert text[..CHARS_PER_LINE] == text && text[CHARS_PER_LINE..] == "";
      assert Broken(text) == text + "\n" + "";
    }
  }

  lemma {:induction false} FirstLine(line: seq<Byte>, rest: seq<Byte>)
    requires |line| == BYTES_PER_LINE && rest != []
    ensures ShodanText(line + rest) == Encode(line) + "\n" + ShodanText(rest)
    ensures EncodeBytes(line + rest) == Encode(line) + "\n" + EncodeBytes(rest)
  {
    var raw := line + rest;
    assert raw[..BYTES_PER_LINE] == line && raw[BYTES_PER_LINE..] == rest;
    EncodeConcat(BYTES_PER_LINE / 3, line, rest);
    EncodeLine(line);
    BrokenFirst(Encode(line), Encode(rest));
  }

  lemma {:induction false} BrokenFirst(line: string, rest: string)
    requires |line| == CHARS_PER_LINE && rest != ""
    ensures Broken(line + rest) == line + "\n" + Broken(rest)
    ensures Terminated(Broken(line + rest)) == line + "\n" + Terminated(Broken(rest))
  {
    assert (line + rest)[..CHARS_PER_LINE] == line && (line + rest)[CHARS_PER_LINE..] == rest;
    assert Broken(rest) != "";
  }

  /** The match with `base64.encodebytes` fails on the empty input, and only there. */
  lemma {:induction false} MatchesPythonExactly(raw: seq<Byte>)
    ensures ShodanText(raw) == EncodeBytes(raw) <==> raw != []
    ensures raw == [] ==> ShodanText(raw) == "\n"
  {
    if raw != [] {
      ShodanTextIsEncodeBytes(raw);
    }
  }

  /** The encoded lines, without their line breaks. */
  function EncodedLines(raw: seq<Byte>): seq<string> {
    if raw == [] then []
    else if |raw| <= BYTES_PER_LINE then [Encode(raw)]
    else [Encode(raw[..BYTES_PER_LINE])] + EncodedLines(raw[BYTES_PER_LINE..])
  }

  lemma {:induction false} LineLengths(raw: seq<Byte>)
    requires raw != []
    ensures var lines := EncodedLines(raw);
            && |lines| > 0
            && (forall k :: 0 <= k < |lines| - 1 ==> |lines[k]| == CHARS_PER_LINE)
            && 0 < |lines[|lines| - 1]| <= CHARS_PER_LINE
  {
    if |raw| <= BYTES_PER_LINE {
      EncodeLine(raw);
    } else {
      EncodeLine(raw[..BYTES_PER_LINE]);
      LineLengths(raw[BYTES_PER_LINE..]);
    }
  }

  lemma {:induction false} SplitOfEncodeBytes(raw: seq<Byte>)
    ensures Text.Split(EncodeBytes(raw), '\n') == EncodedLines(raw) + [""]
  {
    if raw != [] {
      var line := if |raw| <= BYTES_PER_LINE then raw else raw[..BYTES_PER_LINE];
      var rest := raw[|line|..];
      EncodeIsOneLine(line);
      SplitOfEncodeBytes(rest);
      assert EncodeBytes(raw) == Encode(line) + "\n" + EncodeBytes(rest);
      Text.SplitOnceAt(Encode(line), '\n', EncodeBytes(rest));
      assert EncodedLines(raw) == [Encode(line)] + EncodedLines(rest);
    }
  }

  /**
   Every line has exactly 76 characters but the last, which has 1 to 76; the text ends in one
   line break and never in two.
   */
  lemma {:induction false} LinesOfShodanText(raw: seq<Byte>)
    requires raw != []
    ensures var lines := Text.Split(ShodanText(raw), '\n');
            && |lines| >= 2 && lines[|lines| - 1] == ""
            && (forall k :: 0 <= k < |lines| - 2 ==> |lines[k]| == 76)
            && 1 <= |lines[|lines| - 2]| <= 76
  {
    ShodanTextIsEncodeBytes(raw);
    SplitOfEncodeBytes(raw);
    LineLengths(raw);
  }

  function WithoutBreaks(text: string): string {
    if text == "" then ""
    else (if text[0] == '\n' then "" else [text[0]]) + WithoutBreaks(text[1..])
  }

  lemma {:induction false} WithoutBreaksOfLine(line: string, rest: string)
    requires '\n' !in line
    ensures WithoutBreaks(line + "\n" + rest) == line + WithoutBreaks(rest)
  {
    var text := line + "\n" + rest;
    if line == "" {
      assert text[1..] == rest;
    } else {
      WithoutBreaksOfLine(line[1..], rest);
      assert text[1..] == line[1..] + "\n" + rest;
    }
  }

  lemma {:induction false} WithoutBreaksOfEncodeBytes(raw: seq<Byte>)
    ensures WithoutBreaks(EncodeBytes(raw)) == Encode(raw)
  {
    if 0 < |raw| <= BYTES_PER_LINE {
      EncodeIsOneLine(raw);
      WithoutBreaksOfLine(Encode(raw), "");
      assert EncodeBytes(raw) == Encode(raw) + "\n" + "";
    } else if raw != [] {
      var line, rest := raw[..BYTES_PER_LINE], raw[BYTES_PER_LINE..];
      assert raw == line + rest;
      EncodeConcat(BYTES_PER_LINE / 3, line, rest);
      EncodeIsOneLine(line);
      WithoutBreaksOfEncodeBytes(rest);
      WithoutBreaksOfLine(Encode(line), EncodeBytes(rest));
    }
  }

  /** Nothing is lost: the bytes can be read back from the text. */
  lemma {:induction false} ShodanTextDecodes(raw: seq<Byte>)
    ensures Decode(WithoutBreaks(ShodanText(raw))) == Some(raw)
  {
    if raw != [] {
      ShodanTextIsEncodeBytes(raw);
      WithoutBreaksOfEncodeBytes(raw);
    } else {
      assert ShodanText(raw) == "\n" && WithoutBreaks("\n") == "";
    }
    DecodeOfEncode(raw);
  }

  lemma {:induction false} ShodanTextInjective(a: seq<Byte>, b: seq<Byte>)
    requires ShodanText(a) == ShodanText(b)
    ensures a == b
  {
    ShodanTextDecodes(a);
    ShodanTextDecodes(b);
  }

  type U32 = n: int | 0 <= n < 0x1_0000_0000

  /** The 32 bits read as a signed number. */
  function AsSigned(n: U32): (i: int)
    ensures -0x8000_0000 <= i < 0x8000_0000 && (i - n) % 0x1_0000_0000 == 0
  {
    if n < 0x8000_0000 then n else n - 0x1_0000_0000
  }

  /** `murmur` stands for 32-bit MurmurHash3 with seed 0. */
  method ComputeShodanFaviconHash(raw: seq<Byte>, murmur: string -> U32) returns (hash: int)
    ensures raw != [] ==> hash == AsSigned(murmur(EncodeBytes(raw)))
    ensures raw == [] ==> hash == AsSigned(murmur("\n"))
  {
    var formatted := FormatForHash(raw);
    MatchesPythonExactly(raw);
    hash := AsSigned(murmur(formatted));
  }

  // ---------- Fetching ----------

  const MAX_FAVICON_REDIRECTS := 5
  const MAX_FAVICON_SIZE := 50 * 1024

  predicate IsRedirection(status: nat) { 300 <= status < 400 }

  predicate IsSuccess(status: nat) { 200 <= status < 300 }

  /** `to_str().unwrap_or("").trim()`; a missing header has no text either. */
  function LocationText(location: Header): string {
    if location.Text? then Text.Trim(location.text) else ""
  }

  function Resolve(rules: UrlRules, from: string, location: string): Option<string> {
    match rules.parse(from)
    case None => None
    case Some(base) =>
      match rules.join(base, location)
      case None => None
      case Some(target) => Some(target.text)
  }

  /** The redirect that an answer asks for, when it is well-formed and its target is safe. */
  function Redirect(rules: UrlRules, from: string, exchange: Exchange): Option<string> {
    if exchange.SendFailed? || !IsRedirection(exchange.response.status) then None
    else
      var location := LocationText(exchange.response.location);
      var target := Resolve(rules, from, location);
      if location != "" && target.Some? && rules.safe(target.value) then target else None
  }

  function Follow(rules: UrlRules): Hops.Next {
    (from: string, exchange: Exchange) => Redirect(rules, from, exchange)
  }

  /** The complete body of a success answer, when it is not empty and fits the cap. */
  function Delivered(exchange: Exchange, maxSize: nat): Option<seq<Byte>> {
    if && exchange.Answered?
       && IsSuccess(exchange.response.status)
       && ReadFailed !in exchange.response.body
       && 1 <= |Stream.Received(exchange.response.body)| <= maxSize
    then Some(Stream.Received(exchange.response.body))
    else None
  }

  /** The URLs that a favicon fetch requests. */
  function FaviconTrail(rules: UrlRules, network: Hops.Network, before: seq<string>, url: string): seq<string> {
    Hops.Trail(Follow(rules), network, before, url, MAX_FAVICON_REDIRECTS)
  }

  /** A success answer whose body, however it is cut, is these bytes: at least one and at most `maxSize`. */
  ghost predicate Brings(exchange: Exchange, maxSize: nat, bytes: seq<Byte>) {
    && exchange.Answered?
    && 200 <= exchange.response.status <= 299
    && 1 <= |bytes| <= maxSize
    && Stream.IsBody(exchange.response.body, bytes)
  }

  /** No answer, no success, a failed read, or a body that is empty or too large. */
  ghost predicate BringsNothing(exchange: Exchange, maxSize: nat) {
    || exchange.SendFailed?
    || exchange.response.status < 200 || exchange.response.status > 299
    || ReadFailed in exchange.response.body
    || exists bytes :: Stream.IsBody(exchange.response.body, bytes) && (bytes == [] || |bytes| > maxSize)
  }

  lemma {:induction false} DeliveredExactly(exchange: Exchange, maxSize: nat)
    ensures forall bytes :: Delivered(exchange, maxSize) == Some(bytes) <==> Brings(exchange, maxSize, bytes)
    ensures Delivered(exchange, maxSize) == None <==> BringsNothing(exchange, maxSize)
  {
    if exchange.Answered? {
      var body := exchange.response.body;
      forall bytes
        ensures Stream.IsBody(body, bytes) <==> ReadFailed !in body && Stream.Received(body) == bytes
      {
        Stream.IsBodyExactly(body, bytes);
      }
    }
  }

  /** The body of a final answer, streamed under the cap; an oversize or empty body is dropped. */
  method ReadBody(response: Response, maxSize: nat) returns (r: Option<seq<Byte>>)
    ensures r == Delivered(Answered(response), maxSize)
    ensures forall bytes :: r == Some(bytes) <==> Brings(Answered(response), maxSize, bytes)
    ensures r == None <==> BringsNothing(Answered(response), maxSize)
  {
    DeliveredExactly(Answered(response), maxSize);
    if !IsSuccess(response.status) {
      return None;
    }
    var streamed := Stream.StreamBytesWithLimit(response.body, maxSize, Stream.Abort);
    assert [] + Stream.Received(response.body) == Stream.Received(response.body);
    if streamed.Err? {
      return None;
    }
    var bytes := streamed.value.bytes;
    return if bytes == [] then None else Some(bytes);
  }

  /** The URLs requested once `here` are and `url` is next, `limit` redirects being left. */
  function Remaining(rules: UrlRules, network: Hops.Network, here: seq<string>, url: string, limit: nat): seq<string> {
    here + Hops.Trail(Follow(rules), network, here, url, limit)
  }

  lemma {:induction false} RemainingTurn(rules: UrlRules, network: Hops.Network, here: seq<string>, url: string,
                                         limit: nat,
                      exchange: Exchange)
    requires exchange == network(here + [url])
    ensures var to := Redirect(rules, url, exchange);
            Remaining(rules, network, here, url, limit)
            == if limit == 0 || to.None? then here + [url]
               else Remaining(rules, network, here + [url], to.value, limit - 1)
  {
    Hops.TrailTurn(Follow(rules), network, here, url, limit);
  }

  /** The target of a redirect answer, or none when it names none or an unsafe one. */
  method SafeTarget(rules: UrlRules, currentUrl: string, response: Response) returns (target: Option<string>)
    requires IsRedirection(response.status)
    ensures target == Redirect(rules, currentUrl, Answered(response))
  {
    var location := LocationText(response.location);
    if location == "" {
      return None;
    }
    var nextUrl := Resolve(rules, currentUrl, location);
    if nextUrl.None? || !rules.safe(nextUrl.value) {
      return None;
    }
    return nextUrl;
  }

  /** What one turn of the loop comes to: a URL to go on with, or the end. */
  datatype Step = GoOn(url: string) | Done(bytes: Option<seq<Byte>>)

  function StepOf(rules: UrlRules, url: string, exchange: Exchange, maxSize: nat): Step {
    match Redirect(rules, url, exchange)
    case Some(to) => GoOn(to)
    case None => Done(Delivered(exchange, maxSize))
  }

  method FetchHop(client: Client, rules: UrlRules, currentUrl: string, maxSize: nat) returns (step: Step)
    modifies client
    ensures client.requested == old(client.requested) + [currentUrl]
    ensures step == StepOf(rules, currentUrl, client.network(client.requested), maxSize)
  {
    var exchange := client.Get(currentUrl);
    if exchange.SendFailed? {
      return Done(None);
    }
    var response := exchange.response;
    if IsRedirection(response.status) && !response.location.Missing? {
      var nextUrl := SafeTarget(rules, currentUrl, response);
      return if nextUrl.Some? then GoOn(nextUrl.value) else Done(None);
    }
    var bytes := ReadBody(response, maxSize);
    return Done(bytes);
  }

  /** An answer leads to a URL: it is a redirect whose trimmed Location resolves to it, and it is safe. */
  ghost predicate Leads(rules: UrlRules, from: string, answer: Exchange, to: string) {
    && answer.Answered?
    && 300 <= answer.response.status <= 399
    && answer.response.location.Text?
    && var location := Text.Trim(answer.response.location.text);
    && location != ""
    && rules.safe(to)
    && exists base, target :: rules.parse(from) == Some(base) && rules.join(base, location) == Some(target) &&
                              target.text == to
  }

  ghost predicate LeadsNowhere(rules: UrlRules, from: string, answer: Exchange) {
    forall to :: !Leads(rules, from, answer, to)
  }

  /**
   The URLs of a fetch: each answer leads to the next URL, and before the sixth a fetch stops only
   at an answer that leads nowhere.
   */
  ghost predicate IsRun(rules: UrlRules, network: Hops.Network, before: seq<string>, url: string, trail: seq<string>) {
    && 1 <= |trail| <= 6
    && trail[0] == url
    && (forall i :: 0 <= i < |trail| - 1 ==>
                      Leads(rules, trail[i], Hops.AnswerAt(network, before, trail, i), trail[i + 1]))
    && (|trail| < 6 ==> LeadsNowhere(rules, trail[|trail| - 1], Hops.LastAnswer(network, before, trail)))
  }

  lemma {:induction false} LeadsExactly(rules: UrlRules, from: string, answer: Exchange, to: string)
    ensures Redirect(rules, from, answer) == Some(to) <==> Leads(rules, from, answer, to)
  {
  }

  lemma {:induction false} TrailIsRun(rules: UrlRules, network: Hops.Network, before: seq<string>, url: string)
    ensures IsRun(rules, network, before, url, FaviconTrail(rules, network, before, url))
  {
    var trail := FaviconTrail(rules, network, before, url);
    Hops.TrailIsTrail(Follow(rules), network, before, url, MAX_FAVICON_REDIRECTS);
    forall i | 0 <= i < |trail| - 1
      ensures Leads(rules, trail[i], Hops.AnswerAt(network, before, trail, i), trail[i + 1])
    {
      var answer := Hops.AnswerAt(network, before, trail, i);
      assert Follow(rules)(trail[i], answer) == Some(trail[i + 1]);
      LeadsExactly(rules, trail[i], answer, trail[i + 1]);
    }
    if |trail| < 6 {
      var from, last := trail[|trail| - 1], Hops.LastAnswer(network, before, trail);
      assert Follow(rules)(from, last).None?;
      forall to
        ensures !Leads(rules, from, last, to)
      {
        LeadsExactly(rules, from, last, to);
      }
    }
  }

  /**
   Fetches a favicon: the URLs requested are those of a run, and what is returned is the whole
   body of the last answer, or nothing exactly when that answer brings nothing.
   */
  method FetchFaviconBytes(client: Client, rules: UrlRules, url: string, maxSize: nat)
    returns (r: Option<seq<Byte>>)
    modifies client
    ensures old(client.requested) <= client.requested
    ensures IsRun(rules, client.network, old(client.requested), url,
                  client.requested[|old(client.requested)|..])
    ensures forall bytes :: r == Some(bytes) <==> Brings(client.network(client.requested), maxSize, bytes)
    ensures r == None <==> BringsNothing(client.network(client.requested), maxSize)
    ensures client.requested
            == old(client.requested) + FaviconTrail(rules, client.network, old(client.requested), url)
    ensures r == Delivered(client.network(client.requested), maxSize)
  {
    r := FollowFavicon(client, rules, url, maxSize);
    ghost var before := old(client.requested);
    TrailIsRun(rules, client.network, before, url);
    assert client.requested[|before|..] == FaviconTrail(rules, client.network, before, url);
    DeliveredExactly(client.network(client.requested), maxSize);
  }

  /** The loop. */
  method FollowFavicon(client: Client, rules: UrlRules, url: string, maxSize: nat)
    returns (r: Option<seq<Byte>>)
    modifies client
    ensures client.requested
            == old(client.requested) + FaviconTrail(rules, client.network, old(client.requested), url)
    ensures r == Delivered(client.network(client.requested), maxSize)
  {
    ghost var all := Remaining(rules, client.network, client.requested, url, MAX_FAVICON_REDIRECTS);
    var currentUrl := url;
    for hop := 0 to MAX_FAVICON_REDIRECTS + 1
      invariant hop <= MAX_FAVICON_REDIRECTS ==>
                  all == Remaining(rules, client.network, client.requested, currentUrl, MAX_FAVICON_REDIRECTS - hop)
      invariant hop > MAX_FAVICON_REDIRECTS ==>
                  all == client.requested && Delivered(client.network(client.requested), maxSize).None?
    {
      ghost var here := client.requested;
      var step := FetchHop(client, rules, currentUrl, maxSize);
      RemainingTurn(rules, client.network, here, currentUrl, MAX_FAVICON_REDIRECTS - hop,
                    client.network(client.requested));
      match step
      case Done(bytes) =>
        return bytes;
      case GoOn(to) =>
        RedirectLinks(rules, currentUrl, client.network(client.requested));
        currentUrl := to;
    }
    return None;
  }

  /** URL `i + 1` is the safe target that the redirect answer to URL `i` names. */
  ghost predicate Linked(rules: UrlRules, network: Hops.Network, before: seq<string>, trail: seq<string>, i: nat)
    requires i + 1 < |trail|
  {
    var answer := Hops.AnswerAt(network, before, trail, i);
    && answer.Answered?
    && 300 <= answer.response.status < 400
    && Resolve(rules, trail[i], LocationText(answer.response.location)) == Some(trail[i + 1])
    && rules.safe(trail[i + 1])
  }

  /**
   Whole-run safety: at most five redirects and six requests; every URL after the first is a
   safe target that a redirect answer named; and the bytes, if any, are a whole body.
   */
  lemma {:induction false} FaviconFetchSafety(rules: UrlRules, network: Hops.Network, before: seq<string>,
                                              url: string, maxSize: nat)
    ensures var trail := FaviconTrail(rules, network, before, url);
            && 1 <= |trail| <= 6
            && trail[0] == url
            && (forall i :: 0 <= i < |trail| - 1 ==> Linked(rules, network, before, trail, i))
            && match Delivered(Hops.LastAnswer(network, before, trail), maxSize)
               case None => true
               case Some(bytes) =>
                 && 1 <= |bytes| <= maxSize
                 && Stream.Outcome([], Hops.LastAnswer(network, before, trail).response.body, maxSize, Stream.Abort)
                    == Ok(Stream.Complete(bytes))
  {
    Hops.TrailIsTrail(Follow(rules), network, before, url, MAX_FAVICON_REDIRECTS);
    var trail := FaviconTrail(rules, network, before, url);
    forall i | 0 <= i < |trail| - 1 ensures Linked(rules, network, before, trail, i) {
      var answer := Hops.AnswerAt(network, before, trail, i);
      assert Follow(rules)(trail[i], answer) == Some(trail[i + 1]);
      RedirectLinks(rules, trail[i], answer);
    }
    var last := Hops.LastAnswer(network, before, trail);
    if last.Answered? {
      assert [] + Stream.Received(last.response.body) == Stream.Received(last.response.body);
    }
  }

  lemma {:induction false} RedirectLinks(rules: UrlRules, from: string, answer: Exchange)
    requires Redirect(rules, from, answer).Some?
    ensures answer.Answered? && 300 <= answer.response.status < 400
    ensures Resolve(rules, from, LocationText(answer.response.location)) == Redirect(rules, from, answer)
    ensures rules.safe(Redirect(rules, from, answer).value)
  {
  }

  // ---------- Which favicon ----------

  /** An href as it is under http and https, under https when it starts with "//", and else relative to the page. */
  function ResolveFaviconUrl(rules: UrlRules, href: string, baseUrl: string): Option<string> {
    if "http://" <= href || "https://" <= href then Some(href)
    else if "//" <= href then Some("https:" + href)
    else Resolve(rules, baseUrl, href)
  }

  /** `/favicon.ico` at the origin of an http or https page. */
  function FallbackFaviconUrl(rules: UrlRules, finalUrl: string): Option<string> {
    match rules.parse(finalUrl)
    case None => None
    case Some(u) =>
      if u.scheme != "http" && u.scheme != "https" then None
      else
        var origin := u.scheme + "://" + u.hostText + (if u.port.Some? then ":" + u.port.value else "");
        Some(origin + "/favicon.ico")
  }

  function FaviconUrl(rules: UrlRules, href: Option<string>, finalUrl: string): Option<string> {
    if href.Some? then ResolveFaviconUrl(rules, href.value, finalUrl) else FallbackFaviconUrl(rules, finalUrl)
  }

  /** A page's href wins: absolute as it is, without a scheme under https, and else relative to the page. */
  lemma {:induction false} HrefWins(rules: UrlRules, finalUrl: string, rest: string, page: Url, href: string)
    ensures FaviconUrl(rules, Some("http://" + rest), finalUrl) == Some("http://" + rest)
    ensures FaviconUrl(rules, Some("https://" + rest), finalUrl) == Some("https://" + rest)
    ensures FaviconUrl(rules, Some("//" + rest), finalUrl) == Some("https://" + rest)
    ensures rules.parse(finalUrl) == Some(page) && !("//" <= href || "http://" <= href || "https://" <= href) ==>
              (FaviconUrl(rules, Some(href), finalUrl) == match rules.join(page, href)
                                                          case None => None
                                                          case Some(target) => Some(target.text))
  {
    assert "https:" + ("//" + rest) == "https://" + rest;
    assert ("//" + rest)[0] != 'h';
  }

  /** Without an href it is `/favicon.ico` at the origin of the page, with the port if the page names one. */
  lemma {:induction false} OriginIsFallback(rules: UrlRules, finalUrl: string, page: Url)
    requires rules.parse(finalUrl) == Some(page)
    ensures var origin := page.scheme + "://" + page.hostText;
            FaviconUrl(rules, None, finalUrl)
            == if page.scheme !in {"http", "https"} then None
               else if page.port == None then Some(origin + "/favicon.ico")
               else Some(origin + ":" + page.port.value + "/favicon.ico")
  {
    var origin := page.scheme + "://" + page.hostText;
    assert origin + "" == origin;
    if page.port.Some? {
      assert origin + (":" + page.port.value) == origin + ":" + page.port.value;
    }
  }

  datatype FaviconData = FaviconData(faviconUrl: string, hash: int)

  /**
   A favicon is hashed exactly when its answer brings bytes, however the body is cut; and only ever
   in the text form of `base64.encodebytes`, as fetched bytes are never empty.
   */
  method FetchAndHashFavicon(client: Client, rules: UrlRules, href: Option<string>, finalUrl: string,
                             murmur: string -> U32)
    returns (r: Option<FaviconData>)
    modifies client
    ensures var url := FaviconUrl(rules, href, finalUrl);
            if url.None? then r.None? && client.requested == old(client.requested)
            else
              && client.requested
                 == old(client.requested) + FaviconTrail(rules, client.network, old(client.requested), url.value)
              && IsRun(rules, client.network, old(client.requested), url.value,
                       client.requested[|old(client.requested)|..])
              && (r == None <==> BringsNothing(client.network(client.requested), 51200))
              && forall bytes :: Brings(client.network(client.requested), 51200, bytes) ==>
                                   r == Some(FaviconData(url.value, AsSigned(murmur(EncodeBytes(bytes)))))
  {
    var faviconUrl := FaviconUrl(rules, href, finalUrl);
    if faviconUrl.None? {
      return None;
    }
    var fetched := FetchFaviconBytes(client, rules, faviconUrl.value, MAX_FAVICON_SIZE);
    if fetched.None? {
      return None;
    }
    var hash := ComputeShodanFaviconHash(fetched.value, murmur);
    return Some(FaviconData(faviconUrl.value, hash));
  }
}
