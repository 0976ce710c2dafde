/** The hosts behind a page's script sources (src/fetch/external_scripts.rs). */
module ExternalScripts {
  import opened Http
  import opened Sequences
  import opened Text
  import opened Wrappers

  /**
   The parts of the URL library and of the Public Suffix List that are used, left
   uninterpreted, and the list of known third-party script hosts.
   */
  datatype ScriptRules = ScriptRules(
    parse: string -> Option<Url>,
    join: (Url, string) -> Option<Url>,
    hostStr: Url -> Option<string>,
    lowercase: string -> string,
    rootDomain: string -> Option<string>,
    thirdPartyHosts: set<string>)

  datatype ScriptHost = ScriptHost(host: string, registrableDomain: Option<string>, isFirstParty: bool)

  function TrimEndDots(s: string): string {
    if s != "" && s[|s| - 1] == '.' then TrimEndDots(s[..|s| - 1]) else s
  }

  /** The host is `suffix`, or what stands before `suffix` ends in a dot. */
  predicate IsUnder(host: string, suffix: string) {
    || host == suffix
    || (|host| > |suffix| && host[|host| - |suffix|..] == suffix && host[|host| - |suffix| - 1] == '.')
  }

  predicate IsKnownThirdParty(rules: ScriptRules, host: string) {
    var h := Lower(TrimEndDots(host));
    exists suffix :: suffix in rules.thirdPartyHosts && IsUnder(h, suffix)
  }

  /** A name or a subdomain of it. */
  ghost predicate IsNameOrSubdomain(host: string, name: string) {
    host == name || exists labels: string :: host == labels + "." + name
  }

  /** So a host matches when it is a listed name or a subdomain of one, never by a bare text suffix. */
  lemma {:induction false} UnderMeansSubdomain(host: string, suffix: string)
    ensures IsUnder(host, suffix) <==> IsNameOrSubdomain(host, suffix)
  {
    if IsUnder(host, suffix) && host != suffix {
      var labels := host[..|host| - |suffix| - 1];
      assert host == labels + "." + suffix;
    }
  }

  /** The host without the dots that it ends in. */
  predicate IsStem(host: string, stem: string) {
    && stem <= host
    && (forall i :: |stem| <= i < |host| ==> host[i] == '.')
    && (stem == "" || stem[|stem| - 1] != '.')
  }

  lemma {:induction false} TrimEndDotsExactly(host: string, stem: string)
    ensures stem == TrimEndDots(host) <==> IsStem(host, stem)
  {
    var n := |host|;
    if n > 0 && host[n - 1] == '.' {
      TrimEndDotsExactly(host[..n - 1], stem);
      StemOfMoreDots(host[..n - 1], ".", stem);
      assert host[..n - 1] + "." == host;
    } else {
      assert IsStem(host, stem) ==> |stem| == n;
    }
  }

  lemma {:induction false} StemOfMoreDots(host: string, dots: string, stem: string)
    requires forall c :: c in dots ==> c == '.'
    ensures IsStem(host + dots, stem) <==> IsStem(host, stem)
  {
    var longer := host + dots;
    forall i | |host| <= i < |longer|
      ensures longer[i] == '.'
    {
      assert longer[i] == dots[i - |host|] && dots[i - |host|] in dots;
    }
    assert forall i :: 0 <= i < |host| ==> longer[i] == host[i];
    assert stem <= host ==> stem <= longer;
    if IsStem(longer, stem) {
      assert stem == longer[..|stem|];
      assert |stem| <= |host|;
      assert stem == host[..|stem|];
    }
  }

  /**
   A host is a known third party if and only if, without its final dots and with ASCII letters in
   lowercase, it is a listed name or a subdomain of one.
   */
  lemma {:induction false} KnownThirdPartyExactly(rules: ScriptRules, host: string, stem: string)
    requires IsStem(host, stem)
    ensures IsKnownThirdParty(rules, host)
            <==> exists name :: name in rules.thirdPartyHosts && IsNameOrSubdomain(Lower(stem), name)
  {
    TrimEndDotsExactly(host, stem);
    forall name | name in rules.thirdPartyHosts
      ensures IsUnder(Lower(stem), name) <==> IsNameOrSubdomain(Lower(stem), name)
    {
      UnderMeansSubdomain(Lower(stem), name);
    }
  }

  lemma {:induction false} SameCase(host: string, other: string, n: nat)
    requires EqIgnoreCase(host, other) && n <= |host|
    ensures |host| == |other| && Lower(host[..n]) == Lower(other[..n])
    ensures IsStem(host, host[..n]) ==> IsStem(other, other[..n])
  {
    assert |Lower(host)| == |Lower(other)|;
    forall i | 0 <= i < |host|
      ensures LowerChar(host[i]) == LowerChar(other[i]) && (host[i] == '.' <==> other[i] == '.')
    {
      assert Lower(host)[i] == Lower(other)[i];
    }
    assert Lower(host[..n]) == Lower(other[..n]);
  }

  /** So neither the case of its letters nor final dots change what a host counts as. */
  lemma {:induction false} CaseAndDotsDoNotMatter(rules: ScriptRules, host: string, other: string, dots: string)
    requires EqIgnoreCase(host, other) && forall c :: c in dots ==> c == '.'
    ensures IsKnownThirdParty(rules, other + dots) <==> IsKnownThirdParty(rules, host)
  {
    var stem := TrimEndDots(host);
    var n := |stem|;
    TrimEndDotsExactly(host, stem);
    assert host[..n] == stem;
    SameCase(host, other, n);
    StemOfMoreDots(other, dots, other[..n]);
    TrimEndDotsExactly(other + dots, other[..n]);
  }

  function UrlHost(rules: ScriptRules, url: string): Option<string> {
    match rules.parse(url)
    case None => None
    case Some(u) =>
      match rules.hostStr(u)
      case None => None
      case Some(host) => Some(rules.lowercase(host))
  }

  /** Same host or same registrable domain, and not a known third party. */
  predicate SameParty(rules: ScriptRules, pageHost: string, scriptHost: string) {
    && !IsKnownThirdParty(rules, scriptHost)
    && (pageHost == scriptHost
        || (var page, script := rules.rootDomain(pageHost), rules.rootDomain(scriptHost);
            page.Some? && script.Some? && EqIgnoreCase(page.value, script.value)))
  }

  predicate IsFirstPartyScript(rules: ScriptRules, pageUrl: string, scriptUrl: string) {
    var page, script := UrlHost(rules, pageUrl), UrlHost(rules, scriptUrl);
    page.Some? && script.Some? && SameParty(rules, page.value, script.value)
  }

  /** The host of a URL, in lowercase. */
  ghost predicate IsHostOf(rules: ScriptRules, url: string, host: string) {
    exists u, h :: rules.parse(url) == Some(u) && rules.hostStr(u) == Some(h) && host == rules.lowercase(h)
  }

  lemma {:induction false} HostExactly(rules: ScriptRules, url: string, host: string)
    ensures UrlHost(rules, url) == Some(host) <==> IsHostOf(rules, url, host)
  {
  }

  /** A host is listed if, without its final dots and in lowercase, it is a listed name or a subdomain of one. */
  ghost predicate IsListed(rules: ScriptRules, host: string) {
    exists stem, name :: IsStem(host, stem) && name in rules.thirdPartyHosts && IsNameOrSubdomain(Lower(stem), name)
  }

  lemma {:induction false} ListedExactly(rules: ScriptRules, host: string)
    ensures IsKnownThirdParty(rules, host) <==> IsListed(rules, host)
  {
    TrimEndDotsExactly(host, TrimEndDots(host));
    forall stem | IsStem(host, stem)
      ensures IsKnownThirdParty(rules, host)
              <==> exists name :: name in rules.thirdPartyHosts && IsNameOrSubdomain(Lower(stem), name)
    {
      KnownThirdPartyExactly(rules, host, stem);
    }
  }

  /**
   A script is first-party if it has a host that is not listed and that is the page's host, or has
   the same registrable domain as the page's host, whatever its case; and only then.
   */
  lemma {:induction false} FirstPartyExactly(rules: ScriptRules, pageUrl: string, scriptUrl: string)
    ensures IsFirstPartyScript(rules, pageUrl, scriptUrl)
            <==> exists page, script ::
                   && IsHostOf(rules, pageUrl, page) && IsHostOf(rules, scriptUrl, script)
                   && !IsListed(rules, script)
                   && (page == script
                       || exists a, b :: && rules.rootDomain(page) == Some(a) && rules.rootDomain(script) == Some(b)
                                         && EqIgnoreCase(a, b))
  {
    forall host
      ensures UrlHost(rules, pageUrl) == Some(host) <==> IsHostOf(rules, pageUrl, host)
      ensures UrlHost(rules, scriptUrl) == Some(host) <==> IsHostOf(rules, scriptUrl, host)
    {
      HostExactly(rules, pageUrl, host);
      HostExactly(rules, scriptUrl, host);
    }
    if UrlHost(rules, scriptUrl).Some? {
      ListedExactly(rules, UrlHost(rules, scriptUrl).value);
    }
  }

  function ResolveScriptUrl(rules: ScriptRules, pageUrl: string, src: string): Option<string> {
    var trimmed := Trim(src);
    if trimmed == "" then None
    else
      match rules.parse(trimmed)
      case Some(abs) => Some(abs.text)
      case None =>
        match rules.parse(pageUrl)
        case None => None
        case Some(base) =>
          match rules.join(base, trimmed)
          case None => None
          case Some(abs) => Some(abs.text)
  }

  /** A source names an absolute URL: itself, without the white space around it, or relative to the page. */
  ghost predicate IsSourceOf(rules: ScriptRules, pageUrl: string, src: string, abs: string) {
    exists text, u: Url ::
      && Trimmed(text) && text != "" && IsPadded(src, text) && abs == u.text
      && (|| rules.parse(text) == Some(u)
          || (rules.parse(text) == None &&
              exists base :: rules.parse(pageUrl) == Some(base) && rules.join(base, text) == Some(u)))
  }

  lemma {:induction false} SourceExactly(rules: ScriptRules, pageUrl: string, src: string, abs: string)
    ensures ResolveScriptUrl(rules, pageUrl, src) == Some(abs) <==> IsSourceOf(rules, pageUrl, src, abs)
  {
    TrimExactly(src, Trim(src));
    forall text | Trimmed(text) && IsPadded(src, text)
      ensures text == Trim(src)
    {
      TrimExactly(src, text);
    }
  }

  /** The absolute URL of a source together with its host. */
  function Located(rules: ScriptRules, pageUrl: string, src: string): Option<(string, string)> {
    match ResolveScriptUrl(rules, pageUrl, src)
    case None => None
    case Some(abs) =>
      match UrlHost(rules, abs)
      case None => None
      case Some(host) => Some((abs, host))
  }

  /** Finds the absolute URL and the host of a source. */
  type Locator = string -> Option<(string, string)>

  function LocatorFor(rules: ScriptRules, pageUrl: string): Locator {
    (src: string) => Located(rules, pageUrl, src)
  }

  function HostIn(locate: Locator): string -> seq<string> {
    (src: string) => if locate(src).Some? then [locate(src).value.1] else []
  }

  /** The hosts of the sources that resolve to one, repetitions included. */
  function Hosts(locate: Locator, sources: seq<string>): seq<string> {
    Gather(HostIn(locate), sources)
  }

  function Distinct(hosts: seq<string>): seq<string> {
    if hosts == [] then []
    else
      var earlier, last := Distinct(hosts[..|hosts| - 1]), hosts[|hosts| - 1];
      if last in earlier then earlier else earlier + [last]
  }

  /** What is recorded for a host, whichever of its scripts comes first. */
  function InfoOf(rules: ScriptRules, pageUrl: string, host: string): ScriptHost {
    var page := UrlHost(rules, pageUrl);
    ScriptHost(host, rules.rootDomain(host), page.Some? && SameParty(rules, page.value, host))
  }

  function InfoFor(rules: ScriptRules, pageUrl: string): string -> ScriptHost {
    (host: string) => InfoOf(rules, pageUrl, host)
  }

  /** What is recorded for the script at a URL. */
  function Build(rules: ScriptRules, pageUrl: string): (string, string) -> ScriptHost {
    (abs: string, host: string) =>
      ScriptHost(host, rules.rootDomain(host), IsFirstPartyScript(rules, pageUrl, abs))
  }

  function Infos(info: string -> ScriptHost, hosts: seq<string>): seq<ScriptHost> {
    seq(|hosts|, i requires 0 <= i < |hosts| => info(hosts[i]))
  }

  /** Building from any script of a host records the same. */
  ghost predicate Agree(locate: Locator, build: (string, string) -> ScriptHost, info: string -> ScriptHost) {
    forall src :: locate(src).Some? ==>
                    build(locate(src).value.0, locate(src).value.1) == info(locate(src).value.1)
  }

  method KeepFirst(locate: Locator, build: (string, string) -> ScriptHost, ghost info: string -> ScriptHost,
                   sources: seq<string>)
    returns (out: seq<ScriptHost>)
    requires Agree(locate, build, info)
    ensures out == Infos(info, Distinct(Hosts(locate, sources)))
  {
    var seen: set<string> := {};
    out := [];
    ghost var hosts: seq<string>, kept: seq<string> := [], [];
    for i := 0 to |sources|
      invariant hosts == Gather(HostIn(locate), sources[..i])
      invariant forall h :: h in seen <==> h in kept
      invariant kept == Distinct(hosts) && out == Infos(info, kept)
    {
      GatherPush(HostIn(locate), sources, i);
      var located := locate(sources[i]);
      if located.None? {
        continue;
      }
      var (abs, host) := located.value;
      DistinctPush(hosts, host);
      hosts := hosts + [host];
      if host in seen {
        continue;
      }
      seen := seen + {host};
      assert build(abs, host) == info(host);
      InfosPush(info, kept, host);
      kept := kept + [host];
      out := out + [build(abs, host)];
    }
    assert sources[..|sources|] == sources;
  }

  lemma {:induction false} InfosPush(info: string -> ScriptHost, kept: seq<string>, host: string)
    ensures Infos(info, kept + [host]) == Infos(info, kept) + [info(host)]
  {
  }

  method CollectScriptHosts(rules: ScriptRules, pageUrl: string, sources: seq<string>) returns (out: seq<ScriptHost>)
    ensures out == Infos(InfoFor(rules, pageUrl), Distinct(Hosts(LocatorFor(rules, pageUrl), sources)))
  {
    VerdictsAgree(rules, pageUrl);
    out := KeepFirst(LocatorFor(rules, pageUrl), Build(rules, pageUrl), InfoFor(rules, pageUrl), sources);
  }

  /** The verdict on a script depends on its host alone. */
  lemma {:induction false} VerdictsAgree(rules: ScriptRules, pageUrl: string)
    ensures Agree(LocatorFor(rules, pageUrl), Build(rules, pageUrl), InfoFor(rules, pageUrl))
  {
    forall src | Located(rules, pageUrl, src).Some?
      ensures UrlHost(rules, Located(rules, pageUrl, src).value.0) == Some(Located(rules, pageUrl, src).value.1)
    {
      LocatedHost(rules, pageUrl, src);
    }
  }

  lemma {:induction false} LocatedHost(rules: ScriptRules, pageUrl: string, src: string)
    requires Located(rules, pageUrl, src).Some?
    ensures UrlHost(rules, Located(rules, pageUrl, src).value.0) == Some(Located(rules, pageUrl, src).value.1)
  {
  }

  lemma {:induction false} DistinctPush(hosts: seq<string>, host: string)
    ensures Distinct(hosts + [host]) == if host in Distinct(hosts) then Distinct(hosts) else Distinct(hosts) + [host]
  {
    assert (hosts + [host])[..|hosts|] == hosts;
  }

  /** Where a host comes first. */
  function FirstIndex(hosts: seq<string>, host: string): (i: nat)
    requires host in hosts
    ensures i < |hosts| && hosts[i] == host && host !in hosts[..i]
  {
    if hosts[0] == host then 0
    else
      var i := FirstIndex(hosts[1..], host);
      assert hosts[..i + 1] == [hosts[0]] + hosts[1..][..i];
      i + 1
  }

  lemma {:induction false} FirstIndexInPrefix(hosts: seq<string>, n: nat, host: string)
    requires n <= |hosts| && host in hosts[..n]
    ensures host in hosts && FirstIndex(hosts, host) == FirstIndex(hosts[..n], host)
  {
    var i, j := FirstIndex(hosts, host), FirstIndex(hosts[..n], host);
    assert hosts[..n][..j] == hosts[..j];
  }

  /** Every host is kept once, in the order of first occurrence. */
  lemma {:induction false} DistinctByFirstOccurrence(hosts: seq<string>)
    ensures forall h :: h in Distinct(hosts) <==> h in hosts
    ensures forall i, j :: 0 <= i < j < |Distinct(hosts)| ==>
                             FirstIndex(hosts, Distinct(hosts)[i]) < FirstIndex(hosts, Distinct(hosts)[j])
  {
    if hosts != [] {
      var n := |hosts| - 1;
      var earlier, last := Distinct(hosts[..n]), hosts[n];
      DistinctByFirstOccurrence(hosts[..n]);
      assert hosts == hosts[..n] + [last];
      forall h | h in hosts[..n]
        ensures h in hosts && FirstIndex(hosts, h) == FirstIndex(hosts[..n], h)
      {
        FirstIndexInPrefix(hosts, n, h);
      }
    }
  }

  lemma {:induction false} NoneTwice(hosts: seq<string>, i: nat, j: nat)
    requires i < |Distinct(hosts)| && j < |Distinct(hosts)| && Distinct(hosts)[i] == Distinct(hosts)[j]
    ensures i == j
  {
    DistinctByFirstOccurrence(hosts);
  }

  lemma {:induction false} KeptOnce(locate: Locator, info: string -> ScriptHost, sources: seq<string>, k: nat)
    requires k < |sources| && locate(sources[k]).Some?
    requires forall h :: info(h).host == h
    ensures var host := locate(sources[k]).value.1;
            var out := Infos(info, Distinct(Hosts(locate, sources)));
            exists i :: 0 <= i < |out| && out[i] == info(host)
                        && forall j :: 0 <= j < |out| && out[j].host == host ==> j == i
  {
    var host := locate(sources[k]).value.1;
    var hosts := Hosts(locate, sources);
    var kept := Distinct(hosts);
    GatheredFrom(HostIn(locate), sources, k);
    assert host in HostIn(locate)(sources[k]);
    DistinctByFirstOccurrence(hosts);
    var i :| 0 <= i < |kept| && kept[i] == host;
    var out := Infos(info, kept);
    forall j | 0 <= j < |out| && out[j].host == host
      ensures j == i
    {
      assert out[j] == info(kept[j]);
      NoneTwice(hosts, i, j);
    }
    assert |out| == |kept| && 0 <= i < |out| && out[i] == info(host)
           && forall j :: 0 <= j < |out| && out[j].host == host ==> j == i;
  }

  /**
   Dropping repeated hosts loses nothing: every source with a host has exactly one entry for
   it, and that entry's verdict is the verdict on the source's own URL.
   */
  lemma {:induction false} EverySourceIsCovered(rules: ScriptRules, pageUrl: string, sources: seq<string>, k: nat)
    requires k < |sources| && Located(rules, pageUrl, sources[k]).Some?
    ensures var (abs, host) := Located(rules, pageUrl, sources[k]).value;
            var out := Infos(InfoFor(rules, pageUrl), Distinct(Hosts(LocatorFor(rules, pageUrl), sources)));
            exists i :: 0 <= i < |out|
                        && out[i] == ScriptHost(host, rules.rootDomain(host), IsFirstPartyScript(rules, pageUrl, abs))
                        && forall j :: 0 <= j < |out| && out[j].host == host ==> j == i
  {
    VerdictsAgree(rules, pageUrl);
    KeptOnce(LocatorFor(rules, pageUrl), InfoFor(rules, pageUrl), sources, k);
    assert LocatorFor(rules, pageUrl)(sources[k]) == Located(rules, pageUrl, sources[k]);
  }

  lemma {:induction false} GatheredFrom<T>(f: string -> seq<T>, items: seq<string>, k: nat)
    requires k < |items|
    ensures forall x :: x in f(items[k]) ==> x in Gather(f, items)
  {
    if k > 0 {
      GatheredFrom(f, items[1..], k - 1);
    }
  }
}
