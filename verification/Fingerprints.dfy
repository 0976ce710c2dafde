/** Which technologies are kept of those detected (src/fingerprint/detection, src/fingerprint/patterns/mod.rs). */
module Fingerprints {
  import opened Fixpoints
  import opened Sequences
  import opened Text
  import opened Wrappers

  // ---------- References to technologies ----------

  /** A technology's name, and its version if the reference gives one. */
  type Reference = (string, Option<string>)

  /** Where the first `\;` begins; the length if there is none. */
  function MarkAt(s: string): (i: nat)
    ensures i == |s| || i + 2 <= |s|
  {
    if |s| < 2 then |s| else if s[0] == '\\' && s[1] == ';' then 0 else 1 + MarkAt(s[1..])
  }

  predicate HasMark(s: string) {
    MarkAt(s) < |s|
  }

  /** The parts between the marks. */
  function Parts(s: string): seq<string>
    decreases |s|
  {
    if HasMark(s) then [s[..MarkAt(s)]] + Parts(s[MarkAt(s) + 2..]) else [s]
  }

  function PartVersion(part: string): Option<string> {
    match SplitOnce(part, ':')
    case Some((key, value)) => if key == "version" then Some(value) else None
    case None => None
  }

  /** The first version that any part gives. */
  function VersionIn(parts: seq<string>): Option<string> {
    if parts == [] then None
    else if PartVersion(parts[0]).Some? then PartVersion(parts[0])
    else VersionIn(parts[1..])
  }

  function ReferenceOf(raw: string): Reference {
    (Trim(Parts(raw)[0]), VersionIn(Parts(raw)[1..]))
  }

  method ParseTechnologyReference(raw: string) returns (r: Reference)
    ensures r == ReferenceOf(raw)
  {
    var parts := Parts(raw);
    var version: Option<string> := None;
    for i := 1 to |parts|
      invariant VersionIn(parts[1..]) == if version.Some? then version else VersionIn(parts[i..])
    {
      var split := SplitOnce(parts[i], ':');
      if split.Some? && split.value.0 == "version" && version.None? {
        version := Some(split.value.1);
      }
      assert parts[i..][1..] == parts[i + 1..];
    }
    return (Trim(parts[0]), version);
  }

  lemma {:induction false} MarkComesFirst(name: string, rest: string)
    requires !HasMark(name)
    ensures MarkAt(name + "\\;" + rest) == |name|
  {
    var text := name + "\\;" + rest;
    if name != "" {
      MarkComesFirst(name[1..], rest);
      assert text[1..] == name[1..] + "\\;" + rest;
      assert |name| > 1 ==> text[1] == name[1];
    }
  }

  lemma {:induction false} MarkStays(s: string, more: string)
    requires HasMark(s)
    ensures MarkAt(s + more) == MarkAt(s)
  {
    if MarkAt(s) > 0 {
      MarkStays(s[1..], more);
      assert (s + more)[1..] == s[1..] + more;
    }
  }

  lemma {:induction false} MarkSkips(before: string, s: string)
    requires '\\' !in before
    ensures MarkAt(before + s) == |before| + MarkAt(s)
  {
    if before == "" {
      assert before + s == s;
    } else {
      assert (before + s)[1..] == before[1..] + s;
      MarkSkips(before[1..], s);
    }
  }

  lemma {:induction false} TrimIsNoLonger(s: string)
    ensures |Trim(s)| <= |s|
  {
    TrimStartSplits(s);
    TrimEndSplits(TrimStart(s));
  }

  /** No backslash is followed by a semicolon. */
  ghost predicate IsUnmarked(s: string) {
    forall i :: 0 <= i < |s| - 1 && s[i] == '\\' ==> s[i + 1] != ';'
  }

  lemma {:induction false} MarkExactly(s: string)
    ensures HasMark(s) <==> !IsUnmarked(s)
    ensures HasMark(s) ==>
              s == s[..MarkAt(s)] + "\\;" + s[MarkAt(s) + 2..] && IsUnmarked(s[..MarkAt(s)])
  {
    if |s| >= 2 && !(s[0] == '\\' && s[1] == ';') {
      MarkExactly(s[1..]);
      UnmarkedCons(s);
      if HasMark(s[1..]) {
        MarkInRest(s, MarkAt(s[1..]));
      }
    }
  }

  lemma {:induction false} MarkInRest(s: string, i: nat)
    requires s != "" && !(|s| > 1 && s[0] == '\\' && s[1] == ';')
    requires i + 2 < |s| && s[1..] == s[1..][..i] + "\\;" + s[1..][i + 2..] && IsUnmarked(s[1..][..i])
    ensures s == s[..i + 1] + "\\;" + s[i + 3..] && IsUnmarked(s[..i + 1])
  {
    UnmarkedCons(s[..i + 1]);
    assert s[..i + 1][1..] == s[1..][..i];
    assert s == [s[0]] + s[1..];
  }

  lemma {:induction false} UnmarkedCons(s: string)
    requires s != "" && !(|s| > 1 && s[0] == '\\' && s[1] == ';')
    ensures IsUnmarked(s) <==> IsUnmarked(s[1..])
  {
    if IsUnmarked(s[1..]) {
      forall i | 0 <= i < |s| - 1 && s[i] == '\\'
        ensures s[i + 1] != ';'
      {
        assert i > 0 ==> s[1..][i - 1] == s[i] && s[1..][i - 1 + 1] == s[i + 1];
      }
    }
    if IsUnmarked(s) {
      forall i | 0 <= i < |s[1..]| - 1 && s[1..][i] == '\\'
        ensures s[1..][i + 1] != ';'
      {
        assert s[i + 1] == s[1..][i] && s[i + 1 + 1] == s[1..][i + 1];
      }
    }
  }

  /** The text in front of the first mark, or the whole text, is a trimmed name with white space around it. */
  ghost predicate Refers(raw: string, name: string) {
    && Trimmed(name)
    && (|| (IsUnmarked(raw) && IsPadded(raw, name))
        || exists before, more :: raw == before + "\\;" + more && IsUnmarked(before) && IsPadded(before, name))
  }

  /** The name that a reference tells is the one it refers to. */
  lemma {:induction false} RefersExactly(raw: string, name: string)
    ensures ReferenceOf(raw).0 == name <==> Refers(raw, name)
  {
    MarkExactly(raw);
    TrimExactly(Parts(raw)[0], name);
    forall before, more | raw == before + "\\;" + more && IsUnmarked(before)
      ensures HasMark(raw) && Parts(raw)[0] == before
    {
      MarkExactly(before);
      MarkComesFirst(before, more);
    }
  }

  /** In particular to a trimmed name without a mark, alone or with more behind a mark. */
  lemma {:induction false} RefersToPlain(name: string, more: string)
    requires Trimmed(name) && IsUnmarked(name)
    ensures Refers(name, name) && Refers(name + "\\;" + more, name)
  {
    assert name == "" + name + "" && IsBlank("");
    assert IsPadded(name, name);
  }

  lemma {:induction false} PlainReference(name: string)
    requires Trimmed(name) && !HasMark(name)
    ensures ReferenceOf(name) == (name, None)
  {
    TrimOfTrimmed(name);
  }

  lemma {:induction false} VersionPart(version: string)
    ensures VersionIn(Parts("version:" + version)) == Some(version) <==> !HasMark(version)
  {
    var part := "version:" + version;
    var first := Parts(part)[0];
    MarkSkips("version:", version);
    var read := if HasMark(version) then version[..MarkAt(version)] else version;
    assert first == "version" + [':'] + read;
    SplitOnceAt("version", ':', read);
  }

  lemma {:induction false} PartsCons(before: string, more: string)
    requires !HasMark(before)
    ensures Parts(before + "\\;" + more) == [before] + Parts(more)
  {
    var s := before + "\\;" + more;
    MarkComesFirst(before, more);
    assert s[..|before|] == before && s[|before| + 2..] == more;
  }

  /** The first version counts. */
  lemma {:induction false} FirstVersionWins(name: string, version: string, more: string)
    requires IsUnmarked(name) && IsUnmarked(version)
    ensures ReferenceOf(name + "\\;" + ("version:" + version + "\\;" + more)) == (Trim(name), Some(version))
  {
    MarkExactly(name);
    MarkExactly(version);
    MarkSkips("version:", version);
    PartsCons("version:" + version, more);
    PartsCons(name, "version:" + version + "\\;" + more);
    assert "version:" + version == "version" + [':'] + version;
    SplitOnceAt("version", ':', version);
  }

  /** Other metadata does not. */
  lemma {:induction false} OtherPartIsSkipped(name: string, other: string, more: string)
    requires IsUnmarked(name) && IsUnmarked(other) && !("version:" <= other)
    ensures ReferenceOf(name + "\\;" + (other + "\\;" + more)) == ReferenceOf(name + "\\;" + more)
  {
    MarkExactly(name);
    MarkExactly(other);
    PartsCons(other, more);
    PartsCons(name, other + "\\;" + more);
    PartsCons(name, more);
    OtherPart(other);
    VersionInCons(other, Parts(more));
  }

  lemma {:induction false} VersionInCons(part: string, parts: seq<string>)
    requires PartVersion(part) == None
    ensures VersionIn([part] + parts) == VersionIn(parts)
  {
    assert ([part] + parts)[1..] == parts;
  }

  lemma {:induction false} OtherPart(part: string)
    ensures PartVersion(part).Some? ==> "version:" <= part
  {
    if PartVersion(part).Some? {
      assert part == "version" + [':'] + PartVersion(part).value;
      assert "version" + [':'] == "version:";
    }
  }

  /** A reference tells its name and version if and only if the name is trimmed and neither holds a mark. */
  lemma {:induction false} ReferenceReadsExactly(name: string, version: string)
    ensures ReferenceOf(name + "\\;version:" + version) == (name, Some(version))
            <==> Trimmed(name) && !HasMark(name) && !HasMark(version)
  {
    var raw := name + "\\;version:" + version;
    if HasMark(name) {
      MarkStays(name, "\\;version:" + version);
      assert raw == name + ("\\;version:" + version);
      TrimIsNoLonger(Parts(raw)[0]);
    } else {
      MarkComesFirst(name, "version:" + version);
      assert raw == name + "\\;" + ("version:" + version);
      assert raw[..|name|] == name && raw[|name| + 2..] == "version:" + version;
      VersionPart(version);
      TrimIsTrimmed(name);
      if Trimmed(name) {
        TrimOfTrimmed(name);
      }
    }
  }

  // ---------- Rules and detections ----------

  /** What the rules say of a technology, apart from its patterns. */
  datatype Technology = Technology(
    cats: seq<nat>,
    implied: seq<string>,
    excluded: seq<string>,
    required: seq<string>,
    requiredCategories: seq<nat>)

  datatype Ruleset = Ruleset(technologies: map<string, Technology>, categories: map<nat, string>)

  datatype Source = Header | Cookie | Html | ScriptSrc | Scripts | Url | Js | Ns | Cname | Cert | Implied

  datatype TechInfo = TechInfo(version: Option<string>, isImplied: bool, source: Source)

  predicate IsHexDigit(c: char) {
    '0' <= c <= '9' || 'a' <= c <= 'f' || 'A' <= c <= 'F'
  }

  /** Blank versions and those that look like a hash are dropped. */
  function Sanitized(version: Option<string>): Option<string> {
    if version.None? then None
    else
      var trimmed := Trim(version.value);
      if trimmed == "" || (|trimmed| >= 7 && forall c :: c in trimmed ==> IsHexDigit(c)) then None else version
  }

  /** A version is dropped if it is blank, or at least seven hexadecimal digits and nothing else. */
  lemma {:induction false} SanitizedExactly(version: string, core: string)
    requires Trimmed(core) && IsPadded(version, core)
    ensures Sanitized(None) == None
    ensures Sanitized(Some(version))
            == if core == "" || (|core| > 6 && forall c :: c in core ==> c in "0123456789abcdefABCDEF") then None
               else Some(version)
  {
    TrimOfPadded(version, core);
    forall c: char
      ensures IsHexDigit(c) <==> c in "0123456789abcdefABCDEF"
    {
      HexDigitsExactly(c);
    }
  }

  lemma {:induction false} HexDigitsExactly(c: char)
    ensures IsHexDigit(c) <==> c in "0123456789abcdefABCDEF"
  {
  }

  // ---------- Implied technologies ----------

  const MAX_DEPTH := 10

  function References(rules: Ruleset, name: string): seq<Reference> {
    if name in rules.technologies then Mapped(ReferenceOf, rules.technologies[name].implied) else []
  }

  /** The technologies in the rules that a technology implies. */
  function ImpliedBy(rules: Ruleset, name: string): set<string> {
    set ref | ref in References(rules, name) && ref.0 in rules.technologies :: ref.0
  }

  function Implies(rules: Ruleset): string -> set<string> {
    (name: string) => ImpliedBy(rules, name)
  }

  predicate Gives(rules: Ruleset, giver: string, name: string, version: Option<string>) {
    exists ref :: ref in References(rules, giver) && ref.0 == name && Sanitized(ref.1) == version
  }

  /** What a technology implies refers to a name that the rules know. */
  ghost predicate IsReferredTo(rules: Ruleset, giver: string, name: string) {
    && giver in rules.technologies && name in rules.technologies
    && exists raw :: raw in rules.technologies[giver].implied && Refers(raw, name)
  }

  lemma {:induction false} AddedAreReferredTo(rules: Ruleset, names: set<string>, depth: nat)
    requires depth > 0
    ensures var r := Reach(Implies(rules), names, depth);
            && (forall giver, name :: giver in names && IsReferredTo(rules, giver, name) ==> name in r)
            && (forall name :: name in r && name !in names ==>
                                 exists giver :: giver in r && IsReferredTo(rules, giver, name))
  {
    var next := Implies(rules);
    forall giver, name
      ensures name in next(giver) <==> IsReferredTo(rules, giver, name)
    {
      ImpliedExactly(rules, giver, name);
    }
    ReachHasGivers(next, names, depth);
  }

  lemma {:induction false} ImpliedExactly(rules: Ruleset, giver: string, name: string)
    ensures name in ImpliedBy(rules, giver) <==> IsReferredTo(rules, giver, name)
  {
    if giver in rules.technologies {
      var implied := rules.technologies[giver].implied;
      forall raw
        ensures ReferenceOf(raw).0 == name <==> Refers(raw, name)
      {
        RefersExactly(raw, name);
      }
      forall raw | raw in implied
        ensures ReferenceOf(raw) in References(rules, giver)
      {
        var i :| 0 <= i < |implied| && implied[i] == raw;
        assert References(rules, giver)[i] == ReferenceOf(raw);
      }
    }
  }

  /** Some of the technologies implies another in a version. */
  predicate GivesVersion(rules: Ruleset, names: set<string>, name: string, version: Option<string>) {
    exists giver :: giver in names && Gives(rules, giver, name, version)
  }

  /** What was detected stays as it was, but for a missing version; what is added is marked as implied. */
  predicate Extends(before: map<string, TechInfo>, after: map<string, TechInfo>) {
    && before.Keys <= after.Keys
    && (forall name :: name in before ==>
                         && after[name].isImplied == before[name].isImplied
                         && after[name].source == before[name].source
                         && (before[name].version.Some? ==> after[name].version == before[name].version))
    && (forall name :: name in after && name !in before ==> after[name].isImplied && after[name].source == Implied)
  }

  predicate HasNewVersion(name: string, before: map<string, TechInfo>, after: map<string, TechInfo>) {
    name in after && after[name].version.Some? && (name in before ==> before[name].version.None?)
  }

  /** Every version that is new is one that some of the technologies gives. */
  ghost predicate VersionsGiven(rules: Ruleset, names: set<string>, before: map<string, TechInfo>,
                                after: map<string, TechInfo>)
  {
    forall name :: HasNewVersion(name, before, after) ==> GivesVersion(rules, names, name, after[name].version)
  }

  /** If a reference gives a version to a technology in the rules, then that technology has one. */
  predicate Taken(rules: Ruleset, ref: Reference, after: map<string, TechInfo>) {
    ref.0 in rules.technologies && Sanitized(ref.1).Some? ==> ref.0 in after && after[ref.0].version.Some?
  }

  predicate AllTaken(rules: Ruleset, refs: seq<Reference>, after: map<string, TechInfo>) {
    forall ref :: ref in refs ==> Taken(rules, ref, after)
  }

  /** No technology lacks a version that some of the technologies gives it. */
  ghost predicate VersionsTaken(rules: Ruleset, names: set<string>, after: map<string, TechInfo>) {
    forall giver :: giver in names ==> AllTaken(rules, References(rules, giver), after)
  }

  /** One of the references that some of the technologies give. */
  predicate IsReference(rules: Ruleset, names: set<string>, ref: Reference) {
    exists giver :: giver in names && ref in References(rules, giver)
  }

  lemma {:induction false} ReferencesOfOneMore(rules: Ruleset, names: set<string>, name: string, ref: Reference)
    ensures IsReference(rules, names + {name}, ref)
            <==> IsReference(rules, names, ref) || ref in References(rules, name)
  {
    if ref in References(rules, name) {
      assert name in names + {name};
    }
  }

  method ReadReferences(raw: seq<string>) returns (out: seq<Reference>)
    ensures out == Mapped(ReferenceOf, raw)
  {
    out := [];
    for i := 0 to |raw|
      invariant out == Mapped(ReferenceOf, raw[..i])
    {
      var ref := ParseTechnologyReference(raw[i]);
      out := out + [ref];
    }
    assert raw[..|raw|] == raw;
  }

  /** All that the technologies imply, in any order of the technologies. */
  method CollectImplied(rules: Ruleset, names: set<string>) returns (out: seq<Reference>)
    ensures forall ref :: ref in out <==> IsReference(rules, names, ref)
  {
    out := [];
    var todo := names;
    while todo != {}
      invariant todo <= names
      invariant forall ref :: ref in out <==> IsReference(rules, names - todo, ref)
    {
      var name :| name in todo;
      forall ref
        ensures IsReference(rules, (names - todo) + {name}, ref)
                <==> IsReference(rules, names - todo, ref) || ref in References(rules, name)
      {
        ReferencesOfOneMore(rules, names - todo, name, ref);
      }
      assert (names - todo) + {name} == names - (todo - {name});
      todo := todo - {name};
      if name in rules.technologies {
        var refs := ReadReferences(rules.technologies[name].implied);
        out := out + refs;
      }
    }
    assert names - todo == names;
  }

  /** The technologies in the rules that references name. */
  function Named(rules: Ruleset, refs: seq<Reference>): set<string> {
    set ref | ref in refs && ref.0 in rules.technologies :: ref.0
  }

  /** What one reference adds: the technology if it is new, or else a missing version. */
  function WithReference(rules: Ruleset, detected: map<string, TechInfo>, ref: Reference): map<string, TechInfo> {
    var (name, raw) := ref;
    if name !in rules.technologies then detected
    else if name !in detected then detected[name := TechInfo(Sanitized(raw), true, Implied)]
    else if detected[name].version.None? then detected[name := detected[name].(version := Sanitized(raw))]
    else detected
  }

  /** Both references give a version to a technology that lacks one, and not the same. */
  predicate Compete(rules: Ruleset, detected: map<string, TechInfo>, a: Reference, b: Reference) {
    && a.0 == b.0 && a.0 in rules.technologies
    && (a.0 in detected ==> detected[a.0].version.None?)
    && Sanitized(a.1).Some? && Sanitized(b.1).Some? && Sanitized(a.1) != Sanitized(b.1)
  }

  /** References may be added in either order if and only if they do not compete. */
  lemma {:induction false} OrderMattersExactly(rules: Ruleset, detected: map<string, TechInfo>, a: Reference,
                                               b: Reference)
    ensures WithReference(rules, WithReference(rules, detected, a), b)
            == WithReference(rules, WithReference(rules, detected, b), a)
            <==> !Compete(rules, detected, a, b)
  {
    var x := WithReference(rules, WithReference(rules, detected, a), b);
    var y := WithReference(rules, WithReference(rules, detected, b), a);
    assert x.Keys == y.Keys;
    if Compete(rules, detected, a, b) {
      assert x[a.0].version == Sanitized(a.1) && y[a.0].version == Sanitized(b.1);
    } else {
      forall name | name in x
        ensures x[name] == y[name]
      {
      }
    }
  }

  lemma {:induction false} ReferenceExtends(rules: Ruleset, before: map<string, TechInfo>, r: map<string, TechInfo>,
                                            ref: Reference)
    requires Extends(before, r)
    ensures Extends(before, WithReference(rules, r, ref))
  {
  }

  lemma {:induction false} ReferenceIsTaken(rules: Ruleset, refs: seq<Reference>, r: map<string, TechInfo>,
                                            ref: Reference)
    requires AllTaken(rules, refs, r)
    ensures AllTaken(rules, refs + [ref], WithReference(rules, r, ref))
  {
    forall other | other in refs + [ref]
      ensures Taken(rules, other, WithReference(rules, r, ref))
    {
      assert other in refs ==> Taken(rules, other, r);
    }
  }

  lemma {:induction false} ReferenceGives(rules: Ruleset, names: set<string>, before: map<string, TechInfo>,
                                          r: map<string, TechInfo>, ref: Reference, giver: string)
    requires Extends(before, r) && VersionsGiven(rules, names, before, r)
    requires giver in names && ref in References(rules, giver)
    ensures VersionsGiven(rules, names, before, WithReference(rules, r, ref))
  {
    var after := WithReference(rules, r, ref);
    forall name | HasNewVersion(name, before, after)
      ensures GivesVersion(rules, names, name, after[name].version)
    {
      if name == ref.0 && after != r {
        assert Gives(rules, giver, name, after[name].version);
      } else {
        assert HasNewVersion(name, before, r);
      }
    }
  }

  lemma {:induction false} NamedPush(rules: Ruleset, refs: seq<Reference>, ref: Reference)
    ensures Named(rules, refs + [ref]) == Named(rules, refs) + if ref.0 in rules.technologies then {ref.0} else {}
  {
    assert ref in refs + [ref];
  }

  predicate AllGiven(rules: Ruleset, names: set<string>, refs: seq<Reference>) {
    forall ref :: ref in refs ==> IsReference(rules, names, ref)
  }

  method AddReference(rules: Ruleset, detected: map<string, TechInfo>, ref: Reference)
    returns (r: map<string, TechInfo>, added: bool)
    ensures r == WithReference(rules, detected, ref)
    ensures added <==> ref.0 in rules.technologies && ref.0 !in detected
  {
    var (name, raw) := ref;
    r, added := detected, false;
    if name !in rules.technologies {
      return;
    }
    var version := Sanitized(raw);
    if name in r {
      if r[name].version.None? && version.Some? {
        r := r[name := r[name].(version := version)];
      }
    } else {
      r := r[name := TechInfo(version, true, Implied)];
      added := true;
    }
  }

  /** What adding references keeps. */
  ghost predicate Adding(rules: Ruleset, names: set<string>, detected: map<string, TechInfo>, refs: seq<Reference>,
                         r: map<string, TechInfo>)
  {
    && r.Keys == detected.Keys + Named(rules, refs)
    && Extends(detected, r)
    && VersionsGiven(rules, names, detected, r)
    && AllTaken(rules, refs, r)
  }

  lemma {:induction false} AddingOne(rules: Ruleset, names: set<string>, detected: map<string, TechInfo>,
                                     refs: seq<Reference>, r: map<string, TechInfo>, ref: Reference)
    requires Adding(rules, names, detected, refs, r) && AllGiven(rules, names, [ref])
    ensures Adding(rules, names, detected, refs + [ref], WithReference(rules, r, ref))
  {
    assert ref in [ref];
    var giver :| giver in names && ref in References(rules, giver);
    ReferenceGives(rules, names, detected, r, ref, giver);
    ReferenceExtends(rules, detected, r, ref);
    ReferenceIsTaken(rules, refs, r, ref);
    NamedPush(rules, refs, ref);
  }

  method AddImplied(rules: Ruleset, detected: map<string, TechInfo>, refs: seq<Reference>, ghost names: set<string>)
    returns (r: map<string, TechInfo>, addedAny: bool)
    requires AllGiven(rules, names, refs)
    ensures Adding(rules, names, detected, refs, r)
    ensures addedAny <==> r.Keys != detected.Keys
  {
    r, addedAny := detected, false;
    for i := 0 to |refs|
      invariant Adding(rules, names, detected, refs[..i], r)
      invariant addedAny <==> r.Keys != detected.Keys
    {
      assert refs[..i + 1] == refs[..i] + [refs[i]];
      assert refs[i] in refs;
      AddingOne(rules, names, detected, refs[..i], r, refs[i]);
      var added;
      r, added := AddReference(rules, r, refs[i]);
      addedAny := addedAny || added;
    }
    assert refs[..|refs|] == refs;
  }

  lemma {:induction false} OneRound(rules: Ruleset, names: set<string>, refs: seq<Reference>)
    requires forall ref :: ref in refs <==> IsReference(rules, names, ref)
    ensures AllGiven(rules, names, refs)
    ensures names + Named(rules, refs) == Step(Implies(rules), names)
  {
    forall name | name in Step(Implies(rules), names)
      ensures name in names + Named(rules, refs)
    {
      if name !in names {
        var giver :| giver in names && name in ImpliedBy(rules, giver);
        var ref :| ref in References(rules, giver) && ref.0 == name && ref.0 in rules.technologies;
        assert IsReference(rules, names, ref);
      }
    }
    forall name | name in Named(rules, refs)
      ensures name in Step(Implies(rules), names)
    {
      var ref :| ref in refs && ref.0 == name && ref.0 in rules.technologies;
      var giver :| giver in names && ref in References(rules, giver);
      assert name in Implies(rules)(giver);
    }
  }

  lemma {:induction false} VersionsTwice(rules: Ruleset, a: map<string, TechInfo>, b: map<string, TechInfo>,
                                         c: map<string, TechInfo>)
    requires Extends(a, b) && VersionsGiven(rules, b.Keys, a, b)
    requires Extends(b, c) && VersionsGiven(rules, b.Keys, b, c)
    ensures Extends(a, c) && VersionsGiven(rules, c.Keys, a, c)
  {
    forall name | HasNewVersion(name, a, c)
      ensures GivesVersion(rules, c.Keys, name, c[name].version)
    {
      if HasNewVersion(name, b, c) {
        assert GivesVersion(rules, b.Keys, name, c[name].version);
      } else {
        assert HasNewVersion(name, a, b);
      }
    }
  }

  /** A round of expansion: what the technologies imply is added. */
  method ExpandOnce(rules: Ruleset, detected: map<string, TechInfo>)
    returns (r: map<string, TechInfo>, addedAny: bool)
    ensures r.Keys == Step(Implies(rules), detected.Keys)
    ensures addedAny <==> r.Keys != detected.Keys
    ensures Extends(detected, r) && VersionsGiven(rules, detected.Keys, detected, r)
    ensures VersionsTaken(rules, detected.Keys, r)
  {
    var implied := CollectImplied(rules, detected.Keys);
    OneRound(rules, detected.Keys, implied);
    r, addedAny := AddImplied(rules, detected, implied, detected.Keys);
  }

  /**
   Expands what is implied, for at most ten rounds: exactly what is at the end of a chain of at
   most ten steps is added. So what a detected technology refers to is there if the rules know it,
   and what is added is referred to. Nothing detected is changed but for a missing version, and the
   versions are those that the references of the kept technologies give.
   */
  method ExpandImplies(rules: Ruleset, detected: map<string, TechInfo>) returns (r: map<string, TechInfo>)
    ensures r.Keys == Reach(Implies(rules), detected.Keys, MAX_DEPTH)
    ensures Extends(detected, r)
    ensures VersionsGiven(rules, r.Keys, detected, r)
    ensures VersionsTaken(rules, Reach(Implies(rules), detected.Keys, MAX_DEPTH - 1), r)
    ensures forall giver, name :: giver in detected && IsReferredTo(rules, giver, name) ==> name in r
    ensures forall name :: name in r && name !in detected ==>
                             && r[name].isImplied && r[name].source == Implied
                             && exists giver :: giver in r && IsReferredTo(rules, giver, name)
  {
    r := ExpandUpTo(rules, detected, MAX_DEPTH);
  }

  method ExpandUpTo(rules: Ruleset, detected: map<string, TechInfo>, depth: nat) returns (r: map<string, TechInfo>)
    requires depth > 0
    ensures r.Keys == Reach(Implies(rules), detected.Keys, depth)
    ensures Extends(detected, r)
    ensures VersionsGiven(rules, r.Keys, detected, r)
    ensures VersionsTaken(rules, Reach(Implies(rules), detected.Keys, depth - 1), r)
    ensures forall giver, name :: giver in detected && IsReferredTo(rules, giver, name) ==> name in r
    ensures forall name :: name in r && name !in detected ==>
                             exists giver :: giver in r && IsReferredTo(rules, giver, name)
  {
    AddedAreReferredTo(rules, detected.Keys, depth);
    r := detected;
    ghost var next, names := Implies(rules), detected.Keys;
    for round := 0 to depth
      invariant r.Keys == Reach(next, names, round)
      invariant Extends(detected, r) && VersionsGiven(rules, r.Keys, detected, r)
      invariant round > 0 ==> VersionsTaken(rules, Reach(next, names, round - 1), r)
    {
      ghost var before := r;
      var addedAny;
      r, addedAny := ExpandOnce(rules, r);
      VersionsTwice(rules, detected, before, r);
      if !addedAny {
        ReachStays(next, names, round, depth - 1);
        ReachStays(next, names, round, depth);
        break;
      }
    }
  }

  /** Ten rounds close what was detected under `implies` if and only if no chain leads further than ten steps. */
  lemma {:induction false} ExpansionClosesExactly(rules: Ruleset, detected: set<string>)
    ensures IsLeastClosed(Implies(rules), detected, Reach(Implies(rules), detected, MAX_DEPTH))
            <==> NoLongerChains(Implies(rules), detected, MAX_DEPTH)
  {
    ReachIsLeastClosedExactly(Implies(rules), detected, MAX_DEPTH);
  }

  /** So it does if at most ten technologies are to be added. */
  lemma {:induction false} FewAdditionsSettle(rules: Ruleset, detected: set<string>, closed: set<string>)
    requires detected <= closed && Closed(Implies(rules), closed) && |closed| <= |detected| + MAX_DEPTH
    ensures IsLeastClosed(Implies(rules), detected, Reach(Implies(rules), detected, MAX_DEPTH))
  {
    FewAdditionsClose(Implies(rules), detected, MAX_DEPTH, closed);
  }

  // ---------- Exclusions ----------

  predicate Excludes(rules: Ruleset, other: string, name: string) {
    && other != name
    && other in rules.technologies
    && exists raw :: raw in rules.technologies[other].excluded && ReferenceOf(raw).0 == name
  }

  predicate IsExcluded(rules: Ruleset, detected: set<string>, name: string) {
    exists other :: other in detected && Excludes(rules, other, name)
  }

  function NotExcluded(rules: Ruleset, detected: set<string>): set<string> {
    set name | name in detected && !IsExcluded(rules, detected, name)
  }

  lemma {:induction false} ExcludesExactly(rules: Ruleset, other: string, name: string)
    ensures Excludes(rules, other, name)
            <==> other != name && other in rules.technologies
                 && exists raw :: raw in rules.technologies[other].excluded && Refers(raw, name)
  {
    forall raw
      ensures ReferenceOf(raw).0 == name <==> Refers(raw, name)
    {
      RefersExactly(raw, name);
    }
  }

  /** What is detected stays, unless the exclusions of another detected technology refer to it. */
  method ApplyTechnologyExclusions(rules: Ruleset, detected: set<string>) returns (r: set<string>)
    ensures r == NotExcluded(rules, detected)
    ensures forall name :: name in r <==>
                           name in detected &&
                           forall other :: other in detected && other != name && other in rules.technologies ==>
                                             forall raw :: raw in rules.technologies[other].excluded
                                                           ==> !Refers(raw, name)
  {
    forall other, name
      ensures Excludes(rules, other, name)
              <==> other != name && other in rules.technologies
                   && exists raw :: raw in rules.technologies[other].excluded && Refers(raw, name)
    {
      ExcludesExactly(rules, other, name);
    }
    r := {};
    var todo := detected;
    while todo != {}
      invariant todo <= detected
      invariant r == set name | name in detected - todo && !IsExcluded(rules, detected, name)
    {
      var name :| name in todo;
      todo := todo - {name};
      if !IsExcluded(rules, detected, name) {
        r := r + {name};
      }
    }
  }

  // ---------- Requirements ----------

  predicate InCategories(rules: Ruleset, name: string, categories: seq<nat>) {
    name in rules.technologies && exists cat :: cat in rules.technologies[name].cats && cat in categories
  }

  /** Another technology of the set is in one of the categories. */
  predicate HasOther(rules: Ruleset, name: string, categories: seq<nat>, s: set<string>) {
    exists other :: other in s && other != name && InCategories(rules, other, categories)
  }

  /** All that a technology requires is in the set; one that the rules do not know requires nothing. */
  predicate Satisfied(rules: Ruleset, name: string, s: set<string>) {
    name in rules.technologies ==>
      var t := rules.technologies[name];
      && (forall raw :: raw in t.required ==> ReferenceOf(raw).0 in s)
      && (t.requiredCategories == [] || HasOther(rules, name, t.requiredCategories, s))
  }

  function Requirements(rules: Ruleset): Support<string> {
    (name: string, s: set<string>) => Satisfied(rules, name, s)
  }

  /** Each reference refers to something required, and some technology of a required category is another one. */
  lemma {:induction false} SatisfiedExactly(rules: Ruleset, name: string, s: set<string>)
    ensures Satisfied(rules, name, s) <==>
            name in rules.technologies ==>
            && (forall raw, req :: raw in rules.technologies[name].required && Refers(raw, req) ==> req in s)
            && (rules.technologies[name].requiredCategories == [] ||
                exists other, cat :: && other in s && other != name && other in rules.technologies
                                     && cat in rules.technologies[other].cats
                                     && cat in rules.technologies[name].requiredCategories)
  {
    forall raw, req
      ensures ReferenceOf(raw).0 == req <==> Refers(raw, req)
    {
      RefersExactly(raw, req);
    }
  }

  /** All that the references of a technology name is there, and another technology of a required category. */
  method TechnologyRequiresSatisfied(rules: Ruleset, name: string, detected: set<string>) returns (ok: bool)
    ensures ok == Satisfied(rules, name, detected)
    ensures ok <==>
            name in rules.technologies ==>
            && (forall raw, req :: raw in rules.technologies[name].required && Refers(raw, req) ==> req in detected)
            && (rules.technologies[name].requiredCategories == [] ||
                exists other, cat :: && other in detected && other != name && other in rules.technologies
                                     && cat in rules.technologies[other].cats
                                     && cat in rules.technologies[name].requiredCategories)
  {
    SatisfiedExactly(rules, name, detected);
    if name !in rules.technologies {
      return true;
    }
    var t := rules.technologies[name];
    for i := 0 to |t.required|
      invariant forall raw :: raw in t.required[..i] ==> ReferenceOf(raw).0 in detected
    {
      var ref := ParseTechnologyReference(t.required[i]);
      if ref.0 !in detected {
        assert t.required[i] in t.required;
        return false;
      }
      assert t.required[..i + 1] == t.required[..i] + [t.required[i]];
    }
    assert t.required[..|t.required|] == t.required;
    return t.requiredCategories == [] || HasOther(rules, name, t.requiredCategories, detected);
  }

  /** A round of dropping. */
  method DropOnce(rules: Ruleset, remaining: set<string>) returns (next: set<string>, droppedAny: bool)
    ensures next == Round(Requirements(rules), remaining)
    ensures droppedAny <==> next != remaining
  {
    next, droppedAny := {}, false;
    var todo := remaining;
    while todo != {}
      invariant todo <= remaining
      invariant next == set name | name in remaining - todo && Satisfied(rules, name, remaining)
      invariant droppedAny <==> next != remaining - todo
    {
      var name :| name in todo;
      todo := todo - {name};
      var ok := TechnologyRequiresSatisfied(rules, name, remaining);
      if ok {
        next := next + {name};
      } else {
        droppedAny := true;
        assert name in remaining - todo && name !in next;
      }
    }
    assert remaining - todo == remaining;
  }

  /** Drops what is not satisfied, for at most ten rounds. */
  method ApplyTechnologyRequires(rules: Ruleset, detected: set<string>) returns (r: set<string>)
    ensures r == Kept(Requirements(rules), detected, MAX_DEPTH)
  {
    r := DropUpTo(rules, detected, MAX_DEPTH);
  }

  method DropUpTo(rules: Ruleset, detected: set<string>, depth: nat) returns (r: set<string>)
    ensures r == Kept(Requirements(rules), detected, depth)
  {
    r := detected;
    ghost var support := Requirements(rules);
    for round := 0 to depth
      invariant r == Kept(support, detected, round)
    {
      var droppedAny;
      r, droppedAny := DropOnce(rules, r);
      if !droppedAny {
        KeptStays(support, detected, round, depth);
        break;
      }
    }
  }

  lemma {:induction false} RequirementsAreMonotone(rules: Ruleset)
    ensures Monotone(Requirements(rules))
  {
    forall name, s: set<string>, t: set<string> | s <= t && Satisfied(rules, name, s)
      ensures Satisfied(rules, name, t)
    {
    }
  }

  /**
   A technology fails in some rounds: something it requires was not detected or fails in fewer
   rounds, or all others of the categories it requires do.
   */
  predicate Fails(rules: Ruleset, detected: set<string>, name: string, rounds: nat)
    decreases rounds
  {
    && rounds > 0
    && name in rules.technologies
    && var t := rules.technologies[name];
    || (exists raw :: raw in t.required &&
                      (ReferenceOf(raw).0 !in detected || Fails(rules, detected, ReferenceOf(raw).0, rounds - 1)))
    || (t.requiredCategories != [] &&
        forall other :: other in detected && other != name && InCategories(rules, other, t.requiredCategories)
                        ==> Fails(rules, detected, other, rounds - 1))
  }

  lemma {:induction false} FailsStep(rules: Ruleset, detected: set<string>, name: string, n: nat, kept: set<string>)
    requires kept <= detected && forall x :: x in detected ==> (x !in kept <==> Fails(rules, detected, x, n))
    ensures Fails(rules, detected, name, n + 1) <==> !Satisfied(rules, name, kept)
  {
  }

  lemma {:induction false} FailsLonger(rules: Ruleset, detected: set<string>, name: string, n: nat)
    requires Fails(rules, detected, name, n)
    ensures Fails(rules, detected, name, n + 1)
    decreases n
  {
    forall other | Fails(rules, detected, other, n - 1)
      ensures Fails(rules, detected, other, n)
    {
      FailsLonger(rules, detected, other, n - 1);
    }
  }

  /** What is dropped within `n` rounds is what fails in `n` rounds. */
  lemma {:induction false} DroppedExactly(rules: Ruleset, detected: set<string>, name: string, n: nat)
    requires name in detected
    ensures name !in Kept(Requirements(rules), detected, n) <==> Fails(rules, detected, name, n)
    decreases n
  {
    if n > 0 {
      var kept := Kept(Requirements(rules), detected, n - 1);
      KeptShrinks(Requirements(rules), detected, n - 1, n - 1);
      forall x | x in detected
        ensures x !in kept <==> Fails(rules, detected, x, n - 1)
      {
        DroppedExactly(rules, detected, x, n - 1);
      }
      FailsStep(rules, detected, name, n - 1, kept);
      if name !in kept {
        FailsLonger(rules, detected, name, n - 1);
      }
    }
  }

  /** Nothing fails only in more than `n` rounds. */
  ghost predicate NoLateFailures(rules: Ruleset, detected: set<string>, n: nat) {
    forall name, k: nat :: name in detected && Fails(rules, detected, name, k) ==> Fails(rules, detected, name, n)
  }

  lemma {:induction false} LateFailuresAreLateDrops(rules: Ruleset, detected: set<string>, n: nat)
    ensures NoLateFailures(rules, detected, n) <==> NoLaterDrops(Requirements(rules), detected, n)
  {
    forall name, k: nat | name in detected
      ensures name !in Kept(Requirements(rules), detected, k) <==> Fails(rules, detected, name, k)
    {
      DroppedExactly(rules, detected, name, k);
    }
  }

  /** Ten rounds leave the greatest set whose requirements are met if and only if nothing fails only later. */
  lemma {:induction false} RequirementsSettleExactly(rules: Ruleset, detected: set<string>)
    ensures IsGreatestSupported(Requirements(rules), detected, Kept(Requirements(rules), detected, MAX_DEPTH))
            <==> NoLateFailures(rules, detected, MAX_DEPTH)
  {
    RequirementsAreMonotone(rules);
    KeptIsGreatestExactly(Requirements(rules), detected, MAX_DEPTH);
    LateFailuresAreLateDrops(rules, detected, MAX_DEPTH);
  }

  /** Ten technologies or fewer always settle. */
  lemma {:induction false} FewTechnologiesSettle(rules: Ruleset, detected: set<string>)
    requires |detected| <= MAX_DEPTH
    ensures IsGreatestSupported(Requirements(rules), detected, Kept(Requirements(rules), detected, MAX_DEPTH))
  {
    RequirementsAreMonotone(rules);
    FewElementsSettle(Requirements(rules), detected, MAX_DEPTH);
  }

  // ---------- What is kept in the end ----------

  function KeptNames(rules: Ruleset, detected: set<string>): set<string> {
    Kept(Requirements(rules), NotExcluded(rules, detected), MAX_DEPTH)
  }

  predicate IsInCategory(rules: Ruleset, name: string, category: string) {
    && name in rules.technologies
    && exists id :: id in rules.technologies[name].cats && id in rules.categories
                    && EqIgnoreCase(rules.categories[id], category)
  }

  predicate IsDenylisted(rules: Ruleset, name: string) {
    || EqIgnoreCase(name, "HTTP/2") || EqIgnoreCase(name, "HTTP/3") || EqIgnoreCase(name, "HSTS")
    || IsInCategory(rules, name, "SSL/TLS certificate authorities")
  }

  /** Three protocols, in any case. */
  ghost predicate IsProtocol(name: string) {
    exists protocol :: protocol in {"HTTP/2", "HTTP/3", "HSTS"} && EqIgnoreCase(name, protocol)
  }

  /** One of the categories of a technology has this name, in any case. */
  ghost predicate HasCategory(rules: Ruleset, name: string, category: string) {
    && name in rules.technologies
    && exists id, c :: id in rules.technologies[name].cats && id in rules.categories && rules.categories[id] == c &&
                       EqIgnoreCase(c, category)
  }

  lemma {:induction false} DenylistedExactly(rules: Ruleset, name: string)
    ensures IsDenylisted(rules, name)
            <==> IsProtocol(name) || HasCategory(rules, name, "SSL/TLS certificate authorities")
  {
    assert "HTTP/2" in {"HTTP/2", "HTTP/3", "HSTS"} && "HTTP/3" in {"HTTP/2", "HTTP/3", "HSTS"};
    assert "HSTS" in {"HTTP/2", "HTTP/3", "HSTS"};
  }

  lemma {:induction false} NotExcludedExactly(rules: Ruleset, detected: set<string>, name: string)
    requires name in detected
    ensures NothingRefersTo(rules, detected, name) <==> name in NotExcluded(rules, detected)
  {
    forall other
      ensures Excludes(rules, other, name)
              <==> other != name && other in rules.technologies
                   && exists raw :: raw in rules.technologies[other].excluded && Refers(raw, name)
    {
      ExcludesExactly(rules, other, name);
    }
  }

  lemma {:induction false} UndemandingStays(rules: Ruleset, s: set<string>, name: string, n: nat)
    requires name in s
    requires name in rules.technologies ==>
               rules.technologies[name].required == [] && rules.technologies[name].requiredCategories == []
    ensures name in Kept(Requirements(rules), s, n)
  {
    if n > 0 {
      UndemandingStays(rules, s, name, n - 1);
    }
  }

  /** Nothing that is excluded by another detected technology. */
  ghost predicate NothingRefersTo(rules: Ruleset, detected: set<string>, name: string) {
    forall other, raw ::
      other in detected && other != name && other in rules.technologies && raw in rules.technologies[other].excluded
      ==> !Refers(raw, name)
  }

  /**
   What is left of the detections, unchanged: none that another detected technology excludes, and
   none on the denylist. What requires nothing stays, unless it is excluded or on the denylist.
   */
  method FinalizeDetections(rules: Ruleset, detected: map<string, TechInfo>) returns (r: map<string, TechInfo>)
    ensures r == map name | name in KeptNames(rules, detected.Keys) && name in detected && !IsDenylisted(rules, name)
                 :: detected[name]
    ensures forall name :: name in r ==> name in detected && r[name] == detected[name]
    ensures forall name :: name in r ==> NothingRefersTo(rules, detected.Keys, name)
    ensures forall name :: name in r ==>
                             !IsProtocol(name) && !HasCategory(rules, name, "SSL/TLS certificate authorities")
    ensures forall name :: && name in detected && NothingRefersTo(rules, detected.Keys, name)
                           && !IsProtocol(name) && !HasCategory(rules, name, "SSL/TLS certificate authorities")
                           && (name in rules.technologies ==>
                                 && rules.technologies[name].required == []
                                 && rules.technologies[name].requiredCategories == [])
                           ==> name in r
  {
    forall name
      ensures name in detected ==> (NothingRefersTo(rules, detected.Keys, name)
                                    <==> name in NotExcluded(rules, detected.Keys))
    {
      if name in detected {
        NotExcludedExactly(rules, detected.Keys, name);
      }
    }
    KeptShrinks(Requirements(rules), NotExcluded(rules, detected.Keys), MAX_DEPTH, MAX_DEPTH);
    forall name
      ensures IsDenylisted(rules, name)
              <==> IsProtocol(name) || HasCategory(rules, name, "SSL/TLS certificate authorities")
    {
      DenylistedExactly(rules, name);
    }
    forall name | name in NotExcluded(rules, detected.Keys) &&
                  (name in rules.technologies ==>
                     rules.technologies[name].required == [] && rules.technologies[name].requiredCategories == [])
      ensures name in KeptNames(rules, detected.Keys)
    {
      UndemandingStays(rules, NotExcluded(rules, detected.Keys), name, MAX_DEPTH);
    }
    var afterExclusions := ApplyTechnologyExclusions(rules, detected.Keys);
    var kept := ApplyTechnologyRequires(rules, afterExclusions);
    r := map name | name in kept && name in detected && !IsDenylisted(rules, name) :: detected[name];
  }

  /**
   Nothing that is kept is excluded by anything detected; and if nothing fails late, all that it
   requires is kept too, and no larger set of what is not excluded has its requirements met.
   */
  lemma {:induction false} KeptIsConsistent(rules: Ruleset, detected: set<string>)
    ensures var kept, candidates := KeptNames(rules, detected), NotExcluded(rules, detected);
            && kept <= candidates <= detected
            && (forall name :: name in kept ==> NothingRefersTo(rules, detected, name))
            && (NoLateFailures(rules, candidates, MAX_DEPTH) ==>
                  && (forall name :: name in kept ==> Satisfied(rules, name, kept))
                  && (forall t :: t <= candidates && Supported(Requirements(rules), t) ==> t <= kept))
  {
    var candidates := NotExcluded(rules, detected);
    KeptShrinks(Requirements(rules), candidates, MAX_DEPTH, MAX_DEPTH);
    RequirementsSettleExactly(rules, candidates);
    forall name | name in candidates
      ensures NothingRefersTo(rules, detected, name)
    {
      NotExcludedExactly(rules, detected, name);
    }
  }

  // ---------- Chains that are too long ----------

  function Xs(k: nat): string {
    if k == 0 then "" else "x" + Xs(k - 1)
  }

  lemma {:induction false} XsAreXs(k: nat)
    ensures |Xs(k)| == k && forall c :: c in Xs(k) ==> c == 'x'
  {
    if k > 0 {
      XsAreXs(k - 1);
    }
  }

  /** Names of 1 to `n` letters. */
  function ChainNames(n: nat): set<string> {
    if n == 0 then {} else ChainNames(n - 1) + {Xs(n)}
  }

  lemma {:induction false} InChain(n: nat, k: nat)
    ensures Xs(k) in ChainNames(n) <==> 1 <= k <= n
  {
    XsAreXs(k);
    if n > 0 {
      InChain(n - 1, k);
      XsAreXs(n);
    }
  }

  lemma {:induction false} ChainMember(n: nat, name: string)
    requires name in ChainNames(n)
    ensures 1 <= |name| <= n && name == Xs(|name|)
  {
    XsAreXs(n);
    if name != Xs(n) {
      ChainMember(n - 1, name);
    }
  }

  /** Rules in which each of `n` names both implies and requires the next longer one. */
  function ChainRules(n: nat): Ruleset {
    Ruleset(map name | name in ChainNames(n) :: Technology([], ["x" + name], [], ["x" + name], []), map[])
  }

  lemma {:induction false} ChainReference(k: nat)
    ensures ReferenceOf(Xs(k)) == (Xs(k), None)
  {
    XsAreXs(k);
    NoMark(Xs(k));
    assert Trimmed(Xs(k)) by {
      assert k > 0 ==> Xs(k)[0] in Xs(k) && Xs(k)[k - 1] in Xs(k);
    }
    PlainReference(Xs(k));
  }

  lemma {:induction false} NoMark(s: string)
    requires '\\' !in s
    ensures !HasMark(s)
  {
    MarkSkips(s, "");
    assert s + "" == s;
  }

  lemma {:induction false} ChainLinks(n: nat, k: nat)
    requires 1 <= k <= n
    ensures var rules := ChainRules(n);
            && Xs(k) in rules.technologies
            && ImpliedBy(rules, Xs(k)) == (if k < n then {Xs(k + 1)} else {})
            && forall s :: Satisfied(rules, Xs(k), s) <==> Xs(k + 1) in s
  {
    var rules := ChainRules(n);
    InChain(n, k);
    InChain(n, k + 1);
    ChainReference(k + 1);
    var t := rules.technologies[Xs(k)];
    assert t.implied == [Xs(k + 1)] == t.required;
    assert References(rules, Xs(k)) == [(Xs(k + 1), None)];
    assert Xs(k + 1) in t.required;
  }

  lemma {:induction false} ChainStep(n: nat, k: nat)
    requires 1 <= k < n
    ensures Step(Implies(ChainRules(n)), ChainNames(k)) == ChainNames(k + 1)
  {
    var next := Implies(ChainRules(n));
    InChain(k, k);
    ChainLinks(n, k);
    assert Xs(k) in ChainNames(k) && Xs(k + 1) in next(Xs(k));
    forall x | x in ChainNames(k)
      ensures next(x) <= ChainNames(k + 1)
    {
      ChainStepAt(n, k, x);
    }
  }

  lemma {:induction false} ChainStepAt(n: nat, k: nat, x: string)
    requires 1 <= k < n && x in ChainNames(k)
    ensures ImpliedBy(ChainRules(n), x) <= ChainNames(k + 1)
  {
    ChainMember(k, x);
    ChainLinks(n, |x|);
    InChain(k + 1, |x| + 1);
  }

  lemma {:induction false} ChainReach(n: nat, k: nat)
    requires k < n
    ensures Reach(Implies(ChainRules(n)), ChainNames(1), k) == ChainNames(k + 1)
  {
    if k > 0 {
      ChainReach(n, k - 1);
      NextReach(Implies(ChainRules(n)), ChainNames(1), k - 1, ChainNames(k));
      ChainStep(n, k);
    }
  }

  /** A chain of eleven steps is cut: the name at its end is implied and not added. */
  lemma {:induction false} LongChainIsCut()
    ensures var next, detected := Implies(ChainRules(12)), {"x"};
            var r := Reach(next, detected, MAX_DEPTH);
            Xs(11) in r && Xs(12) in next(Xs(11)) && Xs(12) !in r && !IsLeastClosed(next, detected, r)
  {
    assert Xs(1) == "x" + Xs(0) == "x";
    assert ChainNames(1) == ChainNames(0) + {Xs(1)} == {"x"};
    ChainReach(12, MAX_DEPTH);
    InChain(11, 11);
    InChain(11, 12);
    ChainLinks(12, 11);
  }

  lemma {:induction false} ChainRound(n: nat, k: nat)
    requires 1 <= k <= n
    ensures Round(Requirements(ChainRules(n)), ChainNames(k)) == ChainNames(k - 1)
  {
    var support := Requirements(ChainRules(n));
    forall x | x in ChainNames(k)
      ensures support(x, ChainNames(k)) <==> x in ChainNames(k - 1)
    {
      ChainRoundAt(n, k, x);
    }
    assert ChainNames(k - 1) <= ChainNames(k);
  }

  lemma {:induction false} ChainRoundAt(n: nat, k: nat, x: string)
    requires 1 <= k <= n && x in ChainNames(k)
    ensures Satisfied(ChainRules(n), x, ChainNames(k)) <==> x in ChainNames(k - 1)
  {
    ChainMember(k, x);
    ChainLinks(n, |x|);
    InChain(k, |x| + 1);
    InChain(k - 1, |x|);
  }

  lemma {:induction false} ChainKept(n: nat, k: nat)
    requires k <= n
    ensures Kept(Requirements(ChainRules(n)), ChainNames(n), k) == ChainNames(n - k)
  {
    if k > 0 {
      ChainKept(n, k - 1);
      ChainRound(n, n - k + 1);
    }
  }

  /** Of names that each require the next, none can stay. */
  lemma {:induction false} NoneOfChainIsSupported(n: nat)
    ensures forall t :: t <= ChainNames(n) && Supported(Requirements(ChainRules(n)), t) ==> t == {}
  {
    var support := Requirements(ChainRules(n));
    ChainKept(n, n);
    RequirementsAreMonotone(ChainRules(n));
    forall t | t <= ChainNames(n) && Supported(support, t)
      ensures t == {}
    {
      KeptIsGreatest(support, ChainNames(n), n, t);
    }
  }

  /** Of twelve names that each require the next, two are left after ten rounds. */
  lemma {:induction false} LongRequirementsAreCut()
    ensures var support, detected := Requirements(ChainRules(12)), ChainNames(12);
            && Kept(support, detected, MAX_DEPTH) == ChainNames(2) != {}
            && forall t :: t <= detected && Supported(support, t) ==> t == {}
  {
    ChainKept(12, MAX_DEPTH);
    InChain(2, 1);
    NoneOfChainIsSupported(12);
  }
}
