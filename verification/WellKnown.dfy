/** Parsing robots.txt and security.txt (src/fetch/well_known.rs). */
module WellKnown {
  import opened Wrappers
  import opened Sequences
  import opened Text

  /** A field line: a name, lowercased, and a value, both trimmed. */
  type Field = (string, string)

  /** The field of one line; comments, lines without ':' and lines without a value have none. */
  function FieldOf(line: string): Option<Field> {
    var t := Trim(line);
    if t == "" || t[0] == '#' then None
    else
      match SplitOnce(t, ':')
      case None => None
      case Some((name, value)) =>
        if Trim(value) == "" then None else Some((Lower(Trim(name)), Trim(value)))
  }

  /** A line says a field: its name, in any case, then a colon, then its value, with any white space around both. */
  ghost predicate Spells(line: string, field: Field) {
    exists left, name, right ::
      && line == left + ":" + right && ':' !in left
      && IsPadded(left, name) && Trimmed(name) && !("#" <= name) && field.0 == Lower(name)
      && IsPadded(right, field.1) && Trimmed(field.1) && field.1 != ""
  }

  lemma {:induction false} FieldAtColon(left: string, right: string)
    requires ':' !in left
    ensures FieldOf(left + ":" + right)
            == if "#" <= Trim(left) || Trim(right) == "" then None else Some((Lower(Trim(left)), Trim(right)))
  {
    var t := Trim(left + ":" + right);
    SplitTrimmed(left, ':', right);
    TrimBegins(left);
    TrimTwice(left);
    TrimTwice(right);
    assert t[0] == if TrimStart(left) == "" then ':' else TrimStart(left)[0];
  }

  lemma {:induction false} FieldAtPaddedColon(left: string, name: string, right: string, value: string)
    requires ':' !in left && IsPadded(left, name) && Trimmed(name) && IsPadded(right, value) && Trimmed(value)
    ensures FieldOf(left + ":" + right) == if "#" <= name || value == "" then None else Some((Lower(name), value))
  {
    FieldAtColon(left, right);
    TrimOfPadded(left, name);
    TrimOfPadded(right, value);
  }

  lemma {:induction false} FieldIsSaid(line: string)
    ensures FieldOf(line).Some? ==> Spells(line, FieldOf(line).value)
  {
    if ':' in line {
      var (left, right) := SplitOnce(line, ':').value;
      FieldAtColon(left, right);
      TrimExactly(left, Trim(left));
      TrimExactly(right, Trim(right));
    } else {
      TrimIsTrimmed(line);
    }
  }

  /** The field of a line is the one that it says, if it says one. */
  lemma {:induction false} FieldExactly(line: string, field: Field)
    ensures FieldOf(line) == Some(field) <==> Spells(line, field)
  {
    FieldIsSaid(line);
    if Spells(line, field) {
      var left, name, right :|
        && line == left + ":" + right && ':' !in left
        && IsPadded(left, name) && Trimmed(name) && !("#" <= name) && field.0 == Lower(name)
        && IsPadded(right, field.1) && Trimmed(field.1) && field.1 != "";
      FieldAtPaddedColon(left, name, right, field.1);
    }
  }

  /** What the lines of a file say, line by line: a field or nothing. */
  ghost predicate Say(lines: seq<string>, said: seq<seq<Field>>) {
    |said| == |lines| && forall i :: 0 <= i < |lines| ==> SaysJust(lines[i], said[i])
  }

  ghost predicate SaysJust(line: string, said: seq<Field>) {
    |said| <= 1 && forall field :: field in said <==> Spells(line, field)
  }

  function FieldIn(line: string): seq<Field> {
    if FieldOf(line).Some? then [FieldOf(line).value] else []
  }

  lemma {:induction false} LineReads(line: string, said: seq<Field>)
    requires SaysJust(line, said)
    ensures FieldIn(line) == said
  {
    if said != [] {
      assert said[0] in said;
      FieldExactly(line, said[0]);
    }
    FieldIsSaid(line);
  }

  lemma {:induction false} FieldsRead(lines: seq<string>, said: seq<seq<Field>>)
    requires Say(lines, said)
    ensures Gather(FieldIn, lines) == Flat(said)
  {
    if lines != [] {
      LineReads(lines[0], said[0]);
      FieldsRead(lines[1..], said[1..]);
    }
  }

  /** The fields with one of some names. */
  function Chosen(fields: seq<Field>, names: set<string>): seq<Field> {
    if fields == [] then []
    else (if fields[0].0 in names then [fields[0]] else []) + Chosen(fields[1..], names)
  }

  /** The values of the fields with one of some names. */
  function ValuesNamed(fields: seq<Field>, names: set<string>): seq<string> {
    if fields == [] then []
    else (if fields[0].0 in names then [fields[0].1] else []) + ValuesNamed(fields[1..], names)
  }

  /** A line that differs from another at most in the case of what is in front of the colon. */
  ghost predicate SameButCase(a: string, b: string) {
    a == b || exists left, other, right :: && a == left + ":" + right && b == other + ":" + right
                                           && ':' !in left && ':' !in other && EqIgnoreCase(left, other)
  }

  lemma {:induction false} CaseOfNameIsIgnored(left: string, other: string, right: string)
    requires ':' !in left && ':' !in other && EqIgnoreCase(left, other)
    ensures FieldOf(left + ":" + right) == FieldOf(other + ":" + right)
  {
    var t, u := Trim(left), Trim(other);
    FieldAtColon(left, right);
    FieldAtColon(other, right);
    TrimIgnoresCase(left, other);
    assert |Lower(t)| == |Lower(u)|;
    assert t != "" ==> Lower(t)[0] == Lower(u)[0];
  }

  lemma {:induction false} CaseOfNamesIsIgnored(a: seq<string>, b: seq<string>)
    requires |a| == |b| && forall i :: 0 <= i < |a| ==> SameButCase(a[i], b[i])
    ensures Gather(FieldIn, a) == Gather(FieldIn, b)
  {
    if a != [] {
      CaseOfNamesIsIgnored(a[1..], b[1..]);
      if a[0] != b[0] {
        var left, other, right :| && a[0] == left + ":" + right && b[0] == other + ":" + right
                                  && ':' !in left && ':' !in other && EqIgnoreCase(left, other);
        CaseOfNameIsIgnored(left, other, right);
      }
    }
  }

  // ---------- robots.txt: section 2.2 of RFC 9309 ----------

  predicate IsDirective(name: string) {
    name == "user-agent" || name == "disallow" || name == "allow" || name == "sitemap" || name == "crawl-delay"
  }

  /** The directive of one line, if it has one. */
  function DirectiveIn(line: string): seq<Field> {
    match FieldOf(line)
    case Some((name, value)) => if IsDirective(name) then [(name, value)] else []
    case None => []
  }

  function Directives(lines: seq<string>): seq<Field> {
    Gather(DirectiveIn, lines)
  }

  lemma {:induction false} DirectivesAreChosen(lines: seq<string>)
    ensures Directives(lines)
            == Chosen(Gather(FieldIn, lines), {"user-agent", "disallow", "allow", "sitemap", "crawl-delay"})
  {
    if lines != [] {
      DirectivesAreChosen(lines[1..]);
      ChosenConcat(FieldIn(lines[0]), Gather(FieldIn, lines[1..]),
                   {"user-agent", "disallow", "allow", "sitemap", "crawl-delay"});
      DirectiveIsChosen(lines[0]);
    }
  }

  lemma {:induction false} DirectiveIsChosen(line: string)
    ensures DirectiveIn(line)
            == Chosen(FieldIn(line), {"user-agent", "disallow", "allow", "sitemap", "crawl-delay"})
  {
    if FieldOf(line).Some? {
      assert [FieldOf(line).value][1..] == [];
    }
  }

  lemma {:induction false} ChosenConcat(a: seq<Field>, b: seq<Field>, names: set<string>)
    ensures Chosen(a + b, names) == Chosen(a, names) + Chosen(b, names)
  {
    if a == [] {
      assert a + b == b;
    } else {
      assert (a + b)[1..] == a[1..] + b;
      ChosenConcat(a[1..], b, names);
    }
  }

  /** The directives of a file, in any case and spacing: the five known names, in order. */
  method ParseRobotsDirectives(body: string) returns (out: seq<Field>)
    ensures out == Directives(Lines(body))
    ensures forall said :: Say(Lines(body), said) ==>
                             out == Chosen(Flat(said), {"user-agent", "disallow", "allow", "sitemap", "crawl-delay"})
  {
    DirectivesAreChosen(Lines(body));
    forall said | Say(Lines(body), said)
      ensures Gather(FieldIn, Lines(body)) == Flat(said)
    {
      FieldsRead(Lines(body), said);
    }
    out := [];
    var lines := Lines(body);
    var i := 0;
    while i < |lines|
      invariant 0 <= i <= |lines|
      invariant out == Gather(DirectiveIn, lines[..i])
    {
      GatherPush(DirectiveIn, lines, i);
      var line := Trim(lines[i]);
      i := i + 1;
      if line == "" || line[0] == '#' {
        continue;
      }
      var split := SplitOnce(line, ':');
      if split.None? {
        continue;
      }
      var directive := Lower(Trim(split.value.0));
      var value := Trim(split.value.1);
      if value == "" {
        continue;
      }
      if IsDirective(directive) {
        out := out + [(directive, value)];
      }
    }
    assert lines[..i] == lines;
  }

  /** A directive as it can come out of a file: known, with a trimmed value on one line. */
  predicate IsParsed(d: Field) {
    IsDirective(d.0) && IsValue(d.1)
  }

  function RenderLine(d: Field): string {
    d.0 + ": " + d.1
  }

  function Render(directives: seq<Field>): string {
    if directives == [] then "" else RenderLine(directives[0]) + "\n" + Render(directives[1..])
  }

  /** A name that a line can begin with. */
  predicate IsName(name: string) {
    name != "" && name[0] != '#' && ':' !in name && '\n' !in name && Trimmed(name) && Lower(name) == name
  }

  /** A value that a line can hold. */
  predicate IsValue(value: string) {
    value != "" && Trimmed(value) && '\n' !in value
  }

  lemma {:induction false} DirectiveNames(name: string)
    requires IsDirective(name)
    ensures name != "" && name[0] != '#' && ':' !in name && '\n' !in name && Trimmed(name)
  {
  }

  lemma {:induction false} DirectiveInLowercase(name: string)
    requires IsDirective(name)
    ensures Lower(name) == name
  {
  }

  lemma {:induction false} RenderedLine(d: Field)
    requires IsName(d.0) && IsValue(d.1)
    ensures FieldOf(RenderLine(d)) == Some(d)
    ensures StripCarriageReturn(RenderLine(d)) == RenderLine(d)
    ensures '\n' !in RenderLine(d)
  {
    var line := RenderLine(d);
    assert line[0] == d.0[0] && line[|line| - 1] == d.1[|d.1| - 1];
    TrimOfTrimmed(line);
    assert line == d.0 + [':'] + (" " + d.1);
    SplitOnceAt(d.0, ':', " " + d.1);
    TrimOfTrimmed(d.0);
    TrimSurrounded(" ", d.1, "");
    assert " " + d.1 == " " + d.1 + "";
  }

  lemma {:induction false} ParseOfRender(directives: seq<Field>)
    requires forall d :: d in directives ==> IsParsed(d)
    ensures Directives(Lines(Render(directives))) == directives
  {
    if directives != [] {
      var d := directives[0];
      assert IsParsed(d);
      DirectiveNames(d.0);
      DirectiveInLowercase(d.0);
      RenderedLine(d);
      LinesCons(RenderLine(d), Render(directives[1..]));
      ParseOfRender(directives[1..]);
      assert Lines(Render(directives))[1..] == Lines(Render(directives[1..]));
    }
  }

  lemma {:induction false} ParsedLine(line: string)
    requires '\n' !in line
    ensures FieldOf(line).Some? ==> IsValue(FieldOf(line).value.1)
  {
    var t := Trim(line);
    TrimIsTrimmed(line);
    if SplitOnce(t, ':').Some? {
      TrimIsTrimmed(SplitOnce(t, ':').value.1);
    }
  }

  lemma {:induction false} ParsedLines(lines: seq<string>)
    requires forall line :: line in lines ==> '\n' !in line
    ensures forall d :: d in Directives(lines) ==> IsParsed(d)
  {
    if lines != [] {
      ParsedLines(lines[1..]);
      ParsedLine(lines[0]);
    }
  }

  /** The directives that rendering and parsing give back are exactly those a file can hold. */
  lemma {:induction false} RobotsRoundTrip(directives: seq<Field>)
    ensures Directives(Lines(Render(directives))) == directives
            <==> forall d :: d in directives ==> IsParsed(d)
  {
    LinesHoldNoBreak(Render(directives));
    ParsedLines(Lines(Render(directives)));
    if forall d :: d in directives ==> IsParsed(d) {
      ParseOfRender(directives);
    }
  }

  /** Parsing what was rendered from a parsed file changes nothing, whatever the file. */
  lemma {:induction false} RobotsNormalForm(body: string)
    ensures var parsed := Directives(Lines(body));
            Directives(Lines(Render(parsed))) == parsed
  {
    LinesHoldNoBreak(body);
    ParsedLines(Lines(body));
    ParseOfRender(Directives(Lines(body)));
  }

  // ---------- security.txt: section 2.5 of RFC 9116 ----------

  datatype SecurityTxt = SecurityTxt(
    contacts: seq<string>,
    expires: Option<string>,
    encryption: seq<string>,
    acknowledgments: seq<string>,
    preferredLanguages: Option<string>,
    canonical: seq<string>,
    policy: seq<string>,
    hiring: seq<string>)

  /** A file that was found, with the fields read from it. */
  datatype SecurityTxtData = SecurityTxtData(sourceUrl: string, httpStatus: nat, rawBody: string, fields: SecurityTxt)

  const EMPTY := SecurityTxt([], None, [], [], None, [], [], [])

  datatype FieldName =
    Contact | Expires | Encryption | Acknowledgments | PreferredLanguages | Canonical | PolicyField | Hiring | Other

  function NameOf(field: string): FieldName {
    if field == "contact" then Contact
    else if field == "expires" then Expires
    else if field == "encryption" then Encryption
    else if field == "acknowledgments" || field == "acknowledgements" then Acknowledgments
    else if field == "preferred-languages" then PreferredLanguages
    else if field == "canonical" then Canonical
    else if field == "policy" then PolicyField
    else if field == "hiring" then Hiring
    else Other
  }

  /** The field of a line, by name, if it has one. */
  function NamedFieldIn(line: string): seq<Entry<FieldName, string>> {
    match FieldOf(line)
    case Some((field, value)) => [Entry(NameOf(field), value)]
    case None => []
  }

  function Last(values: seq<string>): Option<string> {
    if values == [] then None else Some(values[|values| - 1])
  }

  /** All the values of a repeatable field, the last value of the other two. */
  function Summary(values: FieldName -> seq<string>): SecurityTxt {
    SecurityTxt(
      values(Contact),
      Last(values(Expires)),
      values(Encryption),
      values(Acknowledgments),
      Last(values(PreferredLanguages)),
      values(Canonical),
      values(PolicyField),
      values(Hiring))
  }

  /** What a file says. */
  function Meaning(lines: seq<string>): SecurityTxt {
    Summary(Values(Gather(NamedFieldIn, lines)))
  }

  function Later(a: Option<string>, b: Option<string>): Option<string> {
    if b.Some? then b else a
  }

  /** Two parts of a file put together: lists append, single fields take the later value. */
  function Combine(a: SecurityTxt, b: SecurityTxt): SecurityTxt {
    SecurityTxt(
      a.contacts + b.contacts,
      Later(a.expires, b.expires),
      a.encryption + b.encryption,
      a.acknowledgments + b.acknowledgments,
      Later(a.preferredLanguages, b.preferredLanguages),
      a.canonical + b.canonical,
      a.policy + b.policy,
      a.hiring + b.hiring)
  }

  lemma {:induction false} CombineSummaries(v: FieldName -> seq<string>, w: FieldName -> seq<string>,
                                            both: FieldName -> seq<string>)
    requires forall name :: both(name) == v(name) + w(name)
    ensures Summary(both) == Combine(Summary(v), Summary(w))
  {
  }

  /** Parsing is a homomorphism over lines. */
  lemma {:induction false} MeaningConcat(a: seq<string>, b: seq<string>)
    ensures Meaning(a + b) == Combine(Meaning(a), Meaning(b))
  {
    var x, y := Gather(NamedFieldIn, a), Gather(NamedFieldIn, b);
    GatherConcat(NamedFieldIn, a, b);
    forall name ensures Values(x + y)(name) == Values(x)(name) + Values(y)(name) {
      ValuesConcat(x, y, name);
    }
    CombineSummaries(Values(x), Values(y), Values(x + y));
  }

  /** So a file may be cut after any line break and its parts parsed on their own. */
  lemma {:induction false} SecurityTxtInParts(first: string, second: string)
    requires first == "" || first[|first| - 1] == '\n'
    ensures Meaning(Lines(first + second)) == Combine(Meaning(Lines(first)), Meaning(Lines(second)))
    ensures Directives(Lines(first + second)) == Directives(Lines(first)) + Directives(Lines(second))
  {
    LinesConcat(first, second);
    MeaningConcat(Lines(first), Lines(second));
    GatherConcat(DirectiveIn, Lines(first), Lines(second));
  }

  /** Two files that differ only in the case of field names read alike. */
  lemma {:induction false} CaseDoesNotMatter(a: seq<string>, b: seq<string>)
    requires |a| == |b| && forall i :: 0 <= i < |a| ==> SameButCase(a[i], b[i])
    ensures Directives(a) == Directives(b) && Meaning(a) == Meaning(b)
  {
    CaseOfNamesIsIgnored(a, b);
    DirectivesAreChosen(a);
    DirectivesAreChosen(b);
    MeaningIsWritten(a);
    MeaningIsWritten(b);
  }

  function LastOf(values: seq<string>): Option<string> {
    if values == [] then None else Some(values[|values| - 1])
  }

  /** What some fields say, name by name. */
  function Written(fields: seq<Field>): SecurityTxt {
    SecurityTxt(
      ValuesNamed(fields, {"contact"}),
      LastOf(ValuesNamed(fields, {"expires"})),
      ValuesNamed(fields, {"encryption"}),
      ValuesNamed(fields, {"acknowledgments", "acknowledgements"}),
      LastOf(ValuesNamed(fields, {"preferred-languages"})),
      ValuesNamed(fields, {"canonical"}),
      ValuesNamed(fields, {"policy"}),
      ValuesNamed(fields, {"hiring"}))
  }

  /** The names that a field may have in a file. */
  function Spellings(name: FieldName): set<string> {
    match name
    case Contact => {"contact"}
    case Expires => {"expires"}
    case Encryption => {"encryption"}
    case Acknowledgments => {"acknowledgments", "acknowledgements"}
    case PreferredLanguages => {"preferred-languages"}
    case Canonical => {"canonical"}
    case PolicyField => {"policy"}
    case Hiring => {"hiring"}
    case Other => {}
  }

  lemma {:induction false} SpelledName(text: string, name: FieldName)
    requires name != Other
    ensures NameOf(text) == name <==> text in Spellings(name)
  {
    match name
    case Contact | Expires | Encryption =>
    case Acknowledgments | PreferredLanguages =>
    case Canonical | PolicyField | Hiring =>
    case Other =>
  }

  lemma {:induction false} ValuesAreNamed(lines: seq<string>, name: FieldName)
    requires name != Other
    ensures Values(Gather(NamedFieldIn, lines))(name) == ValuesNamed(Gather(FieldIn, lines), Spellings(name))
  {
    if lines != [] {
      var first, rest := lines[0], lines[1..];
      ValuesAreNamed(rest, name);
      ValuesConcat(NamedFieldIn(first), Gather(NamedFieldIn, rest), name);
      ValuesNamedConcat(FieldIn(first), Gather(FieldIn, rest), Spellings(name));
      OneValueIsNamed(first, name);
    }
  }

  lemma {:induction false} OneValueIsNamed(line: string, name: FieldName)
    requires name != Other
    ensures Values(NamedFieldIn(line))(name) == ValuesNamed(FieldIn(line), Spellings(name))
  {
    if FieldOf(line).Some? {
      var (text, value) := FieldOf(line).value;
      SpelledName(text, name);
      ValuesOfOne(Entry(NameOf(text), value), name);
      assert [(text, value)][1..] == [];
    }
  }

  lemma {:induction false} ValuesNamedConcat(a: seq<Field>, b: seq<Field>, names: set<string>)
    ensures ValuesNamed(a + b, names) == ValuesNamed(a, names) + ValuesNamed(b, names)
  {
    if a == [] {
      assert a + b == b;
    } else {
      assert (a + b)[1..] == a[1..] + b;
      ValuesNamedConcat(a[1..], b, names);
    }
  }

  lemma {:induction false} MeaningIsWritten(lines: seq<string>)
    ensures Meaning(lines) == Written(Gather(FieldIn, lines))
  {
    forall name | name != Other
      ensures Values(Gather(NamedFieldIn, lines))(name) == ValuesNamed(Gather(FieldIn, lines), Spellings(name))
    {
      ValuesAreNamed(lines, name);
    }
    SummaryIsWritten(Gather(FieldIn, lines), Values(Gather(NamedFieldIn, lines)));
  }

  lemma {:induction false} SummaryIsWritten(fields: seq<Field>, values: FieldName -> seq<string>)
    requires forall name :: name != Other ==> values(name) == ValuesNamed(fields, Spellings(name))
    ensures Summary(values) == Written(fields)
  {
  }

  /** What is made of the answer to a request for security.txt: its fields, in any case and spacing of names. */
  method ParseSecurityTxt(url: string, status: nat, body: string) returns (r: Option<SecurityTxtData>)
    ensures r == if 200 <= status < 300 && Trim(body) != ""
                 then Some(SecurityTxtData(url, status, body, Meaning(Lines(body))))
                 else None
    ensures forall said :: Say(Lines(body), said) && r.Some? ==> r.value.fields == Written(Flat(said))
  {
    MeaningIsWritten(Lines(body));
    forall said | Say(Lines(body), said)
      ensures Gather(FieldIn, Lines(body)) == Flat(said)
    {
      FieldsRead(Lines(body), said);
    }
    if !(200 <= status < 300) || Trim(body) == "" {
      return None;
    }
    var data := EMPTY;
    var lines := Lines(body);
    var i := 0;
    while i < |lines|
      invariant 0 <= i <= |lines|
      invariant data == Meaning(lines[..i])
    {
      var line := Trim(lines[i]);
      MeaningPush(lines, i);
      i := i + 1;
      if line == "" || line[0] == '#' {
        continue;
      }
      var split := SplitOnce(line, ':');
      if split.None? {
        continue;
      }
      var field := Lower(Trim(split.value.0));
      var value := Trim(split.value.1);
      if value == "" {
        continue;
      }
      data := Record(data, (NameOf(field), value));
    }
    assert lines[..i] == lines;
    return Some(SecurityTxtData(url, status, body, data));
  }

  function Record(data: SecurityTxt, field: (FieldName, string)): SecurityTxt {
    var (name, value) := field;
    match name
    case Contact => data.(contacts := data.contacts + [value])
    case Expires => data.(expires := Some(value))
    case Encryption => data.(encryption := data.encryption + [value])
    case Acknowledgments => data.(acknowledgments := data.acknowledgments + [value])
    case PreferredLanguages => data.(preferredLanguages := Some(value))
    case Canonical => data.(canonical := data.canonical + [value])
    case PolicyField => data.(policy := data.policy + [value])
    case Hiring => data.(hiring := data.hiring + [value])
    case Other => data
  }

  lemma {:induction false} RecordInSummary(v: FieldName -> seq<string>, name: FieldName, value: string,
                                           w: FieldName -> seq<string>)
    requires forall n :: w(n) == v(n) + Share(Entry(name, value), n)
    ensures Summary(w) == Record(Summary(v), (name, value))
  {
  }

  /** Reading one more line records its field, if it has one. */
  lemma {:induction false} MeaningPush(lines: seq<string>, i: nat)
    requires i < |lines|
    ensures var field := NamedFieldIn(lines[i]);
            Meaning(lines[..i + 1])
            == if field == [] then Meaning(lines[..i])
               else Record(Meaning(lines[..i]), (field[0].name, field[0].value))
  {
    var before, field := Gather(NamedFieldIn, lines[..i]), NamedFieldIn(lines[i]);
    GatherPush(NamedFieldIn, lines, i);
    if field == [] {
      assert before + field == before;
    } else {
      forall name ensures Values(before + field)(name) == Values(before)(name) + Share(field[0], name) {
        ValuesConcat(before, field, name);
        ValuesOfOne(field[0], name);
        assert field == [field[0]];
      }
      RecordInSummary(Values(before), field[0].name, field[0].value, Values(before + field));
    }
  }

  // ---------- security.txt round trip ----------

  function TextOf(name: FieldName): string {
    match name
    case Contact => "contact"
    case Expires => "expires"
    case Encryption => "encryption"
    case Acknowledgments => "acknowledgments"
    case PreferredLanguages => "preferred-languages"
    case Canonical => "canonical"
    case PolicyField => "policy"
    case Hiring => "hiring"
    case Other => "other"
  }

  lemma {:induction false} NameOfText(name: FieldName)
    ensures NameOf(TextOf(name)) == name
  {
    match name
    case Contact | Expires | Encryption | Acknowledgments =>
    case PreferredLanguages | Canonical | PolicyField | Hiring =>
    case Other =>
  }

  lemma {:induction false} TextIsName(name: FieldName)
    ensures IsName(TextOf(name))
  {
    match name
    case Contact => NameReads("contact");
    case Expires => NameReads("expires");
    case Encryption => NameReads("encryption");
    case Acknowledgments => NameReads("acknowledgments");
    case PreferredLanguages => NameReads("preferred-languages");
    case Canonical => NameReads("canonical");
    case PolicyField => NameReads("policy");
    case Hiring => NameReads("hiring");
    case Other => NameReads("other");
  }

  lemma {:induction false} NameReads(text: string)
    requires text != "" && forall c :: c in text ==> 'a' <= c <= 'z' || c == '-'
    ensures IsName(text)
  {
    assert text[0] in text && text[|text| - 1] in text;
    forall i | 0 <= i < |text|
      ensures Lower(text)[i] == text[i]
    {
      assert text[i] in text;
    }
    assert Lower(text) == text;
  }

  function OptionalValue(value: Option<string>): seq<string> {
    if value.Some? then [value.value] else []
  }

  /** The values of each name. */
  function ValuesOf(data: SecurityTxt): FieldName -> seq<string> {
    (name: FieldName) =>
      match name
      case Contact => data.contacts
      case Expires => OptionalValue(data.expires)
      case Encryption => data.encryption
      case Acknowledgments => data.acknowledgments
      case PreferredLanguages => OptionalValue(data.preferredLanguages)
      case Canonical => data.canonical
      case PolicyField => data.policy
      case Hiring => data.hiring
      case Other => []
  }

  function EntryFor(name: FieldName): string -> Entry<FieldName, string> {
    (value: string) => Entry(name, value)
  }

  /** All values, name by name. */
  function Given(names: seq<FieldName>, values: FieldName -> seq<string>): seq<Entry<FieldName, string>> {
    if names == [] then [] else Mapped(EntryFor(names[0]), values(names[0])) + Given(names[1..], values)
  }

  function Names(): seq<FieldName> {
    [Contact, Expires, Encryption, Acknowledgments, PreferredLanguages, Canonical, PolicyField, Hiring]
  }

  lemma {:induction false} NamesAreAll(name: FieldName)
    ensures name in Names() <==> name != Other
    ensures forall i, j :: 0 <= i < j < |Names()| ==> Names()[i] != Names()[j]
  {
    var names := Names();
    assert names[0] == Contact && names[1] == Expires && names[2] == Encryption && names[3] == Acknowledgments;
    assert names[4] == PreferredLanguages && names[5] == Canonical && names[6] == PolicyField && names[7] == Hiring;
  }

  function Write(entry: Entry<FieldName, string>): Field {
    (TextOf(entry.name), entry.value)
  }

  function RenderEntries(entries: seq<Entry<FieldName, string>>): string {
    Render(Mapped(Write, entries))
  }

  /** A file that says what the record says. */
  function RenderSecurityTxt(data: SecurityTxt): string {
    RenderEntries(Given(Names(), ValuesOf(data)))
  }

  lemma {:induction false} EntriesRead(entries: seq<Entry<FieldName, string>>)
    requires forall e :: e in entries ==> IsValue(e.value)
    ensures Gather(NamedFieldIn, Lines(RenderEntries(entries))) == entries
  {
    if entries != [] {
      var e, rest := entries[0], entries[1..];
      assert e in entries;
      EntryReads(e, RenderEntries(rest));
      EntriesRead(rest);
      assert Mapped(Write, entries)[1..] == Mapped(Write, rest);
      assert RenderEntries(entries) == RenderLine(Write(e)) + "\n" + RenderEntries(rest);
      assert entries == [e] + rest;
    }
  }

  lemma {:induction false} EntryReads(e: Entry<FieldName, string>, rest: string)
    requires IsValue(e.value)
    ensures Gather(NamedFieldIn, Lines(RenderLine(Write(e)) + "\n" + rest)) == [e] + Gather(NamedFieldIn, Lines(rest))
  {
    var line := RenderLine(Write(e));
    TextIsName(e.name);
    NameOfText(e.name);
    RenderedLine(Write(e));
    LinesCons(line, rest);
    assert ([line] + Lines(rest))[1..] == Lines(rest);
    assert NamedFieldIn(line) == [e];
  }

  lemma {:induction false} ValuesOfOneName(name: FieldName, values: seq<string>, n: FieldName)
    ensures Values(Mapped(EntryFor(name), values))(n) == if n == name then values else []
  {
    var entries := Mapped(EntryFor(name), values);
    if values != [] {
      ValuesOfOneName(name, values[1..], n);
      assert entries[1..] == Mapped(EntryFor(name), values[1..]);
    }
  }

  lemma {:induction false} ValuesOfGiven(names: seq<FieldName>, values: FieldName -> seq<string>, n: FieldName)
    requires forall i, j :: 0 <= i < j < |names| ==> names[i] != names[j]
    ensures Values(Given(names, values))(n) == if n in names then values(n) else []
  {
    if names != [] {
      var first := Mapped(EntryFor(names[0]), values(names[0]));
      ValuesConcat(first, Given(names[1..], values), n);
      ValuesOfOneName(names[0], values(names[0]), n);
      ValuesOfGiven(names[1..], values, n);
    }
  }

  lemma {:induction false} SummaryOfValues(data: SecurityTxt, values: FieldName -> seq<string>)
    requires forall n :: n != Other ==> values(n) == ValuesOf(data)(n)
    ensures Summary(values) == data
  {
  }

  /** Everything said in a file: values that are trimmed, non-empty and on one line. */
  ghost predicate IsSayable(data: SecurityTxt) {
    forall name :: AllValues(ValuesOf(data)(name))
  }

  predicate AllValues(values: seq<string>) {
    forall v :: v in values ==> IsValue(v)
  }

  lemma {:induction false} GivenAreValues(names: seq<FieldName>, values: FieldName -> seq<string>)
    requires forall n :: AllValues(values(n))
    ensures forall e :: e in Given(names, values) ==> IsValue(e.value)
  {
    if names != [] {
      GivenAreValues(names[1..], values);
      assert AllValues(values(names[0]));
    }
  }

  lemma {:induction false} SayableReads(data: SecurityTxt)
    requires IsSayable(data)
    ensures Meaning(Lines(RenderSecurityTxt(data))) == data
  {
    var entries := Given(Names(), ValuesOf(data));
    GivenAreValues(Names(), ValuesOf(data));
    EntriesRead(entries);
    forall n | n != Other
      ensures Values(entries)(n) == ValuesOf(data)(n)
    {
      NamesAreAll(n);
      ValuesOfGiven(Names(), ValuesOf(data), n);
    }
    SummaryOfValues(data, Values(entries));
  }

  lemma {:induction false} SharesAreValues(entries: seq<Entry<FieldName, string>>, name: FieldName)
    requires forall e :: e in entries ==> IsValue(e.value)
    ensures AllValues(Values(entries)(name))
  {
    if entries != [] {
      SharesAreValues(entries[1..], name);
      assert entries[0] in entries;
    }
  }

  lemma {:induction false} FieldsAreValues(lines: seq<string>)
    requires forall line :: line in lines ==> '\n' !in line
    ensures forall e :: e in Gather(NamedFieldIn, lines) ==> IsValue(e.value)
  {
    if lines != [] {
      FieldsAreValues(lines[1..]);
      ParsedLine(lines[0]);
    }
  }

  lemma {:induction false} SummaryIsSayable(values: FieldName -> seq<string>)
    requires forall n :: AllValues(values(n))
    ensures IsSayable(Summary(values))
  {
    forall name
      ensures AllValues(ValuesOf(Summary(values))(name))
    {
      assert AllValues(values(name));
    }
  }

  lemma {:induction false} ReadIsSayable(body: string)
    ensures IsSayable(Meaning(Lines(body)))
  {
    var entries := Gather(NamedFieldIn, Lines(body));
    LinesHoldNoBreak(body);
    FieldsAreValues(Lines(body));
    forall n
      ensures AllValues(Values(entries)(n))
    {
      SharesAreValues(entries, n);
    }
    SummaryIsSayable(Values(entries));
  }

  /** A record comes back from its file if and only if its values can stand in a file. */
  lemma {:induction false} SecurityTxtRoundTrip(data: SecurityTxt)
    ensures Meaning(Lines(RenderSecurityTxt(data))) == data <==> IsSayable(data)
  {
    ReadIsSayable(RenderSecurityTxt(data));
    if IsSayable(data) {
      SayableReads(data);
    }
  }

  /** Reading what was rendered from a file that was read changes nothing, whatever the file. */
  lemma {:induction false} SecurityTxtNormalForm(body: string)
    ensures var read := Meaning(Lines(body));
            Meaning(Lines(RenderSecurityTxt(read))) == read
  {
    ReadIsSayable(body);
    SayableReads(Meaning(Lines(body)));
  }
}
