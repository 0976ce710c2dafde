/** Parsing Set-Cookie and Cookie headers (src/fetch/cookies.rs); section 5.2 of RFC 6265. */
module Cookies {
  import opened Sequences
  import opened Text
  import opened Wrappers

  datatype Cookie = Cookie(
    name: string,
    value: Option<string>,
    secure: bool,
    httpOnly: bool,
    sameSite: Option<string>,
    domain: Option<string>,
    path: Option<string>)

  /** An attribute as written: its name, and its value if there is an '='. */
  datatype Attribute = Attribute(name: string, value: Option<string>)

  datatype Kind = Secure | HttpOnly | SameSite | DomainAttribute | PathAttribute | Unknown

  function KindOf(name: string): Kind {
    if EqIgnoreCase(name, "secure") then Secure
    else if EqIgnoreCase(name, "httponly") then HttpOnly
    else if EqIgnoreCase(name, "samesite") then SameSite
    else if EqIgnoreCase(name, "domain") then DomainAttribute
    else if EqIgnoreCase(name, "path") then PathAttribute
    else Unknown
  }

  /** The attribute in one piece between semicolons, unless the piece is blank. */
  function AttributeIn(part: string): seq<Attribute> {
    var t := Trim(part);
    if t == "" then []
    else
      match SplitOnce(t, '=')
      case Some((name, value)) => [Attribute(Trim(name), Some(Trim(value)))]
      case None => [Attribute(t, None)]
  }

  /** A piece is a name, or a name and a value around its first '='; white space around either is dropped. */
  lemma {:induction false} AttributeInPiece(left: string, right: string)
    requires '=' !in left
    ensures AttributeIn(left + "=" + right) == [Attribute(Trim(left), Some(Trim(right)))]
    ensures AttributeIn(left) == if Trim(left) == "" then [] else [Attribute(Trim(left), None)]
  {
    SplitTrimmed(left, '=', right);
    TrimTwice(left);
    TrimTwice(right);
    TrimIsTrimmed(left);
  }

  predicate IsToken(s: string) {
    s == "strict" || s == "lax" || s == "none"
  }

  function AllowlistedSameSite(raw: string): (token: Option<string>)
    ensures token.Some? ==> IsToken(token.value)
  {
    var t := Trim(raw);
    if EqIgnoreCase(t, "strict") then Some("strict")
    else if EqIgnoreCase(t, "lax") then Some("lax")
    else if EqIgnoreCase(t, "none") then Some("none")
    else None
  }

  /** The allowlisted values in lowercase, whatever the case and the white space around them. */
  lemma {:induction false} AllowlistedExactly(raw: string)
    ensures AllowlistedSameSite(raw) == if IsToken(Lower(Trim(raw))) then Some(Lower(Trim(raw))) else None
  {
    assert Lower("strict") == "strict" && Lower("lax") == "lax" && Lower("none") == "none";
  }

  function SameSiteToken(value: Option<string>): Option<string> {
    if value.None? then None else AllowlistedSameSite(value.value)
  }

  // ---------- The meaning of an attribute list ----------

  /** An attribute with its name resolved. */
  type Setting = Entry<Kind, Option<string>>

  function SettingOf(attribute: Attribute): Setting {
    Entry(KindOf(attribute.name), attribute.value)
  }

  function Settings(attributes: seq<Attribute>): seq<Setting> {
    seq(|attributes|, i requires 0 <= i < |attributes| => SettingOf(attributes[i]))
  }

  predicate AllAllowlisted(values: seq<Option<string>>) {
    forall v :: v in values ==> SameSiteToken(v).Some?
  }

  /** None as soon as any SameSite value is not allowlisted, else the first one. */
  function SameSiteOf(values: seq<Option<string>>): Option<string> {
    if values == [] || !AllAllowlisted(values) then None else SameSiteToken(values[0])
  }

  /** Decided by the last occurrence; an empty domain is none. */
  function DomainOf(values: seq<Option<string>>): Option<string> {
    if values == [] || values[|values| - 1] == Some("") then None else values[|values| - 1]
  }

  function PathOf(values: seq<Option<string>>): Option<string> {
    if values == [] then None else values[|values| - 1]
  }

  function Summary(name: string, value: Option<string>, values: Kind -> seq<Option<string>>): Cookie {
    Cookie(name, value, values(Secure) != [], values(HttpOnly) != [], SameSiteOf(values(SameSite)),
           DomainOf(values(DomainAttribute)), PathOf(values(PathAttribute)))
  }

  /** Name and value of the first piece. */
  function NameValue(first: string): (string, Option<string>) {
    match SplitOnce(first, '=')
    case Some((name, value)) => (Trim(name), Some(Trim(value)))
    case None => (Trim(first), None)
  }

  function Attributes(header: string): seq<Attribute> {
    Gather(AttributeIn, Split(header, ';')[1..])
  }

  /** What a Set-Cookie header says. */
  function Meaning(header: string): Option<Cookie> {
    var (name, value) := NameValue(Split(header, ';')[0]);
    if name == "" then None else Some(Summary(name, value, Values(Settings(Attributes(header)))))
  }

  // ---------- The loop ----------

  lemma {:induction false} ValuesPush(attributes: seq<Attribute>, attribute: Attribute)
    ensures forall kind :: Values(Settings(attributes + [attribute]))(kind)
                           == Values(Settings(attributes))(kind) + Share(SettingOf(attribute), kind)
  {
    var before := Settings(attributes);
    assert Settings(attributes + [attribute]) == before + [SettingOf(attribute)];
    forall kind
      ensures Values(before + [SettingOf(attribute)])(kind) == Values(before)(kind) + Share(SettingOf(attribute), kind)
    {
      ValuesConcat(before, [SettingOf(attribute)], kind);
      ValuesOfOne(SettingOf(attribute), kind);
    }
  }

  /** One attribute updates the cookie; only SameSite needs a flag besides. */
  method Apply(cookie: Cookie, sameSiteInvalid: bool, setting: Setting,
               ghost seen: Kind -> seq<Option<string>>, ghost now: Kind -> seq<Option<string>>)
    returns (updated: Cookie, invalid: bool)
    requires cookie == Summary(cookie.name, cookie.value, seen)
    requires sameSiteInvalid <==> !AllAllowlisted(seen(SameSite))
    requires forall kind :: now(kind) == seen(kind) + Share(setting, kind)
    ensures updated == Summary(cookie.name, cookie.value, now)
    ensures invalid <==> !AllAllowlisted(now(SameSite))
  {
    updated, invalid := cookie, sameSiteInvalid;
    match setting.name
    case Secure =>
      updated := updated.(secure := true);
    case HttpOnly =>
      updated := updated.(httpOnly := true);
    case SameSite =>
      var token := SameSiteToken(setting.value);
      assert setting.value in now(SameSite);
      if token.None? {
        updated, invalid := updated.(sameSite := None), true;
      } else if updated.sameSite.None? && !invalid {
        updated := updated.(sameSite := token);
      }
    case DomainAttribute =>
      updated := updated.(domain := if setting.value == Some("") then None else setting.value);
    case PathAttribute =>
      updated := updated.(path := setting.value);
    case Unknown =>
  }

  method ParseSetCookie(header: string) returns (r: Option<Cookie>)
    ensures r == Meaning(header)
  {
    var parts := Split(header, ';');
    var (name, value) := NameValue(parts[0]);
    if name == "" {
      return None;
    }
    var cookie := Cookie(name, value, false, false, None, None, None);
    var sameSiteInvalid := false;
    ghost var seen: seq<Attribute> := [];
    var rest := parts[1..];
    for i := 0 to |rest|
      invariant seen == Gather(AttributeIn, rest[..i])
      invariant cookie == Summary(name, value, Values(Settings(seen)))
      invariant sameSiteInvalid <==> !AllAllowlisted(Values(Settings(seen))(SameSite))
    {
      GatherPush(AttributeIn, rest, i);
      var found := AttributeIn(rest[i]);
      if found != [] {
        var attribute := found[0];
        ghost var before := seen;
        seen := seen + [attribute];
        ValuesPush(before, attribute);
        cookie, sameSiteInvalid :=
          Apply(cookie, sameSiteInvalid, SettingOf(attribute), Values(Settings(before)), Values(Settings(seen)));
        assert found == [attribute];
      }
    }
    assert rest[..|rest|] == rest;
    return Some(cookie);
  }

  // ---------- What the meaning amounts to ----------

  lemma {:induction false} KindByName(name: string)
    ensures KindOf(name) == Secure <==> EqIgnoreCase(name, "secure")
    ensures KindOf(name) == HttpOnly <==> EqIgnoreCase(name, "httponly")
    ensures KindOf(name) == SameSite <==> EqIgnoreCase(name, "samesite")
    ensures KindOf(name) == DomainAttribute <==> EqIgnoreCase(name, "domain")
    ensures KindOf(name) == PathAttribute <==> EqIgnoreCase(name, "path")
  {
    assert |Lower(name)| == |name|;
    assert Lower("domain")[0] == 'd' && Lower("secure")[0] == 's';
    assert Lower("samesite")[0] == 's' && Lower("httponly")[0] == 'h';
  }

  lemma {:induction false} SomeOfKind(settings: seq<Setting>, kind: Kind)
    ensures Values(settings)(kind) != [] <==> exists s :: s in settings && s.name == kind
  {
    if settings != [] {
      SomeOfKind(settings[1..], kind);
      assert settings == [settings[0]] + settings[1..];
    }
  }

  lemma {:induction false} SomeNamed(attributes: seq<Attribute>, kind: Kind)
    ensures Values(Settings(attributes))(kind) != [] <==> exists a :: a in attributes && KindOf(a.name) == kind
  {
    var settings := Settings(attributes);
    SomeOfKind(settings, kind);
    if s :| s in settings && s.name == kind {
      var i :| 0 <= i < |settings| && settings[i] == s;
      assert attributes[i] in attributes;
    }
    if a :| a in attributes && KindOf(a.name) == kind {
      var i :| 0 <= i < |attributes| && attributes[i] == a;
      assert settings[i] in settings;
    }
  }

  lemma {:induction false} OneMorePiece(header: string, piece: string, attribute: Attribute)
    requires ';' !in piece && AttributeIn(piece) == [attribute]
    ensures Split(header + ";" + piece, ';')[0] == Split(header, ';')[0]
    ensures Attributes(header + ";" + piece) == Attributes(header) + [attribute]
  {
    JammedParts(header, piece);
    assert Split(piece, ';') == [piece];
    GatherOne(AttributeIn, piece);
  }

  lemma {:induction false} SummaryPush(name: string, value: Option<string>, before: Kind -> seq<Option<string>>,
                                       after: Kind -> seq<Option<string>>, s: Setting)
    requires forall kind :: after(kind) == before(kind) + Share(s, kind)
    ensures var own, longer := Summary(name, value, before), Summary(name, value, after);
            && (s.name == PathAttribute ==> longer == own.(path := s.value))
            && (s.name == DomainAttribute ==>
                  longer == own.(domain := if s.value == Some("") then None else s.value))
            && (s.name == Unknown ==> longer == own)
  {
  }

  /**
   An attribute at the end of a header: a Path or Domain replaces what the header says so far, an
   empty Domain leaves none, and an attribute with an unknown name changes nothing.
   */
  lemma {:induction false} LastPathAndDomainWin(header: string, left: string, right: string)
    requires Meaning(header).Some? && ';' !in left && '=' !in left && ';' !in right
    ensures var own, longer := Meaning(header).value, Meaning(header + ";" + (left + "=" + right));
            && (EqIgnoreCase(Trim(left), "path") ==> longer == Some(own.(path := Some(Trim(right)))))
            && (EqIgnoreCase(Trim(left), "domain") ==>
                  longer == Some(own.(domain := if Trim(right) == "" then None else Some(Trim(right)))))
            && (KindOf(Trim(left)) == Unknown ==> longer == Some(own))
  {
    var a := Attribute(Trim(left), Some(Trim(right)));
    AttributeInPiece(left, right);
    OneMorePiece(header, left + "=" + right, a);
    PathAndDomainByName(a.name);
    var (name, value) := NameValue(Split(header, ';')[0]);
    ValuesPush(Attributes(header), a);
    SummaryPush(name, value, Values(Settings(Attributes(header))), Values(Settings(Attributes(header) + [a])),
                SettingOf(a));
  }

  lemma {:induction false} PathAndDomainByName(name: string)
    ensures KindOf(name) == DomainAttribute <==> EqIgnoreCase(name, "domain")
    ensures KindOf(name) == PathAttribute <==> EqIgnoreCase(name, "path")
  {
    KindByName(name);
  }

  /** The name and the value of a cookie stand on either side of the first '='. */
  lemma {:induction false} NameValueInPiece(left: string, right: string)
    requires '=' !in left
    ensures NameValue(left + "=" + right) == (Trim(left), Some(Trim(right)))
    ensures NameValue(left) == (Trim(left), None)
  {
    SplitOnceAt(left, '=', right);
  }

  /** The flags are set exactly when some attribute has their name, whatever its case, place or value. */
  lemma {:induction false} FlagsByName(header: string)
    requires Meaning(header).Some?
    ensures var cookie := Meaning(header).value;
            var attributes := Attributes(header);
            && (cookie.secure <==> exists a :: a in attributes && EqIgnoreCase(a.name, "secure"))
            && (cookie.httpOnly <==> exists a :: a in attributes && EqIgnoreCase(a.name, "httponly"))
  {
    var attributes := Attributes(header);
    SomeNamed(attributes, Secure);
    SomeNamed(attributes, HttpOnly);
    forall a | a in attributes
      ensures KindOf(a.name) == Secure <==> EqIgnoreCase(a.name, "secure")
      ensures KindOf(a.name) == HttpOnly <==> EqIgnoreCase(a.name, "httponly")
    {
      KindByName(a.name);
    }
  }

  /** The attributes in the pieces that follow a header. */
  function LaterAttributes(rest: string): seq<Attribute> {
    Gather(AttributeIn, Split(rest, ';'))
  }

  predicate HasSameSite(attributes: seq<Attribute>) {
    exists a :: a in attributes && EqIgnoreCase(a.name, "samesite")
  }

  predicate SameSitesAllowlisted(attributes: seq<Attribute>) {
    forall a :: a in attributes && EqIgnoreCase(a.name, "samesite") ==> SameSiteToken(a.value).Some?
  }

  lemma {:induction false} LaterSettingNeverWins(first: seq<Setting>, later: seq<Setting>)
    requires Values(first)(SameSite) != []
    ensures SameSiteOf(Values(first + later)(SameSite))
            == if AllAllowlisted(Values(later)(SameSite)) then SameSiteOf(Values(first)(SameSite)) else None
  {
    GatherConcat(ShareOf(SameSite), first, later);
    AllowlistedConcat(Values(first)(SameSite), Values(later)(SameSite));
  }

  lemma {:induction false} SameSiteByName(name: string)
    ensures KindOf(name) == SameSite <==> EqIgnoreCase(name, "samesite")
  {
    KindByName(name);
  }

  lemma {:induction false} HasSetting(attributes: seq<Attribute>)
    requires HasSameSite(attributes)
    ensures Values(Settings(attributes))(SameSite) != []
  {
    SomeNamed(attributes, SameSite);
    var a :| a in attributes && EqIgnoreCase(a.name, "samesite");
    SameSiteByName(a.name);
  }

  lemma {:induction false} AllowlistedByName(attributes: seq<Attribute>)
    ensures AllAllowlisted(Values(Settings(attributes))(SameSite)) <==> SameSitesAllowlisted(attributes)
  {
    if attributes != [] {
      var a, rest := attributes[0], attributes[1..];
      assert attributes == [a] + rest;
      SettingsConcat([a], rest);
      ValuesConcat(Settings([a]), Settings(rest), SameSite);
      AllowlistedConcat(Values(Settings([a]))(SameSite), Values(Settings(rest))(SameSite));
      OneAllowlisted(a);
      AllowlistedByName(rest);
      AllowlistedCons(a, rest);
    }
  }

  lemma {:induction false} SettingsConcat(a: seq<Attribute>, b: seq<Attribute>)
    ensures Settings(a + b) == Settings(a) + Settings(b)
  {
  }

  lemma {:induction false} AllowlistedCons(a: Attribute, rest: seq<Attribute>)
    ensures SameSitesAllowlisted([a] + rest) <==> SameSitesAllowlisted([a]) && SameSitesAllowlisted(rest)
  {
    assert forall x :: x in [a] + rest <==> x in [a] || x in rest;
  }

  lemma {:induction false} OneAllowlisted(a: Attribute)
    ensures AllAllowlisted(Values(Settings([a]))(SameSite)) <==> SameSitesAllowlisted([a])
  {
    assert Settings([a]) == [SettingOf(a)];
    SameSiteByName(a.name);
    ValuesOfOne(SettingOf(a), SameSite);
    assert a in [a];
  }

  function SameSiteIn(attributes: seq<Attribute>): Option<string> {
    SameSiteOf(Values(Settings(attributes))(SameSite))
  }

  lemma {:induction false} LaterAttributeNeverWins(first: seq<Attribute>, later: seq<Attribute>)
    requires HasSameSite(first)
    ensures SameSiteIn(first + later) == if SameSitesAllowlisted(later) then SameSiteIn(first) else None
  {
    HasSetting(first);
    SettingsConcat(first, later);
    LaterSettingNeverWins(Settings(first), Settings(later));
    AllowlistedByName(later);
  }

  lemma {:induction false} JammedParts(first: string, rest: string)
    ensures Split(first + ";" + rest, ';')[0] == Split(first, ';')[0]
    ensures Attributes(first + ";" + rest) == Attributes(first) + LaterAttributes(rest)
  {
    SplitConcat(first, ';', rest);
    var all, parts, more := Split(first + ";" + rest, ';'), Split(first, ';'), Split(rest, ';');
    assert all[1..] == parts[1..] + more;
    GatherConcat(AttributeIn, parts[1..], more);
  }

  /**
   When a header runs on after a cookie that has a SameSite of its own, as in two cookies jammed
   together, no later SameSite can replace it: it stays, or is dropped if one is not allowlisted.
   The name and the value stay those of the first cookie.
   */
  lemma {:induction false} LaterSameSiteNeverWins(first: string, rest: string)
    requires Meaning(first).Some? && HasSameSite(Attributes(first))
    ensures var own, jammed := Meaning(first).value, Meaning(first + ";" + rest);
            && jammed.Some?
            && jammed.value.name == own.name && jammed.value.value == own.value
            && jammed.value.sameSite == if SameSitesAllowlisted(LaterAttributes(rest)) then own.sameSite else None
  {
    JammedParts(first, rest);
    LaterAttributeNeverWins(Attributes(first), LaterAttributes(rest));
  }

  lemma {:induction false} AllowlistedConcat(v: seq<Option<string>>, w: seq<Option<string>>)
    ensures AllAllowlisted(v + w) <==> AllAllowlisted(v) && AllAllowlisted(w)
  {
    assert forall x :: x in v + w <==> x in v || x in w;
  }

  // ---------- Round trip ----------

  predicate IsWord(s: string) {
    Trimmed(s) && ';' !in s
  }

  predicate IsValue(v: Option<string>) {
    v.Some? ==> IsWord(v.value)
  }

  predicate IsName(s: string) {
    s != "" && IsWord(s) && '=' !in s
  }

  predicate IsWritten(attribute: Attribute) {
    IsName(attribute.name) && IsValue(attribute.value)
  }

  function RenderAttribute(attribute: Attribute): string {
    if attribute.value.None? then attribute.name else attribute.name + "=" + attribute.value.value
  }

  function Pieces(attributes: seq<Attribute>): seq<string> {
    if attributes == [] then [] else [" " + RenderAttribute(attributes[0])] + Pieces(attributes[1..])
  }

  function RenderHeader(first: Attribute, attributes: seq<Attribute>): string {
    Join([RenderAttribute(first)] + Pieces(attributes), ";")
  }

  lemma {:induction false} RenderedAttribute(a: Attribute)
    requires IsWritten(a)
    ensures NameValue(RenderAttribute(a)) == (a.name, a.value)
    ensures AttributeIn(" " + RenderAttribute(a)) == [a]
    ensures ';' !in RenderAttribute(a)
  {
    var t := RenderAttribute(a);
    TrimOfTrimmed(a.name);
    if a.value.Some? {
      TrimOfTrimmed(a.value.value);
      SplitOnceAt(a.name, '=', a.value.value);
      assert t == a.name + ['='] + a.value.value;
    }
    assert t[0] == a.name[0];
    assert " " + t == " " + t + "";
    TrimSurrounded(" ", t, "");
  }

  lemma {:induction false} RenderedPieces(attributes: seq<Attribute>)
    requires forall a :: a in attributes ==> IsWritten(a)
    ensures Gather(AttributeIn, Pieces(attributes)) == attributes
    ensures forall p :: p in Pieces(attributes) ==> ';' !in p
  {
    if attributes != [] {
      var first, rest := attributes[0], attributes[1..];
      assert attributes == [first] + rest;
      RenderedAttribute(first);
      RenderedPieces(rest);
      PieceFirst(AttributeIn, " " + RenderAttribute(first), Pieces(rest));
      assert ';' !in " " + RenderAttribute(first);
    }
  }

  lemma {:induction false} PieceFirst<T>(f: string -> seq<T>, piece: string, rest: seq<string>)
    ensures Gather(f, [piece] + rest) == f(piece) + Gather(f, rest)
  {
    assert ([piece] + rest)[1..] == rest;
  }

  /** Any attribute list that can be written is read back as it was. */
  lemma {:induction false} AttributesRoundTrip(first: Attribute, attributes: seq<Attribute>)
    requires IsWritten(first)
    requires forall a :: a in attributes ==> IsWritten(a)
    ensures var header := RenderHeader(first, attributes);
            && NameValue(Split(header, ';')[0]) == (first.name, first.value)
            && Attributes(header) == attributes
  {
    var parts := [RenderAttribute(first)] + Pieces(attributes);
    RenderedAttribute(first);
    RenderedPieces(attributes);
    SplitOfJoin(parts, ';');
    assert parts[1..] == Pieces(attributes);
  }

  function NameFor(kind: Kind): string {
    match kind
    case Secure => "secure"
    case HttpOnly => "httponly"
    case SameSite => "samesite"
    case DomainAttribute => "domain"
    case PathAttribute => "path"
    case Unknown => "unknown"
  }

  function Optional(present: bool, kind: Kind, value: Option<string>): seq<Setting> {
    if present then [Entry(kind, value)] else []
  }

  function ValuedSettings(cookie: Cookie): seq<Setting> {
    Optional(cookie.sameSite.Some?, SameSite, cookie.sameSite)
    + (Optional(cookie.domain.Some?, DomainAttribute, cookie.domain)
       + Optional(cookie.path.Some?, PathAttribute, cookie.path))
  }

  function SettingsOf(cookie: Cookie): seq<Setting> {
    Optional(cookie.secure, Secure, None) + (Optional(cookie.httpOnly, HttpOnly, None) + ValuedSettings(cookie))
  }

  function Write(settings: seq<Setting>): seq<Attribute> {
    seq(|settings|, i requires 0 <= i < |settings| => Attribute(NameFor(settings[i].name), settings[i].value))
  }

  function Render(cookie: Cookie): string {
    RenderHeader(Attribute(cookie.name, cookie.value), Write(SettingsOf(cookie)))
  }

  /** A cookie as it can come out of a header. */
  predicate IsParsed(cookie: Cookie) {
    && IsName(cookie.name)
    && IsValue(cookie.value)
    && (cookie.sameSite.Some? ==> IsToken(cookie.sameSite.value))
    && IsValue(cookie.domain) && cookie.domain != Some("")
    && IsValue(cookie.path)
  }

  lemma {:induction false} KindOfNameFor(kind: Kind)
    requires kind != Unknown
    ensures KindOf(NameFor(kind)) == kind && IsName(NameFor(kind))
  {
    KindByName(NameFor(kind));
  }

  lemma {:induction false} SettingsOfWrite(settings: seq<Setting>)
    requires forall s :: s in settings ==> s.name != Unknown && IsValue(s.value)
    ensures Settings(Write(settings)) == settings
    ensures forall a :: a in Write(settings) ==> IsWritten(a)
  {
    forall i | 0 <= i < |settings|
      ensures SettingOf(Write(settings)[i]) == settings[i] && IsWritten(Write(settings)[i])
    {
      assert settings[i] in settings;
      KindOfNameFor(settings[i].name);
    }
  }

  /** A setting that may be left out adds its value to its own kind only. */
  lemma {:induction false} ValuesOfOptional(present: bool, kind: Kind, value: Option<string>, rest: seq<Setting>,
                                            k: Kind)
    ensures Values(Optional(present, kind, value) + rest)(k)
            == (if present && kind == k then [value] else []) + Values(rest)(k)
  {
    var first := Optional(present, kind, value);
    GatherConcat(ShareOf(k), first, rest);
    assert Gather(ShareOf(k), first) == if present then Share(Entry(kind, value), k) + [] else [];
  }

  /** The values of each kind in the settings of a cookie. */
  function ValuesGiven(cookie: Cookie, kind: Kind): seq<Option<string>> {
    match kind
    case Secure => if cookie.secure then [None] else []
    case HttpOnly => if cookie.httpOnly then [None] else []
    case SameSite => if cookie.sameSite.Some? then [cookie.sameSite] else []
    case DomainAttribute => if cookie.domain.Some? then [cookie.domain] else []
    case PathAttribute => if cookie.path.Some? then [cookie.path] else []
    case Unknown => []
  }

  lemma {:induction false} ValuesOfValued(cookie: Cookie, kind: Kind)
    ensures Values(ValuedSettings(cookie))(kind)
            == if kind == Secure || kind == HttpOnly then [] else ValuesGiven(cookie, kind)
  {
    var e := Optional(cookie.path.Some?, PathAttribute, cookie.path);
    var d := Optional(cookie.domain.Some?, DomainAttribute, cookie.domain) + e;
    assert e == e + [];
    ValuesOfOptional(cookie.path.Some?, PathAttribute, cookie.path, [], kind);
    ValuesOfOptional(cookie.domain.Some?, DomainAttribute, cookie.domain, e, kind);
    ValuesOfOptional(cookie.sameSite.Some?, SameSite, cookie.sameSite, d, kind);
  }

  lemma {:induction false} ValuesOfCookie(cookie: Cookie, kind: Kind)
    ensures Values(SettingsOf(cookie))(kind) == ValuesGiven(cookie, kind)
  {
    var valued := ValuedSettings(cookie);
    ValuesOfValued(cookie, kind);
    ValuesOfOptional(cookie.httpOnly, HttpOnly, None, valued, kind);
    ValuesOfOptional(cookie.secure, Secure, None, Optional(cookie.httpOnly, HttpOnly, None) + valued, kind);
  }

  lemma {:induction false} TokenOfToken(token: string)
    requires IsToken(token)
    ensures SameSiteToken(Some(token)) == Some(token)
  {
    TrimOfTrimmed(token);
  }

  lemma {:induction false} SummaryOfValues(cookie: Cookie, values: Kind -> seq<Option<string>>)
    requires IsParsed(cookie)
    requires forall kind :: values(kind) == ValuesGiven(cookie, kind)
    ensures Summary(cookie.name, cookie.value, values) == cookie
  {
    if cookie.sameSite.Some? {
      TokenOfToken(cookie.sameSite.value);
    }
  }

  lemma {:induction false} SummaryOfCookie(cookie: Cookie)
    requires IsParsed(cookie)
    ensures Summary(cookie.name, cookie.value, Values(SettingsOf(cookie))) == cookie
  {
    var values := Values(SettingsOf(cookie));
    forall kind ensures values(kind) == ValuesGiven(cookie, kind) {
      ValuesOfCookie(cookie, kind);
    }
    SummaryOfValues(cookie, values);
  }

  lemma {:induction false} ParseOfRender(cookie: Cookie)
    requires IsParsed(cookie)
    ensures Meaning(Render(cookie)) == Some(cookie)
  {
    var settings := SettingsOf(cookie);
    SettingsWritable(cookie);
    SettingsOfWrite(settings);
    AttributesRoundTrip(Attribute(cookie.name, cookie.value), Write(settings));
    SummaryOfCookie(cookie);
  }

  lemma {:induction false} SettingsWritable(cookie: Cookie)
    requires IsParsed(cookie)
    ensures forall s :: s in SettingsOf(cookie) ==> s.name != Unknown && IsValue(s.value)
  {
  }

  lemma {:induction false} TrimIsWord(s: string)
    requires ';' !in s
    ensures IsWord(Trim(s))
  {
    TrimIsTrimmed(s);
  }

  lemma {:induction false} AttributeInIsWord(part: string)
    requires ';' !in part
    ensures forall a :: a in AttributeIn(part) ==> IsValue(a.value)
  {
    var t := Trim(part);
    TrimIsWord(part);
    match SplitOnce(t, '=')
    case Some((name, value)) => TrimIsWord(value);
    case None =>
  }

  lemma {:induction false} GatheredWords(parts: seq<string>)
    requires forall part :: part in parts ==> ';' !in part
    ensures forall a :: a in Gather(AttributeIn, parts) ==> IsValue(a.value)
  {
    if parts != [] {
      AttributeInIsWord(parts[0]);
      GatheredWords(parts[1..]);
    }
  }

  lemma {:induction false} ValuesAreWords(settings: seq<Setting>, kind: Kind)
    requires forall s :: s in settings ==> IsValue(s.value)
    ensures forall v :: v in Values(settings)(kind) ==> IsValue(v)
  {
    if settings != [] {
      ValuesAreWords(settings[1..], kind);
    }
  }

  lemma {:induction false} NameValueIsParsed(first: string)
    requires ';' !in first && NameValue(first).0 != ""
    ensures IsName(NameValue(first).0) && IsValue(NameValue(first).1)
  {
    match SplitOnce(first, '=')
    case Some((name, value)) =>
      TrimIsWord(name);
      TrimIsWord(value);
      TrimIsTrimmed(name);
    case None =>
      TrimIsWord(first);
      TrimIsTrimmed(first);
  }

  lemma {:induction false} SummaryIsParsed(name: string, value: Option<string>, settings: seq<Setting>)
    requires IsName(name) && IsValue(value)
    requires forall s :: s in settings ==> IsValue(s.value)
    ensures IsParsed(Summary(name, value, Values(settings)))
  {
    ValuesAreWords(settings, DomainAttribute);
    ValuesAreWords(settings, PathAttribute);
  }

  lemma {:induction false} ParsedCookie(header: string)
    requires Meaning(header).Some?
    ensures IsParsed(Meaning(header).value)
  {
    var parts := Split(header, ';');
    SplitPiecesHoldNone(header, ';');
    GatheredWords(parts[1..]);
    assert parts[0] in parts;
    NameValueIsParsed(parts[0]);
    var (name, value) := NameValue(parts[0]);
    SummaryIsParsed(name, value, Settings(Attributes(header)));
  }

  /** The cookies that rendering and parsing give back are exactly those a header can say. */
  lemma {:induction false} CookieRoundTrip(cookie: Cookie)
    ensures Meaning(Render(cookie)) == Some(cookie) <==> IsParsed(cookie)
  {
    if IsParsed(cookie) {
      ParseOfRender(cookie);
    } else if Meaning(Render(cookie)) == Some(cookie) {
      ParsedCookie(Render(cookie));
    }
  }

  /** Every header can be rewritten in the one rendered form without changing what it says. */
  lemma {:induction false} CookieNormalForm(header: string)
    requires Meaning(header).Some?
    ensures Meaning(Render(Meaning(header).value)) == Meaning(header)
  {
    ParsedCookie(header);
    ParseOfRender(Meaning(header).value);
  }

  // ---------- Names to values ----------

  type Pair = (string, string)

  /** Later pairs replace earlier ones with the same name. */
  function LastWins(pairs: seq<Pair>): map<string, string> {
    if pairs == [] then map[]
    else LastWins(pairs[..|pairs| - 1])[pairs[|pairs| - 1].0 := pairs[|pairs| - 1].1]
  }

  /** A name is there exactly when some pair has it, with the value of the last such pair. */
  lemma {:induction false} LastWinsByName(pairs: seq<Pair>, name: string)
    ensures name in LastWins(pairs) <==> exists i :: 0 <= i < |pairs| && pairs[i].0 == name
    ensures forall i :: 0 <= i < |pairs| && pairs[i].0 == name
                        && (forall j :: i < j < |pairs| ==> pairs[j].0 != name)
                        ==> LastWins(pairs)[name] == pairs[i].1
  {
    if pairs != [] {
      var n := |pairs| - 1;
      var shorter := pairs[..n];
      LastWinsByName(shorter, name);
      if pairs[n].0 != name {
        assert forall i :: 0 <= i < n ==> shorter[i] == pairs[i];
      }
    }
  }

  lemma {:induction false} LastWinsPush(before: seq<Pair>, pairs: seq<Pair>, found: seq<Pair>)
    requires |found| <= 1
    ensures LastWins(before + (pairs + found))
            == if found == [] then LastWins(before + pairs)
               else LastWins(before + pairs)[found[0].0 := found[0].1]
  {
    var all := before + (pairs + found);
    if found == [] {
      assert all == before + pairs;
    } else {
      assert all[..|all| - 1] == before + pairs;
    }
  }

  function PairOf(lowercase: string -> string, cookie: Option<Cookie>): seq<Pair> {
    if cookie.Some? && cookie.value.value.Some?
    then [(lowercase(cookie.value.name), lowercase(cookie.value.value.value))]
    else []
  }

  /** A Set-Cookie header with a value, lowercased; `lowercase` stands for the Unicode mapping. */
  function SetCookiePair(lowercase: string -> string): string -> seq<Pair> {
    (header: string) => PairOf(lowercase, Meaning(header))
  }

  /** A piece of a Cookie header, unless it has no '='. */
  function PairIn(lowercase: string -> string, piece: string): seq<Pair> {
    match SplitOnce(Trim(piece), '=')
    case Some((name, value)) => [(lowercase(Trim(name)), lowercase(Trim(value)))]
    case None => []
  }

  /** In a Cookie header too, the name and the value stand on either side of the first '='. */
  lemma {:induction false} PairInPiece(lowercase: string -> string, left: string, right: string)
    requires '=' !in left
    ensures PairIn(lowercase, left + "=" + right) == [(lowercase(Trim(left)), lowercase(Trim(right)))]
    ensures PairIn(lowercase, left) == []
  {
    SplitTrimmed(left, '=', right);
    TrimTwice(left);
    TrimTwice(right);
    TrimIsTrimmed(left);
  }

  function CookiePair(lowercase: string -> string): string -> seq<Pair> {
    (piece: string) => PairIn(lowercase, piece)
  }

  /** The pairs of the response's Set-Cookie headers, then those of the request's Cookie header. */
  function AllPairs(lowercase: string -> string, setCookies: seq<string>, cookie: Option<string>): seq<Pair> {
    Gather(SetCookiePair(lowercase), setCookies)
    + (if cookie.Some? then Gather(CookiePair(lowercase), Split(cookie.value, ';')) else [])
  }

  method InsertSetCookies(lowercase: string -> string, setCookies: seq<string>) returns (cookies: map<string, string>)
    ensures cookies == LastWins(Gather(SetCookiePair(lowercase), setCookies))
  {
    cookies := map[];
    ghost var pairs: seq<Pair> := [];
    for i := 0 to |setCookies|
      invariant pairs == Gather(SetCookiePair(lowercase), setCookies[..i])
      invariant cookies == LastWins([] + pairs)
    {
      GatherPush(SetCookiePair(lowercase), setCookies, i);
      var parsed := ParseSetCookie(setCookies[i]);
      var found := PairOf(lowercase, parsed);
      LastWinsPush([], pairs, found);
      pairs := pairs + found;
      if found != [] {
        cookies := cookies[found[0].0 := found[0].1];
      }
    }
    assert setCookies[..|setCookies|] == setCookies && [] + pairs == pairs;
  }

  method InsertCookieHeader(lowercase: string -> string, header: string, fromResponse: map<string, string>,
                            ghost before: seq<Pair>)
    returns (cookies: map<string, string>)
    requires fromResponse == LastWins(before)
    ensures cookies == LastWins(before + Gather(CookiePair(lowercase), Split(header, ';')))
  {
    cookies := fromResponse;
    ghost var pairs: seq<Pair> := [];
    assert before + [] == before;
    var pieces := Split(header, ';');
    for i := 0 to |pieces|
      invariant pairs == Gather(CookiePair(lowercase), pieces[..i])
      invariant cookies == LastWins(before + pairs)
    {
      GatherPush(CookiePair(lowercase), pieces, i);
      var found := PairIn(lowercase, pieces[i]);
      LastWinsPush(before, pairs, found);
      pairs := pairs + found;
      if found != [] {
        cookies := cookies[found[0].0 := found[0].1];
      }
    }
    assert pieces[..|pieces|] == pieces;
  }

  method ExtractCookiesNameValueMap(lowercase: string -> string, setCookies: seq<string>, cookie: Option<string>)
    returns (cookies: map<string, string>)
    ensures cookies == LastWins(AllPairs(lowercase, setCookies, cookie))
  {
    cookies := InsertSetCookies(lowercase, setCookies);
    ghost var fromResponse := Gather(SetCookiePair(lowercase), setCookies);
    if cookie.Some? {
      cookies := InsertCookieHeader(lowercase, cookie.value, cookies, fromResponse);
    } else {
      assert fromResponse + [] == fromResponse;
    }
  }

  lemma {:induction false} LastPairWins(pairs: seq<Pair>, last: Pair)
    ensures LastWins(pairs + [last]) == LastWins(pairs)[last.0 := last.1]
  {
    assert (pairs + [last])[..|pairs|] == pairs;
  }

  /** The last pair of the request's Cookie header replaces any other of its name. */
  lemma {:induction false} RequestPairWins(lowercase: string -> string, setCookies: seq<string>, header: string,
                                           left: string, right: string)
    requires ';' !in left && '=' !in left && ';' !in right
    ensures LastWins(AllPairs(lowercase, setCookies, Some(header + ";" + (left + "=" + right))))
            == LastWins(AllPairs(lowercase, setCookies, Some(header)))[lowercase(Trim(left)) := lowercase(Trim(right))]
  {
    OnePieceMore(lowercase, setCookies, header, left + "=" + right);
    PairInPiece(lowercase, left, right);
    LastPairWins(AllPairs(lowercase, setCookies, Some(header)), (lowercase(Trim(left)), lowercase(Trim(right))));
  }

  /** A piece without '=' adds none. */
  lemma {:induction false} PieceWithoutValue(lowercase: string -> string, setCookies: seq<string>, header: string,
                                             piece: string)
    requires ';' !in piece && '=' !in piece
    ensures AllPairs(lowercase, setCookies, Some(header + ";" + piece))
            == AllPairs(lowercase, setCookies, Some(header))
  {
    OnePieceMore(lowercase, setCookies, header, piece);
    PairInPiece(lowercase, piece, "");
  }

  lemma {:induction false} OnePieceMore(lowercase: string -> string, setCookies: seq<string>, header: string,
                                        piece: string)
    requires ';' !in piece
    ensures AllPairs(lowercase, setCookies, Some(header + ";" + piece))
            == AllPairs(lowercase, setCookies, Some(header)) + PairIn(lowercase, piece)
  {
    var response := Gather(SetCookiePair(lowercase), setCookies);
    GatheredPiece(CookiePair(lowercase), header, piece);
    Associate(response, Gather(CookiePair(lowercase), Split(header, ';')), PairIn(lowercase, piece));
  }

  lemma {:induction false} GatheredPiece<T>(f: string -> seq<T>, header: string, piece: string)
    requires ';' !in piece
    ensures Gather(f, Split(header + ";" + piece, ';')) == Gather(f, Split(header, ';')) + f(piece)
  {
    SplitConcat(header, ';', piece);
    assert Split(piece, ';') == [piece];
    GatherConcat(f, Split(header, ';'), [piece]);
    GatherOne(f, piece);
  }

  /** A later Set-Cookie header with a value replaces an earlier one of its name; one without a value adds none. */
  lemma {:induction false} LaterSetCookieWins(lowercase: string -> string, setCookies: seq<string>, header: string,
                                              cookie: Cookie)
    requires Meaning(header) == Some(cookie)
    ensures var before := LastWins(AllPairs(lowercase, setCookies, None));
            LastWins(AllPairs(lowercase, setCookies + [header], None))
            == if cookie.value.Some? then before[lowercase(cookie.name) := lowercase(cookie.value.value)] else before
  {
    var f := SetCookiePair(lowercase);
    assert f(header) == PairOf(lowercase, Some(cookie));
    GatherConcat(f, setCookies, [header]);
    GatherOne(f, header);
    FoundPairWins(Gather(f, setCookies), Gather(f, setCookies + [header]), f(header));
  }

  lemma {:induction false} FoundPairWins(before: seq<Pair>, after: seq<Pair>, found: seq<Pair>)
    requires |found| <= 1 && after == before + found
    ensures LastWins(after + [])
            == if found == [] then LastWins(before + []) else LastWins(before + [])[found[0].0 := found[0].1]
  {
    assert before + [] == before && after + [] == after;
    if found != [] {
      LastPairWins(before, found[0]);
    }
  }
}
