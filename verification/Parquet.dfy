/** The builders of a batch of export rows, and writing a batch (src/export/parquet.rs). */
module Parquet {
  import opened Columns
  import opened ExportRows
  import opened RecordBatches
  import opened Sequences
  import opened Wrappers
  import Fields
  import Lists

  /** `as i32` of a count: the low 32 bits, read as a signed number. */
  function AsI32(n: int): int {
    var low := n % 0x1_0000_0000;
    if low < 0x8000_0000 then low else low - 0x1_0000_0000
  }

  lemma {:induction false} AsI32KeepsLowBits(n: int)
    ensures -0x8000_0000 <= AsI32(n) < 0x8000_0000
    ensures exists q :: n == AsI32(n) + 0x1_0000_0000 * q
  {
    var low := n % 0x1_0000_0000;
    var q := n / 0x1_0000_0000;
    assert n == low + 0x1_0000_0000 * q == low - 0x1_0000_0000 + 0x1_0000_0000 * (q + 1);
  }

  // ---------- Records, field by field ----------

  /** `append_opt_str` and `append_opt_i64` append a null when there is no value. */
  function RedirectCells(r: RedirectEntry): Record {
    [Str(Some(r.redirectUrl)), I64(Some(r.sequenceOrder))]
  }

  function TechnologyCells(t: Technology): Record {
    [Str(Some(t.name)), Str(t.version), Str(t.category), Flag(Some(t.isImplied)), Str(t.detectionSource)]
  }

  function TextCells(s: string): Record {
    [Str(Some(s))]
  }

  function CaaCells(c: CaaRecord): Record {
    [I64(Some(c.flag)), Str(Some(c.tag)), Str(Some(c.value))]
  }

  function ScriptHostCells(h: ScriptHostRecord): Record {
    [Str(Some(h.host)), Str(h.registrableDomain), Flag(Some(h.isFirstParty))]
  }

  function NamedCells(n: NamedValue): Record {
    [Str(Some(n.name)), Str(Some(n.value))]
  }

  function MxCells(m: MxRecord): Record {
    [I64(Some(m.priority)), Str(Some(m.mailExchange))]
  }

  function SocialCells(l: SocialMediaLink): Record {
    [Str(Some(l.platform)), Str(Some(l.profileUrl)), Str(l.identifier)]
  }

  function StructuredCells(e: StructuredDataEntry): Record {
    [Str(Some(e.dataType)), Str(Some(e.propertyName)), Str(Some(e.propertyValue))]
  }

  function SecretCells(s: ExposedSecret): Record {
    [Str(Some(s.secretType)), Str(Some(s.matchedValue)), Str(Some(s.severity)), Str(Some(s.location)),
     Str(s.context), Str(s.jwtAlgorithm), Str(s.jwtIssuer), Str(s.jwtSubject), Str(s.jwtAudience),
     I64(s.jwtExpirationMs), I64(s.jwtIssuedAtMs), Str(s.jwtHeaderJson), Str(s.jwtPayloadJson)]
  }

  // ---------- What the struct builders are declared as ----------

  function RedirectChainBuilder(): DataType {
    Structs([Field("redirect_url", Utf8, false), Field("sequence_order", Int64, false)])
  }

  function TechnologiesBuilder(): DataType {
    Structs([Field("name", Utf8, false), Field("version", Utf8, true), Field("category", Utf8, true),
             Field("is_implied", Boolean, false), Field("detection_source", Utf8, true)])
  }

  function CaaRecordsBuilder(): DataType {
    Structs([Field("flag", Int64, false), Field("tag", Utf8, false), Field("value", Utf8, false)])
  }

  function ScriptHostsBuilder(): DataType {
    Structs([Field("host", Utf8, false), Field("registrable_domain", Utf8, true),
             Field("is_first_party", Boolean, false)])
  }

  function TxtRecordsBuilder(): DataType {
    Structs([Field("record_type", Utf8, false), Field("content", Utf8, false)])
  }

  function MxRecordsBuilder(): DataType {
    Structs([Field("priority", Int64, false), Field("mail_exchange", Utf8, false)])
  }

  function AnalyticsIdsBuilder(): DataType {
    Structs([Field("provider", Utf8, false), Field("tracking_id", Utf8, false)])
  }

  function SocialMediaBuilder(): DataType {
    Structs([Field("platform", Utf8, false), Field("url", Utf8, false), Field("identifier", Utf8, true)])
  }

  function StructuredDataBuilder(): DataType {
    Structs([Field("data_type", Utf8, false), Field("property_name", Utf8, false),
             Field("property_value", Utf8, false)])
  }

  function HttpHeadersBuilder(): DataType {
    Structs([Field("name", Utf8, false), Field("value", Utf8, false)])
  }

  function SecurityHeadersBuilder(): DataType {
    Structs([Field("name", Utf8, false), Field("value", Utf8, false)])
  }

  function PartialFailuresBuilder(): DataType {
    Structs([Field("error_type", Utf8, false), Field("error_message", Utf8, false)])
  }

  function ContactLinksBuilder(): DataType {
    Structs([Field("contact_type", Utf8, false), Field("contact_value", Utf8, false)])
  }

  function ExposedSecretsBuilder(): DataType {
    Structs([Field("secret_type", Utf8, false), Field("matched_value", Utf8, false),
             Field("severity", Utf8, false), Field("location", Utf8, false), Field("context", Utf8, true),
             Field("jwt_algorithm", Utf8, true), Field("jwt_issuer", Utf8, true),
             Field("jwt_subject", Utf8, true), Field("jwt_audience", Utf8, true),
             Field("jwt_expiration_ms", Int64, true), Field("jwt_issued_at_ms", Int64, true),
             Field("jwt_header_json", Utf8, true), Field("jwt_payload_json", Utf8, true)])
  }

  // ---------- The builders in the order in which they are pushed ----------

  /** A scalar builder with what the row loop appends to it, or a list builder. */
  datatype Builder = Scalar(kind: Kind, cell: ExportRow -> Cell) | List(list: ListColumn)

  function FirstPush(j: nat): Builder {
    match j
    case 0 => Scalar(Utf8, (r: ExportRow) => Str(Some(BuildUrl(r.main.finalDomain))))
    case 1 => Scalar(Utf8, (r: ExportRow) => Str(Some(r.main.initialDomain)))
    case 2 => Scalar(Utf8, (r: ExportRow) => Str(Some(r.main.finalDomain)))
    case 3 => Scalar(Utf8, (r: ExportRow) => Str(r.main.initialUrl))
    case 4 => Scalar(Utf8, (r: ExportRow) => Str(r.main.finalUrl))
    case 5 => Scalar(Utf8, (r: ExportRow) => Str(Some(r.main.ipAddress)))
    case 6 => Scalar(Utf8, (r: ExportRow) => Str(r.main.reverseDns))
    case 7 => Scalar(Int32, (r: ExportRow) => I32(Some(r.main.status)))
    case 8 => Scalar(Utf8, (r: ExportRow) => Str(Some(r.main.statusDesc)))
    case 9 => Scalar(Float64, (r: ExportRow) => F64(Some(r.main.responseTime)))
    case 10 => Scalar(Utf8, (r: ExportRow) => Str(Some(r.main.title)))
    case 11 => Scalar(Utf8, (r: ExportRow) => Str(r.main.description))
    case 12 => Scalar(Utf8, (r: ExportRow) => Str(r.main.metaRobots))
    case 13 => Scalar(Utf8, (r: ExportRow) => Str(r.main.bodySha256))
    case _ => Scalar(Int64, (r: ExportRow) => I64(r.main.contentLength))
  }

  function SecondPush(j: nat): Builder {
    match j
    case 0 => Scalar(Utf8, (r: ExportRow) => Str(r.main.httpVersion))
    case 1 => Scalar(Utf8, (r: ExportRow) => Str(r.main.contentType))
    case 2 => Scalar(Utf8, (r: ExportRow) => Str(r.main.canonicalUrl))
    case 3 => Scalar(Boolean, (r: ExportRow) => Flag(Some(r.main.bodyTruncated)))
    case 4 => Scalar(Int32, (r: ExportRow) => I32(Some(AsI32(r.redirectCount))))
    case 5 => Scalar(Utf8, (r: ExportRow) => Str(Some(r.finalRedirectUrl)))
    case 6 => List(RedirectChain)
    case 7 => Scalar(Int32, (r: ExportRow) => I32(Some(AsI32(r.technologyCount))))
    case 8 => List(Technologies)
    case 9 => Scalar(Utf8, (r: ExportRow) => Str(r.main.tlsVersion))
    case 10 => Scalar(Utf8, (r: ExportRow) => Str(r.main.sslCertSubject))
    case 11 => Scalar(Utf8, (r: ExportRow) => Str(r.main.sslCertIssuer))
    case 12 => Scalar(Int64, (r: ExportRow) => I64(r.main.sslCertValidToMs))
    case 13 => Scalar(Utf8, (r: ExportRow) => Str(r.main.cipherSuite))
    case _ => Scalar(Utf8, (r: ExportRow) => Str(r.main.keyAlgorithm))
  }

  function ThirdPush(j: nat): Builder {
    match j
    case 0 => Scalar(Utf8, (r: ExportRow) => Str(r.main.certFingerprintSha256))
    case 1 => List(CertificateSans)
    case 2 => List(Oids)
    case 3 => List(CnameRecords)
    case 4 => List(Ipv6Addresses)
    case 5 => List(CaaRecords)
    case 6 => Scalar(Utf8, (r: ExportRow) => Str(r.main.spfRecord))
    case 7 => Scalar(Utf8, (r: ExportRow) => Str(r.main.dmarcRecord))
    case 8 => Scalar(Utf8, (r: ExportRow) => Str(r.main.mtaStsRecord))
    case 9 => Scalar(Utf8, (r: ExportRow) => Str(r.main.tlsRptRecord))
    case 10 => Scalar(Utf8, (r: ExportRow) => Str(r.main.bimiRecord))
    case 11 => Scalar(Int64, (r: ExportRow) => I64(r.main.hstsMaxAge))
    case 12 => Scalar(Boolean, (r: ExportRow) => Flag(r.main.hstsIncludeSubdomains))
    case 13 => Scalar(Boolean, (r: ExportRow) => Flag(r.main.hstsPreload))
    case _ => Scalar(Utf8, (r: ExportRow) => Str(r.main.cdnProvider))
  }

  function FourthPush(j: nat): Builder {
    match j
    case 0 => List(ScriptHosts)
    case 1 => List(Nameservers)
    case 2 => List(TxtRecords)
    case 3 => List(MxRecords)
    case 4 => List(AnalyticsIds)
    case 5 => List(SocialMediaLinks)
    case 6 => List(StructuredDataEntries)
    case 7 => List(HttpHeaders)
    case 8 => List(SecurityHeaders)
    case 9 => List(PartialFailures)
    case 10 => Scalar(Utf8, (r: ExportRow) => Str(r.geoip.countryCode))
    case 11 => Scalar(Utf8, (r: ExportRow) => Str(r.geoip.countryName))
    case 12 => Scalar(Utf8, (r: ExportRow) => Str(r.geoip.region))
    case 13 => Scalar(Utf8, (r: ExportRow) => Str(r.geoip.city))
    case _ => Scalar(Float64, (r: ExportRow) => F64(r.geoip.latitude))
  }

  function FifthPush(j: nat): Builder {
    match j
    case 0 => Scalar(Float64, (r: ExportRow) => F64(r.geoip.longitude))
    case 1 => Scalar(Int64, (r: ExportRow) => I64(r.geoip.asn))
    case 2 => Scalar(Utf8, (r: ExportRow) => Str(r.geoip.asnOrg))
    case 3 => Scalar(Utf8, (r: ExportRow) => Str(r.whois.registrar))
    case 4 => Scalar(Int64, (r: ExportRow) => I64(r.whois.creationDateMs))
    case 5 => Scalar(Int64, (r: ExportRow) => I64(r.whois.expirationDateMs))
    case 6 => Scalar(Utf8, (r: ExportRow) => Str(r.whois.registrantCountry))
    case 7 => Scalar(Int32, (r: ExportRow) => I32(r.faviconHash))
    case 8 => Scalar(Utf8, (r: ExportRow) => Str(r.faviconUrl))
    case 9 => Scalar(Int32, (r: ExportRow) => I32(Some(AsI32(r.contactLinkCount))))
    case 10 => List(ContactLinks)
    case 11 => Scalar(Int32, (r: ExportRow) => I32(Some(AsI32(r.exposedSecretCount))))
    case 12 => List(ExposedSecrets)
    case 13 => Scalar(Int64, (r: ExportRow) => I64(Some(r.main.timestamp)))
    case _ => Scalar(Utf8, (r: ExportRow) => Str(r.main.runId))
  }

  function BuilderAt(k: nat): Builder {
    At(FirstPush, SecondPush, ThirdPush, FourthPush, FifthPush, k)
  }

  function TextList(): DataType {
    Texts
  }

  function ItemDeclaration(list: ListColumn): () -> DataType {
    match list
    case RedirectChain => RedirectChainBuilder
    case Technologies => TechnologiesBuilder
    case CaaRecords => CaaRecordsBuilder
    case ScriptHosts => ScriptHostsBuilder
    case TxtRecords => TxtRecordsBuilder
    case MxRecords => MxRecordsBuilder
    case AnalyticsIds => AnalyticsIdsBuilder
    case SocialMediaLinks => SocialMediaBuilder
    case StructuredDataEntries => StructuredDataBuilder
    case HttpHeaders => HttpHeadersBuilder
    case SecurityHeaders => SecurityHeadersBuilder
    case PartialFailures => PartialFailuresBuilder
    case ContactLinks => ContactLinksBuilder
    case ExposedSecrets => ExposedSecretsBuilder
    case _ => TextList
  }

  /** What the items of a list builder are declared as. */
  function ItemType(list: ListColumn): DataType {
    ItemDeclaration(list)()
  }

  /** What the row loop appends to a list builder. */
  function RecordsFor(list: ListColumn, row: ExportRow): seq<Record> {
    match list
    case RedirectChain => Records(RedirectCells, row.redirects)
    case Technologies => Records(TechnologyCells, row.technologies)
    case CertificateSans => Records(TextCells, Lists.ParseStringList(row.certificateSansStr))
    case Oids => Records(TextCells, Lists.ParseStringList(row.oidsStr))
    case CnameRecords => Records(TextCells, row.cnameRecords)
    case Ipv6Addresses => Records(TextCells, row.ipv6Addresses)
    case CaaRecords => Records(CaaCells, row.caaRecords)
    case ScriptHosts => Records(ScriptHostCells, row.scriptHosts)
    case Nameservers => Records(TextCells, row.nameservers)
    case TxtRecords => Records(NamedCells, row.txtRecords)
    case MxRecords => Records(MxCells, row.mxRecords)
    case AnalyticsIds => Records(NamedCells, row.analyticsIds)
    case SocialMediaLinks => Records(SocialCells, row.socialMediaLinks)
    case StructuredDataEntries => Records(StructuredCells, row.structuredDataEntries)
    case HttpHeaders => Records(NamedCells, row.allHttpHeaders)
    case SecurityHeaders => Records(NamedCells, row.allSecurityHeaders)
    case PartialFailures => Records(NamedCells, row.partialFailures)
    case ContactLinks => Records(NamedCells, row.contactLinks)
    case ExposedSecrets => Records(SecretCells, row.exposedSecrets)
  }

  function RecordsOf(list: ListColumn): ExportRow -> seq<Record> {
    (row: ExportRow) => RecordsFor(list, row)
  }

  function PushOf(b: Builder): Push<ExportRow> {
    match b
    case Scalar(kind, cell) => CellPush(kind, cell)
    case List(list) => ListPush(ItemType(list), RecordsOf(list))
  }

  function PushOrder(): (order: seq<Push<ExportRow>>)
    ensures |order| == 75
  {
    seq(75, k requires 0 <= k < 75 => PushOf(BuilderAt(k)))
  }

  // ---------- Builders and schema agree ----------

  /** A builder that a column's specification asks for: of its kind, without nulls if need be, or for its list. */
  predicate Suits(b: Builder, spec: Fields.Spec, row: ExportRow) {
    match b
    case Scalar(kind, cell) =>
      && spec.ScalarField? && spec.kind == kind
      && KindOf(cell(row)) == kind
      && (spec.nullable || !IsNull(cell(row)))
    case List(list) => spec.ListField? && spec.list == list
  }

  type Builders = nat -> Builder

  type Specs = nat -> Fields.Spec

  ghost predicate AllSuit(builders: Builders, specs: Specs) {
    forall j: nat, row :: j < 15 ==> Suits(builders(j), specs(j), row)
  }

  lemma {:induction false} FirstSuit()
    ensures AllSuit(FirstPush, Fields.FirstSpec)
  {
    forall j: nat, row | j < 15
      ensures Suits(FirstPush(j), Fields.FirstSpec(j), row)
    {
      match j
      case 0 => case 1 => case 2 => case 3 => case 4 => case 5 => case 6 => case 7 => case 8 =>
      case 9 => case 10 => case 11 => case 12 => case 13 => case 14 =>
    }
  }

  lemma {:induction false} SecondSuit()
    ensures AllSuit(SecondPush, Fields.SecondSpec)
  {
    forall j: nat, row | j < 15
      ensures Suits(SecondPush(j), Fields.SecondSpec(j), row)
    {
      match j
      case 0 => case 1 => case 2 => case 3 => case 4 => case 5 => case 6 => case 7 => case 8 =>
      case 9 => case 10 => case 11 => case 12 => case 13 => case 14 =>
    }
  }

  lemma {:induction false} ThirdSuit()
    ensures AllSuit(ThirdPush, Fields.ThirdSpec)
  {
    forall j: nat, row | j < 15
      ensures Suits(ThirdPush(j), Fields.ThirdSpec(j), row)
    {
      match j
      case 0 => case 1 => case 2 => case 3 => case 4 => case 5 => case 6 => case 7 => case 8 =>
      case 9 => case 10 => case 11 => case 12 => case 13 => case 14 =>
    }
  }

  lemma {:induction false} FourthSuit()
    ensures AllSuit(FourthPush, Fields.FourthSpec)
  {
    forall j: nat, row | j < 15
      ensures Suits(FourthPush(j), Fields.FourthSpec(j), row)
    {
      match j
      case 0 => case 1 => case 2 => case 3 => case 4 => case 5 => case 6 => case 7 => case 8 =>
      case 9 => case 10 => case 11 => case 12 => case 13 => case 14 =>
    }
  }

  lemma {:induction false} FifthSuit()
    ensures AllSuit(FifthPush, Fields.FifthSpec)
  {
    forall j: nat, row | j < 15
      ensures Suits(FifthPush(j), Fields.FifthSpec(j), row)
    {
      match j
      case 0 => case 1 => case 2 => case 3 => case 4 => case 5 => case 6 => case 7 => case 8 =>
      case 9 => case 10 => case 11 => case 12 => case 13 => case 14 =>
    }
  }

  lemma {:induction false} SuitAt(a: Builders, b: Builders, c: Builders, d: Builders, e: Builders,
                                  f: Specs, g: Specs, h: Specs, i: Specs, j: Specs, k: nat, row: ExportRow)
    requires AllSuit(a, f) && AllSuit(b, g) && AllSuit(c, h) && AllSuit(d, i) && AllSuit(e, j) && k < 75
    ensures Suits(At(a, b, c, d, e, k), At(f, g, h, i, j, k), row)
  {
  }

  lemma {:induction false} BuilderSuits(k: nat, row: ExportRow)
    requires k < 75
    ensures Suits(BuilderAt(k), Fields.SpecAt(k), row)
  {
    FirstSuit();
    SecondSuit();
    ThirdSuit();
    FourthSuit();
    FifthSuit();
    SuitAt(FirstPush, SecondPush, ThirdPush, FourthPush, FifthPush, Fields.FirstSpec, Fields.SecondSpec,
           Fields.ThirdSpec, Fields.FourthSpec, Fields.FifthSpec, k, row);
  }

  /** A list builder takes the records of a row, and is declared as its column's type. */
  ghost predicate Fits(list: ListColumn, row: ExportRow) {
    && !ItemType(list).Plain?
    && ItemType(list) == Fields.ListType(list)
    && AllConform(RecordsFor(list, row), FieldsOf(ItemType(list)))
  }

  lemma {:induction false} AllConforming<T(!new)>(cells: T -> Record, items: seq<T>, t: DataType)
    requires forall x :: Conforms(cells(x), FieldsOf(t))
    ensures AllConform(Records(cells, items), FieldsOf(t))
  {
  }

  lemma {:induction false} RedirectChainFit(row: ExportRow)
    ensures Fits(ListColumn.RedirectChain, row)
  {
    AllConforming(RedirectCells, row.redirects, RedirectChainBuilder());
  }

  lemma {:induction false} TechnologiesFit(row: ExportRow)
    ensures Fits(ListColumn.Technologies, row)
  {
    AllConforming(TechnologyCells, row.technologies, TechnologiesBuilder());
  }

  lemma {:induction false} CaaRecordsFit(row: ExportRow)
    ensures Fits(ListColumn.CaaRecords, row)
  {
    AllConforming(CaaCells, row.caaRecords, CaaRecordsBuilder());
  }

  lemma {:induction false} ScriptHostsFit(row: ExportRow)
    ensures Fits(ListColumn.ScriptHosts, row)
  {
    AllConforming(ScriptHostCells, row.scriptHosts, ScriptHostsBuilder());
  }

  lemma {:induction false} TxtRecordsFit(row: ExportRow)
    ensures Fits(ListColumn.TxtRecords, row)
  {
    AllConforming(NamedCells, row.txtRecords, TxtRecordsBuilder());
  }

  lemma {:induction false} MxRecordsFit(row: ExportRow)
    ensures Fits(ListColumn.MxRecords, row)
  {
    AllConforming(MxCells, row.mxRecords, MxRecordsBuilder());
  }

  lemma {:induction false} AnalyticsIdsFit(row: ExportRow)
    ensures Fits(ListColumn.AnalyticsIds, row)
  {
    AllConforming(NamedCells, row.analyticsIds, AnalyticsIdsBuilder());
  }

  lemma {:induction false} SocialMediaFit(row: ExportRow)
    ensures Fits(ListColumn.SocialMediaLinks, row)
  {
    AllConforming(SocialCells, row.socialMediaLinks, SocialMediaBuilder());
  }

  lemma {:induction false} StructuredDataFit(row: ExportRow)
    ensures Fits(ListColumn.StructuredDataEntries, row)
  {
    AllConforming(StructuredCells, row.structuredDataEntries, StructuredDataBuilder());
  }

  lemma {:induction false} HttpHeadersFit(row: ExportRow)
    ensures Fits(ListColumn.HttpHeaders, row)
  {
    AllConforming(NamedCells, row.allHttpHeaders, HttpHeadersBuilder());
  }

  lemma {:induction false} SecurityHeadersFit(row: ExportRow)
    ensures Fits(ListColumn.SecurityHeaders, row)
  {
    AllConforming(NamedCells, row.allSecurityHeaders, SecurityHeadersBuilder());
  }

  lemma {:induction false} PartialFailuresFit(row: ExportRow)
    ensures Fits(ListColumn.PartialFailures, row)
  {
    AllConforming(NamedCells, row.partialFailures, PartialFailuresBuilder());
  }

  lemma {:induction false} ContactLinksFit(row: ExportRow)
    ensures Fits(ListColumn.ContactLinks, row)
  {
    AllConforming(NamedCells, row.contactLinks, ContactLinksBuilder());
  }

  lemma {:induction false} SecretConforms(s: ExposedSecret)
    ensures Conforms(SecretCells(s), FieldsOf(ExposedSecretsBuilder()))
  {
    var record, fields := SecretCells(s), FieldsOf(ExposedSecretsBuilder());
    forall k | 0 <= k < 13
      ensures KindOf(record[k]) == fields[k].kind && (fields[k].nullable || !IsNull(record[k]))
    {
      match k
      case 0 => case 1 => case 2 => case 3 => case 4 => case 5 => case 6 => case 7 => case 8 =>
      case 9 => case 10 => case 11 => case 12 =>
    }
  }

  lemma {:induction false} SecretsConform()
    ensures forall s :: Conforms(SecretCells(s), FieldsOf(ExposedSecretsBuilder()))
  {
    forall s
      ensures Conforms(SecretCells(s), FieldsOf(ExposedSecretsBuilder()))
    {
      SecretConforms(s);
    }
  }

  lemma {:induction false} ExposedSecretsFit(row: ExportRow)
    ensures Fits(ListColumn.ExposedSecrets, row)
  {
    SecretsConform();
    AllConforming(SecretCells, row.exposedSecrets, ExposedSecretsBuilder());
  }

  lemma {:induction false} CertificateSansFit(row: ExportRow)
    ensures Fits(ListColumn.CertificateSans, row)
  {
    AllConforming(TextCells, Lists.ParseStringList(row.certificateSansStr), Texts);
  }

  lemma {:induction false} OidsFit(row: ExportRow)
    ensures Fits(ListColumn.Oids, row)
  {
    AllConforming(TextCells, Lists.ParseStringList(row.oidsStr), Texts);
  }

  lemma {:induction false} CnameRecordsFit(row: ExportRow)
    ensures Fits(ListColumn.CnameRecords, row)
  {
    AllConforming(TextCells, row.cnameRecords, Texts);
  }

  lemma {:induction false} Ipv6AddressesFit(row: ExportRow)
    ensures Fits(ListColumn.Ipv6Addresses, row)
  {
    AllConforming(TextCells, row.ipv6Addresses, Texts);
  }

  lemma {:induction false} NameserversFit(row: ExportRow)
    ensures Fits(ListColumn.Nameservers, row)
  {
    AllConforming(TextCells, row.nameservers, Texts);
  }

  lemma {:induction false} ListFits(list: ListColumn, row: ExportRow)
    ensures Fits(list, row)
  {
    match list
    case RedirectChain => RedirectChainFit(row);
    case Technologies => TechnologiesFit(row);
    case CertificateSans => CertificateSansFit(row);
    case Oids => OidsFit(row);
    case CnameRecords => CnameRecordsFit(row);
    case Ipv6Addresses => Ipv6AddressesFit(row);
    case CaaRecords => CaaRecordsFit(row);
    case ScriptHosts => ScriptHostsFit(row);
    case Nameservers => NameserversFit(row);
    case TxtRecords => TxtRecordsFit(row);
    case MxRecords => MxRecordsFit(row);
    case AnalyticsIds => AnalyticsIdsFit(row);
    case SocialMediaLinks => SocialMediaFit(row);
    case StructuredDataEntries => StructuredDataFit(row);
    case HttpHeaders => HttpHeadersFit(row);
    case SecurityHeaders => SecurityHeadersFit(row);
    case PartialFailures => PartialFailuresFit(row);
    case ContactLinks => ContactLinksFit(row);
    case ExposedSecrets => ExposedSecretsFit(row);
  }

  lemma {:induction false} ListAlwaysFits(list: ListColumn)
    ensures !ItemType(list).Plain? && ItemType(list) == Fields.ListType(list)
    ensures forall row :: AllConform(RecordsOf(list)(row), FieldsOf(ItemType(list)))
  {
    forall row
      ensures AllConform(RecordsOf(list)(row), FieldsOf(ItemType(list)))
    {
      ListFits(list, row);
    }
    var row: ExportRow :| true;
    ListFits(list, row);
  }

  lemma {:induction false} ListIsSound(item: DataType, records: ExportRow -> seq<Record>, nullable: bool)
    requires !item.Plain? && forall row :: AllConform(records(row), FieldsOf(item))
    ensures Sound(ListPush(item, records)) && Serves(ListPush(item, records), item, nullable)
  {
  }

  lemma {:induction false} Suited(b: Builder, spec: Fields.Spec)
    requires forall row :: Suits(b, spec, row)
    ensures Sound(PushOf(b)) && Serves(PushOf(b), Fields.TypeOf(spec), spec.nullable)
  {
    var row: ExportRow :| true;
    assert Suits(b, spec, row);
    if b.List? {
      ListAlwaysFits(b.list);
      ListIsSound(ItemType(b.list), RecordsOf(b.list), spec.nullable);
    } else {
      forall row
        ensures KindOf(b.cell(row)) == b.kind && (spec.nullable || !IsNull(b.cell(row)))
      {
        assert Suits(b, spec, row);
      }
    }
  }

  /**
   Each of the 75 builders appends only what it is declared for, and is pushed at the place of a
   schema field of its type; a field that must not be null never is; and no name occurs twice.
   */
  lemma {:induction false} BuildersAgree()
    ensures AllSound(PushOrder()) && Agrees(PushOrder(), Fields.Schema())
  {
    Fields.NamesAreDistinct();
    var schema := Fields.Schema();
    forall k | 0 <= k < 75
      ensures Sound(PushOrder()[k]) && Serves(PushOrder()[k], schema[k].dataType, schema[k].nullable)
    {
      forall row
        ensures Suits(BuilderAt(k), Fields.SpecAt(k), row)
      {
        BuilderSuits(k, row);
      }
      Suited(BuilderAt(k), Fields.SpecAt(k));
    }
  }

  // ---------- Writing a batch ----------

  /** The batch of some rows. */
  function EncodeBatch(rows: seq<ExportRow>): RecordBatch {
    BuiltBatch(PushOrder(), Fields.Schema(), rows)
  }

  /** A Parquet file; `accepts` tells which writes the file system lets through, given all batches so far. */
  class ArrowWriter {
    const accepts: seq<RecordBatch> -> bool
    const closes: bool
    var batches: seq<RecordBatch>
    var closed: bool

    constructor (accepts: seq<RecordBatch> -> bool, closes: bool)
      ensures this.accepts == accepts && this.closes == closes
      ensures batches == [] && !closed
    {
      this.accepts := accepts;
      this.closes := closes;
      batches := [];
      closed := false;
    }

    method Write(batch: RecordBatch) returns (ok: bool)
      modifies this
      ensures ok == accepts(old(batches) + [batch]) && closed == old(closed)
      ensures batches == if ok then old(batches) + [batch] else old(batches)
    {
      ok := accepts(batches + [batch]);
      if ok {
        batches := batches + [batch];
      }
    }

    method Close() returns (ok: bool)
      modifies this
      ensures ok == closes && closed == (old(closed) || ok) && batches == old(batches)
    {
      ok := closes;
      closed := closed || ok;
    }
  }

  /** Building the batch never fails, so only the file can refuse it. */
  method WriteBatch(writer: ArrowWriter, rows: seq<ExportRow>) returns (ok: bool)
    modifies writer
    ensures ok == writer.accepts(old(writer.batches) + [EncodeBatch(rows)]) && writer.closed == old(writer.closed)
    ensures writer.batches == if ok then old(writer.batches) + [EncodeBatch(rows)] else old(writer.batches)
  {
    BuildersAgree();
    BatchIsAccepted(PushOrder(), Fields.Schema(), rows);
    var batch := BuildBatch(PushOrder(), Fields.Schema(), rows);
    ok := writer.Write(batch.value);
  }
}
