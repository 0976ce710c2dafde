/** Reading a Parquet file back, column by column name (src/export/parquet.rs, src/export/fields.rs). */
module ParquetReading {
  import opened Columns
  import opened ExportRows
  import opened Fields
  import opened RecordBatches
  import opened Sequences
  import opened Wrappers
  import Lists
  import Parquet
  import Text

  // ---------- What a field's column should hold ----------

  /** The value of a scalar field; counts are cut to 32 bits. */
  function FieldValue(id: Id, row: ExportRow): Cell {
    match id
    case Url => Str(Some(BuildUrl(row.main.finalDomain)))
    case InitialDomain => Str(Some(row.main.initialDomain))
    case FinalDomain => Str(Some(row.main.finalDomain))
    case InitialUrl => Str(row.main.initialUrl)
    case FinalUrl => Str(row.main.finalUrl)
    case IpAddress => Str(Some(row.main.ipAddress))
    case ReverseDns => Str(row.main.reverseDns)
    case Status => I32(Some(row.main.status))
    case StatusDescription => Str(Some(row.main.statusDesc))
    case ResponseTimeMs => F64(Some(row.main.responseTime))
    case Title => Str(Some(row.main.title))
    case Description => Str(row.main.description)
    case MetaRobots => Str(row.main.metaRobots)
    case BodySha256 => Str(row.main.bodySha256)
    case ContentLength => I64(row.main.contentLength)
    case HttpVersion => Str(row.main.httpVersion)
    case ContentType => Str(row.main.contentType)
    case CanonicalUrl => Str(row.main.canonicalUrl)
    case BodyTruncated => Flag(Some(row.main.bodyTruncated))
    case RedirectCount => I32(Some(Parquet.AsI32(row.redirectCount)))
    case FinalRedirectUrl => Str(Some(row.finalRedirectUrl))
    case TechnologyCount => I32(Some(Parquet.AsI32(row.technologyCount)))
    case TlsVersion => Str(row.main.tlsVersion)
    case SslCertSubject => Str(row.main.sslCertSubject)
    case SslCertIssuer => Str(row.main.sslCertIssuer)
    case SslCertValidTo => I64(row.main.sslCertValidToMs)
    case CipherSuite => Str(row.main.cipherSuite)
    case KeyAlgorithm => Str(row.main.keyAlgorithm)
    case CertFingerprintSha256 => Str(row.main.certFingerprintSha256)
    case SpfRecord => Str(row.main.spfRecord)
    case DmarcRecord => Str(row.main.dmarcRecord)
    case MtaStsRecord => Str(row.main.mtaStsRecord)
    case TlsRptRecord => Str(row.main.tlsRptRecord)
    case BimiRecord => Str(row.main.bimiRecord)
    case HstsMaxAge => I64(row.main.hstsMaxAge)
    case HstsIncludeSubdomains => Flag(row.main.hstsIncludeSubdomains)
    case HstsPreload => Flag(row.main.hstsPreload)
    case CdnProvider => Str(row.main.cdnProvider)
    case GeoipCountryCode => Str(row.geoip.countryCode)
    case GeoipCountryName => Str(row.geoip.countryName)
    case GeoipRegion => Str(row.geoip.region)
    case GeoipCity => Str(row.geoip.city)
    case GeoipLatitude => F64(row.geoip.latitude)
    case GeoipLongitude => F64(row.geoip.longitude)
    case GeoipAsn => I64(row.geoip.asn)
    case GeoipAsnOrg => Str(row.geoip.asnOrg)
    case WhoisRegistrar => Str(row.whois.registrar)
    case WhoisCreationDate => I64(row.whois.creationDateMs)
    case WhoisExpirationDate => I64(row.whois.expirationDateMs)
    case WhoisRegistrantCountry => Str(row.whois.registrantCountry)
    case FaviconHash => I32(row.faviconHash)
    case FaviconUrl => Str(row.faviconUrl)
    case ContactLinkCount => I32(Some(Parquet.AsI32(row.contactLinkCount)))
    case ExposedSecretCount => I32(Some(Parquet.AsI32(row.exposedSecretCount)))
    case Timestamp => I64(Some(row.main.timestamp))
    case RunId => Str(row.main.runId)
    case _ => Str(None)
  }

  /** The list of a list field. */
  function FieldList(id: Id): Option<ListColumn> {
    match id
    case RedirectChain => Some(ListColumn.RedirectChain) case Technologies => Some(ListColumn.Technologies)
    case CertificateSans => Some(ListColumn.CertificateSans) case Oids => Some(ListColumn.Oids)
    case CnameRecords => Some(ListColumn.CnameRecords) case Ipv6Addresses => Some(ListColumn.Ipv6Addresses)
    case CaaRecords => Some(ListColumn.CaaRecords) case ScriptHosts => Some(ListColumn.ScriptHosts)
    case Nameservers => Some(ListColumn.Nameservers) case TxtRecords => Some(ListColumn.TxtRecords)
    case MxRecords => Some(ListColumn.MxRecords) case AnalyticsIds => Some(ListColumn.AnalyticsIds)
    case SocialMediaLinks => Some(ListColumn.SocialMediaLinks)
    case StructuredDataEntries => Some(ListColumn.StructuredDataEntries)
    case HttpHeaders => Some(ListColumn.HttpHeaders) case SecurityHeaders => Some(ListColumn.SecurityHeaders)
    case PartialFailures => Some(ListColumn.PartialFailures) case ContactLinks => Some(ListColumn.ContactLinks)
    case ExposedSecrets => Some(ListColumn.ExposedSecrets)
    case _ => None
  }

  function CellOf(b: Parquet.Builder, row: ExportRow): Cell {
    if b.Scalar? then b.cell(row) else Str(None)
  }

  function ListOf(b: Parquet.Builder): Option<ListColumn> {
    if b.List? then Some(b.list) else None
  }

  /** A builder gets a field's value in a row, or its list. */
  predicate Gets(b: Parquet.Builder, id: Id, row: ExportRow) {
    ListOf(b) == FieldList(id) && CellOf(b, row) == FieldValue(id, row)
  }

  ghost predicate AllGet(builders: Parquet.Builders, place: Places) {
    forall id, row :: place(id) < 15 ==> Gets(builders(place(id)), id, row)
  }

  lemma {:induction false} FirstGet()
    ensures AllGet(Parquet.FirstPush, PlaceInFirst)
  {
    forall id, row | PlaceInFirst(id) < 15
      ensures Gets(Parquet.FirstPush(PlaceInFirst(id)), id, row)
    {
      match id
      case Url => case InitialDomain => case FinalDomain => case InitialUrl => case FinalUrl =>
      case IpAddress => case ReverseDns => case Status => case StatusDescription => case ResponseTimeMs =>
      case Title => case Description => case MetaRobots => case BodySha256 => case ContentLength => case _ =>
    }
  }

  lemma {:induction false} SecondGet()
    ensures AllGet(Parquet.SecondPush, PlaceInSecond)
  {
    forall id, row | PlaceInSecond(id) < 15
      ensures Gets(Parquet.SecondPush(PlaceInSecond(id)), id, row)
    {
      match id
      case HttpVersion => case ContentType => case CanonicalUrl => case BodyTruncated =>
      case RedirectCount => case FinalRedirectUrl => case RedirectChain => case TechnologyCount =>
      case Technologies => case TlsVersion => case SslCertSubject => case SslCertIssuer =>
      case SslCertValidTo => case CipherSuite => case KeyAlgorithm => case _ =>
    }
  }

  lemma {:induction false} ThirdGet()
    ensures AllGet(Parquet.ThirdPush, PlaceInThird)
  {
    forall id, row | PlaceInThird(id) < 15
      ensures Gets(Parquet.ThirdPush(PlaceInThird(id)), id, row)
    {
      match id
      case CertFingerprintSha256 => case CertificateSans => case Oids => case CnameRecords =>
      case Ipv6Addresses => case CaaRecords => case SpfRecord => case DmarcRecord => case MtaStsRecord =>
      case TlsRptRecord => case BimiRecord => case HstsMaxAge => case HstsIncludeSubdomains =>
      case HstsPreload => case CdnProvider => case _ =>
    }
  }

  lemma {:induction false} FourthGet()
    ensures AllGet(Parquet.FourthPush, PlaceInFourth)
  {
    forall id, row | PlaceInFourth(id) < 15
      ensures Gets(Parquet.FourthPush(PlaceInFourth(id)), id, row)
    {
      match id
      case ScriptHosts => case Nameservers => case TxtRecords => case MxRecords => case AnalyticsIds =>
      case SocialMediaLinks => case StructuredDataEntries => case HttpHeaders => case SecurityHeaders =>
      case PartialFailures => case GeoipCountryCode => case GeoipCountryName => case GeoipRegion =>
      case GeoipCity => case GeoipLatitude => case _ =>
    }
  }

  lemma {:induction false} FifthGet()
    ensures AllGet(Parquet.FifthPush, PlaceInFifth)
  {
    forall id, row | PlaceInFifth(id) < 15
      ensures Gets(Parquet.FifthPush(PlaceInFifth(id)), id, row)
    {
      match id
      case GeoipLongitude => case GeoipAsn => case GeoipAsnOrg => case WhoisRegistrar =>
      case WhoisCreationDate => case WhoisExpirationDate => case WhoisRegistrantCountry => case FaviconHash =>
      case FaviconUrl => case ContactLinkCount => case ContactLinks => case ExposedSecretCount =>
      case ExposedSecrets => case Timestamp => case RunId => case _ =>
    }
  }

  /** What five tables hold at a place, read off the places in each. */
  lemma {:induction false} AtPlace<T>(a: nat -> T, b: nat -> T, c: nat -> T, d: nat -> T, e: nat -> T,
                                      p: Places, q: Places, r: Places, s: Places, t: Places, id: Id)
    ensures At(a, b, c, d, e, PlaceAmong(p, q, r, s, t, id))
            == if p(id) < 15 then a(p(id)) else if q(id) < 15 then b(q(id)) else if r(id) < 15 then c(r(id))
               else if s(id) < 15 then d(s(id)) else e(t(id))
  {
  }

  lemma {:induction false} GetIn(builders: Parquet.Builders, place: Places, id: Id, row: ExportRow)
    requires AllGet(builders, place) && place(id) < 15
    ensures Gets(builders(place(id)), id, row)
  {
  }

  /** The builder pushed at a field's place gets that field. */
  lemma {:induction false} BuilderGets(id: Id, row: ExportRow)
    ensures Gets(Parquet.BuilderAt(PlaceOfField(id)), id, row)
  {
    AtPlace(Parquet.FirstPush, Parquet.SecondPush, Parquet.ThirdPush, Parquet.FourthPush, Parquet.FifthPush,
            PlaceInFirst, PlaceInSecond, PlaceInThird, PlaceInFourth, PlaceInFifth, id);
    OneStretch(id);
    if PlaceInFirst(id) < 15 {
      FirstGet();
      GetIn(Parquet.FirstPush, PlaceInFirst, id, row);
    } else if PlaceInSecond(id) < 15 {
      SecondGet();
      GetIn(Parquet.SecondPush, PlaceInSecond, id, row);
    } else if PlaceInThird(id) < 15 {
      ThirdGet();
      GetIn(Parquet.ThirdPush, PlaceInThird, id, row);
    } else if PlaceInFourth(id) < 15 {
      FourthGet();
      GetIn(Parquet.FourthPush, PlaceInFourth, id, row);
    } else {
      FifthGet();
      GetIn(Parquet.FifthPush, PlaceInFifth, id, row);
    }
  }

  /** The push order and the schema order agree: at each place the builder gets the field whose name stands there. */
  lemma {:induction false} OrdersAgree(k: nat, row: ExportRow)
    requires k < 75
    ensures Gets(Parquet.BuilderAt(k), FieldAt(k), row)
  {
    PlaceOfFieldAt(k);
    BuilderGets(FieldAt(k), row);
  }

  /** The records of a list field. */
  function FieldRecords(id: Id, row: ExportRow): seq<Record> {
    match FieldList(id)
    case Some(list) => Parquet.RecordsFor(list, row)
    case None => []
  }

  lemma {:induction false} PushedGets(b: Parquet.Builder, id: Id, row: ExportRow)
    requires Gets(b, id, row)
    ensures var push := Parquet.PushOf(b);
            && (if push.CellPush? then push.cell(row) else Str(None)) == FieldValue(id, row)
            && (if push.ListPush? then push.records(row) else []) == FieldRecords(id, row)
  {
    assert CellOf(b, row) == FieldValue(id, row);
  }

  /** Under a field's name, a batch holds that field's value or list of every row. */
  lemma {:induction false} FieldReads(rows: seq<ExportRow>, id: Id, i: nat)
    requires i < |rows|
    ensures var batch := Parquet.EncodeBatch(rows);
            && Readable(batch)
            && ReadCell(batch, NameOf(id), i) == FieldValue(id, rows[i])
            && ReadList(batch, NameOf(id), i) == FieldRecords(id, rows[i])
  {
    var k := PlaceOfField(id);
    FieldAtPlace(id);
    BuilderGets(id, rows[i]);
    Parquet.BuildersAgree();
    BatchRoundTrip(Parquet.PushOrder(), Schema(), rows, k, i);
    PushedGets(Parquet.BuilderAt(k), id, rows[i]);
  }

  // ---------- Typed records ----------

  function TextOf(cell: Cell): string {
    if cell.Str? && cell.text.Some? then cell.text.value else ""
  }

  function OptTextOf(cell: Cell): Option<string> {
    if cell.Str? then cell.text else None
  }

  function OptNumberOf(cell: Cell): Option<int> {
    if cell.I64? then cell.number else None
  }

  function NumberOf(cell: Cell): int {
    if OptNumberOf(cell).Some? then OptNumberOf(cell).value else 0
  }

  function FlagOf(cell: Cell): bool {
    cell == Flag(Some(true))
  }

  function RedirectFrom(r: Record): RedirectEntry {
    RedirectEntry(TextOf(CellAt(r, 0)), NumberOf(CellAt(r, 1)), None)
  }

  function TechnologyFrom(r: Record): Technology {
    Technology(TextOf(CellAt(r, 0)), OptTextOf(CellAt(r, 1)), OptTextOf(CellAt(r, 2)), FlagOf(CellAt(r, 3)),
               OptTextOf(CellAt(r, 4)))
  }

  function TextFrom(r: Record): string {
    TextOf(CellAt(r, 0))
  }

  function CaaFrom(r: Record): CaaRecord {
    CaaRecord(NumberOf(CellAt(r, 0)), TextOf(CellAt(r, 1)), TextOf(CellAt(r, 2)))
  }

  function ScriptHostFrom(r: Record): ScriptHostRecord {
    ScriptHostRecord(TextOf(CellAt(r, 0)), OptTextOf(CellAt(r, 1)), FlagOf(CellAt(r, 2)))
  }

  function NamedFrom(r: Record): NamedValue {
    NamedValue(TextOf(CellAt(r, 0)), TextOf(CellAt(r, 1)))
  }

  function MxFrom(r: Record): MxRecord {
    MxRecord(NumberOf(CellAt(r, 0)), TextOf(CellAt(r, 1)))
  }

  function SocialFrom(r: Record): SocialMediaLink {
    SocialMediaLink(TextOf(CellAt(r, 0)), TextOf(CellAt(r, 1)), OptTextOf(CellAt(r, 2)))
  }

  function StructuredFrom(r: Record): StructuredDataEntry {
    StructuredDataEntry(TextOf(CellAt(r, 0)), TextOf(CellAt(r, 1)), TextOf(CellAt(r, 2)))
  }

  function SecretFrom(r: Record): ExposedSecret {
    ExposedSecret(TextOf(CellAt(r, 0)), TextOf(CellAt(r, 1)), TextOf(CellAt(r, 2)), TextOf(CellAt(r, 3)),
                  OptTextOf(CellAt(r, 4)), OptTextOf(CellAt(r, 5)), OptTextOf(CellAt(r, 6)), OptTextOf(CellAt(r, 7)),
                  OptTextOf(CellAt(r, 8)), OptNumberOf(CellAt(r, 9)), OptNumberOf(CellAt(r, 10)),
                  OptTextOf(CellAt(r, 11)), OptTextOf(CellAt(r, 12)))
  }

  function Items<T>(from: Record -> T, records: seq<Record>): seq<T> {
    seq(|records|, i requires 0 <= i < |records| => from(records[i]))
  }

  lemma {:induction false} ItemsOfRecords<T>(cells: T -> Record, from: Record -> T, items: seq<T>)
    requires forall x :: from(cells(x)) == x
    ensures Items(from, Records(cells, items)) == items
  {
  }

  // ---------- Rows ----------

  /** The lists of a row, typed. */
  datatype ListRow = ListRow(
    redirects: seq<RedirectEntry>, technologies: seq<Technology>, certificateSansStr: string, oidsStr: string,
    cnameRecords: seq<string>, ipv6Addresses: seq<string>, caaRecords: seq<CaaRecord>,
    scriptHosts: seq<ScriptHostRecord>, nameservers: seq<string>, txtRecords: seq<NamedValue>,
    mxRecords: seq<MxRecord>, analyticsIds: seq<NamedValue>, socialMediaLinks: seq<SocialMediaLink>,
    structuredDataEntries: seq<StructuredDataEntry>, allHttpHeaders: seq<NamedValue>,
    allSecurityHeaders: seq<NamedValue>, partialFailures: seq<NamedValue>, contactLinks: seq<NamedValue>,
    exposedSecrets: seq<ExposedSecret>)

  function ListRowFrom(lists: ListColumn -> seq<Record>): ListRow {
    ListRow(
      Items(RedirectFrom, lists(ListColumn.RedirectChain)),
      Items(TechnologyFrom, lists(ListColumn.Technologies)),
      Text.Join(Items(TextFrom, lists(ListColumn.CertificateSans)), ","),
      Text.Join(Items(TextFrom, lists(ListColumn.Oids)), ","),
      Items(TextFrom, lists(ListColumn.CnameRecords)),
      Items(TextFrom, lists(ListColumn.Ipv6Addresses)),
      Items(CaaFrom, lists(ListColumn.CaaRecords)),
      Items(ScriptHostFrom, lists(ListColumn.ScriptHosts)),
      Items(TextFrom, lists(ListColumn.Nameservers)),
      Items(NamedFrom, lists(ListColumn.TxtRecords)),
      Items(MxFrom, lists(ListColumn.MxRecords)),
      Items(NamedFrom, lists(ListColumn.AnalyticsIds)),
      Items(SocialFrom, lists(ListColumn.SocialMediaLinks)),
      Items(StructuredFrom, lists(ListColumn.StructuredDataEntries)),
      Items(NamedFrom, lists(ListColumn.HttpHeaders)),
      Items(NamedFrom, lists(ListColumn.SecurityHeaders)),
      Items(NamedFrom, lists(ListColumn.PartialFailures)),
      Items(NamedFrom, lists(ListColumn.ContactLinks)),
      Items(SecretFrom, lists(ListColumn.ExposedSecrets)))
  }

  function WithoutStatus(redirects: seq<RedirectEntry>): seq<RedirectEntry> {
    seq(|redirects|, i requires 0 <= i < |redirects| => redirects[i].(httpStatus := None))
  }

  /** The lists of a row as a file keeps them: without the statuses of redirects. */
  function ListRowOf(row: ExportRow): ListRow {
    ListRow(
      WithoutStatus(row.redirects), row.technologies, row.certificateSansStr, row.oidsStr, row.cnameRecords,
      row.ipv6Addresses, row.caaRecords, row.scriptHosts, row.nameservers, row.txtRecords, row.mxRecords,
      row.analyticsIds, row.socialMediaLinks, row.structuredDataEntries, row.allHttpHeaders,
      row.allSecurityHeaders, row.partialFailures, row.contactLinks, row.exposedSecrets)
  }

  function ListsOfRow(row: ExportRow): ListColumn -> seq<Record> {
    (list: ListColumn) => Parquet.RecordsFor(list, row)
  }

  lemma {:induction false} RedirectsRead(redirects: seq<RedirectEntry>)
    ensures Items(RedirectFrom, Records(Parquet.RedirectCells, redirects)) == WithoutStatus(redirects)
  {
    forall i | 0 <= i < |redirects|
      ensures Items(RedirectFrom, Records(Parquet.RedirectCells, redirects))[i] == WithoutStatus(redirects)[i]
    {
      assert RedirectFrom(Parquet.RedirectCells(redirects[i])) == redirects[i].(httpStatus := None);
    }
  }

  lemma {:induction false} TextListsRead(row: ExportRow)
    ensures Items(TextFrom, Parquet.RecordsFor(ListColumn.CnameRecords, row)) == row.cnameRecords
    ensures Items(TextFrom, Parquet.RecordsFor(ListColumn.Ipv6Addresses, row)) == row.ipv6Addresses
    ensures Items(TextFrom, Parquet.RecordsFor(ListColumn.Nameservers, row)) == row.nameservers
  {
    ItemsOfRecords(Parquet.TextCells, TextFrom, row.cnameRecords);
    ItemsOfRecords(Parquet.TextCells, TextFrom, row.ipv6Addresses);
    ItemsOfRecords(Parquet.TextCells, TextFrom, row.nameservers);
  }

  lemma {:induction false} NamedListsRead(row: ExportRow)
    ensures Items(NamedFrom, Parquet.RecordsFor(ListColumn.TxtRecords, row)) == row.txtRecords
    ensures Items(NamedFrom, Parquet.RecordsFor(ListColumn.AnalyticsIds, row)) == row.analyticsIds
    ensures Items(NamedFrom, Parquet.RecordsFor(ListColumn.HttpHeaders, row)) == row.allHttpHeaders
  {
    ItemsOfRecords(Parquet.NamedCells, NamedFrom, row.txtRecords);
    ItemsOfRecords(Parquet.NamedCells, NamedFrom, row.analyticsIds);
    ItemsOfRecords(Parquet.NamedCells, NamedFrom, row.allHttpHeaders);
  }

  lemma {:induction false} MoreNamedListsRead(row: ExportRow)
    ensures Items(NamedFrom, Parquet.RecordsFor(ListColumn.SecurityHeaders, row)) == row.allSecurityHeaders
    ensures Items(NamedFrom, Parquet.RecordsFor(ListColumn.PartialFailures, row)) == row.partialFailures
    ensures Items(NamedFrom, Parquet.RecordsFor(ListColumn.ContactLinks, row)) == row.contactLinks
  {
    ItemsOfRecords(Parquet.NamedCells, NamedFrom, row.allSecurityHeaders);
    ItemsOfRecords(Parquet.NamedCells, NamedFrom, row.partialFailures);
    ItemsOfRecords(Parquet.NamedCells, NamedFrom, row.contactLinks);
  }

  lemma {:induction false} DnsListsRead(row: ExportRow)
    ensures Items(CaaFrom, Parquet.RecordsFor(ListColumn.CaaRecords, row)) == row.caaRecords
    ensures Items(MxFrom, Parquet.RecordsFor(ListColumn.MxRecords, row)) == row.mxRecords
  {
    ItemsOfRecords(Parquet.CaaCells, CaaFrom, row.caaRecords);
    ItemsOfRecords(Parquet.MxCells, MxFrom, row.mxRecords);
  }

  lemma {:induction false} PageListsRead(row: ExportRow)
    ensures Items(TechnologyFrom, Parquet.RecordsFor(ListColumn.Technologies, row)) == row.technologies
    ensures Items(ScriptHostFrom, Parquet.RecordsFor(ListColumn.ScriptHosts, row)) == row.scriptHosts
  {
    ItemsOfRecords(Parquet.TechnologyCells, TechnologyFrom, row.technologies);
    ItemsOfRecords(Parquet.ScriptHostCells, ScriptHostFrom, row.scriptHosts);
  }

  lemma {:induction false} LinkListsRead(row: ExportRow)
    ensures Items(SocialFrom, Parquet.RecordsFor(ListColumn.SocialMediaLinks, row)) == row.socialMediaLinks
    ensures Items(StructuredFrom, Parquet.RecordsFor(ListColumn.StructuredDataEntries, row))
            == row.structuredDataEntries
  {
    ItemsOfRecords(Parquet.SocialCells, SocialFrom, row.socialMediaLinks);
    ItemsOfRecords(Parquet.StructuredCells, StructuredFrom, row.structuredDataEntries);
  }

  lemma {:induction false} SecretListRead(row: ExportRow)
    ensures Items(SecretFrom, Parquet.RecordsFor(ListColumn.ExposedSecrets, row)) == row.exposedSecrets
  {
    ItemsOfRecords(Parquet.SecretCells, SecretFrom, row.exposedSecrets);
  }

  lemma {:induction false} ParsedListsRead(row: ExportRow)
    ensures Text.Join(Items(TextFrom, Parquet.RecordsFor(ListColumn.CertificateSans, row)), ",")
            == row.certificateSansStr
    ensures Text.Join(Items(TextFrom, Parquet.RecordsFor(ListColumn.Oids, row)), ",") == row.oidsStr
  {
    ItemsOfRecords(Parquet.TextCells, TextFrom, Lists.ParseStringList(row.certificateSansStr));
    ItemsOfRecords(Parquet.TextCells, TextFrom, Lists.ParseStringList(row.oidsStr));
    Lists.JoinOfParse(row.certificateSansStr);
    Lists.JoinOfParse(row.oidsStr);
  }

  lemma {:induction false} ListRowRead(row: ExportRow)
    ensures ListRowFrom(ListsOfRow(row)) == ListRowOf(row)
  {
    RedirectsRead(row.redirects);
    ParsedListsRead(row);
    TextListsRead(row);
    NamedListsRead(row);
    MoreNamedListsRead(row);
    DnsListsRead(row);
    PageListsRead(row);
    LinkListsRead(row);
    SecretListRead(row);
  }

  /** The field of a list column. */
  function IdOf(list: ListColumn): Id {
    match list
    case RedirectChain => Id.RedirectChain case Technologies => Id.Technologies
    case CertificateSans => Id.CertificateSans case Oids => Id.Oids case CnameRecords => Id.CnameRecords
    case Ipv6Addresses => Id.Ipv6Addresses case CaaRecords => Id.CaaRecords case ScriptHosts => Id.ScriptHosts
    case Nameservers => Id.Nameservers case TxtRecords => Id.TxtRecords case MxRecords => Id.MxRecords
    case AnalyticsIds => Id.AnalyticsIds case SocialMediaLinks => Id.SocialMediaLinks
    case StructuredDataEntries => Id.StructuredDataEntries case HttpHeaders => Id.HttpHeaders
    case SecurityHeaders => Id.SecurityHeaders case PartialFailures => Id.PartialFailures
    case ContactLinks => Id.ContactLinks case ExposedSecrets => Id.ExposedSecrets
  }

  lemma {:induction false} FirstListOfId(list: ListColumn)
    requires list.RedirectChain? || list.Technologies? || list.CertificateSans? || list.Oids? || list.CnameRecords? ||
             list.Ipv6Addresses? || list.CaaRecords?
    ensures FieldList(IdOf(list)) == Some(list)
  {
    match list
    case RedirectChain => case Technologies => case CertificateSans => case Oids => case CnameRecords =>
    case Ipv6Addresses => case CaaRecords => case _ =>
  }

  lemma {:induction false} SecondListOfId(list: ListColumn)
    requires list.ScriptHosts? || list.Nameservers? || list.TxtRecords? || list.MxRecords? || list.AnalyticsIds? ||
             list.SocialMediaLinks?
    ensures FieldList(IdOf(list)) == Some(list)
  {
    match list
    case ScriptHosts => case Nameservers => case TxtRecords => case MxRecords => case AnalyticsIds =>
    case SocialMediaLinks => case _ =>
  }

  lemma {:induction false} ThirdListOfId(list: ListColumn)
    requires list.StructuredDataEntries? || list.HttpHeaders? || list.SecurityHeaders? || list.PartialFailures? ||
             list.ContactLinks? || list.ExposedSecrets?
    ensures FieldList(IdOf(list)) == Some(list)
  {
    match list
    case StructuredDataEntries => case HttpHeaders => case SecurityHeaders => case PartialFailures =>
    case ContactLinks => case ExposedSecrets => case _ =>
  }

  lemma {:induction false} FieldListOfId(list: ListColumn)
    ensures FieldList(IdOf(list)) == Some(list)
  {
    match list
    case RedirectChain | Technologies | CertificateSans | Oids | CnameRecords | Ipv6Addresses | CaaRecords =>
      FirstListOfId(list);
    case ScriptHosts | Nameservers | TxtRecords | MxRecords | AnalyticsIds | SocialMediaLinks =>
      SecondListOfId(list);
    case _ =>
      ThirdListOfId(list);
  }

  /** What a reader makes of one row: a cell from each column, by name, and the lists in their types. */
  datatype ReadRow = ReadRow(cells: seq<Cell>, lists: ListRow)

  function ListsUnderNames(batch: RecordBatch, i: nat): ListColumn -> seq<Record>
    requires Readable(batch)
  {
    (list: ListColumn) => ReadList(batch, NameOf(IdOf(list)), i)
  }

  function CellsUnderNames(batch: RecordBatch, i: nat): seq<Cell> {
    seq(75, k requires 0 <= k < 75 => ReadCell(batch, NameOf(FieldAt(k)), i))
  }

  function RowIn(batch: RecordBatch, i: nat): ReadRow
    requires Readable(batch)
  {
    ReadRow(CellsUnderNames(batch, i), ListRowFrom(ListsUnderNames(batch, i)))
  }

  function CellsOfRow(row: ExportRow): seq<Cell> {
    seq(75, k requires 0 <= k < 75 => FieldValue(FieldAt(k), row))
  }

  /** What a file should tell of a row: the value of every field, and every list but for redirect statuses. */
  function Exported(row: ExportRow): ReadRow {
    ReadRow(CellsOfRow(row), ListRowOf(row))
  }

  lemma {:induction false} SameLists(v: ListColumn -> seq<Record>, w: ListColumn -> seq<Record>)
    requires forall list :: v(list) == w(list)
    ensures ListRowFrom(v) == ListRowFrom(w)
  {
  }

  lemma {:induction false} ListReads(rows: seq<ExportRow>, list: ListColumn, i: nat)
    requires i < |rows|
    ensures var batch := Parquet.EncodeBatch(rows);
            Readable(batch) && ReadList(batch, NameOf(IdOf(list)), i) == Parquet.RecordsFor(list, rows[i])
  {
    FieldReads(rows, IdOf(list), i);
    FieldListOfId(list);
  }

  lemma {:induction false} BatchIsReadable(rows: seq<ExportRow>)
    ensures Readable(Parquet.EncodeBatch(rows))
  {
    BuiltIsReadable(Parquet.PushOrder(), Schema(), rows);
  }

  /** Every row can be read back from its batch, by column names alone. */
  lemma {:induction false} TypedRoundTrip(rows: seq<ExportRow>, i: nat)
    requires i < |rows|
    ensures Readable(Parquet.EncodeBatch(rows))
    ensures RowIn(Parquet.EncodeBatch(rows), i) == Exported(rows[i])
  {
    BatchIsReadable(rows);
    CellsRead(rows, i);
    ListsRead(rows, i);
  }

  lemma {:induction false} CellsRead(rows: seq<ExportRow>, i: nat)
    requires i < |rows|
    ensures CellsUnderNames(Parquet.EncodeBatch(rows), i) == CellsOfRow(rows[i])
  {
    var batch := Parquet.EncodeBatch(rows);
    forall k | 0 <= k < 75
      ensures ReadCell(batch, NameOf(FieldAt(k)), i) == FieldValue(FieldAt(k), rows[i])
    {
      FieldReads(rows, FieldAt(k), i);
    }
  }

  lemma {:induction false} ListsRead(rows: seq<ExportRow>, i: nat)
    requires i < |rows| && Readable(Parquet.EncodeBatch(rows))
    ensures ListRowFrom(ListsUnderNames(Parquet.EncodeBatch(rows), i)) == ListRowOf(rows[i])
  {
    var batch := Parquet.EncodeBatch(rows);
    forall list
      ensures ListsUnderNames(batch, i)(list) == ListsOfRow(rows[i])(list)
    {
      ListReads(rows, list, i);
    }
    SameLists(ListsUnderNames(batch, i), ListsOfRow(rows[i]));
    ListRowRead(rows[i]);
  }

  lemma {:induction false} NamesInField(row: ExportRow)
    ensures Items(TextFrom, FieldRecords(Id.CertificateSans, row)) == Lists.ParseStringList(row.certificateSansStr)
  {
    ItemsOfRecords(Parquet.TextCells, TextFrom, Lists.ParseStringList(row.certificateSansStr));
  }

  /**
   A stored list of names is read from its column as it was, if and only if no name has a comma and
   it is not just one empty name.
   */
  lemma {:induction false} NameListReadsExactly(rows: seq<ExportRow>, i: nat, names: seq<string>)
    requires i < |rows| && rows[i].certificateSansStr == Lists.StringList(names).0
    ensures Readable(Parquet.EncodeBatch(rows))
    ensures Items(TextFrom, ReadList(Parquet.EncodeBatch(rows), NameOf(Id.CertificateSans), i)) == names
            <==> Lists.CommaFree(names) && names != [""]
  {
    FieldReads(rows, Id.CertificateSans, i);
    NamesInField(rows[i]);
    Lists.ParseOfJoinExactly(names);
  }

  // ---------- Agreement with the JSONL export ----------

  datatype Json = JNull | JText(text: string) | JNumber(number: int) | JReal(value: real) | JBool(flag: bool)

  function JOptText(text: Option<string>): Json {
    if text.Some? then JText(text.value) else JNull
  }

  function JOptNumber(number: Option<int>): Json {
    if number.Some? then JNumber(number.value) else JNull
  }

  function JOptBool(flag: Option<bool>): Json {
    if flag.Some? then JBool(flag.value) else JNull
  }

  function JsonOf(cell: Cell): Json {
    match cell
    case Str(text) => JOptText(text)
    case I32(number) => JOptNumber(number)
    case I64(number) => JOptNumber(number)
    case F64(value) => if value.Some? then JReal(value.value) else JNull
    case Flag(flag) => JOptBool(flag)
  }

  /** The flat JSONL value of a field, if it has one. */
  function FlatValue(id: Id, row: ExportRow): Option<Json> {
    match id
    case Url => Some(JText(BuildUrl(row.main.finalDomain)))
    case InitialDomain => Some(JText(row.main.initialDomain))
    case FinalDomain => Some(JText(row.main.finalDomain))
    case InitialUrl => Some(JOptText(row.main.initialUrl))
    case FinalUrl => Some(JOptText(row.main.finalUrl))
    case IpAddress => Some(JText(row.main.ipAddress))
    case ReverseDns => Some(JOptText(row.main.reverseDns))
    case Status => Some(JNumber(row.main.status))
    case StatusDescription => Some(JText(row.main.statusDesc))
    case ResponseTimeMs => Some(JReal(row.main.responseTime))
    case Title => Some(JText(row.main.title))
    case Description => Some(JOptText(row.main.description))
    case MetaRobots => Some(JOptText(row.main.metaRobots))
    case BodySha256 => Some(JOptText(row.main.bodySha256))
    case ContentLength => Some(JOptNumber(row.main.contentLength))
    case HttpVersion => Some(JOptText(row.main.httpVersion))
    case ContentType => Some(JOptText(row.main.contentType))
    case CanonicalUrl => Some(JOptText(row.main.canonicalUrl))
    case BodyTruncated => Some(JBool(row.main.bodyTruncated))
    case RedirectCount => Some(JNumber(row.redirectCount))
    case FinalRedirectUrl => Some(JText(row.finalRedirectUrl))
    case TechnologyCount => Some(JNumber(row.technologyCount))
    case SpfRecord => Some(JOptText(row.main.spfRecord))
    case DmarcRecord => Some(JOptText(row.main.dmarcRecord))
    case MtaStsRecord => Some(JOptText(row.main.mtaStsRecord))
    case TlsRptRecord => Some(JOptText(row.main.tlsRptRecord))
    case BimiRecord => Some(JOptText(row.main.bimiRecord))
    case HstsMaxAge => Some(JOptNumber(row.main.hstsMaxAge))
    case HstsIncludeSubdomains => Some(JOptBool(row.main.hstsIncludeSubdomains))
    case HstsPreload => Some(JOptBool(row.main.hstsPreload))
    case CdnProvider => Some(JOptText(row.main.cdnProvider))
    case ContactLinkCount => Some(JNumber(row.contactLinkCount))
    case ExposedSecretCount => Some(JNumber(row.exposedSecretCount))
    case Timestamp => Some(JNumber(row.main.timestamp))
    case RunId => Some(JOptText(row.main.runId))
    case _ => None
  }

  /** The counts among a row's fields. */
  function CountOf(id: Id, row: ExportRow): Option<int> {
    match id
    case RedirectCount => Some(row.redirectCount)
    case TechnologyCount => Some(row.technologyCount)
    case ContactLinkCount => Some(row.contactLinkCount)
    case ExposedSecretCount => Some(row.exposedSecretCount)
    case _ => None
  }

  predicate FitsI32(n: int) {
    -0x8000_0000 <= n < 0x8000_0000
  }

  lemma {:induction false} AsI32Exactly(n: int)
    ensures Parquet.AsI32(n) == n <==> FitsI32(n)
  {
  }

  predicate Agree(id: Id, row: ExportRow)
    requires FlatValue(id, row).Some?
  {
    JsonOf(FieldValue(id, row)) == FlatValue(id, row).value
  }

  predicate CountFits(id: Id, row: ExportRow) {
    CountOf(id, row).Some? ==> FitsI32(CountOf(id, row).value)
  }

  lemma {:induction false} FirstAgree(id: Id, row: ExportRow)
    requires PlaceInFirst(id) < 15 && FlatValue(id, row).Some?
    ensures Agree(id, row) <==> CountFits(id, row)
  {
    match id
    case Url => case InitialDomain => case FinalDomain => case InitialUrl => case FinalUrl =>
    case IpAddress => case ReverseDns => case Status => case StatusDescription => case ResponseTimeMs =>
    case Title => case Description => case MetaRobots => case BodySha256 => case ContentLength => case _ =>
  }

  lemma {:induction false} SecondAgree(id: Id, row: ExportRow)
    requires PlaceInSecond(id) < 15 && FlatValue(id, row).Some?
    ensures Agree(id, row) <==> CountFits(id, row)
  {
    AsI32Exactly(row.redirectCount);
    AsI32Exactly(row.technologyCount);
    match id
    case HttpVersion => case ContentType => case CanonicalUrl => case BodyTruncated =>
    case RedirectCount => case FinalRedirectUrl => case RedirectChain => case TechnologyCount =>
    case Technologies => case TlsVersion => case SslCertSubject => case SslCertIssuer =>
    case SslCertValidTo => case CipherSuite => case KeyAlgorithm => case _ =>
  }

  lemma {:induction false} ThirdAgree(id: Id, row: ExportRow)
    requires PlaceInThird(id) < 15 && FlatValue(id, row).Some?
    ensures Agree(id, row) <==> CountFits(id, row)
  {
    match id
    case CertFingerprintSha256 => case CertificateSans => case Oids => case CnameRecords =>
    case Ipv6Addresses => case CaaRecords => case SpfRecord => case DmarcRecord => case MtaStsRecord =>
    case TlsRptRecord => case BimiRecord => case HstsMaxAge => case HstsIncludeSubdomains =>
    case HstsPreload => case CdnProvider => case _ =>
  }

  lemma {:induction false} FourthHasNoFlatValue(id: Id, row: ExportRow)
    requires PlaceInFourth(id) < 15
    ensures FlatValue(id, row).None?
  {
    match id
    case ScriptHosts => case Nameservers => case TxtRecords => case MxRecords => case AnalyticsIds =>
    case SocialMediaLinks => case StructuredDataEntries => case HttpHeaders => case SecurityHeaders =>
    case PartialFailures => case GeoipCountryCode => case GeoipCountryName => case GeoipRegion =>
    case GeoipCity => case GeoipLatitude => case _ =>
  }

  lemma {:induction false} FifthAgree(id: Id, row: ExportRow)
    requires PlaceInFifth(id) < 15 && FlatValue(id, row).Some?
    ensures Agree(id, row) <==> CountFits(id, row)
  {
    AsI32Exactly(row.contactLinkCount);
    AsI32Exactly(row.exposedSecretCount);
    match id
    case GeoipLongitude => case GeoipAsn => case GeoipAsnOrg => case WhoisRegistrar =>
    case WhoisCreationDate => case WhoisExpirationDate => case WhoisRegistrantCountry => case FaviconHash =>
    case FaviconUrl => case ContactLinkCount => case ContactLinks => case ExposedSecretCount =>
    case ExposedSecrets => case Timestamp => case RunId => case _ =>
  }

  lemma {:induction false} AgreeExactly(id: Id, row: ExportRow)
    requires FlatValue(id, row).Some?
    ensures Agree(id, row) <==> CountFits(id, row)
  {
    OneStretch(id);
    if PlaceInFirst(id) < 15 {
      FirstAgree(id, row);
    } else if PlaceInSecond(id) < 15 {
      SecondAgree(id, row);
    } else if PlaceInThird(id) < 15 {
      ThirdAgree(id, row);
    } else if PlaceInFourth(id) < 15 {
      FourthHasNoFlatValue(id, row);
    } else {
      FifthAgree(id, row);
    }
  }

  lemma {:induction false} BuiltCountsFit(id: Id, row: ExportRow)
    requires IsBuilt(row)
    ensures CountFits(id, row)
  {
  }

  /** Under a field's name, a batch of built rows holds the field's flat JSONL value, if there is one. */
  lemma {:induction false} FormatsAgree(rows: seq<ExportRow>, id: Id, i: nat)
    requires i < |rows| && IsBuilt(rows[i]) && FlatValue(id, rows[i]).Some?
    ensures JsonOf(ReadCell(Parquet.EncodeBatch(rows), NameOf(id), i)) == FlatValue(id, rows[i]).value
  {
    FieldReads(rows, id, i);
    BuiltCountsFit(id, rows[i]);
    AgreeExactly(id, rows[i]);
  }

  // ---------- Columns that tell of each other ----------

  /** The cell that a reader has under each field's name. */
  function CellsByField(r: ReadRow): Id -> Cell
    requires |r.cells| == 75
  {
    (id: Id) =>
      FieldAtPlace(id);
      r.cells[PlaceOfField(id)]
  }

  /** The length that a count should have, read off the lists. */
  function LengthFor(id: Id, lists: ListRow): Option<int> {
    match id
    case RedirectCount => Some(|lists.redirects|)
    case TechnologyCount => Some(|lists.technologies|)
    case ContactLinkCount => Some(|lists.contactLinks|)
    case ExposedSecretCount => Some(|lists.exposedSecrets|)
    case _ => None
  }

  /** Counts are the lengths of the lists beside them, and the final redirect is the last one listed. */
  ghost predicate TellsOfLists(cells: Id -> Cell, lists: ListRow) {
    && (forall id :: LengthFor(id, lists).Some? ==> cells(id) == I32(LengthFor(id, lists)))
    && cells(FinalRedirectUrl) == Str(Some(LastRedirectUrl(lists.redirects)))
  }

  ghost predicate IsConsistent(r: ReadRow) {
    |r.cells| == 75 && TellsOfLists(CellsByField(r), r.lists)
  }

  lemma {:induction false} LastWithoutStatus(redirects: seq<RedirectEntry>)
    ensures |WithoutStatus(redirects)| == |redirects|
    ensures LastRedirectUrl(WithoutStatus(redirects)) == LastRedirectUrl(redirects)
  {
  }

  lemma {:induction false} CountReads(row: ExportRow, id: Id)
    requires IsBuilt(row) && LengthFor(id, ListRowOf(row)).Some?
    ensures FieldValue(id, row) == I32(LengthFor(id, ListRowOf(row)))
  {
    LastWithoutStatus(row.redirects);
    AsI32Exactly(CountOf(id, row).value);
  }

  lemma {:induction false} CountsRead(cells: Id -> Cell, row: ExportRow)
    requires IsBuilt(row) && forall id :: cells(id) == FieldValue(id, row)
    ensures TellsOfLists(cells, ListRowOf(row))
  {
    forall id | LengthFor(id, ListRowOf(row)).Some?
      ensures cells(id) == I32(LengthFor(id, ListRowOf(row)))
    {
      CountReads(row, id);
    }
    LastWithoutStatus(row.redirects);
  }

  /** What is read of a built row is consistent. */
  lemma {:induction false} BuiltIsConsistent(row: ExportRow)
    requires IsBuilt(row)
    ensures IsConsistent(Exported(row))
  {
    var cells := CellsByField(Exported(row));
    forall id
      ensures cells(id) == FieldValue(id, row)
    {
      FieldAtPlace(id);
    }
    CountsRead(cells, row);
  }
}
