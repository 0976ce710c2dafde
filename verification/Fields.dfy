/** The registry of export fields that have a Parquet column (src/export/fields.rs). */
module Fields {
  import opened Columns
  import opened RecordBatches
  import ExportRows
  import opened Sequences

  /** The fields with a Parquet column. */
  datatype Id =
    | Url | InitialDomain | FinalDomain | InitialUrl | FinalUrl | IpAddress | ReverseDns | Status
    | StatusDescription | ResponseTimeMs | Title | Description | MetaRobots | BodySha256 | ContentLength
    | HttpVersion | ContentType | CanonicalUrl | BodyTruncated | RedirectCount | FinalRedirectUrl
    | RedirectChain | TechnologyCount | Technologies | TlsVersion | SslCertSubject | SslCertIssuer
    | SslCertValidTo | CipherSuite | KeyAlgorithm | CertFingerprintSha256 | CertificateSans | Oids
    | CnameRecords | Ipv6Addresses | CaaRecords | SpfRecord | DmarcRecord | MtaStsRecord | TlsRptRecord
    | BimiRecord | HstsMaxAge | HstsIncludeSubdomains | HstsPreload | CdnProvider | ScriptHosts | Nameservers
    | TxtRecords | MxRecords | AnalyticsIds | SocialMediaLinks | StructuredDataEntries | HttpHeaders
    | SecurityHeaders | PartialFailures | GeoipCountryCode | GeoipCountryName | GeoipRegion | GeoipCity
    | GeoipLatitude | GeoipLongitude | GeoipAsn | GeoipAsnOrg | WhoisRegistrar | WhoisCreationDate
    | WhoisExpirationDate | WhoisRegistrantCountry | FaviconHash | FaviconUrl | ContactLinkCount | ContactLinks
    | ExposedSecretCount | ExposedSecrets | Timestamp | RunId

  // ---------- Column types ----------

  function ArrowRedirectChain(): DataType {
    Structs([Field("redirect_url", Utf8, false), Field("sequence_order", Int64, false)])
  }

  function ArrowTechnologies(): DataType {
    Structs([Field("name", Utf8, false), Field("version", Utf8, true), Field("category", Utf8, true),
             Field("is_implied", Boolean, false), Field("detection_source", Utf8, true)])
  }

  function ArrowCaaRecords(): DataType {
    Structs([Field("flag", Int64, false), Field("tag", Utf8, false), Field("value", Utf8, false)])
  }

  function ArrowTxtRecords(): DataType {
    Structs([Field("record_type", Utf8, false), Field("content", Utf8, false)])
  }

  function ArrowMxRecords(): DataType {
    Structs([Field("priority", Int64, false), Field("mail_exchange", Utf8, false)])
  }

  function ArrowScriptHosts(): DataType {
    Structs([Field("host", Utf8, false), Field("registrable_domain", Utf8, true),
             Field("is_first_party", Boolean, false)])
  }

  function ArrowAnalyticsIds(): DataType {
    Structs([Field("provider", Utf8, false), Field("tracking_id", Utf8, false)])
  }

  function ArrowSocialMediaLinks(): DataType {
    Structs([Field("platform", Utf8, false), Field("url", Utf8, false), Field("identifier", Utf8, true)])
  }

  function ArrowStructuredData(): DataType {
    Structs([Field("data_type", Utf8, false), Field("property_name", Utf8, false),
             Field("property_value", Utf8, false)])
  }

  function ArrowHttpHeaders(): DataType {
    Structs([Field("name", Utf8, false), Field("value", Utf8, false)])
  }

  function ArrowSecurityHeaders(): DataType {
    Structs([Field("name", Utf8, false), Field("value", Utf8, false)])
  }

  function ArrowPartialFailures(): DataType {
    Structs([Field("error_type", Utf8, false), Field("error_message", Utf8, false)])
  }

  function ArrowContactLinks(): DataType {
    Structs([Field("contact_type", Utf8, false), Field("contact_value", Utf8, false)])
  }

  function ArrowExposedSecrets(): DataType {
    Structs([Field("secret_type", Utf8, false), Field("matched_value", Utf8, false),
             Field("severity", Utf8, false), Field("location", Utf8, false), Field("context", Utf8, true),
             Field("jwt_algorithm", Utf8, true), Field("jwt_issuer", Utf8, true),
             Field("jwt_subject", Utf8, true), Field("jwt_audience", Utf8, true),
             Field("jwt_expiration_ms", Int64, true), Field("jwt_issued_at_ms", Int64, true),
             Field("jwt_header_json", Utf8, true), Field("jwt_payload_json", Utf8, true)])
  }

  function ArrowTextList(): DataType {
    Texts
  }

  function ArrowType(list: ExportRows.ListColumn): () -> DataType {
    match list
    case RedirectChain => ArrowRedirectChain
    case Technologies => ArrowTechnologies
    case CaaRecords => ArrowCaaRecords
    case ScriptHosts => ArrowScriptHosts
    case TxtRecords => ArrowTxtRecords
    case MxRecords => ArrowMxRecords
    case AnalyticsIds => ArrowAnalyticsIds
    case SocialMediaLinks => ArrowSocialMediaLinks
    case StructuredDataEntries => ArrowStructuredData
    case HttpHeaders => ArrowHttpHeaders
    case SecurityHeaders => ArrowSecurityHeaders
    case PartialFailures => ArrowPartialFailures
    case ContactLinks => ArrowContactLinks
    case ExposedSecrets => ArrowExposedSecrets
    case _ => ArrowTextList
  }

  /** The type of a list column. */
  function ListType(list: ExportRows.ListColumn): DataType {
    ArrowType(list)()
  }

  // ---------- The columns in order ----------

  // The 75 places are written in five stretches of fifteen, here and wherever something is given by place.

  function FirstField(j: nat): Id {
    match j
    case 0 => Url case 1 => InitialDomain case 2 => FinalDomain case 3 => InitialUrl case 4 => FinalUrl
    case 5 => IpAddress case 6 => ReverseDns case 7 => Status case 8 => StatusDescription case 9 => ResponseTimeMs
    case 10 => Title case 11 => Description case 12 => MetaRobots case 13 => BodySha256
    case _ => ContentLength
  }

  function SecondField(j: nat): Id {
    match j
    case 0 => HttpVersion case 1 => ContentType case 2 => CanonicalUrl case 3 => BodyTruncated
    case 4 => RedirectCount case 5 => FinalRedirectUrl case 6 => RedirectChain case 7 => TechnologyCount
    case 8 => Technologies case 9 => TlsVersion case 10 => SslCertSubject case 11 => SslCertIssuer
    case 12 => SslCertValidTo case 13 => CipherSuite
    case _ => KeyAlgorithm
  }

  function ThirdField(j: nat): Id {
    match j
    case 0 => CertFingerprintSha256 case 1 => CertificateSans case 2 => Oids case 3 => CnameRecords
    case 4 => Ipv6Addresses case 5 => CaaRecords case 6 => SpfRecord case 7 => DmarcRecord case 8 => MtaStsRecord
    case 9 => TlsRptRecord case 10 => BimiRecord case 11 => HstsMaxAge case 12 => HstsIncludeSubdomains
    case 13 => HstsPreload
    case _ => CdnProvider
  }

  function FourthField(j: nat): Id {
    match j
    case 0 => ScriptHosts case 1 => Nameservers case 2 => TxtRecords case 3 => MxRecords case 4 => AnalyticsIds
    case 5 => SocialMediaLinks case 6 => StructuredDataEntries case 7 => HttpHeaders case 8 => SecurityHeaders
    case 9 => PartialFailures case 10 => GeoipCountryCode case 11 => GeoipCountryName case 12 => GeoipRegion
    case 13 => GeoipCity
    case _ => GeoipLatitude
  }

  function FifthField(j: nat): Id {
    match j
    case 0 => GeoipLongitude case 1 => GeoipAsn case 2 => GeoipAsnOrg case 3 => WhoisRegistrar
    case 4 => WhoisCreationDate case 5 => WhoisExpirationDate case 6 => WhoisRegistrantCountry case 7 => FaviconHash
    case 8 => FaviconUrl case 9 => ContactLinkCount case 10 => ContactLinks case 11 => ExposedSecretCount
    case 12 => ExposedSecrets case 13 => Timestamp
    case _ => RunId
  }

  /** The field at each place of the Parquet column order. */
  function FieldAt(k: nat): Id {
    At(FirstField, SecondField, ThirdField, FourthField, FifthField, k)
  }

  /** A scalar column's kind, or the list it holds; and whether the column may hold nulls. */
  datatype Spec = ScalarField(kind: Kind, nullable: bool) | ListField(list: ExportRows.ListColumn, nullable: bool)

  function FirstSpec(j: nat): Spec {
    match j
    case 3 | 4 | 6 | 11 | 12 | 13 => ScalarField(Utf8, true)
    case 7 => ScalarField(Int32, false)
    case 9 => ScalarField(Float64, false)
    case 14 => ScalarField(Int64, true)
    case _ => ScalarField(Utf8, false)
  }

  function SecondSpec(j: nat): Spec {
    match j
    case 3 => ScalarField(Boolean, false)
    case 4 | 7 => ScalarField(Int32, false)
    case 5 => ScalarField(Utf8, false)
    case 6 => ListField(ExportRows.RedirectChain, false)
    case 8 => ListField(ExportRows.Technologies, false)
    case 12 => ScalarField(Int64, true)
    case _ => ScalarField(Utf8, true)
  }

  function ThirdSpec(j: nat): Spec {
    match j
    case 1 => ListField(ExportRows.CertificateSans, true)
    case 2 => ListField(ExportRows.Oids, true)
    case 3 => ListField(ExportRows.CnameRecords, true)
    case 4 => ListField(ExportRows.Ipv6Addresses, true)
    case 5 => ListField(ExportRows.CaaRecords, false)
    case 11 => ScalarField(Int64, true)
    case 12 | 13 => ScalarField(Boolean, true)
    case _ => ScalarField(Utf8, true)
  }

  function FourthSpec(j: nat): Spec {
    match j
    case 0 => ListField(ExportRows.ScriptHosts, false)
    case 1 => ListField(ExportRows.Nameservers, true)
    case 2 => ListField(ExportRows.TxtRecords, false)
    case 3 => ListField(ExportRows.MxRecords, false)
    case 4 => ListField(ExportRows.AnalyticsIds, false)
    case 5 => ListField(ExportRows.SocialMediaLinks, false)
    case 6 => ListField(ExportRows.StructuredDataEntries, false)
    case 7 => ListField(ExportRows.HttpHeaders, false)
    case 8 => ListField(ExportRows.SecurityHeaders, false)
    case 9 => ListField(ExportRows.PartialFailures, false)
    case 14 => ScalarField(Float64, true)
    case _ => ScalarField(Utf8, true)
  }

  function FifthSpec(j: nat): Spec {
    match j
    case 0 => ScalarField(Float64, true)
    case 1 | 4 | 5 => ScalarField(Int64, true)
    case 7 => ScalarField(Int32, true)
    case 9 | 11 => ScalarField(Int32, false)
    case 10 => ListField(ExportRows.ContactLinks, false)
    case 12 => ListField(ExportRows.ExposedSecrets, false)
    case 13 => ScalarField(Int64, false)
    case _ => ScalarField(Utf8, true)
  }

  function SpecAt(k: nat): Spec {
    At(FirstSpec, SecondSpec, ThirdSpec, FourthSpec, FifthSpec, k)
  }

  function PlaceInFirst(id: Id): nat {
    match id
    case Url => 0 case InitialDomain => 1 case FinalDomain => 2 case InitialUrl => 3 case FinalUrl => 4
    case IpAddress => 5 case ReverseDns => 6 case Status => 7 case StatusDescription => 8
    case ResponseTimeMs => 9 case Title => 10 case Description => 11 case MetaRobots => 12 case BodySha256 => 13
    case ContentLength => 14
    case _ => 15
  }

  function PlaceInSecond(id: Id): nat {
    match id
    case HttpVersion => 0 case ContentType => 1 case CanonicalUrl => 2 case BodyTruncated => 3
    case RedirectCount => 4 case FinalRedirectUrl => 5 case RedirectChain => 6 case TechnologyCount => 7
    case Technologies => 8 case TlsVersion => 9 case SslCertSubject => 10 case SslCertIssuer => 11
    case SslCertValidTo => 12 case CipherSuite => 13 case KeyAlgorithm => 14
    case _ => 15
  }

  function PlaceInThird(id: Id): nat {
    match id
    case CertFingerprintSha256 => 0 case CertificateSans => 1 case Oids => 2 case CnameRecords => 3
    case Ipv6Addresses => 4 case CaaRecords => 5 case SpfRecord => 6 case DmarcRecord => 7
    case MtaStsRecord => 8 case TlsRptRecord => 9 case BimiRecord => 10 case HstsMaxAge => 11
    case HstsIncludeSubdomains => 12 case HstsPreload => 13 case CdnProvider => 14
    case _ => 15
  }

  function PlaceInFourth(id: Id): nat {
    match id
    case ScriptHosts => 0 case Nameservers => 1 case TxtRecords => 2 case MxRecords => 3 case AnalyticsIds => 4
    case SocialMediaLinks => 5 case StructuredDataEntries => 6 case HttpHeaders => 7 case SecurityHeaders => 8
    case PartialFailures => 9 case GeoipCountryCode => 10 case GeoipCountryName => 11 case GeoipRegion => 12
    case GeoipCity => 13 case GeoipLatitude => 14
    case _ => 15
  }

  function PlaceInFifth(id: Id): nat {
    match id
    case GeoipLongitude => 0 case GeoipAsn => 1 case GeoipAsnOrg => 2 case WhoisRegistrar => 3
    case WhoisCreationDate => 4 case WhoisExpirationDate => 5 case WhoisRegistrantCountry => 6
    case FaviconHash => 7 case FaviconUrl => 8 case ContactLinkCount => 9 case ContactLinks => 10
    case ExposedSecretCount => 11 case ExposedSecrets => 12 case Timestamp => 13 case RunId => 14
    case _ => 15
  }

  type Places = Id -> nat

  /** The place that the first of five partial place functions gives to a field. */
  function PlaceAmong(a: Id -> nat, b: Id -> nat, c: Id -> nat, d: Id -> nat, e: Id -> nat, id: Id): nat {
    if a(id) < 15 then a(id) else if b(id) < 15 then 15 + b(id) else if c(id) < 15 then 30 + c(id)
    else if d(id) < 15 then 45 + d(id) else 60 + e(id)
  }

  /** The place of a field in that order. */
  function PlaceOfField(id: Id): nat {
    PlaceAmong(PlaceInFirst, PlaceInSecond, PlaceInThird, PlaceInFourth, PlaceInFifth, id)
  }

  // ---------- Column names ----------

  function FirstName(id: Id): string {
    match id
    case Url => "url" case InitialDomain => "initial_domain" case FinalDomain => "final_domain"
    case InitialUrl => "initial_url" case FinalUrl => "final_url" case IpAddress => "ip_address"
    case ReverseDns => "reverse_dns" case Status => "http_status" case StatusDescription => "http_status_text"
    case ResponseTimeMs => "response_time_seconds" case Title => "title" case Description => "description"
    case MetaRobots => "meta_robots" case BodySha256 => "body_sha256" case ContentLength => "content_length"
    case _ => ""
  }

  function SecondName(id: Id): string {
    match id
    case HttpVersion => "http_version" case ContentType => "content_type" case CanonicalUrl => "canonical_url"
    case BodyTruncated => "body_truncated" case RedirectCount => "redirect_count"
    case FinalRedirectUrl => "final_redirect_url" case RedirectChain => "redirect_chain"
    case TechnologyCount => "technology_count" case Technologies => "technologies"
    case TlsVersion => "tls_version" case SslCertSubject => "ssl_cert_subject"
    case SslCertIssuer => "ssl_cert_issuer" case SslCertValidTo => "ssl_cert_valid_to_ms"
    case CipherSuite => "cipher_suite" case KeyAlgorithm => "key_algorithm"
    case _ => ""
  }

  function ThirdName(id: Id): string {
    match id
    case CertFingerprintSha256 => "cert_fingerprint_sha256" case CertificateSans => "certificate_sans"
    case Oids => "certificate_oids" case CnameRecords => "cname_records" case Ipv6Addresses => "ipv6_addresses"
    case CaaRecords => "caa_records" case SpfRecord => "spf_record" case DmarcRecord => "dmarc_record"
    case MtaStsRecord => "mta_sts_record" case TlsRptRecord => "tls_rpt_record" case BimiRecord => "bimi_record"
    case HstsMaxAge => "hsts_max_age" case HstsIncludeSubdomains => "hsts_include_subdomains"
    case HstsPreload => "hsts_preload" case CdnProvider => "cdn_provider"
    case _ => ""
  }

  function FourthName(id: Id): string {
    match id
    case ScriptHosts => "script_hosts" case Nameservers => "nameservers" case TxtRecords => "txt_records"
    case MxRecords => "mx_records" case AnalyticsIds => "analytics_ids"
    case SocialMediaLinks => "social_media_links" case StructuredDataEntries => "structured_data"
    case HttpHeaders => "http_headers" case SecurityHeaders => "security_headers"
    case PartialFailures => "partial_failures" case GeoipCountryCode => "geoip_country_code"
    case GeoipCountryName => "geoip_country_name" case GeoipRegion => "geoip_region"
    case GeoipCity => "geoip_city" case GeoipLatitude => "geoip_latitude"
    case _ => ""
  }

  function FifthName(id: Id): string {
    match id
    case GeoipLongitude => "geoip_longitude" case GeoipAsn => "geoip_asn" case GeoipAsnOrg => "geoip_asn_org"
    case WhoisRegistrar => "whois_registrar" case WhoisCreationDate => "whois_creation_date_ms"
    case WhoisExpirationDate => "whois_expiration_date_ms"
    case WhoisRegistrantCountry => "whois_registrant_country" case FaviconHash => "favicon_hash"
    case FaviconUrl => "favicon_url" case ContactLinkCount => "contact_link_count"
    case ContactLinks => "contact_links" case ExposedSecretCount => "exposed_secret_count"
    case ExposedSecrets => "exposed_secrets" case Timestamp => "observed_at_ms" case RunId => "run_id"
    case _ => ""
  }

  /** What a field has in the first of five tables that it has a place in. */
  function Among<T>(a: Id -> T, b: Id -> T, c: Id -> T, d: Id -> T, e: Id -> T, p: Places, q: Places, r: Places,
                    s: Places, id: Id): T {
    if p(id) < 15 then a(id) else if q(id) < 15 then b(id) else if r(id) < 15 then c(id)
    else if s(id) < 15 then d(id) else e(id)
  }

  /** The name of a field's Parquet column. */
  function NameOf(id: Id): string {
    Among(FirstName, SecondName, ThirdName, FourthName, FifthName,
          PlaceInFirst, PlaceInSecond, PlaceInThird, PlaceInFourth, id)
  }

  function TypeOf(spec: Spec): DataType {
    match spec
    case ScalarField(kind, _) => Plain(kind)
    case ListField(list, _) => ListType(list)
  }

  function FieldSchema(id: Id, spec: Spec): SchemaField {
    SchemaField(NameOf(id), TypeOf(spec), spec.nullable)
  }

  /** The schema of a file. */
  function Schema(): (schema: seq<SchemaField>)
    ensures |schema| == 75
  {
    seq(75, k requires 0 <= k < 75 => FieldSchema(FieldAt(k), SpecAt(k)))
  }

  // ---------- No field and no name occurs twice ----------

  lemma {:induction false} OneStretch(id: Id)
    ensures || PlaceInFirst(id) < 15 || PlaceInSecond(id) < 15 || PlaceInThird(id) < 15
            || PlaceInFourth(id) < 15 || PlaceInFifth(id) < 15
    ensures PlaceInFirst(id) < 15 ==>
              PlaceInSecond(id) == PlaceInThird(id) == PlaceInFourth(id) == PlaceInFifth(id) == 15
    ensures PlaceInSecond(id) < 15 ==> PlaceInThird(id) == PlaceInFourth(id) == PlaceInFifth(id) == 15
    ensures PlaceInThird(id) < 15 ==> PlaceInFourth(id) == PlaceInFifth(id) == 15
    ensures PlaceInFourth(id) < 15 ==> PlaceInFifth(id) == 15
  {
  }

  lemma {:induction false} InFirst(id: Id)
    requires PlaceInFirst(id) < 15
    ensures FirstField(PlaceInFirst(id)) == id
  {
    match id
    case Url => case InitialDomain => case FinalDomain => case InitialUrl => case FinalUrl =>
    case IpAddress => case ReverseDns => case Status => case StatusDescription => case ResponseTimeMs =>
    case Title => case Description => case MetaRobots => case BodySha256 => case ContentLength => case _ =>
  }

  lemma {:induction false} PlaceOfFirst(j: nat)
    requires j < 15
    ensures PlaceInFirst(FirstField(j)) == j
  {
    match j
    case 0 => case 1 => case 2 => case 3 => case 4 => case 5 => case 6 => case 7 => case 8 =>
    case 9 => case 10 => case 11 => case 12 => case 13 => case 14 =>
  }

  lemma {:induction false} InSecond(id: Id)
    requires PlaceInSecond(id) < 15
    ensures SecondField(PlaceInSecond(id)) == id
  {
    match id
    case HttpVersion => case ContentType => case CanonicalUrl => case BodyTruncated =>
    case RedirectCount => case FinalRedirectUrl => case RedirectChain => case TechnologyCount =>
    case Technologies => case TlsVersion => case SslCertSubject => case SslCertIssuer =>
    case SslCertValidTo => case CipherSuite => case KeyAlgorithm => case _ =>
  }

  lemma {:induction false} PlaceOfSecond(j: nat)
    requires j < 15
    ensures PlaceInSecond(SecondField(j)) == j
  {
    match j
    case 0 => case 1 => case 2 => case 3 => case 4 => case 5 => case 6 => case 7 => case 8 =>
    case 9 => case 10 => case 11 => case 12 => case 13 => case 14 =>
  }

  lemma {:induction false} InThird(id: Id)
    requires PlaceInThird(id) < 15
    ensures ThirdField(PlaceInThird(id)) == id
  {
    match id
    case CertFingerprintSha256 => case CertificateSans => case Oids => case CnameRecords =>
    case Ipv6Addresses => case CaaRecords => case SpfRecord => case DmarcRecord => case MtaStsRecord =>
    case TlsRptRecord => case BimiRecord => case HstsMaxAge => case HstsIncludeSubdomains =>
    case HstsPreload => case CdnProvider => case _ =>
  }

  lemma {:induction false} PlaceOfThird(j: nat)
    requires j < 15
    ensures PlaceInThird(ThirdField(j)) == j
  {
    match j
    case 0 => case 1 => case 2 => case 3 => case 4 => case 5 => case 6 => case 7 => case 8 =>
    case 9 => case 10 => case 11 => case 12 => case 13 => case 14 =>
  }

  lemma {:induction false} InFourth(id: Id)
    requires PlaceInFourth(id) < 15
    ensures FourthField(PlaceInFourth(id)) == id
  {
    match id
    case ScriptHosts => case Nameservers => case TxtRecords => case MxRecords => case AnalyticsIds =>
    case SocialMediaLinks => case StructuredDataEntries => case HttpHeaders => case SecurityHeaders =>
    case PartialFailures => case GeoipCountryCode => case GeoipCountryName => case GeoipRegion =>
    case GeoipCity => case GeoipLatitude => case _ =>
  }

  lemma {:induction false} PlaceOfFourth(j: nat)
    requires j < 15
    ensures PlaceInFourth(FourthField(j)) == j
  {
    match j
    case 0 => case 1 => case 2 => case 3 => case 4 => case 5 => case 6 => case 7 => case 8 =>
    case 9 => case 10 => case 11 => case 12 => case 13 => case 14 =>
  }

  lemma {:induction false} InFifth(id: Id)
    requires PlaceInFifth(id) < 15
    ensures FifthField(PlaceInFifth(id)) == id
  {
    match id
    case GeoipLongitude => case GeoipAsn => case GeoipAsnOrg => case WhoisRegistrar =>
    case WhoisCreationDate => case WhoisExpirationDate => case WhoisRegistrantCountry => case FaviconHash =>
    case FaviconUrl => case ContactLinkCount => case ContactLinks => case ExposedSecretCount =>
    case ExposedSecrets => case Timestamp => case RunId => case _ =>
  }

  lemma {:induction false} PlaceOfFifth(j: nat)
    requires j < 15
    ensures PlaceInFifth(FifthField(j)) == j
  {
    match j
    case 0 => case 1 => case 2 => case 3 => case 4 => case 5 => case 6 => case 7 => case 8 =>
    case 9 => case 10 => case 11 => case 12 => case 13 => case 14 =>
  }

  /** Every field has its place. */
  lemma {:induction false} FieldAtPlace(id: Id)
    ensures PlaceOfField(id) < 75 && FieldAt(PlaceOfField(id)) == id
  {
    OneStretch(id);
    if PlaceInFirst(id) < 15 {
      InFirst(id);
    } else if PlaceInSecond(id) < 15 {
      InSecond(id);
    } else if PlaceInThird(id) < 15 {
      InThird(id);
    } else if PlaceInFourth(id) < 15 {
      InFourth(id);
    } else {
      InFifth(id);
    }
  }

  /** No field has two places. */
  lemma {:induction false} PlaceOfFieldAt(k: nat)
    requires k < 75
    ensures PlaceOfField(FieldAt(k)) == k
  {
    OneStretch(FieldAt(k));
    if k < 15 {
      PlaceOfFirst(k);
    } else if k < 30 {
      PlaceOfSecond(k - 15);
    } else if k < 45 {
      PlaceOfThird(k - 30);
    } else if k < 60 {
      PlaceOfFourth(k - 45);
    } else {
      PlaceOfFifth(k - 60);
    }
  }

  /** A name is told by its length and a few of its letters. */
  function IdNamed(name: string): Id
    requires |name| >= 3
  {
    var a, x, y, z := name[0], name[|name| - 3], name[|name| - 2], name[|name| - 1];
    match |name|
    case 3 => Url
    case 5 => Title
    case 6 => RunId
    case 9 => if z == 'l' then FinalUrl else GeoipAsn
    case 10 => if y == 's' then IpAddress else if y == 'r' then SpfRecord
      else if y == 'd' then MxRecords else GeoipCity
    case 11 => if a == 'i' then InitialUrl else if a == 'r' then ReverseDns
      else if a == 'h' then Status else if a == 'd' then Description else if a == 'm' then MetaRobots
      else if a == 'c' then CaaRecords else if a == 'n' then Nameservers
      else if a == 'f' then FaviconUrl else if a == 'b' then (if z == '6' then BodySha256
      else BimiRecord) else if z == 'n' then TlsVersion else TxtRecords
    case 12 => if y == 'i' then FinalDomain else if y == 'p' then ContentType
      else if y == 'g' then HstsMaxAge else if y == 'a' then HstsPreload
      else if y == 's' then FaviconHash else if y == 'o' then (if a == 'h' then HttpVersion
      else GeoipRegion) else if y == 'e' then (if z == 's' then Technologies else CdnProvider)
      else if y == 't' then (if z == 'e' then CipherSuite else ScriptHosts)
      else if z == 'd' then DmarcRecord else HttpHeaders
    case 13 => if x == 'u' then CanonicalUrl else if x == 't' then KeyAlgorithm
      else if x == 'r' then CnameRecords else if x == 'i' then AnalyticsIds
      else if x == 'o' then GeoipAsnOrg else ContactLinks
    case 14 => if y == 't' then ContentLength else if y == 'n' then RedirectCount
      else if y == 'd' then GeoipLatitude else if y == 'm' then Timestamp
      else if y == 'i' then (if a == 'i' then InitialDomain else RedirectChain)
      else if y == 'e' then (if z == 'd' then BodyTruncated else Ipv6Addresses)
      else if a == 'm' then MtaStsRecord else TlsRptRecord
    case 15 => if z == 'a' then StructuredDataEntries else if z == 'e' then GeoipLongitude
      else if z == 's' then ExposedSecrets else if y == 'e' then SslCertIssuer else WhoisRegistrar
    case 16 => if y == 'x' then StatusDescription else if y == 'c' then SslCertSubject
      else if y == 'd' then Oids else if y == 'r' then SecurityHeaders
      else if y == 'e' then PartialFailures else if z == 't' then TechnologyCount else CertificateSans
    case 18 => if y == 'r' then FinalRedirectUrl else if y == 'k' then SocialMediaLinks
      else if y == 'd' then GeoipCountryCode else if y == 'm' then GeoipCountryName else ContactLinkCount
    case 20 => if z == 's' then SslCertValidTo else ExposedSecretCount
    case 21 => ResponseTimeMs
    case 22 => WhoisCreationDate
    case 23 => if z == '6' then CertFingerprintSha256 else HstsIncludeSubdomains
    case 24 => if z == 's' then WhoisExpirationDate else WhoisRegistrantCountry
    case _ => Url
  }

  predicate Tells(name: string, id: Id) {
    |name| >= 3 && IdNamed(name) == id
  }

  ghost predicate TableTells(table: Id -> string, place: Places) {
    forall id :: place(id) < 15 ==> Tells(table(id), id)
  }

  lemma {:induction false} FirstOfFirst()
    ensures Tells("url", Url)
    ensures Tells("initial_domain", InitialDomain)
    ensures Tells("final_domain", FinalDomain)
    ensures Tells("initial_url", InitialUrl)
    ensures Tells("final_url", FinalUrl)
  {
  }

  lemma {:induction false} NextOfFirst()
    ensures Tells("ip_address", IpAddress)
    ensures Tells("reverse_dns", ReverseDns)
    ensures Tells("http_status", Status)
    ensures Tells("http_status_text", StatusDescription)
    ensures Tells("response_time_seconds", ResponseTimeMs)
  {
  }

  lemma {:induction false} LastOfFirst()
    ensures Tells("title", Title)
    ensures Tells("description", Description)
    ensures Tells("meta_robots", MetaRobots)
    ensures Tells("body_sha256", BodySha256)
    ensures Tells("content_length", ContentLength)
  {
  }

  lemma {:induction false} FirstTable(tells: (string, Id) -> bool)
    requires tells("url", Url) && tells("initial_domain", InitialDomain)
    requires tells("final_domain", FinalDomain) && tells("initial_url", InitialUrl)
    requires tells("final_url", FinalUrl) && tells("ip_address", IpAddress)
    requires tells("reverse_dns", ReverseDns) && tells("http_status", Status)
    requires tells("http_status_text", StatusDescription) && tells("response_time_seconds", ResponseTimeMs)
    requires tells("title", Title) && tells("description", Description) && tells("meta_robots", MetaRobots)
    requires tells("body_sha256", BodySha256) && tells("content_length", ContentLength)
    ensures forall id :: PlaceInFirst(id) < 15 ==> tells(FirstName(id), id)
  {
    forall id | PlaceInFirst(id) < 15
      ensures tells(FirstName(id), id)
    {
      match id
      case Url => case InitialDomain => case FinalDomain => case InitialUrl => case FinalUrl =>
      case IpAddress => case ReverseDns => case Status => case StatusDescription => case ResponseTimeMs =>
      case Title => case Description => case MetaRobots => case BodySha256 => case ContentLength => case _ =>
    }
  }

  lemma {:induction false} FirstNamesTell()
    ensures TableTells(FirstName, PlaceInFirst)
  {
    FirstOfFirst();
    NextOfFirst();
    LastOfFirst();
    FirstTable(Tells);
  }

  lemma {:induction false} FirstOfSecond()
    ensures Tells("http_version", HttpVersion)
    ensures Tells("content_type", ContentType)
    ensures Tells("canonical_url", CanonicalUrl)
    ensures Tells("body_truncated", BodyTruncated)
    ensures Tells("redirect_count", RedirectCount)
  {
  }

  lemma {:induction false} NextOfSecond()
    ensures Tells("final_redirect_url", FinalRedirectUrl)
    ensures Tells("redirect_chain", RedirectChain)
    ensures Tells("technology_count", TechnologyCount)
    ensures Tells("technologies", Technologies)
    ensures Tells("tls_version", TlsVersion)
  {
  }

  lemma {:induction false} LastOfSecond()
    ensures Tells("ssl_cert_subject", SslCertSubject)
    ensures Tells("ssl_cert_issuer", SslCertIssuer)
    ensures Tells("ssl_cert_valid_to_ms", SslCertValidTo)
    ensures Tells("cipher_suite", CipherSuite)
    ensures Tells("key_algorithm", KeyAlgorithm)
  {
  }

  lemma {:induction false} SecondTable(tells: (string, Id) -> bool)
    requires tells("http_version", HttpVersion) && tells("content_type", ContentType)
    requires tells("canonical_url", CanonicalUrl) && tells("body_truncated", BodyTruncated)
    requires tells("redirect_count", RedirectCount) && tells("final_redirect_url", FinalRedirectUrl)
    requires tells("redirect_chain", RedirectChain) && tells("technology_count", TechnologyCount)
    requires tells("technologies", Technologies) && tells("tls_version", TlsVersion)
    requires tells("ssl_cert_subject", SslCertSubject) && tells("ssl_cert_issuer", SslCertIssuer)
    requires tells("ssl_cert_valid_to_ms", SslCertValidTo) && tells("cipher_suite", CipherSuite)
    requires tells("key_algorithm", KeyAlgorithm)
    ensures forall id :: PlaceInSecond(id) < 15 ==> tells(SecondName(id), id)
  {
    forall id | PlaceInSecond(id) < 15
      ensures tells(SecondName(id), id)
    {
      match id
      case HttpVersion => case ContentType => case CanonicalUrl => case BodyTruncated => case RedirectCount =>
      case FinalRedirectUrl => case RedirectChain => case TechnologyCount => case Technologies =>
      case TlsVersion => case SslCertSubject => case SslCertIssuer => case SslCertValidTo => case CipherSuite =>
      case KeyAlgorithm => case _ =>
    }
  }

  lemma {:induction false} SecondNamesTell()
    ensures TableTells(SecondName, PlaceInSecond)
  {
    FirstOfSecond();
    NextOfSecond();
    LastOfSecond();
    SecondTable(Tells);
  }

  lemma {:induction false} FirstOfThird()
    ensures Tells("cert_fingerprint_sha256", CertFingerprintSha256)
    ensures Tells("certificate_sans", CertificateSans)
    ensures Tells("certificate_oids", Oids)
    ensures Tells("cname_records", CnameRecords)
    ensures Tells("ipv6_addresses", Ipv6Addresses)
  {
  }

  lemma {:induction false} NextOfThird()
    ensures Tells("caa_records", CaaRecords)
    ensures Tells("spf_record", SpfRecord)
    ensures Tells("dmarc_record", DmarcRecord)
    ensures Tells("mta_sts_record", MtaStsRecord)
    ensures Tells("tls_rpt_record", TlsRptRecord)
  {
  }

  lemma {:induction false} LastOfThird()
    ensures Tells("bimi_record", BimiRecord)
    ensures Tells("hsts_max_age", HstsMaxAge)
    ensures Tells("hsts_include_subdomains", HstsIncludeSubdomains)
    ensures Tells("hsts_preload", HstsPreload)
    ensures Tells("cdn_provider", CdnProvider)
  {
  }

  lemma {:induction false} ThirdTable(tells: (string, Id) -> bool)
    requires tells("cert_fingerprint_sha256", CertFingerprintSha256)
    requires tells("certificate_sans", CertificateSans) && tells("certificate_oids", Oids)
    requires tells("cname_records", CnameRecords) && tells("ipv6_addresses", Ipv6Addresses)
    requires tells("caa_records", CaaRecords) && tells("spf_record", SpfRecord)
    requires tells("dmarc_record", DmarcRecord) && tells("mta_sts_record", MtaStsRecord)
    requires tells("tls_rpt_record", TlsRptRecord) && tells("bimi_record", BimiRecord)
    requires tells("hsts_max_age", HstsMaxAge) && tells("hsts_include_subdomains", HstsIncludeSubdomains)
    requires tells("hsts_preload", HstsPreload) && tells("cdn_provider", CdnProvider)
    ensures forall id :: PlaceInThird(id) < 15 ==> tells(ThirdName(id), id)
  {
    forall id | PlaceInThird(id) < 15
      ensures tells(ThirdName(id), id)
    {
      match id
      case CertFingerprintSha256 => case CertificateSans => case Oids => case CnameRecords =>
      case Ipv6Addresses => case CaaRecords => case SpfRecord => case DmarcRecord => case MtaStsRecord =>
      case TlsRptRecord => case BimiRecord => case HstsMaxAge => case HstsIncludeSubdomains =>
      case HstsPreload => case CdnProvider => case _ =>
    }
  }

  lemma {:induction false} ThirdNamesTell()
    ensures TableTells(ThirdName, PlaceInThird)
  {
    FirstOfThird();
    NextOfThird();
    LastOfThird();
    ThirdTable(Tells);
  }

  lemma {:induction false} FirstOfFourth()
    ensures Tells("script_hosts", ScriptHosts)
    ensures Tells("nameservers", Nameservers)
    ensures Tells("txt_records", TxtRecords)
    ensures Tells("mx_records", MxRecords)
    ensures Tells("analytics_ids", AnalyticsIds)
  {
  }

  lemma {:induction false} NextOfFourth()
    ensures Tells("social_media_links", SocialMediaLinks)
    ensures Tells("structured_data", StructuredDataEntries)
    ensures Tells("http_headers", HttpHeaders)
    ensures Tells("security_headers", SecurityHeaders)
    ensures Tells("partial_failures", PartialFailures)
  {
  }

  lemma {:induction false} LastOfFourth()
    ensures Tells("geoip_country_code", GeoipCountryCode)
    ensures Tells("geoip_country_name", GeoipCountryName)
    ensures Tells("geoip_region", GeoipRegion)
    ensures Tells("geoip_city", GeoipCity)
    ensures Tells("geoip_latitude", GeoipLatitude)
  {
  }

  lemma {:induction false} FourthTable(tells: (string, Id) -> bool)
    requires tells("script_hosts", ScriptHosts) && tells("nameservers", Nameservers)
    requires tells("txt_records", TxtRecords) && tells("mx_records", MxRecords)
    requires tells("analytics_ids", AnalyticsIds) && tells("social_media_links", SocialMediaLinks)
    requires tells("structured_data", StructuredDataEntries) && tells("http_headers", HttpHeaders)
    requires tells("security_headers", SecurityHeaders) && tells("partial_failures", PartialFailures)
    requires tells("geoip_country_code", GeoipCountryCode) && tells("geoip_country_name", GeoipCountryName)
    requires tells("geoip_region", GeoipRegion) && tells("geoip_city", GeoipCity)
    requires tells("geoip_latitude", GeoipLatitude)
    ensures forall id :: PlaceInFourth(id) < 15 ==> tells(FourthName(id), id)
  {
    forall id | PlaceInFourth(id) < 15
      ensures tells(FourthName(id), id)
    {
      match id
      case ScriptHosts => case Nameservers => case TxtRecords => case MxRecords => case AnalyticsIds =>
      case SocialMediaLinks => case StructuredDataEntries => case HttpHeaders => case SecurityHeaders =>
      case PartialFailures => case GeoipCountryCode => case GeoipCountryName => case GeoipRegion =>
      case GeoipCity => case GeoipLatitude => case _ =>
    }
  }

  lemma {:induction false} FourthNamesTell()
    ensures TableTells(FourthName, PlaceInFourth)
  {
    FirstOfFourth();
    NextOfFourth();
    LastOfFourth();
    FourthTable(Tells);
  }

  lemma {:induction false} FirstOfFifth()
    ensures Tells("geoip_longitude", GeoipLongitude)
    ensures Tells("geoip_asn", GeoipAsn)
    ensures Tells("geoip_asn_org", GeoipAsnOrg)
    ensures Tells("whois_registrar", WhoisRegistrar)
    ensures Tells("whois_creation_date_ms", WhoisCreationDate)
  {
  }

  lemma {:induction false} NextOfFifth()
    ensures Tells("whois_expiration_date_ms", WhoisExpirationDate)
    ensures Tells("whois_registrant_country", WhoisRegistrantCountry)
    ensures Tells("favicon_hash", FaviconHash)
    ensures Tells("favicon_url", FaviconUrl)
    ensures Tells("contact_link_count", ContactLinkCount)
  {
  }

  lemma {:induction false} LastOfFifth()
    ensures Tells("contact_links", ContactLinks)
    ensures Tells("exposed_secret_count", ExposedSecretCount)
    ensures Tells("exposed_secrets", ExposedSecrets)
    ensures Tells("observed_at_ms", Timestamp)
    ensures Tells("run_id", RunId)
  {
  }

  lemma {:induction false} FifthTable(tells: (string, Id) -> bool)
    requires tells("geoip_longitude", GeoipLongitude) && tells("geoip_asn", GeoipAsn)
    requires tells("geoip_asn_org", GeoipAsnOrg) && tells("whois_registrar", WhoisRegistrar)
    requires tells("whois_creation_date_ms", WhoisCreationDate)
    requires tells("whois_expiration_date_ms", WhoisExpirationDate)
    requires tells("whois_registrant_country", WhoisRegistrantCountry) && tells("favicon_hash", FaviconHash)
    requires tells("favicon_url", FaviconUrl) && tells("contact_link_count", ContactLinkCount)
    requires tells("contact_links", ContactLinks) && tells("exposed_secret_count", ExposedSecretCount)
    requires tells("exposed_secrets", ExposedSecrets) && tells("observed_at_ms", Timestamp)
    requires tells("run_id", RunId)
    ensures forall id :: PlaceInFifth(id) < 15 ==> tells(FifthName(id), id)
  {
    forall id | PlaceInFifth(id) < 15
      ensures tells(FifthName(id), id)
    {
      match id
      case GeoipLongitude => case GeoipAsn => case GeoipAsnOrg => case WhoisRegistrar =>
      case WhoisCreationDate => case WhoisExpirationDate => case WhoisRegistrantCountry => case FaviconHash =>
      case FaviconUrl => case ContactLinkCount => case ContactLinks => case ExposedSecretCount =>
      case ExposedSecrets => case Timestamp => case RunId => case _ =>
    }
  }

  lemma {:induction false} FifthNamesTell()
    ensures TableTells(FifthName, PlaceInFifth)
  {
    FirstOfFifth();
    NextOfFifth();
    LastOfFifth();
    FifthTable(Tells);
  }

  /** No two fields have the same name. */
  lemma {:induction false} NameTellsField(id: Id)
    ensures Tells(NameOf(id), id)
  {
    FirstNamesTell();
    SecondNamesTell();
    ThirdNamesTell();
    FourthNamesTell();
    FifthNamesTell();
    OneStretch(id);
  }

  /** So no two columns have the same name. */
  lemma {:induction false} NamesAreDistinct()
    ensures Distinct(NamesOf(Schema()))
  {
    var names := NamesOf(Schema());
    forall i, j | 0 <= i < j < |names|
      ensures names[i] != names[j]
    {
      PlaceOfFieldAt(i);
      PlaceOfFieldAt(j);
      NameTellsField(FieldAt(i));
      NameTellsField(FieldAt(j));
    }
  }
}
