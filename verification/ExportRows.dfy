/** One row of an export, with the fields that a Parquet file holds (src/export/row.rs). */
module ExportRows {
  import opened Wrappers

  /** Columns of `url_status`; times are milliseconds, and floating-point numbers are real numbers. */
  datatype MainRow = MainRow(
    initialDomain: string, finalDomain: string, initialUrl: Option<string>, finalUrl: Option<string>,
    ipAddress: string, reverseDns: Option<string>, status: nat, statusDesc: string, responseTime: real,
    title: string, description: Option<string>, metaRobots: Option<string>, tlsVersion: Option<string>,
    sslCertSubject: Option<string>, sslCertIssuer: Option<string>, sslCertValidToMs: Option<int>,
    cipherSuite: Option<string>, keyAlgorithm: Option<string>, spfRecord: Option<string>,
    dmarcRecord: Option<string>, mtaStsRecord: Option<string>, tlsRptRecord: Option<string>,
    bimiRecord: Option<string>, hstsMaxAge: Option<int>, hstsIncludeSubdomains: Option<bool>,
    hstsPreload: Option<bool>, cdnProvider: Option<string>, timestamp: int, runId: Option<string>,
    bodySha256: Option<string>, contentLength: Option<int>, httpVersion: Option<string>,
    contentType: Option<string>, canonicalUrl: Option<string>, certFingerprintSha256: Option<string>,
    bodyTruncated: bool)

  datatype GeoIp = GeoIp(
    countryCode: Option<string>, countryName: Option<string>, region: Option<string>, city: Option<string>,
    latitude: Option<real>, longitude: Option<real>, asn: Option<int>, asnOrg: Option<string>)

  datatype Whois = Whois(
    registrar: Option<string>, creationDateMs: Option<int>, expirationDateMs: Option<int>,
    registrantCountry: Option<string>)

  datatype RedirectEntry = RedirectEntry(redirectUrl: string, sequenceOrder: int, httpStatus: Option<int>)

  datatype Technology = Technology(
    name: string,
    version: Option<string>,
    category: Option<string>,
    isImplied: bool,
    detectionSource: Option<string>)

  datatype CaaRecord = CaaRecord(flag: int, tag: string, value: string)

  datatype ScriptHostRecord = ScriptHostRecord(host: string, registrableDomain: Option<string>, isFirstParty: bool)

  datatype MxRecord = MxRecord(priority: int, mailExchange: string)

  datatype SocialMediaLink = SocialMediaLink(platform: string, profileUrl: string, identifier: Option<string>)

  datatype StructuredDataEntry = StructuredDataEntry(dataType: string, propertyName: string, propertyValue: string)

  /** The records of two strings: TXT records, analytics ids, headers, failures and contact links. */
  datatype NamedValue = NamedValue(name: string, value: string)

  datatype ExposedSecret = ExposedSecret(
    secretType: string,
    matchedValue: string,
    severity: string,
    location: string,
    context: Option<string>,
    jwtAlgorithm: Option<string>,
    jwtIssuer: Option<string>,
    jwtSubject: Option<string>,
    jwtAudience: Option<string>,
    jwtExpirationMs: Option<int>,
    jwtIssuedAtMs: Option<int>,
    jwtHeaderJson: Option<string>,
    jwtPayloadJson: Option<string>)

  /** The parts of a row that become list columns. */
  datatype ListColumn =
    | RedirectChain | Technologies | CertificateSans | Oids | CnameRecords | Ipv6Addresses | CaaRecords
    | ScriptHosts | Nameservers | TxtRecords | MxRecords | AnalyticsIds | SocialMediaLinks
    | StructuredDataEntries | HttpHeaders | SecurityHeaders | PartialFailures | ContactLinks | ExposedSecrets

  /** A row. One that is built also satisfies `IsBuilt`. */
  datatype ExportRow = ExportRow(
    main: MainRow,
    redirects: seq<RedirectEntry>,
    redirectCount: int,
    finalRedirectUrl: string,
    technologyCount: int,
    technologies: seq<Technology>,
    certificateSansStr: string,
    oidsStr: string,
    nameservers: seq<string>,
    txtRecords: seq<NamedValue>,
    mxRecords: seq<MxRecord>,
    analyticsIds: seq<NamedValue>,
    scriptHosts: seq<ScriptHostRecord>,
    socialMediaLinks: seq<SocialMediaLink>,
    structuredDataEntries: seq<StructuredDataEntry>,
    allHttpHeaders: seq<NamedValue>,
    allSecurityHeaders: seq<NamedValue>,
    partialFailures: seq<NamedValue>,
    geoip: GeoIp,
    whois: Whois,
    faviconHash: Option<int>,
    faviconUrl: Option<string>,
    contactLinks: seq<NamedValue>,
    contactLinkCount: int,
    exposedSecrets: seq<ExposedSecret>,
    exposedSecretCount: int,
    cnameRecords: seq<string>,
    ipv6Addresses: seq<string>,
    caaRecords: seq<CaaRecord>)

  /** The most records that are fetched from a related table for one row. */
  const EXPORT_LIMIT := 500

  function LastRedirectUrl(redirects: seq<RedirectEntry>): string {
    if redirects == [] then "" else redirects[|redirects| - 1].redirectUrl
  }

  predicate IsCountOf(count: int, length: nat) {
    count == length <= EXPORT_LIMIT
  }

  /** A row as it is built: counts are the lengths of lists that are limited, and the final redirect is the last. */
  predicate IsBuilt(row: ExportRow) {
    && IsCountOf(row.redirectCount, |row.redirects|)
    && IsCountOf(row.technologyCount, |row.technologies|)
    && IsCountOf(row.contactLinkCount, |row.contactLinks|)
    && IsCountOf(row.exposedSecretCount, |row.exposedSecrets|)
    && row.finalRedirectUrl == LastRedirectUrl(row.redirects)
  }

  /** The domain itself if it names a scheme, else under https. */
  function BuildUrl(finalDomain: string): string {
    if "http://" <= finalDomain || "https://" <= finalDomain then finalDomain else "https://" + finalDomain
  }

  /** So a URL keeps its scheme, and a bare domain gets https. */
  lemma {:induction false} SchemeIsKeptOrHttps(rest: string, domain: string)
    ensures BuildUrl("http://" + rest) == "http://" + rest
    ensures BuildUrl("https://" + rest) == "https://" + rest
    ensures ':' !in domain ==> BuildUrl(domain) == "https://" + domain
  {
    if "http://" <= domain {
      assert domain[4] == ':';
    }
    if "https://" <= domain {
      assert domain[5] == ':';
    }
  }
}
