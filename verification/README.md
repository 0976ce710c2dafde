# Verified core of domain-status

domain-status scans websites and exports what it finds. Most of it moves data between the
network, a database and files; this project models the self-contained parts that compute
something, and proves what they compute, for all inputs.

The network is arbitrary: what a request gets may depend on every URL requested before it, and a
body arrives in any chunks and may fail at any read. URL parsing, the safety check on URLs, the
Public Suffix List, Unicode lowercasing and MurmurHash3 are function values about which nothing
is assumed.

| file | what it models |
|---|---|
| `Base64.dfy` | section 4 of RFC 4648, encoding and decoding |
| `Favicon.dfy` | the text under a favicon hash, the choice of favicon, and the favicon hop loop |
| `Hops.dfy`, `Http.dfy` | following redirects by hand up to a limit; responses and the client |
| `Redirects.dfy` | the redirect-chain resolver |
| `Stream.dfy` | reading a body under a size cap |
| `WellKnown.dfy` | robots.txt (section 2.2 of RFC 9309) and security.txt (section 2.5 of RFC 9116) |
| `Cookies.dfy` | Set-Cookie and Cookie headers (section 5.2 of RFC 6265) |
| `Queries.dfy` | the text of the export query, with a lexer, parser and evaluator for it |
| `Lists.dfy`, `StructuredData.dfy` | comma lists and `key:value` lists; the types of structured-data entries |
| `Columns.dfy`, `RecordBatches.dfy` | Arrow list builders, reassembly by name, and record batches under a schema |
| `ExportRows.dfy`, `Fields.dfy` | a row to export; the field registry and the order of the Parquet columns |
| `Parquet.dfy`, `ParquetReading.dfy` | the 75 column builders, and reading a batch back by column name |
| `ParquetFile.dfy` | the export in batches, with its failures, and reading the file back |
| `Fingerprints.dfy`, `Fixpoints.dfy` | technologies that are implied, excluded or lack a requirement; fixed points with a limit on the rounds |
| `ExternalScripts.dfy` | script hosts and the first-party verdict |
| `Durations.dfy`, `Backoff.dfy` | duration text; retry delays |
| `Text.dfy`, `Sequences.dfy`, `Wrappers.dfy` | the Rust string operations, the sequences and `Option`/`Result` they share |

## Main results

- The single pass that breaks base64 text every 76 characters equals the line-by-line
  `base64.encodebytes` on every input but the empty one, where the program writes one line break
  and Python writes nothing. The source comment claims the match without exception
  (src/fetch/favicon.rs:32); the code is followed here, and the exception never reaches a stored
  hash, because a fetched favicon is never empty.
- Both hop loops request exactly the URLs of one trail, the only one that is linked and maximal. So
  every URL that is requested passed the safety check, or is at a loopback address when those are
  allowed; every redirect that may be followed is followed while hops remain; and the result of each
  exit, the two-run prefix property and the unreachability of the status 0 entry follow too.
- A favicon is stored if and only if the last answer is a success whose body, however it is cut into
  reads, has 1 byte to the cap.
- The fields of robots.txt and security.txt are exactly those that the lines spell, in any case of the
  names and with any white space. robots.txt directives, security.txt records and cookies round-trip
  through text for exactly the values that a file or header can say; so parsing what was rendered from
  a parsed input never changes it.
- The text of the built query, read by a lexer and by a parser that knows SQL's precedence and
  three truth values, is the conjunction of the present filters for every row, and uses up exactly
  the bound values. It has one WHERE or none, and a placeholder for each value.
- The 75 Parquet builders are written in one table, the schema in another. At each place both
  agree in type and in the field meant, and no name occurs twice; so building a batch cannot panic
  or be refused, and every field is read back under its own name. The source comment says that the
  reassembly by name keeps a batch from drifting from the schema (src/export/parquet.rs:773-774).
  It does not notice a wrong order, only a repeated name or a missing array; the two orders agree
  because the tables do.
- A file of batches reads back as the exported rows in order. An export that fails, in the query or
  in the file, does not close the file, and the batches that the file took hold the first rows; one
  that succeeds leaves every row.
- Of rows as they are built, whose counts are lengths of lists of at most 500 records, a Parquet file
  holds under each field's name the value that flat JSONL has for it, and the counts and the final
  redirect read from it agree with the lists read from it.
- Expansion of `implies` and dropping of unmet `requires` claim a fixed point and stop after ten
  rounds (src/fingerprint/detection/mod.rs:126-128, src/fingerprint/detection/matching.rs:46-54). The
  first gives the least closed set if and only if no chain of references leads further than ten
  steps, the second the greatest set whose requirements are met if and only if nothing fails only
  after ten rounds. Chains that are too long show both failing.
- Where a round trip fails, the exact condition is proved and a failing input given: comma lists,
  `key:value` lists, the name-keyed reassembly of columns, and the saturating backoff.

## Model

| member | source | states |
|---|---|---|
| Base64.QuadIsTheSameNumber | src/fetch/favicon.rs:30 | three octets and their four sextets are the same 24-bit number |
| Base64.OctetsOfQuad | src/fetch/favicon.rs:30 | decoding the four sextets gives the three octets |
| Base64.DecodeOfEncode | src/fetch/favicon.rs:30 | decoding undoes encoding, with padding, for all octet strings |
| Base64.EncodeConcat | src/fetch/favicon.rs:30 | whole groups of three octets encode on their own |
| Base64.Alphabet | src/fetch/favicon.rs:30 | the 64 letters, written out |
| Base64.PaddingOfOne | src/fetch/favicon.rs:30 | one last octet is padded by zero bits and two characters |
| Base64.PaddingOfTwo | src/fetch/favicon.rs:30 | two last octets are padded by zero bits and one character |
| Favicon.FormatForHash | src/fetch/favicon.rs:29-42 | the loop builds the text that is then shown equal to the line-by-line encoding |
| Favicon.ShodanTextIsEncodeBytes | src/fetch/favicon.rs:29-42 | on non-empty input the single pass equals one encoded and terminated line for each 57 bytes |
| Favicon.MatchesPythonExactly | src/fetch/favicon.rs:32-42 | the match with `base64.encodebytes` holds if and only if the input is not empty |
| Favicon.LinesOfShodanText | src/fetch/favicon.rs:33-42 | every line has 76 characters but the last, which has 1 to 76; the text ends in exactly one line break |
| Favicon.ShodanTextDecodes | src/fetch/favicon.rs:30-42 | removing the line breaks and decoding recovers the bytes |
| Favicon.ShodanTextInjective | src/fetch/favicon.rs:30-42 | different bytes have different texts under the hash |
| Favicon.ComputeShodanFaviconHash | src/fetch/favicon.rs:29-51 | the hash is taken of the `encodebytes` text and read as a signed 32-bit number |
| Favicon.AsSigned | src/fetch/favicon.rs:47-50 | the signed number has the same 32 bits |
| Favicon.ReadBody | src/fetch/favicon.rs:120-148 | bytes are returned if and only if a success answer brings them, in any cutting, at least one and within the cap; nothing if and only if it is no success, a read fails, or it is empty or too large |
| Favicon.FetchFaviconBytes | src/fetch/favicon.rs:67-153 | the URLs requested are those that each redirect with a safe target leads to, up to six, and no such redirect is passed over; what is returned is what the last answer brings |
| Favicon.FaviconFetchSafety | src/fetch/favicon.rs:74-152 | at most five redirects and six requests, every later URL a safe target that a redirect named, the bytes a whole body of 1 to the cap |
| Favicon.LeadsExactly | src/fetch/favicon.rs:74-118 | an answer is followed to a URL if and only if it is a 3xx whose trimmed Location resolves to it and it is safe |
| Favicon.HrefWins | src/fetch/favicon.rs:156-171 | an absolute href stays, one that starts with `//` goes to https, and any other is resolved against the page |
| Favicon.OriginIsFallback | src/fetch/favicon.rs:173-186 | without an href, `/favicon.ico` at the page's scheme, host and explicit port; nothing unless the scheme is http or https |
| Favicon.FetchAndHashFavicon | src/fetch/favicon.rs:156-218 | for the chosen favicon, a hash is stored if and only if the last answer brings 1 to 51200 bytes, and it is that of their `encodebytes` text |
| Stream.StreamBytesWithLimit | src/fetch/stream.rs:77-112 | the chunk loop computes the outcome that depends on the received bytes alone |
| Stream.FirstOver | src/fetch/stream.rs:89-104 | the byte count reported as too large is past the cap and within what was received |
| Stream.ChunkSplitInvariance | src/fetch/stream.rs:83-111 | however a body is cut: the whole body if it fits, else the first `max` bytes, or the error of the policy |
| Stream.SameBodySameOutcome | src/fetch/stream.rs:83-111 | two cuttings of a body differ at most in the reported count |
| Stream.ReadErrorExactly | src/fetch/stream.rs:86-106 | a read error is reported exactly when it comes before the cap is passed |
| Hops.TrailExactly | src/fetch/redirects.rs:136-218 | the requested URLs are the one sequence that is linked and maximal under the limit |
| Hops.TrailPrefix | src/fetch/redirects.rs:195-202 | a lower limit only cuts the trail short |
| Redirects.ResolveRedirectChain | src/fetch/redirects.rs:99-232 | every URL requested is safe, or at a loopback address when those are allowed; a run follows every redirect that it may while hops remain; the result and exit for all inputs, including both early rejections; the status 0 entry is never pushed |
| Redirects.LeadsExactly | src/fetch/redirects.rs:44-61 | an answer is followed to a URL if and only if it is one of the five redirects, its Location names the URL, that URL is safe or at an allowed loopback address, and https does not go on to http |
| Redirects.EveryHopIsAllowed | src/fetch/redirects.rs:44-61 | every later URL is named by a redirect's Location and is safe or at an allowed loopback address; no http after an https start |
| Redirects.SuccessfulRun | src/fetch/redirects.rs:136-231 | 1 to `max_hops` entries, as requested and answered, ending in the final URL; a response exactly when the last status is no redirect |
| Redirects.WhyRunsStop | src/fetch/redirects.rs:145-217 | each exit, which is told by the last answer, has its results and no other exit has them; the hop limit stops only a run that could go on and has used up the limit |
| Redirects.LowerCapIsPrefix | src/fetch/redirects.rs:136-231 | if the run with the higher cap succeeds, the run with the lower cap gives that result cut to the cap: the prefix of its chain, and its response unless it was cut |
| WellKnown.FieldExactly | src/fetch/well_known.rs:144-167 | a line has a field if and only if it spells it: name, colon and value, with any white space, and the name in any case |
| WellKnown.ParseRobotsDirectives | src/fetch/well_known.rs:144-167 | the loop finds the fields with one of the five names that the lines spell, in order |
| WellKnown.CaseDoesNotMatter | src/fetch/well_known.rs:103-167 | two files that differ only in the case of field names read alike |
| WellKnown.RobotsRoundTrip | src/fetch/well_known.rs:144-167 | rendering and parsing gives back a list if and only if its directives are known, and its values trimmed, non-empty and on one line |
| WellKnown.RobotsNormalForm | src/fetch/well_known.rs:144-167 | parse, render, parse equals parse on every body |
| WellKnown.ParseSecurityTxt | src/fetch/well_known.rs:92-129 | a success answer with a non-blank body gives its URL, status and body, all values that the lines spell for a repeatable field under its names, and the last value of the other two |
| WellKnown.MeaningConcat | src/fetch/well_known.rs:103-127 | parsing is a homomorphism over lines: lists append, single fields take the later value |
| WellKnown.SecurityTxtInParts | src/fetch/well_known.rs:103-127 | a body may be cut after any line break and its parts parsed on their own |
| WellKnown.SecurityTxtRoundTrip | src/fetch/well_known.rs:92-129 | the fields of a record are given back by rendering and parsing if and only if every value is trimmed, non-empty and on one line |
| WellKnown.SecurityTxtNormalForm | src/fetch/well_known.rs:103-127 | parse, render, parse equals parse on every body |
| Cookies.AllowlistedExactly | src/fetch/cookies.rs:88-99 | the allowlisted values are strict, lax and none in any case and with any white space around them, and they are kept in lowercase |
| Cookies.Apply | src/fetch/cookies.rs:49-73 | one attribute keeps the cookie and the invalid flag equal to the meaning of the attributes seen |
| Cookies.ParseSetCookie | src/fetch/cookies.rs:24-85 | the loop computes the declarative meaning: SameSite by all and first, Domain and Path by last |
| Cookies.FlagsByName | src/fetch/cookies.rs:49-52 | Secure and HttpOnly hold exactly when some attribute has that name, ignoring case |
| Cookies.AttributeInPiece | src/fetch/cookies.rs:40-48 | name and value stand on either side of the first `=`, without the white space around them; a blank piece has none |
| Cookies.NameValueInPiece | src/fetch/cookies.rs:24-32 | so do a cookie's name and value |
| Cookies.LastPathAndDomainWin | src/fetch/cookies.rs:67-73 | a Path or Domain at the end of a header replaces what it says so far, an empty Domain leaves none, and an unknown attribute changes nothing |
| Cookies.LaterSameSiteNeverWins | src/fetch/cookies.rs:53-66 | when a header runs on after a cookie with a SameSite, its name, value and SameSite stay, but the SameSite is dropped if and only if a later one is not allowlisted |
| Cookies.AttributesRoundTrip | src/fetch/cookies.rs:40-48 | any writable attribute list is read back as it was |
| Cookies.CookieRoundTrip | src/fetch/cookies.rs:24-85 | a cookie is given back by rendering and parsing if and only if a header can say it |
| Cookies.CookieNormalForm | src/fetch/cookies.rs:24-85 | every parsed header can be rewritten in one form without changing what it says |
| Cookies.ExtractCookiesNameValueMap | src/fetch/cookies.rs:129-147 | the map holds the pairs of the response's cookies, then of the request's Cookie header |
| Cookies.LastWinsByName | src/fetch/cookies.rs:129-147 | a name is there exactly when a pair has it, with the value of the last such pair |
| Cookies.RequestPairWins | src/fetch/cookies.rs:135-144 | a pair at the end of the Cookie header puts its lowercased value under its lowercased name, whatever was there |
| Cookies.LaterSetCookieWins | src/fetch/cookies.rs:129-134 | so does a later Set-Cookie header, if it has a value |
| Queries.BuildWhereClause | src/export/queries.rs:231-280 | appends the text of the present filters' clauses and their bound values, and nothing else |
| Queries.BuildExportQuery | src/export/queries.rs:203-227 | the whole query text, for any column list, and its bound values |
| Queries.ExportStringLexes | src/export/queries.rs:203-280 | the built text reads as one token list: the fragments never run together |
| Queries.ExportQueryCounts | src/export/queries.rs:231-280 | one WHERE if a filter is present and else none, and a placeholder for each bound value |
| Queries.ClausesLead | src/export/queries.rs:231-280 | any list of joined clauses parses as their conjunction and uses up exactly its values |
| Queries.ClausesMeanFilters | src/export/queries.rs:240-279 | the clauses all hold if and only if every present filter is satisfied |
| Queries.ExportQuerySelects | src/export/queries.rs:203-280 | the built text, lexed, parsed and evaluated, selects exactly the rows that satisfy every present filter and uses up its values |
| Lists.JoinOfParse | src/export/row.rs:931-940 | joining the parsed list gives back every string |
| Lists.ParseOfJoinExactly | src/export/queries.rs:71-74 | parsing the joined list gives it back, and the count agrees, if and only if the items are comma-free and are not just one empty string |
| Lists.CommaAndEmptyAreLost | src/export/row.rs:931-940 | `["a,b"]` and `[""]` are not read back |
| Lists.SplitOfJoined | src/export/queries.rs:71-74 | what any joined list splits into |
| Lists.ReadPairsExactly | src/export/row.rs:525-534 | `key:value` text tells its pairs if and only if no comma occurs and no key has a colon |
| Lists.ColonInKeyIsLost | src/export/row.rs:525-534 | a key with a colon is read as another pair |
| StructuredData.TypesExactly | src/export/row.rs:734-735 | sorting and dropping repeats gives the one strictly ascending list of exactly the entries' types |
| StructuredData.TextTellsTypesExactly | src/export/row.rs:734-736 | the exported text parses back to the types if and only if no type has a comma and they are not just the empty one |
| StructuredData.EmptyAndCommaAreLost | src/export/row.rs:734-736 | the empty type, and a type with a comma, are not read back |
| StructuredData.SameTypesSameText | src/export/row.rs:730-736 | rows with the same types export the same text, whatever their order and repeats; readable rows only then |
| StructuredData.ExportTypes | src/export/row.rs:730-737 | the text lists each type once, in order, while the count is of all entries |
| StructuredData.BeforeExactly | src/export/row.rs:734 | the order of the types: a beginning comes first, else the lesser character where they first differ |
| Columns.AppendRecord | src/export/parquet.rs:337-348 | appending a record field by field panics if and only if a cell is not of its child's kind, and else adds the record |
| Columns.AppendRow | src/export/parquet.rs:336-350 | the nested append loop adds one row's list to a builder, child by child, and closes structs and list |
| Columns.AppendFieldExactly | src/export/parquet.rs:337-348 | an append panics if and only if the child is of another kind, and else puts the cell behind the others |
| Columns.FinishExactly | src/export/parquet.rs:775-850 | finishing panics if and only if children differ in length or a required one holds a null |
| Columns.FinishBuilt | src/export/parquet.rs:775-850 | a builder between rows finishes if and only if no field that must not be null is, and then as the encoding of its rows |
| Columns.EncodeIsWellFormed | src/export/parquet.rs:306-771 | children of equal length and monotone offsets from 0 to that length |
| Columns.DecodeOfEncode | src/export/parquet.rs:306-771 | slicing by offsets gives back each row's list in order |
| Columns.AssembleColumns | src/export/parquet.rs:852-863 | the reassembly panics unless names are distinct and arrays suffice, and else gives the arrays in the order of the pushes |
| Columns.OwnNamesExactly | src/export/parquet.rs:852-863 | place by place, a name gets its owner's array if and only if that array was pushed at the place of the name |
| Columns.WrongOrderIsSilent | src/export/parquet.rs:773-863 | two arrays pushed in the wrong order are not noticed, a repeated name is |
| RecordBatches.TryNewExactly | src/export/parquet.rs:865-873 | a batch is made if and only if there is a column for each field, of its type, all of one length, without nulls where the field allows none |
| RecordBatches.BatchIsAccepted | src/export/parquet.rs:865-873 | columns of builders that agree with a schema pass its count, type, length and null checks |
| RecordBatches.BuildBatch | src/export/parquet.rs:105-873 | for any sound builders and any schema: the batch, or the failure of a name or of a schema check, and no other |
| RecordBatches.BatchRoundTrip | src/export/parquet.rs:306-873 | under the schema's name for a place, the batch reads back what the builder of that place got for each row |
| Fields.NameTellsField | src/export/fields.rs:386-1633 | each of the 75 column names belongs to one field |
| Fields.NamesAreDistinct | src/export/fields.rs:1731-1807 | no column name occurs twice in the schema |
| Fields.FieldAtPlace | src/export/fields.rs:1731-1807 | every field with a column stands in the schema order |
| Fields.PlaceOfFieldAt | src/export/fields.rs:1731-1807 | no field stands in the schema order twice |
| Parquet.ListFits | src/export/parquet.rs:180-304 | every record that a list column's block appends has the kinds, in order, that its builder was made with, and no null where none may be |
| Parquet.BuildersAgree | src/export/parquet.rs:105-850 | each of the 75 builders is pushed at the place of a schema field of its type, and makes no null where the field allows none |
| Parquet.WriteBatch | src/export/parquet.rs:105-880 | building the batch never fails, so exactly that batch is written unless the file refuses it |
| Parquet.AsI32KeepsLowBits | src/export/parquet.rs:332-335 | a count is cut to the signed number with the same low 32 bits |
| ExportRows.SchemeIsKeptOrHttps | src/export/row.rs:942-950 | an http or https URL stays, and a bare domain gets https |
| ParquetReading.BuilderGets | src/export/parquet.rs:306-850 | for each field, the builder pushed at its place is the one that gets its value or list |
| ParquetReading.OrdersAgree | src/export/parquet.rs:776-850 | the push order and the schema order name the same field at all 75 places |
| ParquetReading.FieldReads | src/export/parquet.rs:306-863 | the column under a field's name holds that field's value, or list, of every row |
| ParquetReading.TypedRoundTrip | src/export/parquet.rs:306-863 | each row's 75 fields are read back by name, and the records of its list fields in their types; of the list fields only redirect statuses are not exported |
| ParquetReading.NameListReadsExactly | src/export/parquet.rs:306-863 | the `certificate_sans` column reads back as the stored names if and only if they are comma-free and not just one empty name |
| ParquetReading.FormatsAgree | src/export/fields.rs:1859-1867 | under each field's name, a batch of rows as they are built reads back the field's flat JSONL value, if it has one |
| ParquetReading.BuiltIsConsistent | src/export/row.rs:562-869 | in what is read of a row as it is built, the four counts are the lengths of the lists beside them and the final redirect is the last one listed |
| ParquetFile.BatchPush | src/export/parquet.rs:946-953 | one more row fills or extends the pending batch |
| ParquetFile.BatchesConserveRows | src/export/parquet.rs:945-958 | the batches are the rows in order, none empty, all but the last of the batch size |
| ParquetFile.ExportParquet | src/export/parquet.rs:923-963 | for any file and any query: the file holds the planned batches up to the first it refuses, and which error, or the count of all rows, is returned; on success the file holds every row; an export that nothing stands against succeeds |
| ParquetFile.FailedQuery | src/export/parquet.rs:945-953 | a query that fails behind some rows leaves all full batches of 10000 of them |
| ParquetFile.FileRoundTrip | src/export/parquet.rs:945-958 | the written file reads back as all exported rows in order, whatever the batch size |
| ParquetFile.FileAlwaysReads | src/export/parquet.rs:923-963 | after any export to an empty file, even a failed one, the batches that the file took read back as the first rows in order |
| ParquetFile.FileIsConsistent | src/export/parquet.rs:923-963 | every row read from any such file tells the lengths and the last redirect of its own lists |
| Fingerprints.ParseTechnologyReference | src/fingerprint/patterns/mod.rs:257-296 | the loop finds the name before the first mark and the first version after it |
| Fingerprints.RefersExactly | src/fingerprint/patterns/mod.rs:257-296 | the name of a reference is the trimmed text in front of the first mark |
| Fingerprints.FirstVersionWins | src/fingerprint/patterns/mod.rs:257-296 | the first version counts |
| Fingerprints.OtherPartIsSkipped | src/fingerprint/patterns/mod.rs:257-296 | other metadata does not |
| Fingerprints.SanitizedExactly | src/fingerprint/detection/mod.rs:88-99 | a version is dropped if and only if it is blank or consists of at least seven hexadecimal digits |
| Fingerprints.ReferenceReadsExactly | src/fingerprint/patterns/mod.rs:293-296 | a reference tells its name and version if and only if the name is trimmed and neither holds a mark |
| Fingerprints.OrderMattersExactly | src/fingerprint/detection/mod.rs:141-163 | two implied references may be added in either order if and only if they do not give different versions to a technology that lacks one |
| Fingerprints.ExpandImplies | src/fingerprint/detection/mod.rs:127-169 | in any order of the map: the names are those at the end of a chain of at most ten steps; what a detected technology implies is there if the rules know it, and what is added is implied by something there and marked so; what was detected keeps its mark, source and version; new versions are such as references give, and none is missing that a technology within nine steps gives |
| Fingerprints.ExpansionClosesExactly | src/fingerprint/detection/mod.rs:126-169 | the result is the least set closed under `implies` if and only if no chain leads further than ten steps |
| Fingerprints.FewAdditionsSettle | src/fingerprint/detection/mod.rs:127-169 | it is if at most ten technologies are to be added |
| Fingerprints.LongChainIsCut | src/fingerprint/detection/mod.rs:128-129 | at the end of a chain of eleven steps, a name is implied and not added |
| Fixpoints.ReachExactly | src/fingerprint/detection/mod.rs:129-168 | reached in a number of rounds means at the end of a chain of at most as many steps |
| Fingerprints.ApplyTechnologyExclusions | src/fingerprint/detection/matching.rs:18-44 | in any order of the set: a detected name stays if and only if no entry in the exclusions of another detected technology refers to it |
| Fingerprints.TechnologyRequiresSatisfied | src/fingerprint/detection/matching.rs:73-101 | everything that the requirements refer to is there, and another technology in a required category if any is |
| Fingerprints.ApplyTechnologyRequires | src/fingerprint/detection/matching.rs:49-71 | the rounds with their early stop leave what ten full rounds would leave |
| Fingerprints.DroppedExactly | src/fingerprint/detection/matching.rs:54-69 | what is dropped within a number of rounds is what fails, through what it requires, in as many |
| Fingerprints.RequirementsSettleExactly | src/fingerprint/detection/matching.rs:46-71 | the result is the greatest set whose requirements are met if and only if nothing fails only after ten rounds |
| Fingerprints.FewTechnologiesSettle | src/fingerprint/detection/matching.rs:46-71 | it is if at most ten technologies are detected |
| Fingerprints.LongRequirementsAreCut | src/fingerprint/detection/matching.rs:53-54 | of twelve technologies that each require the next, two are left although none can stay |
| Fingerprints.FinalizeDetections | src/fingerprint/detection/mod.rs:172-219 | nothing left is excluded by a detected technology, a denied protocol or a certificate authority; what requires nothing and is none of these is left; what is left keeps its version, mark and source |
| Fingerprints.KeptIsConsistent | src/fingerprint/detection/mod.rs:199-201 | nothing kept is excluded by anything detected, and if nothing fails late, what is kept has all that it requires and could not be larger |
| ExternalScripts.KnownThirdPartyExactly | src/fetch/external_scripts.rs:222-230 | a host is a known third party if and only if, without its final dots and in lowercase, it is a listed name or a subdomain of one |
| ExternalScripts.CaseAndDotsDoNotMatter | src/fetch/external_scripts.rs:222-230 | neither ASCII case nor final dots change that |
| ExternalScripts.FirstPartyExactly | src/fetch/external_scripts.rs:190-214 | a script is first-party if and only if its host is not listed and is the page's host or has the same registrable domain, ignoring case |
| ExternalScripts.SourceExactly | src/fetch/external_scripts.rs:237-247 | a source names the absolute URL that its trimmed text is, or is relative to the page |
| ExternalScripts.VerdictsAgree | src/fetch/external_scripts.rs:190-214 | the first-party verdict depends on the script's host alone |
| ExternalScripts.CollectScriptHosts | src/fetch/external_scripts.rs:252-277 | one entry for each distinct host of the resolvable sources |
| ExternalScripts.DistinctByFirstOccurrence | src/fetch/external_scripts.rs:256-267 | every host once, in the order of first occurrence |
| ExternalScripts.EverySourceIsCovered | src/fetch/external_scripts.rs:252-277 | every source's host has exactly one entry, with the verdict for that source's own URL |
| Durations.DurationRoundTrip | src/app/logging.rs:70-88 | the seconds of every total of at least one second can be read back from any of the five forms |
| Durations.DurationInjective | src/app/logging.rs:70-88 | different totals print differently |
| Durations.FormExactly | src/app/logging.rs:70-88 | for hours, and minutes and seconds below 60: which of them are printed, in each of the forms |
| Durations.NoLeadingZero | src/app/logging.rs:82-88 | a number other than zero is printed without a leading zero |
| Backoff.ExponentialBackoff.Next | src/error_handling/categorization.rs:21-29 | yields the first delay to come, if any, and leaves the others |
| Backoff.TakeAll | src/error_handling/categorization.rs:18-30 | an exhausted iterator has yielded all its delays in order |
| Backoff.StateIsCappedProduct | src/error_handling/categorization.rs:27 | the saturating state is the unbounded product capped at 64 bits |
| Backoff.DelayExactly | src/error_handling/categorization.rs:21-29 | the k-th delay is the unbounded product capped at the maximum if and only if the product or the maximum fits in 64 bits |
| Backoff.BeyondU64 | src/error_handling/categorization.rs:21-29 | a product and a maximum beyond 64 bits give a shorter delay than the maximum |
| Backoff.DelaysDoNotShrink | src/error_handling/categorization.rs:21-29 | delays do not decrease when the factor is at least one |
| Backoff.GetRetryStrategy | src/error_handling/categorization.rs:42-49 | the three delays of the configured strategy |

## Left out

- Unrolled code: the appends of a struct's fields are one loop over its cells, and the appends and pushes of the 75 builders are a table of what each builder gets (`Parquet.BuilderAt`).
- NaN and infinities in the floating-point columns, which are real numbers here.
- Row fields without a Parquet column, such as `nameserver_count` and the joined texts made for CSV, and CSV itself.
- The bytes of a Parquet file, its compression and metadata: a file is the batches that it accepted, and whether it was closed; a real file that was not closed lacks the part that readers start from.
- The words of the column list in the query, SQL text whose words are not separated by single spaces, SQLite's type affinities, and ORDER BY beyond its place in the text; an ordering of texts is unknown to the evaluator, and no filter asks for one.
- Overflow of `usize` in byte counts: lengths of vectors in memory cannot reach it.
- Timeouts, headers other than Location, and logging in the fetch loops; a timeout is a failed send.
- Fetching robots.txt and security.txt, their 64 KiB cut and lossy decoding; parsing starts from the decoded body.
- Headers whose bytes are not readable as text, in the cookie parsers: the program skips them before parsing.
- The list of known third-party script hosts is a parameter, so the results hold for any list.
- The algorithms of the standard library's sort and dedup (src/export/row.rs:734-735): the model inserts one text at a time, and its result is shown to be the only possible one.
- The row query itself and the satellite tables behind an export row: the export takes a stream of rows that may fail. `ExportRows.IsBuilt` says what building a row fixes of its counts.
- Matching the fingerprint patterns and merging what they find; the steps from the detected technologies on are modelled, apart from the category name that is put beside each result.
- The confidence in a technology reference, which these steps do not read.
- Configuration, shutdown, statistics and command line: little to prove.
