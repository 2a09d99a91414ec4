# ABAP ADT package and runtime API — a Dafny model

This project models the two API modules of the `abap-adt-api` TypeScript client:

- `src/api/packages.ts` reads, creates and validates ABAP packages.
  - It escapes text for XML (`escapeXml`).
  - It lays out the `pak:package` document with the core metadata as attributes.
  - It builds the `corrNr`, validation and value-help query strings.
  - It sends `If-None-Match` and reads the `etag`/`ETag` of a reply.
  - It rejects a create reply without a `location`/`Location` header, and otherwise re-reads the created package by name.
  - It derives the validation verdict from the message severities.
  - It collects object properties into a map.
- `src/api/runtime.ts` handles runtime dumps and timestamps.
  - The `AdtQueryBuilder` keeps a list of conditions; `equals`, `and`, `or` and `not` build query text.
  - `getDumps` assembles its query string from the options.
  - `getDump` and `getSystemMessages` issue the other runtime requests.
  - `formatAdtTimestamp` and `parseAdtTimestamp` handle the fixed-width `YYYYMMDDHHmmss` UTC format.

The HTTP client is a class, `Transport.AdtHttp`. It records every request in a log, oldest first. Its replies come from `serve`, a function of the whole request history. Every statement about an API method therefore holds for every backend. A reply carries its headers, its body text and the XML codec's parse of that body as a `Tree`. Each API function is a method that appends to the log. Its contract states exactly which requests it appended, in which order, and how the result follows from the replies.

Files:

| file | module | contents |
|---|---|---|
| `js.dfy` | `Js` | JavaScript value semantics used by the source: `undefined` as `Option`, truthiness, `String(n)`, `padStart`, `substring`, `parseInt` |
| `transport.dfy` | `Transport` | endpoints, requests, replies, the parsed tree (`xmlNode`, `xmlArray`), the recording client |
| `xml_text.dfy` | `XmlText` | `escapeXml` as its chain of `replace` calls; a per-character reference escape; entity decoding |
| `xml_doc.dfy` | `XmlDoc` | an element tree with the layout of the source's template text, its renderer, and a small reader that parses the rendered text back |
| `packages.dfy` | `Packages` | `packages.ts` |
| `runtime.dfy` | `Runtime`, `RuntimeExamples` | `runtime.ts`, and the unit-test examples of `src/test/runtime.test.ts` |

## Model

| member | source | states |
|---|---|---|
| XmlText.EscapeXml | src/api/packages.ts:171-179 | An empty or missing string gives `""`. Otherwise the output is well escaped: no raw `<`, `>`, `"` or `'`, and every `&` starts one of the five entities. Decoding the entities gives back the input exactly. |
| XmlText.EscapeText | src/api/packages.ts:173-178 | The five `replace` calls in the source's order, `&` first. It has no contract of its own. `XmlText.EscapeTextIsEscapeEach` proves it equal to the per-character escape, and `XmlText.EscapeXml` and `XmlText.EscapeXmlPresent` carry its escaping and round-trip properties. |
| XmlText.EscapeTextIsEscapeEach | src/api/packages.ts:173-178 | The chain of five global replacements, `&` first, equals escaping each character on its own. |
| XmlText.EscapeXmlPresent | src/api/packages.ts:171-179 | For a non-empty string, the result is the per-character escape of the string, and it decodes back to the string. |
| XmlDoc.DocumentReadsBack | src/api/packages.ts:185-204 | A readable element tree (names start with a letter, `_` or `:`, attribute values hold no `"`), rendered with the XML declaration and the source's indentation, parses back to its tag/attribute/children shape. |
| Packages.ParsePackage | src/api/packages.ts:67-81 | The package type is never empty. A missing or empty `packageType` node gives `development`; otherwise the node's text is kept. |
| Packages.ParsePackageFields | src/api/packages.ts:67-81 | Every other field is the node of that name on the `package` element, or on the root when there is no `package` element; a missing node stays `undefined`. |
| Packages.ParseMessage | src/api/packages.ts:88-92 | A message's severity is never empty: it is the `severity` node when that is non-empty, else `info`. Text and code are the nodes of those names. `Packages.ValidationVerdict` builds on it. |
| Packages.ParseValidationResult | src/api/packages.ts:86-99 | One message per `message` node, in document order. Success holds exactly when every severity is `success` or `info`. |
| Packages.EveryIsForall | src/api/packages.ts:95-97 | `every` over the messages holds exactly when the predicate holds at every index. |
| Packages.ValidationVerdict | src/api/packages.ts:88-97 | A `warning` or `error` message anywhere makes the result a failure. A message without severity reads as `info`. |
| Packages.ParseNamedItems | src/api/packages.ts:105-112 | One item per `item` node, in order, with that node's `name` and `description`. |
| Packages.EtagOf | src/api/packages.ts:147-149 | The ETag is the `etag` header when that is non-empty, and otherwise the `ETag` header, present or not. `Packages.GetPackage` and `Packages.CreatePackage` use it. |
| Packages.LocationOf | src/api/packages.ts:218-222 | A location, when present, is non-empty and is the `location` or the `Location` header. `Packages.LocationCases` adds when it is missing and which header wins. |
| Packages.LocationCases | src/api/packages.ts:218-222 | There is no location exactly when neither `location` nor `Location` holds a non-empty value. A non-empty `location` wins over `Location`. A location, when present, is never empty. |
| Packages.IsTmp | src/api/packages.ts:182 | A package is local exactly when its transport layer is missing or empty. `Packages.CreateQuery` and `Packages.TransportLayerReadsBack` use it. |
| Packages.PackageTree | src/api/packages.ts:185-204 | The root is `pak:package` with seven attributes, no two with the same name, and nine child elements. Its XML properties are in `Packages.PackageTreeWellFormed`. |
| Packages.PackageDocument | src/api/packages.ts:185-204 | The body starts with the XML declaration. What it reads back to is in `Packages.PackageDocumentReadsBack`. |
| Packages.PackageTreeWellFormed | src/api/packages.ts:185-204 | The generated `pak:package` tree is well-formed XML. Every tag and attribute name is an XML name. Every attribute value holds only XML characters and no `"` or `<`, and each `&` in it starts an entity. No element repeats an attribute name. This holds whenever the description and the transport layer hold only XML characters and the verbatim fields are already legal attribute values. |
| Packages.EscapedAttrText | src/api/packages.ts:171-179 | Escaping a string of XML characters, or a missing one, gives a legal attribute value. |
| Packages.PackageDocumentReadsBack | src/api/packages.ts:182-204 | The posted body parses back to exactly the written document. The description is escaped and the name is as given. The type is `DEVC/K` and the version `active`. The responsible is the caller's, else the logged-on user. `adtcore:name` sits on the application component only when one is given. The transport layer is `$TMP` for a local package, else the escaped layer. |
| Packages.DescriptionReadsBack | src/api/packages.ts:187 | The `adtcore:description` attribute of the posted document is well escaped and decodes to the caller's description (`""` when missing). |
| Packages.TransportLayerReadsBack | src/api/packages.ts:182-198 | The transport layer is `$TMP` for a local package (no or empty layer). Otherwise it is well escaped and decodes to the caller's layer. |
| Packages.ReadHeaders | src/api/packages.ts:130-137 | `If-None-Match` is present exactly when `ifNoneMatch` is non-empty, and holds it unmodified. The other headers are exactly the fixed `Accept` and profiling headers. |
| Packages.ReadHeadersNone | src/api/packages.ts:130-137 | Without options the headers are exactly the two fixed ones. |
| Packages.GetPackage | src/api/packages.ts:125-150 | One GET of the package is appended to the log, with no query and no body. The package is parsed from the reply. The ETag is the `etag` header, or the `ETag` header when `etag` is empty or missing. |
| Packages.CreateQuery | src/api/packages.ts:206-209 | `corrNr` is sent exactly when it is non-empty and the package is not local. No other parameter is ever sent. |
| Packages.PostPackage | src/api/packages.ts:164-216 | One POST of the generated document to the package collection is appended, with the create headers and the `corrNr` rule. |
| Packages.CreatePackage | src/api/packages.ts:159-228 | The POST comes first. With no location in its reply, the result is the no-location error and no further request is sent. Otherwise exactly one more request follows: a plain GET of `pkg.name`. The result then carries the location and the package re-read from that GET's reply, with that reply's `etag` header as the ETag, or its `ETag` header when `etag` is empty or missing. |
| Packages.ValidationQuery | src/api/packages.ts:245-258 | `objname`, `description`, `packagetype` and `checkmode` are always sent. `swcomp` and `appcomp` are sent exactly when non-empty. Nothing else is sent. |
| Packages.ValidatePackage | src/api/packages.ts:236-267 | One POST to the validation endpoint is appended, with that query and no body. The verdict is parsed from its reply. |
| Packages.GetTransportLayers | src/api/packages.ts:275-291 | One value-help GET is appended with `name`, which is `*` when none is given. The items are parsed from the reply. |
| Packages.GetSoftwareComponents | src/api/packages.ts:299-315 | One value-help GET is appended with `name`, which is `*` when none is given. The items are parsed from the reply. |
| Packages.GetTranslationRelevances | src/api/packages.ts:323-339 | One value-help GET is appended with `maxItemCount`, which is 50 when none is given. The items are parsed from the reply. |
| Packages.PropertiesMapKeys | src/api/packages.ts:365-370 | A key is in the property map exactly when it is not `__proto__` and some property has that name. Assigning to `__proto__` on a plain object sets its prototype and adds no own key. |
| Packages.PropertiesMapNoProto | src/api/packages.ts:365-370 | A property named `__proto__` never becomes a key. |
| Packages.PropertiesMapLast | src/api/packages.ts:365-370 | The value under a name other than `__proto__` is that of the last property with the name. |
| Packages.PropertiesMapOk | src/api/packages.ts:365-370 | The property map satisfies both of the above. |
| Packages.CollectProperties | src/api/packages.ts:365-370 | The `forEach` loop builds the property map: one key per property name other than `__proto__`, holding the value of the last property with that name. |
| Packages.GetPackageProperties | src/api/packages.ts:347-373 | One GET with the package URI is appended. The result maps each property name other than `__proto__` to the value of its last occurrence in the reply. |
| Runtime.QueryBuilder.constructor | src/api/runtime.ts:77-78 | A new builder has no conditions. |
| Runtime.QueryBuilder.Equals | src/api/runtime.ts:86-88 | `equals( field, value )`. When the field has no comma, field and value read back out of it. |
| Runtime.QueryBuilder.And | src/api/runtime.ts:95-97 | `and( … )` around the conditions, in order, separated by single spaces. |
| Runtime.QueryBuilder.Or | src/api/runtime.ts:104-106 | `or( … )` around the conditions, in order, separated by single spaces. |
| Runtime.QueryBuilder.Not | src/api/runtime.ts:113-115 | `not( … )` around the condition, which reads back out of it. |
| Runtime.QueryBuilder.Where | src/api/runtime.ts:122-125 | Appends the condition at the end; earlier conditions are unchanged. Returns the same builder. |
| Runtime.QueryBuilder.Build | src/api/runtime.ts:131-139 | `""` for no condition, the sole condition unchanged for one, and for two or more the `and( … )` of all conditions in insertion order (never `or`). It reads the builder and changes nothing. |
| Runtime.JoinSnoc | src/api/runtime.ts:96 | Joining one more element puts it at the end, after one separator. |
| Runtime.BuildAfterWhere | src/api/runtime.ts:122-139 | Adding a condition to a non-empty builder extends its conjunction at the end. |
| Runtime.ChainedBuild | src/api/runtime.ts:122-139 | Two `where` calls on a new builder, then `build`, give `and( first second )`. |
| Runtime.DumpsQuery | src/api/runtime.ts:244-280 | An explicit query is sent verbatim as `$query` and takes precedence. Otherwise `responsible` and then `user` give `and( equals( responsible, r ) equals( user, u ) )`; a single one is still wrapped in `and( )`. `$top` and `$skip` are sent only when non-zero. `$inlinecount=allpages` is sent only when asked for. `from` is passed through when non-empty. No other parameter is sent. |
| Runtime.NoOptionsNoQuery | src/api/runtime.ts:237-280 | Without options the dump feed is requested with no parameter at all. |
| Runtime.SingleFilterWrapped | src/api/runtime.ts:249-264 | A lone `responsible` filter is sent as `and( equals( responsible, r ) )`. |
| Runtime.FeedOf | src/api/runtime.ts:149-153 | A reply without a `feed` element is the "Invalid feed format" error; otherwise the result is the first `feed` element. |
| Runtime.GetDumps | src/api/runtime.ts:237-289 | One GET of the dump feed is appended, with the feed headers and the assembled query. The result is the feed check of the reply. |
| Runtime.GetDump | src/api/runtime.ts:297-308 | One GET of the dump by id is appended, with `Accept: text/plain`. The reply text is returned as it is. |
| Runtime.GetSystemMessages | src/api/runtime.ts:315-328 | One GET of the system-message feed is appended, with no query. The result is the feed check of the reply. |
| Runtime.Pad2Digits | src/api/runtime.ts:341-345 | Each component below 100 becomes two digits whose value is the component. |
| Runtime.FormatAdtTimestamp | src/api/runtime.ts:339-348 | For a valid time, the year comes first as `String` writes it, followed by exactly ten characters. With a year of 0 or more the whole timestamp is digits. `Runtime.FormatWidth`, `Runtime.FormatShortYear` and `Runtime.ParseFormat` carry the rest. |
| Runtime.FormatWidth | src/api/runtime.ts:339-348 | For a year from 1000 to 9999 the timestamp is exactly fourteen digits. |
| Runtime.FormatShortYear | src/api/runtime.ts:340-347 | A year from 0 to 999 is not padded, so the timestamp is shorter than fourteen characters. |
| Runtime.ParseAdtTimestamp | src/api/runtime.ts:355-364 | `parseInt` at the six fixed positions, the month moved to count from 0, and years 0–99 read as 1900–1999. It has no contract of its own, because one would add to the cost of every proof that mentions it. `Runtime.ParseFields`, `Runtime.ParseFormat` and `Runtime.FormatParse` carry its properties. |
| Runtime.ParseFields | src/api/runtime.ts:355-363 | Fields at [0,4), [4,6), [6,8), [8,10), [10,12) and [12,14) are read as decimal numbers. The month moves down by one, and a year from 0 to 99 becomes 1900 to 1999. |
| Runtime.ParseFormat | src/api/runtime.ts:339-363 | Parsing a formatted timestamp gives back the same UTC components, for every valid time in the years 1000 to 9999. A valid time has its day within the length of its month, leap years included. |
| Runtime.DaysInMonth | src/api/runtime.ts:355-363 | A month has 28 to 31 days. It has 29 exactly in February of a leap year: a year divisible by 4 and not by 100, or divisible by 400. |
| Runtime.FormatParse | src/api/runtime.ts:339-363 | A fourteen-digit timestamp with a non-zero first digit and in-range fields parses to a valid time that formats back to the same text. In range means a month from 1 to 12 and a day within that month's length, leap years included. |
| Js.ParseIntDigits | src/api/runtime.ts:356-361 | `parseInt` of a non-empty run of digits is its decimal value. |
| RuntimeExamples.EqualsEmptyValue | src/test/runtime.test.ts:5-9 | `equals( responsible,  )`. |
| RuntimeExamples.AndExample | src/test/runtime.test.ts:11-18 | `and( equals( user,  ) equals( responsible,  ) )`. |
| RuntimeExamples.OrExample | src/test/runtime.test.ts:20-27 | `or( equals( status, ACTIVE ) equals( status, PENDING ) )`. |
| RuntimeExamples.NotExample | src/test/runtime.test.ts:29-33 | `not( equals( deleted, true ) )`. |
| RuntimeExamples.ComplexExample | src/test/runtime.test.ts:44-51 | `and( equals( responsible,  ) not( equals( status, DELETED ) ) )`. |
| RuntimeExamples.FormatExample | src/test/runtime.test.ts:55-59 | 2026-01-23 14:30:22 formats as `20260123143022`. |
| RuntimeExamples.FormatPaddedExample | src/test/runtime.test.ts:61-65 | 2026-01-05 08:04:03 formats as `20260105080403`. |
| RuntimeExamples.FormatMidnightExample | src/test/runtime.test.ts:67-71 | Midnight formats as `20260123000000`. |
| RuntimeExamples.ParseExample | src/test/runtime.test.ts:75-84 | `20260123143022` parses to 2026, month 0, day 23, 14:30:22. |
| RuntimeExamples.ParseMidnightExample | src/test/runtime.test.ts:86-92 | `20260123000000` parses to midnight. |

## Left out

- HTTP transport: `AdtHTTP` is not part of this model. `Transport.AdtHttp` stands for it: it logs each request and takes its reply from `serve`. HTTP status codes, network failures, timeouts and `async` scheduling are not modelled. Each API method runs its requests in sequence.
- Sessions and locks: the session manager, the stateless clone and the lock coordinator are not part of this model.
- The XML codec: `fullParse`, `xmlNode`, `xmlArray`, `xmlNodeAttr` and `parseJsonDate` are foreign code. A reply is given already parsed, as a `Tree`. `XmlDoc`'s reader only serves to state that the posted document reads back. It is not a model of `fullParse`.
- Request paths: `encodeURIComponent` is not modelled. An `Endpoint` carries the raw package name or dump id, and `Transport.Path` shows the unencoded path.
- Feed projection: `parseDumpsFeed` and `parseSystemMessagesFeed` are modelled up to the "Invalid feed format" check. The entry, link and category projection and the date parsing are left out, so `GetDumps` and `GetSystemMessages` return the `feed` element itself.
- Dates: `formatAdtTimestamp` takes the UTC components of a `Date` (`UtcTime`, months from 0). `Runtime.ParseAdtTimestamp` returns the components handed to `Date.UTC`, and `None` for the invalid date that a `NaN` component gives. `Date.UTC`'s carrying of out-of-range components into the next unit (month 13, day 32, hour 24) and its millisecond value are not modelled. Its reading of years 0–99 as 1900–1999 is modelled.
- Runtime.ParseAdtTimestamp: a day past the end of its month (`20260231…`) is returned as it is. `Date.UTC` would carry it into the next month. For this reason `Runtime.FormatParse` asks for a day within the month.
- Runtime.FeedOf, Packages.ParsePackage: a `feed` node, or a `package` node in `Packages.PackageNode`, counts as present whenever the parsed tree has one. The source tests the node's JavaScript truthiness, so an empty-string node would count as missing there. The model does not represent that case.
- Numbers: `top`, `skip` and `maxItemCount` are integers. `NaN` and fractions are not represented.
- `Runtime.QueryBuilder.Equals`, `And`, `Or` and `Not` are instance methods in the source. They never touch `conditions`, so they are static functions here. `getDumps` creates a builder only to call them, and the model calls them directly.
- Runtime.QueryBuilder.Equals: the read-back is stated only for fields without a comma, because a field containing `, ` makes the text ambiguous.
- Packages.PackageDocumentReadsBack: the read-back is stated only when the name, the responsible, the package type, the software component and the application component contain no `"`. The source embeds these verbatim, so a `"` in one of them ends the attribute early.
- Packages.DescriptionReadsBack, Packages.TransportLayerReadsBack: these carry the same precondition for the same reason.
- Packages.PackageDocumentReadsBack, Packages.DescriptionReadsBack, Packages.TransportLayerReadsBack: the read-back is by `XmlDoc`'s reader. That reader keeps a tab, line feed or carriage return inside an attribute value as it is. A conforming XML parser replaces each with a space, by attribute-value normalisation (section 3.3.3 of XML 1.0). `escapeXml` leaves these characters alone, so the server reads `line1 line2` where the caller wrote `line1\nline2`. The read-back is exact only for values without these three characters.
- Packages.PackageTreeWellFormed: well-formedness is stated only when the verbatim fields are legal attribute values and the escaped fields hold only XML characters. The source checks neither. A `<`, a bare `&` or a control character in one of them makes the posted document non-XML.
- Runtime.ParseFormat: the round trip is stated for years 1000 to 9999. Other years do not give fourteen characters (see `Runtime.FormatShortYear`).
- Behaviour that follows the code rather than the design description:
  - A `warning` message blocks validation success, because the code accepts only `success` and `info`.
  - Only the description and the transport layer are escaped; the other text fields are embedded verbatim.
  - `createPackage` neither validates first nor reports a failed re-read as its own error. A failing GET fails like any other request.
- The command-line scripts under `testscript/` and `src/testscript/` are left out. They only load settings, print, wait and call the API.
