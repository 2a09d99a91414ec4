/**
 * The boundary the API functions talk to: `AdtHttp.request` and the output of
 * the XML codec. The HTTP client records every request it is given, in order,
 * and answers with whatever the backend replies; the backend is a parameter
 * (`serve`), a function of the whole request history, so that every
 * statement about an API function holds for every backend.
 */
module Transport {

  import opened Js

  datatype Method = Get | Post

  /** A query-string value: the client passes strings and numbers. */
  datatype Param = Str(s: string) | Num(n: int)

  /** The backend resources the two API files address. */
  datatype Endpoint =
    | PackageResource(name: string)
    | PackageCollection
    | PackageValidation
    | TransportLayerHelp
    | SoftwareComponentHelp
    | TranslationRelevanceHelp
    | ObjectPropertyValues
    | DumpFeed
    | DumpResource(id: string)
    | SystemMessageFeed

  /** The request path of an endpoint (names are shown before URI encoding). */
  function Path(e: Endpoint): string {
    match e
    case PackageResource(name) => "/sap/bc/adt/packages/" + name
    case PackageCollection => "/sap/bc/adt/packages"
    case PackageValidation => "/sap/bc/adt/packages/validation"
    case TransportLayerHelp => "/sap/bc/adt/packages/valuehelps/transportlayers"
    case SoftwareComponentHelp => "/sap/bc/adt/packages/valuehelps/softwarecomponents"
    case TranslationRelevanceHelp => "/sap/bc/adt/packages/valuehelps/translationrelevances"
    case ObjectPropertyValues => "/sap/bc/adt/repository/informationsystem/objectproperties/values"
    case DumpFeed => "/sap/bc/adt/runtime/dumps"
    case DumpResource(id) => "/sap/bc/adt/runtime/dump/" + id
    case SystemMessageFeed => "/sap/bc/adt/runtime/systemmessages"
  }

  datatype HttpRequest = HttpRequest(
    verb: Method,
    endpoint: Endpoint,
    qs: map<string, Param>,
    headers: map<string, string>,
    body: Option<string>)

  /**
   * A node of a parsed document, as the XML codec hands it over (namespace
   * prefixes removed): text values and attributes by name, and the child
   * elements by name.
   */
  datatype Tree = Tree(values: map<string, string>, children: map<string, seq<Tree>>)

  /** A reply: its headers, its body text, and the codec's parse of that body. */
  datatype Response = Response(headers: map<string, string>, body: string, parsed: Tree)

  /** `xmlNode(t, key)`: a text value or attribute, `undefined` when absent. */
  function XmlNode(t: Tree, key: string): Option<string> {
    if key in t.values then Some(t.values[key]) else None
  }

  /** `xmlArray(t, key)`: the child elements named `key`, `[]` when there are none. */
  function XmlArray(t: Tree, key: string): seq<Tree> {
    if key in t.children then t.children[key] else []
  }

  /** `t?.key` for a child element: its first occurrence, `undefined` when absent. */
  function XmlChild(t: Tree, key: string): Option<Tree> {
    var cs := XmlArray(t, key);
    if cs == [] then None else Some(cs[0])
  }

  /** `headers?.[key]`. */
  function Header(headers: map<string, string>, key: string): Option<string> {
    if key in headers then Some(headers[key]) else None
  }

  /** The HTTP client the API functions receive as `h`. */
  class AdtHttp {
    /** The logged-on user, used as the default responsible of a new package. */
    const username: string
    /** The backend's reply to the last request of a history. */
    const serve: seq<HttpRequest> -> Response
    /** Every request issued through this client, oldest first. */
    var log: seq<HttpRequest>

    constructor (username: string, serve: seq<HttpRequest> -> Response)
      ensures this.username == username && this.serve == serve
      ensures log == []
    {
      this.username := username;
      this.serve := serve;
      log := [];
    }

    /** `h.request(path, options)`: send one request and wait for its reply. */
    method Request(req: HttpRequest) returns (resp: Response)
      modifies this
      ensures log == old(log) + [req]
      ensures resp == serve(log)
    {
      log := log + [req];
      resp := serve(log);
    }
  }
}
