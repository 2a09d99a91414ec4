/**
 * The package API (`src/api/packages.ts`): reading a package with an
 * optional ETag precondition, creating one from an attribute-bearing XML
 * document and re-reading it, validating a package configuration, the
 * value helps, and the object-properties lookup.
 */
module Packages {

  import opened Js
  import opened Transport
  import opened XmlText
  import opened XmlDoc

  /**
   * A package as the client sees it. Every text field can be `undefined` at
   * run time (the parser returns `undefined` for a missing node), so each is
   * an `Option`; only `packageType` is always a string.
   */
  datatype Package = Package(
    name: Option<string>,
    description: Option<string>,
    packageType: string,
    softwareComponent: Option<string>,
    transportLayer: Option<string>,
    applicationComponent: Option<string>,
    translationRelevance: Option<string>,
    responsible: Option<string>)

  datatype StatusMessage = StatusMessage(severity: string, text: Option<string>, code: Option<string>)

  datatype ValidationResult = ValidationResult(success: bool, messages: seq<StatusMessage>)

  datatype NamedItem = NamedItem(name: Option<string>, description: Option<string>)

  datatype ValidationOptions = ValidationOptions(
    objname: string,
    description: string,
    packagetype: string,
    swcomp: string,
    appcomp: Option<string>,
    checkmode: string)

  datatype ReadOptions = ReadOptions(ifNoneMatch: Option<string>)

  datatype CreateOptions = CreateOptions(corrNr: Option<string>)

  /** What `getPackage` returns: the package and the ETag of the reply. */
  datatype PackageRead = PackageRead(package: Package, etag: Option<string>)

  /** What `createPackage` returns: the `Location` of the new package and its re-read. */
  datatype Created = Created(location: string, package: PackageRead)

  /** `createPackage` throws "Creation failed: No Location header returned". */
  datatype CreateError = NoLocation

  // ---------------------------------------------------------------------------
  // Constants
  // ---------------------------------------------------------------------------

  const PackagesAccept := "application/vnd.sap.adt.packages.v2+xml, application/vnd.sap.adt.packages.v1+xml"

  const PakNamespace := "http://www.sap.com/adt/packages"

  const AdtcoreNamespace := "http://www.sap.com/adt/core"

  const ReadHeadersBase: map<string, string> :=
    map["Accept" := PackagesAccept, "X-sap-adt-profiling" := "server-time"]

  const CreateHeaders: map<string, string> :=
    map["Content-Type" := "application/vnd.sap.adt.packages.v1+xml",
        "Accept" := PackagesAccept,
        "X-sap-adt-profiling" := "server-time"]

  const ValidationHeaders: map<string, string> :=
    map["Accept" := "application/vnd.sap.as+xml", "X-sap-adt-profiling" := "server-time"]

  const ValueHelpHeaders: map<string, string> :=
    map["Accept" := "application/xml, application/vnd.sap.adt.nameditems.v1+xml",
        "X-sap-adt-profiling" := "server-time"]

  const PropertiesHeaders: map<string, string> :=
    map["Accept" := "application/vnd.sap.adt.repository.objproperties.result.v1+xml",
        "X-sap-adt-profiling" := "server-time"]

  // ---------------------------------------------------------------------------
  // Parsers (over the codec's tree)
  // ---------------------------------------------------------------------------

  /** `raw?.package || raw`: the package element, or the root itself. */
  function PackageNode(raw: Tree): Tree {
    match XmlChild(raw, "package")
    case Some(p) => p
    case None => raw
  }

  /** `parsePackage`: each field from its node; a missing package type is `development`. */
  function ParsePackage(raw: Tree): (p: Package)
    ensures p.packageType != ""
    ensures !Truthy(XmlNode(PackageNode(raw), "packageType")) ==> p.packageType == "development"
    ensures Truthy(XmlNode(PackageNode(raw), "packageType")) ==>
              Some(p.packageType) == XmlNode(PackageNode(raw), "packageType")
  {
    var node := PackageNode(raw);
    Package(
      XmlNode(node, "name"),
      XmlNode(node, "description"),
      Default(OrElse(XmlNode(node, "packageType"), Some("development")), "development"),
      XmlNode(node, "softwareComponent"),
      XmlNode(node, "transportLayer"),
      XmlNode(node, "applicationComponent"),
      XmlNode(node, "translationRelevance"),
      XmlNode(node, "responsible"))
  }

  /**
   * Every other field is read from the package element as it stands, or
   * from the root when the reply has no `package` element; absent nodes
   * stay `undefined`.
   */
  lemma ParsePackageFields(raw: Tree)
    ensures var p := ParsePackage(raw);
            var node := if "package" in raw.children && raw.children["package"] != []
                        then raw.children["package"][0] else raw;
            && p.name == XmlNode(node, "name")
            && p.description == XmlNode(node, "description")
            && p.softwareComponent == XmlNode(node, "softwareComponent")
            && p.transportLayer == XmlNode(node, "transportLayer")
            && p.applicationComponent == XmlNode(node, "applicationComponent")
            && p.translationRelevance == XmlNode(node, "translationRelevance")
            && p.responsible == XmlNode(node, "responsible")
  {
  }

  /** One `message` node; a missing severity is `info`. */
  function ParseMessage(msg: Tree): (m: StatusMessage)
    ensures m.severity != ""
    ensures !Truthy(XmlNode(msg, "severity")) ==> m.severity == "info"
    ensures Truthy(XmlNode(msg, "severity")) ==> Some(m.severity) == XmlNode(msg, "severity")
    ensures m.text == XmlNode(msg, "text") && m.code == XmlNode(msg, "code")
  {
    StatusMessage(
      Default(OrElse(XmlNode(msg, "severity"), Some("info")), "info"),
      XmlNode(msg, "text"),
      XmlNode(msg, "code"))
  }

  predicate IsPassing(m: StatusMessage) {
    m.severity == "success" || m.severity == "info"
  }

  /** `messages.every(m => m.severity === 'success' || m.severity === 'info')`. */
  function Every(ms: seq<StatusMessage>): bool
    decreases |ms|
  {
    ms == [] || (IsPassing(ms[0]) && Every(ms[1..]))
  }

  lemma {:induction false} EveryIsForall(ms: seq<StatusMessage>)
    ensures Every(ms) <==> forall i :: 0 <= i < |ms| ==> IsPassing(ms[i])
    decreases |ms|
  {
    if ms != [] {
      EveryIsForall(ms[1..]);
      assert forall i :: 1 <= i < |ms| ==> ms[i] == ms[1..][i - 1];
    }
  }

  /**
   * `parseValidationResult`: the messages in document order, and success
   * exactly when every severity is `success` or `info`.
   */
  function ParseValidationResult(raw: Tree): (r: ValidationResult)
    ensures |r.messages| == |XmlArray(raw, "message")|
    ensures forall i :: 0 <= i < |r.messages| ==> r.messages[i] == ParseMessage(XmlArray(raw, "message")[i])
    ensures r.success <==> forall i :: 0 <= i < |r.messages| ==>
                             r.messages[i].severity == "success" || r.messages[i].severity == "info"
  {
    var nodes := XmlArray(raw, "message");
    var messages := seq(|nodes|, i requires 0 <= i < |nodes| => ParseMessage(nodes[i]));
    EveryIsForall(messages);
    ValidationResult(Every(messages), messages)
  }

  /** An empty message list is a success; a warning or an error anywhere is not. */
  lemma ValidationVerdict(raw: Tree, i: nat)
    requires i < |XmlArray(raw, "message")|
    ensures var sev := XmlNode(XmlArray(raw, "message")[i], "severity");
            sev == Some("warning") || sev == Some("error") ==> !ParseValidationResult(raw).success
    ensures !Truthy(XmlNode(XmlArray(raw, "message")[i], "severity")) ==>
              ParseValidationResult(raw).messages[i].severity == "info"
  {
    var r := ParseValidationResult(raw);
    assert r.messages[i] == ParseMessage(XmlArray(raw, "message")[i]);
  }

  /** `parseNamedItems`: one item per `item` node, in order. */
  function ParseNamedItems(raw: Tree): (items: seq<NamedItem>)
    ensures |items| == |XmlArray(raw, "item")|
    ensures forall i :: 0 <= i < |items| ==>
              items[i] == NamedItem(XmlNode(XmlArray(raw, "item")[i], "name"),
                                    XmlNode(XmlArray(raw, "item")[i], "description"))
  {
    var nodes := XmlArray(raw, "item");
    seq(|nodes|, i requires 0 <= i < |nodes| => NamedItem(XmlNode(nodes[i], "name"), XmlNode(nodes[i], "description")))
  }

  // ---------------------------------------------------------------------------
  // Response headers
  // ---------------------------------------------------------------------------

  /** `headers?.etag || headers?.['ETag']`. */
  function EtagOf(headers: map<string, string>): (r: Option<string>)
    ensures Truthy(Header(headers, "etag")) ==> r == Header(headers, "etag")
    ensures !Truthy(Header(headers, "etag")) ==> r == Header(headers, "ETag")
  {
    OrElse(Header(headers, "etag"), Header(headers, "ETag"))
  }

  /**
   * `headers?.location || headers?.['Location']`, `None` where `createPackage`
   * then throws (neither header holds a non-empty value).
   */
  function LocationOf(headers: map<string, string>): (r: Option<string>)
    ensures r.Some? ==> r.value != ""
    ensures r.Some? ==> r == Header(headers, "location") || r == Header(headers, "Location")
  {
    var loc := OrElse(Header(headers, "location"), Header(headers, "Location"));
    if Truthy(loc) then loc else None
  }

  lemma LocationCases(headers: map<string, string>)
    ensures LocationOf(headers).None? <==>
              !Truthy(Header(headers, "location")) && !Truthy(Header(headers, "Location"))
    ensures Truthy(Header(headers, "location")) ==> LocationOf(headers) == Header(headers, "location")
    ensures !Truthy(Header(headers, "location")) && Truthy(Header(headers, "Location")) ==>
              LocationOf(headers) == Header(headers, "Location")
    ensures LocationOf(headers).Some? ==> LocationOf(headers).value != ""
  {
  }

  // ---------------------------------------------------------------------------
  // The package document
  // ---------------------------------------------------------------------------

  /** A package with no (or an empty) transport layer is a local `$TMP` object. */
  predicate IsTmp(pkg: Package)
    ensures IsTmp(pkg) <==> pkg.transportLayer == None || pkg.transportLayer == Some("")
  {
    !Truthy(pkg.transportLayer)
  }

  /** `pkg.responsible || h.username`. */
  function Responsible(pkg: Package, username: string): string {
    if Truthy(pkg.responsible) then pkg.responsible.value else username
  }

  /** `$TMP` for a local package, otherwise the escaped transport layer. */
  function TransportLayerName(pkg: Package): string {
    if IsTmp(pkg) then "$TMP" else EscapeXml(pkg.transportLayer)
  }

  function Leaf(tag: string, attrs: seq<Attr>): Element {
    Element(tag, attrs, "", [])
  }

  function ChildAttr(name: string, value: string): Attr {
    Attr(" ", name, value)
  }

  function RootAttr(name: string, value: string): Attr {
    Attr("\n  ", name, value)
  }

  /** The attributes of `pak:package`: namespaces, then one per line of core metadata. */
  function RootAttrs(pkg: Package, username: string): seq<Attr> {
    [ ChildAttr("xmlns:pak", PakNamespace),
      ChildAttr("xmlns:adtcore", AdtcoreNamespace),
      RootAttr("adtcore:description", EscapeXml(pkg.description)),
      RootAttr("adtcore:name", Interp(pkg.name)),
      RootAttr("adtcore:type", "DEVC/K"),
      RootAttr("adtcore:version", "active"),
      RootAttr("adtcore:responsible", Responsible(pkg, username)) ]
  }

  /** With a component, `<pak:applicationComponent adtcore:name="..."/>`; without, `<pak:applicationComponent />`. */
  function ApplicationComponent(pkg: Package): Element {
    var app := pkg.applicationComponent;
    if Truthy(app) then Leaf("pak:applicationComponent", [ChildAttr("adtcore:name", app.value)])
    else Element("pak:applicationComponent", [], " ", [])
  }

  function TransportElement(pkg: Package): Element {
    Element("pak:transport", [], "", [
      Leaf("pak:softwareComponent", [ChildAttr("adtcore:name", Interp(pkg.softwareComponent))]),
      Leaf("pak:transportLayer", [ChildAttr("pak:name", TransportLayerName(pkg))]) ])
  }

  function PackageChildren(pkg: Package): seq<Element> {
    [ Leaf("adtcore:packageRef", [ChildAttr("adtcore:name", "$TMP")]),
      Leaf("pak:attributes", [ChildAttr("pak:packageType", pkg.packageType)]),
      Leaf("pak:superPackage", [ChildAttr("adtcore:name", "$TMP")]),
      ApplicationComponent(pkg),
      TransportElement(pkg),
      Leaf("pak:translation", []),
      Leaf("pak:useAccesses", []),
      Leaf("pak:packageInterfaces", []),
      Leaf("pak:subPackages", []) ]
  }

  /**
   * The `pak:package` document as `createPackage` lays it out: core metadata
   * as attributes of the root, composite parts as child elements. Only the
   * description and the transport layer are escaped.
   */
  function PackageTree(pkg: Package, username: string): (e: Element)
    ensures e.tag == "pak:package" && |e.attrs| == 7 && |e.children| == 9
    ensures forall i, j :: 0 <= i < j < |e.attrs| ==> e.attrs[i].name != e.attrs[j].name
  {
    Element("pak:package", RootAttrs(pkg, username), "", PackageChildren(pkg))
  }

  /** The request body `createPackage` posts. */
  function PackageDocument(pkg: Package, username: string): (s: string)
    ensures |s| > |XmlDeclaration| && s[..|XmlDeclaration|] == XmlDeclaration
  {
    Document(PackageTree(pkg, username))
  }

  /** The fields embedded verbatim must not contain `"` for the document to read back. */
  predicate VerbatimFieldsQuoteFree(pkg: Package, username: string) {
    && '"' !in Interp(pkg.name)
    && '"' !in Responsible(pkg, username)
    && '"' !in pkg.packageType
    && '"' !in Interp(pkg.softwareComponent)
    && (Truthy(pkg.applicationComponent) ==> '"' !in pkg.applicationComponent.value)
  }

  // The element and attribute names of the document are XML names. These
  // lemmas model nothing of their own: they split the literal checks into
  // small proof obligations so that the solver handles each one cheaply.

  lemma RootNames()
    ensures IsName("pak:package") && IsName("xmlns:pak") && IsName("xmlns:adtcore")
    ensures IsName("adtcore:description")
  {
  }

  lemma MetadataNames()
    ensures IsName("adtcore:name") && IsName("adtcore:type") && IsName("adtcore:version")
    ensures IsName("adtcore:responsible")
  {
  }

  lemma PartNames()
    ensures IsName("adtcore:packageRef") && IsName("pak:attributes") && IsName("pak:packageType")
  {
  }

  lemma ComponentNames()
    ensures IsName("pak:superPackage") && IsName("pak:applicationComponent")
  {
  }

  lemma TransportNames()
    ensures IsName("pak:transport") && IsName("pak:softwareComponent") && IsName("pak:transportLayer")
  {
  }

  lemma ClosingNames()
    ensures IsName("pak:name") && IsName("pak:translation") && IsName("pak:useAccesses")
  {
  }

  lemma InterfaceNames()
    ensures IsName("pak:packageInterfaces") && IsName("pak:subPackages")
  {
  }

  lemma QuoteFree(s: string)
    requires forall i :: 0 <= i < |s| ==> s[i] != '"'
    ensures '"' !in s
  {
  }

  lemma NamespacesQuoteFree()
    ensures '"' !in PakNamespace && '"' !in AdtcoreNamespace
  {
    QuoteFree(PakNamespace);
    QuoteFree(AdtcoreNamespace);
  }

  lemma LeafReadable(tag: string, attrs: seq<Attr>)
    requires IsName(tag)
    requires forall a :: a in attrs ==> a.lead == " " && IsName(a.name) && '"' !in a.value
    ensures Readable(Leaf(tag, attrs))
  {
    forall a | a in attrs
      ensures ReadableAttr(a)
    {
      assert AllSpaces(a.lead);
    }
  }

  lemma AttrReadable(a: Attr)
    requires a.lead == " " || a.lead == "\n  "
    requires IsName(a.name) && '"' !in a.value
    ensures ReadableAttr(a)
  {
    assert AllSpaces(a.lead);
  }

  lemma RootAttrsReadable(pkg: Package, username: string)
    requires VerbatimFieldsQuoteFree(pkg, username)
    ensures forall a :: a in RootAttrs(pkg, username) ==> ReadableAttr(a)
  {
    RootNames();
    MetadataNames();
    NamespacesQuoteFree();
    var d := EscapeXml(pkg.description);
    assert '"' !in d by {
      assert WellEscaped(d);
    }
    AttrReadable(ChildAttr("xmlns:pak", PakNamespace));
    AttrReadable(ChildAttr("xmlns:adtcore", AdtcoreNamespace));
    AttrReadable(RootAttr("adtcore:description", d));
    AttrReadable(RootAttr("adtcore:name", Interp(pkg.name)));
    AttrReadable(RootAttr("adtcore:type", "DEVC/K"));
    AttrReadable(RootAttr("adtcore:version", "active"));
    AttrReadable(RootAttr("adtcore:responsible", Responsible(pkg, username)));
  }

  lemma TransportReadable(pkg: Package)
    requires '"' !in Interp(pkg.softwareComponent)
    ensures Readable(TransportElement(pkg))
  {
    TransportNames();
    ClosingNames();
    MetadataNames();
    LeafReadable("pak:softwareComponent", [ChildAttr("adtcore:name", Interp(pkg.softwareComponent))]);
    assert WellEscaped(EscapeXml(pkg.transportLayer));
    assert '"' !in TransportLayerName(pkg);
    LeafReadable("pak:transportLayer", [ChildAttr("pak:name", TransportLayerName(pkg))]);
  }

  lemma ChildrenReadable(pkg: Package, username: string)
    requires VerbatimFieldsQuoteFree(pkg, username)
    ensures forall c :: c in PackageChildren(pkg) ==> Readable(c)
  {
    PartNames();
    ComponentNames();
    ClosingNames();
    InterfaceNames();
    MetadataNames();
    LeafReadable("adtcore:packageRef", [ChildAttr("adtcore:name", "$TMP")]);
    LeafReadable("pak:attributes", [ChildAttr("pak:packageType", pkg.packageType)]);
    LeafReadable("pak:superPackage", [ChildAttr("adtcore:name", "$TMP")]);
    if Truthy(pkg.applicationComponent) {
      LeafReadable("pak:applicationComponent", [ChildAttr("adtcore:name", pkg.applicationComponent.value)]);
    } else {
      assert AllSpaces(" ");
    }
    TransportReadable(pkg);
    LeafReadable("pak:translation", []);
    LeafReadable("pak:useAccesses", []);
    LeafReadable("pak:packageInterfaces", []);
    LeafReadable("pak:subPackages", []);
  }

  /** The generated document is readable whenever the verbatim fields hold no `"`. */
  lemma PackageTreeReadable(pkg: Package, username: string)
    requires VerbatimFieldsQuoteFree(pkg, username)
    ensures Readable(PackageTree(pkg, username))
  {
    RootNames();
    RootAttrsReadable(pkg, username);
    ChildrenReadable(pkg, username);
  }

  /**
   * The text fields make well-formed XML: the escaped ones hold only XML
   * characters, and the verbatim ones are attribute text already.
   */
  predicate FieldsXmlSafe(pkg: Package, username: string) {
    && (Truthy(pkg.description) ==> IsXmlString(pkg.description.value))
    && (Truthy(pkg.transportLayer) ==> IsXmlString(pkg.transportLayer.value))
    && IsAttrText(Interp(pkg.name))
    && IsAttrText(Responsible(pkg, username))
    && IsAttrText(pkg.packageType)
    && IsAttrText(Interp(pkg.softwareComponent))
    && (Truthy(pkg.applicationComponent) ==> IsAttrText(pkg.applicationComponent.value))
  }

  lemma AttrTextQuoteFree(v: string)
    requires IsAttrText(v)
    ensures '"' !in v
  {
  }

  lemma FieldsXmlSafeQuoteFree(pkg: Package, username: string)
    requires FieldsXmlSafe(pkg, username)
    ensures VerbatimFieldsQuoteFree(pkg, username)
  {
    AttrTextQuoteFree(Interp(pkg.name));
    AttrTextQuoteFree(Responsible(pkg, username));
    AttrTextQuoteFree(pkg.packageType);
    AttrTextQuoteFree(Interp(pkg.softwareComponent));
    if Truthy(pkg.applicationComponent) {
      AttrTextQuoteFree(pkg.applicationComponent.value);
    }
  }

  lemma {:induction false} EscapeEachXmlString(s: string)
    requires IsXmlString(s)
    ensures IsXmlString(EscapeEach(s))
    decreases |s|
  {
    if s != [] {
      EscapeEachXmlString(s[1..]);
      var e := EscapeChar(s[0]);
      assert IsXmlString(e) by {
        assert IsXmlChar(s[0]);
      }
      assert EscapeEach(s) == e + EscapeEach(s[1..]);
    }
  }

  /** Escaping text made of XML characters gives attribute text. */
  lemma EscapedAttrText(str: Option<string>)
    requires Truthy(str) ==> IsXmlString(str.value)
    ensures IsAttrText(EscapeXml(str))
  {
    if Truthy(str) {
      EscapeXmlPresent(str.value);
      EscapeEachXmlString(str.value);
    }
  }

  /** Printable ASCII without `"`, `<` or `&` is a legal attribute value as it stands. */
  lemma PrintableAttrText(s: string)
    requires forall i :: 0 <= i < |s| ==> ' ' <= s[i] <= '~'
    requires forall i :: 0 <= i < |s| ==> s[i] != '"'
    requires forall i :: 0 <= i < |s| ==> s[i] != '<'
    requires forall i :: 0 <= i < |s| ==> s[i] != '&'
    ensures IsAttrText(s)
  {
  }

  /** The fixed attribute texts the builder writes are legal attribute values. */
  lemma PakNamespaceAttrText()
    ensures IsAttrText(PakNamespace)
  {
    PrintableAttrText(PakNamespace);
  }

  lemma AdtcoreNamespaceAttrText()
    ensures IsAttrText(AdtcoreNamespace)
  {
    PrintableAttrText(AdtcoreNamespace);
  }

  lemma LiteralsAttrText()
    ensures IsAttrText("$TMP") && IsAttrText("DEVC/K") && IsAttrText("active")
  {
    PrintableAttrText("$TMP");
    PrintableAttrText("DEVC/K");
    PrintableAttrText("active");
  }

  lemma RootAttrsText(pkg: Package, username: string)
    requires FieldsXmlSafe(pkg, username)
    ensures forall a :: a in RootAttrs(pkg, username) ==> IsAttrText(a.value)
  {
    PakNamespaceAttrText();
    AdtcoreNamespaceAttrText();
    LiteralsAttrText();
    EscapedAttrText(pkg.description);
  }

  lemma RootAttrNamesDistinct(pkg: Package, username: string)
    ensures var attrs := RootAttrs(pkg, username);
            forall i, j :: 0 <= i < j < |attrs| ==> attrs[i].name != attrs[j].name
  {
  }

  /** A leaf with at most one attribute, whose value is attribute text, is well formed. */
  lemma LeafWellFormed(tag: string, attrs: seq<Attr>)
    requires IsName(tag) && |attrs| <= 1
    requires forall a :: a in attrs ==> a.lead == " " && IsName(a.name) && IsAttrText(a.value)
    ensures WellFormed(Leaf(tag, attrs))
  {
    forall a | a in attrs
      ensures '"' !in a.value
    {
      AttrTextQuoteFree(a.value);
    }
    LeafReadable(tag, attrs);
  }

  lemma TransportWellFormed(pkg: Package)
    requires IsAttrText(Interp(pkg.softwareComponent))
    requires Truthy(pkg.transportLayer) ==> IsXmlString(pkg.transportLayer.value)
    ensures WellFormed(TransportElement(pkg))
  {
    AttrTextQuoteFree(Interp(pkg.softwareComponent));
    TransportReadable(pkg);
    TransportNames();
    ClosingNames();
    MetadataNames();
    LiteralsAttrText();
    EscapedAttrText(pkg.transportLayer);
    LeafWellFormed("pak:softwareComponent", [ChildAttr("adtcore:name", Interp(pkg.softwareComponent))]);
    LeafWellFormed("pak:transportLayer", [ChildAttr("pak:name", TransportLayerName(pkg))]);
  }

  lemma ChildWellFormed(pkg: Package, username: string, i: nat)
    requires FieldsXmlSafe(pkg, username)
    requires i < |PackageChildren(pkg)|
    ensures WellFormed(PackageChildren(pkg)[i])
  {
    var cs := PackageChildren(pkg);
    PartNames();
    ComponentNames();
    ClosingNames();
    InterfaceNames();
    MetadataNames();
    LiteralsAttrText();
    if i == 0 {
      LeafWellFormed("adtcore:packageRef", [ChildAttr("adtcore:name", "$TMP")]);
    } else if i == 1 {
      LeafWellFormed("pak:attributes", [ChildAttr("pak:packageType", pkg.packageType)]);
    } else if i == 2 {
      LeafWellFormed("pak:superPackage", [ChildAttr("adtcore:name", "$TMP")]);
    } else if i == 3 {
      if Truthy(pkg.applicationComponent) {
        LeafWellFormed("pak:applicationComponent", [ChildAttr("adtcore:name", pkg.applicationComponent.value)]);
      } else {
        assert AllSpaces(" ");
      }
    } else if i == 4 {
      TransportWellFormed(pkg);
    } else if i == 5 {
      LeafWellFormed("pak:translation", []);
    } else if i == 6 {
      LeafWellFormed("pak:useAccesses", []);
    } else if i == 7 {
      LeafWellFormed("pak:packageInterfaces", []);
    } else {
      LeafWellFormed("pak:subPackages", []);
    }
  }

  lemma ChildrenWellFormed(pkg: Package, username: string)
    requires FieldsXmlSafe(pkg, username)
    ensures forall c :: c in PackageChildren(pkg) ==> WellFormed(c)
  {
    var cs := PackageChildren(pkg);
    forall i | 0 <= i < |cs|
      ensures WellFormed(cs[i])
    {
      ChildWellFormed(pkg, username, i);
    }
  }

  /**
   * The generated document is well-formed XML whenever the escaped fields
   * hold only XML characters and the verbatim ones are attribute text.
   */
  lemma PackageTreeWellFormed(pkg: Package, username: string)
    requires FieldsXmlSafe(pkg, username)
    ensures WellFormed(PackageTree(pkg, username))
  {
    FieldsXmlSafeQuoteFree(pkg, username);
    PackageTreeReadable(pkg, username);
    RootAttrsText(pkg, username);
    RootAttrNamesDistinct(pkg, username);
    ChildrenWellFormed(pkg, username);
  }

  lemma LeafShape(tag: string, n: string, v: string)
    ensures Shape(Leaf(tag, [ChildAttr(n, v)])) == Parsed(tag, [(n, v)], [])
  {
    assert ShapeAll([]) == [];
    assert AttrPairs([ChildAttr(n, v)]) == [(n, v)];
  }

  lemma EmptyShape(tag: string, tail: string)
    ensures Shape(Element(tag, [], tail, [])) == Parsed(tag, [], [])
  {
    assert ShapeAll([]) == [];
    assert AttrPairs([]) == [];
  }

  /** The parsed form of the generated document, as `createPackage` writes it. */
  function PackageParsed(pkg: Package, username: string): Parsed {
    Parsed("pak:package",
      [ ("xmlns:pak", PakNamespace),
        ("xmlns:adtcore", AdtcoreNamespace),
        ("adtcore:description", EscapeXml(pkg.description)),
        ("adtcore:name", Interp(pkg.name)),
        ("adtcore:type", "DEVC/K"),
        ("adtcore:version", "active"),
        ("adtcore:responsible", if Truthy(pkg.responsible) then pkg.responsible.value else username) ],
      [ Parsed("adtcore:packageRef", [("adtcore:name", "$TMP")], []),
        Parsed("pak:attributes", [("pak:packageType", pkg.packageType)], []),
        Parsed("pak:superPackage", [("adtcore:name", "$TMP")], []),
        Parsed("pak:applicationComponent",
               if Truthy(pkg.applicationComponent) then [("adtcore:name", pkg.applicationComponent.value)] else [],
               []),
        Parsed("pak:transport", [], [
          Parsed("pak:softwareComponent", [("adtcore:name", Interp(pkg.softwareComponent))], []),
          Parsed("pak:transportLayer",
                 [("pak:name", if !Truthy(pkg.transportLayer) then "$TMP" else EscapeXml(pkg.transportLayer))],
                 []) ]),
        Parsed("pak:translation", [], []),
        Parsed("pak:useAccesses", [], []),
        Parsed("pak:packageInterfaces", [], []),
        Parsed("pak:subPackages", [], []) ])
  }

  lemma TransportShape(pkg: Package)
    ensures Shape(TransportElement(pkg)) == PackageParsed(pkg, "").children[4]
  {
    var cs := TransportElement(pkg).children;
    ShapeAllEach(cs);
    LeafShape("pak:softwareComponent", "adtcore:name", Interp(pkg.softwareComponent));
    LeafShape("pak:transportLayer", "pak:name", TransportLayerName(pkg));
    assert AttrPairs([]) == [];
  }

  lemma ChildrenShape(pkg: Package, username: string)
    ensures ShapeAll(PackageChildren(pkg)) == PackageParsed(pkg, username).children
  {
    var cs := PackageChildren(pkg);
    var ps := PackageParsed(pkg, username).children;
    ShapeAllEach(cs);
    LeafShape("adtcore:packageRef", "adtcore:name", "$TMP");
    LeafShape("pak:attributes", "pak:packageType", pkg.packageType);
    LeafShape("pak:superPackage", "adtcore:name", "$TMP");
    if Truthy(pkg.applicationComponent) {
      LeafShape("pak:applicationComponent", "adtcore:name", pkg.applicationComponent.value);
    } else {
      EmptyShape("pak:applicationComponent", " ");
    }
    TransportShape(pkg);
    assert ps[4] == PackageParsed(pkg, "").children[4];
    EmptyShape("pak:translation", "");
    EmptyShape("pak:useAccesses", "");
    EmptyShape("pak:packageInterfaces", "");
    EmptyShape("pak:subPackages", "");
    assert forall i :: 0 <= i < |cs| ==> ShapeAll(cs)[i] == ps[i];
  }

  lemma RootAttrsShape(pkg: Package, username: string)
    ensures AttrPairs(RootAttrs(pkg, username)) == PackageParsed(pkg, username).attrs
  {
  }

  /**
   * Reading the generated document back gives exactly the attributes the
   * source writes: the escaped description, the name as given, type `DEVC/K`,
   * version `active`, the responsible user (the caller's or the logged-on
   * user), the application component only when one is given, and `$TMP` as
   * the transport layer of a local package.
   */
  lemma PackageDocumentReadsBack(pkg: Package, username: string)
    requires VerbatimFieldsQuoteFree(pkg, username)
    ensures ParseDocument(PackageDocument(pkg, username)) == Some(PackageParsed(pkg, username))
  {
    PackageTreeReadable(pkg, username);
    DocumentReadsBack(PackageTree(pkg, username));
    RootAttrsShape(pkg, username);
    ChildrenShape(pkg, username);
  }

  /** The description attribute of the generated document decodes to the caller's description. */
  lemma DescriptionReadsBack(pkg: Package, username: string)
    requires VerbatimFieldsQuoteFree(pkg, username)
    ensures var doc := ParseDocument(PackageDocument(pkg, username));
            && doc.Some? && |doc.value.attrs| > 2
            && doc.value.attrs[2].0 == "adtcore:description"
            && WellEscaped(doc.value.attrs[2].1)
            && Unescape(doc.value.attrs[2].1) == (if Truthy(pkg.description) then pkg.description.value else "")
  {
    PackageDocumentReadsBack(pkg, username);
  }

  /**
   * The transport layer of the generated document: `$TMP` for a local
   * package, otherwise a well-escaped text that decodes to the caller's layer.
   */
  lemma TransportLayerReadsBack(pkg: Package, username: string)
    requires VerbatimFieldsQuoteFree(pkg, username)
    ensures var doc := ParseDocument(PackageDocument(pkg, username));
            && doc.Some? && |doc.value.children| > 4 && |doc.value.children[4].children| > 1
            && var layer := doc.value.children[4].children[1];
            && layer.tag == "pak:transportLayer" && |layer.attrs| == 1 && layer.attrs[0].0 == "pak:name"
            && (IsTmp(pkg) ==> layer.attrs[0].1 == "$TMP")
            && (!IsTmp(pkg) ==> WellEscaped(layer.attrs[0].1) && Unescape(layer.attrs[0].1) == pkg.transportLayer.value)
  {
    PackageDocumentReadsBack(pkg, username);
  }

  // ---------------------------------------------------------------------------
  // Request building
  // ---------------------------------------------------------------------------

  function IfNoneMatch(options: Option<ReadOptions>): Option<string> {
    if options.Some? then options.value.ifNoneMatch else None
  }

  function CorrNr(options: Option<CreateOptions>): Option<string> {
    if options.Some? then options.value.corrNr else None
  }

  /** `getPackage`'s headers: `If-None-Match` is sent, unmodified, exactly when given and non-empty. */
  ghost predicate ReadHeadersOk(options: Option<ReadOptions>, headers: map<string, string>) {
    && ("If-None-Match" in headers <==> Truthy(IfNoneMatch(options)))
    && ("If-None-Match" in headers ==> headers["If-None-Match"] == IfNoneMatch(options).value)
    && (forall k :: k in headers && k != "If-None-Match" <==> k in ReadHeadersBase)
    && (forall k :: k in ReadHeadersBase ==> headers[k] == ReadHeadersBase[k])
  }

  /** Without options the read sends exactly the two fixed headers. */
  lemma ReadHeadersNone(headers: map<string, string>)
    requires ReadHeadersOk(None, headers)
    ensures headers == ReadHeadersBase
  {

  }

  method ReadHeaders(options: Option<ReadOptions>) returns (headers: map<string, string>)
    ensures ReadHeadersOk(options, headers)
  {
    headers := ReadHeadersBase;
    if Truthy(IfNoneMatch(options)) {
      headers := headers["If-None-Match" := IfNoneMatch(options).value];
    }
  }

  /**
   * `createPackage`'s query: `corrNr` only for a non-local package and only
   * when the caller gave a non-empty one; otherwise no parameter at all.
   */
  ghost predicate CreateQueryOk(pkg: Package, options: Option<CreateOptions>, qs: map<string, Param>) {
    && ("corrNr" in qs <==> Truthy(CorrNr(options)) && !IsTmp(pkg))
    && ("corrNr" in qs ==> qs["corrNr"] == Str(CorrNr(options).value))
    && qs.Keys <= {"corrNr"}
  }

  method CreateQuery(pkg: Package, options: Option<CreateOptions>) returns (qs: map<string, Param>)
    ensures CreateQueryOk(pkg, options, qs)
  {
    var isTmp := !Truthy(pkg.transportLayer);
    qs := map[];
    if Truthy(CorrNr(options)) && !isTmp {
      qs := qs["corrNr" := Str(CorrNr(options).value)];
    }
  }

  /**
   * `validatePackage`'s query: the four mandatory parameters always, `swcomp`
   * and `appcomp` exactly when non-empty.
   */
  ghost predicate ValidationQueryOk(options: ValidationOptions, qs: map<string, Param>) {
    && {"objname", "description", "packagetype", "checkmode"} <= qs.Keys
    && qs.Keys <= {"objname", "description", "packagetype", "checkmode", "swcomp", "appcomp"}
    && qs["objname"] == Str(options.objname)
    && qs["description"] == Str(options.description)
    && qs["packagetype"] == Str(options.packagetype)
    && qs["checkmode"] == Str(options.checkmode)
    && ("swcomp" in qs <==> options.swcomp != "")
    && ("swcomp" in qs ==> qs["swcomp"] == Str(options.swcomp))
    && ("appcomp" in qs <==> Truthy(options.appcomp))
    && ("appcomp" in qs ==> qs["appcomp"] == Str(options.appcomp.value))
  }

  method ValidationQuery(options: ValidationOptions) returns (qs: map<string, Param>)
    ensures ValidationQueryOk(options, qs)
  {
    qs := map[
      "objname" := Str(options.objname),
      "description" := Str(options.description),
      "packagetype" := Str(options.packagetype),
      "checkmode" := Str(options.checkmode)];
    if options.swcomp != "" {
      qs := qs["swcomp" := Str(options.swcomp)];
    }
    if Truthy(options.appcomp) {
      qs := qs["appcomp" := Str(options.appcomp.value)];
    }
  }

  // ---------------------------------------------------------------------------
  // Object properties
  // ---------------------------------------------------------------------------

  /** The key `result[name]` stores under: a missing name becomes the key "undefined". */
  function PropertyKey(prop: Tree): string {
    Interp(XmlNode(prop, "name"))
  }

  /**
   * The one key an assignment to a plain object does not store: `result["__proto__"] = v`
   * goes to the prototype accessor, which adds no own property.
   */
  const ProtoKey := "__proto__"

  /** No property after position `i` has the same key as the one at `i`. */
  predicate LastWithKey(props: seq<Tree>, i: nat)
    requires i < |props|
  {
    forall j :: i < j < |props| ==> PropertyKey(props[j]) != PropertyKey(props[i])
  }

  /**
   * The properties' map: one key per property name other than `__proto__`,
   * and the value of the last property with that name.
   */
  ghost predicate PropertiesOk(props: seq<Tree>, result: map<string, Option<string>>) {
    && (forall k :: k in result <==> k != ProtoKey && exists i :: 0 <= i < |props| && PropertyKey(props[i]) == k)
    && (forall i :: 0 <= i < |props| && LastWithKey(props, i) && PropertyKey(props[i]) != ProtoKey ==>
          PropertyKey(props[i]) in result && result[PropertyKey(props[i])] == XmlNode(props[i], "value"))
  }

  /** `result[name] = value` for each property in turn; `__proto__` stores nothing. */
  function PropertiesMap(props: seq<Tree>): map<string, Option<string>>
    decreases |props|
  {
    if props == [] then map[]
    else
      var last := props[|props| - 1];
      var before := PropertiesMap(props[..|props| - 1]);
      if PropertyKey(last) == ProtoKey then before else before[PropertyKey(last) := XmlNode(last, "value")]
  }

  /** A key is in the map exactly when it is not `__proto__` and some property has that name. */
  lemma {:induction false} PropertiesMapKeys(props: seq<Tree>, k: string)
    ensures k in PropertiesMap(props) <==> k != ProtoKey && exists i :: 0 <= i < |props| && PropertyKey(props[i]) == k
    decreases |props|
  {
    if props != [] {
      var n := |props| - 1;
      var init := props[..n];
      PropertiesMapKeys(init, k);
      if k in PropertiesMap(init) {
        var i :| 0 <= i < n && PropertyKey(init[i]) == k;
        assert PropertyKey(props[i]) == k;
      }
      if exists i :: 0 <= i < |props| && PropertyKey(props[i]) == k {
        var i :| 0 <= i < |props| && PropertyKey(props[i]) == k;
        if i < n {
          assert PropertyKey(init[i]) == k;
        }
      }
    }
  }

  /** The value stored under a name is that of the last property with the name. */
  lemma {:induction false} PropertiesMapLast(props: seq<Tree>, i: nat)
    requires i < |props| && LastWithKey(props, i) && PropertyKey(props[i]) != ProtoKey
    ensures PropertyKey(props[i]) in PropertiesMap(props)
    ensures PropertiesMap(props)[PropertyKey(props[i])] == XmlNode(props[i], "value")
    decreases |props|
  {
    var n := |props| - 1;
    if i < n {
      var init := props[..n];
      assert PropertyKey(props[n]) != PropertyKey(props[i]);
      assert init[i] == props[i];
      assert LastWithKey(init, i) by {
        forall j | i < j < |init|
          ensures PropertyKey(init[j]) != PropertyKey(init[i])
        {
          assert init[j] == props[j];
        }
      }
      PropertiesMapLast(init, i);
    }
  }

  lemma PropertiesMapOk(props: seq<Tree>)
    ensures PropertiesOk(props, PropertiesMap(props))
  {
    forall k
      ensures k in PropertiesMap(props) <==> k != ProtoKey && exists i :: 0 <= i < |props| && PropertyKey(props[i]) == k
    {
      PropertiesMapKeys(props, k);
    }
    forall i | 0 <= i < |props| && LastWithKey(props, i) && PropertyKey(props[i]) != ProtoKey
      ensures PropertyKey(props[i]) in PropertiesMap(props)
      ensures PropertiesMap(props)[PropertyKey(props[i])] == XmlNode(props[i], "value")
    {
      PropertiesMapLast(props, i);
    }
  }

  /** A property named `__proto__` never becomes a key, whatever the reply holds. */
  lemma PropertiesMapNoProto(props: seq<Tree>)
    ensures ProtoKey !in PropertiesMap(props)
  {
    PropertiesMapKeys(props, ProtoKey);
  }

  /** The `forEach` loop of `getPackageProperties`. */
  method CollectProperties(props: seq<Tree>) returns (result: map<string, Option<string>>)
    ensures result == PropertiesMap(props)
    ensures PropertiesOk(props, result)
  {
    result := map[];
    var n := 0;
    while n < |props|
      invariant 0 <= n <= |props|
      invariant result == PropertiesMap(props[..n])
    {
      var name := PropertyKey(props[n]);
      var value := XmlNode(props[n], "value");
      if name != ProtoKey {
        result := result[name := value];
      }
      n := n + 1;
      assert props[..n][..n - 1] == props[..n - 1];
    }
    assert props[..n] == props;
    PropertiesMapOk(props);
  }

  // ---------------------------------------------------------------------------
  // API functions
  // ---------------------------------------------------------------------------

  /** The GET `getPackage` sends: no query, no body, the read headers. */
  ghost predicate IsPackageRead(req: HttpRequest, packageName: string, options: Option<ReadOptions>) {
    && req.verb == Get && req.endpoint == PackageResource(packageName)
    && req.qs == map[] && req.body == None
    && ReadHeadersOk(options, req.headers)
  }

  /** The POST `createPackage` sends: the package document with the create headers and query. */
  ghost predicate IsPackagePost(req: HttpRequest, pkg: Package, options: Option<CreateOptions>, username: string) {
    && req.verb == Post && req.endpoint == PackageCollection
    && req.headers == CreateHeaders
    && req.body == Some(PackageDocument(pkg, username))
    && CreateQueryOk(pkg, options, req.qs)
  }

  /** `getPackage`: one GET of the package; the package parsed and the ETag taken from the reply. */
  method GetPackage(h: AdtHttp, packageName: string, options: Option<ReadOptions>) returns (r: PackageRead)
    modifies h
    ensures |h.log| == |old(h.log)| + 1 && h.log[..|old(h.log)|] == old(h.log)
    ensures IsPackageRead(h.log[|old(h.log)|], packageName, options)
    ensures var resp := h.serve(h.log);
            && r.package == ParsePackage(resp.parsed)
            && (Truthy(Header(resp.headers, "etag")) ==> r.etag == Header(resp.headers, "etag"))
            && (!Truthy(Header(resp.headers, "etag")) ==> r.etag == Header(resp.headers, "ETag"))
  {
    var headers := ReadHeaders(options);
    var response := h.Request(HttpRequest(Get, PackageResource(packageName), map[], headers, None));
    var pkg := ParsePackage(response.parsed);
    var etag := EtagOf(response.headers);
    r := PackageRead(pkg, etag);
  }

  /** The first half of `createPackage`: build the document and the query, and POST them. */
  method PostPackage(h: AdtHttp, pkg: Package, options: Option<CreateOptions>) returns (response: Response)
    modifies h
    ensures |h.log| == |old(h.log)| + 1 && h.log[..|old(h.log)|] == old(h.log)
    ensures IsPackagePost(h.log[|old(h.log)|], pkg, options, h.username)
    ensures response == h.serve(h.log)
  {
    var headers := CreateHeaders;
    var body := PackageDocument(pkg, h.username);
    var qs := CreateQuery(pkg, options);
    response := h.Request(HttpRequest(Post, PackageCollection, qs, headers, Some(body)));
  }

  /**
   * `createPackage`: POST the document; with no `location`/`Location` in the
   * reply, fail without any further request; otherwise re-read the package
   * by name with a plain GET and return the location with it.
   */
  method CreatePackage(h: AdtHttp, pkg: Package, options: Option<CreateOptions>)
    returns (r: Result<Created, CreateError>)
    modifies h
    ensures |h.log| > |old(h.log)| && h.log[..|old(h.log)|] == old(h.log)
    ensures IsPackagePost(h.log[|old(h.log)|], pkg, options, h.username)
    ensures var location := LocationOf(h.serve(h.log[..|old(h.log)| + 1]).headers);
            && (location.None? ==> r == Err(NoLocation) && |h.log| == |old(h.log)| + 1)
            && (location.Some? ==>
                  && |h.log| == |old(h.log)| + 2
                  && h.log[|old(h.log)| + 1] ==
                       HttpRequest(Get, PackageResource(Interp(pkg.name)), map[], ReadHeadersBase, None)
                  && r.Ok? && r.value.location == location.value
                  && var reread := h.serve(h.log);
                  && r.value.package.package == ParsePackage(reread.parsed)
                  && (Truthy(Header(reread.headers, "etag")) ==> r.value.package.etag == Header(reread.headers, "etag"))
                  && (!Truthy(Header(reread.headers, "etag")) ==> r.value.package.etag == Header(reread.headers, "ETag")))
  {
    var response := PostPackage(h, pkg, options);
    ghost var afterPost := h.log;
    var location := LocationOf(response.headers);
    if location.None? {
      r := Err(NoLocation);
      assert h.log[..|old(h.log)| + 1] == h.log;
      return;
    }
    var created := GetPackage(h, Interp(pkg.name), None);
    assert h.log[..|old(h.log)| + 1] == afterPost;
    ReadHeadersNone(h.log[|afterPost|].headers);
    r := Ok(Created(location.value, created));
  }

  /** `validatePackage`: one POST of the query; the verdict parsed from the reply. */
  method ValidatePackage(h: AdtHttp, options: ValidationOptions) returns (r: ValidationResult)
    modifies h
    ensures |h.log| == |old(h.log)| + 1 && h.log[..|old(h.log)|] == old(h.log)
    ensures var req := h.log[|old(h.log)|];
            && req.verb == Post && req.endpoint == PackageValidation
            && req.headers == ValidationHeaders && req.body == None
            && ValidationQueryOk(options, req.qs)
    ensures r == ParseValidationResult(h.serve(h.log).parsed)
  {
    var qs := ValidationQuery(options);
    var response := h.Request(HttpRequest(Post, PackageValidation, qs, ValidationHeaders, None));
    r := ParseValidationResult(response.parsed);
  }

  /** `getTransportLayers`: a value-help GET with the pattern, `*` when none is given. */
  method GetTransportLayers(h: AdtHttp, name: Option<string>) returns (items: seq<NamedItem>)
    modifies h
    ensures h.log == old(h.log) +
              [HttpRequest(Get, TransportLayerHelp, map["name" := Str(Default(name, "*"))], ValueHelpHeaders, None)]
    ensures items == ParseNamedItems(h.serve(h.log).parsed)
  {
    var response := h.Request(HttpRequest(Get, TransportLayerHelp, map["name" := Str(Default(name, "*"))],
                                          ValueHelpHeaders, None));
    items := ParseNamedItems(response.parsed);
  }

  /** `getSoftwareComponents`: a value-help GET with the pattern, `*` when none is given. */
  method GetSoftwareComponents(h: AdtHttp, name: Option<string>) returns (items: seq<NamedItem>)
    modifies h
    ensures h.log == old(h.log) +
              [HttpRequest(Get, SoftwareComponentHelp, map["name" := Str(Default(name, "*"))], ValueHelpHeaders, None)]
    ensures items == ParseNamedItems(h.serve(h.log).parsed)
  {
    var response := h.Request(HttpRequest(Get, SoftwareComponentHelp, map["name" := Str(Default(name, "*"))],
                                          ValueHelpHeaders, None));
    items := ParseNamedItems(response.parsed);
  }

  /** `getTranslationRelevances`: a value-help GET with `maxItemCount`, 50 when none is given. */
  method GetTranslationRelevances(h: AdtHttp, maxItemCount: Option<int>) returns (items: seq<NamedItem>)
    modifies h
    ensures h.log == old(h.log) +
              [HttpRequest(Get, TranslationRelevanceHelp, map["maxItemCount" := Num(Default(maxItemCount, 50))],
                           ValueHelpHeaders, None)]
    ensures items == ParseNamedItems(h.serve(h.log).parsed)
  {
    var response := h.Request(HttpRequest(Get, TranslationRelevanceHelp,
                                          map["maxItemCount" := Num(Default(maxItemCount, 50))],
                                          ValueHelpHeaders, None));
    items := ParseNamedItems(response.parsed);
  }

  /** `getPackageProperties`: a GET with the package URI; the properties collected into a map. */
  method GetPackageProperties(h: AdtHttp, packageUri: string) returns (result: map<string, Option<string>>)
    modifies h
    ensures h.log == old(h.log) +
              [HttpRequest(Get, ObjectPropertyValues, map["uri" := Str(packageUri)], PropertiesHeaders, None)]
    ensures PropertiesOk(XmlArray(h.serve(h.log).parsed, "property"), result)
  {
    var response := h.Request(HttpRequest(Get, ObjectPropertyValues, map["uri" := Str(packageUri)],
                                          PropertiesHeaders, None));
    var properties := XmlArray(response.parsed, "property");
    result := CollectProperties(properties);
  }
}
