/**
 * The attribute-bearing XML documents the client sends. An `Element` keeps
 * the layout of the source's template (the white space before each
 * attribute and before the closing `/>`); `Render` lays it out with
 * two-space indentation per level, and `ParseDocument` reads a document of
 * that shape back into a layout-free `Parsed` tree. The two are tied by
 * `ParseRender`: rendering and re-reading gives the tree's shape back.
 */
module XmlDoc {

  import opened Js
  import opened XmlText

  /** One attribute: the white space before it, its name and its (already escaped) value. */
  datatype Attr = Attr(lead: string, name: string, value: string)

  /** An element with layout: `tail` is the white space before `/>` or `>`. */
  datatype Element = Element(tag: string, attrs: seq<Attr>, tail: string, children: seq<Element>)

  /** What a reader of the text sees: names, values and nesting, without layout. */
  datatype Parsed = Parsed(tag: string, attrs: seq<(string, string)>, children: seq<Parsed>)

  const XmlDeclaration: string := "<?xml version=\"1.0\" encoding=\"UTF-8\"?>"

  predicate IsSpace(c: char) {
    c == ' ' || c == '\n' || c == '\t' || c == '\r'
  }

  /** A character that may start an XML name (restricted here to ASCII). */
  predicate IsNameStart(c: char) {
    ('a' <= c <= 'z') || ('A' <= c <= 'Z') || c == '_' || c == ':'
  }

  /** A character that may continue an XML name (restricted here to ASCII). */
  predicate IsNameChar(c: char) {
    IsNameStart(c) || ('0' <= c <= '9') || c == '-' || c == '.'
  }

  predicate AllSpaces(s: string) {
    forall i :: 0 <= i < |s| ==> IsSpace(s[i])
  }

  predicate NameChars(s: string) {
    forall i :: 0 <= i < |s| ==> IsNameChar(s[i])
  }

  predicate IsName(s: string) {
    s != [] && IsNameStart(s[0]) && NameChars(s)
  }

  /** A character of the XML 1.0 `Char` production. */
  predicate IsXmlChar(c: char) {
    c == '\t' || c == '\n' || c == '\r' || (' ' <= c && c != '\U{FFFE}' && c != '\U{FFFF}')
  }

  predicate IsXmlString(s: string) {
    forall i :: 0 <= i < |s| ==> IsXmlChar(s[i])
  }

  /**
   * Text XML accepts between the double quotes of an attribute: XML
   * characters only, no `"` or `<`, and every `&` begins an entity reference.
   */
  predicate IsAttrText(v: string) {
    forall i :: 0 <= i < |v| ==>
      IsXmlChar(v[i]) && v[i] != '"' && v[i] != '<' && (v[i] == '&' ==> StartsWithEntity(v[i..]))
  }

  // ---------------------------------------------------------------------------
  // Rendering
  // ---------------------------------------------------------------------------

  function Indent(depth: nat): string {
    seq(2 * depth, _ => ' ')
  }

  function RenderAttrs(attrs: seq<Attr>): string
    decreases |attrs|
  {
    if attrs == [] then ""
    else attrs[0].lead + attrs[0].name + "=\"" + attrs[0].value + "\"" + RenderAttrs(attrs[1..])
  }

  /**
   * An element at nesting level `depth`: self-closing when it has no
   * children, otherwise each child on its own line one level deeper and the
   * end tag on a line of its own.
   */
  function Render(e: Element, depth: nat): string
    decreases e, 1
  {
    "<" + e.tag + RenderAttrs(e.attrs) + e.tail +
    (if e.children == [] then "/>"
     else ">" + RenderChildren(e.children, depth + 1) + "\n" + Indent(depth) + "</" + e.tag + ">")
  }

  function RenderChildren(cs: seq<Element>, depth: nat): string
    decreases cs, 0
  {
    if cs == [] then "" else "\n" + Indent(depth) + Render(cs[0], depth) + RenderChildren(cs[1..], depth)
  }

  /** A whole document: the XML declaration, a line break and the root element. */
  function Document(root: Element): string {
    XmlDeclaration + "\n" + Render(root, 0)
  }

  function AttrPairs(attrs: seq<Attr>): (r: seq<(string, string)>)
    ensures |r| == |attrs|
    ensures forall i :: 0 <= i < |attrs| ==> r[i] == (attrs[i].name, attrs[i].value)
  {
    seq(|attrs|, i requires 0 <= i < |attrs| => (attrs[i].name, attrs[i].value))
  }

  /** The layout-free view of an element. */
  function Shape(e: Element): Parsed
    decreases e, 1
  {
    Parsed(e.tag, AttrPairs(e.attrs), ShapeAll(e.children))
  }

  function ShapeAll(cs: seq<Element>): seq<Parsed>
    decreases cs, 0
  {
    if cs == [] then [] else [Shape(cs[0])] + ShapeAll(cs[1..])
  }

  predicate ReadableAttr(a: Attr) {
    a.lead != [] && AllSpaces(a.lead) && IsName(a.name) && '"' !in a.value
  }

  /**
   * What `ParseDocument` needs to read a rendering back: names that are XML
   * names, white space where white space goes, and no `"` inside a value.
   */
  predicate Readable(e: Element)
    decreases e
  {
    IsName(e.tag) &&
    (forall a :: a in e.attrs ==> ReadableAttr(a)) &&
    AllSpaces(e.tail) &&
    (forall c :: c in e.children ==> Readable(c))
  }

  /**
   * What makes the rendering well-formed XML besides: every attribute value
   * is attribute text, and no start tag repeats an attribute name.
   */
  predicate WellFormed(e: Element)
    decreases e
  {
    Readable(e) &&
    (forall a :: a in e.attrs ==> IsAttrText(a.value)) &&
    (forall i, j :: 0 <= i < j < |e.attrs| ==> e.attrs[i].name != e.attrs[j].name) &&
    (forall c :: c in e.children ==> WellFormed(c))
  }

  // ---------------------------------------------------------------------------
  // Reading
  // ---------------------------------------------------------------------------

  function SkipSpaces(s: string): (t: string)
    ensures |t| <= |s|
    ensures t == [] || !IsSpace(t[0])
    decreases |s|
  {
    if s != [] && IsSpace(s[0]) then SkipSpaces(s[1..]) else s
  }

  /** The longest prefix of name characters, and what follows it. */
  function ReadName(s: string): (r: (string, string))
    ensures r.0 + r.1 == s
    decreases |s|
  {
    if s != [] && IsNameChar(s[0]) then
      var (n, rest) := ReadName(s[1..]);
      ([s[0]] + n, rest)
    else ([], s)
  }

  /** The text up to the next `"`, and what follows that quote. */
  function ReadQuoted(s: string): (r: Option<(string, string)>)
    ensures r.Some? ==> |r.value.1| < |s|
    decreases |s|
  {
    if s == [] then None
    else if s[0] == '"' then Some(([], s[1..]))
    else
      match ReadQuoted(s[1..])
      case None => None
      case Some((v, rest)) => Some(([s[0]] + v, rest))
  }

  /** The `name="value"` pairs of a start tag, up to (not including) `/>` or `>`. */
  function ParseAttrs(s: string): (r: Option<(seq<(string, string)>, string)>)
    ensures r.Some? ==> |r.value.1| <= |s|
    decreases |s|
  {
    var t := SkipSpaces(s);
    if t != [] && IsNameChar(t[0]) then
      var (n, r1) := ReadName(t);
      if |r1| >= 2 && r1[0] == '=' && r1[1] == '"' then
        match ReadQuoted(r1[2..])
        case None => None
        case Some((v, r2)) =>
          match ParseAttrs(r2)
          case None => None
          case Some((more, r3)) => Some(([(n, v)] + more, r3))
      else None
    else Some(([], t))
  }

  function ParseElement(s: string): (r: Option<(Parsed, string)>)
    ensures r.Some? ==> |r.value.1| < |s|
    decreases |s|, 0
  {
    if s == [] || s[0] != '<' then None
    else
      var (tag, r1) := ReadName(s[1..]);
      if tag == [] then None
      else
        match ParseAttrs(r1)
        case None => None
        case Some((attrs, r2)) =>
          if |r2| >= 2 && r2[0] == '/' && r2[1] == '>' then
            Some((Parsed(tag, attrs, []), r2[2..]))
          else if r2 != [] && r2[0] == '>' then
            match ParseChildren(r2[1..], tag)
            case None => None
            case Some((cs, r3)) => Some((Parsed(tag, attrs, cs), r3))
          else None
  }

  /** The children of an element named `tag`, up to and including its end tag. */
  function ParseChildren(s: string, tag: string): (r: Option<(seq<Parsed>, string)>)
    ensures r.Some? ==> |r.value.1| < |s|
    decreases |s|, 1
  {
    var t := SkipSpaces(s);
    if |t| >= 2 && t[0] == '<' && t[1] == '/' then
      var (n, r1) := ReadName(t[2..]);
      if n == tag && r1 != [] && r1[0] == '>' then Some(([], r1[1..])) else None
    else
      match ParseElement(t)
      case None => None
      case Some((c, r1)) =>
        match ParseChildren(r1, tag)
        case None => None
        case Some((cs, r2)) => Some(([c] + cs, r2))
  }

  /** A document: the XML declaration, then one root element and nothing but white space. */
  function ParseDocument(s: string): Option<Parsed> {
    if XmlDeclaration <= s then
      match ParseElement(SkipSpaces(s[|XmlDeclaration|..]))
      case Some((root, rest)) => if SkipSpaces(rest) == [] then Some(root) else None
      case None => None
    else None
  }

  // ---------------------------------------------------------------------------
  // Reading back what was rendered
  // ---------------------------------------------------------------------------

  lemma {:induction false} SkipSpacesOf(w: string, x: string)
    requires AllSpaces(w)
    requires x == [] || !IsSpace(x[0])
    ensures SkipSpaces(w + x) == x
    decreases |w|
  {
    if w == [] {
      assert w + x == x;
    } else {
      assert (w + x)[1..] == w[1..] + x;
      SkipSpacesOf(w[1..], x);
    }
  }

  lemma {:induction false} ReadNameOf(n: string, x: string)
    requires NameChars(n)
    requires x == [] || !IsNameChar(x[0])
    ensures ReadName(n + x) == (n, x)
    decreases |n|
  {
    if n == [] {
      assert n + x == x;
    } else {
      assert (n + x)[1..] == n[1..] + x;
      ReadNameOf(n[1..], x);
      assert [n[0]] + n[1..] == n;
    }
  }

  lemma {:induction false} ReadQuotedOf(v: string, x: string)
    requires '"' !in v
    ensures ReadQuoted(v + "\"" + x) == Some((v, x))
    decreases |v|
  {
    if v == [] {
      assert v + "\"" + x == "\"" + x;
    } else {
      assert (v + "\"" + x)[1..] == v[1..] + "\"" + x;
      ReadQuotedOf(v[1..], x);
      assert [v[0]] + v[1..] == v;
    }
  }

  lemma IndentSpaces(depth: nat)
    ensures AllSpaces("\n" + Indent(depth))
  {
  }

  /** One `name="value"` pair at the head of a start tag. */
  lemma ParseAttrsCons(s: string, n: string, v: string, rest: string, more: seq<(string, string)>, x: string)
    requires IsName(n) && '"' !in v
    requires SkipSpaces(s) == n + ("=\"" + (v + "\"" + rest))
    requires ParseAttrs(rest) == Some((more, x))
    ensures ParseAttrs(s) == Some(([(n, v)] + more, x))
  {
    var t := SkipSpaces(s);
    assert t[0] == n[0];
    var r1 := "=\"" + (v + "\"" + rest);
    ReadNameOf(n, r1);
    assert r1[2..] == v + "\"" + rest;
    ReadQuotedOf(v, rest);
  }

  /** The end of the attribute list: white space, then `/` or `>`. */
  lemma ParseAttrsNil(w: string, x: string)
    requires AllSpaces(w)
    requires x != [] && (x[0] == '/' || x[0] == '>')
    ensures ParseAttrs(w + x) == Some(([], x))
  {
    SkipSpacesOf(w, x);
  }

  lemma AttrAssoc(lead: string, name: string, value: string, more: string, tail: string, x: string)
    ensures lead + name + "=\"" + value + "\"" + more + tail + x
         == lead + (name + ("=\"" + (value + "\"" + (more + tail + x))))
  {
  }

  lemma AttrPairsCons(attrs: seq<Attr>)
    requires attrs != []
    ensures AttrPairs(attrs) == [(attrs[0].name, attrs[0].value)] + AttrPairs(attrs[1..])
  {
    var r := [(attrs[0].name, attrs[0].value)] + AttrPairs(attrs[1..]);
    assert forall i :: 1 <= i < |attrs| ==> r[i] == AttrPairs(attrs[1..])[i - 1];
  }

  /** The attributes of a rendered start tag read back as their name/value pairs. */
  lemma {:induction false} ParseAttrsRender(attrs: seq<Attr>, tail: string, x: string)
    requires forall a :: a in attrs ==> ReadableAttr(a)
    requires AllSpaces(tail)
    requires x != [] && (x[0] == '/' || x[0] == '>')
    ensures ParseAttrs(RenderAttrs(attrs) + tail + x) == Some((AttrPairs(attrs), x))
    decreases |attrs|
  {
    var s := RenderAttrs(attrs) + tail + x;
    if attrs == [] {
      assert s == tail + x;
      ParseAttrsNil(tail, x);
    } else {
      var a := attrs[0];
      assert ReadableAttr(a);
      var more := RenderAttrs(attrs[1..]) + tail + x;
      AttrAssoc(a.lead, a.name, a.value, RenderAttrs(attrs[1..]), tail, x);
      SkipSpacesOf(a.lead, a.name + ("=\"" + (a.value + "\"" + more)));
      ParseAttrsRender(attrs[1..], tail, x);
      ParseAttrsCons(s, a.name, a.value, more, AttrPairs(attrs[1..]), x);
      AttrPairsCons(attrs);
    }
  }

  /** A self-closing element: `<`, the tag name, the attributes, `/>`. */
  lemma ParseElementEmpty(s: string, tag: string, rest: string, attrs: seq<(string, string)>, x: string)
    requires IsName(tag)
    requires s == "<" + (tag + rest)
    requires rest == [] || !IsNameChar(rest[0])
    requires ParseAttrs(rest) == Some((attrs, "/>" + x))
    ensures ParseElement(s) == Some((Parsed(tag, attrs, []), x))
  {
    assert s[1..] == tag + rest;
    ReadNameOf(tag, rest);
    assert ("/>" + x)[2..] == x;
  }

  /** An element with content: the start tag ends in `>` and the children follow. */
  lemma ParseElementOpen(s: string, tag: string, rest: string, attrs: seq<(string, string)>, y: string,
                         cs: seq<Parsed>, x: string)
    requires IsName(tag)
    requires s == "<" + (tag + rest)
    requires rest == [] || !IsNameChar(rest[0])
    requires ParseAttrs(rest) == Some((attrs, ">" + y))
    requires ParseChildren(y, tag) == Some((cs, x))
    ensures ParseElement(s) == Some((Parsed(tag, attrs, cs), x))
  {
    assert s[1..] == tag + rest;
    ReadNameOf(tag, rest);
    assert (">" + y)[1..] == y;
  }

  /** After the tag name of a rendered element comes white space, `/` or `>`. */
  lemma AfterTagName(e: Element, y: string)
    requires Readable(e)
    requires y != [] && (y[0] == '/' || y[0] == '>')
    ensures var after := RenderAttrs(e.attrs) + e.tail + y;
            after == [] || !IsNameChar(after[0])
  {
    var after := RenderAttrs(e.attrs) + e.tail + y;
    if e.attrs != [] {
      assert ReadableAttr(e.attrs[0]);
      assert after[0] == e.attrs[0].lead[0];
    } else if e.tail != [] {
      assert after[0] == e.tail[0];
    } else {
      assert after[0] == y[0];
    }
  }

  lemma EmptyAssoc(tag: string, a: string, tail: string, x: string)
    ensures "<" + tag + a + tail + "/>" + x == "<" + (tag + (a + tail + ("/>" + x)))
  {
  }

  lemma OpenAssoc(tag: string, a: string, tail: string, k: string, ind: string, x: string)
    ensures "<" + tag + a + tail + (">" + k + "\n" + ind + "</" + tag + ">") + x
         == "<" + (tag + (a + tail + (">" + (k + "\n" + ind + "</" + tag + ">" + x))))
  {
  }

  lemma RenderEmpty(e: Element, depth: nat, x: string)
    requires e.children == []
    ensures Render(e, depth) + x == "<" + (e.tag + (RenderAttrs(e.attrs) + e.tail + ("/>" + x)))
  {
    EmptyAssoc(e.tag, RenderAttrs(e.attrs), e.tail, x);
  }

  lemma RenderOpen(e: Element, depth: nat, x: string)
    requires e.children != []
    ensures Render(e, depth) + x == "<" + (e.tag + (RenderAttrs(e.attrs) + e.tail +
              (">" + (RenderChildren(e.children, depth + 1) + "\n" + Indent(depth) + "</" + e.tag + ">" + x))))
  {
    OpenAssoc(e.tag, RenderAttrs(e.attrs), e.tail, RenderChildren(e.children, depth + 1), Indent(depth), x);
  }

  /** A rendered readable element reads back as its shape, whatever follows it. */
  lemma {:induction false} ParseRender(e: Element, depth: nat, x: string)
    requires Readable(e)
    ensures ParseElement(Render(e, depth) + x) == Some((Shape(e), x))
    decreases e, 1
  {
    var s := Render(e, depth) + x;
    if e.children == [] {
      RenderEmpty(e, depth, x);
      AfterTagName(e, "/>" + x);
      ParseAttrsRender(e.attrs, e.tail, "/>" + x);
      ParseElementEmpty(s, e.tag, RenderAttrs(e.attrs) + e.tail + ("/>" + x), AttrPairs(e.attrs), x);
    } else {
      var inner := RenderChildren(e.children, depth + 1) + "\n" + Indent(depth) + "</" + e.tag + ">" + x;
      RenderOpen(e, depth, x);
      AfterTagName(e, ">" + inner);
      ParseAttrsRender(e.attrs, e.tail, ">" + inner);
      ParseChildrenRender(e.children, depth, e.tag, x);
      ParseElementOpen(s, e.tag, RenderAttrs(e.attrs) + e.tail + (">" + inner), AttrPairs(e.attrs), inner,
                       ShapeAll(e.children), x);
    }
  }

  /** The end tag of an element named `tag`, after white space. */
  lemma ParseChildrenEnd(w: string, tag: string, x: string)
    requires AllSpaces(w) && IsName(tag)
    ensures ParseChildren(w + ("</" + tag + ">" + x), tag) == Some(([], x))
  {
    var t := "</" + tag + ">" + x;
    SkipSpacesOf(w, t);
    assert t[2..] == tag + (">" + x);
    ReadNameOf(tag, ">" + x);
  }

  /** A child element after white space, then the remaining children. */
  lemma ParseChildrenCons(w: string, r: string, c: Parsed, rest: string, tag: string,
                          cs: seq<Parsed>, x: string)
    requires AllSpaces(w) && |r| >= 2 && r[0] == '<' && r[1] != '/'
    requires ParseElement(r + rest) == Some((c, rest))
    requires ParseChildren(rest, tag) == Some((cs, x))
    ensures ParseChildren(w + (r + rest), tag) == Some(([c] + cs, x))
  {
    SkipSpacesOf(w, r + rest);
  }

  lemma EndAssoc(ind: string, tag: string, x: string)
    ensures "" + "\n" + ind + "</" + tag + ">" + x == ("\n" + ind) + ("</" + tag + ">" + x)
  {
  }

  lemma ChildrenAssoc(ind: string, r: string, more: string, ind2: string, tag: string, x: string)
    ensures "\n" + ind + r + more + "\n" + ind2 + "</" + tag + ">" + x
         == ("\n" + ind) + (r + (more + "\n" + ind2 + "</" + tag + ">" + x))
  {
  }

  /** Rendered children followed by the parent's end tag read back as their shapes. */
  lemma {:induction false} ParseChildrenRender(cs: seq<Element>, depth: nat, tag: string, x: string)
    requires forall c :: c in cs ==> Readable(c)
    requires IsName(tag)
    ensures ParseChildren(RenderChildren(cs, depth + 1) + "\n" + Indent(depth) + "</" + tag + ">" + x, tag)
            == Some((ShapeAll(cs), x))
    decreases cs, 0
  {
    var s := RenderChildren(cs, depth + 1) + "\n" + Indent(depth) + "</" + tag + ">" + x;
    if cs == [] {
      EndAssoc(Indent(depth), tag, x);
      IndentSpaces(depth);
      ParseChildrenEnd("\n" + Indent(depth), tag, x);
    } else {
      var c := cs[0];
      assert Readable(c);
      var r := Render(c, depth + 1);
      var rest := RenderChildren(cs[1..], depth + 1) + "\n" + Indent(depth) + "</" + tag + ">" + x;
      ChildrenAssoc(Indent(depth + 1), r, RenderChildren(cs[1..], depth + 1), Indent(depth), tag, x);
      assert r[0] == '<' && r[1] == c.tag[0];
      IndentSpaces(depth + 1);
      ParseRender(c, depth + 1, rest);
      ParseChildrenRender(cs[1..], depth, tag, x);
      ParseChildrenCons("\n" + Indent(depth + 1), r, Shape(c), rest, tag, ShapeAll(cs[1..]), x);
    }
  }

  /** The shape of a child list is the shape of each child, in order. */
  lemma {:induction false} ShapeAllEach(cs: seq<Element>)
    ensures |ShapeAll(cs)| == |cs|
    ensures forall i :: 0 <= i < |cs| ==> ShapeAll(cs)[i] == Shape(cs[i])
    decreases |cs|
  {
    if cs != [] {
      ShapeAllEach(cs[1..]);
    }
  }

  /** A rendered document reads back as the shape of its root. */
  lemma DocumentReadsBack(root: Element)
    requires Readable(root)
    ensures ParseDocument(Document(root)) == Some(Shape(root))
  {
    var s := Document(root);
    var r := Render(root, 0);
    assert s[|XmlDeclaration|..] == "\n" + (r + []);
    SkipSpacesOf("\n", r + []);
    assert r + [] == r;
    ParseRender(root, 0, []);
  }
}
