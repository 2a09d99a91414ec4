/**
 * Escaping of text embedded in the generated package document
 * (`escapeXml` inside `createPackage`), with a reference definition that
 * escapes one character at a time and the matching unescape.
 */
module XmlText {
  import opened Js

  /** `s.replace(/c/g, rep)`: every occurrence of `c` replaced by `rep`. */
  function ReplaceAll(s: string, c: char, rep: string): string
    decreases |s|
  {
    if s == [] then [] else (if s[0] == c then rep else [s[0]]) + ReplaceAll(s[1..], c, rep)
  }

  /** The five chained replacements, `&` first. */
  function EscapeText(s: string): string {
    var amp := ReplaceAll(s, '&', "&amp;");
    var lt := ReplaceAll(amp, '<', "&lt;");
    var gt := ReplaceAll(lt, '>', "&gt;");
    var quot := ReplaceAll(gt, '"', "&quot;");
    ReplaceAll(quot, '\'', "&apos;")
  }

  /**
   * `escapeXml(str)`: a missing or empty string gives `""`; otherwise the
   * markup characters are replaced by their entities.
   */
  function EscapeXml(str: Option<string>): (r: string)
    ensures !Truthy(str) ==> r == ""
    ensures WellEscaped(r)
    ensures Unescape(r) == (if Truthy(str) then str.value else "")
  {
    if !Truthy(str) then ""
    else
      EscapeTextIsEscapeEach(str.value);
      EscapeEachWellEscaped(str.value);
      UnescapeEscapeEach(str.value);
      EscapeText(str.value)
  }

  // ---------------------------------------------------------------------------
  // Reference definition: escape each character on its own
  // ---------------------------------------------------------------------------

  predicate IsMarkup(c: char) {
    c == '&' || c == '<' || c == '>' || c == '"' || c == '\''
  }

  function EscapeChar(c: char): string {
    match c
    case '&' => "&amp;"
    case '<' => "&lt;"
    case '>' => "&gt;"
    case '"' => "&quot;"
    case '\'' => "&apos;"
    case _ => [c]
  }

  function EscapeEach(s: string): string
    decreases |s|
  {
    if s == [] then [] else EscapeChar(s[0]) + EscapeEach(s[1..])
  }

  /** `s` starts with one of the five entities the escaper produces. */
  predicate StartsWithEntity(s: string) {
    "&amp;" <= s || "&lt;" <= s || "&gt;" <= s || "&quot;" <= s || "&apos;" <= s
  }

  /**
   * The escaped form of any text: no raw `<`, `>`, `"` or `'`, and every `&`
   * begins one of the five entities.
   */
  predicate WellEscaped(r: string) {
    forall i :: 0 <= i < |r| ==>
      r[i] != '<' && r[i] != '>' && r[i] != '"' && r[i] != '\'' &&
      (r[i] == '&' ==> StartsWithEntity(r[i..]))
  }

  /** Decoding of the five entities, left to right. */
  function Unescape(s: string): string
    decreases |s|
  {
    if s == [] then []
    else if "&amp;" <= s then "&" + Unescape(s[5..])
    else if "&lt;" <= s then "<" + Unescape(s[4..])
    else if "&gt;" <= s then ">" + Unescape(s[4..])
    else if "&quot;" <= s then "\"" + Unescape(s[6..])
    else if "&apos;" <= s then "'" + Unescape(s[6..])
    else [s[0]] + Unescape(s[1..])
  }

  // ---------------------------------------------------------------------------
  // The chain of replacements equals the per-character escape
  // ---------------------------------------------------------------------------

  lemma {:induction false} ReplaceAllAppend(a: string, b: string, c: char, rep: string)
    ensures ReplaceAll(a + b, c, rep) == ReplaceAll(a, c, rep) + ReplaceAll(b, c, rep)
    decreases |a|
  {
    if a == [] {
      assert a + b == b;
    } else {
      assert (a + b)[1..] == a[1..] + b;
      ReplaceAllAppend(a[1..], b, c, rep);
    }
  }

  lemma {:induction false} ReplaceAllAbsent(s: string, c: char, rep: string)
    requires c !in s
    ensures ReplaceAll(s, c, rep) == s
    decreases |s|
  {
    if s != [] {
      ReplaceAllAbsent(s[1..], c, rep);
      assert [s[0]] + s[1..] == s;
    }
  }

  lemma ReplaceAllSingle(c: char, d: char, rep: string)
    ensures ReplaceAll([c], d, rep) == if c == d then rep else [c]
  {
    assert [c][1..] == [];
  }

  lemma EscapeTextPlain(c: char)
    requires !IsMarkup(c)
    ensures EscapeText([c]) == [c]
  {
    ReplaceAllSingle(c, '&', "&amp;");
    ReplaceAllSingle(c, '<', "&lt;");
    ReplaceAllSingle(c, '>', "&gt;");
    ReplaceAllSingle(c, '"', "&quot;");
    ReplaceAllSingle(c, '\'', "&apos;");
  }

  /** Entities are left alone by the replacements after the first. */
  lemma LaterStepsKeep(e: string)
    requires '<' !in e && '>' !in e && '"' !in e && '\'' !in e
    ensures ReplaceAll(ReplaceAll(ReplaceAll(ReplaceAll(e, '<', "&lt;"), '>', "&gt;"), '"', "&quot;"), '\'', "&apos;") == e
  {
    ReplaceAllAbsent(e, '<', "&lt;");
    ReplaceAllAbsent(e, '>', "&gt;");
    ReplaceAllAbsent(e, '"', "&quot;");
    ReplaceAllAbsent(e, '\'', "&apos;");
  }

  /** Entities are left alone by the last three replacements. */
  lemma LastStepsKeep(e: string)
    requires '>' !in e && '"' !in e && '\'' !in e
    ensures ReplaceAll(ReplaceAll(ReplaceAll(e, '>', "&gt;"), '"', "&quot;"), '\'', "&apos;") == e
  {
    ReplaceAllAbsent(e, '>', "&gt;");
    ReplaceAllAbsent(e, '"', "&quot;");
    ReplaceAllAbsent(e, '\'', "&apos;");
  }

  lemma EscapeTextAmp(c: char)
    requires c == '&'
    ensures EscapeText([c]) == "&amp;"
  {
    ReplaceAllSingle(c, '&', "&amp;");
    LaterStepsKeep("&amp;");
  }

  lemma EscapeTextLt(c: char)
    requires c == '<'
    ensures EscapeText([c]) == "&lt;"
  {
    ReplaceAllSingle(c, '&', "&amp;");
    ReplaceAllSingle(c, '<', "&lt;");
    LastStepsKeep("&lt;");
  }

  lemma EscapeTextGt(c: char)
    requires c == '>'
    ensures EscapeText([c]) == "&gt;"
  {
    ReplaceAllSingle(c, '&', "&amp;");
    ReplaceAllSingle(c, '<', "&lt;");
    ReplaceAllSingle(c, '>', "&gt;");
    ReplaceAllAbsent("&gt;", '"', "&quot;");
    ReplaceAllAbsent("&gt;", '\'', "&apos;");
  }

  lemma EscapeTextQuot(c: char)
    requires c == '"'
    ensures EscapeText([c]) == "&quot;"
  {
    var amp := ReplaceAll([c], '&', "&amp;");
    ReplaceAllSingle(c, '&', "&amp;");
    assert amp == [c];
    var lt := ReplaceAll(amp, '<', "&lt;");
    ReplaceAllSingle(c, '<', "&lt;");
    assert lt == [c];
    var gt := ReplaceAll(lt, '>', "&gt;");
    ReplaceAllSingle(c, '>', "&gt;");
    assert gt == [c];
    var quot := ReplaceAll(gt, '"', "&quot;");
    ReplaceAllSingle(c, '"', "&quot;");
    assert quot == "&quot;";
    ReplaceAllAbsent(quot, '\'', "&apos;");
  }

  lemma EscapeTextApos(c: char)
    requires c == '\''
    ensures EscapeText([c]) == "&apos;"
  {
    ReplaceAllSingle(c, '&', "&amp;");
    ReplaceAllSingle(c, '<', "&lt;");
    ReplaceAllSingle(c, '>', "&gt;");
    ReplaceAllSingle(c, '"', "&quot;");
    ReplaceAllSingle(c, '\'', "&apos;");
  }

  /** The chain applied to a single character. */
  lemma EscapeTextChar(c: char)
    ensures EscapeText([c]) == EscapeChar(c)
  {
    if c == '&' {
      EscapeTextAmp(c);
    } else if c == '<' {
      EscapeTextLt(c);
    } else if c == '>' {
      EscapeTextGt(c);
    } else if c == '"' {
      EscapeTextQuot(c);
    } else if c == '\'' {
      EscapeTextApos(c);
    } else {
      EscapeTextPlain(c);
    }
  }

  /** Replacing `&` first makes the chain equal to escaping each character once. */
  lemma {:induction false} EscapeTextIsEscapeEach(s: string)
    ensures EscapeText(s) == EscapeEach(s)
    decreases |s|
  {
    if s != [] {
      var head, tail := [s[0]], s[1..];
      assert s == head + tail;
      var amp1, amp2 := ReplaceAll(head, '&', "&amp;"), ReplaceAll(tail, '&', "&amp;");
      ReplaceAllAppend(head, tail, '&', "&amp;");
      var lt1, lt2 := ReplaceAll(amp1, '<', "&lt;"), ReplaceAll(amp2, '<', "&lt;");
      ReplaceAllAppend(amp1, amp2, '<', "&lt;");
      var gt1, gt2 := ReplaceAll(lt1, '>', "&gt;"), ReplaceAll(lt2, '>', "&gt;");
      ReplaceAllAppend(lt1, lt2, '>', "&gt;");
      var q1, q2 := ReplaceAll(gt1, '"', "&quot;"), ReplaceAll(gt2, '"', "&quot;");
      ReplaceAllAppend(gt1, gt2, '"', "&quot;");
      ReplaceAllAppend(q1, q2, '\'', "&apos;");
      assert EscapeText(s) == EscapeText(head) + EscapeText(tail);
      EscapeTextChar(s[0]);
      EscapeTextIsEscapeEach(tail);
    }
  }

  // ---------------------------------------------------------------------------
  // Properties of the escaped text
  // ---------------------------------------------------------------------------

  lemma WellEscapedAppend(a: string, b: string)
    requires WellEscaped(a) && WellEscaped(b)
    ensures WellEscaped(a + b)
  {
    var r := a + b;
    forall i | 0 <= i < |r|
      ensures r[i] != '<' && r[i] != '>' && r[i] != '"' && r[i] != '\''
      ensures r[i] == '&' ==> StartsWithEntity(r[i..])
    {
      if i < |a| {
        assert r[i] == a[i];
        if r[i] == '&' {
          assert a[i..] <= r[i..];
        }
      } else {
        assert r[i] == b[i - |a|];
        assert r[i..] == b[i - |a|..];
      }
    }
  }

  lemma {:induction false} EscapeEachWellEscaped(s: string)
    ensures WellEscaped(EscapeEach(s))
    decreases |s|
  {
    if s != [] {
      EscapeEachWellEscaped(s[1..]);
      var e := EscapeChar(s[0]);
      assert WellEscaped(e) by {
        if IsMarkup(s[0]) {
          assert e[0] == '&' && forall i :: 1 <= i < |e| ==> e[i] != '&';
          assert e[0..] == e;
        }
      }
      WellEscapedAppend(e, EscapeEach(s[1..]));
    }
  }

  /** Unescaping undoes the escape of one character, whatever follows it. */
  lemma UnescapeEscapeChar(c: char, rest: string)
    ensures Unescape(EscapeChar(c) + rest) == [c] + Unescape(rest)
  {
    var e := EscapeChar(c);
    var s := e + rest;
    assert s[..|e|] == e && s[|e|..] == rest;
    if !IsMarkup(c) {
      assert s[0] == c && s[1..] == rest;
    } else if c == '<' {
      assert s[1] == 'l';
    } else if c == '>' {
      assert s[1] == 'g';
    } else if c == '"' {
      assert s[1] == 'q';
    } else if c == '\'' {
      assert s[1] == 'a' && s[2] == 'p';
    }
  }

  /** Decoding the five entities recovers the input exactly. */
  lemma {:induction false} UnescapeEscapeEach(s: string)
    ensures Unescape(EscapeEach(s)) == s
    decreases |s|
  {
    if s != [] {
      UnescapeEscapeChar(s[0], EscapeEach(s[1..]));
      UnescapeEscapeEach(s[1..]);
      assert [s[0]] + s[1..] == s;
    }
  }

  /** The source's escape of a present, non-empty string, as the reference escape. */
  lemma EscapeXmlPresent(s: string)
    requires s != ""
    ensures EscapeXml(Some(s)) == EscapeEach(s)
  {
    EscapeTextIsEscapeEach(s);
  }
}
