/**
 * The pieces of JavaScript value semantics that the ADT client code relies on:
 * `undefined` (as `None`), truthiness of strings and numbers, `a || b`,
 * template interpolation, `String(n)`, `padStart`, `substring` and `parseInt`.
 */
module Js {

  datatype Option<+T> = None | Some(value: T)

  /** An operation that either yields a value or throws an error. */
  datatype Result<+T, +E> = Ok(value: T) | Err(error: E)

  /** Truthiness of a string-or-undefined value: `undefined` and `""` are falsy. */
  predicate Truthy(s: Option<string>) {
    s.Some? && s.value != ""
  }

  /** Truthiness of a number-or-undefined value: `undefined` and `0` are falsy. */
  predicate TruthyNum(n: Option<int>) {
    n.Some? && n.value != 0
  }

  /** Truthiness of a boolean-or-undefined value. */
  predicate TruthyBool(b: Option<bool>) {
    b == Some(true)
  }

  /** `a || b` on string-or-undefined values: `a` when it is truthy, otherwise `b`. */
  function OrElse(a: Option<string>, b: Option<string>): Option<string> {
    if Truthy(a) then a else b
  }

  /** `${v}` for a string-or-undefined value. */
  function Interp(v: Option<string>): string {
    match v
    case None => "undefined"
    case Some(s) => s
  }

  /** `v ?? d` as a default parameter does it: `d` replaces only `undefined`. */
  function Default<T>(v: Option<T>, d: T): T {
    match v
    case None => d
    case Some(x) => x
  }

  // ---------------------------------------------------------------------------
  // Decimal digits
  // ---------------------------------------------------------------------------

  predicate IsDigit(c: char) {
    '0' <= c <= '9'
  }

  predicate AllDigits(s: string) {
    forall i :: 0 <= i < |s| ==> IsDigit(s[i])
  }

  function DigitChar(d: nat): (c: char)
    requires d < 10
    ensures IsDigit(c)
  {
    ['0', '1', '2', '3', '4', '5', '6', '7', '8', '9'][d]
  }

  function DigitValue(c: char): (d: nat)
    requires IsDigit(c)
    ensures d < 10
  {
    (c as int - '0' as int) as nat
  }

  /** `String(n)` for a non-negative integer: its shortest decimal form. */
  function NatToString(n: nat): (s: string)
    decreases n
  {
    if n < 10 then [DigitChar(n)] else NatToString(n / 10) + [DigitChar(n % 10)]
  }

  /** `String(n)` for an integer. */
  function IntToString(n: int): string {
    if n < 0 then "-" + NatToString(-n) else NatToString(n)
  }

  /** The value of a string of decimal digits, read most significant first. */
  function DecimalValue(s: string): (v: nat)
    requires AllDigits(s)
    decreases |s|
  {
    if s == [] then 0 else DecimalValue(s[..|s| - 1]) * 10 + DigitValue(s[|s| - 1])
  }

  // ---------------------------------------------------------------------------
  // Hexadecimal digits (parseInt reads "0x..." in base 16)
  // ---------------------------------------------------------------------------

  predicate IsHexDigit(c: char) {
    IsDigit(c) || 'a' <= c <= 'f' || 'A' <= c <= 'F'
  }

  function HexDigitValue(c: char): (d: nat)
    requires IsHexDigit(c)
    ensures d < 16
  {
    if IsDigit(c) then DigitValue(c)
    else if 'a' <= c <= 'f' then (c as int - 'a' as int + 10) as nat
    else (c as int - 'A' as int + 10) as nat
  }

  /**
   * Reads hexadecimal digits from the front of `s`, most significant first,
   * onto `acc`; `None` when no digit was read at all.
   */
  function HexScan(s: string, acc: Option<nat>): Option<nat>
    decreases |s|
  {
    if s != [] && IsHexDigit(s[0])
    then HexScan(s[1..], Some((if acc.Some? then acc.value else 0) * 16 + HexDigitValue(s[0])))
    else acc
  }

  // ---------------------------------------------------------------------------
  // String operations
  // ---------------------------------------------------------------------------

  /** The characters `String.prototype.trim` and `parseInt` treat as white space. */
  predicate IsJsWhiteSpace(c: char) {
    var n := c as int;
    n == 0x09 || n == 0x0A || n == 0x0B || n == 0x0C || n == 0x0D || n == 0x20 ||
    n == 0xA0 || n == 0x1680 || (0x2000 <= n <= 0x200A) || n == 0x2028 ||
    n == 0x2029 || n == 0x202F || n == 0x205F || n == 0x3000 || n == 0xFEFF
  }

  /** `s.padStart(width, fill)` for a one-character fill string. */
  function PadStart(s: string, width: nat, fill: char): string {
    if |s| >= width then s else seq(width - |s|, _ => fill) + s
  }

  function Clamp(i: int, n: nat): nat {
    if i < 0 then 0 else if i > n then n else i
  }

  /** `s.substring(start, end)`: both ends clamped to the string, swapped if reversed. */
  function Substring(s: string, start: int, end: int): string {
    var a := Clamp(start, |s|);
    var b := Clamp(end, |s|);
    if a <= b then s[a..b] else s[b..a]
  }

  /**
   * Reads decimal digits from the front of `s`, most significant first,
   * onto `acc`; `None` when no digit was read at all.
   */
  function DecimalScan(s: string, acc: Option<nat>): Option<nat>
    decreases |s|
  {
    if s != [] && IsDigit(s[0])
    then DecimalScan(s[1..], Some((if acc.Some? then acc.value else 0) * 10 + DigitValue(s[0])))
    else acc
  }

  /**
   * `parseInt(s)` without a radix: leading white space is skipped, one sign
   * is read, a "0x"/"0X" prefix selects base 16, and then the longest run of
   * digits is read. `None` stands for `NaN` (no digit at all).
   */
  function ParseInt(s: string): Option<int>
    decreases |s|
  {
    if s != [] && IsJsWhiteSpace(s[0]) then ParseInt(s[1..])
    else
      var negative := s != [] && s[0] == '-';
      var u := if s != [] && (s[0] == '-' || s[0] == '+') then s[1..] else s;
      var magnitude :=
        if |u| >= 2 && u[0] == '0' && (u[1] == 'x' || u[1] == 'X') then HexScan(u[2..], None)
        else DecimalScan(u, None);
      match magnitude
      case None => None
      case Some(m) => if negative then Some(-(m as int)) else Some(m as int)
  }

  // ---------------------------------------------------------------------------
  // Lemmas
  // ---------------------------------------------------------------------------

  /** `String(n)` uses only decimal digits and never has a leading zero unless n is 0. */
  lemma {:induction false} NatToStringDigits(n: nat)
    ensures AllDigits(NatToString(n)) && |NatToString(n)| >= 1
    ensures n >= 10 ==> NatToString(n)[0] != '0'
    decreases n
  {
    if n >= 10 {
      NatToStringDigits(n / 10);
      var p := NatToString(n / 10);
      assert NatToString(n) == p + [DigitChar(n % 10)];
      assert NatToString(n)[0] == p[0];
      if n / 10 < 10 {
        assert p == [DigitChar(n / 10)];
        assert n / 10 != 0;
      }
    }
  }

  /** Reading `String(n)` back as a decimal gives n. */
  lemma {:induction false} DecimalValueOfNatToString(n: nat)
    ensures AllDigits(NatToString(n))
    ensures DecimalValue(NatToString(n)) == n
    decreases n
  {
    NatToStringDigits(n);
    if n >= 10 {
      DecimalValueOfNatToString(n / 10);
      var p := NatToString(n / 10);
      var s := p + [DigitChar(n % 10)];
      assert s == NatToString(n);
      assert s[..|s| - 1] == p;
    }
  }

  /** The number of characters of `String(n)` for n below 10000. */
  lemma NatToStringLength(n: nat)
    ensures n < 10 ==> |NatToString(n)| == 1
    ensures 10 <= n < 100 ==> |NatToString(n)| == 2
    ensures 100 <= n < 1000 ==> |NatToString(n)| == 3
    ensures 1000 <= n < 10000 ==> |NatToString(n)| == 4
    ensures 10000 <= n ==> |NatToString(n)| >= 5
    decreases n
  {
    if n >= 10 {
      NatToStringLength(n / 10);
    }
  }

  /** Leading zeros do not change the value of a digit string. */
  lemma {:induction false} DecimalValueLeadingZero(s: string)
    requires AllDigits(s)
    ensures AllDigits("0" + s) && DecimalValue("0" + s) == DecimalValue(s)
    decreases |s|
  {
    var z := "0" + s;
    if s != [] {
      var init := s[..|s| - 1];
      DecimalValueLeadingZero(init);
      assert z[..|z| - 1] == "0" + init;
      assert z[|z| - 1] == s[|s| - 1];
    }
  }

  /** Scanning more digits after a prefix already read gives the value of the whole. */
  lemma {:induction false} DecimalScanFrom(p: string, d: string)
    requires AllDigits(p) && AllDigits(d)
    ensures AllDigits(p + d)
    ensures DecimalScan(d, Some(DecimalValue(p))) == Some(DecimalValue(p + d))
    decreases |d|
  {
    if d == [] {
      assert p + d == p;
    } else {
      var q := p + [d[0]];
      assert q[..|q| - 1] == p;
      DecimalScanFrom(q, d[1..]);
      assert q + d[1..] == p + d;
    }
  }

  lemma DigitNotSpace(c: char)
    requires IsDigit(c)
    ensures !IsJsWhiteSpace(c) && c != '-' && c != '+' && c != 'x' && c != 'X'
  {
  }

  /** A run of digits read from its start has the value of the whole run. */
  lemma DecimalScanDigits(s: string)
    requires s != [] && AllDigits(s)
    ensures DecimalScan(s, None) == Some(DecimalValue(s))
  {
    assert [s[0]][..0] == [];
    assert DecimalValue([s[0]]) == DigitValue(s[0]);
    DecimalScanFrom([s[0]], s[1..]);
    assert [s[0]] + s[1..] == s;
  }

  /** `parseInt` of a plain, non-empty digit string is its decimal value. */
  lemma ParseIntDigits(s: string)
    requires s != [] && AllDigits(s)
    ensures ParseInt(s) == Some(DecimalValue(s) as int)
  {
    DigitNotSpace(s[0]);
    if |s| >= 2 {
      DigitNotSpace(s[1]);
    }
    DecimalScanDigits(s);
  }
}
