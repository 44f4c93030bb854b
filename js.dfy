// JavaScript value semantics that the handlers rely on: truthiness,
// Number(), String.prototype.trim, String.prototype.split(' ') and the
// JSON encoding of a request body field.

module Js {

  datatype Option<+T> = None | Some(value: T)

  /** A JavaScript value as it appears in a request body or form state.
      Numbers are exact reals; NaN is its own case. */
  datatype Value = Undefined | Null | Bool(b: bool) | Num(x: real) | NaN | Str(s: string)

  /** `!!v` in JavaScript. */
  predicate Truthy(v: Value)
  {
    match v
    case Undefined => false
    case Null => false
    case NaN => false
    case Bool(b) => b
    case Num(x) => x != 0.0
    case Str(s) => s != ""
  }

  /** `v || d` for a string default. */
  function OrElse(v: Value, d: Value): (r: Value)
    ensures Truthy(v) ==> r == v
    ensures !Truthy(v) ==> r == d
  {
    if Truthy(v) then v else d
  }

  /** `e || d` where `e` is an optional string field (an absent field is undefined). */
  function TextOr(e: Option<string>, d: string): (r: string)
    ensures e.Some? && e.value != "" ==> r == e.value
    ensures (e.None? || e.value == "") ==> r == d
  {
    if e.Some? && e.value != "" then e.value else d
  }

  // ---------------------------------------------------------------------------
  // Whitespace and trim

  /** ECMAScript WhiteSpace and LineTerminator code points, the set that
      String.prototype.trim removes. */
  predicate IsSpace(c: char)
  {
    c == '\t' || c == '\n' || c == '\U{B}' || c == '\U{C}' || c == '\r' || c == ' '
    || c == '\U{A0}' || c == '\U{1680}' || ('\U{2000}' <= c <= '\U{200A}')
    || c == '\U{2028}' || c == '\U{2029}' || c == '\U{202F}' || c == '\U{205F}'
    || c == '\U{3000}' || c == '\U{FEFF}'
  }

  predicate AllSpace(s: string)
  {
    forall i :: 0 <= i < |s| ==> IsSpace(s[i])
  }

  function TrimStart(s: string): (r: string)
    ensures |r| <= |s| && r == s[|s| - |r|..]
    ensures r == "" || !IsSpace(r[0])
    ensures AllSpace(s[..|s| - |r|])
  {
    if s == [] || !IsSpace(s[0]) then s else TrimStart(s[1..])
  }

  function TrimEnd(s: string): (r: string)
    ensures |r| <= |s| && r == s[..|r|]
    ensures r == "" || !IsSpace(r[|r| - 1])
    ensures AllSpace(s[|r|..])
  {
    if s == [] || !IsSpace(s[|s| - 1]) then s else TrimEnd(s[..|s| - 1])
  }

  /** String.prototype.trim. */
  function Trim(s: string): string
  {
    TrimEnd(TrimStart(s))
  }

  /** The trimmed string is a contiguous part of the input with whitespace
      only around it, and it neither starts nor ends with whitespace. */
  lemma TrimShape(s: string)
    ensures exists i, j :: 0 <= i <= j <= |s| && Trim(s) == s[i..j]
                           && AllSpace(s[..i]) && AllSpace(s[j..])
    ensures Trim(s) == "" || (!IsSpace(Trim(s)[0]) && !IsSpace(Trim(s)[|Trim(s)| - 1]))
  {
    var a := TrimStart(s);
    var t := TrimEnd(a);
    var i := |s| - |a|;
    var j := i + |t|;
    assert a == s[i..];
    assert t == s[i..j];
    assert s[..i] == s[..|s| - |a|];
    assert AllSpace(s[..i]);
    assert s[j..] == a[|t|..];
    assert AllSpace(s[j..]);
    if t != "" {
      assert t[0] == a[0];
    }
  }

  /** A string trims to "" exactly when it is all whitespace: this is the
      `s.trim() === ''` test of the handlers. */
  lemma {:induction false} BlankIffAllSpace(s: string)
    ensures Trim(s) == "" <==> AllSpace(s)
  {
    if s != [] && IsSpace(s[0]) {
      BlankIffAllSpace(s[1..]);
      assert TrimStart(s) == TrimStart(s[1..]);
      if AllSpace(s[1..]) {
        assert AllSpace(s);
      }
    }
  }

  /** A non-empty trimmed string is not blank. */
  lemma TrimmedNotBlank(s: string)
    ensures Trim(s) != "" ==> !AllSpace(Trim(s))
  {
    var t := Trim(s);
    if t != "" {
      assert !IsSpace(t[|t| - 1]);
    }
  }

  lemma TrimIdempotent(s: string)
    ensures Trim(Trim(s)) == Trim(s)
  {
    var t := Trim(s);
    assert TrimStart(t) == t;
    assert TrimEnd(t) == t;
  }

  /** `v.trim()` when `v` is a string; calling trim on any other value throws
      a TypeError, which is None here. */
  function TrimValue(v: Value): (r: Option<string>)
    ensures r.Some? <==> v.Str?
    ensures v.Str? ==> r.value == Trim(v.s)
  {
    if v.Str? then Some(Trim(v.s)) else None
  }

  // ---------------------------------------------------------------------------
  // Number()

  predicate IsDigit(c: char) { '0' <= c <= '9' }

  predicate AllDigits(s: string)
  {
    forall i :: 0 <= i < |s| ==> IsDigit(s[i])
  }

  /** The value of a string of decimal digits, read left to right. */
  function DigitsValue(ds: string): nat
    requires AllDigits(ds)
  {
    if ds == [] then 0
    else DigitsValue(ds[..|ds| - 1]) * 10 + ((ds[|ds| - 1] as int - '0' as int) as nat)
  }

  function Pow10(k: nat): (r: nat)
    ensures r >= 1
  {
    if k == 0 then 1 else 10 * Pow10(k - 1)
  }

  /** Index of the first '.', or |s| when there is none. */
  function DotIndex(s: string): (k: nat)
    ensures k <= |s|
    ensures forall i :: 0 <= i < k ==> s[i] != '.'
    ensures k < |s| ==> s[k] == '.'
  {
    if s == [] then 0
    else if s[0] == '.' then 0
    else 1 + DotIndex(s[1..])
  }

  /** An unsigned decimal literal `digits [ '.' digits ]` with at least one digit. */
  function ParseUnsigned(u: string): (r: Option<real>)
    ensures r.Some? ==> r.value >= 0.0
  {
    var k := DotIndex(u);
    var whole := u[..k];
    var frac := if k < |u| then u[k + 1..] else "";
    if AllDigits(whole) && AllDigits(frac) && |whole| + |frac| > 0 then
      Some(DigitsValue(whole) as real + (DigitsValue(frac) as real) / (Pow10(|frac|) as real))
    else None
  }

  /** StringToNumber on a trimmed, non-empty string: an optional sign and an
      unsigned decimal literal. */
  function ParseDecimal(t: string): Option<real>
  {
    if |t| > 0 && t[0] == '-' then
      match ParseUnsigned(t[1..])
      case Some(x) => Some(-x)
      case None => None
    else if |t| > 0 && t[0] == '+' then ParseUnsigned(t[1..])
    else ParseUnsigned(t)
  }

  /** Number(s) for a string: surrounding whitespace is ignored and a blank
      string is 0. */
  function StringToNumber(s: string): (r: Option<real>)
    ensures AllSpace(s) ==> r == Some(0.0)
  {
    var t := Trim(s);
    BlankIffAllSpace(s);
    if t == "" then Some(0.0) else ParseDecimal(t)
  }

  /** Number(v); None stands for NaN. */
  function ToNumber(v: Value): (r: Option<real>)
    ensures v.Num? ==> r == Some(v.x)
    ensures v.NaN? || v.Undefined? ==> r.None?
    ensures v.Null? ==> r == Some(0.0)
    ensures v.Bool? ==> r == Some(if v.b then 1.0 else 0.0)
  {
    match v
    case Undefined => None
    case Null => Some(0.0)
    case NaN => None
    case Bool(b) => Some(if b then 1.0 else 0.0)
    case Num(x) => Some(x)
    case Str(s) => StringToNumber(s)
  }

  /** The JavaScript number value `Number(v)` itself. */
  function NumberValue(v: Value): (r: Value)
    ensures r.Num? || r.NaN?
    ensures r.Num? <==> ToNumber(v).Some?
    ensures r.Num? ==> r.x == ToNumber(v).value
  {
    match ToNumber(v)
    case Some(x) => Num(x)
    case None => NaN
  }

  /** The value a server reads back after JSON.stringify of a body field:
      NaN is written as null. */
  function Wire(v: Value): (r: Value)
    ensures !r.NaN?
    ensures !v.NaN? ==> r == v
  {
    if v.NaN? then Null else v
  }

  /** Decimal text of a natural number, the inverse of DigitsValue. */
  function NatText(n: nat): (r: string)
    ensures |r| > 0 && AllDigits(r)
    decreases n
  {
    var d := [(('0' as int) + n % 10) as char];
    if n < 10 then d else NatText(n / 10) + d
  }

  lemma {:induction false} DigitsValueOfNatText(n: nat)
    ensures DigitsValue(NatText(n)) == n
    decreases n
  {
    var t := NatText(n);
    if n >= 10 {
      DigitsValueOfNatText(n / 10);
      assert t[..|t| - 1] == NatText(n / 10);
    }
  }

  /** A digit string has no surrounding whitespace to trim. */
  lemma DigitsTrimmed(t: string)
    requires AllDigits(t)
    ensures Trim(t) == t
  {
    if t != [] {
      assert !IsSpace(t[0]) && !IsSpace(t[|t| - 1]);
    }
  }

  lemma {:induction false} DigitsHaveNoDot(t: string)
    requires AllDigits(t)
    ensures DotIndex(t) == |t|
  {
    if t != [] {
      assert t[0] != '.';
      DigitsHaveNoDot(t[1..]);
    }
  }

  lemma ParseDigits(t: string)
    requires AllDigits(t) && |t| > 0
    ensures ParseDecimal(t) == Some(DigitsValue(t) as real)
  {
    DigitsHaveNoDot(t);
    assert IsDigit(t[0]);
    var k := DotIndex(t);
    assert t[..k] == t;
    var frac: string := "";
    assert DigitsValue(frac) == 0 && Pow10(|frac|) == 1;
    assert (DigitsValue(frac) as real) / (Pow10(|frac|) as real) == 0.0;
    assert ParseUnsigned(t) == Some(DigitsValue(t) as real);
  }

  /** A rent typed as decimal digits is read by Number() as exactly that
      number. */
  lemma NumberOfNatText(n: nat)
    ensures ToNumber(Str(NatText(n))) == Some(n as real)
  {
    var t := NatText(n);
    DigitsTrimmed(t);
    ParseDigits(t);
    DigitsValueOfNatText(n);
    assert StringToNumber(t) == ParseDecimal(t);
  }

  /** The text "0" is the number 0. */
  lemma NumberOfZeroText()
    ensures ToNumber(Str("0")) == Some(0.0)
  {
    NumberOfNatText(0);
    assert NatText(0) == "0";
  }

  // ---------------------------------------------------------------------------
  // split and join

  function IndexOf(s: string, c: char): (k: nat)
    requires c in s
    ensures k < |s| && s[k] == c && c !in s[..k]
  {
    if s[0] == c then 0 else 1 + IndexOf(s[1..], c)
  }

  /** Joining pieces with a separator; `Split` undoes it when no piece holds
      the separator. */
  function Join(lines: seq<string>, sep: char): (r: string)
  {
    if lines == [] then ""
    else if |lines| == 1 then lines[0]
    else lines[0] + [sep] + Join(lines[1..], sep)
  }

  /** `s.split(sep)`: the pieces between separators, empty pieces kept. */
  function Split(s: string, sep: char): (parts: seq<string>)
    ensures |parts| >= 1
    ensures forall i :: 0 <= i < |parts| ==> sep !in parts[i]
  {
    if sep !in s then [s]
    else
      var k := IndexOf(s, sep);
      [s[..k]] + Split(s[k + 1..], sep)
  }

  lemma {:induction false} SplitJoin(lines: seq<string>, sep: char)
    requires |lines| >= 1
    requires forall i :: 0 <= i < |lines| ==> sep !in lines[i]
    ensures Split(Join(lines, sep), sep) == lines
  {
    if |lines| > 1 {
      var j := Join(lines, sep);
      var rest := Join(lines[1..], sep);
      assert j == lines[0] + [sep] + rest;
      assert j[|lines[0]|] == sep;
      var k := IndexOf(j, sep);
      assert sep in j;
      assert j[..|lines[0]|] == lines[0];
      assert k == |lines[0]|;
      assert j[..k] == lines[0];
      assert j[k + 1..] == rest;
      SplitJoin(lines[1..], sep);
    }
  }
}
