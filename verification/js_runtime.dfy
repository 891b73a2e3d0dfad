/**
 * The parts of the JavaScript runtime that the core relies on, stated as
 * Dafny definitions: values produced by JSON.parse, truthiness, property
 * reads, String.prototype.trim, toLowerCase (ASCII letters), the global
 * parseFloat and String(value).  JSON.parse itself and the rendering of a
 * number as text are library internals; they are handed in through JsLib.
 */
module JsRuntime {
  import opened Results

  /** A value JSON.parse can produce (RFC 8259, section 3).  Numbers are exact reals. */
  datatype Json =
    | JNull
    | JBool(b: bool)
    | JNum(n: real)
    | JStr(s: string)
    | JArr(elems: seq<Json>)
    | JObj(fields: map<string, Json>)

  /** What a `throw` carries: an Error instance and its message, or any other value. */
  datatype Thrown = ErrorObject(message: string) | NonErrorValue

  /** The library functions the core calls but whose internals are out of scope. */
  datatype JsLib = JsLib(
    jsonParse: string -> Option<Json>,   // JSON.parse; None when it throws
    numberText: real -> string           // String(n) for a number n
  )

  /**
   * `v.key` for a non-null value: a field of an object, undefined (None) for
   * anything else (no property name read by the core exists on primitives or arrays).
   */
  function Field(v: Json, key: string): Option<Json> {
    if v.JObj? && key in v.fields then Some(v.fields[key]) else None
  }

  /** The TypeError raised by reading a property of null (V8 wording). */
  function NullRead(key: string): Thrown {
    ErrorObject("Cannot read properties of null (reading '" + key + "')")
  }

  /** JavaScript truthiness of a possibly-undefined value (NaN is not a value of the model). */
  predicate Truthy(p: Option<Json>) {
    match p
    case None => false
    case Some(JNull) => false
    case Some(JBool(b)) => b
    case Some(JNum(n)) => n != 0.0
    case Some(JStr(s)) => s != ""
    case Some(_) => true
  }

  // ---------------------------------------------------------------- white space

  /** The WhiteSpace and LineTerminator characters of ECMAScript: what trim removes and what \s matches. */
  predicate IsSpace(c: char) {
    c == ' ' || ('\t' <= c <= '\r') || ('\U{00A0}' <= c && IsWideSpace(c))
  }

  /** The white space outside ASCII: no-break space, the Unicode space separators and line separators, BOM. */
  predicate IsWideSpace(c: char) {
    c == '\U{00A0}' || c == '\U{1680}' || ('\U{2000}' <= c <= '\U{200A}')
    || c == '\U{2028}' || c == '\U{2029}' || c == '\U{202F}' || c == '\U{205F}'
    || c == '\U{3000}' || c == '\U{FEFF}'
  }

  function TrimStart(s: string): (r: string)
    ensures |r| <= |s| && r == s[|s| - |r|..]
    ensures r == [] || !IsSpace(r[0])
  {
    if s != [] && IsSpace(s[0]) then TrimStart(s[1..]) else s
  }

  function TrimEnd(s: string): (r: string)
    ensures |r| <= |s| && r == s[..|r|]
    ensures r == [] || !IsSpace(r[|r| - 1])
  {
    if s != [] && IsSpace(s[|s| - 1]) then TrimEnd(s[..|s| - 1]) else s
  }

  /** String.prototype.trim. */
  function Trim(s: string): string {
    TrimEnd(TrimStart(s))
  }

  /** A trimmed string has no white space at either end. */
  predicate IsTrimmed(s: string) {
    s == [] || (!IsSpace(s[0]) && !IsSpace(s[|s| - 1]))
  }

  lemma TrimStartOfUnpadded(s: string)
    requires s == [] || !IsSpace(s[0])
    ensures TrimStart(s) == s
  {
  }

  lemma TrimEndOfUnpadded(s: string)
    requires s == [] || !IsSpace(s[|s| - 1])
    ensures TrimEnd(s) == s
  {
  }

  /** trim leaves a string with no white space at its ends unchanged, and only such strings. */
  lemma TrimIdentity(s: string)
    ensures Trim(s) == s <==> IsTrimmed(s)
  {
    if IsTrimmed(s) {
      TrimStartOfUnpadded(s);
      TrimEndOfUnpadded(s);
    }
  }

  /** trim removes white space and nothing else: Trim(s) is s less a space prefix and a space suffix. */
  lemma TrimRemovesOnlySpace(s: string)
    ensures |s| - |TrimStart(s)| + |Trim(s)| <= |s|
    ensures Trim(s) == s[|s| - |TrimStart(s)|..|s| - |TrimStart(s)| + |Trim(s)|]
    ensures forall i :: 0 <= i < |s| - |TrimStart(s)| ==> IsSpace(s[i])
    ensures forall i :: |s| - |TrimStart(s)| + |Trim(s)| <= i < |s| ==> IsSpace(s[i])
  {
    TrimIsSlice(s);
    TrimStartRemovesSpace(s);
    TrimSuffixIsSpace(s);
  }

  lemma TrimIsSlice(s: string)
    ensures |s| - |TrimStart(s)| + |Trim(s)| <= |s|
    ensures Trim(s) == s[|s| - |TrimStart(s)|..|s| - |TrimStart(s)| + |Trim(s)|]
  {
    var t := TrimStart(s);
    var k := |s| - |t|;
    assert t == s[k..];
    assert Trim(s) == t[..|Trim(s)|];
  }

  lemma TrimSuffixIsSpace(s: string)
    ensures forall i :: |s| - |TrimStart(s)| + |Trim(s)| <= i < |s| ==> IsSpace(s[i])
  {
    var t := TrimStart(s);
    var k := |s| - |t|;
    TrimEndRemovesSpace(t);
    forall i | k + |Trim(s)| <= i < |s|
      ensures IsSpace(s[i])
    {
      assert s[i] == t[i - k];
    }
  }

  lemma {:induction false} TrimStartRemovesSpace(s: string)
    ensures forall i :: 0 <= i < |s| - |TrimStart(s)| ==> IsSpace(s[i])
  {
    if s != [] && IsSpace(s[0]) {
      TrimStartRemovesSpace(s[1..]);
      assert forall i :: 1 <= i < |s| ==> s[i] == s[1..][i - 1];
    }
  }

  lemma {:induction false} TrimEndRemovesSpace(s: string)
    ensures forall i :: |TrimEnd(s)| <= i < |s| ==> IsSpace(s[i])
  {
    if s != [] && IsSpace(s[|s| - 1]) {
      TrimEndRemovesSpace(s[..|s| - 1]);
    }
  }

  /** trim is idempotent, and its result is trimmed. */
  lemma {:induction false} TrimTrims(s: string)
    ensures IsTrimmed(Trim(s))
    ensures Trim(Trim(s)) == Trim(s)
  {
    var t := TrimStart(s);
    var r := TrimEnd(t);
    if r != [] {
      assert r[0] == t[0];
    }
    TrimIdentity(r);
  }

  // ---------------------------------------------------------------- lower case

  function LowerChar(c: char): char {
    if 'A' <= c <= 'Z' then (c as int + 32) as char else c
  }

  /** String.prototype.toLowerCase, on the ASCII letters. */
  function ToLower(s: string): (r: string)
    ensures |r| == |s|
  {
    seq(|s|, i requires 0 <= i < |s| => LowerChar(s[i]))
  }

  // ---------------------------------------------------------------- parseFloat

  predicate IsDigit(c: char) {
    '0' <= c <= '9'
  }

  /** Length of the run of decimal digits at the start of s. */
  function DigitRun(s: string): (k: nat)
    ensures k <= |s|
    ensures forall i :: 0 <= i < k ==> IsDigit(s[i])
    ensures k < |s| ==> !IsDigit(s[k])
  {
    if s != [] && IsDigit(s[0]) then 1 + DigitRun(s[1..]) else 0
  }

  function DigitValue(c: char): nat
    requires IsDigit(c)
  {
    c as int - '0' as int
  }

  /** The natural number written by a string of decimal digits. */
  function DigitsValue(s: string): nat
    requires forall i :: 0 <= i < |s| ==> IsDigit(s[i])
  {
    if s == [] then 0 else DigitsValue(s[..|s| - 1]) * 10 + DigitValue(s[|s| - 1])
  }

  function Pow10(k: nat): (r: nat)
    ensures r >= 1
  {
    if k == 0 then 1 else 10 * Pow10(k - 1)
  }

  /** The exponent part at the start of s (`e`, optional sign, digits), if complete. */
  function ExponentPrefix(s: string): int {
    if |s| >= 2 && (s[0] == 'e' || s[0] == 'E') then
      var signed := s[1] == '+' || s[1] == '-';
      var digits := if signed then s[2..] else s[1..];
      var k := DigitRun(digits);
      if k == 0 then 0
      else if s[1] == '-' then -(DigitsValue(digits[..k]) as int)
      else DigitsValue(digits[..k]) as int
    else 0
  }

  /** The value of the digits after a decimal point: "25" is 0.25. */
  function FractionValue(frac: string): (r: real)
    requires forall i :: 0 <= i < |frac| ==> IsDigit(frac[i])
    ensures 0.0 <= r < 1.0
  {
    if frac == [] then 0.0 else (DigitValue(frac[0]) as real + FractionValue(frac[1..])) / 10.0
  }

  /** The value of the numeral `whole.frac`. */
  function DecimalValue(whole: string, frac: string): (r: real)
    requires forall i :: 0 <= i < |whole| ==> IsDigit(whole[i])
    requires forall i :: 0 <= i < |frac| ==> IsDigit(frac[i])
    ensures DigitsValue(whole) as real <= r < DigitsValue(whole) as real + 1.0
  {
    DigitsValue(whole) as real + FractionValue(frac)
  }

  /** m times ten to the power e. */
  function Scale(m: real, e: int): real {
    if e == 0 then m
    else if e > 0 then m * Pow10(e) as real
    else m / Pow10(-e) as real
  }

  /**
   * The unsigned decimal literal at the start of u: digits, an optional
   * point with digits, an optional exponent; None when u starts with none.
   */
  function UnsignedPrefix(u: string): Option<real> {
    var ip := DigitRun(u);
    var hasPoint := ip < |u| && u[ip] == '.';
    var frac := if hasPoint then u[ip + 1..] else [];
    var fp := DigitRun(frac);
    if ip == 0 && fp == 0 then None
    else
      var mantissa := DecimalValue(u[..ip], frac[..fp]);
      var rest := if hasPoint then frac[fp..] else u[ip..];
      Some(Scale(mantissa, ExponentPrefix(rest)))
  }

  /**
   * The global parseFloat: skip leading white space, read an optional sign
   * and the longest decimal literal that follows.  None stands for NaN.
   */
  function ParseFloat(s: string): Option<real> {
    var t := TrimStart(s);
    var signed := t != [] && (t[0] == '+' || t[0] == '-');
    match UnsignedPrefix(if signed then t[1..] else t)
    case None => None
    case Some(x) => Some(if signed && t[0] == '-' then -x else x)
  }

  lemma {:induction false} DigitRunOfNumeral(digits: string, rest: string)
    requires forall i :: 0 <= i < |digits| ==> IsDigit(digits[i])
    requires rest == [] || !IsDigit(rest[0])
    ensures DigitRun(digits + rest) == |digits|
  {
    if digits != [] {
      assert (digits + rest)[1..] == digits[1..] + rest;
      DigitRunOfNumeral(digits[1..], rest);
    }
  }

  lemma UnsignedPrefixOfDecimal(whole: string, frac: string)
    requires whole != [] && forall i :: 0 <= i < |whole| ==> IsDigit(whole[i])
    requires forall i :: 0 <= i < |frac| ==> IsDigit(frac[i])
    ensures UnsignedPrefix(whole + "." + frac)
            == Some(DecimalValue(whole, frac))
  {
    var u := whole + "." + frac;
    DigitRunOfNumeral(whole, "." + frac);
    assert u[..|whole|] == whole;
    assert u[|whole|] == '.';
    assert u[|whole| + 1..] == frac;
    DigitRunOfNumeral(frac, []);
    assert frac + [] == frac;
    assert frac[..|frac|] == frac;
    assert frac[|frac|..] == [];
    assert ExponentPrefix([]) == 0;
  }

  /** parseFloat reads a plain decimal numeral `digits.digits` exactly. */
  lemma ParseFloatOfDecimal(whole: string, frac: string)
    requires whole != [] && forall i :: 0 <= i < |whole| ==> IsDigit(whole[i])
    requires forall i :: 0 <= i < |frac| ==> IsDigit(frac[i])
    ensures ParseFloat(whole + "." + frac)
            == Some(DecimalValue(whole, frac))
  {
    var t := whole + "." + frac;
    assert t[0] == whole[0];
    TrimStartOfUnpadded(t);
    UnsignedPrefixOfDecimal(whole, frac);
  }

  /** parseFloat finds no number when the text, after white space, opens with no sign, digit or point. */
  lemma ParseFloatOfNonNumeral(s: string)
    requires var t := TrimStart(s); t == [] || (!IsDigit(t[0]) && t[0] != '+' && t[0] != '-' && t[0] != '.')
    ensures ParseFloat(s) == None
  {
  }

  // ---------------------------------------------------------------- String(value)

  function JoinWithComma(parts: seq<string>): string {
    if parts == [] then ""
    else if |parts| == 1 then parts[0]
    else JoinWithComma(parts[..|parts| - 1]) + "," + parts[|parts| - 1]
  }

  /** String(v): arrays join their elements with commas, null elements giving "". */
  function ToJsString(v: Json, numberText: real -> string): string
    decreases v
  {
    match v
    case JNull => "null"
    case JBool(b) => if b then "true" else "false"
    case JNum(n) => numberText(n)
    case JStr(s) => s
    case JArr(elems) =>
      JoinWithComma(seq(|elems|, i requires 0 <= i < |elems| =>
        if elems[i].JNull? then "" else ToJsString(elems[i], numberText)))
    case JObj(_) => "[object Object]"
  }

  // ---------------------------------------------------------------- Array.prototype.map

  /**
   * `xs.map(f)` where f may throw: the elements are mapped left to right and
   * the first throw ends the whole call.
   */
  function MapOrThrow<T>(xs: seq<Json>, f: Json -> Result<T, Thrown>): (r: Result<seq<T>, Thrown>)
    ensures r.Success? <==> forall i :: 0 <= i < |xs| ==> f(xs[i]).Success?
    ensures r.Success? ==> |r.value| == |xs| && forall i :: 0 <= i < |xs| ==> r.value[i] == f(xs[i]).value
    ensures r.Failure? ==> exists k :: 0 <= k < |xs| && f(xs[k]).Failure? && r.error == f(xs[k]).error
                                       && forall i :: 0 <= i < k ==> f(xs[i]).Success?
  {
    if xs == [] then Success([])
    else
      match f(xs[0])
      case Failure(e) => Failure(e)
      case Success(y) =>
        match MapOrThrow(xs[1..], f)
        case Failure(e) =>
          assert forall i :: 1 <= i < |xs| ==> xs[i] == xs[1..][i - 1];
          Failure(e)
        case Success(ys) => Success([y] + ys)
  }
}
