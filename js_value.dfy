/** The few JavaScript value semantics the page depends on: a draft value is
    either a string (what a text field yields) or a number (what an id
    select or a numeric default yields); `!x` tests falsiness; `x || d`
    picks a fallback; `${x}` converts to text; `parseInt` reads an integer. */
module JsValue {
  import opened JsText

  /** A value that may be missing (`undefined` or `null` in the source). */
  datatype Option<+T> = None | Some(value: T)

  /** A scalar draft value. Numbers are integral. */
  datatype Value = Str(s: string) | Num(n: int)

  /** JavaScript falsiness, restricted to strings and numbers. The string
      "0" is truthy. */
  predicate Falsy(v: Value) {
    v == Str("") || v == Num(0)
  }

  /** `o || fallback` for an optional string. */
  function Or(o: Option<string>, fallback: string): string {
    if o.Some? && o.value != "" then o.value else fallback
  }

  /** The text a template literal `${v}` produces. */
  function ToText(v: Value): string {
    match v
    case Str(s) => s
    case Num(n) => IntToDecimal(n)
  }

  /** The result of `parseInt`: an integer or NaN. */
  datatype JsInt = IntVal(i: int) | NaN

  /** `parseInt(s)` with no radix: skip leading white space, take an optional
      sign, then read the magnitude. */
  function ParseIntText(s: string): JsInt {
    var t := TrimStart(s);
    if t != [] && t[0] == '-' then Negate(ParseMagnitude(t[1..]))
    else if t != [] && t[0] == '+' then ParseMagnitude(t[1..])
    else ParseMagnitude(t)
  }

  function Negate(r: JsInt): JsInt {
    match r
    case IntVal(i) => IntVal(-i)
    case NaN => NaN
  }

  /** Radix 16 after a `0x`/`0X` prefix, radix 10 otherwise. */
  function ParseMagnitude(u: string): JsInt {
    if |u| >= 2 && u[0] == '0' && (u[1] == 'x' || u[1] == 'X') then ParseDigits(u[2..], 16)
    else ParseDigits(u, 10)
  }

  /** The value of the longest run of radix digits at the start of `w`; NaN
      when there is none. */
  function ParseDigits(w: string, radix: nat): (r: JsInt)
    ensures r.NaN? <==> (w == [] || !IsRadixDigit(w[0], radix))
    ensures r.IntVal? ==> r.i >= 0
  {
    var ds := DigitPrefix(w, radix);
    if ds == [] then NaN else IntVal(DigitsValue(ds, radix))
  }

  /** `parseInt(v)`: the value is converted to text first. */
  function ParseInt(v: Value): JsInt {
    ParseIntText(ToText(v))
  }

  /** A run of decimal digits is read as the number it denotes. */
  lemma MagnitudeOfDigits(ds: string)
    requires |ds| >= 1 && forall k :: 0 <= k < |ds| ==> IsDecimalDigit(ds[k])
    ensures ParseMagnitude(ds) == IntVal(DigitsValue(ds, 10))
  {
    assert |ds| >= 2 ==> IsDecimalDigit(ds[1]);
    forall k | 0 <= k < |ds| ensures IsRadixDigit(ds[k], 10) {
      assert IsDecimalDigit(ds[k]);
    }
    DigitPrefixOfDigits(ds, 10);
  }

  /** The decimal text of `m` is read as the magnitude `m`. */
  lemma MagnitudeOfDecimal(m: nat)
    ensures ParseMagnitude(NatToDecimal(m)) == IntVal(m)
  {
    DecimalValue(m);
    MagnitudeOfDigits(NatToDecimal(m));
  }

  /** A minus sign before `ds` is the first character, `ds` the rest. */
  lemma SignedTail(ds: string)
    ensures ("-" + ds)[0] == '-' && ("-" + ds)[1..] == ds
  {
  }

  /** Text starting with a digit is read as a magnitude. */
  lemma ParseIntUnsigned(s: string)
    requires s != [] && IsDecimalDigit(s[0])
    ensures ParseIntText(s) == ParseMagnitude(s)
  {
    TrimStartKeeps(s);
  }

  /** A minus sign followed by text is read as the negated magnitude of
      that text. */
  lemma ParseIntNegative(u: string)
    ensures ParseIntText("-" + u) == Negate(ParseMagnitude(u))
  {
    var s := "-" + u;
    SignedTail(u);
    TrimStartKeeps(s);
  }

  /** A minus sign before a magnitude `m` is read as `-m`. */
  lemma NegatedMagnitude(u: string, m: int)
    requires ParseMagnitude(u) == IntVal(m)
    ensures ParseIntText("-" + u) == IntVal(-m)
  {
    ParseIntNegative(u);
  }

  /** `parseInt` reads the decimal text of `m` as `m`. */
  lemma ParseIntNatDecimal(m: nat)
    ensures ParseIntText(NatToDecimal(m)) == IntVal(m)
  {
    MagnitudeOfDecimal(m);
    ParseIntUnsigned(NatToDecimal(m));
  }

  /** `parseInt` reads a minus sign and the decimal text of `m` as `-m`. */
  lemma ParseIntNegatedDecimal(m: nat)
    ensures ParseIntText("-" + NatToDecimal(m)) == IntVal(-(m as int))
  {
    MagnitudeOfDecimal(m);
    NegatedMagnitude(NatToDecimal(m), m);
  }

  /** `parseInt` reads back the decimal text of any integer. */
  lemma ParseIntDecimal(n: int)
    ensures ParseIntText(IntToDecimal(n)) == IntVal(n)
  {
    if n < 0 {
      var m: nat := -n;
      ParseIntNegatedDecimal(m);
      assert IntToDecimal(n) == "-" + NatToDecimal(m);
    } else {
      ParseIntNatDecimal(n);
      assert IntToDecimal(n) == NatToDecimal(n);
    }
  }

  /** `parseInt` of an integral number is that number. */
  lemma ParseIntOfNumber(n: int)
    ensures ParseInt(Num(n)) == IntVal(n)
  {
    ParseIntDecimal(n);
  }
}
