/**
 * The JSON request values the routes and pages read, with the JavaScript
 * conversions the source applies to them: truthiness, `String(x)`,
 * `x ?? fallback` and `Number(x)`.
 */
module JsValues {
  import opened Wrappers
  import opened Text

  /** One property of a parsed JSON body (or a stored document). A number
      carries the text `String(n)` prints for it, so that numerals need not
      be re-rendered here; `Other` is an array or object, given by its
      truthiness (always true) and its `String(x)` rendering. */
  datatype Field =
    | Missing
    | Null
    | Bool(b: bool)
    | Num(value: real, text: string)
    | Text(s: string)
    | Other(text: string)

  /** JavaScript truthiness. */
  predicate Truthy(f: Field) {
    match f
    case Missing => false
    case Null => false
    case Bool(b) => b
    case Num(v, _) => v != 0.0
    case Text(s) => s != ""
    case Other(_) => true
  }

  /** `String(x)`. */
  function AsString(f: Field): string {
    match f
    case Missing => "undefined"
    case Null => "null"
    case Bool(b) => if b then "true" else "false"
    case Num(_, t) => t
    case Text(s) => s
    case Other(t) => t
  }

  /** `x ?? fallback`: the fallback replaces `undefined` and `null` only. */
  function OrElse(f: Field, fallback: Field): (r: Field)
    ensures r == f || r == fallback
    ensures f.Missing? || f.Null? ==> r == fallback
    ensures !f.Missing? && !f.Null? ==> r == f
  {
    if f.Missing? || f.Null? then fallback else f
  }

  /** A destructuring default `{ x = fallback }`: it replaces `undefined` only. */
  function Default(f: Field, fallback: Field): Field {
    if f.Missing? then fallback else f
  }

  /** `Number.isFinite(x)`: true only for numbers (JSON numbers are always finite). */
  predicate IsFiniteNumber(f: Field) {
    f.Num?
  }

  // ================================================================ Number(x)

  /** A JavaScript number as far as the application compares it: a finite
      value, one of the two infinities, or NaN. */
  datatype JsNumber = Finite(value: real) | PosInfinity | NegInfinity | NaN

  /** `u < x` for a finite `u`: false whenever `x` is NaN. */
  predicate Below(u: real, x: JsNumber) {
    match x
    case Finite(v) => u < v
    case PosInfinity => true
    case NegInfinity => false
    case NaN => false
  }

  function Pow10(n: nat): (p: nat)
    ensures p >= 1
  {
    if n == 0 then 1 else 10 * Pow10(n - 1)
  }

  /** `m` times ten to the power `e`. */
  function Scale(m: real, e: int): (r: real)
    ensures e == 0 ==> r == m
    ensures m >= 0.0 ==> r >= 0.0
  {
    if e >= 0 then m * Pow10(e) as real else m / Pow10(-e) as real
  }

  /** The exponent part of a decimal literal: nothing, or `e` or `E`, an
      optional sign and at least one digit. */
  function ExponentOf(t: string): (e: Option<int>)
    ensures t == "" ==> e == Some(0)
  {
    if t == "" then Some(0)
    else if t[0] != 'e' && t[0] != 'E' then None
    else
      var u := t[1..];
      var signed := u != "" && (u[0] == '+' || u[0] == '-');
      var d := if signed then u[1..] else u;
      if d != "" && AllDigits(d) then
        Some(if signed && u[0] == '-' then -(DigitsValue(d) as int) else DigitsValue(d) as int)
      else None
  }

  /** A decimal literal cut into its whole digits, its fraction digits
      (after a `.`, if any) and what follows them. */
  datatype Mantissa = Mantissa(whole: string, fraction: string, tail: string)

  function MantissaOf(b: string): (m: Mantissa)
    ensures AllDigits(m.whole) && AllDigits(m.fraction)
    ensures m.whole != "" ==> b != "" && IsDigit(b[0])
    ensures m.whole == "" && m.fraction != "" ==> b != "" && b[0] == '.'
    ensures b != "" && AllDigits(b) ==> m == Mantissa(b, "", "")
  {
    var i := LeadingDigits(b);
    var rest := b[i..];
    assert AllDigits(b) ==> i == |b| && b[..i] == b;
    if rest != "" && rest[0] == '.' then
      var j := LeadingDigits(rest[1..]);
      Mantissa(b[..i], rest[1..][..j], rest[1..][j..])
    else Mantissa(b[..i], "", rest)
  }

  /** The value of whole and fraction digits. */
  function MantissaValue(m: Mantissa): (v: real)
    requires AllDigits(m.whole) && AllDigits(m.fraction)
    ensures v >= 0.0
    ensures m.fraction == "" ==> v == DigitsValue(m.whole) as real
  {
    DigitsValue(m.whole) as real + DigitsValue(m.fraction) as real / Pow10(|m.fraction|) as real
  }

  /** An unsigned decimal literal other than `Infinity`: digits, an optional
      `.` with digits, at least one digit in all, and an optional exponent. */
  function UnsignedDecimal(b: string): (r: Option<real>)
    ensures b != "" && AllDigits(b) ==> r == Some(DigitsValue(b) as real)
    ensures r.Some? ==> b != "" && (IsDigit(b[0]) || b[0] == '.') && r.value >= 0.0
  {
    var m := MantissaOf(b);
    if m.whole == "" && m.fraction == "" then None
    else
      match ExponentOf(m.tail)
      case None => None
      case Some(e) => Some(Scale(MantissaValue(m), e))
  }

  /** `Number(s)` for a string: the trimmed text read as a decimal literal
      with an optional sign, `0` for blank text, and NaN for anything else. */
  function StringToNumber(s: string): (r: JsNumber)
    ensures AllSpace(s) ==> r == Finite(0.0)
    ensures r == PosInfinity <==> Trim(s) == "Infinity" || Trim(s) == "+Infinity"
    ensures r == NegInfinity <==> Trim(s) == "-Infinity"
    ensures Trim(s) != "" && AllDigits(Trim(s)) ==> r == Finite(DigitsValue(Trim(s)) as real)
  {
    var t := Trim(s);
    if t == "" then Finite(0.0)
    else
      var signed := t[0] == '+' || t[0] == '-';
      var b := if signed then t[1..] else t;
      assert signed ==> t == [t[0]] + b;
      if b == "Infinity" then (if t[0] == '-' then NegInfinity else PosInfinity)
      else
        match UnsignedDecimal(b)
        case None => NaN
        case Some(v) => Finite(if t[0] == '-' then -v else v)
  }

  /** `Number(String(n))` is `n`. */
  lemma StringToNumberOfNat(n: nat)
    ensures StringToNumber(NatToString(n)) == Finite(n as real)
  {
    var s := NatToString(n);
    assert !IsSpace(s[0]) && !IsSpace(s[|s| - 1]);
    TrimOfTrimmed(s);
    DigitsValueOfNatToString(n);
  }

  /** Text that trims to an unsigned decimal literal reads as its value. */
  lemma UnsignedNumber(s: string, v: real)
    requires UnsignedDecimal(Trim(s)) == Some(v)
    ensures StringToNumber(s) == Finite(v)
  {
    var t := Trim(s);
    assert t != "" && (IsDigit(t[0]) || t[0] == '.');
    assert t != "Infinity" by {
      assert "Infinity"[0] == 'I';
    }
  }

  /** Digits, a dot and digits read as the whole part plus the fraction. */
  lemma DecimalFraction(w: string, f: string)
    requires f != "" && AllDigits(w) && AllDigits(f)
    ensures StringToNumber(w + "." + f) == Finite(MantissaValue(Mantissa(w, f, "")))
  {
    var s := w + "." + f;
    TrimmedDecimal(s, if w == "" then '.' else w[0], f[|f| - 1]);
    MantissaOfFraction(w, f);
    UnsignedNumber(s, MantissaValue(Mantissa(w, f, "")));
  }

  lemma MantissaOfFraction(w: string, f: string)
    requires AllDigits(w) && AllDigits(f)
    ensures MantissaOf(w + "." + f) == Mantissa(w, f, "")
  {
    var s := w + "." + f;
    assert s == w + ("." + f);
    LeadingDigitsOf(w, "." + f);
    assert s[|w|..] == "." + f && s[..|w|] == w;
    assert f == f + "";
    LeadingDigitsOf(f, "");
    assert ("." + f)[1..] == f;
  }

  /** A fraction reads as its decimal value. */
  lemma FractionExample()
    ensures StringToNumber("0.7") == Finite(0.7)
  {
    assert MantissaValue(Mantissa("0", "7", "")) == 0.7 by {
      assert DigitsValue("0") == 0 && DigitsValue("7") == 7 && Pow10(1) == 10;
    }
    assert "0" + "." + "7" == "0.7";
    DecimalFraction("0", "7");
  }

  /** A leading dot is allowed. */
  lemma LeadingDotExample()
    ensures StringToNumber(".5") == Finite(0.5)
  {
    assert MantissaValue(Mantissa("", "5", "")) == 0.5 by {
      assert DigitsValue("") == 0 && DigitsValue("5") == 5 && Pow10(1) == 10;
    }
    assert "" + "." + "5" == ".5";
    DecimalFraction("", "5");
  }

  /** Digits, `e` and digits read as the first digits times ten to the
      power of the second. */
  lemma DecimalExponent(w: string, d: string)
    requires w != "" && d != "" && AllDigits(w) && AllDigits(d)
    ensures StringToNumber(w + "e" + d) == Finite(Scale(DigitsValue(w) as real, DigitsValue(d)))
  {
    var s := w + "e" + d;
    TrimmedDecimal(s, w[0], d[|d| - 1]);
    MantissaOfExponent(w, d);
    ExponentOfDigits(d);
    UnsignedNumber(s, Scale(DigitsValue(w) as real, DigitsValue(d)));
  }

  lemma MantissaOfExponent(w: string, d: string)
    requires AllDigits(w)
    ensures MantissaOf(w + "e" + d) == Mantissa(w, "", "e" + d)
  {
    var s := w + "e" + d;
    assert s == w + ("e" + d);
    LeadingDigitsOf(w, "e" + d);
    assert s[|w|..] == "e" + d && s[..|w|] == w;
  }

  lemma ExponentOfDigits(d: string)
    requires d != "" && AllDigits(d)
    ensures ExponentOf("e" + d) == Some(DigitsValue(d) as int)
  {
    assert ("e" + d)[0] == 'e' && ("e" + d)[1..] == d;
  }

  /** An exponent scales the value. */
  lemma ExponentExample()
    ensures StringToNumber("1e2") == Finite(100.0)
  {
    assert Scale(DigitsValue("1") as real, DigitsValue("2")) == 100.0 by {
      assert DigitsValue("1") == 1 && DigitsValue("2") == 2 && Pow10(2) == 100;
    }
    assert "1" + "e" + "2" == "1e2";
    DecimalExponent("1", "2");
  }

  /** Text that starts with a digit or a dot and ends with a digit is
      already trimmed. */
  lemma TrimmedDecimal(s: string, first: char, last: char)
    requires s != "" && s[0] == first && s[|s| - 1] == last
    requires (IsDigit(first) || first == '.') && IsDigit(last)
    ensures Trim(s) == s
  {
    TrimOfTrimmed(s);
  }

  /** A minus sign negates an unsigned decimal literal. */
  lemma NegatedNumber(b: string, v: real)
    requires UnsignedDecimal(b) == Some(v) && !IsSpace(b[|b| - 1])
    ensures StringToNumber("-" + b) == Finite(-v)
  {
    var s := "-" + b;
    assert s[0] == '-' && s[|s| - 1] == b[|b| - 1] && s[1..] == b;
    TrimOfTrimmed(s);
    assert b != "Infinity" by {
      assert "Infinity"[0] == 'I';
    }
    SignedNumber(s, b, v);
  }

  /** `Number` of trimmed text with a minus sign in front of an unsigned
      literal. */
  lemma SignedNumber(s: string, b: string, v: real)
    requires Trim(s) == s && s == "-" + b && b != "Infinity" && UnsignedDecimal(b) == Some(v)
    ensures StringToNumber(s) == Finite(-v)
  {
    assert s[1..] == b;
  }

  /** A minus sign negates. */
  lemma NegativeExample()
    ensures StringToNumber("-2") == Finite(-2.0)
  {
    assert UnsignedDecimal("2") == Some(2.0) by {
      assert AllDigits("2") && DigitsValue("2") == 2;
    }
    assert "-" + "2" == "-2";
    NegatedNumber("2", 2.0);
  }

  /** Surrounding whitespace is ignored. */
  lemma PaddedNumber(s: string)
    requires s != "" && !IsSpace(s[0]) && !IsSpace(s[|s| - 1])
    ensures StringToNumber(" " + s + " ") == StringToNumber(s)
  {
    TrimPadded(s);
    TrimOfTrimmed(s);
  }

  /** A lone dot is NaN. */
  lemma DotIsNaN()
    ensures StringToNumber(".") == NaN
  {
    TrimOfTrimmed(".");
    assert UnsignedDecimal(".") == None by {
      assert LeadingDigits(".") == 0;
      assert "."[1..] == "";
      assert MantissaOf(".") == Mantissa("", "", "");
    }
  }

  /** A word is NaN. */
  lemma WordIsNaN()
    ensures StringToNumber("abc") == NaN
  {
    TrimOfTrimmed("abc");
    assert UnsignedDecimal("abc") == None by {
      assert LeadingDigits("abc") == 0;
      assert MantissaOf("abc").whole == "" && MantissaOf("abc").fraction == "";
    }
    NotANumber("abc");
  }

  /** Trimmed unsigned text that is neither `Infinity` nor a decimal
      literal is NaN. */
  lemma NotANumber(s: string)
    requires Trim(s) == s && s != "" && s[0] != '+' && s[0] != '-'
    requires s != "Infinity" && UnsignedDecimal(s) == None
    ensures StringToNumber(s) == NaN
  {
  }

  lemma TrimPadded(s: string)
    requires s != "" && !IsSpace(s[0]) && !IsSpace(s[|s| - 1])
    ensures Trim(" " + s + " ") == s
  {
    var p := " " + s + " ";
    assert LeadingSpace(p) == 1 by {
      assert p[1..] == s + " ";
      assert LeadingSpace(p[1..]) == 0;
    }
    var t := p[1..];
    assert t == s + " ";
    assert TrailingSpace(t) == 1 by {
      assert t[..|t| - 1] == s;
      assert TrailingSpace(s) == 0;
    }
    assert t[..|t| - 1] == s;
  }

  /** `Number(x)` for a request property, as `<` converts it: booleans and
      null are 0 or 1 and 0, text is read as a numeral, and an array is read
      through its `String` rendering. */
  function ToNumber(f: Field): JsNumber {
    match f
    case Missing => NaN
    case Null => Finite(0.0)
    case Bool(b) => Finite(if b then 1.0 else 0.0)
    case Num(v, _) => Finite(v)
    case Text(s) => StringToNumber(s)
    case Other(t) => StringToNumber(t)
  }
}
