/**
 * NumberValidator and Coercer: the strict numeric grammar
 *   optional '-', one or more digits, optionally '.' and one or more digits
 * and the exact value of a string that follows it.
 *
 * A valid string is parsed into a `Numeral`; `Render` is the inverse, and the
 * two lemmas `ParseRender` and `ValidNumberGrammar` tie the scanner to the
 * grammar in both directions.
 */
module NumberValidator {
  import opened Cells

  predicate IsDigit(c: char) {
    '0' <= c <= '9'
  }

  predicate AllDigits(s: string) {
    forall i | 0 <= i < |s| :: IsDigit(s[i])
  }

  /** The parts of a numeric string: sign, integer digits, fraction digits. */
  datatype Numeral = Numeral(negative: bool, whole: string, fraction: Option<string>)

  /** The grammar's side conditions: digit runs are non-empty and all digits. */
  predicate WellFormed(n: Numeral) {
    && |n.whole| > 0 && AllDigits(n.whole)
    && (n.fraction.Some? ==> |n.fraction.value| > 0 && AllDigits(n.fraction.value))
  }

  /** The unsigned text of a numeral: its digits and, if present, '.' and the fraction. */
  function Body(n: Numeral): string {
    n.whole + (match n.fraction case None => "" case Some(f) => "." + f)
  }

  /** The text of a numeral. */
  function Render(n: Numeral): string {
    (if n.negative then "-" else "") + Body(n)
  }

  /** Length of the longest all-digit prefix of `s`. */
  function DigitRun(s: string): (k: nat)
    ensures k <= |s| && forall i | 0 <= i < k :: IsDigit(s[i])
    ensures k < |s| ==> !IsDigit(s[k])
  {
    if |s| == 0 || !IsDigit(s[0]) then 0
    else
      1 + DigitRun(s[1..])
  }

  /** Scans an unsigned numeral `digits ('.' digits)?` covering all of `s`. */
  function ParseUnsigned(negative: bool, s: string): (r: Option<Numeral>)
    ensures r.Some? ==> WellFormed(r.value) && r.value.negative == negative
    ensures r.Some? ==> Body(r.value) == s
  {
    var k := DigitRun(s);
    if k == 0 then None
    else if k == |s| then
      Some(Numeral(negative, s, None))
    else if s[k] == '.' && k + 1 < |s| && DigitRun(s[k + 1..]) == |s| - (k + 1) then
      SplitAtPoint(s, k);
      Some(Numeral(negative, s[..k], Some(s[k + 1..])))
    else None
  }

  /** A string is its part before a '.', the '.', and its part after. */
  lemma SplitAtPoint(s: string, k: nat)
    requires k < |s| && s[k] == '.'
    ensures s[..k] + ("." + s[k + 1..]) == s
  {
  }

  /** Scans a whole string against the grammar; `None` when it does not match. */
  function ParseNumeral(s: string): (r: Option<Numeral>)
    ensures r.Some? ==> WellFormed(r.value) && Render(r.value) == s
  {
    if |s| > 0 && s[0] == '-' then
      assert s == "-" + s[1..];
      ParseUnsigned(true, s[1..])
    else ParseUnsigned(false, s)
  }

  /**
   * `valid_number`: any number is valid; a text is valid exactly when it
   * matches the grammar.
   */
  predicate ValidNumber(c: Cell)
    ensures c.Num? ==> ValidNumber(c)
  {
    match c
    case Num(_) => true
    case Text(s) => ParseNumeral(s).Some?
  }

  /**
   * A valid text is non-empty, starts with '-' or a digit and ends with a
   * digit: no '+' sign, no bare or trailing '.', no lone '-'.
   */
  lemma ValidTextShape(s: string)
    requires ValidNumber(Text(s))
    ensures |s| > 0 && (s[0] == '-' || IsDigit(s[0])) && IsDigit(s[|s| - 1])
  {
    var n := ParseNumeral(s).value;
    var sign := if n.negative then "-" else "";
    assert s == sign + Body(n);
    assert Body(n)[0] == n.whole[0];
    match n.fraction
    case None =>
      assert Body(n) == n.whole + "";
      assert s[|s| - 1] == n.whole[|n.whole| - 1];
    case Some(f) =>
      assert s[|s| - 1] == f[|f| - 1];
  }

  /** A digit run followed by a non-digit (or nothing) is scanned exactly. */
  lemma {:induction false} DigitRunOfPrefix(w: string, rest: string)
    requires AllDigits(w)
    requires rest == [] || !IsDigit(rest[0])
    ensures DigitRun(w + rest) == |w|
  {
    if w != [] {
      assert (w + rest)[1..] == w[1..] + rest;
      DigitRunOfPrefix(w[1..], rest);
    } else {
      assert w + rest == rest;
    }
  }

  /** Scanning the unsigned text of a well-formed numeral gives it back. */
  lemma ParseBody(n: Numeral)
    requires WellFormed(n)
    ensures ParseUnsigned(n.negative, Body(n)) == Some(n)
  {
    var tail := match n.fraction case None => "" case Some(f) => "." + f;
    var body := Body(n);
    DigitRunOfPrefix(n.whole, tail);
    if n.fraction.Some? {
      var f := n.fraction.value;
      DigitRunOfPrefix(f, "");
      assert f + "" == f;
      assert body[|n.whole| + 1..] == f;
      assert body[..|n.whole|] == n.whole;
    } else {
      assert body == n.whole + "" == n.whole;
    }
  }

  /** Rendering a well-formed numeral and scanning the text gives it back. */
  lemma ParseRender(n: Numeral)
    requires WellFormed(n)
    ensures ParseNumeral(Render(n)) == Some(n)
  {
    ParseBody(n);
    if n.negative {
      assert Render(n)[1..] == Body(n);
    } else {
      assert Render(n) == Body(n);
      assert Body(n)[0] == n.whole[0];
      assert IsDigit(n.whole[0]);
    }
  }

  /**
   * The scanner accepts exactly the texts of well-formed numerals, i.e. the
   * strings of the form -?digits(.digits)?.
   */
  lemma ValidNumberGrammar(s: string)
    ensures ValidNumber(Text(s)) <==> exists n :: WellFormed(n) && Render(n) == s
  {
    if ValidNumber(Text(s)) {
      var n := ParseNumeral(s).value;
      assert WellFormed(n) && Render(n) == s;
    }
    if exists n :: WellFormed(n) && Render(n) == s {
      var n :| WellFormed(n) && Render(n) == s;
      ParseRender(n);
    }
  }

  /** 10 to the power `e`. */
  function Pow10(e: nat): (p: nat)
    ensures p >= 1
  {
    if e == 0 then 1 else 10 * Pow10(e - 1)
  }

  /** The value of a run of decimal digits, most significant first. */
  function DigitsValue(s: string): (v: nat)
    requires AllDigits(s)
    ensures v < Pow10(|s|)
  {
    if s == [] then 0
    else
      var prefix := s[..|s| - 1];
      assert AllDigits(prefix);
      var high := DigitsValue(prefix);
      var d := (s[|s| - 1] as int) - ('0' as int);
      assert high + 1 <= Pow10(|s| - 1);
      assert 10 * (high + 1) <= 10 * Pow10(|s| - 1);
      10 * high + d
  }

  /**
   * The value of the digits after the decimal point, read right to left:
   * `d1 d2 ... dk` stands for d1/10 + d2/100 + ... + dk/10^k.
   */
  function FractionValue(s: string): (v: real)
    requires AllDigits(s)
    ensures 0.0 <= v < 1.0
  {
    if s == [] then 0.0
    else
      assert AllDigits(s[1..]);
      (((s[0] as int) - ('0' as int)) as real + FractionValue(s[1..])) / 10.0
  }

  /** The exact value a well-formed numeral denotes. */
  function NumeralValue(n: Numeral): real
    requires WellFormed(n)
  {
    var frac := match n.fraction
      case None => 0.0
      case Some(f) => FractionValue(f);
    var magnitude := DigitsValue(n.whole) as real + frac;
    if n.negative then -magnitude else magnitude
  }

  /**
   * The integer digits give the magnitude's whole part and the sign gives its
   * sign: the fraction adds strictly less than one.
   */
  lemma NumeralValueBounds(n: Numeral)
    requires WellFormed(n)
    ensures var v := NumeralValue(n);
      var m := if v < 0.0 then -v else v;
      && DigitsValue(n.whole) as real <= m < DigitsValue(n.whole) as real + 1.0
      && (n.negative ==> v <= 0.0)
      && (!n.negative ==> v >= 0.0)
  {
  }

  /** Toggling the leading '-' of a numeral negates its value. */
  lemma NumeralValueNegate(n: Numeral)
    requires WellFormed(n)
    ensures NumeralValue(n.(negative := !n.negative)) == -NumeralValue(n)
  {
  }

  /**
   * Coercion: the number a cell stands for, `None` for a cell that is not a
   * valid number (the "skip this entry" signal of every caller).
   */
  function ToNumber(c: Cell): (r: Option<real>)
    ensures r.Some? <==> ValidNumber(c)
    ensures c.Num? ==> r == Some(c.value)
  {
    match c
    case Num(v) => Some(v)
    case Text(s) =>
      match ParseNumeral(s)
      case None => None
      case Some(n) => Some(NumeralValue(n))
  }

  /** The text of a well-formed numeral coerces to exactly the value the numeral denotes. */
  lemma ToNumberOfNumeral(n: Numeral)
    requires WellFormed(n)
    ensures ToNumber(Text(Render(n))) == Some(NumeralValue(n))
  {
    ParseRender(n);
  }

  /** The cell `convert_to_number` writes back: the number, or the cell as it was. */
  function Coerce(c: Cell): (r: Cell)
    ensures ValidNumber(c) ==> r == Num(ToNumber(c).value)
    ensures !ValidNumber(c) ==> r == c
  {
    match ToNumber(c)
    case Some(v) => Num(v)
    case None => c
  }
}
