/**
 * Numbers as the parsers read them: Python's `float()` on the decimal
 * literals it accepts, and the two `to_float` helpers, which normalise the
 * text first and turn every failure into 0.0.
 *
 * Values are exact reals; the rounding of IEEE doubles is not modelled.
 */
module Numbers {
  import opened Wrappers
  import opened Text

  function Pow10(n: nat): (p: nat)
    ensures p >= 1
  {
    if n == 0 then 1 else 10 * Pow10(n - 1)
  }

  function DigitValue(c: char): nat
    requires IsDigit(c)
  {
    (c as int) - ('0' as int)
  }

  /** The value of a string of decimal digits, most significant first. */
  function DigitsValue(s: string): (v: nat)
    requires AllDigits(s)
    ensures v < Pow10(|s|)
  {
    if s == [] then 0
    else
      var h := DigitsValue(s[..|s| - 1]);
      assert h + 1 <= Pow10(|s| - 1);
      assert (h + 1) * 10 <= Pow10(|s| - 1) * 10;
      h * 10 + DigitValue(s[|s| - 1])
  }

  lemma ShiftDigit(a: int, p: int, b: int, c: int)
    ensures (a * p + b) * 10 + c == a * (p * 10) + (b * 10 + c)
  {
  }

  /** Reading digits `x` then digits `y` shifts the value of `x` by the length of `y`. */
  lemma {:induction false} DigitsConcat(x: string, y: string)
    requires AllDigits(x) && AllDigits(y)
    ensures AllDigits(x + y)
    ensures DigitsValue(x + y) == DigitsValue(x) * Pow10(|y|) + DigitsValue(y)
    decreases |y|
  {
    if y == [] {
      assert x + y == x;
    } else {
      var y' := y[..|y| - 1];
      var c := y[|y| - 1];
      assert (x + y)[..|x + y| - 1] == x + y';
      assert (x + y)[|x + y| - 1] == c;
      DigitsConcat(x, y');
      assert DigitsValue(x + y) == DigitsValue(x + y') * 10 + DigitValue(c);
      assert DigitsValue(y) == DigitsValue(y') * 10 + DigitValue(c);
      assert Pow10(|y|) == Pow10(|y'|) * 10;
      ShiftDigit(DigitsValue(x), Pow10(|y'|), DigitsValue(y'), DigitValue(c));
    }
  }

  /** `m * 10^e` as an exact real, one decimal place at a time. */
  function Scaled(m: nat, e: int): (r: real)
    ensures r >= 0.0
    decreases if e >= 0 then e else -e
  {
    if e == 0 then m as real
    else if e > 0 then 10.0 * Scaled(m, e - 1)
    else Scaled(m, e + 1) / 10.0
  }

  /** A decimal literal as read: the digits `digits` with the point moved `exponent` places. */
  datatype Decimal = Decimal(digits: nat, exponent: int)
  {
    function Value(): real { Scaled(digits, exponent) }
  }

  /** The digits before and after the point of a mantissa, and the count of the latter. */
  function ParseMantissa(t: string): (r: Option<(nat, nat)>)
  {
    var point := FirstIndex(t, ".");
    if point.None? then
      if t != [] && AllDigits(t) then Some((DigitsValue(t), 0)) else None
    else
      var k := point.value;
      var digits := t[..k] + t[k + 1..];
      if digits != [] && AllDigits(digits) then
        Some((DigitsValue(digits), |t[k + 1..]|))
      else None
  }

  /** An exponent: an optional sign then at least one digit. */
  function ParseExponent(x: string): (r: Option<int>)
  {
    if x != [] && (x[0] == '+' || x[0] == '-') then
      var d := x[1..];
      if d != [] && AllDigits(d) then var v: int := DigitsValue(d); Some(if x[0] == '-' then -v else v) else None
    else if x != [] && AllDigits(x) then Some(DigitsValue(x))
    else None
  }

  /** Index of the first `e` or `E`. */
  function ExpIndex(t: string): (r: Option<nat>)
    ensures r.Some? ==> r.value < |t| && (t[r.value] == 'e' || t[r.value] == 'E')
    ensures r.Some? ==> forall j :: 0 <= j < r.value ==> t[j] != 'e' && t[j] != 'E'
    ensures r.None? <==> 'e' !in t && 'E' !in t
    decreases |t|
  {
    if t == [] then None
    else if t[0] == 'e' || t[0] == 'E' then Some(0)
    else
      match ExpIndex(t[1..])
      case None => None
      case Some(k) => Some(k + 1)
  }

  /** An unsigned decimal literal with an optional exponent. */
  function ParseUnsigned(t: string): (r: Option<Decimal>)
  {
    var e := ExpIndex(t);
    if e.None? then
      var mf := ParseMantissa(t);
      if mf.None? then None else Some(Decimal(mf.value.0, -(mf.value.1 as int)))
    else
      var k := e.value;
      var mf := ParseMantissa(t[..k]);
      var x := ParseExponent(t[k + 1..]);
      if mf.None? || x.None? then None
      else
        Some(Decimal(mf.value.0, x.value - mf.value.1))
  }

  /**
   * Python's `float(s)` on decimal text: surrounding whitespace, an optional
   * sign, digits with at most one point and at least one digit, then an
   * optional exponent. None where Python raises ValueError.
   */
  function ParseFloat(s: string): (r: Option<real>)
    ensures r.Some? ==> Strip(s) != []
    ensures r.Some? && Strip(s)[0] == '-' ==> r.value <= 0.0
    ensures r.Some? && Strip(s)[0] != '-' ==> r.value >= 0.0
  {
    var t := Strip(s);
    if t != [] && (t[0] == '+' || t[0] == '-') then
      var u := ParseUnsigned(t[1..]);
      if u.None? then None else Some(if t[0] == '-' then -u.value.Value() else u.value.Value())
    else ValueOf(ParseUnsigned(t))
  }

  function ValueOf(u: Option<Decimal>): Option<real>
  {
    if u.None? then None else Some(u.value.Value())
  }

  /** Which of the two parsers' `to_float` is meant. */
  datatype Flavour = Local | Cloud

  /**
   * The rewriting `to_float` applies before `float()`: a decimal comma becomes a
   * point, and the cloud parser also reads `k` as thousands and `M` as millions.
   */
  function Normalise(f: Flavour, s: string): string
  {
    var t := Replace(s, ",", ".");
    match f
    case Local => t
    case Cloud => Replace(Replace(t, "k", "e3"), "M", "e6")
  }

  /** `to_float`: None (Python's None, an AttributeError) and unparsable text give 0.0. */
  function ToFloat(f: Flavour, txt: Option<string>): (r: real)
    ensures txt.None? ==> r == 0.0
    ensures txt.Some? && ParseFloat(Normalise(f, txt.value)).None? ==> r == 0.0
  {
    match txt
    case None => 0.0
    case Some(s) => ParseFloat(Normalise(f, s)).GetOr(0.0)
  }

  // ---------------------------------------------------------------------------
  // What float() gives on the texts the patterns capture
  // ---------------------------------------------------------------------------

  lemma AllDigitsHasNoMarks(d: string)
    requires AllDigits(d)
    ensures '.' !in d && ',' !in d && 'e' !in d && 'E' !in d && 'k' !in d && 'M' !in d && '+' !in d && '-' !in d
    ensures d != [] ==> !IsSpace(d[0]) && !IsSpace(d[|d| - 1])
  {
  }

  /** A mantissa that is read holds a digit. */
  lemma MantissaHasDigit(t: string)
    requires ParseMantissa(t).Some?
    ensures exists k :: 0 <= k < |t| && IsDigit(t[k])
  {
    var point := FirstIndex(t, ".");
    if point.None? {
      assert IsDigit(t[0]);
    } else {
      var k := point.value;
      var digits := t[..k] + t[k + 1..];
      if k > 0 {
        assert digits[0] == t[0];
      } else {
        assert digits[0] == t[1];
      }
    }
  }

  /** An unsigned literal that is read holds a digit. */
  lemma UnsignedHasDigit(t: string)
    requires ParseUnsigned(t).Some?
    ensures exists k :: 0 <= k < |t| && IsDigit(t[k])
  {
    var e := ExpIndex(t);
    if e.None? {
      MantissaHasDigit(t);
    } else {
      var k := e.value;
      MantissaHasDigit(t[..k]);
      var j :| 0 <= j < k && IsDigit(t[..k][j]);
      assert t[j] == t[..k][j];
    }
  }

  /** Text that neither starts nor ends with whitespace and carries no sign is read as unsigned. */
  lemma ParseFloatUnsigned(s: string)
    requires s != [] && !IsSpace(s[0]) && !IsSpace(s[|s| - 1]) && s[0] != '+' && s[0] != '-'
    ensures ParseFloat(s) == ValueOf(ParseUnsigned(s))
  {
    StripUnpadded(s);
  }

  /** The first `e` of a text is found by ExpIndex. */
  lemma ExpAt(t: string, k: nat)
    requires k < |t| && t[k] == 'e' && forall j :: 0 <= j < k ==> t[j] != 'e' && t[j] != 'E'
    ensures ExpIndex(t) == Some(k)
  {
  }

  /** Without an exponent, the value is the mantissa's digits scaled by its fraction length. */
  lemma UnsignedPlain(t: string)
    requires ExpIndex(t).None? && ParseMantissa(t).Some?
    ensures ParseUnsigned(t) == Some(Decimal(ParseMantissa(t).value.0, -(ParseMantissa(t).value.1 as int)))
  {
  }

  /** With an exponent at `k`, the value is the mantissa before it scaled by the exponent after it. */
  lemma {:induction false} UnsignedExp(t: string, k: nat, m: nat, f: nat, x: int)
    requires ExpIndex(t) == Some(k) && ParseMantissa(t[..k]) == Some((m, f)) && ParseExponent(t[k + 1..]) == Some(x)
    ensures ParseUnsigned(t) == Some(Decimal(m, x - f))
  {
  }

  lemma MantissaDigits(d: string)
    requires d != [] && AllDigits(d)
    ensures ParseMantissa(d) == Some((DigitsValue(d), 0))
  {
    AllDigitsHasNoMarks(d);
    ContainsChar(d, '.');
  }

  lemma MantissaPoint(i: string, p: string)
    requires AllDigits(i) && AllDigits(p) && |i| + |p| >= 1
    ensures AllDigits(i + p)
    ensures ParseMantissa(i + "." + p) == Some((DigitsValue(i + p), |p|))
  {
    var s := i + "." + p;
    FirstPoint(i, p);
    assert s[..|i|] + s[|i| + 1..] == i + p;
    forall k | 0 <= k < |i + p|
      ensures IsDigit((i + p)[k])
    {
      if k < |i| {
        assert (i + p)[k] == i[k];
      } else {
        assert (i + p)[k] == p[k - |i|];
      }
    }
  }

  /** The point after the digits `i` is the first point of `i.p`. */
  lemma FirstPoint(i: string, p: string)
    requires AllDigits(i)
    ensures FirstIndex(i + "." + p, ".") == Some(|i|)
    ensures (i + "." + p)[|i| + 1..] == p
  {
    var s := i + "." + p;
    assert OccursAt(s, |i|, ".");
    forall j | 0 <= j < |i|
      ensures !OccursAt(s, j, ".")
    {
      assert s[j..j + 1][0] == i[j];
    }
    assert s[|i| + 1..] == p;
  }

  /** A run of digits is read as the integer it spells. */
  lemma ParseDigits(d: string)
    requires d != [] && AllDigits(d)
    ensures ParseFloat(d).Some? && ParseFloat(d).value == DigitsValue(d) as real
  {
    AllDigitsHasNoMarks(d);
    ParseFloatUnsigned(d);
    MantissaDigits(d);
    UnsignedPlain(d);
  }

  /** `i.p` is read as the digits of `i` and `p` with the point `|p|` places from the right. */
  lemma ParsePointed(i: string, p: string)
    requires AllDigits(i) && AllDigits(p) && |i| + |p| >= 1
    ensures AllDigits(i + p)
    ensures ParseFloat(i + "." + p).Some? && ParseFloat(i + "." + p).value == Scaled(DigitsValue(i + p), -(|p| as int))
  {
    var s := i + "." + p;
    UnsignedPointed(i, p);
    ParseFloatUnsigned(s);
  }

  /** The unsigned reading of `i.p`, and the first and last characters of `i.p`. */
  lemma UnsignedPointed(i: string, p: string)
    requires AllDigits(i) && AllDigits(p) && |i| + |p| >= 1
    ensures AllDigits(i + p)
    ensures var s := i + "." + p;
      s != [] && !IsSpace(s[0]) && !IsSpace(s[|s| - 1]) && s[0] != '+' && s[0] != '-'
      && ParseUnsigned(s) == Some(Decimal(DigitsValue(i + p), -(|p| as int)))
  {
    var s := i + "." + p;
    PointedShape(i, p);
    assert ExpIndex(s).None?;
    MantissaPoint(i, p);
    UnsignedPlain(s);
  }

  /** `i.p` has no exponent mark and starts and ends with a digit or the point. */
  lemma PointedShape(i: string, p: string)
    requires AllDigits(i) && AllDigits(p)
    ensures var s := i + "." + p;
      s != [] && !IsSpace(s[0]) && !IsSpace(s[|s| - 1]) && s[0] != '+' && s[0] != '-'
      && 'e' !in s && 'E' !in s
  {
    var s := i + "." + p;
    assert s[0] == (if i != [] then i[0] else '.');
    assert s[|s| - 1] == (if p != [] then p[|p| - 1] else '.');
    forall k | 0 <= k < |s|
      ensures s[k] != 'e' && s[k] != 'E'
    {
      if k < |i| {
        assert s[k] == i[k];
      } else if k > |i| {
        assert s[k] == p[k - |i| - 1];
      }
    }
  }

  /** The digits of `i` and `p` with the point `|p|` places from the right are `i` plus a fraction. */
  lemma PointedValue(i: string, p: string)
    requires AllDigits(i) && AllDigits(p)
    ensures AllDigits(i + p)
    ensures Scaled(DigitsValue(i + p), -(|p| as int)) == DigitsValue(i) as real + Scaled(DigitsValue(p), -(|p| as int))
  {
    DigitsConcat(i, p);
    ScaledSplit(DigitsValue(i), DigitsValue(p), |p|);
  }

  /** `i.p` is read as the value of `i` plus the digits `p` moved `|p|` places right of the point. */
  lemma ParseDecimal(i: string, p: string)
    requires AllDigits(i) && AllDigits(p) && |i| + |p| >= 1
    ensures ParseFloat(i + "." + p).Some? && ParseFloat(i + "." + p).value == DigitsValue(i) as real + Scaled(DigitsValue(p), -(|p| as int))
  {
    ParsePointed(i, p);
    PointedValue(i, p);
  }

  /** Moving the point `k` places left of `a * 10^k + b` leaves `a` whole and moves only `b`. */
  lemma {:induction false} ScaledSplit(a: nat, b: nat, k: nat)
    ensures Scaled(a * Pow10(k) + b, -(k as int)) == a as real + Scaled(b, -(k as int))
    decreases k
  {
    if k > 0 {
      ScaledSplit(10 * a, b, k - 1);
      assert a * Pow10(k) == (10 * a) * Pow10(k - 1);
    }
  }

  /** `d` followed by `e` and digits `x` is `d * 10^x`. */
  lemma ParseExponentForm(d: string, x: string)
    requires d != [] && AllDigits(d) && x != [] && AllDigits(x)
    ensures ParseFloat(d + "e" + x).Some? && ParseFloat(d + "e" + x).value == Scaled(DigitsValue(d), DigitsValue(x))
  {
    var s := d + "e" + x;
    ExponentShape(d, x);
    assert s[..|d|] == d && s[|d| + 1..] == x;
    MantissaDigits(d);
    assert ParseExponent(x) == Some(DigitsValue(x) as int);
    UnsignedExp(s, |d|, DigitsValue(d), 0, DigitsValue(x));
    ParseFloatUnsigned(s);
  }

  /** `d` then `e` then `x` starts and ends with a digit, and its first exponent mark is the `e`. */
  lemma ExponentShape(d: string, x: string)
    requires d != [] && AllDigits(d) && x != [] && AllDigits(x)
    ensures var s := d + "e" + x;
      !IsSpace(s[0]) && !IsSpace(s[|s| - 1]) && s[0] != '+' && s[0] != '-' && ExpIndex(s) == Some(|d|)
  {
    var s := d + "e" + x;
    assert s[0] == d[0] && s[|s| - 1] == x[|x| - 1];
    forall j | 0 <= j < |d|
      ensures s[j] != 'e' && s[j] != 'E'
    {
      assert s[j] == d[j];
    }
    ExpAt(s, |d|);
  }

  /** float() only succeeds on text holding a digit. */
  lemma ParseNeedsDigit(s: string)
    requires ParseFloat(s).Some?
    ensures exists k :: 0 <= k < |s| && IsDigit(s[k])
  {
    var t := Strip(s);
    var i := LeadingSpaces(s);
    var off := if t != [] && (t[0] == '+' || t[0] == '-') then 1 else 0;
    var u := t[off..];
    assert ParseUnsigned(u).Some?;
    UnsignedHasDigit(u);
    var k :| 0 <= k < |u| && IsDigit(u[k]);
    assert t[off + k] == u[k];
    assert s[i + off + k] == t[off + k];
  }

  /** Without a minus sign, float() is never negative. */
  lemma ParseNonnegative(s: string)
    requires '-' !in s && ParseFloat(s).Some?
    ensures ParseFloat(s).value >= 0.0
  {
    var t := Strip(s);
    var i := LeadingSpaces(s);
    if t != [] {
      assert t[0] == s[i];
    }
  }

  // ---------------------------------------------------------------------------
  // to_float on the captured amounts
  // ---------------------------------------------------------------------------

  /** Digits pass through the normalisation unchanged. */
  lemma NormaliseDigits(f: Flavour, d: string)
    requires AllDigits(d)
    ensures Normalise(f, d) == d
  {
    AllDigitsHasNoMarks(d);
    ContainsChar(d, ',');
    ContainsChar(d, 'k');
    ContainsChar(d, 'M');
    ReplaceAbsent(d, ",", ".");
    ReplaceAbsent(d, "k", "e3");
    ReplaceAbsent(d, "M", "e6");
  }

  /** The decimal comma between two runs of digits becomes a point. */
  lemma NormaliseComma(f: Flavour, i: string, p: string)
    requires AllDigits(i) && AllDigits(p)
    ensures Normalise(f, i + "," + p) == i + "." + p
  {
    AllDigitsHasNoMarks(i);
    AllDigitsHasNoMarks(p);
    assert i + "," + p == i + [','] + p;
    ReplaceOnce(i, ',', p, ".");
    var t := i + "." + p;
    assert t == i + ['.'] + p;
    assert 'k' !in t && 'M' !in t;
    ContainsChar(t, 'k');
    ContainsChar(t, 'M');
    ReplaceAbsent(t, "k", "e3");
    ReplaceAbsent(t, "M", "e6");
  }

  /** The cloud normalisation turns a `k` suffix into an exponent of 3. */
  lemma NormaliseThousands(d: string)
    requires AllDigits(d)
    ensures Normalise(Cloud, d + "k") == d + "e3"
  {
    AllDigitsHasNoMarks(d);
    var s := d + "k";
    assert ',' !in s;
    ContainsChar(s, ',');
    ReplaceAbsent(s, ",", ".");
    assert s == d + ['k'] + [];
    ReplaceOnce(d, 'k', [], "e3");
    var t := d + "e3";
    assert 'M' !in t;
    ContainsChar(t, 'M');
    ReplaceAbsent(t, "M", "e6");
  }

  /** The cloud normalisation turns an `M` suffix into an exponent of 6. */
  lemma NormaliseMillions(d: string)
    requires AllDigits(d)
    ensures Normalise(Cloud, d + "M") == d + "e6"
  {
    AllDigitsHasNoMarks(d);
    var s := d + "M";
    assert ',' !in s && 'k' !in s;
    ContainsChar(s, ',');
    ReplaceAbsent(s, ",", ".");
    ContainsChar(s, 'k');
    ReplaceAbsent(s, "k", "e3");
    assert s == d + ['M'] + [];
    ReplaceOnce(d, 'M', [], "e6");
  }

  /** The local normalisation leaves a `k` suffix in place. */
  lemma NormaliseLocalSuffix(d: string)
    requires AllDigits(d)
    ensures Normalise(Local, d + "k") == d + "k"
  {
    AllDigitsHasNoMarks(d);
    var s := d + "k";
    assert ',' !in s;
    ContainsChar(s, ',');
    ReplaceAbsent(s, ",", ".");
  }

  lemma ScaledThousand(m: nat)
    ensures Scaled(m, 3) == 1000.0 * m as real
  {
    assert Scaled(m, 1) == 10.0 * m as real;
    assert Scaled(m, 2) == 100.0 * m as real;
  }

  lemma ScaledMillion(m: nat)
    ensures Scaled(m, 6) == 1000000.0 * m as real
  {
    ScaledThousand(m);
    assert Scaled(m, 4) == 10000.0 * m as real;
    assert Scaled(m, 5) == 100000.0 * m as real;
  }

  /** Plain digits are read as their integer value by both parsers. */
  lemma ToFloatDigits(f: Flavour, d: string)
    requires d != [] && AllDigits(d)
    ensures ToFloat(f, Some(d)) == DigitsValue(d) as real
  {
    NormaliseDigits(f, d);
    ParseDigits(d);
  }

  /** A decimal comma is read as a decimal point by both parsers: "4,5" is 4.5. */
  lemma ToFloatComma(f: Flavour, i: string, p: string)
    requires AllDigits(i) && AllDigits(p) && |i| + |p| >= 1
    ensures ToFloat(f, Some(i + "," + p)) == DigitsValue(i) as real + Scaled(DigitsValue(p), -(|p| as int))
  {
    NormaliseComma(f, i, p);
    ParseDecimal(i, p);
  }

  /** The value of the decimal `i.p`. */
  function DecimalValue(i: string, p: string): real
    requires AllDigits(i) && AllDigits(p)
  {
    DigitsValue(i) as real + Scaled(DigitsValue(p), -(|p| as int))
  }

  /** An amount captured as `i,p` is read by `to_float` as the decimal `i.p`. */
  lemma CommaAmountRead(f: Flavour, a: string, i: string, p: string)
    requires AllDigits(i) && AllDigits(p) && |i| + |p| >= 1
    requires a == i + "," + p
    ensures ToFloat(f, Some(a)) == DecimalValue(i, p)
  {
    ToFloatComma(f, i, p);
  }

  /** The cloud parser reads a `k` suffix as thousands: "25k" is 25000. */
  lemma CloudThousands(d: string)
    requires d != [] && AllDigits(d)
    ensures ToFloat(Cloud, Some(d + "k")) == 1000.0 * DigitsValue(d) as real
  {
    NormaliseThousands(d);
    assert d + "e3" == d + "e" + "3";
    assert DigitsValue("3") == 3;
    ParseExponentForm(d, "3");
    ScaledThousand(DigitsValue(d));
  }

  /** The cloud parser reads an `M` suffix as millions: "2M" is 2000000. */
  lemma CloudMillions(d: string)
    requires d != [] && AllDigits(d)
    ensures ToFloat(Cloud, Some(d + "M")) == 1000000.0 * DigitsValue(d) as real
  {
    NormaliseMillions(d);
    assert d + "e6" == d + "e" + "6";
    assert DigitsValue("6") == 6;
    ParseExponentForm(d, "6");
    ScaledMillion(DigitsValue(d));
  }

  /** The cloud parser reads a decimal comma and a `k` suffix together: "1,5k" is 1500. */
  lemma {:induction false} CloudDecimalThousands(i: string, p: string)
    requires i != [] && AllDigits(i) && AllDigits(p)
    ensures ToFloat(Cloud, Some(i + "," + p + "k"))
      == 1000.0 * (DigitsValue(i) as real + Scaled(DigitsValue(p), -(|p| as int)))
  {
    var x, y := i + "," + p + "k", i + "." + p + "e3";
    NormaliseCommaThousands(i, p);
    ParseDecimalExp3(i, p);
    ToFloatVia(Cloud, x, y);
    DecimalThousandsValue(i, p);
  }

  /** The digits of `i.p` moved three places right are a thousand times `i.p`. */
  lemma DecimalThousandsValue(i: string, p: string)
    requires AllDigits(i) && AllDigits(p)
    ensures AllDigits(i + p)
    ensures Scaled(DigitsValue(i + p), 3 - |p|)
      == 1000.0 * (DigitsValue(i) as real + Scaled(DigitsValue(p), -(|p| as int)))
  {
    ScaledThousandTimes(DigitsValue(i + p), |p|);
    PointedValue(i, p);
  }

  /** `to_float` is float() of the normalised text when that text parses. */
  lemma ToFloatVia(f: Flavour, x: string, y: string)
    requires Normalise(f, x) == y && ParseFloat(y).Some?
    ensures ToFloat(f, Some(x)) == ParseFloat(y).value
  {
  }

  /** Three places more is a thousand times as much. */
  lemma ScaledThousandTimes(m: nat, k: nat)
    ensures Scaled(m, 3 - k) == 1000.0 * Scaled(m, -(k as int))
  {
    var n := -(k as int);
    ScaledUp(m, n);
    ScaledUp(m, n + 1);
    ScaledUp(m, n + 2);
    assert n + 3 == 3 - k;
  }

  /** "1,5k" becomes "1.5e3" in the cloud normalisation. */
  lemma NormaliseCommaThousands(i: string, p: string)
    requires AllDigits(i) && AllDigits(p)
    ensures Normalise(Cloud, i + "," + p + "k") == i + "." + p + "e3"
  {
    CommaStep(i, p);
    AllDigitsHasNoMarks(i);
    AllDigitsHasNoMarks(p);
    SuffixStep(i + "." + p);
  }

  lemma CommaStep(i: string, p: string)
    requires AllDigits(i) && AllDigits(p)
    ensures Replace(i + "," + p + "k", ",", ".") == i + "." + p + "k"
  {
    AllDigitsHasNoMarks(i);
    AllDigitsHasNoMarks(p);
    var tail := p + "k";
    assert ',' !in tail;
    assert i + "," + p + "k" == i + [','] + tail;
    ReplaceOnce(i, ',', tail, ".");
    assert i + "." + tail == i + "." + p + "k";
  }

  lemma SuffixStep(d: string)
    requires 'k' !in d && 'M' !in d
    ensures Replace(Replace(d + "k", "k", "e3"), "M", "e6") == d + "e3"
  {
    var t := d + "e3";
    ReplaceLast(d, 'k', "e3", d + "k", t);
    assert 'M' !in t;
    ContainsChar(t, 'M');
    ReplaceAbsent(t, "M", "e6");
  }

  /** A character found only at the end is replaced there and nowhere else. */
  lemma ReplaceLast(d: string, c: char, b: string, s: string, t: string)
    requires c !in d && s == d + [c] && t == d + b
    ensures Replace(s, [c], b) == t
  {
    assert s == d + [c] + [];
    ReplaceOnce(d, c, [], b);
  }

  /** `i.pe3` is the digits of `i` and `p` moved `3 - |p|` places. */
  lemma {:induction false} ParseDecimalExp3(i: string, p: string)
    requires i != [] && AllDigits(i) && AllDigits(p)
    ensures AllDigits(i + p)
    ensures ParseFloat(i + "." + p + "e3").Some?
    ensures ParseFloat(i + "." + p + "e3").value == Scaled(DigitsValue(i + p), 3 - |p|)
  {
    var d := i + "." + p;
    PointedShape(i, p);
    MantissaPoint(i, p);
    assert DigitsValue("3") == 3;
    MantissaExponent(i + "." + p + "e3", d, "3", DigitsValue(i + p), |p|, 3 - |p|);
  }

  /** A mantissa `d` read as (m, f), then `e` and the digits `x`, is `m * 10^(x - f)`. */
  lemma {:induction false} MantissaExponent(s: string, d: string, x: string, m: nat, f: nat, e: int)
    requires s == d + "e" + x
    requires d != [] && !IsSpace(d[0]) && d[0] != '+' && d[0] != '-' && 'e' !in d && 'E' !in d
    requires ParseMantissa(d) == Some((m, f))
    requires x != [] && AllDigits(x) && e == DigitsValue(x) - f
    ensures ParseFloat(s).Some? && ParseFloat(s).value == Scaled(m, e)
  {
    MantissaExponentShape(d, x);
    assert ParseExponent(x) == Some(DigitsValue(x) as int);
    ExpRead(s, |d|, m, f, DigitsValue(x), e);
  }

  /** `d`, `e`, `x`: the first exponent mark is the `e`, and the ends are neither space nor sign. */
  lemma {:induction false} MantissaExponentShape(d: string, x: string)
    requires d != [] && !IsSpace(d[0]) && d[0] != '+' && d[0] != '-' && 'e' !in d && 'E' !in d
    requires x != [] && AllDigits(x)
    ensures var s := d + "e" + x;
      ExpIndex(s) == Some(|d|) && s[..|d|] == d && s[|d| + 1..] == x
      && s != [] && !IsSpace(s[0]) && !IsSpace(s[|s| - 1]) && s[0] != '+' && s[0] != '-'
  {
    var s := d + "e" + x;
    forall j | 0 <= j < |d|
      ensures s[j] != 'e' && s[j] != 'E'
    {
      assert s[j] == d[j];
    }
    ExpAt(s, |d|);
    assert s[..|d|] == d && s[|d| + 1..] == x;
    assert s[0] == d[0] && s[|s| - 1] == x[|x| - 1];
    assert IsDigit(x[|x| - 1]);
  }

  /** float() of an unsigned literal with its exponent mark at `k`. */
  lemma {:induction false} ExpRead(t: string, k: nat, m: nat, f: nat, x: int, e: int)
    requires t != [] && !IsSpace(t[0]) && !IsSpace(t[|t| - 1]) && t[0] != '+' && t[0] != '-'
    requires ExpIndex(t) == Some(k) && ParseMantissa(t[..k]) == Some((m, f)) && ParseExponent(t[k + 1..]) == Some(x)
    requires e == x - f
    ensures ParseFloat(t).Some? && ParseFloat(t).value == Scaled(m, e)
  {
    UnsignedExp(t, k, m, f, x);
    DecimalRead(t, m, e);
  }

  /** A literal read as the decimal (m, e) is float()'d to `m * 10^e`. */
  lemma {:induction false} DecimalRead(s: string, m: nat, e: int)
    requires s != [] && !IsSpace(s[0]) && !IsSpace(s[|s| - 1]) && s[0] != '+' && s[0] != '-'
    requires ParseUnsigned(s) == Some(Decimal(m, e))
    ensures ParseFloat(s).Some? && ParseFloat(s).value == Scaled(m, e)
  {
    ParseFloatUnsigned(s);
  }

  /** One place more is ten times as much. */
  lemma ScaledUp(m: nat, e: int)
    ensures Scaled(m, e + 1) == 10.0 * Scaled(m, e)
  {
  }

  /** The local parser does not know the suffixes: "25k" fails float() and gives 0.0. */
  lemma LocalIgnoresThousands(d: string)
    requires AllDigits(d)
    ensures ToFloat(Local, Some(d + "k")) == 0.0
  {
    NormaliseLocalSuffix(d);
    ParseRejectsSuffix(d);
  }

  /** Digits followed by `k` are not a float literal. */
  lemma ParseRejectsSuffix(d: string)
    requires AllDigits(d)
    ensures ParseFloat(d + "k").None?
  {
    var s := d + "k";
    AllDigitsHasNoMarks(d);
    assert s[0] == (if d == [] then 'k' else d[0]);
    assert s[|s| - 1] == 'k';
    ParseFloatUnsigned(s);
    assert 'e' !in s && 'E' !in s && '.' !in s;
    ContainsChar(s, '.');
    assert !AllDigits(s);
  }

  /** The local parser's to_float never gives a negative amount for text without a minus sign. */
  lemma LocalToFloatNonnegative(s: string)
    requires '-' !in s
    ensures ToFloat(Local, Some(s)) >= 0.0
  {
    ReplaceChars(s, ",", ".");
    var t := Normalise(Local, s);
    if ParseFloat(t).Some? {
      ParseNonnegative(t);
    }
  }

  /** The cloud parser's to_float never gives a negative amount for text without a minus sign. */
  lemma CloudToFloatNonnegative(s: string)
    requires '-' !in s
    ensures ToFloat(Cloud, Some(s)) >= 0.0
  {
    ReplaceChars(s, ",", ".");
    var t1 := Replace(s, ",", ".");
    ReplaceChars(t1, "k", "e3");
    var t2 := Replace(t1, "k", "e3");
    ReplaceChars(t2, "M", "e6");
    var t := Normalise(Cloud, s);
    if ParseFloat(t).Some? {
      ParseNonnegative(t);
    }
  }

  /** The local parser's to_float is 0.0 on text without any digit. */
  lemma LocalNoDigitsZero(s: string)
    requires forall k :: 0 <= k < |s| ==> !IsDigit(s[k])
    ensures ToFloat(Local, Some(s)) == 0.0
  {
    ReplaceChars(s, ",", ".");
    var t := Normalise(Local, s);
    forall k | 0 <= k < |t|
      ensures !IsDigit(t[k])
    {
      assert t[k] in t;
    }
    if ParseFloat(t).Some? {
      ParseNeedsDigit(t);
    }
  }

  /** An empty capture (an optional group that did not take part) is read as 0.0 by both parsers. */
  lemma ToFloatEmpty(f: Flavour)
    ensures ToFloat(f, Some("")) == 0.0
  {
    assert Normalise(f, "") == "";
    assert Strip("") == "";
  }
}
