/**
 * The report's `safe_float`: a sheet cell with `,` turned into `.`, read
 * as a decimal number, or 0 where `float()` raises. Numbers are exact
 * reals in this model.
 */
module Numbers {
  import opened Wrappers
  import opened Text

  /** `s.replace(from, to)` for one character. */
  function ReplaceChar(s: string, from: char, to: char): (r: string)
    ensures |r| == |s|
    ensures forall i :: 0 <= i < |s| ==> r[i] == if s[i] == from then to else s[i]
  {
    seq(|s|, i requires 0 <= i < |s| => if s[i] == from then to else s[i])
  }

  /** The value of `whole.frac` written in decimal digits. */
  function DecimalValue(whole: string, frac: string): real
    requires AllDigits(whole) && AllDigits(frac)
  {
    DigitsValue(whole) as real + DigitsValue(frac) as real / Pow10(|frac|) as real
  }

  /** A decimal without sign: digits, optionally a point and more digits, at least one digit in all. */
  function ParseUnsigned(s: string): Option<real>
  {
    var i := Find(s, '.');
    var whole := if i == -1 then s else s[..i];
    var frac := if i == -1 then "" else s[i + 1..];
    if AllDigits(whole) && AllDigits(frac) && |whole| + |frac| > 0 then
      Some(DecimalValue(whole, frac))
    else
      None
  }

  /** `float(s)` for decimal literals with an optional sign, or `None` where it raises `ValueError`. */
  function ParseDecimal(s: string): Option<real>
  {
    if |s| > 0 && (s[0] == '+' || s[0] == '-') then
      match ParseUnsigned(s[1..])
      case None => None
      case Some(v) => Some(if s[0] == '-' then -v else v)
    else
      ParseUnsigned(s)
  }

  /** `safe_float(value)`: a decimal comma is read as a point; anything unreadable is 0. */
  function SafeFloat(s: string): real
  {
    ParseDecimal(ReplaceChar(s, ',', '.')).GetOr(0.0)
  }

  /** A whole number written by `str` reads back as itself. */
  lemma SafeFloatOfInteger(n: nat)
    ensures SafeFloat(NatToString(n)) == n as real
  {
    var s := NatToString(n);
    assert ReplaceChar(s, ',', '.') == s;
    NatToStringValue(n);
  }

  /** Digits, a point and digits read as the whole part plus the scaled fraction. */
  lemma ParseUnsignedPoint(x: string, y: string)
    requires AllDigits(x) && AllDigits(y) && |x| + |y| > 0
    ensures ParseUnsigned(x + "." + y) == Some(DecimalValue(x, y))
  {
    var s := x + "." + y;
    assert forall j :: 0 <= j < |x| ==> s[j] == x[j];
    FindAt(s, '.', |x|);
    assert s[..|x|] == x;
    assert s[|x| + 1..] == y;
  }

  /** Replacing the comma between two digit strings by a point, and leaving a point alone. */
  lemma CommaBecomesPoint(x: string, y: string)
    requires AllDigits(x) && AllDigits(y)
    ensures ReplaceChar(x + "," + y, ',', '.') == x + "." + y
    ensures ReplaceChar(x + "." + y, ',', '.') == x + "." + y
  {
    var s := x + "." + y;
    assert forall i :: 0 <= i < |s| ==> (x + "," + y)[i] == (if i == |x| then ',' else s[i]);
  }

  /**
   * A decimal comma and a decimal point give the same number: `x,y` and
   * `x.y` both read as the whole part `x` plus `y` scaled by `10^|y|`,
   * leading zeros of the fraction included, and either part may be empty.
   */
  lemma SafeFloatDecimalComma(x: string, y: string)
    requires AllDigits(x) && AllDigits(y) && |x| + |y| > 0
    ensures SafeFloat(x + "," + y) == SafeFloat(x + "." + y) == DecimalValue(x, y)
  {
    CommaBecomesPoint(x, y);
    var s := x + "." + y;
    assert s[0] == if |x| > 0 then x[0] else '.';
    ParseUnsignedPoint(x, y);
  }

  /** A string without digits is no unsigned decimal. */
  lemma NoDigitsNoNumber(u: string)
    requires forall i :: 0 <= i < |u| ==> !IsDigit(u[i])
    ensures ParseUnsigned(u) == None
  {
    var i := Find(u, '.');
    var whole := if i == -1 then u else u[..i];
    var frac := if i == -1 then "" else u[i + 1..];
    if |whole| > 0 {
      assert whole[0] == u[0];
    }
    if |frac| > 0 {
      assert frac[0] == u[i + 1];
    }
  }

  /** A second point leaves a point in the fraction, so there is no unsigned decimal. */
  lemma TwoPointsNoNumber(u: string, i: int, j: int)
    requires 0 <= i < j < |u| && u[i] == '.' && u[j] == '.'
    ensures ParseUnsigned(u) == None
  {
    var k := Find(u, '.');
    assert 0 <= k <= i;
    assert u[k + 1..][j - k - 1] == '.';
  }

  /**
   * Cells that read as 0: a cell without any digit (empty, blank, a word),
   * which the model reads as a failure of `float()`, and a cell holding two
   * decimal marks, points or commas, as a thousands separator writes.
   * `float()` itself accepts `inf` and `nan`; see the README's Left out.
   */
  lemma SafeFloatOfText(s: string)
    ensures (forall i :: 0 <= i < |s| ==> !IsDigit(s[i])) ==> SafeFloat(s) == 0.0
    ensures (exists i, j :: 0 <= i < j < |s| && s[i] in ".," && s[j] in ".,") ==> SafeFloat(s) == 0.0
  {
    hide SafeFloat;
    if forall i :: 0 <= i < |s| ==> !IsDigit(s[i]) {
      SafeFloatWithoutDigits(s);
    }
    if exists i, j :: 0 <= i < j < |s| && s[i] in ".," && s[j] in ".," {
      var i, j :| 0 <= i < j < |s| && s[i] in ".," && s[j] in ".,";
      SafeFloatTwoMarks(s, i, j);
    }
  }

  /** The digits part `float()` looks at: the text after a leading sign. */
  function Unsigned(r: string): (u: string)
    ensures |r| > 0 && (r[0] == '+' || r[0] == '-') ==> u == r[1..]
    ensures !(|r| > 0 && (r[0] == '+' || r[0] == '-')) ==> u == r
  {
    if |r| > 0 && (r[0] == '+' || r[0] == '-') then r[1..] else r
  }

  lemma SafeFloatWithoutDigits(s: string)
    requires forall i :: 0 <= i < |s| ==> !IsDigit(s[i])
    ensures SafeFloat(s) == 0.0
  {
    hide ParseUnsigned, ParseDecimal;
    var r := ReplaceChar(s, ',', '.');
    var u := Unsigned(r);
    var o := |r| - |u|;
    forall k | 0 <= k < |u|
      ensures !IsDigit(u[k])
    {
      assert u[k] == r[k + o];
    }
    NoDigitsNoNumber(u);
    SignedNone(r);
  }

  lemma SafeFloatTwoMarks(s: string, i: int, j: int)
    requires 0 <= i < j < |s| && s[i] in ".," && s[j] in ".,"
    ensures SafeFloat(s) == 0.0
  {
    hide ParseUnsigned, ParseDecimal;
    var r := ReplaceChar(s, ',', '.');
    var u := Unsigned(r);
    var o := |r| - |u|;
    assert r[i] == '.' && r[j] == '.';
    assert i >= o;
    assert u[i - o] == r[i] && u[j - o] == r[j];
    TwoPointsNoNumber(u, i - o, j - o);
    SignedNone(r);
  }

  /** `float()` of a signed or unsigned text fails where its digits part fails. */
  lemma SignedNone(r: string)
    requires ParseUnsigned(Unsigned(r)) == None
    ensures ParseDecimal(r) == None
  {
  }

  /** Cells a sheet may hold that read as 0: empty, a word, and a number grouped in thousands. */
  lemma SafeFloatOfTextExamples()
    ensures SafeFloat("") == 0.0
    ensures SafeFloat("n/a") == 0.0
    ensures SafeFloat("1.000,5") == 0.0
  {
    hide SafeFloat;
    SafeFloatWithoutDigits("");
    SafeFloatWithoutDigits("n/a");
    SafeFloatTwoMarks("1.000,5", 1, 5);
  }
}
