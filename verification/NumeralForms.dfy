/** What a number literal looks like and what it stands for, written out: a whole part, a fraction and an exponent
    (packages/model-option-map/src/tokenizer.ts:75-81, packages/model-option-map/src/parser.ts:149-154). */
module NumeralForms {
  import opened Numerals
  import Tokenizer

  /** The fraction and the exponent are empty where there are none. */
  datatype Numeral = Numeral(whole: string, fraction: string, marker: char, sign: string, exponent: string)

  ghost predicate AllDigits(s: string) {
    forall k :: 0 <= k < |s| ==> '0' <= s[k] <= '9'
  }

  ghost predicate WellFormed(n: Numeral) {
    && AllDigits(n.whole) && n.whole != "" && (n.whole[0] == '0' ==> |n.whole| == 1)
    && AllDigits(n.fraction) && AllDigits(n.exponent)
    && (n.marker == 'e' || n.marker == 'E') && (n.sign == "" || n.sign == "+" || n.sign == "-")
  }

  function Spelled(n: Numeral): string {
    n.whole + FractionText(n) + ExponentText(n)
  }

  function FractionText(n: Numeral): string {
    if n.fraction == "" then "" else "." + n.fraction
  }

  function ExponentText(n: Numeral): string {
    if n.exponent == "" then "" else [n.marker] + n.sign + n.exponent
  }

  /** A row of decimal digits, high end first. */
  ghost function Positional(digits: string): (r: int)
    ensures AllDigits(digits) ==> r >= 0
  {
    if digits == [] then 0
    else
      var digit, power := digits[0] as int - '0' as int, PowerOfTen(|digits| - 1);
      assert AllDigits(digits) ==> digit * power >= 0 by {
        if AllDigits(digits) {
          assert IsDigit(digits[0]);
          ProductIsNat(digit, power);
        }
      }
      digit * power + Positional(digits[1..])
  }

  lemma ProductIsNat(a: nat, b: nat)
    ensures a * b >= 0
  {
  }

  ghost function PowerOfTen(n: nat): (r: int)
    ensures r > 0
  {
    if n == 0 then 1 else 10 * PowerOfTen(n - 1)
  }

  // ---------- where the parts end ----------

  lemma {:induction false} DigitsReach(s: string, i: nat, j: nat)
    requires i <= j <= |s| && forall k :: i <= k < j ==> IsDigit(s[k])
    ensures DigitsEnd(s, i) >= j && (j == |s| || !IsDigit(s[j]) ==> DigitsEnd(s, i) == j)
    decreases j - i
  {
    if i < j {
      DigitsReach(s, i + 1, j);
    }
  }

  lemma {:induction false} DigitsBefore(s: string, i: nat)
    requires i <= |s|
    ensures forall k :: i <= k < DigitsEnd(s, i) ==> IsDigit(s[k])
    ensures DigitsEnd(s, i) < |s| ==> !IsDigit(s[DigitsEnd(s, i)])
    decreases |s| - i
  {
    if i < |s| && IsDigit(s[i]) {
      DigitsBefore(s, i + 1);
    }
  }

  /** The parts of a numeral that stands in a text from i on, and what follows it. */
  ghost predicate StandsAt(s: string, i: nat, n: Numeral) {
    i + |Spelled(n)| <= |s| && s[i..i + |Spelled(n)|] == Spelled(n)
  }

  lemma PartsStand(s: string, i: nat, n: Numeral)
    requires StandsAt(s, i, n)
    ensures var a := i + |n.whole|; var b := a + |FractionText(n)|; var e := b + |ExponentText(n)|;
      && e <= |s| && s[i..a] == n.whole && s[a..b] == FractionText(n) && s[b..e] == ExponentText(n)
  {
    hide FractionText, ExponentText;
    var text, a := Spelled(n), |n.whole|;
    var b := a + |FractionText(n)|;
    Tokenizer.SliceOfSlice(s, i, |text|, 0, a);
    Tokenizer.SliceOfSlice(s, i, |text|, a, b);
    Tokenizer.SliceOfSlice(s, i, |text|, b, |text|);
    assert text[0..a] == n.whole && text[a..b] == FractionText(n) && text[b..] == ExponentText(n);
  }

  lemma SliceDigits(s: string, i: nat, j: nat, digits: string)
    requires i <= j <= |s| && s[i..j] == digits && AllDigits(digits)
    ensures forall k :: i <= k < j ==> IsDigit(s[k])
  {
    forall k | i <= k < j ensures IsDigit(s[k]) {
      assert s[k] == s[i..j][k - i];
    }
  }

  /** The pattern matches at least the numeral, and exactly the numeral if the text ends there. */
  lemma MatchReaches(s: string, i: nat, n: Numeral)
    requires WellFormed(n) && StandsAt(s, i, n)
    ensures i < |s| && IsDigit(s[i])
    ensures NumberEnd(s, i) >= i + |Spelled(n)|
    ensures i + |Spelled(n)| == |s| ==>
      && IntegerEnd(s, i) == i + |n.whole| && FractionEnd(s, i + |n.whole|) == i + |n.whole| + |FractionText(n)|
  {
    hide DigitsEnd, Spelled;
    PartsStand(s, i, n);
    var a := i + |n.whole|;
    var b := a + |FractionText(n)|;
    var e := b + |ExponentText(n)|;
    assert |Spelled(n)| == e - i by { SpelledLength(n); }
    WholeEnds(s, i, a, n);
    if a < e {
      FractionEnds(s, a, b, n);
      if b < e {
        ExponentEnds(s, b, e, n);
      }
    }
    if e == |s| && a == e {
      assert FractionEnd(s, a) == a;
    }
  }

  lemma SpelledLength(n: Numeral)
    ensures |Spelled(n)| == |n.whole| + |FractionText(n)| + |ExponentText(n)|
  {
  }

  lemma WholeEnds(s: string, i: nat, a: nat, n: Numeral)
    requires WellFormed(n) && i <= a <= |s| && s[i..a] == n.whole
    ensures i < a && IsDigit(s[i]) && IntegerEnd(s, i) >= a
    ensures a == |s| || !IsDigit(s[a]) ==> IntegerEnd(s, i) == a
  {
    SliceDigits(s, i, a, n.whole);
    assert s[i] == s[i..a][0];
    DigitsReach(s, i + 1, a);
  }

  lemma FractionEnds(s: string, a: nat, b: nat, n: Numeral)
    requires WellFormed(n) && a <= b <= |s| && s[a..b] == FractionText(n) && a < |s|
    requires b == a ==> s[a] == n.marker
    ensures !IsDigit(s[a]) && FractionEnd(s, a) >= b
    ensures b == |s| || s[b] == n.marker ==> FractionEnd(s, a) == b
  {
    if a < b {
      assert s[a] == s[a..b][0] == '.';
      assert s[a + 1..b] == s[a..b][1..] == n.fraction;
      SliceDigits(s, a + 1, b, n.fraction);
      DigitsReach(s, a + 2, b);
    }
  }

  lemma ExponentEnds(s: string, b: nat, e: nat, n: Numeral)
    requires WellFormed(n) && b < e <= |s| && s[b..e] == ExponentText(n)
    ensures s[b] == n.marker && ExponentEnd(s, b) >= e && (e == |s| ==> ExponentEnd(s, b) == e)
  {
    var marker, k := [n.marker], b + 1 + |n.sign|;
    var text := marker + n.sign;
    assert ExponentText(n) == text + n.exponent && |s[b..e]| == e - b;
    Tokenizer.SliceSplits(s, b, text, n.exponent);
    assert s[b] == text[0] == n.marker;
    SliceDigits(s, k, e, n.exponent);
    if n.sign != "" {
      assert s[b + 1] == text[1] == n.sign[0];
    } else {
      assert IsDigit(s[b + 1]);
    }
    assert ExponentDigits(s, b) == k;
    DigitsReach(s, k + 1, e);
  }

  // ---------- which texts are numerals ----------

  /** The parts of what the pattern matches. */
  lemma Parts(text: string) returns (n: Numeral)
    requires IsNumber(text)
    ensures WellFormed(n) && text == Spelled(n)
    ensures |n.whole| == IntegerEnd(text, 0) && |FractionText(n)| == FractionEnd(text, |n.whole|) - |n.whole|
  {
    hide IntegerEnd, FractionEnd, ExponentEnd, Spelled;
    var a := IntegerEnd(text, 0);
    var b := FractionEnd(text, a);
    WholePart(text);
    var fraction := FractionPart(text, a);
    if b == |text| {
      n := Numeral(text[..a], fraction, 'e', "", "");
      assert text[b..] == "";
    } else {
      var k := ExponentPart(text, b);
      n := Numeral(text[..a], fraction, text[b], text[b + 1..k], text[k..]);
    }
    SpelledFromParts(text, a, b, n);
  }

  lemma SpelledFromParts(text: string, a: nat, b: nat, n: Numeral)
    requires a <= b <= |text| && text[..a] == n.whole && text[a..b] == FractionText(n) && text[b..] == ExponentText(n)
    ensures text == Spelled(n)
  {
    hide FractionText, ExponentText;
    assert text == text[..a] + text[a..b] + text[b..];
  }

  lemma FractionPart(text: string, a: nat) returns (fraction: string)
    requires a <= |text|
    ensures var b := FractionEnd(text, a);
      AllDigits(fraction) && text[a..b] == if fraction == "" then "" else "." + fraction
  {
    hide DigitsEnd;
    var b := FractionEnd(text, a);
    fraction := if a < b then text[a + 1..b] else "";
    if a < b {
      DigitsBefore(text, a + 2);
      assert text[a..b] == "." + fraction;
    }
  }

  lemma ExponentPart(text: string, b: nat) returns (k: nat)
    requires b < |text| && ExponentEnd(text, b) == |text|
    ensures b + 1 <= k < |text| && (text[b] == 'e' || text[b] == 'E')
    ensures (text[b + 1..k] == "" || text[b + 1..k] == "+" || text[b + 1..k] == "-") && AllDigits(text[k..])
    ensures text[b..] == [text[b]] + text[b + 1..k] + text[k..]
  {
    hide DigitsEnd;
    k := ExponentDigits(text, b);
    DigitsBefore(text, k + 1);
  }

  lemma WholePart(text: string)
    requires text != [] && IsDigit(text[0])
    ensures var a := IntegerEnd(text, 0); AllDigits(text[..a]) && (text[0] == '0' ==> a == 1)
  {
    DigitsBefore(text, 1);
  }

  /** Exactly the numerals match the pattern. */
  lemma NumberIff(text: string)
    ensures IsNumber(text) <==> exists n :: WellFormed(n) && text == Spelled(n)
  {
    hide Spelled, WellFormed;
    if IsNumber(text) {
      var n := Parts(text);
      assert WellFormed(n) && text == Spelled(n);
    }
    if exists n :: WellFormed(n) && text == Spelled(n) {
      var n :| WellFormed(n) && text == Spelled(n);
      assert text[0..|text|] == text;
      MatchReaches(text, 0, n);
    }
  }

  /** The match is the longest numeral there is. */
  lemma LongestMatch(s: string, i: nat, j: nat)
    requires i < |s| && IsDigit(s[i]) && NumberEnd(s, i) < j <= |s|
    ensures !IsNumber(s[i..j])
  {
    hide Spelled, WellFormed;
    if IsNumber(s[i..j]) {
      var n := Parts(s[i..j]);
      MatchReaches(s, i, n);
      assert false;
    }
  }

  // ---------- what a numeral stands for ----------

  lemma {:induction false} NatOfIsPositional(digits: string)
    requires AllDigits(digits)
    ensures NatOf(digits) == Positional(digits)
    decreases |digits|
  {
    if digits != [] {
      var before, last := digits[..|digits| - 1], digits[|digits| - 1];
      NatOfIsPositional(before);
      PositionalOneMore(before, last);
      assert digits == before + [last];
    }
  }

  lemma {:induction false} PositionalOneMore(digits: string, last: char)
    ensures Positional(digits + [last]) == 10 * Positional(digits) + (last as int - '0' as int)
    decreases |digits|
  {
    if digits == [] {
      assert [last][1..] == [] && [] + [last] == [last];
    } else {
      var all := digits + [last];
      assert all[1..] == digits[1..] + [last];
      PositionalOneMore(digits[1..], last);
      assert PowerOfTen(|digits|) == 10 * PowerOfTen(|digits| - 1);
      Distribute(all[0] as int - '0' as int, PowerOfTen(|digits| - 1));
    }
  }

  lemma Distribute(d: int, p: int)
    ensures d * (10 * p) == 10 * (d * p)
  {
  }

  lemma {:induction false} PowersAgree(n: nat)
    ensures Pow10(n) == PowerOfTen(n) as real
  {
    if n > 0 {
      PowersAgree(n - 1);
    }
  }

  lemma PartsAreFound(n: Numeral)
    requires WellFormed(n)
    ensures var text, a := Spelled(n), |n.whole|; var b := a + |FractionText(n)|;
      && IsNumber(text) && IntegerEnd(text, 0) == a && FractionEnd(text, a) == b
      && text[..a] == n.whole && text[a..b] == FractionText(n) && text[b..] == ExponentText(n)
  {
    hide FractionText, ExponentText;
    var text, a := Spelled(n), |n.whole|;
    var b := a + |FractionText(n)|;
    assert text[0..|text|] == text;
    MatchReaches(text, 0, n);
    PartsStand(text, 0, n);
    assert text[0..a] == text[..a] && text[b..|text|] == text[b..];
  }

  lemma MantissaMeans(whole: string, fraction: string)
    requires AllDigits(whole) && AllDigits(fraction)
    ensures var p := PowerOfTen(|fraction|);
      Mantissa(whole, fraction) * p as real == (Positional(whole) * p + Positional(fraction)) as real
  {
    hide NatOf, Positional, PowerOfTen, Pow10;
    NatOfIsPositional(whole);
    NatOfIsPositional(fraction);
    PowersAgree(|fraction|);
    var w, f, p := Positional(whole), Positional(fraction), PowerOfTen(|fraction|);
    if fraction == "" {
      NoFraction(w, p, f, fraction);
    } else {
      Cleared(w, f, p);
    }
  }

  lemma Cleared(w: int, f: int, p: int)
    requires p > 0
    ensures (w as real + f as real / p as real) * p as real == (w * p + f) as real
  {
    assert f as real / p as real * p as real == f as real;
  }

  lemma NoFraction(w: int, p: int, f: int, fraction: string)
    requires fraction == "" && p == PowerOfTen(|fraction|) && f == Positional(fraction)
    ensures w as real * p as real == (w * p + f) as real
  {
  }

  /** The value of a numeral, with the fractions cleared: the digits of whole part and fraction together, times or divided
      by the power of ten that the exponent names. */
  lemma NumeralMeans(n: Numeral)
    requires WellFormed(n)
    ensures IsNumber(Spelled(n))
    ensures var digits := Positional(n.whole) * PowerOfTen(|n.fraction|) + Positional(n.fraction);
      var scaled := ValueOf(Spelled(n)) * PowerOfTen(|n.fraction|) as real;
      var power := PowerOfTen(Positional(n.exponent)) as real;
      if n.sign == "-" then scaled * power == digits as real else scaled == digits as real * power
  {
    hide Mantissa, Positional, PowerOfTen, Spelled, ValueOf, IsNumber;
    ValueIs(n);
    MantissaMeans(n.whole, n.fraction);
    Scaled(ValueOf(Spelled(n)), Mantissa(n.whole, n.fraction), PowerOfTen(Positional(n.exponent)) as real, PowerOfTen(|n.fraction|) as real, n.sign == "-");
  }

  lemma Scaled(value: real, m: real, power: real, p: real, negative: bool)
    requires power > 0.0 && value == if negative then m / power else m * power
    ensures if negative then value * p * power == m * p else value * p == m * p * power
  {
    if negative {
      Divided(m, power, p);
    } else {
      Multiplied(m, power, p);
    }
  }

  lemma ValueIs(n: Numeral)
    requires WellFormed(n)
    ensures IsNumber(Spelled(n))
    ensures var m, power := Mantissa(n.whole, n.fraction), PowerOfTen(Positional(n.exponent)) as real;
      ValueOf(Spelled(n)) == if n.sign == "-" then m / power else m * power
  {
    hide NatOf, Mantissa, Positional, PowerOfTen, Pow10, Spelled, IntegerEnd, FractionEnd, ExponentEnd, IsNumber, ValueOf;
    PartsAreFound(n);
    var text, a := Spelled(n), |n.whole|;
    var b := a + |FractionText(n)|;
    assert n.fraction != "" ==> text[a + 1..b] == text[a..b][1..];
    var m, power := Mantissa(n.whole, n.fraction), PowerOfTen(Positional(n.exponent)) as real;
    NatOfIsPositional(n.exponent);
    PowersAgree(Positional(n.exponent));
    if n.exponent == "" {
      NoPower(n.exponent);
      assert b == |text|;
      PlainValue(text, a, b);
      assert power == 1.0;
    } else {
      ExponentRead(text, b, n);
      PowerValue(text, a, b, m, power);
    }
  }

  lemma PlainValue(text: string, a: nat, b: nat)
    requires IsNumber(text) && a == IntegerEnd(text, 0) && b == FractionEnd(text, a) == |text|
    ensures ValueOf(text) == Mantissa(text[..a], if a < b then text[a + 1..b] else "")
  {
    hide Mantissa, IntegerEnd, FractionEnd, IsNumber;
  }

  lemma PowerValue(text: string, a: nat, b: nat, m: real, power: real)
    requires IsNumber(text) && a == IntegerEnd(text, 0) && b == FractionEnd(text, a) && b + 1 < |text|
    requires ExponentDigits(text, b) <= |text|
    requires m == Mantissa(text[..a], if a < b then text[a + 1..b] else "")
    requires power == Pow10(NatOf(text[ExponentDigits(text, b)..]))
    ensures ValueOf(text) == if text[b + 1] == '-' then m / power else m * power
  {
    hide Mantissa, NatOf, Pow10, IntegerEnd, FractionEnd, IsNumber, ExponentDigits;
  }

  lemma NoPower(exponent: string)
    requires exponent == ""
    ensures PowerOfTen(Positional(exponent)) == 1
  {
  }

  lemma ExponentRead(text: string, b: nat, n: Numeral)
    requires WellFormed(n) && n.exponent != "" && b <= |text| && text[b..] == ExponentText(n)
    ensures b + 1 < |text| && ExponentDigits(text, b) <= |text| && text[ExponentDigits(text, b)..] == n.exponent
    ensures text[b + 1] == '-' <==> n.sign == "-"
  {
    var k := b + 1 + |n.sign|;
    assert text[b + 1] == text[b..][1];
    assert text[k..] == text[b..][1 + |n.sign|..];
    if n.sign == "" {
      assert text[b + 1] == n.exponent[0];
    } else {
      assert text[b + 1] == n.sign[0];
    }
  }

  lemma Divided(m: real, power: real, p: real)
    requires power > 0.0
    ensures m / power * p * power == m * p
  {
    assert m / power * power == m;
    assert m / power * p * power == m / power * power * p;
  }

  lemma Multiplied(m: real, power: real, p: real)
    ensures m * power * p == m * p * power
  {
  }
}
