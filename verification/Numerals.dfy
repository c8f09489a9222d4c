/** Number literals of the restricted expression language (packages/model-option-map/src/tokenizer.ts:75-81,
    packages/model-option-map/src/parser.ts:149-154).  Values are exact reals: binary rounding is not modelled. */
module Numerals {
  const MAX_SAFE: int := 0x1F_FFFF_FFFF_FFFF

  predicate IsDigit(c: char) {
    '0' <= c <= '9'
  }

  function DigitsEnd(s: string, i: nat): (j: nat)
    requires i <= |s|
    ensures i <= j <= |s|
    decreases |s| - i
  {
    if i < |s| && IsDigit(s[i]) then DigitsEnd(s, i + 1) else i
  }

  function IntegerEnd(s: string, i: nat): (j: nat)
    requires i < |s|
    ensures i < j <= |s|
  {
    if s[i] == '0' then i + 1 else DigitsEnd(s, i + 1)
  }

  function FractionEnd(s: string, i: nat): (j: nat)
    requires i <= |s|
    ensures i <= j <= |s|
  {
    if i + 1 < |s| && s[i] == '.' && IsDigit(s[i + 1]) then DigitsEnd(s, i + 2) else i
  }

  function ExponentDigits(s: string, i: nat): (j: nat)
    requires i < |s|
    ensures i < j
  {
    if i + 1 < |s| && (s[i + 1] == '+' || s[i + 1] == '-') then i + 2 else i + 1
  }

  function ExponentEnd(s: string, i: nat): (j: nat)
    requires i <= |s|
    ensures i <= j <= |s|
  {
    if i < |s| && (s[i] == 'e' || s[i] == 'E') then
      var k := ExponentDigits(s, i);
      if k < |s| && IsDigit(s[k]) then DigitsEnd(s, k + 1) else i
    else i
  }

  /** The end of the longest match of the number pattern that starts with the digit at i. */
  function NumberEnd(s: string, i: nat): (j: nat)
    requires i < |s| && IsDigit(s[i])
    ensures i < j <= |s|
  {
    ExponentEnd(s, FractionEnd(s, IntegerEnd(s, i)))
  }

  predicate IsNumber(text: string) {
    text != [] && IsDigit(text[0]) && NumberEnd(text, 0) == |text|
  }

  function NatOf(digits: string): nat {
    if digits == [] then 0
    else
      var last := digits[|digits| - 1];
      10 * NatOf(digits[..|digits| - 1]) + if IsDigit(last) then (last as int - '0' as int) else 0
  }

  function Pow10(n: nat): (r: real)
    ensures r >= 1.0
  {
    if n == 0 then 1.0 else 10.0 * Pow10(n - 1)
  }

  function Mantissa(whole: string, fraction: string): real {
    NatOf(whole) as real + if fraction == "" then 0.0 else NatOf(fraction) as real / Pow10(|fraction|)
  }

  /** The exact decimal value of a number literal. */
  function ValueOf(text: string): real
    requires IsNumber(text)
  {
    var a := IntegerEnd(text, 0);
    var b := FractionEnd(text, a);
    var mantissa := Mantissa(text[..a], if a < b then text[a + 1..b] else "");
    if b == |text| then mantissa
    else
      var k := ExponentDigits(text, b);
      if text[b + 1] == '-' then mantissa / Pow10(NatOf(text[k..]))
      else mantissa * Pow10(NatOf(text[k..]))
  }

  /** The check that a number is finite and, if it is an integer, a safe one.  Beyond the safe range every
      double is an integer, so the check comes down to the range. */
  predicate JsonSafe(r: real) {
    -MAX_SAFE as real <= r <= MAX_SAFE as real
  }

  // ---------- literals inside a longer text ----------

  /** `text` stands in s from i on, followed by a blank. */
  ghost predicate Stands(s: string, i: nat, text: string) {
    i + |text| < |s| && s[i..i + |text|] == text && s[i + |text|] == ' '
  }

  lemma {:induction false} DigitsEndStands(s: string, i: nat, text: string, k: nat)
    requires Stands(s, i, text) && k <= |text|
    ensures DigitsEnd(s, i + k) == i + DigitsEnd(text, k)
    decreases |text| - k
  {
    if k < |text| && IsDigit(text[k]) {
      DigitsEndStands(s, i, text, k + 1);
    }
  }

  lemma FractionEndStands(s: string, i: nat, text: string, k: nat)
    requires Stands(s, i, text) && k <= |text|
    ensures FractionEnd(s, i + k) == i + FractionEnd(text, k)
  {
    if k < |text| {
      if k + 2 <= |text| {
        DigitsEndStands(s, i, text, k + 2);
      }
    }
  }

  lemma ExponentEndStands(s: string, i: nat, text: string, k: nat)
    requires Stands(s, i, text) && k <= |text|
    ensures ExponentEnd(s, i + k) == i + ExponentEnd(text, k)
  {
    if k < |text| {
      if k + 2 <= |text| {
        DigitsEndStands(s, i, text, k + 2);
        if k + 3 <= |text| {
          DigitsEndStands(s, i, text, k + 3);
        }
      }
    }
  }

  /** A number followed by a blank is matched exactly. */
  lemma NumberEndStands(s: string, i: nat, text: string)
    requires Stands(s, i, text) && IsNumber(text)
    ensures IsDigit(s[i]) && NumberEnd(s, i) == i + |text|
  {
    hide DigitsEnd, FractionEnd, ExponentEnd;
    DigitsEndStands(s, i, text, 1);
    FractionEndStands(s, i, text, IntegerEnd(text, 0));
    ExponentEndStands(s, i, text, FractionEnd(text, IntegerEnd(text, 0)));
  }

  // ---------- a matched piece is a number by itself ----------

  lemma {:induction false} DigitsEndOfPiece(s: string, i: nat, e: nat, k: nat)
    requires i <= k <= e <= |s| && DigitsEnd(s, k) <= e
    ensures DigitsEnd(s[i..e], k - i) == DigitsEnd(s, k) - i
    decreases e - k
  {
    if k < e && IsDigit(s[k]) {
      DigitsEndOfPiece(s, i, e, k + 1);
    }
  }

  lemma MatchedNumberIsNumber(s: string, i: nat)
    requires i < |s| && IsDigit(s[i])
    ensures IsNumber(s[i..NumberEnd(s, i)])
  {
    var e := NumberEnd(s, i);
    var a := IntegerEnd(s, i);
    var b := FractionEnd(s, a);
    var piece := s[i..e];
    assert piece[0] == s[i];
    if s[i] != '0' {
      DigitsEndOfPiece(s, i, e, i + 1);
    }
    assert IntegerEnd(piece, 0) == a - i;
    FractionOfPiece(s, i, e, a);
    ExponentOfPiece(s, i, e, b);
  }

  lemma FractionOfPiece(s: string, i: nat, e: nat, a: nat)
    requires i <= a <= e <= |s| && FractionEnd(s, a) <= e
    ensures FractionEnd(s[i..e], a - i) == FractionEnd(s, a) - i
  {
    if FractionEnd(s, a) > a {
      DigitsEndOfPiece(s, i, e, a + 2);
    }
  }

  lemma ExponentOfPiece(s: string, i: nat, e: nat, b: nat)
    requires i <= b <= e <= |s| && ExponentEnd(s, b) == e
    ensures ExponentEnd(s[i..e], b - i) == e - i
  {
    if e > b {
      DigitsEndOfPiece(s, i, e, ExponentDigits(s, b) + 1);
    }
  }

  // ---------- decimal numerals ----------

  function Digit(d: nat): char
    requires d < 10
  {
    ('0' as int + d) as char
  }

  function Decimal(n: nat): string {
    if n < 10 then [Digit(n)] else Decimal(n / 10) + [Digit(n % 10)]
  }

  lemma {:induction false} DecimalDigits(n: nat)
    ensures Decimal(n) != [] && (forall k :: 0 <= k < |Decimal(n)| ==> IsDigit(Decimal(n)[k]))
    ensures n > 0 ==> Decimal(n)[0] != '0'
    ensures NatOf(Decimal(n)) == n
    ensures n == 0 ==> Decimal(n) == ['0']
  {
    if n < 10 {
      assert Decimal(n)[..0] == [];
    } else {
      DecimalDigits(n / 10);
      assert Decimal(n)[..|Decimal(n)| - 1] == Decimal(n / 10);
    }
  }

  lemma {:induction false} AllDigitsEnd(s: string, i: nat)
    requires i <= |s| && forall k :: i <= k < |s| ==> IsDigit(s[k])
    ensures DigitsEnd(s, i) == |s|
    decreases |s| - i
  {
    if i < |s| {
      AllDigitsEnd(s, i + 1);
    }
  }

  /** Every natural number has a literal: its decimal numeral, whose value it is. */
  lemma DecimalIsNumber(n: nat)
    ensures IsNumber(Decimal(n)) && ValueOf(Decimal(n)) == n as real
  {
    DecimalDigits(n);
    var text := Decimal(n);
    if n > 0 {
      AllDigitsEnd(text, 1);
    }
    assert IntegerEnd(text, 0) == |text|;
    assert text[..|text|] == text;
  }
}
