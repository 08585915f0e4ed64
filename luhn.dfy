/** VerifyCreditCardNumberByLuhn: the mod-10 "double-add-double" check digit
    of ISO/IEC 7812-1, Annex B, as the source computes it. */
module Luhn {

  import opened Text

  /** (int)char.GetNumericValue(c): the digit's value, or -1 for a character
      that is not an ASCII digit. */
  function NumericValue(c: char): (v: int)
    ensures IsDigit(c) ==> v == DigitValue(c)
    ensures !IsDigit(c) ==> v == -1
  {
    if IsDigit(c) then (c as int) - ('0' as int) else -1
  }

  /** A value, doubled (less 9 above 9) when `double` holds. */
  function Weigh(v: int, double: bool): int
  {
    if !double then v else if v * 2 > 9 then v * 2 - 9 else v * 2
  }

  /** What the character at index `i` adds to the running total: it is
      doubled when its distance from the end, counting the last character
      as 1, is even. */
  function Contribution(s: string, i: nat): (c: int)
    requires i < |s|
    ensures IsDigit(s[i]) ==> 0 <= c <= 9
  {
    Weigh(NumericValue(s[i]), (|s| - i) % 2 == 0)
  }

  /** The total the loop has accumulated once it has visited indices
      |s|-2 down to `i`: the contributions of s[i..|s|-1]. */
  function SumFrom(s: string, i: nat): int
    requires |s| > 0 && i <= |s| - 1
    decreases |s| - i
  {
    if i == |s| - 1 then 0 else Contribution(s, i) + SumFrom(s, i + 1)
  }

  /** C#'s `%` on int: the remainder truncated toward zero. */
  function TruncRem(a: int, b: int): (r: int)
    requires b > 0
    ensures a >= 0 ==> r == a % b
    ensures a < 0 ==> r == -((-a) % b)
    ensures -b < r < b
  {
    if a >= 0 then a % b else -((-a) % b)
  }

  /** The verdict of VerifyCreditCardNumberByLuhn: the total's remainder is
      compared with (10 - value of the last character) % 10. */
  predicate LuhnPasses(s: string)
    requires |s| > 0
  {
    TruncRem(SumFrom(s, 0), 10) == (10 - NumericValue(s[|s| - 1])) % 10
  }

  /** The method as the source writes it: a countdown loop over every
      character except the last. */
  method VerifyCreditCardNumberByLuhn(s: string) returns (ok: bool)
    requires |s| > 0
    ensures ok == LuhnPasses(s)
  {
    var total := 0;
    var i := |s| - 2;
    while i > -1
      invariant -1 <= i <= |s| - 2
      invariant total == SumFrom(s, i + 1)
    {
      var val := NumericValue(s[i]);
      if (|s| - i) % 2 == 0 {
        val := val * 2;
        if val > 9 {
          val := val - 9;
        }
      }
      total := total + val;
      i := i - 1;
    }
    ok := TruncRem(total, 10) == (10 - NumericValue(s[|s| - 1])) % 10;
  }

  // ---------------------------------------------------------------------
  // The reference definition: walking from the last digit leftwards,
  // every second digit (the second-to-last, the fourth-to-last, ...) is
  // doubled, and the number is valid when the sum is a multiple of 10.

  /** Sum of the characters of `s` taken from the right, the last one
      doubled when `double` holds and the doubling alternating from there. */
  function RightSum(s: string, double: bool): int
  {
    if s == [] then 0
    else Weigh(NumericValue(s[|s| - 1]), double) + RightSum(s[..|s| - 1], !double)
  }

  predicate StandardLuhn(s: string)
  {
    RightSum(s, false) % 10 == 0
  }

  lemma {:induction false} RightSumNonNegative(s: string, double: bool)
    requires AllDigits(s)
    ensures RightSum(s, double) >= 0
    decreases |s|
  {
    if s != [] {
      RightSumNonNegative(s[..|s| - 1], !double);
    }
  }

  /** Peeling the leftmost character instead of the rightmost one. */
  lemma {:induction false} RightSumFirst(a: char, t: string, double: bool)
    ensures RightSum([a] + t, double)
         == Weigh(NumericValue(a), double != (|t| % 2 == 1)) + RightSum(t, double)
    decreases |t|
  {
    if t == [] {
      assert ([a] + t)[..0] == [];
    } else {
      var u := [a] + t;
      assert u[..|u| - 1] == [a] + t[..|t| - 1];
      assert u[|u| - 1] == t[|t| - 1];
      RightSumFirst(a, t[..|t| - 1], !double);
    }
  }

  /** The loop's total over s[i..|s|-1] is that segment summed from the
      right with its last character doubled. */
  lemma {:induction false} SumFromIsRightSum(s: string, i: nat)
    requires |s| > 0 && i <= |s| - 1
    ensures SumFrom(s, i) == RightSum(s[i..|s| - 1], true)
    decreases |s| - i
  {
    if i < |s| - 1 {
      SumFromIsRightSum(s, i + 1);
      var seg := s[i..|s| - 1];
      assert seg == [s[i]] + s[i + 1..|s| - 1];
      RightSumFirst(s[i], s[i + 1..|s| - 1], true);
    } else {
      assert s[i..|s| - 1] == [];
    }
  }

  /** On a digit string the check passes exactly when the total plus the
      last digit is a multiple of 10, which is the standard Luhn check. */
  lemma LuhnIsStandard(s: string)
    requires |s| > 0 && AllDigits(s)
    ensures LuhnPasses(s) <==> (SumFrom(s, 0) + DigitValue(s[|s| - 1])) % 10 == 0
    ensures LuhnPasses(s) <==> StandardLuhn(s)
  {
    var payload := s[..|s| - 1];
    SumFromIsRightSum(s, 0);
    assert s[0..|s| - 1] == payload;
    RightSumNonNegative(payload, true);
    var total := SumFrom(s, 0);
    var d := DigitValue(s[|s| - 1]);
    assert RightSum(s, false) == d + total;
    assert total >= 0;
    ModTen(total, d);
  }

  lemma ModTen(total: nat, d: nat)
    requires d < 10
    ensures total % 10 == (10 - d) % 10 <==> (d + total) % 10 == 0
  {
  }

  /** Appending digit `d` to `payload` passes exactly when d completes the
      payload's weighted sum to a multiple of 10. */
  lemma AppendedDigit(payload: string, d: char)
    requires AllDigits(payload) && IsDigit(d)
    ensures LuhnPasses(payload + [d])
        <==> (RightSum(payload, true) + DigitValue(d)) % 10 == 0
  {
    var s := payload + [d];
    assert s[..|s| - 1] == payload;
    assert AllDigits(s);
    LuhnIsStandard(s);
  }

  /** For any digit payload exactly one final digit passes the check. */
  lemma CheckDigitExists(payload: string)
    requires AllDigits(payload)
    ensures exists d :: IsDigit(d) && LuhnPasses(payload + [d])
  {
    RightSumNonNegative(payload, true);
    var r := RightSum(payload, true);
    var v := (10 - r % 10) % 10;
    CompletesToTen(r, v);
    var d := DigitChar(v);
    AppendedDigit(payload, d);
  }

  lemma {:induction false} CompletesToTen(r: nat, v: nat)
    requires v == (10 - r % 10) % 10
    ensures (r + v) % 10 == 0
    decreases r
  {
    if r >= 10 {
      assert (r - 10) % 10 == r % 10;
      CompletesToTen(r - 10, v);
      assert (r + v) % 10 == (r - 10 + v) % 10;
    }
  }

  lemma CheckDigitUnique(payload: string, d1: char, d2: char)
    requires AllDigits(payload) && IsDigit(d1) && IsDigit(d2)
    requires LuhnPasses(payload + [d1]) && LuhnPasses(payload + [d2])
    ensures d1 == d2
  {
    AppendedDigit(payload, d1);
    AppendedDigit(payload, d2);
    RightSumNonNegative(payload, true);
    SameCompletion(RightSum(payload, true), DigitValue(d1), DigitValue(d2));
  }

  /** Two digits that both complete a total to a multiple of 10 are equal. */
  lemma SameCompletion(total: int, a: nat, b: nat)
    requires a < 10 && b < 10
    requires (total + a) % 10 == 0 && (total + b) % 10 == 0
    ensures a == b
  {
  }
}
