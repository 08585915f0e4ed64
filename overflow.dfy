/** The Numbers setter's inner loop with C#'s 32-bit loop counter. The
    counter is incremented in unchecked arithmetic, so it wraps from
    int.MaxValue to int.MinValue. */
module Overflow {

  import opened Text
  import Numbers

  /** `i++` on a C# int in an unchecked context. */
  function Int32Inc(i: int): (j: int)
    requires MinInt32 <= i <= MaxInt32
    ensures MinInt32 <= j <= MaxInt32
    ensures i < MaxInt32 ==> j == i + 1
    ensures i == MaxInt32 ==> j == MinInt32
  {
    if i == MaxInt32 then MinInt32 else i + 1
  }

  /** `for (int i = low; i <= high; i++)` reaches its exit test with the
      condition false within `fuel` increments. */
  predicate LoopExits32(i: int, high: int, fuel: nat)
    requires MinInt32 <= i <= MaxInt32
    decreases fuel
  {
    if i > high then true
    else if fuel == 0 then false
    else LoopExits32(Int32Inc(i), high, fuel - 1)
  }

  /** With high == int.MaxValue the condition `i <= high` holds for every
      32-bit `i`, so no number of increments ends the loop. */
  lemma {:induction false} MaxHighNeverExits(i: int, fuel: nat)
    requires MinInt32 <= i <= MaxInt32
    ensures !LoopExits32(i, MaxInt32, fuel)
    decreases fuel
  {
    if fuel > 0 {
      MaxHighNeverExits(Int32Inc(i), fuel - 1);
    }
  }

  /** The token `2147483647-2147483647` denotes the single entry
      "2147483647": it passes the setter's guard (low <= high), and the
      model of the setter with an unbounded counter gives exactly that one
      entry. The 32-bit loop, though, runs with high == int.MaxValue and
      never completes normally: the counter wraps instead of exceeding
      high. */
  lemma WrappingTokenNeverEnds(fuel: nat)
    ensures var d := Decimal(MaxInt32);
            var low, high := TryParse(d), TryParse(d);
            && low == high == MaxInt32
            && Numbers.ExpandToken(d + "-" + d) == [d]
            && !LoopExits32(low, high, fuel)
  {
    TryParseDecimal(MaxInt32);
    Numbers.SingleValueToken(MaxInt32);
    MaxHighNeverExits(MaxInt32, fuel);
  }

  /** Below int.MaxValue the counter does not wrap and the loop ends after
      high - i + 1 increments, as the unbounded loop of Numbers.AppendRange
      does for every high. */
  lemma {:induction false} BelowMaxExits(i: int, high: int, fuel: nat)
    requires MinInt32 <= i <= MaxInt32 && high < MaxInt32
    requires fuel >= high - i + 1
    ensures LoopExits32(i, high, fuel)
    decreases fuel
  {
    if i <= high {
      BelowMaxExits(Int32Inc(i), high, fuel - 1);
    }
  }
}
