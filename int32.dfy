/** The 32-bit signed integers of C#, with the wrap-around of unchecked arithmetic. */
module Int32 {

  const MinInt32: int := -0x8000_0000
  const MaxInt32: int := 0x7FFF_FFFF

  type Int32 = x: int | MinInt32 <= x <= MaxInt32

  /** The value unchecked C# `int` arithmetic yields for the mathematical result `x`. */
  function Wrap(x: int): (r: Int32)
    ensures MinInt32 <= x <= MaxInt32 ==> r == x
    ensures (r - x) % 0x1_0000_0000 == 0
  {
    (x - MinInt32) % 0x1_0000_0000 + MinInt32
  }

  /** `Interlocked.Increment`: adds one, wrapping from `MaxInt32` to `MinInt32`. */
  function Increment(x: Int32): (r: Int32)
    ensures x < MaxInt32 ==> r == x + 1
    ensures x == MaxInt32 ==> r == MinInt32
  {
    Wrap(x + 1)
  }

  /** Two values of `Int32` whose mathematical sum overflows wrap to a negative value. */
  lemma WrappedSumOfNonNegatives(a: Int32, b: Int32)
    requires 0 <= a && 0 <= b
    ensures Wrap(a + b) > 0 ==> Wrap(a + b) == a + b
    ensures a + b > MaxInt32 ==> Wrap(a + b) < 0
  {
    if a + b > MaxInt32 {
      assert Wrap(a + b) == a + b - 0x1_0000_0000;
    }
  }
}
