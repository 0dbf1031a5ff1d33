/** Controller masks: a non-negative `int` whose binary digits stand for controller ids.
    The bitwise operators are spelled out digit by digit. */
module Bits {

  const MAX_GAMEPADS := 16

  /** (m & (1 << i)) != 0 */
  predicate HasBit(m: nat, i: nat)
  {
    if i == 0 then m % 2 == 1 else HasBit(m / 2, i - 1)
  }

  /** m | (1 << i) */
  function SetBit(m: nat, i: nat): nat
  {
    if i == 0 then m / 2 * 2 + 1 else SetBit(m / 2, i - 1) * 2 + m % 2
  }

  /** m & ~(1 << i) */
  function ClearBit(m: nat, i: nat): nat
  {
    if i == 0 then m / 2 * 2 else ClearBit(m / 2, i - 1) * 2 + m % 2
  }

  /** 1 << i */
  function Bit(i: nat): nat
  {
    if i == 0 then 1 else 2 * Bit(i - 1)
  }

  /** Setting or clearing one id leaves every other id as it was. */
  lemma {:induction false} UpdateBit(m: nat, i: nat, j: nat)
    ensures HasBit(SetBit(m, i), j) <==> i == j || HasBit(m, j)
    ensures HasBit(ClearBit(m, i), j) <==> i != j && HasBit(m, j)
    decreases i
  {
    if i == 0 || j == 0 {
      assert SetBit(m, i) % 2 == 1 <==> i == 0 || m % 2 == 1;
      assert i == 0 ==> SetBit(m, i) / 2 == m / 2 && ClearBit(m, i) / 2 == m / 2;
    } else {
      UpdateBit(m / 2, i - 1, j - 1);
      assert SetBit(m, i) / 2 == SetBit(m / 2, i - 1);
      assert ClearBit(m, i) / 2 == ClearBit(m / 2, i - 1);
    }
  }

  /** As numbers: setting adds 1 << i unless the digit was there, clearing takes it away. */
  lemma {:induction false} UpdateValue(m: nat, i: nat)
    ensures SetBit(m, i) == if HasBit(m, i) then m else m + Bit(i)
    ensures ClearBit(m, i) == if HasBit(m, i) then m - Bit(i) else m
    decreases i
  {
    if i != 0 {
      UpdateValue(m / 2, i - 1);
    }
  }

  lemma {:induction false} EmptyMask(i: nat)
    ensures !HasBit(0, i)
  {
    if i != 0 {
      EmptyMask(i - 1);
    }
  }

  /** A mask is known by its digits. */
  lemma {:induction false} SameDigits(m: nat, n: nat)
    requires forall i: nat :: HasBit(m, i) <==> HasBit(n, i)
    ensures m == n
    decreases m + n
  {
    assert HasBit(m, 0) <==> HasBit(n, 0);
    if m != 0 || n != 0 {
      forall i: nat ensures HasBit(m / 2, i) <==> HasBit(n / 2, i) {
        assert HasBit(m, i + 1) <==> HasBit(n, i + 1);
      }
      SameDigits(m / 2, n / 2);
    }
  }
}
