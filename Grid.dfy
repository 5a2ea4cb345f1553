/** The discretisation shared by the whole simulation: balances 10..10000 and bets
    10..500, both in steps of 10, and the 32-bit arithmetic of the C# `int`. */
module Grid {

  const GridStep := 10
  const MaxBalanceKey := 10000
  const MaxBetKey := 500

  const Int32Min := -0x8000_0000
  const Int32Max := 0x7FFF_FFFF

  predicate InInt32(x: int) {
    Int32Min <= x <= Int32Max
  }

  /** Two's-complement wrap-around of unchecked C# `int` arithmetic. */
  function Wrap32(x: int): (r: int)
    ensures InInt32(r)
    ensures InInt32(x) ==> r == x
    ensures (r - x) % 0x1_0000_0000 == 0
  {
    (x - Int32Min) % 0x1_0000_0000 + Int32Min
  }

  function Max(a: int, b: int): (m: int)
    ensures m >= a && m >= b && (m == a || m == b)
  {
    if a >= b then a else b
  }

  /** The keys 10, 20, ..., 10 * n. */
  function GridKeys(n: nat): set<int> {
    set x | GridStep <= x <= GridStep * n && x % GridStep == 0
  }

  function BalanceKeys(): set<int> {
    GridKeys(MaxBalanceKey / GridStep)
  }

  function BetKeys(): set<int> {
    GridKeys(MaxBetKey / GridStep)
  }

  lemma GridKeysStep(n: nat)
    requires n > 0
    ensures GridKeys(n) == GridKeys(n - 1) + {GridStep * n}
    ensures GridStep * n !in GridKeys(n - 1)
  {
    forall x | x in GridKeys(n) && x !in GridKeys(n - 1)
      ensures x == GridStep * n
    {
      assert x == GridStep * (x / GridStep);
    }
  }

  /** A loop over the grid that has passed key x has visited GridKeys(x / GridStep). */
  lemma GridKeysNext(x: int)
    requires GridStep <= x && x % GridStep == 0
    ensures GridKeys(x / GridStep) == GridKeys(x / GridStep - 1) + {x}
    ensures x !in GridKeys(x / GridStep - 1)
    ensures (x + GridStep) / GridStep - 1 == x / GridStep
  {
    assert GridStep * (x / GridStep) == x;
    GridKeysStep(x / GridStep);
  }

  /** There are exactly n keys on a grid of n steps. */
  lemma {:induction false} GridKeysSize(n: nat)
    ensures |GridKeys(n)| == n
  {
    if n > 0 {
      GridKeysStep(n);
      GridKeysSize(n - 1);
    } else {
      assert GridKeys(0) == {};
    }
  }

  lemma KeyCounts()
    ensures |BalanceKeys()| == 1000
    ensures |BetKeys()| == 50
  {
    GridKeysSize(1000);
    GridKeysSize(50);
  }
}
