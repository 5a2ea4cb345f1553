/** The agent's policy and learning constants. The random draws of the original
    (NextDouble for the exploration test, Next(10, 51) for the exploration bet,
    Next(10, 101) for the roll) are given explicitly as one Draw per round. */
module Agent {
  import opened Outcomes
  import opened Grid
  import opened QTable
  import opened Dice

  const LearningRate: real := 0.0001
  const DiscountFactor: real := 0.9

  /** The values random.Next(10, 51) can return. */
  type BetPick = i: int | 10 <= i <= 50 witness 10

  /** One round's random draws: `explore` is the outcome of the test
      NextDouble() < 0.01 (the exploration rate), `pick` the value of
      Next(10, 51) and `roll` the value of Next(10, 101). */
  datatype Draw = Draw(explore: bool, pick: BetPick, roll: Roll)

  /** SelectBet: a random bet when exploring, otherwise the best bet of the
      balance's row; the row lookup and First() fail as in the original. */
  function SelectBet(t: Table, balance: int, d: Draw): (r: Result<int>)
    ensures d.explore ==> r.Success? && 100 <= r.value <= MaxBetKey
    ensures !d.explore && r.Success? ==> balance in t && r.value in t[balance]
  {
    if d.explore then Success(d.pick * 10)
    else if balance !in t then Failure(MissingKey)
    else if t[balance] == map[] then Failure(EmptySequence)
    else Success(BestBet(t[balance]))
  }

  /** Exploring bets a multiple of 10 in [100, 500]; exploiting looks up the
      balance's row, failing on a missing or empty row, and bets a key of the
      row with the highest value, the lowest such key on a tie. */
  lemma SelectBetFacts(t: Table, balance: int, d: Draw)
    ensures var r := SelectBet(t, balance, d);
            && (d.explore ==> r.Success? && r.value % GridStep == 0 && 100 <= r.value <= MaxBetKey)
            && (!d.explore && balance !in t ==> r == Failure(MissingKey))
            && (!d.explore && balance in t && t[balance] == map[] ==> r == Failure(EmptySequence))
            && (!d.explore && r.Success? ==>
                  && balance in t
                  && r.value in t[balance]
                  && (forall b :: b in t[balance] ==> t[balance][b] <= t[balance][r.value])
                  && (forall b :: b in t[balance] && t[balance][b] == t[balance][r.value] ==> r.value <= b))
  {
  }

  /** On a well-shaped table every bet the agent can choose is a bet key. */
  lemma SelectedBetOnGrid(t: Table, balance: int, d: Draw)
    requires WellShaped(t) && balance in BalanceKeys()
    ensures SelectBet(t, balance, d).Success?
    ensures SelectBet(t, balance, d).value in BetKeys()
  {
    assert 10 in BetKeys();
    assert t[balance] != map[] by {
      assert 10 in t[balance];
    }
  }

  /** The temporal-difference target: the reward plus the discounted best
      value of the next state's row. */
  function Target(reward: int, maxNext: real): real {
    reward as real + DiscountFactor * maxNext
  }

  /** The corrected cell value moves the old value a fraction LearningRate of
      the way towards the target, so it lies between the two. */
  function UpdatedValue(q: real, reward: int, maxNext: real): (v: real)
    ensures q <= Target(reward, maxNext) ==> q <= v <= Target(reward, maxNext)
    ensures Target(reward, maxNext) <= q ==> Target(reward, maxNext) <= v <= q
  {
    q + LearningRate * (reward as real + DiscountFactor * maxNext - q)
  }

  lemma UpdateTowardsTarget(q: real, reward: int, maxNext: real)
    ensures var v := UpdatedValue(q, reward, maxNext);
            && v == (1.0 - LearningRate) * q + LearningRate * Target(reward, maxNext)
            && (q <= Target(reward, maxNext) ==> q <= v <= Target(reward, maxNext))
            && (Target(reward, maxNext) <= q ==> Target(reward, maxNext) <= v <= q)
  {
  }
}
