/** The episode state machine of RunEpisode, as functions: one round, a run over
    a finite sequence of draws, and the record of the rounds that carried on. */
module Episode {
  import opened Outcomes
  import opened Grid
  import opened QTable
  import opened Dice
  import opened Agent

  const InitialBalance := 1000
  const HistoryLength := 10

  /** The loop state of RunEpisode: balance, peak balance, the queue of past
      balances (oldest first) and the Q-table. */
  datatype State = State(balance: int, peak: int, history: seq<int>, table: Table)

  /** What a round that did not end the episode did: the bet, the new balance,
      the dequeued balance whose row was updated, and the reward. */
  datatype Commit = Commit(bet: int, balance: int, oldest: int, reward: int)

  datatype Step =
    | Continue(next: State, commit: Commit)
    | Stop(peak: int)
    | Crash(fault: Fault)

  datatype Outcome = Peak(value: int) | Crashed(fault: Fault) | OutOfDraws

  datatype Finish = Finish(outcome: Outcome, last: State)

  /** Balance 1000, peak 1000, and ten copies of 1000 in the queue. */
  function Start(t: Table): (s: State)
    ensures s.balance == s.peak == InitialBalance && s.table == t
    ensures |s.history| == HistoryLength
    ensures forall i :: 0 <= i < |s.history| ==> s.history[i] == InitialBalance
  {
    State(InitialBalance, InitialBalance, Copies(HistoryLength, InitialBalance), t)
  }

  /** n copies of x. */
  function Copies(n: nat, x: int): (s: seq<int>)
    ensures |s| == n && forall i :: 0 <= i < n ==> s[i] == x
  {
    if n == 0 then [] else Copies(n - 1, x) + [x]
  }

  /** Exactly the cell t[k][b] may differ between t and t'; no key is added or removed. */
  ghost predicate OnlyCellChanged(t: Table, t': Table, k: int, b: int) {
    && k in t && b in t[k]
    && t'.Keys == t.Keys
    && t'[k].Keys == t[k].Keys
    && (forall r :: r in t && r != k ==> t'[r] == t[r])
    && (forall c :: c in t[k] && c != b ==> t'[k][c] == t[k][c])
  }

  /** One iteration of the loop of RunEpisode. A round that carries on keeps
      the balance inside (0, 10000) and the queue at its length. */
  function Round(s: State, d: Draw): (r: Step)
    requires s.history != []
    ensures r.Continue? ==> 0 < r.next.balance < MaxBalanceKey && |r.next.history| == |s.history|
  {
    match SelectBet(s.table, s.balance, d)
    case Failure(e) => Crash(e)
    case Success(bet) =>
      var balance := Settle(s.balance, bet, d.roll);
      if !(0 < balance < MaxBalanceKey) then Stop(s.peak)
      else
        var oldest := s.history[0];
        var reward := balance - oldest;
        if oldest !in s.table || bet !in s.table[oldest] then Crash(MissingKey)
        else if balance !in s.table then Crash(MissingKey)
        else if s.table[balance] == map[] then Crash(EmptySequence)
        else
          var value := UpdatedValue(s.table[oldest][bet], reward, MaxValue(s.table[balance]));
          Continue(State(balance, Max(s.peak, balance), s.history[1..] + [balance], SetCell(s.table, oldest, bet, value)),
                   Commit(bet, balance, oldest, reward))
  }

  /** What one round does: a fault of bet selection is the round's fault;
      the round ends the episode, reporting the peak so far, exactly when the
      settled balance leaves (0, 10000); a round that carries on commits the
      settled balance, rotates the queue, raises the peak and rewrites the one
      cell of the dequeued balance's row and the current bet. */
  lemma RoundFacts(s: State, d: Draw)
    requires s.history != []
    ensures var r := Round(s, d);
            var selected := SelectBet(s.table, s.balance, d);
            && (selected.Failure? ==> r == Crash(selected.error))
            && (r.Crash? && selected.Success? ==> r.fault == MissingKey || r.fault == EmptySequence)
            && (r.Stop? <==> selected.Success? && !(0 < Settle(s.balance, selected.value, d.roll) < MaxBalanceKey))
            && (r.Stop? ==> r.peak == s.peak)
            && (r.Continue? ==>
                  var c := r.commit;
                  && c.bet == selected.value
                  && c.balance == Settle(s.balance, c.bet, d.roll)
                  && 0 < c.balance < MaxBalanceKey
                  && c.oldest == s.history[0]
                  && c.reward == c.balance - c.oldest
                  && r.next.balance == c.balance
                  && r.next.history == s.history[1..] + [c.balance]
                  && r.next.peak == Max(s.peak, c.balance)
                  && c.balance in s.table && s.table[c.balance] != map[]
                  && OnlyCellChanged(s.table, r.next.table, c.oldest, c.bet)
                  && r.next.table[c.oldest][c.bet]
                     == UpdatedValue(s.table[c.oldest][c.bet], c.reward, MaxValue(s.table[c.balance])))
  {
  }

  /** The loop of RunEpisode: while the balance is inside (0, 10000), rounds
      until one ends the episode, faults, or the draws run out. The state
      returned is the one before the ending round: a round that ends the episode
      changes neither the queue, nor the peak, nor the table. */
  function Run(s: State, draws: seq<Draw>): (r: Finish)
    requires s.history != []
    ensures |r.last.history| == |s.history|
    decreases |draws|
  {
    if !(0 < s.balance < MaxBalanceKey) then Finish(Peak(s.peak), s)
    else if draws == [] then Finish(OutOfDraws, s)
    else
      match Round(s, draws[0])
      case Stop(p) => Finish(Peak(p), s)
      case Crash(e) => Finish(Crashed(e), s)
      case Continue(next, _) => Run(next, draws[1..])
  }

  /** How a run goes on from its first round's step. */
  lemma RunAfter(s: State, draws: seq<Draw>, step: Step)
    requires s.history != [] && 0 < s.balance < MaxBalanceKey
    requires draws != [] && step == Round(s, draws[0])
    ensures && (step.Stop? ==> Run(s, draws) == Finish(Peak(step.peak), s))
            && (step.Crash? ==> Run(s, draws) == Finish(Crashed(step.fault), s))
            && (step.Continue? ==>
                  && 0 < step.next.balance < MaxBalanceKey && |step.next.history| == |s.history|
                  && Run(s, draws) == Run(step.next, draws[1..]))
  {
  }

  /** The rounds of a run that carried on, in order. */
  ghost function Commits(s: State, draws: seq<Draw>): (cs: seq<Commit>)
    requires s.history != []
    ensures |cs| <= |draws|
    decreases |draws|
  {
    if !(0 < s.balance < MaxBalanceKey) || draws == [] then []
    else
      match Round(s, draws[0])
      case Continue(next, c) => [c] + Commits(next, draws[1..])
      case _ => []
  }

  ghost function Balances(cs: seq<Commit>): (bs: seq<int>)
    ensures |bs| == |cs|
    ensures forall i :: 0 <= i < |cs| ==> bs[i] == cs[i].balance
  {
    seq(|cs|, i requires 0 <= i < |cs| => cs[i].balance)
  }

  /** What every committed round of a run satisfies: its balance stays inside
      (0, 10000), its reward is the balance minus the dequeued one, and the
      dequeued balance is the one that entered the queue ten rounds earlier —
      an entry of the initial queue, then the committed balances in order. */
  lemma {:induction false} CommitAt(s: State, draws: seq<Draw>, j: int)
    requires s.history != []
    requires 0 <= j < |Commits(s, draws)|
    ensures var cs := Commits(s, draws);
            && 0 < cs[j].balance < MaxBalanceKey
            && cs[j].reward == cs[j].balance - cs[j].oldest
            && cs[j].oldest == (s.history + Balances(cs))[j]
    decreases |draws|
  {
    var r := Round(s, draws[0]);
    assert r.Continue?;
    RoundFacts(s, draws[0]);
    var rest := Commits(r.next, draws[1..]);
    assert Commits(s, draws) == [r.commit] + rest;
    if j > 0 {
      CommitAt(r.next, draws[1..], j - 1);
      assert Commits(s, draws)[j] == rest[j - 1];
      assert Balances(Commits(s, draws)) == [r.commit.balance] + Balances(rest);
      QueueShift(s.history, r.commit.balance, Balances(rest), j);
    }
  }

  /** Dequeuing the head and enqueuing x shifts every later entry one place forward. */
  lemma QueueShift(h: seq<int>, x: int, later: seq<int>, j: int)
    requires h != [] && 1 <= j <= |h| + |later|
    ensures (h[1..] + [x] + later)[j - 1] == (h + ([x] + later))[j]
  {
  }

  /** The ten-round lag of the reward: the first ten committed rounds update the
      row of the starting balance 1000, and round k + 10 updates the row of the
      balance committed in round k, with reward the difference of the two. */
  lemma RewardLagOfEpisode(t: Table, draws: seq<Draw>)
    ensures var cs := Commits(Start(t), draws);
            && (forall i :: 0 <= i < |cs| && i < HistoryLength ==> cs[i].oldest == InitialBalance)
            && (forall i :: HistoryLength <= i < |cs| ==> cs[i].oldest == cs[i - HistoryLength].balance)
            && (forall i :: 0 <= i < |cs| ==> cs[i].reward == cs[i].balance - cs[i].oldest)
  {
    var cs := Commits(Start(t), draws);
    forall i | 0 <= i < |cs|
      ensures i < HistoryLength ==> cs[i].oldest == InitialBalance
      ensures HistoryLength <= i ==> cs[i].oldest == cs[i - HistoryLength].balance
      ensures cs[i].reward == cs[i].balance - cs[i].oldest
    {
      LagAt(t, draws, i);
    }
  }

  lemma LagAt(t: Table, draws: seq<Draw>, i: int)
    requires 0 <= i < |Commits(Start(t), draws)|
    ensures var cs := Commits(Start(t), draws);
            && (i < HistoryLength ==> cs[i].oldest == InitialBalance)
            && (HistoryLength <= i ==> cs[i].oldest == cs[i - HistoryLength].balance)
            && cs[i].reward == cs[i].balance - cs[i].oldest
  {
    var s := Start(t);
    var cs := Commits(s, draws);
    CommitAt(s, draws, i);
    var queued := s.history + Balances(cs);
    if i < HistoryLength {
      assert queued[i] == s.history[i];
    } else {
      assert queued[i] == Balances(cs)[i - HistoryLength];
    }
  }

  /** A committed balance never exceeds the peak the run reports. */
  lemma {:induction false} CommitBelowPeak(s: State, draws: seq<Draw>, j: int)
    requires s.history != []
    requires Run(s, draws).outcome.Peak?
    requires 0 <= j < |Commits(s, draws)|
    ensures Commits(s, draws)[j].balance <= Run(s, draws).outcome.value
    decreases |draws|
  {
    var r := Round(s, draws[0]);
    assert r.Continue?;
    var rest := Commits(r.next, draws[1..]);
    assert Commits(s, draws) == [r.commit] + rest;
    assert Run(s, draws) == Run(r.next, draws[1..]);
    if j > 0 {
      CommitBelowPeak(r.next, draws[1..], j - 1);
      assert Commits(s, draws)[j] == rest[j - 1];
    } else {
      PeakOfRun(r.next, draws[1..]);
      assert r.commit.balance <= r.next.peak;
    }
  }

  /** The peak a run reports is at least its starting peak, and is either that
      peak or one of the committed balances. */
  lemma {:induction false} PeakOfRun(s: State, draws: seq<Draw>)
    requires s.history != []
    requires Run(s, draws).outcome.Peak?
    ensures var p := Run(s, draws).outcome.value;
            var cs := Commits(s, draws);
            && p >= s.peak
            && (s.peak < MaxBalanceKey ==> p < MaxBalanceKey)
            && (p == s.peak || exists i :: 0 <= i < |cs| && cs[i].balance == p)
    decreases |draws|, 1
  {
    if 0 < s.balance < MaxBalanceKey && draws != [] {
      PeakAfterRound(s, draws);
    }
  }

  lemma {:induction false} PeakAfterRound(s: State, draws: seq<Draw>)
    requires s.history != [] && 0 < s.balance < MaxBalanceKey && draws != []
    requires Run(s, draws).outcome.Peak?
    ensures var p := Run(s, draws).outcome.value;
            var cs := Commits(s, draws);
            && p >= s.peak
            && (s.peak < MaxBalanceKey ==> p < MaxBalanceKey)
            && (p == s.peak || exists i :: 0 <= i < |cs| && cs[i].balance == p)
    decreases |draws|, 0
  {
    var r := Round(s, draws[0]);
    if r.Continue? {
      RoundFacts(s, draws[0]);
      var next, c := r.next, r.commit;
      PeakOfRun(next, draws[1..]);
      var rest := Commits(next, draws[1..]);
      var cs := [c] + rest;
      assert Commits(s, draws) == cs;
      var p := Run(s, draws).outcome.value;
      assert p == Run(next, draws[1..]).outcome.value;
      if p != s.peak {
        if p == next.peak {
          assert cs[0].balance == p;
        } else {
          var k :| 0 <= k < |rest| && rest[k].balance == p;
          assert cs[k + 1].balance == p;
        }
      }
    }
  }

  /** An episode's reported peak lies in [1000, 10000) and bounds every committed balance. */
  lemma EpisodePeak(t: Table, draws: seq<Draw>)
    requires Run(Start(t), draws).outcome.Peak?
    ensures var p := Run(Start(t), draws).outcome.value;
            && InitialBalance <= p < MaxBalanceKey
            && forall c :: c in Commits(Start(t), draws) ==> c.balance <= p
  {
    PeakOfRun(Start(t), draws);
    forall c | c in Commits(Start(t), draws)
      ensures c.balance <= Run(Start(t), draws).outcome.value
    {
      var j :| 0 <= j < |Commits(Start(t), draws)| && Commits(Start(t), draws)[j] == c;
      CommitBelowPeak(Start(t), draws, j);
    }
  }

  /** The loop state stays on the grid: balances and queued balances are balance
      keys and the table keeps its shape. */
  ghost predicate OnGrid(s: State) {
    && WellShaped(s.table)
    && s.balance in BalanceKeys()
    && |s.history| == HistoryLength
    && forall i :: 0 <= i < |s.history| ==> s.history[i] in BalanceKeys()
  }

  lemma StartOnGrid(t: Table)
    requires WellShaped(t)
    ensures OnGrid(Start(t))
  {
    assert InitialBalance in BalanceKeys();
  }

  /** A round settled on the grid lands on a multiple of 10. */
  lemma SettleOnGrid(balance: int, bet: int, roll: Roll)
    requires balance in BalanceKeys() && bet in BetKeys()
    ensures var r := Settle(balance, bet, roll);
            0 < r < MaxBalanceKey ==> r in BalanceKeys()
  {
    var r := Settle(balance, bet, roll);
    assert r == balance + 9 * bet || r == balance - bet;
  }

  /** Rewriting one existing cell keeps the table's shape. */
  lemma OnlyCellKeepsShape(t: Table, t': Table, k: int, b: int)
    requires WellShaped(t) && OnlyCellChanged(t, t', k, b)
    ensures WellShaped(t')
  {
  }

  /** On the grid no lookup of a round fails, and a round that carries on stays on the grid. */
  lemma RoundOnGrid(s: State, d: Draw)
    requires OnGrid(s)
    ensures !Round(s, d).Crash?
    ensures Round(s, d).Continue? ==> OnGrid(Round(s, d).next)
  {
    SelectedBetOnGrid(s.table, s.balance, d);
    var bet := SelectBet(s.table, s.balance, d).value;
    var balance := Settle(s.balance, bet, d.roll);
    SettleOnGrid(s.balance, bet, d.roll);
    var oldest := s.history[0];
    assert oldest in BalanceKeys();
    assert bet in s.table[oldest];
    if 0 < balance < MaxBalanceKey {
      assert 10 in s.table[balance];
      var r := Round(s, d);
      assert r.Continue?;
      RoundFacts(s, d);
      OnlyCellKeepsShape(s.table, r.next.table, oldest, bet);
      assert forall i :: 0 <= i < |r.next.history| ==> r.next.history[i] in BalanceKeys();
    }
  }

  /** From a well-shaped table an episode never faults: every row and cell it
      reads exists, and the table it leaves is still well-shaped. */
  lemma {:induction false} RunOnGrid(s: State, draws: seq<Draw>)
    requires OnGrid(s)
    ensures !Run(s, draws).outcome.Crashed?
    ensures OnGrid(Run(s, draws).last)
    decreases |draws|
  {
    if draws != [] {
      RoundOnGrid(s, draws[0]);
      match Round(s, draws[0])
      case Continue(next, _) => RunOnGrid(next, draws[1..]);
      case _ =>
    }
  }

  /** An episode from a well-shaped table never faults and leaves the table well-shaped. */
  lemma EpisodeOnGrid(t: Table, draws: seq<Draw>)
    requires WellShaped(t)
    ensures !Run(Start(t), draws).outcome.Crashed?
    ensures WellShaped(Run(Start(t), draws).last.table)
  {
    StartOnGrid(t);
    RunOnGrid(Start(t), draws);
  }
}
