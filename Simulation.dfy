/** The AI class: the Q-table it owns and the operations that update it in place. */
module Simulation {
  import opened Outcomes
  import opened Grid
  import opened QTable
  import opened Dice
  import opened Agent
  import opened Episode
  import opened ModelStore

  class AI {
    var qTable: Table

    /** A new agent starts from the all-zero table. */
    constructor ()
      ensures qTable == InitialTable()
    {
      qTable := map[];
      new;
      InitializeQTable();
    }

    /** Rows 10, 20, ..., 10000, each with bets 10, 20, ..., 500 at 0. */
    method InitializeQTable()
      modifies this
      ensures qTable == InitialTable()
    {
      qTable := map[];
      var balance := GridStep;
      while balance <= MaxBalanceKey
        invariant GridStep <= balance <= MaxBalanceKey + GridStep && balance % GridStep == 0
        invariant qTable.Keys == GridKeys(balance / GridStep - 1)
        invariant forall k :: k in qTable ==> qTable[k] == ZeroRow()
      {
        // the new row dictionary, filled before it is stored in the table
        var row: Row := map[];
        var bet := GridStep;
        ghost var filled := qTable;
        while bet <= MaxBetKey
          invariant qTable == filled
          invariant GridStep <= bet <= MaxBetKey + GridStep && bet % GridStep == 0
          invariant row.Keys == GridKeys(bet / GridStep - 1)
          invariant forall b :: b in row ==> row[b] == 0.0
        {
          GridKeysNext(bet);
          row := row[bet := 0.0];
          bet := bet + GridStep;
        }
        assert row == ZeroRow();
        GridKeysNext(balance);
        qTable := qTable[balance := row];
        balance := balance + GridStep;
      }
      assert qTable.Keys == InitialTable().Keys;
    }

    /** One episode over the given draws: rounds until the balance leaves
        (0, 10000), a lookup faults, or the draws run out. The table is updated
        in place; the outcome and the new table are what Run specifies. */
    method RunEpisode(draws: seq<Draw>) returns (outcome: Outcome)
      modifies this
      ensures outcome == Run(Start(old(qTable)), draws).outcome
      ensures qTable == Run(Start(old(qTable)), draws).last.table
    {
      ghost var spec := Run(Start(qTable), draws);
      var balance := InitialBalance;
      var maxBalance := InitialBalance;
      // the queue of the last ten balances starts as ten copies of the initial balance
      var history: seq<int> := [];
      var i := 0;
      while i < HistoryLength
        invariant 0 <= i <= HistoryLength && history == Copies(i, InitialBalance)
      {
        history := history + [InitialBalance];
        i := i + 1;
      }
      var rest := draws;
      while 0 < balance < MaxBalanceKey
        invariant |history| == HistoryLength
        invariant spec == Run(State(balance, maxBalance, history, qTable), rest)
        decreases |rest|
      {
        if rest == [] {
          return OutOfDraws;
        }
        var step := PlayRound(balance, maxBalance, history, rest);
        match step
        case Stop(peak) =>
          return Peak(peak);
        case Crash(fault) =>
          return Crashed(fault);
        case Continue(next, _) =>
          balance, maxBalance, history := next.balance, next.peak, next.history;
        rest := rest[1..];
      }
      return Peak(maxBalance);
    }

    /** One pass of RunEpisode's loop body: select a bet, roll, settle; stop
        with the peak once the balance leaves (0, 10000); otherwise rotate the
        queue, raise the peak and update the cell of the dequeued balance and
        the current bet in place. */
    method PlayRound(balance: int, maxBalance: int, history: seq<int>, draws: seq<Draw>) returns (step: Step)
      requires 0 < balance < MaxBalanceKey && history != [] && draws != []
      modifies this
      ensures var s := State(balance, maxBalance, history, old(qTable));
              && (step.Stop? ==> Run(s, draws) == Finish(Peak(step.peak), s))
              && (step.Crash? ==> Run(s, draws) == Finish(Crashed(step.fault), s))
              && (step.Continue? ==>
                    && 0 < step.next.balance < MaxBalanceKey && |step.next.history| == |history|
                    && Run(s, draws) == Run(step.next, draws[1..]))
      ensures qTable == if step.Continue? then step.next.table else old(qTable)
    {
      ghost var s := State(balance, maxBalance, history, qTable);
      var d := draws[0];
      var selected := SelectBet(qTable, balance, d);
      if selected.Failure? {
        step := Crash(selected.error);
      } else {
        var bet := selected.value;
        var newBalance := Settle(balance, bet, d.roll);
        if !(0 < newBalance < MaxBalanceKey) {
          step := Stop(maxBalance);
        } else {
          var oldestBalance := history[0];
          var reward := newBalance - oldestBalance;
          var newHistory := history[1..] + [newBalance];
          var newMax := Max(maxBalance, newBalance);
          if oldestBalance !in qTable || bet !in qTable[oldestBalance] {
            step := Crash(MissingKey);
          } else {
            var oldQValue := qTable[oldestBalance][bet];
            if newBalance !in qTable {
              step := Crash(MissingKey);
            } else if qTable[newBalance] == map[] {
              step := Crash(EmptySequence);
            } else {
              var maxNextQValue := MaxValue(qTable[newBalance]);
              var newQValue := UpdatedValue(oldQValue, reward, maxNextQValue);
              qTable := qTable[oldestBalance := qTable[oldestBalance][bet := newQValue]];
              step := Continue(State(newBalance, newMax, newHistory, qTable), Commit(bet, newBalance, oldestBalance, reward));
            }
          }
        }
      }
      assert step == Round(s, d);
      RunAfter(s, draws, step);
    }

    /** The text of the model file: one `balance#bet#value` line per cell,
        rows and bets in ascending order. */
    method SaveModel(valueText: real -> string) returns (lines: seq<string>)
      ensures lines == TableLines(qTable, valueText)
    {
      lines := [];
      var rows := qTable;
      while rows != map[]
        invariant lines + TableLines(rows, valueText) == TableLines(qTable, valueText)
        decreases |rows|
      {
        var balance := MinKey(rows.Keys);
        RemoveShrinks(rows, balance);
        AppendTableHead(lines, rows, valueText);
        var cells := rows[balance];
        ghost var rowWritten := lines + RowLines(balance, cells, valueText);
        while cells != map[]
          invariant lines + RowLines(balance, cells, valueText) == rowWritten
          decreases |cells|
        {
          var bet := MinKey(cells.Keys);
          RemoveShrinks(cells, bet);
          AppendRowHead(lines, balance, cells, valueText);
          lines := lines + [Line(balance, bet, valueText, cells[bet])];
          cells := cells - {bet};
        }
        assert lines + [] == lines;
        rows := rows - {balance};
      }
      assert lines + [] == lines;
    }

    /** A fresh agent whose table is read line by line from the model file;
        the first line that does not parse, or names a missing row, fails. */
    static method LoadModel(lines: seq<string>, parseValue: string -> Option<real>) returns (r: Result<AI>)
      ensures var expected := LoadLines(InitialTable(), lines, parseValue);
              && (r.Success? <==> expected.Success?)
              && (r.Success? ==> fresh(r.value) && r.value.qTable == expected.value)
              && (r.Failure? ==> r.error == expected.error)
    {
      var loadedAI := new AI();
      var i := 0;
      while i < |lines|
        invariant 0 <= i <= |lines|
        invariant LoadLines(InitialTable(), lines, parseValue) == LoadLines(loadedAI.qTable, lines[i..], parseValue)
      {
        assert lines[i..][0] == lines[i] && lines[i..][1..] == lines[i + 1..];
        LoadFirst(loadedAI.qTable, lines[i..], parseValue);
        var loaded := LoadLine(loadedAI.qTable, lines[i], parseValue);
        if loaded.Failure? {
          return Failure(loaded.error);
        }
        loadedAI.qTable := loaded.value;
        i := i + 1;
      }
      return Success(loadedAI);
    }
  }
}
