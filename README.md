# Q-learning betting agent — a Dafny model

This project models the core of `Simulations/Program.cs`: a tabular Q-learning
agent that bets on a dice game with an integer bankroll.

- **The Q-table.** It maps each balance 10, 20, …, 10000 to a row. Each row maps
  the bets 10, 20, …, 500 to a value.
- **One round of an episode.** The agent selects a bet, either a random
  exploration bet or the best bet of the current balance's row. Then it rolls
  10..100 and settles the bet. A roll wins when its units digit equals its tens
  digit, and bets of 10 and 20 always win. The bet is taken, and ten times the
  bet is credited on a win. The episode stops, reporting the peak balance, as
  soon as the balance leaves (0, 10000). Otherwise the round does three things:
  - it dequeues the balance from ten rounds earlier and enqueues the new one;
  - it raises the peak;
  - it updates the single cell `qTable[oldest][bet]`, where `bet` is the
    current round's bet, towards the temporal-difference target.
- **Persistence.** Saving writes one `balance#bet#value` line per cell. Loading
  starts from a fresh all-zero table and overwrites one cell per line.
- **The summary step of `Main`.** It sorts the evaluation peaks in place and
  takes their median.

## Modules

- `Outcomes`: `Result` and `Option`, and the `Fault` values that stand for the
  .NET exceptions the code can raise:
  - `KeyNotFoundException` → `MissingKey`
  - `InvalidOperationException` from `First()`/`Max()` on an empty sequence →
    `EmptySequence`
  - `IndexOutOfRangeException` (an array index, `parts[1]` and `parts[2]` of
    a loaded line) and `ArgumentOutOfRangeException` (a `List<int>` index, the
    element −1 of an empty sample list) → `IndexOutOfRange`
  - `FormatException` → `BadFormat`
  - `OverflowException` → `Overflow`
- `Grid`: the key grids, the 32-bit range and the wrap-around of unchecked C#
  `int` arithmetic.
- `QTable`: the table type, the initial table and the row queries (largest
  value, best bet, one-cell update).
- `Dice`: the roll range, `CheckWin`, the forced win of small bets and the
  settlement of a round.
- `Agent`: the learning constants, the explicit random draws, `SelectBet` and
  the value update.
- `Episode`: the loop of `RunEpisode` as functions (`Round`, `Run`), the record
  of committed rounds, and the properties of episodes (ten-round reward lag,
  peak bounds, no fault on a well-shaped table).
- `ModelStore`: the line format, `String.Split('#')`, `int.Parse`, the read loop
  of `LoadModel`, and the save/load round trip.
- `Statistics`: the in-place sort and the median.
- `Simulation`: class `AI`, with the table as a field. `InitializeQTable`,
  `RunEpisode` (with one loop pass as `PlayRound`), `SaveModel` and `LoadModel`
  are methods that update it in place. Each method is proved against the
  functions of the modules above.

The random source is replaced by explicit draws. Each round consumes one
`Draw(explore, pick, roll)`:
- `explore` is the outcome of `NextDouble() < 0.01`;
- `pick` is the value of `Next(10, 51)`;
- `roll` is the value of `Next(10, 101)`.

A finite sequence of draws bounds the loop, and the outcome `OutOfDraws`
reports that the draws ran out before the episode ended.

Behaviours of the code that a reader might not expect, all kept in the model:
- A roll wins with 10 of the 91 values 10..100 (11, 22, …, 99 and 100;
  `Dice.WinningRolls`), not with probability 1/10.
- A loaded line needs at least three `#`-separated fields; fields after the
  third are ignored (`ModelStore.LoadLineFacts`).
- Loading starts from the all-zero table, so a cell with no line in the file
  stays 0 (`ModelStore.LoadWrittenTable` lays the written rows over the table
  read into).
- The comment at Simulations/Program.cs:144 says exploration bets 10..500.
  `Next(10, 51) * 10` is 100..500 (`Agent.SelectBetFacts`).

Evaluation in `Main` calls the same `RunEpisode`, so it also updates the table
of the loaded agent. `Simulation.AI.RunEpisode` modifies `qTable` whoever calls
it.

## Model

| member | source | states |
|---|---|---|
| Grid.KeyCounts | Simulations/Program.cs:74-77 | there are exactly 1000 balance keys 10..10000 and 50 bet keys 10..500 |
| Grid.Wrap32 | Simulations/Program.cs:107-113 | unchecked `int` arithmetic: the result is a 32-bit value, equals the input when that fits, and differs from it by a multiple of 2^32 |
| QTable.InitialTable | Simulations/Program.cs:71-81 | the table InitializeQTable builds: every balance key maps to the row of every bet key at 0; its shape and size are stated by QTable.InitialTableShape |
| QTable.InitialTableShape | Simulations/Program.cs:71-81 | the initial table is well shaped (rows exactly the balance keys, each row exactly the bet keys), has 1000 rows of 50 cells, and every cell is 0 |
| QTable.BestBet | Simulations/Program.cs:148 | the exploitation bet is a key of the row whose value no other value exceeds, and the lowest such key on a tie |
| QTable.MaxValue | Simulations/Program.cs:130 | `Values.Max()` of a nonempty row, taken as the value of its best bet; QTable.MaxValueIsMax states that it is the largest value |
| QTable.MaxValueIsMax | Simulations/Program.cs:130 | `Values.Max()` of a nonempty row is one of its values, and no value of the row exceeds it |
| QTable.SetCell | Simulations/Program.cs:132 | the assignment `qTable[k][b] = v` on an existing row; what it keeps and changes is stated by QTable.SetCellFacts |
| QTable.SetCellFacts | Simulations/Program.cs:132 | writing `t[k][b]` keeps the rows, adds `b` to row `k` if absent, stores the value, and leaves every other row and every other cell of row `k` unchanged |
| QTable.SetCellKeepsShape | Simulations/Program.cs:132 | overwriting an existing cell of a well-shaped table keeps it well shaped |
| Dice.CheckWin | Simulations/Program.cs:157-160 | the win test: the roll's units digit equals its tens digit (Dafny's `/` and `%` agree with C#'s on the nonnegative rolls); Dice.WinningRolls lists its winners |
| Dice.WinningRolls | Simulations/Program.cs:152-160 | on 10..100, `CheckWin` holds exactly for 11, 22, …, 99 and 100 |
| Dice.Settle | Simulations/Program.cs:102-114 | the balance after a round, the stake taken and ten bets credited on a win in 32-bit arithmetic, is a 32-bit value; Dice.SettleFacts gives its value |
| Dice.SettleFacts | Simulations/Program.cs:102-114 | the settled balance is a 32-bit value; away from overflow it is balance + 9·bet on a win (roll wins or bet in [10, 20]) and balance − bet otherwise |
| Dice.SmallBetsAlwaysWin | Simulations/Program.cs:104-114 | a bet of 10 or 20 gains nine times the bet whatever the roll |
| Agent.SelectBet | Simulations/Program.cs:138-150 | an exploration bet succeeds and lies in [100, 500]; an exploitation bet that succeeds is a key of the balance's row |
| Agent.SelectBetFacts | Simulations/Program.cs:138-150 | exploring bets a multiple of 10 in [100, 500]; exploiting fails with `MissingKey` on a missing row and `EmptySequence` on an empty row, and otherwise bets a key of the row with maximal value, the lowest on a tie |
| Agent.SelectedBetOnGrid | Simulations/Program.cs:138-150 | on a well-shaped table, bet selection at a balance key never fails and returns a bet key |
| Agent.UpdatedValue | Simulations/Program.cs:129-131 | the new cell value lies between the old value and the target reward + γ·maxNext |
| Agent.UpdateTowardsTarget | Simulations/Program.cs:131 | the new value is (1 − lr)·old + lr·(reward + γ·maxNext), so it lies between the old value and the target |
| Episode.Start | Simulations/Program.cs:86-95 | an episode starts at balance 1000, peak 1000, with ten copies of 1000 in the queue |
| Episode.Round | Simulations/Program.cs:97-132 | a round that carries on leaves the balance inside (0, 10000) and the queue at its length |
| Episode.RoundFacts | Simulations/Program.cs:97-132 | the round fails as bet selection fails; it stops, reporting the peak so far, exactly when the settled balance leaves (0, 10000); otherwise it commits the settled balance, rotates the queue, raises the peak, uses reward = balance − dequeued, and changes exactly the cell (dequeued, current bet) to the updated value |
| Episode.Run | Simulations/Program.cs:97-135 | the loop tests the guard 0 < balance < 10000 before each round, as the `while` does; a run keeps the queue at its length |
| Episode.CommitAt | Simulations/Program.cs:116-126 | every committed balance lies in (0, 10000), its reward is balance − dequeued, and the dequeued balance of round j is entry j of the initial queue followed by the committed balances |
| Episode.RewardLagOfEpisode | Simulations/Program.cs:91-123 | the first ten committed rounds of an episode dequeue 1000, and round k + 10 dequeues the balance committed in round k |
| Episode.CommitBelowPeak | Simulations/Program.cs:116-126 | no committed balance exceeds the peak the run reports |
| Episode.PeakOfRun | Simulations/Program.cs:88-135 | the reported peak is at least the starting peak, below 10000 when that is, and is the starting peak or a committed balance |
| Episode.PeakAfterRound | Simulations/Program.cs:97-135 | the peak property of Episode.PeakOfRun for a run whose guard holds and that has a draw left, by cases on its first round |
| Episode.EpisodePeak | Simulations/Program.cs:86-135 | an episode's reported peak lies in [1000, 10000) and bounds every committed balance |
| Episode.StartOnGrid | Simulations/Program.cs:86-95 | the start state is on the grid |
| Episode.SettleOnGrid | Simulations/Program.cs:107-116 | a bet key settled from a balance key lands on a balance key whenever it stays inside (0, 10000) |
| Episode.RoundOnGrid | Simulations/Program.cs:99-132 | from a state on the grid a round never faults, and a round that carries on leads to a state on the grid |
| Episode.RunOnGrid | Simulations/Program.cs:97-133 | from a state on the grid a run never faults and ends on the grid |
| Episode.EpisodeOnGrid | Simulations/Program.cs:84-136 | an episode from a well-shaped table never faults and leaves the table well shaped |
| ModelStore.IntText | Simulations/Program.cs:170 | the text of an integer is nonempty and holds no `#` |
| ModelStore.ParseInt | Simulations/Program.cs:185-186 | `int.Parse` succeeds only with a 32-bit value and fails on the empty field |
| ModelStore.ParseIntText | Simulations/Program.cs:185-186 | parsing the written text of a 32-bit integer gives the integer back |
| ModelStore.Split | Simulations/Program.cs:184 | `Split('#')` returns at least one field |
| ModelStore.SplitLine | Simulations/Program.cs:170-186 | a written line splits back into the balance text, the bet text and the value text |
| ModelStore.LoadLine | Simulations/Program.cs:184-190 | reading a line never adds or removes a row |
| ModelStore.LoadLineFacts | Simulations/Program.cs:184-190 | a line with fewer than three fields fails; a line loads iff both integers and the value parse and the balance names an existing row, and it then sets exactly that cell, adding the bet if it is new |
| ModelStore.LoadLines | Simulations/Program.cs:182-191 | the read loop never adds or removes a row |
| ModelStore.LoadFirst | Simulations/Program.cs:182-191 | the read loop stops with the fault of the first failing line, and otherwise goes on from the table that line produced |
| ModelStore.LoadConcat | Simulations/Program.cs:182-191 | reading two blocks of lines is reading the first, then the second from its result, unless the first fails |
| ModelStore.Line | Simulations/Program.cs:170 | the line written for a cell: balance text, `#`, bet text, `#`, value text; ModelStore.SplitLine splits it back |
| ModelStore.LoadWrittenLine | Simulations/Program.cs:170-190 | reading back a written line for an existing row sets exactly that cell |
| ModelStore.RowLines | Simulations/Program.cs:168-170 | a row is written as one line per cell |
| ModelStore.TableLines | Simulations/Program.cs:166-170 | the lines SaveModel writes, rows and then bets in ascending order; ModelStore.SavedLineCount counts them and ModelStore.SaveLoadRoundTrip reads them back |
| ModelStore.TableLinesCount | Simulations/Program.cs:166-170 | a table whose rows hold n cells each is written as n lines per row |
| ModelStore.SavedLineCount | Simulations/Program.cs:166-170 | a well-shaped table is written as 50,000 lines, one per cell |
| ModelStore.LoadWrittenRow | Simulations/Program.cs:168-190 | reading back a written row, whose stored values survive being written and read, lays its cells over that row |
| ModelStore.LoadWrittenTable | Simulations/Program.cs:166-190 | reading back the written table, whose stored values survive being written and read, lays each of its rows over the table read into |
| ModelStore.OverlayInitial | Simulations/Program.cs:178 | laying a well-shaped table over the fresh table gives that table |
| ModelStore.SaveLoadRoundTrip | Simulations/Program.cs:162-194 | loading the saved lines of a well-shaped table into the fresh table restores that table, when each value stored in it is read back from its text |
| ModelStore.SaveLoadZeroTable | Simulations/Program.cs:162-194 | the hypothesis of the round trip can be met: the all-zero table, written with the text "0" per cell, is read back as itself |
| Statistics.Sort | Simulations/Program.cs:43 | the list ends ascending and holds the same elements |
| Statistics.SortedUnique | Simulations/Program.cs:43 | two ascending lists with the same elements are equal, so the sorted order is unique |
| Statistics.MedianOfSorted | Simulations/Program.cs:44-52 | the median fails, with an index out of range, exactly on the empty list |
| Statistics.MedianSplits | Simulations/Program.cs:44-52 | the median lies between the smallest and largest sample, above every element of the lower half and below every element of the upper half |
| Statistics.Median | Simulations/Program.cs:43-52 | the samples are sorted in place and the result is the median of the sorted list |
| Statistics.MedianOfPermutation | Simulations/Program.cs:43-52 | the median depends only on which samples there are, not on their order |
| Statistics.SameSamples | Simulations/Program.cs:43 | a sorted list with the same elements as a given list is the given list's sorted arrangement |
| Statistics.MedianEvenExample | Simulations/Program.cs:43-52 | the samples 7, 3, 9, 1 have median 5.0 |
| Statistics.MedianOddExample | Simulations/Program.cs:43-52 | the samples 4, 1, 3 have median 3.0 |
| Statistics.MedianOfNothing | Simulations/Program.cs:45-47 | no samples: the median indexes element −1 and fails |
| Simulation.AI.constructor | Simulations/Program.cs:65-69 | a new agent holds the initial all-zero table |
| Simulation.AI.InitializeQTable | Simulations/Program.cs:71-81 | the nested loops leave exactly the initial table |
| Simulation.AI.RunEpisode | Simulations/Program.cs:84-136 | the outcome and the table left behind are those of `Run` from the start state |
| Simulation.AI.PlayRound | Simulations/Program.cs:99-132 | one loop pass, called while the guard 0 < balance < 10000 holds: a stop or fault ends the run with the table unchanged; a round that carries on keeps the balance in (0, 10000) and the queue length, and the run goes on from the new state, whose table is the field's new value |
| Simulation.AI.SaveModel | Simulations/Program.cs:162-174 | the lines written are one `balance#bet#value` line per cell, rows and bets ascending |
| Simulation.AI.LoadModel | Simulations/Program.cs:176-194 | a fresh agent holds the table the read loop produces from the fresh table; the load fails with the first failing line's fault |

## Left out

- Randomness: `System.Random` is replaced by explicit draws. Nothing is claimed
  about probabilities: win frequency, expected value, or almost-sure termination
  of the random walk.
- Episode length: the `while` loop of `RunEpisode` has no termination measure.
  A finite draw sequence bounds it, and a run that exhausts its draws reports
  `OutOfDraws`.
- `Main`: the training and evaluation loops over episode counts and all console
  output are not modelled. Only the sort and median step is.
- File handling: `StreamWriter` and `StreamReader` are not modelled. Saving
  produces the sequence of lines, and loading consumes one.
- Values: Q-values are `real`, so floating-point rounding of the update is not
  modelled. The text form of a `double` and its parsing are the parameters
  `valueText` and `parseValue`. The round trip assumes, for each value stored
  in the table, that its text holds no `#` and is parsed back to that value;
  nothing is claimed about the exactness of .NET's `double` formatting.
- `int.Parse` is modelled as an optional sign and decimal digits. Surrounding
  whitespace and culture-specific formats are not modelled.
- Dictionary enumeration order is modelled as ascending keys. This order decides
  the save line order and the tie-break of `OrderByDescending(...).First()`.
  For tables built by `InitializeQTable` it coincides with .NET's insertion
  order. A bet added to a row by `LoadModel` would be enumerated last by .NET,
  but in its sorted place here.
- QTable.BestBet: on a tie it picks the lowest bet key. This is the ascending
  enumeration order above, not a promise of the source.
- Dice.SettleFacts: the plain formula is stated only for balances and bets
  within ±2^24, where no wrap-around happens. Outside that range only the
  32-bit bound is stated; the function itself wraps every step.
- Episode.Round: the reward `balance − oldest` is not wrapped. Both operands
  lie in (0, 10000) in every reachable state, so the subtraction cannot
  overflow.
- Statistics.MedianSplits: requires every sample to lie within ±2^30, so that
  the 32-bit sum of the two middle elements does not wrap. Episode peaks lie in
  [1000, 10000). The median is a real number; the double division by 2.0 is
  exact for such values.
