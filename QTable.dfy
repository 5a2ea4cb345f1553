/** The Q-table: balance -> (bet -> value), with its initial contents and the
    queries the agent makes of one row. */
module QTable {
  import opened Grid

  type Row = map<int, real>
  type Table = map<int, Row>

  /** Every balance key has a row, and every row has exactly the bet keys. */
  ghost predicate WellShaped(t: Table) {
    && t.Keys == BalanceKeys()
    && forall k :: k in t ==> t[k].Keys == BetKeys()
  }

  function ZeroRow(): Row {
    map b | b in BetKeys() :: 0.0
  }

  /** The table as InitializeQTable leaves it. */
  function InitialTable(): Table {
    map k | k in BalanceKeys() :: ZeroRow()
  }

  /** 1000 rows of 50 cells, all zero. */
  lemma InitialTableShape()
    ensures WellShaped(InitialTable())
    ensures |InitialTable()| == 1000
    ensures forall k :: k in InitialTable() ==> |InitialTable()[k]| == 50
    ensures forall k, b :: k in InitialTable() && b in InitialTable()[k] ==> InitialTable()[k][b] == 0.0
  {
    KeyCounts();
    assert InitialTable().Keys == BalanceKeys();
    assert ZeroRow().Keys == BetKeys();
  }

  /** Removing a present key makes a map smaller. */
  lemma RemoveShrinks<V>(m: map<int, V>, k: int)
    requires k in m
    ensures |m - {k}| < |m|
  {
    assert m.Keys == (m - {k}).Keys + {k};
  }

  lemma HasMember(keys: set<int>)
    requires keys != {}
    ensures exists y :: y in keys
  {
    if forall z :: z !in keys {
      assert false;
    }
  }

  /** m is the smallest element of keys. */
  predicate IsLeast(m: int, keys: set<int>) {
    m in keys && forall x :: x in keys ==> m <= x
  }

  lemma {:induction false} LeastExists(keys: set<int>)
    requires keys != {}
    ensures exists m :: IsLeast(m, keys)
    decreases |keys|
  {
    HasMember(keys);
    var y :| y in keys;
    var rest := keys - {y};
    assert keys == rest + {y} && y !in rest;
    if rest == {} {
      assert IsLeast(y, keys);
    } else {
      LeastExists(rest);
      var m :| IsLeast(m, rest);
      var least := if y < m then y else m;
      assert IsLeast(least, keys);
    }
  }

  /** The smallest key of a non-empty set. */
  function MinKey(keys: set<int>): (m: int)
    requires keys != {}
    ensures m in keys
    ensures forall x :: x in keys ==> m <= x
  {
    LeastExists(keys);
    var m :| IsLeast(m, keys);
    m
  }

  /** The bet the exploitation branch picks: a key whose value is maximal in the
      row, the lowest such key when several tie. */
  function BestBet(row: Row): (b: int)
    requires row != map[]
    ensures b in row
    ensures forall k :: k in row ==> row[k] <= row[b]
    ensures forall k :: k in row && row[k] == row[b] ==> b <= k
    decreases |row|
  {
    var k := MinKey(row.Keys);
    var rest := row - {k};
    assert forall x :: x in row ==> x == k || x in rest;
    if rest == map[] then k
    else
      var b := BestBet(rest);
      if row[b] > row[k] then b else k
  }

  /** The largest value in a row (Values.Max()). */
  function MaxValue(row: Row): real
    requires row != map[]
  {
    row[BestBet(row)]
  }

  /** The largest value of a nonempty row: a value of the row, and no value exceeds it. */
  lemma MaxValueIsMax(row: Row)
    requires row != map[]
    ensures MaxValue(row) in row.Values
    ensures forall k :: k in row ==> row[k] <= MaxValue(row)
  {
  }

  /** The table with the one cell t[k][b] set to v. */
  function SetCell(t: Table, k: int, b: int, v: real): Table
    requires k in t
  {
    t[k := t[k][b := v]]
  }

  /** Setting a cell keeps the rows, adds the bet to its row if it is new,
      and leaves every other cell as it was. */
  lemma SetCellFacts(t: Table, k: int, b: int, v: real)
    requires k in t
    ensures var t' := SetCell(t, k, b, v);
            && t'.Keys == t.Keys
            && t'[k].Keys == t[k].Keys + {b} && t'[k][b] == v
            && (forall r :: r in t && r != k ==> t'[r] == t[r])
            && (forall c :: c in t[k] && c != b ==> t'[k][c] == t[k][c])
  {
  }

  lemma SetCellKeepsShape(t: Table, k: int, b: int, v: real)
    requires WellShaped(t) && k in t && b in t[k]
    ensures WellShaped(SetCell(t, k, b, v))
  {
  }
}
