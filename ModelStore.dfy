/** The model file: one line `balance#bet#value` per cell. Integers are written
    and read in decimal; the value text is whatever the double formatter and
    parser produce, given here as the functions `valueText` and `parseValue`. */
module ModelStore {
  import opened Outcomes
  import opened Grid
  import opened QTable

  const Separator := '#'

  // ---- integer text -------------------------------------------------------

  predicate IsDigit(c: char) {
    '0' <= c <= '9'
  }

  function DigitChar(d: int): (c: char)
    requires 0 <= d < 10
    ensures IsDigit(c)
  {
    ('0' as int + d) as char
  }

  /** Decimal digits of a natural number, without leading zeros. */
  function NatText(n: nat): (s: string)
    ensures s != [] && forall i :: 0 <= i < |s| ==> IsDigit(s[i])
    decreases n
  {
    if n < 10 then [DigitChar(n)] else NatText(n / 10) + [DigitChar(n % 10)]
  }

  /** int.ToString(): a minus sign for negative values, then the digits. */
  function IntText(n: int): (s: string)
    ensures s != [] && Separator !in s
  {
    if n < 0 then "-" + NatText(-n) else NatText(n)
  }

  function DigitsValue(s: string): nat
    requires forall i :: 0 <= i < |s| ==> IsDigit(s[i])
  {
    if s == [] then 0
    else
      assert IsDigit(s[|s| - 1]);
      DigitsValue(s[..|s| - 1]) * 10 + (s[|s| - 1] as int - '0' as int)
  }

  /** int.Parse: an optional sign and at least one digit, in the 32-bit range. */
  function ParseInt(s: string): (r: Result<int>)
    ensures r.Success? ==> InInt32(r.value)
    ensures s == [] ==> r == Failure(BadFormat)
  {
    if s == [] then Failure(BadFormat)
    else
      var negative := s[0] == '-';
      var digits := if s[0] == '-' || s[0] == '+' then s[1..] else s;
      if digits == [] || exists i :: 0 <= i < |digits| && !IsDigit(digits[i]) then Failure(BadFormat)
      else
        var magnitude: int := DigitsValue(digits);
        var v := if negative then -magnitude else magnitude;
        if InInt32(v) then Success(v) else Failure(Overflow)
  }

  lemma {:induction false} DigitsOfNatText(n: nat)
    ensures DigitsValue(NatText(n)) == n
    decreases n
  {
    if n >= 10 {
      DigitsOfNatText(n / 10);
      var s := NatText(n);
      assert s[..|s| - 1] == NatText(n / 10);
    }
  }

  /** Reading back a written integer gives the integer. */
  lemma ParseIntText(n: int)
    requires InInt32(n)
    ensures ParseInt(IntText(n)) == Success(n)
  {
    var s := IntText(n);
    if n < 0 {
      DigitsOfNatText(-n);
      assert s[1..] == NatText(-n);
    } else {
      DigitsOfNatText(n);
    }
  }

  // ---- String.Split('#') ----------------------------------------------------

  /** The fields between separators, empty fields included; never empty. */
  function Split(s: string): (parts: seq<string>)
    ensures |parts| > 0
  {
    if s == [] then [[]]
    else
      var rest := Split(s[1..]);
      if s[0] == Separator then [[]] + rest
      else [[s[0]] + rest[0]] + rest[1..]
  }

  lemma {:induction false} SplitField(a: string, b: string)
    requires Separator !in a
    ensures Split(a + [Separator] + b) == [a] + Split(b)
    decreases |a|
  {
    if a != [] {
      SplitField(a[1..], b);
      var s := a + [Separator] + b;
      assert s[0] == a[0] && a[0] in a;
      assert s[1..] == a[1..] + [Separator] + b;
      assert [a[0]] + a[1..] == a;
    }
  }

  lemma {:induction false} SplitLast(a: string)
    requires Separator !in a
    ensures Split(a) == [a]
    decreases |a|
  {
    if a != [] {
      SplitLast(a[1..]);
      assert a[0] in a;
      assert [a[0]] + a[1..] == a;
    }
  }

  // ---- one line -------------------------------------------------------------

  /** The line SaveModel writes for the cell (k, b) holding v. */
  function Line(k: int, b: int, valueText: real -> string, v: real): string {
    IntText(k) + [Separator] + IntText(b) + [Separator] + valueText(v)
  }

  /** A written line splits back into its three fields. */
  lemma SplitLine(k: int, b: int, valueText: real -> string, v: real)
    requires Separator !in valueText(v)
    ensures Split(Line(k, b, valueText, v)) == [IntText(k), IntText(b), valueText(v)]
  {
    var kt, bt, vt := IntText(k), IntText(b), valueText(v);
    assert Line(k, b, valueText, v) == kt + [Separator] + (bt + [Separator] + vt);
    SplitField(kt, bt + [Separator] + vt);
    SplitField(bt, vt);
    SplitLast(vt);
  }

  /** One iteration of LoadModel's read loop: parse the balance, the bet and the
      value in that order, then overwrite (or add) the cell in an existing row. */
  function LoadLine(t: Table, line: string, parseValue: string -> Option<real>): (r: Result<Table>)
    ensures r.Success? ==> r.value.Keys == t.Keys
  {
    var parts := Split(line);
    var balance :- ParseInt(parts[0]);
    if |parts| < 2 then Failure(IndexOutOfRange)
    else
      var bet :- ParseInt(parts[1]);
      if |parts| < 3 then Failure(IndexOutOfRange)
      else if parseValue(parts[2]).None? then Failure(BadFormat)
      else if balance !in t then Failure(MissingKey)
      else Success(SetCell(t, balance, bet, parseValue(parts[2]).value))
  }

  /** A line is read when it has at least three fields, the first two parse
      as integers and the third as a value, and the first names an existing
      row; then exactly that cell is set, added to the row if the bet is new.
      Fields after the third are ignored. */
  lemma LoadLineFacts(t: Table, line: string, parseValue: string -> Option<real>)
    ensures var r := LoadLine(t, line, parseValue);
            var parts := Split(line);
            && (|parts| < 3 ==> r.Failure?)
            && (r.Success? <==>
                  && |parts| >= 3
                  && ParseInt(parts[0]).Success? && ParseInt(parts[1]).Success?
                  && parseValue(parts[2]).Some?
                  && ParseInt(parts[0]).value in t)
            && (r.Success? ==>
                  r.value == SetCell(t, ParseInt(parts[0]).value, ParseInt(parts[1]).value, parseValue(parts[2]).value))
  {
  }

  /** The read loop of LoadModel: lines in order, stopping at the first failure. */
  function LoadLines(t: Table, lines: seq<string>, parseValue: string -> Option<real>): (r: Result<Table>)
    ensures r.Success? ==> r.value.Keys == t.Keys
    decreases |lines|
  {
    if lines == [] then Success(t)
    else
      var t' :- LoadLine(t, lines[0], parseValue);
      LoadLines(t', lines[1..], parseValue)
  }

  /** One step of the read loop: a failing line ends it with that line's fault. */
  lemma LoadFirst(u: Table, lines: seq<string>, parseValue: string -> Option<real>)
    requires lines != []
    ensures var first := LoadLine(u, lines[0], parseValue);
            LoadLines(u, lines, parseValue)
            == if first.Failure? then Failure(first.error) else LoadLines(first.value, lines[1..], parseValue)
  {
  }

  // ---- the whole table ------------------------------------------------------

  /** The lines of one row, bets in ascending order. */
  function RowLines(k: int, row: Row, valueText: real -> string): (lines: seq<string>)
    ensures |lines| == |row|
    decreases |row|
  {
    if row == map[] then []
    else
      var b := MinKey(row.Keys);
      [Line(k, b, valueText, row[b])] + RowLines(k, row - {b}, valueText)
  }

  /** The lines SaveModel writes, rows in ascending order of balance. */
  function TableLines(t: Table, valueText: real -> string): seq<string>
    decreases |t|
  {
    if t == map[] then []
    else
      var k := MinKey(t.Keys);
      RowLines(k, t[k], valueText) + TableLines(t - {k}, valueText)
  }

  lemma TableLinesFirst(t: Table, valueText: real -> string)
    requires t != map[]
    ensures var k := MinKey(t.Keys);
            TableLines(t, valueText) == RowLines(k, t[k], valueText) + TableLines(t - {k}, valueText)
  {
  }

  lemma RowLinesFirst(k: int, row: Row, valueText: real -> string)
    requires row != map[]
    ensures var b := MinKey(row.Keys);
            RowLines(k, row, valueText) == [Line(k, b, valueText, row[b])] + RowLines(k, row - {b}, valueText)
  {
  }

  /** SaveModel's inner step: writing the lowest remaining bet's line first. */
  lemma AppendRowHead(lines: seq<string>, k: int, cells: Row, valueText: real -> string)
    requires cells != map[]
    ensures var b := MinKey(cells.Keys);
            lines + RowLines(k, cells, valueText)
            == (lines + [Line(k, b, valueText, cells[b])]) + RowLines(k, cells - {b}, valueText)
  {
    RowLinesFirst(k, cells, valueText);
  }

  /** SaveModel's outer step: writing the lowest remaining row first. */
  lemma AppendTableHead(lines: seq<string>, rows: Table, valueText: real -> string)
    requires rows != map[]
    ensures var k := MinKey(rows.Keys);
            lines + TableLines(rows, valueText)
            == (lines + RowLines(k, rows[k], valueText)) + TableLines(rows - {k}, valueText)
  {
    TableLinesFirst(rows, valueText);
  }

  // ---- reading back what was written ----------------------------------------

  /** The read loop stops at the first failing line; otherwise the lines
      after a prefix are read into the table the prefix produced. */
  lemma {:induction false} LoadConcat(u: Table, xs: seq<string>, ys: seq<string>, parseValue: string -> Option<real>)
    ensures LoadLines(u, xs, parseValue).Failure? ==> LoadLines(u, xs + ys, parseValue) == LoadLines(u, xs, parseValue)
    ensures LoadLines(u, xs, parseValue).Success? ==>
              LoadLines(u, xs + ys, parseValue) == LoadLines(LoadLines(u, xs, parseValue).value, ys, parseValue)
    decreases |xs|
  {
    if xs != [] {
      assert (xs + ys)[0] == xs[0];
      assert (xs + ys)[1..] == xs[1..] + ys;
      var first := LoadLine(u, xs[0], parseValue);
      if first.Success? {
        LoadConcat(first.value, xs[1..], ys, parseValue);
      }
    } else {
      assert xs + ys == ys;
    }
  }

  /** Reading a line written for an existing row sets exactly that cell. */
  lemma LoadWrittenLine(u: Table, k: int, b: int, v: real, valueText: real -> string, parseValue: string -> Option<real>)
    requires k in u && InInt32(k) && InInt32(b)
    requires Separator !in valueText(v) && parseValue(valueText(v)) == Some(v)
    ensures LoadLine(u, Line(k, b, valueText, v), parseValue) == Success(SetCell(u, k, b, v))
  {
    SplitLine(k, b, valueText, v);
    ParseIntText(k);
    ParseIntText(b);
  }

  /** The text written for v holds no separator and is read back as v. */
  ghost predicate ValueRoundTrips(valueText: real -> string, parseValue: string -> Option<real>, v: real) {
    Separator !in valueText(v) && parseValue(valueText(v)) == Some(v)
  }

  /** Every value stored in the row survives being written and read back. */
  ghost predicate RowRoundTrips(row: Row, valueText: real -> string, parseValue: string -> Option<real>) {
    forall b :: b in row ==> ValueRoundTrips(valueText, parseValue, row[b])
  }

  /** Every value stored in the table survives being written and read back. */
  ghost predicate TableRoundTrips(t: Table, valueText: real -> string, parseValue: string -> Option<real>) {
    forall k :: k in t ==> RowRoundTrips(t[k], valueText, parseValue)
  }

  ghost predicate KeysInInt32(t: Table) {
    forall k :: k in t ==> InInt32(k) && forall b :: b in t[k] ==> InInt32(b)
  }

  /** Reading back a written row overwrites (or adds) its cells in that row. */
  lemma {:induction false} LoadWrittenRow(u: Table, k: int, row: Row, valueText: real -> string, parseValue: string -> Option<real>)
    requires k in u && InInt32(k) && forall b :: b in row ==> InInt32(b)
    requires RowRoundTrips(row, valueText, parseValue)
    ensures LoadLines(u, RowLines(k, row, valueText), parseValue) == Success(u[k := u[k] + row])
    decreases |row|
  {
    if row == map[] {
      assert u[k] + row == u[k];
      assert u[k := u[k]] == u;
    } else {
      var b := MinKey(row.Keys);
      var rest := row - {b};
      var line := Line(k, b, valueText, row[b]);
      var lines := RowLines(k, row, valueText);
      assert lines == [line] + RowLines(k, rest, valueText);
      LoadWrittenLine(u, k, b, row[b], valueText, parseValue);
      var u1 := SetCell(u, k, b, row[b]);
      LoadConcat(u, [line], RowLines(k, rest, valueText), parseValue);
      LoadWrittenRow(u1, k, rest, valueText, parseValue);
      RowOverlay(u, k, row, b);
    }
  }

  lemma RowOverlay(u: Table, k: int, row: Row, b: int)
    requires k in u && b in row
    ensures var u1 := SetCell(u, k, b, row[b]);
            u1[k := u1[k] + (row - {b})] == u[k := u[k] + row]
  {
    var u1 := SetCell(u, k, b, row[b]);
    assert u1[k] + (row - {b}) == u[k] + row;
  }

  /** Each row of `t` laid over the same row of `u`; rows of `u` not in `t` stay. */
  ghost function Overlay(u: Table, t: Table): (r: Table)
    ensures r.Keys == u.Keys
  {
    map k | k in u :: if k in t then u[k] + t[k] else u[k]
  }

  /** Reading back written rows lays each of them over the table read into. */
  lemma {:induction false} LoadWrittenTable(u: Table, t: Table, valueText: real -> string, parseValue: string -> Option<real>)
    requires t.Keys <= u.Keys && KeysInInt32(t)
    requires TableRoundTrips(t, valueText, parseValue)
    ensures LoadLines(u, TableLines(t, valueText), parseValue) == Success(Overlay(u, t))
    decreases |t|
  {
    if t == map[] {
      assert Overlay(u, t) == u;
    } else {
      var k := MinKey(t.Keys);
      var rest := t - {k};
      var rowLines := RowLines(k, t[k], valueText);
      assert TableLines(t, valueText) == rowLines + TableLines(rest, valueText);
      LoadWrittenRow(u, k, t[k], valueText, parseValue);
      LoadConcat(u, rowLines, TableLines(rest, valueText), parseValue);
      var u1 := u[k := u[k] + t[k]];
      LoadWrittenTable(u1, rest, valueText, parseValue);
      TableOverlay(u, t, k);
    }
  }

  lemma TableOverlay(u: Table, t: Table, k: int)
    requires t.Keys <= u.Keys && k in t
    ensures Overlay(u[k := u[k] + t[k]], t - {k}) == Overlay(u, t)
  {
  }

  lemma GridKeysInInt32(t: Table)
    requires WellShaped(t)
    ensures KeysInInt32(t)
  {
    forall k | k in t
      ensures InInt32(k) && forall b :: b in t[k] ==> InInt32(b)
    {
      assert k in BalanceKeys();
      forall b | b in t[k] ensures InInt32(b) {
        assert b in BetKeys();
      }
    }
  }

  /** Laying a well-shaped table over the initial table gives that table. */
  lemma OverlayInitial(t: Table)
    requires WellShaped(t)
    ensures Overlay(InitialTable(), t) == t
  {
    InitialTableShape();
    forall k | k in t ensures InitialTable()[k] + t[k] == t[k] {
      assert InitialTable()[k].Keys == t[k].Keys;
    }
  }

  /** LoadModel(SaveModel()) restores a well-shaped table, starting from the
      freshly initialised table that LoadModel reads into. */
  lemma SaveLoadRoundTrip(t: Table, valueText: real -> string, parseValue: string -> Option<real>)
    requires WellShaped(t)
    requires TableRoundTrips(t, valueText, parseValue)
    ensures LoadLines(InitialTable(), TableLines(t, valueText), parseValue) == Success(t)
  {
    InitialTableShape();
    GridKeysInInt32(t);
    LoadWrittenTable(InitialTable(), t, valueText, parseValue);
    OverlayInitial(t);
  }
  // ---- line count and a table that meets the round-trip hypothesis -----------

  /** A table whose rows all hold n cells is written as n lines per row. */
  lemma {:induction false} TableLinesCount(t: Table, valueText: real -> string, n: nat)
    requires forall k :: k in t ==> |t[k]| == n
    ensures |TableLines(t, valueText)| == n * |t|
    decreases |t|
  {
    if t != map[] {
      var k := MinKey(t.Keys);
      var rest := t - {k};
      TableLinesFirst(t, valueText);
      assert t.Keys == rest.Keys + {k} && k !in rest.Keys;
      assert |t.Keys| == |rest.Keys| + 1;
      TableLinesCount(rest, valueText, n);
      assert |TableLines(t, valueText)| == n + n * |rest|;
      OneMoreRow(n, |rest|, |t|);
    }
  }

  lemma OneMoreRow(n: nat, before: nat, after: nat)
    requires after == before + 1
    ensures n + n * before == n * after
  {
  }

  /** SaveModel writes one line per cell: 1000 rows of 50 bets give 50,000 lines. */
  lemma SavedLineCount(t: Table, valueText: real -> string)
    requires WellShaped(t)
    ensures |TableLines(t, valueText)| == 50000
  {
    KeyCounts();
    forall k | k in t
      ensures |t[k]| == 50
    {
      assert t[k].Keys == BetKeys();
    }
    TableLinesCount(t, valueText, 50);
  }

  /** The text .NET writes for the double 0. */
  function ZeroText(v: real): string {
    "0"
  }

  function ZeroParse(s: string): Option<real> {
    if s == "0" then Some(0.0) else None
  }

  /** The round-trip hypothesis can be met: the all-zero table, written with
      the text "0" for each cell, is read back as itself. */
  lemma SaveLoadZeroTable()
    ensures LoadLines(InitialTable(), TableLines(InitialTable(), ZeroText), ZeroParse) == Success(InitialTable())
  {
    InitialTableShape();
    forall k | k in InitialTable()
      ensures RowRoundTrips(InitialTable()[k], ZeroText, ZeroParse)
    {
      forall b | b in InitialTable()[k]
        ensures ValueRoundTrips(ZeroText, ZeroParse, InitialTable()[k][b])
      {
        assert InitialTable()[k][b] == 0.0;
      }
    }
    SaveLoadRoundTrip(InitialTable(), ZeroText, ZeroParse);
  }
}
