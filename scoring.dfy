/**
 * The payline evaluator of logic/scoring.ts.
 *
 * `EvaluateGrid` is the imperative evaluator, loop for loop; `Evaluate` is its
 * specification, built from one payline per row. The method is proved equal to
 * the specification, and the lemmas below state what the specification means.
 */
module Scoring {
  import opened Wrappers

  /** The symbol alphabet. The evaluator singles out the wild and the scatter
      symbol; every other symbol type is a plain line symbol with a name. */
  datatype SymbolType = Wild | Scatter | Plain(name: string)

  /** One grid cell: its identity (unique within a grid) and its symbol type. */
  datatype Symbol = Symbol(id: string, kind: SymbolType)

  type Grid = seq<seq<Symbol>>

  /** Payout by symbol type and match length. */
  type PayTable = map<SymbolType, map<nat, int>>

  /** What the evaluator returns. */
  datatype Evaluation = Evaluation(winningSymbols: set<string>, totalWin: int, scatterCount: nat)

  /** What one payline adds to an evaluation: a payout and the ids it highlights. */
  datatype LineWin = LineWin(payout: int, ids: set<string>)

  /** `rows` rows of `cols >= 1` cells each. */
  predicate Shaped(grid: Grid, rows: nat, cols: nat) {
    |grid| == rows && 1 <= cols && forall r :: 0 <= r < rows ==> |grid[r]| == cols
  }

  predicate RowsNonEmpty(grid: Grid) {
    forall r :: 0 <= r < |grid| ==> 1 <= |grid[r]|
  }

  /** The table entry for `n` symbols of type `t`. A missing entry reads as 0. */
  function Payout(table: PayTable, t: SymbolType, n: nat): int {
    if t in table && n in table[t] then table[t][n] else 0
  }

  // ---------------------------------------------------------------------------
  // Scatters

  /** The grid's cells, row after row (`grid.flat()`). */
  function Flatten(grid: Grid): seq<Symbol> {
    if grid == [] then [] else Flatten(grid[..|grid| - 1]) + grid[|grid| - 1]
  }

  /** A cell is in the flattened grid exactly when it is in one of its rows. */
  lemma {:induction false} FlattenCells(grid: Grid)
    ensures forall r, c :: 0 <= r < |grid| && 0 <= c < |grid[r]| ==> grid[r][c] in Flatten(grid)
    ensures forall x :: x in Flatten(grid) ==> exists r, c :: 0 <= r < |grid| && 0 <= c < |grid[r]| && grid[r][c] == x
  {
    if grid != [] {
      var init := grid[..|grid| - 1];
      FlattenCells(init);
      assert forall r :: 0 <= r < |init| ==> init[r] == grid[r];
    }
  }

  function ScatterCount(cells: seq<Symbol>): nat {
    if cells == [] then 0
    else ScatterCount(cells[..|cells| - 1]) + (if cells[|cells| - 1].kind == Scatter then 1 else 0)
  }

  /** The ids of the scatter cells. */
  function ScatterIds(cells: seq<Symbol>): set<string> {
    if cells == [] then {}
    else
      var last := cells[|cells| - 1];
      ScatterIds(cells[..|cells| - 1]) + (if last.kind == Scatter then {last.id} else {})
  }

  lemma {:induction false} ScatterIdsMembership(cells: seq<Symbol>)
    ensures forall id :: id in ScatterIds(cells) <==> exists i :: 0 <= i < |cells| && cells[i].kind == Scatter && cells[i].id == id
  {
    if cells != [] {
      var init := cells[..|cells| - 1];
      ScatterIdsMembership(init);
      assert forall i :: 0 <= i < |init| ==> init[i] == cells[i];
    }
  }

  // ---------------------------------------------------------------------------
  // One payline

  /** A run of cells can form one payline: its non-wild cells all have one type. */
  predicate Consistent(line: seq<Symbol>) {
    forall i, j :: 0 <= i < |line| && 0 <= j < |line| && line[i].kind != Wild && line[j].kind != Wild ==>
      line[i].kind == line[j].kind
  }

  /** The type a run pays as: its first non-wild type, or Wild when every cell is wild. */
  function EffectiveType(line: seq<Symbol>): SymbolType {
    if line == [] then Wild
    else if line[0].kind != Wild then line[0].kind
    else EffectiveType(line[1..])
  }

  /** A run's type is Wild exactly when all its cells are wild; otherwise it is
      the type of a cell that only wilds precede. */
  lemma {:induction false} EffectiveTypeIsFirstNonWild(line: seq<Symbol>)
    ensures EffectiveType(line) == Wild <==> forall i :: 0 <= i < |line| ==> line[i].kind == Wild
    ensures EffectiveType(line) != Wild ==>
      exists i :: 0 <= i < |line| && line[i].kind == EffectiveType(line) && forall j :: 0 <= j < i ==> line[j].kind == Wild
  {
    if line != [] && line[0].kind == Wild {
      var tail := line[1..];
      EffectiveTypeIsFirstNonWild(tail);
      assert forall i :: 1 <= i < |line| ==> line[i] == tail[i - 1];
      if EffectiveType(tail) != Wild {
        var i :| 0 <= i < |tail| && tail[i].kind == EffectiveType(tail) && forall j :: 0 <= j < i ==> tail[j].kind == Wild;
        assert line[i + 1].kind == EffectiveType(line);
        assert forall j :: 1 <= j < i + 1 ==> line[j] == tail[j - 1];
      }
    }
  }

  /** The evaluator's `currentMatch_Type`: null while only wilds have been seen. */
  function MatchType(line: seq<Symbol>): Option<SymbolType> {
    if EffectiveType(line) == Wild then None else Some(EffectiveType(line))
  }

  /** The evaluator's `symbolMatches` test for the cell after `line`. */
  predicate Extends(line: seq<Symbol>, x: Symbol) {
    x.kind == Wild || EffectiveType(line) == Wild || x.kind == EffectiveType(line)
  }

  /** A consistent run stays consistent with one more cell exactly when the
      evaluator's match test accepts that cell. */
  lemma ExtendRun(line: seq<Symbol>, x: Symbol)
    requires Consistent(line)
    ensures Consistent(line + [x]) <==> Extends(line, x)
  {
    var s := line + [x];
    var n := |line|;
    assert forall i :: 0 <= i < n ==> s[i] == line[i];
    assert s[n] == x;
    var t := EffectiveType(line);
    EffectiveTypeIsFirstNonWild(line);
    if Extends(line, x) {
      if t != Wild && x.kind != Wild {
        var w :| 0 <= w < n && line[w].kind == t;
        forall i, j | 0 <= i < |s| && 0 <= j < |s| && s[i].kind != Wild && s[j].kind != Wild
          ensures s[i].kind == s[j].kind
        {
          if i < n { assert s[i].kind == line[w].kind; }
          if j < n { assert s[j].kind == line[w].kind; }
        }
      }
    } else {
      var w :| 0 <= w < n && line[w].kind == t;
      assert s[w].kind != Wild && s[n].kind != Wild && s[w].kind != s[n].kind;
    }
  }

  /** Once a run's type is fixed by a non-wild cell, later cells do not change it. */
  lemma EffectiveTypeLocks(line: seq<Symbol>, rest: seq<Symbol>)
    requires EffectiveType(line) != Wild
    ensures EffectiveType(line + rest) == EffectiveType(line)
  {
    var s := line + rest;
    assert forall i :: 0 <= i < |line| ==> s[i] == line[i];
    EffectiveTypeIsFirstNonWild(line);
    EffectiveTypeIsFirstNonWild(s);
    var t := EffectiveType(line);
    var w :| 0 <= w < |line| && line[w].kind == t && forall j :: 0 <= j < w ==> line[j].kind == Wild;
    var u := EffectiveType(s);
    assert s[w].kind != Wild;
    var v :| 0 <= v < |s| && s[v].kind == u && forall j :: 0 <= j < v ==> s[j].kind == Wild;
    assert v == w;
  }

  /** While only wilds have been seen, the first non-wild cell fixes the type. */
  lemma EffectiveTypeUnlocked(line: seq<Symbol>, x: Symbol)
    requires EffectiveType(line) == Wild
    ensures EffectiveType(line + [x]) == x.kind
  {
    var s := line + [x];
    assert forall i :: 0 <= i < |line| ==> s[i] == line[i];
    assert s[|line|] == x;
    EffectiveTypeIsFirstNonWild(line);
    EffectiveTypeIsFirstNonWild(s);
  }

  lemma ConsistentPrefix(line: seq<Symbol>, n: nat)
    requires n <= |line| && Consistent(line)
    ensures Consistent(line[..n])
  {
  }

  /** Extend a consistent prefix of `k` cells for as long as it stays consistent. */
  function RunFrom(row: seq<Symbol>, k: nat): (n: nat)
    requires 1 <= k <= |row|
    ensures k <= n <= |row|
    decreases |row| - k
  {
    if k < |row| && Consistent(row[..k + 1]) then RunFrom(row, k + 1) else k
  }

  /** Extending stops at a consistent prefix that is the whole row or cannot take the next cell. */
  lemma {:induction false} RunFromIsMaximal(row: seq<Symbol>, k: nat)
    requires 1 <= k <= |row| && Consistent(row[..k])
    ensures Consistent(row[..RunFrom(row, k)])
    ensures RunFrom(row, k) < |row| ==> !Consistent(row[..RunFrom(row, k) + 1])
    decreases |row| - k
  {
    if k < |row| && Consistent(row[..k + 1]) {
      RunFromIsMaximal(row, k + 1);
    }
  }

  /** The length of the row's candidate payline: the longest consistent prefix. */
  function RunLength(row: seq<Symbol>): (n: nat)
    requires 1 <= |row|
    ensures 1 <= n <= |row|
  {
    RunFrom(row, 1)
  }

  /** The run is consistent, and the next cell (if any) would break it. */
  lemma RunLengthIsMaximal(row: seq<Symbol>)
    requires 1 <= |row|
    ensures Consistent(row[..RunLength(row)])
    ensures RunLength(row) < |row| ==> !Consistent(row[..RunLength(row) + 1])
  {
    RunFromIsMaximal(row, 1);
  }

  /** Every prefix up to the run is consistent and no longer prefix is: the
      run is the prefix `row[..k)` and no column is skipped. */
  lemma RunIsLongestConsistentPrefix(row: seq<Symbol>, n: nat)
    requires 1 <= n <= |row|
    ensures Consistent(row[..n]) <==> n <= RunLength(row)
  {
    var k := RunLength(row);
    RunLengthIsMaximal(row);
    if n <= k {
      ConsistentPrefix(row[..k], n);
      assert row[..k][..n] == row[..n];
    }
  }

  /** The only length satisfying RunLength's contract is RunLength itself. */
  lemma RunLengthUnique(row: seq<Symbol>, n: nat)
    requires 1 <= n <= |row| && Consistent(row[..n])
    requires n < |row| ==> !Consistent(row[..n + 1])
    ensures n == RunLength(row)
  {
    RunIsLongestConsistentPrefix(row, n);
    if n < RunLength(row) {
      RunIsLongestConsistentPrefix(row, n + 1);
    }
  }

  /** The run stops at the first column whose cell fails the evaluator's
      match test, and every column before it passes that test. */
  lemma RunStopsAtFirstMismatch(row: seq<Symbol>)
    requires 1 <= |row|
    ensures forall c :: 1 <= c < RunLength(row) ==> Extends(row[..c], row[c])
    ensures RunLength(row) < |row| ==> !Extends(row[..RunLength(row)], row[RunLength(row)])
  {
    var k := RunLength(row);
    RunLengthIsMaximal(row);
    forall c | 1 <= c < k
      ensures Extends(row[..c], row[c])
    {
      RunIsLongestConsistentPrefix(row, c);
      RunIsLongestConsistentPrefix(row, c + 1);
      assert row[..c] + [row[c]] == row[..c + 1];
      ExtendRun(row[..c], row[c]);
    }
    if k < |row| {
      assert row[..k] + [row[k]] == row[..k + 1];
      ExtendRun(row[..k], row[k]);
    }
  }

  /** The type the row's payline pays as (the evaluator's `effectiveType`). */
  function LineType(row: seq<Symbol>): SymbolType
    requires 1 <= |row|
  {
    EffectiveType(row[..RunLength(row)])
  }

  /** The row's payline is long enough and its table entry is non-zero. */
  predicate Qualifies(row: seq<Symbol>, table: PayTable)
    requires 1 <= |row|
  {
    RunLength(row) >= 3 && Payout(table, LineType(row), RunLength(row)) != 0
  }

  /** The ids of the cells of a run. */
  function IdsOf(line: seq<Symbol>): set<string> {
    if line == [] then {} else IdsOf(line[..|line| - 1]) + {line[|line| - 1].id}
  }

  /** The ids of a run are exactly its cells' ids. */
  lemma {:induction false} IdsOfMembership(line: seq<Symbol>)
    ensures forall id :: id in IdsOf(line) <==> exists i :: 0 <= i < |line| && line[i].id == id
  {
    if line != [] {
      var init := line[..|line| - 1];
      IdsOfMembership(init);
      assert forall i :: 0 <= i < |init| ==> init[i] == line[i];
    }
  }

  function RunIds(row: seq<Symbol>): set<string>
    requires 1 <= |row|
  {
    IdsOf(row[..RunLength(row)])
  }

  /** What one row contributes to an evaluation. */
  function RowLine(row: seq<Symbol>, table: PayTable): LineWin
    requires 1 <= |row|
  {
    if Qualifies(row, table) then LineWin(Payout(table, LineType(row), RunLength(row)), RunIds(row))
    else LineWin(0, {})
  }

  /** The paylines of the first `n` rows, summed. */
  function Lines(grid: Grid, table: PayTable, n: nat): LineWin
    requires RowsNonEmpty(grid) && n <= |grid|
  {
    if n == 0 then LineWin(0, {})
    else
      var before := Lines(grid, table, n - 1);
      var line := RowLine(grid[n - 1], table);
      LineWin(before.payout + line.payout, before.ids + line.ids)
  }

  /** The result `evaluateGrid` returns for a fully populated grid. */
  function Evaluate(grid: Grid, table: PayTable): Evaluation
    requires RowsNonEmpty(grid)
  {
    var cells := Flatten(grid);
    var lines := Lines(grid, table, |grid|);
    Evaluation(ScatterIds(cells) + lines.ids, lines.payout, ScatterCount(cells))
  }

  // ---------------------------------------------------------------------------
  // What the evaluation means

  /** A row's ids are in the lines' winning set exactly when that row qualifies. */
  lemma {:induction false} LinesIds(grid: Grid, table: PayTable, n: nat)
    requires RowsNonEmpty(grid) && n <= |grid|
    ensures forall id :: id in Lines(grid, table, n).ids <==>
      exists r :: 0 <= r < n && Qualifies(grid[r], table) && id in RunIds(grid[r])
  {
    if n > 0 {
      LinesIds(grid, table, n - 1);
    }
  }

  /** Every scatter cell is highlighted, wherever it stands. */
  lemma ScatterCellsWin(grid: Grid, table: PayTable, r: nat, c: nat)
    requires RowsNonEmpty(grid) && r < |grid| && c < |grid[r]| && grid[r][c].kind == Scatter
    ensures grid[r][c].id in Evaluate(grid, table).winningSymbols
  {
    FlattenCells(grid);
    ScatterIdsMembership(Flatten(grid));
    var cells := Flatten(grid);
    var i :| 0 <= i < |cells| && cells[i] == grid[r][c];
  }

  /** An id is highlighted exactly when it is the id of a scatter cell or of a
      cell in the payline of a qualifying row. */
  lemma WinningSymbolsAccounted(grid: Grid, table: PayTable, id: string)
    requires RowsNonEmpty(grid)
    ensures id in Evaluate(grid, table).winningSymbols <==>
      (exists r, c :: 0 <= r < |grid| && 0 <= c < |grid[r]| && grid[r][c].kind == Scatter && grid[r][c].id == id) ||
      (exists r :: 0 <= r < |grid| && Qualifies(grid[r], table) && id in RunIds(grid[r]))
  {
    var cells := Flatten(grid);
    FlattenCells(grid);
    ScatterIdsMembership(cells);
    LinesIds(grid, table, |grid|);
    if id in ScatterIds(cells) {
      var i :| 0 <= i < |cells| && cells[i].kind == Scatter && cells[i].id == id;
      assert cells[i] in cells;
    }
    if exists r, c :: 0 <= r < |grid| && 0 <= c < |grid[r]| && grid[r][c].kind == Scatter && grid[r][c].id == id {
      var r, c :| 0 <= r < |grid| && 0 <= c < |grid[r]| && grid[r][c].kind == Scatter && grid[r][c].id == id;
      ScatterCellsWin(grid, table, r, c);
    }
  }

  lemma {:induction false} ScatterCountAppend(a: seq<Symbol>, b: seq<Symbol>)
    ensures ScatterCount(a + b) == ScatterCount(a) + ScatterCount(b)
  {
    if b == [] {
      assert a + b == a;
    } else {
      assert (a + b)[..|a + b| - 1] == a + b[..|b| - 1];
      ScatterCountAppend(a, b[..|b| - 1]);
    }
  }

  lemma {:induction false} ScatterCountSamePattern(a: seq<Symbol>, b: seq<Symbol>)
    requires |a| == |b|
    requires forall i :: 0 <= i < |a| ==> (a[i].kind == Scatter <==> b[i].kind == Scatter)
    ensures ScatterCount(a) == ScatterCount(b)
  {
    if a != [] {
      ScatterCountSamePattern(a[..|a| - 1], b[..|b| - 1]);
    }
  }

  /** The scatter count depends only on where the scatters are: two grids of
      the same shape with scatters in the same cells have the same count,
      whatever the other cells hold. */
  lemma {:induction false} ScatterCountByPosition(g1: Grid, g2: Grid, table: PayTable)
    requires RowsNonEmpty(g1) && |g1| == |g2|
    requires forall r :: 0 <= r < |g1| ==> |g1[r]| == |g2[r]|
    requires forall r, c :: 0 <= r < |g1| && 0 <= c < |g1[r]| ==> (g1[r][c].kind == Scatter <==> g2[r][c].kind == Scatter)
    ensures RowsNonEmpty(g2)
    ensures Evaluate(g1, table).scatterCount == Evaluate(g2, table).scatterCount
  {
    FlattenScatters(g1, g2);
  }

  lemma {:induction false} FlattenScatters(g1: Grid, g2: Grid)
    requires |g1| == |g2|
    requires forall r :: 0 <= r < |g1| ==> |g1[r]| == |g2[r]|
    requires forall r, c :: 0 <= r < |g1| && 0 <= c < |g1[r]| ==> (g1[r][c].kind == Scatter <==> g2[r][c].kind == Scatter)
    ensures ScatterCount(Flatten(g1)) == ScatterCount(Flatten(g2))
  {
    if g1 != [] {
      var n := |g1| - 1;
      FlattenScatters(g1[..n], g2[..n]);
      ScatterCountAppend(Flatten(g1[..n]), g1[n]);
      ScatterCountAppend(Flatten(g2[..n]), g2[n]);
      ScatterCountSamePattern(g1[n], g2[n]);
    }
  }

  /** A row whose first `count` cells are all of one non-wild type `t`, with
      the next cell (if any) neither `t` nor wild, has a payline of exactly
      `count` cells of type `t`, paid at `t`'s entry for that length. */
  lemma UniformPrefixRun(row: seq<Symbol>, t: SymbolType, count: nat, table: PayTable)
    requires 1 <= count <= |row| && t != Wild
    requires forall i :: 0 <= i < count ==> row[i].kind == t
    requires count < |row| ==> row[count].kind != t && row[count].kind != Wild
    ensures RunLength(row) == count && LineType(row) == t
    ensures count >= 3 ==> RowLine(row, table).payout == Payout(table, t, count)
    ensures count >= 3 && Payout(table, t, count) != 0 ==> RowLine(row, table).ids == IdsOf(row[..count])
  {
    assert row[..count][0] == row[0];
    if count < |row| {
      assert row[..count + 1] == row[..count] + [row[count]];
      ExtendRun(row[..count], row[count]);
    }
    RunLengthUnique(row, count);
  }

  /** A payline made only of wilds pays at the wild type's entry for its length. */
  lemma AllWildLinePaysWild(row: seq<Symbol>, table: PayTable)
    requires 1 <= |row|
    requires forall i :: 0 <= i < RunLength(row) ==> row[i].kind == Wild
    ensures LineType(row) == Wild
    ensures RunLength(row) >= 3 ==> RowLine(row, table).payout == Payout(table, Wild, RunLength(row))
  {
    var k := RunLength(row);
    assert forall i :: 0 <= i < k ==> row[..k][i] == row[i];
    EffectiveTypeIsFirstNonWild(row[..k]);
  }

  /** A row made only of wilds is one payline across the whole row. */
  lemma AllWildRow(row: seq<Symbol>)
    requires 1 <= |row|
    requires forall i :: 0 <= i < |row| ==> row[i].kind == Wild
    ensures RunLength(row) == |row|
  {
    RunIsLongestConsistentPrefix(row, |row|);
  }

  /** Wilds at the head of a row do not end the payline at the first non-wild
      cell: that cell joins the line and fixes its type. */
  lemma WildPrefixAdoptsNextType(row: seq<Symbol>, w: nat)
    requires 1 <= w < |row|
    requires forall i :: 0 <= i < w ==> row[i].kind == Wild
    requires row[w].kind != Wild
    ensures RunLength(row) > w && LineType(row) == row[w].kind
  {
    assert forall i :: 0 <= i < w ==> row[..w][i] == row[i];
    assert row[..w + 1] == row[..w] + [row[w]];
    ExtendRun(row[..w], row[w]);
    RunIsLongestConsistentPrefix(row, w + 1);
    var k := RunLength(row);
    assert forall i :: 0 <= i < w + 1 ==> row[..k][i] == row[..w + 1][i];
    assert row[..k][..w + 1] == row[..w + 1];
    assert EffectiveType(row[..w + 1]) == row[w].kind by {
      EffectiveTypeIsFirstNonWild(row[..w]);
      EffectiveTypeUnlocked(row[..w], row[w]);
    }
    EffectiveTypeLocks(row[..w + 1], row[..k][w + 1..]);
    assert row[..k] == row[..w + 1] + row[..k][w + 1..];
  }

  /** With a pay table of non-negative entries the total win is non-negative. */
  lemma {:induction false} TotalWinNonNegative(grid: Grid, table: PayTable, n: nat)
    requires RowsNonEmpty(grid) && n <= |grid|
    requires forall t, k :: t in table && k in table[t] ==> table[t][k] >= 0
    ensures Lines(grid, table, n).payout >= 0
  {
    if n > 0 {
      TotalWinNonNegative(grid, table, n - 1);
    }
  }

  /** A single row of three equal plain symbols, with the table paying 50 for
      three of them, wins 50 and highlights all three cells. */
  lemma ThreeOfAKind(a: Symbol, b: Symbol, c: Symbol, name: string)
    requires a.kind == b.kind == c.kind == Plain(name)
    ensures Evaluate([[a, b, c]], map[Plain(name) := map[3 := 50]]) == Evaluation({a.id, b.id, c.id}, 50, 0)
  {
    var row := [a, b, c];
    var grid := [row];
    var table := map[Plain(name) := map[3 := 50]];
    UniformPrefixRun(row, Plain(name), 3, table);
    assert row[..3] == row;
    assert IdsOf(row) == {a.id, b.id, c.id} by {
      assert row[..2] == [a, b] && [a, b][..1] == [a] && [a][..0] == [];
      assert IdsOf([a]) == {a.id};
      assert IdsOf([a, b]) == {a.id, b.id};
    }
    assert RowLine(row, table) == LineWin(50, {a.id, b.id, c.id});
    assert Lines(grid, table, 1) == LineWin(50, {a.id, b.id, c.id});
    assert Flatten(grid) == row by {
      assert grid[..0] == [];
    }
    assert ScatterCount(row) == 0 && ScatterIds(row) == {} by {
      assert row[..2] == [a, b] && [a, b][..1] == [a] && [a][..0] == [];
      assert ScatterCount([a]) == 0 && ScatterIds([a]) == {};
      assert ScatterCount([a, b]) == 0 && ScatterIds([a, b]) == {};
    }
  }

  // ---------------------------------------------------------------------------
  // The evaluator

  /** The first-pass test of `findLongestMatch`: the cell is the target or wild. */
  predicate Fits(s: Symbol, target: SymbolType) {
    s.kind == target || s.kind == Wild
  }

  /** `id` belongs to the first cell of column `col` that fits `target`. */
  predicate ColumnPick(grid: Grid, col: nat, target: SymbolType, id: string) {
    exists r :: 0 <= r < |grid| && col < |grid[r]| && Fits(grid[r][col], target) && grid[r][col].id == id &&
      forall q :: 0 <= q < r && col < |grid[q]| ==> !Fits(grid[q][col], target)
  }

  /** The helper of the discarded first pass: from the start cell, take in each
      following column the first cell that fits, until a column has none. */
  method FindLongestMatch(grid: Grid, rows: nat, cols: nat, startRow: nat, startCol: nat, targetType: SymbolType)
    returns (line: seq<string>)
    requires Shaped(grid, rows, cols) && startRow < rows && startCol < cols
    ensures !Fits(grid[startRow][startCol], targetType) ==> line == []
    ensures Fits(grid[startRow][startCol], targetType) ==>
      1 <= |line| <= cols - startCol && line[0] == grid[startRow][startCol].id
    ensures forall k :: 1 <= k < |line| ==> ColumnPick(grid, startCol + k, targetType, line[k])
    ensures Fits(grid[startRow][startCol], targetType) && startCol + |line| < cols ==>
      forall r :: 0 <= r < rows ==> !Fits(grid[r][startCol + |line|], targetType)
  {
    var start := grid[startRow][startCol];
    if !(start.kind == targetType || start.kind == Wild) {
      return [];
    }
    line := [start.id];
    var col := startCol + 1;
    while col < cols
      invariant startCol + 1 <= col <= cols
      invariant |line| == col - startCol && line[0] == start.id
      invariant forall k :: 1 <= k < |line| ==> ColumnPick(grid, startCol + k, targetType, line[k])
    {
      var before := line;
      var foundMatchInCol := false;
      var row := 0;
      while row < rows
        invariant 0 <= row <= rows
        invariant line == before && !foundMatchInCol
        invariant forall q :: 0 <= q < row ==> !Fits(grid[q][col], targetType)
      {
        if grid[row][col].kind == targetType || grid[row][col].kind == Wild {
          line := line + [grid[row][col].id];
          foundMatchInCol := true;
          break;
        }
        row := row + 1;
      }
      if !foundMatchInCol {
        break;
      }
      assert ColumnPick(grid, col, targetType, grid[row][col].id);
      col := col + 1;
    }
  }

  /** The inner loop of the second pass: extend the payline from column 0
      while the next cell matches, fixing the type at the first non-wild cell. */
  method ScanLine(cells: seq<Symbol>, cols: nat) returns (symbolsInLine: seq<Symbol>, currentMatchType: Option<SymbolType>)
    requires 1 <= cols == |cells|
    ensures symbolsInLine == cells[..RunLength(cells)]
    ensures currentMatchType == MatchType(symbolsInLine)
  {
    symbolsInLine := [cells[0]];
    currentMatchType := if cells[0].kind == Wild then None else Some(cells[0].kind);
    assert cells[..1] == symbolsInLine && symbolsInLine[1..] == [];
    assert EffectiveType(symbolsInLine) == if cells[0].kind == Wild then Wild else cells[0].kind;
    for col := 1 to cols
      invariant symbolsInLine == cells[..col]
      invariant Consistent(symbolsInLine)
      invariant currentMatchType == MatchType(symbolsInLine)
    {
      var currentSymbol := cells[col];
      var symbolMatches :=
        Some(currentSymbol.kind) == currentMatchType ||
        currentSymbol.kind == Wild ||
        currentMatchType == None;
      assert cells[..col + 1] == symbolsInLine + [currentSymbol];
      ExtendRun(symbolsInLine, currentSymbol);
      if symbolMatches {
        if EffectiveType(symbolsInLine) == Wild {
          EffectiveTypeUnlocked(symbolsInLine, currentSymbol);
        } else {
          EffectiveTypeLocks(symbolsInLine, [currentSymbol]);
        }
        symbolsInLine := symbolsInLine + [currentSymbol];
        if currentMatchType == None && currentSymbol.kind != Wild {
          currentMatchType := Some(currentSymbol.kind);
        }
      } else {
        break;
      }
    }
    RunLengthUnique(cells, |symbolsInLine|);
  }

  /** The first pass of `evaluateGrid`: for every pay-table type but the
      scatter, score the line `findLongestMatch` finds from each row's first
      cell, adding to the running total and winning set. */
  method FirstPass(grid: Grid, table: PayTable, rows: nat, cols: nat, totalWin0: int, winning0: set<string>)
    returns (totalWin: int, winningSymbols: set<string>)
    requires Shaped(grid, rows, cols)
    ensures winning0 <= winningSymbols
  {
    totalWin, winningSymbols := totalWin0, winning0;
    var types := table.Keys;
    while types != {}
      invariant winning0 <= winningSymbols
      decreases types
    {
      var symbolType :| symbolType in types;
      types := types - {symbolType};
      if symbolType != Scatter {
        for row := 0 to rows
          invariant winning0 <= winningSymbols
        {
          var startingSymbol := grid[row][0];
          if startingSymbol.kind == symbolType || startingSymbol.kind == Wild {
            var line := FindLongestMatch(grid, rows, cols, row, 0, startingSymbol.kind);
            if |line| >= 3 {
              var payout := Payout(table, startingSymbol.kind, |line|);
              if payout > 0 {
                totalWin := totalWin + payout;
                for k := 0 to |line|
                  invariant winning0 <= winningSymbols
                {
                  winningSymbols := winningSymbols + {line[k]};
                }
              }
            }
          }
        }
      }
    }
  }

  /** One row of the second pass: scan its payline and, when the table pays
      for it, add the payout to the total and its cells to the winning set. */
  method ScoreRow(cells: seq<Symbol>, table: PayTable, cols: nat, totalWin0: int, winning0: set<string>)
    returns (totalWin: int, winningSymbols: set<string>)
    requires 1 <= cols == |cells|
    ensures totalWin == totalWin0 + RowLine(cells, table).payout
    ensures winningSymbols == winning0 + RowLine(cells, table).ids
  {
    totalWin, winningSymbols := totalWin0, winning0;
    var symbolsInLine, currentMatchType := ScanLine(cells, cols);
    assert LineType(cells) == if currentMatchType.Some? then currentMatchType.value else Wild;
    assert IdsOf(symbolsInLine) == RunIds(cells);

    if |symbolsInLine| >= 3 {
      var matchLength := |symbolsInLine|;
      var effectiveType := if currentMatchType.Some? then currentMatchType.value else Wild;
      var payout := Payout(table, effectiveType, matchLength);
      if payout != 0 {
        totalWin := totalWin + payout;
        ghost var before := winningSymbols;
        for k := 0 to |symbolsInLine|
          invariant winningSymbols == before + IdsOf(symbolsInLine[..k])
        {
          assert symbolsInLine[..k + 1][..k] == symbolsInLine[..k];
          winningSymbols := winningSymbols + {symbolsInLine[k].id};
        }
        assert symbolsInLine[..|symbolsInLine|] == symbolsInLine;
      }
    }
  }

  /** `evaluateGrid`: count and mark the scatters, run the discarded first
      pass, reset, mark the scatters again and score one payline per row. */
  method EvaluateGrid(grid: Grid, table: PayTable, rows: nat, cols: nat) returns (result: Evaluation)
    requires Shaped(grid, rows, cols)
    ensures RowsNonEmpty(grid) && result == Evaluate(grid, table)
  {
    var winningSymbols: set<string> := {};
    var totalWin: int := 0;
    var scatterCount: nat := 0;
    var symbolGrid := Flatten(grid);

    for i := 0 to |symbolGrid|
      invariant scatterCount == ScatterCount(symbolGrid[..i])
      invariant winningSymbols == ScatterIds(symbolGrid[..i])
    {
      assert symbolGrid[..i + 1][..i] == symbolGrid[..i];
      if symbolGrid[i].kind == Scatter {
        scatterCount := scatterCount + 1;
        winningSymbols := winningSymbols + {symbolGrid[i].id};
      }
    }
    assert symbolGrid[..|symbolGrid|] == symbolGrid;

    // The first pass; what it adds is thrown away just below.
    totalWin, winningSymbols := FirstPass(grid, table, rows, cols, totalWin, winningSymbols);

    totalWin := 0;
    winningSymbols := {};
    for i := 0 to |symbolGrid|
      invariant winningSymbols == ScatterIds(symbolGrid[..i])
    {
      assert symbolGrid[..i + 1][..i] == symbolGrid[..i];
      if symbolGrid[i].kind == Scatter {
        winningSymbols := winningSymbols + {symbolGrid[i].id};
      }
    }

    for row := 0 to rows
      invariant totalWin == Lines(grid, table, row).payout
      invariant winningSymbols == ScatterIds(symbolGrid) + Lines(grid, table, row).ids
    {
      totalWin, winningSymbols := ScoreRow(grid[row], table, cols, totalWin, winningSymbols);
    }
    result := Evaluation(winningSymbols, totalWin, scatterCount);
  }
}
