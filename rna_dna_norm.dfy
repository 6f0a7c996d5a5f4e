/**
 * The RNA/DNA normalisation tool: a table of feature rows is cut down to its
 * stratified rows (`remove_totals`), smoothed column by column in the manner
 * of Witten-Bell (`wbsmooth`), regrouped under per-feature summary rows
 * (`hsum`), and the RNA table is divided entry by entry by the DNA table.
 * Reading and writing the tables is not modelled; a table is its row names
 * and its rows of numbers.
 */
module RnaDnaNorm {
  import opened Wrappers
  import Strings
  import Grouping
  import MapSums

  /** `util.c_strat_delim`: the separator between a feature and its stratum. */
  const StratDelim: char := '|'

  /** `util.Table`: row names and the matching rows of numbers. */
  class Table {
    var rowheads: seq<string>
    var data: seq<seq<real>>

    constructor(rowheads: seq<string>, data: seq<seq<real>>)
      ensures this.rowheads == rowheads && this.data == data
    {
      this.rowheads := rowheads;
      this.data := data;
    }
  }

  /** One name per row, and every row as wide as the first. */
  predicate Shaped(heads: seq<string>, rows: seq<seq<real>>) {
    |heads| == |rows| && forall i :: 0 <= i < |rows| ==> |rows[i]| == |rows[0]|
  }

  /** The entries of `s` at the positions `idx`, in the order of `idx`. */
  function Select<T>(s: seq<T>, idx: seq<nat>): (r: seq<T>)
    requires forall k :: 0 <= k < |idx| ==> idx[k] < |s|
    ensures |r| == |idx|
  {
    seq(|idx|, k requires 0 <= k < |idx| => s[idx[k]])
  }

  lemma {:induction false} SelectStep<T>(s: seq<T>, idx: seq<nat>, k: nat)
    requires k < |idx| && forall j :: 0 <= j < |idx| ==> idx[j] < |s|
    ensures Select(s, idx[..k + 1]) == Select(s, idx[..k]) + [s[idx[k]]]
  {
  }

  // ---------------------------------------------------------------- remove_totals

  /** The positions of the stratified rows, in table order. */
  function StratifiedIndices(heads: seq<string>): (r: seq<nat>)
    ensures forall k :: 0 <= k < |r| ==> r[k] < |heads|
    decreases |heads|
  {
    if |heads| == 0 then []
    else StratifiedIndices(heads[..|heads| - 1]) + if StratDelim in heads[|heads| - 1] then [|heads| - 1] else []
  }

  /**
   * A row is kept exactly when its name holds the delimiter, and kept rows
   * stay in table order.
   */
  lemma {:induction false} StratifiedIndicesSpec(heads: seq<string>)
    ensures forall i :: i in StratifiedIndices(heads) <==> 0 <= i < |heads| && StratDelim in heads[i]
    ensures forall a, b :: 0 <= a < b < |StratifiedIndices(heads)| ==> StratifiedIndices(heads)[a] < StratifiedIndices(heads)[b]
    decreases |heads|
  {
    if |heads| > 0 {
      var prefix := heads[..|heads| - 1];
      StratifiedIndicesSpec(prefix);
      assert forall i :: 0 <= i < |prefix| ==> prefix[i] == heads[i];
    }
  }

  /** The row names left by `remove_totals` are exactly the stratified ones. */
  lemma {:induction false} RemoveTotalsNames(heads: seq<string>, name: string)
    ensures name in Select(heads, StratifiedIndices(heads)) <==> name in heads && StratDelim in name
  {
    var idx := StratifiedIndices(heads);
    var kept := Select(heads, idx);
    StratifiedIndicesSpec(heads);
    if name in heads && StratDelim in name {
      var i :| 0 <= i < |heads| && heads[i] == name;
      var k :| 0 <= k < |idx| && idx[k] == i;
      assert kept[k] == name;
    }
  }

  /** `remove_totals`: keeps the stratified rows, each with its own numbers. */
  method RemoveTotals(table: Table)
    requires |table.rowheads| == |table.data|
    modifies table
    ensures table.rowheads == Select(old(table.rowheads), StratifiedIndices(old(table.rowheads)))
    ensures table.data == Select(old(table.data), StratifiedIndices(old(table.rowheads)))
  {
    var heads, rows := table.rowheads, table.data;
    var rowheads2, data2 := [], [];
    var i := 0;
    while i < |heads|
      invariant 0 <= i <= |heads|
      invariant rowheads2 == Select(heads, StratifiedIndices(heads[..i]))
      invariant data2 == Select(rows, StratifiedIndices(heads[..i]))
    {
      assert heads[..i + 1][..i] == heads[..i];
      if StratDelim in heads[i] {
        rowheads2 := rowheads2 + [heads[i]];
        data2 := data2 + [rows[i]];
      }
      i := i + 1;
    }
    assert heads[..i] == heads;
    table.rowheads, table.data := rowheads2, data2;
  }

  // ---------------------------------------------------------------- wbsmooth

  /** The exceptions `wbsmooth` can raise. */
  datatype SmoothError =
    | EmptyTable              // `table.data[0]` on a table without rows (IndexError)
    | ZeroDivision(column: nat)  // a column whose sum and count of positive entries add up to 0

  /** Column `j` of rows at least `j + 1` wide. */
  function Column(rows: seq<seq<real>>, j: nat): (col: seq<real>)
    requires forall i :: 0 <= i < |rows| ==> j < |rows[i]|
    ensures |col| == |rows|
  {
    seq(|rows|, i requires 0 <= i < |rows| => rows[i][j])
  }

  /** How many entries are positive (`nonzero[j]` counts `value > 0`). */
  function CountPositive(s: seq<real>): (n: nat)
    ensures n <= |s|
    decreases |s|
  {
    if |s| == 0 then 0 else (if s[0] > 0.0 then 1 else 0) + CountPositive(s[1..])
  }

  lemma {:induction false} CountPositiveConcat(a: seq<real>, b: seq<real>)
    ensures CountPositive(a + b) == CountPositive(a) + CountPositive(b)
    decreases |a|
  {
    if |a| == 0 {
      assert a + b == b;
    } else {
      CountPositiveConcat(a[1..], b);
      assert (a + b)[1..] == a[1..] + b;
    }
  }

  /** A column's `norms[j]` and `epsilons[j]`. */
  datatype ColumnStats = ColumnStats(norm: real, epsilon: real)

  /**
   * With column sum `n`, `t` positive entries and `features` rows after
   * smoothing: `norm = N / (N + T)`, and `epsilon = norm * T / Z` with
   * `Z = features - T` when `Z > 0`, else 0. `None` when `N + T` is 0.
   */
  function Stats(n: real, t: nat, features: nat): Option<ColumnStats> {
    if n + t as real == 0.0 then None
    else
      var norm := n / (n + t as real);
      var z := features - t;
      Some(ColumnStats(norm, if z > 0 then norm * t as real / z as real else 0.0))
  }

  /** The statistics of column `j` of `rows`. */
  function ColumnStatsOf(rows: seq<seq<real>>, j: nat, features: nat): Option<ColumnStats>
    requires forall i :: 0 <= i < |rows| ==> j < |rows[i]|
  {
    Stats(MapSums.Sum(Column(rows, j)), CountPositive(Column(rows, j)), features)
  }

  /** The loop over the first `m` columns; the first column with `N + T == 0` raises. */
  function StatsUpTo(rows: seq<seq<real>>, m: nat, features: nat): (r: Result<seq<ColumnStats>, SmoothError>)
    requires forall i :: 0 <= i < |rows| ==> m <= |rows[i]|
    ensures r.Ok? ==> |r.value| == m
    ensures r.Err? ==> r.error.ZeroDivision?
    decreases m
  {
    if m == 0 then Ok([])
    else
      match StatsUpTo(rows, m - 1, features)
      case Err(e) => Err(e)
      case Ok(prev) =>
        match ColumnStatsOf(rows, m - 1, features)
        case None => Err(ZeroDivision(m - 1))
        case Some(st) => Ok(prev + [st])
  }

  /** Once a column has raised, the loop fails with that column's exception. */
  lemma {:induction false} StatsErrorPersists(rows: seq<seq<real>>, m: nat, w: nat, features: nat)
    requires m <= w && forall i :: 0 <= i < |rows| ==> w <= |rows[i]|
    requires StatsUpTo(rows, m, features).Err?
    ensures StatsUpTo(rows, w, features) == StatsUpTo(rows, m, features)
    decreases w - m
  {
    if m < w {
      StatsErrorPersists(rows, m + 1, w, features);
    }
  }

  /** The whole statistics pass of `wbsmooth`, including the empty-table error. */
  function TableStats(rows: seq<seq<real>>, features: nat): Result<seq<ColumnStats>, SmoothError>
    requires forall i :: 0 <= i < |rows| ==> |rows[i]| == |rows[0]|
  {
    if |rows| == 0 then Err(EmptyTable) else StatsUpTo(rows, |rows[0]|, features)
  }

  /** `rowmap = {rowhead: i for i, rowhead in enumerate(table.rowheads)}` */
  function RowMap(heads: seq<string>): (rowmap: map<string, nat>)
    ensures forall h :: h in rowmap <==> h in heads
    ensures forall h :: h in rowmap ==> rowmap[h] < |heads| && heads[rowmap[h]] == h
    decreases |heads|
  {
    if |heads| == 0 then map[]
    else RowMap(heads[..|heads| - 1])[heads[|heads| - 1] := |heads| - 1]
  }

  /** With distinct row names, the row map sends each name to its own row. */
  lemma {:induction false} RowMapDistinct(heads: seq<string>, i: nat)
    requires Grouping.Distinct(heads) && i < |heads|
    ensures RowMap(heads)[heads[i]] == i
  {
    var k := RowMap(heads)[heads[i]];
    assert heads[k] == heads[i];
  }

  /** A present row: a zero becomes the column's epsilon, anything else is scaled by its norm. */
  function SmoothValue(v: real, st: ColumnStats): real {
    if v == 0.0 then st.epsilon else v * st.norm
  }

  function SmoothRow(row: seq<real>, stats: seq<ColumnStats>): (r: seq<real>)
    requires |row| <= |stats|
    ensures |r| == |row|
  {
    seq(|row|, j requires 0 <= j < |row| => SmoothValue(row[j], stats[j]))
  }

  /** The row given to a feature absent from the table: `epsilons`. */
  function EpsilonRow(stats: seq<ColumnStats>): (r: seq<real>)
    ensures |r| == |stats|
  {
    seq(|stats|, j requires 0 <= j < |stats| => stats[j].epsilon)
  }

  /** The row `wbsmooth` gives to `feature`. */
  function SmoothedRow(feature: string, heads: seq<string>, rows: seq<seq<real>>, stats: seq<ColumnStats>): (r: seq<real>)
    requires |heads| == |rows| && forall i :: 0 <= i < |rows| ==> |rows[i]| == |stats|
    ensures |r| == |stats|
  {
    var rowmap := RowMap(heads);
    if feature in rowmap then SmoothRow(rows[rowmap[feature]], stats) else EpsilonRow(stats)
  }

  /** The rows after `wbsmooth`, one per feature of `features`, in that order. */
  function Smoothed(features: seq<string>, heads: seq<string>, rows: seq<seq<real>>, stats: seq<ColumnStats>): (r: seq<seq<real>>)
    requires |heads| == |rows| && forall i :: 0 <= i < |rows| ==> |rows[i]| == |stats|
    ensures |r| == |features| && forall k :: 0 <= k < |r| ==> |r[k]| == |stats|
  {
    seq(|features|, k requires 0 <= k < |features| => SmoothedRow(features[k], heads, rows, stats))
  }

  /** The first loop of `wbsmooth`: column sums and counts of positive entries. */
  method ColumnTotals(rows: seq<seq<real>>, w: nat) returns (colsums: seq<real>, nonzero: seq<nat>)
    requires forall i :: 0 <= i < |rows| ==> |rows[i]| == w
    ensures |colsums| == w && |nonzero| == w
    ensures forall j :: 0 <= j < w ==> colsums[j] == MapSums.Sum(Column(rows, j)) && nonzero[j] == CountPositive(Column(rows, j))
  {
    colsums := seq(w, j => 0.0);
    nonzero := seq(w, j => 0);
    var i := 0;
    while i < |rows|
      invariant 0 <= i <= |rows|
      invariant |colsums| == w && |nonzero| == w
      invariant forall j :: 0 <= j < w ==>
        colsums[j] == MapSums.Sum(Column(rows[..i], j)) && nonzero[j] == CountPositive(Column(rows[..i], j))
    {
      var j := 0;
      while j < w
        invariant 0 <= j <= w
        invariant |colsums| == w && |nonzero| == w
        invariant forall c :: 0 <= c < w ==>
          colsums[c] == MapSums.Sum(Column(rows[..(if c < j then i + 1 else i)], c)) &&
          nonzero[c] == CountPositive(Column(rows[..(if c < j then i + 1 else i)], c))
      {
        var value := rows[i][j];
        ColumnExtend(rows, i, j);
        nonzero := nonzero[j := nonzero[j] + if value > 0.0 then 1 else 0];
        colsums := colsums[j := colsums[j] + value];
        j := j + 1;
      }
      i := i + 1;
    }
    assert rows[..i] == rows;
  }

  /** Taking one more row into a column's sum and count. */
  lemma {:induction false} ColumnExtend(rows: seq<seq<real>>, i: nat, j: nat)
    requires i < |rows| && forall k :: 0 <= k < |rows| ==> j < |rows[k]|
    ensures MapSums.Sum(Column(rows[..i + 1], j)) == MapSums.Sum(Column(rows[..i], j)) + rows[i][j]
    ensures CountPositive(Column(rows[..i + 1], j)) == CountPositive(Column(rows[..i], j)) + if rows[i][j] > 0.0 then 1 else 0
  {
    var col := Column(rows[..i], j);
    assert Column(rows[..i + 1], j) == col + [rows[i][j]];
    MapSums.SumConcat(col, [rows[i][j]]);
    CountPositiveConcat(col, [rows[i][j]]);
  }

  /** The second loop of `wbsmooth`: norms and epsilons per column. */
  method ComputeStats(rows: seq<seq<real>>, w: nat, features: nat) returns (r: Result<seq<ColumnStats>, SmoothError>)
    requires forall i :: 0 <= i < |rows| ==> |rows[i]| == w
    ensures r == StatsUpTo(rows, w, features)
  {
    var colsums, nonzero := ColumnTotals(rows, w);
    var stats := [];
    var j := 0;
    while j < w
      invariant 0 <= j <= w
      invariant StatsUpTo(rows, j, features) == Ok(stats)
    {
      var st := Stats(colsums[j], nonzero[j], features);
      assert st == ColumnStatsOf(rows, j, features);
      if st.None? {
        r := Err(ZeroDivision(j));
        StatsErrorPersists(rows, j + 1, w, features);
        return;
      }
      stats := stats + [st.value];
      j := j + 1;
    }
    r := Ok(stats);
  }

  /** Count-like tables: no entry is negative. */
  predicate NonNegative(rows: seq<seq<real>>) {
    forall i, j :: 0 <= i < |rows| && 0 <= j < |rows[i]| ==> rows[i][j] >= 0.0
  }

  /**
   * The statistics pass succeeds exactly when no column has `N + T == 0`,
   * and then holds every column's statistics; otherwise it names the first
   * such column.
   */
  lemma {:induction false} StatsUpToSpec(rows: seq<seq<real>>, m: nat, features: nat)
    requires forall i :: 0 <= i < |rows| ==> m <= |rows[i]|
    ensures StatsUpTo(rows, m, features).Ok? <==> forall j :: 0 <= j < m ==> ColumnStatsOf(rows, j, features).Some?
    ensures StatsUpTo(rows, m, features).Ok? ==>
      forall j :: 0 <= j < m ==> StatsUpTo(rows, m, features).value[j] == ColumnStatsOf(rows, j, features).value
    ensures StatsUpTo(rows, m, features).Err? ==> var c := StatsUpTo(rows, m, features).error.column;
      c < m && ColumnStatsOf(rows, c, features).None? &&
      forall j :: 0 <= j < c ==> ColumnStatsOf(rows, j, features).Some?
    decreases m
  {
    if m > 0 {
      StatsUpToSpec(rows, m - 1, features);
    }
  }

  lemma {:induction false} SumNonNegative(s: seq<real>)
    requires forall i :: 0 <= i < |s| ==> s[i] >= 0.0
    ensures MapSums.Sum(s) >= 0.0
    ensures MapSums.Sum(s) == 0.0 <==> forall i :: 0 <= i < |s| ==> s[i] == 0.0
    decreases |s|
  {
    if |s| > 0 {
      SumNonNegative(s[1..]);
      assert forall i :: 1 <= i < |s| ==> s[i] == s[1..][i - 1];
    }
  }

  lemma {:induction false} NoPositiveMeansZero(s: seq<real>)
    requires forall i :: 0 <= i < |s| ==> s[i] >= 0.0
    ensures CountPositive(s) == 0 <==> forall i :: 0 <= i < |s| ==> s[i] == 0.0
    decreases |s|
  {
    if |s| > 0 {
      NoPositiveMeansZero(s[1..]);
      assert forall i :: 1 <= i < |s| ==> s[i] == s[1..][i - 1];
    }
  }

  /** With a non-negative sum `N`, `norm` lies in [0, 1] and `epsilon` is not negative. */
  lemma {:induction false} StatsBounds(n: real, t: nat, features: nat)
    requires n >= 0.0 && n + t as real != 0.0
    ensures Stats(n, t, features).Some?
    ensures 0.0 <= Stats(n, t, features).value.norm <= 1.0 && Stats(n, t, features).value.epsilon >= 0.0
  {
    var d := n + t as real;
    var norm := n / d;
    assert d > 0.0;
    assert norm * d == n;
    assert norm <= 1.0;
    if features - t > 0 {
      assert norm * t as real >= 0.0;
    }
  }

  /**
   * On a count-like table a column raises exactly when all its entries are
   * 0, and otherwise its norm lies in [0, 1] and its epsilon is not negative.
   */
  lemma {:induction false} ColumnStatsBounds(rows: seq<seq<real>>, j: nat, features: nat)
    requires NonNegative(rows) && forall i :: 0 <= i < |rows| ==> j < |rows[i]|
    ensures ColumnStatsOf(rows, j, features).None? <==> forall i :: 0 <= i < |rows| ==> rows[i][j] == 0.0
    ensures ColumnStatsOf(rows, j, features).Some? ==>
      var st := ColumnStatsOf(rows, j, features).value;
      0.0 <= st.norm <= 1.0 && st.epsilon >= 0.0
  {
    var col := Column(rows, j);
    assert forall i :: 0 <= i < |col| ==> col[i] == rows[i][j];
    SumNonNegative(col);
    NoPositiveMeansZero(col);
    var n, t := MapSums.Sum(col), CountPositive(col);
    if n + t as real != 0.0 {
      StatsBounds(n, t, features);
    } else {
      assert n == 0.0 && t == 0;
    }
  }

  /** Smoothing a count-like table gives no negative entry. */
  lemma {:induction false} SmoothedNonNegative(features: seq<string>, heads: seq<string>, rows: seq<seq<real>>)
    requires Shaped(heads, rows) && NonNegative(rows)
    requires TableStats(rows, |features|).Ok?
    ensures NonNegative(Smoothed(features, heads, rows, TableStats(rows, |features|).value))
  {
    var stats := TableStats(rows, |features|).value;
    StatsUpToSpec(rows, |rows[0]|, |features|);
    forall j | 0 <= j < |stats| ensures stats[j].norm >= 0.0 && stats[j].epsilon >= 0.0 {
      ColumnStatsBounds(rows, j, |features|);
    }
  }

  /** The smoothed entries of one column of the table, row by row. */
  function SmoothColumn(col: seq<real>, st: ColumnStats): (r: seq<real>)
    ensures |r| == |col|
  {
    seq(|col|, i requires 0 <= i < |col| => SmoothValue(col[i], st))
  }

  /** How many entries are 0, as a real number. */
  function Zeros(s: seq<real>): real
    decreases |s|
  {
    if |s| == 0 then 0.0 else (if s[0] == 0.0 then 1.0 else 0.0) + Zeros(s[1..])
  }

  /** In a count-like column every entry is either 0 or positive. */
  lemma {:induction false} ZerosCount(col: seq<real>)
    requires forall i :: 0 <= i < |col| ==> col[i] >= 0.0
    ensures Zeros(col) + CountPositive(col) as real == |col| as real
    decreases |col|
  {
    if |col| > 0 {
      assert forall i :: 0 <= i < |col[1..]| ==> col[1..][i] == col[i + 1];
      ZerosCount(col[1..]);
    }
  }

  /** A smoothed column of the table sums to `norm * N + epsilon * (number of zeros)`. */
  lemma {:induction false} SmoothColumnSum(col: seq<real>, st: ColumnStats)
    ensures MapSums.Sum(SmoothColumn(col, st)) == st.norm * MapSums.Sum(col) + st.epsilon * Zeros(col)
    decreases |col|
  {
    if |col| > 0 {
      SmoothColumnSum(col[1..], st);
      SmoothColumnStep(col, st);
    }
  }

  lemma {:induction false} SmoothColumnStep(col: seq<real>, st: ColumnStats)
    requires |col| > 0
    requires MapSums.Sum(SmoothColumn(col[1..], st)) == st.norm * MapSums.Sum(col[1..]) + st.epsilon * Zeros(col[1..])
    ensures MapSums.Sum(SmoothColumn(col, st)) == st.norm * MapSums.Sum(col) + st.epsilon * Zeros(col)
  {
    var tail := col[1..];
    SmoothColumnCons(col, st);
    SmoothStep(col[0], MapSums.Sum(tail), Zeros(tail), MapSums.Sum(SmoothColumn(tail, st)),
      MapSums.Sum(col), Zeros(col), MapSums.Sum(SmoothColumn(col, st)), st);
  }

  lemma {:induction false} SmoothColumnCons(col: seq<real>, st: ColumnStats)
    requires |col| > 0
    ensures MapSums.Sum(SmoothColumn(col, st)) == SmoothValue(col[0], st) + MapSums.Sum(SmoothColumn(col[1..], st))
  {
    var smooth := SmoothColumn(col, st);
    assert smooth[1..] == SmoothColumn(col[1..], st);
  }

  /** The arithmetic of one step of `SmoothColumnSum`. */
  lemma {:induction false} SmoothStep(head: real, sum: real, zeros: real, smoothed: real,
                                      sum': real, zeros': real, smoothed': real, st: ColumnStats)
    requires smoothed == st.norm * sum + st.epsilon * zeros
    requires sum' == head + sum && zeros' == (if head == 0.0 then 1.0 else 0.0) + zeros
    requires smoothed' == SmoothValue(head, st) + smoothed
    ensures smoothed' == st.norm * sum' + st.epsilon * zeros'
  {
    if head == 0.0 {
      assert st.epsilon * (1.0 + zeros) == st.epsilon + st.epsilon * zeros;
    } else {
      assert st.norm * (head + sum) == head * st.norm + st.norm * sum;
    }
  }

  /** The table rows that `features` picks up through `rowmap`, in feature order. */
  function PresentRows(features: seq<string>, rowmap: map<string, nat>, n: nat): (r: seq<nat>)
    requires forall f :: f in rowmap ==> rowmap[f] < n
    ensures |r| <= |features| && forall k :: 0 <= k < |r| ==> r[k] < n
    decreases |features|
  {
    if |features| == 0 then []
    else (if features[0] in rowmap then [rowmap[features[0]]] else []) + PresentRows(features[1..], rowmap, n)
  }

  /** One value per feature: the value of its row when `rowmap` has it, `eps` otherwise. */
  function Spread(features: seq<string>, rowmap: map<string, nat>, vals: seq<real>, eps: real): (r: seq<real>)
    requires forall f :: f in rowmap ==> rowmap[f] < |vals|
    ensures |r| == |features|
    decreases |features|
  {
    if |features| == 0 then []
    else [if features[0] in rowmap then vals[rowmap[features[0]]] else eps] + Spread(features[1..], rowmap, vals, eps)
  }

  lemma {:induction false} SpreadAt(features: seq<string>, rowmap: map<string, nat>, vals: seq<real>, eps: real, k: nat)
    requires forall f :: f in rowmap ==> rowmap[f] < |vals|
    requires k < |features|
    ensures Spread(features, rowmap, vals, eps)[k] == if features[k] in rowmap then vals[rowmap[features[k]]] else eps
    decreases k
  {
    if k > 0 {
      SpreadAt(features[1..], rowmap, vals, eps, k - 1);
    }
  }

  /** How many features `rowmap` lacks, as a real number. */
  function Absent(features: seq<string>, rowmap: map<string, nat>): real
    decreases |features|
  {
    if |features| == 0 then 0.0 else (if features[0] in rowmap then 0.0 else 1.0) + Absent(features[1..], rowmap)
  }

  /** Every feature is either picked up or absent. */
  lemma {:induction false} AbsentCount(features: seq<string>, rowmap: map<string, nat>, n: nat)
    requires forall f :: f in rowmap ==> rowmap[f] < n
    ensures Absent(features, rowmap) + |PresentRows(features, rowmap, n)| as real == |features| as real
    decreases |features|
  {
    if |features| > 0 {
      AbsentCount(features[1..], rowmap, n);
    }
  }

  /** The `eps` entries of a spread column, added up. */
  function EpsilonTotal(features: seq<string>, rowmap: map<string, nat>, eps: real): real
    decreases |features|
  {
    if |features| == 0 then 0.0 else (if features[0] in rowmap then 0.0 else eps) + EpsilonTotal(features[1..], rowmap, eps)
  }

  lemma {:induction false} EpsilonTotalProduct(features: seq<string>, rowmap: map<string, nat>, eps: real)
    ensures EpsilonTotal(features, rowmap, eps) == eps * Absent(features, rowmap)
    decreases |features|
  {
    if |features| > 0 {
      EpsilonTotalProduct(features[1..], rowmap, eps);
      var a := Absent(features[1..], rowmap);
      if features[0] !in rowmap {
        assert eps * (1.0 + a) == eps + eps * a;
      }
    }
  }

  /** Such a column sums to the values of the rows picked up plus one `eps` per other feature. */
  lemma {:induction false} SplitSum(features: seq<string>, rowmap: map<string, nat>, vals: seq<real>, eps: real)
    requires forall f :: f in rowmap ==> rowmap[f] < |vals|
    ensures MapSums.Sum(Spread(features, rowmap, vals, eps)) ==
      MapSums.Sum(Select(vals, PresentRows(features, rowmap, |vals|))) + EpsilonTotal(features, rowmap, eps)
    decreases |features|
  {
    if |features| > 0 {
      var tail := features[1..];
      SplitSum(tail, rowmap, vals, eps);
      var rest := PresentRows(tail, rowmap, |vals|);
      var head := if features[0] in rowmap then vals[rowmap[features[0]]] else eps;
      assert Spread(features, rowmap, vals, eps) == [head] + Spread(tail, rowmap, vals, eps);
      MapSums.SumConcat([head], Spread(tail, rowmap, vals, eps));
      assert MapSums.Sum([head]) == head;
      if features[0] in rowmap {
        var v := vals[rowmap[features[0]]];
        assert PresentRows(features, rowmap, |vals|) == [rowmap[features[0]]] + rest;
        assert Select(vals, PresentRows(features, rowmap, |vals|)) == [v] + Select(vals, rest);
        MapSums.SumConcat([v], Select(vals, rest));
        assert MapSums.Sum([v]) == v;
      } else {
        assert PresentRows(features, rowmap, |vals|) == rest;
      }
    }
  }

  /** The rows picked up are those of the features found in `rowmap`; no row twice. */
  lemma {:induction false} PresentRowsSpec(features: seq<string>, rowmap: map<string, nat>, n: nat)
    requires forall f :: f in rowmap ==> rowmap[f] < n
    requires Grouping.Distinct(features)
    requires forall f, g :: f in rowmap && g in rowmap && rowmap[f] == rowmap[g] ==> f == g
    ensures forall x :: x in PresentRows(features, rowmap, n) <==> exists f :: f in features && f in rowmap && rowmap[f] == x
    ensures Grouping.Distinct(PresentRows(features, rowmap, n))
    decreases |features|
  {
    if |features| > 0 {
      var tail := features[1..];
      assert Grouping.Distinct(tail) by {
        forall a, b | 0 <= a < b < |tail| ensures tail[a] != tail[b] {
          assert tail[a] == features[a + 1] && tail[b] == features[b + 1];
        }
      }
      PresentRowsSpec(tail, rowmap, n);
      assert features == [features[0]] + tail;
      var r := PresentRows(features, rowmap, n);
      var rest := PresentRows(tail, rowmap, n);
      if features[0] in rowmap {
        assert features[0] !in tail by {
          forall a | 0 <= a < |tail| ensures tail[a] != features[0] {
            assert tail[a] == features[a + 1];
          }
        }
        assert rowmap[features[0]] !in rest;
        assert r == [rowmap[features[0]]] + rest;
        forall a, b | 0 <= a < b < |r| ensures r[a] != r[b] {
          if a > 0 {
            assert r[a] == rest[a - 1] && r[b] == rest[b - 1];
          } else {
            assert r[b] == rest[b - 1];
          }
        }
      }
    }
  }

  /** A sequence without repeats holds each of its elements once. */
  lemma {:induction false} DistinctCount(s: seq<nat>, x: nat)
    requires Grouping.Distinct(s)
    ensures multiset(s)[x] == if x in s then 1 else 0
    decreases |s|
  {
    if |s| > 0 {
      var tail := s[1..];
      assert Grouping.Distinct(tail) by {
        forall a, b | 0 <= a < b < |tail| ensures tail[a] != tail[b] {
          assert tail[a] == s[a + 1] && tail[b] == s[b + 1];
        }
      }
      DistinctCount(tail, x);
      assert s == [s[0]] + tail;
      assert s[0] !in tail by {
        forall a | 0 <= a < |tail| ensures tail[a] != s[0] {
          assert tail[a] == s[a + 1];
        }
      }
    }
  }

  /**
   * When the features are distinct and hold every (distinct) row name, they
   * pick up every row of the table exactly once.
   */
  lemma {:induction false} PresentRowsPermutation(features: seq<string>, heads: seq<string>)
    requires Grouping.Distinct(features) && Grouping.Distinct(heads)
    requires forall i :: 0 <= i < |heads| ==> heads[i] in features
    ensures multiset(PresentRows(features, RowMap(heads), |heads|)) == multiset(Grouping.Range(|heads|))
  {
    var rowmap := RowMap(heads);
    var present := PresentRows(features, rowmap, |heads|);
    var range := Grouping.Range(|heads|);
    PresentRowsSpec(features, rowmap, |heads|);
    assert Grouping.Distinct(range);
    forall x | x in range ensures x in present {
      RowMapDistinct(heads, x);
      assert heads[x] in features && heads[x] in rowmap && rowmap[heads[x]] == x;
    }
    forall x | x in present ensures x in range {
      var k :| 0 <= k < |present| && present[k] == x;
      assert range[x] == x;
    }
    SameElements(present, range);
  }

  /** Two sequences without repeats and with the same elements are permutations of each other. */
  lemma {:induction false} SameElements(a: seq<nat>, b: seq<nat>)
    requires Grouping.Distinct(a) && Grouping.Distinct(b)
    requires forall x :: x in a <==> x in b
    ensures multiset(a) == multiset(b)
  {
    forall x: nat ensures multiset(a)[x] == multiset(b)[x] {
      DistinctCount(a, x);
      DistinctCount(b, x);
    }
  }

  lemma {:induction false} SelectConcat(vals: seq<real>, a: seq<nat>, b: seq<nat>)
    requires forall k :: 0 <= k < |a| ==> a[k] < |vals|
    requires forall k :: 0 <= k < |b| ==> b[k] < |vals|
    ensures forall k :: 0 <= k < |a + b| ==> (a + b)[k] < |vals|
    ensures Select(vals, a + b) == Select(vals, a) + Select(vals, b)
  {
  }

  /** Taking from `b` the position holding `a[0]` leaves a permutation of the rest of `a`. */
  lemma {:induction false} RemoveMatching(a: seq<nat>, b: seq<nat>, k: nat)
    requires multiset(a) == multiset(b) && |a| > 0
    requires k < |b| && b[k] == a[0]
    ensures multiset(b[..k] + b[k + 1..]) == multiset(a[1..])
  {
    var front, back := b[..k], b[k + 1..];
    assert b == front + [b[k]] + back;
    assert a == [a[0]] + a[1..];
    assert multiset(b) == multiset(front) + multiset{b[k]} + multiset(back);
    assert multiset(a) == multiset{a[0]} + multiset(a[1..]);
    assert multiset(front + back) == multiset(front) + multiset(back);
    forall y ensures multiset(front + back)[y] == multiset(a[1..])[y] {
      assert multiset(b)[y] == multiset(a)[y];
    }
  }

  /** Picking all positions of `b` but `k` picks all values but `vals[b[k]]`. */
  lemma {:induction false} SelectWithout(vals: seq<real>, b: seq<nat>, k: nat)
    requires forall i :: 0 <= i < |b| ==> b[i] < |vals|
    requires k < |b|
    ensures multiset(Select(vals, b)) == multiset{vals[b[k]]} + multiset(Select(vals, b[..k] + b[k + 1..]))
  {
    var front, back := b[..k], b[k + 1..];
    assert b == front + [b[k]] + back;
    SelectConcat(vals, front, back);
    SelectConcat(vals, front + [b[k]], back);
    SelectConcat(vals, front, [b[k]]);
  }

  /** Reordering the positions picked does not change the multiset of the values picked. */
  lemma {:induction false} SelectPermutation(vals: seq<real>, a: seq<nat>, b: seq<nat>)
    requires forall k :: 0 <= k < |a| ==> a[k] < |vals|
    requires forall k :: 0 <= k < |b| ==> b[k] < |vals|
    requires multiset(a) == multiset(b)
    ensures multiset(Select(vals, a)) == multiset(Select(vals, b))
    decreases |a|
  {
    if |a| > 0 {
      assert a[0] in multiset(b);
      var k :| 0 <= k < |b| && b[k] == a[0];
      var rest := b[..k] + b[k + 1..];
      RemoveMatching(a, b, k);
      SelectPermutation(vals, a[1..], rest);
      SelectPermutationStep(vals, a, b, k);
    }
  }

  lemma {:induction false} SelectPermutationStep(vals: seq<real>, a: seq<nat>, b: seq<nat>, k: nat)
    requires forall i :: 0 <= i < |a| ==> a[i] < |vals|
    requires forall i :: 0 <= i < |b| ==> b[i] < |vals|
    requires |a| > 0 && k < |b| && b[k] == a[0]
    requires multiset(Select(vals, a[1..])) == multiset(Select(vals, b[..k] + b[k + 1..]))
    ensures multiset(Select(vals, a)) == multiset(Select(vals, b))
  {
    SelectWithout(vals, b, k);
    assert a == [a[0]] + a[1..];
    SelectConcat(vals, [a[0]], a[1..]);
  }

  /** Column `j` of the smoothed table, spread over the features. */
  lemma {:induction false} SmoothedColumn(features: seq<string>, heads: seq<string>, rows: seq<seq<real>>, stats: seq<ColumnStats>, j: nat)
    requires |heads| == |rows| && forall i :: 0 <= i < |rows| ==> |rows[i]| == |stats|
    requires j < |stats|
    ensures Column(Smoothed(features, heads, rows, stats), j) ==
      Spread(features, RowMap(heads), SmoothColumn(Column(rows, j), stats[j]), stats[j].epsilon)
  {
    var rowmap := RowMap(heads);
    var smooth := SmoothColumn(Column(rows, j), stats[j]);
    var left := Column(Smoothed(features, heads, rows, stats), j);
    var right := Spread(features, rowmap, smooth, stats[j].epsilon);
    forall k | 0 <= k < |features| ensures left[k] == right[k] {
      SpreadAt(features, rowmap, smooth, stats[j].epsilon, k);
    }
  }

  /** The rows picked up by the features, summed in feature order, give the whole column. */
  lemma {:induction false} PresentSum(features: seq<string>, heads: seq<string>, vals: seq<real>)
    requires Grouping.Distinct(features) && Grouping.Distinct(heads)
    requires forall i :: 0 <= i < |heads| ==> heads[i] in features
    requires |vals| == |heads|
    ensures MapSums.Sum(Select(vals, PresentRows(features, RowMap(heads), |heads|))) == MapSums.Sum(vals)
    ensures |PresentRows(features, RowMap(heads), |heads|)| == |heads|
  {
    var present := PresentRows(features, RowMap(heads), |heads|);
    var range := Grouping.Range(|heads|);
    PresentRowsPermutation(features, heads);
    SelectPermutation(vals, present, range);
    assert Select(vals, range) == vals;
    MapSums.SumPermutation(Select(vals, present), vals);
    assert |multiset(present)| == |multiset(range)|;
  }

  /** What a column's `norm` and `epsilon` satisfy, without the divisions. */
  lemma {:induction false} StatsEquations(col: seq<real>, features: seq<string>, st: ColumnStats)
    requires Stats(MapSums.Sum(col), CountPositive(col), |features|) == Some(st)
    requires CountPositive(col) < |features|
    ensures st.norm * (MapSums.Sum(col) + CountPositive(col) as real) == MapSums.Sum(col)
    ensures st.epsilon * (|features| as real - CountPositive(col) as real) == st.norm * CountPositive(col) as real
  {
  }

  /** The balance identity on plain numbers: `norm * N + eps * (zeros + absent) = norm * (N + T) = N`. */
  lemma {:induction false} Balance(n: real, t: real, zeros: real, absent: real, f: real, norm: real, eps: real)
    requires norm * (n + t) == n
    requires eps * (f - t) == norm * t
    requires zeros + absent == f - t
    ensures norm * n + eps * zeros + eps * absent == n
  {
    calc {
      norm * n + eps * zeros + eps * absent;
      norm * n + eps * (zeros + absent);
      norm * n + eps * (f - t);
      norm * n + norm * t;
      norm * (n + t);
      n;
    }
  }

  /** The balance identity for one column's sum, zeros and absent features. */
  lemma {:induction false} ColumnArithmetic(col: seq<real>, features: seq<string>, rowmap: map<string, nat>, st: ColumnStats)
    requires st.norm * (MapSums.Sum(col) + CountPositive(col) as real) == MapSums.Sum(col)
    requires st.epsilon * (|features| as real - CountPositive(col) as real) == st.norm * CountPositive(col) as real
    requires Zeros(col) + CountPositive(col) as real == |col| as real
    requires Absent(features, rowmap) + |col| as real == |features| as real
    ensures st.norm * MapSums.Sum(col) + st.epsilon * Zeros(col) + st.epsilon * Absent(features, rowmap) == MapSums.Sum(col)
  {
    Balance(MapSums.Sum(col), CountPositive(col) as real, Zeros(col), Absent(features, rowmap), |features| as real, st.norm, st.epsilon);
  }

  /**
   * The balance of one column: its smoothed entries plus one epsilon per
   * feature missing from the table add up to the column's sum.
   */
  lemma {:induction false} ColumnBalance(col: seq<real>, features: seq<string>, rowmap: map<string, nat>, st: ColumnStats)
    requires st.norm * (MapSums.Sum(col) + CountPositive(col) as real) == MapSums.Sum(col)
    requires st.epsilon * (|features| as real - CountPositive(col) as real) == st.norm * CountPositive(col) as real
    requires Zeros(col) + CountPositive(col) as real == |col| as real
    requires Absent(features, rowmap) + |col| as real == |features| as real
    ensures MapSums.Sum(SmoothColumn(col, st)) + EpsilonTotal(features, rowmap, st.epsilon) == MapSums.Sum(col)
  {
    SmoothColumnSum(col, st);
    EpsilonTotalProduct(features, rowmap, st.epsilon);
    ColumnArithmetic(col, features, rowmap, st);
  }

  /**
   * Smoothing keeps each column's total: on a count-like table whose
   * (distinct) row names are all among the distinct features, a column with
   * some unobserved feature (`Z > 0`) sums after smoothing to its original
   * sum `N`, since `norm * N + Z * epsilon = norm * (N + T) = N`.
   */
  lemma {:induction false} SmoothingKeepsColumnSums(features: seq<string>, heads: seq<string>, rows: seq<seq<real>>, j: nat)
    requires Shaped(heads, rows) && NonNegative(rows)
    requires |rows| > 0 && j < |rows[0]|
    requires Grouping.Distinct(features) && Grouping.Distinct(heads)
    requires forall i :: 0 <= i < |heads| ==> heads[i] in features
    requires TableStats(rows, |features|).Ok?
    requires CountPositive(Column(rows, j)) < |features|
    ensures MapSums.Sum(Column(Smoothed(features, heads, rows, TableStats(rows, |features|).value), j)) ==
      MapSums.Sum(Column(rows, j))
  {
    var stats := TableStats(rows, |features|).value;
    StatsUpToSpec(rows, |rows[0]|, |features|);
    var st := stats[j];
    var col := Column(rows, j);
    assert st == Stats(MapSums.Sum(col), CountPositive(col), |features|).value;
    var rowmap := RowMap(heads);
    var smooth := SmoothColumn(col, st);
    SmoothedColumn(features, heads, rows, stats, j);
    SplitSum(features, rowmap, smooth, st.epsilon);
    PresentSum(features, heads, smooth);
    AbsentCount(features, rowmap, |heads|);
    assert forall i :: 0 <= i < |col| ==> col[i] == rows[i][j];
    StatsEquations(col, features, st);
    ZerosCount(col);
    ColumnBalance(col, features, rowmap, st);
  }

  /** `wbsmooth`: the error it raises, if any; otherwise the table is rebuilt on `features`. */
  method WbSmooth(table: Table, features: seq<string>) returns (error: Option<SmoothError>)
    requires Shaped(table.rowheads, table.data)
    requires Grouping.Distinct(features)
    modifies table
    ensures error.Some? <==> TableStats(old(table.data), |features|).Err?
    ensures error.Some? ==> (error.value == TableStats(old(table.data), |features|).error &&
      table.rowheads == old(table.rowheads) && table.data == old(table.data))
    ensures error.None? ==> (table.rowheads == features &&
      table.data == Smoothed(features, old(table.rowheads), old(table.data), TableStats(old(table.data), |features|).value))
  {
    var heads, rows := table.rowheads, table.data;
    if |rows| == 0 {
      return Some(EmptyTable);
    }
    var computed := ComputeStats(rows, |rows[0]|, |features|);
    if computed.Err? {
      return Some(computed.error);
    }
    var stats := computed.value;
    var rowheads2, data2 := Rebuild(heads, rows, stats, features);
    table.rowheads, table.data := rowheads2, data2;
    error := None;
  }

  /** The rebuilding loop of `wbsmooth`, over `all_features`. */
  method Rebuild(heads: seq<string>, rows: seq<seq<real>>, stats: seq<ColumnStats>, features: seq<string>)
    returns (rowheads2: seq<string>, data2: seq<seq<real>>)
    requires |heads| == |rows| && forall i :: 0 <= i < |rows| ==> |rows[i]| == |stats|
    requires Grouping.Distinct(features)
    ensures rowheads2 == features
    ensures data2 == Smoothed(features, heads, rows, stats)
  {
    var epsilons := EpsilonRow(stats);
    var rowmap := RowMap(heads);
    var current := rows;
    rowheads2, data2 := [], [];
    var k := 0;
    while k < |features|
      invariant 0 <= k <= |features|
      invariant |current| == |heads| && forall i :: 0 <= i < |current| ==> |current[i]| == |stats|
      invariant forall i :: 0 <= i < |current| && heads[i] !in features[..k] ==> current[i] == rows[i]
      invariant rowheads2 == features[..k]
      invariant data2 == Smoothed(features[..k], heads, rows, stats)
    {
      var feature := features[k];
      assert features[..k + 1] == features[..k] + [feature];
      assert feature !in features[..k];
      rowheads2 := rowheads2 + [feature];
      if feature in rowmap {
        var i := rowmap[feature];
        current := current[i := SmoothRow(current[i], stats)];
        data2 := data2 + [current[i]];
      } else {
        data2 := data2 + [epsilons];
      }
      assert Smoothed(features[..k + 1], heads, rows, stats) ==
        Smoothed(features[..k], heads, rows, stats) + [SmoothedRow(feature, heads, rows, stats)];
      k := k + 1;
    }
    assert features[..k] == features;
  }

  // ---------------------------------------------------------------- hsum

  /** The group of a row: its name up to the first delimiter (all of it when there is none). */
  function GroupOf(head: string): (g: string)
    ensures g <= head && StratDelim !in g
    ensures g == head || (|g| < |head| && head[|g|] == StratDelim)
  {
    Strings.SplitFirstField(head, StratDelim);
    Strings.Split(head, [StratDelim])[0]
  }

  function GroupKeys(heads: seq<string>): (keys: seq<string>)
    ensures |keys| == |heads| && forall i :: 0 <= i < |heads| ==> keys[i] == GroupOf(heads[i])
  {
    seq(|heads|, i requires 0 <= i < |heads| => GroupOf(heads[i]))
  }

  /** One row of the regrouped table: a group's summary row, or original row `row`. */
  datatype Entry = Summary(group: string) | Member(row: nat)

  function MemberEntries(idx: seq<nat>): (r: seq<Entry>)
    ensures |r| == |idx| && forall k :: 0 <= k < |idx| ==> r[k] == Member(idx[k])
  {
    seq(|idx|, k requires 0 <= k < |idx| => Member(idx[k]))
  }

  /** A group's block: its summary row, then its rows in table order. */
  function Block(keys: seq<string>, g: string): seq<Entry> {
    [Summary(g)] + MemberEntries(Grouping.IndicesOf(keys, g))
  }

  /** The layout of the regrouped table: the blocks of the groups of `order`, one after another. */
  function Layout(keys: seq<string>, order: seq<string>): (r: seq<Entry>)
    ensures forall p :: 0 <= p < |r| && r[p].Member? ==> r[p].row < |keys|
    decreases |order|
  {
    if |order| == 0 then []
    else Layout(keys, order[..|order| - 1]) + Block(keys, order[|order| - 1])
  }

  /** `zip` then add: as long as the shorter row. */
  function AddRows(a: seq<real>, b: seq<real>): (r: seq<real>)
    ensures |r| == Shorter(a, b)
  {
    seq(Shorter(a, b), k requires 0 <= k < |a| && k < |b| => a[k] + b[k])
  }

  function ZeroRow(w: nat): (r: seq<real>)
    ensures |r| == w
  {
    seq(w, _ => 0.0)
  }

  /** The rows at `idx` added up, starting from `w` zeros, in the order of `idx`. */
  function RowTotal(rows: seq<seq<real>>, idx: seq<nat>, w: nat): (r: seq<real>)
    requires forall k :: 0 <= k < |idx| ==> idx[k] < |rows|
    ensures |r| <= w
    ensures (forall k :: 0 <= k < |idx| ==> |rows[idx[k]]| >= w) ==> |r| == w
    decreases |idx|
  {
    if |idx| == 0 then ZeroRow(w)
    else AddRows(RowTotal(rows, idx[..|idx| - 1], w), rows[idx[|idx| - 1]])
  }

  /** The width of the summary rows: that of the first row. */
  function Width(rows: seq<seq<real>>): nat {
    if |rows| == 0 then 0 else |rows[0]|
  }

  function EntryHead(e: Entry, heads: seq<string>): string
    requires e.Member? ==> e.row < |heads|
  {
    match e
    case Summary(g) => g
    case Member(i) => heads[i]
  }

  function EntryRow(e: Entry, keys: seq<string>, rows: seq<seq<real>>): seq<real>
    requires |keys| == |rows|
    requires e.Member? ==> e.row < |rows|
  {
    match e
    case Summary(g) => RowTotal(rows, Grouping.IndicesOf(keys, g), Width(rows))
    case Member(i) => rows[i]
  }

  function RenderHeads(layout: seq<Entry>, heads: seq<string>): (r: seq<string>)
    requires forall p :: 0 <= p < |layout| && layout[p].Member? ==> layout[p].row < |heads|
    ensures |r| == |layout|
  {
    seq(|layout|, p requires 0 <= p < |layout| => EntryHead(layout[p], heads))
  }

  function RenderRows(layout: seq<Entry>, keys: seq<string>, rows: seq<seq<real>>): (r: seq<seq<real>>)
    requires |keys| == |rows|
    requires forall p :: 0 <= p < |layout| && layout[p].Member? ==> layout[p].row < |rows|
    ensures |r| == |layout|
  {
    seq(|layout|, p requires 0 <= p < |layout| => EntryRow(layout[p], keys, rows))
  }

  /** The layout `hsum` produces: groups in the order of their first row. */
  function SummedLayout(heads: seq<string>): seq<Entry> {
    Layout(GroupKeys(heads), Grouping.FirstAppearance(GroupKeys(heads)))
  }

  /** The row names after `hsum`. */
  function SummedHeads(heads: seq<string>): seq<string> {
    RenderHeads(SummedLayout(heads), heads)
  }

  /** The rows after `hsum`. */
  function SummedData(heads: seq<string>, rows: seq<seq<real>>): seq<seq<real>>
    requires |heads| == |rows|
  {
    RenderRows(SummedLayout(heads), GroupKeys(heads), rows)
  }

  /** How often the layout holds row `i` is how often the group listing does. */
  lemma {:induction false} LayoutMemberCount(keys: seq<string>, order: seq<string>, i: nat)
    ensures multiset(Layout(keys, order))[Member(i)] == multiset(Grouping.Members(keys, order))[i]
    ensures |Layout(keys, order)| == |order| + |Grouping.Members(keys, order)|
    decreases |order|
  {
    if |order| > 0 {
      var prefix, g := order[..|order| - 1], order[|order| - 1];
      LayoutMemberCount(keys, prefix, i);
      MemberEntriesCount(Grouping.IndicesOf(keys, g), i);
    }
  }

  lemma {:induction false} MemberEntriesCount(idx: seq<nat>, i: nat)
    ensures multiset(MemberEntries(idx))[Member(i)] == multiset(idx)[i]
    decreases |idx|
  {
    if |idx| > 0 {
      var front := idx[..|idx| - 1];
      MemberEntriesCount(front, i);
      assert idx == front + [idx[|idx| - 1]];
      assert MemberEntries(idx) == MemberEntries(front) + [Member(idx[|idx| - 1])];
    }
  }

  /** Each group of a distinct order heads exactly one block. */
  lemma {:induction false} LayoutSummaryCount(keys: seq<string>, order: seq<string>, g: string)
    requires Grouping.Distinct(order)
    ensures multiset(Layout(keys, order))[Summary(g)] == if g in order then 1 else 0
    decreases |order|
  {
    if |order| > 0 {
      var prefix, h := order[..|order| - 1], order[|order| - 1];
      assert order == prefix + [h];
      assert Grouping.Distinct(prefix) && h !in prefix;
      LayoutSummaryCount(keys, prefix, g);
      BlockSummaryCount(keys, h, g);
      assert multiset(Layout(keys, order)) == multiset(Layout(keys, prefix)) + multiset(Block(keys, h));
    }
  }

  /** A block holds one summary row: that of its own group. */
  lemma {:induction false} BlockSummaryCount(keys: seq<string>, h: string, g: string)
    ensures multiset(Block(keys, h))[Summary(g)] == if g == h then 1 else 0
  {
    var rest := MemberEntries(Grouping.IndicesOf(keys, h));
    assert Summary(g) !in rest;
    assert multiset(Block(keys, h)) == multiset{Summary(h)} + multiset(rest);
  }

  /**
   * `hsum` keeps every row once and adds one summary row per group: the new
   * table has (rows + groups) rows, holds each original row exactly once and
   * each group's summary row exactly once.
   */
  lemma {:induction false} SummedLayoutCounts(heads: seq<string>)
    ensures |SummedLayout(heads)| == |heads| + |Grouping.FirstAppearance(GroupKeys(heads))|
    ensures forall i :: 0 <= i < |heads| ==> multiset(SummedLayout(heads))[Member(i)] == 1
    ensures forall g :: multiset(SummedLayout(heads))[Summary(g)] == if g in GroupKeys(heads) then 1 else 0
  {
    var keys := GroupKeys(heads);
    var order := Grouping.FirstAppearance(keys);
    Grouping.MembersPermutation(keys, order);
    LayoutMemberCount(keys, order, 0);
    assert |multiset(Grouping.Members(keys, order))| == |multiset(Grouping.Range(|keys|))|;
    forall i | 0 <= i < |heads| ensures multiset(SummedLayout(heads))[Member(i)] == 1 {
      LayoutMemberCount(keys, order, i);
      assert Grouping.Range(|keys|)[i] == i;
      assert Grouping.Distinct(Grouping.Range(|keys|));
      DistinctCount(Grouping.Range(|keys|), i);
    }
    forall g ensures multiset(SummedLayout(heads))[Summary(g)] == if g in keys then 1 else 0 {
      LayoutSummaryCount(keys, order, g);
    }
  }

  /**
   * Entry `q` of `layout` is the summary row of the group of row entry `p`,
   * every entry from `q` to `p` is a row of that group, and those before `p`
   * come earlier in the table.
   */
  predicate InBlock(layout: seq<Entry>, keys: seq<string>, q: nat, p: nat) {
    q < p < |layout| && layout[p].Member? && layout[p].row < |keys| &&
    layout[q] == Summary(keys[layout[p].row]) &&
    forall r :: q < r <= p ==>
      layout[r].Member? && layout[r].row < |keys| && keys[layout[r].row] == keys[layout[p].row] &&
      (r < p ==> layout[r].row < layout[p].row)
  }

  /**
   * Every row sits in the block of its own group: some earlier entry is its
   * group's summary row, every entry from there to it is a row of that
   * group, and within the block rows keep their table order.
   */
  lemma {:induction false} LayoutBlocks(keys: seq<string>, order: seq<string>, p: nat)
    requires p < |Layout(keys, order)| && Layout(keys, order)[p].Member?
    ensures exists q :: InBlock(Layout(keys, order), keys, q, p)
    decreases |order|
  {
    var prefix, g := order[..|order| - 1], order[|order| - 1];
    var before := Layout(keys, prefix);
    assert Layout(keys, order) == before + Block(keys, g);
    if p < |before| {
      LayoutBlocks(keys, prefix, p);
      var q: nat :| InBlock(before, keys, q, p);
      InBlockExtend(before, Block(keys, g), keys, q, p);
    } else {
      InBlockLast(before, keys, g, p);
    }
  }

  /** Appending entries after a block leaves it a block. */
  lemma {:induction false} InBlockExtend(before: seq<Entry>, after: seq<Entry>, keys: seq<string>, q: nat, p: nat)
    requires InBlock(before, keys, q, p)
    ensures InBlock(before + after, keys, q, p)
  {
    var layout := before + after;
    forall r | q <= r <= p ensures layout[r] == before[r] {
    }
  }

  /** A row entry of the last block sits in that block. */
  lemma {:induction false} InBlockLast(before: seq<Entry>, keys: seq<string>, g: string, p: nat)
    requires |before| <= p < |before + Block(keys, g)| && (before + Block(keys, g))[p].Member?
    ensures InBlock(before + Block(keys, g), keys, |before|, p)
  {
    var layout := before + Block(keys, g);
    var idx := Grouping.IndicesOf(keys, g);
    var q := |before|;
    assert p > q;
    var k := p - q - 1;
    assert layout[p] == Member(idx[k]);
    Grouping.IndicesOfMember(keys, g, idx[k]);
    Grouping.IndicesOfIncreasing(keys, g);
    forall r | q < r <= p
      ensures layout[r].Member? && layout[r].row < |keys| && keys[layout[r].row] == keys[layout[p].row] &&
        (r < p ==> layout[r].row < layout[p].row)
    {
      assert layout[r] == Member(idx[r - q - 1]);
      Grouping.IndicesOfMember(keys, g, idx[r - q - 1]);
    }
    assert layout[q] == Summary(g);
  }

  /** Entry `j` of a summary row is the sum of entry `j` of its rows. */
  lemma {:induction false} RowTotalColumn(rows: seq<seq<real>>, idx: seq<nat>, w: nat, j: nat)
    requires forall k :: 0 <= k < |idx| ==> idx[k] < |rows| && |rows[idx[k]]| >= w
    requires forall i :: 0 <= i < |rows| ==> j < |rows[i]|
    requires j < w
    ensures RowTotal(rows, idx, w)[j] == MapSums.Sum(Select(Column(rows, j), idx))
    decreases |idx|
  {
    if |idx| > 0 {
      var front, last := idx[..|idx| - 1], idx[|idx| - 1];
      RowTotalColumn(rows, front, w, j);
      var col := Column(rows, j);
      assert Select(col, idx) == Select(col, front) + [col[last]];
      MapSums.SumConcat(Select(col, front), [col[last]]);
      assert MapSums.Sum([col[last]]) == col[last];
    }
  }

  /** Entry `j` of each summary row, in the order the groups are listed. */
  function SummaryColumn(rows: seq<seq<real>>, keys: seq<string>, order: seq<string>, j: nat): (r: seq<real>)
    requires |keys| == |rows|
    ensures |r| == |order|
  {
    seq(|order|, k requires 0 <= k < |order| =>
      var total := RowTotal(rows, Grouping.IndicesOf(keys, order[k]), Width(rows));
      if j < |total| then total[j] else 0.0)
  }

  lemma {:induction false} SummaryColumnMembers(rows: seq<seq<real>>, keys: seq<string>, order: seq<string>, j: nat)
    requires |keys| == |rows| && Shaped(keys, rows) && |rows| > 0 && j < |rows[0]|
    ensures forall k :: 0 <= k < |Grouping.Members(keys, order)| ==> Grouping.Members(keys, order)[k] < |rows|
    ensures MapSums.Sum(SummaryColumn(rows, keys, order, j)) ==
      MapSums.Sum(Select(Column(rows, j), Grouping.Members(keys, order)))
    decreases |order|
  {
    if |order| > 0 {
      SummaryColumnMembers(rows, keys, order[..|order| - 1], j);
      SummaryColumnStep(rows, keys, order, j);
    } else {
      assert SummaryColumn(rows, keys, order, j) == [];
    }
  }

  lemma {:induction false} SummaryColumnLast(rows: seq<seq<real>>, keys: seq<string>, order: seq<string>, j: nat)
    requires |keys| == |rows| && Shaped(keys, rows) && |rows| > 0 && j < |rows[0]| && |order| > 0
    ensures SummaryColumn(rows, keys, order, j) == SummaryColumn(rows, keys, order[..|order| - 1], j)
      + [MapSums.Sum(Select(Column(rows, j), Grouping.IndicesOf(keys, order[|order| - 1])))]
  {
    var idx := Grouping.IndicesOf(keys, order[|order| - 1]);
    RowTotalColumn(rows, idx, |rows[0]|, j);
  }

  lemma {:induction false} SummaryColumnStep(rows: seq<seq<real>>, keys: seq<string>, order: seq<string>, j: nat)
    requires |keys| == |rows| && Shaped(keys, rows) && |rows| > 0 && j < |rows[0]| && |order| > 0
    requires var prefix := order[..|order| - 1];
      (forall k :: 0 <= k < |Grouping.Members(keys, prefix)| ==> Grouping.Members(keys, prefix)[k] < |rows|) &&
      MapSums.Sum(SummaryColumn(rows, keys, prefix, j)) == MapSums.Sum(Select(Column(rows, j), Grouping.Members(keys, prefix)))
    ensures forall k :: 0 <= k < |Grouping.Members(keys, order)| ==> Grouping.Members(keys, order)[k] < |rows|
    ensures MapSums.Sum(SummaryColumn(rows, keys, order, j)) ==
      MapSums.Sum(Select(Column(rows, j), Grouping.Members(keys, order)))
  {
    var prefix, g := order[..|order| - 1], order[|order| - 1];
    var idx := Grouping.IndicesOf(keys, g);
    var col := Column(rows, j);
    SummaryColumnLast(rows, keys, order, j);
    MapSums.SumConcat(SummaryColumn(rows, keys, prefix, j), [MapSums.Sum(Select(col, idx))]);
    assert MapSums.Sum([MapSums.Sum(Select(col, idx))]) == MapSums.Sum(Select(col, idx));
    SelectConcat(col, Grouping.Members(keys, prefix), idx);
    MapSums.SumConcat(Select(col, Grouping.Members(keys, prefix)), Select(col, idx));
  }

  /**
   * The summary rows of `hsum` add up, column by column, to the table's
   * column sums: every row is counted in exactly one group.
   */
  lemma {:induction false} SummariesAddUp(heads: seq<string>, rows: seq<seq<real>>, j: nat)
    requires Shaped(heads, rows) && |rows| > 0 && j < |rows[0]|
    ensures MapSums.Sum(SummaryColumn(rows, GroupKeys(heads), Grouping.FirstAppearance(GroupKeys(heads)), j)) ==
      MapSums.Sum(Column(rows, j))
  {
    var keys := GroupKeys(heads);
    var order := Grouping.FirstAppearance(keys);
    var col := Column(rows, j);
    SummaryColumnMembers(rows, keys, order, j);
    Grouping.MembersPermutation(keys, order);
    SelectPermutation(col, Grouping.Members(keys, order), Grouping.Range(|keys|));
    assert Select(col, Grouping.Range(|keys|)) == col;
    MapSums.SumPermutation(Select(col, Grouping.Members(keys, order)), col);
  }

  lemma {:induction false} RenderHeadsAppend(a: seq<Entry>, b: seq<Entry>, heads: seq<string>)
    requires forall p :: 0 <= p < |a| && a[p].Member? ==> a[p].row < |heads|
    requires forall p :: 0 <= p < |b| && b[p].Member? ==> b[p].row < |heads|
    ensures forall p :: 0 <= p < |a + b| && (a + b)[p].Member? ==> (a + b)[p].row < |heads|
    ensures RenderHeads(a + b, heads) == RenderHeads(a, heads) + RenderHeads(b, heads)
  {
  }

  lemma {:induction false} RenderRowsAppend(a: seq<Entry>, b: seq<Entry>, keys: seq<string>, rows: seq<seq<real>>)
    requires |keys| == |rows|
    requires forall p :: 0 <= p < |a| && a[p].Member? ==> a[p].row < |rows|
    requires forall p :: 0 <= p < |b| && b[p].Member? ==> b[p].row < |rows|
    ensures forall p :: 0 <= p < |a + b| && (a + b)[p].Member? ==> (a + b)[p].row < |rows|
    ensures RenderRows(a + b, keys, rows) == RenderRows(a, keys, rows) + RenderRows(b, keys, rows)
  {
  }

  /** `hsum`: the table is regrouped under per-group summary rows. */
  method HSum(table: Table)
    requires |table.rowheads| == |table.data|
    modifies table
    ensures table.rowheads == SummedHeads(old(table.rowheads))
    ensures table.data == SummedData(old(table.rowheads), old(table.data))
  {
    var heads, rows := table.rowheads, table.data;
    var keys := GroupKeys(heads);
    var groups, order := Grouping.GroupIndices(keys);
    var rowheads2, data2 := [], [];
    var g := 0;
    while g < |order|
      invariant 0 <= g <= |order|
      invariant rowheads2 == RenderHeads(Layout(keys, order[..g]), heads)
      invariant data2 == RenderRows(Layout(keys, order[..g]), keys, rows)
    {
      var group := order[g];
      RenderStep(heads, rows, keys, order, g);
      var blockHeads, blockRows := WriteBlock(heads, rows, keys, group, groups[group]);
      rowheads2, data2 := rowheads2 + blockHeads, data2 + blockRows;
      g := g + 1;
    }
    assert order[..g] == order;
    table.rowheads, table.data := rowheads2, data2;
  }

  /** Rendering the layout of one more group appends that group's block. */
  lemma {:induction false} RenderStep(heads: seq<string>, rows: seq<seq<real>>, keys: seq<string>, order: seq<string>, g: nat)
    requires |heads| == |rows| == |keys| && g < |order|
    ensures RenderHeads(Layout(keys, order[..g + 1]), heads)
         == RenderHeads(Layout(keys, order[..g]), heads) + RenderHeads(Block(keys, order[g]), heads)
    ensures RenderRows(Layout(keys, order[..g + 1]), keys, rows)
         == RenderRows(Layout(keys, order[..g]), keys, rows) + RenderRows(Block(keys, order[g]), keys, rows)
  {
    assert order[..g + 1][..g] == order[..g];
    var before := Layout(keys, order[..g]);
    assert Layout(keys, order[..g + 1]) == before + Block(keys, order[g]);
    RenderHeadsAppend(before, Block(keys, order[g]), heads);
    RenderRowsAppend(before, Block(keys, order[g]), keys, rows);
  }

  /** A block renders as the group's name and summary row, then its rows' names and rows. */
  lemma {:induction false} BlockRender(heads: seq<string>, rows: seq<seq<real>>, keys: seq<string>, group: string)
    requires |heads| == |rows| == |keys|
    ensures RenderHeads(Block(keys, group), heads) == [group] + Select(heads, Grouping.IndicesOf(keys, group))
    ensures RenderRows(Block(keys, group), keys, rows) ==
      [RowTotal(rows, Grouping.IndicesOf(keys, group), Width(rows))] + Select(rows, Grouping.IndicesOf(keys, group))
  {
  }

  /** One group's block: its name and summary row, then its rows' names and rows. */
  method WriteBlock(heads: seq<string>, rows: seq<seq<real>>, keys: seq<string>, group: string, poslist: seq<nat>)
    returns (blockHeads: seq<string>, blockRows: seq<seq<real>>)
    requires |heads| == |rows| && keys == GroupKeys(heads) && group in keys
    requires poslist == Grouping.IndicesOf(keys, group)
    ensures blockHeads == RenderHeads(Block(keys, group), heads)
    ensures blockRows == RenderRows(Block(keys, group), keys, rows)
  {
    var total := SummaryRow(rows, poslist, keys, group);
    blockHeads, blockRows := [group], [total];
    var k := 0;
    while k < |poslist|
      invariant 0 <= k <= |poslist|
      invariant blockHeads == [group] + Select(heads, poslist[..k])
      invariant blockRows == [total] + Select(rows, poslist[..k])
    {
      SelectStep(heads, poslist, k);
      SelectStep(rows, poslist, k);
      blockHeads := blockHeads + [heads[poslist[k]]];
      blockRows := blockRows + [rows[poslist[k]]];
      k := k + 1;
    }
    assert poslist[..k] == poslist;
    BlockRender(heads, rows, keys, group);
  }

  /** The summary row of one group: `total` accumulated over the group's rows. */
  method SummaryRow(rows: seq<seq<real>>, poslist: seq<nat>, keys: seq<string>, group: string) returns (total: seq<real>)
    requires |keys| == |rows| && group in keys
    requires poslist == Grouping.IndicesOf(keys, group)
    ensures total == RowTotal(rows, poslist, Width(rows))
  {
    total := ZeroRow(|rows[0]|);
    var k := 0;
    while k < |poslist|
      invariant 0 <= k <= |poslist|
      invariant total == RowTotal(rows, poslist[..k], Width(rows))
    {
      assert poslist[..k + 1][..k] == poslist[..k];
      total := AddRows(total, rows[poslist[k]]);
      k := k + 1;
    }
    assert poslist[..k] == poslist;
  }

  // ---------------------------------------------------------------- RNA / DNA

  /** What stops the division of the RNA table by the DNA table. */
  datatype RatioError =
    | MissingRow(row: nat)               // the RNA table has fewer rows than the DNA table (IndexError)
    | ZeroDivisor(row: nat, column: nat) // a DNA entry of 0 (ZeroDivisionError)

  /**
   * `[r / d for r, d in zip(rna_row, dna_row)]`: as long as the shorter row;
   * the column of the first 0 divisor when there is one.
   */
  function RowRatio(r: seq<real>, d: seq<real>): Result<seq<real>, nat>
    decreases |r|
  {
    if |r| == 0 || |d| == 0 then Ok([])
    else if d[0] == 0.0 then Err(0)
    else
      match RowRatio(r[1..], d[1..])
      case Ok(rest) => Ok([r[0] / d[0]] + rest)
      case Err(j) => Err(j + 1)
  }

  /** The first `n` RNA rows divided by the matching DNA rows, row after row. */
  function Ratios(rna: seq<seq<real>>, dna: seq<seq<real>>, n: nat): Result<seq<seq<real>>, RatioError>
    requires n <= |dna|
    decreases n
  {
    if n == 0 then Ok([])
    else
      match Ratios(rna, dna, n - 1)
      case Err(e) => Err(e)
      case Ok(done) =>
        if n - 1 >= |rna| then Err(MissingRow(n - 1))
        else
          match RowRatio(rna[n - 1], dna[n - 1])
          case Err(j) => Err(ZeroDivisor(n - 1, j))
          case Ok(row) => Ok(done + [row])
  }

  function Shorter(a: seq<real>, b: seq<real>): nat {
    if |a| <= |b| then |a| else |b|
  }

  /**
   * `q` is the quotient of `r` by `d` entry by entry, over the shorter of the
   * two: no divisor is 0 and each quotient times its divisor is the RNA entry.
   */
  predicate Quotient(q: seq<real>, r: seq<real>, d: seq<real>) {
    |q| == Shorter(r, d) && forall j :: 0 <= j < |q| ==> d[j] != 0.0 && q[j] * d[j] == r[j]
  }

  /** A successful division has one quotient per pair, each giving back its RNA entry. */
  lemma {:induction false} RowRatioQuotients(r: seq<real>, d: seq<real>)
    requires RowRatio(r, d).Ok?
    ensures Quotient(RowRatio(r, d).value, r, d)
    decreases |r|
  {
    if |r| > 0 && |d| > 0 {
      var r', d' := r[1..], d[1..];
      var rest := RowRatio(r', d').value;
      RowRatioQuotients(r', d');
      assert RowRatio(r, d).value == [r[0] / d[0]] + rest;
      assert r == [r[0]] + r' && d == [d[0]] + d';
      QuotientCons(r[0], d[0], rest, r', d');
    }
  }

  lemma {:induction false} QuotientCons(a: real, b: real, rest: seq<real>, r: seq<real>, d: seq<real>)
    requires b != 0.0 && Quotient(rest, r, d)
    ensures Quotient([a / b] + rest, [a] + r, [b] + d)
  {
    var q, r', d' := [a / b] + rest, [a] + r, [b] + d;
    assert |q| == Shorter(r', d');
    forall j | 0 <= j < |q|
      ensures d'[j] != 0.0 && q[j] * d'[j] == r'[j]
    {
      if j == 0 {
        DivideBack(a, b);
      } else {
        assert q[j] == rest[j - 1] && d'[j] == d[j - 1] && r'[j] == r[j - 1];
      }
    }
  }

  /** A failed division names the first 0 among the DNA entries it meets. */
  lemma {:induction false} RowRatioFirstZero(r: seq<real>, d: seq<real>)
    requires RowRatio(r, d).Err?
    ensures RowRatio(r, d).error < Shorter(r, d) && d[RowRatio(r, d).error] == 0.0
    ensures forall j :: 0 <= j < RowRatio(r, d).error ==> d[j] != 0.0
    decreases |r|
  {
    if d[0] != 0.0 {
      var r', d' := r[1..], d[1..];
      var k := RowRatio(r', d').error;
      RowRatioFirstZero(r', d');
      assert RowRatio(r, d).error == k + 1;
      assert d[k + 1] == d'[k];
      forall j | 0 <= j < k + 1
        ensures d[j] != 0.0
      {
        if j > 0 {
          assert d[j] == d'[j - 1];
        }
      }
    }
  }

  /**
   * A row divides exactly when no DNA entry it meets is 0; the quotient
   * then has one entry per pair, and each times its divisor gives back the
   * RNA entry. Otherwise the error names the first 0.
   */
  lemma {:induction false} RowRatioSpec(r: seq<real>, d: seq<real>)
    ensures RowRatio(r, d).Ok? <==> forall j :: 0 <= j < Shorter(r, d) ==> d[j] != 0.0
    ensures RowRatio(r, d).Ok? ==> Quotient(RowRatio(r, d).value, r, d)
    ensures RowRatio(r, d).Err? ==> (RowRatio(r, d).error < Shorter(r, d) &&
      d[RowRatio(r, d).error] == 0.0 &&
      forall j :: 0 <= j < RowRatio(r, d).error ==> d[j] != 0.0)
  {
    if RowRatio(r, d).Ok? {
      RowRatioQuotients(r, d);
    } else {
      RowRatioFirstZero(r, d);
    }
  }

  lemma {:induction false} DivideBack(a: real, b: real)
    requires b != 0.0
    ensures a / b * b == a
  {
  }

  /** A failed division leaves a position that exists and that the rows before it have passed. */
  predicate FailsAt(rna: seq<seq<real>>, dna: seq<seq<real>>, e: RatioError) {
    match e
    case MissingRow(i) => i == |rna| < |dna|
    case ZeroDivisor(i, j) =>
      i < |rna| && i < |dna| && j < Shorter(rna[i], dna[i]) && dna[i][j] == 0.0 &&
      forall k :: 0 <= k < j ==> dna[i][k] != 0.0
  }

  function ErrorRow(e: RatioError): nat {
    match e
    case MissingRow(i) => i
    case ZeroDivisor(i, _) => i
  }

  /**
   * The division of the first `n` rows succeeds exactly when the RNA table
   * has those rows and none of their DNA entries is 0; each quotient times
   * its divisor gives back the RNA entry. A failure names the first row
   * that fails, and the rows before it divide.
   */
  lemma {:induction false} RatiosSpec(rna: seq<seq<real>>, dna: seq<seq<real>>, n: nat)
    requires n <= |dna|
    ensures Ratios(rna, dna, n).Ok? <==> (n <= |rna| &&
      forall i, j :: 0 <= i < n && 0 <= j < Shorter(rna[i], dna[i]) ==> dna[i][j] != 0.0)
    ensures Ratios(rna, dna, n).Ok? ==> (|Ratios(rna, dna, n).value| == n &&
      forall i :: 0 <= i < n ==> Quotient(Ratios(rna, dna, n).value[i], rna[i], dna[i]))
    ensures Ratios(rna, dna, n).Err? ==> var e := Ratios(rna, dna, n).error;
      ErrorRow(e) < n && FailsAt(rna, dna, e) && Ratios(rna, dna, ErrorRow(e)).Ok?
  {
    if Ratios(rna, dna, n).Ok? {
      RatiosQuotients(rna, dna, n);
    } else {
      RatiosFailure(rna, dna, n);
      var e := Ratios(rna, dna, n).error;
      if e.ZeroDivisor? {
        assert dna[e.row][e.column] == 0.0;
      }
    }
  }

  /** A successful division of `n` rows: one quotient row per row, each entry giving back its RNA entry. */
  lemma {:induction false} RatiosQuotients(rna: seq<seq<real>>, dna: seq<seq<real>>, n: nat)
    requires n <= |dna| && Ratios(rna, dna, n).Ok?
    ensures n <= |rna| && |Ratios(rna, dna, n).value| == n
    ensures forall i :: 0 <= i < n ==> Quotient(Ratios(rna, dna, n).value[i], rna[i], dna[i])
    decreases n
  {
    if n > 0 {
      var done := Ratios(rna, dna, n - 1).value;
      RatiosQuotients(rna, dna, n - 1);
      var row := RowRatio(rna[n - 1], dna[n - 1]).value;
      RowRatioQuotients(rna[n - 1], dna[n - 1]);
      var all := done + [row];
      assert Ratios(rna, dna, n).value == all;
      forall i | 0 <= i < n
        ensures Quotient(all[i], rna[i], dna[i])
      {
        if i < n - 1 {
          assert all[i] == done[i];
        }
      }
    }
  }

  /** A failed division of `n` rows names a row before `n` that fails, with every row before it dividing. */
  lemma {:induction false} RatiosFailure(rna: seq<seq<real>>, dna: seq<seq<real>>, n: nat)
    requires n <= |dna| && Ratios(rna, dna, n).Err?
    ensures ErrorRow(Ratios(rna, dna, n).error) < n && FailsAt(rna, dna, Ratios(rna, dna, n).error)
    ensures Ratios(rna, dna, ErrorRow(Ratios(rna, dna, n).error)).Ok?
    decreases n
  {
    if Ratios(rna, dna, n - 1).Err? {
      RatiosFailure(rna, dna, n - 1);
    } else {
      RatiosQuotients(rna, dna, n - 1);
      if n - 1 < |rna| {
        RowRatioFirstZero(rna[n - 1], dna[n - 1]);
      }
    }
  }

  /**
   * The ratio loop of `main`: RNA row `i` becomes its quotient by DNA row
   * `i`, for every DNA row; a row that cannot be divided stops the loop with
   * the rows before it already replaced.
   */
  method NormalizeRna(rna: Table, dna: seq<seq<real>>) returns (error: Option<RatioError>)
    modifies rna
    ensures rna.rowheads == old(rna.rowheads)
    ensures error.None? <==> Ratios(old(rna.data), dna, |dna|).Ok?
    ensures error.None? ==> rna.data == Ratios(old(rna.data), dna, |dna|).value + old(rna.data)[|dna|..]
    ensures error.Some? ==> (error.value == Ratios(old(rna.data), dna, |dna|).error &&
      ErrorRow(error.value) <= |old(rna.data)| && ErrorRow(error.value) < |dna| &&
      Ratios(old(rna.data), dna, ErrorRow(error.value)).Ok? &&
      rna.data == Ratios(old(rna.data), dna, ErrorRow(error.value)).value + old(rna.data)[ErrorRow(error.value)..])
  {
    ghost var original := rna.data;
    var i := 0;
    while i < |dna|
      invariant 0 <= i <= |dna| && |rna.data| == |original|
      invariant rna.rowheads == old(rna.rowheads)
      invariant Ratios(original, dna, i).Ok?
      invariant i <= |original| && rna.data == Ratios(original, dna, i).value + original[i..]
    {
      if i >= |rna.data| {
        assert Ratios(original, dna, i + 1) == Err(MissingRow(i));
        RatiosFailAt(original, dna, i);
        return Some(MissingRow(i));
      }
      assert rna.data[i] == original[i];
      var quotient := RowRatio(rna.data[i], dna[i]);
      if quotient.Err? {
        assert Ratios(original, dna, i + 1) == Err(ZeroDivisor(i, quotient.error));
        RatiosFailAt(original, dna, i);
        return Some(ZeroDivisor(i, quotient.error));
      }
      RatiosStep(original, dna, i);
      ReplaceNext(Ratios(original, dna, i).value, quotient.value, original[i..]);
      assert original[i..][1..] == original[i + 1..];
      rna.data := rna.data[i := quotient.value];
      i := i + 1;
    }
    error := None;
  }

  /** The first row that does not divide decides the error. */
  lemma {:induction false} RatiosFailAt(rna: seq<seq<real>>, dna: seq<seq<real>>, i: nat)
    requires i < |dna| && Ratios(rna, dna, i).Ok? && Ratios(rna, dna, i + 1).Err?
    ensures Ratios(rna, dna, |dna|) == Ratios(rna, dna, i + 1)
    ensures ErrorRow(Ratios(rna, dna, i + 1).error) == i
  {
    RatiosErrorPersists(rna, dna, i + 1, |dna|);
  }

  /** One more row that divides extends the quotient rows by its quotient. */
  lemma {:induction false} RatiosStep(rna: seq<seq<real>>, dna: seq<seq<real>>, i: nat)
    requires i < |dna| && i < |rna| && Ratios(rna, dna, i).Ok? && RowRatio(rna[i], dna[i]).Ok?
    ensures Ratios(rna, dna, i + 1) == Ok(Ratios(rna, dna, i).value + [RowRatio(rna[i], dna[i]).value])
  {
  }

  lemma {:induction false} ReplaceNext(done: seq<seq<real>>, row: seq<real>, rest: seq<seq<real>>)
    requires |rest| > 0
    ensures (done + rest)[|done| := row] == done + [row] + rest[1..]
  {
    assert (done + rest)[|done| := row] == done + ([row] + rest[1..]);
  }

  /** Once a row fails, the division of any longer prefix fails the same way. */
  lemma {:induction false} RatiosErrorPersists(rna: seq<seq<real>>, dna: seq<seq<real>>, m: nat, n: nat)
    requires m <= n <= |dna| && Ratios(rna, dna, m).Err?
    ensures Ratios(rna, dna, n) == Ratios(rna, dna, m)
    decreases n - m
  {
    if m < n {
      RatiosErrorPersists(rna, dna, m, n - 1);
    }
  }
}
