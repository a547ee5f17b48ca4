/**
 * The part of a pandas `DataFrame` that the Yahoo API interface relies on: labelled
 * columns, a labelled row index and cells that may be missing (NaN). Cells are
 * stored row by row, one row per index label.
 */
module DataFrames {
  import opened Wrappers

  datatype DataFrame<V> = DataFrame(columns: seq<string>, index: seq<string>, cells: seq<seq<Option<V>>>)

  /** One row per index label, one cell per column in every row. */
  predicate WellShaped<V>(df: DataFrame<V>)
  {
    |df.cells| == |df.index| && forall r :: 0 <= r < |df.cells| ==> |df.cells[r]| == |df.columns|
  }

  /** No label occurs twice. */
  predicate Distinct(s: seq<string>)
  {
    forall i, j :: 0 <= i < j < |s| ==> s[i] != s[j]
  }

  /** Position of the first occurrence of `x` in `s`. */
  function IndexOf(s: seq<string>, x: string): (i: nat)
    requires x in s
    ensures i < |s| && s[i] == x
    ensures forall j :: 0 <= j < i ==> s[j] != x
  {
    if s[0] == x then 0 else 1 + IndexOf(s[1..], x)
  }

  /** Positions, from `start` on, of the columns carrying `name`, left to right. */
  function PositionsFrom(columns: seq<string>, name: string, start: nat): (ps: seq<nat>)
    requires start <= |columns|
    decreases |columns| - start
    ensures forall k :: 0 <= k < |ps| ==> start <= ps[k] < |columns| && columns[ps[k]] == name
    ensures forall j :: start <= j < |columns| && columns[j] == name ==> j in ps
    ensures forall k, l :: 0 <= k < l < |ps| ==> ps[k] < ps[l]
  {
    if start == |columns| then []
    else if columns[start] == name then [start] + PositionsFrom(columns, name, start + 1)
    else PositionsFrom(columns, name, start + 1)
  }

  /** The column positions `df[fields]` takes: for each field in turn, every column carrying it. */
  function Selection(columns: seq<string>, fields: seq<string>): (ps: seq<nat>)
    ensures forall k :: 0 <= k < |ps| ==> ps[k] < |columns| && columns[ps[k]] in fields
    ensures forall j, f :: 0 <= j < |columns| && 0 <= f < |fields| && columns[j] == fields[f] ==> j in ps
  {
    if |fields| == 0 then []
    else
      var first := PositionsFrom(columns, fields[0], 0);
      var rest := Selection(columns, fields[1..]);
      assert forall f :: 1 <= f < |fields| ==> fields[f] == fields[1..][f - 1];
      first + rest
  }

  /**
   * `df[fields]`: for each listed label in turn, every column carrying it, every
   * row kept. Each selected column carries one of the listed labels, and every
   * column carrying a listed label is selected.
   */
  function Select<V>(df: DataFrame<V>, fields: seq<string>): (selected: DataFrame<V>)
    requires WellShaped(df)
    ensures WellShaped(selected) && selected.index == df.index
    ensures forall k :: 0 <= k < |selected.columns| ==> selected.columns[k] in fields
  {
    var ps := Selection(df.columns, fields);
    DataFrame(seq(|ps|, k requires 0 <= k < |ps| => df.columns[ps[k]]), df.index,
      seq(|df.cells|, r requires 0 <= r < |df.cells| =>
        seq(|ps|, k requires 0 <= k < |ps| => df.cells[r][ps[k]])))
  }

  /** Every column carrying a listed label is among the selected ones, with all its cells. */
  lemma SelectKeepsEveryCarrier<V>(df: DataFrame<V>, fields: seq<string>, j: nat)
    requires WellShaped(df)
    requires j < |df.columns| && df.columns[j] in fields
    ensures exists k :: (0 <= k < |Select(df, fields).columns| && Select(df, fields).columns[k] == df.columns[j]
                         && forall r :: 0 <= r < |df.index| ==> Select(df, fields).cells[r][k] == df.cells[r][j])
  {
    var ps := Selection(df.columns, fields);
    var f :| 0 <= f < |fields| && fields[f] == df.columns[j];
    assert j in ps;
    var k :| 0 <= k < |ps| && ps[k] == j;
    var selected := Select(df, fields);
    assert selected.columns[k] == df.columns[j];
  }

  /** With distinct labels a field picks out just one column, the one carrying it. */
  lemma {:induction false} PositionsOfDistinct(columns: seq<string>, name: string, start: nat)
    requires Distinct(columns) && name in columns && start <= |columns|
    decreases |columns| - start
    ensures PositionsFrom(columns, name, start) == if start <= IndexOf(columns, name) then [IndexOf(columns, name)] else []
  {
    if start < |columns| {
      PositionsOfDistinct(columns, name, start + 1);
    }
  }

  /** With distinct labels, the selected positions are the positions of the fields, one each, in order. */
  lemma {:induction false} SelectionOfDistinct(columns: seq<string>, fields: seq<string>)
    requires Distinct(columns)
    requires forall k :: 0 <= k < |fields| ==> fields[k] in columns
    ensures Selection(columns, fields) == seq(|fields|, k requires 0 <= k < |fields| => IndexOf(columns, fields[k]))
  {
    if |fields| > 0 {
      PositionsOfDistinct(columns, fields[0], 0);
      SelectionOfDistinct(columns, fields[1..]);
    }
  }

  /**
   * On a frame whose column labels are distinct, `df[fields]` has exactly the fields
   * as its columns, in the listed order, and copies each cell from the column
   * carrying that field.
   */
  lemma SelectDistinct<V>(df: DataFrame<V>, fields: seq<string>)
    requires WellShaped(df) && Distinct(df.columns)
    requires forall k :: 0 <= k < |fields| ==> fields[k] in df.columns
    ensures Select(df, fields).columns == fields
    ensures forall r, k :: 0 <= r < |df.index| && 0 <= k < |fields| ==>
      Select(df, fields).cells[r][k] == df.cells[r][IndexOf(df.columns, fields[k])]
  {
    SelectionOfDistinct(df.columns, fields);
  }

  /** No cell of the row is missing. */
  predicate Complete<V>(row: seq<Option<V>>)
  {
    forall c :: 0 <= c < |row| ==> row[c].Some?
  }

  /** Positions, from `start` on, of the rows without a missing cell, in increasing order. */
  function CompleteRowsFrom<V>(cells: seq<seq<Option<V>>>, start: nat): (kept: seq<nat>)
    requires start <= |cells|
    decreases |cells| - start
    ensures forall k :: 0 <= k < |kept| ==> start <= kept[k] < |cells| && Complete(cells[kept[k]])
    ensures forall k, l :: 0 <= k < l < |kept| ==> kept[k] < kept[l]
  {
    if start == |cells| then []
    else if Complete(cells[start]) then [start] + CompleteRowsFrom(cells, start + 1)
    else CompleteRowsFrom(cells, start + 1)
  }

  /** Every complete row from `start` on is among the kept positions. */
  lemma {:induction false} CompleteRowIsKept<V>(cells: seq<seq<Option<V>>>, start: nat, p: nat)
    requires start <= p < |cells| && Complete(cells[p])
    decreases p - start
    ensures p in CompleteRowsFrom(cells, start)
  {
    if start < p {
      CompleteRowIsKept(cells, start + 1, p);
    }
  }

  /** `df.dropna()`: drops every row that has a missing cell and keeps the others in order. */
  function DropNa<V>(df: DataFrame<V>): (dropped: DataFrame<V>)
    requires WellShaped(df)
    ensures WellShaped(dropped)
    ensures dropped.columns == df.columns
  {
    var kept := CompleteRowsFrom(df.cells, 0);
    DataFrame(df.columns,
      seq(|kept|, k requires 0 <= k < |kept| => df.index[kept[k]]),
      seq(|kept|, k requires 0 <= k < |kept| => df.cells[kept[k]]))
  }

  /** `df.T`: rows become columns and columns become rows. */
  function Transposed<V>(df: DataFrame<V>): (t: DataFrame<V>)
    requires WellShaped(df)
    ensures WellShaped(t)
    ensures t.columns == df.index && t.index == df.columns
    ensures forall r, c :: 0 <= r < |df.columns| && 0 <= c < |df.index| ==> t.cells[r][c] == df.cells[c][r]
  {
    DataFrame(df.index, df.columns,
      seq(|df.columns|, r requires 0 <= r < |df.columns| =>
        seq(|df.index|, c requires 0 <= c < |df.index| => df.cells[c][r])))
  }

  /** Every row that `dropna` keeps is complete. */
  lemma DropNaRowsAreComplete<V>(df: DataFrame<V>)
    requires WellShaped(df)
    ensures forall k :: 0 <= k < |DropNa(df).cells| ==> Complete(DropNa(df).cells[k])
  {
    var kept := CompleteRowsFrom(df.cells, 0);
    var dropped := DropNa(df);
    forall k | 0 <= k < |dropped.cells|
      ensures Complete(dropped.cells[k])
    {
      assert dropped.cells[k] == df.cells[kept[k]];
    }
  }

  /**
   * Each remaining row is a row of the input under its own label, and remaining
   * rows keep their relative order: an earlier remaining row comes from an earlier
   * input position.
   */
  lemma DropNaKeepsOrder<V>(df: DataFrame<V>, k: nat, l: nat)
    requires WellShaped(df)
    requires k < l < |DropNa(df).cells|
    ensures exists p, q :: (0 <= p < q < |df.cells|
                             && DropNa(df).cells[k] == df.cells[p] && DropNa(df).index[k] == df.index[p]
                             && DropNa(df).cells[l] == df.cells[q] && DropNa(df).index[l] == df.index[q])
  {
    var kept := CompleteRowsFrom(df.cells, 0);
    var dropped := DropNa(df);
    assert dropped.cells[k] == df.cells[kept[k]] && dropped.index[k] == df.index[kept[k]];
    assert dropped.cells[l] == df.cells[kept[l]] && dropped.index[l] == df.index[kept[l]];
  }

  /** Every complete row of the input remains, under its own label. */
  lemma DropNaKeepsCompleteRows<V>(df: DataFrame<V>, p: nat)
    requires WellShaped(df)
    requires p < |df.cells| && Complete(df.cells[p])
    ensures exists k :: 0 <= k < |DropNa(df).cells| && DropNa(df).cells[k] == df.cells[p] && DropNa(df).index[k] == df.index[p]
  {
    var kept := CompleteRowsFrom(df.cells, 0);
    var dropped := DropNa(df);
    CompleteRowIsKept(df.cells, 0, p);
    var k :| 0 <= k < |kept| && kept[k] == p;
    assert dropped.cells[k] == df.cells[p];
  }

  /** When no row is dropped, the kept positions are exactly `start`, `start + 1`, ... */
  lemma {:induction false} AllCompleteKeepsEveryRow<V>(cells: seq<seq<Option<V>>>, start: nat)
    requires start <= |cells|
    requires forall p :: start <= p < |cells| ==> Complete(cells[p])
    decreases |cells| - start
    ensures |CompleteRowsFrom(cells, start)| == |cells| - start
    ensures forall k :: 0 <= k < |cells| - start ==> CompleteRowsFrom(cells, start)[k] == start + k
  {
    if start < |cells| {
      AllCompleteKeepsEveryRow(cells, start + 1);
      var rest := CompleteRowsFrom(cells, start + 1);
      var all := CompleteRowsFrom(cells, start);
      assert Complete(cells[start]);
      assert all == [start] + rest;
      forall k | 0 <= k < |cells| - start
        ensures all[k] == start + k
      {
        if k > 0 {
          assert all[k] == rest[k - 1];
        }
      }
    }
  }

  /** A frame with no missing cell is left as it is by `dropna`. */
  lemma DropNaOfCompleteFrame<V>(df: DataFrame<V>)
    requires WellShaped(df)
    requires forall p :: 0 <= p < |df.cells| ==> Complete(df.cells[p])
    ensures DropNa(df) == df
  {
    AllCompleteKeepsEveryRow(df.cells, 0);
  }

  /** Dropping missing rows twice is the same as dropping them once. */
  lemma DropNaIdempotent<V>(df: DataFrame<V>)
    requires WellShaped(df)
    ensures DropNa(DropNa(df)) == DropNa(df)
  {
    DropNaRowsAreComplete(df);
    DropNaOfCompleteFrame(DropNa(df));
  }

  /** Transposing twice gives the frame back. */
  lemma TransposeInvolution<V>(df: DataFrame<V>)
    requires WellShaped(df)
    ensures Transposed(Transposed(df)) == df
  {
    var back := Transposed(Transposed(df));
    assert |back.cells| == |df.cells|;
    forall r | 0 <= r < |df.cells|
      ensures back.cells[r] == df.cells[r]
    {
    }
  }

  /** Selecting the columns a frame already has, in its own order, changes nothing when its labels are distinct. */
  lemma SelectAllColumns<V>(df: DataFrame<V>)
    requires WellShaped(df) && Distinct(df.columns)
    ensures Select(df, df.columns) == df
  {
    SelectDistinct(df, df.columns);
    var selected := Select(df, df.columns);
    forall r | 0 <= r < |df.cells|
      ensures selected.cells[r] == df.cells[r]
    {
      forall k | 0 <= k < |df.columns|
        ensures selected.cells[r][k] == df.cells[r][k]
      {
        assert IndexOf(df.columns, df.columns[k]) == k;
      }
    }
  }
}
