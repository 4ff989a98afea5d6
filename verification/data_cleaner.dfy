/** The cleaning agent (`DataCleaner.execute`): mean imputation of the
    numeric columns, then removal of repeated rows keeping the first. Tables
    are immutable values, so the agent's defensive copy of its input is
    implicit: no operation here can change the table it is given. */
module DataCleaner {
  import opened Outcomes
  import opened Seqs
  import opened Tables

  /** Sum of the numbers in a column (nulls skipped). */
  function NumberSum(cells: seq<Cell>): real
    decreases |cells|
  {
    if |cells| == 0 then 0.0
    else NumberSum(cells[..|cells| - 1]) + (if cells[|cells| - 1].Num? then cells[|cells| - 1].value else 0.0)
  }

  /** How many cells of a column hold numbers. */
  function NumberCount(cells: seq<Cell>): nat
    decreases |cells|
  {
    if |cells| == 0 then 0
    else NumberCount(cells[..|cells| - 1]) + (if cells[|cells| - 1].Num? then 1 else 0)
  }

  lemma {:induction false} NumberCountZero(cells: seq<Cell>)
    ensures NumberCount(cells) == 0 <==> forall i :: 0 <= i < |cells| ==> !cells[i].Num?
    decreases |cells|
  {
    if |cells| > 0 {
      var init := cells[..|cells| - 1];
      NumberCountZero(init);
      assert forall i :: 0 <= i < |init| ==> init[i] == cells[i];
    }
  }

  /** `x` is the arithmetic mean of the numbers among `cells`. */
  predicate IsMeanOf(x: real, cells: seq<Cell>) {
    x * (NumberCount(cells) as real) == NumberSum(cells)
  }

  /** `df[col].mean()` with nulls skipped. With no number at all pandas
      yields NaN, which `fillna` ignores; the model returns `None`. */
  function Mean(cells: seq<Cell>): (m: Option<real>)
    ensures m.None? <==> forall i :: 0 <= i < |cells| ==> !cells[i].Num?
    ensures m.Some? ==> IsMeanOf(m.value, cells)
  {
    NumberCountZero(cells);
    var n := NumberCount(cells);
    if n == 0 then None else Some(NumberSum(cells) / (n as real))
  }

  /** The fill value of every column: its mean when it is numeric. */
  function FillValues(t: Table): (r: seq<Option<real>>)
    requires Valid(t)
    ensures |r| == |t.columns|
    ensures forall j :: 0 <= j < |t.columns| ==>
              (r[j].Some? <==> t.columns[j].numeric && ColumnHasNumber(t, j))
    ensures forall j :: 0 <= j < |t.columns| && r[j].Some? ==>
              r[j] == Mean(ColumnCells(t, j))
  {
    seq(|t.columns|, j requires 0 <= j < |t.columns| =>
      if t.columns[j].numeric then Mean(ColumnCells(t, j)) else None)
  }

  function FillRow(row: Row, fill: seq<Option<real>>): (r: Row)
    requires |row| == |fill|
    ensures |r| == |row|
    ensures forall j :: 0 <= j < |row| ==>
              r[j] == if row[j].Null? && fill[j].Some? then Num(fill[j].value) else row[j]
  {
    seq(|row|, j requires 0 <= j < |row| =>
      if row[j].Null? && fill[j].Some? then Num(fill[j].value) else row[j])
  }

  function FilledRows(t: Table): (r: seq<Row>)
    requires Valid(t)
    ensures |r| == |t.rows|
    ensures forall i :: 0 <= i < |t.rows| ==> r[i] == FillRow(t.rows[i], FillValues(t))
  {
    var fill := FillValues(t);
    seq(|t.rows|, i requires 0 <= i < |t.rows| => FillRow(t.rows[i], fill))
  }

  /** Helper: what filling does to one cell. */
  lemma FilledCell(t: Table, i: int, j: int)
    requires Valid(t) && 0 <= i < |t.rows| && 0 <= j < |t.columns|
    ensures RowFits(t.columns, FilledRows(t)[i])
    ensures !(t.columns[j].numeric && t.rows[i][j].Null?) ==> FilledRows(t)[i][j] == t.rows[i][j]
    ensures !ColumnHasNumber(t, j) ==> FilledRows(t)[i][j] == t.rows[i][j]
    ensures t.columns[j].numeric && t.rows[i][j].Null? && ColumnHasNumber(t, j) ==>
              && FilledRows(t)[i][j].Num?
              && IsMeanOf(FilledRows(t)[i][j].value, ColumnCells(t, j))
  {
    assert RowFits(t.columns, t.rows[i]);
  }

  /** `rows` are the rows of `t` with each numeric column's nulls filled by
      the mean of its numbers: only nulls of numeric columns change, a column
      without any number (all null, or empty) is left alone, and every other
      null of a numeric column becomes the mean. */
  predicate ImputedFrom(t: Table, rows: seq<Row>) {
    && Valid(t) && |rows| == |t.rows|
    && (forall i :: 0 <= i < |rows| ==> RowFits(t.columns, rows[i]))
    && (forall i, j :: 0 <= i < |t.rows| && 0 <= j < |t.columns| ==>
          (!(t.columns[j].numeric && t.rows[i][j].Null?) ==> rows[i][j] == t.rows[i][j]))
    && (forall i, j :: 0 <= i < |t.rows| && 0 <= j < |t.columns| ==>
          (!ColumnHasNumber(t, j) ==> rows[i][j] == t.rows[i][j]))
    && (forall i, j :: 0 <= i < |t.rows| && 0 <= j < |t.columns| ==>
          (t.columns[j].numeric && t.rows[i][j].Null? && ColumnHasNumber(t, j) ==>
             && rows[i][j].Num?
             && IsMeanOf(rows[i][j].value, ColumnCells(t, j))))
  }

  /** Lines 12-14: every numeric column gets its nulls replaced by the mean of
      its numbers. Columns are independent, so computing all means from the
      input is the same as the source's column-by-column loop. */
  function Impute(t: Table): (r: Table)
    requires Valid(t)
    ensures Valid(r) && r.columns == t.columns
    ensures ImputedFrom(t, r.rows)
  {
    var rows := FilledRows(t);
    ImputeCells(t);
    Table(t.columns, rows)
  }

  lemma ImputeCells(t: Table)
    requires Valid(t)
    ensures ImputedFrom(t, FilledRows(t))
  {
    var rows := FilledRows(t);
    forall i | 0 <= i < |t.rows|
      ensures RowFits(t.columns, rows[i])
    {
      if |t.columns| > 0 {
        FilledCell(t, i, 0);
      } else {
        assert RowFits(t.columns, t.rows[i]);
      }
    }
    forall i, j | 0 <= i < |t.rows| && 0 <= j < |t.columns| {
      FilledCell(t, i, j);
    }
  }

  /** The agent: impute, then `drop_duplicates()` (first occurrence kept).
      On a frame without columns `drop_duplicates` returns a copy at once, so
      such a frame passes through whole. */
  function Execute(t: Table): (r: Table)
    requires Valid(t)
    ensures Valid(r) && r.columns == t.columns
    ensures |r.rows| <= |t.rows|
    ensures !HasRepeatedRow(r)
    ensures |t.columns| == 0 ==> r == t
    ensures forall i, j :: 0 <= i < |r.rows| && 0 <= j < |t.columns| ==>
              (t.columns[j].numeric && ColumnHasNumber(t, j) ==> !r.rows[i][j].Null?)
    ensures forall i :: 0 <= i < |r.rows| ==> r.rows[i] in Impute(t).rows
    ensures forall i :: 0 <= i < |t.rows| ==> Impute(t).rows[i] in r.rows
  {
    var imputed := Impute(t);
    if |t.columns| == 0 then
      assert forall i :: 0 <= i < |t.rows| ==> imputed.rows[i] == [] == t.rows[i];
      assert imputed == t;
      t
    else
      var rows := Dedup(imputed.rows);
      assert forall i :: 0 <= i < |rows| ==> exists k :: 0 <= k < |imputed.rows| && rows[i] == imputed.rows[k];
      Table(t.columns, rows)
  }

  /** In a frame with columns, the surviving rows are the first occurrences,
      in their original order. */
  lemma CleanKeepsFirstOccurrences(t: Table)
    requires Valid(t)
    ensures |t.columns| > 0 ==>
              forall i, j :: 0 <= i < j < |Execute(t).rows| ==>
                FirstIndex(Impute(t).rows, Execute(t).rows[i]) < FirstIndex(Impute(t).rows, Execute(t).rows[j])
  {
    DedupKeepsFirstOrder(Impute(t).rows);
  }

  /** Imputation leaves a table alone when every numeric column that holds a
      number holds no null. */
  lemma ImputeNoop(t: Table)
    requires Valid(t)
    requires forall i, j :: 0 <= i < |t.rows| && 0 <= j < |t.columns| ==>
               (t.columns[j].numeric && ColumnHasNumber(t, j) ==> !t.rows[i][j].Null?)
    ensures Impute(t) == t
  {
    var r := Impute(t);
    forall i | 0 <= i < |t.rows|
      ensures r.rows[i] == t.rows[i]
    {
      assert forall j :: 0 <= j < |t.columns| ==> r.rows[i][j] == t.rows[i][j];
    }
  }

  /** Cleaning a cleaned table changes nothing. */
  lemma CleanIdempotent(t: Table)
    requires Valid(t)
    ensures Execute(Execute(t)) == Execute(t)
  {
    var c := Execute(t);
    var imputed := Impute(t);
    forall i, j | 0 <= i < |c.rows| && 0 <= j < |c.columns| && c.columns[j].numeric && ColumnHasNumber(c, j)
      ensures !c.rows[i][j].Null?
    {
      var k :| 0 <= k < |c.rows| && c.rows[k][j].Num?;
      var m :| 0 <= m < |imputed.rows| && imputed.rows[m] == c.rows[k];
      assert ColumnHasNumber(t, j);
    }
    if |t.columns| > 0 {
      ImputeNoop(c);
      DedupOfDistinct(c.rows);
    }
  }

  /** Imputation runs before de-duplication, so a row whose only difference
      from an earlier row is a null that becomes the mean is dropped. */
  lemma ImputedRowsCollapse()
    ensures Execute(Table([Column("x", true)], [[Num(2.0)], [Null]])).rows == [[Num(2.0)]]
  {
    var t := Table([Column("x", true)], [[Num(2.0)], [Null]]);
    var cells := ColumnCells(t, 0);
    assert cells == [Num(2.0), Null];
    assert cells[..1] == [Num(2.0)] && cells[..1][..0] == [];
    assert NumberCount(cells) == 1 && NumberSum(cells) == 2.0;
    var imputed := Impute(t);
    assert FillValues(t) == [Some(2.0)];
    assert imputed.rows[0] == [Num(2.0)] && imputed.rows[1] == [Num(2.0)];
    assert imputed.rows == [[Num(2.0)], [Num(2.0)]];
    assert imputed.rows[..1] == [[Num(2.0)]];
  }
}
