/** The profiling agent (`DataAnalyzer.execute`): shape, data-quality flags
    and the ordered list of noise kinds found in a data frame. */
module DataAnalyzer {
  import opened Seqs
  import opened Tables

  const MissingValues: string := "Missing Values"
  const DuplicateRows: string := "Duplicate Rows"

  /** The dict the agent returns. */
  datatype Report = Report(
    totalRows: nat,
    totalColumns: nat,
    isClean: bool,
    noiseTypes: seq<string>,
    original: Table)

  /** Number of null cells in a column. */
  function CountNulls(cells: seq<Cell>): nat
    decreases |cells|
  {
    if |cells| == 0 then 0
    else CountNulls(cells[..|cells| - 1]) + (if cells[|cells| - 1].Null? then 1 else 0)
  }

  /** A column's null count is zero exactly when none of its cells is null. */
  lemma {:induction false} CountNullsZero(cells: seq<Cell>)
    ensures CountNulls(cells) == 0 <==> forall i :: 0 <= i < |cells| ==> !cells[i].Null?
    decreases |cells|
  {
    if |cells| > 0 {
      var init := cells[..|cells| - 1];
      CountNullsZero(init);
      assert forall i :: 0 <= i < |init| ==> init[i] == cells[i];
    }
  }

  /** `df.isnull().sum()`: the null count of every column. */
  function NullCounts(t: Table): (r: seq<nat>)
    requires Valid(t)
    ensures |r| == |t.columns|
  {
    seq(|t.columns|, j requires 0 <= j < |t.columns| => CountNulls(ColumnCells(t, j)))
  }

  function Sum(xs: seq<nat>): nat
    decreases |xs|
  {
    if |xs| == 0 then 0 else Sum(xs[..|xs| - 1]) + xs[|xs| - 1]
  }

  /** A sum of counts is zero exactly when every count is. */
  lemma {:induction false} SumZero(xs: seq<nat>)
    ensures Sum(xs) == 0 <==> forall k :: 0 <= k < |xs| ==> xs[k] == 0
    decreases |xs|
  {
    if |xs| > 0 {
      var init := xs[..|xs| - 1];
      SumZero(init);
      assert forall k :: 0 <= k < |init| ==> init[k] == xs[k];
    }
  }

  /** Both ways pandas detects nulls — some column count positive
      (`isnull().sum().any()`) and total count nonzero (`isnull().sum().sum()`) —
      agree with "some cell is null". */
  lemma NullCountsDetectNulls(t: Table)
    requires Valid(t)
    ensures (exists j :: 0 <= j < |t.columns| && NullCounts(t)[j] > 0) <==> HasNullCell(t)
    ensures Sum(NullCounts(t)) == 0 <==> !HasNullCell(t)
  {
    var counts := NullCounts(t);
    SumZero(counts);
    forall j | 0 <= j < |t.columns|
      ensures counts[j] == 0 <==> forall i :: 0 <= i < |t.rows| ==> !t.rows[i][j].Null?
    {
      CountNullsZero(ColumnCells(t, j));
    }
    if HasNullCell(t) {
      var i, j :| 0 <= i < |t.rows| && 0 <= j < |t.rows[i]| && t.rows[i][j].Null?;
      assert counts[j] > 0;
    }
  }

  /** `df.duplicated()` with `keep='first'`: flags each row equal to an
      earlier row. On a frame without columns pandas returns an empty series. */
  function Duplicated(t: Table): (r: seq<bool>)
    ensures |r| == if |t.columns| == 0 then 0 else |t.rows|
  {
    if |t.columns| == 0 then [] else seq(|t.rows|, i requires 0 <= i < |t.rows| => RepeatsEarlier(t.rows, i))
  }

  /** `df.duplicated().any()` holds exactly when some row repeats an earlier
      one in a frame with columns. */
  lemma DuplicatedDetectsRepeats(t: Table)
    ensures (exists i :: 0 <= i < |Duplicated(t)| && Duplicated(t)[i]) <==> HasRepeatedRow(t)
  {
    if HasRepeatedRow(t) {
      var rows := t.rows;
      var i, j :| 0 <= i < j < |rows| && rows[i] == rows[j];
      assert rows[..j][i] == rows[j];
      assert Duplicated(t)[j];
    }
  }

  /** Lines 15-19: the noise list for the two findings, in that order. */
  function NoiseTypes(missing: bool, repeated: bool): (r: seq<string>)
    ensures MissingValues in r <==> missing
    ensures DuplicateRows in r <==> repeated
    ensures |r| <= 2 && Distinct(r)
    ensures forall i, j :: 0 <= i < |r| && 0 <= j < |r| ==>
              (r[i] == MissingValues && r[j] == DuplicateRows ==> i < j)
    ensures r == [] <==> !missing && !repeated
  {
    (if missing then [MissingValues] else []) + (if repeated then [DuplicateRows] else [])
  }

  /** Profiles a data frame; the frame itself is returned as `original_dataframe`. */
  function Execute(t: Table): (r: Report)
    requires Valid(t)
    ensures r.totalRows == |t.rows| && r.totalColumns == |t.columns|
    ensures r.isClean <==> !HasNullCell(t) && !HasRepeatedRow(t)
    ensures MissingValues in r.noiseTypes <==> HasNullCell(t)
    ensures DuplicateRows in r.noiseTypes <==> HasRepeatedRow(t)
    ensures |r.noiseTypes| <= 2 && Distinct(r.noiseTypes)
    ensures forall i, j :: 0 <= i < |r.noiseTypes| && 0 <= j < |r.noiseTypes| ==>
              (r.noiseTypes[i] == MissingValues && r.noiseTypes[j] == DuplicateRows ==> i < j)
    ensures r.isClean <==> r.noiseTypes == []
    ensures r.noiseTypes == NoiseTypes(HasNullCell(t), HasRepeatedRow(t))
    ensures r.original == t
  {
    var counts := NullCounts(t);
    var duplicated := Duplicated(t);
    NullCountsDetectNulls(t);
    DuplicatedDetectsRepeats(t);
    var anyNull := exists j :: 0 <= j < |counts| && counts[j] > 0;
    var anyDuplicated := exists i :: 0 <= i < |duplicated| && duplicated[i];
    assert anyNull == HasNullCell(t) && anyDuplicated == HasRepeatedRow(t);
    var isClean := Sum(counts) == 0 && !anyDuplicated;
    Report(|t.rows|, |t.columns|, isClean, NoiseTypes(anyNull, anyDuplicated), t)
  }

  /** A frame with rows but no columns (what the DOCX reader builds from
      cell-less rows) is reported clean: pandas finds no duplicates in an
      empty frame. */
  lemma RowsWithoutColumnsAreClean()
    ensures Execute(Table([], [[], []])).isClean
    ensures Execute(Table([], [[], []])).noiseTypes == []
  {
    var t := Table([], [[], []]);
    assert !HasNullCell(t);
    assert !HasRepeatedRow(t);
  }
}
