/** The data frame the agents pass between them: named columns, each tagged
    with whether pandas classifies its dtype as numeric, and rows of cells. */
module Tables {
  import opened Seqs

  /** One cell; `Null` stands for pandas' missing value (NaN or None). */
  datatype Cell = Null | Num(value: real) | Str(text: string)

  /** A column name and whether `select_dtypes(include=['number'])` selects it. */
  datatype Column = Column(name: string, numeric: bool)

  type Row = seq<Cell>

  datatype Table = Table(columns: seq<Column>, rows: seq<Row>)

  /** A row that fits the columns: one cell per column, and no text in a
      numeric column. */
  predicate RowFits(columns: seq<Column>, row: Row) {
    && |row| == |columns|
    && forall j :: 0 <= j < |row| && columns[j].numeric ==> !row[j].Str?
  }

  /** A data frame is rectangular and its numeric columns hold numbers and nulls only. */
  predicate Valid(t: Table) {
    forall i :: 0 <= i < |t.rows| ==> RowFits(t.columns, t.rows[i])
  }

  /** `list(df.columns)`. */
  function Names(columns: seq<Column>): (r: seq<string>)
    ensures |r| == |columns|
    ensures forall j :: 0 <= j < |columns| ==> r[j] == columns[j].name
  {
    if |columns| == 0 then [] else Names(columns[..|columns| - 1]) + [columns[|columns| - 1].name]
  }

  /** `df.select_dtypes(include=['number']).columns.tolist()`: the numeric
      column names, in column order. */
  function NumericNames(columns: seq<Column>): (r: seq<string>)
    ensures |r| <= |columns|
    ensures forall k :: 0 <= k < |r| ==> r[k] in Names(columns)
    decreases |columns|
  {
    if |columns| == 0 then
      []
    else
      var init, last := columns[..|columns| - 1], columns[|columns| - 1];
      assert Names(columns) == Names(init) + [last.name];
      NumericNames(init) + (if last.numeric then [last.name] else [])
  }

  /** A name belongs to the numeric names exactly when some numeric column has it. */
  lemma {:induction false} NumericNamesMembership(columns: seq<Column>, name: string)
    ensures name in NumericNames(columns) <==>
      exists j :: 0 <= j < |columns| && columns[j].numeric && columns[j].name == name
    decreases |columns|
  {
    if |columns| > 0 {
      var init := columns[..|columns| - 1];
      NumericNamesMembership(init, name);
      if name in NumericNames(init) {
        var j :| 0 <= j < |init| && init[j].numeric && init[j].name == name;
        assert columns[j] == init[j];
      }
      if exists j :: 0 <= j < |columns| && columns[j].numeric && columns[j].name == name {
        var j :| 0 <= j < |columns| && columns[j].numeric && columns[j].name == name;
        if j < |init| {
          assert init[j] == columns[j];
        }
      }
    }
  }

  /** Distinct column names give distinct numeric column names. */
  lemma {:induction false} NumericNamesDistinct(columns: seq<Column>)
    requires Distinct(Names(columns))
    ensures Distinct(NumericNames(columns))
    decreases |columns|
  {
    if |columns| > 0 {
      var init, last := columns[..|columns| - 1], columns[|columns| - 1];
      assert Names(columns) == Names(init) + [last.name];
      assert Distinct(Names(init));
      NumericNamesDistinct(init);
      if last.numeric {
        assert last.name !in Names(init);
      }
    }
  }

  /** The cells of column `j`, top to bottom. */
  function ColumnCells(t: Table, j: int): (r: seq<Cell>)
    requires Valid(t) && 0 <= j < |t.columns|
    ensures |r| == |t.rows|
    ensures forall i :: 0 <= i < |t.rows| ==> r[i] == t.rows[i][j]
  {
    seq(|t.rows|, i requires 0 <= i < |t.rows| => t.rows[i][j])
  }

  /** Some cell of the table is null. */
  predicate HasNullCell(t: Table) {
    exists i, j :: 0 <= i < |t.rows| && 0 <= j < |t.rows[i]| && t.rows[i][j].Null?
  }

  /** Some row repeats an earlier one, as pandas' `duplicated` and
      `drop_duplicates` see it: both return at once on an empty frame (no
      rows or no columns), so rows of a frame without columns never count as
      repeats. */
  predicate HasRepeatedRow(t: Table) {
    |t.columns| > 0 && !Distinct(t.rows)
  }

  /** Column `j` holds at least one number. */
  predicate ColumnHasNumber(t: Table, j: int)
    requires Valid(t) && 0 <= j < |t.columns|
  {
    exists i :: 0 <= i < |t.rows| && t.rows[i][j].Num?
  }
}
