/** `parse_file`: choosing a reader by file-name suffix, and turning the first
    table of a Word document into one string record per data row. Reading
    the bytes and the CSV/Excel/DOCX libraries themselves are not modelled:
    a document is given as its tables, each a list of rows of cell texts. */
module FileParser {
  import opened Outcomes
  import opened Seqs
  import opened Text

  const UnsupportedFormat: string := "Unsupported file format."

  datatype Format = Csv | Excel | Docx

  /** Lines 11-28: a case-sensitive suffix test, in the source's order. */
  function Dispatch(filename: string): (r: Result<Format>)
    ensures r == Ok(Csv) <==> EndsWith(filename, ".csv")
    ensures r == Ok(Excel) <==> EndsWith(filename, ".xls") || EndsWith(filename, ".xlsx")
    ensures r == Ok(Docx) <==> EndsWith(filename, ".docx")
    ensures r.Err? ==> r.error == ValueError(UnsupportedFormat)
  {
    SuffixesExclusive(filename);
    if EndsWith(filename, ".csv") then Ok(Csv)
    else if EndsWith(filename, ".xls") || EndsWith(filename, ".xlsx") then Ok(Excel)
    else if EndsWith(filename, ".docx") then Ok(Docx)
    else Err(ValueError(UnsupportedFormat))
  }

  /** No name ends in two of the recognised suffixes, so the order of the
      tests does not matter. */
  lemma SuffixesExclusive(filename: string)
    ensures !(EndsWith(filename, ".csv") && (EndsWith(filename, ".xls") || EndsWith(filename, ".xlsx")))
    ensures !(EndsWith(filename, ".csv") && EndsWith(filename, ".docx"))
    ensures !((EndsWith(filename, ".xls") || EndsWith(filename, ".xlsx")) && EndsWith(filename, ".docx"))
  {
    var n := |filename|;
    if EndsWith(filename, ".csv") {
      assert filename[n - 1] == 'v';
    }
    if EndsWith(filename, ".xls") {
      assert filename[n - 1] == 's';
    }
    if EndsWith(filename, ".xlsx") {
      assert filename[n - 1] == 'x' && filename[n - 2] == 's';
    }
    if EndsWith(filename, ".docx") {
      assert filename[n - 1] == 'x' && filename[n - 2] == 'c';
    }
  }

  /** The suffix test is case-sensitive. */
  lemma UpperCaseSuffixRejected()
    ensures Dispatch("DATA.CSV") == Err(ValueError(UnsupportedFormat))
  {
    assert !EndsWith("DATA.CSV", ".csv") by {
      assert "DATA.CSV"[7] == 'V';
    }
    assert !EndsWith("DATA.CSV", ".xls") && !EndsWith("DATA.CSV", ".xlsx");
    assert !EndsWith("DATA.CSV", ".docx");
  }

  /** A Python dict from header texts to cell texts, in insertion order. */
  type Record = seq<(string, string)>

  function Keys(d: Record): (r: seq<string>)
    ensures |r| == |d|
    ensures forall k :: 0 <= k < |d| ==> r[k] == d[k].0
    decreases |d|
  {
    if |d| == 0 then [] else [d[0].0] + Keys(d[1..])
  }

  /** `d[k]`, or `None` when `k` is not a key. */
  function Lookup(d: Record, key: string): Option<string>
    decreases |d|
  {
    if |d| == 0 then None
    else if d[0].0 == key then Some(d[0].1)
    else Lookup(d[1..], key)
  }

  /** `d[key] = value`: an existing key keeps its place and takes the new
      value; a new key goes to the end. */
  function Put(d: Record, key: string, value: string): Record
    decreases |d|
  {
    if |d| == 0 then
      [(key, value)]
    else if d[0].0 == key then
      [(key, value)] + d[1..]
    else
      [d[0]] + Put(d[1..], key, value)
  }

  /** `Put` keeps every existing key in place, or appends the new pair. */
  lemma PutShape(d: Record, key: string, value: string)
    ensures key in Keys(d) ==>
              |Put(d, key, value)| == |d| && forall i :: 0 <= i < |d| ==> Put(d, key, value)[i].0 == d[i].0
    ensures key !in Keys(d) ==> Put(d, key, value) == d + [(key, value)]
  {
    if key in Keys(d) {
      PutKeepsKeys(d, key, value);
    } else {
      PutAppends(d, key, value);
    }
  }

  lemma {:induction false} PutKeepsKeys(d: Record, key: string, value: string)
    requires key in Keys(d)
    ensures |Put(d, key, value)| == |d|
    ensures forall i :: 0 <= i < |d| ==> Put(d, key, value)[i].0 == d[i].0
    decreases |d|
  {
    var rest := d[1..];
    assert Keys(d) == [d[0].0] + Keys(rest);
    if d[0].0 != key {
      PutKeepsKeys(rest, key, value);
      var p := Put(rest, key, value);
      assert Put(d, key, value) == [d[0]] + p;
      forall i | 0 <= i < |d|
        ensures ([d[0]] + p)[i].0 == d[i].0
      {
        if i > 0 {
          assert ([d[0]] + p)[i] == p[i - 1] && d[i] == rest[i - 1];
        }
      }
    }
  }

  lemma {:induction false} PutAppends(d: Record, key: string, value: string)
    requires key !in Keys(d)
    ensures Put(d, key, value) == d + [(key, value)]
    decreases |d|
  {
    if |d| > 0 {
      var rest := d[1..];
      assert Keys(d) == [d[0].0] + Keys(rest);
      assert d[0].0 != key;
      PutAppends(rest, key, value);
      assert d + [(key, value)] == [d[0]] + (rest + [(key, value)]);
    }
  }

  lemma PutKeys(d: Record, key: string, value: string)
    ensures Keys(Put(d, key, value)) == if key in Keys(d) then Keys(d) else Keys(d) + [key]
  {
    PutShape(d, key, value);
    var p := Put(d, key, value);
    if key !in Keys(d) {
      assert Keys(p) == Keys(d) + [key];
    }
  }

  lemma {:induction false} LookupPut(d: Record, key: string, value: string, other: string)
    ensures Lookup(Put(d, key, value), key) == Some(value)
    ensures other != key ==> Lookup(Put(d, key, value), other) == Lookup(d, other)
    decreases |d|
  {
    if |d| > 0 && d[0].0 != key {
      LookupPut(d[1..], key, value, other);
      var r := Put(d, key, value);
      assert r[1..] == Put(d[1..], key, value);
    }
  }

  /** Line 24 for one row whose cells all have a header: `{keys[j]: cells[j]}`
      built left to right. */
  function RowDict(keys: seq<string>, cells: seq<string>): Record
    requires |cells| <= |keys|
    decreases |cells|
  {
    if |cells| == 0 then []
    else
      var n := |cells| - 1;
      Put(RowDict(keys, cells[..n]), keys[n], cells[n])
  }

  /** The record's keys are the headers of its cells, each once, in the
      order of their first appearance. */
  lemma {:induction false} RowDictKeys(keys: seq<string>, cells: seq<string>)
    requires |cells| <= |keys|
    ensures Keys(RowDict(keys, cells)) == Dedup(keys[..|cells|])
    decreases |cells|
  {
    if |cells| > 0 {
      var n := |cells| - 1;
      var prefix := keys[..|cells|];
      var d := RowDict(keys, cells[..n]);
      assert RowDict(keys, cells) == Put(d, keys[n], cells[n]);
      RowDictKeys(keys, cells[..n]);
      PutKeys(d, keys[n], cells[n]);
      assert prefix[..n] == keys[..n] && prefix[n] == keys[n];
      assert Dedup(prefix) == Dedup(keys[..n]) + (if keys[n] in keys[..n] then [] else [keys[n]]);
      DedupMembers(keys[..n], keys[n]);
    }
  }

  /** A header's value is the cell of its last column: with repeated
      header texts the later column wins; a header with no cell in this row is
      absent. */
  lemma {:induction false} RowDictLookup(keys: seq<string>, cells: seq<string>, key: string)
    requires |cells| <= |keys|
    ensures key in keys[..|cells|] ==> Lookup(RowDict(keys, cells), key) == Some(cells[LastIndex(keys[..|cells|], key)])
    ensures key !in keys[..|cells|] ==> Lookup(RowDict(keys, cells), key) == None
    decreases |cells|
  {
    if |cells| > 0 {
      var n := |cells| - 1;
      var prefix := keys[..|cells|];
      var shorter := cells[..n];
      var d := RowDict(keys, shorter);
      assert RowDict(keys, cells) == Put(d, keys[n], cells[n]);
      assert prefix[..n] == keys[..n] && prefix[n] == keys[n];
      LookupPut(d, keys[n], cells[n], key);
      if key == keys[n] {
        assert LastIndex(prefix, key) == n;
      } else {
        RowDictLookup(keys, shorter, key);
        assert key in prefix <==> key in keys[..n] by {
          assert prefix == keys[..n] + [keys[n]];
        }
        if key in keys[..n] {
          var j := LastIndex(keys[..n], key);
          assert LastIndex(prefix, key) == j;
          assert shorter[j] == cells[j];
        }
      }
    }
  }

  /** With distinct header texts, the record pairs headers and cells position by position. */
  lemma {:induction false} RowDictDistinct(keys: seq<string>, cells: seq<string>)
    requires |cells| <= |keys|
    requires Distinct(keys)
    ensures RowDict(keys, cells) == seq(|cells|, j requires 0 <= j < |cells| => (keys[j], cells[j]))
    decreases |cells|
  {
    if |cells| > 0 {
      var n := |cells| - 1;
      var shorter := cells[..n];
      RowDictDistinct(keys, shorter);
      var d := RowDict(keys, shorter);
      assert Keys(d) == keys[..n];
      assert keys[n] !in keys[..n];
      PutNew(d, keys[n], cells[n]);
    }
  }

  /** Helper: a new key is appended. */
  lemma {:induction false} PutNew(d: Record, key: string, value: string)
    requires key !in Keys(d)
    ensures Put(d, key, value) == d + [(key, value)]
    decreases |d|
  {
    if |d| > 0 {
      assert Keys(d) == [d[0].0] + Keys(d[1..]);
      PutNew(d[1..], key, value);
      assert d == [d[0]] + d[1..];
    }
  }

  /** Line 24 for one row: a row with more cells than the header row fails
      on `keys[j]` with an `IndexError`. */
  function RowRecord(keys: seq<string>, cells: seq<string>): (r: Result<Record>)
    ensures r.Err? <==> |cells| > |keys|
    ensures r.Err? ==> r.error.IndexError?
    ensures r.Ok? ==> r.value == RowDict(keys, cells)
  {
    if |cells| > |keys| then Err(IndexError("list index out of range"))
    else Ok(RowDict(keys, cells))
  }

  /** Lines 21-25: the records of the data rows, in order. */
  function RowRecords(keys: seq<string>, rows: seq<seq<string>>): (r: Result<seq<Record>>)
    ensures r.Ok? <==> forall i :: 0 <= i < |rows| ==> |rows[i]| <= |keys|
    ensures r.Err? ==> r.error.IndexError?
    ensures r.Ok? ==> |r.value| == |rows|
    ensures r.Ok? ==> forall i :: 0 <= i < |rows| ==> r.value[i] == RowDict(keys, rows[i])
    decreases |rows|
  {
    if |rows| == 0 then
      Ok([])
    else
      var n := |rows| - 1;
      var init := RowRecords(keys, rows[..n]);
      assert forall i :: 0 <= i < n ==> rows[..n][i] == rows[i];
      if init.Err? then
        Err(init.error)
      else
        match RowRecord(keys, rows[n])
        case Err(e) => Err(e)
        case Ok(record) =>
          var r := init.value + [record];
          assert forall i :: 0 <= i < n ==> r[i] == init.value[i];
          Ok(r)
  }

  /** Lines 16-25: the first table's first row gives the keys and every
      later row one record. A document without a table, or a table without
      rows, fails with `IndexError`. */
  function DocxRecords(tables: seq<seq<seq<string>>>): (r: Result<seq<Record>>)
    ensures r.Ok? <==>
              |tables| > 0 && |tables[0]| > 0 &&
              forall i :: 1 <= i < |tables[0]| ==> |tables[0][i]| <= |tables[0][0]|
    ensures r.Err? ==> r.error.IndexError?
    ensures r.Ok? ==> |r.value| == |tables[0]| - 1
    ensures r.Ok? ==> forall i :: 0 <= i < |r.value| ==> r.value[i] == RowDict(tables[0][0], tables[0][i + 1])
  {
    if |tables| == 0 then
      Err(IndexError("list index out of range"))
    else
      var table := tables[0];
      if |table| == 0 then
        Err(IndexError("list index out of range"))
      else
        var r := RowRecords(table[0], table[1..]);
        assert forall i :: 1 <= i < |table| ==> table[i] == table[1..][i - 1];
        r
  }

  /** What `parse_file` hands on: a frame read by pandas, or the DOCX records. */
  datatype Parsed = CsvFrame | ExcelFrame | DocxFrame(records: seq<Record>)

  /** `parse_file` with the document's tables standing for its contents. */
  function ParseFile(filename: string, tables: seq<seq<seq<string>>>): (r: Result<Parsed>)
    ensures r.Ok? && r.value.CsvFrame? <==> EndsWith(filename, ".csv")
    ensures r.Ok? && r.value.ExcelFrame? <==> EndsWith(filename, ".xls") || EndsWith(filename, ".xlsx")
    ensures r.Ok? && r.value.DocxFrame? <==> EndsWith(filename, ".docx") && DocxRecords(tables).Ok?
    ensures r.Ok? && r.value.DocxFrame? ==> DocxRecords(tables) == Ok(r.value.records)
    ensures r == Err(ValueError(UnsupportedFormat)) <==>
              !EndsWith(filename, ".csv") && !EndsWith(filename, ".xls") &&
              !EndsWith(filename, ".xlsx") && !EndsWith(filename, ".docx")
    ensures r.Err? && r.error.IndexError? <==> EndsWith(filename, ".docx") && DocxRecords(tables).Err?
  {
    var format :- Dispatch(filename);
    match format
    case Csv => Ok(CsvFrame)
    case Excel => Ok(ExcelFrame)
    case Docx =>
      var records :- DocxRecords(tables);
      Ok(DocxFrame(records))
  }
}
