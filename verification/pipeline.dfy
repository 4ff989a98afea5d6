/** The two request flows of the HTTP layer, as compositions of the agents:
    analyze = profile, then clean, then PCA (its outcome only); predict =
    prediction agent, then chart agent. */
module Pipeline {
  import opened Outcomes
  import opened Seqs
  import opened Tables
  import opened Json
  import DataAnalyzer
  import DataCleaner
  import PredictionAgent
  import VisualizationGenerator

  /** What `pca_performer.py` did with the numeric part of the cleaned frame:
      skipped it (`pca_result` is the empty dict) or computed two components.
      The component values are not modelled. */
  datatype PcaOutcome = Skipped | Computed

  /** The analyze response. */
  datatype Analysis = Analysis(
    totalRows: nat,
    totalColumns: nat,
    isClean: bool,
    noiseTypes: seq<string>,
    cleaned: Table,
    pca: PcaOutcome)

  /** Some numeric column of `t` holds a null, which reaches PCA as NaN. */
  predicate NumericNull(t: Table)
    requires Valid(t)
  {
    exists i, j :: 0 <= i < |t.rows| && 0 <= j < |t.columns| && t.columns[j].numeric && t.rows[i][j].Null?
  }

  /** `pca_performer.py` lines 13-25. An empty numeric frame (no numeric
      column or no row) skips PCA. Otherwise scikit-learn's input check
      rejects NaN, and `PCA(n_components=2)` needs at least two samples and
      two features; either failure is a `ValueError`. */
  function Pca(t: Table): (r: Result<PcaOutcome>)
    requires Valid(t)
    ensures r == Ok(Skipped) <==> |NumericNames(t.columns)| == 0 || |t.rows| == 0
    ensures r.Err? <==>
              && |NumericNames(t.columns)| > 0 && |t.rows| > 0
              && (NumericNull(t) || |NumericNames(t.columns)| < 2 || |t.rows| < 2)
    ensures r.Err? ==> r.error.ValueError?
  {
    var features := |NumericNames(t.columns)|;
    if features == 0 || |t.rows| == 0 then
      Ok(Skipped)
    else if NumericNull(t) then
      Err(ValueError("Input X contains NaN."))
    else if features < 2 || |t.rows| < 2 then
      Err(ValueError("n_components=2 must be between 0 and min(n_samples, n_features)"))
    else
      Ok(Computed)
  }

  /** `main.py` lines 32-63: profile, clean, run PCA on the cleaned frame and
      report the counts and flags of the frame before cleaning. Any
      exception becomes the HTTP error of line 63, here the `Err` itself. */
  function Analyze(t: Table): (r: Result<Analysis>)
    requires Valid(t)
    ensures r.Err? <==> Pca(DataCleaner.Execute(t)).Err?
    ensures r.Err? ==> r.error.ValueError?
    ensures r.Ok? ==>
              && r.value.totalRows == |t.rows| && r.value.totalColumns == |t.columns|
              && (r.value.isClean <==> !HasNullCell(t) && !HasRepeatedRow(t))
              && (r.value.isClean <==> r.value.noiseTypes == [])
              && (DataAnalyzer.MissingValues in r.value.noiseTypes <==> HasNullCell(t))
              && (DataAnalyzer.DuplicateRows in r.value.noiseTypes <==> HasRepeatedRow(t))
              && r.value.noiseTypes == DataAnalyzer.NoiseTypes(HasNullCell(t), HasRepeatedRow(t))
              && r.value.cleaned == DataCleaner.Execute(t)
              && r.value.pca == Pca(DataCleaner.Execute(t)).value
  {
    var report := DataAnalyzer.Execute(t);
    var cleaned := DataCleaner.Execute(report.original);
    var pca :- Pca(cleaned);
    Ok(Analysis(report.totalRows, report.totalColumns, report.isClean, report.noiseTypes, cleaned, pca))
  }

  /** Helper: cleaning a frame with rows and columns keeps at least one row. */
  lemma CleanedNotEmpty(t: Table)
    requires Valid(t) && |t.rows| > 0 && |t.columns| > 0
    ensures |DataCleaner.Execute(t).rows| > 0
  {
    assert DataCleaner.Impute(t).rows[0] in DataCleaner.Execute(t).rows;
  }

  /** A numeric column without a single number stays null through cleaning,
      so PCA receives NaN and the request fails. */
  lemma AllNullNumericColumnFails(t: Table, j: int)
    requires Valid(t) && |t.rows| > 0
    requires 0 <= j < |t.columns| && t.columns[j].numeric && !ColumnHasNumber(t, j)
    ensures Analyze(t).Err?
  {
    var c := DataCleaner.Execute(t);
    var imputed := DataCleaner.Impute(t);
    CleanedNotEmpty(t);
    var k :| 0 <= k < |imputed.rows| && c.rows[0] == imputed.rows[k];
    assert imputed.rows[k][j] == t.rows[k][j];
    assert RowFits(t.columns, t.rows[k]);
    assert c.rows[0][j].Null?;
    assert NumericNull(c);
    NumericNamesMembership(t.columns, t.columns[j].name);
  }

  /** With a single numeric column PCA cannot find two components, so any
      frame with rows fails. */
  lemma OneNumericColumnFails(t: Table)
    requires Valid(t) && |t.rows| > 0
    requires |NumericNames(t.columns)| == 1
    ensures Analyze(t).Err?
  {
    CleanedNotEmpty(t);
  }

  /** A frame with no null, no repeated row, at least two rows and at least
      two numeric columns is analyzed: cleaning leaves it as it is and PCA
      runs. */
  lemma CleanFrameGetsPca(t: Table)
    requires Valid(t) && |t.rows| >= 2 && |NumericNames(t.columns)| >= 2
    requires !HasNullCell(t) && Distinct(t.rows)
    ensures Analyze(t).Ok?
    ensures Analyze(t).value.isClean && Analyze(t).value.cleaned == t
    ensures Analyze(t).value.pca == Computed
  {
    DataCleaner.ImputeNoop(t);
    DedupOfDistinct(t.rows);
    assert DataCleaner.Execute(t) == t;
    forall i, j | 0 <= i < |t.rows| && 0 <= j < |t.columns|
      ensures !t.rows[i][j].Null?
    {
      assert RowFits(t.columns, t.rows[i]);
    }
  }

  /** Imputation fills equal rows alike, so it keeps repeated rows repeated. */
  lemma ImputeKeepsRepeats(t: Table)
    requires Valid(t)
    requires !Distinct(t.rows)
    ensures !Distinct(DataCleaner.Impute(t).rows)
  {
    var i, j :| 0 <= i < j < |t.rows| && t.rows[i] == t.rows[j];
    var r := DataCleaner.Impute(t);
    assert forall k :: 0 <= k < |t.columns| ==> r.rows[i][k] == r.rows[j][k];
    assert r.rows[i] == r.rows[j];
  }

  /** The reported row count is the pre-clean one: when "Duplicate Rows" is
      reported, it exceeds the number of rows the response carries. */
  lemma ReportedRowsArePreClean(t: Table)
    requires Valid(t)
    ensures DataAnalyzer.DuplicateRows in DataAnalyzer.Execute(t).noiseTypes ==>
              |DataCleaner.Execute(t).rows| < |t.rows|
    ensures Analyze(t).Ok? && DataAnalyzer.DuplicateRows in Analyze(t).value.noiseTypes ==>
              |Analyze(t).value.cleaned.rows| < Analyze(t).value.totalRows
  {
    if HasRepeatedRow(t) {
      ImputeKeepsRepeats(t);
      DedupShrinks(DataCleaner.Impute(t).rows);
    }
  }

  /** `main.py` lines 77-90: the prediction agent's dict goes straight to the
      chart agent. */
  function Predict(t: Table, cleanedData: Json, reply: string, decode: string -> Option<Json>,
                   fit: PredictionAgent.Fit): Result<Json>
  {
    var prediction :- PredictionAgent.Execute(t, cleanedData, reply, decode, fit);
    VisualizationGenerator.Execute(prediction)
  }

  /** The chart agent never fails on the prediction agent's output, and its
      `model_info` shows the resolved selection and the fit's error. */
  lemma PredictChartShowsSelection(t: Table, cleanedData: Json, reply: string,
                                   decode: string -> Option<Json>, fit: PredictionAgent.Fit)
    ensures Predict(t, cleanedData, reply, decode, fit).Ok? <==>
              PredictionAgent.Execute(t, cleanedData, reply, decode, fit).Ok?
    ensures Predict(t, cleanedData, reply, decode, fit).Ok? ==>
              var chart := Predict(t, cleanedData, reply, decode, fit).value;
              var sel := PredictionAgent.Resolve(t, reply, decode).value;
              && Path(chart, ["chart_data", "model_info", "model_name"]) == Some(JStr(PredictionAgent.ModelName))
              && Path(chart, ["chart_data", "model_info", "target_variable"]) == Some(JStr(sel.target))
              && Path(chart, ["chart_data", "model_info", "feature_variables"]) == Some(Strings(sel.features))
              && Path(chart, ["chart_data", "model_info", "mse"]) == Some(JNum(fit.mse))
              && Path(chart, ["chart_data", "predictions_vs_actual", "predictions"]) == Some(Numbers(fit.predictions))
              && Path(chart, ["chart_data", "predictions_vs_actual", "actual_values"]) == Some(Numbers(fit.actuals))
              && Path(chart, ["cleaned_data"]) == Some(cleanedData)
  {
    var p := PredictionAgent.Execute(t, cleanedData, reply, decode, fit);
    if p.Ok? {
      var sel := PredictionAgent.Resolve(t, reply, decode).value;
      assert p.value == PredictionAgent.ResultRecord(sel, fit, cleanedData);
      ChartOfResultRecord(sel, fit, cleanedData);
    }
  }

  /** Helper: the chart agent accepts every result record and shows its fields. */
  lemma ChartOfResultRecord(sel: PredictionAgent.Selection, fit: PredictionAgent.Fit, cleanedData: Json)
    ensures VisualizationGenerator.Execute(PredictionAgent.ResultRecord(sel, fit, cleanedData)).Ok?
    ensures
      var chart := VisualizationGenerator.Execute(PredictionAgent.ResultRecord(sel, fit, cleanedData)).value;
      && Path(chart, ["chart_data", "model_info", "model_name"]) == Some(JStr(PredictionAgent.ModelName))
      && Path(chart, ["chart_data", "model_info", "target_variable"]) == Some(JStr(sel.target))
      && Path(chart, ["chart_data", "model_info", "feature_variables"]) == Some(Strings(sel.features))
      && Path(chart, ["chart_data", "model_info", "mse"]) == Some(JNum(fit.mse))
      && Path(chart, ["chart_data", "predictions_vs_actual", "predictions"]) == Some(Numbers(fit.predictions))
      && Path(chart, ["chart_data", "predictions_vs_actual", "actual_values"]) == Some(Numbers(fit.actuals))
      && Path(chart, ["cleaned_data"]) == Some(cleanedData)
  {
    var record := PredictionAgent.ResultRecord(sel, fit, cleanedData);
    GetAt(record.entries, 0);
    GetAt(record.entries, 1);
    PredictionAgent.PredictionResultsShape(sel, fit);
  }

  /** A worked example: areas 10..40 and prices
      100..400, and a reply that does not decode. The fallback predicts
      `price` from `area`, one of the four rows is held out, and the chart
      names that selection. */
  lemma AreaPriceScenario(reply: string, decode: string -> Option<Json>, fit: PredictionAgent.Fit)
    requires decode(PredictionAgent.StripFences(reply)).None?
    ensures
      var t := Table([Column("area", true), Column("price", true)],
                     [[Num(10.0), Num(100.0)], [Num(20.0), Num(200.0)],
                      [Num(30.0), Num(300.0)], [Num(40.0), Num(400.0)]]);
      var records := JArr([JObj([("area", JNum(10.0)), ("price", JNum(100.0))]),
                           JObj([("area", JNum(20.0)), ("price", JNum(200.0))]),
                           JObj([("area", JNum(30.0)), ("price", JNum(300.0))]),
                           JObj([("area", JNum(40.0)), ("price", JNum(400.0))])]);
      && PredictionAgent.Resolve(t, reply, decode) == Ok(PredictionAgent.Selection("price", ["area"]))
      && PredictionAgent.HeldOutRows(|t.rows|) == 1
      && Predict(t, records, reply, decode, fit).Ok?
      && Path(Predict(t, records, reply, decode, fit).value, ["chart_data", "model_info", "target_variable"])
         == Some(JStr("price"))
  {
    var t := Table([Column("area", true), Column("price", true)],
                   [[Num(10.0), Num(100.0)], [Num(20.0), Num(200.0)],
                    [Num(30.0), Num(300.0)], [Num(40.0), Num(400.0)]]);
    var records := JArr([JObj([("area", JNum(10.0)), ("price", JNum(100.0))]),
                         JObj([("area", JNum(20.0)), ("price", JNum(200.0))]),
                         JObj([("area", JNum(30.0)), ("price", JNum(300.0))]),
                         JObj([("area", JNum(40.0)), ("price", JNum(400.0))])]);
    assert t.columns[..1] == [Column("area", true)] && t.columns[..1][..0] == [];
    assert NumericNames(t.columns) == ["area", "price"];
    PredictionAgent.FallbackOfTwoNumericColumns(t, "area", "price");
    assert PredictionAgent.TestSize(4) == 0.2;
    assert PredictionAgent.HeldOutRows(4) == 1;
    PredictChartShowsSelection(t, records, reply, decode, fit);
  }
}
