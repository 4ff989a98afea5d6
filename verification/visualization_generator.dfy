/** The chart agent (`VisualizationGenerator.execute`): reshapes the
    prediction agent's dict for the front end. Nothing is computed; absent
    keys get defaults. */
module VisualizationGenerator {
  import opened Outcomes
  import opened Json

  const Unknown: string := "Unknown"

  /** A key that was present is copied; an absent one gets its default. */
  predicate Defaulted(source: Option<Json>, copied: Option<Json>, default: Json) {
    && (source.Some? ==> copied == source)
    && (source.None? ==> copied == Some(default))
  }

  /** Lines 24-27. */
  function PredictionsVsActual(pr: Json): Json {
    JObj([
      ("predictions", Field(pr, "predictions").GetOr(JArr([]))),
      ("actual_values", Field(pr, "actual_values").GetOr(JArr([])))])
  }

  /** Lines 28-33. */
  function ModelInfo(pr: Json): Json {
    JObj([
      ("model_name", Field(pr, "model").GetOr(JStr(Unknown))),
      ("target_variable", Field(pr, "target_variable").GetOr(JStr(Unknown))),
      ("feature_variables", Field(pr, "feature_variables").GetOr(JArr([]))),
      ("mse", Field(pr, "mean_squared_error").GetOr(JNum(0.0)))])
  }

  /** Lines 23-34. */
  function ChartData(pr: Json): Json {
    JObj([("predictions_vs_actual", PredictionsVsActual(pr)), ("model_info", ModelInfo(pr))])
  }

  /** Each chart field is the matching field of `prediction_results`, or its default. */
  lemma ChartDataShape(pr: Json)
    ensures Defaulted(Field(pr, "predictions"), Path(ChartData(pr), ["predictions_vs_actual", "predictions"]), JArr([]))
    ensures Defaulted(Field(pr, "actual_values"), Path(ChartData(pr), ["predictions_vs_actual", "actual_values"]), JArr([]))
    ensures Defaulted(Field(pr, "model"), Path(ChartData(pr), ["model_info", "model_name"]), JStr(Unknown))
    ensures Defaulted(Field(pr, "target_variable"), Path(ChartData(pr), ["model_info", "target_variable"]), JStr(Unknown))
    ensures Defaulted(Field(pr, "feature_variables"), Path(ChartData(pr), ["model_info", "feature_variables"]), JArr([]))
    ensures Defaulted(Field(pr, "mean_squared_error"), Path(ChartData(pr), ["model_info", "mse"]), JNum(0.0))
  {
    var c := ChartData(pr);
    GetAt(c.entries, 0);
    GetAt(c.entries, 1);
    SeriesShape(pr);
    ModelInfoShape(pr);
    PathSteps(c, "predictions_vs_actual", "predictions", "");
    PathSteps(c, "predictions_vs_actual", "actual_values", "");
    PathSteps(c, "model_info", "model_name", "");
    PathSteps(c, "model_info", "target_variable", "");
    PathSteps(c, "model_info", "feature_variables", "");
    PathSteps(c, "model_info", "mse", "");
  }

  /** Helper: the two series of `predictions_vs_actual`. */
  lemma SeriesShape(pr: Json)
    ensures Defaulted(Field(pr, "predictions"), Field(PredictionsVsActual(pr), "predictions"), JArr([]))
    ensures Defaulted(Field(pr, "actual_values"), Field(PredictionsVsActual(pr), "actual_values"), JArr([]))
  {
    var pva := PredictionsVsActual(pr);
    GetAt(pva.entries, 0);
    GetAt(pva.entries, 1);
  }

  /** Helper: the four fields of `model_info`. */
  lemma ModelInfoShape(pr: Json)
    ensures Defaulted(Field(pr, "model"), Field(ModelInfo(pr), "model_name"), JStr(Unknown))
    ensures Defaulted(Field(pr, "target_variable"), Field(ModelInfo(pr), "target_variable"), JStr(Unknown))
    ensures Defaulted(Field(pr, "feature_variables"), Field(ModelInfo(pr), "feature_variables"), JArr([]))
    ensures Defaulted(Field(pr, "mean_squared_error"), Field(ModelInfo(pr), "mse"), JNum(0.0))
  {
    var info := ModelInfo(pr);
    GetAt(info.entries, 0);
    GetAt(info.entries, 1);
    GetAt(info.entries, 2);
    GetAt(info.entries, 3);
  }

  /** The agent. `data` must be a dict (`data.get`), and so must its
      `prediction_results` (`.keys()` on line 17, `.get` below); anything else
      raises `AttributeError`. */
  function Execute(data: Json): (r: Result<Json>)
    ensures r.Ok? <==> data.JObj? && (Field(data, "prediction_results").Some? ==> Field(data, "prediction_results").value.JObj?)
    ensures r.Err? ==> r.error.AttributeError?
    ensures r.Ok? ==> Defaulted(Field(data, "prediction_results"), Path(r.value, ["prediction_results"]), JObj([]))
    ensures r.Ok? ==> Defaulted(Field(data, "cleaned_data"), Path(r.value, ["cleaned_data"]), JArr([]))
    ensures r.Ok? ==>
              var pr := Field(data, "prediction_results").GetOr(JObj([]));
              && Defaulted(Field(pr, "predictions"), Path(r.value, ["chart_data", "predictions_vs_actual", "predictions"]), JArr([]))
              && Defaulted(Field(pr, "actual_values"), Path(r.value, ["chart_data", "predictions_vs_actual", "actual_values"]), JArr([]))
              && Defaulted(Field(pr, "model"), Path(r.value, ["chart_data", "model_info", "model_name"]), JStr(Unknown))
              && Defaulted(Field(pr, "target_variable"), Path(r.value, ["chart_data", "model_info", "target_variable"]), JStr(Unknown))
              && Defaulted(Field(pr, "feature_variables"), Path(r.value, ["chart_data", "model_info", "feature_variables"]), JArr([]))
              && Defaulted(Field(pr, "mean_squared_error"), Path(r.value, ["chart_data", "model_info", "mse"]), JNum(0.0))
  {
    if !data.JObj? then
      Err(AttributeError("object has no attribute 'get'"))
    else
      var pr := Field(data, "prediction_results").GetOr(JObj([]));
      var cleaned := Field(data, "cleaned_data").GetOr(JArr([]));
      if !pr.JObj? then
        Err(AttributeError("object has no attribute 'keys'"))
      else
        var out := JObj([("prediction_results", pr), ("cleaned_data", cleaned), ("chart_data", ChartData(pr))]);
        GetAt(out.entries, 0);
        GetAt(out.entries, 1);
        GetAt(out.entries, 2);
        ChartDataShape(pr);
        PathSteps(out, "prediction_results", "", "");
        PathSteps(out, "cleaned_data", "", "");
        PathSteps(out, "chart_data", "predictions_vs_actual", "predictions");
        PathSteps(out, "chart_data", "predictions_vs_actual", "actual_values");
        PathSteps(out, "chart_data", "model_info", "model_name");
        PathSteps(out, "chart_data", "model_info", "target_variable");
        PathSteps(out, "chart_data", "model_info", "feature_variables");
        PathSteps(out, "chart_data", "model_info", "mse");
        Ok(out)
  }
}
