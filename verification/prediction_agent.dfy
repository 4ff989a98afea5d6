/** The selection part of the prediction agent (`PredictionAgent.execute`):
    cleaning up the language model's reply, accepting or rejecting its
    suggested target and features, the numeric fallback, the row guard, the
    hold-out fraction and the shape of the returned record. The reply itself
    and `json.loads` are inputs; fitting and scoring the regression are
    represented only by their results. */
module PredictionAgent {
  import opened Outcomes
  import opened Seqs
  import opened Text
  import opened Tables
  import opened Json

  const JsonFence: string := "```json"
  const NotEnoughColumns: string := "Not enough numeric columns for prediction"
  const NotEnoughRows: string := "Not enough data points for train-test split"
  const ModelName: string := "Linear Regression"

  /** Helper: a string without backticks contains no marker that starts with one. */
  lemma NoTickNoMarker(s: string, marker: string)
    requires '`' !in s
    requires |marker| > 0 && marker[0] == '`'
    ensures !Contains(s, marker)
  {
    forall i | 0 <= i <= |s|
      ensures !OccursAt(s, marker, i)
    {
      if i + |marker| <= |s| {
        assert s[i..i + |marker|][0] == s[i];
      }
    }
  }

  /** Lines 38 and 44-46: strip, delete every "```json" and every "```"
      together with the whitespace after it, strip again. */
  function StripFences(reply: string): (r: string)
    ensures !Contains(r, Fence)
    ensures |r| > 0 ==> !IsSpace(r[0]) && !IsSpace(r[|r| - 1])
    ensures '`' !in reply ==> r == Trim(reply)
  {
    StripFencesProperties(reply);
    TrimIdempotent(reply);
    Trim(RemoveMarker(RemoveMarker(Trim(reply), JsonFence), Fence))
  }

  lemma StripFencesProperties(reply: string)
    ensures !Contains(Trim(RemoveMarker(RemoveMarker(Trim(reply), JsonFence), Fence)), Fence)
    ensures '`' !in reply ==> Trim(RemoveMarker(RemoveMarker(Trim(reply), JsonFence), Fence)) == Trim(reply)
  {
    var noJsonFence := RemoveMarker(Trim(reply), JsonFence);
    RemoveFenceLeavesNoFence(noJsonFence);
    TrimLacks(RemoveMarker(noJsonFence, Fence), Fence);
    if '`' !in reply {
      StripFencesWithoutTicks(reply);
    }
  }

  /** Helper: trimming cannot create an occurrence. */
  lemma TrimLacks(s: string, pattern: string)
    requires !Contains(s, pattern)
    ensures !Contains(Trim(s), pattern)
  {
    var a, b :| 0 <= a <= b <= |s| && Trim(s) == s[a..b];
    InfixLacks(s, a, b, pattern);
  }

  /** Helper: a reply without backticks is only trimmed. */
  lemma StripFencesWithoutTicks(reply: string)
    requires '`' !in reply
    ensures RemoveMarker(RemoveMarker(Trim(reply), JsonFence), Fence) == Trim(reply)
  {
    var stripped := Trim(reply);
    var a, b :| 0 <= a <= b <= |reply| && stripped == reply[a..b];
    forall k | 0 <= k < |stripped|
      ensures stripped[k] != '`'
    {
      assert stripped[k] == reply[a + k];
    }
    NoTickNoMarker(stripped, JsonFence);
    RemoveMarkerAbsent(stripped, JsonFence);
    NoTickNoMarker(stripped, Fence);
    RemoveMarkerAbsent(stripped, Fence);
  }

  /** Helper: once the opening fence is gone, a backtick-free text, a
      whitespace run and the closing fence lose exactly the closing fence. */
  lemma RemoveClosingFence(text: string, w: string)
    requires '`' !in text && AllSpace(w)
    ensures RemoveMarker(RemoveMarker(text + w + Fence, JsonFence), Fence) == text + w
  {
    var kept := text + w;
    forall k | 0 <= k < |kept|
      ensures kept[k] != '`'
    {
      if k >= |text| {
        assert kept[k] == w[k - |text|];
      }
    }
    RemoveMarkerKeepsPrefix(kept, Fence, JsonFence);
    assert !Contains(Fence, JsonFence);
    RemoveMarkerAbsent(Fence, JsonFence);
    RemoveMarkerKeepsPrefix(kept, Fence, Fence);
    RemoveMarkerSkipsSpace(Fence, "", "");
    assert Fence + "" + "" == Fence;
    assert kept + "" == kept;
  }

  /** Helper: left-trimming what follows the opening fence reaches the
      first non-blank character of the body, or the closing fence when the
      body is blank. */
  lemma LeftTrimToBody(body: string, w: string, close: string)
    requires AllSpace(w) && |close| > 0 && !IsSpace(close[0])
    ensures TrimLeft(body + w + close) == TrimLeft(body) + Gap(body, w) + close
  {
    Associate(body, w, close);
    TrimLeftAppend(body, w + close);
    if |TrimLeft(body)| == 0 {
      TrimLeftSkipsSpace(w, close);
      BlankGap(body, w, close);
    } else {
      Associate(TrimLeft(body), w, close);
    }
  }

  /** Helper: `+` regroups. */
  lemma Associate(a: string, b: string, c: string)
    ensures a + b + c == a + (b + c)
  {
  }

  /** Helper: a blank body leaves nothing before the closing fence. */
  lemma BlankGap(body: string, w: string, close: string)
    requires |TrimLeft(body)| == 0
    ensures TrimLeft(body) + Gap(body, w) + close == close
  {
    assert TrimLeft(body) == [] && Gap(body, w) == [];
  }

  /** The whitespace between the body and the closing fence that survives
      left-trimming: all of it after a non-blank body, none after a blank one. */
  function Gap(body: string, w: string): string {
    if |TrimLeft(body)| > 0 then w else ""
  }

  /** Helper: the body without its leading blanks, followed by the gap,
      strips to the stripped body. */
  lemma TrimBodyAndGap(body: string, w: string)
    requires AllSpace(w)
    ensures AllSpace(Gap(body, w))
    ensures Trim(TrimLeft(body) + Gap(body, w)) == Trim(body)
  {
    var left := TrimLeft(body);
    var cut := body[..|body| - |left|];
    assert body == cut + left;
    TrimPadLeft(cut, left);
    TrimPadRight(left, Gap(body, w));
  }

  /** Helper: a backtick-free string stays so when left-trimmed. */
  lemma TrimLeftNoTick(body: string)
    requires '`' !in body
    ensures '`' !in TrimLeft(body)
  {
    var left := TrimLeft(body);
    forall k | 0 <= k < |left|
      ensures left[k] != '`'
    {
      assert left[k] == body[|body| - |left| + k];
    }
  }

  /** Helper: the concatenation of a reply around its fenced block. */
  lemma Regroup(w0: string, a: string, b: string, c: string, d: string, e: string, w3: string)
    ensures w0 + a + b + c + d + e + w3 == w0 + (a + b + c + d + e) + w3
  {
  }

  /** Helper: a block that begins and ends with a non-blank character is
      left alone by `strip()`, whatever whitespace surrounds it. */
  lemma TrimBlock(w0: string, block: string, w3: string)
    requires AllSpace(w0) && AllSpace(w3)
    requires |block| > 0 && !IsSpace(block[0]) && !IsSpace(block[|block| - 1])
    ensures Trim(w0 + block + w3) == block
  {
    TrimPadded(w0, block, w3);
    TrimFixedPoints(block);
  }

  /** Helper: both substitutions on a fenced block leave the body without its
      leading blanks, then the gap. */
  lemma RemoveFencesOfBlock(w1: string, body: string, w2: string)
    requires AllSpace(w1) && AllSpace(w2)
    requires '`' !in body
    ensures RemoveMarker(RemoveMarker(JsonFence + w1 + body + w2 + Fence, JsonFence), Fence)
            == TrimLeft(body) + Gap(body, w2)
  {
    assert JsonFence + w1 + body + w2 + Fence == JsonFence + w1 + (body + w2 + Fence);
    RemoveMarkerSkipsSpace(JsonFence, w1, body + w2 + Fence);
    LeftTrimToBody(body, w2, Fence);
    TrimLeftNoTick(body);
    TrimBodyAndGap(body, w2);
    RemoveClosingFence(TrimLeft(body), Gap(body, w2));
  }

  /** The reply shape the prompt's example invites when the model adds
      markdown anyway: a block opened by "```json" and closed by "```", with
      whitespace around the fences. When the JSON text holds no backtick, the
      cleaned reply is exactly that text, stripped. */
  lemma StripFencesKeepsFencedBody(w0: string, w1: string, body: string, w2: string, w3: string)
    requires AllSpace(w0) && AllSpace(w1) && AllSpace(w2) && AllSpace(w3)
    requires '`' !in body
    ensures StripFences(w0 + JsonFence + w1 + body + w2 + Fence + w3) == Trim(body)
  {
    var block := JsonFence + w1 + body + w2 + Fence;
    Regroup(w0, JsonFence, w1, body, w2, Fence, w3);
    assert block[0] == '`' && block[|block| - 1] == '`';
    TrimBlock(w0, block, w3);
    RemoveFencesOfBlock(w1, body, w2);
    TrimBodyAndGap(body, w2);
  }

  /** The resolved target and (pre-one-hot) feature names. */
  datatype Selection = Selection(target: string, features: seq<string>)

  /** The outcome of validating a decoded suggestion: accepted, rejected by
      one of the exceptions lines 48-61 catch (so the fallback runs), or
      failed with an exception that propagates. */
  datatype Verdict = Accept(selection: Selection) | Reject(error: Error) | Raise(error: Error)

  /** Python can hash every JSON value except lists and dicts, and only
      hashable values can be looked up in `df.columns`. */
  predicate Hashable(v: Json) {
    !v.JArr? && !v.JObj?
  }

  /** `v in df.columns` for a hashable `v`: column names are strings, so only a
      string can match. */
  predicate IsColumn(names: seq<string>, v: Json) {
    v.JStr? && v.s in names
  }

  /** What `for f in v` visits: the items of a list, the one-character
      strings of a string, the keys of a dict; `None` when `v` is not iterable. */
  function Iterate(v: Json): Option<seq<Json>> {
    match v
    case JArr(items) => Some(items)
    case JStr(s) => Some(seq(|s|, k requires 0 <= k < |s| => JStr([s[k]])))
    case JObj(entries) => Some(seq(|entries|, k requires 0 <= k < |entries| => JStr(entries[k].0)))
    case _ => None
  }

  /** A decoded reply of the documented shape:
      `{"target_variable": target, "feature_variables": [features...]}`. */
  predicate ListSuggestion(v: Json, target: string, features: seq<string>) {
    && v.JObj?
    && Get(v.entries, "target_variable") == Some(JStr(target))
    && Get(v.entries, "feature_variables") == Some(Strings(features))
  }

  /** A dict without "target_variable" or without "feature_variables". */
  predicate MissingKey(v: Json) {
    v.JObj? && (Get(v.entries, "target_variable").None? || Get(v.entries, "feature_variables").None?)
  }

  /** How lines 57-59 end for an accepted target and the iterated features:
      an unhashable item raises TypeError, otherwise an item that is not a
      column rejects with ValueError, otherwise the names are taken in order. */
  predicate FeaturesVerdict(names: seq<string>, target: string, items: seq<Json>, r: Verdict) {
    if exists k :: 0 <= k < |items| && !Hashable(items[k]) then
      r.Raise? && r.error.TypeError?
    else if exists k :: 0 <= k < |items| && !IsColumn(names, items[k]) then
      r.Reject? && r.error.ValueError?
    else
      && r.Accept? && r.selection.target == target
      && |r.selection.features| == |items|
      && forall k :: 0 <= k < |items| ==> items[k] == JStr(r.selection.features[k])
  }

  /** Lines 50-59 applied to a decoded reply. */
  function Check(names: seq<string>, v: Json): (r: Verdict)
    ensures r.Accept? ==> r.selection.target in names
    ensures r.Accept? ==> forall k :: 0 <= k < |r.selection.features| ==> r.selection.features[k] in names
    ensures r.Raise? ==> r.error.TypeError?
    ensures r.Reject? ==> r.error.KeyError? || r.error.ValueError?
    // subscripting anything but a dict raises TypeError
    ensures !v.JObj? ==> r.Raise? && r.error.TypeError?
    // a dict missing either key is rejected (KeyError)
    ensures MissingKey(v) ==> r.Reject? && r.error.KeyError?
    // with both keys present, the target is checked first, then the features
    ensures v.JObj? && Get(v.entries, "target_variable").Some? && Get(v.entries, "feature_variables").Some? ==>
              var target := Get(v.entries, "target_variable").value;
              var features := Get(v.entries, "feature_variables").value;
              && (!Hashable(target) ==> r.Raise? && r.error.TypeError?)
              && (Hashable(target) && !IsColumn(names, target) ==> r.Reject? && r.error.ValueError?)
              && (IsColumn(names, target) && Iterate(features).None? ==> r.Raise? && r.error.TypeError?)
              && (IsColumn(names, target) && Iterate(features).Some? ==>
                    FeaturesVerdict(names, target.s, Iterate(features).value, r))
    // a well-shaped reply is accepted exactly when it names existing columns
    ensures forall target, features :: ListSuggestion(v, target, features) ==>
              if target in names && forall k :: 0 <= k < |features| ==> features[k] in names
              then r == Accept(Selection(target, features))
              else r.Reject? && r.error.ValueError?
  {
    if !v.JObj? then
      Raise(TypeError("indices must be integers"))
    else
      match Get(v.entries, "target_variable")
      case None => Reject(KeyError("target_variable"))
      case Some(target) =>
        match Get(v.entries, "feature_variables")
        case None => Reject(KeyError("feature_variables"))
        case Some(features) =>
          if !Hashable(target) then
            Raise(TypeError("unhashable type"))
          else if !IsColumn(names, target) then
            Reject(ValueError("Target variable not found in dataset"))
          else
            match Iterate(features)
            case None => Raise(TypeError("object is not iterable"))
            case Some(items) =>
              if exists k :: 0 <= k < |items| && !Hashable(items[k]) then
                Raise(TypeError("unhashable type"))
              else if exists k :: 0 <= k < |items| && !IsColumn(names, items[k]) then
                Reject(ValueError("Feature variables not found"))
              else
                Accept(Selection(target.s, seq(|items|, k requires 0 <= k < |items| => items[k].s)))
  }

  /** Lines 64-68: the last numeric column is the target, the other numeric
      columns are the features. */
  function Fallback(t: Table): (r: Result<Selection>)
    ensures r.Err? <==> |NumericNames(t.columns)| < 2
    ensures r.Err? ==> r.error == ValueError(NotEnoughColumns)
    ensures r.Ok? ==> r.value.features + [r.value.target] == NumericNames(t.columns)
  {
    var numeric := NumericNames(t.columns);
    if |numeric| < 2 then
      Err(ValueError(NotEnoughColumns))
    else
      var r := Selection(numeric[|numeric| - 1], numeric[..|numeric| - 1]);
      assert r.features + [r.target] == numeric;
      Ok(r)
  }

  /** With distinct column names (as in any frame built from records) the
      fallback never lists its target among the features. */
  lemma FallbackTargetNotAFeature(t: Table)
    requires Distinct(Names(t.columns))
    requires Fallback(t).Ok?
    ensures Fallback(t).value.target !in Fallback(t).value.features
  {
    NumericNamesDistinct(t.columns);
    var sel := Fallback(t).value;
    var numeric := NumericNames(t.columns);
    assert numeric[..|numeric| - 1] == sel.features;
  }

  /** Lines 48-69 after decoding: `None` stands for a `JSONDecodeError`. A
      decoded reply is validated; the exceptions lines 48-61 catch lead to the
      fallback, any other exception propagates. */
  function Select(t: Table, decoded: Option<Json>): (r: Result<Selection>)
    ensures r.Ok? ==> r.value.target in Names(t.columns)
    ensures r.Ok? ==> forall k :: 0 <= k < |r.value.features| ==> r.value.features[k] in Names(t.columns)
    // only the fallback's ValueError and uncaught TypeErrors escape
    ensures r.Err? ==> r.error == ValueError(NotEnoughColumns) || r.error.TypeError?
    // an undecodable reply falls back
    ensures decoded.None? ==> r == Fallback(t)
    // a decoded value that is not a dict cannot be subscripted: TypeError escapes
    ensures decoded.Some? && !decoded.value.JObj? ==> r.Err? && r.error.TypeError?
    // a dict missing either key falls back
    ensures decoded.Some? && MissingKey(decoded.value) ==> r == Fallback(t)
    // every rejection falls back, every raised error escapes unchanged
    ensures decoded.Some? && Check(Names(t.columns), decoded.value).Reject? ==> r == Fallback(t)
    ensures decoded.Some? && Check(Names(t.columns), decoded.value).Raise? ==>
              r == Err(Check(Names(t.columns), decoded.value).error)
    // an accepted suggestion is the one used
    ensures decoded.Some? && Check(Names(t.columns), decoded.value).Accept? ==>
              r == Ok(Check(Names(t.columns), decoded.value).selection)
  {
    match decoded
    case None => Fallback(t)
    case Some(v) =>
      match Check(Names(t.columns), v)
      case Accept(sel) => Ok(sel)
      case Reject(_) => Fallback(t)
      case Raise(e) => Err(e)
  }

  /** A decoded reply of the documented shape is taken when all its names are
      columns, and otherwise replaced by the fallback. */
  lemma SelectWellShaped(t: Table, v: Json, target: string, features: seq<string>)
    requires ListSuggestion(v, target, features)
    ensures target in Names(t.columns) && (forall k :: 0 <= k < |features| ==> features[k] in Names(t.columns))
            ==> Select(t, Some(v)) == Ok(Selection(target, features))
    ensures !(target in Names(t.columns) && forall k :: 0 <= k < |features| ==> features[k] in Names(t.columns))
            ==> Select(t, Some(v)) == Fallback(t)
  {
  }

  /** Lines 42-69. The reply is the model's text and `decode` is `json.loads`. */
  function Resolve(t: Table, reply: string, decode: string -> Option<Json>): (r: Result<Selection>)
    ensures r.Ok? ==> r.value.target in Names(t.columns)
    ensures r.Ok? ==> forall k :: 0 <= k < |r.value.features| ==> r.value.features[k] in Names(t.columns)
    ensures r.Err? ==> r.error == ValueError(NotEnoughColumns) || r.error.TypeError?
    ensures decode(StripFences(reply)).None? ==> r == Fallback(t)
    ensures
      var decoded := decode(StripFences(reply));
      && (decoded.Some? && !decoded.value.JObj? ==> r.Err? && r.error.TypeError?)
      && (decoded.Some? && MissingKey(decoded.value) ==> r == Fallback(t))
      && (decoded.Some? && Check(Names(t.columns), decoded.value).Reject? ==> r == Fallback(t))
      && (decoded.Some? && Check(Names(t.columns), decoded.value).Raise? ==>
            r == Err(Check(Names(t.columns), decoded.value).error))
      && (decoded.Some? && Check(Names(t.columns), decoded.value).Accept? ==>
            r == Ok(Check(Names(t.columns), decoded.value).selection))
  {
    Select(t, decode(StripFences(reply)))
  }

  /** End to end: a fenced reply whose body decodes to a suggestion of the
      documented shape naming only columns is used as it is. */
  lemma ResolveFencedSuggestion(t: Table, decode: string -> Option<Json>,
                                w0: string, w1: string, body: string, w2: string, w3: string,
                                v: Json, target: string, features: seq<string>)
    requires AllSpace(w0) && AllSpace(w1) && AllSpace(w2) && AllSpace(w3)
    requires '`' !in body
    requires decode(Trim(body)) == Some(v) && ListSuggestion(v, target, features)
    requires target in Names(t.columns)
    requires forall k :: 0 <= k < |features| ==> features[k] in Names(t.columns)
    ensures Resolve(t, w0 + JsonFence + w1 + body + w2 + Fence + w3, decode) == Ok(Selection(target, features))
  {
    StripFencesKeepsFencedBody(w0, w1, body, w2, w3);
    SelectWellShaped(t, v, target, features);
  }

  /** The fallback on two numeric columns: with numeric columns A then B
      and no usable suggestion, B is the target and A the only feature. */
  lemma FallbackOfTwoNumericColumns(t: Table, a: string, b: string)
    requires NumericNames(t.columns) == [a, b]
    ensures Fallback(t) == Ok(Selection(b, [a]))
  {
    assert [a, b][..1] == [a];
  }

  /** The validation never compares the target with the features: a reply
      naming the target as its own feature, or naming no features at all, is
      accepted. */
  lemma TargetAmongFeaturesAccepted(names: seq<string>, target: string)
    requires target in names
    ensures Check(names, JObj([("target_variable", JStr(target)), ("feature_variables", Strings([target]))]))
            == Accept(Selection(target, [target]))
    ensures Check(names, JObj([("target_variable", JStr(target)), ("feature_variables", Strings([]))]))
            == Accept(Selection(target, []))
  {
    var v1 := JObj([("target_variable", JStr(target)), ("feature_variables", Strings([target]))]);
    var v2 := JObj([("target_variable", JStr(target)), ("feature_variables", Strings([]))]);
    assert v1.entries[1..] == [("feature_variables", Strings([target]))];
    assert v2.entries[1..] == [("feature_variables", Strings([]))];
    assert ListSuggestion(v1, target, [target]);
    assert ListSuggestion(v2, target, []);
  }

  function Min(a: real, b: real): real { if a <= b then a else b }
  function Max(a: real, b: real): real { if a >= b then a else b }

  /** Line 87: `min(0.2, max(0.1, 1 / n))`, over exact reals. */
  function TestSize(n: nat): (r: real)
    requires n >= 1
    ensures 0.1 <= r <= 0.2
    ensures n <= 5 ==> r == 0.2
    ensures 5 <= n <= 10 ==> r == 1.0 / (n as real)
    ensures n >= 10 ==> r == 0.1
  {
    var inv := 1.0 / (n as real);
    ReciprocalBounds(n);
    Min(0.2, Max(0.1, inv))
  }

  /** Helper: where `1 / n` falls relative to 0.2 and 0.1. */
  lemma ReciprocalBounds(n: nat)
    requires n >= 1
    ensures n <= 5 ==> 1.0 / (n as real) >= 0.2
    ensures n >= 5 ==> 1.0 / (n as real) <= 0.2
    ensures n <= 10 ==> 1.0 / (n as real) >= 0.1
    ensures n >= 10 ==> 1.0 / (n as real) <= 0.1
  {
    var x := n as real;
    var inv := 1.0 / x;
    assert inv * x == 1.0;
    assert inv > 0.0;
    if n <= 5 {
      assert inv * 5.0 >= inv * x;
    }
    if n >= 5 {
      assert inv * 5.0 <= inv * x;
    }
    if n <= 10 {
      assert inv * 10.0 >= inv * x;
    }
    if n >= 10 {
      assert inv * 10.0 <= inv * x;
    }
  }

  /** The smallest integer not below `x`. */
  function Ceil(x: real): (r: int)
    ensures x <= r as real < x + 1.0
  {
    -((-x).Floor)
  }

  /** The size of the held-out part. scikit-learn's `train_test_split`
      (not part of this model) holds out `ceil(test_size * n)` rows; with the
      row guard's n >= 2 the clamp leaves at least one row on each side. */
  function HeldOutRows(n: nat): (r: int)
    requires n >= 1
    ensures n >= 2 ==> 1 <= r <= n - 1
  {
    var size := TestSize(n) * (n as real);
    assert size <= 0.2 * (n as real);
    Ceil(size)
  }

  /** What fitting and scoring produced (lines 94-99, not modelled). */
  datatype Fit = Fit(mse: real, predictions: seq<real>, actuals: seq<real>)

  /** Lines 102-109: the `prediction_results` dict. */
  function PredictionResults(sel: Selection, fit: Fit): Json {
    JObj([
      ("model", JStr(ModelName)),
      ("target_variable", JStr(sel.target)),
      ("feature_variables", Strings(sel.features)),
      ("mean_squared_error", JNum(fit.mse)),
      ("predictions", Numbers(fit.predictions)),
      ("actual_values", Numbers(fit.actuals))])
  }

  /** Lines 101-111: the returned dict. */
  function ResultRecord(sel: Selection, fit: Fit, cleanedData: Json): Json {
    JObj([("prediction_results", PredictionResults(sel, fit)), ("cleaned_data", cleanedData)])
  }

  /** Every documented key of `prediction_results` holds its value. */
  lemma PredictionResultsShape(sel: Selection, fit: Fit)
    ensures
      var pr := PredictionResults(sel, fit);
      && Field(pr, "model") == Some(JStr(ModelName))
      && Field(pr, "target_variable") == Some(JStr(sel.target))
      && Field(pr, "feature_variables") == Some(Strings(sel.features))
      && Field(pr, "mean_squared_error") == Some(JNum(fit.mse))
      && Field(pr, "predictions") == Some(Numbers(fit.predictions))
      && Field(pr, "actual_values") == Some(Numbers(fit.actuals))
  {
    var e := PredictionResults(sel, fit).entries;
    GetAt(e, 0);
    GetAt(e, 1);
    GetAt(e, 2);
    GetAt(e, 3);
    GetAt(e, 4);
    GetAt(e, 5);
  }

  /** The record carries the model name, the selection, the fit's results
      and the caller's `cleaned_data`, each under its documented key. */
  lemma ResultRecordShape(sel: Selection, fit: Fit, cleanedData: Json)
    ensures
      var r := ResultRecord(sel, fit, cleanedData);
      && Path(r, ["prediction_results", "model"]) == Some(JStr(ModelName))
      && Path(r, ["prediction_results", "target_variable"]) == Some(JStr(sel.target))
      && Path(r, ["prediction_results", "feature_variables"]) == Some(Strings(sel.features))
      && Path(r, ["prediction_results", "mean_squared_error"]) == Some(JNum(fit.mse))
      && Path(r, ["prediction_results", "predictions"]) == Some(Numbers(fit.predictions))
      && Path(r, ["prediction_results", "actual_values"]) == Some(Numbers(fit.actuals))
      && Path(r, ["cleaned_data"]) == Some(cleanedData)
  {
    var r := ResultRecord(sel, fit, cleanedData);
    GetAt(r.entries, 0);
    GetAt(r.entries, 1);
    PredictionResultsShape(sel, fit);
    PathSteps(r, "prediction_results", "model", "");
    PathSteps(r, "prediction_results", "target_variable", "");
    PathSteps(r, "prediction_results", "feature_variables", "");
    PathSteps(r, "prediction_results", "mean_squared_error", "");
    PathSteps(r, "prediction_results", "predictions", "");
    PathSteps(r, "prediction_results", "actual_values", "");
    PathSteps(r, "cleaned_data", "", "");
  }

  /** Lines 82-111 once the selection is resolved: refuse fewer than two
      rows, otherwise return the record of the fit. */
  function Respond(rows: nat, sel: Selection, fit: Fit, cleanedData: Json): (r: Result<Json>)
    ensures r.Err? <==> rows < 2
    ensures r.Err? ==> r.error == ValueError(NotEnoughRows)
    // the record whose fields `ResultRecordShape` spells out
    ensures r.Ok? ==> r.value == ResultRecord(sel, fit, cleanedData)
  {
    if rows < 2 then Err(ValueError(NotEnoughRows)) else Ok(ResultRecord(sel, fit, cleanedData))
  }

  /** The agent: resolve the selection, then respond. `t` is the frame built
      from `cleanedData`. */
  function Execute(t: Table, cleanedData: Json, reply: string, decode: string -> Option<Json>, fit: Fit)
    : (r: Result<Json>)
    ensures Resolve(t, reply, decode).Err? ==> r == Err(Resolve(t, reply, decode).error)
    ensures Resolve(t, reply, decode).Ok? && |t.rows| < 2 ==> r == Err(ValueError(NotEnoughRows))
    ensures r.Ok? <==> Resolve(t, reply, decode).Ok? && |t.rows| >= 2
    ensures r.Ok? ==> r.value == ResultRecord(Resolve(t, reply, decode).value, fit, cleanedData)
  {
    var sel :- Resolve(t, reply, decode);
    Respond(|t.rows|, sel, fit, cleanedData)
  }
}
