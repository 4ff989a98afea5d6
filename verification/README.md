# Open-Source Data Scientist — a Dafny model of the data pipeline core

The system takes an uploaded tabular file and runs it through two request flows.

- **analyze**:
  1. parse the file into a table;
  2. profile it (`DataAnalyzer`): row and column counts, clean flag, noise types;
  3. clean it (`DataCleaner`): fill each numeric column's nulls with the column mean, then drop repeated rows, keeping the first occurrence;
  4. run PCA on the numeric part.
- **predict**:
  1. the `PredictionAgent` asks a language model to choose a target and feature columns;
  2. it strips markdown fences from the reply, validates the suggestion against the table, and falls back to "last numeric column is the target" when the suggestion fails to decode or validate;
  3. it clamps the test fraction, splits, fits a linear regression, and returns a result record;
  4. the `VisualizationGenerator` copies that record into a chart payload, with a default for every missing field.

The model has one module per source file, plus shared modules:

- `Outcomes`: `Option`, `Result`, and Python's exception kinds as an `Error` datatype.
- `Seqs`: distinctness and first-occurrence deduplication.
- `Text`: `str.strip`, `endswith`, and the `re.sub(marker + r'\s*', '')` used on the reply.
- `Tables`: cells, columns, and rows of a data frame.
- `Json`: decoded JSON values, with Python dict lookup and `.get`.
- `Pipeline`: the two flows of `main.py`.

Every operation is a pure function returning a `Result` where the source can raise. The language model's reply, `json.loads` and the regression fit are parameters.

Behaviour of the code that a reader might not expect, and that the model follows:

- **Target among the features.** The validation never compares the target with the features. A suggestion whose target is also one of its features is accepted (`PredictionAgent.TargetAmongFeaturesAccepted`).
- **Noise type names.** They are the code's strings, `"Missing Values"` and `"Duplicate Rows"`. They form an ordered list, not a set.
- **Suggestion failures.** Only `JSONDecodeError`, `KeyError` and `ValueError` lead to the fallback. A reply that is not a dict, a list or object used as a name, or a non-iterable `feature_variables` raises `TypeError`, which propagates. A number, boolean or null used as a name is simply not a column: it is rejected with `ValueError` and the fallback is used (`PredictionAgent.Check`, `PredictionAgent.Select`).
- **DOCX parse errors.** Of the modelled steps, `ValueError` comes only from an unknown suffix. Once a Word document has been opened, a document without a table, or a table row longer than its header, raises `IndexError` (`FileParser.DocxRecords`). Opening the document and the CSV/Excel readers can fail in their own ways; those steps are left out.
- **Frames without columns.** pandas' `duplicated` and `drop_duplicates` return at once on an empty frame. A frame with rows but no columns, which the DOCX reader builds from cell-less rows, is therefore reported clean and keeps all its rows (`DataAnalyzer.RowsWithoutColumnsAreClean`).
- **PCA failures.** PCA runs whenever the numeric part of the cleaned frame is non-empty. It fails, and the request returns HTTP 500, when that part has a single column, a single row, or a null left by the cleaner (`Pipeline.Pca`).

## Model

| member | source | states |
|---|---|---|
| DataAnalyzer.Execute | backend/app/agents/data_analyzer.py:8-27 | Row and column counts are the table's shape. The table is clean exactly when it has no null cell and no repeated row (a table without columns has none). "Missing Values" is listed exactly when some cell is null. "Duplicate Rows" is listed exactly when the table has columns and some row repeats an earlier one. The list is in that order, without repeats, and is empty exactly when the table is clean. The table is passed on unchanged. |
| DataAnalyzer.NoiseTypes | backend/app/agents/data_analyzer.py:15-19 | "Missing Values" is listed exactly when nulls were found, "Duplicate Rows" exactly when repeats were found, in that order and without repeats. The list is empty exactly when neither was found. |
| DataAnalyzer.NullCountsDetectNulls | backend/app/agents/data_analyzer.py:13-17 | The per-column null counts have a positive entry exactly when the table has a null cell. Their total is zero exactly when it has none. |
| DataAnalyzer.DuplicatedDetectsRepeats | backend/app/agents/data_analyzer.py:13-19 | Some row is flagged as equal to an earlier row exactly when the table has columns and its rows are not distinct. |
| DataAnalyzer.RowsWithoutColumnsAreClean | backend/app/agents/data_analyzer.py:13-19 | Two rows without cells, under no columns, are reported clean with no noise type. |
| DataCleaner.Mean | backend/app/agents/data_cleaner.py:14 | The mean is undefined exactly when the column holds no number (nulls are skipped). Otherwise mean × count equals the sum of the numbers. |
| DataCleaner.Impute | backend/app/agents/data_cleaner.py:11-14 | Same columns and row count. A null in a numeric column that holds some number becomes that column's mean. Every other cell keeps its value, including text columns and numeric columns with no number at all. |
| DataCleaner.Execute | backend/app/agents/data_cleaner.py:8-21 | The cleaned table has the same columns and at most as many rows. It has no repeated row. A table without columns comes back unchanged. No numeric column with a number keeps a null. Its rows are exactly the distinct imputed rows. |
| DataCleaner.CleanKeepsFirstOccurrences | backend/app/agents/data_cleaner.py:17 | In a table with columns, surviving rows keep the order of their first occurrence in the imputed table. |
| DataCleaner.CleanIdempotent | backend/app/agents/data_cleaner.py:11-17 | Cleaning a cleaned table changes nothing. |
| DataCleaner.ImputedRowsCollapse | backend/app/agents/data_cleaner.py:11-17 | Imputation runs before deduplication: in a one-column table [2, null], the null becomes 2, and the table cleans to the single row [2]. |
| Seqs.Dedup | backend/app/agents/data_cleaner.py:17 | Deduplication never lengthens the sequence. It keeps exactly the sequence's elements, and its result has no repeats. |
| Seqs.DedupKeepsFirstOrder | backend/app/agents/data_cleaner.py:17 | The survivors appear in the order of their first occurrences. |
| Seqs.DedupOfDistinct | backend/app/agents/data_cleaner.py:17 | A sequence without repeats is left unchanged. |
| Seqs.DedupShrinks | backend/app/agents/data_cleaner.py:17 | A sequence with a repeat becomes strictly shorter. |
| Text.Trim | backend/app/agents/prediction_agent.py:38 | The result is a contiguous slice of the input. Everything cut off is whitespace, and neither end of the result is whitespace. Whitespace is the set Python's `str.isspace` accepts. |
| Text.TrimPadded | backend/app/agents/prediction_agent.py:38 | Whitespace added at either end does not change what stripping gives. |
| Text.TrimFixedPoints | backend/app/agents/prediction_agent.py:38 | Stripping leaves a string unchanged exactly when it is empty or neither of its ends is whitespace. |
| Text.TrimIdempotent | backend/app/agents/prediction_agent.py:46 | Stripping an already stripped string changes nothing. |
| Text.RemoveMarkerSkipsSpace | backend/app/agents/prediction_agent.py:44-45 | A marker at the front is deleted with the whole whitespace run after it, and the scan goes on from the first non-blank character. |
| Text.RemoveMarkerKeepsPrefix | backend/app/agents/prediction_agent.py:44-45 | A prefix none of whose characters can begin the marker is copied through unchanged. |
| Text.RemoveMarkerAbsent | backend/app/agents/prediction_agent.py:44-45 | Removing a marker that does not occur leaves the text unchanged. |
| Text.RemoveFenceLeavesNoFence | backend/app/agents/prediction_agent.py:45 | After every "```" and its following whitespace are removed, no "```" is left. |
| PredictionAgent.StripFences | backend/app/agents/prediction_agent.py:38-46 | The cleaned reply contains no "```" and has no whitespace at either end. A reply without a backtick is only stripped. |
| PredictionAgent.StripFencesKeepsFencedBody | backend/app/agents/prediction_agent.py:38-46 | A reply made of a "```json" fence, a backtick-free body and a closing "```", with any whitespace around the fences, cleans to exactly the stripped body. |
| PredictionAgent.Check | backend/app/agents/prediction_agent.py:48-61 | An accepted suggestion names only columns. Subscripting a value that is not a dict raises TypeError. A dict missing either key rejects with KeyError. With both keys present, the target is checked first: an unhashable target raises TypeError, and a hashable one that is not a column rejects with ValueError. Then the features: a non-iterable value raises TypeError; otherwise an unhashable item anywhere raises TypeError; otherwise an item that is not a column rejects with ValueError; and otherwise the suggestion is accepted with the items as feature names, in order. A string target with a list of string features is accepted exactly when all names exist. |
| PredictionAgent.TargetAmongFeaturesAccepted | backend/app/agents/prediction_agent.py:53-59 | A valid suggestion whose target is also one of its features is accepted. |
| PredictionAgent.Fallback | backend/app/agents/prediction_agent.py:61-68 | The fallback fails with "Not enough numeric columns for prediction" exactly when fewer than two numeric columns exist. Otherwise the features followed by the target are exactly the numeric columns in table order. |
| PredictionAgent.FallbackTargetNotAFeature | backend/app/agents/prediction_agent.py:64-68 | With distinct column names, the fallback target is not among the fallback features. |
| PredictionAgent.FallbackOfTwoNumericColumns | backend/app/agents/prediction_agent.py:64-68 | With exactly two numeric columns A then B, the fallback picks target B and features [A]. |
| PredictionAgent.Resolve | backend/app/agents/prediction_agent.py:42-69 | A resolved selection only names existing columns. It fails only with the numeric-columns error or a TypeError. A cleaned reply whose decoded suggestion the validation accepts gives exactly that selection. A cleaned reply that does not decode, decodes to a dict missing a key, or is rejected by the validation gives exactly the fallback. One that decodes to a non-dict, or makes the validation raise, fails with that TypeError. |
| PredictionAgent.ResolveFencedSuggestion | backend/app/agents/prediction_agent.py:38-59 | A "```json"-fenced reply whose body decodes to a target and a list of features that are all columns resolves to exactly that target and those features. |
| PredictionAgent.Select | backend/app/agents/prediction_agent.py:48-69 | Given the decoded reply, a selection only names existing columns. Only the numeric-columns error or a TypeError escapes. A suggestion the validation accepts is the selection returned. A JSONDecodeError, a dict missing a key, or any rejection by the validation (KeyError, ValueError) gives exactly the fallback. A decoded non-dict, or any error the validation raises, escapes unchanged as TypeError. |
| PredictionAgent.SelectWellShaped | backend/app/agents/prediction_agent.py:48-68 | A decoded reply with a string target and a list of string features is used exactly when all its names are columns. Otherwise the fallback replaces it. |
| PredictionAgent.TestSize | backend/app/agents/prediction_agent.py:87 | The test fraction lies in [0.1, 0.2]. It is 0.2 for up to 5 rows, 1/n between 5 and 10 rows, and 0.1 from 10 rows on. |
| PredictionAgent.HeldOutRows | backend/app/agents/prediction_agent.py:87-91 | With at least two rows, the split holds out at least one row and keeps at least one for training. |
| PredictionAgent.PredictionResultsShape | backend/app/agents/prediction_agent.py:102-109 | The results object carries the model name, target, features, error, predictions and actual values under their keys. |
| PredictionAgent.ResultRecordShape | backend/app/agents/prediction_agent.py:101-111 | The returned record holds the results object under "prediction_results" and the caller's records under "cleaned_data". |
| PredictionAgent.Respond | backend/app/agents/prediction_agent.py:82-111 | With a resolved selection, the agent fails exactly when there are fewer than two rows, and then with "Not enough data points for train-test split". Otherwise it returns the record of that selection, the fit and the input records (its fields are given by `ResultRecordShape`). |
| PredictionAgent.Execute | backend/app/agents/prediction_agent.py:42-111 | Resolution errors propagate unchanged. Fewer than two rows fail with "Not enough data points for train-test split". Success happens exactly when resolution succeeds and there are at least two rows, and the result is then the record built from the resolved selection, the fit and the input records (its fields are given by `ResultRecordShape`). |
| VisualizationGenerator.ChartDataShape | backend/app/agents/visualization_generator.py:23-34 | The chart data carries predictions, actual values, model name, target, features and error, each copied from the results or defaulted. |
| VisualizationGenerator.Execute | backend/app/agents/visualization_generator.py:9-37 | It succeeds exactly when the input is an object whose "prediction_results", if present, is an object. Otherwise it fails with AttributeError. Each of the eight output paths holds the source field when present and its default ({}, [], "Unknown", 0) otherwise. |
| FileParser.Dispatch | backend/app/services/file_parser.py:11-28 | ".csv" selects CSV. ".xls" or ".xlsx" selects Excel. ".docx" selects DOCX. Every other name fails with "Unsupported file format.". |
| FileParser.SuffixesExclusive | backend/app/services/file_parser.py:11-15 | No file name ends with two of the recognised suffixes, so the order of the tests does not matter. |
| FileParser.UpperCaseSuffixRejected | backend/app/services/file_parser.py:11-28 | The suffix test is case-sensitive: "DATA.CSV" is rejected. |
| FileParser.PutShape | backend/app/services/file_parser.py:24 | Assigning to a dict key keeps an existing key in its place, and appends a new key at the end. |
| FileParser.RowDictKeys | backend/app/services/file_parser.py:24 | A row's record has as keys the header cells it covers, in first-occurrence order, with repeats removed. |
| FileParser.RowDictLookup | backend/app/services/file_parser.py:24 | Under a repeated header name, the record holds the cell of the last column with that name. A name outside the covered header is absent. |
| FileParser.RowDictDistinct | backend/app/services/file_parser.py:24 | With distinct header texts, the record pairs the j-th header with the j-th cell, in order. |
| FileParser.RowRecord | backend/app/services/file_parser.py:24 | Building a row's record fails with IndexError exactly when the row has more cells than the header. |
| FileParser.DocxRecords | backend/app/services/file_parser.py:16-25 | DOCX extraction succeeds exactly when there is a first table, it has a header row, and no body row is longer than the header. The result then has one record per body row, built against the header. |
| FileParser.ParseFile | backend/app/services/file_parser.py:6-28 | The parsed result's kind follows the suffix. Of the modelled steps, only an unknown suffix fails with ValueError. For an opened Word document, the only failures are the IndexErrors of the table extraction. |
| Tables.NumericNamesMembership | backend/app/agents/prediction_agent.py:64 | A name is among the numeric column names exactly when some numeric column carries it. |
| Pipeline.Pca | backend/app/agents/pca_performer.py:13-26 | PCA is skipped exactly when the cleaned table has no numeric column or no row. It fails with ValueError exactly when it runs and the numeric part holds a null, has one column, or has one row. |
| Pipeline.Analyze | backend/app/main.py:32-63 | The request fails exactly when PCA fails, with ValueError. Otherwise the counts and the clean flag describe the table before cleaning. "Missing Values" is reported exactly when that table has a null, "Duplicate Rows" exactly when it has a repeated row, in that order. The records are the cleaned table, and the PCA outcome is that of the cleaned table. |
| Pipeline.AllNullNumericColumnFails | backend/app/main.py:32-63 | A table with rows and a numeric column holding no number fails, because cleaning leaves that column null and PCA rejects it. |
| Pipeline.OneNumericColumnFails | backend/app/main.py:32-63 | A table with rows and exactly one numeric column fails, because PCA needs two features. |
| Pipeline.CleanFrameGetsPca | backend/app/main.py:32-63 | A table with no null, no repeated row, at least two rows and at least two numeric columns is reported clean, passes cleaning unchanged, and gets its PCA. |
| Pipeline.ReportedRowsArePreClean | backend/app/main.py:43-56 | When "Duplicate Rows" is reported, the reported row count exceeds the number of cleaned rows returned. |
| Pipeline.PredictChartShowsSelection | backend/app/main.py:77-88 | The predict flow succeeds exactly when the prediction agent does. The chart's model info then shows the resolved target and features and the fit's error. |
| Pipeline.ChartOfResultRecord | backend/app/agents/visualization_generator.py:13-37 | The chart agent accepts every record the prediction agent returns. Its model info and series are that record's selection and fit, and its cleaned data are the caller's records. |
| Pipeline.AreaPriceScenario | backend/app/agents/prediction_agent.py:61-91 | Take the four-row area/price table, its four records, and an undecodable reply. The fallback picks target "price" and features ["area"], one row is held out, and the chart shows target "price". |

## Left out

- **File reading and frame building.** Reading the upload, the CSV/Excel readers (lines 12 and 14) and opening the Word document with `docx.Document` (line 16) are not modelled: `Dispatch` only selects the format. Their failures are therefore not modelled either: the pandas readers raise `ValueError` subclasses such as `EmptyDataError` and `ParserError`, and `docx.Document` raises `ValueError` for a package that is not a Word file or `PackageNotFoundError` for bytes that are not a zip package. Building a data frame from DOCX records or JSON records (dtype inference, missing keys) is also left out. Tables enter the model already typed.
- **DOCX layout.** Merged DOCX cells are not modelled: each row's cells are given as a plain sequence of texts.
- **PCA.** The scaling and PCA numerics are left out; they are floating-point library code. Only whether PCA is skipped, computed or fails is modelled. The scikit-learn error messages are abbreviated, and a constant numeric part, whose explained-variance ratio is NaN, counts as computed.
- **Language-model call.** The call itself (`prediction_agent.py` lines 13-14 and 26-38) and its failure are not modelled. The reply text is a parameter.
- **JSON decoding.** `json.loads` is a parameter returning a decoded value, or nothing for a `JSONDecodeError`. Decoded objects are assumed to have distinct keys, as a Python dict does.
- **Training and evaluation.** These are lines 72-80 and 89-99: selecting columns, filling, one-hot encoding, splitting, fitting and the mean squared error. Their result is a parameter, so failures raised inside pandas or scikit-learn there are not modelled. `HeldOutRows` models only the held-out count, using scikit-learn's rounding-up rule.
- **Real numbers.** Means and the test fraction use exact real arithmetic, not IEEE floating point.
- PredictionAgent.Check: a `feature_variables` given as a JSON string or object is validated by iterating its characters or keys, as Python does. The model then keeps the iterated names as the feature list, whereas Python keeps the raw value for the later column selection.
- PredictionAgent.Check: exception messages are abbreviated. Only the exception kind and the fixed messages of the source are modelled exactly.
- **HTTP layer.** The routes, the API key check, the mapping of errors to HTTP 500, CORS, and all console printing are left out.
