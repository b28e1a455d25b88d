# Movie-rating pipeline, modelled in Dafny

This models a three-stage Kubeflow pipeline that rates movies with a hosted text model:

- **`fetch_data`** builds the built-in three-row movie table, which holds `movieId`, `title` and `genres`. It puts a dense 0-based `prompt_id` column in front and cuts every title at its first `" ("`. Then it uploads the table to the object store.
- **`call_llm_model`** reads that table back and walks the rows in order. For each row it asks the hosted model to rate the movie, given the row's genres and title. It keeps the first paragraph of the reply in a `rating` column and uploads the result.
- **`post_processing_and_export_to_bq`** reads the rated table back and keeps `prompt_id, movieId, genres, title, rating` in that order. It rewrites each rating as `str(eval(rating))` and replaces the warehouse table with the result.
- **`pipeline`** rejects a model id other than `text-bison@001` or `text-bison`; the model takes this check at face value, as if the pipeline body were called with the run-time values (see "## Left out"). It then wires the three stages into a chain, each `.after` the one before, and hands the object paths on. It also loads each component from `components/<name>/component.yaml`, and uploads the compiled spec under the object name that follows `gs://bucket/`.

Modules:

- `PyStrings` (`python_strings.dfy`) covers the Python string operations the code uses: `str.split`, `str.join`, `%` with `%s`, `os.path.join`, `str(int)` and list slicing.
- `Frames` (`frames.dfy`) covers pandas tables:
  - `Table` is the value a CSV object or a warehouse table holds.
  - `DataFrame` is a class whose `insert`, column assignment and `.at` cell write change it in place.
  - `Cloud` holds the object store and the warehouse as maps.
- `FetchData`, `CallLlmModel` and `PostProcessing` hold one stage each. Each stage is a specification function on tables plus a method on the frame and the store that is proved against it.
- `Pipeline` holds the pipeline definition and a run of the whole chain, `RunPipeline`. That run is tied to `PipelineOutcome`, and `StagesCompose` states what the exported table holds.

External services are parameters:

- The hosted-model platform is a `Platform` value: whether initialisation succeeds for a project, whether a model id loads, and what `predict` answers for a prompt.
- Python's `eval` is an `Evaluator`, a function from the source string to the `str` of its value or to the exception it raises.
- The object store and the warehouse are the two maps of `Cloud`.

Behaviour of the source worth noting:

- **Title cut.** A title is cut at its first `" ("`, not only at a trailing year: `"A (B) (2010)"` becomes `"A"` (`FetchData.CutBeforeInnerParenthesis`).
- **Rating rewrite.** The exported rating is `str(eval(rating))` of the stored rating, not the stored text. A reply `"4/5"` is therefore not exported as `"4/5"`: `eval` computes the division.
- **Selection at line 98.** The rating stage raises KeyError when `prompt_id`, `genres` or `title` is missing, even though the selection it makes at line 98 is never used afterwards.
- **Empty table.** An empty table gets no `rating` column, because the loop body never runs. The export stage's selection then raises KeyError.
- **Initialisation.** A failing platform initialisation is not one of the per-row errors the rating stage swallows. Initialisation and model loading run outside the `try` of `get_rating`, so their failure escapes the stage.

## Model

| member | source | states |
|---|---|---|
| PyStrings.Split | components/component_base/src/fetch_data.py:68 | `str.split` with a non-empty separator: at least one piece. `SplitHead` and `JoinSplit` characterise it. |
| PyStrings.Join | pipelines/pipeline.py:33 | `str.join`. `JoinSplit` and `JoinDropSplit` characterise it. |
| PyStrings.Drop | pipelines/pipeline.py:33 | The list slice `xs[k:]`: element i of the result is element k+i of `xs`. An index past the end gives the empty list. |
| PyStrings.Format | components/component_base/src/call_llm_model.py:60 | The `%` operator with `%s` and `%%`. `FormatLiteral`, `FormatPlaceholder` and `FormatTwo` characterise it. |
| PyStrings.PathJoin | pipelines/pipeline.py:38-40 | `os.path.join` of two plain components puts one `/` between them. |
| PyStrings.IntText | components/component_base/src/call_llm_model.py:60 | `str()` of an int, which `%s` prints for an integer cell: never empty, and it starts with `-` exactly when the int is negative. |
| PyStrings.SplitHead | components/component_base/src/fetch_data.py:68 | The first piece of `s.split(sep)` is the prefix of `s` before the first occurrence of `sep`. No occurrence of `sep` starts inside it, not even one that runs past its end. It is all of `s` when `sep` does not occur, and `sep` follows it in `s` otherwise. |
| PyStrings.SplitHeadIdempotent | components/component_base/src/fetch_data.py:68 | Taking the first piece of a split twice gives the same piece as taking it once. |
| PyStrings.JoinSplit | pipelines/pipeline.py:33 | `sep.join(s.split(sep)) == s` for every string and non-empty separator. |
| PyStrings.JoinDropSplit | pipelines/pipeline.py:33 | `'/'.join(s.split('/')[n:])` is the text after the n-th `/`, or empty when `s` has fewer than n. |
| PyStrings.FormatTwo | components/component_base/src/call_llm_model.py:60 | `%` on a template with two `%s` and no other `%` puts the first argument at the first placeholder and the second at the second, verbatim. |
| Frames.MissingColumns | components/component_base/src/call_llm_model.py:98 | A column is reported missing exactly when it is asked for and the table lacks it. |
| Frames.WithColumn | components/component_base/src/post_processing_and_export_to_bq.py:61 | `df[name] = col` keeps the table well formed with the same height. An existing column is overwritten where it stands, and a new one is appended at the right. Every other column is unchanged. |
| Frames.InsertFirst | components/component_base/src/fetch_data.py:67 | `df.insert(0, name, col)` puts the new column first, in front of the old order. Every old column is unchanged. |
| Frames.ColumnOrNaN | components/component_base/src/call_llm_model.py:106 | A column that `.at` writes into is the existing column, or an all-NaN column of the frame's height when the frame has none. |
| Frames.WithColumnTwice | components/component_base/src/call_llm_model.py:105-106 | Assigning the same column twice leaves what the second assignment alone leaves. |
| Frames.DataFrame.InsertFirstColumn | components/component_base/src/fetch_data.py:67 | The insert raises ValueError and leaves the frame as it was when the column exists. Otherwise the frame becomes `InsertFirst` of its old value. |
| Frames.DataFrame.Assign | components/component_base/src/fetch_data.py:68 | The frame becomes `WithColumn` of its old value and stays well formed. |
| Frames.DataFrame.SetAt | components/component_base/src/call_llm_model.py:106 | `df.at[row, name] = v` creates a missing column filled with NaN, then sets one cell. Nothing else changes. |
| Frames.ReadObject | components/component_base/src/call_llm_model.py:52-57 | Reading a blob gives the table last uploaded under that bucket and name. When there is none, it gives NotFound for that bucket and name. |
| Frames.Cloud.Read | components/component_base/src/call_llm_model.py:96 | A table read from a valid store is well formed. |
| FetchData.NormaliseTitle | components/component_base/src/fetch_data.py:68 | The lambda of line 68 gives a prefix of the title. `NormaliseTitleSpec` says which prefix. |
| FetchData.NormaliseTitleSpec | components/component_base/src/fetch_data.py:68 | A normalised title is the prefix of the title before its first `" ("`. That prefix holds no `" ("`. The title is unchanged when it has no `" ("`. |
| FetchData.NormaliseTitleIdempotent | components/component_base/src/fetch_data.py:68 | Normalising a normalised title changes nothing. |
| FetchData.NoParenNoCut | components/component_base/src/fetch_data.py:68 | A title without `(` has no cut point. |
| FetchData.NormaliseCutsAtFirst | components/component_base/src/fetch_data.py:68 | `a + " (" + b` normalises to `a` whenever `a` has no `" ("`, whatever `b` holds. |
| FetchData.CutBeforeInnerParenthesis | components/component_base/src/fetch_data.py:68 | `"A (B) (2010)"` normalises to `"A"`: the cut is at the first parenthesis, not at the year. |
| FetchData.NormaliseTitles | components/component_base/src/fetch_data.py:68 | The column-wide `apply` succeeds exactly when every cell is a string. The result is then the cell-by-cell normalised title, with the same length. |
| FetchData.PromptIds | components/component_base/src/fetch_data.py:67 | `range(0, n)` as a column: n cells, the i-th holding `i`. |
| FetchData.Ingested | components/component_base/src/fetch_data.py:67-68 | Ingestion succeeds exactly when there is no `prompt_id` yet, there is a `title`, and every title is a string. An existing `prompt_id` raises ValueError. On success, `prompt_id` = 0..n-1 comes first, each title is normalised, and every other column and the row order are kept. |
| FetchData.PromptIdsDenseAndUnique | components/component_base/src/fetch_data.py:67 | After ingestion the ids are pairwise distinct. They are exactly the integers 0..n-1. |
| FetchData.Ingest | components/component_base/src/fetch_data.py:67-68 | In place on the frame: the status and the new frame are those of `Ingested`. A failure after the insert leaves the inserted column in the frame. |
| FetchData.SampleTable | components/component_base/src/fetch_data.py:64-66 | The sample has three rows with `movieId`, `title` and `genres`, in that order. It holds the three titles and genre lists written in the source. |
| FetchData.SampleIngestible | components/component_base/src/fetch_data.py:64-68 | Ingesting the sample cannot fail. |
| FetchData.SampleIngestion | components/component_base/src/fetch_data.py:64-68 | The ingested sample has columns `prompt_id, movieId, title, genres`, ids 0, 1, 2, and titles `Tangled`, `Rubber`, `Toy Story 3`. Its movie ids and genres are unchanged. |
| FetchData.IngestTable | components/component_base/src/fetch_data.py:67-68 | Ingesting a fresh frame gives the status and table of `Ingested`. |
| FetchData.IngestAndUpload | components/component_base/src/fetch_data.py:67-69 | On success, the ingested table replaces the object at the given path. On failure, the store is unchanged. The warehouse is never touched. |
| FetchData.FetchDataStage | components/component_base/src/fetch_data.py:46-69 | The stage raises the initialisation error, with nothing written, exactly when the platform cannot be initialised for the project. Otherwise it completes, and the ingested sample replaces the object at `gcs_path`, whatever `input_bq_table` names. |
| CallLlmModel.TemplatePiecesPlain | components/component_base/src/call_llm_model.py:60 | The literal parts of the prompt template hold no `%`. |
| CallLlmModel.LlmPrompt | components/component_base/src/call_llm_model.py:59-60 | The prompt is the fixed template with the genre in the first slot and the title in the second, both verbatim. Building it cannot fail. |
| CallLlmModel.FirstParagraph | components/component_base/src/call_llm_model.py:90 | `text.split('\n\n')[0]` is a prefix of the reply. `FirstParagraphSpec` says which prefix. |
| CallLlmModel.FirstParagraphSpec | components/component_base/src/call_llm_model.py:90 | The kept rating is the reply up to its first blank line. No blank line of the reply starts before its end, so overlapping newlines are cut at the first. It is the whole reply when the reply has no blank line, and is followed by one otherwise. |
| CallLlmModel.OverlappingBlankLines | components/component_base/src/call_llm_model.py:90 | The reply `"a\n\n\nb"` keeps `"a"`. |
| CallLlmModel.FirstParagraphIdempotent | components/component_base/src/call_llm_model.py:90 | Cutting a kept rating again changes nothing. |
| CallLlmModel.ScoreLineKept | components/component_base/src/call_llm_model.py:90 | A reply of the form "score line, blank line, anything" whose score line has no newline is cut to the score line. |
| CallLlmModel.GetRating | components/component_base/src/call_llm_model.py:73-92 | Returns an error exactly when initialisation or model loading fails, and that error escapes. Otherwise a prediction error gives `""`, and a reply gives its first paragraph: the prefix before the first blank line. The model is called with the fixed decoding parameters and the built prompt. |
| CallLlmModel.CellText | components/component_base/src/call_llm_model.py:60 | What `%s` prints for a cell: the string itself, the digits of an int, or `nan`. Only the empty string cell prints as empty. |
| CallLlmModel.RowRating | components/component_base/src/call_llm_model.py:106 | `get_rating` on row i's printed genre and title. It fails exactly when the platform is not ready; `GetRating` gives the rest. |
| CallLlmModel.RatingDependsOnlyOnRow | components/component_base/src/call_llm_model.py:105-106 | With the project and model fixed, two rows that print the same genre and title get the same rating. |
| CallLlmModel.Ratings | components/component_base/src/call_llm_model.py:105-106 | One rating per row: row i's is the `get_rating` result for row i's genre and title. |
| CallLlmModel.Annotated | components/component_base/src/call_llm_model.py:105-106 | An empty table is left as it is. Otherwise the loop succeeds exactly when the platform is ready, and a failure is row 0's error (initialisation and model loading answer alike for every row; see "## Left out"). On success, the `rating` column is overwritten where it stands or appended, row i gets row i's rating, and every other column and the row order are unchanged. |
| CallLlmModel.PartialStep | components/component_base/src/call_llm_model.py:106 | Writing row i's rating with `.at` takes the frame from "first i rows rated" to "first i+1 rows rated". |
| CallLlmModel.PartialDone | components/component_base/src/call_llm_model.py:105-106 | Once every row is rated, the frame is the `Annotated` table. |
| CallLlmModel.RowArguments | components/component_base/src/call_llm_model.py:105-106 | The `(genre, title)` arguments of each row's `get_rating`, in row order. |
| CallLlmModel.AnnotateRows | components/component_base/src/call_llm_model.py:105-106 | The loop over the frame: status and final frame are those of `Annotated`, and a raised error leaves the frame unchanged. On completion, `get_rating` was called once per row, in row order. On a raise, only row 0's call was made, because initialisation and model loading answer alike for every row. |
| CallLlmModel.RateTable | components/component_base/src/call_llm_model.py:105-106 | Rating a fresh frame gives the status and table of `Annotated`. |
| CallLlmModel.RatingStage | components/component_base/src/call_llm_model.py:50-106 | The failures come in order: initialisation, then the read, then KeyError for columns missing from the line-98 selection, then the annotation. A successful result is a well-formed table. |
| CallLlmModel.CallLlmModelStage | components/component_base/src/call_llm_model.py:49-113 | The stage's status is that of `RatingStage` on the object at `input_path`. On success the rated table replaces the object at `output_path`. On failure nothing is written. The warehouse is untouched. |
| PostProcessing.Select | components/component_base/src/post_processing_and_export_to_bq.py:60 | `df[cols]` raises KeyError naming the missing columns exactly when some are missing. Otherwise the result has exactly `cols` in that order, every row, and the same column contents. |
| PostProcessing.EvalCell | components/component_base/src/post_processing_and_export_to_bq.py:61 | `eval` of a cell that is not a string raises TypeError. For a string cell it is the evaluator's answer. |
| PostProcessing.EvalColumn | components/component_base/src/post_processing_and_export_to_bq.py:61 | The column rewrite succeeds exactly when every cell evaluates. Each cell then becomes the string of its value, row for row. |
| PostProcessing.EvalColumnFailure | components/component_base/src/post_processing_and_export_to_bq.py:61 | When the rewrite fails, the exception is the first failing row's. |
| PostProcessing.PostProcessed | components/component_base/src/post_processing_and_export_to_bq.py:60-61 | A missing export column raises KeyError before any rating is evaluated. Otherwise the step succeeds exactly when every rating evaluates, and a failure is the rewrite's error. The result has the five columns in order and the same rows; four columns are unchanged and ratings are evaluated row for row. |
| PostProcessing.Exported | components/component_base/src/post_processing_and_export_to_bq.py:48-61 | The failures come in order: initialisation, then the read, then post-processing. A successful result has exactly the export columns. |
| PostProcessing.WarehouseAfter | components/component_base/src/post_processing_and_export_to_bq.py:58-63 | On success the exported table replaces the destination table, and every other warehouse table is unchanged. On failure the warehouse is unchanged. |
| PostProcessing.ExportIdempotent | components/component_base/src/post_processing_and_export_to_bq.py:63 | Running the export again on the same store leaves the warehouse as the first run left it. |
| PostProcessing.ExportReplaces | components/component_base/src/post_processing_and_export_to_bq.py:63 | After a successful export the destination holds the same table whatever it held before. |
| PostProcessing.PostProcess | components/component_base/src/post_processing_and_export_to_bq.py:60-61 | Selecting into a new frame and assigning its rating column gives the status and table of `PostProcessed`. |
| PostProcessing.ExportStage | components/component_base/src/post_processing_and_export_to_bq.py:48-63 | The status is that of `Exported` on the object at `output_path`. The warehouse becomes `WarehouseAfter`, and the object store is untouched. |
| Pipeline.ComponentPath | pipelines/pipeline.py:38-40 | The definition path always ends in `component.yaml`. `ComponentPathPlain` gives the whole path. |
| Pipeline.ComponentPathPlain | pipelines/pipeline.py:37-40 | The definition of a plain component name sits at `components/<name>/component.yaml`. |
| Pipeline.PipelineComponents | pipelines/pipeline.py:44-46 | The three tasks are loaded from the definitions of `fetch_data`, `call_llm_model` and `post_processing_and_export_to_bq`. |
| Pipeline.BuildPipeline | pipelines/pipeline.py:61-84 | A model id other than the two allowed ones raises ValueError. Otherwise there are three tasks, fetch then rating then export, each after the one before. They share the project and bucket. The rating stage reads what fetch wrote, and export reads what the rating stage wrote. The model id and table names are passed through. |
| Pipeline.ObjectName | pipelines/pipeline.py:33 | `'/'.join(path.split('/')[3:])` is no longer than the path. `ObjectNameSpec` says which part it is. |
| Pipeline.ObjectNameSpec | pipelines/pipeline.py:33 | The uploaded object's name is the text after the third `/` of the spec path. It is empty when the path has fewer than three `/`. |
| Pipeline.ObjectNameOfUri | pipelines/pipeline.py:33 | For `gs://<bucket>/<name>` with no `/` in the bucket, the object name is `<name>`, whatever `/` it holds. |
| Pipeline.ObjectNameExample | pipelines/pipeline.py:33 | `gs://b/p/spec.json` is uploaded as `p/spec.json`. |
| Pipeline.FetchedTable | components/component_base/src/fetch_data.py:64-68 | What the fetch stage writes is the ingested sample, and it is well formed. |
| Pipeline.PipelineOutcome | pipelines/pipeline.py:61-84 | An invalid model id gives ValueError. Otherwise the result is the rating stage on the fetched table, then the export stage on exactly the table the rating stage produced. |
| Pipeline.StagesCompose | pipelines/pipeline.py:70-84 | When both the rating and export stages succeed on a non-empty table: the exported table has the five export columns in order and the same rows. The passed-on columns are those of the fetched table. Each rating is the string `eval` gives for that row's `get_rating` answer. |
| Pipeline.RunPipeline | pipelines/pipeline.py:61-84 | Running the chain on the store: the status is that of `PipelineOutcome`, and a failure writes nothing to the warehouse. An invalid model id, checked as if on the run-time value, writes nothing at all. Otherwise the store holds the fetch stage's upload, then the rating stage's upload, and the warehouse holds the export. |

## Left out

- Object-store and warehouse I/O are modelled as maps from bucket and blob name, or table name, to a table value. Client construction, credentials, network failures and write failures are not modelled: a write always succeeds.
- The CSV round trip between stages is not modelled. `to_csv`/`read_csv` add an index column (`Unnamed: 0`), infer types, and turn an empty rating into NaN. The model stores and reads back the table value as it was. `Cell` has only ints, strings and NaN, so floats other than NaN and booleans, which a round trip can produce (a rating `"4.5"` reads back as the float 4.5), are not represented. `eval` would raise TypeError on such a cell, just as `EvalCell` does on every cell that is not a string.
- `google.auth.default()` is not modelled: it reads the environment's credentials, and the model assumes it succeeds.
- CallLlmModel.AnnotateRows, CallLlmModel.Annotated: `get_rating` runs `vertexai.init` and `TextGenerationModel.from_pretrained` again for every row (call_llm_model.py:74, 81). The model gives each of them one fixed answer per project id and per model id (`Platform.initOk`, `Platform.modelOk`). So either the first row's call raises, or none does. A failure that first happens at a later row k, such as a network error while loading the model, is not modelled. In that case rows 0..k-1 would already be rated in the frame and k+1 calls made before the error escapes. The stage would still raise and write nothing.
- Both `aiplatform.init` and the per-row `vertexai.init` are one oracle, `Platform.initOk`, keyed by project. The location argument is not modelled.
- `eval` is an opaque oracle (`Evaluator`) on the rating string. Python's expression language is not modelled.
- The hosted model's `predict` is a deterministic function of model id, decoding parameters and prompt. Sampling randomness and latency are not modelled. Neither are hangs: there is no timeout to model.
- The thread pool, `helper` and `prompt_tuple` of `call_llm_model.py` and the commented-out rate limiter are dead code and are not modelled. The selection at line 98 is, since it can raise.
- `read_bq` in `fetch_data.py` is not modelled: its call is commented out, so the stage always uses the built-in sample.
- The `print` calls are not modelled, being output only.
- Pipeline.RunPipeline: the model treats the body of `pipeline` as a Python function called with the run-time parameter values. In pipeline.py the model-id check at lines 61-62 runs once, when `compiler.Compiler().compile` calls that body on parameter placeholders. The compiled pipeline carries no such check, so an unlisted id reaches `TextGenerationModel.from_pretrained` after the fetch stage has uploaded. That split between compile time and run time is not modelled.
- `main`, `argparse`, executor dispatch, the YAML config reading and the KFP compiler and component loading are framework code and are not modelled. The task graph and its arguments are modelled.
- `PyStrings.Format` handles only the `%s` and `%%` conversions the prompt template uses. Other conversions and mapping keys give the error result.
- `PyStrings.PathJoin`: its contract states only the plain two-component case the component paths use.
- `Frames.KeyError` carries the missing column names, not pandas' message text. `AttributeError` and `PlatformError` messages are placeholders.
- The warehouse is keyed by the destination table name alone. The project id passed to `to_gbq` is not part of the key.
- `CallLlmModel.CallLlmModelStage`: `output_bq_table` is accepted and ignored, as in the source.
