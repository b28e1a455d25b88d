/** The pipeline definition: the allow-list check on the model id, the three
    stage tasks chained one after the other with the paths they hand on, the
    component definition path of each stage, and the object name the
    compiled specification is uploaded under. `RunPipeline` runs the chain
    the way the orchestrator does: a task starts once the task it comes
    after has completed. */
module Pipeline {
  import opened PyStrings
  import opened Frames
  import FetchData
  import CallLlmModel
  import PostProcessing

  /** The model ids line 61 accepts. */
  const AllowedModels := ["text-bison@001", "text-bison"]

  const InvalidModel := ValueError("llm model is not valid")

  /** The pipeline's run-time parameters (lines 52-58). */
  datatype Params = Params(
    projectId: string,
    llmModel: string,
    inputBqTable: string,
    outputBqTable: string,
    gcsBucket: string,
    gcsPath: string,
    llmOutputPath: string)

  /** A stage invocation with its arguments, by keyword. */
  datatype StageCall =
    | FetchCall(projectId: string, inputBqTable: string, gcsBucket: string, gcsPath: string)
    | LlmCall(projectId: string, llmModel: string, outputBqTable: string, gcsBucket: string,
              inputPath: string, outputPath: string)
    | ExportCall(projectId: string, outputBqTable: string, gcsBucket: string, outputPath: string)

  /** A task of the pipeline graph: the component definition it was loaded
      from, its call, and the indices of the tasks it runs `.after`. */
  datatype Task = Task(componentPath: string, call: StageCall, after: seq<nat>)

  /** `os.path.join('components', name, 'component.yaml')`. */
  function ComponentPath(name: string): (path: string)
    ensures |path| >= |"component.yaml"| && path[|path| - |"component.yaml"|..] == "component.yaml"
  {
    PathJoin(PathJoin("components", name), "component.yaml")
  }

  /** For a plain component name the definition sits at
      `components/<name>/component.yaml`. */
  lemma ComponentPathPlain(name: string)
    requires |name| > 0 && name[0] != '/' && name[|name| - 1] != '/'
    ensures ComponentPath(name) == "components/" + name + "/component.yaml"
  {
    var dir := PathJoin("components", name);
    assert "components"[9] == 's';
    assert dir == "components" + "/" + name;
    assert dir[|dir| - 1] == name[|name| - 1];
    assert "component.yaml"[0] == 'c';
    assert dir + "/" + "component.yaml" == "components/" + name + "/component.yaml";
  }

  /** The body of `pipeline` (lines 61-84): the allow-list check first, then
      the three tasks, each after the one before. */
  function BuildPipeline(params: Params): (r: Result<seq<Task>>)
    ensures r.Err? <==> params.llmModel != "text-bison@001" && params.llmModel != "text-bison"
    ensures r.Err? ==> r.error == InvalidModel
    ensures r.Ok? ==> |r.value| == 3
    ensures r.Ok? ==> forall i :: 0 <= i < |r.value| ==> r.value[i].after == (if i == 0 then [] else [i - 1])
    ensures r.Ok? ==>
      && r.value[0].call.FetchCall? && r.value[1].call.LlmCall? && r.value[2].call.ExportCall?
      && (forall i :: 0 <= i < |r.value| ==>
            r.value[i].call.projectId == params.projectId && r.value[i].call.gcsBucket == params.gcsBucket)
      && r.value[0].call.gcsPath == params.gcsPath
      && r.value[1].call.inputPath == r.value[0].call.gcsPath
      && r.value[2].call.outputPath == r.value[1].call.outputPath == params.llmOutputPath
      && r.value[1].call.llmModel == params.llmModel
      && r.value[0].call.inputBqTable == params.inputBqTable
      && r.value[2].call.outputBqTable == params.outputBqTable
  {
    if params.llmModel !in AllowedModels then Err(InvalidModel)
    else
      Ok([Task(ComponentPath("fetch_data"),
               FetchCall(params.projectId, params.inputBqTable, params.gcsBucket, params.gcsPath),
               []),
          Task(ComponentPath("call_llm_model"),
               LlmCall(params.projectId, params.llmModel, params.outputBqTable, params.gcsBucket,
                       params.gcsPath, params.llmOutputPath),
               [0]),
          Task(ComponentPath("post_processing_and_export_to_bq"),
               ExportCall(params.projectId, params.outputBqTable, params.gcsBucket, params.llmOutputPath),
               [1])])
  }

  /** `'/'.join(path.split('/')[3:])`: for `gs://bucket/name` the object name
      inside the bucket. */
  function ObjectName(path: string): (name: string)
    ensures |name| <= |path|
  {
    JoinDropSplit(path, '/', 3);
    Join(Drop(Split(path, "/"), 3), "/")
  }

  /** The object name is what follows the third `/`, or empty when the path
      has fewer than three. */
  lemma ObjectNameSpec(path: string)
    ensures Count(path, '/') < 3 ==> ObjectName(path) == ""
    ensures Count(path, '/') >= 3 ==>
      exists k: nat :: NthOccurrence(path, '/', 3, k) && ObjectName(path) == path[k + 1..]
  {
    JoinDropSplit(path, '/', 3);
  }

  lemma SchemeSlashes()
    ensures Count("gs://", '/') == 2
  {
    assert "gs://"[1..] == "s://";
    assert "s://"[1..] == "://";
    assert "://"[1..] == "//";
    assert "//"[1..] == "/";
    assert "/"[1..] == "";
  }

  /** For `gs://<bucket>/<name>` with a bucket without `/`, the object name
      is `<name>`, whatever `/` it holds. */
  lemma ObjectNameOfUri(bucket: string, name: string)
    requires '/' !in bucket
    ensures ObjectName("gs://" + bucket + "/" + name) == name
  {
    var s := "gs://" + bucket + "/" + name;
    var k := 5 + |bucket|;
    SchemeSlashes();
    CountAbsent(bucket, '/');
    CountConcat("gs://", bucket, '/');
    assert s[..k] == "gs://" + bucket;
    assert s[k] == '/';
    assert NthOccurrence(s, '/', 3, k);
    CountPrefixGrows(s, '/', k, |s|);
    assert s[..|s|] == s;
    ObjectNameSpec(s);
    var k': nat :| NthOccurrence(s, '/', 3, k') && ObjectName(s) == s[k' + 1..];
    NthOccurrenceUnique(s, '/', 3, k, k');
    assert s[k + 1..] == name;
  }

  /** The object name of the usual specification path. */
  lemma ObjectNameExample()
    ensures ObjectName("gs://b/p/spec.json") == "p/spec.json"
  {
    ObjectNameOfUri("b", "p/spec.json");
    assert "gs://" + "b" + "/" + "p/spec.json" == "gs://b/p/spec.json";
  }

  /** Each task is loaded from the definition file named after its stage. */
  lemma PipelineComponents(params: Params)
    requires BuildPipeline(params).Ok?
    ensures var tasks := BuildPipeline(params).value;
      && tasks[0].componentPath == "components/" + "fetch_data" + "/component.yaml"
      && tasks[1].componentPath == "components/" + "call_llm_model" + "/component.yaml"
      && tasks[2].componentPath == "components/" + "post_processing_and_export_to_bq" + "/component.yaml"
  {
    ComponentPathPlain("fetch_data");
    ComponentPathPlain("call_llm_model");
    ComponentPathPlain("post_processing_and_export_to_bq");
  }

  /** The fetched table: the stage always succeeds on its built-in sample. */
  function FetchedTable(): (t: Table)
    ensures WellFormed(t) && FetchData.Ingested(FetchData.SampleTable()) == Ok(t)
  {
    FetchData.SampleIngestible();
    FetchData.Ingested(FetchData.SampleTable()).value
  }

  /** What a run of the pipeline ends with: the model check, then the rating
      stage on exactly the table the fetch stage wrote, then the export stage
      on exactly the table the rating stage wrote. */
  function PipelineOutcome(p: CallLlmModel.Platform, ev: PostProcessing.Evaluator, params: Params): (r: Result<Table>)
    ensures params.llmModel !in AllowedModels ==> r == Err(InvalidModel)
    ensures params.llmModel in AllowedModels ==>
      var rated := CallLlmModel.RatingStage(p, params.projectId, params.llmModel, Ok(FetchedTable()));
      && (rated.Err? ==> r == Err(rated.error))
      && (rated.Ok? ==> r == PostProcessing.Exported(p.initOk, ev, params.projectId, Ok(rated.value)))
  {
    if params.llmModel !in AllowedModels then Err(InvalidModel)
    else
      var rated := CallLlmModel.RatingStage(p, params.projectId, params.llmModel, Ok(FetchedTable()));
      if rated.Err? then Err(rated.error)
      else PostProcessing.Exported(p.initOk, ev, params.projectId, Ok(rated.value))
  }

  /** The rating stage and then the export stage on any table `t` the
      fetch stage could have written: when both succeed, the exported table
      holds the five export columns in order, the rows of `t` in order, the
      four passed-on columns exactly as in `t`, and in every row the string
      of `eval` applied to that row's rating. */
  lemma StagesCompose(p: CallLlmModel.Platform, ev: PostProcessing.Evaluator,
                                          projectId: string, llmModel: string, t: Table, rated: Table, out: Table)
    requires WellFormed(t) && t.height > 0
    requires CallLlmModel.RatingStage(p, projectId, llmModel, Ok(t)) == Ok(rated)
    requires PostProcessing.Exported(p.initOk, ev, projectId, Ok(rated)) == Ok(out)
    ensures out.columns == PostProcessing.ExportColumns && out.height == t.height
    ensures forall c :: c in PostProcessing.ExportColumns && c != Rating ==> c in t.columns && out.data[c] == t.data[c]
    ensures forall i :: 0 <= i < t.height ==>
      out.data[Rating][i].Str? && ev(CallLlmModel.RowRating(p, projectId, llmModel, t, i).value) == Ok(out.data[Rating][i].s)
  {
    assert Ok(rated) == CallLlmModel.Annotated(p, projectId, llmModel, t);
    assert Ok(out) == PostProcessing.PostProcessed(ev, rated);
    forall c | c in PostProcessing.ExportColumns && c != Rating ensures c in t.columns {
      assert c in rated.columns;
    }
    forall i | 0 <= i < t.height
      ensures out.data[Rating][i].Str?
      ensures ev(CallLlmModel.RowRating(p, projectId, llmModel, t, i).value) == Ok(out.data[Rating][i].s)
    {
      var rating := CallLlmModel.RowRating(p, projectId, llmModel, t, i).value;
      assert rated.data[Rating][i] == Str(rating);
      assert out.data[Rating][i] == Str(PostProcessing.EvalCell(ev, Str(rating)).value);
    }
  }

  /** The object store after a run that got past the model check: nothing
      when the platform cannot be initialised, otherwise the fetch stage's
      upload, then the rating stage's upload when that stage succeeded. */
  function ObjectsAfterRun(objects: map<(string, string), Table>, p: CallLlmModel.Platform,
                           params: Params): map<(string, string), Table>
  {
    if !p.initOk(params.projectId) then objects
    else
      var fetched := objects[(params.gcsBucket, params.gcsPath) := FetchedTable()];
      var rated := CallLlmModel.RatingStage(p, params.projectId, params.llmModel, Ok(FetchedTable()));
      if rated.Ok? then fetched[(params.gcsBucket, params.llmOutputPath) := rated.value] else fetched
  }

  /** A run of the pipeline on the store, with `p` as the hosted model
      service and `ev` as `eval`, taking the body of `pipeline` as a Python
      function called with the run-time parameter values: a model id outside
      the allow-list raises before any task exists, so nothing runs;
      otherwise the tasks run in chain order, each on the arguments its call
      holds, and a task that raises stops the tasks after it. (Under the
      Kubeflow compiler that check runs once, at compile time, on parameter
      placeholders; that split is not modelled.) */
  method RunPipeline(cloud: Cloud, p: CallLlmModel.Platform, ev: PostProcessing.Evaluator, params: Params)
    returns (status: Status)
    requires cloud.Valid()
    modifies cloud
    ensures cloud.Valid()
    ensures status == Completed <==> PipelineOutcome(p, ev, params).Ok?
    ensures status.Raised? ==>
      status.error == PipelineOutcome(p, ev, params).error && cloud.warehouse == old(cloud.warehouse)
    ensures status == Completed ==>
      cloud.warehouse == old(cloud.warehouse)[params.outputBqTable := PipelineOutcome(p, ev, params).value]
    ensures params.llmModel !in AllowedModels ==> cloud.objects == old(cloud.objects)
    ensures params.llmModel in AllowedModels ==> cloud.objects == ObjectsAfterRun(old(cloud.objects), p, params)
  {
    var built := BuildPipeline(params);
    if built.Err? {
      return Raised(built.error);
    }
    var fetch, llm, post := built.value[0].call, built.value[1].call, built.value[2].call;
    status := FetchData.FetchDataStage(cloud, p.initOk, fetch.projectId, fetch.inputBqTable, fetch.gcsBucket, fetch.gcsPath);
    if status.Raised? {
      return;
    }
    status := CallLlmModel.CallLlmModelStage(cloud, p, llm.projectId, llm.llmModel, llm.outputBqTable,
                                             llm.gcsBucket, llm.inputPath, llm.outputPath);
    if status.Raised? {
      return;
    }
    status := PostProcessing.ExportStage(cloud, p.initOk, ev, post.projectId, post.outputBqTable,
                                         post.gcsBucket, post.outputPath);
  }
}
