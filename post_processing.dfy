/** The export stage (`post_processing_and_export_to_bq`): read the rated
    table back, keep the five export columns in a fixed order, rewrite every
    rating through Python's `eval`, and replace the warehouse table with the
    result. `eval` is an oracle passed in as a value. */
module PostProcessing {
  import opened Frames

  /** The selection of line 60, in its order. */
  const ExportColumns := [PromptId, MovieId, Genres, Title, Rating]

  /** `df[cols]`: KeyError naming the missing columns when some are absent,
      otherwise a new table with exactly `cols`, in that order, every row
      kept. */
  function Select(t: Table, cols: seq<Column>): (r: Result<Table>)
    requires WellFormed(t) && Distinct(cols)
    ensures r.Err? <==> MissingColumns(t, cols) != []
    ensures r.Err? ==> r.error == KeyError(MissingColumns(t, cols))
    ensures r.Ok? ==>
      && WellFormed(r.value) && r.value.columns == cols && r.value.height == t.height
      && (forall c :: c in cols ==> c in r.value.data && r.value.data[c] == t.data[c])
  {
    if MissingColumns(t, cols) != [] then Err(KeyError(MissingColumns(t, cols)))
    else Ok(Table(cols, map c | c in cols :: t.data[c], t.height))
  }

  /** What `eval` does with one source string: the `str` of the value, or
      the exception it raised. */
  type Evaluator = string -> Result<string>

  /** `str(eval(s))` for one cell: `eval` of anything but a string raises
      TypeError. */
  function EvalCell(ev: Evaluator, c: Cell): (r: Result<string>)
    ensures !c.Str? ==> r.Err? && r.error.TypeError?
    ensures c.Str? ==> r == ev(c.s)
  {
    if c.Str? then ev(c.s) else Err(TypeError("eval() arg 1 must be a string, bytes or code object"))
  }

  /** Row `k` is the first whose rating fails to evaluate. */
  ghost predicate FirstFailure(ev: Evaluator, col: seq<Cell>, k: nat) {
    k < |col| && EvalCell(ev, col[k]).Err? && forall i :: 0 <= i < k ==> EvalCell(ev, col[i]).Ok?
  }

  /** `df['rating'].apply(lambda s: str(eval(s)))`: all or nothing; every
      cell becomes the string of its evaluated value, row for row, unless some
      row fails (see `EvalColumnFailure`). */
  function EvalColumn(ev: Evaluator, col: seq<Cell>): (r: Result<seq<Cell>>)
    ensures r.Ok? <==> forall i :: 0 <= i < |col| ==> EvalCell(ev, col[i]).Ok?
    ensures r.Ok? ==> |r.value| == |col|
    ensures r.Ok? ==> forall i :: 0 <= i < |col| ==> r.value[i] == Str(EvalCell(ev, col[i]).value)
  {
    if |col| == 0 then Ok([])
    else
      var head := EvalCell(ev, col[0]);
      if head.Err? then Err(head.error)
      else
        var rest := EvalColumn(ev, col[1..]);
        if rest.Err? then Err(rest.error)
        else Ok([Str(head.value)] + rest.value)
  }

  /** When the rewrite fails, the exception that escapes is the first failing
      row's. */
  lemma {:induction false} EvalColumnFailure(ev: Evaluator, col: seq<Cell>)
    requires EvalColumn(ev, col).Err?
    ensures exists k: nat :: FirstFailure(ev, col, k) && EvalColumn(ev, col).error == EvalCell(ev, col[k]).error
  {
    if EvalCell(ev, col[0]).Err? {
      assert FirstFailure(ev, col, 0);
    } else {
      var tail := col[1..];
      EvalColumnFailure(ev, tail);
      var k: nat :| FirstFailure(ev, tail, k) && EvalColumn(ev, tail).error == EvalCell(ev, tail[k]).error;
      forall i | 0 <= i < k + 1 ensures EvalCell(ev, col[i]).Ok? {
        if i > 0 {
          assert col[i] == tail[i - 1];
        }
      }
      assert col[k + 1] == tail[k];
      assert FirstFailure(ev, col, k + 1);
    }
  }

  /** Lines 60-61 on the table read back: select the export columns, then
      rewrite the ratings. A missing column fails before any rating is
      evaluated; the four other columns pass through untouched. */
  function PostProcessed(ev: Evaluator, t: Table): (r: Result<Table>)
    requires WellFormed(t)
    ensures MissingColumns(t, ExportColumns) != [] ==> r == Err(KeyError(MissingColumns(t, ExportColumns)))
    ensures r.Ok? <==>
      && MissingColumns(t, ExportColumns) == []
      && forall i :: 0 <= i < t.height ==> EvalCell(ev, t.data[Rating][i]).Ok?
    ensures MissingColumns(t, ExportColumns) == [] && r.Err? ==>
      r == Err(EvalColumn(ev, t.data[Rating]).error)
    ensures r.Ok? ==>
      && WellFormed(r.value) && r.value.columns == ExportColumns && r.value.height == t.height
      && (forall c :: c in ExportColumns && c != Rating ==> r.value.data[c] == t.data[c])
      && (forall i :: 0 <= i < t.height ==> r.value.data[Rating][i] == Str(EvalCell(ev, t.data[Rating][i]).value))
  {
    match Select(t, ExportColumns)
    case Err(e) => Err(e)
    case Ok(selected) =>
      match EvalColumn(ev, selected.data[Rating])
      case Err(e) => Err(e)
      case Ok(col) => Ok(WithColumn(selected, Rating, col))
  }

  /** The whole stage on what the read of `output_path` gave: the platform is
      initialised first (line 50), then the table read (line 58) and
      post-processed. */
  function Exported(initOk: string -> bool, ev: Evaluator, projectId: string, input: Result<Table>): (r: Result<Table>)
    requires input.Ok? ==> WellFormed(input.value)
    ensures !initOk(projectId) ==> r == Err(InitError(projectId))
    ensures initOk(projectId) && input.Err? ==> r == input
    ensures initOk(projectId) && input.Ok? ==> r == PostProcessed(ev, input.value)
    ensures r.Ok? ==> WellFormed(r.value) && r.value.columns == ExportColumns
  {
    if !initOk(projectId) then Err(InitError(projectId))
    else if input.Err? then input
    else PostProcessed(ev, input.value)
  }

  /** The warehouse after the stage: `to_gbq(..., if_exists='replace')`
      puts the exported table in place of whatever `outputBqTable` held, and a
      failed stage writes nothing. */
  function WarehouseAfter(warehouse: map<string, Table>, objects: map<(string, string), Table>,
                          initOk: string -> bool, ev: Evaluator, projectId: string,
                          outputBqTable: string, gcsBucket: string, outputPath: string): (w: map<string, Table>)
    requires forall k :: k in objects ==> WellFormed(objects[k])
    ensures var r := Exported(initOk, ev, projectId, ReadObject(objects, gcsBucket, outputPath));
      && (r.Ok? ==> outputBqTable in w && w[outputBqTable] == r.value)
      && (r.Ok? ==> forall n :: n != outputBqTable ==> (n in w <==> n in warehouse))
      && (r.Ok? ==> forall n :: n != outputBqTable && n in warehouse ==> w[n] == warehouse[n])
      && (r.Err? ==> w == warehouse)
  {
    match Exported(initOk, ev, projectId, ReadObject(objects, gcsBucket, outputPath))
    case Ok(out) => warehouse[outputBqTable := out]
    case Err(_) => warehouse
  }

  /** The stage reads only the object store, and the write replaces: running
      it a second time on the same store leaves the warehouse as the first
      run left it. */
  lemma ExportIdempotent(warehouse: map<string, Table>, objects: map<(string, string), Table>,
                          initOk: string -> bool, ev: Evaluator, projectId: string,
                          outputBqTable: string, gcsBucket: string, outputPath: string)
    requires forall k :: k in objects ==> WellFormed(objects[k])
    ensures var once := WarehouseAfter(warehouse, objects, initOk, ev, projectId, outputBqTable, gcsBucket, outputPath);
      WarehouseAfter(once, objects, initOk, ev, projectId, outputBqTable, gcsBucket, outputPath) == once
  {
  }

  /** What the destination holds after a successful export does not depend
      on what it held before. */
  lemma ExportReplaces(w1: map<string, Table>, w2: map<string, Table>,
                          objects: map<(string, string), Table>,
                          initOk: string -> bool, ev: Evaluator, projectId: string,
                          outputBqTable: string, gcsBucket: string, outputPath: string)
    requires forall k :: k in objects ==> WellFormed(objects[k])
    requires Exported(initOk, ev, projectId, ReadObject(objects, gcsBucket, outputPath)).Ok?
    ensures WarehouseAfter(w1, objects, initOk, ev, projectId, outputBqTable, gcsBucket, outputPath)[outputBqTable]
         == WarehouseAfter(w2, objects, initOk, ev, projectId, outputBqTable, gcsBucket, outputPath)[outputBqTable]
  {
  }

  /** Lines 60-61 on the frame: the selection builds a new frame and the
      rating column of that frame is overwritten in place. */
  method PostProcess(ev: Evaluator, t: Table) returns (status: Status, out: Table)
    requires WellFormed(t)
    ensures status == Completed <==> PostProcessed(ev, t).Ok?
    ensures status == Completed ==> out == PostProcessed(ev, t).value
    ensures status.Raised? ==> status.error == PostProcessed(ev, t).error
  {
    var selected := Select(t, ExportColumns);
    if selected.Err? {
      return Raised(selected.error), t;
    }
    var df := new DataFrame.FromTable(selected.value);
    var col := EvalColumn(ev, df.Cells(Rating));
    if col.Err? {
      return Raised(col.error), t;
    }
    df.Assign(Rating, col.value);
    status, out := Completed, df.Value();
  }

  /** The stage: nothing is written to the object store; the warehouse is
      written once, at the end, and only when every step before succeeded. */
  method ExportStage(cloud: Cloud, initOk: string -> bool, ev: Evaluator, projectId: string,
                     outputBqTable: string, gcsBucket: string, outputPath: string) returns (status: Status)
    requires cloud.Valid()
    modifies cloud
    ensures cloud.Valid() && cloud.objects == old(cloud.objects)
    ensures cloud.warehouse == WarehouseAfter(old(cloud.warehouse), old(cloud.objects), initOk, ev,
                                              projectId, outputBqTable, gcsBucket, outputPath)
    ensures var r := Exported(initOk, ev, projectId, ReadObject(old(cloud.objects), gcsBucket, outputPath));
      && (status == Completed <==> r.Ok?)
      && (status.Raised? ==> status.error == r.error)
  {
    if !initOk(projectId) {
      return Raised(InitError(projectId));
    }
    var input := cloud.Read(gcsBucket, outputPath);
    if input.Err? {
      return Raised(input.error);
    }
    var out: Table;
    status, out := PostProcess(ev, input.value);
    if status.Raised? {
      return;
    }
    cloud.warehouse := cloud.warehouse[outputBqTable := out];
  }
}
