/** The rating stage (`call_llm_model`): read the ingested table back, ask the
    hosted text model for a rating of every row's movie, one row after the
    other, and upload the table with its new `rating` column. The hosted
    platform is an oracle passed in as a value. */
module CallLlmModel {
  import opened PyStrings
  import opened Frames

  /** The decoding parameters of every prediction request (lines 75-80). */
  datatype Decoding = Decoding(maxOutputTokens: nat, temperature: real, topP: real, topK: nat)

  const Parameters := Decoding(256, 0.1, 0.5, 20)

  /** The prompt template of line 60, cut at its two `%s` placeholders. */
  const TemplateHead := "You are movie critic, Rate the "
  const TemplateMid := " movie "
  const TemplateTail := Tail1 + Tail2 + Tail3 + Tail4 + Tail5 + Tail6
  const Tail1 := " based on your knowledge"
  const Tail2 := " on scale of 1-5,"
  const Tail3 := " with 1 being the lowest"
  const Tail4 := " and 5 being the best."
  const Tail5 := " reply just score"
  const Tail6 := " in format x/5 "

  const PromptTemplate := TemplateHead + "%s" + TemplateMid + "%s" + TemplateTail

  /** The literal parts of the template hold no `%`, so `%` sees exactly the
      two placeholders; the text after the second placeholder is the six
      clauses `Tail1`..`Tail6` of the instruction, checked clause by clause. */
  lemma TemplatePiecesPlain()
    ensures '%' !in TemplateHead && '%' !in TemplateMid && '%' !in TemplateTail
  {
    HeadPlain();
    Tail1Plain();
    Tail2Plain();
    Tail3Plain();
    Tail4Plain();
    Tail5Plain();
    Tail6Plain();
  }

  lemma HeadPlain() ensures '%' !in TemplateHead && '%' !in TemplateMid {}
  lemma Tail1Plain() ensures '%' !in Tail1 {}
  lemma Tail2Plain() ensures '%' !in Tail2 {}
  lemma Tail3Plain() ensures '%' !in Tail3 {}
  lemma Tail4Plain() ensures '%' !in Tail4 {}
  lemma Tail5Plain() ensures '%' !in Tail5 {}
  lemma Tail6Plain() ensures '%' !in Tail6 {}

  /** `llm_prompt(genre, movie)`: the template with the genre in the first
      placeholder and the movie in the second, both verbatim. The `%`
      operator cannot fail here: the template has exactly two `%s` and no
      other `%`. */
  function LlmPrompt(genre: string, movie: string): (prompt: string)
    ensures prompt == TemplateHead + genre + TemplateMid + movie + TemplateTail
  {
    TemplatePiecesPlain();
    FormatTwo(TemplateHead, TemplateMid, TemplateTail, genre, movie);
    Format(PromptTemplate, [genre, movie]).value
  }

  const BlankLine := "\n\n"

  /** `text.split('\n\n')[0]`: the reply up to its first blank line, always
      a prefix of the reply (see `FirstParagraphSpec`). */
  function FirstParagraph(text: string): (r: string)
    ensures |r| <= |text| && r == text[..|r|]
  {
    SplitHead(text, BlankLine);
    Split(text, BlankLine)[0]
  }

  /** The first paragraph is the reply up to its first blank line: a prefix
      of the reply at which no blank line of the reply starts before its end
      (so in "a\n\n\nb" it is "a", not "a\n"); the reply goes on with a blank
      line right after it, unless it has none, in which case the paragraph is
      the whole reply. */
  lemma FirstParagraphSpec(text: string)
    ensures var r := FirstParagraph(text);
      && |r| <= |text| && r == text[..|r|]
      && !Contains(r, BlankLine)
      && AbsentBetween(text, BlankLine, 0, |r|)
      && (Contains(text, BlankLine) ==> OccursAt(text, BlankLine, |r|))
      && (!Contains(text, BlankLine) ==> r == text)
  {
    SplitHead(text, BlankLine);
  }

  /** Blank lines that overlap ("\n\n\n") are cut at the first of them. */
  lemma OverlappingBlankLines()
    ensures FirstParagraph("a\n\n\nb") == "a"
  {
    ScoreLineKept("a", "\nb");
    assert "a" + BlankLine + "\nb" == "a\n\n\nb";
  }

  lemma FirstParagraphIdempotent(text: string)
    ensures FirstParagraph(FirstParagraph(text)) == FirstParagraph(text)
  {
    SplitHeadIdempotent(text, BlankLine);
  }

  /** A reply "score, blank line, explanation" whose score line has no
      newline is cut to the score line. */
  lemma ScoreLineKept(score: string, rest: string)
    requires '\n' !in score
    ensures FirstParagraph(score + BlankLine + rest) == score
  {
    var s := score + BlankLine + rest;
    assert s[|score|..|score| + 2] == BlankLine;
    forall j: nat | j < |score| ensures !OccursAt(s, BlankLine, j) {
      assert s[j] == score[j];
      if j + 2 <= |s| {
        assert s[j..j + 2][0] == s[j];
      }
    }
    FindFromFirst(s, BlankLine, 0, |score|);
    SplitSome(s, BlankLine, |score|);
    assert s[..|score|] == score;
  }

  /** The hosted model service as the stage sees it: whether `vertexai.init`
      succeeds for a project, whether `TextGenerationModel.from_pretrained`
      loads a model id, and what `model.predict` answers for a prompt (the
      text of the response, or the exception raised on the way to it). */
  datatype Platform = Platform(
    initOk: string -> bool,
    modelOk: string -> bool,
    predict: (string, Decoding, string) -> Result<string>)

  predicate Ready(p: Platform, projectId: string, llmModel: string) {
    p.initOk(projectId) && p.modelOk(llmModel)
  }

  function ModelError(llmModel: string): Error {
    PlatformError("cannot load model " + llmModel)
  }

  /** `get_rating`: initialising the platform and loading the model happen
      outside the `try`, so their failures escape; everything from building
      the prompt to splitting the reply is inside it, and any failure there
      gives the empty rating. A rating that does come back is the first
      paragraph of the reply. */
  function GetRating(p: Platform, projectId: string, genre: string, movie: string,
                     llmModel: string): (r: Result<string>)
    ensures r.Err? <==> !Ready(p, projectId, llmModel)
    ensures !p.initOk(projectId) ==> r == Err(InitError(projectId))
    ensures p.initOk(projectId) && !p.modelOk(llmModel) ==> r == Err(ModelError(llmModel))
    ensures Ready(p, projectId, llmModel) ==>
      match p.predict(llmModel, Parameters, LlmPrompt(genre, movie))
      case Err(_) => r.value == ""
      case Ok(text) =>
        && |r.value| <= |text| && r.value == text[..|r.value|]
        && !Contains(r.value, BlankLine)
        && AbsentBetween(text, BlankLine, 0, |r.value|)
        && (!Contains(text, BlankLine) ==> r.value == text)
        && (Contains(text, BlankLine) ==> OccursAt(text, BlankLine, |r.value|))
  {
    if !p.initOk(projectId) then Err(InitError(projectId))
    else if !p.modelOk(llmModel) then Err(ModelError(llmModel))
    else match p.predict(llmModel, Parameters, LlmPrompt(genre, movie))
      case Err(_) => Ok("")
      case Ok(text) => FirstParagraphSpec(text); Ok(FirstParagraph(text))
  }

  /** What `%s` prints for a cell read back from CSV: the string itself, the
      digits of an integer, `nan` for a missing value. */
  function CellText(c: Cell): (r: string)
    ensures r == "" ==> c == Str("")
  {
    match c
    case Str(s) => s
    case Int(i) => IntText(i)
    case NaN => "nan"
  }

  /** The tables the loop of lines 105-106 can run over: `row.genres` and
      `row.title` exist. */
  predicate Rateable(t: Table) {
    WellFormed(t) && Genres in t.columns && Title in t.columns
  }

  /** `get_rating` for row `i` of `t`. */
  function RowRating(p: Platform, projectId: string, llmModel: string, t: Table, i: nat): (r: Result<string>)
    requires Rateable(t) && i < t.height
    ensures r.Err? <==> !Ready(p, projectId, llmModel)
  {
    GetRating(p, projectId, CellText(t.data[Genres][i]), CellText(t.data[Title][i]), llmModel)
  }

  /** A row's rating is decided by its genre and title text alone (with the
      project and model fixed): two rows, of the same table or not, that
      print the same get the same rating. */
  lemma RatingDependsOnlyOnRow(p: Platform, projectId: string, llmModel: string,
                               t: Table, i: nat, u: Table, j: nat)
    requires Rateable(t) && i < t.height && Rateable(u) && j < u.height
    requires CellText(t.data[Genres][i]) == CellText(u.data[Genres][j])
    requires CellText(t.data[Title][i]) == CellText(u.data[Title][j])
    ensures RowRating(p, projectId, llmModel, t, i) == RowRating(p, projectId, llmModel, u, j)
  {
  }

  /** The ratings of all rows, once the platform is ready. */
  function Ratings(p: Platform, projectId: string, llmModel: string, t: Table): (col: seq<Cell>)
    requires Rateable(t) && Ready(p, projectId, llmModel)
    ensures |col| == t.height
    ensures forall i :: 0 <= i < t.height ==> col[i] == Str(RowRating(p, projectId, llmModel, t, i).value)
  {
    seq(t.height, i requires 0 <= i < t.height => Str(RowRating(p, projectId, llmModel, t, i).value))
  }

  /** Lines 105-106 on a whole table. An empty table is left as it is (no
      `rating` column appears); otherwise the first `get_rating` either
      raises, and so would every other (the platform answers initialisation
      and model loading alike for every row), or every row gets a string rating in
      the `rating` column (overwritten where it stands, appended otherwise),
      all other columns and the row order staying as they were. */
  function Annotated(p: Platform, projectId: string, llmModel: string, t: Table): (r: Result<Table>)
    requires Rateable(t)
    ensures t.height == 0 ==> r == Ok(t)
    ensures t.height > 0 ==> (r.Ok? <==> Ready(p, projectId, llmModel))
    ensures r.Err? ==> r.error == RowRating(p, projectId, llmModel, t, 0).error
    ensures t.height > 0 && r.Ok? ==>
      && Rateable(r.value) && r.value.height == t.height
      && r.value.columns == (if Rating in t.columns then t.columns else t.columns + [Rating])
      && (forall c :: c in t.columns && c != Rating ==> r.value.data[c] == t.data[c])
      && (forall i :: 0 <= i < t.height ==>
            r.value.data[Rating][i] == Str(RowRating(p, projectId, llmModel, t, i).value))
  {
    if t.height == 0 then Ok(t)
    else if !Ready(p, projectId, llmModel) then Err(RowRating(p, projectId, llmModel, t, 0).error)
    else Ok(WithColumn(t, Rating, Ratings(p, projectId, llmModel, t)))
  }

  /** Writing `a[i]` over the `i`-th cell of "first `i` cells of `a`, then
      the rest of `b`" extends the prefix by one. */
  lemma SpliceStep<T>(a: seq<T>, b: seq<T>, i: nat)
    requires |a| == |b| && i < |a|
    ensures (a[..i] + b[i..])[i := a[i]] == a[..i + 1] + b[i + 1..]
  {
  }

  /** The table after the loop has rated its first `i` rows (`i > 0`). */
  function Partial(p: Platform, projectId: string, llmModel: string, t: Table, i: nat): (r: Table)
    requires Rateable(t) && Ready(p, projectId, llmModel) && 0 < i <= t.height
  {
    WithColumn(t, Rating, Ratings(p, projectId, llmModel, t)[..i] + ColumnOrNaN(t, Rating)[i..])
  }

  /** Setting row `i`'s rating moves the loop from `i` rated rows to `i + 1`. */
  lemma PartialStep(p: Platform, projectId: string, llmModel: string, t: Table, i: nat)
    requires Rateable(t) && Ready(p, projectId, llmModel) && i < t.height
    ensures var before := if i == 0 then t else Partial(p, projectId, llmModel, t, i);
      WithColumn(before, Rating, ColumnOrNaN(before, Rating)[i := Str(RowRating(p, projectId, llmModel, t, i).value)])
        == Partial(p, projectId, llmModel, t, i + 1)
  {
    var rs := Ratings(p, projectId, llmModel, t);
    var base := ColumnOrNaN(t, Rating);
    SpliceStep(rs, base, i);
    if i > 0 {
      WithColumnTwice(t, Rating, rs[..i] + base[i..], rs[..i + 1] + base[i + 1..]);
    } else {
      assert rs[..0] + base[0..] == base;
    }
  }

  lemma PartialDone(p: Platform, projectId: string, llmModel: string, t: Table)
    requires Rateable(t) && Ready(p, projectId, llmModel) && 0 < t.height
    ensures Partial(p, projectId, llmModel, t, t.height) == Annotated(p, projectId, llmModel, t).value
  {
    var rs := Ratings(p, projectId, llmModel, t);
    assert rs[..t.height] + ColumnOrNaN(t, Rating)[t.height..] == rs;
  }

  /** The `(genre, movie)` arguments of `get_rating` for each row, in row
      order. */
  function RowArguments(t: Table): (args: seq<(string, string)>)
    requires Rateable(t)
    ensures |args| == t.height
    ensures forall i :: 0 <= i < t.height ==>
      args[i] == (CellText(t.data[Genres][i]), CellText(t.data[Title][i]))
  {
    seq(t.height, i requires 0 <= i < t.height => (CellText(t.data[Genres][i]), CellText(t.data[Title][i])))
  }

  lemma RowArgumentsStep(t: Table, i: nat)
    requires Rateable(t) && i < t.height
    ensures RowArguments(t)[..i] + [(CellText(t.data[Genres][i]), CellText(t.data[Title][i]))]
         == RowArguments(t)[..i + 1]
  {
  }

  /** Lines 105-106 on the frame: one `get_rating` and one `df.at` per row,
      in row order. `calls` lists the `(genre, movie)` of every `get_rating`
      call made: one per row when the loop completes, only the first row's
      when that first call raises. */
  method AnnotateRows(df: DataFrame, p: Platform, projectId: string, llmModel: string)
    returns (status: Status, calls: seq<(string, string)>)
    requires df.Valid() && Rateable(df.Value())
    modifies df
    ensures df.Valid()
    ensures status == Completed ==> calls == RowArguments(old(df.Value()))
    ensures status.Raised? ==> old(df.height) > 0 && calls == RowArguments(old(df.Value()))[..1]
    ensures status == Completed <==> Annotated(p, projectId, llmModel, old(df.Value())).Ok?
    ensures status == Completed ==> df.Value() == Annotated(p, projectId, llmModel, old(df.Value())).value
    ensures status.Raised? ==>
      status.error == Annotated(p, projectId, llmModel, old(df.Value())).error
      && df.Value() == old(df.Value())
  {
    ghost var t := df.Value();
    var i := 0;
    calls := [];
    while i < df.height
      invariant 0 <= i <= t.height && df.Valid() && df.height == t.height
      invariant calls == RowArguments(t)[..i]
      invariant i == 0 ==> df.Value() == t
      invariant i > 0 ==> Ready(p, projectId, llmModel)
      invariant i > 0 ==> df.Value() == Partial(p, projectId, llmModel, t, i)
    {
      assert df.data[Genres] == t.data[Genres] && df.data[Title] == t.data[Title];
      var genre, movie := CellText(df.Cells(Genres)[i]), CellText(df.Cells(Title)[i]);
      RowArgumentsStep(t, i);
      calls := calls + [(genre, movie)];
      var r := GetRating(p, projectId, genre, movie, llmModel);
      if r.Err? {
        return Raised(r.error), calls;
      }
      df.SetAt(i, Rating, Str(r.value));
      PartialStep(p, projectId, llmModel, t, i);
      i := i + 1;
    }
    status := Completed;
    assert RowArguments(t)[..t.height] == RowArguments(t);
    if t.height > 0 {
      PartialDone(p, projectId, llmModel, t);
    }
  }

  /** The columns line 98 selects; a missing one raises KeyError even though
      the selection is not used afterwards. */
  const PromptColumns := [PromptId, Genres, Title]

  /** The whole stage on what the read of `input_path` gave: the platform is
      initialised first (line 50), then the table is read (line 96), the
      selection of line 98 checked, and every row rated. */
  function RatingStage(p: Platform, projectId: string, llmModel: string, input: Result<Table>): (r: Result<Table>)
    requires input.Ok? ==> WellFormed(input.value)
    ensures !p.initOk(projectId) ==> r == Err(InitError(projectId))
    ensures p.initOk(projectId) && input.Err? ==> r == input
    ensures r.Ok? ==> input.Ok? && MissingColumns(input.value, PromptColumns) == [] && WellFormed(r.value)
    ensures r.Ok? ==> PromptId in input.value.columns && Rateable(input.value)
    ensures p.initOk(projectId) && input.Ok? ==>
      var missing := MissingColumns(input.value, PromptColumns);
      && (missing != [] ==> r == Err(KeyError(missing)))
      && (missing == [] ==> r == Annotated(p, projectId, llmModel, input.value))
  {
    if !p.initOk(projectId) then Err(InitError(projectId))
    else if input.Err? then input
    else
      var missing := MissingColumns(input.value, PromptColumns);
      if missing != [] then Err(KeyError(missing))
      else Annotated(p, projectId, llmModel, input.value)
  }

  /** The stage: the rated table replaces the object at `outputPath`; when an
      exception escapes nothing is written. `outputBqTable` is not used. */
  method CallLlmModelStage(cloud: Cloud, p: Platform, projectId: string, llmModel: string,
                           outputBqTable: string, gcsBucket: string, inputPath: string,
                           outputPath: string) returns (status: Status)
    requires cloud.Valid()
    modifies cloud
    ensures cloud.Valid() && cloud.warehouse == old(cloud.warehouse)
    ensures var r := RatingStage(p, projectId, llmModel, old(cloud.Read(gcsBucket, inputPath)));
      && (status == Completed <==> r.Ok?)
      && (status.Raised? ==> status.error == r.error && cloud.objects == old(cloud.objects))
      && (status == Completed ==> cloud.objects == old(cloud.objects)[(gcsBucket, outputPath) := r.value])
  {
    if !p.initOk(projectId) {
      return Raised(InitError(projectId));
    }
    var input := cloud.Read(gcsBucket, inputPath);
    if input.Err? {
      return Raised(input.error);
    }
    var missing := MissingColumns(input.value, PromptColumns);
    if missing != [] {
      return Raised(KeyError(missing));
    }
    var rated: Table;
    status, rated := RateTable(input.value, p, projectId, llmModel);
    if status.Raised? {
      return;
    }
    cloud.objects := cloud.objects[(gcsBucket, outputPath) := rated];
  }

  /** Lines 105-106 on a fresh frame holding `t`; `rated` is the frame
      afterwards. */
  method RateTable(t: Table, p: Platform, projectId: string, llmModel: string)
    returns (status: Status, rated: Table)
    requires Rateable(t)
    ensures status == Completed <==> Annotated(p, projectId, llmModel, t).Ok?
    ensures status == Completed ==> rated == Annotated(p, projectId, llmModel, t).value
    ensures status.Raised? ==> status.error == Annotated(p, projectId, llmModel, t).error
  {
    var df := new DataFrame.FromTable(t);
    var calls;
    status, calls := AnnotateRows(df, p, projectId, llmModel);
    rated := df.Value();
  }
}
