/** The ingestion stage (`fetch_data`): build the three-row sample table, put
    a dense 0-based `prompt_id` column in front, cut every title at its first
    `" ("`, and upload the result. */
module FetchData {
  import opened PyStrings
  import opened Frames

  const TitleCut := " ("

  /** `title.split(" (")[0]`: always a prefix of the title (see
      `NormaliseTitleSpec` for which one). */
  function NormaliseTitle(title: string): (r: string)
    ensures |r| <= |title| && r == title[..|r|]
  {
    SplitHead(title, TitleCut);
    Split(title, TitleCut)[0]
  }

  /** A normalised title is the part of the original before its first
      `" ("`: a prefix with no `" ("` in it, followed in the original by
      `" ("` when the original has one, and the whole title otherwise. */
  lemma NormaliseTitleSpec(title: string)
    ensures var r := NormaliseTitle(title);
      && |r| <= |title| && r == title[..|r|]
      && !Contains(r, TitleCut)
      && AbsentBetween(title, TitleCut, 0, |r|)
      && (Contains(title, TitleCut) ==> OccursAt(title, TitleCut, |r|))
      && (!Contains(title, TitleCut) ==> r == title)
  {
    SplitHead(title, TitleCut);
  }

  lemma NormaliseTitleIdempotent(title: string)
    ensures NormaliseTitle(NormaliseTitle(title)) == NormaliseTitle(title)
  {
    SplitHeadIdempotent(title, TitleCut);
  }

  /** A string without `(` has no `" ("` in it. */
  lemma NoParenNoCut(s: string)
    requires '(' !in s
    ensures !Contains(s, TitleCut)
  {
    forall j: nat ensures !OccursAt(s, TitleCut, j) {
      if j + 2 <= |s| {
        assert s[j..j + 2][1] == s[j + 1];
      }
    }
  }

  /** The cut is at the first `" ("`, whatever follows it: `a + " (" + b`
      normalises to `a` whenever `a` itself has no `" ("`. */
  lemma NormaliseCutsAtFirst(a: string, b: string)
    requires !Contains(a, TitleCut)
    ensures NormaliseTitle(a + TitleCut + b) == a
  {
    var s := a + TitleCut + b;
    assert s[|a|..|a| + 2] == TitleCut;
    forall j: nat | j < |a| ensures !OccursAt(s, TitleCut, j) {
      if j + 2 <= |a| {
        assert s[j..j + 2] == a[j..j + 2];
        assert !OccursAt(a, TitleCut, j);
      } else {
        assert s[j..j + 2][1] == s[|a|] == ' ';
      }
    }
    FindFromFirst(s, TitleCut, 0, |a|);
    SplitSome(s, TitleCut, |a|);
    assert s[..|a|] == a;
  }

  /** The cut is not only at a trailing year: "A (B) (2010)" becomes "A". */
  lemma CutBeforeInnerParenthesis()
    ensures NormaliseTitle("A (B) (2010)") == "A"
  {
    NoParenNoCut("A");
    NormaliseCutsAtFirst("A", "B) (2010)");
    assert "A" + TitleCut + "B) (2010)" == "A (B) (2010)";
  }

  /** `df['title'].apply(lambda s: s.split(" (")[0])`: the lambda raises
      AttributeError on a cell that is not a string. */
  function NormaliseTitles(col: seq<Cell>): (r: Option<seq<Cell>>)
    ensures r.Some? <==> forall i :: 0 <= i < |col| ==> col[i].Str?
    ensures r.Some? ==> |r.value| == |col|
    ensures r.Some? ==> forall i :: 0 <= i < |col| ==> r.value[i] == Str(NormaliseTitle(col[i].s))
  {
    if |col| == 0 then Some([])
    else if !col[0].Str? then None
    else match NormaliseTitles(col[1..])
      case None => None
      case Some(rest) => Some([Str(NormaliseTitle(col[0].s))] + rest)
  }

  /** `range(0, 0 + len(df))` as a column. */
  function PromptIds(n: nat): (ids: seq<Cell>)
    ensures |ids| == n && forall i :: 0 <= i < n ==> ids[i] == Int(i)
  {
    seq(n, i => Int(i))
  }

  /** Lines 67-68 on any table: `prompt_id` goes in front as 0..n-1, every
      title is normalised, every other column and the row order stay as they
      were. It fails when `prompt_id` exists already, when there is no
      `title` column, or when a title is not a string. */
  function Ingested(t: Table): (r: Result<Table>)
    requires WellFormed(t)
    ensures r.Ok? <==>
      && PromptId !in t.columns && Title in t.columns
      && forall i :: 0 <= i < t.height ==> t.data[Title][i].Str?
    ensures PromptId in t.columns ==> r == Err(AlreadyExists(PromptId))
    ensures r.Ok? ==>
      && WellFormed(r.value)
      && r.value.columns == [PromptId] + t.columns
      && r.value.height == t.height
      && (forall i :: 0 <= i < t.height ==> r.value.data[PromptId][i] == Int(i))
      && (forall i :: 0 <= i < t.height ==>
            r.value.data[Title][i] == Str(NormaliseTitle(t.data[Title][i].s)))
      && Some(r.value.data[Title]) == NormaliseTitles(t.data[Title])
      && (forall c :: c in t.columns && c != Title ==> r.value.data[c] == t.data[c])
  {
    if PromptId in t.columns then Err(AlreadyExists(PromptId))
    else if Title !in t.columns then Err(KeyError([Title]))
    else match NormaliseTitles(t.data[Title])
      case None => Err(AttributeError("split"))
      case Some(titles) => Ok(WithColumn(InsertFirst(t, PromptId, PromptIds(t.height)), Title, titles))
  }

  /** After ingestion the ids are exactly 0..n-1, each once. */
  lemma PromptIdsDenseAndUnique(t: Table)
    requires WellFormed(t) && Ingested(t).Ok?
    ensures var ids := Ingested(t).value.data[PromptId];
      && |ids| == t.height
      && (forall i, j :: 0 <= i < j < |ids| ==> ids[i] != ids[j])
      && (forall v :: v in ids <==> v.Int? && 0 <= v.i < t.height)
  {
    var ids := Ingested(t).value.data[PromptId];
    forall v: Cell | v.Int? && 0 <= v.i < t.height ensures v in ids {
      assert ids[v.i] == v;
    }
  }

  /** Lines 67-68 applied in place to the frame. A failure after the insert
      leaves the new `prompt_id` column in the frame. */
  method Ingest(df: DataFrame) returns (status: Status)
    requires df.Valid()
    modifies df
    ensures df.Valid()
    ensures status == Completed <==> Ingested(old(df.Value())).Ok?
    ensures status == Completed ==> df.Value() == Ingested(old(df.Value())).value
    ensures status.Raised? ==> status.error == Ingested(old(df.Value())).error
    ensures PromptId in old(df.columns) ==> df.Value() == old(df.Value())
    ensures PromptId !in old(df.columns) && status.Raised? ==>
      df.Value() == InsertFirst(old(df.Value()), PromptId, PromptIds(old(df.height)))
  {
    status := df.InsertFirstColumn(PromptId, PromptIds(df.height));
    if status.Raised? {
      return;
    }
    if Title !in df.columns {
      return Raised(KeyError([Title]));
    }
    var titles := NormaliseTitles(df.Cells(Title));
    if titles.None? {
      return Raised(AttributeError("split"));
    }
    df.Assign(Title, titles.value);
  }

  /** The sample's three titles, each the name followed by the year. */
  const Tangled := "Tangled"
  const Rubber := "Rubber"
  const ToyStory3 := "Toy Story 3"
  const Year2010 := " (2010)"

  const SampleMovieIds: seq<Cell> := [Int(1), Int(2), Int(3)]
  const SampleTitles: seq<Cell> := [Str(Tangled + Year2010), Str(Rubber + Year2010), Str(ToyStory3 + Year2010)]
  const SampleGenres: seq<Cell> :=
    [Str("Animation|Children|Comedy|Fantasy|Musical|Romance|IMAX"),
     Str("Action|Adventure|Comedy|Crime|Drama|Film-Noir|Horror|Mystery|Thriller|Western"),
     Str("Adventure|Animation|Children|Comedy|Fantasy|IMAX")]

  /** The in-memory sample of lines 64-66 (columns in dict order). */
  function SampleTable(): (t: Table)
    ensures WellFormed(t) && t.height == 3
    ensures t.columns == [MovieId, Title, Genres]
    ensures t.data[MovieId] == SampleMovieIds && t.data[Title] == SampleTitles
    ensures t.data[Genres] == SampleGenres
  {
    Table([MovieId, Title, Genres],
          map[MovieId := SampleMovieIds, Title := SampleTitles, Genres := SampleGenres],
          3)
  }

  lemma SampleNamesPlain()
    ensures '(' !in Tangled && '(' !in Rubber && '(' !in ToyStory3
  {
  }

  lemma YearCut(a: string)
    requires '(' !in a
    ensures NormaliseTitle(a + Year2010) == a
  {
    NoParenNoCut(a);
    NormaliseCutsAtFirst(a, "2010)");
    assert a + TitleCut + "2010)" == a + Year2010;
  }

  /** A column of three titles that each end in the year normalises to the
      titles without it. */
  lemma YearCutColumn(a: string, b: string, c: string)
    requires '(' !in a && '(' !in b && '(' !in c
    ensures NormaliseTitles([Str(a + Year2010), Str(b + Year2010), Str(c + Year2010)])
         == Some([Str(a), Str(b), Str(c)])
  {
    YearCut(a);
    YearCut(b);
    YearCut(c);
    var r := NormaliseTitles([Str(a + Year2010), Str(b + Year2010), Str(c + Year2010)]);
    assert r.Some? && |r.value| == 3;
    assert r.value[0] == Str(a);
    assert r.value[1] == Str(b);
    assert r.value[2] == Str(c);
    assert r.value == [Str(a), Str(b), Str(c)];
  }

  /** Every sample title is a string, so ingesting the sample succeeds. */
  lemma SampleIngestible()
    ensures Ingested(SampleTable()).Ok?
  {
    SampleNamesPlain();
    YearCutColumn(Tangled, Rubber, ToyStory3);
    assert NormaliseTitles(SampleTable().data[Title]).Some?;
  }

  /** Ingesting the sample gives ids 0, 1, 2 in front, movie ids 1, 2, 3 and
      the titles without their year. */
  lemma SampleIngestion()
    ensures Ingested(SampleTable()).Ok?
    ensures Ingested(SampleTable()).value.columns == [PromptId, MovieId, Title, Genres]
    ensures Ingested(SampleTable()).value.data[PromptId] == [Int(0), Int(1), Int(2)]
    ensures Ingested(SampleTable()).value.data[MovieId] == SampleMovieIds
    ensures Ingested(SampleTable()).value.data[Title] == [Str(Tangled), Str(Rubber), Str(ToyStory3)]
    ensures Ingested(SampleTable()).value.data[Genres] == SampleGenres
  {
    SampleIngestedColumns();
    SampleIngestedIds();
    SampleIngestedTitles();
  }

  lemma SampleIngestedColumns()
    ensures Ingested(SampleTable()).Ok?
    ensures Ingested(SampleTable()).value.columns == [PromptId, MovieId, Title, Genres]
    ensures Ingested(SampleTable()).value.data[MovieId] == SampleMovieIds
    ensures Ingested(SampleTable()).value.data[Genres] == SampleGenres
  {
    SampleIngestible();
    PrependToThree(PromptId, MovieId, Title, Genres);
  }

  lemma SampleIngestedIds()
    ensures Ingested(SampleTable()).Ok?
    ensures Ingested(SampleTable()).value.data[PromptId] == [Int(0), Int(1), Int(2)]
  {
    SampleIngestible();
    assert Ingested(SampleTable()).value.data[PromptId] == PromptIds(3);
    PromptIdsThree();
  }

  lemma SampleIngestedTitles()
    ensures Ingested(SampleTable()).Ok?
    ensures Ingested(SampleTable()).value.data[Title] == [Str(Tangled), Str(Rubber), Str(ToyStory3)]
  {
    SampleIngestible();
    SampleNamesPlain();
    YearCutColumn(Tangled, Rubber, ToyStory3);
  }

  lemma PromptIdsThree()
    ensures PromptIds(3) == [Int(0), Int(1), Int(2)]
  {
  }

  lemma PrependToThree<T>(a: T, b: T, c: T, d: T)
    ensures [a] + [b, c, d] == [a, b, c, d]
  {
  }

  /** Lines 67-68 on a fresh frame holding `t`; `ingested` is the frame
      afterwards. */
  method IngestTable(t: Table) returns (status: Status, ingested: Table)
    requires WellFormed(t)
    ensures status == Completed <==> Ingested(t).Ok?
    ensures status == Completed ==> ingested == Ingested(t).value
    ensures status.Raised? ==> status.error == Ingested(t).error
  {
    var df := new DataFrame.FromTable(t);
    status := Ingest(df);
    ingested := df.Value();
  }

  /** Lines 67-69 on a table already in memory: ingest it and upload the
      result to `gcsPath`; when an exception escapes nothing is written. */
  method IngestAndUpload(cloud: Cloud, t: Table, gcsBucket: string, gcsPath: string)
    returns (status: Status)
    requires cloud.Valid() && WellFormed(t)
    modifies cloud
    ensures cloud.Valid() && cloud.warehouse == old(cloud.warehouse)
    ensures status == Completed <==> Ingested(t).Ok?
    ensures status.Raised? ==> status.error == Ingested(t).error && cloud.objects == old(cloud.objects)
    ensures status == Completed ==>
      cloud.objects == old(cloud.objects)[(gcsBucket, gcsPath) := Ingested(t).value]
  {
    var ingested: Table;
    status, ingested := IngestTable(t);
    if status.Raised? {
      return;
    }
    cloud.objects := cloud.objects[(gcsBucket, gcsPath) := ingested];
  }

  /** The stage: the platform is initialised for `projectId` first (line 46);
      the BigQuery read is commented out in the source, so the sample is used
      whatever `inputBqTable` names; the upload replaces the object at
      `gcsPath`. */
  method FetchDataStage(cloud: Cloud, initOk: string -> bool, projectId: string, inputBqTable: string,
                        gcsBucket: string, gcsPath: string) returns (status: Status)
    requires cloud.Valid()
    modifies cloud
    ensures cloud.Valid() && cloud.warehouse == old(cloud.warehouse)
    ensures status == Completed <==> initOk(projectId)
    ensures status.Raised? ==> status == Raised(InitError(projectId)) && cloud.objects == old(cloud.objects)
    ensures status == Completed ==>
      cloud.objects == old(cloud.objects)[(gcsBucket, gcsPath) := Ingested(SampleTable()).value]
  {
    if !initOk(projectId) {
      return Raised(InitError(projectId));
    }
    SampleIngestible();
    status := IngestAndUpload(cloud, SampleTable(), gcsBucket, gcsPath);
  }
}
