/** The tables the three stages pass around, as pandas holds them: an ordered
    list of distinct column names, one column of cells per name, and a row
    count. `Table` is the value (what a CSV object or a warehouse table holds);
    `DataFrame` is the object a stage mutates in place; `Cloud` is the object
    store and the warehouse the stages read and write. */
module Frames {
  /** A column name: the five names the stages write as literals, or any
      other name (such as the index column a CSV round trip leaves). */
  datatype Column = PromptId | MovieId | Title | Genres | Rating | Other(name: string)

  /** The name pandas shows for the column. */
  function ColumnName(c: Column): string {
    match c
    case PromptId => "prompt_id"
    case MovieId => "movieId"
    case Title => "title"
    case Genres => "genres"
    case Rating => "rating"
    case Other(n) => n
  }

  const NamedColumns: seq<string> := ["prompt_id", "movieId", "title", "genres", "rating"]

  /** Each name has one spelling: `Other` never carries one of the five. */
  predicate Canonical(c: Column) {
    c.Other? ==> c.name !in NamedColumns
  }

  /** The Python exceptions the modelled code can raise. */
  datatype Error =
    | KeyError(keys: seq<Column>)      // a selected column is missing
    | ValueError(message: string)      // insert of an existing column, invalid model id
    | AttributeError(name: string)     // `.split` on a cell that is not a string
    | TypeError(message: string)       // `eval` of a cell that is not a string
    | NotFound(bucket: string, blob: string)
    | PlatformError(message: string)   // raised by the hosted-model client
    | EvalError(source: string)        // raised while evaluating a rating

  datatype Result<T> = Ok(value: T) | Err(error: Error)

  /** The ValueError of `df.insert` for a column the frame already has. */
  function AlreadyExists(name: Column): Error {
    ValueError("cannot insert " + ColumnName(name) + ", already exists")
  }

  /** What `aiplatform.init` / `vertexai.init` raise for a project they
      cannot be initialised for. */
  function InitError(projectId: string): Error {
    PlatformError("initialization failed for project " + projectId)
  }

  /** How a stage ended: ran to completion, or an exception escaped it. */
  datatype Status = Completed | Raised(error: Error)

  /** One cell: an integer, a string, or the float NaN pandas uses for a
      missing value. */
  datatype Cell = Int(i: int) | Str(s: string) | NaN

  datatype Table = Table(columns: seq<Column>, data: map<Column, seq<Cell>>, height: nat)

  predicate Distinct(names: seq<Column>) {
    forall i, j :: 0 <= i < j < |names| ==> names[i] != names[j]
  }

  /** Column names are distinct, each names exactly one column, and every
      column has one cell per row. */
  predicate WellFormed(t: Table) {
    && Distinct(t.columns)
    && (forall c :: c in t.columns ==> Canonical(c))
    && (forall c :: c in t.data ==> c in t.columns)
    && (forall c :: c in t.columns ==> c in t.data)
    && (forall c :: c in t.data ==> |t.data[c]| == t.height)
  }

  /** The names of `wanted` that `t` lacks, in the order asked for; pandas'
      `df[wanted]` raises KeyError exactly when this is not empty. */
  function MissingColumns(t: Table, wanted: seq<Column>): (r: seq<Column>)
    ensures forall c :: c in r <==> c in wanted && c !in t.columns
  {
    if |wanted| == 0 then []
    else (if wanted[0] in t.columns then [] else [wanted[0]]) + MissingColumns(t, wanted[1..])
  }

  /** `df[name] = col`: an existing column is overwritten where it stands, a
      new one is appended at the right. */
  function WithColumn(t: Table, name: Column, col: seq<Cell>): (r: Table)
    requires WellFormed(t) && |col| == t.height && Canonical(name)
    ensures WellFormed(r) && r.height == t.height
    ensures name in r.data && r.data[name] == col
    ensures forall c :: c in t.data && c != name ==> c in r.data && r.data[c] == t.data[c]
    ensures r.columns == if name in t.columns then t.columns else t.columns + [name]
  {
    Table(if name in t.columns then t.columns else t.columns + [name], t.data[name := col], t.height)
  }

  /** `df.insert(0, name, col)` for a name the frame does not have yet. */
  function InsertFirst(t: Table, name: Column, col: seq<Cell>): (r: Table)
    requires WellFormed(t) && |col| == t.height && name !in t.columns && Canonical(name)
    ensures WellFormed(r) && r.height == t.height
    ensures r.columns == [name] + t.columns
    ensures name in r.data && r.data[name] == col
    ensures forall c :: c in t.data ==> c in r.data && r.data[c] == t.data[c]
  {
    Table([name] + t.columns, t.data[name := col], t.height)
  }

  /** The column `name` as it stands, or an all-NaN column where the frame
      has none (what pandas creates before setting one cell of a new column). */
  function ColumnOrNaN(t: Table, name: Column): (col: seq<Cell>)
    requires WellFormed(t)
    ensures |col| == t.height
    ensures name in t.columns ==> col == t.data[name]
    ensures name !in t.columns ==> forall i :: 0 <= i < t.height ==> col[i] == NaN
  {
    if name in t.data then t.data[name] else seq(t.height, _ => NaN)
  }

  /** Setting a column twice keeps the second: the first write adds the name
      (if new) and the second overwrites it where it stands. */
  lemma WithColumnTwice(t: Table, name: Column, a: seq<Cell>, b: seq<Cell>)
    requires WellFormed(t) && |a| == t.height && |b| == t.height && Canonical(name)
    ensures WithColumn(WithColumn(t, name, a), name, b) == WithColumn(t, name, b)
  {
  }

  /** A pandas DataFrame whose contents the stages change in place. */
  class DataFrame {
    var columns: seq<Column>
    var data: map<Column, seq<Cell>>
    var height: nat

    function Value(): Table
      reads this
    {
      Table(columns, data, height)
    }

    predicate Valid()
      reads this
    {
      WellFormed(Value())
    }

    /** `pd.DataFrame(...)` or a table read back from storage. */
    constructor FromTable(t: Table)
      requires WellFormed(t)
      ensures Valid() && Value() == t
    {
      columns, data, height := t.columns, t.data, t.height;
    }

    function Cells(name: Column): (col: seq<Cell>)
      requires Valid() && name in columns
      reads this
      ensures |col| == height
    {
      data[name]
    }

    /** `df.insert(0, name, col)`: pandas raises ValueError when the column
        already exists, and leaves the frame as it was. */
    method InsertFirstColumn(name: Column, col: seq<Cell>) returns (status: Status)
      requires Valid() && |col| == height && Canonical(name)
      modifies this
      ensures Valid()
      ensures name in old(columns) ==> status == Raised(AlreadyExists(name)) && Value() == old(Value())
      ensures name !in old(columns) ==> status == Completed && Value() == InsertFirst(old(Value()), name, col)
    {
      if name in columns {
        return Raised(AlreadyExists(name));
      }
      columns, data := [name] + columns, data[name := col];
      status := Completed;
    }

    /** `df[name] = col` with a column as long as the frame. */
    method Assign(name: Column, col: seq<Cell>)
      requires Valid() && |col| == height && Canonical(name)
      modifies this
      ensures Valid() && Value() == WithColumn(old(Value()), name, col)
    {
      if name !in columns {
        columns := columns + [name];
      }
      data := data[name := col];
    }

    /** `df.at[row, name] = v`: a column that does not exist yet is first
        created filled with NaN, then the one cell is set. */
    method SetAt(row: nat, name: Column, v: Cell)
      requires Valid() && row < height && Canonical(name)
      modifies this
      ensures Valid()
      ensures Value() == WithColumn(old(Value()), name, ColumnOrNaN(old(Value()), name)[row := v])
    {
      if name !in columns {
        columns := columns + [name];
        data := data[name := seq(height, _ => NaN)];
      }
      data := data[name := data[name][row := v]];
    }
  }

  /** `read_csv_from_gcs`: the table last uploaded under the bucket and blob
      name, or NotFound when there is none. */
  function ReadObject(objects: map<(string, string), Table>, bucket: string, blob: string): (r: Result<Table>)
    ensures r.Ok? <==> (bucket, blob) in objects
    ensures r.Ok? ==> r.value == objects[(bucket, blob)]
    ensures r.Err? ==> r.error == NotFound(bucket, blob)
  {
    if (bucket, blob) in objects then Ok(objects[(bucket, blob)]) else Err(NotFound(bucket, blob))
  }

  /** The object store (bucket and blob name to the table last uploaded
      there) and the warehouse (table name to contents). */
  class Cloud {
    var objects: map<(string, string), Table>
    var warehouse: map<string, Table>

    predicate Valid()
      reads this
    {
      && (forall k :: k in objects ==> WellFormed(objects[k]))
      && (forall k :: k in warehouse ==> WellFormed(warehouse[k]))
    }

    constructor (objects: map<(string, string), Table>, warehouse: map<string, Table>)
      requires (forall k :: k in objects ==> WellFormed(objects[k]))
      requires (forall k :: k in warehouse ==> WellFormed(warehouse[k]))
      ensures Valid() && this.objects == objects && this.warehouse == warehouse
    {
      this.objects, this.warehouse := objects, warehouse;
    }

    /** `read_csv_from_gcs` on the current store. */
    function Read(bucket: string, blob: string): (r: Result<Table>)
      requires Valid()
      reads this
      ensures r.Ok? ==> WellFormed(r.value)
    {
      ReadObject(objects, bucket, blob)
    }
  }
}
