/** The pandas frames that the loaders build from a sheet export or from a
    JSON payload: a header row and data rows, each data row numbered by its
    frame index. */
module Tables {
  import opened Results
  import opened Strings
  import opened Values

  /** A frame: column labels, data rows, and the index of the first data row. */
  datatype Frame = Frame(header: seq<Value>, rows: seq<seq<Value>>, firstIndex: int)

  function MaxLength(rows: seq<seq<Value>>): (m: nat)
    ensures forall k :: 0 <= k < |rows| ==> |rows[k]| <= m
  {
    if |rows| == 0 then 0
    else var rest := MaxLength(rows[1..]);
      if |rows[0]| > rest then |rows[0]| else rest
  }

  /** Number of columns: pandas pads ragged rows (and the header) with `None`. */
  function Width(f: Frame): nat {
    var m := MaxLength(f.rows);
    if |f.header| > m then |f.header| else m
  }

  function HeaderAt(f: Frame, c: nat): Value {
    if c < |f.header| then f.header[c] else Null
  }

  function CellAt(row: seq<Value>, c: nat): Value {
    if c < |row| then row[c] else Null
  }

  /** The two document sources, chosen by a case-insensitive type name. */
  datatype SourceKind = GoogleSheet | Json | UnknownKind

  function SourceKindOf(documentType: string): SourceKind {
    var t := Lower(documentType);
    if t == "googlesheet" then GoogleSheet else if t == "json" then Json else UnknownKind
  }

  /** A JSON payload: the first row of `values` is the header, the remaining
      rows are data rows indexed from 1.  An empty (falsy) payload is a 400;
      a payload without `values` is a KeyError; no rows at all is an
      IndexError. */
  function FrameFromJson(data: map<string, seq<seq<Value>>>): (r: Result<Frame, Error>)
    ensures r == Err(Http(400)) <==> |data| == 0
    ensures r.Ok? <==> |data| > 0 && "values" in data && |data["values"]| > 0
    ensures r.Ok? ==> r.value.header == data["values"][0]
    ensures r.Ok? ==> r.value.firstIndex == 1 && |r.value.rows| == |data["values"]| - 1
                      && forall k :: 0 <= k < |r.value.rows| ==> r.value.rows[k] == data["values"][k + 1]
  {
    if |data| == 0 then Err(Http(400))
    else if "values" !in data then Err(MissingKey("values"))
    else if |data["values"]| == 0 then Err(NoRows)
    else Ok(Frame(data["values"][0], data["values"][1..], 1))
  }

  /** The column label `pd.read_csv` gives header cell `c`: labels are always
      text, a number reads as its digits, and an empty cell is named
      `Unnamed: c`. */
  function CsvLabel(cell: Value, c: nat): (r: Value)
    ensures r.Str? && |r.s| > 0
    ensures cell.Str? && |cell.s| > 0 ==> r == cell
    ensures cell.Int? ==> r == Str(IntToString(cell.i))
    ensures cell == Null || cell == Str("") ==> r == Str("Unnamed: " + IntToString(c))
  {
    match cell
    case Str(s) => if |s| == 0 then Str("Unnamed: " + IntToString(c)) else cell
    case Int(n) => Str(IntToString(n))
    case Null => Str("Unnamed: " + IntToString(c))
  }

  function CsvHeader(cells: seq<Value>): (r: seq<Value>)
    ensures |r| == |cells|
    ensures forall c :: 0 <= c < |r| ==> r[c] == CsvLabel(cells[c], c)
  {
    seq(|cells|, c requires 0 <= c < |cells| => CsvLabel(cells[c], c))
  }

  /** A CSV export read by `pd.read_csv`: `None` when the fetch failed; the
      first line gives the column labels and data rows are indexed from 0;
      an export without even a header line cannot be parsed. */
  function FrameFromCsv(table: Option<seq<seq<Value>>>): (r: Result<Frame, Error>)
    ensures r.Ok? <==> table.Some? && |table.value| > 0
    ensures r.Ok? ==> forall c :: 0 <= c < |r.value.header| ==> r.value.header[c].Str?
    ensures r.Ok? ==> r.value.header == CsvHeader(table.value[0]) && r.value.firstIndex == 0
                      && |r.value.rows| == |table.value| - 1
                      && forall k :: 0 <= k < |r.value.rows| ==> r.value.rows[k] == table.value[k + 1]
    ensures table.None? ==> r == Err(FetchFailed)
  {
    match table
    case None => Err(FetchFailed)
    case Some(t) => if |t| == 0 then Err(NoRows) else Ok(Frame(CsvHeader(t[0]), t[1..], 0))
  }

  /** The first column whose label is exactly `name`. */
  function ColumnNamed(f: Frame, name: string, c: nat): (r: Option<nat>)
    decreases Width(f) - c
    ensures r.Some? ==> c <= r.value < Width(f) && HeaderAt(f, r.value) == Str(name)
    ensures r.Some? ==> forall j :: c <= j < r.value ==> HeaderAt(f, j) != Str(name)
    ensures r.None? ==> forall j :: c <= j < Width(f) ==> HeaderAt(f, j) != Str(name)
  {
    if c >= Width(f) then None
    else if HeaderAt(f, c) == Str(name) then Some(c)
    else ColumnNamed(f, name, c + 1)
  }
}
