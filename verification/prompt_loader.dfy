/** utils/prompt_loader.py: the system prompt of an HIA instance, read from
    its `Chat` sheet or from JSON values.  Whatever goes wrong while reading
    the `#KEY`/`#VALUE` table, short of a type error, yields the empty
    prompt. */
module PromptLoader {
  import opened Results
  import opened Strings
  import opened Values
  import opened Seqs
  import opened Tables

  const KeyColumn: string := "#KEY"
  const ValueColumn: string := "#VALUE"
  const SystemPromptMarker: string := "#system-prompt"

  /** The outcome of `pd.read_csv` on the `Chat` sheet export: the table, an
      HTTPError, or any other failure. */
  datatype Fetch = Fetched(table: seq<seq<Value>>) | HttpFailure | OtherFailure

  predicate HasKey(row: seq<Value>, keyColumn: nat) {
    CellAt(row, keyColumn) != Null
  }

  /** The row's key is text containing `#system-prompt`. */
  predicate IsPromptRow(row: seq<Value>, keyColumn: nat) {
    CellAt(row, keyColumn).Str? && Contains(CellAt(row, keyColumn).s, SystemPromptMarker)
  }

  /** `dropna(subset=["#KEY"])`. */
  function KeyedRows(rows: seq<seq<Value>>, keyColumn: nat): seq<seq<Value>> {
    Filter(rows, (row: seq<Value>) => HasKey(row, keyColumn))
  }

  /** The first row whose key contains the marker. */
  function FirstPromptRow(rows: seq<seq<Value>>, keyColumn: nat): (r: Option<seq<Value>>)
    ensures r.Some? <==> exists k :: 0 <= k < |rows| && IsPromptRow(rows[k], keyColumn)
    ensures r.Some? ==> exists k :: 0 <= k < |rows| && rows[k] == r.value && IsPromptRow(rows[k], keyColumn)
                          && forall j :: 0 <= j < k ==> !IsPromptRow(rows[j], keyColumn)
  {
    if |rows| == 0 then None
    else if IsPromptRow(rows[0], keyColumn) then Some(rows[0])
    else
      var r := FirstPromptRow(rows[1..], keyColumn);
      assert forall k :: 1 <= k < |rows| ==> rows[k] == rows[1..][k - 1];
      r
  }

  /** Dropping rows without a key does not change which row is found
      first: a prompt row always has a key. */
  lemma {:induction false} DropnaKeepsFirstPromptRow(rows: seq<seq<Value>>, keyColumn: nat)
    ensures FirstPromptRow(KeyedRows(rows, keyColumn), keyColumn) == FirstPromptRow(rows, keyColumn)
  {
    if |rows| > 0 {
      DropnaKeepsFirstPromptRow(rows[1..], keyColumn);
    }
  }

  /** After `dropna`, the `.str.contains` mask needs every key to be text. */
  predicate KeysAreText(rows: seq<seq<Value>>, keyColumn: nat) {
    forall k :: 0 <= k < |rows| ==> CellAt(rows[k], keyColumn).Str?
  }

  /** The selection inside the `try`: KeyError and IndexError become the
      empty prompt; a non-text key or value is an uncaught type error. */
  function SelectPrompt(f: Frame): (r: Result<string, Error>)
    ensures ColumnNamed(f, KeyColumn, 0).None? ==> r == Ok("")
    ensures r.Err? ==> r.error == NotText
    ensures var key := ColumnNamed(f, KeyColumn, 0);
            key.Some? ==> (r.Err? || KeysAreText(KeyedRows(f.rows, key.value), key.value))
    ensures var key := ColumnNamed(f, KeyColumn, 0);
            var value := ColumnNamed(f, ValueColumn, 0);
            key.Some? && KeysAreText(KeyedRows(f.rows, key.value), key.value) ==>
              if value.None? || FirstPromptRow(f.rows, key.value).None? then r == Ok("")
              else match CellAt(FirstPromptRow(f.rows, key.value).value, value.value)
                   case Str(text) => r == Ok(Strip(text))
                   case _ => r == Err(NotText)
  {
    match ColumnNamed(f, KeyColumn, 0)
    case None => Ok("")
    case Some(keyColumn) =>
      var keyed := KeyedRows(f.rows, keyColumn);
      if !KeysAreText(keyed, keyColumn) then Err(NotText)
      else
        match ColumnNamed(f, ValueColumn, 0)
        case None => Ok("")
        case Some(valueColumn) =>
          DropnaKeepsFirstPromptRow(f.rows, keyColumn);
          match FirstPromptRow(keyed, keyColumn)
          case None => Ok("")
          case Some(row) =>
            match CellAt(row, valueColumn)
            case Str(s) => Ok(Strip(s))
            case _ => Err(NotText)
  }

  /** `get_prompt`.  The document type is compared case-insensitively; an
      unknown type is a 500, empty JSON data a 400, and an HTTP error while
      fetching the sheet the empty prompt. */
  function GetPrompt(documentType: string, data: map<string, seq<seq<Value>>>, fetch: Fetch): (r: Result<string, Error>)
    ensures SourceKindOf(documentType) == UnknownKind ==> r == Err(Http(500))
    ensures SourceKindOf(documentType) == Json && |data| == 0 ==> r == Err(Http(400))
    ensures SourceKindOf(documentType) == GoogleSheet && fetch == HttpFailure ==> r == Ok("")
    ensures SourceKindOf(documentType) == GoogleSheet && fetch == OtherFailure ==> r.Err?
    ensures SourceKindOf(documentType) == Json && FrameFromJson(data).Ok? ==> r == SelectPrompt(FrameFromJson(data).value)
    ensures SourceKindOf(documentType) == GoogleSheet && fetch.Fetched? ==>
              if |fetch.table| == 0 then r.Err?
              else r == SelectPrompt(Frame(CsvHeader(fetch.table[0]), fetch.table[1..], 0))
    ensures SourceKindOf(documentType) == Json && FrameFromJson(data).Err? ==> r == Err(FrameFromJson(data).error)
  {
    match SourceKindOf(documentType)
    case GoogleSheet =>
      (match fetch
       case HttpFailure => Ok("")
       case OtherFailure => Err(FetchFailed)
       case Fetched(table) =>
         var f :- FrameFromCsv(Some(table));
         SelectPrompt(f))
    case Json =>
      var f :- FrameFromJson(data);
      SelectPrompt(f)
    case UnknownKind => Err(Http(500))
  }

  lemma StripExample()
    ensures Strip(" Hi") == "Hi"
  {
    assert IsSpace(" Hi"[0]) && !IsSpace(" Hi"[1]) && !IsSpace(" Hi"[2]);
    assert SkipSpaces(" Hi", 1) == 1;
    assert SkipSpaces(" Hi", 0) == 1;
    assert TrimEnd(" Hi", 1, 3) == 3;
    assert " Hi"[1..3] == "Hi";
  }

  lemma SelectPromptExample(row: seq<Value>)
    requires row == [Str("#system-prompt"), Str(" Hi")]
    ensures SelectPrompt(Frame([Str("#KEY"), Str("#VALUE")], [row], 1)) == Ok("Hi")
  {
    var f := Frame([Str("#KEY"), Str("#VALUE")], [row], 1);
    assert ColumnNamed(f, KeyColumn, 0) == Some(0);
    assert ColumnNamed(f, ValueColumn, 0) == Some(1);
    assert OccursAt("#system-prompt", SystemPromptMarker, 0);
    assert KeyedRows(f.rows, 0) == [row];
    assert FirstPromptRow([row], 0) == Some(row);
    StripExample();
  }

  /** A JSON table whose first data row carries the prompt key yields that
      row's value, stripped; the header row never counts as data. */
  lemma JsonPromptExample()
    ensures GetPrompt("json", map["values" := [[Str("#KEY"), Str("#VALUE")],
                                               [Str("#system-prompt"), Str(" Hi")]]], HttpFailure)
            == Ok("Hi")
  {
    var row := [Str("#system-prompt"), Str(" Hi")];
    var data := map["values" := [[Str("#KEY"), Str("#VALUE")], row]];
    assert Lower("json") == "json";
    assert FrameFromJson(data) == Ok(Frame([Str("#KEY"), Str("#VALUE")], [row], 1));
    SelectPromptExample(row);
  }
}
