/** utils/document_loader.py: turns a header-plus-rows table into FAQ
    documents.  Columns are found by marker tokens in their headers, hidden
    rows are dropped, every row keeps its original frame index as
    `google_index`, and documents whose text has no run of three letters are
    removed at the end.  The text cleaning (HTML/emoji/URL stripping by
    regular expressions and the clean-text library) is the parameter
    `clean`. */
module DocumentLoader {
  import opened Results
  import opened Strings
  import opened Values
  import opened Seqs
  import opened Tables
  import DM = DocumentMetadata

  /** The columns the loader renames to its canonical names. */
  datatype Field = Category | Subcategory | Slug | Parent | Question | Answer | Visible

  /** The order of the entries of the rename mapping. */
  const RenameOrder: seq<Field> := [Category, Subcategory, Slug, Parent, Question, Answer, Visible]

  /** The renamed columns in the order the loader first reads them: the
      visibility filter and the question come before the answer (the text is
      `question + " " + answer`, evaluated left to right), the text before
      the `dropna` on the categories, and that before the projection that
      reads the slug and the parent. */
  const ReadForQuestion: seq<Field> := [Visible, Question]
  const ReadForAnswer: seq<Field> := [Answer]
  const ReadForText: seq<Field> := ReadForQuestion + ReadForAnswer
  const ReadForDropna: seq<Field> := [Category, Subcategory]
  const ReadForProjection: seq<Field> := [Slug, Parent]

  function Marker(f: Field): string {
    match f
    case Category => "#CATEGORY"
    case Subcategory => "#SUBCATEGORY"
    case Slug => "#SLUG"
    case Parent => "#PARENT"
    case Question => "#QUESTION"
    case Answer => "#ANSWER"
    case Visible => "#VISIBLE"
  }

  function CanonicalName(f: Field): string {
    match f
    case Category => DM.Category
    case Subcategory => DM.Subcategory
    case Slug => DM.Slug
    case Parent => DM.Parent
    case Question => DM.Question
    case Answer => DM.Answer
    case Visible => "visible"
  }

  /** The marker match is a substring test on the whole label, so the
      `#CATEGORY` marker is not found inside a `#SUBCATEGORY` label. */
  lemma CategoryMarkerNotInSubcategoryLabel()
    ensures !Contains("#SUBCATEGORY", Marker(Category))
    ensures Contains("x #CATEGORY", Marker(Category))
  {
    assert OccursAt("x #CATEGORY", "#CATEGORY", 2);
    assert !Contains("#SUBCATEGORY", "#CATEGORY") by {
      var heading := "#SUBCATEGORY";
      forall i | 0 <= i <= 3 ensures !OccursAt(heading, "#CATEGORY", i) {
        if i == 0 {
          assert heading[i..i + 9][1] == 'S';
        } else {
          assert heading[i..i + 9][0] == heading[i] != '#';
        }
      }
    }
  }

  /** `next(c for c in df.columns if marker in c)` from column `c` on: the
      first label containing the marker.  A label that is not a string makes
      the `in` test raise; no match at all raises StopIteration.  (The
      `google_index` column appended before the rename never contains a
      marker, since it has no `#`.) */
  function FindColumn(f: Frame, marker: string, c: nat): (r: Result<nat, Error>)
    decreases Width(f) - c
    ensures r.Ok? ==> c <= r.value < Width(f)
                      && HeaderAt(f, r.value).Str? && Contains(HeaderAt(f, r.value).s, marker)
    ensures r.Ok? ==> forall j :: c <= j < r.value ==>
                        HeaderAt(f, j).Str? && !Contains(HeaderAt(f, j).s, marker)
    ensures r == Err(MarkerNotFound(marker)) <==>
              forall j :: c <= j < Width(f) ==> HeaderAt(f, j).Str? && !Contains(HeaderAt(f, j).s, marker)
    ensures r.Err? ==> r.error == MarkerNotFound(marker) || r.error == NotText
  {
    if c >= Width(f) then Err(MarkerNotFound(marker))
    else match HeaderAt(f, c)
      case Str(h) => if Contains(h, marker) then Ok(c) else FindColumn(f, marker, c + 1)
      case _ => Err(NotText)
  }

  /** The column of every field, resolved in rename order; the first failure
      wins. */
  function ResolveColumns(f: Frame, fields: seq<Field>): (r: Result<map<Field, nat>, Error>)
    ensures r.Ok? ==> r.value.Keys == set g | g in fields
    ensures r.Ok? ==> forall g :: g in fields ==> FindColumn(f, Marker(g), 0) == Ok(r.value[g])
    ensures r.Err? ==> exists k :: 0 <= k < |fields| && FailsFirstAt(Outcomes(f, fields), k, r.error)
  {
    if |fields| == 0 then Ok(map[])
    else
      var first := FindColumn(f, Marker(fields[0]), 0);
      if first.Err? then
        assert FailsFirstAt(Outcomes(f, fields), 0, first.error);
        Err(first.error)
      else
      var c := first.value;
      var rest := ResolveColumns(f, fields[1..]);
      if rest.Err? then
        FirstFailureLater(f, fields, rest.error);
        Err(rest.error)
      else
        Ok(rest.value[fields[0] := c])
  }

  /** The marker search of every field, in rename order. */
  function Outcomes(f: Frame, fields: seq<Field>): (r: seq<Result<nat, Error>>)
    ensures |r| == |fields|
    ensures forall k :: 0 <= k < |r| ==> r[k] == FindColumn(f, Marker(fields[k]), 0)
  {
    seq(|fields|, k requires 0 <= k < |fields| => FindColumn(f, Marker(fields[k]), 0))
  }

  /** Outcome `k` fails with `e` and every earlier one succeeded: `e` is the
      error a left-to-right evaluation raises. */
  predicate FailsFirstAt<T>(outcomes: seq<Result<T, Error>>, k: nat, e: Error)
    requires k < |outcomes|
  {
    outcomes[k] == Err(e) && forall j :: 0 <= j < k ==> outcomes[j].Ok?
  }

  lemma FailsFirstAfterOk<T>(outcomes: seq<Result<T, Error>>, k: nat, e: Error)
    requires 0 < |outcomes| && outcomes[0].Ok? && k < |outcomes| - 1 && FailsFirstAt(outcomes[1..], k, e)
    ensures FailsFirstAt(outcomes, k + 1, e)
  {
    forall j | 0 <= j < k + 1 ensures outcomes[j].Ok? {
      if j > 0 {
        assert outcomes[j] == outcomes[1..][j - 1];
      }
    }
  }

  /** When the first marker resolves, the first failure among the others is
      the first failure overall. */
  lemma FirstFailureLater(f: Frame, fields: seq<Field>, e: Error)
    requires |fields| > 0 && FindColumn(f, Marker(fields[0]), 0).Ok?
    requires exists k :: 0 <= k < |fields[1..]| && FailsFirstAt(Outcomes(f, fields[1..]), k, e)
    ensures exists k :: 0 <= k < |fields| && FailsFirstAt(Outcomes(f, fields), k, e)
  {
    var outcomes := Outcomes(f, fields);
    assert outcomes[1..] == Outcomes(f, fields[1..]);
    var k :| 0 <= k < |fields[1..]| && FailsFirstAt(outcomes[1..], k, e);
    FailsFirstAfterOk(outcomes, k, e);
  }



  /** A field whose column is also claimed by a field later in the rename
      mapping: the mapping keeps only the later name, so this one's column
      no longer exists. */
  predicate Shadowed(cols: map<Field, nat>, f: Field)
    requires cols.Keys == set g | g in RenameOrder
  {
    exists k, j :: 0 <= k < j < |RenameOrder| && RenameOrder[k] == f && cols[RenameOrder[j]] == cols[f]
  }

  /** The KeyError of the first shadowed column the loader reads, if any. */
  function FirstShadowed(cols: map<Field, nat>, order: seq<Field>): (r: Result<(), Error>)
    requires cols.Keys == set g | g in RenameOrder
    ensures r.Ok? <==> forall g :: g in order ==> !Shadowed(cols, g)
  {
    if |order| == 0 then Ok(())
    else if Shadowed(cols, order[0]) then Err(MissingKey(CanonicalName(order[0])))
    else FirstShadowed(cols, order[1..])
  }

  /** A data row together with its frame index. */
  datatype SourceRow = SourceRow(googleIndex: int, cells: seq<Value>)

  /** `df[google_index] = df.index`: each data row keeps its position. */
  function IndexedRows(f: Frame): (r: seq<SourceRow>)
    ensures |r| == |f.rows|
    ensures forall k :: 0 <= k < |r| ==> r[k] == SourceRow(f.firstIndex + k, f.rows[k])
  {
    seq(|f.rows|, k requires 0 <= k < |f.rows| => SourceRow(f.firstIndex + k, f.rows[k]))
  }

  function Cell(r: SourceRow, cols: map<Field, nat>, f: Field): Value
    requires f in cols
  {
    CellAt(r.cells, cols[f])
  }

  /** The visibility filter keeps every row whose flag is not exactly "Hide". */
  predicate IsShown(r: SourceRow, cols: map<Field, nat>)
    requires Visible in cols
  {
    Cell(r, cols, Visible) != Str("Hide")
  }

  /** `question + " " + answer` on pandas object columns: a missing operand
      gives a missing result, a number raises TypeError. */
  function PreCleanText(question: Value, answer: Value): (r: Result<Value, Error>)
    ensures question.Str? && answer.Str? ==> r == Ok(Str(question.s + " " + answer.s))
    ensures r.Ok? && r.value.Str? ==> question.Str? && answer.Str?
    ensures r.Err? <==> question.Int? || (question.Str? && answer.Int?)
  {
    match question
    case Null => Ok(Null)
    case Int(_) => Err(NotText)
    case Str(q) =>
      match answer
      case Null => Ok(Null)
      case Int(_) => Err(NotText)
      case Str(a) => Ok(Str(q + " " + a))
  }

  function RowText(r: SourceRow, cols: map<Field, nat>): Result<Value, Error>
    requires Question in cols && Answer in cols
  {
    PreCleanText(Cell(r, cols, Question), Cell(r, cols, Answer))
  }

  /** `df[question] + " "`: the left operand is complete before the answer
      column is read, and a number among the questions raises TypeError. */
  function QuestionsAreText(rows: seq<SourceRow>, cols: map<Field, nat>): (r: Result<(), Error>)
    requires Question in cols
    ensures r.Ok? <==> forall k :: 0 <= k < |rows| ==> !Cell(rows[k], cols, Question).Int?
    ensures r.Err? ==> r.error == NotText
  {
    if |rows| == 0 then Ok(())
    else if Cell(rows[0], cols, Question).Int? then Err(NotText)
    else QuestionsAreText(rows[1..], cols)
  }

  /** The text column is computed for all shown rows before any row is
      dropped; the first failing row's error escapes. */
  function CheckTexts(rows: seq<SourceRow>, cols: map<Field, nat>): (r: Result<(), Error>)
    requires Question in cols && Answer in cols
    ensures r.Ok? <==> forall k :: 0 <= k < |rows| ==> RowText(rows[k], cols).Ok?
  {
    if |rows| == 0 then Ok(())
    else
      var _ :- RowText(rows[0], cols);
      CheckTexts(rows[1..], cols)
  }

  /** `dropna` on category and subcategory (the text column is never missing
      by then: its last conversion is `astype(str)`). */
  predicate HasCategories(r: SourceRow, cols: map<Field, nat>)
    requires Category in cols && Subcategory in cols
  {
    Cell(r, cols, Category) != Null && Cell(r, cols, Subcategory) != Null
  }

  /** `astype(int)` of one cell. */
  function ToInt(v: Value): (r: Result<int, Error>)
    ensures v.Int? ==> r == Ok(v.i)
    ensures v.Str? ==> (r.Ok? <==> ParseInt(v.s).Some?)
    ensures r.Err? ==> r.error == NotInteger
  {
    match v
    case Int(i) => Ok(i)
    case Str(s) => (match ParseInt(s) case Some(i) => Ok(i) case None => Err(NotInteger))
    case Null => Err(NotInteger)
  }

  /** The seven metadata keys every loaded document carries. */
  const OutputKeys: set<string> :=
    {DM.GoogleIndex, DM.Category, DM.Subcategory, DM.Slug, DM.Parent, DM.Question, DM.Answer}

  predicate Complete(cols: map<Field, nat>) {
    forall g :: g in RenameOrder ==> g in cols
  }

  /** The document of one kept row: the cleaned text as content and the
      projected columns as metadata. */
  function ToDocument(r: SourceRow, cols: map<Field, nat>, clean: Value -> string): (d: Result<Document, Error>)
    requires Complete(cols)
    ensures d.Ok? ==> d.value.metadata.Keys == OutputKeys
    ensures d.Ok? ==> d.value.metadata[DM.GoogleIndex] == Int(r.googleIndex)
    ensures d.Ok? ==> d.value.metadata[DM.Slug] == Cell(r, cols, Slug)
                      && d.value.metadata[DM.Parent] == Cell(r, cols, Parent)
                      && d.value.metadata[DM.Question] == Cell(r, cols, Question)
                      && d.value.metadata[DM.Answer] == Cell(r, cols, Answer)
    ensures d.Ok? ==> d.value.metadata[DM.Category].Int? && d.value.metadata[DM.Subcategory].Int?
    ensures d.Ok? <==> ToInt(Cell(r, cols, Category)).Ok? && ToInt(Cell(r, cols, Subcategory)).Ok?
    ensures d.Ok? && RowText(r, cols).Ok? ==> d.value.pageContent == clean(RowText(r, cols).value)
  {
    var category :- ToInt(Cell(r, cols, Category));
    var subcategory :- ToInt(Cell(r, cols, Subcategory));
    var text := match RowText(r, cols) case Ok(t) => t case Err(_) => Null;
    Ok(Document(clean(text), map[
      DM.GoogleIndex := Int(r.googleIndex),
      DM.Category := Int(category),
      DM.Subcategory := Int(subcategory),
      DM.Slug := Cell(r, cols, Slug),
      DM.Parent := Cell(r, cols, Parent),
      DM.Question := Cell(r, cols, Question),
      DM.Answer := Cell(r, cols, Answer)]))
  }

  function ToDocuments(rows: seq<SourceRow>, cols: map<Field, nat>, clean: Value -> string): (r: Result<seq<Document>, Error>)
    requires Complete(cols)
    ensures r.Ok? <==> forall k :: 0 <= k < |rows| ==> ToDocument(rows[k], cols, clean).Ok?
    ensures r.Ok? ==> |r.value| == |rows|
                      && forall k :: 0 <= k < |rows| ==> Ok(r.value[k]) == ToDocument(rows[k], cols, clean)
  {
    if |rows| == 0 then Ok([])
    else
      var d :- ToDocument(rows[0], cols, clean);
      var rest :- ToDocuments(rows[1..], cols, clean);
      Ok([d] + rest)
  }

  function ShownRows(f: Frame, cols: map<Field, nat>): seq<SourceRow>
    requires Complete(cols)
  {
    Filter(IndexedRows(f), (r: SourceRow) => IsShown(r, cols))
  }

  function KeptRows(f: Frame, cols: map<Field, nat>): seq<SourceRow>
    requires Complete(cols)
  {
    Filter(ShownRows(f, cols), (r: SourceRow) => HasCategories(r, cols))
  }

  /** `_to_dataframe` followed by `_load` on an already built frame.  Each
      step raises before the next one reads anything: a missing marker, then
      a shadowed visibility or question column, a number among the
      questions, a shadowed answer column, a number among the answers, a
      shadowed category column, a category that does not convert, and last a
      shadowed slug or parent column. */
  function Shape(f: Frame, clean: Value -> string): (r: Result<seq<Document>, Error>)
  {
    var cols :- ResolveColumns(f, RenameOrder);
    ShapeWith(f, cols, clean)
  }

  /** The steps of `Shape` after the rename. */
  function ShapeWith(f: Frame, cols: map<Field, nat>, clean: Value -> string): Result<seq<Document>, Error>
    requires cols.Keys == set g | g in RenameOrder
  {
    var _ :- FirstShadowed(cols, ReadForQuestion);
    var _ :- QuestionsAreText(ShownRows(f, cols), cols);
    var _ :- FirstShadowed(cols, ReadForAnswer);
    var _ :- CheckTexts(ShownRows(f, cols), cols);
    var _ :- FirstShadowed(cols, ReadForDropna);
    var docs :- ToDocuments(KeptRows(f, cols), cols, clean);
    var _ :- FirstShadowed(cols, ReadForProjection);
    Ok(docs)
  }

  /** Shaping fails with the first marker search that fails, and succeeds
      only when no renamed column is shadowed by a later entry of the
      rename mapping. */
  lemma ShapeErrors(f: Frame, clean: Value -> string)
    ensures ResolveColumns(f, RenameOrder).Err? ==> Shape(f, clean) == Err(ResolveColumns(f, RenameOrder).error)
    ensures Shape(f, clean).Ok? ==>
              && ResolveColumns(f, RenameOrder).Ok?
              && forall g :: g in RenameOrder ==> !Shadowed(ResolveColumns(f, RenameOrder).value, g)
  {
    if Shape(f, clean).Ok? {
      var cols := ResolveColumns(f, RenameOrder).value;
      assert FirstShadowed(cols, ReadForQuestion).Ok?;
      assert FirstShadowed(cols, ReadForAnswer).Ok?;
      assert FirstShadowed(cols, ReadForDropna).Ok?;
      assert FirstShadowed(cols, ReadForProjection).Ok?;
      forall g | g in RenameOrder ensures !Shadowed(cols, g) {
        assert g in ReadForQuestion || g in ReadForAnswer || g in ReadForDropna || g in ReadForProjection;
      }
    }
  }

  /** A category that does not convert raises ValueError even when the
      slug or parent column is shadowed: the conversion comes before the
      projection. */
  lemma ConversionFailsBeforeProjection(f: Frame, clean: Value -> string, cols: map<Field, nat>)
    requires ResolveColumns(f, RenameOrder) == Ok(cols)
    requires FirstShadowed(cols, ReadForText + ReadForDropna).Ok?
    requires CheckTexts(ShownRows(f, cols), cols).Ok?
    requires ToDocuments(KeptRows(f, cols), cols, clean).Err?
    ensures Shape(f, clean) == Err(NotInteger)
  {
    assert FirstShadowed(cols, ReadForQuestion).Ok? && FirstShadowed(cols, ReadForAnswer).Ok?
           && FirstShadowed(cols, ReadForDropna).Ok? by {
      forall g | g in ReadForQuestion ensures g in ReadForText + ReadForDropna { }
      forall g | g in ReadForAnswer ensures g in ReadForText + ReadForDropna { }
      forall g | g in ReadForDropna ensures g in ReadForText + ReadForDropna { }
    }
    TextsHaveTextQuestions(ShownRows(f, cols), cols);
    ToDocumentsError(KeptRows(f, cols), cols, clean);
  }

  /** Texts that all build have no number among their questions. */
  lemma TextsHaveTextQuestions(rows: seq<SourceRow>, cols: map<Field, nat>)
    requires Question in cols && Answer in cols
    requires CheckTexts(rows, cols).Ok?
    ensures QuestionsAreText(rows, cols).Ok?
  {
    forall k | 0 <= k < |rows| ensures !Cell(rows[k], cols, Question).Int? {
      assert RowText(rows[k], cols).Ok?;
    }
  }

  /** A number among the shown questions raises TypeError even when the
      answer column is shadowed: `df[question] + " "` is evaluated before
      `df[answer]` is read. */
  lemma QuestionTypeErrorBeforeAnswerRead(f: Frame, clean: Value -> string, cols: map<Field, nat>, k: nat)
    requires ResolveColumns(f, RenameOrder) == Ok(cols)
    requires FirstShadowed(cols, ReadForQuestion).Ok?
    requires k < |ShownRows(f, cols)| && Cell(ShownRows(f, cols)[k], cols, Question).Int?
    ensures Shape(f, clean) == Err(NotText)
  {
    assert QuestionsAreText(ShownRows(f, cols), cols).Err?;
  }

  /** Building documents fails only on a category conversion. */
  lemma {:induction false} ToDocumentsError(rows: seq<SourceRow>, cols: map<Field, nat>, clean: Value -> string)
    requires Complete(cols)
    ensures ToDocuments(rows, cols, clean).Err? ==> ToDocuments(rows, cols, clean).error == NotInteger
  {
    if |rows| > 0 {
      ToDocumentsError(rows[1..], cols, clean);
    }
  }

  function RowKey(r: SourceRow): int {
    r.googleIndex
  }

  function DocumentKey(d: Document): int {
    if DM.GoogleIndex in d.metadata && d.metadata[DM.GoogleIndex].Int? then d.metadata[DM.GoogleIndex].i else 0
  }

  lemma ShapeUnfolds(f: Frame, clean: Value -> string, cols: map<Field, nat>)
    requires ResolveColumns(f, RenameOrder) == Ok(cols)
    requires Shape(f, clean).Ok?
    ensures Complete(cols)
    ensures CheckTexts(ShownRows(f, cols), cols).Ok?
    ensures Shape(f, clean) == ToDocuments(KeptRows(f, cols), cols, clean)
  {
    assert Shape(f, clean) == ShapeWith(f, cols, clean);
    assert Complete(cols);
    var docs := ToDocuments(KeptRows(f, cols), cols, clean);
    assert FirstShadowed(cols, ReadForQuestion).Ok?;
    assert QuestionsAreText(ShownRows(f, cols), cols).Ok?;
    assert FirstShadowed(cols, ReadForAnswer).Ok?;
    assert CheckTexts(ShownRows(f, cols), cols).Ok?;
    assert FirstShadowed(cols, ReadForDropna).Ok?;
    assert docs.Ok?;
    assert ShapeWith(f, cols, clean) == Ok(docs.value);
  }

  lemma KeptRowsIncrease(f: Frame, cols: map<Field, nat>)
    requires Complete(cols)
    ensures IncreasingBy(KeptRows(f, cols), RowKey)
  {
    assert IncreasingBy(IndexedRows(f), RowKey);
    FilterKeepsIncreasing(IndexedRows(f), (r: SourceRow) => IsShown(r, cols), RowKey);
    FilterKeepsIncreasing(ShownRows(f, cols), (r: SourceRow) => HasCategories(r, cols), RowKey);
  }

  lemma KeptRowsHaveText(f: Frame, cols: map<Field, nat>)
    requires Complete(cols)
    requires CheckTexts(ShownRows(f, cols), cols).Ok?
    ensures forall k :: 0 <= k < |KeptRows(f, cols)| ==>
              var r := KeptRows(f, cols)[k];
              IsShown(r, cols) && HasCategories(r, cols) && RowText(r, cols).Ok?
  {
    var shown := ShownRows(f, cols);
    var kept := KeptRows(f, cols);
    forall k | 0 <= k < |kept|
      ensures IsShown(kept[k], cols) && RowText(kept[k], cols).Ok?
    {
      assert kept[k] in shown;
    }
  }

  /** What a successful shaping yields: one document per shown row that has
      both categories, in frame order, each with exactly the seven metadata
      keys, the row's own frame index as `google_index` (so the indices
      strictly increase and are pairwise distinct), and the cleaned
      `question + " " + answer` as content. */
  lemma ShapedDocuments(f: Frame, clean: Value -> string, cols: map<Field, nat>)
    requires ResolveColumns(f, RenameOrder) == Ok(cols)
    requires Shape(f, clean).Ok?
    ensures Complete(cols)
    ensures var docs := Shape(f, clean).value;
            var kept := KeptRows(f, cols);
            && |docs| == |kept|
            && (forall k :: 0 <= k < |docs| ==>
                  && docs[k].metadata.Keys == OutputKeys
                  && IsShown(kept[k], cols) && HasCategories(kept[k], cols)
                  && docs[k].metadata[DM.GoogleIndex] == Int(kept[k].googleIndex)
                  && RowText(kept[k], cols).Ok?
                  && docs[k].pageContent == clean(RowText(kept[k], cols).value))
            && IncreasingBy(docs, DocumentKey)
  {
    ShapeUnfolds(f, clean, cols);
    KeptRowsHaveText(f, cols);
    KeptRowsIncrease(f, cols);
    var docs := Shape(f, clean).value;
    var kept := KeptRows(f, cols);
    forall k | 0 <= k < |docs|
      ensures DocumentKey(docs[k]) == RowKey(kept[k])
    {
      assert Ok(docs[k]) == ToDocument(kept[k], cols, clean);
    }
  }

  /** Every shown row whose categories are present is kept. */
  lemma ShownRowsWithCategoriesKept(f: Frame, cols: map<Field, nat>)
    requires Complete(cols)
    ensures forall k :: 0 <= k < |f.rows| && IsShown(IndexedRows(f)[k], cols)
                        && HasCategories(IndexedRows(f)[k], cols) ==>
              IndexedRows(f)[k] in KeptRows(f, cols)
  {
    forall k | 0 <= k < |f.rows| && IsShown(IndexedRows(f)[k], cols) && HasCategories(IndexedRows(f)[k], cols)
      ensures IndexedRows(f)[k] in KeptRows(f, cols)
    {
      assert IndexedRows(f)[k] in ShownRows(f, cols);
    }
  }

  /** A JSON payload's first row is the header; data row `k` of the payload
      (its row `k + 1`) keeps `k + 1` as its `google_index`. */
  lemma JsonRowsIndexedFromOne(data: map<string, seq<seq<Value>>>, f: Frame)
    requires FrameFromJson(data) == Ok(f)
    ensures f.header == data["values"][0]
    ensures forall k :: 0 <= k < |IndexedRows(f)| ==>
              IndexedRows(f)[k] == SourceRow(k + 1, data["values"][k + 1])
  {
  }

  /** The frame a document source yields: `sheet` is the CSV export the
      Google Sheets fetch returned (`None` when it failed), `data` the JSON
      payload. */
  function LoadFrame(documentType: string, data: map<string, seq<seq<Value>>>,
                     sheet: Option<seq<seq<Value>>>): (r: Result<Frame, Error>)
    ensures SourceKindOf(documentType) == UnknownKind ==> r == Err(Http(500))
    ensures SourceKindOf(documentType) == Json ==> r == FrameFromJson(data)
    ensures SourceKindOf(documentType) == GoogleSheet ==> r == FrameFromCsv(sheet)
  {
    match SourceKindOf(documentType)
    case GoogleSheet => FrameFromCsv(sheet)
    case Json => FrameFromJson(data)
    case UnknownKind => Err(Http(500))
  }

  /** `_load`: the documents before the emptiness check. */
  function LoadUnchecked(documentType: string, data: map<string, seq<seq<Value>>>,
                         sheet: Option<seq<seq<Value>>>, clean: Value -> string): Result<seq<Document>, Error>
  {
    var f :- LoadFrame(documentType, data, sheet);
    Shape(f, clean)
  }

  /** Three consecutive letters occur in `s`. */
  predicate HasLetterRun(s: string) {
    exists i | 0 <= i <= |s| - 3 :: LetterRunAt(s, i)
  }

  predicate LetterRunAt(s: string, i: int)
    requires 0 <= i <= |s| - 3
  {
    IsAlpha(s[i]) && IsAlpha(s[i + 1]) && IsAlpha(s[i + 2])
  }

  /** Length of the run of letters that ends at the end of `s`. */
  function TrailingLetters(s: string): nat
  {
    if |s| == 0 || !IsAlpha(s[|s| - 1]) then 0 else 1 + TrailingLetters(s[..|s| - 1])
  }

  lemma RunAtEndIsTrailing(s: string)
    requires |s| >= 3
    ensures LetterRunAt(s, |s| - 3) ==> TrailingLetters(s) >= 3
  {
    var n := |s|;
    assert s[..n - 1][..n - 2] == s[..n - 2];
    assert s[..n - 2][..n - 3] == s[..n - 3];
  }

  /** `_check_emptiness`: a countdown from 3 that restarts at every
      non-letter and reports content as soon as it reaches 0. */
  method CheckEmptiness(pageContent: string) returns (empty: bool)
    ensures empty <==> !HasLetterRun(pageContent)
  {
    var remaining := 3;
    var i := 0;
    while i < |pageContent|
      invariant 0 <= i <= |pageContent|
      invariant remaining == 3 - TrailingLetters(pageContent[..i])
      invariant 0 < remaining <= 3
      invariant !HasLetterRun(pageContent[..i])
    {
      var prefix := pageContent[..i + 1];
      assert prefix[..i] == pageContent[..i];
      if IsAlpha(pageContent[i]) {
        remaining := remaining - 1;
      } else {
        remaining := 3;
      }
      if remaining == 0 {
        assert LetterRunAt(pageContent, i - 2) by {
          assert pageContent[..i][..i - 1] == pageContent[..i - 1];
          assert pageContent[..i - 1][..i - 2] == pageContent[..i - 2];
        }
        return false;
      }
      assert !HasLetterRun(prefix) by {
        forall j | 0 <= j <= |prefix| - 3 ensures !LetterRunAt(prefix, j) {
          if j < i - 2 {
            assert LetterRunAt(prefix, j) == LetterRunAt(pageContent[..i], j);
          } else {
            RunAtEndIsTrailing(prefix);
          }
        }
      }
      i := i + 1;
    }
    assert pageContent[..i] == pageContent;
    return true;
  }

  predicate HasText(d: Document) {
    HasLetterRun(d.pageContent)
  }

  /** One document through the emptiness check: kept when it has text. */
  method KeepIfText(valid: seq<Document>, d: Document) returns (r: seq<Document>)
    ensures r == valid + (if HasText(d) then [d] else [])
  {
    var empty := CheckEmptiness(d.pageContent);
    r := if empty then valid else valid + [d];
  }

  /** `_validate_loading`: the documents that pass the emptiness check, in
      their original order. */
  method ValidateLoading(documents: seq<Document>) returns (valid: seq<Document>)
    ensures valid == Filter(documents, HasText)
    ensures forall k :: 0 <= k < |valid| ==> HasText(valid[k])
    ensures forall k :: 0 <= k < |documents| && HasText(documents[k]) ==> documents[k] in valid
    ensures IsSubsequence(valid, documents)
  {
    valid := [];
    var i := 0;
    while i < |documents|
      invariant 0 <= i <= |documents|
      invariant valid == Filter(documents[..i], HasText)
    {
      FilterPrefixStep(documents, i, HasText);
      valid := KeepIfText(valid, documents[i]);
      i := i + 1;
    }
    assert documents[..i] == documents;
    assert valid == Filter(documents, HasText);
  }

  /** `load`: the shaped documents that carry text. */
  method Load(documentType: string, data: map<string, seq<seq<Value>>>,
              sheet: Option<seq<seq<Value>>>, clean: Value -> string)
    returns (r: Result<seq<Document>, Error>)
    ensures r.Err? <==> LoadUnchecked(documentType, data, sheet, clean).Err?
    ensures r.Ok? ==> r.value == Filter(LoadUnchecked(documentType, data, sheet, clean).value, HasText)
  {
    var unchecked := LoadUnchecked(documentType, data, sheet, clean);
    if unchecked.Err? {
      return Err(unchecked.error);
    }
    var valid := ValidateLoading(unchecked.value);
    return Ok(valid);
  }
}
