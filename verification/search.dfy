/** routes/search.py: turning scored chunks into the FAQ results the HIA
    front end expects.  Similarity search, the listing of all stored chunks
    and translation are inputs: `hits` are the retrieved chunks with their
    scores in retrieval order, `rows` the metadata of every stored chunk. */
module Search {
  import opened Results
  import opened Values
  import opened Seqs
  import VectorStore
  import DM = DocumentMetadata

  /** The metadata fields of one stored chunk that search reads. */
  datatype Row = Row(
    googleIndex: Value, category: Value, subcategory: Value,
    slug: Value, parent: Value, question: Value, answer: Value)

  /** A retrieved chunk and its similarity score. */
  datatype Hit = Hit(row: Row, score: real)

  datatype Child = Child(category: Value, subcategory: Value, question: Value, answer: Value, score: real)

  /** One result before `google_index` is dropped. */
  datatype SearchResult = SearchResult(
    category: Value, subcategory: Value, slug: Value, question: Value, answer: Value,
    score: real, children: Option<seq<Child>>, googleIndex: Value)

  /** One result as returned to the client. */
  datatype PublicResult = PublicResult(
    category: Value, subcategory: Value, slug: Value, question: Value, answer: Value,
    score: real, children: Option<seq<Child>>)

  /** `get_score_google_index`: the best score among the hits with this
      `google_index`, and 0.0 when there is none or all are negative. */
  function ScoreOf(hits: seq<Hit>, googleIndex: Value): (r: real)
    ensures 0.0 <= r
    ensures forall k :: 0 <= k < |hits| && hits[k].row.googleIndex == googleIndex ==> hits[k].score <= r
    ensures r == 0.0 || exists k :: 0 <= k < |hits| && hits[k].row.googleIndex == googleIndex && hits[k].score == r
  {
    if |hits| == 0 then 0.0
    else
      var best := ScoreOf(hits[..|hits| - 1], googleIndex);
      var last := hits[|hits| - 1];
      if last.row.googleIndex == googleIndex && last.score > best then last.score else best
  }

  /** A child entry: the stored row's fields, scored by the best hit of its
      `google_index`. */
  function ToChild(row: Row, hits: seq<Hit>): (c: Child)
    ensures c.category == row.category && c.subcategory == row.subcategory
            && c.question == row.question && c.answer == row.answer
    ensures 0.0 <= c.score
    ensures forall k :: 0 <= k < |hits| && hits[k].row.googleIndex == row.googleIndex ==> hits[k].score <= c.score
  {
    Child(row.category, row.subcategory, row.question, row.answer, ScoreOf(hits, row.googleIndex))
  }

  /** Every stored row whose parent is `slug`, in storage order, scored by
      its best hit. */
  function ChildrenOf(rows: seq<Row>, slug: Value, hits: seq<Hit>): (r: seq<Child>)
    ensures |r| == Count(rows, (row: Row) => row.parent == slug)
    ensures forall i :: 0 <= i < |r| ==> exists k :: 0 <= k < |rows| && rows[k].parent == slug && r[i] == ToChild(rows[k], hits)
    ensures forall k :: 0 <= k < |rows| && rows[k].parent == slug ==> ToChild(rows[k], hits) in r
    ensures var children := Filter(rows, (row: Row) => row.parent == slug);
            |r| == |children| && forall i :: 0 <= i < |r| ==> r[i] == ToChild(children[i], hits)
  {
    var children := Filter(rows, (row: Row) => row.parent == slug);
    FilterLength(rows, (row: Row) => row.parent == slug);
    var r := seq(|children|, i requires 0 <= i < |children| => ToChild(children[i], hits));
    assert forall k :: 0 <= k < |rows| && rows[k].parent == slug ==> ToChild(rows[k], hits) in r by {
      forall k | 0 <= k < |rows| && rows[k].parent == slug ensures ToChild(rows[k], hits) in r {
        var i :| 0 <= i < |children| && children[i] == rows[k];
        assert r[i] == ToChild(rows[k], hits);
      }
    }
    r
  }

  /** The position of the first stored row with this slug, from `i` on. */
  function FirstRowWithSlug(rows: seq<Row>, slug: Value, i: nat := 0): (r: Option<nat>)
    requires i <= |rows|
    ensures r.Some? ==> i <= r.value < |rows| && rows[r.value].slug == slug
                        && forall j :: i <= j < r.value ==> rows[j].slug != slug
    ensures r.None? ==> forall j :: i <= j < |rows| ==> rows[j].slug != slug
    decreases |rows| - i
  {
    if i == |rows| then None
    else if rows[i].slug == slug then Some(i)
    else FirstRowWithSlug(rows, slug, i + 1)
  }

  /** `df[df[slug] == s].to_dict(orient="records")`: the stored rows with
      this slug, in storage order, so that `parent[0]` is the first of
      them. */
  function RowsWithSlug(rows: seq<Row>, slug: Value): (r: seq<Row>)
    ensures IsSubsequence(r, rows)
    ensures forall i :: 0 <= i < |r| ==> r[i].slug == slug
    ensures forall k :: 0 <= k < |rows| && rows[k].slug == slug ==> rows[k] in r
    ensures |r| > 0 <==> FirstRowWithSlug(rows, slug).Some?
    ensures |r| > 0 ==> r[0] == rows[FirstRowWithSlug(rows, slug).value]
  {
    var r := Filter(rows, (row: Row) => row.slug == slug);
    FilterHeadIsFirst(rows, slug, 0);
    assert rows[0..] == rows;
    r
  }

  /** The first row selected from `rows[i..]` is the one `FirstRowWithSlug`
      finds. */
  lemma {:induction false} FilterHeadIsFirst(rows: seq<Row>, slug: Value, i: nat)
    requires i <= |rows|
    ensures var r := Filter(rows[i..], (row: Row) => row.slug == slug);
            && (|r| > 0 <==> FirstRowWithSlug(rows, slug, i).Some?)
            && (|r| > 0 ==> r[0] == rows[FirstRowWithSlug(rows, slug, i).value])
    decreases |rows| - i
  {
    if i < |rows| {
      assert rows[i..][1..] == rows[i + 1..];
      if rows[i].slug != slug {
        FilterHeadIsFirst(rows, slug, i + 1);
      }
    }
  }

  /** With no stored rows at all the table has no columns, and selecting
      the `parent` or `slug` column raises KeyError. */
  predicate NoColumns(hit: Hit, rows: seq<Row>) {
    |rows| == 0 && (Truthy(hit.row.slug) || Truthy(hit.row.parent))
  }

  function ColumnError(hit: Hit): Error {
    MissingKey(if Truthy(hit.row.slug) then "parent" else "slug")
  }

  /** The result of one hit, as the loop body builds it: the hit itself,
      with its children when it is a parent, or replaced by its parent when
      it is a child whose parent is stored. */
  function BuildResult(hit: Hit, rows: seq<Row>, hits: seq<Hit>): (r: SearchResult)
    ensures var first := FirstRowWithSlug(rows, hit.row.parent);
            Truthy(hit.row.parent) && first.Some? ==>
              var p := rows[first.value];
              r == SearchResult(p.category, p.subcategory, p.slug, p.question, p.answer,
                                ScoreOf(hits, hit.row.googleIndex),
                                Some(ChildrenOf(rows, hit.row.parent, hits)), p.googleIndex)
    ensures !Truthy(hit.row.parent) || FirstRowWithSlug(rows, hit.row.parent).None? ==>
              && r.category == hit.row.category && r.subcategory == hit.row.subcategory
              && r.slug == hit.row.slug && r.question == hit.row.question && r.answer == hit.row.answer
              && r.score == hit.score && r.googleIndex == hit.row.googleIndex
              && (r.children.Some? <==>
                    Truthy(hit.row.slug) && exists k :: 0 <= k < |rows| && rows[k].parent == hit.row.slug)
              && (r.children.Some? ==> r.children.value == ChildrenOf(rows, hit.row.slug, hits))
  {
    var row := hit.row;
    var plain := SearchResult(row.category, row.subcategory, row.slug, row.question, row.answer,
                              hit.score, None, row.googleIndex);
    var own := if Truthy(row.slug) && |ChildrenOf(rows, row.slug, hits)| > 0
               then plain.(children := Some(ChildrenOf(rows, row.slug, hits)))
               else plain;
    if Truthy(row.parent) && |RowsWithSlug(rows, row.parent)| > 0 then
      var p := RowsWithSlug(rows, row.parent)[0];
      SearchResult(p.category, p.subcategory, p.slug, p.question, p.answer,
                   ScoreOf(hits, row.googleIndex), Some(ChildrenOf(rows, p.slug, hits)), p.googleIndex)
    else own
  }

  /** A child hit whose parent is stored turns into that parent, scored by
      the hit's best score, and the hit itself (if stored) is among its
      children. */
  lemma ChildHitBecomesParent(hit: Hit, rows: seq<Row>, hits: seq<Hit>)
    requires Truthy(hit.row.parent)
    requires exists k :: 0 <= k < |rows| && rows[k].slug == hit.row.parent
    ensures var r := BuildResult(hit, rows, hits);
            && (exists k :: 0 <= k < |rows| && rows[k].slug == hit.row.parent
                  && (forall j :: 0 <= j < k ==> rows[j].slug != hit.row.parent)
                  && r == SearchResult(rows[k].category, rows[k].subcategory, rows[k].slug,
                                       rows[k].question, rows[k].answer,
                                       ScoreOf(hits, hit.row.googleIndex),
                                       Some(ChildrenOf(rows, hit.row.parent, hits)), rows[k].googleIndex))
            && (hit.row in rows ==> ToChild(hit.row, hits) in r.children.value)
  {
  }

  /** A hit whose parent slug matches no stored row is kept as built from
      the hit: its own fields and score, with its own children when it is a
      parent itself. */
  lemma OrphanHitKept(hit: Hit, rows: seq<Row>, hits: seq<Hit>)
    requires forall k :: 0 <= k < |rows| ==> rows[k].slug != hit.row.parent
    ensures var r := BuildResult(hit, rows, hits);
            && r.(children := None) == SearchResult(
                 hit.row.category, hit.row.subcategory, hit.row.slug, hit.row.question, hit.row.answer,
                 hit.score, None, hit.row.googleIndex)
            && r.children == (if Truthy(hit.row.slug) && exists k :: 0 <= k < |rows| && rows[k].parent == hit.row.slug
                              then Some(ChildrenOf(rows, hit.row.slug, hits)) else None)
  {
  }

  /** The stored rows are every chunk, so a child record split into two
      chunks appears twice among its parent's children. */
  lemma SplitRecordListedTwice(parentRow: Row, piece: Row, hits: seq<Hit>)
    requires piece.parent == parentRow.slug && parentRow.parent != parentRow.slug
    ensures ChildrenOf([parentRow, piece, piece], parentRow.slug, hits) == [ToChild(piece, hits), ToChild(piece, hits)]
  {
    var rows := [parentRow, piece, piece];
    var p := (row: Row) => row.parent == parentRow.slug;
    assert rows[1..] == [piece, piece] && rows[1..][1..] == [piece] && [piece][1..] == [];
    assert Filter(rows, p) == [piece, piece];
  }

  /** The position of the first hit at or after `i` that selects a missing
      column. */
  function FirstBadHit(hits: seq<Hit>, rows: seq<Row>, i: nat): (r: Option<nat>)
    requires i <= |hits|
    ensures r.Some? ==> i <= r.value < |hits| && NoColumns(hits[r.value], rows)
                        && forall j :: i <= j < r.value ==> !NoColumns(hits[j], rows)
    ensures r.None? ==> forall j :: i <= j < |hits| ==> !NoColumns(hits[j], rows)
    decreases |hits| - i
  {
    if i == |hits| then None
    else if NoColumns(hits[i], rows) then Some(i)
    else FirstBadHit(hits, rows, i + 1)
  }

  function BuildResults(hits: seq<Hit>, rows: seq<Row>, all: seq<Hit>): (r: Result<seq<SearchResult>, Error>)
    ensures r.Ok? <==> forall k :: 0 <= k < |hits| ==> !NoColumns(hits[k], rows)
    ensures r.Ok? ==> |r.value| == |hits| && forall k :: 0 <= k < |hits| ==> r.value[k] == BuildResult(hits[k], rows, all)
    ensures r.Err? ==> exists k :: 0 <= k < |hits| && NoColumns(hits[k], rows) && r.error == ColumnError(hits[k])
                                   && forall j :: 0 <= j < k ==> !NoColumns(hits[j], rows)
  {
    match FirstBadHit(hits, rows, 0)
    case Some(k) => Err(ColumnError(hits[k]))
    case None => Ok(seq(|hits|, k requires 0 <= k < |hits| => BuildResult(hits[k], rows, all)))
  }

  /** The distinct `google_index` values of `s` in order of first
      occurrence: the key order of the dictionary built from `s`. */
  function FirstKeys(s: seq<SearchResult>): (keys: seq<Value>)
    ensures forall i, j :: 0 <= i < j < |keys| ==> keys[i] != keys[j]
    ensures forall k :: 0 <= k < |s| ==> s[k].googleIndex in keys
  {
    if |s| == 0 then []
    else
      var front := FirstKeys(s[..|s| - 1]);
      assert forall k :: 0 <= k < |s| - 1 ==> s[k] == s[..|s| - 1][k];
      if s[|s| - 1].googleIndex in front then front else front + [s[|s| - 1].googleIndex]
  }

  /** Every key is the `google_index` of some result. */
  lemma {:induction false} FirstKeysFromResults(s: seq<SearchResult>, key: Value)
    requires key in FirstKeys(s)
    ensures exists k :: 0 <= k < |s| && s[k].googleIndex == key
  {
    if s[|s| - 1].googleIndex != key {
      FirstKeysFromResults(s[..|s| - 1], key);
      var k :| 0 <= k < |s| - 1 && s[..|s| - 1][k].googleIndex == key;
      assert s[k] == s[..|s| - 1][k];
    }
  }

  /** Adding results never reorders the keys already seen. */
  lemma {:induction false} FirstKeysPrefix(s: seq<SearchResult>, m: nat)
    requires m <= |s|
    ensures FirstKeys(s[..m]) <= FirstKeys(s)
  {
    if m < |s| {
      FirstKeysPrefix(s[..|s| - 1], m);
      assert s[..|s| - 1][..m] == s[..m];
    } else {
      assert s[..m] == s;
    }
  }

  lemma FirstKeysSnoc(s: seq<SearchResult>, v: SearchResult)
    ensures FirstKeys(s + [v]) ==
              if v.googleIndex in FirstKeys(s) then FirstKeys(s) else FirstKeys(s) + [v.googleIndex]
  {
    assert (s + [v])[..|s|] == s;
  }

  /** The position of the last result of `s` with this `google_index`: the
      value the dictionary keeps for it. */
  function LastIndex(s: seq<SearchResult>, key: Value): (k: nat)
    requires key in FirstKeys(s)
    ensures k < |s| && s[k].googleIndex == key
    ensures forall j :: k < j < |s| ==> s[j].googleIndex != key
  {
    var init := s[..|s| - 1];
    if s[|s| - 1].googleIndex == key then |s| - 1
    else
      assert key in FirstKeys(init);
      assert forall j :: 0 <= j < |init| ==> init[j] == s[j];
      LastIndex(init, key)
  }

  function LastOf(s: seq<SearchResult>, key: Value): (r: SearchResult)
    requires key in FirstKeys(s)
  {
    s[LastIndex(s, key)]
  }

  lemma LastOfSnoc(s: seq<SearchResult>, v: SearchResult, key: Value)
    requires key in FirstKeys(s + [v])
    ensures key != v.googleIndex ==> key in FirstKeys(s)
    ensures LastOf(s + [v], key) == if key == v.googleIndex then v else LastOf(s, key)
  {
    FirstKeysSnoc(s, v);
    assert (s + [v])[..|s|] == s;
  }

  /** The merged results as a reference: one per key of `FirstKeys`, each
      the last result with that key. */
  function Merged(results: seq<SearchResult>): (r: seq<SearchResult>)
    ensures |r| == |FirstKeys(results)|
  {
    var keys := FirstKeys(results);
    seq(|keys|, i requires 0 <= i < |keys| => LastOf(results, keys[i]))
  }

  /** The `i`-th merged result is a result of the input carrying the
      `i`-th key. */
  lemma MergedKeys(results: seq<SearchResult>)
    ensures forall i :: 0 <= i < |Merged(results)| ==>
              Merged(results)[i].googleIndex == FirstKeys(results)[i] && Merged(results)[i] in results
  {
  }

  /** Merging leaves exactly one result per `google_index` of the input,
      each of them the last input result with that key, ordered by where
      the key first occurs. */
  lemma MergedProperties(results: seq<SearchResult>)
    ensures var out := Merged(results);
            && (forall i, j :: 0 <= i < j < |out| ==> out[i].googleIndex != out[j].googleIndex)
            && (forall k :: 0 <= k < |results| ==> exists i :: 0 <= i < |out| && out[i].googleIndex == results[k].googleIndex)
            && (forall i :: 0 <= i < |out| ==> out[i] in results)
            && (forall m :: 0 <= m <= |results| ==> FirstKeys(results[..m]) <= FirstKeys(results))
  {
    var out := Merged(results);
    var keys := FirstKeys(results);
    MergedKeys(results);
    forall k | 0 <= k < |results|
      ensures exists i :: 0 <= i < |out| && out[i].googleIndex == results[k].googleIndex
    {
      var i :| 0 <= i < |keys| && keys[i] == results[k].googleIndex;
      assert out[i].googleIndex == results[k].googleIndex;
    }
    forall m | 0 <= m <= |results| ensures FirstKeys(results[..m]) <= FirstKeys(results) {
      FirstKeysPrefix(results, m);
    }
  }

  /** One iteration of the dictionary comprehension, on the key order. */
  lemma DedupKeysStep(s: seq<SearchResult>, v: SearchResult, keys: seq<Value>, latest: map<Value, SearchResult>)
    requires keys == FirstKeys(s)
    requires latest.Keys == set key | key in keys
    ensures var keys' := if v.googleIndex in latest then keys else keys + [v.googleIndex];
            && keys' == FirstKeys(s + [v])
            && latest[v.googleIndex := v].Keys == (set key | key in keys')
  {
    FirstKeysSnoc(s, v);
  }

  /** One iteration of the dictionary comprehension, on the values. */
  lemma DedupValuesStep(s: seq<SearchResult>, v: SearchResult, latest: map<Value, SearchResult>)
    requires latest.Keys == set key | key in FirstKeys(s)
    requires forall key :: key in latest ==> latest[key] == LastOf(s, key)
    ensures latest[v.googleIndex := v].Keys == set key | key in FirstKeys(s + [v])
    ensures forall key :: key in latest[v.googleIndex := v] ==>
              latest[v.googleIndex := v][key] == LastOf(s + [v], key)
  {
    FirstKeysSnoc(s, v);
    var latest' := latest[v.googleIndex := v];
    forall key | key in latest' ensures latest'[key] == LastOf(s + [v], key) {
      LastOfSnoc(s, v, key);
    }
  }

  /** `list({v[google_index]: v for v in results}.values())`. */
  method Dedup(results: seq<SearchResult>) returns (out: seq<SearchResult>)
    ensures out == Merged(results)
  {
    var keys: seq<Value> := [];
    var latest: map<Value, SearchResult> := map[];
    var n := 0;
    while n < |results|
      invariant 0 <= n <= |results|
      invariant keys == FirstKeys(results[..n])
      invariant latest.Keys == set key | key in keys
      invariant forall key :: key in latest ==> latest[key] == LastOf(results[..n], key)
    {
      var v := results[n];
      assert results[..n + 1] == results[..n] + [v];
      DedupKeysStep(results[..n], v, keys, latest);
      DedupValuesStep(results[..n], v, latest);
      if v.googleIndex !in latest {
        keys := keys + [v.googleIndex];
      }
      latest := latest[v.googleIndex := v];
      n := n + 1;
    }
    assert results[..n] == results;
    out := seq(|keys|, i requires 0 <= i < |keys| => latest[keys[i]]);
  }

  function Public(r: SearchResult): PublicResult {
    PublicResult(r.category, r.subcategory, r.slug, r.question, r.answer, r.score, r.children)
  }

  /** The result-building part of `search`: one result per hit, merged by
      `google_index`, and the key dropped. */
  method ComposeResults(hits: seq<Hit>, rows: seq<Row>) returns (r: Result<seq<PublicResult>, Error>)
    ensures r.Err? <==> BuildResults(hits, rows, hits).Err?
    ensures r.Ok? ==> |r.value| == |FirstKeys(BuildResults(hits, rows, hits).value)| <= |hits|
    ensures r.Ok? ==> forall i :: 0 <= i < |r.value| ==>
              r.value[i] == Public(Merged(BuildResults(hits, rows, hits).value)[i])
  {
    var built := BuildResults(hits, rows, hits);
    if built.Err? {
      return Err(built.error);
    }
    var merged := Dedup(built.value);
    DistinctKeysBound(built.value);
    r := Ok(seq(|merged|, i requires 0 <= i < |merged| => Public(merged[i])));
  }

  /** There are never more keys than results. */
  lemma {:induction false} DistinctKeysBound(s: seq<SearchResult>)
    ensures |FirstKeys(s)| <= |s|
  {
    if |s| > 0 {
      DistinctKeysBound(s[..|s| - 1]);
    }
  }

  /** The index name the search route opens, as written: the sheet id
      unchanged. */
  function SearchIndexAsWritten(googleSheetId: string): (r: string)
    ensures |r| == |googleSheetId|
    ensures forall env :: var store := VectorStore.GetVectorStore(r, env, false);
              store.Ok? ==> store.value.storeId == googleSheetId
  {
    googleSheetId
  }

  /** A sheet id with an upper-case letter or an underscore names a
      different index at search time than the one ingestion filled. */
  lemma SearchIndexMismatch()
    ensures SearchIndexAsWritten("Ab_C") != VectorStore.GoogleIdToVectorStoreId("Ab_C")
  {
    VectorStore.VectorStoreIdExample();
  }

  /** The index name search opens: the same normalisation ingestion and
      chat apply. */
  function SearchIndex(googleSheetId: string): string
  {
    VectorStore.GoogleIdToVectorStoreId(googleSheetId)
  }

  /** Search opens the index ingestion wrote, for every sheet id. */
  lemma SearchReadsIngestedIndex(googleSheetId: string, env: map<string, string>)
    ensures var store := VectorStore.GetVectorStore(SearchIndex(googleSheetId), env, false);
            store.Ok? ==> store.value.storeId == VectorStore.GoogleIdToVectorStoreId(googleSheetId)
  {
  }

  /** `dm.<name>`: the value of a metadata-key attribute, or AttributeError
      when the class does not define it. */
  function KeyAttribute(name: string): (r: Result<string, Error>)
    ensures r.Ok? <==> name in DM.Attributes
    ensures r.Err? ==> r.error == MissingAttribute(name)
  {
    if name in DM.Attributes then Ok(DM.Attributes[name]) else Err(MissingAttribute(name))
  }

  /** The result loop as written: the first hit's result dictionary reads
      `dm.SCORE` and `dm.CHILDREN` before anything else is built. */
  function BuildResultsAsWritten(hits: seq<Hit>, rows: seq<Row>, all: seq<Hit>): (r: Result<seq<SearchResult>, Error>)
    ensures |hits| == 0 ==> r == Ok([])
  {
    if |hits| == 0 then Ok([])
    else
      var _ :- KeyAttribute("SCORE");
      var _ :- KeyAttribute("CHILDREN");
      BuildResults(hits, rows, all)
  }

  /** The metadata-key class defines neither `SCORE` nor `CHILDREN`, so as
      written every search that retrieves a chunk fails, even where the
      intended result loop succeeds. */
  lemma ResultKeysUndefined(hits: seq<Hit>, rows: seq<Row>, all: seq<Hit>)
    requires |hits| > 0
    ensures BuildResultsAsWritten(hits, rows, all) == Err(MissingAttribute("SCORE"))
    ensures |rows| > 0 ==> BuildResults(hits, rows, all).Ok?
  {
    assert "SCORE" !in DM.Attributes;
  }
}
