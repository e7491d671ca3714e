/** utils/document_chunker.py: splits loaded documents into chunks and
    numbers each chunk within the run of chunks that share its
    `google_index`.  The spaCy/tiktoken text splitter is the parameter
    `splitText`; like LangChain's `split_documents` it turns each document
    into pieces that carry a copy of that document's metadata, in document
    order. */
module DocumentChunker {
  import opened Results
  import opened Strings
  import opened Values
  import DM = DocumentMetadata

  /** The configured splitter, with the `kwargs` entries it was built from. */
  datatype Splitter =
    | SentenceSplitter(chunkSize: Value, chunkOverlap: Value, separator: Value, pipeline: Value)
    | TokenizedSentenceSplitter(chunkSize: Value, chunkOverlap: Value, separator: Value,
                                pipeline: Value, encodingName: Value)

  const DefaultSeparator: string := "\n\n"
  const DefaultPipeline: string := "en_core_web_sm"
  const DefaultEncoding: string := "cl100k_base"

  /** `kwargs.get(key, default)`. */
  function GetOr(kwargs: map<string, Value>, key: string, default: string): Value {
    if key in kwargs then kwargs[key] else Str(default)
  }

  /** `_set_chunker`: the strategy name is compared case-insensitively;
      `chunk_size` and `chunk_overlap` are required entries of the `kwargs`
      dictionary, the others have defaults. */
  function SetChunker(strategy: string, kwargs: map<string, Value>): (r: Result<Splitter, Error>)
    ensures r == Err(UnknownStrategy) <==>
              Lower(strategy) != "sentencesplitting" && Lower(strategy) != "tokenizedsentencesplitting"
    ensures r.Ok? ==> "chunk_size" in kwargs && "chunk_overlap" in kwargs
                      && r.value.chunkSize == kwargs["chunk_size"]
                      && r.value.chunkOverlap == kwargs["chunk_overlap"]
    ensures r.Ok? ==> (r.value.SentenceSplitter? <==> Lower(strategy) == "sentencesplitting")
    ensures r.Ok? ==> ("separator" !in kwargs ==> r.value.separator == Str(DefaultSeparator))
                      && ("pipeline" !in kwargs ==> r.value.pipeline == Str(DefaultPipeline))
    ensures r.Err? && r.error != UnknownStrategy ==>
              r.error == MissingKey(if "chunk_size" !in kwargs then "chunk_size" else "chunk_overlap")
  {
    var s := Lower(strategy);
    if s != "sentencesplitting" && s != "tokenizedsentencesplitting" then Err(UnknownStrategy)
    else if "chunk_size" !in kwargs then Err(MissingKey("chunk_size"))
    else if "chunk_overlap" !in kwargs then Err(MissingKey("chunk_overlap"))
    else if s == "sentencesplitting" then
      Ok(SentenceSplitter(kwargs["chunk_size"], kwargs["chunk_overlap"],
                          GetOr(kwargs, "separator", DefaultSeparator), GetOr(kwargs, "pipeline", DefaultPipeline)))
    else
      Ok(TokenizedSentenceSplitter(kwargs["chunk_size"], kwargs["chunk_overlap"],
                                   GetOr(kwargs, "separator", DefaultSeparator), GetOr(kwargs, "pipeline", DefaultPipeline),
                                   GetOr(kwargs, "encoding_name", DefaultEncoding)))
  }

  /** Strategy names differing only in letter case select the same splitter. */
  lemma SetChunkerIgnoresCase(strategy: string, kwargs: map<string, Value>)
    ensures SetChunker(strategy, kwargs) == SetChunker(Lower(strategy), kwargs)
  {
    LowerIdempotent(strategy);
  }

  predicate HasIndices(chunks: seq<Document>) {
    forall k :: 0 <= k < |chunks| ==> DM.GoogleIndex in chunks[k].metadata
  }

  /** The `google_index` of every chunk. */
  function Indices(chunks: seq<Document>): (g: seq<Value>)
    requires HasIndices(chunks)
    ensures |g| == |chunks|
    ensures forall k :: 0 <= k < |chunks| ==> g[k] == chunks[k].metadata[DM.GoogleIndex]
  {
    seq(|chunks|, k requires 0 <= k < |chunks| => chunks[k].metadata[DM.GoogleIndex])
  }

  /** The number the loop gives chunk `i`: one more than the previous chunk's
      when both share a `google_index`, otherwise 0.  The loop starts from a
      previous index of `None`, so a first chunk whose index is `None` gets 1. */
  function Nth(g: seq<Value>, i: nat): nat
    requires i < |g|
  {
    var previous := if i == 0 then Null else g[i - 1];
    if previous == g[i] then (if i == 0 then 1 else Nth(g, i - 1) + 1) else 0
  }

  /** `n` is the number of entries directly before position `i` that are
      equal to `g[i]`, reading `g` after the `None` the loop starts from. */
  predicate RunLength(g: seq<Value>, i: nat, n: nat)
    requires i < |g|
  {
    var p := [Null] + g;
    && n <= i + 1
    && (forall j :: i + 1 - n <= j <= i + 1 ==> p[j] == g[i])
    && (n < i + 1 ==> p[i - n] != g[i])
  }

  lemma {:induction false} NthIsRunLength(g: seq<Value>, i: nat)
    requires i < |g|
    ensures RunLength(g, i, Nth(g, i))
  {
    var p := [Null] + g;
    if i > 0 && g[i - 1] == g[i] {
      NthIsRunLength(g, i - 1);
      assert p[i] == g[i - 1];
    }
  }

  /** With no `None` index the run stays inside the sequence: chunk `i` is
      numbered by how many chunks directly before it share its index. */
  lemma NthCountsSameIndexPredecessors(g: seq<Value>, i: nat)
    requires i < |g| && g[i] != Null
    ensures Nth(g, i) <= i
    ensures forall j :: i - Nth(g, i) <= j <= i ==> g[j] == g[i]
    ensures i - Nth(g, i) > 0 ==> g[i - Nth(g, i) - 1] != g[i]
  {
    NthIsRunLength(g, i);
    var n := Nth(g, i);
    var p := [Null] + g;
    assert p[0] != g[i];
    forall j | i - n <= j <= i ensures g[j] == g[i] {
      assert p[j + 1] == g[j];
    }
    if i - n > 0 {
      assert p[i - n] == g[i - n - 1];
    }
  }

  /** The first chunk is numbered 0 unless its `google_index` is `None`. */
  lemma FirstChunkNumber(g: seq<Value>)
    requires |g| > 0
    ensures Nth(g, 0) == (if g[0] == Null then 1 else 0)
  {
  }

  /** The chunk `c` with its number recorded in a copy of its metadata. */
  function Stamp(c: Document, nth: nat): Document {
    Document(c.pageContent, c.metadata[DM.NthChunk := Int(nth)])
  }

  lemma NthPrefix(g: seq<Value>, h: seq<Value>, i: nat)
    requires i < |g| && i < |h| && g[..i + 1] == h[..i + 1]
    ensures Nth(g, i) == Nth(h, i)
  {
    assert g[i] == g[..i + 1][i];
    if i > 0 {
      assert g[i - 1] == g[..i + 1][i - 1];
      assert g[..i] == g[..i + 1][..i];
      assert h[..i] == h[..i + 1][..i];
      NthPrefix(g, h, i - 1);
    }
  }

  /** Stamping adds `nth_chunk` and leaves every other key as it was. */
  lemma StampKeepsOtherKeys(c: Document, nth: nat)
    ensures Stamp(c, nth).pageContent == c.pageContent
    ensures Stamp(c, nth).metadata.Keys == c.metadata.Keys + {DM.NthChunk}
    ensures forall key :: key in c.metadata && key != DM.NthChunk ==>
              Stamp(c, nth).metadata[key] == c.metadata[key]
    ensures Stamp(c, nth).metadata[DM.NthChunk] == Int(nth)
  {
  }

  /** Appending an index keeps the numbers of the earlier entries. */
  lemma NthAppend(g: seq<Value>, x: Value, k: nat)
    requires k < |g|
    ensures Nth(g + [x], k) == Nth(g, k)
  {
    assert (g + [x])[..k + 1] == g[..k + 1];
    NthPrefix(g + [x], g, k);
  }

  /** Stamping every chunk with its number changes nothing but `nth_chunk`. */
  lemma StampedKeepOtherKeys(chunks: seq<Document>, out: seq<Document>, g: seq<Value>)
    requires |out| == |chunks| == |g|
    requires forall k {:trigger out[k]} :: 0 <= k < |out| ==> out[k] == Stamp(chunks[k], Nth(g, k))
    ensures forall k :: 0 <= k < |chunks| ==>
              && out[k].pageContent == chunks[k].pageContent
              && out[k].metadata.Keys == chunks[k].metadata.Keys + {DM.NthChunk}
              && (forall key :: key in chunks[k].metadata && key != DM.NthChunk ==>
                    out[k].metadata[key] == chunks[k].metadata[key])
              && out[k].metadata[DM.NthChunk] == Int(Nth(g, k))
  {
    forall k | 0 <= k < |chunks| {
      StampKeepsOtherKeys(chunks[k], Nth(g, k));
    }
  }

  /** One step of the numbering loop: the new entry's number follows from the
      last entry's, and the earlier numbers stay as they were. */
  lemma NthStep(g: seq<Value>, x: Value)
    ensures Nth(g + [x], |g|) ==
              if |g| == 0 then (if x == Null then 1 else 0)
              else if g[|g| - 1] == x then Nth(g, |g| - 1) + 1 else 0
    ensures forall k :: 0 <= k < |g| ==> Nth(g + [x], k) == Nth(g, k)
  {
    forall k | 0 <= k < |g| ensures Nth(g + [x], k) == Nth(g, k) {
      NthAppend(g, x, k);
    }
    if |g| > 0 {
      assert (g + [x])[|g| - 1] == g[|g| - 1];
    }
  }

  /** `_add_chunk_metadata`: one chunk out per chunk in, same order, same
      text, the metadata a copy of the input's plus `nth_chunk`.  A chunk
      without `google_index` raises KeyError. */
  method AddChunkMetadata(chunks: seq<Document>) returns (r: Result<seq<Document>, Error>)
    ensures r.Err? <==> !HasIndices(chunks)
    ensures r.Err? ==> r.error == MissingKey(DM.GoogleIndex)
    ensures r.Ok? ==> |r.value| == |chunks|
    ensures r.Ok? ==> forall k :: 0 <= k < |chunks| ==>
              && r.value[k].pageContent == chunks[k].pageContent
              && r.value[k].metadata.Keys == chunks[k].metadata.Keys + {DM.NthChunk}
              && (forall key :: key in chunks[k].metadata && key != DM.NthChunk ==>
                    r.value[k].metadata[key] == chunks[k].metadata[key])
              && r.value[k].metadata[DM.NthChunk] == Int(Nth(Indices(chunks), k))
  {
    var out: seq<Document> := [];
    ghost var seen: seq<Value> := [];
    var previous := Null;
    var nth := 0;
    var i := 0;
    while i < |chunks|
      invariant 0 <= i <= |chunks|
      invariant |out| == i && |seen| == i
      invariant forall k :: 0 <= k < i ==> DM.GoogleIndex in chunks[k].metadata
                                           && seen[k] == chunks[k].metadata[DM.GoogleIndex]
      invariant forall k {:trigger out[k]} :: 0 <= k < i ==> out[k] == Stamp(chunks[k], Nth(seen, k))
      invariant i == 0 ==> previous == Null && nth == 0
      invariant i > 0 ==> previous == seen[i - 1] && nth == Nth(seen, i - 1)
    {
      if DM.GoogleIndex !in chunks[i].metadata {
        return Err(MissingKey(DM.GoogleIndex));
      }
      var index := chunks[i].metadata[DM.GoogleIndex];
      if previous == index {
        nth := nth + 1;
      } else {
        nth := 0;
      }
      NthStep(seen, index);
      seen := seen + [index];
      out := out + [Stamp(chunks[i], nth)];
      previous := index;
      i := i + 1;
    }
    assert seen == Indices(chunks);
    StampedKeepOtherKeys(chunks, out, seen);
    return Ok(out);
  }

  /** Every `google_index` value occupies one contiguous block. */
  predicate Contiguous(g: seq<Value>) {
    forall a, b, c :: 0 <= a < b < c < |g| && g[a] == g[c] ==> g[b] == g[a]
  }

  /** In a contiguous sequence without `None`, a later chunk with the same
      index is numbered exactly its distance further on. */
  lemma {:induction false} ContiguousNumbering(g: seq<Value>, i: nat, k: nat)
    requires Contiguous(g) && forall j :: 0 <= j < |g| ==> g[j] != Null
    requires i <= k < |g| && g[i] == g[k]
    ensures Nth(g, k) == Nth(g, i) + (k - i)
  {
    if i < k {
      assert g[k - 1] == g[i];
      ContiguousNumbering(g, i, k - 1);
    }
  }

  /** Grouped input gives pairwise distinct `(google_index, nth_chunk)`. */
  lemma ContiguousPairsDistinct(g: seq<Value>)
    requires Contiguous(g) && forall j :: 0 <= j < |g| ==> g[j] != Null
    ensures forall i, k :: 0 <= i < k < |g| ==> g[i] != g[k] || Nth(g, i) != Nth(g, k)
  {
    forall i, k | 0 <= i < k < |g| && g[i] == g[k] ensures Nth(g, i) != Nth(g, k) {
      ContiguousNumbering(g, i, k);
    }
  }

  /** A repeat that is not adjacent restarts at 0, so two chunks of the same
      index can both be numbered 0. */
  lemma NonContiguousRepeatCollides()
    ensures var g := [Int(1), Int(2), Int(1)];
            g[0] == g[2] && Nth(g, 0) == 0 && Nth(g, 2) == 0
  {
  }

  /** The pieces of one document, each with a copy of its metadata. */
  function Pieces(d: Document, splitText: string -> seq<string>): (r: seq<Document>)
    ensures |r| == |splitText(d.pageContent)|
    ensures forall k :: 0 <= k < |r| ==> r[k].metadata == d.metadata
    ensures forall k :: 0 <= k < |r| ==> r[k].pageContent == splitText(d.pageContent)[k]
  {
    var texts := splitText(d.pageContent);
    seq(|texts|, k requires 0 <= k < |texts| => Document(texts[k], d.metadata))
  }

  /** The splitter's `split_documents`: the pieces of every document, in
      document order. */
  function Split(docs: seq<Document>, splitText: string -> seq<string>): seq<Document>
  {
    if |docs| == 0 then [] else Pieces(docs[0], splitText) + Split(docs[1..], splitText)
  }

  /** Splitting a list of documents splits each one in turn: the pieces of
      the first part come first. */
  lemma {:induction false} SplitAppend(a: seq<Document>, b: seq<Document>, splitText: string -> seq<string>)
    ensures Split(a + b, splitText) == Split(a, splitText) + Split(b, splitText)
  {
    if |a| > 0 {
      assert (a + b)[0] == a[0];
      assert (a + b)[1..] == a[1..] + b;
      SplitAppend(a[1..], b, splitText);
    } else {
      assert a + b == b;
    }
  }

  lemma {:induction false} SplitIndicesFromDocuments(docs: seq<Document>, splitText: string -> seq<string>)
    requires HasIndices(docs)
    ensures HasIndices(Split(docs, splitText))
    ensures forall k :: 0 <= k < |Split(docs, splitText)| ==>
              exists j :: 0 <= j < |docs| &&
                Split(docs, splitText)[k].metadata[DM.GoogleIndex] == docs[j].metadata[DM.GoogleIndex]
  {
    if |docs| > 0 {
      var head := Pieces(docs[0], splitText);
      var rest := Split(docs[1..], splitText);
      SplitIndicesFromDocuments(docs[1..], splitText);
      var all: seq<Document> := head + rest;
      assert Split(docs, splitText) == all;
      forall k | 0 <= k < |all|
        ensures exists j :: 0 <= j < |docs| &&
                  all[k].metadata[DM.GoogleIndex] == docs[j].metadata[DM.GoogleIndex]
      {
        if k < |head| {
          assert all[k].metadata == docs[0].metadata;
        } else {
          var j :| 0 <= j < |docs[1..]| &&
            rest[k - |head|].metadata[DM.GoogleIndex] == docs[1..][j].metadata[DM.GoogleIndex];
          assert docs[1..][j] == docs[j + 1];
        }
      }
    }
  }

  predicate DistinctIndices(docs: seq<Document>)
    requires HasIndices(docs)
  {
    forall i, j :: 0 <= i < j < |docs| ==>
      docs[i].metadata[DM.GoogleIndex] != docs[j].metadata[DM.GoogleIndex]
  }

  /** Two grouped sequences with no index in common stay grouped when
      concatenated. */
  lemma ContiguousAppend(a: seq<Value>, b: seq<Value>)
    requires Contiguous(a) && Contiguous(b)
    requires forall i, j :: 0 <= i < |a| && 0 <= j < |b| ==> a[i] != b[j]
    ensures Contiguous(a + b)
  {
    var g := a + b;
    forall x, y, z | 0 <= x < y < z < |g| && g[x] == g[z] ensures g[y] == g[x] {
      if z < |a| {
        assert g[x] == a[x] && g[y] == a[y] && g[z] == a[z];
      } else if x >= |a| {
        assert g[x] == b[x - |a|] && g[y] == b[y - |a|] && g[z] == b[z - |a|];
      }
    }
  }

  /** The chunks of the later documents never carry the first document's
      index. */
  lemma SplitTailAvoidsHead(docs: seq<Document>, splitText: string -> seq<string>)
    requires |docs| > 0 && HasIndices(docs) && DistinctIndices(docs)
    ensures HasIndices(Split(docs[1..], splitText))
    ensures forall k :: 0 <= k < |Split(docs[1..], splitText)| ==>
              Split(docs[1..], splitText)[k].metadata[DM.GoogleIndex] != docs[0].metadata[DM.GoogleIndex]
  {
    var rest := Split(docs[1..], splitText);
    SplitIndicesFromDocuments(docs[1..], splitText);
    forall k | 0 <= k < |rest|
      ensures rest[k].metadata[DM.GoogleIndex] != docs[0].metadata[DM.GoogleIndex]
    {
      var j :| 0 <= j < |docs[1..]| &&
        rest[k].metadata[DM.GoogleIndex] == docs[1..][j].metadata[DM.GoogleIndex];
      assert docs[1..][j] == docs[j + 1];
    }
  }

  lemma IndicesAppend(a: seq<Document>, b: seq<Document>)
    requires HasIndices(a) && HasIndices(b)
    ensures HasIndices(a + b)
    ensures Indices(a + b) == Indices(a) + Indices(b)
  {
    assert forall k :: 0 <= k < |a + b| ==> (a + b)[k] == if k < |a| then a[k] else b[k - |a|];
  }

  /** Documents with pairwise distinct indices split into a grouped chunk
      sequence. */
  lemma {:induction false} SplitIsContiguous(docs: seq<Document>, splitText: string -> seq<string>)
    requires HasIndices(docs) && DistinctIndices(docs)
    ensures HasIndices(Split(docs, splitText))
    ensures Contiguous(Indices(Split(docs, splitText)))
  {
    SplitIndicesFromDocuments(docs, splitText);
    if |docs| > 0 {
      var head := Pieces(docs[0], splitText);
      var rest := Split(docs[1..], splitText);
      assert HasIndices(docs[1..]) && DistinctIndices(docs[1..]);
      SplitIsContiguous(docs[1..], splitText);
      SplitTailAvoidsHead(docs, splitText);
      var x := docs[0].metadata[DM.GoogleIndex];
      var gh := Indices(head);
      var gr := Indices(rest);
      assert forall k :: 0 <= k < |gh| ==> gh[k] == x;
      assert forall k :: 0 <= k < |gr| ==> gr[k] != x;
      ContiguousAppend(gh, gr);
      assert Split(docs, splitText) == head + rest;
      IndicesAppend(head, rest);
    }
  }

  /** `split_documents`: the splitter's chunks, numbered. */
  method SplitDocuments(docs: seq<Document>, splitText: string -> seq<string>)
    returns (r: Result<seq<Document>, Error>)
    ensures r.Err? <==> !HasIndices(Split(docs, splitText))
    ensures r.Ok? ==> |r.value| == |Split(docs, splitText)|
    ensures r.Ok? ==> forall k :: 0 <= k < |r.value| ==>
              r.value[k] == Stamp(Split(docs, splitText)[k], Nth(Indices(Split(docs, splitText)), k))
  {
    var chunks := Split(docs, splitText);
    r := AddChunkMetadata(chunks);
    if r.Ok? {
      forall k | 0 <= k < |r.value|
        ensures r.value[k] == Stamp(chunks[k], Nth(Indices(chunks), k))
      {
        var s := Stamp(chunks[k], Nth(Indices(chunks), k));
        assert r.value[k].metadata == s.metadata;
      }
    }
  }

  /** Loaded documents (distinct `google_index`, never `None`) yield chunks
      whose `(google_index, nth_chunk)` pairs are pairwise distinct. */
  lemma SplitChunkPairsDistinct(docs: seq<Document>, splitText: string -> seq<string>)
    requires HasIndices(docs) && DistinctIndices(docs)
    requires forall j :: 0 <= j < |docs| ==> docs[j].metadata[DM.GoogleIndex] != Null
    ensures HasIndices(Split(docs, splitText))
    ensures var g := Indices(Split(docs, splitText));
            forall i, k :: 0 <= i < k < |g| ==> g[i] != g[k] || Nth(g, i) != Nth(g, k)
  {
    SplitIsContiguous(docs, splitText);
    SplitIndicesFromDocuments(docs, splitText);
    var g := Indices(Split(docs, splitText));
    forall j | 0 <= j < |g| ensures g[j] != Null {
      var m :| 0 <= m < |docs| &&
        Split(docs, splitText)[j].metadata[DM.GoogleIndex] == docs[m].metadata[DM.GoogleIndex];
    }
    ContiguousPairsDistinct(g);
  }
}
