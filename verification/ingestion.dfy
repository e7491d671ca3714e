/** The ingestion pipeline of routes/load.py: load the sheet, split the
    documents into numbered chunks, and replace the index content by them.
    Its point is that the count the route reports is the number of chunks
    the index then holds: no two chunks collide on an id. */
module Ingestion {
  import opened Results
  import opened Values
  import opened Seqs
  import Tables
  import opened DocumentLoader
  import opened DocumentChunker
  import opened VectorStore
  import DM = DocumentMetadata

  /** What the loader guarantees about `google_index`: present, an integer,
      and strictly increasing along the documents. */
  predicate Indexed(docs: seq<Document>) {
    && (forall k :: 0 <= k < |docs| ==>
          DM.GoogleIndex in docs[k].metadata && docs[k].metadata[DM.GoogleIndex].Int?)
    && IncreasingBy(docs, DocumentKey)
  }

  /** The documents a frame is shaped into carry their frame index, in
      increasing order. */
  lemma ShapedIndexed(f: Tables.Frame, clean: Value -> string)
    requires Shape(f, clean).Ok?
    ensures Indexed(Shape(f, clean).value)
  {
    var cols := ResolveColumns(f, RenameOrder).value;
    ShapedDocuments(f, clean, cols);
  }

  /** The emptiness check keeps documents indexed. */
  lemma FilterKeepsIndexed(docs: seq<Document>, p: Document -> bool)
    requires Indexed(docs)
    ensures Indexed(Filter(docs, p))
  {
    FilterKeepsIncreasing(docs, p, DocumentKey);
  }

  lemma LoadedDocumentsIndexed(documentType: string, data: map<string, seq<seq<Value>>>,
                               sheet: Option<seq<seq<Value>>>, clean: Value -> string)
    requires LoadUnchecked(documentType, data, sheet, clean).Ok?
    ensures Indexed(Filter(LoadUnchecked(documentType, data, sheet, clean).value, HasText))
  {
    var f := LoadFrame(documentType, data, sheet).value;
    assert LoadUnchecked(documentType, data, sheet, clean) == Shape(f, clean);
    ShapedIndexed(f, clean);
    FilterKeepsIndexed(Shape(f, clean).value, HasText);
  }

  lemma IndexedDistinct(docs: seq<Document>)
    requires Indexed(docs)
    ensures HasIndices(docs) && DistinctIndices(docs)
    ensures forall j :: 0 <= j < |docs| ==> docs[j].metadata[DM.GoogleIndex].Int?
  {
    forall i, j | 0 <= i < j < |docs|
      ensures docs[i].metadata[DM.GoogleIndex] != docs[j].metadata[DM.GoogleIndex]
    {
      assert DocumentKey(docs[i]) < DocumentKey(docs[j]);
    }
  }

  /** The chunks `split_documents` returns, as the chunker module states
      them. */
  function Chunks(docs: seq<Document>, splitText: string -> seq<string>): (r: seq<Document>)
    requires HasIndices(Split(docs, splitText))
    ensures |r| == |Split(docs, splitText)|
  {
    var c := Split(docs, splitText);
    seq(|c|, k requires 0 <= k < |c| => Stamp(c[k], Nth(Indices(c), k)))
  }

  /** Every chunk of loaded documents carries an integer `google_index`,
      that of its position in the index sequence, and its number. */
  lemma ChunkKeys(docs: seq<Document>, splitText: string -> seq<string>)
    requires Indexed(docs)
    ensures HasIndices(Split(docs, splitText))
    ensures var g := Indices(Split(docs, splitText));
            var chunks := Chunks(docs, splitText);
            forall k :: 0 <= k < |chunks| ==>
              && HasIdKeys(chunks[k])
              && chunks[k].metadata[DM.GoogleIndex] == g[k] && g[k].Int?
              && chunks[k].metadata[DM.NthChunk] == Int(Nth(g, k))
  {
    SplitIndicesFromDocuments(docs, splitText);
    var c := Split(docs, splitText);
    var chunks := Chunks(docs, splitText);
    var g := Indices(c);
    forall k | 0 <= k < |chunks|
      ensures HasIdKeys(chunks[k]) && chunks[k].metadata[DM.GoogleIndex] == g[k] && g[k].Int?
      ensures chunks[k].metadata[DM.NthChunk] == Int(Nth(g, k))
    {
      StampKeepsOtherKeys(c[k], Nth(g, k));
      var m :| 0 <= m < |docs| && c[k].metadata[DM.GoogleIndex] == docs[m].metadata[DM.GoogleIndex];
    }
  }

  /** Chunks of loaded documents all carry both id keys, and their ids are
      pairwise distinct. */
  lemma IngestedIdsDistinct(docs: seq<Document>, splitText: string -> seq<string>)
    requires Indexed(docs)
    ensures HasIndices(Split(docs, splitText))
    ensures AllHaveIdKeys(Chunks(docs, splitText))
    ensures var ids := Ids(Chunks(docs, splitText));
            forall i, j :: 0 <= i < j < |ids| ==> ids[i] != ids[j]
  {
    IndexedDistinct(docs);
    SplitChunkPairsDistinct(docs, splitText);
    ChunkKeys(docs, splitText);
    var g := Indices(Split(docs, splitText));
    var chunks := Chunks(docs, splitText);
    var ids := Ids(chunks);
    forall i, j | 0 <= i < j < |ids| ensures ids[i] != ids[j] {
      ChunkIdInjective(chunks[i], chunks[j]);
      assert g[i] != g[j] || Nth(g, i) != Nth(g, j);
    }
  }

  /** `create_vector_store` after authorisation: load, split, add.  When
      it succeeds with a count, the index holds exactly that many chunks;
      when loading fails, the index is untouched. */
  method CreateVectorStore(store: Store, documentType: string, data: map<string, seq<seq<Value>>>,
                           sheet: Option<seq<seq<Value>>>, clean: Value -> string,
                           splitText: string -> seq<string>, model: Option<string>,
                           embed: string -> seq<real>)
    returns (after: Store, r: Result<Option<nat>, Error>)
    ensures LoadUnchecked(documentType, data, sheet, clean).Err? ==> after == store && r.Err?
    ensures r.Ok? && r.value.Some? ==> |after.chunks| == r.value.value
    ensures r == Ok(None) ==> after == store
  {
    var loaded := Load(documentType, data, sheet, clean);
    if loaded.Err? {
      return store, Err(loaded.error);
    }
    var docs := loaded.value;
    LoadedDocumentsIndexed(documentType, data, sheet, clean);
    assert Indexed(docs);
    IngestedIdsDistinct(docs, splitText);
    var split := SplitDocuments(docs, splitText);
    var chunks := split.value;
    assert chunks == Chunks(docs, splitText);
    DistinctCount(Ids(chunks));
    after, r := AddDocuments(store, chunks, model, embed);
  }
}
