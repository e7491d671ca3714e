/** utils/vector_store.py: the index name derived from a sheet id, the
    embedder and client factories, and `add_documents`, which replaces the
    whole content of an index by a new batch of chunks.  The index service is
    the value `Store`: the chunks it holds by id, and a generation counter
    that a delete-and-recreate advances.  Embedding is the parameter
    `embed`. */
module VectorStore {
  import opened Results
  import opened Strings
  import opened Values
  import opened Seqs
  import DM = DocumentMetadata

  const MaxIdLength: nat := 128

  /** The characters the index-name pattern `[a-z0-9-]` keeps. */
  predicate IsIdChar(c: char) {
    IsLowerLetter(c) || IsDigit(c) || c == '-'
  }

  /** `googleid_to_vectorstoreid`: lower-case, drop every character outside
      `[a-z0-9-]`, keep at most the first 128. */
  function GoogleIdToVectorStoreId(googleId: string): (r: string)
    ensures |r| <= MaxIdLength
    ensures forall i :: 0 <= i < |r| ==> IsIdChar(r[i])
    ensures |r| == if Count(Lower(googleId), IsIdChar) < MaxIdLength
                   then Count(Lower(googleId), IsIdChar) else MaxIdLength
  {
    var kept := Filter(Lower(googleId), IsIdChar);
    FilterLength(Lower(googleId), IsIdChar);
    if |kept| <= MaxIdLength then kept else kept[..MaxIdLength]
  }

  /** The index name keeps the kept characters of the lower-cased id in
      their input order: it is a subsequence of the lower-cased id, it is
      the whole filtered id whenever that fits in 128 characters, and its
      first 128 characters otherwise. */
  lemma VectorStoreIdIsOrderedSelection(googleId: string)
    ensures IsSubsequence(GoogleIdToVectorStoreId(googleId), Lower(googleId))
    ensures Count(Lower(googleId), IsIdChar) <= MaxIdLength ==>
              GoogleIdToVectorStoreId(googleId) == Filter(Lower(googleId), IsIdChar)
    ensures Count(Lower(googleId), IsIdChar) > MaxIdLength ==>
              GoogleIdToVectorStoreId(googleId) == Filter(Lower(googleId), IsIdChar)[..MaxIdLength]
  {
    var kept := Filter(Lower(googleId), IsIdChar);
    FilterLength(Lower(googleId), IsIdChar);
    SubsequenceOfPrefix(kept, Lower(googleId), if |kept| <= MaxIdLength then |kept| else MaxIdLength);
    assert kept[..|kept|] == kept;
  }

  /** Normalising an index name again changes nothing. */
  lemma VectorStoreIdIdempotent(googleId: string)
    ensures GoogleIdToVectorStoreId(GoogleIdToVectorStoreId(googleId)) == GoogleIdToVectorStoreId(googleId)
  {
    var r := GoogleIdToVectorStoreId(googleId);
    assert Lower(r) == r;
    FilterKeepsAll(r, IsIdChar);
  }

  /** Spaces, underscores and punctuation are dropped, letters lower-cased. */
  lemma VectorStoreIdExample()
    ensures GoogleIdToVectorStoreId("Ab_C") == "abc"
  {
    assert Lower("Ab_C") == "ab_c";
  }

  const DefaultHuggingFaceModel: string := "sentence-transformers/all-mpnet-base-v2"

  datatype Embedder =
    | AzureOpenAIEmbedder(deployment: Option<string>)
    | HuggingFaceEmbedder(modelName: string)

  /** `_set_embedder`: the source is compared case-insensitively; a missing
      source fails on `.lower()`; Hugging Face falls back to its default
      model.  Also yields the embedding model recorded on every chunk. */
  function SetEmbedder(source: Option<string>, model: Option<string>): (r: Result<(Embedder, Option<string>), Error>)
    ensures source.None? ==> r == Err(NotText)
    ensures source.Some? && Lower(source.value) != "openai" && Lower(source.value) != "huggingface" ==>
              r == Err(Http(500))
    ensures r.Ok? ==> source.Some? && (r.value.0.AzureOpenAIEmbedder? <==> Lower(source.value) == "openai")
    ensures r.Ok? && r.value.0.AzureOpenAIEmbedder? ==> r.value.1 == model == r.value.0.deployment
    ensures r.Ok? && r.value.0.HuggingFaceEmbedder? ==>
              r.value.1 == Some(r.value.0.modelName)
              && r.value.0.modelName == (if model.Some? then model.value else DefaultHuggingFaceModel)
  {
    match source
    case None => Err(NotText)
    case Some(s) =>
      if Lower(s) == "openai" then Ok((AzureOpenAIEmbedder(model), model))
      else if Lower(s) == "huggingface" then
        var m := if model.Some? then model.value else DefaultHuggingFaceModel;
        Ok((HuggingFaceEmbedder(m), Some(m)))
      else Err(Http(500))
  }

  datatype Client =
    | ChromaClient(path: string)
    | AzureSearchClient(endpoint: string, indexName: string)

  /** `_set_client`: `chroma` or `azuresearch`, case-insensitively. */
  function SetClient(service: string, path: string, storeId: string): (r: Result<Client, Error>)
    ensures r.Ok? <==> Lower(service) == "chroma" || Lower(service) == "azuresearch"
    ensures r.Err? ==> r.error == Http(500)
    ensures r.Ok? ==> (r.value.ChromaClient? <==> Lower(service) == "chroma")
    ensures r.Ok? && r.value.AzureSearchClient? ==> r.value.indexName == storeId
  {
    if Lower(service) == "chroma" then Ok(ChromaClient(path))
    else if Lower(service) == "azuresearch" then Ok(AzureSearchClient(path, storeId))
    else Err(Http(500))
  }

  lemma DispatchIgnoresCase(source: string, model: Option<string>, service: string, path: string, storeId: string)
    ensures SetEmbedder(Some(source), model) == SetEmbedder(Some(Lower(source)), model)
    ensures SetClient(service, path, storeId) == SetClient(Lower(service), path, storeId)
  {
    LowerIdempotent(source);
    LowerIdempotent(service);
  }

  /** A constructed vector store. */
  datatype VectorStoreHandle = VectorStoreHandle(
    storeId: string, embedder: Embedder, embeddingModel: Option<string>, client: Client)

  /** The constructor: embedder, then client, then the LangChain client
      (whose service dispatch repeats the client's).  `serviceFails` stands
      for a remote client that raises while connecting. */
  function NewVectorStore(path: string, service: string, source: Option<string>, model: Option<string>,
                          storeId: string, serviceFails: bool): (r: Result<VectorStoreHandle, Error>)
    ensures r.Ok? ==> SetEmbedder(source, model).Ok? && SetClient(service, path, storeId).Ok? && !serviceFails
    ensures SetEmbedder(source, model).Err? ==> r == Err(SetEmbedder(source, model).error)
    ensures SetEmbedder(source, model).Ok? && SetClient(service, path, storeId).Err? ==> r == Err(Http(500))
    ensures SetEmbedder(source, model).Ok? && SetClient(service, path, storeId).Ok? ==>
              (r.Ok? <==> !serviceFails) && (serviceFails ==> r == Err(ServiceFailed))
    ensures r.Ok? ==> r.value.storeId == storeId && r.value.embeddingModel == SetEmbedder(source, model).value.1
  {
    var (embedder, embeddingModel) :- SetEmbedder(source, model);
    var client :- SetClient(service, path, storeId);
    if serviceFails then Err(ServiceFailed) else Ok(VectorStoreHandle(storeId, embedder, embeddingModel, client))
  }

  /** `get_vector_store`: an Azure Search store configured from the
      environment; every failure, a missing variable included, becomes a
      400. */
  function GetVectorStore(vectorStoreId: string, env: map<string, string>, serviceFails: bool): (r: Result<VectorStoreHandle, Error>)
    ensures r.Err? ==> r.error == Http(400)
    ensures r.Ok? <==> "VECTOR_STORE_ADDRESS" in env && "VECTOR_STORE_PASSWORD" in env
                       && "MODEL_EMBEDDINGS" in env && !serviceFails
    ensures r.Ok? ==> r.value.storeId == vectorStoreId
                      && r.value.client == AzureSearchClient(env["VECTOR_STORE_ADDRESS"], vectorStoreId)
                      && r.value.embedder == AzureOpenAIEmbedder(Some(env["MODEL_EMBEDDINGS"]))
  {
    if "VECTOR_STORE_ADDRESS" !in env || "VECTOR_STORE_PASSWORD" !in env || "MODEL_EMBEDDINGS" !in env then
      Err(Http(400))
    else
      match NewVectorStore(env["VECTOR_STORE_ADDRESS"], "azuresearch", Some("OpenAI"),
                           Some(env["MODEL_EMBEDDINGS"]), vectorStoreId, serviceFails)
      case Ok(v) => Ok(v)
      case Err(_) => Err(Http(400))
  }

  function ModelValue(model: Option<string>): Value {
    match model
    case Some(m) => Str(m)
    case None => Null
  }

  /** `_add_embedding_model_to_metadata`: copies of the dictionaries, each
      with the `embedding_model` key set and every other key as before. */
  function WithEmbeddingModel(metadatas: seq<Metadata>, model: Option<string>): (r: seq<Metadata>)
    ensures |r| == |metadatas|
    ensures forall i :: 0 <= i < |r| ==>
              && r[i].Keys == metadatas[i].Keys + {DM.EmbeddingModel}
              && r[i][DM.EmbeddingModel] == ModelValue(model)
              && (forall key :: key in metadatas[i] && key != DM.EmbeddingModel ==> r[i][key] == metadatas[i][key])
  {
    seq(|metadatas|, i requires 0 <= i < |metadatas| => metadatas[i][DM.EmbeddingModel := ModelValue(model)])
  }

  predicate HasIdKeys(d: Document) {
    DM.GoogleIndex in d.metadata && DM.NthChunk in d.metadata
  }

  /** The id a chunk is stored under: `"{google_index}_{nth_chunk}"`. */
  function ChunkId(d: Document): string
    requires HasIdKeys(d)
  {
    Show(d.metadata[DM.GoogleIndex]) + "_" + Show(d.metadata[DM.NthChunk])
  }

  /** A chunk as the index holds it. */
  datatype StoredChunk = StoredChunk(text: string, metadata: Metadata, embedding: seq<real>)

  /** One index: the chunks by id, and how often it was deleted and
      recreated. */
  datatype Store = Store(chunks: map<string, StoredChunk>, generation: nat)

  function Entry(d: Document, model: Option<string>, embed: string -> seq<real>): StoredChunk {
    StoredChunk(d.pageContent, d.metadata[DM.EmbeddingModel := ModelValue(model)], embed(d.pageContent))
  }

  /** `add_texts`: each text is embedded and written under its id; a later
      write to the same id replaces the earlier one. */
  method Upsert(chunks: map<string, StoredChunk>, texts: seq<string>, metadatas: seq<Metadata>,
                ids: seq<string>, embed: string -> seq<real>) returns (result: map<string, StoredChunk>)
    requires |texts| == |metadatas| == |ids|
    ensures result.Keys == chunks.Keys + (set i | 0 <= i < |ids| :: ids[i])
    ensures forall id :: id in chunks && (forall i :: 0 <= i < |ids| ==> ids[i] != id) ==> result[id] == chunks[id]
    ensures forall i :: 0 <= i < |ids| && (forall j :: i < j < |ids| ==> ids[j] != ids[i]) ==>
              result[ids[i]] == StoredChunk(texts[i], metadatas[i], embed(texts[i]))
  {
    result := chunks;
    var n := 0;
    while n < |ids|
      invariant 0 <= n <= |ids|
      invariant result.Keys == chunks.Keys + (set i | 0 <= i < n :: ids[i])
      invariant forall id :: id in chunks && (forall i :: 0 <= i < n ==> ids[i] != id) ==> result[id] == chunks[id]
      invariant forall i :: 0 <= i < n && (forall j :: i < j < n ==> ids[j] != ids[i]) ==>
                  result[ids[i]] == StoredChunk(texts[i], metadatas[i], embed(texts[i]))
    {
      result := result[ids[n] := StoredChunk(texts[n], metadatas[n], embed(texts[n]))];
      n := n + 1;
    }
  }

  predicate AllHaveIdKeys(docs: seq<Document>) {
    forall k :: 0 <= k < |docs| ==> HasIdKeys(docs[k])
  }

  /** The ids of a batch, in batch order. */
  function Ids(docs: seq<Document>): (r: seq<string>)
    requires AllHaveIdKeys(docs)
    ensures |r| == |docs|
  {
    seq(|docs|, k requires 0 <= k < |docs| => ChunkId(docs[k]))
  }

  /** The loop of `add_documents` that reads every chunk's id: KeyError on
      the first chunk without `google_index` or `nth_chunk`. */
  method CollectIds(docs: seq<Document>) returns (r: Result<seq<string>, Error>)
    ensures r.Ok? <==> AllHaveIdKeys(docs)
    ensures r.Ok? ==> r.value == Ids(docs)
    ensures r.Err? ==> r.error == MissingKey(DM.GoogleIndex) || r.error == MissingKey(DM.NthChunk)
  {
    var ids: seq<string> := [];
    var i := 0;
    while i < |docs|
      invariant 0 <= i <= |docs|
      invariant forall k :: 0 <= k < i ==> HasIdKeys(docs[k])
      invariant ids == Ids(docs[..i])
    {
      var d := docs[i];
      if DM.GoogleIndex !in d.metadata {
        return Err(MissingKey(DM.GoogleIndex));
      }
      if DM.NthChunk !in d.metadata {
        return Err(MissingKey(DM.NthChunk));
      }
      ids := ids + [ChunkId(d)];
      i := i + 1;
    }
    assert docs[..i] == docs;
    return Ok(ids);
  }

  /** `add_documents`.  An empty batch touches nothing and returns `None`.
      Otherwise a non-empty index is deleted and recreated first, then every
      chunk is written under its id with the embedding model added to its
      metadata, and the batch size is returned: afterwards the index holds
      exactly the batch's ids, whatever it held before, and each id holds
      the last chunk of the batch written under it.  A chunk without
      `google_index` or `nth_chunk` raises KeyError after the index was
      already emptied. */
  method AddDocuments(store: Store, docs: seq<Document>, model: Option<string>, embed: string -> seq<real>)
    returns (after: Store, r: Result<Option<nat>, Error>)
    ensures |docs| == 0 ==> after == store && r == Ok(None)
    ensures |docs| > 0 ==> after.generation == store.generation + (if |store.chunks| > 0 then 1 else 0)
    ensures |docs| > 0 && !AllHaveIdKeys(docs) ==> r.Err? && after.chunks == map[]
    ensures |docs| > 0 && AllHaveIdKeys(docs) ==>
              && r == Ok(Some(|docs|))
              && after.chunks.Keys == (set id | id in Ids(docs))
              && (forall i :: 0 <= i < |docs| && (forall j :: i < j < |docs| ==> Ids(docs)[j] != Ids(docs)[i]) ==>
                    after.chunks[Ids(docs)[i]] == Entry(docs[i], model, embed))
  {
    if |docs| == 0 {
      return store, Ok(None);
    }
    after := store;
    if |store.chunks| > 0 {
      after := Store(map[], store.generation + 1);
    }
    var collected := CollectIds(docs);
    if collected.Err? {
      return after, Err(collected.error);
    }
    var ids := collected.value;
    var texts := seq(|docs|, k requires 0 <= k < |docs| => docs[k].pageContent);
    var metadatas := WithEmbeddingModel(seq(|docs|, k requires 0 <= k < |docs| => docs[k].metadata), model);
    var chunks := Upsert(after.chunks, texts, metadatas, ids, embed);
    assert (set k | 0 <= k < |ids| :: ids[k]) == (set id | id in ids);
    after := after.(chunks := chunks);
    return after, Ok(Some(|docs|));
  }

  lemma SplitAtSeparator(a: string, b: string, c: string, d: string)
    requires '_' !in a && '_' !in c
    requires a + "_" + b == c + "_" + d
    ensures a == c && b == d
  {
    var s := a + "_" + b;
    assert s[|a|] == '_' && forall k :: 0 <= k < |a| ==> s[k] == a[k];
    assert s[|c|] == '_' && forall k :: 0 <= k < |c| ==> s[k] == c[k];
    assert |a| == |c|;
    assert a == s[..|a|] && c == s[..|c|];
    assert b == s[|a| + 1..] && d == s[|c| + 1..];
  }

  lemma IntToStringHasNoSeparator(i: int)
    ensures '_' !in IntToString(i)
  {
    var s := IntToString(i);
    if i < 0 {
      assert forall k :: 1 <= k < |s| ==> s[k] == NatToString(-i)[k - 1];
    }
  }

  /** Chunks whose `google_index` and `nth_chunk` are integers get different
      ids exactly when their pairs differ. */
  lemma ChunkIdInjective(d: Document, e: Document)
    requires HasIdKeys(d) && HasIdKeys(e)
    requires d.metadata[DM.GoogleIndex].Int? && d.metadata[DM.NthChunk].Int?
    requires e.metadata[DM.GoogleIndex].Int? && e.metadata[DM.NthChunk].Int?
    ensures ChunkId(d) == ChunkId(e) <==>
              d.metadata[DM.GoogleIndex] == e.metadata[DM.GoogleIndex]
              && d.metadata[DM.NthChunk] == e.metadata[DM.NthChunk]
  {
    var a := d.metadata[DM.GoogleIndex].i;
    var b := d.metadata[DM.NthChunk].i;
    var c := e.metadata[DM.GoogleIndex].i;
    var f := e.metadata[DM.NthChunk].i;
    if ChunkId(d) == ChunkId(e) {
      IntToStringHasNoSeparator(a);
      IntToStringHasNoSeparator(c);
      SplitAtSeparator(IntToString(a), IntToString(b), IntToString(c), IntToString(f));
      IntToStringRoundTrip(a);
      IntToStringRoundTrip(c);
      IntToStringRoundTrip(b);
      IntToStringRoundTrip(f);
    }
  }
}
