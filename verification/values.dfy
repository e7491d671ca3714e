/** Python values as they appear in spreadsheet cells and document metadata,
    and the metadata keys of utils/constants.py. */
module Values {
  import opened Strings

  /** A cell or metadata value: a string, an integer, or a missing value
      (`None`/`NaN`, which the modelled code treats alike). */
  datatype Value = Str(s: string) | Int(i: int) | Null

  /** Python truthiness: the empty string, zero and `None` are false. */
  predicate Truthy(v: Value) {
    match v
    case Str(s) => s != ""
    case Int(i) => i != 0
    case Null => false
  }

  /** `str(v)`, as an f-string renders it. */
  function Show(v: Value): string {
    match v
    case Str(s) => s
    case Int(i) => IntToString(i)
    case Null => "None"
  }

  /** A document's metadata dictionary. */
  type Metadata = map<string, Value>

  /** A LangChain document: its text and its metadata. */
  datatype Document = Document(pageContent: string, metadata: Metadata)
}

/** The metadata keys (utils/constants.py). */
module DocumentMetadata {
  const GoogleIndex: string := "google_index"
  const Category: string := "category"
  const Subcategory: string := "subcategory"
  const Slug: string := "slug"
  const Parent: string := "parent"
  const Question: string := "question"
  const Answer: string := "answer"
  const EmbeddingModel: string := "embedding_model"
  const NthChunk: string := "nth_chunk"

  /** The attribute names the class defines, with their values. */
  const Attributes: map<string, string> := map[
    "GOOGLE_INDEX" := GoogleIndex, "CATEGORY" := Category, "SUBCATEGORY" := Subcategory,
    "SLUG" := Slug, "PARENT" := Parent, "QUESTION" := Question, "ANSWER" := Answer,
    "EMBEDDING_MODEL" := EmbeddingModel, "NTH_CHUNK" := NthChunk]
}
