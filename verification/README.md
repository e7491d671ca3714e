# hia-search core, modelled in Dafny

This project models the data-processing core of hia-search, the retrieval-augmented FAQ search and chat service of the Humanitarian Information Assistant (HIA). The model covers:

- **Ingestion.** An HIA sheet is loaded into FAQ documents (`DocumentLoader`). The documents are split into chunks numbered per `google_index` (`DocumentChunker`). The chunks replace the whole content of the tenant's index (`VectorStore`, and the pipeline in `Ingestion`).
- **Search.** The scored chunks of a query are turned into parent/child FAQ results and merged by `google_index` (`Search`).
- **Chat.** The three-node agent graph (`RagAgent`). It uses the tool-bound model in `query_or_respond` and the plain model in `generate`, and slices the history for `generate`.
- **System prompt.** Its resolution from the `Chat` sheet or from JSON values (`PromptLoader`).
- **Groundedness.** Redaction of the answer passages that a groundedness service flags (`Groundedness`).

Helper modules:

- `Results`: `Option`, `Result`, and the Python exceptions as `Error` values.
- `Strings`: ASCII `lower`, substring tests, `join`, `strip` (with Python's whitespace set), and integer printing and parsing.
- `Values`: cell and metadata values, truthiness, documents, and the metadata keys.
- `Seqs`: order-preserving selection, i.e. list comprehensions with a condition.
- `Tables`: header-plus-rows frames.

Everything outside the program is a parameter of the model:

- the language model, the embedder and the text splitter;
- the similarity search;
- the cleaning functions;
- the sheet download;
- the responses of remote services.

The index service is the value `VectorStore.Store`. It holds the chunks by id and counts delete-and-recreate cycles.

Where the code and the documented intent of the repository differ, the model follows the code:

- **Merging search results.** The dictionary comprehension at routes/search.py:174 keeps the *last* result of each `google_index`, at the position where that key *first* occurs. A plain hit carries its own chunk's score, not the best score among the record's chunks.
- **Children per chunk.** The rows table is built from every stored chunk. A child record split into several chunks is therefore listed several times among its parent's children (`Search.SplitRecordListedTwice`).
- **Index names.** The search route opens the index named by the raw sheet id, not by the normalised name that every other route uses (see Findings).
- **Column markers.** Markers are matched by substring. The `#CATEGORY` marker still cannot match a `#SUBCATEGORY` label, because that label does not contain the marker (`DocumentLoader.CategoryMarkerNotInSubcategoryLabel`).

## Model

| member | source | states |
|---|---|---|
| Tables.FrameFromJson | utils/document_loader.py:49-58 | Empty (falsy) data is exactly the 400 case. Otherwise the frame exists iff `values` is present with at least one row. Its header is the first row, and its data rows are the remaining ones, in order, indexed from 1. |
| Tables.FrameFromCsv | utils/document_loader.py:44-48 | A failed sheet fetch is an error. A fetched export gives a frame iff it has a header line. Every column label is text, read from the header line as `CsvLabel` states. The data rows are the remaining lines, in order, indexed from 0. |
| Tables.CsvLabel | utils/document_loader.py:48 | `read_csv` always gives a non-empty text label. A non-empty text cell is kept, a number reads as its digits, and an empty header cell `c` is named `Unnamed: c`. |
| Tables.ColumnNamed | utils/prompt_loader.py:57-59 | Selecting a column by label finds the first column labelled exactly so. When there is none, no column has that label. |
| DocumentLoader.CategoryMarkerNotInSubcategoryLabel | utils/document_loader.py:68-69 | The `#CATEGORY` marker does not occur in the label `#SUBCATEGORY`, but does occur in any label that contains it literally. |
| DocumentLoader.FindColumn | utils/document_loader.py:68-74 | `next(c for c in columns if marker in c)`: the result is the first string label that contains the marker. Every label before it is a string without the marker. StopIteration happens exactly when every label is a string without the marker. A non-string label met before a match is a type error. |
| DocumentLoader.ResolveColumns | utils/document_loader.py:66-76 | Every canonical field gets the column that its marker search finds. If a marker search fails, the rename fails with the error of the first failing search in the order of the mapping, because every earlier search succeeded. |
| DocumentLoader.FailsFirstAfterOk | utils/document_loader.py:67-75 | A successful first evaluation followed by a first failure in the rest is a first failure of the whole left-to-right evaluation, one position later. |
| DocumentLoader.FirstShadowed | utils/document_loader.py:66-77 | Reading a list of fields after the rename succeeds iff none of them lost its column to a later entry of the rename mapping. Otherwise the first such field in reading order raises KeyError. |
| DocumentLoader.IndexedRows | utils/document_loader.py:64 | Every data row keeps its frame position as `google_index`. |
| DocumentLoader.JsonRowsIndexedFromOne | utils/document_loader.py:55-64 | For JSON input, data row `k` is payload row `k + 1` and carries `google_index` `k + 1`. The header row never becomes data. |
| DocumentLoader.PreCleanText | utils/document_loader.py:84 | Two strings give `question + " " + answer`. A string result needs both operands to be strings. A number operand raises TypeError, and a missing operand gives a missing text. |
| DocumentLoader.QuestionsAreText | utils/document_loader.py:84 | `df[question] + " "` fails with TypeError iff some shown question is a number. It is evaluated before the answer column is read. |
| DocumentLoader.CheckTexts | utils/document_loader.py:84-100 | The text column is computed for every shown row before any row is dropped. It fails iff some shown row's text fails. |
| DocumentLoader.ToInt | utils/document_loader.py:104-105 | `astype(int)` keeps integers. A string converts iff it parses as a decimal integer. Anything else is a ValueError. |
| DocumentLoader.ToDocument | utils/document_loader.py:103-120 | A kept row becomes a document with exactly the seven metadata keys. `google_index` is the row's frame index, slug/parent/question/answer are the row's cells, and the categories are integers. The content is the cleaned pre-clean text. The document exists iff both categories convert. |
| DocumentLoader.ToDocuments | utils/document_loader.py:104-120 | One document per row, in order. Fails iff some row's conversion fails. |
| DocumentLoader.KeptRowsIncrease | utils/document_loader.py:64-103 | After the visibility filter and the category `dropna`, `google_index` still strictly increases along the rows. |
| DocumentLoader.ShownRowsWithCategoriesKept | utils/document_loader.py:77-103 | Every row that is not hidden and has both categories is kept. |
| DocumentLoader.ShapedDocuments | utils/document_loader.py:64-120 | A successful load yields one document per kept row, in frame order. Each document has exactly the seven keys, the row's own index as `google_index` (strictly increasing, hence distinct), and the cleaned text as content. |
| DocumentLoader.ShapeErrors | utils/document_loader.py:64-117 | A failed marker search is the error of the whole load. A successful load had every column resolved, and no field lost its column in the rename. |
| DocumentLoader.ConversionFailsBeforeProjection | utils/document_loader.py:103-117 | When the columns read for the text and for `dropna` are present and the text column builds, a failed integer conversion is the load's ValueError. It is raised before the projection onto the output columns can fail. |
| DocumentLoader.QuestionTypeErrorBeforeAnswerRead | utils/document_loader.py:77-84 | When the visibility and question columns are present, a number among the shown questions makes the load raise TypeError, even if the answer column is missing. |
| DocumentLoader.TextsHaveTextQuestions | utils/document_loader.py:84 | A text column that builds has no number among its questions. |
| DocumentLoader.LoadFrame | utils/document_loader.py:44-63 | An unknown document type is a 500. The Google-Sheet type reads the fetched export as `FrameFromCsv` states, and the JSON type reads the payload as `FrameFromJson` states. |
| DocumentLoader.CheckEmptiness | utils/document_loader.py:123-135 | The countdown loop reports a document as empty exactly when its content has no three consecutive letters. The empty string counts as empty. |
| Strings.IsAlpha | utils/document_loader.py:129 | A letter is neither a digit nor whitespace, and lower-cases to a lower-case letter. |
| DocumentLoader.KeepIfText | utils/document_loader.py:146-153 | One document through the check is appended iff it has text. |
| DocumentLoader.ValidateLoading | utils/document_loader.py:137-160 | The result is exactly the documents with text, in input order: an order-preserving subsequence that contains every document with text and nothing else. |
| DocumentLoader.Load | utils/document_loader.py:162-170 | Loading fails exactly when building the documents fails. Otherwise it returns the documents with text. |
| DocumentChunker.SetChunker | utils/document_chunker.py:42-69 | The strategy is matched case-insensitively. Any name other than the two splitters is NotImplementedError. `chunk_size` and `chunk_overlap` are required, in that order. The separator and pipeline default to `"\n\n"` and `en_core_web_sm`. |
| DocumentChunker.SetChunkerIgnoresCase | utils/document_chunker.py:47-56 | Strategy names that differ only in letter case configure the same splitter. |
| DocumentChunker.NthIsRunLength | utils/document_chunker.py:94-115 | The number the loop gives a chunk is the length of the run of equal indices directly before it, reading from the initial `None`. |
| DocumentChunker.NthCountsSameIndexPredecessors | utils/document_chunker.py:99-105 | For an index that is not `None`, `nth_chunk` counts the directly preceding chunks with the same index. The chunk before that run has another index. |
| DocumentChunker.FirstChunkNumber | utils/document_chunker.py:95-105 | The first chunk is numbered 0, or 1 when its index is `None`, because it equals the loop's initial value. |
| DocumentChunker.StampKeepsOtherKeys | utils/document_chunker.py:107-113 | A stamped chunk keeps its text. Its metadata gains `nth_chunk`, and every other key keeps its value. |
| DocumentChunker.AddChunkMetadata | utils/document_chunker.py:89-117 | One chunk out per chunk in, in the same order, with the same text. The metadata is a copy plus `nth_chunk`, numbered by the run counter. A chunk without `google_index` raises KeyError. |
| DocumentChunker.ContiguousNumbering | utils/document_chunker.py:99-105 | In a grouped sequence without `None`, a later chunk with the same index is numbered exactly its distance further on. |
| DocumentChunker.ContiguousPairsDistinct | utils/document_chunker.py:94-115 | If every index forms one contiguous block, all `(google_index, nth_chunk)` pairs are distinct. |
| DocumentChunker.NonContiguousRepeatCollides | utils/document_chunker.py:101-105 | A repeat that is not adjacent restarts at 0, so two chunks with one index can share a number. |
| DocumentChunker.SplitIndicesFromDocuments | utils/document_chunker.py:124 | Each chunk's `google_index` is the index of some input document. |
| DocumentChunker.Pieces | utils/document_chunker.py:124 | One document is split into one chunk per piece of its text, in order. Each chunk holds its piece and a copy of the document's metadata. |
| DocumentChunker.SplitAppend | utils/document_chunker.py:124 | Splitting a list of documents splits each on its own: splitting a concatenation concatenates the splits. |
| DocumentChunker.SplitIsContiguous | utils/document_chunker.py:124 | Documents with distinct indices split into a sequence where each index forms one contiguous block. |
| DocumentChunker.SplitDocuments | utils/document_chunker.py:119-125 | `split_documents` is the chunk numbering applied to the splitter's output. |
| DocumentChunker.SplitChunkPairsDistinct | utils/document_chunker.py:119-125 | Documents with distinct, non-`None` indices yield chunks whose `(google_index, nth_chunk)` pairs are pairwise distinct. |
| VectorStore.GoogleIdToVectorStoreId | utils/vector_store.py:39-50 | The index name uses only `a-z`, `0-9` and `-`. Its length is the number of such characters in the lower-cased id, capped at 128. |
| VectorStore.VectorStoreIdIsOrderedSelection | utils/vector_store.py:48-50 | The name is a subsequence of the lower-cased id. When the kept characters fit in 128, it is all of them in input order. Otherwise it is the first 128 of them. |
| VectorStore.VectorStoreIdIdempotent | utils/vector_store.py:39-50 | Normalising an index name again changes nothing. |
| VectorStore.VectorStoreIdExample | utils/vector_store.py:48-49 | `"Ab_C"` becomes `"abc"`: upper case is lowered and the underscore is dropped. |
| VectorStore.SetEmbedder | utils/vector_store.py:81-100 | The source is matched case-insensitively. `openai` gives an Azure embedder deploying the given model. `huggingface` falls back to the default model. Anything else is a 500, and a missing source fails on `.lower()`. |
| VectorStore.SetClient | utils/vector_store.py:156-170 | Only `chroma` and `azuresearch` (any case) give a client, and anything else is a 500. The Azure client uses the store id as its index name. |
| VectorStore.DispatchIgnoresCase | utils/vector_store.py:85-91 | Embedder and client selection do not depend on the letter case of the names. |
| VectorStore.NewVectorStore | utils/vector_store.py:62-79 | Construction succeeds exactly when both factories succeed and the service does. An embedder error is passed on unchanged, and a client error after a good embedder is the 500 of `_set_client`. The store records its id and embedding model. |
| VectorStore.GetVectorStore | utils/vector_store.py:284-300 | Every failure, a missing environment variable included, is a 400. Success needs the three variables and a reachable service, and yields an Azure store on the given id with the configured embedding deployment. |
| VectorStore.WithEmbeddingModel | utils/vector_store.py:172-181 | There is one copy per metadata dictionary. Each copy has the original keys plus `embedding_model`, set to the model, and every other key keeps its value. |
| VectorStore.Upsert | utils/vector_store.py:248-250 | Afterwards the index holds its old ids plus the batch ids. Ids the batch does not write are untouched. Each written id holds the last batch entry for it. |
| VectorStore.CollectIds | utils/vector_store.py:241-246 | The ids are `"{google_index}_{nth_chunk}"`, aligned with the chunks. The loop fails with KeyError iff a chunk lacks either key. |
| VectorStore.AddDocuments | utils/vector_store.py:206-252 | An empty batch touches nothing and returns `None`. Otherwise a non-empty index is deleted and recreated first, the batch size is returned, and the index then holds exactly the batch's ids, each with its last chunk's text, metadata plus model, and embedding. A missing id key fails after the index was emptied. |
| VectorStore.ChunkIdInjective | utils/vector_store.py:244-246 | For integer keys, two chunks get the same id exactly when their `(google_index, nth_chunk)` pairs are equal. |
| Strings.IntToStringRoundTrip | utils/vector_store.py:245 | Printing an integer as the f-string does and parsing it back returns the integer. |
| Strings.Strip | utils/prompt_loader.py:61 | `str.strip()` removes exactly the leading and trailing Python whitespace. The result is a slice of the text that neither starts nor ends with whitespace, and everything cut off on either side is whitespace. An all-whitespace text strips to `""`. |
| Ingestion.LoadedDocumentsIndexed | routes/load.py:52-57 | Loaded documents carry an integer `google_index` that strictly increases along the list. |
| Ingestion.ChunkKeys | routes/load.py:59-63 | Every chunk of loaded documents carries both id keys, with an integer `google_index` and its run number. |
| Ingestion.IngestedIdsDistinct | routes/load.py:52-63 | The chunks built from loaded documents have pairwise distinct ids. |
| Ingestion.CreateVectorStore | routes/load.py:44-74 | A load failure leaves the index untouched. A reported count is the number of chunks the index then holds, so no two chunks overwrite each other. |
| Search.ScoreOf | routes/search.py:28-36 | The result is at least 0.0 and at least every score of a hit with that `google_index`. It is 0.0 or one of those scores. |
| Search.ToChild | routes/search.py:122-131 | A child entry copies the row's categories, question and answer. Its score is at least 0.0 and at least every score of a hit with the row's `google_index`. |
| Search.ChildrenOf | routes/search.py:119-135 | The children are exactly the stored rows whose parent is the slug, in storage order, each scored by its best hit. |
| Search.RowsWithSlug | routes/search.py:139-143 | The parent lookup returns exactly the stored rows with that slug, in storage order. It is non-empty iff such a row exists, and `parent[0]` is the first one. |
| Search.FirstRowWithSlug | routes/search.py:139-143 | The position found is the first stored row with that slug. None means no row has it. |
| Search.BuildResult | routes/search.py:103-169 | A child hit whose parent is stored becomes the first such parent, with the best score of the hit's index, the parent's children and the parent's `google_index`. Any other hit keeps its own fields, score and index. It has children iff it has a truthy slug and some stored row names it as parent, and they are exactly those rows. |
| Search.ChildHitBecomesParent | routes/search.py:137-169 | A child hit whose parent is stored becomes the result of the first stored row with that slug. It takes that row's fields, the best score of the hit's index, the row's `google_index` and all the row's children. The hit itself is among those children when it is stored. |
| Search.OrphanHitKept | routes/search.py:117-143 | A hit whose parent slug matches no stored row keeps its own fields, score and index. Its children are exactly the stored rows naming it as parent, attached iff it has a truthy slug and there are some. |
| Search.SplitRecordListedTwice | routes/search.py:96-101 | Because the rows are stored chunks, a child record stored as two chunks is listed twice among its parent's children. |
| Search.FirstBadHit | routes/search.py:103-141 | The first hit, in retrieval order, that selects a column of the empty rows table. |
| Search.BuildResults | routes/search.py:102-171 | There is one result per hit, in retrieval order, iff no hit selects a column of an empty rows table. Otherwise the first such hit's KeyError escapes. |
| Search.FirstKeys | routes/search.py:174 | The dictionary's keys are distinct and cover every result's `google_index`. |
| Search.FirstKeysFromResults | routes/search.py:174 | Every key is the `google_index` of some result. |
| Search.FirstKeysPrefix | routes/search.py:174 | Adding results never reorders keys already inserted. |
| Search.MergedProperties | routes/search.py:174 | Merging leaves exactly one result per `google_index`. Every input key is represented, every output is an input result, and the key order is first-occurrence order. |
| Search.Dedup | routes/search.py:174 | The dictionary comprehension computes the reference merge: the last result per key, in first-key order. |
| Search.ComposeResults | routes/search.py:102-177 | Composition fails iff building a result fails. Otherwise it returns at most one result per hit: the merged results, in order, with `google_index` dropped. |
| Search.DistinctKeysBound | routes/search.py:174 | There are never more merged results than results. |
| Search.SearchIndexAsWritten | routes/search.py:77 | As written, the search route passes the sheet id on unchanged, and every store it opens is the index with that exact name. |
| Search.SearchIndexMismatch | routes/search.py:77 | The sheet id `"Ab_C"` names a different index at search time from the one ingestion filled. |
| Search.SearchReadsIngestedIndex | routes/search.py:77 | With the id normalised, search opens the store that ingestion wrote, for every sheet id. |
| Search.KeyAttribute | utils/constants.py:1-15 | `dm.<name>` is defined exactly for the attribute names the metadata-key class declares. Any other name is AttributeError. |
| Search.BuildResultsAsWritten | routes/search.py:107-116 | As written, no hit gives no results. |
| Search.ResultKeysUndefined | routes/search.py:113-114 | As written, any search that retrieves a chunk fails on `dm.SCORE`, even where the intended loop succeeds. |
| RagAgent.SerializeSnoc | agents/rag_agent.py:43 | Each further retrieved document adds one blank line and its own `Document: ` entry. |
| RagAgent.Serialize | agents/rag_agent.py:43 | No document serialises to `""`. Otherwise the text starts with the first document's `Document: ` entry. |
| RagAgent.Retrieve | agents/rag_agent.py:39-44 | `retrieve` asks the search for 10 documents and returns them as the artifact. The content is their serialisation, as `Serialize` and `SerializeSnoc` state: `""` for no document, and `Document: <content>` for one. |
| RagAgent.QueryOrRespond | agents/rag_agent.py:48-54 | The model sees the agent prompt followed by the whole history, and exactly its reply is appended. |
| RagAgent.RunTools | agents/rag_agent.py:39-58 | The tool node keeps the history and appends one tool message per call of the last message, in call order. Each holds the serialised retrieval for that call's query. |
| RagAgent.RunStart | agents/rag_agent.py:66-71 | The backward walk stops at the first non-tool message. Everything after it is a tool message. |
| RagAgent.TrailingToolsFrom | agents/rag_agent.py:66-72 | The trailing run of tool messages is the unique suffix of tool messages preceded by a non-tool message. |
| RagAgent.RecentToolMessages | agents/rag_agent.py:65-72 | The backward loop and the reversal yield exactly the trailing run of tool messages, in history order. |
| RagAgent.Generate | agents/rag_agent.py:62-89 | The plain model sees one system message and then the conversation messages, and exactly its reply is appended. The system message is `GroundedPrompt` of the trailing tool messages. |
| RagAgent.GroundedPrompt | agents/rag_agent.py:73-76 | The system text starts with `prompt + ".\n\n"`. It is exactly that when nothing was retrieved, and that followed by the tool output when there is one tool message. |
| RagAgent.GeneratePromptExcludesTools | agents/rag_agent.py:79-84 | The conversation holds no tool message and no tool-calling AI message. It keeps every human, system and plain AI message, in history order. |
| RagAgent.GroundingIsThisTurn | agents/rag_agent.py:66-72 | Right after the tool node, the grounding is exactly this turn's tool output, one message per call. |
| RagAgent.Next | agents/rag_agent.py:98-105 | `query_or_respond` goes to `tools` iff its reply calls tools, and ends otherwise. `tools` goes to `generate`, and `generate` ends. |
| RagAgent.Run | agents/rag_agent.py:48-105 | One invocation only extends the history. Its first reply comes from the tool-bound model. A reply without tool calls ends after one step. A tool-calling reply runs three steps: it adds the reply, one tool message per call, and the answer the plain model gives to the prompt grounded in exactly those tool messages. |
| RagAgent.Step | agents/rag_agent.py:48-89 | Running one node extends the history as that node's function states: the tool-bound model for `query_or_respond`, the tool node for `tools`, and the plain model for `generate`. |
| PromptLoader.FirstPromptRow | utils/prompt_loader.py:58-60 | A prompt row is found iff some row's key contains `#system-prompt`, and it is the first such row. |
| PromptLoader.DropnaKeepsFirstPromptRow | utils/prompt_loader.py:57-60 | Dropping rows without a key never changes which prompt row comes first. |
| PromptLoader.SelectPrompt | utils/prompt_loader.py:55-64 | A missing `#KEY` or `#VALUE` column, or no prompt row, gives `""`. A non-text key is an uncaught error. Otherwise the result is the first prompt row's value, stripped. |
| PromptLoader.GetPrompt | utils/prompt_loader.py:28-65 | An unknown type is a 500 and empty JSON data a 400. A JSON payload without `values`, or with no rows, raises the frame's KeyError or IndexError. An HTTP error while fetching the sheet gives `""`, and any other fetch failure escapes. A fetched sheet without a header line is an error. Otherwise the sheet and the JSON values are selected as `SelectPrompt` states. |
| PromptLoader.JsonPromptExample | utils/prompt_loader.py:40-64 | A JSON table whose only data row carries the prompt key yields that row's value, stripped. |
| Groundedness.PySlice | utils/groundedness.py:53 | In-range bounds give the substring, and an end past the text gives the rest of it. An empty or out-of-range range gives `""`, and the result is never longer than the text. |
| Groundedness.PySliceNegativeBounds | utils/groundedness.py:53 | A negative bound counts from the end of the text. A start below minus the length is the start of the text, and an end below it gives `""`. |
| Groundedness.RemoveAll | utils/groundedness.py:53-54 | `replace(p, "")` only deletes characters: the result is a subsequence of the text and never longer. |
| Groundedness.RedactStep | utils/groundedness.py:50-54 | One loop iteration only deletes characters from the current text. |
| Groundedness.RemoveAllAbsent | utils/groundedness.py:52-54 | Replacing a pattern that does not occur changes nothing. |
| Groundedness.RemoveAllShrinks | utils/groundedness.py:52-54 | Replacing a non-empty pattern that occurs removes at least its length. |
| Groundedness.RedactAsWritten | utils/groundedness.py:48-54 | The loop as written never lengthens the answer. |
| Groundedness.InertDetailsKeepText | utils/groundedness.py:50-54 | Details that start past the end, or whose span is empty, leave the answer unchanged. |
| Groundedness.SingleDetailRemovesSpan | utils/groundedness.py:48-54 | A single in-range detail removes at least its own passage. |
| Groundedness.DetectGroundednessAsWritten | utils/groundedness.py:45-63 | Without a 200 response that reports ungrounded content at or above 0.25, the answer is returned unchanged. The result is never longer. |
| Groundedness.RedactDriftExample | utils/groundedness.py:48-54 | As written, details (0, 2) and (2, 2) turn `"abcdef"` into `"cd"`, because the second span is sliced from the already shortened text. |
| Groundedness.RedactRepeatExample | utils/groundedness.py:52-54 | As written, flagging `"ab"` in `"abab"` removes both occurrences. |
| Groundedness.RedactSpans | utils/groundedness.py:48-54 | The intended redaction removes exactly the flagged positions of the judged answer. Its length is the answer's length minus the number of flagged positions, and each unflagged stretch survives intact. |
| Groundedness.KeptFromLength | utils/groundedness.py:48-54 | The kept text has exactly one character per unflagged position. |
| Groundedness.UncoveredPassageKept | utils/groundedness.py:48-54 | A passage that no detail flags still occurs in the redacted answer. |
| Groundedness.RedactSpansRepeatExample | utils/groundedness.py:52-54 | With the intended redaction, flagging the first `"ab"` of `"abab"` leaves `"ab"`. |
| Groundedness.RedactSpansOrderIrrelevant | utils/groundedness.py:48-54 | The intended redaction does not depend on the order of the details. |
| Groundedness.RedactSpansExample | utils/groundedness.py:48-54 | With the intended redaction, details (0, 2) and (2, 2) turn `"abcdef"` into `"ef"`. |
| Groundedness.DetectGroundedness | utils/groundedness.py:45-63 | The corrected `detect_groundness` changes nothing unless the response is a 200 reporting ungrounded content at or above 0.25. When it redacts, the answer loses exactly its flagged positions and keeps every unflagged stretch. |

## Left out

- Network and I/O are parameters or inputs. This covers the Google Sheets CSV download, the JSON payload, the Azure Search and Chroma services, the content-safety POST, the chat model, the embedder, and the translator (utils/translator.py, with its calls in routes/search.py:82-88 and 180-195).
- The spaCy/tiktoken splitter is the parameter `splitText`. The model assumes only what LangChain's `split_documents` does: pieces per document, in document order, each with a copy of its metadata.
- The HTML/newline/emoji/URL cleaning and `cleantext.clean` (utils/document_loader.py:85-100) are the parameter `clean`, because their regular-expression semantics belong to the libraries.
- The unused URL extraction (utils/document_chunker.py:71-87) is left out: its call is commented out.
- The HNSW index schema (utils/vector_store.py:102-154) is reduced to the generation counter of `Store`.
- `count_documents`, `get_documents` and the similarity searches are left out; search takes their results as inputs.
- The API-key checks, the FastAPI/ORJSON responses, the delete route, main.py and the Streamlit interfaces are HTTP glue and are left out.
- The `MemorySaver` checkpointer and per-thread state of the agent are concurrency and persistence, and are left out.
- Scores are `real`. Cosine similarity and floating-point rounding are left out; scores are only compared and maximised.
- DocumentLoader.CheckEmptiness: counts ASCII letters only. Python's `str.isalpha` accepts every Unicode letter, but the cleaning before it (cleantext's default `to_ascii`) transliterates content to ASCII. The model's `clean` parameter does not promise that, so a non-ASCII letter in cleaned content is not counted.
- Strings.IsAlpha: ASCII letters only, for the reason given for `DocumentLoader.CheckEmptiness`.
- Strings.Lower: ASCII lower-casing only; Python's Unicode `lower()` also maps non-ASCII letters.
- Strings.ParseInt: accepts an optional sign and ASCII digits only; Python's `int()` also accepts surrounding whitespace and underscores between digits.
- Values.Value collapses `None` and pandas `NaN` into `Null`. Python treats `NaN` as truthy, so a missing slug read back as `NaN` would count as a parent; search instead takes the stored metadata as typed rows.
- DocumentLoader.ToInt: has no float case. pandas reads a numeric column with gaps as floats (`1.0`), which `astype(int)` truncates.
- Tables.FrameFromCsv: keeps each cell's own type, while `read_csv` infers one type per column. A column with no non-empty cell is therefore a float column in the source. On such a column, `.str.contains` (utils/prompt_loader.py:59) raises AttributeError and `+ " "` (utils/document_loader.py:84) raises TypeError, where the model gives `""` and a missing text. Duplicate header labels, which `read_csv` renames to `a.1` and so on, are also not modelled.
- Tables.ColumnNamed: duplicate column labels, for which pandas returns a frame instead of a column, are not modelled.
- Groundedness.RedactAsWritten: the service's offsets are UTF-8 byte offsets while Python slices by code point. The model treats both as character positions, which is exact for ASCII answers.
- Malformed service responses are not modelled: JSON without `ungroundedDetails`, or details without `offset`/`length`.
- Ingestion.CreateVectorStore: states the count and the untouched-on-failure cases. The per-id contents are stated by `VectorStore.AddDocuments`.

## Findings

| source | as written | input that shows it | evidently intended | confidence | as-written member | corrected member |
|---|---|---|---|---|---|---|
| routes/search.py:77 | search opens the index named by the raw sheet id | sheet id `"Ab_C"`: ingestion fills index `abc`, search opens `Ab_C` | normalise the id with `googleid_to_vectorstoreid`, as the load, chat and data routes do | not executed | Search.SearchIndexAsWritten, Search.SearchIndexMismatch | Search.SearchIndex, Search.SearchReadsIngestedIndex |
| utils/groundedness.py:48-54 | each detail's offsets are applied to the text already shortened by earlier details | `"abcdef"` with details (0, 2) and (2, 2) gives `"cd"` | remove the flagged passages of the judged answer: `"ef"` | not executed | Groundedness.RedactAsWritten, Groundedness.RedactDriftExample | Groundedness.RedactSpans, Groundedness.RedactSpansExample |
| utils/groundedness.py:52-54 | `replace` removes every occurrence of the flagged text, not the flagged passage | `"abab"` with detail (0, 2) gives `""` | remove only the flagged passage: `"ab"` remains | not executed | Groundedness.RedactRepeatExample | Groundedness.RedactSpansRepeatExample, Groundedness.UncoveredPassageKept |
| routes/search.py:113-114 | the result dictionary reads `dm.SCORE` and `dm.CHILDREN`, which the metadata-key class (utils/constants.py:1-15) does not define | any search that retrieves at least one chunk raises AttributeError | keys `score` and `children` | not executed | Search.BuildResultsAsWritten, Search.ResultKeysUndefined | Search.BuildResults |
