# Document question answering: a verified model of the RAG core

This project models the deterministic logic of a PDF question-answering
assistant. Users upload PDFs; the text is split into chunks and stored in a
vector store; questions are answered by retrieving similar chunks and asking a
chat model to answer in a chosen language. Two interchangeable backends exist,
one built on LangChain and one on LlamaIndex, and a Streamlit script keeps the
per-browser session state.

The model has five modules:

- `Common` (common.dfy): exceptions as `Result` (`NotImplemented` or any other
  `Failure`), Python's `str.join` as `Join`, page-by-page splitting as
  `SplitAll`, and `NoDuplicates`.
- `Prompts` (prompts.dfy): the language table both backends use. The language
  name is looked up with a French fallback (`LanguageOf`). The language
  instruction and task instruction texts are the source's own strings,
  including the indentation the triple-quoted templates carry.
- `LangChainRag` (langchain.dfy): the in-memory vector store as a class over an
  insertion-ordered sequence of `(id, record)` entries with distinct ids. It
  has ingestion tagging, delete by name, prefix inspection, the statistics
  fold, the three-message prompt and question answering.
- `LlamaIndexRag` (llamaindex.dfy): ingestion. It keeps the chunk list, the
  parallel list of source page indexes, one `TextNode` object per chunk whose
  embedding is set in place, and a single `Add` of all nodes; an embedder exception aborts the ingestion
  before the add. It also has the
  three stubs that raise `NotImplementedError`, the normalisation of retrieval
  to `[]`, the two-message prompt that drops the context, and the
  short-circuit on empty retrieval.
- `App` (app.dfy): the session dictionary as a class. It covers keys set only
  when absent, the framework switch, upload with per-name deduplication,
  asking, feedback reset and delete. `Valid()` states that `stored_files` never
  holds a duplicate, and every transition preserves it.

The vendor pieces are parameters. These are the PDF reader (its pages), the
text splitter (`split: string -> seq<string>`), the embedder, the store query,
the chat model (`invoke`, `getMetaDoc`) and the clock. `datetime.now()`
becomes `clock: nat -> int`, read once per call in call order. Dates are
integers. The uuid4 ids that LangChain's store generates become a counter held
by the store.

Three behaviours of the code worth noting:

- LangChain's retrieval exceptions are not caught; they propagate.
- LlamaIndex's `build_qa_messages` builds the task prompt with the context and
  then returns only the language instruction and the question.
- LlamaIndex ingestion ignores the document name and gives every node its
  page's metadata.

## Model

| member | source | states |
|---|---|---|
| `Common.JoinEnds` | rag/langchain.py:202 | the joined context starts with the first retrieved text and ends with the last |
| `Common.JoinAppend` | rag/llamaindex.py:141 | joining is piecewise: `join(a + b) == join(a) + sep + join(b)`, so parts appear in list order |
| `Common.Join` | rag/langchain.py:202 | Python's `str.join`, also used at rag/langchain.py:84 and rag/llamaindex.py:141; what it guarantees is stated by `Common.JoinEnds` and `Common.JoinAppend` |
| `Common.SplitAll` | rag/llamaindex.py:47-49 | every page split on its own, the pieces kept in page order, as `split_documents` does at rag/langchain.py:77; `LlamaIndexRag.DocIndexLocate` states where each chunk comes from |
| `Prompts.LanguageOf` | rag/langchain.py:184 | a known language name selects its own entry; any other value falls back to French |
| `Prompts.LanguageOfKey` | rag/langchain.py:156-161 | every table key selects its own language (the lookup is a left inverse of the keys) |
| `Prompts.LanguePrompt` | rag/langchain.py:156-161 | the four language instructions, word for word (the same table is at rag/llamaindex.py:103-108) |
| `Prompts.TaskInstructions` | rag/langchain.py:164-181 | the four task instruction texts before the context placeholder, with the template's indentation (the same table is at rag/llamaindex.py:110-127) |
| `Prompts.TaskPrompt` | rag/langchain.py:164-181 | the task prompt is the fixed instruction text of the language followed by the context |
| `LangChainRag.VectorStore.constructor` | rag/langchain.py:28 | a new store is empty and satisfies its invariant |
| `LangChainRag.WithoutName` | rag/langchain.py:96-100 | after deleting `name`, an entry remains iff it was present and is not of `name`; exactly `CountName` entries go |
| `LangChainRag.WithoutNameAppend` | rag/langchain.py:96-100 | deletion works piecewise on any split of the store, so survivors keep their relative order |
| `LangChainRag.WithoutNameDistinct` | rag/langchain.py:100 | deletion keeps ids distinct |
| `LangChainRag.WithoutAbsentName` | rag/langchain.py:96-102 | when no entry has the name, deletion leaves the store unchanged |
| `LangChainRag.IdsNamed` | rag/langchain.py:96-99 | the collected ids all belong to entries of that name, one id per such entry |
| `LangChainRag.RemoveIds` | rag/langchain.py:100 | popping a list of ids keeps exactly the entries whose id is not listed |
| `LangChainRag.RemoveIdsIgnoresAbsent` | rag/langchain.py:100 | popping an id that no entry has changes nothing |
| `LangChainRag.RemoveNamedIds` | rag/langchain.py:96-100 | with distinct ids, deleting the collected ids is the same as deleting by name |
| `LangChainRag.Numbered` | rag/langchain.py:91 | the added documents get consecutive fresh ids, in order |
| `LangChainRag.MetaExtract` | rag/langchain.py:84 | the summary sample is the blank-line join of the first min(10, n) splits, and of all splits when there are at most ten |
| `LangChainRag.IngestedDocuments` | rag/langchain.py:78-90 | n splits plus one summary document if made; all tagged with the document name; split i keeps its text and gets clock reading i; the summary gets reading n |
| `LangChainRag.IngestRoundTrip` | rag/langchain.py:122-137 | ingesting n splits without a summary adds n chunks and exactly the one document name (none when n = 0) |
| `LangChainRag.Inspect` | rag/langchain.py:109-114 | an inspection row carries the entry's id, document name, date and text |
| `LangChainRag.VectorStore.AddDocuments` | rag/langchain.py:91 | the store grows by the documents under fresh ids and keeps ids distinct |
| `LangChainRag.VectorStore.StorePdfFile` | rag/langchain.py:66-92 | the store grows by exactly the tagged splits and the optional summary; a raising summary leaves the store unchanged |
| `LangChainRag.VectorStore.DeleteFileFromStore` | rag/langchain.py:95-102 | the new store is the old one without the named entries; the count is the number of named entries before the call |
| `LangChainRag.VectorStore.InspectVectorStore` | rag/langchain.py:105-119 | returns the first min(max(top_n, 0), size) entries in store order, each as its row |
| `LangChainRag.VectorStore.GetVectorStoreInfo` | rag/langchain.py:122-138 | chunk count is the size; document count is the number of distinct names; min and max dates are None iff the store is empty and otherwise attained and bound every date |
| `LangChainRag.BuildQaMessages` | rag/langchain.py:154-188 | three messages: the system language instruction, a system task prompt of the instruction text followed by the context, and the user question |
| `LangChainRag.UnknownLanguageIsFrench` | rag/langchain.py:184-185 | a language name outside the table gives exactly the French messages |
| `LangChainRag.Context` | rag/langchain.py:202 | the retrieved chunk texts joined by a blank line; `LangChainRag.ContextInRetrievalOrder` states their order |
| `LangChainRag.AnswerQuestion` | rag/langchain.py:191-211 | the similarity search is asked for `top_k` texts; if it raises, the exception propagates; otherwise the model is invoked on the messages built from the blank-line join of the retrieved texts |
| `LangChainRag.EmptyRetrievalStillInvokes` | rag/langchain.py:201-210 | empty retrieval is not special-cased: the model is asked with an empty context |
| `LangChainRag.ContextInRetrievalOrder` | rag/langchain.py:202 | the context lists the texts of a first batch before those of the rest, separated by a blank line |
| `LlamaIndexRag.Texts` | rag/llamaindex.py:48 | the page texts, one per loaded page, in page order |
| `LlamaIndexRag.DocIndexes` | rag/llamaindex.py:47-50 | one page index per chunk, each a valid page index |
| `LlamaIndexRag.DocIndexesSorted` | rag/llamaindex.py:50 | the page indexes never decrease |
| `LlamaIndexRag.DocIndexLocate` | rag/llamaindex.py:47-50 | chunk i lies in the block of its page and is the matching piece of that page's split |
| `LlamaIndexRag.ChunkDocuments` | rag/llamaindex.py:44-50 | `doc_idxs` is as long as `text_chunks` and non-decreasing, and `doc_idxs[i]` is the page whose split produced chunk i |
| `LlamaIndexRag.EmbeddingOf` | rag/llamaindex.py:60-63 | a node gets the embedder's vector when the embedder returns one, and none when it raises |
| `LlamaIndexRag.ExpectedNodes` | rag/llamaindex.py:52-63 | one node per chunk, in chunk order |
| `LlamaIndexRag.ExpectedNodesCarryPageMetadata` | rag/llamaindex.py:52-57 | node i holds chunk i and exactly its source page's metadata; no document name is added |
| `LlamaIndexRag.TextNode.constructor` | rag/llamaindex.py:54 | a new node holds the chunk text, empty metadata and no embedding |
| `LlamaIndexRag.BuildNodes` | rag/llamaindex.py:52-57 | one fresh distinct node per chunk, with the chunk text and the metadata of page `doc_idxs[i]` |
| `LlamaIndexRag.EmbedNodes` | rag/llamaindex.py:59-63 | texts and metadata are unchanged; success iff the embedder succeeds on every node, and then every embedding is set; on an exception at the first failing node, the earlier nodes hold their embeddings, the later ones are untouched, and the exception is that node's |
| `LlamaIndexRag.Snapshot` | rag/llamaindex.py:65 | the values the store receives are the nodes' current text, metadata and embedding |
| `LlamaIndexRag.SimpleVectorStore.constructor` | rag/llamaindex.py:36 | a new store holds no node |
| `LlamaIndexRag.SimpleVectorStore.Add` | rag/llamaindex.py:65 | accepts only nodes whose embedding is set, and appends their values |
| `LlamaIndexRag.SimpleVectorStore.StorePdfFile` | rag/llamaindex.py:39-65 | succeeds iff every chunk embeds; then the store grows by exactly the expected nodes in one add; an embedder exception propagates and leaves the store unchanged |
| `LlamaIndexRag.SimpleVectorStore.DeleteFileFromStore` | rag/llamaindex.py:68-69 | always raises `NotImplementedError` and changes nothing |
| `LlamaIndexRag.SimpleVectorStore.InspectVectorStore` | rag/llamaindex.py:72-73 | always raises `NotImplementedError` and changes nothing |
| `LlamaIndexRag.SimpleVectorStore.GetVectorStoreInfo` | rag/llamaindex.py:76-77 | always raises `NotImplementedError` and changes nothing |
| `LlamaIndexRag.Found` | rag/llamaindex.py:95 | a query outcome counts as found when it is a result whose node list is present and non-empty |
| `LlamaIndexRag.Retrieve` | rag/llamaindex.py:80-99 | an error embedding the question propagates; otherwise the result is `[]` iff the query raised, returned None or had no nodes, and else is the result's nodes |
| `LlamaIndexRag.BuildQaMessages` | rag/llamaindex.py:102-133 | two messages: the system language instruction with French fallback, then the user question |
| `LlamaIndexRag.MessagesIgnoreContext` | rag/llamaindex.py:110-132 | the messages are the same whatever the context |
| `LlamaIndexRag.Contents` | rag/llamaindex.py:141 | the node contents, one per retrieved node, in retrieval order |
| `LlamaIndexRag.AnswerQuestion` | rag/llamaindex.py:136-139 | an exception while embedding the question propagates; an empty retrieval gives the fixed apology |
| `LlamaIndexRag.ApologyExactlyWhenNothingRetrieved` | rag/llamaindex.py:137-150 | with nothing found, the answer is the apology whatever the model; with nodes found, it is the model's reply to the messages built from their blank-line joined contents |
| `LlamaIndexRag.AnswerIgnoresRetrievedTexts` | rag/llamaindex.py:141-149 | because the context is dropped, any two non-empty retrievals give the same answer |
| `App.ActiveBackend` | app.py:64 | the LangChain backend iff the selected framework is "langchain", otherwise LlamaIndex |
| `App.AfterUpload` | app.py:71-78 | the old list is kept as a prefix; every added name is new and comes from the batch; a completed upload lists every file's name |
| `App.FirstNamed` | app.py:72 | the position of the first file with a given name in the batch, or the batch length when there is none |
| `App.UploadStopsAtFirstFailure` | app.py:71-78 | there is a stop point `j` (the batch length exactly when the run completes): file `j` is the first one with a new name whose ingestion raised, and its name is not listed; every earlier file is listed; the appended names are the new names of the files before `j`, in the order they first occur in the batch |
| `App.StopsAtStep` | app.py:72-78 | skipping a listed file or ingesting a new one moves the stop point of the rest of the batch one file later |
| `App.UploadKeepsNoDuplicates` | app.py:72-78 | upload never lists a name twice, even for repeats within one batch |
| `App.FirstIndex` | app.py:113 | the first position holding the name |
| `App.RemoveFirst` | app.py:113 | `list.remove` of a listed name; `App.RemoveFirstCutsFirst` and `App.RemoveFirstNoDuplicates` state what it does |
| `App.RemoveFirstCutsFirst` | app.py:113 | `list.remove` cuts out exactly the first occurrence and keeps the rest in order |
| `App.RemoveFirstNoDuplicates` | app.py:113 | on a duplicate-free list, removal takes the name out, keeps every other name and stays duplicate-free |
| `App.SessionState.constructor` | app.py:37-47 | a new browser session starts with no key present |
| `App.SessionState.InitIfAbsent` | app.py:38-47 | present keys keep their values; absent keys get `[]`, "langchain", "", "" and "Français" |
| `App.SessionState.SelectFramework` | app.py:57-59 | a different framework is recorded and empties the file list; the same framework changes nothing |
| `App.SessionState.SelectLangue` | app.py:61 | the selected language is recorded |
| `App.SessionState.UploadFiles` | app.py:71-80 | the file list becomes the upload result, stays duplicate-free, and the run ends early when an ingestion raises |
| `App.SessionState.AskQuestion` | app.py:87-95 | on success both question and answer are updated; on an exception, an unpressed button or an empty question neither changes |
| `App.SessionState.SubmitFeedback` | app.py:98-104 | submitting feedback on a shown answer resets question and answer to "" |
| `App.SessionState.DeleteDocument` | app.py:108-116 | the backend is the one the selected framework picks; on LangChain the store loses the document's chunks and the list loses the name; on `NotImplementedError` list and store are unchanged |

## Left out

- Streamlit rendering, widgets and messages (`st.success`, `st.warning`, `st.error`), `st.secrets` and `print`: user interface and I/O. Widget values are method parameters.
- `init_db` and `save_feedback`, which do SQLite persistence, and the temporary file written and removed around each upload: I/O. An exception from `save_feedback` is not modelled.
- The PDF loaders and the text splitters are vendor code. The loaded pages are a parameter and the splitter is an uninterpreted function, so the chunk size and overlap constants play no part.
- Embedding vectors and similarity search: floating-point work inside vendor code. LangChain's stored entries leave out the vector. LlamaIndex's embeddings are values of an uninterpreted function of a node's text and metadata. The similarity search and the store query are oracles that receive `top_k`; how many results they return and their ranking are not modelled.
- The chat model (`get_meta_doc` and `answer_question`'s `llm.invoke`): a remote call, modelled as a function parameter. The metadata-extraction prompt text is not modelled.
- LangChainRag.VectorStore.AddDocuments: a failure while embedding inside `add_documents` is not modelled; the model's add always succeeds.
- LangChainRag.AnswerQuestion: the leading `inspect_vector_store()` call is left out. Its result is discarded and it only reads the store.
- LangChain's uuid4 ids are drawn from a counter, so a uuid collision is not modelled.
- LlamaIndexRag.BuildNodes: every node from one page shares that page's metadata dictionary object. The model copies the metadata as a value, so that aliasing is not captured.
- `SimpleVectorStore`'s internals (node ids, the embedding dictionary) are vendor code. The model's store is the list of node values it received.
- App.SessionState.UploadFiles: the backend ingestion call is an abstract outcome per file (`ingestionRaises`). It is not a call into the backend models.
- App.SessionState.AskQuestion: the answer is an abstract outcome (`Result<string>`). It is not a call into the backend models.
- App.SessionState.DeleteDocument: it requires the chosen name to be listed. The select box offers only listed names, and the section is shown only when the list is non-empty. An exception other than `NotImplementedError` is not modelled, because the modelled LangChain delete never raises.
- The script runs top to bottom on every interaction. The model gives each section its own transition and does not compose them into one run; each transition preserves the same invariant.
