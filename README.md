# Document analyzer and RAG question answering: a Dafny model

This project models the deterministic core of a small retrieval-augmented service. The service does two things:

- It analyses a document: it retrieves the two writing guidelines most relevant to the document, asks a Gemini model for a JSON verdict, and validates that verdict against a pydantic schema.
- It answers questions about uploaded documents: it chunks and stores each document in a ChromaDB collection, searches the collection for a question, and asks the model to answer from the numbered chunks, citing them.

Everything outside the service's own logic is an oracle. An oracle is a function-typed constant or parameter that the model never looks inside. The oracles are:

- the Gemini model;
- the sentence-transformer embedding;
- the Chroma similarity query;
- the LangChain splitter, retriever, chat chain and `RetrievalQA` chain;
- `json.loads`;
- pydantic's reading of a string as a float;
- UTF-8 decoding;
- pypdf.

What the code does around those calls is modelled and proved. That covers:

- the chunking loop, chunk ids and metadata;
- the document catalogue and deletion on the record store;
- the stable top-k guideline ranking;
- the three-stage JSON candidate choice;
- the prompt templates;
- the citation numbering;
- schema validation;
- the file-type dispatch.

One Dafny module models each source file:

| module | file |
|---|---|
| `Chunking`, `ChunkStore`, `VectorDb` | `app/services/vector_db.py` (`ChunkStore` holds the record-store logic shared with the LangChain service) |
| `VectorDbLangchain` | `app/services/vector_db_langchain.py` |
| `Embeddings` | `backend/app/services/embeddings.py` |
| `Llm` | `app/services/llm.py` |
| `Prompts` | `backend/app/agent/prompts.py` |
| `Schemas` | `app/models/schemas.py` |
| `Agent` | `app/agent/agent.py` |
| `QaAgent` | `backend/app/agent/qa_agent.py` |
| `QaAgentLangchain` | `app/agent/qa_agent_langchain.py` |
| `FileParser` | `backend/app/utils/file_parser.py` |

`Common` holds the Python string and number helpers the modules share: `str.strip`, `str.join`, `str(int)`, `int(str)`, ASCII `lower`, slicing, and a JSON value type.

Where the source changes state step by step, so does the model:

- `_chunk_text` is a `while` loop. `ChunkText` is proved equal to the recursive specification `Chunks`.
- The catalogue loop of `list_documents`, the metadata loops of LangChain's `add_document` (over an `array`), the similarity loop of `retrieve_relevant_guidelines` and the context loops of both Q&A agents are all loops. Each carries invariants that tie it to a specification function.
- Services are classes. Their record store is a `seq` field that `AddDocument` and `DeleteDocument` reassign.

`backend/app/agent/qa_agent.py` imports `app.services.vector_db` and `app.services.llm`, so `QaAgent` is modelled over `VectorDb` and `Llm`. `app/agent/agent.py` imports `app.services.embeddings` and `app.agent.prompts`; only the `backend/` copies of those two files are part of this model, so `Agent` is modelled over `Embeddings` and `Prompts`, which follow `backend/app/services/embeddings.py` and `backend/app/agent/prompts.py`.

- `analyze_document` does not check the document length. The 20 to 10000 character bound belongs to `AnalyzeRequest`, which the API layer applies, so `AnalyzeDocument` accepts any text.
- `analyze_document` raises `ValidationError(str)` on invalid output. The model returns the error value `ValidationFailed` instead.

## Model

| member | source | states |
|---|---|---|
| Chunking.ChunkText | app/services/vector_db.py:190-223 | The `while` loop of `_chunk_text` computes exactly the chunk list of the windowed specification `Chunks`, for every chunk size with `2*overlap <= chunk_size`; on those inputs the loop terminates. |
| Chunking.FindWindowEnd | app/services/vector_db.py:209-218 | The separator search of one iteration (separators tried in list order, last occurrence, accepted only past half the window) finds the specified window end. |
| Chunking.WindowEnd | app/services/vector_db.py:208-218 | A window end lies in `(start, start+chunk_size]`, and more than half a window past its start, so the loop always advances. |
| Chunking.WindowCut | app/services/vector_db.py:212-218 | A window is shortened exactly when the full window fits inside the text and some separator qualifies. The cut then falls just after the punctuation character of the first qualifying separator's last occurrence, and that character lies past half the window. |
| Chunking.WindowsFromShape | app/services/vector_db.py:206-221 | The raw windows start at the given position. Each begins inside the text and is at most `chunk_size` long. Each window after the first begins exactly `overlap` characters before the previous one ends. The last reaches the end of the text. |
| Chunking.WindowsCoverText | app/services/vector_db.py:206-221 | The windows of a non-empty text start at 0, the last ends at or after the text's end, and every index of the text lies in some window. |
| Chunking.ChunksAreStrippedSlices | app/services/vector_db.py:208-220 | For a text longer than `chunk_size`, every chunk is a slice of the text of at most `chunk_size` characters with surrounding whitespace stripped. |
| Chunking.ChunksFacts | app/services/vector_db.py:202-223 | A text of at most `chunk_size` characters comes back as the single chunk `[text]`, unstripped. A longer text gives stripped slices. Every chunk is a substring of the text of at most `chunk_size` characters. |
| Chunking.RFind | app/services/vector_db.py:215 | `rfind` returns the last position where the separator occurs, or nothing exactly when it occurs nowhere. |
| ChunkStore.ChunkIdInjective | app/services/vector_db.py:79 | Two chunk ids `{document_id}_chunk_{i}` are equal only when both the document id and the chunk index are equal. |
| ChunkStore.ChunkMetadata | app/services/vector_db.py:82-90 | Chunk metadata keeps the caller's keys. `document_id`, `chunk_index = i` and `total_chunks` are added and override caller keys of the same names, and every other caller key keeps its value. |
| ChunkStore.AddRecordsKeepsUniqueIds | app/services/vector_db.py:93-98 | Adding a batch to a collection whose ids are unique leaves the ids unique. |
| ChunkStore.AddFreshRecords | app/services/vector_db.py:93-98 | A batch with distinct ids, none already stored, is appended whole and in order. |
| ChunkStore.CollectDocuments | app/services/vector_db.py:139-162 | The dictionary-filling loop of `list_documents` returns exactly the catalogue: one entry per first occurrence of a truthy `document_id`. |
| ChunkStore.ValuesInOrder | app/services/vector_db.py:162 | `list(documents.values())` lists the dictionary's entries in the insertion order of their keys, one per key. |
| ChunkStore.FirstsBelowFacts | app/services/vector_db.py:151-160 | The rows that add a dictionary entry are exactly the rows carrying a truthy id not seen in an earlier row, each taken once, in store order. |
| ChunkStore.CatalogIsOnePerDocument | app/services/vector_db.py:150-162 | Catalogue entries have pairwise distinct document ids, and those ids are exactly the truthy `document_id` values in the store. |
| ChunkStore.CatalogFirstSeen | app/services/vector_db.py:150-162 | Each entry, a single one included, is built from its document's first row, with the defaults `Unknown`, `Unknown`, `0`. Those rows are increasing, so entries come in first-seen order, and every first row of a listed id gives an entry. |
| ChunkStore.CatalogSnoc | app/services/vector_db.py:153-161 | One more row adds its entry at the end exactly when its `document_id` is truthy (`ListedId`) and not yet listed. A row with an absent, empty or zero id, or an id already seen, adds nothing. |
| ChunkStore.CatalogSize | app/services/vector_db.py:186-188 | The document count `len(list_documents())` equals the number of distinct listed document ids. |
| ChunkStore.IdsWhere | app/services/vector_db.py:175 | The `where` lookup lists exactly the ids of the rows whose `document_id` equals the argument. |
| ChunkStore.RemoveIds | app/services/vector_db.py:180 | Deleting by ids keeps exactly the rows whose id is not listed. |
| ChunkStore.DeleteFinds | app/services/vector_db.py:175-182 | The lookup finds something exactly when some row carries the document id, which is when `delete_document` reports success. |
| ChunkStore.DeleteRemovesExactly | app/services/vector_db.py:164-184 | With Chroma's unique ids, the two steps of `delete_document` (look up the ids, delete them) remove exactly the document's rows and keep every other row, in order. |
| ChunkStore.AddThenDeleteBatch | app/services/vector_db.py:93-98 | Adding a fresh batch of rows that all belong to a document absent from the store, then deleting that document, restores the store. |
| ChunkStore.FormatHits | app/services/vector_db.py:127-135 | The result-formatting loop turns each query hit into a result with the hit's text, metadata and distance, in query order. |
| VectorDb.ChunkBatchShape | app/services/vector_db.py:73-90 | `add_document` writes one row per chunk, with distinct ids. Row `i` has id `{document_id}_chunk_{i}`, chunk `i`'s text and embedding, `chunk_index = i`, `total_chunks = len(chunks)` and the document's id, so the delete filter finds it. |
| VectorDb.AddThenDelete | app/services/vector_db.py:63-98 | Adding a document the store does not hold and then deleting it gives the store back as it was. |
| VectorDb.VectorDBService.AddDocument | app/services/vector_db.py:63-98 | The new store is the old one with the chunk rows added. Unique ids are preserved. |
| VectorDb.VectorDBService.Search | app/services/vector_db.py:102-137 | The query embeds the query text and passes `top_k` unchanged. The `where` filter (`SearchFilter`) is present exactly when a non-empty document id is given, and then filters on that id. The results are the formatted hits in store-returned order. |
| VectorDb.VectorDBService.ListDocuments | app/services/vector_db.py:139-162 | Returns the catalogue of the store's metadata. |
| VectorDb.VectorDBService.GetDocumentCount | app/services/vector_db.py:186-188 | Returns the number of distinct listed document ids. |
| VectorDb.VectorDBService.DeleteDocument | app/services/vector_db.py:164-184 | Returns true exactly when some row carried the document id. Afterwards no row of that document remains and every other row stays, in order. |
| VectorDbLangchain.DocumentMetadata | app/services/vector_db_langchain.py:117-120 | Document metadata is the caller's metadata with `document_id` set to the given id, overriding any caller value of that key. |
| VectorDbLangchain.AnnotatedChunks | app/services/vector_db_langchain.py:117-129 | Every split piece `i` carries the caller's metadata, the document id, `chunk_index = i` and `total_chunks = len(chunks)`. |
| VectorDbLangchain.AnnotateChunks | app/services/vector_db_langchain.py:127-129 | The in-place loop sets `chunk_index = i` and `total_chunks` on every chunk of the array and changes nothing else. |
| VectorDbLangchain.ChunkRowsShape | app/services/vector_db_langchain.py:124-136 | Each stored row carries its uuid, its piece and its embedding, with the annotated metadata, and the delete filter finds it. |
| VectorDbLangchain.AddThenDelete | app/services/vector_db_langchain.py:93-136 | Adding a document under fresh distinct uuids and then deleting it restores the store. |
| VectorDbLangchain.LangChainVectorDBService.AddDocument | app/services/vector_db_langchain.py:93-136 | The store gains exactly the annotated rows, in split order. Unique ids are preserved. |
| VectorDbLangchain.LangChainVectorDBService.Search | app/services/vector_db_langchain.py:140-188 | A filter is passed only for a non-empty document id. The results are the hits in returned order. |
| QaAgentLangchain.GetRetrieverAgrees | app/services/vector_db_langchain.py:279-282 | Without kwargs, `get_retriever` (`AsRetrieverKwargs`) uses `k = 5` and no filter, which is the retriever the Q&A agent builds for its default `top_k` with no document id or an empty one. |
| VectorDbLangchain.LangChainVectorDBService.ListDocuments | app/services/vector_db_langchain.py:190-216 | Returns the catalogue: one entry per distinct truthy document id, in first-seen order. |
| VectorDbLangchain.LangChainVectorDBService.GetDocumentCount | app/services/vector_db_langchain.py:248-250 | Returns the number of distinct listed document ids. |
| VectorDbLangchain.LangChainVectorDBService.DeleteDocument | app/services/vector_db_langchain.py:218-246 | Returns true exactly when some row carried the id, and removes exactly those rows. |
| Embeddings.SortDescPermutes | backend/app/services/embeddings.py:144 | The descending sort is a permutation of the `(index, score)` pairs. |
| Embeddings.SortDescRanked | backend/app/services/embeddings.py:144 | The sort orders pairs by non-increasing score; equal scores keep corpus order, as Python's stable sort with `reverse=True` does. |
| Embeddings.RankingFacts | backend/app/services/embeddings.py:138-144 | The ranking lists every guideline exactly once with its own score, best first, ties in corpus order. |
| Embeddings.TopIndicesFacts | backend/app/services/embeddings.py:144-145 | The slice picks `min(top_k, n)` distinct corpus indices for a non-negative `top_k` (Python slice rules otherwise). They come in non-increasing score order, ties in corpus order, and no left-out guideline ranks above a picked one. |
| Embeddings.RetrievalFacts | backend/app/services/embeddings.py:144-148 | The returned texts are exactly the corpus guidelines at the picked indices, as many as the slice allows. |
| Embeddings.EmbeddingService.constructor | backend/app/services/embeddings.py:63-77 | The service holds the four-item corpus and its embeddings (`EmbedAll`: one per guideline, in corpus order), and both are fixed from then on. |
| Embeddings.EmbeddingService.RetrieveRelevantGuidelines | backend/app/services/embeddings.py:116-148 | The similarity loop, the sort and the slice return the top guidelines of the ranking of `Scores`, where score `i` is the similarity of the query's embedding to guideline `i`'s stored embedding. Retrieval changes no state. |
| Llm.FenceOpen | app/services/llm.py:93 | The head of the fenced pattern (three backticks, an optional `json`, whitespace) matches exactly when a `{` follows it, and the result is then that `{`'s position. |
| Llm.FirstClose | app/services/llm.py:93 | The lazy `.*?\}` stops at the first `}` that is followed by optional whitespace and a closing fence. |
| Llm.FenceFrom | app/services/llm.py:93 | `re.search` finds the leftmost start position at which the pattern matches. |
| Llm.FencedSpan | app/services/llm.py:93-95 | Stage 1 finds the leftmost match. Its group runs from the `{` after the fence to the first `}` that closes the block, and there is no match exactly when no position matches. |
| Llm.BraceSpan | app/services/llm.py:97-100 | Stage 2 spans from the first `{` to the last `}`. It fails exactly when no `{` is followed later by a `}`. |
| Llm.CandidateStages | app/services/llm.py:93-103 | Exactly one candidate is chosen: the fenced object, else the brace span, else the stripped reply. Stage 1 and stage 2 candidates begin with `{` and end with `}`. |
| Llm.ParseErrorMessage | app/services/llm.py:108 | The error message quotes the decoder's reason and at most the first 200 characters of the reply, followed by `...`. |
| Llm.ExtractParsesOnlyCandidate | app/services/llm.py:105-108 | Only the chosen candidate is parsed: two decoders that agree on it give the same outcome of `ExtractJson`, so no fallback stage is tried after a failed parse. |
| Llm.BareObjectIsCandidate | app/services/llm.py:97-100 | A reply that is a bare JSON object, with no fenced block, is parsed whole. |
| Llm.ApiFailureSkipsDecoder | app/services/llm.py:110-123 | When the model call fails, the structured response is the `ApiError`, whatever the decoder would do with any text. |
| Llm.StructuredStages | app/services/llm.py:54-123 | The structured call fails with `ApiError` exactly when the model call failed, and with `ParseError` exactly when the call succeeded and the candidate of its reply did not decode. It succeeds exactly when both succeeded, with the decoded candidate. |
| Prompts.GuidelineLine | backend/app/agent/prompts.py:82-85 | Line `i` of the guideline section is `GuidelineItem(i, guidelines[i])` (`i+1`, `. `, the stripped guideline) and stands at its offset in the section. Consecutive lines are separated by exactly one newline. |
| Prompts.GuidelineNumber | backend/app/agent/prompts.py:83 | The number in front of line `i` is a decimal string that reads back as `i + 1`, followed by `. `. |
| Prompts.NoGuidelinesNoSection | backend/app/agent/prompts.py:82-85 | An empty guideline list gives an empty section. |
| Prompts.SystemPromptShape | backend/app/agent/prompts.py:18-55 | The system prompt is the fixed head, the guideline section verbatim and the fixed tail. |
| Prompts.UserPromptShape | backend/app/agent/prompts.py:58-65 | The user prompt is the fixed header, the document text verbatim and the fixed footer. |
| Prompts.CompletePromptShape | backend/app/agent/prompts.py:103-121 | The complete prompt is the system prompt, a blank line, and the user prompt. |
| Prompts.SystemPartIgnoresDocument | backend/app/agent/prompts.py:116-121 | Two documents analysed with the same guidelines get the same prompt up to the end of the system part. |
| Schemas.ValidateSummary | app/models/schemas.py:22-27 | A summary is accepted exactly when it is a string of 10 to 500 characters, and a missing summary is reported as missing. |
| Schemas.ValidateStatus | app/models/schemas.py:29-32 | A status is accepted exactly when it is one of `complete`, `partial` or `unknown`, and the accepted value names it. |
| Schemas.StringList | app/models/schemas.py:34-43 | A JSON array is a `List[str]` exactly when every item is a string, and the list keeps the items in order. |
| Schemas.ValidateMissingPoints | app/models/schemas.py:34-37 | Missing points default to `[]`, without running the validator. The cross-field error is raised exactly for a valid non-empty list while the status validated as `complete`. |
| Schemas.ValidateEvidence | app/models/schemas.py:39-43 | Evidence is accepted exactly when it is a list of strings with at least one item, and it is required. |
| Schemas.ValidateConfidence | app/models/schemas.py:45-50 | Confidence is accepted exactly when it reads as a float in `[0.0, 1.0]`, and it is required. |
| Schemas.ValidateAnalysis | app/models/schemas.py:22-61 | A payload is accepted exactly when all five field validators pass, and the result is then made of their validated values. A payload one of whose fields fails (a summary under 10 characters, say) is rejected with a non-empty list: the errors of every failed field, in declaration order. |
| Schemas.AcceptedIsPayload | app/models/schemas.py:22-61 | An accepted result is read off the payload: summary and status are its strings, the lists are its string arrays (an absent `missing_points` giving `[]`), and the confidence is the float its value stands for. |
| Schemas.AcceptedIsWellFormed | app/models/schemas.py:22-61 | Every accepted result satisfies all field bounds, and is never `complete` with missing points. |
| Schemas.ErrorsListEveryField | app/models/schemas.py:22-61 | A field appears in the error list exactly when its own validator rejects it, with that validator's reason, so every violated field is reported. |
| Schemas.CompleteRejectsMissingPoints | app/models/schemas.py:52-61 | `complete` with non-empty missing points is rejected. The rule is skipped when the status field failed. |
| Schemas.EncodeAccepted | app/models/schemas.py:22-61 | Every well-formed result, written as a JSON object, validates back to itself, so the schema rejects nothing a well-formed result can say. |
| Schemas.ValidateAnalyzeRequest | app/models/schemas.py:64-73 | A request is accepted exactly when `document_text` is a string of 20 to 10000 characters, and its text is that string. |
| Schemas.ValidateAnalyzeResponse | app/models/schemas.py:76-91 | A response is rejected exactly when `success` is true and `result=None` is passed explicitly. A result left out is not checked. |
| Agent.Validate | app/agent/agent.py:85-93 | `AnalysisResult(**output)` succeeds exactly when the output is an object whose fields validate, and the result is then well-formed. A non-object fails as such. A rejected object fails with the output and every field error. |
| Agent.OutcomeFacts | app/agent/agent.py:80-97 | Every returned result satisfies the schema. A model or extraction failure is reported as such. A result is exactly what validation made of the model's JSON. |
| Agent.OneModelCall | app/agent/agent.py:80 | The model is called by prompt and call number. The outcome depends on it only through the first call with the analysis prompt: replies to any other prompt, or to a second call with the same prompt, cannot change it, so there is no retry. |
| Agent.AnalysisPromptShape | app/agent/agent.py:66-76 | The prompt is built from `min(2, n)` corpus guidelines and the document: the system prompt over those guidelines, a blank line, then the user prompt over the document. |
| Agent.DocumentAnalysisAgent.AnalyzeDocument | app/agent/agent.py:42-97 | Retrieval uses the document text with `top_k = 2`. The prompt is `build_complete_prompt` of the retrieved guidelines. One structured call follows, then validation. |
| QaAgent.AssembleContext | backend/app/agent/qa_agent.py:62-92 | The loop succeeds exactly when every hit's metadata can be cited. It then yields the context and the citations, with one shared numbering. Otherwise it fails with the `TypeError`. |
| QaAgent.NoHitsNoModelCall | backend/app/agent/qa_agent.py:55-60 | A search without hits gets the fixed answer with no sources, whatever the model would say. |
| QaAgent.CitationsFacts | backend/app/agent/qa_agent.py:75-90 | There is one source per hit, in hit order. Source `i` is numbered `i`, carries the full chunk text, and uses the default `Unknown` for a missing filename or document id. |
| QaAgent.ContextCitesSources | backend/app/agent/qa_agent.py:75-92 | Source `i`'s context line, `[Source n]: text`, carries the number and the text of citation `i`, at its own offset in the context. |
| QaAgent.SourceNumbersDistinct | backend/app/agent/qa_agent.py:77 | Different context lines carry different source labels. |
| QaAgent.QaPromptShape | backend/app/agent/qa_agent.py:117-146 | The prompt is the fixed instructions and header, the context verbatim, the question cue, the question verbatim and the answer cue. |
| QaAgent.AnswerFacts | backend/app/agent/qa_agent.py:98-115 | With hits, the answer is the model's reply to the Q&A prompt, stripped, beside the citations. A failed call becomes `Failed to generate answer: ` followed by the API error. |
| QaAgent.RespondFacts | backend/app/agent/qa_agent.py:104-115 | The reply of `generate_response` (`GenerateResponse`) is stripped and paired with the citations. A failure becomes `Failed to generate answer: ` followed by the API error with its `Gemini API error: ` prefix. |
| QaAgent.UncitableFails | backend/app/agent/qa_agent.py:63-89 | A hit whose metadata cannot be cited makes the call fail before the model is asked. |
| QaAgent.QAAgent.AnswerQuestion | backend/app/agent/qa_agent.py:28-115 | The search gets the question, `top_k` and `document_id` unchanged, and the outcome is the specified answer on its hits. |
| QaAgentLangchain.RetrieverKwargs | app/agent/qa_agent_langchain.py:164-169 | The retriever gets `k = top_k`, and a `document_id` filter exactly when a non-empty id is given. |
| QaAgentLangchain.DisplayText | app/agent/qa_agent_langchain.py:226 | A citation shows the chunk unchanged when it has at most 200 characters. Otherwise it shows the first 200 characters followed by `...`, so at most 203. |
| QaAgentLangchain.FormatDocs | app/agent/qa_agent_langchain.py:193-198 | `format_docs` joins `[Source i]: content`, numbered from 1, with blank lines. |
| QaAgentLangchain.FormatDocsContains | app/agent/qa_agent_langchain.py:193-198 | Each document's block stands in the formatted context at its own offset. |
| QaAgentLangchain.BuildSources | app/agent/qa_agent_langchain.py:222-229 | The source loop builds one citation per document, in order. |
| QaAgentLangchain.LcCitationsFacts | app/agent/qa_agent_langchain.py:222-229 | Source numbers are the decimal strings of 1 to n, which `int` reads back. Each text shows at most 203 characters. Document and id default to `Unknown`. |
| QaAgentLangchain.CustomPromptShape | app/agent/qa_agent_langchain.py:173-188 | The filled template is the instructions, the context and the question, and both can be read back from it. |
| QaAgentLangchain.CustomAnswerFacts | app/agent/qa_agent_langchain.py:126-234 | The answer exists exactly when the chain's call succeeds, and is its stripped reply. The citations come from a second retrieval with the same kwargs, not from the documents the model saw. |
| QaAgentLangchain.LangChainQAAgent.AnswerQuestionSimple | app/agent/qa_agent_langchain.py:56-124 | `RetrievalQA` runs with the same kwargs. Its answer is returned unstripped, beside citations of its source documents. |
| QaAgentLangchain.LangChainQAAgent.AnswerQuestionCustom | app/agent/qa_agent_langchain.py:126-234 | The custom chain's outcome is the specified custom answer. |
| QaAgentLangchain.LangChainQAAgent.AnswerQuestion | app/agent/qa_agent_langchain.py:236-261 | `answer_question` has the custom chain's outcome for the same arguments. |
| FileParser.Extension | backend/app/utils/file_parser.py:33 | The extension is the lower-cased suffix after the last `.` and contains no dot. A name with no dot gives the whole lower-cased name. |
| FileParser.GetSupportedExtensions | backend/app/utils/file_parser.py:97-104 | The supported extensions are exactly those `parse_text` handles, without dots and without repeats. |
| FileParser.FormatCheckExamples | backend/test_pdf_support.py:16-24 | `document.txt`, `readme.md`, `notes.markdown` and `report.pdf` are supported. `image.png`, `data.docx` and `sheet.xlsx` are not. |
| FileParser.SupportIgnoresCase | backend/app/utils/file_parser.py:107-118 | Support does not depend on the case of the name. |
| FileParser.KeptFacts | backend/app/utils/file_parser.py:82-85 | The page loop fails at the first failing page. Otherwise each kept text is the text of a page, in increasing page order, every non-blank page is kept and no blank one is, and none is kept exactly when every page is blank. |
| FileParser.ParsePdf | backend/app/utils/file_parser.py:62-94 | `_parse_pdf` returns the kept pages joined with blank lines, or the prefixed failure. |
| FileParser.PdfTextFacts | backend/app/utils/file_parser.py:81-94 | A PDF parses exactly when no page fails and some page has text, giving the non-blank pages joined by `\n\n`. Every failure, the textless PDF included, carries the `Failed to parse PDF: ` prefix. |
| FileParser.ParseAgreesWithIsSupported | backend/app/utils/file_parser.py:35-43 | `parse_text` raises the unsupported-format error exactly when `is_supported` is false, with the message naming the extension. |
| FileParser.ParseText | backend/app/utils/file_parser.py:17-43 | Text and markdown are decoded, PDF is parsed, and everything else is refused. |

## Left out

- The result of Chroma's `add`, `query`, `get` and `delete` is modelled; their internals are not. `get()` is taken to return the rows in insertion order, so the catalogue's first-seen order is store order. Chroma's similarity ranking is the `query` oracle. A row whose id is already stored is skipped by `AddRecords`, as Chroma's `add` ignores it. A batch that repeats an id within itself, which Chroma rejects, is not modelled: the batch shape (`UniqueIds`) and the distinct uuids the callers require exclude it. Concurrent writers are not modelled.
- VectorDb.VectorDBService.Search: the query oracle gives a distance with every hit, so the `None` distance that `search` reports when Chroma returns no `distances` is not modelled.
- LangChain's `RecursiveCharacterTextSplitter` is the `split` oracle, and the uuids of the LangChain `add_document` are a parameter. Because the splitter copies the document's metadata into each piece, the per-chunk maps are modelled as separate values.
- Cosine similarity and all floating point. Scores are abstract reals; NaN and infinities are not modelled.
- The sentence-transformer encoder, the Gemini client, `json.loads`, UTF-8 decoding and pypdf are oracles. A pypdf page whose `extract_text` returns nothing is modelled as a failed page.
- Schemas.ValidateConfidence: reading a string as a float is an oracle, and the rest of pydantic's lax coercion is modelled only for the JSON types an LLM reply can contain.
- Common.Lower: ASCII case mapping only. Python's Unicode `lower()` is not modelled. (`Common.Strip` uses the full `str.isspace` set, `Common.IsSpace`.)
- The print statements and logging of every service, and the print loop of `answer_question`. The print loop's only effect besides printing is a `TypeError` on a non-numeric `chunk_index`, which the model merges into the citation loop's `TypeError`.
- Agent.Validate: the invalid-output path is modelled as the error value `ValidationFailed`. The exact exception classes are not: the source builds `ValidationError` from a string, which pydantic itself refuses.
- QaAgentLangchain.CustomAnswerFacts: it states no agreement between the documents in the prompt and the cited documents, because the code retrieves twice and nothing forces the two retrievals to agree.
- Singleton getters, configuration and environment reading, the FastAPI routes, `llm_langchain.py`, `reindex_documents.py` and the setup scripts are not part of this model.
- Chunk and metadata values other than strings and integers.
- Schemas.ErrorsListEveryField: it keeps one error per field. pydantic reports one error per failing list item (`evidence.0`, `evidence.2`), so a list field with several bad items gets a single entry here. The agent path only sees whether validation failed.
- The doubled braces `{{` and `}}` of the `SYSTEM_PROMPT` literal and their un-doubling by `str.format` are not modelled. `Prompts.SystemTailLines` holds the rendered text, with single braces.
- Chunking.ChunkText: it requires `2*overlap <= chunk_size`. The only caller passes 500 and 50. Outside that bound `_chunk_text` can loop forever. With chunk size 10 and overlap 7, the text `aaaaaa. bbbbbbbbbbbb` is cut after the `.` at end 7, the next start is `7 - 7 = 0`, and the loop repeats the same window.
