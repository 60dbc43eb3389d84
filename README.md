# Retrieval workflow state, stages and document ingestion — a Dafny model

The backend answers a user's question through a supervised workflow: a
supervisor stage picks a worker (RETRIEVAL, ANSWER or TRANSLATE), and each
stage reads a shared state and returns a partial update. The state is merged
per key: `messages` is appended to, every other key is replaced. Documents reach the
retrieval service through an upload path. That path cuts a document's text at every
blank line (`"\n\n"`), labels each paragraph with a keyword classifier, and adds one
document per paragraph to the vector store.

This project models the logic the repository itself contains:

- `agent_state.dfy` (module `AgentState`): the state record, partial updates and the
  merge rule. It also covers merging a sequence of updates.
- `nodes.dfy` (module `Nodes`): the supervisor, answer, translate and retriever stages as
  functions from state to `Result<Update, NodeError>`. The language model (`Llm`) and the
  retrieval call are parameters. A `Prompt` records only the values a prompt is built from.
- `strings.dfy` (module `Strings`): Python's substring test, `str.split` and `str.join`.
- `rag_service.dfy` (module `Rag`): the source classifier, and the upload loop. The loop is
  a method of `RagService` that appends to the `documents` field of a `VectorStore`.
- `documents.dfy`, `wrappers.dfy`: the document record, `Option` and `Result`.

The repository does not define the graph engine. Building, compiling and running the
graph belong to the LangGraph library. `GraphFactory.build_graph` only forwards nodes and
edges to it. So the model has no compiler and no run loop.

## Model

| member | source | states |
|---|---|---|
| `AgentState.Merge` | backend/app/api/services/langgraph/state.py:14-16 | the old messages are an unchanged prefix of the merged list, and what follows them is exactly the update's messages (none if the update has no `messages` key) |
| `AgentState.MergeReplaceFields` | backend/app/api/services/langgraph/state.py:14-35 | `next`, `retrieval_context` and `translated_context` take the update's value when it carries one. A key the update omits, messages included, keeps its previous value |
| `AgentState.MergeLaterWriteWins` | backend/app/api/services/langgraph/state.py:14-15 | of two successive updates to a replace key, the later value stays |
| `AgentState.MergeCombine` | backend/app/api/services/langgraph/state.py:14-16 | merging two updates in turn equals merging once their combination: messages concatenated, later replace values winning |
| `AgentState.MessagesOnlyGrow` | backend/app/api/services/langgraph/state.py:9-16 | after any sequence of merges, the message list is the original list followed by every message the updates carried, in order. So it never shrinks and no message is altered |
| `AgentState.ReplaceFieldsHoldLatest` | backend/app/api/services/langgraph/state.py:15-35 | after any sequence of merges, each replace key holds the value of the most recent update that wrote it (`LastWriter`). If no update wrote it, it keeps its initial value |
| `AgentState.Initial` | backend/app/api/services/langgraph_service.py:47 | the input a turn starts from: the user's request as the only message, with role user. No other key is present |
| `Nodes.ParseRoute` | backend/app/api/services/langgraph/nodes/llm_node.py:15-17 | the `Router` literal admits a name exactly when it is one of RETRIEVAL, ANSWER, TRANSLATE, and the accepted route carries that same name |
| `Nodes.RouteNames` | backend/app/api/services/langgraph/nodes/llm_node.py:15-17 | every route's name is a member, parses back to the same route, and is not FINISH |
| `Nodes.RouterAdmitsExactlyMembers` | backend/app/api/services/langgraph/nodes/llm_node.py:15-17 | FINISH is rejected although the docstring mentions it. Every member name is the name of some route |
| `Nodes.Supervisor` | backend/app/api/services/langgraph/nodes/llm_node.py:19-40 | fails with IndexError exactly when there are no messages. Otherwise the model's reply for the member list and the last message is written to `next` as it is, without any check against the `Router` literal, and nothing else is written |
| `Nodes.SupervisorRoutesMember` | backend/app/api/services/langgraph/nodes/llm_node.py:15-17 | the `next` the supervisor writes names a route, and is then not FINISH, exactly when the model's reply is one of the `Router` literal's values |
| `Nodes.SupervisorPassesFinish` | backend/app/api/services/langgraph/nodes/llm_node.py:36-40 | a FINISH reply, which the prompt asks for when the work is done, is written into `next` unchanged although it names no route |
| `Nodes.SupervisorAsWritten` | backend/app/api/services/langgraph/nodes/llm_node.py:29 | always fails: IndexError on an empty message list, otherwise TypeError from the prompt builder's arity |
| `Nodes.SupervisorMerge` | backend/app/api/services/langgraph/nodes/llm_node.py:40 | merging the supervisor's update changes `next` only, to the model's reply |
| `Nodes.AnswerContext` | backend/app/api/services/langgraph/nodes/llm_node.py:56-59 | the prompt gets the stored retrieval context when it is present, and `[]` otherwise. A non-empty context is always the stored one |
| `Nodes.AnswerNode` | backend/app/api/services/langgraph/nodes/llm_node.py:42-68 | fails with IndexError exactly when there are no messages. Otherwise it writes only `messages`: one assistant message whose content is the model's reply to the context and the last message |
| `Nodes.AnswerMerge` | backend/app/api/services/langgraph/nodes/llm_node.py:68 | after merging, `messages` is one longer, the old messages are its prefix, the new one is the assistant's, and the other keys are unchanged |
| `Nodes.TranslateNode` | backend/app/api/services/langgraph/nodes/llm_node.py:70-90 | fails with IndexError exactly when there are no messages. Otherwise it writes only `translated_context`, equal to the model's translation of the last message |
| `Nodes.TranslateMerge` | backend/app/api/services/langgraph/nodes/llm_node.py:88-90 | after merging, only `translated_context` has changed, to the model reply |
| `Nodes.LastContent` | backend/app/api/services/langgraph/nodes/llm_node.py:52 | `state["messages"][-1].content`: the last message's content, or IndexError exactly when the list is empty. The same read appears at llm_node.py lines 29 and 81 and retriever_node.py line 19 |
| `Nodes.RetrievalQuery` | backend/app/api/services/langgraph/nodes/retriever_node.py:17-19 | the query is `translated_context` when present and non-empty. Otherwise it is the last message, and it fails with IndexError exactly when that fallback meets an empty message list |
| `Nodes.RetrieverNode` | backend/app/api/services/langgraph/nodes/retriever_node.py:5-23 | succeeds exactly when a query can be chosen. It writes only `retrieval_context`: the documents found for that query |
| `Nodes.RetrieverAsWritten` | backend/app/api/services/langgraph/nodes/retriever_node.py:21 | always fails: IndexError when no query can be chosen, otherwise TypeError from the `k` keyword |
| `Nodes.RetrieverMerge` | backend/app/api/services/langgraph/nodes/retriever_node.py:21-23 | after merging, the found documents replace any earlier context, and `messages`, `next` and `translated_context` are unchanged |
| `Nodes.TranslateThenRetrieve` | backend/app/api/services/langgraph/nodes/retriever_node.py:17-19 | after a translation is merged, the retriever searches for it when it is non-empty, and for the last message when it is empty |
| `Nodes.RetrieveThenAnswer` | backend/app/api/services/langgraph/nodes/llm_node.py:56-57 | whenever a retrieval query can be chosen, merging the retriever's update makes the answer prompt's context exactly the documents it found |
| `Nodes.RetrieveAnswerTurn` | backend/app/api/services/langgraph_service.py:40-47 | from the initial input `{messages: [user request]}`, RETRIEVAL then ANSWER ends with two messages: the request, then the answer built on the documents found for it. `next` and `translated_context` stay absent |
| `Nodes.SupervisorArityFinding` | backend/app/api/services/langgraph/nodes/llm_node.py:29 | on the opening state the supervisor as written raises TypeError, while the corrected supervisor writes the model's reply for the request into `next` |
| `Nodes.RetrieverKeywordFinding` | backend/app/api/services/langgraph/nodes/retriever_node.py:21 | on the opening state the retriever as written raises TypeError, while the corrected one stores the documents found for the request |
| `Strings.IndexOfCorrect` | backend/app/api/services/rag_service.py:47 | IndexOf's result is the leftmost occurrence of the pattern, or none exactly when the pattern does not occur |
| `Strings.Split` | backend/app/api/services/rag_service.py:47 | Python's `str.split` with an explicit separator, cutting at each leftmost occurrence in turn. Like Python, it returns at least one piece, also for the empty text |
| `Strings.Contains` | backend/app/api/services/rag_service.py:23-31 | Python's `in` on strings holds exactly when the keyword is a substring |
| `Strings.JoinSplit` | backend/app/api/services/rag_service.py:47 | joining the split pieces back with the separator gives the original text |
| `Strings.SplitChunksFree` | backend/app/api/services/rag_service.py:47 | no piece of the split contains the separator |
| `Strings.SplitKeepsEmptyChunk` | backend/app/api/services/rag_service.py:47 | two separators in a row yield an empty piece between them; empty pieces are not dropped |
| `Rag.IdentifySourceType` | backend/app/api/services/rag_service.py:21-32 | a label comes back exactly when one of the five keywords occurs. The label is that of the first keyword in priority order that occurs, and no keyword of higher priority occurs |
| `Rag.SpaceFictionWins` | backend/app/api/services/rag_service.py:23-24 | text containing "Ficción Espacial" is labelled "Ficcion Espacial", whatever other keywords it contains |
| `Rag.HeroLabel` | backend/app/api/services/rag_service.py:31-32 | text containing "Héroe" and none of the earlier keywords is labelled "Características del Héroe Olvidado" |
| `Rag.LabelExcludesEarlierKeywords` | backend/app/api/services/rag_service.py:23-32 | when a rule's label comes back, its keyword occurs and no earlier keyword does |
| `Rag.LabelsDistinct` | backend/app/api/services/rag_service.py:24-32 | the five labels are pairwise distinct, so a label identifies its branch |
| `Rag.LabelIsFixed` | backend/app/api/services/rag_service.py:21-32 | the result is one of the five fixed labels or no label |
| `Rag.Tagged` | backend/app/api/services/rag_service.py:50 | the document built for a chunk has the chunk as its page content. Its source is absent exactly when none of the five keywords occurs in the chunk |
| `Rag.TagAll` | backend/app/api/services/rag_service.py:49-50 | one document per chunk, in chunk order, each the chunk's tagged document |
| `Rag.Ingest` | backend/app/api/services/rag_service.py:47-50 | the documents an uploaded text becomes: one per piece of its split on "\n\n", in order. Each has its piece as content and that piece's label as source |
| `Rag.IngestRebuildsText` | backend/app/api/services/rag_service.py:47-51 | there is one document per paragraph. Each document's source is its own paragraph's label, no page contains "\n\n", and the pages joined with "\n\n" rebuild the text |
| `Rag.EmptyChunkKept` | backend/app/api/services/rag_service.py:47-50 | a blank line directly after a paragraph break yields an empty, unlabelled document |
| `Rag.VectorStore.AddDocuments` | backend/app/api/services/rag_service.py:51 | the given documents are appended to the store, in order |
| `Rag.RagService.constructor` | backend/app/api/services/rag_service.py:16-19 | the service works against the given vector store |
| `Rag.RagService.UploadDocument` | backend/app/api/services/rag_service.py:34-53 | the store gains the ingested documents of the uploaded text, one per paragraph and in order, after what it held before. The response is the file name and the byte count |

## Left out

- Graph building, compilation, supervisor routing and the run loop: these are LangGraph library code, not part of the repository. `build_graph` only forwards to `StateGraph.add_node`/`add_edge`. The wiring in `langgraph_service.py` cannot run as written: it calls `set_supervisor_node`, which is not defined; it passes dicts where `node.name` is read; and it calls `ainvoke` on an uncompiled graph.
- `add_messages` internals (replacing messages by id, coercing dicts to message objects): the model keeps only the documented append. Messages carry only a role and content.
- Updates naming an undeclared key: `Update` can only name the declared keys, so this error cannot arise in the model.
- Language-model calls and prompt text: opaque. `Llm.route` stands for the structured-output call, whose `next` value is taken as the model produced it, since a `TypedDict` schema is not validated; and `Llm.complete` for the plain call's reply content. The module-level `LLMService("openai", "gpt-4o-mini")` passes arguments to a class without such a constructor; that setup is outside the model.
- Vector store, embeddings, similarity search, the temporary file and the `.docx` loader: the store is the list of documents added to it, and text extraction is the `loadText` parameter. `query_document` is left out. It prints one similarity search with k=3 and returns a second search wrapped in a dict `{"documents": ...}`. The retriever's `retrieve` parameter stands for it and gives the unwrapped document list.
- Nodes.RetrieverNode: stores the unwrapped document list as `retrieval_context`, as the state declares it (`list[Document]`). The `{"documents": ...}` wrapper that `query_document` returns is dropped.
- Nodes.AnswerContext: tests the truthiness of the stored list. With the dict wrapper, any stored context is truthy, so the source would pass `{'documents': []}` to the prompt after an empty search. The model passes `[]` instead.
- Strings.Split: requires a non-empty separator, where Python raises ValueError instead. The only separator used is the constant "\n\n".
- Keyword matching compares code points exactly; no Unicode normalisation is modelled.
- `async`/`await`, logging through `print`, configuration loading, HTTP routes, schemas and the frontend.
- Handlers not mutating their input state holds by construction: states are immutable values.

## Findings

| source | as written | input that shows it | evidently intended | confidence | as-written member | corrected member |
|---|---|---|---|---|---|---|
| backend/app/api/services/langgraph/nodes/llm_node.py:29 | `generate_supervisor_prompt` is called with the member list and the last message, but takes only the member list (backend/app/api/core/prompt.py:1), so the call raises TypeError | the opening state `{messages: [user "hola"]}` | build the supervisor prompt from the members and the request, then write the model's reply into `next` | high; not executed | `Nodes.SupervisorAsWritten` | `Nodes.Supervisor` |
| backend/app/api/services/langgraph/nodes/retriever_node.py:21 | `query_document(user_query, k=2)` passes a keyword that `query_document(self, query)` does not accept (backend/app/api/services/rag_service.py:58), so the call raises TypeError | the opening state `{messages: [user "hola"]}` | look up the documents for the chosen query and store them as `retrieval_context` | high; not executed | `Nodes.RetrieverAsWritten` | `Nodes.RetrieverNode` |
