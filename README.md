# Derivatives chatbot: retrieval and answer core

A Dafny model of the question-answering core of the derivatives chatbot
(`Projects/derivateives_chatbot_finished/functions1.py`). Given a question, the assistant:

1. asks the vector-store retriever for documents;
2. if that finds nothing, has the language model write alternative queries, one per line,
   retrieves documents for every line and keeps the unique union of the results;
3. joins the documents' text into the prompt's context slot;
4. fills the history slot from a memory window of the last five turns, or with a fixed
   opening sentence when the rendered history is blank;
5. asks the model for the answer, saves the turn to memory and returns the answer together
   with the `source` of every context document.

Around that core the model covers how Word files become documents (`load_word_documents`) and
the text entries written by `save_feedback` and `save_conversation`.

Modules:

- `Outcome`: `Option` and `Result`. A `Failure` is the Python exception a step raises:
  `NameError`, `KeyError`, or an error from an outside service.
- `Text`: Python's `str.isspace`/`strip` blank test, `endswith`, `join` and `split`, plus
  the split/join round trips.
- `Documents`: the `Document` value, the unique union `get_unique_union` (a loop over a
  set whose order is chosen arbitrarily, like `list(set(...))`), the context text and the
  sources list.
- `Loading`: the directory-listing filter of `load_word_documents`, an imperative loop
  proved equal to a recursive specification.
- `Memory`: `ConversationBufferWindowMemory(k=5)`, a class whose `save_context` keeps the
  `k` newest turns (first in, first out).
- `Pipeline`: `retrieve_and_generate_answer`. The retriever, the query generator, the
  memory's history rendering and the answering model are function-valued parameters
  (`Oracles`). The retriever, the query generator and the answering model may raise; the
  history rendering always returns text. A ghost log records each retrieval, generation and
  answer call just before it is made, so the order of those calls is part of the contract.
- `Logs`: the feedback and conversation log entries.

The model follows the code:

- The query prompt (functions1.py:148) asks for five queries, but nothing enforces that
  number. Every newline-separated piece of the model's output is used as a query, empty
  pieces included.
- A context document without a `source` raises `KeyError` only after the turn has been
  saved to memory.
- The multi-query fallback is modelled as the evident intent: the per-query lists are
  handed to the unique union, with `dumps` and `loads` available. The code as written fails
  in that branch (see Findings).

## Model

| member | source | states |
|---|---|---|
| Text.Split | Projects/derivateives_chatbot_finished/functions1.py:161 | `x.split("\n")` always returns at least one piece |
| Text.SplitPiecesLackSeparator | Projects/derivateives_chatbot_finished/functions1.py:161 | no generated query contains a newline |
| Text.JoinSplit | Projects/derivateives_chatbot_finished/functions1.py:161 | joining the pieces with the separator gives back the original text: splitting loses nothing |
| Text.SplitJoin | Projects/derivateives_chatbot_finished/functions1.py:161 | splitting a join of separator-free pieces gives back exactly those pieces |
| Text.SplitCount | Projects/derivateives_chatbot_finished/functions1.py:161 | there is one more piece than the text has newlines |
| Text.JoinAppend | Projects/derivateives_chatbot_finished/functions1.py:199 | joining two non-empty lists is joining each one, with one separator between them |
| Documents.Flatten | Projects/derivateives_chatbot_finished/functions1.py:168 | the flattened list holds exactly the documents found in some sublist |
| Documents.SetToList | Projects/derivateives_chatbot_finished/functions1.py:170 | `list(set(...))` lists every member of the set exactly once, in some order |
| Documents.GetUniqueUnion | Projects/derivateives_chatbot_finished/functions1.py:165-172 | the result holds every document of every list, and nothing else, each once |
| Documents.UniqueUnionBounds | Projects/derivateives_chatbot_finished/functions1.py:165-172 | a unique union is no longer than all the lists together, and is empty iff every list is empty |
| Documents.UniqueUnionsArePermutations | Projects/derivateives_chatbot_finished/functions1.py:170-172 | two unique unions of the same lists differ only in order; a document shared by several lists appears once |
| Documents.PageContents | Projects/derivateives_chatbot_finished/functions1.py:199 | one text per context document, in context order |
| Documents.ContextText | Projects/derivateives_chatbot_finished/functions1.py:199 | an empty context gives an empty context slot; a single document gives exactly its text |
| Documents.ContextTextAppend | Projects/derivateives_chatbot_finished/functions1.py:199 | the context text of two non-empty parts is their texts with a blank line between them |
| Documents.Sources | Projects/derivateives_chatbot_finished/functions1.py:225 | succeeds iff every document has a `source`, else fails with `KeyError('source')`; on success one source per document, in context order |
| Documents.SourcesKeepDuplicates | Projects/derivateives_chatbot_finished/functions1.py:225 | two documents from the same file contribute that file name twice: sources are not de-duplicated |
| Loading.Tagged | Projects/derivateives_chatbot_finished/functions1.py:47-50 | defines the document a file becomes: the paragraphs joined by newlines, with metadata exactly `{"source": filename}` |
| Loading.LoadWordDocuments | Projects/derivateives_chatbot_finished/functions1.py:40-59 | the loop returns, in listing order, the documents of the `.docx` entries whose text is not blank |
| Loading.LoadedDocsMembers | Projects/derivateives_chatbot_finished/functions1.py:43-50 | a document is loaded iff some listed `.docx` entry with non-blank text produces it |
| Loading.LoadedDocsAreTaggedWordFiles | Projects/derivateives_chatbot_finished/functions1.py:44-50 | every loaded document has non-blank text and a `source` naming a listed file that ends in `.docx` |
| Loading.LoadedDocsAppend | Projects/derivateives_chatbot_finished/functions1.py:43-50 | entries are filtered one by one, independently: loading a concatenated listing concatenates the results |
| Loading.LoadedDocsLength | Projects/derivateives_chatbot_finished/functions1.py:43-50 | at most one document per directory entry |
| Memory.Window | Projects/derivateives_chatbot_finished/functions1.py:179-180 | defines the window as the last `min(k, n)` turns of the history, oldest first |
| Memory.WindowSlides | Projects/derivateives_chatbot_finished/functions1.py:179-180 | saving into the window is the same as windowing the whole history: an evicted turn never comes back |
| Memory.WindowEvictsOldest | Projects/derivateives_chatbot_finished/functions1.py:179-180 | below capacity a turn is appended; at capacity the oldest turn is dropped (first in, first out) |
| Memory.WindowMemory.constructor | Projects/derivateives_chatbot_finished/functions1.py:180 | a new memory holds no turns and keeps the window invariant |
| Memory.NewSessionMemory | Projects/derivateives_chatbot_finished/functions1.py:180 | the assistant's memory starts empty with a window of five |
| Memory.WindowMemory.SaveContext | Projects/derivateives_chatbot_finished/functions1.py:222 | the turn is recorded; the memory then holds the window of the old turns plus the new one, never more than `k` |
| Pipeline.HistorySlot | Projects/derivateives_chatbot_finished/functions1.py:202-206 | the history slot is never blank: it is the rendered history if that is not blank, and the fixed opening sentence otherwise |
| Pipeline.RetrieveEachMeaning | Projects/derivateives_chatbot_finished/functions1.py:192-195 | the comprehension succeeds iff every retrieval does, giving one list per query in order; otherwise it raises the exception of the first retrieval that raised |
| Pipeline.RetrieveAll | Projects/derivateives_chatbot_finished/functions1.py:192-195 | the loop over the queries logs each retrieval just before making it, stops at the first one that raises, and returns exactly the comprehension's result |
| Pipeline.FallbackCallsStopAtFirstFailure | Projects/derivateives_chatbot_finished/functions1.py:192-195 | when query `i` is the first to raise, exactly queries `0..i` have been retrieved, in order |
| Pipeline.FallbackCallsOnePerQuery | Projects/derivateives_chatbot_finished/functions1.py:192-195 | when nothing raises, the fallback retrieves each query exactly once, in order |
| Pipeline.RetrieveContext | Projects/derivateives_chatbot_finished/functions1.py:186-196 | the context is the direct result when it is non-empty, otherwise a unique union of the per-query results; any exception is passed on; the collaborator calls follow that order |
| Pipeline.DirectRetrievalWins | Projects/derivateives_chatbot_finished/functions1.py:186-189 | when direct retrieval finds something, it is the context and no queries are generated |
| Pipeline.FallbackRetrievesEveryPiece | Projects/derivateives_chatbot_finished/functions1.py:190-195 | the fallback retrieves every newline-separated piece, in order, after one retrieval and one generation; that is one retrieval more than there are newlines |
| Pipeline.FallbackContextIsUnion | Projects/derivateives_chatbot_finished/functions1.py:190-196 | the fallback context is exactly the documents retrieved by some piece, each once, and no longer than their concatenation |
| Pipeline.EmptyIndexGivesEmptyContext | Projects/derivateives_chatbot_finished/functions1.py:186-199 | with nothing retrievable and the query generator answering, the context, its text and its sources are all empty |
| Pipeline.RetrieveAndGenerateAnswer | Projects/derivateives_chatbot_finished/functions1.py:182-227 | a failed retrieval or answer leaves memory untouched; otherwise the prompt is built from the context text, the history slot and the question; the turn is saved; the reply is the answer plus the sources, or `KeyError` after the save |
| Pipeline.FallbackAsWritten | Projects/derivateives_chatbot_finished/functions1.py:192-196 | as written, the fallback can only return an empty context |
| Pipeline.FallbackAsWrittenFails | Projects/derivateives_chatbot_finished/functions1.py:192-196 | as written, the fallback raises exactly when some generated query retrieves something, which is exactly when the intended context is non-empty |
| Pipeline.FallbackAsWrittenCounterexample | Projects/derivateives_chatbot_finished/functions1.py:192-196 | a question with no direct hit, one generated query and one document: as written `NameError`, intended context that document |
| Logs.FeedbackEntry | Projects/derivateives_chatbot_finished/functions1.py:244 | a feedback entry ends with the 40-dash rule and a newline |
| Logs.FeedbackEntryLines | Projects/derivateives_chatbot_finished/functions1.py:244 | read back line by line, the entry is Time, Question, Bot Response (`None` when absent), Feedback, the rule, and an empty tail |
| Logs.ConversationEntry | Projects/derivateives_chatbot_finished/functions1.py:262 | a conversation entry ends with the 40-dash rule and a newline |
| Logs.ConversationEntryLines | Projects/derivateives_chatbot_finished/functions1.py:262 | read back line by line, the entry is Time, Question, Bot Response, the rule, and an empty tail |
| Logs.FeedbackEntryText | Projects/derivateives_chatbot_finished/functions1.py:244 | for any field values, multi-line answers included, the entry is exactly the f-string: Time, Question, Bot Response, Feedback lines, then the rule |
| Logs.ConversationEntryText | Projects/derivateives_chatbot_finished/functions1.py:262 | for any field values, multi-line answers included, the entry is exactly the f-string: Time, Question, Bot Response lines, then the rule |
| Logs.FeedbackExtendsConversation | Projects/derivateives_chatbot_finished/functions1.py:244 | a feedback entry is the conversation entry for the same exchange with the Feedback line inserted before the rule |

## Left out

- The Streamlit user interface and the session handling that calls this core are not part of this model.
- The OpenAI chat model, the Chroma vector store, the embeddings and the text splitter are outside code. They appear only as the `Oracles` functions. Which documents the retriever returns, and how many (its `k`), is left to that function.
- The prompt templates' wording and `prompt.format` are left out. The model passes the three slots (context, history, question) to the answering oracle.
- How the memory renders its turns as history text is an oracle (`renderHistory`). The model fixes only what the core does with that text.
- Loading the API key from the environment, and building or re-opening the persisted index, are left out. They are start-up I/O.
- File and clock I/O are left out:
  - `os.listdir` is modelled by a listing passed in as a parameter, in whatever order it arrives;
  - `DocxDocument` parsing is modelled by the paragraphs passed in with each entry; its parse errors are not modelled;
  - directory creation and appending entries to the log files are left out;
  - `datetime.now().strftime` is replaced by the time passed in as text.
- The `print` warnings of `load_word_documents` are left out. They change no result.
- Documents.GetUniqueUnion: the model assumes `dumps` and `loads` are imported, which functions1.py does not do (see Findings). They are modelled as an exact round trip, so "same serialised form" becomes value equality of `Doc`. The JSON form can also differ in metadata key order or a document id, and the model does not capture that. The result's order is left unconstrained, as the hash order of `set` is.
- Documents.Doc: metadata values are modelled as text. The core only ever stores and reads the file name under `source`.
- Logs.FeedbackEntry: the f-string formats any value, but the question, the feedback and the answer are modelled as strings only. The same holds for Logs.ConversationEntry.

## Findings

| source | as written | input that shows it | evidently intended | confidence | as-written member | corrected member |
|---|---|---|---|---|---|---|
| Projects/derivateives_chatbot_finished/functions1.py:192-196 | The fallback flattens the per-query results into one list of documents, then passes that list to `get_unique_union`, which expects a list of lists. Its body calls `dumps` and `loads`, which the module never imports (functions1.py:1-17). | The question retrieves nothing directly; the generator returns the single line `swap`; that query retrieves one document. Iterating the flat list reaches `dumps(...)`, which raises `NameError` instead of answering. | Import `dumps` and `loads`, hand `get_unique_union` the per-query lists, and return their de-duplicated union as the context. The missing import alone makes `get_unique_union` raise on any non-empty input, however it is shaped. | not executed; high (read from the source) | Pipeline.FallbackAsWrittenCounterexample | Pipeline.RetrieveContext |
