# Chatbot_GraphDatabase core, modelled in Dafny

This project models the logic of a conversational agent over a Neo4j movie graph. It covers three pieces.

The **Cypher retrieval tool** turns a rephrased question into a Cypher statement. It uses a generate-then-validate loop of at most five rounds, followed by a regex rewrite of `id(x)` into `elementId(x)`. It runs the statement with a correct-and-retry loop of at most five attempts. It then serialises the rows into a context string (a single row is unwrapped), generates an answer and saves the turn.

The **conversation memory** keeps, per session, an append-only chain of `(:Response)` nodes in the graph:
- `HAS_RESPONSE` edges give membership;
- `NEXT` edges give the order;
- one `LAST_RESPONSE` edge marks the tail;
- `CONTEXT` edges point to the nodes the answer was drawn from.

`saveHistory` appends a turn, `getHistory` reads a bounded backward window, and `clearHistory` detach-deletes a session's responses.

The **rephrase chain's formatter** renders the history as a `Human:`/`AI:` transcript. The **vector retrieval tool** fetches five documents, extracts their `metadata._id`, serialises them, answers and saves the turn.

The language-model chains, the database, the vector store and `JSON.stringify` are all oracles passed in as functions. An oracle called several times in a loop takes the round or attempt number as its first argument, so successive calls may answer differently.

The history is modelled as follows:
- `History.Graph` is the content of the database.
- `Saved`, `Cleared` and `ReadHistory` are what the three Cypher queries do to it.
- `History.HistoryStore` is a class that holds the graph and updates it in place. A ghost map `chains` (each session's responses, oldest first) is tied to the edges by the class invariant `Wf`. Every response lies on its owner's chain, every NEXT edge links two neighbours of a chain, and LAST_RESPONSE marks each chain's tail.
- A database query may fail; the failure is a parameter of the save, the clear and the read, and a failed query rejects the call and changes nothing.

Files:
- `outcomes.dfy`: Option and Outcome (a value, or the message of a thrown exception).
- `json_values.dfy`: JavaScript values.
- `id_rewrite.dfy`: the `id(` rewrite.
- `history.dfy`: the memory.
- `cypher_retrieval.dfy`: the Cypher tool.
- `rephrase_question.dfy`: the transcript formatter.
- `vector_retrieval.dfy`: the vector tool.

## Model

| member | source | states |
|---|---|---|
| IdRewrite.FirstClose | src/modules/agent/tools/cypher/cypher-retrieval.chain.ts:51 | the result is the index of the first `)`, or None exactly when there is no `)` (the `[^)]+` run ends there) |
| IdRewrite.MatchEnd | src/modules/agent/tools/cypher/cypher-retrieval.chain.ts:51 | Some(j) exactly when the pattern `\sid\(([^)]+)\)` matches at index 0 ending at j; None when no end makes it match |
| IdRewrite.MatchIsUnique | src/modules/agent/tools/cypher/cypher-retrieval.chain.ts:51 | a match at a given position has only one possible end, so the scan is deterministic |
| IdRewrite.RewriteIdCalls | src/modules/agent/tools/cypher/cypher-retrieval.chain.ts:51 | the rewrite never shortens the text |
| IdRewrite.RewriteCopiesPrefix | src/modules/agent/tools/cypher/cypher-retrieval.chain.ts:51 | a prefix in which no match starts is copied through unchanged |
| IdRewrite.RewriteUnchanged | src/modules/agent/tools/cypher/cypher-retrieval.chain.ts:51 | text with no occurrence of the pattern is returned unchanged |
| IdRewrite.RewriteWithoutClose | src/modules/agent/tools/cypher/cypher-retrieval.chain.ts:51 | text with no `)` is returned unchanged |
| IdRewrite.RewriteSingleCall | src/modules/agent/tools/cypher/cypher-retrieval.chain.ts:51 | whitespace followed by `id(a)`, with a non-empty argument free of `)`, becomes ` elementId(a)` and the scan resumes after it |
| IdRewrite.LeadingIdUntouched | src/modules/agent/tools/cypher/cypher-retrieval.chain.ts:51 | an `id(` at position 0 has no whitespace before it and is left alone |
| IdRewrite.ElementIdCallsUntouched | src/modules/agent/tools/cypher/cypher-retrieval.chain.ts:51 | an existing ` elementId(` call is left alone |
| IdRewrite.RewriteIdempotent | src/modules/agent/tools/cypher/cypher-retrieval.chain.ts:51 | a second rewrite changes nothing, provided every call is closed before the next one starts |
| IdRewrite.NestedCallFirstPass | src/modules/agent/tools/cypher/cypher-retrieval.chain.ts:51 | in ` id(a id(x))` the first pass rewrites only the outer call |
| IdRewrite.NestedCallNeedsSecondPass | src/modules/agent/tools/cypher/cypher-retrieval.chain.ts:51 | without that precondition the rewrite is not idempotent: the nested call is rewritten only on a second pass |
| CypherRetrieval.Step | src/modules/agent/tools/cypher/cypher-retrieval.chain.ts:37-49 | every round adds one to `tries`, whether or not the evaluator throws |
| CypherRetrieval.Iterate | src/modules/agent/tools/cypher/cypher-retrieval.chain.ts:36-50 | n rounds add n to `tries` |
| CypherRetrieval.Settle | src/modules/agent/tools/cypher/cypher-retrieval.chain.ts:36-50 | the loop stops in a state that fails the loop condition, after at least one round exactly when the start state passes it, and never past the fifth try |
| CypherRetrieval.Synthesize | src/modules/agent/tools/cypher/cypher-retrieval.chain.ts:24-53 | what recursivelyEvaluate resolves to: a generation failure propagates, otherwise the rewritten statement of the state `Settle` stops in; its properties are those of `RecursivelyEvaluate`, `StopsAtFirstClean` and `AlwaysThrowingEvaluator` |
| CypherRetrieval.RecursivelyEvaluate | src/modules/agent/tools/cypher/cypher-retrieval.chain.ts:24-53 | the loop over `cypher`, `errors` and `tries` resolves to `Synthesize`: a generation failure propagates; otherwise the rewritten statement of the state in which the loop stops |
| CypherRetrieval.SettleIsFirstStop | src/modules/agent/tools/cypher/cypher-retrieval.chain.ts:36 | the loop stops in the first state that fails `tries < 5 && errors.length > 0`, after at most five rounds in all |
| CypherRetrieval.RoundsBounded | src/modules/agent/tools/cypher/cypher-retrieval.chain.ts:33-37 | because `errors` starts as `["N/A"]`, at least one round runs, and never more than five |
| CypherRetrieval.StopsAtFirstClean | src/modules/agent/tools/cypher/cypher-retrieval.chain.ts:36-48 | stopping before five rounds means the last evaluation returned an empty error list; that evaluation's statement is the one returned; no earlier state was error-free |
| CypherRetrieval.IterateLast | src/modules/agent/tools/cypher/cypher-retrieval.chain.ts:36-50 | n + 1 rounds are one round after n rounds |
| CypherRetrieval.ThrownRoundKeepsState | src/modules/agent/tools/cypher/cypher-retrieval.chain.ts:37-49 | a round whose evaluation throws still counts as a try and keeps `cypher` and `errors` |
| CypherRetrieval.ThrowingRunsOut | src/modules/agent/tools/cypher/cypher-retrieval.chain.ts:36-50 | from any state that has errors, an evaluator that always throws keeps the loop running until `tries` is 5, with the state otherwise unchanged |
| CypherRetrieval.AlwaysThrowingEvaluator | src/modules/agent/tools/cypher/cypher-retrieval.chain.ts:32-52 | if every evaluation throws, exactly five rounds run and the generated statement (rewritten) is returned |
| CypherRetrieval.ExecRun | src/modules/agent/tools/cypher/cypher-retrieval.chain.ts:56-86 | a run makes between 1 and 5 query attempts, and the first runs the given statement |
| CypherRetrieval.ExecRunCorrections | src/modules/agent/tools/cypher/cypher-retrieval.chain.ts:71-81 | every attempt but the last failed; the evaluator received that statement with `[e.message]`; its corrected statement is the next one run |
| CypherRetrieval.ExecRunLast | src/modules/agent/tools/cypher/cypher-retrieval.chain.ts:67-85 | the run ends in one of three ways: the last attempt succeeded and its rows are returned; or its correction threw, uncaught, and the exception is the result; or it was the fifth failure, the result is `undefined` and the fifth correction is never run |
| CypherRetrieval.FirstSuccessReturned | src/modules/agent/tools/cypher/cypher-retrieval.chain.ts:67-70 | a first query that succeeds is returned at once, with no correction asked for |
| CypherRetrieval.GetResults | src/modules/agent/tools/cypher/cypher-retrieval.chain.ts:56-86 | the retry loop over `results`, `retries` and `cypher` resolves to the outcome of `ExecRun` from attempt 0 |
| CypherRetrieval.CypherContext | src/modules/agent/tools/cypher/cypher-retrieval.chain.ts:116-119 | the context string: a one-row array is unwrapped, anything else is serialised whole, as `SingleRowUnwrapped` and `OtherResultsWhole` prove |
| CypherRetrieval.SingleRowUnwrapped | src/modules/agent/tools/cypher/cypher-retrieval.chain.ts:116-119 | a result array of exactly one row serialises that row alone |
| CypherRetrieval.OtherResultsWhole | src/modules/agent/tools/cypher/cypher-retrieval.chain.ts:116-119 | any other result (no rows, several rows, not an array) is serialised whole |
| CypherRetrieval.SavedCypherIsSynthesized | src/modules/agent/tools/cypher/cypher-retrieval.chain.ts:99-141 | the saved statement is the synthesized one, which is the first statement executed, not an execution-time correction; the context comes from the rows; the answer comes from the rephrased question and that context |
| CypherRetrieval.CypherTurn | src/modules/agent/tools/cypher/cypher-retrieval.chain.ts:99-129 | the steps before the save: synthesize, execute, extract ids and context, answer; a failing step ends the turn with its exception; `SavedCypherIsSynthesized` states what a successful turn carries |
| CypherRetrieval.CypherRetrievalChain | src/modules/agent/tools/cypher/cypher-retrieval.chain.ts:90-148 | when every step succeeds only the answer is returned, and it is returned whatever the save does (the save is not awaited): if the save succeeds the store holds the turn with source "cypher", the input, the rephrased question, the answer, the extracted ids and the synthesized statement, and if it fails the store is unchanged; if a step fails, nothing is saved and its exception is the result |
| History.Recent | src/modules/agent/history.ts:36-39 | the last min(n, k) elements of a chain, in order |
| History.ContextTargets | src/modules/agent/history.ts:98-106 | CONTEXT targets are exactly the ids that name an existing node; each such id gets as many edges as it occurs in `ids` (a multiset equation), other ids none |
| History.ContextTargetsAppend | src/modules/agent/history.ts:98-106 | the targets keep the order of `ids`: the targets of `a + b` are those of `a` followed by those of `b` |
| History.ExistingTargets | src/modules/agent/history.ts:98-106 | the UNWIND/MATCH loop over `ids` yields `ContextTargets` |
| History.WriteTurn | src/modules/agent/history.ts:64-106 | the steps of the write query (merge the session, create the response and its HAS_RESPONSE edge, move the tail with a NEXT link, add the CONTEXT edges) together produce `Saved` |
| History.Saved | src/modules/agent/history.ts:54-124 | the database after the write query; `SaveEffects` states its edges, `SavedWf` that it keeps the invariant and appends the new response to its chain |
| History.SavedOwnedOnChain | src/modules/agent/history.ts:67-79 | after a save every response, the new one included, lies on the chain of the session that owns it |
| History.SavedNodes | src/modules/agent/history.ts:69-79 | a save keeps every response keyed by its own fresh id and created before the clock |
| History.SavedReadable | src/modules/agent/history.ts:67-106 | after a save every NEXT and LAST_RESPONSE edge still ends at a response of the right session |
| History.SavedChain | src/modules/agent/history.ts:69-94 | a session's chain after a save is still owned by it, duplicate-free and in createdAt order |
| History.SavedChainsOk | src/modules/agent/history.ts:69-94 | the same holds for every session's chain |
| History.SavedTails | src/modules/agent/history.ts:87-94 | after a save, LAST_RESPONSE marks the tail of every non-empty chain |
| History.SavedChainLinked | src/modules/agent/history.ts:83-92 | after a save NEXT still links a chain, and the saved session's chain gains the edge from its old tail to the new response |
| History.SavedNext | src/modules/agent/history.ts:83-92 | after a save, NEXT still links each response of each chain to the next |
| History.SavedHeads | src/modules/agent/history.ts:83-92 | after a save, the first response of every chain still has no predecessor |
| History.SavedWf | src/modules/agent/history.ts:54-124 | saveHistory keeps the class invariant and appends the new response to its session's chain |
| History.SaveEffects | src/modules/agent/history.ts:61-94 | the session is merged (created on first use, then reused) and exactly one fresh response is added, storing source, input, output, rephrasedQuestion, the cypher (None when omitted) and the full ids; the old tail gets the single NEXT edge into it, or it has no predecessor if it is the first; the one LAST_RESPONSE edge targets it |
| History.Cleared | src/modules/agent/history.ts:16-26 | the database after the detach-delete; `ClearedWf` states that it keeps the invariant and empties the chain, `ClearThenRead` what it removes |
| History.ClearedOwnedOnChain | src/modules/agent/history.ts:20-21 | after a clear, every remaining response still lies on its owner's chain |
| History.ClearedReadable | src/modules/agent/history.ts:16-26 | after DETACH DELETE no edge leads to a deleted response, and the session has no tail |
| History.ClearedChainsOk | src/modules/agent/history.ts:20-21 | after a clear, the cleared chain is empty and the others are unchanged and still well formed |
| History.ClearedTails | src/modules/agent/history.ts:20-21 | after a clear, tail pointers still match the chains |
| History.ClearedNext | src/modules/agent/history.ts:20-21 | after a clear, the other sessions' NEXT links survive |
| History.ClearedHeads | src/modules/agent/history.ts:20-21 | after a clear, the other sessions' heads still have no predecessor |
| History.ClearedWf | src/modules/agent/history.ts:16-26 | clearHistory keeps the class invariant and empties the session's chain |
| History.ReadHistory | src/modules/agent/history.ts:28-52 | the rows of the nodes the read query unwinds; `ReadOwned` proves each is a response of the session asked for, `ReadWithoutTail` that a session without LAST_RESPONSE reads as empty, `ReadDefaultWindow` the default-limit result |
| History.ReadOwned | src/modules/agent/history.ts:36-46 | every row the read query returns is a response of the session asked for |
| History.ReadOwnChain | src/modules/agent/history.ts:36-46 | every row is a response on the session's own chain, and a session with an empty chain reads as empty |
| History.WindowIds | src/modules/agent/history.ts:36-39 | the responses the read query unwinds, as written; `WindowOnChain` gives its closed form and `WindowIdsAreResponses` its ownership |
| History.IntendedWindowIds | src/modules/agent/history.ts:37-38 | the same query with the exact length set to `limit`; `IntendedWindowIsRecent` states its result |
| History.Rows | src/modules/agent/history.ts:39-46 | one row per response, in order, each carrying that response's properties and CONTEXT targets |
| History.PathToInResponses | src/modules/agent/history.ts:37 | every node on a backward NEXT path is a response of the tail's session |
| History.MatchingPathsInResponses | src/modules/agent/history.ts:37-39 | every node the query unwinds is a response of the tail's session |
| History.WindowIdsAreResponses | src/modules/agent/history.ts:36-39 | getHistory only returns responses of the session asked for |
| History.ChainOfWf | src/modules/agent/history.ts:83-94 | every chain is linked by NEXT from a head that has no predecessor |
| History.NextIsChainLink | src/modules/agent/history.ts:83-92 | every NEXT edge joins two neighbouring responses of its session's chain |
| History.AtMostOneNext | src/modules/agent/history.ts:83-92 | no response has two outgoing NEXT edges |
| History.BackAlongChain | src/modules/agent/history.ts:37 | walking k NEXT edges back from position p reaches position p - k, or falls off the head |
| History.PathAlongChain | src/modules/agent/history.ts:37 | the path of length k ending at position p is the chain slice from p - k to p |
| History.MatchingPathsOnChain | src/modules/agent/history.ts:37-39 | closed form of the paths the query matches on a chain |
| History.WindowOnLinkedChain | src/modules/agent/history.ts:36-39 | on a NEXT-linked chain ending at the session's tail, the read query returns `QueryWindow` of that chain, as written and with the exact length set to `limit` |
| History.WindowOnChain | src/modules/agent/history.ts:36-39 | the read query returns `QueryWindow` of the session's chain, both as written (length 5) and with `length(path) = limit` |
| History.DefaultWindowIsRecent | src/modules/agent/history.ts:30-38 | with the default limit 5 the window is the last min(n, 6) responses |
| History.IntendedWindowIsRecent | src/modules/agent/history.ts:37-38 | with `length(path) = limit` the window is the last min(n, limit + 1) responses, for every limit |
| History.ShortLimitReadsNothing | src/modules/agent/history.ts:37-38 | as written, a limit below 5 on a chain longer than limit + 1 returns nothing |
| History.LongLimitRepeatsRows | src/modules/agent/history.ts:37-39 | as written, a limit above 5 on a chain of 7 to limit + 1 responses returns the last 6 and then the whole chain again |
| History.ChainOfStored | src/modules/agent/history.ts:69-79 | every chain's responses are stored, in increasing createdAt order |
| History.StoredSuffix | src/modules/agent/history.ts:69-79 | a suffix of a stored chain is a stored chain |
| History.StoredRowsAscending | src/modules/agent/history.ts:39-46 | the rows of a chain come out oldest first |
| History.RecentRows | src/modules/agent/history.ts:36-46 | the rows of the last n responses: min(n, length) rows, the i-th being the row of that response, oldest first |
| History.ReadDefaultWindow | src/modules/agent/history.ts:28-52 | getHistory with the default limit returns the rows of the session's last min(n, 6) responses |
| History.ReadWithoutTail | src/modules/agent/history.ts:36 | a session with no LAST_RESPONSE reads as `[]`, whatever the limit |
| History.RowsAgree | src/modules/agent/history.ts:40-46 | rows depend only on the responses' properties and their CONTEXT targets |
| History.SaveThenRead | src/modules/agent/history.ts:28-124 | after a save, the default read returns the rows of the last min(n + 1, 6) responses of the extended chain, oldest first, and the newest row is the saved turn with its id, createdAt and context |
| History.ReadAgrees | src/modules/agent/history.ts:36-46 | two databases that pick the same responses, and agree on them, give the same rows |
| History.SaveKeepsOtherSessions | src/modules/agent/history.ts:54-124 | a save leaves every other session's history unchanged, for every limit |
| History.ClearThenRead | src/modules/agent/history.ts:16-52 | after a clear, the session node stays, exactly that session's responses are gone, and getHistory returns `[]` |
| History.ClearKeepsOtherSessions | src/modules/agent/history.ts:16-52 | a clear leaves every other session's history unchanged |
| History.HistoryStore.constructor | src/modules/agent/history.ts:16-124 | an empty database satisfies the invariant |
| History.HistoryStore.SaveHistory | src/modules/agent/history.ts:54-124 | a successful write updates the graph to `Saved`, extends the session's chain by the fresh id, keeps the invariant and returns that id; a failed write rejects with its error and changes nothing |
| History.HistoryStore.ClearHistory | src/modules/agent/history.ts:16-26 | a failing write rejects with its error and changes nothing; otherwise DETACH DELETE updates the graph to `Cleared`, empties the session's chain, keeps the invariant, and a successful getHistory then returns `[]` for every limit |
| History.HistoryStore.GetHistory | src/modules/agent/history.ts:28-52 | a failing read rejects with its error; a successful one returns only responses on the session's own chain, none for a session without responses, and with the default limit exactly the rows of its last min(n, 6) responses, oldest first |
| RephraseQuestion.RenderAll | src/modules/agent/chains/rephrase-question.chain.ts:49-53 | one rendered turn per history entry, in order, each `Human: <input>\nAI: <output>` |
| RephraseQuestion.RenderTurn | src/modules/agent/chains/rephrase-question.chain.ts:51-52 | one turn as `Human: <input>\nAI: <output>`; `SingleTurn` and `OnlyInputAndOutputRead` state what it renders |
| RephraseQuestion.Join | src/modules/agent/chains/rephrase-question.chain.ts:54 | `join` with a separator; `JoinLayout` places every part and the separator before each part but the first, and `JoinLength` shows nothing else is added |
| RephraseQuestion.Transcript | src/modules/agent/chains/rephrase-question.chain.ts:45-55 | the formatted history is as long as the rendered turns plus n - 1 separators; its content is given by `EmptyHistory`, `SingleTurn`, `TranscriptSnoc` and `TranscriptEnds` |
| RephraseQuestion.PrepareInputs | src/modules/agent/chains/rephrase-question.chain.ts:44-45 | only `history` is replaced by the transcript; `input` reaches the prompt unchanged |
| RephraseQuestion.EmptyHistory | src/modules/agent/chains/rephrase-question.chain.ts:46-48 | an empty history renders as "No history" |
| RephraseQuestion.SingleTurn | src/modules/agent/chains/rephrase-question.chain.ts:50-53 | one turn renders as `Human: <input>\nAI: <output>`, with nothing around it |
| RephraseQuestion.TranscriptSnoc | src/modules/agent/chains/rephrase-question.chain.ts:49-54 | appending a turn appends a single "\n" and that turn, in order |
| RephraseQuestion.TranscriptEnds | src/modules/agent/chains/rephrase-question.chain.ts:49-54 | a transcript starts with the first turn and ends with the last: no leading or trailing separator |
| RephraseQuestion.JoinLength | src/modules/agent/chains/rephrase-question.chain.ts:54 | a join of n > 0 parts is as long as the parts together plus n - 1 separators |
| RephraseQuestion.JoinLayout | src/modules/agent/chains/rephrase-question.chain.ts:54 | the i-th part sits at `Offset(parts, sep, i)`, the parts before it and one separator per part, and exactly one separator sits right before each part but the first |
| RephraseQuestion.OnlyInputAndOutputRead | src/modules/agent/chains/rephrase-question.chain.ts:52 | histories that agree on each turn's input and output render alike, whatever their ids, rephrased questions and cypher |
| RephraseQuestion.NoHistoryOnlyWhenEmpty | src/modules/agent/chains/rephrase-question.chain.ts:46-54 | the transcript is "No history" exactly when the history is empty |
| VectorRetrieval.ExtractDocumentIds | src/modules/agent/tools/vector-retrieval.chain.ts:24-26 | one id per document, the i-th being `documents[i].metadata._id` |
| VectorRetrieval.ExtractAppend | src/modules/agent/tools/vector-retrieval.chain.ts:24-26 | extracting ids commutes with concatenating document lists |
| VectorRetrieval.DocumentsValue | src/modules/agent/tools/vector-retrieval.chain.ts:29-30 | the list is serialised as an array holding every document, in order |
| VectorRetrieval.DocsToJson | src/modules/agent/tools/vector-retrieval.chain.ts:29-30 | the whole document list is serialised, a single document included, as `NoSingletonUnwrap` states |
| VectorRetrieval.NoSingletonUnwrap | src/modules/agent/tools/vector-retrieval.chain.ts:29-54 | a single document is serialised as a one-element array, whereas the Cypher rule would unwrap it; for any other count the two rules agree |
| VectorRetrieval.VectorTurnFromDocuments | src/modules/agent/tools/vector-retrieval.chain.ts:45-61 | retrieval asks for 5 documents for the rephrased question; the ids are the documents' ids; the answer comes from the rephrased question and the serialised documents |
| VectorRetrieval.VectorSteps | src/modules/agent/tools/vector-retrieval.chain.ts:49-62 | the steps before the save: retrieve, extract ids, serialise, answer; a failing step ends the turn with its exception; `VectorTurnFromDocuments` states what a successful turn carries |
| VectorRetrieval.VectorRetrievalChain | src/modules/agent/tools/vector-retrieval.chain.ts:39-75 | the save is awaited: the answer is returned only after the turn is stored, with source "vector", the original input, the extracted ids and no cypher; a failing save rejects the pipeline with its error and leaves the store unchanged; if a step fails, nothing is saved and its exception is the result |

## Left out

- Prompts and language-model calls. The generation, evaluation, answer and rephrase chains are oracles. Their wording has no checkable semantics. The rephrase prompt and LLM step after the formatter are not modelled.
- `JSON.stringify`, `extractIds` and the vector store are oracles (`Serializer`, `Components.extractIds`, `VectorComponents.retrieve`). Their outputs are not modelled. `DocumentValue` fixes only the fields a document is assumed to carry.
- `graph.getSchema()` is a `schema` string parameter. `randomUuid()` and `datetime()` are a counter (`nextUuid`) and a strictly increasing clock.
- Neo4j connection handling (src/modules/graph.ts) and its environment variables are not part of this model. Neither are src/modules/agent/chains/answer-generation.chain.ts or the test files.
- Concurrency. Appends are sequential. The race on LAST_RESPONSE between concurrent saves is not modelled.
- CypherRetrievalChain: the save is not awaited in the source, so it may complete after the answer has been returned, and its failure surfaces only as an unhandled rejection. The model completes the save, or its failure, before returning. The contract states that the answer does not depend on the save, but not when the stored turn becomes visible to other reads.
- VectorRetrievalChain: the save is awaited in the source, as in the model, so there the order is exact.
- The `""` fallback of `saveHistory`. The write query always yields exactly one row, because the CONTEXT subquery aggregates with `count(*)`. So `HistoryStore.SaveHistory` returns the new id whenever the write succeeds.
- CONTEXT targets are drawn from `nodes`, the elementIds of the non-history part of the graph. An id naming a Session or Response node is treated as missing.
- Row order. The read query has no `ORDER BY`, and a pattern comprehension has no defined order. The model fixes the order: paths from shortest to longest, nodes in path order, CONTEXT targets in the order of `ids`.
- `getResults` is passed `input.question`. The tool input declared in vector-retrieval.chain.ts has only `input` and `rephrasedQuestion`, and `agent.types` is not part of this model. So `EvalRequest.question` is an `Option`, and `ToolInput.question` says what the pipeline passes.
- `options?.configurable.sessionId` may be undefined in the source. The model always takes a `SessionId`.
- Text is a sequence of Unicode code points. JavaScript strings are UTF-16, which matters only for `\s` on astral characters; none of those are whitespace.
- Two behaviours one might expect of the tools do not hold in the code, and the model follows the code:
  - One might expect every save to be fire-and-forget, but the vector pipeline awaits its save.
  - One might expect internal faults never to reach the caller, but in `getResults` an exception from the evaluation chain propagates.

## Findings

| source | as written | input that shows it | evidently intended | confidence | as-written member | corrected member |
|---|---|---|---|---|---|---|
| src/modules/agent/history.ts:37-38 | the path range uses `limit` but the filter is `length(path) = 5`, whatever the limit | a chain of 6 responses read with limit 3 returns `[]` (`ShortLimitReadsNothing`); a chain of 8 responses read with limit 10 returns the last 6 followed by all 8 again (`LongLimitRepeatsRows`) | `length(path) = limit`: the last min(n, limit + 1) responses for every limit | not executed | History.ShortLimitReadsNothing | History.IntendedWindowIsRecent |

`History.WindowIds` is the query as written and `History.IntendedWindowIds` the corrected one. `WindowOnChain` gives the closed form of both. With the default limit 5 they coincide. So every property of the store, which reads with the default limit, holds under both.
