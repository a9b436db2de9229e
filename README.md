# context-memory, modelled in Dafny

context-memory is a long-term memory layer for chat assistants. It stores
facts ("memories") per conversation, each with an embedding. It links new
episodic memories ("bubbles") to similar older ones, in both directions.
Its update phase asks a language model whether each candidate fact should
add, update or delete a memory, or do nothing. It ranks memories by
similarity to a query. Every twentieth message, it writes one summary per
conversation.

This project models the deterministic core of that system:

- the memory table and its session: staged rows, one commit, a
  retrieval order by ascending id;
- the connection graph written by `find_connections` (both copies);
- `create_bubbles`;
- the reconciliation loop `update_phase`;
- similarity ranking, in `search_similar_memories` and `ContextMemory.search`;
- the `ContextMemory` client;
- the tool schema, prompt and response decoding of the tool classifier;
- the Gemini provider's message conversion and result shaping;
- provider dispatch by name;
- both summary generators.

The embedding, the similarity score, decimal rounding, float parsing, the
language model and the clock are parameters. `Store.Oracles` bundles the
first four as functions. The model's reply is a function from request to
result. The time is an argument.

Modules, one per file:

- `Wrappers`: `Option` and `Result`.
- `Strings`: `join`, `split`, `str(int)`, ASCII `lower` and `strip`.
- `Ranking`: Python's stable `sort(reverse=True)` and the slice `[:k]`.
- `Store`: the memory record, the table value, and the `Session` class.
- `ConnectionGraph`: the specification of `find_connections` and the
  graph invariant.
- `BubbleCreator` and `ConnectionFinder`: the two `find_connections`
  procedures and `create_bubbles`.
- `SimilarMemorySearch` and `UpdatePhase`.
- `ContextMemoryApi`: the client class.
- `Chat` and `ToolClassifier`.
- `GeminiProvider` and `Providers`.
- `SummaryStore`, `SummaryDraft` and `SummaryGenerator`.

Procedures that change state step by step are methods on the `Session` or
`SummaryDb` classes. Each method is proved equal to a specification
function (`Connect`, `CreateAll`, `Run`, `Summarized`, `Generated`, …). The
lemmas below prove the source's promises about those functions.

## Model

| member | source | states |
|---|---|---|
| Store.Table.Insert | src/contextmemory/memory/bubble_creator.py:126-127 | `db.add` + flush: the record is stored under the next id, appended to the retrieval order, and the id counter advances; table validity is kept |
| Store.Table.Replace | src/contextmemory/memory/add/add_updation_phase.py:55-58 | assigning columns of a stored record replaces that row only; order and counter unchanged |
| Store.Table.Remove | src/contextmemory/memory/add/add_updation_phase.py:62-64 | `db.delete`: exactly that key leaves the rows and the retrieval order |
| Store.Session.Get | src/contextmemory/memory/add/add_updation_phase.py:54 | `db.get` finds a record exactly when the id is stored, and returns that record |
| Store.Session.Add | src/contextmemory/memory/add/add_updation_phase.py:50 | staging a new record: fresh id, table is `Insert`, nothing committed |
| Store.Session.Put | src/contextmemory/memory/add/add_updation_phase.py:56-58 | staging a change to a stored record; nothing committed |
| Store.Session.Delete | src/contextmemory/memory/add/add_updation_phase.py:64 | staging a deletion; nothing committed |
| Store.Session.Commit | src/contextmemory/memory/add/add_updation_phase.py:70 | the committed rows become the staged rows; one more commit |
| Ranking.SortDesc | src/contextmemory/memory/similar_memory_search.py:25 | the sort is a permutation of its input with non-increasing scores |
| Ranking.SortDescStable | src/contextmemory/memory/similar_memory_search.py:25 | among equal scores the input order is kept (stability) |
| Ranking.SortDescTies | src/contextmemory/memory/bubble_creator.py:46 | input in ascending id order leaves equal scores in ascending id order |
| Ranking.SortDescDistinct | src/contextmemory/memory/similar_memory_search.py:25 | sorting never duplicates an item |
| Ranking.Prefix | src/contextmemory/memory/similar_memory_search.py:26 | Python's `s[:k]`: length `min(k, n)` for `k >= 0`, `max(n + k, 0)` for negative `k`, and a prefix of `s` |
| Ranking.TopK | src/contextmemory/memory/similar_memory_search.py:25-26 | sort then slice: the Python slice length, non-increasing, a sub-multiset of the input |
| Ranking.TopKDominates | src/contextmemory/memory/similar_memory_search.py:25-26 | every kept element scores at least as high as every dropped one |
| Ranking.TopKDominatesItem | src/contextmemory/memory/bubble_creator.py:46-47 | the same, for an input element whose item is not kept |
| Ranking.TopKTies | src/contextmemory/memory/similar_memory_search.py:25-26 | the kept elements of a given score are a prefix of the input's elements of that score |
| Ranking.TopKDistinct | src/contextmemory/memory/similar_memory_search.py:25-26 | no duplicates are introduced |
| Ranking.TopKTiesByItem | src/contextmemory/memory/bubble_creator.py:46-47 | ids ascending in the input stay ascending among equal scores after the cut |
| ConnectionGraph.WithLinks | src/contextmemory/memory/bubble_creator.py:56-61 | setting `connections` changes only that metadata key; other keys and all columns kept |
| ConnectionGraph.InsertKeepsGraph | src/contextmemory/memory/bubble_creator.py:114-127 | storing a record that has no links keeps the graph invariant, and the new record is unlinked |
| ConnectionGraph.ReplaceKeepsGraph | src/contextmemory/memory/add/add_updation_phase.py:55-58 | changing columns but not metadata keeps the graph invariant |
| ConnectionGraph.RemoveKeepsGraph | src/contextmemory/memory/add/add_updation_phase.py:62-64 | deleting a record keeps the graph invariant |
| ConnectionGraph.CandidatesIn | src/contextmemory/memory/bubble_creator.py:28-32 | exactly the ids in the given order that are active, of the conversation, and not the new bubble; ascending order kept |
| ConnectionGraph.Candidates | src/contextmemory/memory/bubble_creator.py:28-32 | the query result: exactly the candidates, in ascending id order |
| ConnectionGraph.ScoreCandidates | src/contextmemory/memory/bubble_creator.py:38-43 | each entry is a candidate with an embedding whose unrounded score is at least 0.6, stored with the score rounded to 3 places; every such candidate appears; order kept |
| ConnectionGraph.ScoreMap | src/contextmemory/memory/bubble_creator.py:54 | keys are exactly the selected ids, each mapped to its own score |
| ConnectionGraph.LinkNew | src/contextmemory/memory/bubble_creator.py:53-61 | the new bubble's `bubble_ids` are the selection in order, each with its score; links well formed; other keys kept |
| ConnectionGraph.AddBackLink | src/contextmemory/memory/bubble_creator.py:67-74 | the reverse link changes only the `connections` key |
| ConnectionGraph.AddBackLinkIdempotent | src/contextmemory/memory/bubble_creator.py:70 | adding the reverse link twice is adding it once, whatever the second score |
| ConnectionGraph.AddBackLinkFresh | src/contextmemory/memory/bubble_creator.py:70-72 | a neighbour not yet listing the bubble gets it appended with exactly that score, with no cap on its list length |
| ConnectionGraph.AddBackLinkKeeps | src/contextmemory/memory/bubble_creator.py:67-74 | links to other ids are untouched and well-formedness is kept |
| ConnectionGraph.BackLinks | src/contextmemory/memory/bubble_creator.py:64-74 | the reverse-link loop keeps the stored ids, order and counter |
| ConnectionGraph.BackLinksSnoc | src/contextmemory/memory/bubble_creator.py:64-66 | one more loop entry adds its reverse link only when the record exists |
| ConnectionGraph.BackLinksElsewhere | src/contextmemory/memory/bubble_creator.py:64-74 | a record the selection does not name is unchanged |
| ConnectionGraph.BackLinksAt | src/contextmemory/memory/bubble_creator.py:64-74 | a selected record gets exactly its reverse link with the score beside it |
| ConnectionGraph.Connect | src/contextmemory/memory/bubble_creator.py:18-76 | `find_connections` never adds or removes records and keeps table validity |
| ConnectionGraph.ConnectIds | src/contextmemory/memory/bubble_creator.py:34-53 | the returned ids are the selection's ids; with none, the table is untouched |
| ConnectionGraph.SelectedFacts | src/contextmemory/memory/bubble_creator.py:46-47 | the selection is non-increasing, ties by ascending id, duplicate-free, at most 5 entries, drawn from the scored list |
| ConnectionGraph.SelectedQualify | src/contextmemory/memory/bubble_creator.py:39-43 | each selected entry is a qualifying candidate carrying its rounded score |
| ConnectionGraph.SelectedDominates | src/contextmemory/memory/bubble_creator.py:46-47 | no qualifying candidate left out has a higher rounded score than a selected one |
| ConnectionGraph.SelectedEmpty | src/contextmemory/memory/bubble_creator.py:49-50 | nothing is selected exactly when no candidate qualifies |
| ConnectionGraph.ConnectSelects | src/contextmemory/memory/bubble_creator.py:28-54 | summary of the selection: at most 5 qualifying candidates, ordered, with rounded scores; `[]` and no write exactly when none qualifies |
| ConnectionGraph.ConnectTable | src/contextmemory/memory/bubble_creator.py:56-74 | the written table is the new bubble's links followed by the reverse-link loop |
| ConnectionGraph.ConnectWritesNew | src/contextmemory/memory/bubble_creator.py:56-61 | the new bubble's row is `LinkNew` of the selection |
| ConnectionGraph.ConnectWritesNeighbour | src/contextmemory/memory/bubble_creator.py:64-74 | each selected neighbour's row is its reverse-linked old row |
| ConnectionGraph.ConnectWritesNothingElse | src/contextmemory/memory/bubble_creator.py:64-74 | any other record is unchanged |
| ConnectionGraph.ConnectWrites | src/contextmemory/memory/bubble_creator.py:53-74 | the three facts above together |
| ConnectionGraph.ConnectSymmetric | src/contextmemory/memory/bubble_creator.py:54-72 | each selected neighbour lists the new bubble with exactly the score the new bubble stores for it |
| ConnectionGraph.ConnectElsewhere | src/contextmemory/memory/bubble_creator.py:67-74 | a record other than the bubble differs from before at most by the link to the bubble |
| ConnectionGraph.ConnectKeepsColumns | src/contextmemory/memory/bubble_creator.py:56-74 | only the `connections` key is written; all columns and other keys kept |
| ConnectionGraph.ConnectNewLinks | src/contextmemory/memory/bubble_creator.py:53-61 | the bubble's links are well formed and point only at selected stored records, never at itself |
| ConnectionGraph.ConnectKeepsSymmetry | src/contextmemory/memory/bubble_creator.py:56-74 | on a freshly inserted bubble, every link between stored records stays matched by a link back with the same score |
| ConnectionGraph.ConnectRecordOk | src/contextmemory/memory/bubble_creator.py:56-74 | afterwards every record's links are well formed, not self-links, and to ids already handed out |
| ConnectionGraph.ConnectKeepsGraph | src/contextmemory/memory/bubble_creator.py:18-76 | `find_connections` on a freshly inserted bubble keeps the whole graph invariant |
| BubbleCreator.ScoreExisting | src/contextmemory/memory/bubble_creator.py:38-43 | the scoring loop builds exactly `ScoreCandidates` |
| BubbleCreator.WriteBackLinks | src/contextmemory/memory/bubble_creator.py:64-74 | the reverse-link loop leaves the session's rows as `BackLinks`, uncommitted |
| BubbleCreator.FindConnections | src/contextmemory/memory/bubble_creator.py:18-76 | the session's rows and the returned ids are `Connect`'s; nothing committed |
| BubbleCreator.CoerceImportance | src/contextmemory/memory/bubble_creator.py:98-108 | missing becomes 0.5; a string is parsed, or 0.5 when unparsable; a number is kept unclamped; null stays null |
| BubbleCreator.NewBubble | src/contextmemory/memory/bubble_creator.py:114-124 | the record is episodic, active, has empty metadata, and carries the text, conversation, session and clock reading |
| BubbleCreator.Kept | src/contextmemory/memory/bubble_creator.py:97-101 | the stored entries are input entries that have text, in input order |
| BubbleCreator.CreateAll | src/contextmemory/memory/bubble_creator.py:94-132 | the batch loop keeps table validity |
| BubbleCreator.CreateAllKeepsGraph | src/contextmemory/memory/bubble_creator.py:94-134 | `create_bubbles` keeps the graph invariant |
| BubbleCreator.CreateAllSnoc | src/contextmemory/memory/bubble_creator.py:96-132 | one more entry is either skipped or inserted then connected |
| BubbleCreator.CreateAllIds | src/contextmemory/memory/bubble_creator.py:126-132 | one id per kept entry, in input order, each the next counter value |
| BubbleCreator.CreateAllRows | src/contextmemory/memory/bubble_creator.py:126-127 | the rows afterwards are the old ones plus exactly the ids handed out |
| BubbleCreator.CreateAllOldRow | src/contextmemory/memory/bubble_creator.py:130 | older rows keep all columns and other metadata keys; only their connections may grow |
| BubbleCreator.CreateAllNewRow | src/contextmemory/memory/bubble_creator.py:111-132 | the k-th id is the k-th kept entry's record, with nothing but connections in its metadata |
| BubbleCreator.CreateNext | src/contextmemory/memory/bubble_creator.py:96-132 | one loop iteration moves the session from `CreateAll` of the entries so far to `CreateAll` with one more entry; nothing committed |
| BubbleCreator.CreateBubbles | src/contextmemory/memory/bubble_creator.py:79-135 | the session ends as `CreateAll` says, returns its ids, and commits exactly once |
| ConnectionFinder.FindConnections | src/contextmemory/memory/connection_finder.py:9-68 | rows and ids as `Connect`; with nothing to connect nothing is written or committed, otherwise exactly one commit |
| SimilarMemorySearch.ConversationIn | src/contextmemory/memory/similar_memory_search.py:14-18 | exactly the ids of the conversation, in the given order |
| SimilarMemorySearch.ConversationInIncreasing | src/contextmemory/memory/similar_memory_search.py:14-18 | a filtered ascending order stays ascending |
| SimilarMemorySearch.ConversationIds | src/contextmemory/memory/similar_memory_search.py:14-18 | every memory of the conversation, active or not, ascending by id |
| SimilarMemorySearch.ScoreAll | src/contextmemory/memory/similar_memory_search.py:20-23 | one entry per memory, in order, carrying its similarity to the query |
| SimilarMemorySearch.SearchSimilarMemories | src/contextmemory/memory/similar_memory_search.py:7-26 | the loop's result is the specification `Similar` |
| SimilarMemorySearch.SimilarLength | src/contextmemory/memory/similar_memory_search.py:26 | the result length is `min(limit, n)` |
| SimilarMemorySearch.SimilarInConversation | src/contextmemory/memory/similar_memory_search.py:14-18 | every result belongs to the conversation |
| SimilarMemorySearch.ScoreAllDistinct | src/contextmemory/memory/similar_memory_search.py:20-23 | scored ids stay ascending and distinct |
| SimilarMemorySearch.SimilarDistinct | src/contextmemory/memory/similar_memory_search.py:25-26 | no memory appears twice |
| SimilarMemorySearch.SimilarSorted | src/contextmemory/memory/similar_memory_search.py:25 | scores never increase along the result; equal scores keep ascending id order |
| SimilarMemorySearch.RankedPair | src/contextmemory/memory/similar_memory_search.py:25-26 | the same fact for any two positions of the ranked pairs |
| SimilarMemorySearch.ScoreAllScore | src/contextmemory/memory/similar_memory_search.py:22-23 | every scored pair carries its memory's real score |
| SimilarMemorySearch.SimilarDominates | src/contextmemory/memory/similar_memory_search.py:25-26 | every returned memory scores at least as high as every memory of the conversation left out |
| SimilarMemorySearch.SimilarAll | src/contextmemory/memory/similar_memory_search.py:26 | with `limit` at least the conversation's size, every memory is returned |
| UpdatePhase.StringArg | src/contextmemory/memory/add/add_updation_phase.py:45 | `args["text"]` succeeds exactly for an object holding a string there; otherwise it reports a missing or wrongly typed key |
| UpdatePhase.IntArg | src/contextmemory/memory/add/add_updation_phase.py:54 | `args["memory_id"]` likewise, for an integer |
| UpdatePhase.NewFact | src/contextmemory/memory/add/add_updation_phase.py:43-49 | the added record has the conversation, text, the fact's embedding and both timestamps; all else takes the defaults |
| UpdatePhase.Revised | src/contextmemory/memory/add/add_updation_phase.py:56-58 | only text, embedding and `updated_at` change |
| UpdatePhase.Apply | src/contextmemory/memory/add/add_updation_phase.py:41-68 | every action that succeeds leaves a valid table |
| UpdatePhase.ApplyDecision | src/contextmemory/memory/add/add_updation_phase.py:36-38 | the first tool call is parsed and applied; the result is a valid table; the error is `NoToolCalls` exactly when the decision has no tool calls |
| UpdatePhase.RunStopsWithoutCalls | src/contextmemory/memory/add/add_updation_phase.py:36 | a decision without tool calls stops the batch at that fact with `NoToolCalls`, leaving the rows as before it (and `UpdatePhase.UpdatePhase` then commits nothing) |
| UpdatePhase.Neighbours | src/contextmemory/memory/tool_classifier.py:72-74 | each similar memory is shown as its id and text, in order |
| UpdatePhase.SimilarStored | src/contextmemory/memory/add/add_updation_phase.py:23-28 | the neighbours looked up are stored records |
| UpdatePhase.Step | src/contextmemory/memory/add/add_updation_phase.py:17-68 | one fact's iteration leaves a valid table |
| UpdatePhase.Run | src/contextmemory/memory/add/add_updation_phase.py:17-68 | the loop leaves a valid table |
| UpdatePhase.ApplyAction | src/contextmemory/memory/add/add_updation_phase.py:41-68 | the `if`/`elif` chain run on the session matches `Apply`; on an error nothing changes |
| UpdatePhase.RunOne | src/contextmemory/memory/add/add_updation_phase.py:17-68 | one loop iteration: without an error what `Run` still has to do is the remaining facts; with one, `Run` stops right there with that error; nothing committed |
| UpdatePhase.Consult | src/contextmemory/memory/add/add_updation_phase.py:20-34 | the decision for a fact shown its 10 nearest memories |
| UpdatePhase.Act | src/contextmemory/memory/add/add_updation_phase.py:36-68 | matches `ApplyDecision` on the session |
| UpdatePhase.UpdateFact | src/contextmemory/memory/add/add_updation_phase.py:17-68 | one iteration matches `Step` |
| UpdatePhase.UpdatePhase | src/contextmemory/memory/add/add_updation_phase.py:11-70 | the rows end as `Run`; one commit after the loop when no error; after an error nothing is committed |
| UpdatePhase.ApplyAdd | src/contextmemory/memory/add/add_updation_phase.py:42-50 | `add_memory` succeeds exactly when it has a text; it stores exactly one new `NewFact` record under the next id and touches nothing else |
| UpdatePhase.ApplyUpdate | src/contextmemory/memory/add/add_updation_phase.py:53-58 | on a stored id only text, embedding and `updated_at` of that record change; an absent id changes nothing |
| UpdatePhase.ApplyDelete | src/contextmemory/memory/add/add_updation_phase.py:61-64 | removes exactly the named id; an absent id changes nothing |
| UpdatePhase.ApplyIgnored | src/contextmemory/memory/add/add_updation_phase.py:66-68 | `noop`, an unknown name or no name leaves the rows unchanged |
| UpdatePhase.ApplyMissingIsRequired | src/contextmemory/memory/tool_classifier.py:5-60 | only the three argument-taking tools can fail, and a missing argument is one the schema marks as required |
| UpdatePhase.FirstCallOnly | src/contextmemory/memory/add/add_updation_phase.py:36 | only the first tool call matters |
| UpdatePhase.ApplyKeepsGraph | src/contextmemory/memory/add/add_updation_phase.py:41-68 | every action keeps the graph invariant |
| UpdatePhase.RunKeepsGraph | src/contextmemory/memory/add/add_updation_phase.py:17-68 | the whole batch keeps the graph invariant |
| UpdatePhase.RunAppend | src/contextmemory/memory/add/add_updation_phase.py:17 | facts are handled in order: running `a + b` runs `b` on what `a` left, unless `a` stopped with an error |
| ContextMemoryApi.Ranked | src/contextmemory/memory/memory.py:72-81 | the ranked pairs are the `Similar` ids with their unrounded scores |
| ContextMemoryApi.SearchResults | src/contextmemory/memory/memory.py:84-91 | one result per ranked memory |
| ContextMemoryApi.SearchHit | src/contextmemory/memory/memory.py:84-91 | entry `i` is the i-th ranked memory's id, its text, and its score rounded to 4 places |
| ContextMemoryApi.UpdateNotFound | src/contextmemory/memory/memory.py:108 | the corrected message: `Memory with `, the id, ` not found` |
| ContextMemoryApi.DeleteNotFound | src/contextmemory/memory/memory.py:129 | the corrected message: `Memory with this `, the id, ` not found` |
| ContextMemoryApi.ContextMemory.constructor | src/contextmemory/memory/memory.py:16-17 | the client works on the session it is given |
| ContextMemoryApi.ContextMemory.Add | src/contextmemory/memory/memory.py:22-45 | no facts: returns `[]` and changes nothing; otherwise the update phase runs and the facts are returned, or its error raised |
| ContextMemoryApi.ContextMemory.Search | src/contextmemory/memory/memory.py:50-96 | returns `{query, SearchResults}`; changes nothing |
| ContextMemoryApi.ContextMemory.Update | src/contextmemory/memory/memory.py:101-117 | a missing id raises `ValueError` with the literal message `Memory with {memory_id} not found` and changes nothing; otherwise text, its embedding and `updated_at` are set and committed |
| ContextMemoryApi.ContextMemory.Delete | src/contextmemory/memory/memory.py:122-134 | a missing id raises `ValueError` with the literal message `Memory with this {memory_id} not found` and changes nothing; otherwise the row is removed, committed, and `{deleted_memory_id}` returned |
| ContextMemoryApi.SearchEmpty | src/contextmemory/memory/memory.py:65-69 | a conversation without memories gives no results |
| ContextMemoryApi.SearchLength | src/contextmemory/memory/memory.py:81 | `min(limit, n)` results |
| ContextMemoryApi.SearchDistinct | src/contextmemory/memory/memory.py:84-91 | no memory twice; every result is of the conversation |
| ContextMemoryApi.SearchSorted | src/contextmemory/memory/memory.py:78-91 | rounded scores never increase along the results, assuming rounding preserves order |
| ContextMemoryApi.SearchDominates | src/contextmemory/memory/memory.py:78-81 | every result scores at least as high as every memory of the conversation left out |
| ContextMemoryApi.AsWrittenMessagesOmitId | src/contextmemory/memory/memory.py:108 | for every id, the messages `update` and `delete` raise as written differ from the messages that name that id (see Findings) |
| ContextMemoryApi.CorrectedMessageNamesId | tests/test_basic.py:17-25 | the corrected update message for id 999 is exactly `Memory with 999 not found` |
| ContextMemoryApi.NotFoundMessagesInjective | src/contextmemory/memory/memory.py:108 | corrected messages for different ids differ |
| ToolClassifier.ToolNames | src/contextmemory/memory/tool_classifier.py:5-60 | the names of the tools, in order |
| ToolClassifier.ToolsSchema | src/contextmemory/memory/tool_classifier.py:5-60 | exactly four tools: `add_memory` needs `text`, `update_memory` needs `memory_id` and `text`, `delete_memory` needs `memory_id`, `noop` needs nothing; every required key is declared |
| ToolClassifier.ContextLines | src/contextmemory/memory/tool_classifier.py:72-74 | one `-ID {id}: {text}` line per memory, in order |
| ToolClassifier.ContextLineSingle | src/contextmemory/memory/tool_classifier.py:73 | a single-line text gives a single line |
| ToolClassifier.MemoryContextEmpty | src/contextmemory/memory/tool_classifier.py:72-74 | no memories give the empty string |
| ToolClassifier.MemoryContextLines | src/contextmemory/memory/tool_classifier.py:72-74 | the context splits back on newlines into exactly those lines |
| ToolClassifier.ContextLineId | src/contextmemory/memory/tool_classifier.py:73 | the id can be read back from its line |
| ToolClassifier.UserContentLines | src/contextmemory/memory/tool_classifier.py:76-88 | the user message, read line by line, is the fact under its heading and then one line per memory |
| ToolClassifier.UserContentJoin | src/contextmemory/memory/tool_classifier.py:80-86 | the f-string equals the join of its lines |
| ToolClassifier.DecisionRequest | src/contextmemory/memory/tool_classifier.py:76-96 | system prompt then one user message; all four tools, `tool_choice="auto"`, temperature 0 |
| ToolClassifier.DecodeCall | src/contextmemory/memory/tool_classifier.py:108-117 | id, type, name and arguments are copied; missing keys give None |
| ToolClassifier.Decode | src/contextmemory/memory/tool_classifier.py:99-106 | content copied; `tool_calls` is None exactly for a missing or empty list, otherwise one decoded call per entry, in order |
| ToolClassifier.DecodeEncode | src/contextmemory/memory/tool_classifier.py:99-117 | decoding loses nothing: a message is decoded from its encoding |
| ToolClassifier.EncodeDecode | src/contextmemory/memory/tool_classifier.py:99-117 | a result read and written back is the same, except an empty call list becomes none |
| GeminiProvider.GeminiMessages | src/contextmemory/core/providers/gemini_provider.py:36-45 | no more turns than messages; each turn is `user` or `model` with one part |
| GeminiProvider.SystemParts | src/contextmemory/core/providers/gemini_provider.py:40-41 | no more system parts than messages |
| GeminiProvider.SystemInstruction | src/contextmemory/core/providers/gemini_provider.py:47 | None exactly when there are no system messages |
| GeminiProvider.ConvertMessages | src/contextmemory/core/providers/gemini_provider.py:24-47 | the loop yields `GeminiMessages` and `SystemInstruction` |
| GeminiProvider.ConvertAppend | src/contextmemory/core/providers/gemini_provider.py:36-45 | conversion is per message: converting `a + b` is converting `a`, then `b` |
| GeminiProvider.ConvertOne | src/contextmemory/core/providers/gemini_provider.py:40-45 | `user` stays `user`, `assistant` becomes `model`, a system message goes to the instruction, any other role is dropped |
| GeminiProvider.ConvertCount | src/contextmemory/core/providers/gemini_provider.py:36-45 | turns plus system parts equal the message count exactly when every role is known |
| GeminiProvider.FromGemini | src/contextmemory/core/providers/gemini_provider.py:43-45 | reading a turn back takes its first part |
| GeminiProvider.ConvertRoundTrip | src/contextmemory/core/providers/gemini_provider.py:36-45 | user and assistant messages convert and read back to themselves, in order |
| GeminiProvider.ConvertToolCalls | src/contextmemory/core/providers/gemini_provider.py:49-67 | no calls give None; otherwise the first call's name and arguments, or the missing key |
| GeminiProvider.ConvertToolCallsFirstOnly | src/contextmemory/core/providers/gemini_provider.py:63 | only the first call matters |
| GeminiProvider.History | src/contextmemory/core/providers/gemini_provider.py:97 | empty for at most one turn; otherwise all turns but the last |
| GeminiProvider.LastMessage | src/contextmemory/core/providers/gemini_provider.py:100 | the last turn's content, or `""` when there are no turns |
| GeminiProvider.Prepare | src/contextmemory/core/providers/gemini_provider.py:83-105 | model and temperature passed on; the joined system instruction is passed on exactly when it exists and is non-empty; history plus the sent message rebuild the turns |
| GeminiProvider.ToolsIgnored | src/contextmemory/core/providers/gemini_provider.py:69-105 | tools and tool choice do not affect what is sent |
| GeminiProvider.CallIdsDistinct | src/contextmemory/core/providers/gemini_provider.py:115 | ids `call_i` differ for different positions |
| GeminiProvider.ShapeResult | src/contextmemory/core/providers/gemini_provider.py:107-123 | content is the text or `""`; `tool_calls` present exactly when there are function calls, one per call in order with id `call_i` and type `function` |
| GeminiProvider.ShapeResultDecodes | src/contextmemory/core/providers/gemini_provider.py:107-123 | the decoded result has no tool calls exactly when Gemini returned none; otherwise one call per function call, with distinct ids |
| Providers.GetProvider | src/contextmemory/core/providers/__init__.py:24-50 | a provider exactly when the lower-cased name is its name; otherwise an error naming the lower-cased input |
| Providers.GetProviderIgnoresCase | src/contextmemory/core/providers/__init__.py:38 | names equal up to ASCII case select the same provider |
| Providers.LowerFirst | src/contextmemory/core/providers/__init__.py:38 | lower-casing the name first changes nothing |
| Strings.AsciiLower | src/contextmemory/core/providers/__init__.py:38 | `lower` keeps the length and maps each character |
| Strings.Strip | src/contextmemory/summary/summary_generator.py:90 | `strip` gives a substring that neither starts nor ends with whitespace |
| Strings.StripExact | src/contextmemory/summary/summary_generator.py:90 | `strip` removes exactly the surrounding whitespace |
| Strings.StripIdempotent | src/contextmemory/summary/summary_generator.py:90 | stripping twice is stripping once |
| Strings.SplitJoin | src/contextmemory/memory/tool_classifier.py:72-74 | splitting a newline join of single-line parts gives the parts back |
| Strings.ParseNatToString | src/contextmemory/core/providers/gemini_provider.py:115 | `str(n)` reads back to `n` |
| Strings.IntToStringInjective | src/contextmemory/memory/memory.py:108 | different integers print differently |
| SummaryStore.ConversationMessages | src/contextmemory/summary/summary_generator.py:64-70 | exactly the conversation's messages |
| SummaryStore.OldestLength | src/contextmemory/summary/summary_generator.py:64-70 | at most 200 messages are read, and all of them when there are fewer |
| SummaryStore.OldestInConversation | src/contextmemory/summary/summary_generator.py:66 | every message read belongs to the conversation |
| SummaryStore.OldestAscending | src/contextmemory/summary/summary_generator.py:67 | timestamps never decrease along what is read |
| SummaryStore.OldestDominates | src/contextmemory/summary/summary_generator.py:67-68 | no message left out is older than one read |
| SummaryStore.Format | src/contextmemory/summary/summary_generator.py:76-79 | `"{SENDER} {text}"` |
| SummaryStore.FormatAll | src/contextmemory/summary/summary_generator.py:76-79 | one formatted line per message, in order |
| SummaryStore.FormatRoundTrip | src/contextmemory/summary/summary_generator.py:77 | a formatted line keeps both the speaker and the whole text |
| SummaryStore.Matching | src/contextmemory/summary/summary_generator.py:92-96 | exactly the positions of the conversation's summaries, ascending |
| SummaryStore.UpsertSucceeds | src/contextmemory/summary/summary_generator.py:92-96 | with at most one summary per conversation, `one_or_none` never raises |
| SummaryStore.UpsertFails | src/contextmemory/summary/summary_generator.py:96 | the upsert raises exactly when the conversation already has two summaries |
| SummaryStore.UpsertStores | src/contextmemory/summary/summary_generator.py:92-108 | the conversation ends with exactly one summary, with the new text and time; other conversations' summaries are kept; at most one per conversation is preserved |
| SummaryStore.SummaryDb.constructor | src/contextmemory/summary/summary_generator.py:46 | a database holding the given messages and summaries, all committed |
| SummaryStore.SummaryDb.Count | src/contextmemory/summary/summary_generator.py:52-56 | the count query, bounded by the table size |
| SummaryStore.SummaryDb.UpsertSummary | src/contextmemory/summary/summary_generator.py:92-108 | the staged summaries become `Upsert`'s result, or stay unchanged on its error; nothing committed |
| SummaryStore.SummaryDb.Commit | src/contextmemory/summary/summary_generator.py:110 | the committed summaries become the staged ones |
| SummaryDraft.SummaryPromptLines | src/contextmemory/summary/summary_generator.py:22-42 | the prompt is the system prompt and one user message; read line by line, that message is the header, the lines in order, and the footer |
| SummaryDraft.PartsSingleLine | summary/summary_generator.py:46-53 | header and footer lines hold no line break |
| SummaryDraft.HeaderFooterSingleLine | summary/summary_generator.py:46-53 | the fixed prompt lines are single lines |
| SummaryDraft.PromptCarriesMessages | summary/summary_generator.py:77-83 | the model sees every message read, in order, with speaker and whole text, one per line |
| SummaryDraft.Summarized | summary/summary_generator.py:65-113 | no messages: `""` and no write; a commit happens exactly when there are messages and no error; without a commit the summaries are unchanged; the result is stripped |
| SummaryDraft.SummarizedStores | summary/summary_generator.py:91-111 | when the model replies, the stripped reply is returned and stored as the conversation's only summary, dated now, and committed |
| SummaryDraft.SummarizedKeepsInvariant | summary/summary_generator.py:93-109 | a run never gives a conversation two summaries |
| SummaryDraft.Summarize | src/contextmemory/summary/summary_generator.py:63-112 | the summarising step on the database matches `Summarized` and commits at most once |
| SummaryDraft.GenerateConversationSummary | summary/summary_generator.py:59-113 | the draft's entry point is `Summarize` with its own system prompt |
| SummaryDraft.EveryRunSummarizes | summary/summary_generator.py:59-74 | with no trigger, any conversation with messages gets a summary committed when the model replies |
| SummaryGenerator.Generated | src/contextmemory/summary/summary_generator.py:46-112 | without the trigger: `""` and no write; a commit only on a count that is a multiple of 20 |
| SummaryGenerator.GeneratedOnTrigger | src/contextmemory/summary/summary_generator.py:59-110 | on the trigger with a reply, the stripped reply is stored as the conversation's only summary and committed |
| SummaryGenerator.TriggerPeriod | src/contextmemory/summary/summary_generator.py:19-60 | the trigger fires exactly at counts 20k (k ≥ 1), never at the 19 counts after a trigger |
| SummaryGenerator.GeneratedKeepsInvariant | src/contextmemory/summary/summary_generator.py:92-108 | a call never gives a conversation two summaries |
| SummaryGenerator.GenerateConversationSummary | src/contextmemory/summary/summary_generator.py:46-112 | counts, checks the trigger, then runs `Summarize`; matches `Generated` |

## Left out

- The embedding model, cosine similarity, `round`, `float()` and the language models are parameters. Floating-point behaviour is not modelled; scores are reals.
- The clock is a parameter. `datetime.utcnow()` called twice for one record gives one time.
- Network and SDK calls are not modelled: OpenAI, OpenRouter, Gemini's `send_message`, `llm_client`, `embeddings.py`. `ChatCompletion` takes the SDK call as a function.
- `extraction_phase` is not part of this model (its module is not shown). `ContextMemory.Add` receives the candidate facts it would produce.
- `UpdatePhase.Run`: every change staged by an earlier fact is visible to later lookups in the same batch. With `autoflush=False` (src/contextmemory/db/database.py:15), what SQLAlchemy actually shows depends on flushing; the model does not capture that.
- `UpdatePhase.Apply`: an argument of the wrong JSON type is an error here. The source would store or look up the value anyway.
- `ContextMemory.__init__`: the default `SessionLocal()` session is not modelled; a session is always given.
- `Strings.AsciiLower` lower-cases ASCII letters only. Python's `str.lower` also maps other letters.
- The retrieval order of queries without `ORDER BY` is taken as ascending id. Messages with equal timestamps are read in stored order.
- `SummaryStore.Format` reads the message text as `text`. The summary generators read `msg.message_text`, while models/message.py names the column `text`. The package's own message model (src/contextmemory/db/models/message.py) is not part of this model.
- The summary prompt of the packaged generator (`SUMMARY_GENERATOR_PROMPT`) is not part of this model; it is a parameter.
- A model reply without content is the error `MissingContent`; the source raises `AttributeError` there.
- `BubbleCreator.CreateAll` hands out ids from a counter that never hands out an id twice, even after a deletion; database-assigned ids are not modelled beyond that. Every graph-invariant lemma (`ConnectionGraph.InsertKeepsGraph`, `ConnectionGraph.ConnectKeepsSymmetry`, `ConnectionGraph.ConnectKeepsGraph`, `BubbleCreator.CreateAllKeepsGraph`, `UpdatePhase.ApplyKeepsGraph`, `UpdatePhase.RunKeepsGraph`) depends on this. A deletion leaves links to the deleted record on its neighbours, so a backend that reuses the id of a deleted newest row would make those neighbours list an unrelated record that does not list them back. The package's own memory table definition is not part of this model.
- Session rollback after an exception is not modelled: after an error, the earlier staged changes remain staged and uncommitted.
- `ContextMemoryApi.SearchSorted` assumes that rounding never reorders scores; the source's `round` is not proved monotone.
- Tool arguments in Gemini results are `str(fc.args)`, taken as a given string.

## Findings

| source | as written | input that shows it | evidently intended | confidence | as-written member | corrected member |
|---|---|---|---|---|---|---|
| src/contextmemory/memory/memory.py:108 | `raise ValueError("Memory with {memory_id} not found")` has no `f` prefix, so the braces are literal and the id is never printed; memory.py:129 is the same. `ContextMemory.Update` and `ContextMemory.Delete` raise these literal messages | `update(999, …)` on an empty store raises `Memory with {memory_id} not found`; tests/test_basic.py:17-25 expects `Memory with 999 not found` | an f-string that prints the id (`UpdateNotFound`, `DeleteNotFound`) | not executed | ContextMemoryApi.AsWrittenMessagesOmitId | ContextMemoryApi.CorrectedMessageNamesId |
