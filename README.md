# langgraph-reducer: message-history pruning, modelled in Dafny

The repository prunes a growing chat history. It offers two components built
on one selection rule:

- `Reducer.reduce_messages(messages, message)` appends the delta and checks the
  result against `max_messages`. When the limit is exceeded, it marks messages
  and returns the concatenation with the marked indices deleted.
- `MessagePrunerNode.__call__(state)` runs the same scan without deleting
  anything. It returns removal tokens (`RemoveMessage(id=…)`) for the host to
  apply. If a model function is configured, it also returns a new summary of
  the pruned messages.

The rule works like this, with `excess_count = len - min_messages`.
- Every Human or AI message at indices `1 .. excess_count-1` is marked. This is
  the Python slice `messages[1:excess_count]`.
- For every AI message in that window, every later Tool message whose
  `tool_call_id` equals one of its call ids is marked. This search covers the
  rest of the history, not only the window.

Files:

- `messages.dfy` (`Messages`): the message record. It holds a kind (Human, AI,
  Tool, System, Other) and an optional id. It also holds optional tool calls,
  each with an optional call id, and a `tool_call_id`.
- `selection.dfy` (`Selection`): the shared rule as specification functions.
  `SliceStop` and `ScanStop` give the window, `Selected` and `DeleteSet` the
  marked indices, and `Survivors` the history after deletion. The module also
  holds the lemmas about anchor, kinds, pairing, floor and order.
- `history_reducer.dfy` (`HistoryReducer`): the reducer as imperative code.
  Nested loops build `to_delete`, then one `del` per marked index runs in
  descending order.
- `pruner_node.dfy` (`PrunerNode`): the node.
  - `Discovery` is the order in which the scan finds the indices to prune.
    `Scanned` and `Searched` give the same order part-way through the nested
    loops, for the loop state (window index, tool call, later index).
  - Nested loops fill the two parallel lists.
  - `Call` assembles the result.
  - `Directive`, `SummarizerInput` and `Summarize` form the summary fold.
    `model_func` is an arbitrary function parameter.
- `scenarios.dfy` (`Scenarios`): concrete histories run through the rule.

Behaviour of the code worth knowing, all of it modelled as written:

- **`min_messages` larger than the history does not turn pruning off.** A
  negative `excess_count` is a Python slice stop that counts from the end, so
  `messages[1:len-min]` still scans `1 .. 2·len-min-1`
  (`Scenarios.NegativeExcessStillScans`).
- **The window reaches index `excess_count - 1`.** With `min_messages=0` and
  the history `[sys, human1, ai1(A), tool(A), human2]`, the window
  `messages[1:5]` includes index 4, so only `sys` survives
  (`Scenarios.WholeWindowKeepsOnlyAnchor`).
- **A message without an id is skipped by the node.** It enters neither
  `remove_list` nor `pruned_messages`, so it is not summarised either. An
  id-less Tool result is therefore not removed while the AI call it answers
  is, unlike in the reducer, which deletes both
  (`Scenarios.IdlessToolResultStays`). When every message has an id, the node
  removes exactly the reducer's set (`PrunerNode.NodeMatchesReducerWithIds`),
  so the pairing result for the reducer carries over.
- **Pairing.** `Selection.WellPaired` asks only that every Tool message
  answers some earlier call; the preservation lemma needs nothing more.

## Model

| member | source | states |
|---|---|---|
| Messages.CallsOf | src/langgraph_reducer/reducer.py:29-30 | an AI message with a tool_calls attribute yields exactly its calls; any other message yields none |
| Selection.SliceStop | src/langgraph_reducer/reducer.py:23 | Python's slice stop: a stop within [0, len] is kept, a larger one is clipped to len, a negative one counts from the end and is clipped at 0 |
| Selection.ScanStop | src/langgraph_reducer/reducer.py:21-23 | the scan window of `messages[1:len-min_messages]` never extends beyond the history |
| Selection.SelectedStep | src/langgraph_reducer/reducer.py:23-34 | scanning window index i adds exactly i (if Human/AI) and the later Tool messages answering the calls of message i |
| Selection.EmptyWindow | src/langgraph_reducer/reducer.py:23 | a window ending at 1 or before marks nothing |
| Selection.AnchorNeverSelected | src/langgraph_reducer/reducer.py:23-34 | index 0 is never in `to_delete` |
| Selection.SelectedKinds | src/langgraph_reducer/reducer.py:23-34 | a marked index is a Human/AI message inside the window or a Tool message answering a call of an earlier AI message inside the window; System and Other messages are never marked |
| Selection.PairedToolsSelected | src/langgraph_reducer/reducer.py:29-34 | every later Tool message answering a call of an AI message in the window is marked, even beyond excess_count |
| Selection.FloorKeepsTrailingWindow | src/langgraph_reducer/reducer.py:21-25 | with 0 <= len - min_messages, Human and AI messages in the last min_messages positions are never marked |
| Selection.FloorNothingSelected | src/langgraph_reducer/reducer.py:21-25 | with 0 <= len - min_messages <= 1, nothing is marked |
| Selection.SurvivorsAreOrderedSubsequence | src/langgraph_reducer/reducer.py:37-38 | deleting a set of indices keeps exactly the messages at the other indices, in their original order |
| Selection.SurvivorsNothingDeleted | src/langgraph_reducer/reducer.py:37-38 | deleting no index of the history leaves it unchanged |
| Selection.SurvivorsKeepAnchor | src/langgraph_reducer/reducer.py:37-38 | when index 0 is not deleted, the first survivor is the first message |
| Selection.PairingPreserved | src/langgraph_reducer/reducer.py:29-38 | if every Tool message answers an earlier call, so does every surviving Tool message: deletion never orphans a tool result |
| HistoryReducer.MarkAnswers | src/langgraph_reducer/reducer.py:32-34 | the j-loop adds exactly the later Tool messages answering one call id |
| HistoryReducer.MarkCalls | src/langgraph_reducer/reducer.py:29-34 | the tool-call loop adds exactly the later Tool messages answering one of the calls |
| HistoryReducer.MarkForDeletion | src/langgraph_reducer/reducer.py:19-34 | the nested loops build exactly the marked set of the rule |
| HistoryReducer.DeleteDescending | src/langgraph_reducer/reducer.py:37-38 | `del` in descending index order yields the history with exactly the marked indices removed, order preserved |
| HistoryReducer.Reducer.ReduceMessages | src/langgraph_reducer/reducer.py:13-40 | within the limit the concatenation itself; otherwise the concatenation minus exactly the marked set; the first message always stays first |
| PrunerNode.SearchedMembers | src/langgraph_reducer/reducer.py:80-88 | the j-loop for one tool call adds exactly the later Tool messages that answer that call and have an id |
| PrunerNode.ScannedMembers | src/langgraph_reducer/reducer.py:72-88 | one window index adds its own index (Human/AI with id) and exactly the later Tool messages with an id answering one of its calls |
| PrunerNode.DiscoveryBounds | src/langgraph_reducer/reducer.py:72-88 | no discovered index is 0, and every discovered index names a message of the history that has an id |
| PrunerNode.DiscoveryMembers | src/langgraph_reducer/reducer.py:72-88 | an index is discovered iff the shared rule marks it and its message has an id |
| PrunerNode.NodeRemovesReducerSelection | src/langgraph_reducer/reducer.py:72-88 | the node prunes exactly the indices the reducer deletes, minus those without an id |
| PrunerNode.NodeMatchesReducerWithIds | src/langgraph_reducer/reducer.py:72-88 | when every message has an id, the node prunes exactly the indices the reducer deletes |
| PrunerNode.CollectHits | src/langgraph_reducer/reducer.py:79-88 | the j-loop appends a token and the message, side by side, for each answer to one tool call, in index order |
| PrunerNode.CollectCalls | src/langgraph_reducer/reducer.py:77-88 | the tool-call loop appends the answers of every call, call after call |
| PrunerNode.CollectStep | src/langgraph_reducer/reducer.py:72-88 | one window index appends its own message (Human/AI with id) and then the answers to its calls |
| PrunerNode.CollectWindow | src/langgraph_reducer/reducer.py:72-88 | the loop over window indices 1 .. stop-1 fills both lists with the discovery order of that window |
| PrunerNode.CollectPruned | src/langgraph_reducer/reducer.py:68-88 | remove_list and pruned_messages have the same length; entry k of both names discovered message k, and the token carries that message's id |
| PrunerNode.Directive | src/langgraph_reducer/reducer.py:106-114 | the directive embeds the prior summary exactly when it is non-empty (recoverable by EmbeddedSummary) and is the fresh-summary request otherwise |
| PrunerNode.SummarizerInput | src/langgraph_reducer/reducer.py:116 | the model receives the pruned messages in order followed by exactly one Human message holding the directive |
| PrunerNode.MessagePrunerNode.Summarize | src/langgraph_reducer/reducer.py:99-119 | the new summary is exactly the content of the model's reply to that input |
| PrunerNode.MessagePrunerNode.Call | src/langgraph_reducer/reducer.py:63-97 | within the limit the state itself; otherwise a delta whose removals name the discovered messages in order, with a summary iff something was pruned and a model function exists |
| Scenarios.WholeWindowKeepsOnlyAnchor | src/langgraph_reducer/reducer.py:21-38 | with min_messages=0 on a five-message history, indices 1-4 are deleted and only the first message survives |
| Scenarios.NarrowWindowRemovesOne | src/langgraph_reducer/reducer.py:21-38 | with min_messages=3 only index 1 is deleted and four messages survive |
| Scenarios.NegativeExcessStillScans | src/langgraph_reducer/reducer.py:21-23 | with min_messages above the length, the negative slice stop still scans and removes index 1 |
| Scenarios.IdlessToolResultStays | src/langgraph_reducer/reducer.py:72-88 | an id-less Tool result answering a pruned AI call is deleted by the reducer but not listed by the node |
| Scenarios.RepeatedCallIdListedTwice | src/langgraph_reducer/reducer.py:77-88 | a Tool result answering two calls of one AI message is listed twice by the node |

## Left out

- `PrunableStateFactory` (src/langgraph_reducer/reducer.py:42-50) is not modelled. It only wires the reducer into the framework's state type and has no logic of its own.
- The `print` on line 39 is not modelled. It is observability output only.
- The LangChain message classes and `RemoveMessage` are replaced by the `Message` and `Removal` datatypes. Subclassing is not modelled, so `isinstance` becomes an exact kind.
- `hasattr(msg, "id")` and `hasattr(msg, "tool_calls")` become optional fields, where `None` means the attribute is absent. An id attribute whose value is Python `None` is not distinguished from a present id. Nothing is claimed about which attributes real LangChain messages carry.
- `model_func` is an arbitrary total function parameter. The language-model call itself is not modelled, nor are its exceptions, which propagate uncaught in the source. Its truthiness is taken to be "configured".
- Summary monotonicity is not claimed, because the code does not enforce it: the new summary is whatever the model returns.
- Ceiling convergence (repeated reduction reaching `max_messages`) is not claimed. The code gives no such guarantee: System, Other and unmatched Tool messages are never removed.
- `message=None` raises a TypeError on `messages + None`, and the mutable default argument is a Python quirk. Both are excluded by typing: the delta is always a sequence.
- PrunerNode.MessagePrunerNode.Summarize: returns the summary string itself rather than the one-key dictionary `{"summary": …}` that `__call__` immediately unwraps.
- State keys other than `messages` and `summary` are not modelled. A `summary` key holding Python `None` is not modelled either.
- Pairing for the node is not claimed in general: when an id-less Tool result answers a pruned AI call, applying the node's removals leaves that result without its call. Only the case where every message has an id is stated.
