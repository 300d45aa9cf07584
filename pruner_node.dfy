/** MessagePrunerNode: the same scan as the reducer, but instead of deleting
    it lists removal tokens and the pruned messages in discovery order, and
    optionally folds the pruned messages into a summary through an external
    model function. Line numbers in the comments below refer to
    src/langgraph_reducer/reducer.py. */
module PrunerNode {
  import opened Messages
  import opened Selection

  /** RemoveMessage(id=...): an instruction the host resolves by id. */
  datatype Removal = RemoveMessage(id: string)

  /** What the model function returns; only its content is read. */
  datatype Reply = Reply(content: string)

  /** The keys of the state dictionary the node reads; None is a missing key. */
  datatype State = State(messages: Option<seq<Message>>, summary: Option<string>)

  /** What __call__ returns: the state object itself on the no-op path, or
      the delta {messages: remove_list, summary?} on the pruning path. */
  datatype Update =
    | StateUnchanged(state: State)
    | PruneDelta(messages: seq<Removal>, summary: Option<string>)

  /** state.get("messages", []) */
  function MessagesOf(state: State): seq<Message> {
    if state.messages.Some? then state.messages.value else []
  }

  /** state.get("summary", "") */
  function SummaryOf(state: State): string {
    if state.summary.Some? then state.summary.value else ""
  }

  // ---------------------------------------------------------------------
  // Discovery order of the scan (lines 72-88)
  // ---------------------------------------------------------------------

  /** What window index i contributes by itself: its own index, when it is a
      Human or AI message with an id. */
  function OwnEntry(ms: seq<Message>, i: nat): seq<nat>
    requires i < |ms|
  {
    if IsHumanOrAI(ms[i]) && ms[i].id.Some? then [i] else []
  }

  /** The indices discovered, in order, once window indices 1 .. w-1 have
      been scanned. */
  function Discovery(ms: seq<Message>, w: nat): seq<nat>
    requires w <= 1 || w <= |ms|
    decreases w, 0, 0, 0
  {
    if w <= 1 then [] else Scanned(ms, w - 1, |CallsOf(ms[w - 1])|)
  }

  /** ... once, in addition, window index i has contributed its own entry
      and the answers to its first c tool calls. */
  function Scanned(ms: seq<Message>, i: nat, c: nat): seq<nat>
    requires i < |ms| && c <= |CallsOf(ms[i])|
    decreases i, 1, c, 0
  {
    if c == 0 then Discovery(ms, i) + OwnEntry(ms, i)
    else Searched(ms, i, c - 1, |ms|)
  }

  /** ... while the answers to tool call c of window index i are searched
      for, once the indices i+1 .. j-1 have been looked at. */
  function Searched(ms: seq<Message>, i: nat, c: nat, j: nat): seq<nat>
    requires i < |ms| && c < |CallsOf(ms[i])| && j <= |ms|
    decreases i, 1, c, j + 1
  {
    if j <= i + 1 then Scanned(ms, i, c)
    else Searched(ms, i, c, j - 1)
         + (if Answers(ms[j - 1], CallsOf(ms[i])[c]) && ms[j - 1].id.Some? then [j - 1] else [])
  }

  /** The messages at the given indices, in that order. */
  function PrunedMessages(ms: seq<Message>, idx: seq<nat>): (p: seq<Message>)
    requires forall k :: 0 <= k < |idx| ==> idx[k] < |ms|
    ensures |p| == |idx| && forall k :: 0 <= k < |idx| ==> p[k] == ms[idx[k]]
  {
    seq(|idx|, k requires 0 <= k < |idx| => ms[idx[k]])
  }

  /** The inner loop adds exactly the later Tool messages with an id that
      answer the call. */
  lemma {:induction false} SearchedMembers(ms: seq<Message>, i: nat, c: nat, j: nat, x: int)
    requires i < |ms| && c < |CallsOf(ms[i])| && j <= |ms|
    ensures x in Searched(ms, i, c, j) <==>
              || x in Scanned(ms, i, c)
              || (i < x < j && Answers(ms[x], CallsOf(ms[i])[c]) && ms[x].id.Some?)
    decreases j
  {
    if j > i + 1 {
      SearchedMembers(ms, i, c, j - 1, x);
    }
  }

  lemma AnswersAnyLast(m: Message, calls: seq<CallId>)
    requires calls != []
    ensures AnswersAny(m, calls) <==>
              AnswersAny(m, calls[..|calls| - 1]) || Answers(m, calls[|calls| - 1])
  {
    var pre := calls[..|calls| - 1];
    if AnswersAny(m, calls) {
      var k :| 0 <= k < |calls| && Answers(m, calls[k]);
      if k < |pre| {
        assert pre[k] == calls[k];
      }
    }
    if AnswersAny(m, pre) {
      var k :| 0 <= k < |pre| && Answers(m, pre[k]);
      assert calls[k] == pre[k];
    }
  }

  /** Window index i adds its own entry and the later Tool messages with an
      id that answer one of its first c tool calls. */
  lemma {:induction false} ScannedMembers(ms: seq<Message>, i: nat, c: nat, x: int)
    requires i < |ms| && c <= |CallsOf(ms[i])|
    ensures x in Scanned(ms, i, c) <==>
              || x in Discovery(ms, i)
              || x in OwnEntry(ms, i)
              || (i < x < |ms| && AnswersAny(ms[x], CallsOf(ms[i])[..c]) && ms[x].id.Some?)
    decreases c
  {
    if c > 0 {
      var calls := CallsOf(ms[i]);
      ScannedMembers(ms, i, c - 1, x);
      SearchedMembers(ms, i, c - 1, |ms|, x);
      if i < x < |ms| {
        AnswersAnyLast(ms[x], calls[..c]);
        assert calls[..c][..c - 1] == calls[..c - 1];
      }
    }
  }

  /** The node discovers exactly the indices the shared rule marks whose
      message has an id. */
  lemma {:induction false} DiscoveryMembers(ms: seq<Message>, w: nat, x: int)
    requires w <= 1 || w <= |ms|
    ensures x in Discovery(ms, w) <==> 0 <= x < |ms| && Selected(ms, w, x) && ms[x].id.Some?
    decreases w
  {
    if w > 1 {
      var i := w - 1;
      var calls := CallsOf(ms[i]);
      DiscoveryMembers(ms, i, x);
      ScannedMembers(ms, i, |calls|, x);
      assert calls[..|calls|] == calls;
      SelectedStep(ms, i, x);
    } else {
      EmptyWindow(ms, w, x);
    }
  }

  /** The node never prunes index 0, and every discovered index names a
      message of the history that has an id. */
  lemma DiscoveryBounds(ms: seq<Message>, w: nat)
    requires w <= 1 || w <= |ms|
    ensures forall k :: 0 <= k < |Discovery(ms, w)| ==>
              1 <= Discovery(ms, w)[k] < |ms| && ms[Discovery(ms, w)[k]].id.Some?
  {
    forall k | 0 <= k < |Discovery(ms, w)|
      ensures 1 <= Discovery(ms, w)[k] < |ms| && ms[Discovery(ms, w)[k]].id.Some?
    {
      DiscoveryMembers(ms, w, Discovery(ms, w)[k]);
    }
  }

  /** The node prunes exactly the messages the reducer would delete, except
      those without an id (it can only remove by id); unlike the reducer's
      set, an index may be discovered more than once. */
  lemma NodeRemovesReducerSelection(ms: seq<Message>, minMessages: int)
    ensures forall x: nat :: x in Discovery(ms, ScanStop(minMessages, |ms|))
              <==> x < |ms| && x in DeleteSet(ms, minMessages) && ms[x].id.Some?
  {
    forall x: nat
      ensures x in Discovery(ms, ScanStop(minMessages, |ms|))
              <==> x < |ms| && x in DeleteSet(ms, minMessages) && ms[x].id.Some?
    {
      DiscoveryMembers(ms, ScanStop(minMessages, |ms|), x);
    }
  }

  /** When every message has an id, the node prunes exactly the reducer's
      set, so applying its removals keeps the pairing that PairingPreserved
      states for the reducer. */
  lemma NodeMatchesReducerWithIds(ms: seq<Message>, minMessages: int)
    requires forall i :: 0 <= i < |ms| ==> ms[i].id.Some?
    ensures forall x: nat :: x in Discovery(ms, ScanStop(minMessages, |ms|)) <==> x in DeleteSet(ms, minMessages)
  {
    NodeRemovesReducerSelection(ms, minMessages);
  }

  // ---------------------------------------------------------------------
  // The scan as the node runs it
  // ---------------------------------------------------------------------

  /** removeList and pruned are parallel lists naming the messages at idx. */
  ghost predicate Parallel(removeList: seq<Removal>, pruned: seq<Message>, ms: seq<Message>, idx: seq<nat>) {
    && |removeList| == |pruned| == |idx|
    && forall k: nat :: k < |idx| ==> NamesAt(removeList, pruned, ms, idx, k)
  }

  /** Entry k of both lists names message idx[k], which has an id. */
  ghost predicate NamesAt(removeList: seq<Removal>, pruned: seq<Message>, ms: seq<Message>, idx: seq<nat>, k: nat) {
    && k < |idx| && k < |pruned| && k < |removeList|
    && idx[k] < |ms|
    && pruned[k] == ms[idx[k]]
    && pruned[k].id.Some?
    && removeList[k] == RemoveMessage(pruned[k].id.value)
  }

  lemma ParallelEntries(removeList: seq<Removal>, pruned: seq<Message>, ms: seq<Message>, idx: seq<nat>)
    requires Parallel(removeList, pruned, ms, idx)
    ensures |removeList| == |pruned| == |idx|
    ensures forall k :: 0 <= k < |idx| ==>
              && idx[k] < |ms|
              && pruned[k] == ms[idx[k]]
              && pruned[k].id.Some?
              && removeList[k] == RemoveMessage(pruned[k].id.value)
  {
    forall k | 0 <= k < |idx|
      ensures idx[k] < |ms| && pruned[k] == ms[idx[k]] && pruned[k].id.Some?
              && removeList[k] == RemoveMessage(pruned[k].id.value)
    {
      assert NamesAt(removeList, pruned, ms, idx, k);
    }
  }

  lemma ParallelAppend(removeList: seq<Removal>, pruned: seq<Message>, ms: seq<Message>, idx: seq<nat>, x: nat)
    requires Parallel(removeList, pruned, ms, idx)
    requires x < |ms| && ms[x].id.Some?
    ensures Parallel(removeList + [RemoveMessage(ms[x].id.value)], pruned + [ms[x]], ms, idx + [x])
  {
    var removeList', pruned' := removeList + [RemoveMessage(ms[x].id.value)], pruned + [ms[x]];
    forall k: nat | k < |idx| + 1
      ensures NamesAt(removeList', pruned', ms, idx + [x], k)
    {
      if k < |idx| {
        assert NamesAt(removeList, pruned, ms, idx, k);
      }
    }
  }

  /** Lines 80-88: the j-loop for tool call c of window index i: a removal
      token and the message for every later Tool message answering the call
      that has an id. */
  method CollectHits(ms: seq<Message>, i: nat, c: nat,
                     removeList: seq<Removal>, pruned: seq<Message>)
    returns (removeList': seq<Removal>, pruned': seq<Message>)
    requires i < |ms| && c < |CallsOf(ms[i])|
    requires Parallel(removeList, pruned, ms, Scanned(ms, i, c))
    ensures Parallel(removeList', pruned', ms, Scanned(ms, i, c + 1))
  {
    var toolCallId := CallsOf(ms[i])[c];
    removeList', pruned' := removeList, pruned;
    var j := i + 1;
    while j < |ms|
      invariant i + 1 <= j <= |ms|
      invariant Parallel(removeList', pruned', ms, Searched(ms, i, c, j))
    {
      var potentialToolMsg := ms[j];
      if Answers(potentialToolMsg, toolCallId) && potentialToolMsg.id.Some? {
        ParallelAppend(removeList', pruned', ms, Searched(ms, i, c, j), j);
        removeList' := removeList' + [RemoveMessage(potentialToolMsg.id.value)];
        pruned' := pruned' + [potentialToolMsg];
      } else {
        assert Searched(ms, i, c, j + 1) == Searched(ms, i, c, j);
      }
      j := j + 1;
    }
  }

  /** Lines 77-88: the loop over the tool calls of window index i. */
  method CollectCalls(ms: seq<Message>, i: nat, removeList: seq<Removal>, pruned: seq<Message>)
    returns (removeList': seq<Removal>, pruned': seq<Message>)
    requires i < |ms|
    requires Parallel(removeList, pruned, ms, Scanned(ms, i, 0))
    ensures Parallel(removeList', pruned', ms, Scanned(ms, i, |CallsOf(ms[i])|))
  {
    var toolCalls := CallsOf(ms[i]);
    removeList', pruned' := removeList, pruned;
    var c := 0;
    while c < |toolCalls|
      invariant 0 <= c <= |toolCalls|
      invariant Parallel(removeList', pruned', ms, Scanned(ms, i, c))
    {
      removeList', pruned' := CollectHits(ms, i, c, removeList', pruned');
      c := c + 1;
    }
  }

  /** Lines 72-88: one iteration of the window loop: the message itself
      when it is a Human or AI message with an id, then the answers to its
      tool calls. */
  method CollectStep(ms: seq<Message>, i: nat, removeList: seq<Removal>, pruned: seq<Message>)
    returns (removeList': seq<Removal>, pruned': seq<Message>)
    requires 1 <= i < |ms|
    requires Parallel(removeList, pruned, ms, Discovery(ms, i))
    ensures Parallel(removeList', pruned', ms, Discovery(ms, i + 1))
  {
    removeList', pruned' := removeList, pruned;
    var msg := ms[i];
    if IsHumanOrAI(msg) && msg.id.Some? {
      ParallelAppend(removeList', pruned', ms, Discovery(ms, i), i);
      removeList' := removeList' + [RemoveMessage(msg.id.value)];
      pruned' := pruned' + [msg];
    } else {
      assert Scanned(ms, i, 0) == Discovery(ms, i);
    }
    removeList', pruned' := CollectCalls(ms, i, removeList', pruned');
  }

  lemma DiscoveryEmpty(ms: seq<Message>, w: nat)
    requires w <= 1
    ensures Discovery(ms, w) == []
  {
  }

  /** Lines 72-88: the loop over window indices 1 .. stop-1. */
  method CollectWindow(ms: seq<Message>, stop: nat)
    returns (removeList: seq<Removal>, pruned: seq<Message>)
    requires stop <= |ms|
    ensures Parallel(removeList, pruned, ms, Discovery(ms, stop))
  {
    removeList, pruned := [], [];
    var i: nat := 1;
    DiscoveryEmpty(ms, i);
    while i < stop
      invariant i == 1 || i <= stop
      invariant Parallel(removeList, pruned, ms, Discovery(ms, i))
    {
      removeList, pruned := CollectStep(ms, i, removeList, pruned);
      i := i + 1;
    }
    if stop <= 1 {
      DiscoveryEmpty(ms, stop);
    }
  }

  /** Lines 68-88: the scan of __call__ over `messages[1:excess_count]`,
      filling remove_list and pruned_messages side by side in discovery
      order. */
  method CollectPruned(ms: seq<Message>, minMessages: int)
    returns (removeList: seq<Removal>, pruned: seq<Message>)
    ensures Parallel(removeList, pruned, ms, Discovery(ms, ScanStop(minMessages, |ms|)))
  {
    var excessCount := |ms| - minMessages;
    removeList, pruned := CollectWindow(ms, SliceStop(excessCount, |ms|));
  }

  // ---------------------------------------------------------------------
  // Summary fold (lines 99-119)
  // ---------------------------------------------------------------------

  const ExtendHead: string := "This is the conversation summary so far:\n"
  const ExtendTail: string := "\n\nPlease extend the summary by incorporating any new messages."
  const FreshDirective: string := "Please create a concise summary of the conversation so far."

  /** The prior summary a directive carries, if it is an extend directive. */
  function EmbeddedSummary(d: string): Option<string> {
    if |ExtendHead| + |ExtendTail| <= |d|
       && d[..|ExtendHead|] == ExtendHead
       && d[|d| - |ExtendTail|..] == ExtendTail
    then Some(d[|ExtendHead|..|d| - |ExtendTail|])
    else None
  }

  /** Lines 108-114: the directive appended for the model. It embeds the
      prior summary exactly when that summary is non-empty, and is the fixed
      fresh-summary request otherwise. */
  function Directive(summary: string): (d: string)
    ensures summary == "" ==> d == FreshDirective
    ensures EmbeddedSummary(d) == if summary == "" then None else Some(summary)
  {
    if summary != "" then
      var d := ExtendHead + summary + ExtendTail;
      assert d[..|ExtendHead|] == ExtendHead;
      assert d[|d| - |ExtendTail|..] == ExtendTail;
      assert d[|ExtendHead|..|d| - |ExtendTail|] == summary;
      d
    else FreshDirective
  }

  /** Line 116: the messages handed to the model: the pruned messages, in
      order, followed by one Human message holding the directive. */
  function SummarizerInput(summary: string, toSummarize: seq<Message>): (r: seq<Message>)
    ensures |r| == |toSummarize| + 1
    ensures r[..|toSummarize|] == toSummarize
    ensures r[|toSummarize|].kind == Human && r[|toSummarize|].content == Directive(summary)
    ensures EmbeddedSummary(r[|toSummarize|].content) == if summary == "" then None else Some(summary)
  {
    var directive := Message(Human, None, None, "", Directive(summary));
    assert (toSummarize + [directive])[..|toSummarize|] == toSummarize;
    toSummarize + [directive]
  }

  /** The node's configuration, fixed at construction; `modelFunc` is the
      optional summarisation collaborator, an arbitrary function. */
  datatype MessagePrunerNode = MessagePrunerNode(
    minMessages: int,
    maxMessages: Option<int>,
    modelFunc: Option<seq<Message> -> Reply>)
  {
    /** Lines 99-119: the new summary is the content of the model's reply to
        the pruned messages followed by the directive. */
    function Summarize(state: State, toSummarize: seq<Message>): (summary: string)
      requires modelFunc.Some?
      ensures summary == modelFunc.value(SummarizerInput(SummaryOf(state), toSummarize)).content
    {
      var response := modelFunc.value(SummarizerInput(SummaryOf(state), toSummarize));
      response.content
    }

    /** Lines 63-97. Below the limit the state itself comes back. Otherwise
        the delta lists one removal per discovered message, in discovery
        order, and carries a summary exactly when something was pruned and a
        model function is configured. */
    method Call(state: State) returns (r: Update)
      ensures WithinLimit(maxMessages, |MessagesOf(state)|) ==> r == StateUnchanged(state)
      ensures !WithinLimit(maxMessages, |MessagesOf(state)|) ==>
                var ms := MessagesOf(state);
                var d := Discovery(ms, ScanStop(minMessages, |ms|));
                && r.PruneDelta?
                && |r.messages| == |d|
                && (forall k :: 0 <= k < |d| ==> d[k] < |ms| && ms[d[k]].id == Some(r.messages[k].id))
                && (r.summary.Some? <==> d != [] && modelFunc.Some?)
                && (r.summary.Some? ==> r.summary.value == Summarize(state, PrunedMessages(ms, d)))
    {
      var messages := MessagesOf(state);
      if WithinLimit(maxMessages, |messages|) {
        return StateUnchanged(state);
      }
      var removeList, prunedMessages := CollectPruned(messages, minMessages);
      ghost var d := Discovery(messages, ScanStop(minMessages, |messages|));
      ParallelEntries(removeList, prunedMessages, messages, d);
      assert prunedMessages == PrunedMessages(messages, d);
      var summary: Option<string> := None;
      if prunedMessages != [] && modelFunc.Some? {
        summary := Some(Summarize(state, prunedMessages));
      }
      r := PruneDelta(removeList, summary);
    }
  }
}
