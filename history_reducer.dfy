/** Reducer.reduce_messages: append the delta, mark indices with the shared
    scan, and delete the marked indices from the local list in descending
    order. Line numbers in the comments below refer to
    src/langgraph_reducer/reducer.py. */
module HistoryReducer {
  import opened Messages
  import opened Selection

  /** The set of j in (i, hi) whose message answers `call`. */
  ghost function AnswerUpTo(ms: seq<Message>, i: nat, call: CallId, hi: nat): set<nat> {
    set j: nat | i < j < hi && j < |ms| && Answers(ms[j], call)
  }

  /** The set of j > i whose message answers one of `calls`. */
  ghost function AnsweredSet(ms: seq<Message>, i: nat, calls: seq<CallId>): set<nat> {
    set j: nat | i < j < |ms| && AnswersAny(ms[j], calls)
  }

  /** What scanning window index i adds to the marked set. */
  ghost function MarkedAt(ms: seq<Message>, i: nat): set<nat>
    requires i < |ms|
  {
    (if IsHumanOrAI(ms[i]) then {i} else {}) + AnsweredSet(ms, i, CallsOf(ms[i]))
  }

  lemma SelectedSetStep(ms: seq<Message>, i: nat)
    requires 1 <= i < |ms|
    ensures SelectedSet(ms, i + 1) == SelectedSet(ms, i) + MarkedAt(ms, i)
  {
    forall j: nat | j < |ms|
      ensures j in SelectedSet(ms, i + 1) <==> j in SelectedSet(ms, i) + MarkedAt(ms, i)
    {
      SelectedStep(ms, i, j);
    }
  }

  lemma EmptyWindowSet(ms: seq<Message>, w: int)
    requires w <= 1
    ensures SelectedSet(ms, w) == {}
  {
    forall j: nat | j < |ms|
      ensures j !in SelectedSet(ms, w)
    {
      EmptyWindow(ms, w, j);
    }
  }

  lemma AnsweredSetExtend(ms: seq<Message>, i: nat, calls: seq<CallId>, c: nat)
    requires c < |calls|
    ensures AnsweredSet(ms, i, calls[..c + 1])
         == AnsweredSet(ms, i, calls[..c]) + AnswerUpTo(ms, i, calls[c], |ms|)
  {
    var pre, ext := calls[..c], calls[..c + 1];
    forall j: nat | j in AnsweredSet(ms, i, ext)
      ensures j in AnsweredSet(ms, i, pre) + AnswerUpTo(ms, i, calls[c], |ms|)
    {
      var k :| 0 <= k < |ext| && Answers(ms[j], ext[k]);
      if k < c {
        assert pre[k] == ext[k];
      }
    }
    forall j: nat | j in AnsweredSet(ms, i, pre) + AnswerUpTo(ms, i, calls[c], |ms|)
      ensures j in AnsweredSet(ms, i, ext)
    {
      if j in AnsweredSet(ms, i, pre) {
        var k :| 0 <= k < |pre| && Answers(ms[j], pre[k]);
        assert ext[k] == pre[k];
      } else {
        assert ext[c] == calls[c];
      }
    }
  }

  /** Lines 32-34: add to `marked` every j after i whose message answers
      the call. */
  method MarkAnswers(ms: seq<Message>, i: nat, callId: CallId, marked: set<nat>) returns (r: set<nat>)
    requires i < |ms|
    ensures r == marked + AnswerUpTo(ms, i, callId, |ms|)
  {
    r := marked;
    var j := i + 1;
    while j < |ms|
      invariant i + 1 <= j <= |ms|
      invariant r == marked + AnswerUpTo(ms, i, callId, j)
    {
      if Answers(ms[j], callId) {
        r := r + {j};
      }
      j := j + 1;
    }
  }

  /** Lines 30-34: for each tool call of message i, mark the later Tool
      messages answering it. */
  method MarkCalls(ms: seq<Message>, i: nat, calls: seq<CallId>, marked: set<nat>) returns (r: set<nat>)
    requires i < |ms|
    ensures r == marked + AnsweredSet(ms, i, calls)
  {
    r := marked;
    var c := 0;
    assert AnsweredSet(ms, i, calls[..0]) == {};
    while c < |calls|
      invariant 0 <= c <= |calls|
      invariant r == marked + AnsweredSet(ms, i, calls[..c])
    {
      r := MarkAnswers(ms, i, calls[c], r);
      AnsweredSetExtend(ms, i, calls, c);
      c := c + 1;
    }
    assert calls[..|calls|] == calls;
  }

  /** Lines 19-34: build `to_delete` with the nested loops over window index
      i, the tool calls of message i, and every later index j. */
  method MarkForDeletion(ms: seq<Message>, minMessages: int) returns (toDelete: set<nat>)
    ensures toDelete == DeleteSet(ms, minMessages)
  {
    toDelete := {};
    var excessCount := |ms| - minMessages;
    var stop := SliceStop(excessCount, |ms|);
    assert stop == ScanStop(minMessages, |ms|);
    var i: nat := 1;
    while i < stop
      invariant i == 1 || i <= stop
      invariant toDelete == SelectedSet(ms, i)
    {
      if IsHumanOrAI(ms[i]) {
        toDelete := toDelete + {i};
      }
      assert toDelete == SelectedSet(ms, i) + (if IsHumanOrAI(ms[i]) then {i} else {});
      toDelete := MarkCalls(ms, i, CallsOf(ms[i]), toDelete);
      SelectedSetStep(ms, i);
      i := i + 1;
    }
    if stop <= 1 {
      EmptyWindowSet(ms, i);
      EmptyWindowSet(ms, stop);
    }
  }

  /** Lines 37-38: `del messages[idx]` for every idx in `toDelete`, largest
      first. Visiting k = n-1 down to 0 and deleting where k is marked meets
      the marked indices in the same descending order; the prefix below k is
      still the original one, so each deletion hits the message it means. */
  method DeleteDescending<T>(ms: seq<T>, toDelete: set<nat>) returns (r: seq<T>)
    ensures r == Survivors(ms, toDelete)
  {
    r := ms;
    var k := |ms|;
    assert ms[..k] == ms;
    while k > 0
      invariant 0 <= k <= |ms|
      invariant r == ms[..k] + SurvivorsFrom(ms, toDelete, k)
    {
      k := k - 1;
      assert ms[..k + 1] == ms[..k] + [ms[k]];
      if k in toDelete {
        assert r[..k] == ms[..k];
        assert r[k + 1..] == SurvivorsFrom(ms, toDelete, k + 1);
        r := r[..k] + r[k + 1..];
      }
    }
  }

  /** The reducer's retention policy, fixed at construction. */
  datatype Reducer = Reducer(minMessages: int, maxMessages: Option<int>)
  {
    /** Lines 13-40. Below the limit the concatenation comes back as it is;
        above it, the concatenation minus exactly the marked indices, in
        order, always starting with the first message. */
    method ReduceMessages(messages: seq<Message>, message: seq<Message>) returns (r: seq<Message>)
      ensures WithinLimit(maxMessages, |messages + message|) ==> r == messages + message
      ensures !WithinLimit(maxMessages, |messages + message|) ==>
                r == Survivors(messages + message, DeleteSet(messages + message, minMessages))
      ensures |messages + message| > 0 ==> |r| > 0 && r[0] == (messages + message)[0]
    {
      var all := messages + message;
      if WithinLimit(maxMessages, |all|) {
        return all;
      }
      var toDelete := MarkForDeletion(all, minMessages);
      r := DeleteDescending(all, toDelete);
      if |all| > 0 {
        AnchorNeverSelected(all, minMessages);
        SurvivorsKeepAnchor(all, toDelete);
      }
    }
  }
}
