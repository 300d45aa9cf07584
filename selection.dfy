/** The selection rule shared by Reducer.reduce_messages and
    MessagePrunerNode.__call__, stated as specification functions, together
    with the sequence that remains once a set of indices is deleted. */
module Selection {
  import opened Messages

  /** Pruning is skipped when max_messages is unset or the history fits. */
  predicate WithinLimit(maxMessages: Option<int>, n: nat) {
    maxMessages.None? || n <= maxMessages.value
  }

  /** The stop index Python uses for a slice `xs[..:e]` of a list of length
      n: a negative stop counts from the end, and both ends are clipped. */
  function SliceStop(e: int, n: nat): (s: nat)
    ensures s <= n
    ensures 0 <= e <= n ==> s == e
    ensures n < e ==> s == n
    ensures e < 0 && 0 <= e + n ==> s == e + n
    ensures e + n < 0 ==> s == 0
  {
    if e < 0 then (if e + n < 0 then 0 else e + n)
    else if e < n then e
    else n
  }

  /** The end of the scan window `messages[1:excess_count]`, where
      excess_count = len(messages) - min_messages. */
  function ScanStop(minMessages: int, n: nat): (s: nat)
    ensures s <= n
  {
    SliceStop(n - minMessages, n)
  }

  /** Message j answers a tool call of the earlier message i. */
  ghost predicate PairedWith(ms: seq<Message>, i: int, j: int) {
    0 <= i < j < |ms| && AnswersAny(ms[j], CallsOf(ms[i]))
  }

  /** Index j is marked by a scan over window indices 1 .. w-1: it is a Human
      or AI message inside the window, or it answers a tool call of an AI
      message inside the window. */
  ghost predicate Selected(ms: seq<Message>, w: int, j: int) {
    && 0 <= j < |ms|
    && ((1 <= j < w && IsHumanOrAI(ms[j]))
        || exists i :: 1 <= i < w && PairedWith(ms, i, j))
  }

  ghost function SelectedSet(ms: seq<Message>, w: int): set<nat> {
    set j: nat | j < |ms| && Selected(ms, w, j)
  }

  /** Widening the window by index i adds i itself (when it is a Human or
      AI message) and the later messages answering the calls of message i. */
  lemma SelectedStep(ms: seq<Message>, i: nat, j: int)
    requires 1 <= i
    ensures Selected(ms, i + 1, j) <==>
              || Selected(ms, i, j)
              || (j == i < |ms| && IsHumanOrAI(ms[j]))
              || PairedWith(ms, i, j)
  {
    if Selected(ms, i + 1, j) && !(1 <= j < i + 1 && IsHumanOrAI(ms[j])) {
      var i' :| 1 <= i' < i + 1 && PairedWith(ms, i', j);
      if i' < i {
        assert Selected(ms, i, j);
      }
    }
  }

  /** A window ending at 1 or before marks nothing. */
  lemma EmptyWindow(ms: seq<Message>, w: int, j: int)
    requires w <= 1
    ensures !Selected(ms, w, j)
  {
  }

  /** The `to_delete` set of reduce_messages for a history and min_messages. */
  ghost function DeleteSet(ms: seq<Message>, minMessages: int): set<nat> {
    SelectedSet(ms, ScanStop(minMessages, |ms|))
  }

  /** The messages of ms[lo..] whose index is not in D, in their order. */
  function SurvivorsFrom<T>(ms: seq<T>, D: set<nat>, lo: nat): seq<T>
    requires lo <= |ms|
    decreases |ms| - lo
  {
    if lo == |ms| then []
    else (if lo in D then [] else [ms[lo]]) + SurvivorsFrom(ms, D, lo + 1)
  }

  /** ms with the indices in D deleted. */
  function Survivors<T>(ms: seq<T>, D: set<nat>): seq<T> {
    SurvivorsFrom(ms, D, 0)
  }

  /** The indices of ms[lo..n) that are not in D, ascending. */
  function KeptFrom(n: nat, D: set<nat>, lo: nat): seq<nat>
    requires lo <= n
    decreases n - lo
  {
    if lo == n then []
    else (if lo in D then [] else [lo]) + KeptFrom(n, D, lo + 1)
  }

  lemma {:induction false} KeptFromLength<T>(ms: seq<T>, D: set<nat>, lo: nat)
    requires lo <= |ms|
    ensures |SurvivorsFrom(ms, D, lo)| == |KeptFrom(|ms|, D, lo)|
    decreases |ms| - lo
  {
    if lo < |ms| {
      KeptFromLength(ms, D, lo + 1);
      if lo in D {
        assert SurvivorsFrom(ms, D, lo) == SurvivorsFrom(ms, D, lo + 1);
        assert KeptFrom(|ms|, D, lo) == KeptFrom(|ms|, D, lo + 1);
      } else {
        assert SurvivorsFrom(ms, D, lo) == [ms[lo]] + SurvivorsFrom(ms, D, lo + 1);
        assert KeptFrom(|ms|, D, lo) == [lo] + KeptFrom(|ms|, D, lo + 1);
      }
    }
  }

  lemma {:induction false} KeptFromElems<T>(ms: seq<T>, D: set<nat>, lo: nat)
    requires lo <= |ms|
    ensures |SurvivorsFrom(ms, D, lo)| == |KeptFrom(|ms|, D, lo)|
    ensures forall k :: 0 <= k < |KeptFrom(|ms|, D, lo)| ==>
              && lo <= KeptFrom(|ms|, D, lo)[k] < |ms|
              && KeptFrom(|ms|, D, lo)[k] !in D
              && SurvivorsFrom(ms, D, lo)[k] == ms[KeptFrom(|ms|, D, lo)[k]]
    decreases |ms| - lo
  {
    KeptFromLength(ms, D, lo);
    if lo < |ms| {
      KeptFromElems(ms, D, lo + 1);
      var K, K' := KeptFrom(|ms|, D, lo), KeptFrom(|ms|, D, lo + 1);
      var S, S' := SurvivorsFrom(ms, D, lo), SurvivorsFrom(ms, D, lo + 1);
      if lo !in D {
        forall k | 0 <= k < |K|
          ensures lo <= K[k] < |ms| && K[k] !in D && S[k] == ms[K[k]]
        {
          if k > 0 {
            assert K[k] == K'[k - 1];
            assert S[k] == S'[k - 1];
          }
        }
      } else {
        assert K == K';
        assert S == S';
      }
    }
  }

  lemma {:induction false} KeptFromIncreasing(n: nat, D: set<nat>, lo: nat)
    requires lo <= n
    ensures forall k :: 0 <= k < |KeptFrom(n, D, lo)| ==> lo <= KeptFrom(n, D, lo)[k]
    ensures forall k, l :: 0 <= k < l < |KeptFrom(n, D, lo)| ==> KeptFrom(n, D, lo)[k] < KeptFrom(n, D, lo)[l]
    decreases n - lo
  {
    if lo < n {
      KeptFromIncreasing(n, D, lo + 1);
      var K, K' := KeptFrom(n, D, lo), KeptFrom(n, D, lo + 1);
      if lo !in D {
        assert K == [lo] + K';
        forall k, l | 0 <= k < l < |K|
          ensures K[k] < K[l]
        {
          assert K[l] == K'[l - 1];
          if k > 0 {
            assert K[k] == K'[k - 1];
          }
        }
      } else {
        assert K == K';
      }
    }
  }

  lemma {:induction false} KeptFromMembers(n: nat, D: set<nat>, lo: nat, x: int)
    requires lo <= n
    ensures x in KeptFrom(n, D, lo) <==> lo <= x < n && x !in D
    decreases n - lo
  {
    if lo < n {
      KeptFromMembers(n, D, lo + 1, x);
    }
  }

  /** Deleting D keeps exactly the messages at the indices not in D, in their
      original order: result position k holds ms[K[k]] for the ascending
      list K of kept indices. */
  lemma SurvivorsAreOrderedSubsequence<T>(ms: seq<T>, D: set<nat>)
    ensures var K := KeptFrom(|ms|, D, 0);
            && |Survivors(ms, D)| == |K|
            && (forall k :: 0 <= k < |K| ==>
                  K[k] < |ms| && K[k] !in D && Survivors(ms, D)[k] == ms[K[k]])
            && (forall k, l :: 0 <= k < l < |K| ==> K[k] < K[l])
            && (forall i :: 0 <= i < |ms| && i !in D <==> i in K)
  {
    KeptFromElems(ms, D, 0);
    KeptFromIncreasing(|ms|, D, 0);
    forall i | 0 <= i < |ms| && i !in D
      ensures i in KeptFrom(|ms|, D, 0)
    {
      KeptFromMembers(|ms|, D, 0, i);
    }
  }

  lemma {:induction false} SurvivorsFromNothingDeleted<T>(ms: seq<T>, D: set<nat>, lo: nat)
    requires lo <= |ms|
    requires forall i :: lo <= i < |ms| ==> i !in D
    ensures SurvivorsFrom(ms, D, lo) == ms[lo..]
    decreases |ms| - lo
  {
    if lo < |ms| {
      SurvivorsFromNothingDeleted(ms, D, lo + 1);
    }
  }

  /** Deleting no index of ms leaves ms as it is. */
  lemma SurvivorsNothingDeleted<T>(ms: seq<T>, D: set<nat>)
    requires forall i :: 0 <= i < |ms| ==> i !in D
    ensures Survivors(ms, D) == ms
  {
    SurvivorsFromNothingDeleted(ms, D, 0);
  }

  /** Index 0 is never marked: the scan starts at 1 and tool matches lie
      after an index of the window. */
  lemma AnchorNeverSelected(ms: seq<Message>, minMessages: int)
    ensures 0 !in DeleteSet(ms, minMessages)
  {
  }

  /** With index 0 kept, the first survivor is the first message. */
  lemma SurvivorsKeepAnchor<T>(ms: seq<T>, D: set<nat>)
    requires 0 < |ms| && 0 !in D
    ensures 0 < |Survivors(ms, D)| && Survivors(ms, D)[0] == ms[0]
  {
  }

  /** A marked index holds a Human or AI message inside the window, or a Tool
      message answering a call of an earlier AI message inside the window; so
      System and Other messages are never marked. */
  lemma SelectedKinds(ms: seq<Message>, minMessages: int, j: nat)
    requires j in DeleteSet(ms, minMessages)
    ensures var w := ScanStop(minMessages, |ms|);
            || (1 <= j < w && IsHumanOrAI(ms[j]))
            || (ms[j].kind == Tool &&
                exists i :: 1 <= i < w && i < j && ms[i].kind == AI && AnswersAny(ms[j], CallsOf(ms[i])))
    ensures ms[j].kind != System && ms[j].kind != Other
  {
    var w := ScanStop(minMessages, |ms|);
    if !(1 <= j < w && IsHumanOrAI(ms[j])) {
      var i :| 1 <= i < w && PairedWith(ms, i, j);
      var k :| 0 <= k < |CallsOf(ms[i])| && Answers(ms[j], CallsOf(ms[i])[k]);
      assert ms[i].kind == AI;
    }
  }

  /** Every later Tool message answering a call of an AI message inside the
      window is marked, wherever it lies in the history. */
  lemma PairedToolsSelected(ms: seq<Message>, minMessages: int, i: nat, j: nat)
    requires 1 <= i < ScanStop(minMessages, |ms|)
    requires i < j < |ms|
    requires AnswersAny(ms[j], CallsOf(ms[i]))
    ensures j in DeleteSet(ms, minMessages)
  {
    assert PairedWith(ms, i, j);
  }

  /** When excess_count = len - min_messages is not negative, Human and AI
      messages among the last min_messages positions are never marked. */
  lemma FloorKeepsTrailingWindow(ms: seq<Message>, minMessages: int, j: nat)
    requires 0 <= |ms| - minMessages <= j < |ms|
    requires IsHumanOrAI(ms[j])
    ensures j !in DeleteSet(ms, minMessages)
  {
    if j in DeleteSet(ms, minMessages) {
      SelectedKinds(ms, minMessages, j);
    }
  }

  /** When 0 <= len - min_messages <= 1 the window is empty and nothing is
      marked. */
  lemma FloorNothingSelected(ms: seq<Message>, minMessages: int)
    requires 0 <= |ms| - minMessages <= 1
    ensures DeleteSet(ms, minMessages) == {}
  {
    forall j: nat | j in DeleteSet(ms, minMessages)
      ensures false
    {
      SelectedKinds(ms, minMessages, j);
    }
  }

  /** Every Tool message answers a tool call of some earlier message. */
  ghost predicate WellPaired(ms: seq<Message>) {
    forall j :: 0 <= j < |ms| && ms[j].kind == Tool ==>
      exists i :: 0 <= i < j && AnswersAny(ms[j], CallsOf(ms[i]))
  }

  /** Deletion never orphans a tool result: if every Tool message of the
      history answers an earlier call, the same holds of the survivors. */
  lemma PairingPreserved(ms: seq<Message>, minMessages: int)
    requires WellPaired(ms)
    ensures WellPaired(Survivors(ms, DeleteSet(ms, minMessages)))
  {
    var D := DeleteSet(ms, minMessages);
    var S := Survivors(ms, D);
    var K := KeptFrom(|ms|, D, 0);
    SurvivorsAreOrderedSubsequence(ms, D);
    forall k | 0 <= k < |S| && S[k].kind == Tool
      ensures exists l :: 0 <= l < k && AnswersAny(S[k], CallsOf(S[l]))
    {
      var j := K[k];
      assert ms[j] == S[k];
      var i :| 0 <= i < j && AnswersAny(ms[j], CallsOf(ms[i]));
      if i in D {
        SelectedKinds(ms, minMessages, i);
        assert ms[i].kind == AI;
        PairedToolsSelected(ms, minMessages, i, j);
        assert false;
      }
      assert i in K;
      var l :| 0 <= l < |K| && K[l] == i;
      assert l < k;
      assert S[l] == ms[i];
    }
  }
}
