/** Concrete histories run through the specification functions. */
module Scenarios {
  import opened Messages
  import opened Selection
  import opened PrunerNode

  function Sys(): Message { Message(System, Some("s"), None, "", "rules") }
  function HumanMsg(id: string): Message { Message(Human, Some(id), None, "", "question") }
  function AiCalling(id: string, calls: seq<CallId>): Message { Message(AI, Some(id), Some(calls), "", "") }
  function ToolResult(id: string, callId: string): Message { Message(Tool, Some(id), None, callId, "result") }

  /** [system, human1, ai1 calling A, tool result for A, human2] */
  function History(): seq<Message> {
    [Sys(), HumanMsg("h1"), AiCalling("a1", [Some("A")]), ToolResult("t1", "A"), HumanMsg("h2")]
  }

  /** min_messages = 0: the window messages[1:5] covers index 4 as well, so
      only the anchor survives (human2 at index 4 is removed too). */
  lemma WholeWindowKeepsOnlyAnchor()
    ensures DeleteSet(History(), 0) == {1, 2, 3, 4}
    ensures Survivors(History(), DeleteSet(History(), 0)) == [Sys()]
  {
    var H := History();
    assert ScanStop(0, |H|) == 5;
    assert Answers(H[3], CallsOf(H[2])[0]);
    assert PairedWith(H, 2, 3);
    forall j: nat | j < |H|
      ensures Selected(H, 5, j) <==> j in {1, 2, 3, 4}
    {
      if j == 3 {
        assert Selected(H, 5, 3);
      }
    }
    assert DeleteSet(H, 0) == {1, 2, 3, 4};
  }

  /** min_messages = 3: excess_count = 2, only human1 is scanned and
      removed; the AI call and its result stay together. */
  lemma NarrowWindowRemovesOne()
    ensures DeleteSet(History(), 3) == {1}
    ensures Survivors(History(), DeleteSet(History(), 3)) == [Sys(), History()[2], History()[3], History()[4]]
  {
    var H := History();
    assert ScanStop(3, |H|) == 2;
    forall j: nat | j < |H|
      ensures Selected(H, 2, j) <==> j == 1
    {
      assert !PairedWith(H, 1, j);
    }
    assert DeleteSet(H, 3) == {1};
  }

  /** min_messages larger than the history: excess_count = -1 is a Python
      slice stop counting from the end, so messages[1:-1] still scans index
      1 and removes it. */
  lemma NegativeExcessStillScans()
    ensures var H := [Sys(), HumanMsg("h1"), HumanMsg("h2")];
            && |H| < 4
            && DeleteSet(H, 4) == {1}
            && Survivors(H, DeleteSet(H, 4)) == [Sys(), HumanMsg("h2")]
  {
    var H := [Sys(), HumanMsg("h1"), HumanMsg("h2")];
    assert ScanStop(4, |H|) == 2;
    forall j: nat | j < |H|
      ensures Selected(H, 2, j) <==> j == 1
    {
      assert !PairedWith(H, 1, j);
    }
    assert DeleteSet(H, 4) == {1};
  }

  /** A Tool result without an id is not listed by the node, although the
      reducer deletes it together with its AI call: applying the node's
      removals leaves the result without the call it answers. */
  lemma IdlessToolResultStays()
    ensures var H := [Sys(), AiCalling("a1", [Some("A")]), Message(Tool, None, None, "A", "result")];
            && Answers(H[2], CallsOf(H[1])[0])
            && Discovery(H, ScanStop(0, |H|)) == [1]
            && DeleteSet(H, 0) == {1, 2}
  {
    var H := [Sys(), AiCalling("a1", [Some("A")]), Message(Tool, None, None, "A", "result")];
    assert ScanStop(0, |H|) == 3;
    assert CallsOf(H[1]) == [Some("A")];
    assert Discovery(H, 2) == [1] by {
      assert Scanned(H, 1, 0) == [1];
      assert Searched(H, 1, 0, 3) == [1];
    }
    assert CallsOf(H[2]) == [];
    assert OwnEntry(H, 2) == [];
    assert PairedWith(H, 1, 2);
    forall j: nat | j < |H|
      ensures Selected(H, 3, j) <==> j in {1, 2}
    {
      if j == 2 {
        assert Selected(H, 3, 2);
      }
    }
    assert DeleteSet(H, 0) == {1, 2};
  }

  /** The node's lists are not a set: a Tool result answering two calls of
      the same AI message is discovered, and listed for removal, twice. */
  lemma RepeatedCallIdListedTwice()
    ensures var H := [Sys(), AiCalling("a1", [Some("A"), Some("A")]), ToolResult("t1", "A")];
            Discovery(H, ScanStop(0, |H|)) == [1, 2, 2]
  {
    var H := [Sys(), AiCalling("a1", [Some("A"), Some("A")]), ToolResult("t1", "A")];
    assert ScanStop(0, |H|) == 3;
    assert CallsOf(H[1]) == [Some("A"), Some("A")];
    assert Discovery(H, 2) == [1] + [2] + [2] by {
      assert Scanned(H, 1, 0) == [1];
      assert Searched(H, 1, 0, 3) == [1] + [2];
      assert Searched(H, 1, 1, 3) == [1] + [2] + [2];
    }
    assert CallsOf(H[2]) == [];
    assert OwnEntry(H, 2) == [];
  }
}
