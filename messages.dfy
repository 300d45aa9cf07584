/** The message records the pruning rule inspects: only the class of a
    message, its optional id, the call ids of an AI message and the
    tool_call_id of a Tool message matter to it. */
module Messages {

  datatype Option<+T> = None | Some(value: T)

  /** The message classes told apart by isinstance; System and every other
      class are never marked directly. */
  datatype Kind = Human | AI | Tool | System | Other

  /** The id of one tool call, as read with tool_call.get("id"): None when the
      call carries no "id" entry. */
  type CallId = Option<string>

  /** One history entry.
      `id` is None when the message has no id attribute;
      `toolCalls` is None when the message has no tool_calls attribute;
      `toolCallId` is read only for Tool messages. */
  datatype Message = Message(
    kind: Kind,
    id: Option<string>,
    toolCalls: Option<seq<CallId>>,
    toolCallId: string,
    content: string)

  /** The isinstance(msg, (AIMessage, HumanMessage)) test. */
  predicate IsHumanOrAI(m: Message) {
    m.kind == Human || m.kind == AI
  }

  /** The tool calls the scan follows from a message: those of an AI message
      that has a tool_calls attribute, and none otherwise. */
  function CallsOf(m: Message): (calls: seq<CallId>)
    ensures m.kind == AI && m.toolCalls.Some? ==> calls == m.toolCalls.value
    ensures calls != [] ==> m.kind == AI && m.toolCalls == Some(calls)
  {
    if m.kind == AI && m.toolCalls.Some? then m.toolCalls.value else []
  }

  /** A Tool message whose tool_call_id equals the call id (a call without an
      id is answered by nothing). */
  predicate Answers(m: Message, call: CallId) {
    m.kind == Tool && call == Some(m.toolCallId)
  }

  /** The message answers one of the given calls. */
  predicate AnswersAny(m: Message, calls: seq<CallId>) {
    exists k :: 0 <= k < |calls| && Answers(m, calls[k])
  }
}
