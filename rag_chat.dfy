/**
 * The guideline chat panel: a message list that starts with the
 * assistant's greeting and only ever grows, the input box, and the loading
 * flag that spans one question's round trip to the answering service.
 */
module RagChat {
  import opened Wrappers
  import opened Strings
  import opened JsText

  datatype Role = User | Assistant

  datatype Message = Message(id: int, role: Role, text: string)

  const GreetingText := "Hi, I\U{2019}m your Maternal Health assistant. Ask any question about antenatal care, danger signs, or follow\U{2011}up."

  /** The one message the panel starts with. */
  const Greeting := Message(1, Assistant, GreetingText)

  /** The assistant's reply whenever the service cannot be reached or answers with an error status. */
  const ApologyText := "Sorry, I couldn\U{2019}t reach the server. Please check that the FastAPI backend on port 8000 is running."

  /**
   * How the question's request ended: the request or the reading of its
   * body threw, the service answered with an error status, or it answered
   * with a JSON body, of which the handler reads the string fields `answer`
   * and `result` (None when missing or null) and, as a last resort, the
   * body's own serialisation `json`.
   */
  datatype AskReply =
    | Threw
    | NotOk
    | Answered(answer: Option<string>, result: Option<string>, json: string)

  /** JavaScript truthiness of an optional string: present and not empty. */
  predicate Present(s: Option<string>) {
    s.Some? && s.value != []
  }

  /** `data.answer || data.result || JSON.stringify(data)` */
  function AnswerText(answer: Option<string>, result: Option<string>, json: string): (t: string)
    ensures Present(answer) ==> t == answer.value
    ensures !Present(answer) && Present(result) ==> t == result.value
    ensures !Present(answer) && !Present(result) ==> t == json
  {
    if Present(answer) then answer.value
    else if Present(result) then result.value
    else json
  }

  /** The fallback chain yields an empty text only if the serialised body is empty too. */
  lemma AnswerTextNonEmpty(answer: Option<string>, result: Option<string>, json: string)
    ensures AnswerText(answer, result, json) == [] <==> !Present(answer) && !Present(result) && json == []
  {
  }

  /** The text of the assistant message that closes a question. */
  function ReplyText(reply: AskReply): (t: string)
    ensures !reply.Answered? ==> t == ApologyText
    ensures reply.Answered? ==> t == AnswerText(reply.answer, reply.result, reply.json)
  {
    match reply
    case Answered(answer, result, json) => AnswerText(answer, result, json)
    case _ => ApologyText
  }

  /** An answer whose text field is filled is shown as it is, even when other fields are present. */
  lemma AnswerWins(a: string, result: Option<string>, json: string)
    requires a != []
    ensures ReplyText(Answered(Some(a), result, json)) == a
  {
  }

  /**
   * `!trimmed || loading`: the send is ignored, which happens exactly when the
   * input is white space only (or empty), or a reply is awaited.
   */
  function Ignored(input: string, loading: bool): (b: bool)
    ensures b <==> AllIn(input, IsJsSpace) || loading
  {
    TrimEmptyIffAllSpace(input);
    Trim(input) == [] || loading
  }

  /** Roles alternate, assistant first, starting with the greeting. */
  ghost predicate WellFormedLog(messages: seq<Message>) {
    && |messages| >= 1
    && messages[0] == Greeting
    && forall i :: 0 <= i < |messages| ==> messages[i].role == (if i % 2 == 0 then Assistant else User)
  }

  /** The panel's state: `messages`, `input` and `loading`. */
  class ChatPanel {
    var messages: seq<Message>
    var input: string
    var loading: bool

    /**
     * The log is well formed, and a reply is awaited exactly when the last
     * message is the user's.
     */
    ghost predicate Valid()
      reads this
    {
      WellFormedLog(messages) && (loading <==> |messages| % 2 == 0)
    }

    /** The panel as first rendered: the greeting, an empty input, not loading. */
    constructor ()
      ensures Valid()
      ensures messages == [Greeting] && input == [] && !loading
    {
      messages := [Greeting];
      input := [];
      loading := false;
    }

    /** The input box's change handler. */
    method SetInput(value: string)
      requires Valid()
      modifies this
      ensures Valid()
      ensures input == value && messages == old(messages) && loading == old(loading)
    {
      input := value;
    }

    /**
     * The synchronous part of `handleSend`, up to the request: unless the
     * send is ignored, append the user's trimmed question, clear the input
     * and start loading. Returns the question sent, if any.
     */
    method Send(now: int) returns (question: Option<string>)
      requires Valid()
      modifies this
      ensures Valid()
      ensures Ignored(old(input), old(loading)) ==>
        && question == None
        && messages == old(messages) && input == old(input) && loading == old(loading)
      ensures !Ignored(old(input), old(loading)) ==>
        && question == Some(Trim(old(input)))
        && question.value != [] && NoEdgeSpace(question.value)
        && messages == old(messages) + [Message(now, User, question.value)]
        && input == [] && loading
    {
      var trimmed := Trim(input);
      if trimmed == [] || loading {
        return None;
      }
      messages := messages + [Message(now, User, trimmed)];
      input := [];
      loading := true;
      question := Some(trimmed);
    }

    /**
     * The rest of `handleSend`, once the request has ended: append the
     * assistant's answer or the apology, then stop loading (`finally`).
     */
    method Receive(reply: AskReply, now: int)
      requires Valid() && loading
      modifies this
      ensures Valid()
      ensures messages == old(messages) + [Message(now + 1, Assistant, ReplyText(reply))]
      ensures !loading && input == old(input)
    {
      messages := messages + [Message(now + 1, Assistant, ReplyText(reply))];
      loading := false;
    }

    /**
     * `handleSend` as one step: an ignored send changes nothing; any other
     * appends exactly the user's question and then exactly one assistant
     * message, and ends with the input cleared and loading off.
     */
    method HandleSend(reply: AskReply, sentAt: int, answeredAt: int)
      requires Valid()
      modifies this
      ensures Valid()
      ensures Ignored(old(input), old(loading)) ==>
        messages == old(messages) && input == old(input) && loading == old(loading)
      ensures !Ignored(old(input), old(loading)) ==>
        && messages == old(messages) + [Message(sentAt, User, Trim(old(input))),
                                        Message(answeredAt + 1, Assistant, ReplyText(reply))]
        && input == [] && !loading
    {
      var question := Send(sentAt);
      if question.Some? {
        Receive(reply, answeredAt);
      }
    }
  }
}
