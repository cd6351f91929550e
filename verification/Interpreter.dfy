/** The interpreter adapter: every caller utterance that reaches the
    interpreter is appended to the call's transcript together with one
    assistant entry, whether the interpreter answered or failed. */
module Interpreter {
  import opened Wrappers
  import opened Booking

  datatype Role = User | Assistant

  /** One transcript entry. */
  datatype Message = Message(role: Role, content: string)

  /** A parsed interpreter answer: the raw JSON text, and its `response` and
      `fields` members, each of which may be absent. */
  datatype Reply = Reply(raw: string, response: Option<string>, fields: Option<Suggestions>)

  /** The reply spoken when the interpreter call or the parse of its answer fails. */
  const Apology := "Sorry, something went wrong. Could you say that again?"

  /** The text spoken back for an interpreter outcome (`None` is a failure). */
  function ReplyText(answer: Option<Reply>): string {
    match answer
    case Some(r) => r.response.GetOr("")
    case None => Apology
  }

  /** The field suggestions of an interpreter outcome. */
  function FieldsOf(answer: Option<Reply>): Suggestions {
    match answer
    case Some(r) => r.fields.GetOr(NoSuggestions)
    case None => NoSuggestions
  }

  /** What the assistant entry of the transcript records: the raw answer, or the apology. */
  function AssistantText(answer: Option<Reply>): string {
    match answer
    case Some(r) => r.raw
    case None => Apology
  }

  /** A transcript made of complete exchanges: user and assistant entries
      alternate, starting with the user. */
  predicate Alternating(t: seq<Message>) {
    |t| % 2 == 0 && forall i :: 0 <= i < |t| ==> t[i].role == (if i % 2 == 0 then User else Assistant)
  }

  /** `chat_gpt_json`: appends the user's utterance, then one assistant entry,
      and hands back the reply and the field suggestions; on failure the reply
      is the apology and there are no suggestions. */
  method Interpret(userInput: string, history: seq<Message>, answer: Option<Reply>)
    returns (reply: string, fields: Suggestions, updated: seq<Message>)
    ensures updated == history + [Message(User, userInput), Message(Assistant, AssistantText(answer))]
    ensures reply == ReplyText(answer) && fields == FieldsOf(answer)
    ensures answer.None? ==> reply == Apology && fields == NoSuggestions
    ensures Alternating(history) ==> Alternating(updated)
  {
    updated := history + [Message(User, userInput)];
    match answer {
      case Some(r) =>
        reply := r.response.GetOr("");
        fields := r.fields.GetOr(NoSuggestions);
        updated := updated + [Message(Assistant, r.raw)];
      case None =>
        reply := Apology;
        fields := NoSuggestions;
        updated := updated + [Message(Assistant, reply)];
    }
  }
}
