/** Vocabulary shared by every part of the chatbot backend: optional values, the outcome of a
    call into an external service (language model, database, embedding service), the chat
    messages the history holds, and the trace of external calls a request makes. */
module Services {

  datatype Option<+T> = None | Some(value: T)

  /** What a call into an external service does: it returns a value or it raises an exception. */
  datatype Outcome<+T> = Returned(value: T) | Raised

  /** A chat message as the conversation history holds it: a human turn or an AI turn. */
  datatype Message = HumanMessage(content: string) | AIMessage(content: string) {
    /** The message's `type` attribute, used when a history is flattened into text. */
    function Type(): string {
      if HumanMessage? then "human" else "ai"
    }
  }

  /** One row of a result set, its cells rendered as text. */
  type Row = seq<string>

  /** One call into an external service, with the arguments it is given. */
  datatype Call =
    | FetchHistory(sessionId: string, limit: nat)
    | Classify(question: string, transcript: string)
    | TableInfo(tables: seq<string>)
    | GenerateSql(question: string, transcript: string, schema: string)
    | Connect
    | Execute(sql: string)
    | Phrase(question: string, rows: seq<Row>)
    | Embed(text: string)
    | NearestPolicy(vector: seq<real>)
    | ChitchatReply(history: seq<Message>, question: string)

  /** The result of running one step of a request, with the external calls it made, in order. */
  datatype Run<+T> = Run(result: T, calls: seq<Call>)
}
