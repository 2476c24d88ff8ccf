/** The chat history adapter (`get_chat_history`) and the flattening of a history into the
    transcript text that the prompts receive. */
module History {
  import opened Services

  /** How many turns the history query asks for (`limit=6`). */
  const Limit: nat := 6

  /** One row of the history query `SELECT role, content ... ORDER BY created_at DESC`;
      either column may be SQL NULL. */
  datatype HistoryRow = HistoryRow(role: Option<string>, content: Option<string>)

  /** Every row has a content, so each can be turned into a message. A NULL content makes the
      message constructor reject its argument, which raises. */
  predicate Convertible(rows: seq<HistoryRow>) {
    forall i :: 0 <= i < |rows| ==> rows[i].content.Some?
  }

  /** A row with role exactly "user" is a human turn; every other role, NULL included, is an
      AI turn. */
  function ToMessage(row: HistoryRow): Message
    requires row.content.Some?
  {
    if row.role == Some("user") then HumanMessage(row.content.value) else AIMessage(row.content.value)
  }

  /** The rows, which arrive newest first, as messages oldest first. */
  function Chronological(rows: seq<HistoryRow>): seq<Message>
    requires Convertible(rows)
  {
    if rows == [] then [] else Chronological(rows[1..]) + [ToMessage(rows[0])]
  }

  /** The history `get_chat_history` returns for what the database gave: the empty history when
      the connection or the query raised, or when some row cannot become a message. */
  function HistoryOf(fetched: Outcome<seq<HistoryRow>>): seq<Message> {
    match fetched
    case Raised => []
    case Returned(rows) => if Convertible(rows) then Chronological(rows) else []
  }

  lemma {:induction false} ChronologicalAt(rows: seq<HistoryRow>, i: int)
    requires Convertible(rows) && 0 <= i < |rows|
    ensures |Chronological(rows)| == |rows|
    ensures Chronological(rows)[i] == ToMessage(rows[|rows| - 1 - i])
    decreases |rows|
  {
    if i < |rows| - 1 {
      ChronologicalAt(rows[1..], i);
    } else if |rows| > 1 {
      ChronologicalAt(rows[1..], 0);
    }
  }

  /** The history holds exactly the fetched rows, oldest first: message `i` comes from row
      `|rows| - 1 - i`, has its content, and is a human turn exactly when the row's role is
      "user". A failed fetch or an unconvertible row gives the empty history. */
  lemma HistoryShape(fetched: Outcome<seq<HistoryRow>>)
    ensures fetched.Raised? ==> HistoryOf(fetched) == []
    ensures fetched.Returned? && !Convertible(fetched.value) ==> HistoryOf(fetched) == []
    ensures fetched.Returned? && Convertible(fetched.value) ==>
      var rows, h := fetched.value, HistoryOf(fetched);
      |h| == |rows|
      && (forall i :: 0 <= i < |h| ==> h[i].content == rows[|rows| - 1 - i].content.value)
      && (forall i :: 0 <= i < |h| ==> (h[i].HumanMessage? <==> rows[|rows| - 1 - i].role == Some("user")))
  {
    if fetched.Returned? && Convertible(fetched.value) {
      var rows := fetched.value;
      if rows != [] {
        ChronologicalAt(rows, 0);
      }
      forall i | 0 <= i < |rows| ensures Chronological(rows)[i] == ToMessage(rows[|rows| - 1 - i]) {
        ChronologicalAt(rows, i);
      }
    }
  }

  /** A fetch that keeps within the query's limit gives a history within the limit. */
  lemma HistoryWithinLimit(fetched: Outcome<seq<HistoryRow>>)
    requires fetched.Returned? ==> |fetched.value| <= Limit
    ensures |HistoryOf(fetched)| <= Limit
  {
    HistoryShape(fetched);
  }

  /** `get_chat_history`: walks the fetched rows in reverse and appends one message per row; any
      exception inside the `try` (a failed fetch, a row without content) returns []. */
  method GetChatHistory(fetched: Outcome<seq<HistoryRow>>) returns (messages: seq<Message>)
    ensures messages == HistoryOf(fetched)
  {
    if fetched.Raised? {
      return [];
    }
    var rows := fetched.value;
    messages := [];
    var i := |rows|;
    while i > 0
      invariant 0 <= i <= |rows|
      invariant Convertible(rows[i..])
      invariant messages == Chronological(rows[i..])
    {
      i := i - 1;
      var row := rows[i];
      if row.content.None? {
        return [];
      }
      assert rows[i..][1..] == rows[i + 1..];
      if row.role == Some("user") {
        messages := messages + [HumanMessage(row.content.value)];
      } else {
        messages := messages + [AIMessage(row.content.value)];
      }
    }
    assert rows[0..] == rows;
  }

  /** One transcript line, `f"{m.type}: {m.content}"`. */
  function Line(m: Message): string {
    m.Type() + ": " + m.content
  }

  /** `"\n".join` of the lines of the history: empty exactly for the empty history, and
      beginning with the line of the oldest message. */
  function Transcript(h: seq<Message>): (t: string)
    ensures t == [] <==> h == []
    ensures h != [] ==> StartsWithLine(t, h[0])
  {
    if h == [] then "" else if |h| == 1 then Line(h[0]) else Line(h[0]) + "\n" + Transcript(h[1..])
  }

  predicate StartsWithLine(t: string, m: Message) {
    |Line(m)| <= |t| && t[..|Line(m)|] == Line(m)
  }

  /** Appending a message to a non-empty history appends a newline and its line. */
  lemma {:induction false} TranscriptAppend(h: seq<Message>, m: Message)
    requires h != []
    ensures Transcript(h + [m]) == Transcript(h) + "\n" + Line(m)
    decreases |h|
  {
    assert (h + [m])[0] == h[0];
    assert (h + [m])[1..] == h[1..] + [m];
    if |h| > 1 {
      TranscriptAppend(h[1..], m);
    }
  }
}
