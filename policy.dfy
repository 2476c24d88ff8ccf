/** `handle_policy_query`: embed the question, fetch the nearest stored policy by cosine
    similarity, and return its text only when it is similar enough. */
module PolicyHandler {
  import opened Services

  const NoPolicy := "Xin lỗi, tôi không tìm thấy chính sách liên quan."
  const Maintenance := "Đang bảo trì tính năng tra cứu."

  /** A stored policy must be strictly more similar than this to be returned. */
  const Threshold: real := 0.3

  /** The single row of the nearest-policy query: its content and `1 - cosine distance`, which
      is SQL NULL when the stored embedding is NULL. */
  datatype PolicyRow = PolicyRow(content: string, similarity: Option<real>)

  /** What the external services do for one policy question: the embedding service, opening a
      connection, and the nearest-policy query (which finds no row when the table is empty). */
  datatype PolicyStore = PolicyStore(
    embed: string -> Outcome<seq<real>>,
    connect: Outcome<()>,
    nearest: seq<real> -> Outcome<Option<PolicyRow>>)

  /** The row is there and more similar than the threshold. */
  predicate Relevant(row: Option<PolicyRow>) {
    row.Some? && row.value.similarity.Some? && row.value.similarity.value > Threshold
  }

  /** `if row and row[1] > 0.3: return row[0] else: return "not found"`. Comparing a NULL
      similarity with 0.3 raises, which the handler's `except` turns into the maintenance text. */
  function Decide(row: Option<PolicyRow>): (r: string)
    ensures Relevant(row) ==> r == row.value.content
    ensures row.None? ==> r == NoPolicy
    ensures row.Some? && row.value.similarity.Some? && row.value.similarity.value <= Threshold ==> r == NoPolicy
    ensures row.Some? && row.value.similarity.None? ==> r == Maintenance
    // a policy text that is not one of the two fixed texts comes back exactly when it is relevant
    ensures row.Some? && row.value.content != NoPolicy && row.value.content != Maintenance ==>
      (r == row.value.content <==> Relevant(row))
  {
    match row
    case None => NoPolicy
    case Some(PolicyRow(content, similarity)) =>
      match similarity
      case None => Maintenance
      case Some(x) => if x > Threshold then content else NoPolicy
  }

  /** `handle_policy_query(question)`. Every exception inside its `try` (embedding, connection,
      query) gives the maintenance text, so the handler always answers with text. */
  function HandlePolicyQuery(question: string, store: PolicyStore): (r: Run<string>)
    ensures |r.calls| >= 1 && r.calls[0] == Embed(question)
    ensures store.embed(question).Raised? ==> r.result == Maintenance && r.calls == [Embed(question)]
    ensures store.embed(question).Returned? && store.connect.Raised? ==>
      r.result == Maintenance && r.calls == [Embed(question), Connect]
    ensures store.embed(question).Returned? && store.connect.Returned? ==>
      var vector := store.embed(question).value;
      r.calls == [Embed(question), Connect, NearestPolicy(vector)]
      && r.result == (match store.nearest(vector) case Raised => Maintenance case Returned(row) => Decide(row))
  {
    match store.embed(question)
    case Raised => Run(Maintenance, [Embed(question)])
    case Returned(vector) =>
      match store.connect
      case Raised => Run(Maintenance, [Embed(question), Connect])
      case Returned(_) =>
        var calls := [Embed(question), Connect, NearestPolicy(vector)];
        match store.nearest(vector)
        case Raised => Run(Maintenance, calls)
        case Returned(row) => Run(Decide(row), calls)
  }

  /** A similarity of exactly 0.3 is not enough: the comparison is strict. */
  lemma ThresholdIsStrict(content: string)
    ensures Decide(Some(PolicyRow(content, Some(0.3)))) == NoPolicy
    ensures Decide(Some(PolicyRow(content, Some(0.75)))) == content
  {
  }
}
