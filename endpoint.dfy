/** The `/chat` endpoint (`chat_endpoint`) and the question router (`route_question`): load the
    history, have the model classify the question, and hand it to exactly one handler. */
module Endpoint {
  import opened Services
  import opened PyStr
  import History
  import DatabaseHandler
  import PolicyHandler

  datatype ChatRequest = ChatRequest(question: string, sessionId: string)

  /** The endpoint's reply, `{"source": source, "content": response}`. */
  datatype Response = Response(source: string, content: string)

  datatype Intent = DatabaseIntent | PolicyIntent | ChitchatIntent

  /** The three-way branch on the stripped intent: exact, case-sensitive comparison with the two
      literals, everything else (lower case, punctuation, the empty string) is chitchat. */
  function Route(intent: string): (i: Intent)
    ensures i == DatabaseIntent <==> intent == "DATABASE"
    ensures i == PolicyIntent <==> intent == "POLICY"
    ensures i == ChitchatIntent <==> intent != "DATABASE" && intent != "POLICY"
  {
    if intent == "DATABASE" then DatabaseIntent
    else if intent == "POLICY" then PolicyIntent
    else ChitchatIntent
  }

  /** The `source` each branch reports. */
  function SourceOf(i: Intent): string {
    match i
    case DatabaseIntent => "database"
    case PolicyIntent => "policy"
    case ChitchatIntent => "chitchat"
  }

  /** What the external services do for one request: the history query's rows, the
      classifying model, the two handlers' services, and the chitchat model. */
  datatype Env = Env(
    history: Outcome<seq<History.HistoryRow>>,
    classify: (string, string) -> Outcome<string>,
    database: DatabaseHandler.Backend,
    policy: PolicyHandler.PolicyStore,
    chitchat: (seq<Message>, string) -> Outcome<string>)

  /** `route_question(question, history)`: the classifier is given the flattened transcript and
      its reply is stripped; an exception from the model propagates. */
  function RouteQuestion(question: string, history: seq<Message>, classify: (string, string) -> Outcome<string>): (r: Run<Outcome<string>>)
    ensures r.calls == [Classify(question, History.Transcript(history))]
    ensures r.result.Raised? <==> classify(question, History.Transcript(history)).Raised?
    // the intent is the classifier's reply with its surrounding whitespace removed
    ensures r.result.Returned? ==> r.result.value == Strip(classify(question, History.Transcript(history)).value)
    ensures r.result.Returned? ==>
      var intent := r.result.value;
      Strip(intent) == intent && (intent == [] || (!IsSpace(intent[0]) && !IsSpace(intent[|intent| - 1])))
  {
    var transcript := History.Transcript(history);
    var calls := [Classify(question, transcript)];
    match classify(question, transcript)
    case Raised => Run(Raised, calls)
    case Returned(reply) =>
      StripIdempotent(reply);
      Run(Returned(Strip(reply)), calls)
  }

  /** The history the endpoint works with. */
  function HistoryFor(env: Env): seq<Message> {
    History.HistoryOf(env.history)
  }

  /** The intent the request is routed by, once the classifier has answered. */
  function IntentFor(req: ChatRequest, env: Env): Intent
    requires env.classify(req.question, History.Transcript(HistoryFor(env))).Returned?
  {
    Route(Strip(env.classify(req.question, History.Transcript(HistoryFor(env))).value))
  }

  /** `chat_endpoint(req)`. Only the history adapter and the handlers' own `try` blocks catch
      exceptions: the classifier, the database handler's schema lookup and SQL writing, and the
      chitchat model can raise out of the endpoint. */
  function ChatEndpoint(req: ChatRequest, env: Env): (r: Run<Outcome<Response>>)
    ensures var history := HistoryFor(env);
      |r.calls| >= 2
      && r.calls[..2] == [FetchHistory(req.sessionId, History.Limit), Classify(req.question, History.Transcript(history))]
    // the initial "ai" is never reported: the source is one of the three branch names
    ensures r.result.Returned? ==> r.result.value.source in {"database", "policy", "chitchat"}
    ensures env.classify(req.question, History.Transcript(HistoryFor(env))).Raised? ==> r.result.Raised? && |r.calls| == 2
    // the reply's content is the answer of the handler that ran
    ensures env.classify(req.question, History.Transcript(HistoryFor(env))).Returned? ==>
      var history := HistoryFor(env);
      match IntentFor(req, env)
      case DatabaseIntent =>
        var handled := DatabaseHandler.HandleDatabaseQuery(req.question, history, env.database).result;
        (handled.Raised? ==> r.result.Raised?)
        && (handled.Returned? ==> r.result == Returned(Response("database", handled.value)))
      case PolicyIntent =>
        r.result == Returned(Response("policy", PolicyHandler.HandlePolicyQuery(req.question, env.policy).result))
      case ChitchatIntent =>
        var replied := env.chitchat(history, req.question);
        (replied.Raised? ==> r.result.Raised?)
        && (replied.Returned? ==> r.result == Returned(Response("chitchat", replied.value)))
  {
    var history := HistoryFor(env);
    var routed := RouteQuestion(req.question, history, env.classify);
    var prefix := [FetchHistory(req.sessionId, History.Limit)] + routed.calls;
    match routed.result
    case Raised => Run(Raised, prefix)
    case Returned(intent) =>
      match Route(intent)
      case DatabaseIntent =>
        var handled := DatabaseHandler.HandleDatabaseQuery(req.question, history, env.database);
        var result := match handled.result
                      case Raised => Raised
                      case Returned(text) => Returned(Response(SourceOf(DatabaseIntent), text));
        Run(result, prefix + handled.calls)
      case PolicyIntent =>
        var handled := PolicyHandler.HandlePolicyQuery(req.question, env.policy);
        Run(Returned(Response(SourceOf(PolicyIntent), handled.result)), prefix + handled.calls)
      case ChitchatIntent =>
        var calls := prefix + [ChitchatReply(history, req.question)];
        match env.chitchat(history, req.question)
        case Raised => Run(Raised, calls)
        case Returned(text) => Run(Returned(Response(SourceOf(ChitchatIntent), text)), calls)
  }

  /** The source is decided by the stripped intent alone: "database" exactly for "DATABASE",
      "policy" exactly for "POLICY", and "chitchat" for every other intent. */
  lemma {:induction false} SourceFollowsIntent(req: ChatRequest, env: Env)
    requires env.classify(req.question, History.Transcript(HistoryFor(env))).Returned?
    requires ChatEndpoint(req, env).result.Returned?
    ensures var intent := Strip(env.classify(req.question, History.Transcript(HistoryFor(env))).value);
      var source := ChatEndpoint(req, env).result.value.source;
      (source == "database" <==> intent == "DATABASE")
      && (source == "policy" <==> intent == "POLICY")
      && (source == "chitchat" <==> intent != "DATABASE" && intent != "POLICY")
  {
    var i := IntentFor(req, env);
    assert ChatEndpoint(req, env).result.value.source == SourceOf(i);
  }

  /** Exactly one handler runs: after the history fetch and the classification, the calls are
      the chosen handler's and no other's. The policy handler is not given the history; the
      database and chitchat branches are. */
  lemma {:induction false} OneHandlerPerRequest(req: ChatRequest, env: Env)
    requires env.classify(req.question, History.Transcript(HistoryFor(env))).Returned?
    ensures var r := ChatEndpoint(req, env);
      var rest := r.calls[2..];
      match IntentFor(req, env)
      case DatabaseIntent =>
        rest == DatabaseHandler.HandleDatabaseQuery(req.question, HistoryFor(env), env.database).calls
        && forall c :: c in rest ==> !c.Embed? && !c.NearestPolicy? && !c.ChitchatReply?
      case PolicyIntent =>
        rest == PolicyHandler.HandlePolicyQuery(req.question, env.policy).calls
        && forall c :: c in rest ==> !c.TableInfo? && !c.GenerateSql? && !c.Execute? && !c.Phrase? && !c.ChitchatReply?
      case ChitchatIntent =>
        rest == [ChitchatReply(HistoryFor(env), req.question)]
  {
    var r := ChatEndpoint(req, env);
    var history := HistoryFor(env);
    match IntentFor(req, env)
    case DatabaseIntent =>
      var handled := DatabaseHandler.HandleDatabaseQuery(req.question, history, env.database);
      assert r.calls[2..] == handled.calls;
    case PolicyIntent =>
      var handled := PolicyHandler.HandlePolicyQuery(req.question, env.policy);
      assert r.calls[2..] == handled.calls;
    case ChitchatIntent =>
  }

  /** The policy answer does not depend on the history: two requests with the same question and
      policy services that are both routed to the policy handler get the same reply. */
  lemma PolicyIgnoresHistory(req: ChatRequest, env1: Env, env2: Env)
    requires env1.policy == env2.policy
    requires env1.classify(req.question, History.Transcript(HistoryFor(env1))).Returned?
    requires env2.classify(req.question, History.Transcript(HistoryFor(env2))).Returned?
    requires IntentFor(req, env1) == PolicyIntent && IntentFor(req, env2) == PolicyIntent
    ensures ChatEndpoint(req, env1).result == ChatEndpoint(req, env2).result
    ensures ChatEndpoint(req, env1).result.Returned?
  {
  }

  /** The endpoint raises exactly when the classifier raises, or the database branch's schema
      lookup or SQL writing raises, or the chitchat model raises; the policy branch always
      answers. */
  lemma {:induction false} WhenTheEndpointRaises(req: ChatRequest, env: Env)
    ensures var history := HistoryFor(env);
      var classified := env.classify(req.question, History.Transcript(history));
      ChatEndpoint(req, env).result.Raised? <==>
        classified.Raised?
        || (IntentFor(req, env) == DatabaseIntent
            && DatabaseHandler.HandleDatabaseQuery(req.question, history, env.database).result.Raised?)
        || (IntentFor(req, env) == ChitchatIntent && env.chitchat(history, req.question).Raised?)
  {
  }
}
