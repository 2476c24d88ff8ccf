/** `handle_database_query`: look up the schema, have the model write SQL, clean it, open a
    connection, refuse destructive SQL, run it, and have the model phrase the rows. */
module DatabaseHandler {
  import opened Services
  import opened PyStr
  import opened SqlGate
  import History

  const Refusal := "Tôi không được phép thực hiện lệnh này."
  const NoData := "Xin lỗi, không tìm thấy dữ liệu phù hợp."
  const Apology := "Xin lỗi, hệ thống không tìm thấy thông tin."

  /** The tables whose schema the SQL prompt is given. */
  const SchemaTables: seq<string> := ["books", "authors"]

  /** What the external services do for one database question: the schema lookup, the
      SQL-writing model, opening a connection, running a query, and the phrasing model. */
  datatype Backend = Backend(
    tableInfo: Outcome<string>,
    generateSql: (string, string, string) -> Outcome<string>,
    connect: Outcome<()>,
    execute: string -> Outcome<seq<Row>>,
    phrase: (string, seq<Row>) -> Outcome<string>)

  /** The part of the handler inside `try`: every exception there becomes the apology. The gate
      is checked once the connection is open and before anything runs. */
  function RunGuarded(question: string, sql: string, b: Backend): (r: Run<string>)
    ensures |r.calls| >= 1 && r.calls[0] == Connect
    ensures forall c :: c in r.calls ==> c.Connect? || c.Execute? || c.Phrase?
    // a connection that cannot be opened gives the apology, whatever the SQL
    ensures b.connect.Raised? ==> r.result == Apology && r.calls == [Connect]
    // refused SQL never reaches the database
    ensures b.connect.Returned? && Forbidden(sql) ==> r.result == Refusal && r.calls == [Connect]
    // the database runs exactly the cleaned SQL, and only when the gate lets it through
    ensures Execute(sql) in r.calls <==> b.connect.Returned? && !Forbidden(sql)
    ensures forall c :: c in r.calls && c.Execute? ==> c.sql == sql
    // a failed query gives the apology, an empty result the "not found" text, and neither
    // asks the phrasing model
    ensures b.connect.Returned? && !Forbidden(sql) && b.execute(sql).Raised? ==>
      r.result == Apology && r.calls == [Connect, Execute(sql)]
    ensures b.connect.Returned? && !Forbidden(sql) && b.execute(sql) == Returned([]) ==>
      r.result == NoData && r.calls == [Connect, Execute(sql)]
    // rows found: the answer is exactly the phrasing model's output, or the apology if it raised
    ensures b.connect.Returned? && !Forbidden(sql) && b.execute(sql).Returned? && b.execute(sql).value != [] ==>
      var rows := b.execute(sql).value;
      r.calls == [Connect, Execute(sql), Phrase(question, rows)]
      && r.result == (match b.phrase(question, rows) case Returned(answer) => answer case Raised => Apology)
  {
    match b.connect
    case Raised => Run(Apology, [Connect])
    case Returned(_) =>
      if Forbidden(sql) then Run(Refusal, [Connect])
      else
        match b.execute(sql)
        case Raised => Run(Apology, [Connect, Execute(sql)])
        case Returned(rows) =>
          if rows == [] then Run(NoData, [Connect, Execute(sql)])
          else
            var calls := [Connect, Execute(sql), Phrase(question, rows)];
            match b.phrase(question, rows)
            case Raised => Run(Apology, calls)
            case Returned(answer) => Run(answer, calls)
  }

  /** `handle_database_query(question, history)`. The schema lookup and the SQL-writing call sit
      before the `try`, so their exceptions propagate (`Raised`). */
  function HandleDatabaseQuery(question: string, history: seq<Message>, b: Backend): (r: Run<Outcome<string>>)
    ensures |r.calls| >= 1 && r.calls[0] == TableInfo(SchemaTables)
    // it only looks up the schema, asks for SQL, connects, runs and phrases
    ensures forall c :: c in r.calls ==> c.TableInfo? || c.GenerateSql? || c.Connect? || c.Execute? || c.Phrase?
    // the handler raises exactly when the schema lookup or the SQL-writing model raises,
    // and then nothing is connected to or run
    ensures r.result.Raised? <==>
      b.tableInfo.Raised? || b.generateSql(question, History.Transcript(history), b.tableInfo.value).Raised?
    ensures b.tableInfo.Raised? ==> r.calls == [TableInfo(SchemaTables)]
    ensures b.tableInfo.Returned? && r.result.Raised? ==>
      r.calls == [TableInfo(SchemaTables), GenerateSql(question, History.Transcript(history), b.tableInfo.value)]
    // otherwise the model is asked with the question, the transcript and the schema, and the
    // guarded part runs on the cleaned SQL
    ensures r.result.Returned? ==>
      var schema := b.tableInfo.value;
      var transcript := History.Transcript(history);
      var generated := b.generateSql(question, transcript, schema).value;
      var guarded := RunGuarded(question, CleanSql(generated), b);
      r.calls == [TableInfo(SchemaTables), GenerateSql(question, transcript, schema)] + guarded.calls
      && r.result.value == guarded.result
  {
    var transcript := History.Transcript(history);
    var lookup := [TableInfo(SchemaTables)];
    match b.tableInfo
    case Raised => Run(Raised, lookup)
    case Returned(schema) =>
      var asked := lookup + [GenerateSql(question, transcript, schema)];
      match b.generateSql(question, transcript, schema)
      case Raised => Run(Raised, asked)
      case Returned(generated) =>
        var guarded := RunGuarded(question, CleanSql(generated), b);
        Run(Returned(guarded.result), asked + guarded.calls)
  }

  /** Whatever the model writes, every statement the handler runs is fence-free, stripped, and
      passes the gate: it spells neither DROP nor DELETE in any case. */
  lemma {:induction false} OnlySafeSqlRuns(question: string, history: seq<Message>, b: Backend)
    ensures forall c :: c in HandleDatabaseQuery(question, history, b).calls && c.Execute? ==>
      !Forbidden(c.sql) && !Contains(c.sql, "```")
      && (c.sql == [] || (!IsSpace(c.sql[0]) && !IsSpace(c.sql[|c.sql| - 1])))
      && !(exists i :: MatchesIgnoringCaseAt(c.sql, i, "DROP"))
      && !(exists i :: MatchesIgnoringCaseAt(c.sql, i, "DELETE"))
  {
    var r := HandleDatabaseQuery(question, history, b);
    forall c | c in r.calls && c.Execute?
      ensures !Forbidden(c.sql) && !Contains(c.sql, "```")
      ensures c.sql == [] || (!IsSpace(c.sql[0]) && !IsSpace(c.sql[|c.sql| - 1]))
      ensures !(exists i :: MatchesIgnoringCaseAt(c.sql, i, "DROP"))
      ensures !(exists i :: MatchesIgnoringCaseAt(c.sql, i, "DELETE"))
    {
      var transcript := History.Transcript(history);
      var generated := b.generateSql(question, transcript, b.tableInfo.value).value;
      var guarded := RunGuarded(question, CleanSql(generated), b);
      assert c in guarded.calls;
      assert c.sql == CleanSql(generated);
      CleanSqlIsFenceFree(generated);
      ForbiddenIff(c.sql);
    }
  }
}
