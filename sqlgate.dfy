/** What `handle_database_query` does to the model's generated SQL before running it: strip the
    code fences and surrounding whitespace, then refuse it when it mentions DROP or DELETE. */
module SqlGate {
  import opened PyStr

  /** `generated_sql.replace("```sql", "").replace("```", "").strip()` */
  function CleanSql(generated: string): string {
    Strip(Replace(Replace(generated, "```sql", ""), "```", ""))
  }

  /** The cleaned SQL holds no code fence at all, and no surrounding whitespace. */
  lemma CleanSqlIsFenceFree(generated: string)
    ensures !Contains(CleanSql(generated), "```")
    ensures var c := CleanSql(generated); c == [] || (!IsSpace(c[0]) && !IsSpace(c[|c| - 1]))
  {
    var once := Replace(generated, "```sql", "");
    RemovingFencesLeavesNone(once);
    StripKeepsAbsence(Replace(once, "```", ""), "```");
  }

  /** Generated text with no code fence in it is only stripped; a lone backtick, as in a quoted
      column name, is kept. */
  lemma CleanSqlWithoutFence(generated: string)
    requires !Contains(generated, "```")
    ensures CleanSql(generated) == Strip(generated)
  {
    if Contains(generated, "```sql") {
      ContainsPrefix(generated, "```sql", "```");
    }
    ReplaceAbsent(generated, "```sql", "");
    ReplaceAbsent(generated, "```", "");
  }

  /** The safety gate: `"DROP" in cleaned_sql.upper() or "DELETE" in cleaned_sql.upper()`. */
  predicate Forbidden(sql: string) {
    Contains(Upper(sql), "DROP") || Contains(Upper(sql), "DELETE")
  }

  /** The gate refuses exactly the SQL that spells DROP or DELETE somewhere, in any mix of
      upper and lower case; nothing else (UPDATE, INSERT, TRUNCATE) is refused. */
  lemma ForbiddenIff(sql: string)
    ensures Forbidden(sql) <==>
      (exists i :: MatchesIgnoringCaseAt(sql, i, "DROP"))
      || (exists i :: MatchesIgnoringCaseAt(sql, i, "DELETE"))
  {
    ContainsUpperIff(sql, "DROP");
    ContainsUpperIff(sql, "DELETE");
  }
}
