# Book-shop chatbot backend: decision logic

The chatbot backend answers `POST /chat` requests with `{source, content}`. It loads the last six
turns of the conversation from the database and flattens them into a transcript. A language
model then labels the question DATABASE, POLICY or CHITCHAT, and the request goes to one of
three handlers:

- the database handler has the model write PostgreSQL, strips the code fences, refuses SQL
  that mentions DROP or DELETE, runs the query, and has the model phrase the rows;
- the policy handler embeds the question, fetches the nearest stored policy by cosine
  similarity, and returns its text when the similarity is strictly above 0.3;
- the chitchat branch has the model reply using the history.

This project models the deterministic logic around those external calls. Every call into the
language model, the database or the embedding service is an input: either a value or a total
function returning `Outcome<T>`, which is `Returned(v)` or `Raised`. Each handler returns a
`Run`, which holds its result and the list of external calls it made, in order. That list is
what lets the contracts say things like "the query is never run" or "the phrasing model is not
asked".

Files, one module each:

- `services.dfy` (`Services`): `Option`, `Outcome`, the chat `Message`, the `Call` trace and `Run`.
- `pystr.dfy` (`PyStr`): Python's `in`, `str.replace`, `str.strip()` and `str.upper()`, with lemmas.
- `history.dfy` (`History`): `get_chat_history` as the imperative method `GetChatHistory`,
  specified by the function `HistoryOf`, and the transcript of a history.
- `sqlgate.dfy` (`SqlGate`): cleaning the generated SQL (`CleanSql`) and the DROP/DELETE gate (`Forbidden`).
- `database.dfy` (`DatabaseHandler`): `handle_database_query`.
- `policy.dfy` (`PolicyHandler`): `handle_policy_query`.
- `endpoint.dfy` (`Endpoint`): `route_question` and `chat_endpoint`.

Three facts about the code that the model keeps as they are:

- The endpoint can raise. `route_question`, the schema lookup, the SQL-writing call and the
  chitchat call all sit outside any `try`, so their exceptions escape `chat_endpoint`.
  `Endpoint.WhenTheEndpointRaises` states exactly when this happens.
- The DROP/DELETE gate runs only after `engine.connect()` succeeds, inside the `try`. So when the
  connection fails, forbidden SQL gets the apology text, not the refusal.
- `get_chat_history` only reverses whatever rows the query returns. The model takes the rows as
  given (newest first) and proves that the history is their reversal.

## Model

| member | source | states |
|---|---|---|
| `History.GetChatHistory` | website-book-chatbot/main.py:45-69 | The loop over `reversed(result)` returns exactly `HistoryOf(fetched)`. That is the empty list when the fetch raised or a row has NULL content (the message constructor raises and the `except` returns `[]`). Otherwise it is the rows converted oldest first. |
| `History.HistoryShape` | website-book-chatbot/main.py:59-66 | The history has as many messages as rows. Message `i` comes from row `n-1-i` and carries its content. It is a HumanMessage exactly when the role is `'user'`; every other role, NULL included, is an AIMessage. A failed fetch or a row without content gives `[]`. |
| `History.ChronologicalAt` | website-book-chatbot/main.py:61-65 | Converting the newest-first rows keeps their number and puts row `n-1-i` at position `i`. |
| `History.HistoryWithinLimit` | website-book-chatbot/main.py:45-57 | When the query returns at most `limit` (6) rows, the history has at most 6 messages. |
| `History.Transcript` | website-book-chatbot/main.py:82 | `"\n".join(f"{m.type}: {m.content}")` is empty exactly for the empty history and starts with the oldest message's line. |
| `History.TranscriptAppend` | website-book-chatbot/main.py:104 | Appending a message to a non-empty history appends a newline plus that message's line. |
| `PyStr.ContainsIff` | website-book-chatbot/main.py:132 | Python's `sub in s` holds exactly when some index of `s` starts an occurrence of `sub`. |
| `PyStr.ContainsInSlice` | website-book-chatbot/main.py:125 | An occurrence inside a slice of a text is an occurrence in the text. |
| `PyStr.ContainsPrefix` | website-book-chatbot/main.py:125 | Wherever a pattern occurs, each of its prefixes occurs too (so a text without "```" has no "```sql"). |
| `PyStr.Replace` | website-book-chatbot/main.py:125 | `str.replace` with an empty replacement never lengthens the text. |
| `PyStr.ReplaceAbsent` | website-book-chatbot/main.py:125 | A text in which the pattern does not occur comes back from `str.replace` unchanged. |
| `PyStr.RemovingFencesLeavesNone` | website-book-chatbot/main.py:125 | After `.replace("```", "")` (left to right, non-overlapping), no three backticks remain in a row. |
| `PyStr.StripStartShape` | website-book-chatbot/main.py:125 | Left stripping leaves a suffix that does not start with whitespace and removes only whitespace (Python's `isspace` set). |
| `PyStr.StripEndShape` | website-book-chatbot/main.py:125 | Right stripping leaves a prefix that does not end with whitespace and removes only whitespace. |
| `PyStr.Strip` | website-book-chatbot/main.py:98 | `str.strip()` returns a slice with only whitespace around it, whose ends are not whitespace. It is empty exactly when the text is all whitespace. |
| `PyStr.StripTrimmed` | website-book-chatbot/main.py:98 | A text that neither starts nor ends with whitespace is left unchanged by `strip()`. |
| `PyStr.StripIdempotent` | website-book-chatbot/main.py:98 | Stripping twice gives the same result as stripping once. |
| `PyStr.StripKeepsAbsence` | website-book-chatbot/main.py:125 | Stripping cannot create an occurrence of a pattern. |
| `PyStr.Upper` | website-book-chatbot/main.py:132 | `upper()` keeps the length and leaves no lower-case letter: each of `a`..`z` becomes its capital, and every other character is unchanged. |
| `PyStr.UpperIdempotent` | website-book-chatbot/main.py:132 | Upper-casing twice gives the same result as upper-casing once. |
| `PyStr.UpperCharIsCapital` | website-book-chatbot/main.py:132 | A character upper-cases to the capital `U` exactly when it is `U` or its lower-case letter. |
| `PyStr.ContainsUpperIff` | website-book-chatbot/main.py:132 | For a word of capitals, `w in s.upper()` holds exactly when `s` spells `w` somewhere in any mix of cases. |
| `SqlGate.CleanSqlIsFenceFree` | website-book-chatbot/main.py:125 | The cleaned SQL contains no "```" at all, and it neither starts nor ends with whitespace. |
| `SqlGate.CleanSqlWithoutFence` | website-book-chatbot/main.py:125 | Generated text with no "```" in it is only stripped; lone backticks, as around a quoted column name, are kept. |
| `SqlGate.ForbiddenIff` | website-book-chatbot/main.py:132 | The gate refuses exactly the SQL that spells DROP or DELETE in some mix of cases. Nothing else (UPDATE, INSERT, TRUNCATE) is refused. |
| `DatabaseHandler.RunGuarded` | website-book-chatbot/main.py:129-151 | Inside the `try`: a failed connect gives the apology. Forbidden SQL gives the refusal, and `Execute` is never called. The database runs exactly the cleaned SQL, and only when the gate passes. A failed query gives the apology. An empty result gives "not found" with no phrasing call. Rows give exactly the phrasing model's answer, or the apology if that call raised. |
| `DatabaseHandler.HandleDatabaseQuery` | website-book-chatbot/main.py:103-151 | The handler raises exactly when the schema lookup or the SQL-writing call raises, and then nothing is connected or run. Otherwise the model is asked with the question, the transcript and the schema of `books` and `authors`, and the guarded part runs on `CleanSql` of its output. Only schema, SQL, connect, execute and phrase calls occur. |
| `DatabaseHandler.OnlySafeSqlRuns` | website-book-chatbot/main.py:125-135 | Whatever the model writes, every statement the handler runs is fence-free, has no whitespace at either end, and passes the gate: it spells neither DROP nor DELETE in any case. |
| `PolicyHandler.Decide` | website-book-chatbot/main.py:167-172 | The stored text is returned for a row whose similarity is strictly above 0.3. No row, or a similarity at or below 0.3, gives "not found". A NULL similarity (the `>` raises) gives the maintenance text. A text other than the two fixed ones is returned exactly when the row is relevant. |
| `PolicyHandler.HandlePolicyQuery` | website-book-chatbot/main.py:156-172 | The handler always answers. A failed embedding, connect or query gives the maintenance text. Otherwise the calls are embed, connect, nearest-policy, and the answer is `Decide` of the fetched row. |
| `PolicyHandler.ThresholdIsStrict` | website-book-chatbot/main.py:167 | A similarity of exactly 0.3 gives "not found", and 0.75 gives the stored text verbatim. |
| `Endpoint.Route` | website-book-chatbot/main.py:191-206 | Routing compares by exact string equality: "DATABASE" goes to the database branch, "POLICY" to the policy branch, and every other string to chitchat. |
| `Endpoint.RouteQuestion` | website-book-chatbot/main.py:80-98 | The classifier gets the question and the transcript, exactly one call is made, and its exception propagates. The returned intent is exactly the classifier's reply with `strip()` applied, so stripping it again changes nothing. |
| `Endpoint.ChatEndpoint` | website-book-chatbot/main.py:177-208 | Every request first fetches the history (limit 6) and then classifies. A reply's source is always "database", "policy" or "chitchat", never the initial "ai". A raising classifier makes the endpoint raise after those two calls. Otherwise the content is the chosen handler's answer: the database handler's text (the endpoint raises when that handler raises), the policy handler's text, which is always there, or the chitchat model's reply (the endpoint raises when that call raises). |
| `Endpoint.SourceFollowsIntent` | website-book-chatbot/main.py:188-208 | The source is "database" exactly for the stripped label "DATABASE", "policy" exactly for "POLICY", and "chitchat" for every other label. |
| `Endpoint.OneHandlerPerRequest` | website-book-chatbot/main.py:191-205 | After the fetch and the classification, the calls are exactly one handler's: the database handler with the history, the policy handler without it, or one chitchat call with the history. No call of another handler appears. |
| `Endpoint.PolicyIgnoresHistory` | website-book-chatbot/main.py:194-196 | Two requests routed to the policy handler with the same question and policy services get the same reply, whatever their histories. That reply is never an exception. |
| `Endpoint.WhenTheEndpointRaises` | website-book-chatbot/main.py:182-208 | The endpoint raises exactly when the classifier raises, when the database branch's schema lookup or SQL writing raises, or when the chitchat model raises. |

The three definitions the rows above speak about are `SqlGate.CleanSql`, which models the cleaning at website-book-chatbot/main.py:125, `SqlGate.Forbidden`, which models the DROP/DELETE test at website-book-chatbot/main.py:132, and `History.HistoryOf`, which models the result of `get_chat_history` at website-book-chatbot/main.py:45-69.

## Left out

- Language-model calls (`route_question`'s chain, SQL writing, answer phrasing, the chitchat reply) are uninterpreted inputs. Their prompt texts are not modelled.
- Database behaviour is not modelled: connections, `ORDER BY ... LIMIT`, the pgvector cosine query and `fetchall`/`fetchone`. The fetched rows, or the single row, are inputs. An exception while closing a connection is not modelled.
- The embedding service and the `str(vector)` serialisation are not modelled. The vector is an input, and similarity is a `real`.
- PolicyHandler.Decide: similarity is a mathematical real, so floating-point rounding and NaN (which compares false, giving "not found") are not modelled.
- PyStr.Upper: models the ASCII case mapping only. Python's full Unicode mapping (for example `'ß'.upper() == 'SS'`) is not modelled.
- How the phrasing prompt renders the rows (`str(result)`) and how the chitchat prompt renders the message list are not modelled. The rows and the list are passed to the model as values.
- A NULL `content` column in the policy table is not modelled: policy contents are strings.
- Exceptions caught or raised by the web framework are not modelled: an exception that escapes the endpoint is `Raised`, not an HTTP status.
- `save_chat_message` is an empty stub, so there is nothing to model.
- Process setup is I/O and configuration and is not modelled: the FastAPI app and its wiring, `load_dotenv`, the global clients and `print` logging.
- `debug_db.py` (a connection diagnostic) and `check_models.py` (lists the provider's models) are not part of this model. They only run queries or API calls and print.
