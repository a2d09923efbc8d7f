# assessor — a verified model of the assistant's ledger tools, router and sessions

`assessor` is a personal-assistant chatbot. A router language model reads each user
turn and answers with a small directive (`ROUTE=…`, `CLARIFY=…`). The program parses
that text and either answers at once or hands the turn to a specialist agent (finance,
agenda, gym, food, FAQ). An orchestrator model then phrases the specialist's output for
the user. The finance and agenda agents call tools that read and write a Postgres
ledger: transactions, workouts and meals, plus two lookup tables for transaction types
and categories.

This project models three parts of that program in Dafny and proves properties of them.

* **The ledger tools** of `aula7/pg_tools.py`, and the older `pg_tools.py`.
  * `LedgerData` holds the rows, the tables and the tool replies.
  * `Resolve` models the type and category lookups.
  * `PgCast` models Postgres' text-to-`integer` cast.
  * `Inserts`, `Queries` and `Updates` describe each tool as a function from the tables
    to a `Step`: the tables afterwards plus the reply.
  * `Ledger.Store` is a class holding the five tables as fields. Each tool is a method
    of it, proved to do exactly what its function says. On an error reply every table
    is left as it was (the rollback).
* **The router turn.**
  * `Routing` models the first `executar_fluxo_assessor`, in `aula7/aula7.py` and again
    in `aula8/aula8.py`: the `CLARIFY=` / `ROUTE=` regular expressions and `rota_map`.
  * `Graph` models the LangGraph version in `aula8/aula8.py`: the nodes, the two
    conditional edges, the state map they update and the final reply.
  * The language-model chains are parameters: uninterpreted functions from text to text.
* **Sessions and input.**
  * `Sessions` models the `store` of per-session histories with its get-or-create
    method, and `sanitize_input`.
  * `Text` and `Utf8` model the parts of Python's `str`, `unicodedata` and
    `bytes.decode` that these rely on.
  * `Console` models the words that end the console loops.

The database's own contributions are an `Env` value passed to every tool:
* the instant `NOW()`;
* the `::timestamptz` and `::date` casts of a text, which fail on a bad literal;
* the local day of an instant in `America/Sao_Paulo`.

A tool that makes Postgres raise returns `Db(fault)`. Its cases are: a bad timestamp, a
bad date, text that is not an integer, a foreign key, a negative `LIMIT`, a sub-query
that returns several rows, and a column reference that is ambiguous in a join.

## Model

| member | source | states |
|---|---|---|
| Sessions.SessionStore.GetSessionHistory | aula8/aula8.py:31-35 | get-or-create: an unseen id gets a fresh empty history; a known id gets back the very object stored for it; no other entry is removed or replaced (the same function is in aula7/aula7.py and aula6/aula6.py) |
| Sessions.SanitizeText | aula6/aula6.py:60-64 | the sanitised text contains no character of category Mn |
| Sessions.SanitizeInput | aula8/aula8.py:37-46 | text or bytes (decoded with replacement) come out with no Mn character |
| Sessions.SanitizeAscii | aula6/aula6.py:60-64 | ASCII input, which has nothing to decompose, comes back unchanged, case included |
| Sessions.SanitizeIdempotent | aula7/aula7.py:35-44 | sanitising twice is sanitising once |
| Sessions.SanitizeBytesOfText | aula7/aula7.py:35-44 | the UTF-8 bytes of a text sanitise to the same result as the text |
| Sessions.SanitizeKeepsCase | aula8/aula8.py:37-46 | sanitising keeps case: on Latin-1 text, lower-casing or upper-casing before or after it gives the same result |
| Sessions.SanitizeExample | aula8/aula8.py:43-46 | a letter with a diacritic loses the diacritic and keeps its case (`Água` becomes `Agua`) |
| Utf8.Decode | aula8/aula8.py:38-39 | decoding with `errors="replace"` never fails and yields at most one character per byte |
| Utf8.DecodeEncode | aula8/aula8.py:38-39 | decoding the UTF-8 encoding of any text gives back that text |
| Utf8.DecodeAscii | aula7/aula7.py:36-37 | bytes below 0x80 decode one to one into the characters with those codes |
| Text.StripMeaning | aula7/aula7.py:150 | `strip()` drops a whitespace-only prefix and a whitespace-only suffix of its input, and what it keeps neither starts nor ends with whitespace; it is empty exactly when the input is all whitespace |
| Text.StripIdempotent | aula7/aula7.py:157 | stripping twice is stripping once |
| Text.SkipSpacesStops | aula7/aula7.py:150 | the left scan of `strip()` passes over whitespace only and stops at the first character that is not whitespace |
| Text.BackSpacesStops | aula7/aula7.py:150 | the right scan of `strip()` passes over whitespace only and stops after the last character that is not whitespace, never crossing the left scan |
| Text.StripUnpadded | aula7/aula7.py:157 | text with no whitespace at either end is left as it is |
| Text.RemoveMarks | aula6/aula6.py:61-64 | NFD followed by dropping Mn leaves no Mn character |
| Text.RemoveMarksIdempotent | aula6/aula6.py:61-64 | removing marks twice is removing them once |
| Text.ToUpperIdempotent | aula7/pg_tools.py:51 | `upper()` is idempotent |
| Text.UpperCommutes | aula7/pg_tools.py:50-55 | on text the tables cover (Latin-1 plus U+0178 and U+039C), upper-casing before or after removing marks gives the same text |
| Text.LowerCommutes | aula8/aula8.py:37-46 | on Latin-1 text, lower-casing before or after removing marks gives the same text |
| Text.Find | aula7/aula7.py:148 | the first position of a pattern, or -1 exactly when it does not occur |
| Console.EndsSession | aula6/aula6.py:69-71 | the loop stops exactly on `sair` in any mix of cases; padding or any other word does not stop it |
| Console.EndsConversation | aula8/aula8.py:295-297 | the loop stops exactly on a case variant of sair, end, fim, tchau or bye |
| Console.EndsSessionEndsConversation | aula7/aula7.py:184-186 | whatever stops the aula6/aula7 loop also stops the aula8 loop |
| Console.SentinelCapitals | aula7/aula7.py:184 | `SaIr` stops the aula7 loop and `TCHAU` the aula8 loop: case does not matter |
| Console.SentinelPadding | aula7/aula7.py:184 | `sair ` and ` bye` stop neither loop: the line is not stripped |
| Routing.ChainFor | aula7/aula7.py:159-162 | a route yields a chain exactly when `rota_map` maps it to one; a missing key and `fora_escopo` both yield none |
| Routing.ClarifyCapture | aula7/aula7.py:135 | there is a capture exactly when `CLARIFY=` occurs, and it is everything after the first occurrence |
| Routing.RouteCapture | aula7/aula7.py:136 | no capture exactly when no `ROUTE=` is followed by a word character; otherwise the capture is the maximal run of word characters after the leftmost such `ROUTE=` |
| Routing.ExecutarFluxo | aula7/aula7.py:138-179 | every turn first calls the router with the sanitised input and then either nothing else or the specialist on that same input and the orchestrator on the specialist's output, whose reply is the answer; by case of the reply: a usable clarification answers, no route capture answers with the trimmed reply, an unconfigured route is refused, a configured one is dispatched to its chain |
| Routing.ClarifyWins | aula7/aula7.py:148-152 | a non-blank trimmed clarification is the answer even when a route is present, and only the router runs |
| Routing.DirectReply | aula7/aula7.py:154-157 | with no usable clarification and no route match, the trimmed router reply is the answer |
| Routing.UnknownRouteRefused | aula7/aula7.py:159-163 | an unknown route or `fora_escopo` gives the "Rota … não configurada" refusal, and no specialist or orchestrator runs |
| Routing.DispatchedRoute | aula7/aula7.py:165-179 | on a configured route the specialist gets the sanitised user input, the orchestrator gets the specialist's output, and its reply is the answer |
| Routing.ClarifyOfRender | aula8/aula8.py:139 | round trip: the clarification of a directive written in the prompt's shape is captured back exactly |
| Routing.RouteOfRender | aula8/aula8.py:140 | round trip: the route token of a directive written in the prompt's shape is captured back exactly |
| Routing.DirectiveClarifies | aula8/aula8.py:152-156 | a well-formed directive with a non-blank clarification is answered by it, although it names a route |
| Routing.RoutedBy | aula8/aula8.py:158-174 | with a blank clarification, a configured route reaches its specialist as the second call; any other route is refused |
| Routing.DirectiveRoutes | aula8/aula8.py:158-167 | a well-formed directive with a blank clarification goes by its route: its specialist, or the refusal |
| Graph.FirstLine | aula8/aula8.py:195 | `split("\n", 1)[0]` is the prefix up to the first newline, with no newline in it |
| Graph.SplitTail | aula8/aula8.py:195 | `split("=", 1)[1]` raises exactly when there is no `=` |
| Graph.RouteFieldOfRouteReply | aula8/aula8.py:192-195 | for a reply starting with `ROUTE=` the split never raises, and the field is the first line after that prefix |
| Graph.RouterNode | aula8/aula8.py:186-199 | roteador raises only when the input or the session id is missing, and then a `KeyError`; otherwise it sets `resposta_usuario` exactly when the reply lacks `ROUTE=`, or sets `erro`, or sets a known route together with the router's text |
| Graph.DecideAfterRouter | aula8/aula8.py:230-240 | always a key of the edge map; "end" exactly when `erro` or `resposta_usuario` is truthy or the route is not one of the three; otherwise the route itself |
| Graph.DecideAfterSpecialist | aula8/aula8.py:242-245 | "end" exactly when `erro` is truthy, otherwise "orquestrador" |
| Graph.Next | aula8/aula8.py:256-281 | every edge goes down a strict rank (the graph is acyclic), and faq and orquestrador always go to END |
| Graph.Apply | aula8/aula8.py:248 | after a node runs, the state holds every key the node returned, under either state semantics |
| Graph.RunFrom | aula8/aula8.py:250-283 | a run starts at the node it is given, and each node it visits has a strictly lower rank than the one before, so it visits at most rank + 1 nodes |
| Graph.Invoke | aula8/aula8.py:287 | every turn starts at roteador and visits at most three nodes |
| Graph.DirectTurn | aula8/aula8.py:192-193 | a reply that does not start with `ROUTE=` is the answer as it is, even empty, and only roteador runs |
| Graph.InvalidRouteTurn | aula8/aula8.py:195-197 | a route outside financeiro/agenda/faq sets `erro` to "Rota inválida: …" and the turn ends at roteador |
| Graph.RouterStep | aula8/aula8.py:195-199 | on a known route, roteador returns the lower-cased trimmed route, the router's text, the input and the session id |
| Graph.RoutedState | aula8/aula8.py:199 | after roteador on a known route nothing that ends the turn is set, and the specialists' inputs are in the state |
| Graph.NextAfterRoute | aula8/aula8.py:258-267 | once a known route is stored, the conditional edge leads to that route's node |
| Graph.FaqPhase | aula8/aula8.py:201-207 | faq answers with the FAQ chain's reply to the user's input, and the turn ends |
| Graph.SpecialistPhase | aula8/aula8.py:209-221 | financeiro and agenda give their agent the router's text (not the user's input), then always go on to orquestrador |
| Graph.OrchestratorPhase | aula8/aula8.py:223-228 | orquestrador answers with the orchestrator's reply to the specialist's output, and the turn ends |
| Graph.FaqTurn | aula8/aula8.py:256-281 | on the faq route the FAQ chain answers the user's input along roteador then faq |
| Graph.SpecialistTurn | aula8/aula8.py:256-281 | on financeiro/agenda the path is roteador, specialist, orquestrador, and the orchestrator's reply is the answer |
| Graph.ReplyOfAnswered | aula8/aula8.py:288-290 | a run ending with `resposta_usuario` and no `erro` returns that text |
| Graph.DirectAnswer | aula8/aula8.py:286-290 | the reply and path of a turn without `ROUTE=` are the ones the reference cases give |
| Graph.InvalidAnswer | aula8/aula8.py:286-290 | on an unknown route the reply is "Erro: Rota inválida: …" along roteador alone |
| Graph.FaqAnswer | aula8/aula8.py:286-290 | on the faq route the reply and path are the reference ones |
| Graph.SpecialistAnswer | aula8/aula8.py:286-290 | on financeiro/agenda the reply and path are the reference ones |
| Graph.ExecutarFluxo | aula8/aula8.py:286-290 | no exception reaches the caller, and the reply is the reference answer of the case the router's reply falls in |
| Graph.TurnCharacterised | aula8/aula8.py:186-290 | for every router reply, the turn's reply and visited path are those of the reference case split; no node raises |
| Graph.SemanticsAgree | aula8/aula8.py:248 | merging node results into the state and replacing the state with them give the same reply, along the same path, on every turn |
| Resolve.FindTypeId | aula7/pg_tools.py:40-44 | the lookup finds nothing exactly when no row's upper-cased type is the key; otherwise the id of such a row |
| Resolve.ResolveTypeId | aula7/pg_tools.py:33-47 | the result is `None` exactly when a truthy name is given and no row's upper-cased type is its key; with a name, a found id is that of such a row; without one, a truthy id is returned as it is and otherwise the default 2 (the same in pg_tools.py:16-26 with its alias step) |
| Resolve.NameDecidesType | aula7/pg_tools.py:36-44 | with a non-empty name the id argument is ignored; the result is `None` or the id of a row whose type is the trimmed, upper-cased, aliased name |
| Resolve.ZeroTypeIdDefaults | aula7/pg_tools.py:45-47 | with no name, `type_id = 0` and an empty name both fall through to the default id 2 (in both versions) |
| Resolve.AliasCanonical | aula7/pg_tools.py:18-30 | every alias key maps to INCOME, EXPENSES or TRANSFER |
| Resolve.AliasResolves | aula7/pg_tools.py:18-44 | when the three canonical types exist, every alias key resolves to a row of its canonical type |
| Resolve.GastoAlias | pg_tools.py:16-23 | `gasto` is EXPENSES in the current version; the older version aliases only EXPENSE and looks up `GASTO` as it is |
| Resolve.LegacyAgrees | pg_tools.py:16-26 | both versions resolve alike whenever their alias steps give the same key |
| Resolve.SalarioNotAliased | aula7/pg_tools.py:22 | the alias key is spelled `SÁLARIO`, so `salário` is looked up unaliased as `SALÁRIO` |
| Resolve.Normalize | aula7/pg_tools.py:50-55 | the output contains no character of category Mn |
| Resolve.NormalizeUpper | aula7/pg_tools.py:50-55 | a normalised text is its own upper case |
| Resolve.NormalizeIdempotent | aula7/pg_tools.py:50-55 | normalising twice is normalising once |
| Resolve.NormalizeInsensitive | aula7/pg_tools.py:50-55 | upper-casing first never changes the normalised text; on text the tables cover, stripping marks first does not either |
| Resolve.Entries | aula7/pg_tools.py:65-67 | one `(normalize(name), id)` pair per category row, in table order |
| Resolve.CategoryMapMeaning | aula7/pg_tools.py:67 | the dict has a key for each row's normalised name, and holds the id of the last row with that name |
| Resolve.ResolveCategoryId | aula7/pg_tools.py:58-74 | a truthy id is returned unchanged; otherwise a name resolves to a truthy id of the last row with its normalised trimmed name, or to `None`; it never raises |
| PgCast.PgIntCast | aula7/pg_tools.py:551-553 | a text that Postgres accepts for `category_id` gives a value inside the 32-bit range |
| PgCast.CastRender | aula7/pg_tools.py:551-553 | round trip: every 32-bit integer, written in decimal, is read back as itself |
| PgCast.CastRejectsLetter | aula7/pg_tools.py:539-553 | any text holding a letter is rejected by the cast |
| LedgerData.ValueOf | aula7/pg_tools.py:538 | an `Optional[int]` keeps its `None` and its truthiness when it becomes a column value |
| Inserts.StampOf | pg_tools.py:73-94 | an absent or empty timestamp argument means `NOW()` |
| Inserts.InsertTransaction | aula7/pg_tools.py:187-229 | the insert commits exactly when the row's foreign keys hold; it then appends the row under the next serial id and returns that id and timestamp; otherwise nothing changes |
| Inserts.AddTransaction | aula7/pg_tools.py:178-183 | an error leaves the tables unchanged; the reply is the invalid-type error exactly when the type resolves to nothing truthy |
| Inserts.AddTransactionLegacy | pg_tools.py:69-71 | an error leaves the tables unchanged; the reply is the invalid-type error exactly when the older resolution gives nothing truthy |
| Inserts.AddWithStamp | aula7/pg_tools.py:185-205 | with a timestamp, a committed row carries the resolved type, the category resolved from id or name, and the parsed instant |
| Inserts.AddWithoutStamp | aula7/pg_tools.py:206-223 | without a timestamp, a committed row carries the raw `category_id` argument and `NOW()` |
| Inserts.CategoryNameNeedsStamp | aula7/pg_tools.py:185-223 | a category given only by name is stored when a timestamp is given, and dropped (NULL) when it is not |
| Inserts.LegacyAddStoresAsGiven | pg_tools.py:73-94 | the older version stores `category_id` exactly as given, with the parsed timestamp or `NOW()` |
| Inserts.LegacyAddAgrees | pg_tools.py:54-102 | without a category name, with `category_id` not 0, and with a type name both alias steps treat alike, both versions produce the same tables and reply |
| Inserts.AddWorkout | aula7/pg_tools.py:253-283 | fails exactly on an unreadable timestamp, changing nothing; otherwise appends a workout with the title also as `source_text`, under the next id, defaulting to `NOW()` (as in pg_tools.py) |
| Inserts.AddMeal | aula7/pg_tools.py:302-332 | fails exactly on an unreadable timestamp, changing nothing; otherwise appends a meal with the title also as `source_text`, under the next id, defaulting to `NOW()` (as in pg_tools.py) |
| Inserts.InsertTransactionValid | aula7/pg_tools.py:187-233 | the transaction insert keeps the schema constraints: unique ids below the sequence and foreign keys that hold |
| Inserts.AddTransactionValid | aula7/pg_tools.py:163-233 | both versions of `add_transaction` keep the schema constraints |
| Inserts.AddWorkoutValid | aula7/pg_tools.py:253-283 | `add_workout` keeps the schema constraints |
| Inserts.AddMealValid | aula7/pg_tools.py:302-332 | `add_meal` keeps the schema constraints |
| Queries.Present | aula7/pg_tools.py:367-370 | the filters collected are exactly the values of the conditions that are present |
| Queries.ActiveFiltersMeaning | aula7/pg_tools.py:358-370 | each filter is active exactly when its argument is truthy, and binds that argument; the range needs both bounds |
| Queries.TypeIdsNamed | aula7/pg_tools.py:360 | the type sub-query returns exactly the ids of the rows whose lower-cased type equals the lower-cased name |
| Queries.TypeName | aula7/pg_tools.py:384 | the join finds a type name exactly when some type row has the id, and then it is that row's name |
| Queries.Selected | aula7/pg_tools.py:379-385 | the selected rows are exactly the table's joined rows that satisfy every filter |
| Queries.Sort | aula7/pg_tools.py:376 | `ORDER BY occurred_at` gives a permutation of its input sorted in the requested direction |
| Queries.QueryTransactions | aula7/pg_tools.py:345-399 | as written, the query fails exactly when `type_name` is truthy (the ambiguous `type`, reported first), a date is unreadable or the limit is negative; otherwise it is the intended query, with at most `limit` rows |
| Queries.TypeFilterRejected | aula7/pg_tools.py:360 | a stored expense asked for by its type's name: the query as written fails, the intended one lists the expense |
| Queries.QueryIntended | aula7/pg_tools.py:358-389 | the corrected query fails exactly on an unreadable date, a negative limit or a type name shared by several rows; otherwise it returns at most `limit` rows |
| Queries.QuerySound | aula7/pg_tools.py:358-385 | every row of the intended query's reply is a transaction of the table that satisfies every active filter, listed with its type's name |
| Queries.QueryOrderAndLimit | aula7/pg_tools.py:376-389 | the intended query's reply has min(limit, matches) rows, sorted ascending when a bound is given and descending otherwise, and no omitted match comes before a returned one |
| Queries.Where | aula7/pg_tools.py:421 | a `WHERE` keeps exactly the rows that satisfy it |
| Queries.TransfersIgnored | aula7/pg_tools.py:416-422 | excluding type 3 does not change the income or expense sums |
| Queries.TotalBalance | aula7/pg_tools.py:412-433 | the total income and expenses are the sums of types 1 and 2 over the whole table, transfers dropped or not, and the balance is expenses minus income |
| Queries.DailyBalance | aula7/pg_tools.py:449-471 | the reply fails exactly on a date Postgres cannot read; otherwise income and expenses are the sums of types 1 and 2 over every row of that local day, and the balance is income minus expenses |
| Queries.SumsAgree | aula7/pg_tools.py:453-458 | two filters that agree on the rows of a type keep rows with the same sum of that type |
| Queries.OppositeSigns | aula7/pg_tools.py:453-471 | when every row falls on the given day, both tools report the same sums and opposite balances |
| Queries.TotalAfterInsert | aula7/pg_tools.py:416-432 | a new transaction moves the income or the expense total by its amount according to its type, and leaves the other unchanged |
| Updates.LatestHit | aula7/pg_tools.py:518-531 | the search finds nothing exactly when no row matches; otherwise a matching row whose time is the latest, the first of the tied ones |
| Updates.Target | aula7/pg_tools.py:512-534 | an id is the target as given; without one, both `match_text` and `date_local` are needed; the target is then a matching row of that day; errors are only the two fixed replies or a bad date |
| Updates.CategoryNameIsTheId | aula7/pg_tools.py:538-540 | a category name given without a truthy id is passed into the `category_id` slot and comes back as the new category id itself |
| Updates.AppendedSets | aula7/pg_tools.py:543-562 | appending one clause per field that is not `None`, in the source's order, builds the planned clause list |
| Updates.PlannedSetsEmpty | aula7/pg_tools.py:564-565 | no clause is planned exactly when every field is `None` after resolution |
| Updates.Bind | aula7/pg_tools.py:569-572 | only the category and the timestamp binds can fail, and only with a database fault |
| Updates.BindAll | aula7/pg_tools.py:569-572 | the statement binds exactly when each clause does, each value in place; otherwise it fails with the first failing clause's fault |
| Updates.ApplyAll | aula7/pg_tools.py:569-572 | the `SET` never changes a row's id or `source_text` |
| Updates.UpdateRows | aula7/pg_tools.py:569-573 | the rows with the target id get the changes; every other row is kept as it was |
| Updates.RowWithId | aula7/pg_tools.py:577-589 | finds a row with the id exactly when one exists |
| Updates.UpdateTransaction | aula7/pg_tools.py:505-612 | an error leaves the tables unchanged; a commit changes only `transactions` (the `updated` record is stated by `Updates.UpdateReply`) |
| Updates.NothingToUpdateExactly | aula7/pg_tools.py:505-506 | the "Nada para atualizar" reply comes exactly when every change field is falsy, and then nothing changes |
| Updates.UpdateNeedsMatch | aula7/pg_tools.py:513-533 | without an id, a missing `match_text` or `date_local` is an error, and so is a day with no matching row; both leave the tables unchanged |
| Updates.UpdateTargetsLatest | aula7/pg_tools.py:518-534 | without an id, the target is a matching row of that day with the latest timestamp |
| Updates.UpdateFrame | aula7/pg_tools.py:567-574 | on commit only rows with the target id change, each by the bound changes, and `rows_affected` counts them |
| Updates.CategoryName | aula7/pg_tools.py:584 | the `LEFT JOIN` on categories gives the name of the first category with the row's id, and NULL exactly when the id is NULL or no category has it |
| Updates.DetailOf | aula7/pg_tools.py:577-601 | the record re-selected after the commit is a stored row with the id, joined with its type's name and its category's name, and `None` when no row has the id |
| Updates.DetailOfStored | aula7/pg_tools.py:577-601 | on a valid store, the record for a stored id is that row with its type's name, and its category is NULL exactly when the row has none |
| Updates.UpdateReplyAbsent | aula7/pg_tools.py:597-608 | on a valid store, a committed reply's `updated` is `None` exactly when no row has the target id |
| Updates.UpdateReply | aula7/pg_tools.py:577-608 | on a valid store, a committed reply's `updated` is the rewritten row: the given amount, timestamp, description and payment method or the old ones, the name of its new type, the name of its new category (NULL exactly when that category is), and the old `source_text` |
| Updates.PlannedRow | aula7/pg_tools.py:543-562 | the fields that are not `None` after resolution are written, each as its column reads it; every other column keeps its value |
| Updates.UpdatedFields | aula7/pg_tools.py:537-574 | the committed target row carries each resolved argument, with a category name cast to an integer; id, `source_text` and the rest are unchanged |
| Updates.CategoryNameRaises | aula7/pg_tools.py:537-612 | a category name holding a letter, given without an id, makes the `UPDATE` raise; the call rolls back |
| Updates.UnresolvedTypeAlone | aula7/pg_tools.py:537-565 | an unresolvable type name with no other field gives "Nenhum campo válido" and changes nothing |
| Updates.UpdateValid | aula7/pg_tools.py:567-574 | `update_transaction` keeps the schema constraints |
| Updates.RowsAffectedAtMostOne | aula7/pg_tools.py:573 | with unique ids, `rows_affected` is at most 1, and 1 exactly when the target exists |
| Ledger.ToolLists | aula7/pg_tools.py:621 | every older tool is still offered, and `update_transaction` is not among the agent's six tools |
| Ledger.BuildSets | aula7/pg_tools.py:543-562 | the `sets` list built one `append` at a time is the planned clause list |
| Ledger.Store.InsertTransaction | aula7/pg_tools.py:187-229 | the store after the insert and its reply are those of `Inserts.InsertTransaction` |
| Ledger.Store.AddTransaction | aula7/pg_tools.py:163-233 | the store and reply are those of `Inserts.AddTransaction`; the schema constraints are kept |
| Ledger.Store.AddTransactionLegacy | pg_tools.py:55-102 | the store and reply are those of `Inserts.AddTransactionLegacy`; the schema constraints are kept |
| Ledger.Store.AddWorkout | aula7/pg_tools.py:243-283 | the store and reply are those of `Inserts.AddWorkout`; the schema constraints are kept |
| Ledger.Store.AddMeal | aula7/pg_tools.py:293-332 | the store and reply are those of `Inserts.AddMeal`; the schema constraints are kept |
| Ledger.Store.QueryTransactions | aula7/pg_tools.py:345-399 | the loop over `conditions` and the query give the reply of `Queries.QueryTransactions`, the query as written |
| Ledger.Store.TotalBalance | aula7/pg_tools.py:412-436 | balance is expenses minus income, and income is the type-1 sum over the whole table |
| Ledger.Store.DailyBalance | aula7/pg_tools.py:449-475 | the reply is that of `Queries.DailyBalance`, whose balance is income minus expenses |
| Ledger.Store.UpdateTransaction | aula7/pg_tools.py:484-612 | the store and reply are those of `Updates.UpdateTransaction`; the schema constraints are kept |

## Left out

- Language models, agents and `RunnableWithMessageHistory` are not modelled. Each chain is a text function passed in as a parameter, so the messages a chain adds to a session's history are not modelled.
- FAQ retrieval (`get_faq_context`) is not part of this model. It sits inside the FAQ chain parameter.
- The console loops are not modelled: reading input, printing replies, and the handler that prints "Erro ao consumir a API". Only the sentinel test is.
- `to_safe_str` is the identity for chain outputs, because the chain parameters return text.
- Connections, cursors, `commit`/`rollback` and the SQL text are not modelled. The tables are sequences of records; a commit is "the tables afterwards", and a rollback is "the tables as they were".
- An error reply carries the tool's fixed message (`LedgerData.Message`), or a `DbFault` that stands for Postgres' `str(e)`; the wording of database errors is not modelled.
- `Ledger.Store.InsertTransaction`: a rejected insert leaves the `serial` counter unchanged. Postgres consumes a sequence value even then, so later ids may differ from the model's.
- Amounts are integers, for example cents, because the source adds floats. The `float(...)` of the sums and the `str(...)` of timestamps in the replies are not modelled.
- The int4 range is modelled only for the text bound to `category_id`. The other integer columns are unbounded.
- `NOW()`, the `::timestamptz` and `::date` casts, and the conversion to `America/Sao_Paulo` are the abstract `Env` functions. They are not defined here.
- Queries.TextMatch: `ILIKE '%v%'` is a case-insensitive substring test. A `%` or `_` inside the user's text is a literal, not a wildcard.
- Queries.TypeIdsNamed: the same holds for the type filter `type ILIKE v`, which is modelled as equality after lower-casing.
- PgCast.PgIntCast: the cast is that of Postgres 15 and earlier. Postgres 16 also accepts `0x`, `0o` and `0b` prefixes and `_` between digits, so `PgCast.CastRejectsLetter` would not hold there for texts such as `0x1F`.
- Resolve.CategoryMap: `SELECT id, name FROM categories` has no `ORDER BY`. When two categories share a normalised name, which id wins depends on the order Postgres returns the rows in; the model takes table order.
- The schema is not in the source and is inferred from the statements: `transactions.type` and `transactions.category_id` are foreign keys, `category_id` is an `integer`, and the ids are `serial`.
- Postgres' `UPPER`/`lower` are modelled as Python's `upper()`/`lower()`. Both are given over ASCII and Latin-1.
- Character tables cover U+0000 to U+00FF exactly. NFD decomposes only the Latin-1 letters with diacritics (and U+0178), and category Mn covers only the main combining-mark blocks.
- Text.UpperCommutes, Resolve.NormalizeInsensitive: the mark-stripping half is stated only for text the tables cover. Beyond them Python's `upper()` turns some combining marks into letters (U+0345 becomes U+0399), so there `normalize` would keep a letter that `Resolve.Normalize` drops.
- aula7's `chain_faq` ends its pipe with the class `StrOutputParser` rather than an instance (aula7/aula7.py:118), so in aula7 the faq route most likely fails with a `TypeError` when invoked; `Routing.DispatchedRoute` on the faq route describes aula8, which writes `StrOutputParser()` (aula8/aula8.py:122).
- Queries.QueryTransactions: when several errors apply, the model reports the first of these: the ambiguous `type` column, found while Postgres analyses the `WHERE` conjuncts in order, then a date literal, then the negative limit.
- Queries.QueryIntended: in the corrected query, the errors come in the order date cast, negative limit, type sub-query with several rows. Postgres evaluates the sub-query lazily and might not raise on an empty table.
- Queries.QueryOrderAndLimit: the order among rows with equal `occurred_at` is left open by Postgres. The model keeps a stable sort, and the contract constrains only the timestamps.
- Updates.LatestHit: among matches at the same instant the model takes the first in the table. Postgres may return any one of them.
- Queries.TypeName: the join is modelled with unique type ids. Duplicate type rows would list a transaction several times.
- Inserts.LegacyAddAgrees: the contract excludes `category_id = 0`. There the current version resolves the falsy id to NULL when a timestamp is given, while the older version stores 0.
- Pydantic's argument coercions are not modelled, nor is `int(type_id)` on a non-integer. The arguments arrive typed.
- The Postgres connection failing (`get_conn`) is not modelled.
- The `updated` dictionary is the joined row as values. `str(occurred_at)` and `float(amount)` of the reply row are not modelled.
- LangGraph scheduling is the sequential run `Graph.RunFrom`. What LangGraph does with a reducer-less `dict` state is given as two semantics (`Merge`, `Replace`), and `Graph.SemanticsAgree` shows that they give the same reply.
- The `aula6/aula6.py` loop's commented-out chain call is not modelled. Only its `sanitize_input` and sentinel are.

## Findings

| source | as written | input that shows it | evidently intended | confidence | as-written member | corrected member |
|---|---|---|---|---|---|---|
| aula7/pg_tools.py:360 | the type filter compares the bare column `type`, which the join with `transaction_types tt` (lines 383-384) makes ambiguous between `t.type` and `tt.type`, so Postgres rejects every query that has the filter | any truthy `type_name`, for example `query_transactions(type_name="EXPENSES")` over a table holding an expense | `t.type = (SELECT id FROM transaction_types WHERE type ILIKE %s)`, listing the transactions of that type | not executed | Queries.QueryTransactions, Queries.TypeFilterRejected | Queries.QueryIntended, with Queries.QuerySound and Queries.QueryOrderAndLimit |
