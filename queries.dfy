/**
 * The read-only tools of `aula7/pg_tools.py`: `query_transactions`, a conjunction of the
 * filters whose argument is truthy, ordered by time and cut at `limit`; and the two
 * balances, `total_balance` and `daily_balance`, which sum incomes and expenses with
 * opposite sign conventions.
 */
module Queries {
  import opened Wrappers
  import opened Text
  import opened LedgerData

  // ---------------------------------------------------------------------------
  // The filters
  // ---------------------------------------------------------------------------

  datatype QueryArgs = QueryArgs(text: Option<string>, typeName: Option<string>, dateLocal: Option<string>,
                                 dateFrom: Option<string>, dateTo: Option<string>, limit: int)

  /** One entry of `filters`, with the text arguments it binds. */
  datatype Filter =
    | TextFilter(v: string)
    | TypeFilter(v: string)
    | DayFilter(v: string)
    | RangeFilter(from: string, to: string)

  /**
   * The `conditions` list: each filter, or `None` where its value is falsy. The range's
   * value is the pair of bounds only when both bounds are truthy.
   */
  function Conditions(q: QueryArgs): seq<Option<Filter>> {
    [ if TruthyStr(q.text) then Some(TextFilter(q.text.value)) else None,
      if TruthyStr(q.typeName) then Some(TypeFilter(q.typeName.value)) else None,
      if TruthyStr(q.dateLocal) then Some(DayFilter(q.dateLocal.value)) else None,
      if TruthyStr(q.dateFrom) && TruthyStr(q.dateTo) then Some(RangeFilter(q.dateFrom.value, q.dateTo.value))
      else None ]
  }

  /** The filters a loop over `cs` appends, in order. */
  function Present(cs: seq<Option<Filter>>): (fs: seq<Filter>)
    ensures forall f :: f in fs <==> Some(f) in cs
  {
    if cs == [] then []
    else
      var init := cs[..|cs| - 1];
      var last := cs[|cs| - 1];
      assert cs == init + [last];
      Present(init) + (if last.Some? then [last.value] else [])
  }

  /** The filters of a query. */
  function ActiveFilters(q: QueryArgs): seq<Filter> {
    Present(Conditions(q))
  }

  /** `ORDER BY occurred_at ASC` when either bound is truthy, `DESC` otherwise. */
  function Ascending(q: QueryArgs): bool {
    TruthyStr(q.dateFrom) || TruthyStr(q.dateTo)
  }

  /**
   * A filter is active exactly when its argument is truthy, and binds that argument; the
   * range needs both bounds, so one bound on its own filters nothing.
   */
  lemma ActiveFiltersMeaning(q: QueryArgs)
    ensures forall v :: TextFilter(v) in ActiveFilters(q) <==> TruthyStr(q.text) && v == q.text.value
    ensures forall v :: TypeFilter(v) in ActiveFilters(q) <==> TruthyStr(q.typeName) && v == q.typeName.value
    ensures forall v :: DayFilter(v) in ActiveFilters(q) <==> TruthyStr(q.dateLocal) && v == q.dateLocal.value
    ensures forall a, b :: RangeFilter(a, b) in ActiveFilters(q) <==>
                             TruthyStr(q.dateFrom) && TruthyStr(q.dateTo) && a == q.dateFrom.value && b == q.dateTo.value
  {
  }

  // ---------------------------------------------------------------------------
  // What a filter selects
  // ---------------------------------------------------------------------------

  /**
   * The ids of the rows of `transaction_types` whose name is `v` up to case: the rows of
   * the sub-query `SELECT id FROM transaction_types WHERE type ILIKE v`.
   */
  function TypeIdsNamed(types: seq<TransactionType>, key: string): (ids: seq<int>)
    ensures forall id :: id in ids <==> exists k :: 0 <= k < |types| && types[k].id == id && ToLower(types[k].name) == key
  {
    if types == [] then []
    else
      var init := types[..|types| - 1];
      var last := types[|types| - 1];
      assert types == init + [last];
      TypeIdsNamed(init, key) + (if ToLower(last.name) == key then [last.id] else [])
  }

  /** `(source_text ILIKE '%v%' OR description ILIKE '%v%')`; a NULL description never matches. */
  predicate TextMatch(tx: Transaction, v: string) {
    ContainsIgnoreCase(tx.sourceText, v) || (tx.description.Some? && ContainsIgnoreCase(tx.description.value, v))
  }

  /** Whether a row passes one filter. A type name no row has matches no transaction. */
  predicate Holds(db: Tables, env: Env, f: Filter, tx: Transaction) {
    match f
    case TextFilter(v) => TextMatch(tx, v)
    case TypeFilter(v) =>
      var ids := TypeIdsNamed(db.types, ToLower(v));
      |ids| == 1 && tx.typeId == ids[0]
    case DayFilter(v) => env.date(v).Some? && env.localDay(tx.occurredAt) == env.date(v).value
    case RangeFilter(a, b) =>
      env.date(a).Some? && env.date(b).Some? && env.date(a).value <= env.localDay(tx.occurredAt) <= env.date(b).value
  }

  /** The `WHERE` clause: every filter holds. */
  predicate Matches(db: Tables, env: Env, fs: seq<Filter>, tx: Transaction) {
    forall f :: f in fs ==> Holds(db, env, f, tx)
  }

  /** A row of the reply: the transaction, with its type's name in place of its type id. */
  datatype Listed = Listed(tx: Transaction, typeName: string)

  /** The name of the type with id `id` (`JOIN transaction_types tt ON t.type = tt.id`). */
  function TypeName(types: seq<TransactionType>, id: int): (r: Option<string>)
    ensures r.Some? <==> exists k :: 0 <= k < |types| && types[k].id == id
    ensures r.Some? ==> exists k :: 0 <= k < |types| && types[k].id == id && types[k].name == r.value
  {
    if types == [] then None
    else if types[0].id == id then Some(types[0].name)
    else TypeName(types[1..], id)
  }

  /** The joined rows that pass the filters, in table order. */
  function Selected(db: Tables, env: Env, fs: seq<Filter>, rows: seq<Transaction>): (r: seq<Listed>)
    ensures forall x :: x in r ==> x.tx in rows && Matches(db, env, fs, x.tx) && TypeName(db.types, x.tx.typeId) == Some(x.typeName)
    ensures forall i :: 0 <= i < |rows| && Matches(db, env, fs, rows[i]) && TypeName(db.types, rows[i].typeId).Some? ==>
                          Listed(rows[i], TypeName(db.types, rows[i].typeId).value) in r
  {
    if rows == [] then []
    else
      var init := rows[..|rows| - 1];
      var last := rows[|rows| - 1];
      assert rows == init + [last];
      var name := TypeName(db.types, last.typeId);
      Selected(db, env, fs, init) + (if Matches(db, env, fs, last) && name.Some? then [Listed(last, name.value)] else [])
  }

  // ---------------------------------------------------------------------------
  // Ordering and the limit
  // ---------------------------------------------------------------------------

  /** The sort key: the instant for `ASC`, its negation for `DESC`. */
  function Key(x: Listed, asc: bool): int {
    if asc then x.tx.occurredAt else -x.tx.occurredAt
  }

  /** `a` may be listed before `b`. */
  predicate Before(a: Listed, b: Listed, asc: bool) {
    Key(a, asc) <= Key(b, asc)
  }

  predicate SortedBy(xs: seq<Listed>, asc: bool) {
    forall i, j :: 0 <= i < j < |xs| ==> Before(xs[i], xs[j], asc)
  }

  /** `x` placed into a sorted sequence before the first element it may precede. */
  function Insert(x: Listed, xs: seq<Listed>, asc: bool): (r: seq<Listed>)
    ensures |r| == |xs| + 1 && (r[0] == x || (xs != [] && r[0] == xs[0]))
  {
    if xs == [] then [x]
    else if Before(x, xs[0], asc) then [x] + xs
    else [xs[0]] + Insert(x, xs[1..], asc)
  }

  lemma {:induction false} InsertSorted(x: Listed, xs: seq<Listed>, asc: bool)
    requires SortedBy(xs, asc)
    ensures SortedBy(Insert(x, xs, asc), asc)
  {
    if xs != [] && !Before(x, xs[0], asc) {
      var rest := Insert(x, xs[1..], asc);
      InsertSorted(x, xs[1..], asc);
      assert Before(xs[0], rest[0], asc);
      var r := [xs[0]] + rest;
      forall i, j | 0 <= i < j < |r| ensures Before(r[i], r[j], asc) {
        if i == 0 {
          assert Before(rest[0], rest[j - 1], asc);
        } else {
          assert r[i] == rest[i - 1] && r[j] == rest[j - 1];
        }
      }
    }
  }

  lemma {:induction false} InsertPermutes(x: Listed, xs: seq<Listed>, asc: bool)
    ensures multiset(Insert(x, xs, asc)) == multiset(xs) + multiset{x}
  {
    if xs != [] && !Before(x, xs[0], asc) {
      InsertPermutes(x, xs[1..], asc);
      assert xs == [xs[0]] + xs[1..];
    }
  }

  /** `ORDER BY occurred_at`, in the given direction; rows at the same instant keep table order. */
  function Sort(xs: seq<Listed>, asc: bool): (r: seq<Listed>)
    ensures SortedBy(r, asc) && multiset(r) == multiset(xs)
  {
    if xs == [] then []
    else
      var rest := Sort(xs[1..], asc);
      InsertSorted(xs[0], rest, asc);
      InsertPermutes(xs[0], rest, asc);
      assert xs == [xs[0]] + xs[1..];
      Insert(xs[0], rest, asc)
  }

  /** `LIMIT n` with `n >= 0`. */
  function Take(xs: seq<Listed>, n: nat): seq<Listed> {
    if n < |xs| then xs[..n] else xs
  }

  // ---------------------------------------------------------------------------
  // query_transactions
  // ---------------------------------------------------------------------------

  /** A date argument of a filter that `::date` cannot read. */
  predicate BadDateIn(env: Env, fs: seq<Filter>) {
    exists f :: f in fs && match f
      case DayFilter(v) => env.date(v).None?
      case RangeFilter(a, b) => env.date(a).None? || env.date(b).None?
      case _ => false
  }

  /** A type filter whose sub-query returns more than one row. */
  predicate AmbiguousType(db: Tables, fs: seq<Filter>) {
    exists f :: f in fs && f.TypeFilter? && |TypeIdsNamed(db.types, ToLower(f.v))| > 1
  }

  /** A type filter is among the filters. */
  predicate TypeFilterIn(fs: seq<Filter>) {
    exists f :: f in fs && f.TypeFilter?
  }

  /**
   * `query_transactions` as written. Its type filter compares the bare column `type`,
   * which the join makes both `t.type` and `tt.type`, so Postgres refuses the statement
   * as ambiguous while analysing its `WHERE` clause, conjunct by conjunct and before the
   * date literals of the later filters; every query given a truthy `type_name` fails.
   * The other queries are those of `QueryIntended`.
   */
  function QueryTransactions(db: Tables, env: Env, q: QueryArgs): (r: Outcome<seq<Listed>>)
    ensures r.Err? <==> TruthyStr(q.typeName) || BadDateIn(env, ActiveFilters(q)) || q.limit < 0
    ensures TruthyStr(q.typeName) ==> r == Err(Db(AmbiguousColumn))
    ensures !TruthyStr(q.typeName) ==> r == QueryIntended(db, env, q)
    ensures r.Ok? ==> |r.value| <= q.limit
  {
    ActiveFiltersMeaning(q);
    if TypeFilterIn(ActiveFilters(q)) then Err(Db(AmbiguousColumn))
    else QueryIntended(db, env, q)
  }

  /**
   * The query the type filter evidently means, `t.type = (SELECT id ...)`: the joined rows
   * matching every active filter, sorted, at most `limit` of them; or the database's
   * error, in the order Postgres meets them (the date casts when planning, the negative
   * limit when starting, the sub-query when filtering).
   */
  function QueryIntended(db: Tables, env: Env, q: QueryArgs): (r: Outcome<seq<Listed>>)
    ensures r.Err? <==> BadDateIn(env, ActiveFilters(q)) || q.limit < 0 || AmbiguousType(db, ActiveFilters(q))
    ensures r.Ok? ==> |r.value| <= q.limit
  {
    var fs := ActiveFilters(q);
    if BadDateIn(env, fs) then Err(Db(BadDate))
    else if q.limit < 0 then Err(Db(NegativeLimit))
    else if AmbiguousType(db, fs) then Err(Db(SubqueryRows))
    else Ok(Take(Sort(Selected(db, env, fs, db.transactions), Ascending(q)), q.limit))
  }

  /** A stored expense, its database, a database that reads no literal, and a query by type name. */
  function ExampleExpense(): Transaction {
    Transaction(1, 50, EXPENSES, None, None, None, 0, "mercado")
  }

  function ExampleDb(): Tables {
    Tables([TransactionType(EXPENSES, "EXPENSES")], [], [ExampleExpense()], [], [], 2, 1, 1)
  }

  function ExampleEnv(): Env {
    Env(0, (s: string) => None, (s: string) => None, (t: Stamp) => 0)
  }

  function ExampleQuery(): QueryArgs {
    QueryArgs(None, Some("EXPENSES"), None, None, None, 20)
  }

  /** The example query has the type filter alone. */
  lemma ExampleFilters()
    ensures ActiveFilters(ExampleQuery()) == [TypeFilter("EXPENSES")]
  {
    var f := TypeFilter("EXPENSES");
    var cs := Conditions(ExampleQuery());
    assert cs == [None, Some(f), None, None];
    assert Present(cs[..1]) == [] by { assert cs[..1][..0] == []; }
    assert Present(cs[..2]) == [f] by { assert cs[..2][..1] == cs[..1]; }
    assert Present(cs[..3]) == [f] by { assert cs[..3][..2] == cs[..2]; }
    assert cs[..4][..3] == cs[..3];
    assert cs == cs[..4];
  }

  /** The example's type name names one type. */
  lemma ExampleTypeIds()
    ensures TypeIdsNamed(ExampleDb().types, ToLower("EXPENSES")) == [EXPENSES]
  {
    assert ExampleDb().types[..0] == [];
  }

  /** The example expense passes the type filter. */
  lemma ExampleSelected()
    ensures Selected(ExampleDb(), ExampleEnv(), [TypeFilter("EXPENSES")], ExampleDb().transactions)
            == [Listed(ExampleExpense(), "EXPENSES")]
  {
    var db, x, f := ExampleDb(), ExampleExpense(), TypeFilter("EXPENSES");
    ExampleTypeIds();
    assert Matches(db, ExampleEnv(), [f], x) by {
      assert Holds(db, ExampleEnv(), f, x);
    }
    assert TypeName(db.types, x.typeId) == Some("EXPENSES");
    assert db.transactions == [x] && [x][..0] == [];
  }

  /** The intended query lists the example expense. */
  lemma ExampleIntended()
    ensures QueryIntended(ExampleDb(), ExampleEnv(), ExampleQuery()) == Ok([Listed(ExampleExpense(), "EXPENSES")])
  {
    ExampleFilters();
    ExampleSelected();
    ExampleNoFault();
    var x := Listed(ExampleExpense(), "EXPENSES");
    assert Sort([x], false) == [x];
  }

  /** The example query reads no date and names one type. */
  lemma ExampleNoFault()
    ensures var fs := [TypeFilter("EXPENSES")];
            !BadDateIn(ExampleEnv(), fs) && !AmbiguousType(ExampleDb(), fs)
  {
    var fs := [TypeFilter("EXPENSES")];
    ExampleTypeIds();
    assert forall g :: g in fs ==> g == TypeFilter("EXPENSES");
  }

  /**
   * One database and one query that show the difference: a stored expense asked for by
   * its type's name. The query as written fails; the intended one lists the expense.
   */
  lemma TypeFilterRejected()
    ensures QueryTransactions(ExampleDb(), ExampleEnv(), ExampleQuery()) == Err(Db(AmbiguousColumn))
    ensures QueryIntended(ExampleDb(), ExampleEnv(), ExampleQuery()) == Ok([Listed(ExampleExpense(), "EXPENSES")])
  {
    ExampleFilters();
    ExampleIntended();
  }

  /**
   * A successful reply lists only stored transactions that pass every active filter and
   * have a type; every such transaction is listed unless the limit cut it.
   */
  lemma {:induction false} QuerySound(db: Tables, env: Env, q: QueryArgs)
    requires !BadDateIn(env, ActiveFilters(q)) && q.limit >= 0 && !AmbiguousType(db, ActiveFilters(q))
    ensures var xs := QueryIntended(db, env, q).value;
            forall x :: x in xs ==> x.tx in db.transactions && Matches(db, env, ActiveFilters(q), x.tx)
                                    && TypeName(db.types, x.tx.typeId) == Some(x.typeName)
  {
    var fs := ActiveFilters(q);
    var all := Selected(db, env, fs, db.transactions);
    var sorted := Sort(all, Ascending(q));
    var xs := QueryIntended(db, env, q).value;
    forall x | x in xs ensures x in all {
      assert x in sorted;
      assert x in multiset(sorted);
    }
  }

  /**
   * The reply holds `min(limit, matches)` rows, sorted in the query's direction; it is a
   * prefix of a sorted arrangement of all the matches, so every match left out comes no
   * earlier in that order than every row listed.
   */
  lemma {:induction false} QueryOrderAndLimit(db: Tables, env: Env, q: QueryArgs)
    requires !BadDateIn(env, ActiveFilters(q)) && q.limit >= 0 && !AmbiguousType(db, ActiveFilters(q))
    ensures var all := Selected(db, env, ActiveFilters(q), db.transactions);
            var xs := QueryIntended(db, env, q).value;
            && |xs| == (if q.limit < |all| then q.limit else |all|)
            && SortedBy(xs, Ascending(q))
            && exists rest :: multiset(xs + rest) == multiset(all) && AllBefore(xs, rest, Ascending(q))
  {
    var all := Selected(db, env, ActiveFilters(q), db.transactions);
    var sorted := Sort(all, Ascending(q));
    assert QueryIntended(db, env, q).value == Take(sorted, q.limit);
    assert |sorted| == |multiset(sorted)| == |all|;
    TakeOfSorted(sorted, q.limit, Ascending(q));
  }

  /** Every element of `xs` may be listed before every element of `ys`. */
  predicate AllBefore(xs: seq<Listed>, ys: seq<Listed>, asc: bool) {
    forall i, j :: 0 <= i < |xs| && 0 <= j < |ys| ==> Before(xs[i], ys[j], asc)
  }

  /** A prefix of a sorted sequence is sorted and precedes the rest. */
  lemma TakeOfSorted(sorted: seq<Listed>, n: nat, asc: bool)
    requires SortedBy(sorted, asc)
    ensures var xs := Take(sorted, n);
            && xs + sorted[|xs|..] == sorted && SortedBy(xs, asc) && AllBefore(xs, sorted[|xs|..], asc)
  {
    var xs := Take(sorted, n);
    var rest := sorted[|xs|..];
    assert xs + rest == sorted;
    forall i, j | 0 <= i < |xs| && 0 <= j < |rest| ensures Before(xs[i], rest[j], asc) {
      assert xs[i] == sorted[i] && rest[j] == sorted[|xs| + j];
    }
  }

  // ---------------------------------------------------------------------------
  // Balances
  // ---------------------------------------------------------------------------

  const INCOME: int := 1
  const EXPENSES: int := 2
  const TRANSFER: int := 3

  /** `SUM(CASE WHEN type = t THEN amount ELSE 0 END)`, 0 for no rows. */
  function SumOfType(rows: seq<Transaction>, t: int): int {
    if rows == [] then 0
    else SumOfType(rows[..|rows| - 1], t) + (if rows[|rows| - 1].typeId == t then rows[|rows| - 1].amount else 0)
  }

  /** The rows a predicate on transactions keeps, in order. */
  function Where(rows: seq<Transaction>, keep: Transaction -> bool): (r: seq<Transaction>)
    ensures forall x :: x in r <==> x in rows && keep(x)
  {
    if rows == [] then []
    else
      var init := rows[..|rows| - 1];
      assert rows == init + [rows[|rows| - 1]];
      Where(init, keep) + (if keep(rows[|rows| - 1]) then [rows[|rows| - 1]] else [])
  }

  datatype Totals = Totals(income: int, expenses: int, balance: int)

  /**
   * `total_balance`: sums over the rows whose type is not 3; balance is expenses minus
   * income. Dropping the transfers changes neither sum, so they are the sums of types 1
   * and 2 over the whole table.
   */
  function TotalBalance(db: Tables): (t: Totals)
    ensures t.income == SumOfType(db.transactions, INCOME)
    ensures t.expenses == SumOfType(db.transactions, EXPENSES)
    ensures t.balance == t.expenses - t.income
  {
    var keep := (tx: Transaction) => tx.typeId != TRANSFER;
    TransfersIgnored(db.transactions, keep, INCOME);
    TransfersIgnored(db.transactions, keep, EXPENSES);
    var rows := Where(db.transactions, keep);
    var income := SumOfType(rows, INCOME);
    var expenses := SumOfType(rows, EXPENSES);
    Totals(income, expenses, expenses - income)
  }

  /** The rows of one local day, transfers included. */
  function OnDay(db: Tables, env: Env, d: Date): seq<Transaction> {
    Where(db.transactions, (tx: Transaction) => env.localDay(tx.occurredAt) == d)
  }

  /**
   * `daily_balance(date_local)`: sums over the rows of that local day whose type is not 3;
   * balance is income minus expenses. A date Postgres cannot read is an error; otherwise
   * the sums are those of types 1 and 2 over every row of the day.
   */
  function DailyBalance(db: Tables, env: Env, dateLocal: string): (r: Outcome<Totals>)
    ensures r.Err? <==> env.date(dateLocal).None?
    ensures r.Err? ==> r.error == Db(BadDate)
    ensures r.Ok? ==> r.value.income == SumOfType(OnDay(db, env, env.date(dateLocal).value), INCOME)
    ensures r.Ok? ==> r.value.expenses == SumOfType(OnDay(db, env, env.date(dateLocal).value), EXPENSES)
    ensures r.Ok? ==> r.value.balance == r.value.income - r.value.expenses
  {
    match env.date(dateLocal)
    case None => Err(Db(BadDate))
    case Some(d) =>
      var keep := (tx: Transaction) => env.localDay(tx.occurredAt) == d && tx.typeId != TRANSFER;
      var day := (tx: Transaction) => env.localDay(tx.occurredAt) == d;
      SumsAgree(db.transactions, keep, day, INCOME);
      SumsAgree(db.transactions, keep, day, EXPENSES);
      var rows := Where(db.transactions, keep);
      var income := SumOfType(rows, INCOME);
      var expenses := SumOfType(rows, EXPENSES);
      Ok(Totals(income, expenses, income - expenses))
  }

  /** Two predicates that agree on the rows of type `t` keep rows with the same sum of type `t`. */
  lemma {:induction false} SumsAgree(rows: seq<Transaction>, p: Transaction -> bool, q: Transaction -> bool, t: int)
    requires forall x: Transaction :: x.typeId == t ==> p(x) == q(x)
    ensures SumOfType(Where(rows, p), t) == SumOfType(Where(rows, q), t)
  {
    if rows != [] {
      var init := rows[..|rows| - 1];
      var last := rows[|rows| - 1];
      SumsAgree(init, p, q, t);
      assert rows == init + [last];
      SumsAgreeSnoc(init, last, p, q, t);
    }
  }

  /** The step of `SumsAgree`: one more row keeps the two sums equal. */
  lemma SumsAgreeSnoc(init: seq<Transaction>, last: Transaction, p: Transaction -> bool, q: Transaction -> bool, t: int)
    requires forall x: Transaction :: x.typeId == t ==> p(x) == q(x)
    requires SumOfType(Where(init, p), t) == SumOfType(Where(init, q), t)
    ensures SumOfType(Where(init + [last], p), t) == SumOfType(Where(init + [last], q), t)
  {
    WhereSnoc(init, last, p);
    WhereSnoc(init, last, q);
    if p(last) {
      SumOfTypeSnoc(Where(init, p), last, t);
    }
    if q(last) {
      SumOfTypeSnoc(Where(init, q), last, t);
    }
  }

  /** Sums split over concatenation. */
  lemma {:induction false} SumOfTypeAppend(a: seq<Transaction>, b: seq<Transaction>, t: int)
    ensures SumOfType(a + b, t) == SumOfType(a, t) + SumOfType(b, t)
    decreases |b|
  {
    if b == [] {
      assert a + b == a;
    } else {
      var b' := b[..|b| - 1];
      var last := b[|b| - 1];
      var term := if last.typeId == t then last.amount else 0;
      assert (a + b)[..|a + b| - 1] == a + b';
      assert (a + b)[|a + b| - 1] == last;
      assert SumOfType(a + b, t) == SumOfType(a + b', t) + term;
      SumOfTypeAppend(a, b', t);
    }
  }

  /** Dropping transfers changes no income or expense sum: `type != 3` only documents intent. */
  lemma {:induction false} TransfersIgnored(rows: seq<Transaction>, keep: Transaction -> bool, t: int)
    requires t != TRANSFER
    requires forall x: Transaction :: x.typeId == t ==> keep(x)
    ensures SumOfType(Where(rows, keep), t) == SumOfType(rows, t)
  {
    if rows != [] {
      var init := rows[..|rows| - 1];
      var last := rows[|rows| - 1];
      TransfersIgnored(init, keep, t);
      assert rows == init + [last];
      WhereSnoc(init, last, keep);
      SumOfTypeSnoc(init, last, t);
      if keep(last) {
        SumOfTypeSnoc(Where(init, keep), last, t);
      } else {
        assert last.typeId != t;
      }
    }
  }

  /** `Where` on one more row keeps or drops that row at the end. */
  lemma WhereSnoc(init: seq<Transaction>, last: Transaction, keep: Transaction -> bool)
    ensures keep(last) ==> Where(init + [last], keep) == Where(init, keep) + [last]
    ensures !keep(last) ==> Where(init + [last], keep) == Where(init, keep)
  {
    assert (init + [last])[..|init|] == init;
    assert Where(init, keep) + [] == Where(init, keep);
  }

  /** One more row adds its amount to the sum of its own type only. */
  lemma SumOfTypeSnoc(init: seq<Transaction>, last: Transaction, t: int)
    ensures SumOfType(init + [last], t) == SumOfType(init, t) + (if last.typeId == t then last.amount else 0)
  {
    assert (init + [last])[..|init|] == init;
  }

  /** Rows a predicate keeps all of are all kept. */
  lemma {:induction false} WhereAll(rows: seq<Transaction>, keep: Transaction -> bool)
    requires forall i :: 0 <= i < |rows| ==> keep(rows[i])
    ensures Where(rows, keep) == rows
  {
    if rows != [] {
      var init := rows[..|rows| - 1];
      assert rows == init + [rows[|rows| - 1]];
      WhereAll(init, keep);
    }
  }

  /**
   * The two conventions are opposite: when every row falls on the day asked for, the day's
   * balance is the negated total balance, over the same two sums.
   */
  lemma OppositeSigns(db: Tables, env: Env, dateLocal: string)
    requires env.date(dateLocal).Some?
    requires forall i :: 0 <= i < |db.transactions| ==> env.localDay(db.transactions[i].occurredAt) == env.date(dateLocal).value
    ensures DailyBalance(db, env, dateLocal).Ok?
    ensures var day := DailyBalance(db, env, dateLocal).value;
            var total := TotalBalance(db);
            day.income == total.income && day.expenses == total.expenses && day.balance == -total.balance
  {
    var d := env.date(dateLocal).value;
    var onDay := (tx: Transaction) => env.localDay(tx.occurredAt) == d && tx.typeId != TRANSFER;
    var notTransfer := (tx: Transaction) => tx.typeId != TRANSFER;
    assert forall i :: 0 <= i < |db.transactions| ==> onDay(db.transactions[i]) == notTransfer(db.transactions[i]);
    assert Where(db.transactions, onDay) == Where(db.transactions, notTransfer) by {
      WhereSame(db.transactions, onDay, notTransfer);
    }
  }

  /** Two predicates that agree on every row keep the same rows. */
  lemma {:induction false} WhereSame(rows: seq<Transaction>, p: Transaction -> bool, q: Transaction -> bool)
    requires forall i :: 0 <= i < |rows| ==> p(rows[i]) == q(rows[i])
    ensures Where(rows, p) == Where(rows, q)
  {
    if rows != [] {
      var init := rows[..|rows| - 1];
      WhereSame(init, p, q);
    }
  }

  /** A committed transaction moves the total balance by its amount, in the direction of its type. */
  lemma TotalAfterInsert(db: Tables, tx: Transaction)
    ensures var before := TotalBalance(db);
            var after := TotalBalance(db.(transactions := db.transactions + [tx]));
            && after.income == before.income + (if tx.typeId == INCOME then tx.amount else 0)
            && after.expenses == before.expenses + (if tx.typeId == EXPENSES then tx.amount else 0)
  {
    var db' := db.(transactions := db.transactions + [tx]);
    SumOfTypeAppend(db.transactions, [tx], INCOME);
    SumOfTypeAppend(db.transactions, [tx], EXPENSES);
  }
}
