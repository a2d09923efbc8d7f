/**
 * The tool layer as the agent calls it: one object holding the five tables, whose
 * methods are the tools of `aula7/pg_tools.py` and `pg_tools.py`. A method either
 * commits (the tables change as the tool's specification says) or replies with an
 * error and leaves every table as it was.
 */
module Ledger {
  import opened Wrappers
  import opened LedgerData
  import Resolve
  import Inserts
  import Queries
  import Updates

  /** The tools the agent of `aula7/aula7.py` is given; `update_transaction` is not among them. */
  const TOOLS: seq<string> :=
    ["add_transaction", "add_workout", "add_meal", "query_transactions", "total_balance", "daily_balance"]

  /** The tools of `pg_tools.py`. */
  const TOOLS_LEGACY: seq<string> := ["add_transaction", "add_workout", "add_meal"]

  /** Every legacy tool is still offered, and the agent cannot call `update_transaction`. */
  lemma ToolLists()
    ensures forall t :: t in TOOLS_LEGACY ==> t in TOOLS
    ensures "update_transaction" !in TOOLS && |TOOLS| == 6
  {
  }

  /**
   * The `sets` list of `update_transaction`, one `append` per field that is not `None`
   * after resolution.
   */
  method BuildSets(u: Updates.UpdateArgs, rt: Option<int>, rc: PyValue) returns (sets: seq<Updates.SetClause>)
    ensures sets == Updates.PlannedSets(u, rt, rc)
  {
    sets := [];
    if u.amount.Some? {
      sets := sets + [Updates.SetAmount(u.amount.value)];
    }
    assert sets == Updates.Opt(Updates.AmountClause(u));
    if rt.Some? {
      sets := sets + [Updates.SetType(rt.value)];
    }
    assert sets == Updates.Opt(Updates.AmountClause(u)) + Updates.Opt(Updates.TypeClause(rt));
    ghost var prefix := sets;
    if rc != PyNone {
      sets := sets + [Updates.SetCategory(rc)];
    }
    assert sets == prefix + Updates.Opt(Updates.CategoryClause(rc));
    prefix := sets;
    if u.description.Some? {
      sets := sets + [Updates.SetDescription(u.description.value)];
    }
    assert sets == prefix + Updates.Opt(Updates.DescriptionClause(u));
    prefix := sets;
    if u.paymentMethod.Some? {
      sets := sets + [Updates.SetPayment(u.paymentMethod.value)];
    }
    assert sets == prefix + Updates.Opt(Updates.PaymentClause(u));
    prefix := sets;
    if u.occurredAt.Some? {
      sets := sets + [Updates.SetStamp(u.occurredAt.value)];
    }
    assert sets == prefix + Updates.Opt(Updates.StampClause(u));
    Updates.AppendedSets(u, rt, rc, sets);
  }

  class Store {
    var types: seq<TransactionType>
    var categories: seq<Category>
    var transactions: seq<Transaction>
    var workouts: seq<Workout>
    var meals: seq<Meal>
    var nextTransaction: int
    var nextWorkout: int
    var nextMeal: int

    /** The tables as a value. */
    function Snapshot(): Tables
      reads this
    {
      Tables(types, categories, transactions, workouts, meals, nextTransaction, nextWorkout, nextMeal)
    }

    constructor(db: Tables)
      ensures Snapshot() == db
    {
      types := db.types;
      categories := db.categories;
      transactions := db.transactions;
      workouts := db.workouts;
      meals := db.meals;
      nextTransaction := db.nextTransaction;
      nextWorkout := db.nextWorkout;
      nextMeal := db.nextMeal;
    }

    /** The `INSERT ... RETURNING` step shared by both `add_transaction`s. */
    method InsertTransaction(amount: int, typeId: int, categoryId: Option<int>, description: Option<string>,
                             paymentMethod: Option<string>, at: Stamp, sourceText: string)
      returns (out: Outcome<Inserts.Inserted>)
      modifies this
      ensures Step(Snapshot(), out)
              == Inserts.InsertTransaction(old(Snapshot()), amount, typeId, categoryId, description, paymentMethod, at, sourceText)
    {
      var row := Transaction(nextTransaction, amount, typeId, categoryId, description, paymentMethod, at, sourceText);
      if !RowOk(Snapshot(), row) {
        return Err(Db(ForeignKey));
      }
      transactions := transactions + [row];
      nextTransaction := nextTransaction + 1;
      out := Ok(Inserts.Inserted(row.id, at));
    }

    /** `add_transaction` of `aula7/pg_tools.py`. */
    method AddTransaction(env: Env, a: Inserts.TransactionArgs) returns (out: Outcome<Inserts.Inserted>)
      modifies this
      ensures Step(Snapshot(), out) == Inserts.AddTransaction(old(Snapshot()), env, a)
      ensures old(Valid(Snapshot())) ==> Valid(Snapshot())
    {
      ghost var db := Snapshot();
      if Valid(db) {
        Inserts.AddTransactionValid(db, env, a);
      }
      var resolvedType := Resolve.ResolveTypeId(types, a.typeId, a.typeName, false);
      if !TruthyInt(resolvedType) {
        return Err(InvalidType);
      }
      var resolvedCategory := Resolve.ResolveCategoryId(categories, ValueOf(a.categoryId), a.categoryName);
      if TruthyStr(a.occurredAt) {
        var at := env.stamp(a.occurredAt.value);
        if at.None? {
          return Err(Db(BadTimestamp));
        }
        out := InsertTransaction(a.amount, resolvedType.value, Inserts.IntOf(resolvedCategory), a.description,
                                 a.paymentMethod, at.value, a.sourceText);
      } else {
        out := InsertTransaction(a.amount, resolvedType.value, a.categoryId, a.description, a.paymentMethod,
                                 env.now, a.sourceText);
      }
    }

    /** `add_transaction` of `pg_tools.py`. */
    method AddTransactionLegacy(env: Env, a: Inserts.TransactionArgs) returns (out: Outcome<Inserts.Inserted>)
      modifies this
      ensures Step(Snapshot(), out) == Inserts.AddTransactionLegacy(old(Snapshot()), env, a)
      ensures old(Valid(Snapshot())) ==> Valid(Snapshot())
    {
      ghost var db := Snapshot();
      if Valid(db) {
        Inserts.AddTransactionValid(db, env, a);
      }
      var resolvedType := Resolve.ResolveTypeId(types, a.typeId, a.typeName, true);
      if !TruthyInt(resolvedType) {
        return Err(InvalidType);
      }
      var at := Inserts.StampOf(env, a.occurredAt);
      if at.None? {
        return Err(Db(BadTimestamp));
      }
      out := InsertTransaction(a.amount, resolvedType.value, a.categoryId, a.description, a.paymentMethod,
                               at.value, a.sourceText);
    }

    /** `add_workout`, the same in both files. */
    method AddWorkout(env: Env, a: Inserts.WorkoutArgs) returns (out: Outcome<Inserts.Inserted>)
      modifies this
      ensures Step(Snapshot(), out) == Inserts.AddWorkout(old(Snapshot()), env, a)
      ensures old(Valid(Snapshot())) ==> Valid(Snapshot())
    {
      if Valid(Snapshot()) {
        Inserts.AddWorkoutValid(Snapshot(), env, a);
      }
      var at := Inserts.StampOf(env, a.scheduledAt);
      if at.None? {
        return Err(Db(BadTimestamp));
      }
      var row := Workout(nextWorkout, a.title, a.notes, at.value, a.durationMin, a.title);
      workouts := workouts + [row];
      nextWorkout := nextWorkout + 1;
      out := Ok(Inserts.Inserted(row.id, at.value));
    }

    /** `add_meal`, the same in both files. */
    method AddMeal(env: Env, a: Inserts.MealArgs) returns (out: Outcome<Inserts.Inserted>)
      modifies this
      ensures Step(Snapshot(), out) == Inserts.AddMeal(old(Snapshot()), env, a)
      ensures old(Valid(Snapshot())) ==> Valid(Snapshot())
    {
      if Valid(Snapshot()) {
        Inserts.AddMealValid(Snapshot(), env, a);
      }
      var at := Inserts.StampOf(env, a.occurredAt);
      if at.None? {
        return Err(Db(BadTimestamp));
      }
      var row := Meal(nextMeal, a.title, at.value, a.notes, a.title);
      meals := meals + [row];
      nextMeal := nextMeal + 1;
      out := Ok(Inserts.Inserted(row.id, at.value));
    }

    /**
     * `query_transactions`: the loop over `conditions` collects the filters whose value
     * is truthy; the query itself then runs over the tables, which it does not change,
     * and fails whenever the type filter is among them.
     */
    method QueryTransactions(env: Env, q: Queries.QueryArgs) returns (r: Outcome<seq<Queries.Listed>>)
      ensures r == Queries.QueryTransactions(Snapshot(), env, q)
    {
      var conditions := Queries.Conditions(q);
      var filters: seq<Queries.Filter> := [];
      var i := 0;
      while i < |conditions|
        invariant 0 <= i <= |conditions|
        invariant filters == Queries.Present(conditions[..i])
      {
        assert conditions[..i + 1][..i] == conditions[..i];
        if conditions[i].Some? {
          filters := filters + [conditions[i].value];
        }
        i := i + 1;
      }
      assert conditions[..i] == conditions;
      var ascending := TruthyStr(q.dateFrom) || TruthyStr(q.dateTo);
      if Queries.TypeFilterIn(filters) {
        return Err(Db(AmbiguousColumn));
      }
      if Queries.BadDateIn(env, filters) {
        return Err(Db(BadDate));
      }
      if q.limit < 0 {
        return Err(Db(NegativeLimit));
      }
      if Queries.AmbiguousType(Snapshot(), filters) {
        return Err(Db(SubqueryRows));
      }
      var rows := Queries.Selected(Snapshot(), env, filters, transactions);
      r := Ok(Queries.Take(Queries.Sort(rows, ascending), q.limit));
    }

    /** `total_balance`; it changes nothing. */
    method TotalBalance() returns (t: Queries.Totals)
      ensures t == Queries.TotalBalance(Snapshot())
      ensures t.balance == t.expenses - t.income
      ensures t.income == Queries.SumOfType(transactions, Queries.INCOME)
    {
      t := Queries.TotalBalance(Snapshot());
    }

    /** `daily_balance`; it changes nothing. */
    method DailyBalance(env: Env, dateLocal: string) returns (r: Outcome<Queries.Totals>)
      ensures r == Queries.DailyBalance(Snapshot(), env, dateLocal)
      ensures r.Ok? ==> r.value.balance == r.value.income - r.value.expenses
    {
      r := Queries.DailyBalance(Snapshot(), env, dateLocal);
    }

    /**
     * `update_transaction`: the checks, the resolution, the `sets` list built one
     * `append` at a time, then the `UPDATE`, committed only when it raises nothing.
     */
    method UpdateTransaction(env: Env, u: Updates.UpdateArgs) returns (out: Outcome<Updates.Updated>)
      modifies this
      ensures Step(Snapshot(), out) == Updates.UpdateTransaction(old(Snapshot()), env, u)
      ensures old(Valid(Snapshot())) ==> Valid(Snapshot())
    {
      var db := Snapshot();
      if Valid(db) {
        Updates.UpdateValid(db, env, u);
      }
      if !Updates.AnyChange(u) {
        return Err(NothingToUpdate);
      }
      var target := Updates.Target(db, env, u);
      if target.Err? {
        return Err(target.error);
      }
      var resolvedType := Updates.ResolvedType(types, u);
      var resolvedCategory := Updates.ResolvedCategory(categories, u);
      var sets := BuildSets(u, resolvedType, resolvedCategory);
      if sets == [] {
        return Err(NoValidField);
      }
      var changes := Updates.BindAll(env, sets);
      if changes.Err? {
        return Err(changes.error);
      }
      var rows := Updates.UpdateRows(transactions, target.value, changes.value);
      if !Updates.UpdateKeysOk(db, rows, target.value) {
        return Err(Db(ForeignKey));
      }
      var affected := Updates.CountId(transactions, target.value);
      transactions := rows;
      out := Ok(Updates.Updated(affected, target.value, Updates.DetailOf(Snapshot(), target.value)));
    }
  }
}
