/**
 * The insert tools: `add_transaction` of `aula7/pg_tools.py` and of `pg_tools.py`, and
 * `add_workout` and `add_meal`, which both files define the same way. Each either
 * commits one new row and replies with its id and timestamp, or rolls back and leaves
 * every table as it was.
 */
module Inserts {
  import opened Wrappers
  import opened LedgerData
  import opened Resolve

  /** The `ok` reply of an insert: the new row's id and its stored timestamp. */
  datatype Inserted = Inserted(id: int, at: Stamp)

  /** The arguments of `add_transaction`; `categoryName` exists only in `aula7/pg_tools.py`. */
  datatype TransactionArgs = TransactionArgs(
    amount: int, sourceText: string, occurredAt: Option<string>, typeId: Option<int>,
    typeName: Option<string>, categoryId: Option<int>, categoryName: Option<string>,
    description: Option<string>, paymentMethod: Option<string>)

  datatype WorkoutArgs = WorkoutArgs(title: string, notes: Option<string>, scheduledAt: Option<string>,
                                     durationMin: Option<int>)

  datatype MealArgs = MealArgs(title: string, occurredAt: Option<string>, notes: Option<string>)

  /** The timestamp an insert stores: `%s::timestamptz` of a truthy text, else `NOW()`. */
  function StampOf(env: Env, text: Option<string>): (r: Option<Stamp>)
    ensures !TruthyStr(text) ==> r == Some(env.now)
  {
    if TruthyStr(text) then env.stamp(text.value) else Some(env.now)
  }

  /** The `category_id` column of a resolved category: an id, or NULL. */
  function IntOf(v: PyValue): Option<int> {
    if v.PyInt? then Some(v.i) else None
  }

  /** `db` with `row` appended to `transactions`, under the next id of the sequence. */
  predicate AppendedTransaction(db: Tables, db': Tables, row: Transaction) {
    row.id == db.nextTransaction
    && db' == db.(transactions := db.transactions + [row], nextTransaction := db.nextTransaction + 1)
  }

  /**
   * `INSERT INTO transactions ... RETURNING id, occurred_at` and the commit: the row gets
   * the next id, unless a foreign key rejects it.
   */
  function InsertTransaction(db: Tables, amount: int, typeId: int, categoryId: Option<int>,
                             description: Option<string>, paymentMethod: Option<string>, at: Stamp,
                             sourceText: string): (s: Step<Inserted>)
    ensures var row := Transaction(db.nextTransaction, amount, typeId, categoryId, description, paymentMethod,
                                   at, sourceText);
            && (s.out.Ok? <==> RowOk(db, row))
            && (s.out.Ok? ==> AppendedTransaction(db, s.db, row) && s.out.value == Inserted(row.id, at))
            && (s.out.Err? ==> s.db == db && s.out.error == Db(ForeignKey))
  {
    var row := Transaction(db.nextTransaction, amount, typeId, categoryId, description, paymentMethod, at, sourceText);
    if RowOk(db, row) then
      Step(db.(transactions := db.transactions + [row], nextTransaction := db.nextTransaction + 1),
           Ok(Inserted(row.id, at)))
    else Step(db, Err(Db(ForeignKey)))
  }

  /**
   * `add_transaction` of `aula7/pg_tools.py`: resolve the type (a falsy result is an
   * error), resolve the category, then insert. With a truthy `occurred_at` the row gets
   * the resolved category; without one it gets the raw `category_id` argument and `NOW()`.
   */
  function AddTransaction(db: Tables, env: Env, a: TransactionArgs): (s: Step<Inserted>)
    ensures s.out.Err? ==> s.db == db
    ensures !TruthyInt(ResolveTypeId(db.types, a.typeId, a.typeName, false)) <==> s.out == Err(InvalidType)
  {
    var rt := ResolveTypeId(db.types, a.typeId, a.typeName, false);
    if !TruthyInt(rt) then Step(db, Err(InvalidType))
    else
      var rc := ResolveCategoryId(db.categories, ValueOf(a.categoryId), a.categoryName);
      if TruthyStr(a.occurredAt) then
        match env.stamp(a.occurredAt.value)
        case None => Step(db, Err(Db(BadTimestamp)))
        case Some(at) =>
          InsertTransaction(db, a.amount, rt.value, IntOf(rc), a.description, a.paymentMethod, at, a.sourceText)
      else
        InsertTransaction(db, a.amount, rt.value, a.categoryId, a.description, a.paymentMethod, env.now, a.sourceText)
  }

  /** `add_transaction` of `pg_tools.py`: legacy aliases, and `category_id` stored exactly as given. */
  function AddTransactionLegacy(db: Tables, env: Env, a: TransactionArgs): (s: Step<Inserted>)
    ensures s.out.Err? ==> s.db == db
    ensures !TruthyInt(ResolveTypeId(db.types, a.typeId, a.typeName, true)) <==> s.out == Err(InvalidType)
  {
    var rt := ResolveTypeId(db.types, a.typeId, a.typeName, true);
    if !TruthyInt(rt) then Step(db, Err(InvalidType))
    else
      match StampOf(env, a.occurredAt)
      case None => Step(db, Err(Db(BadTimestamp)))
      case Some(at) =>
        InsertTransaction(db, a.amount, rt.value, a.categoryId, a.description, a.paymentMethod, at, a.sourceText)
  }

  /** The row a successful `add_transaction` appends. */
  function TransactionRow(db: Tables, a: TransactionArgs, typeId: int, categoryId: Option<int>, at: Stamp): Transaction {
    Transaction(db.nextTransaction, a.amount, typeId, categoryId, a.description, a.paymentMethod, at, a.sourceText)
  }

  /**
   * With a timestamp, a committed transaction carries the resolved type, the category
   * resolved from id or name, and the parsed timestamp.
   */
  lemma {:induction false} AddWithStamp(db: Tables, env: Env, a: TransactionArgs)
    requires TruthyStr(a.occurredAt)
    requires AddTransaction(db, env, a).out.Ok?
    ensures var rt := ResolveTypeId(db.types, a.typeId, a.typeName, false);
            var rc := ResolveCategoryId(db.categories, ValueOf(a.categoryId), a.categoryName);
            var at := env.stamp(a.occurredAt.value);
            && rt.Some? && at.Some?
            && AppendedTransaction(db, AddTransaction(db, env, a).db, TransactionRow(db, a, rt.value, IntOf(rc), at.value))
  {
  }

  /**
   * Without a timestamp, a committed transaction carries the raw `category_id` argument,
   * whatever `category_name` resolves to, and `NOW()`.
   */
  lemma {:induction false} AddWithoutStamp(db: Tables, env: Env, a: TransactionArgs)
    requires !TruthyStr(a.occurredAt)
    requires AddTransaction(db, env, a).out.Ok?
    ensures var rt := ResolveTypeId(db.types, a.typeId, a.typeName, false);
            && rt.Some?
            && AppendedTransaction(db, AddTransaction(db, env, a).db, TransactionRow(db, a, rt.value, a.categoryId, env.now))
  {
  }

  /**
   * The category is dropped exactly there: a name that resolves is stored with a
   * timestamp and lost without one.
   */
  lemma {:induction false} CategoryNameNeedsStamp(db: Tables, env: Env, a: TransactionArgs, c: int)
    requires a.categoryId.None? && ResolveCategoryId(db.categories, PyNone, a.categoryName) == PyInt(c)
    requires AddTransaction(db, env, a).out.Ok?
    ensures var row := Last(AddTransaction(db, env, a).db.transactions);
            row.categoryId == if TruthyStr(a.occurredAt) then Some(c) else None
  {
    var s := AddTransaction(db, env, a);
    var rt := ResolveTypeId(db.types, a.typeId, a.typeName, false);
    if TruthyStr(a.occurredAt) {
      AddWithStamp(db, env, a);
      var at := env.stamp(a.occurredAt.value);
      assert s.db.transactions == db.transactions + [TransactionRow(db, a, rt.value, Some(c), at.value)];
    } else {
      AddWithoutStamp(db, env, a);
      assert s.db.transactions == db.transactions + [TransactionRow(db, a, rt.value, None, env.now)];
    }
  }

  /** The last element of a non-empty sequence. */
  function Last<T>(s: seq<T>): T
    requires s != []
  {
    s[|s| - 1]
  }

  /** The legacy tool stores `category_id` as given, with the parsed timestamp or `NOW()`. */
  lemma {:induction false} LegacyAddStoresAsGiven(db: Tables, env: Env, a: TransactionArgs)
    requires AddTransactionLegacy(db, env, a).out.Ok?
    ensures var rt := ResolveTypeId(db.types, a.typeId, a.typeName, true);
            var at := StampOf(env, a.occurredAt);
            && rt.Some? && at.Some?
            && AppendedTransaction(db, AddTransactionLegacy(db, env, a).db, TransactionRow(db, a, rt.value, a.categoryId, at.value))
  {
  }

  /**
   * The two versions behave alike on every call without a category name and without
   * `category_id = 0` (which `aula7/pg_tools.py` turns into NULL once a timestamp is
   * given) whose type name, if any, both alias steps map to the same key.
   */
  lemma {:induction false} LegacyAddAgrees(db: Tables, env: Env, a: TransactionArgs)
    requires !TruthyStr(a.categoryName) && a.categoryId != Some(0)
    requires TruthyStr(a.typeName) ==> TypeKey(a.typeName.value, false) == TypeKey(a.typeName.value, true)
    ensures AddTransaction(db, env, a) == AddTransactionLegacy(db, env, a)
  {
    var rt := ResolveTypeId(db.types, a.typeId, a.typeName, false);
    LegacyAgrees(db.types, a.typeId, a.typeName);
    if TruthyInt(rt) {
      var rc := ResolveCategoryId(db.categories, ValueOf(a.categoryId), a.categoryName);
      assert IntOf(rc) == a.categoryId;
    }
  }

  /** `add_workout`: the title is also the `source_text`; the timestamp defaults to `NOW()`. */
  function AddWorkout(db: Tables, env: Env, a: WorkoutArgs): (s: Step<Inserted>)
    ensures s.out.Err? <==> StampOf(env, a.scheduledAt).None?
    ensures s.out.Err? ==> s.db == db && s.out.error == Db(BadTimestamp)
    ensures s.out.Ok? ==>
              var row := Workout(db.nextWorkout, a.title, a.notes, StampOf(env, a.scheduledAt).value,
                                 a.durationMin, a.title);
              && s.db == db.(workouts := db.workouts + [row], nextWorkout := db.nextWorkout + 1)
              && s.out.value == Inserted(row.id, row.scheduledAt)
  {
    match StampOf(env, a.scheduledAt)
    case None => Step(db, Err(Db(BadTimestamp)))
    case Some(at) =>
      var row := Workout(db.nextWorkout, a.title, a.notes, at, a.durationMin, a.title);
      Step(db.(workouts := db.workouts + [row], nextWorkout := db.nextWorkout + 1), Ok(Inserted(row.id, at)))
  }

  /** `add_meal`: the title is also the `source_text`; the timestamp defaults to `NOW()`. */
  function AddMeal(db: Tables, env: Env, a: MealArgs): (s: Step<Inserted>)
    ensures s.out.Err? <==> StampOf(env, a.occurredAt).None?
    ensures s.out.Err? ==> s.db == db && s.out.error == Db(BadTimestamp)
    ensures s.out.Ok? ==>
              var row := Meal(db.nextMeal, a.title, StampOf(env, a.occurredAt).value, a.notes, a.title);
              && s.db == db.(meals := db.meals + [row], nextMeal := db.nextMeal + 1)
              && s.out.value == Inserted(row.id, row.occurredAt)
  {
    match StampOf(env, a.occurredAt)
    case None => Step(db, Err(Db(BadTimestamp)))
    case Some(at) =>
      var row := Meal(db.nextMeal, a.title, at, a.notes, a.title);
      Step(db.(meals := db.meals + [row], nextMeal := db.nextMeal + 1), Ok(Inserted(row.id, at)))
  }

  // ---------------------------------------------------------------------------
  // The schema's constraints survive every insert
  // ---------------------------------------------------------------------------

  lemma {:induction false} InsertTransactionValid(db: Tables, amount: int, typeId: int, categoryId: Option<int>,
                                                  description: Option<string>, paymentMethod: Option<string>,
                                                  at: Stamp, sourceText: string)
    requires Valid(db)
    ensures Valid(InsertTransaction(db, amount, typeId, categoryId, description, paymentMethod, at, sourceText).db)
  {
    var s := InsertTransaction(db, amount, typeId, categoryId, description, paymentMethod, at, sourceText);
    if s.out.Ok? {
      var db' := s.db;
      assert db'.types == db.types && db'.categories == db.categories;
      forall i | 0 <= i < |db'.transactions| ensures RowOk(db', db'.transactions[i]) {
        if i < |db.transactions| {
          assert db'.transactions[i] == db.transactions[i];
        }
      }
    }
  }

  /** Every insert tool keeps the ids unique and the foreign keys intact. */
  lemma {:induction false} AddTransactionValid(db: Tables, env: Env, a: TransactionArgs)
    requires Valid(db)
    ensures Valid(AddTransaction(db, env, a).db)
    ensures Valid(AddTransactionLegacy(db, env, a).db)
  {
    var rt := ResolveTypeId(db.types, a.typeId, a.typeName, false);
    if TruthyInt(rt) {
      var rc := ResolveCategoryId(db.categories, ValueOf(a.categoryId), a.categoryName);
      if TruthyStr(a.occurredAt) {
        if env.stamp(a.occurredAt.value).Some? {
          InsertTransactionValid(db, a.amount, rt.value, IntOf(rc), a.description, a.paymentMethod,
                                 env.stamp(a.occurredAt.value).value, a.sourceText);
        }
      } else {
        InsertTransactionValid(db, a.amount, rt.value, a.categoryId, a.description, a.paymentMethod, env.now, a.sourceText);
      }
    }
    var lt := ResolveTypeId(db.types, a.typeId, a.typeName, true);
    if TruthyInt(lt) && StampOf(env, a.occurredAt).Some? {
      InsertTransactionValid(db, a.amount, lt.value, a.categoryId, a.description, a.paymentMethod,
                             StampOf(env, a.occurredAt).value, a.sourceText);
    }
  }

  lemma {:induction false} AddWorkoutValid(db: Tables, env: Env, w: WorkoutArgs)
    requires Valid(db)
    ensures Valid(AddWorkout(db, env, w).db)
  {
    var s := AddWorkout(db, env, w);
    if s.out.Ok? {
      var rows := s.db.workouts;
      assert rows == db.workouts + [rows[|rows| - 1]];
      forall i | 0 <= i < |db.workouts| ensures rows[i] == db.workouts[i] && rows[i].id < rows[|rows| - 1].id {
      }
    }
  }

  lemma {:induction false} AddMealValid(db: Tables, env: Env, m: MealArgs)
    requires Valid(db)
    ensures Valid(AddMeal(db, env, m).db)
  {
    var s := AddMeal(db, env, m);
    if s.out.Ok? {
      var rows := s.db.meals;
      assert rows == db.meals + [rows[|rows| - 1]];
      forall i | 0 <= i < |db.meals| ensures rows[i] == db.meals[i] && rows[i].id < rows[|rows| - 1].id {
      }
    }
  }
}
