/**
 * The data behind the ledger tools of `aula7/pg_tools.py` and `pg_tools.py`: the
 * Python values the tools receive, the rows of the five Postgres tables, the outcome
 * dictionaries the tools return, and what the database does with timestamps, dates
 * and the integer columns.
 */
module LedgerData {
  import opened Wrappers

  // ---------------------------------------------------------------------------
  // Python argument values and their truthiness
  // ---------------------------------------------------------------------------

  /** `Optional[int]` and `Optional[str]` arguments are `Option`s; `bool(x)` is the test below. */
  predicate TruthyInt(x: Option<int>) {
    x.Some? && x.value != 0
  }

  predicate TruthyStr(x: Option<string>) {
    x.Some? && x.value != []
  }

  /**
   * A value that ends up in an integer column. It is normally `None` or an `int`; text
   * gets there only by `update_transaction` passing `category_name` into `category_id`.
   */
  datatype PyValue = PyNone | PyInt(i: int) | PyStr(s: string)

  predicate TruthyValue(v: PyValue) {
    match v
    case PyNone => false
    case PyInt(i) => i != 0
    case PyStr(s) => s != []
  }

  function ValueOf(x: Option<int>): (v: PyValue)
    ensures v == PyNone <==> x.None?
    ensures TruthyValue(v) <==> TruthyInt(x)
  {
    if x.Some? then PyInt(x.value) else PyNone
  }

  // ---------------------------------------------------------------------------
  // Time
  // ---------------------------------------------------------------------------

  /** An instant (`timestamptz`), ordered as time runs. */
  type Stamp = int

  /** A calendar day (`date`), ordered as days run. */
  type Date = int

  /**
   * What the database contributes: the instant of `NOW()`, the casts `%s::timestamptz`
   * and `%s::date` of a text (`None` when the text is not a valid literal, which raises),
   * and the local day `(occurred_at AT TIME ZONE 'America/Sao_Paulo')::date` of an instant.
   */
  datatype Env = Env(now: Stamp, stamp: string -> Option<Stamp>, date: string -> Option<Date>,
                     localDay: Stamp -> Date)

  // ---------------------------------------------------------------------------
  // Rows and tables
  // ---------------------------------------------------------------------------

  /** A row of `transaction_types` (1 = INCOME, 2 = EXPENSES, 3 = TRANSFER). */
  datatype TransactionType = TransactionType(id: int, name: string)

  /** A row of `categories`. */
  datatype Category = Category(id: int, name: string)

  /** A row of `transactions`; `typeId` is the `type` column. */
  datatype Transaction = Transaction(id: int, amount: int, typeId: int, categoryId: Option<int>,
                                     description: Option<string>, paymentMethod: Option<string>,
                                     occurredAt: Stamp, sourceText: string)

  /** A row of `workouts`. */
  datatype Workout = Workout(id: int, title: string, notes: Option<string>, scheduledAt: Stamp,
                             durationMin: Option<int>, sourceText: string)

  /** A row of `meals`. */
  datatype Meal = Meal(id: int, title: string, occurredAt: Stamp, notes: Option<string>, sourceText: string)

  /** The database: five tables, in insertion order, and the next value of each `serial` id. */
  datatype Tables = Tables(types: seq<TransactionType>, categories: seq<Category>,
                           transactions: seq<Transaction>, workouts: seq<Workout>, meals: seq<Meal>,
                           nextTransaction: int, nextWorkout: int, nextMeal: int)

  predicate TypeExists(db: Tables, id: int) {
    exists k :: 0 <= k < |db.types| && db.types[k].id == id
  }

  /** A `category_id` that its foreign key accepts: NULL, or the id of a category. */
  predicate CategoryOk(db: Tables, c: Option<int>) {
    c.None? || exists k :: 0 <= k < |db.categories| && db.categories[k].id == c.value
  }

  /** The foreign keys of a transaction row hold. */
  predicate RowOk(db: Tables, tx: Transaction) {
    TypeExists(db, tx.typeId) && CategoryOk(db, tx.categoryId)
  }

  predicate UniqueTransactionIds(rows: seq<Transaction>) {
    forall i, j :: 0 <= i < j < |rows| ==> rows[i].id != rows[j].id
  }

  /**
   * The constraints of the schema: primary keys are unique and below their sequence's
   * next value, and every transaction's foreign keys hold.
   */
  predicate Valid(db: Tables) {
    && UniqueTransactionIds(db.transactions)
    && (forall i :: 0 <= i < |db.transactions| ==> db.transactions[i].id < db.nextTransaction)
    && (forall i :: 0 <= i < |db.transactions| ==> RowOk(db, db.transactions[i]))
    && (forall i, j :: 0 <= i < j < |db.workouts| ==> db.workouts[i].id != db.workouts[j].id)
    && (forall i :: 0 <= i < |db.workouts| ==> db.workouts[i].id < db.nextWorkout)
    && (forall i, j :: 0 <= i < j < |db.meals| ==> db.meals[i].id != db.meals[j].id)
    && (forall i :: 0 <= i < |db.meals| ==> db.meals[i].id < db.nextMeal)
  }

  // ---------------------------------------------------------------------------
  // Outcomes
  // ---------------------------------------------------------------------------

  /** Why the database raised, making the tool roll back and return `str(e)`. */
  datatype DbFault = BadTimestamp | BadDate | BadInteger | ForeignKey | NegativeLimit | SubqueryRows | AmbiguousColumn

  /** The `{"status": "error", ...}` replies. */
  datatype ToolError =
    | InvalidType
    | NothingToUpdate
    | NeedMatch
    | NoMatch
    | NoValidField
    | Db(fault: DbFault)

  /** A tool's reply: the `ok` payload, or an error. */
  datatype Outcome<T> = Ok(value: T) | Err(error: ToolError)

  /** A tool call that may write: the database afterwards and the reply. */
  datatype Step<T> = Step(db: Tables, out: Outcome<T>)

  /** The fixed messages of the error replies; a database error's message is its own text. */
  function Message(e: ToolError): Option<string> {
    match e
    case InvalidType => Some("Tipo inv\U{E1}lido (use type_id ou type_name: INCOME/EXPENSES/TRANSFER).")
    case NothingToUpdate =>
      Some("Nada para atualizar: forne\U{C3}\U{A7}a pelo menos um campo (amount, type, category, description, payment_method, occurred_at).")
    case NeedMatch => Some("Sem 'id': informe match_text E date_local para localizar o registro.")
    case NoMatch => Some("Nenhuma transa\U{C3}\U{A7}\U{C3}\U{A3}o encontrada para os filtros fornecidos.")
    case NoValidField => Some("Nenhum campo v\U{C3}\U{A1}lido para atualizar.")
    case Db(_) => None
  }
}
