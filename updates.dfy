/**
 * `update_transaction` of `aula7/pg_tools.py`: find the target row (by id, or as the latest
 * text match on a local day), resolve the type and the category, plan the `SET` clauses of
 * the fields that are not `None`, and run one `UPDATE` that either commits or rolls back.
 */
module Updates {
  import opened Wrappers
  import opened Text
  import opened LedgerData
  import opened Resolve
  import opened PgCast
  import opened Queries

  datatype UpdateArgs = UpdateArgs(
    id: Option<int>, matchText: Option<string>, dateLocal: Option<string>, amount: Option<int>,
    typeId: Option<int>, typeName: Option<string>, categoryId: Option<int>, categoryName: Option<string>,
    description: Option<string>, paymentMethod: Option<string>, occurredAt: Option<string>)

  /** `any([amount, type_id, type_name, category_id, category_name, description, payment_method, occurred_at])`. */
  predicate AnyChange(u: UpdateArgs) {
    TruthyInt(u.amount) || TruthyInt(u.typeId) || TruthyStr(u.typeName) || TruthyInt(u.categoryId)
    || TruthyStr(u.categoryName) || TruthyStr(u.description) || TruthyStr(u.paymentMethod)
    || TruthyStr(u.occurredAt)
  }

  // ---------------------------------------------------------------------------
  // The target row
  // ---------------------------------------------------------------------------

  /** A row the search without `id` accepts: its text matches and it falls on day `d`. */
  predicate Hit(env: Env, text: string, d: Date, tx: Transaction) {
    TextMatch(tx, text) && env.localDay(tx.occurredAt) == d
  }

  /**
   * `ORDER BY t.occurred_at DESC LIMIT 1` over the hits among the first `n` rows: the
   * index of the latest hit, the first in table order among hits at the same instant.
   */
  function LatestHit(rows: seq<Transaction>, env: Env, text: string, d: Date, n: nat): (r: Option<nat>)
    requires n <= |rows|
    ensures r.None? <==> forall j :: 0 <= j < n ==> !Hit(env, text, d, rows[j])
    ensures r.Some? ==> r.value < n && Hit(env, text, d, rows[r.value])
    ensures r.Some? ==> forall j :: 0 <= j < n && Hit(env, text, d, rows[j]) ==> rows[j].occurredAt <= rows[r.value].occurredAt
    ensures r.Some? ==> forall j :: 0 <= j < r.value && Hit(env, text, d, rows[j]) ==> rows[j].occurredAt < rows[r.value].occurredAt
  {
    if n == 0 then None
    else
      var b := LatestHit(rows, env, text, d, n - 1);
      if !Hit(env, text, d, rows[n - 1]) then b
      else if b.None? || rows[n - 1].occurredAt > rows[b.value].occurredAt then Some(n - 1)
      else b
  }

  /**
   * `target_id`: the `id` argument whenever it is not `None` (so `0` is an id here), or
   * else the id of the latest hit for `match_text` on `date_local`, both of which must
   * be truthy.
   */
  function Target(db: Tables, env: Env, u: UpdateArgs): (r: Outcome<int>)
    ensures u.id.Some? ==> r == Ok(u.id.value)
    ensures r.Err? ==> r.error in {NeedMatch, NoMatch, Db(BadDate)}
    ensures u.id.None? && !(TruthyStr(u.matchText) && TruthyStr(u.dateLocal)) ==> r == Err(NeedMatch)
    ensures u.id.None? && r.Ok? ==>
              TruthyStr(u.matchText) && TruthyStr(u.dateLocal) && env.date(u.dateLocal.value).Some? &&
              exists k :: 0 <= k < |db.transactions| && db.transactions[k].id == r.value
                          && Hit(env, u.matchText.value, env.date(u.dateLocal.value).value, db.transactions[k])
  {
    if u.id.Some? then Ok(u.id.value)
    else if !TruthyStr(u.matchText) || !TruthyStr(u.dateLocal) then Err(NeedMatch)
    else
      match env.date(u.dateLocal.value)
      case None => Err(Db(BadDate))
      case Some(d) =>
        match LatestHit(db.transactions, env, u.matchText.value, d, |db.transactions|)
        case None => Err(NoMatch)
        case Some(k) => Ok(db.transactions[k].id)
  }

  // ---------------------------------------------------------------------------
  // Resolution and the SET clauses
  // ---------------------------------------------------------------------------

  /** `_resolve_type_id(cur, type_id, type_name) if (type_id or type_name) else None`. */
  function ResolvedType(types: seq<TransactionType>, u: UpdateArgs): Option<int> {
    if TruthyInt(u.typeId) || TruthyStr(u.typeName) then ResolveTypeId(types, u.typeId, u.typeName, false) else None
  }

  /**
   * `resolved_category_id`: the `category_id` argument, unless a name comes without a
   * truthy id; then `_resolve_category_id(cur, category_name)`, which receives the name
   * in its `category_id` slot.
   */
  function ResolvedCategory(cats: seq<Category>, u: UpdateArgs): PyValue {
    if TruthyStr(u.categoryName) && !TruthyInt(u.categoryId) then ResolveCategoryId(cats, PyStr(u.categoryName.value), None)
    else ValueOf(u.categoryId)
  }

  /** The category name itself becomes the new `category_id` whenever it comes without a truthy id. */
  lemma CategoryNameIsTheId(cats: seq<Category>, u: UpdateArgs)
    requires TruthyStr(u.categoryName) && !TruthyInt(u.categoryId)
    ensures ResolvedCategory(cats, u) == PyStr(u.categoryName.value)
  {
  }

  /** One entry of `sets`, with its parameter. */
  datatype SetClause =
    | SetAmount(amount: int)
    | SetType(typeId: int)
    | SetCategory(category: PyValue)
    | SetDescription(description: string)
    | SetPayment(paymentMethod: string)
    | SetStamp(occurredAt: string)

  /** `sets` with the clause `o` in front of `rest`, if there is one. */
  function Prep(o: Option<SetClause>, rest: seq<SetClause>): seq<SetClause> {
    if o.Some? then [o.value] + rest else rest
  }

  /** The clause of each field, where it is not `None` after resolution. */
  function AmountClause(u: UpdateArgs): Option<SetClause> {
    if u.amount.Some? then Some(SetAmount(u.amount.value)) else None
  }

  function TypeClause(rt: Option<int>): Option<SetClause> {
    if rt.Some? then Some(SetType(rt.value)) else None
  }

  function CategoryClause(rc: PyValue): Option<SetClause> {
    if rc != PyNone then Some(SetCategory(rc)) else None
  }

  function DescriptionClause(u: UpdateArgs): Option<SetClause> {
    if u.description.Some? then Some(SetDescription(u.description.value)) else None
  }

  function PaymentClause(u: UpdateArgs): Option<SetClause> {
    if u.paymentMethod.Some? then Some(SetPayment(u.paymentMethod.value)) else None
  }

  function StampClause(u: UpdateArgs): Option<SetClause> {
    if u.occurredAt.Some? then Some(SetStamp(u.occurredAt.value)) else None
  }

  /** The clauses of the fields that are not `None` after resolution, in the order they are appended. */
  function PlannedSets(u: UpdateArgs, rt: Option<int>, rc: PyValue): seq<SetClause> {
    Prep(AmountClause(u), Prep(TypeClause(rt), Prep(CategoryClause(rc),
      Prep(DescriptionClause(u), Prep(PaymentClause(u), Prep(StampClause(u), []))))))
  }

  /** The clause of an optional field as a list of zero or one clauses. */
  function Opt(o: Option<SetClause>): seq<SetClause> {
    if o.Some? then [o.value] else []
  }

  /** Appending the clauses one after the other gives the planned list. */
  lemma AppendedSets(u: UpdateArgs, rt: Option<int>, rc: PyValue, sets: seq<SetClause>)
    requires sets == Opt(AmountClause(u)) + Opt(TypeClause(rt)) + Opt(CategoryClause(rc)) + Opt(DescriptionClause(u))
                     + Opt(PaymentClause(u)) + Opt(StampClause(u))
    ensures sets == PlannedSets(u, rt, rc)
  {
    var a, b, c := Opt(AmountClause(u)), Opt(TypeClause(rt)), Opt(CategoryClause(rc));
    var d, e, f := Opt(DescriptionClause(u)), Opt(PaymentClause(u)), Opt(StampClause(u));
    Associate(a + b + c + d, e, f);
    Associate(a + b + c, d, e + f);
    Associate(a + b, c, d + (e + f));
    Associate(a, b, c + (d + (e + f)));
    assert f == Prep(StampClause(u), []);
    OptPrep(PaymentClause(u), f);
    OptPrep(DescriptionClause(u), e + f);
    OptPrep(CategoryClause(rc), d + (e + f));
    OptPrep(TypeClause(rt), c + (d + (e + f)));
    OptPrep(AmountClause(u), b + (c + (d + (e + f))));
  }

  /** Regrouping a concatenation; only a proof step of `AppendedSets`, which is cheaper with it. */
  lemma Associate(x: seq<SetClause>, y: seq<SetClause>, z: seq<SetClause>)
    ensures x + y + z == x + (y + z)
  {
  }

  /** A clause in front of the rest, as a list of zero or one clauses and as `Prep`; likewise only a proof step of `AppendedSets`. */
  lemma OptPrep(o: Option<SetClause>, rest: seq<SetClause>)
    ensures Opt(o) + rest == Prep(o, rest)
  {
  }

  /** No clause remains exactly when every field is `None` after resolution. */
  lemma PlannedSetsEmpty(u: UpdateArgs, rt: Option<int>, rc: PyValue)
    ensures PlannedSets(u, rt, rc) == [] <==>
              u.amount.None? && rt.None? && rc == PyNone && u.description.None? && u.paymentMethod.None?
              && u.occurredAt.None?
  {
  }

  // ---------------------------------------------------------------------------
  // Binding and applying the clauses
  // ---------------------------------------------------------------------------

  /** A clause once Postgres has read its parameter into the column's type. */
  datatype Change =
    | AmountTo(amount: int)
    | TypeTo(typeId: int)
    | CategoryTo(categoryId: Option<int>)
    | DescriptionTo(description: string)
    | PaymentTo(paymentMethod: string)
    | StampTo(at: Stamp)

  /**
   * A parameter bound to its column: a text in `category_id` goes through the `integer`
   * input cast and a text in `occurred_at` through `::timestamptz`; either may raise.
   */
  function Bind(env: Env, c: SetClause): (r: Outcome<Change>)
    ensures r.Err? ==> (c.SetCategory? || c.SetStamp?) && r.error.Db?
  {
    match c
    case SetAmount(v) => Ok(AmountTo(v))
    case SetType(v) => Ok(TypeTo(v))
    case SetCategory(PyNone) => Ok(CategoryTo(None))
    case SetCategory(PyInt(i)) => Ok(CategoryTo(Some(i)))
    case SetCategory(PyStr(s)) =>
      (match PgIntCast(s)
       case None => Err(Db(BadInteger))
       case Some(i) => Ok(CategoryTo(Some(i))))
    case SetDescription(v) => Ok(DescriptionTo(v))
    case SetPayment(v) => Ok(PaymentTo(v))
    case SetStamp(v) =>
      (match env.stamp(v)
       case None => Err(Db(BadTimestamp))
       case Some(at) => Ok(StampTo(at)))
  }

  /** Every clause bound, or the first one that raises. */
  function BindAll(env: Env, cs: seq<SetClause>): (r: Outcome<seq<Change>>)
    ensures r.Ok? <==> forall k :: 0 <= k < |cs| ==> Bind(env, cs[k]).Ok?
    ensures r.Err? ==> r.error.Db?
    ensures r.Ok? ==> |r.value| == |cs| && forall k :: 0 <= k < |cs| ==> r.value[k] == Bind(env, cs[k]).value
    ensures r.Err? ==> exists k :: 0 <= k < |cs| && Bind(env, cs[k]) == Err(r.error)
                                   && forall j :: 0 <= j < k ==> Bind(env, cs[j]).Ok?
  {
    if cs == [] then Ok([])
    else
      match Bind(env, cs[0])
      case Err(e) => Err(e)
      case Ok(ch) =>
        var rest := BindAll(env, cs[1..]);
        if rest.Err? then
          assert forall k :: 1 <= k < |cs| ==> cs[k] == cs[1..][k - 1];
          Err(rest.error)
        else Ok([ch] + rest.value)
  }

  function ApplyChange(tx: Transaction, ch: Change): (r: Transaction)
    ensures r.id == tx.id && r.sourceText == tx.sourceText
  {
    match ch
    case AmountTo(v) => tx.(amount := v)
    case TypeTo(v) => tx.(typeId := v)
    case CategoryTo(v) => tx.(categoryId := v)
    case DescriptionTo(v) => tx.(description := Some(v))
    case PaymentTo(v) => tx.(paymentMethod := Some(v))
    case StampTo(v) => tx.(occurredAt := v)
  }

  /** `SET c1, c2, ...` on one row. */
  function ApplyAll(tx: Transaction, chs: seq<Change>): (r: Transaction)
    ensures r.id == tx.id && r.sourceText == tx.sourceText
    decreases |chs|
  {
    if chs == [] then tx else ApplyAll(ApplyChange(tx, chs[0]), chs[1..])
  }

  /** `UPDATE transactions SET ... WHERE id = target`. */
  function UpdateRows(rows: seq<Transaction>, target: int, chs: seq<Change>): (r: seq<Transaction>)
    ensures |r| == |rows|
    ensures forall i :: 0 <= i < |rows| ==> r[i] == if rows[i].id == target then ApplyAll(rows[i], chs) else rows[i]
  {
    seq(|rows|, i requires 0 <= i < |rows| => if rows[i].id == target then ApplyAll(rows[i], chs) else rows[i])
  }

  /** `cur.rowcount` of the `UPDATE`: the rows with the target id. */
  function CountId(rows: seq<Transaction>, target: int): nat {
    if rows == [] then 0 else CountId(rows[1..], target) + (if rows[0].id == target then 1 else 0)
  }

  // ---------------------------------------------------------------------------
  // The reply
  // ---------------------------------------------------------------------------

  /** The `updated` dictionary: the row joined with its type's and its category's names. */
  datatype Detail = Detail(id: int, occurredAt: Stamp, amount: int, typeName: string, categoryName: Option<string>,
                           description: Option<string>, paymentMethod: Option<string>, sourceText: string)

  datatype Updated = Updated(rowsAffected: nat, id: int, updated: Option<Detail>)

  /** The first row with id `target`. */
  function RowWithId(rows: seq<Transaction>, target: int): (r: Option<Transaction>)
    ensures r.Some? ==> r.value in rows && r.value.id == target
    ensures r.None? <==> forall i :: 0 <= i < |rows| ==> rows[i].id != target
  {
    if rows == [] then None else if rows[0].id == target then Some(rows[0]) else RowWithId(rows[1..], target)
  }

  /**
   * `LEFT JOIN categories c ON c.id = t.category_id`: the name of the first category with
   * that id, or NULL when the id is NULL or no category has it.
   */
  function CategoryName(cats: seq<Category>, c: Option<int>): (r: Option<string>)
    ensures r.Some? <==> c.Some? && exists k :: 0 <= k < |cats| && cats[k].id == c.value
    ensures r.Some? ==> exists k :: 0 <= k < |cats| && cats[k].id == c.value && cats[k].name == r.value
                                    && forall j :: 0 <= j < k ==> cats[j].id != c.value
  {
    if c.None? || cats == [] then None
    else if cats[0].id == c.value then Some(cats[0].name)
    else CategoryName(cats[1..], c)
  }

  /**
   * The `SELECT` after the commit: a row with the id, joined with its type's name and its
   * category's name (NULL when it has none); `None` when no row has the id, and also when
   * the inner join with `transaction_types` drops the row.
   */
  function DetailOf(db: Tables, target: int): (r: Option<Detail>)
    ensures (forall i :: 0 <= i < |db.transactions| ==> db.transactions[i].id != target) ==> r.None?
    ensures ((exists i :: 0 <= i < |db.transactions| && db.transactions[i].id == target)
             && (forall i :: 0 <= i < |db.transactions| && db.transactions[i].id == target ==>
                               TypeName(db.types, db.transactions[i].typeId).Some?)) ==> r.Some?
    ensures r.Some? ==> exists i :: 0 <= i < |db.transactions| && db.transactions[i].id == target
                                    && var tx := db.transactions[i];
                                    TypeName(db.types, tx.typeId) == Some(r.value.typeName)
                                    && r.value == Detail(tx.id, tx.occurredAt, tx.amount, r.value.typeName,
                                                         CategoryName(db.categories, tx.categoryId),
                                                         tx.description, tx.paymentMethod, tx.sourceText)
  {
    match RowWithId(db.transactions, target)
    case None => None
    case Some(tx) =>
      match TypeName(db.types, tx.typeId)
      case None => None
      case Some(name) =>
        Some(Detail(tx.id, tx.occurredAt, tx.amount, name, CategoryName(db.categories, tx.categoryId),
                    tx.description, tx.paymentMethod, tx.sourceText))
  }

  // ---------------------------------------------------------------------------
  // update_transaction
  // ---------------------------------------------------------------------------

  /** The foreign keys of every row the `UPDATE` rewrites hold. */
  predicate UpdateKeysOk(db: Tables, rows: seq<Transaction>, target: int)
    requires |rows| == |db.transactions|
  {
    forall i :: 0 <= i < |rows| && db.transactions[i].id == target ==> RowOk(db, rows[i])
  }

  /**
   * `update_transaction`. Every error reply leaves the tables as they were: the checks
   * before the `UPDATE` write nothing, and a failing `UPDATE` rolls back.
   */
  function UpdateTransaction(db: Tables, env: Env, u: UpdateArgs): (s: Step<Updated>)
    ensures s.out.Err? ==> s.db == db
    ensures s.out.Ok? ==> s.db == db.(transactions := s.db.transactions)
  {
    if !AnyChange(u) then Step(db, Err(NothingToUpdate))
    else
      match Target(db, env, u)
      case Err(e) => Step(db, Err(e))
      case Ok(target) =>
        var sets := PlannedSets(u, ResolvedType(db.types, u), ResolvedCategory(db.categories, u));
        if sets == [] then Step(db, Err(NoValidField))
        else
          match BindAll(env, sets)
          case Err(e) => Step(db, Err(e))
          case Ok(chs) =>
            var rows := UpdateRows(db.transactions, target, chs);
            if !UpdateKeysOk(db, rows, target) then Step(db, Err(Db(ForeignKey)))
            else
              var db' := db.(transactions := rows);
              Step(db', Ok(Updated(CountId(db.transactions, target), target, DetailOf(db', target))))
  }

  /** The call fails with "Nada para atualizar", writing nothing, exactly when every change field is falsy. */
  lemma {:induction false} NothingToUpdateExactly(db: Tables, env: Env, u: UpdateArgs)
    ensures !AnyChange(u) <==> UpdateTransaction(db, env, u).out == Err(NothingToUpdate)
    ensures !AnyChange(u) ==> UpdateTransaction(db, env, u).db == db
  {
  }

  /** The clauses a call plans, once its target is known. */
  function CallSets(db: Tables, u: UpdateArgs): seq<SetClause> {
    PlannedSets(u, ResolvedType(db.types, u), ResolvedCategory(db.categories, u))
  }

  /**
   * Without `id`, the call needs both `match_text` and `date_local`, and fails with no
   * match when no row of that day matches the text.
   */
  lemma {:induction false} UpdateNeedsMatch(db: Tables, env: Env, u: UpdateArgs)
    requires AnyChange(u) && u.id.None?
    ensures !(TruthyStr(u.matchText) && TruthyStr(u.dateLocal)) ==> UpdateTransaction(db, env, u) == Step(db, Err(NeedMatch))
    ensures TruthyStr(u.matchText) && TruthyStr(u.dateLocal) && env.date(u.dateLocal.value).Some?
            && (forall j :: 0 <= j < |db.transactions| ==>
                  !Hit(env, u.matchText.value, env.date(u.dateLocal.value).value, db.transactions[j]))
            ==> UpdateTransaction(db, env, u) == Step(db, Err(NoMatch))
  {
  }

  /**
   * The row a search without `id` updates is the latest hit of the day; it is the first
   * of the latest hits in table order.
   */
  lemma {:induction false} UpdateTargetsLatest(db: Tables, env: Env, u: UpdateArgs)
    requires u.id.None? && TruthyStr(u.matchText) && TruthyStr(u.dateLocal) && env.date(u.dateLocal.value).Some?
    requires Target(db, env, u).Ok?
    ensures var d := env.date(u.dateLocal.value).value;
            var text := u.matchText.value;
            exists k :: 0 <= k < |db.transactions| && db.transactions[k].id == Target(db, env, u).value
                        && Hit(env, text, d, db.transactions[k])
                        && (forall j :: 0 <= j < |db.transactions| && Hit(env, text, d, db.transactions[j]) ==>
                                          db.transactions[j].occurredAt <= db.transactions[k].occurredAt)
                        && (forall j :: 0 <= j < k && Hit(env, text, d, db.transactions[j]) ==>
                                          db.transactions[j].occurredAt < db.transactions[k].occurredAt)
  {
    var d := env.date(u.dateLocal.value).value;
    var k := LatestHit(db.transactions, env, u.matchText.value, d, |db.transactions|).value;
    assert db.transactions[k].id == Target(db, env, u).value;
  }

  /**
   * A committed update rewrites the rows with the target id, and only those; every other
   * row, and every other table, is as it was. The reply counts the rewritten rows.
   */
  lemma {:induction false} UpdateFrame(db: Tables, env: Env, u: UpdateArgs)
    requires UpdateTransaction(db, env, u).out.Ok?
    ensures var s := UpdateTransaction(db, env, u);
            var target := s.out.value.id;
            && target == Target(db, env, u).value
            && BindAll(env, CallSets(db, u)).Ok?
            && |s.db.transactions| == |db.transactions|
            && (forall i :: 0 <= i < |db.transactions| && db.transactions[i].id != target ==>
                              s.db.transactions[i] == db.transactions[i])
            && (forall i :: 0 <= i < |db.transactions| && db.transactions[i].id == target ==>
                              s.db.transactions[i] == ApplyAll(db.transactions[i], BindAll(env, CallSets(db, u)).value))
            && s.out.value.rowsAffected == CountId(db.transactions, target)
  {
  }

  /** The row after the change of one optional clause. */
  function StepRow(env: Env, tx: Transaction, o: Option<SetClause>): (r: Transaction)
    requires o.Some? ==> Bind(env, o.value).Ok?
    ensures o.None? ==> r == tx
    ensures o.Some? && o.value.SetAmount? ==> r == tx.(amount := o.value.amount)
    ensures o.Some? && o.value.SetType? ==> r == tx.(typeId := o.value.typeId)
    ensures o.Some? && o.value.SetCategory? ==> r == tx.(categoryId := CategoryValue(o.value.category))
    ensures o.Some? && o.value.SetDescription? ==> r == tx.(description := Some(o.value.description))
    ensures o.Some? && o.value.SetPayment? ==> r == tx.(paymentMethod := Some(o.value.paymentMethod))
    ensures o.Some? && o.value.SetStamp? ==> r == tx.(occurredAt := env.stamp(o.value.occurredAt).value)
  {
    if o.Some? then ApplyChange(tx, Bind(env, o.value).value) else tx
  }

  /** Binding and applying a list with an optional clause in front: that clause first, then the rest. */
  lemma PrepApply(env: Env, tx: Transaction, o: Option<SetClause>, rest: seq<SetClause>)
    requires BindAll(env, Prep(o, rest)).Ok?
    ensures (o.Some? ==> Bind(env, o.value).Ok?) && BindAll(env, rest).Ok?
    ensures ApplyAll(tx, BindAll(env, Prep(o, rest)).value) == ApplyAll(StepRow(env, tx, o), BindAll(env, rest).value)
  {
    if o.Some? {
      var cs := [o.value] + rest;
      assert cs[0] == o.value && cs[1..] == rest;
      var chs := BindAll(env, cs).value;
      assert chs[1..] == BindAll(env, rest).value;
    }
  }

  /** The value the `category_id` clause writes: NULL, the id, or the integer a text reads as. */
  function CategoryValue(rc: PyValue): Option<int> {
    match rc
    case PyNone => None
    case PyInt(i) => Some(i)
    case PyStr(t) => PgIntCast(t)
  }

  /**
   * Only the fields that are not `None` after resolution are written, each with its
   * argument as its column reads it; every other column keeps its value.
   */
  lemma {:induction false} PlannedRow(env: Env, tx: Transaction, u: UpdateArgs, rt: Option<int>, rc: PyValue)
    requires BindAll(env, PlannedSets(u, rt, rc)).Ok?
    ensures && (u.occurredAt.Some? ==> env.stamp(u.occurredAt.value).Some?)
            && (rc.PyStr? ==> PgIntCast(rc.s).Some?)
            && ApplyAll(tx, BindAll(env, PlannedSets(u, rt, rc)).value) ==
                 tx.(amount := if u.amount.Some? then u.amount.value else tx.amount,
                     typeId := if rt.Some? then rt.value else tx.typeId,
                     categoryId := if rc != PyNone then CategoryValue(rc) else tx.categoryId,
                     description := if u.description.Some? then u.description else tx.description,
                     paymentMethod := if u.paymentMethod.Some? then u.paymentMethod else tx.paymentMethod,
                     occurredAt := if u.occurredAt.Some? then env.stamp(u.occurredAt.value).value else tx.occurredAt)
  {
    PlannedChain(env, tx, u, rt, rc);
    var t1 := StepRow(env, tx, AmountClause(u));
    assert t1 == if u.amount.Some? then tx.(amount := u.amount.value) else tx;
    var t2 := StepRow(env, t1, TypeClause(rt));
    assert t2 == if rt.Some? then t1.(typeId := rt.value) else t1;
    var t3 := StepRow(env, t2, CategoryClause(rc));
    assert t3 == if rc != PyNone then t2.(categoryId := CategoryValue(rc)) else t2;
    var t4 := StepRow(env, t3, DescriptionClause(u));
    assert t4 == if u.description.Some? then t3.(description := u.description) else t3;
    var t5 := StepRow(env, t4, PaymentClause(u));
    assert t5 == if u.paymentMethod.Some? then t4.(paymentMethod := u.paymentMethod) else t4;
  }

  /** The planned clauses are applied one field after the other, in the order they were appended. */
  lemma {:induction false} PlannedChain(env: Env, tx: Transaction, u: UpdateArgs, rt: Option<int>, rc: PyValue)
    requires BindAll(env, PlannedSets(u, rt, rc)).Ok?
    ensures && Binds(env, AmountClause(u)) && Binds(env, TypeClause(rt)) && Binds(env, CategoryClause(rc))
            && Binds(env, DescriptionClause(u)) && Binds(env, PaymentClause(u)) && Binds(env, StampClause(u))
            && ApplyAll(tx, BindAll(env, PlannedSets(u, rt, rc)).value) ==
                 StepRow(env, StepRow(env, StepRow(env, StepRow(env, StepRow(env, StepRow(env, tx,
                   AmountClause(u)), TypeClause(rt)), CategoryClause(rc)), DescriptionClause(u)), PaymentClause(u)),
                   StampClause(u))
  {
    var r4 := Prep(DescriptionClause(u), Prep(PaymentClause(u), Prep(StampClause(u), [])));
    PrepApply3(env, tx, AmountClause(u), TypeClause(rt), CategoryClause(rc), r4);
    var t3 := StepRow(env, StepRow(env, StepRow(env, tx, AmountClause(u)), TypeClause(rt)), CategoryClause(rc));
    PrepApply3(env, t3, DescriptionClause(u), PaymentClause(u), StampClause(u), []);
  }

  /** Three optional clauses in front of the rest are applied one after the other, then the rest. */
  lemma PrepApply3(env: Env, tx: Transaction, a: Option<SetClause>, b: Option<SetClause>, c: Option<SetClause>,
                   rest: seq<SetClause>)
    requires BindAll(env, Prep(a, Prep(b, Prep(c, rest)))).Ok?
    ensures Binds(env, a) && Binds(env, b) && Binds(env, c) && BindAll(env, rest).Ok?
    ensures ApplyAll(tx, BindAll(env, Prep(a, Prep(b, Prep(c, rest)))).value)
            == ApplyAll(StepRow(env, StepRow(env, StepRow(env, tx, a), b), c), BindAll(env, rest).value)
  {
    PrepApply(env, tx, a, Prep(b, Prep(c, rest)));
    var t1 := StepRow(env, tx, a);
    PrepApply(env, t1, b, Prep(c, rest));
    PrepApply(env, StepRow(env, t1, b), c, rest);
  }

  /** An optional clause that binds, if there is one. */
  predicate Binds(env: Env, o: Option<SetClause>) {
    o.Some? ==> Bind(env, o.value).Ok?
  }

  /**
   * The target row after a committed update: the fields that are not `None` after
   * resolution carry their arguments, and the other columns, the id and the
   * `source_text` among them, are unchanged.
   */
  lemma {:induction false} UpdatedFields(db: Tables, env: Env, u: UpdateArgs, i: int)
    requires UpdateTransaction(db, env, u).out.Ok?
    requires 0 <= i < |db.transactions| && db.transactions[i].id == UpdateTransaction(db, env, u).out.value.id
    ensures var was := db.transactions[i];
            var rt := ResolvedType(db.types, u);
            var rc := ResolvedCategory(db.categories, u);
            && (u.occurredAt.Some? ==> env.stamp(u.occurredAt.value).Some?)
            && UpdateTransaction(db, env, u).db.transactions[i] ==
                 was.(amount := if u.amount.Some? then u.amount.value else was.amount,
                      typeId := if rt.Some? then rt.value else was.typeId,
                      categoryId := if rc != PyNone then CategoryValue(rc) else was.categoryId,
                      description := if u.description.Some? then u.description else was.description,
                      paymentMethod := if u.paymentMethod.Some? then u.paymentMethod else was.paymentMethod,
                      occurredAt := if u.occurredAt.Some? then env.stamp(u.occurredAt.value).value else was.occurredAt)
  {
    UpdateFrame(db, env, u);
    PlannedRow(env, db.transactions[i], u, ResolvedType(db.types, u), ResolvedCategory(db.categories, u));
  }

  /**
   * The quirk of the category name: given without a truthy `category_id`, the name is
   * written into the integer column, so a name with a letter in it makes the `UPDATE`
   * raise and the call roll back, whatever the category table holds.
   */
  lemma {:induction false} CategoryNameRaises(db: Tables, env: Env, u: UpdateArgs, k: nat)
    requires TruthyStr(u.categoryName) && !TruthyInt(u.categoryId)
    requires k < |u.categoryName.value|
    requires 'a' <= u.categoryName.value[k] <= 'z' || 'A' <= u.categoryName.value[k] <= 'Z'
    requires Target(db, env, u).Ok?
    ensures UpdateTransaction(db, env, u) == Step(db, Err(Db(BadInteger)))
  {
    var name := u.categoryName.value;
    var rt := ResolvedType(db.types, u);
    CategoryNameIsTheId(db.categories, u);
    CastRejectsLetter(name, k);
    var r4 := Prep(DescriptionClause(u), Prep(PaymentClause(u), Prep(StampClause(u), [])));
    var r3 := Prep(CategoryClause(PyStr(name)), r4);
    assert BindAll(env, r3) == Err(Db(BadInteger)) by {
      assert r3 == [SetCategory(PyStr(name))] + r4;
    }
    PrepKeepsError(env, TypeClause(rt), r3);
    PrepKeepsError(env, AmountClause(u), Prep(TypeClause(rt), r3));
  }

  /** A clause that binds does not change which error the clauses after it raise. */
  lemma PrepKeepsError(env: Env, o: Option<SetClause>, rest: seq<SetClause>)
    requires o.Some? ==> Bind(env, o.value).Ok?
    requires BindAll(env, rest).Err?
    ensures BindAll(env, Prep(o, rest)) == BindAll(env, rest)
  {
    if o.Some? {
      assert ([o.value] + rest)[1..] == rest;
    }
  }

  /** A type name that resolves to nothing, given alone, leaves no field to set. */
  lemma UnresolvedTypeAlone(db: Tables, env: Env, u: UpdateArgs)
    requires TruthyStr(u.typeName) && ResolveTypeId(db.types, u.typeId, u.typeName, false).None?
    requires u.amount.None? && u.categoryId.None? && u.categoryName.None? && u.description.None?
    requires u.paymentMethod.None? && u.occurredAt.None?
    requires Target(db, env, u).Ok?
    ensures UpdateTransaction(db, env, u) == Step(db, Err(NoValidField))
  {
  }

  /**
   * On a valid store, the record the `SELECT` returns for a stored id is that row, with
   * the name of its type and the name of its category, NULL exactly when it has none.
   */
  lemma DetailOfStored(db: Tables, i: int)
    requires Valid(db)
    requires 0 <= i < |db.transactions|
    ensures var tx := db.transactions[i];
            && TypeName(db.types, tx.typeId).Some?
            && DetailOf(db, tx.id) == Some(Detail(tx.id, tx.occurredAt, tx.amount, TypeName(db.types, tx.typeId).value,
                                                  CategoryName(db.categories, tx.categoryId),
                                                  tx.description, tx.paymentMethod, tx.sourceText))
            && (CategoryName(db.categories, tx.categoryId).None? <==> tx.categoryId.None?)
  {
    var tx := db.transactions[i];
    assert RowOk(db, tx);
    var d := DetailOf(db, tx.id);
    assert d.Some?;
    var k :| 0 <= k < |db.transactions| && db.transactions[k].id == tx.id
             && var t := db.transactions[k];
             TypeName(db.types, t.typeId) == Some(d.value.typeName)
             && d.value == Detail(t.id, t.occurredAt, t.amount, d.value.typeName,
                                  CategoryName(db.categories, t.categoryId),
                                  t.description, t.paymentMethod, t.sourceText);
    assert k == i;
  }

  /** A committed update keeps every row's id, so the rows with the target id are the same before and after. */
  lemma UpdateKeepsIds(db: Tables, env: Env, u: UpdateArgs)
    requires UpdateTransaction(db, env, u).out.Ok?
    ensures |UpdateTransaction(db, env, u).db.transactions| == |db.transactions|
    ensures forall i :: 0 <= i < |db.transactions| ==>
                          UpdateTransaction(db, env, u).db.transactions[i].id == db.transactions[i].id
  {
    UpdateFrame(db, env, u);
  }

  /**
   * The `updated` record of a committed update on a valid store: `None` exactly when no
   * row has the target id.
   */
  lemma {:induction false} UpdateReplyAbsent(db: Tables, env: Env, u: UpdateArgs)
    requires Valid(db)
    requires UpdateTransaction(db, env, u).out.Ok?
    ensures var r := UpdateTransaction(db, env, u).out.value;
            r.updated.None? <==> forall i :: 0 <= i < |db.transactions| ==> db.transactions[i].id != r.id
  {
    var s := UpdateTransaction(db, env, u);
    var r := s.out.value;
    assert r.updated == DetailOf(s.db, r.id);
    UpdateKeepsIds(db, env, u);
    if i :| 0 <= i < |db.transactions| && db.transactions[i].id == r.id {
      UpdateValid(db, env, u);
      DetailOfStored(s.db, i);
    }
  }

  /**
   * Otherwise `updated` is the rewritten row as `UpdatedFields` gives it, joined with the
   * name of its (new) type and the name of its (new) category, which is NULL exactly
   * when the row's category is.
   */
  lemma {:induction false} UpdateReply(db: Tables, env: Env, u: UpdateArgs, i: int)
    requires Valid(db)
    requires UpdateTransaction(db, env, u).out.Ok?
    requires 0 <= i < |db.transactions| && db.transactions[i].id == UpdateTransaction(db, env, u).out.value.id
    ensures var r := UpdateTransaction(db, env, u).out.value;
            var was := db.transactions[i];
            var rt := ResolvedType(db.types, u);
            var rc := ResolvedCategory(db.categories, u);
            var cat := if rc != PyNone then CategoryValue(rc) else was.categoryId;
            && (u.occurredAt.Some? ==> env.stamp(u.occurredAt.value).Some?)
            && r.updated.Some?
            && r.updated.value.id == r.id
            && r.updated.value.amount == (if u.amount.Some? then u.amount.value else was.amount)
            && r.updated.value.occurredAt
                 == (if u.occurredAt.Some? then env.stamp(u.occurredAt.value).value else was.occurredAt)
            && Some(r.updated.value.typeName) == TypeName(db.types, if rt.Some? then rt.value else was.typeId)
            && r.updated.value.categoryName == CategoryName(db.categories, cat)
            && (r.updated.value.categoryName.None? <==> cat.None?)
            && r.updated.value.description == (if u.description.Some? then u.description else was.description)
            && r.updated.value.paymentMethod
                 == (if u.paymentMethod.Some? then u.paymentMethod else was.paymentMethod)
            && r.updated.value.sourceText == was.sourceText
  {
    var s := UpdateTransaction(db, env, u);
    var r := s.out.value;
    assert r.updated == DetailOf(s.db, r.id);
    assert s.db.types == db.types && s.db.categories == db.categories;
    UpdateValid(db, env, u);
    UpdatedFields(db, env, u, i);
    DetailOfStored(s.db, i);
  }

  /** Updates keep the ids unique and the foreign keys intact. */
  lemma {:induction false} UpdateValid(db: Tables, env: Env, u: UpdateArgs)
    requires Valid(db)
    ensures Valid(UpdateTransaction(db, env, u).db)
  {
    var s := UpdateTransaction(db, env, u);
    if s.out.Ok? {
      UpdateFrame(db, env, u);
      var target := s.out.value.id;
      var chs := BindAll(env, CallSets(db, u)).value;
      var rows := s.db.transactions;
      assert rows == UpdateRows(db.transactions, target, chs);
      assert UpdateKeysOk(db, rows, target);
      forall i | 0 <= i < |rows| ensures rows[i].id == db.transactions[i].id && RowOk(s.db, rows[i]) {
      }
    }
  }

  /** On a valid store at most one row is rewritten, and one is exactly when the id is stored. */
  lemma {:induction false} RowsAffectedAtMostOne(rows: seq<Transaction>, target: int)
    requires UniqueTransactionIds(rows)
    ensures CountId(rows, target) <= 1
    ensures CountId(rows, target) == 1 <==> exists i :: 0 <= i < |rows| && rows[i].id == target
  {
    if rows != [] {
      assert UniqueTransactionIds(rows[1..]) by {
        forall i, j | 0 <= i < j < |rows[1..]| ensures rows[1..][i].id != rows[1..][j].id {
          assert rows[1..][i] == rows[i + 1] && rows[1..][j] == rows[j + 1];
        }
      }
      RowsAffectedAtMostOne(rows[1..], target);
      if rows[0].id == target {
        forall i | 0 <= i < |rows[1..]| ensures rows[1..][i].id != target {
          assert rows[1..][i] == rows[i + 1];
        }
      }
      assert forall i :: 1 <= i < |rows| ==> rows[i] == rows[1..][i - 1];
    }
  }
}
