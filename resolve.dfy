/**
 * The lookups `add_transaction` and `update_transaction` make before they write:
 * `_resolve_type_id` (both versions), `normalize` and `_resolve_category_id`.
 */
module Resolve {
  import opened Wrappers
  import opened Text
  import opened LedgerData

  // ---------------------------------------------------------------------------
  // Transaction types
  // ---------------------------------------------------------------------------

  /** The aliases a type name is mapped through, after `strip().upper()`. */
  const TYPE_LIST: map<string, string> := map[
    "INCOME" := "INCOME", "ENTRADA" := "INCOME", "RECEITA" := "INCOME", "S\U{C1}LARIO" := "INCOME",
    "EXPENSE" := "EXPENSES", "EXPENSES" := "EXPENSES", "DESPESA" := "EXPENSES", "GASTO" := "EXPENSES",
    "TRANSFER" := "TRANSFER", "TRANSFER\U{CA}NCIA" := "TRANSFER", "TRANSFERENCIA" := "TRANSFER"]

  /** The type id used when neither a name nor a truthy id is given. */
  const DEFAULT_TYPE: int := 2

  /** `SELECT id FROM transaction_types WHERE UPPER(type) = t LIMIT 1`, taking rows in table order. */
  function FindTypeId(types: seq<TransactionType>, t: string): (r: Option<int>)
    ensures r.None? <==> forall k :: 0 <= k < |types| ==> ToUpper(types[k].name) != t
    ensures r.Some? ==> exists k :: 0 <= k < |types| && types[k].id == r.value && ToUpper(types[k].name) == t
  {
    FindTypeIdFrom(types, t, 0)
  }

  /** The id of the first row at or after `from` whose upper-cased type is `t`. */
  function FindTypeIdFrom(types: seq<TransactionType>, t: string, from: nat): (r: Option<int>)
    requires from <= |types|
    decreases |types| - from
    ensures r.None? <==> forall k :: from <= k < |types| ==> ToUpper(types[k].name) != t
    ensures r.Some? ==> exists k :: from <= k < |types| && types[k].id == r.value && ToUpper(types[k].name) == t
  {
    if from == |types| then None
    else if ToUpper(types[from].name) == t then Some(types[from].id)
    else FindTypeIdFrom(types, t, from + 1)
  }

  /** The alias step of `aula7/pg_tools.py`. */
  function Alias(t: string): string {
    if t in TYPE_LIST then TYPE_LIST[t] else t
  }

  /** The alias step of `pg_tools.py`: only `EXPENSE` is mapped. */
  function LegacyAlias(t: string): string {
    if t == "EXPENSE" then "EXPENSES" else t
  }

  /** The key a type name is looked up under, given the alias step in use. */
  function TypeKey(name: string, legacy: bool): string {
    var t := ToUpper(Strip(name));
    if legacy then LegacyAlias(t) else Alias(t)
  }

  /**
   * `_resolve_type_id(cur, type_id, type_name)`: a non-empty name is trimmed, upper-cased,
   * aliased and looked up (no match gives `None`); otherwise a truthy id is returned as it
   * is; otherwise the default, 2. With `legacy`, the alias step of `pg_tools.py`.
   */
  function ResolveTypeId(types: seq<TransactionType>, typeId: Option<int>, typeName: Option<string>,
                         legacy: bool): (r: Option<int>)
    ensures r.None? <==> TruthyStr(typeName) && forall k :: 0 <= k < |types| ==>
                                                   ToUpper(types[k].name) != TypeKey(typeName.value, legacy)
    ensures TruthyStr(typeName) && r.Some? ==>
              exists k :: 0 <= k < |types| && types[k].id == r.value && ToUpper(types[k].name) == TypeKey(typeName.value, legacy)
    ensures !TruthyStr(typeName) && TruthyInt(typeId) ==> r == typeId
    ensures !TruthyStr(typeName) && !TruthyInt(typeId) ==> r == Some(DEFAULT_TYPE)
  {
    if TruthyStr(typeName) then FindTypeId(types, TypeKey(typeName.value, legacy))
    else if TruthyInt(typeId) then typeId
    else Some(DEFAULT_TYPE)
  }

  /**
   * A name decides the type on its own: the id argument is ignored, and the result is
   * either `None` or the id of a row whose upper-cased type is the aliased name.
   */
  lemma {:induction false} NameDecidesType(types: seq<TransactionType>, a: Option<int>, b: Option<int>,
                                           name: string, legacy: bool)
    requires name != []
    ensures ResolveTypeId(types, a, Some(name), legacy) == ResolveTypeId(types, b, Some(name), legacy)
    ensures var r := ResolveTypeId(types, a, Some(name), legacy);
            r.None? || exists k :: 0 <= k < |types| && types[k].id == r.value
                                   && ToUpper(types[k].name) == TypeKey(name, legacy)
  {
  }

  /** Without a name, `type_id = 0` counts as absent and gives the default id. */
  lemma ZeroTypeIdDefaults(types: seq<TransactionType>, legacy: bool)
    ensures ResolveTypeId(types, Some(0), None, legacy) == Some(DEFAULT_TYPE)
    ensures ResolveTypeId(types, None, Some(""), legacy) == Some(DEFAULT_TYPE)
  {
  }

  /** The alias table maps every key onto one of the three canonical type names. */
  lemma AliasCanonical(t: string)
    requires t in TYPE_LIST
    ensures Alias(t) in {"INCOME", "EXPENSES", "TRANSFER"}
  {
  }

  /** Both versions agree on every name whose alias step gives the same key. */
  lemma {:induction false} LegacyAgrees(types: seq<TransactionType>, typeId: Option<int>, typeName: Option<string>)
    requires TruthyStr(typeName) ==> Alias(ToUpper(Strip(typeName.value))) == LegacyAlias(ToUpper(Strip(typeName.value)))
    ensures ResolveTypeId(types, typeId, typeName, false) == ResolveTypeId(types, typeId, typeName, true)
  {
  }

  /** Some row's upper-cased type is `c`. */
  predicate HasType(types: seq<TransactionType>, c: string) {
    exists k :: 0 <= k < |types| && ToUpper(types[k].name) == c
  }

  /**
   * When the three canonical types are present, every alias key resolves, in the current
   * version, to a row of its canonical type.
   */
  lemma {:induction false} AliasResolves(types: seq<TransactionType>, key: string)
    requires HasType(types, "INCOME") && HasType(types, "EXPENSES") && HasType(types, "TRANSFER")
    requires key in TYPE_LIST
    ensures var r := FindTypeId(types, Alias(key));
            r.Some? && exists k :: 0 <= k < |types| && types[k].id == r.value && ToUpper(types[k].name) == TYPE_LIST[key]
  {
    AliasCanonical(key);
    var c := Alias(key);
    assert HasType(types, c);
  }

  /** `gasto` and its case variants are EXPENSES for the current version; the legacy version looks up `GASTO`. */
  lemma GastoAlias(name: string)
    requires ToUpper(Strip(name)) == "GASTO"
    ensures TypeKey(name, false) == "EXPENSES"
    ensures TypeKey(name, true) == "GASTO"
  {
  }

  /**
   * The alias key is spelled `SÁLARIO`, so a name that upper-cases to `SALÁRIO` (Python's
   * upper case of `salário`) is not aliased and is looked up as it is.
   */
  lemma SalarioNotAliased(name: string)
    requires ToUpper(Strip(name)) == "SAL\U{C1}RIO"
    ensures TypeKey(name, false) == "SAL\U{C1}RIO"
  {
    assert "SAL\U{C1}RIO"[1] != "S\U{C1}LARIO"[1];
  }

  // ---------------------------------------------------------------------------
  // Categories
  // ---------------------------------------------------------------------------

  /** `normalize(text)`: upper-case, decompose (NFD), drop the combining marks. */
  function Normalize(s: string): (r: string)
    ensures forall i :: 0 <= i < |r| ==> !IsMn(r[i])
  {
    RemoveMarks(ToUpper(s))
  }

  /** A normalised text is its own upper case. */
  lemma NormalizeUpper(s: string)
    ensures ToUpper(Normalize(s)) == Normalize(s)
  {
    ToUpperStable(s);
    RemoveMarksStable(ToUpper(s));
    ToUpperOfStable(Normalize(s));
  }

  /** Normalising twice is normalising once. */
  lemma NormalizeIdempotent(s: string)
    ensures Normalize(Normalize(s)) == Normalize(s)
  {
    NormalizeUpper(s);
    RemoveMarksIdempotent(ToUpper(s));
  }

  /**
   * Case and diacritics do not matter: upper-casing first changes nothing, and on
   * tabulated text neither does stripping marks first.
   */
  lemma NormalizeInsensitive(s: string)
    ensures Normalize(ToUpper(s)) == Normalize(s)
    ensures (forall i :: 0 <= i < |s| ==> Tabulated(s[i])) ==> Normalize(RemoveMarks(s)) == Normalize(s)
  {
    ToUpperIdempotent(s);
    if forall i :: 0 <= i < |s| ==> Tabulated(s[i]) {
      UpperCommutes(s);
      RemoveMarksIdempotent(ToUpper(s));
    }
  }

  /** The `(normalize(name), id)` pairs of the category rows, in table order. */
  function Entries(cats: seq<Category>): (es: seq<(string, int)>)
    ensures |es| == |cats|
    ensures forall k :: 0 <= k < |cats| ==> es[k] == (Normalize(cats[k].name), cats[k].id)
  {
    seq(|cats|, k requires 0 <= k < |cats| => (Normalize(cats[k].name), cats[k].id))
  }

  /** `es[k]` is the last pair with key `key`. */
  predicate LastKey(es: seq<(string, int)>, k: int, key: string) {
    0 <= k < |es| && es[k].0 == key && forall j :: k < j < |es| ==> es[j].0 != key
  }

  /** A dict built from pairs in order: a later pair overwrites an earlier one with the same key. */
  function DictOf(es: seq<(string, int)>): map<string, int> {
    if es == [] then map[] else DictOf(es[..|es| - 1])[es[|es| - 1].0 := es[|es| - 1].1]
  }

  /** The dict has a key for every pair's key, and no other. */
  lemma {:induction false} DictOfKeys(es: seq<(string, int)>)
    ensures forall key :: key in DictOf(es) <==> exists k :: 0 <= k < |es| && es[k].0 == key
  {
    if es != [] {
      var n := |es| - 1;
      DictOfKeys(es[..n]);
      assert forall k :: 0 <= k < n ==> es[..n][k] == es[k];
    }
  }

  /** Under each key, the dict holds the value of the last pair with that key. */
  lemma {:induction false} DictOfLast(es: seq<(string, int)>)
    ensures forall key :: key in DictOf(es) ==> exists k :: LastKey(es, k, key) && es[k].1 == DictOf(es)[key]
  {
    if es != [] {
      var n := |es| - 1;
      var init := es[..n];
      DictOfLast(init);
      forall key | key in DictOf(es)
        ensures exists k :: LastKey(es, k, key) && es[k].1 == DictOf(es)[key]
      {
        if key == es[n].0 {
          assert LastKey(es, n, key);
        } else {
          var k :| LastKey(init, k, key) && init[k].1 == DictOf(init)[key];
          assert init[k] == es[k];
          forall j | k < j < |es| ensures es[j].0 != key {
            if j < n {
              assert es[j] == init[j];
            }
          }
          assert LastKey(es, k, key);
        }
      }
    }
  }

  /** Exactly one pair is the last with a given key. */
  lemma LastKeyUnique(es: seq<(string, int)>, k: int, j: int, key: string)
    requires LastKey(es, k, key) && LastKey(es, j, key)
    ensures k == j
  {
  }

  /** `CATEGORY_MAP = {normalize(name): id_ for id_, name in rows}`. */
  function CategoryMap(cats: seq<Category>): map<string, int> {
    DictOf(Entries(cats))
  }

  /** `cats[k]` is the last row whose normalised name is `key`. */
  predicate LastNamed(cats: seq<Category>, k: int, key: string) {
    0 <= k < |cats| && Normalize(cats[k].name) == key
    && forall j :: k < j < |cats| ==> Normalize(cats[j].name) != key
  }

  /** The category map has a key for each row's normalised name, holding the id of the last row with it. */
  lemma {:induction false} CategoryMapMeaning(cats: seq<Category>, key: string)
    ensures key in CategoryMap(cats) <==> exists k :: 0 <= k < |cats| && Normalize(cats[k].name) == key
    ensures key in CategoryMap(cats) ==> exists k :: LastNamed(cats, k, key) && cats[k].id == CategoryMap(cats)[key]
    ensures forall k, j :: LastNamed(cats, k, key) && LastNamed(cats, j, key) ==> k == j
  {
    var es := Entries(cats);
    DictOfKeys(es);
    DictOfLast(es);
    if key in CategoryMap(cats) {
      var k :| LastKey(es, k, key) && es[k].1 == DictOf(es)[key];
      assert LastNamed(cats, k, key);
    }
    if exists k :: 0 <= k < |cats| && Normalize(cats[k].name) == key {
      var k :| 0 <= k < |cats| && Normalize(cats[k].name) == key;
      assert es[k].0 == key;
    }
  }

  /**
   * `_resolve_category_id(cur, category_id, category_name)`: a truthy `category_id` is
   * returned as it is; otherwise a non-empty name is trimmed, normalised and looked up in
   * the category map, and a truthy id found there is returned; otherwise `None`. It never
   * raises.
   */
  function ResolveCategoryId(cats: seq<Category>, categoryId: PyValue, categoryName: Option<string>): (r: PyValue)
    ensures TruthyValue(categoryId) ==> r == categoryId
    ensures !TruthyValue(categoryId) && !TruthyStr(categoryName) ==> r == PyNone
    ensures !TruthyValue(categoryId) && TruthyStr(categoryName) ==>
              var key := Normalize(Strip(categoryName.value));
              && (r != PyNone ==> r.PyInt? && r.i != 0 && exists k :: LastNamed(cats, k, key) && cats[k].id == r.i)
              && (r == PyNone <==> forall k :: LastNamed(cats, k, key) ==> cats[k].id == 0)
  {
    if TruthyValue(categoryId) then categoryId
    else if TruthyStr(categoryName) then
      var key := Normalize(Strip(categoryName.value));
      var m := CategoryMap(cats);
      CategoryMapMeaning(cats, key);
      if key in m && m[key] != 0 then PyInt(m[key])
      else PyNone
    else PyNone
  }
}
