/**
 * db.ts: the IndexedDB store of the program, two keyed tables held by one
 * object.  The storage engine is not modelled: a table is a map from primary
 * key to row (expenses keyed by id, thresholds keyed by category).
 */
module Db {
  import opened Results
  import opened JsRuntime
  import opened Constants
  import opened Types

  // ---------------------------------------------------------------- keyed writes

  /** The last row of `rows` whose key is `k`. */
  function LastWithKey<K(==), V>(rows: seq<V>, key: V -> K, k: K): (r: Option<V>)
    ensures r.Some? ==> r.value in rows && key(r.value) == k
    ensures r.None? ==> forall v :: v in rows ==> key(v) != k
  {
    if rows == [] then None
    else if key(rows[|rows| - 1]) == k then Some(rows[|rows| - 1])
    else LastWithKey(rows[..|rows| - 1], key, k)
  }

  /** Table.bulkPut: each row is written under its key, in order, so a later row replaces an earlier one. */
  function PutAll<K(==), V>(table: map<K, V>, rows: seq<V>, key: V -> K): map<K, V> {
    if rows == [] then table
    else PutAll(table, rows[..|rows| - 1], key)[key(rows[|rows| - 1]) := rows[|rows| - 1]]
  }

  /** After bulkPut a key holds the last row written under it, or its old row when no row had that key. */
  lemma {:induction false} PutAllSpec<K, V>(table: map<K, V>, rows: seq<V>, key: V -> K, k: K)
    ensures k in PutAll(table, rows, key) <==> k in table || LastWithKey(rows, key, k).Some?
    ensures LastWithKey(rows, key, k).Some? ==> PutAll(table, rows, key)[k] == LastWithKey(rows, key, k).value
    ensures LastWithKey(rows, key, k).None? && k in table ==> PutAll(table, rows, key)[k] == table[k]
  {
    if rows != [] {
      PutAllSpec(table, rows[..|rows| - 1], key, k);
    }
  }

  /** A table whose rows sit under their own key. */
  ghost predicate Keyed<K, V>(table: map<K, V>, key: V -> K) {
    forall k :: k in table ==> key(table[k]) == k
  }

  /** A row of the list has a last row with its key. */
  lemma {:induction false} LastWithKeyOfMember<K, V>(rows: seq<V>, key: V -> K, v: V)
    requires v in rows
    ensures LastWithKey(rows, key, key(v)).Some?
  {
    if rows[|rows| - 1] != v {
      assert v in rows[..|rows| - 1];
      LastWithKeyOfMember(rows[..|rows| - 1], key, v);
    }
  }

  /** bulkPut keeps every row under its own key. */
  lemma PutAllKeyed<K, V>(table: map<K, V>, rows: seq<V>, key: V -> K)
    requires Keyed(table, key)
    ensures Keyed(PutAll(table, rows, key), key)
  {
    forall k | k in PutAll(table, rows, key)
      ensures key(PutAll(table, rows, key)[k]) == k
    {
      PutAllSpec(table, rows, key, k);
    }
  }

  /** The last of rows with pairwise distinct keys that has key `key(rows[i])` is rows[i]. */
  lemma {:induction false} LastWithDistinctKey<K, V>(rows: seq<V>, key: V -> K, i: nat)
    requires i < |rows|
    requires forall a, b :: 0 <= a < b < |rows| ==> key(rows[a]) != key(rows[b])
    ensures LastWithKey(rows, key, key(rows[i])) == Some(rows[i])
  {
    if i < |rows| - 1 {
      LastWithDistinctKey(rows[..|rows| - 1], key, i);
    }
  }

  function ExpenseKey(e: CategorizedExpense): string {
    e.id
  }

  function ThresholdKey(t: Threshold): string {
    t.category
  }

  /** `cats.map(cat => ({ category: cat, amount: 0 }))`. */
  function ZeroThresholds(cats: seq<string>): (r: seq<Threshold>)
    ensures |r| == |cats|
    ensures forall i :: 0 <= i < |r| ==> r[i] == Threshold(cats[i], 0.0)
  {
    seq(|cats|, i requires 0 <= i < |cats| => Threshold(cats[i], 0.0))
  }

  // ---------------------------------------------------------------- seeding

  /** `DEFAULT_CATEGORIES.filter(cat => !existing.includes(cat))`, order kept. */
  function CategoriesToSeed(cats: seq<string>, existing: set<string>): (r: seq<string>)
    ensures |r| <= |cats|
    ensures forall c :: c in r <==> c in cats && c !in existing
  {
    if cats == [] then []
    else
      var last := cats[|cats| - 1];
      CategoriesToSeed(cats[..|cats| - 1], existing) + (if last in existing then [] else [last])
  }

  /** One more category is seeded, at the end, exactly when it has no row: the filter keeps the order. */
  lemma CategoriesToSeedSnoc(cats: seq<string>, c: string, existing: set<string>)
    ensures CategoriesToSeed(cats + [c], existing)
            == CategoriesToSeed(cats, existing) + (if c in existing then [] else [c])
  {
    assert (cats + [c])[..|cats|] == cats;
  }

  /** The threshold table once every category without a row has a row with amount 0. */
  function Seeded(thresholds: map<string, Threshold>): map<string, Threshold> {
    thresholds + map c | c in DefaultCategories && c !in thresholds :: Threshold(c, 0.0)
  }

  /**
   * Seeding gives every category a row, adds only rows with amount 0 for the
   * missing categories, leaves every existing row (of a category or not)
   * untouched, and leaves nothing more to seed.
   */
  lemma SeededSpec(thresholds: map<string, Threshold>)
    ensures forall c :: IsCategory(c) ==> c in Seeded(thresholds)
    ensures forall c :: c in Seeded(thresholds) <==> c in thresholds || IsCategory(c)
    ensures forall c :: c in thresholds ==> Seeded(thresholds)[c] == thresholds[c]
    ensures forall c :: c in Seeded(thresholds) && c !in thresholds ==> Seeded(thresholds)[c] == Threshold(c, 0.0)
    ensures CategoriesToSeed(DefaultCategories, Seeded(thresholds).Keys) == []
  {
    NothingToSeed(DefaultCategories, Seeded(thresholds).Keys);
  }

  /** When every category already has a row there is nothing to seed. */
  lemma {:induction false} NothingToSeed(cats: seq<string>, existing: set<string>)
    requires forall c :: c in cats ==> c in existing
    ensures CategoriesToSeed(cats, existing) == []
  {
    if cats != [] {
      NothingToSeed(cats[..|cats| - 1], existing);
    }
  }

  /** Seeding twice is seeding once. */
  lemma SeededIdempotent(thresholds: map<string, Threshold>)
    ensures Seeded(Seeded(thresholds)) == Seeded(thresholds)
  {
    SeededSpec(thresholds);
    SeededSpec(Seeded(thresholds));
  }

  /** The last zero row written for `k` is the one of category `k`, when `k` is listed. */
  lemma {:induction false} LastZeroRow(cats: seq<string>, k: string)
    ensures LastWithKey(ZeroThresholds(cats), ThresholdKey, k)
            == if k in cats then Some(Threshold(k, 0.0)) else None
  {
    var rows := ZeroThresholds(cats);
    if cats != [] {
      var n := |cats| - 1;
      assert rows[..n] == ZeroThresholds(cats[..n]);
      LastZeroRow(cats[..n], k);
      assert cats == cats[..n] + [cats[n]];
    }
  }

  /** Adding a zero row for each listed category is the seeded table. */
  lemma PutZeroRowsSeeds(thresholds: map<string, Threshold>)
    ensures PutAll(thresholds, ZeroThresholds(CategoriesToSeed(DefaultCategories, thresholds.Keys)), ThresholdKey)
            == Seeded(thresholds)
  {
    var seed := CategoriesToSeed(DefaultCategories, thresholds.Keys);
    var rows := ZeroThresholds(seed);
    var put := PutAll(thresholds, rows, ThresholdKey);
    forall k | true
      ensures k in put <==> k in Seeded(thresholds)
      ensures k in put ==> put[k] == Seeded(thresholds)[k]
    {
      PutAllSpec(thresholds, rows, ThresholdKey, k);
      LastZeroRow(seed, k);
    }
  }

  // ---------------------------------------------------------------- the store

  class ReceiptDb {
    var expenses: map<string, CategorizedExpense>
    var thresholds: map<string, Threshold>

    /** Every row sits under its primary key: an expense under its id, a threshold under its category. */
    ghost predicate Valid()
      reads this
    {
      Keyed(expenses, ExpenseKey) && Keyed(thresholds, ThresholdKey)
    }

    /** A freshly created, empty store. */
    constructor()
      ensures Valid()
      ensures expenses == map[] && thresholds == map[]
    {
      expenses := map[];
      thresholds := map[];
    }

    /** `db.expenses.bulkPut(rows)`. */
    method BulkPutExpenses(rows: seq<CategorizedExpense>)
      requires Valid()
      modifies this
      ensures Valid()
      ensures expenses == PutAll(old(expenses), rows, ExpenseKey)
      ensures thresholds == old(thresholds)
    {
      PutAllKeyed(expenses, rows, ExpenseKey);
      expenses := PutAll(expenses, rows, ExpenseKey);
    }

    /** `db.thresholds.bulkPut(rows)`. */
    method BulkPutThresholds(rows: seq<Threshold>)
      requires Valid()
      modifies this
      ensures Valid()
      ensures thresholds == PutAll(old(thresholds), rows, ThresholdKey)
      ensures expenses == old(expenses)
    {
      PutAllKeyed(thresholds, rows, ThresholdKey);
      thresholds := PutAll(thresholds, rows, ThresholdKey);
    }

    /** `db.expenses.add(e)`: refused, with the store unchanged, when the id is taken. */
    method AddExpense(e: CategorizedExpense) returns (added: bool)
      requires Valid()
      modifies this
      ensures Valid()
      ensures added <==> e.id !in old(expenses)
      ensures expenses == if added then old(expenses)[e.id := e] else old(expenses)
      ensures thresholds == old(thresholds)
    {
      if e.id in expenses {
        return false;
      }
      expenses := expenses[e.id := e];
      return true;
    }

    /**
     * populateInitialThresholds: every category without a threshold row gets
     * one with amount 0.  A failing read of the table (outside the try)
     * rejects, with nothing written; when the bulk add fails, the error is
     * only logged and the table is as it was.
     */
    method PopulateInitialThresholds(readFails: bool, addFails: bool) returns (rejected: bool)
      requires Valid()
      modifies this
      ensures Valid()
      ensures rejected == readFails
      ensures expenses == old(expenses)
      ensures thresholds == if readFails || addFails then old(thresholds) else Seeded(old(thresholds))
    {
      if readFails {
        return true;
      }
      // With every row under its own category, the categories read back are the keys.
      var existing := thresholds.Keys;
      var toSeed := CategoriesToSeed(DefaultCategories, existing);
      if |toSeed| > 0 {
        if !addFails {
          PutZeroRowsSeeds(thresholds);
          BulkPutThresholds(ZeroThresholds(toSeed));
        }
      } else {
        SeededSpec(thresholds);
        assert Seeded(thresholds) == thresholds;
      }
      return false;
    }
  }
}
