/**
 * services/thresholdService.ts: reading and writing the threshold table as
 * exactly one threshold per category, in the order of the enumeration.
 */
module ThresholdService {
  import opened Results
  import opened JsRuntime
  import opened Constants
  import opened Types
  import opened Db

  // ---------------------------------------------------------------- getThresholds

  /** What a table reads as: each category's stored row, or a row with amount 0, in enumeration order. */
  function TableThresholds(table: map<string, Threshold>): (r: seq<Threshold>)
    ensures |r| == |DefaultCategories|
  {
    seq(|DefaultCategories|, i requires 0 <= i < |DefaultCategories| =>
      var c := DefaultCategories[i];
      if c in table then table[c] else Threshold(c, 0.0))
  }

  /**
   * The read list has one entry per category, in enumeration order; a stored
   * row supplies its category's entry and a category without one reads as 0.
   */
  lemma TableThresholdsSpec(table: map<string, Threshold>)
    requires Keyed(table, ThresholdKey)
    ensures forall i :: 0 <= i < |DefaultCategories| ==> TableThresholds(table)[i].category == DefaultCategories[i]
    ensures forall i :: 0 <= i < |DefaultCategories| && DefaultCategories[i] in table ==>
              TableThresholds(table)[i] == table[DefaultCategories[i]]
    ensures forall i :: 0 <= i < |DefaultCategories| && DefaultCategories[i] !in table ==>
              TableThresholds(table)[i].amount == 0.0
  {
  }

  /** Rows of a category outside the enumeration are never read. */
  lemma ForeignRowsIgnored(table: map<string, Threshold>, row: Threshold)
    requires !IsCategory(row.category)
    ensures TableThresholds(table[row.category := row]) == TableThresholds(table)
  {
  }

  /**
   * getThresholds: a Map filled with a zero row per category and then
   * overridden by every stored row of a category; a failed read gives the
   * zero rows.  A Map keeps the order in which keys were first set, and every
   * category was set in enumeration order before any override, so its values
   * come out in enumeration order.
   */
  method GetThresholds(db: ReceiptDb, readFails: bool) returns (r: seq<Threshold>)
    requires db.Valid()
    ensures r == if readFails then ZeroThresholds(DefaultCategories) else TableThresholds(db.thresholds)
  {
    if readFails {
      return ZeroThresholds(DefaultCategories);
    }
    var stored := db.thresholds;
    var byCategory: map<string, Threshold> := map[];
    for i := 0 to |DefaultCategories|
      invariant forall c :: c in byCategory <==> c in DefaultCategories[..i]
      invariant forall c :: c in byCategory ==> byCategory[c] == Threshold(c, 0.0)
    {
      byCategory := byCategory[DefaultCategories[i] := Threshold(DefaultCategories[i], 0.0)];
    }
    // The stored rows, in whatever order they are read.
    var pending := stored.Keys;
    while pending != {}
      invariant pending <= stored.Keys
      invariant forall c :: c in byCategory <==> IsCategory(c)
      invariant forall c :: c in byCategory ==>
                  byCategory[c] == if c in stored && c !in pending then stored[c] else Threshold(c, 0.0)
      decreases pending
    {
      var k :| k in pending;
      var t := stored[k];
      if IsCategory(t.category) {
        byCategory := byCategory[t.category := t];
      }
      pending := pending - {k};
    }
    r := seq(|DefaultCategories|, i requires 0 <= i < |DefaultCategories| => byCategory[DefaultCategories[i]]);
  }

  // ---------------------------------------------------------------- saveThresholds

  /** The amount of the last update entry for category `c`. */
  function LastAmount(updated: seq<Threshold>, c: string): (r: Option<real>)
    ensures r.Some? ==> exists t :: t in updated && t.category == c && t.amount == r.value
    ensures r.None? ==> forall t :: t in updated ==> t.category != c
  {
    match LastWithKey(updated, ThresholdKey, c)
    case Some(t) => Some(t.amount)
    case None => None
  }

  /** The last amount after one more entry. */
  lemma LastAmountSnoc(updated: seq<Threshold>, t: Threshold, c: string)
    ensures LastAmount(updated + [t], c) == if t.category == c then Some(t.amount) else LastAmount(updated, c)
  {
    assert (updated + [t])[..|updated|] == updated;
  }

  /** Without an entry for `c` there is no amount for it. */
  lemma LastAmountAbsent(updated: seq<Threshold>, c: string)
    requires forall t :: t in updated ==> t.category != c
    ensures LastAmount(updated, c) == None
  {
  }

  /**
   * The rows saveThresholds writes: one per category, in enumeration order,
   * with the amount of the category's last update entry, or 0 when it has
   * none.  (`amount || 0` turns only a falsy amount, 0 or NaN, into 0.)
   */
  function SavedRows(updated: seq<Threshold>): (r: seq<Threshold>)
    ensures |r| == |DefaultCategories|
  {
    seq(|DefaultCategories|, i requires 0 <= i < |DefaultCategories| =>
      Threshold(DefaultCategories[i], LastAmount(updated, DefaultCategories[i]).GetOr(0.0)))
  }

  /** Entries outside the enumeration change nothing; a later entry for a category overrides earlier ones. */
  lemma SavedRowsSpec(updated: seq<Threshold>, t: Threshold)
    ensures forall i :: 0 <= i < |DefaultCategories| ==> SavedRows(updated)[i].category == DefaultCategories[i]
    ensures !IsCategory(t.category) ==> SavedRows(updated + [t]) == SavedRows(updated)
    ensures IsCategory(t.category) ==> SavedRows(updated + [t])[CategoryIndex(t.category)] == t
    ensures forall i :: 0 <= i < |DefaultCategories| && DefaultCategories[i] != t.category ==>
              SavedRows(updated + [t])[i] == SavedRows(updated)[i]
  {
    assert (updated + [t])[..|updated|] == updated;
  }

  /**
   * saveThresholds: the update entries of enumeration categories go into a
   * Map (a later entry replacing an earlier one), then a row for every
   * category is bulk-put.  A store error is passed on to the caller, and the
   * table is then as it was.
   */
  method SaveThresholds(db: ReceiptDb, updated: seq<Threshold>, writeError: Option<Thrown>)
    returns (r: Result<(), Thrown>)
    requires db.Valid()
    modifies db
    ensures db.Valid()
    ensures db.expenses == old(db.expenses)
    ensures writeError.Some? ==> r == Failure(writeError.value) && db.thresholds == old(db.thresholds)
    ensures writeError.None? ==> r.Success? && db.thresholds == PutAll(old(db.thresholds), SavedRows(updated), ThresholdKey)
  {
    var updates: map<string, real> := map[];
    for i := 0 to |updated|
      invariant forall c :: c in updates <==> IsCategory(c) && LastAmount(updated[..i], c).Some?
      invariant forall c :: c in updates ==> updates[c] == LastAmount(updated[..i], c).value
    {
      assert updated[..i + 1][..i] == updated[..i];
      var t := updated[i];
      if IsCategory(t.category) {
        updates := updates[t.category := t.amount];
      }
    }
    assert updated[..|updated|] == updated;
    var rows := seq(|DefaultCategories|, i requires 0 <= i < |DefaultCategories| =>
      Threshold(DefaultCategories[i], if DefaultCategories[i] in updates then updates[DefaultCategories[i]] else 0.0));
    assert rows == SavedRows(updated);
    if writeError.Some? {
      return Failure(writeError.value);
    }
    db.BulkPutThresholds(rows);
    return Success(());
  }

  /** The saved rows have one row per category, so each category's row is the last row with its key. */
  lemma SavedRowsLast(updated: seq<Threshold>, i: nat)
    requires i < |DefaultCategories|
    ensures LastWithKey(SavedRows(updated), ThresholdKey, DefaultCategories[i]) == Some(SavedRows(updated)[i])
  {
    CategoriesWellFormed();
    var rows := SavedRows(updated);
    assert forall a, b :: 0 <= a < b < |rows| ==> ThresholdKey(rows[a]) != ThresholdKey(rows[b]);
    LastWithDistinctKey(rows, ThresholdKey, i);
  }

  /** Reading the table back after a successful save gives exactly the saved rows, whatever was stored before. */
  lemma GetAfterSave(table: map<string, Threshold>, updated: seq<Threshold>)
    ensures TableThresholds(PutAll(table, SavedRows(updated), ThresholdKey)) == SavedRows(updated)
  {
    var rows := SavedRows(updated);
    var put := PutAll(table, rows, ThresholdKey);
    forall i | 0 <= i < |DefaultCategories|
      ensures TableThresholds(put)[i] == rows[i]
    {
      SavedRowsLast(updated, i);
      PutAllSpec(table, rows, ThresholdKey, DefaultCategories[i]);
    }
  }
}
