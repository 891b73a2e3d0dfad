/**
 * App.tsx: the start-up migration of the legacy localStorage data into the
 * store, the monthly threshold check, and the rules around an uploaded
 * receipt and a savings-analysis request.  React state, notifications and
 * their timing are not modelled; the clock is a parameter.
 */
module App {
  import opened Results
  import opened JsRuntime
  import opened Constants
  import opened Types
  import opened Db
  import opened ThresholdService
  import opened CategoryChart
  import opened GeminiService

  // ================================================================ localStorage

  const LegacyExpensesKey: string := "smartAnalyzerExpenses"
  const LegacyThresholdsKey: string := "smartAnalyzerThresholds"

  /** window.localStorage: string keys holding string values. */
  class LocalStorage {
    var items: map<string, string>

    constructor(items0: map<string, string>)
      ensures items == items0
    {
      items := items0;
    }

    /** `getItem(key)`: null (None) for a missing key. */
    function GetItem(key: string): (v: Option<string>)
      reads this
      ensures v.Some? <==> key in items
      ensures v.Some? ==> v.value == items[key]
    {
      if key in items then Some(items[key]) else None
    }

    method SetItem(key: string, value: string)
      modifies this
      ensures items == old(items)[key := value]
    {
      items := items[key := value];
    }

    method RemoveItem(key: string)
      modifies this
      ensures items == old(items) - {key}
    {
      items := items - {key};
    }
  }

  // ================================================================ migration

  /**
   * What the migration meets besides the two stores: `JSON.parse` of each
   * legacy value read as a list of records (Failure when it throws), and the
   * error each bulk write would raise, if any.
   */
  datatype MigrationEnv = MigrationEnv(
    parseExpenses: string -> Result<seq<CategorizedExpense>, Thrown>,
    parseThresholds: string -> Result<seq<Threshold>, Thrown>,
    expensePutError: Option<Thrown>,
    thresholdPutError: Option<Thrown>
  )

  /** The outcome of migrating one legacy key: localStorage, the table, and the error that stopped it. */
  datatype KeyMigration<T> = KeyMigration(items: map<string, string>, table: map<string, T>, error: Option<Thrown>)

  /**
   * One legacy key: a present, non-empty value is parsed; a non-empty list is
   * bulk-put into the table and only then is the key removed.  An empty list
   * or a missing key changes nothing; a parse or write error stops with both
   * stores as they were.
   */
  function MigrateKey<T>(items: map<string, string>, table: map<string, T>, key: string,
                         parse: string -> Result<seq<T>, Thrown>, putError: Option<Thrown>,
                         rowKey: T -> string): KeyMigration<T>
  {
    if key !in items || items[key] == "" then KeyMigration(items, table, None)
    else
      match parse(items[key])
      case Failure(e) => KeyMigration(items, table, Some(e))
      case Success(rows) =>
        if |rows| == 0 then KeyMigration(items, table, None)
        else if putError.Some? then KeyMigration(items, table, putError)
        else KeyMigration(items - {key}, PutAll(table, rows, rowKey), None)
  }

  /** The legacy value of `key` parses to a non-empty list. */
  predicate HoldsRows<T>(items: map<string, string>, key: string, parse: string -> Result<seq<T>, Thrown>) {
    key in items && items[key] != "" && parse(items[key]).Success? && |parse(items[key]).value| > 0
  }

  /**
   * Migrating a key never loses its data: either the key is still in
   * localStorage or its rows were bulk-put into the table, so each key of
   * the rows holds the last row with that key (a later row with the same key
   * replaces an earlier one).  The key is removed exactly when its rows were
   * written; an error leaves both stores as they were; other keys are never
   * touched.
   */
  lemma MigrateKeySpec<T>(items: map<string, string>, table: map<string, T>, key: string,
                          parse: string -> Result<seq<T>, Thrown>, putError: Option<Thrown>, rowKey: T -> string)
    ensures key in items ==>
              key in MigrateKey(items, table, key, parse, putError, rowKey).items
              || (HoldsRows(items, key, parse)
                  && MigrateKey(items, table, key, parse, putError, rowKey).table == PutAll(table, parse(items[key]).value, rowKey))
    ensures HoldsRows(items, key, parse) && putError.None? ==>
              forall r :: r in parse(items[key]).value ==>
                rowKey(r) in MigrateKey(items, table, key, parse, putError, rowKey).table
                && LastWithKey(parse(items[key]).value, rowKey, rowKey(r))
                   == Some(MigrateKey(items, table, key, parse, putError, rowKey).table[rowKey(r)])
    ensures key !in MigrateKey(items, table, key, parse, putError, rowKey).items
            <==> key !in items || (HoldsRows(items, key, parse) && putError.None?)
    ensures MigrateKey(items, table, key, parse, putError, rowKey).error.Some? ==>
              MigrateKey(items, table, key, parse, putError, rowKey).items == items
              && MigrateKey(items, table, key, parse, putError, rowKey).table == table
    ensures !HoldsRows(items, key, parse) ==>
              MigrateKey(items, table, key, parse, putError, rowKey).items == items
              && MigrateKey(items, table, key, parse, putError, rowKey).table == table
    ensures forall k :: k != key ==>
              (k in MigrateKey(items, table, key, parse, putError, rowKey).items <==> k in items)
              && (k in items ==> MigrateKey(items, table, key, parse, putError, rowKey).items[k] == items[k])
  {
    if HoldsRows(items, key, parse) && putError.None? {
      var rows := parse(items[key]).value;
      forall r | r in rows
        ensures rowKey(r) in PutAll(table, rows, rowKey)
        ensures LastWithKey(rows, rowKey, rowKey(r)) == Some(PutAll(table, rows, rowKey)[rowKey(r)])
      {
        PutAllSpec(table, rows, rowKey, rowKey(r));
        LastWithKeyOfMember(rows, rowKey, r);
      }
    }
  }

  datatype MigrationStatus = AlreadyDone | Migrated | MigrationFailed(error: Thrown)

  datatype Migration = Migration(
    items: map<string, string>,
    expenses: map<string, CategorizedExpense>,
    thresholds: map<string, Threshold>,
    status: MigrationStatus
  )

  /** `localStorage.getItem(MIGRATION_DONE_KEY)` is truthy. */
  predicate MigrationMarked(items: map<string, string>) {
    MigrationDoneKey in items && items[MigrationDoneKey] != ""
  }

  /**
   * The migration step of migrateAndInitialize: skipped when marked done;
   * otherwise expenses, then thresholds, then the mark, the first error
   * ending it.
   */
  function Migrate(items: map<string, string>, expenses: map<string, CategorizedExpense>,
                   thresholds: map<string, Threshold>, env: MigrationEnv): Migration
  {
    if MigrationMarked(items) then Migration(items, expenses, thresholds, AlreadyDone)
    else
      var e := MigrateKey(items, expenses, LegacyExpensesKey, env.parseExpenses, env.expensePutError, ExpenseKey);
      if e.error.Some? then Migration(e.items, e.table, thresholds, MigrationFailed(e.error.value))
      else
        var t := MigrateKey(e.items, thresholds, LegacyThresholdsKey, env.parseThresholds, env.thresholdPutError, ThresholdKey);
        if t.error.Some? then Migration(t.items, e.table, t.table, MigrationFailed(t.error.value))
        else Migration(t.items[MigrationDoneKey := "true"], e.table, t.table, Migrated)
  }

  /** Once marked done, the migration reads, removes and writes nothing. */
  lemma MarkedMigrationIsSkipped(items: map<string, string>, expenses: map<string, CategorizedExpense>,
                                 thresholds: map<string, Threshold>, env: MigrationEnv)
    requires MigrationMarked(items)
    ensures Migrate(items, expenses, thresholds, env) == Migration(items, expenses, thresholds, AlreadyDone)
  {
  }

  /**
   * The mark is set, to "true", only by a migration that went through both
   * keys without an error; after a failure it is still unset, so the next
   * start tries again, and running again after success changes nothing.
   */
  lemma MigrationMarkSpec(items: map<string, string>, expenses: map<string, CategorizedExpense>,
                          thresholds: map<string, Threshold>, env: MigrationEnv)
    ensures !MigrationMarked(items) ==>
              (MigrationMarked(Migrate(items, expenses, thresholds, env).items)
               <==> Migrate(items, expenses, thresholds, env).status == Migrated)
    ensures Migrate(items, expenses, thresholds, env).status == Migrated ==>
              Migrate(items, expenses, thresholds, env).items[MigrationDoneKey] == "true"
    ensures Migrate(items, expenses, thresholds, env).status.MigrationFailed? ==>
              !MigrationMarked(Migrate(items, expenses, thresholds, env).items)
    ensures var m := Migrate(items, expenses, thresholds, env);
            Migrate(m.items, m.expenses, m.thresholds, env).status != Migrated
  {
    var e := MigrateKey(items, expenses, LegacyExpensesKey, env.parseExpenses, env.expensePutError, ExpenseKey);
    MigrateKeySpec(items, expenses, LegacyExpensesKey, env.parseExpenses, env.expensePutError, ExpenseKey);
    MigrateKeySpec(e.items, thresholds, LegacyThresholdsKey, env.parseThresholds, env.thresholdPutError, ThresholdKey);
  }

  /**
   * No legacy data is lost, whatever fails: each legacy key is either still in
   * localStorage or its rows were bulk-put into the store, and a key removed
   * before a later failure stays removed.
   */
  lemma MigrationLosesNoData(items: map<string, string>, expenses: map<string, CategorizedExpense>,
                             thresholds: map<string, Threshold>, env: MigrationEnv)
    ensures LegacyExpensesKey in items ==>
              LegacyExpensesKey in Migrate(items, expenses, thresholds, env).items
              || (HoldsRows(items, LegacyExpensesKey, env.parseExpenses)
                  && Migrate(items, expenses, thresholds, env).expenses
                     == PutAll(expenses, env.parseExpenses(items[LegacyExpensesKey]).value, ExpenseKey))
    ensures LegacyThresholdsKey in items ==>
              LegacyThresholdsKey in Migrate(items, expenses, thresholds, env).items
              || (HoldsRows(items, LegacyThresholdsKey, env.parseThresholds)
                  && Migrate(items, expenses, thresholds, env).thresholds
                     == PutAll(thresholds, env.parseThresholds(items[LegacyThresholdsKey]).value, ThresholdKey))
    ensures !MigrationMarked(items) && HoldsRows(items, LegacyExpensesKey, env.parseExpenses) && env.expensePutError.None? ==>
              LegacyExpensesKey !in Migrate(items, expenses, thresholds, env).items
  {
    var e := MigrateKey(items, expenses, LegacyExpensesKey, env.parseExpenses, env.expensePutError, ExpenseKey);
    MigrateKeySpec(items, expenses, LegacyExpensesKey, env.parseExpenses, env.expensePutError, ExpenseKey);
    MigrateKeySpec(e.items, thresholds, LegacyThresholdsKey, env.parseThresholds, env.thresholdPutError, ThresholdKey);
  }

  /**
   * When the legacy rows have distinct keys (ids, or categories), a removed
   * legacy key means every one of its rows is in the store, unchanged.
   */
  lemma MigratedRowsStored(items: map<string, string>, expenses: map<string, CategorizedExpense>,
                           thresholds: map<string, Threshold>, env: MigrationEnv, e: CategorizedExpense)
    requires LegacyExpensesKey in items && LegacyExpensesKey !in Migrate(items, expenses, thresholds, env).items
    requires env.parseExpenses(items[LegacyExpensesKey]).Success?
    requires var rows := env.parseExpenses(items[LegacyExpensesKey]).value;
             e in rows && forall a, b :: 0 <= a < b < |rows| ==> rows[a].id != rows[b].id
    ensures e.id in Migrate(items, expenses, thresholds, env).expenses
    ensures Migrate(items, expenses, thresholds, env).expenses[e.id] == e
  {
    var rows := env.parseExpenses(items[LegacyExpensesKey]).value;
    MigrationLosesNoData(items, expenses, thresholds, env);
    var i :| 0 <= i < |rows| && rows[i] == e;
    LastWithDistinctKey(rows, ExpenseKey, i);
    PutAllSpec(expenses, rows, ExpenseKey, e.id);
  }

  /** The expense half of the migration, on the live stores. */
  method MigrateLegacyExpenses(storage: LocalStorage, db: ReceiptDb, env: MigrationEnv) returns (error: Option<Thrown>)
    requires db.Valid()
    modifies storage, db
    ensures db.Valid()
    ensures storage.items == MigrateKey(old(storage.items), old(db.expenses), LegacyExpensesKey, env.parseExpenses, env.expensePutError, ExpenseKey).items
    ensures db.expenses == MigrateKey(old(storage.items), old(db.expenses), LegacyExpensesKey, env.parseExpenses, env.expensePutError, ExpenseKey).table
    ensures error == MigrateKey(old(storage.items), old(db.expenses), LegacyExpensesKey, env.parseExpenses, env.expensePutError, ExpenseKey).error
    ensures db.thresholds == old(db.thresholds)
  {
    var raw := storage.GetItem(LegacyExpensesKey);
    if raw.Some? && raw.value != "" {
      match env.parseExpenses(raw.value)
      case Failure(e) =>
        return Some(e);
      case Success(rows) =>
        if |rows| > 0 {
          if env.expensePutError.Some? {
            return env.expensePutError;
          }
          db.BulkPutExpenses(rows);
          storage.RemoveItem(LegacyExpensesKey);
        }
    }
    return None;
  }

  /** The threshold half of the migration, on the live stores. */
  method MigrateLegacyThresholds(storage: LocalStorage, db: ReceiptDb, env: MigrationEnv) returns (error: Option<Thrown>)
    requires db.Valid()
    modifies storage, db
    ensures db.Valid()
    ensures storage.items == MigrateKey(old(storage.items), old(db.thresholds), LegacyThresholdsKey, env.parseThresholds, env.thresholdPutError, ThresholdKey).items
    ensures db.thresholds == MigrateKey(old(storage.items), old(db.thresholds), LegacyThresholdsKey, env.parseThresholds, env.thresholdPutError, ThresholdKey).table
    ensures error == MigrateKey(old(storage.items), old(db.thresholds), LegacyThresholdsKey, env.parseThresholds, env.thresholdPutError, ThresholdKey).error
    ensures db.expenses == old(db.expenses)
  {
    var raw := storage.GetItem(LegacyThresholdsKey);
    if raw.Some? && raw.value != "" {
      match env.parseThresholds(raw.value)
      case Failure(e) =>
        return Some(e);
      case Success(rows) =>
        if |rows| > 0 {
          if env.thresholdPutError.Some? {
            return env.thresholdPutError;
          }
          db.BulkPutThresholds(rows);
          storage.RemoveItem(LegacyThresholdsKey);
        }
    }
    return None;
  }

  /**
   * migrateAndInitialize: the migration (unless marked done), then, whatever
   * its outcome, the seeding of missing thresholds and the reading of the
   * threshold list.  `seedReadFails`, `seedFails` and `readFails` stand for
   * store errors: a failing read of the table while seeding rejects, which
   * ends the start-up before the load (`loaded` is None).
   */
  method MigrateAndInitialize(storage: LocalStorage, db: ReceiptDb, env: MigrationEnv,
                              seedReadFails: bool, seedFails: bool, readFails: bool)
    returns (status: MigrationStatus, loaded: Option<seq<Threshold>>)
    requires db.Valid()
    modifies storage, db
    ensures db.Valid()
    ensures status == Migrate(old(storage.items), old(db.expenses), old(db.thresholds), env).status
    ensures storage.items == Migrate(old(storage.items), old(db.expenses), old(db.thresholds), env).items
    ensures db.expenses == Migrate(old(storage.items), old(db.expenses), old(db.thresholds), env).expenses
    ensures db.thresholds == if seedReadFails || seedFails
                             then Migrate(old(storage.items), old(db.expenses), old(db.thresholds), env).thresholds
                             else Seeded(Migrate(old(storage.items), old(db.expenses), old(db.thresholds), env).thresholds)
    ensures loaded.None? <==> seedReadFails
    ensures loaded.Some? ==>
              loaded.value == if readFails then ZeroThresholds(DefaultCategories) else TableThresholds(db.thresholds)
  {
    var marked := storage.GetItem(MigrationDoneKey);
    if marked.None? || marked.value == "" {
      var error := MigrateLegacyExpenses(storage, db, env);
      if error.None? {
        error := MigrateLegacyThresholds(storage, db, env);
      }
      if error.None? {
        storage.SetItem(MigrationDoneKey, "true");
        status := Migrated;
      } else {
        status := MigrationFailed(error.value);
      }
    } else {
      status := AlreadyDone;
    }
    var rejected := db.PopulateInitialThresholds(seedReadFails, seedFails);
    if rejected {
      return status, None;
    }
    var read := GetThresholds(db, readFails);
    loaded := Some(read);
  }

  // ================================================================ checkThresholds

  /** A calendar month: `getMonth()` and `getFullYear()` of a Date. */
  datatype MonthYear = MonthYear(month: int, year: int)

  /** A threshold warning: the category, its spending this month, and its threshold. */
  datatype Breach = Breach(category: string, spent: real, limit: real)

  /**
   * The expenses dated in the month `now`; `dateOf` is `new Date(text)`'s
   * month and year, None for an invalid date, which matches no month.
   */
  function ThisMonth(expenses: seq<CategorizedExpense>, dateOf: string -> Option<MonthYear>, now: MonthYear)
    : (r: seq<CategorizedExpense>)
    ensures forall e :: e in r <==> e in expenses && dateOf(e.receipt.transactionDate) == Some(now)
  {
    if expenses == [] then []
    else
      var last := expenses[|expenses| - 1];
      ThisMonth(expenses[..|expenses| - 1], dateOf, now)
      + (if dateOf(last.receipt.transactionDate) == Some(now) then [last] else [])
  }

  /**
   * The month's spending in a category (the chart's total over the month's
   * expenses), when some expense of the month has that category.
   */
  function MonthlySpend(expenses: seq<CategorizedExpense>, dateOf: string -> Option<MonthYear>, now: MonthYear, category: string)
    : Option<real>
  {
    var spent := OfCategory(ThisMonth(expenses, dateOf, now), category);
    if spent != [] then Some(SumAmounts(spent)) else None
  }

  lemma MonthlySpendSpec(expenses: seq<CategorizedExpense>, dateOf: string -> Option<MonthYear>, now: MonthYear, category: string)
    ensures MonthlySpend(expenses, dateOf, now, category).Some? <==>
              exists e :: e in expenses && dateOf(e.receipt.transactionDate) == Some(now) && e.category == category
    ensures MonthlySpend(expenses, dateOf, now, category).Some? ==>
              MonthlySpend(expenses, dateOf, now, category).value == CategoryTotal(ThisMonth(expenses, dateOf, now), category)
  {
    var spent := OfCategory(ThisMonth(expenses, dateOf, now), category);
    if spent != [] {
      assert spent[0] in spent;
    }
  }

  /** A threshold is breached when it is positive and the month's spending is non-zero and strictly above it. */
  predicate Breaches(spent: Option<real>, limit: real) {
    limit > 0.0 && spent.Some? && spent.value != 0.0 && spent.value > limit
  }

  /** The warnings for the thresholds, in threshold order. */
  function BreachesOf(thresholds: seq<Threshold>, expenses: seq<CategorizedExpense>,
                      dateOf: string -> Option<MonthYear>, now: MonthYear): (r: seq<Breach>)
    ensures |r| <= |thresholds|
  {
    if thresholds == [] then []
    else
      var thr := thresholds[|thresholds| - 1];
      var spent := MonthlySpend(expenses, dateOf, now, thr.category);
      BreachesOf(thresholds[..|thresholds| - 1], expenses, dateOf, now)
      + (if Breaches(spent, thr.amount) then [Breach(thr.category, spent.value, thr.amount)] else [])
  }

  /**
   * A warning names a positive threshold whose category's spending this month
   * is strictly greater; spending equal to the threshold never warns, and
   * every breached threshold warns.
   */
  lemma {:induction false} BreachesOfSpec(thresholds: seq<Threshold>, expenses: seq<CategorizedExpense>,
                                         dateOf: string -> Option<MonthYear>, now: MonthYear)
    ensures forall b :: b in BreachesOf(thresholds, expenses, dateOf, now) ==>
              Threshold(b.category, b.limit) in thresholds && b.limit > 0.0 && b.spent > b.limit
              && MonthlySpend(expenses, dateOf, now, b.category) == Some(b.spent)
    ensures forall t :: t in thresholds && t.amount > 0.0 && MonthlySpend(expenses, dateOf, now, t.category).Some?
                        && MonthlySpend(expenses, dateOf, now, t.category).value > t.amount ==>
              Breach(t.category, MonthlySpend(expenses, dateOf, now, t.category).value, t.amount)
                in BreachesOf(thresholds, expenses, dateOf, now)
  {
    if thresholds != [] {
      var n := |thresholds| - 1;
      BreachesOfSpec(thresholds[..n], expenses, dateOf, now);
      assert thresholds == thresholds[..n] + [thresholds[n]];
    }
  }

  /** An expense outside the month changes no warning. */
  lemma OtherMonthIgnored(thresholds: seq<Threshold>, expenses: seq<CategorizedExpense>, e: CategorizedExpense,
                          dateOf: string -> Option<MonthYear>, now: MonthYear)
    requires dateOf(e.receipt.transactionDate) != Some(now)
    ensures BreachesOf(thresholds, expenses + [e], dateOf, now) == BreachesOf(thresholds, expenses, dateOf, now)
  {
    forall c
      ensures MonthlySpend(expenses + [e], dateOf, now, c) == MonthlySpend(expenses, dateOf, now, c)
    {
      MonthlyStepOther(expenses, e, dateOf, now, c);
    }
    BreachesUnchanged(thresholds, expenses + [e], expenses, dateOf, now);
  }

  lemma {:induction false} BreachesUnchanged(thresholds: seq<Threshold>, a: seq<CategorizedExpense>, b: seq<CategorizedExpense>,
                                            dateOf: string -> Option<MonthYear>, now: MonthYear)
    requires forall c :: MonthlySpend(a, dateOf, now, c) == MonthlySpend(b, dateOf, now, c)
    ensures BreachesOf(thresholds, a, dateOf, now) == BreachesOf(thresholds, b, dateOf, now)
  {
    if thresholds != [] {
      BreachesUnchanged(thresholds[..|thresholds| - 1], a, b, dateOf, now);
    }
  }

  /**
   * checkThresholds: sums the month's expenses per category into a
   * dictionary, then warns for each breached threshold.  The warnings are
   * returned instead of shown.
   */
  method CheckThresholds(expenses: seq<CategorizedExpense>, thresholds: seq<Threshold>,
                         dateOf: string -> Option<MonthYear>, now: MonthYear)
    returns (warnings: seq<Breach>)
    ensures warnings == BreachesOf(thresholds, expenses, dateOf, now)
  {
    if |thresholds| == 0 {
      return [];
    }
    var monthly: map<string, real> := map[];
    TalliesNone(dateOf, now);
    for i := 0 to |expenses|
      invariant Tallies(monthly, expenses[..i], dateOf, now)
    {
      var e := expenses[i];
      assert expenses[..i + 1] == expenses[..i] + [e];
      if dateOf(e.receipt.transactionDate) == Some(now) {
        TallyInMonth(monthly, expenses[..i], e, dateOf, now);
        monthly := monthly[e.category := (if e.category in monthly then monthly[e.category] else 0.0) + e.receipt.totalAmount];
      } else {
        TallyOtherMonth(monthly, expenses[..i], e, dateOf, now);
      }
    }
    assert expenses[..|expenses|] == expenses;
    warnings := [];
    for j := 0 to |thresholds|
      invariant warnings == BreachesOf(thresholds[..j], expenses, dateOf, now)
    {
      assert thresholds[..j + 1][..j] == thresholds[..j];
      var thr := thresholds[j];
      if thr.amount > 0.0 && thr.category in monthly && monthly[thr.category] != 0.0 && monthly[thr.category] > thr.amount {
        warnings := warnings + [Breach(thr.category, monthly[thr.category], thr.amount)];
      }
    }
    assert thresholds[..|thresholds|] == thresholds;
  }

  /** A dictionary holding, for each category with spending this month, that spending. */
  ghost predicate Tallies(monthly: map<string, real>, expenses: seq<CategorizedExpense>,
                          dateOf: string -> Option<MonthYear>, now: MonthYear) {
    forall c :: (c in monthly <==> MonthlySpend(expenses, dateOf, now, c).Some?)
                && (c in monthly ==> monthly[c] == MonthlySpend(expenses, dateOf, now, c).value)
  }

  lemma TalliesNone(dateOf: string -> Option<MonthYear>, now: MonthYear)
    ensures Tallies(map[], [], dateOf, now)
  {
  }

  lemma TallyInMonth(monthly: map<string, real>, expenses: seq<CategorizedExpense>, e: CategorizedExpense,
                     dateOf: string -> Option<MonthYear>, now: MonthYear)
    requires Tallies(monthly, expenses, dateOf, now)
    requires dateOf(e.receipt.transactionDate) == Some(now)
    ensures Tallies(monthly[e.category := (if e.category in monthly then monthly[e.category] else 0.0) + e.receipt.totalAmount],
                    expenses + [e], dateOf, now)
  {
    forall c {
      TallyInMonthAt(monthly, expenses, e, dateOf, now, c);
    }
  }

  /** TallyInMonth for one category. */
  lemma TallyInMonthAt(monthly: map<string, real>, expenses: seq<CategorizedExpense>, e: CategorizedExpense,
                       dateOf: string -> Option<MonthYear>, now: MonthYear, c: string)
    requires c in monthly <==> MonthlySpend(expenses, dateOf, now, c).Some?
    requires c in monthly ==> monthly[c] == MonthlySpend(expenses, dateOf, now, c).value
    requires e.category in monthly <==> MonthlySpend(expenses, dateOf, now, e.category).Some?
    requires e.category in monthly ==> monthly[e.category] == MonthlySpend(expenses, dateOf, now, e.category).value
    requires dateOf(e.receipt.transactionDate) == Some(now)
    ensures var updated := monthly[e.category := (if e.category in monthly then monthly[e.category] else 0.0) + e.receipt.totalAmount];
            (c in updated <==> MonthlySpend(expenses + [e], dateOf, now, c).Some?)
            && (c in updated ==> updated[c] == MonthlySpend(expenses + [e], dateOf, now, c).value)
  {
    if c == e.category {
      MonthlyStepSame(expenses, e, dateOf, now);
    } else {
      MonthlyStepOther(expenses, e, dateOf, now, c);
    }
  }

  lemma TallyOtherMonth(monthly: map<string, real>, expenses: seq<CategorizedExpense>, e: CategorizedExpense,
                        dateOf: string -> Option<MonthYear>, now: MonthYear)
    requires Tallies(monthly, expenses, dateOf, now)
    requires dateOf(e.receipt.transactionDate) != Some(now)
    ensures Tallies(monthly, expenses + [e], dateOf, now)
  {
    forall c
      ensures MonthlySpend(expenses + [e], dateOf, now, c) == MonthlySpend(expenses, dateOf, now, c)
    {
      MonthlyStepOther(expenses, e, dateOf, now, c);
    }
  }

  /** One more expense of the month adds its amount to its category's spending. */
  lemma MonthlyStepSame(expenses: seq<CategorizedExpense>, e: CategorizedExpense, dateOf: string -> Option<MonthYear>, now: MonthYear)
    requires dateOf(e.receipt.transactionDate) == Some(now)
    ensures MonthlySpend(expenses + [e], dateOf, now, e.category)
            == Some(MonthlySpend(expenses, dateOf, now, e.category).GetOr(0.0) + e.receipt.totalAmount)
  {
    var before := ThisMonth(expenses, dateOf, now);
    var spent := OfCategory(before, e.category);
    assert (expenses + [e])[..|expenses|] == expenses;
    assert ThisMonth(expenses + [e], dateOf, now) == before + [e];
    OfCategorySnoc(before, e, e.category);
    SumAmountsSnoc(spent, e);
    assert MonthlySpend(expenses + [e], dateOf, now, e.category) == Some(SumAmounts(spent) + e.receipt.totalAmount);
  }

  /** An expense outside the month, or of another category, leaves a category's spending as it was. */
  lemma MonthlyStepOther(expenses: seq<CategorizedExpense>, e: CategorizedExpense, dateOf: string -> Option<MonthYear>, now: MonthYear, c: string)
    requires dateOf(e.receipt.transactionDate) != Some(now) || c != e.category
    ensures MonthlySpend(expenses + [e], dateOf, now, c) == MonthlySpend(expenses, dateOf, now, c)
  {
    var before := ThisMonth(expenses, dateOf, now);
    assert (expenses + [e])[..|expenses|] == expenses;
    if dateOf(e.receipt.transactionDate) == Some(now) {
      assert ThisMonth(expenses + [e], dateOf, now) == before + [e];
      OfCategorySnoc(before, e, c);
      assert OfCategory(before, c) + [] == OfCategory(before, c);
    } else {
      assert ThisMonth(expenses + [e], dateOf, now) == before;
    }
  }

  // ================================================================ handleImageUpload

  const MissingDataMessage: string := "Failed to extract essential data from receipt."

  /** The category check before a record is created: a category outside the enumeration becomes Other. */
  function FallbackCategory(category: string): (c: string)
    ensures IsCategory(c)
    ensures IsCategory(category) ==> c == category
    ensures !IsCategory(category) ==> c == OtherCategory
  {
    CategoriesWellFormed();
    if IsCategory(category) then category else OtherCategory
  }

  /** The new record: the receipt's fields, the id, the checked category and the file name. */
  function BuildExpense(receipt: ReceiptData, id: string, category: string, fileName: string): (e: CategorizedExpense)
    ensures e.receipt == receipt && e.id == id && e.originalImageName == Some(fileName)
    ensures e.category == FallbackCategory(category)
    ensures IsCategory(e.category)
    ensures IsCategory(category) ==> e.category == category
  {
    CategorizedExpense(receipt, id, Some(fileName), FallbackCategory(category))
  }

  /**
   * handleImageUpload: analyse the receipt, refuse it when its total or
   * vendor is falsy, classify it, check the category, and add the record.
   * `id` is the clock's text (`Date.now().toString()`); `idTakenMessage` is
   * the store's error message when that id is taken.  Besides the outcome, the
   * analysis result and the classification (None when it was never asked
   * for) are returned.
   */
  method HandleImageUpload(db: ReceiptDb, receiptReply: nat -> Result<string, Thrown>, lib: JsLib,
                           classifyReply: nat -> Result<string, Thrown>, id: string, fileName: string,
                           idTakenMessage: string)
    returns (r: Result<CategorizedExpense, string>, analysis: Result<ReceiptData, string>,
             classification: Option<Result<string, string>>)
    requires db.Valid()
    modifies db
    ensures db.Valid()
    ensures db.thresholds == old(db.thresholds)
    ensures analysis == Retried(ReceiptAttempts(receiptReply, lib), AnalyzeReceiptName, 0)
    ensures classification.Some? ==> classification.value == Retried(ClassifyAttempts(classifyReply), ClassifyName, 0)
    ensures classification.Some? <==>
              analysis.Success? && analysis.value.totalAmount != 0.0 && analysis.value.vendorName != ""
    ensures analysis.Failure? ==> r == Failure(analysis.error)
    ensures analysis.Success? && classification.None? ==> r == Failure(MissingDataMessage)
    ensures classification.Some? && classification.value.Success? ==> IsCategory(classification.value.value)
    ensures classification.Some? && classification.value.Failure? ==> r == Failure(classification.value.error)
    ensures r.Success? ==>
              analysis.Success? && classification.Some? && classification.value.Success?
              && r.value == BuildExpense(analysis.value, id, classification.value.value, fileName)
              && id !in old(db.expenses) && db.expenses == old(db.expenses)[id := r.value]
    ensures r.Failure? ==> db.expenses == old(db.expenses)
    ensures r.Failure? && classification.Some? && classification.value.Success? ==>
              id in old(db.expenses) && r.error == idTakenMessage
  {
    var calls;
    analysis, calls := AnalyzeReceipt(receiptReply, lib);
    classification := None;
    if analysis.Failure? {
      return Failure(analysis.error), analysis, classification;
    }
    var receipt := analysis.value;
    if receipt.totalAmount == 0.0 || receipt.vendorName == "" {
      return Failure(MissingDataMessage), analysis, classification;
    }
    var category, classifyCalls := ClassifyExpense(classifyReply);
    classification := Some(category);
    if category.Failure? {
      return Failure(category.error), analysis, classification;
    }
    var expense := BuildExpense(receipt, id, category.value, fileName);
    var added := db.AddExpense(expense);
    if !added {
      return Failure(idTakenMessage), analysis, classification;
    }
    r := Success(expense);
  }

  // ================================================================ handleRequestSavingsAnalysis

  const NotEnoughDataMessage: string := "Not enough data for savings analysis. Please add some expenses first."

  /**
   * handleRequestSavingsAnalysis: with no expenses the request is refused
   * and the service is not called (`calls` is 0); otherwise the service's
   * outcome, the retried insight attempts on the request built from the
   * expenses, is passed on.
   */
  method RequestSavingsAnalysis(expenses: seq<CategorizedExpense>, ai: (InsightRequest, nat) -> Result<string, Thrown>, lib: JsLib)
    returns (r: Result<SavingsInsight, string>, calls: nat)
    ensures calls == 0 <==> |expenses| == 0
    ensures |expenses| == 0 ==> r == Failure(NotEnoughDataMessage)
    ensures calls <= MaxRetries + 1
    ensures |expenses| > 0 ==> r == Retried(InsightAttempts(ai, InsightRequestFor(expenses), lib), InsightsName, 0)
    ensures |expenses| > 0 ==> forall k :: 0 <= k < calls - 1 ==> InsightAttempts(ai, InsightRequestFor(expenses), lib)(k).Threw?
    ensures |expenses| > 0 && r.Success? ==> InsightAttempts(ai, InsightRequestFor(expenses), lib)(calls - 1) == Returned(r.value)
    ensures r.Success? ==> |r.value.insights| <= MaxInsights
                           && forall i :: 0 <= i < |r.value.insights| ==> IsCategory(r.value.insights[i].category)
  {
    if |expenses| == 0 {
      return Failure(NotEnoughDataMessage), 0;
    }
    r, calls := GetSavingsInsights(expenses, ai, lib);
  }
}
