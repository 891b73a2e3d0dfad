/**
 * components/CategoryChart.tsx: the per-category totals behind the pie chart,
 * the condition for its empty state, and the colour of each slice.
 */
module CategoryChart {
  import opened Constants
  import opened Types

  /** COLORS, one per slice position. */
  const Colors: seq<string> := [
    "#0088FE", "#00C49F", "#FFBB28", "#FF8042", "#8884D8",
    "#82CA9D", "#FFC0CB", "#A020F0", "#F0E68C", "#ADD8E6",
    "#FA8072", "#D2B48C"
  ]

  /** One entry of the chart's data: `{ name, value }`. */
  datatype Slice = Slice(name: string, value: real)

  /** `expenses.filter(exp => exp.category === category)`. */
  function OfCategory(expenses: seq<CategorizedExpense>, category: string): (r: seq<CategorizedExpense>)
    ensures forall e :: e in r <==> e in expenses && e.category == category
  {
    if expenses == [] then []
    else
      var last := expenses[|expenses| - 1];
      OfCategory(expenses[..|expenses| - 1], category) + (if last.category == category then [last] else [])
  }

  /** `.reduce((sum, exp) => sum + exp.totalAmount, 0)`, summing from the left. */
  function SumAmounts(expenses: seq<CategorizedExpense>): real {
    if expenses == [] then 0.0
    else SumAmounts(expenses[..|expenses| - 1]) + expenses[|expenses| - 1].receipt.totalAmount
  }

  function CategoryTotal(expenses: seq<CategorizedExpense>, category: string): real {
    SumAmounts(OfCategory(expenses, category))
  }

  lemma OfCategorySnoc(expenses: seq<CategorizedExpense>, e: CategorizedExpense, category: string)
    ensures OfCategory(expenses + [e], category)
            == OfCategory(expenses, category) + (if e.category == category then [e] else [])
  {
    assert (expenses + [e])[..|expenses|] == expenses;
  }

  lemma SumAmountsSnoc(expenses: seq<CategorizedExpense>, e: CategorizedExpense)
    ensures SumAmounts(expenses + [e]) == SumAmounts(expenses) + e.receipt.totalAmount
  {
    assert (expenses + [e])[..|expenses|] == expenses;
  }

  /** One more expense adds its amount to its own category's total and to no other. */
  lemma CategoryTotalSnoc(expenses: seq<CategorizedExpense>, e: CategorizedExpense, category: string)
    ensures CategoryTotal(expenses + [e], category)
            == CategoryTotal(expenses, category) + (if e.category == category then e.receipt.totalAmount else 0.0)
  {
    OfCategorySnoc(expenses, e, category);
    if e.category == category {
      SumAmountsSnoc(OfCategory(expenses, category), e);
    } else {
      assert OfCategory(expenses, category) + [] == OfCategory(expenses, category);
    }
  }

  /** The data before filtering: one slice per category, in enumeration order. */
  function AllSlices(expenses: seq<CategorizedExpense>): (r: seq<Slice>)
    ensures |r| == |DefaultCategories|
  {
    seq(|DefaultCategories|, i requires 0 <= i < |DefaultCategories| =>
      Slice(DefaultCategories[i], CategoryTotal(expenses, DefaultCategories[i])))
  }

  /** `.filter(item => item.value > 0)`. */
  function PositiveSlices(slices: seq<Slice>): (r: seq<Slice>)
    ensures |r| <= |slices|
    ensures forall s :: s in r <==> s in slices && s.value > 0.0
  {
    if slices == [] then []
    else
      var last := slices[|slices| - 1];
      PositiveSlices(slices[..|slices| - 1]) + (if last.value > 0.0 then [last] else [])
  }

  /** `dataByCategory`. */
  function DataByCategory(expenses: seq<CategorizedExpense>): seq<Slice> {
    PositiveSlices(AllSlices(expenses))
  }

  /** The position of a slice's category in the enumeration (-1 for a name outside it). */
  function NameRank(s: Slice): int {
    if IsCategory(s.name) then CategoryIndex(s.name) else -1
  }

  /** Slices whose names are categories, strictly in enumeration order. */
  predicate InEnumerationOrder(slices: seq<Slice>) {
    (forall i :: 0 <= i < |slices| ==> IsCategory(slices[i].name))
    && forall i, j :: 0 <= i < j < |slices| ==> NameRank(slices[i]) < NameRank(slices[j])
  }

  /** Slices strictly increasing in `rank`. */
  predicate Ascending(slices: seq<Slice>, rank: Slice -> int) {
    forall i, j :: 0 <= i < j < |slices| ==> rank(slices[i]) < rank(slices[j])
  }

  /** Filtering keeps the slices in the order of any rank they were sorted by. */
  lemma {:induction false} PositiveSlicesKeepRank(slices: seq<Slice>, rank: Slice -> int)
    requires Ascending(slices, rank)
    ensures Ascending(PositiveSlices(slices), rank)
  {
    if slices != [] {
      var n := |slices| - 1;
      var prefix := slices[..n];
      assert Ascending(prefix, rank);
      PositiveSlicesKeepRank(prefix, rank);
      if slices[n].value > 0.0 {
        KeptRanksBelow(slices, rank);
        AscendingSnoc(PositiveSlices(prefix), slices[n], rank);
      }
    }
  }

  /** Every slice kept from all but the last of ascending slices ranks below the last. */
  lemma KeptRanksBelow(slices: seq<Slice>, rank: Slice -> int)
    requires slices != [] && Ascending(slices, rank)
    ensures forall s :: s in PositiveSlices(slices[..|slices| - 1]) ==> rank(s) < rank(slices[|slices| - 1])
  {
    var n := |slices| - 1;
    forall s | s in PositiveSlices(slices[..n])
      ensures rank(s) < rank(slices[n])
    {
      var k :| 0 <= k < n && slices[..n][k] == s;
      assert slices[k] == s;
    }
  }

  lemma AscendingSnoc(slices: seq<Slice>, last: Slice, rank: Slice -> int)
    requires Ascending(slices, rank)
    requires forall s :: s in slices ==> rank(s) < rank(last)
    ensures Ascending(slices + [last], rank)
  {
    var all := slices + [last];
    forall i, j | 0 <= i < j < |all|
      ensures rank(all[i]) < rank(all[j])
    {
      assert all[i] == slices[i];
      if j < |slices| {
        assert all[j] == slices[j];
      }
    }
  }

  lemma PositiveSlicesKeepOrder(slices: seq<Slice>)
    requires InEnumerationOrder(slices)
    ensures InEnumerationOrder(PositiveSlices(slices))
  {
    PositiveSlicesKeepRank(slices, NameRank);
    var kept := PositiveSlices(slices);
    forall i | 0 <= i < |kept|
      ensures IsCategory(kept[i].name)
    {
      assert kept[i] in slices;
    }
  }

  /** The category at position i of the enumeration has index i. */
  lemma CategoryIndexOfPosition(i: nat)
    requires i < |DefaultCategories|
    ensures CategoryIndex(DefaultCategories[i]) == i
  {
    CategoriesWellFormed();
  }

  lemma AllSlicesInOrder(expenses: seq<CategorizedExpense>)
    ensures InEnumerationOrder(AllSlices(expenses))
  {
    var all := AllSlices(expenses);
    forall i | 0 <= i < |all|
      ensures IsCategory(all[i].name) && CategoryIndex(all[i].name) == i
    {
      CategoryIndexOfPosition(i);
    }
  }

  /**
   * The chart shows exactly the categories with a positive total, each with
   * that total, at most once and in enumeration order.
   */
  lemma DataByCategorySpec(expenses: seq<CategorizedExpense>)
    ensures forall s :: s in DataByCategory(expenses) ==>
              IsCategory(s.name) && s.value > 0.0 && s.value == CategoryTotal(expenses, s.name)
    ensures forall c :: IsCategory(c) && CategoryTotal(expenses, c) > 0.0 ==>
              Slice(c, CategoryTotal(expenses, c)) in DataByCategory(expenses)
    ensures InEnumerationOrder(DataByCategory(expenses))
    ensures |DataByCategory(expenses)| <= |DefaultCategories|
  {
    AllSlicesInOrder(expenses);
    PositiveSlicesKeepOrder(AllSlices(expenses));
    forall c | IsCategory(c) && CategoryTotal(expenses, c) > 0.0
      ensures Slice(c, CategoryTotal(expenses, c)) in AllSlices(expenses)
    {
      var i := CategoryIndex(c);
      assert AllSlices(expenses)[i] == Slice(c, CategoryTotal(expenses, c));
    }
  }

  /** An expense whose category is not in the enumeration changes no slice. */
  lemma ForeignExpenseIgnored(expenses: seq<CategorizedExpense>, e: CategorizedExpense)
    requires !IsCategory(e.category)
    ensures DataByCategory(expenses + [e]) == DataByCategory(expenses)
  {
    forall i | 0 <= i < |DefaultCategories|
      ensures AllSlices(expenses + [e])[i] == AllSlices(expenses)[i]
    {
      CategoryTotalSnoc(expenses, e, DefaultCategories[i]);
    }
    assert AllSlices(expenses + [e]) == AllSlices(expenses);
  }

  /** `expenses.length === 0 || dataByCategory.length === 0`. */
  predicate ShowsEmptyState(expenses: seq<CategorizedExpense>) {
    |expenses| == 0 || |DataByCategory(expenses)| == 0
  }

  /** The empty state is shown exactly when no category has a positive total. */
  lemma EmptyStateSpec(expenses: seq<CategorizedExpense>)
    ensures ShowsEmptyState(expenses) <==> forall c :: IsCategory(c) ==> CategoryTotal(expenses, c) <= 0.0
  {
    DataByCategorySpec(expenses);
    var data := DataByCategory(expenses);
    if data != [] {
      assert data[0] in data;
    }
  }

  /** `COLORS[index % COLORS.length]`. */
  function SliceColor(index: nat): (color: string)
    ensures color in Colors
  {
    Colors[index % |Colors|]
  }

  lemma ColorsDistinct()
    ensures forall i, j :: 0 <= i < j < |Colors| ==> Colors[i] != Colors[j]
  {
  }

  /** There is a colour per category, so the slices of one chart never share a colour. */
  lemma SliceColorsDistinct(expenses: seq<CategorizedExpense>)
    ensures forall i, j :: 0 <= i < j < |DataByCategory(expenses)| ==> SliceColor(i) != SliceColor(j)
  {
    assert |DataByCategory(expenses)| <= |Colors|;
    forall i, j | 0 <= i < j < |Colors|
      ensures SliceColor(i) != SliceColor(j)
    {
      ColorsDistinct();
      assert i % |Colors| == i && j % |Colors| == j;
    }
  }
}
