/**
 * components/ThresholdSettings.tsx: the editing rules of the threshold form.
 * The form's list is the state of a ThresholdEditor; rendering is not modelled.
 */
module ThresholdSettings {
  import opened Results
  import opened JsRuntime
  import opened Constants
  import opened Types
  import opened Db
  import opened ThresholdService

  /** `list.find(t => t.category === c)`: the first entry of the category. */
  function FindThreshold(list: seq<Threshold>, c: string): (r: Option<Threshold>)
    ensures r.Some? ==> r.value in list && r.value.category == c
    ensures r.None? ==> forall t :: t in list ==> t.category != c
  {
    if list == [] then None
    else if list[0].category == c then Some(list[0])
    else FindThreshold(list[1..], c)
  }

  /** find returns the entry of the category that comes first. */
  lemma {:induction false} FindThresholdIsFirst(list: seq<Threshold>, c: string, k: nat)
    requires k < |list| && list[k].category == c
    requires forall j :: 0 <= j < k ==> list[j].category != c
    ensures FindThreshold(list, c) == Some(list[k])
  {
    if k > 0 {
      FindThresholdIsFirst(list[1..], c, k - 1);
    }
  }

  /** The list the form starts from: per category, in enumeration order, its current threshold or amount 0. */
  function InitialThresholds(current: seq<Threshold>): (r: seq<Threshold>)
    ensures |r| == |DefaultCategories|
  {
    seq(|DefaultCategories|, i requires 0 <= i < |DefaultCategories| =>
      FindThreshold(current, DefaultCategories[i]).GetOr(Threshold(DefaultCategories[i], 0.0)))
  }

  lemma InitialThresholdsSpec(current: seq<Threshold>)
    ensures forall i :: 0 <= i < |DefaultCategories| ==> InitialThresholds(current)[i].category == DefaultCategories[i]
    ensures forall i :: 0 <= i < |DefaultCategories| && FindThreshold(current, DefaultCategories[i]).Some? ==>
              InitialThresholds(current)[i] in current
    ensures forall i :: 0 <= i < |DefaultCategories| && FindThreshold(current, DefaultCategories[i]).None? ==>
              InitialThresholds(current)[i].amount == 0.0
  {
  }

  /**
   * The new amount an input string asks for: None (ignore the keystroke) for
   * a non-empty string that is not a number, 0 for the empty string, and the
   * number clamped at 0 otherwise.
   */
  function AmountInput(amountStr: string): (a: Option<real>)
    ensures a.Some? ==> a.value >= 0.0
  {
    match ParseFloat(amountStr)
    case None => if amountStr != "" then None else Some(0.0)
    case Some(x) => Some(if x > 0.0 then x else 0.0)
  }

  lemma AmountInputSpec(amountStr: string)
    ensures amountStr == "" ==> AmountInput(amountStr) == Some(0.0)
    ensures AmountInput(amountStr).None? <==> amountStr != "" && ParseFloat(amountStr).None?
    ensures ParseFloat(amountStr).Some? && ParseFloat(amountStr).value >= 0.0 ==>
              AmountInput(amountStr) == ParseFloat(amountStr)
    ensures ParseFloat(amountStr).Some? && ParseFloat(amountStr).value < 0.0 ==>
              AmountInput(amountStr) == Some(0.0)
  {
  }

  /** A decimal numeral sets its value; text that starts with no number is ignored. */
  lemma AmountInputExamples(whole: string, frac: string, junk: string)
    requires whole != [] && forall i :: 0 <= i < |whole| ==> IsDigit(whole[i])
    requires forall i :: 0 <= i < |frac| ==> IsDigit(frac[i])
    requires junk != [] && !IsSpace(junk[0]) && !IsDigit(junk[0])
    requires junk[0] != '+' && junk[0] != '-' && junk[0] != '.'
    ensures AmountInput(whole + "." + frac) == Some(DecimalValue(whole, frac))
    ensures AmountInput(junk) == None
  {
    ParseFloatOfDecimal(whole, frac);
    TrimStartOfUnpadded(junk);
    ParseFloatOfNonNumeral(junk);
  }

  /** `prev.map(t => t.category === category ? { ...t, amount } : t)`. */
  function SetAmount(list: seq<Threshold>, category: string, amount: real): (r: seq<Threshold>)
    ensures |r| == |list|
  {
    seq(|list|, i requires 0 <= i < |list| =>
      if list[i].category == category then list[i].(amount := amount) else list[i])
  }

  /** Only the entries of the named category change, and only in their amount; the order is kept. */
  lemma SetAmountSpec(list: seq<Threshold>, category: string, amount: real)
    ensures forall i :: 0 <= i < |list| ==> SetAmount(list, category, amount)[i].category == list[i].category
    ensures forall i :: 0 <= i < |list| && list[i].category == category ==> SetAmount(list, category, amount)[i].amount == amount
    ensures forall i :: 0 <= i < |list| && list[i].category != category ==> SetAmount(list, category, amount)[i] == list[i]
  {
  }

  /** `thresholds.filter(t => t.amount > 0)`: the active thresholds, in order. */
  function ActiveThresholds(list: seq<Threshold>): (r: seq<Threshold>)
    ensures |r| <= |list|
    ensures forall t :: t in r <==> t in list && t.amount > 0.0
  {
    if list == [] then []
    else
      var last := list[|list| - 1];
      ActiveThresholds(list[..|list| - 1]) + (if last.amount > 0.0 then [last] else [])
  }

  /** One more entry is kept, at the end, exactly when its amount is positive: the filter keeps the order. */
  lemma ActiveThresholdsSnoc(list: seq<Threshold>, t: Threshold)
    ensures ActiveThresholds(list + [t]) == ActiveThresholds(list) + (if t.amount > 0.0 then [t] else [])
  {
    assert (list + [t])[..|list|] == list;
  }

  predicate NonNegative(list: seq<Threshold>) {
    forall i :: 0 <= i < |list| ==> list[i].amount >= 0.0
  }

  /** No category has two entries. */
  predicate DistinctCategories(list: seq<Threshold>) {
    forall i, j :: 0 <= i < j < |list| ==> list[i].category != list[j].category
  }

  /**
   * Saving only the active entries of a list with one entry per category and
   * no negative amount writes the same rows as saving the whole list: a
   * dropped entry had amount 0, which is also what a missing entry saves.
   */
  lemma {:induction false} ActiveSavesSameAmounts(list: seq<Threshold>, c: string)
    requires DistinctCategories(list) && NonNegative(list)
    ensures LastAmount(ActiveThresholds(list), c).GetOr(0.0) == LastAmount(list, c).GetOr(0.0)
  {
    if list != [] {
      var n := |list| - 1;
      var prefix, last := list[..n], list[n];
      assert list == prefix + [last];
      ActiveSavesSameAmounts(prefix, c);
      ActiveThresholdsSnoc(prefix, last);
      LastAmountSnoc(prefix, last, c);
      var active := ActiveThresholds(prefix);
      if last.amount > 0.0 {
        assert ActiveThresholds(list) == active + [last];
        LastAmountSnoc(active, last, c);
      } else {
        assert ActiveThresholds(list) == active + [];
        assert active + [] == active;
        if last.category == c {
          // The list's only entry of `c` was dropped with amount 0.
          forall t | t in prefix
            ensures t.category != c
          {
            var k :| 0 <= k < n && prefix[k] == t;
            assert list[k] == t;
          }
          LastAmountAbsent(prefix, c);
          LastAmountAbsent(active, c);
        }
      }
    }
  }

  lemma SaveActiveIsSaveAll(list: seq<Threshold>)
    requires DistinctCategories(list) && NonNegative(list)
    ensures SavedRows(ActiveThresholds(list)) == SavedRows(list)
  {
    forall i | 0 <= i < |DefaultCategories|
      ensures SavedRows(ActiveThresholds(list))[i] == SavedRows(list)[i]
    {
      ActiveSavesSameAmounts(list, DefaultCategories[i]);
    }
  }

  /** The form's list has one entry per category, and amounts edits keep that. */
  lemma EditedListShape(current: seq<Threshold>, category: string, amount: real)
    ensures DistinctCategories(InitialThresholds(current))
    ensures forall list :: DistinctCategories(list) ==> DistinctCategories(SetAmount(list, category, amount))
  {
    CategoriesWellFormed();
    forall list | DistinctCategories(list)
      ensures DistinctCategories(SetAmount(list, category, amount))
    {
      SetAmountSpec(list, category, amount);
    }
  }

  /** The threshold form: the list being edited. */
  class ThresholdEditor {
    var thresholds: seq<Threshold>

    /** Mounting the form with the thresholds the application holds. */
    constructor(current: seq<Threshold>)
      ensures thresholds == InitialThresholds(current)
    {
      thresholds := InitialThresholds(current);
    }

    /** The effect that rebuilds the list whenever the application's thresholds change. */
    method Reload(current: seq<Threshold>)
      modifies this
      ensures thresholds == InitialThresholds(current)
    {
      thresholds := InitialThresholds(current);
    }

    /**
     * handleAmountChange: a non-number leaves the list as it is; otherwise
     * the category's entry takes the new amount, never negative.
     */
    method HandleAmountChange(category: string, amountStr: string)
      modifies this
      ensures AmountInput(amountStr).None? ==> thresholds == old(thresholds)
      ensures AmountInput(amountStr).Some? ==>
                thresholds == SetAmount(old(thresholds), category, AmountInput(amountStr).value)
      ensures NonNegative(old(thresholds)) ==> NonNegative(thresholds)
    {
      var amount := ParseFloat(amountStr);
      if amount.None? && amountStr != "" {
        return;
      }
      var newAmount := if amount.None? then 0.0 else if amount.value > 0.0 then amount.value else 0.0;
      thresholds := SetAmount(thresholds, category, newAmount);
    }

    /** handleSave: what is handed on to be saved, the active thresholds only. */
    method HandleSave() returns (saved: seq<Threshold>)
      ensures saved == ActiveThresholds(thresholds)
      ensures forall t :: t in saved ==> t.amount > 0.0
    {
      saved := ActiveThresholds(thresholds);
    }
  }
}
