/** The closed category enumeration and the storage key shared by the whole program. */
module Constants {
  import opened Results
  import opened JsRuntime

  /** DEFAULT_CATEGORIES, in their declared order; "Other" is the fallback. */
  const DefaultCategories: seq<string> := [
    "Groceries", "Dining Out", "Transportation", "Utilities", "Shopping", "Entertainment",
    "Healthcare", "Travel", "Education", "Gifts", "Services", "Other"
  ]

  const OtherCategory: string := "Other"

  /** The localStorage key whose presence marks the legacy migration as done. */
  const MigrationDoneKey: string := "indexedDBMigrationDone_v1"

  /** `DEFAULT_CATEGORIES.includes(s)`. */
  predicate IsCategory(s: string) {
    s in DefaultCategories
  }

  /** Position of a category in the enumeration. */
  function CategoryIndex(c: string): (i: nat)
    requires IsCategory(c)
    ensures i < |DefaultCategories| && DefaultCategories[i] == c
  {
    IndexIn(DefaultCategories, c)
  }

  function IndexIn(cats: seq<string>, c: string): (i: nat)
    requires c in cats
    ensures i < |cats| && cats[i] == c
  {
    if cats[0] == c then 0 else 1 + IndexIn(cats[1..], c)
  }

  /** `DEFAULT_CATEGORIES.find(c => c.toLowerCase() === lowered)`: the first category whose lower-case form is `lowered`. */
  function FindLowerCase(cats: seq<string>, lowered: string): (r: Option<string>)
    ensures r.Some? ==> r.value in cats && ToLower(r.value) == lowered
    ensures r.None? ==> forall c :: c in cats ==> ToLower(c) != lowered
    ensures r.Some? ==> exists k :: 0 <= k < |cats| && cats[k] == r.value
                                    && forall j :: 0 <= j < k ==> ToLower(cats[j]) != lowered
  {
    if cats == [] then None
    else if ToLower(cats[0]) == lowered then Some(cats[0])
    else
      var r := FindLowerCase(cats[1..], lowered);
      if r.Some? then
        var k :| 0 < k + 1 <= |cats[1..]| && cats[1..][k] == r.value
                 && forall j :: 0 <= j < k ==> ToLower(cats[1..][j]) != lowered;
        assert cats[k + 1] == r.value;
        r
      else r
  }

  /** The categories are distinct, are already trimmed, and no two differ only in letter case. */
  lemma CategoriesWellFormed()
    ensures forall i, j :: 0 <= i < j < |DefaultCategories| ==> ToLower(DefaultCategories[i]) != ToLower(DefaultCategories[j])
    ensures forall i, j :: 0 <= i < j < |DefaultCategories| ==> DefaultCategories[i] != DefaultCategories[j]
    ensures forall c :: IsCategory(c) ==> IsTrimmed(c)
    ensures IsCategory(OtherCategory)
  {
    forall i, j | 0 <= i < j < |DefaultCategories|
      ensures ToLower(DefaultCategories[i]) != ToLower(DefaultCategories[j])
    {
      var a, b := DefaultCategories[i], DefaultCategories[j];
      if |a| == |b| {
        assert ToLower(a)[0] == LowerChar(a[0]) && ToLower(b)[0] == LowerChar(b[0]);
        assert ToLower(a)[1] == LowerChar(a[1]) && ToLower(b)[1] == LowerChar(b[1]);
      }
    }
  }

  /** Two categories with the same lower-case form are the same category. */
  lemma CategoryByLowerCase(c: string, d: string)
    requires IsCategory(c) && IsCategory(d) && ToLower(c) == ToLower(d)
    ensures c == d
  {
    var i, j := CategoryIndex(c), CategoryIndex(d);
    CategoriesWellFormed();
  }
}
