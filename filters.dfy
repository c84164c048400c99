/** The ingredient search of the API: `IngredientFilter.filter_name` returns
    the ingredients whose name starts with the search value, then those whose
    name only contains it, each once. A queryset is a sequence of rows; a
    `filter` keeps the order of the rows it selects. */
module Filters {
  import opened Text
  import opened Recipes

  /** No row occurs twice. */
  predicate Distinct<T(==)>(xs: seq<T>) {
    forall i, j :: 0 <= i < j < |xs| ==> xs[i] != xs[j]
  }

  /** `queryset.filter(...)`: the rows that satisfy `keep`, in order. */
  function Select(qs: seq<Ingredient>, keep: Ingredient -> bool): (r: seq<Ingredient>)
    ensures forall x :: x in r <==> x in qs && keep(x)
    ensures |r| <= |qs|
  {
    if |qs| == 0 then []
    else if keep(qs[0]) then [qs[0]] + Select(qs[1..], keep)
    else Select(qs[1..], keep)
  }

  lemma {:induction false} SelectKeepsDistinct(qs: seq<Ingredient>, keep: Ingredient -> bool)
    requires Distinct(qs)
    ensures Distinct(Select(qs, keep))
  {
    if |qs| > 0 {
      assert Distinct(qs[1..]) by {
        forall i, j | 0 <= i < j < |qs[1..]| ensures qs[1..][i] != qs[1..][j] {
          assert qs[1..][i] == qs[i + 1] && qs[1..][j] == qs[j + 1];
        }
      }
      SelectKeepsDistinct(qs[1..], keep);
      if keep(qs[0]) {
        assert qs[0] !in qs[1..] by {
          forall k | 0 <= k < |qs[1..]| ensures qs[1..][k] != qs[0] { assert qs[1..][k] == qs[k + 1]; }
        }
        assert qs[0] !in Select(qs[1..], keep);
      }
    }
  }

  /** The lookup `name__istartswith=value`. */
  function NameStartsWith(value: string): (keep: Ingredient -> bool) {
    (x: Ingredient) => IStartsWith(x.name, value)
  }

  /** The lookup `name__icontains=value`, minus the rows of `start`. */
  function NameContainsOutside(value: string, start: seq<Ingredient>): (keep: Ingredient -> bool) {
    (x: Ingredient) => IContains(x.name, value) && x !in start
  }

  /** `queryset.filter(name__istartswith=value)` */
  function StartGroup(qs: seq<Ingredient>, value: string): (r: seq<Ingredient>)
  {
    Select(qs, NameStartsWith(value))
  }

  /** The contains group `difference` the start group. */
  function ContainsOnlyGroup(qs: seq<Ingredient>, value: string): (r: seq<Ingredient>)
  {
    Select(qs, NameContainsOutside(value, StartGroup(qs, value)))
  }

  /** `filter_name(queryset, 'name', value)`: the union of the two groups. */
  function FilterName(qs: seq<Ingredient>, value: string): (r: seq<Ingredient>)
    ensures forall x :: x in r ==> x in qs
    ensures |StartGroup(qs, value)| <= |r| && r[..|StartGroup(qs, value)|] == StartGroup(qs, value)
  {
    StartGroup(qs, value) + ContainsOnlyGroup(qs, value)
  }

  /** A name that starts with the value contains it. */
  lemma IStartsWithContains(s: string, p: string)
    requires IStartsWith(s, p)
    ensures IContains(s, p)
  {
    PrefixOccurs(LowerString(s), LowerString(p));
  }

  /** Exactly the rows whose name contains the value are returned. */
  lemma FilterNameMembers(qs: seq<Ingredient>, value: string)
    ensures forall x :: x in FilterName(qs, value) <==> x in qs && IContains(x.name, value)
  {
    forall x | x in qs && IStartsWith(x.name, value) ensures IContains(x.name, value) {
      IStartsWithContains(x.name, value);
    }
  }

  /** Every returned name contains the value. */
  lemma FilterNameSound(qs: seq<Ingredient>, value: string)
    ensures forall i :: 0 <= i < |FilterName(qs, value)| ==> IContains(FilterName(qs, value)[i].name, value)
  {
    FilterNameMembers(qs, value);
  }

  /** A queryset without repeated rows gives a result without repeated rows. */
  lemma FilterNameDistinct(qs: seq<Ingredient>, value: string)
    requires Distinct(qs)
    ensures Distinct(FilterName(qs, value))
  {
    var a, b := StartGroup(qs, value), ContainsOnlyGroup(qs, value);
    SelectKeepsDistinct(qs, NameStartsWith(value));
    SelectKeepsDistinct(qs, NameContainsOutside(value, a));
    var r := a + b;
    forall i, j | 0 <= i < j < |r| ensures r[i] != r[j] {
      if j < |a| {
        assert r[i] == a[i] && r[j] == a[j];
      } else if i >= |a| {
        assert r[i] == b[i - |a|] && r[j] == b[j - |a|];
      } else {
        assert r[i] == a[i] && r[j] == b[j - |a|];
        assert r[j] !in a;
      }
    }
  }

  /** The rows whose name starts with the value come first, and all of them;
      the rows after them only contain it. */
  lemma FilterNameOrder(qs: seq<Ingredient>, value: string)
    ensures var r, n := FilterName(qs, value), |StartGroup(qs, value)|;
      && n <= |r|
      && (forall i :: 0 <= i < n ==> IStartsWith(r[i].name, value))
      && (forall i :: n <= i < |r| ==> !IStartsWith(r[i].name, value) && IContains(r[i].name, value))
      && (forall i, j ::
            0 <= i < |r| && 0 <= j < |r| && IStartsWith(r[i].name, value) && !IStartsWith(r[j].name, value)
            ==> i < j)
  {
    var a, b := StartGroup(qs, value), ContainsOnlyGroup(qs, value);
    var r := a + b;
    forall i | 0 <= i < |r|
      ensures i < |a| <==> IStartsWith(r[i].name, value)
      ensures i >= |a| ==> IContains(r[i].name, value)
    {
      if i < |a| {
        assert r[i] == a[i] && a[i] in a;
      } else {
        assert r[i] == b[i - |a|] && b[i - |a|] in b;
      }
    }
  }
}
