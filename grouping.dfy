/**
 * The category grouping of the budget and vendor pages: a `reduce` over the
 * list that starts an empty array for each category the first time it is
 * seen and pushes every item onto its category's array, read back with
 * `Object.entries`. The dictionary is built in place, so the grouping is a
 * method with a loop; `Members` and `Categories` say what it builds.
 */
module Grouping {
  import opened Seqs
  import Sorting

  /** The elements of `xs` whose key is `k`, in their order in `xs`. */
  function Members<T>(xs: seq<T>, key: T -> string, k: string): (r: seq<T>)
    ensures forall i :: 0 <= i < |r| ==> key(r[i]) == k && r[i] in xs
    ensures forall i :: 0 <= i < |xs| && key(xs[i]) == k ==> xs[i] in r
  {
    if xs == [] then []
    else
      var init := xs[..|xs| - 1];
      var last := xs[|xs| - 1];
      assert xs == init + [last];
      Members(init, key, k) + (if key(last) == k then [last] else [])
  }

  /** `Members` and the sort's `WithKey` are one selection, built from either end of the list. */
  lemma {:induction false} MembersAreWithKey<T>(xs: seq<T>, key: T -> string, k: string)
    ensures Members(xs, key, k) == Sorting.WithKey(xs, key, k)
  {
    if xs != [] {
      var init := xs[..|xs| - 1];
      assert xs == init + [xs[|xs| - 1]];
      MembersAreWithKey(init, key, k);
      Sorting.WithKeyAppend(init, xs[|xs| - 1], key, k);
    }
  }

  /** The distinct keys of `xs`, in order of first appearance (the key order of `Object.entries`). */
  function Categories<T>(xs: seq<T>, key: T -> string): (r: seq<string>)
    ensures forall i, j :: 0 <= i < j < |r| ==> r[i] != r[j]
    ensures forall k :: k in r <==> exists i :: 0 <= i < |xs| && key(xs[i]) == k
  {
    if xs == [] then []
    else
      var init := xs[..|xs| - 1];
      var last := xs[|xs| - 1];
      var c := Categories(init, key);
      assert forall i :: 0 <= i < |init| ==> init[i] == xs[i];
      if key(last) in c then c else c + [key(last)]
  }

  /**
   * The names an empty object literal inherits from `Object.prototype`. For
   * these `acc[k]` is already a function, so the `!acc[k]` guard skips the
   * empty array and `acc[k].push` throws a TypeError.
   */
  const InheritedNames: set<string> := {
    "constructor", "hasOwnProperty", "isPrototypeOf", "propertyIsEnumerable",
    "toLocaleString", "toString", "valueOf", "__proto__",
    "__defineGetter__", "__defineSetter__", "__lookupGetter__", "__lookupSetter__"
  }

  /** `acc[k]` on an empty object literal is already a function. */
  predicate Inherited(k: string)
  {
    k in InheritedNames
  }

  /** No element's key is an inherited name, so the `reduce` runs to the end. */
  predicate Groupable<T>(xs: seq<T>, key: T -> string)
  {
    forall i :: 0 <= i < |xs| ==> !Inherited(key(xs[i]))
  }

  /** The grouping throws exactly when one of the categories it would list is an inherited name. */
  lemma GroupableIffCategories<T>(xs: seq<T>, key: T -> string)
    ensures Groupable(xs, key) <==> forall k :: k in Categories(xs, key) ==> !Inherited(k)
  {
    if !Groupable(xs, key) {
      var i :| 0 <= i < |xs| && Inherited(key(xs[i]));
      assert key(xs[i]) in Categories(xs, key);
    }
  }

  /**
   * The `reduce` that builds `acc`, read back with `Object.entries(acc)` as a
   * sequence of keys and the dictionary. `ok` is false when the loop throws.
   */
  method GroupBy<T>(xs: seq<T>, key: T -> string) returns (ok: bool, order: seq<string>, groups: map<string, seq<T>>)
    ensures ok <==> Groupable(xs, key)
    ensures ok ==> order == Categories(xs, key)
    ensures ok ==> forall k :: k in groups <==> k in order
    ensures ok ==> forall k :: k in groups ==> groups[k] == Members(xs, key, k)
  {
    order, groups := [], map[];
    for i := 0 to |xs|
      invariant forall c :: c in order ==> !Inherited(c)
      invariant order == Categories(xs[..i], key)
      invariant forall k :: k in groups <==> k in order
      invariant forall k :: k in groups ==> groups[k] == Members(xs[..i], key, k)
    {
      var k := key(xs[i]);
      if Inherited(k) {
        return false, order, groups;
      }
      assert xs[..i + 1][..i] == xs[..i];
      if k !in groups {
        groups := groups[k := []];
        order := order + [k];
        assert Members(xs[..i], key, k) == [] by {
          MembersOfAbsentKey(xs[..i], key, k);
        }
      }
      groups := groups[k := groups[k] + [xs[i]]];
    }
    assert xs[..|xs|] == xs;
    GroupableIffCategories(xs, key);
    ok := true;
  }

  lemma {:induction false} MembersOfAbsentKey<T>(xs: seq<T>, key: T -> string, k: string)
    requires k !in Categories(xs, key)
    ensures Members(xs, key, k) == []
  {
    if xs != [] {
      var init := xs[..|xs| - 1];
      assert forall i :: 0 <= i < |init| ==> init[i] == xs[i];
      MembersOfAbsentKey(init, key, k);
    }
  }

  /** The total of `f` over each group, added up over the keys `ks`. */
  function SumOfGroups<T>(ks: seq<string>, xs: seq<T>, key: T -> string, f: T -> int): int
  {
    if ks == [] then 0 else Sum(Members(xs, key, ks[0]), f) + SumOfGroups(ks[1..], xs, key, f)
  }

  lemma {:induction false} SumOfGroupsAppendKey<T>(ks: seq<string>, k: string, xs: seq<T>, key: T -> string, f: T -> int)
    ensures SumOfGroups(ks + [k], xs, key, f) == SumOfGroups(ks, xs, key, f) + Sum(Members(xs, key, k), f)
  {
    if ks != [] {
      assert (ks + [k])[1..] == ks[1..] + [k];
      SumOfGroupsAppendKey(ks[1..], k, xs, key, f);
    }
  }

  /** Appending one item adds its amount to the one group (of distinct keys `ks`) it belongs to. */
  lemma {:induction false} SumOfGroupsAppendItem<T>(ks: seq<string>, xs: seq<T>, x: T, key: T -> string, f: T -> int)
    requires forall i, j :: 0 <= i < j < |ks| ==> ks[i] != ks[j]
    ensures SumOfGroups(ks, xs + [x], key, f) == SumOfGroups(ks, xs, key, f) + (if key(x) in ks then f(x) else 0)
  {
    if ks != [] {
      SumOfGroupsAppendItem(ks[1..], xs, x, key, f);
      assert (xs + [x])[..|xs + [x]| - 1] == xs;
      SumAppend(Members(xs, key, ks[0]), if key(x) == ks[0] then [x] else [], f);
      assert key(x) in ks <==> key(x) == ks[0] || key(x) in ks[1..];
    }
  }

  /**
   * Every item lies in exactly one group, so the per-group totals add up to the
   * total over all items.
   */
  lemma {:induction false} GroupTotals<T>(xs: seq<T>, key: T -> string, f: T -> int)
    ensures SumOfGroups(Categories(xs, key), xs, key, f) == Sum(xs, f)
  {
    if xs != [] {
      var init := xs[..|xs| - 1];
      var last := xs[|xs| - 1];
      assert xs == init + [last];
      var c := Categories(init, key);
      assert Categories(xs, key) == if key(last) in c then c else c + [key(last)];
      GroupTotals(init, key, f);
      SumAppend(init, [last], f);
      assert Sum(xs, f) == Sum(init, f) + f(last);
      SumOfGroupsAppendItem(c, init, last, key, f);
      if key(last) in c {
        assert SumOfGroups(c, xs, key, f) == Sum(init, f) + f(last);
      } else {
        assert SumOfGroups(c, xs, key, f) == Sum(init, f);
        SumOfGroupsAppendKey(c, key(last), xs, key, f);
        MembersOfAbsentKey(init, key, key(last));
        assert Members(xs, key, key(last)) == [last];
        assert Sum([last], f) == f(last);
      }
    }
  }
}
