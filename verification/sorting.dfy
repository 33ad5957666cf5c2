/** The two sorts the core uses, both stable as `Array.prototype.sort` is:
    the default sort (no comparator), which orders values by their `String`
    form, and the comparator sorts `(a, b) => a - b` / `(a, b) => b - a` over
    `[name, number]` entries. Both are insertion sorts: each element is placed
    before the first element it may precede, so equal keys keep their
    original order. */
module Sorting {
  import opened Text
  import opened Seqs
  import opened Js

  // ---------------------------------------------------------------------
  // Default sort: by `String(x)`
  // ---------------------------------------------------------------------

  predicate KeyLe(a: Json, b: Json) {
    StrLe(ToJsString(a), ToJsString(b))
  }

  predicate SortedByString(xs: seq<Json>) {
    forall i, j :: 0 <= i < j < |xs| ==> KeyLe(xs[i], xs[j])
  }

  function InsertByString(x: Json, xs: seq<Json>): (r: seq<Json>)
    ensures multiset(r) == multiset(xs) + multiset{x}
    ensures |r| == |xs| + 1
  {
    if |xs| == 0 || KeyLe(x, xs[0]) then [x] + xs
    else
      assert xs == [xs[0]] + xs[1..];
      [xs[0]] + InsertByString(x, xs[1..])
  }

  lemma {:induction false} InsertByStringSorted(x: Json, xs: seq<Json>)
    requires SortedByString(xs)
    ensures SortedByString(InsertByString(x, xs))
  {
    var r := InsertByString(x, xs);
    if |xs| == 0 {
    } else if KeyLe(x, xs[0]) {
      forall j | 1 <= j < |r|
        ensures KeyLe(r[0], r[j])
      {
        if j > 1 {
          StrLeTransitive(ToJsString(x), ToJsString(xs[0]), ToJsString(xs[j - 1]));
        }
      }
    } else {
      var tail := InsertByString(x, xs[1..]);
      InsertByStringSorted(x, xs[1..]);
      StrLeTotal(ToJsString(x), ToJsString(xs[0]));
      forall j | 0 <= j < |tail|
        ensures KeyLe(xs[0], tail[j])
      {
        assert tail[j] in multiset(xs[1..]) + multiset{x};
        if tail[j] != x {
          assert tail[j] in xs[1..];
          var k :| 0 <= k < |xs[1..]| && xs[1..][k] == tail[j];
          assert xs[k + 1] == tail[j];
        }
      }
    }
  }

  /** The elements of `xs` whose `String` form is `key`, in their order in `xs`. */
  function Keyed(xs: seq<Json>, key: string): seq<Json> {
    if |xs| == 0 then [] else (if ToJsString(xs[0]) == key then [xs[0]] else []) + Keyed(xs[1..], key)
  }

  lemma {:induction false} KeyedConcat(a: seq<Json>, b: seq<Json>, key: string)
    ensures Keyed(a + b, key) == Keyed(a, key) + Keyed(b, key)
  {
    if |a| > 0 {
      assert (a + b)[1..] == a[1..] + b;
      KeyedConcat(a[1..], b, key);
    } else {
      assert a + b == b;
    }
  }

  /** Inserting `x` puts it ahead of every element with the same `String`
      form and leaves their order alone. */
  lemma {:induction false} InsertByStringStable(x: Json, xs: seq<Json>, key: string)
    ensures Keyed(InsertByString(x, xs), key) == (if ToJsString(x) == key then [x] else []) + Keyed(xs, key)
  {
    if |xs| == 0 || KeyLe(x, xs[0]) {
      assert Keyed([x], key) == if ToJsString(x) == key then [x] else [];
      KeyedConcat([x], xs, key);
    } else {
      var y, tail := xs[0], xs[1..];
      var r := InsertByString(x, xs);
      var t := InsertByString(x, tail);
      assert r == [y] + t && r[0] == y && r[1..] == t;
      KeyDiffers(x, y);
      InsertByStringStable(x, tail, key);
      var hx := if ToJsString(x) == key then [x] else [];
      var hy := if ToJsString(y) == key then [y] else [];
      assert Keyed(r, key) == hy + Keyed(t, key);
      assert Keyed(xs, key) == hy + Keyed(tail, key);
      assert hx == [] || hy == [];
    }
  }

  /** An element that may not precede another has a different `String` form. */
  lemma KeyDiffers(x: Json, y: Json)
    requires !KeyLe(x, y)
    ensures ToJsString(x) != ToJsString(y)
  {
    StrLeTotal(ToJsString(x), ToJsString(x));
  }

  /** `xs.slice().sort()` with no comparator: a permutation ordered by
      `String` form, in which elements with the same `String` form (the
      number 1 and the string "1", say) keep their input order. */
  function DefaultSort(xs: seq<Json>): (r: seq<Json>)
    ensures multiset(r) == multiset(xs)
    ensures |r| == |xs|
    ensures SortedByString(r)
    ensures forall key :: Keyed(r, key) == Keyed(xs, key)
  {
    if |xs| == 0 then []
    else
      var rest := DefaultSort(xs[1..]);
      InsertByStringSorted(xs[0], rest);
      assert xs == [xs[0]] + xs[1..];
      assert forall key :: Keyed(InsertByString(xs[0], rest), key) == Keyed(xs, key) by {
        forall key ensures Keyed(InsertByString(xs[0], rest), key) == Keyed(xs, key) {
          InsertByStringStable(xs[0], rest, key);
        }
      }
      InsertByString(xs[0], rest)
  }

  predicate AllStrings(xs: seq<Json>) {
    forall i :: 0 <= i < |xs| ==> xs[i].JStr?
  }

  /** Over strings the sorted order is unique: two sorted arrangements of the
      same multiset of strings are identical. */
  lemma {:induction false} SortedStringsUnique(a: seq<Json>, b: seq<Json>)
    requires AllStrings(a) && SortedByString(a) && SortedByString(b)
    requires multiset(a) == multiset(b)
    ensures a == b
  {
    if |a| == 0 {
      assert |b| == |multiset(b)| == 0;
    } else {
      SortedHeadsAgree(a, b);
      TailsAgree(a, b);
      SortedStringsUnique(a[1..], b[1..]);
      assert a == [a[0]] + a[1..];
      assert b == [b[0]] + b[1..];
    }
  }

  /** Two sorted arrangements of the same non-empty multiset of strings
      start with the same string. */
  lemma SortedHeadsAgree(a: seq<Json>, b: seq<Json>)
    requires |a| > 0 && AllStrings(a) && SortedByString(a) && SortedByString(b)
    requires multiset(a) == multiset(b)
    ensures |b| > 0 && a[0] == b[0]
  {
    assert |b| == |multiset(b)| == |a|;
    assert a[0] in multiset(b);
    var j :| 0 <= j < |b| && b[j] == a[0];
    assert KeyLe(b[0], a[0]) by {
      if j == 0 {
        StrLeTotal(ToJsString(b[0]), ToJsString(b[0]));
      }
    }
    assert b[0] in multiset(a);
    var k :| 0 <= k < |a| && a[k] == b[0];
    assert KeyLe(a[0], b[0]) by {
      if k == 0 {
        StrLeTotal(ToJsString(a[0]), ToJsString(a[0]));
      }
    }
    StrLeAntisymmetric(ToJsString(a[0]), ToJsString(b[0]));
  }

  /** Dropping a common head leaves arrangements of the same multiset. */
  lemma TailsAgree<T>(a: seq<T>, b: seq<T>)
    requires |a| > 0 && |b| > 0 && a[0] == b[0]
    requires multiset(a) == multiset(b)
    ensures multiset(a[1..]) == multiset(b[1..])
  {
    assert a == [a[0]] + a[1..];
    assert b == [b[0]] + b[1..];
    assert multiset(a[1..]) == multiset(a) - multiset{a[0]};
    assert multiset(b[1..]) == multiset(b) - multiset{b[0]};
  }

  /** Sorting strings ignores their original arrangement. */
  lemma DefaultSortOfPermutation(a: seq<Json>, b: seq<Json>)
    requires AllStrings(a) && multiset(a) == multiset(b)
    ensures DefaultSort(a) == DefaultSort(b)
  {
    var sa := DefaultSort(a);
    forall i | 0 <= i < |sa|
      ensures sa[i].JStr?
    {
      assert sa[i] in multiset(a);
    }
    SortedStringsUnique(sa, DefaultSort(b));
  }

  // ---------------------------------------------------------------------
  // Comparator sort: `[name, number]` entries by number
  // ---------------------------------------------------------------------

  type Entry = (string, int)

  /** Whether `a` may stay ahead of `b`: ascending for `(a, b) => a - b`,
      descending for `(a, b) => b - a`. */
  predicate Before(a: Entry, b: Entry, descending: bool) {
    if descending then a.1 >= b.1 else a.1 <= b.1
  }

  predicate SortedBy(xs: seq<Entry>, descending: bool) {
    forall i, j :: 0 <= i < j < |xs| ==> Before(xs[i], xs[j], descending)
  }

  function InsertBy(x: Entry, xs: seq<Entry>, descending: bool): (r: seq<Entry>)
    ensures multiset(r) == multiset(xs) + multiset{x}
    ensures |r| == |xs| + 1
  {
    if |xs| == 0 || Before(x, xs[0], descending) then [x] + xs
    else
      assert xs == [xs[0]] + xs[1..];
      [xs[0]] + InsertBy(x, xs[1..], descending)
  }

  lemma {:induction false} InsertBySorted(x: Entry, xs: seq<Entry>, descending: bool)
    requires SortedBy(xs, descending)
    ensures SortedBy(InsertBy(x, xs, descending), descending)
  {
    if |xs| > 0 && !Before(x, xs[0], descending) {
      var tail := InsertBy(x, xs[1..], descending);
      InsertBySorted(x, xs[1..], descending);
      forall j | 0 <= j < |tail|
        ensures Before(xs[0], tail[j], descending)
      {
        assert tail[j] in multiset(xs[1..]) + multiset{x};
        if tail[j] != x {
          assert tail[j] in xs[1..];
          var k :| 0 <= k < |xs[1..]| && xs[1..][k] == tail[j];
          assert xs[k + 1] == tail[j];
        }
      }
    }
  }

  /** The entries of `xs` whose number is `v`, in their order in `xs`. */
  function WithValue(xs: seq<Entry>, v: int): seq<Entry> {
    if |xs| == 0 then [] else (if xs[0].1 == v then [xs[0]] else []) + WithValue(xs[1..], v)
  }

  lemma {:induction false} WithValueConcat(a: seq<Entry>, b: seq<Entry>, v: int)
    ensures WithValue(a + b, v) == WithValue(a, v) + WithValue(b, v)
  {
    if |a| > 0 {
      assert (a + b)[1..] == a[1..] + b;
      WithValueConcat(a[1..], b, v);
    } else {
      assert a + b == b;
    }
  }

  /** Inserting `x` puts it ahead of every entry with the same number, so
      among equal numbers the order is `x` followed by the old order. */
  lemma {:induction false} InsertByStable(x: Entry, xs: seq<Entry>, descending: bool, v: int)
    ensures WithValue(InsertBy(x, xs, descending), v) == (if x.1 == v then [x] else []) + WithValue(xs, v)
  {
    if |xs| == 0 || Before(x, xs[0], descending) {
      assert WithValue([x], v) == if x.1 == v then [x] else [];
      WithValueConcat([x], xs, v);
    } else {
      var y, tail := xs[0], xs[1..];
      var r := InsertBy(x, xs, descending);
      var t := InsertBy(x, tail, descending);
      assert r == [y] + t && r[0] == y && r[1..] == t;
      assert y.1 != x.1;
      InsertByStable(x, tail, descending, v);
      var hx := if x.1 == v then [x] else [];
      var hy := if y.1 == v then [y] else [];
      assert WithValue(r, v) == hy + WithValue(t, v);
      assert WithValue(xs, v) == hy + WithValue(tail, v);
      assert hx == [] || hy == [];
    }
  }

  /** `entries.sort(cmp)` for the ascending or descending numeric comparator:
      a sorted permutation that keeps entries with equal numbers in their
      original order. */
  function SortBy(xs: seq<Entry>, descending: bool): (r: seq<Entry>)
    ensures multiset(r) == multiset(xs)
    ensures |r| == |xs|
    ensures SortedBy(r, descending)
    ensures forall v :: WithValue(r, v) == WithValue(xs, v)
  {
    if |xs| == 0 then []
    else
      var rest := SortBy(xs[1..], descending);
      InsertBySorted(xs[0], rest, descending);
      assert xs == [xs[0]] + xs[1..];
      assert forall v :: WithValue(InsertBy(xs[0], rest, descending), v) == WithValue(xs, v) by {
        forall v ensures WithValue(InsertBy(xs[0], rest, descending), v) == WithValue(xs, v) {
          InsertByStable(xs[0], rest, descending, v);
        }
      }
      InsertBy(xs[0], rest, descending)
  }

  /** `sorted.slice(0, k)`: the first `k` entries of a sorted sequence, each
      of which may precede every entry left out. */
  function TakeTop(sorted: seq<Entry>, k: nat, descending: bool): (r: seq<Entry>)
    requires SortedBy(sorted, descending)
    ensures |r| == Min(k, |sorted|)
    ensures SortedBy(r, descending)
    ensures multiset(r) <= multiset(sorted)
    ensures forall i, e :: 0 <= i < |r| && e in multiset(sorted) - multiset(r) ==>
              Before(r[i], e, descending)
    ensures forall v :: WithValue(r, v) <= WithValue(sorted, v)
  {
    var n := Min(k, |sorted|);
    TopOfSorted(sorted, n, descending);
    assert sorted == sorted[..n] + sorted[n..];
    assert forall v :: WithValue(sorted[..n], v) <= WithValue(sorted, v) by {
      forall v ensures WithValue(sorted[..n], v) <= WithValue(sorted, v) {
        WithValueConcat(sorted[..n], sorted[n..], v);
      }
    }
    sorted[..n]
  }

  /** The first `k` entries of a sorted sequence are its top `k`: each of them
      may precede every entry left out. */
  lemma TopOfSorted(s: seq<Entry>, k: nat, descending: bool)
    requires SortedBy(s, descending) && k <= |s|
    ensures forall i, e :: 0 <= i < k && e in multiset(s) - multiset(s[..k]) ==>
              Before(s[i], e, descending)
  {
    assert s == s[..k] + s[k..];
    assert multiset(s) - multiset(s[..k]) == multiset(s[k..]);
    forall i, e | 0 <= i < k && e in multiset(s) - multiset(s[..k])
      ensures Before(s[i], e, descending)
    {
      assert e in s[k..];
      var j :| 0 <= j < |s[k..]| && s[k..][j] == e;
      assert s[k + j] == e;
    }
  }

}
