/** `Array.prototype.filter` and the small numeric helper the card selections
    share. */
module Seqs {

  function Min(a: int, b: int): (m: int)
    ensures m <= a && m <= b && (m == a || m == b)
  {
    if a <= b then a else b
  }

  /** The elements of `xs` that satisfy `p`, in their original order. */
  function Filter<T(==,!new)>(xs: seq<T>, p: T -> bool): (r: seq<T>)
    ensures |r| <= |xs|
    ensures forall i :: 0 <= i < |r| ==> p(r[i])
    ensures forall x :: multiset(r)[x] == if p(x) then multiset(xs)[x] else 0
    ensures |r| == 0 <==> forall i :: 0 <= i < |xs| ==> !p(xs[i])
    ensures r == xs <==> forall i :: 0 <= i < |xs| ==> p(xs[i])
  {
    KeepNone(xs, p);
    KeepAll(xs, p);
    Keep(xs, p)
  }

  /** Filtering keeps the input order: a concatenation filters piece by
      piece, and a single element is kept exactly when it satisfies `p`. */
  lemma {:induction false} FilterConcat<T(!new)>(a: seq<T>, b: seq<T>, p: T -> bool)
    ensures Filter(a + b, p) == Filter(a, p) + Filter(b, p)
  {
    KeepConcat(a, b, p);
  }

  lemma FilterSingleton<T(!new)>(x: T, p: T -> bool)
    ensures Filter([x], p) == if p(x) then [x] else []
  {
    assert [x][1..] == [];
  }

  lemma {:induction false} KeepConcat<T(!new)>(a: seq<T>, b: seq<T>, p: T -> bool)
    ensures Keep(a + b, p) == Keep(a, p) + Keep(b, p)
  {
    if |a| == 0 {
      assert a + b == b;
    } else {
      assert (a + b)[1..] == a[1..] + b;
      KeepConcat(a[1..], b, p);
    }
  }

  /** The recursion behind `Filter`. */
  function Keep<T(==,!new)>(xs: seq<T>, p: T -> bool): (r: seq<T>)
    ensures |r| <= |xs|
    ensures forall i :: 0 <= i < |r| ==> p(r[i])
    ensures forall x :: multiset(r)[x] == if p(x) then multiset(xs)[x] else 0
  {
    if |xs| == 0 then []
    else
      var rest := Keep(xs[1..], p);
      assert xs == [xs[0]] + xs[1..];
      if p(xs[0]) then [xs[0]] + rest else rest
  }

  /** Nothing is kept exactly when no element satisfies `p`. */
  lemma KeepNone<T(!new)>(xs: seq<T>, p: T -> bool)
    ensures |Keep(xs, p)| == 0 <==> forall i :: 0 <= i < |xs| ==> !p(xs[i])
  {
    var r := Keep(xs, p);
    if i :| 0 <= i < |xs| && p(xs[i]) {
      assert multiset(r)[xs[i]] == multiset(xs)[xs[i]] > 0;
    }
    if |r| > 0 {
      assert p(r[0]) && multiset(xs)[r[0]] == multiset(r)[r[0]] > 0;
      assert r[0] in xs;
    }
  }

  /** Everything is kept exactly when every element satisfies `p`. */
  lemma {:induction false} KeepAll<T(!new)>(xs: seq<T>, p: T -> bool)
    ensures Keep(xs, p) == xs <==> forall i :: 0 <= i < |xs| ==> p(xs[i])
  {
    if forall i :: 0 <= i < |xs| ==> p(xs[i]) {
      if |xs| > 0 {
        var tail := xs[1..];
        forall i | 0 <= i < |tail|
          ensures p(tail[i])
        {
          assert tail[i] == xs[i + 1];
        }
        KeepAll(tail, p);
        assert Keep(xs, p) == [xs[0]] + Keep(tail, p);
        assert xs == [xs[0]] + tail;
      }
    }
  }

}
