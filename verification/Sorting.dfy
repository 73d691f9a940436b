/** `sorted` with a key: stable, and the same elements. */
module Sorting {

  predicate Ascending(keys: seq<real>) { forall i, j :: 0 <= i < j < |keys| ==> keys[i] <= keys[j] }

  predicate Ordered<T>(s: seq<T>, key: T -> real) { forall i, j :: 0 <= i < j < |s| ==> key(s[i]) <= key(s[j]) }

  /** Puts `x` behind everything that is not greater. */
  function Insert<T>(s: seq<T>, x: T, key: T -> real): seq<T> {
    if s == [] || key(s[|s| - 1]) <= key(x) then s + [x]
    else Insert(s[..|s| - 1], x, key) + [s[|s| - 1]]
  }

  function Sort<T>(s: seq<T>, key: T -> real): seq<T> {
    if s == [] then [] else Insert(Sort(s[..|s| - 1], key), s[|s| - 1], key)
  }

  lemma {:induction false} InsertElements<T>(s: seq<T>, x: T, key: T -> real)
    ensures multiset(Insert(s, x, key)) == multiset(s) + multiset{x} && |Insert(s, x, key)| == |s| + 1
  {
    if s != [] && key(s[|s| - 1]) > key(x) {
      InsertElements(s[..|s| - 1], x, key);
      assert s == s[..|s| - 1] + [s[|s| - 1]];
    }
  }

  lemma {:induction false} InsertBounded<T>(s: seq<T>, x: T, key: T -> real, bound: real)
    requires key(x) <= bound && forall i :: 0 <= i < |s| ==> key(s[i]) <= bound
    ensures forall i :: 0 <= i < |Insert(s, x, key)| ==> key(Insert(s, x, key)[i]) <= bound
  {
    if s != [] && key(s[|s| - 1]) > key(x) {
      InsertBounded(s[..|s| - 1], x, key, bound);
    }
  }

  lemma {:induction false} InsertOrdered<T>(s: seq<T>, x: T, key: T -> real)
    requires Ordered(s, key)
    ensures Ordered(Insert(s, x, key), key)
  {
    if s != [] && key(s[|s| - 1]) > key(x) {
      InsertOrdered(s[..|s| - 1], x, key);
      InsertBounded(s[..|s| - 1], x, key, key(s[|s| - 1]));
    }
  }

  lemma {:induction false} SortSorts<T>(s: seq<T>, key: T -> real)
    ensures Ordered(Sort(s, key), key) && multiset(Sort(s, key)) == multiset(s) && |Sort(s, key)| == |s|
  {
    if s != [] {
      var before, last := s[..|s| - 1], s[|s| - 1];
      SortSorts(before, key);
      InsertElements(Sort(before, key), last, key);
      InsertOrdered(Sort(before, key), last, key);
      assert s == before + [last];
    }
  }

  lemma SameElements<T>(a: seq<T>, b: seq<T>, i: nat) returns (j: nat)
    requires multiset(a) == multiset(b) && i < |a|
    ensures j < |b| && b[j] == a[i]
  {
    assert a[i] in multiset(b);
    j :| 0 <= j < |b| && b[j] == a[i];
  }

  lemma GreatestLast(a: seq<real>, b: seq<real>)
    requires Ascending(a) && Ascending(b) && multiset(a) == multiset(b) && |a| == |b| > 0
    ensures a[|a| - 1] == b[|b| - 1]
  {
    var i := SameElements(a, b, |a| - 1);
    var j := SameElements(b, a, |b| - 1);
  }

  lemma WithoutLast<T>(a: seq<T>)
    requires |a| > 0
    ensures multiset(a[..|a| - 1]) == multiset(a) - multiset{a[|a| - 1]}
  {
    assert a == a[..|a| - 1] + [a[|a| - 1]];
  }

  lemma SameLength<T>(a: seq<T>, b: seq<T>)
    requires multiset(a) == multiset(b)
    ensures |a| == |b|
  {
    assert |multiset(a)| == |a|;
    assert |multiset(b)| == |b|;
  }

  /** There is one ascending arrangement of the same numbers. */
  lemma {:induction false} AscendingUnique(a: seq<real>, b: seq<real>)
    requires Ascending(a) && Ascending(b) && multiset(a) == multiset(b)
    ensures a == b
    decreases |a|
  {
    SameLength(a, b);
    if |a| > 0 {
      GreatestLast(a, b);
      WithoutLast(a);
      WithoutLast(b);
      var c, d := a[..|a| - 1], b[..|b| - 1];
      AscendingUnique(c, d);
      assert a == c + [a[|a| - 1]] && b == d + [b[|b| - 1]];
    }
  }

  function Keys<T>(s: seq<T>, key: T -> real): seq<real> { seq(|s|, i requires 0 <= i < |s| => key(s[i])) }

  lemma {:induction false} KeysOfInsert<T>(s: seq<T>, x: T, key: T -> real, id: real -> real)
    requires forall r :: id(r) == r
    ensures Keys(Insert(s, x, key), key) == Insert(Keys(s, key), key(x), id)
  {
    if s == [] || key(s[|s| - 1]) <= key(x) {
      assert Keys(s + [x], key) == Keys(s, key) + [key(x)];
    } else {
      var before, last := s[..|s| - 1], s[|s| - 1];
      KeysOfInsert(before, x, key, id);
      assert Keys(s, key)[..|s| - 1] == Keys(before, key);
      assert Keys(Insert(before, x, key) + [last], key) == Keys(Insert(before, x, key), key) + [key(last)];
    }
  }

  /** Sorting by a key sorts the keys. */
  lemma {:induction false} KeysOfSort<T>(s: seq<T>, key: T -> real, id: real -> real)
    requires forall r :: id(r) == r
    ensures Keys(Sort(s, key), key) == Sort(Keys(s, key), id)
  {
    if s != [] {
      var before, last := s[..|s| - 1], s[|s| - 1];
      KeysOfSort(before, key, id);
      KeysOfInsert(Sort(before, key), last, key, id);
      assert Keys(s, key)[..|s| - 1] == Keys(before, key);
    }
  }

  predicate StrictlyOrdered<T>(s: seq<T>, key: T -> real) { forall i, j :: 0 <= i < j < |s| ==> key(s[i]) < key(s[j]) }

  lemma StrictGreatestLast<T>(a: seq<T>, b: seq<T>, key: T -> real)
    requires Ordered(a, key) && StrictlyOrdered(b, key) && multiset(a) == multiset(b) && |a| == |b| > 0
    ensures a[|a| - 1] == b[|b| - 1]
  {
    var i := SameElements(a, b, |a| - 1);
    var j := SameElements(b, a, |b| - 1);
  }

  lemma LastOff<T>(a: seq<T>, b: seq<T>, key: T -> real)
    requires Ordered(a, key) && StrictlyOrdered(b, key) && multiset(a) == multiset(b) && |a| == |b| > 0
    ensures Ordered(a[..|a| - 1], key) && StrictlyOrdered(b[..|b| - 1], key)
    ensures multiset(a[..|a| - 1]) == multiset(b[..|b| - 1]) && a[|a| - 1] == b[|b| - 1]
  {
    StrictGreatestLast(a, b, key);
    WithoutLast(a);
    WithoutLast(b);
  }

  /** With different keys there is one ordered arrangement. */
  lemma {:induction false} OrderedUnique<T>(a: seq<T>, b: seq<T>, key: T -> real, n: nat)
    requires Ordered(a, key) && StrictlyOrdered(b, key) && multiset(a) == multiset(b) && |a| == |b| == n
    ensures a == b
    decreases n
  {
    if n > 0 {
      LastOff(a, b, key);
      OrderedUnique(a[..n - 1], b[..n - 1], key, n - 1);
      assert a == a[..n - 1] + [a[n - 1]];
      assert b == b[..n - 1] + [b[n - 1]];
    }
  }
}
