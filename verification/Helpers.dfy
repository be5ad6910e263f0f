/** What several modules use. */
module Helpers {

  datatype Option<+T> = None | Some(value: T)

  lemma Multiple(d: int, b: nat)
    ensures d >= 1 ==> d * b >= b
    ensures d <= -1 ==> d * b <= -(b as int)
    ensures d == 0 ==> d * b == 0
  {
  }

  // ----- sorting --------------------------------------------------------------

  /** `before` is a strict order in which elements may be equal. */
  ghost predicate WeakOrder<T(!new)>(before: (T, T) -> bool) {
    && (forall a, b :: !(before(a, b) && before(b, a)))
    && (forall a, b, c :: before(a, c) ==> before(a, b) || before(b, c))
  }

  /** No element is before one to its left. */
  ghost predicate Ordered<T>(s: seq<T>, before: (T, T) -> bool) {
    forall i, j :: 0 <= i < j < |s| ==> !before(s[j], s[i])
  }

  lemma InsertOrdered<T(!new)>(s: seq<T>, x: T, k: nat, before: (T, T) -> bool)
    requires WeakOrder(before) && Ordered(s, before) && k <= |s|
    requires k < |s| ==> before(x, s[k])
    requires k > 0 ==> !before(x, s[k - 1])
    ensures Ordered(s[..k] + [x] + s[k..], before)
  {
    forall i | 0 <= i < k ensures !before(x, s[i]) {
      NotBefore(before, x, s[k - 1], s[i]);
    }
    forall j | k <= j < |s| ensures !before(s[j], x) {
      NotBefore(before, s[j], x, s[k]);
    }
  }

  lemma InsertCounts<T>(s: seq<T>, x: T, k: nat)
    requires k <= |s|
    ensures multiset(s[..k] + [x] + s[k..]) == multiset(s) + multiset{x}
  {
    assert s == s[..k] + s[k..];
  }

  lemma NotBefore<T(!new)>(before: (T, T) -> bool, a: T, b: T, c: T)
    requires WeakOrder(before)
    ensures !before(a, a) && (before(a, b) ==> !before(b, a))
    ensures !before(a, b) && !before(b, c) ==> !before(a, c)
    ensures before(b, c) && !before(a, c) ==> !before(a, b)
  {
  }

  /** The library sort; nothing is promised about the order of equal elements. */
  method Sort<T(!new)>(s: seq<T>, before: (T, T) -> bool) returns (sorted: seq<T>)
    requires WeakOrder(before)
    ensures Ordered(sorted, before) && multiset(sorted) == multiset(s)
  {
    sorted := [];
    for i := 0 to |s|
      invariant Ordered(sorted, before) && multiset(sorted) == multiset(s[..i])
    {
      assert s[..i + 1] == s[..i] + [s[i]];
      var x, k := s[i], |sorted|;
      while k > 0 && before(x, sorted[k - 1])
        invariant 0 <= k <= |sorted|
        invariant k < |sorted| ==> before(x, sorted[k])
      {
        k := k - 1;
      }
      InsertOrdered(sorted, x, k, before);
      InsertCounts(sorted, x, k);
      sorted := sorted[..k] + [x] + sorted[k..];
    }
    assert s[..|s|] == s;
  }

  lemma SameMembers<T>(s: seq<T>, t: seq<T>)
    requires multiset(s) == multiset(t)
    ensures |s| == |t| && forall x :: x in s <==> x in t
  {
    assert |multiset(s)| == |s| && |multiset(t)| == |t|;
    assert forall x :: x in s <==> x in multiset(s);
    assert forall x :: x in t <==> x in multiset(t);
  }

  ghost predicate NoDup<T>(s: seq<T>) {
    forall i, j :: 0 <= i < j < |s| ==> s[i] != s[j]
  }

  lemma {:induction false} NoDupCounts<T>(s: seq<T>)
    ensures NoDup(s) <==> forall x :: x in s ==> multiset(s)[x] == 1
  {
    if s != [] {
      var n := |s| - 1;
      NoDupCounts(s[..n]);
      assert s == s[..n] + [s[n]];
      assert s[n] in s[..n] <==> s[n] in multiset(s[..n]);
      if NoDup(s) {
        assert s[n] !in s[..n];
      } else if forall x :: x in s ==> multiset(s)[x] == 1 {
        assert multiset(s)[s[n]] == 1;
        forall x | x in s[..n] ensures multiset(s[..n])[x] == 1 {
          assert x in s && multiset(s)[x] == 1;
        }
      }
    }
  }

  /** Sorting makes no duplicates. */
  lemma NoDupKept<T>(s: seq<T>, t: seq<T>)
    requires NoDup(s) && multiset(s) == multiset(t)
    ensures NoDup(t)
  {
    NoDupCounts(s);
    NoDupCounts(t);
    SameMembers(s, t);
  }
}
