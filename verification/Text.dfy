/** Strings as the standard library orders and searches them. */
module Text {
  import opened Helpers

  // ----- lexicographic order --------------------------------------------------

  predicate Less(a: string, b: string) {
    b != [] && (a == [] || a[0] < b[0] || (a[0] == b[0] && Less(a[1..], b[1..])))
  }

  lemma LessIrreflexive(a: string)
    ensures !Less(a, a)
  {
  }

  lemma {:induction false} LessTotal(a: string, b: string)
    ensures Less(a, b) || a == b || Less(b, a)
  {
    if a != [] && b != [] && a[0] == b[0] {
      LessTotal(a[1..], b[1..]);
      assert a == [a[0]] + a[1..] && b == [b[0]] + b[1..];
    }
  }

  lemma {:induction false} LessTransitive(a: string, b: string, c: string)
    requires Less(a, b) && Less(b, c)
    ensures Less(a, c)
  {
    if a != [] && a[0] == b[0] == c[0] {
      LessTransitive(a[1..], b[1..], c[1..]);
    }
  }

  lemma LessCons(c: char, a: string, b: string)
    ensures Less([c] + a, [c] + b) <==> Less(a, b)
  {
    assert ([c] + a)[1..] == a && ([c] + b)[1..] == b;
  }

  lemma ConsConcat(c: char, q: string, a: string)
    ensures ([c] + q) + a == [c] + (q + a)
  {
  }

  lemma LessPrefixStep(c: char, q: string, a: string, b: string)
    ensures Less(([c] + q) + a, ([c] + q) + b) <==> Less(q + a, q + b)
  {
    ConsConcat(c, q, a);
    ConsConcat(c, q, b);
    LessCons(c, q + a, q + b);
  }

  /** A common prefix does not matter. */
  lemma {:induction false} LessPrefix(p: string, a: string, b: string)
    ensures Less(p + a, p + b) <==> Less(a, b)
    decreases |p|
  {
    if p == [] {
      assert p + a == a && p + b == b;
    } else {
      LessPrefix(p[1..], a, b);
      LessPrefixStep(p[0], p[1..], a, b);
      assert p == [p[0]] + p[1..];
    }
  }

  /** Prefixes of equal length decide first. */
  lemma {:induction false} LessConcat(a: string, b: string, x: string, y: string)
    requires |a| == |b|
    ensures Less(a + x, b + y) <==> Less(a, b) || (a == b && Less(x, y))
  {
    if a == [] {
      assert a + x == x && b + y == y;
    } else {
      LessConcat(a[1..], b[1..], x, y);
      assert (a + x)[1..] == a[1..] + x && (b + y)[1..] == b[1..] + y;
      assert a == [a[0]] + a[1..] && b == [b[0]] + b[1..];
    }
  }

  ghost predicate Ascending(s: seq<string>) {
    forall i, j :: 0 <= i < j < |s| ==> Less(s[i], s[j])
  }

  ghost predicate Alike(s: seq<string>, t: seq<string>) {
    forall x :: x in s <==> x in t
  }

  /** A strictly ascending list is determined by its members. */
  lemma {:induction false} AscendingUnique(s: seq<string>, t: seq<string>)
    requires Ascending(s) && Ascending(t) && Alike(s, t)
    ensures s == t
    decreases |s|
  {
    SameEmptiness(s, t);
    SameEmptiness(t, s);
    if s != [] {
      FirstIsLeast(s, t);
      FirstIsLeast(t, s);
      LessAsymmetric(s[0], t[0]);
      TailsAlike(s, t);
      AscendingUnique(s[1..], t[1..]);
      assert s == [s[0]] + s[1..] && t == [t[0]] + t[1..];
    }
  }

  lemma TailsAlike(s: seq<string>, t: seq<string>)
    requires Ascending(s) && Ascending(t) && Alike(s, t) && s != [] && t != [] && s[0] == t[0]
    ensures Ascending(s[1..]) && Ascending(t[1..]) && Alike(s[1..], t[1..])
  {
    TailMembers(s);
    TailMembers(t);
  }

  lemma SameEmptiness(s: seq<string>, t: seq<string>)
    requires forall x :: x in s ==> x in t
    ensures s != [] ==> t != []
  {
    if s != [] {
      assert s[0] in s;
    }
  }

  lemma {:induction false} LessAsymmetric(a: string, b: string)
    ensures !(Less(a, b) && Less(b, a))
  {
    if a != [] && b != [] {
      LessAsymmetric(a[1..], b[1..]);
    }
  }

  lemma FirstIsLeast(s: seq<string>, t: seq<string>)
    requires Ascending(s) && s != [] && t != [] && forall x :: x in t ==> x in s
    ensures s[0] == t[0] || Less(s[0], t[0])
  {
    assert t[0] in t;
    var k :| 0 <= k < |s| && s[k] == t[0];
  }

  lemma LessIsWeakOrder()
    ensures WeakOrder(Less)
  {
    forall a, b ensures !(Less(a, b) && Less(b, a)) {
      LessAsymmetric(a, b);
    }
    forall a, b, c | Less(a, c) ensures Less(a, b) || Less(b, c) {
      LessTotal(a, b);
      if Less(b, a) {
        LessTransitive(b, a, c);
      }
    }
  }

  lemma AscendingIfDistinct(s: seq<string>)
    requires Ordered(s, Less) && NoDup(s)
    ensures Ascending(s)
  {
    forall i, j | 0 <= i < j < |s| ensures Less(s[i], s[j]) {
      LessTotal(s[i], s[j]);
    }
  }

  lemma TailMembers(s: seq<string>)
    requires Ascending(s) && s != []
    ensures forall x :: x in s[1..] <==> x in s && x != s[0]
  {
    LessIrreflexive(s[0]);
    forall x ensures x in s[1..] <==> x in s && x != s[0] {
      assert s == [s[0]] + s[1..];
      if x in s[1..] {
        var i :| 0 <= i < |s[1..]| && s[1..][i] == x;
        assert s[i + 1] == x && Less(s[0], x);
      }
    }
  }

  lemma LastIsGreatest(s: seq<string>, sorted: seq<string>)
    requires Ordered(sorted, Less) && multiset(sorted) == multiset(s) && s != []
    ensures sorted != [] && sorted[|sorted| - 1] in s
    ensures forall x :: x in s ==> !Less(sorted[|sorted| - 1], x)
  {
    SameMembers(sorted, s);
    var n := |sorted| - 1;
    assert sorted[n] in sorted;
    forall x | x in s ensures !Less(sorted[n], x) {
      assert x in sorted;
      var i :| 0 <= i < |sorted| && sorted[i] == x;
      LessIrreflexive(x);
    }
  }

  /** The members of a directory in the order in which they are read. */
  method SortedNames(names: set<string>) returns (sorted: seq<string>)
    ensures Ascending(sorted) && forall x :: x in sorted <==> x in names
  {
    var list: seq<string>, left := [], names;
    while left != {}
      invariant left <= names && NoDup(list)
      invariant forall x :: x in list <==> x in names && x !in left
    {
      var x :| x in left;
      list := list + [x];
      left := left - {x};
    }
    LessIsWeakOrder();
    sorted := Sort(list, Less);
    NoDupKept(list, sorted);
    SameMembers(list, sorted);
    AscendingIfDistinct(sorted);
  }

  // ----- the pieces of the patterns in use ------------------------------------

  predicate IsDigit(c: char) {
    '0' <= c <= '9'
  }

  function DigitValue(c: char): nat
    requires IsDigit(c)
  {
    c as int - '0' as int
  }

  function DigitChar(d: nat): (c: char)
    requires d < 10
    ensures IsDigit(c) && DigitValue(c) == d
  {
    ('0' as int + d) as char
  }

  /** `s` is empty or all digits. */
  predicate Digits(s: string) {
    forall i :: 0 <= i < |s| ==> IsDigit(s[i])
  }

  predicate OneLine(s: string) {
    '\n' !in s
  }

  /** Where an unanchored `(.*?)` that ends at `i` begins: just after the last
      line break before `i`, because `.` matches anything else. */
  function LineStart(s: string, i: nat): (k: nat)
    requires i <= |s|
    ensures k <= i && OneLine(s[k..i])
    ensures k > 0 ==> s[k - 1] == '\n'
    ensures OneLine(s[..i]) <==> k == 0
  {
    if i == 0 || s[i - 1] == '\n' then i
    else
      var k := LineStart(s, i - 1);
      assert s[k..i] == s[k..i - 1] + [s[i - 1]] && s[..i] == s[..i - 1] + [s[i - 1]];
      k
  }
}
