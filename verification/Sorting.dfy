/** Sorting by a total preorder: what callers of `sort.Slice` may rely on. */
module Sorting {
  ghost predicate TotalPreorder<T(!new)>(leq: (T, T) -> bool) {
    && (forall a, b :: leq(a, b) || leq(b, a))
    && (forall a, b, c :: leq(a, b) && leq(b, c) ==> leq(a, c))
  }

  ghost predicate Sorted<T(!new)>(s: seq<T>, leq: (T, T) -> bool) {
    forall i, j :: 0 <= i < j < |s| ==> leq(s[i], s[j])
  }

  lemma Placed<T(!new)>(x: T, s: seq<T>, i: nat, leq: (T, T) -> bool)
    requires TotalPreorder(leq) && Sorted(s, leq) && i <= |s|
    requires i > 0 ==> leq(s[i - 1], x)
    requires i < |s| ==> leq(x, s[i])
    ensures Sorted(s[..i] + [x] + s[i..], leq)
  {
  }

  method Insert<T(!new)>(x: T, s: seq<T>, leq: (T, T) -> bool) returns (r: seq<T>)
    requires TotalPreorder(leq) && Sorted(s, leq)
    ensures Sorted(r, leq) && multiset(r) == multiset(s) + multiset{x}
  {
    var i := |s|;
    while i > 0 && !leq(s[i - 1], x)
      invariant 0 <= i <= |s|
      invariant i < |s| ==> leq(x, s[i])
    {
      i := i - 1;
    }
    Placed(x, s, i, leq);
    r := s[..i] + [x] + s[i..];
    assert s == s[..i] + s[i..];
  }

  method Sort<T(!new)>(s: seq<T>, leq: (T, T) -> bool) returns (r: seq<T>)
    requires TotalPreorder(leq)
    ensures Sorted(r, leq) && multiset(r) == multiset(s)
  {
    r := [];
    for i := 0 to |s|
      invariant Sorted(r, leq) && multiset(r) == multiset(s[..i])
    {
      r := Insert(s[i], r, leq);
      assert s[..i + 1] == s[..i] + [s[i]];
    }
    assert s[..|s|] == s;
  }

  predicate Distinct<T(==)>(s: seq<T>) {
    forall i, j :: 0 <= i < j < |s| ==> s[i] != s[j]
  }

  lemma DistinctJoin<T>(a: seq<T>, b: seq<T>)
    requires Distinct(a) && Distinct(b) && forall x :: x in a ==> x !in b
    ensures Distinct(a + b)
  {
    forall i, j | 0 <= i < j < |a + b|
      ensures (a + b)[i] != (a + b)[j]
    {
      if i < |a| <= j {
        assert a[i] in a && b[j - |a|] in b;
      }
    }
  }

  lemma {:induction false} DistinctOnce<T>(s: seq<T>, x: T)
    requires Distinct(s)
    ensures multiset(s)[x] <= 1
  {
    if s != [] {
      var front, last := s[..|s| - 1], s[|s| - 1];
      DistinctOnce(front, x);
      assert s == front + [last];
      assert last !in front;
    }
  }

  /** A rearrangement of distinct elements is distinct. */
  lemma SameDistinct<T>(s: seq<T>, r: seq<T>)
    requires Distinct(s) && multiset(r) == multiset(s)
    ensures Distinct(r)
  {
    forall i, j | 0 <= i < j < |r|
      ensures r[i] != r[j]
    {
      DistinctOnce(s, r[i]);
      assert r == r[..j] + r[j..];
      assert r[i] in multiset(r[..j]) && r[j] in multiset(r[j..]);
    }
  }

  // ----- Text order -----

  /** Byte-wise lexicographic order of strings. */
  predicate Lex(a: string, b: string) {
    a == "" || (b != "" && (a[0] < b[0] || (a[0] == b[0] && Lex(a[1..], b[1..]))))
  }

  lemma {:induction false} LexTotal(a: string, b: string)
    ensures Lex(a, b) || Lex(b, a)
    ensures Lex(a, b) && Lex(b, a) ==> a == b
  {
    if a != "" && b != "" && a[0] == b[0] {
      LexTotal(a[1..], b[1..]);
      assert a == [a[0]] + a[1..] && b == [b[0]] + b[1..];
    }
  }

  lemma {:induction false} LexTransitive(a: string, b: string, c: string)
    requires Lex(a, b) && Lex(b, c)
    ensures Lex(a, c)
  {
    if a != "" && a[0] == b[0] == c[0] {
      LexTransitive(a[1..], b[1..], c[1..]);
    }
  }
}
