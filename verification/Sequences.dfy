/** Sequences without repetition, and sequences with the same elements. */
module Sequences {

  predicate Distinct<T(==)>(s: seq<T>) { forall i, j :: 0 <= i < j < |s| ==> s[i] != s[j] }

  lemma RemovedAt<T>(s: seq<T>, n: nat)
    requires n < |s|
    ensures multiset(s[..n] + s[n + 1..]) == multiset(s) - multiset{s[n]}
  {
    assert s == s[..n] + [s[n]] + s[n + 1..];
  }

  /** The last element of a has a place in b; without the two, the sequences still have the same elements. */
  lemma MatchLast<T>(a: seq<T>, b: seq<T>) returns (n: nat)
    requires multiset(a) == multiset(b) && a != []
    ensures n < |b| && b[n] == a[|a| - 1] && multiset(a[..|a| - 1]) == multiset(b[..n] + b[n + 1..])
  {
    var last := a[|a| - 1];
    assert last in multiset(b);
    n :| 0 <= n < |b| && b[n] == last;
    assert a == a[..|a| - 1] + [last];
    RemovedAt(b, n);
  }
}
