/** What the daemon relies on from `qsort`: some sorted rearrangement. */
module Sorting {

  /** `le` totally preorders the elements of `dom`. */
  ghost predicate TotalOn<T>(le: (T, T) -> bool, dom: set<T>) {
    && (forall x, y :: x in dom && y in dom ==> le(x, y) || le(y, x))
    && (forall x, y, z :: x in dom && y in dom && z in dom && le(x, y) && le(y, z) ==> le(x, z))
  }

  ghost predicate Within<T>(s: seq<T>, dom: set<T>) {
    forall i :: 0 <= i < |s| ==> s[i] in dom
  }

  ghost predicate Sorted<T>(s: seq<T>, le: (T, T) -> bool) {
    forall i, j :: 0 <= i < j < |s| ==> le(s[i], s[j])
  }

  function Insert<T>(x: T, s: seq<T>, le: (T, T) -> bool): (r: seq<T>)
    ensures multiset(r) == multiset(s) + multiset{x}
  {
    if s == [] then [x]
    else
      assert s == [s[0]] + s[1..];
      if le(x, s[0]) then [x] + s else [s[0]] + Insert(x, s[1..], le)
  }

  function Sort<T>(s: seq<T>, le: (T, T) -> bool): (r: seq<T>)
    ensures multiset(r) == multiset(s)
  {
    if s == [] then []
    else
      assert s == [s[0]] + s[1..];
      Insert(s[0], Sort(s[1..], le), le)
  }

  lemma SameElements<T>(a: seq<T>, b: seq<T>)
    requires multiset(a) == multiset(b)
    ensures |a| == |b|
    ensures forall i :: 0 <= i < |a| ==> a[i] in b
  {
    assert |multiset(a)| == |a| && |multiset(b)| == |b|;
    forall i | 0 <= i < |a| ensures a[i] in b {
      assert a[i] in multiset(a);
    }
  }

  lemma {:induction false} InsertSorted<T>(x: T, s: seq<T>, le: (T, T) -> bool, dom: set<T>)
    requires TotalOn(le, dom) && x in dom && Within(s, dom)
    requires Sorted(s, le)
    ensures Sorted(Insert(x, s, le), le)
  {
    if s == [] {
    } else if le(x, s[0]) {
      forall i | 0 <= i < |s| ensures le(x, s[i]) {
        assert i > 0 ==> le(s[0], s[i]);
      }
    } else {
      var t := s[1..];
      InsertSorted(x, t, le, dom);
      var r := Insert(x, t, le);
      assert multiset(r) == multiset(t + [x]);
      SameElements(r, t + [x]);
      forall i | 0 <= i < |r| ensures le(s[0], r[i]) {
        assert r[i] in t + [x];
      }
    }
  }

  lemma {:induction false} SortSorted<T>(s: seq<T>, le: (T, T) -> bool, dom: set<T>)
    requires TotalOn(le, dom) && Within(s, dom)
    ensures Sorted(Sort(s, le), le)
  {
    if s != [] {
      var t := s[1..];
      SortSorted(t, le, dom);
      SameElements(Sort(t, le), t);
      forall i | 0 <= i < |Sort(t, le)| ensures Sort(t, le)[i] in dom {
        assert Sort(t, le)[i] in t;
      }
      InsertSorted(s[0], Sort(t, le), le, dom);
    }
  }

  /** `qsort(a, n, sizeof *a, le)`. */
  method QSort(a: array<nat>, n: nat, le: (nat, nat) -> bool, ghost dom: set<nat>)
    requires n <= a.Length
    requires TotalOn(le, dom) && Within(a[..n], dom)
    modifies a
    ensures Sorted(a[..n], le)
    ensures multiset(a[..n]) == multiset(old(a[..n]))
  {
    var s := Sort(a[..n], le);
    SortSorted(a[..n], le, dom);
    SameElements(s, a[..n]);
    for i := 0 to n
      invariant a[..i] == s[..i]
    {
      a[i] := s[i];
    }
    assert a[..n] == s;
  }
}
