/** Remove-then-append dedupe over any rows: what a fold of it leaves. */
module LastOwner {

  function RemoveFirst<T, K(==)>(list: seq<T>, key: T -> K, k: K): seq<T> {
    if list == [] then []
    else if key(list[0]) == k then list[1..]
    else [list[0]] + RemoveFirst(list[1..], key, k)
  }

  function AddDedupe<T, K(==)>(list: seq<T>, key: T -> K, r: T): seq<T> {
    RemoveFirst(list, key, key(r)) + [r]
  }

  function FoldDedupe<T, K(==)>(rows: seq<T>, key: T -> K): seq<T> {
    if rows == [] then []
    else AddDedupe(FoldDedupe(rows[..|rows| - 1], key), key, rows[|rows| - 1])
  }

  function Select<T>(rows: seq<T>, sel: T -> bool): seq<T> {
    if rows == [] then []
    else
      var rest := Select(rows[..|rows| - 1], sel);
      if sel(rows[|rows| - 1]) then rest + [rows[|rows| - 1]] else rest
  }

  /** Positions of the selected rows, among the first `n`, whose key no later one repeats. */
  ghost function Last<T, K>(rows: seq<T>, sel: T -> bool, key: T -> K, n: nat): (s: set<nat>)
    requires n <= |rows|
    ensures forall i :: i in s ==> i < n
  {
    if n == 0 then {}
    else
      var before := Last(rows, sel, key, n - 1);
      if sel(rows[n - 1]) then (set i | i in before && key(rows[i]) != key(rows[n - 1])) + {n - 1}
      else before
  }

  lemma {:induction false} LastMeaning<T, K>(rows: seq<T>, sel: T -> bool, key: T -> K, n: nat, i: nat)
    requires n <= |rows|
    ensures i in Last(rows, sel, key, n) <==>
              i < n && sel(rows[i]) && forall j :: i < j < n && sel(rows[j]) ==> key(rows[i]) != key(rows[j])
  {
    if n > 0 {
      LastMeaning(rows, sel, key, n - 1, i);
    }
  }

  /** `p` enumerates `s` in increasing order. */
  ghost predicate Lists(p: seq<nat>, s: set<nat>) {
    && (forall k, l :: 0 <= k < l < |p| ==> p[k] < p[l])
    && (forall k :: 0 <= k < |p| ==> p[k] in s)
    && (forall i :: i in s ==> i in p)
  }

  function At<T>(rows: seq<T>, p: seq<nat>): (r: seq<T>)
    requires forall k :: 0 <= k < |p| ==> p[k] < |rows|
    ensures |r| == |p|
    ensures forall k :: 0 <= k < |r| ==> r[k] == rows[p[k]]
  {
    if p == [] then [] else [rows[p[0]]] + At(rows, p[1..])
  }

  lemma {:induction false} RemoveFirstAt<T, K>(list: seq<T>, key: T -> K, k: K, at: nat)
    requires at < |list| && key(list[at]) == k
    requires forall l :: 0 <= l < at ==> key(list[l]) != k
    ensures RemoveFirst(list, key, k) == list[..at] + list[at + 1..]
  {
    if at > 0 {
      RemoveFirstAt(list[1..], key, k, at - 1);
      assert list[..at] + list[at + 1..] == [list[0]] + (list[1..][..at - 1] + list[1..][at..]);
    }
  }

  lemma {:induction false} RemoveFirstAbsent<T, K>(list: seq<T>, key: T -> K, k: K)
    requires forall l :: 0 <= l < |list| ==> key(list[l]) != k
    ensures RemoveFirst(list, key, k) == list
  {
    if list != [] {
      RemoveFirstAbsent(list[1..], key, k);
    }
  }

  function Drop(p: seq<nat>, at: nat): (q: seq<nat>)
    requires at < |p|
    ensures |q| == |p| - 1
    ensures forall k :: 0 <= k < |q| ==> q[k] == if k < at then p[k] else p[k + 1]
  {
    p[..at] + p[at + 1..]
  }

  lemma DropMembers(p: seq<nat>, at: nat, i: nat)
    requires forall k, l :: 0 <= k < l < |p| ==> p[k] < p[l]
    requires at < |p|
    ensures i in Drop(p, at) <==> i in p && i != p[at]
  {
    if i in p {
      var l :| 0 <= l < |p| && p[l] == i;
      assert l != at ==> Drop(p, at)[if l < at then l else l - 1] == i;
    }
  }

  /** Two listed rows never share a key. */
  lemma OnlyOwner<T, K>(rows: seq<T>, sel: T -> bool, key: T -> K, n: nat, i: nat, j: nat)
    requires n <= |rows| && i in Last(rows, sel, key, n) && j in Last(rows, sel, key, n) && i < j
    ensures key(rows[i]) != key(rows[j])
  {
    LastMeaning(rows, sel, key, n, i);
    LastMeaning(rows, sel, key, n, j);
  }

  lemma AtDrop<T>(rows: seq<T>, p: seq<nat>, at: nat)
    requires at < |p| && forall k :: 0 <= k < |p| ==> p[k] < |rows|
    ensures At(rows, Drop(p, at)) == At(rows, p)[..at] + At(rows, p)[at + 1..]
  {
    var q, list := Drop(p, at), At(rows, p);
    var r := list[..at] + list[at + 1..];
    forall k | 0 <= k < |q| ensures At(rows, q)[k] == r[k] {}
  }

  lemma ReplacedRows<T, K>(rows: seq<T>, key: T -> K, n: nat, p: seq<nat>, at: nat)
    requires n < |rows| && at < |p|
    requires forall k :: 0 <= k < |p| ==> p[k] < |rows|
    requires forall k :: 0 <= k < |p| ==> (key(rows[p[k]]) == key(rows[n]) <==> k == at)
    ensures At(rows, Drop(p, at) + [n]) == AddDedupe(At(rows, p), key, rows[n])
  {
    var list, q := At(rows, p), Drop(p, at);
    RemoveFirstAt(list, key, key(rows[n]), at);
    AtDrop(rows, p, at);
    assert At(rows, q + [n]) == At(rows, q) + [rows[n]];
  }

  lemma ListsAfterDrop(p: seq<nat>, s: set<nat>, at: nat, n: nat)
    requires Lists(p, s) && at < |p| && forall i :: i in s ==> i < n
    ensures Lists(Drop(p, at) + [n], s - {p[at]} + {n})
  {
    var q := Drop(p, at) + [n];
    forall i | i in s - {p[at]} + {n} ensures i in q {
      DropMembers(p, at, i);
    }
    forall k | 0 <= k < |q| ensures q[k] in s - {p[at]} + {n} {
      if k < |p| - 1 { DropMembers(p, at, q[k]); }
    }
  }

  /** Appending row `n` to a listing whose row `at` had its key. */
  lemma LastReplaced<T, K>(rows: seq<T>, sel: T -> bool, key: T -> K, n: nat, p: seq<nat>, at: nat)
    requires n < |rows| && sel(rows[n]) && Lists(p, Last(rows, sel, key, n)) && at < |p|
    requires forall k :: 0 <= k < |p| ==> (key(rows[p[k]]) == key(rows[n]) <==> k == at)
    ensures Last(rows, sel, key, n + 1) == Last(rows, sel, key, n) - {p[at]} + {n}
  {
    var s := Last(rows, sel, key, n);
    forall i ensures i in Last(rows, sel, key, n + 1) <==> i in s - {p[at]} + {n} {
      if i in s { var k :| 0 <= k < |p| && p[k] == i; }
    }
  }

  lemma ExtendOver<T, K>(rows: seq<T>, sel: T -> bool, key: T -> K, n: nat, p: seq<nat>, at: nat)
    requires n < |rows| && sel(rows[n]) && Lists(p, Last(rows, sel, key, n))
    requires at < |p| && key(rows[p[at]]) == key(rows[n])
    ensures Lists(Drop(p, at) + [n], Last(rows, sel, key, n + 1))
    ensures At(rows, Drop(p, at) + [n]) == AddDedupe(At(rows, p), key, rows[n])
  {
    var s := Last(rows, sel, key, n);
    hide Last;
    forall k | 0 <= k < |p| ensures key(rows[p[k]]) == key(rows[n]) <==> k == at {
      if k < at { OnlyOwner(rows, sel, key, n, p[k], p[at]); }
      if at < k { OnlyOwner(rows, sel, key, n, p[at], p[k]); }
    }
    LastReplaced(rows, sel, key, n, p, at);
    ReplacedRows(rows, key, n, p, at);
    ListsAfterDrop(p, s, at, n);
  }

  /** Appending row `n` when no listed row has its key. */
  lemma ExtendFresh<T, K>(rows: seq<T>, sel: T -> bool, key: T -> K, n: nat, p: seq<nat>)
    requires n < |rows| && sel(rows[n]) && Lists(p, Last(rows, sel, key, n))
    requires forall k :: 0 <= k < |p| ==> key(rows[p[k]]) != key(rows[n])
    ensures Lists(p + [n], Last(rows, sel, key, n + 1))
    ensures At(rows, p + [n]) == AddDedupe(At(rows, p), key, rows[n])
  {
    RemoveFirstAbsent(At(rows, p), key, key(rows[n]));
    var s := Last(rows, sel, key, n);
    forall i ensures i in Last(rows, sel, key, n + 1) <==> i in s + {n} {
      if i in s { var k :| 0 <= k < |p| && p[k] == i; }
    }
    assert Last(rows, sel, key, n + 1) == s + {n};
  }

  /** The fold keeps the last owner of every key, in original order. */
  lemma {:induction false} FoldKeepsLast<T, K>(rows: seq<T>, sel: T -> bool, key: T -> K, n: nat) returns (p: seq<nat>)
    requires n <= |rows|
    ensures Lists(p, Last(rows, sel, key, n))
    ensures At(rows, p) == FoldDedupe(Select(rows[..n], sel), key)
  {
    p := [];
    if n > 0 {
      p := FoldKeepsLast(rows, sel, key, n - 1);
      var f := Select(rows[..n], sel);
      assert rows[..n][..n - 1] == rows[..n - 1];
      if sel(rows[n - 1]) {
        assert f[..|f| - 1] == Select(rows[..n - 1], sel);
        if at :| 0 <= at < |p| && key(rows[p[at]]) == key(rows[n - 1]) {
          ExtendOver(rows, sel, key, n - 1, p, at);
          p := Drop(p, at) + [n - 1];
        } else {
          ExtendFresh(rows, sel, key, n - 1, p);
          p := p + [n - 1];
        }
      }
    }
  }

  lemma {:induction false} ListsUnique(a: seq<nat>, b: seq<nat>, s: set<nat>)
    requires Lists(a, s) && Lists(b, s)
    ensures a == b
  {
    IncreasingUnique(a, b);
  }

  ghost predicate SameKeys<T, K, L>(rows: seq<T>, key: T -> K, other: T -> L) {
    forall i, j :: 0 <= i < |rows| && 0 <= j < |rows| ==>
      (key(rows[i]) == key(rows[j]) <==> other(rows[i]) == other(rows[j]))
  }

  lemma {:induction false} RemoveFirstSame<T, K, L>(list: seq<T>, key: T -> K, other: T -> L, r: T)
    requires forall i :: 0 <= i < |list| ==> (key(list[i]) == key(r) <==> other(list[i]) == other(r))
    ensures RemoveFirst(list, key, key(r)) == RemoveFirst(list, other, other(r))
    ensures forall x :: x in RemoveFirst(list, key, key(r)) ==> x in list
  {
    if list != [] {
      RemoveFirstSame(list[1..], key, other, r);
    }
  }

  /** Folds agree whenever their keys tell the same rows apart. */
  lemma {:induction false} FoldSame<T, K, L>(rows: seq<T>, key: T -> K, other: T -> L)
    requires SameKeys(rows, key, other)
    ensures FoldDedupe(rows, key) == FoldDedupe(rows, other)
    ensures forall x :: x in FoldDedupe(rows, key) ==> x in rows
  {
    if rows != [] {
      var n := |rows| - 1;
      FoldSame(rows[..n], key, other);
      var list := FoldDedupe(rows[..n], key);
      forall i | 0 <= i < |list| ensures key(list[i]) == key(rows[n]) <==> other(list[i]) == other(rows[n]) {
        assert list[i] in rows[..n];
      }
      RemoveFirstSame(list, key, other, rows[n]);
    }
  }

  /** The members of an increasing sequence behind its first are those above it. */
  lemma AboveFirst(a: seq<nat>, x: nat)
    requires a != [] && forall k, l :: 0 <= k < l < |a| ==> a[k] < a[l]
    ensures x in a[1..] <==> x in a && x > a[0]
  {
    if x in a && x > a[0] {
      var k :| 0 <= k < |a| && a[k] == x;
      assert a[1..][k - 1] == x;
    }
  }

  /** An increasing listing is determined by the set it lists. */
  lemma {:induction false} IncreasingUnique(a: seq<nat>, b: seq<nat>)
    requires forall k, l :: 0 <= k < l < |a| ==> a[k] < a[l]
    requires forall k, l :: 0 <= k < l < |b| ==> b[k] < b[l]
    requires forall x :: x in a <==> x in b
    ensures a == b
  {
    assert a != [] ==> a[0] in a;
    assert b != [] ==> b[0] in b;
    if a != [] && b != [] {
      assert a[0] in b && b[0] in a;
      forall x ensures x in a[1..] <==> x in b[1..] {
        AboveFirst(a, x);
        AboveFirst(b, x);
      }
      IncreasingUnique(a[1..], b[1..]);
      assert a == [a[0]] + a[1..] && b == [b[0]] + b[1..];
    }
  }

  /** Distinctness is a property of the multiset. */
  lemma DistinctByMultiset(a: seq<nat>, b: seq<nat>)
    requires multiset(a) == multiset(b)
    requires forall k, l :: 0 <= k < l < |a| ==> a[k] != a[l]
    ensures forall k, l :: 0 <= k < l < |b| ==> b[k] != b[l]
  {
    forall k, l | 0 <= k < l < |b| ensures b[k] != b[l] {
      OneOccurrence(a, b[l]);
      assert b == b[..l] + [b[l]] + b[l + 1..];
      assert b[k] in b[..l];
      assert multiset(b)[b[l]] == multiset(b[..l])[b[l]] + 1 + multiset(b[l + 1..])[b[l]];
    }
  }

  lemma {:induction false} OneOccurrence(a: seq<nat>, x: nat)
    requires forall k, l :: 0 <= k < l < |a| ==> a[k] != a[l]
    ensures multiset(a)[x] <= 1
  {
    if a != [] {
      OneOccurrence(a[1..], x);
      assert a == [a[0]] + a[1..];
      assert a[0] !in a[1..];
    }
  }
}
