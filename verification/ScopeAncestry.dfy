/** Inherited controller scopes: what a walk from parent to parent proves about
    ancestry, when births may be equal and reads may fail. */
module ScopeAncestry {
  import opened Common
  import opened ScopeRegistry

  /** At one moment both were alive and one was the other's parent. */
  ghost predicate ChildOf(os: Os, child: Identity, parent: Identity) {
    exists t: nat ::
      Alive(os, t, child.pid, child.birth) && Alive(os, t, parent.pid, parent.birth) && os(t).parent(child.pid) == parent.pid
  }

  /** Of equal birth: later than a moment at which `parent.pid` was the child's
      parent, a process born in the same tick as the child had that pid. */
  ghost predicate Tied(os: Os, child: Identity, parent: Identity) {
    parent.birth == child.birth && exists t: nat, u: nat :: Succeeded(os, t, u, child, parent)
  }

  predicate Succeeded(os: Os, t: nat, u: nat, child: Identity, parent: Identity) {
    t <= u && Alive(os, t, child.pid, child.birth) && os(t).parent(child.pid) == parent.pid && Alive(os, u, parent.pid, parent.birth)
  }

  ghost predicate Linked(os: Os, child: Identity, parent: Identity) { ChildOf(os, child, parent) || Tied(os, child, parent) }

  /** Each is the next one's child, but where births are equal possibly only by
      its pid. */
  ghost predicate Lineage(os: Os, path: seq<Identity>) {
    forall i :: 0 <= i < |path| - 1 ==> Linked(os, path[i], path[i + 1])
  }

  /** A parent read between two sightings of the child, and born no later than
      it, is the child's parent; a newer process with the same pid passes for it
      only with the child's own birth. */
  lemma ParentIsReal(os: Os, before: nat, clock: nat, pid: int, birth: nat, parentBirth: nat)
    requires Mortal(os) && BirthsGrow(os) && before <= clock && Alive(os, before, pid, birth) && Alive(os, clock + 2, pid, birth)
    requires Alive(os, clock + 1, os(clock).parent(pid), parentBirth) && parentBirth <= birth
    ensures var child, parent := Identity(pid, birth), Identity(os(clock).parent(pid), parentBirth);
      Linked(os, child, parent) && (parentBirth < birth ==> ChildOf(os, child, parent))
  {
    assert Alive(os, clock, pid, birth);
    var parent := os(clock).parent(pid);
    if Alive(os, clock, parent, parentBirth) {
      hide Mortal, BirthsGrow;
      assert ChildOf(os, Identity(pid, birth), Identity(parent, parentBirth));
    } else {
      assert parentBirth >= birth;
      hide Mortal, BirthsGrow;
      assert Succeeded(os, clock, clock + 1, Identity(pid, birth), Identity(parent, parentBirth));
    }
  }

  lemma LineageOne(os: Os, x: Identity)
    ensures Lineage(os, [x])
  {}

  lemma LineageCons(os: Os, x: Identity, rest: seq<Identity>)
    requires rest != [] && Linked(os, x, rest[0]) && Lineage(os, rest)
    ensures Lineage(os, [x] + rest)
  {
    hide Linked;
  }

  lemma {:induction false} WalkLineage(os: Os, before: nat, clock: nat, entries: seq<Entry>, pid: int, birth: nat, depth: nat)
    returns (path: seq<Identity>)
    requires Mortal(os) && BirthsGrow(os) && before <= clock && Alive(os, before, pid, birth)
    ensures var w := Walk(os, clock, entries, pid, birth, depth);
      w.entry >= 0 ==>
        && path != [] && path[0] == Identity(pid, birth) && Lineage(os, path) && |path| <= MAX_DEPTH - depth
        && path[|path| - 1] == IdOf(entries[w.entry])
    decreases MAX_DEPTH - depth
  {
    hide Mortal, BirthsGrow, Linked, ChildOf, Lineage, FindExact;
    path := [Identity(pid, birth)];
    LineageOne(os, Identity(pid, birth));
    if depth < MAX_DEPTH && pid > 1 && birth != 0 {
      var i := FindExact(entries, 0, pid, birth);
      if !(i >= 0 && entries[i].controller) {
        var parent := ReadParent(os, clock, pid);
        var parentBirth := if parent > 1 then ReadBirth(os, clock + 1, parent) else 0;
        if !(parent == pid || parentBirth == 0 || parentBirth > birth || ReadBirth(os, clock + 2, pid) != birth) {
          ParentIsReal(os, before, clock, pid, birth, parentBirth);
          var rest := WalkLineage(os, clock + 1, clock + 3, entries, parent, parentBirth, depth + 1);
          if Walk(os, clock, entries, pid, birth, depth).entry >= 0 {
            path := [Identity(pid, birth)] + rest;
            LineageCons(os, Identity(pid, birth), rest);
          }
        }
      }
    }
  }

  lemma InheritShape(os: Os, a: Auth, pid: int, birth: nat)
    requires DoInherit(os, a, pid, birth).1.Some?
    ensures var w := Walk(os, a.clock + 1, a.entries, pid, birth, 0);
      Alive(os, a.clock, pid, birth) && w.entry >= 0 && DoInherit(os, a, pid, birth).1.value == a.entries[w.entry].network
  {
    hide Walk, DoPin, Promote;
  }

  /** An inherited scope is that of a controller reached by lineage: the returned
      network is its network. */
  lemma InheritedScopeHasAncestor(os: Os, a: Auth, pid: int, birth: nat) returns (path: seq<Identity>, k: nat)
    requires Mortal(os) && BirthsGrow(os) && DoInherit(os, a, pid, birth).1.Some?
    ensures path != [] && path[0] == Identity(pid, birth) && Lineage(os, path) && |path| <= MAX_DEPTH
    ensures k < |a.entries| && a.entries[k].controller && path[|path| - 1] == IdOf(a.entries[k])
    ensures DoInherit(os, a, pid, birth).1.value == a.entries[k].network
  {
    hide Mortal, BirthsGrow, Walk, DoInherit, Lineage;
    InheritShape(os, a, pid, birth);
    path := WalkLineage(os, a.clock, a.clock + 1, a.entries, pid, birth, 0);
    k := Walk(os, a.clock + 1, a.entries, pid, birth, 0).entry;
  }

  // ----------------------------------------------------------------------- roots

  predicate Ends(path: seq<Identity>, root: Entry, x: Identity, network: string) {
    path != [] && path[0] == x && path[|path| - 1] == IdOf(root) && root.network == network
  }

  /** A lineage leads from the identity to a registered controller of the network. */
  ghost predicate Rooted(os: Os, registered: seq<Entry>, x: Identity, network: string) {
    exists path: seq<Identity>, k: nat :: k < |registered| && Ends(path, registered[k], x, network) && Lineage(os, path)
  }

  ghost predicate ControllersRooted(os: Os, a: Auth) {
    forall i :: 0 <= i < |a.entries| && a.entries[i].controller ==> Rooted(os, a.registered, IdOf(a.entries[i]), a.entries[i].network)
  }

  lemma RootItself(os: Os, registered: seq<Entry>, root: Entry)
    ensures Rooted(os, registered + [root], IdOf(root), root.network)
  {
    assert (registered + [root])[|registered|] == root;
    assert Ends([IdOf(root)], root, IdOf(root), root.network);
    assert Lineage(os, [IdOf(root)]);
  }

  lemma MoreRoots(os: Os, registered: seq<Entry>, root: Entry, x: Identity, network: string)
    requires Rooted(os, registered, x, network)
    ensures Rooted(os, registered + [root], x, network)
  {
    var path: seq<Identity>, k: nat :| k < |registered| && Ends(path, registered[k], x, network) && Lineage(os, path);
    assert (registered + [root])[k] == registered[k];
  }

  /** A descendant of a rooted identity is rooted. */
  lemma RootedThrough(os: Os, registered: seq<Entry>, path: seq<Identity>, network: string)
    requires path != [] && Lineage(os, path) && Rooted(os, registered, path[|path| - 1], network)
    ensures Rooted(os, registered, path[0], network)
  {
    hide Linked;
    var up: seq<Identity>, k: nat :|
      k < |registered| && Ends(up, registered[k], path[|path| - 1], network) && Lineage(os, up);
    var all := path + up[1..];
    forall i | 0 <= i < |all| - 1 ensures Linked(os, all[i], all[i + 1]) {
      if i < |path| - 1 {
        assert Linked(os, path[i], path[i + 1]);
      } else {
        var j := i - (|path| - 1);
        assert all[i] == up[j] && all[i + 1] == up[j + 1];
      }
    }
    assert all[0] == path[0] && all[|all| - 1] == up[|up| - 1];
    assert Ends(all, registered[k], path[0], network);
    assert Lineage(os, all);
  }

  /** A pin leaves controllers as they are and makes none. */
  lemma PinRooted(os: Os, a: Auth, pid: int, birth: nat, network: string)
    requires ControllersRooted(os, a)
    ensures ControllersRooted(os, DoPin(os, a, pid, birth, network).0)
    ensures DoPin(os, a, pid, birth, network).0.registered == a.registered
  {
    var b := DoPin(os, a, pid, birth, network).0;
    ReclaimSubset(os, a.clock + 1, a.entries, 0);
    hide Reclaim, FindPid, Rooted;
    forall k | 0 <= k < |b.entries| && b.entries[k].controller
      ensures Rooted(os, b.registered, IdOf(b.entries[k]), b.entries[k].network)
    {
      assert b.entries[k] in a.entries;
      var i :| 0 <= i < |a.entries| && a.entries[i] == b.entries[k];
    }
  }

  lemma PromoteRooted(os: Os, a: Auth, pid: int, birth: nat, network: string, registered: seq<Entry>)
    requires TableInv(os, a.clock, a.entries) && Holds(a.entries, pid, birth, network)
    requires forall i :: 0 <= i < |a.entries| && a.entries[i].controller ==>
      Rooted(os, registered, IdOf(a.entries[i]), a.entries[i].network)
    requires Rooted(os, registered, Identity(pid, birth), network)
    ensures var b := Promote(a, pid, birth); ControllersRooted(os, b.(registered := registered))
  {
    hide Rooted, FindExact;
    var i :| 0 <= i < |a.entries| && Names(a.entries[i], pid, birth, network);
    var k := FindExact(a.entries, 0, pid, birth);
    assert k == i;
  }

  lemma InheritRooted(os: Os, a: Auth, pid: int, birth: nat)
    requires Mortal(os) && BirthsGrow(os) && TableInv(os, a.clock, a.entries) && ControllersRooted(os, a)
    ensures ControllersRooted(os, DoInherit(os, a, pid, birth).0)
    ensures DoInherit(os, a, pid, birth).1.Some? ==>
      Rooted(os, a.registered, Identity(pid, birth), DoInherit(os, a, pid, birth).1.value)
  {
    hide Mortal, BirthsGrow, Rooted, Lineage, Walk, DoPin, Promote;
    if a.roots && birth != 0 && ReadBirth(os, a.clock, pid) == birth {
      var w := Walk(os, a.clock + 1, a.entries, pid, birth, 0);
      if w.entry >= 0 {
        var e, c := a.entries[w.entry], a.(clock := w.clock + 1);
        var path := WalkLineage(os, a.clock, a.clock + 1, a.entries, pid, birth, 0);
        RootedThrough(os, a.registered, path, e.network);
        PinRooted(os, c, pid, birth, e.network);
        if DoPin(os, c, pid, birth, e.network).1 {
          PinnedRooted(os, c, pid, birth, e.network, a.registered);
          PromoteSame(DoPin(os, c, pid, birth, e.network).0, pid, birth);
        }
      }
    }
  }

  lemma PinnedRooted(os: Os, a: Auth, pid: int, birth: nat, network: string, registered: seq<Entry>)
    requires Mortal(os) && TableInv(os, a.clock, a.entries) && DoPin(os, a, pid, birth, network).1
    requires var b := DoPin(os, a, pid, birth, network).0;
      forall i :: 0 <= i < |b.entries| && b.entries[i].controller ==> Rooted(os, registered, IdOf(b.entries[i]), b.entries[i].network)
    requires Rooted(os, registered, Identity(pid, birth), network)
    ensures ControllersRooted(os, Promote(DoPin(os, a, pid, birth, network).0, pid, birth).(registered := registered))
  {
    PinTable(os, a.clock, a.entries, pid, birth, network);
    hide Mortal, Rooted, Pin, Survives, TableInv;
    PromoteRooted(os, DoPin(os, a, pid, birth, network).0, pid, birth, network, registered);
  }

  lemma RegisterRooted(os: Os, a: Auth, pid: int, birth: nat, network: string, validKey: bool)
    requires Mortal(os) && BirthsGrow(os) && Good(os, a) && ControllersRooted(os, a)
    ensures ControllersRooted(os, DoRegister(os, a, pid, birth, network, validKey).0)
  {
    hide Mortal, BirthsGrow, Rooted, DoInherit, DoPin, Promote, FindExact, Kept, Consistent, TableInv;
    if pid > 1 && validKey && birth != 0 && ReadBirth(os, a.clock, pid) == birth {
      TimePasses(os, a, a.clock + 1, a.roots, a.registered);
      var a1 := a.(clock := a.clock + 1);
      InheritKeeps(os, a1, pid, birth);
      InheritRooted(os, a1, pid, birth);
      var b := DoInherit(os, a1, pid, birth).0;
      PinRooted(os, b, pid, birth, network);
      var (c, ok) := DoPin(os, b, pid, birth, network);
      if ok {
        var root := Entry(pid, birth, network, true, a.clock);
        RootItself(os, c.registered, root);
        forall i | 0 <= i < |c.entries| && c.entries[i].controller
          ensures Rooted(os, c.registered + [root], IdOf(c.entries[i]), c.entries[i].network)
        {
          MoreRoots(os, c.registered, root, IdOf(c.entries[i]), c.entries[i].network);
        }
        PinnedRooted(os, b, pid, birth, network, c.registered + [root]);
        PromoteSame(c, pid, birth);
      }
    }
  }

  /** In every run each controller entry is there by lineage: its network is that
      of a process registered as controller, to which its ancestry leads. */
  lemma {:induction false} ControllersAreRooted(os: Os, ops: seq<Op>)
    requires Mortal(os) && BirthsGrow(os)
    ensures ControllersRooted(os, Run(os, ops))
  {
    if ops != [] {
      ControllersAreRooted(os, ops[..|ops| - 1]);
      RunKeeps(os, ops[..|ops| - 1]);
      OperationStarts(os, Run(os, ops[..|ops| - 1]));
      var a, op := Run(os, ops[..|ops| - 1]).(recent := {}), ops[|ops| - 1];
      hide Mortal, BirthsGrow, Rooted, DoPin, DoInherit, DoRegister, TableInv, Kept, Consistent;
      match op {
        case PinScope(pid, birth, network) => PinRooted(os, a, pid, birth, network);
        case Inherit(pid, birth) => InheritRooted(os, a, pid, birth);
        case RegisterController(pid, birth, network, validKey) => RegisterRooted(os, a, pid, birth, network, validKey);
      }
    }
  }

  /** In every run, an inherited scope is the network of a registered controller to
      which the process's ancestry leads. */
  lemma InheritedScopeIsRooted(os: Os, ops: seq<Op>, pid: int, birth: nat)
    requires Mortal(os) && BirthsGrow(os) && DoInherit(os, Run(os, ops), pid, birth).1.Some?
    ensures Rooted(os, Run(os, ops).registered, Identity(pid, birth), DoInherit(os, Run(os, ops), pid, birth).1.value)
  {
    RunKeeps(os, ops);
    ControllersAreRooted(os, ops);
    hide Run, Mortal, BirthsGrow, Rooted, DoInherit;
    InheritRooted(os, Run(os, ops), pid, birth);
  }
}
