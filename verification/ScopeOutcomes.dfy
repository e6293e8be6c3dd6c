/** When the table takes an identity and when it turns it away, what a full table
    gives up, and when a process does come to its ancestor's network. */
module ScopeOutcomes {
  import opened Common
  import opened ScopeRegistry

  // -------------------------------------------------------------------- a full table

  /** A pass over a full table gives up nothing exactly if every entry is read back,
      each at its turn. */
  lemma {:induction false} ReclaimGivesUpNothing(os: Os, clock: nat, entries: seq<Entry>, i: nat)
    requires i <= |entries|
    ensures |Reclaim(os, clock, entries, i).entries| == |entries|
       <==> forall k :: i <= k < |entries| ==> ReadBirth(os, clock + (k - i), entries[k].pid) == entries[k].birth
    decreases |entries| - i
  {
    if i < |entries| {
      if ReadBirth(os, clock, entries[i].pid) == entries[i].birth {
        ReclaimGivesUpNothing(os, clock + 1, entries, i + 1);
      } else {
        assert |SwapOut(entries, i)| == |entries| - 1;
        assert clock + (i - i) == clock;
      }
    }
  }

  /** The entry was read back at some moment of the pass. */
  ghost predicate ReadBack(os: Os, from: nat, end: nat, e: Entry) {
    exists t: nat :: from <= t < end && ReadBirth(os, t, e.pid) == e.birth
  }

  /** What a pass keeps it has read back: a dead entry does not stay. */
  lemma {:induction false} ReclaimKeepsTheLiving(os: Os, clock: nat, entries: seq<Entry>, i: nat)
    requires i <= |entries|
    ensures var r := Reclaim(os, clock, entries, i);
            |r.entries| >= i && r.entries[..i] == entries[..i] && forall k :: i <= k < |r.entries| ==> ReadBack(os, clock, r.clock, r.entries[k])
    decreases |entries| - i
  {
    if i < |entries| {
      var r := Reclaim(os, clock, entries, i);
      if ReadBirth(os, clock, entries[i].pid) != entries[i].birth {
        var s := SwapOut(entries, i);
        ReclaimKeepsTheLiving(os, clock + 1, s, i);
        assert s[..i] == entries[..i];
        Earlier(os, clock, r.clock, r.entries[i..]);
      } else {
        ReclaimKeepsTheLiving(os, clock + 1, entries, i + 1);
        var t := Reclaim(os, clock + 1, entries, i + 1);
        assert r.entries == t.entries && r.clock == t.clock;
        assert t.entries[..i + 1][i] == entries[i] && t.entries[..i] == t.entries[..i + 1][..i] == entries[..i];
        assert ReadBack(os, clock, r.clock, r.entries[i]) by { hide Reclaim; }
        Earlier(os, clock, r.clock, r.entries[i + 1..]);
        forall k | i <= k < |r.entries| ensures ReadBack(os, clock, r.clock, r.entries[k]) {
          if k > i {
            assert r.entries[i + 1..][k - (i + 1)] == r.entries[k];
          }
        }
      }
    }
  }

  lemma Earlier(os: Os, clock: nat, end: nat, entries: seq<Entry>)
    requires forall k :: 0 <= k < |entries| ==> ReadBack(os, clock + 1, end, entries[k])
    ensures forall k :: 0 <= k < |entries| ==> ReadBack(os, clock, end, entries[k])
  {}

  // ------------------------------------------------------------------------- pinning

  /** Another network has the same identity. */
  ghost predicate Conflicts(entries: seq<Entry>, pid: int, birth: nat, network: string) {
    exists i :: 0 <= i < |entries| && entries[i].pid == pid && entries[i].birth == birth && entries[i].network != network
  }

  ghost predicate Known(entries: seq<Entry>, pid: int) {
    exists i :: 0 <= i < |entries| && entries[i].pid == pid
  }

  /** Some entry of a full table is not read back in the pass that looks for room. */
  ghost predicate GivesWay(os: Os, clock: nat, entries: seq<Entry>) {
    exists k :: 0 <= k < |entries| && ReadBirth(os, clock + k, entries[k].pid) != entries[k].birth
  }

  /** A pin succeeds exactly if the identity is read back, the table has it under no
      other network, and there is room: its pid is known, the table is not full, or
      some entry gives way. */
  lemma PinnedExactly(os: Os, clock: nat, entries: seq<Entry>, pid: int, birth: nat, network: string)
    requires Unique(entries) && |entries| <= 8192
    ensures Pin(os, clock, entries, pid, birth, network).ok <==>
              && birth != 0 && ReadBirth(os, clock, pid) == birth && !Conflicts(entries, pid, birth, network)
              && (Known(entries, pid) || |entries| < 8192 || GivesWay(os, clock + 1, entries))
  {
    hide Reclaim, FindPid;
    var i := FindPid(entries, 0, pid);
    if i >= 0 {
      assert Known(entries, pid);
    } else {
      ReclaimGivesUpNothing(os, clock + 1, entries, 0);
    }
  }

  /** A pin that succeeds leaves the identity in the table under its network and every
      entry of another pid where it was, unless the table was full; one that fails
      leaves the table as it was. A reused pid's old entry makes way for the new
      identity, which is nobody's controller. */
  lemma PinLeaves(os: Os, clock: nat, entries: seq<Entry>, pid: int, birth: nat, network: string)
    requires Mortal(os) && TableInv(os, clock, entries)
    ensures var r := Pin(os, clock, entries, pid, birth, network);
            && (!r.ok ==> r.entries == entries)
            && (r.ok ==> Holds(r.entries, pid, birth, network))
            && (r.ok && (Known(entries, pid) || |entries| < 8192) ==>
                  && |entries| <= |r.entries| <= |entries| + 1
                  && forall k :: 0 <= k < |entries| ==>
                       r.entries[k] == if entries[k].pid == pid && entries[k].birth != birth
                                       then Entry(pid, birth, network, false, clock) else entries[k])
            && (r.ok && Known(entries, pid) ==> |r.entries| == |entries|)
  {
    PinTable(os, clock, entries, pid, birth, network);
    hide Mortal, Reclaim, Survives, Witnessed, FindPid;
  }

  /** In every run, what a pin comes to. */
  lemma PinDecides(os: Os, ops: seq<Op>, pid: int, birth: nat, network: string)
    requires Mortal(os)
    ensures var a := Run(os, ops);
            var b := Apply(os, a, PinScope(pid, birth, network));
            var ok := && birth != 0 && ReadBirth(os, a.clock, pid) == birth && !Conflicts(a.entries, pid, birth, network)
                      && (Known(a.entries, pid) || |a.entries| < 8192 || GivesWay(os, a.clock + 1, a.entries));
            && (ok ==> Holds(b.entries, pid, birth, network) && b.pins == a.pins + [Entry(pid, birth, network, false, a.clock)])
            && (!ok ==> b.entries == a.entries && b.pins == a.pins)
            && b.roots == a.roots && b.registered == a.registered
  {
    hide *;
    RunKeeps(os, ops);
    var a := Run(os, ops);
    GoodTable(os, a);
    PinnedExactly(os, a.clock, a.entries, pid, birth, network);
    PinLeaves(os, a.clock, a.entries, pid, birth, network);
    PinScopeIs(os, a, pid, birth, network);
  }

  lemma GoodTable(os: Os, a: Auth)
    requires Good(os, a)
    ensures TableInv(os, a.clock, a.entries) && Unique(a.entries) && |a.entries| <= 8192
  {}

  lemma PinScopeIs(os: Os, a: Auth, pid: int, birth: nat, network: string)
    ensures var b, r := Apply(os, a, PinScope(pid, birth, network)), Pin(os, a.clock, a.entries, pid, birth, network);
            && b.entries == r.entries && b.roots == a.roots && b.registered == a.registered
            && b.pins == if r.ok then a.pins + [Entry(pid, birth, network, false, a.clock)] else a.pins
  {
    hide Pin;
  }

  // ------------------------------------------------------------------------- walking

  /** From read `from` on nothing fails and all is as in `w`. */
  ghost predicate Still(os: Os, from: nat, w: World) {
    forall t: nat, p: int :: t >= from ==> !os(t).fails && os(t).life(p) == w.life(p) && os(t).parent(p) == w.parent(p)
  }

  lemma StillReads(os: Os, from: nat, w: World, t: nat, p: int)
    requires Still(os, from, w) && t >= from
    ensures ReadBirth(os, t, p) == w.life(p) && ReadParent(os, t, p) == w.parent(p)
  {}

  lemma StillLater(os: Os, from: nat, w: World, t: nat)
    requires Still(os, from, w) && t >= from
    ensures Still(os, t, w)
  {}

  /** Live processes, each the next one's child and no older than it. */
  ghost predicate Line(w: World, path: seq<int>) {
    && path != [] && (forall i :: 0 <= i < |path| ==> path[i] > 1 && w.life(path[i]) != 0)
    && (forall i :: 0 <= i < |path| - 1 ==>
          w.parent(path[i]) == path[i + 1] && path[i] != path[i + 1] && w.life(path[i + 1]) <= w.life(path[i]))
  }

  predicate ControllerOf(e: Entry, w: World, pid: int) { e.controller && e.pid == pid && e.birth == w.life(pid) }

  /** The first controller on the line is its last process, entry `k`. */
  ghost predicate FirstController(entries: seq<Entry>, w: World, path: seq<int>, k: nat) {
    && k < |entries| && path != [] && ControllerOf(entries[k], w, path[|path| - 1])
    && forall i, j :: 0 <= i < |path| - 1 && 0 <= j < |entries| ==> !ControllerOf(entries[j], w, path[i])
  }

  lemma TailOfLine(entries: seq<Entry>, w: World, path: seq<int>, k: nat)
    requires Line(w, path) && FirstController(entries, w, path, k) && |path| > 1
    ensures Line(w, path[1..]) && FirstController(entries, w, path[1..], k)
    ensures w.parent(path[0]) == path[1] != path[0] && path[1] > 1 && 0 != w.life(path[1]) <= w.life(path[0])
    ensures forall j :: 0 <= j < |entries| ==> !ControllerOf(entries[j], w, path[0])
  {}

  /** One step from a process that is no controller itself. */
  lemma WalkOn(os: Os, clock: nat, entries: seq<Entry>, w: World, pid: int, parent: int, depth: nat)
    requires Still(os, clock, w) && depth < 64 && pid > 1 && w.life(pid) != 0
    requires w.parent(pid) == parent != pid && parent > 1 && 0 != w.life(parent) <= w.life(pid)
    requires forall j :: 0 <= j < |entries| ==> !ControllerOf(entries[j], w, pid)
    ensures Walk(os, clock, entries, pid, w.life(pid), depth) == Walk(os, clock + 3, entries, parent, w.life(parent), depth + 1)
  {
    hide FindExact, Still;
    StillReads(os, clock, w, clock, pid);
    StillReads(os, clock, w, clock + 1, parent);
    StillReads(os, clock, w, clock + 2, pid);
    var i := FindExact(entries, 0, pid, w.life(pid));
    assert i >= 0 ==> !ControllerOf(entries[i], w, pid);
  }

  lemma WalkStops(os: Os, clock: nat, entries: seq<Entry>, w: World, pid: int, depth: nat, k: nat)
    requires Unique(entries) && depth < 64 && pid > 1 && w.life(pid) != 0 && k < |entries| && ControllerOf(entries[k], w, pid)
    ensures Walk(os, clock, entries, pid, w.life(pid), depth).entry == k
  {
    hide FindExact;
    var i := FindExact(entries, 0, pid, w.life(pid));
    assert i == k;
  }

  /** While nothing changes, a walk finds the nearest controller among up to 64
      processes, the first included. */
  lemma {:induction false} WalkFinds(os: Os, clock: nat, entries: seq<Entry>, w: World, path: seq<int>, depth: nat, k: nat)
    requires Unique(entries) && Still(os, clock, w) && Line(w, path) && FirstController(entries, w, path, k)
    requires depth + |path| <= 64
    ensures Walk(os, clock, entries, path[0], w.life(path[0]), depth).entry == k
    decreases |path|
  {
    if |path| == 1 {
      WalkStops(os, clock, entries, w, path[0], depth, k);
    } else {
      assert path[0] > 1 && w.life(path[0]) != 0;
      hide Walk, Still, Line, FirstController, Unique;
      TailOfLine(entries, w, path, k);
      WalkOn(os, clock, entries, w, path[0], path[1], depth);
      StillLater(os, clock, w, clock + 3);
      WalkFinds(os, clock + 3, entries, w, path[1..], depth + 1, k);
    }
  }

  /** A new identity that is read back is pinned at the end of a table with room. */
  lemma PinsNew(os: Os, a: Auth, pid: int, birth: nat, network: string)
    requires !Known(a.entries, pid) && |a.entries| < 8192 && birth != 0 && ReadBirth(os, a.clock, pid) == birth
    ensures var c := DoPin(os, a, pid, birth, network);
            var d := Promote(c.0, pid, birth);
            && c.1 && |d.entries| == |a.entries| + 1
            && d.entries[|a.entries|].controller && Names(d.entries[|a.entries|], pid, birth, network)
  {
    var c := DoPin(os, a, pid, birth, network);
    assert c.0.entries == a.entries + [Entry(pid, birth, network, false, a.clock)];
    assert c.0.entries[|a.entries|].pid == pid;
    var i := FindExact(c.0.entries, 0, pid, birth);
    hide FindExact;
    assert i == |a.entries|;
  }

  /** So in every run a live process whose line leads to a controller gets that
      controller's network, and while there is room it is a controller of that
      network itself from then on. */
  lemma DescendantInherits(os: Os, ops: seq<Op>, w: World, path: seq<int>, k: nat)
    requires Mortal(os) && Run(os, ops).roots && Still(os, Run(os, ops).clock, w) && |path| <= 64
    requires Line(w, path) && FirstController(Run(os, ops).entries, w, path, k)
    ensures var a, pid := Run(os, ops), path[0];
            var r := DoInherit(os, a, pid, w.life(pid));
            && r.1 == Some(a.entries[k].network)
            && (|path| > 1 && !Known(a.entries, pid) && |a.entries| < 8192 ==>
                  exists i :: 0 <= i < |r.0.entries| && r.0.entries[i].controller
                              && Names(r.0.entries[i], pid, w.life(pid), a.entries[k].network))
  {
    hide *;
    RunKeeps(os, ops);
    var a := Run(os, ops);
    GoodTable(os, a);
    Descends(os, a, w, path, k);
  }

  lemma Descends(os: Os, a: Auth, w: World, path: seq<int>, k: nat)
    requires Unique(a.entries) && a.roots && Still(os, a.clock, w) && |path| <= 64 && Line(w, path) && FirstController(a.entries, w, path, k)
    ensures var pid := path[0];
            var r := DoInherit(os, a, pid, w.life(pid));
            && r.1 == Some(a.entries[k].network)
            && (|path| > 1 && !Known(a.entries, pid) && |a.entries| < 8192 ==>
                  exists i :: 0 <= i < |r.0.entries| && r.0.entries[i].controller
                              && Names(r.0.entries[i], pid, w.life(pid), a.entries[k].network))
  {
    var pid := path[0];
    var e := a.entries[k];
    assert w.life(pid) != 0 && e.birth == w.life(e.pid);
    StillLater(os, a.clock, w, a.clock + 1);
    WalkFinds(os, a.clock + 1, a.entries, w, path, 0, k);
    var at := Walk(os, a.clock + 1, a.entries, pid, w.life(pid), 0).clock;
    hide Walk, Still, Line, FirstController, Unique, DoPin, Promote, DoInherit, Known;
    StillReads(os, a.clock, w, a.clock, pid);
    StillReads(os, a.clock, w, at, e.pid);
    StillReads(os, a.clock, w, at + 1, pid);
    InheritedFrom(os, a, pid, w.life(pid), k, at);
    if |path| > 1 && !Known(a.entries, pid) && |a.entries| < 8192 {
      Unknown(a.entries, pid, k);
      PinsNew(os, a.(clock := at + 1), pid, w.life(pid), e.network);
    }
  }

  lemma Unknown(entries: seq<Entry>, pid: int, k: nat)
    requires !Known(entries, pid) && k < |entries|
    ensures entries[k].pid != pid
  {}

  lemma InheritedFrom(os: Os, a: Auth, pid: int, birth: nat, k: nat, at: nat)
    requires a.roots && birth != 0 && ReadBirth(os, a.clock, pid) == birth && k < |a.entries|
    requires Walk(os, a.clock + 1, a.entries, pid, birth, 0) == Walked(k, at)
    requires a.entries[k].pid == pid || ReadBirth(os, at, a.entries[k].pid) == a.entries[k].birth
    ensures var r, c := DoInherit(os, a, pid, birth), DoPin(os, a.(clock := at + 1), pid, birth, a.entries[k].network);
            && r.1 == Some(a.entries[k].network)
            && (a.entries[k].pid != pid ==> r.0 == if c.1 then Promote(c.0, pid, birth) else c.0)
  {
    hide Walk, DoPin, Promote;
  }

  // ----------------------------------------------------------------------- registering

  /** In every run a registration succeeds exactly if the key is good, the identity is
      read back, it inherits no other network, and it can be pinned. It is then a
      controller of its network, and inheritance is on. */
  lemma RegisteredExactly(os: Os, ops: seq<Op>, pid: int, birth: nat, network: string, validKey: bool)
    requires Mortal(os)
    ensures var a := Run(os, ops);
            var r, i := DoRegister(os, a, pid, birth, network, validKey), DoInherit(os, a.(clock := a.clock + 1), pid, birth);
            && (r.1 <==> && pid > 1 && validKey && birth != 0 && ReadBirth(os, a.clock, pid) == birth
                         && (i.1 == None || i.1 == Some(network))
                         && Pin(os, i.0.clock, i.0.entries, pid, birth, network).ok)
            && (r.1 ==> && r.0.roots && r.0.registered == a.registered + [Entry(pid, birth, network, true, a.clock)]
                        && HoldsController(r.0.entries, pid, birth, network))
            && (!r.1 ==> r.0.registered == a.registered && r.0.roots == a.roots)
  {
    hide *;
    RunKeeps(os, ops);
    var a := Run(os, ops);
    var later := a.(clock := a.clock + 1);
    TimePasses(os, a, a.clock + 1, a.roots, a.registered);
    assert later == a.(clock := a.clock + 1, roots := a.roots, registered := a.registered);
    InheritKeeps(os, later, pid, birth);
    InheritRest(os, later, pid, birth);
    Registers(os, a, DoInherit(os, later, pid, birth).0, pid, birth, network, validKey);
  }

  ghost predicate HoldsController(entries: seq<Entry>, pid: int, birth: nat, network: string) {
    exists i :: 0 <= i < |entries| && entries[i].controller && Names(entries[i], pid, birth, network)
  }

  lemma InheritRest(os: Os, a: Auth, pid: int, birth: nat)
    ensures DoInherit(os, a, pid, birth).0.registered == a.registered && DoInherit(os, a, pid, birth).0.roots == a.roots
  {
    hide Walk, Pin, FindExact;
  }

  lemma Registers(os: Os, a: Auth, b: Auth, pid: int, birth: nat, network: string, validKey: bool)
    requires Mortal(os) && Good(os, b) && b == DoInherit(os, a.(clock := a.clock + 1), pid, birth).0
    requires b.registered == a.registered && b.roots == a.roots
    ensures var r, i := DoRegister(os, a, pid, birth, network, validKey), DoInherit(os, a.(clock := a.clock + 1), pid, birth);
            && (r.1 <==> && pid > 1 && validKey && birth != 0 && ReadBirth(os, a.clock, pid) == birth
                         && (i.1 == None || i.1 == Some(network))
                         && Pin(os, b.clock, b.entries, pid, birth, network).ok)
            && (r.1 ==> && r.0.roots && r.0.registered == a.registered + [Entry(pid, birth, network, true, a.clock)]
                        && HoldsController(r.0.entries, pid, birth, network))
            && (!r.1 ==> r.0.registered == a.registered && r.0.roots == a.roots)
  {
    hide Mortal, DoInherit, Pin, FindExact, Survives, Witnessed, AllKept, Consistent;
    PinTable(os, b.clock, b.entries, pid, birth, network);
    var c := DoPin(os, b, pid, birth, network);
    if c.1 {
      Promoted(c.0, pid, birth, network);
    }
  }

  lemma Promoted(c: Auth, pid: int, birth: nat, network: string)
    requires Unique(c.entries) && Holds(c.entries, pid, birth, network)
    ensures FindExact(c.entries, 0, pid, birth) >= 0 && HoldsController(Promote(c, pid, birth).entries, pid, birth, network)
  {
    hide FindExact;
    var i :| 0 <= i < |c.entries| && Names(c.entries[i], pid, birth, network);
    var j := FindExact(c.entries, 0, pid, birth);
    assert j == i;
    var d := Promote(c, pid, birth);
    assert d.entries[i].controller && Names(d.entries[i], pid, birth, network);
  }

  lemma RegisterRest(os: Os, a: Auth, pid: int, birth: nat, network: string, validKey: bool)
    ensures var b := DoRegister(os, a, pid, birth, network, validKey).0;
            (b.roots == a.roots && b.registered == a.registered) || (b.roots && b.registered != [])
  {
    hide DoInherit, Pin, FindExact;
    InheritRest(os, a.(clock := a.clock + 1), pid, birth);
  }

  lemma PinRest(os: Os, a: Auth, pid: int, birth: nat, network: string)
    ensures var b := DoPin(os, a, pid, birth, network).0; b.roots == a.roots && b.registered == a.registered
  {}

  /** In every run inheritance is on exactly if some controller was registered. */
  lemma {:induction false} InheritanceNeedsARegistration(os: Os, ops: seq<Op>)
    ensures Run(os, ops).roots <==> Run(os, ops).registered != []
  {
    hide DoPin, DoInherit, DoRegister;
    if ops != [] {
      InheritanceNeedsARegistration(os, ops[..|ops| - 1]);
      var b, op := Run(os, ops[..|ops| - 1]).(recent := {}), ops[|ops| - 1];
      match op {
        case PinScope(pid, birth, network) => PinRest(os, b, pid, birth, network);
        case Inherit(pid, birth) => InheritRest(os, b, pid, birth);
        case RegisterController(pid, birth, network, validKey) => RegisterRest(os, b, pid, birth, network, validKey);
      }
    }
  }
}
