/** The authorization table in place: the scans, the reclaiming pass and the climb
    to a controller, and the operations on the table. */
module ScopeAuthorization {
  import opened Common
  import opened ScopeRegistry

  method ScanPid(entries: seq<Entry>, pid: int) returns (at: int)
    ensures at == FindPid(entries, 0, pid)
  {
    var i := 0;
    while i < |entries|
      invariant i <= |entries| && FindPid(entries, 0, pid) == FindPid(entries, i, pid)
    {
      if entries[i].pid == pid {
        return i;
      }
      i := i + 1;
    }
    at := -1;
  }

  method ScanExact(entries: seq<Entry>, pid: int, birth: nat) returns (at: int)
    ensures at == FindExact(entries, 0, pid, birth)
  {
    var i := 0;
    while i < |entries|
      invariant i <= |entries| && FindExact(entries, 0, pid, birth) == FindExact(entries, i, pid, birth)
    {
      if entries[i].pid == pid && entries[i].birth == birth {
        return i;
      }
      i := i + 1;
    }
    at := -1;
  }

  /** One pass over the table; the last entry fills each gap. */
  method ReclaimExited(os: Os, clock: nat, entries: seq<Entry>) returns (t: Table)
    ensures t == Reclaim(os, clock, entries, 0)
  {
    var left, i, now, failed: set<Identity> := entries, 0, clock, {};
    while i < |left|
      invariant i <= |left|
      invariant var r := Reclaim(os, now, left, i); Reclaim(os, clock, entries, 0) == r.(failed := failed + r.failed)
      decreases |left| - i
    {
      ReclaimStep(os, now, left, i);
      hide Reclaim;
      if os(now).fails {
        failed := failed + {IdOf(left[i])};
      }
      if ReadBirth(os, now, left[i].pid) != left[i].birth {
        left := left[i := left[|left| - 1]][..|left| - 1];
      } else {
        i := i + 1;
      }
      now := now + 1;
    }
    t := Table(left, now, failed);
  }

  lemma ReclaimStep(os: Os, clock: nat, entries: seq<Entry>, i: nat)
    requires i < |entries|
    ensures var r := if ReadBirth(os, clock, entries[i].pid) != entries[i].birth then Reclaim(os, clock + 1, SwapOut(entries, i), i)
                     else Reclaim(os, clock + 1, entries, i + 1);
      Reclaim(os, clock, entries, i) == r.(failed := (if os(clock).fails then {IdOf(entries[i])} else {}) + r.failed)
  {}

  /** Climbs from parent to parent, at most 64 times. */
  method FindController(os: Os, clock: nat, entries: seq<Entry>, pid: int, birth: nat) returns (w: Walked)
    ensures w == Walk(os, clock, entries, pid, birth, 0)
  {
    hide Walk, FindExact;
    var current: int, currentBirth: nat, depth: nat, now: nat := pid, birth, 0, clock;
    while depth < MAX_DEPTH && current > 1 && currentBirth != 0
      invariant depth <= MAX_DEPTH
      invariant Walk(os, clock, entries, pid, birth, 0) == Walk(os, now, entries, current, currentBirth, depth)
      decreases MAX_DEPTH - depth
    {
      WalkStep(os, now, entries, current, currentBirth, depth);
      var i := ScanExact(entries, current, currentBirth);
      if i >= 0 && entries[i].controller {
        return Walked(i, now);
      }
      var parent := ReadParent(os, now, current);
      var parentBirth := if parent > 1 then ReadBirth(os, now + 1, parent) else 0;
      if parent == current || parentBirth == 0 || parentBirth > currentBirth || ReadBirth(os, now + 2, current) != currentBirth {
        return Walked(-1, now + 3);
      }
      current, currentBirth, depth, now := parent, parentBirth, depth + 1, now + 3;
    }
    WalkEnd(os, now, entries, current, currentBirth, depth);
    w := Walked(-1, now);
  }

  lemma WalkEnd(os: Os, clock: nat, entries: seq<Entry>, pid: int, birth: nat, depth: nat)
    requires depth >= MAX_DEPTH || pid <= 1 || birth == 0
    ensures Walk(os, clock, entries, pid, birth, depth) == Walked(-1, clock)
  {}

  lemma WalkStep(os: Os, clock: nat, entries: seq<Entry>, pid: int, birth: nat, depth: nat)
    requires depth < MAX_DEPTH && pid > 1 && birth != 0
    ensures var i, parent := FindExact(entries, 0, pid, birth), ReadParent(os, clock, pid);
      var parentBirth := if parent > 1 then ReadBirth(os, clock + 1, parent) else 0;
      Walk(os, clock, entries, pid, birth, depth) ==
      if i >= 0 && entries[i].controller then Walked(i, clock)
      else if parent == pid || parentBirth == 0 || parentBirth > birth || ReadBirth(os, clock + 2, pid) != birth then Walked(-1, clock + 3)
      else Walk(os, clock + 3, entries, parent, parentBirth, depth + 1)
  {
    hide FindExact;
  }

  class Authorization {
    var a: Auth

    constructor ()
      ensures a == Init()
    {
      a := Init();
    }

    /** Pins a live identity to a network, reclaiming only when full. */
    method PinScope(os: Os, pid: int, birth: nat, network: string) returns (ok: bool)
      requires Mortal(os) && Good(os, a)
      modifies this
      ensures (a, ok) == DoPin(os, old(a), pid, birth, network) && Good(os, a)
    {
      PinKeeps(os, a, pid, birth, network);
      hide Mortal, Good, Reclaim, FindPid;
      assert a.failed + {} == a.failed && a.recent + {} == a.recent;
      var clock := a.clock + 1;
      if birth == 0 || ReadBirth(os, a.clock, pid) != birth {
        a := a.(clock := clock);
        return false;
      }
      var e := Entry(pid, birth, network, false, a.clock);
      var i := ScanPid(a.entries, pid);
      if i >= 0 {
        if a.entries[i].birth == birth {
          ok := a.entries[i].network == network;
          a := a.(clock := clock, pins := if ok then a.pins + [e] else a.pins);
          return;
        }
        a := a.(entries := a.entries[i := e], clock := clock, pins := a.pins + [e]);
        return true;
      }
      var t := Table(a.entries, clock, {});
      if |a.entries| >= MAX_SCOPES {
        t := ReclaimExited(os, clock, a.entries);
      }
      if |t.entries| >= MAX_SCOPES {
        a := a.(entries := t.entries, clock := t.clock, failed := a.failed + t.failed, recent := a.recent + t.failed);
        return false;
      }
      a := a.(entries := t.entries + [e], clock := t.clock, failed := a.failed + t.failed, recent := a.recent + t.failed, pins := a.pins + [e]);
      ok := true;
    }

    method MarkController(os: Os, pid: int, birth: nat) returns (found: bool)
      requires Good(os, a)
      modifies this
      ensures a == Promote(old(a), pid, birth) && found == (FindExact(old(a).entries, 0, pid, birth) >= 0) && Good(os, a)
    {
      PromoteKeeps(os, a, pid, birth);
      hide Good, FindExact;
      var i := ScanExact(a.entries, pid, birth);
      found := i >= 0;
      if found {
        a := a.(entries := a.entries[i := a.entries[i].(controller := true)]);
      }
    }

    /** The controller scope of a process or of an ancestor, which it then has. */
    method ControllerScope(os: Os, pid: int, birth: nat) returns (network: Option<string>)
      requires Mortal(os) && Good(os, a)
      modifies this
      ensures (a, network) == DoInherit(os, old(a), pid, birth) && Good(os, a)
    {
      ghost var before := a;
      hide Mortal, Good, Walk, DoPin, Promote;
      if !a.roots {
        return None;
      }
      TimePasses(os, a, a.clock + 1, a.roots, a.registered);
      if birth == 0 || ReadBirth(os, a.clock, pid) != birth {
        a := a.(clock := a.clock + 1);
        return None;
      }
      var w := FindController(os, a.clock + 1, a.entries, pid, birth);
      TimePasses(os, a, w.clock, a.roots, a.registered);
      TimePasses(os, a, w.clock + 1, a.roots, a.registered);
      a := a.(clock := w.clock);
      if w.entry < 0 {
        return None;
      }
      var e := a.entries[w.entry];
      if e.pid == pid {
        return Some(e.network);
      }
      a := a.(clock := w.clock + 1);
      if ReadBirth(os, w.clock, e.pid) != e.birth {
        return None;
      }
      var ok := PinScope(os, pid, birth, e.network);
      if ok {
        var marked := MarkController(os, pid, birth);
      }
      network := Some(e.network);
    }

    method RegisterControllerScope(os: Os, pid: int, birth: nat, network: string, validKey: bool) returns (ok: bool)
      requires Mortal(os) && Good(os, a)
      modifies this
      ensures (a, ok) == DoRegister(os, old(a), pid, birth, network, validKey) && Good(os, a)
    {
      hide Mortal, Good, DoInherit, DoPin, Promote, FindExact;
      if pid <= 1 || !validKey || birth == 0 {
        return false;
      }
      var asked := a.clock;
      TimePasses(os, a, a.clock + 1, a.roots, a.registered);
      ok := ReadBirth(os, a.clock, pid) == birth;
      a := a.(clock := a.clock + 1);
      if !ok {
        return;
      }
      var inherited := ControllerScope(os, pid, birth);
      if inherited.Some? && inherited.value != network {
        return false;
      }
      ok := PinScope(os, pid, birth, network);
      if !ok {
        return;
      }
      var i := ScanExact(a.entries, pid, birth);
      if i < 0 {
        return false;
      }
      ok := MarkController(os, pid, birth);
      var root := Entry(pid, birth, network, true, asked);
      TimePasses(os, a, a.clock, true, a.registered + [root]);
      a := a.(roots := true, registered := a.registered + [root]);
    }
  }
}
