/** The bounded table that pins process identities to networks. The operating
    system is a trace of worlds, one per read: anything may change between two
    of them, except that an identity once gone stays gone and that a process born
    later has no smaller birth. A read tells the truth or fails. */
module ScopeRegistry {
  import opened Common

  const MAX_SCOPES: nat := 8192
  const MAX_DEPTH: nat := 64

  datatype Identity = Identity(pid: int, birth: nat)

  /** The processes there are (birth 0: none), their parents, and whether the read
      made at this moment fails. */
  datatype World = World(life: int -> nat, parent: int -> int, fails: bool)

  type Os = nat -> World

  function ReadBirth(os: Os, t: nat, pid: int): nat { if os(t).fails then 0 else os(t).life(pid) }

  function ReadParent(os: Os, t: nat, pid: int): int { if os(t).fails then 0 else os(t).parent(pid) }

  /** `at` is the read that saw the identity alive when it was pinned. */
  datatype Entry = Entry(pid: int, birth: nat, network: string, controller: bool, at: nat)

  function IdOf(e: Entry): Identity { Identity(e.pid, e.birth) }

  /** `clock` numbers the next read. The rest is history: all successful pins, the
      identities whose read failed while a full table was reclaimed, ever and in
      the latest operation, and the successful registrations of controllers. */
  datatype Auth = Auth(entries: seq<Entry>, roots: bool, clock: nat, pins: seq<Entry>,
                       failed: set<Identity>, recent: set<Identity>, registered: seq<Entry>)

  predicate Alive(os: Os, t: nat, pid: int, birth: nat) { birth != 0 && os(t).life(pid) == birth }

  ghost predicate Mortal(os: Os) {
    forall p: int, b: nat, t: nat, u: nat, v: nat ::
      t <= u <= v && Alive(os, t, p, b) && Alive(os, v, p, b) ==> Alive(os, u, p, b)
  }

  ghost predicate BirthsGrow(os: Os) {
    forall p: int, b: nat, q: int, d: nat, t: nat, u: nat ::
      t <= u && Alive(os, u, p, b) && !Alive(os, t, p, b) && Alive(os, t, q, d) ==> b >= d
  }

  /** From read `t` on the identity is gone. */
  ghost predicate Gone(os: Os, t: nat, pid: int, birth: nat) {
    forall u: nat :: u >= t ==> !Alive(os, u, pid, birth)
  }

  // -------------------------------------------------------------------- pinning

  /** First entry from `at` with this pid, -1 if none. */
  function FindPid(entries: seq<Entry>, at: nat, pid: int): (i: int)
    requires at <= |entries|
    ensures -1 <= i < |entries|
    ensures i >= 0 ==> i >= at && entries[i].pid == pid
    ensures i == -1 <==> forall k :: at <= k < |entries| ==> entries[k].pid != pid
    decreases |entries| - at
  {
    if at == |entries| then -1 else if entries[at].pid == pid then at else FindPid(entries, at + 1, pid)
  }

  /** First entry from `at` with this identity, -1 if none. */
  function FindExact(entries: seq<Entry>, at: nat, pid: int, birth: nat): (i: int)
    requires at <= |entries|
    ensures -1 <= i < |entries|
    ensures i >= 0 ==> i >= at && entries[i].pid == pid && entries[i].birth == birth
    ensures i == -1 <==> forall k :: at <= k < |entries| ==> !(entries[k].pid == pid && entries[k].birth == birth)
    decreases |entries| - at
  {
    if at == |entries| then -1
    else if entries[at].pid == pid && entries[at].birth == birth then at
    else FindExact(entries, at + 1, pid, birth)
  }

  /** The last entry takes the place of entry `i`. */
  function SwapOut(entries: seq<Entry>, i: nat): seq<Entry>
    requires i < |entries|
  {
    entries[i := entries[|entries| - 1]][..|entries| - 1]
  }

  /** `failed`: whose read failed in the pass. */
  datatype Table = Table(entries: seq<Entry>, clock: nat, failed: set<Identity>)

  /** Drops every entry from `i` on whose birth is not read back. */
  function Reclaim(os: Os, clock: nat, entries: seq<Entry>, i: nat): (r: Table)
    ensures |r.entries| <= |entries| && r.clock >= clock
    decreases |entries| - i
  {
    if i >= |entries| then Table(entries, clock, {})
    else
      var r :=
        if ReadBirth(os, clock, entries[i].pid) != entries[i].birth then Reclaim(os, clock + 1, SwapOut(entries, i), i)
        else Reclaim(os, clock + 1, entries, i + 1);
      if os(clock).fails then r.(failed := r.failed + {IdOf(entries[i])}) else r
  }

  datatype Pinned = Pinned(ok: bool, entries: seq<Entry>, clock: nat, failed: set<Identity>)

  function Pin(os: Os, clock: nat, entries: seq<Entry>, pid: int, birth: nat, network: string): (r: Pinned)
    ensures r.clock >= clock
  {
    if birth == 0 || ReadBirth(os, clock, pid) != birth then Pinned(false, entries, clock + 1, {})
    else
      var i := FindPid(entries, 0, pid);
      var e := Entry(pid, birth, network, false, clock);
      if i >= 0 then
        if entries[i].birth == birth then Pinned(entries[i].network == network, entries, clock + 1, {})
        else Pinned(true, entries[i := e], clock + 1, {})
      else
        var t := if |entries| >= MAX_SCOPES then Reclaim(os, clock + 1, entries, 0) else Table(entries, clock + 1, {});
        if |t.entries| >= MAX_SCOPES then Pinned(false, t.entries, t.clock, t.failed)
        else Pinned(true, t.entries + [e], t.clock, t.failed)
  }

  // ---------------------------------------------------------------- invariants

  ghost predicate Unique(entries: seq<Entry>) {
    forall i, j :: 0 <= i < j < |entries| ==> entries[i].pid != entries[j].pid
  }

  /** Every entry was seen alive. */
  ghost predicate Witnessed(os: Os, clock: nat, entries: seq<Entry>) {
    forall i :: 0 <= i < |entries| ==> entries[i].at < clock && Alive(os, entries[i].at, entries[i].pid, entries[i].birth)
  }

  predicate Names(e: Entry, pid: int, birth: nat, network: string) { e.pid == pid && e.birth == birth && e.network == network }

  ghost predicate Holds(entries: seq<Entry>, pid: int, birth: nat, network: string) {
    exists i :: 0 <= i < |entries| && Names(entries[i], pid, birth, network)
  }

  /** A pinned identity is still in the table with its network, or gone, or was
      misread by a reclaim. */
  ghost predicate Kept(os: Os, clock: nat, entries: seq<Entry>, failed: set<Identity>, p: Entry) {
    Holds(entries, p.pid, p.birth, p.network) || Gone(os, clock, p.pid, p.birth) || IdOf(p) in failed
  }

  ghost predicate AllKept(os: Os, clock: nat, entries: seq<Entry>, failed: set<Identity>, pins: seq<Entry>) {
    forall k :: 0 <= k < |pins| ==> Kept(os, clock, entries, failed, pins[k])
  }

  ghost predicate TableInv(os: Os, clock: nat, entries: seq<Entry>) {
    Unique(entries) && Witnessed(os, clock, entries) && |entries| <= MAX_SCOPES
  }

  ghost predicate Inv(os: Os, a: Auth) {
    && TableInv(os, a.clock, a.entries) && Witnessed(os, a.clock, a.pins)
    && AllKept(os, a.clock, a.entries, a.failed, a.pins)
  }

  /** An identity seen once and not found now will never be found again. */
  lemma NotFoundIsGone(os: Os, t: nat, clock: nat, pid: int, birth: nat)
    requires Mortal(os) && t <= clock && Alive(os, t, pid, birth) && !Alive(os, clock, pid, birth)
    ensures Gone(os, clock, pid, birth)
  {
    forall u: nat | u >= clock ensures !Alive(os, u, pid, birth) {
      assert Alive(os, u, pid, birth) ==> Alive(os, clock, pid, birth);
    }
  }

  lemma GoneLater(os: Os, t: nat, u: nat, pid: int, birth: nat)
    requires Gone(os, t, pid, birth) && t <= u
    ensures Gone(os, u, pid, birth)
  {}

  // ------------------------------------------------------------------- reclaiming

  lemma SwapOutKeeps(os: Os, clock: nat, entries: seq<Entry>, i: nat)
    requires TableInv(os, clock, entries) && i < |entries|
    ensures TableInv(os, clock + 1, SwapOut(entries, i))
    ensures forall k :: 0 <= k < |entries| && k != i ==> entries[k] in SwapOut(entries, i)
    ensures forall e :: e in SwapOut(entries, i) ==> e in entries
  {
    var n := |entries| - 1;
    var s := SwapOut(entries, i);
    assert forall k :: 0 <= k < n ==> s[k] == if k == i then entries[n] else entries[k];
    forall k | 0 <= k < |entries| && k != i ensures entries[k] in s {
      if k == n {
        assert s[i] == entries[n];
      } else {
        assert s[k] == entries[k];
      }
    }
  }

  /** What left the table is gone for good, or its read failed; what stayed was
      read. Every entry is read once. */
  lemma {:induction false} ReclaimKeeps(os: Os, clock: nat, entries: seq<Entry>, i: nat)
    requires Mortal(os) && TableInv(os, clock, entries)
    ensures var r := Reclaim(os, clock, entries, i);
      && TableInv(os, r.clock, r.entries)
      && (forall e :: e in r.entries ==> e in entries)
      && (forall e :: e in entries ==> e in r.entries || Gone(os, r.clock, e.pid, e.birth) || IdOf(e) in r.failed)
      && (|r.entries| == |entries| ==> r.entries == entries)
    decreases |entries| - i
  {
    hide Gone, TableInv, Mortal;
    var r := Reclaim(os, clock, entries, i);
    if i < |entries| {
      var x := entries[i];
      if ReadBirth(os, clock, x.pid) != x.birth {
        SwapOutKeeps(os, clock, entries, i);
        var s := SwapOut(entries, i);
        ReclaimKeeps(os, clock + 1, s, i);
        if !os(clock).fails {
          EntryGone(os, clock, entries, i, r.clock);
        }
        forall e | e in entries ensures e in r.entries || Gone(os, r.clock, e.pid, e.birth) || IdOf(e) in r.failed {
          var k :| 0 <= k < |entries| && entries[k] == e;
        }
        assert |s| < |entries|;
      } else {
        TableTicks(os, clock, entries);
        ReclaimKeeps(os, clock + 1, entries, i + 1);
      }
    }
  }

  /** Whose read failed was in the table and is not any more. */
  lemma {:induction false} ReclaimForgets(os: Os, clock: nat, entries: seq<Entry>, i: nat)
    requires TableInv(os, clock, entries)
    ensures forall k :: 0 <= k < i && k < |entries| ==> IdOf(entries[k]) !in Reclaim(os, clock, entries, i).failed
    ensures forall x :: x in Reclaim(os, clock, entries, i).failed ==> !Present(Reclaim(os, clock, entries, i).entries, x)
    decreases |entries| - i
  {
    hide TableInv;
    var r := Reclaim(os, clock, entries, i);
    if i < |entries| {
      var x := entries[i];
      EntryReal(os, clock, entries, i);
      if ReadBirth(os, clock, x.pid) != x.birth {
        SwapOutKeeps(os, clock, entries, i);
        var s := SwapOut(entries, i);
        ReclaimForgets(os, clock + 1, s, i);
        assert forall k :: 0 <= k < i ==> s[k] == entries[k];
        ReclaimSubset(os, clock + 1, s, i);
        SwappedOut(os, clock, entries, i, r.entries);
      } else {
        TableTicks(os, clock, entries);
        ReclaimForgets(os, clock + 1, entries, i + 1);
      }
    }
  }

  ghost predicate Present(entries: seq<Entry>, x: Identity) {
    exists k :: 0 <= k < |entries| && IdOf(entries[k]) == x
  }

  lemma EntryReal(os: Os, clock: nat, entries: seq<Entry>, i: nat)
    requires TableInv(os, clock, entries) && i < |entries|
    ensures entries[i].birth != 0 && forall k :: 0 <= k < i ==> IdOf(entries[k]) != IdOf(entries[i])
  {}

  lemma {:induction false} ReclaimSubset(os: Os, clock: nat, entries: seq<Entry>, i: nat)
    ensures forall e :: e in Reclaim(os, clock, entries, i).entries ==> e in entries
    decreases |entries| - i
  {
    if i < |entries| {
      if ReadBirth(os, clock, entries[i].pid) != entries[i].birth {
        ReclaimSubset(os, clock + 1, SwapOut(entries, i), i);
        var s := SwapOut(entries, i);
        forall e | e in s ensures e in entries {
          var k :| 0 <= k < |s| && s[k] == e;
          assert s[k] == if k == i then entries[|entries| - 1] else entries[k];
        }
      } else {
        ReclaimSubset(os, clock + 1, entries, i + 1);
      }
    }
  }

  lemma SwappedOut(os: Os, clock: nat, entries: seq<Entry>, i: nat, rest: seq<Entry>)
    requires TableInv(os, clock, entries) && i < |entries|
    requires forall e :: e in rest ==> e in SwapOut(entries, i)
    ensures !Present(rest, IdOf(entries[i]))
  {
    var s := SwapOut(entries, i);
    forall k | 0 <= k < |rest| ensures IdOf(rest[k]) != IdOf(entries[i]) {
      assert rest[k] in s;
      var m :| 0 <= m < |s| && s[m] == rest[k];
      assert s[m] == if m == i then entries[|entries| - 1] else entries[m];
    }
  }

  lemma TableTicks(os: Os, clock: nat, entries: seq<Entry>)
    requires TableInv(os, clock, entries)
    ensures TableInv(os, clock + 1, entries)
  {}

  lemma EntryGone(os: Os, clock: nat, entries: seq<Entry>, i: nat, later: nat)
    requires Mortal(os) && TableInv(os, clock, entries) && i < |entries| && !Alive(os, clock, entries[i].pid, entries[i].birth)
    requires later >= clock
    ensures Gone(os, later, entries[i].pid, entries[i].birth)
  {
    hide Mortal, Gone;
    NotFoundIsGone(os, entries[i].at, clock, entries[i].pid, entries[i].birth);
    GoneLater(os, clock, later, entries[i].pid, entries[i].birth);
  }

  // ------------------------------------------------------------------- one pin

  lemma KeptThrough(os: Os, t: nat, u: nat, before: seq<Entry>, after: seq<Entry>, was: set<Identity>, failed: set<Identity>, p: Entry)
    requires Kept(os, t, before, was, p) && t <= u && Survives(os, u, before, after, failed)
    ensures Kept(os, u, after, was + failed, p)
  {
    hide Gone;
    if Gone(os, t, p.pid, p.birth) {
      GoneLater(os, t, u, p.pid, p.birth);
    } else if IdOf(p) !in was {
      var i :| 0 <= i < |before| && Names(before[i], p.pid, p.birth, p.network);
      assert before[i] in before;
    }
  }

  /** Every entry of the old table survives in the new one, is gone or was misread. */
  ghost predicate Survives(os: Os, clock: nat, before: seq<Entry>, after: seq<Entry>, failed: set<Identity>) {
    forall e :: e in before ==>
      Holds(after, e.pid, e.birth, e.network) || Gone(os, clock, e.pid, e.birth) || IdOf(e) in failed
  }

  lemma PinTable(os: Os, clock: nat, entries: seq<Entry>, pid: int, birth: nat, network: string)
    requires Mortal(os) && TableInv(os, clock, entries)
    ensures var r := Pin(os, clock, entries, pid, birth, network);
      && TableInv(os, r.clock, r.entries) && Survives(os, r.clock, entries, r.entries, r.failed)
      && (!r.ok ==> r.entries == entries)
      && (r.ok ==> Alive(os, clock, pid, birth) && Holds(r.entries, pid, birth, network))
      && r.clock > clock
  {
    if birth != 0 && ReadBirth(os, clock, pid) == birth {
      var i := FindPid(entries, 0, pid);
      if i >= 0 {
        PinKnown(os, clock, entries, pid, birth, network, i);
      } else if |entries| >= MAX_SCOPES {
        PinFull(os, clock, entries, pid, birth, network);
      } else {
        hide Mortal, Gone;
        PinNew(os, clock, entries, Entry(pid, birth, network, false, clock), clock + 1);
        Same(os, clock + 1, entries, entries + [Entry(pid, birth, network, false, clock)]);
      }
    } else {
      hide Mortal, Gone;
      Same(os, clock + 1, entries, entries);
    }
  }

  lemma Same(os: Os, clock: nat, entries: seq<Entry>, more: seq<Entry>)
    requires entries <= more
    ensures Survives(os, clock, entries, more, {})
  {
    forall e | e in entries ensures Holds(more, e.pid, e.birth, e.network) {
      var i :| 0 <= i < |entries| && entries[i] == e;
      assert Names(more[i], e.pid, e.birth, e.network);
    }
  }

  lemma PinKnown(os: Os, clock: nat, entries: seq<Entry>, pid: int, birth: nat, network: string, i: nat)
    requires Mortal(os) && TableInv(os, clock, entries) && i < |entries| && entries[i].pid == pid && Alive(os, clock, pid, birth)
    ensures TableInv(os, clock + 1, entries) && Survives(os, clock + 1, entries, entries, {})
    ensures entries[i].birth == birth && entries[i].network == network ==> Holds(entries, pid, birth, network)
    ensures entries[i].birth != birth ==>
      var next := entries[i := Entry(pid, birth, network, false, clock)];
      TableInv(os, clock + 1, next) && Survives(os, clock + 1, entries, next, {}) && Holds(next, pid, birth, network)
  {
    Same(os, clock + 1, entries, entries);
    if entries[i].birth != birth {
      var next := entries[i := Entry(pid, birth, network, false, clock)];
      EntryGone(os, clock, entries, i, clock + 1);
      hide Mortal, Gone;
      forall e | e in entries ensures Holds(next, e.pid, e.birth, e.network) || Gone(os, clock + 1, e.pid, e.birth) {
        var k :| 0 <= k < |entries| && entries[k] == e;
        if k != i {
          assert Names(next[k], e.pid, e.birth, e.network);
        }
      }
      assert Names(next[i], pid, birth, network);
    } else if entries[i].network == network {
      assert Names(entries[i], pid, birth, network);
    }
  }

  lemma PinNew(os: Os, clock: nat, entries: seq<Entry>, e: Entry, later: nat)
    requires TableInv(os, later, entries) && FindPid(entries, 0, e.pid) < 0 && |entries| < MAX_SCOPES
    requires e.at == clock < later && Alive(os, clock, e.pid, e.birth)
    ensures TableInv(os, later, entries + [e]) && Holds(entries + [e], e.pid, e.birth, e.network)
  {
    hide FindPid;
    assert Names((entries + [e])[|entries|], e.pid, e.birth, e.network);
  }

  lemma PinFull(os: Os, clock: nat, entries: seq<Entry>, pid: int, birth: nat, network: string)
    requires Mortal(os) && TableInv(os, clock, entries) && |entries| >= MAX_SCOPES
    requires FindPid(entries, 0, pid) < 0 && Alive(os, clock, pid, birth)
    ensures var t, e := Reclaim(os, clock + 1, entries, 0), Entry(pid, birth, network, false, clock);
      && TableInv(os, t.clock, t.entries) && t.clock > clock
      && (|t.entries| >= MAX_SCOPES ==> t.entries == entries && Survives(os, t.clock, entries, entries, t.failed))
      && (|t.entries| < MAX_SCOPES ==>
            && TableInv(os, t.clock, t.entries + [e]) && Survives(os, t.clock, entries, t.entries + [e], t.failed)
            && Holds(t.entries + [e], pid, birth, network))
  {
    hide Mortal, Gone, Reclaim, TableInv, FindPid, Alive, Survives;
    var t, e := Reclaim(os, clock + 1, entries, 0), Entry(pid, birth, network, false, clock);
    TableTicks(os, clock, entries);
    ReclaimKeeps(os, clock + 1, entries, 0);
    SurvivesReclaim(os, t, entries, []);
    SurvivesReclaim(os, t, entries, [e]);
    assert t.entries + [] == t.entries;
    if |t.entries| < MAX_SCOPES {
      forall k | 0 <= k < |t.entries| ensures t.entries[k].pid != pid {
        assert t.entries[k] in entries;
      }
      PinNew(os, clock, t.entries, e, t.clock);
    }
  }

  lemma SurvivesReclaim(os: Os, t: Table, entries: seq<Entry>, more: seq<Entry>)
    requires forall e :: e in entries ==> e in t.entries || Gone(os, t.clock, e.pid, e.birth) || IdOf(e) in t.failed
    ensures Survives(os, t.clock, entries, t.entries + more, t.failed)
  {
    hide Gone;
    var all := t.entries + more;
    forall x | x in entries ensures Holds(all, x.pid, x.birth, x.network) || Gone(os, t.clock, x.pid, x.birth) || IdOf(x) in t.failed {
      if x in t.entries {
        var k :| 0 <= k < |t.entries| && t.entries[k] == x;
        assert Names(all[k], x.pid, x.birth, x.network);
      }
    }
  }

  /** A live entry leaves the table if and only if the pin reclaimed a full table
      and its read of that entry failed. */
  lemma LiveEntryLeavesExactly(os: Os, clock: nat, entries: seq<Entry>, pid: int, birth: nat, network: string, e: Entry)
    requires Mortal(os) && TableInv(os, clock, entries) && e in entries
    requires Alive(os, Pin(os, clock, entries, pid, birth, network).clock, e.pid, e.birth)
    ensures var r := Pin(os, clock, entries, pid, birth, network);
      && (!Present(r.entries, IdOf(e)) <==> IdOf(e) in r.failed)
      && (r.failed != {} ==> |entries| == MAX_SCOPES && FindPid(entries, 0, pid) < 0)
  {
    var r := Pin(os, clock, entries, pid, birth, network);
    PinTable(os, clock, entries, pid, birth, network);
    assert !Gone(os, r.clock, e.pid, e.birth);
    assert Holds(r.entries, e.pid, e.birth, e.network) || IdOf(e) in r.failed;
    hide Mortal, Gone, Survives, Alive, Pin;
    HeldPresent(r.entries, e);
    MisreadAbsent(os, clock, entries, pid, birth, network, e);
  }

  lemma HeldPresent(entries: seq<Entry>, e: Entry)
    ensures Holds(entries, e.pid, e.birth, e.network) ==> Present(entries, IdOf(e))
  {
    if Holds(entries, e.pid, e.birth, e.network) {
      var k :| 0 <= k < |entries| && Names(entries[k], e.pid, e.birth, e.network);
      assert IdOf(entries[k]) == IdOf(e);
    }
  }

  lemma MisreadAbsent(os: Os, clock: nat, entries: seq<Entry>, pid: int, birth: nat, network: string, e: Entry)
    requires TableInv(os, clock, entries) && e in entries
    ensures var r := Pin(os, clock, entries, pid, birth, network);
      && (IdOf(e) in r.failed ==> !Present(r.entries, IdOf(e)))
      && (r.failed != {} ==> |entries| == MAX_SCOPES && FindPid(entries, 0, pid) < 0)
  {
    hide Reclaim, FindPid;
    var r := Pin(os, clock, entries, pid, birth, network);
    if IdOf(e) in r.failed {
      var t := Reclaim(os, clock + 1, entries, 0);
      TableTicks(os, clock, entries);
      ReclaimForgets(os, clock + 1, entries, 0);
      hide TableInv;
      assert r.failed == t.failed && r.entries == if r.ok then t.entries + [Entry(pid, birth, network, false, clock)] else t.entries;
      assert IdOf(e) in t.failed && !Present(t.entries, IdOf(e));
      var m :| 0 <= m < |entries| && entries[m] == e;
      assert entries[m].pid != pid;
      forall k | 0 <= k < |r.entries| ensures IdOf(r.entries[k]) != IdOf(e) {
        assert k < |t.entries| ==> r.entries[k] == t.entries[k];
      }
    }
  }

  // ---------------------------------------------------------------- operations

  datatype Op =
    | PinScope(pid: int, birth: nat, network: string)
    | Inherit(pid: int, birth: nat)
    | RegisterController(pid: int, birth: nat, network: string, validKey: bool)

  function DoPin(os: Os, a: Auth, pid: int, birth: nat, network: string): (Auth, bool) {
    var r := Pin(os, a.clock, a.entries, pid, birth, network);
    (a.(entries := r.entries, clock := r.clock, failed := a.failed + r.failed, recent := a.recent + r.failed,
        pins := if r.ok then a.pins + [Entry(pid, birth, network, false, a.clock)] else a.pins), r.ok)
  }

  /** Marks the exact identity as a controller's. */
  function Promote(a: Auth, pid: int, birth: nat): Auth {
    var i := FindExact(a.entries, 0, pid, birth);
    if i < 0 then a else a.(entries := a.entries[i := a.entries[i].(controller := true)])
  }

  /** The nearest ancestor with a controller scope: its entry, or -1. */
  datatype Walked = Walked(entry: int, clock: nat)

  function Walk(os: Os, clock: nat, entries: seq<Entry>, pid: int, birth: nat, depth: nat): (w: Walked)
    ensures -1 <= w.entry < |entries| && w.clock >= clock
    ensures w.entry >= 0 ==> entries[w.entry].controller
    decreases MAX_DEPTH - depth
  {
    if depth >= MAX_DEPTH || pid <= 1 || birth == 0 then Walked(-1, clock)
    else
      var i := FindExact(entries, 0, pid, birth);
      if i >= 0 && entries[i].controller then Walked(i, clock)
      else
        var parent := ReadParent(os, clock, pid);
        var parentBirth := if parent > 1 then ReadBirth(os, clock + 1, parent) else 0;
        if parent == pid || parentBirth == 0 || parentBirth > birth || ReadBirth(os, clock + 2, pid) != birth then Walked(-1, clock + 3)
        else Walk(os, clock + 3, entries, parent, parentBirth, depth + 1)
  }

  /** The controller scope a process has or inherits: its network, if any. */
  function DoInherit(os: Os, a: Auth, pid: int, birth: nat): (Auth, Option<string>) {
    if !a.roots then (a, None)
    else if birth == 0 || ReadBirth(os, a.clock, pid) != birth then (a.(clock := a.clock + 1), None)
    else
      var w := Walk(os, a.clock + 1, a.entries, pid, birth, 0);
      var b := a.(clock := w.clock);
      if w.entry < 0 then (b, None)
      else
        var e := a.entries[w.entry];
        if e.pid == pid then (b, Some(e.network))
        else if ReadBirth(os, b.clock, e.pid) != e.birth then (b.(clock := b.clock + 1), None)
        else
          var (c, ok) := DoPin(os, b.(clock := b.clock + 1), pid, birth, e.network);
          (if ok then Promote(c, pid, birth) else c, Some(e.network))
  }

  function DoRegister(os: Os, a: Auth, pid: int, birth: nat, network: string, validKey: bool): (Auth, bool) {
    if pid <= 1 || !validKey || birth == 0 then (a, false)
    else if ReadBirth(os, a.clock, pid) != birth then (a.(clock := a.clock + 1), false)
    else
      var (b, inherited) := DoInherit(os, a.(clock := a.clock + 1), pid, birth);
      if inherited.Some? && inherited.value != network then (b, false)
      else
        var (c, ok) := DoPin(os, b, pid, birth, network);
        if !ok || FindExact(c.entries, 0, pid, birth) < 0 then (c, false)
        else
          var d := Promote(c, pid, birth);
          (d.(roots := true, registered := d.registered + [Entry(pid, birth, network, true, a.clock)]), true)
  }

  function Apply(os: Os, a: Auth, op: Op): Auth {
    var b := a.(recent := {});
    match op
    case PinScope(pid, birth, network) => DoPin(os, b, pid, birth, network).0
    case Inherit(pid, birth) => DoInherit(os, b, pid, birth).0
    case RegisterController(pid, birth, network, validKey) => DoRegister(os, b, pid, birth, network, validKey).0
  }

  function Init(): Auth { Auth([], false, 0, [], {}, {}, []) }

  function Run(os: Os, ops: seq<Op>): Auth {
    if ops == [] then Init() else Apply(os, Run(os, ops[..|ops| - 1]), ops[|ops| - 1])
  }

  /** No identity but a misread one has been pinned to two networks. */
  ghost predicate Consistent(pins: seq<Entry>, failed: set<Identity>) {
    forall i, j :: 0 <= i < |pins| && 0 <= j < |pins| && IdOf(pins[i]) == IdOf(pins[j]) && IdOf(pins[i]) !in failed ==>
      pins[i].network == pins[j].network
  }

  ghost predicate Good(os: Os, a: Auth) { Inv(os, a) && Consistent(a.pins, a.failed) }

  /** A pin that succeeds agrees with every earlier pin of the same identity. */
  lemma PinAgrees(os: Os, a: Auth, pid: int, birth: nat, network: string, p: Entry)
    requires TableInv(os, a.clock, a.entries) && Kept(os, a.clock, a.entries, a.failed, p) && p.pid == pid && p.birth == birth
    requires Pin(os, a.clock, a.entries, pid, birth, network).ok && IdOf(p) !in a.failed
    ensures p.network == network
  {
    hide Reclaim;
    assert Alive(os, a.clock, pid, birth);
    assert !Gone(os, a.clock, pid, birth);
    var i :| 0 <= i < |a.entries| && Names(a.entries[i], p.pid, p.birth, p.network);
    var k := FindPid(a.entries, 0, pid);
    assert k == i;
  }

  lemma PinConsistent(os: Os, a: Auth, pid: int, birth: nat, network: string)
    requires Good(os, a)
    ensures var b := DoPin(os, a, pid, birth, network).0; Consistent(b.pins, b.failed)
  {
    hide Pin;
    if Pin(os, a.clock, a.entries, pid, birth, network).ok {
      forall k | 0 <= k < |a.pins| && IdOf(a.pins[k]) == Identity(pid, birth) && Identity(pid, birth) !in a.failed
        ensures a.pins[k].network == network
      {
        PinAgrees(os, a, pid, birth, network, a.pins[k]);
      }
    }
    hide Inv;
  }

  lemma PinKeeps(os: Os, a: Auth, pid: int, birth: nat, network: string)
    requires Mortal(os) && Good(os, a)
    ensures Good(os, DoPin(os, a, pid, birth, network).0)
  {
    hide Pin, Mortal, Gone, TableInv, Consistent, Survives;
    PinConsistent(os, a, pid, birth, network);
    PinTable(os, a.clock, a.entries, pid, birth, network);
    var r := Pin(os, a.clock, a.entries, pid, birth, network);
    forall k | 0 <= k < |a.pins| ensures Kept(os, r.clock, r.entries, a.failed + r.failed, a.pins[k]) {
      KeptThrough(os, a.clock, r.clock, a.entries, r.entries, a.failed, r.failed, a.pins[k]);
    }
  }

  lemma PromoteKeeps(os: Os, a: Auth, pid: int, birth: nat)
    requires Good(os, a)
    ensures Good(os, Promote(a, pid, birth))
  {
    hide FindExact, Gone, Consistent;
    var b := Promote(a, pid, birth);
    assert forall k :: 0 <= k < |a.entries| ==> b.entries[k] == a.entries[k].(controller := b.entries[k].controller);
    forall k | 0 <= k < |a.pins| ensures Kept(os, b.clock, b.entries, b.failed, b.pins[k]) {
      var p := a.pins[k];
      if Holds(a.entries, p.pid, p.birth, p.network) {
        var i :| 0 <= i < |a.entries| && Names(a.entries[i], p.pid, p.birth, p.network);
        assert Names(b.entries[i], p.pid, p.birth, p.network);
      }
    }
  }

  lemma TimePasses(os: Os, a: Auth, clock: nat, roots: bool, registered: seq<Entry>)
    requires Good(os, a) && clock >= a.clock
    ensures Good(os, a.(clock := clock, roots := roots, registered := registered))
  {
    hide Consistent, Gone;
    forall k | 0 <= k < |a.pins| ensures Kept(os, clock, a.entries, a.failed, a.pins[k]) {
      if Gone(os, a.clock, a.pins[k].pid, a.pins[k].birth) {
        GoneLater(os, a.clock, clock, a.pins[k].pid, a.pins[k].birth);
      }
    }
  }

  lemma InheritKeeps(os: Os, a: Auth, pid: int, birth: nat)
    requires Mortal(os) && Good(os, a)
    ensures Good(os, DoInherit(os, a, pid, birth).0)
  {
    hide Good, Mortal, DoPin, Walk, Promote;
    TimePasses(os, a, a.clock + 1, a.roots, a.registered);
    var w := Walk(os, a.clock + 1, a.entries, pid, birth, 0);
    var b := a.(clock := w.clock);
    TimePasses(os, a, w.clock, a.roots, a.registered);
    TimePasses(os, a, w.clock + 1, a.roots, a.registered);
    if w.entry >= 0 {
      PinKeeps(os, b.(clock := b.clock + 1), pid, birth, a.entries[w.entry].network);
      PromoteKeeps(os, DoPin(os, b.(clock := b.clock + 1), pid, birth, a.entries[w.entry].network).0, pid, birth);
    }
  }

  lemma RegisterKeeps(os: Os, a: Auth, pid: int, birth: nat, network: string, validKey: bool)
    requires Mortal(os) && Good(os, a)
    ensures Good(os, DoRegister(os, a, pid, birth, network, validKey).0)
  {
    hide Good, Mortal, DoPin, DoInherit, Promote, FindExact;
    TimePasses(os, a, a.clock + 1, a.roots, a.registered);
    InheritKeeps(os, a.(clock := a.clock + 1), pid, birth);
    var b := DoInherit(os, a.(clock := a.clock + 1), pid, birth).0;
    PinKeeps(os, b, pid, birth, network);
    var c := DoPin(os, b, pid, birth, network).0;
    PromoteKeeps(os, c, pid, birth);
    var d := Promote(c, pid, birth);
    TimePasses(os, d, d.clock, true, d.registered + [Entry(pid, birth, network, true, a.clock)]);
  }

  lemma OperationStarts(os: Os, a: Auth)
    requires Good(os, a)
    ensures Good(os, a.(recent := {}))
  {}

  lemma {:induction false} RunKeeps(os: Os, ops: seq<Op>)
    requires Mortal(os)
    ensures Good(os, Run(os, ops))
  {
    if ops != [] {
      RunKeeps(os, ops[..|ops| - 1]);
      OperationStarts(os, Run(os, ops[..|ops| - 1]));
      var a, op := Run(os, ops[..|ops| - 1]).(recent := {}), ops[|ops| - 1];
      hide Good, Mortal, DoPin, DoInherit, DoRegister;
      match op {
        case PinScope(pid, birth, network) => PinKeeps(os, a, pid, birth, network);
        case Inherit(pid, birth) => InheritKeeps(os, a, pid, birth);
        case RegisterController(pid, birth, network, validKey) => RegisterKeeps(os, a, pid, birth, network, validKey);
      }
    }
  }

  /** Over every run table pids are unique, and an identity none of whose reads
      failed during a reclaim is never pinned to two networks and, pinned and
      still alive, is in the table with its network. */
  lemma EachIdentityHasOneNetwork(os: Os, ops: seq<Op>, i: nat, j: nat)
    requires Mortal(os) && i < |Run(os, ops).pins| && j < |Run(os, ops).pins|
    ensures var a := Run(os, ops);
      && (forall k, l :: 0 <= k < l < |a.entries| ==> a.entries[k].pid != a.entries[l].pid)
      && |a.entries| <= MAX_SCOPES
      && (IdOf(a.pins[i]) !in a.failed ==>
            && (IdOf(a.pins[i]) == IdOf(a.pins[j]) ==> a.pins[i].network == a.pins[j].network)
            && (Alive(os, a.clock, a.pins[i].pid, a.pins[i].birth) ==>
                  Holds(a.entries, a.pins[i].pid, a.pins[i].birth, a.pins[i].network)))
  {
    RunKeeps(os, ops);
    var a := Run(os, ops);
    hide Run, Mortal;
    assert Kept(os, a.clock, a.entries, a.failed, a.pins[i]);
  }

  // --------------------------------------------------------- who leaves the table

  /** What an operation did to an identity of the table: it left exactly if one of
      the operation's reclaims misread it. */
  ghost predicate LeftExactly(a: Auth, b: Auth, x: Identity) {
    a.recent <= b.recent && (!Present(b.entries, x) <==> x in b.recent)
  }

  /** Alive at the end, hence all along. */
  lemma AliveThrough(os: Os, clock: nat, entries: seq<Entry>, x: Identity, t: nat, end: nat)
    requires Mortal(os) && TableInv(os, clock, entries) && Present(entries, x) && clock <= t <= end && Alive(os, end, x.pid, x.birth)
    ensures Alive(os, t, x.pid, x.birth)
  {
    var k :| 0 <= k < |entries| && IdOf(entries[k]) == x;
    assert Alive(os, entries[k].at, x.pid, x.birth);
  }

  lemma PinLeaves(os: Os, a: Auth, pid: int, birth: nat, network: string, x: Identity, end: nat)
    requires Mortal(os) && TableInv(os, a.clock, a.entries) && Present(a.entries, x) && x !in a.recent
    requires DoPin(os, a, pid, birth, network).0.clock <= end && Alive(os, end, x.pid, x.birth)
    ensures LeftExactly(a, DoPin(os, a, pid, birth, network).0, x)
    ensures x.pid == pid ==> x !in DoPin(os, a, pid, birth, network).0.recent
  {
    var k :| 0 <= k < |a.entries| && IdOf(a.entries[k]) == x;
    var r := Pin(os, a.clock, a.entries, pid, birth, network);
    AliveThrough(os, a.clock, a.entries, x, r.clock, end);
    LiveEntryLeavesExactly(os, a.clock, a.entries, pid, birth, network, a.entries[k]);
    hide Pin, Mortal, TableInv, Alive, Present, FindPid;
    assert x.pid == pid ==> FindPid(a.entries, 0, pid) >= 0;
  }

  /** A pin brings no other identity into the table. */
  lemma PinAbsent(os: Os, a: Auth, pid: int, birth: nat, network: string, x: Identity)
    requires !Present(a.entries, x) && x != Identity(pid, birth)
    ensures !Present(DoPin(os, a, pid, birth, network).0.entries, x)
  {
    var b := DoPin(os, a, pid, birth, network).0;
    ReclaimSubset(os, a.clock + 1, a.entries, 0);
    hide Reclaim, FindPid;
    forall k | 0 <= k < |b.entries| ensures IdOf(b.entries[k]) != x {
      assert b.entries[k] in a.entries || b.entries[k] == Entry(pid, birth, network, false, a.clock);
    }
  }

  lemma PromotePresent(a: Auth, pid: int, birth: nat, x: Identity)
    ensures Present(Promote(a, pid, birth).entries, x) <==> Present(a.entries, x)
  {
    hide FindExact;
    var b := Promote(a, pid, birth);
    assert forall k :: 0 <= k < |a.entries| ==> IdOf(b.entries[k]) == IdOf(a.entries[k]);
    assert |a.entries| == |b.entries|;
  }

  lemma InheritLeaves(os: Os, a: Auth, pid: int, birth: nat, x: Identity, end: nat)
    requires Mortal(os) && TableInv(os, a.clock, a.entries) && Present(a.entries, x) && x !in a.recent
    requires DoInherit(os, a, pid, birth).0.clock <= end && Alive(os, end, x.pid, x.birth)
    ensures LeftExactly(a, DoInherit(os, a, pid, birth).0, x)
    ensures x.pid == pid ==> x !in DoInherit(os, a, pid, birth).0.recent
  {
    hide Mortal, Present, DoPin, Walk, Promote, Alive;
    if a.roots && birth != 0 && ReadBirth(os, a.clock, pid) == birth {
      var w := Walk(os, a.clock + 1, a.entries, pid, birth, 0);
      if w.entry >= 0 {
        var e, c := a.entries[w.entry], a.(clock := w.clock + 1);
        if e.pid != pid && ReadBirth(os, w.clock, e.pid) == e.birth {
          var p := DoPin(os, c, pid, birth, e.network).0;
          PromotePresent(p, pid, birth, x);
          PromoteSame(p, pid, birth);
          PinLeaves(os, c, pid, birth, e.network, x, end);
        }
      }
    }
  }

  lemma PromoteSame(a: Auth, pid: int, birth: nat)
    ensures Promote(a, pid, birth) == a.(entries := Promote(a, pid, birth).entries)
  {}

  lemma RegisterLeaves(os: Os, a: Auth, pid: int, birth: nat, network: string, validKey: bool, x: Identity, end: nat)
    requires Mortal(os) && Good(os, a) && Present(a.entries, x) && x !in a.recent
    requires DoRegister(os, a, pid, birth, network, validKey).0.clock <= end && Alive(os, end, x.pid, x.birth)
    ensures LeftExactly(a, DoRegister(os, a, pid, birth, network, validKey).0, x)
  {
    hide Mortal, Present, DoPin, DoInherit, Promote, Alive, FindExact, TableInv, Kept, Consistent;
    if pid > 1 && validKey && birth != 0 && ReadBirth(os, a.clock, pid) == birth {
      var a1 := a.(clock := a.clock + 1);
      TimePasses(os, a, a.clock + 1, a.roots, a.registered);
      InheritKeeps(os, a1, pid, birth);
      var (b, inherited) := DoInherit(os, a1, pid, birth);
      var (c, ok) := DoPin(os, b, pid, birth, network);
      PinClock(os, b, pid, birth, network);
      PromoteSame(c, pid, birth);
      InheritLeaves(os, a1, pid, birth, x, end);
      PromotePresent(c, pid, birth, x);
      if inherited.Some? && inherited.value != network {
      } else if x in b.recent {
        PinAbsent(os, b, pid, birth, network, x);
        PinRecent(os, b, pid, birth, network);
      } else {
        PinLeaves(os, b, pid, birth, network, x, end);
      }
    }
  }

  lemma PinClock(os: Os, a: Auth, pid: int, birth: nat, network: string)
    ensures DoPin(os, a, pid, birth, network).0.clock >= a.clock
  {}

  lemma PinRecent(os: Os, a: Auth, pid: int, birth: nat, network: string)
    ensures a.recent <= DoPin(os, a, pid, birth, network).0.recent
  {
    hide Pin;
  }

  /** In every run and for every operation, an identity in the table that is alive
      when the operation ends has left the table if and only if the operation
      reclaimed a full table and its read of that identity failed. */
  lemma LiveIdentityLeavesExactly(os: Os, ops: seq<Op>, op: Op, x: Identity)
    requires Mortal(os) && Present(Run(os, ops).entries, x)
    requires Alive(os, Apply(os, Run(os, ops), op).clock, x.pid, x.birth)
    ensures !Present(Apply(os, Run(os, ops), op).entries, x) <==> x in Apply(os, Run(os, ops), op).recent
  {
    RunKeeps(os, ops);
    OperationStarts(os, Run(os, ops));
    var a, end := Run(os, ops).(recent := {}), Apply(os, Run(os, ops), op).clock;
    hide Run, Mortal, Present, DoPin, DoInherit, DoRegister, Alive, TableInv, Kept, Consistent;
    match op {
      case PinScope(pid, birth, network) => PinLeaves(os, a, pid, birth, network, x, end);
      case Inherit(pid, birth) => InheritLeaves(os, a, pid, birth, x, end);
      case RegisterController(pid, birth, network, validKey) => RegisterLeaves(os, a, pid, birth, network, validKey, x, end);
    }
  }
}
