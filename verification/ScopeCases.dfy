/** Two histories of the operating system in which the authorization table does
    less than a simple reading promises. */
module ScopeCases {
  import opened Common
  import opened ScopeRegistry
  import opened ScopeAncestry

  lemma RunPush(os: Os, ops: seq<Op>, op: Op)
    ensures Run(os, ops + [op]) == Apply(os, Run(os, ops), op)
  {
    assert (ops + [op])[..|ops|] == ops;
  }

  // ------------------------------------------------------------- failing reads

  /** Every process from 2 on lives all the time with birth 1, and for as many
      reads as a full table takes none succeeds. */
  function Exhausted(): Os {
    (t: nat) => World((p: int) => if p >= 2 then 1 else 0, (p: int) => 0, MAX_SCOPES < t <= 2 * MAX_SCOPES)
  }

  function Fill(n: nat): seq<Op> {
    if n == 0 then [] else Fill(n - 1) + [PinScope(n + 1, 1, "a")]
  }

  ghost predicate Filled(a: Auth, n: nat) {
    && |a.entries| == n && a.clock == n && |a.pins| == n && (n > 0 ==> a.pins[0] == Entry(2, 1, "a", false, 0))
    && forall k :: 0 <= k < n ==> a.entries[k].pid == k + 2 && a.entries[k].birth == 1
  }

  lemma FillOne(a: Auth, n: nat)
    requires Filled(a, n) && n < MAX_SCOPES
    ensures Filled(Apply(Exhausted(), a, PinScope(n + 2, 1, "a")), n + 1)
  {
    hide Reclaim;
  }

  lemma {:induction false} FillsUp(n: nat)
    requires n <= MAX_SCOPES
    ensures Filled(Run(Exhausted(), Fill(n)), n)
  {
    if n > 0 {
      FillsUp(n - 1);
      RunPush(Exhausted(), Fill(n - 1), PinScope(n + 1, 1, "a"));
      FillOne(Run(Exhausted(), Fill(n - 1)), n - 1);
    }
  }

  /** A reclaim none of whose reads succeeds forgets everyone. */
  lemma {:induction false} NothingRead(os: Os, clock: nat, entries: seq<Entry>)
    requires forall u :: clock <= u < clock + |entries| ==> os(u).fails
    requires forall k :: 0 <= k < |entries| ==> entries[k].birth != 0
    ensures var r := Reclaim(os, clock, entries, 0); r.entries == [] && r.clock == clock + |entries|
    decreases |entries|
  {
    if entries != [] {
      NothingRead(os, clock + 1, SwapOut(entries, 0));
    }
  }

  lemma Forgets(a: Auth)
    requires Filled(a, MAX_SCOPES)
    ensures var b := Apply(Exhausted(), a, PinScope(20000, 1, "a"));
      b.entries == [Entry(20000, 1, "a", false, MAX_SCOPES)] && b.clock == 2 * MAX_SCOPES + 1 && |b.pins| == MAX_SCOPES + 1
      && b.pins[0] == Entry(2, 1, "a", false, 0)
  {
    NothingRead(Exhausted(), MAX_SCOPES + 1, a.entries);
    hide Reclaim;
    assert FindPid(a.entries, 0, 20000) == -1;
  }

  /** When the table is full and no process can be read, live processes are
      forgotten, and one of them is then pinned to a second network. */
  lemma FailedReadsAllowTwoNetworks(ops: seq<Op>)
    requires ops == Fill(MAX_SCOPES)
    ensures Mortal(Exhausted()) && forall t: nat :: Alive(Exhausted(), t, 2, 1)
    ensures var pins := Run(Exhausted(), ops + [PinScope(20000, 1, "a")] + [PinScope(2, 1, "b")]).pins;
      |pins| == MAX_SCOPES + 2 && pins[0] == Entry(2, 1, "a", false, 0)
      && pins[MAX_SCOPES + 1] == Entry(2, 1, "b", false, 2 * MAX_SCOPES + 1)
  {
    FillsUp(MAX_SCOPES);
    RunPush(Exhausted(), ops, PinScope(20000, 1, "a"));
    RunPush(Exhausted(), ops + [PinScope(20000, 1, "a")], PinScope(2, 1, "b"));
    hide Run, Fill;
    var a := Run(Exhausted(), ops);
    Forgets(a);
    hide Reclaim;
    var b := Run(Exhausted(), ops + [PinScope(20000, 1, "a")]);
    assert FindPid(b.entries, 0, 2) == -1;
  }

  // ---------------------------------------------------------------- equal births

  /** Process 5, born in tick 7, is a child of process 3, born in tick 6. At read
      4 that one has ended, and a child of process 9, born in tick 7 too, has its
      pid. */
  function Reused(): Os {
    (t: nat) => World(
      (p: int) => if p == 9 then 1 else if p == 5 then 7 else if p == 3 then if t < 4 then 6 else 7 else 0,
      (p: int) => if p == 5 then if t < 4 then 3 else 1 else if p == 3 then if t < 4 then 1 else 9 else 0,
      false)
  }

  lemma ReusedIsProper()
    ensures Mortal(Reused()) && BirthsGrow(Reused())
  {}

  /** Into an empty table. */
  lemma FirstPin(os: Os, a: Auth, pid: int, network: string)
    requires a.entries == [] && a.pins == [] && a.failed == {} && a.recent == {} && ReadBirth(os, a.clock, pid) == 1
    ensures var e := Entry(pid, 1, network, false, a.clock);
      DoPin(os, a, pid, 1, network) == (a.(entries := [e], pins := [e], clock := a.clock + 1), true)
  {
    hide Reclaim;
    var e := Entry(pid, 1, network, false, a.clock);
    assert FindPid(a.entries, 0, pid) == -1;
    assert a.entries + [e] == [e] && a.pins + [e] == [e] && a.failed + {} == {} && a.recent + {} == {};
  }

  lemma FirstController(os: Os, a: Auth)
    requires a == Init() && ReadBirth(os, 0, 9) == 1 && ReadBirth(os, 1, 9) == 1
    ensures DoRegister(os, a, 9, 1, "n", true).0 ==
      Auth([Entry(9, 1, "n", true, 1)], true, 2, [Entry(9, 1, "n", false, 1)], {}, {}, [Entry(9, 1, "n", true, 0)])
  {
    var b, e := a.(clock := 1), Entry(9, 1, "n", false, 1);
    NoRoots(os, b);
    FirstPin(os, b, 9, "n");
    MarkOne(b.(entries := [e], pins := [e], clock := 2), e);
    hide DoPin, DoInherit, Promote, FindExact;
  }

  lemma NoRoots(os: Os, a: Auth)
    requires !a.roots
    ensures DoInherit(os, a, 9, 1) == (a, None)
  {}

  lemma MarkOne(c: Auth, e: Entry)
    requires c.entries == [e] && e.pid == 9 && e.birth == 1 && c.registered == []
    ensures FindExact(c.entries, 0, 9, 1) == 0 && Promote(c, 9, 1) == c.(entries := [e.(controller := true)])
    ensures c.registered + [Entry(9, 1, "n", true, 0)] == [Entry(9, 1, "n", true, 0)]
  {}

  lemma Controller(op: Op)
    requires op == RegisterController(9, 1, "n", true)
    ensures Run(Reused(), [op]) ==
      Auth([Entry(9, 1, "n", true, 1)], true, 2, [Entry(9, 1, "n", false, 1)], {}, {}, [Entry(9, 1, "n", true, 0)])
  {
    RunPush(Reused(), [], op);
    assert [] + [op] == [op] && Run(Reused(), []) == Init();
    FirstController(Reused(), Init());
    hide Run, DoRegister;
    assert Init().(recent := {}) == Init();
  }

  lemma WalkFinds(entries: seq<Entry>)
    requires entries == [Entry(9, 1, "n", true, 1)]
    ensures Walk(Reused(), 3, entries, 5, 7, 0) == Walked(0, 9)
  {
    assert Walk(Reused(), 9, entries, 9, 1, 2) == Walked(0, 9);
    assert Walk(Reused(), 6, entries, 3, 7, 1) == Walk(Reused(), 9, entries, 9, 1, 2);
    assert Walk(Reused(), 3, entries, 5, 7, 0) == Walk(Reused(), 6, entries, 3, 7, 1);
  }

  lemma NoChild(child: Identity, parent: Identity)
    requires ChildOf(Reused(), child, parent)
    ensures child == Identity(5, 7) ==> parent == Identity(3, 6)
    ensures child != Identity(3, 6)
  {}

  lemma InheritsNine(a: Auth)
    requires a.entries == [Entry(9, 1, "n", true, 1)] && a.roots && a.clock == 2
    ensures DoInherit(Reused(), a, 5, 7).1 == Some("n")
  {
    WalkFinds(a.entries);
    hide Walk, DoPin, Promote;
  }

  /** The comparison of births lets an equal one pass: in a proper history process
      5 inherits the scope of process 9 ... */
  lemma EqualBirthInherits(ops: seq<Op>)
    requires ops == [RegisterController(9, 1, "n", true)]
    ensures Mortal(Reused()) && BirthsGrow(Reused())
    ensures DoInherit(Reused(), Run(Reused(), ops), 5, 7).1 == Some("n")
  {
    ReusedIsProper();
    Controller(ops[0]);
    var a := Run(Reused(), ops);
    hide *;
    InheritsNine(a);
  }

  /** ... to which no line of parents leads from it. */
  lemma NineIsNoAncestor(path: seq<Identity>)
    requires path != [] && path[0] == Identity(5, 7)
    requires forall i :: 0 <= i < |path| - 1 ==> ChildOf(Reused(), path[i], path[i + 1])
    ensures path[|path| - 1] != Identity(9, 1)
  {
    hide ChildOf, Reused;
    if |path| > 1 {
      NoChild(path[0], path[1]);
    }
    if |path| > 2 {
      NoChild(path[1], path[2]);
      assert false;
    }
  }
}
