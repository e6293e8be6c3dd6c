/** The broker's loop over its 64 slots, and what it keeps over any run. */
module BrokerLoop {
  import opened NetworkBroker

  datatype Server = Server(slots: seq<Slot>, kernel: Kernel, log: seq<Execution>, agent: bool)

  function Init(agent: bool): Server {
    Server(seq(MAX_CLIENTS, _ => EMPTY), Kernel(0, multiset{}, map[], [], [], {}), [], agent)
  }

  /** First free slot from `k` on, 64 if none. */
  function FreeSlot(slots: seq<Slot>, k: nat): (i: nat)
    requires k <= |slots|
    ensures k <= i <= |slots| && (i < |slots| ==> slots[i].control < 0)
    decreases |slots| - k
  {
    if k == |slots| || slots[k].control < 0 then k else FreeSlot(slots, k + 1)
  }

  /** One accepted control connection; `usable`: it could be made nonblocking and
      its peer identified. */
  datatype Arrival = Arrival(pid: int, birth: nat, usable: bool, now: int)

  function Admit(s: Server, a: Arrival): Server {
    var k, i := Opens(s.kernel), FreeSlot(s.slots, 0);
    if i == |s.slots| || !a.usable then s.(kernel := Closes(k, s.kernel.made))
    else
      s.(kernel := k,
         slots := s.slots[i := EMPTY.(control := s.kernel.made, pid := a.pid, birth := a.birth, deadline := a.now + DEADLINE_MS)])
  }

  function AdmitAll(s: Server, arrivals: seq<Arrival>): Server {
    if arrivals == [] then s else Admit(AdmitAll(s, arrivals[..|arrivals| - 1]), arrivals[|arrivals| - 1])
  }

  /** What happens to one slot in one turn: whether its peer is still the same
      process, then the events the poll reported, in order. */
  datatype Event = Event(op: Op, works: bool)
  datatype Visit = Visit(alive: bool, works: bool, events: seq<Event>)

  function OnSlot(s: Server, i: nat, e: Event): Server
    requires i < |s.slots|
  {
    var y := Step(State(s.slots[i], s.kernel, s.log), s.agent, e.op, e.works);
    s.(slots := s.slots[i := y.slot], kernel := y.kernel, log := y.log)
  }

  function Events(s: Server, i: nat, es: seq<Event>): (t: Server)
    requires i < |s.slots|
    ensures |t.slots| == |s.slots| && t.agent == s.agent
  {
    if es == [] then s else OnSlot(Events(s, i, es[..|es| - 1]), i, es[|es| - 1])
  }

  /** The deadline and the peer's birth are checked before anything else. */
  function VisitSlot(s: Server, i: nat, v: Visit, now: int): (t: Server)
    requires i < |s.slots|
    ensures |t.slots| == |s.slots| && t.agent == s.agent
  {
    if now >= s.slots[i].deadline || !v.alive then OnSlot(s, i, Event(Cancel, v.works)) else Events(s, i, v.events)
  }

  function VisitAll(s: Server, n: nat, visits: seq<Visit>, now: int): (t: Server)
    requires n <= |s.slots| && n <= |visits|
    ensures |t.slots| == |s.slots| && t.agent == s.agent
  {
    if n == 0 then s else VisitSlot(VisitAll(s, n - 1, visits, now), n - 1, visits[n - 1], now)
  }

  datatype Turn = Turn(arrivals: seq<Arrival>, now: int, visits: seq<Visit>)

  function OneTurn(s: Server, t: Turn): Server {
    var a := AdmitAll(s, t.arrivals);
    if |t.visits| < |a.slots| then a else VisitAll(a, |a.slots|, t.visits, t.now)
  }

  function Run(agent: bool, turns: seq<Turn>): Server {
    if turns == [] then Init(agent) else OneTurn(Run(agent, turns[..|turns| - 1]), turns[|turns| - 1])
  }

  // ---------------------------------------------------------------- ownership

  function AllHeld(slots: seq<Slot>): multiset<nat> {
    if slots == [] then multiset{} else AllHeld(slots[..|slots| - 1]) + Held(slots[|slots| - 1])
  }

  lemma Swap(a: multiset<nat>, b: multiset<nat>, c: multiset<nat>, d: multiset<nat>)
    requires a + b == c + d
    ensures forall x: multiset<nat> :: (a + x) + b == (c + x) + d
  {
    forall x: multiset<nat> ensures (a + x) + b == (c + x) + d {
      assert (a + x) + b == (a + b) + x;
      assert (c + x) + d == (c + d) + x;
    }
  }

  lemma {:induction false} AllHeldUpdate(slots: seq<Slot>, i: nat, t: Slot)
    requires i < |slots|
    ensures AllHeld(slots[i := t]) + Held(slots[i]) == AllHeld(slots) + Held(t)
  {
    hide Held;
    var n := |slots| - 1;
    if i < n {
      AllHeldUpdate(slots[..n], i, t);
      assert slots[i := t][..n] == slots[..n][i := t];
      Swap(AllHeld(slots[..n][i := t]), Held(slots[i]), AllHeld(slots[..n]), Held(t));
    } else {
      assert slots[i := t][..n] == slots[..n];
    }
  }

  /** Every descriptor ever opened is in one field of one slot, or closed once. */
  ghost predicate Owned(s: Server) {
    AllHeld(s.slots) + s.kernel.closed == Between(0, s.kernel.made)
  }

  lemma Rearrange(all: multiset<nat>, all': multiset<nat>, h: multiset<nat>, h': multiset<nat>,
                  c: multiset<nat>, c': multiset<nat>, opened': multiset<nat>, fresh': multiset<nat>)
    requires all' + h == all + h' && h' + c' == h + c + fresh' && all + c == opened'
    ensures all' + c' == opened' + fresh'
  {
    forall x: nat ensures (all' + c')[x] == (opened' + fresh')[x] {
      assert (all' + h)[x] == (all + h')[x];
      assert (h' + c')[x] == (h + c + fresh')[x];
      assert (all + c)[x] == opened'[x];
    }
  }

  lemma OnSlotOwned(s: Server, i: nat, e: Event)
    requires Owned(s) && i < |s.slots| && Idle(s.slots[i])
    ensures Owned(OnSlot(s, i, e))
  {
    var x := State(s.slots[i], s.kernel, s.log);
    var y := Step(x, s.agent, e.op, e.works);
    StepBalanced(x, s.agent, e.op, e.works);
    AllHeldUpdate(s.slots, i, y.slot);
    BetweenJoin(0, s.kernel.made, y.kernel.made);
    hide Step, Held, Between, AllHeld;
    Rearrange(AllHeld(s.slots), AllHeld(s.slots[i := y.slot]), Held(s.slots[i]), Held(y.slot),
              s.kernel.closed, y.kernel.closed, Between(0, s.kernel.made), Between(s.kernel.made, y.kernel.made));
  }

  // --------------------------------------------------------------- the invariant

  /** The descriptions that slots have made nonblocking. */
  function AllLoose(received: map<nat, nat>, slots: seq<Slot>): set<nat> {
    if slots == [] then {} else AllLoose(received, slots[..|slots| - 1]) + Loose(received, slots[|slots| - 1])
  }

  lemma {:induction false} AllLooseUpdate(r: map<nat, nat>, slots: seq<Slot>, i: nat, t: Slot)
    requires i < |slots|
    ensures AllLoose(r, slots[i := t]) == AllLoose(r, slots[i := EMPTY]) + Loose(r, t)
  {
    var n := |slots| - 1;
    assert Loose(r, EMPTY) == {};
    hide Loose;
    if i < n {
      AllLooseUpdate(r, slots[..n], i, t);
      assert slots[i := t][..n] == slots[..n][i := t];
      assert slots[i := EMPTY][..n] == slots[..n][i := EMPTY];
    } else {
      assert slots[i := t][..n] == slots[..n] && slots[i := EMPTY][..n] == slots[..n];
    }
  }

  lemma {:induction false} LooseIn(r: map<nat, nat>, slots: seq<Slot>, j: nat)
    requires j < |slots|
    ensures Loose(r, slots[j]) <= AllLoose(r, slots)
  {
    hide Loose;
    var n := |slots| - 1;
    if j < n {
      LooseIn(r, slots[..n], j);
    }
  }

  /** New descriptions behind new sockets are nothing to the slots there are. */
  lemma {:induction false} LooseLater(a: map<nat, nat>, b: map<nat, nat>, slots: seq<Slot>)
    requires Grows(a, b) && Sockets(slots, a)
    ensures AllLoose(a, slots) == AllLoose(b, slots)
  {
    if slots != [] {
      var n := |slots| - 1;
      LooseLater(a, b, slots[..n]);
      assert Socketed(slots[n], a);
      assert Loose(a, slots[n]) == Loose(b, slots[n]);
    }
  }

  ghost predicate Sockets(slots: seq<Slot>, r: map<nat, nat>) {
    forall i :: 0 <= i < |slots| ==> Socketed(slots[i], r)
  }

  ghost predicate Socketed(s: Slot, r: map<nat, nat>) { (s.socket >= 0 ==> s.socket in r) && (s.changed ==> s.socket >= 0) }

  ghost predicate Slots(slots: seq<Slot>, agent: bool) { forall i :: 0 <= i < |slots| ==> SlotInv(slots[i], agent) }

  /** No description has been made nonblocking by two slots. */
  ghost predicate OneUser(slots: seq<Slot>, r: map<nat, nat>) {
    forall i :: 0 <= i < |slots| ==> Loose(r, slots[i]) !! AllLoose(r, slots[i := EMPTY])
  }

  ghost predicate Inv(s: Server) {
    && |s.slots| == MAX_CLIENTS && Owned(s) && Slots(s.slots, s.agent) && Sockets(s.slots, s.kernel.received)
    && OneUser(s.slots, s.kernel.received) && Flags(s.kernel, AllLoose(s.kernel.received, s.slots))
    && (s.agent ==> Authorized(s.log))
  }

  lemma OnSlotOwnSocket(s: Server, i: nat)
    requires Inv(s) && i < |s.slots|
    ensures OwnSocket(State(s.slots[i], s.kernel, s.log), AllLoose(s.kernel.received, s.slots[i := EMPTY]))
  {
    hide Owned, Slots, Authorized, Flags, AllLoose, Loose;
    AllLooseUpdate(s.kernel.received, s.slots, i, s.slots[i]);
    assert s.slots[i := s.slots[i]] == s.slots;
    assert Socketed(s.slots[i], s.kernel.received);
  }

  lemma SlotsUpdate(s: Server, i: nat, t: Slot, r: map<nat, nat>)
    requires Slots(s.slots, s.agent) && Sockets(s.slots, s.kernel.received) && i < |s.slots| && SlotInv(t, s.agent)
    requires Grows(s.kernel.received, r) && Socketed(t, r)
    ensures Slots(s.slots[i := t], s.agent) && Sockets(s.slots[i := t], r)
  {
    hide SlotInv;
    var next := s.slots[i := t];
    forall j | 0 <= j < |next| ensures Socketed(next[j], r) {
      assert Socketed(s.slots[j], s.kernel.received);
    }
  }

  lemma SocketsIn(slots: seq<Slot>, r: map<nat, nat>, i: nat)
    requires Sockets(slots, r) && i < |slots|
    ensures Sockets(slots[i := EMPTY], r)
  {}

  /** A slot that takes a description nobody has keeps each with one user. */
  lemma OneUserUpdate(slots: seq<Slot>, r: map<nat, nat>, i: nat, t: Slot)
    requires OneUser(slots, r) && i < |slots| && Loose(r, t) !! AllLoose(r, slots[i := EMPTY])
    ensures OneUser(slots[i := t], r)
  {
    hide Loose, AllLoose, OneUser;
    var next := slots[i := t];
    forall j | 0 <= j < |next| ensures Loose(r, next[j]) !! AllLoose(r, next[j := EMPTY]) {
      if j == i {
        assert next[j := EMPTY] == slots[i := EMPTY];
      } else {
        UserApart(slots, r, i, t, j);
      }
    }
    OneUserOf(next, r);
  }

  lemma OneUserOf(slots: seq<Slot>, r: map<nat, nat>)
    requires forall i :: 0 <= i < |slots| ==> Loose(r, slots[i]) !! AllLoose(r, slots[i := EMPTY])
    ensures OneUser(slots, r)
  {}

  lemma UserApart(slots: seq<Slot>, r: map<nat, nat>, i: nat, t: Slot, j: nat)
    requires OneUser(slots, r) && i < |slots| && j < |slots| && i != j && Loose(r, t) !! AllLoose(r, slots[i := EMPTY])
    ensures Loose(r, slots[i := t][j]) !! AllLoose(r, slots[i := t][j := EMPTY])
  {
    assert Loose(r, slots[j]) !! AllLoose(r, slots[j := EMPTY]);
    hide Loose, AllLoose, OneUser;
    var rest := slots[j := EMPTY];
    assert slots[i := t][j := EMPTY] == rest[i := t];
    AllLooseUpdate(r, rest, i, t);
    AllLooseUpdate(r, rest, i, slots[i]);
    assert rest[i := slots[i]] == rest;
    LooseIn(r, slots[i := EMPTY], j);
  }

  lemma OneUserLater(slots: seq<Slot>, a: map<nat, nat>, b: map<nat, nat>)
    requires OneUser(slots, a) && Grows(a, b) && Sockets(slots, a)
    ensures OneUser(slots, b)
  {
    forall i | 0 <= i < |slots| ensures Loose(b, slots[i]) !! AllLoose(b, slots[i := EMPTY]) {
      SocketsIn(slots, a, i);
      LooseLater(a, b, slots[i := EMPTY]);
      assert Socketed(slots[i], a);
      assert Loose(a, slots[i]) == Loose(b, slots[i]);
    }
  }

  /** Everything a step says about its slot. */
  lemma StepFacts(x: State, agent: bool, op: Op, works: bool, others: set<nat>)
    requires SlotInv(x.slot, agent) && OwnSocket(x, others)
    ensures var y := Step(x, agent, op, works); Proceeds(x, y, agent) && OwnSocket(y, others) && Grows(x.kernel.received, y.kernel.received)
  {
    hide Step, Flags, Authorized;
    StepSlot(x, agent, op, works);
    StepFlags(x, agent, op, works, others);
  }

  lemma OnSlotKeeps(s: Server, i: nat, e: Event)
    requires Inv(s) && i < |s.slots|
    ensures Inv(OnSlot(s, i, e))
  {
    var x, r := State(s.slots[i], s.kernel, s.log), s.kernel.received;
    var y := Step(x, s.agent, e.op, e.works);
    assert SlotInv(x.slot, s.agent);
    OnSlotOwnSocket(s, i);
    SocketsIn(s.slots, r, i);
    hide Step, SlotInv, Owned, Flags, Authorized, AllLoose, Slots, Sockets, Loose, OneUser, Grows;
    var others := AllLoose(r, s.slots[i := EMPTY]);
    StepFacts(x, s.agent, e.op, e.works, others);
    LooseLater(r, y.kernel.received, s.slots[i := EMPTY]);
    AllLooseUpdate(y.kernel.received, s.slots, i, y.slot);
    OneUserLater(s.slots, r, y.kernel.received);
    OneUserUpdate(s.slots, y.kernel.received, i, y.slot);
    SlotsUpdate(s, i, y.slot, y.kernel.received);
    OnSlotOwnedSlot(s, i, e);
  }

  lemma OnSlotOwnedSlot(s: Server, i: nat, e: Event)
    requires Owned(s) && i < |s.slots| && SlotInv(s.slots[i], s.agent)
    ensures Owned(OnSlot(s, i, e))
  {
    hide Owned, OnSlot;
    OnSlotOwned(s, i, e);
  }

  lemma AdmitKeeps(s: Server, a: Arrival)
    requires Inv(s)
    ensures Inv(Admit(s, a))
  {
    hide Flags, Owned, AllLoose, SlotInv, Loose, OneUser, Sockets, Slots, Authorized, FreeSlot;
    var k, i, r := Opens(s.kernel), FreeSlot(s.slots, 0), s.kernel.received;
    OpensFlags(s.kernel, AllLoose(r, s.slots));
    ClosesFlags(k, s.kernel.made, AllLoose(r, s.slots));
    AdmitOwned(s, a);
    if i < |s.slots| && a.usable {
      var t := Admit(s, a).slots[i];
      AdmitLoose(s, a);
      AllLooseUpdate(r, s.slots, i, t);
      AllLooseUpdate(r, s.slots, i, s.slots[i]);
      assert s.slots[i := s.slots[i]] == s.slots;
      SlotsUpdate(s, i, t, r);
      OneUserUpdate(s.slots, r, i, t);
    }
  }

  lemma AdmitLoose(s: Server, a: Arrival)
    requires Slots(s.slots, s.agent) && FreeSlot(s.slots, 0) < |s.slots| && a.usable
    ensures var i := FreeSlot(s.slots, 0);
      var t := Admit(s, a).slots[i];
      && SlotInv(t, s.agent) && Socketed(t, s.kernel.received)
      && Loose(s.kernel.received, t) == {} && Loose(s.kernel.received, s.slots[i]) == {}
  {
    assert SlotInv(s.slots[FreeSlot(s.slots, 0)], s.agent);
  }

  lemma AdmitOwned(s: Server, a: Arrival)
    requires Owned(s) && Slots(s.slots, s.agent)
    ensures Owned(Admit(s, a))
  {
    hide AllHeld, Between, Held;
    var i, made := FreeSlot(s.slots, 0), s.kernel.made;
    BetweenStep(0, made + 1);
    if i < |s.slots| && a.usable {
      assert SlotInv(s.slots[i], s.agent);
      hide FreeSlot, Slots, SlotInv;
      var t := EMPTY.(control := made, pid := a.pid, birth := a.birth, deadline := a.now + DEADLINE_MS);
      AllHeldUpdate(s.slots, i, t);
      NewHeld(s.slots[i], t, made);
      AddOne(AllHeld(s.slots), AllHeld(s.slots[i := t]), s.kernel.closed, Between(0, made), made);
    } else {
      Associate(AllHeld(s.slots), s.kernel.closed, multiset{made});
    }
  }

  lemma AddOne(all: multiset<nat>, all': multiset<nat>, closed: multiset<nat>, bound: multiset<nat>, fd: nat)
    requires all' + multiset{} == all + multiset{fd} && all + closed == bound
    ensures all' + closed == bound + multiset{fd}
  {
    assert all' == all + multiset{fd};
  }

  lemma NewHeld(s: Slot, t: Slot, fd: nat)
    requires s == EMPTY && t == EMPTY.(control := fd, pid := t.pid, birth := t.birth, deadline := t.deadline)
    ensures Held(s) == multiset{} && Held(t) == multiset{fd}
  {}

  lemma {:induction false} AdmitAllKeeps(s: Server, arrivals: seq<Arrival>)
    requires Inv(s)
    ensures Inv(AdmitAll(s, arrivals)) && AdmitAll(s, arrivals).agent == s.agent
  {
    hide Inv;
    if arrivals != [] {
      AdmitAllKeeps(s, arrivals[..|arrivals| - 1]);
      AdmitKeeps(AdmitAll(s, arrivals[..|arrivals| - 1]), arrivals[|arrivals| - 1]);
    }
  }

  lemma {:induction false} EventsKeep(s: Server, i: nat, es: seq<Event>)
    requires Inv(s) && i < |s.slots|
    ensures Inv(Events(s, i, es))
  {
    hide Inv, OnSlot;
    if es != [] {
      EventsKeep(s, i, es[..|es| - 1]);
      OnSlotKeeps(Events(s, i, es[..|es| - 1]), i, es[|es| - 1]);
    }
  }

  lemma {:induction false} VisitAllKeeps(s: Server, n: nat, visits: seq<Visit>, now: int)
    requires Inv(s) && n <= |s.slots| && n <= |visits|
    ensures Inv(VisitAll(s, n, visits, now))
  {
    hide Inv, OnSlot, Events;
    if n > 0 {
      VisitAllKeeps(s, n - 1, visits, now);
      var t := VisitAll(s, n - 1, visits, now);
      OnSlotKeeps(t, n - 1, Event(Cancel, visits[n - 1].works));
      EventsKeep(t, n - 1, visits[n - 1].events);
    }
  }

  lemma {:induction false} RunKeeps(agent: bool, turns: seq<Turn>)
    ensures Inv(Run(agent, turns)) && Run(agent, turns).agent == agent
  {
    if turns == [] {
      InitInv(agent);
    } else {
      hide Inv;
      var s, t := Run(agent, turns[..|turns| - 1]), turns[|turns| - 1];
      RunKeeps(agent, turns[..|turns| - 1]);
      AdmitAllKeeps(s, t.arrivals);
      var a := AdmitAll(s, t.arrivals);
      if |t.visits| >= |a.slots| {
        VisitAllKeeps(a, |a.slots|, t.visits, t.now);
      }
    }
  }

  lemma {:induction false} EmptySlots(slots: seq<Slot>, r: map<nat, nat>)
    requires forall i :: 0 <= i < |slots| ==> slots[i] == EMPTY
    ensures AllHeld(slots) == multiset{} && AllLoose(r, slots) == {}
  {
    if slots != [] {
      EmptySlots(slots[..|slots| - 1], r);
    }
  }

  lemma InitInv(agent: bool)
    ensures Inv(Init(agent))
  {
    EmptySlots(Init(agent).slots, map[]);
    BetweenStep(0, 0);
    hide AllLoose, AllHeld;
    forall i | 0 <= i < MAX_CLIENTS ensures Loose(map[], Init(agent).slots[i]) == {} {}
  }

  // ------------------------------------------------------------------ the claims

  /** With an agent configured, every socket operation was performed for a peer
      acknowledged in the same slot, after the broker itself. */
  lemma ExecutionsAreAuthorized(turns: seq<Turn>, i: nat)
    requires i < |Run(true, turns).log|
    ensures var e := Run(true, turns).log[i]; e.acks == [BrokerAck, PeerAck(e.pid, e.birth)]
  {
    RunKeeps(true, turns);
    hide Run;
  }

  /** Each descriptor is in one field of one slot and not closed, or in none and
      closed exactly once. */
  lemma DescriptorsHaveOneOwner(agent: bool, turns: seq<Turn>, fd: nat)
    ensures var s := Run(agent, turns);
      AllHeld(s.slots)[fd] + s.kernel.closed[fd] == if fd < s.kernel.made then 1 else 0
  {
    RunKeeps(agent, turns);
    var s := Run(agent, turns);
    hide Run;
    BetweenExact(s.kernel.made, fd);
    assert (AllHeld(s.slots) + s.kernel.closed)[fd] == AllHeld(s.slots)[fd] + s.kernel.closed[fd];
  }

  lemma {:induction false} BetweenExact(n: nat, fd: nat)
    ensures Between(0, n)[fd] == if fd < n then 1 else 0
  {
    if n > 0 {
      BetweenExact(n - 1, fd);
    }
  }

  /** The flag of a description, in every run: at most one slot has changed it;
      while none has, it is as its first copy came if and only if no call that
      should have restored it failed. */
  lemma FlagsAreRestored(agent: bool, turns: seq<Turn>, d: nat)
    requires d < |Run(agent, turns).kernel.blocking|
    ensures var s := Run(agent, turns);
      && (forall i, j :: 0 <= i < j < |s.slots| && d in Loose(s.kernel.received, s.slots[i]) ==> d !in Loose(s.kernel.received, s.slots[j]))
      && |s.kernel.home| == |s.kernel.blocking|
      && (d !in AllLoose(s.kernel.received, s.slots) ==> (s.kernel.blocking[d] == s.kernel.home[d] <==> d !in s.kernel.stuck))
  {
    RunKeeps(agent, turns);
    var s := Run(agent, turns);
    hide Run, Owned, Slots, Sockets, Authorized, Loose, AllLoose;
    assert FlagAt(s.kernel, AllLoose(s.kernel.received, s.slots), d);
    forall i, j | 0 <= i < j < |s.slots| && d in Loose(s.kernel.received, s.slots[i]) ensures d !in Loose(s.kernel.received, s.slots[j]) {
      LooseIn(s.kernel.received, s.slots[i := EMPTY], j);
    }
  }

  /** A request that could wait: a connect or accept that passed every check, has
      nothing yet, and does not ask to be told so. */
  predicate MayWait(a: Answer) {
    a.valid && a.flags && a.waits && !a.gives && !a.success && (a.kind == Accept || a.kind == Connect)
  }

  /** The event that makes a slot perform its request: with an agent the
      acknowledgement of the peer, without one the last byte. */
  predicate Performs(x: State, agent: bool, op: Op) {
    && x.slot.control >= 0
    && if agent then op.Progress? && op.accepted && x.slot.phase == Authorizing && !x.slot.authorizingBroker && x.slot.authorization >= 0
       else op.Receive? && x.slot.phase == Receiving && op.last && !op.eof && !TakeItems(x, op.items, !op.intact).invalid
  }

  /** It performs the request on the socket it has then. */
  predicate Executes(x: State, agent: bool, op: Op) {
    Performs(x, agent, op) && Performing(x, op).slot.socket >= 0
  }

  /** The slot as it performs the request. */
  function Performing(x: State, op: Op): State
    requires op.Receive? || op.Progress?
  {
    if op.Progress? then Acknowledged(x) else TakeItems(x, op.items, !op.intact).x
  }

  /** When a blocking call must not wait. In every run, with an agent or without, a
      connect or accept that would wait, on a socket that came blocking, is
      answered at once if and only if another slot is using a copy of that socket
      nonblockingly or a call that should have restored its flag failed. */
  lemma BlockingCallIsRefusedExactly(agent: bool, turns: seq<Turn>, i: nat, op: Op, works: bool)
    requires var s := Run(agent, turns); i < |s.slots| && Executes(State(s.slots[i], s.kernel, s.log), agent, op) && MayWait(op.answer)
    ensures var s := Run(agent, turns);
      var x := State(s.slots[i], s.kernel, s.log);
      var k, socket := Performing(x, op).kernel, Performing(x, op).slot.socket;
      && socket in k.received && k.received[socket] < |k.home|
      && (k.home[k.received[socket]] ==>
            (Step(x, agent, op, works).slot.phase == Sending <==>
               k.received[socket] in AllLoose(k.received, s.slots[i := EMPTY]) || k.received[socket] in k.stuck))
  {
    RunKeeps(agent, turns);
    hide Run;
    RefusedExactly(Run(agent, turns), i, op, works);
  }

  /** Once a call waits it goes on waiting: an accept that is tried again and still
      has nothing is not answered. */
  lemma WaitingCallGoesOn(agent: bool, turns: seq<Turn>, i: nat, a: Answer, works: bool)
    requires i < |Run(agent, turns).slots| && Run(agent, turns).slots[i].control >= 0
    requires Run(agent, turns).slots[i].phase == Accepting && a.waits && !a.gives
    ensures var s := Run(agent, turns); Step(State(s.slots[i], s.kernel, s.log), agent, Ready(a), works).slot == s.slots[i]
  {
    RunKeeps(agent, turns);
    hide Run;
    assert SlotInv(Run(agent, turns).slots[i], agent);
  }

  /** What a slot brings to its request: a socket of its own and no changed flag. */
  lemma PerformingFacts(x: State, agent: bool, op: Op, others: set<nat>)
    requires Performs(x, agent, op) && SlotInv(x.slot, agent) && OwnSocket(x, others)
    ensures var y := Performing(x, op);
      OwnSocket(y, others) && !y.slot.changed && Grows(x.kernel.received, y.kernel.received)
  {
    hide OwnSocket, TakeItems;
    if op.Progress? {
      AckFlags(x, others);
    } else {
      ItemsFlags(x, op.items, !op.intact, others);
      ItemsSlot(x, op.items, !op.intact);
    }
  }

  lemma StepExecutes(x: State, agent: bool, op: Op, works: bool)
    requires Performs(x, agent, op)
    ensures Step(x, agent, op, works) == Execute(Performing(x, op), op.answer, works)
  {
    hide Execute, Register, Reply, Release, TakeItems, Acknowledged;
  }

  /** The flag found is nonblocking exactly if others use it or it is stuck. */
  lemma FoundFlag(y: State, others: set<nat>)
    requires OwnSocket(y, others) && !y.slot.changed && y.slot.socket >= 0
    ensures var k := y.kernel;
      && y.slot.socket in k.received && k.received[y.slot.socket] < |k.blocking| == |k.home|
      && var d := k.received[y.slot.socket]; k.home[d] ==> (!k.blocking[d] <==> d in others || d in k.stuck)
  {
    assert others + Loose(y.kernel.received, y.slot) == others;
    assert FlagAt(y.kernel, others, y.kernel.received[y.slot.socket]);
  }

  lemma RefusedExactly(s: Server, i: nat, op: Op, works: bool)
    requires Inv(s) && i < |s.slots| && Executes(State(s.slots[i], s.kernel, s.log), s.agent, op) && MayWait(op.answer)
    ensures var x := State(s.slots[i], s.kernel, s.log);
      var k, socket := Performing(x, op).kernel, Performing(x, op).slot.socket;
      && socket in k.received && k.received[socket] < |k.home|
      && (k.home[k.received[socket]] ==>
            (Step(x, s.agent, op, works).slot.phase == Sending <==>
               k.received[socket] in AllLoose(k.received, s.slots[i := EMPTY]) || k.received[socket] in k.stuck))
  {
    var x, r := State(s.slots[i], s.kernel, s.log), s.kernel.received;
    assert SlotInv(x.slot, s.agent);
    OnSlotOwnSocket(s, i);
    SocketsIn(s.slots, r, i);
    var y, others := Performing(x, op), AllLoose(r, s.slots[i := EMPTY]);
    hide Inv, AllLoose, OwnSocket, Performing, Execute, Step, SlotInv, Grows, Sockets;
    PerformingFacts(x, s.agent, op, others);
    StepExecutes(x, s.agent, op, works);
    LooseLater(r, y.kernel.received, s.slots[i := EMPTY]);
    FoundFlag(y, others);
    WaitsExactly(y, op.answer, works);
  }

  /** Events keep a slot's deadline or free it. */
  lemma {:induction false} EventsDeadline(s: Server, i: nat, es: seq<Event>, j: nat)
    requires Slots(s.slots, s.agent) && i < |s.slots| && j < |s.slots|
    ensures var t := Events(s, i, es);
      Slots(t.slots, s.agent) && (j != i ==> t.slots[j] == s.slots[j]) && Keeps(s.slots[i], t.slots[i])
  {
    hide Step;
    if es != [] {
      EventsDeadline(s, i, es[..|es| - 1], j);
      var t, e := Events(s, i, es[..|es| - 1]), es[|es| - 1];
      StepSlot(State(t.slots[i], t.kernel, t.log), t.agent, e.op, e.works);
      hide SlotInv;
    }
  }

  lemma {:induction false} VisitedInTime(s: Server, n: nat, visits: seq<Visit>, now: int, j: nat)
    requires Slots(s.slots, s.agent) && n <= |s.slots| && n <= |visits| && j < |s.slots|
    ensures var t := VisitAll(s, n, visits, now);
      Slots(t.slots, s.agent) && (j >= n ==> t.slots[j] == s.slots[j]) && (j < n ==> t.slots[j].control < 0 || now < t.slots[j].deadline)
  {
    if n > 0 {
      VisitedInTime(s, n - 1, visits, now, j);
      var t := VisitAll(s, n - 1, visits, now);
      hide VisitAll, Step;
      VisitInTime(t, n - 1, visits[n - 1], now, j);
    }
  }

  lemma VisitInTime(s: Server, i: nat, v: Visit, now: int, j: nat)
    requires Slots(s.slots, s.agent) && i < |s.slots| && j < |s.slots|
    ensures var t := VisitSlot(s, i, v, now);
      Slots(t.slots, s.agent) && (j != i ==> t.slots[j] == s.slots[j]) && (t.slots[i].control < 0 || now < t.slots[i].deadline)
  {
    hide Step, Events;
    if now >= s.slots[i].deadline || !v.alive {
      StepSlot(State(s.slots[i], s.kernel, s.log), s.agent, Cancel, v.works);
      CancelFrees(State(s.slots[i], s.kernel, s.log), s.agent, v.works);
      hide SlotInv;
    } else {
      EventsDeadline(s, i, v.events, j);
    }
  }

  lemma CancelFrees(x: State, agent: bool, works: bool)
    requires SlotInv(x.slot, agent)
    ensures Step(x, agent, Cancel, works).slot.control < 0
  {}

  /** No slot survives the first turn of the loop after its deadline. */
  lemma NoSlotOutlivesItsDeadline(agent: bool, turns: seq<Turn>, j: nat)
    requires turns != [] && j < MAX_CLIENTS && |turns[|turns| - 1].visits| >= MAX_CLIENTS
    ensures var s, now := Run(agent, turns), turns[|turns| - 1].now;
      |s.slots| == MAX_CLIENTS && (s.slots[j].control < 0 || now < s.slots[j].deadline)
  {
    var s, t := Run(agent, turns[..|turns| - 1]), turns[|turns| - 1];
    RunKeeps(agent, turns[..|turns| - 1]);
    AdmitAllKeeps(s, t.arrivals);
    var a := AdmitAll(s, t.arrivals);
    hide AdmitAll, VisitAll, Owned, Sockets, Flags, Authorized, SlotInv;
    VisitedInTime(a, |a.slots|, t.visits, t.now, j);
  }

  /** Stopping releases every slot, after which every descriptor is closed. */
  function Shutdown(s: Server, n: nat): (t: Server)
    requires n <= |s.slots|
    ensures |t.slots| == |s.slots|
  {
    if n == 0 then s else OnSlot(Shutdown(s, n - 1), n - 1, Event(Cancel, true))
  }

  lemma {:induction false} ShutdownFrees(s: Server, n: nat)
    requires Inv(s) && n <= |s.slots|
    ensures var t := Shutdown(s, n);
      Inv(t) && t.kernel.made == s.kernel.made && forall i :: 0 <= i < n ==> t.slots[i] == EMPTY
  {
    hide Owned, Sockets, Flags, Authorized, Step, SlotInv;
    if n > 0 {
      ShutdownFrees(s, n - 1);
      var t := Shutdown(s, n - 1);
      OnSlotKeeps(t, n - 1, Event(Cancel, true));
      CancelEmpties(State(t.slots[n - 1], t.kernel, t.log), t.agent);
    }
  }

  lemma CancelEmpties(x: State, agent: bool)
    requires SlotInv(x.slot, agent)
    ensures var y := Step(x, agent, Cancel, true); y.slot == EMPTY && y.kernel.made == x.kernel.made
  {}

  lemma ShutdownClosesEverything(agent: bool, turns: seq<Turn>, fd: nat)
    ensures var s := Run(agent, turns);
      |s.slots| == MAX_CLIENTS && (fd < s.kernel.made ==> Shutdown(s, MAX_CLIENTS).kernel.closed[fd] == 1)
  {
    RunKeeps(agent, turns);
    var s := Run(agent, turns);
    hide Run;
    ShutdownFrees(s, MAX_CLIENTS);
    var t := Shutdown(s, MAX_CLIENTS);
    EmptySlots(t.slots, t.kernel.received);
    BetweenExact(t.kernel.made, fd);
  }
}
