/** Two short runs of the network broker: a flag that stays changed, and a blocking
    accept that is refused. */
module BrokerCases {
  import opened NetworkBroker
  import opened BrokerLoop

  const WAITING := Answer(true, Accept, true, false, true, false, false)
  const GIVING := Answer(true, Accept, true, true, false, true, true)

  /** A complete request to accept, on a socket of description `of`. */
  function Asks(of: int): Event { Event(Receive([Right(of, true, true)], true, false, true, false, WAITING), true) }

  function Visits(first: seq<Event>, second: seq<Event>): seq<Visit> {
    seq(MAX_CLIENTS, k requires k >= 0 => Visit(true, true, if k == 0 then first else if k == 1 then second else []))
  }

  lemma RunPush(agent: bool, turns: seq<Turn>, t: Turn)
    ensures Run(agent, turns + [t]) == OneTurn(Run(agent, turns), t)
  {
    assert (turns + [t])[..|turns|] == turns;
  }

  lemma {:induction false} FreeStays(s: Server, i: nat, es: seq<Event>)
    requires i < |s.slots| && s.slots[i].control < 0
    ensures Events(s, i, es) == s
  {
    if es != [] {
      FreeStays(s, i, es[..|es| - 1]);
      assert s.slots[i := s.slots[i]] == s.slots;
    }
  }

  /** Visits to free slots change nothing. */
  lemma {:induction false} RestStays(s: Server, m: nat, n: nat, visits: seq<Visit>, now: int)
    requires m <= n <= |s.slots| && n <= |visits|
    requires forall j :: m <= j < n ==> VisitAll(s, m, visits, now).slots[j].control < 0
    ensures VisitAll(s, n, visits, now) == VisitAll(s, m, visits, now)
  {
    if m < n {
      RestStays(s, m, n - 1, visits, now);
      var t := VisitAll(s, n - 1, visits, now);
      hide VisitAll;
      FreeStays(t, n - 1, visits[n - 1].events);
      FreeStays(t, n - 1, [Event(Cancel, visits[n - 1].works)]);
      assert [Event(Cancel, visits[n - 1].works)][..0] == [];
      assert t.slots[n - 1 := t.slots[n - 1]] == t.slots;
    }
  }

  lemma OneEvent(s: Server, i: nat, e: Event)
    requires i < |s.slots|
    ensures Events(s, i, [e]) == OnSlot(s, i, e)
  {
    assert [e][..0] == [];
  }

  lemma OneItem(x: State, item: Item)
    ensures TakeItems(x, [item], false) == TakeItem(Taken(x, false), item)
  {
    assert [item][..0] == [];
    assert TakeItems(x, [], false) == Taken(x, false);
  }

  // ------------------------------------------------------------- a waiting accept

  const ADMITTED := EMPTY.(control := 0, pid := 10, birth := 1, deadline := 8000)
  const WAITER := ADMITTED.(socket := 1, changed := true, phase := Accepting)
  const SHARED := Kernel(2, multiset{}, map[1 := 0], [false], [true], {})

  lemma Waits(k: Kernel)
    requires k == Kernel(1, multiset{}, map[], [], [], {})
    ensures Step(State(ADMITTED, k, []), false, Asks(-1).op, true) == State(WAITER, SHARED, [Execution(10, 1, [])])
  {
    var x := State(ADMITTED, k, []);
    var y := TakeItems(x, [Right(-1, true, true)], false).x;
    OneItem(x, Right(-1, true, true));
    assert k.blocking + [true] == [true] && k.home + [true] == [true];
    var t := ADMITTED.(socket := 1);
    assert y == State(t, Kernel(2, multiset{}, map[1 := 0], [true], [true], {}), []);
    assert [] + [Execution(10, 1, [])] == [Execution(10, 1, [])];
    assert [true][0 := false] == [false];
    var z := BeginNonblocking(Logged(y));
    assert z == State(t.(changed := true), SHARED, [Execution(10, 1, [])]);
  }

  function Busy(): Server { Init(false).(slots := Init(false).slots[0 := WAITER], kernel := SHARED, log := [Execution(10, 1, [])]) }

  /** One peer has a blocking accept under way. */
  lemma FirstTurn(t: Turn)
    requires t == Turn([Arrival(10, 1, true, 0)], 0, Visits([Asks(-1)], []))
    ensures Run(false, [t]) == Busy()
  {
    RunPush(false, [], t);
    assert [] + [t] == [t] && Run(false, []) == Init(false);
    var s := Init(false);
    var a := AdmitAll(s, t.arrivals);
    assert t.arrivals[..0] == [] && FreeSlot(s.slots, 0) == 0;
    assert a == s.(slots := s.slots[0 := ADMITTED], kernel := Kernel(1, multiset{}, map[], [], [], {}));
    Waits(a.kernel);
    OneEvent(a, 0, Asks(-1));
    hide Run, AdmitAll, Step, Events;
    assert VisitAll(a, 1, t.visits, 0) == VisitSlot(a, 0, t.visits[0], 0);
    assert a.slots[0 := WAITER] == Busy().slots;
    RestStays(a, 1, MAX_CLIENTS, t.visits, 0);
  }

  // ------------------------------------------------------------------ a failed call

  lemma GivesUp()
    ensures Step(State(WAITER, SHARED, [Execution(10, 1, [])]), false, Ready(GIVING), false) ==
      State(ADMITTED.(socket := 1, phase := Sending), SHARED.(made := 3, closed := multiset{2}, stuck := {0}),
            [Execution(10, 1, []), Execution(10, 1, [])])
  {
    assert [Execution(10, 1, [])] + [Execution(10, 1, [])] == [Execution(10, 1, []), Execution(10, 1, [])];
    assert multiset{} + multiset{2} == multiset{2} && {} + {0} == {0};
  }

  lemma SendsAndCloses(x: State)
    requires x.slot == ADMITTED.(socket := 1, phase := Sending)
    ensures Step(x, false, Send(false, true), true) ==
      State(EMPTY, x.kernel.(closed := x.kernel.closed + multiset{1} + multiset{0}), x.log)
  {}

  /** A turn without arrivals in which only the first slot is occupied. */
  lemma OnlyFirst(s: Server, u: Turn, e: Server)
    requires u.arrivals == [] && |s.slots| == MAX_CLIENTS == |u.visits| && u.visits[0].alive && u.now < s.slots[0].deadline
    requires e == Events(s, 0, u.visits[0].events) && forall j :: 1 <= j < MAX_CLIENTS ==> e.slots[j].control < 0
    ensures OneTurn(s, u) == e
  {
    hide Events;
    assert AdmitAll(s, u.arrivals) == s;
    assert VisitAll(s, 1, u.visits, u.now) == VisitSlot(s, 0, u.visits[0], u.now) == e;
    hide VisitAll;
    RestStays(s, 1, MAX_CLIENTS, u.visits, u.now);
  }

  lemma TwoEvents(s: Server, es: seq<Event>)
    requires s == Busy() && es == [Event(Ready(GIVING), false), Event(Send(false, true), true)]
    ensures var e := Events(s, 0, es);
      && e.slots == Init(false).slots && e.kernel == SHARED.(made := 3, closed := multiset{0, 1, 2}, stuck := {0})
  {
    GivesUp();
    assert es[..1] == [es[0]];
    OneEvent(s, 0, es[0]);
    hide Step;
    var m := Events(s, 0, es[..1]);
    assert m.slots[0] == ADMITTED.(socket := 1, phase := Sending);
    SendsAndCloses(State(m.slots[0], m.kernel, m.log));
    assert Events(s, 0, es) == OnSlot(m, 0, es[1]);
    assert s.slots[0 := m.slots[0]][0 := EMPTY] == Init(false).slots;
    assert multiset{2} + multiset{1} + multiset{0} == multiset{0, 1, 2};
  }

  /** The reply that fails to restore a flag gives it up: after the slot is
      released, with every later call succeeding, the socket's description is
      still nonblocking though it came blocking. */
  lemma FailedRestoreStays(t: Turn, u: Turn)
    requires t == Turn([Arrival(10, 1, true, 0)], 0, Visits([Asks(-1)], []))
    requires u == Turn([], 1, Visits([Event(Ready(GIVING), false), Event(Send(false, true), true)], []))
    ensures var s := Run(false, [t] + [u]);
      && s.slots == Init(false).slots && s.kernel.blocking == [false] && s.kernel.home == [true] && s.kernel.stuck == {0}
      && s.kernel.closed == multiset{0, 1, 2}
  {
    FirstTurn(t);
    RunPush(false, [t], u);
    var s, es := Busy(), u.visits[0].events;
    assert s.slots[0].deadline == 8000 && |s.slots| == MAX_CLIENTS;
    hide Run, Events, OneTurn, Busy;
    TwoEvents(s, es);
    OnlyFirst(s, u, Events(s, 0, es));
  }

  // ------------------------------------------------------------------- a second copy

  const SECOND := EMPTY.(control := 2, pid := 11, birth := 1, deadline := 8001)

  lemma Refuses(k: Kernel, log: seq<Execution>)
    requires k == SHARED.(made := 3)
    ensures var y := Step(State(SECOND, k, log), false, Asks(0).op, true);
      y.slot == SECOND.(socket := 3, phase := Sending) && y.kernel == k.(made := 4, received := map[1 := 0, 3 := 0])
  {
    var x := State(SECOND, k, log);
    var y := TakeItems(x, [Right(0, true, true)], false).x;
    OneItem(x, Right(0, true, true));
    assert k.received[3 := 0] == map[1 := 0, 3 := 0];
    assert Describes(Opens(k), 3, 0, true) == k.(made := 4, received := map[1 := 0, 3 := 0]);
    assert y == State(SECOND.(socket := 3), k.(made := 4, received := map[1 := 0, 3 := 0]), log);
    var z := Logged(y);
    assert BeginNonblocking(z) == z;
  }

  lemma SecondAdmitted(s: Server, a: Arrival)
    requires s == Busy() && a == Arrival(11, 1, true, 1)
    ensures var t := AdmitAll(s, [a]);
      t == s.(slots := s.slots[1 := SECOND], kernel := SHARED.(made := 3))
  {
    SecondFree(s.slots);
    hide FreeSlot;
    assert [a][..0] == [];
  }

  lemma SecondServed(a: Server, visits: seq<Visit>)
    requires |a.slots| == MAX_CLIENTS && a.slots[0] == WAITER && a.slots[1] == SECOND && a.kernel == SHARED.(made := 3) && !a.agent
    requires visits == Visits([], [Asks(0)]) && forall j :: 2 <= j < MAX_CLIENTS ==> a.slots[j] == EMPTY
    ensures VisitAll(a, MAX_CLIENTS, visits, 1) == OnSlot(a, 1, Asks(0))
  {
    OneEvent(a, 1, Asks(0));
    assert Events(a, 0, []) == a;
    hide Events, Step;
    assert VisitAll(a, 1, visits, 1) == VisitSlot(a, 0, visits[0], 1) == a;
    var b := VisitAll(a, 2, visits, 1);
    assert b == VisitSlot(a, 1, visits[1], 1) == OnSlot(a, 1, Asks(0));
    hide VisitAll;
    forall j | 2 <= j < MAX_CLIENTS ensures b.slots[j].control < 0 {
      assert b.slots[j] == EMPTY;
    }
    RestStays(a, 2, MAX_CLIENTS, visits, 1);
  }

  /** While one peer waits in accept, another peer's blocking accept on a copy of
      the same listener is answered instead of waiting. */
  lemma SecondAcceptIsRefused(t: Turn, u: Turn)
    requires t == Turn([Arrival(10, 1, true, 0)], 0, Visits([Asks(-1)], []))
    requires u == Turn([Arrival(11, 1, true, 1)], 1, Visits([], [Asks(0)]))
    ensures var s := Run(false, [t] + [u]);
      && |s.slots| == MAX_CLIENTS && s.slots[0] == WAITER && s.slots[1] == SECOND.(socket := 3, phase := Sending)
      && s.kernel.received == map[1 := 0, 3 := 0] && s.kernel.home == [true] && s.kernel.stuck == {}
  {
    FirstTurn(t);
    RunPush(false, [t], u);
    SecondAdmitted(Busy(), u.arrivals[0]);
    assert u.arrivals == [u.arrivals[0]];
    hide Run, AdmitAll;
    var a := AdmitAll(Busy(), u.arrivals);
    SecondServed(a, u.visits);
    Refuses(a.kernel, a.log);
    hide VisitAll, Step;
  }

  lemma SecondFree(slots: seq<Slot>)
    requires |slots| == MAX_CLIENTS && slots[0].control >= 0 && slots[1].control < 0
    ensures FreeSlot(slots, 0) == 1
  {
    assert FreeSlot(slots, 1) == 1;
  }
}
