/** What a peer gets for its request: which verdict the reply carries, which
    descriptor comes back with it, and how a slot comes to its reply. Everything is
    stated of the slots a run of the loop reaches. */
module BrokerAnswers {
  import opened NetworkBroker
  import opened BrokerLoop

  function Client(s: Server, i: nat): State
    requires i < |s.slots|
  {
    State(s.slots[i], s.kernel, s.log)
  }

  /** The slot has its reply, with nothing but the two sockets left to it. */
  predicate Replied(x: State, y: State, success: bool) {
    && y.slot.phase == Sending && y.slot.succeeded == success && !y.slot.changed && y.slot.authorization < 0
    && y.slot.control == x.slot.control && y.slot.socket == x.slot.socket
  }

  /** The descriptor a call gave, numbered `x.kernel.made`, comes back unclosed if
      `success`, and is closed once otherwise. Without one nothing comes back. */
  ghost predicate Delivers(x: State, y: State, gives: bool, success: bool) {
    var fd := x.kernel.made;
    && y.kernel.made == fd + (if gives then 1 else 0)
    && (gives && success ==> y.slot.returned == fd && y.kernel.closed[fd] == 0)
    && (gives && !success ==> y.slot.returned < 0 && y.kernel.closed[fd] == 1)
    && (!gives ==> y.slot.returned < 0)
  }

  /** Whether the description behind the slot's socket blocks just now. */
  predicate Blocks(x: State) {
    var d := Behind(x.kernel.received, x.slot);
    0 <= d < |x.kernel.blocking| && x.kernel.blocking[d]
  }

  /** Nothing is returned yet, and the next descriptor is nobody's. */
  ghost predicate Unused(x: State) {
    x.slot.returned < 0 && x.slot.authorization < x.kernel.made && x.kernel.closed[x.kernel.made] == 0
  }

  // ----------------------------------------------------------------- one reply

  lemma RestoresCloses(k: Kernel, s: Slot, works: bool)
    ensures Restores(k, s, works).closed == k.closed && Restores(k, s, works).made == k.made
  {}

  /** A reply is a success exactly if the call was and no flag had to be restored
      in vain. */
  lemma ReplyOutcome(x: State, success: bool, works: bool)
    requires x.slot.returned < 0
    ensures var y, ok := Reply(x, success, works), success && !(x.slot.socket >= 0 && x.slot.changed && !works);
            Replied(x, y, ok) && y.slot.returned < 0 && y.kernel.made == x.kernel.made && y.log == x.log
  {
    hide Restores;
    RestoresCloses(Closes(x.kernel, x.slot.authorization), x.slot, works);
  }

  lemma GivenOutcome(x: State, configured: bool, works: bool)
    requires Unused(x)
    ensures var y := Reply(x.(slot := x.slot.(returned := x.kernel.made), kernel := Opens(x.kernel)), configured, works);
            var ok := configured && !(x.slot.socket >= 0 && x.slot.changed && !works);
            Replied(x, y, ok) && Delivers(x, y, true, ok) && y.log == x.log
  {
    hide Restores;
    RestoresCloses(Closes(Opens(x.kernel), x.slot.authorization), x.slot.(returned := x.kernel.made), works);
  }

  /** An accept on a socket: it waits, fails, or has a connection to return. */
  lemma AcceptOutcome(x: State, a: Answer, works: bool)
    requires Unused(x) && x.slot.socket >= 0
    ensures var y := AcceptTcp(x, a, works);
            && y.log == x.log
            && if !a.gives && a.waits && x.slot.changed then
                 y == x.(slot := x.slot.(phase := Accepting))
               else
                 var ok := a.gives && a.configured && !(x.slot.changed && !works);
                 Replied(x, y, ok) && Delivers(x, y, a.gives, ok)
  {
    hide Reply;
    GivenOutcome(x, a.configured, works);
    ReplyOutcome(x, false, works);
  }

  // ------------------------------------------------------------------- requests

  /** A request is refused unheard. */
  predicate Refused(z: State, a: Answer) { !a.valid || (a.kind == Make) != (z.slot.socket < 0) }

  /** Whether the call itself came out well. */
  predicate CallSucceeds(a: Answer) {
    match a.kind
    case Make => a.gives && a.configured
    case Plain => a.success
    case Connect => a.flags && a.success
    case Accept => a.flags && a.gives && a.configured
  }

  /** Whether the call is left waiting on a socket that blocks. */
  predicate CallWaits(z: State, a: Answer) {
    a.flags && a.waits && Blocks(z) && ((a.kind == Connect && !a.success) || (a.kind == Accept && !a.gives))
  }

  /** Whether a flag changed for the call could not be changed back. */
  predicate RestoringFails(z: State, a: Answer, works: bool) {
    (a.kind == Connect || a.kind == Accept) && a.flags && Blocks(z) && !works
  }

  predicate GivesDescriptor(a: Answer) { a.gives && (a.kind == Make || (a.kind == Accept && a.flags)) }

  lemma BeginOutcome(z: State)
    requires !z.slot.changed
    ensures var b := BeginNonblocking(z);
            && b.slot == z.slot.(changed := Blocks(z)) && b.log == z.log
            && b.kernel.made == z.kernel.made && b.kernel.closed == z.kernel.closed
  {}

  lemma ConnectOutcome(z: State, a: Answer, works: bool)
    requires Unused(z) && !z.slot.changed && z.slot.socket >= 0 && a.valid && a.kind == Connect
    ensures var y := Execute(z, a, works);
            && y.log == z.log + [Execution(z.slot.pid, z.slot.birth, z.slot.acks)]
            && if CallWaits(z, a) then
                 y.slot == z.slot.(phase := Connecting, changed := true) && y.kernel.made == z.kernel.made
               else
                 var ok := CallSucceeds(a) && !RestoringFails(z, a, works);
                 Replied(z, y, ok) && Delivers(z, y, false, ok)
  {
    hide Reply, BeginNonblocking;
    var l := Logged(z);
    var b := BeginNonblocking(l);
    BeginOutcome(l);
    assert Blocks(l) == Blocks(z);
    ReplyOutcome(l, false, works);
    ReplyOutcome(b, true, works);
    ReplyOutcome(b, false, works);
  }

  lemma AcceptingOutcome(z: State, a: Answer, works: bool)
    requires Unused(z) && !z.slot.changed && z.slot.socket >= 0 && a.valid && a.kind == Accept
    ensures var y := Execute(z, a, works);
            && y.log == z.log + [Execution(z.slot.pid, z.slot.birth, z.slot.acks)]
            && if CallWaits(z, a) then
                 y.slot == z.slot.(phase := Accepting, changed := true) && y.kernel.made == z.kernel.made
               else
                 var ok := CallSucceeds(a) && !RestoringFails(z, a, works);
                 Replied(z, y, ok) && Delivers(z, y, GivesDescriptor(a), ok)
  {
    hide Reply, BeginNonblocking, AcceptTcp;
    var l := Logged(z);
    var b := BeginNonblocking(l);
    BeginOutcome(l);
    assert Blocks(l) == Blocks(z);
    ReplyOutcome(l, false, works);
    AcceptOutcome(b, a, works);
  }

  lemma MakeOutcome(z: State, a: Answer, works: bool)
    requires Unused(z) && !z.slot.changed && z.slot.socket < 0 && a.valid && a.kind == Make
    ensures var y := Execute(z, a, works);
            && y.log == z.log + [Execution(z.slot.pid, z.slot.birth, z.slot.acks)]
            && Replied(z, y, CallSucceeds(a)) && Delivers(z, y, a.gives, CallSucceeds(a))
  {
    hide Reply;
    var l := Logged(z);
    ReplyOutcome(l, false, works);
    GivenOutcome(l, a.configured, works);
  }

  /** The whole of one request. */
  lemma ExecuteOutcome(z: State, a: Answer, works: bool)
    requires Unused(z) && !z.slot.changed
    ensures var y := Execute(z, a, works);
            && y.log == (if Refused(z, a) then z.log else z.log + [Execution(z.slot.pid, z.slot.birth, z.slot.acks)])
            && if Refused(z, a) then
                 Replied(z, y, false) && Delivers(z, y, false, false)
               else if CallWaits(z, a) then
                 && y.slot == z.slot.(phase := (if a.kind == Connect then Connecting else Accepting), changed := true)
                 && y.kernel.made == z.kernel.made
               else
                 var ok := CallSucceeds(a) && !RestoringFails(z, a, works);
                 Replied(z, y, ok) && Delivers(z, y, GivesDescriptor(a), ok)
  {
    hide Reply, AcceptTcp, BeginNonblocking, Replied, Delivers, Unused;
    UnusedReturns(z);
    if Refused(z, a) {
      ReplyOutcome(z, false, works);
      DeliversNothing(z, Reply(z, false, works));
    } else {
      match a.kind {
        case Make => MakeOutcome(z, a, works);
        case Plain =>
          ReplyOutcome(Logged(z), a.success, works);
          RepliedLogged(z, Reply(Logged(z), a.success, works), a.success);
          DeliversNothing(z, Reply(Logged(z), a.success, works));
        case Connect => hide Execute; ConnectOutcome(z, a, works); EitherVerdict(z, Execute(z, a, works));
        case Accept => hide Execute; AcceptingOutcome(z, a, works);
      }
    }
  }

  lemma UnusedReturns(z: State)
    requires Unused(z)
    ensures z.slot.returned < 0
  {}

  lemma DeliversNothing(z: State, y: State)
    requires y.slot.returned < 0 && y.kernel.made == z.kernel.made
    ensures Delivers(z, y, false, false) && Delivers(z, y, false, true)
  {}

  /** Without a descriptor the verdict does not matter. */
  lemma EitherVerdict(z: State, y: State)
    ensures Delivers(z, y, false, true) == Delivers(z, y, false, false)
  {}

  lemma RepliedLogged(z: State, y: State, success: bool)
    requires Replied(Logged(z), y, success)
    ensures Replied(z, y, success)
  {}

  // ----------------------------------------------------------------- over runs

  lemma {:induction false} HeldIn(slots: seq<Slot>, i: nat, fd: nat)
    requires i < |slots|
    ensures Held(slots[i])[fd] <= AllHeld(slots)[fd]
  {
    hide Held;
    var n := |slots| - 1;
    if i < n {
      HeldIn(slots[..n], i, fd);
    }
  }

  lemma HoldsAuthorization(s: Slot)
    ensures s.authorization >= 0 ==> Held(s)[s.authorization] >= 1
  {}

  ghost predicate NothingClosedFrom(k: Kernel, fd: nat) {
    forall c: nat :: c >= fd ==> k.closed[c] == 0
  }

  /** A slot of a run holds nothing that is still to be opened. */
  lemma NextIsNobodys(s: Server, i: nat)
    requires Inv(s) && i < |s.slots|
    ensures s.slots[i].authorization < s.kernel.made && NothingClosedFrom(s.kernel, s.kernel.made)
  {
    hide Slots, Sockets, OneUser, Flags, Authorized, AllHeld;
    var fd := s.kernel.made;
    forall c: nat | c >= fd ensures s.kernel.closed[c] == 0 {
      BetweenExact(fd, c);
      assert (AllHeld(s.slots) + s.kernel.closed)[c] == 0;
    }
    var a := s.slots[i].authorization;
    if a >= fd {
      BetweenExact(fd, a);
      assert (AllHeld(s.slots) + s.kernel.closed)[a] == 0;
      HoldsAuthorization(s.slots[i]);
      HeldIn(s.slots, i, a);
    }
  }

  /** When a slot performs its request, in every run: it is refused, left waiting,
      or answered. The answer is a success exactly if the call was and every flag
      could be put back; a descriptor the call gave then comes back unclosed, and
      is closed otherwise. */
  lemma RequestIsAnswered(agent: bool, turns: seq<Turn>, i: nat, op: Op, works: bool)
    requires i < |Run(agent, turns).slots| && Performs(Client(Run(agent, turns), i), agent, op)
    ensures var x := Client(Run(agent, turns), i);
            var z, y, a := Performing(x, op), Step(x, agent, op, works), op.answer;
            && y.log == (if Refused(z, a) then x.log else x.log + [Execution(x.slot.pid, x.slot.birth, z.slot.acks)])
            && if Refused(z, a) then
                 Replied(z, y, false) && Delivers(z, y, false, false)
               else if CallWaits(z, a) then
                 && y.slot == z.slot.(phase := (if a.kind == Connect then Connecting else Accepting), changed := true)
                 && y.kernel.made == z.kernel.made
               else
                 var ok := CallSucceeds(a) && !RestoringFails(z, a, works);
                 Replied(z, y, ok) && Delivers(z, y, GivesDescriptor(a), ok)
  {
    RunKeeps(agent, turns);
    var s := Run(agent, turns);
    hide Run;
    var x := Client(s, i);
    NextIsNobodys(s, i);
    assert SlotInv(x.slot, agent);
    hide Inv, Step, Execute, TakeItems, Replied, Delivers;
    StepExecutes(x, agent, op, works);
    PerformsUnused(x, agent, op);
    ExecuteOutcome(Performing(x, op), op.answer, works);
  }

  lemma PerformsUnused(x: State, agent: bool, op: Op)
    requires Performs(x, agent, op) && SlotInv(x.slot, agent)
    requires x.slot.authorization < x.kernel.made && NothingClosedFrom(x.kernel, x.kernel.made)
    ensures var z := Performing(x, op);
            Unused(z) && !z.slot.changed && z.log == x.log && z.slot.pid == x.slot.pid && z.slot.birth == x.slot.birth
  {
    hide TakeItems;
    if op.Receive? {
      ItemsOutcome(x, op.items, !op.intact);
    }
  }

  /** An accept that is tried again, in every run: the connection it gave comes
      back unclosed exactly if it could be configured and the listener's flag be
      put back, and is closed otherwise; without one it waits on or fails. */
  lemma RetriedAcceptIsAnswered(agent: bool, turns: seq<Turn>, i: nat, a: Answer, works: bool)
    requires i < |Run(agent, turns).slots|
    requires Run(agent, turns).slots[i].control >= 0 && Run(agent, turns).slots[i].phase == Accepting
    ensures var x := Client(Run(agent, turns), i);
            var y := Step(x, agent, Ready(a), works);
            && y.log == x.log + [Execution(x.slot.pid, x.slot.birth, x.slot.acks)]
            && if !a.gives && a.waits then
                 y.slot == x.slot && y.kernel == x.kernel
               else
                 var ok := a.gives && a.configured && works;
                 Replied(x, y, ok) && Delivers(x, y, a.gives, ok)
  {
    RunKeeps(agent, turns);
    var s := Run(agent, turns);
    hide Run;
    var x := Client(s, i);
    NextIsNobodys(s, i);
    assert SlotInv(x.slot, agent);
    assert Socketed(x.slot, s.kernel.received);
    hide Inv, AcceptTcp;
    AcceptOutcome(Logged(x), a, works);
  }

  /** A connection that came about or failed, in every run. */
  lemma WaitingConnectIsAnswered(agent: bool, turns: seq<Turn>, i: nat, a: Answer, works: bool)
    requires i < |Run(agent, turns).slots|
    requires Run(agent, turns).slots[i].control >= 0 && Run(agent, turns).slots[i].phase == Connecting
    ensures var x := Client(Run(agent, turns), i);
            var y := Step(x, agent, Ready(a), works);
            Replied(x, y, a.success && works) && Delivers(x, y, false, false) && y.log == x.log
  {
    RunKeeps(agent, turns);
    var s := Run(agent, turns);
    hide Run;
    var x := Client(s, i);
    assert SlotInv(x.slot, agent);
    assert Socketed(x.slot, s.kernel.received);
    hide Inv, Reply;
    ReplyOutcome(x, a.success, works);
  }

  // ------------------------------------------------------------ before a request

  /** What came with one byte is valid exactly if it was nothing, or the slot's
      first socket alone, which is then the slot's; nothing was cut short before. */
  predicate ValidItems(x: State, items: seq<Item>, invalid: bool) {
    && !invalid
    && (items == [] || (|items| == 1 && items[0].Right? && items[0].mark && x.slot.socket < 0))
  }

  /** Socket `fd` came with a known description, or with a new one and its flag. */
  predicate DescribedAs(k: Kernel, l: Kernel, fd: nat, of: int, blocks: bool) {
    var known := |k.blocking|;
    && fd in l.received
    && if 0 <= of < known then l.received[fd] == of && l.blocking == k.blocking && l.home == k.home
       else l.received[fd] == known && l.blocking == k.blocking + [blocks] && l.home == k.home + [blocks]
  }

  lemma {:induction false} ItemsOutcome(x: State, items: seq<Item>, invalid: bool)
    ensures var t := TakeItems(x, items, invalid);
            && (t.invalid <==> !ValidItems(x, items, invalid))
            && t.x.log == x.log && t.x.slot == x.slot.(socket := t.x.slot.socket) && t.x.kernel.made >= x.kernel.made
            && (items == [] ==> t.x == x)
            && (items != [] && !t.invalid ==>
                  && t.x.slot.socket == x.kernel.made
                  && DescribedAs(x.kernel, t.x.kernel, x.kernel.made, items[0].of, items[0].blocks))
            && (x.slot.socket >= 0 ==> t.x.slot.socket == x.slot.socket)
            && (x.kernel.closed[x.kernel.made] == 0 && !t.invalid ==> t.x.kernel.closed == x.kernel.closed)
            && (!t.invalid ==> t.x.kernel.made == x.kernel.made + |items|)
  {
    if items != [] {
      var n := |items| - 1;
      ItemsOutcome(x, items[..n], invalid);
      if n == 0 {
        assert items[..n] == [];
      }
    }
  }

  lemma RunSlot(agent: bool, turns: seq<Turn>, i: nat)
    requires i < |Run(agent, turns).slots|
    ensures SlotInv(Run(agent, turns).slots[i], agent)
  {
    RunKeeps(agent, turns);
    hide Run;
  }

  /** One byte of a request, in every run: the end of the connection frees the
      slot, anything invalid is answered with a failure, a socket that came is
      kept; after the last byte the agent is asked for the broker first. */
  lemma ByteIsTaken(agent: bool, turns: seq<Turn>, i: nat, op: Op, works: bool)
    requires i < |Run(agent, turns).slots| && op.Receive?
    requires Run(agent, turns).slots[i].control >= 0 && Run(agent, turns).slots[i].phase == Receiving
    requires agent || op.eof || !op.last || !ValidItems(Client(Run(agent, turns), i), op.items, !op.intact)
    ensures var x := Client(Run(agent, turns), i);
            var y, next := Step(x, agent, op, works), x.kernel.made + |op.items|;
            var taken := x.slot.(socket := if op.items == [] then x.slot.socket else x.kernel.made);
            && y.log == x.log
            && if op.eof then y.slot == EMPTY
               else if !ValidItems(x, op.items, !op.intact) then
                 y.slot.phase == Sending && !y.slot.succeeded && y.slot.returned < 0 && y.slot.control == x.slot.control
               else if !op.last then y.slot == taken && y.kernel.made == next
               else if !op.begins then
                 y.slot.phase == Sending && !y.slot.succeeded && y.slot.returned < 0 && y.slot.control == x.slot.control
               else
                 && y.slot == taken.(phase := Authorizing, authorizingBroker := true, asked := BrokerAck, authorization := next)
                 && y.kernel.made == next + 1
  {
    RunSlot(agent, turns, i);
    var x := Client(Run(agent, turns), i);
    hide Run, Reply, Release, TakeItems, Execute;
    ItemsOutcome(x, op.items, !op.intact);
    var t := TakeItems(x, op.items, !op.intact).x;
    ReleaseSlot(t, works, agent);
    ReleaseLog(t, works);
    ReplyOutcome(t, false, works);
  }

  lemma ReleaseLog(x: State, works: bool)
    ensures Release(x, works).log == x.log
  {}

  /** An answer of the agent that does not yet perform the request, in every run:
      a refusal fails it; the broker's acknowledgement closes its connection and
      asks for the peer on a new one. */
  lemma AgentIsAskedForThePeer(agent: bool, turns: seq<Turn>, i: nat, op: Op, works: bool)
    requires i < |Run(agent, turns).slots| && op.Progress?
    requires var s := Run(agent, turns).slots[i];
             s.control >= 0 && s.phase == Authorizing && s.authorization >= 0 && (op.accepted ==> s.authorizingBroker)
    ensures var x := Client(Run(agent, turns), i);
            var y := Step(x, agent, op, works);
            && y.log == x.log
            && if op.accepted && op.begins then
                 && y.slot == x.slot.(authorization := x.kernel.made, authorizingBroker := false,
                                      asked := PeerAck(x.slot.pid, x.slot.birth), acks := [BrokerAck])
                 && y.kernel.made == x.kernel.made + 1 && y.kernel.closed == x.kernel.closed + multiset{x.slot.authorization}
               else
                 Replied(x, y, false) && y.slot.returned < 0
  {
    RunSlot(agent, turns, i);
    var x := Client(Run(agent, turns), i);
    hide Run, Reply, Execute;
    ReplyOutcome(x, false, works);
    ReplyOutcome(Acknowledged(x), false, works);
  }

  /** After the reply, in every run: a descriptor that went with it is held until
      the peer acknowledges it; otherwise sending the last byte frees the slot. */
  lemma ReplyIsSent(agent: bool, turns: seq<Turn>, i: nat, op: Op, works: bool)
    requires i < |Run(agent, turns).slots| && Run(agent, turns).slots[i].control >= 0 && (op.Send? || op.Acknowledge?)
    ensures var x := Client(Run(agent, turns), i);
            var y := Step(x, agent, op, works);
            var sent := op.Send? && x.slot.phase == Sending;
            && y.log == x.log
            && (y.slot == EMPTY <==>
                  || (sent && (op.failed || (op.last && x.slot.returned < 0)))
                  || (op.Acknowledge? && x.slot.phase == Acknowledging))
            && (y.slot != EMPTY ==>
                  && y.kernel == x.kernel
                  && y.slot == x.slot.(phase := if sent && op.last then Acknowledging else x.slot.phase))
  {
    hide Run, Release;
    var x := Client(Run(agent, turns), i);
    ReleaseSlot(x, works, agent);
    ReleaseLog(x, works);
  }

  // --------------------------------------------------------------- admission

  lemma {:induction false} NoneFree(slots: seq<Slot>, k: nat, i: nat)
    requires k <= i < |slots| && FreeSlot(slots, k) == |slots|
    ensures slots[i].control >= 0
    decreases |slots| - k
  {
    if k < i {
      NoneFree(slots, k + 1, i);
    }
  }

  /** A usable connection is given a free slot if there is one, to be served within
      8000 ms; any other is closed, and no slot changes. */
  lemma ArrivalIsAdmitted(agent: bool, turns: seq<Turn>, a: Arrival)
    ensures var s := Run(agent, turns);
            var t, fd := Admit(s, a), s.kernel.made;
            && t.kernel.made == fd + 1 && t.log == s.log
            && if a.usable && exists i :: 0 <= i < |s.slots| && s.slots[i].control < 0 then
                 && t.kernel.closed == s.kernel.closed
                 && exists i :: 0 <= i < |s.slots| && s.slots[i].control < 0 &&
                      t.slots == s.slots[i := Slot(fd, -1, -1, -1, false, a.pid, a.birth, a.now + 8000, Receiving, false, false, BrokerAck, [])]
               else
                 t.slots == s.slots && t.kernel.closed == s.kernel.closed + multiset{fd}
  {
    var s := Run(agent, turns);
    hide Run, FreeSlot;
    var k := FreeSlot(s.slots, 0);
    if k == |s.slots| {
      forall i | 0 <= i < |s.slots| ensures s.slots[i].control >= 0 {
        NoneFree(s.slots, 0, i);
      }
    } else if a.usable {
      assert s.slots[k].control < 0;
    }
  }

  // ------------------------------------------------------------------- one turn

  lemma {:induction false} VisitedOnce(s: Server, n: nat, visits: seq<Visit>, now: int, j: nat)
    requires Slots(s.slots, s.agent) && n <= |s.slots| && n <= |visits| && j < |s.slots|
    ensures var t := VisitAll(s, n, visits, now);
            && Slots(t.slots, s.agent) && (j >= n ==> t.slots[j] == s.slots[j])
            && (j < n && (now >= s.slots[j].deadline || !visits[j].alive) ==> t.slots[j] == EMPTY)
            && (j < n && now < s.slots[j].deadline && visits[j].alive && visits[j].events == [] ==> t.slots[j] == s.slots[j])
  {
    hide VisitSlot, OnSlot, Step, Events, Slots;
    if n > 0 {
      VisitedOnce(s, n - 1, visits, now, j);
      var t := VisitAll(s, n - 1, visits, now);
      VisitOutcome(t, n - 1, visits[n - 1], now, j);
    }
  }

  lemma VisitOutcome(s: Server, i: nat, v: Visit, now: int, j: nat)
    requires Slots(s.slots, s.agent) && i < |s.slots| && j < |s.slots|
    ensures var t := VisitSlot(s, i, v, now);
            && Slots(t.slots, s.agent) && (j != i ==> t.slots[j] == s.slots[j])
            && (now >= s.slots[i].deadline || !v.alive ==> t.slots[i] == EMPTY)
            && (now < s.slots[i].deadline && v.alive && v.events == [] ==> t.slots[i] == s.slots[i])
  {
    VisitInTime(s, i, v, now, j);
    assert SlotInv(s.slots[i], s.agent);
    hide Release, Slots;
    ReleaseSlot(Client(s, i), v.works, s.agent);
  }

  /** A turn frees every slot whose deadline has come or whose peer is no longer
      the same process, and leaves a slot alone to which nothing happened. */
  lemma TurnDropsExactly(agent: bool, turns: seq<Turn>, j: nat)
    requires turns != [] && j < 64 && |turns[|turns| - 1].visits| >= 64
    ensures var t := turns[|turns| - 1];
            var a, s := AdmitAll(Run(agent, turns[..|turns| - 1]), t.arrivals), Run(agent, turns);
            && |a.slots| == 64 == |s.slots|
            && (t.now >= a.slots[j].deadline || !t.visits[j].alive ==> s.slots[j] == EMPTY)
            && (t.now < a.slots[j].deadline && t.visits[j].alive && t.visits[j].events == [] ==> s.slots[j] == a.slots[j])
  {
    var t := turns[|turns| - 1];
    RunKeeps(agent, turns[..|turns| - 1]);
    AdmitAllKeeps(Run(agent, turns[..|turns| - 1]), t.arrivals);
    var a := AdmitAll(Run(agent, turns[..|turns| - 1]), t.arrivals);
    hide AdmitAll, VisitAll, Owned, Sockets, Flags, Authorized, SlotInv, OneUser, Slots;
    VisitedOnce(a, |a.slots|, t.visits, t.now, j);
  }

  // ------------------------------------------------------------ restoring calls

  lemma ReplyStuck(x: State, success: bool)
    ensures Reply(x, success, true).kernel.stuck == x.kernel.stuck
  {}

  lemma ExecuteStuck(x: State, a: Answer)
    ensures Execute(x, a, true).kernel.stuck == x.kernel.stuck && AcceptTcp(x, a, true).kernel.stuck == x.kernel.stuck
  {
    hide Reply;
    var l := Logged(x);
    var b := BeginNonblocking(l);
    ReplyStuck(x, false);
    ReplyStuck(l, false);
    ReplyStuck(l, a.success);
    ReplyStuck(b, true);
    ReplyStuck(b, false);
    ReplyStuck(x.(slot := x.slot.(returned := x.kernel.made), kernel := Opens(x.kernel)), a.configured);
    ReplyStuck(l.(slot := l.slot.(returned := l.kernel.made), kernel := Opens(l.kernel)), a.configured);
    ReplyStuck(b.(slot := b.slot.(returned := b.kernel.made), kernel := Opens(b.kernel)), a.configured);
  }

  lemma {:induction false} ItemsStuck(x: State, items: seq<Item>, invalid: bool)
    ensures TakeItems(x, items, invalid).x.kernel.stuck == x.kernel.stuck
  {
    if items != [] {
      ItemsStuck(x, items[..|items| - 1], invalid);
    }
  }

  lemma ReleaseStuck(x: State)
    ensures Release(x, true).kernel.stuck == x.kernel.stuck
  {}

  lemma ReceivesStuck(x: State, agent: bool, op: Op)
    requires op.Receive?
    ensures Receives(x, agent, op, true).kernel.stuck == x.kernel.stuck
  {
    hide Reply, Release, Execute, TakeItems;
    var t := TakeItems(x, op.items, !op.intact).x;
    ItemsStuck(x, op.items, !op.intact);
    ReleaseStuck(t);
    ReplyStuck(t, false);
    ExecuteStuck(t, op.answer);
  }

  lemma ProgressesStuck(x: State, op: Op)
    requires op.Progress?
    ensures Progresses(x, op, true).kernel.stuck == x.kernel.stuck
  {
    hide Reply, Execute;
    ReplyStuck(x, false);
    ReplyStuck(Acknowledged(x), false);
    ExecuteStuck(Acknowledged(x), op.answer);
  }

  lemma StepStuck(x: State, agent: bool, op: Op)
    ensures Step(x, agent, op, true).kernel.stuck == x.kernel.stuck
  {
    hide Reply, Release, AcceptTcp, Receives, Progresses, Execute;
    ReleaseStuck(x);
    match op {
      case Receive(_, _, _, _, _, _) => ReceivesStuck(x, agent, op);
      case Progress(_, _, _) => ProgressesStuck(x, op);
      case Ready(a) =>
        ReplyStuck(x, a.success);
        ExecuteStuck(Logged(x), a);
      case _ =>
    }
  }

  ghost predicate AllWork(v: Visit) { v.works && forall k :: 0 <= k < |v.events| ==> v.events[k].works }

  lemma {:induction false} EventsStuck(s: Server, i: nat, es: seq<Event>)
    requires i < |s.slots| && forall k :: 0 <= k < |es| ==> es[k].works
    ensures Events(s, i, es).kernel.stuck == s.kernel.stuck
  {
    if es != [] {
      var n := |es| - 1;
      EventsStuck(s, i, es[..n]);
      hide Step;
      StepStuck(Client(Events(s, i, es[..n]), i), s.agent, es[n].op);
    }
  }

  lemma VisitStuck(s: Server, i: nat, v: Visit, now: int)
    requires i < |s.slots| && AllWork(v)
    ensures VisitSlot(s, i, v, now).kernel.stuck == s.kernel.stuck
  {
    hide Step, Events;
    StepStuck(Client(s, i), s.agent, Cancel);
    EventsStuck(s, i, v.events);
  }

  lemma {:induction false} VisitAllStuck(s: Server, n: nat, visits: seq<Visit>, now: int)
    requires n <= |s.slots| && n <= |visits| && forall k :: 0 <= k < |visits| ==> AllWork(visits[k])
    ensures VisitAll(s, n, visits, now).kernel.stuck == s.kernel.stuck
  {
    hide VisitSlot, OnSlot, Step, Events, AllWork;
    if n > 0 {
      VisitAllStuck(s, n - 1, visits, now);
      var t := VisitAll(s, n - 1, visits, now);
      VisitStuck(t, n - 1, visits[n - 1], now);
    }
  }

  lemma {:induction false} AdmitAllStuck(s: Server, arrivals: seq<Arrival>)
    ensures AdmitAll(s, arrivals).kernel.stuck == s.kernel.stuck
  {
    if arrivals != [] {
      hide FreeSlot;
      AdmitAllStuck(s, arrivals[..|arrivals| - 1]);
    }
  }

  /** If every restoring call of a run succeeds, every description that no slot is
      using nonblockingly has the flag it came with. */
  lemma {:induction false} WorkingCallsStrandNothing(agent: bool, turns: seq<Turn>)
    requires forall n, k :: 0 <= n < |turns| && 0 <= k < |turns[n].visits| ==> AllWork(turns[n].visits[k])
    ensures Run(agent, turns).kernel.stuck == {}
  {
    if turns != [] {
      var n := |turns| - 1;
      WorkingCallsStrandNothing(agent, turns[..n]);
      var s, t := Run(agent, turns[..n]), turns[n];
      AdmitAllStuck(s, t.arrivals);
      var a := AdmitAll(s, t.arrivals);
      hide AdmitAll, VisitAll, AllWork;
      if |t.visits| >= |a.slots| {
        VisitAllStuck(a, |a.slots|, t.visits, t.now);
      }
    }
  }

  lemma WorkingCallsRestoreEveryFlag(agent: bool, turns: seq<Turn>, d: nat)
    requires forall n, k :: 0 <= n < |turns| && 0 <= k < |turns[n].visits| ==> AllWork(turns[n].visits[k])
    requires var s := Run(agent, turns); d < |s.kernel.blocking| && d !in AllLoose(s.kernel.received, s.slots)
    ensures var k := Run(agent, turns).kernel; |k.home| == |k.blocking| && k.blocking[d] == k.home[d]
  {
    hide Run, AllWork, AllLoose, Loose;
    WorkingCallsStrandNothing(agent, turns);
    FlagsAreRestored(agent, turns, d);
  }
}
