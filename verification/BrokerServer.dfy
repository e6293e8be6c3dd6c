/** The network broker in place: an array of 64 slots that the request handlers
    update field by field, proved to take the steps of the specification. */
module BrokerServer {
  import opened NetworkBroker
  import opened BrokerLoop

  class Broker {
    const slots: array<Slot>
    const agent: bool
    var kernel: Kernel
    var log: seq<Execution>

    ghost function Model(): Server
      reads this, slots
    {
      Server(slots[..], kernel, log, agent)
    }

    /** One slot with the kernel and the log, as the specification's steps see it. */
    ghost function Client(i: nat): State
      requires i < slots.Length
      reads this, slots
    {
      State(slots[i], kernel, log)
    }

    /** Nothing but slot `i` and what all slots share has changed. */
    twostate predicate Only(i: nat)
      reads slots
    {
      forall j :: 0 <= j < slots.Length && j != i ==> slots[j] == old(slots[j])
    }

    constructor (agent: bool)
      ensures slots.Length == MAX_CLIENTS && Model() == Init(agent) && Inv(Model()) && fresh(slots)
    {
      slots := new Slot[MAX_CLIENTS](_ => EMPTY);
      this.agent := agent;
      kernel, log := Kernel(0, multiset{}, map[], [], [], {}), [];
      new;
      assert slots[..] == Init(agent).slots;
      InitInv(agent);
    }

    method CloseFd(fd: int)
      modifies this`kernel
      ensures kernel == Closes(old(kernel), fd)
    {
      if fd >= 0 {
        kernel := kernel.(closed := kernel.closed + multiset{fd});
      }
    }

    method OpenFd() returns (fd: nat)
      modifies this`kernel
      ensures fd == old(kernel).made && kernel == Opens(old(kernel))
    {
      fd := kernel.made;
      kernel := kernel.(made := fd + 1);
    }

    /** Sets a changed flag back. */
    method Restore(i: nat, works: bool)
      requires i < slots.Length
      modifies this`kernel
      ensures kernel == Restores(old(kernel), slots[i], works)
    {
      var s := slots[i];
      if s.changed && s.socket >= 0 && s.socket in kernel.received {
        var d := kernel.received[s.socket];
        if d < |kernel.blocking| {
          if works {
            kernel := kernel.(blocking := kernel.blocking[d := true]);
          } else {
            kernel := kernel.(stuck := kernel.stuck + {d});
          }
        }
      }
    }

    method ReleaseClient(i: nat, works: bool)
      requires i < slots.Length
      modifies slots, this`kernel
      ensures Client(i) == Release(old(Client(i)), works) && Only(i)
    {
      Restore(i, works);
      CloseFd(slots[i].socket);
      CloseFd(slots[i].returned);
      CloseFd(slots[i].control);
      CloseFd(slots[i].authorization);
      slots[i] := EMPTY;
    }

    /** The flags first, then what the failed reply does not return. */
    method ReplyTo(i: nat, success: bool, works: bool)
      requires i < slots.Length
      modifies slots, this`kernel
      ensures Client(i) == Reply(old(Client(i)), success, works) && Only(i)
    {
      hide Restores;
      CloseFd(slots[i].authorization);
      var error := !success;
      Restore(i, works);
      if slots[i].socket >= 0 && slots[i].changed && !works {
        error := true;
      }
      slots[i] := slots[i].(authorization := -1, phase := Sending, changed := false, succeeded := !error);
      if error {
        CloseFd(slots[i].returned);
        slots[i] := slots[i].(returned := -1);
      }
    }

    method MakeNonblocking(i: nat)
      requires i < slots.Length
      modifies slots, this`kernel
      ensures Client(i) == BeginNonblocking(old(Client(i))) && Only(i)
    {
      var s := slots[i];
      if s.socket >= 0 && s.socket in kernel.received {
        var d := kernel.received[s.socket];
        if d < |kernel.blocking| && kernel.blocking[d] {
          kernel := kernel.(blocking := kernel.blocking[d := false]);
          slots[i] := s.(changed := true);
        }
      }
    }

    method TryAccept(i: nat, a: Answer, works: bool)
      requires i < slots.Length
      modifies slots, this`kernel
      ensures Client(i) == AcceptTcp(old(Client(i)), a, works) && Only(i)
    {
      hide Reply;
      if !a.gives {
        if a.waits && slots[i].changed {
          slots[i] := slots[i].(phase := Accepting);
        } else {
          ReplyTo(i, false, works);
        }
        return;
      }
      var fd := OpenFd();
      slots[i] := slots[i].(returned := fd);
      ReplyTo(i, a.configured, works);
    }

    method LogExecution(i: nat)
      requires i < slots.Length
      modifies this`log
      ensures Client(i) == Logged(old(Client(i)))
    {
      log := log + [Execution(slots[i].pid, slots[i].birth, slots[i].acks)];
    }

    method ExecuteRequest(i: nat, a: Answer, works: bool)
      requires i < slots.Length
      modifies slots, this`kernel, this`log
      ensures Client(i) == Execute(old(Client(i)), a, works) && Only(i)
    {
      hide Reply, AcceptTcp, BeginNonblocking, Logged;
      ghost var y := Logged(Client(i));
      LoggedSame(Client(i));
      if !a.valid || (a.kind == Make) != (slots[i].socket < 0) {
        ReplyTo(i, false, works);
        return;
      }
      LogExecution(i);
      if a.kind == Make && a.gives {
        var fd := OpenFd();
        slots[i] := slots[i].(returned := fd);
        ReplyTo(i, a.configured, works);
      } else if a.kind == Make || (a.kind != Plain && !a.flags) {
        ReplyTo(i, false, works);
      } else if a.kind == Plain {
        ReplyTo(i, a.success, works);
      } else if a.kind == Connect {
        MakeNonblocking(i);
        if a.success {
          ReplyTo(i, true, works);
        } else if a.waits && slots[i].changed {
          slots[i] := slots[i].(phase := Connecting);
        } else {
          ReplyTo(i, false, works);
        }
      } else {
        MakeNonblocking(i);
        TryAccept(i, a, works);
      }
    }

    /** Everything that came with a byte, in order. */
    method ReceiveItems(i: nat, items: seq<Item>, intact: bool) returns (invalid: bool)
      requires i < slots.Length
      modifies slots, this`kernel
      ensures Taken(Client(i), invalid) == TakeItems(old(Client(i)), items, !intact) && Only(i)
    {
      hide Describes;
      invalid := !intact;
      assert items[..0] == [];
      for n := 0 to |items|
        invariant Taken(Client(i), invalid) == TakeItems(old(Client(i)), items[..n], !intact) && Only(i)
      {
        assert items[..n + 1][..n] == items[..n];
        match items[n] {
          case Junk => invalid := true;
          case Right(of, blocks, mark) =>
            var fd := OpenFd();
            if slots[i].socket >= 0 || invalid {
              CloseFd(fd);
              invalid := true;
            } else {
              slots[i] := slots[i].(socket := fd);
              kernel := Describes(kernel, fd, of, blocks);
              invalid := !mark;
            }
        }
      }
      assert items[..|items|] == items;
    }

    method BeginRegistration(i: nat, broker: bool, begins: bool, works: bool)
      requires i < slots.Length
      modifies slots, this`kernel
      ensures Client(i) == Register(old(Client(i)), broker, begins, works) && Only(i)
    {
      hide Reply;
      if !begins {
        ReplyTo(i, false, works);
        return;
      }
      var asked := if broker then BrokerAck else PeerAck(slots[i].pid, slots[i].birth);
      var fd := OpenFd();
      slots[i] := slots[i].(authorization := fd, authorizingBroker := broker, asked := asked, phase := Authorizing);
    }

    /** One byte of a request with its descriptors. */
    method ReceiveOne(i: nat, op: Op, works: bool)
      requires i < slots.Length && op.Receive?
      modifies slots, this`kernel, this`log
      ensures Client(i) == Receives(old(Client(i)), agent, op, works) && Only(i)
    {
      hide Release, Reply, Execute, Register, TakeItems;
      var invalid := ReceiveItems(i, op.items, op.intact);
      if op.eof {
        ReleaseClient(i, works);
      } else if invalid {
        ReplyTo(i, false, works);
      } else if op.last {
        if agent {
          BeginRegistration(i, true, op.begins, works);
        } else {
          ExecuteRequest(i, op.answer, works);
        }
      }
    }

    /** An answer of the agent: the broker's own first, then the peer's. */
    method ProgressOne(i: nat, op: Op, works: bool)
      requires i < slots.Length && op.Progress?
      modifies slots, this`kernel, this`log
      ensures Client(i) == Progresses(old(Client(i)), op, works) && Only(i)
    {
      hide Reply, Execute, Register;
      if !op.accepted {
        ReplyTo(i, false, works);
        return;
      }
      var broker := slots[i].authorizingBroker;
      CloseFd(slots[i].authorization);
      slots[i] := slots[i].(authorization := -1, acks := slots[i].acks + [slots[i].asked], authorizingBroker := false);
      if broker {
        BeginRegistration(i, false, op.begins, works);
      } else {
        ExecuteRequest(i, op.answer, works);
      }
    }

    /** The socket a waiting call depends on is ready. */
    method ReadyOne(i: nat, a: Answer, works: bool)
      requires i < slots.Length && slots[i].control >= 0
      modifies slots, this`kernel, this`log
      ensures Client(i) == Step(old(Client(i)), agent, Ready(a), works) && Only(i)
    {
      hide Reply, AcceptTcp;
      if slots[i].phase == Accepting {
        LogExecution(i);
        TryAccept(i, a, works);
      } else if slots[i].phase == Connecting {
        ReplyTo(i, a.success, works);
      }
    }

    method SendOne(i: nat, failed: bool, last: bool, works: bool)
      requires i < slots.Length && slots[i].control >= 0
      modifies slots, this`kernel
      ensures Client(i) == Step(old(Client(i)), agent, Send(failed, last), works) && Only(i)
    {
      hide Release;
      if slots[i].phase == Sending {
        if failed || (last && slots[i].returned < 0) {
          ReleaseClient(i, works);
        } else if last {
          slots[i] := slots[i].(phase := Acknowledging);
        }
      }
    }

    method Handle(i: nat, e: Event)
      requires i < slots.Length
      modifies slots, this`kernel, this`log
      ensures Model() == OnSlot(old(Model()), i, e)
    {
      hide Release, Receives, Progresses, Reply, AcceptTcp;
      ghost var before := slots[..];
      var s := slots[i];
      if s.control >= 0 {
        match e.op {
          case Cancel => ReleaseClient(i, e.works);
          case Receive(_, _, _, _, _, _) =>
            if s.phase == Receiving {
              ReceiveOne(i, e.op, e.works);
            }
          case Progress(_, _, _) =>
            if s.phase == Authorizing && s.authorization >= 0 {
              ProgressOne(i, e.op, e.works);
            }
          case Ready(a) => ReadyOne(i, a, e.works);
          case Send(failed, last) => SendOne(i, failed, last, e.works);
          case Acknowledge =>
            if s.phase == Acknowledging {
              ReleaseClient(i, e.works);
            }
        }
      }
      hide Step;
      assert slots[..] == before[i := slots[i]];
    }

    /** The deadline and the peer's birth first, then the events, in order. */
    method ServeSlot(i: nat, v: Visit, now: int)
      requires i < slots.Length && Inv(Model())
      modifies slots, this`kernel, this`log
      ensures Model() == VisitSlot(old(Model()), i, v, now) && Inv(Model())
    {
      hide Inv, OnSlot;
      if now >= slots[i].deadline || !v.alive {
        OnSlotKeeps(Model(), i, Event(Cancel, v.works));
        Handle(i, Event(Cancel, v.works));
        return;
      }
      assert v.events[..0] == [];
      for k := 0 to |v.events|
        invariant Model() == Events(old(Model()), i, v.events[..k]) && Inv(Model())
      {
        assert v.events[..k + 1][..k] == v.events[..k];
        OnSlotKeeps(Model(), i, v.events[k]);
        Handle(i, v.events[k]);
      }
      assert v.events[..|v.events|] == v.events;
    }

    method FindFree() returns (i: nat)
      ensures i == FreeSlot(slots[..], 0)
    {
      i := 0;
      while i < slots.Length && slots[i].control >= 0
        invariant i <= slots.Length && FreeSlot(slots[..], 0) == FreeSlot(slots[..], i)
      {
        i := i + 1;
      }
    }

    /** Takes one connection into the first free slot, or closes it. */
    method AdmitOne(a: Arrival)
      requires Inv(Model())
      modifies slots, this`kernel
      ensures Model() == Admit(old(Model()), a) && Inv(Model())
    {
      hide Inv, FreeSlot, Admit;
      ghost var start := Model();
      AdmitKeeps(start, a);
      AdmitShape(start, a);
      var i := FindFree();
      var fd := OpenFd();
      if i == slots.Length || !a.usable {
        CloseFd(fd);
      } else {
        var slot := EMPTY.(control := fd, pid := a.pid, birth := a.birth, deadline := a.now + DEADLINE_MS);
        slots[i] := slot;
        assert slots[..] == start.slots[i := slot];
      }
    }

    method AdmitArrivals(arrivals: seq<Arrival>)
      requires Inv(Model())
      modifies slots, this`kernel
      ensures Model() == AdmitAll(old(Model()), arrivals) && Inv(Model())
    {
      hide Inv, Admit;
      assert arrivals[..0] == [];
      for k := 0 to |arrivals|
        invariant Model() == AdmitAll(old(Model()), arrivals[..k]) && Inv(Model())
      {
        assert arrivals[..k + 1][..k] == arrivals[..k];
        AdmitOne(arrivals[k]);
      }
      assert arrivals[..|arrivals|] == arrivals;
    }

    /** One turn of the loop: admissions, then every slot in order. */
    method ServeTurn(t: Turn)
      requires Inv(Model()) && |t.visits| == slots.Length
      modifies slots, this`kernel, this`log
      ensures Model() == OneTurn(old(Model()), t) && Inv(Model())
    {
      hide Inv, VisitSlot, AdmitAll;
      AdmitArrivals(t.arrivals);
      ghost var start := Model();
      for i := 0 to slots.Length
        invariant Model() == VisitAll(start, i, t.visits, t.now) && Inv(Model())
      {
        ServeSlot(i, t.visits[i], t.now);
      }
    }

    /** Stopping releases every slot. */
    method Stop()
      requires Inv(Model()) && slots.Length == MAX_CLIENTS
      modifies slots, this`kernel, this`log
      ensures Model() == Shutdown(old(Model()), MAX_CLIENTS)
    {
      hide OnSlot;
      for i := 0 to slots.Length
        invariant Model() == Shutdown(old(Model()), i)
      {
        Handle(i, Event(Cancel, true));
      }
    }
  }

  lemma AdmitShape(s: Server, a: Arrival)
    ensures var i, fd := FreeSlot(s.slots, 0), s.kernel.made;
      Admit(s, a) == if i == |s.slots| || !a.usable then s.(kernel := Closes(Opens(s.kernel), fd))
      else s.(kernel := Opens(s.kernel),
              slots := s.slots[i := EMPTY.(control := fd, pid := a.pid, birth := a.birth, deadline := a.now + DEADLINE_MS)])
  {}

  lemma LoggedSame(x: State)
    ensures Logged(x).slot == x.slot && Logged(x).kernel == x.kernel
  {}
}
