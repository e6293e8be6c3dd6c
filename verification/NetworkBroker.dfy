/** The network broker's client slots: six phases, four descriptors each. System
    calls are answers the kernel gives; descriptors are numbered as they are
    opened, so that closing one twice or losing one shows. The nonblocking flag
    belongs to the open file description, which copies of a socket share. */
module NetworkBroker {

  const MAX_CLIENTS: nat := 64
  const DEADLINE_MS: nat := 8000

  datatype Phase = Receiving | Authorizing | Connecting | Accepting | Sending | Acknowledging

  /** Whom the agent is asked to acknowledge. */
  datatype Ack = BrokerAck | PeerAck(pid: int, birth: nat)

  /** -1 stands for no descriptor. `succeeded` is the verdict of the reply, once
      there is one. `asked` and `acks` are history: for whom the registration under
      way asks, and the acknowledgements since the slot was admitted. */
  datatype Slot = Slot(control: int, socket: int, returned: int, authorization: int,
                       changed: bool, pid: int, birth: nat, deadline: int, phase: Phase, authorizingBroker: bool,
                       succeeded: bool, asked: Ack, acks: seq<Ack>)

  /** `received` gives the description behind each socket that came from a peer;
      `blocking` is each description's current flag, `home` its flag when its first
      copy came; `stuck` are those whose restoring call failed. */
  datatype Kernel = Kernel(made: nat, closed: multiset<nat>, received: map<nat, nat>, blocking: seq<bool>, home: seq<bool>,
                           stuck: set<nat>)

  /** A socket operation performed for a peer, with the slot's acknowledgements. */
  datatype Execution = Execution(pid: int, birth: nat, acks: seq<Ack>)

  datatype State = State(slot: Slot, kernel: Kernel, log: seq<Execution>)

  const EMPTY := Slot(-1, -1, -1, -1, false, 0, 0, 0, Receiving, false, false, BrokerAck, [])

  function Opens(k: Kernel): Kernel { k.(made := k.made + 1) }

  function Closes(k: Kernel, fd: int): Kernel {
    if fd < 0 then k else k.(closed := k.closed + multiset{fd})
  }

  /** The description behind a slot's socket, -1 if there is none. */
  function Behind(received: map<nat, nat>, s: Slot): int {
    if s.socket >= 0 && s.socket in received then received[s.socket] else -1
  }

  /** Puts a changed flag back; `works` is whether the call succeeds. */
  function Restores(k: Kernel, s: Slot, works: bool): Kernel {
    var d := Behind(k.received, s);
    if !s.changed || d < 0 || d >= |k.blocking| then k
    else if works then k.(blocking := k.blocking[d := true])
    else k.(stuck := k.stuck + {d})
  }

  /** `pm_nb_release`. */
  function Release(x: State, works: bool): State {
    var k := Restores(x.kernel, x.slot, works);
    var s := x.slot;
    State(EMPTY, Closes(Closes(Closes(Closes(k, s.socket), s.returned), s.control), s.authorization), x.log)
  }

  /** `pm_nb_reply`: after it a failed restoration is reported, and a descriptor
      to return is closed unless the reply is a success. */
  function Reply(x: State, success: bool, works: bool): State {
    var s := x.slot;
    var k := Restores(Closes(x.kernel, s.authorization), s, works);
    var failed := !success || (s.socket >= 0 && s.changed && !works);
    x.(slot := s.(authorization := -1, phase := Sending, changed := false, succeeded := !failed,
                   returned := if failed then -1 else s.returned),
       kernel := if failed then Closes(k, s.returned) else k)
  }

  // ------------------------------------------------------------ the operations

  /** Make a socket; bind or listen; connect; accept. */
  datatype Kind = Make | Plain | Connect | Accept

  /** Outcome of the system calls inside one request. `valid`: the request and
      its socket passed every check; `flags`: the socket's flags could be read and
      set; `waits`: the call would block and the request does not ask to be told
      so; `gives`: a descriptor was created; `configured`: its flags could be set. */
  datatype Answer = Answer(valid: bool, kind: Kind, flags: bool, success: bool, waits: bool, gives: bool, configured: bool)

  /** Makes the socket nonblocking for the time of the call, if it blocks now. */
  function BeginNonblocking(x: State): State {
    var s, k := x.slot, x.kernel;
    var d := Behind(k.received, s);
    if 0 <= d < |k.blocking| && k.blocking[d] then
      x.(slot := s.(changed := true), kernel := k.(blocking := k.blocking[d := false]))
    else x
  }

  function Logged(x: State): State { x.(log := x.log + [Execution(x.slot.pid, x.slot.birth, x.slot.acks)]) }

  /** Attempts the accept: waits, fails, or has a connection to return. It waits
      only if the flag was found blocking. */
  function AcceptTcp(x: State, a: Answer, works: bool): State {
    if !a.gives then
      if a.waits && x.slot.changed then x.(slot := x.slot.(phase := Accepting)) else Reply(x, false, works)
    else
      Reply(x.(slot := x.slot.(returned := x.kernel.made), kernel := Opens(x.kernel)), a.configured, works)
  }

  /** `pm_nb_execute`. A new socket must not come with one, anything else must. */
  function Execute(x: State, a: Answer, works: bool): State {
    var y := Logged(x);
    if !a.valid || (a.kind == Make) != (x.slot.socket < 0) then Reply(x, false, works)
    else match a.kind
      case Make =>
        if !a.gives then Reply(y, false, works)
        else Reply(y.(slot := y.slot.(returned := y.kernel.made), kernel := Opens(y.kernel)), a.configured, works)
      case Plain => Reply(y, a.success, works)
      case Connect =>
        var z := BeginNonblocking(y);
        if !a.flags then Reply(y, false, works)
        else if a.success then Reply(z, true, works)
        else if a.waits && z.slot.changed then z.(slot := z.slot.(phase := Connecting))
        else Reply(z, false, works)
      case Accept =>
        if !a.flags then Reply(y, false, works) else AcceptTcp(BeginNonblocking(y), a, works)
  }

  /** What came with a byte besides it: something that is no right, or a socket of
      description `of`, -1 if its first copy comes now, with flag `blocks`; `mark`:
      it could be marked close-on-exec. */
  datatype Item = Junk | Right(of: int, blocks: bool, mark: bool)

  /** `intact`: the control data was not cut short. */
  datatype Op =
    | Cancel
    | Receive(items: seq<Item>, intact: bool, eof: bool, last: bool, begins: bool, answer: Answer)
    | Progress(accepted: bool, begins: bool, answer: Answer)
    | Ready(answer: Answer)
    | Send(failed: bool, last: bool)
    | Acknowledge

  function Describes(k: Kernel, fd: nat, of: int, blocks: bool): Kernel {
    if 0 <= of < |k.blocking| then k.(received := k.received[fd := of])
    else k.(received := k.received[fd := |k.blocking|], blocking := k.blocking + [blocks], home := k.home + [blocks])
  }

  datatype Taken = Taken(x: State, invalid: bool)

  /** One item. A socket is kept if it is the slot's first and nothing before it
      was invalid, and closed at once otherwise. */
  function TakeItem(t: Taken, item: Item): Taken {
    var y := t.x;
    match item
    case Junk => Taken(y, true)
    case Right(of, blocks, mark) =>
      var k := Opens(y.kernel);
      if y.slot.socket >= 0 || t.invalid then Taken(y.(kernel := Closes(k, y.kernel.made)), true)
      else Taken(y.(slot := y.slot.(socket := y.kernel.made), kernel := Describes(k, y.kernel.made, of, blocks)), !mark)
  }

  /** Everything that came with one byte, in order. */
  function TakeItems(x: State, items: seq<Item>, invalid: bool): Taken {
    if items == [] then Taken(x, invalid)
    else TakeItem(TakeItems(x, items[..|items| - 1], invalid), items[|items| - 1])
  }

  /** Starts a registration with the agent, or replies that it cannot. */
  function Register(x: State, broker: bool, begins: bool, works: bool): State {
    if !begins then Reply(x, false, works)
    else
      var asked := if broker then BrokerAck else PeerAck(x.slot.pid, x.slot.birth);
      x.(slot := x.slot.(authorization := x.kernel.made, authorizingBroker := broker, asked := asked, phase := Authorizing),
         kernel := Opens(x.kernel))
  }

  /** The agent acknowledged whom it was asked for; the connection is closed. */
  function Acknowledged(x: State): State {
    var s := x.slot;
    x.(slot := s.(authorization := -1, acks := s.acks + [s.asked], authorizingBroker := false),
       kernel := Closes(x.kernel, s.authorization))
  }

  function Receives(x: State, agent: bool, op: Op, works: bool): State
    requires op.Receive?
  {
    var t := TakeItems(x, op.items, !op.intact);
    if op.eof then Release(t.x, works)
    else if t.invalid then Reply(t.x, false, works)
    else if !op.last then t.x
    else if !agent then Execute(t.x, op.answer, works)
    else Register(t.x, true, op.begins, works)
  }

  function Progresses(x: State, op: Op, works: bool): State
    requires op.Progress?
  {
    if !op.accepted then Reply(x, false, works)
    else if x.slot.authorizingBroker then Register(Acknowledged(x), false, op.begins, works)
    else Execute(Acknowledged(x), op.answer, works)
  }

  function Step(x: State, agent: bool, op: Op, works: bool): State {
    var s := x.slot;
    if s.control < 0 then x
    else match op
      case Cancel => Release(x, works)
      case Receive(_, _, _, _, _, _) => if s.phase != Receiving then x else Receives(x, agent, op, works)
      case Progress(_, _, _) => if s.phase != Authorizing || s.authorization < 0 then x else Progresses(x, op, works)
      case Ready(answer) =>
        if s.phase == Accepting then AcceptTcp(Logged(x), answer, works)
        else if s.phase == Connecting then Reply(x, answer.success, works)
        else x
      case Send(failed, last) =>
        if s.phase != Sending then x
        else if failed then Release(x, works)
        else if !last then x
        else if s.returned >= 0 then x.(slot := s.(phase := Acknowledging))
        else Release(x, works)
      case Acknowledge => if s.phase == Acknowledging then Release(x, works) else x
  }

  // ------------------------------------------------------------------ ownership

  function One(fd: int): multiset<nat> { if fd < 0 then multiset{} else multiset{fd} }

  /** The descriptors a slot holds. */
  function Held(s: Slot): multiset<nat> {
    One(s.control) + One(s.socket) + One(s.returned) + One(s.authorization)
  }

  /** One of each descriptor numbered from `a` up to `b`. */
  ghost function Between(a: nat, b: nat): multiset<nat> {
    if b <= a then multiset{} else Between(a, b - 1) + multiset{b - 1}
  }

  /** What a slot and the closed descriptors gained is what was opened. */
  ghost predicate Balanced(x: State, y: State) {
    && x.kernel.made <= y.kernel.made
    && Held(y.slot) + y.kernel.closed == Held(x.slot) + x.kernel.closed + Between(x.kernel.made, y.kernel.made)
  }

  lemma BetweenStep(a: nat, b: nat)
    ensures b <= a ==> Between(a, b) == multiset{}
    ensures b > a ==> Between(a, b) == Between(a, b - 1) + multiset{b - 1}
  {}

  lemma {:induction false} BetweenJoin(a: nat, b: nat, c: nat)
    requires a <= b <= c
    ensures Between(a, c) == Between(a, b) + Between(b, c)
  {
    hide Between;
    BetweenStep(b, c);
    BetweenStep(a, c);
    if b < c {
      BetweenJoin(a, b, c - 1);
      Associate(Between(a, b), Between(b, c - 1), multiset{c - 1});
    }
  }

  lemma Associate(a: multiset<nat>, b: multiset<nat>, c: multiset<nat>)
    ensures (a + b) + c == a + (b + c)
  {}

  lemma BalancedTwice(x: State, y: State, z: State)
    requires Balanced(x, y) && Balanced(y, z)
    ensures Balanced(x, z)
  {
    BetweenJoin(x.kernel.made, y.kernel.made, z.kernel.made);
    hide Held, Between;
  }

  lemma SameBalanced(x: State, y: State)
    requires Held(x.slot) + x.kernel.closed == Held(y.slot) + y.kernel.closed && x.kernel.made == y.kernel.made
    ensures Balanced(x, y)
  {
    OpenedOne(x.kernel.made);
    hide Held, Between;
  }

  lemma OpenedOne(a: nat)
    ensures Between(a, a + 1) == multiset{a} && Between(a, a) == multiset{}
  {}

  lemma ClosesOne(k: Kernel, fd: int)
    ensures Closes(k, fd).closed == k.closed + One(fd) && Closes(k, fd).made == k.made
  {}

  lemma RestoresNone(k: Kernel, s: Slot, works: bool)
    ensures Restores(k, s, works).closed == k.closed && Restores(k, s, works).made == k.made
  {}

  lemma AllFour(c: multiset<nat>, a: multiset<nat>, s: multiset<nat>, r: multiset<nat>, z: multiset<nat>)
    ensures c + s + r + a + z == (a + s + r + z) + c
  {}

  lemma ReleaseBalanced(x: State, works: bool)
    ensures Balanced(x, Release(x, works))
  {
    hide Restores, Closes, Balanced, One;
    var s, y := x.slot, Release(x, works);
    var k := Restores(x.kernel, s, works);
    RestoresNone(x.kernel, s, works);
    ClosesOne(k, s.socket);
    ClosesOne(Closes(k, s.socket), s.returned);
    ClosesOne(Closes(Closes(k, s.socket), s.returned), s.control);
    ClosesOne(Closes(Closes(Closes(k, s.socket), s.returned), s.control), s.authorization);
    AllFour(x.kernel.closed, One(s.control), One(s.socket), One(s.returned), One(s.authorization));
    HoldsNothing();
    SameBalanced(x, y);
  }

  lemma HoldsNothing()
    ensures Held(EMPTY) == multiset{}
  {}

  lemma OneMoves(c: multiset<nat>, a: multiset<nat>, s: multiset<nat>, r: multiset<nat>, z: multiset<nat>)
    ensures (a + s + r + multiset{}) + (c + z) == (a + s + r + z) + c
    ensures (a + s + multiset{} + multiset{}) + (c + z + r) == (a + s + r + z) + c
  {}

  lemma ReplyBalanced(x: State, success: bool, works: bool)
    ensures Balanced(x, Reply(x, success, works))
  {
    var s, y := x.slot, Reply(x, success, works);
    assert One(-1) == multiset{};
    hide Restores, Closes, Balanced, One;
    var c := Closes(x.kernel, s.authorization);
    var k := Restores(c, s, works);
    ClosesOne(x.kernel, s.authorization);
    RestoresNone(c, s, works);
    ClosesOne(k, s.returned);
    OneMoves(x.kernel.closed, One(s.control), One(s.socket), One(s.returned), One(s.authorization));
    SameBalanced(x, y);
  }

  /** A new descriptor goes into an empty field of the slot. */
  lemma TakeOne(x: State, y: State)
    requires y.kernel.made == x.kernel.made + 1 && y.kernel.closed == x.kernel.closed
    requires Held(y.slot) == Held(x.slot) + multiset{x.kernel.made}
    ensures Balanced(x, y)
  {
    OpenedOne(x.kernel.made);
    hide Held, Between;
  }

  lemma Returns(x: State)
    requires x.slot.returned < 0
    ensures Balanced(x, x.(slot := x.slot.(returned := x.kernel.made), kernel := Opens(x.kernel)))
  {
    hide Balanced;
    TakeOne(x, x.(slot := x.slot.(returned := x.kernel.made), kernel := Opens(x.kernel)));
  }

  lemma AcceptBalanced(x: State, a: Answer, works: bool)
    requires x.slot.returned < 0
    ensures Balanced(x, AcceptTcp(x, a, works))
  {
    var y := x.(slot := x.slot.(returned := x.kernel.made), kernel := Opens(x.kernel));
    Returns(x);
    SameBalanced(x, x.(slot := x.slot.(phase := Accepting)));
    SameBalanced(x, x);
    hide Reply, Balanced, Opens;
    ReplyOf(x, x, works);
    ReplyOf(x, y, works);
  }

  lemma BeginBalanced(y: State)
    ensures Balanced(y, BeginNonblocking(y)) && BeginNonblocking(y).slot.returned == y.slot.returned
  {
    hide Balanced;
    SameBalanced(y, BeginNonblocking(y));
  }

  lemma ConnectBalanced(y: State, a: Answer, works: bool)
    requires y.slot.returned < 0
    ensures var z := BeginNonblocking(y);
      && Balanced(y, Reply(z, true, works)) && Balanced(y, Reply(z, false, works)) && Balanced(y, AcceptTcp(z, a, works))
      && Balanced(y, z.(slot := z.slot.(phase := Connecting)))
  {
    var z := BeginNonblocking(y);
    BeginBalanced(y);
    hide Reply, Balanced, AcceptTcp, BeginNonblocking;
    SameBalanced(z, z.(slot := z.slot.(phase := Connecting)));
    BalancedTwice(y, z, z.(slot := z.slot.(phase := Connecting)));
    ReplyOf(y, z, works);
    AcceptBalanced(z, a, works);
    BalancedTwice(y, z, AcceptTcp(z, a, works));
  }

  lemma LogBalanced(x: State)
    ensures Balanced(x, Logged(x)) && Balanced(x, x)
  {
    hide Balanced;
    SameBalanced(x, Logged(x));
    SameBalanced(x, x);
  }

  lemma ExecuteBalanced(x: State, a: Answer, works: bool)
    requires x.slot.returned < 0
    ensures Balanced(x, Execute(x, a, works))
  {
    hide Balanced, Reply, AcceptTcp, BeginNonblocking, Opens;
    LogBalanced(x);
    var y := Logged(x);
    ReplyOf(x, x, works);
    ReplyOf(x, y, works);
    if a.valid && (a.kind == Make) == (x.slot.socket < 0) {
      var z := BeginNonblocking(y);
      match a.kind {
        case Make =>
          var n := y.(slot := y.slot.(returned := y.kernel.made), kernel := Opens(y.kernel));
          Returns(y);
          BalancedTwice(x, y, n);
          ReplyOf(x, n, works);
        case Plain =>
        case Connect =>
          ConnectBalanced(y, a, works);
          BalancedTwice(x, y, Reply(z, true, works));
          BalancedTwice(x, y, Reply(z, false, works));
          BalancedTwice(x, y, z.(slot := z.slot.(phase := Connecting)));
        case Accept =>
          ConnectBalanced(y, a, works);
          BalancedTwice(x, y, AcceptTcp(z, a, works));
      }
    }
  }

  lemma ReplyOf(x: State, y: State, works: bool)
    requires Balanced(x, y)
    ensures Balanced(x, Reply(y, true, works)) && Balanced(x, Reply(y, false, works))
  {
    hide Reply, Balanced;
    ReplyBalanced(y, true, works);
    ReplyBalanced(y, false, works);
    BalancedTwice(x, y, Reply(y, true, works));
    BalancedTwice(x, y, Reply(y, false, works));
  }

  lemma {:induction false} ItemsSlot(x: State, items: seq<Item>, invalid: bool)
    ensures var y := TakeItems(x, items, invalid).x; y.slot == x.slot.(socket := y.slot.socket) && y.log == x.log
  {
    if items != [] {
      hide Opens, Closes, Describes;
      ItemsSlot(x, items[..|items| - 1], invalid);
    }
  }

  lemma ItemBalanced(t: Taken, item: Item)
    ensures Balanced(t.x, TakeItem(t, item).x)
  {
    OpenedOne(t.x.kernel.made);
    if item.Right? && t.x.slot.socket < 0 && !t.invalid {
      TakeOne(t.x, TakeItem(t, item).x);
    }
  }

  lemma {:induction false} ItemsBalanced(x: State, items: seq<Item>, invalid: bool)
    ensures Balanced(x, TakeItems(x, items, invalid).x)
  {
    hide Balanced, TakeItem;
    if items == [] {
      LogBalanced(x);
    } else {
      ItemsBalanced(x, items[..|items| - 1], invalid);
      var t := TakeItems(x, items[..|items| - 1], invalid);
      ItemBalanced(t, items[|items| - 1]);
      BalancedTwice(x, t.x, TakeItems(x, items, invalid).x);
    }
  }

  lemma RegisterBalanced(x: State, broker: bool, begins: bool, works: bool)
    requires x.slot.authorization < 0
    ensures Balanced(x, Register(x, broker, begins, works))
  {
    hide Balanced;
    ReplyBalanced(x, false, works);
    hide Reply;
    if begins {
      TakeOne(x, Register(x, broker, begins, works));
    }
  }

  /** Before a slot replies it returns nothing, and it asks the agent for one
      acknowledgement at a time. */
  predicate Idle(s: Slot) {
    && (s.phase != Sending && s.phase != Acknowledging ==> s.returned < 0)
    && (s.phase == Receiving ==> s.authorization < 0)
    && (s.control < 0 ==> s == EMPTY)
  }

  lemma ReceivesBalanced(x: State, agent: bool, op: Op, works: bool)
    requires op.Receive? && x.slot.returned < 0 && x.slot.authorization < 0
    ensures Balanced(x, Receives(x, agent, op, works))
  {
    hide Release, Reply, Execute, Register, TakeItems, Balanced;
    var y := TakeItems(x, op.items, !op.intact).x;
    ItemsBalanced(x, op.items, !op.intact);
    ItemsSlot(x, op.items, !op.intact);
    ReleaseBalanced(y, works);
    BalancedTwice(x, y, Release(y, works));
    ReplyOf(x, y, works);
    ExecuteBalanced(y, op.answer, works);
    BalancedTwice(x, y, Execute(y, op.answer, works));
    RegisterBalanced(y, true, op.begins, works);
    BalancedTwice(x, y, Register(y, true, op.begins, works));
  }

  lemma ProgressesBalanced(x: State, op: Op, works: bool)
    requires op.Progress? && x.slot.returned < 0 && x.slot.authorization >= 0
    ensures Balanced(x, Progresses(x, op, works))
  {
    AckBalanced(x);
    SameBalanced(x, x);
    hide Reply, Execute, Register, Balanced;
    var y := Acknowledged(x);
    ReplyOf(x, x, works);
    RegisterBalanced(y, false, op.begins, works);
    BalancedTwice(x, y, Register(y, false, op.begins, works));
    ExecuteBalanced(y, op.answer, works);
    BalancedTwice(x, y, Execute(y, op.answer, works));
  }

  lemma AckBalanced(x: State)
    requires x.slot.authorization >= 0
    ensures Balanced(x, Acknowledged(x))
  {
    OpenedOne(x.kernel.made);
  }

  lemma StepBalanced(x: State, agent: bool, op: Op, works: bool)
    requires Idle(x.slot)
    ensures Balanced(x, Step(x, agent, op, works))
  {
    hide Release, Reply, Receives, Progresses, AcceptTcp, Balanced;
    var s := x.slot;
    ReleaseBalanced(x, works);
    SameBalanced(x, x);
    ReplyOf(x, x, works);
    if s.control >= 0 {
      match op {
        case Receive(_, _, _, _, _, _) => if s.phase == Receiving { ReceivesBalanced(x, agent, op, works); }
        case Progress(_, _, _) =>
          if s.phase == Authorizing && s.authorization >= 0 {
            ProgressesBalanced(x, op, works);
          }
        case Ready(answer) =>
          if s.phase == Accepting {
            LogBalanced(x);
            AcceptBalanced(Logged(x), answer, works);
            BalancedTwice(x, Logged(x), AcceptTcp(Logged(x), answer, works));
          }
        case Send(_, _) => SameBalanced(x, x.(slot := s.(phase := Acknowledging)));
        case _ =>
      }
    }
  }

  // ---------------------------------------------------------------------- flags

  /** Every description has its first flag, except those a slot has made
      nonblocking for now, and those whose restoring call failed. */
  ghost predicate Flags(k: Kernel, loose: set<nat>) {
    && |k.home| == |k.blocking|
    && (forall fd :: fd in k.received ==> fd < k.made && k.received[fd] < |k.blocking|)
    && (forall d :: d in loose ==> d < |k.blocking|) && (forall d :: d in k.stuck ==> d < |k.blocking|)
    && (forall d :: 0 <= d < |k.blocking| ==> FlagAt(k, loose, d))
  }

  ghost predicate FlagAt(k: Kernel, loose: set<nat>, d: nat)
    requires d < |k.blocking| == |k.home|
  {
    if d in loose then k.home[d] && !k.blocking[d] && d !in k.stuck
    else if d in k.stuck then k.home[d] && !k.blocking[d]
    else k.blocking[d] == k.home[d]
  }

  /** The description a slot has made nonblocking. */
  function Loose(received: map<nat, nat>, s: Slot): set<nat> {
    var d := Behind(received, s); if s.changed && d >= 0 then {d as nat} else {}
  }

  /** Descriptions stay behind their sockets. */
  ghost predicate Grows(a: map<nat, nat>, b: map<nat, nat>) { forall fd :: fd in a ==> fd in b && b[fd] == a[fd] }

  /** The slot's socket came from a peer, and a description it has made
      nonblocking is none of the others'. */
  ghost predicate OwnSocket(x: State, others: set<nat>) {
    && (x.slot.socket >= 0 ==> x.slot.socket in x.kernel.received)
    && (x.slot.changed ==> x.slot.socket >= 0) && Loose(x.kernel.received, x.slot) !! others
    && Flags(x.kernel, others + Loose(x.kernel.received, x.slot))
  }

  lemma RestoresFlags(k: Kernel, s: Slot, works: bool, others: set<nat>)
    requires Flags(k, others + Loose(k.received, s)) && Loose(k.received, s) !! others
    ensures Flags(Restores(k, s, works), others)
    ensures Restores(k, s, works).received == k.received && Restores(k, s, works).made == k.made
  {
    var r := Restores(k, s, works);
    forall d | 0 <= d < |r.blocking| ensures FlagAt(r, others, d) {
      assert FlagAt(k, others + Loose(k.received, s), d);
    }
  }

  lemma ClosesFlags(k: Kernel, fd: int, loose: set<nat>)
    requires Flags(k, loose)
    ensures Flags(Closes(k, fd), loose) && Closes(k, fd).received == k.received && Closes(k, fd).made == k.made
  {
    var r := Closes(k, fd);
    forall d | 0 <= d < |r.blocking| ensures FlagAt(r, loose, d) {
      assert FlagAt(k, loose, d);
    }
  }

  lemma OpensFlags(k: Kernel, loose: set<nat>)
    requires Flags(k, loose)
    ensures Flags(Opens(k), loose) && Opens(k).received == k.received
  {
    forall d | 0 <= d < |k.blocking| ensures FlagAt(Opens(k), loose, d) {
      assert FlagAt(k, loose, d);
    }
  }

  lemma ReleaseFlags(x: State, works: bool, others: set<nat>)
    requires OwnSocket(x, others)
    ensures OwnSocket(Release(x, works), others) && Release(x, works).kernel.received == x.kernel.received
  {
    hide Flags, Restores, Closes;
    var s := x.slot;
    var k := Restores(x.kernel, s, works);
    RestoresFlags(x.kernel, s, works, others);
    ClosesFlags(k, s.socket, others);
    ClosesFlags(Closes(k, s.socket), s.returned, others);
    ClosesFlags(Closes(Closes(k, s.socket), s.returned), s.control, others);
    ClosesFlags(Closes(Closes(Closes(k, s.socket), s.returned), s.control), s.authorization, others);
    assert others + Loose(x.kernel.received, EMPTY) == others;
  }

  lemma ReplyFlags(x: State, success: bool, works: bool, others: set<nat>)
    requires OwnSocket(x, others)
    ensures OwnSocket(Reply(x, success, works), others) && Reply(x, success, works).kernel.received == x.kernel.received
  {
    hide Flags, Restores, Closes;
    var s, r := x.slot, x.kernel.received;
    var c := Closes(x.kernel, s.authorization);
    ClosesFlags(x.kernel, s.authorization, others + Loose(r, s));
    RestoresFlags(c, s, works, others);
    ClosesFlags(Restores(c, s, works), s.returned, others);
    assert others + Loose(r, Reply(x, success, works).slot) == others;
  }

  /** A flag found blocking is nobody's: the slot now has it alone. */
  lemma BeginFlags(x: State, others: set<nat>)
    requires OwnSocket(x, others) && !x.slot.changed
    ensures OwnSocket(BeginNonblocking(x), others) && BeginNonblocking(x).kernel.received == x.kernel.received
  {
    var y := BeginNonblocking(x);
    var k, r := x.kernel, x.kernel.received;
    assert others + Loose(r, x.slot) == others;
    if y.slot.changed {
      var d := Behind(r, x.slot);
      assert FlagAt(k, others, d);
      assert others + Loose(r, y.slot) == others + {d};
      forall c | 0 <= c < |k.blocking| ensures FlagAt(y.kernel, others + {d}, c) {
        assert FlagAt(k, others, c);
      }
    }
  }

  /** A slot's own fields other than its socket do not matter to the flags. */
  lemma OpenFlags(x: State, y: State, others: set<nat>)
    requires OwnSocket(x, others) && y.kernel == Opens(x.kernel)
    requires y.slot.socket == x.slot.socket && y.slot.changed == x.slot.changed
    ensures OwnSocket(y, others)
  {
    hide Flags;
    OpensFlags(x.kernel, others + Loose(x.kernel.received, x.slot));
  }

  lemma AcceptFlags(x: State, a: Answer, works: bool, others: set<nat>)
    requires OwnSocket(x, others)
    ensures OwnSocket(AcceptTcp(x, a, works), others) && AcceptTcp(x, a, works).kernel.received == x.kernel.received
  {
    var y := x.(slot := x.slot.(returned := x.kernel.made), kernel := Opens(x.kernel));
    OpenFlags(x, y, others);
    ReplyFlags(y, a.configured, works, others);
    ReplyFlags(x, false, works, others);
    hide Flags, Reply, Loose;
    assert Behind(x.kernel.received, x.slot.(phase := Accepting)) == Behind(x.kernel.received, x.slot);
    PhaseFlags(x, Accepting, others);
  }

  lemma PhaseFlags(x: State, phase: Phase, others: set<nat>)
    requires OwnSocket(x, others)
    ensures OwnSocket(x.(slot := x.slot.(phase := phase)), others)
  {
    hide Flags;
  }

  lemma ExecuteFlags(x: State, a: Answer, works: bool, others: set<nat>)
    requires OwnSocket(x, others) && !x.slot.changed
    ensures OwnSocket(Execute(x, a, works), others) && Execute(x, a, works).kernel.received == x.kernel.received
  {
    var y := Logged(x);
    hide Flags, Reply, AcceptTcp, Loose, BeginNonblocking;
    ReplyFlags(x, false, works, others);
    ReplyFlags(y, true, works, others);
    ReplyFlags(y, false, works, others);
    var n := y.(slot := y.slot.(returned := y.kernel.made), kernel := Opens(y.kernel));
    OpenFlags(y, n, others);
    ReplyFlags(n, a.configured, works, others);
    var z := BeginNonblocking(y);
    BeginFlags(y, others);
    PhaseFlags(z, Connecting, others);
    ReplyFlags(z, true, works, others);
    ReplyFlags(z, false, works, others);
    AcceptFlags(z, a, works, others);
  }

  lemma ItemFlags(t: Taken, item: Item, others: set<nat>)
    requires OwnSocket(t.x, others) && !t.x.slot.changed
    ensures var z := TakeItem(t, item).x; OwnSocket(z, others) && Grows(t.x.kernel.received, z.kernel.received)
  {
    var y, z := t.x, TakeItem(t, item).x;
    assert others + Loose(y.kernel.received, y.slot) == others == others + Loose(z.kernel.received, z.slot);
    if item.Right? {
      var k := Opens(y.kernel);
      OpensFlags(y.kernel, others);
      ClosesFlags(k, y.kernel.made, others);
      DescribesFlags(k, y.kernel.made, item.of, item.blocks, others);
    }
  }

  lemma DescribesFlags(k: Kernel, fd: nat, of: int, blocks: bool, others: set<nat>)
    requires Flags(k, others) && fd < k.made
    ensures Flags(Describes(k, fd, of, blocks), others) && fd in Describes(k, fd, of, blocks).received
  {
    var r := Describes(k, fd, of, blocks);
    forall d | 0 <= d < |r.blocking| ensures FlagAt(r, others, d) {
      if d < |k.blocking| {
        assert FlagAt(k, others, d);
        assert r.blocking[d] == k.blocking[d] && r.home[d] == k.home[d];
      } else {
        assert d !in others && d !in k.stuck;
      }
    }
  }

  lemma {:induction false} ItemsFlags(x: State, items: seq<Item>, invalid: bool, others: set<nat>)
    requires OwnSocket(x, others) && !x.slot.changed
    ensures var y := TakeItems(x, items, invalid).x; OwnSocket(y, others) && Grows(x.kernel.received, y.kernel.received)
  {
    hide OwnSocket, TakeItem;
    if items != [] {
      ItemsFlags(x, items[..|items| - 1], invalid, others);
      ItemsSlot(x, items[..|items| - 1], invalid);
      ItemFlags(TakeItems(x, items[..|items| - 1], invalid), items[|items| - 1], others);
    }
  }

  lemma RegisterFlags(x: State, broker: bool, begins: bool, works: bool, others: set<nat>)
    requires OwnSocket(x, others)
    ensures OwnSocket(Register(x, broker, begins, works), others) && Register(x, broker, begins, works).kernel.received == x.kernel.received
  {
    hide OwnSocket, Reply;
    ReplyFlags(x, false, works, others);
    if begins {
      OpenFlags(x, Register(x, broker, begins, works), others);
    }
  }

  /** A slot has changed a flag exactly while its call waits. */
  predicate Settled(s: Slot) { s.changed <==> s.phase == Connecting || s.phase == Accepting }

  lemma ReceivesFlags(x: State, agent: bool, op: Op, works: bool, others: set<nat>)
    requires op.Receive? && OwnSocket(x, others) && !x.slot.changed
    ensures var y := Receives(x, agent, op, works); OwnSocket(y, others) && Grows(x.kernel.received, y.kernel.received)
  {
    hide Release, Reply, Execute, Register, TakeItems, OwnSocket;
    var y := TakeItems(x, op.items, !op.intact).x;
    ItemsFlags(x, op.items, !op.intact, others);
    ItemsSlot(x, op.items, !op.intact);
    ReleaseFlags(y, works, others);
    ReplyFlags(y, false, works, others);
    ExecuteFlags(y, op.answer, works, others);
    RegisterFlags(y, true, op.begins, works, others);
  }

  lemma ProgressesFlags(x: State, op: Op, works: bool, others: set<nat>)
    requires op.Progress? && OwnSocket(x, others) && !x.slot.changed
    ensures var y := Progresses(x, op, works); OwnSocket(y, others) && Grows(x.kernel.received, y.kernel.received)
  {
    hide Reply, Execute, Register, OwnSocket;
    AckFlags(x, others);
    var y := Acknowledged(x);
    ReplyFlags(x, false, works, others);
    RegisterFlags(y, false, op.begins, works, others);
    ExecuteFlags(y, op.answer, works, others);
  }

  lemma AckFlags(x: State, others: set<nat>)
    requires OwnSocket(x, others)
    ensures OwnSocket(Acknowledged(x), others) && Acknowledged(x).kernel.received == x.kernel.received
  {
    hide Flags;
    ClosesFlags(x.kernel, x.slot.authorization, others + Loose(x.kernel.received, x.slot));
  }

  lemma LogFlags(x: State, others: set<nat>)
    requires OwnSocket(x, others)
    ensures OwnSocket(Logged(x), others)
  {
    hide Flags;
  }

  lemma StepFlags(x: State, agent: bool, op: Op, works: bool, others: set<nat>)
    requires OwnSocket(x, others) && Settled(x.slot)
    ensures var y := Step(x, agent, op, works); OwnSocket(y, others) && Grows(x.kernel.received, y.kernel.received)
  {
    hide Release, Reply, Receives, Progresses, AcceptTcp, OwnSocket, Logged;
    ReleaseFlags(x, works, others);
    ReplyFlags(x, false, works, others);
    ReplyFlags(x, true, works, others);
    PhaseFlags(x, Acknowledging, others);
    LogFlags(x, others);
    match op {
      case Receive(_, _, _, _, _, _) => if x.slot.phase == Receiving { ReceivesFlags(x, agent, op, works, others); }
      case Progress(_, _, _) => if x.slot.phase == Authorizing { ProgressesFlags(x, op, works, others); }
      case Ready(answer) => AcceptFlags(Logged(x), answer, works, others); LogKernel(x);
      case _ =>
    }
  }

  lemma LogKernel(x: State)
    ensures Logged(x).kernel == x.kernel && Logged(x).slot == x.slot
  {}

  // ------------------------------------------------------- phases and deadlines

  function Fully(s: Slot): seq<Ack> { [BrokerAck, PeerAck(s.pid, s.birth)] }

  /** The agent is asked for the broker first, then for the peer; only then does a
      call wait on a socket. */
  predicate Acked(s: Slot, agent: bool) {
    && (s.phase == Receiving ==> s.acks == [])
    && (s.phase == Authorizing && s.authorizingBroker ==> s.acks == [] && s.asked == BrokerAck)
    && (s.phase == Authorizing && !s.authorizingBroker ==> s.acks == [BrokerAck] && s.asked == PeerAck(s.pid, s.birth))
    && (agent && (s.phase == Connecting || s.phase == Accepting) ==> s.acks == Fully(s))
  }

  predicate SlotInv(s: Slot, agent: bool) { Idle(s) && Settled(s) && Acked(s, agent) }

  /** A step keeps whom the slot serves and until when, or frees it. */
  predicate Keeps(s: Slot, t: Slot) {
    t == EMPTY || (t.control == s.control && t.deadline == s.deadline && t.pid == s.pid && t.birth == s.birth)
  }

  ghost predicate Authorized(log: seq<Execution>) {
    forall i :: 0 <= i < |log| ==> log[i].acks == [BrokerAck, PeerAck(log[i].pid, log[i].birth)]
  }

  /** What an operation may do to a slot and the log, whatever its phase was. */
  ghost predicate Proceeds(x: State, y: State, agent: bool) {
    SlotInv(y.slot, agent) && Keeps(x.slot, y.slot) && (agent && Authorized(x.log) ==> Authorized(y.log))
  }

  lemma ReplySlot(x: State, success: bool, works: bool, agent: bool)
    requires x.slot.control >= 0
    ensures Proceeds(x, Reply(x, success, works), agent) && Reply(x, success, works).log == x.log
  {
    hide Restores, Closes, Authorized;
  }

  lemma ReleaseSlot(x: State, works: bool, agent: bool)
    ensures Release(x, works).slot == EMPTY && Proceeds(x, Release(x, works), agent)
  {
    hide Restores, Closes, Authorized;
  }

  lemma AcceptSlot(x: State, a: Answer, works: bool, agent: bool)
    requires x.slot.control >= 0 && x.slot.returned < 0 && (agent ==> x.slot.acks == Fully(x.slot))
    ensures Proceeds(x, AcceptTcp(x, a, works), agent) && AcceptTcp(x, a, works).log == x.log
  {
    var y := x.(slot := x.slot.(returned := x.kernel.made), kernel := Opens(x.kernel));
    ReplySlot(y, a.configured, works, agent);
    ReplySlot(x, false, works, agent);
    hide Reply, Authorized;
  }

  lemma LogAuthorized(x: State, agent: bool)
    requires agent ==> x.slot.acks == Fully(x.slot)
    ensures agent && Authorized(x.log) ==> Authorized(Logged(x).log)
  {}

  lemma BeginSlot(y: State)
    ensures BeginNonblocking(y).slot == y.slot.(changed := BeginNonblocking(y).slot.changed) && BeginNonblocking(y).log == y.log
  {}

  lemma ConnectSlot(y: State, a: Answer, works: bool, agent: bool)
    requires y.slot.control >= 0 && y.slot.returned < 0 && (agent ==> y.slot.acks == Fully(y.slot))
    ensures var z := BeginNonblocking(y);
      && Proceeds(y, Reply(z, true, works), agent) && Proceeds(y, Reply(z, false, works), agent)
      && Proceeds(y, AcceptTcp(z, a, works), agent)
      && (z.slot.changed ==> Proceeds(y, z.(slot := z.slot.(phase := Connecting)), agent))
  {
    var z := BeginNonblocking(y);
    BeginSlot(y);
    hide Reply, AcceptTcp, BeginNonblocking, Authorized;
    ReplySlot(z, true, works, agent);
    ReplySlot(z, false, works, agent);
    AcceptSlot(z, a, works, agent);
  }

  lemma FromLogged(x: State, n: State, z: State, agent: bool)
    requires Proceeds(n, z, agent) && (agent ==> x.slot.acks == Fully(x.slot))
    requires n.slot == x.slot.(returned := n.slot.returned) && n.log == Logged(x).log
    ensures Proceeds(x, z, agent)
  {
    LogAuthorized(x, agent);
    hide Authorized, SlotInv;
  }

  lemma ExecuteSlot(x: State, a: Answer, works: bool, agent: bool)
    requires x.slot.control >= 0 && x.slot.returned < 0 && (agent ==> x.slot.acks == Fully(x.slot))
    ensures Proceeds(x, Execute(x, a, works), agent)
  {
    var y := Logged(x);
    hide Reply, AcceptTcp, BeginNonblocking, Opens, Proceeds;
    ReplySlot(x, false, works, agent);
    if a.valid && (a.kind == Make) == (x.slot.socket < 0) {
      match a.kind {
        case Make =>
          var n := y.(slot := y.slot.(returned := y.kernel.made), kernel := Opens(y.kernel));
          ReplySlot(y, false, works, agent);
          ReplySlot(n, a.configured, works, agent);
          FromLogged(x, if a.gives then n else y, Execute(x, a, works), agent);
        case Plain =>
          ReplySlot(y, a.success, works, agent);
          FromLogged(x, y, Execute(x, a, works), agent);
        case _ =>
          ReplySlot(y, false, works, agent);
          ConnectSlot(y, a, works, agent);
          FromLogged(x, y, Execute(x, a, works), agent);
      }
    }
  }

  lemma RegisterSlot(x: State, broker: bool, begins: bool, works: bool, agent: bool)
    requires x.slot.control >= 0 && x.slot.returned < 0 && !x.slot.changed && x.slot.acks == if broker then [] else [BrokerAck]
    ensures Proceeds(x, Register(x, broker, begins, works), agent)
  {
    ReplySlot(x, false, works, agent);
    hide Reply, Authorized;
  }

  lemma ReceivesSlot(x: State, agent: bool, op: Op, works: bool)
    requires op.Receive? && SlotInv(x.slot, agent) && x.slot.control >= 0 && x.slot.phase == Receiving
    ensures Proceeds(x, Receives(x, agent, op, works), agent)
  {
    hide Release, Reply, Execute, TakeItems, Register, Authorized;
    var y := TakeItems(x, op.items, !op.intact).x;
    ItemsSlot(x, op.items, !op.intact);
    ReleaseSlot(y, works, agent);
    ReplySlot(y, false, works, agent);
    if !agent {
      ExecuteSlot(y, op.answer, works, agent);
    }
    RegisterSlot(y, true, op.begins, works, agent);
  }

  lemma ProgressesSlot(x: State, agent: bool, op: Op, works: bool)
    requires op.Progress? && SlotInv(x.slot, agent) && x.slot.control >= 0 && x.slot.phase == Authorizing
    ensures Proceeds(x, Progresses(x, op, works), agent)
  {
    hide Reply, Execute, Register, Authorized, Closes;
    var y := Acknowledged(x);
    ReplySlot(x, false, works, agent);
    if x.slot.authorizingBroker {
      assert y.slot.acks == [BrokerAck];
      RegisterSlot(y, false, op.begins, works, agent);
    } else {
      assert y.slot.acks == Fully(y.slot);
      ExecuteSlot(y, op.answer, works, agent);
    }
  }

  /** Every step keeps the phases in order; with an agent configured it performs
      socket operations, retried ones too, only for a peer that was acknowledged
      after the broker. */
  lemma StepSlot(x: State, agent: bool, op: Op, works: bool)
    requires SlotInv(x.slot, agent)
    ensures Proceeds(x, Step(x, agent, op, works), agent)
  {
    hide Release, Reply, Receives, Progresses, AcceptTcp, Authorized;
    if x.slot.control >= 0 {
      match op {
        case Receive(_, _, _, _, _, _) => if x.slot.phase == Receiving { ReceivesSlot(x, agent, op, works); }
        case Progress(_, _, _) => if x.slot.phase == Authorizing { ProgressesSlot(x, agent, op, works); }
        case Ready(answer) => ReadySlot(x, agent, answer, works);
        case _ => ReleaseSlot(x, works, agent);
      }
    }
  }

  lemma ReadySlot(x: State, agent: bool, answer: Answer, works: bool)
    requires SlotInv(x.slot, agent) && x.slot.control >= 0
    ensures Proceeds(x, Step(x, agent, Ready(answer), works), agent)
  {
    hide Reply, AcceptTcp;
    ReplySlot(x, answer.success, works, agent);
    if x.slot.phase == Accepting {
      LogAuthorized(x, agent);
      hide Authorized;
      AcceptSlot(Logged(x), answer, works, agent);
    }
  }

  // ------------------------------------------------------------- who must wait

  /** A call that would have to wait is answered instead, exactly when it finds
      the description's flag nonblocking. */
  lemma WaitsExactly(x: State, a: Answer, works: bool)
    requires a.valid && a.flags && a.waits && !a.gives && !a.success && (a.kind == Accept || a.kind == Connect)
    requires x.slot.socket >= 0 && x.slot.socket in x.kernel.received && x.kernel.received[x.slot.socket] < |x.kernel.blocking|
    requires !x.slot.changed
    ensures var y, d := Execute(x, a, works), x.kernel.received[x.slot.socket];
      && (y.slot.phase == Sending <==> !x.kernel.blocking[d])
      && (y.slot.phase == (if a.kind == Accept then Accepting else Connecting) <==> x.kernel.blocking[d])
  {
    hide Restores, Closes;
  }
}
