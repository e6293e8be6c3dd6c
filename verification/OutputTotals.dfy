/** All output queues together: payloads shared by reference count, and the
    daemon-wide byte and frame totals. */
module OutputTotals {
  import Q = OutputQueue

  const TOTAL_BYTES: nat := 64 * 1024 * 1024
  const TOTAL_FRAMES: nat := 16384

  /** `held` counts the references callers own besides the queued frames. */
  datatype Message = Message(data: seq<Q.Byte>, references: int, held: nat)

  datatype Hub = Hub(queues: seq<Q.Queue>, messages: seq<Message>, bytes: int, frames: int)

  datatype Op =
    | Create(data: seq<Q.Byte>, memory: bool)
    | Release(message: nat)
    | Open
    | Enqueue(queue: nat, message: nat, snapshot: bool, memory: bool, now: int)
    | Flush(queue: nat, budget: nat, outcome: Q.Outcome)
    | Reject(queue: nat)
    | Disconnect(queue: nat)

  function Init(): Hub { Hub([], [], 0, 0) }

  /** The queue operation an operation performs, if any. */
  function QueueOp(h: Hub, op: Op): Q.Op
    requires op.Enqueue? || op.Flush? || op.Reject? || op.Disconnect?
  {
    match op
    case Enqueue(k, m, snapshot, memory, now) =>
      Q.Enqueue(m, if m < |h.messages| then h.messages[m].data else [], snapshot, memory && Room(h, k, snapshot), now)
    case Flush(_, budget, outcome) => Q.Flush(budget, outcome)
    case Reject(_) => Q.Reject
    case Disconnect(_) => Q.Disconnect
  }

  /** The frame limit is checked after unsent snapshots have made way. */
  predicate Room(h: Hub, k: nat, snapshot: bool) {
    k < |h.queues| &&
    h.frames - (if snapshot && h.queues[k].open && !h.queues[k].failed then |Q.Gone(h.queues[k].frames)| else 0) < TOTAL_FRAMES
  }

  predicate Enabled(h: Hub, op: Op) {
    match op
    case Create(_, _) => true
    case Open => true
    case Release(m) => m < |h.messages| && h.messages[m].held > 0
    case Enqueue(k, m, _, _, _) =>
      k < |h.queues| && m < |h.messages| && h.messages[m].held > 0 && Q.Enabled(h.queues[k], QueueOp(h, op))
    case Flush(k, _, _) => k < |h.queues| && Q.Enabled(h.queues[k], QueueOp(h, op))
    case Reject(k) => k < |h.queues|
    case Disconnect(k) => k < |h.queues|
  }

  function Apply(h: Hub, op: Op): Hub {
    if !Enabled(h, op) then h
    else match op
      case Create(data, memory) =>
        if data == [] || |data| > Q.CLIENT_BYTES || |data| > TOTAL_BYTES - h.bytes || !memory then h
        else h.(messages := h.messages + [Message(data, 1, 1)], bytes := h.bytes + |data|)
      case Release(m) =>
        Drop(h.(messages := h.messages[m := h.messages[m].(held := h.messages[m].held - 1)]), m)
      case Open => h.(queues := h.queues + [Q.Init()])
      case Enqueue(k, _, _, _, _) => OnQueue(h, k, QueueOp(h, op))
      case Flush(k, _, _) => OnQueue(h, k, QueueOp(h, op))
      case Reject(k) => OnQueue(h, k, QueueOp(h, op))
      case Disconnect(k) => OnQueue(h, k, QueueOp(h, op))
  }

  function Run(h: Hub, ops: seq<Op>): Hub {
    if ops == [] then h else Apply(Run(h, ops[..|ops| - 1]), ops[|ops| - 1])
  }

  /** `pm_output_message_release`: the last reference frees the payload. */
  function Drop(h: Hub, m: nat): Hub {
    if m >= |h.messages| then h
    else
      var x := h.messages[m];
      h.(messages := h.messages[m := x.(references := x.references - 1)],
         bytes := if x.references == 1 then h.bytes - |x.data| else h.bytes)
  }

  function DropAll(h: Hub, frames: seq<Q.Frame>): Hub {
    if frames == [] then h else Drop(DropAll(h, frames[..|frames| - 1]), frames[|frames| - 1].message)
  }

  /** The frames a queue operation removes. */
  function Removed(q: Q.Queue, op: Q.Op): seq<Q.Frame> {
    match op
    case Enqueue(_, _, snapshot, _, _) => if q.open && !q.failed && snapshot then Q.Gone(q.frames) else []
    case Flush(budget, outcome) =>
      if !q.failed && q.open && q.frames != [] && budget != 0 && outcome.Wrote? &&
         q.frames[0].offset + outcome.n == |q.frames[0].data|
      then [q.frames[0]] else []
    case Reject => []
    case Disconnect => q.frames
  }

  predicate Accepts(q: Q.Queue, op: Q.Op) {
    op.Enqueue? && q.open && !q.failed && !Q.Refuses(q, op.data, op.snapshot, op.room)
  }

  function OnQueue(h: Hub, k: nat, op: Q.Op): Hub
    requires k < |h.queues|
  {
    var q := h.queues[k];
    var gone := Removed(q, op);
    var g := DropAll(h, gone).(queues := h.queues[k := Q.Apply(q, op)], frames := h.frames - |gone|);
    if Accepts(q, op) && op.message < |g.messages| then
      g.(frames := g.frames + 1,
         messages := g.messages[op.message := g.messages[op.message].(references := g.messages[op.message].references + 1)])
    else g
  }

  // ---------------------------------------------------------------- invariants

  /** How many frames carry message `m`. */
  function Uses(frames: seq<Q.Frame>, m: nat): nat {
    if frames == [] then 0
    else Uses(frames[..|frames| - 1], m) + if frames[|frames| - 1].message == m then 1 else 0
  }

  function AllUses(queues: seq<Q.Queue>, m: nat): nat {
    if queues == [] then 0 else AllUses(queues[..|queues| - 1], m) + Uses(queues[|queues| - 1].frames, m)
  }

  function AllFrames(queues: seq<Q.Queue>): nat {
    if queues == [] then 0 else AllFrames(queues[..|queues| - 1]) + |queues[|queues| - 1].frames|
  }

  /** Bytes of the payloads something still refers to. */
  function LiveBytes(messages: seq<Message>): nat {
    if messages == [] then 0
    else
      var x := messages[|messages| - 1];
      LiveBytes(messages[..|messages| - 1]) + if x.references > 0 then |x.data| else 0
  }

  /** Every reference is a caller's or a frame's; frames use existing payloads. */
  ghost predicate Referenced(h: Hub) {
    forall m: nat ::
      if m < |h.messages| then h.messages[m].references == h.messages[m].held + AllUses(h.queues, m)
      else AllUses(h.queues, m) == 0
  }

  predicate Totals(h: Hub) {
    h.bytes == LiveBytes(h.messages) <= TOTAL_BYTES && h.frames == AllFrames(h.queues) <= TOTAL_FRAMES
  }

  ghost predicate Queues(h: Hub) {
    forall k :: 0 <= k < |h.queues| ==> Q.Inv(h.queues[k])
  }

  ghost predicate Inv(h: Hub) { Referenced(h) && Totals(h) && Queues(h) }

  // ------------------------------------------------------------- uses of a payload

  lemma UsesPush(frames: seq<Q.Frame>, x: Q.Frame, m: nat)
    ensures Uses(frames + [x], m) == Uses(frames, m) + if x.message == m then 1 else 0
  {
    assert (frames + [x])[..|frames|] == frames;
  }

  lemma {:induction false} UsesKept(frames: seq<Q.Frame>, m: nat)
    ensures Uses(Q.Kept(frames), m) + Uses(Q.Gone(frames), m) == Uses(frames, m)
  {
    if frames != [] {
      var n := |frames| - 1;
      UsesKept(frames[..n], m);
      UsesPush(Q.Kept(frames[..n]), frames[n], m);
      UsesPush(Q.Gone(frames[..n]), frames[n], m);
    }
  }

  lemma {:induction false} UsesFirst(frames: seq<Q.Frame>, m: nat)
    requires frames != []
    ensures Uses(frames, m) == (if frames[0].message == m then 1 else 0) + Uses(frames[1..], m)
  {
    var n := |frames| - 1;
    if n > 0 {
      UsesFirst(frames[..n], m);
      assert frames[1..] == frames[..n][1..] + [frames[n]];
      UsesPush(frames[..n][1..], frames[n], m);
    }
  }

  lemma UsesEnqueue(q: Q.Queue, op: Q.Op, m: nat)
    requires op.Enqueue? && Q.Enabled(q, op)
    ensures Uses(Q.Apply(q, op).frames, m) + Uses(Removed(q, op), m) ==
            Uses(q.frames, m) + if Accepts(q, op) && op.message == m then 1 else 0
    ensures |Q.Apply(q, op).frames| + |Removed(q, op)| == |q.frames| + if Accepts(q, op) then 1 else 0
  {
    UsesKept(q.frames, m);
    Q.KeptCounts(q.frames);
    hide Q.Kept, Q.Gone, Q.Earliest, Q.Settle, Q.Remaining;
    var deadline := if op.snapshot then Q.Earliest(Q.Gone(q.frames), op.now + Q.DEADLINE_MS) else op.now + Q.DEADLINE_MS;
    UsesPush(if op.snapshot then Q.Kept(q.frames) else q.frames,
             Q.Frame(|q.status|, op.message, op.data, 0, op.snapshot, deadline), m);
  }

  lemma UsesFlush(q: Q.Queue, op: Q.Op, m: nat)
    requires op.Flush? && Q.Enabled(q, op)
    ensures Uses(Q.Apply(q, op).frames, m) + Uses(Removed(q, op), m) == Uses(q.frames, m)
    ensures |Q.Apply(q, op).frames| + |Removed(q, op)| == |q.frames|
  {
    if !q.failed && q.open && q.frames != [] && op.budget != 0 && op.outcome.Wrote? {
      var next := q.frames[0 := Q.Advanced(q.frames[0], op.outcome.n)];
      assert next[1..] == q.frames[1..];
      UsesFirst(q.frames, m);
      UsesFirst(next, m);
      UsesPush([], q.frames[0], m);
      assert [] + [q.frames[0]] == [q.frames[0]];
    }
    hide Q.Settle;
  }

  /** Frames are removed, accepted and kept, never duplicated. */
  lemma QueueUses(q: Q.Queue, op: Q.Op, m: nat)
    requires Q.Enabled(q, op)
    ensures Uses(Q.Apply(q, op).frames, m) + Uses(Removed(q, op), m) ==
            Uses(q.frames, m) + if Accepts(q, op) && op.message == m then 1 else 0
    ensures |Q.Apply(q, op).frames| + |Removed(q, op)| == |q.frames| + if Accepts(q, op) then 1 else 0
  {
    hide Q.Refuses, Q.DoEnqueue, Q.DoFlush, Removed, Uses;
    match op {
      case Enqueue(_, _, _, _, _) => UsesEnqueue(q, op, m);
      case Flush(_, _) => UsesFlush(q, op, m);
      case Reject => UsesNone(q, m);
      case Disconnect => UsesNone(q, m);
    }
  }

  lemma UsesNone(q: Q.Queue, m: nat)
    ensures Uses([], m) == 0 && Removed(q, Q.Disconnect) == q.frames && Removed(q, Q.Reject) == []
  {}

  lemma {:induction false} AllUsesUpdate(queues: seq<Q.Queue>, k: nat, q: Q.Queue, m: nat)
    requires k < |queues|
    ensures AllUses(queues[k := q], m) == AllUses(queues, m) - Uses(queues[k].frames, m) + Uses(q.frames, m)
    ensures AllUses(queues, m) >= Uses(queues[k].frames, m)
    ensures AllFrames(queues[k := q]) == AllFrames(queues) - |queues[k].frames| + |q.frames|
  {
    var n := |queues| - 1;
    if k < n {
      AllUsesUpdate(queues[..n], k, q, m);
      assert queues[k := q][..n] == queues[..n][k := q];
    } else {
      assert queues[k := q][..n] == queues[..n];
    }
  }

  // ----------------------------------------------------------------- references

  function Live(x: Message): nat { if x.references > 0 then |x.data| else 0 }

  lemma {:induction false} LiveUpdate(messages: seq<Message>, m: nat, x: Message)
    requires m < |messages|
    ensures LiveBytes(messages[m := x]) == LiveBytes(messages) - Live(messages[m]) + Live(x)
  {
    var n := |messages| - 1;
    if m < n {
      LiveUpdate(messages[..n], m, x);
      assert messages[m := x][..n] == messages[..n][m := x];
    } else {
      assert messages[m := x][..n] == messages[..n];
    }
  }

  /** `b` is `a` with `uses(m)` references fewer, and its bytes still counted. */
  ghost predicate Dropped(a: Hub, frames: seq<Q.Frame>, b: Hub) {
    && |b.messages| == |a.messages| && b.queues == a.queues && b.frames == a.frames
    && b.bytes - LiveBytes(b.messages) == a.bytes - LiveBytes(a.messages) && b.bytes <= a.bytes
    && (forall m :: 0 <= m < |a.messages| ==>
          b.messages[m] == a.messages[m].(references := a.messages[m].references - Uses(frames, m)))
  }

  lemma DropOne(a: Hub, frames: seq<Q.Frame>, b: Hub, x: Q.Frame)
    requires Dropped(a, frames, b) && x.message < |a.messages|
    ensures Dropped(a, frames + [x], Drop(b, x.message))
  {
    var m := x.message;
    LiveUpdate(b.messages, m, b.messages[m].(references := b.messages[m].references - 1));
    forall n | 0 <= n < |a.messages| ensures Uses(frames + [x], n) == Uses(frames, n) + if m == n then 1 else 0 {
      UsesPush(frames, x, n);
    }
    hide Uses, LiveBytes;
  }

  lemma {:induction false} DropsAll(h: Hub, frames: seq<Q.Frame>)
    requires forall i :: 0 <= i < |frames| ==> frames[i].message < |h.messages|
    ensures Dropped(h, frames, DropAll(h, frames))
  {
    if frames != [] {
      var n := |frames| - 1;
      DropsAll(h, frames[..n]);
      assert frames == frames[..n] + [frames[n]];
      hide Dropped, Drop;
      DropOne(h, frames[..n], DropAll(h, frames[..n]), frames[n]);
    }
  }

  lemma {:induction false} UsesPositive(frames: seq<Q.Frame>, i: nat)
    requires i < |frames|
    ensures Uses(frames, frames[i].message) >= 1
  {
    if i < |frames| - 1 {
      UsesPositive(frames[..|frames| - 1], i);
    }
  }

  lemma RemovedKnown(h: Hub, k: nat, op: Q.Op)
    requires Referenced(h) && k < |h.queues| && Q.Enabled(h.queues[k], op)
    ensures forall i :: 0 <= i < |Removed(h.queues[k], op)| ==> Removed(h.queues[k], op)[i].message < |h.messages|
  {
    var q := h.queues[k];
    var gone := Removed(q, op);
    hide Removed, Uses, AllUses, Q.Apply, Accepts;
    forall i | 0 <= i < |gone| ensures gone[i].message < |h.messages| {
      var m := gone[i].message;
      UsesPositive(gone, i);
      QueueUses(q, op, m);
      AllUsesUpdate(h.queues, k, q, m);
    }
  }

  /** Callers enqueue only payloads they hold, and only while there is room. */
  predicate Proper(h: Hub, k: nat, op: Q.Op) {
    && k < |h.queues| && Q.Enabled(h.queues[k], op)
    && (op.Enqueue? ==>
          && op.message < |h.messages| && h.messages[op.message].held > 0
          && (op.room ==> h.frames - |Removed(h.queues[k], op)| < TOTAL_FRAMES))
  }

  /** The frame total after a queue operation. */
  lemma OnQueueFrames(h: Hub, k: nat, op: Q.Op)
    requires Totals(h) && Proper(h, k, op)
    ensures var g := OnQueue(h, k, op); g.frames == AllFrames(g.queues) <= TOTAL_FRAMES
  {
    var q := h.queues[k];
    hide AllFrames, LiveBytes, Removed, Q.Apply;
    DropAllKeeps(h, Removed(q, op));
    QueueUses(q, op, 0);
    AllUsesUpdate(h.queues, k, Q.Apply(q, op), 0);
  }

  lemma {:induction false} DropAllKeeps(h: Hub, frames: seq<Q.Frame>)
    ensures var g := DropAll(h, frames);
      |g.messages| == |h.messages| && g.queues == h.queues && g.frames == h.frames
  {
    if frames != [] {
      DropAllKeeps(h, frames[..|frames| - 1]);
    }
  }

  lemma OnQueueReference(h: Hub, k: nat, op: Q.Op, m: nat)
    requires Referenced(h) && Proper(h, k, op)
    ensures var g := OnQueue(h, k, op);
      && |g.messages| == |h.messages|
      && if m < |g.messages| then g.messages[m].references == g.messages[m].held + AllUses(g.queues, m)
         else AllUses(g.queues, m) == 0
  {
    var q := h.queues[k];
    var gone := Removed(q, op);
    RemovedKnown(h, k, op);
    DropsAll(h, gone);
    QueueUses(q, op, m);
    AllUsesUpdate(h.queues, k, Q.Apply(q, op), m);
    hide Uses, AllUses, AllFrames, LiveBytes, Removed, Q.Apply, Accepts, Q.Enabled, DropAll;
    var g := OnQueue(h, k, op);
    assert g.queues == h.queues[k := Q.Apply(q, op)];
  }

  /** A queue operation drops references; an accepted frame adds one. */
  lemma OnQueueMessages(h: Hub, k: nat, op: Q.Op)
    requires k < |h.queues|
    ensures var d, g := DropAll(h, Removed(h.queues[k], op)), OnQueue(h, k, op);
      && g.bytes == d.bytes
      && (g.messages == d.messages ||
          (op.Enqueue? && op.message < |d.messages| && g.messages ==
             d.messages[op.message := d.messages[op.message].(references := d.messages[op.message].references + 1)]))
  {
    hide DropAll, Removed, Q.Refuses, Q.Apply;
  }

  lemma OnQueueBytes(h: Hub, k: nat, op: Q.Op)
    requires Referenced(h) && Totals(h) && Proper(h, k, op)
    ensures var g := OnQueue(h, k, op); g.bytes == LiveBytes(g.messages) <= TOTAL_BYTES
  {
    assert k < |h.queues| && Q.Enabled(h.queues[k], op);
    assert op.Enqueue? ==> op.message < |h.messages| && h.messages[op.message].held > 0;
    hide Uses, AllUses, AllFrames, LiveBytes, Removed, Q.Enabled, DropAll, Referenced, OnQueue, Q.Apply;
    var gone := Removed(h.queues[k], op);
    RemovedKnown(h, k, op);
    DropsAll(h, gone);
    var d := DropAll(h, gone);
    OnQueueMessages(h, k, op);
    if op.Enqueue? {
      StillHeld(h, k, op);
      hide Proper;
      AnotherUse(h, gone, d, op.message);
    }
  }

  lemma AnotherUse(h: Hub, gone: seq<Q.Frame>, d: Hub, m: nat)
    requires Referenced(h) && Dropped(h, gone, d) && m < |h.messages| && h.messages[m].held > 0
    requires Uses(gone, m) <= AllUses(h.queues, m)
    ensures LiveBytes(d.messages[m := d.messages[m].(references := d.messages[m].references + 1)]) == LiveBytes(d.messages)
  {
    hide Uses, AllUses, LiveBytes;
    assert h.messages[m].references == h.messages[m].held + AllUses(h.queues, m);
    LiveUpdate(d.messages, m, d.messages[m].(references := d.messages[m].references + 1));
  }

  lemma StillHeld(h: Hub, k: nat, op: Q.Op)
    requires Referenced(h) && Proper(h, k, op) && op.Enqueue?
    ensures Uses(Removed(h.queues[k], op), op.message) <= AllUses(h.queues, op.message)
  {
    var q, m := h.queues[k], op.message;
    UsesKept(q.frames, m);
    hide Q.Kept, Q.Gone, Q.Apply, Q.Enabled, Uses, AllUses;
    AllUsesUpdate(h.queues, k, q, m);
    UsesNone(q, m);
  }

  lemma OnQueueReferenced(h: Hub, k: nat, op: Q.Op)
    requires Referenced(h) && Proper(h, k, op)
    ensures Referenced(OnQueue(h, k, op))
  {
    assert k < |h.queues|;
    var g := OnQueue(h, k, op);
    hide OnQueue, Proper, Q.Inv, Q.Apply, Removed, Accepts, AllUses;
    forall m: nat
      ensures if m < |g.messages| then g.messages[m].references == g.messages[m].held + AllUses(g.queues, m)
              else AllUses(g.queues, m) == 0
    {
      OnQueueReference(h, k, op, m);
    }
  }

  lemma OnQueueQueues(h: Hub, k: nat, op: Q.Op)
    requires Queues(h) && k < |h.queues|
    ensures Queues(OnQueue(h, k, op))
  {
    hide Q.Inv, Q.Apply, Removed, Accepts;
    Q.StepKeeps(h.queues[k], op);
    DropAllKeeps(h, Removed(h.queues[k], op));
  }

  lemma OnQueueKeeps(h: Hub, k: nat, op: Q.Op)
    requires Inv(h) && Proper(h, k, op)
    ensures Inv(OnQueue(h, k, op))
  {
    assert k < |h.queues|;
    hide Proper, OnQueue, Referenced, Queues, AllFrames, LiveBytes;
    OnQueueReferenced(h, k, op);
    OnQueueQueues(h, k, op);
    OnQueueFrames(h, k, op);
    OnQueueBytes(h, k, op);
  }

  lemma CreateKeeps(h: Hub, data: seq<Q.Byte>)
    requires Inv(h) && |data| <= TOTAL_BYTES - h.bytes
    ensures Inv(h.(messages := h.messages + [Message(data, 1, 1)], bytes := h.bytes + |data|))
  {
    var messages := h.messages + [Message(data, 1, 1)];
    assert messages[..|h.messages|] == h.messages;
    hide AllUses, AllFrames, Q.Inv;
  }

  lemma ReleaseKeeps(h: Hub, m: nat)
    requires Inv(h) && Enabled(h, Release(m))
    ensures Inv(Apply(h, Release(m)))
  {
    hide AllUses, AllFrames, Q.Inv, LiveBytes;
    var x := h.messages[m];
    var g := Apply(h, Release(m));
    assert g.messages == h.messages[m := x.(held := x.held - 1, references := x.references - 1)];
    LiveUpdate(h.messages, m, x.(held := x.held - 1, references := x.references - 1));
    assert x.references == x.held + AllUses(h.queues, m);
  }

  lemma OpenedUses(queues: seq<Q.Queue>, m: nat)
    ensures AllUses(queues + [Q.Init()], m) == AllUses(queues, m) && AllFrames(queues + [Q.Init()]) == AllFrames(queues)
  {
    assert (queues + [Q.Init()])[..|queues|] == queues;
  }

  lemma OpenedReferenced(h: Hub)
    requires Referenced(h)
    ensures Referenced(h.(queues := h.queues + [Q.Init()]))
  {
    hide AllUses, Q.Init;
    forall m: nat ensures AllUses(h.queues + [Q.Init()], m) == AllUses(h.queues, m) { OpenedUses(h.queues, m); }
  }

  lemma OpenedQueues(h: Hub, q: Q.Queue)
    requires Queues(h) && Q.Inv(q)
    ensures Queues(h.(queues := h.queues + [q]))
  {
    hide Q.Inv;
  }

  lemma OpenKeeps(h: Hub)
    requires Inv(h)
    ensures Inv(h.(queues := h.queues + [Q.Init()]))
  {
    hide LiveBytes, AllFrames, Q.Init, Referenced, Queues, Q.Inv, Q.Run;
    assert Q.Inv(Q.Init()) by { InitInv(); }
    OpenedQueues(h, Q.Init());
    OpenedReferenced(h);
    OpenedUses(h.queues, 0);
  }

  lemma InitInv()
    ensures Q.Inv(Q.Init())
  {
    hide Q.Inv;
    Q.RunKeeps([]);
  }

  lemma StepKeeps(h: Hub, op: Op)
    requires Inv(h)
    ensures Inv(Apply(h, op))
  {
    hide Inv, OnQueue, Drop;
    if Enabled(h, op) {
      match op {
        case Create(data, _) => if |data| <= TOTAL_BYTES - h.bytes { CreateKeeps(h, data); }
        case Release(m) => ReleaseKeeps(h, m);
        case Open => OpenKeeps(h);
        case Enqueue(k, _, _, _, _) => OnQueueKeeps(h, k, QueueOp(h, op));
        case Flush(k, _, _) => OnQueueKeeps(h, k, QueueOp(h, op));
        case Reject(k) => OnQueueKeeps(h, k, QueueOp(h, op));
        case Disconnect(k) => OnQueueKeeps(h, k, QueueOp(h, op));
      }
    }
  }

  /** Over every run, a payload's references are its holders and its queued
      frames, the byte total is the live payloads, the frame total the queued
      frames, and both stay within the daemon's limits. */
  lemma {:induction false} TotalsAreExact(ops: seq<Op>)
    ensures var h := Run(Init(), ops);
      && (forall m :: 0 <= m < |h.messages| ==> h.messages[m].references == h.messages[m].held + AllUses(h.queues, m))
      && h.bytes == LiveBytes(h.messages) <= TOTAL_BYTES && h.frames == AllFrames(h.queues) <= TOTAL_FRAMES
      && Inv(h)
  {
    if ops != [] {
      hide Inv, Apply;
      TotalsAreExact(ops[..|ops| - 1]);
      StepKeeps(Run(Init(), ops[..|ops| - 1]), ops[|ops| - 1]);
      InvTotals(Run(Init(), ops));
    }
  }

  lemma InvTotals(h: Hub)
    requires Inv(h)
    ensures forall m :: 0 <= m < |h.messages| ==> h.messages[m].references == h.messages[m].held + AllUses(h.queues, m)
    ensures h.bytes == LiveBytes(h.messages) <= TOTAL_BYTES && h.frames == AllFrames(h.queues) <= TOTAL_FRAMES
  {}

  /** Over every run a payload is taken exactly if it is not empty, within 8 MiB, and
      within 64 MiB together with all that are still referred to; its maker then holds
      the one reference. */
  lemma PayloadIsTaken(ops: seq<Op>, data: seq<Q.Byte>, memory: bool)
    ensures var h := Run(Init(), ops);
      var g := Apply(h, Create(data, memory));
      if data != [] && |data| <= 8_388_608 && LiveBytes(h.messages) + |data| <= 67_108_864 && memory
      then g.messages == h.messages + [Message(data, 1, 1)] && g.queues == h.queues
      else g == h
  {
    TotalsAreExact(ops);
    hide Run, Inv;
  }

  /** Over every run a message is enqueued with its own payload on the queue named and
      no other, and the daemon has room for it exactly if fewer than 16384 frames
      wait in all, not counting the snapshots it replaces. */
  lemma MessageReachesItsQueue(ops: seq<Op>, k: nat, m: nat, snapshot: bool, memory: bool, now: int)
    requires Enabled(Run(Init(), ops), Enqueue(k, m, snapshot, memory, now))
    ensures var h := Run(Init(), ops);
      var g := Apply(h, Enqueue(k, m, snapshot, memory, now));
      var replaced := if snapshot && h.queues[k].open && !h.queues[k].failed then |Q.Gone(h.queues[k].frames)| else 0;
      var room := memory && AllFrames(h.queues) - replaced < 16384;
      && |g.queues| == |h.queues| && (forall j :: 0 <= j < |h.queues| && j != k ==> g.queues[j] == h.queues[j])
      && g.queues[k] == Q.Apply(h.queues[k], Q.Enqueue(m, h.messages[m].data, snapshot, room, now))
  {
    TotalsAreExact(ops);
    hide Run, Inv, Q.Apply, Q.Gone, DropAll, Q.Refuses;
  }
}
