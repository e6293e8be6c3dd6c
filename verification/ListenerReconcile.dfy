/** Reconciling registered listeners with captures of the operating system's
    listener table. Captures are shared between requests, so a row must be
    fenced against captures that began before its latest registration. */
module ListenerReconcile {

  const GRACE_SECONDS := 2
  const MISSING_THRESHOLD := 2

  datatype Listener = Listener(pid: int, port: int, address: string, meta: string)

  /** What happened to a row, as its history. `tick` counts operations; captures
      are named by their job. */
  datatype Event =
    | Registered(tick: nat)
    | OwnerChanged
    | Seen(job: nat)
    | Adopted(job: nat)
    | Missed(job: nat, at: int)
    | Stopped(job: nat, at: int)
    | Released(job: nat)
    | Ended
    | Cleared

  /** `meta` stands for the fields that do not decide ownership; `key` for source,
      requested port, actual port and network, which identify a registration. */
  datatype Row = Row(key: nat, running: bool, external: bool, pid: int, host: string, port: int, meta: string,
                     since: int, count: nat, revision: nat, log: seq<Event>)

  /** A capture. `createdAt` is the tick it was created at; its command starts
      later still. */
  datatype Job = Job(command: nat, generation: nat, watermark: nat, references: int, done: bool, failed: bool, createdAt: nat)

  datatype Context = Context(jobs: seq<nat>, generation: nat, registration: nat)

  datatype Registry = Registry(rows: seq<Row>, jobs: seq<Job>, contexts: seq<Context>,
                               revision: nat, generation: nat, tick: nat)

  // ------------------------------------------------------------------- one row

  type Same = (string, string) -> bool

  predicate SeenByPid(listeners: seq<Listener>, same: Same, r: Row) {
    exists k :: 0 <= k < |listeners| && listeners[k].pid == r.pid && listeners[k].port == r.port && same(listeners[k].address, r.host)
  }

  predicate AtEndpoint(l: Listener, same: Same, r: Row) { l.port == r.port && same(l.address, r.host) }

  /** The first endpoint match with a pid, else the last without one, else -1. */
  function EndpointOwner(listeners: seq<Listener>, at: nat, fallback: int, same: Same, r: Row): (k: int)
    requires at <= |listeners| && -1 <= fallback < |listeners|
    ensures -1 <= k < |listeners|
    decreases |listeners| - at
  {
    if at == |listeners| then fallback
    else if !AtEndpoint(listeners[at], same, r) then EndpointOwner(listeners, at + 1, fallback, same, r)
    else if listeners[at].pid > 0 then at
    else EndpointOwner(listeners, at + 1, at, same, r)
  }

  function Clear(r: Row): Row { r.(since := 0, count := 0) }

  function Adopt(r: Row, l: Listener, job: nat): Row {
    Clear(r).(pid := if l.pid > 0 then l.pid else r.pid, meta := if l.meta != "" then l.meta else r.meta,
              log := r.log + [Adopted(job)])
  }

  function Miss(r: Row, job: nat, now: int): Row {
    r.(since := if r.since == 0 then now else r.since, count := r.count + 1, log := r.log + [Missed(job, now)])
  }

  function Stop(r: Row, e: Event): Row { Clear(r).(running := false, log := r.log + [e]) }

  function ReconcileRow(r: Row, observed: nat, listeners: seq<Listener>, same: Same, now: int, job: nat): Row {
    if !r.running || !r.external then Clear(r).(log := r.log + [Cleared])
    else if r.revision > observed then r
    else if SeenByPid(listeners, same, r) then Clear(r).(log := r.log + [Seen(job)])
    else
      var k := EndpointOwner(listeners, 0, -1, same, r);
      if k >= 0 then Adopt(r, listeners[k], job)
      else
        var m := Miss(r, job, now);
        if now - m.since >= GRACE_SECONDS && m.count >= MISSING_THRESHOLD then Stop(m, Stopped(job, now)) else m
  }

  /** A release by the owner, checked against a capture of its port. */
  function ReleaseRow(r: Row, observed: nat, listeners: seq<Listener>, same: Same, scoped: bool, now: int, job: nat): Row {
    if !r.running || r.revision > observed then r
    else
      var k := EndpointOwner(listeners, 0, -1, same, r);
      if k >= 0 then Adopt(r, listeners[k], job)
      else if scoped then Miss(r, job, now)
      else Stop(r, Released(job))
  }

  /** A registration of a row that exists: an identical report changes nothing. */
  function RegisterRow(r: Row, pid: int, host: string, meta: string, revision: nat, tick: nat): Row {
    if r.pid == pid && r.host == host && r.meta == meta then r
    else
      var n := r.(pid := pid, host := host, meta := meta, revision := revision, log := r.log + [Registered(tick)]);
      if r.pid == pid && r.host == host then n else Clear(n).(log := n.log + [OwnerChanged])
  }

  // -------------------------------------------------------------------- history

  /** Misses counted since the row was last seen, changed owner or was cleared. */
  function MissCount(log: seq<Event>): nat {
    if log == [] then 0
    else match log[|log| - 1]
      case Missed(_, _) => MissCount(log[..|log| - 1]) + 1
      case Registered(_) => MissCount(log[..|log| - 1])
      case _ => 0
  }

  /** When the first of them was counted, 0 if there is none. */
  function FirstMiss(log: seq<Event>): int {
    if log == [] then 0
    else match log[|log| - 1]
      case Missed(_, at) => if MissCount(log[..|log| - 1]) == 0 then at else FirstMiss(log[..|log| - 1])
      case Registered(_) => FirstMiss(log[..|log| - 1])
      case _ => 0
  }

  /** The tick of the latest registration that changed the row, -1 if none. */
  function LastRegistered(log: seq<Event>): int {
    if log == [] then -1
    else if log[|log| - 1].Registered? then log[|log| - 1].tick
    else LastRegistered(log[..|log| - 1])
  }

  predicate UsesCapture(e: Event) { e.Seen? || e.Adopted? || e.Missed? || e.Stopped? || e.Released? }

  /** An event that used a capture used one created after the row's latest
      registration; a stop by reconciliation had its two misses and its grace. */
  predicate Justified(before: seq<Event>, e: Event, jobs: seq<Job>) {
    && (UsesCapture(e) ==> e.job < |jobs| && LastRegistered(before) < jobs[e.job].createdAt)
    && (e.Stopped? ==> MissCount(before) >= MISSING_THRESHOLD && e.at - FirstMiss(before) >= GRACE_SECONDS)
  }

  predicate Sound(log: seq<Event>, jobs: seq<Job>) {
    log != [] ==> Justified(log[..|log| - 1], log[|log| - 1], jobs) && Sound(log[..|log| - 1], jobs)
  }

  /** The counters are the history; revisions order registrations and captures. */
  ghost predicate RowInv(r: Row, jobs: seq<Job>, revision: nat, tick: nat) {
    && r.count == MissCount(r.log) && r.since == FirstMiss(r.log) && (r.since == 0 <==> r.count == 0) && r.since >= 0
    && r.revision <= revision && LastRegistered(r.log) < tick
    && (forall j :: 0 <= j < |jobs| ==> (r.revision <= jobs[j].watermark <==> LastRegistered(r.log) < jobs[j].createdAt))
    && Sound(r.log, jobs)
  }

  lemma Push(log: seq<Event>, e: Event)
    ensures (log + [e])[..|log|] == log && (log + [e])[|log|] == e && |log + [e]| == |log| + 1
  {}

  lemma Logged(log: seq<Event>, e: Event, jobs: seq<Job>)
    requires Sound(log, jobs) && Justified(log, e, jobs)
    ensures Sound(log + [e], jobs)
    ensures LastRegistered(log + [e]) == if e.Registered? then e.tick else LastRegistered(log)
    ensures MissCount(log + [e]) ==
      (if e.Missed? then MissCount(log) + 1 else if e.Registered? then MissCount(log) else 0)
    ensures FirstMiss(log + [e]) ==
      (if e.Missed? then if MissCount(log) == 0 then e.at else FirstMiss(log) else if e.Registered? then FirstMiss(log) else 0)
  {
    Push(log, e);
  }

  lemma ReconcileRowKeeps(r: Row, jobs: seq<Job>, revision: nat, tick: nat,
                          job: nat, listeners: seq<Listener>, same: Same, now: int)
    requires RowInv(r, jobs, revision, tick) && job < |jobs| && now > 0
    ensures RowInv(ReconcileRow(r, jobs[job].watermark, listeners, same, now, job), jobs, revision, tick)
  {
    hide Sound, MissCount, FirstMiss, LastRegistered, SeenByPid, EndpointOwner;
    if !r.running || !r.external {
      Logged(r.log, Cleared, jobs);
    } else if r.revision <= jobs[job].watermark {
      if SeenByPid(listeners, same, r) {
        Logged(r.log, Seen(job), jobs);
      } else if EndpointOwner(listeners, 0, -1, same, r) >= 0 {
        Logged(r.log, Adopted(job), jobs);
      } else {
        Logged(r.log, Missed(job, now), jobs);
        var m := Miss(r, job, now);
        if now - m.since >= GRACE_SECONDS && m.count >= MISSING_THRESHOLD {
          Logged(m.log, Stopped(job, now), jobs);
        }
      }
    }
  }

  lemma ReleaseRowKeeps(r: Row, jobs: seq<Job>, revision: nat, tick: nat,
                        job: nat, listeners: seq<Listener>, same: Same, scoped: bool, now: int)
    requires RowInv(r, jobs, revision, tick) && job < |jobs| && now > 0
    ensures RowInv(ReleaseRow(r, jobs[job].watermark, listeners, same, scoped, now, job), jobs, revision, tick)
  {
    hide Sound, MissCount, FirstMiss, LastRegistered, EndpointOwner;
    if r.running && r.revision <= jobs[job].watermark {
      if EndpointOwner(listeners, 0, -1, same, r) >= 0 {
        Logged(r.log, Adopted(job), jobs);
      } else if scoped {
        Logged(r.log, Missed(job, now), jobs);
      } else {
        Logged(r.log, Released(job), jobs);
      }
    }
  }

  /** A registration outranks every capture so far. */
  lemma RegisterRowKeeps(r: Row, jobs: seq<Job>, revision: nat, tick: nat, pid: int, host: string, meta: string)
    requires RowInv(r, jobs, revision, tick)
    requires forall j :: 0 <= j < |jobs| ==> jobs[j].watermark <= revision && jobs[j].createdAt <= tick
    ensures RowInv(RegisterRow(r, pid, host, meta, revision + 1, tick), jobs, revision + 1, tick + 1)
  {
    hide Sound, MissCount, FirstMiss, LastRegistered;
    if !(r.pid == pid && r.host == host && r.meta == meta) {
      Logged(r.log, Registered(tick), jobs);
      if !(r.pid == pid && r.host == host) {
        Logged(r.log + [Registered(tick)], OwnerChanged, jobs);
      }
    }
  }

  // ------------------------------------------------------------------ captures

  datatype Op =
    | Register(key: nat, external: bool, pid: int, host: string, port: int, meta: string)
    | Recover(row: Row)
    | StopRow(at: nat)
    | Invalidate
    | NewContext
    | FreeContext(context: nat)
    | Prepare(context: nat, command: nat, refused: bool)
    | Complete(job: nat, ok: bool)
    | Reconcile(context: nat, command: nat, listeners: seq<Listener>, now: int)
    | Release(context: nat, command: nat, at: nat, listeners: seq<Listener>, scoped: bool, now: int)

  function Init(): Registry { Registry([], [], [], 0, 0, 0) }

  /** First running row with this key from `at`, -1 if none. */
  function FindRow(rows: seq<Row>, at: nat, key: nat): (i: int)
    requires at <= |rows|
    ensures -1 <= i < |rows|
    decreases |rows| - at
  {
    if at == |rows| then -1 else if rows[at].running && rows[at].key == key then at else FindRow(rows, at + 1, key)
  }

  function DropReference(jobs: seq<Job>, id: nat): (r: seq<Job>)
    ensures |r| == |jobs|
  {
    if id >= |jobs| then jobs
    else
      var j := jobs[id];
      jobs[id := j.(references := j.references - 1, failed := j.failed || j.references == 1)]
  }

  function DropReferences(jobs: seq<Job>, ids: seq<nat>): (r: seq<Job>)
    ensures |r| == |jobs|
  {
    if ids == [] then jobs else DropReference(DropReferences(jobs, ids[..|ids| - 1]), ids[|ids| - 1])
  }

  /** The job a context holds for a command, -1 if none. */
  function Holding(jobs: seq<Job>, ids: seq<nat>, at: nat, command: nat): (id: int)
    requires at <= |ids|
    ensures -1 <= id
    ensures id >= 0 ==> id < |jobs| && jobs[id].command == command && id in ids
    decreases |ids| - at
  {
    if at == |ids| then -1
    else if ids[at] < |jobs| && jobs[ids[at]].command == command then ids[at]
    else Holding(jobs, ids, at + 1, command)
  }

  /** Only an unfinished capture of the same generation may be shared. */
  predicate Shareable(j: Job, command: nat, generation: nat) {
    j.references > 0 && !j.done && !j.failed && j.generation == generation && j.command == command
  }

  /** The newest shareable job below `n`, -1 if none. */
  function Sharing(jobs: seq<Job>, n: nat, command: nat, generation: nat): (id: int)
    requires n <= |jobs|
    ensures -1 <= id < n
    ensures id >= 0 ==> Shareable(jobs[id], command, generation)
  {
    if n == 0 then -1
    else if Shareable(jobs[n - 1], command, generation) then n - 1
    else Sharing(jobs, n - 1, command, generation)
  }

  /** A request's context at the start of a preparation: observations of an older
      generation are let go, and the registration watermark is taken afresh. */
  function Refreshed(s: Registry, k: nat): Registry
    requires k < |s.contexts|
  {
    var c := s.contexts[k];
    if c.generation == s.generation then s.(contexts := s.contexts[k := c.(registration := s.revision)])
    else s.(jobs := DropReferences(s.jobs, c.jobs), contexts := s.contexts[k := Context([], s.generation, s.revision)])
  }

  function Require(s: Registry, k: nat, command: nat, refused: bool): Registry
    requires k < |s.contexts|
  {
    var c := s.contexts[k];
    if Holding(s.jobs, c.jobs, 0, command) >= 0 || refused then s
    else
      var shared := Sharing(s.jobs, |s.jobs|, command, c.generation);
      if shared >= 0 then
        s.(jobs := s.jobs[shared := s.jobs[shared].(references := s.jobs[shared].references + 1)],
           contexts := s.contexts[k := c.(jobs := c.jobs + [shared])])
      else
        s.(jobs := s.jobs + [Job(command, c.generation, c.registration, 1, false, false, s.tick)],
           contexts := s.contexts[k := c.(jobs := c.jobs + [|s.jobs|])])
  }

  function ReconcileRows(rows: seq<Row>, n: nat, observed: nat, listeners: seq<Listener>, same: Same, now: int, job: nat): (r: seq<Row>)
    requires n <= |rows|
    ensures |r| == |rows|
    ensures forall i :: 0 <= i < |rows| ==>
      r[i] == if i < n then ReconcileRow(rows[i], observed, listeners, same, now, job) else rows[i]
  {
    if n == 0 then rows
    else ReconcileRows(rows, n - 1, observed, listeners, same, now, job)[n - 1 := ReconcileRow(rows[n - 1], observed, listeners, same, now, job)]
  }

  /** The finished capture a context has for a command, -1 if none. */
  function Capture(s: Registry, k: nat, command: nat): (id: int)
    ensures id >= 0 ==> id < |s.jobs|
  {
    if k >= |s.contexts| then -1
    else
      var id := Holding(s.jobs, s.contexts[k].jobs, 0, command);
      if id >= 0 && s.jobs[id].done && !s.jobs[id].failed then id else -1
  }

  predicate Enabled(s: Registry, op: Op) {
    match op
    case Recover(row) => row.running && row.revision == 0 && row.since == 0 && row.count == 0 && row.log == []
    case StopRow(at) => at < |s.rows|
    case FreeContext(k) => k < |s.contexts|
    case Prepare(k, _, _) => k < |s.contexts|
    case Complete(j, _) => j < |s.jobs| && !s.jobs[j].done
    case Reconcile(k, command, _, now) => Capture(s, k, command) >= 0 && now > 0
    case Release(k, command, at, _, _, now) => Capture(s, k, command) >= 0 && at < |s.rows| && now > 0
    case _ => true
  }

  function Step(s: Registry, same: Same, op: Op): Registry
    requires Enabled(s, op)
  {
    match op
    case Register(key, external, pid, host, port, meta) =>
      var i := FindRow(s.rows, 0, key);
      if i < 0 then
        s.(rows := s.rows + [Row(key, true, external, pid, host, port, meta, 0, 0, s.revision + 1, [Registered(s.tick)])],
           revision := s.revision + 1)
      else
        var r := RegisterRow(s.rows[i], pid, host, meta, s.revision + 1, s.tick);
        s.(rows := s.rows[i := r], revision := if r == s.rows[i] then s.revision else s.revision + 1)
    case Recover(row) => s.(rows := s.rows + [row])
    case StopRow(at) => s.(rows := s.rows[at := Stop(s.rows[at], Ended)])
    case Invalidate => s.(generation := s.generation + 1)
    case NewContext => s.(contexts := s.contexts + [Context([], 0, 0)])
    case FreeContext(k) =>
      s.(jobs := DropReferences(s.jobs, s.contexts[k].jobs), contexts := s.contexts[k := s.contexts[k].(jobs := [])])
    case Prepare(k, command, refused) => Require(Refreshed(s, k), k, command, refused)
    case Complete(j, ok) => s.(jobs := s.jobs[j := s.jobs[j].(done := true, failed := s.jobs[j].failed || !ok)])
    case Reconcile(k, command, listeners, now) =>
      var job := Capture(s, k, command);
      s.(rows := ReconcileRows(s.rows, |s.rows|, s.jobs[job].watermark, listeners, same, now, job))
    case Release(k, command, at, listeners, scoped, now) =>
      var job := Capture(s, k, command);
      s.(rows := s.rows[at := ReleaseRow(s.rows[at], s.jobs[job].watermark, listeners, same, scoped, now, job)])
  }

  function Apply(s: Registry, same: Same, op: Op): Registry {
    if Enabled(s, op) then Step(s, same, op).(tick := s.tick + 1) else s
  }

  function Run(same: Same, ops: seq<Op>): Registry {
    if ops == [] then Init() else Apply(Run(same, ops[..|ops| - 1]), same, ops[|ops| - 1])
  }

  // ---------------------------------------------------------------- invariants

  ghost predicate JobsInv(jobs: seq<Job>, revision: nat, tick: nat) {
    forall j :: 0 <= j < |jobs| ==> jobs[j].watermark <= revision && jobs[j].createdAt < tick
  }

  ghost predicate RowsInv(rows: seq<Row>, jobs: seq<Job>, revision: nat, tick: nat) {
    forall i :: 0 <= i < |rows| ==> RowInv(rows[i], jobs, revision, tick)
  }

  ghost predicate Inv(s: Registry) {
    JobsInv(s.jobs, s.revision, s.tick) && RowsInv(s.rows, s.jobs, s.revision, s.tick)
  }

  /** Captures keep their watermark and their time of creation. */
  ghost predicate Extends(a: seq<Job>, b: seq<Job>) {
    |a| <= |b| && forall j :: 0 <= j < |a| ==> b[j].watermark == a[j].watermark && b[j].createdAt == a[j].createdAt
  }

  lemma {:induction false} SoundMore(log: seq<Event>, a: seq<Job>, b: seq<Job>)
    requires Sound(log, a) && Extends(a, b)
    ensures Sound(log, b)
  {
    if log != [] {
      SoundMore(log[..|log| - 1], a, b);
    }
  }

  /** New captures watermark the current revision. */
  lemma RowLater(r: Row, a: seq<Job>, b: seq<Job>, revision: nat, tick: nat)
    requires RowInv(r, a, revision, tick) && Extends(a, b)
    requires forall j :: |a| <= j < |b| ==> b[j].watermark == revision && b[j].createdAt == tick
    ensures RowInv(r, b, revision, tick + 1)
  {
    SoundMore(r.log, a, b);
    hide Sound, MissCount, FirstMiss, LastRegistered;
  }

  lemma RowsLater(s: Registry, b: seq<Job>)
    requires Inv(s) && Extends(s.jobs, b)
    requires forall j :: |s.jobs| <= j < |b| ==> b[j].watermark == s.revision && b[j].createdAt == s.tick
    ensures RowsInv(s.rows, b, s.revision, s.tick + 1) && JobsInv(b, s.revision, s.tick + 1)
  {
    hide RowInv;
    forall i | 0 <= i < |s.rows| ensures RowInv(s.rows[i], b, s.revision, s.tick + 1) {
      RowLater(s.rows[i], s.jobs, b, s.revision, s.tick);
    }
  }

  lemma {:induction false} DropExtends(jobs: seq<Job>, ids: seq<nat>)
    ensures Extends(jobs, DropReferences(jobs, ids))
  {
    if ids != [] {
      DropExtends(jobs, ids[..|ids| - 1]);
    }
  }

  lemma PrepareExtends(s: Registry, k: nat, command: nat, refused: bool)
    requires k < |s.contexts|
    ensures var t := Require(Refreshed(s, k), k, command, refused);
      && Extends(s.jobs, t.jobs) && t.rows == s.rows && t.revision == s.revision && t.tick == s.tick
      && (forall j :: |s.jobs| <= j < |t.jobs| ==> t.jobs[j].watermark == s.revision && t.jobs[j].createdAt == s.tick)
  {
    DropExtends(s.jobs, s.contexts[k].jobs);
    hide DropReferences, Holding, Sharing;
  }

  lemma RegisterKeeps(s: Registry, same: Same, op: Op)
    requires Inv(s) && op.Register?
    ensures Inv(Apply(s, same, op))
  {
    hide RowInv, FindRow;
    var i := FindRow(s.rows, 0, op.key);
    forall k | 0 <= k < |s.rows|
      ensures RowInv(s.rows[k], s.jobs, s.revision, s.tick + 1) && RowInv(s.rows[k], s.jobs, s.revision + 1, s.tick + 1)
    {
      RowTicks(s.rows[k], s.jobs, s.revision, s.tick);
    }
    if i < 0 {
      NewRow(s, op);
    } else {
      RegisterRowKeeps(s.rows[i], s.jobs, s.revision, s.tick, op.pid, op.host, op.meta);
    }
  }

  lemma RowTicks(r: Row, jobs: seq<Job>, revision: nat, tick: nat)
    requires RowInv(r, jobs, revision, tick)
    ensures RowInv(r, jobs, revision, tick + 1) && RowInv(r, jobs, revision + 1, tick + 1)
  {}

  lemma NewRow(s: Registry, op: Op)
    requires JobsInv(s.jobs, s.revision, s.tick) && op.Register?
    ensures RowInv(Row(op.key, true, op.external, op.pid, op.host, op.port, op.meta, 0, 0, s.revision + 1, [Registered(s.tick)]),
                   s.jobs, s.revision + 1, s.tick + 1)
  {
    Logged([], Registered(s.tick), s.jobs);
    assert [] + [Registered(s.tick)] == [Registered(s.tick)];
  }

  lemma RowOpKeeps(s: Registry, same: Same, op: Op)
    requires Inv(s) && Enabled(s, op) && (op.Reconcile? || op.Release?)
    ensures Inv(Apply(s, same, op))
  {
    RowsLater(s, s.jobs);
    hide RowInv, ReconcileRow, ReleaseRow, Capture;
    var job := Capture(s, op.context, op.command);
    if op.Reconcile? {
      forall i | 0 <= i < |s.rows|
        ensures RowInv(ReconcileRow(s.rows[i], s.jobs[job].watermark, op.listeners, same, op.now, job), s.jobs, s.revision, s.tick + 1)
      {
        ReconcileRowKeeps(s.rows[i], s.jobs, s.revision, s.tick + 1, job, op.listeners, same, op.now);
      }
    } else {
      ReleaseRowKeeps(s.rows[op.at], s.jobs, s.revision, s.tick + 1, job, op.listeners, same, op.scoped, op.now);
    }
  }

  lemma StopKeeps(s: Registry, at: nat)
    requires RowsInv(s.rows, s.jobs, s.revision, s.tick + 1) && at < |s.rows|
    ensures RowInv(Stop(s.rows[at], Ended), s.jobs, s.revision, s.tick + 1)
  {
    hide Sound, MissCount, FirstMiss, LastRegistered;
    Logged(s.rows[at].log, Ended, s.jobs);
  }

  lemma StepKeeps(s: Registry, same: Same, op: Op)
    requires Inv(s)
    ensures Inv(Apply(s, same, op))
  {
    if Enabled(s, op) {
      hide Inv, Apply;
      match op {
        case Register(_, _, _, _, _, _) => RegisterKeeps(s, same, op);
        case Recover(_) => RowsKeep(s, same, op);
        case StopRow(_) => RowsKeep(s, same, op);
        case Reconcile(_, _, _, _) => RowOpKeeps(s, same, op);
        case Release(_, _, _, _, _, _) => RowOpKeeps(s, same, op);
        case _ => JobsKeep(s, same, op);
      }
    } else {
      hide Inv, Step;
    }
  }

  lemma RowsKeep(s: Registry, same: Same, op: Op)
    requires Inv(s) && Enabled(s, op) && (op.Recover? || op.StopRow?)
    ensures Inv(Apply(s, same, op))
  {
    RowsLater(s, s.jobs);
    if op.Recover? {
      RecoveredRow(s, op.row);
    }
    hide RowInv;
    if op.StopRow? {
      StopKeeps(s, op.at);
    }
  }

  lemma JobsKeep(s: Registry, same: Same, op: Op)
    requires Inv(s) && Enabled(s, op)
    requires op.Invalidate? || op.NewContext? || op.FreeContext? || op.Prepare? || op.Complete?
    ensures Inv(Apply(s, same, op))
  {
    hide RowInv, Require, DropReferences;
    if op.FreeContext? {
      DropExtends(s.jobs, s.contexts[op.context].jobs);
    }
    if op.Prepare? {
      PrepareExtends(s, op.context, op.command, op.refused);
    }
    RowsLater(s, Apply(s, same, op).jobs);
  }

  lemma RecoveredRow(s: Registry, row: Row)
    requires Inv(s) && Enabled(s, Recover(row))
    ensures RowInv(row, s.jobs, s.revision, s.tick + 1)
  {}

  lemma {:induction false} RunKeeps(same: Same, ops: seq<Op>)
    ensures Inv(Run(same, ops))
  {
    if ops != [] {
      hide Inv, Apply;
      RunKeeps(same, ops[..|ops| - 1]);
      StepKeeps(Run(same, ops[..|ops| - 1]), same, ops[|ops| - 1]);
    }
  }

  lemma {:induction false} SoundAt(log: seq<Event>, jobs: seq<Job>, e: nat)
    requires Sound(log, jobs) && e < |log|
    ensures Justified(log[..e], log[e], jobs)
  {
    if e < |log| - 1 {
      SoundAt(log[..|log| - 1], jobs, e);
      assert log[..|log| - 1][..e] == log[..e];
    }
  }

  /** In every run, whatever captures were shared, a row's owner is replaced, a
      miss counted or the row stopped only on a capture created after the row's
      latest registration; and reconciliation stops a row only after at least two
      misses since it was last seen or changed owner, the first at least two
      seconds earlier. */
  lemma CapturesAreFenced(same: Same, ops: seq<Op>, i: nat, e: nat)
    requires i < |Run(same, ops).rows| && e < |Run(same, ops).rows[i].log|
    ensures var s := Run(same, ops);
      var log := s.rows[i].log;
      && (UsesCapture(log[e]) ==> log[e].job < |s.jobs| && LastRegistered(log[..e]) < s.jobs[log[e].job].createdAt)
      && (log[e].Stopped? ==> MissCount(log[..e]) >= 2 && log[e].at - FirstMiss(log[..e]) >= 2)
  {
    RunKeeps(same, ops);
    var s := Run(same, ops);
    hide Run;
    assert RowInv(s.rows[i], s.jobs, s.revision, s.tick);
    SoundAt(s.rows[i].log, s.jobs, e);
  }

  /** The fence is exact: in every reachable state a capture is refused for a row
      exactly when the row was registered at or after the capture's creation. */
  lemma FenceIsExact(same: Same, ops: seq<Op>, i: nat, j: nat)
    requires i < |Run(same, ops).rows| && j < |Run(same, ops).jobs|
    ensures var s := Run(same, ops);
      s.rows[i].revision > s.jobs[j].watermark <==> LastRegistered(s.rows[i].log) >= s.jobs[j].createdAt
  {
    RunKeeps(same, ops);
    var s := Run(same, ops);
    hide Run;
    assert RowInv(s.rows[i], s.jobs, s.revision, s.tick);
  }

  // ------------------------------------------------- which captures were counted

  lemma RunPush(same: Same, ops: seq<Op>, op: Op)
    ensures Run(same, ops + [op]) == Apply(Run(same, ops), same, op)
  {
    assert (ops + [op])[..|ops|] == ops;
  }

  /** The captures of the misses `MissCount` counts. */
  function MissJobs(log: seq<Event>): set<nat> {
    if log == [] then {}
    else match log[|log| - 1]
      case Missed(job, _) => MissJobs(log[..|log| - 1]) + {job}
      case Registered(_) => MissJobs(log[..|log| - 1])
      case _ => {}
  }

  /** A request whose capture speaks about the row: it names the row and is not
      fenced off. */
  predicate Offers(s: Registry, op: Op, i: nat) {
    && Enabled(s, op) && i < |s.rows| && s.rows[i].running && (op.Reconcile? || (op.Release? && op.at == i))
    && s.rows[i].revision <= s.jobs[Capture(s, op.context, op.command)].watermark
  }

  /** The captures that requests brought to the row since its counter of misses
      last stood at zero. */
  function Consulted(same: Same, ops: seq<Op>, i: nat): set<nat> {
    if ops == [] then {}
    else
      var s, op, earlier := Run(same, ops[..|ops| - 1]), ops[|ops| - 1], Consulted(same, ops[..|ops| - 1], i);
      if i >= |Run(same, ops).rows| || Run(same, ops).rows[i].count == 0 then {}
      else if Offers(s, op, i) then earlier + {Capture(s, op.context, op.command)}
      else earlier
  }

  lemma JobsLogged(log: seq<Event>, e: Event)
    ensures MissJobs(log + [e]) ==
      if e.Missed? then MissJobs(log) + {e.job} else if e.Registered? then MissJobs(log) else {}
  {
    Push(log, e);
  }

  lemma {:induction false} CountedJobs(log: seq<Event>)
    ensures MissCount(log) == 0 ==> MissJobs(log) == {}
  {
    if log != [] {
      CountedJobs(log[..|log| - 1]);
    }
  }

  lemma ReconcileRowJobs(r: Row, observed: nat, listeners: seq<Listener>, same: Same, now: int, job: nat)
    ensures var t := ReconcileRow(r, observed, listeners, same, now, job);
      t.count > 0 ==> MissJobs(t.log) == if r.running && r.revision <= observed then MissJobs(r.log) + {job} else MissJobs(r.log)
    ensures var t := ReconcileRow(r, observed, listeners, same, now, job);
      t.log == r.log || (exists e :: t.log == r.log + [e] && !e.Stopped?) ||
      (t.log == r.log + [Missed(job, now)] + [Stopped(job, now)] && r.running && r.revision <= observed)
  {
    hide MissJobs, SeenByPid, EndpointOwner;
    JobsLogged(r.log, Missed(job, now));
  }

  lemma ReleaseRowJobs(r: Row, observed: nat, listeners: seq<Listener>, same: Same, scoped: bool, now: int, job: nat)
    ensures var t := ReleaseRow(r, observed, listeners, same, scoped, now, job);
      t.count > 0 ==> MissJobs(t.log) == if r.running && r.revision <= observed then MissJobs(r.log) + {job} else MissJobs(r.log)
    ensures var t := ReleaseRow(r, observed, listeners, same, scoped, now, job);
      t.log == r.log || exists e :: t.log == r.log + [e] && !e.Stopped?
  {
    hide MissJobs, EndpointOwner;
    JobsLogged(r.log, Missed(job, now));
  }

  lemma RegisterRowJobs(r: Row, pid: int, host: string, meta: string, revision: nat, tick: nat)
    ensures var t := RegisterRow(r, pid, host, meta, revision, tick);
      && (t.count > 0 ==> MissJobs(t.log) == MissJobs(r.log))
      && (t.log == r.log || t.log == r.log + [Registered(tick)] || t.log == r.log + [Registered(tick)] + [OwnerChanged])
  {
    hide MissJobs;
    JobsLogged(r.log, Registered(tick));
  }

  /** How one operation moves a row: its history grows, and only a request that
      offers its capture counts that capture or stops the row. */
  ghost predicate Moves(s: Registry, op: Op, i: nat, r: Row, t: Row) {
    && (t.count > 0 ==>
          MissJobs(t.log) == if Offers(s, op, i) then MissJobs(r.log) + {Capture(s, op.context, op.command) as nat} else MissJobs(r.log))
    && (Grew(r.log, t.log) ||
        (op.Reconcile? && Offers(s, op, i) && t.log == r.log + [Missed(Capture(s, op.context, op.command), op.now)] +
                                                       [Stopped(Capture(s, op.context, op.command), op.now)]))
  }

  ghost predicate Grew(a: seq<Event>, b: seq<Event>) {
    a <= b && forall k :: |a| <= k < |b| ==> !b[k].Stopped?
  }

  lemma ReconcileMoves(s: Registry, same: Same, op: Op, i: nat)
    requires i < |s.rows| && Enabled(s, op) && op.Reconcile?
    ensures Moves(s, op, i, s.rows[i], Apply(s, same, op).rows[i])
  {
    hide MissJobs, ReconcileRow, Capture;
    var job := Capture(s, op.context, op.command);
    ReconcileRowJobs(s.rows[i], s.jobs[job].watermark, op.listeners, same, op.now, job);
  }

  lemma ReleaseMoves(s: Registry, same: Same, op: Op, i: nat)
    requires i < |s.rows| && Enabled(s, op) && op.Release?
    ensures Moves(s, op, i, s.rows[i], Apply(s, same, op).rows[i])
  {
    hide MissJobs, ReleaseRow, Capture;
    var job := Capture(s, op.context, op.command);
    ReleaseRowJobs(s.rows[i], s.jobs[job].watermark, op.listeners, same, op.scoped, op.now, job);
  }

  lemma RegisterMoves(s: Registry, same: Same, op: Op, i: nat)
    requires i < |s.rows| && op.Register?
    ensures Moves(s, op, i, s.rows[i], Apply(s, same, op).rows[i])
  {
    hide MissJobs, RegisterRow, FindRow;
    RegisterRowJobs(s.rows[i], op.pid, op.host, op.meta, s.revision + 1, s.tick);
  }

  lemma RowMoves(s: Registry, same: Same, op: Op, i: nat)
    requires i < |s.rows|
    ensures i < |Apply(s, same, op).rows| && Moves(s, op, i, s.rows[i], Apply(s, same, op).rows[i])
  {
    if Enabled(s, op) {
      hide MissJobs, Require, DropReferences, ReconcileRow, ReleaseRow, RegisterRow, FindRow, Capture, ReconcileRows;
      match op {
        case Reconcile(_, _, _, _) => ReconcileMoves(s, same, op, i);
        case Release(_, _, _, _, _, _) => ReleaseMoves(s, same, op, i);
        case Register(_, _, _, _, _, _) => RegisterMoves(s, same, op, i);
        case Prepare(_, _, _) => PrepareRows(s, op);
        case _ =>
      }
    }
  }

  lemma PrepareRows(s: Registry, op: Op)
    ensures op.Prepare? && op.context < |s.contexts| ==>
      Require(Refreshed(s, op.context), op.context, op.command, op.refused).rows == s.rows
  {}

  lemma NewRows(s: Registry, same: Same, op: Op, i: nat)
    requires |s.rows| <= i < |Apply(s, same, op).rows|
    ensures var t := Apply(s, same, op).rows[i]; t.count == 0 && (forall k :: 0 <= k < |t.log| ==> !t.log[k].Stopped?)
  {
    hide RegisterRow, Require, DropReferences, ReconcileRow, ReleaseRow, Capture;
    PrepareRows(s, op);
  }

  /** In every run the counted misses are exactly of the captures that requests
      brought to the row since its counter stood at zero. */
  lemma {:induction false} ConsultedIsCounted(same: Same, ops: seq<Op>, i: nat)
    requires i < |Run(same, ops).rows|
    ensures MissJobs(Run(same, ops).rows[i].log) == Consulted(same, ops, i)
  {
    RunKeeps(same, ops);
    var t := Run(same, ops);
    assert RowInv(t.rows[i], t.jobs, t.revision, t.tick);
    CountedJobs(t.rows[i].log);
    if ops != [] {
      var s, op := Run(same, ops[..|ops| - 1]), ops[|ops| - 1];
      if t.rows[i].count > 0 {
        hide Sound, MissCount, FirstMiss, LastRegistered, MissJobs, Apply, Offers, Capture;
        if i < |s.rows| {
          ConsultedIsCounted(same, ops[..|ops| - 1], i);
          RowMoves(s, same, op, i);
        } else {
          NewRows(s, same, op, i);
        }
      }
    }
  }

  /** The stop that the last operation of a run made. */
  lemma StoppedLast(same: Same, ops: seq<Op>, op: Op, i: nat, e: nat)
    requires i < |Run(same, ops).rows| && op.Reconcile? && Offers(Run(same, ops), op, i)
    requires var s, job := Run(same, ops), Capture(Run(same, ops), op.context, op.command);
      e == |s.rows[i].log| + 1 && i < |Run(same, ops + [op]).rows|
      && Run(same, ops + [op]).rows[i].log == s.rows[i].log + [Missed(job, op.now)] + [Stopped(job, op.now)]
    ensures var log, job := Run(same, ops + [op]).rows[i].log, Capture(Run(same, ops), op.context, op.command);
      log[e].job == job && (MissJobs(log[..e]) == {job} <==> Consulted(same, ops, i) <= {job})
  {
    ConsultedIsCounted(same, ops, i);
    var log, t, job := Run(same, ops).rows[i].log, Run(same, ops + [op]), Capture(Run(same, ops), op.context, op.command);
    hide Run, Offers, Capture, Consulted, MissJobs;
    assert t.rows[i].log[..e] == log + [Missed(job, op.now)];
    JobsLogged(log, Missed(job, op.now));
  }

  /** Whether two scans really preceded a stop. In every run, each stop is the
      doing of one reconciliation, `ops[n]`, and all the misses it counted are of
      one capture if and only if, when that request came, no other capture had
      been brought to the row since its counter stood at zero. */
  lemma {:induction false} StoppedOnOneCapture(same: Same, ops: seq<Op>, i: nat, e: nat) returns (n: nat)
    requires i < |Run(same, ops).rows| && e < |Run(same, ops).rows[i].log| && Run(same, ops).rows[i].log[e].Stopped?
    ensures n < |ops| && ops[n].Reconcile? && Offers(Run(same, ops[..n]), ops[n], i)
    ensures var log, job := Run(same, ops).rows[i].log, Capture(Run(same, ops[..n]), ops[n].context, ops[n].command);
      log[e].job == job && (MissJobs(log[..e]) == {job} <==> Consulted(same, ops[..n], i) <= {job})
  {
    assert ops != [];
    var before, op := ops[..|ops| - 1], ops[|ops| - 1];
    var s, t := Run(same, before), Run(same, ops);
    RunPush(same, before, op);
    assert before + [op] == ops;
    hide Run, Apply, Offers, Capture, Consulted, MissJobs;
    if i >= |s.rows| {
      NewRows(s, same, op, i);
      assert false;
    }
    RowMoves(s, same, op, i);
    var log := s.rows[i].log;
    if e < |log| {
      n := StoppedOnOneCapture(same, before, i, e);
      assert before[..n] == ops[..n] && before[n] == ops[n];
      assert t.rows[i].log[..e] == log[..e];
    } else {
      n := |before|;
      StoppedLast(same, before, op, i, e);
    }
  }

  lemma StepExtends(s: Registry, same: Same, op: Op)
    ensures Extends(s.jobs, Apply(s, same, op).jobs)
  {
    if Enabled(s, op) {
      hide Require, DropReferences, ReconcileRow, ReleaseRow, RegisterRow, FindRow, Capture, ReconcileRows;
      match op {
        case FreeContext(k) => DropExtends(s.jobs, s.contexts[k].jobs);
        case Prepare(k, command, refused) => PrepareExtends(s, k, command, refused);
        case _ =>
      }
    }
  }

  lemma {:induction false} CountedSome(log: seq<Event>)
    ensures MissCount(log) > 0 ==> MissJobs(log) != {}
  {
    if log != [] {
      CountedSome(log[..|log| - 1]);
      assert log[|log| - 1].Missed? ==> log[|log| - 1].job in MissJobs(log);
    }
  }

  /** The row's counter has stood above zero since `ops[..m]`. */
  ghost predicate CountingSince(same: Same, ops: seq<Op>, i: nat, m: nat) {
    m <= |ops| && forall n :: m <= n <= |ops| ==> i < |Run(same, ops[..n]).rows| && Run(same, ops[..n]).rows[i].count > 0
  }

  /** While the counter runs, what was consulted stays so. */
  lemma {:induction false} ConsultedStays(same: Same, ops: seq<Op>, i: nat, m: nat)
    requires CountingSince(same, ops, i, m)
    ensures Consulted(same, ops[..m], i) <= Consulted(same, ops, i)
    ensures Extends(Run(same, ops[..m]).jobs, Run(same, ops).jobs)
  {
    if m == |ops| {
      assert ops[..m] == ops;
    } else {
      var before := ops[..|ops| - 1];
      forall n | m <= n <= |before|
        ensures i < |Run(same, before[..n]).rows| && Run(same, before[..n]).rows[i].count > 0
      {
        assert before[..n] == ops[..n];
      }
      ConsultedStays(same, before, i, m);
      assert before[..m] == ops[..m] && ops[..|ops|] == ops;
      StepExtends(Run(same, before), same, ops[|ops| - 1]);
      hide Apply, Offers, Capture;
    }
  }

  lemma {:induction false} ConsultedExist(same: Same, ops: seq<Op>, i: nat)
    ensures forall c :: c in Consulted(same, ops, i) ==> c < |Run(same, ops).jobs|
  {
    if ops != [] {
      ConsultedExist(same, ops[..|ops| - 1], i);
      StepExtends(Run(same, ops[..|ops| - 1]), same, ops[|ops| - 1]);
      hide Apply, Capture;
    }
  }

  /** A capture created after the row was first found missing is never the only
      one: with it the row has been missed by two captures. */
  lemma NewerCaptureIsAnother(same: Same, ops: seq<Op>, i: nat, m: nat, job: nat)
    requires CountingSince(same, ops, i, m) && job < |Run(same, ops).jobs|
    requires Run(same, ops).jobs[job].createdAt >= Run(same, ops[..m]).tick
    ensures !(Consulted(same, ops, i) <= {job})
  {
    var s := Run(same, ops[..m]);
    ConsultedStays(same, ops, i, m);
    ConsultedExist(same, ops[..m], i);
    ConsultedIsCounted(same, ops[..m], i);
    RunKeeps(same, ops[..m]);
    hide Run, Consulted;
    assert RowInv(s.rows[i], s.jobs, s.revision, s.tick);
    CountedSome(s.rows[i].log);
    var c :| c in Consulted(same, ops[..m], i);
    assert s.jobs[c].createdAt < s.tick;
  }

  // ------------------------------------------------------------------ two cases

  const BOUND := Row(0, true, true, 7, "h", 80, "", 0, 0, 1, [Registered(0)])

  lemma FirstPrepare(same: Same, s: Registry)
    requires s == Registry([BOUND], [], [Context([], 0, 0), Context([], 0, 0)], 1, 0, 3)
    ensures Apply(s, same, Prepare(0, 0, false)) ==
      Registry([BOUND], [Job(0, 0, 1, 1, false, false, 3)], [Context([0], 0, 1), Context([], 0, 0)], 1, 0, 4)
  {
    var t := Refreshed(s, 0);
    assert Holding(t.jobs, t.contexts[0].jobs, 0, 0) == -1 && Sharing(t.jobs, |t.jobs|, 0, 0) == -1;
    assert t.contexts[0].jobs + [0] == [0];
    var u := Apply(s, same, Prepare(0, 0, false));
    assert u.jobs == [Job(0, 0, 1, 1, false, false, 3)] && u.contexts == [Context([0], 0, 1), Context([], 0, 0)];
  }

  lemma SecondPrepare(same: Same, s: Registry)
    requires s == Registry([BOUND], [Job(0, 0, 1, 1, false, false, 3)], [Context([0], 0, 1), Context([], 0, 0)], 1, 0, 4)
    ensures Apply(s, same, Prepare(1, 0, false)) ==
      Registry([BOUND], [Job(0, 0, 1, 2, false, false, 3)], [Context([0], 0, 1), Context([0], 0, 1)], 1, 0, 5)
  {
    var t := Refreshed(s, 1);
    assert Holding(t.jobs, t.contexts[1].jobs, 0, 0) == -1 && Sharing(t.jobs, |t.jobs|, 0, 0) == 0;
    assert t.contexts[1].jobs + [0] == [0];
    var u := Apply(s, same, Prepare(1, 0, false));
    assert u.jobs == [Job(0, 0, 1, 2, false, false, 3)] && u.contexts == [Context([0], 0, 1), Context([0], 0, 1)];
  }

  /** A row registered at tick 0, and two requests that share one capture. */
  lemma TwoRequests(same: Same, ops: seq<Op>)
    requires ops == [Register(0, true, 7, "h", 80, ""), NewContext, NewContext, Prepare(0, 0, false), Prepare(1, 0, false), Complete(0, true)]
    ensures Run(same, ops) ==
      Registry([BOUND], [Job(0, 0, 1, 2, true, false, 3)], [Context([0], 0, 1), Context([0], 0, 1)], 1, 0, 6)
  {
    var a := [Register(0, true, 7, "h", 80, "")];
    var b := a + [NewContext];
    var c := b + [NewContext];
    var d := c + [Prepare(0, 0, false)];
    var e := d + [Prepare(1, 0, false)];
    assert ops == e + [Complete(0, true)];
    RunPush(same, [], a[0]);
    assert [] + [a[0]] == a;
    assert Run(same, []) == Init();
    assert Run(same, a) == Registry([BOUND], [], [], 1, 0, 1);
    RunPush(same, a, NewContext);
    RunPush(same, b, NewContext);
    RunPush(same, c, Prepare(0, 0, false));
    RunPush(same, d, Prepare(1, 0, false));
    RunPush(same, e, Complete(0, true));
    hide Run;
    assert Run(same, b) == Registry([BOUND], [], [Context([], 0, 0)], 1, 0, 2);
    assert Run(same, c) == Registry([BOUND], [], [Context([], 0, 0), Context([], 0, 0)], 1, 0, 3);
    FirstPrepare(same, Run(same, c));
    assert Run(same, d) == Registry([BOUND], [Job(0, 0, 1, 1, false, false, 3)], [Context([0], 0, 1), Context([], 0, 0)], 1, 0, 4);
    SecondPrepare(same, Run(same, d));
    assert Run(same, e) == Registry([BOUND], [Job(0, 0, 1, 2, false, false, 3)], [Context([0], 0, 1), Context([0], 0, 1)], 1, 0, 5);
  }

  /** A miss on the capture that found no listener at all. */
  lemma EmptyCapture(s: Registry, same: Same, k: nat, now: int, r: Row)
    requires k < |s.contexts| && s.contexts[k].jobs == [0] && now > 0 && s.rows == [r] && r.running && r.external
    requires |s.jobs| == 1 && s.jobs[0].command == 0 && s.jobs[0].done && !s.jobs[0].failed && r.revision <= s.jobs[0].watermark
    ensures var m := Miss(r, 0, now);
      Apply(s, same, Reconcile(k, 0, [], now)) ==
        s.(rows := [if now - m.since >= GRACE_SECONDS && m.count >= MISSING_THRESHOLD then Stop(m, Stopped(0, now)) else m], tick := s.tick + 1)
  {
    assert Holding(s.jobs, s.contexts[k].jobs, 0, 0) == 0;
    assert EndpointOwner([], 0, -1, same, r) == -1;
    var t := Apply(s, same, Reconcile(k, 0, [], now));
    assert t.rows == [ReconcileRow(r, s.jobs[0].watermark, [], same, now, 0)];
  }

  /** Two counted misses need not be two captures: two requests that share one
      capture each count it, and stop the row with it. */
  lemma SharedCaptureCountsTwice(same: Same, ops: seq<Op>)
    requires ops == [Register(0, true, 7, "h", 80, ""), NewContext, NewContext, Prepare(0, 0, false), Prepare(1, 0, false), Complete(0, true)]
    ensures var t := Run(same, ops + [Reconcile(0, 0, [], 1)] + [Reconcile(1, 0, [], 3)]);
      |t.jobs| == 1 && |t.rows| == 1 && !t.rows[0].running
      && t.rows[0].log == [Registered(0), Missed(0, 1), Missed(0, 3), Stopped(0, 3)]
  {
    TwoRequests(same, ops);
    var s := Run(same, ops);
    RunPush(same, ops, Reconcile(0, 0, [], 1));
    RunPush(same, ops + [Reconcile(0, 0, [], 1)], Reconcile(1, 0, [], 3));
    hide Run, Apply;
    EmptyCapture(s, same, 0, 1, BOUND);
    var u := Run(same, ops + [Reconcile(0, 0, [], 1)]);
    EmptyCapture(u, same, 1, 3, Miss(BOUND, 0, 1));
  }

  // -------------------------------------------------------------- repeated reports

  /** What a registration does to the fence. In every run, after a report about a
      row that is running, a capture so far is refused for the row if and only if
      the report changed the row's pid, host or other fields, or an earlier
      registration already stood behind the capture's creation. */
  lemma ReportFencesWhenItChanges(same: Same, ops: seq<Op>, op: Op, j: nat)
    requires op.Register? && FindRow(Run(same, ops).rows, 0, op.key) >= 0 && j < |Run(same, ops).jobs|
    ensures var s, t := Run(same, ops), Run(same, ops + [op]);
      var i := FindRow(s.rows, 0, op.key);
      var r := s.rows[i];
      && i < |t.rows| && t.jobs == s.jobs
      && (t.rows[i].revision > t.jobs[j].watermark <==>
            !(r.pid == op.pid && r.host == op.host && r.meta == op.meta) || LastRegistered(r.log) >= s.jobs[j].createdAt)
  {
    RunPush(same, ops, op);
    RunKeeps(same, ops);
    FenceIsExact(same, ops, FindRow(Run(same, ops).rows, 0, op.key), j);
    hide Run, RowInv, LastRegistered, FindRow;
  }

  /** Hence a report fences its row against every capture so far exactly when it
      changes the row, if any of them is newer than the row's registration. */
  lemma ReportFencesEverything(same: Same, ops: seq<Op>, op: Op, j: nat)
    requires op.Register? && FindRow(Run(same, ops).rows, 0, op.key) >= 0 && j < |Run(same, ops).jobs|
    requires LastRegistered(Run(same, ops).rows[FindRow(Run(same, ops).rows, 0, op.key)].log) < Run(same, ops).jobs[j].createdAt
    ensures var s, t := Run(same, ops), Run(same, ops + [op]);
      var i := FindRow(s.rows, 0, op.key);
      var r := s.rows[i];
      && i < |t.rows| && t.jobs == s.jobs
      && ((forall k :: 0 <= k < |t.jobs| ==> t.rows[i].revision > t.jobs[k].watermark) <==>
            !(r.pid == op.pid && r.host == op.host && r.meta == op.meta))
  {
    var s := Run(same, ops);
    hide Run, LastRegistered, FindRow;
    forall k | 0 <= k < |s.jobs|
      ensures var t := Run(same, ops + [op]);
        var i := FindRow(s.rows, 0, op.key);
        var r := s.rows[i];
        i < |t.rows| && t.jobs == s.jobs &&
        (t.rows[i].revision > t.jobs[k].watermark <==>
           !(r.pid == op.pid && r.host == op.host && r.meta == op.meta) || LastRegistered(r.log) >= s.jobs[k].createdAt)
    {
      ReportFencesWhenItChanges(same, ops, op, k);
    }
  }

  /** A repeated report is no registration for the fence: the capture from before
      it counts against the row, and after a changed one it does not. */
  lemma RepeatedReportDoesNotFence(same: Same, ops: seq<Op>, meta: string)
    requires ops == [Register(0, true, 7, "h", 80, ""), NewContext, NewContext, Prepare(0, 0, false), Prepare(1, 0, false), Complete(0, true)]
    ensures var t := Run(same, ops + [Register(0, true, 7, "h", 80, meta)] + [Reconcile(0, 0, [], 1)]);
      |t.rows| == 1 && t.rows[0].log == if meta == "" then [Registered(0), Missed(0, 1)] else [Registered(0), Registered(6)]
  {
    TwoRequests(same, ops);
    var s := Run(same, ops);
    var op := Register(0, true, 7, "h", 80, meta);
    RunPush(same, ops, op);
    RunPush(same, ops + [op], Reconcile(0, 0, [], 1));
    hide Run;
    assert FindRow(s.rows, 0, 0) == 0;
    var u := Run(same, ops + [op]);
    if meta == "" {
      assert u.rows == [BOUND];
      hide Apply;
      EmptyCapture(u, same, 0, 1, BOUND);
    } else {
      var r := BOUND.(meta := meta, revision := 2, log := [Registered(0), Registered(6)]);
      assert BOUND.log + [Registered(6)] == [Registered(0), Registered(6)];
      assert RegisterRow(BOUND, 7, "h", meta, 2, 6) == r;
      assert u.rows == [r];
      assert Holding(u.jobs, u.contexts[0].jobs, 0, 0) == 0;
      var t := Run(same, ops + [op] + [Reconcile(0, 0, [], 1)]);
      assert t.rows == [ReconcileRow(r, 1, [], same, 1, 0)];
    }
  }

  // ------------------------------------------------------------- the procedures

  /** Whether the row's own process listens at its endpoint. */
  method FindByPid(listeners: seq<Listener>, same: Same, r: Row) returns (seen: bool)
    ensures seen == SeenByPid(listeners, same, r)
  {
    var k := 0;
    while k < |listeners|
      invariant k <= |listeners|
      invariant forall i :: 0 <= i < k ==>
        !(listeners[i].pid == r.pid && listeners[i].port == r.port && same(listeners[i].address, r.host))
    {
      if listeners[k].pid == r.pid && listeners[k].port == r.port && same(listeners[k].address, r.host) {
        return true;
      }
      k := k + 1;
    }
    seen := false;
  }

  /** Whoever listens at the row's endpoint, preferably with a pid. */
  method FindByEndpoint(listeners: seq<Listener>, same: Same, r: Row) returns (owner: int)
    ensures owner == EndpointOwner(listeners, 0, -1, same, r)
  {
    owner := -1;
    var k := 0;
    while k < |listeners|
      invariant k <= |listeners| && -1 <= owner < |listeners|
      invariant EndpointOwner(listeners, 0, -1, same, r) == EndpointOwner(listeners, k, owner, same, r)
    {
      if AtEndpoint(listeners[k], same, r) {
        if listeners[k].pid > 0 {
          return k;
        }
        owner := k;
      }
      k := k + 1;
    }
  }

  /** One pass over all rows with one capture. */
  method ReconcileAll(rows: seq<Row>, observed: nat, listeners: seq<Listener>, same: Same, now: int, job: nat)
    returns (next: seq<Row>)
    ensures next == ReconcileRows(rows, |rows|, observed, listeners, same, now, job)
  {
    next := rows;
    var i := 0;
    while i < |rows|
      invariant i <= |rows| && next == ReconcileRows(rows, i, observed, listeners, same, now, job)
    {
      var r := rows[i];
      if !r.running || !r.external {
        r := r.(since := 0, count := 0, log := r.log + [Cleared]);
      } else if r.revision <= observed {
        var seen := FindByPid(listeners, same, r);
        if seen {
          r := r.(since := 0, count := 0, log := r.log + [Seen(job)]);
        } else {
          var owner := FindByEndpoint(listeners, same, r);
          if owner >= 0 {
            r := Adopt(r, listeners[owner], job);
          } else {
            if r.since == 0 {
              r := r.(since := now);
            }
            r := r.(count := r.count + 1, log := r.log + [Missed(job, now)]);
            if now - r.since >= GRACE_SECONDS && r.count >= MISSING_THRESHOLD {
              r := Stop(r, Stopped(job, now));
            }
          }
        }
      }
      hide ReconcileRow, SeenByPid, EndpointOwner;
      next := next[i := r];
      i := i + 1;
    }
  }

  /** Finds the capture a context already has, or one to share. */
  method FindCapture(jobs: seq<Job>, c: Context, command: nat) returns (held: int, shared: int)
    ensures held == Holding(jobs, c.jobs, 0, command)
    ensures held < 0 ==> shared == Sharing(jobs, |jobs|, command, c.generation)
  {
    var i := 0;
    shared := -1;
    while i < |c.jobs|
      invariant i <= |c.jobs| && Holding(jobs, c.jobs, 0, command) == Holding(jobs, c.jobs, i, command)
    {
      if c.jobs[i] < |jobs| && jobs[c.jobs[i]].command == command {
        return c.jobs[i], -1;
      }
      i := i + 1;
    }
    held := -1;
    var n: nat := |jobs|;
    while n > 0
      invariant n <= |jobs| && Sharing(jobs, |jobs|, command, c.generation) == Sharing(jobs, n, command, c.generation)
    {
      if Shareable(jobs[n - 1], command, c.generation) {
        return -1, n - 1;
      }
      n := n - 1;
    }
  }

  /** The registry and the scan broker, as requests move them. */
  class Broker {
    var s: Registry

    constructor ()
      ensures s == Init() && Inv(s)
    {
      s := Init();
    }

    /** Takes the current watermarks and joins or creates a capture. */
    method PrepareRequest(context: nat, command: nat, refused: bool, same: Same)
      requires context < |s.contexts| && Inv(s)
      modifies this
      ensures s == Apply(old(s), same, Prepare(context, command, refused)) && Inv(s)
    {
      StepKeeps(s, same, Prepare(context, command, refused));
      hide Inv, Holding, Sharing, DropReferences;
      var t := Refreshed(s, context);
      var c := t.contexts[context];
      var held, shared := FindCapture(t.jobs, c, command);
      if held < 0 && !refused {
        if shared >= 0 {
          t := t.(jobs := t.jobs[shared := t.jobs[shared].(references := t.jobs[shared].references + 1)],
                  contexts := t.contexts[context := c.(jobs := c.jobs + [shared])]);
        } else {
          t := t.(jobs := t.jobs + [Job(command, c.generation, c.registration, 1, false, false, t.tick)],
                  contexts := t.contexts[context := c.(jobs := c.jobs + [|t.jobs|])]);
        }
      }
      s := t.(tick := s.tick + 1);
    }

    /** Reconciles every row with the finished capture of a request. */
    method ReconcileProcesses(context: nat, command: nat, listeners: seq<Listener>, same: Same, now: int)
      requires Capture(s, context, command) >= 0 && now > 0 && Inv(s)
      modifies this
      ensures s == Apply(old(s), same, Reconcile(context, command, listeners, now)) && Inv(s)
    {
      StepKeeps(s, same, Reconcile(context, command, listeners, now));
      hide Inv, ReconcileRows;
      var job := Capture(s, context, command);
      hide Capture;
      var rows := ReconcileAll(s.rows, s.jobs[job].watermark, listeners, same, now, job);
      s := s.(rows := rows, tick := s.tick + 1);
    }
  }
}
