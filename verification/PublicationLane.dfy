/** The two-thread file publication lane as a state machine. One control thread
    submits, polls and disposes; one worker runs the active job. Every step is
    one critical section or one stretch of code only its own thread can see. */
module PublicationLane {

  const MAX_JOBS: nat := 32
  const DEADLINE_MS: nat := 8000

  /** A job's receipt is numbered like the job. Contexts are numbered in
      submission order. */
  datatype Job = Job(id: nat, context: nat, bytes: nat, deadline: int, canceled: bool, result: int)

  /** Callbacks as they happen, on either thread. */
  datatype Event =
    | Prepare(job: nat)
    | RunBegin(job: nat)
    | RunEnd(job: nat)
    | Finish(job: nat, context: nat, result: int)

  /** What the oldest held job is: still queued, handed to the worker, or taken
      back by a poll that has yet to finish it. */
  datatype Head = Queued | Active | Taken

  datatype Worker =
    | Waiting
    | Running(started: bool)
    | Ended(ran: bool, outcome: int)
    | Exited

  /** Where the control thread stands between its critical sections. */
  datatype Control = Idle | Reaped(now: int) | Finished(now: int) | Swept | Disposed

  /** `jobs` are all held jobs, oldest first. Receipt status: 0 pending,
      1 committed, -1 failed. */
  datatype Lane = Lane(
    jobs: seq<Job>, head: Head, done: bool, count: int, bytes: int, maxBytes: nat,
    worker: Worker, control: Control, clock: int,
    receipts: seq<int>, submitted: nat, destroyed: multiset<nat>, log: seq<Event>)

  datatype Op =
    | Submit(size: nat, coalesce: bool, memory: bool, now: int)
    | PollReap(now: int)
    | PollFinish(finished: int)
    | PollExpire
    | PollHandoff
    | Dispose
    | WorkerTake(now: int)
    | WorkerRan(outcome: int, now: int)
    | WorkerPublish
    | WorkerExit

  function Init(maxBytes: nat): Lane {
    Lane([], Queued, false, 0, 0, maxBytes, Waiting, Idle, 0, [], 0, multiset{}, [])
  }

  /** How many held jobs are no longer queued. */
  function Front(l: Lane): nat {
    if l.head == Queued || l.jobs == [] then 0 else 1
  }

  function Queue(l: Lane): seq<Job> { l.jobs[Front(l)..] }

  function Bytes(q: seq<Job>): nat {
    if q == [] then 0 else q[0].bytes + Bytes(q[1..])
  }

  function Contexts(q: seq<Job>): (c: seq<nat>)
    ensures |c| == |q|
    ensures forall i :: 0 <= i < |q| ==> c[i] == q[i].context
  {
    if q == [] then [] else [q[0].context] + Contexts(q[1..])
  }

  // ----------------------------------------------------------------- the steps

  predicate Enabled(l: Lane, op: Op) {
    match op
    case Submit(_, _, _, now) => l.control == Idle && now >= l.clock
    case PollReap(now) => l.control == Idle && now >= l.clock
    case PollFinish(_) => l.control.Reaped?
    case PollExpire => l.control.Finished?
    case PollHandoff => l.control == Swept
    case Dispose => l.control == Idle
    case WorkerTake(now) =>
      l.worker == Waiting && l.control != Disposed && l.head == Active && l.jobs != [] && !l.done && now >= l.clock
    case WorkerRan(_, now) => l.worker.Running? && l.jobs != [] && now >= l.clock
    case WorkerPublish => l.worker.Ended? && l.jobs != []
    case WorkerExit => l.worker == Waiting && l.control == Disposed
  }

  function Apply(l: Lane, op: Op): Lane {
    if !Enabled(l, op) then l
    else match op
      case Submit(size, coalesce, memory, now) => DoSubmit(l, size, coalesce, memory, now)
      case PollReap(now) => DoReap(l, now)
      case PollFinish(finished) => DoFinish(l, finished)
      case PollExpire => DoExpire(l)
      case PollHandoff =>
        if l.head != Queued || l.jobs == [] then l.(control := Idle)
        else l.(control := Idle, head := Active, log := l.log + [Prepare(l.jobs[0].id)])
      case Dispose => DoDispose(l)
      case WorkerTake(now) =>
        if CanceledNow(l.jobs[0], now) then l.(clock := now, worker := Running(false))
        else l.(clock := now, worker := Running(true), log := l.log + [RunBegin(l.jobs[0].id)])
      case WorkerRan(outcome, now) =>
        if !l.worker.started then l.(clock := now, worker := Ended(false, -1))
        else l.(clock := now, worker := Ended(true, if CanceledNow(l.jobs[0], now) then -1 else outcome),
                log := l.log + [RunEnd(l.jobs[0].id)])
      case WorkerPublish => l.(jobs := l.jobs[0 := l.jobs[0].(result := l.worker.outcome)], done := true, worker := Waiting)
      case WorkerExit =>
        l.(worker := Exited, jobs := [], head := Queued, done := false,
           destroyed := l.destroyed + multiset(Contexts(l.jobs)))
  }

  function Run(l: Lane, ops: seq<Op>): Lane {
    if ops == [] then l else Apply(Run(l, ops[..|ops| - 1]), ops[|ops| - 1])
  }

  /** A coalescing submission replaces the newest queued job, if any. */
  predicate Replaces(l: Lane, coalesce: bool) {
    coalesce && Queue(l) != []
  }

  predicate Admits(l: Lane, size: nat, coalesce: bool) {
    if Replaces(l, coalesce) then l.bytes - l.jobs[|l.jobs| - 1].bytes + size <= l.maxBytes
    else l.bytes + size <= l.maxBytes && l.count < MAX_JOBS
  }

  function DoSubmit(l: Lane, size: nat, coalesce: bool, memory: bool, now: int): Lane {
    var m := l.(clock := now, submitted := l.submitted + 1);
    var n := |l.jobs| - 1;
    if !Admits(l, size, coalesce) || (!Replaces(l, coalesce) && !memory) then
      m.(destroyed := m.destroyed + multiset{l.submitted})
    else if Replaces(l, coalesce) then
      m.(jobs := l.jobs[n := l.jobs[n].(context := l.submitted, bytes := size)],
         bytes := l.bytes - l.jobs[n].bytes + size,
         destroyed := m.destroyed + multiset{l.jobs[n].context})
    else
      m.(jobs := l.jobs + [Job(|l.receipts|, l.submitted, size, now + DEADLINE_MS, false, 0)],
         count := l.count + 1, bytes := l.bytes + size, receipts := l.receipts + [0])
  }

  /** The receipt a submission returns: its own, the replaced job's, or none. */
  function ReceiptOf(l: Lane, size: nat, coalesce: bool, memory: bool): int {
    if !Admits(l, size, coalesce) || (!Replaces(l, coalesce) && !memory) then -1
    else if Replaces(l, coalesce) then l.jobs[|l.jobs| - 1].id
    else |l.receipts|
  }

  function Settle(receipts: seq<int>, id: nat, status: int): (r: seq<int>)
    ensures |r| == |receipts|
  {
    if id < |receipts| && receipts[id] == 0 then receipts[id := status] else receipts
  }

  function DoReap(l: Lane, now: int): Lane {
    var m := l.(clock := now, control := Reaped(now));
    if l.head != Active || l.jobs == [] then m
    else
      var late := now >= l.jobs[0].deadline;
      m.(jobs := if late then l.jobs[0 := l.jobs[0].(canceled := true)] else l.jobs,
         receipts := if late then Settle(l.receipts, l.jobs[0].id, -1) else l.receipts,
         head := if l.done then Taken else Active, done := false)
  }

  /** What the finish callback is told. */
  function Outcome(job: Job): int {
    if job.canceled then -1 else job.result
  }

  function DoFinish(l: Lane, finished: int): Lane
    requires l.control.Reaped?
  {
    var m := l.(control := Finished(l.control.now));
    if l.head != Taken || l.jobs == [] then m
    else
      var job := l.jobs[0];
      m.(jobs := l.jobs[1..], head := Queued,
         receipts := Settle(l.receipts, job.id, if finished == 0 then 1 else -1),
         count := l.count - 1, bytes := l.bytes - job.bytes,
         destroyed := l.destroyed + multiset{job.context},
         log := l.log + [Finish(job.id, job.context, Outcome(job))])
  }

  /** The head run of expired jobs, which is all the poll loop looks at. */
  function ExpiredHead(q: seq<Job>, now: int): (n: nat)
    ensures n <= |q|
  {
    if q != [] && now >= q[0].deadline then 1 + ExpiredHead(q[1..], now) else 0
  }

  /** Receipts of `q` set to failed. */
  function Fail(receipts: seq<int>, q: seq<Job>): (r: seq<int>)
    ensures |r| == |receipts|
    ensures forall i :: 0 <= i < |r| ==> r[i] == if exists k :: 0 <= k < |q| && q[k].id == i then -1 else receipts[i]
  {
    seq(|receipts|, i requires 0 <= i < |receipts| =>
      if exists k :: 0 <= k < |q| && q[k].id == i then -1 else receipts[i])
  }

  function DoExpire(l: Lane): Lane
    requires l.control.Finished?
  {
    var n := ExpiredHead(Queue(l), l.control.now);
    var gone := Queue(l)[..n];
    l.(control := Swept, jobs := l.jobs[..Front(l)] + Queue(l)[n..], receipts := Fail(l.receipts, gone),
       count := l.count - n, bytes := l.bytes - Bytes(gone), destroyed := l.destroyed + multiset(Contexts(gone)))
  }

  function DoDispose(l: Lane): Lane {
    var kept := l.jobs[..Front(l)];
    l.(control := Disposed,
       jobs := if kept == [] then [] else kept[0 := kept[0].(canceled := true)],
       receipts := Fail(l.receipts, l.jobs),
       destroyed := l.destroyed + multiset(Contexts(Queue(l))))
  }

  predicate CanceledNow(job: Job, now: int) {
    job.canceled || now >= job.deadline
  }

  // ---------------------------------------------------------------- invariants

  ghost predicate Ordered(q: seq<Job>) {
    forall i, j :: 0 <= i < j < |q| ==>
      q[i].id < q[j].id && q[i].context < q[j].context && q[i].deadline <= q[j].deadline
  }

  ghost predicate HeldJobs(l: Lane) {
    forall i :: 0 <= i < |l.jobs| ==>
      && l.jobs[i].id < |l.receipts| && -1 <= l.receipts[l.jobs[i].id] <= 0
      && l.jobs[i].deadline <= l.clock + DEADLINE_MS && l.jobs[i].context < l.submitted
      && (i >= Front(l) ==> l.receipts[l.jobs[i].id] == 0 && !l.jobs[i].canceled)
  }

  predicate Accounts(l: Lane) {
    l.control == Disposed || (l.count == |l.jobs| <= MAX_JOBS && l.bytes == Bytes(l.jobs) <= l.maxBytes)
  }

  /** One of each context submitted so far. */
  ghost function Upto(n: nat): multiset<nat> {
    if n == 0 then multiset{} else Upto(n - 1) + multiset{n - 1}
  }

  /** Each context is either held by one job or was destroyed once. */
  ghost predicate Owned(l: Lane) {
    Owns(l.destroyed, l.jobs, l.submitted)
  }

  ghost predicate Owns(destroyed: multiset<nat>, jobs: seq<Job>, submitted: nat) {
    destroyed + multiset(Contexts(jobs)) == Upto(submitted)
  }

  /** Callbacks of one job follow each other before the next job is prepared. */
  predicate Follows(e: Event, f: Event) {
    match e
    case Prepare(j) => (f.RunBegin? || f.Finish?) && f.job == j
    case RunBegin(j) => f == RunEnd(j)
    case RunEnd(j) => f.Finish? && f.job == j
    case Finish(j, _, _) => f.Prepare? && f.job > j
  }

  ghost predicate Serial(log: seq<Event>) {
    && (log != [] ==> log[0].Prepare?)
    && forall i :: 0 <= i < |log| - 1 ==> Follows(log[i], log[i + 1])
  }

  function LastOf(log: seq<Event>): Event
    requires log != []
  {
    log[|log| - 1]
  }

  /** The last callback, given what the threads are doing. */
  predicate LastEvent(l: Lane) {
    if l.head == Queued then
      l.control == Disposed || l.log == [] ||
      (LastOf(l.log).Finish? && LastOf(l.log).job < |l.receipts| && (l.jobs != [] ==> LastOf(l.log).job < l.jobs[0].id))
    else
      && l.log != [] && l.jobs != []
      && var e, j := LastOf(l.log), l.jobs[0].id;
      match l.worker
      case Running(started) => e == if started then RunBegin(j) else Prepare(j)
      case Ended(ran, _) => e == if ran then RunEnd(j) else Prepare(j)
      case _ => e == Prepare(j) || ((l.done || l.head == Taken) && e == RunEnd(j))
  }

  predicate Phases(l: Lane) {
    && (l.done ==> l.head == Active && l.worker == Waiting)
    && (l.worker.Running? || l.worker.Ended? ==> l.head == Active && !l.done)
    && (l.head == Taken ==> l.control.Reaped?)
    && (l.worker == Exited ==> l.control == Disposed && l.jobs == [])
    && (l.control == Disposed ==> Queue(l) == [])
    && (l.control.Reaped? || l.control.Finished? ==> l.control.now <= l.clock)
  }

  ghost predicate Inv(l: Lane) {
    && Phases(l) && Serial(l.log) && LastEvent(l)
    && Ordered(l.jobs) && HeldJobs(l) && Accounts(l) && Owned(l)
  }

  // ----------------------------------------------------------- preservation

  lemma {:induction false} BytesConcat(a: seq<Job>, b: seq<Job>)
    ensures Bytes(a + b) == Bytes(a) + Bytes(b)
  {
    if a == [] {
      assert a + b == b;
    } else {
      BytesConcat(a[1..], b);
      assert (a + b)[1..] == a[1..] + b;
    }
  }

  lemma ContextsConcat(a: seq<Job>, b: seq<Job>)
    ensures Contexts(a + b) == Contexts(a) + Contexts(b)
  {}

  /** The jobs a sweep leaves and the ones it removes. */
  lemma Slices(jobs: seq<Job>, f: nat, n: nat)
    requires f + n <= |jobs|
    ensures jobs[f..][..n] == jobs[f..f + n] && jobs[f..][n..] == jobs[f + n..]
    ensures jobs == jobs[..f] + (jobs[f..f + n] + jobs[f + n..])
    ensures |jobs[..f] + jobs[f + n..]| == |jobs| - n
  {}

  lemma SlicesBytes(jobs: seq<Job>, f: nat, n: nat)
    requires f + n <= |jobs|
    ensures Bytes(jobs) == Bytes(jobs[..f] + jobs[f + n..]) + Bytes(jobs[f..f + n])
  {
    Slices(jobs, f, n);
    BytesConcat(jobs[..f], jobs[f..f + n] + jobs[f + n..]);
    BytesConcat(jobs[f..f + n], jobs[f + n..]);
    BytesConcat(jobs[..f], jobs[f + n..]);
  }

  lemma SlicesContexts(jobs: seq<Job>, f: nat, n: nat)
    requires f + n <= |jobs|
    ensures multiset(Contexts(jobs)) == multiset(Contexts(jobs[f..f + n])) + multiset(Contexts(jobs[..f] + jobs[f + n..]))
  {
    var a, b, c := jobs[..f], jobs[f..f + n], jobs[f + n..];
    Slices(jobs, f, n);
    assert Contexts(jobs) == Contexts(a) + (Contexts(b) + Contexts(c)) by {
      ContextsConcat(a, b + c);
      ContextsConcat(b, c);
    }
    ContextsConcat(a, c);
  }

  lemma SerialAppend(log: seq<Event>, e: Event)
    requires Serial(log) && (if log == [] then e.Prepare? else Follows(LastOf(log), e))
    ensures Serial(log + [e])
  {}

  lemma CallbacksKept(l: Lane, op: Op)
    requires Phases(l) && Serial(l.log) && LastEvent(l) && Enabled(l, op)
    ensures Serial(Apply(l, op).log)
  {
    var m := Apply(l, op);
    if m.log != l.log {
      SerialAppend(l.log, LastOf(m.log));
    }
  }

  lemma SubmitPhases(l: Lane, op: Op)
    requires Phases(l) && LastEvent(l) && Enabled(l, op) && op.Submit?
    ensures Phases(Apply(l, op)) && LastEvent(Apply(l, op))
  {}

  lemma FinishPhases(l: Lane, op: Op)
    requires Phases(l) && LastEvent(l) && HeldJobs(l) && Ordered(l.jobs) && Enabled(l, op) && op.PollFinish?
    ensures Phases(Apply(l, op)) && LastEvent(Apply(l, op))
  {
    assert |l.jobs| > 1 ==> l.jobs[0].id < l.jobs[1].id;
  }

  lemma ExpirePhases(l: Lane, op: Op)
    requires Phases(l) && LastEvent(l) && Ordered(l.jobs) && Enabled(l, op) && op.PollExpire?
    ensures Phases(Apply(l, op)) && LastEvent(Apply(l, op))
  {
    var m := Apply(l, op);
    if l.head == Queued && m.jobs != [] {
      assert m.jobs[0] == l.jobs[|l.jobs| - |m.jobs|];
    }
  }

  lemma PollPhases(l: Lane, op: Op)
    requires Phases(l) && LastEvent(l) && Enabled(l, op) && (op.PollReap? || op.PollHandoff?)
    ensures Phases(Apply(l, op)) && LastEvent(Apply(l, op))
  {
    hide Fail, Bytes, Contexts, ExpiredHead, DoSubmit, DoFinish, DoExpire, DoDispose, Settle;
  }

  lemma DisposePhases(l: Lane)
    requires Phases(l) && LastEvent(l) && l.control == Idle
    ensures Phases(DoDispose(l)) && LastEvent(DoDispose(l))
  {
    hide Fail, Bytes, Contexts;
  }

  lemma WorkerPhases(l: Lane, op: Op)
    requires Phases(l) && LastEvent(l) && Enabled(l, op) && (op.WorkerTake? || op.WorkerRan? || op.WorkerPublish? || op.WorkerExit?)
    ensures Phases(Apply(l, op)) && LastEvent(Apply(l, op))
  {
    hide Fail, Bytes, Contexts, ExpiredHead, DoSubmit, DoFinish, DoExpire, DoDispose, DoReap, CanceledNow;
  }

  lemma OtherPhases(l: Lane, op: Op)
    requires Phases(l) && LastEvent(l) && Enabled(l, op)
    requires !op.Submit? && !op.PollFinish? && !op.PollExpire?
    ensures Phases(Apply(l, op)) && LastEvent(Apply(l, op))
  {
    hide Phases, LastEvent;
    match op {
      case PollReap(_) => PollPhases(l, op);
      case PollHandoff => PollPhases(l, op);
      case Dispose => DisposePhases(l);
      case _ => WorkerPhases(l, op);
    }
  }

  lemma HeldReplaced(l: Lane, m: Lane, size: nat)
    requires HeldJobs(l) && Ordered(l.jobs) && |l.jobs| > Front(l) && m.clock >= l.clock && m.submitted == l.submitted + 1
    requires m.receipts == l.receipts && m.head == l.head
    requires var n := |l.jobs| - 1; m.jobs == l.jobs[n := l.jobs[n].(context := l.submitted, bytes := size)]
    ensures HeldJobs(m) && Ordered(m.jobs)
  {
    assert forall i :: 0 <= i < |l.jobs| - 1 ==> m.jobs[i] == l.jobs[i];
  }

  lemma HeldAppended(l: Lane, m: Lane, job: Job)
    requires HeldJobs(l) && Ordered(l.jobs) && m.clock >= l.clock && m.submitted == l.submitted + 1
    requires m.receipts == l.receipts + [0] && m.head == l.head && m.jobs == l.jobs + [job]
    requires job.id == |l.receipts| && job.context == l.submitted && job.deadline == m.clock + DEADLINE_MS && !job.canceled
    ensures HeldJobs(m) && Ordered(m.jobs)
  {
    assert forall i :: 0 <= i < |l.jobs| ==> m.jobs[i] == l.jobs[i];
    assert forall r :: 0 <= r < |l.receipts| ==> m.receipts[r] == l.receipts[r];
  }

  lemma SubmitHeld(l: Lane, size: nat, coalesce: bool, memory: bool, now: int)
    requires HeldJobs(l) && Ordered(l.jobs) && now >= l.clock
    ensures HeldJobs(DoSubmit(l, size, coalesce, memory, now)) && Ordered(DoSubmit(l, size, coalesce, memory, now).jobs)
  {
    var m := DoSubmit(l, size, coalesce, memory, now);
    if Admits(l, size, coalesce) && (Replaces(l, coalesce) || memory) {
      hide HeldJobs, Ordered, Admits;
      if Replaces(l, coalesce) {
        HeldReplaced(l, m, size);
      } else {
        HeldAppended(l, m, Job(|l.receipts|, l.submitted, size, now + DEADLINE_MS, false, 0));
      }
    }
  }

  lemma ExpireHeld(l: Lane)
    requires HeldJobs(l) && Ordered(l.jobs) && l.control.Finished?
    ensures HeldJobs(DoExpire(l)) && Ordered(DoExpire(l).jobs)
  {
    var n, f := ExpiredHead(Queue(l), l.control.now), Front(l);
    Slices(l.jobs, f, n);
    RemainHeld(l, DoExpire(l), f, n);
  }

  lemma RemainHeld(l: Lane, m: Lane, f: nat, n: nat)
    requires HeldJobs(l) && Ordered(l.jobs) && Front(l) == f && f + n <= |l.jobs|
    requires m.jobs == l.jobs[..f] + l.jobs[f + n..] && m.receipts == Fail(l.receipts, l.jobs[f..f + n])
    requires m.clock == l.clock && m.submitted == l.submitted && m.head == l.head
    ensures HeldJobs(m) && Ordered(m.jobs)
  {
    hide Fail;
    forall i | 0 <= i < |m.jobs| ensures m.jobs[i] == l.jobs[if i < f then i else i + n] {}
    forall i | 0 <= i < |m.jobs|
      ensures l.jobs[if i < f then i else i + n].id < |m.receipts| == |l.receipts|
      ensures m.receipts[m.jobs[i].id] == l.receipts[m.jobs[i].id]
    {
      SparedByFail(l.receipts, l.jobs, f, n, if i < f then i else i + n);
    }
  }

  lemma SparedByFail(receipts: seq<int>, jobs: seq<Job>, f: nat, n: nat, j: nat)
    requires Ordered(jobs) && f + n <= |jobs| && j < |jobs| && (j < f || j >= f + n) && jobs[j].id < |receipts|
    ensures Fail(receipts, jobs[f..f + n])[jobs[j].id] == receipts[jobs[j].id]
  {
    var gone := jobs[f..f + n];
    forall k | 0 <= k < |gone| ensures gone[k].id != jobs[j].id {
      assert gone[k] == jobs[f + k];
    }
  }

  lemma FinishHeld(l: Lane, finished: int)
    requires HeldJobs(l) && Ordered(l.jobs) && l.control.Reaped?
    ensures HeldJobs(DoFinish(l, finished)) && Ordered(DoFinish(l, finished).jobs)
  {
    var m := DoFinish(l, finished);
    if l.head == Taken && l.jobs != [] {
      assert forall i :: 0 <= i < |m.jobs| ==> m.jobs[i] == l.jobs[i + 1] && l.jobs[0].id < m.jobs[i].id;
    }
  }

  lemma DisposeHeld(l: Lane)
    requires HeldJobs(l)
    ensures HeldJobs(DoDispose(l)) && Ordered(DoDispose(l).jobs)
  {}

  lemma ReapHeld(l: Lane, now: int)
    requires HeldJobs(l) && Ordered(l.jobs) && now >= l.clock
    ensures HeldJobs(DoReap(l, now)) && Ordered(DoReap(l, now).jobs)
  {}

  lemma OtherHeld(l: Lane, op: Op)
    requires LastEvent(l) && HeldJobs(l) && Ordered(l.jobs) && Enabled(l, op)
    requires op.PollHandoff? || op.WorkerTake? || op.WorkerRan? || op.WorkerExit?
    ensures HeldJobs(Apply(l, op)) && Ordered(Apply(l, op).jobs)
  {
    hide Ordered;
    var m := Apply(l, op);
    assert m.receipts == l.receipts && m.submitted == l.submitted && m.clock >= l.clock;
    if op.WorkerExit? {
      NothingHeld(m);
    } else {
      assert m.jobs == l.jobs && Front(m) >= Front(l);
      hide Apply;
    }
  }

  lemma NothingHeld(l: Lane)
    requires l.jobs == []
    ensures HeldJobs(l) && Ordered(l.jobs)
  {}

  lemma PublishHeld(l: Lane)
    requires Phases(l) && HeldJobs(l) && Ordered(l.jobs) && Enabled(l, WorkerPublish)
    ensures HeldJobs(Apply(l, WorkerPublish)) && Ordered(Apply(l, WorkerPublish).jobs)
  {}

  lemma SubmitAccounts(l: Lane, size: nat, coalesce: bool, memory: bool, now: int)
    requires Accounts(l)
    ensures Accounts(DoSubmit(l, size, coalesce, memory, now))
  {
    var m := DoSubmit(l, size, coalesce, memory, now);
    var n := |l.jobs| - 1;
    if |m.jobs| > |l.jobs| {
      BytesConcat(l.jobs, [m.jobs[n + 1]]);
    } else if n >= 0 {
      BytesConcat(l.jobs[..n], [l.jobs[n]]);
      BytesConcat(l.jobs[..n], [m.jobs[n]]);
      assert l.jobs == l.jobs[..n] + [l.jobs[n]] && m.jobs == l.jobs[..n] + [m.jobs[n]];
    }
  }

  lemma ExpireAccounts(l: Lane)
    requires Accounts(l) && l.control.Finished?
    ensures Accounts(DoExpire(l))
  {
    hide Bytes, ExpiredHead, Fail, Contexts;
    var f, n := Front(l), ExpiredHead(Queue(l), l.control.now);
    Slices(l.jobs, f, n);
    SlicesBytes(l.jobs, f, n);
    var m := DoExpire(l);
    assert m.jobs == l.jobs[..f] + l.jobs[f + n..] && m.count == l.count - n;
    assert m.bytes == l.bytes - Bytes(l.jobs[f..f + n]);
  }

  lemma OtherAccounts(l: Lane, op: Op)
    requires Phases(l) && LastEvent(l) && Accounts(l) && Enabled(l, op) && !op.Submit? && !op.PollExpire?
    ensures Accounts(Apply(l, op))
  {
    var m := Apply(l, op);
    assert |m.jobs| == |l.jobs| && m.jobs != [] ==> m.jobs[1..] == l.jobs[1..];
  }

  lemma Destroy(destroyed: multiset<nat>, gone: multiset<nat>, held: seq<Job>, left: seq<Job>, all: multiset<nat>)
    requires destroyed + multiset(Contexts(held)) == all
    requires multiset(Contexts(held)) == gone + multiset(Contexts(left))
    ensures (destroyed + gone) + multiset(Contexts(left)) == all
  {}

  lemma ContextsReplaceLast(jobs: seq<Job>, job: Job)
    requires jobs != []
    ensures multiset(Contexts(jobs[|jobs| - 1 := job])) + multiset{jobs[|jobs| - 1].context}
         == multiset(Contexts(jobs)) + multiset{job.context}
  {
    var n := |jobs| - 1;
    var kept := jobs[..n];
    assert Contexts(jobs) == Contexts(kept) + [jobs[n].context];
    assert Contexts(jobs[n := job]) == Contexts(kept) + [job.context];
  }

  lemma Replace(destroyed: multiset<nat>, before: multiset<nat>, after: multiset<nat>, x: nat, y: nat)
    requires after + multiset{x} == before + multiset{y}
    ensures (destroyed + multiset{x}) + after == (destroyed + before) + multiset{y}
  {
    assert (destroyed + multiset{x}) + after == destroyed + (after + multiset{x});
  }

  lemma OwnsRejected(destroyed: multiset<nat>, jobs: seq<Job>, n: nat)
    requires Owns(destroyed, jobs, n)
    ensures Owns(destroyed + multiset{n}, jobs, n + 1)
  {
    var held := multiset(Contexts(jobs));
    Replace(destroyed, held, held, n, n);
  }

  lemma OwnsReplaced(destroyed: multiset<nat>, jobs: seq<Job>, n: nat, job: Job)
    requires Owns(destroyed, jobs, n) && jobs != [] && job.context == n
    ensures Owns(destroyed + multiset{jobs[|jobs| - 1].context}, jobs[|jobs| - 1 := job], n + 1)
  {
    var i := |jobs| - 1;
    ContextsReplaceLast(jobs, job);
    Replace(destroyed, multiset(Contexts(jobs)), multiset(Contexts(jobs[i := job])), jobs[i].context, n);
  }

  lemma OwnsAppended(destroyed: multiset<nat>, jobs: seq<Job>, n: nat, job: Job)
    requires Owns(destroyed, jobs, n) && job.context == n
    ensures Owns(destroyed, jobs + [job], n + 1)
  {
    ContextsConcat(jobs, [job]);
    assert Contexts([job]) == [n];
  }

  lemma SubmitOwned(l: Lane, size: nat, coalesce: bool, memory: bool, now: int)
    requires Owned(l)
    ensures Owned(DoSubmit(l, size, coalesce, memory, now))
  {
    hide Owns;
    var m := DoSubmit(l, size, coalesce, memory, now);
    if !Admits(l, size, coalesce) || (!Replaces(l, coalesce) && !memory) {
      OwnsRejected(l.destroyed, l.jobs, l.submitted);
    } else if Replaces(l, coalesce) {
      OwnsReplaced(l.destroyed, l.jobs, l.submitted, m.jobs[|l.jobs| - 1]);
    } else {
      OwnsAppended(l.destroyed, l.jobs, l.submitted, m.jobs[|l.jobs|]);
    }
  }

  lemma ExpireOwned(l: Lane)
    requires Owned(l) && l.control.Finished?
    ensures Owned(DoExpire(l))
  {
    var f, n := Front(l), ExpiredHead(Queue(l), l.control.now);
    Slices(l.jobs, f, n);
    SlicesContexts(l.jobs, f, n);
    Destroy(l.destroyed, multiset(Contexts(l.jobs[f..f + n])), l.jobs, l.jobs[..f] + l.jobs[f + n..], Upto(l.submitted));
  }

  lemma DisposeOwned(l: Lane)
    requires Owned(l)
    ensures Owned(DoDispose(l))
  {
    var kept := l.jobs[..Front(l)];
    assert l.jobs == kept + Queue(l);
    ContextsConcat(kept, Queue(l));
    assert Contexts(DoDispose(l).jobs) == Contexts(kept);
    Destroy(l.destroyed, multiset(Contexts(Queue(l))), l.jobs, kept, Upto(l.submitted));
  }

  lemma FinishOwned(l: Lane, finished: int)
    requires Owned(l) && l.control.Reaped?
    ensures Owned(DoFinish(l, finished))
  {
    if l.head == Taken && l.jobs != [] {
      assert Contexts(l.jobs) == [l.jobs[0].context] + Contexts(l.jobs[1..]);
      Destroy(l.destroyed, multiset{l.jobs[0].context}, l.jobs, l.jobs[1..], Upto(l.submitted));
    }
  }

  lemma OwnsSame(destroyed: multiset<nat>, a: seq<Job>, b: seq<Job>, n: nat)
    requires Owns(destroyed, a, n)
    requires |a| == |b| && forall i :: 0 <= i < |a| ==> a[i].context == b[i].context
    ensures Owns(destroyed, b, n)
  {
    assert Contexts(a) == Contexts(b);
  }

  lemma OwnsNothing(destroyed: multiset<nat>, jobs: seq<Job>, n: nat)
    requires Owns(destroyed, jobs, n)
    ensures Owns(destroyed + multiset(Contexts(jobs)), [], n)
  {}

  lemma OtherOwned(l: Lane, op: Op)
    requires Owned(l) && Enabled(l, op)
    requires !op.Submit? && !op.PollExpire? && !op.Dispose? && !op.PollFinish?
    ensures Owned(Apply(l, op))
  {
    hide Owns;
    if op.WorkerExit? {
      OwnsNothing(l.destroyed, l.jobs, l.submitted);
    } else {
      OwnsSame(l.destroyed, l.jobs, Apply(l, op).jobs, l.submitted);
    }
  }

  lemma StepOwned(l: Lane, op: Op)
    requires Owned(l) && Enabled(l, op)
    ensures Owned(Apply(l, op))
  {
    hide Owned;
    match op {
      case Submit(size, coalesce, memory, now) => SubmitOwned(l, size, coalesce, memory, now);
      case PollFinish(finished) => FinishOwned(l, finished);
      case PollExpire => ExpireOwned(l);
      case Dispose => DisposeOwned(l);
      case _ => OtherOwned(l, op);
    }
  }

  lemma StepHeld(l: Lane, op: Op)
    requires Phases(l) && LastEvent(l) && HeldJobs(l) && Ordered(l.jobs) && Enabled(l, op)
    ensures HeldJobs(Apply(l, op)) && Ordered(Apply(l, op).jobs)
  {
    hide HeldJobs, Ordered;
    match op {
      case Submit(size, coalesce, memory, now) => SubmitHeld(l, size, coalesce, memory, now);
      case PollReap(now) => ReapHeld(l, now);
      case PollFinish(finished) => FinishHeld(l, finished);
      case PollExpire => ExpireHeld(l);
      case Dispose => DisposeHeld(l);
      case WorkerPublish => PublishHeld(l);
      case _ => OtherHeld(l, op);
    }
  }

  lemma StepPhases(l: Lane, op: Op)
    requires Phases(l) && LastEvent(l) && HeldJobs(l) && Ordered(l.jobs) && Enabled(l, op)
    ensures Phases(Apply(l, op)) && LastEvent(Apply(l, op))
  {
    hide *;
    match op {
      case Submit(_, _, _, _) => SubmitPhases(l, op);
      case PollFinish(_) => FinishPhases(l, op);
      case PollExpire => ExpirePhases(l, op);
      case _ => OtherPhases(l, op);
    }
  }

  lemma StepAccounts(l: Lane, op: Op)
    requires Phases(l) && LastEvent(l) && Accounts(l) && Enabled(l, op)
    ensures Accounts(Apply(l, op))
  {
    hide Accounts;
    match op {
      case Submit(size, coalesce, memory, now) => SubmitAccounts(l, size, coalesce, memory, now);
      case PollExpire => ExpireAccounts(l);
      case _ => OtherAccounts(l, op);
    }
  }

  /** Every step of either thread keeps every invariant. */
  lemma StepKeeps(l: Lane, op: Op)
    requires Inv(l)
    ensures Inv(Apply(l, op))
  {
    if Enabled(l, op) {
      hide Phases, LastEvent, HeldJobs, Ordered, Accounts, Owned, Serial, Apply;
      CallbacksKept(l, op);
      StepPhases(l, op);
      StepHeld(l, op);
      StepAccounts(l, op);
      StepOwned(l, op);
    }
  }

  // --------------------------------------------------------------- every run

  lemma {:induction false} RunKeeps(maxBytes: nat, ops: seq<Op>)
    ensures Inv(Run(Init(maxBytes), ops))
  {
    if ops != [] {
      RunKeeps(maxBytes, ops[..|ops| - 1]);
      StepKeeps(Run(Init(maxBytes), ops[..|ops| - 1]), ops[|ops| - 1]);
    }
  }

  /** In an accepted log, job numbers never decrease: no callback of a job
      stands between two callbacks of another. */
  lemma {:induction false} SerialIsContiguous(log: seq<Event>, i: nat, j: nat)
    requires Serial(log) && i <= j < |log|
    ensures log[i].job <= log[j].job
    ensures i < j && log[i].job == log[j].job ==> !log[i].Finish? && !log[j].Prepare?
    decreases j - i
  {
    if i < j {
      assert Follows(log[j - 1], log[j]);
      SerialIsContiguous(log, i, j - 1);
    }
  }

  /** In every interleaving, a job is prepared only after the previous one has
      finished, runs at most once in between, and finishes after its run. */
  lemma CallbacksNeverOverlap(maxBytes: nat, ops: seq<Op>, i: nat, j: nat)
    requires i < j < |Run(Init(maxBytes), ops).log|
    ensures var log := Run(Init(maxBytes), ops).log;
      && log[i].job <= log[j].job
      && Follows(log[j - 1], log[j])
      && (log[i].job == log[j].job ==> !log[i].Finish? && !log[j].Prepare?)
  {
    RunKeeps(maxBytes, ops);
    var log := Run(Init(maxBytes), ops).log;
    SerialIsContiguous(log, i, j);
    assert Follows(log[j - 1], log[j - 1 + 1]);
  }

  lemma {:induction false} UptoCount(n: nat, c: nat)
    ensures Upto(n)[c] == if c < n then 1 else 0
  {
    if n > 0 {
      UptoCount(n - 1, c);
    }
  }

  /** Whatever became of it (replaced, expired, rejected, finished, abandoned),
      a submitted context is destroyed once, or still held and not destroyed. */
  lemma EachContextDestroyedOnce(maxBytes: nat, ops: seq<Op>, c: nat)
    ensures var l := Run(Init(maxBytes), ops);
      && l.destroyed[c] + multiset(Contexts(l.jobs))[c] == (if c < l.submitted then 1 else 0)
      && (l.worker == Exited && c < l.submitted ==> l.destroyed[c] == 1)
  {
    RunKeeps(maxBytes, ops);
    var l := Run(Init(maxBytes), ops);
    UptoCount(l.submitted, c);
    assert (l.destroyed + multiset(Contexts(l.jobs)))[c] == l.destroyed[c] + multiset(Contexts(l.jobs))[c];
  }

  /** The counters are exactly the held jobs, within the lane's limits. */
  lemma CountersAreTheHeldJobs(maxBytes: nat, ops: seq<Op>)
    ensures var l := Run(Init(maxBytes), ops);
      l.control != Disposed ==> l.count == |l.jobs| <= MAX_JOBS && l.bytes == Bytes(l.jobs) <= maxBytes
  {
    RunKeeps(maxBytes, ops);
    MaxBytesFixed(maxBytes, ops);
  }

  lemma {:induction false} MaxBytesFixed(maxBytes: nat, ops: seq<Op>)
    ensures Run(Init(maxBytes), ops).maxBytes == maxBytes
  {
    hide Apply;
    if ops != [] {
      MaxBytesFixed(maxBytes, ops[..|ops| - 1]);
      StepMaxBytes(Run(Init(maxBytes), ops[..|ops| - 1]), ops[|ops| - 1]);
    }
  }

  lemma StepMaxBytes(l: Lane, op: Op)
    ensures Apply(l, op).maxBytes == l.maxBytes
  {}

  lemma ExpireSettles(l: Lane, r: nat)
    requires HeldJobs(l) && l.control.Finished? && r < |l.receipts|
    ensures l.receipts[r] != 0 ==> DoExpire(l).receipts[r] == l.receipts[r]
    ensures l.receipts[r] == 0 ==> DoExpire(l).receipts[r] != 1
  {
    var gone := Queue(l)[..ExpiredHead(Queue(l), l.control.now)];
    forall k | 0 <= k < |gone| ensures gone[k].id < |l.receipts| && l.receipts[gone[k].id] == 0 {
      assert gone[k] == l.jobs[Front(l) + k];
    }
  }

  /** A step changes only pending receipts; only a finish commits one. */
  lemma StepSettles(l: Lane, op: Op, r: nat)
    requires HeldJobs(l) && r < |l.receipts|
    ensures r < |Apply(l, op).receipts|
    ensures l.receipts[r] != 0 ==> Apply(l, op).receipts[r] == l.receipts[r]
    ensures Apply(l, op).receipts[r] == 1 && l.receipts[r] == 0 ==>
              op == PollFinish(0) && l.head == Taken && l.jobs != [] && l.jobs[0].id == r
  {
    if Enabled(l, op) && op.PollExpire? {
      ExpireSettles(l, r);
    }
  }

  /** A receipt that left pending keeps its verdict for the rest of the run. */
  lemma {:induction false} ReceiptsSettleOnce(maxBytes: nat, ops: seq<Op>, more: seq<Op>, r: nat)
    requires r < |Run(Init(maxBytes), ops).receipts| && Run(Init(maxBytes), ops).receipts[r] != 0
    ensures r < |Run(Init(maxBytes), ops + more).receipts|
    ensures Run(Init(maxBytes), ops + more).receipts[r] == Run(Init(maxBytes), ops).receipts[r]
  {
    if more == [] {
      assert ops + more == ops;
    } else {
      hide Apply, HeldJobs;
      var shorter := more[..|more| - 1];
      ReceiptsSettleOnce(maxBytes, ops, shorter, r);
      RunKeeps(maxBytes, ops + shorter);
      assert (ops + more)[..|ops + more| - 1] == ops + shorter;
      StepSettles(Run(Init(maxBytes), ops + shorter), more[|more| - 1], r);
    }
  }

  // --------------------------------------------------------------- deadlines

  function Unexpired(q: seq<Job>, now: int): seq<Job> {
    if q == [] then []
    else if now >= q[0].deadline then Unexpired(q[1..], now) else [q[0]] + Unexpired(q[1..], now)
  }

  lemma {:induction false} HeadSweepIsFullSweep(q: seq<Job>, now: int)
    requires forall i, j :: 0 <= i < j < |q| ==> q[i].deadline <= q[j].deadline
    ensures q[ExpiredHead(q, now)..] == Unexpired(q, now)
  {
    if q != [] {
      HeadSweepIsFullSweep(q[1..], now);
      if now < q[0].deadline {
        assert forall i :: 0 <= i < |q[1..]| ==> q[1..][i].deadline >= q[0].deadline;
        NoneExpired(q[1..], now);
        assert q == [q[0]] + q[1..];
      } else {
        assert q[1..][ExpiredHead(q[1..], now)..] == q[ExpiredHead(q, now)..];
      }
    }
  }

  lemma {:induction false} NoneExpired(q: seq<Job>, now: int)
    requires forall i :: 0 <= i < |q| ==> now < q[i].deadline
    ensures Unexpired(q, now) == q
  {
    if q != [] {
      NoneExpired(q[1..], now);
    }
  }

  /** In every reachable state deadlines never decrease from the active job
      through the queue, so looking only at the head expires every queued job
      whose deadline has passed, and no other. */
  lemma SweepExpiresExactly(maxBytes: nat, ops: seq<Op>)
    requires Run(Init(maxBytes), ops).control.Finished?
    ensures var l := Run(Init(maxBytes), ops);
      && (forall i, j :: 0 <= i < j < |l.jobs| ==> l.jobs[i].deadline <= l.jobs[j].deadline)
      && Apply(l, PollExpire).jobs == l.jobs[..Front(l)] + Unexpired(Queue(l), l.control.now)
  {
    RunKeeps(maxBytes, ops);
    var l := Run(Init(maxBytes), ops);
    SweepExactly(l);
  }

  lemma SweepExactly(l: Lane)
    requires Ordered(l.jobs) && l.control.Finished?
    ensures Apply(l, PollExpire).jobs == l.jobs[..Front(l)] + Unexpired(Queue(l), l.control.now)
  {
    forall i, j | 0 <= i < j < |Queue(l)| ensures Queue(l)[i].deadline <= Queue(l)[j].deadline {
      assert Queue(l)[i] == l.jobs[Front(l) + i] && Queue(l)[j] == l.jobs[Front(l) + j];
    }
    HeadSweepIsFullSweep(Queue(l), l.control.now);
  }

  /** A lane that always coalesces holds at most one queued job behind the
      active one. */
  lemma {:induction false} CoalescingLaneIsShallow(maxBytes: nat, ops: seq<Op>)
    requires forall i :: 0 <= i < |ops| && ops[i].Submit? ==> ops[i].coalesce
    ensures |Queue(Run(Init(maxBytes), ops))| <= 1
  {
    if ops != [] {
      var shorter := ops[..|ops| - 1];
      CoalescingLaneIsShallow(maxBytes, shorter);
      RunKeeps(maxBytes, shorter);
      assert ops[|ops| - 1].Submit? ==> ops[|ops| - 1].coalesce;
      ShallowStep(Run(Init(maxBytes), shorter), ops[|ops| - 1]);
    }
  }

  lemma ShallowStep(l: Lane, op: Op)
    requires Phases(l) && LastEvent(l) && |Queue(l)| <= 1 && (op.Submit? ==> op.coalesce)
    ensures |Queue(Apply(l, op))| <= 1
  {
    hide Fail, Bytes, Contexts, Settle, ExpiredHead, LastOf;
    match op {
      case Submit(size, coalesce, memory, now) => if Enabled(l, op) { ShallowSubmit(l, size, memory, now); }
      case _ => hide DoSubmit;
    }
  }

  lemma ShallowSubmit(l: Lane, size: nat, memory: bool, now: int)
    requires LastEvent(l) && |Queue(l)| <= 1
    ensures |Queue(DoSubmit(l, size, true, memory, now))| <= 1
  {
    hide Admits, Bytes, Contexts, LastOf;
  }
}
