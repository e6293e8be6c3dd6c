/** The lane object itself: the struct both threads share, updated in place by
    the code of each critical section. */
module FileLane {
  import opened Common
  import opened PublicationLane

  /** `struct pm_publication_lane`. `completed` is the job the poll in progress
      took back. The last four fields record history. */
  datatype Fields = Fields(
    active: Option<Job>, done: bool, queue: seq<Job>, count: int, bytes: int, maxBytes: nat,
    receipts: seq<int>, completed: Option<Job>, control: Control, worker: Worker,
    clock: int, submitted: nat, destroyed: multiset<nat>, log: seq<Event>)

  /** The held jobs, oldest first; a poll never takes a job while one is active. */
  function Line(f: Fields): seq<Job> {
    if f.completed.Some? then [f.completed.value] + f.queue
    else if f.active.Some? then [f.active.value] + f.queue
    else f.queue
  }

  function Model(f: Fields): Lane {
    Lane(Line(f), if f.completed.Some? then Taken else if f.active.Some? then Active else Queued,
         f.done, f.count, f.bytes, f.maxBytes, f.worker, f.control, f.clock, f.receipts, f.submitted, f.destroyed, f.log)
  }

  /** The fields after the first `n` queued jobs went. */
  ghost function Without(first: Fields, n: nat): Fields
    requires n <= |first.queue|
  {
    var all := first.queue;
    first.(queue := all[n..], receipts := Fail(first.receipts, all[..n]), count := first.count - n,
           bytes := first.bytes - Bytes(all[..n]), destroyed := first.destroyed + multiset(Contexts(all[..n])))
  }

  /** One job off the head of the queue. */
  ghost function DropHead(f: Fields): Fields
    requires f.queue != []
  {
    var job := f.queue[0];
    f.(queue := f.queue[1..], receipts := if job.id < |f.receipts| then f.receipts[job.id := -1] else f.receipts,
       count := f.count - 1, bytes := f.bytes - job.bytes, destroyed := f.destroyed + multiset{job.context})
  }

  /** Unlinks the first job, fails its receipt and destroys it. */
  method Expire(f: Fields) returns (g: Fields)
    requires f.queue != []
    ensures g == DropHead(f)
  {
    var job := f.queue[0];
    g := f.(queue := f.queue[1..]);
    if job.id < |g.receipts| { g := g.(receipts := g.receipts[job.id := -1]); }
    g := g.(count := g.count - 1, bytes := g.bytes - job.bytes);
    g := g.(destroyed := g.destroyed + multiset{job.context});
  }

  lemma DropOne(first: Fields, n: nat)
    requires n < |first.queue|
    ensures DropHead(Without(first, n)) == Without(first, n + 1)
  {
    hide Contexts, Bytes, Fail;
    SweepOne(first.receipts, first.destroyed, first.queue, n);
    SameSize(first.receipts, first.queue[..n]);
  }

  lemma DropNone(f: Fields)
    ensures Without(f, 0) == f
  {
    hide Contexts, Bytes, Fail;
    SweepNone(f.receipts, f.queue);
  }

  lemma QueueWithout(first: Fields, n: nat)
    requires n <= |first.queue|
    ensures Without(first, n).queue == first.queue[n..]
  {}

  /** The expiry loop: drop queued jobs from the head while they are late. */
  method ExpireQueued(first: Fields, now: int) returns (f: Fields)
    ensures var all, n := first.queue, ExpiredHead(first.queue, now);
      f == first.(queue := all[n..], receipts := Fail(first.receipts, all[..n]), count := first.count - n,
                  bytes := first.bytes - Bytes(all[..n]), destroyed := first.destroyed + multiset(Contexts(all[..n])))
  {
    f := first;
    ghost var n := 0;
    DropNone(first);
    hide Contexts, Bytes, Fail, ExpiredHead;
    while f.queue != [] && now >= f.queue[0].deadline
      invariant n <= |first.queue| && f == Without(first, n)
      invariant ExpiredHead(first.queue, now) == n + ExpiredHead(f.queue, now)
      decreases |f.queue|
    {
      hide Without, DropHead;
      QueueWithout(first, n);
      ExpiredStep(f.queue, now);
      DropOne(first, n);
      QueueWithout(first, n + 1);
      f := Expire(f);
      n := n + 1;
    }
    ExpiredStep(f.queue, now);
  }

  lemma SameSize(receipts: seq<int>, q: seq<Job>)
    ensures |Fail(receipts, q)| == |receipts|
  {}

  lemma ExpiredStep(q: seq<Job>, now: int)
    ensures ExpiredHead(q, now) == if q != [] && now >= q[0].deadline then 1 + ExpiredHead(q[1..], now) else 0
  {}

  /** The shutdown loop: fail every queued job; a dying lane keeps no accounts. */
  method FailQueued(first: Fields) returns (f: Fields)
    ensures f == first.(queue := [], receipts := Fail(first.receipts, first.queue),
                        destroyed := first.destroyed + multiset(Contexts(first.queue)))
  {
    hide Contexts, Bytes, Fail;
    f := first;
    ghost var all, n := f.queue, 0;
    SweepNone(f.receipts, all);
    while f.queue != []
      invariant n <= |all|
      invariant f == first.(queue := all[n..], receipts := Fail(first.receipts, all[..n]),
                            destroyed := first.destroyed + multiset(Contexts(all[..n])))
      decreases |f.queue|
    {
      var job := f.queue[0];
      SweepOne(first.receipts, first.destroyed, all, n);
      f := f.(queue := f.queue[1..]);
      if job.id < |f.receipts| { f := f.(receipts := f.receipts[job.id := -1]); }
      f := f.(destroyed := f.destroyed + multiset{job.context});
      n := n + 1;
    }
    assert all[..n] == all;
  }

  class Publications {
    var f: Fields

    /** The fields describe a reachable lane. */
    ghost predicate Valid()
      reads this
    {
      Inv(Model(f)) && !(f.completed.Some? && f.active.Some?)
    }

    constructor (limit: nat)
      ensures Valid() && Model(f) == Init(limit)
    {
      f := Fields(None, false, [], 0, 0, limit, [], None, Idle, Waiting, 0, 0, multiset{}, []);
    }

    /** `pm_publication_submit`; -1 is the missing receipt of a rejection. */
    method Submit(context: nat, size: nat, coalesce: bool, memory: bool, now: int) returns (receipt: int)
      requires Valid() && Enabled(Model(f), Op.Submit(size, coalesce, memory, now)) && context == f.submitted
      modifies this
      ensures Valid() && Model(f) == Apply(old(Model(f)), Op.Submit(size, coalesce, memory, now))
      ensures receipt == ReceiptOf(old(Model(f)), size, coalesce, memory)
    {
      hide Inv, Apply, Model, ReceiptOf, Admits;
      StepKeeps(Model(f), Op.Submit(size, coalesce, memory, now));
      SubmitGuard(f, size, coalesce, memory, now);
      var n := |f.queue| - 1;
      var replace := coalesce && f.queue != [];
      var freed := if replace then f.queue[n].bytes else 0;
      if size > f.maxBytes || f.bytes - freed > f.maxBytes - size || (!replace && f.count >= MAX_JOBS) {
        SubmitRejects(f, size, coalesce, memory, now);
        f := f.(clock := now, submitted := f.submitted + 1, destroyed := f.destroyed + multiset{context});
        return -1;
      }
      if replace {
        SubmitReplaces(f, size, coalesce, memory, now);
        f := f.(clock := now, submitted := f.submitted + 1);
        f := f.(bytes := f.bytes - freed + size);
        f := f.(destroyed := f.destroyed + multiset{f.queue[n].context});
        f := f.(queue := f.queue[n := f.queue[n].(context := context, bytes := size)]);
        return f.queue[n].id;
      }
      if !memory {
        SubmitRejects(f, size, coalesce, memory, now);
        f := f.(clock := now, submitted := f.submitted + 1, destroyed := f.destroyed + multiset{context});
        return -1;
      }
      SubmitAppends(f, size, coalesce, memory, now);
      receipt := |f.receipts|;
      f := f.(clock := now, submitted := f.submitted + 1);
      f := f.(receipts := f.receipts + [0]);
      f := f.(queue := f.queue + [Job(receipt, context, size, now + DEADLINE_MS, false, 0)]);
      f := f.(count := f.count + 1, bytes := f.bytes + size);
    }

    /** `pm_publication_poll`, first critical section. */
    method PollReap(now: int)
      requires Valid() && Enabled(Model(f), Op.PollReap(now))
      modifies this
      ensures Valid() && Model(f) == Apply(old(Model(f)), Op.PollReap(now))
    {
      hide Inv, Apply, Model;
      StepKeeps(Model(f), Op.PollReap(now));
      ReapModel(f, now);
      f := f.(clock := now, control := Reaped(now));
      if f.active.Some? {
        var job := f.active.value;
        if now >= job.deadline {
          f := f.(active := Some(job.(canceled := true)));
          if job.id < |f.receipts| && f.receipts[job.id] == 0 {
            f := f.(receipts := f.receipts[job.id := -1]);
          }
        }
        if f.done {
          f := f.(completed := f.active);
          f := f.(active := None, done := false);
        }
      }
    }

    /** The finish callback of a taken job returned `finished`. */
    method PollFinish(finished: int)
      requires Valid() && Enabled(Model(f), Op.PollFinish(finished))
      modifies this
      ensures Valid() && Model(f) == Apply(old(Model(f)), Op.PollFinish(finished))
    {
      hide Inv, Apply;
      ghost var l := Model(f);
      Facts(l);
      StepKeeps(l, Op.PollFinish(finished));
      ApplyPollFinish(l, finished);
      f := f.(control := Finished(f.control.now));
      if f.completed.Some? {
        var job := f.completed.value;
        if job.id < |f.receipts| && f.receipts[job.id] == 0 {
          f := f.(receipts := f.receipts[job.id := if finished == 0 then 1 else -1]);
        }
        f := f.(count := f.count - 1, bytes := f.bytes - job.bytes);
        f := f.(log := f.log + [Finish(job.id, job.context, if job.canceled then -1 else job.result)]);
        f := f.(completed := None, destroyed := f.destroyed + multiset{job.context});
      }
      assert Line(f) == DoFinish(l, finished).jobs;
    }

    /** The expiry loop: drop queued jobs from the head while they are late. */
    method PollExpire()
      requires Valid() && Enabled(Model(f), Op.PollExpire)
      modifies this
      ensures Valid() && Model(f) == Apply(old(Model(f)), Op.PollExpire)
    {
      hide Inv, Apply, Model, Contexts, Bytes, Fail, ExpiredHead;
      StepKeeps(Model(f), Op.PollExpire);
      ExpireModel(f);
      f := ExpireQueued(f, f.control.now);
      f := f.(control := Swept);
    }

    /** Hand the next queued job to an idle worker. */
    method PollHandoff()
      requires Valid() && Enabled(Model(f), Op.PollHandoff)
      modifies this
      ensures Valid() && Model(f) == Apply(old(Model(f)), Op.PollHandoff)
    {
      hide Inv, Apply;
      ghost var l := Model(f);
      Facts(l);
      StepKeeps(l, Op.PollHandoff);
      ApplyPollHandoff(l);
      f := f.(control := Idle);
      if f.active.None? && f.queue != [] {
        f := f.(log := f.log + [Prepare(f.queue[0].id)]);
        f := f.(active := Some(f.queue[0]));
        f := f.(queue := f.queue[1..]);
      }
      assert Line(f) == l.jobs;
    }

    /** `pm_publication_dispose`; a dying lane keeps no accounts. */
    method Dispose()
      requires Valid() && Enabled(Model(f), Op.Dispose)
      modifies this
      ensures Valid() && Model(f) == Apply(old(Model(f)), Op.Dispose)
    {
      hide Inv, Apply, DoDispose, Contexts, Fail, Bytes;
      ghost var l := Model(f);
      Facts(l);
      StepKeeps(l, Op.Dispose);
      ApplyDispose(l);
      assert Queue(l) == f.queue;
      ghost var first := f;
      f := FailQueued(f);
      if f.active.Some? {
        var job := f.active.value;
        FailHead(first.receipts, job, first.queue);
        f := f.(active := Some(job.(canceled := true)));
        if job.id < |f.receipts| { f := f.(receipts := f.receipts[job.id := -1]); }
        assert Line(f) == [job.(canceled := true)];
      }
      f := f.(control := Disposed);
    }

    /** The worker picks up the active job, outside the lock. */
    method WorkerTake(now: int)
      requires Valid() && Enabled(Model(f), Op.WorkerTake(now))
      modifies this
      ensures Valid() && Model(f) == Apply(old(Model(f)), Op.WorkerTake(now))
    {
      hide Inv, Apply;
      ghost var l := Model(f);
      Facts(l);
      StepKeeps(l, Op.WorkerTake(now));
      ApplyWorker(l, Op.WorkerTake(now));
      f := f.(clock := now, worker := Running(false));
      if !f.active.value.canceled && now < f.active.value.deadline {
        f := f.(worker := Running(true), log := f.log + [RunBegin(f.active.value.id)]);
      }
    }

    /** The run callback returned `outcome`; a cancellation seen now overrides it. */
    method WorkerRan(outcome: int, now: int)
      requires Valid() && Enabled(Model(f), Op.WorkerRan(outcome, now))
      modifies this
      ensures Valid() && Model(f) == Apply(old(Model(f)), Op.WorkerRan(outcome, now))
    {
      hide Inv, Apply;
      ghost var l := Model(f);
      Facts(l);
      StepKeeps(l, Op.WorkerRan(outcome, now));
      ApplyWorker(l, Op.WorkerRan(outcome, now));
      var result := if f.worker.started then outcome else -1;
      if f.worker.started {
        f := f.(log := f.log + [RunEnd(f.active.value.id)]);
      }
      if f.active.value.canceled || now >= f.active.value.deadline { result := -1; }
      f := f.(clock := now, worker := Ended(f.worker.started, result));
    }

    /** Back under the lock: the result is published. */
    method WorkerPublish()
      requires Valid() && Enabled(Model(f), Op.WorkerPublish)
      modifies this
      ensures Valid() && Model(f) == Apply(old(Model(f)), Op.WorkerPublish)
    {
      hide Inv, Apply;
      ghost var l := Model(f);
      Facts(l);
      StepKeeps(l, Op.WorkerPublish);
      ApplyWorker(l, Op.WorkerPublish);
      f := f.(active := Some(f.active.value.(result := f.worker.outcome)));
      f := f.(done := true, worker := Waiting);
      assert Line(f) == l.jobs[0 := f.active.value];
    }

    /** The worker leaves and destroys the job it was left with. */
    method WorkerExit()
      requires Valid() && Enabled(Model(f), Op.WorkerExit)
      modifies this
      ensures Valid() && Model(f) == Apply(old(Model(f)), Op.WorkerExit)
    {
      hide Inv, Apply, Model;
      StepKeeps(Model(f), Op.WorkerExit);
      ExitModel(f);
      if f.active.Some? {
        f := f.(destroyed := f.destroyed + multiset{f.active.value.context});
      }
      f := f.(worker := Exited, active := None, done := false);
    }
  }

  lemma Facts(l: Lane)
    requires Inv(l)
    ensures l.head == Taken ==> l.control.Reaped?
    ensures l.head != Queued ==> l.jobs != []
    ensures l.done || l.worker.Running? || l.worker.Ended? ==> l.head == Active
    ensures l.control == Disposed ==> |l.jobs| <= 1 && Queue(l) == []
    ensures l.control == Idle ==> l.bytes >= 0
    ensures l.control == Idle && l.jobs != [] ==> l.jobs[|l.jobs| - 1].bytes <= l.bytes
  {
    hide Serial, Ordered, HeldJobs, Owned, Bytes;
    if l.jobs != [] {
      var n := |l.jobs| - 1;
      BytesConcat(l.jobs[..n], [l.jobs[n]]);
      assert l.jobs == l.jobs[..n] + [l.jobs[n]];
      BytesOne(l.jobs[n]);
    }
  }

  lemma BytesOne(job: Job)
    ensures Bytes([job]) == job.bytes
  {
    assert [job][1..] == [];
  }

  lemma ApplyWorker(l: Lane, op: Op)
    requires Enabled(l, op)
    ensures match op
      case WorkerTake(now) => Apply(l, op) ==
        if CanceledNow(l.jobs[0], now) then l.(clock := now, worker := Running(false))
        else l.(clock := now, worker := Running(true), log := l.log + [RunBegin(l.jobs[0].id)])
      case WorkerRan(outcome, now) => Apply(l, op) ==
        if !l.worker.started then l.(clock := now, worker := Ended(false, -1))
        else l.(clock := now, worker := Ended(true, if CanceledNow(l.jobs[0], now) then -1 else outcome),
                log := l.log + [RunEnd(l.jobs[0].id)])
      case WorkerPublish => Apply(l, op) ==
        l.(jobs := l.jobs[0 := l.jobs[0].(result := l.worker.outcome)], done := true, worker := Waiting)
      case _ => true
  {}

  lemma ApplyExit(l: Lane)
    requires Enabled(l, WorkerExit) && |l.jobs| <= 1
    ensures Apply(l, WorkerExit) == l.(worker := Exited, jobs := [], head := Queued, done := false,
      destroyed := if l.jobs == [] then l.destroyed else l.destroyed + multiset{l.jobs[0].context})
  {
    assert multiset(Contexts(l.jobs)) == if l.jobs == [] then multiset{} else multiset{l.jobs[0].context};
  }

  lemma ExitModel(f: Fields)
    requires Inv(Model(f)) && Enabled(Model(f), WorkerExit)
    ensures f.completed.None? &&
      Model(f.(worker := Exited, active := None, done := false,
               destroyed := if f.active.None? then f.destroyed else f.destroyed + multiset{f.active.value.context}))
      == Apply(Model(f), WorkerExit)
  {
    hide Inv;
    var l := Model(f);
    Facts(l);
    ApplyExit(l);
    assert Queue(l) == f.queue;
  }

  lemma ExpireModel(f: Fields)
    requires Inv(Model(f)) && Enabled(Model(f), PollExpire)
    ensures f.control.Finished? && f.completed.None?
    ensures var all, n := f.queue, ExpiredHead(f.queue, f.control.now);
      Model(f.(queue := all[n..], receipts := Fail(f.receipts, all[..n]), count := f.count - n,
               bytes := f.bytes - Bytes(all[..n]), destroyed := f.destroyed + multiset(Contexts(all[..n])),
               control := Swept)) == Apply(Model(f), PollExpire)
  {
    hide Inv, Contexts, Bytes, Fail, ExpiredHead, Apply;
    var l := Model(f);
    Facts(l);
    ApplyPollExpire(l);
    assert Queue(l) == f.queue;
  }

  lemma ReapModel(f: Fields, now: int)
    requires Inv(Model(f)) && Enabled(Model(f), PollReap(now))
    ensures f.completed.None? && (f.done ==> f.active.Some?)
    ensures
      var m := f.(clock := now, control := Reaped(now));
      Apply(Model(f), PollReap(now)) == Model(
        if f.active.None? then m
        else
          var late := now >= f.active.value.deadline;
          var job := if late then f.active.value.(canceled := true) else f.active.value;
          var m := if late then m.(receipts := Settle(f.receipts, job.id, -1)) else m;
          if f.done then m.(completed := Some(job), active := None, done := false) else m.(active := Some(job)))
  {
    hide Inv, Apply;
    var l := Model(f);
    Facts(l);
    ApplyPollReap(l, now);
    if f.active.Some? {
      assert l.jobs[0 := l.jobs[0].(canceled := true)] == [l.jobs[0].(canceled := true)] + f.queue;
    }
  }

  lemma ApplyDispose(l: Lane)
    requires Enabled(l, Dispose)
    ensures Apply(l, Dispose) == l.(control := Disposed,
      jobs := if l.head == Queued || l.jobs == [] then [] else [l.jobs[0].(canceled := true)],
      receipts := Fail(l.receipts, l.jobs), destroyed := l.destroyed + multiset(Contexts(Queue(l))))
  {
    assert Front(l) == 1 ==> DoDispose(l).jobs == [l.jobs[0].(canceled := true)];
  }

  lemma FailHead(receipts: seq<int>, job: Job, q: seq<Job>)
    ensures Fail(receipts, [job] + q) ==
      if job.id < |receipts| then Fail(receipts, q)[job.id := -1] else Fail(receipts, q)
  {
    var all := [job] + q;
    assert all[0] == job && forall k :: 0 <= k < |q| ==> all[k + 1] == q[k];
    forall i: nat {:trigger receipts[i]} | i < |receipts|
      ensures (exists k :: 0 <= k < |all| && all[k].id == i) <==> job.id == i || exists k :: 0 <= k < |q| && q[k].id == i
    {
      if k :| 0 <= k < |q| && q[k].id == i { assert all[k + 1].id == i; }
      if k :| 0 <= k < |all| && all[k].id == i { assert k > 0 ==> q[k - 1].id == i; }
    }
  }

  /** The C guard, in unsigned-safe form, is the lane's admission test. */
  lemma SubmitGuard(f: Fields, size: nat, coalesce: bool, memory: bool, now: int)
    requires Inv(Model(f)) && Enabled(Model(f), Submit(size, coalesce, memory, now))
    ensures f.completed.None? && Replaces(Model(f), coalesce) == (coalesce && f.queue != [])
    ensures var replace := coalesce && f.queue != [];
      var freed := if replace then f.queue[|f.queue| - 1].bytes else 0;
      Admits(Model(f), size, coalesce) <==>
        !(size > f.maxBytes || f.bytes - freed > f.maxBytes - size || (!replace && f.count >= MAX_JOBS))
  {
    hide Inv;
    var l := Model(f);
    Facts(l);
    assert Queue(l) == f.queue;
  }

  lemma SubmitRejects(f: Fields, size: nat, coalesce: bool, memory: bool, now: int)
    requires Enabled(Model(f), Submit(size, coalesce, memory, now))
    requires !Admits(Model(f), size, coalesce) || (!Replaces(Model(f), coalesce) && !memory)
    ensures ReceiptOf(Model(f), size, coalesce, memory) == -1
    ensures Apply(Model(f), Submit(size, coalesce, memory, now)) ==
      Model(f.(clock := now, submitted := f.submitted + 1, destroyed := f.destroyed + multiset{f.submitted}))
  {
    hide Apply;
    ApplySubmit(Model(f), size, coalesce, memory, now);
  }

  lemma SubmitReplaces(f: Fields, size: nat, coalesce: bool, memory: bool, now: int)
    requires Enabled(Model(f), Submit(size, coalesce, memory, now)) && f.completed.None? && f.queue != []
    requires Admits(Model(f), size, coalesce) && Replaces(Model(f), coalesce)
    ensures var n := |f.queue| - 1; var job := f.queue[n];
      ReceiptOf(Model(f), size, coalesce, memory) == job.id &&
      Apply(Model(f), Submit(size, coalesce, memory, now)) ==
      Model(f.(clock := now, submitted := f.submitted + 1, queue := f.queue[n := job.(context := f.submitted, bytes := size)],
               bytes := f.bytes - job.bytes + size, destroyed := f.destroyed + multiset{job.context}))
  {
    hide Apply, Admits, Line, Enabled, Replaces;
    var l, n := Model(f), |f.queue| - 1;
    ApplySubmit(l, size, coalesce, memory, now);
    var job := f.queue[n].(context := f.submitted, bytes := size);
    LineReplaced(f, job);
    var g := f.(queue := f.queue[n := job]);
    LineSame(g, g.(clock := now, submitted := f.submitted + 1, bytes := f.bytes - f.queue[n].bytes + size,
                   destroyed := f.destroyed + multiset{f.queue[n].context}));
  }

  lemma LineReplaced(f: Fields, job: Job)
    requires f.completed.None? && f.queue != []
    ensures var n := |f.queue| - 1;
      && Line(f) != [] && Line(f)[|Line(f)| - 1] == f.queue[n]
      && Line(f)[|Line(f)| - 1 := job] == Line(f.(queue := f.queue[n := job]))
  {}

  lemma LineSame(f: Fields, g: Fields)
    requires f.completed == g.completed && f.active == g.active && f.queue == g.queue
    ensures Line(f) == Line(g)
  {}

  lemma SubmitAppends(f: Fields, size: nat, coalesce: bool, memory: bool, now: int)
    requires Enabled(Model(f), Submit(size, coalesce, memory, now)) && f.completed.None?
    requires Admits(Model(f), size, coalesce) && !Replaces(Model(f), coalesce) && memory
    ensures var job := Job(|f.receipts|, f.submitted, size, now + DEADLINE_MS, false, 0);
      ReceiptOf(Model(f), size, coalesce, memory) == |f.receipts| &&
      Apply(Model(f), Submit(size, coalesce, memory, now)) ==
      Model(f.(clock := now, submitted := f.submitted + 1, queue := f.queue + [job],
               count := f.count + 1, bytes := f.bytes + size, receipts := f.receipts + [0]))
  {
    hide Apply, Admits;
    var l := Model(f);
    ApplySubmit(l, size, coalesce, memory, now);
    var job := Job(|f.receipts|, f.submitted, size, now + DEADLINE_MS, false, 0);
    assert l.jobs + [job] == Line(f.(queue := f.queue + [job]));
  }

  lemma ApplySubmit(l: Lane, size: nat, coalesce: bool, memory: bool, now: int)
    requires Enabled(l, Submit(size, coalesce, memory, now))
    ensures Apply(l, Submit(size, coalesce, memory, now)) == DoSubmit(l, size, coalesce, memory, now)
  {}

  lemma ApplyPollReap(l: Lane, now: int)
    requires Enabled(l, PollReap(now))
    ensures Apply(l, PollReap(now)) == DoReap(l, now)
  {}

  lemma ApplyPollFinish(l: Lane, finished: int)
    requires Enabled(l, PollFinish(finished))
    ensures Apply(l, PollFinish(finished)) == DoFinish(l, finished)
  {}

  lemma ApplyPollExpire(l: Lane)
    requires Enabled(l, PollExpire)
    ensures Apply(l, PollExpire) == DoExpire(l)
  {}

  lemma ApplyPollHandoff(l: Lane)
    requires Enabled(l, PollHandoff)
    ensures Apply(l, PollHandoff) ==
      if l.head != Queued || l.jobs == [] then l.(control := Idle)
      else l.(control := Idle, head := Active, log := l.log + [Prepare(l.jobs[0].id)])
  {}

  lemma SweepNone(receipts: seq<int>, all: seq<Job>)
    ensures Fail(receipts, all[..0]) == receipts && Bytes(all[..0]) == 0 && Contexts(all[..0]) == []
  {}

  /** One more job off the head of `all`. */
  lemma SweepOne(receipts: seq<int>, destroyed: multiset<nat>, all: seq<Job>, n: nat)
    requires n < |all|
    ensures all[n..][1..] == all[n + 1..]
    ensures Fail(receipts, all[..n + 1]) ==
      if all[n].id < |receipts| then Fail(receipts, all[..n])[all[n].id := -1] else Fail(receipts, all[..n])
    ensures Bytes(all[..n + 1]) == Bytes(all[..n]) + all[n].bytes
    ensures (destroyed + multiset(Contexts(all[..n]))) + multiset{all[n].context} == destroyed + multiset(Contexts(all[..n + 1]))
  {
    assert all[..n + 1] == all[..n] + [all[n]];
    BytesConcat(all[..n], [all[n]]);
    SweepContexts(all[..n], all[n]);
    FailLast(receipts, all[..n], all[n]);
  }

  lemma SweepContexts(q: seq<Job>, job: Job)
    ensures multiset(Contexts(q + [job])) == multiset(Contexts(q)) + multiset{job.context}
  {
    ContextsConcat(q, [job]);
    assert Contexts([job]) == [job.context];
  }

  lemma FailLast(receipts: seq<int>, q: seq<Job>, job: Job)
    ensures Fail(receipts, q + [job]) ==
      if job.id < |receipts| then Fail(receipts, q)[job.id := -1] else Fail(receipts, q)
  {
    var all := q + [job];
    assert all[|q|] == job && forall k :: 0 <= k < |q| ==> all[k] == q[k];
  }
}
