/** What becomes of a job: which submissions are held, what its run and its
    deadline decide, and how its receipt is settled. Everything is stated of the
    states a run reaches. */
module LaneOutcomes {
  import opened PublicationLane

  // ------------------------------------------------------------- submissions

  /** The jobs a submission leaves alone. */
  function Others(l: Lane, coalesce: bool): seq<Job> {
    if Replaces(l, coalesce) then l.jobs[..|l.jobs| - 1] else l.jobs
  }

  /** A submission is accepted exactly when the jobs it leaves alone leave room
      for it: by size always, by number and by memory unless it replaces one. */
  lemma AcceptedExactly(maxBytes: nat, ops: seq<Op>, size: nat, coalesce: bool, memory: bool, now: int)
    requires Enabled(Run(Init(maxBytes), ops), Submit(size, coalesce, memory, now))
    ensures var l := Run(Init(maxBytes), ops);
            ReceiptOf(l, size, coalesce, memory) >= 0 <==>
              Bytes(Others(l, coalesce)) + size <= maxBytes && (Replaces(l, coalesce) || (|l.jobs| < 32 && memory))
  {
    hide Apply, Ordered, HeldJobs, Owned, Serial, LastEvent, Bytes;
    var l := Run(Init(maxBytes), ops);
    RunKeeps(maxBytes, ops);
    MaxBytesFixed(maxBytes, ops);
    if Replaces(l, coalesce) {
      var n := |l.jobs| - 1;
      assert l.jobs == l.jobs[..n] + [l.jobs[n]];
      BytesConcat(l.jobs[..n], [l.jobs[n]]);
      BytesOne(l.jobs[n]);
    }
  }

  lemma BytesOne(job: Job)
    ensures Bytes([job]) == job.bytes
  {
    assert [job][1..] == [];
  }

  /** An accepted submission is the newest job, holding its own context and size
      under the receipt it returned, which is pending. A replaced job's receipt
      and deadline carry over; a new job's deadline is 8000 ms ahead. A refused
      one changes no job and no receipt. */
  lemma SubmissionIsHeld(maxBytes: nat, ops: seq<Op>, size: nat, coalesce: bool, memory: bool, now: int)
    requires Enabled(Run(Init(maxBytes), ops), Submit(size, coalesce, memory, now))
    ensures var l := Run(Init(maxBytes), ops);
            var m := Apply(l, Submit(size, coalesce, memory, now));
            var r := ReceiptOf(l, size, coalesce, memory);
            && m.submitted == l.submitted + 1 && m.head == l.head && m.worker == l.worker
            && (r < 0 ==> m.jobs == l.jobs && m.receipts == l.receipts && l.submitted in m.destroyed)
            && (r >= 0 ==>
                 && r < |m.receipts| && m.receipts[r] == 0
                 && m.jobs == Others(l, coalesce) + [Job(r, l.submitted, size,
                      if Replaces(l, coalesce) then l.jobs[|l.jobs| - 1].deadline else now + 8000, false,
                      if Replaces(l, coalesce) then l.jobs[|l.jobs| - 1].result else 0)]
                 && (Replaces(l, coalesce) ==> m.receipts == l.receipts && r == l.jobs[|l.jobs| - 1].id)
                 && (!Replaces(l, coalesce) ==> m.receipts == l.receipts + [0] && r == |l.receipts|))
  {
    hide Ordered, Owned, Serial, LastEvent, Bytes, Contexts;
    var l := Run(Init(maxBytes), ops);
    RunKeeps(maxBytes, ops);
    if Admits(l, size, coalesce) && Replaces(l, coalesce) {
      var n := |l.jobs| - 1;
      var job := l.jobs[n].(context := l.submitted, bytes := size);
      assert l.jobs[n := job] == l.jobs[..n] + [job];
    }
  }

  // -------------------------------------------------------- canceling, running

  /** Only a canceled job has a failed receipt while it is still held. */
  ghost predicate FailedAreCanceled(l: Lane) {
    forall i :: 0 <= i < |l.jobs| && l.jobs[i].id < |l.receipts| && l.receipts[l.jobs[i].id] != 0 ==> l.jobs[i].canceled
  }

  lemma SubmitCanceled(l: Lane, op: Op)
    requires FailedAreCanceled(l) && HeldJobs(l) && op.Submit? && Enabled(l, op)
    ensures FailedAreCanceled(Apply(l, op))
  {
    hide Bytes, Contexts;
  }

  lemma ExpireCanceled(l: Lane)
    requires FailedAreCanceled(l) && HeldJobs(l) && Ordered(l.jobs) && l.control.Finished?
    ensures FailedAreCanceled(DoExpire(l))
  {
    hide Bytes, Contexts, ExpiredHead, Fail, FailedAreCanceled, HeldJobs, Ordered;
    var f, n := Front(l), ExpiredHead(Queue(l), l.control.now);
    Slices(l.jobs, f, n);
    RemainCanceled(l, DoExpire(l), f, n);
  }

  lemma RemainCanceled(l: Lane, m: Lane, f: nat, n: nat)
    requires FailedAreCanceled(l) && HeldJobs(l) && Ordered(l.jobs) && f + n <= |l.jobs|
    requires m.jobs == l.jobs[..f] + l.jobs[f + n..] && m.receipts == Fail(l.receipts, l.jobs[f..f + n])
    ensures FailedAreCanceled(m)
  {
    hide Fail, Ordered;
    forall i | 0 <= i < |m.jobs| && m.jobs[i].id < |m.receipts| && m.receipts[m.jobs[i].id] != 0
      ensures m.jobs[i].canceled
    {
      var j := if i < f then i else i + n;
      assert m.jobs[i] == l.jobs[j];
      SparedByFail(l.receipts, l.jobs, f, n, j);
    }
  }

  lemma FinishCanceled(l: Lane, finished: int)
    requires FailedAreCanceled(l) && HeldJobs(l) && Ordered(l.jobs) && l.control.Reaped?
    ensures FailedAreCanceled(DoFinish(l, finished))
  {
    hide Contexts;
    var m := DoFinish(l, finished);
    if l.head == Taken && l.jobs != [] {
      forall i | 0 <= i < |m.jobs| && m.receipts[m.jobs[i].id] != 0
        ensures m.jobs[i].canceled
      {
        assert m.jobs[i] == l.jobs[i + 1];
      }
    }
  }

  lemma ReapCanceled(l: Lane, now: int)
    requires FailedAreCanceled(l) && HeldJobs(l) && Ordered(l.jobs)
    ensures FailedAreCanceled(DoReap(l, now))
  {}

  lemma DisposeCanceled(l: Lane)
    ensures FailedAreCanceled(DoDispose(l))
  {
    hide Contexts, Fail;
  }

  lemma OtherCanceled(l: Lane, op: Op)
    requires FailedAreCanceled(l) && Enabled(l, op)
    requires !op.PollReap? && !op.Dispose? && !op.Submit? && !op.PollExpire? && !op.PollFinish? && Enabled(l, op)
    ensures FailedAreCanceled(Apply(l, op))
  {
    hide Bytes, Contexts;
  }

  lemma StepCanceled(l: Lane, op: Op)
    requires FailedAreCanceled(l) && Inv(l)
    ensures FailedAreCanceled(Apply(l, op))
  {
    hide FailedAreCanceled, HeldJobs, Ordered, Owned, Accounts, Serial, LastEvent, Phases, DoSubmit, DoReap, DoFinish, DoExpire, DoDispose;
    if Enabled(l, op) {
      match op
      case Submit(_, _, _, _) => SubmitCanceled(l, op);
      case PollExpire => ExpireCanceled(l);
      case PollFinish(finished) => FinishCanceled(l, finished);
      case PollReap(now) => ReapCanceled(l, now);
      case Dispose => DisposeCanceled(l);
      case _ => OtherCanceled(l, op);
    }
  }

  lemma {:induction false} RunCanceled(maxBytes: nat, ops: seq<Op>)
    ensures FailedAreCanceled(Run(Init(maxBytes), ops))
  {
    if ops != [] {
      hide Apply, FailedAreCanceled, Inv;
      var shorter := ops[..|ops| - 1];
      RunCanceled(maxBytes, shorter);
      RunKeeps(maxBytes, shorter);
      StepCanceled(Run(Init(maxBytes), shorter), ops[|ops| - 1]);
    }
  }

  /** A run that began leaves the callback's own outcome as the job's result, and
      -1 if by then the job was canceled or past its deadline; a job that was
      either before it began is never run and gets -1. */
  lemma RunDecidesResult(maxBytes: nat, ops: seq<Op>, begin: int, outcome: int, end: int)
    requires Enabled(Run(Init(maxBytes), ops), WorkerTake(begin)) && begin <= end
    ensures var l := Run(Init(maxBytes), ops);
            var m := Apply(Apply(Apply(l, WorkerTake(begin)), WorkerRan(outcome, end)), WorkerPublish);
            var job := l.jobs[0];
            && m.done && m.worker == Waiting && m.head == Active
            && m.jobs == [job.(result := if job.canceled || end >= job.deadline then -1 else outcome)] + l.jobs[1..]
            && m.log == l.log + (if job.canceled || begin >= job.deadline then [] else [RunBegin(job.id), RunEnd(job.id)])
            && m.receipts == l.receipts
  {
    hide Run;
    var l := Run(Init(maxBytes), ops);
    var job := l.jobs[0];
    var a := Apply(l, WorkerTake(begin));
    assert a.jobs == l.jobs && a.worker == Running(!CanceledNow(job, begin));
    var b := Apply(a, WorkerRan(outcome, end));
    assert b.jobs == l.jobs && b.worker.Ended? && b.worker.outcome == if CanceledNow(job, end) then -1 else outcome;
  }

  /** The reaping section of a poll: a job past its deadline is canceled and its
      receipt failed, any other is left as it is; a job whose run is over is
      taken back. */
  lemma ReapDecides(maxBytes: nat, ops: seq<Op>, now: int)
    requires Enabled(Run(Init(maxBytes), ops), PollReap(now)) && Run(Init(maxBytes), ops).head == Active
    ensures var l := Run(Init(maxBytes), ops);
            var m := Apply(l, PollReap(now));
            && l.jobs != [] && m.control == Reaped(now)
            && m.jobs == [l.jobs[0].(canceled := l.jobs[0].canceled || now >= l.jobs[0].deadline)] + l.jobs[1..]
            && m.head == (if l.done then Taken else Active)
            && |m.receipts| == |l.receipts| && l.jobs[0].id < |l.receipts|
            && (now >= l.jobs[0].deadline ==> m.receipts[l.jobs[0].id] == -1)
            && (now < l.jobs[0].deadline ==> m.receipts == l.receipts)
            && forall r :: 0 <= r < |l.receipts| && r != l.jobs[0].id ==> m.receipts[r] == l.receipts[r]
  {
    RunKeeps(maxBytes, ops);
    hide Run, Ordered, Owned, Accounts, Serial;
  }

  // ---------------------------------------------------------------- finishing

  /** Finishing settles a pending receipt by what the finish callback returned:
      committed if 0, failed otherwise. A receipt that is no longer pending had
      failed and stays so. The callback was told the run's result, or -1 of a
      canceled job, and no other receipt changes. */
  lemma FinishSettles(maxBytes: nat, ops: seq<Op>, finished: int)
    requires Run(Init(maxBytes), ops).head == Taken
    ensures var l := Run(Init(maxBytes), ops);
            var m := Apply(l, PollFinish(finished));
            && l.jobs != [] && l.jobs[0].id < |l.receipts| == |m.receipts|
            && var job := l.jobs[0];
            && (l.receipts[job.id] == 0 ==> m.receipts[job.id] == (if finished == 0 then 1 else -1))
            && (l.receipts[job.id] != 0 ==> m.receipts[job.id] == -1 && job.canceled)
            && (forall r :: 0 <= r < |l.receipts| && r != job.id ==> m.receipts[r] == l.receipts[r])
            && m.log == l.log + [Finish(job.id, job.context, if job.canceled then -1 else job.result)]
            && m.jobs == l.jobs[1..] && m.head == Queued && m.count == l.count - 1 && m.bytes == l.bytes - job.bytes
  {
    hide Ordered, Owned, Accounts, Serial, Contexts;
    RunKeeps(maxBytes, ops);
    RunCanceled(maxBytes, ops);
  }

  /** A job whose run came out 0 and that was taken back before its deadline is
      committed when its finish callback agrees. */
  lemma TimelyRunCommits(maxBytes: nat, ops: seq<Op>)
    requires var l := Run(Init(maxBytes), ops);
             l.head == Taken && l.jobs != [] && l.jobs[0].result == 0 && !l.jobs[0].canceled
    ensures var l := Run(Init(maxBytes), ops);
            var m := Apply(l, PollFinish(0));
            && l.jobs[0].id < |m.receipts| && m.receipts[l.jobs[0].id] == 1
            && m.log == l.log + [Finish(l.jobs[0].id, l.jobs[0].context, 0)]
  {
    hide Apply, Run;
    FinishSettles(maxBytes, ops, 0);
  }

  // ---------------------------------------------------------- nothing is lost

  ghost predicate Holds(jobs: seq<Job>, r: nat) {
    exists i :: 0 <= i < |jobs| && jobs[i].id == r
  }

  ghost predicate PendingAreHeld(l: Lane) {
    forall r :: 0 <= r < |l.receipts| && l.receipts[r] == 0 ==> Holds(l.jobs, r)
  }

  lemma StillHolds(jobs: seq<Job>, kept: seq<Job>, f: nat, n: nat, r: nat)
    requires f + n <= |jobs| && kept == jobs[..f] + jobs[f + n..] && Holds(jobs, r)
    ensures Holds(kept, r) || Holds(jobs[f..f + n], r)
  {
    var i :| 0 <= i < |jobs| && jobs[i].id == r;
    if i < f {
      assert kept[i] == jobs[i];
    } else if i < f + n {
      assert jobs[f..f + n][i - f] == jobs[i];
    } else {
      assert kept[i - n] == jobs[i];
    }
  }

  lemma Failed(receipts: seq<int>, gone: seq<Job>, r: nat)
    requires r < |receipts|
    ensures Holds(gone, r) ==> Fail(receipts, gone)[r] == -1
  {}

  lemma ExpirePending(l: Lane)
    requires PendingAreHeld(l) && l.control.Finished?
    ensures PendingAreHeld(DoExpire(l))
  {
    hide Bytes, Contexts, ExpiredHead, Fail, Holds;
    var f, n := Front(l), ExpiredHead(Queue(l), l.control.now);
    Slices(l.jobs, f, n);
    var m := DoExpire(l);
    forall r | 0 <= r < |m.receipts| && m.receipts[r] == 0
      ensures Holds(m.jobs, r)
    {
      assert l.receipts[r] == 0;
      StillHolds(l.jobs, m.jobs, f, n, r);
      Failed(l.receipts, l.jobs[f..f + n], r);
    }
  }

  lemma HoldsOne(jobs: seq<Job>, r: nat)
    requires jobs != [] && Holds(jobs[0..1], r)
    ensures jobs[0].id == r
  {}

  lemma FinishPending(l: Lane, finished: int)
    requires PendingAreHeld(l) && l.control.Reaped?
    ensures PendingAreHeld(DoFinish(l, finished))
  {
    hide Holds;
    var m := DoFinish(l, finished);
    if l.head == Taken && l.jobs != [] {
      assert m.jobs == l.jobs[..0] + l.jobs[1..];
      forall r | 0 <= r < |m.receipts| && m.receipts[r] == 0
        ensures Holds(m.jobs, r)
      {
        assert l.receipts[r] == 0;
        StillHolds(l.jobs, m.jobs, 0, 1, r);
        if Holds(l.jobs[0..1], r) {
          HoldsOne(l.jobs, r);
        }
      }
    }
  }

  /** `same` holds the jobs of `jobs`, as far as their receipts go, and maybe more. */
  lemma HoldsSame(jobs: seq<Job>, same: seq<Job>, r: nat)
    requires |jobs| <= |same| && forall i :: 0 <= i < |jobs| ==> same[i].id == jobs[i].id
    requires Holds(jobs, r)
    ensures Holds(same, r)
  {
    var i :| 0 <= i < |jobs| && jobs[i].id == r;
    assert same[i].id == r;
  }

  lemma SamePending(l: Lane, m: Lane)
    requires PendingAreHeld(l)
    requires |l.jobs| <= |m.jobs| && forall i :: 0 <= i < |l.jobs| ==> m.jobs[i].id == l.jobs[i].id
    requires |m.receipts| == |l.receipts| && forall r :: 0 <= r < |l.receipts| && m.receipts[r] == 0 ==> l.receipts[r] == 0
    ensures PendingAreHeld(m)
  {
    hide Holds;
    forall r | 0 <= r < |m.receipts| && m.receipts[r] == 0
      ensures Holds(m.jobs, r)
    {
      HoldsSame(l.jobs, m.jobs, r);
    }
  }

  lemma SubmitPending(l: Lane, op: Op)
    requires PendingAreHeld(l) && op.Submit? && Enabled(l, op)
    ensures PendingAreHeld(Apply(l, op))
  {
    hide Holds, PendingAreHeld;
    var m := Apply(l, op);
    if |m.receipts| == |l.receipts| {
      SamePending(l, m);
    } else {
      AppendPending(l, m);
    }
  }

  lemma AppendPending(l: Lane, m: Lane)
    requires PendingAreHeld(l) && m.receipts == l.receipts + [0]
    requires |m.jobs| == |l.jobs| + 1 && m.jobs[..|l.jobs|] == l.jobs && m.jobs[|l.jobs|].id == |l.receipts|
    ensures PendingAreHeld(m)
  {
    forall r | 0 <= r < |m.receipts| && m.receipts[r] == 0
      ensures Holds(m.jobs, r)
    {
      if r < |l.receipts| {
        assert forall i :: 0 <= i < |l.jobs| ==> m.jobs[i] == m.jobs[..|l.jobs|][i];
        HoldsSame(l.jobs, m.jobs, r);
      }
    }
  }

  lemma NonePending(l: Lane)
    requires PendingAreHeld(l)
    ensures forall r :: 0 <= r < |Fail(l.receipts, l.jobs)| ==> Fail(l.receipts, l.jobs)[r] != 0
  {}

  lemma OtherPending(l: Lane, op: Op)
    requires PendingAreHeld(l) && HeldJobs(l) && Phases(l) && Enabled(l, op)
    requires !op.Submit? && !op.PollExpire? && !op.PollFinish? && !op.Dispose? && !op.WorkerExit?
    ensures PendingAreHeld(Apply(l, op))
  {
    hide Holds, PendingAreHeld;
    SamePending(l, Apply(l, op));
  }

  /** After a dispose every receipt is settled, and stays so. */
  ghost predicate AllSettled(l: Lane) {
    l.control == Disposed ==> forall r :: 0 <= r < |l.receipts| ==> l.receipts[r] != 0
  }

  lemma StepPending(l: Lane, op: Op)
    requires PendingAreHeld(l) && AllSettled(l) && Inv(l)
    ensures PendingAreHeld(Apply(l, op)) && AllSettled(Apply(l, op))
  {
    if Enabled(l, op) {
      assert AllSettled(Apply(l, op)) by {
        hide HeldJobs, Ordered, Owned, Accounts, Serial, LastEvent, Holds, DoSubmit, DoExpire;
        if op.Dispose? {
          NonePending(l);
        }
      }
      hide PendingAreHeld, Ordered, Owned, Accounts, Serial, LastEvent, DoSubmit, DoReap, DoFinish, DoExpire;
      match op
      case Submit(_, _, _, _) => SubmitPending(l, op);
      case PollExpire => ExpirePending(l);
      case PollFinish(finished) => FinishPending(l, finished);
      case Dispose => SettledPending(Apply(l, op));
      case WorkerExit => SettledPending(Apply(l, op));
      case _ => OtherPending(l, op);
    }
  }

  lemma SettledPending(l: Lane)
    requires AllSettled(l) && l.control == Disposed
    ensures PendingAreHeld(l)
  {}

  /** In every run a pending receipt has its job, and disposal leaves none
      pending. */
  lemma {:induction false} NoRequestIsLost(maxBytes: nat, ops: seq<Op>)
    ensures PendingAreHeld(Run(Init(maxBytes), ops)) && AllSettled(Run(Init(maxBytes), ops))
  {
    if ops != [] {
      hide Apply, PendingAreHeld, AllSettled, Inv;
      var shorter := ops[..|ops| - 1];
      NoRequestIsLost(maxBytes, shorter);
      RunKeeps(maxBytes, shorter);
      StepPending(Run(Init(maxBytes), shorter), ops[|ops| - 1]);
    }
  }

  // --------------------------------------------------------------- end to end

  /** One poll that finds nothing to reap or finish, a run of the oldest job, and
      the poll that finishes it. */
  function Round(t: int, nothing: int): seq<Op> {
    [PollReap(t), PollFinish(nothing), PollExpire, PollHandoff, WorkerTake(t), WorkerRan(0, t), WorkerPublish, PollReap(t), PollFinish(0)]
  }

  /** Such a round before the oldest queued job's deadline prepares, runs and
      commits that job, whatever is queued behind it. */
  lemma RoundCommitsTheOldest(maxBytes: nat, ops: seq<Op>, t: int, nothing: int)
    requires var l := Run(Init(maxBytes), ops);
             && l.control == Idle && l.worker == Waiting && l.head == Queued && l.jobs != []
             && l.clock <= t < l.jobs[0].deadline
    ensures var l := Run(Init(maxBytes), ops);
            var m := Run(Init(maxBytes), ops + Round(t, nothing));
            var job := l.jobs[0];
            && m.jobs == l.jobs[1..] && m.head == Queued && m.worker == Waiting
            && job.id < |m.receipts| && m.receipts[job.id] == 1
            && m.log == l.log + [Prepare(job.id), RunBegin(job.id), RunEnd(job.id), Finish(job.id, job.context, 0)]
  {
    hide Apply, HandsOver, Works, Finishes, HeldJobs, Ordered, Owned, Accounts, Serial, LastEvent, Run;
    var l := Run(Init(maxBytes), ops);
    RunKeeps(maxBytes, ops);
    OldestIsPending(l);
    RunRound(maxBytes, ops, t, nothing);
    HandedOver(l, t, nothing);
    var a := l.(clock := t, control := Idle, head := Active, log := l.log + [Prepare(l.jobs[0].id)]);
    Worked(a, t);
    var b := a.(jobs := [l.jobs[0].(result := 0)] + l.jobs[1..], done := true,
                log := a.log + [RunBegin(l.jobs[0].id), RunEnd(l.jobs[0].id)]);
    Committed(b, t);
    assert b.jobs[1..] == l.jobs[1..];
  }

  lemma RunOne(l: Lane, ops: seq<Op>, op: Op)
    ensures Run(l, ops + [op]) == Apply(Run(l, ops), op)
  {
    assert (ops + [op])[..|ops|] == ops;
  }

  /** A run extended by a round, step by step. */
  lemma RunRound(maxBytes: nat, ops: seq<Op>, t: int, nothing: int)
    ensures Run(Init(maxBytes), ops + Round(t, nothing))
         == Finishes(Works(HandsOver(Run(Init(maxBytes), ops), t, nothing), t), t)
  {
    hide Apply, Run;
    var s := Round(t, nothing);
    var l := Init(maxBytes);
    RunFour(l, ops, PollReap(t), PollFinish(nothing), PollExpire, PollHandoff);
    var four := ops + [PollReap(t), PollFinish(nothing), PollExpire, PollHandoff];
    RunFour(l, four, WorkerTake(t), WorkerRan(0, t), WorkerPublish, PollReap(t));
    var eight := four + [WorkerTake(t), WorkerRan(0, t), WorkerPublish, PollReap(t)];
    RunOne(l, eight, PollFinish(0));
    assert eight + [PollFinish(0)] == ops + s;
  }

  lemma RunFour(l: Lane, ops: seq<Op>, a: Op, b: Op, c: Op, d: Op)
    ensures Run(l, ops + [a, b, c, d]) == Apply(Apply(Apply(Apply(Run(l, ops), a), b), c), d)
  {
    hide Apply, Run;
    RunOne(l, ops, a);
    RunOne(l, ops + [a], b);
    RunOne(l, ops + [a] + [b], c);
    RunOne(l, ops + [a] + [b] + [c], d);
    assert ops + [a] + [b] + [c] + [d] == ops + [a, b, c, d];
  }

  function HandsOver(l: Lane, t: int, nothing: int): Lane {
    Apply(Apply(Apply(Apply(l, PollReap(t)), PollFinish(nothing)), PollExpire), PollHandoff)
  }

  function Works(l: Lane, t: int): Lane {
    Apply(Apply(Apply(l, WorkerTake(t)), WorkerRan(0, t)), WorkerPublish)
  }

  function Finishes(l: Lane, t: int): Lane {
    Apply(Apply(l, PollReap(t)), PollFinish(0))
  }

  lemma OldestIsPending(l: Lane)
    requires HeldJobs(l) && l.head == Queued && l.jobs != []
    ensures l.jobs[0].id < |l.receipts| && l.receipts[l.jobs[0].id] == 0 && !l.jobs[0].canceled
  {}

  lemma HandedOver(l: Lane, t: int, nothing: int)
    requires l.control == Idle && l.worker == Waiting && l.head == Queued && l.jobs != [] && l.clock <= t < l.jobs[0].deadline
    requires !l.done
    ensures HandsOver(l, t, nothing) == l.(clock := t, control := Idle, head := Active, log := l.log + [Prepare(l.jobs[0].id)])
  {
    hide Contexts;
    assert l.jobs[..0] + l.jobs[0..] == l.jobs;
    assert Contexts([]) == [];
    assert l.destroyed + multiset([]) == l.destroyed;
  }

  lemma Worked(l: Lane, t: int)
    requires l.worker == Waiting && l.control == Idle && l.head == Active && l.jobs != [] && !l.done && l.clock == t
    requires !l.jobs[0].canceled && t < l.jobs[0].deadline
    ensures Works(l, t) == l.(jobs := [l.jobs[0].(result := 0)] + l.jobs[1..], done := true, worker := Waiting,
                              log := l.log + [RunBegin(l.jobs[0].id), RunEnd(l.jobs[0].id)])
  {
    var id := l.jobs[0].id;
    assert l.log + [RunBegin(id)] + [RunEnd(id)] == l.log + [RunBegin(id), RunEnd(id)];
  }

  lemma Committed(l: Lane, t: int)
    requires l.control == Idle && l.head == Active && l.done && l.jobs != [] && l.clock == t < l.jobs[0].deadline
    requires !l.jobs[0].canceled && l.jobs[0].result == 0 && l.jobs[0].id < |l.receipts| && l.receipts[l.jobs[0].id] == 0
    ensures var m := Finishes(l, t);
            var job := l.jobs[0];
            && m.jobs == l.jobs[1..] && m.head == Queued && m.worker == l.worker
            && |m.receipts| == |l.receipts| && m.receipts[job.id] == 1
            && m.log == l.log + [Finish(job.id, job.context, 0)]
  {}
}
