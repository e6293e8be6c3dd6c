/** What becomes of a flush: which snapshot it asks for, when its receipt reports
    commit, and when the registry is clean again. */
module PublicationOutcomes {
  import opened NetworkSnapshot
  import opened RoutePublication
  import L = PublicationLane
  import LO = LaneOutcomes

  /** How often the registry was mutated. */
  function Mutations(ops: seq<Op>): nat {
    if ops == [] then 0 else Mutations(ops[..|ops| - 1]) + if ops[|ops| - 1].Mutate? then 1 else 0
  }

  lemma {:induction false} RevisionCountsMutations(maxBytes: nat, ops: seq<Op>)
    ensures Run(Init(maxBytes), ops).dirtyRevision == Mutations(ops)
  {
    if ops != [] {
      hide L.Apply, L.Enabled, L.ReceiptOf;
      RevisionCountsMutations(maxBytes, ops[..|ops| - 1]);
    }
  }

  /** Every flush that captures takes the routes it is given, at the revision the
      mutations so far add up to. If it is accepted its request is recorded, its
      receipt is pending and the newest job carries its snapshot; a repair's
      number is greater than that of any snapshot before it. */
  lemma FlushIsRequested(maxBytes: nat, ops: seq<Op>, repair: bool, routes: seq<Route>, size: nat, memory: bool, now: int)
    requires Enabled(Run(Init(maxBytes), ops), Flush(repair, true, routes, size, memory, now))
    ensures var p := Run(Init(maxBytes), ops);
            var q := Apply(p, Flush(repair, true, routes, size, memory, now));
            var r, c := L.ReceiptOf(p.lane, size, true, memory), |p.captures|;
            && q.captures == p.captures + [Snapshot(Mutations(ops), q.repairRevision, repair, routes)]
            && (repair ==> forall i :: 0 <= i < c ==> p.captures[i].repair < q.captures[c].repair)
            && q.dirty == p.dirty && q.commits == p.commits
            && (r < 0 ==> q.requests == p.requests && q.lane.jobs == p.lane.jobs && q.lane.receipts == p.lane.receipts)
            && (r >= 0 ==>
                 && q.requests == p.requests + [Pair(r, c)]
                 && q.lane.jobs != [] && q.lane.jobs[|q.lane.jobs| - 1].id == r && q.lane.jobs[|q.lane.jobs| - 1].context == c
                 && r < |q.lane.receipts| && q.lane.receipts[r] == 0)
  {
    var p := Run(Init(maxBytes), ops);
    RunKeeps(maxBytes, ops);
    RevisionCountsMutations(maxBytes, ops);
    hide Run, Held, Repaired, FilesAt, Rising, Below, Committed, Answered, Clean;
    assert L.HeldJobs(p.lane);
    hide L.Inv, L.Contexts;
    FlushSubmits(p, Flush(repair, true, routes, size, memory, now));
  }

  lemma FlushSubmits(p: Protocol, op: Op)
    requires L.HeldJobs(p.lane) && op.Flush? && op.captured && Enabled(p, op)
    ensures var l := Apply(p, op).lane;
            var r := L.ReceiptOf(p.lane, op.size, true, op.memory);
            && (r < 0 ==> l.jobs == p.lane.jobs && l.receipts == p.lane.receipts)
            && (r >= 0 ==> l.jobs != [] && l.jobs[|l.jobs| - 1].id == r && l.jobs[|l.jobs| - 1].context == p.lane.submitted
                           && r < |l.receipts| && l.receipts[r] == 0)
  {}

  // ------------------------------------------------------------------ commits

  ghost predicate CommitsReported(p: Protocol) {
    forall i :: 0 <= i < |p.commits| ==> p.commits[i].receipt < |p.lane.receipts| && p.lane.receipts[p.commits[i].receipt] == 1
  }

  lemma LaneReports(p: Protocol, l: L.Lane)
    requires CommitsReported(p) && |p.lane.receipts| <= |l.receipts|
    requires forall r :: 0 <= r < |p.lane.receipts| && p.lane.receipts[r] != 0 ==> l.receipts[r] == p.lane.receipts[r]
    ensures forall i :: 0 <= i < |p.commits| ==> p.commits[i].receipt < |l.receipts| && l.receipts[p.commits[i].receipt] == 1
  {}

  lemma StepKeepsSettled(l: L.Lane, op: L.Op)
    requires L.Inv(l)
    ensures |l.receipts| <= |L.Apply(l, op).receipts|
    ensures forall r :: 0 <= r < |l.receipts| && l.receipts[r] != 0 ==> L.Apply(l, op).receipts[r] == l.receipts[r]
  {
    hide L.Apply;
    if |l.receipts| > 0 {
      L.StepSettles(l, op, |l.receipts| - 1);
    }
    forall r | 0 <= r < |l.receipts| && l.receipts[r] != 0
      ensures r < |L.Apply(l, op).receipts| && L.Apply(l, op).receipts[r] == l.receipts[r]
    {
      L.StepSettles(l, op, r);
    }
  }

  /** The lane step an operation performs. */
  function LaneOp(p: Protocol, op: Op): L.Op
    requires Enabled(p, op) && (op.Flush? ==> op.captured) && !op.Mutate?
  {
    match op
    case Flush(_, _, _, size, memory, now) => L.Submit(size, true, memory, now)
    case Finish => L.PollFinish(if Finishing(p.lane) then L.Outcome(p.lane.jobs[0]) else -1)
    case Step(op) => op
  }

  /** What an operation does to the lane and the commits: a finish that is told 0
      appends the oldest job's snapshot. */
  lemma Shape(p: Protocol, op: Op)
    ensures var q := Apply(p, op);
            && (!Enabled(p, op) || op.Mutate? || (op.Flush? && !op.captured) ==> q.lane == p.lane && q.commits == p.commits)
            && (Enabled(p, op) && !op.Mutate? && (op.Flush? ==> op.captured) ==>
                 && q.lane == L.Apply(p.lane, LaneOp(p, op))
                 && q.commits == if op.Finish? && Finishing(p.lane) && L.Outcome(p.lane.jobs[0]) == 0
                                 then p.commits + [Pair(p.lane.jobs[0].id, p.lane.jobs[0].context)] else p.commits)
  {
    hide L.Apply, L.Enabled, L.ReceiptOf;
  }

  lemma CommitSettles(l: L.Lane)
    requires L.HeldJobs(l) && LO.FailedAreCanceled(l) && l.control.Reaped? && Finishing(l) && L.Outcome(l.jobs[0]) == 0
    ensures l.jobs[0].id < |l.receipts| && L.Apply(l, L.PollFinish(0)).receipts == l.receipts[l.jobs[0].id := 1]
  {}

  lemma StepReports(p: Protocol, op: Op)
    requires Inv(p) && CommitsReported(p) && LO.FailedAreCanceled(p.lane)
    ensures CommitsReported(Apply(p, op)) && LO.FailedAreCanceled(Apply(p, op).lane)
  {
    hide Apply, Inv, L.Apply, L.Inv, L.Enabled, LO.FailedAreCanceled, CommitsReported, L.HeldJobs;
    InvLane(p);
    Shape(p, op);
    var q := Apply(p, op);
    if Enabled(p, op) && !op.Mutate? && (op.Flush? ==> op.captured) {
      var lop := LaneOp(p, op);
      LO.StepCanceled(p.lane, lop);
      StepKeepsSettled(p.lane, lop);
      LaneReports(p, q.lane);
      if op.Finish? && Finishing(p.lane) && L.Outcome(p.lane.jobs[0]) == 0 {
        LaneParts(p.lane);
        CommitSettles(p.lane);
        AppendReports(p, q, Pair(p.lane.jobs[0].id, p.lane.jobs[0].context));
      } else {
        SameReports(p, q);
      }
    } else {
      SameReports(p, q);
    }
  }

  lemma SameReports(p: Protocol, q: Protocol)
    requires q.commits == p.commits && (q.lane == p.lane ==> CommitsReported(p))
    requires q.lane == p.lane ||
             forall i :: 0 <= i < |p.commits| ==> p.commits[i].receipt < |q.lane.receipts| && q.lane.receipts[p.commits[i].receipt] == 1
    ensures CommitsReported(q)
  {}

  lemma AppendReports(p: Protocol, q: Protocol, c: Pair)
    requires q.commits == p.commits + [c] && c.receipt < |q.lane.receipts| && q.lane.receipts[c.receipt] == 1
    requires forall i :: 0 <= i < |p.commits| ==> p.commits[i].receipt < |q.lane.receipts| && q.lane.receipts[p.commits[i].receipt] == 1
    ensures CommitsReported(q)
  {}

  lemma {:induction false} RunReports(maxBytes: nat, ops: seq<Op>)
    ensures CommitsReported(Run(Init(maxBytes), ops)) && LO.FailedAreCanceled(Run(Init(maxBytes), ops).lane)
  {
    if ops != [] {
      hide Apply, Inv, CommitsReported, LO.FailedAreCanceled;
      var shorter := ops[..|ops| - 1];
      RunReports(maxBytes, shorter);
      RunKeeps(maxBytes, shorter);
      StepReports(Run(Init(maxBytes), shorter), ops[|ops| - 1]);
    }
  }

  /** A receipt reports commit exactly when a snapshot was committed under it. */
  lemma ReportedExactlyWhenCommitted(maxBytes: nat, ops: seq<Op>, r: nat)
    requires r < |Run(Init(maxBytes), ops).lane.receipts|
    ensures var p := Run(Init(maxBytes), ops);
            p.lane.receipts[r] == 1 <==> exists i :: 0 <= i < |p.commits| && p.commits[i].receipt == r
  {
    RunKeeps(maxBytes, ops);
    RunReports(maxBytes, ops);
    hide Run, L.Inv, Numbered, Held, Repaired, FilesAt, Captured, Answered, Clean;
  }

  /** The finish callback commits the oldest job's snapshot exactly when the run
      came out 0 and the job was not canceled; its receipt then reports commit and
      the registry is clean unless it was dirty and has been mutated since the
      snapshot. Otherwise the receipt reports failure and the registry is dirty. */
  lemma FinishCommitsExactly(maxBytes: nat, ops: seq<Op>)
    requires Run(Init(maxBytes), ops).lane.head == L.Taken
    ensures var p := Run(Init(maxBytes), ops);
            var q := Apply(p, Finish);
            && p.lane.jobs != [] && p.lane.jobs[0].id < |q.lane.receipts| && p.lane.jobs[0].context < |p.captures|
            && var job := p.lane.jobs[0];
            if job.result == 0 && !job.canceled then
              && q.lane.receipts[job.id] == 1 && q.commits == p.commits + [Pair(job.id, job.context)]
              && (q.dirty <==> p.dirty && p.captures[job.context].revision < Mutations(ops))
            else
              q.lane.receipts[job.id] == -1 && q.commits == p.commits && q.dirty
  {
    var p := Run(Init(maxBytes), ops);
    RunKeeps(maxBytes, ops);
    RunReports(maxBytes, ops);
    RevisionCountsMutations(maxBytes, ops);
    InvLane(p);
    LaneParts(p.lane);
    assert p.lane.jobs != [] && p.lane.control.Reaped? by { hide Inv, Run; }
    hide Run, L.Inv, L.Contexts, Repaired, FilesAt, Committed, Answered, Clean;
    HeldBefore(p, Keys(p.lane.jobs));
    assert Keys(p.lane.jobs)[0].capture == p.lane.jobs[0].context;
    hide Held, Keys, Rising, Below, L.Phases, L.LastEvent, L.Ordered;
    Settles(p.lane, L.Outcome(p.lane.jobs[0]));
  }

  lemma Settles(l: L.Lane, finished: int)
    requires L.HeldJobs(l) && LO.FailedAreCanceled(l) && l.control.Reaped? && Finishing(l) && finished == L.Outcome(l.jobs[0])
    ensures var m := L.Apply(l, L.PollFinish(finished));
            && l.jobs[0].id < |m.receipts|
            && m.receipts[l.jobs[0].id] == if l.jobs[0].result == 0 && !l.jobs[0].canceled then 1 else -1
  {}

  // --------------------------------------------------------------- end to end

  /** A flush, perhaps a mutation right after it, one poll that hands its job to
      the worker, a pass that succeeds, and the poll that finishes the job. */
  function Publish(repair: bool, routes: seq<Route>, size: nat, t: int, mutate: bool): seq<Op> {
    [Flush(repair, true, routes, size, true, t)] + (if mutate then [Mutate] else []) + Polls(t) + Works(t) + Ends(t)
  }

  function Polls(t: int): seq<Op> { [Step(L.PollReap(t)), Finish, Step(L.PollExpire), Step(L.PollHandoff)] }

  function Works(t: int): seq<Op> { [Step(L.WorkerTake(t)), Step(L.WorkerRan(0, t)), Step(L.WorkerPublish)] }

  function Ends(t: int): seq<Op> { [Step(L.PollReap(t)), Finish] }

  /** On an idle lane that holds nothing, such a flush within the size limit is
      written, committed and reported, and the registry is clean exactly if it was
      not mutated in between. */
  lemma FlushReachesTheFiles(maxBytes: nat, ops: seq<Op>, repair: bool, routes: seq<Route>, size: nat, t: int, mutate: bool)
    requires var p := Run(Init(maxBytes), ops);
             && p.lane.control == L.Idle && p.lane.worker == L.Waiting && p.lane.head == L.Queued && p.lane.jobs == []
             && p.lane.clock <= t && size <= p.lane.maxBytes
    ensures var p := Run(Init(maxBytes), ops);
            var q := Run(Init(maxBytes), ops + Publish(repair, routes, size, t, mutate));
            var c := |p.captures|;
            && |q.captures| == c + 1 && q.captures[c].routes == routes && q.written == c
            && q.commits == p.commits + [Pair(|p.lane.receipts|, c)]
            && q.requests == p.requests + [Pair(|p.lane.receipts|, c)]
            && |q.lane.receipts| == |p.lane.receipts| + 1 && q.lane.receipts[|p.lane.receipts|] == 1
            && q.dirty == mutate
  {
    hide Inv, Run, Apply, L.Inv, L.Apply, Publish, Polls, Works, Ends, Waits, Ready, Ran;
    var p := Run(Init(maxBytes), ops);
    RunKeeps(maxBytes, ops);
    IdleParts(p);
    var flush := Flush(repair, true, routes, size, true, t);
    RunPublish(Init(maxBytes), ops, repair, routes, size, t, mutate);
    Submitted(p, flush);
    var b := Run(Apply(p, flush), if mutate then [Mutate] else []);
    AfterMutate(Apply(p, flush), mutate);
    WaitsFor(Apply(p, flush), b, t);
    Handed(b, t);
    Passed(Run(b, Polls(t)), t);
    Published(Run(Run(b, Polls(t)), Works(t)), t);
  }

  lemma IdleParts(p: Protocol)
    requires Inv(p) && p.lane.jobs == [] && p.lane.control == L.Idle && p.lane.head == L.Queued
    ensures |p.captures| == p.lane.submitted && !p.lane.done && p.lane.count == 0 && p.lane.bytes == 0
  {}

  lemma {:induction false} RunJoin(p: Protocol, a: seq<Op>, b: seq<Op>)
    ensures Run(p, a + b) == Run(Run(p, a), b)
  {
    hide Apply;
    if b == [] {
      assert a + b == a;
    } else {
      RunJoin(p, a, b[..|b| - 1]);
      assert (a + b)[..|a + b| - 1] == a + b[..|b| - 1];
    }
  }

  lemma RunOne(p: Protocol, op: Op)
    ensures Run(p, [op]) == Apply(p, op)
  {
    assert [op][..0] == [];
  }

  lemma RunPublish(p: Protocol, ops: seq<Op>, repair: bool, routes: seq<Route>, size: nat, t: int, mutate: bool)
    ensures Run(p, ops + Publish(repair, routes, size, t, mutate))
         == Run(Run(Run(Run(Apply(Run(p, ops), Flush(repair, true, routes, size, true, t)), if mutate then [Mutate] else []),
                        Polls(t)), Works(t)), Ends(t))
  {
    hide Run, Apply, Polls, Works, Ends;
    var f, m := [Flush(repair, true, routes, size, true, t)], if mutate then [Mutate] else [];
    RunOne(Run(p, ops), f[0]);
    RunJoin(p, ops, f);
    RunJoin(p, ops + f, m);
    RunJoin(p, ops + f + m, Polls(t));
    RunJoin(p, ops + f + m + Polls(t), Works(t));
    RunJoin(p, ops + f + m + Polls(t) + Works(t), Ends(t));
    assert ops + f + m + Polls(t) + Works(t) + Ends(t) == ops + (f + m + Polls(t) + Works(t) + Ends(t));
  }

  /** The lane holds one job, queued, running, or with its run over. */
  predicate Waits(p: Protocol, t: int) {
    var l := p.lane;
    && l.control == L.Idle && l.worker == L.Waiting && l.head == L.Queued && !l.done && l.clock == t && Fresh(p, t)
  }

  predicate Ready(p: Protocol, t: int) {
    var l := p.lane;
    && l.control == L.Idle && l.worker == L.Waiting && l.head == L.Active && !l.done && l.clock == t && Fresh(p, t)
  }

  predicate Ran(p: Protocol, t: int) {
    var l := p.lane;
    && l.control == L.Idle && l.head == L.Active && l.done && l.clock == t && Fresh(p, t) && l.jobs[0].result == 0
  }

  predicate Fresh(p: Protocol, t: int) {
    var l := p.lane;
    && |l.jobs| == 1 && t < l.jobs[0].deadline && !l.jobs[0].canceled
    && l.jobs[0].id < |l.receipts| && l.receipts[l.jobs[0].id] == 0 && l.jobs[0].context < |p.captures|
  }

  lemma Submitted(p: Protocol, op: Op)
    requires op.Flush? && op.captured && op.memory
    requires |p.captures| == p.lane.submitted && !p.lane.done && p.lane.count == 0 && p.lane.bytes == 0
    requires p.lane.control == L.Idle && p.lane.worker == L.Waiting && p.lane.head == L.Queued && p.lane.jobs == []
    requires p.lane.clock <= op.now && op.size <= p.lane.maxBytes
    ensures var q := Apply(p, op);
            var c := |p.captures|;
            && Waits(q, op.now) && q.lane.jobs[0].context == c && q.lane.jobs[0].id == |p.lane.receipts|
            && |q.captures| == c + 1 && q.captures[c].routes == op.routes && q.captures[c].revision == q.dirtyRevision
            && q.requests == p.requests + [Pair(|p.lane.receipts|, c)] && q.commits == p.commits
            && |q.lane.receipts| == |p.lane.receipts| + 1
  {}

  lemma AfterMutate(p: Protocol, mutate: bool)
    ensures var q := Run(p, if mutate then [Mutate] else []);
            && q.lane == p.lane && q.captures == p.captures && q.requests == p.requests && q.commits == p.commits
            && q.dirty == (mutate || p.dirty) && q.dirtyRevision == p.dirtyRevision + if mutate then 1 else 0
  {
    hide L.Apply;
    if mutate {
      RunOne(p, Mutate);
    }
  }

  lemma WaitsFor(p: Protocol, q: Protocol, t: int)
    requires Waits(p, t) && q.lane == p.lane && q.captures == p.captures
    ensures Waits(q, t)
  {}

  /** A lane step other than a pass changes nothing else. */
  lemma PlainStep(p: Protocol, op: L.Op)
    requires !op.Submit? && !op.PollFinish? && !op.WorkerRan?
    ensures Run(p, [Step(op)]) == p.(lane := L.Apply(p.lane, op))
  {
    hide L.Enabled;
    RunOne(p, Step(op));
    assert !L.Enabled(p.lane, op) ==> L.Apply(p.lane, op) == p.lane;
  }

  lemma PlainFinish(p: Protocol)
    requires !Finishing(p.lane)
    ensures Run(p, [Finish]) == p.(lane := L.Apply(p.lane, L.PollFinish(-1)))
  {
    RunOne(p, Finish);
  }

  lemma Handed(p: Protocol, t: int)
    requires Waits(p, t)
    ensures var q := Run(p, Polls(t));
            && q == p.(lane := q.lane) && Ready(q, t)
            && q.lane.jobs == p.lane.jobs && q.lane.receipts == p.lane.receipts
  {
    hide Run, Apply, L.Apply;
    var l := p.lane;
    var reap, expire, hand := Step(L.PollReap(t)), Step(L.PollExpire), Step(L.PollHandoff);
    PlainStep(p, L.PollReap(t));
    var a := Run(p, [reap]);
    assert !Finishing(a.lane) by { Unfinished(l, t); }
    PlainFinish(a);
    var b := Run(a, [Finish]);
    PlainStep(b, L.PollExpire);
    var c := Run(b, [expire]);
    PlainStep(c, L.PollHandoff);
    RunJoin(p, [reap], [Finish]);
    RunJoin(p, [reap] + [Finish], [expire]);
    RunJoin(p, [reap] + [Finish] + [expire], [hand]);
    assert [reap] + [Finish] + [expire] + [hand] == Polls(t);
    LO.HandedOver(l, t, -1);
  }

  lemma Unfinished(l: L.Lane, t: int)
    requires l.control == L.Idle && l.head == L.Queued
    ensures !Finishing(L.Apply(l, L.PollReap(t)))
  {}

  lemma Passed(p: Protocol, t: int)
    requires Ready(p, t)
    ensures var q := Run(p, Works(t));
            && Ran(q, t) && q.written == p.lane.jobs[0].context
            && q.captures == p.captures && q.requests == p.requests && q.commits == p.commits
            && q.dirty == p.dirty && q.dirtyRevision == p.dirtyRevision
            && q.lane.jobs[0].context == p.lane.jobs[0].context && q.lane.jobs[0].id == p.lane.jobs[0].id
            && q.lane.receipts == p.lane.receipts
  {
    hide Run, L.Apply;
    var l := p.lane;
    var take, ran, publish := Step(L.WorkerTake(t)), Step(L.WorkerRan(0, t)), Step(L.WorkerPublish);
    PlainStep(p, L.WorkerTake(t));
    var a := Run(p, [take]);
    Taken(l, t);
    RunOne(a, ran);
    var b := Run(a, [ran]);
    PlainStep(b, L.WorkerPublish);
    RunJoin(p, [take], [ran]);
    RunJoin(p, [take] + [ran], [publish]);
    assert [take] + [ran] + [publish] == Works(t);
    LO.Worked(l, t);
  }

  lemma Taken(l: L.Lane, t: int)
    requires l.control == L.Idle && l.worker == L.Waiting && l.head == L.Active && !l.done && l.clock == t
    requires l.jobs != [] && t < l.jobs[0].deadline && !l.jobs[0].canceled
    ensures var m := L.Apply(l, L.WorkerTake(t));
            m.worker == L.Running(true) && m.jobs == l.jobs && L.Enabled(m, L.WorkerRan(0, t))
  {}

  lemma Published(p: Protocol, t: int)
    requires Ran(p, t)
    ensures var q := Run(p, Ends(t));
            var job := p.lane.jobs[0];
            && q.captures == p.captures && q.requests == p.requests && q.written == p.written
            && q.commits == p.commits + [Pair(job.id, job.context)]
            && |q.lane.receipts| == |p.lane.receipts| && q.lane.receipts[job.id] == 1
            && q.dirty == (p.dirty && p.captures[job.context].revision != p.dirtyRevision)
  {
    hide Run, L.Apply;
    var l := p.lane;
    var reap := Step(L.PollReap(t));
    PlainStep(p, L.PollReap(t));
    Reaped(l, t);
    RunOne(Run(p, [reap]), Finish);
    RunJoin(p, [reap], [Finish]);
    assert [reap] + [Finish] == Ends(t);
    LO.Committed(l, t);
  }

  lemma Reaped(l: L.Lane, t: int)
    requires l.control == L.Idle && l.head == L.Active && l.done && l.jobs != [] && l.clock == t < l.jobs[0].deadline
    ensures var m := L.Apply(l, L.PollReap(t));
            Finishing(m) && m.control == L.Reaped(t) && m.jobs == l.jobs
  {}
}
