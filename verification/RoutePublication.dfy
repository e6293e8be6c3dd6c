/** The dirty-revision protocol on top of the publication lane: mutations raise
    the revision, flushes capture a snapshot and share receipts, and the finish
    callback decides whether the registry is clean. */
module RoutePublication {
  import opened NetworkSnapshot
  import L = PublicationLane

  /** What a flush captures; `asked` if it is a repair, `routes` the routes the
      registry held then. */
  datatype Snapshot = Snapshot(revision: nat, repair: nat, asked: bool, routes: seq<Route>)

  /** A receipt and a snapshot: an accepted flush, or a commit. */
  datatype Pair = Pair(receipt: nat, capture: nat)

  /** Lane contexts are indices into `captures`. `written` is the snapshot the
      file writer last wrote out completely (-1: none), `cleared` the snapshots
      written out completely by a pass that had begun by forgetting every content
      signature, `commits` what the finish callback accepted. */
  datatype Protocol = Protocol(
    lane: L.Lane, dirtyRevision: nat, dirty: bool, repairRevision: nat, filesRepair: nat,
    captures: seq<Snapshot>, requests: seq<Pair>, written: int, cleared: set<nat>, commits: seq<Pair>)

  /** `captured` is false when a flush fails before it submits anything. */
  datatype Op =
    | Mutate
    | Flush(repair: bool, captured: bool, routes: seq<Route>, size: nat, memory: bool, now: int)
    | Finish
    | Step(op: L.Op)

  function Init(maxBytes: nat): Protocol {
    Protocol(L.Init(maxBytes), 0, false, 0, 0, [], [], -1, {}, [])
  }

  /** The lane step an operation performs, if any. */
  predicate Enabled(p: Protocol, op: Op) {
    match op
    case Mutate => true
    case Flush(_, captured, _, size, memory, now) => captured ==> L.Enabled(p.lane, L.Submit(size, true, memory, now))
    case Finish => p.lane.control.Reaped?
    case Step(op) => !op.Submit? && !op.PollFinish? && L.Enabled(p.lane, op)
  }

  function Apply(p: Protocol, op: Op): Protocol {
    if !Enabled(p, op) then p
    else match op
      case Mutate => p.(dirtyRevision := p.dirtyRevision + 1, dirty := true)
      case Flush(repair, captured, routes, size, memory, now) =>
        var q := p.(repairRevision := NextRepair(p, repair));
        if captured then DoFlush(q, repair, routes, size, memory, now) else q
      case Finish => DoFinish(p)
      case Step(op) => DoStep(p, op)
  }

  function Run(p: Protocol, ops: seq<Op>): Protocol {
    if ops == [] then p else Apply(Run(p, ops[..|ops| - 1]), ops[|ops| - 1])
  }

  function NextRepair(p: Protocol, repair: bool): nat {
    if repair then p.repairRevision + 1 else p.repairRevision
  }

  function DoFlush(p: Protocol, repair: bool, routes: seq<Route>, size: nat, memory: bool, now: int): Protocol {
    var receipt := L.ReceiptOf(p.lane, size, true, memory);
    p.(lane := L.Apply(p.lane, L.Submit(size, true, memory, now)),
       captures := p.captures + [Snapshot(p.dirtyRevision, p.repairRevision, repair, routes)],
       requests := if receipt < 0 then p.requests else p.requests + [Pair(receipt, p.lane.submitted)])
  }

  predicate Finishing(l: L.Lane) { l.head == L.Taken && l.jobs != [] }

  /** The finish callback returns the result it was told. */
  function DoFinish(p: Protocol): Protocol {
    if !Finishing(p.lane) then p.(lane := L.Apply(p.lane, L.PollFinish(-1)))
    else
      var job := p.lane.jobs[0];
      var result := L.Outcome(job);
      var q := p.(lane := L.Apply(p.lane, L.PollFinish(result)));
      if result != 0 then q.(dirty := true)
      else q.(commits := p.commits + [Pair(job.id, job.context)],
              dirty := p.dirty && !(job.context < |p.captures| && p.captures[job.context].revision == p.dirtyRevision))
  }

  /** Other lane steps; the run callback is the file writer's pass. Only a pass
      changes the files' repair revision, so that it is at the end what the pass
      compared its own with at the beginning. */
  function DoStep(p: Protocol, op: L.Op): Protocol {
    var q := p.(lane := L.Apply(p.lane, op));
    if p.lane.jobs == [] || p.lane.jobs[0].context >= |p.captures| then q
    else
      var c := p.lane.jobs[0].context;
      if op.WorkerRan? && p.lane.worker == L.Running(true) && op.outcome == 0 then
        q.(written := c, filesRepair := p.captures[c].repair,
           cleared := if p.captures[c].repair > p.filesRepair then p.cleared + {c} else p.cleared)
      else q
  }

  // ------------------------------------------------------------------ keys

  function Keys(jobs: seq<L.Job>): (ks: seq<Pair>)
    ensures |ks| == |jobs|
    ensures forall i :: 0 <= i < |jobs| ==> ks[i] == Pair(jobs[i].id, jobs[i].context)
  {
    seq(|jobs|, i requires 0 <= i < |jobs| => Pair(jobs[i].id, jobs[i].context))
  }

  /** Receipts and snapshots both grow from the oldest held job to the newest. */
  ghost predicate Rising(ks: seq<Pair>) {
    forall i, j :: 0 <= i < j < |ks| ==> ks[i].receipt < ks[j].receipt && ks[i].capture < ks[j].capture
  }

  ghost predicate Below(ks: seq<Pair>, receipts: nat, captures: nat) {
    forall i :: 0 <= i < |ks| ==> ks[i].receipt < receipts && ks[i].capture < captures
  }

  /** A request is answered by a snapshot no older than its own. */
  ghost predicate Answered(requests: seq<Pair>, ks: seq<Pair>) {
    forall i, k :: 0 <= i < |requests| && 0 <= k < |ks| && requests[i].receipt == ks[k].receipt ==>
      requests[i].capture <= ks[k].capture
  }

  /** A request joined a job when every job ahead already had its snapshot. */
  ghost predicate Joined(requests: seq<Pair>, ks: seq<Pair>) {
    forall i, j, k :: 0 <= i < |requests| && 0 <= j < k < |ks| && requests[i].receipt == ks[k].receipt ==>
      ks[j].capture < requests[i].capture
  }

  /** What is committed came before everything still held. */
  ghost predicate Before(commits: seq<Pair>, ks: seq<Pair>) {
    forall i, k :: 0 <= i < |commits| && 0 <= k < |ks| ==>
      commits[i].receipt < ks[k].receipt && commits[i].capture < ks[k].capture
  }

  ghost predicate WrittenBefore(written: int, ks: seq<Pair>) {
    forall k :: 0 <= k < |ks| ==> written <= ks[k].capture
  }

  /** Requests of the held jobs from `from` on are newer than what was written. */
  ghost predicate Newer(written: int, requests: seq<Pair>, ks: seq<Pair>, from: nat) {
    forall i, k :: 0 <= i < |requests| && from <= k < |ks| && requests[i].receipt == ks[k].receipt ==>
      written < requests[i].capture
  }

  ghost predicate Held(p: Protocol, ks: seq<Pair>, begun: nat) {
    && Rising(ks) && Below(ks, |p.lane.receipts|, p.lane.submitted)
    && Answered(p.requests, ks) && Joined(p.requests, ks)
    && Before(p.commits, ks) && WrittenBefore(p.written, ks) && Newer(p.written, p.requests, ks, begun)
  }

  /** `ks` without the `n` keys at `from`. */
  function Dropped(ks: seq<Pair>, from: nat, n: nat): (kept: seq<Pair>)
    requires from + n <= |ks|
    ensures |kept| == |ks| - n
    ensures forall k :: 0 <= k < |kept| ==> kept[k] == ks[if k < from then k else k + n]
  {
    ks[..from] + ks[from + n..]
  }

  lemma RisingDrop(ks: seq<Pair>, from: nat, n: nat)
    requires Rising(ks) && from + n <= |ks|
    ensures Rising(Dropped(ks, from, n))
  { hide Dropped; }

  lemma BelowDrop(ks: seq<Pair>, receipts: nat, captures: nat, from: nat, n: nat)
    requires Below(ks, receipts, captures) && from + n <= |ks|
    ensures Below(Dropped(ks, from, n), receipts, captures)
  { hide Dropped; }

  lemma AnsweredDrop(requests: seq<Pair>, ks: seq<Pair>, from: nat, n: nat)
    requires Answered(requests, ks) && from + n <= |ks|
    ensures Answered(requests, Dropped(ks, from, n))
  { hide Dropped; }

  lemma JoinedDrop(requests: seq<Pair>, ks: seq<Pair>, from: nat, n: nat)
    requires Joined(requests, ks) && from + n <= |ks|
    ensures Joined(requests, Dropped(ks, from, n))
  { hide Dropped; }

  lemma BeforeDrop(commits: seq<Pair>, ks: seq<Pair>, from: nat, n: nat)
    requires Before(commits, ks) && from + n <= |ks|
    ensures Before(commits, Dropped(ks, from, n))
  { hide Dropped; }

  lemma WrittenDrop(written: int, ks: seq<Pair>, from: nat, n: nat)
    requires WrittenBefore(written, ks) && from + n <= |ks|
    ensures WrittenBefore(written, Dropped(ks, from, n))
  { hide Dropped; }

  /** Once the oldest job is gone, every request left is newer than what was
      written. */
  lemma NewerDrop(written: int, requests: seq<Pair>, ks: seq<Pair>, begun: nat, from: nat, n: nat)
    requires WrittenBefore(written, ks) && Joined(requests, ks) && Newer(written, requests, ks, begun)
    requires from + n <= |ks| && begun <= 1
    ensures Newer(written, requests, Dropped(ks, from, n), if from == 0 && n > 0 then 0 else begun)
  {
    hide Dropped;
    var kept := Dropped(ks, from, n);
    if from == 0 && n > 0 {
      forall i, k | 0 <= i < |requests| && 0 <= k < |kept| && requests[i].receipt == kept[k].receipt
        ensures written < requests[i].capture
      {
        assert kept[k] == ks[k + n];
        assert ks[0].capture < requests[i].capture;
      }
    }
  }

  lemma HeldDrop(p: Protocol, ks: seq<Pair>, begun: nat, from: nat, n: nat)
    requires Held(p, ks, begun) && from + n <= |ks| && begun <= 1
    ensures Held(p, Dropped(ks, from, n), if from == 0 && n > 0 then 0 else begun)
  {
    hide Rising, Below, Answered, Joined, Before, WrittenBefore, Newer, Dropped;
    RisingDrop(ks, from, n);
    BelowDrop(ks, |p.lane.receipts|, p.lane.submitted, from, n);
    AnsweredDrop(p.requests, ks, from, n);
    JoinedDrop(p.requests, ks, from, n);
    BeforeDrop(p.commits, ks, from, n);
    WrittenDrop(p.written, ks, from, n);
    NewerDrop(p.written, p.requests, ks, begun, from, n);
  }

  // ------------------------------------------------------- what lane steps do

  /** 1 from the end of the oldest job's run until it is finished. */
  function Begun(l: L.Lane): nat {
    if l.head == L.Queued || l.jobs == [] then 0
    else if l.worker.Ended? || l.done || l.head == L.Taken then 1 else 0
  }

  /** Where a step drops held jobs, and how many. */
  function DropAt(l: L.Lane, op: L.Op): nat {
    if op.PollExpire? || op.Dispose? then L.Front(l) else 0
  }

  function DropCount(l: L.Lane, op: L.Op): (n: nat)
    requires L.Enabled(l, op)
    ensures DropAt(l, op) + n <= |l.jobs|
  {
    if op.PollFinish? then if Finishing(l) then 1 else 0
    else if op.PollExpire? then L.ExpiredHead(L.Queue(l), l.control.now)
    else if op.Dispose? then |l.jobs| - L.Front(l)
    else if op.WorkerExit? then |l.jobs|
    else 0
  }

  lemma KeysDropped(jobs: seq<L.Job>, from: nat, n: nat)
    requires from + n <= |jobs|
    ensures Keys(jobs[..from] + jobs[from + n..]) == Dropped(Keys(jobs), from, n)
  {}

  lemma ExpireKeys(l: L.Lane)
    requires l.control.Finished?
    ensures Keys(L.DoExpire(l).jobs) == Dropped(Keys(l.jobs), L.Front(l), L.ExpiredHead(L.Queue(l), l.control.now))
  {
    hide Keys, Dropped, L.ExpiredHead, L.Fail, L.Bytes, L.Contexts;
    var f, n := L.Front(l), L.ExpiredHead(L.Queue(l), l.control.now);
    L.Slices(l.jobs, f, n);
    KeysDropped(l.jobs, f, n);
  }

  lemma DisposeKeys(l: L.Lane)
    ensures Keys(L.DoDispose(l).jobs) == Dropped(Keys(l.jobs), L.Front(l), |l.jobs| - L.Front(l))
  {}

  lemma OtherKeys(l: L.Lane, op: L.Op)
    requires !op.Submit? && !op.PollExpire? && !op.Dispose? && L.Enabled(l, op)
    ensures Keys(L.Apply(l, op).jobs) == Dropped(Keys(l.jobs), DropAt(l, op), DropCount(l, op))
  {}

  lemma StepKeys(l: L.Lane, op: L.Op)
    requires !op.Submit? && L.Enabled(l, op)
    ensures Keys(L.Apply(l, op).jobs) == Dropped(Keys(l.jobs), DropAt(l, op), DropCount(l, op))
    ensures |L.Apply(l, op).receipts| == |l.receipts| && L.Apply(l, op).submitted == l.submitted
  {
    hide Keys, Dropped;
    if op.PollExpire? {
      ExpireKeys(l);
    } else if op.Dispose? {
      DisposeKeys(l);
    } else {
      OtherKeys(l, op);
    }
  }

  lemma StepBegun(l: L.Lane, op: L.Op)
    requires L.Phases(l) && L.LastEvent(l) && !op.Submit? && L.Enabled(l, op)
    ensures (DropAt(l, op) == 0 && DropCount(l, op) > 0) || Begun(L.Apply(l, op)) >= Begun(l)
    ensures op.WorkerRan? ==> Begun(L.Apply(l, op)) == 1 && l.jobs != [] && DropCount(l, op) == 0
  {}

  // ---------------------------------------------------------------- invariants

  /** Captures are taken in order; revisions never decrease, and a repair's
      number is greater than that of any snapshot before it. */
  ghost predicate Captured(captures: seq<Snapshot>, revision: nat, repair: nat) {
    && (forall i :: 0 <= i < |captures| ==>
        captures[i].revision <= revision && captures[i].repair <= repair && (captures[i].asked ==> captures[i].repair > 0))
    && (forall i, j :: 0 <= i < j < |captures| ==>
        && captures[i].revision <= captures[j].revision && captures[i].repair <= captures[j].repair
        && (captures[j].asked ==> captures[i].repair < captures[j].repair))
  }

  predicate FilesAt(p: Protocol) {
    && -1 <= p.written < |p.captures|
    && p.filesRepair == if p.written < 0 then 0 else p.captures[p.written].repair
  }

  ghost predicate Committed(p: Protocol) {
    forall r :: 0 <= r < |p.lane.receipts| && p.lane.receipts[r] == 1 ==> exists i :: 0 <= i < |p.commits| && p.commits[i].receipt == r
  }

  /** A clear flag: the last committed snapshot is the current revision. */
  predicate Clean(commits: seq<Pair>, captures: seq<Snapshot>, dirty: bool, revision: nat) {
    var n := |commits|;
    !dirty ==> if n == 0 then revision == 0
               else commits[n - 1].capture < |captures| && captures[commits[n - 1].capture].revision == revision
  }

  predicate Asks(captures: seq<Snapshot>, request: Pair) {
    request.capture < |captures| && captures[request.capture].asked
  }

  /** If a repair shares receipt `k.receipt`, the pass for `k` forgot every
      signature first. */
  ghost predicate Rewrites(requests: seq<Pair>, captures: seq<Snapshot>, cleared: set<nat>, k: Pair) {
    forall i :: 0 <= i < |requests| && requests[i].receipt == k.receipt && Asks(captures, requests[i]) ==> k.capture in cleared
  }

  /** Whether the oldest job's pass came out well. */
  predicate Passing(l: L.Lane) {
    && l.jobs != [] && l.head != L.Queued
    && match l.worker
       case Running(_) => false
       case Ended(_, outcome) => outcome == 0
       case _ => (l.done || l.head == L.Taken) && l.jobs[0].result == 0
  }

  ghost predicate Repaired(p: Protocol) {
    && (forall i :: 0 <= i < |p.commits| ==> Rewrites(p.requests, p.captures, p.cleared, p.commits[i]))
    && (Passing(p.lane) ==> Rewrites(p.requests, p.captures, p.cleared, Keys(p.lane.jobs)[0]))
  }

  ghost predicate Numbered(p: Protocol) {
    && |p.captures| == p.lane.submitted
    && Below(p.requests, |p.lane.receipts|, p.lane.submitted)
    && Below(p.commits, |p.lane.receipts|, p.lane.submitted)
    && Rising(p.commits)
  }

  ghost predicate Inv(p: Protocol) {
    && L.Inv(p.lane) && Numbered(p)
    && Captured(p.captures, p.dirtyRevision, p.repairRevision) && FilesAt(p)
    && Held(p, Keys(p.lane.jobs), Begun(p.lane))
    && Answered(p.requests, p.commits) && Committed(p)
    && Clean(p.commits, p.captures, p.dirty, p.dirtyRevision) && Repaired(p)
  }

  // -------------------------------------------------------------- lane steps

  lemma HeldFor(p: Protocol, q: Protocol, ks: seq<Pair>, begun: nat)
    requires Held(p, ks, begun)
    requires q.requests == p.requests && q.commits == p.commits && q.written == p.written
    requires |q.lane.receipts| == |p.lane.receipts| && q.lane.submitted == p.lane.submitted
    ensures Held(q, ks, begun)
  {}

  lemma HeldLater(p: Protocol, ks: seq<Pair>, begun: nat, later: nat)
    requires Held(p, ks, begun) && begun <= later
    ensures Held(p, ks, later)
  {
    hide Rising, Below, Answered, Joined, Before, WrittenBefore;
  }

  /** The oldest job's snapshot has just been written out. */
  lemma HeldWritten(p: Protocol, ks: seq<Pair>)
    requires Held(p, ks, 0) && ks != []
    ensures Held(p.(written := ks[0].capture), ks, 1)
  {
    hide Below, Answered, Before;
  }

  lemma LaneHeld(p: Protocol, op: L.Op)
    requires L.Inv(p.lane) && Held(p, Keys(p.lane.jobs), Begun(p.lane)) && L.Enabled(p.lane, op) && !op.Submit?
    ensures var l := L.Apply(p.lane, op); Held(p.(lane := l), Keys(l.jobs), Begun(l))
  {
    StepKeys(p.lane, op);
    StepBegun(p.lane, op);
    hide *;
    LaneHeldAt(p, L.Apply(p.lane, op), DropAt(p.lane, op), DropCount(p.lane, op));
  }

  lemma LaneHeldAt(p: Protocol, l: L.Lane, from: nat, n: nat)
    requires Held(p, Keys(p.lane.jobs), Begun(p.lane)) && from + n <= |Keys(p.lane.jobs)|
    requires Keys(l.jobs) == Dropped(Keys(p.lane.jobs), from, n)
    requires |l.receipts| == |p.lane.receipts| && l.submitted == p.lane.submitted
    requires (from == 0 && n > 0) || Begun(l) >= Begun(p.lane)
    ensures Held(p.(lane := l), Keys(l.jobs), Begun(l))
  {
    hide Held, Keys, Dropped;
    HeldDrop(p, Keys(p.lane.jobs), Begun(p.lane), from, n);
    hide Begun;
    var kept, now := Dropped(Keys(p.lane.jobs), from, n), if from == 0 && n > 0 then 0 else Begun(p.lane);
    HeldFor(p, p.(lane := l), kept, now);
    HeldLater(p.(lane := l), kept, now, Begun(l));
  }

  lemma LaneCommitted(p: Protocol, op: L.Op)
    requires L.Inv(p.lane) && Committed(p) && !op.Submit? && op != L.PollFinish(0)
    ensures Committed(p.(lane := L.Apply(p.lane, op)))
  {
    var l := L.Apply(p.lane, op);
    assert |l.receipts| == |p.lane.receipts| by { if L.Enabled(p.lane, op) { StepKeys(p.lane, op); } }
    hide L.Apply;
    forall r | 0 <= r < |l.receipts| && l.receipts[r] == 1 ensures p.lane.receipts[r] == 1 {
      L.StepSettles(p.lane, op, r);
    }
  }

  /** A pass has come out well only if it had before, or just did. */
  lemma LanePassing(l: L.Lane, op: L.Op)
    requires L.Phases(l) && L.LastEvent(l) && !op.Submit? && !op.PollFinish? && L.Enabled(l, op)
    requires Passing(L.Apply(l, op))
    ensures l.jobs != [] && Keys(L.Apply(l, op).jobs)[0] == Keys(l.jobs)[0]
    ensures Passing(l) || (op.WorkerRan? && op.outcome == 0 && l.worker == L.Running(true) && Begun(l) == 0)
  {
    hide L.Fail, L.Bytes, L.Contexts, L.ExpiredHead;
  }

  /** A pass that came out well for a repair found it newer than the files. */
  lemma RanClears(p: Protocol, op: L.Op)
    requires Held(p, Keys(p.lane.jobs), 0) && Numbered(p) && p.lane.jobs != []
    requires Captured(p.captures, p.dirtyRevision, p.repairRevision) && FilesAt(p)
    requires op.WorkerRan? && op.outcome == 0 && p.lane.worker == L.Running(true)
    ensures Rewrites(p.requests, p.captures, DoStep(p, op).cleared, Keys(p.lane.jobs)[0])
  {
    hide L.Apply, Rising, Before, Joined, WrittenBefore;
    var k := Keys(p.lane.jobs)[0];
    forall i | 0 <= i < |p.requests| && p.requests[i].receipt == k.receipt && Asks(p.captures, p.requests[i])
      ensures p.captures[k.capture].repair > p.filesRepair
    {
      var c := p.requests[i].capture;
      assert p.written < c <= k.capture;
      assert p.captures[c].repair <= p.captures[k.capture].repair;
    }
  }

  lemma RewritesMore(requests: seq<Pair>, captures: seq<Snapshot>, cleared: set<nat>, more: set<nat>, k: Pair)
    requires Rewrites(requests, captures, cleared, k) && cleared <= more
    ensures Rewrites(requests, captures, more, k)
  {}

  lemma StepRepaired(p: Protocol, op: L.Op)
    requires Inv(p) && Enabled(p, Step(op))
    ensures Repaired(DoStep(p, op))
  {
    var q := DoStep(p, op);
    hide L.Inv, L.Apply, Rewrites, Held, Numbered, Captured, Committed, Clean, Answered, Passing, Keys;
    assert L.Phases(p.lane) && L.LastEvent(p.lane) by { LaneParts(p.lane); }
    assert p.cleared <= q.cleared && q.requests == p.requests && q.captures == p.captures && q.commits == p.commits;
    forall i | 0 <= i < |p.commits| ensures Rewrites(q.requests, q.captures, q.cleared, q.commits[i]) {
      RewritesMore(p.requests, p.captures, p.cleared, q.cleared, p.commits[i]);
    }
    if Passing(q.lane) {
      LanePassing(p.lane, op);
      if Passing(p.lane) {
        RewritesMore(p.requests, p.captures, p.cleared, q.cleared, Keys(p.lane.jobs)[0]);
      } else {
        RanClears(p, op);
      }
    }
  }

  lemma LaneParts(l: L.Lane)
    requires L.Inv(l)
    ensures L.Phases(l) && L.LastEvent(l) && L.HeldJobs(l) && L.Ordered(l.jobs)
  {}

  lemma RanKeys(l: L.Lane, op: L.Op)
    requires L.Inv(l) && op.WorkerRan? && L.Enabled(l, op)
    ensures Keys(L.Apply(l, op).jobs) == Keys(l.jobs) && Begun(l) == 0 && Begun(L.Apply(l, op)) == 1
    ensures |L.Apply(l, op).receipts| == |l.receipts| && L.Apply(l, op).submitted == l.submitted
  {
    LaneParts(l);
    hide L.Inv, L.HeldJobs, L.Ordered;
  }

  lemma StepHeld(p: Protocol, op: L.Op)
    requires Inv(p) && Enabled(p, Step(op))
    ensures var q := DoStep(p, op); Held(q, Keys(q.lane.jobs), Begun(q.lane)) && FilesAt(q)
  {
    hide L.Inv, L.Apply, L.Enabled, Held, Captured, Committed, Clean, Answered, Repaired, Keys, Begun;
    var q := DoStep(p, op);
    if q.written != p.written {
      RanKeys(p.lane, op);
      HeldWritten(p, Keys(p.lane.jobs));
      HeldFor(p.(written := q.written), q, Keys(p.lane.jobs), 1);
    } else {
      LaneHeld(p, op);
      HeldFor(p.(lane := q.lane), q, Keys(q.lane.jobs), Begun(q.lane));
    }
  }

  lemma StepKeepsInv(p: Protocol, op: L.Op)
    requires Inv(p) && Enabled(p, Step(op))
    ensures Inv(DoStep(p, op))
  {
    var q := DoStep(p, op);
    hide L.Inv, L.Apply, Held, Captured, Committed, Clean, Answered, Repaired, Keys, Begun, Rising, Below;
    L.StepKeeps(p.lane, op);
    assert |q.lane.receipts| == |p.lane.receipts| && q.lane.submitted == p.lane.submitted by { StepKeys(p.lane, op); }
    StepHeld(p, op);
    LaneCommitted(p, op);
    CommittedFor(p.(lane := q.lane), q);
    StepRepaired(p, op);
  }

  lemma CommittedFor(p: Protocol, q: Protocol)
    requires Committed(p) && q.commits == p.commits && q.lane.receipts == p.lane.receipts
    ensures Committed(q)
  {}

  // ------------------------------------------------------------------ finish

  /** The oldest job is committed and gone. */
  lemma CommitHeld(p: Protocol, ks: seq<Pair>, c: Pair)
    requires Held(p, ks, 0) && Below([c], |p.lane.receipts|, p.lane.submitted)
    requires forall k :: 0 <= k < |ks| ==> c.receipt < ks[k].receipt && c.capture < ks[k].capture
    ensures Held(p.(commits := p.commits + [c]), ks, 0)
  {
    hide Rising, Below, Answered, Joined, WrittenBefore, Newer;
  }

  lemma CommitNumbered(p: Protocol, ks: seq<Pair>)
    requires Numbered(p) && Held(p, ks, 1) && ks != [] && Answered(p.requests, p.commits)
    ensures Numbered(p.(commits := p.commits + [ks[0]])) && Answered(p.requests, p.commits + [ks[0]])
  {
    hide Joined, WrittenBefore, Newer;
  }

  /** Commits are in snapshot order, so an older one cannot leave a clear flag
      behind a newer revision. */
  lemma CommitClean(p: Protocol, c: Pair)
    requires Clean(p.commits, p.captures, p.dirty, p.dirtyRevision) && Numbered(p) && c.capture < |p.captures|
    requires Captured(p.captures, p.dirtyRevision, p.repairRevision)
    requires forall i :: 0 <= i < |p.commits| ==> p.commits[i].capture < c.capture
    ensures Clean(p.commits + [c], p.captures, p.dirty && p.captures[c.capture].revision != p.dirtyRevision, p.dirtyRevision)
  {
    hide Below, Rising;
    var n := |p.commits|;
    if n > 0 {
      assert p.commits[n - 1].capture < c.capture;
    }
  }

  lemma FinishRepaired(p: Protocol, c: Pair)
    requires Inv(p) && Finishing(p.lane) && L.Outcome(p.lane.jobs[0]) == 0 && c == Keys(p.lane.jobs)[0]
    ensures Rewrites(p.requests, p.captures, p.cleared, c)
  {
    hide L.Apply, Rewrites, Held, Numbered, Captured, Committed, Clean, Answered;
    LaneParts(p.lane);
    hide L.Inv, L.LastEvent, L.HeldJobs, L.Ordered;
  }

  lemma CommitShape(p: Protocol)
    requires Inv(p) && p.lane.control.Reaped? && Finishing(p.lane) && L.Outcome(p.lane.jobs[0]) == 0
    ensures var c, q := Keys(p.lane.jobs)[0], DoFinish(p);
      && c.capture < |p.captures| && Held(p, Keys(p.lane.jobs), 1)
      && (forall i :: 0 <= i < |p.commits| ==> p.commits[i].capture < c.capture)
      && Commits(p, q, c) && q.lane == L.Apply(p.lane, L.PollFinish(0))
  {
    hide L.Inv, L.Apply, Captured, Committed, Clean, Repaired, Answered;
    HeldBefore(p, Keys(p.lane.jobs));
  }

  /** What a committing finish changes beside the lane. */
  predicate Commits(p: Protocol, q: Protocol, c: Pair) {
    && q.commits == p.commits + [c] && c.capture < |p.captures|
    && q.dirty == (p.dirty && p.captures[c.capture].revision != p.dirtyRevision)
    && q.dirtyRevision == p.dirtyRevision && q.repairRevision == p.repairRevision && q.filesRepair == p.filesRepair
    && q.captures == p.captures && q.requests == p.requests && q.written == p.written && q.cleared == p.cleared
  }

  /** A finish that commits. */
  lemma CommitKeepsInv(p: Protocol)
    requires Inv(p) && p.lane.control.Reaped? && Finishing(p.lane) && L.Outcome(p.lane.jobs[0]) == 0
    ensures Inv(DoFinish(p))
  {
    var c := Keys(p.lane.jobs)[0];
    CommitShape(p);
    FinishShape(p.lane, L.PollFinish(0));
    hide L.Inv, L.Apply, L.Outcome, DoFinish, Inv, Commits, Held, Keys, Dropped, Committed, Rewrites;
    assert L.Inv(L.Apply(p.lane, L.PollFinish(0))) by { InvLane(p); L.StepKeeps(p.lane, L.PollFinish(0)); }
    FinishRepaired(p, c);
    CommitCommitted(p, c);
    CommitInv(p, DoFinish(p), c);
  }

  lemma InvLane(p: Protocol)
    requires Inv(p)
    ensures L.Inv(p.lane)
  {}

  lemma CommitInv(p: Protocol, q: Protocol, c: Pair)
    requires Inv(p) && Keys(p.lane.jobs) != [] && c == Keys(p.lane.jobs)[0] && Commits(p, q, c)
    requires Rewrites(p.requests, p.captures, p.cleared, c)
    requires Committed(p.(lane := q.lane, commits := p.commits + [c]))
    requires Held(p, Keys(p.lane.jobs), 1) && (forall i :: 0 <= i < |p.commits| ==> p.commits[i].capture < c.capture)
    requires L.Inv(q.lane) && Keys(q.lane.jobs) == Dropped(Keys(p.lane.jobs), 0, 1) && q.lane.head == L.Queued
    requires |q.lane.receipts| == |p.lane.receipts| && q.lane.submitted == p.lane.submitted
    ensures Inv(q)
  {
    hide L.Inv, Held, Keys, Dropped, Committed, Captured, Clean, Rewrites, Answered, Numbered;
    CommittedFor(p.(lane := q.lane, commits := q.commits), q);
    CommitHeldKeys(p, q, c);
    CommitClean(p, c);
  }

  lemma HeldBefore(p: Protocol, ks: seq<Pair>)
    requires Held(p, ks, Begun(p.lane)) && ks != []
    ensures forall i :: 0 <= i < |p.commits| ==> p.commits[i].capture < ks[0].capture && p.commits[i].receipt < ks[0].receipt
    ensures ks[0].capture < p.lane.submitted && ks[0].receipt < |p.lane.receipts|
  {}

  lemma FinishShape(l: L.Lane, op: L.Op)
    requires L.Enabled(l, op) && op.PollFinish? && Finishing(l)
    ensures var m := L.Apply(l, op);
      && Keys(m.jobs) == Dropped(Keys(l.jobs), 0, 1) && |m.receipts| == |l.receipts| && m.submitted == l.submitted
      && m.head == L.Queued && Begun(l) == 1
  {
    StepKeys(l, op);
  }

  lemma CommitCommitted(p: Protocol, c: Pair)
    requires Inv(p) && p.lane.control.Reaped? && Finishing(p.lane) && c == Keys(p.lane.jobs)[0]
    ensures Committed(p.(lane := L.Apply(p.lane, L.PollFinish(0)), commits := p.commits + [c]))
  {
    hide Held, Numbered, Captured, Clean, Answered, Repaired;
    var op := L.PollFinish(0);
    var l := L.Apply(p.lane, op);
    FinishShape(p.lane, op);
    LaneParts(p.lane);
    hide L.Apply, L.Inv, L.LastEvent, L.HeldJobs, L.Ordered;
    var commits := p.commits + [c];
    assert commits[|p.commits|] == c;
    forall r | 0 <= r < |l.receipts| && l.receipts[r] == 1 ensures exists i :: 0 <= i < |commits| && commits[i].receipt == r {
      L.StepSettles(p.lane, op, r);
      if p.lane.receipts[r] == 1 {
        var i :| 0 <= i < |p.commits| && p.commits[i].receipt == r;
        assert commits[i].receipt == r;
      }
    }
  }

  lemma CommitHeldKeys(p: Protocol, q: Protocol, c: Pair)
    requires Held(p, Keys(p.lane.jobs), 1) && Numbered(p) && Answered(p.requests, p.commits) && Keys(p.lane.jobs) != []
    requires c == Keys(p.lane.jobs)[0] && Keys(q.lane.jobs) == Dropped(Keys(p.lane.jobs), 0, 1)
    requires Commits(p, q, c)
    requires |q.lane.receipts| == |p.lane.receipts| && q.lane.submitted == p.lane.submitted
    ensures Held(q, Keys(q.lane.jobs), 0) && Numbered(q) && Answered(q.requests, q.commits)
  {
    var ks := Keys(p.lane.jobs);
    var kept := Dropped(ks, 0, 1);
    HeldDrop(p, ks, 1, 0, 1);
    CommitNumbered(p, ks);
    assert forall k :: 0 <= k < |kept| ==> c.receipt < kept[k].receipt && c.capture < kept[k].capture;
    hide Held, Keys, Dropped, Answered, Rising;
    CommitHeld(p, kept, c);
    HeldFor(p.(commits := q.commits), q, kept, 0);
  }

  /** What any other finish changes beside the lane. */
  predicate Declines(p: Protocol, q: Protocol) {
    && q.commits == p.commits && (p.dirty ==> q.dirty) && (q.dirty || q.dirty == p.dirty)
    && q.dirtyRevision == p.dirtyRevision && q.repairRevision == p.repairRevision && q.filesRepair == p.filesRepair
    && q.captures == p.captures && q.requests == p.requests && q.written == p.written && q.cleared == p.cleared
  }

  /** A finish that fails, or finds nothing to finish. */
  lemma OtherFinishKeepsInv(p: Protocol)
    requires Inv(p) && p.lane.control.Reaped? && !(Finishing(p.lane) && L.Outcome(p.lane.jobs[0]) == 0)
    ensures Inv(DoFinish(p))
  {
    var op := L.PollFinish(if Finishing(p.lane) then L.Outcome(p.lane.jobs[0]) else -1);
    var q := DoFinish(p);
    OtherFinishPassing(p.lane, op);
    assert q.lane == L.Apply(p.lane, op) && Declines(p, q) by { hide L.Apply, Inv; }
    hide L.Inv, L.Apply, L.Outcome, DoFinish, Inv, Declines, Held, Keys, Begun, Passing, Committed;
    InvLane(p);
    L.StepKeeps(p.lane, op);
    StepKeys(p.lane, op);
    assert Held(p, Keys(p.lane.jobs), Begun(p.lane)) && Committed(p) by { InvHeld(p); }
    LaneHeld(p, op);
    LaneCommitted(p, op);
    DeclineInv(p, q);
  }

  lemma InvHeld(p: Protocol)
    requires Inv(p)
    ensures Held(p, Keys(p.lane.jobs), Begun(p.lane)) && Committed(p)
  {}

  lemma DeclineInv(p: Protocol, q: Protocol)
    requires Inv(p) && Declines(p, q) && L.Inv(q.lane)
    requires |q.lane.receipts| == |p.lane.receipts| && q.lane.submitted == p.lane.submitted
    requires Held(p.(lane := q.lane), Keys(q.lane.jobs), Begun(q.lane)) && Committed(p.(lane := q.lane))
    requires Passing(q.lane) ==> Passing(p.lane) && Keys(q.lane.jobs)[0] == Keys(p.lane.jobs)[0]
    ensures Inv(q)
  {
    hide L.Inv, Held, Captured, Committed, Answered, Keys, Begun, Rising, Below, Rewrites, Passing;
    HeldFor(p.(lane := q.lane), q, Keys(q.lane.jobs), Begun(q.lane));
    CommittedFor(p.(lane := q.lane), q);
  }

  lemma OtherFinishPassing(l: L.Lane, op: L.Op)
    requires L.Enabled(l, op) && op.PollFinish?
    ensures Passing(L.Apply(l, op)) ==> Passing(l) && Keys(L.Apply(l, op).jobs)[0] == Keys(l.jobs)[0]
  {}

  // ------------------------------------------------------------------- flush

  /** A submission ends the line with `x`, in place of the last key or after it. */
  function Ends(ks: seq<Pair>, m: nat, x: Pair): (r: seq<Pair>)
    requires m <= |ks|
    ensures |r| == m + 1 && r[m] == x
    ensures forall k :: 0 <= k < m ==> r[k] == ks[k]
  {
    ks[..m] + [x]
  }

  /** `x` is newer than everything, and its receipt is the last held job's or new. */
  ghost predicate Fresh(p: Protocol, ks: seq<Pair>, m: nat, x: Pair) {
    && m <= |ks| <= m + 1 && x.capture == p.lane.submitted
    && x.receipt == (if m < |ks| then ks[m].receipt else |p.lane.receipts|)
  }

  lemma EndsRising(p: Protocol, ks: seq<Pair>, m: nat, x: Pair)
    requires Rising(ks) && Below(ks, |p.lane.receipts|, p.lane.submitted) && Fresh(p, ks, m, x)
    ensures Rising(Ends(ks, m, x))
    ensures Below(Ends(ks, m, x), if m < |ks| then |p.lane.receipts| else |p.lane.receipts| + 1, p.lane.submitted + 1)
  { hide Ends; }

  lemma EndsAnswered(p: Protocol, ks: seq<Pair>, m: nat, x: Pair)
    requires Rising(ks) && Below(ks, |p.lane.receipts|, p.lane.submitted) && Fresh(p, ks, m, x)
    requires Answered(p.requests, ks) && Below(p.requests, |p.lane.receipts|, p.lane.submitted)
    ensures Answered(p.requests + [x], Ends(ks, m, x))
  { hide Ends; }

  lemma EndsJoined(p: Protocol, ks: seq<Pair>, m: nat, x: Pair)
    requires Rising(ks) && Below(ks, |p.lane.receipts|, p.lane.submitted) && Fresh(p, ks, m, x)
    requires Joined(p.requests, ks) && Below(p.requests, |p.lane.receipts|, p.lane.submitted)
    ensures Joined(p.requests + [x], Ends(ks, m, x))
  { hide Ends; }

  lemma EndsBefore(p: Protocol, ks: seq<Pair>, m: nat, x: Pair)
    requires Fresh(p, ks, m, x) && Before(p.commits, ks) && Below(p.commits, |p.lane.receipts|, p.lane.submitted)
    ensures Before(p.commits, Ends(ks, m, x))
  { hide Ends; }

  lemma EndsNewer(p: Protocol, ks: seq<Pair>, m: nat, x: Pair, begun: nat)
    requires Fresh(p, ks, m, x) && WrittenBefore(p.written, ks) && Newer(p.written, p.requests, ks, begun)
    requires p.written < p.lane.submitted && Below(p.requests, |p.lane.receipts|, p.lane.submitted)
    ensures WrittenBefore(p.written, Ends(ks, m, x)) && Newer(p.written, p.requests + [x], Ends(ks, m, x), begun)
  { hide Ends; }

  lemma EndsHeld(p: Protocol, q: Protocol, ks: seq<Pair>, m: nat, x: Pair, begun: nat)
    requires Held(p, ks, begun) && Fresh(p, ks, m, x) && Numbered(p) && p.written < p.lane.submitted
    requires q.requests == p.requests + [x] && q.commits == p.commits && q.written == p.written
    requires q.lane.submitted == p.lane.submitted + 1
    requires |q.lane.receipts| == if m < |ks| then |p.lane.receipts| else |p.lane.receipts| + 1
    ensures Held(q, Ends(ks, m, x), begun)
  {
    hide Fresh, Rising, Below, Answered, Joined, Before, WrittenBefore, Newer, Ends;
    EndsRising(p, ks, m, x);
    EndsAnswered(p, ks, m, x);
    EndsJoined(p, ks, m, x);
    EndsBefore(p, ks, m, x);
    EndsNewer(p, ks, m, x, begun);
  }

  /** The key a flush leaves at the end of the line, and where. */
  function EndKey(l: L.Lane, receipt: int): Pair {
    Pair(if receipt < 0 then |l.receipts| else receipt, l.submitted)
  }

  function EndAt(l: L.Lane, receipt: int): nat {
    if receipt >= 0 && L.Replaces(l, true) then |l.jobs| - 1 else |l.jobs|
  }

  /** What a flush does to the line: nothing, or a new end for it. */
  lemma SubmitShape(l: L.Lane, op: L.Op)
    requires L.Phases(l) && L.LastEvent(l) && L.Enabled(l, op) && op.Submit? && op.coalesce
    ensures var r, n := L.ReceiptOf(l, op.size, true, op.memory), L.Apply(l, op);
      var m := EndAt(l, r);
      && n.submitted == l.submitted + 1 && Begun(n) == Begun(l)
      && Keys(n.jobs) == (if r < 0 then Keys(l.jobs) else Ends(Keys(l.jobs), m, EndKey(l, r)))
      && EndKey(l, r).receipt == (if m < |l.jobs| then l.jobs[m].id else |l.receipts|)
      && n.receipts == (if r >= 0 && m == |l.jobs| then l.receipts + [0] else l.receipts)
      && (Passing(n) ==> Passing(l) && Keys(n.jobs)[0] == Keys(l.jobs)[0] && (r >= 0 ==> m > 0))
  {}

  lemma FlushNumbered(p: Protocol, q: Protocol, ks: seq<Pair>, m: nat, x: Pair)
    requires Numbered(p) && Fresh(p, ks, m, x) && Below(ks, |p.lane.receipts|, p.lane.submitted)
    requires |q.captures| == |p.captures| + 1 && q.commits == p.commits && q.lane.submitted == p.lane.submitted + 1
    requires |q.lane.receipts| >= |p.lane.receipts|
    requires q.requests == p.requests || (q.requests == p.requests + [x] && x.receipt < |q.lane.receipts|)
    ensures Numbered(q)
  {}

  lemma FlushCaptured(captures: seq<Snapshot>, revision: nat, repair: nat, asked: bool, routes: seq<Route>)
    requires Captured(captures, revision, repair)
    ensures var next := if asked then repair + 1 else repair;
      Captured(captures + [Snapshot(revision, next, asked, routes)], revision, next)
  {}

  lemma FlushAnswered(p: Protocol, ks: seq<Pair>, m: nat, x: Pair)
    requires Answered(p.requests, p.commits) && Before(p.commits, ks) && Fresh(p, ks, m, x)
    requires Below(p.commits, |p.lane.receipts|, p.lane.submitted)
    ensures Answered(p.requests + [x], p.commits)
  {}

  /** A request that joins another receipt changes nothing for `k`. */
  lemma FlushRewrites(p: Protocol, captures: seq<Snapshot>, x: Pair, k: Pair)
    requires Rewrites(p.requests, p.captures, p.cleared, k) && Below(p.requests, |p.lane.receipts|, |p.captures|)
    requires x.receipt != k.receipt && p.captures <= captures
    ensures Rewrites(p.requests + [x], captures, p.cleared, k)
    ensures Rewrites(p.requests, captures, p.cleared, k)
  {}

  lemma FlushRepaired(p: Protocol, q: Protocol, ks: seq<Pair>, m: nat, x: Pair)
    requires Repaired(p) && Numbered(p) && Before(p.commits, ks) && Fresh(p, ks, m, x) && Rising(ks) && ks == Keys(p.lane.jobs)
    requires Below(ks, |p.lane.receipts|, p.lane.submitted)
    requires p.captures <= q.captures && q.commits == p.commits && q.cleared == p.cleared
    requires q.requests == p.requests || (q.requests == p.requests + [x] && (Passing(q.lane) ==> m > 0))
    requires Passing(q.lane) ==> Passing(p.lane) && Keys(q.lane.jobs)[0] == ks[0]
    ensures Repaired(q)
  {
    assert forall i :: 0 <= i < |p.commits| ==> x.receipt != p.commits[i].receipt;
    var other := Pair(|p.lane.receipts|, 0);
    hide Rewrites;
    forall i | 0 <= i < |p.commits| ensures Rewrites(q.requests, q.captures, q.cleared, q.commits[i]) {
      FlushRewrites(p, q.captures, x, p.commits[i]);
    }
    if Passing(q.lane) {
      FlushRewrites(p, q.captures, if m > 0 then x else other, ks[0]);
    }
  }

  /** What a flush changes beside the lane. */
  predicate Flushes(p: Protocol, q: Protocol, op: Op, x: Pair)
    requires op.Flush?
  {
    && q.repairRevision == NextRepair(p, op.repair)
    && q.captures == p.captures + [Snapshot(p.dirtyRevision, NextRepair(p, op.repair), op.repair, op.routes)]
    && (q.requests == p.requests || q.requests == p.requests + [x])
    && q.commits == p.commits && q.dirty == p.dirty && q.dirtyRevision == p.dirtyRevision
    && q.filesRepair == p.filesRepair && q.written == p.written && q.cleared == p.cleared
  }

  /** What it changes in the lane. */
  predicate Lines(p: Protocol, q: Protocol, m: nat, x: Pair) {
    && m <= |p.lane.jobs|
    && q.lane.submitted == p.lane.submitted + 1 && Begun(q.lane) == Begun(p.lane)
    && Keys(q.lane.jobs) == (if q.requests == p.requests then Keys(p.lane.jobs) else Ends(Keys(p.lane.jobs), m, x))
    && q.lane.receipts == (if q.requests != p.requests && m == |p.lane.jobs| then p.lane.receipts + [0] else p.lane.receipts)
    && (Passing(q.lane) ==> Passing(p.lane) && Keys(q.lane.jobs)[0] == Keys(p.lane.jobs)[0])
    && (Passing(q.lane) && q.requests != p.requests ==> m > 0)
  }

  lemma FlushShape(p: Protocol, op: Op)
    requires L.Phases(p.lane) && L.LastEvent(p.lane)
    requires op.Flush? && op.captured && Enabled(p, op)
    ensures var q, r := Apply(p, op), L.ReceiptOf(p.lane, op.size, true, op.memory);
      var m, x := EndAt(p.lane, r), EndKey(p.lane, r);
      && q.lane == L.Apply(p.lane, L.Submit(op.size, true, op.memory, op.now))
      && Flushes(p, q, op, x) && Lines(p, q, m, x) && Fresh(p, Keys(p.lane.jobs), m, x)
  {
    hide L.Apply, L.ReceiptOf, L.Phases, L.LastEvent, Passing, Begun, Ends, EndAt, Lines, Fresh;
    FlushLines(p, Apply(p, op), op);
  }

  lemma FlushLines(p: Protocol, q: Protocol, op: Op)
    requires L.Phases(p.lane) && L.LastEvent(p.lane)
    requires op.Flush? && op.captured && Enabled(p, op)
    requires var r := L.ReceiptOf(p.lane, op.size, true, op.memory);
      && q.lane == L.Apply(p.lane, L.Submit(op.size, true, op.memory, op.now))
      && q.requests == if r < 0 then p.requests else p.requests + [EndKey(p.lane, r)]
    ensures var r := L.ReceiptOf(p.lane, op.size, true, op.memory);
      var m, x := EndAt(p.lane, r), EndKey(p.lane, r);
      Lines(p, q, m, x) && Fresh(p, Keys(p.lane.jobs), m, x)
  {
    SubmitShape(p.lane, L.Submit(op.size, true, op.memory, op.now));
    hide L.Apply, L.ReceiptOf, L.Phases, L.LastEvent, Passing, Begun, Ends;
  }

  lemma FlushKeepsInv(p: Protocol, op: Op)
    requires Inv(p) && op.Flush? && op.captured && Enabled(p, op)
    ensures Inv(Apply(p, op))
  {
    var l, q, r := p.lane, Apply(p, op), L.ReceiptOf(p.lane, op.size, true, op.memory);
    hide L.Inv, L.Apply, L.Phases, L.LastEvent, L.HeldJobs, L.Ordered, L.ReceiptOf, Inv, Apply, Flushes, Lines, Fresh, Keys;
    InvLane(p);
    LaneParts(l);
    FlushShape(p, op);
    L.StepKeeps(l, L.Submit(op.size, true, op.memory, op.now));
    FlushInv(p, q, op, EndAt(l, r), EndKey(l, r));
  }

  lemma FlushInv(p: Protocol, q: Protocol, op: Op, m: nat, x: Pair)
    requires Inv(p) && op.Flush? && Flushes(p, q, op, x) && Lines(p, q, m, x) && Fresh(p, Keys(p.lane.jobs), m, x)
    requires L.Inv(q.lane)
    ensures Inv(q)
  {
    hide L.Inv, Captured, Answered, Passing, Begun, Ends, Rising, Below, Before, Repaired, Committed, Clean, Keys;
    var ks := Keys(p.lane.jobs);
    FlushCaptured(p.captures, p.dirtyRevision, p.repairRevision, op.repair, op.routes);
    FlushCommitted(p, q);
    FlushClean(p, q);
    FlushHeld(p, q, ks, m, x);
    FlushRest(p, q, ks, m, x);
  }

  lemma FlushRest(p: Protocol, q: Protocol, ks: seq<Pair>, m: nat, x: Pair)
    requires Held(p, ks, Begun(p.lane)) && Repaired(p) && Numbered(p) && Answered(p.requests, p.commits)
    requires Lines(p, q, m, x) && Fresh(p, ks, m, x) && ks == Keys(p.lane.jobs)
    requires p.captures <= q.captures && |q.captures| == |p.captures| + 1 && q.commits == p.commits && q.cleared == p.cleared
    requires q.requests == p.requests || q.requests == p.requests + [x]
    ensures Repaired(q) && Numbered(q) && Answered(q.requests, q.commits)
  {
    hide Answered, Passing, Begun, Ends, Rising, Below, Before, Repaired, Keys;
    FlushReceipt(p, ks, m, x);
    FlushNumbered(p, q, ks, m, x);
    FlushAnswered(p, ks, m, x);
    FlushRepaired(p, q, ks, m, x);
  }

  lemma FlushReceipt(p: Protocol, ks: seq<Pair>, m: nat, x: Pair)
    requires Below(ks, |p.lane.receipts|, p.lane.submitted) && Fresh(p, ks, m, x)
    ensures x.receipt < if m == |ks| then |p.lane.receipts| + 1 else |p.lane.receipts|
  {}

  lemma FlushHeld(p: Protocol, q: Protocol, ks: seq<Pair>, m: nat, x: Pair)
    requires Held(p, ks, Begun(p.lane)) && Fresh(p, ks, m, x) && Numbered(p) && p.written < p.lane.submitted
    requires q.requests == p.requests + [x] || q.requests == p.requests
    requires q.commits == p.commits && q.written == p.written && q.lane.submitted == p.lane.submitted + 1
    requires |q.lane.receipts| == if q.requests != p.requests && m == |ks| then |p.lane.receipts| + 1 else |p.lane.receipts|
    ensures Held(q, if q.requests == p.requests then ks else Ends(ks, m, x), Begun(p.lane))
  {
    if q.requests == p.requests {
    } else {
      hide Held, Numbered, Fresh, Ends, Begun;
      EndsHeld(p, q, ks, m, x, Begun(p.lane));
    }
  }

  lemma FlushCommitted(p: Protocol, q: Protocol)
    requires Committed(p) && q.commits == p.commits
    requires q.lane.receipts == p.lane.receipts || q.lane.receipts == p.lane.receipts + [0]
    ensures Committed(q)
  {}

  lemma FlushClean(p: Protocol, q: Protocol)
    requires Clean(p.commits, p.captures, p.dirty, p.dirtyRevision) && p.captures <= q.captures
    requires q.commits == p.commits && q.dirty == p.dirty && q.dirtyRevision == p.dirtyRevision
    ensures Clean(q.commits, q.captures, q.dirty, q.dirtyRevision)
  {}

  // --------------------------------------------------------------- every run

  lemma StepKeeps(p: Protocol, op: Op)
    requires Inv(p)
    ensures Inv(Apply(p, op))
  {
    hide L.Inv, L.Apply, Inv, L.Enabled;
    if Enabled(p, op) {
      match op {
        case Mutate => MutateKeepsInv(p);
        case Flush(repair, captured, _, _, _, _) =>
          if captured {
            FlushKeepsInv(p, op);
          } else {
            LostFlushKeepsInv(p, NextRepair(p, repair));
          }
        case Finish =>
          if Finishing(p.lane) && L.Outcome(p.lane.jobs[0]) == 0 {
            CommitKeepsInv(p);
          } else {
            OtherFinishKeepsInv(p);
          }
        case Step(step) => StepKeepsInv(p, step);
      }
    }
  }

  lemma MutateKeepsInv(p: Protocol)
    requires Inv(p)
    ensures Inv(p.(dirtyRevision := p.dirtyRevision + 1, dirty := true))
  {
    hide L.Inv, Held, Committed, Answered, Rising, Below, Rewrites, Passing, Keys, Begun;
    var q := p.(dirtyRevision := p.dirtyRevision + 1, dirty := true);
    HeldFor(p, q, Keys(p.lane.jobs), Begun(p.lane));
    CommittedFor(p, q);
  }

  lemma LostFlushKeepsInv(p: Protocol, next: nat)
    requires Inv(p) && next >= p.repairRevision
    ensures Inv(p.(repairRevision := next))
  {
    hide L.Inv, Held, Committed, Answered, Rising, Below, Rewrites, Passing, Keys, Begun;
    var q := p.(repairRevision := next);
    HeldFor(p, q, Keys(p.lane.jobs), Begun(p.lane));
    CommittedFor(p, q);
  }

  lemma {:induction false} RunKeeps(maxBytes: nat, ops: seq<Op>)
    ensures Inv(Run(Init(maxBytes), ops))
  {
    if ops == [] {
      L.RunKeeps(maxBytes, []);
    } else {
      hide Inv, Apply;
      RunKeeps(maxBytes, ops[..|ops| - 1]);
      StepKeeps(Run(Init(maxBytes), ops[..|ops| - 1]), ops[|ops| - 1]);
    }
  }

  /** A receipt that reports commit was satisfied by a snapshot captured at or
      after every request that shares it, and so at no older a revision. */
  lemma CommitCoversEveryRequest(maxBytes: nat, ops: seq<Op>, r: nat)
    requires r < |Run(Init(maxBytes), ops).lane.receipts| && Run(Init(maxBytes), ops).lane.receipts[r] == 1
    ensures var p := Run(Init(maxBytes), ops);
      exists c | 0 <= c < |p.commits| ::
        && p.commits[c].receipt == r && p.commits[c].capture < |p.captures|
        && forall i | 0 <= i < |p.requests| && p.requests[i].receipt == r ::
             && p.requests[i].capture <= p.commits[c].capture
             && p.captures[p.requests[i].capture].revision <= p.captures[p.commits[c].capture].revision
  {
    var p := Run(Init(maxBytes), ops);
    RunKeeps(maxBytes, ops);
    CommitCovers(p, r);
  }

  lemma CommitCovers(p: Protocol, r: nat)
    requires Inv(p) && r < |p.lane.receipts| && p.lane.receipts[r] == 1
    ensures exists c | 0 <= c < |p.commits| ::
        && p.commits[c].receipt == r && p.commits[c].capture < |p.captures|
        && forall i | 0 <= i < |p.requests| && p.requests[i].receipt == r ::
             && p.requests[i].capture <= p.commits[c].capture
             && p.captures[p.requests[i].capture].revision <= p.captures[p.commits[c].capture].revision
  {
    hide L.Inv, Held, Repaired, FilesAt, Clean, Rising;
    var c :| 0 <= c < |p.commits| && p.commits[c].receipt == r;
    assert p.commits[c].capture < |p.captures|;
    forall i | 0 <= i < |p.requests| && p.requests[i].receipt == r
      ensures p.requests[i].capture <= p.commits[c].capture
      ensures p.captures[p.requests[i].capture].revision <= p.captures[p.commits[c].capture].revision
    {
      assert p.requests[i].capture <= p.commits[c].capture;
    }
  }

  /** Once anything has been published, a clear dirty flag means that the last
      committed snapshot carries the current revision. */
  lemma ClearFlagMeansCurrent(maxBytes: nat, ops: seq<Op>)
    requires !Run(Init(maxBytes), ops).dirty && Run(Init(maxBytes), ops).commits != []
    ensures var p := Run(Init(maxBytes), ops);
      var last := p.commits[|p.commits| - 1].capture;
      last < |p.captures| && p.captures[last].revision == p.dirtyRevision
  {
    RunKeeps(maxBytes, ops);
    hide L.Inv, Held, Repaired, FilesAt, Rising, Below, Captured, Committed, Answered;
  }

  /** A repair whose receipt reports commit was carried out by a pass that began
      by forgetting every content signature. */
  lemma CommittedRepairForgotSignatures(maxBytes: nat, ops: seq<Op>, i: nat)
    requires var p := Run(Init(maxBytes), ops);
      && i < |p.requests| && p.requests[i].receipt < |p.lane.receipts| && p.lane.receipts[p.requests[i].receipt] == 1
      && Asks(p.captures, p.requests[i])
    ensures var p := Run(Init(maxBytes), ops);
      exists c | 0 <= c < |p.commits| :: p.commits[c].receipt == p.requests[i].receipt && p.commits[c].capture in p.cleared
  {
    RunKeeps(maxBytes, ops);
    var p := Run(Init(maxBytes), ops);
    hide L.Inv, Held, FilesAt, Rising, Below, Captured, Answered, Clean;
    var c :| 0 <= c < |p.commits| && p.commits[c].receipt == p.requests[i].receipt;
    assert Rewrites(p.requests, p.captures, p.cleared, p.commits[c]);
  }

  // -------------------------------------------------------------- the procedures

  method Flushed(p: Protocol, repair: bool, captured: bool, routes: seq<Route>, size: nat, memory: bool, now: int)
    returns (q: Protocol, receipt: int)
    requires Enabled(p, Flush(repair, captured, routes, size, memory, now))
    ensures q == Apply(p, Flush(repair, captured, routes, size, memory, now))
    ensures receipt == if captured then L.ReceiptOf(p.lane, size, true, memory) else -1
  {
    hide L.Apply, L.ReceiptOf, L.Enabled;
    q := p;
    if repair {
      q := q.(repairRevision := q.repairRevision + 1);
    }
    if !captured {
      return q, -1;
    }
    receipt := L.ReceiptOf(q.lane, size, true, memory);
    q := q.(captures := q.captures + [Snapshot(q.dirtyRevision, q.repairRevision, repair, routes)],
            lane := L.Apply(q.lane, L.Submit(size, true, memory, now)));
    if receipt >= 0 {
      q := q.(requests := q.requests + [Pair(receipt, p.lane.submitted)]);
    }
  }

  method Finished(p: Protocol) returns (q: Protocol)
    requires p.lane.control.Reaped? && Finishing(p.lane)
    ensures q == Apply(p, Finish)
  {
    hide L.Apply;
    q := p;
    var job := p.lane.jobs[0];
    var result := L.Outcome(job);
    if result == 0 {
      if job.context < |p.captures| && p.captures[job.context].revision == p.dirtyRevision {
        q := q.(dirty := false);
      }
      q := q.(commits := q.commits + [Pair(job.id, job.context)]);
    } else {
      q := q.(dirty := true);
    }
    q := q.(lane := L.Apply(p.lane, L.PollFinish(result)));
  }

  /** The registry's side of route publication. */
  class RouteTables {
    var p: Protocol

    constructor (maxBytes: nat)
      ensures p == Init(maxBytes) && Inv(p)
    {
      p := Init(maxBytes);
      new;
      RunKeeps(maxBytes, []);
    }

    method MarkDirty()
      requires Inv(p)
      modifies this
      ensures p == Apply(old(p), Mutate) && Inv(p)
    {
      StepKeeps(p, Mutate);
      hide Inv;
      p := p.(dirtyRevision := p.dirtyRevision + 1, dirty := true);
    }

    /** Captures the registry and hands it to the lane; a repair first asks for
        every file to be rewritten. Returns the receipt, -1 if there is none. */
    method FlushRouteTables(repair: bool, captured: bool, routes: seq<Route>, size: nat, memory: bool, now: int) returns (receipt: int)
      requires Inv(p) && Enabled(p, Flush(repair, captured, routes, size, memory, now))
      modifies this
      ensures p == Apply(old(p), Flush(repair, captured, routes, size, memory, now)) && Inv(p)
      ensures receipt == if captured then L.ReceiptOf(old(p).lane, size, true, memory) else -1
    {
      StepKeeps(p, Flush(repair, captured, routes, size, memory, now));
      hide Inv, Apply, Enabled, L.ReceiptOf;
      var q;
      q, receipt := Flushed(p, repair, captured, routes, size, memory, now);
      p := q;
    }

    /** The finish callback for the job the poll took back. */
    method FinishPublication()
      requires Inv(p) && p.lane.control.Reaped? && Finishing(p.lane)
      modifies this
      ensures p == Apply(old(p), Finish) && Inv(p)
    {
      StepKeeps(p, Finish);
      hide Inv, Apply, Finishing;
      var q := Finished(p);
      p := q;
    }
  }
}
