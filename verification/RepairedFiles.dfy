/** The revision protocol together with the files: every pass the lane runs is a
    pass over the disk, and what a receipt says is true of the disk. */
module RepairedFiles {
  import opened Common
  import opened NetworkSnapshot
  import L = PublicationLane
  import R = RoutePublication
  import F = RouteFiles

  datatype World = World(p: R.Protocol, f: F.Files)

  /** A step of the protocol, with the snapshot its pass writes if it ends one, or
      another program touching a file. */
  datatype Op = Publish(op: R.Op, job: F.Job) | Tamper(path: F.Path, content: Option<F.Rows>)

  /** The run callback of the active job returns. */
  predicate EndsPass(p: R.Protocol, op: R.Op) {
    && op.Step? && op.op.WorkerRan? && R.Enabled(p, op) && p.lane.worker == L.Running(true)
    && p.lane.jobs != [] && p.lane.jobs[0].context < |p.captures|
  }

  /** The pass writes the routes of the active job's snapshot, and its result is the
      pass's. */
  ghost predicate Passes(w: World, op: R.Op, job: F.Job, v: World) {
    && EndsPass(w.p, op) && F.Prepared(job) && F.Passed(w.f, job, op.op.outcome == 0, v.f)
    && job.repair == w.p.captures[w.p.lane.jobs[0].context].repair
    && job.routes == w.p.captures[w.p.lane.jobs[0].context].routes
  }

  ghost predicate Step(w: World, op: Op, v: World) {
    match op
    case Publish(op, job) =>
      v.p == R.Apply(w.p, op) && if EndsPass(w.p, op) then Passes(w, op, job, v) else v.f == w.f
    case Tamper(path, content) => v == World(w.p, F.Tampered(w.f, path, content))
  }

  ghost predicate Trace(ws: seq<World>, ops: seq<Op>, maxBytes: nat) {
    && |ws| == |ops| + 1 && ws[0].p == R.Init(maxBytes) && F.Adopted(ws[0].f) && ws[0].f.repair == 0
    && forall i :: 0 <= i < |ops| ==> Step(ws[i], ops[i], ws[i + 1])
  }

  /** The protocol operations among the first `n`. */
  function Published(ops: seq<Op>, n: nat): seq<R.Op>
    requires n <= |ops|
  {
    if n == 0 then []
    else Published(ops, n - 1) + if ops[n - 1].Publish? then [ops[n - 1].op] else []
  }

  lemma {:induction false} ProtocolRuns(ws: seq<World>, ops: seq<Op>, maxBytes: nat, n: nat)
    requires Trace(ws, ops, maxBytes) && n <= |ops|
    ensures ws[n].p == R.Run(R.Init(maxBytes), Published(ops, n))
  {
    if n > 0 {
      ProtocolRuns(ws, ops, maxBytes, n - 1);
      assert Step(ws[n - 1], ops[n - 1], ws[n - 1 + 1]);
      hide R.Apply;
      if ops[n - 1].Publish? {
        var before := Published(ops, n - 1);
        assert (before + [ops[n - 1].op])[..|before|] == before;
      } else {
        assert Published(ops, n) == Published(ops, n - 1);
      }
    }
  }

  /** The writer's repair revision is the one the protocol counts on. */
  lemma StepRepairs(w: World, op: Op, v: World)
    requires Step(w, op, v) && w.f.repair == w.p.filesRepair
    ensures v.f.repair == v.p.filesRepair && w.p.cleared <= v.p.cleared
    ensures forall c :: c in v.p.cleared && c !in w.p.cleared ==>
      op.Publish? && EndsPass(w.p, op.op) && op.op.op.outcome == 0 && c == w.p.lane.jobs[0].context && op.job.repair > w.f.repair
  {
    hide F.AllTreated, F.AllSucceed, F.Remembers, F.Prepared, L.Apply;
  }

  lemma {:induction false} RepairsAgree(ws: seq<World>, ops: seq<Op>, maxBytes: nat, n: nat)
    requires Trace(ws, ops, maxBytes) && n <= |ops|
    ensures ws[n].f.repair == ws[n].p.filesRepair
  {
    if n > 0 {
      RepairsAgree(ws, ops, maxBytes, n - 1);
      assert Step(ws[n - 1], ops[n - 1], ws[n - 1 + 1]);
      hide Step;
      StepRepairs(ws[n - 1], ops[n - 1], ws[n]);
    }
  }

  /** A pass of the run that succeeded for a repair newer than the files. */
  ghost predicate Repairs(ws: seq<World>, ops: seq<Op>, m: nat, c: nat)
    requires m < |ops| && |ws| == |ops| + 1
  {
    && ops[m].Publish? && Passes(ws[m], ops[m].op, ops[m].job, ws[m + 1]) && ops[m].op.op.outcome == 0
    && ws[m].p.lane.jobs[0].context == c && ops[m].job.repair > ws[m].f.repair
  }

  lemma {:induction false} ClearedByPass(ws: seq<World>, ops: seq<Op>, maxBytes: nat, n: nat, c: nat) returns (m: nat)
    requires Trace(ws, ops, maxBytes) && n <= |ops| && c in ws[n].p.cleared
    ensures m < n && Repairs(ws, ops, m, c)
  {
    assert n > 0;
    RepairsAgree(ws, ops, maxBytes, n - 1);
    assert Step(ws[n - 1], ops[n - 1], ws[n - 1 + 1]);
    hide F.Passed, F.Prepared, R.Apply;
    StepRepairs(ws[n - 1], ops[n - 1], ws[n]);
    if c in ws[n - 1].p.cleared {
      m := ClearedByPass(ws, ops, maxBytes, n - 1, c);
    } else {
      m := n - 1;
    }
  }

  // -------------------------------------------------------- the routes on the disk

  /** The table of a route's network lists the last owners of the network. */
  ghost predicate ShowsTable(disk: map<F.Path, F.Rows>, routes: seq<Route>, at: Route) {
    at.networkId != "" ==>
      F.Table(at.networkId) in disk && disk[F.Table(at.networkId)] == NetworkRoutes(routes, at.networkId)
  }

  /** The entry file of a route's port and network lists `r` as often as the routes
      do, if it is of that port and network, and not otherwise. */
  ghost predicate ShowsEntry(disk: map<F.Path, F.Rows>, routes: seq<Route>, at: Route, r: Route) {
    var path := F.Entry(at.logicalPort, at.networkId);
    && path in disk
    && multiset(disk[path])[r] == if r.logicalPort == at.logicalPort && r.networkId == at.networkId then multiset(routes)[r] else 0
  }

  /** The claim file of a port that some route claims lists `r` as often as the
      routes do, if it claims the port, and not otherwise. */
  ghost predicate ShowsClaim(disk: map<F.Path, F.Rows>, routes: seq<Route>, port: int, r: Route) {
    F.Claim(port) in disk && multiset(disk[F.Claim(port)])[r] == if F.ClaimsPort(r, port) then multiset(routes)[r] else 0
  }

  /** Everything a reader of the files finds are these routes. */
  ghost predicate Shows(disk: map<F.Path, F.Rows>, routes: seq<Route>) {
    && (forall at: Route :: at in routes ==> ShowsTable(disk, routes, at))
    && (forall at: Route, r: Route :: at in routes ==> ShowsEntry(disk, routes, at, r))
    && (forall at: Route, port: int, r: Route :: at in routes && F.ClaimsPort(at, port) ==> ShowsClaim(disk, routes, port, r))
  }

  lemma {:induction false} RowsHavePath(items: seq<F.Item>, n: nat, p: F.Path)
    requires n <= |items| && F.RowsTo(items, n, p) != []
    ensures exists i :: 0 <= i < n && items[i].path == p
  {
    if items[n - 1].path != p {
      RowsHavePath(items, n - 1, p);
    }
  }

  lemma ListedPath(items: seq<F.Item>, p: F.Path, r: Route)
    requires multiset(F.RowsAt(items, p))[r] > 0
    ensures p in F.PathsOf(items)
  {
    assert r in F.RowsAt(items, p);
    RowsHavePath(items, |items|, p);
  }

  lemma PassShows(w: World, op: R.Op, job: F.Job, v: World)
    requires Passes(w, op, job, v) && op.op.outcome == 0 && job.repair > w.f.repair
    ensures Shows(v.f.disk, job.routes)
  {
    assert F.Prepared(job);
    hide Passes, F.Prepared, F.PathsTo, F.RowsTo, NetworkRoutes, F.ClaimsPort, ShowsTable, ShowsEntry, ShowsClaim;
    forall at: Route | at in job.routes ensures ShowsTable(v.f.disk, job.routes, at) { TableShown(w, op, job, v, at); }
    forall at: Route, r: Route | at in job.routes ensures ShowsEntry(v.f.disk, job.routes, at, r) { EntryShown(w, op, job, v, at, r); }
    forall at: Route, port: int, r: Route | at in job.routes && F.ClaimsPort(at, port) ensures ShowsClaim(v.f.disk, job.routes, port, r) {
      ClaimShown(w, op, job, v, at, port, r);
    }
  }

  lemma TableShown(w: World, op: R.Op, job: F.Job, v: World, at: Route)
    requires Passes(w, op, job, v) && op.op.outcome == 0 && job.repair > w.f.repair && at in job.routes
    ensures ShowsTable(v.f.disk, job.routes, at)
  {
    hide Passes, F.Networks, NetworkRoutes;
    if at.networkId != "" {
      assert at.networkId in F.Networks(job.routes);
      PassHolds(w, op, job, v, F.Table(at.networkId));
    }
  }

  lemma EntryShown(w: World, op: R.Op, job: F.Job, v: World, at: Route, r: Route)
    requires Passes(w, op, job, v) && F.Prepared(job) && op.op.outcome == 0 && job.repair > w.f.repair && at in job.routes
    ensures ShowsEntry(v.f.disk, job.routes, at, r)
  {
    hide Passes, F.Prepared, F.PathsTo, F.RowsTo;
    F.FilesHoldTheirRoutes(job, at.logicalPort, at.networkId, at);
    F.FilesHoldTheirRoutes(job, at.logicalPort, at.networkId, r);
    ListedPath(job.entries, F.Entry(at.logicalPort, at.networkId), at);
    PassHolds(w, op, job, v, F.Entry(at.logicalPort, at.networkId));
  }

  lemma ClaimShown(w: World, op: R.Op, job: F.Job, v: World, at: Route, port: int, r: Route)
    requires Passes(w, op, job, v) && F.Prepared(job) && op.op.outcome == 0 && job.repair > w.f.repair
    requires at in job.routes && F.ClaimsPort(at, port)
    ensures ShowsClaim(v.f.disk, job.routes, port, r)
  {
    hide Passes, F.Prepared, F.PathsTo, F.RowsTo, F.ClaimsPort;
    F.FilesHoldTheirRoutes(job, port, "", at);
    F.FilesHoldTheirRoutes(job, port, "", r);
    ListedPath(job.claims, F.Claim(port), at);
    PassHolds(w, op, job, v, F.Claim(port));
  }

  /** Captures stay as they were taken. */
  lemma {:induction false} CapturesStay(ws: seq<World>, ops: seq<Op>, maxBytes: nat, m: nat, n: nat)
    requires Trace(ws, ops, maxBytes) && m <= n <= |ops|
    ensures ws[m].p.captures <= ws[n].p.captures
    decreases n - m
  {
    if m < n {
      CapturesStay(ws, ops, maxBytes, m, n - 1);
      assert Step(ws[n - 1], ops[n - 1], ws[n - 1 + 1]);
      hide L.Apply, Passes;
    }
  }

  /** What a committed repair means for the disk. In every run of the daemon with
      other programs touching its files, a repair request whose receipt reports
      commit was answered by a pass of that run, which succeeded and wrote a
      snapshot `c` captured no earlier than the request. Right after it the files
      showed exactly the routes the registry held when `c` was captured, and every
      file the pass was responsible for was its work or gone, whatever had been
      done to the file before. */
  lemma CommittedRepairReachedTheDisk(ws: seq<World>, ops: seq<Op>, maxBytes: nat, i: nat) returns (m: nat, c: nat)
    requires Trace(ws, ops, maxBytes)
    requires var p := ws[|ops|].p;
      && i < |p.requests| && p.requests[i].receipt < |p.lane.receipts| && p.lane.receipts[p.requests[i].receipt] == 1
      && R.Asks(p.captures, p.requests[i])
    ensures m < |ops| && Repairs(ws, ops, m, c)
    ensures var p := ws[|ops|].p;
      p.requests[i].capture <= c < |p.captures| && ops[m].job.routes == p.captures[c].routes && Shows(ws[m + 1].f.disk, p.captures[c].routes)
    ensures forall path: F.Path :: !F.DutyOf(ws[m].f, ops[m].job, path).Keep? ==> Holds(ws[m].f, ops[m].job, ws[m + 1].f, path)
  {
    assert |ws| == |ops| + 1;
    hide Trace, Passes, Shows, Holds, F.DutyOf, R.Asks;
    c := RepairCommits(ws, ops, maxBytes, i);
    m := ClearedByPass(ws, ops, maxBytes, |ops|, c);
    CapturesStay(ws, ops, maxBytes, m, |ops|);
    PassReached(ws[m], ops[m].op, ops[m].job, ws[m + 1], ws[|ops|].p.captures);
  }

  /** The snapshot that was committed for a repair request. */
  lemma RepairCommits(ws: seq<World>, ops: seq<Op>, maxBytes: nat, i: nat) returns (c: nat)
    requires Trace(ws, ops, maxBytes)
    requires var p := ws[|ops|].p;
      && i < |p.requests| && p.requests[i].receipt < |p.lane.receipts| && p.lane.receipts[p.requests[i].receipt] == 1
      && R.Asks(p.captures, p.requests[i])
    ensures c in ws[|ops|].p.cleared && ws[|ops|].p.requests[i].capture <= c
  {
    var p, rops := ws[|ops|].p, Published(ops, |ops|);
    ProtocolRuns(ws, ops, maxBytes, |ops|);
    R.RunKeeps(maxBytes, rops);
    R.CommittedRepairForgotSignatures(maxBytes, rops, i);
    hide Trace, R.Run, R.Inv;
    var k :| 0 <= k < |p.commits| && p.commits[k].receipt == p.requests[i].receipt && p.commits[k].capture in p.cleared;
    c := p.commits[k].capture;
    AnsweredBy(p, i, k);
  }

  lemma PassReached(w: World, op: R.Op, job: F.Job, v: World, captures: seq<R.Snapshot>)
    requires Passes(w, op, job, v) && op.op.outcome == 0 && job.repair > w.f.repair && w.p.captures <= captures
    ensures w.p.lane.jobs != [] && w.p.lane.jobs[0].context < |captures|
    ensures var c := w.p.lane.jobs[0].context; job.routes == captures[c].routes && Shows(v.f.disk, captures[c].routes)
    ensures forall path: F.Path :: !F.DutyOf(w.f, job, path).Keep? ==> Holds(w.f, job, v.f, path)
  {
    PassRoutes(w, op, job, v, captures);
    hide Passes, Shows, Holds, F.DutyOf;
    PassShows(w, op, job, v);
    forall path: F.Path | !F.DutyOf(w.f, job, path).Keep? ensures Holds(w.f, job, v.f, path) {
      PassHolds(w, op, job, v, path);
    }
  }

  lemma PassRoutes(w: World, op: R.Op, job: F.Job, v: World, captures: seq<R.Snapshot>)
    requires Passes(w, op, job, v) && w.p.captures <= captures
    ensures var c := w.p.lane.jobs[0].context; c < |captures| && job.routes == captures[c].routes
  {
    hide F.Passed, F.Prepared;
  }

  /** The file holds what the pass owed it, by this writer's hand. */
  ghost predicate Holds(f: F.Files, job: F.Job, g: F.Files, path: F.Path) {
    && path !in g.foreign
    && match F.DutyOf(f, job, path)
       case Write(rows) => path in g.disk && g.disk[path] == rows
       case _ => path !in g.disk
  }

  lemma PassHolds(w: World, op: R.Op, job: F.Job, v: World, path: F.Path)
    requires Passes(w, op, job, v) && op.op.outcome == 0 && job.repair > w.f.repair && !F.DutyOf(w.f, job, path).Keep?
    ensures Holds(w.f, job, v.f, path)
  {
    hide F.Passed, F.DutyOf;
    F.CommittedRepairRewroteEverything(w.f, job, v.f, path);
  }

  lemma AnsweredBy(p: R.Protocol, i: nat, k: nat)
    requires R.Inv(p) && i < |p.requests| && k < |p.commits| && p.commits[k].receipt == p.requests[i].receipt
    ensures p.requests[i].capture <= p.commits[k].capture
  {
    hide L.Inv, R.Held, R.Clean, R.Repaired, R.Captured, R.Numbered, R.Committed;
  }
}
