/** What becomes of a row: when it keeps its owner, takes another, counts a miss or
    stops, and which captures requests share. Everything is stated of the registries
    a run reaches. */
module ListenerOutcomes {
  import opened ListenerReconcile

  // ----------------------------------------------------------- who owns an endpoint

  ghost predicate SomeoneAt(listeners: seq<Listener>, same: Same, r: Row) {
    exists k :: 0 <= k < |listeners| && AtEndpoint(listeners[k], same, r)
  }

  ghost predicate PidAt(listeners: seq<Listener>, same: Same, r: Row) {
    exists k :: 0 <= k < |listeners| && AtEndpoint(listeners[k], same, r) && listeners[k].pid > 0
  }

  /** Listener `k` decides who owns the row's endpoint: the first there with a pid,
      or the last there if none has one. */
  ghost predicate Decides(listeners: seq<Listener>, same: Same, r: Row, k: int) {
    && 0 <= k < |listeners| && AtEndpoint(listeners[k], same, r)
    && if PidAt(listeners, same, r) then
         listeners[k].pid > 0 && forall j :: 0 <= j < k ==> !(AtEndpoint(listeners[j], same, r) && listeners[j].pid > 0)
       else
         forall j :: k < j < |listeners| ==> !AtEndpoint(listeners[j], same, r)
  }

  lemma {:induction false} OwnerDecides(listeners: seq<Listener>, at: nat, fallback: int, same: Same, r: Row)
    requires at <= |listeners| && -1 <= fallback < at
    requires forall j :: 0 <= j < at ==> !(AtEndpoint(listeners[j], same, r) && listeners[j].pid > 0)
    requires fallback >= 0 ==> AtEndpoint(listeners[fallback], same, r)
    requires forall j :: fallback < j < at ==> !AtEndpoint(listeners[j], same, r)
    ensures var k := EndpointOwner(listeners, at, fallback, same, r);
            (k >= 0 <==> SomeoneAt(listeners, same, r)) && (k >= 0 ==> Decides(listeners, same, r, k))
    decreases |listeners| - at
  {
    if at < |listeners| {
      if !AtEndpoint(listeners[at], same, r) {
        OwnerDecides(listeners, at + 1, fallback, same, r);
      } else if listeners[at].pid <= 0 {
        OwnerDecides(listeners, at + 1, at, same, r);
      }
    }
  }

  // -------------------------------------------------------------- one row's outcome

  /** Everything but owner, counters, running and history. */
  predicate SameRegistration(r: Row, t: Row) {
    t.key == r.key && t.external == r.external && t.host == r.host && t.port == r.port && t.revision == r.revision
  }

  predicate Keeps(r: Row, t: Row, e: Event) {
    && SameRegistration(r, t) && t.running == r.running && t.pid == r.pid && t.meta == r.meta
    && t.since == 0 && t.count == 0 && t.log == r.log + [e]
  }

  /** The owner is that of listener `k`, as far as it has a pid and a name. */
  ghost predicate Takes(r: Row, t: Row, listeners: seq<Listener>, same: Same, job: nat, k: int) {
    && Decides(listeners, same, r, k) && SameRegistration(r, t) && t.running == r.running && t.since == 0 && t.count == 0
    && t.pid == (if PidAt(listeners, same, r) then listeners[k].pid else r.pid)
    && t.meta == (if listeners[k].meta != "" then listeners[k].meta else r.meta)
    && t.log == r.log + [Adopted(job)]
  }

  predicate CountsMiss(r: Row, t: Row, job: nat, now: int) {
    && SameRegistration(r, t) && t.running == r.running && t.pid == r.pid && t.meta == r.meta
    && t.count == r.count + 1 && t.since == (if r.since == 0 then now else r.since) && t.log == r.log + [Missed(job, now)]
  }

  predicate StopsWith(r: Row, t: Row, events: seq<Event>) {
    && SameRegistration(r, t) && !t.running && t.pid == r.pid && t.meta == r.meta
    && t.since == 0 && t.count == 0 && t.log == r.log + events
  }

  /** The second miss or a later one, two seconds after the first. */
  predicate GoneForGood(r: Row, now: int) { r.count >= 1 && r.since > 0 && now - r.since >= 2 }

  lemma RowReconciled(r: Row, observed: nat, listeners: seq<Listener>, same: Same, now: int, job: nat)
    requires r.since == 0 <==> r.count == 0
    requires r.since >= 0
    ensures var t := ReconcileRow(r, observed, listeners, same, now, job);
            if !r.running || !r.external then Keeps(r, t, Cleared)
            else if r.revision > observed then t == r
            else if SeenByPid(listeners, same, r) then Keeps(r, t, Seen(job))
            else if SomeoneAt(listeners, same, r) then exists k :: Takes(r, t, listeners, same, job, k)
            else if GoneForGood(r, now) then StopsWith(r, t, [Missed(job, now), Stopped(job, now)])
            else CountsMiss(r, t, job, now)
  {
    hide EndpointOwner, SeenByPid;
    var t := ReconcileRow(r, observed, listeners, same, now, job);
    OwnerDecides(listeners, 0, -1, same, r);
    var k := EndpointOwner(listeners, 0, -1, same, r);
    hide SomeoneAt, Decides;
    if r.running && r.external && r.revision <= observed && !SeenByPid(listeners, same, r) {
      if k >= 0 {
        PidDecides(listeners, same, r, k);
        assert Takes(r, t, listeners, same, job, k);
      } else {
        assert r.log + [Missed(job, now)] + [Stopped(job, now)] == r.log + [Missed(job, now), Stopped(job, now)];
      }
    }
  }

  lemma PidDecides(listeners: seq<Listener>, same: Same, r: Row, k: int)
    requires Decides(listeners, same, r, k)
    ensures listeners[k].pid > 0 <==> PidAt(listeners, same, r)
  {}

  lemma RowReleased(r: Row, observed: nat, listeners: seq<Listener>, same: Same, scoped: bool, now: int, job: nat)
    ensures var t := ReleaseRow(r, observed, listeners, same, scoped, now, job);
            if !r.running || r.revision > observed then t == r
            else if SomeoneAt(listeners, same, r) then exists k :: Takes(r, t, listeners, same, job, k)
            else if scoped then CountsMiss(r, t, job, now)
            else StopsWith(r, t, [Released(job)])
  {
    hide EndpointOwner;
    var t := ReleaseRow(r, observed, listeners, same, scoped, now, job);
    OwnerDecides(listeners, 0, -1, same, r);
    var k := EndpointOwner(listeners, 0, -1, same, r);
    hide SomeoneAt, Decides;
    if r.running && r.revision <= observed && k >= 0 {
      PidDecides(listeners, same, r, k);
      assert Takes(r, t, listeners, same, job, k);
    }
  }

  // ----------------------------------------------------------------------- over runs

  lemma RunRow(same: Same, ops: seq<Op>, i: nat)
    requires i < |Run(same, ops).rows|
    ensures var r := Run(same, ops).rows[i]; (r.since == 0 <==> r.count == 0) && r.since >= 0
  {
    RunKeeps(same, ops);
    var s := Run(same, ops);
    hide Run;
    assert RowInv(s.rows[i], s.jobs, s.revision, s.tick);
  }

  /** One reconciliation, in every run, row by row. A row its capture is fenced off
      from does not change. Otherwise an external running row whose own process
      listens at its endpoint keeps everything and counts no miss; one where others
      listen takes the owner that decides; one where nobody listens counts a miss,
      and stops exactly if it is the second or later and the first is two seconds
      old. */
  lemma ReconciliationDecides(same: Same, ops: seq<Op>, op: Op, i: nat)
    requires op.Reconcile? && Enabled(Run(same, ops), op) && i < |Run(same, ops).rows|
    ensures var s := Run(same, ops);
            var r, u := s.rows[i], Apply(s, same, op);
            var job := Capture(s, op.context, op.command);
            && |u.rows| == |s.rows| && job >= 0
            && var t := u.rows[i];
            if !r.running || !r.external then Keeps(r, t, Cleared)
            else if r.revision > s.jobs[job].watermark then t == r
            else if SeenByPid(op.listeners, same, r) then Keeps(r, t, Seen(job))
            else if SomeoneAt(op.listeners, same, r) then exists k :: Takes(r, t, op.listeners, same, job, k)
            else if GoneForGood(r, op.now) then StopsWith(r, t, [Missed(job, op.now), Stopped(job, op.now)])
            else CountsMiss(r, t, job, op.now)
  {
    RunRow(same, ops, i);
    var s := Run(same, ops);
    hide Run, ReconcileRow, Capture, SeenByPid, SomeoneAt;
    var job := Capture(s, op.context, op.command);
    RowReconciled(s.rows[i], s.jobs[job].watermark, op.listeners, same, op.now, job);
  }

  /** One release, in every run: the named row only, and it stops exactly if its
      capture speaks about it, nobody listens at its endpoint and the route is not
      scoped. */
  lemma ReleaseDecides(same: Same, ops: seq<Op>, op: Op)
    requires op.Release? && Enabled(Run(same, ops), op)
    ensures var s := Run(same, ops);
            var r, u := s.rows[op.at], Apply(s, same, op);
            var job := Capture(s, op.context, op.command);
            && job >= 0 && |u.rows| == |s.rows| && u.rows == s.rows[op.at := u.rows[op.at]]
            && var t := u.rows[op.at];
            if !r.running || r.revision > s.jobs[job].watermark then t == r
            else if SomeoneAt(op.listeners, same, r) then exists k :: Takes(r, t, op.listeners, same, job, k)
            else if op.scoped then CountsMiss(r, t, job, op.now)
            else StopsWith(r, t, [Released(job)])
  {
    var s := Run(same, ops);
    hide Run, ReleaseRow, Capture, SomeoneAt;
    var job := Capture(s, op.context, op.command);
    RowReleased(s.rows[op.at], s.jobs[job].watermark, op.listeners, same, op.scoped, op.now, job);
  }

  lemma {:induction false} FindsFirst(rows: seq<Row>, at: nat, key: nat)
    requires at <= |rows|
    ensures var i := FindRow(rows, at, key);
            && (i >= 0 ==> at <= i && rows[i].running && rows[i].key == key)
            && (forall j :: at <= j < (if i < 0 then |rows| else i) ==> !(rows[j].running && rows[j].key == key))
    decreases |rows| - at
  {
    if at < |rows| && !(rows[at].running && rows[at].key == key) {
      FindsFirst(rows, at + 1, key);
    }
  }

  /** One report, in every run: the first running row of its key comes to carry what
      it reports, losing its misses only if the owner changed; without such a row a
      new one is appended. No other row changes. */
  lemma ReportIsCarried(same: Same, ops: seq<Op>, op: Op)
    requires op.Register?
    ensures var s := Run(same, ops);
            var u, i := Apply(s, same, op), FindRow(s.rows, 0, op.key);
            if exists j :: 0 <= j < |s.rows| && s.rows[j].running && s.rows[j].key == op.key then
              && 0 <= i < |s.rows| == |u.rows| && s.rows[i].running && s.rows[i].key == op.key
              && (forall j :: 0 <= j < i ==> !(s.rows[j].running && s.rows[j].key == op.key))
              && u.rows == s.rows[i := u.rows[i]]
              && var r, t := s.rows[i], u.rows[i];
              && t.running && t.pid == op.pid && t.host == op.host && t.meta == op.meta && t.key == r.key && t.port == r.port
              && t.external == r.external
              && (r.pid == op.pid && r.host == op.host ==> t.count == r.count && t.since == r.since)
              && (r.pid != op.pid || r.host != op.host ==> t.count == 0 && t.since == 0)
            else
              u.rows == s.rows + [Row(op.key, true, op.external, op.pid, op.host, op.port, op.meta, 0, 0, s.revision + 1, [Registered(s.tick)])]
  {
    var s := Run(same, ops);
    hide Run, FindRow;
    FindsFirst(s.rows, 0, op.key);
  }

  // ------------------------------------------------------------- running and stopping

  predicate Ends(e: Event) { e.Stopped? || e.Released? || e.Ended? }

  ghost predicate NeverEnded(log: seq<Event>) { forall e :: 0 <= e < |log| ==> !Ends(log[e]) }

  lemma EndedPush(log: seq<Event>, e: Event)
    ensures NeverEnded(log + [e]) <==> NeverEnded(log) && !Ends(e)
  {
    if NeverEnded(log + [e]) {
      assert (log + [e])[|log|] == e;
      forall k | 0 <= k < |log| ensures !Ends(log[k]) {
        assert (log + [e])[k] == log[k];
      }
    }
  }

  predicate RunningRow(r: Row, never: bool) { r.running <==> never }

  lemma ReconciledRuns(r: Row, observed: nat, listeners: seq<Listener>, same: Same, now: int, job: nat)
    requires RunningRow(r, NeverEnded(r.log))
    ensures var t := ReconcileRow(r, observed, listeners, same, now, job); RunningRow(t, NeverEnded(t.log))
  {
    hide NeverEnded, EndpointOwner, SeenByPid;
    EndedPush(r.log, Cleared);
    EndedPush(r.log, Seen(job));
    EndedPush(r.log, Adopted(job));
    EndedPush(r.log, Missed(job, now));
    EndedPush(r.log + [Missed(job, now)], Stopped(job, now));
  }

  lemma ReleasedRuns(r: Row, observed: nat, listeners: seq<Listener>, same: Same, scoped: bool, now: int, job: nat)
    requires RunningRow(r, NeverEnded(r.log))
    ensures var t := ReleaseRow(r, observed, listeners, same, scoped, now, job); RunningRow(t, NeverEnded(t.log))
  {
    hide NeverEnded, EndpointOwner;
    EndedPush(r.log, Adopted(job));
    EndedPush(r.log, Missed(job, now));
    EndedPush(r.log, Released(job));
  }

  lemma RegisteredRuns(r: Row, pid: int, host: string, meta: string, revision: nat, tick: nat)
    requires RunningRow(r, NeverEnded(r.log))
    ensures var t := RegisterRow(r, pid, host, meta, revision, tick); RunningRow(t, NeverEnded(t.log))
  {
    hide NeverEnded;
    EndedPush(r.log, Registered(tick));
    EndedPush(r.log + [Registered(tick)], OwnerChanged);
  }

  /** What an operation does to a row's running and history. */
  lemma RowRuns(s: Registry, same: Same, op: Op, i: nat)
    requires Enabled(s, op) && i < |s.rows| && RunningRow(s.rows[i], NeverEnded(s.rows[i].log))
    ensures var u := Apply(s, same, op); i < |u.rows| && RunningRow(u.rows[i], NeverEnded(u.rows[i].log))
  {
    hide NeverEnded, FindRow, Capture, Require, DropReferences, ReconcileRow, ReleaseRow, RegisterRow;
    var r := s.rows[i];
    match op {
      case Prepare(_, _, _) => PrepareRows(s, op);
      case Reconcile(k, command, listeners, now) =>
        var job := Capture(s, k, command);
        ReconciledRuns(r, s.jobs[job].watermark, listeners, same, now, job);
      case Release(k, command, _, listeners, scoped, now) =>
        var job := Capture(s, k, command);
        ReleasedRuns(r, s.jobs[job].watermark, listeners, same, scoped, now, job);
      case Register(_, _, pid, host, _, meta) => RegisteredRuns(r, pid, host, meta, s.revision + 1, s.tick);
      case StopRow(_) => EndedPush(r.log, Ended);
      case _ =>
    }
  }

  lemma NewRowRuns(s: Registry, same: Same, op: Op, i: nat)
    requires Enabled(s, op) && |s.rows| <= i < |Apply(s, same, op).rows|
    ensures var r := Apply(s, same, op).rows[i]; r.running && NeverEnded(r.log)
  {
    hide FindRow, Capture, Require, DropReferences, RegisterRow, ReconcileRow, ReleaseRow;
    PrepareRows(s, op);
  }

  /** In every run a row is running exactly if no reconciliation, release or explicit
      stop ended it; every other operation leaves it running. */
  lemma {:induction false} RunsUntilEnded(same: Same, ops: seq<Op>, i: nat)
    requires i < |Run(same, ops).rows|
    ensures var r := Run(same, ops).rows[i]; r.running <==> forall e :: 0 <= e < |r.log| ==> !Ends(r.log[e])
  {
    if ops != [] {
      hide NeverEnded, RunningRow;
      var shorter, op := ops[..|ops| - 1], ops[|ops| - 1];
      var s := Run(same, shorter);
      if !Enabled(s, op) {
        RunsUntilEnded(same, shorter, i);
      } else if i < |s.rows| {
        RunsUntilEnded(same, shorter, i);
        RunningBy(s.rows[i]);
        hide Run, Apply;
        RowRuns(s, same, op, i);
        RunningIs(Apply(s, same, op).rows[i]);
      } else {
        hide Run, Apply;
        NewRowRuns(s, same, op, i);
        NeverIs(Apply(s, same, op).rows[i].log);
      }
    }
  }

  lemma RunningBy(r: Row)
    requires r.running <==> forall e :: 0 <= e < |r.log| ==> !Ends(r.log[e])
    ensures RunningRow(r, NeverEnded(r.log))
  {}

  lemma RunningIs(r: Row)
    requires RunningRow(r, NeverEnded(r.log))
    ensures r.running <==> forall e :: 0 <= e < |r.log| ==> !Ends(r.log[e])
  {}

  lemma NeverIs(log: seq<Event>)
    requires NeverEnded(log)
    ensures forall e :: 0 <= e < |log| ==> !Ends(log[e])
  {}

  // ---------------------------------------------------------------- shared captures

  /** How many holds the requests have on a capture. */
  function Holds(contexts: seq<Context>, id: nat): nat {
    if contexts == [] then 0
    else Holds(contexts[..|contexts| - 1], id) + multiset(contexts[|contexts| - 1].jobs)[id]
  }

  lemma {:induction false} HoldsUpdate(contexts: seq<Context>, k: nat, c: Context, id: nat)
    requires k < |contexts|
    ensures Holds(contexts[k := c], id) + multiset(contexts[k].jobs)[id] == Holds(contexts, id) + multiset(c.jobs)[id]
  {
    var n := |contexts| - 1;
    if k < n {
      HoldsUpdate(contexts[..n], k, c, id);
      assert contexts[k := c][..n] == contexts[..n][k := c];
    } else {
      assert contexts[k := c][..n] == contexts[..n];
    }
  }

  lemma HoldsPush(contexts: seq<Context>, c: Context, id: nat)
    ensures Holds(contexts + [c], id) == Holds(contexts, id) + multiset(c.jobs)[id]
  {
    assert (contexts + [c])[..|contexts|] == contexts;
  }

  /** The counter of each capture is the holds on it; a capture nobody holds was
      abandoned. */
  ghost predicate Counted(s: Registry) {
    && (forall id :: 0 <= id < |s.jobs| ==> JobCounted(s, id))
    && (forall id: nat :: id >= |s.jobs| ==> Holds(s.contexts, id) == 0)
  }

  ghost predicate JobCounted(s: Registry, id: nat)
    requires id < |s.jobs|
  {
    s.jobs[id].references == Holds(s.contexts, id) && (s.jobs[id].references == 0 ==> s.jobs[id].failed)
  }

  lemma {:induction false} Dropped(jobs: seq<Job>, ids: seq<nat>, id: nat)
    requires id < |jobs| && jobs[id].references >= multiset(ids)[id]
    ensures var j, d := jobs[id], DropReferences(jobs, ids)[id];
            && d.references == j.references - multiset(ids)[id]
            && d == j.(references := d.references, failed := d.failed)
            && (d.failed <==> j.failed || (multiset(ids)[id] > 0 && d.references == 0))
  {
    if ids != [] {
      var n := |ids| - 1;
      assert ids == ids[..n] + [ids[n]];
      assert multiset(ids)[id] == multiset(ids[..n])[id] + if ids[n] == id then 1 else 0;
      Dropped(jobs, ids[..n], id);
    }
  }

  /** Letting go of everything a request holds. */
  lemma LetGo(s: Registry, k: nat, t: Registry)
    requires Counted(s) && k < |s.contexts| && t.jobs == DropReferences(s.jobs, s.contexts[k].jobs)
    requires exists c: Context :: c.jobs == [] && t.contexts == s.contexts[k := c]
    ensures Counted(t)
  {
    hide DropReferences, Holds;
    var c: Context :| c.jobs == [] && t.contexts == s.contexts[k := c];
    forall id | 0 <= id < |s.jobs| ensures JobCounted(t, id) {
      assert JobCounted(s, id);
      HoldsUpdate(s.contexts, k, c, id);
      HoldsAtLeast(s.contexts, k, id);
      Dropped(s.jobs, s.contexts[k].jobs, id);
    }
    forall id: nat | id >= |s.jobs| ensures Holds(t.contexts, id) == 0 {
      HoldsUpdate(s.contexts, k, c, id);
    }
  }

  lemma {:induction false} HoldsAtLeast(contexts: seq<Context>, k: nat, id: nat)
    requires k < |contexts|
    ensures multiset(contexts[k].jobs)[id] <= Holds(contexts, id)
  {
    if k < |contexts| - 1 {
      HoldsAtLeast(contexts[..|contexts| - 1], k, id);
    }
  }

  lemma RefreshedCounted(s: Registry, k: nat)
    requires Counted(s) && k < |s.contexts|
    ensures Counted(Refreshed(s, k))
  {
    hide DropReferences, Holds, Counted;
    var c, t := s.contexts[k], Refreshed(s, k);
    if c.generation == s.generation {
      SameHolds(s, t, k);
    } else {
      var empty := Context([], s.generation, s.revision);
      assert t.contexts == s.contexts[k := empty];
      LetGo(s, k, t);
    }
  }

  lemma SameHolds(s: Registry, t: Registry, k: nat)
    requires Counted(s) && k < |s.contexts| && t.jobs == s.jobs
    requires exists c: Context :: c.jobs == s.contexts[k].jobs && t.contexts == s.contexts[k := c]
    ensures Counted(t)
  {
    var c: Context :| c.jobs == s.contexts[k].jobs && t.contexts == s.contexts[k := c];
    hide Holds;
    forall id: nat ensures Holds(t.contexts, id) == Holds(s.contexts, id) {
      HoldsUpdate(s.contexts, k, c, id);
    }
    forall id | 0 <= id < |t.jobs| ensures JobCounted(t, id) {
      assert JobCounted(s, id);
    }
  }

  /** One more hold on capture `id`, which may be new. */
  lemma TakeHold(s: Registry, t: Registry, k: nat, id: nat)
    requires Counted(s) && k < |s.contexts| && id <= |s.jobs|
    requires t.contexts == s.contexts[k := s.contexts[k].(jobs := s.contexts[k].jobs + [id])]
    requires if id < |s.jobs| then t.jobs == s.jobs[id := s.jobs[id].(references := s.jobs[id].references + 1)]
             else |t.jobs| == |s.jobs| + 1 && t.jobs[..|s.jobs|] == s.jobs && t.jobs[id].references == 1
    ensures Counted(t)
  {
    hide Holds;
    var c := s.contexts[k].(jobs := s.contexts[k].jobs + [id]);
    forall x: nat ensures Holds(t.contexts, x) == Holds(s.contexts, x) + if x == id then 1 else 0 {
      HoldsUpdate(s.contexts, k, c, x);
      assert multiset(c.jobs)[x] == multiset(s.contexts[k].jobs)[x] + if x == id then 1 else 0;
    }
    forall x | 0 <= x < |t.jobs| ensures JobCounted(t, x) {
      if x < |s.jobs| {
        assert JobCounted(s, x);
        assert id == |s.jobs| ==> t.jobs[x] == t.jobs[..|s.jobs|][x];
      }
    }
  }

  lemma RequiredCounted(s: Registry, k: nat, command: nat, refused: bool)
    requires Counted(s) && k < |s.contexts|
    ensures Counted(Require(s, k, command, refused))
  {
    hide Holds, Counted, Holding, Sharing;
    var c, t := s.contexts[k], Require(s, k, command, refused);
    if Holding(s.jobs, c.jobs, 0, command) < 0 && !refused {
      var shared := Sharing(s.jobs, |s.jobs|, command, c.generation);
      TakeHold(s, t, k, if shared >= 0 then shared else |s.jobs|);
    }
  }

  lemma StepCounted(s: Registry, same: Same, op: Op)
    requires Counted(s) && Enabled(s, op)
    ensures Counted(Apply(s, same, op))
  {
    hide Holds, Counted, Require, Refreshed, DropReferences, Capture, FindRow, ReconcileRows, ReleaseRow, RegisterRow;
    var t := Step(s, same, op);
    var u := Apply(s, same, op);
    match op {
      case NewContext => PushCounted(s, t);
      case FreeContext(k) =>
        var empty := s.contexts[k].(jobs := []);
        assert t.contexts == s.contexts[k := empty];
        LetGo(s, k, t);
      case Prepare(k, command, refused) =>
        RefreshedCounted(s, k);
        RefreshedContexts(s, k);
        RequiredCounted(Refreshed(s, k), k, command, refused);
      case Complete(j, ok) => CompletedCounted(s, t, j);
      case _ => CountedFor(s, t);
    }
    CountedFor(t, u);
  }

  lemma RefreshedContexts(s: Registry, k: nat)
    requires k < |s.contexts|
    ensures |Refreshed(s, k).contexts| == |s.contexts|
  {}

  lemma CountedFor(s: Registry, t: Registry)
    requires Counted(s) && t.jobs == s.jobs && t.contexts == s.contexts
    ensures Counted(t)
  {
    forall id | 0 <= id < |t.jobs| ensures JobCounted(t, id) {
      assert JobCounted(s, id);
    }
  }

  lemma PushCounted(s: Registry, t: Registry)
    requires Counted(s) && t.jobs == s.jobs && t.contexts == s.contexts + [Context([], 0, 0)]
    ensures Counted(t)
  {
    hide Holds;
    forall id: nat ensures Holds(t.contexts, id) == Holds(s.contexts, id) {
      HoldsPush(s.contexts, Context([], 0, 0), id);
    }
    forall id | 0 <= id < |t.jobs| ensures JobCounted(t, id) {
      assert JobCounted(s, id);
    }
  }

  lemma CompletedCounted(s: Registry, t: Registry, j: nat)
    requires Counted(s) && j < |s.jobs| == |t.jobs| && t.contexts == s.contexts
    requires t.jobs == s.jobs[j := t.jobs[j]] && t.jobs[j].references == s.jobs[j].references && (s.jobs[j].failed ==> t.jobs[j].failed)
    ensures Counted(t)
  {
    forall id | 0 <= id < |t.jobs| ensures JobCounted(t, id) {
      assert JobCounted(s, id);
    }
  }

  lemma {:induction false} RunCounted(same: Same, ops: seq<Op>)
    ensures Counted(Run(same, ops))
  {
    if ops != [] {
      hide Counted, Apply;
      var shorter := ops[..|ops| - 1];
      RunCounted(same, shorter);
      var s, op := Run(same, shorter), ops[|ops| - 1];
      if Enabled(s, op) {
        StepCounted(s, same, op);
      } else {
        Ignored(s, same, op);
      }
    }
  }

  lemma Ignored(s: Registry, same: Same, op: Op)
    requires !Enabled(s, op)
    ensures Apply(s, same, op) == s
  {}

  /** In every run a capture's counter is the number of holds requests have on it,
      and one that nobody holds any more has been abandoned. */
  lemma UnheldCapturesAreAbandoned(same: Same, ops: seq<Op>, id: nat)
    requires id < |Run(same, ops).jobs|
    ensures var s := Run(same, ops);
            s.jobs[id].references == Holds(s.contexts, id) && (Holds(s.contexts, id) == 0 ==> s.jobs[id].failed)
  {
    RunCounted(same, ops);
    hide Run, Holds;
    assert JobCounted(Run(same, ops), id);
  }

  lemma {:induction false} HoldsFirst(jobs: seq<Job>, ids: seq<nat>, at: nat, command: nat)
    requires at <= |ids|
    ensures var id := Holding(jobs, ids, at, command);
            id < 0 <==> forall i :: at <= i < |ids| ==> !(ids[i] < |jobs| && jobs[ids[i]].command == command)
    decreases |ids| - at
  {
    if at < |ids| {
      HoldsFirst(jobs, ids, at + 1, command);
    }
  }

  lemma {:induction false} SharesNewest(jobs: seq<Job>, n: nat, command: nat, generation: nat)
    requires n <= |jobs|
    ensures var id := Sharing(jobs, n, command, generation);
            forall j :: 0 <= j < n && j > id ==> !Shareable(jobs[j], command, generation)
  {
    if n > 0 {
      SharesNewest(jobs, n - 1, command, generation);
    }
  }

  /** A request that is not refused comes out holding a capture of its command. If it
      had none, this is the newest unfinished one of the current generation, or a new
      one with the current registration revision if there is none to share. */
  lemma PreparedRequestHolds(same: Same, ops: seq<Op>, k: nat, command: nat)
    requires k < |Run(same, ops).contexts|
    ensures var s := Run(same, ops);
            var u := Apply(s, same, Prepare(k, command, false));
            var kept := if s.contexts[k].generation == s.generation then s.contexts[k].jobs else [];
            && |u.contexts| == |s.contexts| && u.contexts[k].generation == s.generation
            && (u.contexts[k].jobs == kept ==>
                  exists i :: 0 <= i < |kept| && kept[i] < |u.jobs| && u.jobs[kept[i]].command == command)
            && (u.contexts[k].jobs != kept ==>
                  exists id: nat ::
                    && id < |u.jobs| && u.contexts[k].jobs == kept + [id]
                    && u.jobs[id].command == command && u.jobs[id].generation == s.generation
                    && !u.jobs[id].done && !u.jobs[id].failed
                    && (id == |s.jobs| ==>
                          && u.jobs[id] == Job(command, s.generation, s.revision, 1, false, false, s.tick)
                          && forall j :: 0 <= j < |s.jobs| ==> !Shareable(u.jobs[j], command, s.generation))
                    && (id < |s.jobs| ==>
                          && |u.jobs| == |s.jobs| && u.jobs[id].references > 1
                          && forall j :: id < j < |s.jobs| ==> !Shareable(u.jobs[j], command, s.generation)))
  {
    var s := Run(same, ops);
    hide Run, Holding, Sharing, DropReferences;
    var f := Refreshed(s, k);
    var c := f.contexts[k];
    HoldsFirst(f.jobs, c.jobs, 0, command);
    SharesNewest(f.jobs, |f.jobs|, command, c.generation);
    var u := Apply(s, same, Prepare(k, command, false));
    var shared := Sharing(f.jobs, |f.jobs|, command, c.generation);
    if Holding(f.jobs, c.jobs, 0, command) < 0 {
      var id: nat := if shared >= 0 then shared else |s.jobs|;
      assert u.contexts[k].jobs == c.jobs + [id];
      assert |u.contexts[k].jobs| == |c.jobs| + 1;
    }
  }

  /** How often the captures so far were declared out of date. */
  function Invalidations(ops: seq<Op>): nat {
    if ops == [] then 0 else Invalidations(ops[..|ops| - 1]) + if ops[|ops| - 1].Invalidate? then 1 else 0
  }

  lemma {:induction false} GenerationCountsInvalidations(same: Same, ops: seq<Op>)
    ensures Run(same, ops).generation == Invalidations(ops)
  {
    if ops != [] {
      GenerationCountsInvalidations(same, ops[..|ops| - 1]);
      hide Capture, FindRow, DropReferences, Holding, Sharing, ReconcileRows, ReleaseRow, RegisterRow;
    }
  }

  /** What a request holds is of the request's own generation. */
  ghost predicate OneGeneration(s: Registry) {
    forall k, i :: 0 <= k < |s.contexts| && 0 <= i < |s.contexts[k].jobs| ==> OfGeneration(s.jobs, s.contexts[k].jobs[i], s.contexts[k].generation)
  }

  predicate OfGeneration(jobs: seq<Job>, id: nat, generation: nat) { id < |jobs| && jobs[id].generation == generation }

  ghost predicate SameGenerations(a: seq<Job>, b: seq<Job>) {
    |a| <= |b| && forall j :: 0 <= j < |a| ==> b[j].generation == a[j].generation
  }

  lemma {:induction false} DropGenerations(jobs: seq<Job>, ids: seq<nat>)
    ensures SameGenerations(jobs, DropReferences(jobs, ids))
  {
    if ids != [] {
      DropGenerations(jobs, ids[..|ids| - 1]);
    }
  }

  /** A step that changes no generation and no hold but those of request `k`. */
  lemma GenerationsKept(s: Registry, t: Registry, k: nat)
    requires OneGeneration(s) && SameGenerations(s.jobs, t.jobs) && |s.contexts| == |t.contexts|
    requires forall j :: 0 <= j < |s.contexts| && j != k ==> t.contexts[j] == s.contexts[j]
    requires k < |t.contexts| ==> forall i :: 0 <= i < |t.contexts[k].jobs| ==> OfGeneration(t.jobs, t.contexts[k].jobs[i], t.contexts[k].generation)
    ensures OneGeneration(t)
  {
    forall j, i | 0 <= j < |t.contexts| && 0 <= i < |t.contexts[j].jobs|
      ensures OfGeneration(t.jobs, t.contexts[j].jobs[i], t.contexts[j].generation)
    {
      if j != k {
        assert OfGeneration(s.jobs, s.contexts[j].jobs[i], s.contexts[j].generation);
      }
    }
  }

  lemma RefreshedGeneration(s: Registry, k: nat)
    requires OneGeneration(s) && k < |s.contexts|
    ensures OneGeneration(Refreshed(s, k)) && |Refreshed(s, k).contexts| == |s.contexts|
  {
    hide DropReferences;
    DropGenerations(s.jobs, s.contexts[k].jobs);
    GenerationsKept(s, Refreshed(s, k), k);
  }

  lemma RequiredGeneration(s: Registry, k: nat, command: nat, refused: bool)
    requires OneGeneration(s) && k < |s.contexts|
    ensures OneGeneration(Require(s, k, command, refused))
  {
    hide Holding, Sharing;
    var t := Require(s, k, command, refused);
    if Holding(s.jobs, s.contexts[k].jobs, 0, command) < 0 && !refused {
      forall i | 0 <= i < |t.contexts[k].jobs| ensures OfGeneration(t.jobs, t.contexts[k].jobs[i], t.contexts[k].generation) {
        if i < |s.contexts[k].jobs| {
          assert OfGeneration(s.jobs, s.contexts[k].jobs[i], s.contexts[k].generation);
        }
      }
      GenerationsKept(s, t, k);
    }
  }

  lemma StepGeneration(s: Registry, same: Same, op: Op)
    requires OneGeneration(s) && Enabled(s, op)
    ensures OneGeneration(Apply(s, same, op))
  {
    var t := Step(s, same, op);
    hide Capture, Require, Refreshed, DropReferences, FindRow, ReconcileRows, ReleaseRow, RegisterRow;
    match op {
      case Prepare(k, command, refused) =>
        RefreshedGeneration(s, k);
        RequiredGeneration(Refreshed(s, k), k, command, refused);
        GenerationsSame(t, Apply(s, same, op));
      case FreeContext(k) =>
        DropGenerations(s.jobs, s.contexts[k].jobs);
        GenerationsKept(s, Apply(s, same, op), k);
      case _ =>
    }
  }

  lemma GenerationsSame(s: Registry, t: Registry)
    requires OneGeneration(s) && t.jobs == s.jobs && t.contexts == s.contexts
    ensures OneGeneration(t)
  {}

  /** In every run each capture a request holds is of the generation the request
      last saw, so that a preparation after an invalidation starts over. */
  lemma {:induction false} HeldCapturesAreCurrent(same: Same, ops: seq<Op>)
    ensures OneGeneration(Run(same, ops))
  {
    if ops != [] {
      hide OneGeneration, Apply;
      var shorter := ops[..|ops| - 1];
      HeldCapturesAreCurrent(same, shorter);
      var s, op := Run(same, shorter), ops[|ops| - 1];
      if Enabled(s, op) {
        StepGeneration(s, same, op);
      } else {
        Ignored(s, same, op);
      }
    }
  }

  /** The capture a request is served from is one it holds, of its command, finished
      and not failed; a capture completes as failed if it did not work or had been
      abandoned. */
  lemma ServedCaptureIsGood(s: Registry, same: Same, k: nat, command: nat, j: nat, ok: bool)
    ensures var id := Capture(s, k, command);
            id >= 0 ==> k < |s.contexts| && id in s.contexts[k].jobs && s.jobs[id].command == command && s.jobs[id].done && !s.jobs[id].failed
    ensures Enabled(s, Complete(j, ok)) ==>
              var t := Apply(s, same, Complete(j, ok));
              && t.jobs == s.jobs[j := s.jobs[j].(done := true, failed := t.jobs[j].failed)]
              && (t.jobs[j].failed <==> s.jobs[j].failed || !ok)
  {
    hide Holding;
  }
}
