/** What a pass does to one path, in every run of passes: which paths it has any
    business with, what a newer writer's file is protected from, and when a pass
    succeeds, writes or skips. */
module FileOutcomes {
  import opened Common
  import opened NetworkSnapshot
  import opened RouteFiles

  // ------------------------------------------------------------ whose business

  /** Some route of the snapshot calls for a file at `p`. */
  ghost predicate CalledFor(routes: seq<Route>, p: Path) {
    match p
    case Table(n) => n != "" && exists i :: 0 <= i < |routes| && routes[i].networkId == n
    case Entry(port, scope) => exists i :: 0 <= i < |routes| && routes[i].logicalPort == port && routes[i].networkId == scope
    case Claim(port) => exists i :: 0 <= i < |routes| && ClaimsPort(routes[i], port)
  }

  /** The writer remembers having written `p`. */
  predicate Remembered(f: Files, p: Path) {
    match p
    case Table(n) => n in f.networks
    case Entry(_, _) => p in f.entries
    case Claim(_) => p in f.claims
  }

  lemma InMultiset<T>(s: seq<T>, x: T)
    ensures multiset(s)[x] > 0 <==> x in s
  {}

  lemma PathListed(items: seq<Item>, p: Path)
    ensures p in PathsOf(items) <==> exists r :: Item(p, r) in items
  {
    if p in PathsOf(items) {
      var i :| 0 <= i < |items| && items[i].path == p;
      assert Item(p, items[i].route) == items[i];
    }
    if r :| Item(p, r) in items {
      var i :| 0 <= i < |items| && items[i] == Item(p, r);
      assert items[i].path == p;
    }
  }

  lemma EntryCalledFor(job: Job, p: Path)
    requires Prepared(job) && p.Entry?
    ensures p in PathsOf(job.entries) <==> CalledFor(job.routes, p)
  {
    hide PathsTo, Grouped, EntryItems;
    PathListed(job.entries, p);
    forall r ensures Item(p, r) in job.entries <==> EntryItem(r).path == p && r in job.routes {
      EntryItemsCount(job.routes, p, r);
      InMultiset(job.entries, Item(p, r));
      InMultiset(job.routes, r);
    }
    if r :| Item(p, r) in job.entries {
      var i :| 0 <= i < |job.routes| && job.routes[i] == r;
    }
    if CalledFor(job.routes, p) {
      var i :| 0 <= i < |job.routes| && job.routes[i].logicalPort == p.port && job.routes[i].networkId == p.scope;
      assert Item(p, job.routes[i]) in job.entries;
    }
  }

  lemma ClaimCalledFor(job: Job, p: Path)
    requires Prepared(job) && p.Claim?
    ensures p in PathsOf(job.claims) <==> CalledFor(job.routes, p)
  {
    hide PathsTo, Grouped, ClaimItems;
    PathListed(job.claims, p);
    forall r ensures Item(p, r) in job.claims <==> ClaimsPort(r, p.at) && r in job.routes {
      ClaimItemsCount(job.routes, p.at, r);
      InMultiset(job.claims, Item(p, r));
      InMultiset(job.routes, r);
    }
    if r :| Item(p, r) in job.claims {
      var i :| 0 <= i < |job.routes| && job.routes[i] == r;
    }
    if CalledFor(job.routes, p) {
      var i :| 0 <= i < |job.routes| && ClaimsPort(job.routes[i], p.at);
      assert Item(p, job.routes[i]) in job.claims;
    }
  }

  /** A path is written if the snapshot calls for it, emptied or removed if only the
      writer remembers it, and otherwise none of the pass's business. */
  lemma DutyMeans(f: Files, job: Job, p: Path)
    requires Prepared(job)
    ensures CalledFor(job.routes, p) ==> DutyOf(f, job, p).Write?
    ensures !CalledFor(job.routes, p) && Remembered(f, p) ==> DutyOf(f, job, p) == if p.Table? then Write([]) else Remove
    ensures !CalledFor(job.routes, p) && !Remembered(f, p) ==> DutyOf(f, job, p) == Keep
  {
    hide PathsTo, RowsTo, Grouped, EntryItems, ClaimItems, NetworkRoutes;
    match p {
      case Table(_) =>
      case Entry(_, _) => EntryCalledFor(job, p);
      case Claim(_) => ClaimCalledFor(job, p);
    }
  }

  // ----------------------------------------------------------------- over runs

  lemma PathTreated(fs: seq<Files>, ops: seq<Op>, i: nat, p: Path)
    requires Trace(fs, ops) && i < |ops| && ops[i].Pass? && !ops[i].job.superseded
    ensures var f, g, job := fs[i], fs[i + 1], ops[i].job;
            var start := Begin(f, job);
            && Prepared(job) && DutyOf(start, job, p) == DutyOf(f, job, p)
            && View(g, p) == Treat(View(start, p), DutyOf(f, job, p), job.os(p))
            && (ops[i].ok ==> Succeeds(View(start, p), DutyOf(f, job, p), job.os(p)))
  {
    hide Networks, PathsTo, RowsTo, NetworkRoutes, Prepared;
    assert Step(fs[i], ops[i], fs[i + 1]);
  }

  /** A file of a newer writer is neither written nor deleted by any pass, and a pass
      that had business with it fails. */
  lemma NewerWriterIsLeftAlone(fs: seq<Files>, ops: seq<Op>, i: nat, p: Path)
    requires Trace(fs, ops) && i < |ops| && ops[i].Pass? && ops[i].job.os(p).newer
    ensures var f, g, job := fs[i], fs[i + 1], ops[i].job;
            && Lookup(g.disk, p) == Lookup(f.disk, p) && (p in g.foreign <==> p in f.foreign)
            && (CalledFor(job.routes, p) || Remembered(f, p) ==> !ops[i].ok)
  {
    var f, job := fs[i], ops[i].job;
    if job.superseded {
      assert Step(f, ops[i], fs[i + 1]);
    } else {
      PathTreated(fs, ops, i, p);
      DutyMeans(f, job, p);
      hide DutyOf, CalledFor, Remembered, Prepared, Trace;
    }
  }

  /** A pass whose preflight found a newer generation changes no file and fails. */
  lemma SupersededPassIsHarmless(fs: seq<Files>, ops: seq<Op>, i: nat)
    requires Trace(fs, ops) && i < |ops| && ops[i].Pass? && ops[i].job.superseded
    ensures var f, g := fs[i], fs[i + 1];
            !ops[i].ok && g.disk == f.disk && g.foreign == f.foreign && g.networks == f.networks && g.entries == f.entries && g.claims == f.claims
  {
    assert Step(fs[i], ops[i], fs[i + 1]);
  }

  /** A pass that no newer writer and no failing call gets in the way of succeeds. */
  lemma UnhinderedPassSucceeds(fs: seq<Files>, ops: seq<Op>, i: nat)
    requires Trace(fs, ops) && i < |ops| && ops[i].Pass? && !ops[i].job.superseded
    requires forall p: Path :: !ops[i].job.os(p).newer && ops[i].job.os(p).commits && ops[i].job.os(p).deletes
    ensures ops[i].ok
  {
    hide DutyOf, Reuses, Remembers, Prepared;
    assert Step(fs[i], ops[i], fs[i + 1]);
    var job := ops[i].job;
    forall p: Path ensures Succeeds(View(Begin(fs[i], job), p), DutyOf(Begin(fs[i], job), job, p), job.os(p)) {
      assert !job.os(p).newer && job.os(p).commits && job.os(p).deletes;
    }
  }

  /** Whether a pass succeeds or not, each path is left as it was or has been dealt
      with completely: its file is the writer's own and remembered by content, or it
      is gone together with its signature. */
  lemma EachPathIsWholeOrUntouched(fs: seq<Files>, ops: seq<Op>, i: nat, p: Path)
    requires Trace(fs, ops) && i < |ops| && ops[i].Pass? && !ops[i].job.superseded
    ensures var f, g, job := fs[i], fs[i + 1], ops[i].job;
            || View(g, p) == View(Begin(f, job), p)
            || (CalledFor(job.routes, p) && p in g.disk && DutyOf(f, job, p) == Write(g.disk[p])
                && p in g.signatures && g.signatures[p] == g.disk[p] && p !in g.foreign)
            || (!CalledFor(job.routes, p) && Remembered(f, p) && p.Table? && p in g.disk && g.disk[p] == []
                && p in g.signatures && g.signatures[p] == [] && p !in g.foreign)
            || (!CalledFor(job.routes, p) && Remembered(f, p) && !p.Table? && p !in g.disk && p !in g.signatures && p !in g.foreign)
  {
    PathTreated(fs, ops, i, p);
    DutyMeans(fs[i], ops[i].job, p);
    hide DutyOf, CalledFor, Remembered, Prepared, Trace, Reuses;
  }

  /** After a pass that succeeds every file it wrote or found unchanged is remembered
      by its content, and every file it removed is forgotten. A file that is not
      fresh enough is written again even if its content is remembered. */
  lemma SuccessfulPassRemembers(fs: seq<Files>, ops: seq<Op>, i: nat, p: Path)
    requires Trace(fs, ops) && i < |ops| && ops[i].Pass? && ops[i].ok
    ensures var f, g, job := fs[i], fs[i + 1], ops[i].job;
            && (CalledFor(job.routes, p) ==> p in g.disk && p in g.signatures && DutyOf(f, job, p) == Write(g.signatures[p]))
            && (!CalledFor(job.routes, p) && Remembered(f, p) && !p.Table? ==> p !in g.disk && p !in g.signatures)
            && (CalledFor(job.routes, p) && !job.os(p).reusable && DutyOf(f, job, p) != Write([]) ==>
                  p !in g.foreign && g.disk[p] == g.signatures[p])
  {
    assert Step(fs[i], ops[i], fs[i + 1]);
    PathTreated(fs, ops, i, p);
    DutyMeans(fs[i], ops[i].job, p);
    hide DutyOf, CalledFor, Remembered, Prepared, Trace;
  }

  /** A file of the right remembered content, still there and fresh, is not written
      again. */
  lemma UnchangedFileIsKept(fs: seq<Files>, ops: seq<Op>, i: nat, p: Path)
    requires Trace(fs, ops) && i < |ops| && ops[i].Pass? && !ops[i].job.superseded && ops[i].job.repair <= fs[i].repair
    requires CalledFor(ops[i].job.routes, p) && p in fs[i].disk && p in fs[i].signatures
    requires DutyOf(fs[i], ops[i].job, p) == Write(fs[i].signatures[p])
    requires ops[i].job.os(p).reusable && !ops[i].job.os(p).newer
    ensures View(fs[i + 1], p) == View(fs[i], p)
  {
    PathTreated(fs, ops, i, p);
    hide DutyOf, CalledFor, Prepared, Trace;
  }
}
