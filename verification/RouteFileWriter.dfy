/** The route-file writer: one publication pass as the daemon performs it, path
    by path, with bookkeeping updated in place. */
module RouteFileWriter {
  import opened NetworkSnapshot
  import opened RouteFiles

  /** One attempt at one path; everything else stays. */
  ghost predicate Attempted(f: Files, p: Path, duty: Duty, a: Attempt, ok: bool, g: Files) {
    && ok == Succeeds(View(f, p), duty, a) && View(g, p) == Treat(View(f, p), duty, a)
    && (forall q: Path :: q != p ==> View(g, q) == View(f, q))
    && SameLists(f, g)
  }

  predicate SameLists(f: Files, g: Files) {
    g.networks == f.networks && g.entries == f.entries && g.claims == f.claims && g.repair == f.repair
  }

  /** The paths in `done` have been attempted since `start`, no others; `ok`
      remembers whether all of them succeeded. */
  ghost predicate Progress(start: Files, job: Job, done: set<Path>, ok: bool, f: Files) {
    && SameLists(start, f)
    && (forall p: Path :: View(f, p) ==
          if p in done then Treat(View(start, p), DutyOf(start, job, p), job.os(p)) else View(start, p))
    && (ok <==> forall p: Path :: p in done ==> Succeeds(View(start, p), DutyOf(start, job, p), job.os(p)))
  }

  /** Attempting a path again, with the same answers, changes nothing. */
  lemma AttemptedTwice(c: Cell, duty: Duty, a: Attempt)
    ensures Treat(Treat(c, duty, a), duty, a) == Treat(c, duty, a)
    ensures Succeeds(Treat(c, duty, a), duty, a) == Succeeds(c, duty, a)
  {}

  lemma Advance(start: Files, job: Job, done: set<Path>, ok: bool, f: Files, p: Path, now: bool, g: Files)
    requires Progress(start, job, done, ok, f)
    requires Attempted(f, p, DutyOf(start, job, p), job.os(p), now, g)
    ensures Progress(start, job, done + {p}, ok && now, g)
  {
    hide DutyOf, Treat, Succeeds, View;
    AttemptedTwice(View(start, p), DutyOf(start, job, p), job.os(p));
  }

  lemma StartProgress(start: Files, job: Job)
    ensures Progress(start, job, {}, true, start)
  {}

  lemma ProgressLists(start: Files, job: Job, done: set<Path>, ok: bool, f: Files)
    requires Progress(start, job, done, ok, f)
    ensures SameLists(start, f)
  {}

  /** The written sets do not show in any path. */
  lemma Relisted(start: Files, job: Job, f: Files, g: Files)
    requires AllTreated(start, job, f)
    requires g.disk == f.disk && g.signatures == f.signatures && g.foreign == f.foreign
    ensures AllTreated(start, job, g)
  {
    assert forall p :: View(g, p) == View(f, p);
  }

  lemma PassedBy(f: Files, start: Files, job: Job, ok: bool, g: Files)
    requires start == Begin(f, job) && !job.superseded
    requires AllTreated(start, job, g) && ok == AllSucceed(start, job) && Remembers(f, job, ok, g)
    requires g.repair == if ok then job.repair else f.repair
    ensures Passed(f, job, ok, g)
  {}

  /** Once every path with a duty has been attempted, the pass is complete. */
  lemma Complete(start: Files, job: Job, done: set<Path>, ok: bool, f: Files)
    requires Progress(start, job, done, ok, f)
    requires forall p: Path :: p !in done ==> DutyOf(start, job, p) == Keep
    ensures AllTreated(start, job, f) && ok == AllSucceed(start, job)
  {
    hide DutyOf, View;
  }

  function Tables(networks: seq<string>, n: nat): (s: set<Path>)
    requires n <= |networks|
    ensures forall p :: p in s <==> p.Table? && p.network in networks[..n]
  {
    if n == 0 then {} else Tables(networks, n - 1) + {Table(networks[n - 1])}
  }

  function Elements(paths: seq<Path>, n: nat): (s: set<Path>)
    requires n <= |paths|
    ensures forall p :: p in s <==> p in paths[..n]
  {
    if n == 0 then {} else Elements(paths, n - 1) + {paths[n - 1]}
  }

  // ------------------------------------------------------ groups of equal path

  /** The run of items from `i` to `j` is the whole group of its path. */
  ghost predicate GroupAt(items: seq<Item>, i: nat, j: nat) {
    && i < j <= |items| && (i > 0 ==> items[i - 1].path != items[i].path)
    && (forall k :: i <= k < j ==> items[k].path == items[i].path)
    && (j < |items| ==> items[j].path != items[i].path)
  }

  lemma {:induction false} NoRows(items: seq<Item>, a: nat, b: nat, p: Path)
    requires a <= b <= |items| && forall k :: a <= k < b ==> items[k].path != p
    ensures RowsTo(items, b, p) == RowsTo(items, a, p)
    decreases b
  {
    if a < b {
      NoRows(items, a, b - 1, p);
    }
  }

  /** Nothing of a group stands outside it. */
  lemma OutsideGroup(items: seq<Item>, i: nat, j: nat, k: nat)
    requires Grouped(items) && GroupAt(items, i, j) && k < |items| && !(i <= k < j)
    ensures items[k].path != items[i].path
  {
    if k < i {
      assert items[i - 1].path != items[i].path;
    } else {
      assert items[j].path != items[i].path;
    }
  }

  lemma GroupRows(items: seq<Item>, i: nat, j: nat)
    requires Grouped(items) && GroupAt(items, i, j)
    ensures RowsTo(items, i, items[i].path) == []
    ensures RowsAt(items, items[i].path) == RowsTo(items, j, items[i].path)
    ensures items[i].path !in PathsTo(items, i)
  {
    var p := items[i].path;
    forall k | 0 <= k < |items| && !(i <= k < j) ensures items[k].path != p {
      OutsideGroup(items, i, j, k);
    }
    NoRows(items, 0, i, p);
    NoRows(items, j, |items|, p);
  }

  lemma {:induction false} GroupPaths(items: seq<Item>, i: nat, j: nat)
    requires i < j <= |items| && items[i].path !in PathsTo(items, i)
    requires forall k :: i <= k < j ==> items[k].path == items[i].path
    ensures PathsTo(items, j) == PathsTo(items, i) + [items[i].path]
    decreases j
  {
    if j > i + 1 {
      GroupPaths(items, i, j - 1);
    }
  }

  /** Where the run of equal paths that starts at `i` ends. */
  method GroupEnd(items: seq<Item>, i: nat) returns (j: nat)
    requires i < |items| && (i > 0 ==> items[i - 1].path != items[i].path)
    ensures GroupAt(items, i, j)
  {
    j := i + 1;
    while j < |items| && items[i].path == items[j].path
      invariant i < j <= |items|
      invariant forall k :: i <= k < j ==> items[k].path == items[i].path
    {
      j := j + 1;
    }
  }

  /** The routes of that run. */
  method GroupRoutes(items: seq<Item>, i: nat, j: nat) returns (rows: Rows)
    requires Grouped(items) && GroupAt(items, i, j)
    ensures rows == RowsAt(items, items[i].path)
  {
    GroupRows(items, i, j);
    hide PathsTo, Grouped;
    rows := [];
    var k := i;
    while k < j
      invariant i <= k <= j && rows == RowsTo(items, k, items[i].path)
    {
      rows := rows + [items[k].route];
      k := k + 1;
    }
  }

  lemma EmptyPaths(items: seq<Item>)
    ensures PathsTo(items, 0) == []
  {}

  lemma GrowElements(done: set<Path>, current: seq<Path>, p: Path)
    ensures done + Elements(current + [p], |current| + 1) == done + Elements(current, |current|) + {p}
  {
    assert (current + [p])[..|current|] == current[..|current|];
  }

  /** The snapshot's networks, collected without repetition. */
  method CurrentNetworks(routes: seq<Route>) returns (networks: seq<string>)
    ensures networks == Networks(routes)
  {
    networks := [];
    var k := 0;
    while k < |routes|
      invariant k <= |routes| && networks == Networks(routes[..k])
    {
      assert routes[..k + 1][..k] == routes[..k];
      if routes[k].networkId != "" && routes[k].networkId !in networks {
        networks := networks + [routes[k].networkId];
      }
      k := k + 1;
    }
    assert routes[..k] == routes;
  }

  /** What both sets together contain. */
  method Merge<T(==,!new)>(written: seq<T>, current: seq<T>) returns (both: seq<T>)
    ensures both == AddAll(written, current)
  {
    both := written;
    var k := 0;
    while k < |current|
      invariant k <= |current| && both == AddAll(written, current[..k])
    {
      assert current[..k + 1][..k] == current[..k];
      if current[k] !in both {
        both := both + [current[k]];
      }
      k := k + 1;
    }
    assert current[..k] == current;
  }

  /** The written sets hold paths of their own kind. */
  ghost predicate Kinds(f: Files) {
    && (forall k :: 0 <= k < |f.entries| ==> f.entries[k].Entry?)
    && (forall k :: 0 <= k < |f.claims| ==> f.claims[k].Claim?)
  }

  lemma {:induction false} EntryKinds(routes: seq<Route>, x: Item)
    requires x in EntryItems(routes)
    ensures x.path.Entry?
  {
    if x in EntryItems(routes[..|routes| - 1]) {
      EntryKinds(routes[..|routes| - 1], x);
    }
  }

  lemma {:induction false} ClaimKinds(routes: seq<Route>, x: Item)
    requires x in ClaimItems(routes)
    ensures x.path.Claim?
  {
    if x in ClaimItems(routes[..|routes| - 1]) {
      ClaimKinds(routes[..|routes| - 1], x);
    }
  }

  /** Each item's path is to be written with its group of routes. */
  lemma ItemDuties(start: Files, job: Job)
    requires Prepared(job)
    ensures forall k :: 0 <= k < |job.entries| ==>
      job.entries[k].path.Entry? && DutyOf(start, job, job.entries[k].path) == Write(RowsAt(job.entries, job.entries[k].path))
    ensures forall k :: 0 <= k < |job.claims| ==>
      job.claims[k].path.Claim? && DutyOf(start, job, job.claims[k].path) == Write(RowsAt(job.claims, job.claims[k].path))
  {
    hide RowsTo, EntryItems, ClaimItems;
    forall k | 0 <= k < |job.entries| ensures job.entries[k].path.Entry? {
      assert job.entries[k] in multiset(job.entries);
      EntryKinds(job.routes, job.entries[k]);
    }
    forall k | 0 <= k < |job.claims| ensures job.claims[k].path.Claim? {
      assert job.claims[k] in multiset(job.claims);
      ClaimKinds(job.routes, job.claims[k]);
    }
  }

  lemma KindsKept(f: Files, job: Job, g: Files)
    requires Prepared(job) && Kinds(f)
    requires g.entries == PathsOf(job.entries) || g.entries == AddAll(f.entries, PathsOf(job.entries))
    requires g.claims == PathsOf(job.claims) || g.claims == AddAll(f.claims, PathsOf(job.claims))
    ensures Kinds(g)
  {
    ItemDuties(f, job);
    hide AddAll, PathsTo, Prepared, DutyOf, RowsAt;
    forall k | 0 <= k < |g.entries| ensures g.entries[k].Entry? {
      assert g.entries[k] in f.entries || g.entries[k] in PathsOf(job.entries);
    }
    forall k | 0 <= k < |g.claims| ensures g.claims[k].Claim? {
      assert g.claims[k] in f.claims || g.claims[k] in PathsOf(job.claims);
    }
  }

  lemma OldTable(start: Files, job: Job, networks: seq<string>, k: nat)
    requires networks == Networks(job.routes) && k < |start.networks|
    ensures var p, done := Table(start.networks[k]), Tables(networks, |networks|);
      && done + Tables(start.networks, k + 1) == done + Tables(start.networks, k) + {p}
      && if p.network in networks then done + Tables(start.networks, k) + {p} == done + Tables(start.networks, k)
         else DutyOf(start, job, p) == Write([])
  {
    hide Networks;
    assert networks[..|networks|] == networks;
  }

  /** Which paths one pass goes over. */
  ghost function Visited(start: Files, job: Job): set<Path> {
    var networks, entries, claims := Networks(job.routes), PathsOf(job.entries), PathsOf(job.claims);
    Tables(networks, |networks|) + Tables(start.networks, |start.networks|)
    + Elements(entries, |entries|) + Elements(claims, |claims|)
    + Elements(start.entries, |start.entries|) + Elements(start.claims, |start.claims|)
  }

  lemma VisitedAll(start: Files, job: Job, p: Path)
    requires p !in Visited(start, job)
    ensures DutyOf(start, job, p) == Keep
  {
    hide Networks, PathsTo, RowsTo, NetworkRoutes, Tables, Elements;
    var networks, entries, claims := Networks(job.routes), PathsOf(job.entries), PathsOf(job.claims);
    assert networks[..|networks|] == networks && start.networks[..|start.networks|] == start.networks;
    assert entries[..|entries|] == entries && claims[..|claims|] == claims;
    assert start.entries[..|start.entries|] == start.entries && start.claims[..|start.claims|] == start.claims;
  }

  /** An old entry or claim is current and done, or to be removed. */
  lemma OldDuties(start: Files, job: Job, done: set<Path>)
    requires Kinds(start)
    requires var entries, claims := PathsOf(job.entries), PathsOf(job.claims);
      Elements(entries, |entries|) <= done && Elements(claims, |claims|) <= done
    ensures forall k :: 0 <= k < |start.entries| ==>
      if start.entries[k] in PathsOf(job.entries) then start.entries[k] in done
      else DutyOf(start, job, start.entries[k]) == Remove
    ensures forall k :: 0 <= k < |start.claims| ==>
      if start.claims[k] in PathsOf(job.claims) then start.claims[k] in done
      else DutyOf(start, job, start.claims[k]) == Remove
  {
    hide PathsTo, RowsTo, Elements;
    var entries, claims := PathsOf(job.entries), PathsOf(job.claims);
    assert entries[..|entries|] == entries && claims[..|claims|] == claims;
  }

  class Writer {
    var f: Files

    /** Writes `rows` unless the remembered signature says the file has them. */
    method WriteIfChanged(p: Path, rows: Rows, a: Attempt) returns (ok: bool)
      modifies this
      ensures Attempted(old(f), p, Write(rows), a, ok, f)
    {
      if p in f.signatures && f.signatures[p] == rows && p in f.disk {
        if a.newer {
          ok := false;
        } else if a.reusable {
          ok := true;
        } else if |rows| == 0 {
          ok := true;
        } else {
          ok := WriteFile(p, rows, a);
        }
      } else {
        ok := WriteFile(p, rows, a);
        if ok {
          f := f.(signatures := f.signatures[p := rows]);
        }
      }
    }

    /** The rename happens last, so a failed write leaves the old file. */
    method WriteFile(p: Path, rows: Rows, a: Attempt) returns (ok: bool)
      modifies this
      ensures ok == (!a.newer && a.commits)
      ensures f == if ok then old(f).(disk := old(f).disk[p := rows], foreign := old(f).foreign - {p}) else old(f)
    {
      ok := !a.newer && a.commits;
      if ok {
        f := f.(disk := f.disk[p := rows], foreign := f.foreign - {p});
      }
    }

    method Unlink(p: Path, a: Attempt) returns (ok: bool)
      modifies this
      ensures Attempted(old(f), p, Remove, a, ok, f)
    {
      ok := !a.newer && a.deletes;
      if ok {
        f := f.(disk := f.disk - {p}, foreign := f.foreign - {p}, signatures := f.signatures - {p});
      }
    }
  
    /** Tables of the snapshot's networks. */
    method WriteNetworks(job: Job, networks: seq<string>, ghost start: Files) returns (ok: bool)
      requires networks == Networks(job.routes) && f == start
      modifies this
      ensures Progress(start, job, Tables(networks, |networks|), ok, f)
    {
      hide Progress, Attempted, NetworkRoutes, Networks;
      ok := true;
      StartProgress(start, job);
      var k := 0;
      while k < |networks|
        invariant k <= |networks| && Progress(start, job, Tables(networks, k), ok, f)
      {
        var rows := BuildNetworkSnapshot(job.routes, networks[k]);
        var p, before := Table(networks[k]), f;
        var now := WriteIfChanged(p, rows, job.os(p));
        Advance(start, job, Tables(networks, k), ok, before, p, now, f);
        ok := ok && now;
        k := k + 1;
      }
    }
  
    /** Tables of networks written before and gone now are emptied. */
    method EmptyOldNetworks(job: Job, networks: seq<string>, ghost start: Files, soFar: bool) returns (ok: bool)
      requires networks == Networks(job.routes) && f.networks == start.networks
      requires Progress(start, job, Tables(networks, |networks|), soFar, f)
      modifies this
      ensures Progress(start, job, Tables(networks, |networks|) + Tables(start.networks, |start.networks|), ok, f)
    {
      hide Progress, Attempted, Networks, DutyOf, Tables;
      ok := soFar;
      var written, k := f.networks, 0;
      ghost var done := Tables(networks, |networks|);
      assert done + Tables(written, 0) == done;
      while k < |written|
        invariant k <= |written| && Progress(start, job, done + Tables(written, k), ok, f)
      {
        var p, before := Table(written[k]), f;
        ghost var was := done + Tables(written, k);
        OldTable(start, job, networks, k);
        if written[k] !in networks {
          var now := WriteIfChanged(p, [], job.os(p));
          Advance(start, job, was, ok, before, p, now, f);
          ok := ok && now;
        }
        k := k + 1;
      }
    }
  
    /** Files with one group of routes each. */
    method WriteGroups(job: Job, items: seq<Item>, ghost start: Files, ghost done: set<Path>, soFar: bool)
      returns (current: seq<Path>, ok: bool)
      requires Grouped(items) && Progress(start, job, done, soFar, f)
      requires forall k :: 0 <= k < |items| ==> DutyOf(start, job, items[k].path) == Write(RowsAt(items, items[k].path))
      modifies this
      ensures current == PathsOf(items) && Progress(start, job, done + Elements(current, |current|), ok, f)
    {
      hide Progress, Attempted, DutyOf, PathsTo, RowsAt, Grouped;
      ok, current := soFar, [];
      assert done + Elements(current, 0) == done;
      EmptyPaths(items);
      var i := 0;
      while i < |items|
        invariant i <= |items| && current == PathsTo(items, i) && (0 < i < |items| ==> items[i - 1].path != items[i].path)
        invariant Progress(start, job, done + Elements(current, |current|), ok, f)
      {
        var j := GroupEnd(items, i);
        var rows := GroupRoutes(items, i, j);
        GroupRows(items, i, j);
        GroupPaths(items, i, j);
        var p, before := items[i].path, f;
        var now := WriteIfChanged(p, rows, job.os(p));
        ghost var was := done + Elements(current, |current|);
        Advance(start, job, was, ok, before, p, now, f);
        GrowElements(done, current, p);
        ok := ok && now;
        current := current + [p];
        i := j;
      }
    }

    /** Files written before and gone now are removed. */
    method RemoveOld(job: Job, written: seq<Path>, current: seq<Path>, ghost start: Files, ghost done: set<Path>, soFar: bool)
      returns (ok: bool)
      requires Progress(start, job, done, soFar, f)
      requires forall k :: 0 <= k < |written| ==>
        if written[k] in current then written[k] in done else DutyOf(start, job, written[k]) == Remove
      modifies this
      ensures Progress(start, job, done + Elements(written, |written|), ok, f)
    {
      hide Progress, Attempted, DutyOf;
      ok := soFar;
      assert done + Elements(written, 0) == done;
      var k := 0;
      while k < |written|
        invariant k <= |written| && Progress(start, job, done + Elements(written, k), ok, f)
      {
        var p, before := written[k], f;
        ghost var was := done + Elements(written, k);
        assert done + Elements(written, k + 1) == was + {p};
        if p !in current {
          var now := Unlink(p, job.os(p));
          Advance(start, job, was, ok, before, p, now, f);
          ok := ok && now;
        } else {
          assert was + {p} == was;
        }
        k := k + 1;
      }
    }
  
    /** All writes and deletions of one pass. */
    method WriteFiles(job: Job) returns (networks: seq<string>, entries: seq<Path>, claims: seq<Path>, ok: bool)
      requires Prepared(job) && Kinds(f)
      modifies this
      ensures networks == Networks(job.routes) && entries == PathsOf(job.entries) && claims == PathsOf(job.claims)
      ensures Progress(old(f), job, Visited(old(f), job), ok, f)
    {
      ghost var start := f;
      ItemDuties(start, job);
      hide Progress, Networks, PathsTo, RowsTo, Tables, Elements, DutyOf, Grouped;
      networks := CurrentNetworks(job.routes);
      var oldEntries, oldClaims := f.entries, f.claims;
      ok := WriteNetworks(job, networks, start);
      ghost var done := Tables(networks, |networks|);
      assert f.networks == start.networks by { ProgressLists(start, job, done, ok, f); }
      ok := EmptyOldNetworks(job, networks, start, ok);
      done := done + Tables(start.networks, |start.networks|);
      entries, ok := WriteGroups(job, job.entries, start, done, ok);
      done := done + Elements(entries, |entries|);
      claims, ok := WriteGroups(job, job.claims, start, done, ok);
      done := done + Elements(claims, |claims|);
      OldDuties(start, job, done);
      ok := RemoveOld(job, oldEntries, entries, start, done, ok);
      done := done + Elements(oldEntries, |oldEntries|);
      ok := RemoveOld(job, oldClaims, claims, start, done, ok);
    }

    /** One publication: forget signatures for a newer repair, give way to a
        newer generation, otherwise write, remove and remember. */
    method Publish(job: Job) returns (ok: bool)
      requires Prepared(job) && Kinds(f)
      modifies this
      ensures Passed(old(f), job, ok, f) && Kinds(f)
    {
      if job.repair > f.repair {
        f := f.(signatures := map[]);
      }
      ghost var start := f;
      if job.superseded {
        return false;
      }
      var networks, entries, claims;
      networks, entries, claims, ok := WriteFiles(job);
      ghost var done := Visited(start, job);
      forall p: Path | p !in done ensures DutyOf(start, job, p) == Keep { VisitedAll(start, job, p); }
      Complete(start, job, done, ok, f);
      ProgressLists(start, job, done, ok, f);
      ghost var written := f;
      hide *;
      if ok {
        f := f.(networks := networks, entries := entries, claims := claims, repair := job.repair);
      } else {
        var n := Merge(f.networks, networks);
        var e := Merge(f.entries, entries);
        var c := Merge(f.claims, claims);
        f := f.(networks := n, entries := e, claims := c);
      }
      KindsKept(old(f), job, f);
      Relisted(start, job, written, f);
      PassedBy(old(f), start, job, ok, f);
    }
  }
}
