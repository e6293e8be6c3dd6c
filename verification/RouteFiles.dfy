/** Route files on disk: what one publication pass must do to every path, and
    what holds over any run of passes that may fail at any write or delete while
    other programs tamper with the files. */
module RouteFiles {
  import opened Common
  import opened NetworkSnapshot

  /** Generated paths, as an injective datatype. */
  datatype Path = Table(network: string) | Entry(port: int, scope: string) | Claim(at: int)

  type Rows = seq<Route>

  datatype Item = Item(path: Path, route: Route)

  /** What the operating system answers for one path during one pass: whether
      its file belongs to a newer live writer, whether it is fresh enough to
      reuse, and whether the rename or the unlink succeeds. */
  datatype Attempt = Attempt(newer: bool, reusable: bool, commits: bool, deletes: bool)

  /** One captured snapshot. `entries` and `claims` are the items as sorted by
      path; equal paths come in any order. `superseded`: the preflight found a
      newer generation. */
  datatype Job = Job(routes: seq<Route>, entries: seq<Item>, claims: seq<Item>,
                     repair: nat, superseded: bool, os: Path -> Attempt)

  /** `networks`, `entries` and `claims` are the written sets. `foreign` holds
      the paths another program has touched since this writer last did. */
  datatype Files = Files(networks: seq<string>, entries: seq<Path>, claims: seq<Path>,
                         signatures: map<Path, Rows>, disk: map<Path, Rows>, repair: nat, foreign: set<Path>)

  // ------------------------------------------------------------- the snapshot

  /** Distinct non-empty network ids, in order of first appearance. */
  function Networks(routes: seq<Route>): (s: seq<string>)
    ensures forall n :: n in s <==> n != "" && exists i :: 0 <= i < |routes| && routes[i].networkId == n
  {
    if routes == [] then []
    else
      var r := routes[|routes| - 1];
      var s := Networks(routes[..|routes| - 1]);
      if r.networkId == "" then s else Add(s, r.networkId)
  }

  function Add<T(==,!new)>(s: seq<T>, x: T): (r: seq<T>)
    ensures forall y :: y in r <==> y in s || y == x
  {
    if x in s then s else s + [x]
  }

  function AddAll<T(==,!new)>(s: seq<T>, more: seq<T>): (r: seq<T>)
    ensures forall y :: y in r <==> y in s || y in more
  {
    if more == [] then s else Add(AddAll(s, more[..|more| - 1]), more[|more| - 1])
  }

  function EntryItem(r: Route): Item { Item(Entry(r.logicalPort, r.networkId), r) }

  function EntryItems(routes: seq<Route>): seq<Item> {
    if routes == [] then [] else EntryItems(routes[..|routes| - 1]) + [EntryItem(routes[|routes| - 1])]
  }

  /** A compose route claims its logical port, and its actual port if different. */
  function ClaimsOf(r: Route): seq<Item> {
    if r.source != "compose" then []
    else if r.actualPort == r.logicalPort then [Item(Claim(r.logicalPort), r)]
    else [Item(Claim(r.logicalPort), r), Item(Claim(r.actualPort), r)]
  }

  function ClaimItems(routes: seq<Route>): seq<Item> {
    if routes == [] then [] else ClaimItems(routes[..|routes| - 1]) + ClaimsOf(routes[|routes| - 1])
  }

  /** Equal paths stand together. */
  ghost predicate Grouped(items: seq<Item>) {
    forall i, j, k :: 0 <= i <= j <= k < |items| && items[i].path == items[k].path ==> items[j].path == items[i].path
  }

  ghost predicate Prepared(job: Job) {
    && multiset(job.entries) == multiset(EntryItems(job.routes)) && Grouped(job.entries)
    && multiset(job.claims) == multiset(ClaimItems(job.routes)) && Grouped(job.claims)
  }

  /** The routes the first `n` items list under one path, in order. */
  function RowsTo(items: seq<Item>, n: nat, p: Path): Rows
    requires n <= |items|
  {
    if n == 0 then []
    else RowsTo(items, n - 1, p) + if items[n - 1].path == p then [items[n - 1].route] else []
  }

  function RowsAt(items: seq<Item>, p: Path): Rows { RowsTo(items, |items|, p) }

  /** The paths of the first `n` items, each once. */
  function PathsTo(items: seq<Item>, n: nat): (s: seq<Path>)
    requires n <= |items|
    ensures forall p :: p in s <==> exists i :: 0 <= i < n && items[i].path == p
  {
    if n == 0 then [] else Add(PathsTo(items, n - 1), items[n - 1].path)
  }

  function PathsOf(items: seq<Item>): seq<Path> { PathsTo(items, |items|) }

  // --------------------------------------------------------------- one path

  datatype Duty = Keep | Write(rows: Rows) | Remove

  /** What a pass over `job` owes each path: current files are written, tables of
      old networks emptied, old entries and claims removed. */
  function DutyOf(f: Files, job: Job, p: Path): Duty {
    match p
    case Table(n) =>
      if n in Networks(job.routes) then Write(NetworkRoutes(job.routes, n))
      else if n in f.networks then Write([]) else Keep
    case Entry(_, _) =>
      if p in PathsOf(job.entries) then Write(RowsAt(job.entries, p)) else if p in f.entries then Remove else Keep
    case Claim(_) =>
      if p in PathsOf(job.claims) then Write(RowsAt(job.claims, p)) else if p in f.claims then Remove else Keep
  }

  datatype Cell = Cell(content: Option<Rows>, signature: Option<Rows>, foreign: bool)

  function Lookup(m: map<Path, Rows>, p: Path): Option<Rows> {
    if p in m then Some(m[p]) else None
  }

  function View(f: Files, p: Path): Cell {
    Cell(Lookup(f.disk, p), Lookup(f.signatures, p), p in f.foreign)
  }

  /** A write of unchanged content may be skipped. */
  predicate Reuses(c: Cell, rows: Rows, a: Attempt) {
    c.signature == Some(rows) && c.content.Some? && !a.newer && (a.reusable || rows == [])
  }

  predicate Succeeds(c: Cell, duty: Duty, a: Attempt) {
    match duty
    case Keep => true
    case Write(rows) => Reuses(c, rows, a) || (!a.newer && a.commits)
    case Remove => !a.newer && a.deletes
  }

  /** The path after the pass. A failed attempt leaves it as it was. */
  function Treat(c: Cell, duty: Duty, a: Attempt): Cell {
    if !Succeeds(c, duty, a) then c
    else match duty
      case Keep => c
      case Write(rows) => if Reuses(c, rows, a) then c else Cell(Some(rows), Some(rows), false)
      case Remove => Cell(None, None, false)
  }

  // --------------------------------------------------------------- one pass

  /** A repair newer than the last one written forgets every signature. */
  function Begin(f: Files, job: Job): Files {
    if job.repair > f.repair then f.(signatures := map[]) else f
  }

  ghost predicate AllSucceed(f: Files, job: Job) {
    forall p: Path :: Succeeds(View(f, p), DutyOf(f, job, p), job.os(p))
  }

  ghost predicate AllTreated(f: Files, job: Job, g: Files) {
    forall p: Path :: View(g, p) == Treat(View(f, p), DutyOf(f, job, p), job.os(p))
  }

  /** The written sets after a pass: the snapshot's own, or on failure both. */
  predicate Remembers(f: Files, job: Job, ok: bool, g: Files) {
    var networks, entries, claims := Networks(job.routes), PathsOf(job.entries), PathsOf(job.claims);
    if ok then g.networks == networks && g.entries == entries && g.claims == claims
    else
      && g.networks == AddAll(f.networks, networks)
      && g.entries == AddAll(f.entries, entries) && g.claims == AddAll(f.claims, claims)
  }

  /** `g` is what a pass over `job` makes of `f`, reporting `ok`. */
  ghost predicate Passed(f: Files, job: Job, ok: bool, g: Files) {
    var start := Begin(f, job);
    if job.superseded then !ok && g == start
    else
      && ok == AllSucceed(start, job) && AllTreated(start, job, g) && Remembers(f, job, ok, g)
      && g.repair == if ok then job.repair else f.repair
  }

  // ---------------------------------------------------------------- invariants

  /** Every entry or claim on disk and every non-empty table is in the written
      sets, unless another program put it there. */
  ghost predicate Tracked(f: Files) {
    forall p: Path :: p in f.disk && p !in f.foreign ==>
      match p
      case Table(n) => f.disk[p] != [] ==> n in f.networks
      case Entry(_, _) => p in f.entries
      case Claim(_) => p in f.claims
  }

  /** A remembered signature is the content, unless another program changed it. */
  ghost predicate Sound(f: Files) {
    forall p: Path :: p in f.disk && p in f.signatures && p !in f.foreign ==> f.disk[p] == f.signatures[p]
  }

  ghost predicate Inv(f: Files) { Tracked(f) && Sound(f) }

  lemma BeginKeeps(f: Files, job: Job)
    requires Inv(f)
    ensures Inv(Begin(f, job))
  {}

  lemma PassKeepsSound(f: Files, job: Job, g: Files)
    requires Sound(f) && AllTreated(f, job, g)
    ensures Sound(g)
  {
    forall p: Path | p in g.disk && p in g.signatures && p !in g.foreign ensures g.disk[p] == g.signatures[p] {
      hide DutyOf, Reuses;
      assert View(g, p) == Treat(View(f, p), DutyOf(f, job, p), job.os(p));
    }
  }

  lemma PassTracks(f: Files, job: Job, ok: bool, g: Files, p: Path)
    requires Inv(f) && AllTreated(f, job, g) && ok == AllSucceed(f, job) && Remembers(f, job, ok, g)
    requires p in g.disk && p !in g.foreign
    ensures match p
      case Table(n) => g.disk[p] != [] ==> n in g.networks
      case Entry(_, _) => p in g.entries
      case Claim(_) => p in g.claims
  {
    hide Networks, PathsTo, RowsTo, NetworkRoutes;
    var c, duty, a := View(f, p), DutyOf(f, job, p), job.os(p);
    assert View(g, p) == Treat(c, duty, a);
    assert ok ==> Succeeds(c, duty, a);
  }

  /** No pass, whatever fails in it, loses track of a file it left behind. */
  lemma PassKeeps(f: Files, job: Job, ok: bool, g: Files)
    requires Inv(f) && Passed(f, job, ok, g)
    ensures Inv(g)
  {
    BeginKeeps(f, job);
    var start := Begin(f, job);
    if !job.superseded {
      hide Inv, Sound, Tracked, AllTreated, AllSucceed;
      assert Inv(start) && Remembers(start, job, ok, g);
      InvParts(start);
      PassKeepsSound(start, job, g);
      PassKeepsTracked(start, job, ok, g);
      InvWhole(g);
    }
  }

  lemma InvParts(f: Files) requires Inv(f) ensures Sound(f) {}
  lemma InvWhole(f: Files) requires Sound(f) && Tracked(f) ensures Inv(f) {}

  lemma PassKeepsTracked(f: Files, job: Job, ok: bool, g: Files)
    requires Inv(f) && AllTreated(f, job, g) && ok == AllSucceed(f, job) && Remembers(f, job, ok, g)
    ensures Tracked(g)
  {
    hide Inv, AllTreated, AllSucceed, Remembers;
    forall p: Path | p in g.disk && p !in g.foreign
      ensures match p
        case Table(n) => g.disk[p] != [] ==> n in g.networks
        case Entry(_, _) => p in g.entries
        case Claim(_) => p in g.claims
    {
      PassTracks(f, job, ok, g, p);
    }
  }

  // --------------------------------------------------------------- every run

  /** Another program replaces, truncates, creates or deletes one file. */
  function Tampered(f: Files, p: Path, content: Option<Rows>): Files {
    f.(disk := if content.Some? then f.disk[p := content.value] else f.disk - {p}, foreign := f.foreign + {p})
  }

  datatype Op = Pass(job: Job, ok: bool) | Tamper(path: Path, content: Option<Rows>)

  ghost predicate Step(f: Files, op: Op, g: Files) {
    match op
    case Pass(job, ok) => Prepared(job) && Passed(f, job, ok, g)
    case Tamper(p, content) => g == Tampered(f, p, content)
  }

  /** A writer starts without signatures, having adopted what it found. */
  ghost predicate Adopted(f: Files) { f.signatures == map[] && Tracked(f) }

  ghost predicate Trace(fs: seq<Files>, ops: seq<Op>) {
    && |fs| == |ops| + 1 && Adopted(fs[0])
    && forall i :: 0 <= i < |ops| ==> Step(fs[i], ops[i], fs[i + 1])
  }

  lemma TamperKeeps(f: Files, p: Path, content: Option<Rows>)
    requires Inv(f)
    ensures Inv(Tampered(f, p, content))
  {}

  /** Over any run of passes, each failing wherever it likes, every entry or
      claim on disk and every non-empty table stays in the written sets, and
      every remembered signature is true, outside what others touched. */
  lemma {:induction false} RunKeeps(fs: seq<Files>, ops: seq<Op>, i: nat)
    requires Trace(fs, ops) && i < |fs|
    ensures Inv(fs[i])
  {
    hide Inv, Passed;
    if i == 0 {
      AdoptedInv(fs[0]);
    } else {
      RunKeeps(fs, ops, i - 1);
      assert Step(fs[i - 1], ops[i - 1], fs[i - 1 + 1]);
      match ops[i - 1] {
        case Pass(job, ok) => PassKeeps(fs[i - 1], job, ok, fs[i]);
        case Tamper(p, content) => TamperKeeps(fs[i - 1], p, content);
      }
    }
  }

  lemma AdoptedInv(f: Files)
    requires Adopted(f)
    ensures Inv(f)
  {}

  /** A pass that succeeds leaves exactly its snapshot's files: each current path
      holds its routes, even where the write was skipped; each old network's
      table is empty; every other file on disk is an empty table. Only files
      others touched, and only where the pass skipped or had no business, may
      differ. */
  lemma SuccessfulPassIsExact(fs: seq<Files>, ops: seq<Op>, i: nat, p: Path)
    requires Trace(fs, ops) && i < |ops| && ops[i].Pass? && ops[i].ok && p !in fs[i + 1].foreign
    ensures var f, g, job := fs[i], fs[i + 1], ops[i].job;
      && g.networks == Networks(job.routes) && g.entries == PathsOf(job.entries) && g.claims == PathsOf(job.claims)
      && match DutyOf(f, job, p)
         case Write(rows) => p in g.disk && g.disk[p] == rows
         case Remove => p !in g.disk
         case Keep => p in g.disk ==> p.Table? && g.disk[p] == []
  {
    RunKeeps(fs, ops, i);
    assert Step(fs[i], ops[i], fs[i + 1]);
    ExactAt(fs[i], ops[i].job, fs[i + 1], p);
  }

  lemma ExactAt(f: Files, job: Job, g: Files, p: Path)
    requires Inv(f) && Passed(f, job, true, g) && p !in g.foreign
    ensures g.networks == Networks(job.routes) && g.entries == PathsOf(job.entries) && g.claims == PathsOf(job.claims)
    ensures match DutyOf(f, job, p)
      case Write(rows) => p in g.disk && g.disk[p] == rows
      case Remove => p !in g.disk
      case Keep => p in g.disk ==> p.Table? && g.disk[p] == []
  {
    hide Networks, PathsTo, RowsTo, NetworkRoutes;
    var start := Begin(f, job);
    BeginKeeps(f, job);
    assert DutyOf(start, job, p) == DutyOf(f, job, p);
    assert View(g, p) == Treat(View(start, p), DutyOf(f, job, p), job.os(p));
    assert Succeeds(View(start, p), DutyOf(start, job, p), job.os(p));
  }

  /** A repair that commits rewrote every file it is responsible for: whatever
      others did to them before, they now hold the snapshot. */
  lemma CommittedRepairRewroteEverything(f: Files, job: Job, g: Files, p: Path)
    requires Passed(f, job, true, g) && job.repair > f.repair && !DutyOf(f, job, p).Keep?
    ensures p !in g.foreign
    ensures match DutyOf(f, job, p)
      case Write(rows) => p in g.disk && g.disk[p] == rows
      case _ => p !in g.disk
  {
    hide Networks, PathsTo, RowsTo, NetworkRoutes;
    var start := Begin(f, job);
    assert DutyOf(start, job, p) == DutyOf(f, job, p);
    assert View(g, p) == Treat(View(start, p), DutyOf(f, job, p), job.os(p));
    assert Succeeds(View(start, p), DutyOf(start, job, p), job.os(p));
  }

  // ------------------------------------------------------------ the contents

  lemma CountJoin<T>(a: seq<T>, b: seq<T>, x: T)
    ensures multiset(a + b)[x] == multiset(a)[x] + multiset(b)[x]
  {}

  lemma {:induction false} RowsToCount(items: seq<Item>, n: nat, p: Path, r: Route)
    requires n <= |items|
    ensures multiset(RowsTo(items, n, p))[r] == multiset(items[..n])[Item(p, r)]
  {
    hide RowsTo;
    RowsToUnfold(items, n, p);
    if n > 0 {
      var last := items[n - 1];
      RowsToCount(items, n - 1, p, r);
      assert items[..n] == items[..n - 1] + [last];
      CountJoin(items[..n - 1], [last], Item(p, r));
      if last.path == p {
        CountJoin(RowsTo(items, n - 1, p), [last.route], r);
      }
    }
  }

  lemma RowsToUnfold(items: seq<Item>, n: nat, p: Path)
    requires n <= |items|
    ensures n == 0 ==> RowsTo(items, n, p) == []
    ensures n > 0 && items[n - 1].path == p ==> RowsTo(items, n, p) == RowsTo(items, n - 1, p) + [items[n - 1].route]
    ensures n > 0 && items[n - 1].path != p ==> RowsTo(items, n, p) == RowsTo(items, n - 1, p)
  {}

  lemma RowsAtCount(items: seq<Item>, p: Path, r: Route)
    ensures multiset(RowsAt(items, p))[r] == multiset(items)[Item(p, r)]
  {
    RowsToCount(items, |items|, p, r);
    assert items[..|items|] == items;
  }

  lemma {:induction false} EntryItemsCount(routes: seq<Route>, p: Path, r: Route)
    ensures multiset(EntryItems(routes))[Item(p, r)] == if EntryItem(r).path == p then multiset(routes)[r] else 0
  {
    if routes != [] {
      var n := |routes| - 1;
      var front, last := routes[..n], routes[n];
      EntryItemsCount(front, p, r);
      assert routes == front + [last] && EntryItems(routes) == EntryItems(front) + [EntryItem(last)];
      hide EntryItems;
      CountJoin(front, [last], r);
      CountJoin(EntryItems(front), [EntryItem(last)], Item(p, r));
    }
  }

  predicate ClaimsPort(r: Route, port: int) {
    r.source == "compose" && (r.logicalPort == port || r.actualPort == port)
  }

  lemma ClaimsOfCount(owner: Route, port: int, r: Route)
    ensures multiset(ClaimsOf(owner))[Item(Claim(port), r)] == if owner == r && ClaimsPort(r, port) then 1 else 0
  {
    var x := Item(Claim(port), r);
    var a, b := Item(Claim(owner.logicalPort), owner), Item(Claim(owner.actualPort), owner);
    assert multiset([a])[x] == if a == x then 1 else 0;
    assert multiset([a, b]) == multiset{a, b};
  }

  lemma ClaimItemsUnfold(routes: seq<Route>)
    ensures routes == [] ==> ClaimItems(routes) == []
    ensures routes != [] ==> ClaimItems(routes) == ClaimItems(routes[..|routes| - 1]) + ClaimsOf(routes[|routes| - 1])
  {}

  lemma {:induction false} ClaimItemsCount(routes: seq<Route>, port: int, r: Route)
    ensures multiset(ClaimItems(routes))[Item(Claim(port), r)] == if ClaimsPort(r, port) then multiset(routes)[r] else 0
  {
    hide ClaimsOf, ClaimsPort, ClaimItems;
    ClaimItemsUnfold(routes);
    if routes != [] {
      var front, last := routes[..|routes| - 1], routes[|routes| - 1];
      ClaimItemsCount(front, port, r);
      ClaimsOfCount(last, port, r);
      assert routes == front + [last];
      CountJoin(front, [last], r);
      CountJoin(ClaimItems(front), ClaimsOf(last), Item(Claim(port), r));
    }
  }

  /** An entry file holds exactly the snapshot's routes for its port and network,
      a claim file exactly the compose routes that claim its port. */
  lemma FilesHoldTheirRoutes(job: Job, port: int, scope: string, r: Route)
    requires Prepared(job)
    ensures multiset(RowsAt(job.entries, Entry(port, scope)))[r] ==
              if r.logicalPort == port && r.networkId == scope then multiset(job.routes)[r] else 0
    ensures multiset(RowsAt(job.claims, Claim(port)))[r] == if ClaimsPort(r, port) then multiset(job.routes)[r] else 0
  {
    RowsAtCount(job.entries, Entry(port, scope), r);
    EntryItemsCount(job.routes, Entry(port, scope), r);
    RowsAtCount(job.claims, Claim(port), r);
    ClaimItemsCount(job.routes, port, r);
  }
}
