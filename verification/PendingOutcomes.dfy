/** What each operation on the table of pending routes comes to, in every run: which
    rows go, which stay and in what order, and what a lookup finds afterwards. */
module PendingOutcomes {
  import opened Common
  import opened Text
  import opened PendingRoutes

  predicate At(r: Row, port: int, network: string) { r.logicalPort == port && r.network == network }

  /** The rows at rising places `at`, and those alone. */
  ghost predicate Picks(rows: seq<Row>, kept: seq<Row>, at: seq<nat>) {
    && |at| == |kept|
    && (forall j, k :: 0 <= j < k < |at| ==> at[j] < at[k])
    && (forall k :: 0 <= k < |at| ==> at[k] < |rows| && kept[k] == rows[at[k]])
  }

  // What an operation is, without the others.

  lemma CleanApplies(s: Registry, now: int, scan: Scan)
    requires now >= 0
    ensures Apply(s, Clean(now, scan)) == Cleanup(s, now, scan)
  {
    hide Cleanup;
  }

  lemma ReleaseApplies(s: Registry, id: string)
    ensures var kept := WithoutId(s.rows, 0, id); Apply(s, RemoveAllocation(id)) == Removed(s, kept, |kept| < |s.rows|)
  {
    hide Removed, WithoutId;
  }

  lemma RemoveApplies(s: Registry, port: int, network: string)
    ensures Apply(s, RemoveEndpoint(port, network)) == Removed(s, WithoutEndpoint(s.rows, |s.rows|, port, network), true)
  {
    hide Removed, WithoutEndpoint;
  }

  lemma ExtendApplies(s: Registry, port: int, network: string, now: int)
    requires now >= 0 && 0 <= FindEndpoint(s, port, network).0 < |FindEndpoint(s, port, network).1.rows|
    ensures var found := FindEndpoint(s, port, network); Apply(s, Extend(port, network, now)) == Extended(found.1, found.0, now)
  {
    hide FindEndpoint, Extended;
  }

  // ------------------------------------------------------------------- removals

  /** Removing an endpoint keeps, in order, exactly the rows of other endpoints. */
  lemma {:induction false} EndpointPicks(rows: seq<Row>, n: nat, port: int, network: string) returns (at: seq<nat>)
    requires n <= |rows|
    ensures Picks(rows, WithoutEndpoint(rows, n, port, network), at)
    ensures forall i :: i in at <==> 0 <= i < n && !At(rows[i], port, network)
  {
    hide Endpoint;
    at := [];
    if n > 0 {
      at := EndpointPicks(rows, n - 1, port, network);
      EndpointInjective(rows[n - 1].logicalPort, rows[n - 1].network, port, network);
      if !At(rows[n - 1], port, network) {
        at := at + [n - 1];
      }
    }
  }

  /** A scan of distinct rows finds a row exactly if the table has one. */
  lemma FindsRow(rows: seq<Row>, i: nat, port: int, network: string)
    requires Distinct(rows) && i < |rows| && At(rows[i], port, network)
    ensures FirstEndpoint(rows, 0, port, network) == i
  {
    hide FirstEndpoint;
    FirstEndpointMeaning(rows, 0, port, network);
  }

  lemma FindsNothing(rows: seq<Row>, port: int, network: string)
    requires forall i :: 0 <= i < |rows| ==> !At(rows[i], port, network)
    ensures FirstEndpoint(rows, 0, port, network) == -1
  {
    hide FirstEndpoint;
    FirstEndpointMeaning(rows, 0, port, network);
  }

  lemma SameLookup(rows: seq<Row>, kept: seq<Row>, at: seq<nat>, port: int, network: string, p: int, n: string)
    requires Distinct(rows) && Picks(rows, kept, at) && forall i :: i in at <==> 0 <= i < |rows| && !At(rows[i], port, network)
    ensures var i, j := FirstEndpoint(rows, 0, p, n), FirstEndpoint(kept, 0, p, n);
            && (p == port && n == network ==> j == -1)
            && (!(p == port && n == network) ==> (i == -1 <==> j == -1) && (i >= 0 ==> kept[j] == rows[i]))
  {
    hide FirstEndpoint;
    FirstEndpointMeaning(rows, 0, p, n);
    FirstEndpointMeaning(kept, 0, p, n);
    var i, j := FirstEndpoint(rows, 0, p, n), FirstEndpoint(kept, 0, p, n);
    if j >= 0 {
      assert kept[j] == rows[at[j]] && at[j] in at;
      FindsRow(rows, at[j], p, n);
    }
    if i >= 0 && !At(rows[i], port, network) {
      assert i in at;
      var k :| 0 <= k < |at| && at[k] == i;
      assert kept[k] == rows[i];
    }
  }

  lemma RemovesEndpoint(s: Registry, port: int, network: string, p: int, n: string)
    requires Inv(s)
    ensures var t := Apply(s, RemoveEndpoint(port, network));
            var i, j := FindEndpoint(s, p, n).0, FindEndpoint(t, p, n).0;
            && -1 <= i < |s.rows| && -1 <= j < |t.rows|
            && (p == port && n == network ==> j == -1)
            && (!(p == port && n == network) ==> (i == -1 <==> j == -1) && (i >= 0 ==> t.rows[j] == s.rows[i]))
            && t.nextId == s.nextId && t.processes == s.processes
            && t.watermark == (if t.rows == [] then 0 else s.watermark)
  {
    var at := EndpointPicks(s.rows, |s.rows|, port, network);
    hide Apply, Endpoint, FindEndpoint, FirstEndpoint, Covered, Numbered, Watched, WithoutEndpoint;
    var t := Apply(s, RemoveEndpoint(port, network));
    RemoveApplies(s, port, network);
    StepKeeps(s, RemoveEndpoint(port, network));
    FindEndpointIsLinear(s, p, n);
    FindEndpointIsLinear(t, p, n);
    SameLookup(s.rows, t.rows, at, port, network, p, n);
  }

  /** In every run, once an endpoint is removed no lookup finds it, and every other
      endpoint's lookup finds the row it found before. */
  lemma EndpointIsRemoved(pid: nat, endpoints: bool, ports: bool, ops: seq<Op>, port: int, network: string, p: int, n: string)
    ensures var s := Run(Init(pid, endpoints, ports), ops);
            var t := Apply(s, RemoveEndpoint(port, network));
            var i, j := FindEndpoint(s, p, n).0, FindEndpoint(t, p, n).0;
            && -1 <= i < |s.rows| && -1 <= j < |t.rows|
            && (p == port && n == network ==> j == -1)
            && (!(p == port && n == network) ==> (i == -1 <==> j == -1) && (i >= 0 ==> t.rows[j] == s.rows[i]))
            && t.nextId == s.nextId && t.processes == s.processes
            && t.watermark == (if t.rows == [] then 0 else s.watermark)
  {
    hide *;
    RunKeeps(pid, endpoints, ports, ops);
    RemovesEndpoint(Run(Init(pid, endpoints, ports), ops), port, network, p, n);
  }

  lemma {:induction false} IdPicks(rows: seq<Row>, from: nat, id: string)
    requires from <= |rows| && forall k :: 0 <= k < from ==> rows[k].id != id
    ensures var kept := WithoutId(rows, from, id);
            if exists k :: 0 <= k < |rows| && rows[k].id == id then
              exists i :: 0 <= i < |rows| && rows[i].id == id && (forall k :: 0 <= k < i ==> rows[k].id != id)
                          && kept == rows[..i] + rows[i + 1..]
            else kept == rows
    decreases |rows| - from
  {
    if from < |rows| && rows[from].id != id {
      IdPicks(rows, from + 1, id);
    }
  }

  /** Row `i` alone is gone. */
  ghost predicate TakesOut(rows: seq<Row>, kept: seq<Row>, id: string, i: int) {
    0 <= i < |rows| && rows[i].id == id && kept == rows[..i] + rows[i + 1..]
  }

  lemma IdIsGone(rows: seq<Row>, kept: seq<Row>, id: string, i: int)
    requires TakesOut(rows, kept, id, i) && forall j, k :: 0 <= j < k < |rows| ==> rows[j].id != rows[k].id
    ensures |kept| == |rows| - 1 && forall k :: 0 <= k < |kept| ==> kept[k].id != id
  {
    forall k | 0 <= k < |kept| ensures kept[k].id != id {
      assert kept[k] == rows[if k < i then k else k + 1];
    }
  }

  lemma ReleasesId(s: Registry, id: string)
    requires forall j, k :: 0 <= j < k < |s.rows| ==> s.rows[j].id != s.rows[k].id
    ensures var t := Apply(s, RemoveAllocation(id));
            && (forall k :: 0 <= k < |t.rows| ==> t.rows[k].id != id)
            && (if exists i :: 0 <= i < |s.rows| && s.rows[i].id == id then exists i :: TakesOut(s.rows, t.rows, id, i) else t == s)
            && t.nextId == s.nextId && t.processes == s.processes
  {
    hide Apply, WithoutId;
    ReleaseApplies(s, id);
    IdPicks(s.rows, 0, id);
    var kept := WithoutId(s.rows, 0, id);
    if exists k :: 0 <= k < |s.rows| && s.rows[k].id == id {
      var i :| 0 <= i < |s.rows| && s.rows[i].id == id && (forall k :: 0 <= k < i ==> s.rows[k].id != id)
               && kept == s.rows[..i] + s.rows[i + 1..];
      assert TakesOut(s.rows, kept, id, i);
      IdIsGone(s.rows, kept, id, i);
    }
  }

  /** In every run, releasing an id takes out the one row that has it, and nothing if
      there is none. */
  lemma AllocationIsRemoved(pid: nat, endpoints: bool, ports: bool, ops: seq<Op>, id: string)
    ensures var s := Run(Init(pid, endpoints, ports), ops);
            var t := Apply(s, RemoveAllocation(id));
            && (forall k :: 0 <= k < |t.rows| ==> t.rows[k].id != id)
            && (if exists i :: 0 <= i < |s.rows| && s.rows[i].id == id then exists i :: TakesOut(s.rows, t.rows, id, i) else t == s)
            && t.nextId == s.nextId && t.processes == s.processes
  {
    hide *;
    LookupsAreExact(pid, endpoints, ports, ops, 0, "");
    ReleasesId(Run(Init(pid, endpoints, ports), ops), id);
  }

  // --------------------------------------------------------------------- expiry

  /** Past its time, and a scan that worked did not find its port listening. */
  predicate Lapsed(r: Row, now: int, scan: Scan) {
    r.expires <= now && scan.Listening? && r.actualPort !in scan.ports
  }

  /** A row that is kept past its time is given a second if the scan failed, and
      another 300 if its port was found listening. */
  predicate RenewedFrom(r: Row, kept: Row, now: int, scan: Scan) {
    kept == r.(expires := if r.expires > now then r.expires else if scan.Failed? then now + 1 else now + 300)
  }

  /** `kept` are the rows that had not lapsed, renewed, in order. */
  ghost predicate Sweeps(rows: seq<Row>, n: nat, kept: seq<Row>, at: seq<nat>, now: int, scan: Scan)
    requires n <= |rows|
  {
    && |at| == |kept| && (forall j, k :: 0 <= j < k < |at| ==> at[j] < at[k])
    && (forall k :: 0 <= k < |at| ==> at[k] < |rows| && RenewedFrom(rows[at[k]], kept[k], now, scan))
    && (forall i :: i in at <==> 0 <= i < n && !Lapsed(rows[i], now, scan))
  }

  ghost predicate Earliest(rows: seq<Row>, at: int) {
    && (rows == [] ==> at == 0)
    && (rows != [] ==> exists k :: 0 <= k < |rows| && rows[k].expires == at)
    && (forall k :: 0 <= k < |rows| ==> at <= rows[k].expires)
  }

  lemma {:induction false} SweepPicks(rows: seq<Row>, n: nat, now: int, scan: Scan) returns (at: seq<nat>)
    requires n <= |rows|
    ensures Sweeps(rows, n, Swept(rows, n, now, scan), at, now, scan)
  {
    at := [];
    if n > 0 {
      at := SweepPicks(rows, n - 1, now, scan);
      if !Lapsed(rows[n - 1], now, scan) {
        at := at + [n - 1];
      }
    }
  }

  lemma {:induction false} LeastExpiry(rows: seq<Row>)
    requires forall k :: 0 <= k < |rows| ==> rows[k].expires > 0
    ensures Earliest(rows, NextExpiry(rows))
  {
    if rows != [] {
      var n := |rows| - 1;
      LeastExpiry(rows[..n]);
      if rows[n].expires == NextExpiry(rows) {
        assert rows[n].expires == NextExpiry(rows);
      } else {
        var k :| 0 <= k < n && rows[..n][k].expires == NextExpiry(rows[..n]);
        assert rows[k].expires == NextExpiry(rows);
      }
    }
  }

  lemma NoneEarliest(rows: seq<Row>)
    ensures rows == [] ==> Earliest(rows, 0)
  {}

  lemma DropsLapsed(s: Registry, now: int, scan: Scan) returns (at: seq<nat>)
    requires Inv(s)
    requires now >= 0
    ensures var t := Apply(s, Clean(now, scan));
            && Sweeps(s.rows, |s.rows|, t.rows, at, now, scan) && t.nextId == s.nextId && t.processes == s.processes
            && (s.watermark <= now ==> Earliest(t.rows, t.watermark))
  {
    hide Apply, Swept, NextExpiry, Distinct, Numbered, Covered, Watched, Sweeps, Drawn, Earliest;
    SkippedCleanupIsFull(s, now, scan);
    at := SweepPicks(s.rows, |s.rows|, now, scan);
    var from := SweptDrawn(s.rows, |s.rows|, now, scan);
    CleanApplies(s, now, scan);
    LeastExpiry(Swept(s.rows, |s.rows|, now, scan));
    NoneEarliest(s.rows);
  }

  /** In every run a cleanup drops exactly the lapsed rows and renews the others, in
      order; if it looked at the rows at all, the watermark becomes the earliest
      expiry left. */
  lemma CleanupDropsTheLapsed(pid: nat, endpoints: bool, ports: bool, ops: seq<Op>, now: int, scan: Scan) returns (at: seq<nat>)
    requires now >= 0
    ensures var s := Run(Init(pid, endpoints, ports), ops);
            var t := Apply(s, Clean(now, scan));
            && Sweeps(s.rows, |s.rows|, t.rows, at, now, scan) && t.nextId == s.nextId && t.processes == s.processes
            && (s.watermark <= now ==> Earliest(t.rows, t.watermark))
  {
    hide *;
    RunKeeps(pid, endpoints, ports, ops);
    at := DropsLapsed(Run(Init(pid, endpoints, ports), ops), now, scan);
  }

  // ------------------------------------------------------------- new and renewed

  lemma InsertedRest(s: Registry, port: int, network: string, actualPort: int, now: int)
    ensures Inserted(s, port, network, actualPort, now).processes == s.processes
  {
    hide EndpointSlot, AllocationId;
  }

  lemma InsertsRow(s: Registry, port: int, network: string, actualPort: int, now: int)
    requires Inv(s)
    requires now >= 0
    ensures var t := Apply(s, Insert(port, network, actualPort, now));
            var free := (forall i :: 0 <= i < |s.rows| ==> !At(s.rows[i], port, network) && s.rows[i].actualPort != actualPort)
                        && !ProcessUses(s.processes, actualPort);
            && (free ==>
                  && t.rows == s.rows + [Row(AllocationId(s.pid, s.nextId), s.nextId, port, network, actualPort, now + 300)]
                  && t.nextId == s.nextId + 1 && t.processes == s.processes
                  && FindEndpoint(t, port, network).0 == |s.rows| && FindReserved(t, actualPort).0)
            && (!free ==> t == s)
  {
    var op := Insert(port, network, actualPort, now);
    hide FindEndpoint, FindReserved, FirstEndpoint, FirstPort, Inserted, AllocationId, ProcessUses, Covered, Numbered, Watched;
    FindEndpointIsLinear(s, port, network);
    FindReservedIsLinear(s, actualPort);
    FirstEndpointMeaning(s.rows, 0, port, network);
    var t := Apply(s, op);
    if Enabled(s, op) {
      InsertedKeeps(s, port, network, actualPort, now);
      InsertedCovered(s, port, network, actualPort, now);
      InsertedRest(s, port, network, actualPort, now);
      assert At(t.rows[|s.rows|], port, network) && t.rows[|s.rows|].actualPort == actualPort;
      FindEndpointIsLinear(t, port, network);
      FindReservedIsLinear(t, actualPort);
      FindsRow(t.rows, |s.rows|, port, network);
    }
  }

  /** In every run a row may be inserted exactly if its endpoint has none and nobody
      has its port; it is then the one both lookups find, under the next id, for
      300 seconds. */
  lemma InsertedIsFound(pid: nat, endpoints: bool, ports: bool, ops: seq<Op>, port: int, network: string, actualPort: int, now: int)
    requires now >= 0
    ensures var s := Run(Init(pid, endpoints, ports), ops);
            var t := Apply(s, Insert(port, network, actualPort, now));
            var free := (forall i :: 0 <= i < |s.rows| ==> !At(s.rows[i], port, network) && s.rows[i].actualPort != actualPort)
                        && !ProcessUses(s.processes, actualPort);
            && (free ==>
                  && t.rows == s.rows + [Row(AllocationId(s.pid, s.nextId), s.nextId, port, network, actualPort, now + 300)]
                  && t.nextId == s.nextId + 1 && t.processes == s.processes
                  && FindEndpoint(t, port, network).0 == |s.rows| && FindReserved(t, actualPort).0)
            && (!free ==> t == s)
  {
    hide *;
    RunKeeps(pid, endpoints, ports, ops);
    InsertsRow(Run(Init(pid, endpoints, ports), ops), port, network, actualPort, now);
  }

  lemma RenewsRow(s: Registry, port: int, network: string, now: int, i: nat)
    requires Inv(s)
    requires now >= 0 && i < |s.rows|
    requires At(s.rows[i], port, network)
    ensures var t := Apply(s, Extend(port, network, now));
            && t.rows == s.rows[i := s.rows[i].(expires := now + 300)] && t.nextId == s.nextId && t.processes == s.processes
            && t.watermark == (if now + 300 < s.watermark then now + 300 else s.watermark)
  {
    hide Apply, FindEndpoint, FirstEndpoint, Numbered, Covered;
    FindEndpointIsLinear(s, port, network);
    FindsRow(s.rows, i, port, network);
    ExtendApplies(s, port, network, now);
  }

  /** In every run extending an endpoint gives its row another 300 seconds from now
      and changes nothing else about any row. */
  lemma ExtendedIsRenewed(pid: nat, endpoints: bool, ports: bool, ops: seq<Op>, port: int, network: string, now: int, i: nat)
    requires now >= 0 && i < |Run(Init(pid, endpoints, ports), ops).rows|
    requires At(Run(Init(pid, endpoints, ports), ops).rows[i], port, network)
    ensures var s := Run(Init(pid, endpoints, ports), ops);
            var t := Apply(s, Extend(port, network, now));
            && t.rows == s.rows[i := s.rows[i].(expires := now + 300)] && t.nextId == s.nextId && t.processes == s.processes
            && t.watermark == (if now + 300 < s.watermark then now + 300 else s.watermark)
  {
    hide *;
    RunKeeps(pid, endpoints, ports, ops);
    RenewsRow(Run(Init(pid, endpoints, ports), ops), port, network, now, i);
  }

  /** Two published check values of 32-bit FNV-1a. */
  lemma HashVectors()
    ensures Hash("") == 0x811c9dc5 && Hash("a") == 0xe40c292c
  {
    assert "a"[..0] == "";
  }
}
