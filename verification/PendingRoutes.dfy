/** The table of pending routes: rows reserved for processes that have not
    registered yet, unreliable index hints into it, and a conservative expiry
    watermark. */
module PendingRoutes {
  import opened Common
  import opened Text

  const SLOTS: nat := 65536
  const UINT_MAX: nat := 0xffff_ffff
  const TTL_SECONDS: nat := 300

  /** `number` is the allocation number the id was printed from. */
  datatype Row = Row(id: string, number: nat, logicalPort: int, network: string, actualPort: int, expires: int)

  datatype Process = Process(running: bool, detected: bool, port: int)

  /** A hint is a one-based row index, 0 if never set. An empty hint table is one
      that could not be allocated. `watermark` is the next expiry scan, 0 if none. */
  datatype Registry = Registry(
    pid: nat, rows: seq<Row>, endpointHints: seq<nat>, portHints: seq<nat>, watermark: int, nextId: nat,
    processes: seq<Process>)

  /** `pm_endpoint_identity`. */
  function Endpoint(port: int, network: string): string { network + ":" + Decimal(port) }

  function AllocationId(pid: nat, number: nat): string {
    "allocation:native:" + Decimal(pid) + ":" + Decimal(number)
  }

  /** 32-bit FNV-1a. */
  function Hash(text: string): bv32 {
    if text == [] then 0x811c9dc5
    else (Hash(text[..|text| - 1]) ^ (text[|text| - 1] as int as bv32)) * 0x01000193
  }

  function EndpointSlot(port: int, network: string): (slot: nat)
    ensures slot < SLOTS
  {
    (Hash(network) ^ ((port % 0x1_0000_0000) as bv32 * 0x9e3779b1)) as int % SLOTS
  }

  // ------------------------------------------------------------ linear meanings

  /** First row from `at` with this endpoint, -1 if none. */
  function FirstEndpoint(rows: seq<Row>, at: nat, port: int, network: string): (i: int)
    requires at <= |rows|
    ensures -1 <= i < |rows|
    decreases |rows| - at
  {
    if at == |rows| then -1
    else if Endpoint(rows[at].logicalPort, rows[at].network) == Endpoint(port, network) then at
    else FirstEndpoint(rows, at + 1, port, network)
  }

  /** First row from `at` with this actual port, -1 if none. */
  function FirstPort(rows: seq<Row>, at: nat, port: int): (i: int)
    requires at <= |rows|
    ensures -1 <= i < |rows|
    ensures i == -1 <==> forall k :: at <= k < |rows| ==> rows[k].actualPort != port
    ensures i >= 0 ==> i >= at && rows[i].actualPort == port
    decreases |rows| - at
  {
    if at == |rows| then -1
    else if rows[at].actualPort == port then at
    else FirstPort(rows, at + 1, port)
  }

  predicate ProcessUses(processes: seq<Process>, port: int) {
    exists k :: 0 <= k < |processes| && processes[k].running && !processes[k].detected && processes[k].port == port
  }

  /** A port some pending row or some registered running process has. */
  predicate Reserved(rows: seq<Row>, processes: seq<Process>, port: int) {
    FirstPort(rows, 0, port) >= 0 || ProcessUses(processes, port)
  }

  lemma EndpointInjective(a: int, m: string, b: int, n: string)
    ensures Endpoint(a, m) == Endpoint(b, n) <==> a == b && m == n
  {
    if Endpoint(a, m) == Endpoint(b, n) {
      DecimalHasNoColon(a);
      DecimalHasNoColon(b);
      LastColonSplits(m, Decimal(a), n, Decimal(b));
      DecimalInjective(a, b);
    }
  }

  lemma AllocationIdInjective(pid: nat, a: nat, b: nat)
    requires AllocationId(pid, a) == AllocationId(pid, b)
    ensures a == b
  {
    var prefix := "allocation:native:" + Decimal(pid) + ":";
    assert AllocationId(pid, a)[|prefix|..] == Decimal(a) && AllocationId(pid, b)[|prefix|..] == Decimal(b);
    DecimalInjective(a, b);
  }

  lemma {:induction false} FirstEndpointMeaning(rows: seq<Row>, at: nat, port: int, network: string)
    requires at <= |rows|
    ensures var i := FirstEndpoint(rows, at, port, network);
      && (i >= 0 ==> i >= at && rows[i].logicalPort == port && rows[i].network == network)
      && (i == -1 <==> forall k :: at <= k < |rows| ==> !(rows[k].logicalPort == port && rows[k].network == network))
    decreases |rows| - at
  {
    hide Endpoint;
    if at < |rows| {
      FirstEndpointMeaning(rows, at + 1, port, network);
      EndpointInjective(rows[at].logicalPort, rows[at].network, port, network);
    }
  }

  // ------------------------------------------------------------------- lookups

  /** Records where row `i` is; an index too large for a hint disables hints. */
  function Remember(s: Registry, i: nat): Registry {
    if i >= |s.rows| then s
    else if i >= UINT_MAX then s.(endpointHints := [], portHints := [])
    else
      var r := s.rows[i];
      var slot := EndpointSlot(r.logicalPort, r.network);
      s.(endpointHints := if slot < |s.endpointHints| then s.endpointHints[slot := i + 1] else s.endpointHints,
         portHints := if ValidPort(r.actualPort) && r.actualPort < |s.portHints| then s.portHints[r.actualPort := i + 1]
                      else s.portHints)
  }

  predicate Hinted(s: Registry, port: int, network: string, hint: nat) {
    0 < hint <= |s.rows| && s.rows[hint - 1].logicalPort == port && s.rows[hint - 1].network == network
  }

  /** The row found for an endpoint through its slot, and the hints afterwards. */
  function FindAt(s: Registry, port: int, network: string, slot: nat): (int, Registry) {
    if slot < |s.endpointHints| && s.endpointHints[slot] == 0 then (-1, s)
    else if slot < |s.endpointHints| && Hinted(s, port, network, s.endpointHints[slot]) then (s.endpointHints[slot] - 1, s)
    else
      var i := FirstEndpoint(s.rows, 0, port, network);
      if i < 0 then (-1, s) else (i, Remember(s, i))
  }

  function FindEndpoint(s: Registry, port: int, network: string): (int, Registry) {
    FindAt(s, port, network, EndpointSlot(port, network))
  }

  /** Whether a port is reserved, and the hints afterwards. */
  function FindReserved(s: Registry, port: int): (bool, Registry) {
    var hinted := ValidPort(port) && port < |s.portHints|;
    if hinted && s.portHints[port] == 0 then (ProcessUses(s.processes, port), s)
    else if hinted && s.portHints[port] <= |s.rows| && s.rows[s.portHints[port] - 1].actualPort == port then (true, s)
    else
      var i := FirstPort(s.rows, 0, port);
      if i >= 0 then (true, Remember(s, i))
      else (ProcessUses(s.processes, port), if hinted then s.(portHints := s.portHints[port := 0]) else s)
  }

  // ---------------------------------------------------------------- invariants

  ghost predicate Distinct(rows: seq<Row>) {
    forall i, j :: 0 <= i < j < |rows| ==>
      && !(rows[i].logicalPort == rows[j].logicalPort && rows[i].network == rows[j].network)
      && rows[i].actualPort != rows[j].actualPort && rows[i].number != rows[j].number
  }

  ghost predicate Numbered(rows: seq<Row>, pid: nat, nextId: nat) {
    forall i :: 0 <= i < |rows| ==> rows[i].number < nextId && rows[i].id == AllocationId(pid, rows[i].number)
  }

  /** A slot that was never set, or was cleared, has no row behind it. */
  ghost predicate Covered(rows: seq<Row>, endpointHints: seq<nat>, portHints: seq<nat>) {
    && (|endpointHints| == SLOTS || endpointHints == []) && (|portHints| == SLOTS || portHints == [])
    && (forall i :: 0 <= i < |rows| && endpointHints != [] ==>
          endpointHints[EndpointSlot(rows[i].logicalPort, rows[i].network)] != 0)
    && (forall i :: 0 <= i < |rows| && portHints != [] && ValidPort(rows[i].actualPort) ==> portHints[rows[i].actualPort] != 0)
  }

  /** The watermark is never later than any row's expiry. */
  ghost predicate Watched(rows: seq<Row>, watermark: int) {
    watermark >= 0 && (rows != [] ==> watermark > 0) && forall i :: 0 <= i < |rows| ==> watermark <= rows[i].expires
  }

  ghost predicate Inv(s: Registry) {
    && Distinct(s.rows) && Numbered(s.rows, s.pid, s.nextId)
    && Covered(s.rows, s.endpointHints, s.portHints) && Watched(s.rows, s.watermark)
  }

  lemma RememberCovered(s: Registry, i: nat)
    requires Covered(s.rows, s.endpointHints, s.portHints)
    ensures var t := Remember(s, i);
      && Covered(t.rows, t.endpointHints, t.portHints)
      && t == s.(endpointHints := t.endpointHints, portHints := t.portHints)
      && (i < |s.rows| && t.endpointHints != [] ==>
            t.endpointHints[EndpointSlot(s.rows[i].logicalPort, s.rows[i].network)] != 0)
      && (i < |s.rows| && t.portHints != [] && ValidPort(s.rows[i].actualPort) ==> t.portHints[s.rows[i].actualPort] != 0)
  {
    hide EndpointSlot;
  }

  /** Hints never change the answer: a hinted lookup finds what a scan of the
      whole table finds, whatever compaction and collisions did to the hints. */
  lemma FindEndpointIsLinear(s: Registry, port: int, network: string)
    requires Inv(s)
    ensures FindEndpoint(s, port, network).0 == FirstEndpoint(s.rows, 0, port, network)
    ensures Inv(FindEndpoint(s, port, network).1) && SameRows(s, FindEndpoint(s, port, network).1)
  {
    hide EndpointSlot, FirstEndpoint, Remember, Numbered, Watched;
    FirstEndpointMeaning(s.rows, 0, port, network);
    var i := FirstEndpoint(s.rows, 0, port, network);
    if i >= 0 {
      RememberCovered(s, i);
    }
  }

  lemma FindReservedIsLinear(s: Registry, port: int)
    requires Inv(s)
    ensures FindReserved(s, port).0 == Reserved(s.rows, s.processes, port)
    ensures Inv(FindReserved(s, port).1) && SameRows(s, FindReserved(s, port).1)
  {
    hide EndpointSlot, FirstPort, Remember, Numbered, Watched, Distinct, ProcessUses;
    var i := FirstPort(s.rows, 0, port);
    if i >= 0 {
      RememberCovered(s, i);
    }
  }

  /** Everything but the hints. */
  predicate SameRows(s: Registry, t: Registry) {
    t == s.(endpointHints := t.endpointHints, portHints := t.portHints)
  }

  // -------------------------------------------------------------------- expiry

  /** What an expiry pass makes of one row: `scan` is the ports found listening,
      or nothing when the scan failed. */
  datatype Scan = Failed | Listening(ports: seq<int>)

  predicate Keeps(r: Row, now: int, scan: Scan) {
    r.expires > now || scan.Failed? || r.actualPort in scan.ports
  }

  function Renew(r: Row, now: int, scan: Scan): Row {
    if r.expires > now then r
    else if scan.Failed? then r.(expires := now + 1)
    else r.(expires := now + TTL_SECONDS)
  }

  /** The rows after a full pass over the first `n`. */
  function Swept(rows: seq<Row>, n: nat, now: int, scan: Scan): (kept: seq<Row>)
    requires n <= |rows|
    ensures |kept| <= n
  {
    if n == 0 then []
    else
      var r := rows[n - 1];
      Swept(rows, n - 1, now, scan) + if Keeps(r, now, scan) then [Renew(r, now, scan)] else []
  }

  /** Least expiry, 0 for no rows. */
  function NextExpiry(rows: seq<Row>): int {
    if rows == [] then 0
    else
      var next := NextExpiry(rows[..|rows| - 1]);
      if next == 0 || rows[|rows| - 1].expires < next then rows[|rows| - 1].expires else next
  }

  function Cleanup(s: Registry, now: int, scan: Scan): Registry {
    if s.rows == [] then s.(watermark := 0)
    else if s.watermark > now then s
    else
      var rows := Swept(s.rows, |s.rows|, now, scan);
      s.(rows := rows, watermark := NextExpiry(rows))
  }

  lemma {:induction false} SweptSame(rows: seq<Row>, n: nat, now: int, scan: Scan)
    requires n <= |rows| && forall i :: 0 <= i < n ==> rows[i].expires > now
    ensures Swept(rows, n, now, scan) == rows[..n]
  {
    if n > 0 {
      SweptSame(rows, n - 1, now, scan);
    }
  }

  /** Skipping a pass before the watermark changes no row a full pass would have
      left different, whatever the scan would have said. */
  lemma SkippedCleanupIsFull(s: Registry, now: int, scan: Scan)
    requires Inv(s)
    ensures Cleanup(s, now, scan).rows == Swept(s.rows, |s.rows|, now, scan)
  {
    if s.rows != [] && s.watermark > now {
      SweptSame(s.rows, |s.rows|, now, scan);
      assert s.rows[..|s.rows|] == s.rows;
    }
  }

  /** Row `i` of the table survives at this place. */
  function PlaceOf(rows: seq<Row>, i: nat, now: int, scan: Scan): nat
    requires i <= |rows|
  {
    |Swept(rows, i, now, scan)|
  }

  lemma {:induction false} SweptAt(rows: seq<Row>, n: nat, i: nat, now: int, scan: Scan)
    requires i < n <= |rows|
    ensures var kept := Swept(rows, n, now, scan);
      && (Keeps(rows[i], now, scan) ==>
            PlaceOf(rows, i, now, scan) < |kept| && kept[PlaceOf(rows, i, now, scan)] == Renew(rows[i], now, scan))
      && PlaceOf(rows, i, now, scan) <= PlaceOf(rows, i + 1, now, scan) <= |kept|
  {
    if i < n - 1 {
      SweptAt(rows, n - 1, i, now, scan);
    }
  }

  /** Where a kept row came from. */
  lemma {:induction false} SweptFrom(rows: seq<Row>, n: nat, k: nat, now: int, scan: Scan) returns (i: nat)
    requires n <= |rows| && k < |Swept(rows, n, now, scan)|
    ensures k <= i < n && Keeps(rows[i], now, scan) && Swept(rows, n, now, scan)[k] == Renew(rows[i], now, scan)
    ensures PlaceOf(rows, i, now, scan) == k
  {
    if k < |Swept(rows, n - 1, now, scan)| {
      i := SweptFrom(rows, n - 1, k, now, scan);
    } else {
      i := n - 1;
    }
  }

  /** An expired row is removed exactly when a successful scan lacks its port. */
  lemma RemovedOnlyWhenNotListening(s: Registry, i: nat, now: int, scan: Scan)
    requires Inv(s) && i < |s.rows|
    ensures (exists k :: 0 <= k < |Cleanup(s, now, scan).rows| && Cleanup(s, now, scan).rows[k].number == s.rows[i].number)
            <==> !(s.rows[i].expires <= now && scan.Listening? && s.rows[i].actualPort !in scan.ports)
  {
    SkippedCleanupIsFull(s, now, scan);
    SweptAt(s.rows, |s.rows|, i, now, scan);
    var kept := Cleanup(s, now, scan).rows;
    if k :| 0 <= k < |kept| && kept[k].number == s.rows[i].number {
      var j := SweptFrom(s.rows, |s.rows|, k, now, scan);
      assert s.rows[j].number == s.rows[i].number;
      assert j == i;
    }
  }

  // ---------------------------------------------------------------- operations

  datatype Op =
    | Probe(port: int)
    | ProbeEndpoint(logicalPort: int, network: string)
    | Extend(logicalPort: int, network: string, now: int)
    | Insert(logicalPort: int, network: string, actualPort: int, now: int)
    | Clean(now: int, scan: Scan)
    | RemoveAllocation(id: string)
    | RemoveEndpoint(logicalPort: int, network: string)
    | SetProcesses(processes: seq<Process>)

  function Init(pid: nat, endpoints: bool, ports: bool): Registry {
    Registry(pid, [], if endpoints then seq(SLOTS, _ => 0) else [], if ports then seq(SLOTS, _ => 0) else [], 0, 0, [])
  }

  /** `pm_note_pending_expiry`. */
  function Note(watermark: int, expires: int): int {
    if watermark == 0 || expires < watermark then expires else watermark
  }

  function WithoutId(rows: seq<Row>, at: nat, id: string): seq<Row>
    requires at <= |rows|
    decreases |rows| - at
  {
    if at == |rows| then rows
    else if rows[at].id == id then rows[..at] + rows[at + 1..]
    else WithoutId(rows, at + 1, id)
  }

  function WithoutEndpoint(rows: seq<Row>, n: nat, port: int, network: string): (kept: seq<Row>)
    requires n <= |rows|
    ensures |kept| <= n
  {
    if n == 0 then []
    else
      var r := rows[n - 1];
      WithoutEndpoint(rows, n - 1, port, network)
      + if Endpoint(r.logicalPort, r.network) != Endpoint(port, network) then [r] else []
  }

  /** An emptied table has no watermark. */
  function Removed(s: Registry, rows: seq<Row>, changed: bool): Registry {
    s.(rows := rows, watermark := if rows == [] && changed then 0 else s.watermark)
  }

  /** A new row, once both lookups have found nothing in its way. */
  function Inserted(s: Registry, port: int, network: string, actualPort: int, now: int): Registry {
    var row := Row(AllocationId(s.pid, s.nextId), s.nextId, port, network, actualPort, now + TTL_SECONDS);
    var t := Remember(s.(rows := s.rows + [row], nextId := s.nextId + 1), |s.rows|);
    t.(watermark := Note(s.watermark, now + TTL_SECONDS))
  }

  function Extended(s: Registry, i: nat, now: int): Registry
    requires i < |s.rows|
  {
    s.(rows := s.rows[i := s.rows[i].(expires := now + TTL_SECONDS)], watermark := Note(s.watermark, now + TTL_SECONDS))
  }

  predicate Enabled(s: Registry, op: Op) {
    match op
    case Extend(port, network, now) => now >= 0 && FindEndpoint(s, port, network).0 >= 0
    case Insert(port, network, actualPort, now) =>
      now >= 0 && FindEndpoint(s, port, network).0 < 0 && !FindReserved(s, actualPort).0
    case Clean(now, _) => now >= 0
    case _ => true
  }

  function Apply(s: Registry, op: Op): Registry {
    if !Enabled(s, op) then s
    else match op
      case Probe(port) => FindReserved(s, port).1
      case ProbeEndpoint(port, network) => FindEndpoint(s, port, network).1
      case Extend(port, network, now) =>
        var found := FindEndpoint(s, port, network);
        if found.0 < |found.1.rows| then Extended(found.1, found.0, now) else s
      case Insert(port, network, actualPort, now) => Inserted(s, port, network, actualPort, now)
      case Clean(now, scan) => Cleanup(s, now, scan)
      case RemoveAllocation(id) => Removed(s, WithoutId(s.rows, 0, id), |WithoutId(s.rows, 0, id)| < |s.rows|)
      case RemoveEndpoint(port, network) => Removed(s, WithoutEndpoint(s.rows, |s.rows|, port, network), true)
      case SetProcesses(processes) => s.(processes := processes)
  }

  function Run(s: Registry, ops: seq<Op>): Registry {
    if ops == [] then s else Apply(Run(s, ops[..|ops| - 1]), ops[|ops| - 1])
  }

  // -------------------------------------------------------------- preservation

  /** `kept` is drawn from `rows` at rising places `at`, expiry aside. */
  ghost predicate Drawn(rows: seq<Row>, kept: seq<Row>, at: seq<nat>) {
    && |at| == |kept|
    && (forall k :: 0 <= k < |at| ==> at[k] < |rows| && kept[k] == rows[at[k]].(expires := kept[k].expires))
    && (forall j, k :: 0 <= j < k < |at| ==> at[j] < at[k])
  }

  lemma DrawnKeeps(s: Registry, kept: seq<Row>, at: seq<nat>)
    requires Inv(s) && Drawn(s.rows, kept, at)
    ensures Distinct(kept) && Numbered(kept, s.pid, s.nextId) && Covered(kept, s.endpointHints, s.portHints)
  {
    hide EndpointSlot, AllocationId, Watched;
  }

  lemma {:induction false} SweptDrawn(rows: seq<Row>, n: nat, now: int, scan: Scan) returns (at: seq<nat>)
    requires n <= |rows|
    ensures Drawn(rows, Swept(rows, n, now, scan), at) && forall k :: 0 <= k < |at| ==> at[k] < n
    ensures forall k :: 0 <= k < |Swept(rows, n, now, scan)| ==> Swept(rows, n, now, scan)[k].expires > now
  {
    at := [];
    if n > 0 {
      at := SweptDrawn(rows, n - 1, now, scan);
      if Keeps(rows[n - 1], now, scan) {
        at := at + [n - 1];
      }
    }
  }

  lemma {:induction false} WithoutEndpointDrawn(rows: seq<Row>, n: nat, port: int, network: string) returns (at: seq<nat>)
    requires n <= |rows|
    ensures Drawn(rows, WithoutEndpoint(rows, n, port, network), at) && forall k :: 0 <= k < |at| ==> at[k] < n
    ensures forall k :: 0 <= k < |at| ==> WithoutEndpoint(rows, n, port, network)[k] == rows[at[k]]
  {
    hide Endpoint;
    at := [];
    if n > 0 {
      at := WithoutEndpointDrawn(rows, n - 1, port, network);
      if Endpoint(rows[n - 1].logicalPort, rows[n - 1].network) != Endpoint(port, network) {
        at := at + [n - 1];
      }
    }
  }

  lemma {:induction false} WithoutIdDrawn(rows: seq<Row>, from: nat, id: string) returns (at: seq<nat>)
    requires from <= |rows|
    ensures Drawn(rows, WithoutId(rows, from, id), at)
    ensures forall k :: 0 <= k < |at| ==> WithoutId(rows, from, id)[k] == rows[at[k]]
    decreases |rows| - from
  {
    if from == |rows| {
      at := seq(|rows|, i requires 0 <= i < |rows| => i);
    } else if rows[from].id == id {
      at := seq(|rows| - 1, i requires 0 <= i < |rows| - 1 => if i < from then i else i + 1);
    } else {
      at := WithoutIdDrawn(rows, from + 1, id);
    }
  }

  lemma {:induction false} NextExpiryLeast(rows: seq<Row>, now: int)
    requires now >= 0 && forall k :: 0 <= k < |rows| ==> rows[k].expires > now
    ensures Watched(rows, NextExpiry(rows)) && (rows != [] ==> NextExpiry(rows) > 0) && (rows == [] ==> NextExpiry(rows) == 0)
  {
    if rows != [] {
      NextExpiryLeast(rows[..|rows| - 1], now);
    }
  }

  lemma CleanupKeeps(s: Registry, now: int, scan: Scan)
    requires Inv(s) && now >= 0
    ensures Inv(Cleanup(s, now, scan))
  {
    if s.rows != [] && s.watermark <= now {
      var at := SweptDrawn(s.rows, |s.rows|, now, scan);
      hide Swept, NextExpiry, Distinct, Numbered, Covered;
      DrawnKeeps(s, Swept(s.rows, |s.rows|, now, scan), at);
      NextExpiryLeast(Swept(s.rows, |s.rows|, now, scan), now);
    }
  }

  lemma RemovedKeeps(s: Registry, kept: seq<Row>, at: seq<nat>, changed: bool)
    requires Inv(s) && Drawn(s.rows, kept, at) && forall k :: 0 <= k < |at| ==> kept[k] == s.rows[at[k]]
    ensures Inv(Removed(s, kept, changed))
  {
    DrawnKeeps(s, kept, at);
    hide Distinct, Numbered, Covered;
    if kept != [] {
      assert at[0] < |s.rows|;
      forall k | 0 <= k < |kept| ensures s.watermark <= kept[k].expires {
        assert kept[k] == s.rows[at[k]];
      }
    }
  }

  lemma InsertedDistinct(s: Registry, row: Row)
    requires Distinct(s.rows) && Numbered(s.rows, s.pid, s.nextId)
    requires FirstEndpoint(s.rows, 0, row.logicalPort, row.network) < 0 && FirstPort(s.rows, 0, row.actualPort) < 0
    requires row.number == s.nextId && row.id == AllocationId(s.pid, row.number)
    ensures Distinct(s.rows + [row]) && Numbered(s.rows + [row], s.pid, s.nextId + 1)
  {
    FirstEndpointMeaning(s.rows, 0, row.logicalPort, row.network);
    hide FirstEndpoint, FirstPort, AllocationId;
  }

  lemma InsertedKeeps(s: Registry, port: int, network: string, actualPort: int, now: int)
    requires Inv(s) && now >= 0 && FirstEndpoint(s.rows, 0, port, network) < 0 && !Reserved(s.rows, s.processes, actualPort)
    ensures Inv(Inserted(s, port, network, actualPort, now))
  {
    hide Inserted, FirstEndpoint, ProcessUses, FirstPort, Distinct, Numbered, Covered, AllocationId;
    var row := Row(AllocationId(s.pid, s.nextId), s.nextId, port, network, actualPort, now + TTL_SECONDS);
    InsertedCovered(s, port, network, actualPort, now);
    InsertedDistinct(s, row);
  }

  lemma InsertedCovered(s: Registry, port: int, network: string, actualPort: int, now: int)
    requires Covered(s.rows, s.endpointHints, s.portHints)
    ensures var t := Inserted(s, port, network, actualPort, now);
      && Covered(t.rows, t.endpointHints, t.portHints)
      && t.rows == s.rows + [Row(AllocationId(s.pid, s.nextId), s.nextId, port, network, actualPort, now + TTL_SECONDS)]
      && t.pid == s.pid && t.nextId == s.nextId + 1 && t.watermark == Note(s.watermark, now + TTL_SECONDS)
  {
    hide EndpointSlot, AllocationId;
  }

  lemma ExtendedKeeps(s: Registry, i: nat, now: int)
    requires Inv(s) && i < |s.rows| && now >= 0
    ensures Inv(Extended(s, i, now))
  {
    hide EndpointSlot, AllocationId;
  }

  lemma StepKeeps(s: Registry, op: Op)
    requires Inv(s)
    ensures Inv(Apply(s, op))
  {
    hide Inv, FindEndpoint, FindReserved, Inserted, Extended, Removed, Cleanup;
    if Enabled(s, op) {
      match op {
        case Probe(port) => FindReservedIsLinear(s, port);
        case ProbeEndpoint(port, network) => FindEndpointIsLinear(s, port, network);
        case Extend(port, network, now) =>
          FindEndpointIsLinear(s, port, network);
          var found := FindEndpoint(s, port, network);
          if found.0 < |found.1.rows| { ExtendedKeeps(found.1, found.0, now); }
        case Insert(port, network, actualPort, now) =>
          FindEndpointIsLinear(s, port, network);
          FindReservedIsLinear(s, actualPort);
          InsertedKeeps(s, port, network, actualPort, now);
        case Clean(now, scan) => CleanupKeeps(s, now, scan);
        case RemoveAllocation(id) =>
          var at := WithoutIdDrawn(s.rows, 0, id);
          RemovedKeeps(s, WithoutId(s.rows, 0, id), at, |WithoutId(s.rows, 0, id)| < |s.rows|);
        case RemoveEndpoint(port, network) =>
          var at := WithoutEndpointDrawn(s.rows, |s.rows|, port, network);
          RemovedKeeps(s, WithoutEndpoint(s.rows, |s.rows|, port, network), at, true);
        case SetProcesses(processes) => ProcessesKeep(s, processes);
      }
    }
  }

  lemma ProcessesKeep(s: Registry, processes: seq<Process>)
    requires Inv(s)
    ensures Inv(s.(processes := processes))
  {
    hide Distinct, Numbered, Covered;
  }

  lemma {:induction false} RunKeeps(pid: nat, endpoints: bool, ports: bool, ops: seq<Op>)
    ensures Inv(Run(Init(pid, endpoints, ports), ops))
  {
    if ops != [] {
      hide Inv, Apply;
      RunKeeps(pid, endpoints, ports, ops[..|ops| - 1]);
      StepKeeps(Run(Init(pid, endpoints, ports), ops[..|ops| - 1]), ops[|ops| - 1]);
    }
  }

  /** In every reachable state pending rows differ pairwise in endpoint, actual
      port and allocation id, and both lookups give the linear-scan answer. */
  lemma LookupsAreExact(pid: nat, endpoints: bool, ports: bool, ops: seq<Op>, port: int, network: string)
    ensures var s := Run(Init(pid, endpoints, ports), ops);
      && (forall i, j :: 0 <= i < j < |s.rows| ==>
            && Endpoint(s.rows[i].logicalPort, s.rows[i].network) != Endpoint(s.rows[j].logicalPort, s.rows[j].network)
            && s.rows[i].actualPort != s.rows[j].actualPort && s.rows[i].id != s.rows[j].id)
      && FindEndpoint(s, port, network).0 == FirstEndpoint(s.rows, 0, port, network)
      && FindReserved(s, port).0 == Reserved(s.rows, s.processes, port)
  {
    var s := Run(Init(pid, endpoints, ports), ops);
    RunKeeps(pid, endpoints, ports, ops);
    hide Run;
    FindEndpointIsLinear(s, port, network);
    FindReservedIsLinear(s, port);
    hide FindEndpoint, FindReserved, FirstEndpoint, FirstPort, Endpoint, AllocationId, Covered, Watched;
    forall i, j | 0 <= i < j < |s.rows|
      ensures Endpoint(s.rows[i].logicalPort, s.rows[i].network) != Endpoint(s.rows[j].logicalPort, s.rows[j].network)
      ensures s.rows[i].id != s.rows[j].id
    {
      EndpointInjective(s.rows[i].logicalPort, s.rows[i].network, s.rows[j].logicalPort, s.rows[j].network);
      if s.rows[i].id == s.rows[j].id {
        AllocationIdInjective(s.pid, s.rows[i].number, s.rows[j].number);
      }
    }
  }

  /** In every reachable state the watermark is no later than any expiry, so the
      skip is invisible: cleaning up equals a full pass. */
  lemma CleanupIsAlwaysFull(pid: nat, endpoints: bool, ports: bool, ops: seq<Op>, now: int, scan: Scan)
    ensures var s := Run(Init(pid, endpoints, ports), ops);
      && (forall i :: 0 <= i < |s.rows| ==> 0 < s.watermark <= s.rows[i].expires)
      && Cleanup(s, now, scan).rows == Swept(s.rows, |s.rows|, now, scan)
  {
    RunKeeps(pid, endpoints, ports, ops);
    hide Run;
    SkippedCleanupIsFull(Run(Init(pid, endpoints, ports), ops), now, scan);
  }
}
