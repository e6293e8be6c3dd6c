/** The pending-route table as requests change it in place. */
module RouteAllocator {
  import opened Common
  import opened Text
  import P = PendingRoutes
  import S = PortSearch

  /** What an allocation asks for; `scope` is the network id, or the working
      directory without one. */
  datatype Input = Input(requested: int, network: string, scope: string, sends: bool, hashed: bool, direction: S.Direction,
                         range: int, virtualStart: int, virtualEnd: int)

  /** What a request gets: a port that serves it already, the pending row at a
      place, or nothing. */
  datatype Grant = Passing(port: int) | Pending(at: nat) | Refused

  /** Whether a port can be given out: nobody has it and it binds. */
  function Available(rows: seq<P.Row>, processes: seq<P.Process>, bind: int -> bool): int -> bool {
    port => !P.Reserved(rows, processes, port) && ValidPort(port) && bind(port)
  }

  function PortHash(input: Input): nat {
    P.Hash(input.scope + ":" + Decimal(input.requested)) as int
  }

  /** The port an allocation gets, 0 if none. */
  function Choice(rows: seq<P.Row>, processes: seq<P.Process>, input: Input, bind: int -> bool): int {
    var available := Available(rows, processes, bind);
    if input.hashed then S.Hashed(input.virtualStart, input.virtualEnd, input.range, PortHash(input), available)
    else S.Nearest(input.requested, input.range, input.direction, available)
  }

  /** The rows kept by an expiry pass, with the earliest expiry among them. */
  method Sweep(rows: seq<P.Row>, now: int, scan: P.Scan) returns (kept: seq<P.Row>, next: int)
    ensures kept == P.Swept(rows, |rows|, now, scan) && next == P.NextExpiry(kept)
  {
    kept, next := [], 0;
    var i := 0;
    while i < |rows|
      invariant i <= |rows| && kept == P.Swept(rows, i, now, scan) && next == P.NextExpiry(kept)
    {
      var row := rows[i];
      var keep := row.expires > now;
      if !keep {
        if scan.Failed? {
          row := row.(expires := now + 1);
          keep := true;
        } else if row.actualPort in scan.ports {
          row := row.(expires := now + P.TTL_SECONDS);
          keep := true;
        }
      }
      if keep {
        assert (kept + [row])[..|kept|] == kept;
        kept := kept + [row];
        if next == 0 || row.expires < next {
          next := row.expires;
        }
      }
      i := i + 1;
    }
  }

  /** The rows of other endpoints. */
  method DropEndpoint(rows: seq<P.Row>, port: int, network: string) returns (kept: seq<P.Row>)
    ensures kept == P.WithoutEndpoint(rows, |rows|, port, network)
  {
    hide P.Endpoint;
    kept := [];
    var i := 0;
    while i < |rows|
      invariant i <= |rows| && kept == P.WithoutEndpoint(rows, i, port, network)
    {
      if P.Endpoint(rows[i].logicalPort, rows[i].network) != P.Endpoint(port, network) {
        kept := kept + [rows[i]];
      }
      i := i + 1;
    }
  }

  /** Linear scan for an endpoint. */
  method ScanEndpoint(rows: seq<P.Row>, port: int, network: string) returns (at: int)
    ensures at == P.FirstEndpoint(rows, 0, port, network)
  {
    hide P.Endpoint;
    var i := 0;
    while i < |rows|
      invariant i <= |rows| && P.FirstEndpoint(rows, 0, port, network) == P.FirstEndpoint(rows, i, port, network)
    {
      if P.Endpoint(rows[i].logicalPort, rows[i].network) == P.Endpoint(port, network) {
        return i;
      }
      i := i + 1;
    }
    at := -1;
  }

  /** The row of an endpoint, through hint slot `slot` of its own. */
  method FindRow(s: P.Registry, port: int, network: string, slot: nat) returns (at: int, t: P.Registry)
    ensures (at, t) == P.FindAt(s, port, network, slot)
  {
    hide P.FirstEndpoint, P.Remember;
    if slot < |s.endpointHints| {
      var hint := s.endpointHints[slot];
      if hint == 0 {
        return -1, s;
      }
      if hint <= |s.rows| && s.rows[hint - 1].logicalPort == port && s.rows[hint - 1].network == network {
        return hint - 1, s;
      }
    }
    at := ScanEndpoint(s.rows, port, network);
    t := if at >= 0 then P.Remember(s, at) else s;
  }

  /** The rows without the first that has this id. */
  method DropId(rows: seq<P.Row>, id: string) returns (kept: seq<P.Row>)
    ensures kept == P.WithoutId(rows, 0, id) && |kept| <= |rows|
  {
    var i := 0;
    while i < |rows|
      invariant i <= |rows| && P.WithoutId(rows, 0, id) == P.WithoutId(rows, i, id)
    {
      if rows[i].id == id {
        return rows[..i] + rows[i + 1..];
      }
      i := i + 1;
    }
    kept := rows;
  }

  /** Linear scan for an actual port. */
  method ScanPort(rows: seq<P.Row>, port: int) returns (at: int)
    ensures at == P.FirstPort(rows, 0, port)
  {
    var i := 0;
    while i < |rows|
      invariant i <= |rows| && P.FirstPort(rows, 0, port) == P.FirstPort(rows, i, port)
    {
      if rows[i].actualPort == port {
        return i;
      }
      i := i + 1;
    }
    at := -1;
  }

  method ScanProcesses(processes: seq<P.Process>, port: int) returns (used: bool)
    ensures used == P.ProcessUses(processes, port)
  {
    var i := 0;
    while i < |processes|
      invariant i <= |processes|
      invariant forall k :: 0 <= k < i ==> !(processes[k].running && !processes[k].detected && processes[k].port == port)
    {
      if processes[i].running && !processes[i].detected && processes[i].port == port {
        return true;
      }
      i := i + 1;
    }
    used := false;
  }

  /** Neither search returns a port that is taken. */
  lemma ChoiceFree(rows: seq<P.Row>, processes: seq<P.Process>, input: Input, bind: int -> bool)
    ensures var port := Choice(rows, processes, input, bind);
      port != 0 ==> !P.Reserved(rows, processes, port) && ValidPort(port) && bind(port)
  {
    var available := Available(rows, processes, bind);
    S.NearestIsClosest(input.requested, input.range, input.direction, available, 0);
    var start, end := S.RangeStart(input.virtualStart), S.RangeEnd(input.virtualEnd);
    if S.ValidRange(start, end) {
      S.HashedIsFirstAvailable(input.virtualStart, input.virtualEnd, input.range, PortHash(input), available, 0);
    }
  }

  /** Without hashing an allocation gets the nearest free port it may have, and none
      only if there is none. */
  lemma NearestUnlessHashed(rows: seq<P.Row>, processes: seq<P.Process>, input: Input, bind: int -> bool, q: int)
    requires !input.hashed
    ensures var port, free := Choice(rows, processes, input, bind), Available(rows, processes, bind);
      && (port != 0 ==> free(port) && S.Permitted(input.requested, input.range, input.direction, port))
      && (free(q) && S.Permitted(input.requested, input.range, input.direction, q) ==>
            port != 0 && S.Distance(input.requested, port) <= S.Distance(input.requested, q))
  {
    hide S.Nearest, P.Reserved;
    S.NearestIsClosest(input.requested, input.range, input.direction, Available(rows, processes, bind), q);
  }

  /** With hashing it gets the first free port of the virtual range from the hash of
      scope and port on, going round, and none if the range is not one. */
  lemma FirstFromTheHash(rows: seq<P.Row>, processes: seq<P.Process>, input: Input, bind: int -> bool, hash: nat, q: int)
    requires input.hashed && hash == P.Hash(input.scope + ":" + Decimal(input.requested)) as int
    ensures var port, free := Choice(rows, processes, input, bind), Available(rows, processes, bind);
      var start, end := S.RangeStart(input.virtualStart), S.RangeEnd(input.virtualEnd);
      var size := end - start + 1;
      && (!S.ValidRange(start, end) ==> port == 0)
      && (S.ValidRange(start, end) && port != 0 ==>
            && start <= port <= end && free(port)
            && S.FirstOf(start, size, hash % size, S.Probes(input.range, size), port, free))
      && (S.ValidRange(start, end) && port == 0 && input.range + 1 >= size && start <= q <= end ==> !free(q))
  {
    hide S.HashedFrom, S.FirstOf, P.Reserved, P.Hash, S.Probes;
    assert PortHash(input) == hash;
    hide PortHash;
    if S.ValidRange(S.RangeStart(input.virtualStart), S.RangeEnd(input.virtualEnd)) {
      S.HashedIsFirstAvailable(input.virtualStart, input.virtualEnd, input.range, hash, Available(rows, processes, bind), q);
    }
  }

  lemma InsertedRows(s: P.Registry, port: int, network: string, actualPort: int, now: int)
    requires P.Inv(s)
    ensures var t := P.Inserted(s, port, network, actualPort, now);
      && t.processes == s.processes
      && t.rows == s.rows + [P.Row(P.AllocationId(s.pid, s.nextId), s.nextId, port, network, actualPort, now + P.TTL_SECONDS)]
  {
    P.InsertedCovered(s, port, network, actualPort, now);
  }

  class Allocator {
    var s: P.Registry

    constructor (pid: nat, endpoints: bool, ports: bool)
      ensures s == P.Init(pid, endpoints, ports) && P.Inv(s)
    {
      s := P.Init(pid, endpoints, ports);
      new;
      P.RunKeeps(pid, endpoints, ports, []);
    }

    method CleanupPending(now: int, scan: P.Scan) returns (changed: bool)
      requires P.Inv(s) && now >= 0
      modifies this
      ensures P.Inv(s) && s == P.Cleanup(old(s), now, scan) && changed == (|s.rows| != |old(s).rows|)
    {
      P.CleanupKeeps(s, now, scan);
      hide P.Inv, P.Swept, P.NextExpiry;
      if s.rows == [] {
        s := s.(watermark := 0);
        return false;
      }
      if s.watermark > now {
        return false;
      }
      var kept, next := Sweep(s.rows, now, scan);
      changed := |kept| != |s.rows|;
      s := s.(rows := kept, watermark := next);
    }

    /** The row of an endpoint, through the hints. */
    method FindPendingEndpoint(port: int, network: string) returns (at: int)
      requires P.Inv(s)
      modifies this
      ensures P.Inv(s) && P.SameRows(old(s), s) && at == P.FirstEndpoint(s.rows, 0, port, network)
    {
      P.FindEndpointIsLinear(s, port, network);
      hide P.Inv, P.FirstEndpoint, P.EndpointSlot, P.FindAt;
      var t;
      at, t := FindRow(s, port, network, P.EndpointSlot(port, network));
      s := t;
    }

    /** Whether a port is taken, through the hints. */
    method ActualPortReserved(port: int) returns (reserved: bool)
      requires P.Inv(s)
      modifies this
      ensures P.Inv(s) && P.SameRows(old(s), s) && reserved == P.Reserved(s.rows, s.processes, port)
    {
      P.FindReservedIsLinear(s, port);
      hide P.Inv, P.FirstPort, P.ProcessUses, P.Remember;
      if ValidPort(port) && port < |s.portHints| {
        var hint := s.portHints[port];
        if hint == 0 {
          reserved := ScanProcesses(s.processes, port);
          return;
        }
        if hint <= |s.rows| && s.rows[hint - 1].actualPort == port {
          return true;
        }
      }
      var at := ScanPort(s.rows, port);
      if at >= 0 {
        s := P.Remember(s, at);
        return true;
      }
      if ValidPort(port) && port < |s.portHints| {
        s := s.(portHints := s.portHints[port := 0]);
      }
      reserved := ScanProcesses(s.processes, port);
    }
  
    method PortAvailable(port: int, bind: int -> bool) returns (available: bool)
      requires P.Inv(s)
      modifies this
      ensures P.Inv(s) && P.SameRows(old(s), s) && available == Available(s.rows, s.processes, bind)(port)
    {
      hide P.Inv, P.Reserved;
      var reserved := ActualPortReserved(port);
      available := !reserved && ValidPort(port) && bind(port);
    }

    method RouteNearest(input: Input, bind: int -> bool) returns (port: int)
      requires P.Inv(s)
      modifies this
      ensures P.Inv(s) && P.SameRows(old(s), s)
      ensures port == S.Nearest(input.requested, input.range, input.direction, Available(s.rows, s.processes, bind))
    {
      hide P.Inv, Available;
      ghost var available := Available(s.rows, s.processes, bind);
      var found := PortAvailable(input.requested, bind);
      if found {
        return input.requested;
      }
      var offset := 1;
      while offset <= input.range
        invariant P.Inv(s) && P.SameRows(old(s), s) && offset >= 1
        invariant S.Nearest(input.requested, input.range, input.direction, available) ==
                  S.NearestFrom(input.requested, input.range, input.direction, offset, available)
      {
        var up, down := input.requested + offset, input.requested - offset;
        if S.GoesUp(input.direction) && ValidPort(up) {
          found := PortAvailable(up, bind);
          if found {
            return up;
          }
        }
        if S.GoesDown(input.direction) && ValidPort(down) {
          found := PortAvailable(down, bind);
          if found {
            return down;
          }
        }
        offset := offset + 1;
      }
      port := 0;
    }

    method RouteHashed(input: Input, bind: int -> bool) returns (port: int)
      requires P.Inv(s)
      modifies this
      ensures P.Inv(s) && P.SameRows(old(s), s)
      ensures port == S.Hashed(input.virtualStart, input.virtualEnd, input.range, PortHash(input),
                               Available(s.rows, s.processes, bind))
    {
      hide P.Inv, Available, PortHash;
      ghost var available := Available(s.rows, s.processes, bind);
      var start, end := S.RangeStart(input.virtualStart), S.RangeEnd(input.virtualEnd);
      if !S.ValidRange(start, end) {
        return 0;
      }
      var size := end - start + 1;
      var first, n, k := PortHash(input) % size, S.Probes(input.range, size), 0;
      while k < n
        invariant P.Inv(s) && P.SameRows(old(s), s)
        invariant S.HashedFrom(start, size, first, 0, n, available) == S.HashedFrom(start, size, first, k, n, available)
      {
        var candidate := S.Candidate(start, size, first, k);
        var found := PortAvailable(candidate, bind);
        if found {
          return candidate;
        }
        k := k + 1;
      }
      port := 0;
    }

    /** Allocates a route. A sender that an active route serves gets its port; the
        endpoint's pending row is extended if there is one; an unscoped sender gets
        the requested port if a host listener has it; otherwise a port is chosen
        and a row appended. `active` is the port of an active route to the
        endpoint, if any; `listening` whether a host listener has the port. */
    method AllocateRoute(input: Input, active: Option<int>, listening: bool, bind: int -> bool, scan: P.Scan, cleaned: int, now: int)
      returns (grant: Grant)
      requires P.Inv(s) && cleaned >= 0 && now >= 0
      modifies this
      ensures P.Inv(s)
      ensures var rows, ps := P.Cleanup(old(s), cleaned, scan).rows, old(s).processes;
        var found, port := P.FirstEndpoint(rows, 0, input.requested, input.network), Choice(rows, ps, input, bind);
        && s.processes == ps
        && if input.sends && active.Some? then grant == Passing(active.value) && s.rows == rows
           else if found >= 0 then grant == Pending(found) && s.rows == rows[found := rows[found].(expires := now + P.TTL_SECONDS)]
           else if input.sends && input.network == "" && listening then grant == Passing(input.requested) && s.rows == rows
           else if port <= 0 then grant == Refused && s.rows == rows
           else
             && grant == Pending(|rows|)
             && s.rows == rows + [P.Row(P.AllocationId(old(s).pid, old(s).nextId), old(s).nextId, input.requested,
                                        input.network, port, now + P.TTL_SECONDS)]
    {
      hide P.Inv, P.FirstEndpoint, P.Remember, P.Swept, P.NextExpiry, S.Nearest, S.Hashed, Available, P.AllocationId;
      var changed := CleanupPending(cleaned, scan);
      if input.sends && active.Some? {
        return Passing(active.value);
      }
      var at := FindPendingEndpoint(input.requested, input.network);
      if at >= 0 {
        P.ExtendedKeeps(s, at, now);
        s := P.Extended(s, at, now);
        return Pending(at);
      }
      if input.sends && input.network == "" && listening {
        return Passing(input.requested);
      }
      var port;
      if input.hashed {
        port := RouteHashed(input, bind);
      } else {
        port := RouteNearest(input, bind);
      }
      if port <= 0 {
        return Refused;
      }
      grant := Pending(|s.rows|);
      ChoiceFree(s.rows, s.processes, input, bind);
      P.InsertedKeeps(s, input.requested, input.network, port, now);
      InsertedRows(s, input.requested, input.network, port, now);
      hide P.Inserted;
      s := P.Inserted(s, input.requested, input.network, port, now);
    }

    method RemovePendingEndpoint(port: int, network: string)
      requires P.Inv(s)
      modifies this
      ensures P.Inv(s) && s == P.Apply(old(s), P.RemoveEndpoint(port, network))
    {
      hide P.Inv, P.WithoutEndpoint, P.FindEndpoint, P.FindReserved;
      P.StepKeeps(s, P.RemoveEndpoint(port, network));
      var kept := DropEndpoint(s.rows, port, network);
      s := s.(rows := kept, watermark := if kept == [] then 0 else s.watermark);
    }

    /** Removes the allocation with this id, if it is there. */
    method ReleaseAllocation(id: string) returns (released: bool)
      requires P.Inv(s)
      modifies this
      ensures P.Inv(s) && s == P.Apply(old(s), P.RemoveAllocation(id)) && released == (|s.rows| != |old(s).rows|)
    {
      hide P.Inv, P.WithoutId, P.FindEndpoint, P.FindReserved;
      P.StepKeeps(s, P.RemoveAllocation(id));
      var kept := DropId(s.rows, id);
      released := |kept| != |s.rows|;
      s := s.(rows := kept, watermark := if released && |kept| == 0 then 0 else s.watermark);
    }
  }
}
