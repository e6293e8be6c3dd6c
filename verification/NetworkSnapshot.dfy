/** The per-network route view. The daemon used to fold a quadratic
    remove-then-append dedupe; it now sorts positions by identity, keeps the last
    of every run and sorts back. Both give the last owner of every identity, in
    original order. */
module NetworkSnapshot {
  import opened Text
  import opened Sorting
  import opened LastOwner

  /** `rest` stands for the row's host, cwd, terminal scope and process fields. */
  datatype Route = Route(logicalPort: int, actualPort: int, direction: string,
                         networkId: string, source: string, rest: string)

  /** `pm_route_identity`. */
  function Identity(r: Route): string {
    r.networkId + ":" + (Decimal(r.logicalPort) + ":" + r.direction)
  }

  function Key(r: Route): (int, string) { (r.logicalPort, r.direction) }

  function InNetwork(network: string): Route -> bool {
    (r: Route) => r.networkId == network
  }

  /** The simple meaning: filter to the network, then fold remove-then-append. */
  function NetworkRoutes(routes: seq<Route>, network: string): seq<Route> {
    FoldDedupe(Select(routes, InNetwork(network)), Identity)
  }

  lemma IdentityIsKey(a: Route, b: Route)
    requires a.networkId == b.networkId
    ensures Identity(a) == Identity(b) <==> Key(a) == Key(b)
  {
    if Identity(a) == Identity(b) {
      var x, y := Decimal(a.logicalPort) + ":" + a.direction, Decimal(b.logicalPort) + ":" + b.direction;
      assert x == Identity(a)[|a.networkId| + 1..] && y == Identity(b)[|a.networkId| + 1..];
      DecimalHasNoColon(a.logicalPort);
      DecimalHasNoColon(b.logicalPort);
      FirstColonSplits(Decimal(a.logicalPort), a.direction, Decimal(b.logicalPort), b.direction);
      DecimalInjective(a.logicalPort, b.logicalPort);
    }
  }

  lemma {:induction false} SelectInNetwork(routes: seq<Route>, network: string)
    ensures forall i :: 0 <= i < |Select(routes, InNetwork(network))| ==>
              Select(routes, InNetwork(network))[i].networkId == network
  {
    if routes != [] {
      SelectInNetwork(routes[..|routes| - 1], network);
    }
  }

  /** Folding by the printed identity is folding by port and direction. */
  lemma NetworkRoutesByKey(routes: seq<Route>, network: string)
    ensures NetworkRoutes(routes, network) == FoldDedupe(Select(routes, InNetwork(network)), Key)
  {
    var rows := Select(routes, InNetwork(network));
    SelectInNetwork(routes, network);
    forall i, j | 0 <= i < |rows| && 0 <= j < |rows|
      ensures Identity(rows[i]) == Identity(rows[j]) <==> Key(rows[i]) == Key(rows[j])
    {
      IdentityIsKey(rows[i], rows[j]);
    }
    FoldSame(rows, Identity, Key);
  }

  // --------------------------------------------------------------- sort order

  /** `pm_compare_network_route_identity`. */
  function CompareIdentity(routes: seq<Route>, i: nat, j: nat): int
    requires i < |routes| && j < |routes|
  {
    if routes[i].logicalPort != routes[j].logicalPort
    then (if routes[i].logicalPort < routes[j].logicalPort then -1 else 1)
    else
      var direction := Compare(routes[i].direction, routes[j].direction);
      if direction != 0 then direction
      else if i < j then -1 else if i > j then 1 else 0
  }

  function IdentityOrder(routes: seq<Route>): (nat, nat) -> bool {
    (i: nat, j: nat) => i < |routes| && j < |routes| && CompareIdentity(routes, i, j) <= 0
  }

  function PositionOrder(): (nat, nat) -> bool {
    (i: nat, j: nat) => i <= j
  }

  lemma IdentityOrderTotal(routes: seq<Route>, dom: set<nat>)
    requires forall i :: i in dom ==> i < |routes|
    ensures TotalOn(IdentityOrder(routes), dom)
  {
    var le := IdentityOrder(routes);
    forall i, j | i in dom && j in dom ensures le(i, j) || le(j, i) {
      CompareAntisymmetric(routes[i].direction, routes[j].direction);
    }
    forall i, j, k | i in dom && j in dom && k in dom && le(i, j) && le(j, k) ensures le(i, k) {
      if routes[i].logicalPort == routes[j].logicalPort == routes[k].logicalPort {
        CompareTransitive(routes[i].direction, routes[j].direction, routes[k].direction);
      }
    }
  }

  lemma PositionOrderTotal(dom: set<nat>)
    ensures TotalOn(PositionOrder(), dom)
  {}

  // ---------------------------------------------------------------- run lasts

  /** Row `i` of the first `n` belongs to the network. */
  predicate Member(routes: seq<Route>, network: string, n: nat, i: nat)
    requires n <= |routes|
  {
    i < n && routes[i].networkId == network
  }

  ghost predicate Indices(s: seq<nat>, n: nat) {
    forall k :: 0 <= k < |s| ==> s[k] < n
  }

  /** The last element of every run of equal keys in `s[at..]`. */
  function RunLasts(routes: seq<Route>, s: seq<nat>, at: nat): seq<nat>
    requires Indices(s, |routes|) && at <= |s|
    decreases |s| - at
  {
    if at == |s| then []
    else if at + 1 < |s| && Key(routes[s[at]]) == Key(routes[s[at + 1]]) then RunLasts(routes, s, at + 1)
    else [s[at]] + RunLasts(routes, s, at + 1)
  }

  lemma {:induction false} RunCollapses(routes: seq<Route>, s: seq<nat>, at: nat, end: nat)
    requires Indices(s, |routes|) && at < end <= |s|
    requires forall k :: at <= k < end ==> Key(routes[s[k]]) == Key(routes[s[at]])
    requires end < |s| ==> Key(routes[s[end]]) != Key(routes[s[at]])
    ensures RunLasts(routes, s, at) == [s[end - 1]] + RunLasts(routes, s, end)
    decreases end - at
  {
    if at + 1 < end {
      RunCollapses(routes, s, at + 1, end);
    }
  }

  ghost predicate StrictlyOrdered(routes: seq<Route>, s: seq<nat>) {
    && Indices(s, |routes|)
    && forall k, l :: 0 <= k < l < |s| ==> CompareIdentity(routes, s[k], s[l]) < 0
  }

  /** Rows of one key stand together, in position order. */
  lemma KeyRuns(routes: seq<Route>, s: seq<nat>, at: nat, k: nat)
    requires StrictlyOrdered(routes, s) && at < k < |s| && Key(routes[s[at]]) == Key(routes[s[k]])
    ensures s[at] < s[k] && Key(routes[s[at]]) == Key(routes[s[at + 1]])
  {
    var i, j, l := s[at], s[at + 1], s[k];
    assert CompareIdentity(routes, i, l) < 0 && CompareIdentity(routes, i, j) < 0;
    assert k > at + 1 ==> CompareIdentity(routes, j, l) < 0;
    CompareAntisymmetric(routes[i].direction, routes[j].direction);
    CompareAntisymmetric(routes[j].direction, routes[l].direction);
  }

  /** No row of `s[at..]` has the key of row `i` at a later position. */
  ghost predicate Outlasts(routes: seq<Route>, s: seq<nat>, at: nat, i: nat)
    requires Indices(s, |routes|) && i < |routes|
  {
    forall k :: at <= k < |s| && s[k] > i ==> Key(routes[s[k]]) != Key(routes[i])
  }

  /** In identity order, the last of every run is the last owner. */
  lemma {:induction false} RunLastsMeaning(routes: seq<Route>, s: seq<nat>, at: nat, i: nat)
    requires StrictlyOrdered(routes, s) && i < |routes| && at <= |s|
    ensures i in RunLasts(routes, s, at) <==> i in s[at..] && Outlasts(routes, s, at, i)
    decreases |s| - at
  {
    if at < |s| {
      RunLastsMeaning(routes, s, at + 1, i);
      assert s[at..] == [s[at]] + s[at + 1..];
      HeadOfRun(routes, s, at, i);
    }
  }

  lemma HeadOfRun(routes: seq<Route>, s: seq<nat>, at: nat, i: nat)
    requires StrictlyOrdered(routes, s) && at < |s| && i < |routes|
    ensures i in s[at + 1..] ==> i != s[at] && (Outlasts(routes, s, at, i) <==> Outlasts(routes, s, at + 1, i))
    ensures i == s[at] ==>
              (Outlasts(routes, s, at, i) <==> !(at + 1 < |s| && Key(routes[s[at]]) == Key(routes[s[at + 1]])))
  {
    if i in s[at + 1..] {
      var k :| at < k < |s| && s[k] == i;
      assert CompareIdentity(routes, s[at], s[k]) < 0;
      if Key(routes[s[at]]) == Key(routes[i]) { KeyRuns(routes, s, at, k); }
    }
    if i == s[at] {
      if at + 1 < |s| && Key(routes[s[at]]) == Key(routes[s[at + 1]]) {
        KeyRuns(routes, s, at, at + 1);
      } else {
        forall k | at <= k < |s| && s[k] > i ensures Key(routes[s[k]]) != Key(routes[i]) {
          if Key(routes[s[k]]) == Key(routes[i]) { KeyRuns(routes, s, at, k); }
        }
      }
    }
  }

  lemma {:induction false} RunLastsDistinct(routes: seq<Route>, s: seq<nat>, at: nat)
    requires StrictlyOrdered(routes, s) && at <= |s|
    ensures Indices(RunLasts(routes, s, at), |routes|)
    ensures forall k, l :: 0 <= k < l < |RunLasts(routes, s, at)| ==>
              RunLasts(routes, s, at)[k] != RunLasts(routes, s, at)[l]
    decreases |s| - at
  {
    if at < |s| {
      RunLastsDistinct(routes, s, at + 1);
      RunLastsMeaning(routes, s, at + 1, s[at]);
      HeadOfRun(routes, s, at, s[at]);
      assert s[at] !in RunLasts(routes, s, at + 1);
    }
  }

  lemma SortedIsStrict(routes: seq<Route>, listed: seq<nat>, sorted: seq<nat>)
    requires Indices(listed, |routes|)
    requires forall k, l :: 0 <= k < l < |listed| ==> listed[k] < listed[l]
    requires multiset(sorted) == multiset(listed) && Sorted(sorted, IdentityOrder(routes))
    ensures StrictlyOrdered(routes, sorted)
  {
    SameElements(sorted, listed);
    DistinctByMultiset(listed, sorted);
    forall k, l | 0 <= k < l < |sorted| ensures CompareIdentity(routes, sorted[k], sorted[l]) < 0 {
      assert IdentityOrder(routes)(sorted[k], sorted[l]);
    }
  }

  /** Sorting the run lasts back by position lists the last owners. */
  lemma FinalListing(routes: seq<Route>, network: string, sorted: seq<nat>, final: seq<nat>)
    requires StrictlyOrdered(routes, sorted)
    requires forall i :: i in sorted <==> Member(routes, network, |routes|, i)
    requires multiset(final) == multiset(RunLasts(routes, sorted, 0)) && Sorted(final, PositionOrder())
    ensures Lists(final, Last(routes, InNetwork(network), Key, |routes|))
  {
    var lasts := RunLasts(routes, sorted, 0);
    var s := Last(routes, InNetwork(network), Key, |routes|);
    RunLastsDistinct(routes, sorted, 0);
    DistinctByMultiset(lasts, final);
    forall k, l | 0 <= k < l < |final| ensures final[k] < final[l] {
      assert PositionOrder()(final[k], final[l]);
    }
    forall i | i in final || i in s ensures i in final && i in s {
      assert i in multiset(final) <==> i in final;
      assert i in multiset(lasts) <==> i in lasts;
      LastsAreLast(routes, network, sorted, i);
    }
  }

  lemma LastsAreLast(routes: seq<Route>, network: string, sorted: seq<nat>, i: nat)
    requires StrictlyOrdered(routes, sorted) && i < |routes|
    requires forall j :: j in sorted <==> Member(routes, network, |routes|, j)
    ensures i in RunLasts(routes, sorted, 0) <==> i in Last(routes, InNetwork(network), Key, |routes|)
  {
    RunLastsMeaning(routes, sorted, 0, i);
    assert sorted[0..] == sorted;
    LastMeaning(routes, InNetwork(network), Key, |routes|, i);
    assert i in sorted <==> Member(routes, network, |routes|, i);
    if Outlasts(routes, sorted, 0, i) {
      forall j | i < j < |routes| && InNetwork(network)(routes[j]) ensures Key(routes[i]) != Key(routes[j]) {
        assert Member(routes, network, |routes|, j);
        assert j in sorted;
      }
    } else {
      var k :| 0 <= k < |sorted| && sorted[k] > i && Key(routes[sorted[k]]) == Key(routes[i]);
      assert sorted[k] in sorted;
      assert InNetwork(network)(routes[sorted[k]]);
    }
  }

  lemma FinalRows(routes: seq<Route>, network: string, final: seq<nat>)
    requires Lists(final, Last(routes, InNetwork(network), Key, |routes|))
    ensures At(routes, final) == NetworkRoutes(routes, network)
  {
    var p := FoldKeepsLast(routes, InNetwork(network), Key, |routes|);
    assert routes[..|routes|] == routes;
    ListsUnique(final, p, Last(routes, InNetwork(network), Key, |routes|));
    NetworkRoutesByKey(routes, network);
  }

  lemma SortedMembers(routes: seq<Route>, network: string, listed: seq<nat>, sorted: seq<nat>)
    requires forall i :: i in listed <==> Member(routes, network, |routes|, i)
    requires multiset(sorted) == multiset(listed)
    ensures forall i :: i in sorted <==> Member(routes, network, |routes|, i)
  {
    forall i ensures i in sorted <==> Member(routes, network, |routes|, i) {
      assert i in listed <==> i in multiset(listed);
      assert i in sorted <==> i in multiset(sorted);
    }
  }

  // ----------------------------------------------------------------- the code

  /** The selection loop: rows of the network, in order. */
  method SelectPositions(routes: seq<Route>, network: string, positions: array<nat>) returns (count: nat)
    requires positions.Length == |routes|
    modifies positions
    ensures count <= |routes|
    ensures forall k, l :: 0 <= k < l < count ==> positions[k] < positions[l]
    ensures forall i :: i in positions[..count] <==> Member(routes, network, |routes|, i)
  {
    count := 0;
    for index := 0 to |routes|
      invariant count <= index
      invariant forall k, l :: 0 <= k < l < count ==> positions[k] < positions[l]
      invariant forall i :: i in positions[..count] <==> Member(routes, network, index, i)
    {
      ghost var before := positions[..count];
      assert forall k :: 0 <= k < count ==> positions[k] in before;
      if routes[index].networkId == network {
        positions[count] := index;
        count := count + 1;
        assert positions[..count] == before + [index];
      }
    }
  }

  /** The in-place compaction loop: the last position of every run. */
  method KeepRunLasts(routes: seq<Route>, positions: array<nat>, count: nat) returns (selected: nat)
    requires count <= positions.Length && Indices(positions[..count], |routes|)
    modifies positions
    ensures selected <= count
    ensures positions[..selected] == RunLasts(routes, old(positions[..count]), 0)
  {
    ghost var s := positions[..count];
    selected := 0;
    var index := 0;
    while index < count
      invariant selected <= index <= count
      invariant forall k :: index <= k < count ==> positions[k] == s[k]
      invariant positions[..selected] + RunLasts(routes, s, index) == RunLasts(routes, s, 0)
    {
      var end := index + 1;
      while end < count && Key(routes[positions[end]]) == Key(routes[positions[index]])
        invariant index < end <= count
        invariant forall k :: index <= k < end ==> Key(routes[s[k]]) == Key(routes[s[index]])
      {
        end := end + 1;
      }
      RunCollapses(routes, s, index, end);
      ghost var kept := positions[..selected];
      positions[selected] := positions[end - 1];
      selected := selected + 1;
      assert positions[..selected] == kept + [s[end - 1]];
      assert kept + ([s[end - 1]] + RunLasts(routes, s, end)) == positions[..selected] + RunLasts(routes, s, end);
      index := end;
    }
  }

  /** Sort by identity, keep run lasts, sort back by position. */
  method LastPositions(routes: seq<Route>, network: string, positions: array<nat>) returns (selected: nat)
    requires positions.Length == |routes|
    modifies positions
    ensures selected <= |routes|
    ensures Indices(positions[..selected], |routes|)
    ensures At(routes, positions[..selected]) == NetworkRoutes(routes, network)
  {
    hide RunLasts, NetworkRoutes, Last, At, Lists, TotalOn, Sorted, StrictlyOrdered, PositionOrder, IdentityOrder;
    var count := SelectPositions(routes, network, positions);
    ghost var listed := positions[..count];
    ghost var dom := set i | i in listed;
    IdentityOrderTotal(routes, dom);
    QSort(positions, count, IdentityOrder(routes), dom);
    ghost var sorted := positions[..count];
    SortedIsStrict(routes, listed, sorted);
    SortedMembers(routes, network, listed, sorted);
    selected := KeepRunLasts(routes, positions, count);
    dom := set i | i in positions[..selected];
    PositionOrderTotal(dom);
    QSort(positions, selected, PositionOrder(), dom);
    FinalListing(routes, network, sorted, positions[..selected]);
    FinalRows(routes, network, positions[..selected]);
  }

  /** The output loop. */
  method AppendRows(routes: seq<Route>, positions: array<nat>, count: nat) returns (output: seq<Route>)
    requires count <= positions.Length && Indices(positions[..count], |routes|)
    ensures output == At(routes, positions[..count])
  {
    output := [];
    for i := 0 to count
      invariant |output| == i
      invariant forall k :: 0 <= k < i ==> output[k] == routes[positions[..count][k]]
    {
      assert positions[..count][i] == positions[i];
      output := output + [routes[positions[i]]];
    }
  }

  /** `pm_build_network_route_snapshot`: for every route list and network, the
      rows of the filtered remove-then-append fold, in the same order. */
  method BuildNetworkSnapshot(routes: seq<Route>, network: string) returns (output: seq<Route>)
    ensures output == NetworkRoutes(routes, network)
  {
    hide NetworkRoutes;
    var positions := new nat[|routes|];
    var selected := LastPositions(routes, network, positions);
    output := AppendRows(routes, positions, selected);
  }
}
