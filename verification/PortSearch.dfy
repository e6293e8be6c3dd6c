/** Which port an allocation gets: the nearest available one, or the first
    available one on a circular walk of the virtual range that starts at a hash. */
module PortSearch {
  import opened Common

  const DEFAULT_START := 53000
  const DEFAULT_END := 59999

  // ------------------------------------------------------------------- nearest

  datatype Direction = Up | Down | Both | Other

  predicate GoesUp(d: Direction) { d == Up || d == Both }
  predicate GoesDown(d: Direction) { d == Down || d == Both }

  /** The search from distance `offset` on; 0 if nothing is found. */
  function NearestFrom(requested: int, range: int, d: Direction, offset: nat, available: int -> bool): int
    decreases range - offset
  {
    if offset > range then 0
    else if GoesUp(d) && ValidPort(requested + offset) && available(requested + offset) then requested + offset
    else if GoesDown(d) && ValidPort(requested - offset) && available(requested - offset) then requested - offset
    else NearestFrom(requested, range, d, offset + 1, available)
  }

  function Nearest(requested: int, range: int, d: Direction, available: int -> bool): int {
    if available(requested) then requested else NearestFrom(requested, range, d, 1, available)
  }

  function Distance(a: int, b: int): nat { if a < b then b - a else a - b }

  /** Ports the search may return. */
  predicate Permitted(requested: int, range: int, d: Direction, port: int) {
    port == requested ||
    (Distance(requested, port) <= range && if port > requested then GoesUp(d) else GoesDown(d))
  }

  lemma {:induction false} NearestFromMeaning(requested: int, range: int, d: Direction, offset: nat, available: int -> bool, q: int)
    requires offset >= 1
    ensures var p := NearestFrom(requested, range, d, offset, available);
      && (p != 0 ==> ValidPort(p) && available(p) && p != requested && Permitted(requested, range, d, p)
                     && Distance(requested, p) >= offset)
      && (ValidPort(q) && available(q) && q != requested && Permitted(requested, range, d, q) && Distance(requested, q) >= offset ==>
            p != 0 && (Distance(requested, p) < Distance(requested, q) || (Distance(requested, p) == Distance(requested, q) && p >= q)))
    decreases range - offset
  {
    if offset <= range {
      NearestFromMeaning(requested, range, d, offset + 1, available, q);
    }
  }

  /** Nearest search returns an available permitted port than which no available
      permitted port is closer, upward on ties; 0 exactly when there is none.
      `available` refuses ports outside 1..65535, as binding does. */
  lemma NearestIsClosest(requested: int, range: int, d: Direction, available: int -> bool, q: int)
    requires forall p :: available(p) ==> ValidPort(p)
    ensures var p := Nearest(requested, range, d, available);
      && (p != 0 ==> available(p) && Permitted(requested, range, d, p))
      && (available(q) && Permitted(requested, range, d, q) ==>
            p != 0 && (Distance(requested, p) < Distance(requested, q) || (Distance(requested, p) == Distance(requested, q) && p >= q)))
  {
    NearestFromMeaning(requested, range, d, 1, available, q);
  }

  // -------------------------------------------------------------------- hashed

  function RangeStart(start: int): int { if start <= 0 then DEFAULT_START else start }
  function RangeEnd(end: int): int { if end <= 0 then DEFAULT_END else end }

  predicate ValidRange(start: int, end: int) { ValidPort(start) && ValidPort(end) && start <= end }

  /** The `k`-th port probed. */
  function Candidate(start: int, size: nat, first: nat, k: nat): (port: int)
    requires size > 0
    ensures start <= port < start + size
  {
    start + (first + k) % size
  }

  function Probes(range: int, size: nat): int {
    if range + 1 > size then size else range + 1
  }

  function HashedFrom(start: int, size: nat, first: nat, k: nat, n: int, available: int -> bool): int
    requires size > 0
    decreases n - k
  {
    if k >= n then 0
    else if available(Candidate(start, size, first, k)) then Candidate(start, size, first, k)
    else HashedFrom(start, size, first, k + 1, n, available)
  }

  /** `hash` is the hash of scope and requested port. */
  function Hashed(virtualStart: int, virtualEnd: int, range: int, hash: nat, available: int -> bool): int {
    var start, end := RangeStart(virtualStart), RangeEnd(virtualEnd);
    if !ValidRange(start, end) then 0
    else
      var size := end - start + 1;
      HashedFrom(start, size, hash % size, 0, Probes(range, size), available)
  }

  lemma ModDifference(a: nat, b: nat, size: nat)
    requires a <= b < a + size && a % size == b % size
    ensures a == b
  {
    var d := b / size - a / size;
    assert b - a == d * size;
    if d >= 1 { MulAtLeast(d, size); }
    if d <= -1 { MulAtLeast(-d, size); }
  }

  lemma MulAtLeast(d: int, size: nat)
    requires d >= 1
    ensures d * size >= size
  {}

  /** Probes within one turn of the range are distinct ports. */
  lemma CandidatesDistinct(start: int, size: nat, first: nat, j: nat, k: nat)
    requires j < k < size
    ensures Candidate(start, size, first, j) != Candidate(start, size, first, k)
  {
    if (first + j) % size == (first + k) % size {
      ModDifference(first + j, first + k, size);
    }
  }

  /** And a whole turn reaches every port. */
  lemma CandidatesCover(start: int, size: nat, first: nat, port: int) returns (k: nat)
    requires first < size && start <= port < start + size
    ensures k < size && Candidate(start, size, first, k) == port
  {
    var at := port - start;
    k := if at >= first then at - first else at + size - first;
    WrapOnce(at, size);
    assert first + k == at || first + k == at + size;
  }

  lemma WrapOnce(at: nat, size: nat)
    requires at < size
    ensures at % size == at && (at + size) % size == at
  {}

  /** `p` is what probe `i` found, none from `k` before it being available. */
  ghost predicate FirstAt(start: int, size: nat, first: nat, k: nat, i: nat, p: int, available: int -> bool)
    requires size > 0
  {
    && p == Candidate(start, size, first, i) && available(p)
    && forall j :: k <= j < i ==> !available(Candidate(start, size, first, j))
  }

  /** `p` is the first available port of `n` probes from `first` on. */
  ghost predicate FirstOf(start: int, size: nat, first: nat, n: int, p: int, available: int -> bool)
    requires size > 0
  {
    exists i :: 0 <= i < n && FirstAt(start, size, first, 0, i, p, available)
  }

  lemma {:induction false} HashedFromMeaning(start: int, size: nat, first: nat, k: nat, n: int, available: int -> bool)
    requires size > 0
    ensures var p := HashedFrom(start, size, first, k, n, available);
      && (p == 0 || exists i :: k <= i < n && FirstAt(start, size, first, k, i, p, available))
      && (p == 0 && start > 0 ==> forall j :: k <= j < n ==> !available(Candidate(start, size, first, j)))
    decreases n - k
  {
    hide Candidate;
    if k < n {
      HashedFromMeaning(start, size, first, k + 1, n, available);
      var p := HashedFrom(start, size, first, k + 1, n, available);
      if available(Candidate(start, size, first, k)) {
        assert FirstAt(start, size, first, k, k, Candidate(start, size, first, k), available);
      } else if p != 0 {
        var i :| k + 1 <= i < n && FirstAt(start, size, first, k + 1, i, p, available);
        assert FirstAt(start, size, first, k, i, p, available);
      }
    }
  }

  /** Hashed search returns the first available port in probe order, a port of the
      configured range; if the scan covers the range, 0 means that no port of the
      range is available. */
  lemma HashedIsFirstAvailable(virtualStart: int, virtualEnd: int, range: int, hash: nat, available: int -> bool, q: int)
    requires ValidRange(RangeStart(virtualStart), RangeEnd(virtualEnd))
    ensures var start, end := RangeStart(virtualStart), RangeEnd(virtualEnd);
      var size := end - start + 1;
      var p := Hashed(virtualStart, virtualEnd, range, hash, available);
      && (p != 0 ==> start <= p <= end && available(p))
      && (p != 0 ==> FirstOf(start, size, hash % size, Probes(range, size), p, available))
      && (p == 0 && range + 1 >= size && start <= q <= end ==> !available(q))
  {
    var start, end := RangeStart(virtualStart), RangeEnd(virtualEnd);
    var size := end - start + 1;
    HashedFromMeaning(start, size, hash % size, 0, Probes(range, size), available);
    if start <= q <= end {
      var k := CandidatesCover(start, size, hash % size, q);
    }
    hide HashedFrom;
  }
}
