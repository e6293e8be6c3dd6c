/** One client's output queue: a bounded line of frames over a socket that takes
    partial writes. Snapshots that have not started replace each other; every
    frame carries a deadline that coalescing must not renew. */
module OutputQueue {

  const CLIENT_BYTES: nat := 8 * 1024 * 1024
  const CLIENT_FRAMES: nat := 128
  const DEADLINE_MS: nat := 1000

  newtype Byte = x: int | 0 <= x < 256

  /** `serial` numbers accepted frames in enqueue order; `message` is the shared
      payload's number. */
  datatype Frame = Frame(serial: nat, message: nat, data: seq<Byte>, offset: nat, snapshot: bool, deadline: int)

  /** `sent`, `omitted`, `discarded`, `wire` and `status` are history: frames
      completed, frames coalesced away, frames lost in a disconnect, the bytes
      the socket took, and each frame's delivery receipt (0 pending, 1 sent,
      -1 discarded). `clock` is the time of the latest enqueue. */
  datatype Queue = Queue(
    open: bool, failed: bool, frames: seq<Frame>, bytes: int, count: int, clock: int,
    sent: seq<Frame>, omitted: seq<Frame>, discarded: seq<Frame>, wire: seq<Byte>, status: seq<int>)

  /** What `write` answered. */
  datatype Outcome = Wrote(n: nat) | Blocked | Broken

  /** `room` is false when the daemon-wide frame limit or the allocator refuses.
      `Reject`: a response for which no message could be made. */
  datatype Op =
    | Enqueue(message: nat, data: seq<Byte>, snapshot: bool, room: bool, now: int)
    | Flush(budget: nat, outcome: Outcome)
    | Reject
    | Disconnect

  function Init(): Queue { Queue(true, false, [], 0, 0, 0, [], [], [], [], []) }

  /** Messages have at least one byte; a write takes at most what it was given. */
  predicate Enabled(q: Queue, op: Op) {
    match op
    case Enqueue(_, data, _, _, now) => data != [] && now >= q.clock
    case Flush(budget, outcome) =>
      outcome.Wrote? && q.frames != [] ==>
        0 < outcome.n <= budget && q.frames[0].offset + outcome.n <= |q.frames[0].data|
    case Reject => true
    case Disconnect => true
  }

  function Apply(q: Queue, op: Op): Queue {
    if !Enabled(q, op) then q
    else match op
      case Enqueue(message, data, snapshot, room, now) => DoEnqueue(q, message, data, snapshot, room, now)
      case Flush(budget, outcome) => DoFlush(q, budget, outcome)
      case Reject => q.(failed := true)
      case Disconnect => DoDisconnect(q)
  }

  function Run(q: Queue, ops: seq<Op>): Queue {
    if ops == [] then q else Apply(Run(q, ops[..|ops| - 1]), ops[|ops| - 1])
  }

  predicate Unsent(f: Frame) { f.snapshot && f.offset == 0 }

  /** The frames that stay, or go, when a new snapshot arrives. */
  function Kept(frames: seq<Frame>): seq<Frame> {
    if frames == [] then []
    else
      var n := |frames| - 1;
      if Unsent(frames[n]) then Kept(frames[..n]) else Kept(frames[..n]) + [frames[n]]
  }

  function Gone(frames: seq<Frame>): seq<Frame> {
    if frames == [] then []
    else
      var n := |frames| - 1;
      if Unsent(frames[n]) then Gone(frames[..n]) + [frames[n]] else Gone(frames[..n])
  }

  function Remaining(frames: seq<Frame>): int {
    if frames == [] then 0
    else Remaining(frames[..|frames| - 1]) + |frames[|frames| - 1].data| - frames[|frames| - 1].offset
  }

  /** The least deadline among `frames`, and `limit`. */
  function Earliest(frames: seq<Frame>, limit: int): (d: int)
    ensures d <= limit
    ensures forall i :: 0 <= i < |frames| ==> d <= frames[i].deadline
    ensures d == limit || exists i :: 0 <= i < |frames| && d == frames[i].deadline
  {
    if frames == [] then limit
    else
      var d := Earliest(frames[..|frames| - 1], limit);
      if frames[|frames| - 1].deadline < d then frames[|frames| - 1].deadline else d
  }

  /** Receipts of removed frames: delivered exactly if all was written. */
  function Settle(status: seq<int>, gone: seq<Frame>): (r: seq<int>)
    ensures |r| == |status|
  {
    if gone == [] then status
    else
      var f := gone[|gone| - 1];
      var s := Settle(status, gone[..|gone| - 1]);
      if f.serial < |s| then s[f.serial := if f.offset == |f.data| then 1 else -1] else s
  }

  /** Unsent snapshots make way. */
  function Coalesced(q: Queue): Queue {
    var gone := Gone(q.frames);
    q.(frames := Kept(q.frames), bytes := q.bytes - Remaining(gone), count := q.count - |gone|,
       omitted := q.omitted + gone, status := Settle(q.status, gone))
  }

  function DoEnqueue(q: Queue, message: nat, data: seq<Byte>, snapshot: bool, room: bool, now: int): Queue {
    if !q.open || q.failed then q
    else
      var deadline := if snapshot then Earliest(Gone(q.frames), now + DEADLINE_MS) else now + DEADLINE_MS;
      var c := (if snapshot then Coalesced(q) else q).(clock := now);
      if |data| > CLIENT_BYTES - c.bytes || c.count >= CLIENT_FRAMES || !room then c.(failed := true)
      else
        c.(frames := c.frames + [Frame(|q.status|, message, data, 0, snapshot, deadline)],
           bytes := c.bytes + |data|, count := c.count + 1, status := c.status + [0])
  }

  function DoFlush(q: Queue, budget: nat, outcome: Outcome): Queue {
    if q.failed || !q.open || q.frames == [] || budget == 0 then q
    else match outcome
      case Wrote(n) =>
        var f := q.frames[0];
        if f.offset + n > |f.data| then q
        else
          var g := f.(offset := f.offset + n);
          var w := q.(bytes := q.bytes - n, wire := q.wire + f.data[f.offset..f.offset + n]);
          if g.offset < |g.data| then w.(frames := q.frames[0 := g])
          else w.(frames := q.frames[1..], count := q.count - 1, sent := q.sent + [g], status := Settle(q.status, [g]))
      case Blocked => q
      case Broken => q.(failed := true)
  }

  function DoDisconnect(q: Queue): Queue {
    q.(open := false, frames := [], bytes := q.bytes - Remaining(q.frames), count := q.count - |q.frames|,
       discarded := q.discarded + q.frames, status := Settle(q.status, q.frames))
  }

  // ---------------------------------------------------------------- invariants

  /** Everything after the completed frames: waiting, or lost. */
  function Rest(q: Queue): seq<Frame> { q.frames + q.discarded }

  function Whole(frames: seq<Frame>): seq<Byte> {
    if frames == [] then [] else Whole(frames[..|frames| - 1]) + frames[|frames| - 1].data
  }

  function Partial(frames: seq<Frame>): seq<Byte> {
    if frames == [] || frames[0].offset > |frames[0].data| then [] else frames[0].data[..frames[0].offset]
  }

  /** Serials grow along the line and stay below `n`. */
  predicate Rising(frames: seq<Frame>, n: nat) {
    frames != [] ==>
      frames[|frames| - 1].serial < n && Rising(frames[..|frames| - 1], frames[|frames| - 1].serial)
  }

  /** Only the first may be partly sent. */
  ghost predicate HeadOnly(frames: seq<Frame>) {
    forall i :: 0 <= i < |frames| ==>
      && frames[i].offset < |frames[i].data| && (i > 0 ==> frames[i].offset == 0)
  }

  /** At most one unsent snapshot. */
  ghost predicate OneSnapshot(frames: seq<Frame>) {
    forall i, j :: 0 <= i < j < |frames| ==> !(Unsent(frames[i]) && Unsent(frames[j]))
  }

  function Serials(frames: seq<Frame>): (s: set<nat>)
    ensures forall i :: 0 <= i < |frames| ==> frames[i].serial in s
  {
    if frames == [] then {} else Serials(frames[..|frames| - 1]) + {frames[|frames| - 1].serial}
  }

  ghost predicate Stands(serials: set<nat>, status: seq<int>, verdict: int) {
    forall s :: s in serials ==> s < |status| && status[s] == verdict
  }

  ghost predicate Covers(serials: set<nat>, n: nat) {
    forall s: nat :: s < n ==> s in serials
  }

  /** Every accepted frame is in one place, and its receipt says which. */
  ghost predicate Receipts(status: seq<int>, sent: set<nat>, waiting: set<nat>, lost: set<nat>) {
    && Stands(sent, status, 1) && Stands(waiting, status, 0) && Stands(lost, status, -1)
    && Covers(sent + waiting + lost, |status|)
  }

  ghost predicate Placed(q: Queue) {
    && Receipts(q.status, Serials(q.sent), Serials(q.frames), Serials(q.omitted) + Serials(q.discarded))
    && (forall i :: 0 <= i < |q.omitted| ==> Unsent(q.omitted[i]))
    && (forall i :: 0 <= i < |q.sent| ==> q.sent[i].offset == |q.sent[i].data|)
  }

  predicate Counted(q: Queue) {
    q.bytes == Remaining(q.frames) <= CLIENT_BYTES && q.count == |q.frames| <= CLIENT_FRAMES
  }

  ghost predicate Leased(frames: seq<Frame>, limit: int) {
    forall i :: 0 <= i < |frames| ==> frames[i].deadline <= limit
  }

  /** What the socket took: the completed frames, then part of the next. */
  ghost predicate InLine(sent: seq<Frame>, rest: seq<Frame>, wire: seq<Byte>, n: nat) {
    Rising(sent + rest, n) && HeadOnly(rest) && wire == Whole(sent) + Partial(rest)
  }

  ghost predicate Lined(q: Queue) {
    && (q.open ==> q.discarded == []) && (!q.open ==> q.frames == [])
    && OneSnapshot(q.frames) && InLine(q.sent, Rest(q), q.wire, |q.status|)
  }

  ghost predicate Inv(q: Queue) {
    Lined(q) && Placed(q) && Counted(q) && Leased(q.frames, q.clock + DEADLINE_MS)
  }

  // --------------------------------------------------------------- coalescing

  lemma {:induction false} KeptCounts(frames: seq<Frame>)
    ensures |Kept(frames)| + |Gone(frames)| == |frames|
    ensures Remaining(Kept(frames)) + Remaining(Gone(frames)) == Remaining(frames)
  {
    if frames != [] {
      KeptCounts(frames[..|frames| - 1]);
    }
  }

  lemma {:induction false} RisingMore(frames: seq<Frame>, n: nat, m: nat)
    requires Rising(frames, n) && n <= m
    ensures Rising(frames, m)
  {}

  lemma {:induction false} KeptRising(a: seq<Frame>, frames: seq<Frame>, n: nat)
    requires Rising(a + frames, n)
    ensures Rising(a + Kept(frames), n)
  {
    if frames != [] {
      var k := |frames| - 1;
      var x := frames[k];
      assert (a + frames)[..|a + frames| - 1] == a + frames[..k];
      KeptRising(a, frames[..k], x.serial);
      if Unsent(x) {
        RisingMore(a + Kept(frames[..k]), x.serial, n);
      } else {
        assert a + Kept(frames) == (a + Kept(frames[..k])) + [x];
        assert ((a + Kept(frames[..k])) + [x])[..|a + Kept(frames[..k])|] == a + Kept(frames[..k]);
      }
    }
  }

  lemma {:induction false} KeptHead(frames: seq<Frame>)
    requires HeadOnly(frames)
    ensures HeadOnly(Kept(frames)) && Partial(Kept(frames)) == Partial(frames)
    ensures forall i :: 0 <= i < |Kept(frames)| ==> !Unsent(Kept(frames)[i])
  {
    if frames != [] {
      KeptHead(frames[..|frames| - 1]);
    }
  }

  lemma SerialsPush(frames: seq<Frame>, x: Frame)
    ensures Serials(frames + [x]) == Serials(frames) + {x.serial}
  {
    assert (frames + [x])[..|frames|] == frames;
  }

  lemma {:induction false} GoneUnsent(frames: seq<Frame>)
    ensures forall i :: 0 <= i < |Gone(frames)| ==> Unsent(Gone(frames)[i])
  {
    if frames != [] {
      GoneUnsent(frames[..|frames| - 1]);
    }
  }

  lemma {:induction false} RisingBound(frames: seq<Frame>, n: nat)
    requires Rising(frames, n)
    ensures forall s :: s in Serials(frames) ==> s < n
  {
    if frames != [] {
      RisingBound(frames[..|frames| - 1], frames[|frames| - 1].serial);
    }
  }

  lemma SplitPush(frames: seq<Frame>)
    requires frames != []
    ensures var front, x := frames[..|frames| - 1], frames[|frames| - 1];
      && Serials(frames) == Serials(front) + {x.serial}
      && Serials(Kept(frames)) == (if Unsent(x) then Serials(Kept(front)) else Serials(Kept(front)) + {x.serial})
      && Serials(Gone(frames)) == (if Unsent(x) then Serials(Gone(front)) + {x.serial} else Serials(Gone(front)))
  {
    var front, x := frames[..|frames| - 1], frames[|frames| - 1];
    SerialsPush(Gone(front), x);
    SerialsPush(Kept(front), x);
  }

  /** Coalescing splits the line: no frame is both kept and gone. */
  lemma {:induction false} KeptGone(frames: seq<Frame>, n: nat)
    requires Rising(frames, n)
    ensures Serials(frames) == Serials(Kept(frames)) + Serials(Gone(frames))
    ensures Serials(Kept(frames)) !! Serials(Gone(frames))
  {
    if frames != [] {
      var front, x := frames[..|frames| - 1], frames[|frames| - 1];
      KeptGone(front, x.serial);
      RisingBound(front, x.serial);
      SplitPush(frames);
      hide Serials, Kept, Gone;
      assert x.serial !in Serials(front);
    }
  }

  /** Frames removed before completion have receipts that say so. */
  lemma {:induction false} SettleLost(status: seq<int>, gone: seq<Frame>)
    requires forall i :: 0 <= i < |gone| ==> gone[i].offset < |gone[i].data|
    ensures forall s :: 0 <= s < |status| ==> Settle(status, gone)[s] == if s in Serials(gone) then -1 else status[s]
  {
    if gone != [] {
      SettleLost(status, gone[..|gone| - 1]);
    }
  }

  lemma {:induction false} SerialsIn(frames: seq<Frame>, s: nat)
    ensures s in Serials(frames) <==> exists i :: 0 <= i < |frames| && frames[i].serial == s
  {
    if frames != [] {
      var k := |frames| - 1;
      SerialsIn(frames[..k], s);
      if s in Serials(frames[..k]) {
        var i :| 0 <= i < k && frames[..k][i].serial == s;
        assert frames[i].serial == s;
      }
    }
  }

  lemma {:induction false} KeptLeased(frames: seq<Frame>, limit: int)
    requires Leased(frames, limit)
    ensures Leased(Kept(frames), limit) && Leased(Gone(frames), limit)
  {
    if frames != [] {
      KeptLeased(frames[..|frames| - 1], limit);
    }
  }

  lemma {:induction false} SerialsJoin(a: seq<Frame>, b: seq<Frame>)
    ensures Serials(a + b) == Serials(a) + Serials(b)
  {
    if b == [] {
      assert a + b == a;
    } else {
      var k := |b| - 1;
      SerialsJoin(a, b[..k]);
      assert (a + b)[..|a + b| - 1] == a + b[..k];
    }
  }

  /** Waiting frames in `gone` become lost ones. */
  lemma LoseReceipts(status: seq<int>, now: seq<int>, sent: set<nat>, kept: set<nat>, gone: set<nat>, lost: set<nat>)
    requires Receipts(status, sent, kept + gone, lost) && kept !! gone
    requires |now| == |status| && forall s :: 0 <= s < |status| ==> now[s] == if s in gone then -1 else status[s]
    ensures Receipts(now, sent, kept, lost + gone)
  {}

  lemma CoalesceReceipts(q: Queue)
    requires Placed(q) && HeadOnly(q.frames) && Rising(q.frames, |q.status|)
    ensures Receipts(Coalesced(q).status, Serials(q.sent), Serials(Kept(q.frames)),
                     Serials(q.omitted) + Serials(q.discarded) + Serials(Gone(q.frames)))
  {
    var gone := Gone(q.frames);
    GoneShort(q.frames);
    KeptGone(q.frames, |q.status|);
    SettleLost(q.status, gone);
    hide Serials, Settle, Gone, Kept, Rising, HeadOnly, Receipts;
    LoseReceipts(q.status, Settle(q.status, gone), Serials(q.sent), Serials(Kept(q.frames)), Serials(gone),
                 Serials(q.omitted) + Serials(q.discarded));
  }

  lemma CoalescePlaced(q: Queue)
    requires Placed(q) && HeadOnly(q.frames) && Rising(q.frames, |q.status|)
    ensures Placed(Coalesced(q))
  {
    hide Serials, Settle, Gone, Kept, Rising, HeadOnly, Receipts;
    var gone := Gone(q.frames);
    CoalesceReceipts(q);
    GoneUnsent(q.frames);
    SerialsJoin(q.omitted, gone);
    assert Serials(q.omitted) + Serials(q.discarded) + Serials(gone) == Serials(q.omitted + gone) + Serials(q.discarded);
  }

  lemma {:induction false} GoneShort(frames: seq<Frame>)
    requires HeadOnly(frames)
    ensures forall i :: 0 <= i < |Gone(frames)| ==> Gone(frames)[i].offset < |Gone(frames)[i].data|
  {
    if frames != [] {
      GoneShort(frames[..|frames| - 1]);
    }
  }

  lemma {:induction false} RisingTail(a: seq<Frame>, b: seq<Frame>, n: nat)
    requires Rising(a + b, n)
    ensures Rising(b, n)
  {
    if b != [] {
      var k := |b| - 1;
      assert (a + b)[..|a + b| - 1] == a + b[..k];
      RisingTail(a, b[..k], b[k].serial);
    }
  }

  lemma CoalesceCounted(q: Queue)
    requires Counted(q) && HeadOnly(q.frames)
    ensures Counted(Coalesced(q))
  {
    KeptCounts(q.frames);
    GoneRemaining(q.frames);
    hide Kept, Gone, Remaining, Settle;
  }

  lemma {:induction false} GoneRemaining(frames: seq<Frame>)
    requires HeadOnly(frames)
    ensures Remaining(Gone(frames)) >= 0
  {
    if frames != [] {
      GoneRemaining(frames[..|frames| - 1]);
    }
  }

  lemma CoalesceInLine(sent: seq<Frame>, frames: seq<Frame>, wire: seq<Byte>, n: nat)
    requires InLine(sent, frames, wire, n)
    ensures InLine(sent, Kept(frames), wire, n) && Rising(frames, n)
  {
    KeptHead(frames);
    KeptRising(sent, frames, n);
    RisingTail(sent, frames, n);
  }

  /** What a coalesced queue looks like. */
  lemma CoalesceKeeps(q: Queue)
    requires Inv(q) && q.open
    ensures Inv(Coalesced(q)) && (forall i :: 0 <= i < |Coalesced(q).frames| ==> !Unsent(Coalesced(q).frames[i]))
  {
    hide Kept, Gone, Settle, Serials, Remaining, Whole, Partial, HeadOnly, Rising, Placed, Counted;
    var c := Coalesced(q);
    assert Rest(q) == q.frames && Rest(c) == c.frames;
    KeptHead(q.frames);
    CoalesceInLine(q.sent, q.frames, q.wire, |q.status|);
    CoalescePlaced(q);
    CoalesceCounted(q);
    KeptLeased(q.frames, q.clock + DEADLINE_MS);
  }

  // ------------------------------------------------------- append, flush, close

  /** A new frame joins the end of the line. */
  function Appended(c: Queue, x: Frame): Queue {
    c.(frames := c.frames + [x], bytes := c.bytes + |x.data|, count := c.count + 1, status := c.status + [0])
  }

  lemma RisingPush(frames: seq<Frame>, x: Frame)
    requires Rising(frames, x.serial)
    ensures Rising(frames + [x], x.serial + 1)
  {
    assert (frames + [x])[..|frames|] == frames;
  }

  lemma LinePush(sent: seq<Frame>, frames: seq<Frame>, wire: seq<Byte>, x: Frame)
    requires InLine(sent, frames, wire, x.serial) && OneSnapshot(frames) && x.offset == 0 && x.data != []
    requires x.snapshot ==> forall i :: 0 <= i < |frames| ==> !Unsent(frames[i])
    ensures InLine(sent, frames + [x], wire, x.serial + 1) && OneSnapshot(frames + [x])
  {
    hide Rising, Whole, HeadOnly, OneSnapshot, Partial, Unsent;
    FramesPush(frames, x);
    RisingPush(sent + frames, x);
    assert sent + (frames + [x]) == (sent + frames) + [x];
  }

  lemma FramesPush(frames: seq<Frame>, x: Frame)
    requires HeadOnly(frames) && OneSnapshot(frames) && x.offset == 0 && x.data != []
    requires x.snapshot ==> forall i :: 0 <= i < |frames| ==> !Unsent(frames[i])
    ensures HeadOnly(frames + [x]) && OneSnapshot(frames + [x]) && Partial(frames + [x]) == Partial(frames)
  {}

  lemma AppendLined(c: Queue, x: Frame)
    requires Lined(c) && c.open && x.serial == |c.status| && x.offset == 0 && x.data != []
    requires x.snapshot ==> forall i :: 0 <= i < |c.frames| ==> !Unsent(c.frames[i])
    ensures Lined(Appended(c, x))
  {
    hide InLine, OneSnapshot, Unsent;
    assert Rest(c) == c.frames && Rest(Appended(c, x)) == c.frames + [x];
    LinePush(c.sent, c.frames, c.wire, x);
  }

  lemma AppendPlaced(c: Queue, x: Frame)
    requires Placed(c) && x.serial == |c.status|
    ensures Placed(Appended(c, x))
  {
    SerialsPush(c.frames, x);
    hide Serials, Unsent;
    var q := Appended(c, x);
    var lost := Serials(c.omitted) + Serials(c.discarded);
    assert Receipts(q.status, Serials(c.sent), Serials(c.frames) + {x.serial}, lost);
  }

  lemma AppendKeeps(c: Queue, x: Frame)
    requires Inv(c) && c.open && x.serial == |c.status| && x.offset == 0 && x.data != []
    requires x.snapshot ==> forall i :: 0 <= i < |c.frames| ==> !Unsent(c.frames[i])
    requires c.bytes + |x.data| <= CLIENT_BYTES && c.count < CLIENT_FRAMES && x.deadline <= c.clock + DEADLINE_MS
    ensures Inv(Appended(c, x))
  {
    hide Lined, Placed;
    AppendLined(c, x);
    AppendPlaced(c, x);
    hide Unsent;
    assert (c.frames + [x])[..|c.frames|] == c.frames;
  }

  lemma EnqueueKeeps(q: Queue, message: nat, data: seq<Byte>, snapshot: bool, room: bool, now: int)
    requires Inv(q) && data != [] && now >= q.clock
    ensures Inv(DoEnqueue(q, message, data, snapshot, room, now))
  {
    hide Lined, Placed, Counted, Kept, Gone, Remaining, Settle, Earliest, Unsent, Coalesced;
    if q.open && !q.failed {
      if snapshot {
        CoalesceKeeps(q);
      }
      var c := (if snapshot then Coalesced(q) else q).(clock := now);
      assert c.open && |c.status| == |q.status| && Inv(c) by { Ticks(q, now); Ticks(Coalesced(q), now); }
      var deadline := if snapshot then Earliest(Gone(q.frames), now + DEADLINE_MS) else now + DEADLINE_MS;
      var x := Frame(|q.status|, message, data, 0, snapshot, deadline);
      if |data| <= CLIENT_BYTES - c.bytes && c.count < CLIENT_FRAMES {
        AppendKeeps(c, x);
        assert DoEnqueue(q, message, data, snapshot, true, now) == Appended(c, x);
      }
      Fails(c);
    }
  }

  lemma Ticks(q: Queue, now: int)
    ensures Inv(q) && now >= q.clock ==> Inv(q.(clock := now))
    ensures Coalesced(q).open == q.open && |Coalesced(q).status| == |q.status| && Coalesced(q).clock == q.clock
  {
    hide Kept, Gone, Settle, Receipts, Rising, HeadOnly, OneSnapshot;
    assert Rest(q.(clock := now)) == Rest(q);
  }

  lemma Fails(q: Queue)
    requires Inv(q)
    ensures Inv(q.(failed := true))
  {
    hide Receipts, Rising, HeadOnly, OneSnapshot;
    assert Rest(q.(failed := true)) == Rest(q);
  }

  lemma ReceiptSent(status: seq<int>, sent: set<nat>, waiting: set<nat>, lost: set<nat>, x: nat)
    requires Receipts(status, sent, waiting + {x}, lost) && x !in waiting && x < |status|
    ensures Receipts(status[x := 1], sent + {x}, waiting, lost)
  {}

  lemma {:induction false} SerialsFirst(frames: seq<Frame>, n: nat)
    requires frames != [] && Rising(frames, n)
    ensures Serials(frames) == {frames[0].serial} + Serials(frames[1..]) && frames[0].serial !in Serials(frames[1..])
  {
    var k := |frames| - 1;
    if k > 0 {
      var front, x := frames[..k], frames[k];
      SerialsFirst(front, x.serial);
      assert frames[1..] == front[1..] + [x];
      SerialsPush(front[1..], x);
      RisingBound(front, x.serial);
    }
  }

  lemma {:induction false} RemainingFirst(frames: seq<Frame>)
    requires frames != []
    ensures Remaining(frames) == |frames[0].data| - frames[0].offset + Remaining(frames[1..])
  {
    var k := |frames| - 1;
    if k > 0 {
      RemainingFirst(frames[..k]);
      assert frames[1..][..k - 1] == frames[..k][1..];
    }
  }

  lemma {:induction false} RisingSame(a: seq<Frame>, b: seq<Frame>, n: nat)
    requires Rising(a, n) && |a| == |b| && forall i :: 0 <= i < |a| ==> a[i].serial == b[i].serial
    ensures Rising(b, n)
  {
    if a != [] {
      RisingSame(a[..|a| - 1], b[..|b| - 1], a[|a| - 1].serial);
    }
  }

  /** The head after the socket took `n` more bytes of it. */
  function Advanced(f: Frame, n: nat): Frame { f.(offset := f.offset + n) }

  lemma PartialLine(frames: seq<Frame>, n: nat)
    requires frames != [] && HeadOnly(frames) && OneSnapshot(frames) && 0 < n && frames[0].offset + n < |frames[0].data|
    ensures var next := frames[0 := Advanced(frames[0], n)];
      && HeadOnly(next) && OneSnapshot(next)
      && Partial(next) == Partial(frames) + frames[0].data[frames[0].offset..frames[0].offset + n]
  {}

  lemma PartialSum(frames: seq<Frame>, n: nat)
    requires frames != []
    ensures Remaining(frames[0 := Advanced(frames[0], n)]) == Remaining(frames) - n
  {
    var next := frames[0 := Advanced(frames[0], n)];
    RemainingFirst(frames);
    RemainingFirst(next);
    assert next[1..] == frames[1..];
  }

  lemma {:induction false} SerialsSame(a: seq<Frame>, b: seq<Frame>)
    requires |a| == |b| && forall i :: 0 <= i < |a| ==> a[i].serial == b[i].serial
    ensures Serials(a) == Serials(b)
  {
    if a != [] {
      SerialsSame(a[..|a| - 1], b[..|b| - 1]);
    }
  }

  lemma WholeLine(frames: seq<Frame>)
    requires frames != [] && HeadOnly(frames) && OneSnapshot(frames)
    ensures HeadOnly(frames[1..]) && OneSnapshot(frames[1..]) && Partial(frames[1..]) == []
    ensures Partial(frames) + frames[0].data[frames[0].offset..] == frames[0].data
  {}

  /** The socket took `n` bytes of the head, which stays. */
  function Took(q: Queue, n: nat): Queue
    requires q.frames != [] && q.frames[0].offset + n <= |q.frames[0].data|
  {
    var f := q.frames[0];
    q.(bytes := q.bytes - n, wire := q.wire + f.data[f.offset..f.offset + n], frames := q.frames[0 := Advanced(f, n)])
  }

  lemma TookInLine(sent: seq<Frame>, frames: seq<Frame>, wire: seq<Byte>, serials: nat, n: nat)
    requires InLine(sent, frames, wire, serials) && OneSnapshot(frames)
    requires frames != [] && 0 < n && frames[0].offset + n < |frames[0].data|
    ensures var f, g := frames[0], frames[0 := Advanced(frames[0], n)];
      InLine(sent, g, wire + f.data[f.offset..f.offset + n], serials) && OneSnapshot(g)
  {
    hide Partial, HeadOnly, OneSnapshot, Whole, Rising;
    PartialLine(frames, n);
    TookRising(sent, frames, serials, Advanced(frames[0], n));
    var f := frames[0];
    TookWire(sent, frames, frames[0 := Advanced(f, n)], wire, f.data[f.offset..f.offset + n], serials);
  }

  lemma TookWire(sent: seq<Frame>, frames: seq<Frame>, next: seq<Frame>, wire: seq<Byte>, more: seq<Byte>, n: nat)
    requires InLine(sent, frames, wire, n) && Partial(next) == Partial(frames) + more && HeadOnly(next) && Rising(sent + next, n)
    ensures InLine(sent, next, wire + more, n)
  {
    hide Partial, HeadOnly, Whole, Rising;
    Associate(Whole(sent), Partial(frames), more);
  }

  lemma TookRising(sent: seq<Frame>, frames: seq<Frame>, n: nat, g: Frame)
    requires Rising(sent + frames, n) && frames != [] && g.serial == frames[0].serial
    ensures Rising(sent + frames[0 := g], n)
  {
    hide Rising;
    RisingSame(sent + frames, sent + frames[0 := g], n);
  }

  lemma Associate<T>(a: seq<T>, b: seq<T>, c: seq<T>)
    ensures (a + b) + c == a + (b + c)
  {}

  lemma TookKeeps(q: Queue, n: nat)
    requires Inv(q) && q.open && q.frames != [] && 0 < n && q.frames[0].offset + n < |q.frames[0].data|
    ensures Inv(Took(q, n))
  {
    hide InLine, Placed, OneSnapshot, Remaining, Leased;
    assert Rest(q) == q.frames;
    TookInLine(q.sent, q.frames, q.wire, |q.status|, n);
    InLineHead(q.sent, q.frames, q.wire, |q.status|);
    TookPlaced(q, n);
    TookCounted(q, n);
    assert Rest(Took(q, n)) == Took(q, n).frames;
  }

  lemma TookCounted(q: Queue, n: nat)
    requires Counted(q) && Leased(q.frames, q.clock + DEADLINE_MS) && HeadOnly(q.frames) && OneSnapshot(q.frames)
    requires q.frames != [] && 0 < n && q.frames[0].offset + n < |q.frames[0].data|
    ensures Counted(Took(q, n)) && Leased(Took(q, n).frames, q.clock + DEADLINE_MS)
  {
    hide HeadOnly, OneSnapshot, Remaining;
    PartialSum(q.frames, n);
  }

  lemma InLineHead(sent: seq<Frame>, frames: seq<Frame>, wire: seq<Byte>, n: nat)
    requires InLine(sent, frames, wire, n)
    ensures HeadOnly(frames) && Rising(frames, n)
  {
    RisingTail(sent, frames, n);
  }

  lemma TookPlaced(q: Queue, n: nat)
    requires Placed(q) && q.frames != [] && q.frames[0].offset + n <= |q.frames[0].data|
    ensures Placed(Took(q, n))
  {
    hide Receipts, Serials, Unsent;
    SerialsSame(q.frames, Took(q, n).frames);
  }

  lemma WholePush(sent: seq<Frame>, g: Frame)
    ensures Whole(sent + [g]) == Whole(sent) + g.data
  {
    assert (sent + [g])[..|sent|] == sent;
  }

  lemma FlushedInLine(sent: seq<Frame>, frames: seq<Frame>, wire: seq<Byte>, n: nat, g: Frame)
    requires InLine(sent, frames, wire, n) && frames != [] && OneSnapshot(frames) && g == frames[0].(offset := |frames[0].data|)
    ensures InLine(sent + [g], frames[1..], wire + frames[0].data[frames[0].offset..], n) && OneSnapshot(frames[1..])
  {
    hide Whole, Partial, OneSnapshot, Rising;
    WholeLine(frames);
    WholePush(sent, g);
    FlushedRising(sent, frames, n, g);
    Associate(Whole(sent), Partial(frames), frames[0].data[frames[0].offset..]);
  }

  lemma FlushedRising(sent: seq<Frame>, frames: seq<Frame>, n: nat, g: Frame)
    requires Rising(sent + frames, n) && frames != [] && g.serial == frames[0].serial
    ensures Rising((sent + [g]) + frames[1..], n)
  {
    hide Rising;
    RisingSame(sent + frames, (sent + [g]) + frames[1..], n);
  }

  lemma FlushedPlaced(q: Queue, g: Frame)
    requires Placed(q) && Rising(q.frames, |q.status|) && q.frames != [] && g == q.frames[0].(offset := |q.frames[0].data|)
    ensures Placed(q.(sent := q.sent + [g], frames := q.frames[1..], status := Settle(q.status, [g])))
  {
    SerialsFirst(q.frames, |q.status|);
    RisingBound(q.frames, |q.status|);
    SerialsPush(q.sent, g);
    assert Settle(q.status, [g]) == q.status[g.serial := 1];
    hide Serials, Settle, Rising, Receipts, Unsent;
    var lost := Serials(q.omitted) + Serials(q.discarded);
    ReceiptSent(q.status, Serials(q.sent), Serials(q.frames[1..]), lost, g.serial);
  }

  /** The socket took the rest of the head, which is complete. */
  function Completed(q: Queue): Queue
    requires q.frames != [] && q.frames[0].offset <= |q.frames[0].data|
  {
    var f := q.frames[0];
    var g := f.(offset := |f.data|);
    q.(bytes := q.bytes - (|f.data| - f.offset), wire := q.wire + f.data[f.offset..], frames := q.frames[1..],
       count := q.count - 1, sent := q.sent + [g], status := Settle(q.status, [g]))
  }

  lemma CompletedKeeps(q: Queue)
    requires Inv(q) && q.open && q.frames != []
    ensures q.frames[0].offset < |q.frames[0].data| && Inv(Completed(q))
  {
    hide InLine, OneSnapshot, Placed, Remaining, Settle;
    var g := q.frames[0].(offset := |q.frames[0].data|);
    assert Rest(q) == q.frames;
    InLineHead(q.sent, q.frames, q.wire, |q.status|);
    assert Rest(Completed(q)) == q.frames[1..];
    RemainingFirst(q.frames);
    hide HeadOnly;
    FlushedInLine(q.sent, q.frames, q.wire, |q.status|, g);
    FlushedPlaced(q, g);
    CompletedPlaced(q, g);
  }

  lemma CompletedPlaced(q: Queue, g: Frame)
    requires q.frames != [] && q.frames[0].offset <= |q.frames[0].data| && g == q.frames[0].(offset := |q.frames[0].data|)
    requires Placed(q.(sent := q.sent + [g], frames := q.frames[1..], status := Settle(q.status, [g])))
    ensures Placed(Completed(q))
  {
    hide Receipts, Serials, Settle, Unsent;
  }

  lemma FlushKeeps(q: Queue, budget: nat, outcome: Outcome)
    requires Inv(q) && Enabled(q, Flush(budget, outcome))
    ensures Inv(DoFlush(q, budget, outcome))
  {
    hide Inv, Settle;
    if !q.failed && q.open && q.frames != [] && budget != 0 {
      match outcome {
        case Wrote(n) =>
          var f := q.frames[0];
          if f.offset + n < |f.data| {
            TookKeeps(q, n);
          } else {
            CompletedKeeps(q);
            assert f.data[f.offset..f.offset + n] == f.data[f.offset..];
          }
        case Blocked =>
        case Broken => Fails(q);
      }
    }
  }

  lemma DisconnectReceipts(q: Queue)
    requires Placed(q) && HeadOnly(q.frames)
    ensures Receipts(Settle(q.status, q.frames), Serials(q.sent), {}, Serials(q.omitted) + Serials(q.discarded) + Serials(q.frames))
  {
    SettleLost(q.status, q.frames);
    hide Serials, Settle, HeadOnly, Receipts, Remaining, Unsent;
    assert {} + Serials(q.frames) == Serials(q.frames);
    LoseReceipts(q.status, Settle(q.status, q.frames), Serials(q.sent), {}, Serials(q.frames),
                 Serials(q.omitted) + Serials(q.discarded));
  }

  lemma DisconnectPlaced(q: Queue)
    requires Placed(q) && HeadOnly(q.frames)
    ensures Placed(DoDisconnect(q))
  {
    DisconnectReceipts(q);
    assert Serials([]) == {};
    hide Serials, Settle, HeadOnly, Receipts, Remaining, Unsent;
    SerialsJoin(q.discarded, q.frames);
    assert Serials(q.omitted) + Serials(q.discarded) + Serials(q.frames) ==
           Serials(q.omitted) + Serials(q.discarded + q.frames);
  }

  lemma DisconnectKeeps(q: Queue)
    requires Inv(q)
    ensures Inv(DoDisconnect(q))
  {
    var c := DoDisconnect(q);
    hide InLine, Placed, Settle, Serials;
    assert Rest(c) == Rest(q);
    assert HeadOnly(q.frames) by { InLineHead(q.sent, Rest(q), q.wire, |q.status|); assert q.frames == Rest(q) || q.frames == []; }
    DisconnectPlaced(q);
  }

  lemma StepKeeps(q: Queue, op: Op)
    requires Inv(q)
    ensures Inv(Apply(q, op))
  {
    hide Inv, DoEnqueue, DoFlush, DoDisconnect;
    if Enabled(q, op) {
      match op {
        case Enqueue(message, data, snapshot, room, now) => EnqueueKeeps(q, message, data, snapshot, room, now);
        case Flush(budget, outcome) => FlushKeeps(q, budget, outcome);
        case Reject => Fails(q);
        case Disconnect => DisconnectKeeps(q);
      }
    }
  }

  // --------------------------------------------------------------- every run

  lemma {:induction false} RunKeeps(ops: seq<Op>)
    ensures Inv(Run(Init(), ops))
  {
    if ops != [] {
      hide Inv;
      RunKeeps(ops[..|ops| - 1]);
      StepKeeps(Run(Init(), ops[..|ops| - 1]), ops[|ops| - 1]);
    }
  }

  lemma {:induction false} WholeJoin(a: seq<Frame>, b: seq<Frame>)
    ensures Whole(a + b) == Whole(a) + Whole(b)
  {
    if b == [] {
      assert a + b == a;
    } else {
      var k := |b| - 1;
      WholeJoin(a, b[..k]);
      assert (a + b)[..|a + b| - 1] == a + b[..k];
      Associate(Whole(a), Whole(b[..k]), b[k].data);
    }
  }

  lemma {:induction false} PartialPrefix(frames: seq<Frame>)
    ensures Partial(frames) <= Whole(frames)
  {
    if frames != [] {
      var k := |frames| - 1;
      if k == 0 {
        assert Whole(frames[..0]) == [];
      } else {
        PartialPrefix(frames[..k]);
      }
    }
  }

  lemma {:induction false} RisingOrder(frames: seq<Frame>, n: nat, i: nat, j: nat)
    requires Rising(frames, n) && i < j < |frames|
    ensures frames[i].serial < frames[j].serial
  {
    if j < |frames| - 1 {
      RisingOrder(frames[..|frames| - 1], frames[|frames| - 1].serial, i, j);
    } else {
      RisingBound(frames[..j], frames[j].serial);
      assert frames[..j][i].serial in Serials(frames[..j]);
    }
  }

  /** For every run, the bytes on the socket are a prefix of whole frames in
      enqueue order; whatever is missing from that line was a snapshot of which
      nothing had been sent. Only the head may be partly sent, and at most one
      unsent snapshot waits. */
  lemma WireIsFramesInOrder(ops: seq<Op>)
    ensures var q := Run(Init(), ops);
      var line := q.sent + Rest(q);
      && q.wire == Whole(q.sent) + Partial(Rest(q)) && q.wire <= Whole(line)
      && (forall i, j :: 0 <= i < j < |line| ==> line[i].serial < line[j].serial)
      && (forall s: nat :: s < |q.status| ==> s in Serials(line) || s in Serials(q.omitted))
      && (forall i :: 0 <= i < |q.omitted| ==> q.omitted[i].snapshot && q.omitted[i].offset == 0)
      && (forall i :: 0 < i < |q.frames| ==> q.frames[i].offset == 0)
      && (forall i, j :: 0 <= i < j < |q.frames| ==> !(Unsent(q.frames[i]) && Unsent(q.frames[j])))
  {
    var q := Run(Init(), ops);
    RunKeeps(ops);
    hide Run;
    InvWire(q);
    InvOrder(q);
  }

  lemma InvWire(q: Queue)
    requires Inv(q)
    ensures q.wire == Whole(q.sent) + Partial(Rest(q)) && q.wire <= Whole(q.sent + Rest(q))
    ensures forall s: nat :: s < |q.status| ==> s in Serials(q.sent + Rest(q)) || s in Serials(q.omitted)
    ensures forall i :: 0 <= i < |q.omitted| ==> q.omitted[i].snapshot && q.omitted[i].offset == 0
  {
    hide Rising, HeadOnly, OneSnapshot, Counted, Leased, Partial, Whole, Serials;
    WholeJoin(q.sent, Rest(q));
    PartialPrefix(Rest(q));
    SerialsJoin(q.sent, Rest(q));
    SerialsJoin(q.frames, q.discarded);
  }

  lemma InvOrder(q: Queue)
    requires Inv(q)
    ensures var line := q.sent + Rest(q); forall i, j :: 0 <= i < j < |line| ==> line[i].serial < line[j].serial
    ensures forall i :: 0 < i < |q.frames| ==> q.frames[i].offset == 0
    ensures forall i, j :: 0 <= i < j < |q.frames| ==> !(Unsent(q.frames[i]) && Unsent(q.frames[j]))
  {
    var line := q.sent + Rest(q);
    hide Rising, Placed, Counted, Leased, Partial, Whole;
    forall i, j | 0 <= i < j < |line| ensures line[i].serial < line[j].serial {
      RisingOrder(line, |q.status|, i, j);
    }
    assert forall i :: 0 <= i < |q.frames| ==> Rest(q)[i] == q.frames[i];
  }

  /** A delivery receipt reads 1 exactly when all its frame's bytes were written,
      0 exactly while the frame waits, and -1 otherwise. */
  lemma ReceiptMeansDelivered(ops: seq<Op>, s: nat)
    requires s < |Run(Init(), ops).status|
    ensures var q := Run(Init(), ops);
      && (q.status[s] == 1 <==> exists i :: 0 <= i < |q.sent| && q.sent[i].serial == s && q.sent[i].offset == |q.sent[i].data|)
      && (q.status[s] == 0 <==> exists i :: 0 <= i < |q.frames| && q.frames[i].serial == s)
      && (q.status[s] == -1 <==> s in Serials(q.omitted) || s in Serials(q.discarded))
  {
    RunKeeps(ops);
    hide Run;
    InvReceipt(Run(Init(), ops), s);
  }

  lemma InvReceipt(q: Queue, s: nat)
    requires Inv(q) && s < |q.status|
    ensures q.status[s] == 1 <==> exists i :: 0 <= i < |q.sent| && q.sent[i].serial == s && q.sent[i].offset == |q.sent[i].data|
    ensures q.status[s] == 0 <==> exists i :: 0 <= i < |q.frames| && q.frames[i].serial == s
    ensures q.status[s] == -1 <==> s in Serials(q.omitted) || s in Serials(q.discarded)
  {
    hide Lined, Counted, Leased, Serials;
    SerialsIn(q.sent, s);
    SerialsIn(q.frames, s);
  }

  /** Per-queue counters are the waiting frames, within their limits. */
  lemma CountersAreTheFrames(ops: seq<Op>)
    ensures var q := Run(Init(), ops);
      q.bytes == Remaining(q.frames) <= CLIENT_BYTES && q.count == |q.frames| <= CLIENT_FRAMES
  {
    RunKeeps(ops);
  }

  // --------------------------------------------------------------- deadlines

  function Min(a: int, b: int): int { if a < b then a else b }

  predicate Pending(q: Queue) { q.open && (q.frames != [] || q.failed) }

  /** -1 idle, 0 disconnect now, otherwise milliseconds to the next deadline. */
  function RemainingMs(q: Queue, now: int): int {
    if !Pending(q) then -1
    else if q.failed then 0
    else
      var remaining := Earliest(q.frames, now + DEADLINE_MS) - now;
      if remaining <= 0 then 0 else remaining
  }

  lemma {:induction false} EarliestSplit(frames: seq<Frame>, limit: int)
    ensures Earliest(frames, limit) == Min(Earliest(Kept(frames), limit), Earliest(Gone(frames), limit))
  {
    if frames != [] {
      var k := |frames| - 1;
      EarliestSplit(frames[..k], limit);
      EarliestPush(Kept(frames[..k]), frames[k], limit);
      EarliestPush(Gone(frames[..k]), frames[k], limit);
    }
  }

  lemma EarliestPush(frames: seq<Frame>, x: Frame, limit: int)
    ensures Earliest(frames + [x], limit) == Min(Earliest(frames, limit), x.deadline)
  {
    assert (frames + [x])[..|frames|] == frames;
  }

  lemma {:induction false} EarliestLimit(frames: seq<Frame>, a: int, b: int)
    ensures Min(Earliest(frames, a), b) == Min(Earliest(frames, b), a)
  {
    if frames != [] {
      EarliestLimit(frames[..|frames| - 1], a, b);
    }
  }

  predicate Refuses(q: Queue, data: seq<Byte>, snapshot: bool, room: bool) {
    var c := if snapshot then Coalesced(q) else q;
    |data| > CLIENT_BYTES - c.bytes || c.count >= CLIENT_FRAMES || !room
  }

  /** An accepted enqueue, however many snapshots it replaces, leaves the
      earliest deadline where it was unless the new frame's own is earlier. */
  lemma AcceptedEnqueueNeverRenews(q: Queue, op: Op, limit: int)
    requires q.open && !q.failed && op.Enqueue? && Enabled(q, op) && !Refuses(q, op.data, op.snapshot, op.room)
    ensures Earliest(Apply(q, op).frames, limit) == Min(Earliest(q.frames, limit), op.now + DEADLINE_MS)
  {
    hide Kept, Gone, Earliest, Settle, Remaining;
    EarliestSplit(q.frames, limit);
    var d := if op.snapshot then Earliest(Gone(q.frames), op.now + DEADLINE_MS) else op.now + DEADLINE_MS;
    var x := Frame(|q.status|, op.message, op.data, 0, op.snapshot, d);
    EarliestPush(if op.snapshot then Kept(q.frames) else q.frames, x, limit);
    EarliestLimit(Gone(q.frames), limit, op.now + DEADLINE_MS);
    assert Apply(q, op).frames == (if op.snapshot then Kept(q.frames) else q.frames) + [x];
  }

  /** An enqueue can raise the earliest deadline only by being refused after its
      unsent predecessor, the most urgent frame, was removed; exactly then. */
  lemma EnqueueRaisesDeadlineOnlyWhenRefused(q: Queue, op: Op, limit: int)
    requires q.open && !q.failed && op.Enqueue? && Enabled(q, op)
    ensures Earliest(Apply(q, op).frames, limit) > Earliest(q.frames, limit) <==>
      && op.snapshot && Refuses(q, op.data, op.snapshot, op.room)
      && Earliest(Gone(q.frames), limit) < Earliest(Kept(q.frames), limit)
  {
    hide Kept, Gone, Earliest, Settle, Remaining;
    EarliestSplit(q.frames, limit);
    if !Refuses(q, op.data, op.snapshot, op.room) {
      AcceptedEnqueueNeverRenews(q, op, limit);
    }
  }

  /** It does happen: a refused snapshot takes the earlier lease with it. */
  lemma RefusedEnqueueRaisesDeadline(a: Op, b: Op, c: Op)
    requires a == Enqueue(0, [1], true, true, 0) && b == Enqueue(1, [2], false, true, 500)
    requires c == Enqueue(2, [3], true, false, 600)
    ensures var q := Run(Init(), [a, b]);
      Earliest(q.frames, 9000) == 1000 && Earliest(Apply(q, c).frames, 9000) == 1500
  {
    hide Run, Settle, Remaining, Gone, Kept, Earliest, Apply;
    RunTwo(Init(), a, b);
    FirstFrame(Init(), a);
    SecondFrame(Apply(Init(), a), b);
    RefusedFrame(Apply(Apply(Init(), a), b), c);
  }

  lemma RunTwo(q: Queue, a: Op, b: Op)
    ensures Run(q, [a, b]) == Apply(Apply(q, a), b)
  {
    hide Apply;
    assert [a, b][..1] == [a] && [a][..0] == [];
    assert Run(q, [a]) == Apply(q, a);
  }

  lemma NoFrames(e: seq<Frame>, limit: int)
    requires e == []
    ensures Kept(e) == [] && Gone(e) == [] && Remaining(e) == 0 && Earliest(e, limit) == limit
  {}

  /** An accepted snapshot in an empty queue. */
  lemma OnlyFrame(q: Queue, message: nat, data: seq<Byte>, now: int)
    requires q.frames == [] && q.open && !q.failed && q.bytes == 0 && q.count == 0 && |data| <= CLIENT_BYTES
    ensures var p := DoEnqueue(q, message, data, true, true, now);
      && p.frames == [Frame(|q.status|, message, data, 0, true, now + DEADLINE_MS)] && |p.status| == |q.status| + 1
      && p.open && !p.failed && p.bytes == |data| && p.count == 1 && p.clock == now
  {
    hide Settle, Remaining, Gone, Kept, Earliest;
    NoFrames(q.frames, now + DEADLINE_MS);
  }

  lemma FirstFrame(q: Queue, a: Op)
    requires q == Init() && a == Enqueue(0, [1], true, true, 0)
    ensures var p := Apply(q, a);
      && p.frames == [Frame(0, 0, [1], 0, true, 1000)] && |p.status| == 1
      && p.open && !p.failed && p.bytes == 1 && p.count == 1 && p.clock == 0
  {
    hide DoEnqueue;
    OnlyFrame(q, a.message, a.data, a.now);
  }

  lemma SecondFrame(q: Queue, b: Op)
    requires b == Enqueue(1, [2], false, true, 500) && |q.frames| == 1 && |q.status| == 1
    requires q.open && !q.failed && q.bytes == 1 && q.count == 1 && q.clock == 0
    ensures var p := Apply(q, b);
      p.frames == q.frames + [Frame(1, 1, [2], 0, false, 1500)] && p.open && !p.failed && p.clock == 500
  {
    hide Settle, Remaining, Gone, Kept, Earliest;
  }

  lemma RefusedFrame(q: Queue, c: Op)
    requires q.frames == [Frame(0, 0, [1], 0, true, 1000), Frame(1, 1, [2], 0, false, 1500)] && q.open && !q.failed
    requires c == Enqueue(2, [3], true, false, 600) && q.clock == 500
    ensures Earliest(q.frames, 9000) == 1000 && Earliest(Apply(q, c).frames, 9000) == 1500
  {
    hide Settle, Remaining, Gone, Kept, Earliest;
    TwoFrames(q.frames, q.frames[0], q.frames[1], 9000);
  }

  lemma KeptSecond(line: seq<Frame>, f: Frame, g: Frame)
    requires line == [f, g] && Unsent(f) && !Unsent(g)
    ensures Kept(line) == [g]
  {
    assert line[..1] == [f] && [f][..0] == [];
    assert Kept([f]) == [];
  }

  lemma TwoFrames(line: seq<Frame>, f: Frame, g: Frame, limit: int)
    requires line == [f, g] && Unsent(f) && !Unsent(g)
    ensures Kept(line) == [g] && Earliest([g], limit) == Min(limit, g.deadline)
    ensures Earliest(line, limit) == Min(Min(limit, f.deadline), g.deadline)
  {
    hide Kept, Earliest;
    KeptSecond(line, f, g);
    NoFrames([], limit);
    EarliestPush([], f, limit);
    EarliestPush([], g, limit);
    EarliestPush([f], g, limit);
    assert [] + [f] == [f] && [] + [g] == [g] && [f] + [g] == line;
  }

  /** What the daemon reports never moves away: after any enqueue the queue is
      due no later than it was. */
  lemma EnqueueNeverRaisesReport(q: Queue, op: Op, t: int)
    requires Pending(q) && op.Enqueue? && Enabled(q, op)
    ensures 0 <= RemainingMs(Apply(q, op), t) <= RemainingMs(q, t)
  {
    hide Kept, Gone, Earliest, Settle, Remaining;
    if !q.failed && !Refuses(q, op.data, op.snapshot, op.room) {
      AcceptedEnqueueNeverRenews(q, op, t + DEADLINE_MS);
    }
  }

  /** No byte taken and no disconnect. */
  predicate Stalls(op: Op) {
    match op
    case Enqueue(_, _, _, _, _) => true
    case Flush(_, outcome) => !outcome.Wrote?
    case Reject => true
    case Disconnect => false
  }

  ghost predicate Due(q: Queue, limit: int) {
    q.open && (q.failed || exists i :: 0 <= i < |q.frames| && q.frames[i].deadline <= limit)
  }

  lemma StallKeepsDue(q: Queue, op: Op, limit: int)
    requires Due(q, limit) && Stalls(op)
    ensures Due(Apply(q, op), limit)
  {
    hide Kept, Gone, Earliest, Settle, Remaining;
    if Enabled(q, op) && op.Enqueue? && !q.failed && !Refuses(q, op.data, op.snapshot, op.room) {
      AcceptedEnqueueNeverRenews(q, op, limit + 1);
      assert Earliest(q.frames, limit + 1) <= limit;
      assert Earliest(Apply(q, op).frames, limit + 1) <= limit;
    }
  }

  lemma {:induction false} StallsKeepDue(q: Queue, ops: seq<Op>, limit: int)
    requires Due(q, limit) && forall i :: 0 <= i < |ops| ==> Stalls(ops[i])
    ensures Due(Run(q, ops), limit)
  {
    if ops != [] {
      hide Apply, Due;
      StallsKeepDue(q, ops[..|ops| - 1], limit);
      StallKeepsDue(Run(q, ops[..|ops| - 1]), ops[|ops| - 1], limit);
    }
  }

  /** A peer that takes no bytes while its queue is not empty is reported expired
      within 1000 ms, however many snapshots are coalesced meanwhile. */
  lemma StalledPeerExpires(before: seq<Op>, stalled: seq<Op>, t: int)
    requires var q := Run(Init(), before); q.open && q.frames != [] && t >= q.clock + DEADLINE_MS
    requires forall i :: 0 <= i < |stalled| ==> Stalls(stalled[i])
    ensures RemainingMs(Run(Run(Init(), before), stalled), t) == 0
  {
    var q := Run(Init(), before);
    RunKeeps(before);
    hide Run, Lined, Placed, Counted, Kept, Gone, Earliest;
    assert q.frames[0].deadline <= q.clock + DEADLINE_MS;
    StallsKeepDue(q, stalled, q.clock + DEADLINE_MS);
  }
}
