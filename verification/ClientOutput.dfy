/** The output queue as the control thread updates it. */
module ClientOutput {
  import opened OutputQueue

  /** One frame leaves the queue: counters shrink and its receipt is settled. */
  function Without(q: Queue, f: Frame): Queue {
    q.(bytes := q.bytes - (|f.data| - f.offset), count := q.count - 1, status := Settle(q.status, [f]))
  }

  lemma SettleOne(status: seq<int>, gone: seq<Frame>, f: Frame)
    ensures Settle(Settle(status, gone), [f]) == Settle(status, gone + [f])
  {
    assert (gone + [f])[..|gone|] == gone;
    assert [f][..0] == [];
  }

  /** The coalescing walk, as far as frame `n`. */
  ghost predicate Walked(q: Queue, n: nat, c: Queue, limit: int, deadline: int)
    requires n <= |q.frames|
  {
    var gone := Gone(q.frames[..n]);
    && c == q.(frames := Kept(q.frames[..n]), bytes := q.bytes - Remaining(gone), count := q.count - |gone|,
               omitted := q.omitted + gone, status := Settle(q.status, gone))
    && deadline == Earliest(gone, limit)
  }

  /** One more frame, kept or gone. */
  lemma WalkFrame(frames: seq<Frame>, n: nat, limit: int)
    requires n < |frames|
    ensures var f, kept, gone := frames[n], Kept(frames[..n]), Gone(frames[..n]);
      && Kept(frames[..n + 1]) == (if Unsent(f) then kept else kept + [f])
      && Gone(frames[..n + 1]) == (if Unsent(f) then gone + [f] else gone)
      && Remaining(gone + [f]) == Remaining(gone) + (|f.data| - f.offset)
      && Earliest(gone + [f], limit) == Min(Earliest(gone, limit), f.deadline)
  {
    var f, gone := frames[n], Gone(frames[..n]);
    assert frames[..n + 1][..n] == frames[..n];
    assert (gone + [f])[..|gone|] == gone;
  }

  lemma WalkOn(q: Queue, n: nat, c: Queue, limit: int, deadline: int)
    requires n < |q.frames| && Walked(q, n, c, limit, deadline)
    ensures var f := q.frames[n];
      if Unsent(f) then
        Walked(q, n + 1, Without(c, f).(omitted := c.omitted + [f]), limit, if f.deadline < deadline then f.deadline else deadline)
      else Walked(q, n + 1, c.(frames := c.frames + [f]), limit, deadline)
  {
    hide Settle, Kept, Gone, Remaining, Earliest;
    var f, gone := q.frames[n], Gone(q.frames[..n]);
    WalkFrame(q.frames, n, limit);
    SettleOne(q.status, gone, f);
    assert (q.omitted + gone) + [f] == q.omitted + (gone + [f]);
  }

  /** Removes unsent snapshots; the new frame inherits their earliest deadline. */
  method Coalesce(q: Queue, limit: int) returns (c: Queue, deadline: int)
    ensures c == Coalesced(q) && deadline == Earliest(Gone(q.frames), limit)
  {
    c, deadline := q.(frames := []), limit;
    var n := 0;
    assert Walked(q, 0, c, limit, deadline) by { assert q.frames[..0] == []; assert q.omitted + [] == q.omitted; }
    while n < |q.frames|
      invariant n <= |q.frames| && Walked(q, n, c, limit, deadline)
    {
      var f := q.frames[n];
      WalkOn(q, n, c, limit, deadline);
      hide Walked, Settle;
      if f.snapshot && f.offset == 0 {
        if f.deadline < deadline {
          deadline := f.deadline;
        }
        c := Without(c, f).(omitted := c.omitted + [f]);
      } else {
        c := c.(frames := c.frames + [f]);
      }
      n := n + 1;
    }
    assert q.frames[..n] == q.frames;
  }

  lemma {:induction false} SettleFirst(status: seq<int>, frames: seq<Frame>)
    requires frames != []
    ensures Settle(Settle(status, [frames[0]]), frames[1..]) == Settle(status, frames)
  {
    var k := |frames| - 1;
    if k > 0 {
      SettleFirst(status, frames[..k]);
      assert frames[1..][..k - 1] == frames[..k][1..];
    }
  }

  /** The discarding walk: `r` has lost the first `n` frames of `q`. */
  ghost predicate Discarding(q: Queue, n: nat, r: Queue) {
    && n <= |q.frames| && r.frames == q.frames[n..] && r.discarded == q.discarded + q.frames[..n]
    && r.bytes - Remaining(r.frames) == q.bytes - Remaining(q.frames) && r.count - |r.frames| == q.count - |q.frames|
    && Settle(r.status, r.frames) == Settle(q.status, q.frames)
    && r == q.(frames := r.frames, discarded := r.discarded, bytes := r.bytes, count := r.count, status := r.status)
  }

  lemma DiscardOn(q: Queue, n: nat, r: Queue)
    requires Discarding(q, n, r) && r.frames != []
    ensures Discarding(q, n + 1, Without(r, r.frames[0]).(frames := r.frames[1..], discarded := r.discarded + [r.frames[0]]))
  {
    var f := r.frames[0];
    SettleFirst(r.status, r.frames);
    RemainingFirst(r.frames);
    assert q.frames[..n + 1] == q.frames[..n] + [f];
    hide Settle, Remaining;
  }

  lemma DiscardDone(q: Queue, n: nat, r: Queue)
    requires Discarding(q, n, r) && r.frames == []
    ensures r.(open := false) == DoDisconnect(q)
  {
    assert q.frames[..n] == q.frames;
  }

  /** Drops every frame, first to last, and closes. */
  method Discard(q: Queue) returns (r: Queue)
    ensures r == DoDisconnect(q)
  {
    r := q;
    ghost var n := 0;
    assert Discarding(q, 0, r) by { assert q.discarded + q.frames[..0] == q.discarded; }
    hide Discarding, DoDisconnect, Settle;
    while r.frames != []
      invariant Discarding(q, n, r)
      decreases |r.frames|
    {
      var f := r.frames[0];
      DiscardOn(q, n, r);
      r := Without(r, f).(frames := r.frames[1..], discarded := r.discarded + [f]);
      n := n + 1;
    }
    DiscardDone(q, n, r);
    r := r.(open := false);
  }

  /** The head after a write of `n` bytes. */
  method Take(q: Queue, n: nat) returns (r: Queue)
    requires q.frames != [] && 0 < n && q.frames[0].offset + n <= |q.frames[0].data| && q.open && !q.failed
    ensures forall budget: nat :: budget > 0 ==> r == DoFlush(q, budget, Wrote(n))
    ensures |r.wire| == |q.wire| + n
  {
    hide Settle;
    var f := q.frames[0];
    var g := f.(offset := f.offset + n);
    if g.offset == |g.data| {
      r := q.(bytes := q.bytes - n, wire := q.wire + f.data[f.offset..f.offset + n],
              frames := q.frames[1..], count := q.count - 1, sent := q.sent + [g], status := Settle(q.status, [g]));
    } else {
      r := q.(bytes := q.bytes - n, wire := q.wire + f.data[f.offset..f.offset + n], frames := q.frames[0 := g]);
    }
  }

  /** Appends a frame, or marks the queue failed when a limit is hit. */
  method Push(c: Queue, x: Frame, room: bool) returns (r: Queue, ok: bool)
    ensures ok == !(|x.data| > CLIENT_BYTES - c.bytes || c.count >= CLIENT_FRAMES || !room)
    ensures r == if ok then Appended(c, x) else c.(failed := true)
  {
    if |x.data| > CLIENT_BYTES - c.bytes || c.count >= CLIENT_FRAMES || !room {
      return c.(failed := true), false;
    }
    r := c.(frames := c.frames + [x], bytes := c.bytes + |x.data|, count := c.count + 1, status := c.status + [0]);
    ok := true;
  }

  /** What an enqueue on an open, healthy queue comes to. */
  lemma EnqueueShape(q: Queue, message: nat, data: seq<Byte>, snapshot: bool, room: bool, now: int)
    requires q.open && !q.failed
    ensures var c := (if snapshot then Coalesced(q) else q).(clock := now);
      var deadline := if snapshot then Earliest(Gone(q.frames), now + DEADLINE_MS) else now + DEADLINE_MS;
      DoEnqueue(q, message, data, snapshot, room, now) ==
      if Refuses(q, data, snapshot, room) then c.(failed := true)
      else Appended(c, Frame(|q.status|, message, data, 0, snapshot, deadline))
  {
    hide Kept, Gone, Settle, Remaining, Earliest;
  }

  lemma Ignored(q: Queue, message: nat, data: seq<Byte>, snapshot: bool, room: bool, now: int)
    requires !q.open || q.failed
    ensures DoEnqueue(q, message, data, snapshot, room, now) == q
  {}

  method Accept(q: Queue, message: nat, data: seq<Byte>, snapshot: bool, room: bool, now: int) returns (r: Queue, ok: bool)
    requires q.open && !q.failed
    ensures r == DoEnqueue(q, message, data, snapshot, room, now) && ok == !Refuses(q, data, snapshot, room)
  {
    hide Kept, Gone, Earliest, Settle, Remaining, Coalesced, DoEnqueue, Appended;
    EnqueueShape(q, message, data, snapshot, room, now);
    var c, deadline := q, now + DEADLINE_MS;
    if snapshot {
      c, deadline := Coalesce(q, deadline);
    }
    r, ok := Push(c.(clock := now), Frame(|q.status|, message, data, 0, snapshot, deadline), room);
  }

  class Output {
    var q: Queue

    constructor ()
      ensures q == Init() && Inv(q)
    {
      q := Init();
      new;
      RunKeeps([]);
    }

    method Enqueue(message: nat, data: seq<Byte>, snapshot: bool, room: bool, now: int) returns (ok: bool)
      requires data != [] && now >= q.clock && Inv(q)
      modifies this
      ensures q == Apply(old(q), OutputQueue.Enqueue(message, data, snapshot, room, now)) && Inv(q)
      ensures ok == (old(q).open && !old(q).failed && !Refuses(old(q), data, snapshot, room))
    {
      StepKeeps(q, OutputQueue.Enqueue(message, data, snapshot, room, now));
      hide Inv, DoEnqueue, Refuses;
      if !q.open || q.failed {
        Ignored(q, message, data, snapshot, room, now);
        return false;
      }
      var r;
      r, ok := Accept(q, message, data, snapshot, room, now);
      q := r;
    }

    /** A response for which no message could be made fails the connection. */
    method Reject()
      requires Inv(q)
      modifies this
      ensures q == Apply(old(q), OutputQueue.Reject) && Inv(q)
    {
      StepKeeps(q, OutputQueue.Reject);
      hide Inv;
      q := q.(failed := true);
    }

    /** At most one write, of what fits the budget. */
    method Flush(budget: nat, outcome: Outcome) returns (written: int)
      requires Enabled(q, OutputQueue.Flush(budget, outcome)) && Inv(q)
      modifies this
      ensures q == Apply(old(q), OutputQueue.Flush(budget, outcome)) && Inv(q)
      ensures written >= 0 ==> |q.wire| == |old(q).wire| + written
      ensures written < 0 <==> old(q).failed || !old(q).open || (old(q).frames != [] && budget > 0 && outcome.Broken?)
    {
      StepKeeps(q, OutputQueue.Flush(budget, outcome));
      hide Inv, Settle;
      if q.failed || !q.open {
        return -1;
      }
      if q.frames == [] || budget == 0 {
        return 0;
      }
      match outcome {
        case Wrote(n) =>
          var r := Take(q, n);
          hide DoFlush;
          q := r;
          return n;
        case Blocked =>
          return 0;
        case Broken =>
          q := q.(failed := true);
          return -1;
      }
    }

    method Disconnect()
      requires Inv(q)
      modifies this
      ensures q == Apply(old(q), OutputQueue.Disconnect) && Inv(q)
    {
      StepKeeps(q, OutputQueue.Disconnect);
      hide Inv, DoDisconnect;
      var r := Discard(q);
      q := r;
    }

    /** Milliseconds to the next deadline. */
    method MillisecondsLeft(now: int) returns (ms: int)
      ensures ms == RemainingMs(q, now)
    {
      if !(q.open && (q.frames != [] || q.failed)) {
        return -1;
      }
      if q.failed {
        return 0;
      }
      var remaining, n := DEADLINE_MS, 0;
      while n < |q.frames|
        invariant n <= |q.frames| && remaining == Earliest(q.frames[..n], now + DEADLINE_MS) - now
      {
        assert q.frames[..n + 1][..n] == q.frames[..n];
        if q.frames[n].deadline - now < remaining {
          remaining := q.frames[n].deadline - now;
        }
        n := n + 1;
      }
      assert q.frames[..n] == q.frames;
      ms := if remaining <= 0 then 0 else remaining;
    }
  }
}
