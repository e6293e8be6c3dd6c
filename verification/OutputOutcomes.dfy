/** What becomes of what is enqueued: which messages a client's queue takes, what it
    puts on the wire for them, and what a write, a failure and a disconnect do to
    the line. Everything is stated of the queues a run reaches. */
module OutputOutcomes {
  import opened OutputQueue

  // ------------------------------------------------------------------ coalescing

  /** `part` are the frames at rising places `at`. */
  ghost predicate Picks(frames: seq<Frame>, part: seq<Frame>, at: seq<nat>) {
    && |at| == |part| && (forall j, k :: 0 <= j < k < |at| ==> at[j] < at[k])
    && (forall k :: 0 <= k < |at| ==> at[k] < |frames| && part[k] == frames[at[k]])
  }

  /** `at` are exactly the places of snapshots still to be begun, or of the others. */
  ghost predicate Places(frames: seq<Frame>, at: seq<nat>, unsent: bool) {
    forall i :: i in at <==> 0 <= i < |frames| && unsent == (frames[i].snapshot && frames[i].offset == 0)
  }

  lemma PicksPush(front: seq<Frame>, x: Frame, part: seq<Frame>, at: seq<nat>)
    requires Picks(front, part, at)
    ensures Picks(front + [x], part, at) && Picks(front + [x], part + [x], at + [|front|])
  {}

  lemma PlacesPush(front: seq<Frame>, x: Frame, at: seq<nat>, unsent: bool)
    requires Places(front, at, unsent)
    ensures Places(front + [x], if unsent == (x.snapshot && x.offset == 0) then at + [|front|] else at, unsent)
  {
    var all, more := front + [x], if unsent == (x.snapshot && x.offset == 0) then at + [|front|] else at;
    forall i ensures i in more <==> 0 <= i < |all| && unsent == (all[i].snapshot && all[i].offset == 0) {
      if i < |front| {
        assert 0 <= i ==> all[i] == front[i];
        assert i in more <==> i in at;
      } else {
        assert i !in at;
        assert i in more ==> i == |front|;
        if i == |front| && |more| > |at| {
          assert more[|at|] == i;
        }
      }
    }
  }

  /** Coalescing keeps, in order, exactly what is not a snapshot still to be begun. */
  lemma {:induction false} KeptPicks(frames: seq<Frame>) returns (at: seq<nat>)
    ensures Picks(frames, Kept(frames), at) && Places(frames, at, false)
  {
    at := [];
    if frames != [] {
      var n := |frames| - 1;
      at := KeptPicks(frames[..n]);
      hide Picks, Places;
      assert frames == frames[..n] + [frames[n]];
      PicksPush(frames[..n], frames[n], Kept(frames[..n]), at);
      PlacesPush(frames[..n], frames[n], at, false);
      if !Unsent(frames[n]) {
        at := at + [n];
      }
    }
  }

  /** And takes out exactly those. */
  lemma {:induction false} GonePicks(frames: seq<Frame>) returns (at: seq<nat>)
    ensures Picks(frames, Gone(frames), at) && Places(frames, at, true)
  {
    at := [];
    if frames != [] {
      var n := |frames| - 1;
      at := GonePicks(frames[..n]);
      hide Picks, Places;
      assert frames == frames[..n] + [frames[n]];
      PicksPush(frames[..n], frames[n], Gone(frames[..n]), at);
      PlacesPush(frames[..n], frames[n], at, true);
      if Unsent(frames[n]) {
        at := at + [n];
      }
    }
  }

  // ------------------------------------------------------------------- enqueueing

  /** The frames a message finds in line: a snapshot takes the place of others. */
  function Stay(q: Queue, snapshot: bool): seq<Frame> { if snapshot then Kept(q.frames) else q.frames }

  /** A message is taken exactly if the client has not failed, there is room in the
      daemon, and with it at most 8 MiB and 128 frames would wait. It then waits at
      the end of the line, whole, for a second, or for as long as the snapshots it
      replaces had left; a refusal fails the client. */
  lemma MessageIsTaken(ops: seq<Op>, message: nat, data: seq<Byte>, snapshot: bool, room: bool, now: int)
    requires data != [] && now >= Run(Init(), ops).clock
    ensures var q := Run(Init(), ops);
            var t, stay := Apply(q, Enqueue(message, data, snapshot, room, now)), Stay(q, snapshot);
            && t.wire == q.wire && t.sent == q.sent && t.open == q.open
            && if !q.open || q.failed then t == q
               else if room && Remaining(stay) + |data| <= 8_388_608 && |stay| < 128 then
                 && !t.failed && |t.status| == |q.status| + 1 && t.status[|q.status|] == 0
                 && |t.frames| == |stay| + 1 && t.frames[..|stay|] == stay
                 && var f := t.frames[|stay|];
                 && f == Frame(|q.status|, message, data, 0, snapshot, f.deadline)
                 && (!snapshot ==> f.deadline == now + 1000)
                 && (snapshot ==> f.deadline == Earliest(Gone(q.frames), now + 1000))
               else
                 t.failed && |t.status| == |q.status| && t.frames == stay
  {
    RunKeeps(ops);
    var q := Run(Init(), ops);
    hide Run, Lined, Placed, Leased, Kept, Gone, Remaining, Earliest, Settle;
    KeptCounts(q.frames);
  }

  // --------------------------------------------------------------------- payloads

  /** The payloads of the messages taken, in order. */
  function Payloads(ops: seq<Op>): seq<seq<Byte>> {
    if ops == [] then []
    else
      var front, op := ops[..|ops| - 1], ops[|ops| - 1];
      Payloads(front) + if op.Enqueue? && |Run(Init(), ops).status| > |Run(Init(), front).status| then [op.data] else []
  }

  ghost predicate Carry(frames: seq<Frame>, payloads: seq<seq<Byte>>) {
    forall i :: 0 <= i < |frames| ==> frames[i].serial < |payloads| && frames[i].data == payloads[frames[i].serial]
  }

  ghost predicate AllCarry(q: Queue, payloads: seq<seq<Byte>>) {
    && Carry(q.frames, payloads) && Carry(q.sent, payloads) && Carry(q.omitted, payloads) && Carry(q.discarded, payloads)
    && |q.status| == |payloads|
  }

  lemma CarryMore(frames: seq<Frame>, a: seq<seq<Byte>>, b: seq<seq<Byte>>)
    requires Carry(frames, a) && a <= b
    ensures Carry(frames, b)
  {}

  lemma CarryJoin(a: seq<Frame>, b: seq<Frame>, payloads: seq<seq<Byte>>)
    requires Carry(a, payloads) && Carry(b, payloads)
    ensures Carry(a + b, payloads)
  {}

  lemma CarryParts(frames: seq<Frame>, payloads: seq<seq<Byte>>)
    requires Carry(frames, payloads)
    ensures Carry(Kept(frames), payloads) && Carry(Gone(frames), payloads)
  {
    var at := KeptPicks(frames);
    var from := GonePicks(frames);
    hide Kept, Gone;
  }

  lemma CoalescedCarries(q: Queue, payloads: seq<seq<Byte>>)
    requires AllCarry(q, payloads)
    ensures AllCarry(Coalesced(q), payloads)
  {
    hide Carry, Kept, Gone, Remaining;
    CarryParts(q.frames, payloads);
    CarryJoin(q.omitted, Gone(q.frames), payloads);
  }

  lemma EnqueueCarries(q: Queue, op: Op, payloads: seq<seq<Byte>>)
    requires AllCarry(q, payloads) && op.Enqueue? && Enabled(q, op)
    ensures var t := Apply(q, op);
            AllCarry(t, payloads + if |t.status| > |q.status| then [op.data] else [])
  {
    hide Carry, Kept, Gone, Remaining, Earliest, Coalesced;
    var t := Apply(q, op);
    CoalescedCarries(q, payloads);
    var c := if op.snapshot then Coalesced(q) else q;
    assert payloads + [] == payloads;
    if |t.status| > |q.status| {
      var more := payloads + [op.data];
      CarryMore(c.frames, payloads, more);
      CarryMore(c.sent, payloads, more);
      CarryMore(c.omitted, payloads, more);
      CarryMore(c.discarded, payloads, more);
      var x := t.frames[|t.frames| - 1];
      CarryOne(x, more);
      CarryJoin(c.frames, [x], more);
    }
  }

  lemma CarryOne(x: Frame, payloads: seq<seq<Byte>>)
    requires x.serial < |payloads| && x.data == payloads[x.serial]
    ensures Carry([x], payloads)
  {}

  lemma OtherCarries(q: Queue, op: Op, payloads: seq<seq<Byte>>)
    requires AllCarry(q, payloads) && !op.Enqueue? && Enabled(q, op)
    ensures AllCarry(Apply(q, op), payloads)
  {
    hide Remaining;
  }

  lemma {:induction false} RunCarries(ops: seq<Op>)
    ensures AllCarry(Run(Init(), ops), Payloads(ops))
  {
    if ops != [] {
      hide AllCarry, Apply;
      var front, op := ops[..|ops| - 1], ops[|ops| - 1];
      var q := Run(Init(), front);
      RunCarries(front);
      var t := Run(Init(), ops);
      assert t == Apply(q, op);
      assert Payloads(front) + [] == Payloads(front);
      if !Enabled(q, op) {
        Ignores(q, op);
      } else if op.Enqueue? {
        EnqueueCarries(q, op, Payloads(front));
      } else {
        OtherCarries(q, op, Payloads(front));
      }
    }
  }

  lemma Ignores(q: Queue, op: Op)
    requires !Enabled(q, op)
    ensures Apply(q, op) == q
  {}

  /** The payloads of completed frames, one after the other. */
  function Told(payloads: seq<seq<Byte>>, frames: seq<Frame>): seq<Byte> {
    if frames == [] then []
    else
      var f := frames[|frames| - 1];
      Told(payloads, frames[..|frames| - 1]) + if f.serial < |payloads| then payloads[f.serial] else []
  }

  lemma {:induction false} WholeIsTold(frames: seq<Frame>, payloads: seq<seq<Byte>>)
    requires Carry(frames, payloads)
    ensures Whole(frames) == Told(payloads, frames)
  {
    if frames != [] {
      WholeIsTold(frames[..|frames| - 1], payloads);
    }
  }

  /** In every run the wire carries the messages themselves: those of the completed
      frames whole and in order, then a beginning of the next one's. A completed
      frame's message is the one enqueued under its number. */
  lemma WireCarriesTheMessages(ops: seq<Op>)
    ensures var q, payloads := Run(Init(), ops), Payloads(ops);
            && |q.status| == |payloads|
            && (forall i :: 0 <= i < |q.sent| ==> q.sent[i].serial < |payloads| && q.sent[i].data == payloads[q.sent[i].serial])
            && Told(payloads, q.sent) <= q.wire
            && (forall i :: 0 <= i < |q.frames| ==> q.frames[i].serial < |payloads| && q.frames[i].data == payloads[q.frames[i].serial])
            && (q.frames != [] ==>
                  && q.frames[0].offset <= |q.frames[0].data|
                  && q.wire == Told(payloads, q.sent) + payloads[q.frames[0].serial][..q.frames[0].offset])
  {
    RunKeeps(ops);
    RunCarries(ops);
    var q, payloads := Run(Init(), ops), Payloads(ops);
    hide Run, Payloads, Placed, Counted, Leased, OneSnapshot, Rising, Told;
    WholeIsTold(q.sent, payloads);
    if q.frames != [] {
      assert Rest(q)[0] == q.frames[0];
    }
  }

  // -------------------------------------------------------------- writes and ends

  /** One write, in every run: a healthy queue puts the next bytes of its first frame
      on the wire, as many as the socket took; when they are its last the frame is
      done and its receipt says so. A full socket changes nothing; a broken one
      fails the client. */
  lemma WriteMovesTheLine(ops: seq<Op>, budget: nat, outcome: Outcome)
    requires Enabled(Run(Init(), ops), Flush(budget, outcome)) && budget > 0
    requires Run(Init(), ops).open && !Run(Init(), ops).failed && Run(Init(), ops).frames != []
    ensures var q := Run(Init(), ops);
            var t, f := Apply(q, Flush(budget, outcome)), q.frames[0];
            match outcome
            case Blocked => t == q
            case Broken => t == q.(failed := true)
            case Wrote(n) =>
              && f.offset + n <= |f.data| && t.wire == q.wire + f.data[f.offset..f.offset + n]
              && t.open && !t.failed && t.omitted == q.omitted && |t.status| == |q.status|
              && (f.offset + n < |f.data| ==>
                    t.frames == [f.(offset := f.offset + n)] + q.frames[1..] && t.sent == q.sent && t.status == q.status)
              && (f.offset + n == |f.data| ==>
                    && t.frames == q.frames[1..] && t.sent == q.sent + [f.(offset := |f.data|)]
                    && f.serial < |t.status| && t.status[f.serial] == 1
                    && forall s :: 0 <= s < |q.status| && s != f.serial ==> t.status[s] == q.status[s])
  {
    RunKeeps(ops);
    var q := Run(Init(), ops);
    hide Run, Counted, Leased, OneSnapshot, InLine, Covers;
    assert q.frames[0].serial in Serials(q.frames);
    hide Placed, Lined, Serials;
    if outcome.Wrote? {
      var g := q.frames[0].(offset := q.frames[0].offset + outcome.n);
      SettlesOne(q.status, g);
    }
  }

  lemma SettlesOne(status: seq<int>, g: Frame)
    ensures var r := Settle(status, [g]);
            && |r| == |status| && (g.serial < |status| && g.offset == |g.data| ==> r[g.serial] == 1)
            && forall s :: 0 <= s < |status| && s != g.serial ==> r[s] == status[s]
  {
    assert [g][..0] == [];
  }

  /** Nothing is written for a client that failed or is gone, or with nothing to
      write. */
  lemma NothingToWrite(q: Queue, budget: nat, outcome: Outcome)
    requires q.failed || !q.open || q.frames == [] || budget == 0
    ensures Apply(q, Flush(budget, outcome)) == q
  {}

  /** A disconnect, in every run: the line is empty, every receipt that was pending
      reports the loss and no other changes; nothing is ever written again. */
  lemma DisconnectLosesTheLine(ops: seq<Op>, more: seq<Op>)
    ensures var q := Run(Init(), ops);
            var t := Apply(q, Disconnect);
            && !t.open && t.frames == [] && |t.status| == |q.status| && t.wire == q.wire
            && (forall s :: 0 <= s < |q.status| ==> t.status[s] == if q.status[s] == 0 then -1 else q.status[s])
            && Run(t, more).wire == t.wire && !Run(t, more).open
  {
    RunKeeps(ops);
    var q := Run(Init(), ops);
    Silent(Apply(q, Disconnect), more);
    hide Run, Counted, Leased, OneSnapshot;
    LosesAll(q);
  }

  lemma LosesAll(q: Queue)
    requires Placed(q) && Lined(q)
    ensures forall s :: 0 <= s < |q.status| ==> Settle(q.status, q.frames)[s] == if q.status[s] == 0 then -1 else q.status[s]
  {
    hide Serials, Settle, InLine, Unsent, OneSnapshot;
    assert forall i :: 0 <= i < |q.frames| ==> q.frames[i].offset < |q.frames[i].data| by { WaitingIsShort(q); }
    SettleLost(q.status, q.frames);
    PendingWaits(q.status, Serials(q.sent), Serials(q.frames), Serials(q.omitted) + Serials(q.discarded));
  }

  lemma WaitingIsShort(q: Queue)
    requires Lined(q)
    ensures forall i :: 0 <= i < |q.frames| ==> q.frames[i].offset < |q.frames[i].data|
  {
    hide Rising, Whole, Partial, OneSnapshot;
    forall i | 0 <= i < |q.frames| ensures q.frames[i].offset < |q.frames[i].data| {
      assert Rest(q)[i] == q.frames[i];
    }
  }

  /** A receipt is pending exactly while its frame waits. */
  lemma PendingWaits(status: seq<int>, sent: set<nat>, waiting: set<nat>, lost: set<nat>)
    requires Receipts(status, sent, waiting, lost)
    ensures forall s :: 0 <= s < |status| ==> (status[s] == 0 <==> s in waiting)
  {}

  lemma {:induction false} Silent(q: Queue, more: seq<Op>)
    requires !q.open
    ensures Run(q, more).wire == q.wire && !Run(q, more).open
  {
    if more != [] {
      Silent(q, more[..|more| - 1]);
      SilentStep(Run(q, more[..|more| - 1]), more[|more| - 1]);
    }
  }

  lemma SilentStep(q: Queue, op: Op)
    requires !q.open
    ensures Apply(q, op).wire == q.wire && !Apply(q, op).open
  {}

  /** A response that cannot be made fails the client, and so does a broken socket;
      once failed, in every run, a client is sent nothing more. */
  lemma FailureIsFinal(ops: seq<Op>, more: seq<Op>)
    ensures Apply(Run(Init(), ops), Reject).failed
    ensures var q := Run(Init(), ops); q.failed ==> Run(q, more).failed && Run(q, more).wire == q.wire
  {
    if Run(Init(), ops).failed {
      StaysFailed(Run(Init(), ops), more);
    }
  }

  lemma {:induction false} StaysFailed(q: Queue, more: seq<Op>)
    requires q.failed
    ensures Run(q, more).failed && Run(q, more).wire == q.wire
  {
    if more != [] {
      StaysFailed(q, more[..|more| - 1]);
      FailedStep(Run(q, more[..|more| - 1]), more[|more| - 1]);
    }
  }

  lemma FailedStep(q: Queue, op: Op)
    requires q.failed
    ensures Apply(q, op).failed && Apply(q, op).wire == q.wire
  {}
}
