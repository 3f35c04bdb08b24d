/** A flush, commanded or after an idle wait, brings everything stored before it to the writer. */
module CollectorFlush {
  import opened Basics
  import opened TraceRecord
  import opened BufferQueue
  import opened Collector
  import opened CollectorBuffers
  import opened CollectorTheorems
  import opened CollectorInputs

  /** What slot `k` has stored and let go of: decoded, in the writer's hands, or queued. */
  ghost function Submitted(s: State, k: nat): seq<Item>
    requires k < |s.slots|
  {
    s.slots[k].decoded + InWriter(s.writer, k) + Queued(s.queue.full, k)
  }

  /** Nothing stored is lost and nothing submitted is taken back. */
  ghost predicate Forward(s: State, r: State) {
    && |s.slots| <= |r.slots|
    && forall k :: 0 <= k < |s.slots| ==>
         s.slots[k].appended <= r.slots[k].appended && Submitted(s, k) <= Submitted(r, k)
  }

  /** At most one buffer joins the queue, at its end. */
  ghost predicate Joins(a: seq<Buffer>, b: seq<Buffer>) { a <= b && |b| <= |a| + 1 }

  lemma QueuedJoins(a: seq<Buffer>, b: seq<Buffer>, k: nat)
    requires Joins(a, b)
    ensures Queued(a, k) <= Queued(b, k)
  {
    hide Queued, ItemsFrom;
    if b != a {
      assert b == a + [b[|a|]];
      QueuedSnoc(a, b[|a|], k);
    }
  }

  /** A step that leaves the writer and the decoded items alone. */
  lemma JoinsForward(s: State, r: State)
    requires r.writer == s.writer && Joins(s.queue.full, r.queue.full) && |s.slots| <= |r.slots|
    requires forall k :: 0 <= k < |s.slots| ==>
               s.slots[k].appended <= r.slots[k].appended && r.slots[k].decoded == s.slots[k].decoded
    ensures Forward(s, r)
  {
    hide Queued, InWriter;
    forall k | 0 <= k < |s.slots| ensures Submitted(s, k) <= Submitted(r, k) {
      QueuedJoins(s.queue.full, r.queue.full, k);
    }
  }

  lemma ProducerJoins(s: State, t: nat, move: Move)
    requires CanProduce(s, t, move)
    ensures Joins(s.queue.full, DoProduce(s, t, move).queue.full)
  {
    hide ProducerFrame, RollBuffer, Stored, EncodeAll, StoredEvent, Buffer.HasRoom;
    if move.Roll? { RollIs(s, t); }
  }

  lemma ProducerAppends(s: State, t: nat, move: Move, k: nat)
    requires CanProduce(s, t, move) && k < |s.slots|
    ensures k < |DoProduce(s, t, move).slots| && s.slots[k].appended <= DoProduce(s, t, move).slots[k].appended
  {
    hide LocateSlot, LockSlot, RollBuffer, RefillBuffer, StoreItem, DropItem, FinishDrop, CheckPause, ProducerFrame, CarriedBy;
    match move {
      case CheckPaused => PauseSlots(s, t);
      case Write =>
        if s.slots[s.threads[t].call.slot].buffer.Some? {
          StoreIs(s, t);
        } else {
          DropIs(s, t);
        }
      case Locate => LocateQuiet(s, t);
      case Lock => LockQuiet(s, t);
      case Roll => RollQuiet(s, t);
      case Refill => RefillQuiet(s, t);
      case CountDrop => CountDropQuiet(s, t);
      case _ => OutsideQuiet(s, t, move);
    }
  }

  lemma PauseSlots(s: State, t: nat)
    requires CanProduce(s, t, CheckPaused)
    ensures CheckPause(s, t).slots == s.slots
  {
    hide ProducerFrame, StoredEvent;
  }

  lemma ProducerForward(s: State, t: nat, move: Move)
    requires CanProduce(s, t, move)
    ensures Forward(s, DoProduce(s, t, move))
  {
    hide CanProduce, DoProduce, Forward;
    var r := DoProduce(s, t, move);
    ProducerJoins(s, t, move);
    forall k | 0 <= k < |s.slots| ensures s.slots[k].appended <= r.slots[k].appended { ProducerAppends(s, t, move, k); }
    JoinsForward(s, r);
  }

  lemma FinisherForward(s: State, f: FinishMove)
    requires CanFinish(s, f)
    ensures Forward(s, DoFinish(s, f))
  {
    hide Forward;
    JoinsForward(s, DoFinish(s, f));
  }

  lemma PollForward(s: State)
    requires CanWrite(s, Poll)
    ensures Forward(s, PollQueue(s))
  {
    hide ItemsFrom, WriterFrame;
    if s.queue.full != [] {
      forall k | 0 <= k < |s.slots| ensures Submitted(s, k) == Submitted(PollQueue(s), k) {
        var first, rest := ItemsFrom(s.queue.full[0], k), Queued(s.queue.full[1..], k);
        assert s.slots[k].decoded + [] == s.slots[k].decoded;
        Assoc(s.slots[k].decoded, first, rest);
      }
    }
  }

  lemma DecodeForward(s: State)
    requires CanWrite(s, Decode)
    ensures Forward(s, DecodeHeld(s))
  {
    hide Queued, Items, Allocations, WriterFrame;
    var r := DecodeHeld(s);
    forall k | 0 <= k < |s.slots| ensures Submitted(s, k) == Submitted(r, k) {
      assert r.slots[k].decoded == s.slots[k].decoded + ItemsFrom(s.writer.buffer, k);
      assert r.slots[k].decoded + [] == r.slots[k].decoded;
    }
  }

  lemma FlushForward(s: State)
    requires CanWrite(s, FlushSlot)
    ensures Forward(s, FlushOne(s))
  {
    hide Forward, Queued, WriterFrame;
    JoinsForward(s, FlushOne(s).(writer := s.writer));
    SameItems(FlushOne(s).(writer := s.writer), FlushOne(s));
    ForwardThen(s, FlushOne(s).(writer := s.writer), FlushOne(s));
  }

  /** The writer moves on with nothing in its hands. */
  lemma SameItems(s: State, r: State)
    requires r.slots == s.slots && r.queue.full == s.queue.full
    requires s.writer.Holding? ==> s.writer.buffer.data == []
    requires r.writer.Holding? ==> r.writer.buffer.data == []
    ensures Forward(s, r)
  {
    hide Items, Queued;
    EmptyIsWellCoded();
  }

  lemma ForwardThen(s: State, m: State, r: State)
    requires Forward(s, m) && Forward(m, r)
    ensures Forward(s, r)
  {
    hide Submitted;
  }

  lemma SendSame(s: State, arrives: bool)
    requires CanWrite(s, Send(arrives))
    ensures SendChunk(s, arrives).slots == s.slots && SendChunk(s, arrives).queue == s.queue
    ensures SendChunk(s, arrives).writer.Sending?
    ensures SendChunk(s, arrives).writer.pooled == s.writer.pooled
  {
    hide WriterFrame;
  }

  lemma WriterForward(s: State, w: WriterMove)
    requires CanWrite(s, w)
    ensures Forward(s, DoWrite(s, w))
  {
    hide Forward, PollQueue, DecodeHeld, SendChunk, FlushOne, WriterFrame;
    match w {
      case Poll => PollForward(s);
      case Decode => DecodeForward(s);
      case FlushSlot => FlushForward(s);
      case Send(arrives) =>
        SendSame(s, arrives);
        SameItems(s, DoWrite(s, w));
      case _ => SameItems(s, DoWrite(s, w));
    }
  }

  /** No step of any thread takes back what was stored or submitted. */
  lemma StepForward(s: State, step: Step)
    requires Enabled(s, step)
    ensures Forward(s, Apply(s, step))
  {
    hide Forward, DoProduce, DoWrite, DoFinish, CanProduce, CanWrite, CanFinish;
    match step {
      case Spawn => JoinsForward(s, Apply(s, step));
      case Produce(t, move) => ProducerForward(s, t, move);
      case Writing(w) => WriterForward(s, w);
      case Finishing(f) => FinisherForward(s, f);
    }
  }

  // ---- one flush ----------------------------------------------------------------------------------------------

  /** The slots below `n` have submitted all they had stored in `start`. */
  ghost predicate CaughtUp(start: State, s: State, n: nat) {
    && |start.slots| <= |s.slots|
    && forall k :: 0 <= k < |start.slots| && k < n ==> start.slots[k].appended <= Submitted(s, k)
  }

  /** The writer still has to begin a flush: it is about to, or an idle tick is on its way there. */
  predicate AboutToFlush(w: Writer) {
    w.WantsSlots? || ((w.Holding? || w.Sending?) && !w.pooled)
  }

  /** Since `start`, a flush is due, has passed some slots, or is over. */
  ghost predicate FlushGoesOn(start: State, s: State) {
    && |start.slots| <= |s.slots|
    && (forall k :: 0 <= k < |start.slots| ==> start.slots[k].appended <= s.slots[k].appended)
    && (AboutToFlush(s.writer)
        || CaughtUp(start, s, if s.writer.Flushing? then s.writer.next else |start.slots|))
  }

  lemma StaysCaughtUp(start: State, s: State, r: State, n: nat)
    requires CaughtUp(start, s, n) && Forward(s, r)
    ensures CaughtUp(start, r, n)
  {
    hide Submitted;
  }

  /** After its turn a slot holds nothing back. */
  lemma SlotFlushed(start: State, s: State)
    requires FlowInv(s) && FlushGoesOn(start, s) && CanWrite(s, FlushSlot)
    ensures CaughtUp(start, FlushOne(s), s.writer.next + 1)
  {
    hide Queued, Items, BuffersOk, Forward, FlushOne;
    var r, n := FlushOne(s), s.writer.next;
    FlushForward(s);
    StaysCaughtUp(start, s, r, n);
    FlushKeepsFlow(s);
    assert FlowOk(r, n);
    SlotEmptied(s);
    assert Submitted(r, n) + [] == Submitted(r, n);
  }

  lemma SlotEmptied(s: State)
    requires CanWrite(s, FlushSlot)
    ensures |FlushOne(s).slots| == |s.slots| && InSlot(FlushOne(s).slots[s.writer.next]) == []
    ensures FlushOne(s).slots[s.writer.next].appended == s.slots[s.writer.next].appended
  {
    hide Items, WriterFrame;
    EmptyIsWellCoded();
  }

  /** Where the writer stands decides: a due flush begins, a begun one passes a slot, a finished one is over. */
  lemma WriterFlushGoesOn(start: State, s: State, w: WriterMove)
    requires FlowInv(s) && FlushGoesOn(start, s) && CanWrite(s, w)
    ensures FlushGoesOn(start, DoWrite(s, w))
  {
    hide FlowInv, Submitted, PollQueue, DecodeHeld, SendChunk, FlushOne, WriterFrame, CaughtUp;
    var r := DoWrite(s, w);
    WriterForward(s, w);
    forall n | CaughtUp(start, s, n) ensures CaughtUp(start, r, n) { StaysCaughtUp(start, s, r, n); }
    WriterPlace(s, w);
    NoneYet(start, r);
    if w.FlushSlot? {
      SlotFlushed(start, s);
    } else if w.FlushDone? {
      Whole(start, r, s.writer.next);
    }
  }

  lemma NoneYet(start: State, s: State)
    requires |start.slots| <= |s.slots|
    ensures CaughtUp(start, s, 0)
  {
  }

  lemma Whole(start: State, s: State, n: nat)
    requires CaughtUp(start, s, n) && n >= |start.slots|
    ensures CaughtUp(start, s, |start.slots|)
  {
  }

  /** Where a step takes the writer. */
  lemma WriterPlace(s: State, w: WriterMove)
    requires CanWrite(s, w)
    ensures var r := DoWrite(s, w);
      if w.FlushLock? then r.writer == Flushing(0)
      else if w.FlushSlot? then r.writer == Flushing(s.writer.next + 1)
      else !r.writer.Flushing? && (AboutToFlush(s.writer) ==> AboutToFlush(r.writer))
  {
    hide Items, Allocations, WriterFrame, HandOver;
  }

  lemma StepFlushGoesOn(start: State, s: State, step: Step)
    requires FlowInv(s) && FlushGoesOn(start, s) && Enabled(s, step)
    ensures FlushGoesOn(start, Apply(s, step))
  {
    hide FlowInv, DoProduce, DoWrite, DoFinish, CanProduce, CanWrite, CanFinish, Submitted;
    if step.Writing? {
      WriterFlushGoesOn(start, s, step.w);
    } else {
      StepForward(s, step);
    }
  }

  lemma {:induction false} RunFlushGoesOn(start: State, s: State, steps: seq<Step>, s': State)
    requires Inv(s) && FlushGoesOn(start, s) && Run(s, steps, s')
    ensures FlushGoesOn(start, s')
    decreases |steps|
  {
    hide Inv, FlushGoesOn, Apply, Enabled, FlowInv;
    if steps != [] {
      InvHasFlow(s);
      InvStep(s, steps[0]);
      StepFlushGoesOn(start, s, steps[0]);
      RunFlushGoesOn(start, Apply(s, steps[0]), steps[1..], s');
    }
  }

  lemma InvHasFlow(s: State)
    requires Inv(s)
    ensures FlowInv(s)
  {
  }

  /** A flush command, or a wait that times out before the queue is closed. */
  predicate AsksForFlush(s: State, step: Step) {
    step == Writing(Obey(Flush)) || (step == Writing(Wake(true)) && !s.queue.closing)
  }

  /** Once the writer polls again after a flush command or an idle wait, whatever the other threads did meanwhile,
      every item stored before the command or the wait's end has left its slot: it is decoded or queued. */
  lemma FlushHandsOver(s: State, step: Step, steps: seq<Step>, s': State)
    requires Reachable(s) && Enabled(s, step) && AsksForFlush(s, step) && Run(Apply(s, step), steps, s') && s'.writer.Polling?
    ensures |s.slots| <= |s'.slots|
    ensures forall k :: 0 <= k < |s.slots| ==> s.slots[k].appended <= s'.slots[k].decoded + Queued(s'.queue.full, k)
  {
    hide Inv, Run, Reachable, Queued, Items;
    ReachableInv(s);
    InvStep(s, step);
    assert FlushGoesOn(s, Apply(s, step));
    RunFlushGoesOn(s, Apply(s, step), steps, s');
    forall k | 0 <= k < |s.slots| ensures s.slots[k].appended <= s'.slots[k].decoded + Queued(s'.queue.full, k) {
      assert s.slots[k].appended <= Submitted(s', k);
      assert s'.slots[k].decoded + [] == s'.slots[k].decoded;
    }
  }
}
