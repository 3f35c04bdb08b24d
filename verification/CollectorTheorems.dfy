/** What holds in every run of the collector, from start through shutdown. */
module CollectorTheorems {
  import opened Basics
  import opened TraceRecord
  import opened BufferQueue
  import opened Collector
  import opened CollectorThreads
  import opened CollectorShutdown
  import opened CollectorBuffers
  import opened CollectorAccounting
  import opened CollectorOrder

  ghost predicate Inv(s: State) {
    && ThreadsOk(s) && CountOk(s) && PhaseOk(s) && FlowInv(s)
    && ProducedOk(s) && DropsOk(s) && SentOk(s) && FooterOk(s) && OrderOk(s)
  }

  /** Every state some run of the collector visits. */
  ghost predicate Reachable(s: State) {
    exists hasSender, steps :: Run(Initial(hasSender), steps, s)
  }

  lemma InvInitially(hasSender: bool)
    ensures Inv(Initial(hasSender))
  {
    hide FlowInv, ProducedOk, DropsOk, SentOk, Items, Allocations;
    FlowInitially(hasSender);
    BooksInitially(hasSender);
    PartsOfNone();
  }

  lemma FlowInitially(hasSender: bool)
    ensures FlowInv(Initial(hasSender))
  {
    hide Items;
    var s := Initial(hasSender);
    SumOne(NewSlot(), Held);
    assert FlowOk(s, 0);
  }

  lemma BooksInitially(hasSender: bool)
    ensures ProducedOk(Initial(hasSender)) && DropsOk(Initial(hasSender)) && SentOk(Initial(hasSender))
  {
    SumOne(NewSlot(), Booked);
    SumOne(NewSlot(), Owed);
    SumOne(NewSlot(), Unpacked);
  }

  lemma InvStep(s: State, step: Step)
    requires Inv(s) && Enabled(s, step)
    ensures Inv(Apply(s, step))
  {
    hide ThreadsOk, CountOk, PhaseOk, FlowInv, ProducedOk, DropsOk, SentOk, FooterOk, OrderOk, Apply, Enabled;
    KeepsThreads(s, step);
    KeepsCount(s, step);
    KeepsPhase(s, step);
    KeepsFlow(s, step);
    KeepsAccounts(s, step);
    KeepsSent(s, step);
    KeepsFooter(s, step);
    KeepsOrder(s, step);
  }

  lemma {:induction false} InvRun(s: State, steps: seq<Step>, s': State)
    requires Inv(s) && Run(s, steps, s')
    ensures Inv(s')
    decreases |steps|
  {
    hide Inv, Apply, Enabled;
    if steps != [] {
      InvStep(s, steps[0]);
      InvRun(Apply(s, steps[0]), steps[1..], s');
    }
  }

  lemma ReachableInv(s: State)
    requires Reachable(s)
    ensures Inv(s)
  {
    hide Inv, Initial;
    var hasSender, steps :| Run(Initial(hasSender), steps, s);
    InvInitially(hasSender);
    InvRun(Initial(hasSender), steps, s);
  }

  // ---- quiescence -----------------------------------------------------------------------------------------

  /** Everything producers can change, apart from their own positions. */
  ghost predicate SameProduce(s: State, s': State) {
    && s'.sequence == s.sequence && s'.allocDropped == s.allocDropped
    && s'.allocPaused == s.allocPaused && s'.totalDropped == s.totalDropped
    && NothingStored(s.slots, s'.slots)
  }

  lemma QuietStep(s: State, step: Step)
    requires Inv(s) && SawQuiet(s.finisher) && Enabled(s, step)
    ensures SawQuiet(Apply(s, step).finisher) && SameProduce(s, Apply(s, step))
  {
    hide ThreadsOk, CountOk, FlowInv, ProducedOk, DropsOk, SentOk, FooterOk, OrderOk,
      DoProduce, DoWrite, CanWrite;
    match step {
      case Produce(t, move) => OutsideStep(s, t, move);
      case _ =>
    }
  }

  /** Once `finish` has seen no producers, nothing is ever stored, dropped or numbered again, whatever
      threads enter later and however the run goes on. */
  lemma {:induction false} Quiescence(s: State, steps: seq<Step>, s': State)
    requires Reachable(s) && SawQuiet(s.finisher) && Run(s, steps, s')
    ensures SawQuiet(s'.finisher) && SameProduce(s, s')
  {
    ReachableInv(s);
    QuietRun(s, steps, s');
  }

  lemma {:induction false} QuietRun(s: State, steps: seq<Step>, s': State)
    requires Inv(s) && SawQuiet(s.finisher) && Run(s, steps, s')
    ensures SawQuiet(s'.finisher) && SameProduce(s, s')
    decreases |steps|
  {
    hide Inv, Apply, Enabled;
    if steps != [] {
      InvStep(s, steps[0]);
      QuietStep(s, steps[0]);
      QuietRun(Apply(s, steps[0]), steps[1..], s');
    }
  }

  // ---- conservation ---------------------------------------------------------------------------------------

  /** The footer's books balance: each number given out is in a delivered batch, lost in the channel,
      dropped for want of a buffer, or counted as paused. */
  lemma AllocationsAccountedFor(s: State)
    requires Reachable(s) && s.hasSender && s.writer.Ended?
    ensures s.writer.footer.Some?
    ensures var f := s.writer.footer.value;
      && f.produced == Sum(s.delivered, Size) + f.channelDropped + f.producerDropped + f.paused
      && f.produced == s.sequence && f.channelDropped == s.channelDropped
      && f.producerDropped == s.allocDropped && f.paused == s.allocPaused
  {
    ReachableInv(s);
    ExactlyOnce(s);
    BookedIsUnpacked(s.slots);
    NothingInFlight(s);
  }

  lemma {:induction false} BookedIsUnpacked(slots: seq<Slot>)
    requires forall k :: 0 <= k < |slots| ==> slots[k].decoded == slots[k].appended
    ensures Sum(slots, Booked) == Sum(slots, Unpacked)
  {
    if slots != [] { BookedIsUnpacked(slots[1..]); }
  }

  lemma NothingInFlight(s: State)
    requires AllOutside(s)
    ensures Sum(s.threads, InFlight) == 0 && Sum(s.threads, HalfCounted) == 0
  {
    SumZero(s.threads, InFlight);
    SumZero(s.threads, HalfCounted);
  }

  /** At every moment the drop counter is covered by Loss rows and pending drops, up to the threads
      between their two increments; with none of those the two sides are equal. */
  lemma DropsAccountedFor(s: State)
    requires Reachable(s)
    ensures Sum(s.slots, Owed) == s.totalDropped + Sum(s.threads, HalfCounted)
    ensures (forall t :: 0 <= t < |s.threads| ==> !s.threads[t].call.HalfDropped?)
            ==> Sum(s.slots, Owed) == s.totalDropped
  {
    ReachableInv(s);
    if forall t :: 0 <= t < |s.threads| ==> !s.threads[t].call.HalfDropped? {
      SumZero(s.threads, HalfCounted);
    }
  }

  // ---- delivery -------------------------------------------------------------------------------------------

  /** What the writer has decoded from a slot is always an initial part of what was stored through it,
      in order; when the writer has ended it is all of it. */
  lemma ExactlyOnce(s: State)
    requires Reachable(s)
    ensures forall k :: 0 <= k < |s.slots| ==> s.slots[k].decoded <= s.slots[k].appended
    ensures s.writer.Ended? ==> forall k :: 0 <= k < |s.slots| ==> s.slots[k].decoded == s.slots[k].appended
  {
    ReachableInv(s);
    hide ThreadsOk, CountOk, BuffersOk, ProducedOk, DropsOk, SentOk, FooterOk, OrderOk, Items, Reachable;
    forall k | 0 <= k < |s.slots|
      ensures s.slots[k].decoded <= s.slots[k].appended
      ensures s.writer.Ended? ==> s.slots[k].decoded == s.slots[k].appended
    {
      assert FlowOk(s, k);
    }
  }

  /** Along a thread's own slot the decoded allocation numbers strictly increase. */
  lemma DecodedInOrder(s: State, k: nat)
    requires Reachable(s) && 0 < k < |s.slots|
    ensures Ascending(Allocations(s.slots[k].decoded))
  {
    ReachableInv(s);
    ExactlyOnce(s);
    hide ThreadsOk, CountOk, PhaseOk, FlowInv, ProducedOk, DropsOk, SentOk, FooterOk, Allocations, Reachable;
    var d, a := s.slots[k].decoded, s.slots[k].appended;
    assert a == d + a[|d|..];
    AllocationsAppend(d, a[|d|..]);
    assert Ascending(StoredIn(s.slots[k]));
    assert forall i :: 0 <= i < |Allocations(d)| ==> Allocations(d)[i] == StoredIn(s.slots[k])[i];
  }

  // ---- buffers --------------------------------------------------------------------------------------------

  /** Buffers are conserved and bounded in every reachable state, pooled buffers are empty, and the
      whole pool is back when the writer has ended. */
  lemma BufferConservation(s: State)
    requires Reachable(s)
    ensures |s.queue.pool| + |s.queue.full| + Sum(s.slots, Held) + InHand(s.writer) == POOL_BUFFERS
    ensures forall b <- s.queue.pool :: b.data == []
    ensures forall b <- s.queue.full :: |b.data| <= BUFFER_BYTES
    ensures forall k :: 0 <= k < |s.slots| && s.slots[k].buffer.Some? ==> |s.slots[k].buffer.value.data| <= BUFFER_BYTES
    ensures s.writer.Holding? || s.writer.Sending? ==> |s.writer.buffer.data| <= BUFFER_BYTES
    ensures s.writer.Ended? ==> |s.queue.pool| == POOL_BUFFERS
  {
    ReachableInv(s);
    hide ThreadsOk, CountOk, FlowsOk, ProducedOk, DropsOk, SentOk, FooterOk, OrderOk, WellCoded, Reachable;
    forall b | b in s.queue.full ensures |b.data| <= BUFFER_BYTES {
      var i :| 0 <= i < |s.queue.full| && s.queue.full[i] == b;
      assert Bounded(s.queue.full[i], |s.slots|);
    }
    forall k | 0 <= k < |s.slots| && s.slots[k].buffer.Some? ensures |s.slots[k].buffer.value.data| <= BUFFER_BYTES {
      assert SlotBufferOk(s.slots[k], k);
    }
    if s.writer.Ended? {
      SumZero(s.slots, Held);
    }
  }
}
