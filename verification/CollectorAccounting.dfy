/** Where every allocation number and every dropped event goes. */
module CollectorAccounting {
  import opened Basics
  import opened TraceRecord
  import opened BufferQueue
  import opened Collector
  import opened CollectorThreads
  import opened CollectorShutdown

  // ---- definitions --------------------------------------------------------------------------------------

  /** A thread holding a sequence number it has not yet stored, dropped or counted as paused. */
  predicate Carrying(c: Call) {
    c.Numbered? || (HasItem(c) && c.item.Alloc?)
  }

  function Carried(c: Call): Allocation
    requires Carrying(c)
  {
    if c.Numbered? then c.allocation else c.item.allocation
  }

  function InFlight(th: Thread): int { if Carrying(th.call) || th.call.Pausing? then 1 else 0 }

  function HalfCounted(th: Thread): int { if th.call.HalfDropped? then 1 else 0 }

  function Booked(slot: Slot): int { |Allocations(slot.appended)| }

  function LossValue(i: Item): int {
    if i.Event? && i.record.kind == KIND_LOSS then i.record.value else 0
  }

  /** Drops already written as Loss rows plus drops still pending in the slot. */
  ghost function Owed(slot: Slot): int { Sum(slot.appended, LossValue) + slot.dropped }

  function Unpacked(slot: Slot): int { |Allocations(slot.decoded)| }

  function Size(records: seq<Allocation>): int { |records| }

  function Unsent(w: Writer): int { if w.Sending? then |w.records| else 0 }

  /** Every number given out is stored, dropped, paused or still with its thread. */
  ghost predicate ProducedOk(s: State) {
    Sum(s.slots, Booked) + s.allocDropped + s.allocPaused + Sum(s.threads, InFlight) == s.sequence
  }

  /** Every dropped event is in a Loss row, pending in a slot, or half counted. */
  ghost predicate DropsOk(s: State) {
    Sum(s.slots, Owed) == s.totalDropped + Sum(s.threads, HalfCounted)
  }

  /** Every decoded allocation is delivered, counted as lost, or about to be sent. */
  ghost predicate SentOk(s: State) {
    s.hasSender ==> Sum(s.slots, Unpacked) == Sum(s.delivered, Size) + s.channelDropped + Unsent(s.writer)
  }

  // ---- producers ------------------------------------------------------------------------------------------

  /** A producer step balances when what it adds to its slot and the counters matches what it carried. */
  lemma Balanced(s: State, s': State, t: nat, k: nat, th: Thread, slot: Slot)
    requires t < |s.threads| && k < |s.slots|
    requires s'.threads == s.threads[t := th] && s'.slots == s.slots[k := slot]
    requires Booked(slot) - Booked(s.slots[k]) + s'.allocDropped - s.allocDropped
             + s'.allocPaused - s.allocPaused + InFlight(th) - InFlight(s.threads[t]) == s'.sequence - s.sequence
    requires Owed(slot) - Owed(s.slots[k])
             == s'.totalDropped - s.totalDropped + HalfCounted(th) - HalfCounted(s.threads[t])
    requires ProducedOk(s) && DropsOk(s)
    ensures ProducedOk(s') && DropsOk(s')
  {
    SumUpdate(s.threads, t, th, InFlight);
    SumUpdate(s.threads, t, th, HalfCounted);
    SumUpdate(s.slots, k, slot, Booked);
    SumUpdate(s.slots, k, slot, Owed);
  }

  /** `Unpacked` reads only the decoded history. */
  lemma {:induction false} UnpackedSame(a: seq<Slot>, b: seq<Slot>)
    requires |a| == |b| && forall k :: 0 <= k < |a| ==> a[k].decoded == b[k].decoded
    ensures Sum(a, Unpacked) == Sum(b, Unpacked)
  {
    if a != [] { UnpackedSame(a[1..], b[1..]); }
  }

  /** Storing an item books the allocation or turns the pending drops into a Loss row. */
  lemma StoredBalance(slot: Slot, item: Item)
    requires GoodItem(item) && slot.dropped < TWO_63
    ensures |Allocations(slot.appended + Stored(slot, item))|
         == |Allocations(slot.appended)| + if item.Alloc? then 1 else 0
    ensures Sum(slot.appended + Stored(slot, item), LossValue)
         == Sum(slot.appended, LossValue) + if item.Event? then slot.dropped else 0
  {
    hide Allocations, Sum;
    var items := Stored(slot, item);
    AllocationsAppend(slot.appended, items);
    SumAppend(slot.appended, items, LossValue);
    PartsOfOne(item);
    SumOne(item, LossValue);
    if |items| == 2 {
      AllocationsAppend([items[0]], [item]);
      SumAppend([items[0]], [item], LossValue);
      PartsOfOne(items[0]);
      SumOne(items[0], LossValue);
      assert items == [items[0]] + [item];
    }
  }

  lemma StoreBalances(s: State, t: nat)
    requires ThreadsOk(s) && ProducedOk(s) && DropsOk(s)
    requires CanProduce(s, t, Write) && s.slots[s.threads[t].call.slot].buffer.Some?
    ensures ProducedOk(StoreItem(s, t)) && DropsOk(StoreItem(s, t))
  {
    hide ThreadsOk, ProducedOk, DropsOk, Stored, EncodeAll, Allocations, Sum, GoodItem;
    ThreadAndSlotOk(s, t);
    var Filled(item, k) := s.threads[t].call;
    var s' := StoreItem(s, t);
    StoredBalance(s.slots[k], item);
    Balanced(s, s', t, k, s'.threads[t], s'.slots[k]);
  }

  lemma LocateBalances(s: State, t: nat)
    requires ThreadsOk(s) && ProducedOk(s) && DropsOk(s) && CanProduce(s, t, Locate)
    ensures ProducedOk(LocateSlot(s, t)) && DropsOk(LocateSlot(s, t))
  {
    hide ThreadsOk, ThreadOk, ProducedOk, DropsOk, Sum, Allocations;
    FirstSlot(s);
    var s' := LocateSlot(s, t);
    if s.threads[t].tls.Fresh? {
      NewSlotBalances(s, s', t);
    } else {
      Balanced(s, s', t, 0, s'.threads[t], s.slots[0]);
    }
  }

  lemma NewSlotBalances(s: State, s': State, t: nat)
    requires ProducedOk(s) && DropsOk(s) && t < |s.threads| && s.threads[t].call.Ready?
    requires s'.threads == s.threads[t := Thread(Located(s.threads[t].call.item, |s.slots|), Cached(|s.slots|))]
    requires s'.slots == s.slots + [NewSlot()]
    requires s'.allocDropped == s.allocDropped && s'.allocPaused == s.allocPaused
    requires s'.sequence == s.sequence && s'.totalDropped == s.totalDropped
    ensures ProducedOk(s') && DropsOk(s')
  {
    hide Sum;
    SumAppend(s.slots, [NewSlot()], Booked);
    SumAppend(s.slots, [NewSlot()], Owed);
    SumOne(NewSlot(), Booked);
    SumOne(NewSlot(), Owed);
    SumNone(LossValue);
    SumUpdate(s.threads, t, s'.threads[t], InFlight);
    SumUpdate(s.threads, t, s'.threads[t], HalfCounted);
  }

  /** Steps outside any slot move a number from the counter to the thread, or from the thread to the
      paused count. */
  lemma OutsideBalances(s: State, t: nat, move: Move)
    requires ThreadsOk(s) && ProducedOk(s) && DropsOk(s) && CanProduce(s, t, move) && OutsideSlots(move)
    ensures ProducedOk(DoProduce(s, t, move)) && DropsOk(DoProduce(s, t, move))
  {
    hide ThreadsOk, ThreadOk, ProducedOk, DropsOk, Allocations, Sum,
      StoreItem, DropItem, LocateSlot, LockSlot, RollBuffer, RefillBuffer, FinishDrop, ValidInput, ProducerFrame;
    FirstSlot(s);
    var s' := DoProduce(s, t, move);
    Balanced(s, s', t, 0, s'.threads[t], s.slots[0]);
  }

  /** Taking the mutex changes no count. */
  lemma LockBalances(s: State, t: nat)
    requires ProducedOk(s) && DropsOk(s) && CanProduce(s, t, Lock)
    ensures ProducedOk(LockSlot(s, t)) && DropsOk(LockSlot(s, t))
  {
    hide ProducedOk, DropsOk, Allocations, Sum, ProducerFrame;
    var s' := LockSlot(s, t);
    var k := s.threads[t].call.slot;
    Balanced(s, s', t, k, s'.threads[t], s'.slots[k]);
  }

  /** Handing over a buffer changes no count. */
  lemma RollBalances(s: State, t: nat)
    requires ProducedOk(s) && DropsOk(s) && CanProduce(s, t, Roll)
    ensures ProducedOk(RollBuffer(s, t)) && DropsOk(RollBuffer(s, t))
  {
    hide ProducedOk, DropsOk, Allocations, Sum, RollBuffer, Buffer.HasRoom, Needed;
    RollIs(s, t);
    var s' := RollBuffer(s, t);
    var Locked(item, k) := s.threads[t].call;
    var slot := s.slots[k];
    if slot.buffer.Some? && slot.buffer.value.HasRoom(Needed(item)) {
      Balanced(s, s', t, k, s.threads[t].(call := Filled(item, k)), slot);
    } else {
      Balanced(s, s', t, k, s.threads[t].(call := Emptied(item, k)), slot.(buffer := None));
    }
  }

  /** Taking a buffer changes no count. */
  lemma RefillBalances(s: State, t: nat)
    requires ProducedOk(s) && DropsOk(s) && CanProduce(s, t, Refill)
    ensures ProducedOk(RefillBuffer(s, t)) && DropsOk(RefillBuffer(s, t))
  {
    hide ProducedOk, DropsOk, Allocations, Sum, ProducerFrame;
    var s' := RefillBuffer(s, t);
    var k := s.threads[t].call.slot;
    Balanced(s, s', t, k, s'.threads[t], s'.slots[k]);
  }

  /** A dropped allocation is counted at once, a dropped event is half counted. */
  lemma DropBalances(s: State, t: nat)
    requires ProducedOk(s) && DropsOk(s) && CanProduce(s, t, Write)
    ensures ProducedOk(DropItem(s, t)) && DropsOk(DropItem(s, t))
  {
    hide ProducedOk, DropsOk, Allocations, Sum, ProducerFrame;
    var s' := DropItem(s, t);
    var Filled(item, k) := s.threads[t].call;
    var slot := s.slots[k];
    if item.Event? {
      Balanced(s, s', t, k, s.threads[t].(call := HalfDropped(k)), slot.(dropped := slot.dropped + 1));
    } else {
      Balanced(s, s', t, k, s.threads[t].(call := Leaving), slot.(lock := None));
    }
  }

  /** The second half of counting a dropped event. */
  lemma CountDropBalances(s: State, t: nat)
    requires ProducedOk(s) && DropsOk(s) && CanProduce(s, t, CountDrop)
    ensures ProducedOk(FinishDrop(s, t)) && DropsOk(FinishDrop(s, t))
  {
    hide ProducedOk, DropsOk, Allocations, Sum, ProducerFrame;
    var s' := FinishDrop(s, t);
    var k := s.threads[t].call.slot;
    Balanced(s, s', t, k, s'.threads[t], s'.slots[k]);
  }

  lemma ProduceKeepsAccounts(s: State, t: nat, move: Move)
    requires ThreadsOk(s) && ProducedOk(s) && DropsOk(s) && CanProduce(s, t, move)
    ensures ProducedOk(DoProduce(s, t, move)) && DropsOk(DoProduce(s, t, move))
  {
    hide ThreadsOk, ProducedOk, DropsOk,
      StoreItem, DropItem, LocateSlot, LockSlot, RollBuffer, RefillBuffer, FinishDrop;
    match move {
      case Locate => LocateBalances(s, t);
      case Lock => LockBalances(s, t);
      case Roll => RollBalances(s, t);
      case Refill => RefillBalances(s, t);
      case Write =>
        if s.slots[s.threads[t].call.slot].buffer.Some? {
          StoreBalances(s, t);
        } else {
          DropBalances(s, t);
        }
      case CountDrop => CountDropBalances(s, t);
      case _ => OutsideBalances(s, t, move);
    }
  }

  // ---- the writer ---------------------------------------------------------------------------------------------

  /** The other roles move no record past `decoded` and change no producer count. */
  lemma {:induction false} AppendedSame(a: seq<Slot>, b: seq<Slot>)
    requires NothingStored(a, b)
    ensures Sum(a, Booked) == Sum(b, Booked) && Sum(a, Owed) == Sum(b, Owed)
  {
    if a != [] { AppendedSame(a[1..], b[1..]); }
  }

  lemma KeepsAccounts(s: State, step: Step)
    requires ThreadsOk(s) && ProducedOk(s) && DropsOk(s) && Enabled(s, step)
    ensures ProducedOk(Apply(s, step)) && DropsOk(Apply(s, step))
  {
    hide DoProduce, ThreadsOk, Allocations, Sum, Items, CanProduce;
    var s' := Apply(s, step);
    match step {
      case Spawn =>
        SumAppend(s.threads, [Thread(Idle, Fresh)], InFlight);
        SumAppend(s.threads, [Thread(Idle, Fresh)], HalfCounted);
        SumOne(Thread(Idle, Fresh), InFlight);
        SumOne(Thread(Idle, Fresh), HalfCounted);
      case Produce(t, move) => ProduceKeepsAccounts(s, t, move);
      case Writing(_) => AppendedSame(s.slots, s'.slots);
      case Finishing(_) => AppendedSame(s.slots, s'.slots);
    }
  }

  lemma DecodeSends(s: State)
    requires SentOk(s) && CanWrite(s, Decode)
    ensures SentOk(DecodeHeld(s))
  {
    hide Items, Allocations, Sum;
    var s' := DecodeHeld(s);
    var k := s.writer.buffer.origin;
    SumUpdate(s.slots, k, s'.slots[k], Unpacked);
    AllocationsAppend(s.slots[k].decoded, Items(s.writer.buffer.data));
  }

  lemma ChunkSends(s: State, arrives: bool)
    requires SentOk(s) && CanWrite(s, Send(arrives))
    ensures SentOk(SendChunk(s, arrives))
  {
    hide Allocations, Sum;
    var n := Min(512, |s.writer.records|);
    SumAppend(s.delivered, [s.writer.records[..n]], Size);
    SumOne(s.writer.records[..n], Size);
  }

  /** Steps that neither decode nor send. */
  lemma SentUntouched(s: State, s': State)
    requires SentOk(s) && s'.hasSender == s.hasSender
    requires |s.slots| <= |s'.slots|
    requires forall k :: 0 <= k < |s'.slots| ==>
      s'.slots[k].decoded == if k < |s.slots| then s.slots[k].decoded else []
    requires s'.delivered == s.delivered && s'.channelDropped == s.channelDropped
    requires Unsent(s'.writer) == Unsent(s.writer)
    ensures SentOk(s')
  {
    hide Allocations;
    var n := |s.slots|;
    assert s'.slots == s'.slots[..n] + s'.slots[n..];
    SumAppend(s'.slots[..n], s'.slots[n..], Unpacked);
    UnpackedSame(s.slots, s'.slots[..n]);
    PartsOfNone();
    SumZero(s'.slots[n..], Unpacked);
  }

  lemma DecodeStepSends(s: State)
    requires SentOk(s) && CanWrite(s, Decode)
    ensures SentOk(DoWrite(s, Decode))
  {
    hide SentOk, DecodeHeld;
    DecodeSends(s);
  }

  lemma ChunkStepSends(s: State, arrives: bool)
    requires SentOk(s) && CanWrite(s, Send(arrives))
    ensures SentOk(DoWrite(s, Send(arrives)))
  {
    hide SentOk, SendChunk;
    ChunkSends(s, arrives);
  }

  lemma FlushSends(s: State)
    requires SentOk(s) && CanWrite(s, FlushSlot)
    ensures SentOk(DoWrite(s, FlushSlot))
  {
    hide SentOk;
    assert DoWrite(s, FlushSlot) == FlushOne(s);
    SentUntouched(s, FlushOne(s));
  }

  lemma WriteKeepsSent(s: State, w: WriterMove)
    requires SentOk(s) && CanWrite(s, w)
    ensures SentOk(DoWrite(s, w))
  {
    hide SentOk, DecodeHeld, SendChunk, FlushOne, DoWrite;
    match w {
      case Decode => DecodeStepSends(s);
      case Send(arrives) => ChunkStepSends(s, arrives);
      case FlushSlot => FlushSends(s);
      case _ =>
        PlainWrite(s, w);
        SentUntouched(s, DoWrite(s, w));
    }
  }

  lemma KeepsSent(s: State, step: Step)
    requires SentOk(s) && Enabled(s, step)
    ensures SentOk(Apply(s, step))
  {
    hide SentOk, DoProduce, DoWrite, DoFinish, CanProduce, CanWrite, CanFinish;
    match step {
      case Writing(w) => WriteKeepsSent(s, w);
      case _ => SentUntouched(s, Apply(s, step));
    }
  }

  // ---- the footer ---------------------------------------------------------------------------------------------

  /** Counters read for the footer still hold. */
  predicate FooterOk(s: State) {
    match s.writer
    case ReadProduced(p) => s.hasSender && p == s.sequence
    case ReadDropped(p, d) => s.hasSender && p == s.sequence && d == s.allocDropped
    case Ended(footer) =>
      footer == if s.hasSender then Some(Footer(s.sequence, s.allocDropped, s.channelDropped, s.allocPaused)) else None
    case _ => true
  }

  lemma KeepsFooter(s: State, step: Step)
    requires PhaseOk(s) && FooterOk(s) && Enabled(s, step)
    ensures FooterOk(Apply(s, step))
  {
    hide DoProduce, PollQueue, WakeUp, DecodeHeld, SendChunk, ReleaseHeld, FlushOne, ObeyCommand;
    match step {
      case Spawn =>
      case Produce(t, move) =>
        if WroteAll(s.writer) {
          OutsideStep(s, t, move);
        }
      case Writing(w) =>
        if !w.ReadFooter? {
          WriterStaysOpen(s, w);
        }
      case Finishing(_) =>
    }
  }

  /** Only the footer steps enter the footer states. */
  lemma WriterStaysOpen(s: State, w: WriterMove)
    requires CanWrite(s, w) && !w.ReadFooter?
    ensures WroteAll(DoWrite(s, w).writer) ==> DoWrite(s, w).writer.ReadingFooter?
  {
    hide Items, Allocations;
  }
}
