/** Buffers are neither lost nor overfilled, and each slot's records reach the writer once, in order. */
module CollectorBuffers {
  import opened Basics
  import opened TraceRecord
  import opened BufferQueue
  import opened Collector
  import opened CollectorThreads

  // ---- definitions --------------------------------------------------------------------------------------

  function Held(slot: Slot): int { if slot.buffer.Some? then 1 else 0 }

  /** A pooled buffer in the writer's hands; idle ticks carry none. */
  function InHand(w: Writer): int {
    if (w.Holding? || w.Sending?) && w.pooled then 1 else 0
  }

  predicate Bounded(b: Buffer, slots: nat) {
    |b.data| <= BUFFER_BYTES && b.origin < slots
  }

  ghost predicate SlotBufferOk(slot: Slot, k: nat) {
    slot.buffer.Some? ==>
      slot.buffer.value.origin == k && |slot.buffer.value.data| <= BUFFER_BYTES && WellCoded(slot.buffer.value.data)
  }

  /** Every buffer is in exactly one place, within its capacity, and clean while pooled. */
  ghost predicate BuffersOk(s: State) {
    && |s.queue.pool| + |s.queue.full| + Sum(s.slots, Held) + InHand(s.writer) == POOL_BUFFERS
    && (forall i :: 0 <= i < |s.queue.pool| ==> s.queue.pool[i].data == [])
    && (forall i :: 0 <= i < |s.queue.full| ==> Bounded(s.queue.full[i], |s.slots|))
    && (forall k :: 0 <= k < |s.slots| ==> SlotBufferOk(s.slots[k], k))
    && (s.writer.Holding? || s.writer.Sending? ==> Bounded(s.writer.buffer, |s.slots|))
    && (s.writer.Holding? && !s.writer.pooled ==> s.writer.buffer.data == [])
  }

  ghost function ItemsFrom(b: Buffer, k: nat): seq<Item> {
    if b.origin == k then Items(b.data) else []
  }

  /** What queued buffers of slot `k` will decode to, oldest first. */
  ghost function Queued(full: seq<Buffer>, k: nat): seq<Item> {
    if full == [] then [] else ItemsFrom(full[0], k) + Queued(full[1..], k)
  }

  ghost function InWriter(w: Writer, k: nat): seq<Item> {
    if w.Holding? then ItemsFrom(w.buffer, k) else []
  }

  ghost function InSlot(slot: Slot): seq<Item> {
    if slot.buffer.Some? then Items(slot.buffer.value.data) else []
  }

  /** All that slot `k` ever stored: decoded, then in the writer's hands, then queued, then current. */
  ghost predicate FlowOk(s: State, k: nat)
    requires k < |s.slots|
  {
    s.slots[k].appended
      == s.slots[k].decoded + InWriter(s.writer, k) + Queued(s.queue.full, k) + InSlot(s.slots[k])
  }

  ghost predicate FlowsOk(s: State) {
    forall k :: 0 <= k < |s.slots| ==> FlowOk(s, k)
  }

  predicate SameFlow(a: Slot, b: Slot) {
    a.buffer == b.buffer && a.appended == b.appended && a.decoded == b.decoded
  }

  // ---- effects --------------------------------------------------------------------------------------------

  lemma {:induction false} QueuedSnoc(full: seq<Buffer>, b: Buffer, k: nat)
    ensures Queued(full + [b], k) == Queued(full, k) + ItemsFrom(b, k)
  {
    hide ItemsFrom;
    if full == [] {
      assert [] + [b] == [b];
      assert Queued([b], k) == ItemsFrom(b, k) + Queued([], k);
    } else {
      assert (full + [b])[1..] == full[1..] + [b];
      QueuedSnoc(full[1..], b, k);
      Assoc(ItemsFrom(full[0], k), Queued(full[1..], k), ItemsFrom(b, k));
    }
  }

  lemma {:induction false} SumSame(a: seq<Slot>, b: seq<Slot>)
    requires |a| == |b| && forall k :: 0 <= k < |a| ==> Held(a[k]) == Held(b[k])
    ensures Sum(a, Held) == Sum(b, Held)
  {
    if a != [] { SumSame(a[1..], b[1..]); }
  }

  /** A step that moves no buffer and stores nothing. */
  lemma FlowUntouched(s: State, s': State)
    requires BuffersOk(s) && FlowsOk(s)
    requires |s'.slots| == |s.slots| && forall k :: 0 <= k < |s.slots| ==> SameFlow(s.slots[k], s'.slots[k])
    requires s'.queue.full == s.queue.full && s'.queue.pool == s.queue.pool
    requires InHand(s'.writer) == InHand(s.writer)
    requires s'.writer.Holding? || s'.writer.Sending? ==>
               (s.writer.Holding? || s.writer.Sending?) && s'.writer.buffer == s.writer.buffer
    requires s'.writer.Holding? <==> s.writer.Holding?
    requires s'.writer.Holding? && !s'.writer.pooled ==> !s.writer.pooled
    ensures BuffersOk(s') && FlowsOk(s')
  {
    hide Items, WellCoded;
    SumSame(s.slots, s'.slots);
    forall k | 0 <= k < |s'.slots| ensures FlowOk(s', k) && SlotBufferOk(s'.slots[k], k) {
      assert FlowOk(s, k) && SlotBufferOk(s.slots[k], k);
    }
  }

  /** `HandOver` moves the slot's buffer to the end of the queue. */
  lemma FlowHandOver(s: State, k: nat)
    requires BuffersOk(s) && FlowsOk(s) && k < |s.slots|
    ensures BuffersOk(HandOver(s, k)) && FlowsOk(HandOver(s, k))
  {
    hide Items, WellCoded;
    var s' := HandOver(s, k);
    if s.slots[k].buffer.Some? {
      var b := s.slots[k].buffer.value;
      SumUpdate(s.slots, k, s'.slots[k], Held);
      assert SlotBufferOk(s.slots[k], k);
      forall j | 0 <= j < |s'.slots| ensures FlowOk(s', j) && SlotBufferOk(s'.slots[j], j) {
        assert FlowOk(s, j) && SlotBufferOk(s.slots[j], j);
        QueuedSnoc(s.queue.full, b, j);
        Assoc(s.slots[j].decoded + InWriter(s.writer, j), Queued(s.queue.full, j), ItemsFrom(b, j));
      }
    }
  }

  /** A slot without a buffer takes a clean one from the pool. */
  lemma FlowRefill(s: State, s': State, k: nat)
    requires BuffersOk(s) && FlowsOk(s) && k < |s.slots| && s.slots[k].buffer.None?
    requires s.queue.pool != []
    requires s'.slots == s.slots[k := s.slots[k].(buffer := Some(Buffer([], k)))]
    requires s'.queue == s.queue.Acquire() && s'.writer == s.writer
    ensures BuffersOk(s') && FlowsOk(s')
  {
    hide Items, WellCoded;
    EmptyIsWellCoded();
    SumUpdate(s.slots, k, s'.slots[k], Held);
    forall j | 0 <= j < |s'.slots| ensures FlowOk(s', j) && SlotBufferOk(s'.slots[j], j) {
      assert FlowOk(s, j) && SlotBufferOk(s.slots[j], j);
    }
  }

  /** Storing `items` in a buffer with room for them. */
  lemma FlowStore(s: State, s': State, k: nat, items: seq<Item>)
    requires BuffersOk(s) && FlowsOk(s) && k < |s.slots| && s.slots[k].buffer.Some?
    requires AllWellFormed(items)
    requires |s.slots[k].buffer.value.data| + |EncodeAll(items)| <= BUFFER_BYTES
    requires |s'.slots| == |s.slots|
    requires forall j :: 0 <= j < |s.slots| && j != k ==> s'.slots[j] == s.slots[j]
    requires s'.slots[k].appended == s.slots[k].appended + items && s'.slots[k].decoded == s.slots[k].decoded
    requires var b := s.slots[k].buffer.value;
             s'.slots[k].buffer == Some(b.(data := b.data + EncodeAll(items)))
    requires s'.queue == s.queue && s'.writer == s.writer
    ensures BuffersOk(s') && FlowsOk(s')
  {
    hide Items, WellCoded, EncodeAll, AllWellFormed;
    var data := s.slots[k].buffer.value.data;
    assert SlotBufferOk(s.slots[k], k);
    AppendDecodes(data, items);
    SumSame(s.slots, s'.slots);
    forall j | 0 <= j < |s'.slots| ensures FlowOk(s', j) && SlotBufferOk(s'.slots[j], j) {
      assert FlowOk(s, j) && SlotBufferOk(s.slots[j], j);
      if j == k {
        Assoc(s.slots[k].decoded + InWriter(s.writer, k) + Queued(s.queue.full, k), Items(data), items);
      }
    }
  }

  lemma FlowNewSlot(s: State, s': State)
    requires BuffersOk(s) && FlowsOk(s)
    requires s'.slots == s.slots + [NewSlot()] && s'.queue == s.queue && s'.writer == s.writer
    ensures BuffersOk(s') && FlowsOk(s')
  {
    hide Items, WellCoded;
    SumAppend(s.slots, [NewSlot()], Held);
    forall k | 0 <= k < |s'.slots| ensures FlowOk(s', k) && SlotBufferOk(s'.slots[k], k) {
      if k < |s.slots| {
        assert FlowOk(s, k) && SlotBufferOk(s.slots[k], k);
      } else {
        NothingFrom(s.queue.full, |s.slots|);
        assert InWriter(s.writer, k) == [];
      }
    }
  }

  lemma {:induction false} NothingFrom(full: seq<Buffer>, k: nat)
    requires forall i :: 0 <= i < |full| ==> Bounded(full[i], k)
    ensures Queued(full, k) == []
  {
    if full != [] {
      assert Bounded(full[0], k);
      forall i | 0 <= i < |full[1..]| ensures Bounded(full[1..][i], k) { assert Bounded(full[i + 1], k); }
      NothingFrom(full[1..], k);
    }
  }

  lemma FlowPop(s: State)
    requires BuffersOk(s) && FlowsOk(s) && s.writer.Polling? && s.queue.full != []
    ensures BuffersOk(PollQueue(s)) && FlowsOk(PollQueue(s))
  {
    hide Items, WellCoded;
    var s' := PollQueue(s);
    assert Bounded(s.queue.full[0], |s.slots|);
    forall k | 0 <= k < |s'.slots| ensures FlowOk(s', k) {
      assert FlowOk(s, k);
      var d, q := s.slots[k].decoded, Queued(s.queue.full[1..], k);
      assert d + [] == d;
      Assoc(d, ItemsFrom(s.queue.full[0], k), q);
    }
  }

  lemma FlowIdleTick(s: State)
    requires BuffersOk(s) && FlowsOk(s) && |s.slots| > 0 && s.writer.Waiting?
    ensures BuffersOk(s.(writer := Holding(Buffer([], 0), false)))
    ensures FlowsOk(s.(writer := Holding(Buffer([], 0), false)))
  {
    hide Items, WellCoded;
    EmptyIsWellCoded();
    var s' := s.(writer := Holding(Buffer([], 0), false));
    forall k | 0 <= k < |s'.slots| ensures FlowOk(s', k) && SlotBufferOk(s'.slots[k], k) {
      assert FlowOk(s, k) && SlotBufferOk(s.slots[k], k);
    }
  }

  lemma FlowDecode(s: State)
    requires BuffersOk(s) && FlowsOk(s) && CanWrite(s, Decode)
    ensures BuffersOk(DecodeHeld(s)) && FlowsOk(DecodeHeld(s))
  {
    hide Items, WellCoded, Allocations;
    var s' := DecodeHeld(s);
    var b := s.writer.buffer;
    SumSame(s.slots, s'.slots);
    forall k | 0 <= k < |s'.slots| ensures FlowOk(s', k) && SlotBufferOk(s'.slots[k], k) {
      assert FlowOk(s, k) && SlotBufferOk(s.slots[k], k);
      if k == b.origin {
        assert s'.slots[k].decoded + [] == s.slots[k].decoded + ItemsFrom(b, k);
      }
    }
  }

  lemma FlowRelease(s: State)
    requires BuffersOk(s) && FlowsOk(s) && CanWrite(s, Release)
    ensures BuffersOk(ReleaseHeld(s)) && FlowsOk(ReleaseHeld(s))
  {
    hide Items, WellCoded;
    var s' := ReleaseHeld(s);
    forall k | 0 <= k < |s'.slots| ensures FlowOk(s', k) && SlotBufferOk(s'.slots[k], k) {
      assert FlowOk(s, k) && SlotBufferOk(s.slots[k], k);
    }
  }

  // ---- every step keeps the buffers and the flows ---------------------------------------------------------

  ghost predicate FlowInv(s: State) {
    BuffersOk(s) && FlowsOk(s)
  }

  /** What a thread about to write stores: well-formed items that fit the room it has checked for. */
  lemma StoredFits(slot: Slot, item: Item)
    requires GoodItem(item) && slot.dropped < TWO_63
    ensures AllWellFormed(Stored(slot, item))
    ensures |EncodeAll(Stored(slot, item))| <= Needed(item)
  {
    hide EncodeItem;
    var items := Stored(slot, item);
    assert [item][1..] == [];
    assert EncodeAll([item]) == EncodeItem(item) + EncodeAll([]);
    if |items| == 2 {
      assert items[1..] == [item];
      assert EncodeAll(items) == EncodeItem(items[0]) + EncodeAll([item]);
    }
  }

  lemma StoreKeepsFlow(s: State, t: nat)
    requires ThreadsOk(s) && FlowInv(s)
    requires CanProduce(s, t, Write) && s.slots[s.threads[t].call.slot].buffer.Some?
    ensures FlowInv(StoreItem(s, t))
  {
    hide ThreadsOk, BuffersOk, FlowsOk, Stored, EncodeAll, AllWellFormed, GoodItem;
    ThreadAndSlotOk(s, t);
    var Filled(item, k) := s.threads[t].call;
    StoredFits(s.slots[k], item);
    FlowStore(s, StoreItem(s, t), k, Stored(s.slots[k], item));
  }

  lemma RollKeepsFlow(s: State, t: nat)
    requires FlowInv(s) && CanProduce(s, t, Roll)
    ensures FlowInv(RollBuffer(s, t))
  {
    hide BuffersOk, FlowsOk, HandOver;
    var k := s.threads[t].call.slot;
    FlowHandOver(s, k);
    HandOverFrame(s, k);
    FlowSame(if RollBuffer(s, t).threads[t].call.Filled? then s else HandOver(s, k), RollBuffer(s, t));
  }

  /** `FlowInv` sees only the slots, the queue and the writer. */
  lemma FlowSame(s: State, s': State)
    requires FlowInv(s) && s'.slots == s.slots && s'.queue == s.queue && s'.writer == s.writer
    ensures FlowInv(s')
  {
    hide Items, WellCoded, Sum, Queued;
    forall k | 0 <= k < |s'.slots| ensures FlowOk(s', k) { assert FlowOk(s, k); }
  }

  lemma RefillKeepsFlow(s: State, t: nat)
    requires ThreadsOk(s) && FlowInv(s) && CanProduce(s, t, Refill)
    ensures FlowInv(RefillBuffer(s, t))
  {
    hide ThreadsOk, BuffersOk, FlowsOk;
    ThreadAndSlotOk(s, t);
    var k := s.threads[t].call.slot;
    var s' := RefillBuffer(s, t);
    if s.queue.pool == [] {
      assert s'.slots == s.slots;
      FlowSame(s, s');
    } else {
      FlowRefill(s, s', k);
    }
  }

  lemma QuietSlotKeepsFlow(s: State, s': State, k: nat, slot: Slot)
    requires FlowInv(s) && k < |s.slots| && s'.slots == s.slots[k := slot] && SameFlow(s.slots[k], slot)
    requires s'.queue == s.queue && s'.writer == s.writer
    ensures FlowInv(s')
  {
    hide BuffersOk, FlowsOk;
    FlowUntouched(s, s');
  }

  lemma ProduceKeepsFlow(s: State, t: nat, move: Move)
    requires ThreadsOk(s) && FlowInv(s) && CanProduce(s, t, move)
    ensures FlowInv(DoProduce(s, t, move))
  {
    hide ThreadsOk, FlowInv, RollBuffer, RefillBuffer, StoreItem, EncodeAll, StoredEvent, ProducerFrame;
    var s' := DoProduce(s, t, move);
    match move {
      case Roll => RollKeepsFlow(s, t);
      case Refill => RefillKeepsFlow(s, t);
      case Write =>
        if s.slots[s.threads[t].call.slot].buffer.Some? {
          StoreKeepsFlow(s, t);
        } else {
          QuietSlotKeepsFlow(s, s', s.threads[t].call.slot, s'.slots[s.threads[t].call.slot]);
        }
      case Lock => QuietSlotKeepsFlow(s, s', s.threads[t].call.slot, s'.slots[s.threads[t].call.slot]);
      case CountDrop => QuietSlotKeepsFlow(s, s', s.threads[t].call.slot, s'.slots[s.threads[t].call.slot]);
      case Locate =>
        if s.threads[t].tls.Fresh? {
          NewSlotKeepsFlow(s, s');
        } else {
          FlowSame(s, s');
        }
      case _ => FlowSame(s, s');
    }
  }

  lemma NewSlotKeepsFlow(s: State, s': State)
    requires FlowInv(s)
    requires s'.slots == s.slots + [NewSlot()] && s'.queue == s.queue && s'.writer == s.writer
    ensures FlowInv(s')
  {
    hide BuffersOk, FlowsOk;
    FlowNewSlot(s, s');
  }

  lemma FlushKeepsFlow(s: State)
    requires FlowInv(s) && CanWrite(s, FlushSlot)
    ensures FlowInv(FlushOne(s))
  {
    hide BuffersOk, FlowsOk, HandOver;
    var b := s.slots[s.writer.next].buffer;
    FlowHandOver(s, s.writer.next);
    HandOverFrame(s, s.writer.next);
    FlowUntouched(if b.Some? && b.value.data != [] then HandOver(s, s.writer.next) else s, FlushOne(s));
  }

  lemma HandOverFrame(s: State, k: nat)
    requires k < |s.slots|
    ensures var r := HandOver(s, k); r == s.(slots := r.slots, queue := r.queue)
  {
  }

  lemma PollKeepsFlow(s: State)
    requires FlowInv(s) && CanWrite(s, Poll)
    ensures FlowInv(PollQueue(s))
  {
    hide BuffersOk, FlowsOk, WriterFrame;
    if s.queue.full != [] {
      FlowPop(s);
    } else {
      FlowUntouched(s, PollQueue(s));
    }
  }

  lemma SendKeepsFlow(s: State, arrives: bool)
    requires FlowInv(s) && CanWrite(s, Send(arrives))
    ensures FlowInv(SendChunk(s, arrives))
  {
    hide BuffersOk, FlowsOk, WriterFrame;
    FlowUntouched(s, SendChunk(s, arrives));
  }

  lemma FooterKeepsFlow(s: State)
    requires FlowInv(s) && CanWrite(s, ReadFooter)
    ensures FlowInv(LoadFooter(s))
  {
    hide BuffersOk, FlowsOk, WriterFrame;
    FlowUntouched(s, LoadFooter(s));
  }

  lemma WriteKeepsFlow(s: State, w: WriterMove)
    requires |s.slots| > 0 && FlowInv(s) && CanWrite(s, w)
    ensures FlowInv(DoWrite(s, w))
  {
    hide BuffersOk, FlowsOk, DecodeHeld, ReleaseHeld, FlushOne, PollQueue, SendChunk, LoadFooter, WriterFrame;
    match w {
      case Poll => PollKeepsFlow(s);
      case Send(arrives) => SendKeepsFlow(s, arrives);
      case ReadFooter => FooterKeepsFlow(s);
      case Wake(timedOut) =>
        if timedOut && !s.queue.closing {
          FlowIdleTick(s);
        } else {
          FlowUntouched(s, DoWrite(s, w));
        }
      case Decode => FlowDecode(s);
      case Release => FlowRelease(s);
      case FlushSlot => FlushKeepsFlow(s);
      case _ => FlowUntouched(s, DoWrite(s, w));
    }
  }

  lemma FinishKeepsFlow(s: State, f: FinishMove)
    requires FlowInv(s) && CanFinish(s, f)
    ensures FlowInv(DoFinish(s, f))
  {
    hide BuffersOk, FlowsOk, HandOver;
    if f.DrainSlot? {
      FlowHandOver(s, s.finisher.next);
      HandOverFrame(s, s.finisher.next);
      FlowUntouched(HandOver(s, s.finisher.next), DoFinish(s, f));
    } else {
      FlowUntouched(s, DoFinish(s, f));
    }
  }

  lemma KeepsFlow(s: State, step: Step)
    requires ThreadsOk(s) && FlowInv(s) && Enabled(s, step)
    ensures FlowInv(Apply(s, step))
  {
    hide DoProduce, DoWrite, DoFinish, CanProduce, CanWrite, CanFinish, ThreadsOk, FlowInv;
    FirstSlot(s);
    match step {
      case Spawn => FlowSame(s, Apply(s, step));
      case Produce(t, move) => ProduceKeepsFlow(s, t, move);
      case Writing(w) => WriteKeepsFlow(s, w);
      case Finishing(f) => FinishKeepsFlow(s, f);
    }
  }
}
