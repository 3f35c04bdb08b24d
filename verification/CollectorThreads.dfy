/** Locks, slots and the shutdown handshake: what every step keeps about who may touch what. */
module CollectorThreads {
  import opened Basics
  import opened TraceRecord
  import opened BufferQueue
  import opened Collector

  // ---- producers, slots and locks -------------------------------------------------------------------

  predicate HasSlot(c: Call) {
    c.Located? || c.Locked? || c.Emptied? || c.Filled? || c.HalfDropped?
  }

  predicate HoldsLock(c: Call) {
    c.Locked? || c.Emptied? || c.Filled? || c.HalfDropped?
  }

  predicate HasItem(c: Call) {
    c.Ready? || c.Located? || c.Locked? || c.Emptied? || c.Filled?
  }

  /** What producers store: well-formed, of bounded size, and never a user-made Loss row. */
  predicate GoodItem(i: Item) {
    i.WellFormed() && (i.Event? ==> i.record.kind != KIND_LOSS && |i.frames| <= MAX_FRAMES)
  }

  /** A thread's position agrees with the slots: it works on its own slot (or the late one), owns the
      mutex exactly inside the critical section, and has room when it is about to write. */
  predicate ThreadOk(s: State, t: nat)
    requires t < |s.threads|
  {
    var Thread(c, tls) := s.threads[t];
    && (tls.Cached? ==> 0 < tls.slot < |s.slots|)
    && (c.Entered? || c.Accepted? ==> ValidInput(c.input))
    && (c.Numbered? ==> c.allocation.Acceptable())
    && (HasItem(c) ==> GoodItem(c.item))
    && (HasSlot(c) ==> c.slot < |s.slots| && (if c.slot == 0 then tls.Destroyed? else tls == Cached(c.slot)))
    && (HoldsLock(c) ==> s.slots[c.slot].lock == Some(t))
    && (c.Emptied? ==> s.slots[c.slot].buffer.None?)
    && (c.Filled? && s.slots[c.slot].buffer.Some? ==> s.slots[c.slot].buffer.value.HasRoom(Needed(c.item)))
  }

  predicate LockOk(s: State, k: nat)
    requires k < |s.slots|
  {
    && s.slots[k].dropped < TWO_63
    && (s.slots[k].lock.Some? ==>
          var t := s.slots[k].lock.value;
          t < |s.threads| && HoldsLock(s.threads[t].call) && s.threads[t].call.slot == k)
  }

  ghost predicate OwnSlots(s: State) {
    forall t, u :: 0 <= t < u < |s.threads| && s.threads[t].tls.Cached? ==> s.threads[t].tls != s.threads[u].tls
  }

  ghost predicate ThreadsOk(s: State) {
    && |s.slots| > 0
    && (forall t :: 0 <= t < |s.threads| ==> ThreadOk(s, t))
    && (forall k :: 0 <= k < |s.slots| ==> LockOk(s, k))
    && OwnSlots(s)
  }

  /** A thread moves without touching any slot: it neither takes nor releases a mutex. */
  lemma MoveOutsideSlots(s: State, s': State, t: nat, th: Thread)
    requires ThreadsOk(s) && t < |s.threads|
    requires s'.threads == s.threads[t := th] && s'.slots == s.slots
    requires !HoldsLock(s.threads[t].call)
    requires th.tls == s.threads[t].tls || th.tls.Destroyed?
    requires ThreadOk(s', t)
    ensures ThreadsOk(s')
  {
    forall u | 0 <= u < |s'.threads| && u != t ensures ThreadOk(s', u) { assert ThreadOk(s, u); }
    forall k | 0 <= k < |s'.slots| ensures LockOk(s', k) { assert LockOk(s, k); }
  }

  /** A thread moves and rewrites slot `k`, whose mutex it holds or takes. */
  lemma MoveInSlot(s: State, s': State, t: nat, c: Call, k: nat, slot: Slot)
    requires ThreadsOk(s) && t < |s.threads| && k < |s.slots|
    requires s'.threads == s.threads[t := s.threads[t].(call := c)] && s'.slots == s.slots[k := slot]
    requires s.slots[k].lock.None? || s.slots[k].lock == Some(t)
    requires HoldsLock(s.threads[t].call) ==> s.threads[t].call.slot == k
    requires ThreadOk(s', t) && LockOk(s', k)
    ensures ThreadsOk(s')
  {
    forall u | 0 <= u < |s'.threads| && u != t ensures ThreadOk(s', u) { assert ThreadOk(s, u); }
    forall j | 0 <= j < |s'.slots| && j != k ensures LockOk(s', j) { assert LockOk(s, j); }
  }

  /** The writer or the shutdown thread rewrites slot `k` without changing what its owner relies on. */
  lemma RewriteSlot(s: State, s': State, k: nat, slot: Slot)
    requires ThreadsOk(s) && k < |s.slots|
    requires s'.threads == s.threads && s'.slots == s.slots[k := slot]
    requires slot.lock == s.slots[k].lock && slot.dropped == s.slots[k].dropped
    requires slot.lock.Some? ==> slot.buffer == s.slots[k].buffer
    ensures ThreadsOk(s')
  {
    forall u | 0 <= u < |s'.threads| ensures ThreadOk(s', u) { assert ThreadOk(s, u); }
    forall j | 0 <= j < |s'.slots| ensures LockOk(s', j) { assert LockOk(s, j); }
  }

  lemma LocateKeepsThreads(s: State, t: nat)
    requires ThreadsOk(s) && CanProduce(s, t, Locate)
    ensures ThreadsOk(LocateSlot(s, t))
  {
    hide ThreadsOk, GoodItem, ValidInput, ProducerFrame;
    var s' := LocateSlot(s, t);
    ThreadAndSlotOk(s, t);
    FirstSlot(s);
    if s.threads[t].tls.Fresh? {
      MakeSlot(s, s', t, s.threads[t].call.item);
    } else {
      MoveOutsideSlots(s, s', t, s'.threads[t]);
    }
  }

  /** A thread makes its own slot: no other thread can have cached that index. */
  lemma MakeSlot(s: State, s': State, t: nat, item: Item)
    requires ThreadsOk(s) && t < |s.threads| && GoodItem(item) && !HoldsLock(s.threads[t].call)
    requires s'.threads == s.threads[t := Thread(Located(item, |s.slots|), Cached(|s.slots|))]
    requires s'.slots == s.slots + [NewSlot()]
    ensures ThreadsOk(s')
  {
    hide GoodItem, ValidInput;
    forall u | 0 <= u < |s'.threads| ensures ThreadOk(s', u) {
      assert ThreadOk(s, u);
    }
    forall k | 0 <= k < |s'.slots| ensures LockOk(s', k) {
      if k < |s.slots| { assert LockOk(s, k); }
    }
    assert OwnSlots(s') by {
      forall u | 0 <= u < |s.threads| && s.threads[u].tls.Cached? ensures s.threads[u].tls.slot < |s.slots| {
        assert ThreadOk(s, u);
      }
    }
  }

  lemma LockKeepsThreads(s: State, t: nat)
    requires ThreadsOk(s) && CanProduce(s, t, Lock)
    ensures ThreadsOk(LockSlot(s, t))
  {
    hide ThreadsOk, EncodeAll, ValidInput, GoodItem, ProducerFrame;
    var s' := LockSlot(s, t);
    ThreadAndSlotOk(s, t);
    var k := s.threads[t].call.slot;
    MoveInSlot(s, s', t, s'.threads[t].call, k, s'.slots[k]);
  }

  lemma RollKeepsThreads(s: State, t: nat)
    requires ThreadsOk(s) && CanProduce(s, t, Roll)
    ensures ThreadsOk(RollBuffer(s, t))
  {
    hide ThreadsOk, ValidInput, GoodItem, RollBuffer, Buffer.HasRoom, Needed;
    RollIs(s, t);
    ThreadAndSlotOk(s, t);
    var Locked(item, k) := s.threads[t].call;
    var slot := s.slots[k];
    if slot.buffer.Some? && slot.buffer.value.HasRoom(Needed(item)) {
      InsideSlot(s, RollBuffer(s, t), t, Filled(item, k), k, slot);
    } else {
      InsideSlot(s, RollBuffer(s, t), t, Emptied(item, k), k, slot.(buffer := None));
    }
  }

  /** A thread that holds a slot's mutex goes on to its next position in the critical section. */
  lemma InsideSlot(s: State, s': State, t: nat, c: Call, k: nat, slot: Slot)
    requires ThreadsOk(s) && t < |s.threads| && k < |s.slots|
    requires HoldsLock(s.threads[t].call) && s.threads[t].call.slot == k
    requires s'.threads == s.threads[t := s.threads[t].(call := c)] && s'.slots == s.slots[k := slot]
    requires HoldsLock(c) && c.slot == k && slot.lock == Some(t) && slot.dropped < TWO_63
    requires HasItem(c) ==> GoodItem(c.item)
    requires c.Emptied? ==> slot.buffer.None?
    requires c.Filled? && slot.buffer.Some? ==> slot.buffer.value.HasRoom(Needed(c.item))
    ensures ThreadsOk(s')
  {
    hide ThreadsOk, ValidInput, GoodItem, Buffer.HasRoom, Needed;
    ThreadAndSlotOk(s, t);
    MoveInSlot(s, s', t, c, k, slot);
  }

  /** A thread leaves the critical section. */
  lemma ReleaseSlot(s: State, s': State, t: nat, k: nat, slot: Slot)
    requires ThreadsOk(s) && t < |s.threads| && k < |s.slots|
    requires HoldsLock(s.threads[t].call) && s.threads[t].call.slot == k
    requires s'.threads == s.threads[t := s.threads[t].(call := Leaving)] && s'.slots == s.slots[k := slot]
    requires slot.lock.None? && slot.dropped < TWO_63
    ensures ThreadsOk(s')
  {
    hide ThreadsOk, ValidInput, GoodItem, Buffer.HasRoom, Needed;
    ThreadAndSlotOk(s, t);
    MoveInSlot(s, s', t, Leaving, k, slot);
  }

  lemma RefillKeepsThreads(s: State, t: nat)
    requires ThreadsOk(s) && CanProduce(s, t, Refill)
    ensures ThreadsOk(RefillBuffer(s, t))
  {
    hide ThreadsOk, EncodeAll, ValidInput, ProducerFrame;
    var s' := RefillBuffer(s, t);
    ThreadAndSlotOk(s, t);
    var k := s.threads[t].call.slot;
    MoveInSlot(s, s', t, s'.threads[t].call, k, s'.slots[k]);
  }

  lemma StoreKeepsThreads(s: State, t: nat)
    requires ThreadsOk(s) && CanProduce(s, t, Write) && s.slots[s.threads[t].call.slot].buffer.Some?
    ensures ThreadsOk(StoreItem(s, t))
  {
    hide ThreadsOk, EncodeAll, Stored, ValidInput, GoodItem, ProducerFrame, ThreadOk;
    var k := s.threads[t].call.slot;
    ReleaseSlot(s, StoreItem(s, t), t, k, StoreItem(s, t).slots[k]);
  }

  lemma DropKeepsThreads(s: State, t: nat)
    requires ThreadsOk(s) && CanProduce(s, t, Write)
    ensures ThreadsOk(DropItem(s, t))
  {
    hide ThreadsOk, ValidInput, GoodItem, ProducerFrame, Buffer.HasRoom, Needed;
    ThreadAndSlotOk(s, t);
    var Filled(item, k) := s.threads[t].call;
    var slot := s.slots[k];
    if item.Event? {
      InsideSlot(s, DropItem(s, t), t, HalfDropped(k), k, slot.(dropped := slot.dropped + 1));
    } else {
      ReleaseSlot(s, DropItem(s, t), t, k, slot.(lock := None));
    }
  }

  lemma CountDropKeepsThreads(s: State, t: nat)
    requires ThreadsOk(s) && CanProduce(s, t, CountDrop)
    ensures ThreadsOk(FinishDrop(s, t))
  {
    hide ThreadsOk, ValidInput, GoodItem, ProducerFrame;
    ThreadAndSlotOk(s, t);
    var k := s.threads[t].call.slot;
    ReleaseSlot(s, FinishDrop(s, t), t, k, s.slots[k].(lock := None));
  }

  lemma ThreadAndSlotOk(s: State, t: nat)
    requires ThreadsOk(s) && t < |s.threads|
    ensures ThreadOk(s, t)
    ensures HasSlot(s.threads[t].call) ==> s.threads[t].call.slot < |s.slots| && LockOk(s, s.threads[t].call.slot)
  {
    assert ThreadOk(s, t);
  }

  /** The steps outside any slot. */
  predicate OutsideSlots(move: Move) {
    move.DestroyTls? || move.Enter? || move.CheckAccepting? || move.Number? || move.CheckPaused?
    || move.CountPaused? || move.Leave?
  }

  /** A thread with a number, or none yet, has something well-formed to go on with. */
  lemma NumberKeepsThreads(s: State, t: nat)
    requires ThreadsOk(s) && CanProduce(s, t, Number)
    ensures ThreadsOk(TakeNumber(s, t))
  {
    hide ThreadsOk, GoodItem, ProducerFrame;
    var s' := TakeNumber(s, t);
    ThreadAndSlotOk(s, t);
    MoveOutsideSlots(s, s', t, s'.threads[t]);
  }

  lemma PauseKeepsThreads(s: State, t: nat)
    requires ThreadsOk(s) && CanProduce(s, t, CheckPaused)
    ensures ThreadsOk(CheckPause(s, t))
  {
    hide ThreadsOk, ProducerFrame;
    var s' := CheckPause(s, t);
    ThreadAndSlotOk(s, t);
    MoveOutsideSlots(s, s', t, s'.threads[t]);
  }

  lemma GateKeepsThreads(s: State, t: nat)
    requires ThreadsOk(s) && CanProduce(s, t, CheckAccepting)
    ensures ThreadsOk(CheckGate(s, t))
  {
    hide ThreadsOk, GoodItem, ValidInput, ProducerFrame;
    var s' := CheckGate(s, t);
    ThreadAndSlotOk(s, t);
    MoveOutsideSlots(s, s', t, s'.threads[t]);
  }

  lemma EnterKeepsThreads(s: State, t: nat, input: Input)
    requires ThreadsOk(s) && CanProduce(s, t, Enter(input))
    ensures ThreadsOk(EnterCall(s, t, input))
  {
    hide ThreadsOk, GoodItem, ValidInput, ProducerFrame;
    var s' := EnterCall(s, t, input);
    ThreadAndSlotOk(s, t);
    MoveOutsideSlots(s, s', t, s'.threads[t]);
  }

  /** The steps that leave nothing in hand. */
  lemma EmptyKeepsThreads(s: State, s': State, t: nat, th: Thread)
    requires ThreadsOk(s) && t < |s.threads| && !HoldsLock(s.threads[t].call)
    requires s'.threads == s.threads[t := th] && s'.slots == s.slots
    requires th.call.Idle? || th.call.Leaving?
    requires th.tls == s.threads[t].tls || th.tls.Destroyed?
    ensures ThreadsOk(s')
  {
    hide ThreadsOk, GoodItem, ValidInput;
    ThreadAndSlotOk(s, t);
    MoveOutsideSlots(s, s', t, th);
  }

  lemma OutsideKeepsThreads(s: State, t: nat, move: Move)
    requires ThreadsOk(s) && CanProduce(s, t, move) && OutsideSlots(move)
    ensures ThreadsOk(DoProduce(s, t, move))
  {
    hide ThreadsOk, ValidInput, ProducerFrame, CheckGate, TakeNumber, CheckPause, EnterCall,
      LocateSlot, LockSlot, RollBuffer, RefillBuffer, StoreItem, DropItem, FinishDrop;
    match move {
      case Enter(input) => EnterKeepsThreads(s, t, input);
      case CheckAccepting => GateKeepsThreads(s, t);
      case Number => NumberKeepsThreads(s, t);
      case CheckPaused => PauseKeepsThreads(s, t);
      case DestroyTls => EmptyKeepsThreads(s, Detach(s, t), t, Thread(Idle, Destroyed));
      case CountPaused => EmptyKeepsThreads(s, CountPause(s, t), t, s.threads[t].(call := Leaving));
      case Leave => EmptyKeepsThreads(s, LeaveCall(s, t), t, s.threads[t].(call := Idle));
    }
  }

  lemma ProduceKeepsThreads(s: State, t: nat, move: Move)
    requires ThreadsOk(s) && CanProduce(s, t, move)
    ensures ThreadsOk(DoProduce(s, t, move))
  {
    hide ThreadsOk, LocateSlot, RollBuffer, RefillBuffer, StoreItem, DropItem;
    match move {
      case Locate => LocateKeepsThreads(s, t);
      case Lock => LockKeepsThreads(s, t);
      case Roll => RollKeepsThreads(s, t);
      case Refill => RefillKeepsThreads(s, t);
      case Write =>
        if s.slots[s.threads[t].call.slot].buffer.Some? {
          StoreKeepsThreads(s, t);
        } else {
          DropKeepsThreads(s, t);
        }
      case CountDrop => CountDropKeepsThreads(s, t);
      case _ => OutsideKeepsThreads(s, t, move);
    }
  }

  lemma WriteKeepsThreads(s: State, w: WriterMove)
    requires ThreadsOk(s) && CanWrite(s, w)
    ensures ThreadsOk(DoWrite(s, w))
  {
    hide Items, Allocations, ThreadsOk;
    var s' := DoWrite(s, w);
    var k := if w.Decode? then s.writer.buffer.origin else if w.FlushSlot? then s.writer.next else 0;
    FirstSlot(s);
    RewriteSlot(s, s', k, s'.slots[k]);
  }

  lemma FirstSlot(s: State)
    requires ThreadsOk(s)
    ensures |s.slots| > 0
  {
  }

  lemma FinishKeepsThreads(s: State, f: FinishMove)
    requires ThreadsOk(s) && CanFinish(s, f)
    ensures ThreadsOk(DoFinish(s, f))
  {
    hide ThreadsOk;
    var s' := DoFinish(s, f);
    var k := if f.DrainSlot? then s.finisher.next else 0;
    FirstSlot(s);
    RewriteSlot(s, s', k, s'.slots[k]);
  }

  lemma KeepsThreads(s: State, step: Step)
    requires ThreadsOk(s) && Enabled(s, step)
    ensures ThreadsOk(Apply(s, step))
  {
    hide DoProduce, DoWrite, DoFinish, CanProduce, CanWrite, CanFinish;
    match step {
      case Spawn =>
        var s' := Apply(s, step);
        forall t | 0 <= t < |s'.threads| ensures ThreadOk(s', t) {
          if t < |s.threads| { assert ThreadOk(s, t); }
        }
        forall k | 0 <= k < |s'.slots| ensures LockOk(s', k) { assert LockOk(s, k); }
      case Produce(t, move) => ProduceKeepsThreads(s, t, move);
      case Writing(w) => WriteKeepsThreads(s, w);
      case Finishing(f) => FinishKeepsThreads(s, f);
    }
  }
}
