/** Allocation numbers increase along every thread-owned slot. */
module CollectorOrder {
  import opened TraceRecord
  import opened Collector
  import opened CollectorThreads
  import opened CollectorAccounting

  ghost predicate Ascending(a: seq<Allocation>) {
    forall i, j :: 0 <= i < j < |a| ==> a[i].sequence < a[j].sequence
  }

  ghost predicate UpTo(a: seq<Allocation>, bound: int) {
    forall i :: 0 <= i < |a| ==> a[i].sequence <= bound
  }

  /** The largest number a thread can already have stored: one below the one it carries, if any. */
  function Reach(s: State, c: Call): int {
    if Carrying(c) then Carried(c).sequence - 1 else s.sequence
  }

  function StoredIn(slot: Slot): seq<Allocation> { Allocations(slot.appended) }

  /** Slot 0 is shared by threads whose own storage is gone, so only the others are ordered. */
  ghost predicate OrderOk(s: State) {
    && (forall k :: 0 < k < |s.slots| ==> Ascending(StoredIn(s.slots[k])))
    && (forall t :: 0 <= t < |s.threads| && Carrying(s.threads[t].call) ==> Carried(s.threads[t].call).sequence <= s.sequence)
    && (forall t :: 0 <= t < |s.threads| && s.threads[t].tls.Cached? && s.threads[t].tls.slot < |s.slots| ==>
          UpTo(StoredIn(s.slots[s.threads[t].tls.slot]), Reach(s, s.threads[t].call)))
  }

  /** Steps that store no allocation: numbers only grow and the thread's reach does not shrink. */
  lemma OrderMove(s: State, s': State, t: nat, th: Thread)
    requires ThreadsOk(s) && OrderOk(s) && t < |s.threads|
    requires s'.threads == s.threads[t := th] && s.sequence <= s'.sequence
    requires |s.slots| <= |s'.slots|
    requires forall k :: 0 <= k < |s'.slots| ==>
      StoredIn(s'.slots[k]) == if k < |s.slots| then StoredIn(s.slots[k]) else []
    requires th.tls == s.threads[t].tls || th.tls.Destroyed? || th.tls == Cached(|s.slots|)
    requires Reach(s, s.threads[t].call) <= Reach(s', th.call)
    requires Carrying(th.call) ==> Carried(th.call).sequence <= s'.sequence
    ensures OrderOk(s')
  {
    hide StoredIn;
    forall u | 0 <= u < |s.threads| && u != t && s.threads[u].tls.Cached?
      ensures s.threads[u].tls.slot < |s.slots|
    {
      assert ThreadOk(s, u);
    }
    assert ThreadOk(s, t);
  }

  /** Storing an allocation in a thread's own slot, or anything at all in the late slot. */
  lemma OrderStore(s: State, s': State, t: nat, k: nat, a: Allocation)
    requires ThreadsOk(s) && OrderOk(s) && t < |s.threads| && k < |s.slots|
    requires Carrying(s.threads[t].call) && Carried(s.threads[t].call) == a
    requires if k == 0 then s.threads[t].tls.Destroyed? else s.threads[t].tls == Cached(k)
    requires s'.threads == s.threads[t := s.threads[t].(call := Leaving)] && s'.sequence == s.sequence
    requires |s'.slots| == |s.slots|
    requires forall j :: 0 <= j < |s.slots| ==>
      StoredIn(s'.slots[j]) == if j == k then StoredIn(s.slots[k]) + [a] else StoredIn(s.slots[j])
    ensures OrderOk(s')
  {
    hide StoredIn;
    forall u | 0 <= u < |s.threads| && s.threads[u].tls.Cached?
      ensures 0 < s.threads[u].tls.slot < |s.slots| && (u != t ==> s.threads[u].tls.slot != k)
    {
      assert ThreadOk(s, u);
    }
  }

  lemma StoreKeepsOrder(s: State, t: nat)
    requires ThreadsOk(s) && OrderOk(s)
    requires CanProduce(s, t, Write) && s.slots[s.threads[t].call.slot].buffer.Some?
    ensures OrderOk(StoreItem(s, t))
  {
    hide ThreadsOk, OrderOk, Stored, EncodeAll, Allocations, GoodItem;
    ThreadAndSlotOk(s, t);
    var Filled(item, k) := s.threads[t].call;
    var s' := StoreItem(s, t);
    StoredAllocations(s.slots[k], item);
    if item.Alloc? {
      OrderStore(s, s', t, k, item.allocation);
    } else {
      assert s'.threads[t] == Thread(Leaving, s.threads[t].tls);
      assert Allocations(s.slots[k].appended) + [] == Allocations(s.slots[k].appended);
      OrderMove(s, s', t, s'.threads[t]);
    }
  }

  lemma StoredAllocations(slot: Slot, item: Item)
    requires slot.dropped < TWO_63
    ensures Allocations(slot.appended + Stored(slot, item))
         == Allocations(slot.appended) + if item.Alloc? then [item.allocation] else []
  {
    hide Allocations;
    var items := Stored(slot, item);
    AllocationsAppend(slot.appended, items);
    PartsOfOne(item);
    if |items| == 2 {
      AllocationsAppend([items[0]], [item]);
      PartsOfOne(items[0]);
      assert items == [items[0]] + [item];
    }
  }

  lemma LocateKeepsOrder(s: State, t: nat)
    requires ThreadsOk(s) && OrderOk(s) && CanProduce(s, t, Locate)
    ensures OrderOk(LocateSlot(s, t))
  {
    hide ThreadsOk, OrderOk, Allocations;
    PartsOfNone();
    CarriedBound(s, t);
    var s' := LocateSlot(s, t);
    OrderMove(s, s', t, s'.threads[t]);
  }

  lemma CarriedBound(s: State, t: nat)
    requires OrderOk(s) && t < |s.threads|
    ensures Carrying(s.threads[t].call) ==> Carried(s.threads[t].call).sequence <= s.sequence
  {
  }

  lemma OutsideKeepsOrder(s: State, t: nat, move: Move)
    requires ThreadsOk(s) && OrderOk(s) && CanProduce(s, t, move) && OutsideSlots(move)
    ensures OrderOk(DoProduce(s, t, move))
  {
    hide ThreadsOk, OrderOk, StoredIn,
      StoreItem, DropItem, LocateSlot, LockSlot, RollBuffer, RefillBuffer, FinishDrop;
    CarriedBound(s, t);
    var s' := DoProduce(s, t, move);
    OrderMove(s, s', t, s'.threads[t]);
  }

  /** Inside the critical section only storing touches the slot's history. */
  lemma SlotKeepsOrder(s: State, s': State, t: nat, c: Call)
    requires ThreadsOk(s) && OrderOk(s) && t < |s.threads|
    requires s'.threads == s.threads[t := s.threads[t].(call := c)] && s'.sequence == s.sequence
    requires |s.slots| == |s'.slots| && forall k :: 0 <= k < |s.slots| ==> s'.slots[k].appended == s.slots[k].appended
    requires Carrying(c) ==> Carrying(s.threads[t].call) && Carried(c) == Carried(s.threads[t].call)
    ensures OrderOk(s')
  {
    hide ThreadsOk, OrderOk, Allocations;
    CarriedBound(s, t);
    OrderMove(s, s', t, s'.threads[t]);
  }

  lemma RollKeepsOrder(s: State, t: nat)
    requires ThreadsOk(s) && OrderOk(s) && CanProduce(s, t, Roll)
    ensures OrderOk(RollBuffer(s, t))
  {
    hide ThreadsOk, OrderOk, Needed;
    SlotKeepsOrder(s, RollBuffer(s, t), t, RollBuffer(s, t).threads[t].call);
  }

  lemma DropKeepsOrder(s: State, t: nat)
    requires ThreadsOk(s) && OrderOk(s) && CanProduce(s, t, Write)
    ensures OrderOk(DropItem(s, t))
  {
    hide ThreadsOk, OrderOk;
    SlotKeepsOrder(s, DropItem(s, t), t, DropItem(s, t).threads[t].call);
  }

  lemma ProduceKeepsOrder(s: State, t: nat, move: Move)
    requires ThreadsOk(s) && OrderOk(s) && CanProduce(s, t, move)
    ensures OrderOk(DoProduce(s, t, move))
  {
    hide ThreadsOk, OrderOk, StoreItem, LocateSlot, RollBuffer, DropItem,
      Detach, EnterCall, CheckGate, TakeNumber, CheckPause, CountPause, LeaveCall;
    match move {
      case Locate => LocateKeepsOrder(s, t);
      case Lock => SlotKeepsOrder(s, LockSlot(s, t), t, LockSlot(s, t).threads[t].call);
      case Roll => RollKeepsOrder(s, t);
      case Refill => SlotKeepsOrder(s, RefillBuffer(s, t), t, RefillBuffer(s, t).threads[t].call);
      case Write =>
        if s.slots[s.threads[t].call.slot].buffer.Some? {
          StoreKeepsOrder(s, t);
        } else {
          DropKeepsOrder(s, t);
        }
      case CountDrop => SlotKeepsOrder(s, FinishDrop(s, t), t, FinishDrop(s, t).threads[t].call);
      case _ => OutsideKeepsOrder(s, t, move);
    }
  }

  lemma OthersKeepOrder(s: State, s': State)
    requires OrderOk(s) && s'.sequence == s.sequence && NothingStored(s.slots, s'.slots)
    requires s'.threads == s.threads || s'.threads == s.threads + [Thread(Idle, Fresh)]
    ensures OrderOk(s')
  {
    assert forall k :: 0 <= k < |s.slots| ==> StoredIn(s'.slots[k]) == StoredIn(s.slots[k]);
  }

  lemma KeepsOrder(s: State, step: Step)
    requires ThreadsOk(s) && OrderOk(s) && Enabled(s, step)
    ensures OrderOk(Apply(s, step))
  {
    hide ThreadsOk, OrderOk, DoProduce, DoWrite, DoFinish, CanProduce, CanWrite, CanFinish;
    match step {
      case Produce(t, move) => ProduceKeepsOrder(s, t, move);
      case _ => OthersKeepOrder(s, Apply(s, step));
    }
  }
}
