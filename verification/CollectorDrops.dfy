/** Records are dropped for one reason only: a thread needed a buffer and the pool had none. */
module CollectorDrops {
  import opened TraceRecord
  import opened BufferQueue
  import opened Collector
  import opened CollectorThreads
  import opened CollectorTheorems
  import opened CollectorInputs

  /** Every thread that asks for a buffer in this run finds one in the pool. */
  ghost predicate PoolLasts(s: State, steps: seq<Step>)
    decreases |steps|
  {
    steps != [] && Enabled(s, steps[0]) ==>
      && (steps[0].Produce? && steps[0].move.Refill? ==> s.queue.pool != [])
      && PoolLasts(Apply(s, steps[0]), steps[1..])
  }

  /** The thread has not dropped anything and has a buffer to write to. */
  predicate Served(slots: seq<Slot>, call: Call) {
    !call.HalfDropped? && (call.Filled? ==> call.slot < |slots| && slots[call.slot].buffer.Some?)
  }

  ghost predicate NoDrops(s: State) {
    && s.allocDropped == 0 && s.totalDropped == 0
    && (forall k :: 0 <= k < |s.slots| ==> s.slots[k].dropped == 0)
    && forall t :: 0 <= t < |s.threads| ==> Served(s.slots, s.threads[t].call)
  }

  /** What a producer step does to this: it changes no buffer but the one whose mutex it holds. */
  ghost predicate ServedStep(s: State, r: State, t: nat) {
    && t < |s.threads| && t < |r.threads| && Served(r.slots, r.threads[t].call)
    && r.allocDropped == s.allocDropped && r.totalDropped == s.totalDropped
    && |s.slots| <= |r.slots|
    && (forall k :: 0 <= k < |r.slots| ==> r.slots[k].dropped == 0)
    && forall k :: 0 <= k < |s.slots| ==>
         r.slots[k].buffer == s.slots[k].buffer || (HoldsLock(s.threads[t].call) && s.threads[t].call.slot == k)
  }

  lemma ServedKeeps(s: State, r: State, t: nat)
    requires ThreadsOk(s) && NoDrops(s) && ProducerFrame(s, r, t) && ServedStep(s, r, t)
    ensures NoDrops(r)
  {
    forall u | 0 <= u < |r.threads| ensures Served(r.slots, r.threads[u].call) {
      if u != t {
        assert ThreadOk(s, u) && ThreadOk(s, t) && Served(s.slots, s.threads[u].call);
      }
    }
  }

  lemma SlotServed(s: State, t: nat, move: Move)
    requires NoDrops(s) && CanProduce(s, t, move) && (move.Locate? || move.Lock? || move.Refill?)
    requires move.Refill? ==> s.queue.pool != []
    ensures ServedStep(s, DoProduce(s, t, move), t)
  {
    hide ProducerFrame;
    assert Served(s.slots, s.threads[t].call);
  }

  lemma RollServed(s: State, t: nat)
    requires NoDrops(s) && CanProduce(s, t, Roll)
    ensures ServedStep(s, RollBuffer(s, t), t)
  {
    hide RollBuffer, Buffer.HasRoom, Needed;
    RollIs(s, t);
  }

  lemma StoreServed(s: State, t: nat)
    requires NoDrops(s) && CanProduce(s, t, Write)
    ensures s.slots[s.threads[t].call.slot].buffer.Some? && ServedStep(s, StoreItem(s, t), t)
  {
    hide ProducerFrame, EncodeAll, Stored;
    assert Served(s.slots, s.threads[t].call);
  }

  lemma OutsideServed(s: State, t: nat, move: Move)
    requires NoDrops(s) && CanProduce(s, t, move) && OutsideSlots(move)
    ensures ServedStep(s, DoProduce(s, t, move), t)
  {
    hide ProducerFrame, LocateSlot, LockSlot, RollBuffer, RefillBuffer, StoreItem, DropItem, FinishDrop, StoredEvent;
  }

  lemma ProducerNoDrops(s: State, t: nat, move: Move)
    requires ThreadsOk(s) && NoDrops(s) && CanProduce(s, t, move) && (move.Refill? ==> s.queue.pool != [])
    ensures NoDrops(DoProduce(s, t, move))
  {
    hide ThreadsOk, ServedStep, ProducerFrame, LocateSlot, LockSlot, RollBuffer, RefillBuffer, StoreItem, DropItem, FinishDrop;
    assert Served(s.slots, s.threads[t].call);
    if !move.CountDrop? {
      match move {
        case Locate => SlotServed(s, t, move);
        case Lock => SlotServed(s, t, move);
        case Refill => SlotServed(s, t, move);
        case Roll => RollServed(s, t);
        case Write => StoreServed(s, t);
        case _ => OutsideServed(s, t, move);
      }
      ServedKeeps(s, DoProduce(s, t, move), t);
    }
  }

  /** The writer and `finish` take buffers only from slots no thread is working on. */
  ghost predicate TakesFree(s: State, r: State) {
    && r.threads == s.threads && NothingStored(s.slots, r.slots)
    && r.allocDropped == s.allocDropped && r.totalDropped == s.totalDropped
    && forall k :: 0 <= k < |s.slots| ==> r.slots[k].buffer == s.slots[k].buffer || s.slots[k].lock.None?
  }

  lemma TakesFreeKeeps(s: State, r: State)
    requires ThreadsOk(s) && NoDrops(s) && TakesFree(s, r)
    ensures NoDrops(r)
  {
    forall u | 0 <= u < |r.threads| ensures Served(r.slots, r.threads[u].call) {
      assert ThreadOk(s, u) && Served(s.slots, s.threads[u].call);
    }
  }

  lemma WriterTakesFree(s: State, w: WriterMove)
    requires CanWrite(s, w)
    ensures TakesFree(s, DoWrite(s, w))
  {
    hide DecodeHeld, SendChunk, FlushOne, PollQueue, ReleaseHeld, LoadFooter, NothingStored, Plain;
    match w {
      case Decode => DecodeTakes(s);
      case Send(arrives) => SendTakes(s, arrives);
      case FlushSlot => FlushTakes(s);
      case _ =>
        PlainWrite(s, w);
        PlainTakes(s, DoWrite(s, w));
    }
  }

  lemma PlainTakes(s: State, r: State)
    requires Plain(s, r)
    ensures TakesFree(s, r)
  {
  }

  lemma DecodeTakes(s: State)
    requires CanWrite(s, Decode)
    ensures TakesFree(s, DecodeHeld(s))
  {
    hide Items, Allocations, WriterFrame;
  }

  lemma SendTakes(s: State, arrives: bool)
    requires CanWrite(s, Send(arrives))
    ensures TakesFree(s, SendChunk(s, arrives))
  {
    hide WriterFrame;
  }

  lemma FlushTakes(s: State)
    requires CanWrite(s, FlushSlot)
    ensures TakesFree(s, FlushOne(s))
  {
    hide WriterFrame;
  }

  lemma FinisherTakesFree(s: State, f: FinishMove)
    requires CanFinish(s, f)
    ensures TakesFree(s, DoFinish(s, f))
  {
    hide FinishFrame;
  }

  lemma StepNoDrops(s: State, step: Step)
    requires ThreadsOk(s) && NoDrops(s) && Enabled(s, step)
    requires step.Produce? && step.move.Refill? ==> s.queue.pool != []
    ensures NoDrops(Apply(s, step))
  {
    hide ThreadsOk, TakesFree, DoProduce, DoWrite, DoFinish, CanProduce, CanWrite, CanFinish;
    match step {
      case Spawn =>
      case Produce(t, move) => ProducerNoDrops(s, t, move);
      case Writing(w) =>
        WriterTakesFree(s, w);
        TakesFreeKeeps(s, DoWrite(s, w));
      case Finishing(f) =>
        FinisherTakesFree(s, f);
        TakesFreeKeeps(s, DoFinish(s, f));
    }
  }

  lemma {:induction false} RunNoDrops(s: State, steps: seq<Step>, s': State)
    requires Inv(s) && NoDrops(s) && Run(s, steps, s') && PoolLasts(s, steps)
    ensures NoDrops(s')
    decreases |steps|
  {
    hide Inv, NoDrops, Apply, Enabled, ThreadsOk;
    if steps != [] {
      InvHasThreads(s);
      InvStep(s, steps[0]);
      StepNoDrops(s, steps[0]);
      RunNoDrops(Apply(s, steps[0]), steps[1..], s');
    }
  }

  /** A run in which the pool never runs out loses nothing: once the writer has ended it has decoded exactly the
      inputs of the calls that were let in while not paused, and no slot holds a Loss row's worth of drops. */
  lemma NoLossWhilePoolLasts(hasSender: bool, steps: seq<Step>, s: State)
    requires Run(Initial(hasSender), steps, s) && PoolLasts(Initial(hasSender), steps)
    ensures s.allocDropped == 0 && s.totalDropped == 0
    ensures s.writer.Ended? ==> AllDecoded(s.slots) == multiset(ItemsOf(Follow(OpenLedger(), steps).admitted))
  {
    hide Inv, Run, PoolLasts, AllDecoded, ItemsOf;
    InvInitially(hasSender);
    RunNoDrops(Initial(hasSender), steps, s);
    if s.writer.Ended? { LosslessRun(hasSender, steps, s); }
  }
}
