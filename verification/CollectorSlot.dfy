/** The slot's critical section as it is written, a change of fields in place, and its agreement with the
    producer steps of the machine taken without interruption. */
module CollectorSlot {
  import opened Basics
  import opened TraceRecord
  import opened BufferQueue
  import opened Collector

  class ThreadSlot {
    var buffer: Option<Buffer>
    var dropped: nat

    constructor ()
      ensures buffer == None && dropped == 0
    {
      buffer, dropped := None, 0;
    }
  }

  class Session {
    const queue: Queue
    var totalDropped: nat
    var allocDropped: nat

    constructor (q: Queue)
      ensures queue == q && totalDropped == 0 && allocDropped == 0
    {
      queue, totalDropped, allocDropped := q, 0, 0;
    }

    /** The fields hold what the machine's state says of slot `k`. */
    ghost predicate Shows(slot: ThreadSlot, s: State, k: nat)
      reads this, queue, slot
    {
      && k < |s.slots| && s.slots[k].buffer == slot.buffer && s.slots[k].dropped == slot.dropped
      && s.queue == queue.View()
      && s.totalDropped == totalDropped && s.allocDropped == allocDropped
    }

    /** Replaces a missing or full buffer; afterwards there is room, or the pool was exhausted. */
    method MakeRoom(slot: ThreadSlot, needed: nat, k: nat)
      requires forall i :: 0 <= i < |queue.pool| ==> queue.pool[i].data == []
      modifies queue, slot`buffer
      ensures var b, q := old(slot.buffer), old(queue.View());
        if b.Some? && |b.value.data| + needed <= 262144 then slot.buffer == b && queue.View() == q
        else
          var handed := if b.Some? then q.Submit(b.value) else q;
          && queue.View() == handed.Acquire()
          && slot.buffer == if q.pool == [] then None else Some(Buffer([], k))
    {
      if slot.buffer.None? || !slot.buffer.value.HasRoom(needed) {
        if slot.buffer.Some? {
          queue.Submit(slot.buffer.value);
          slot.buffer := None;
        }
        var taken := queue.Acquire();
        slot.buffer := if taken.None? then None else Some(taken.value.(origin := k));
      }
    }

    /** The part of `record` under the slot's mutex. */
    method RecordEvent(slot: ThreadSlot, record: EventRecord, frames: seq<u64>, ghost s: State, ghost t: nat, k: nat)
      requires Shows(slot, s, k) && AtLock(s, t, StoredEvent(record, frames), k)
      requires slot.dropped + 1 < TWO_63
      modifies this, queue, slot
      ensures Shows(slot, Section(s, t, k), k)
    {
      hide EncodeItem, EncodeAll, RoomMade, Section;
      var count := Min(|frames|, MAX_FRAMES);
      var stored := record.(nframes := count);
      ghost var item := StoredEvent(record, frames);
      MakeRoom(slot, 2 * (1 + EVENT_BYTES) + 8 * count, k);
      ghost var s' := RoomMade(s, t, k);
      RoomMadeIs(s, t, item, k);
      if slot.buffer.None? {
        slot.dropped := slot.dropped + 1;
        totalDropped := totalDropped + 1;
        DroppedIs(s, t, item, k);
        return;
      }
      var dropped := slot.dropped;
      slot.dropped := 0;
      var data := slot.buffer.value.data;
      if dropped != 0 {
        var loss := EventRecord(stored.timestamp, 0, 0, 0, 0, dropped, stored.tid, KIND_LOSS, 0, 0);
        data := Append(data, loss, []);
      }
      data := Append(data, stored, frames[..count]);
      EncodeStored(s'.slots[k], item, s'.slots[k].buffer.value.data);
      slot.buffer := Some(slot.buffer.value.(data := data));
      StoredIs(s, t, item, k);
    }

    /** The part of `record_allocation` under the slot's mutex. */
    method RecordAllocation(slot: ThreadSlot, allocation: Allocation, ghost s: State, ghost t: nat, k: nat)
      requires Shows(slot, s, k) && AtLock(s, t, Alloc(allocation), k)
      requires slot.dropped + 1 < TWO_63
      modifies this, queue, slot
      ensures Shows(slot, Section(s, t, k), k)
    {
      hide EncodeItem, EncodeAll, RoomMade, Section;
      ghost var item := Alloc(allocation);
      MakeRoom(slot, 1 + ALLOCATION_BYTES, k);
      ghost var s' := RoomMade(s, t, k);
      RoomMadeIs(s, t, item, k);
      if slot.buffer.Some? {
        var data := slot.buffer.value.data + EncodeItem(Alloc(allocation));
        EncodeStored(s'.slots[k], item, s'.slots[k].buffer.value.data);
        slot.buffer := Some(slot.buffer.value.(data := data));
        StoredIs(s, t, item, k);
      } else {
        allocDropped := allocDropped + 1;
        DroppedIs(s, t, item, k);
      }
    }
  }

  /** Thread `t` holds the lock of slot `k` with an item to store, and pooled buffers are empty. */
  ghost predicate AtLock(s: State, t: nat, item: Item, k: nat) {
    && t < |s.threads| && s.threads[t].call == Locked(item, k) && k < |s.slots|
    && s.slots[k].dropped + 1 < TWO_63
    && forall i :: 0 <= i < |s.queue.pool| ==> s.queue.pool[i].data == []
  }

  /** The machine after the roll and refill steps. */
  ghost function RoomMade(s: State, t: nat, k: nat): (r: State)
    requires t < |s.threads| && s.threads[t].call.Locked? && s.threads[t].call.slot == k < |s.slots|
    ensures k < |r.slots|
  {
    var rolled := DoProduce(s, t, Roll);
    if CanProduce(rolled, t, Refill) then DoProduce(rolled, t, Refill) else rolled
  }

  /** The machine after the whole section: roll, refill, write, and the second count of a dropped event. */
  ghost function Section(s: State, t: nat, k: nat): (r: State)
    requires t < |s.threads| && s.threads[t].call.Locked? && s.threads[t].call.slot == k < |s.slots|
    ensures k < |r.slots|
  {
    var made := RoomMade(s, t, k);
    if CanProduce(made, t, Write) then Written(made, t) else made
  }

  /** The machine after the write step and, for a dropped event, its second count. */
  ghost function Written(s: State, t: nat): (r: State)
    requires CanProduce(s, t, Write)
    ensures |s.slots| <= |r.slots|
  {
    var wrote := DoProduce(s, t, Write);
    if CanProduce(wrote, t, CountDrop) then DoProduce(wrote, t, CountDrop) else wrote
  }

  lemma RolledIs(s: State, t: nat, item: Item, k: nat)
    requires AtLock(s, t, item, k)
    ensures var r := DoProduce(s, t, Roll);
      && t < |r.threads| && |r.slots| == |s.slots|
      && r.totalDropped == s.totalDropped && r.allocDropped == s.allocDropped
      && r.slots[k].dropped == s.slots[k].dropped
      && var b := s.slots[k].buffer;
         if b.Some? && b.value.HasRoom(Needed(item)) then
           r.slots[k].buffer == b && r.queue == s.queue && r.threads[t].call == Filled(item, k)
         else
           && r.queue == (if b.Some? then s.queue.Submit(b.value) else s.queue)
           && r.threads[t].call == Emptied(item, k)
  {
    hide RollBuffer, Buffer.HasRoom, Needed;
    RollIs(s, t);
  }

  lemma RefilledIs(s: State, t: nat, item: Item, k: nat)
    requires t < |s.threads| && k < |s.slots| && s.threads[t].call == Emptied(item, k)
    ensures var r := DoProduce(s, t, Refill);
      && t < |r.threads| && r.threads[t].call == Filled(item, k) && |r.slots| == |s.slots|
      && r.totalDropped == s.totalDropped && r.allocDropped == s.allocDropped
      && r.slots[k].dropped == s.slots[k].dropped
      && r.queue == s.queue.Acquire()
      && r.slots[k].buffer == if s.queue.pool == [] then None else Some(Buffer([], k))
  {
    hide ProducerFrame;
  }

  lemma RoomMadeIs(s: State, t: nat, item: Item, k: nat)
    requires AtLock(s, t, item, k)
    ensures var r := RoomMade(s, t, k);
      && t < |r.threads| && r.threads[t].call == Filled(item, k) && |r.slots| == |s.slots|
      && r.totalDropped == s.totalDropped && r.allocDropped == s.allocDropped
      && r.slots[k].dropped == s.slots[k].dropped
      && var b := s.slots[k].buffer;
         if b.Some? && b.value.HasRoom(Needed(item)) then r.slots[k].buffer == b && r.queue == s.queue
         else
           && r.queue == (if b.Some? then s.queue.Submit(b.value) else s.queue).Acquire()
           && r.slots[k].buffer == if s.queue.pool == [] then None else Some(Buffer([], k))
  {
    hide ProducerFrame, DoProduce, Buffer.HasRoom, Needed;
    RolledIs(s, t, item, k);
    var rolled := DoProduce(s, t, Roll);
    if rolled.threads[t].call.Emptied? { RefilledIs(rolled, t, item, k); }
  }

  lemma DroppedIs(s: State, t: nat, item: Item, k: nat)
    requires AtLock(s, t, item, k) && RoomMade(s, t, k).slots[k].buffer.None?
    ensures var m, r := RoomMade(s, t, k), Section(s, t, k);
      && |r.slots| == |m.slots| && r.queue == m.queue && r.slots[k].buffer.None?
      && r.slots[k].dropped == m.slots[k].dropped + (if item.Event? then 1 else 0)
      && r.totalDropped == m.totalDropped + (if item.Event? then 1 else 0)
      && r.allocDropped == m.allocDropped + (if item.Event? then 0 else 1)
  {
    hide ProducerFrame, RoomMade, Buffer.HasRoom, Needed;
    RoomMadeIs(s, t, item, k);
  }

  lemma StoredIs(s: State, t: nat, item: Item, k: nat)
    requires AtLock(s, t, item, k) && RoomMade(s, t, k).slots[k].buffer.Some?
    ensures var m, r := RoomMade(s, t, k), Section(s, t, k);
      && |r.slots| == |m.slots| && r.queue == m.queue
      && r.totalDropped == m.totalDropped && r.allocDropped == m.allocDropped
      && m.slots[k].dropped + 1 < TWO_63
      && r.slots[k].dropped == (if item.Event? then 0 else m.slots[k].dropped)
      && r.slots[k].buffer == Some(m.slots[k].buffer.value.(data := m.slots[k].buffer.value.data
                                                                      + EncodeAll(Stored(m.slots[k], item))))
  {
    hide ProducerFrame, EncodeAll, RoomMade, Buffer.HasRoom, Needed;
    RoomMadeIs(s, t, item, k);
  }

  /** Appending a pending Loss row and then the item writes the bytes of both. */
  lemma EncodeStored(slot: Slot, item: Item, data: seq<byte>)
    requires slot.dropped + 1 < TWO_63
    ensures item.Event? && slot.dropped != 0 ==>
              data + EncodeAll(Stored(slot, item))
              == data + EncodeItem(LossRow(item.record, slot.dropped)) + EncodeItem(item)
    ensures !(item.Event? && slot.dropped != 0) ==> data + EncodeAll(Stored(slot, item)) == data + EncodeItem(item)
  {
    hide EncodeItem;
    var items := Stored(slot, item);
    assert EncodeAll([item]) == EncodeItem(item) by { assert [item][1..] == []; }
    if |items| == 2 {
      assert items[1..] == [item];
      Assoc(data, EncodeItem(items[0]), EncodeItem(item));
    }
  }
}
