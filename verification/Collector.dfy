/** The trace collector as an interleaving machine: producers, one writer, one shutdown thread.

    Every lock-protected section and every atomic operation that another thread can observe is one
    step, and memory is sequentially consistent.  Counters are unbounded; the steps that would carry
    one past 63 bits are not taken. */
module Collector {
  import opened Basics
  import opened TraceRecord
  import opened BufferQueue

  // ---- state ---------------------------------------------------------------------------------------

  /** A thread's cached slot: not made yet, made, or gone with its thread-local storage. */
  datatype Tls = Fresh | Cached(slot: nat) | Destroyed

  /** What a caller hands to `record` or `record_allocation`. */
  datatype Input = EventInput(record: EventRecord, frames: seq<u64>) | AllocInput(allocation: Allocation)

  /** Where a thread is inside `record` or `record_allocation`. */
  datatype Call =
    | Idle
    | Entered(input: Input)              // counted in `producers`
    | Accepted(input: Input)             // has seen `accepting`
    | Numbered(allocation: Allocation)   // has taken a sequence number
    | Pausing                            // numbered, and has seen `paused`
    | Ready(item: Item)                  // has something to store
    | Located(item: Item, slot: nat)     // knows its slot
    | Locked(item: Item, slot: nat)      // holds the slot's mutex
    | Emptied(item: Item, slot: nat)     // has handed over the old buffer
    | Filled(item: Item, slot: nat)      // has room, or found the pool exhausted
    | HalfDropped(slot: nat)             // has counted a drop in the slot, not yet in the total
    | Leaving

  datatype Thread = Thread(call: Call, tls: Tls)

  /** A slot's buffer, pending drop count and mutex owner.  `appended` and `decoded` are history: all
      that was ever stored through the slot and all the writer ever decoded from its buffers. */
  datatype Slot = Slot(
    buffer: Option<Buffer>, dropped: nat, lock: Option<nat>, appended: seq<Item>, decoded: seq<Item>)

  function NewSlot(): Slot { Slot(None, 0, None, [], []) }

  datatype Footer = Footer(produced: nat, producerDropped: nat, channelDropped: nat, paused: nat)

  datatype Writer =
    | Polling
    | Waiting
    | Holding(buffer: Buffer, pooled: bool)                               // not pooled: an idle tick
    | Sending(buffer: Buffer, pooled: bool, records: seq<Allocation>)
    | WantsSlots                                                         // about to flush
    | Flushing(next: nat)                                                // holds the slot list
    | Controlling
    | ReadingFooter
    | ReadProduced(produced: nat)
    | ReadDropped(produced: nat, dropped: nat)
    | Ended(footer: Option<Footer>)

  datatype Finisher = NotStarted | Stopped | Quiet | Draining(next: nat) | AllDrained | Closed | Joined

  datatype Holder = Nobody | ByWriter | ByFinisher

  datatype State = State(
    hasSender: bool,
    accepting: bool, producers: nat, paused: bool,
    sequence: nat, allocDropped: nat, allocPaused: nat, totalDropped: nat,
    threads: seq<Thread>, slots: seq<Slot>, slotsLock: Holder, queue: QueueState,
    writer: Writer, delivered: seq<seq<Allocation>>, channelDropped: nat,
    finisher: Finisher)

  /** The session as `Collector::start` leaves it; slot 0 is the shared late slot. */
  function Initial(hasSender: bool): State {
    State(hasSender, true, 0, false, 0, 0, 0, 0, [], [NewSlot()], Nobody, InitialQueue(),
          Polling, [], 0, NotStarted)
  }

  // ---- steps ----------------------------------------------------------------------------------------

  datatype Command = Pause | Resume | Flush

  /** Steps of a producer thread. */
  datatype Move =
    | DestroyTls | Enter(input: Input) | CheckAccepting | Number | CheckPaused | CountPaused
    | Locate | Lock | Roll | Refill | Write | CountDrop | Leave

  /** Steps of the writer thread. */
  datatype WriterMove =
    | Poll | Wake(timedOut: bool) | Decode | Send(arrives: bool) | Release
    | FlushLock | FlushSlot | FlushDone | Obey(command: Command) | EndControl | ReadFooter

  /** Steps of the thread that runs `finish`. */
  datatype FinishMove = Stop | SeeQuiet | DrainLock | DrainSlot | DrainDone | CloseQueue | Join

  datatype Step = Spawn | Produce(t: nat, move: Move) | Writing(w: WriterMove) | Finishing(f: FinishMove)

  /** What the public entry points pass: never a Loss row, and only allocations the wire accepts. */
  predicate ValidInput(i: Input) {
    match i
    case EventInput(record, _) => record.kind != KIND_LOSS
    case AllocInput(a) => a.Acceptable()
  }

  /** Bytes `record` and `record_allocation` ask for; an event reserves room for a Loss row as well. */
  function Needed(i: Item): nat {
    match i
    case Event(_, frames) => 2 * (1 + EVENT_BYTES) + 8 * |frames|
    case Alloc(_) => 1 + ALLOCATION_BYTES
  }

  /** The stored event: at most `MAX_FRAMES` frames, counted in the header. */
  function StoredEvent(record: EventRecord, frames: seq<u64>): Item {
    var n := Min(|frames|, MAX_FRAMES);
    Event(record.(nframes := n), frames[..n])
  }

  function LossRow(near: EventRecord, dropped: nat): Item
    requires dropped < TWO_63
  {
    Event(EventRecord(near.timestamp, 0, 0, 0, 0, dropped, near.tid, KIND_LOSS, 0, 0), [])
  }

  /** What a thread stores when it finds a buffer: a Loss row first if drops are pending. */
  function Stored(slot: Slot, item: Item): seq<Item>
    requires slot.dropped < TWO_63
  {
    if item.Event? && slot.dropped != 0 then [LossRow(item.record, slot.dropped), item] else [item]
  }

  predicate SlotFree(s: State, k: nat) {
    k < |s.slots| && s.slots[k].lock.None?
  }

  predicate CanProduce(s: State, t: nat, move: Move) {
    t < |s.threads| &&
    var call := s.threads[t].call;
    match move
    case DestroyTls => call.Idle?
    case Enter(input) => call.Idle? && ValidInput(input)
    case CheckAccepting => call.Entered?
    case Number => call.Accepted? && call.input.AllocInput? && s.sequence + 1 < TWO_63
    case CheckPaused => call.Numbered? || (call.Accepted? && call.input.EventInput?)
    case CountPaused => call.Pausing?
    case Locate => call.Ready? && (s.threads[t].tls.Fresh? ==> s.slotsLock == Nobody)
    case Lock => call.Located? && SlotFree(s, call.slot)
    case Roll => call.Locked? && call.slot < |s.slots|
    case Refill => call.Emptied? && call.slot < |s.slots|
    case Write => call.Filled? && call.slot < |s.slots| && s.slots[call.slot].dropped + 1 < TWO_63
    case CountDrop => call.HalfDropped? && call.slot < |s.slots|
    case Leave => call.Leaving? && s.producers > 0
  }

  predicate CanWrite(s: State, w: WriterMove) {
    match w
    case Poll => s.writer.Polling?
    case Wake(_) => s.writer.Waiting?
    case Decode => s.writer.Holding? && s.writer.buffer.origin < |s.slots|
    case Send(_) => s.writer.Sending? && s.writer.records != []
    case Release => s.writer.Sending? && s.writer.records == []
    case FlushLock => s.writer.WantsSlots? && s.slotsLock == Nobody
    case FlushSlot => s.writer.Flushing? && SlotFree(s, s.writer.next)
    case FlushDone => s.writer.Flushing? && s.writer.next == |s.slots|
    case Obey(_) => s.writer.Controlling?
    case EndControl => s.writer.Controlling?
    case ReadFooter => s.writer.ReadingFooter? || s.writer.ReadProduced? || s.writer.ReadDropped?
  }

  predicate CanFinish(s: State, f: FinishMove) {
    match f
    case Stop => s.finisher.NotStarted?
    case SeeQuiet => s.finisher.Stopped? && s.producers == 0
    case DrainLock => s.finisher.Quiet? && s.slotsLock == Nobody
    case DrainSlot => s.finisher.Draining? && SlotFree(s, s.finisher.next)
    case DrainDone => s.finisher.Draining? && s.finisher.next == |s.slots|
    case CloseQueue => s.finisher.AllDrained?
    case Join => s.finisher.Closed? && s.writer.Ended?
  }

  predicate Enabled(s: State, step: Step) {
    match step
    case Spawn => true
    case Produce(t, move) => CanProduce(s, t, move)
    case Writing(w) => CanWrite(s, w)
    case Finishing(f) => CanFinish(s, f)
  }

  function SetCall(s: State, t: nat, c: Call): State
    requires t < |s.threads|
  {
    s.(threads := s.threads[t := s.threads[t].(call := c)])
  }

  function SetSlot(s: State, k: nat, slot: Slot): State
    requires k < |s.slots|
  {
    s.(slots := s.slots[k := slot])
  }

  /** Hand a slot's buffer, if any, to the writer. */
  function HandOver(s: State, k: nat): State
    requires k < |s.slots|
  {
    var slot := s.slots[k];
    if slot.buffer.None? then s
    else SetSlot(s, k, slot.(buffer := None)).(queue := s.queue.Submit(slot.buffer.value))
  }

  function Active(th: Thread): int { if th.call.Idle? then 0 else 1 }

  /** What a step of thread `t` leaves alone, and how it counts itself. */
  ghost predicate ProducerFrame(s: State, r: State, t: nat) {
    && t < |s.threads| == |r.threads| && |s.slots| <= |r.slots|
    && r == s.(producers := r.producers, sequence := r.sequence, allocDropped := r.allocDropped,
               allocPaused := r.allocPaused, totalDropped := r.totalDropped, threads := r.threads,
               slots := r.slots, queue := r.queue)
    && r.threads == s.threads[t := r.threads[t]]
    && r.producers - s.producers == Active(r.threads[t]) - Active(s.threads[t])
    && r.queue.closing == s.queue.closing
    && forall k :: 0 <= k < |r.slots| ==>
         r.slots[k].decoded == if k < |s.slots| then s.slots[k].decoded else []
  }

  /** Nothing is stored through a slot and no drop is counted in it. */
  ghost predicate NothingStored(a: seq<Slot>, b: seq<Slot>) {
    |a| == |b|
    && forall k :: 0 <= k < |a| ==> b[k].appended == a[k].appended && b[k].dropped == a[k].dropped
  }

  // ---- producer steps ---------------------------------------------------------------------------------

  /** The thread's local storage is destroyed. */
  function Detach(s: State, t: nat): (r: State)
    requires CanProduce(s, t, DestroyTls)
    ensures ProducerFrame(s, r, t)
  {
    s.(threads := s.threads[t := Thread(Idle, Destroyed)])
  }

  /** `ProducerGuard::enter`. */
  function EnterCall(s: State, t: nat, input: Input): (r: State)
    requires CanProduce(s, t, Enter(input))
    ensures ProducerFrame(s, r, t)
  {
    SetCall(s, t, Entered(input)).(producers := s.producers + 1)
  }

  function CheckGate(s: State, t: nat): (r: State)
    requires CanProduce(s, t, CheckAccepting)
    ensures ProducerFrame(s, r, t)
  {
    SetCall(s, t, if s.accepting then Accepted(s.threads[t].call.input) else Leaving)
  }

  function TakeNumber(s: State, t: nat): (r: State)
    requires CanProduce(s, t, Number)
    ensures ProducerFrame(s, r, t)
  {
    SetCall(s, t, Numbered(s.threads[t].call.input.allocation.(sequence := s.sequence + 1)))
      .(sequence := s.sequence + 1)
  }

  function CheckPause(s: State, t: nat): (r: State)
    requires CanProduce(s, t, CheckPaused)
    ensures ProducerFrame(s, r, t)
  {
    var call := s.threads[t].call;
    SetCall(s, t, if call.Numbered? then if s.paused then Pausing else Ready(Alloc(call.allocation))
                  else if s.paused then Leaving
                  else Ready(StoredEvent(call.input.record, call.input.frames)))
  }

  function CountPause(s: State, t: nat): (r: State)
    requires CanProduce(s, t, CountPaused)
    ensures ProducerFrame(s, r, t)
  {
    SetCall(s, t, Leaving).(allocPaused := s.allocPaused + 1)
  }

  /** `thread_slot`: the cached slot, a new one, or the late slot once the cache is destroyed. */
  function LocateSlot(s: State, t: nat): (r: State)
    requires CanProduce(s, t, Locate)
    ensures ProducerFrame(s, r, t)
  {
    var item := s.threads[t].call.item;
    match s.threads[t].tls
    case Cached(k) => SetCall(s, t, Located(item, k))
    case Destroyed => SetCall(s, t, Located(item, 0))
    case Fresh =>
      s.(threads := s.threads[t := Thread(Located(item, |s.slots|), Cached(|s.slots|))],
         slots := s.slots + [NewSlot()])
  }

  function LockSlot(s: State, t: nat): (r: State)
    requires CanProduce(s, t, Lock)
    ensures ProducerFrame(s, r, t)
  {
    var Located(item, k) := s.threads[t].call;
    SetCall(SetSlot(s, k, s.slots[k].(lock := Some(t))), t, Locked(item, k))
  }

  /** Keep a buffer that has room; hand over one that has not. */
  function RollBuffer(s: State, t: nat): (r: State)
    requires CanProduce(s, t, Roll)
    ensures ProducerFrame(s, r, t)
  {
    var Locked(item, k) := s.threads[t].call;
    var b := s.slots[k].buffer;
    if b.Some? && b.value.HasRoom(Needed(item)) then SetCall(s, t, Filled(item, k))
    else SetCall(HandOver(s, k), t, Emptied(item, k))
  }

  /** What the roll leaves, field by field. */
  lemma RollIs(s: State, t: nat)
    requires CanProduce(s, t, Roll)
    ensures var Locked(item, k) := s.threads[t].call;
      var slot := s.slots[k];
      var kept := slot.buffer.Some? && slot.buffer.value.HasRoom(Needed(item));
      && RollBuffer(s, t)
         == s.(threads := RollBuffer(s, t).threads, slots := RollBuffer(s, t).slots, queue := RollBuffer(s, t).queue)
      && RollBuffer(s, t).threads == s.threads[t := s.threads[t].(call := if kept then Filled(item, k) else Emptied(item, k))]
      && RollBuffer(s, t).slots == s.slots[k := if kept then slot else slot.(buffer := None)]
      && RollBuffer(s, t).queue == (if kept || slot.buffer.None? then s.queue else s.queue.Submit(slot.buffer.value))
  {
    hide ProducerFrame, Buffer.HasRoom, Needed;
  }

  function RefillBuffer(s: State, t: nat): (r: State)
    requires CanProduce(s, t, Refill)
    ensures ProducerFrame(s, r, t)
  {
    var Emptied(item, k) := s.threads[t].call;
    var b := if s.queue.pool == [] then None else Some(Buffer([], k));
    SetCall(SetSlot(s, k, s.slots[k].(buffer := b)), t, Filled(item, k)).(queue := s.queue.Acquire())
  }

  /** Append to the slot's buffer, flushing pending drops as a Loss row, and unlock. */
  function StoreItem(s: State, t: nat): (r: State)
    requires CanProduce(s, t, Write) && s.slots[s.threads[t].call.slot].buffer.Some?
    ensures ProducerFrame(s, r, t)
  {
    var Filled(item, k) := s.threads[t].call;
    var slot := s.slots[k];
    var b := slot.buffer.value;
    var items := Stored(slot, item);
    SetCall(SetSlot(s, k, Slot(Some(b.(data := b.data + EncodeAll(items))),
                               if item.Event? then 0 else slot.dropped,
                               None, slot.appended + items, slot.decoded)), t, Leaving)
  }

  /** Without a buffer an event is counted in the slot first and stays locked until counted twice; an
      allocation is counted once. */
  function DropItem(s: State, t: nat): (r: State)
    requires CanProduce(s, t, Write)
    ensures ProducerFrame(s, r, t)
  {
    var Filled(item, k) := s.threads[t].call;
    var slot := s.slots[k];
    if item.Event? then SetCall(SetSlot(s, k, slot.(dropped := slot.dropped + 1)), t, HalfDropped(k))
    else SetCall(SetSlot(s, k, slot.(lock := None)), t, Leaving).(allocDropped := s.allocDropped + 1)
  }

  function FinishDrop(s: State, t: nat): (r: State)
    requires CanProduce(s, t, CountDrop)
    ensures ProducerFrame(s, r, t)
  {
    var k := s.threads[t].call.slot;
    SetCall(SetSlot(s, k, s.slots[k].(lock := None)), t, Leaving).(totalDropped := s.totalDropped + 1)
  }

  function LeaveCall(s: State, t: nat): (r: State)
    requires CanProduce(s, t, Leave)
    ensures ProducerFrame(s, r, t)
  {
    SetCall(s, t, Idle).(producers := s.producers - 1)
  }

  function DoProduce(s: State, t: nat, move: Move): (r: State)
    requires CanProduce(s, t, move)
    ensures ProducerFrame(s, r, t)
  {
    match move
    case DestroyTls => Detach(s, t)
    case Enter(input) => EnterCall(s, t, input)
    case CheckAccepting => CheckGate(s, t)
    case Number => TakeNumber(s, t)
    case CheckPaused => CheckPause(s, t)
    case CountPaused => CountPause(s, t)
    case Locate => LocateSlot(s, t)
    case Lock => LockSlot(s, t)
    case Roll => RollBuffer(s, t)
    case Refill => RefillBuffer(s, t)
    case Write => if s.slots[s.threads[t].call.slot].buffer.Some? then StoreItem(s, t) else DropItem(s, t)
    case CountDrop => FinishDrop(s, t)
    case Leave => LeaveCall(s, t)
  }

  // ---- writer steps -----------------------------------------------------------------------------------

  /** What a step of the writer leaves alone. */
  ghost predicate WriterFrame(s: State, r: State) {
    && NothingStored(s.slots, r.slots) && r.queue.closing == s.queue.closing
    && r == s.(paused := r.paused, slots := r.slots, slotsLock := r.slotsLock, queue := r.queue,
               writer := r.writer, delivered := r.delivered, channelDropped := r.channelDropped)
  }

  /** One pass of `next_full`. */
  function PollQueue(s: State): (r: State)
    requires CanWrite(s, Poll)
    ensures WriterFrame(s, r)
  {
    if s.queue.full != [] then s.(writer := Holding(s.queue.full[0], true), queue := s.queue.PopFull())
    else s.(writer := if s.queue.closing then ReadingFooter else Waiting)
  }

  /** A timed-out wait yields an idle tick even if a buffer has arrived meanwhile. */
  function WakeUp(s: State, timedOut: bool): (r: State)
    requires CanWrite(s, Wake(timedOut))
    ensures WriterFrame(s, r)
  {
    s.(writer := if timedOut && !s.queue.closing then Holding(Buffer([], 0), false) else Polling)
  }

  function DecodeHeld(s: State): (r: State)
    requires CanWrite(s, Decode)
    ensures WriterFrame(s, r)
  {
    var Holding(b, pooled) := s.writer;
    var items := Items(b.data);
    var slot := s.slots[b.origin];
    SetSlot(s, b.origin, slot.(decoded := slot.decoded + items))
      .(writer := Sending(b, pooled, Allocations(items)))
  }

  /** One packet of at most 512 records: delivered, or counted as lost. */
  function SendChunk(s: State, arrives: bool): (r: State)
    requires CanWrite(s, Send(arrives))
    ensures WriterFrame(s, r)
  {
    var records := s.writer.records;
    if !s.hasSender then s.(writer := s.writer.(records := []))
    else
      var n := Min(512, |records|);
      var rest := s.(writer := s.writer.(records := records[n..]));
      if arrives then rest.(delivered := s.delivered + [records[..n]])
      else rest.(channelDropped := s.channelDropped + n)
  }

  /** A pooled buffer is recycled; an idle tick flushes the slots instead. */
  function ReleaseHeld(s: State): (r: State)
    requires CanWrite(s, Release)
    ensures WriterFrame(s, r)
  {
    if s.writer.pooled then s.(queue := s.queue.Recycle(s.writer.buffer), writer := Controlling)
    else s.(writer := WantsSlots)
  }

  function FlushOne(s: State): (r: State)
    requires CanWrite(s, FlushSlot)
    ensures WriterFrame(s, r)
  {
    var b := s.slots[s.writer.next].buffer;
    (if b.Some? && b.value.data != [] then HandOver(s, s.writer.next) else s)
      .(writer := Flushing(s.writer.next + 1))
  }

  function ObeyCommand(s: State, command: Command): (r: State)
    requires CanWrite(s, Obey(command))
    ensures WriterFrame(s, r)
  {
    match command
    case Pause => s.(paused := true)
    case Resume => s.(paused := false)
    case Flush => s.(writer := WantsSlots)
  }

  /** The footer's counters are loaded one after the other. */
  function LoadFooter(s: State): (r: State)
    requires CanWrite(s, ReadFooter)
    ensures WriterFrame(s, r)
  {
    match s.writer
    case ReadingFooter =>
      s.(writer := if s.hasSender then ReadProduced(s.sequence) else Ended(None))
    case ReadProduced(p) => s.(writer := ReadDropped(p, s.allocDropped))
    case ReadDropped(p, d) => s.(writer := Ended(Some(Footer(p, d, s.channelDropped, s.allocPaused))))
  }

  function DoWrite(s: State, w: WriterMove): (r: State)
    requires CanWrite(s, w)
    ensures WriterFrame(s, r)
  {
    match w
    case Poll => PollQueue(s)
    case Wake(timedOut) => WakeUp(s, timedOut)
    case Decode => DecodeHeld(s)
    case Send(arrives) => SendChunk(s, arrives)
    case Release => ReleaseHeld(s)
    case FlushLock => s.(writer := Flushing(0), slotsLock := ByWriter)
    case FlushSlot => FlushOne(s)
    case FlushDone => s.(writer := Controlling, slotsLock := Nobody)
    case Obey(command) => ObeyCommand(s, command)
    case EndControl => s.(writer := Polling)
    case ReadFooter => LoadFooter(s)
  }

  /** A step of the writer that neither decodes, sends nor touches a slot. */
  predicate Plain(s: State, r: State) {
    && r == s.(paused := r.paused, slotsLock := r.slotsLock, queue := r.queue, writer := r.writer)
    && !r.writer.Sending? && (s.writer.Sending? ==> s.writer.records == [])
  }

  lemma PollPlain(s: State)
    requires CanWrite(s, Poll)
    ensures Plain(s, PollQueue(s))
  {
    hide WriterFrame;
  }

  lemma ReleasePlain(s: State)
    requires CanWrite(s, Release)
    ensures Plain(s, ReleaseHeld(s))
  {
    hide WriterFrame;
  }

  lemma FooterPlain(s: State)
    requires CanWrite(s, ReadFooter)
    ensures Plain(s, LoadFooter(s))
  {
    hide WriterFrame;
  }

  lemma PlainWrite(s: State, w: WriterMove)
    requires CanWrite(s, w) && !w.Decode? && !w.Send? && !w.FlushSlot?
    ensures Plain(s, DoWrite(s, w))
  {
    hide DecodeHeld, SendChunk, FlushOne, WriterFrame, PollQueue, ReleaseHeld, LoadFooter;
    match w {
      case Poll => PollPlain(s);
      case Release => ReleasePlain(s);
      case ReadFooter => FooterPlain(s);
      case _ =>
    }
  }

  // ---- shutdown steps ---------------------------------------------------------------------------------

  /** What a step of `finish` leaves alone. */
  ghost predicate FinishFrame(s: State, r: State) {
    && NothingStored(s.slots, r.slots)
    && (forall k :: 0 <= k < |s.slots| ==> r.slots[k].decoded == s.slots[k].decoded)
    && r == s.(accepting := r.accepting, slots := r.slots, slotsLock := r.slotsLock, queue := r.queue,
               finisher := r.finisher)
  }

  function DrainOne(s: State): (r: State)
    requires CanFinish(s, DrainSlot)
    ensures FinishFrame(s, r)
  {
    HandOver(s, s.finisher.next).(finisher := Draining(s.finisher.next + 1))
  }

  function DoFinish(s: State, f: FinishMove): (r: State)
    requires CanFinish(s, f)
    ensures FinishFrame(s, r)
  {
    match f
    case Stop => s.(accepting := false, finisher := Stopped)
    case SeeQuiet => s.(finisher := Quiet)
    case DrainLock => s.(finisher := Draining(0), slotsLock := ByFinisher)
    case DrainSlot => DrainOne(s)
    case DrainDone => s.(finisher := AllDrained, slotsLock := Nobody)
    case CloseQueue => s.(queue := s.queue.Close(), finisher := Closed)
    case Join => s.(finisher := Joined)
  }

  function Apply(s: State, step: Step): State
    requires Enabled(s, step)
  {
    match step
    case Spawn => s.(threads := s.threads + [Thread(Idle, Fresh)])
    case Produce(t, move) => DoProduce(s, t, move)
    case Writing(w) => DoWrite(s, w)
    case Finishing(f) => DoFinish(s, f)
  }

  /** `s'` is reached from `s` by taking `steps` in order. */
  ghost predicate Run(s: State, steps: seq<Step>, s': State)
    decreases |steps|
  {
    if steps == [] then s == s'
    else Enabled(s, steps[0]) && Run(Apply(s, steps[0]), steps[1..], s')
  }
}
