/** Shutdown can always be carried to its end. */
module CollectorProgress {
  import opened Basics
  import opened TraceRecord
  import opened BufferQueue
  import opened Collector
  import opened CollectorThreads
  import opened CollectorShutdown
  import opened CollectorBuffers
  import opened CollectorTheorems

  // ---- what is left to do -------------------------------------------------------------------------------------

  /** Work the session owes: no new thread or call, no thread going away, no outside command. */
  predicate Work(step: Step) {
    match step
    case Spawn => false
    case Produce(_, move) => !move.Enter? && !move.DestroyTls?
    case Writing(w) => !w.Obey?
    case Finishing(_) => true
  }

  /** Steps a thread has at most to take until it is out of its call. */
  function Rank(th: Thread): int {
    match th.call
    case Idle => 0
    case Entered(_) => 10
    case Accepted(_) => 9
    case Numbered(_) => 8
    case Pausing => 7
    case Ready(_) => 7
    case Located(_, _) => 6
    case Locked(_, _) => 5
    case Emptied(_, _) => 4
    case Filled(_, _) => 3
    case HalfDropped(_) => 2
    case Leaving => 1
  }

  /** A thread that may still take a sequence number. */
  function Unnumbered(th: Thread): int { if th.call.Entered? || th.call.Accepted? then 1 else 0 }

  /** A thread that may still count a drop in a slot. */
  function Unstored(th: Thread): int { if Rank(th) > 2 then 1 else 0 }

  /** The counters leave room, below the 63-bit limit the machine stops at, for every thread inside a call. */
  ghost predicate CountersInRange(s: State) {
    && s.sequence + Sum(s.threads, Unnumbered) < TWO_63
    && forall k :: 0 <= k < |s.slots| ==> s.slots[k].dropped + Sum(s.threads, Unstored) < TWO_63
  }

  ghost function Inside(s: State): nat {
    SumNonNegative(s.threads, Rank);
    Sum(s.threads, Rank)
  }

  function Stage(f: Finisher): nat {
    match f
    case NotStarted => 6
    case Stopped => 5
    case Quiet => 4
    case Draining(_) => 3
    case AllDrained => 2
    case Closed => 1
    case Joined => 0
  }

  /** Slots `finish` has still to drain. */
  function Undrained(s: State): nat {
    if s.finisher.Draining? && s.finisher.next < |s.slots| then |s.slots| - s.finisher.next else 0
  }

  /** Buffers the writer has still to take: queued, or on their way through a slot. */
  ghost function Outstanding(s: State): nat {
    SumNonNegative(s.slots, Held);
    |s.queue.full| + Sum(s.slots, Held)
  }

  function Position(w: Writer): nat {
    match w
    case Holding(_, _) => 10
    case Sending(_, _, _) => 9
    case WantsSlots => 8
    case Flushing(_) => 7
    case Controlling => 6
    case Waiting => 5
    case Polling => 4
    case ReadingFooter => 3
    case ReadProduced(_) => 2
    case ReadDropped(_, _) => 1
    case Ended(_) => 0
  }

  /** Records the writer has still to send, or slots it has still to flush. */
  function Unhandled(s: State): nat {
    match s.writer
    case Sending(_, _, records) => |records|
    case Flushing(next) => if next < |s.slots| then |s.slots| - next else 0
    case _ => 0
  }

  /** Less is left to do, the first difference deciding. */
  ghost predicate Less(r: State, s: State) {
    if Inside(r) != Inside(s) then Inside(r) < Inside(s)
    else if Stage(r.finisher) != Stage(s.finisher) then Stage(r.finisher) < Stage(s.finisher)
    else if Undrained(r) != Undrained(s) then Undrained(r) < Undrained(s)
    else if Outstanding(r) != Outstanding(s) then Outstanding(r) < Outstanding(s)
    else if Position(r.writer) != Position(s.writer) then Position(r.writer) < Position(s.writer)
    else Unhandled(r) < Unhandled(s)
  }

  /** A step of work that is possible, leaves less to do and keeps room in the counters. */
  ghost predicate Advances(s: State, step: Step) {
    && Work(step) && Enabled(s, step)
    && var r := Apply(s, step);
       Less(r, s) && CountersInRange(r) && !r.finisher.NotStarted?
  }

  // ---- producers ----------------------------------------------------------------------------------------------

  /** The one step a thread inside a call takes next. */
  function NextMove(c: Call): Move
    requires !c.Idle?
  {
    match c
    case Entered(_) => CheckAccepting
    case Accepted(input) => if input.AllocInput? then Number else CheckPaused
    case Numbered(_) => CheckPaused
    case Pausing => CountPaused
    case Ready(_) => Locate
    case Located(_, _) => Lock
    case Locked(_, _) => Roll
    case Emptied(_, _) => Refill
    case Filled(_, _) => Write
    case HalfDropped(_) => CountDrop
    case Leaving => Leave
  }

  /** The thread comes closer to leaving, and a counter goes up only in a step after which its thread will
      not raise it again. */
  ghost predicate Settles(s: State, r: State, t: nat) {
    && t < |s.threads| && t < |r.threads| && Rank(r.threads[t]) < Rank(s.threads[t])
    && r.sequence + Unnumbered(r.threads[t]) <= s.sequence + Unnumbered(s.threads[t])
    && forall k :: 0 <= k < |r.slots| ==>
         if k < |s.slots| then r.slots[k].dropped + Unstored(r.threads[t]) <= s.slots[k].dropped + Unstored(s.threads[t])
         else r.slots[k].dropped == 0
  }

  lemma OutsideSettles(s: State, t: nat)
    requires t < |s.threads| && !s.threads[t].call.Idle? && CanProduce(s, t, NextMove(s.threads[t].call))
    requires OutsideSlots(NextMove(s.threads[t].call))
    ensures Settles(s, DoProduce(s, t, NextMove(s.threads[t].call)), t)
  {
    hide ProducerFrame, StoredEvent, LocateSlot, LockSlot, RollBuffer, RefillBuffer, StoreItem, DropItem, FinishDrop;
    var r := DoProduce(s, t, NextMove(s.threads[t].call));
    assert r.slots == s.slots;
  }

  lemma LocateSettles(s: State, t: nat)
    requires CanProduce(s, t, Locate)
    ensures Settles(s, LocateSlot(s, t), t)
  {
    hide ProducerFrame;
  }

  lemma LockSettles(s: State, t: nat)
    requires CanProduce(s, t, Lock)
    ensures Settles(s, LockSlot(s, t), t)
  {
    hide ProducerFrame;
  }

  lemma RollSettles(s: State, t: nat)
    requires CanProduce(s, t, Roll)
    ensures Settles(s, RollBuffer(s, t), t)
  {
    hide RollBuffer, Buffer.HasRoom, Needed;
    RollIs(s, t);
  }

  lemma RefillSettles(s: State, t: nat)
    requires CanProduce(s, t, Refill)
    ensures Settles(s, RefillBuffer(s, t), t)
  {
    hide ProducerFrame;
  }

  lemma StoreSettles(s: State, t: nat)
    requires CanProduce(s, t, Write) && s.slots[s.threads[t].call.slot].buffer.Some?
    ensures Settles(s, StoreItem(s, t), t)
  {
    hide ProducerFrame, Stored, EncodeAll;
  }

  lemma DropSettles(s: State, t: nat)
    requires CanProduce(s, t, Write)
    ensures Settles(s, DropItem(s, t), t)
  {
    hide ProducerFrame;
  }

  lemma CountSettles(s: State, t: nat)
    requires CanProduce(s, t, CountDrop)
    ensures Settles(s, FinishDrop(s, t), t)
  {
    hide ProducerFrame;
  }

  lemma ThreadSettles(s: State, t: nat)
    requires t < |s.threads| && !s.threads[t].call.Idle? && CanProduce(s, t, NextMove(s.threads[t].call))
    ensures Settles(s, DoProduce(s, t, NextMove(s.threads[t].call)), t)
  {
    hide ProducerFrame, Settles, LocateSlot, LockSlot, RollBuffer, RefillBuffer, StoreItem, DropItem, FinishDrop;
    match NextMove(s.threads[t].call) {
      case Locate => LocateSettles(s, t);
      case Lock => LockSettles(s, t);
      case Roll => RollSettles(s, t);
      case Refill => RefillSettles(s, t);
      case Write =>
        if s.slots[s.threads[t].call.slot].buffer.Some? {
          StoreSettles(s, t);
        } else {
          DropSettles(s, t);
        }
      case CountDrop => CountSettles(s, t);
      case _ => OutsideSettles(s, t);
    }
  }

  /** Whatever lets a thread go on advances the session. */
  lemma ThreadAdvances(s: State, t: nat)
    requires t < |s.threads| && !s.threads[t].call.Idle? && CanProduce(s, t, NextMove(s.threads[t].call))
    requires CountersInRange(s) && |s.slots| > 0 && !s.finisher.NotStarted?
    ensures Advances(s, Produce(t, NextMove(s.threads[t].call)))
  {
    hide DoProduce, CanProduce, Rank, Unnumbered, Unstored;
    var move := NextMove(s.threads[t].call);
    var r := DoProduce(s, t, move);
    ThreadSettles(s, t);
    assert ProducerFrame(s, r, t);
    SumUpdate(s.threads, t, r.threads[t], Rank);
    SumUpdate(s.threads, t, r.threads[t], Unnumbered);
    SumUpdate(s.threads, t, r.threads[t], Unstored);
    UnstoredShrinks(s, t, r.threads[t]);
    assert Apply(s, Produce(t, move)) == r;
    assert s.slots[0].dropped + Sum(s.threads, Unstored) < TWO_63;
  }

  lemma UnstoredShrinks(s: State, t: nat, th: Thread)
    requires t < |s.threads| && Rank(th) < Rank(s.threads[t])
    ensures Unstored(th) <= Unstored(s.threads[t])
  {
  }

  /** Every counter has room for the step a thread is about to take. */
  lemma RoomFor(s: State, t: nat)
    requires CountersInRange(s) && t < |s.threads|
    ensures Unnumbered(s.threads[t]) == 1 ==> s.sequence + 1 < TWO_63
    ensures Unstored(s.threads[t]) == 1 ==> forall k :: 0 <= k < |s.slots| ==> s.slots[k].dropped + 1 < TWO_63
  {
    SumNonNegative(s.threads, Unnumbered);
    SumNonNegative(s.threads, Unstored);
    assert s.threads[t] in s.threads;
  }

  /** A thread in the critical section can always go on. */
  lemma HolderAdvances(s: State, t: nat)
    requires Inv(s) && CountersInRange(s) && t < |s.threads| && HoldsLock(s.threads[t].call) && !s.finisher.NotStarted?
    ensures Advances(s, Produce(t, NextMove(s.threads[t].call)))
  {
    hide Advances, Inv, GoodItem, ValidInput, CountersInRange;
    InvThreads(s);
    assert ThreadOk(s, t);
    RoomFor(s, t);
    ThreadAdvances(s, t);
  }

  /** Whoever waits for a slot's mutex, its owner can go on. */
  lemma OwnerAdvances(s: State, k: nat) returns (step: Step)
    requires Inv(s) && CountersInRange(s) && k < |s.slots| && !SlotFree(s, k) && !s.finisher.NotStarted?
    ensures Advances(s, step)
  {
    hide Advances, Inv, CountersInRange;
    InvThreads(s);
    assert LockOk(s, k);
    var t := s.slots[k].lock.value;
    HolderAdvances(s, t);
    step := Produce(t, NextMove(s.threads[t].call));
  }

  lemma InvThreads(s: State)
    requires Inv(s)
    ensures ThreadsOk(s) && CountOk(s) && PhaseOk(s)
  {
  }

  lemma SomeoneInside(s: State) returns (t: nat)
    requires CountOk(s) && s.producers > 0
    ensures t < |s.threads| && !s.threads[t].call.Idle?
  {
    if forall t :: 0 <= t < |s.threads| ==> s.threads[t].call.Idle? {
      SumZero(s.threads, Active);
      assert false;
    }
    t :| 0 <= t < |s.threads| && !s.threads[t].call.Idle?;
  }

  lemma InsideCounted(s: State, t: nat)
    requires CountOk(s) && t < |s.threads| && !s.threads[t].call.Idle?
    ensures s.producers > 0
  {
    SumNonNegative(s.threads, Active);
    assert s.threads[t] in s.threads && Active(s.threads[t]) == 1;
  }

  /** A thread inside a call goes on, or whoever it waits for does. */
  lemma InsideAdvances(s: State, t: nat) returns (step: Step)
    requires Inv(s) && CountersInRange(s) && t < |s.threads| && !s.threads[t].call.Idle? && s.finisher.Stopped?
    ensures Advances(s, step)
  {
    hide Advances, Inv, CountersInRange, GoodItem, ValidInput;
    InvThreads(s);
    var c := s.threads[t].call;
    assert ThreadOk(s, t);
    if c.Located? && !SlotFree(s, c.slot) {
      step := OwnerAdvances(s, c.slot);
    } else if c.Ready? && s.slotsLock != Nobody {
      step := FlushAdvances(s);
    } else {
      RoomFor(s, t);
      InsideCounted(s, t);
      step := Produce(t, NextMove(c));
      ThreadAdvances(s, t);
    }
  }

  // ---- the writer ---------------------------------------------------------------------------------------------

  /** Steps of the writer and of `finish` touch no thread and no counter of theirs. */
  lemma SameInside(s: State, r: State)
    requires r.threads == s.threads && r.sequence == s.sequence && NothingStored(s.slots, r.slots)
    ensures Inside(r) == Inside(s) && (CountersInRange(s) ==> CountersInRange(r))
  {
  }

  /** Handing a buffer over moves it from its slot to the queue. */
  lemma HandOverKeeps(s: State, k: nat)
    requires k < |s.slots|
    ensures Outstanding(HandOver(s, k)) == Outstanding(s)
    ensures |HandOver(s, k).slots| == |s.slots|
  {
    var slot := s.slots[k];
    SumUpdate(s.slots, k, slot.(buffer := None), Held);
  }

  lemma FlushEffect(s: State)
    requires CanWrite(s, FlushSlot)
    ensures var r := FlushOne(s);
      Outstanding(r) == Outstanding(s) && |r.slots| == |s.slots| && r.writer == Flushing(s.writer.next + 1)
  {
    hide Outstanding, HandOver;
    HandOverKeeps(s, s.writer.next);
    SameQueue(HandOver(s, s.writer.next), HandOver(s, s.writer.next).(writer := Flushing(s.writer.next + 1)));
    SameQueue(s, s.(writer := Flushing(s.writer.next + 1)));
  }

  lemma SameQueue(s: State, r: State)
    requires r.slots == s.slots && r.queue.full == s.queue.full
    ensures Outstanding(r) == Outstanding(s)
  {
  }

  lemma FlushSlotAdvances(s: State)
    requires CountersInRange(s) && CanWrite(s, FlushSlot) && !s.finisher.NotStarted?
    ensures Advances(s, Writing(FlushSlot))
  {
    hide CountersInRange, Inside, Outstanding, FlushOne;
    FlushEffect(s);
    SameInside(s, FlushOne(s));
    assert Apply(s, Writing(FlushSlot)) == FlushOne(s);
  }

  /** The writer flushing the slots goes on, or the owner of the slot it waits for does. */
  lemma FlushAdvances(s: State) returns (step: Step)
    requires Inv(s) && CountersInRange(s) && s.writer.Flushing? && !s.finisher.NotStarted?
    ensures Advances(s, step)
  {
    hide Inv, CountersInRange, Inside, Outstanding, ThreadsOk, CountOk, FlushOne;
    InvThreads(s);
    var next := s.writer.next;
    if next < |s.slots| && !SlotFree(s, next) {
      step := OwnerAdvances(s, next);
    } else if next < |s.slots| {
      step := Writing(FlushSlot);
      FlushSlotAdvances(s);
    } else {
      step := Writing(FlushDone);
      var r := Apply(s, step);
      SameInside(s, r);
      SameQueue(s, r);
    }
  }

  /** The step a writer takes after the queue is closed. */
  function WriterStep(w: Writer): WriterMove
    requires !w.Ended? && !w.Flushing?
  {
    match w
    case Polling => Poll
    case Waiting => Wake(false)
    case Holding(_, _) => Decode
    case Sending(_, _, records) => if records == [] then Release else Send(true)
    case WantsSlots => FlushLock
    case Controlling => EndControl
    case _ => ReadFooter
  }

  /** Taking a queued buffer leaves one fewer outstanding. */
  lemma PollAdvances(s: State)
    requires PhaseOk(s) && CountersInRange(s) && s.writer.Polling? && s.finisher.Closed?
    ensures Advances(s, Writing(Poll))
  {
    hide CountersInRange, Inside, AllOutside;
    var r := PollQueue(s);
    SameInside(s, r);
    assert Apply(s, Writing(Poll)) == r;
  }

  lemma DecodeAdvances(s: State)
    requires CountersInRange(s) && CanWrite(s, Decode) && !s.finisher.NotStarted?
    ensures Advances(s, Writing(Decode))
  {
    hide CountersInRange, Inside, Items, Allocations;
    var r := DecodeHeld(s);
    SameInside(s, r);
    var k := s.writer.buffer.origin;
    SumUpdate(s.slots, k, r.slots[k], Held);
    assert Apply(s, Writing(Decode)) == r;
  }

  /** The other steps leave slots and queue alone and bring the writer closer to its end. */
  lemma WriterAdvances(s: State, w: WriterMove)
    requires PhaseOk(s) && CountersInRange(s) && s.finisher.Closed?
    requires CanWrite(s, w) && !w.Obey? && !w.Poll? && !w.Decode? && !w.FlushSlot?
    ensures Advances(s, Writing(w))
  {
    hide CountersInRange, Inside, Outstanding, AllOutside, CollectorShutdown.Emptied;
    var r := DoWrite(s, w);
    SameInside(s, r);
    SameQueue(s, r);
    assert Apply(s, Writing(w)) == r;
  }

  // ---- finish -------------------------------------------------------------------------------------------------

  lemma NoSlotHeld(s: State, k: nat)
    requires ThreadsOk(s) && AllOutside(s) && k < |s.slots|
    ensures SlotFree(s, k)
  {
    assert LockOk(s, k);
  }

  lemma FinishAdvances(s: State, f: FinishMove)
    requires PhaseOk(s) && CountersInRange(s) && CanFinish(s, f) && !f.Stop?
    ensures Advances(s, Finishing(f))
  {
    hide CountersInRange, Inside, Outstanding, HandOver, AllOutside, CollectorShutdown.Emptied;
    var r := DoFinish(s, f);
    SameInside(s, r);
    if f.DrainSlot? { HandOverKeeps(s, s.finisher.next); }
    assert Apply(s, Finishing(f)) == r;
  }

  // ---- the theorems -------------------------------------------------------------------------------------------

  /** Until `finish` has joined the writer, some step of work advances the session. */
  lemma NextStep(s: State) returns (step: Step)
    requires Inv(s) && CountersInRange(s) && !s.finisher.NotStarted? && !s.finisher.Joined?
    ensures Advances(s, step)
  {
    hide Advances, Inv, CountersInRange, ThreadsOk, CountOk, AllOutside, CollectorShutdown.Emptied;
    InvThreads(s);
    match s.finisher {
      case Stopped =>
        if s.producers == 0 {
          step := Finishing(SeeQuiet);
          FinishAdvances(s, SeeQuiet);
        } else {
          var t := SomeoneInside(s);
          step := InsideAdvances(s, t);
        }
      case Quiet =>
        if s.slotsLock == Nobody {
          step := Finishing(DrainLock);
          FinishAdvances(s, DrainLock);
        } else {
          step := FlushAdvances(s);
        }
      case Draining(next) =>
        EmptiedBound(s, next);
        if next < |s.slots| {
          NoSlotHeld(s, next);
          step := Finishing(DrainSlot);
          FinishAdvances(s, DrainSlot);
        } else {
          step := Finishing(DrainDone);
          FinishAdvances(s, DrainDone);
        }
      case AllDrained =>
        step := Finishing(CloseQueue);
        FinishAdvances(s, CloseQueue);
      case Closed =>
        step := ClosedAdvances(s);
    }
  }

  lemma EmptiedBound(s: State, n: nat)
    requires CollectorShutdown.Emptied(s, n)
    ensures n <= |s.slots|
  {
  }

  lemma ClosedAdvances(s: State) returns (step: Step)
    requires Inv(s) && CountersInRange(s) && s.finisher.Closed?
    ensures Advances(s, step)
  {
    hide Advances, Inv, CountersInRange, ThreadsOk, CountOk, AllOutside, CollectorShutdown.Emptied;
    InvThreads(s);
    if s.writer.Ended? {
      step := Finishing(Join);
      FinishAdvances(s, Join);
    } else if s.writer.Flushing? {
      step := FlushAdvances(s);
    } else {
      step := Writing(WriterStep(s.writer));
      if s.writer.Polling? {
        PollAdvances(s);
      } else if s.writer.Holding? {
        HeldOrigin(s);
        DecodeAdvances(s);
      } else {
        WriterAdvances(s, WriterStep(s.writer));
      }
    }
  }

  lemma HeldOrigin(s: State)
    requires Inv(s) && s.writer.Holding?
    ensures s.writer.buffer.origin < |s.slots|
  {
  }

  /** No reachable state between the stop and the join is a dead end: a step of the session's own work is
      possible and leaves less to do. */
  lemma ShutdownNeverStuck(s: State)
    requires Reachable(s) && CountersInRange(s) && !s.finisher.NotStarted? && !s.finisher.Joined?
    ensures exists step :: Advances(s, step)
  {
    hide Advances, Inv, CountersInRange, Reachable;
    ReachableInv(s);
    var step := NextStep(s);
  }

  /** Carries the session from the stop to the join. */
  lemma {:induction false} Finish(s: State) returns (steps: seq<Step>, s': State)
    requires Inv(s) && CountersInRange(s) && !s.finisher.NotStarted?
    ensures Run(s, steps, s') && s'.finisher.Joined? && forall i :: 0 <= i < |steps| ==> Work(steps[i])
    decreases Inside(s), Stage(s.finisher), Undrained(s), Outstanding(s), Position(s.writer), Unhandled(s)
  {
    hide Inv, CountersInRange, Inside, Stage, Undrained, Outstanding, Position, Unhandled, Apply, Enabled, Work;
    if s.finisher.Joined? {
      steps, s' := [], s;
    } else {
      var step := NextStep(s);
      InvStep(s, step);
      var rest;
      rest, s' := Finish(Apply(s, step));
      steps := [step] + rest;
      assert steps[1..] == rest;
    }
  }

  /** Shutdown can be completed from every reachable state after the stop, whatever producers, the writer
      and `finish` were in the middle of, by their own steps alone. */
  lemma ShutdownCompletes(s: State)
    requires Reachable(s) && CountersInRange(s) && !s.finisher.NotStarted?
    ensures exists steps, s' ::
              Run(s, steps, s') && s'.finisher.Joined? && forall i :: 0 <= i < |steps| ==> Work(steps[i])
  {
    hide Inv, CountersInRange, Reachable, Run, Work;
    ReachableInv(s);
    var steps, s' := Finish(s);
  }

  // ---- any schedule after the close ---------------------------------------------------------------------------

  /** Inside a call a thread has no choice of steps. */
  lemma OnlyMove(s: State, t: nat, move: Move)
    requires CanProduce(s, t, move) && !move.Enter? && !move.DestroyTls?
    ensures !s.threads[t].call.Idle? && move == NextMove(s.threads[t].call)
  {
  }

  /** Once the queue is closed every step of work, in whatever order the scheduler picks them, leaves less to
      do: no schedule can put off the end for ever. */
  lemma ClosedStepAdvances(s: State, step: Step)
    requires Reachable(s) && CountersInRange(s) && s.finisher.Closed? && Work(step) && Enabled(s, step)
    ensures Advances(s, step)
  {
    ReachableInv(s);
    InvThreads(s);
    FirstSlot(s);
    hide Advances, Inv, CountersInRange, ThreadsOk, CountOk, AllOutside, CollectorShutdown.Emptied, Reachable, PhaseOk;
    match step {
      case Produce(t, move) =>
        OnlyMove(s, t, move);
        ThreadAdvances(s, t);
      case Writing(w) =>
        match w {
          case Poll => PollAdvances(s);
          case Decode => DecodeAdvances(s);
          case FlushSlot => FlushSlotAdvances(s);
          case _ => WriterAdvances(s, w);
        }
      case Finishing(f) => FinishAdvances(s, f);
    }
  }

  // ---- how much is left after the close -----------------------------------------------------------------------

  /** Work of the writer and of `finish`. */
  predicate Service(step: Step) {
    (step.Writing? && !step.w.Obey?) || step.Finishing?
  }

  predicate FlushCommand(step: Step) {
    step.Writing? && step.w.Obey? && step.w.command.Flush?
  }

  function RecordsIn(b: Buffer): nat { |Allocations(Items(b.data))| }

  /** Steps a queued buffer takes: taken, decoded, sent record by record at worst, released, controls polled. */
  function BufferSteps(b: Buffer): int { RecordsIn(b) + 4 }

  /** Steps the writer takes at most from its position until the queue is empty and the footer is out, apart
      from those of queued buffers. */
  function WriterSteps(w: Writer, slots: nat): nat {
    match w
    case Holding(b, pooled) => RecordsIn(b) + (if pooled then 7 else 9 + slots)
    case Sending(_, pooled, records) => |records| + (if pooled then 6 else 8 + slots)
    case WantsSlots => 7 + slots
    case Flushing(next) => 6 + (if next < slots then slots - next else 0)
    case Controlling => 5
    case Waiting => 5
    case Polling => 4
    case ReadingFooter => 3
    case ReadProduced(_) => 2
    case ReadDropped(_, _) => 1
    case Ended(_) => 0
  }

  /** Steps of the writer and of `finish` that are left once the queue is closed. */
  ghost function StepsLeft(s: State): nat {
    SumNonNegative(s.queue.full, BufferSteps);
    Sum(s.queue.full, BufferSteps) + WriterSteps(s.writer, |s.slots|) + (if s.finisher.Joined? then 0 else 1)
  }

  lemma TakeBuffer(full: seq<Buffer>)
    requires full != []
    ensures Sum(full, BufferSteps) == RecordsIn(full[0]) + 4 + Sum(full[1..], BufferSteps)
  {
    hide RecordsIn;
  }

  lemma PollShortens(s: State)
    requires CanWrite(s, Poll) && s.queue.closing
    ensures StepsLeft(PollQueue(s)) < StepsLeft(s)
  {
    hide WriterFrame, RecordsIn, Sum;
    if s.queue.full != [] { TakeBuffer(s.queue.full); }
  }

  lemma DecodeShortens(s: State)
    requires CanWrite(s, Decode)
    ensures StepsLeft(DecodeHeld(s)) < StepsLeft(s)
  {
    hide WriterFrame, Items, Allocations, Sum;
  }

  lemma SendShortens(s: State, arrives: bool)
    requires CanWrite(s, Send(arrives))
    ensures StepsLeft(SendChunk(s, arrives)) < StepsLeft(s)
  {
    hide WriterFrame, RecordsIn, Sum;
  }

  /** With every slot drained a flush finds nothing to hand over. */
  lemma FlushShortens(s: State)
    requires CanWrite(s, FlushSlot) && s.slots[s.writer.next].buffer.None?
    ensures StepsLeft(FlushOne(s)) < StepsLeft(s)
  {
    hide WriterFrame, RecordsIn, Sum;
  }

  lemma ReleaseShortens(s: State)
    requires CanWrite(s, Release)
    ensures StepsLeft(ReleaseHeld(s)) < StepsLeft(s)
  {
    hide WriterFrame, RecordsIn, Sum;
  }

  lemma FooterShortens(s: State)
    requires CanWrite(s, ReadFooter)
    ensures StepsLeft(LoadFooter(s)) < StepsLeft(s)
  {
    hide WriterFrame, RecordsIn, Sum;
  }

  lemma PlainShortens(s: State, w: WriterMove)
    requires CanWrite(s, w) && s.queue.closing
    requires w.Wake? || w.FlushLock? || w.FlushDone? || w.EndControl?
    ensures StepsLeft(DoWrite(s, w)) < StepsLeft(s)
  {
    hide WriterFrame, RecordsIn, Sum, PollQueue, DecodeHeld, SendChunk, FlushOne, ReleaseHeld, LoadFooter;
  }

  lemma WriterShortens(s: State, w: WriterMove)
    requires PhaseOk(s) && CanWrite(s, w) && s.queue.closing && !w.Obey?
    ensures StepsLeft(DoWrite(s, w)) < StepsLeft(s)
  {
    hide StepsLeft, PollQueue, DecodeHeld, SendChunk, FlushOne, ReleaseHeld, LoadFooter, AllOutside, WriterFrame;
    match w {
      case Poll => PollShortens(s);
      case Decode => DecodeShortens(s);
      case Send(arrives) => SendShortens(s, arrives);
      case FlushSlot => FlushShortens(s);
      case Release => ReleaseShortens(s);
      case ReadFooter => FooterShortens(s);
      case _ => PlainShortens(s, w);
    }
  }

  /** Steps that serve nothing leave the rest as it is, whether threads come, call or go. */
  lemma OthersKeep(s: State, step: Step)
    requires PhaseOk(s) && s.queue.closing && Enabled(s, step) && !Service(step) && !FlushCommand(step)
    ensures StepsLeft(Apply(s, step)) == StepsLeft(s)
  {
    hide StepsLeft, DoProduce, PollQueue, DecodeHeld, SendChunk, FlushOne, ReleaseHeld, LoadFooter, WriterFrame;
    match step {
      case Produce(t, move) => OutsideStep(s, t, move);
      case _ =>
    }
    SameLeft(s, Apply(s, step));
  }

  lemma SameLeft(s: State, r: State)
    requires r.queue == s.queue && r.writer == s.writer && r.slots == s.slots && r.finisher == s.finisher
    ensures StepsLeft(r) == StepsLeft(s)
  {
  }

  lemma ServiceShortens(s: State, step: Step)
    requires PhaseOk(s) && s.queue.closing && Enabled(s, step) && Service(step)
    ensures StepsLeft(Apply(s, step)) < StepsLeft(s)
  {
    hide DoWrite, AllOutside, PhaseOk;
    match step {
      case Writing(w) => WriterShortens(s, w);
      case Finishing(f) => JoinShortens(s, f);
    }
  }

  lemma JoinShortens(s: State, f: FinishMove)
    requires PhaseOk(s) && s.queue.closing && CanFinish(s, f)
    ensures StepsLeft(DoFinish(s, f)) < StepsLeft(s)
  {
    hide Sum, RecordsIn, AllOutside, CollectorShutdown.Emptied;
  }

  function Services(steps: seq<Step>): nat {
    if steps == [] then 0 else (if Service(steps[0]) then 1 else 0) + Services(steps[1..])
  }

  lemma StaysClosed(s: State, step: Step)
    requires Enabled(s, step) && s.queue.closing
    ensures Apply(s, step).queue.closing
  {
    hide DoProduce, DoWrite;
  }

  lemma {:induction false} ClosedRunFrom(s: State, steps: seq<Step>, s': State)
    requires Inv(s) && s.queue.closing && Run(s, steps, s')
    requires forall i :: 0 <= i < |steps| ==> !FlushCommand(steps[i])
    ensures Services(steps) + StepsLeft(s') <= StepsLeft(s)
    decreases |steps|
  {
    hide Inv, StepsLeft, Apply, Enabled, PhaseOk, Service;
    if steps != [] {
      InvThreads(s);
      InvStep(s, steps[0]);
      StaysClosed(s, steps[0]);
      if Service(steps[0]) {
        ServiceShortens(s, steps[0]);
      } else {
        OthersKeep(s, steps[0]);
      }
      ClosedRunFrom(Apply(s, steps[0]), steps[1..], s');
    }
  }

  /** After the close, in any run in which no flush is commanded, whatever else the scheduler mixes in, the
      writer and `finish` take at most `StepsLeft` steps; and while `finish` has not joined, one of theirs is
      possible. */
  lemma ClosedRunBounded(s: State, steps: seq<Step>, s': State)
    requires Reachable(s) && s.queue.closing && Run(s, steps, s')
    requires forall i :: 0 <= i < |steps| ==> !FlushCommand(steps[i])
    ensures Services(steps) <= StepsLeft(s)
    ensures s'.finisher.Joined? || exists step :: Service(step) && Enabled(s', step)
  {
    hide Inv, StepsLeft, Run, Services, Reachable;
    ReachableInv(s);
    ClosedRunFrom(s, steps, s');
    InvRun(s, steps, s');
    ClosedRun(s, steps, s');
    if !s'.finisher.Joined? { ServiceEnabled(s'); }
  }

  lemma {:induction false} ClosedRun(s: State, steps: seq<Step>, s': State)
    requires s.queue.closing && Run(s, steps, s')
    ensures s'.queue.closing
    decreases |steps|
  {
    hide Apply, Enabled;
    if steps != [] {
      StaysClosed(s, steps[0]);
      ClosedRun(Apply(s, steps[0]), steps[1..], s');
    }
  }

  lemma ServiceEnabled(s: State)
    requires Inv(s) && s.queue.closing && !s.finisher.Joined?
    ensures exists step :: Service(step) && Enabled(s, step)
  {
    InvThreads(s);
    hide Inv, ThreadsOk, CountOk, AllOutside, CollectorShutdown.Emptied, WriterStep;
    if s.writer.Ended? {
      assert Enabled(s, Finishing(Join));
    } else if s.writer.Flushing? {
      if s.writer.next < |s.slots| {
        NoSlotHeld(s, s.writer.next);
        assert Enabled(s, Writing(FlushSlot));
      } else {
        assert Enabled(s, Writing(FlushDone));
      }
    } else {
      if s.writer.Holding? { HeldOrigin(s); }
      WriterStepEnabled(s);
      assert Enabled(s, Writing(WriterStep(s.writer)));
    }
  }

  lemma WriterStepEnabled(s: State)
    requires PhaseOk(s) && s.finisher.Closed? && !s.writer.Ended? && !s.writer.Flushing?
    requires s.writer.Holding? ==> s.writer.buffer.origin < |s.slots|
    ensures CanWrite(s, WriterStep(s.writer)) && Service(Writing(WriterStep(s.writer)))
  {
    hide AllOutside, CollectorShutdown.Emptied;
  }
}
