/** The stop / quiesce / drain / close / join handshake of `finish`. */
module CollectorShutdown {
  import opened Basics
  import opened TraceRecord
  import opened Collector

  /** `producers` counts exactly the threads inside a call. */
  ghost predicate CountOk(s: State) {
    s.producers == Sum(s.threads, Active)
  }

  /** A thread that has not been let in: outside, not yet checked, or on its way out. */
  predicate Outside(c: Call) {
    c.Idle? || c.Entered? || c.Leaving?
  }

  ghost predicate AllOutside(s: State) {
    forall t :: 0 <= t < |s.threads| ==> Outside(s.threads[t].call)
  }

  predicate SawQuiet(f: Finisher) {
    !f.NotStarted? && !f.Stopped?
  }

  predicate DrainedAll(f: Finisher) {
    f.AllDrained? || f.Closed? || f.Joined?
  }

  predicate WroteAll(w: Writer) {
    w.ReadingFooter? || w.ReadProduced? || w.ReadDropped? || w.Ended?
  }

  /** No slot below `n` holds a buffer. */
  ghost predicate Emptied(s: State, n: nat) {
    n <= |s.slots| && forall k :: 0 <= k < n ==> s.slots[k].buffer.None?
  }

  ghost predicate PhaseOk(s: State) {
    && (s.accepting <==> s.finisher.NotStarted?)
    && (SawQuiet(s.finisher) ==> AllOutside(s))
    && (s.slotsLock == ByWriter <==> s.writer.Flushing?)
    && (s.slotsLock == ByFinisher <==> s.finisher.Draining?)
    && (s.writer.Flushing? ==> s.writer.next <= |s.slots|)
    && (s.finisher.Draining? ==> Emptied(s, s.finisher.next))
    && (DrainedAll(s.finisher) ==> Emptied(s, |s.slots|))
    && (s.queue.closing <==> s.finisher.Closed? || s.finisher.Joined?)
    && (WroteAll(s.writer) ==> s.queue.closing && s.queue.full == [])
    && (s.finisher.Joined? ==> s.writer.Ended?)
  }

  // ---- counting producers -----------------------------------------------------------------------------

  lemma CountUpdate(s: State, s': State, t: nat, th: Thread)
    requires CountOk(s) && t < |s.threads| && s'.threads == s.threads[t := th]
    requires s'.producers - s.producers == Active(th) - Active(s.threads[t])
    ensures CountOk(s')
  {
    SumUpdate(s.threads, t, th, Active);
  }

  lemma KeepsCount(s: State, step: Step)
    requires CountOk(s) && Enabled(s, step)
    ensures CountOk(Apply(s, step))
  {
    hide CountOk, DoProduce, DoWrite, DoFinish, CanProduce, CanWrite, CanFinish;
    var s' := Apply(s, step);
    match step {
      case Spawn => CountSpawn(s, s');
      case Produce(t, move) => CountUpdate(s, s', t, s'.threads[t]);
      case Writing(_) => CountSame(s, s');
      case Finishing(_) => CountSame(s, s');
    }
  }

  lemma CountSpawn(s: State, s': State)
    requires CountOk(s) && s'.threads == s.threads + [Thread(Idle, Fresh)] && s'.producers == s.producers
    ensures CountOk(s')
  {
    SumAppend(s.threads, [Thread(Idle, Fresh)], Active);
  }

  lemma CountSame(s: State, s': State)
    requires CountOk(s) && s'.threads == s.threads && s'.producers == s.producers
    ensures CountOk(s')
  {
  }

  /** A zero count means nobody is inside. */
  lemma NobodyInside(s: State)
    requires CountOk(s) && s.producers == 0
    ensures AllOutside(s)
  {
    SumNonNegative(s.threads, Active);
    forall t | 0 <= t < |s.threads| ensures Outside(s.threads[t].call) {
      assert s.threads[t] in s.threads;
    }
  }

  // ---- the phases ---------------------------------------------------------------------------------------

  /** A producer step while nobody may be let in: it stays outside and touches no slot or counter. */
  lemma OutsideStep(s: State, t: nat, move: Move)
    requires CanProduce(s, t, move) && Outside(s.threads[t].call) && !s.accepting
    ensures var r := DoProduce(s, t, move);
      r == s.(threads := r.threads, producers := r.producers) && Outside(r.threads[t].call)
  {
    hide LocateSlot, LockSlot, RollBuffer, RefillBuffer, StoreItem, DropItem, FinishDrop,
      TakeNumber, CheckPause, CountPause;
  }

  lemma ProduceKeepsPhase(s: State, t: nat, move: Move)
    requires PhaseOk(s) && CanProduce(s, t, move)
    ensures PhaseOk(DoProduce(s, t, move))
  {
    hide DoProduce;
    if SawQuiet(s.finisher) {
      OutsideStep(s, t, move);
    }
  }

  /** The writer moves on without giving up what the phases rely on. */
  lemma PhaseMoves(s: State, s': State)
    requires PhaseOk(s) && s'.threads == s.threads && s'.accepting == s.accepting && s'.finisher == s.finisher
    requires |s'.slots| == |s.slots| && s'.queue.closing == s.queue.closing
    requires forall k :: 0 <= k < |s.slots| && s.slots[k].buffer.None? ==> s'.slots[k].buffer.None?
    requires s'.slotsLock == ByWriter <==> s'.writer.Flushing?
    requires s'.slotsLock == ByFinisher <==> s.slotsLock == ByFinisher
    requires s'.writer.Flushing? ==> s'.writer.next <= |s'.slots|
    requires WroteAll(s'.writer) ==> s'.queue.closing && s'.queue.full == []
    requires s.writer.Ended? ==> s'.writer.Ended?
    ensures PhaseOk(s')
  {
  }

  lemma PollKeepsPhase(s: State)
    requires PhaseOk(s) && CanWrite(s, Poll)
    ensures PhaseOk(PollQueue(s))
  {
    hide Items, Allocations, WriterFrame, AllOutside, Emptied;
    PhaseMoves(s, PollQueue(s));
  }

  lemma DecodeKeepsPhase(s: State)
    requires PhaseOk(s) && CanWrite(s, Decode)
    ensures PhaseOk(DecodeHeld(s))
  {
    hide Items, Allocations, WriterFrame, AllOutside, Emptied;
    PhaseMoves(s, DecodeHeld(s));
  }

  lemma ReleaseKeepsPhase(s: State)
    requires PhaseOk(s) && CanWrite(s, Release)
    ensures PhaseOk(ReleaseHeld(s))
  {
    hide Items, Allocations, WriterFrame, AllOutside, Emptied;
    PhaseMoves(s, ReleaseHeld(s));
  }

  lemma FooterKeepsPhase(s: State)
    requires PhaseOk(s) && CanWrite(s, ReadFooter)
    ensures PhaseOk(LoadFooter(s))
  {
    hide Items, Allocations, WriterFrame, AllOutside, Emptied;
    PhaseMoves(s, LoadFooter(s));
  }

  lemma FlushKeepsPhase(s: State)
    requires PhaseOk(s) && CanWrite(s, FlushSlot)
    ensures PhaseOk(FlushOne(s))
  {
    hide FlushOne, WriterFrame, AllOutside, Emptied;
    FlushOneEffect(s);
    PhaseMoves(s, FlushOne(s));
  }

  lemma SendKeepsPhase(s: State, arrives: bool)
    requires PhaseOk(s) && CanWrite(s, Send(arrives))
    ensures PhaseOk(SendChunk(s, arrives))
  {
    hide WriterFrame, AllOutside, Emptied;
    PhaseMoves(s, SendChunk(s, arrives));
  }

  lemma WriteKeepsPhase(s: State, w: WriterMove)
    requires PhaseOk(s) && CanWrite(s, w)
    ensures PhaseOk(DoWrite(s, w))
  {
    hide PollQueue, DecodeHeld, ReleaseHeld, LoadFooter, FlushOne, SendChunk, WriterFrame, AllOutside, Emptied;
    match w {
      case Poll => PollKeepsPhase(s);
      case Decode => DecodeKeepsPhase(s);
      case Release => ReleaseKeepsPhase(s);
      case ReadFooter => FooterKeepsPhase(s);
      case FlushSlot => FlushKeepsPhase(s);
      case Send(arrives) => SendKeepsPhase(s, arrives);
      case _ => PhaseMoves(s, DoWrite(s, w));
    }
  }

  lemma FlushOneEffect(s: State)
    requires CanWrite(s, FlushSlot)
    ensures var r := FlushOne(s);
      && r == s.(slots := r.slots, queue := r.queue, writer := Flushing(s.writer.next + 1))
      && |r.slots| == |s.slots| && r.queue.closing == s.queue.closing
      && forall k :: 0 <= k < |s.slots| && s.slots[k].buffer.None? ==> r.slots[k].buffer.None?
  {
  }

  lemma FinishKeepsPhase(s: State, f: FinishMove)
    requires CountOk(s) && PhaseOk(s) && CanFinish(s, f)
    ensures PhaseOk(DoFinish(s, f))
  {
    if f.SeeQuiet? {
      NobodyInside(s);
    }
  }

  lemma KeepsPhase(s: State, step: Step)
    requires CountOk(s) && PhaseOk(s) && Enabled(s, step)
    ensures PhaseOk(Apply(s, step))
  {
    hide DoProduce, DoWrite, DoFinish, CanProduce, CanWrite, CanFinish, CountOk;
    match step {
      case Spawn =>
      case Produce(t, move) => ProduceKeepsPhase(s, t, move);
      case Writing(w) => WriteKeepsPhase(s, w);
      case Finishing(f) => FinishKeepsPhase(s, f);
    }
  }
}
