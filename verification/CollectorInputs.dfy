/** What callers hand in and what becomes of it, told from the order of steps alone. */
module CollectorInputs {
  import opened Basics
  import opened TraceRecord
  import opened BufferQueue
  import opened Collector
  import opened CollectorThreads
  import opened CollectorShutdown
  import opened CollectorAccounting
  import opened CollectorTheorems

  // ---- the ledger: a reading of the steps, without the machine's state ----------------------------------------

  /** A call under way: made, or let in with a number if it has taken one. */
  datatype Wait = Called(input: Input) | LetIn(input: Input, number: u64)

  datatype Admission = Admission(thread: nat, item: Item)

  /** What the steps so far say: whether calls are let in and kept, the numbers given out, the calls under way,
      the calls kept, in order, and the number of allocations turned away while paused. */
  datatype Ledger = Ledger(
    accepting: bool, paused: bool, numbers: nat, waiting: map<nat, Wait>, admitted: seq<Admission>, turnedAway: nat)

  function OpenLedger(): Ledger { Ledger(true, false, 0, map[], [], 0) }

  /** What a call asks to have stored: an event with its first 64 frames, or an allocation with its number. */
  function Wanted(input: Input, number: u64): Item {
    match input
    case EventInput(record, frames) =>
      var kept := if |frames| > 64 then frames[..64] else frames;
      Event(record.(nframes := |kept|), kept)
    case AllocInput(allocation) => Alloc(allocation.(sequence := number))
  }

  function Note(l: Ledger, step: Step): Ledger {
    match step
    case Produce(t, Enter(input)) => l.(waiting := l.waiting[t := Called(input)])
    case Produce(t, CheckAccepting) =>
      if t !in l.waiting then l
      else if l.accepting then l.(waiting := l.waiting[t := LetIn(l.waiting[t].input, 0)])
      else l.(waiting := l.waiting - {t})
    case Produce(t, Number) =>
      if t !in l.waiting || l.numbers + 1 >= TWO_64 then l
      else l.(numbers := l.numbers + 1, waiting := l.waiting[t := LetIn(l.waiting[t].input, l.numbers + 1)])
    case Produce(t, CheckPaused) =>
      if t !in l.waiting || l.waiting[t].Called? then l
      else
        var LetIn(input, number) := l.waiting[t];
        var rest := l.(waiting := l.waiting - {t});
        if l.paused then rest.(turnedAway := l.turnedAway + if input.AllocInput? then 1 else 0)
        else rest.(admitted := l.admitted + [Admission(t, Wanted(input, number))])
    case Writing(Obey(Pause)) => l.(paused := true)
    case Writing(Obey(Resume)) => l.(paused := false)
    case Finishing(Stop) => l.(accepting := false)
    case _ => l
  }

  function Follow(l: Ledger, steps: seq<Step>): Ledger
    decreases |steps|
  {
    if steps == [] then l else Follow(Note(l, steps[0]), steps[1..])
  }

  // ---- the machine follows the ledger -------------------------------------------------------------------------

  function Paused(th: Thread): int { if th.call.Pausing? then 1 else 0 }

  /** A thread that has not been told yet whether its input is kept waits with that input. */
  predicate WaitOk(call: Call, waiting: map<nat, Wait>, t: nat) {
    match call
    case Entered(input) => t in waiting && waiting[t] == Called(input)
    case Accepted(input) => t in waiting && waiting[t].LetIn? && waiting[t].input == input
    case Numbered(a) =>
      && t in waiting && waiting[t].LetIn? && waiting[t].input.AllocInput?
      && a == waiting[t].input.allocation.(sequence := waiting[t].number)
    case _ => true
  }

  ghost predicate Agrees(s: State, l: Ledger) {
    && s.accepting == l.accepting && s.paused == l.paused && s.sequence == l.numbers
    && s.allocPaused + Sum(s.threads, Paused) == l.turnedAway
    && forall t :: 0 <= t < |s.threads| ==> WaitOk(s.threads[t].call, l.waiting, t)
  }

  /** What one step of thread `t` changes of this. */
  ghost predicate StepAgrees(s: State, r: State, l: Ledger, m: Ledger, t: nat) {
    && t < |s.threads| && t < |r.threads|
    && r.sequence - s.sequence == m.numbers - l.numbers
    && r.allocPaused + Paused(r.threads[t]) - s.allocPaused - Paused(s.threads[t]) == m.turnedAway - l.turnedAway
    && WaitOk(r.threads[t].call, m.waiting, t) && m.accepting == l.accepting && m.paused == l.paused
    && forall u :: u != t ==> (u in m.waiting <==> u in l.waiting) && (u in m.waiting ==> m.waiting[u] == l.waiting[u])
  }

  lemma AgreesAfter(s: State, r: State, l: Ledger, m: Ledger, t: nat)
    requires Agrees(s, l) && ProducerFrame(s, r, t) && StepAgrees(s, r, l, m, t)
    ensures Agrees(r, m)
  {
    SumUpdate(s.threads, t, r.threads[t], Paused);
    forall u | 0 <= u < |r.threads| ensures WaitOk(r.threads[u].call, m.waiting, u) {
      if u != t { assert WaitOk(s.threads[u].call, l.waiting, u); }
    }
  }

  /** The steps by which a call gets in. */
  lemma EntryAgrees(s: State, t: nat, move: Move, l: Ledger)
    requires Agrees(s, l) && CanProduce(s, t, move)
    requires move.Enter? || move.CheckAccepting? || move.Number? || move.CheckPaused?
    ensures StepAgrees(s, DoProduce(s, t, move), l, Note(l, Produce(t, move)), t)
  {
    hide ProducerFrame, LocateSlot, LockSlot, RollBuffer, RefillBuffer, StoreItem, DropItem, FinishDrop, Sum, StoredEvent, Wanted;
    assert WaitOk(s.threads[t].call, l.waiting, t);
  }

  /** The steps that touch no slot and no waiting call. */
  lemma ExitAgrees(s: State, t: nat, move: Move, l: Ledger)
    requires Agrees(s, l) && CanProduce(s, t, move) && (move.DestroyTls? || move.CountPaused? || move.Leave?)
    ensures StepAgrees(s, DoProduce(s, t, move), l, Note(l, Produce(t, move)), t)
  {
    hide ProducerFrame, LocateSlot, LockSlot, RollBuffer, RefillBuffer, StoreItem, DropItem, FinishDrop, Sum;
  }

  /** The steps that store or drop. */
  predicate SlotMove(move: Move) {
    move.Locate? || move.Lock? || move.Roll? || move.Refill? || move.Write? || move.CountDrop?
  }

  lemma SlotAgrees(s: State, t: nat, move: Move, l: Ledger)
    requires Agrees(s, l) && CanProduce(s, t, move) && SlotMove(move)
    ensures StepAgrees(s, DoProduce(s, t, move), l, Note(l, Produce(t, move)), t)
  {
    SlotCounters(s, t, move);
    hide DoProduce, CanProduce, Sum;
  }

  /** Inside a slot no number is given out and no call is turned away or let in. */
  lemma SlotCounters(s: State, t: nat, move: Move)
    requires CanProduce(s, t, move) && SlotMove(move)
    ensures var r := DoProduce(s, t, move);
      && t < |r.threads| && r.sequence == s.sequence && r.allocPaused == s.allocPaused
      && Paused(r.threads[t]) == 0 == Paused(s.threads[t])
      && !r.threads[t].call.Entered? && !r.threads[t].call.Accepted? && !r.threads[t].call.Numbered?
  {
    hide RollBuffer, RefillBuffer, StoreItem, DropItem, ProducerFrame;
    match move {
      case Roll => RollIs(s, t);
      case Refill => RefillCounters(s, t);
      case Write =>
        if s.slots[s.threads[t].call.slot].buffer.Some? {
          StoreCounters(s, t);
        } else {
          DropCounters(s, t);
        }
      case _ =>
    }
  }

  lemma RefillCounters(s: State, t: nat)
    requires CanProduce(s, t, Refill)
    ensures var r := RefillBuffer(s, t);
      r.sequence == s.sequence && r.allocPaused == s.allocPaused && t < |r.threads| && r.threads[t].call.Filled?
  {
    hide ProducerFrame;
  }

  lemma StoreCounters(s: State, t: nat)
    requires CanProduce(s, t, Write) && s.slots[s.threads[t].call.slot].buffer.Some?
    ensures var r := StoreItem(s, t);
      r.sequence == s.sequence && r.allocPaused == s.allocPaused && t < |r.threads| && r.threads[t].call.Leaving?
  {
    hide ProducerFrame, Stored, EncodeAll;
  }

  lemma DropCounters(s: State, t: nat)
    requires CanProduce(s, t, Write)
    ensures var r := DropItem(s, t);
      && r.sequence == s.sequence && r.allocPaused == s.allocPaused && t < |r.threads|
      && (r.threads[t].call.Leaving? || r.threads[t].call.HalfDropped?)
  {
    hide ProducerFrame;
  }

  lemma WriterAgrees(s: State, w: WriterMove, l: Ledger)
    requires Agrees(s, l) && CanWrite(s, w)
    ensures Agrees(DoWrite(s, w), Note(l, Writing(w)))
  {
    hide Sum, WaitOk, NothingStored;
    WriterPause(s, w);
    hide DoWrite, CanWrite;
  }

  /** Only the pause and resume commands change whether calls are kept. */
  lemma WriterPause(s: State, w: WriterMove)
    requires CanWrite(s, w)
    ensures DoWrite(s, w).paused == if w == Obey(Pause) then true else if w == Obey(Resume) then false else s.paused
  {
    hide PollQueue, DecodeHeld, SendChunk, FlushOne, ReleaseHeld, LoadFooter;
    match w {
      case Poll => PollPlain(s);
      case Decode => DecodePause(s);
      case Send(arrives) => SendPause(s, arrives);
      case FlushSlot => FlushOneEffect(s);
      case Release => ReleasePause(s);
      case ReadFooter => FooterPause(s);
      case _ =>
    }
    if w.Poll? { PollPause(s); }
  }

  lemma PollPause(s: State)
    requires CanWrite(s, Poll)
    ensures PollQueue(s).paused == s.paused
  {
  }

  lemma DecodePause(s: State)
    requires CanWrite(s, Decode)
    ensures DecodeHeld(s).paused == s.paused
  {
    hide Items, Allocations;
  }

  lemma SendPause(s: State, arrives: bool)
    requires CanWrite(s, Send(arrives))
    ensures SendChunk(s, arrives).paused == s.paused
  {
  }

  lemma ReleasePause(s: State)
    requires CanWrite(s, Release)
    ensures ReleaseHeld(s).paused == s.paused
  {
  }

  lemma FooterPause(s: State)
    requires CanWrite(s, ReadFooter)
    ensures LoadFooter(s).paused == s.paused
  {
  }

  lemma FinishAgrees(s: State, f: FinishMove, l: Ledger)
    requires Agrees(s, l) && CanFinish(s, f)
    ensures Agrees(DoFinish(s, f), Note(l, Finishing(f)))
  {
    hide Sum, WaitOk, NothingStored;
  }

  lemma SpawnAgrees(s: State, l: Ledger)
    requires Agrees(s, l)
    ensures Agrees(Apply(s, Spawn), l)
  {
    SumAppend(s.threads, [Thread(Idle, Fresh)], Paused);
    SumOne(Thread(Idle, Fresh), Paused);
  }

  lemma StepKeepsAgreement(s: State, step: Step, l: Ledger)
    requires Agrees(s, l) && Enabled(s, step)
    ensures Agrees(Apply(s, step), Note(l, step))
  {
    hide Agrees, DoProduce, DoWrite, DoFinish, CanProduce, CanWrite, CanFinish, StepAgrees;
    match step {
      case Spawn => SpawnAgrees(s, l);
      case Produce(t, move) => ProduceAgrees(s, t, move, l);
      case Writing(w) => WriterAgrees(s, w, l);
      case Finishing(f) => FinishAgrees(s, f, l);
    }
  }

  lemma ProduceAgrees(s: State, t: nat, move: Move, l: Ledger)
    requires Agrees(s, l) && CanProduce(s, t, move)
    ensures Agrees(DoProduce(s, t, move), Note(l, Produce(t, move)))
  {
    hide Agrees, DoProduce, CanProduce, StepAgrees, Note;
    match move {
      case Enter(_) => EntryAgrees(s, t, move, l);
      case CheckAccepting => EntryAgrees(s, t, move, l);
      case Number => EntryAgrees(s, t, move, l);
      case CheckPaused => EntryAgrees(s, t, move, l);
      case DestroyTls => ExitAgrees(s, t, move, l);
      case CountPaused => ExitAgrees(s, t, move, l);
      case Leave => ExitAgrees(s, t, move, l);
      case _ => SlotAgrees(s, t, move, l);
    }
    AgreesAfter(s, DoProduce(s, t, move), l, Note(l, Produce(t, move)), t);
  }

  // ---- where the kept inputs are ------------------------------------------------------------------------------

  predicate IsLoss(i: Item) { i.Event? && i.record.kind == KIND_LOSS }

  /** The stored items that callers handed in, without Loss rows. */
  function Proper(items: seq<Item>): seq<Item> {
    if items == [] then []
    else
      var last := items[|items| - 1];
      Proper(items[..|items| - 1]) + if IsLoss(last) then [] else [last]
  }

  /** The item a thread has been told to keep and has not yet stored or dropped. */
  function CarriedBy(th: Thread): seq<Item> { if HasItem(th.call) then [th.call.item] else [] }

  ghost function AllCarried(threads: seq<Thread>): multiset<Item> {
    if threads == [] then multiset{} else multiset(CarriedBy(threads[0])) + AllCarried(threads[1..])
  }

  ghost function AllKept(slots: seq<Slot>): multiset<Item> {
    if slots == [] then multiset{} else multiset(Proper(slots[0].appended)) + AllKept(slots[1..])
  }

  function ItemsOf(admitted: seq<Admission>): seq<Item> {
    if admitted == [] then [] else ItemsOf(admitted[..|admitted| - 1]) + [admitted[|admitted| - 1].item]
  }

  /** The inputs kept are, each once, stored in a slot, carried by a thread, or dropped and counted. */
  ghost predicate Accounted(s: State, l: Ledger, lost: seq<Item>) {
    && multiset(ItemsOf(l.admitted)) == AllKept(s.slots) + AllCarried(s.threads) + multiset(lost)
    && |Allocations(lost)| == s.allocDropped
    && |lost| - |Allocations(lost)| == s.totalDropped + Sum(s.threads, HalfCounted)
  }

  lemma Cancel<T>(a: multiset<T>, b: multiset<T>, c: multiset<T>)
    requires a + c == b + c
    ensures a == b
  {
    forall x ensures a[x] == b[x] {
      assert (a + c)[x] == (b + c)[x];
    }
  }

  lemma Exchange<T>(c: multiset<T>, a: multiset<T>, p: multiset<T>, b: multiset<T>, q: multiset<T>)
    requires a + p == b + q
    ensures c + a + p == c + b + q
  {
    assert c + a + p == c + (a + p) && c + b + q == c + (b + q);
  }

  lemma {:induction false} CarriedUpdate(threads: seq<Thread>, t: nat, th: Thread)
    requires t < |threads|
    ensures AllCarried(threads[t := th]) + multiset(CarriedBy(threads[t])) == AllCarried(threads) + multiset(CarriedBy(th))
  {
    hide CarriedBy;
    if t == 0 {
      assert threads[t := th][1..] == threads[1..];
    } else {
      assert threads[t := th][1..] == threads[1..][t - 1 := th];
      CarriedUpdate(threads[1..], t - 1, th);
      Exchange(multiset(CarriedBy(threads[0])), AllCarried(threads[1..][t - 1 := th]), multiset(CarriedBy(threads[t])),
               AllCarried(threads[1..]), multiset(CarriedBy(th)));
    }
  }

  lemma {:induction false} CarriedSnoc(threads: seq<Thread>, th: Thread)
    requires CarriedBy(th) == []
    ensures AllCarried(threads + [th]) == AllCarried(threads)
  {
    hide CarriedBy;
    if threads == [] {
      assert [] + [th] == [th] && [th][1..] == [];
    } else {
      assert (threads + [th])[1..] == threads[1..] + [th];
      CarriedSnoc(threads[1..], th);
    }
  }

  lemma {:induction false} KeptUpdate(slots: seq<Slot>, k: nat, slot: Slot)
    requires k < |slots|
    ensures AllKept(slots[k := slot]) + multiset(Proper(slots[k].appended)) == AllKept(slots) + multiset(Proper(slot.appended))
  {
    hide Proper;
    if k == 0 {
      assert slots[k := slot][1..] == slots[1..];
    } else {
      assert slots[k := slot][1..] == slots[1..][k - 1 := slot];
      KeptUpdate(slots[1..], k - 1, slot);
      Exchange(multiset(Proper(slots[0].appended)), AllKept(slots[1..][k - 1 := slot]), multiset(Proper(slots[k].appended)),
               AllKept(slots[1..]), multiset(Proper(slot.appended)));
    }
  }

  /** The stored items depend on what was appended alone; a new slot has none. */
  lemma {:induction false} KeptSame(a: seq<Slot>, b: seq<Slot>)
    requires |a| <= |b|
    requires forall k :: 0 <= k < |b| ==> b[k].appended == if k < |a| then a[k].appended else []
    ensures AllKept(b) == AllKept(a)
  {
    hide Proper;
    if b != [] {
      NothingProper();
      if a == [] {
        KeptSame(a, b[1..]);
      } else {
        KeptSame(a[1..], b[1..]);
      }
    }
  }

  lemma NothingProper()
    ensures Proper([]) == []
  {
  }

  lemma ProperSnoc(items: seq<Item>, i: Item)
    ensures Proper(items + [i]) == Proper(items) + if IsLoss(i) then [] else [i]
  {
    assert (items + [i])[..|items|] == items;
  }

  /** A producer step that neither keeps, stores nor drops an input. */
  ghost predicate Quiet(s: State, r: State, t: nat) {
    && t < |s.threads| && t < |r.threads| && CarriedBy(r.threads[t]) == CarriedBy(s.threads[t])
    && r.allocDropped == s.allocDropped
    && r.totalDropped + HalfCounted(r.threads[t]) == s.totalDropped + HalfCounted(s.threads[t])
    && |s.slots| <= |r.slots|
    && forall k :: 0 <= k < |r.slots| ==> r.slots[k].appended == if k < |s.slots| then s.slots[k].appended else []
  }

  lemma QuietKeeps(s: State, r: State, t: nat, l: Ledger, m: Ledger, lost: seq<Item>)
    requires Accounted(s, l, lost) && ProducerFrame(s, r, t) && Quiet(s, r, t) && m.admitted == l.admitted
    ensures Accounted(r, m, lost)
  {
    hide Proper, Allocations, ItemsOf, AllKept, AllCarried, CarriedBy, Sum;
    KeptSame(s.slots, r.slots);
    CarriedUpdate(s.threads, t, r.threads[t]);
    Cancel(AllCarried(r.threads), AllCarried(s.threads), multiset(CarriedBy(s.threads[t])));
    SumUpdate(s.threads, t, r.threads[t], HalfCounted);
  }

  lemma OutsideQuiet(s: State, t: nat, move: Move)
    requires CanProduce(s, t, move) && OutsideSlots(move) && !move.CheckPaused?
    ensures Quiet(s, DoProduce(s, t, move), t)
  {
    hide ProducerFrame, LocateSlot, LockSlot, RollBuffer, RefillBuffer, StoreItem, DropItem, FinishDrop, CheckPause;
    var r := DoProduce(s, t, move);
    assert r.slots == s.slots;
  }

  lemma LocateQuiet(s: State, t: nat)
    requires CanProduce(s, t, Locate)
    ensures Quiet(s, LocateSlot(s, t), t)
  {
    hide ProducerFrame;
  }

  lemma LockQuiet(s: State, t: nat)
    requires CanProduce(s, t, Lock)
    ensures Quiet(s, LockSlot(s, t), t)
  {
    hide ProducerFrame;
  }

  lemma RollQuiet(s: State, t: nat)
    requires CanProduce(s, t, Roll)
    ensures Quiet(s, RollBuffer(s, t), t)
  {
    hide RollBuffer, Buffer.HasRoom, Needed;
    RollIs(s, t);
  }

  lemma RefillQuiet(s: State, t: nat)
    requires CanProduce(s, t, Refill)
    ensures Quiet(s, RefillBuffer(s, t), t)
  {
    hide ProducerFrame;
  }

  lemma CountDropQuiet(s: State, t: nat)
    requires CanProduce(s, t, CountDrop)
    ensures Quiet(s, FinishDrop(s, t), t)
  {
    hide ProducerFrame;
  }

  /** Being told to go on turns the input into the item the ledger notes, or into nothing while paused. */
  lemma PauseAccounts(s: State, t: nat, l: Ledger, lost: seq<Item>)
    requires Agrees(s, l) && Accounted(s, l, lost) && CanProduce(s, t, CheckPaused)
    ensures Accounted(CheckPause(s, t), Note(l, Produce(t, CheckPaused)), lost)
  {
    hide Allocations, AllKept, AllCarried, Sum, ItemsOf, Agrees, CheckPause, Note;
    var r, m := CheckPause(s, t), Note(l, Produce(t, CheckPaused));
    PauseIs(s, t, l);
    CarriedUpdate(s.threads, t, r.threads[t]);
    SumUpdate(s.threads, t, r.threads[t], HalfCounted);
    assert AllCarried(r.threads) + multiset{} == AllCarried(r.threads);
    assert AllCarried(s.threads) + multiset{} == AllCarried(s.threads);
    if !s.paused {
      var x := m.admitted[|l.admitted|];
      ItemsSnoc(l.admitted, x);
      assert multiset(ItemsOf(l.admitted) + [x.item]) == multiset(ItemsOf(l.admitted)) + multiset([x.item]);
    }
  }

  /** What the thread then carries is what the ledger notes as kept. */
  lemma PauseIs(s: State, t: nat, l: Ledger)
    requires Agrees(s, l) && CanProduce(s, t, CheckPaused)
    ensures var r, m := CheckPause(s, t), Note(l, Produce(t, CheckPaused));
      && t < |r.threads| && CarriedBy(s.threads[t]) == []
      && r == s.(threads := s.threads[t := r.threads[t]])
      && HalfCounted(r.threads[t]) == 0 == HalfCounted(s.threads[t])
      && if s.paused then CarriedBy(r.threads[t]) == [] && m.admitted == l.admitted
         else |CarriedBy(r.threads[t])| == 1 && m.admitted == l.admitted + [Admission(t, CarriedBy(r.threads[t])[0])]
  {
    hide ProducerFrame, Sum;
    assert WaitOk(s.threads[t].call, l.waiting, t);
    if s.threads[t].call.Accepted? {
      var EventInput(record, frames) := s.threads[t].call.input;
      KeepsFrames(record, frames);
    }
  }

  lemma KeepsFrames(record: EventRecord, frames: seq<u64>)
    ensures StoredEvent(record, frames) == Wanted(EventInput(record, frames), 0)
  {
    if |frames| <= 64 { assert frames[..|frames|] == frames; }
  }

  lemma ItemsSnoc(admitted: seq<Admission>, x: Admission)
    ensures ItemsOf(admitted + [x]) == ItemsOf(admitted) + [x.item]
  {
    assert (admitted + [x])[..|admitted|] == admitted;
  }

  lemma StoreAccounts(s: State, t: nat, l: Ledger, lost: seq<Item>)
    requires ThreadsOk(s) && Accounted(s, l, lost) && CanProduce(s, t, Write) && s.slots[s.threads[t].call.slot].buffer.Some?
    ensures Accounted(StoreItem(s, t), l, lost)
  {
    hide Allocations, AllKept, AllCarried, Sum, ItemsOf, Proper, ThreadsOk;
    ThreadAndSlotOk(s, t);
    var Filled(item, k) := s.threads[t].call;
    var r := StoreItem(s, t);
    StoreIs(s, t);
    StoredProper(s.slots[k], item);
    CarriedUpdate(s.threads, t, r.threads[t]);
    KeptUpdate(s.slots, k, r.slots[k]);
    SumUpdate(s.threads, t, r.threads[t], HalfCounted);
    Moved(AllCarried(s.threads), AllCarried(r.threads), item);
    var before, one := multiset(Proper(s.slots[k].appended)), multiset([item]);
    assert multiset(Proper(s.slots[k].appended) + [item]) == before + one;
    assert AllKept(s.slots) + (before + one) == (AllKept(s.slots) + one) + before;
    Cancel(AllKept(r.slots), AllKept(s.slots) + one, before);
  }

  lemma Moved(before: multiset<Item>, after: multiset<Item>, item: Item)
    requires after + multiset([item]) == before + multiset([])
    ensures before == after + multiset([item])
  {
  }

  lemma StoreIs(s: State, t: nat)
    requires CanProduce(s, t, Write) && s.slots[s.threads[t].call.slot].buffer.Some?
    ensures var Filled(item, k) := s.threads[t].call;
      var r := StoreItem(s, t);
      && r.threads == s.threads[t := s.threads[t].(call := Leaving)] && |r.slots| == |s.slots|
      && r.slots == s.slots[k := r.slots[k]] && r.slots[k].appended == s.slots[k].appended + Stored(s.slots[k], item)
      && r.allocDropped == s.allocDropped && r.totalDropped == s.totalDropped
  {
    hide ProducerFrame, Stored, EncodeAll;
  }

  /** Of what is stored only the item itself is a caller's. */
  lemma StoredProper(slot: Slot, item: Item)
    requires GoodItem(item) && slot.dropped < TWO_63
    ensures Proper(slot.appended + Stored(slot, item)) == Proper(slot.appended) + [item]
  {
    hide Proper;
    if item.Event? && slot.dropped != 0 {
      var loss := LossRow(item.record, slot.dropped);
      assert slot.appended + [loss, item] == slot.appended + [loss] + [item];
      ProperSnoc(slot.appended, loss);
      ProperSnoc(slot.appended + [loss], item);
      assert Proper(slot.appended) + [] == Proper(slot.appended);
    } else {
      ProperSnoc(slot.appended, item);
    }
  }

  lemma DropAccounts(s: State, t: nat, l: Ledger, lost: seq<Item>)
    requires Accounted(s, l, lost) && CanProduce(s, t, Write)
    ensures Accounted(DropItem(s, t), l, lost + [s.threads[t].call.item])
  {
    hide Allocations, AllKept, AllCarried, Sum, ItemsOf, Proper;
    var Filled(item, k) := s.threads[t].call;
    var r := DropItem(s, t);
    DropIs(s, t);
    CarriedUpdate(s.threads, t, r.threads[t]);
    SumUpdate(s.threads, t, r.threads[t], HalfCounted);
    KeptSame(s.slots, r.slots);
    AllocationsAppend(lost, [item]);
    PartsOfOne(item);
    Moved(AllCarried(s.threads), AllCarried(r.threads), item);
    assert multiset(lost + [item]) == multiset(lost) + multiset([item]);
  }

  lemma DropIs(s: State, t: nat)
    requires CanProduce(s, t, Write)
    ensures var Filled(item, k) := s.threads[t].call;
      var r := DropItem(s, t);
      && r.threads == s.threads[t := s.threads[t].(call := if item.Event? then HalfDropped(k) else Leaving)]
      && |r.slots| == |s.slots| && (forall j :: 0 <= j < |s.slots| ==> r.slots[j].appended == s.slots[j].appended)
      && r.totalDropped == s.totalDropped && r.allocDropped == s.allocDropped + if item.Event? then 0 else 1
  {
    hide ProducerFrame;
  }

  /** Nothing but a producer moves an input. */
  lemma OthersAccount(s: State, r: State, l: Ledger, m: Ledger, lost: seq<Item>)
    requires Accounted(s, l, lost) && r.threads == s.threads && NothingStored(s.slots, r.slots) && m.admitted == l.admitted
    requires r.allocDropped == s.allocDropped && r.totalDropped == s.totalDropped
    ensures Accounted(r, m, lost)
  {
    hide Proper, Allocations, ItemsOf, AllCarried;
    KeptSame(s.slots, r.slots);
  }

  lemma ProduceAccounts(s: State, t: nat, move: Move, l: Ledger, lost: seq<Item>) returns (after: seq<Item>)
    requires ThreadsOk(s) && Agrees(s, l) && Accounted(s, l, lost) && CanProduce(s, t, move)
    ensures Accounted(DoProduce(s, t, move), Note(l, Produce(t, move)), after)
  {
    hide ThreadsOk, Agrees, Accounted, Quiet, LocateSlot, LockSlot, RollBuffer, RefillBuffer, StoreItem, DropItem, FinishDrop,
      CheckPause, ProducerFrame;
    after := lost;
    var r, m := DoProduce(s, t, move), Note(l, Produce(t, move));
    match move {
      case CheckPaused => PauseAccounts(s, t, l, lost);
      case Write =>
        if s.slots[s.threads[t].call.slot].buffer.Some? {
          StoreAccounts(s, t, l, lost);
        } else {
          DropAccounts(s, t, l, lost);
          after := lost + [s.threads[t].call.item];
        }
      case Locate =>
        LocateQuiet(s, t);
        QuietKeeps(s, r, t, l, m, lost);
      case Lock =>
        LockQuiet(s, t);
        QuietKeeps(s, r, t, l, m, lost);
      case Roll =>
        RollQuiet(s, t);
        QuietKeeps(s, r, t, l, m, lost);
      case Refill =>
        RefillQuiet(s, t);
        QuietKeeps(s, r, t, l, m, lost);
      case CountDrop =>
        CountDropQuiet(s, t);
        QuietKeeps(s, r, t, l, m, lost);
      case _ =>
        OutsideQuiet(s, t, move);
        QuietKeeps(s, r, t, l, m, lost);
    }
  }

  lemma StepAccounts(s: State, step: Step, l: Ledger, lost: seq<Item>) returns (after: seq<Item>)
    requires ThreadsOk(s) && Agrees(s, l) && Accounted(s, l, lost) && Enabled(s, step)
    ensures Accounted(Apply(s, step), Note(l, step), after)
  {
    hide ThreadsOk, Agrees, Accounted, DoProduce, DoWrite, DoFinish, CanProduce, CanWrite, CanFinish;
    after := lost;
    match step {
      case Spawn => SpawnAccounts(s, l, lost);
      case Produce(t, move) => after := ProduceAccounts(s, t, move, l, lost);
      case _ => OthersAccount(s, Apply(s, step), l, Note(l, step), lost);
    }
  }

  lemma SpawnAccounts(s: State, l: Ledger, lost: seq<Item>)
    requires Accounted(s, l, lost)
    ensures Accounted(Apply(s, Spawn), l, lost)
  {
    hide Proper, Allocations, ItemsOf;
    CarriedSnoc(s.threads, Thread(Idle, Fresh));
    SumAppend(s.threads, [Thread(Idle, Fresh)], HalfCounted);
    SumOne(Thread(Idle, Fresh), HalfCounted);
  }

  // ---- over runs ----------------------------------------------------------------------------------------------

  lemma {:induction false} RunAccounts(s: State, steps: seq<Step>, s': State, l: Ledger, lost: seq<Item>)
    returns (after: seq<Item>)
    requires Inv(s) && Agrees(s, l) && Accounted(s, l, lost) && Run(s, steps, s')
    ensures Agrees(s', Follow(l, steps)) && Accounted(s', Follow(l, steps), after)
    decreases |steps|
  {
    hide Inv, Agrees, Accounted, Apply, Enabled, Note, ThreadsOk;
    after := lost;
    if steps != [] {
      InvHasThreads(s);
      InvStep(s, steps[0]);
      StepKeepsAgreement(s, steps[0], l);
      var next := StepAccounts(s, steps[0], l, lost);
      after := RunAccounts(Apply(s, steps[0]), steps[1..], s', Note(l, steps[0]), next);
    }
  }

  lemma InvHasThreads(s: State)
    requires Inv(s)
    ensures ThreadsOk(s)
  {
  }

  lemma LedgerOpens(hasSender: bool)
    ensures Agrees(Initial(hasSender), OpenLedger()) && Accounted(Initial(hasSender), OpenLedger(), [])
  {
    NothingProper();
    assert [NewSlot()][1..] == [];
    PartsOfNone();
  }

  /** In every run the inputs of the calls that were let in while not paused, events cut to 64 frames and
      allocations numbered in order, are each once in a slot, with a thread, or dropped and counted. */
  lemma InputsAccountedFor(hasSender: bool, steps: seq<Step>, s: State)
    requires Run(Initial(hasSender), steps, s)
    ensures exists lost :: Accounted(s, Follow(OpenLedger(), steps), lost)
    ensures s.allocPaused + Sum(s.threads, Paused) == Follow(OpenLedger(), steps).turnedAway
    ensures s.sequence == Follow(OpenLedger(), steps).numbers
  {
    hide Inv, Accounted, Run, Initial, WaitOk, Sum;
    InvInitially(hasSender);
    LedgerOpens(hasSender);
    var lost := RunAccounts(Initial(hasSender), steps, s, OpenLedger(), []);
  }

  lemma {:induction false} NeverPaused(l: Ledger, steps: seq<Step>)
    requires !l.paused && forall i :: 0 <= i < |steps| ==> steps[i] != Writing(Obey(Pause))
    ensures !Follow(l, steps).paused && Follow(l, steps).turnedAway == l.turnedAway
    decreases |steps|
  {
    if steps != [] { NeverPaused(Note(l, steps[0]), steps[1..]); }
  }

  /** A collector that is never paused counts no allocation as paused. */
  lemma UnpausedCountsNone(hasSender: bool, steps: seq<Step>, s: State)
    requires Run(Initial(hasSender), steps, s) && forall i :: 0 <= i < |steps| ==> steps[i] != Writing(Obey(Pause))
    ensures s.allocPaused == 0 && !s.paused
  {
    hide Run, Initial, Inv;
    InvInitially(hasSender);
    LedgerOpens(hasSender);
    var lost := RunAccounts(Initial(hasSender), steps, s, OpenLedger(), []);
    NeverPaused(OpenLedger(), steps);
    SumNonNegative(s.threads, Paused);
  }

  ghost function AllDecoded(slots: seq<Slot>): multiset<Item> {
    if slots == [] then multiset{} else multiset(Proper(slots[0].decoded)) + AllDecoded(slots[1..])
  }

  lemma {:induction false} DecodedAll(slots: seq<Slot>)
    requires forall k :: 0 <= k < |slots| ==> slots[k].decoded == slots[k].appended
    ensures AllDecoded(slots) == AllKept(slots)
  {
    hide Proper;
    if slots != [] { DecodedAll(slots[1..]); }
  }

  /** When the writer has ended and nothing was dropped, it has decoded exactly the inputs of the calls that were
      let in while not paused, each once. */
  lemma LosslessRun(hasSender: bool, steps: seq<Step>, s: State)
    requires Run(Initial(hasSender), steps, s) && s.writer.Ended? && s.allocDropped == 0 && s.totalDropped == 0
    ensures AllDecoded(s.slots) == multiset(ItemsOf(Follow(OpenLedger(), steps).admitted))
  {
    InputsAccountedFor(hasSender, steps, s);
    var lost :| Accounted(s, Follow(OpenLedger(), steps), lost);
    assert Reachable(s);
    ExactlyOnce(s);
    EndedOutside(s);
    NothingInFlight(s);
    DecodedAll(s.slots);
    NobodyCarries(s.threads);
    assert lost == [];
  }

  /** The footer told from the steps: the numbers given out, the allocations turned away while paused, and the
      allocations among the inputs that were dropped. */
  lemma FooterTellsInputs(hasSender: bool, steps: seq<Step>, s: State)
    requires Run(Initial(hasSender), steps, s) && s.hasSender && s.writer.Ended?
    ensures s.writer.footer.Some?
    ensures var f, l := s.writer.footer.value, Follow(OpenLedger(), steps);
      && f.produced == l.numbers && f.paused == l.turnedAway
      && exists lost :: Accounted(s, l, lost) && f.producerDropped == |Allocations(lost)|
  {
    hide Run, Initial, Follow, Allocations, Sum, Reachable, AllKept, AllCarried;
    InputsAccountedFor(hasSender, steps, s);
    assert Reachable(s) by { IsReachable(hasSender, steps, s); }
    AllocationsAccountedFor(s);
    EndedOutside(s);
    SumZero(s.threads, Paused);
  }

  lemma IsReachable(hasSender: bool, steps: seq<Step>, s: State)
    requires Run(Initial(hasSender), steps, s)
    ensures Reachable(s)
  {
  }

  lemma EndedOutside(s: State)
    requires Reachable(s) && s.writer.Ended?
    ensures AllOutside(s)
  {
    ReachableInv(s);
  }

  lemma {:induction false} NobodyCarries(threads: seq<Thread>)
    requires forall t :: 0 <= t < |threads| ==> Outside(threads[t].call)
    ensures AllCarried(threads) == multiset{}
  {
    if threads != [] { NobodyCarries(threads[1..]); }
  }
}
