/** What the writer makes of the buffers it takes: every record sent once, in packets of 512. */
module CollectorSends {
  import opened Basics
  import opened TraceRecord
  import opened Collector
  import opened CollectorTheorems

  /** One buffer the writer has decoded: its slot, its items, and which of its packets arrived so far. */
  datatype Batch = Batch(origin: nat, items: seq<Item>, arrived: seq<bool>) {
    function Records(): seq<Allocation> { Allocations(items) }

    /** Packet `i`: the records from 512 * i up to the next 512. */
    function Packet(i: nat): seq<Allocation> {
      var all := Records();
      all[Min(512 * i, |all|)..Min(512 * i + 512, |all|)]
    }

    /** No packet is empty. */
    predicate NonePastEnd() {
      arrived != [] ==> 512 * (|arrived| - 1) < |Records()|
    }

    predicate AllSent() {
      |Records()| <= 512 * |arrived|
    }

    function Unsent(): seq<Allocation> {
      Records()[Min(512 * |arrived|, |Records()|)..]
    }

    /** The packets that arrived, in order. */
    function Received(): seq<seq<Allocation>>
      decreases |arrived|
    {
      if arrived == [] then []
      else
        var n := |arrived| - 1;
        this.(arrived := arrived[..n]).Received() + if arrived[n] then [Packet(n)] else []
    }

    /** The number of records in the packets that did not. */
    function Missing(): nat
      decreases |arrived|
    {
      if arrived == [] then 0
      else
        var n := |arrived| - 1;
        this.(arrived := arrived[..n]).Missing() + if arrived[n] then 0 else |Packet(n)|
    }
  }

  function ReceivedOf(log: seq<Batch>): seq<seq<Allocation>> {
    if log == [] then [] else ReceivedOf(log[..|log| - 1]) + log[|log| - 1].Received()
  }

  function MissingOf(log: seq<Batch>): nat {
    if log == [] then 0 else MissingOf(log[..|log| - 1]) + log[|log| - 1].Missing()
  }

  function ItemsOfSlot(log: seq<Batch>, k: nat): seq<Item> {
    if log == [] then []
    else
      var last := log[|log| - 1];
      ItemsOfSlot(log[..|log| - 1], k) + if last.origin == k then last.items else []
  }

  /** `log` accounts for all the writer has done: what it decoded, delivered and lost, and what is left of the
      buffer it is sending.  Without a sender it sends nothing. */
  ghost predicate Posted(s: State, log: seq<Batch>) {
    && s.delivered == ReceivedOf(log) && s.channelDropped == MissingOf(log)
    && (forall k :: 0 <= k < |s.slots| ==> s.slots[k].decoded == ItemsOfSlot(log, k))
    && (forall i :: 0 <= i < |log| ==>
          && log[i].origin < |s.slots|
          && if s.hasSender then log[i].NonePastEnd() else log[i].arrived == [])
    && (s.hasSender ==> forall i :: 0 <= i < |log| - (if s.writer.Sending? then 1 else 0) ==> log[i].AllSent())
    && (s.writer.Sending? ==>
          && log != [] && log[|log| - 1].origin == s.writer.buffer.origin
          && (s.hasSender ==> s.writer.records == log[|log| - 1].Unsent()))
  }

  lemma {:induction false} NoItemsOf(log: seq<Batch>, k: nat)
    requires forall i :: 0 <= i < |log| ==> log[i].origin < k
    ensures ItemsOfSlot(log, k) == []
  {
    if log != [] { NoItemsOf(log[..|log| - 1], k); }
  }

  /** A step that is not the writer's own. */
  lemma OthersPost(s: State, r: State, log: seq<Batch>)
    requires Posted(s, log) && r.hasSender == s.hasSender && r.writer == s.writer && |s.slots| <= |r.slots|
    requires r.delivered == s.delivered && r.channelDropped == s.channelDropped
    requires forall k :: 0 <= k < |r.slots| ==> r.slots[k].decoded == if k < |s.slots| then s.slots[k].decoded else []
    ensures Posted(r, log)
  {
    hide ReceivedOf, MissingOf, ItemsOfSlot, Allocations;
    forall k | |s.slots| <= k < |r.slots| ensures ItemsOfSlot(log, k) == [] { NoItemsOf(log, k); }
  }

  /** A writer step that neither decodes nor sends. */
  lemma PlainPost(s: State, r: State, log: seq<Batch>)
    requires Posted(s, log) && Plain(s, r)
    ensures Posted(r, log)
  {
    hide ReceivedOf, MissingOf, ItemsOfSlot, Allocations;
    if s.writer.Sending? && s.hasSender {
      assert log[|log| - 1].Unsent() == [];
    }
  }

  lemma FlushPost(s: State, log: seq<Batch>)
    requires Posted(s, log) && CanWrite(s, FlushSlot)
    ensures Posted(FlushOne(s), log)
  {
    hide ReceivedOf, MissingOf, ItemsOfSlot, Allocations, FlushOne;
    FlushDecoded(s);
  }

  lemma FlushDecoded(s: State)
    requires CanWrite(s, FlushSlot)
    ensures var r := FlushOne(s);
      && r == s.(slots := r.slots, queue := r.queue, writer := r.writer) && r.writer.Flushing? && |r.slots| == |s.slots|
      && forall k :: 0 <= k < |s.slots| ==> r.slots[k].decoded == s.slots[k].decoded
  {
    hide WriterFrame;
  }

  lemma DecodePosts(s: State, log: seq<Batch>)
    requires Posted(s, log) && CanWrite(s, Decode)
    ensures Posted(DecodeHeld(s), log + [Batch(s.writer.buffer.origin, Items(s.writer.buffer.data), [])])
  {
    hide Items, Allocations, WriterFrame, ReceivedOf, MissingOf, ItemsOfSlot;
    var batch := Batch(s.writer.buffer.origin, Items(s.writer.buffer.data), []);
    var r := DecodeHeld(s);
    forall k | 0 <= k < |r.slots| ensures r.slots[k].decoded == ItemsOfSlot(log + [batch], k) { FreshBatch(log, batch, k); }
    FreshBatch(log, batch, 0);
  }

  lemma FreshBatch(log: seq<Batch>, b: Batch, k: nat)
    requires b.arrived == []
    ensures ReceivedOf(log + [b]) == ReceivedOf(log) && MissingOf(log + [b]) == MissingOf(log)
    ensures ItemsOfSlot(log + [b], k) == if b.origin == k then ItemsOfSlot(log, k) + b.items else ItemsOfSlot(log, k)
  {
    assert (log + [b])[..|log|] == log;
    assert ReceivedOf(log) + [] == ReceivedOf(log) && ItemsOfSlot(log, k) + [] == ItemsOfSlot(log, k);
  }

  /** The next packet is the first 512 of the unsent records. */
  lemma NextPacket(b: Batch, arrives: bool)
    requires b.Unsent() != []
    ensures var n, c := Min(512, |b.Unsent()|), b.(arrived := b.arrived + [arrives]);
      && b.Packet(|b.arrived|) == b.Unsent()[..n] && c.Unsent() == b.Unsent()[n..] && c.NonePastEnd()
  {
    hide Allocations, Batch.Records, Batch.Received, Batch.Missing;
    var n, c := Min(512, |b.Unsent()|), b.(arrived := b.arrived + [arrives]);
    SameRecords(b, c.arrived);
    assert b.Packet(|b.arrived|) == b.Unsent()[..n];
  }

  lemma SameRecords(b: Batch, arrived: seq<bool>)
    ensures b.(arrived := arrived).Records() == b.Records()
  {
  }

  /** What sending one packet does to the batch. */
  lemma OnePacket(b: Batch, arrives: bool)
    requires b.Unsent() != []
    ensures var n, c := Min(512, |b.Unsent()|), b.(arrived := b.arrived + [arrives]);
      && c.Unsent() == b.Unsent()[n..] && c.NonePastEnd()
      && c.Received() == b.Received() + (if arrives then [b.Unsent()[..n]] else [])
      && c.Missing() == b.Missing() + if arrives then 0 else n
  {
    hide Allocations, Batch.Unsent, Batch.NonePastEnd, Batch.Packet;
    var c := b.(arrived := b.arrived + [arrives]);
    NextPacket(b, arrives);
    SamePacket(b, c.arrived);
    assert c.arrived[..|b.arrived|] == b.arrived;
    assert c.(arrived := b.arrived) == b;
  }

  lemma SamePacket(b: Batch, arrived: seq<bool>)
    ensures b.(arrived := arrived).Packet(|b.arrived|) == b.Packet(|b.arrived|)
  {
  }

  /** Only the last batch changes. */
  lemma LastOf(log: seq<Batch>, arrived: seq<bool>, k: nat)
    requires log != []
    ensures var n := |log| - 1;
      var after := log[n := log[n].(arrived := arrived)];
      && ReceivedOf(after) == ReceivedOf(log[..n]) + after[n].Received()
      && MissingOf(after) == MissingOf(log[..n]) + after[n].Missing()
      && ItemsOfSlot(after, k) == ItemsOfSlot(log, k)
      && ReceivedOf(log) == ReceivedOf(log[..n]) + log[n].Received()
      && MissingOf(log) == MissingOf(log[..n]) + log[n].Missing()
  {
    hide Allocations, Batch.Received, Batch.Missing;
    var n := |log| - 1;
    assert log[n := log[n].(arrived := arrived)][..n] == log[..n];
  }

  lemma SendPosts(s: State, arrives: bool, log: seq<Batch>) returns (after: seq<Batch>)
    requires Posted(s, log) && CanWrite(s, Send(arrives))
    ensures Posted(SendChunk(s, arrives), after)
  {
    hide Allocations, ReceivedOf, MissingOf, ItemsOfSlot, Batch.Received, Batch.Missing, Batch.Unsent, Batch.NonePastEnd,
      Batch.AllSent, WriterFrame;
    after := log;
    if s.hasSender {
      var n := |log| - 1;
      OnePacket(log[n], arrives);
      after := log[n := log[n].(arrived := log[n].arrived + [arrives])];
      forall k ensures ItemsOfSlot(after, k) == ItemsOfSlot(log, k) { LastOf(log, log[n].arrived + [arrives], k); }
      LastOf(log, log[n].arrived + [arrives], 0);
      Assoc(ReceivedOf(log[..n]), log[n].Received(), if arrives then [s.writer.records[..Min(512, |s.writer.records|)]] else []);
    }
  }

  lemma WritePosts(s: State, w: WriterMove, log: seq<Batch>) returns (after: seq<Batch>)
    requires Posted(s, log) && CanWrite(s, w)
    ensures Posted(DoWrite(s, w), after)
  {
    hide Posted, Plain, DecodeHeld, SendChunk, FlushOne, WriterFrame;
    after := log;
    match w {
      case Decode =>
        DecodePosts(s, log);
        after := log + [Batch(s.writer.buffer.origin, Items(s.writer.buffer.data), [])];
      case Send(arrives) => after := SendPosts(s, arrives, log);
      case FlushSlot => FlushPost(s, log);
      case _ =>
        PlainWrite(s, w);
        PlainPost(s, DoWrite(s, w), log);
    }
  }

  lemma StepPosts(s: State, step: Step, log: seq<Batch>) returns (after: seq<Batch>)
    requires Posted(s, log) && Enabled(s, step)
    ensures Posted(Apply(s, step), after)
  {
    hide Posted, DoProduce, DoWrite, DoFinish, CanProduce, CanWrite, CanFinish;
    after := log;
    match step {
      case Writing(w) => after := WritePosts(s, w, log);
      case _ => OthersPost(s, Apply(s, step), log);
    }
  }

  lemma {:induction false} RunPosts(s: State, steps: seq<Step>, s': State, log: seq<Batch>) returns (after: seq<Batch>)
    requires Posted(s, log) && Run(s, steps, s')
    ensures Posted(s', after)
    decreases |steps|
  {
    hide Posted, Apply, Enabled;
    after := log;
    if steps != [] {
      var next := StepPosts(s, steps[0], log);
      after := RunPosts(Apply(s, steps[0]), steps[1..], s', next);
    }
  }

  /** In every reachable state the decoded buffers have been sent in order, 512 records to a packet and the last
      one shorter; the deliveries are the packets that arrived, the channel's count the records of the others. */
  lemma PacketsSent(s: State)
    requires Reachable(s)
    ensures exists log :: Posted(s, log)
  {
    hide Run, Posted;
    var hasSender, steps :| Run(Initial(hasSender), steps, s);
    PostedInitially(hasSender);
    var log := RunPosts(Initial(hasSender), steps, s, []);
  }

  lemma PostedInitially(hasSender: bool)
    ensures Posted(Initial(hasSender), [])
  {
  }

  // ---- nothing lost on the way --------------------------------------------------------------------------------

  function Flatten(packets: seq<seq<Allocation>>): seq<Allocation> {
    if packets == [] then [] else Flatten(packets[..|packets| - 1]) + packets[|packets| - 1]
  }

  function RecordsOf(log: seq<Batch>): seq<Allocation> {
    if log == [] then [] else RecordsOf(log[..|log| - 1]) + log[|log| - 1].Records()
  }

  lemma {:induction false} FlattenAppend(a: seq<seq<Allocation>>, b: seq<seq<Allocation>>)
    ensures Flatten(a + b) == Flatten(a) + Flatten(b)
  {
    if b == [] {
      assert a + b == a;
    } else {
      var n := |b| - 1;
      assert (a + b)[..|a| + n] == a + b[..n];
      FlattenAppend(a, b[..n]);
      Assoc(Flatten(a), Flatten(b[..n]), b[n]);
    }
  }

  /** With every packet delivered, the packets put together are the records. */
  lemma {:induction false} ReceivedWhole(b: Batch)
    requires b.Missing() == 0 && b.NonePastEnd()
    ensures Flatten(b.Received()) == b.Records()[..Min(512 * |b.arrived|, |b.Records()|)]
    decreases |b.arrived|
  {
    hide Allocations;
    if b.arrived != [] {
      var n := |b.arrived| - 1;
      var c := b.(arrived := b.arrived[..n]);
      ReceivedWhole(c);
      var got := if b.arrived[n] then [b.Packet(n)] else [];
      FlattenAppend(c.Received(), got);
      assert c.Packet(n) == b.Packet(n);
      OneFlat(b.Packet(n));
    }
  }

  lemma OneFlat(packet: seq<Allocation>)
    ensures Flatten([packet]) == packet
  {
    assert [packet][..0] == [];
  }

  lemma {:induction false} LogWhole(log: seq<Batch>)
    requires MissingOf(log) == 0
    requires forall i :: 0 <= i < |log| ==> log[i].NonePastEnd() && log[i].AllSent()
    ensures Flatten(ReceivedOf(log)) == RecordsOf(log)
  {
    hide Allocations, Batch.Received, Batch.Missing;
    if log != [] {
      var n := |log| - 1;
      LogWhole(log[..n]);
      ReceivedWhole(log[n]);
      FlattenAppend(ReceivedOf(log[..n]), log[n].Received());
      assert log[n].Records()[..|log[n].Records()|] == log[n].Records();
    }
  }

  /** When the channel has lost nothing and no buffer is being sent, the deliveries put together are the
      allocations of the decoded buffers, in the order they were decoded. */
  lemma LosslessChannel(s: State)
    requires Reachable(s) && s.hasSender && s.channelDropped == 0 && !s.writer.Sending?
    ensures exists log :: Posted(s, log) && Flatten(s.delivered) == RecordsOf(log)
  {
    PacketsSent(s);
    var log :| Posted(s, log);
    LogWhole(log);
  }
}
