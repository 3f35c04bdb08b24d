/** The tagged byte stream producers append to thread buffers and the writer decodes. */
module TraceRecord {
  import opened Basics
  import opened Words
  import AllocationPacket

  const TWO_63: int := 0x8000_0000_0000_0000
  const TWO_16: nat := 0x1_0000
  const EVENT_BYTES: nat := 56
  const ALLOCATION_BYTES: nat := 360
  const MAX_FRAMES: nat := 64
  const KIND_LOSS: byte := 4

  type i64 = x: int | -TWO_63 <= x < TWO_63
  type u16 = x: nat | x < TWO_16
  type Allocation = AllocationPacket.Allocation

  /** The C-layout event header: six words, then thread id, kind, frame count and padding. */
  datatype EventRecord = EventRecord(
    timestamp: u64, eventId: u64, instance: u64, parent: u64, flow: u64, value: i64,
    tid: u32, kind: byte, nframes: byte, pad: u16)

  datatype Item =
    | Event(record: EventRecord, frames: seq<u64>)
    | Alloc(allocation: Allocation)
  {
    /** What the producers put in a buffer: the header counts the frames that follow it, and the
        allocation passes the wire checks. */
    predicate WellFormed() {
      match this
      case Event(record, frames) => record.nframes == |frames|
      case Alloc(allocation) => allocation.Acceptable()
    }
  }

  // ---- encoding --------------------------------------------------------------------------------

  function WordOfI64(v: i64): u64 { if v < 0 then v + TWO_64 else v }

  function I64OfWord(w: u64): i64 { if w < TWO_63 then w else w - TWO_64 }

  function EncodeEvent(r: EventRecord): (b: seq<byte>)
    ensures |b| == EVENT_BYTES
  {
    EncodeWords([r.timestamp, r.eventId, r.instance, r.parent, r.flow, WordOfI64(r.value)])
    + LeBytes(r.tid, 4) + [r.kind, r.nframes] + LeBytes(r.pad, 2)
  }

  function DecodeEvent(b: seq<byte>): EventRecord
    requires |b| == EVENT_BYTES
  {
    LeValueBound(b[48..52]);
    LeValueBound(b[54..56]);
    Pow256Of8();
    var w := DecodeWords(b[..48]);
    EventRecord(w[0], w[1], w[2], w[3], w[4], I64OfWord(w[5]),
                LeValue(b[48..52]), b[52], b[53], LeValue(b[54..56]))
  }

  function EncodeItem(i: Item): (b: seq<byte>)
    ensures |b| == ItemBytes(i)
  {
    match i
    case Event(record, frames) => [0] + EncodeEvent(record) + EncodeWords(frames)
    case Alloc(allocation) => [1] + AllocationPacket.EncodeRecord(allocation)
  }

  function ItemBytes(i: Item): nat {
    match i
    case Event(_, frames) => 1 + EVENT_BYTES + 8 * |frames|
    case Alloc(_) => 1 + ALLOCATION_BYTES
  }

  function EncodeAll(items: seq<Item>): seq<byte> {
    if items == [] then [] else EncodeItem(items[0]) + EncodeAll(items[1..])
  }

  /** `append` in session.rs: tag, header, then the frames one at a time. */
  method Append(data: seq<byte>, record: EventRecord, frames: seq<u64>) returns (r: seq<byte>)
    ensures r == data + EncodeItem(Event(record, frames))
  {
    var header := [0] + EncodeEvent(record);
    var tail := [];
    for i := 0 to |frames|
      invariant tail == EncodeWords(frames[..i])
    {
      assert frames[..i + 1] == frames[..i] + [frames[i]];
      EncodeWordsAppend(frames[..i], [frames[i]]);
      tail := tail + LeBytes(frames[i], 8);
    }
    assert frames[..|frames|] == frames;
    r := data + (header + tail);
  }

  // ---- decoding --------------------------------------------------------------------------------

  /** How many of the announced frames are present. */
  function FramesPresent(r: EventRecord, available: nat): nat {
    Min(r.nframes, available / 8)
  }

  /** What the writer takes from the front of a non-empty buffer and how many bytes it consumes;
      `None` ends the buffer: an unknown tag or a truncated header.  A rejected allocation is
      consumed without yielding anything, and missing frames shorten the frame list. */
  function First(data: seq<byte>): (r: Option<(seq<Item>, nat)>)
    requires data != []
    ensures r.Some? ==> 0 < r.value.1 <= |data|
  {
    if data[0] == 1 then
      if |data| < 1 + ALLOCATION_BYTES then None
      else
        var a := AllocationPacket.DecodeRecord(data[1..1 + ALLOCATION_BYTES]);
        Some((if a.Some? then [Alloc(a.value)] else [], 1 + ALLOCATION_BYTES))
    else if data[0] != 0 || |data| < 1 + EVENT_BYTES then None
    else
      var r := DecodeEvent(data[1..1 + EVENT_BYTES]);
      var n := FramesPresent(r, |data| - 1 - EVENT_BYTES);
      var next := 1 + EVENT_BYTES + 8 * n;
      Some(([Event(r, DecodeWords(data[1 + EVENT_BYTES..next]))], next))
  }

  /** Everything the writer extracts from a buffer, in order. */
  function Items(data: seq<byte>): seq<Item> {
    if data == [] then []
    else
      var first := First(data);
      if first.None? then [] else first.value.0 + Items(data[first.value.1..])
  }

  function Allocations(items: seq<Item>): seq<Allocation> {
    if items == [] then []
    else AllocPart(items[0]) + Allocations(items[1..])
  }

  function Events(items: seq<Item>): seq<(EventRecord, seq<u64>)> {
    if items == [] then []
    else EventPart(items[0]) + Events(items[1..])
  }

  /** `done` and what is still ahead of `offset` make up the whole buffer. */
  ghost predicate Decoded(data: seq<byte>, offset: nat, done: seq<Item>) {
    offset <= |data| && done + Items(data[offset..]) == Items(data)
  }

  /** The writer's offset-driven decode loop: events and allocations leave in two lists. */
  method DecodeBuffer(data: seq<byte>)
    returns (events: seq<(EventRecord, seq<u64>)>, allocations: seq<Allocation>)
    ensures events == Events(Items(data))
    ensures allocations == Allocations(Items(data))
  {
    hide Items, Decoded, AllocationPacket.DecodeRecord, DecodeEvent, DecodeWords, Word, First, Events, Allocations;
    PartsOfNone();
    events, allocations := [], [];
    ghost var done: seq<Item> := [];
    var offset := 0;
    DecodeStarts(data);
    while offset < |data|
      invariant offset <= |data| && Decoded(data, offset, done)
      invariant events == Events(done) && allocations == Allocations(done)
      decreases |data| - offset
    {
      var tag := data[offset];
      if tag == 1 {
        if offset + 1 + ALLOCATION_BYTES > |data| {
          FirstStops(data, offset);
          DecodeStops(data, offset, done);
          return;
        }
        var a := AllocationPacket.DecodeRecordLoop(data[offset + 1..offset + 1 + ALLOCATION_BYTES]);
        FirstAllocAt(data, offset);
        ghost var got := if a.Some? then [Alloc(a.value)] else [];
        DecodeStep(data, offset, done, got, 1 + ALLOCATION_BYTES);
        if a.Some? {
          PartsOfOne(got[0]);
        }
        done := done + got;
        if a.Some? {
          allocations := allocations + [a.value];
        }
        offset := offset + 1 + ALLOCATION_BYTES;
      } else {
        if tag != 0 || offset + 1 + EVENT_BYTES > |data| {
          FirstStops(data, offset);
          DecodeStops(data, offset, done);
          return;
        }
        var record := DecodeEvent(data[offset + 1..offset + 1 + EVENT_BYTES]);
        var frames, next := DecodeFrames(data, offset + 1 + EVENT_BYTES, record);
        FirstEventAt(data, offset, next);
        DecodeStep(data, offset, done, [Event(record, frames)], next - offset);
        PartsOfOne(Event(record, frames));
        done := done + [Event(record, frames)];
        events := events + [(record, frames)];
        offset := next;
      }
    }
    DecodeStops(data, offset, done);
  }

  lemma DecodeStarts(data: seq<byte>)
    ensures Decoded(data, 0, [])
  {
    assert data[0..] == data;
  }

  lemma DecodeStops(data: seq<byte>, offset: nat, done: seq<Item>)
    requires Decoded(data, offset, done)
    requires offset == |data| || First(data[offset..]).None?
    ensures done == Items(data)
  {
  }

  /** The loop's break conditions. */
  lemma FirstStops(data: seq<byte>, offset: nat)
    requires offset < |data|
    requires if data[offset] == 1 then offset + 1 + ALLOCATION_BYTES > |data|
             else data[offset] != 0 || offset + 1 + EVENT_BYTES > |data|
    ensures First(data[offset..]).None?
  {
  }

  lemma DecodeStep(data: seq<byte>, offset: nat, done: seq<Item>, got: seq<Item>, n: nat)
    requires Decoded(data, offset, done) && offset < |data|
    requires First(data[offset..]) == Some((got, n))
    ensures Decoded(data, offset + n, done + got)
    ensures Events(done + got) == Events(done) + Events(got)
    ensures Allocations(done + got) == Allocations(done) + Allocations(got)
  {
    hide First, Events, Allocations;
    EventsAppend(done, got);
    AllocationsAppend(done, got);
    assert data[offset..][n..] == data[offset + n..];
    assert done + (got + Items(data[offset + n..])) == done + got + Items(data[offset + n..]);
  }

  /** The loop's allocation branch is one `First` step. */
  lemma FirstAllocAt(data: seq<byte>, offset: nat)
    requires offset + 1 + ALLOCATION_BYTES <= |data| && data[offset] == 1
    ensures
      var a := AllocationPacket.DecodeRecord(data[offset + 1..offset + 1 + ALLOCATION_BYTES]);
      First(data[offset..]) == Some((if a.Some? then [Alloc(a.value)] else [], 1 + ALLOCATION_BYTES))
  {
    var here := data[offset..];
    assert here[1..1 + ALLOCATION_BYTES] == data[offset + 1..offset + 1 + ALLOCATION_BYTES];
  }

  /** The loop's event branch is one `First` step. */
  lemma FirstEventAt(data: seq<byte>, offset: nat, end: nat)
    requires offset + 1 + EVENT_BYTES <= |data| && data[offset] == 0
    requires end == offset + 1 + EVENT_BYTES
                    + 8 * FramesPresent(DecodeEvent(data[offset + 1..offset + 1 + EVENT_BYTES]),
                                        |data| - offset - 1 - EVENT_BYTES) <= |data|
    ensures
      var record := DecodeEvent(data[offset + 1..offset + 1 + EVENT_BYTES]);
      var frames := DecodeWords(data[offset + 1 + EVENT_BYTES..end]);
      First(data[offset..]) == Some(([Event(record, frames)], end - offset))
  {
    var here := data[offset..];
    assert here[1..1 + EVENT_BYTES] == data[offset + 1..offset + 1 + EVENT_BYTES];
    assert here[1 + EVENT_BYTES..end - offset] == data[offset + 1 + EVENT_BYTES..end];
  }

  /** The inner frame loop, which stops early when the buffer runs out. */
  method DecodeFrames(data: seq<byte>, start: nat, record: EventRecord)
    returns (frames: seq<u64>, offset: nat)
    requires start <= |data|
    ensures offset == start + 8 * FramesPresent(record, |data| - start) <= |data|
    ensures frames == DecodeWords(data[start..offset])
  {
    hide Word;
    frames, offset := [], start;
    var i := 0;
    while i < record.nframes
      invariant i <= record.nframes && offset == start + 8 * i <= |data|
      invariant frames == DecodeWords(data[start..offset])
    {
      if offset + 8 > |data| {
        break;
      }
      DecodeWordsSnoc(data, start, i);
      frames := frames + [Word(data[offset..offset + 8])];
      offset := offset + 8;
      i := i + 1;
    }
  }

  lemma {:induction false} DecodeWordsSnoc(b: seq<byte>, start: nat, n: nat)
    requires start + 8 * n + 8 <= |b|
    ensures DecodeWords(b[start..start + 8 * n + 8])
         == DecodeWords(b[start..start + 8 * n]) + [Word(b[start + 8 * n..start + 8 * n + 8])]
    decreases n
  {
    hide Word;
    var whole, front := b[start..start + 8 * n + 8], b[start..start + 8 * n];
    if n > 0 {
      DecodeWordsSnoc(b, start + 8, n - 1);
      assert whole[..8] == front[..8];
      assert whole[8..] == b[start + 8..start + 8 * n + 8] && front[8..] == b[start + 8..start + 8 * n];
      Assoc([Word(whole[..8])], DecodeWords(front[8..]), [Word(b[start + 8 * n..start + 8 * n + 8])]);
    } else {
      assert whole[..8] == whole && whole[8..] == [];
    }
  }

  function EventPart(i: Item): seq<(EventRecord, seq<u64>)> {
    if i.Event? then [(i.record, i.frames)] else []
  }

  function AllocPart(i: Item): seq<Allocation> {
    if i.Alloc? then [i.allocation] else []
  }

  lemma PartsOfNone()
    ensures Events([]) == [] && Allocations([]) == []
  {
  }

  lemma PartsOfOne(i: Item)
    ensures Events([i]) == EventPart(i) && Allocations([i]) == AllocPart(i)
  {
    assert [i][1..] == [];
  }

  lemma {:induction false} EventsAppend(a: seq<Item>, b: seq<Item>)
    ensures Events(a + b) == Events(a) + Events(b)
  {
    hide EventPart;
    if a == [] {
      assert a + b == b;
    } else {
      assert (a + b)[1..] == a[1..] + b;
      EventsAppend(a[1..], b);
      Assoc(EventPart(a[0]), Events(a[1..]), Events(b));
    }
  }

  lemma {:induction false} AllocationsAppend(a: seq<Item>, b: seq<Item>)
    ensures Allocations(a + b) == Allocations(a) + Allocations(b)
  {
    hide AllocPart;
    if a == [] {
      assert a + b == b;
    } else {
      assert (a + b)[1..] == a[1..] + b;
      AllocationsAppend(a[1..], b);
      Assoc(AllocPart(a[0]), Allocations(a[1..]), Allocations(b));
    }
  }

  // ---- the decoder inverts the encoder -----------------------------------------------------------

  lemma EventRoundTrip(r: EventRecord)
    ensures DecodeEvent(EncodeEvent(r)) == r
  {
    var b := EncodeEvent(r);
    var w := [r.timestamp, r.eventId, r.instance, r.parent, r.flow, WordOfI64(r.value)];
    assert b[..48] == EncodeWords(w) && b[48..52] == LeBytes(r.tid, 4) && b[54..56] == LeBytes(r.pad, 2);
    DecodeOfEncodeWords(w);
    Pow256Of8();
    LeValueOfBytes(r.tid, 4);
    assert Pow256(2) == TWO_16;
    LeValueOfBytes(r.pad, 2);
  }

  lemma FirstOfEncodedEvent(r: EventRecord, frames: seq<u64>, rest: seq<byte>)
    requires r.nframes == |frames|
    ensures First(EncodeItem(Event(r, frames)) + rest)
         == Some(([Event(r, frames)], 1 + EVENT_BYTES + 8 * |frames|))
  {
    var data := EncodeItem(Event(r, frames)) + rest;
    assert data[1..1 + EVENT_BYTES] == EncodeEvent(r);
    EventRoundTrip(r);
    var next := 1 + EVENT_BYTES + 8 * |frames|;
    assert data[1 + EVENT_BYTES..next] == EncodeWords(frames);
    DecodeOfEncodeWords(frames);
  }

  lemma FirstOfEncodedAlloc(a: Allocation, rest: seq<byte>)
    requires a.Acceptable()
    ensures First(EncodeItem(Alloc(a)) + rest) == Some(([Alloc(a)], 1 + ALLOCATION_BYTES))
  {
    var data := EncodeItem(Alloc(a)) + rest;
    assert data[1..1 + ALLOCATION_BYTES] == AllocationPacket.EncodeRecord(a);
    AllocationPacket.RecordRoundTrip(a);
  }

  /** One well-formed item in front of anything decodes to itself and leaves the rest untouched. */
  lemma ItemRoundTrip(i: Item, rest: seq<byte>)
    requires i.WellFormed()
    ensures Items(EncodeItem(i) + rest) == [i] + Items(rest)
  {
    var data := EncodeItem(i) + rest;
    assert data[ItemBytes(i)..] == rest;
    match i {
      case Alloc(a) => FirstOfEncodedAlloc(a, rest);
      case Event(r, frames) => FirstOfEncodedEvent(r, frames, rest);
    }
  }

  ghost predicate AllWellFormed(items: seq<Item>) {
    forall i <- items :: i.WellFormed()
  }

  /** Decoding a buffer of well-formed items returns them all: the loop neither stops early nor skips. */
  lemma {:induction false} BufferRoundTrip(items: seq<Item>)
    requires AllWellFormed(items)
    ensures Items(EncodeAll(items)) == items
  {
    if items != [] {
      BufferRoundTrip(items[1..]);
      ItemRoundTrip(items[0], EncodeAll(items[1..]));
    }
  }

  /** The bytes are exactly the encoding of the well-formed items they decode to. */
  ghost predicate WellCoded(data: seq<byte>) {
    AllWellFormed(Items(data)) && EncodeAll(Items(data)) == data
  }

  lemma {:induction false} EncodeAllAppend(a: seq<Item>, b: seq<Item>)
    ensures EncodeAll(a + b) == EncodeAll(a) + EncodeAll(b)
  {
    hide EncodeItem;
    if a == [] {
      assert a + b == b;
    } else {
      assert (a + b)[1..] == a[1..] + b;
      EncodeAllAppend(a[1..], b);
      Assoc(EncodeItem(a[0]), EncodeAll(a[1..]), EncodeAll(b));
    }
  }

  /** Appending items to a well-coded buffer appends them to what will be decoded. */
  lemma AppendDecodes(data: seq<byte>, items: seq<Item>)
    requires WellCoded(data) && AllWellFormed(items)
    ensures WellCoded(data + EncodeAll(items))
    ensures Items(data + EncodeAll(items)) == Items(data) + items
  {
    EncodeAllAppend(Items(data), items);
    BufferRoundTrip(Items(data) + items);
  }

  lemma EmptyIsWellCoded()
    ensures WellCoded([]) && Items([]) == []
  {
  }

  // ---- layout ----------------------------------------------------------------------------------

  /** Where each field of an event header sits. */
  lemma EventLayout(r: EventRecord)
    ensures var b := EncodeEvent(r);
      && |b| == 56
      && Word(b[0..8]) == r.timestamp && Word(b[8..16]) == r.eventId && Word(b[16..24]) == r.instance
      && Word(b[24..32]) == r.parent && Word(b[32..40]) == r.flow
      && (Word(b[40..48]) - r.value == 0 || Word(b[40..48]) - r.value == TWO_64)
      && LeValue(b[48..52]) == r.tid && b[52] == r.kind && b[53] == r.nframes && LeValue(b[54..56]) == r.pad
  {
    hide LeValue, EncodeWords, LeBytes;
    var ws := [r.timestamp, r.eventId, r.instance, r.parent, r.flow, WordOfI64(r.value)];
    var b, h := EncodeEvent(r), EncodeWords(ws);
    EncodedWordAt(ws, 0);
    EncodedWordAt(ws, 1);
    EncodedWordAt(ws, 2);
    EncodedWordAt(ws, 3);
    EncodedWordAt(ws, 4);
    EncodedWordAt(ws, 5);
    assert b[0..8] == h[0..8] && b[8..16] == h[8..16] && b[16..24] == h[16..24];
    assert b[24..32] == h[24..32] && b[32..40] == h[32..40] && b[40..48] == h[40..48];
    Pow256Of8();
    assert Pow256(2) == TWO_16;
    LeValueOfBytes(r.tid, 4);
    LeValueOfBytes(r.pad, 2);
    assert b[48..52] == LeBytes(r.tid, 4) && b[54..56] == LeBytes(r.pad, 2);
  }
}
