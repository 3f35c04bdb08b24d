/** The allocation lifecycle wire protocol: fixed-size records inside counted packets. */
module AllocationPacket {
  import opened Basics
  import opened Words

  const MAX_FRAMES: nat := 32
  const HEADER_WORDS: nat := 13
  const RECORD_WORDS: nat := 45
  const RECORD_BYTES: nat := 360
  const MAGIC: seq<byte> := [77, 80, 65, 76, 76, 79, 67, 49] // "MPALLOC1"

  type Frames = f: seq<u64> | |f| == MAX_FRAMES witness seq(32, _ => 0)

  datatype Operation = Allocated | Freed | ReallocBegin | ReallocEnd {
    function Code(): u64 {
      match this
      case Allocated => 1
      case Freed => 2
      case ReallocBegin => 3
      case ReallocEnd => 4
    }
  }

  function OperationOf(code: u64): Option<Operation> {
    match code
    case 1 => Some(Allocated)
    case 2 => Some(Freed)
    case 3 => Some(ReallocBegin)
    case 4 => Some(ReallocEnd)
    case _ => None
  }

  datatype Allocation = Allocation(
    pid: u64, processEpoch: u64, sequence: u64, timestampNs: u64, tid: u64,
    operation: Operation, operationId: u64, oldAddress: u64, address: u64,
    requestedBytes: u64, retiresOld: bool, stackStatus: u64, frameCount: u64, frames: Frames)
  {
    /** What the receiving side insists on; the field types alone allow more. */
    predicate Acceptable() {
      pid < TWO_32 && tid < TWO_32 && frameCount <= MAX_FRAMES && stackStatus <= 4
    }
  }

  datatype Batch = Batch(
    sequence: u64, produced: u64, producerDropped: u64, channelDropped: u64,
    paused: u64, footer: bool, records: seq<Allocation>)
  {
    /** The packet's length fits a machine word, which every in-memory vector satisfies. */
    predicate Addressable() {
      64 + |records| * RECORD_BYTES < TWO_64
    }
  }

  predicate AllAcceptable(records: seq<Allocation>) {
    forall a <- records :: a.Acceptable()
  }

  function Flag(b: bool): u64 { if b then 1 else 0 }

  // ---- specification: records and packets as sequences of words -------------------------------

  function HeaderOf(a: Allocation): (ws: seq<u64>)
    ensures |ws| == HEADER_WORDS
  {
    [a.pid, a.processEpoch, a.sequence, a.timestampNs, a.tid, a.operation.Code(), a.operationId,
     a.oldAddress, a.address, a.requestedBytes, Flag(a.retiresOld), a.frameCount, a.stackStatus]
  }

  function EncodeRecord(a: Allocation): (b: seq<byte>)
    ensures |b| == RECORD_BYTES
  {
    EncodeWords(HeaderOf(a) + a.frames)
  }

  function OfWords(w: seq<u64>): Option<Allocation>
    requires |w| == RECORD_WORDS
  {
    if w[0] >= TWO_32 || w[4] >= TWO_32 || OperationOf(w[5]).None?
       || w[11] > MAX_FRAMES || w[10] > 1 || w[12] > 4
    then None
    else Some(Allocation(w[0], w[1], w[2], w[3], w[4], OperationOf(w[5]).value, w[6], w[7], w[8],
                         w[9], w[10] == 1, w[12], w[11], w[HEADER_WORDS..]))
  }

  function DecodeRecord(b: seq<byte>): Option<Allocation> {
    if |b| != RECORD_BYTES then None else OfWords(DecodeWords(b))
  }

  function EncodeRecords(records: seq<Allocation>): (b: seq<byte>)
    ensures |b| == |records| * RECORD_BYTES
  {
    if records == [] then [] else EncodeRecord(records[0]) + EncodeRecords(records[1..])
  }

  function DecodeRecords(b: seq<byte>): Option<seq<Allocation>>
    requires |b| % RECORD_BYTES == 0
  {
    if b == [] then Some([])
    else
      var first := DecodeRecord(b[..RECORD_BYTES]);
      var rest := DecodeRecords(b[RECORD_BYTES..]);
      if first.None? || rest.None? then None else Some([first.value] + rest.value)
  }

  function BatchHeader(b: Batch): (ws: seq<u64>)
    requires b.Addressable()
    ensures |ws| == 7
  {
    [b.sequence, b.produced, b.producerDropped, b.channelDropped, b.paused, Flag(b.footer), |b.records|]
  }

  function EncodePacket(b: Batch): seq<byte>
    requires b.Addressable()
  {
    MAGIC + EncodeWords(BatchHeader(b)) + EncodeRecords(b.records)
  }

  /** Rejects a wrong magic, a flag above one, a length that disagrees with the count (including a
      count whose byte length overflows), and any record its own decoder rejects. */
  function DecodePacket(p: seq<byte>): Option<Batch> {
    if |p| < 64 || p[..8] != MAGIC then None
    else
      var w := DecodeWords(p[8..64]);
      if 64 + w[6] * RECORD_BYTES >= TWO_64 || w[5] > 1 || |p| != 64 + w[6] * RECORD_BYTES then None
      else
        var records := DecodeRecords(p[64..]);
        if records.None? then None
        else Some(Batch(w[0], w[1], w[2], w[3], w[4], w[5] == 1, records.value))
  }

  // ---- the imperative coders refine the specification ------------------------------------------

  /** `Allocation::decode`: word extraction and the loop that fills the frame array. */
  method DecodeRecordLoop(b: seq<byte>) returns (r: Option<Allocation>)
    ensures r == DecodeRecord(b)
  {
    if |b| != RECORD_BYTES {
      return None;
    }
    ghost var w := DecodeWords(b);
    forall i | 0 <= i < RECORD_WORDS ensures w[i] == Word(b[8 * i..8 * i + 8]) {
      DecodeWordsAt(b, i);
    }
    if Word(b[0..8]) >= TWO_32 || Word(b[32..40]) >= TWO_32 {
      return None;
    }
    var operation := OperationOf(Word(b[40..48]));
    var frameCount := Word(b[88..96]);
    if operation.None? {
      return None;
    }
    if frameCount > MAX_FRAMES || Word(b[80..88]) > 1 || Word(b[96..104]) > 4 {
      return None;
    }
    var frames := seq(MAX_FRAMES, _ => 0);
    for i := 0 to MAX_FRAMES
      invariant |frames| == MAX_FRAMES
      invariant forall k :: 0 <= k < i ==> frames[k] == w[HEADER_WORDS + k]
    {
      frames := frames[i := Word(b[8 * (HEADER_WORDS + i)..8 * (HEADER_WORDS + i) + 8])];
    }
    assert frames == w[HEADER_WORDS..];
    r := Some(Allocation(Word(b[0..8]), Word(b[8..16]), Word(b[16..24]), Word(b[24..32]),
                         Word(b[32..40]), operation.value, Word(b[48..56]), Word(b[56..64]),
                         Word(b[64..72]), Word(b[72..80]), Word(b[80..88]) == 1, Word(b[96..104]),
                         frameCount, frames));
  }

  /** `Batch::encode`: magic, seven header words, then each record in turn. */
  method EncodePacketLoop(b: Batch) returns (p: seq<byte>)
    requires b.Addressable()
    ensures p == EncodePacket(b)
  {
    hide EncodeRecord, EncodeRecords, EncodeWords, LeBytes;
    var header := AppendWords(MAGIC, BatchHeader(b));
    p := AppendRecords(header, b.records);
  }

  method AppendWords(start: seq<byte>, words: seq<u64>) returns (p: seq<byte>)
    ensures p == start + EncodeWords(words)
  {
    p := start;
    for i := 0 to |words|
      invariant p + EncodeWords(words[i..]) == start + EncodeWords(words)
    {
      hide LeBytes;
      assert words[i..][1..] == words[i + 1..];
      Assoc(p, LeBytes(words[i], 8), EncodeWords(words[i + 1..]));
      p := p + LeBytes(words[i], 8);
    }
  }

  method AppendRecords(start: seq<byte>, records: seq<Allocation>) returns (p: seq<byte>)
    ensures p == start + EncodeRecords(records)
  {
    hide EncodeRecord;
    p := start;
    for i := 0 to |records|
      invariant p + EncodeRecords(records[i..]) == start + EncodeRecords(records)
    {
      assert records[i..][1..] == records[i + 1..];
      Assoc(p, EncodeRecord(records[i]), EncodeRecords(records[i + 1..]));
      p := p + EncodeRecord(records[i]);
    }
  }

  // ---- canonical packets -----------------------------------------------------------------------

  /** A record survives the wire exactly when the receiver's checks hold of it. */
  lemma RecordRoundTrip(a: Allocation)
    ensures DecodeRecord(EncodeRecord(a)) == if a.Acceptable() then Some(a) else None
  {
    var w := HeaderOf(a) + a.frames;
    DecodeOfEncodeWords(w);
    assert w[HEADER_WORDS..] == a.frames;
    assert OperationOf(a.operation.Code()) == Some(a.operation);
  }

  /** Every record that decodes re-encodes to the bytes it came from. */
  lemma RecordCanonical(b: seq<byte>)
    requires DecodeRecord(b).Some?
    ensures EncodeRecord(DecodeRecord(b).value) == b
    ensures DecodeRecord(b).value.Acceptable()
  {
    var w := DecodeWords(b);
    assert w == HeaderOf(OfWords(w).value) + w[HEADER_WORDS..];
    EncodeOfDecodeWords(b);
  }

  lemma {:induction false} RecordsRoundTrip(records: seq<Allocation>)
    ensures DecodeRecords(EncodeRecords(records))
         == if AllAcceptable(records) then Some(records) else None
  {
    hide EncodeRecord, DecodeRecord;
    if records != [] {
      var b := EncodeRecords(records);
      assert b[..RECORD_BYTES] == EncodeRecord(records[0]);
      assert b[RECORD_BYTES..] == EncodeRecords(records[1..]);
      RecordRoundTrip(records[0]);
      RecordsRoundTrip(records[1..]);
      assert records == [records[0]] + records[1..];
      assert AllAcceptable(records) <==> records[0].Acceptable() && AllAcceptable(records[1..]);
    }
  }

  lemma {:induction false} RecordsCanonical(b: seq<byte>)
    requires |b| % RECORD_BYTES == 0
    requires DecodeRecords(b).Some?
    ensures EncodeRecords(DecodeRecords(b).value) == b
    ensures |DecodeRecords(b).value| * RECORD_BYTES == |b|
  {
    hide EncodeRecord, DecodeRecord;
    if b != [] {
      RecordCanonical(b[..RECORD_BYTES]);
      RecordsCanonical(b[RECORD_BYTES..]);
      assert DecodeRecords(b).value[1..] == DecodeRecords(b[RECORD_BYTES..]).value;
      assert b == b[..RECORD_BYTES] + b[RECORD_BYTES..];
    }
  }

  /** Decoding an encoded batch returns it, for a batch of any length, exactly when every record is
      acceptable; otherwise the whole packet is rejected. */
  lemma PacketRoundTrip(b: Batch)
    requires b.Addressable()
    ensures DecodePacket(EncodePacket(b))
         == if AllAcceptable(b.records) then Some(b) else None
  {
    var p := EncodePacket(b);
    assert p[..8] == MAGIC;
    assert p[8..64] == EncodeWords(BatchHeader(b));
    assert p[64..] == EncodeRecords(b.records);
    DecodeOfEncodeWords(BatchHeader(b));
    RecordsRoundTrip(b.records);
  }

  /** Any packet that decodes re-encodes to exactly the same bytes. */
  lemma PacketCanonical(p: seq<byte>)
    requires DecodePacket(p).Some?
    ensures DecodePacket(p).value.Addressable()
    ensures EncodePacket(DecodePacket(p).value) == p
  {
    hide EncodeRecords, DecodeRecords, EncodeWords, DecodeWords;
    var b := DecodePacket(p).value;
    var w := DecodeWords(p[8..64]);
    RecordsCanonical(p[64..]);
    assert w == BatchHeader(b);
    EncodeOfDecodeWords(p[8..64]);
    assert p == p[..8] + p[8..64] + p[64..];
  }

  /** No two packets mean the same batch. */
  lemma PacketUnique(p: seq<byte>, q: seq<byte>)
    requires DecodePacket(p).Some? && DecodePacket(p) == DecodePacket(q)
    ensures p == q
  {
    PacketCanonical(p);
    PacketCanonical(q);
  }

  // ---- the layout, byte by byte ----------------------------------------------------------------

  function WordAt(b: seq<byte>, at: nat): u64
    requires at + 8 <= |b|
  {
    Word(b[at..at + 8])
  }

  /** Where each field of a record sits and how an operation is coded, whatever coder reads it. */
  lemma RecordLayout(a: Allocation)
    ensures var b := EncodeRecord(a);
      && |b| == 104 + 32 * 8
      && WordAt(b, 0) == a.pid && WordAt(b, 8) == a.processEpoch && WordAt(b, 16) == a.sequence
      && WordAt(b, 24) == a.timestampNs && WordAt(b, 32) == a.tid
      && (WordAt(b, 40) == 1 <==> a.operation.Allocated?) && (WordAt(b, 40) == 2 <==> a.operation.Freed?)
      && (WordAt(b, 40) == 3 <==> a.operation.ReallocBegin?) && (WordAt(b, 40) == 4 <==> a.operation.ReallocEnd?)
      && WordAt(b, 48) == a.operationId && WordAt(b, 56) == a.oldAddress && WordAt(b, 64) == a.address
      && WordAt(b, 72) == a.requestedBytes
      && (WordAt(b, 80) == 1 <==> a.retiresOld) && (WordAt(b, 80) == 0 <==> !a.retiresOld)
      && WordAt(b, 88) == a.frameCount && WordAt(b, 96) == a.stackStatus
      && forall k :: 0 <= k < 32 ==> WordAt(b, 104 + 8 * k) == a.frames[k]
  {
    hide Word, EncodeWords;
    var ws := HeaderOf(a) + a.frames;
    forall i | 0 <= i < 45 ensures WordAt(EncodeRecord(a), 8 * i) == ws[i] { EncodedWordAt(ws, i); }
    var b := EncodeRecord(a);
    assert forall i :: 0 <= i < 45 ==> WordAt(b, 8 * i) == ws[i];
    HeaderWords(b, ws);
    forall k | 0 <= k < 32 ensures WordAt(b, 104 + 8 * k) == a.frames[k] {
      assert ws[13 + k] == a.frames[k];
      assert WordAt(b, 8 * (13 + k)) == ws[13 + k];
    }
  }

  lemma HeaderWords(b: seq<byte>, ws: seq<u64>)
    requires |ws| == 45 && |b| == 360 && forall i :: 0 <= i < 45 ==> WordAt(b, 8 * i) == ws[i]
    ensures WordAt(b, 0) == ws[0] && WordAt(b, 8) == ws[1] && WordAt(b, 16) == ws[2] && WordAt(b, 24) == ws[3]
    ensures WordAt(b, 32) == ws[4] && WordAt(b, 40) == ws[5] && WordAt(b, 48) == ws[6] && WordAt(b, 56) == ws[7]
    ensures WordAt(b, 64) == ws[8] && WordAt(b, 72) == ws[9] && WordAt(b, 80) == ws[10] && WordAt(b, 88) == ws[11]
    ensures WordAt(b, 96) == ws[12]
  {
    hide WordAt;
    assert WordAt(b, 8 * 0) == ws[0] && WordAt(b, 8 * 1) == ws[1] && WordAt(b, 8 * 2) == ws[2];
    assert WordAt(b, 8 * 3) == ws[3] && WordAt(b, 8 * 4) == ws[4] && WordAt(b, 8 * 5) == ws[5];
    assert WordAt(b, 8 * 6) == ws[6] && WordAt(b, 8 * 7) == ws[7] && WordAt(b, 8 * 8) == ws[8];
    assert WordAt(b, 8 * 9) == ws[9] && WordAt(b, 8 * 10) == ws[10] && WordAt(b, 8 * 11) == ws[11];
    assert WordAt(b, 8 * 12) == ws[12];
  }

  /** The packet: "MPALLOC1", seven words, then the records one after the other. */
  lemma PacketLayout(b: Batch)
    requires b.Addressable()
    ensures var p := EncodePacket(b);
      && |p| == 64 + 360 * |b.records|
      && p[..8] == ['M' as int, 'P' as int, 'A' as int, 'L' as int, 'L' as int, 'O' as int, 'C' as int, '1' as int]
      && WordAt(p, 8) == b.sequence && WordAt(p, 16) == b.produced && WordAt(p, 24) == b.producerDropped
      && WordAt(p, 32) == b.channelDropped && WordAt(p, 40) == b.paused
      && (WordAt(p, 48) == 1 <==> b.footer) && (WordAt(p, 48) == 0 <==> !b.footer)
      && WordAt(p, 56) == |b.records|
      && forall k :: 0 <= k < |b.records| ==> p[64 + 360 * k..64 + 360 * k + 360] == EncodeRecord(b.records[k])
  {
    hide Word, EncodeWords, EncodeRecord, EncodeRecords;
    var p, h := EncodePacket(b), EncodeWords(BatchHeader(b));
    forall i | 0 <= i < 7 ensures p[8 + 8 * i..16 + 8 * i] == h[8 * i..8 * i + 8] {
    }
    forall i | 0 <= i < 7 ensures Word(h[8 * i..8 * i + 8]) == BatchHeader(b)[i] { EncodedWordAt(BatchHeader(b), i); }
    BatchWords(p, h, BatchHeader(b));
    forall k | 0 <= k < |b.records| ensures p[64 + 360 * k..64 + 360 * k + 360] == EncodeRecord(b.records[k]) {
      RecordAt(b.records, k);
      assert p[64..] == EncodeRecords(b.records);
      SliceOfTail(p, 64, 64 + 360 * k, 64 + 360 * k + 360);
    }
  }

  lemma BatchWords(p: seq<byte>, h: seq<byte>, ws: seq<u64>)
    requires |p| >= 64 && |h| == 56 && |ws| == 7
    requires forall i :: 0 <= i < 7 ==> p[8 + 8 * i..16 + 8 * i] == h[8 * i..8 * i + 8]
    requires forall i :: 0 <= i < 7 ==> Word(h[8 * i..8 * i + 8]) == ws[i]
    ensures WordAt(p, 8) == ws[0] && WordAt(p, 16) == ws[1] && WordAt(p, 24) == ws[2] && WordAt(p, 32) == ws[3]
    ensures WordAt(p, 40) == ws[4] && WordAt(p, 48) == ws[5] && WordAt(p, 56) == ws[6]
  {
    hide Word;
    assert Word(p[8 + 8 * 0..16 + 8 * 0]) == ws[0] && Word(p[8 + 8 * 1..16 + 8 * 1]) == ws[1];
    assert Word(p[8 + 8 * 2..16 + 8 * 2]) == ws[2] && Word(p[8 + 8 * 3..16 + 8 * 3]) == ws[3];
    assert Word(p[8 + 8 * 4..16 + 8 * 4]) == ws[4] && Word(p[8 + 8 * 5..16 + 8 * 5]) == ws[5];
    assert Word(p[8 + 8 * 6..16 + 8 * 6]) == ws[6];
  }

  lemma {:induction false} RecordAt(records: seq<Allocation>, k: nat)
    requires k < |records|
    ensures 360 * k + 360 <= |EncodeRecords(records)|
    ensures EncodeRecords(records)[360 * k..360 * k + 360] == EncodeRecord(records[k])
    decreases k
  {
    hide EncodeRecord;
    if k > 0 {
      RecordAt(records[1..], k - 1);
      var all := EncodeRecords(records);
      assert all[360..] == EncodeRecords(records[1..]);
      SliceOfTail(all, 360, 360 * k, 360 * k + 360);
    }
  }
}
