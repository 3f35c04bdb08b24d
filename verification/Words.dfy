/** Little-endian encoding of 64-bit words, as `u64::to_le_bytes` and `u64::from_le_bytes`. */
module Words {
  import opened Basics
  import opened Modular

  function Pow256(n: nat): (p: nat)
    ensures p > 0
  {
    if n == 0 then 1 else 256 * Pow256(n - 1)
  }

  lemma Pow256Of8()
    ensures Pow256(8) == TWO_64
    ensures Pow256(4) == TWO_32
    ensures Pow256(1) == 256
  {
    assert Pow256(2) == 0x1_0000;
    assert Pow256(4) == TWO_32;
    assert Pow256(6) == 0x1_0000_0000_0000;
  }

  /** The low `n` bytes of `w`, least significant first. */
  function LeBytes(w: nat, n: nat): (b: seq<byte>)
    ensures |b| == n
  {
    if n == 0 then [] else [w % 256] + LeBytes(w / 256, n - 1)
  }

  function LeValue(b: seq<byte>): nat {
    if b == [] then 0 else b[0] + 256 * LeValue(b[1..])
  }

  lemma {:induction false} LeValueBound(b: seq<byte>)
    ensures LeValue(b) < Pow256(|b|)
  {
    if b != [] { LeValueBound(b[1..]); }
  }

  lemma {:induction false} LeValueOfBytes(w: nat, n: nat)
    requires w < Pow256(n)
    ensures LeValue(LeBytes(w, n)) == w
  {
    if n > 0 {
      LeValueOfBytes(w / 256, n - 1);
      assert LeBytes(w, n)[1..] == LeBytes(w / 256, n - 1);
    }
  }

  lemma {:induction false} LeBytesOfValue(b: seq<byte>)
    ensures LeBytes(LeValue(b), |b|) == b
  {
    if b != [] {
      var rest := LeValue(b[1..]);
      DivModIs(b[0] + 256 * rest, 256, rest, b[0]);
      LeBytesOfValue(b[1..]);
      assert b == [b[0]] + b[1..];
    }
  }

  /** One 64-bit word read from eight bytes. */
  function Word(b: seq<byte>): u64
    requires |b| == 8
  {
    LeValueBound(b);
    Pow256Of8();
    LeValue(b)
  }

  function EncodeWords(ws: seq<u64>): (b: seq<byte>)
    ensures |b| == 8 * |ws|
  {
    if ws == [] then [] else LeBytes(ws[0], 8) + EncodeWords(ws[1..])
  }

  function DecodeWords(b: seq<byte>): (ws: seq<u64>)
    ensures |ws| == |b| / 8
  {
    if |b| < 8 then [] else [Word(b[..8])] + DecodeWords(b[8..])
  }

  lemma {:induction false} DecodeOfEncodeWords(ws: seq<u64>)
    ensures DecodeWords(EncodeWords(ws)) == ws
  {
    if ws != [] {
      var b := EncodeWords(ws);
      assert b[..8] == LeBytes(ws[0], 8) && b[8..] == EncodeWords(ws[1..]);
      Pow256Of8();
      LeValueOfBytes(ws[0], 8);
      DecodeOfEncodeWords(ws[1..]);
    }
  }

  lemma {:induction false} EncodeOfDecodeWords(b: seq<byte>)
    requires |b| % 8 == 0
    ensures EncodeWords(DecodeWords(b)) == b
  {
    if b != [] {
      LeBytesOfValue(b[..8]);
      EncodeOfDecodeWords(b[8..]);
      assert DecodeWords(b)[1..] == DecodeWords(b[8..]);
      assert b == b[..8] + b[8..];
    }
  }

  /** Word `i` of a packet sits at byte `8 * i`. */
  lemma {:induction false} DecodeWordsAt(b: seq<byte>, i: nat)
    requires i < |b| / 8
    ensures DecodeWords(b)[i] == Word(b[8 * i..8 * i + 8])
  {
    hide Word;
    if i > 0 {
      DecodeWordsAt(b[8..], i - 1);
      SliceOfTail(b, 8, 8 * i, 8 * i + 8);
    }
  }

  lemma SliceOfTail(b: seq<byte>, n: nat, low: nat, high: nat)
    requires n <= low <= high <= |b|
    ensures b[n..][low - n..high - n] == b[low..high]
  {
  }

  lemma {:induction false} EncodeWordsAppend(a: seq<u64>, b: seq<u64>)
    ensures EncodeWords(a + b) == EncodeWords(a) + EncodeWords(b)
  {
    if a == [] {
      assert a + b == b;
    } else {
      assert (a + b)[1..] == a[1..] + b;
      EncodeWordsAppend(a[1..], b);
    }
  }

  /** Byte `i` holds bits `8 * i` and up: the least significant byte comes first. */
  lemma {:induction false} ByteAt(w: nat, n: nat, i: nat)
    requires i < n
    ensures LeBytes(w, n)[i] == w / Pow256(i) % 256
    decreases i
  {
    if i > 0 {
      ByteAt(w / 256, n - 1, i - 1);
      DivTwice(w, Pow256(i - 1));
    }
  }

  lemma DivTwice(w: nat, p: nat)
    requires p > 0
    ensures w / 256 / p == w / (256 * p)
  {
    var q, r := w / 256 / p, w / 256 % p;
    assert w / 256 == q * p + r;
    assert q * (256 * p) == 256 * (q * p);
    DivModIs(w, 256 * p, q, 256 * r + w % 256);
  }

  /** Encoded word `i` reads back from byte `8 * i`. */
  lemma EncodedWordAt(ws: seq<u64>, i: nat)
    requires i < |ws|
    ensures Word(EncodeWords(ws)[8 * i..8 * i + 8]) == ws[i]
  {
    hide Word;
    DecodeOfEncodeWords(ws);
    DecodeWordsAt(EncodeWords(ws), i);
  }
}
