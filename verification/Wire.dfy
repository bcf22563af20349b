/** The byte stream both ends speak: a PacketID header (type, then the body's size, two bytes
    each, little-endian as packed on x86) followed by the body. `Decode` is the reference
    parser: it knows nothing of buffers, windows or chunk sizes. */
module Wire {
  import opened Basics

  type Byte = b: int | 0 <= b < 0x100
  type Word = w: int | 0 <= w < 0x1_0000  // uint16

  const HEADER_SIZE: nat := 4
  const PACKET_SIZE: nat := 4096
  const CHUNK_SIZE: nat := PACKET_SIZE * 10

  datatype Packet = Packet(kind: Word, body: seq<Byte>)

  /** A packet whose size its header can state. */
  type Frame = p: Packet | |p.body| < 0x1_0000 witness Packet(0, [])

  datatype Parsed = Parsed(frames: seq<Frame>, tail: seq<Byte>)

  function EncodeWord(w: Word): seq<Byte> {
    [w % 0x100, w / 0x100]
  }

  function DecodeWord(low: Byte, high: Byte): Word {
    (low as int) + 0x100 * (high as int)
  }

  function Header(kind: Word, size: Word): seq<Byte> {
    EncodeWord(kind) + EncodeWord(size)
  }

  function Encode(p: Frame): seq<Byte> {
    Header(p.kind, |p.body|) + p.body
  }

  function EncodeAll(frames: seq<Frame>): seq<Byte> {
    if frames == [] then [] else Encode(frames[0]) + EncodeAll(frames[1..])
  }

  function KindOf(s: seq<Byte>): Word
    requires |s| >= HEADER_SIZE
  {
    DecodeWord(s[0], s[1])
  }

  function SizeOf(s: seq<Byte>): Word
    requires |s| >= HEADER_SIZE
  {
    DecodeWord(s[2], s[3])
  }

  /** The bytes start with a whole packet. */
  predicate Complete(s: seq<Byte>) {
    |s| >= HEADER_SIZE && HEADER_SIZE + SizeOf(s) <= |s|
  }

  function First(s: seq<Byte>): Frame
    requires Complete(s)
  {
    Packet(KindOf(s), s[HEADER_SIZE..HEADER_SIZE + SizeOf(s)])
  }

  function Rest(s: seq<Byte>): seq<Byte>
    requires Complete(s)
  {
    s[HEADER_SIZE + SizeOf(s)..]
  }

  function Decode(s: seq<Byte>): Parsed
    decreases |s|
  {
    if Complete(s) then
      var d := Decode(Rest(s));
      Parsed([First(s)] + d.frames, d.tail)
    else
      Parsed([], s)
  }

  function Flatten(chunks: seq<seq<Byte>>): seq<Byte> {
    if chunks == [] then [] else Flatten(chunks[..|chunks| - 1]) + chunks[|chunks| - 1]
  }

  lemma EncodedFirst(p: Frame, t: seq<Byte>)
    ensures Complete(Encode(p) + t)
    ensures First(Encode(p) + t) == p
    ensures Rest(Encode(p) + t) == t
  {
  }

  lemma DecodeNext(p: Frame, t: seq<Byte>)
    ensures Decode(Encode(p) + t) == Parsed([p] + Decode(t).frames, Decode(t).tail)
  {
    EncodedFirst(p, t);
  }

  lemma EncodeNext(p: Frame, frames: seq<Frame>, t: seq<Byte>)
    ensures EncodeAll([p] + frames) + t == Encode(p) + (EncodeAll(frames) + t)
  {
  }

  /** Decoding undoes encoding, whatever follows the encoded packets. */
  lemma {:induction false} DecodeEncoded(frames: seq<Frame>, t: seq<Byte>)
    ensures Decode(EncodeAll(frames) + t) == Parsed(frames + Decode(t).frames, Decode(t).tail)
  {
    if frames == [] {
      assert EncodeAll(frames) + t == t;
    } else {
      var p, fs := frames[0], frames[1..];
      assert [p] + fs == frames;
      DecodeEncoded(fs, t);
      EncodeNext(p, fs, t);
      DecodeNext(p, EncodeAll(fs) + t);
      SeqAssociates([p], fs, Decode(t).frames);
    }
  }

  lemma WordEncoded(low: Byte, high: Byte)
    ensures EncodeWord(DecodeWord(low, high)) == [low, high]
  {
  }

  lemma FirstEncoded(s: seq<Byte>)
    requires Complete(s)
    ensures Encode(First(s)) + Rest(s) == s
  {
    WordEncoded(s[0], s[1]);
    WordEncoded(s[2], s[3]);
    assert [s[0], s[1]] + [s[2], s[3]] == s[..HEADER_SIZE];
    assert Header(KindOf(s), SizeOf(s)) == s[..HEADER_SIZE];
    assert s[..HEADER_SIZE] + First(s).body == s[..HEADER_SIZE + SizeOf(s)];
  }

  /** The layout: kind and size, low byte first, in four bytes, and then the body. */
  lemma Layout(p: Frame)
    ensures var s := Encode(p);
            && |s| == 4 + |p.body|
            && s[0] as int + 0x100 * s[1] as int == p.kind && s[2] as int + 0x100 * s[3] as int == |p.body|
            && s[4..] == p.body
  {
    var s := Encode(p);
    assert s == [s[0], s[1], s[2], s[3]] + p.body;
  }

  /** A whole packet is there exactly when some packet's encoding is a beginning of the bytes. */
  lemma CompleteExactly(s: seq<Byte>)
    ensures Complete(s) <==> exists p: Frame :: Encode(p) <= s
  {
    if Complete(s) {
      FirstEncoded(s);
      assert Encode(First(s)) <= s;
    }
    forall p: Frame | Encode(p) <= s ensures Complete(s) {
      EncodedFirst(p, s[|Encode(p)|..]);
      assert s == Encode(p) + s[|Encode(p)|..];
    }
  }

  /** Encoding undoes decoding: no byte is invented or lost, and what is left over is never a
      whole packet. */
  lemma {:induction false} EncodeDecoded(s: seq<Byte>)
    ensures EncodeAll(Decode(s).frames) + Decode(s).tail == s
    ensures !Complete(Decode(s).tail)
    decreases |s|
  {
    if Complete(s) {
      var d := Decode(Rest(s));
      EncodeDecoded(Rest(s));
      EncodeNext(First(s), d.frames, d.tail);
      FirstEncoded(s);
    }
  }

  /** The decoding of a stream is the only way to read it as packets plus an incomplete rest. */
  lemma DecodeUnique(frames: seq<Frame>, t: seq<Byte>)
    requires !Complete(t)
    ensures Decode(EncodeAll(frames) + t) == Parsed(frames, t)
  {
    DecodeEncoded(frames, t);
  }

  lemma CompleteAppend(a: seq<Byte>, b: seq<Byte>)
    requires Complete(a)
    ensures Complete(a + b) && First(a + b) == First(a) && Rest(a + b) == Rest(a) + b
  {
  }

  /** A stream may be cut anywhere: decode what came, keep the rest, prepend it to what comes. */
  lemma {:induction false} DecodeAppend(a: seq<Byte>, b: seq<Byte>)
    ensures var d, e := Decode(a), Decode(Decode(a).tail + b);
            Decode(a + b) == Parsed(d.frames + e.frames, e.tail)
    decreases |a|
  {
    if Complete(a) {
      var d := Decode(Rest(a));
      CompleteAppend(a, b);
      DecodeAppend(Rest(a), b);
      SeqAssociates([First(a)], d.frames, Decode(d.tail + b).frames);
      assert Decode(a) == Parsed([First(a)] + d.frames, d.tail);
    } else {
      assert Decode(a) == Parsed([], a);
    }
  }
}
