/** The send chunk: a fixed block that packets are copied into one behind the other. */
module Sending {
  import opened Wire

  /** Where a packet was put, or that it did not fit. */
  datatype Placed = Placed(at: nat, size: nat) | NoRoom

  predicate HasRoom(filled: nat, size: nat) {
    filled + size <= CHUNK_SIZE
  }

  /** `s` with `bytes` written over it at a place. */
  function Overwritten(s: seq<Byte>, at: nat, bytes: seq<Byte>): (r: seq<Byte>)
    requires at + |bytes| <= |s|
    ensures |r| == |s|
  {
    s[..at] + bytes + s[at + |bytes|..]
  }

  lemma OverwrittenTwice(s: seq<Byte>, at: nat, a: seq<Byte>, b: seq<Byte>)
    requires at + |a| + |b| <= |s|
    ensures Overwritten(Overwritten(s, at, a), at + |a|, b) == Overwritten(s, at, a + b)
  {
    var one := Overwritten(s, at, a);
    assert one[..at + |a|] == s[..at] + a;
    assert one[at + |a| + |b|..] == s[at + |a| + |b|..];
  }

  lemma OverwrittenEnd(s: seq<Byte>, at: nat, bytes: seq<Byte>)
    requires at + |bytes| <= |s|
    ensures Overwritten(s, at, bytes)[..at + |bytes|] == s[..at] + bytes
  {
  }

  class SendBuffer {
    const chunk: array<Byte>
    var pointer: nat
    ghost var copied: seq<Frame>  // the packets put in since the last reset

    /** The filled part of the chunk is the encoding of the packets copied in, and nothing else. */
    ghost predicate Valid()
      reads this, chunk
    {
      && chunk.Length == CHUNK_SIZE == 40960
      && pointer <= CHUNK_SIZE
      && chunk[..pointer] == EncodeAll(copied)
    }

    constructor ()
      ensures Valid() && fresh(chunk) && pointer == 0 && copied == []
      ensures forall i | 0 <= i < chunk.Length :: chunk[i] == 0
    {
      chunk := new Byte[CHUNK_SIZE](_ => 0);
      pointer, copied := 0, [];
    }

    method IsCopy(sendSize: nat) returns (room: bool)
      requires Valid()
      ensures room == HasRoom(pointer, sendSize)
    {
      room := !(chunk.Length < pointer + sendSize);
    }

    /** memcpy into the chunk. */
    method Store(at: nat, bytes: seq<Byte>)
      requires at + |bytes| <= chunk.Length
      modifies chunk
      ensures chunk[..] == Overwritten(old(chunk[..]), at, bytes)
      ensures forall i | 0 <= i < chunk.Length ::
                chunk[i] == if at <= i < at + |bytes| then bytes[i - at] else old(chunk[i])
    {
      forall i | 0 <= i < |bytes| {
        chunk[at + i] := bytes[i];
      }
    }

    /** Puts header and body behind what is there, or touches nothing. The header's uint16 size
        cannot truncate: a body that fits the chunk fits the field. */
    method CopyBuffer(kind: Word, data: seq<Byte>) returns (placed: Placed)
      requires Valid()
      modifies this, chunk
      ensures Valid()
      ensures placed == if HasRoom(old(pointer), HEADER_SIZE + |data|)
                        then Placed(old(pointer), HEADER_SIZE + |data|) else NoRoom
      ensures placed.Placed? <==> old(pointer) + 4 + |data| <= chunk.Length
      ensures placed.NoRoom? ==> unchanged(this) && unchanged(chunk)
      ensures placed.Placed? ==>
                && |data| < 0x1_0000
                && copied == old(copied) + [Packet(kind, data)]
                && pointer == old(pointer) + placed.size
                && chunk[..] == Overwritten(old(chunk[..]), old(pointer), Encode(Packet(kind, data)))
    {
      var room := IsCopy(HEADER_SIZE + |data|);
      if !room {
        return NoRoom;
      }

      var returnPointer := pointer;
      ghost var before, p: Frame := chunk[..], Packet(kind, data);
      Store(pointer, Header(kind, |data|));
      pointer := pointer + HEADER_SIZE;
      Store(pointer, data);
      pointer := pointer + |data|;

      OverwrittenTwice(before, returnPointer, Header(kind, |data|), data);
      OverwrittenEnd(before, returnPointer, Encode(p));
      EncodeLast(copied, p);
      copied := copied + [p];
      return Placed(returnPointer, HEADER_SIZE + |data|);
    }

    method Reset()
      requires Valid()
      modifies this, chunk
      ensures Valid() && pointer == 0 && copied == []
      ensures forall i | 0 <= i < chunk.Length :: chunk[i] == 0
    {
      forall i | 0 <= i < chunk.Length {
        chunk[i] := 0;
      }
      pointer, copied := 0, [];
    }
  }

  lemma {:induction false} EncodeLast(frames: seq<Frame>, p: Frame)
    ensures EncodeAll(frames + [p]) == EncodeAll(frames) + Encode(p)
  {
    if frames == [] {
      EncodeNext(p, [], []);
      assert [] + [p] == [p] + [];
    } else {
      var f, fs := frames[0], frames[1..];
      assert frames + [p] == [f] + (fs + [p]);
      assert [f] + fs == frames;
      EncodeNext(f, fs + [p], []);
      EncodeNext(f, fs, Encode(p));
      EncodeLast(fs, p);
    }
  }
}
