/** The server's receive buffer: one linear block of PACKET_SIZE bytes that the kernel fills at
    `writePos`, that the session reads at `readPos`, and that is compacted after every packet. */
module Receiving {
  import opened Basics
  import opened Wire

  /** The largest body the buffer can hold behind a header. */
  const MAX_BODY: nat := PACKET_SIZE - HEADER_SIZE

  /** A header announcing more than the buffer can ever hold. */
  predicate Oversized(s: seq<Byte>) {
    |s| >= HEADER_SIZE && SizeOf(s) > MAX_BODY
  }

  /** Positions are uint16 in the source. They are `Word`s here, so every assignment below is
      also a proof that the source's arithmetic does not wrap. */
  class RecvBuffer {
    const buffer: array<Byte>
    var writePos: Word
    var readPos: Word
    var headerKind: Word
    var headerSize: Word

    ghost predicate Valid()
      reads this
    {
      && buffer.Length == PACKET_SIZE == 4096
      && readPos <= writePos <= PACKET_SIZE
      && headerSize <= MAX_BODY
    }

    /** The bytes received and not yet consumed. */
    ghost function Unread(): seq<Byte>
      requires Valid()
      reads this, buffer
    {
      buffer[readPos..writePos]
    }

    /** The same once the kernel has put `transfer` more bytes at `writePos`. */
    ghost function Pending(transfer: nat): seq<Byte>
      requires Valid() && writePos + transfer <= PACKET_SIZE
      reads this, buffer
    {
      buffer[readPos..writePos + transfer]
    }

    constructor ()
      ensures Valid() && fresh(buffer)
      ensures Unread() == [] && readPos == 0
    {
      buffer := new Byte[PACKET_SIZE](_ => 0);
      writePos, readPos, headerKind, headerSize := 0, 0, 0, 0;
    }

    method GetWriteBufferSize() returns (size: Word)
      requires Valid()
      ensures writePos + size == 4096
    {
      size := buffer.Length - writePos;
    }

    method GetBufferSize() returns (size: Word)
      requires Valid()
      ensures size == |Unread()|
    {
      size := writePos - readPos;
    }

    /** Moves the unread bytes to the front, or forgets everything when there are none or when
        the cached header can never be satisfied. */
    method Clear()
      requires buffer.Length == PACKET_SIZE && readPos <= writePos <= PACKET_SIZE
      modifies this, buffer
      ensures Valid() && readPos == 0
      ensures Unread() == if old(headerSize) > 4092 then [] else old(buffer[readPos..writePos])
      ensures Unread() != [] ==> headerKind == old(headerKind) && headerSize == old(headerSize)
      ensures Unread() == [] ==> headerKind == 0 && headerSize == 0
    {
      var isClear := false;
      if headerSize > buffer.Length - HEADER_SIZE {
        isClear := true;
      } else if readPos != writePos {
        forall i | 0 <= i < writePos - readPos {
          buffer[i] := buffer[readPos + i];
        }
        writePos := writePos - readPos;
        readPos := 0;
      } else {
        isClear := true;
      }

      if isClear {
        readPos := 0;
        writePos := 0;
        headerSize := 0;
        headerKind := 0;
      }
    }

    /** Takes in the `transfer` bytes the kernel has put at `writePos` and answers whether a
        whole packet is there to read. */
    method DivideBuffer(transfer: nat) returns (ok: bool)
      requires Valid() && writePos + transfer <= PACKET_SIZE
      modifies this, buffer
      ensures Valid()
      ensures ok == Complete(old(Pending(transfer)))
      ensures ok ==> Unread() == old(Pending(transfer))
      ensures ok ==> headerKind == KindOf(Unread()) && headerSize == SizeOf(Unread())
      ensures !ok ==> readPos == 0 && writePos < PACKET_SIZE
      ensures !ok ==> Unread() == if Oversized(old(Pending(transfer))) then [] else old(Pending(transfer))
    {
      ok := true;
      writePos := writePos + transfer;
      var size := GetBufferSize();
      if size >= HEADER_SIZE {
        headerKind := DecodeWord(buffer[readPos], buffer[readPos + 1]);
        headerSize := DecodeWord(buffer[readPos + 2], buffer[readPos + 3]);
      }

      if size < HEADER_SIZE || headerSize > size - HEADER_SIZE {
        Clear();
        ok := false;
      }
    }

    /** Consumes `count` bytes, or does nothing when there are not that many. */
    method SetReadPos(count: int)
      requires Valid()
      modifies this, buffer
      ensures Valid()
      ensures 0 < count <= old(|Unread()|) ==> readPos == 0 && Unread() == old(Unread())[count..]
      ensures !(0 < count <= old(|Unread()|)) ==> unchanged(this) && unchanged(buffer)
    {
      if count <= 0 || readPos + count > writePos {
        return;
      }

      readPos := readPos + count;
      Clear();
    }

    /** The body of the packet `DivideBuffer` has found. */
    method GetReadData() returns (body: seq<Byte>)
      requires Valid() && Complete(Unread()) && headerSize == SizeOf(Unread())
      ensures body == First(Unread()).body
    {
      body := buffer[readPos + HEADER_SIZE..readPos + HEADER_SIZE + headerSize];
      ghost var all := buffer[..];
      assert Unread() == all[readPos..writePos] && body == all[readPos + HEADER_SIZE..readPos + HEADER_SIZE + headerSize];
      SliceOfSlice(all, readPos, writePos, HEADER_SIZE, HEADER_SIZE + headerSize);
    }
  }
}
