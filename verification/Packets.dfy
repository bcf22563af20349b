/** The two packets with a counted array: Server_Spawn and Server_Move_Ack. They have the same
    layout and the same capacity, so one class stands for both. */
module Packets {
  import opened Pooling
  import opened Receiving
  import opened RoomSpec

  const ENTRY_SIZE: nat := 12  // one unsigned int and two floats

  class SpotPacket {
    var count: nat
    const entries: array<Spot>

    ghost predicate Valid()
      reads this
    {
      entries.Length == MAX_SEND_COUNT && count <= MAX_SEND_COUNT
    }

    ghost function Contents(): seq<Spot>
      requires Valid()
      reads this, entries
    {
      entries[..count]
    }

    constructor ()
      ensures Valid() && fresh(entries) && Contents() == []
    {
      entries := new Spot[MAX_SEND_COUNT](_ => Spot(0, 0.0, 0.0));
      count := 0;
    }

    /** AddSpawnData and AddMoveData: false, and nothing changed, when the packet is full. */
    method Add(spot: Spot) returns (added: bool)
      requires Valid()
      modifies this`count, entries
      ensures Valid()
      ensures added == (|old(Contents())| < 100)
      ensures Contents() == if added then old(Contents()) + [spot] else old(Contents())
    {
      if count >= MAX_SEND_COUNT {
        return false;
      }
      entries[count] := spot;
      count := count + 1;
      return true;
    }

    method Clear()
      requires Valid()
      modifies this`count, entries
      ensures Valid() && Contents() == []
      ensures forall i | 0 <= i < entries.Length :: entries[i] == Spot(0, 0.0, 0.0)
    {
      forall i | 0 <= i < entries.Length {
        entries[i] := Spot(0, 0.0, 0.0);
      }
      count := 0;
    }

    /** GetSpawnData and GetMoveData: null outside what was added. */
    method Get(index: int) returns (spot: Option<Spot>)
      requires Valid()
      ensures spot == if 0 <= index < |Contents()| then Some(Contents()[index]) else None
    {
      if 0 <= index < count {
        return Some(entries[index]);
      }
      return None;
    }

    /** What goes on the wire; however full, the client's and the server's buffers can take it. */
    method GetSize() returns (size: nat)
      requires Valid()
      ensures size == 4 + 12 * |Contents()|
      ensures size <= MAX_BODY
    {
      size := 4 + ENTRY_SIZE * count;
    }

    /** What MakeSendPacket copies: as many entries as GetSize counts. */
    method Take() returns (spots: seq<Spot>)
      requires Valid()
      ensures spots == Contents()
    {
      spots := entries[..count];
    }
  }
}
