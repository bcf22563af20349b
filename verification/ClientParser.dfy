/** The client's parser: the same wire format read from an unbounded buffer. */
module ClientParsing {
  import opened Basics
  import opened Wire
  import opened Receiving
  import opened SessionReceiving

  class Client {
    var input: seq<Byte>
    ghost var received: seq<Byte>  // everything the socket has ever delivered
    ghost var handled: seq<Frame>  // the packets switched on, in order

    /** The client is where the reference parser is. */
    ghost predicate Valid()
      reads this
    {
      Decode(received) == Parsed(handled, input)
    }

    constructor ()
      ensures Valid() && received == []
    {
      input, received, handled := [], [], [];
    }

    /** One `recv` and the parse that follows it: any cut of the stream, any body size. */
    method Pump(bytes: seq<Byte>)
      requires Valid()
      modifies this
      ensures Valid() && received == old(received) + bytes
    {
      DecodeAppend(received, bytes);
      received := received + bytes;
      input := input + bytes;
      ParseClient();
    }

    method ParseClient()
      modifies this
      ensures handled == old(handled) + Decode(old(input)).frames
      ensures input == Decode(old(input)).tail
      ensures received == old(received)
    {
      var read := 0;
      ghost var all, rest, taken := Decode(input), input, [];
      SeqEmpty(all.frames);
      var total := PacketAt(read);
      while total > 0
        invariant input == old(input) && received == old(received) && 0 <= read <= |input|
        invariant rest == input[read..] && total == SizeAt(rest)
        invariant handled == old(handled) + taken
        invariant ReadTo(all, rest, taken)
        decreases |input| - read
      {
        ReadNext(all, rest, taken);
        SeqAssociates(old(handled), taken, [First(rest)]);
        DropTwice(input, read, total);
        handled, taken, rest := handled + [First(rest)], taken + [First(rest)], Rest(rest);
        read := read + total;
        total := PacketAt(read);
      }

      ReadAll(all, rest, taken);
      if 0 < read {
        input := input[read..];
      }
    }

    /** The two checks of the loop: the size of the packet at `read`, or 0 if it is not all there. */
    method PacketAt(read: nat) returns (total: nat)
      requires read <= |input|
      ensures total == SizeAt(input[read..])
    {
      if |input| - read < HEADER_SIZE {
        return 0;
      }
      total := HEADER_SIZE + SizeOf(input[read..]);
      if |input| - read < total {
        return 0;
      }
    }
  }

  function SizeAt(rest: seq<Byte>): (total: nat)
    ensures total > 0 <==> Complete(rest)
  {
    if Complete(rest) then HEADER_SIZE + SizeOf(rest) else 0
  }

  /** The packets taken and what is left are what the reference parser reads. */
  ghost predicate ReadTo(all: Parsed, rest: seq<Byte>, taken: seq<Frame>) {
    all == Parsed(taken + Decode(rest).frames, Decode(rest).tail)
  }

  lemma ReadNext(all: Parsed, rest: seq<Byte>, taken: seq<Frame>)
    requires ReadTo(all, rest, taken) && Complete(rest)
    ensures ReadTo(all, Rest(rest), taken + [First(rest)])
  {
    SeqAssociates(taken, [First(rest)], Decode(Rest(rest)).frames);
  }

  lemma ReadAll(all: Parsed, rest: seq<Byte>, taken: seq<Frame>)
    requires ReadTo(all, rest, taken) && !Complete(rest)
    ensures all == Parsed(taken, rest)
  {
    SeqEmpty(taken);
  }

  /** The two parsers agree on a stream, each cutting it its own way, exactly when no body
      exceeds the server's buffer. */
  lemma ParsersAgree(chunks: seq<seq<Byte>>, client: Client)
    requires WithinWindow(chunks)
    requires client.Valid() && client.received == Flatten(chunks)
    ensures ServeAll(chunks) == Parsed(client.handled, client.input) <==> Fits(Flatten(chunks))
  {
    FramingExact(chunks);
  }

  /** What a sender encodes into chunks is what both parsers recover, however the stream is cut:
      the client for every body size, the server whenever the bodies fit its buffer. */
  lemma RoundTrip(frames: seq<Frame>, chunks: seq<seq<Byte>>, client: Client)
    requires client.Valid() && client.received == EncodeAll(frames)
    requires WithinWindow(chunks) && Flatten(chunks) == EncodeAll(frames)
    ensures client.handled == frames && client.input == []
    ensures SmallBodies(frames) ==> ServeAll(chunks) == Parsed(frames, [])
  {
    DecodeUnique(frames, []);
    assert EncodeAll(frames) + [] == EncodeAll(frames);
    FramingExact(chunks);
  }
}
