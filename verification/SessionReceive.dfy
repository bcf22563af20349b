/** The session's receive loop, and what it makes of a TCP stream cut into arbitrary chunks. */
module SessionReceiving {
  import opened Basics
  import opened Wire
  import opened Receiving

  /** What one pass of the loop makes of the bytes in the buffer when no packet is rejected. */
  function Serve(s: seq<Byte>): Parsed
    decreases |s|
  {
    if Complete(s) then
      var d := Serve(Rest(s));
      Parsed([First(s)] + d.frames, d.tail)
    else
      Parsed([], if Oversized(s) then [] else s)
  }

  /** The packets handed to the dispatcher: everything up to and including the first one it
      rejects. */
  function Dispatched(frames: seq<Frame>, accepts: Frame -> bool): seq<Frame> {
    if frames == [] then []
    else [frames[0]] + if accepts(frames[0]) then Dispatched(frames[1..], accepts) else []
  }

  predicate AcceptsAll(frames: seq<Frame>, accepts: Frame -> bool) {
    forall i | 0 <= i < |frames| :: accepts(frames[i])
  }

  /** The whole life of a session, chunk by chunk: what was dispatched and what is buffered. */
  function ServeAll(chunks: seq<seq<Byte>>): Parsed {
    if chunks == [] then Parsed([], [])
    else
      var before, last := ServeAll(chunks[..|chunks| - 1]), chunks[|chunks| - 1];
      var now := Serve(before.tail + last);
      Parsed(before.frames + now.frames, now.tail)
  }

  /** Every chunk fits the receive window offered when it arrived. */
  predicate WithinWindow(chunks: seq<seq<Byte>>) {
    chunks != [] ==>
      var init := chunks[..|chunks| - 1];
      WithinWindow(init) && |ServeAll(init).tail| + |chunks[|chunks| - 1]| <= PACKET_SIZE
  }

  predicate SmallBodies(frames: seq<Frame>) {
    forall i | 0 <= i < |frames| :: |frames[i].body| <= MAX_BODY
  }

  /** The stream carries no body larger than the receive buffer can take. */
  predicate Fits(s: seq<Byte>) {
    SmallBodies(Decode(s).frames) && !Oversized(Decode(s).tail)
  }

  /** The loop differs from the reference parser in one place only: an oversized header. */
  lemma {:induction false} ServeDecodes(s: seq<Byte>)
    ensures Serve(s).frames == Decode(s).frames
    ensures Serve(s).tail == if Oversized(Decode(s).tail) then [] else Decode(s).tail
    decreases |s|
  {
    if Complete(s) {
      ServeDecodes(Rest(s));
    }
  }

  lemma ServeAllNext(chunks: seq<seq<Byte>>, last: seq<Byte>)
    ensures var before, now := ServeAll(chunks), Serve(ServeAll(chunks).tail + last);
            ServeAll(chunks + [last]) == Parsed(before.frames + now.frames, now.tail)
    ensures WithinWindow(chunks) && |ServeAll(chunks).tail| + |last| <= PACKET_SIZE ==> WithinWindow(chunks + [last])
  {
  }

  /** What a full buffer can hold back or hand out. */
  lemma {:induction false} ServeBounded(s: seq<Byte>)
    requires |s| <= PACKET_SIZE
    ensures SmallBodies(Serve(s).frames)
    ensures !Oversized(Serve(s).tail) && |Serve(s).tail| < PACKET_SIZE
    decreases |s|
  {
    if Complete(s) {
      ServeBounded(Rest(s));
    }
  }

  lemma {:induction false} ServeAllBounded(chunks: seq<seq<Byte>>)
    requires WithinWindow(chunks)
    ensures SmallBodies(ServeAll(chunks).frames)
    ensures !Oversized(ServeAll(chunks).tail) && |ServeAll(chunks).tail| < PACKET_SIZE
  {
    if chunks != [] {
      var init := chunks[..|chunks| - 1];
      ServeAllBounded(init);
      ServeBounded(ServeAll(init).tail + chunks[|chunks| - 1]);
    }
  }

  lemma SmallBodiesParts(a: seq<Frame>, b: seq<Frame>)
    requires SmallBodies(a + b)
    ensures SmallBodies(a) && SmallBodies(b)
  {
    forall i | 0 <= i < |a| ensures |a[i].body| <= MAX_BODY {
      assert (a + b)[i] == a[i];
    }
    forall i | 0 <= i < |b| ensures |b[i].body| <= MAX_BODY {
      assert (a + b)[|a| + i] == b[i];
    }
  }

  lemma OversizedStays(t: seq<Byte>, b: seq<Byte>)
    requires Oversized(t)
    ensures !Fits(t + b)
  {
    assert SizeOf(t + b) == SizeOf(t);
    if Complete(t + b) {
      assert Decode(t + b).frames[0] == First(t + b);
    }
  }

  lemma FitsParts(a: seq<Byte>, b: seq<Byte>)
    requires Fits(a + b)
    ensures Fits(a) && Fits(Decode(a).tail + b)
  {
    var t := Decode(a).tail;
    DecodeAppend(a, b);
    SmallBodiesParts(Decode(a).frames, Decode(t + b).frames);
    if Oversized(t) {
      OversizedStays(t, b);
    }
  }

  lemma {:induction false} FittingServed(chunks: seq<seq<Byte>>)
    requires Fits(Flatten(chunks))
    ensures ServeAll(chunks) == Decode(Flatten(chunks))
  {
    if chunks != [] {
      var init, last := chunks[..|chunks| - 1], chunks[|chunks| - 1];
      FitsParts(Flatten(init), last);
      FittingServed(init);
      DecodeAppend(Flatten(init), last);
      ServeDecodes(ServeAll(init).tail + last);
    }
  }

  /** Main result. However TCP cuts the stream, the session has dispatched exactly its complete
      packets and buffers exactly the incomplete rest, if and only if no body announced so far
      exceeds the buffer. */
  lemma FramingExact(chunks: seq<seq<Byte>>)
    requires WithinWindow(chunks)
    ensures ServeAll(chunks) == Decode(Flatten(chunks)) <==> Fits(Flatten(chunks))
    ensures var d := Decode(Flatten(chunks));
            Fits(Flatten(chunks)) <==>
              && (forall i | 0 <= i < |d.frames| :: |d.frames[i].body| <= 4092)
              && (|d.tail| >= 4 ==> d.tail[2] as int + 0x100 * d.tail[3] as int <= 4092)
  {
    if Fits(Flatten(chunks)) {
      FittingServed(chunks);
    } else {
      ServeAllBounded(chunks);
    }
  }

  /** Two cuts of the same fitting stream are indistinguishable to the application. */
  lemma CutIndependent(one: seq<seq<Byte>>, other: seq<seq<Byte>>)
    requires Flatten(one) == Flatten(other) && Fits(Flatten(one))
    ensures ServeAll(one) == ServeAll(other)
  {
    FittingServed(one);
    FittingServed(other);
  }

  lemma ServeOne(p: Frame)
    ensures Serve(Encode(p)) == Parsed([p], [])
  {
    EncodedFirst(p, []);
    SeqEmpty(Encode(p));
  }

  lemma ServeHeader(kind: Word, size: Word)
    requires size > MAX_BODY
    ensures Serve(Header(kind, size)) == Parsed([], [])
  {
  }

  lemma HeaderSize(kind: Word, size: Word, t: seq<Byte>)
    ensures |Header(kind, size)| == HEADER_SIZE && SizeOf(Header(kind, size) + t) == size
  {
    var s := Header(kind, size) + t;
    assert s[2] == size % 0x100 && s[3] == size / 0x100;
  }

  /** What an oversized header leads to: the server forgets it, and takes the start of that body
      for packets of their own. */
  lemma OversizedRun(kind: Word, size: Word, inside: Frame) returns (chunks: seq<seq<Byte>>)
    requires size > MAX_BODY && |inside.body| <= MAX_BODY && |Encode(inside)| < size
    ensures WithinWindow(chunks) && Flatten(chunks) == Header(kind, size) + Encode(inside)
    ensures ServeAll(chunks) == Parsed([inside], [])
    ensures Decode(Flatten(chunks)) == Parsed([], Flatten(chunks))
  {
    var none: seq<seq<Byte>>, header, body := [], Header(kind, size), Encode(inside);
    HeaderSize(kind, size, body);
    chunks := none + [header] + [body];
    FlattenNext(none, header);
    FlattenNext(none + [header], body);
    SeqEmpty(header);
    SeqEmpty(body);
    ServeAllNext(none, header);
    ServeHeader(kind, size);
    assert ServeAll(none + [header]) == Parsed([], []);
    ServeAllNext(none + [header], body);
    ServeOne(inside);
    SeqEmpty([inside]);
    assert !Complete(header + body);
  }

  lemma FlattenNext(chunks: seq<seq<Byte>>, last: seq<Byte>)
    ensures Flatten(chunks + [last]) == Flatten(chunks) + last
  {
    assert (chunks + [last])[..|chunks|] == chunks;
  }

  class SessionReceiver {
    const recv: RecvBuffer
    var alive: bool                    // a receive is posted
    ghost var chunks: seq<seq<Byte>>   // what TCP has delivered, as it was cut
    ghost var dispatched: seq<Frame>   // what the packet handler was called with

    ghost predicate Valid()
      reads this, recv, recv.buffer
    {
      recv.Valid() && (alive ==> Receiving())
    }

    /** Between two receives: nothing is read but not consumed, the window is open, and the
        session is where `ServeAll` says. */
    ghost predicate Receiving()
      requires recv.Valid()
      reads this, recv, recv.buffer
    {
      && recv.readPos == 0 && recv.writePos < PACKET_SIZE
      && WithinWindow(chunks)
      && ServeAll(chunks) == Parsed(dispatched, recv.Unread())
    }

    constructor ()
      ensures Valid() && alive && chunks == [] && dispatched == [] && fresh(recv) && fresh(recv.buffer)
    {
      recv := new RecvBuffer();
      alive, chunks, dispatched := true, [], [];
    }

    /** Handles a completed receive of `transfer` bytes. `accepts` is the packet handler's
        verdict, `posted` whether the kernel took the next receive. */
    method Recv(transfer: nat, accepts: Frame -> bool, posted: bool) returns (ok: bool)
      requires Valid() && alive && recv.writePos + transfer <= PACKET_SIZE
      modifies this, recv, recv.buffer
      ensures Valid() && alive == ok
      ensures chunks == old(chunks) + [old(recv.Pending(transfer)[recv.writePos..])]
      ensures dispatched == old(dispatched) + Dispatched(Serve(old(recv.Pending(transfer))).frames, accepts)
      ensures ok == (posted && AcceptsAll(Serve(old(recv.Pending(transfer))).frames, accepts))
    {
      ghost var data := recv.Pending(transfer);
      ghost var last := data[recv.writePos..];
      assert data == recv.Unread() + last;
      ServeAllNext(chunks, last);
      ok := DispatchPackets(transfer, accepts);
      if ok {
        SeqEmpty(Serve(data).frames);
        DispatchedAll(Serve(data).frames, Serve(data).frames, accepts);
      }
      chunks := chunks + [last];
      ok := ok && posted;  // RecvStart
      alive := ok;
    }

    /** The buffer holds `data`, and either a whole packet at its front or nothing to read. */
    ghost predicate Divided(data: seq<Byte>, found: bool)
      reads this, recv, recv.buffer
    {
      && recv.Valid() && found == Complete(data)
      && (found ==> recv.Unread() == data && recv.headerKind == KindOf(data) && recv.headerSize == SizeOf(data))
      && (!found ==> recv.readPos == 0 && recv.writePos < PACKET_SIZE && recv.Unread() == Serve(data).tail)
    }

    /** The loop of Recv. */
    method DispatchPackets(transfer: nat, accepts: Frame -> bool) returns (ok: bool)
      requires recv.Valid() && recv.writePos + transfer <= PACKET_SIZE
      modifies this`dispatched, recv, recv.buffer
      ensures recv.Valid()
      ensures dispatched == old(dispatched) + Dispatched(Serve(old(recv.Pending(transfer))).frames, accepts)
      ensures ok == AcceptsAll(Serve(old(recv.Pending(transfer))).frames, accepts)
      ensures ok ==> recv.readPos == 0 && recv.writePos < PACKET_SIZE
      ensures ok ==> recv.Unread() == Serve(old(recv.Pending(transfer))).tail
    {
      ghost var data, taken := recv.Pending(transfer), [];
      ghost var all := Serve(data);
      SeqEmpty(all.frames);

      var divideByte := transfer;
      ServeStep(data);
      var found := recv.DivideBuffer(divideByte);
      while found
        invariant Divided(data, found)
        invariant TakenTo(all, data, taken, accepts)
        invariant dispatched == old(dispatched) + taken
        decreases |data|
      {
        var body := recv.GetReadData();
        var packet: Frame := Packet(recv.headerKind, body);

        dispatched := dispatched + [packet];
        SeqAssociates(old(dispatched), taken, [packet]);
        if !accepts(packet) {
          TakeRejected(all, data, taken, accepts);
          return false;
        }

        TakeNext(all, data, taken, accepts);
        found := NextPacket(data);
        taken, data := taken + [packet], Rest(data);
      }

      TakeDone(all, data, taken, accepts);
      return true;
    }

    /** From the end of one round of the loop to the start of the next. */
    method NextPacket(ghost data: seq<Byte>) returns (found: bool)
      requires Divided(data, true)
      modifies recv, recv.buffer
      ensures Divided(Rest(data), found)
    {
      recv.SetReadPos(HEADER_SIZE + recv.headerSize);
      ServeStep(Rest(data));
      found := recv.DivideBuffer(0);
    }
  }

  lemma ServeStep(s: seq<Byte>)
    ensures Complete(s) ==> Serve(s).frames != [] && Serve(s).frames[0] == First(s)
    ensures Complete(s) ==> Serve(Rest(s)) == Parsed(Serve(s).frames[1..], Serve(s).tail)
    ensures !Complete(s) ==> Serve(s) == Parsed([], if Oversized(s) then [] else s)
  {
  }

  /** How far the loop has come: the packets taken were all accepted, and what is left is what
      `data` holds. */
  ghost predicate TakenTo(all: Parsed, data: seq<Byte>, taken: seq<Frame>, accepts: Frame -> bool) {
    all == Parsed(taken + Serve(data).frames, Serve(data).tail) && AcceptsAll(taken, accepts)
  }

  lemma TakeNext(all: Parsed, data: seq<Byte>, taken: seq<Frame>, accepts: Frame -> bool)
    requires TakenTo(all, data, taken, accepts) && Complete(data) && accepts(First(data))
    ensures TakenTo(all, Rest(data), taken + [First(data)], accepts)
  {
    ServeStep(data);
    SeqShift(taken, Serve(data).frames);
  }

  lemma TakeRejected(all: Parsed, data: seq<Byte>, taken: seq<Frame>, accepts: Frame -> bool)
    requires TakenTo(all, data, taken, accepts) && Complete(data) && !accepts(First(data))
    ensures Dispatched(all.frames, accepts) == taken + [First(data)] && !AcceptsAll(all.frames, accepts)
  {
    ServeStep(data);
    DispatchedRejects(all.frames, taken, Serve(data).frames, accepts);
  }

  lemma TakeDone(all: Parsed, data: seq<Byte>, taken: seq<Frame>, accepts: Frame -> bool)
    requires TakenTo(all, data, taken, accepts) && !Complete(data)
    ensures Dispatched(all.frames, accepts) == taken && AcceptsAll(all.frames, accepts)
    ensures Serve(data).tail == all.tail
  {
    ServeStep(data);
    DispatchedAll(all.frames, taken, accepts);
  }

  lemma SeqShift<T>(a: seq<T>, b: seq<T>)
    requires b != []
    ensures a + b == (a + [b[0]]) + b[1..]
  {
  }

  lemma {:induction false} DispatchedAll(frames: seq<Frame>, taken: seq<Frame>, accepts: Frame -> bool)
    requires frames == taken + [] && AcceptsAll(taken, accepts)
    ensures Dispatched(frames, accepts) == taken
    ensures AcceptsAll(frames, accepts)
  {
    if taken != [] {
      DispatchedAll(frames[1..], taken[1..], accepts);
    }
  }

  lemma {:induction false} DispatchedRejects(frames: seq<Frame>, taken: seq<Frame>, left: seq<Frame>, accepts: Frame -> bool)
    requires frames == taken + left && AcceptsAll(taken, accepts)
    requires left != [] && !accepts(left[0])
    ensures Dispatched(frames, accepts) == taken + [left[0]]
    ensures !AcceptsAll(frames, accepts)
  {
    assert frames[|taken|] == left[0];
    if taken != [] {
      DispatchedRejects(frames[1..], taken[1..], left, accepts);
    }
  }
}
