/** The halves put together: what the room queues for a session, what the send protocol hands to
    the kernel out of the shared chunks, and what the client at the other end reads. The layout of
    packet bodies is a parameter: `enc` lays a room message out, `dec` is what the client makes of a
    packet. */
module EndToEnd {
  import opened Basics
  import opened Wire
  import opened ClientParsing
  import opened StepRuns
  import SendMemory
  import SendToken
  import opened Movement
  import opened RoomSpec
  import opened RoomBooks
  import opened RoomViews

  /** What is pushed to a session: a message of the room, or a packet that a worker answers by
      itself, as an echo. */
  datatype Push = FromRoom(msg: Msg) | ByWorker(packet: Frame)

  function LaidOut(enc: Msg -> Frame, p: Push): Frame {
    match p
    case FromRoom(m) => enc(m)
    case ByWorker(packet) => packet
  }

  function AllLaidOut(enc: Msg -> Frame, pushes: seq<Push>): seq<Frame> {
    seq(|pushes|, i requires 0 <= i < |pushes| => LaidOut(enc, pushes[i]))
  }

  function AllRead(dec: Frame -> Push, frames: seq<Frame>): seq<Push> {
    seq(|frames|, i requires 0 <= i < |frames| => dec(frames[i]))
  }

  /** The messages of the room among them. */
  function RoomPart(pushes: seq<Push>): seq<Msg> {
    if pushes == [] then []
    else RoomPart(pushes[..|pushes| - 1]) + match pushes[|pushes| - 1] {
      case FromRoom(m) => [m]
      case ByWorker(_) => []
    }
  }

  lemma {:induction false} RoomPartPrefix(pushes: seq<Push>, k: nat)
    requires k <= |pushes|
    ensures RoomPart(pushes[..k]) <= RoomPart(pushes)
  {
    if k == |pushes| {
      assert pushes[..k] == pushes;
    } else {
      var n := |pushes| - 1;
      RoomPartPrefix(pushes[..n], k);
      assert pushes[..n][..k] == pushes[..k];
    }
  }

  /** The client tells these apart, and understands those of the room. */
  ghost predicate Understood(enc: Msg -> Frame, dec: Frame -> Push, pushes: seq<Push>) {
    forall i | 0 <= i < |pushes| :: dec(LaidOut(enc, pushes[i])) == pushes[i]
  }

  /** Of a part of a stream of packets, a client reads a part of the packets. */
  lemma PartRead(frames: seq<Frame>, part: seq<Byte>)
    requires part <= EncodeAll(frames)
    ensures Decode(part).frames <= frames
    ensures part == EncodeAll(frames) ==> Decode(part) == Parsed(frames, [])
  {
    var rest := EncodeAll(frames)[|part|..];
    assert part + rest == EncodeAll(frames);
    DecodeUnique(frames, []);
    SeqEmpty(EncodeAll(frames));
    DecodeAppend(part, rest);
  }

  lemma ReadBack(enc: Msg -> Frame, dec: Frame -> Push, pushes: seq<Push>, frames: seq<Frame>)
    requires Understood(enc, dec, pushes) && frames <= AllLaidOut(enc, pushes)
    ensures AllRead(dec, frames) == pushes[..|frames|]
  {
    forall i | 0 <= i < |frames| ensures AllRead(dec, frames)[i] == pushes[i] {
      assert frames[i] == AllLaidOut(enc, pushes)[i];
    }
  }

  /** One session: any number of threads make packets in `count` chunks and push some of them to it,
      no send of it fails, `pushes` is what was pushed in lock order, and the client has received a
      part of the bytes that were sent or are being sent. */
  ghost predicate Connected(count: nat, steps: seq<SendMemory.Step>, enc: Msg -> Frame, dec: Frame -> Push,
                            pushes: seq<Push>, client: Client)
    reads client
  {
    && Runs(SendMemory.Next, SendMemory.Init(count), steps) && SendToken.NoFailure(SendMemory.SendSteps(steps))
    && var s := After(SendMemory.Next, SendMemory.Init(count), steps);
    && SendMemory.Pushed(s) == AllLaidOut(enc, pushes) && Understood(enc, dec, pushes)
    && client.Valid() && client.received <= s.wire + SendMemory.Gathered(s.mem, s.send.sender.batch)
  }

  /** Nothing is on the way any more: the token is free, and all that was sent has arrived. */
  ghost predicate Arrived(count: nat, steps: seq<SendMemory.Step>, client: Client)
    requires Runs(SendMemory.Next, SendMemory.Init(count), steps)
    reads client
  {
    var s := After(SendMemory.Next, SendMemory.Init(count), steps);
    !s.send.sender.flag && client.received == s.wire
  }

  lemma SentIsPart(done: seq<Frame>, held: seq<Frame>, n: nat)
    requires n <= |held|
    ensures done + held[..n] <= done + held
  {
  }

  /** What the client has been sent, read back. */
  lemma FramesInOrder(count: nat, steps: seq<SendMemory.Step>, enc: Msg -> Frame, dec: Frame -> Push,
                      pushes: seq<Push>, client: Client)
    requires Connected(count, steps, enc, dec, pushes, client)
    ensures client.handled <= AllLaidOut(enc, pushes)
    ensures Arrived(count, steps, client) ==> client.handled == AllLaidOut(enc, pushes) && client.input == []
  {
    var s := After(SendMemory.Next, SendMemory.Init(count), steps);
    SendMemory.BytesSent(count, steps);
    SentIsPart(s.done, s.held, |s.send.sender.batch|);
    PartRead(s.done + SendMemory.BatchPackets(s), client.received);
    if Arrived(count, steps, client) {
      PartRead(s.done, client.received);
    }
  }

  /** What the client has made of its bytes is at every moment the beginning of what was pushed to
      its session, and all of it once everything has arrived; so with the room's part of it. */
  lemma DecodedInOrder(count: nat, steps: seq<SendMemory.Step>, enc: Msg -> Frame, dec: Frame -> Push,
                       pushes: seq<Push>, client: Client)
    requires Connected(count, steps, enc, dec, pushes, client)
    ensures AllRead(dec, client.handled) <= pushes
    ensures RoomPart(AllRead(dec, client.handled)) <= RoomPart(pushes)
    ensures Arrived(count, steps, client) ==> AllRead(dec, client.handled) == pushes && client.input == []
  {
    FramesInOrder(count, steps, enc, dec, pushes, client);
    ReadBack(enc, dec, pushes, client.handled);
    RoomPartPrefix(pushes, |client.handled|);
  }

  /** Main result end to end. Whatever the room has been through, whatever else was pushed to the
      session, whatever other threads made of the chunks meanwhile, and however the stream was cut:
      once everything has arrived at a member's client, the ids that client holds are ids of other
      present members, or ids withdrawn for good; and if no allocation has failed they are exactly
      the other members' ids. */
  lemma ClientKnows(alloc: nat -> bool, root: real -> real, roomID: int, events: seq<Event>,
                    count: nat, steps: seq<SendMemory.Step>, enc: Msg -> Frame, dec: Frame -> Push,
                    pushes: seq<Push>, client: Client)
    requires Connected(count, steps, enc, dec, pushes, client) && Arrived(count, steps, client)
    ensures var r := Run(alloc, root, NewRoom(roomID), events);
            forall k | k in r.users && InboxOf(r.inbox, r.users[k].session) == RoomPart(pushes) ::
              && View(RoomPart(AllRead(dec, client.handled))) <= Others(r.users, k) + r.withdrawn
              && (AllOk(alloc, 0, r.calls) ==> View(RoomPart(AllRead(dec, client.handled))) == Others(r.users, k))
  {
    ClientViews(alloc, root, roomID, events);
    DecodedInOrder(count, steps, enc, dec, pushes, client);
  }
}
