/** The send protocol of one session over the shared chunks: what is queued are SendChunks, and what
    the kernel reads are the bytes they point at. Threads that make packets and threads that send
    them interleave freely. */
module SendMemory {
  import opened Basics
  import opened Wire
  import opened Sending
  import opened StepRuns
  import Chunks = SharedChunks
  import Token = SendToken

  datatype State = State(
    mem: Chunks.State,
    send: Token.State,
    done: seq<Frame>,  // history: the packets that have left m_Send, in order
    held: seq<Frame>,  // history: those pushed since, in order
    wire: seq<Byte>)   // history: the bytes of every completed send, in order

  datatype Step = Memory(m: Chunks.Step) | Send(t: Token.Step)

  function Init(count: nat): State {
    State(Chunks.Init(count), Token.Init(), [], [], [])
  }

  /** The SendChunks this session still holds. */
  function HeldIds(s: Token.State): seq<Chunks.Id> {
    s.sender.batch + s.sender.queue
  }

  /** The packets of every push, in lock order. */
  function Pushed(s: State): seq<Frame> {
    s.done + s.held
  }

  /** A SendChunk lives as long as m_SendQueue or m_Send holds a copy, and whoever pushes one holds
      it. */
  predicate Enabled(s: State, step: Step) {
    match step
    case Memory(m) => Chunks.Enabled(s.mem, m) && (m.Drop? ==> m.id !in HeldIds(s.send))
    case Send(t) => Token.Enabled(s.send, t) && (t.Insert? ==> t.chunk in s.mem.slices)
  }

  /** What a WSABUF for the slice would have the kernel read. */
  function BytesOf(mem: Chunks.State, id: Chunks.Id): seq<Byte> {
    if id in mem.slices && mem.slices[id].chunk < |mem.buffers|
       && mem.slices[id].at + mem.slices[id].size <= |mem.buffers[mem.slices[id].chunk].bytes|
    then
      var x := mem.slices[id];
      mem.buffers[x.chunk].bytes[x.at..x.at + x.size]
    else []
  }

  function Gathered(mem: Chunks.State, ids: seq<Chunks.Id>): seq<Byte> {
    if ids == [] then [] else Gathered(mem, ids[..|ids| - 1]) + BytesOf(mem, ids[|ids| - 1])
  }

  /** m_Send gives up its SendChunks. */
  predicate Clears(t: Token.Step) {
    t.RefusedClear? || t.ExecuteClear?
  }

  /** How many packets a step of the protocol lets go. */
  function Cleared(s: State, t: Token.Step): nat {
    if !Clears(t) then 0
    else if |s.send.sender.batch| <= |s.held| then |s.send.sender.batch|
    else |s.held|
  }

  function Next(s: State, step: Step): State
    requires Enabled(s, step)
  {
    match step
    case Memory(m) => s.(mem := Chunks.Next(s.mem, m))
    case Send(t) =>
      var k := Cleared(s, t);
      s.(send := Token.Next(s.send, t),
         done := s.done + s.held[..k],
         held := s.held[k..] + if t.Insert? then [s.mem.slices[t.chunk].packet] else [],
         wire := s.wire + if t.ExecuteClear? && s.send.pcs[t.t] == Token.Completed(true)
                          then Gathered(s.mem, s.send.sender.batch) else [])
  }

  lemma MoveOver<T>(a: seq<T>, b: seq<T>, k: nat, c: seq<T>)
    requires k <= |b|
    ensures (a + b[..k]) + (b[k..] + c) == a + b + c
  {
    assert b == b[..k] + b[k..];
  }

  /** What is pushed is pushed behind what was, and nothing else changes the list. */
  lemma PushedNext(s: State, step: Step)
    requires Enabled(s, step)
    ensures Pushed(Next(s, step)) == Pushed(s) +
              if step.Send? && step.t.Insert? then [s.mem.slices[step.t.chunk].packet] else []
  {
    SeqEmpty(Pushed(s));
    if step.Send? {
      MoveOver(s.done, s.held, Cleared(s, step.t), if step.t.Insert? then [s.mem.slices[step.t.chunk].packet] else []);
    }
  }

  // ---- the invariant

  /** The held slices are alive, and still for the packets they were pushed with. */
  ghost predicate Kept(mem: Chunks.State, ids: seq<Chunks.Id>, packets: seq<Frame>) {
    && |ids| == |packets|
    && forall i | 0 <= i < |ids| :: ids[i] in mem.slices && mem.slices[ids[i]].packet == packets[i]
  }

  ghost predicate Tracked(s: State) {
    Token.Inv(s.send) && Kept(s.mem, HeldIds(s.send), s.held)
  }

  ghost predicate Inv(s: State) {
    && Chunks.Inv(s.mem) && Tracked(s)
    && (Token.NoLoss(s.send) ==> s.wire == EncodeAll(s.done))
  }

  // ---- the bytes of held slices

  /** The bytes of the slices are those of the packets. */
  ghost predicate Loaded(mem: Chunks.State, ids: seq<Chunks.Id>, packets: seq<Frame>) {
    |ids| == |packets| && forall i | 0 <= i < |ids| :: BytesOf(mem, ids[i]) == Encode(packets[i])
  }

  lemma HeldBytes(mem: Chunks.State, id: Chunks.Id)
    requires Chunks.Inv(mem) && id in mem.slices
    ensures BytesOf(mem, id) == Encode(mem.slices[id].packet)
  {
    assert Chunks.Holds(mem.buffers[mem.slices[id].chunk], mem.slices[id]);
  }

  lemma KeptLoaded(mem: Chunks.State, ids: seq<Chunks.Id>, packets: seq<Frame>)
    requires Chunks.Inv(mem) && Kept(mem, ids, packets)
    ensures Loaded(mem, ids, packets)
  {
    forall i | 0 <= i < |ids| ensures BytesOf(mem, ids[i]) == Encode(packets[i]) {
      HeldBytes(mem, ids[i]);
    }
  }

  lemma SnocOnto<T>(before: seq<T>, s: seq<T>)
    requires s != []
    ensures before + s == before + s[..|s| - 1] + [s[|s| - 1]]
  {
  }

  lemma OneMoreRead(sent: seq<Byte>, gathered: seq<Byte>, before: seq<Frame>, packets: seq<Frame>)
    requires packets != [] && sent + gathered == EncodeAll(before + packets[..|packets| - 1])
    ensures sent + (gathered + Encode(packets[|packets| - 1])) == EncodeAll(before + packets)
  {
    var init, last := packets[..|packets| - 1], packets[|packets| - 1];
    SnocOnto(before, packets);
    EncodeLast(before + init, last);
    SeqAssociates(sent, gathered, Encode(last));
  }

  lemma LoadedPart(mem: Chunks.State, ids: seq<Chunks.Id>, packets: seq<Frame>)
    requires Loaded(mem, ids, packets) && ids != []
    ensures Loaded(mem, ids[..|ids| - 1], packets[..|ids| - 1])
    ensures BytesOf(mem, ids[|ids| - 1]) == Encode(packets[|ids| - 1])
  {
  }

  /** What the kernel reads of loaded slices is the encoding of their packets, after whatever was
      sent before. */
  lemma {:induction false} GatheredOnto(mem: Chunks.State, ids: seq<Chunks.Id>, before: seq<Frame>, packets: seq<Frame>)
    requires Loaded(mem, ids, packets)
    ensures EncodeAll(before) + Gathered(mem, ids) == EncodeAll(before + packets)
  {
    if ids == [] {
      SeqEmpty(before);
      SeqEmpty(EncodeAll(before));
    } else {
      LoadedPart(mem, ids, packets);
      var n := |ids| - 1;
      GatheredOnto(mem, ids[..n], before, packets[..n]);
      OneMoreRead(EncodeAll(before), Gathered(mem, ids[..n]), before, packets);
    }
  }

  // ---- what the steps keep

  lemma KeptPart(mem: Chunks.State, ids: seq<Chunks.Id>, packets: seq<Frame>, k: nat)
    requires Kept(mem, ids, packets) && k <= |ids|
    ensures Kept(mem, ids[..k], packets[..k]) && Kept(mem, ids[k..], packets[k..])
  {
  }

  lemma KeptMore(mem: Chunks.State, ids: seq<Chunks.Id>, packets: seq<Frame>, id: Chunks.Id)
    requires Kept(mem, ids, packets) && id in mem.slices
    ensures Kept(mem, ids + [id], packets + [mem.slices[id].packet])
  {
  }

  lemma MemoryKeeps(s: State, m: Chunks.Step)
    requires Inv(s) && Enabled(s, Memory(m))
    ensures Inv(Next(s, Memory(m)))
  {
    Chunks.NextInv(s.mem, m);
    var ids := HeldIds(s.send);
    forall i | 0 <= i < |ids|
      ensures ids[i] in Chunks.Next(s.mem, m).slices && Chunks.Next(s.mem, m).slices[ids[i]] == s.mem.slices[ids[i]]
    {
      Chunks.SliceStep(s.mem, m, ids[i]);
    }
  }

  lemma HeldMore(s: Token.State, t: Token.Step)
    requires Token.Enabled(s, t) && t.Insert?
    ensures HeldIds(Token.Next(s, t)) == HeldIds(s) + [t.chunk]
  {
    SeqAssociates(s.sender.batch, s.sender.queue, [t.chunk]);
  }

  lemma HeldLess(s: Token.State, t: Token.Step)
    requires Token.Enabled(s, t) && Clears(t)
    ensures HeldIds(Token.Next(s, t)) == HeldIds(s)[|s.sender.batch|..]
  {
    SeqEmpty(s.sender.queue);
  }

  lemma HeldSame(s: Token.State, t: Token.Step)
    requires Token.Inv(s) && Token.Enabled(s, t) && !t.Insert? && !Clears(t)
    ensures HeldIds(Token.Next(s, t)) == HeldIds(s)
  {
    if t.t in s.pcs {
      Token.Alone(s, t.t);
    }
    SeqEmpty(s.sender.queue);
    SeqEmpty(s.sender.batch + s.sender.queue);
  }

  lemma SendKept(s: State, t: Token.Step)
    requires Tracked(s) && Enabled(s, Send(t))
    ensures Kept(s.mem, HeldIds(Token.Next(s.send, t)), Next(s, Send(t)).held)
  {
    SeqEmpty(s.held);
    if t.Insert? {
      HeldMore(s.send, t);
      KeptMore(s.mem, HeldIds(s.send), s.held, t.chunk);
    } else if Clears(t) {
      HeldLess(s.send, t);
      KeptPart(s.mem, HeldIds(s.send), s.held, |s.send.sender.batch|);
      SeqEmpty(s.held[|s.send.sender.batch|..]);
    } else {
      HeldSame(s.send, t);
    }
  }

  lemma SendTracked(s: State, t: Token.Step)
    requires Tracked(s) && Enabled(s, Send(t))
    ensures Tracked(Next(s, Send(t)))
  {
    Token.NextInv(s.send, t);
    SendKept(s, t);
  }

  /** The packets of the batch. */
  ghost function BatchPackets(s: State): seq<Frame>
    requires |s.send.sender.batch| <= |s.held|
  {
    s.held[..|s.send.sender.batch|]
  }

  lemma BatchLoaded(s: State)
    requires Chunks.Inv(s.mem) && Tracked(s)
    ensures |s.send.sender.batch| <= |s.held|
    ensures Loaded(s.mem, s.send.sender.batch, BatchPackets(s))
  {
    var n := |s.send.sender.batch|;
    KeptPart(s.mem, HeldIds(s.send), s.held, n);
    assert HeldIds(s.send)[..n] == s.send.sender.batch;
    KeptLoaded(s.mem, s.send.sender.batch, BatchPackets(s));
  }

  /** What the completed sends and the batch come to. */
  ghost predicate OnWire(s: State) {
    && |s.send.sender.batch| <= |s.held|
    && Gathered(s.mem, s.send.sender.batch) == EncodeAll(BatchPackets(s))
    && (s.wire == EncodeAll(s.done) ==>
          s.wire + Gathered(s.mem, s.send.sender.batch) == EncodeAll(s.done + BatchPackets(s)))
  }

  lemma BatchOnWire(s: State)
    requires Chunks.Inv(s.mem) && Tracked(s)
    ensures OnWire(s)
  {
    BatchLoaded(s);
    LoadedOnWire(s);
  }

  lemma LoadedOnWire(s: State)
    requires |s.send.sender.batch| <= |s.held| && Loaded(s.mem, s.send.sender.batch, BatchPackets(s))
    ensures OnWire(s)
  {
    var batch, packets := s.send.sender.batch, BatchPackets(s);
    GatheredOnto(s.mem, batch, [], packets);
    SeqEmpty(packets);
    SeqEmpty(Gathered(s.mem, batch));
    GatheredOnto(s.mem, batch, s.done, packets);
  }

  /** As long as nothing is lost, a packet leaves m_Send exactly when its bytes were sent. */
  lemma WireKept(s: State, t: Token.Step)
    requires Tracked(s) && OnWire(s) && Enabled(s, Send(t))
    requires Token.NoLoss(s.send) ==> s.wire == EncodeAll(s.done)
    requires Token.NoLoss(Token.Next(s.send, t))
    ensures Next(s, Send(t)).wire == EncodeAll(Next(s, Send(t)).done)
  {
    Token.LossExactly(s.send, t);
    SeqEmpty(s.done);
    SeqEmpty(s.wire);
    if t.ExecuteClear? {
      assert s.send.pcs[t.t] == Token.Completed(true);
    } else {
      assert s.held[..0] == [];
    }
  }

  // ---- runs

  lemma Reaches(count: nat, steps: seq<Step>)
    requires Runs(Next, Init(count), steps)
    ensures Inv(After(Next, Init(count), steps))
  {
    Chunks.InitInv(count);
    forall s, step | Inv(s) && Next.requires(s, step) ensures Inv(Next(s, step)) {
      match step
      case Memory(m) =>
        MemoryKeeps(s, m);
      case Send(t) =>
        SendTracked(s, t);
        BatchOnWire(s);
        if Token.NoLoss(Next(s, step).send) {
          WireKept(s, t);
        }
    }
    RunInv(Next, Inv, Init(count), steps);
  }

  /** The steps of the send protocol alone. */
  function SendSteps(steps: seq<Step>): seq<Token.Step> {
    if steps == [] then []
    else (if steps[0].Send? then [steps[0].t] else []) + SendSteps(steps[1..])
  }

  /** Seen from the protocol, a run is a run of the protocol. */
  lemma {:induction false} SendRuns(s: State, steps: seq<Step>)
    requires Runs(Next, s, steps)
    ensures Runs(Token.Next, s.send, SendSteps(steps))
    ensures After(Token.Next, s.send, SendSteps(steps)) == After(Next, s, steps).send
    decreases |steps|
  {
    if steps != [] {
      var rest := SendSteps(steps[1..]);
      SendRuns(Next(s, steps[0]), steps[1..]);
      if steps[0].Send? {
        RunCons(Token.Next, s.send, steps[0].t, rest);
      } else {
        SeqEmpty(rest);
      }
    }
  }

  /** Main result on the bytes. Whatever the threads do that make and drop packets meanwhile: the
      bytes that m_Send points at are always those of the packets that were pushed, in push order;
      and if no send fails, what has been sent is the encoding of the first of them, and of all of
      them once the flag is clear. */
  lemma BytesSent(count: nat, steps: seq<Step>)
    requires Runs(Next, Init(count), steps)
    ensures OnWire(After(Next, Init(count), steps))
    ensures var s := After(Next, Init(count), steps);
            Token.NoFailure(SendSteps(steps)) ==>
              s.wire == EncodeAll(s.done) && (!s.send.sender.flag ==> s.done == Pushed(s))
  {
    Reaches(count, steps);
    var s := After(Next, Init(count), steps);
    BatchOnWire(s);
    if Token.NoFailure(SendSteps(steps)) {
      SendRuns(Init(count), steps);
      Token.NothingStranded(SendSteps(steps));
      SeqEmpty(s.done);
      if !s.send.sender.flag {
        Token.Nobody(s.send);
      }
    }
  }
}
