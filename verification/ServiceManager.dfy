/** Making a packet: the thread-local chunk, the pool behind it and the two attempts of
    MakeSendPacket. */
module ServiceManaging {
  import opened Wire
  import opened Pooling
  import opened Sending
  import opened SharedChunks
  import opened StepRuns

  // ---- one call as a value

  /** The deleter runs if that was the last reference. */
  function Collect(s: State, chunk: Option<nat>): State {
    if chunk.Some? && Enabled(s, Recycle(chunk.value)) then Next(s, Recycle(chunk.value)) else s
  }

  function LocalOf(s: State, t: Thread): Option<nat> {
    if t in s.locals then Some(s.locals[t]) else None
  }

  /** A chunk is popped and assigned to the thread-local, or the thread-local becomes null. */
  function Fetch(s: State, t: Thread): State
    requires t !in s.temps
  {
    var popped := Next(s, PopChunk(t));
    if t in popped.temps then Next(popped, Install(t)) else popped
  }

  /** `LSendBuffer = GetSendBuffer()`: pop, assign, let go of the old chunk, in that order. */
  function Renew(s: State, t: Thread): State
    requires t !in s.temps
  {
    Collect(Fetch(s, t), LocalOf(s, t))
  }

  predicate Room(s: State, t: Thread, data: seq<Byte>) {
    && t in s.locals && s.locals[t] < |s.buffers|
    && |s.buffers[s.locals[t]].bytes| == CHUNK_SIZE
    && HasRoom(s.buffers[s.locals[t]].pointer, HEADER_SIZE + |data|)
  }

  function TryCopy(s: State, t: Thread, id: Id, kind: Word, data: seq<Byte>): (bool, State)
    requires id !in s.slices
  {
    if Room(s, t, data) then (true, Next(s, Copy(t, id, Packet(kind, data)))) else (false, s)
  }

  /** From the first CopyBuffer on. */
  function Attempt(s: State, t: Thread, id: Id, kind: Word, data: seq<Byte>): (bool, State)
    requires t !in s.temps && id !in s.slices
  {
    if t !in s.locals then (false, s)
    else if Room(s, t, data) then TryCopy(s, t, id, kind, data)
    else TryCopy(Renew(s, t), t, id, kind, data)
  }

  function MakePacket(s: State, t: Thread, id: Id, kind: Word, data: seq<Byte>): (bool, State)
    requires t !in s.temps && id !in s.slices
  {
    Attempt(if t in s.locals then s else Renew(s, t), t, id, kind, data)
  }

  lemma FetchInv(s: State, t: Thread)
    requires Inv(s) && t !in s.temps
    ensures Inv(Fetch(s, t))
  {
    NextInv(s, PopChunk(t));
    var popped := Next(s, PopChunk(t));
    if t in popped.temps {
      NextInv(popped, Install(t));
    }
  }

  /** What a thread fetches is an empty chunk; it gets one unless the pool is empty. */
  lemma FetchFresh(s: State, t: Thread)
    requires Inv(s) && t !in s.temps
    ensures t in Fetch(s, t).locals <==> s.pool.stack != []
    ensures FreshLocal(Fetch(s, t), t)
  {
  }

  /** The top of the pool becomes the thread's chunk; if there is none, the thread has none. */
  lemma FetchExact(s: State, t: Thread)
    requires t !in s.temps && s.pool.Valid()
    ensures var f := Fetch(s, t);
            && f.buffers == s.buffers && f.temps == s.temps && f.slices == s.slices
            && (if s.pool.stack == [] then f.pool == s.pool && f.locals == s.locals - {t}
                else var top := s.pool.stack[|s.pool.stack| - 1];
                     && f.locals == s.locals[t := top] && f.pool.use == s.pool.use[top := true]
                     && f.pool.stack + [top] == s.pool.stack)
  {
    PopExact(s.pool);
  }

  predicate HasLocal(s: State, t: Thread) {
    t in s.locals && s.locals[t] < |s.buffers| && |s.buffers[s.locals[t]].bytes| == CHUNK_SIZE
  }

  /** Collecting never takes away a chunk somebody has. */
  lemma CollectKeeps(s: State, chunk: Option<nat>)
    requires Inv(s)
    ensures Inv(Collect(s, chunk))
    ensures forall t | t in s.locals :: HasLocal(Collect(s, chunk), t) && Collect(s, chunk).buffers[s.locals[t]] == s.buffers[s.locals[t]]
  {
    if chunk.Some? && Enabled(s, Recycle(chunk.value)) {
      NextInv(s, Recycle(chunk.value));
    }
  }

  lemma RenewSame(s: State, t: Thread)
    requires t !in s.temps
    ensures Renew(s, t).temps == s.temps && Renew(s, t).slices == s.slices
  {
  }

  ghost predicate FreshLocal(s: State, t: Thread) {
    t in s.locals ==> HasLocal(s, t) && s.buffers[s.locals[t]].pointer == 0
  }

  lemma CollectFresh(s: State, chunk: Option<nat>, t: Thread)
    requires Inv(s) && FreshLocal(s, t)
    ensures Inv(Collect(s, chunk)) && FreshLocal(Collect(s, chunk), t)
    ensures t in Collect(s, chunk).locals <==> t in s.locals
  {
    CollectKeeps(s, chunk);
  }

  lemma RenewFresh(s: State, t: Thread)
    requires Inv(s) && t !in s.temps
    ensures Inv(Renew(s, t)) && FreshLocal(Renew(s, t), t)
    ensures t in Renew(s, t).locals <==> s.pool.stack != []
  {
    FetchInv(s, t);
    FetchFresh(s, t);
    CollectFresh(Fetch(s, t), LocalOf(s, t), t);
  }

  /** A chunk that is out of the pool is back in it, wiped, as soon as nothing refers to it. */
  lemma CollectExact(s: State, c: nat)
    requires PoolOk(s) && c < |s.buffers| && s.pool.use[c]
    ensures var r := Collect(s, Some(c));
            && c < |r.buffers|
            && (c in r.pool.stack <==> Unreferenced(s, c))
            && (Unreferenced(s, c) ==> r.buffers[c] == EmptyBuffer())
  {
    if Unreferenced(s, c) {
      var q := s.pool.Pushed(c).1;
      assert q.stack[|s.pool.stack|] == c;
    }
  }

  /** A thread, or another SendChunk than `id`, points at the chunk. */
  ghost predicate OthersPoint(s: State, chunk: nat, id: Id) {
    || (exists t :: t in s.locals && s.locals[t] == chunk)
    || (exists t :: t in s.temps && s.temps[t] == chunk)
    || (exists i :: i in s.slices && i != id && s.slices[i].chunk == chunk)
  }

  lemma DropForgets(s: State, id: Id)
    requires id in s.slices
    ensures Unreferenced(Next(s, Drop(id)), s.slices[id].chunk) <==> !OthersPoint(s, s.slices[id].chunk, id)
  {
    var d, c := Next(s, Drop(id)), s.slices[id].chunk;
    if i :| i in s.slices && i != id && s.slices[i].chunk == c {
      assert i in d.slices && d.slices[i].chunk == c;
    }
  }

  lemma CollectSame(s: State, chunk: Option<nat>)
    ensures Collect(s, chunk).slices == s.slices && Collect(s, chunk).locals == s.locals
  {
  }

  lemma CollectInv(s: State, chunk: Option<nat>)
    requires Inv(s)
    ensures Inv(Collect(s, chunk))
  {
    CollectKeeps(s, chunk);
  }

  /** Collecting a chunk that is out touches nothing else. */
  lemma CollectOne(s: State, c: nat)
    requires Inv(s) && c < |s.buffers| && s.pool.use[c]
    ensures var r := Collect(s, Some(c));
            && r.slices == s.slices && r.locals == s.locals && c < |r.buffers|
            && (c in r.pool.stack <==> Unreferenced(s, c))
            && (c in r.pool.stack ==> r.buffers[c] == EmptyBuffer())
  {
    CollectSame(s, Some(c));
    CollectExact(s, c);
  }

  /** A dropped SendChunk is gone, and no other. The last one of a chunk that no thread writes to
      any more brings it back to the pool, wiped; any other leaves it out. */
  lemma LastDropRecycles(s: State, id: Id)
    requires Inv(s) && id in s.slices
    ensures var c := s.slices[id].chunk; var r := Collect(Next(s, Drop(id)), Some(c));
            && Inv(r) && r.slices == s.slices - {id} && r.locals == s.locals && c < |r.buffers|
            && (c in r.pool.stack <==> !OthersPoint(s, c, id))
            && (c in r.pool.stack ==> r.buffers[c] == EmptyBuffer())
  {
    NextInv(s, Drop(id));
    CollectInv(Next(s, Drop(id)), Some(s.slices[id].chunk));
    CollectOne(Next(s, Drop(id)), s.slices[id].chunk);
    DropForgets(s, id);
  }

  lemma ExitForgets(s: State, t: Thread)
    requires Inv(s) && t in s.locals && t !in s.temps
    ensures Unreferenced(Next(s, ExitThread(t)), s.locals[t])
       <==> forall id | id in s.slices :: s.slices[id].chunk != s.locals[t]
  {
  }

  /** A thread that ends has no chunk any more; the one it had is back in the pool, wiped, exactly
      when no SendChunk points at it. */
  lemma ExitRecycles(s: State, t: Thread)
    requires Inv(s) && t in s.locals && t !in s.temps
    ensures var c := s.locals[t]; var r := Collect(Next(s, ExitThread(t)), LocalOf(s, t));
            && r.locals == s.locals - {t} && r.slices == s.slices && c < |r.buffers|
            && (c in r.pool.stack <==> forall id | id in s.slices :: s.slices[id].chunk != c)
            && (c in r.pool.stack ==> r.buffers[c] == EmptyBuffer())
  {
    NextInv(s, ExitThread(t));
    CollectOne(Next(s, ExitThread(t)), s.locals[t]);
    ExitForgets(s, t);
  }

  /** One more slice, holding the packet; the others untouched. */
  predicate Added(s: State, r: State, id: Id, packet: Packet) {
    && id !in s.slices && r.slices.Keys == s.slices.Keys + {id} && r.slices - {id} == s.slices
    && r.slices[id].packet == packet && r.slices[id].size == 4 + |packet.body|
  }

  lemma TryCopyAdds(s: State, t: Thread, id: Id, kind: Word, data: seq<Byte>)
    requires id !in s.slices && Room(s, t, data)
    ensures Added(s, TryCopy(s, t, id, kind, data).1, id, Packet(kind, data))
  {
  }

  /** The copy written out. */
  lemma TryCopyIs(s: State, t: Thread, id: Id, kind: Word, data: seq<Byte>)
    requires HasLocal(s, t) && id !in s.slices && s.buffers[s.locals[t]].pointer <= CHUNK_SIZE
    ensures var c := s.locals[t]; var b := s.buffers[c];
            TryCopy(s, t, id, kind, data) ==
              if !HasRoom(b.pointer, HEADER_SIZE + |data|) then (false, s)
              else (true, s.(buffers := s.buffers[c := Write(b, Encode(Packet(kind, data)))],
                             slices := s.slices[id := Slice(c, b.pointer, HEADER_SIZE + |data|, Packet(kind, data))]))
  {
  }

  /** The thread's own chunk has room for header and payload. */
  predicate OwnRoom(s: State, t: Thread, size: nat) {
    t in s.locals && s.locals[t] < |s.buffers| && s.buffers[s.locals[t]].pointer + 4 + size <= 40960
  }

  lemma RoomIsOwn(s: State, t: Thread, data: seq<Byte>)
    requires Inv(s)
    ensures Room(s, t, data) <==> OwnRoom(s, t, |data|)
  {
  }

  /** What a call did that could use the chunk the thread has. */
  predicate Appended(s: State, r: State, t: Thread, id: Id)
    requires id in r.slices && t in s.locals && s.locals[t] < |s.buffers|
  {
    && r.locals == s.locals && r.pool == s.pool
    && r.slices[id].chunk == s.locals[t] && r.slices[id].at == s.buffers[s.locals[t]].pointer
  }

  /** What a call did that needed another one: it took the top of the pool. */
  predicate Started(s: State, r: State, t: Thread, id: Id)
    requires id in r.slices && s.pool.stack != []
  {
    var top := s.pool.stack[|s.pool.stack| - 1];
    r.locals == s.locals[t := top] && r.slices[id].chunk == top && r.slices[id].at == 0
  }

  lemma AppendsOwn(s: State, t: Thread, id: Id, kind: Word, data: seq<Byte>)
    requires id !in s.slices && Room(s, t, data)
    ensures var r := TryCopy(s, t, id, kind, data).1;
            Added(s, r, id, Packet(kind, data)) && Appended(s, r, t, id)
  {
    TryCopyAdds(s, t, id, kind, data);
  }

  lemma RenewTakesTop(s: State, t: Thread)
    requires Inv(s) && t !in s.temps && s.pool.stack != []
    ensures Renew(s, t).locals == s.locals[t := s.pool.stack[|s.pool.stack| - 1]]
  {
    FetchExact(s, t);
  }

  lemma StartsNew(s: State, t: Thread, id: Id, kind: Word, data: seq<Byte>)
    requires Inv(s) && t !in s.temps && id !in s.slices && s.pool.stack != [] && 4 + |data| <= 40960
    ensures Room(Renew(s, t), t, data)
    ensures var (ok, r) := TryCopy(Renew(s, t), t, id, kind, data);
            ok && Added(s, r, id, Packet(kind, data)) && Started(s, r, t, id)
  {
    RenewSame(s, t);
    RenewFresh(s, t);
    RenewTakesTop(s, t);
    AppendsOwn(Renew(s, t), t, id, kind, data);
  }

  lemma StartsNothing(s: State, t: Thread, id: Id, kind: Word, data: seq<Byte>)
    requires Inv(s) && t !in s.temps && id !in s.slices && (s.pool.stack == [] || 4 + |data| > 40960)
    ensures Renew(s, t).slices == s.slices && !Room(Renew(s, t), t, data)
  {
    RenewSame(s, t);
    RenewFresh(s, t);
  }

  /** What a second attempt comes to, with whatever chunk the pool has. */
  lemma RetryExact(s: State, t: Thread, id: Id, kind: Word, data: seq<Byte>)
    requires Inv(s) && t !in s.temps && id !in s.slices
    ensures Renew(s, t).slices == s.slices
    ensures var (ok, r) := TryCopy(Renew(s, t), t, id, kind, data);
            && (ok <==> s.pool.stack != [] && 4 + |data| <= 40960)
            && (if ok then Added(s, r, id, Packet(kind, data)) && Started(s, r, t, id) else r.slices == s.slices)
  {
    if s.pool.stack != [] && 4 + |data| <= 40960 {
      StartsNew(s, t, id, kind, data);
      RenewSame(s, t);
    } else {
      StartsNothing(s, t, id, kind, data);
    }
  }

  lemma MakeWithout(s: State, t: Thread, id: Id, kind: Word, data: seq<Byte>)
    requires Inv(s) && t !in s.temps && id !in s.slices && t !in s.locals
    ensures var (ok, r) := MakePacket(s, t, id, kind, data);
            && (ok <==> s.pool.stack != [] && 4 + |data| <= 40960)
            && (if ok then Added(s, r, id, Packet(kind, data)) && Started(s, r, t, id) else r.slices == s.slices)
  {
    RenewSame(s, t);
    RenewFresh(s, t);
    RetryExact(s, t, id, kind, data);
    if t in Renew(s, t).locals && !Room(Renew(s, t), t, data) {
      StartsNothing(Renew(s, t), t, id, kind, data);
    }
  }

  /** A packet is made exactly when the thread's chunk has room for it, or the pool has a chunk
      left and the packet fits an empty one. It goes behind what is in the thread's chunk, or to the
      front of the pool's top chunk, which then is the thread's. It is what the caller asked for,
      and nothing that was alive has changed. */
  lemma MakePacketExact(s: State, t: Thread, id: Id, kind: Word, data: seq<Byte>)
    requires Inv(s) && t !in s.temps && id !in s.slices
    ensures var (ok, r) := MakePacket(s, t, id, kind, data);
            && (ok <==> OwnRoom(s, t, |data|) || (s.pool.stack != [] && 4 + |data| <= 40960))
            && (if !ok then r.slices == s.slices
                else Added(s, r, id, Packet(kind, data))
                     && if OwnRoom(s, t, |data|) then Appended(s, r, t, id) else Started(s, r, t, id))
  {
    RoomIsOwn(s, t, data);
    if t !in s.locals {
      MakeWithout(s, t, id, kind, data);
    } else if Room(s, t, data) {
      AppendsOwn(s, t, id, kind, data);
    } else {
      RetryExact(s, t, id, kind, data);
    }
  }

  // ---- a call is a run of atomic steps

  lemma StepRun(s: State, step: Step)
    requires Enabled(s, step)
    ensures Runs(Next, s, [step]) && After(Next, s, [step]) == Next(s, step)
  {
    RunOne(Next, s, step);
  }

  lemma CollectRun(s: State, chunk: Option<nat>) returns (steps: seq<Step>)
    ensures Runs(Next, s, steps) && After(Next, s, steps) == Collect(s, chunk)
  {
    steps := [];
    if chunk.Some? && Enabled(s, Recycle(chunk.value)) {
      StepRun(s, Recycle(chunk.value));
      steps := [Recycle(chunk.value)];
    }
  }

  lemma FetchRun(s: State, t: Thread) returns (steps: seq<Step>)
    requires t !in s.temps
    ensures Runs(Next, s, steps) && After(Next, s, steps) == Fetch(s, t)
  {
    var popped := Next(s, PopChunk(t));
    var rest := [];
    if t in popped.temps {
      StepRun(popped, Install(t));
      rest := [Install(t)];
    }
    RunCons(Next, s, PopChunk(t), rest);
    steps := [PopChunk(t)] + rest;
  }

  lemma RenewRun(s: State, t: Thread) returns (steps: seq<Step>)
    requires t !in s.temps
    ensures Runs(Next, s, steps) && After(Next, s, steps) == Renew(s, t)
  {
    var fetch := FetchRun(s, t);
    var collect := CollectRun(Fetch(s, t), LocalOf(s, t));
    RunJoin(Next, s, fetch, collect);
    steps := fetch + collect;
  }

  lemma TryRun(s: State, t: Thread, id: Id, kind: Word, data: seq<Byte>) returns (steps: seq<Step>)
    requires id !in s.slices
    ensures Runs(Next, s, steps) && After(Next, s, steps) == TryCopy(s, t, id, kind, data).1
  {
    steps := [];
    if Room(s, t, data) {
      StepRun(s, Copy(t, id, Packet(kind, data)));
      steps := [Copy(t, id, Packet(kind, data))];
    }
  }

  lemma AttemptRun(s: State, t: Thread, id: Id, kind: Word, data: seq<Byte>) returns (steps: seq<Step>)
    requires t !in s.temps && id !in s.slices
    ensures Runs(Next, s, steps) && After(Next, s, steps) == Attempt(s, t, id, kind, data).1
  {
    if t !in s.locals {
      steps := [];
    } else if Room(s, t, data) {
      steps := TryRun(s, t, id, kind, data);
    } else {
      RenewSame(s, t);
      var renew := RenewRun(s, t);
      var try := TryRun(Renew(s, t), t, id, kind, data);
      RunJoin(Next, s, renew, try);
      steps := renew + try;
    }
  }

  /** A whole MakeSendPacket that nobody interferes with is a run of steps, so that every theorem
      about runs is one about calls. */
  lemma MakePacketRun(s: State, t: Thread, id: Id, kind: Word, data: seq<Byte>) returns (steps: seq<Step>)
    requires t !in s.temps && id !in s.slices
    ensures Runs(Next, s, steps) && After(Next, s, steps) == MakePacket(s, t, id, kind, data).1
  {
    if t in s.locals {
      steps := AttemptRun(s, t, id, kind, data);
    } else {
      RenewSame(s, t);
      var renew := RenewRun(s, t);
      var attempt := AttemptRun(Renew(s, t), t, id, kind, data);
      RunJoin(Next, s, renew, attempt);
      steps := renew + attempt;
    }
  }

  /** So the call keeps the invariant. */
  lemma MakePacketInv(s: State, t: Thread, id: Id, kind: Word, data: seq<Byte>)
    requires Inv(s) && t !in s.temps && id !in s.slices
    ensures Inv(MakePacket(s, t, id, kind, data).1)
  {
    var steps := MakePacketRun(s, t, id, kind, data);
    Reaches(s, steps);
  }

  // ---- the object

  ghost function ViewOf(b: SendBuffer): Buffer
    reads b, b.chunk
  {
    Buffer(b.chunk[..], b.pointer)
  }

  /** CopyBuffer, seen on the buffer's value. */
  method FillBuffer(b: SendBuffer, kind: Word, data: seq<Byte>) returns (placed: Placed)
    requires b.Valid()
    modifies b, b.chunk
    ensures b.Valid()
    ensures placed == if HasRoom(old(b.pointer), HEADER_SIZE + |data|)
                      then Placed(old(b.pointer), HEADER_SIZE + |data|) else NoRoom
    ensures placed.NoRoom? ==> ViewOf(b) == old(ViewOf(b))
    ensures placed.Placed? ==> |data| < 0x1_0000 && ViewOf(b) == Write(old(ViewOf(b)), Encode(Packet(kind, data)))
  {
    placed := b.CopyBuffer(kind, data);
  }

  ghost predicate Apart(storage: seq<SendBuffer>) {
    forall i, j | 0 <= i < j < |storage| :: storage[i] != storage[j] && storage[i].chunk != storage[j].chunk
  }

  class ServiceManager {
    const pool: ObjectPool           // m_SendBuffer: which chunks are out
    const storage: seq<SendBuffer>   // the chunks themselves
    var locals: map<Thread, nat>     // LSendBuffer of every thread
    var slices: map<Id, Slice>       // the SendChunks alive anywhere
    var nextId: Id
    ghost var buffers: seq<Buffer>

    ghost function View(): State
      reads this`buffers, this`locals, this`slices, pool, pool.use
    {
      State(pool.View(), buffers, map[], locals, slices)
    }

    /** The heap holds what the view says. What every view satisfies is `Inv`: it holds of the
        initial one, and the lemmas above show that the calls below keep it. */
    ghost predicate Stored()
      reads this`buffers, pool`maxSize, storage, set b | b in storage :: b.chunk
    {
      && pool.maxSize == |storage| == |buffers| && Apart(storage)
      && (forall i | 0 <= i < |storage| :: storage[i].Valid() && ViewOf(storage[i]) == buffers[i])
    }

    ghost predicate Bounded()
      reads this`locals, this`slices, this`nextId
    {
      && (forall t | t in locals :: locals[t] < |storage|)
      && (forall id | id in slices :: id < nextId && slices[id].chunk < |storage|)
    }

    ghost predicate Valid()
      reads this, pool, pool.use, storage, set b | b in storage :: b.chunk
    {
      pool.Valid() && Stored() && Bounded()
    }

    constructor (count: nat)
      ensures Valid() && View() == Init(count) && Inv(View())
    {
      var chunks := new ObjectPool();
      chunks.InitObjectPool(count);
      var made := MakeStorage(count);
      InitInv(count);
      pool, storage := chunks, made;
      locals, slices, nextId := map[], map[], 0;
      buffers := seq(count, i => EmptyBuffer());
    }

    method WipeChunk(c: nat)
      requires Stored() && c < |storage|
      modifies this`buffers, storage[c], storage[c].chunk
      ensures Stored() && buffers == old(buffers)[c := EmptyBuffer()]
    {
      storage[c].Reset();
      buffers := buffers[c := EmptyBuffer()];
      assert ViewOf(storage[c]) == EmptyBuffer();
    }

    method FillChunk(c: nat, kind: Word, data: seq<Byte>) returns (placed: Placed)
      requires Stored() && c < |storage|
      modifies this`buffers, storage[c], storage[c].chunk
      ensures Stored() && |old(buffers)[c].bytes| == CHUNK_SIZE
      ensures placed == if HasRoom(old(buffers)[c].pointer, HEADER_SIZE + |data|)
                        then Placed(old(buffers)[c].pointer, HEADER_SIZE + |data|) else NoRoom
      ensures placed.NoRoom? ==> buffers == old(buffers)
      ensures placed.Placed? ==>
                && |data| < 0x1_0000
                && buffers == old(buffers)[c := Write(old(buffers)[c], Encode(Packet(kind, data)))]
    {
      assert ViewOf(storage[c]) == buffers[c];
      placed := FillBuffer(storage[c], kind, data);
      forall i | 0 <= i < |storage| && i != c ensures storage[i].Valid() && ViewOf(storage[i]) == buffers[i] {
        assert storage[i] != storage[c] && storage[i].chunk != storage[c].chunk;
      }
      buffers := buffers[c := ViewOf(storage[c])];
    }

    /** No thread-local and no SendChunk points at the chunk. */
    predicate Forgotten(c: nat)
      reads this`locals, this`slices
    {
      (forall t | t in locals :: locals[t] != c) && (forall id | id in slices :: slices[id].chunk != c)
    }

    /** The deleter of a SendBufferRef, if that was the last: the pool takes the chunk back and
        wipes it. */
    method Release(c: nat)
      requires Valid() && c < |storage|
      modifies this`buffers, pool, pool.use, storage, set b | b in storage :: b.chunk
      ensures Valid() && pool.use == old(pool.use)
      ensures View() == Collect(old(View()), Some(c))
    {
      if Forgotten(c) {
        var pushed := pool.Push(c);
        if pushed {
          WipeChunk(c);
        }
      }
    }

    method FetchChunk(t: Thread)
      requires Valid()
      modifies this`locals, pool, pool.use
      ensures Valid() && pool.use == old(pool.use)
      ensures View() == Fetch(old(View()), t)
    {
      PopExact(pool.View());
      var got := pool.Pop();
      if got.Some? {
        locals := locals[t := got.value];
      } else {
        locals := locals - {t};
      }
    }

    method GetSendBuffer(t: Thread)
      requires Valid()
      modifies this`buffers, this`locals, pool, pool.use, storage, set b | b in storage :: b.chunk
      ensures Valid() && pool.use == old(pool.use)
      ensures View() == Renew(old(View()), t)
    {
      var previous := if t in locals then Some(locals[t]) else None;
      FetchChunk(t);
      if previous.Some? {
        Release(previous.value);
      }
    }

    method TryCopyBuffer(t: Thread, kind: Word, data: seq<Byte>) returns (ok: bool)
      requires Valid() && t in locals
      modifies this`buffers, this`slices, this`nextId, storage, set b | b in storage :: b.chunk
      ensures Valid()
      ensures (ok, View()) == TryCopy(old(View()), t, old(nextId), kind, data)
      ensures nextId == if ok then old(nextId) + 1 else old(nextId)
      ensures ok ==> old(nextId) in slices
    {
      var c := locals[t];
      assert ViewOf(storage[c]) == buffers[c];
      TryCopyIs(View(), t, nextId, kind, data);
      var placed := FillChunk(c, kind, data);
      ok := placed.Placed?;
      if ok {
        slices := slices[nextId := Slice(c, placed.at, placed.size, Packet(kind, data))];
        nextId := nextId + 1;
      }
    }

    /** The second attempt, with a new chunk. */
    method RetryCopy(t: Thread, kind: Word, data: seq<Byte>) returns (ok: bool)
      requires Valid()
      modifies this, pool, pool.use, storage, set b | b in storage :: b.chunk
      ensures Valid() && pool.use == old(pool.use)
      ensures Renew(old(View()), t).slices == old(slices)
      ensures (ok, View()) == TryCopy(Renew(old(View()), t), t, old(nextId), kind, data)
      ensures nextId == if ok then old(nextId) + 1 else old(nextId)
      ensures ok ==> old(nextId) in slices
    {
      RenewSame(View(), t);
      GetSendBuffer(t);
      ok := false;
      if t in locals {
        ok := TryCopyBuffer(t, kind, data);
      }
    }

    /** From the first CopyBuffer on. */
    method AttemptCopy(t: Thread, kind: Word, data: seq<Byte>) returns (ok: bool)
      requires Valid() && t in locals
      modifies this, pool, pool.use, storage, set b | b in storage :: b.chunk
      ensures Valid() && pool.use == old(pool.use)
      ensures (ok, View()) == Attempt(old(View()), t, old(nextId), kind, data)
      ensures nextId == if ok then old(nextId) + 1 else old(nextId)
      ensures ok ==> old(nextId) in slices
    {
      ghost var before := View();
      ok := TryCopyBuffer(t, kind, data);
      if !ok {
        assert View() == before;
        ok := RetryCopy(t, kind, data);
      }
    }

    method MakeSendPacket(t: Thread, kind: Word, data: seq<Byte>) returns (chunk: Option<Slice>, ok: bool)
      requires Valid()
      modifies this, pool, pool.use, storage, set b | b in storage :: b.chunk
      ensures Valid() && pool.use == old(pool.use)
      ensures (ok, View()) == MakePacket(old(View()), t, old(nextId), kind, data)
      ensures ok ==> old(nextId) in slices && chunk == Some(slices[old(nextId)])
      ensures !ok ==> chunk == None
    {
      chunk, ok := None, false;
      if t !in locals {
        GetSendBuffer(t);
      }
      var id := nextId;
      if t in locals {
        ok := AttemptCopy(t, kind, data);
      }
      if ok {
        chunk := Some(slices[id]);
      }
    }

    /** The last copy of a SendChunk is gone. */
    method DropSlice(id: Id)
      requires Valid() && id in slices
      modifies this`buffers, this`slices, pool, pool.use, storage, set b | b in storage :: b.chunk
      ensures Valid() && pool.use == old(pool.use)
      ensures View() == Collect(Next(old(View()), Drop(id)), Some(old(slices)[id].chunk))
    {
      var c := slices[id].chunk;
      slices := slices - {id};
      Release(c);
    }

    /** A thread ends, and its thread-local with it. */
    method EndThread(t: Thread)
      requires Valid()
      modifies this`buffers, this`locals, pool, pool.use, storage, set b | b in storage :: b.chunk
      ensures Valid() && pool.use == old(pool.use)
      ensures View() == Collect(Next(old(View()), ExitThread(t)), LocalOf(old(View()), t))
    {
      var previous := if t in locals then Some(locals[t]) else None;
      locals := locals - {t};
      if previous.Some? {
        Release(previous.value);
      }
    }
  }

  method MakeStorage(count: nat) returns (made: seq<SendBuffer>)
    ensures |made| == count
    ensures forall i | 0 <= i < count :: fresh(made[i]) && fresh(made[i].chunk)
    ensures forall i | 0 <= i < count :: made[i].Valid() && ViewOf(made[i]) == EmptyBuffer()
    ensures Apart(made)
  {
    made := [];
    for k := 0 to count
      invariant |made| == k
      invariant forall i | 0 <= i < k :: fresh(made[i]) && fresh(made[i].chunk)
      invariant forall i | 0 <= i < k :: made[i].Valid() && ViewOf(made[i]) == EmptyBuffer()
      invariant Apart(made)
    {
      var b := new SendBuffer();
      assert b.chunk[..] == EmptyBuffer().bytes;
      made := made + [b];
    }
  }
}
