/** The shared send chunks: every thread bumps through a chunk of its own, the slices it hands
    out are read by others for as long as they like, and a chunk goes back to the pool when the
    last shared_ptr to it is gone. A step is one atomic action of one thread; any number of
    threads may interleave. */
module SharedChunks {
  import opened Basics
  import opened Wire
  import opened Pooling
  import opened Sending
  import opened StepRuns

  type Thread = nat
  type Id = nat

  /** A SendBuffer by value. */
  datatype Buffer = Buffer(bytes: seq<Byte>, pointer: nat)

  /** A SendChunk: where its bytes are, and the packet it was made for. One slice stands for all
      copies of one SendChunk; it is dropped when the last copy is. */
  datatype Slice = Slice(chunk: nat, at: nat, size: nat, packet: Frame)

  datatype State = State(
    pool: Pool,
    buffers: seq<Buffer>,
    temps: map<Thread, nat>,   // chunks popped but not yet assigned to the thread-local
    locals: map<Thread, nat>,  // LSendBuffer of every thread
    slices: map<Id, Slice>)

  datatype Step =
    | PopChunk(t: Thread)
    | Install(t: Thread)
    | Copy(t: Thread, id: Id, packet: Frame)
    | Drop(id: Id)
    | ExitThread(t: Thread)
    | Recycle(chunk: nat)

  function EmptyBuffer(): (b: Buffer)
    ensures |b.bytes| == CHUNK_SIZE
  {
    Buffer(seq(CHUNK_SIZE, i => 0), 0)
  }

  function Init(count: nat): State {
    State(Fresh(count), seq(count, i => EmptyBuffer()), map[], map[], map[])
  }

  /** No shared_ptr to the chunk is left: this is when its deleter runs. */
  predicate Unreferenced(s: State, chunk: nat) {
    && (forall t | t in s.locals :: s.locals[t] != chunk)
    && (forall t | t in s.temps :: s.temps[t] != chunk)
    && (forall id | id in s.slices :: s.slices[id].chunk != chunk)
  }

  predicate Enabled(s: State, step: Step) {
    match step
    case PopChunk(t) => t !in s.temps
    case Install(t) => t in s.temps
    case Copy(t, id, packet) =>
      && t in s.locals && id !in s.slices && s.locals[t] < |s.buffers|
      && HasRoom(s.buffers[s.locals[t]].pointer, |Encode(packet)|)
      && |s.buffers[s.locals[t]].bytes| == CHUNK_SIZE
    case Drop(id) => id in s.slices
    case ExitThread(t) => t !in s.temps
    case Recycle(chunk) => chunk < |s.buffers| && Unreferenced(s, chunk) && s.pool.Pushed(chunk).0
  }

  function Write(b: Buffer, data: seq<Byte>): Buffer
    requires b.pointer + |data| <= |b.bytes|
  {
    Buffer(Overwritten(b.bytes, b.pointer, data), b.pointer + |data|)
  }

  function Next(s: State, step: Step): State
    requires Enabled(s, step)
  {
    match step
    case PopChunk(t) =>
      var (got, rest) := s.pool.Popped();
      if got.Some? then s.(pool := rest, temps := s.temps[t := got.value]) else s.(locals := s.locals - {t})
    case Install(t) => s.(locals := s.locals[t := s.temps[t]], temps := s.temps - {t})
    case Copy(t, id, packet) =>
      var c, data := s.locals[t], Encode(packet);
      s.(buffers := s.buffers[c := Write(s.buffers[c], data)],
         slices := s.slices[id := Slice(c, s.buffers[c].pointer, |data|, packet)])
    case Drop(id) => s.(slices := s.slices - {id})
    case ExitThread(t) => s.(locals := s.locals - {t})
    case Recycle(chunk) => s.(pool := s.pool.Pushed(chunk).1, buffers := s.buffers[chunk := EmptyBuffer()])
  }

  // ---- the invariant

  ghost predicate PoolOk(s: State) {
    && s.pool.Valid() && |s.pool.use| == |s.buffers|
    && (forall c | 0 <= c < |s.buffers| :: |s.buffers[c].bytes| == CHUNK_SIZE && s.buffers[c].pointer <= CHUNK_SIZE)
    && (forall c | 0 <= c < |s.buffers| && !s.pool.use[c] :: s.buffers[c].pointer == 0)
  }

  /** Every chunk a thread has is out of the pool, and empty until it is installed. */
  ghost predicate InUse(s: State)
    requires |s.pool.use| == |s.buffers|
  {
    && (forall t | t in s.locals :: s.locals[t] < |s.buffers| && s.pool.use[s.locals[t]])
    && (forall t | t in s.temps :: s.temps[t] < |s.buffers| && s.pool.use[s.temps[t]] && s.buffers[s.temps[t]].pointer == 0)
  }

  /** No two threads have the same chunk. */
  ghost predicate Exclusive(s: State) {
    && (forall t, u | t in s.locals && u in s.locals && t != u :: s.locals[t] != s.locals[u])
    && (forall t, u | t in s.temps && u in s.temps && t != u :: s.temps[t] != s.temps[u])
    && (forall t, u | t in s.locals && u in s.temps :: s.locals[t] != s.temps[u])
  }

  /** Every chunk a thread writes to is out of the pool and is that thread's alone. */
  ghost predicate OwnersOk(s: State)
    requires |s.pool.use| == |s.buffers|
  {
    InUse(s) && Exclusive(s)
  }

  /** Where the slice points in the chunk there still is the packet it was made for. */
  ghost predicate Holds(b: Buffer, x: Slice) {
    && x.at + x.size <= b.pointer <= |b.bytes|
    && x.size > 0
    && b.bytes[x.at..x.at + x.size] == Encode(x.packet)
  }

  predicate Disjoint(x: Slice, y: Slice) {
    x.chunk != y.chunk || x.at + x.size <= y.at || y.at + y.size <= x.at
  }

  ghost predicate SlicesOk(s: State)
    requires |s.pool.use| == |s.buffers|
  {
    && (forall id | id in s.slices :: s.slices[id].chunk < |s.buffers| && s.pool.use[s.slices[id].chunk])
    && (forall id | id in s.slices :: Holds(s.buffers[s.slices[id].chunk], s.slices[id]))
    && (forall i, j | i in s.slices && j in s.slices && i != j :: Disjoint(s.slices[i], s.slices[j]))
  }

  ghost predicate Inv(s: State) {
    PoolOk(s) && OwnersOk(s) && SlicesOk(s)
  }

  /** At first every chunk is in the pool, and empty. */
  lemma InitInv(count: nat)
    ensures Inv(Init(count)) && AllFree(Init(count).pool, count)
    ensures var s := Init(count);
            |s.buffers| == count && s.temps == map[] && s.locals == map[] && s.slices == map[]
  {
    FreshValid(count);
  }

  lemma PopChunkPool(s: State, t: Thread)
    requires Inv(s) && t !in s.temps
    ensures PoolOk(Next(s, PopChunk(t)))
  {
    PopExact(s.pool);
  }

  lemma PopChunkInUse(s: State, t: Thread)
    requires PoolOk(s) && InUse(s) && t !in s.temps
    ensures |Next(s, PopChunk(t)).pool.use| == |s.buffers| && InUse(Next(s, PopChunk(t)))
  {
    PopExact(s.pool);
  }

  /** What the pool hands out nobody has. */
  lemma PopChunkExclusive(s: State, t: Thread)
    requires PoolOk(s) && InUse(s) && Exclusive(s) && t !in s.temps
    ensures Exclusive(Next(s, PopChunk(t)))
  {
    PopExact(s.pool);
  }

  lemma PopChunkSlices(s: State, t: Thread)
    requires Inv(s) && t !in s.temps && PoolOk(Next(s, PopChunk(t)))
    ensures SlicesOk(Next(s, PopChunk(t)))
  {
  }

  lemma WriteHolds(b: Buffer, x: Slice, data: seq<Byte>)
    requires Holds(b, x) && b.pointer + |data| <= |b.bytes|
    ensures Holds(Write(b, data), x)
  {
  }

  lemma WriteAppends(b: Buffer, data: seq<Byte>)
    requires b.pointer + |data| <= |b.bytes|
    ensures b.pointer <= Write(b, data).pointer && Write(b, data).bytes[..b.pointer] == b.bytes[..b.pointer]
  {
  }

  lemma WriteNew(b: Buffer, c: nat, packet: Frame)
    requires b.pointer + |Encode(packet)| <= |b.bytes|
    ensures Holds(Write(b, Encode(packet)), Slice(c, b.pointer, |Encode(packet)|, packet))
  {
  }

  lemma CopyHolds(s: State, t: Thread, id: Id, packet: Frame)
    requires Inv(s) && Enabled(s, Copy(t, id, packet))
    ensures var s' := Next(s, Copy(t, id, packet));
            forall i | i in s'.slices :: s'.slices[i].chunk < |s'.buffers| && Holds(s'.buffers[s'.slices[i].chunk], s'.slices[i])
  {
    var c := s.locals[t];
    WriteNew(s.buffers[c], c, packet);
    forall i | i in s.slices && s.slices[i].chunk == c
      ensures Holds(Write(s.buffers[c], Encode(packet)), s.slices[i])
    {
      WriteHolds(s.buffers[c], s.slices[i], Encode(packet));
    }
  }

  lemma CopyDisjoint(s: State, t: Thread, id: Id, packet: Frame)
    requires Inv(s) && Enabled(s, Copy(t, id, packet))
    ensures var s' := Next(s, Copy(t, id, packet));
            && (forall i, j | i in s'.slices && j in s'.slices && i != j :: Disjoint(s'.slices[i], s'.slices[j]))
            && (forall i | i in s'.slices :: s'.slices[i].chunk < |s.buffers| && s'.pool.use[s'.slices[i].chunk])
  {
  }

  lemma CopySlices(s: State, t: Thread, id: Id, packet: Frame)
    requires Inv(s) && Enabled(s, Copy(t, id, packet))
    ensures |s.pool.use| == |Next(s, Copy(t, id, packet)).buffers|
    ensures SlicesOk(Next(s, Copy(t, id, packet)))
  {
    CopyHolds(s, t, id, packet);
    CopyDisjoint(s, t, id, packet);
  }

  lemma CopyOwners(s: State, t: Thread, id: Id, packet: Frame)
    requires Inv(s) && Enabled(s, Copy(t, id, packet))
    ensures PoolOk(Next(s, Copy(t, id, packet))) && OwnersOk(Next(s, Copy(t, id, packet)))
  {
  }

  lemma RecyclePool(s: State, chunk: nat)
    requires Inv(s) && Enabled(s, Recycle(chunk))
    ensures PoolOk(Next(s, Recycle(chunk)))
  {
    PushExact(s.pool, chunk);
  }

  lemma RecycleKeeps(s: State, chunk: nat)
    requires Inv(s) && Enabled(s, Recycle(chunk))
    ensures Inv(Next(s, Recycle(chunk)))
  {
    RecyclePool(s, chunk);
    assert OwnersOk(Next(s, Recycle(chunk)));
  }

  /** Nothing was written, and no slice came. */
  lemma SameChunks(s: State, s': State)
    requires PoolOk(s) && SlicesOk(s)
    requires s'.pool == s.pool && s'.buffers == s.buffers
    requires s'.slices.Keys <= s.slices.Keys && forall id | id in s'.slices :: s'.slices[id] == s.slices[id]
    ensures PoolOk(s') && SlicesOk(s')
  {
  }

  lemma InstallOwners(s: State, t: Thread)
    requires PoolOk(s) && OwnersOk(s) && t in s.temps
    ensures Exclusive(Next(s, Install(t)))
  {
  }

  lemma HandoverKeeps(s: State, step: Step)
    requires Inv(s) && Enabled(s, step)
    requires step.Install? || step.Drop? || step.ExitThread?
    ensures Inv(Next(s, step))
  {
    SameChunks(s, Next(s, step));
    if step.Install? {
      InstallOwners(s, step.t);
    }
  }

  lemma NextInv(s: State, step: Step)
    requires Inv(s) && Enabled(s, step)
    ensures Inv(Next(s, step))
  {
    match step
    case PopChunk(t) =>
      PopChunkPool(s, t);
      PopChunkInUse(s, t);
      PopChunkExclusive(s, t);
      PopChunkSlices(s, t);
    case Copy(t, id, packet) =>
      CopyOwners(s, t, id, packet);
      CopySlices(s, t, id, packet);
    case Recycle(chunk) =>
      RecycleKeeps(s, chunk);
    case _ =>
      HandoverKeeps(s, step);
  }

  // ---- runs

  lemma Reaches(s: State, steps: seq<Step>)
    requires Inv(s) && Runs(Next, s, steps)
    ensures Inv(After(Next, s, steps))
  {
    forall s, step | Inv(s) && Next.requires(s, step) ensures Inv(Next(s, step)) {
      NextInv(s, step);
    }
    RunInv(Next, Inv, s, steps);
  }

  /** Whatever the threads do, from the start on: the slices alive occupy disjoint bytes, each
      still holds the header and payload it was made with, and no two threads write to the same
      chunk. */
  lemma LiveSlices(count: nat, steps: seq<Step>)
    requires Runs(Next, Init(count), steps)
    ensures var s := After(Next, Init(count), steps);
            && (forall id | id in s.slices :: s.slices[id].chunk < |s.buffers| && Holds(s.buffers[s.slices[id].chunk], s.slices[id]))
            && (forall i, j | i in s.slices && j in s.slices && i != j :: Disjoint(s.slices[i], s.slices[j]))
            && (forall t, u | t in s.locals && u in s.locals && t != u :: s.locals[t] != s.locals[u])
  {
    InitInv(count);
    Reaches(Init(count), steps);
  }

  /** The bytes of a slice, wherever its chunk is by now. */
  ghost function Content(s: State, id: Id): seq<Byte>
    requires Inv(s) && id in s.slices
  {
    var x := s.slices[id];
    assert Holds(s.buffers[x.chunk], x);
    s.buffers[x.chunk].bytes[x.at..x.at + x.size]
  }

  lemma ContentIs(s: State, id: Id)
    requires Inv(s) && id in s.slices
    ensures Content(s, id) == Encode(s.slices[id].packet)
  {
    assert Holds(s.buffers[s.slices[id].chunk], s.slices[id]);
  }

  lemma SliceStep(s: State, step: Step, id: Id)
    requires Enabled(s, step) && id in s.slices && step != Drop(id)
    ensures id in Next(s, step).slices && Next(s, step).slices[id] == s.slices[id]
  {
  }

  lemma {:induction false} SliceLasts(s: State, steps: seq<Step>, id: Id)
    requires Runs(Next, s, steps) && id in s.slices && Drop(id) !in steps
    ensures id in After(Next, s, steps).slices && After(Next, s, steps).slices[id] == s.slices[id]
    decreases |steps|
  {
    if steps != [] {
      SliceStep(s, steps[0], id);
      SliceLasts(Next(s, steps[0]), steps[1..], id);
    }
  }

  /** A slice stays where it is, byte for byte, from its creation to its release. */
  lemma SliceStable(s: State, steps: seq<Step>, id: Id)
    requires Inv(s) && Runs(Next, s, steps) && id in s.slices
    requires Drop(id) !in steps
    ensures Inv(After(Next, s, steps)) && id in After(Next, s, steps).slices
    ensures After(Next, s, steps).slices[id] == s.slices[id]
    ensures Content(After(Next, s, steps), id) == Content(s, id) == Encode(s.slices[id].packet)
  {
    Reaches(s, steps);
    SliceLasts(s, steps, id);
    ContentIs(s, id);
    ContentIs(After(Next, s, steps), id);
  }

  /** A thread or a SendChunk points at the chunk. */
  ghost predicate Pointed(s: State, chunk: nat) {
    || (exists t :: t in s.locals && s.locals[t] == chunk)
    || (exists t :: t in s.temps && s.temps[t] == chunk)
    || (exists id :: id in s.slices && s.slices[id].chunk == chunk)
  }

  /** Main result on recycling. In every interleaving a chunk is in the pool, or somebody points at
      it, or it can be recycled, exactly one of these: none is lost for good. */
  lemma NoneLost(count: nat, steps: seq<Step>, chunk: nat)
    requires Runs(Next, Init(count), steps) && chunk < count
    ensures var s := After(Next, Init(count), steps);
            && |s.buffers| == count
            && Count(chunk in s.pool.stack) + Count(Pointed(s, chunk)) + Count(Enabled(s, Recycle(chunk))) == 1
  {
    InitInv(count);
    Reaches(Init(count), steps);
    ChunksStay(Init(count), steps);
    ChunkSomewhere(After(Next, Init(count), steps), chunk);
  }

  lemma FreeOrOut(p: Pool, chunk: nat)
    requires p.Valid() && chunk < |p.use|
    ensures chunk in p.stack <==> !p.use[chunk]
    ensures p.Pushed(chunk).0 <==> p.use[chunk]
  {
  }

  lemma PointedOut(s: State, chunk: nat)
    requires |s.pool.use| == |s.buffers| && InUse(s) && SlicesOk(s) && Pointed(s, chunk)
    ensures chunk < |s.buffers| && s.pool.use[chunk]
  {
  }

  lemma PointedExactly(s: State, chunk: nat)
    ensures Pointed(s, chunk) <==> !Unreferenced(s, chunk)
  {
  }

  lemma ChunkSomewhere(s: State, chunk: nat)
    requires Inv(s) && chunk < |s.buffers|
    ensures Count(chunk in s.pool.stack) + Count(Pointed(s, chunk)) + Count(Enabled(s, Recycle(chunk))) == 1
  {
    FreeOrOut(s.pool, chunk);
    PointedExactly(s, chunk);
    if Pointed(s, chunk) {
      PointedOut(s, chunk);
    }
  }

  lemma {:induction false} ChunksStay(s: State, steps: seq<Step>)
    requires Runs(Next, s, steps)
    ensures |After(Next, s, steps).buffers| == |s.buffers|
    decreases |steps|
  {
    if steps != [] {
      ChunksStay(Next(s, steps[0]), steps[1..]);
    }
  }

  /** A thread keeps its chunk until another one is assigned, the pool turns out to be empty, or it
      ends: what GetSendBuffer pops does not displace the old one before the assignment does. */
  lemma LocalLasts(s: State, step: Step, t: Thread)
    requires Inv(s) && Enabled(s, step) && t in s.locals
    ensures if step == ExitThread(t) || (step == PopChunk(t) && s.pool.stack == []) then t !in Next(s, step).locals
            else t in Next(s, step).locals
                 && Next(s, step).locals[t] == if step == Install(t) then s.temps[t] else s.locals[t]
  {
    PopExact(s.pool);
  }

  /** A chunk's filled part only grows while anything still points at it: it is emptied only
      when no slice and no thread refers to it. */
  lemma ResetOnlyUnreferenced(s: State, step: Step, chunk: nat)
    requires Inv(s) && Enabled(s, step) && chunk < |s.buffers|
    ensures var b, b' := s.buffers[chunk], Next(s, step).buffers[chunk];
            || (b.pointer <= b'.pointer && b'.bytes[..b.pointer] == b.bytes[..b.pointer])
            || Unreferenced(s, chunk)
  {
    if step.Copy? && s.locals[step.t] == chunk {
      WriteAppends(s.buffers[chunk], Encode(step.packet));
    }
  }
}
