/** Between two whole calls no chunk is out of the pool without somebody pointing at it. */
module ChunkBooks {
  import opened Wire
  import opened Pooling
  import opened StepRuns
  import opened SharedChunks
  import opened ServiceManaging

  /** Somebody points at every chunk that is out, `but` for one at most. */
  ghost predicate Covered(s: State, but: Option<nat>) {
    && s.temps == map[]
    && forall c | 0 <= c < |s.pool.use| && s.pool.use[c] && but != Some(c) :: Pointed(s, c)
  }

  /** Who points at what is as before, as far as it concerns the chunk. */
  lemma StillPointed(s: State, s': State, c: nat)
    requires Pointed(s, c) && s.temps == map[]
    requires forall t | t in s.locals && s.locals[t] == c :: t in s'.locals && s'.locals[t] == c
    requires forall id | id in s.slices && s.slices[id].chunk == c :: id in s'.slices && s'.slices[id] == s.slices[id]
    ensures Pointed(s', c)
  {
    if t :| t in s.locals && s.locals[t] == c {
      assert s'.locals[t] == c;
    } else {
      var id :| id in s.slices && s.slices[id].chunk == c;
      assert s'.slices[id].chunk == c;
    }
  }

  /** Nobody's pointers change, and a chunk nobody points at is not out any more. */
  lemma CollectExactly(s: State, chunk: Option<nat>)
    requires PoolOk(s)
    ensures var s' := Collect(s, chunk);
            && s'.locals == s.locals && s'.temps == s.temps && s'.slices == s.slices
            && |s'.buffers| == |s.buffers| && |s'.pool.use| == |s.pool.use|
            && forall c | 0 <= c < |s.pool.use| && s'.pool.use[c] :: s.pool.use[c] && (chunk == Some(c) ==> !Unreferenced(s, c))
  {
    if chunk.Some? && chunk.value < |s.buffers| {
      FreeOrOut(s.pool, chunk.value);
    }
  }

  /** The deleter makes good what a dropped reference has left. */
  lemma CollectCovers(s: State, chunk: Option<nat>)
    requires PoolOk(s) && Covered(s, chunk)
    ensures Covered(Collect(s, chunk), None)
  {
    var s' := Collect(s, chunk);
    CollectExactly(s, chunk);
    forall c | 0 <= c < |s'.pool.use| && s'.pool.use[c] ensures Pointed(s', c) {
      PointedExactly(s, c);
      StillPointed(s, s', c);
    }
  }

  /** Who gives up a reference leaves one chunk to look at. */
  lemma DropLeaves(s: State, id: Id)
    requires Covered(s, None) && id in s.slices
    ensures Covered(Next(s, Drop(id)), Some(s.slices[id].chunk))
  {
    var d, chunk := Next(s, Drop(id)), s.slices[id].chunk;
    forall c | 0 <= c < |s.pool.use| && s.pool.use[c] && c != chunk ensures Pointed(d, c) {
      StillPointed(s, d, c);
    }
  }

  lemma ExitLeaves(s: State, t: Thread)
    requires Covered(s, None)
    ensures Covered(Next(s, ExitThread(t)), LocalOf(s, t))
  {
    var e := Next(s, ExitThread(t));
    forall c | 0 <= c < |s.pool.use| && s.pool.use[c] && LocalOf(s, t) != Some(c) ensures Pointed(e, c) {
      StillPointed(s, e, c);
    }
  }

  lemma FetchLeaves(s: State, t: Thread)
    requires Covered(s, None) && s.pool.Valid()
    ensures Covered(Fetch(s, t), LocalOf(s, t))
  {
    var f := Fetch(s, t);
    FetchExact(s, t);
    forall c | 0 <= c < |f.pool.use| && f.pool.use[c] && LocalOf(s, t) != Some(c) ensures Pointed(f, c) {
      if s.pool.use[c] {
        StillPointed(s, f, c);
      } else {
        assert f.locals[t] == c;
      }
    }
  }

  lemma RenewCovers(s: State, t: Thread)
    requires Inv(s) && Covered(s, None)
    ensures Covered(Renew(s, t), None)
  {
    FetchInv(s, t);
    FetchLeaves(s, t);
    CollectCovers(Fetch(s, t), LocalOf(s, t));
  }

  lemma TryCopyCovers(s: State, t: Thread, id: Id, kind: Word, data: seq<Byte>)
    requires Covered(s, None) && id !in s.slices
    ensures Covered(TryCopy(s, t, id, kind, data).1, None)
  {
    var s' := TryCopy(s, t, id, kind, data).1;
    forall c | 0 <= c < |s.pool.use| && s.pool.use[c] ensures Pointed(s', c) {
      StillPointed(s, s', c);
    }
  }

  lemma AttemptCovers(s: State, t: Thread, id: Id, kind: Word, data: seq<Byte>)
    requires Inv(s) && Covered(s, None) && id !in s.slices
    ensures Covered(Attempt(s, t, id, kind, data).1, None)
  {
    RenewSame(s, t);
    RenewCovers(s, t);
    TryCopyCovers(s, t, id, kind, data);
    TryCopyCovers(Renew(s, t), t, id, kind, data);
  }

  /** A call leaves no chunk out that nobody points at, the one it replaces included. */
  lemma MakePacketCovers(s: State, t: Thread, id: Id, kind: Word, data: seq<Byte>)
    requires Inv(s) && Covered(s, None) && id !in s.slices
    ensures Covered(MakePacket(s, t, id, kind, data).1, None)
  {
    RenewSame(s, t);
    RenewFresh(s, t);
    RenewCovers(s, t);
    AttemptCovers(if t in s.locals then s else Renew(s, t), t, id, kind, data);
  }

  // ---- runs of whole calls

  datatype Call =
    | Make(t: Thread, id: Id, kind: Word, data: seq<Byte>)
    | LetGo(id: Id)   // the last copy of a SendChunk goes
    | End(t: Thread)  // a thread ends

  predicate Callable(s: State, call: Call) {
    match call
    case Make(t, id, _, _) => t !in s.temps && id !in s.slices
    case LetGo(id) => id in s.slices
    case End(t) => t !in s.temps
  }

  function Called(s: State, call: Call): State
    requires Callable(s, call)
  {
    match call
    case Make(t, id, kind, data) => MakePacket(s, t, id, kind, data).1
    case LetGo(id) => Collect(Next(s, Drop(id)), Some(s.slices[id].chunk))
    case End(t) => Collect(Next(s, ExitThread(t)), LocalOf(s, t))
  }

  lemma CalledInv(s: State, call: Call)
    requires Inv(s) && Callable(s, call)
    ensures Inv(Called(s, call))
  {
    match call
    case Make(t, id, kind, data) =>
      MakePacketInv(s, t, id, kind, data);
    case LetGo(id) =>
      NextInv(s, Drop(id));
      CollectInv(Next(s, Drop(id)), Some(s.slices[id].chunk));
    case End(t) =>
      NextInv(s, ExitThread(t));
      CollectInv(Next(s, ExitThread(t)), LocalOf(s, t));
  }

  lemma CalledCovers(s: State, call: Call)
    requires Inv(s) && Covered(s, None) && Callable(s, call)
    ensures Covered(Called(s, call), None)
  {
    match call
    case Make(t, id, kind, data) =>
      MakePacketCovers(s, t, id, kind, data);
    case LetGo(id) =>
      NextInv(s, Drop(id));
      DropLeaves(s, id);
      CollectCovers(Next(s, Drop(id)), Some(s.slices[id].chunk));
    case End(t) =>
      NextInv(s, ExitThread(t));
      ExitLeaves(s, t);
      CollectCovers(Next(s, ExitThread(t)), LocalOf(s, t));
  }

  lemma CalledCount(s: State, call: Call)
    requires Callable(s, call)
    ensures |Called(s, call).buffers| == |s.buffers|
  {
    if call.Make? {
      var steps := MakePacketRun(s, call.t, call.id, call.kind, call.data);
      ChunksStay(s, steps);
    }
  }

  ghost predicate TidyWith(count: nat, s: State) {
    Inv(s) && Covered(s, None) && |s.buffers| == count
  }

  lemma TidyStart(count: nat)
    ensures TidyWith(count, Init(count))
  {
    InitInv(count);
  }

  /** Main result on leaks. After any calls of any threads the chunks out of the pool are exactly
      those that a thread or a SendChunk points at. */
  lemma NothingLeaks(count: nat, calls: seq<Call>, chunk: nat)
    requires Runs(Called, Init(count), calls) && chunk < count
    ensures var s := After(Called, Init(count), calls);
            && |s.buffers| == count && s.temps == map[]
            && (chunk in s.pool.stack <==> !Pointed(s, chunk))
  {
    TidyStart(count);
    var inv := s => TidyWith(count, s);
    forall s, call | inv(s) && Called.requires(s, call) ensures inv(Called(s, call)) {
      CalledInv(s, call);
      CalledCovers(s, call);
      CalledCount(s, call);
    }
    RunInv(Called, inv, Init(count), calls);
    var s := After(Called, Init(count), calls);
    FreeOrOut(s.pool, chunk);
    if Pointed(s, chunk) {
      PointedOut(s, chunk);
    }
  }
}
