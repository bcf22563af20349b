/** The per-session send protocol. Any number of threads push chunks; one at a time may build a
    batch in m_Send and hand it to the kernel, and the right to do so travels with m_SendFlag:
    from the pusher that found it clear, over the one WSASend in flight, to the worker that
    handles its completion. */
module SendToken {
  import opened Basics
  import opened StepRuns

  type Thread = nat
  type Chunk = nat

  /** The fields of SessionData that the protocol works on. */
  datatype Sender = Sender(
    queue: seq<Chunk>,   // m_SendQueue
    flag: bool,          // m_SendFlag
    batch: seq<Chunk>,   // m_Send's chunks
    session: bool)       // m_Send holds a session reference

  // ---- the critical sections and the unlocked touches of m_Send, one function each

  /** InsertSendQueue: push, and claim the token if nobody has it. */
  function PushClaim(s: Sender, c: Chunk): (bool, Sender) {
    (!s.flag, s.(queue := s.queue + [c], flag := true))
  }

  function ClearBatch(s: Sender): Sender {
    s.(batch := [], session := false)
  }

  function Drain(s: Sender): Sender {
    s.(batch := s.batch + s.queue, queue := [])
  }

  function Release(s: Sender): Sender {
    s.(flag := false)
  }

  /** The test behind the drain: an empty batch gives the token back. */
  function ReleaseIfEmpty(s: Sender): (bool, Sender) {
    if s.batch == [] then (true, Release(s)) else (false, s)
  }

  function Arm(s: Sender): Sender {
    s.(session := true)
  }

  /** CheckSendComplete: keep the token if there is more to send. */
  function KeepOrRelease(s: Sender): (bool, Sender) {
    if s.queue == [] then (false, Release(s)) else (true, s)
  }

  // ---- the interleavings

  /** Where a thread is inside the protocol; a thread that is nowhere is not in the map. */
  datatype Pc =
    | Claimed          // about to enter Send
    | Cleared          // m_Send cleared
    | Drained          // the queue moved into m_Send
    | Filled           // m_Send found not empty
    | Refused          // WSASend failed at once
    | RefusedCleared   // m_Send cleared after that
    | Completed(ok: bool)  // a completion taken off the port
    | Notified         // m_Send cleared, about to look at the queue

  datatype Outcome = Sent(chunk: Chunk) | Lost(chunk: Chunk)

  datatype State = State(
    sender: Sender,
    pcs: map<Thread, Pc>,
    flying: bool,            // a WSASend is in flight
    stuck: bool,             // a failed completion kept the token
    pushed: seq<Chunk>,      // history: every push, in lock order
    log: seq<Outcome>)       // history: what became of the chunks that left m_Send

  datatype Step =
    | Insert(t: Thread, chunk: Chunk)
    | SendClear(t: Thread)
    | SendDrain(t: Thread)
    | SendCheck(t: Thread)
    | Post(t: Thread, accepted: bool)
    | RefusedClear(t: Thread)
    | RefusedRelease(t: Thread)
    | Complete(t: Thread, ok: bool)
    | ExecuteClear(t: Thread)
    | CheckComplete(t: Thread)

  function Init(): State {
    State(Sender([], false, [], false), map[], false, false, [], [])
  }

  predicate At(s: State, t: Thread, pc: Pc) {
    t in s.pcs && s.pcs[t] == pc
  }

  predicate Enabled(s: State, step: Step) {
    match step
    case Insert(t, _) => t !in s.pcs
    case SendClear(t) => At(s, t, Claimed)
    case SendDrain(t) => At(s, t, Cleared)
    case SendCheck(t) => At(s, t, Drained)
    case Post(t, _) => At(s, t, Filled)
    case RefusedClear(t) => At(s, t, Refused)
    case RefusedRelease(t) => At(s, t, RefusedCleared)
    case Complete(t, _) => t !in s.pcs && s.flying
    case ExecuteClear(t) => t in s.pcs && s.pcs[t].Completed?
    case CheckComplete(t) => At(s, t, Notified)
  }

  function Marked(batch: seq<Chunk>, ok: bool): seq<Outcome> {
    seq(|batch|, i requires 0 <= i < |batch| => if ok then Sent(batch[i]) else Lost(batch[i]))
  }

  function Next(s: State, step: Step): State
    requires Enabled(s, step)
  {
    match step
    case Insert(t, c) =>
      var (claimed, sender) := PushClaim(s.sender, c);
      s.(sender := sender, pushed := s.pushed + [c], pcs := if claimed then s.pcs[t := Claimed] else s.pcs)
    case SendClear(t) =>
      s.(sender := ClearBatch(s.sender), log := s.log + Marked(s.sender.batch, false), pcs := s.pcs[t := Cleared])
    case SendDrain(t) =>
      s.(sender := Drain(s.sender), pcs := s.pcs[t := Drained])
    case SendCheck(t) =>
      var (empty, sender) := ReleaseIfEmpty(s.sender);
      s.(sender := sender, pcs := if empty then s.pcs - {t} else s.pcs[t := Filled])
    case Post(t, accepted) =>
      if accepted then s.(sender := Arm(s.sender), flying := true, pcs := s.pcs - {t})
      else s.(sender := Arm(s.sender), pcs := s.pcs[t := Refused])
    case RefusedClear(t) =>
      s.(sender := ClearBatch(s.sender), log := s.log + Marked(s.sender.batch, false), pcs := s.pcs[t := RefusedCleared])
    case RefusedRelease(t) =>
      s.(sender := Release(s.sender), pcs := s.pcs - {t})
    case Complete(t, ok) =>
      s.(flying := false, pcs := s.pcs[t := Completed(ok)])
    case ExecuteClear(t) =>
      var ok, known := s.pcs[t].ok, s.sender.session;
      var s' := s.(sender := ClearBatch(s.sender), log := s.log + Marked(s.sender.batch, ok));
      if ok && known then s'.(pcs := s.pcs[t := Notified]) else s'.(pcs := s.pcs - {t}, stuck := true)
    case CheckComplete(t) =>
      var (again, sender) := KeepOrRelease(s.sender);
      s.(sender := sender, pcs := if again then s.pcs[t := Claimed] else s.pcs - {t})
  }

  // ---- the invariant

  /** There is one token, and the flag says whether somebody has it. */
  ghost predicate OneToken(s: State) {
    |s.pcs| + Count(s.flying) + Count(s.stuck) == Count(s.sender.flag)
  }

  ghost predicate PcOk(s: State, pc: Pc) {
    match pc
    case Claimed => s.sender.queue != [] && s.sender.batch == []
    case Cleared => s.sender.queue != [] && s.sender.batch == []
    case Drained => s.sender.batch != []
    case Filled => s.sender.batch != []
    case Refused => s.sender.batch != []
    case RefusedCleared => s.sender.batch == [] && !NoLoss(s)
    case Completed(_) => s.sender.batch != [] && s.sender.session
    case Notified => s.sender.batch == []
  }

  ghost predicate HolderOk(s: State) {
    && (forall t | t in s.pcs :: PcOk(s, s.pcs[t]))
    && (s.flying ==> s.sender.batch != [] && s.sender.session)
    && (s.pcs == map[] && !s.flying ==> s.sender.batch == [])
  }

  function Chunks(log: seq<Outcome>): seq<Chunk> {
    seq(|log|, i requires 0 <= i < |log| => log[i].chunk)
  }

  /** Nothing is lost or reordered on the way: what has left, what is being built or in flight,
      and what waits, put together, is what was pushed. */
  ghost predicate Conserved(s: State) {
    s.pushed == Chunks(s.log) + s.sender.batch + s.sender.queue
  }

  ghost predicate NoLoss(s: State) {
    forall i | 0 <= i < |s.log| :: s.log[i].Sent?
  }

  ghost predicate LossExplained(s: State) {
    (s.stuck || Stranded(s)) ==> !NoLoss(s)
  }

  /** Chunks wait and nobody is going to send them. */
  ghost predicate Stranded(s: State) {
    !s.sender.flag && s.sender.queue != []
  }

  ghost predicate Inv(s: State) {
    OneToken(s) && HolderOk(s) && Conserved(s) && LossExplained(s)
  }

  lemma MapSize<K, V>(m: map<K, V>, k: K, v: V)
    ensures |m[k := v]| == |m| + Count(k !in m)
    ensures |m - {k}| == |m| - Count(k in m)
    ensures |m| == 0 <==> m == map[]
    ensures |m| == 1 && k in m ==> m - {k} == map[]
  {
  }

  lemma OneKey<K, V>(m: map<K, V>, k: K)
    requires |m| <= 1 && k in m
    ensures m == map[k := m[k]]
  {
    if other :| other in m && other != k {
      assert |{k, other}| == 2 && {k, other} <= m.Keys;
      SubsetSize({k, other}, m.Keys);
    }
  }

  lemma OneTokenKept(s: State, step: Step)
    requires Inv(s) && Enabled(s, step)
    ensures OneToken(Next(s, step))
  {
  }

  /** The only thread inside, and its place. */
  lemma Alone(s: State, t: Thread)
    requires Inv(s) && t in s.pcs
    ensures s.pcs == map[t := s.pcs[t]] && !s.flying && !s.stuck && s.sender.flag
    ensures PcOk(s, s.pcs[t])
  {
    MapSize(s.pcs, t, Claimed);
    MapSize(s.pcs - {t}, t, Claimed);
    OneKey(s.pcs, t);
  }

  lemma Nobody(s: State)
    requires Inv(s) && (s.flying || s.stuck || !s.sender.flag)
    ensures s.pcs == map[] && !(s.flying && s.stuck) && (s.flying ==> s.sender.flag)
  {
  }

  lemma LossMarked(s: State, batch: seq<Chunk>)
    requires batch != []
    ensures !NoLoss(s.(log := s.log + Marked(batch, false)))
  {
    assert (s.log + Marked(batch, false))[|s.log|].Lost?;
  }

  lemma PusherKeeps(s: State, t: Thread, c: Chunk)
    requires Inv(s) && t !in s.pcs
    ensures HolderOk(Next(s, Insert(t, c)))
  {
  }

  /** What the holder does next, seen from its place alone. */
  lemma HolderMoves(s: State, step: Step)
    requires Enabled(s, step) && step.t in s.pcs && PcOk(s, s.pcs[step.t]) && !s.flying
    ensures var s' := Next(s, step);
            && (step.t in s'.pcs ==> PcOk(s', s'.pcs[step.t]))
            && (s'.flying ==> s'.sender.batch != [] && s'.sender.session)
            && (step.t !in s'.pcs && !s'.flying ==> s'.sender.batch == [])
            && s'.pcs - {step.t} == s.pcs - {step.t}
  {
    if step.RefusedClear? {
      LossMarked(s, s.sender.batch);
    }
  }

  lemma CompleterKeeps(s: State, t: Thread, ok: bool)
    requires Inv(s) && t !in s.pcs && s.flying
    ensures HolderOk(Next(s, Complete(t, ok)))
  {
    Nobody(s);
  }

  /** With nobody else inside, the holder's place is all there is to check. */
  lemma HolderAlone(s: State, t: Thread)
    requires s.pcs - {t} == map[]
    requires t in s.pcs ==> PcOk(s, s.pcs[t])
    requires s.flying ==> s.sender.batch != [] && s.sender.session
    requires t !in s.pcs && !s.flying ==> s.sender.batch == []
    ensures HolderOk(s)
  {
    forall u | u in s.pcs ensures u == t {
      assert u != t ==> u in s.pcs - {t};
    }
  }

  lemma HolderKept(s: State, step: Step)
    requires Inv(s) && Enabled(s, step)
    ensures HolderOk(Next(s, step))
  {
    if step.Insert? {
      PusherKeeps(s, step.t, step.chunk);
    } else if step.Complete? {
      CompleterKeeps(s, step.t, step.ok);
    } else {
      Alone(s, step.t);
      HolderMoves(s, step);
      assert s.pcs - {step.t} == map[];
      HolderAlone(Next(s, step), step.t);
    }
  }

  lemma LossKept(s: State, step: Step)
    requires Inv(s) && Enabled(s, step)
    ensures LossExplained(Next(s, step))
  {
    if step.t in s.pcs {
      Alone(s, step.t);
      if step.ExecuteClear? && !s.pcs[step.t].ok {
        LossMarked(s, s.sender.batch);
      }
    }
    var s' := Next(s, step);
    if !NoLoss(s) {
      var i :| 0 <= i < |s.log| && !s.log[i].Sent?;
      assert !s'.log[i].Sent?;
    }
  }

  lemma ConservedKept(s: State, step: Step)
    requires Inv(s) && Enabled(s, step)
    ensures Conserved(Next(s, step))
  {
  }

  lemma NextInv(s: State, step: Step)
    requires Inv(s) && Enabled(s, step)
    ensures Inv(Next(s, step))
  {
    OneTokenKept(s, step);
    HolderKept(s, step);
    ConservedKept(s, step);
    LossKept(s, step);
  }

  // ---- runs

  lemma ReachedInv(steps: seq<Step>)
    requires Runs(Next, Init(), steps)
    ensures Inv(After(Next, Init(), steps))
  {
    forall s, step | Inv(s) && Next.requires(s, step) ensures Inv(Next(s, step)) {
      NextInv(s, step);
    }
    RunInv(Next, Inv, Init(), steps);
  }

  /** The flag is set, and neither a thread nor a WSASend has the token. */
  predicate Ownerless(s: State) {
    s.sender.flag && s.pcs == map[] && !s.flying
  }

  /** Main result on exclusion. In every interleaving, failed sends included: one thread or one
      WSASend at most has m_Send; the flag is set exactly while somebody has it, or a failed
      completion has kept it; whoever enters Send finds the queue not empty, so the batch it
      builds is never empty and the early return of Send is never taken. */
  lemma TokenExclusive(steps: seq<Step>)
    requires Runs(Next, Init(), steps)
    ensures var s := After(Next, Init(), steps);
            && |s.pcs| + Count(s.flying) <= 1
            && (s.sender.flag <==> s.pcs != map[] || s.flying || s.stuck)
            && (s.stuck <==> Ownerless(s))
            && (forall t | t in s.pcs && (s.pcs[t].Claimed? || s.pcs[t].Cleared?) :: s.sender.queue != [] && s.sender.batch == [])
            && (forall t | t in s.pcs && s.pcs[t].Drained? :: !ReleaseIfEmpty(s.sender).0)
            && (s.flying ==> s.sender.batch != [] && s.sender.session)
  {
    ReachedInv(steps);
    var s := After(Next, Init(), steps);
    MapSize(s.pcs, 0, Claimed);
    forall t | t in s.pcs ensures PcOk(s, s.pcs[t]) {
      Alone(s, t);
    }
  }

  /** The kernel refuses a send, or reports that one failed. */
  predicate Fails(step: Step) {
    (step.Post? && !step.accepted) || (step.Complete? && !step.ok)
  }

  predicate NoFailure(steps: seq<Step>) {
    forall i | 0 <= i < |steps| :: !Fails(steps[i])
  }

  /** A thread that is dealing with a failed send. */
  predicate Failing(pc: Pc) {
    pc.Refused? || pc.RefusedCleared? || pc == Completed(false)
  }

  ghost predicate Unfailing(s: State) {
    NoLoss(s) && forall t | t in s.pcs :: !Failing(s.pcs[t])
  }

  /** Exactly which steps lose chunks: those that clear the batch of a failed send. A completed
      one clears it, too, but those chunks were sent; and Send clears an empty one. */
  lemma LossExactly(s: State, step: Step)
    requires Inv(s) && Enabled(s, step)
    ensures NoLoss(Next(s, step))
       <==> NoLoss(s) && !step.RefusedClear? && !(step.ExecuteClear? && s.pcs[step.t] == Completed(false))
  {
    LogExactly(s, step);
    LossLasts(s, step);
    if step.RefusedClear? || (step.ExecuteClear? && s.pcs[step.t] == Completed(false)) {
      Alone(s, step.t);
      LossMarked(s, s.sender.batch);
    }
  }

  /** What a step adds to the log. */
  lemma LogExactly(s: State, step: Step)
    requires Inv(s) && Enabled(s, step)
    ensures Next(s, step).log == s.log +
              if step.RefusedClear? then Marked(s.sender.batch, false)
              else if step.ExecuteClear? then Marked(s.sender.batch, s.pcs[step.t].ok)
              else []
  {
    if step.t in s.pcs {
      Alone(s, step.t);
    }
    SeqEmpty(s.log);
  }

  lemma LossLasts(s: State, step: Step)
    requires Enabled(s, step)
    ensures NoLoss(Next(s, step)) ==> NoLoss(s)
  {
    forall i | 0 <= i < |s.log| && !s.log[i].Sent? ensures !NoLoss(Next(s, step)) {
      assert Next(s, step).log[i] == s.log[i];
    }
  }

  lemma {:induction false} UnfailingRun(s: State, steps: seq<Step>)
    requires Inv(s) && Unfailing(s) && Runs(Next, s, steps) && NoFailure(steps)
    ensures Unfailing(After(Next, s, steps))
    decreases |steps|
  {
    if steps != [] {
      LossExactly(s, steps[0]);
      NextInv(s, steps[0]);
      UnfailingRun(Next(s, steps[0]), steps[1..]);
    }
  }

  /** Main result on conservation. What left m_Send, what is in it and what waits is, in this
      order, what was pushed. If no send fails, everything that left was sent, and whenever the
      flag is clear everything pushed was sent, in push order. */
  lemma NothingStranded(steps: seq<Step>)
    requires Runs(Next, Init(), steps)
    ensures var s := After(Next, Init(), steps);
            s.pushed == Chunks(s.log) + s.sender.batch + s.sender.queue
    ensures var s := After(Next, Init(), steps);
            NoFailure(steps) ==>
              && (forall i | 0 <= i < |s.log| :: s.log[i].Sent?)
              && (!s.sender.flag ==> s.pushed == Chunks(s.log) && s.sender.queue == [])
  {
    ReachedInv(steps);
    var s := After(Next, Init(), steps);
    if NoFailure(steps) {
      UnfailingRun(Init(), steps);
      if !s.sender.flag {
        Nobody(s);
      }
    }
  }

  /** Exactly when chunks are left behind with the flag clear: when a refused WSASend gives the
      token back although something was pushed since the queue was drained. */
  lemma StrandedExactly(s: State, step: Step)
    requires Inv(s) && Enabled(s, step)
    ensures Stranded(Next(s, step)) <==> step.RefusedRelease? && s.sender.queue != []
    ensures Stranded(s) ==> step.Insert?
  {
  }

  lemma OwnerlessStuck(s: State)
    requires Inv(s)
    ensures Ownerless(s) <==> s.stuck
  {
    MapSize(s.pcs, 0, Claimed);
  }

  /** Exactly when the token is lost for good: when a completion has reported failure. */
  lemma StuckExactly(s: State, step: Step)
    requires Inv(s) && Enabled(s, step)
    ensures Ownerless(s) <==> s.stuck
    ensures Ownerless(Next(s, step)) <==> Ownerless(s) || (step.ExecuteClear? && s.pcs[step.t] == Completed(false))
    ensures Ownerless(s) ==> step.Insert?
  {
    OwnerlessStuck(s);
    NextInv(s, step);
    OwnerlessStuck(Next(s, step));
  }

  lemma Then(steps: seq<Step>, step: Step)
    requires Runs(Next, Init(), steps) && Enabled(After(Next, Init(), steps), step)
    ensures Runs(Next, Init(), steps + [step])
    ensures After(Next, Init(), steps + [step]) == Next(After(Next, Init(), steps), step)
  {
    RunSnoc(Next, Init(), steps, step);
  }

  lemma BatchBuilt() returns (steps: seq<Step>)
    ensures Runs(Next, Init(), steps)
    ensures After(Next, Init(), steps) == State(Sender([], true, [7], false), map[0 := Filled], false, false, [7], [])
  {
    steps := [];
    Then(steps, Insert(0, 7));
    steps := steps + [Insert(0, 7)];
    assert After(Next, Init(), steps) == State(Sender([7], true, [], false), map[0 := Claimed], false, false, [7], []);
    Then(steps, SendClear(0));
    steps := steps + [SendClear(0)];
    assert After(Next, Init(), steps) == State(Sender([7], true, [], false), map[0 := Cleared], false, false, [7], []);
    Then(steps, SendDrain(0));
    steps := steps + [SendDrain(0)];
    Then(steps, SendCheck(0));
    steps := steps + [SendCheck(0)];
  }

  /** It does happen: a push between the drain and a refused WSASend stays behind. */
  lemma StrandedRun() returns (steps: seq<Step>)
    ensures Runs(Next, Init(), steps) && Stranded(After(Next, Init(), steps))
  {
    steps := BatchBuilt();
    Then(steps, Insert(1, 8));
    steps := steps + [Insert(1, 8)];
    assert After(Next, Init(), steps) == State(Sender([8], true, [7], false), map[0 := Filled], false, false, [7, 8], []);
    Then(steps, Post(0, false));
    steps := steps + [Post(0, false)];
    assert After(Next, Init(), steps) == State(Sender([8], true, [7], true), map[0 := Refused], false, false, [7, 8], []);
    Then(steps, RefusedClear(0));
    steps := steps + [RefusedClear(0)];
    Then(steps, RefusedRelease(0));
    steps := steps + [RefusedRelease(0)];
  }

  /** So does the other: a completion that reports failure keeps the token, and what is pushed
      afterwards waits for good. */
  lemma StuckRun() returns (steps: seq<Step>)
    ensures Runs(Next, Init(), steps)
    ensures Ownerless(After(Next, Init(), steps)) && After(Next, Init(), steps).sender.queue != []
  {
    steps := BatchBuilt();
    Then(steps, Post(0, true));
    steps := steps + [Post(0, true)];
    assert After(Next, Init(), steps) == State(Sender([], true, [7], true), map[], true, false, [7], []);
    Then(steps, Complete(1, false));
    steps := steps + [Complete(1, false)];
    assert After(Next, Init(), steps) == State(Sender([], true, [7], true), map[1 := Completed(false)], false, false, [7], []);
    Then(steps, ExecuteClear(1));
    steps := steps + [ExecuteClear(1)];
    Then(steps, Insert(2, 8));
    steps := steps + [Insert(2, 8)];
  }

  // ---- whole calls

  /** Send by the holder of the token: everything queued is in flight, or, if the kernel refuses it,
      gone and the token free. */
  function SendCall(s: Sender, accepted: bool): (bool, Sender) {
    if s.queue == [] then (true, Sender([], false, [], false))
    else if accepted then (true, Sender([], s.flag, s.queue, true))
    else (false, Sender([], false, [], false))
  }

  /** InsertSendQueue: with the token taken the chunk waits; with it free everything queued goes
      out. */
  function InsertCall(s: Sender, c: Chunk, accepted: bool): Sender {
    if s.flag then s.(queue := s.queue + [c])
    else if accepted then Sender([], true, s.queue + [c], true)
    else Sender([], false, [], false)
  }

  /** SendObject::Execute with CheckSendComplete: what has queued up meanwhile goes out, or the
      token is free; after a failed send the token stays. */
  function ExecuteCall(s: Sender, ok: bool, accepted: bool): Sender {
    if !s.session || !ok then ClearBatch(s)
    else if s.queue != [] && accepted then Sender([], s.flag, s.queue, true)
    else Sender([], false, [], false)
  }

  /** The thread is outside again, and nothing was pushed on the way. */
  predicate Returned(s: State, s': State, t: Thread) {
    s'.pcs == s.pcs - {t} && s'.pushed == s.pushed
  }

  lemma Only(s: State, step: Step)
    requires Enabled(s, step)
    ensures Runs(Next, s, [step]) && After(Next, s, [step]) == Next(s, step)
  {
    RunOne(Next, s, step);
  }

  lemma RefuseRun(s: State, t: Thread) returns (steps: seq<Step>)
    requires At(s, t, Refused)
    ensures Runs(Next, s, steps)
    ensures After(Next, s, steps).sender == Release(ClearBatch(s.sender)) && Returned(s, After(Next, s, steps), t)
  {
    var s1 := Next(s, RefusedClear(t));
    Only(s1, RefusedRelease(t));
    RunCons(Next, s, RefusedClear(t), [RefusedRelease(t)]);
    steps := [RefusedClear(t)] + [RefusedRelease(t)];
  }

  lemma PostRun(s: State, t: Thread, accepted: bool) returns (steps: seq<Step>)
    requires At(s, t, Filled)
    ensures Runs(Next, s, steps) && Returned(s, After(Next, s, steps), t)
    ensures After(Next, s, steps).sender == if accepted then Arm(s.sender) else Release(ClearBatch(s.sender))
  {
    if accepted {
      Only(s, Post(t, accepted));
      steps := [Post(t, accepted)];
    } else {
      var rest := RefuseRun(Next(s, Post(t, accepted)), t);
      RunCons(Next, s, Post(t, accepted), rest);
      steps := [Post(t, accepted)] + rest;
    }
  }

  lemma CheckRun(s: State, t: Thread, accepted: bool) returns (steps: seq<Step>)
    requires At(s, t, Drained)
    ensures Runs(Next, s, steps) && Returned(s, After(Next, s, steps), t)
    ensures After(Next, s, steps).sender ==
              if s.sender.batch == [] then Release(s.sender)
              else if accepted then Arm(s.sender) else Release(ClearBatch(s.sender))
  {
    var rest := [];
    if s.sender.batch == [] {
      Only(s, SendCheck(t));
      steps := [SendCheck(t)];
    } else {
      rest := PostRun(Next(s, SendCheck(t)), t, accepted);
      RunCons(Next, s, SendCheck(t), rest);
      steps := [SendCheck(t)] + rest;
    }
  }

  /** Everything that was queued is in flight now, in order, under a set flag. */
  predicate InFlight(s: Sender, chunks: seq<Chunk>) {
    s.batch == chunks && s.queue == [] && s.flag && s.session
  }

  /** Nothing is left, and the flag is clear. */
  predicate AtRest(s: Sender) {
    s.batch == [] && s.queue == [] && !s.flag && !s.session
  }

  /** A whole Send is a run of steps of its thread, and does what SendCall says: everything queued
      goes out at once, or is dropped if the kernel refuses. */
  lemma SendRun(s: State, t: Thread, accepted: bool) returns (steps: seq<Step>)
    requires At(s, t, Claimed)
    ensures Runs(Next, s, steps) && Returned(s, After(Next, s, steps), t)
    ensures After(Next, s, steps).sender == SendCall(s.sender, accepted).1
    ensures s.sender.flag && s.sender.queue != [] && accepted ==> InFlight(After(Next, s, steps).sender, s.sender.queue)
    ensures s.sender.queue == [] || !accepted ==> AtRest(After(Next, s, steps).sender)
  {
    var s1 := Next(s, SendClear(t));
    var s2 := Next(s1, SendDrain(t));
    SeqEmpty(s.sender.queue);
    var rest := CheckRun(s2, t, accepted);
    RunCons(Next, s1, SendDrain(t), rest);
    RunCons(Next, s, SendClear(t), [SendDrain(t)] + rest);
    steps := [SendClear(t)] + ([SendDrain(t)] + rest);
  }

  lemma InsertRun(s: State, t: Thread, c: Chunk, accepted: bool) returns (steps: seq<Step>)
    requires t !in s.pcs
    ensures Runs(Next, s, steps)
    ensures After(Next, s, steps).sender == InsertCall(s.sender, c, accepted)
    ensures After(Next, s, steps).pcs == s.pcs && After(Next, s, steps).pushed == s.pushed + [c]
    ensures s.sender.flag ==> After(Next, s, steps).sender == s.sender.(queue := s.sender.queue + [c])
    ensures !s.sender.flag && accepted ==> InFlight(After(Next, s, steps).sender, s.sender.queue + [c])
    ensures !s.sender.flag && !accepted ==> AtRest(After(Next, s, steps).sender)
  {
    var s1 := Next(s, Insert(t, c));
    if s.sender.flag {
      Only(s, Insert(t, c));
      steps := [Insert(t, c)];
    } else {
      var rest := SendRun(s1, t, accepted);
      assert s1.pcs - {t} == s.pcs;
      RunCons(Next, s, Insert(t, c), rest);
      steps := [Insert(t, c)] + rest;
    }
  }

  /** From the look at the queue on. */
  lemma NotifiedRun(s: State, t: Thread, accepted: bool) returns (steps: seq<Step>)
    requires At(s, t, Notified) && s.sender.batch == [] && !s.sender.session
    ensures Runs(Next, s, steps) && Returned(s, After(Next, s, steps), t)
    ensures After(Next, s, steps).sender ==
              if s.sender.queue != [] then SendCall(s.sender, accepted).1 else Sender([], false, [], false)
  {
    if s.sender.queue == [] {
      Only(s, CheckComplete(t));
      steps := [CheckComplete(t)];
    } else {
      var rest := SendRun(Next(s, CheckComplete(t)), t, accepted);
      RunCons(Next, s, CheckComplete(t), rest);
      steps := [CheckComplete(t)] + rest;
    }
  }

  lemma ExecuteRun(s: State, t: Thread, ok: bool, accepted: bool) returns (steps: seq<Step>)
    requires t !in s.pcs && s.flying
    ensures Runs(Next, s, steps)
    ensures After(Next, s, steps).sender == ExecuteCall(s.sender, ok, accepted)
    ensures !ok || !s.sender.session ==> After(Next, s, steps).sender == s.sender.(batch := [], session := false)
    ensures ok && s.sender.session ==>
              if s.sender.flag && s.sender.queue != [] && accepted then InFlight(After(Next, s, steps).sender, s.sender.queue)
              else s.sender.queue == [] || !accepted ==> AtRest(After(Next, s, steps).sender)
    ensures After(Next, s, steps).pcs == s.pcs && After(Next, s, steps).pushed == s.pushed
  {
    var s1 := Next(s, Complete(t, ok));
    var s2 := Next(s1, ExecuteClear(t));
    var rest := [];
    if ok && s.sender.session {
      rest := NotifiedRun(s2, t, accepted);
      assert s2.pcs - {t} == s.pcs;
    } else {
      assert s2.pcs == s.pcs;
    }
    RunCons(Next, s1, ExecuteClear(t), rest);
    RunCons(Next, s, Complete(t, ok), [ExecuteClear(t)] + rest);
    steps := [Complete(t, ok)] + ([ExecuteClear(t)] + rest);
  }

  // ---- the object

  /** The send half of SessionData. Each method up to `Refuse` is one critical section, or one
      touch of m_Send outside the lock: the atomic actions interleaved above. */
  class SessionSender {
    var queue: seq<Chunk>
    var flag: bool
    var batch: seq<Chunk>
    var session: bool

    function View(): Sender
      reads this
    {
      Sender(queue, flag, batch, session)
    }

    constructor ()
      ensures View() == Init().sender
    {
      queue, flag, batch, session := [], false, [], false;
    }

    method PushSection(chunk: Chunk) returns (check: bool)
      modifies this
      ensures (check, View()) == PushClaim(old(View()), chunk)
      ensures check == !old(flag) && flag && queue == old(queue) + [chunk] && batch == old(batch)
    {
      check := false;
      queue := queue + [chunk];
      if !flag {
        check := true;
        flag := true;
      }
    }

    method ClearSend()
      modifies this
      ensures View() == ClearBatch(old(View()))
      ensures batch == [] && !session && queue == old(queue) && flag == old(flag)
    {
      session, batch := false, [];
    }

    method DrainSection()
      modifies this
      ensures View() == Drain(old(View()))
      ensures batch == old(batch) + old(queue) && queue == [] && flag == old(flag)
    {
      while true
        invariant flag == old(flag) && session == old(session)
        invariant batch + queue == old(batch) + old(queue)
        decreases |queue|
      {
        if queue != [] {
          batch := batch + [queue[0]];
          queue := queue[1..];
        } else {
          break;
        }
      }
    }

    method EmptySection() returns (empty: bool)
      modifies this
      ensures (empty, View()) == ReleaseIfEmpty(old(View()))
      ensures empty == (batch == []) && flag == (old(flag) && !empty)
    {
      empty := batch == [];
      if empty {
        flag := false;
      }
    }

    method CompleteSection() returns (check: bool)
      modifies this
      ensures (check, View()) == KeepOrRelease(old(View()))
      ensures check == (queue != []) && flag == (old(flag) && check)
    {
      check := false;
      if queue == [] {
        flag := false;
      } else {
        check := true;
      }
    }

    /** What a refused WSASend leads to. */
    method Refuse()
      modifies this
      ensures View() == Release(ClearBatch(old(View())))
    {
      ClearSend();
      flag := false;
    }

    /** Send without interference. `accepted` is what the kernel answers. */
    method Send(accepted: bool) returns (ok: bool)
      modifies this
      ensures (ok, View()) == SendCall(old(View()), accepted)
      ensures ok == (accepted || old(queue) == []) && queue == []
    {
      SeqEmpty(queue);
      ClearSend();
      DrainSection();
      var empty := EmptySection();
      if empty {
        return true;
      }
      session := true;
      if !accepted {
        Refuse();
        return false;
      }
      return true;
    }

    /** One push without interference. */
    method InsertSendQueue(chunk: Chunk, accepted: bool)
      modifies this
      ensures View() == InsertCall(old(View()), chunk, accepted)
    {
      var check := PushSection(chunk);
      if check {
        var _ := Send(accepted);
      }
    }

    /** SendObject::Execute and CheckSendComplete without interference; after a failed send a job is
        pushed that makes the session leave its room. */
    method Execute(transferByte: int, accepted: bool) returns (leave: bool)
      modifies this
      ensures leave == (old(session) && transferByte <= 0)
      ensures View() == ExecuteCall(old(View()), transferByte > 0, accepted)
    {
      var known := session;
      ClearSend();
      if !known {
        return false;
      }
      if transferByte <= 0 {
        return true;
      }
      var check := CompleteSection();
      if check {
        var _ := Send(accepted);
      }
      return false;
    }
  }
}
