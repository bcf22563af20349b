/** The room's job queue: producers push under a lock, the room thread takes everything at once
    by swapping queues, and a stop flag ends its loop. RoomManager keeps a second flag, the gate
    that producers look at before they push. */
module JobDraining {
  import opened Basics
  import opened Pooling
  import opened StepRuns

  type Thread = nat
  type Job = nat

  /** Where the room thread is in Work / StartJob; `stop` is what PopAll returned. */
  datatype Pc = Waiting | Dispatching(stop: bool) | Returned

  /** The fields of JobQueue. */
  datatype Jobs<T> = Jobs(
    queue: seq<T>,  // m_JobQueue
    stop: bool)     // m_Stop

  // ---- the critical sections, one function each

  /** PopAll: the waiting jobs are swapped with the caller's queue, unless there are none. */
  function Swapped<T>(j: Jobs<T>, mine: seq<T>): (seq<T>, Jobs<T>) {
    if j.queue != [] then (j.queue, j.(queue := mine)) else (mine, j)
  }

  function Queued<T>(j: Jobs<T>, job: T): Jobs<T> {
    j.(queue := j.queue + [job])
  }

  function Stopped<T>(j: Jobs<T>): Jobs<T> {
    j.(stop := true)
  }

  // ---- the interleavings

  datatype State = State(
    jobs: Jobs<Job>,
    gate: bool,               // RoomManager::m_Stop
    pc: Pc,
    local: seq<Job>,          // the queue StartJob swapped out
    passed: map<Thread, Job>, // producers that have passed the gate and not yet pushed
    pushed: seq<Job>,         // history: every push, in lock order
    dispatched: seq<Job>,     // history: every dispatch
    stopAt: Option<nat>,      // history: how much was pushed when Stop took the lock
    popsAfterStop: nat)       // history: PopAll calls since then

  datatype Step =
    | PassGate(t: Thread, job: Job)
    | Push(t: Thread)
    | RaiseGate
    | Stop
    | PopAll
    | Dispatch
    | Finish

  function Init(): State {
    State(Jobs([], false), false, Waiting, [], map[], [], [], None, 0)
  }

  /** PopAll's wait ends on a job, on stop, or on its timeout, so it can always go on. */
  predicate Enabled(s: State, step: Step) {
    match step
    case PassGate(t, _) => t !in s.passed
    case Push(t) => t in s.passed
    case RaiseGate => true
    case Stop => s.gate
    case PopAll => s.pc.Waiting?
    case Dispatch => s.pc.Dispatching? && s.local != []
    case Finish => s.pc.Dispatching? && s.local == []
  }

  function Next(s: State, step: Step): State
    requires Enabled(s, step)
  {
    match step
    case PassGate(t, job) =>
      if s.gate then s else s.(passed := s.passed[t := job])
    case Push(t) =>
      s.(jobs := Queued(s.jobs, s.passed[t]), pushed := s.pushed + [s.passed[t]], passed := s.passed - {t})
    case RaiseGate =>
      s.(gate := true)
    case Stop =>
      s.(jobs := Stopped(s.jobs), stopAt := if s.jobs.stop then s.stopAt else Some(|s.pushed|))
    case PopAll =>
      var (taken, jobs) := Swapped(s.jobs, s.local);
      s.(jobs := jobs, local := taken, pc := Dispatching(jobs.stop),
         popsAfterStop := s.popsAfterStop + if jobs.stop then 1 else 0)
    case Dispatch =>
      s.(dispatched := s.dispatched + [s.local[0]], local := s.local[1..])
    case Finish =>
      s.(pc := if s.pc.stop then Returned else Waiting)
  }

  /** The room thread has learnt of the stop. */
  predicate Stopping(s: State) {
    s.pc.Returned? || (s.pc.Dispatching? && s.pc.stop)
  }

  ghost predicate Inv(s: State) {
    && s.pushed == s.dispatched + s.local + s.jobs.queue
    && (!s.pc.Dispatching? ==> s.local == [])
    && (s.jobs.stop <==> s.stopAt.Some?)
    && (s.jobs.stop ==> s.gate && s.stopAt.value <= |s.pushed|)
    && (Stopping(s) ==> s.jobs.stop && s.stopAt.value <= |s.dispatched| + |s.local|)
    && s.popsAfterStop == if Stopping(s) then 1 else 0
  }

  lemma NextInv(s: State, step: Step)
    requires Inv(s) && Enabled(s, step)
    ensures Inv(Next(s, step))
  {
    if step.Dispatch? {
      assert s.dispatched + s.local == s.dispatched + [s.local[0]] + s.local[1..];
    }
  }

  lemma ReachedInv(steps: seq<Step>)
    requires Runs(Next, Init(), steps)
    ensures Inv(After(Next, Init(), steps))
  {
    forall s, step | Inv(s) && Next.requires(s, step) ensures Inv(Next(s, step)) {
      NextInv(s, step);
    }
    RunInv(Next, Inv, Init(), steps);
  }

  /** Main result. In every interleaving jobs are dispatched in push order, none lost, none twice;
      after Stop the room thread calls PopAll at most once more; and when Work returns, every
      job pushed before Stop has been dispatched. */
  lemma DrainedInOrder(steps: seq<Step>)
    requires Runs(Next, Init(), steps)
    ensures var s := After(Next, Init(), steps);
            && s.pushed == s.dispatched + s.local + s.jobs.queue
            && s.popsAfterStop <= 1
            && (s.pc.Returned? ==>
                  && s.stopAt.Some? && s.stopAt.value <= |s.pushed|
                  && s.pushed[..s.stopAt.value] <= s.dispatched
                  && s.pushed == s.dispatched + s.jobs.queue)
  {
    ReachedInv(steps);
    var s := After(Next, Init(), steps);
    assert s.dispatched == s.pushed[..|s.dispatched|];
  }

  /** What the gate is for: once it is up, only producers that are already past it can push, each
      at most once. */
  lemma {:induction false} GateHolds(s: State, steps: seq<Step>)
    requires s.gate && Runs(Next, s, steps)
    ensures |After(Next, s, steps).pushed| + |After(Next, s, steps).passed| <= |s.pushed| + |s.passed|
    decreases |steps|
  {
    if steps != [] {
      if steps[0].Push? {
        var t := steps[0].t;
        assert (s.passed - {t}).Keys == s.passed.Keys - {t};
      }
      GateHolds(Next(s, steps[0]), steps[1..]);
    }
  }

  /** Exactly when a job is left in the queue although the room thread will not look again: when
      it is pushed by such a producer after the last PopAll. */
  lemma AbandonedExactly(s: State, step: Step)
    requires Inv(s) && Enabled(s, step)
    ensures Stopping(s) ==> Stopping(Next(s, step))
    ensures Stopping(Next(s, step)) ==> (Next(s, step).jobs.queue != [] <==> Stopping(s) && (s.jobs.queue != [] || step.Push?))
    ensures Stopping(s) ==> Next(s, step).jobs.queue == s.jobs.queue + if step.Push? then [s.passed[step.t]] else []
  {
  }

  /** It does happen: raising the gate before stopping does not keep a producer out that is
      between the gate and the push. */
  lemma AbandonedRun() returns (steps: seq<Step>)
    ensures Runs(Next, Init(), steps)
    ensures After(Next, Init(), steps).pc.Returned? && After(Next, Init(), steps).jobs.queue != []
  {
    steps := [];
    Then(steps, PassGate(0, 5));
    steps := steps + [PassGate(0, 5)];
    Then(steps, RaiseGate);
    steps := steps + [RaiseGate];
    Then(steps, Stop);
    steps := steps + [Stop];
    Then(steps, PopAll);
    steps := steps + [PopAll];
    Then(steps, Finish);
    steps := steps + [Finish];
    Then(steps, Push(0));
    steps := steps + [Push(0)];
  }

  lemma Then(steps: seq<Step>, step: Step)
    requires Runs(Next, Init(), steps) && Enabled(After(Next, Init(), steps), step)
    ensures Runs(Next, Init(), steps + [step])
    ensures After(Next, Init(), steps + [step]) == Next(After(Next, Init(), steps), step)
  {
    RunSnoc(Next, Init(), steps, step);
  }

  // ---- a whole call

  lemma {:induction false} DispatchRun(s: State, jobs: seq<Job>) returns (steps: seq<Step>)
    requires s.pc.Dispatching? && s.local == jobs
    ensures Runs(Next, s, steps)
    ensures After(Next, s, steps) ==
              s.(dispatched := s.dispatched + jobs, local := [], pc := if s.pc.stop then Returned else Waiting)
    decreases |jobs|
  {
    if jobs == [] {
      SeqEmpty(s.dispatched);
      FinishRun(s);
      steps := [Finish];
    } else {
      var rest := DispatchRun(Next(s, Dispatch), jobs[1..]);
      SeqAssociates(s.dispatched, [jobs[0]], jobs[1..]);
      assert jobs == [jobs[0]] + jobs[1..];
      RunCons(Next, s, Dispatch, rest);
      steps := [Dispatch] + rest;
    }
  }

  lemma FinishRun(s: State)
    requires Enabled(s, Finish)
    ensures Runs(Next, s, [Finish]) && After(Next, s, [Finish]) == Next(s, Finish)
  {
    RunOne(Next, s, Finish);
  }

  /** A whole StartJob that nobody interferes with is a run of steps: it takes everything that is
      queued and dispatches it in order. */
  lemma StartJobRun(s: State) returns (steps: seq<Step>)
    requires s.pc.Waiting? && s.local == []
    ensures Runs(Next, s, steps)
    ensures var t := After(Next, s, steps);
            && t.dispatched == s.dispatched + s.jobs.queue && t.jobs == s.jobs.(queue := [])
            && t.local == [] && t.pc == if s.jobs.stop then Returned else Waiting
  {
    var rest := DispatchRun(Next(s, PopAll), s.jobs.queue);
    RunCons(Next, s, PopAll, rest);
    steps := [PopAll] + rest;
  }

  // ---- the object

  /** Each method is one critical section, and computes the function that its step uses. */
  class JobQueue<T> {
    var queue: seq<T>
    var stop: bool

    function View(): Jobs<T>
      reads this
    {
      Jobs(queue, stop)
    }

    constructor ()
      ensures View() == Jobs([], false)
    {
      queue, stop := [], false;
    }

    method PopAll(jobqueue: seq<T>) returns (taken: seq<T>, stopped: bool)
      modifies this`queue
      ensures (taken, View()) == Swapped(old(View()), jobqueue)
      ensures if old(queue) == [] then taken == jobqueue && queue == [] else taken == old(queue) && queue == jobqueue
      ensures stopped == stop
    {
      taken := jobqueue;
      if |queue| > 0 {
        taken, queue := queue, taken;
      }
      stopped := stop;
    }

    method Push(jobItem: T)
      modifies this`queue
      ensures View() == Queued(old(View()), jobItem)
      ensures queue == old(queue) + [jobItem]
    {
      queue := queue + [jobItem];
    }

    method Stop()
      modifies this`stop
      ensures View() == Stopped(old(View())) && stop
    {
      stop := true;
    }
  }
}
