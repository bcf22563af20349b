/** The accept wait queue. An AcceptObject that finds the session pool empty is queued; whoever
    queues one, and whoever returns a session, then looks whether a waiter and a session can be
    brought together. Sessions and waiters are under different locks, so the look is in four
    steps, and any number of threads may be between any two of them. */
module WaitQueue {
  import opened Basics
  import opened Pooling
  import opened StepRuns

  type Thread = nat
  type Session = nat
  type Accept = nat  // an AcceptObject

  /** What a thread does next. */
  datatype Act =
    | Popping(ao: Accept)                    // Accept: pop a session
    | Queueing(ao: Accept)                   // InsertWait: push
    | Checking                               // ReWaiting: look whether anyone waits
    | Taking                                 // someone did: pop a session
    | Holding(session: Session)              // got one: pop the waiter
    | Posting(ao: Accept, session: Session)  // AcceptEx
    | Leaving                                // let go of the local reference and return
    | Returning(session: Session)            // PushSession: push

  /** A thread, and the AcceptObject it goes on to accept with once the current call returns:
      Error drops the old session before it accepts again. */
  datatype Frame = Frame(act: Act, next: Option<Accept>)

  /** Where an AcceptObject, or a session, is. */
  datatype Place = Pooled | Posted | Waiting | Outside | With(t: Thread)

  datatype State = State(
    pool: set<Session>,             // m_SessionPools
    queue: seq<Accept>,             // m_WaitQueue
    threads: map<Thread, Frame>,
    posted: map<Accept, Session>,   // AcceptEx in flight
    outside: set<Session>,          // connected sessions
    accepts: map<Accept, Place>,    // history: where each AcceptObject was last put
    sessions: map<Session, Place>,  // history: where each session was last put
    queued: seq<Accept>,            // history: every waiter, in queueing order
    served: seq<Accept>)            // history: every waiter taken from the queue, in order

  datatype Step =
    | Create(t: Thread, ao: Accept)
    | PopSession(t: Thread, session: Session)
    | PopNothing(t: Thread)
    | Enqueue(t: Thread)
    | Check(t: Thread)
    | Dequeue(t: Thread)
    | Post(t: Thread)
    | Return(t: Thread)
    | Leave(t: Thread)
    | LeaveLast(t: Thread, session: Session)
    | Drop(t: Thread, session: Session)
    | Accepted(t: Thread, ao: Accept)
    | AcceptFailed(t: Thread, ao: Accept)

  function Init(sessions: set<Session>): State {
    State(sessions, [], map[], map[], {}, map[], map x | x in sessions :: Pooled, [], [])
  }

  predicate Enabled(s: State, step: Step) {
    var t := step.t;
    match step
    case Create(_, ao) => t !in s.threads && ao !in s.accepts
    case PopSession(_, x) => t in s.threads && (s.threads[t].act.Popping? || s.threads[t].act.Taking?) && x in s.pool
    case PopNothing(_) => t in s.threads && (s.threads[t].act.Popping? || s.threads[t].act.Taking?) && s.pool == {}
    case Enqueue(_) => t in s.threads && s.threads[t].act.Queueing?
    case Check(_) => t in s.threads && s.threads[t].act.Checking?
    case Dequeue(_) => t in s.threads && s.threads[t].act.Holding?
    case Post(_) => t in s.threads && s.threads[t].act.Posting?
    case Return(_) => t in s.threads && s.threads[t].act.Returning?
    case Leave(_) => t in s.threads && s.threads[t].act.Leaving?
    case LeaveLast(_, x) => t in s.threads && s.threads[t].act.Leaving? && x in s.outside
    case Drop(_, x) => t !in s.threads && x in s.outside
    case Accepted(_, ao) => t !in s.threads && ao in s.posted
    case AcceptFailed(_, ao) => t !in s.threads && ao in s.posted
  }

  // ---- the critical sections, one function each

  function TakenFrom(pool: set<Session>, x: Session): set<Session> {
    pool - {x}
  }

  function GivenBack(pool: set<Session>, x: Session): set<Session> {
    pool + {x}
  }

  function Enqueued(queue: seq<Accept>, ao: Accept): seq<Accept> {
    queue + [ao]
  }

  function FirstOut(queue: seq<Accept>): (Option<Accept>, seq<Accept>) {
    if queue == [] then (None, queue) else (Some(queue[0]), queue[1..])
  }

  // ---- the interleavings

  /** The thread goes on with `act`. */
  function Go(s: State, t: Thread, act: Act): map<Thread, Frame>
    requires t in s.threads
  {
    s.threads[t := Frame(act, s.threads[t].next)]
  }

  /** The call returns: to the caller's Accept, or out. */
  function Done(s: State, t: Thread): map<Thread, Frame>
    requires t in s.threads
  {
    match s.threads[t].next
    case Some(ao) => s.threads[t := Frame(Popping(ao), None)]
    case None => s.threads - {t}
  }

  function Next(s: State, step: Step): State
    requires Enabled(s, step)
  {
    var t := step.t;
    match step
    case Create(_, ao) =>
      s.(threads := s.threads[t := Frame(Popping(ao), None)], accepts := s.accepts[ao := With(t)])
    case PopSession(_, x) =>
      var act := if s.threads[t].act.Popping? then Posting(s.threads[t].act.ao, x) else Holding(x);
      s.(pool := TakenFrom(s.pool, x), threads := Go(s, t, act), sessions := s.sessions[x := With(t)])
    case PopNothing(_) =>
      if s.threads[t].act.Popping? then s.(threads := Go(s, t, Queueing(s.threads[t].act.ao)))
      else s.(threads := Done(s, t))
    case Enqueue(_) =>
      var ao := s.threads[t].act.ao;
      s.(queue := Enqueued(s.queue, ao), queued := s.queued + [ao], threads := Go(s, t, Checking), accepts := s.accepts[ao := Waiting])
    case Check(_) =>
      s.(threads := if s.queue == [] then Done(s, t) else Go(s, t, Taking))
    case Dequeue(_) =>
      var x := s.threads[t].act.session;
      var (first, rest) := FirstOut(s.queue);
      if first.None? then s.(threads := Go(s, t, Returning(x)))
      else s.(queue := rest, served := s.served + [first.value],
              threads := Go(s, t, Posting(first.value, x)), accepts := s.accepts[first.value := With(t)])
    case Post(_) =>
      var ao, x := s.threads[t].act.ao, s.threads[t].act.session;
      s.(posted := s.posted[ao := x], threads := Go(s, t, Leaving),
         accepts := s.accepts[ao := Posted], sessions := s.sessions[x := Posted])
    case Return(_) =>
      var x := s.threads[t].act.session;
      s.(pool := GivenBack(s.pool, x), threads := Go(s, t, Checking), sessions := s.sessions[x := Pooled])
    case Leave(_) =>
      s.(threads := Done(s, t))
    case LeaveLast(_, x) =>
      s.(outside := s.outside - {x}, threads := Go(s, t, Returning(x)), sessions := s.sessions[x := With(t)])
    case Drop(_, x) =>
      s.(outside := s.outside - {x}, threads := s.threads[t := Frame(Returning(x), None)], sessions := s.sessions[x := With(t)])
    case Accepted(_, ao) =>
      var x := s.posted[ao];
      s.(posted := s.posted - {ao}, outside := s.outside + {x}, threads := s.threads[t := Frame(Popping(ao), None)],
         accepts := s.accepts[ao := With(t)], sessions := s.sessions[x := Outside])
    case AcceptFailed(_, ao) =>
      var x := s.posted[ao];
      s.(posted := s.posted - {ao}, threads := s.threads[t := Frame(Returning(x), Some(ao))],
         accepts := s.accepts[ao := With(t)], sessions := s.sessions[x := With(t)])
  }

  // ---- no lost wake-up

  predicate Looking(act: Act) {
    act.Checking? || act.Taking?
  }

  function Lookers(threads: map<Thread, Frame>): set<Thread> {
    set t | t in threads && Looking(threads[t].act)
  }

  function Holders(threads: map<Thread, Frame>): set<Thread> {
    set t | t in threads && threads[t].act.Holding?
  }

  function Min(a: int, b: int): int {
    if a <= b then a else b
  }

  /** As many threads are on their way to pair a waiter with a session as there are pairs to be
      made. A session in a holder's hand counts as available, and the holder as on its way. */
  ghost predicate Awake(s: State) {
    var n, h := |Lookers(s.threads)|, |Holders(s.threads)|;
    Min(|s.queue|, |s.pool| + h) <= n + h
  }

  lemma CountOut(m: map<Thread, Frame>, t: Thread)
    ensures |Lookers(m - {t})| == |Lookers(m)| - Count(t in m && Looking(m[t].act))
    ensures |Holders(m - {t})| == |Holders(m)| - Count(t in m && m[t].act.Holding?)
  {
    assert Lookers(m - {t}) == Lookers(m) - {t};
    assert Holders(m - {t}) == Holders(m) - {t};
  }

  lemma LookersPut(m: map<Thread, Frame>, t: Thread, f: Frame)
    ensures Lookers(m[t := f]) == if Looking(f.act) then Lookers(m - {t}) + {t} else Lookers(m - {t})
  {
  }

  lemma HoldersPut(m: map<Thread, Frame>, t: Thread, f: Frame)
    ensures Holders(m[t := f]) == if f.act.Holding? then Holders(m - {t}) + {t} else Holders(m - {t})
  {
  }

  lemma CountPut(m: map<Thread, Frame>, t: Thread, f: Frame)
    ensures |Lookers(m[t := f])| == |Lookers(m - {t})| + Count(Looking(f.act))
    ensures |Holders(m[t := f])| == |Holders(m - {t})| + Count(f.act.Holding?)
  {
    LookersPut(m, t, f);
    HoldersPut(m, t, f);
  }

  /** Only the stepping thread changes what it is counted as. */
  lemma StepCounts(s: State, step: Step)
    requires Enabled(s, step)
    ensures var m, m', t := s.threads, Next(s, step).threads, step.t;
            && |Lookers(m')| == |Lookers(m)| - Count(t in m && Looking(m[t].act)) + Count(t in m' && Looking(m'[t].act))
            && |Holders(m')| == |Holders(m)| - Count(t in m && m[t].act.Holding?) + Count(t in m' && m'[t].act.Holding?)
  {
    var s' := Next(s, step);
    CountOut(s.threads, step.t);
    if step.t in s'.threads {
      CountPut(s.threads, step.t, s'.threads[step.t]);
      assert s'.threads == s.threads[step.t := s'.threads[step.t]];
    } else {
      assert s'.threads == s.threads - {step.t};
    }
  }

  lemma AwakeKept(s: State, step: Step)
    requires Awake(s) && Enabled(s, step)
    ensures Awake(Next(s, step))
  {
    StepCounts(s, step);
  }

  // ---- one place for everything

  predicate CarriesAccept(act: Act) {
    act.Popping? || act.Queueing? || act.Posting?
  }

  predicate CarriesSession(act: Act) {
    act.Holding? || act.Posting? || act.Returning?
  }

  /** The thread has the AcceptObject in hand. */
  predicate HasAccept(f: Frame, ao: Accept) {
    (CarriesAccept(f.act) && f.act.ao == ao) || f.next == Some(ao)
  }

  predicate HasSession(f: Frame, x: Session) {
    CarriesSession(f.act) && f.act.session == x
  }

  predicate PlaceIs<K>(places: map<K, Place>, k: K, place: Place) {
    k in places && places[k] == place
  }

  predicate AcceptInHand(s: State, t: Thread, f: Frame) {
    && (CarriesAccept(f.act) ==> PlaceIs(s.accepts, f.act.ao, With(t)) && f.next != Some(f.act.ao))
    && (f.next.Some? ==> PlaceIs(s.accepts, f.next.value, With(t)))
  }

  ghost predicate PostedMarked(s: State) {
    forall ao | ao in s.posted :: PlaceIs(s.accepts, ao, Posted)
  }

  ghost predicate WaitersMarked(s: State) {
    && (forall i | 0 <= i < |s.queue| :: PlaceIs(s.accepts, s.queue[i], Waiting))
    && (forall i, j | 0 <= i < j < |s.queue| :: s.queue[i] != s.queue[j])
  }

  ghost predicate AcceptsInHand(s: State) {
    forall t | t in s.threads :: AcceptInHand(s, t, s.threads[t])
  }

  /** Where an AcceptObject is, it has been put. */
  ghost predicate AcceptsPlaced(s: State) {
    PostedMarked(s) && WaitersMarked(s) && AcceptsInHand(s)
  }

  ghost predicate FreeMarked(s: State) {
    && (forall x | x in s.pool :: PlaceIs(s.sessions, x, Pooled))
    && (forall x | x in s.outside :: PlaceIs(s.sessions, x, Outside))
  }

  ghost predicate PostedSessions(s: State) {
    && (forall ao | ao in s.posted :: PlaceIs(s.sessions, s.posted[ao], Posted))
    && (forall a, b | a in s.posted && b in s.posted && a != b :: s.posted[a] != s.posted[b])
  }

  ghost predicate SessionsInHand(s: State) {
    forall t | t in s.threads :: SessionInHand(s, t, s.threads[t])
  }

  ghost predicate SessionsPlaced(s: State) {
    FreeMarked(s) && PostedSessions(s) && SessionsInHand(s)
  }

  predicate AcceptAt(s: State, ao: Accept, place: Place) {
    match place
    case Posted => ao in s.posted
    case Waiting => ao in s.queue
    case With(t) => t in s.threads && HasAccept(s.threads[t], ao)
    case _ => false
  }

  predicate SessionAt(s: State, x: Session, place: Place) {
    match place
    case Pooled => x in s.pool
    case Outside => x in s.outside
    case Posted => exists ao :: ao in s.posted && s.posted[ao] == x
    case With(t) => t in s.threads && HasSession(s.threads[t], x)
    case Waiting => false
  }

  /** None has slipped away: where an AcceptObject was put, there it still is. */
  ghost predicate AcceptsFound(s: State) {
    forall ao | ao in s.accepts :: AcceptAt(s, ao, s.accepts[ao])
  }

  ghost predicate SessionsFound(s: State) {
    forall x | x in s.sessions :: SessionAt(s, x, s.sessions[x])
  }

  lemma PostedMarkedKept(s: State, step: Step)
    requires AcceptsPlaced(s) && Enabled(s, step)
    ensures PostedMarked(Next(s, step))
  {
  }

  lemma EnqueueMarks(s: State, t: Thread)
    requires AcceptsPlaced(s) && Enabled(s, Enqueue(t))
    ensures WaitersMarked(Next(s, Enqueue(t)))
  {
    assert AcceptInHand(s, t, s.threads[t]);
  }

  lemma DequeueMarks(s: State, t: Thread)
    requires WaitersMarked(s) && Enabled(s, Dequeue(t))
    ensures WaitersMarked(Next(s, Dequeue(t)))
  {
  }

  lemma WaitersMarkedKept(s: State, step: Step)
    requires AcceptsPlaced(s) && Enabled(s, step)
    ensures WaitersMarked(Next(s, step))
  {
    if step.Enqueue? {
      EnqueueMarks(s, step.t);
    } else if step.Dequeue? {
      DequeueMarks(s, step.t);
    }
  }

  lemma ReturnedAccept(s: State, step: Step)
    requires AcceptsPlaced(s) && Enabled(s, step) && step.t in Next(s, step).threads
    requires step.PopNothing? || step.Check? || step.Leave?
    ensures AcceptInHand(Next(s, step), step.t, Next(s, step).threads[step.t])
  {
    assert AcceptInHand(s, step.t, s.threads[step.t]);
  }

  /** The stepping thread. */
  lemma OwnAccept(s: State, step: Step)
    requires AcceptsPlaced(s) && Enabled(s, step) && step.t in Next(s, step).threads
    ensures AcceptInHand(Next(s, step), step.t, Next(s, step).threads[step.t])
  {
    if step.PopNothing? || step.Check? || step.Leave? {
      ReturnedAccept(s, step);
    }
  }

  /** Any other thread. */
  lemma OtherAccept(s: State, step: Step, t: Thread)
    requires AcceptsPlaced(s) && Enabled(s, step) && t in s.threads && t != step.t
    ensures t in Next(s, step).threads && Next(s, step).threads[t] == s.threads[t]
    ensures AcceptInHand(Next(s, step), t, s.threads[t])
  {
    assert AcceptInHand(s, t, s.threads[t]);
  }

  lemma AcceptsInHandKept(s: State, step: Step)
    requires AcceptsPlaced(s) && Enabled(s, step)
    ensures AcceptsInHand(Next(s, step))
  {
    var s' := Next(s, step);
    forall t | t in s'.threads ensures AcceptInHand(s', t, s'.threads[t]) {
      if t == step.t {
        OwnAccept(s, step);
      } else {
        OnlyOwn(s, step, t);
        OtherAccept(s, step, t);
      }
    }
  }

  /** A step adds no thread but its own. */
  lemma OnlyOwn(s: State, step: Step, t: Thread)
    requires Enabled(s, step) && t in Next(s, step).threads && t != step.t
    ensures t in s.threads && Next(s, step).threads[t] == s.threads[t]
  {
  }

  lemma AcceptsPlacedKept(s: State, step: Step)
    requires AcceptsPlaced(s) && Enabled(s, step)
    ensures AcceptsPlaced(Next(s, step))
  {
    PostedMarkedKept(s, step);
    WaitersMarkedKept(s, step);
    AcceptsInHandKept(s, step);
  }

  lemma PostedStillFound(s: State, step: Step, ao: Accept)
    requires AcceptsPlaced(s) && Enabled(s, step) && ao in s.posted
    ensures ao in Next(s, step).accepts && AcceptAt(Next(s, step), ao, Next(s, step).accepts[ao])
  {
    assert PlaceIs(s.accepts, ao, Posted);
  }

  lemma WaiterStillFound(s: State, step: Step, ao: Accept)
    requires AcceptsPlaced(s) && Enabled(s, step) && ao in s.queue
    ensures ao in Next(s, step).accepts && AcceptAt(Next(s, step), ao, Next(s, step).accepts[ao])
  {
    var i :| 0 <= i < |s.queue| && s.queue[i] == ao;
    assert PlaceIs(s.accepts, ao, Waiting);
    if i > 0 {
      assert s.queue[1..][i - 1] == ao;
    }
  }

  lemma OtherStillHeld(s: State, step: Step, ao: Accept, t: Thread)
    requires AcceptsPlaced(s) && Enabled(s, step) && t in s.threads && t != step.t && HasAccept(s.threads[t], ao)
    ensures ao in Next(s, step).accepts && AcceptAt(Next(s, step), ao, Next(s, step).accepts[ao])
  {
    OtherAccept(s, step, t);
  }

  lemma OwnStillFound(s: State, step: Step, ao: Accept)
    requires AcceptsPlaced(s) && Enabled(s, step) && step.t in s.threads && HasAccept(s.threads[step.t], ao)
    ensures ao in Next(s, step).accepts && AcceptAt(Next(s, step), ao, Next(s, step).accepts[ao])
  {
    assert AcceptInHand(s, step.t, s.threads[step.t]);
  }

  lemma HeldStillFound(s: State, step: Step, ao: Accept, t: Thread)
    requires AcceptsPlaced(s) && Enabled(s, step) && t in s.threads && HasAccept(s.threads[t], ao)
    ensures ao in Next(s, step).accepts && AcceptAt(Next(s, step), ao, Next(s, step).accepts[ao])
  {
    if t == step.t {
      OwnStillFound(s, step, ao);
    } else {
      OtherStillHeld(s, step, ao, t);
    }
  }

  lemma AcceptStillFound(s: State, step: Step, ao: Accept)
    requires AcceptsPlaced(s) && Enabled(s, step)
    requires ao in s.accepts && AcceptAt(s, ao, s.accepts[ao])
    ensures ao in Next(s, step).accepts && AcceptAt(Next(s, step), ao, Next(s, step).accepts[ao])
  {
    match s.accepts[ao]
    case Posted => PostedStillFound(s, step, ao);
    case Waiting => WaiterStillFound(s, step, ao);
    case With(t) => HeldStillFound(s, step, ao, t);
    case _ =>
  }

  lemma AcceptsFoundKept(s: State, step: Step)
    requires AcceptsPlaced(s) && AcceptsFound(s) && Enabled(s, step)
    ensures AcceptsFound(Next(s, step))
  {
    var s' := Next(s, step);
    forall ao | ao in s'.accepts ensures AcceptAt(s', ao, s'.accepts[ao]) {
      if ao in s.accepts {
        AcceptStillFound(s, step, ao);
      }
    }
  }

  lemma FreeMarkedKept(s: State, step: Step)
    requires SessionsPlaced(s) && Enabled(s, step)
    ensures FreeMarked(Next(s, step))
  {
  }

  lemma PostedSessionsKept(s: State, step: Step)
    requires SessionsPlaced(s) && Enabled(s, step)
    ensures PostedSessions(Next(s, step))
  {
  }

  predicate SessionInHand(s: State, t: Thread, f: Frame) {
    CarriesSession(f.act) ==> PlaceIs(s.sessions, f.act.session, With(t))
  }

  lemma OwnSession(s: State, step: Step)
    requires SessionsPlaced(s) && Enabled(s, step) && step.t in Next(s, step).threads
    ensures SessionInHand(Next(s, step), step.t, Next(s, step).threads[step.t])
  {
  }

  lemma OtherSession(s: State, step: Step, t: Thread)
    requires SessionsPlaced(s) && Enabled(s, step) && t in s.threads && t != step.t
    ensures SessionInHand(Next(s, step), t, s.threads[t])
  {
    assert SessionInHand(s, t, s.threads[t]);
  }

  lemma SessionsInHandKept(s: State, step: Step)
    requires SessionsPlaced(s) && Enabled(s, step)
    ensures SessionsInHand(Next(s, step))
  {
    var s' := Next(s, step);
    forall t | t in s'.threads ensures SessionInHand(s', t, s'.threads[t]) {
      if t == step.t {
        OwnSession(s, step);
      } else {
        OnlyOwn(s, step, t);
        OtherSession(s, step, t);
      }
    }
  }

  lemma SessionsPlacedKept(s: State, step: Step)
    requires SessionsPlaced(s) && Enabled(s, step)
    ensures SessionsPlaced(Next(s, step))
  {
    FreeMarkedKept(s, step);
    PostedSessionsKept(s, step);
    SessionsInHandKept(s, step);
  }

  lemma StillPosted(s: State, step: Step, x: Session)
    requires AcceptsPlaced(s) && SessionsPlaced(s) && Enabled(s, step)
    requires SessionAt(s, x, Posted)
    requires PlaceIs(Next(s, step).sessions, x, Posted)
    ensures SessionAt(Next(s, step), x, Posted)
  {
    var ao :| ao in s.posted && s.posted[ao] == x;
    assert ao in Next(s, step).posted && Next(s, step).posted[ao] == x;
  }

  lemma NowPosted(s: State, t: Thread)
    requires Enabled(s, Post(t))
    ensures SessionAt(Next(s, Post(t)), s.threads[t].act.session, Posted)
  {
    var act := s.threads[t].act;
    assert Next(s, Post(t)).posted[act.ao] == act.session;
  }

  lemma FreeStillFound(s: State, step: Step, x: Session)
    requires AcceptsPlaced(s) && SessionsPlaced(s) && Enabled(s, step) && (x in s.pool || x in s.outside)
    ensures x in Next(s, step).sessions && SessionAt(Next(s, step), x, Next(s, step).sessions[x])
  {
    assert PlaceIs(s.sessions, x, Pooled) || PlaceIs(s.sessions, x, Outside);
  }

  lemma HeldSessionStillFound(s: State, step: Step, x: Session, t: Thread)
    requires AcceptsPlaced(s) && SessionsPlaced(s) && Enabled(s, step) && t in s.threads && HasSession(s.threads[t], x)
    ensures x in Next(s, step).sessions && SessionAt(Next(s, step), x, Next(s, step).sessions[x])
  {
    assert SessionInHand(s, t, s.threads[t]);
    if step.Post? {
      NowPosted(s, step.t);
    }
  }

  lemma PostedSessionStillFound(s: State, step: Step, x: Session)
    requires AcceptsPlaced(s) && SessionsPlaced(s) && Enabled(s, step) && SessionAt(s, x, Posted)
    ensures x in Next(s, step).sessions && SessionAt(Next(s, step), x, Next(s, step).sessions[x])
  {
    var ao :| ao in s.posted && s.posted[ao] == x;
    assert PlaceIs(s.sessions, x, Posted);
    if PlaceIs(Next(s, step).sessions, x, Posted) {
      StillPosted(s, step, x);
    }
  }

  lemma SessionStillFound(s: State, step: Step, x: Session)
    requires AcceptsPlaced(s) && SessionsPlaced(s) && Enabled(s, step)
    requires x in s.sessions && SessionAt(s, x, s.sessions[x])
    ensures x in Next(s, step).sessions && SessionAt(Next(s, step), x, Next(s, step).sessions[x])
  {
    match s.sessions[x]
    case Posted => PostedSessionStillFound(s, step, x);
    case With(t) => HeldSessionStillFound(s, step, x, t);
    case _ => FreeStillFound(s, step, x);
  }

  lemma SessionsFoundKept(s: State, step: Step)
    requires AcceptsPlaced(s) && SessionsPlaced(s) && SessionsFound(s) && Enabled(s, step)
    ensures SessionsFound(Next(s, step))
  {
    KeysKept(s, step);
    var s' := Next(s, step);
    forall x | x in s'.sessions ensures SessionAt(s', x, s'.sessions[x]) {
      SessionStillFound(s, step, x);
    }
  }

  // ---- runs

  ghost predicate Inv(s: State) {
    && Awake(s)
    && AcceptsPlaced(s) && AcceptsFound(s)
    && SessionsPlaced(s) && SessionsFound(s)
    && s.queued == s.served + s.queue
  }

  lemma InitInv(sessions: set<Session>)
    ensures Inv(Init(sessions))
  {
  }

  lemma ServedKept(s: State, step: Step)
    requires s.queued == s.served + s.queue && Enabled(s, step)
    ensures Next(s, step).queued == Next(s, step).served + Next(s, step).queue
  {
  }

  lemma KeysKept(s: State, step: Step)
    requires SessionsPlaced(s) && Enabled(s, step)
    ensures Next(s, step).sessions.Keys == s.sessions.Keys
    ensures s.accepts.Keys <= Next(s, step).accepts.Keys
  {
  }

  lemma NextInv(s: State, step: Step)
    requires Inv(s) && Enabled(s, step)
    ensures Inv(Next(s, step))
  {
    AwakeKept(s, step);
    AcceptsPlacedKept(s, step);
    AcceptsFoundKept(s, step);
    SessionsPlacedKept(s, step);
    SessionsFoundKept(s, step);
    ServedKept(s, step);
  }

  lemma Reaches(sessions: set<Session>, steps: seq<Step>)
    requires Runs(Next, Init(sessions), steps)
    ensures Inv(After(Next, Init(sessions), steps))
    ensures After(Next, Init(sessions), steps).sessions.Keys == sessions
  {
    InitInv(sessions);
    var inv := (s: State) => Inv(s) && s.sessions.Keys == sessions;
    forall s, step | inv(s) && Next.requires(s, step) ensures inv(Next(s, step)) {
      NextInv(s, step);
      KeysKept(s, step);
    }
    RunInv(Next, inv, Init(sessions), steps);
  }

  /** Main result on waking. In every interleaving there are at least as many threads between the
      steps of ReWaiting as there are pairs of a waiter and a free session; once no thread is
      there, one of the two is used up. */
  lemma NoLostWakeup(sessions: set<Session>, steps: seq<Step>)
    requires Runs(Next, Init(sessions), steps)
    ensures var s := After(Next, Init(sessions), steps);
            Min(|s.queue|, |s.pool|) <= |Lookers(s.threads)| + |Holders(s.threads)|
    ensures var s := After(Next, Init(sessions), steps);
            s.queue != [] && s.pool != {} ==>
              exists t :: t in s.threads && (Looking(s.threads[t].act) || s.threads[t].act.Holding?)
  {
    Reaches(sessions, steps);
    var s := After(Next, Init(sessions), steps);
    if s.queue != [] && s.pool != {} {
      assert |s.pool| > 0;
      assert Lookers(s.threads) != {} || Holders(s.threads) != {};
      var t :| t in Lookers(s.threads) + Holders(s.threads);
      assert t in s.threads;
    }
  }

  /** The AcceptObject is in the place named, and in no other. */
  ghost predicate OnlyAt(s: State, ao: Accept, place: Place) {
    && AcceptAt(s, ao, place)
    && (ao in s.posted <==> place == Posted)
    && (ao in s.queue <==> place == Waiting)
    && (forall t :: t in s.threads && HasAccept(s.threads[t], ao) <==> place == With(t))
  }

  ghost predicate SessionOnlyAt(s: State, x: Session, place: Place) {
    && SessionAt(s, x, place)
    && (x in s.pool <==> place == Pooled)
    && (x in s.outside <==> place == Outside)
    && ((exists ao :: ao in s.posted && s.posted[ao] == x) <==> place == Posted)
    && (forall t :: t in s.threads && HasSession(s.threads[t], x) <==> place == With(t))
  }

  lemma AcceptOnce(s: State, ao: Accept)
    requires AcceptsPlaced(s) && AcceptsFound(s) && ao in s.accepts
    ensures OnlyAt(s, ao, s.accepts[ao])
  {
  }

  lemma SessionOnce(s: State, x: Session)
    requires SessionsPlaced(s) && SessionsFound(s) && x in s.sessions
    ensures SessionOnlyAt(s, x, s.sessions[x])
  {
  }

  /** Main result on ownership. Every AcceptObject ever created is posted, waiting once, or in one
      thread's hands, and only one of these; every session is pooled, posted, connected, or in
      one thread's hands, and only one of these; waiters are served first come, first served. */
  lemma OnePlaceEach(sessions: set<Session>, steps: seq<Step>)
    requires Runs(Next, Init(sessions), steps)
    ensures var s := After(Next, Init(sessions), steps);
            && (forall ao | ao in s.accepts :: OnlyAt(s, ao, s.accepts[ao]))
            && s.sessions.Keys == sessions
            && (forall x | x in s.sessions :: SessionOnlyAt(s, x, s.sessions[x]))
            && s.queued == s.served + s.queue
            && (forall i, j | 0 <= i < j < |s.queue| :: s.queue[i] != s.queue[j])
  {
    Reaches(sessions, steps);
    var s := After(Next, Init(sessions), steps);
    forall ao | ao in s.accepts ensures OnlyAt(s, ao, s.accepts[ao]) {
      AcceptOnce(s, ao);
    }
    forall x | x in s.sessions ensures SessionOnlyAt(s, x, s.sessions[x]) {
      SessionOnce(s, x);
    }
  }

  // ---- settling

  /** A step a thread inside takes by itself; the others are somebody coming in. A connected
      session that ends is one of those, also when the thread that ends it is inside. */
  predicate Internal(step: Step) {
    !step.Create? && !step.LeaveLast? && !step.Drop? && !step.Accepted? && !step.AcceptFailed?
  }

  predicate AllInternal(steps: seq<Step>) {
    forall i | 0 <= i < |steps| :: Internal(steps[i])
  }

  ghost function Total(m: map<Thread, Frame>, w: Frame -> nat): nat
    decreases |m|
  {
    if m == map[] then 0
    else
      var t :| t in m;
      assert (m - {t}).Keys == m.Keys - {t};
      w(m[t]) + Total(m - {t}, w)
  }

  lemma {:induction false} TotalOut(m: map<Thread, Frame>, w: Frame -> nat, t: Thread)
    requires t in m
    ensures Total(m, w) == w(m[t]) + Total(m - {t}, w)
    decreases |m|
  {
    var u :| u in m && Total(m, w) == w(m[u]) + Total(m - {u}, w);
    if u != t {
      assert (m - {u}).Keys == m.Keys - {u} && (m - {t}).Keys == m.Keys - {t};
      TotalOut(m - {u}, w, t);
      TotalOut(m - {t}, w, u);
      assert m - {u} - {t} == m - {t} - {u};
    }
  }

  /** What one thread counts for; a thread that is gone, nothing. */
  function Share(m: map<Thread, Frame>, w: Frame -> nat, t: Thread): nat {
    if t in m then w(m[t]) else 0
  }

  lemma TotalStep(m: map<Thread, Frame>, m': map<Thread, Frame>, w: Frame -> nat, t: Thread)
    requires t in m && m' - {t} == m - {t}
    ensures Total(m', w) + Share(m, w, t) == Total(m, w) + Share(m', w, t)
  {
    TotalOut(m, w, t);
    if t in m' {
      TotalOut(m', w, t);
    } else {
      assert m' == m' - {t};
    }
  }

  lemma {:induction false} TotalBound(m: map<Thread, Frame>, w: Frame -> nat, max: nat)
    requires forall f :: w(f) <= max
    ensures Total(m, w) <= Times(|m|, max)
    decreases |m|
  {
    if m != map[] {
      var t :| t in m && Total(m, w) == w(m[t]) + Total(m - {t}, w);
      assert (m - {t}).Keys == m.Keys - {t};
      TotalBound(m - {t}, w, max);
      TimesNext(|m - {t}|, max);
    }
  }

  function Times(a: nat, b: nat): nat {
    if a == 0 then 0 else b + Times(a - 1, b)
  }

  lemma TimesNext(a: nat, b: nat)
    ensures Times(a + 1, b) == Times(a, b) + b
  {
  }

  lemma {:induction false} TimesGrows(a: nat, c: nat, b: nat)
    requires a <= c
    ensures Times(a, b) <= Times(c, b)
    ensures a < c ==> Times(a, b) + b <= Times(c, b)
    decreases c
  {
    if a < c {
      TimesGrows(a, c - 1, b);
    }
  }

  /** How often the thread may still come to queue an AcceptObject. */
  function Stake(f: Frame): nat {
    (if f.act.Popping? || f.act.Queueing? then 1 else 0) + (if f.next.Some? then 1 else 0)
  }

  const MAX_REST: nat := 17

  /** How far the thread has to go while the queue stays as it is. */
  function Rest(f: Frame, empty: bool): (r: nat)
    ensures r <= MAX_REST
  {
    (match f.act
     case Popping(_) => 8
     case Queueing(_) => 7
     case Returning(_) => if empty then 2 else 6
     case Checking => if empty then 1 else 5
     case Taking => 4
     case Holding(_) => 3
     case Posting(_, _) => 2
     case Leaving => 1)
    + (if f.next.Some? then 9 else 0)
  }

  function RestIdle(f: Frame): nat {
    Rest(f, true)
  }

  function RestBusy(f: Frame): nat {
    Rest(f, false)
  }

  ghost function Rests(s: State): nat {
    Total(s.threads, if s.queue == [] then RestIdle else RestBusy)
  }

  /** What can still be put into the queue, counted twice, and what is in it. */
  ghost function Ahead(s: State): nat {
    2 * Total(s.threads, Stake) + |s.queue|
  }

  lemma OneThreadMoves(s: State, step: Step)
    requires Enabled(s, step) && Internal(step)
    ensures step.t in s.threads && Next(s, step).threads - {step.t} == s.threads - {step.t}
  {
  }

  /** The thread has less to queue, or the queue is shorter, or it has less of its way left. */
  predicate Advances(s: State, s': State, t: Thread) {
    || 2 * Share(s'.threads, Stake, t) + |s'.queue| < 2 * Share(s.threads, Stake, t) + |s.queue|
    || (s'.queue == s.queue && Share(s'.threads, Stake, t) == Share(s.threads, Stake, t)
        && (s.queue == [] ==> Share(s'.threads, RestIdle, t) < Share(s.threads, RestIdle, t))
        && (s.queue != [] ==> Share(s'.threads, RestBusy, t) < Share(s.threads, RestBusy, t)))
  }

  lemma ReturnProgress(s: State, step: Step)
    requires Enabled(s, step) && (step.PopNothing? || step.Check? || step.Leave?)
    ensures Advances(s, Next(s, step), step.t)
  {
  }

  /** What an internal step does to the share of its thread. */
  lemma ShareProgress(s: State, step: Step)
    requires Enabled(s, step) && Internal(step)
    ensures Advances(s, Next(s, step), step.t)
  {
    if step.PopNothing? || step.Check? || step.Leave? {
      ReturnProgress(s, step);
    }
  }

  /** Every internal step uses up something: a place in the queue, a chance to queue, or, with
      these unchanged, some of the way a thread has to go. */
  lemma InternalProgress(s: State, step: Step)
    requires Enabled(s, step) && Internal(step)
    ensures var s' := Next(s, step);
            && |s'.threads| <= |s.threads|
            && (Ahead(s') < Ahead(s) || (Ahead(s') == Ahead(s) && Rests(s') < Rests(s)))
  {
    var s' := Next(s, step);
    OneThreadMoves(s, step);
    ShareProgress(s, step);
    TotalStep(s.threads, s'.threads, Stake, step.t);
    TotalStep(s.threads, s'.threads, RestIdle, step.t);
    TotalStep(s.threads, s'.threads, RestBusy, step.t);
    assert s'.threads.Keys - {step.t} == (s'.threads - {step.t}).Keys == (s.threads - {step.t}).Keys;
    SubsetSize(s'.threads.Keys, s.threads.Keys);
  }

  /** No more than this many internal steps can follow. */
  ghost function Bound(s: State, threads: nat): nat {
    Times(Ahead(s), Times(threads, MAX_REST) + 1) + Rests(s)
  }

  lemma RestsBound(s: State, threads: nat)
    requires |s.threads| <= threads
    ensures Rests(s) <= Times(threads, MAX_REST)
  {
    TotalBound(s.threads, if s.queue == [] then RestIdle else RestBusy, MAX_REST);
    TimesGrows(|s.threads|, threads, MAX_REST);
  }

  lemma {:induction false} InternalBound(s: State, steps: seq<Step>, threads: nat)
    requires Runs(Next, s, steps) && AllInternal(steps) && |s.threads| <= threads
    ensures |steps| <= Bound(s, threads)
    decreases |steps|
  {
    if steps != [] {
      var s' := Next(s, steps[0]);
      InternalProgress(s, steps[0]);
      InternalBound(s', steps[1..], threads);
      RestsBound(s', threads);
      TimesGrows(Ahead(s'), Ahead(s), Times(threads, MAX_REST) + 1);
    }
  }

  /** A thread that is inside can always go on. */
  lemma CanGoOn(s: State, t: Thread) returns (step: Step)
    requires t in s.threads
    ensures Internal(step) && Enabled(s, step)
  {
    match s.threads[t].act
    case Queueing(_) => step := Enqueue(t);
    case Checking => step := Check(t);
    case Holding(_) => step := Dequeue(t);
    case Posting(_, _) => step := Post(t);
    case Leaving => step := Leave(t);
    case Returning(_) => step := Return(t);
    case _ =>
      if x :| x in s.pool {
        step := PopSession(t, x);
      } else {
        step := PopNothing(t);
      }
  }

  /** Main result on settling. From every reachable state on, as long as nobody comes in, at most
      `Bound` steps can be taken; and where none can be taken any more, no thread is inside, and
      the queue is empty or the pool is. */
  lemma Settles(sessions: set<Session>, before: seq<Step>, steps: seq<Step>)
    requires Runs(Next, Init(sessions), before)
    requires Runs(Next, After(Next, Init(sessions), before), steps) && AllInternal(steps)
    ensures var s := After(Next, Init(sessions), before);
            |steps| <= Bound(s, |s.threads|)
    ensures var s := After(Next, After(Next, Init(sessions), before), steps);
            (forall step | Internal(step) :: !Enabled(s, step)) ==> s.threads == map[] && (s.queue == [] || s.pool == {})
  {
    var s := After(Next, Init(sessions), before);
    InternalBound(s, steps, |s.threads|);
    RunJoin(Next, Init(sessions), before, steps);
    var t := After(Next, s, steps);
    NoLostWakeup(sessions, before + steps);
    if thread :| thread in t.threads {
      var step := CanGoOn(t, thread);
    }
  }

  // ---- whole calls

  /** What the calls work on. */
  datatype Desk = Desk(queue: seq<Accept>, pool: set<Session>, posted: map<Accept, Session>)

  function DeskOf(s: State): Desk {
    Desk(s.queue, s.pool, s.posted)
  }

  /** ReWaiting: the first waiter and the session `x` from the pool, when there are both. */
  function Paired(d: Desk, x: Session): Desk {
    if d.queue == [] || d.pool == {} then d
    else Desk(d.queue[1..], TakenFrom(d.pool, x), d.posted[d.queue[0] := x])
  }

  function InsertCall(d: Desk, ao: Accept, x: Session): Desk {
    Paired(d.(queue := Enqueued(d.queue, ao)), x)
  }

  /** PushSession of `y`; `x` is what ReWaiting then pops. */
  function PushCall(d: Desk, y: Session, x: Session): Desk {
    Paired(d.(pool := GivenBack(d.pool, y)), x)
  }

  function AcceptCall(d: Desk, ao: Accept, x: Session): Desk {
    if d.pool == {} then d.(queue := Enqueued(d.queue, ao))
    else d.(pool := TakenFrom(d.pool, x), posted := d.posted[ao := x])
  }

  function ErrorCall(d: Desk, ao: Accept, x: Session, y: Session): Desk
    requires ao in d.posted
  {
    AcceptCall(PushCall(d.(posted := d.posted - {ao}), d.posted[ao], x), ao, y)
  }

  predicate Doing(s: State, t: Thread, act: Act) {
    t in s.threads && s.threads[t].act == act
  }

  /** A run of this thread alone, after which its call has returned. */
  ghost predicate Returns(s: State, t: Thread, steps: seq<Step>, d: Desk)
    requires t in s.threads
  {
    && Runs(Next, s, steps) && DeskOf(After(Next, s, steps)) == d
    && After(Next, s, steps).threads == Done(s, t)
  }

  /** The thread has taken a step, and is still in the call. */
  predicate StillIn(s: State, s': State, t: Thread) {
    t in s.threads && t in s'.threads && s'.threads == s.threads[t := s'.threads[t]] && s'.threads[t].next == s.threads[t].next
  }

  lemma ReturnsAfter(s: State, t: Thread, step: Step, rest: seq<Step>, d: Desk)
    requires Enabled(s, step) && StillIn(s, Next(s, step), t) && Returns(Next(s, step), t, rest, d)
    ensures Returns(s, t, [step] + rest, d)
  {
    var s' := Next(s, step);
    assert Done(s', t) == Done(s, t);
    RunCons(Next, s, step, rest);
  }

  lemma ReturnsNow(s: State, t: Thread, step: Step)
    requires Enabled(s, step) && t in s.threads && Next(s, step).threads == Done(s, t)
    ensures Returns(s, t, [step], DeskOf(Next(s, step)))
  {
    RunOne(Next, s, step);
  }

  lemma PostRun(s: State, t: Thread, ao: Accept, x: Session) returns (steps: seq<Step>)
    requires Doing(s, t, Posting(ao, x))
    ensures Returns(s, t, steps, DeskOf(s).(posted := s.posted[ao := x]))
  {
    ReturnsNow(Next(s, Post(t)), t, Leave(t));
    ReturnsAfter(s, t, Post(t), [Leave(t)], DeskOf(s).(posted := s.posted[ao := x]));
    steps := [Post(t)] + [Leave(t)];
  }

  lemma HoldRun(s: State, t: Thread, x: Session) returns (steps: seq<Step>)
    requires Doing(s, t, Holding(x)) && s.queue != []
    ensures Returns(s, t, steps, DeskOf(s).(queue := s.queue[1..], posted := s.posted[s.queue[0] := x]))
  {
    var rest := PostRun(Next(s, Dequeue(t)), t, s.queue[0], x);
    ReturnsAfter(s, t, Dequeue(t), rest, DeskOf(s).(queue := s.queue[1..], posted := s.posted[s.queue[0] := x]));
    steps := [Dequeue(t)] + rest;
  }

  /** A whole ReWaiting that nobody interferes with is a run of steps of its thread, and does what
      Paired says; so with the other calls. */
  lemma ReWaitingRun(s: State, t: Thread, x: Session) returns (steps: seq<Step>)
    requires Doing(s, t, Checking) && (s.pool != {} ==> x in s.pool)
    ensures Returns(s, t, steps, Paired(DeskOf(s), x))
  {
    var s1 := Next(s, Check(t));
    if s.queue == [] {
      ReturnsNow(s, t, Check(t));
      steps := [Check(t)];
    } else if s.pool == {} {
      ReturnsNow(s1, t, PopNothing(t));
      ReturnsAfter(s, t, Check(t), [PopNothing(t)], Paired(DeskOf(s), x));
      steps := [Check(t)] + [PopNothing(t)];
    } else {
      var rest := HoldRun(Next(s1, PopSession(t, x)), t, x);
      ReturnsAfter(s1, t, PopSession(t, x), rest, Paired(DeskOf(s), x));
      ReturnsAfter(s, t, Check(t), [PopSession(t, x)] + rest, Paired(DeskOf(s), x));
      steps := [Check(t)] + ([PopSession(t, x)] + rest);
    }
  }

  lemma InsertRun(s: State, t: Thread, ao: Accept, x: Session) returns (steps: seq<Step>)
    requires Doing(s, t, Queueing(ao)) && (s.pool != {} ==> x in s.pool)
    ensures Returns(s, t, steps, InsertCall(DeskOf(s), ao, x))
  {
    var rest := ReWaitingRun(Next(s, Enqueue(t)), t, x);
    ReturnsAfter(s, t, Enqueue(t), rest, InsertCall(DeskOf(s), ao, x));
    steps := [Enqueue(t)] + rest;
  }

  lemma PushRun(s: State, t: Thread, y: Session, x: Session) returns (steps: seq<Step>)
    requires Doing(s, t, Returning(y)) && (x in s.pool || x == y)
    ensures Returns(s, t, steps, PushCall(DeskOf(s), y, x))
  {
    var rest := ReWaitingRun(Next(s, Return(t)), t, x);
    ReturnsAfter(s, t, Return(t), rest, PushCall(DeskOf(s), y, x));
    steps := [Return(t)] + rest;
  }

  lemma AcceptRun(s: State, t: Thread, ao: Accept, x: Session) returns (steps: seq<Step>)
    requires Doing(s, t, Popping(ao)) && (s.pool != {} ==> x in s.pool)
    ensures Returns(s, t, steps, AcceptCall(DeskOf(s), ao, x))
  {
    if s.pool == {} {
      var rest := InsertRun(Next(s, PopNothing(t)), t, ao, x);
      ReturnsAfter(s, t, PopNothing(t), rest, AcceptCall(DeskOf(s), ao, x));
      steps := [PopNothing(t)] + rest;
    } else {
      var rest := PostRun(Next(s, PopSession(t, x)), t, ao, x);
      ReturnsAfter(s, t, PopSession(t, x), rest, AcceptCall(DeskOf(s), ao, x));
      steps := [PopSession(t, x)] + rest;
    }
  }

  /** From the completion of a failed AcceptEx until the thread is outside again. */
  lemma ErrorRun(s: State, t: Thread, ao: Accept, x: Session, y: Session) returns (steps: seq<Step>)
    requires t !in s.threads && ao in s.posted
    requires x in s.pool || x == s.posted[ao]
    requires var d := PushCall(DeskOf(s).(posted := s.posted - {ao}), s.posted[ao], x); d.pool != {} ==> y in d.pool
    ensures Runs(Next, s, steps)
    ensures DeskOf(After(Next, s, steps)) == ErrorCall(DeskOf(s), ao, x, y) && After(Next, s, steps).threads == s.threads
  {
    var s1 := Next(s, AcceptFailed(t, ao));
    var push := PushRun(s1, t, s.posted[ao], x);
    var s2 := After(Next, s1, push);
    assert s2.threads == s1.threads[t := Frame(Popping(ao), None)];
    var accept := AcceptRun(s2, t, ao, y);
    RunJoin(Next, s1, push, accept);
    RunCons(Next, s, AcceptFailed(t, ao), push + accept);
    steps := [AcceptFailed(t, ao)] + (push + accept);
    assert Done(s2, t) == s.threads;
  }

  // ---- the object

  lemma PutBack<K, V>(m: map<K, V>, k: K)
    requires k in m
    ensures (m - {k})[k := m[k]] == m
  {
  }

  /** The pool as the steps above see it. */
  ghost function FreeSessions(p: Pool): set<Session> {
    set x | x in p.stack
  }

  lemma PopTakes(p: Pool)
    requires p.Valid()
    ensures match p.Popped().0
            case None => FreeSessions(p) == {} && p.Popped().1 == p
            case Some(x) => x in FreeSessions(p) && FreeSessions(p.Popped().1) == TakenFrom(FreeSessions(p), x)
  {
    PopExact(p);
    if p.stack != [] {
      var n := |p.stack| - 1;
      assert p.stack == p.stack[..n] + [p.stack[n]];
    }
  }

  /** What a pop would answer. */
  function TopOf(p: Pool): Session {
    if p.stack == [] then 0 else p.Top()
  }

  lemma NoneFree(p: Pool)
    ensures FreeSessions(p) == {} <==> p.stack == []
  {
    if p.stack != [] {
      assert p.stack[0] in FreeSessions(p);
    }
  }

  lemma AllAreFree(p: Pool, count: nat)
    requires AllFree(p, count)
    ensures forall x :: x in FreeSessions(p) <==> 0 <= x < count
  {
    forall x | 0 <= x < count ensures x in FreeSessions(p) {
      assert p.stack[x] == x;
    }
  }

  lemma PushGives(p: Pool, x: Session)
    requires p.Valid() && p.Pushed(x).0
    ensures FreeSessions(p.Pushed(x).1) == GivenBack(FreeSessions(p), x)
  {
  }

  /** SessionManager and the accepting half of ListenManager, before shutdown. The five section
      methods are the atomic actions interleaved above, and compute the functions their steps
      use; the rest are whole calls that nobody interferes with. */
  class SessionManager {
    const pool: ObjectPool
    var waitQueue: seq<Accept>
    var posted: map<Accept, Session>

    ghost predicate Valid()
      reads this, pool, pool.use
    {
      pool.Valid()
    }

    ghost function View(): Desk
      reads this, pool, pool.use
    {
      Desk(waitQueue, FreeSessions(pool.View()), posted)
    }

    /** Nothing is left to be paired. */
    ghost predicate Settled()
      reads this, pool
    {
      waitQueue == [] || pool.stack == []
    }

    constructor (sessionCount: nat)
      ensures Valid() && Settled() && pool.View() == Fresh(sessionCount)
      ensures AllFree(pool.View(), sessionCount) && waitQueue == [] && posted == map[]
      ensures forall x :: x in FreeSessions(pool.View()) <==> 0 <= x < sessionCount
      ensures fresh(pool) && fresh(pool.use)
    {
      var sessions := new ObjectPool();
      sessions.InitObjectPool(sessionCount);
      pool, waitQueue, posted := sessions, [], map[];
      AllAreFree(sessions.View(), sessionCount);
    }

    method QueueSection(ao: Accept)
      modifies this`waitQueue
      ensures waitQueue == Enqueued(old(waitQueue), ao)
    {
      waitQueue := waitQueue + [ao];
    }

    method CheckSection() returns (empty: bool)
      ensures empty == (waitQueue == [])
    {
      empty := waitQueue == [];
    }

    method DequeueSection() returns (ao: Option<Accept>)
      modifies this`waitQueue
      ensures (ao, waitQueue) == FirstOut(old(waitQueue))
    {
      if waitQueue == [] {
        return None;
      }
      ao := Some(waitQueue[0]);
      waitQueue := waitQueue[1..];
    }

    method PopSection() returns (session: Option<Session>)
      requires Valid()
      modifies pool, pool.use
      ensures Valid() && pool.use == old(pool.use)
      ensures (session, pool.View()) == old(pool.View()).Popped()
      ensures session.None? <==> old(FreeSessions(pool.View())) == {}
      ensures session.Some? ==>
                && session.value in old(FreeSessions(pool.View()))
                && FreeSessions(pool.View()) == TakenFrom(old(FreeSessions(pool.View())), session.value)
    {
      PopTakes(pool.View());
      session := pool.Pop();
    }

    method PushSection(session: Session)
      requires Valid() && session < |pool.View().use| && pool.View().use[session]
      modifies pool, pool.use
      ensures Valid() && pool.use == old(pool.use)
      ensures pool.View() == old(pool.View()).Pushed(session).1
      ensures FreeSessions(pool.View()) == GivenBack(old(FreeSessions(pool.View())), session)
    {
      PushGives(pool.View(), session);
      var _ := pool.Push(session);
    }

    /** Brings the first waiter and the top session together, when there are both. */
    method ReWaiting()
      requires Valid()
      modifies this, pool, pool.use
      ensures Valid() && pool.use == old(pool.use)
      ensures old(Settled()) ==> waitQueue == old(waitQueue) && posted == old(posted) && pool.View() == old(pool.View())
      ensures !old(Settled()) ==>
                && waitQueue == old(waitQueue)[1..]
                && posted == old(posted)[old(waitQueue)[0] := old(pool.View()).Top()]
                && pool.View() == old(pool.View()).Popped().1
      ensures View() == Paired(old(View()), TopOf(old(pool.View())))
    {
      PopExact(pool.View());
      NoneFree(pool.View());
      var empty := CheckSection();
      if empty {
        return;
      }
      var session := PopSection();
      if session.None? {
        return;
      }
      var ao := DequeueSection();
      if ao.None? {
        assert false;  // only another thread can have emptied the queue
      } else {
        posted := posted[ao.value := session.value];
      }
    }

    /** The AcceptObject goes to the end of the queue, and the first waiter is served if there is
        a session after all. */
    method InsertWait(ao: Accept)
      requires Valid()
      modifies this, pool, pool.use
      ensures Valid() && pool.use == old(pool.use)
      ensures pool.View() == old(pool.View()).Popped().1
      ensures var queue := old(waitQueue) + [ao];
              if old(pool.stack) == [] then waitQueue == queue && posted == old(posted)
              else waitQueue == queue[1..] && posted == old(posted)[queue[0] := old(pool.View()).Top()]
      ensures View() == InsertCall(old(View()), ao, TopOf(old(pool.View())))
    {
      QueueSection(ao);
      PopExact(pool.View());
      ReWaiting();
    }

    /** A session comes back: it goes to the longest waiting AcceptObject, or to the pool. */
    method PushSession(session: Session)
      requires Valid() && session < |pool.View().use| && pool.View().use[session]
      modifies this, pool, pool.use
      ensures Valid() && pool.use == old(pool.use)
      ensures old(waitQueue) == [] ==>
                pool.View() == old(pool.View()).Pushed(session).1 && waitQueue == [] && posted == old(posted)
      ensures old(waitQueue) != [] ==>
                && pool.View() == old(pool.View())
                && waitQueue == old(waitQueue)[1..]
                && posted == old(posted)[old(waitQueue)[0] := session]
      ensures View() == PushCall(old(View()), session, session)
    {
      PushExact(pool.View(), session);
      PushPopInverse(pool.View(), session);
      PushSection(session);
      ReWaiting();
    }

    method Accept(ao: Accept)
      requires Valid()
      modifies this, pool, pool.use
      ensures Valid() && pool.use == old(pool.use)
      ensures if old(pool.stack) == [] then waitQueue == old(waitQueue) + [ao] && posted == old(posted)
              else waitQueue == old(waitQueue) && posted == old(posted)[ao := old(pool.View()).Top()]
      ensures pool.View() == old(pool.View()).Popped().1
      ensures View() == AcceptCall(old(View()), ao, TopOf(old(pool.View())))
    {
      PopExact(pool.View());
      NoneFree(pool.View());
      var session := PopSection();
      match session
      case Some(x) =>
        posted := posted[ao := x];
      case None =>
        InsertWait(ao);
    }

    /** A failed AcceptEx: its session goes back first, so that it serves the longest waiting
        AcceptObject, if there is one, before this one asks again. */
    method Error(ao: Accept)
      requires Valid() && ao in posted && posted[ao] < |pool.View().use| && pool.View().use[posted[ao]]
      modifies this, pool, pool.use
      ensures Valid() && pool.use == old(pool.use)
      ensures old(waitQueue) == [] ==> waitQueue == [] && posted == old(posted) && pool.View() == old(pool.View())
      ensures old(waitQueue) != [] ==>
                var left := old((posted - {ao})[waitQueue[0] := posted[ao]]);
                && pool.View() == old(pool.View()).Popped().1
                && (if old(pool.stack) == [] then waitQueue == old(waitQueue)[1..] + [ao] && posted == left
                    else waitQueue == old(waitQueue)[1..] && posted == left[ao := old(pool.View()).Top()])
      ensures var x := old(posted)[ao];
              View() == ErrorCall(old(View()), ao, x, if old(waitQueue) == [] then x else TopOf(old(pool.View())))
    {
      var session := posted[ao];
      posted := posted - {ao};
      PushPopInverse(pool.View(), session);
      PushSession(session);
      Accept(ao);
      if old(waitQueue) == [] {
        PutBack(old(posted), ao);
      }
    }
  }
}
