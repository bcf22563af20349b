/** What the room thread makes of each job it takes from its queue, and of whole runs of them. */
module RoomJobs {
  import opened Movement
  import opened MoveRun
  import opened RoomSpec
  import opened RoomBooks
  import opened RoomViews
  import opened RoomMoves
  import opened RoomRun
  import opened RoomNotices

  // ---- one job

  /** A leave job: the session is gone, whatever fails, and nobody else is; every other member is
      told once, or nobody is, and then the id is not free again. */
  lemma LeaveJobDone(alloc: nat -> bool, root: real -> real, r: RoomState, s: Session, x: Session)
    requires Books(r)
    ensures var t := Apply(alloc, root, r, LeaveJob(s));
            && Books(t) && s !in t.connected && !IsMember(t, s)
            && (forall y | y != s :: IsMember(t, y) <==> IsMember(r, y))
            && (forall k | k in t.users :: k in r.users && t.users[k] == r.users[k])
            && (if !IsMember(r, s) then t.inbox == r.inbox && t.free == r.free && t.withdrawn == r.withdrawn
                else
                  var id := r.users[s.socket].seqID;
                  && InboxOf(t.inbox, x) == InboxOf(r.inbox, x) +
                       (if alloc(r.calls) && x != s && IsMember(r, x) then [LeaveNote(id)] else [])
                  && t.free == (if alloc(r.calls) then r.free + [id] else r.free)
                  && t.withdrawn == if alloc(r.calls) then r.withdrawn else r.withdrawn + {id})
  {
    ApplyBooks(alloc, root, r, LeaveJob(s));
    LeaveExact(alloc, r, s);
    if IsMember(r, s) {
      LeaveTells(alloc, r, s, x);
    }
  }

  /** A broadcast job: every member but the sender is sent the text once, or nobody is; nothing
      else changes. */
  lemma BroadcastJobDone(alloc: nat -> bool, root: real -> real, r: RoomState, s: Session, data: nat, x: Session)
    requires Books(r)
    ensures var t := Apply(alloc, root, r, BroadcastJob(s, data));
            && t == r.(calls := r.calls + 1, inbox := t.inbox)
            && InboxOf(t.inbox, x) == InboxOf(r.inbox, x) +
                 if alloc(r.calls) && x != s && IsMember(r, x) then [Chat(data)] else []
  {
    BroadCastTells(alloc, r, s, data, x);
  }

  /** A move job: a member's request for a point on the map makes it leave for that point here and
      now, or, if it is there already, goes on with what it was doing; any other request changes nothing. */
  lemma MoveJobDone(alloc: nat -> bool, root: real -> real, r: RoomState, s: Session, x: Coord, y: Coord, at: Clock)
    requires Books(r) && IsRoot(root) && AllSafe(r, at)
    ensures var t := Apply(alloc, root, r, MoveJob(s, x, y, at));
            if IsMember(r, s) && x.Finite? && y.Finite? && 0.0 <= x.value < 10000.0 && 0.0 <= y.value < 10000.0 then
              && s.socket in t.users && t == r.(users := r.users[s.socket := t.users[s.socket]])
              && var u, v := r.users[s.socket], t.users[s.socket];
              && v.session == s && v.seqID == u.seqID
              && v.posX == DirectX(u, at) && v.posY == DirectY(u, at)
              && if v.posX != x.value || v.posY != y.value then
                   && v.isMove && v.destX == x.value && v.destY == y.value && v.start == at
                   && ArrivesInTime(v, v.posX, v.posY, x.value, y.value, at)
                 else
                   && v.destX == u.destX && v.destY == u.destY && v.end == u.end
                   && (v.isMove <==> u.isMove && at < u.end)
            else t == r
  {
    if IsMember(r, s) {
      LookIsDirect(r.users[s.socket], at);
    }
    MoveExact(root, r, s, x, y, at);
  }

  /** An enter job: the session is in exactly if it was, or could be admitted; nobody else comes or
      goes, and every other member is told of it where it stands. */
  lemma EnterJobDone(alloc: nat -> bool, root: real -> real, r: RoomState, s: Session, x: Session)
    requires Books(r)
    ensures var t := Apply(alloc, root, r, EnterJob(s));
            && (IsMember(t, s) <==> IsMember(r, s) || Joins(alloc, r, s))
            && (forall y | y != s :: IsMember(t, y) <==> IsMember(r, y))
            && (Joins(alloc, r, s) ==>
                  && s.socket in t.users && NewHere(t.users[s.socket], s, r.free[0])
                  && (x != s && IsMember(r, x) ==>
                        InboxOf(t.inbox, x) == InboxOf(r.inbox, x) + [Spawn([Spot(r.free[0], 0.0, 0.0)])]))
  {
    EnterExact(alloc, r, s);
    if x != s {
      EnterTellsOthers(alloc, r, s, x);
    }
  }

  // ---- runs of jobs

  /** The jobs before come before. */
  lemma {:induction false} RunSplit(alloc: nat -> bool, root: real -> real, r: RoomState, before: seq<Event>, after: seq<Event>)
    ensures Run(alloc, root, r, before + after) == Run(alloc, root, Run(alloc, root, r, before), after)
    decreases |before|
  {
    if before == [] {
      assert before + after == after;
    } else {
      assert (before + after)[1..] == before[1..] + after;
      RunSplit(alloc, root, Apply(alloc, root, r, before[0]), before[1..], after);
    }
  }

  /** An empty run changes nothing, and a longer one ends with its last event. */
  lemma RunSnoc(alloc: nat -> bool, root: real -> real, r: RoomState, events: seq<Event>, e: Event)
    ensures Run(alloc, root, r, []) == r
    ensures Run(alloc, root, r, events + [e]) == Apply(alloc, root, Run(alloc, root, r, events), e)
  {
    RunSplit(alloc, root, r, events, [e]);
    var mid := Run(alloc, root, r, events);
    assert [e][1..] == [];
    assert Run(alloc, root, Apply(alloc, root, mid, e), []) == Apply(alloc, root, mid, e);
  }

  /** Who comes and goes in one event. */
  lemma StepMembers(alloc: nat -> bool, root: real -> real, r: RoomState, e: Event, s: Session)
    requires Books(r)
    ensures IsMember(Apply(alloc, root, r, e), s)
       <==> !Leaves(e, s) && (IsMember(r, s) || (e == EnterJob(s) && Joins(alloc, r, s)))
  {
    match e
    case EnterJob(x) => EnterJobDone(alloc, root, r, x, s);
    case LeaveJob(x) => LeaveJobDone(alloc, root, r, x, s);
    case BroadcastJob(x, data) => BroadcastJobDone(alloc, root, r, x, data, s);
    case MoveJob(_, _, _, _) =>
    case TickEvent(at) => TickUsers(alloc, r, at);
  }

  /** The session does not leave from the `i`th event on. */
  predicate NoLeaveFrom(events: seq<Event>, i: nat, s: Session) {
    forall j | i <= j < |events| :: !Leaves(events[j], s)
  }

  /** The `i`th event is an entry of the session, and admits it. */
  ghost predicate AdmittedAt(alloc: nat -> bool, root: real -> real, r: RoomState, events: seq<Event>, i: nat, s: Session) {
    i < |events| && events[i] == EnterJob(s) && Joins(alloc, Run(alloc, root, r, events[..i]), s)
  }

  /** The session has been in since before the run, or since an entry in it. */
  ghost predicate StillIn(alloc: nat -> bool, root: real -> real, r: RoomState, events: seq<Event>, s: Session) {
    || (IsMember(r, s) && NoLeaveFrom(events, 0, s))
    || exists i :: AdmittedAt(alloc, root, r, events, i, s) && NoLeaveFrom(events, i, s)
  }

  lemma AdmittedEarlier(alloc: nat -> bool, root: real -> real, r: RoomState, events: seq<Event>, e: Event, i: nat, s: Session)
    requires i < |events|
    ensures AdmittedAt(alloc, root, r, events + [e], i, s) <==> AdmittedAt(alloc, root, r, events, i, s)
  {
    assert (events + [e])[..i] == events[..i];
  }

  lemma AdmittedLast(alloc: nat -> bool, root: real -> real, r: RoomState, events: seq<Event>, e: Event, s: Session)
    ensures AdmittedAt(alloc, root, r, events + [e], |events|, s)
       <==> e == EnterJob(s) && Joins(alloc, Run(alloc, root, r, events), s)
  {
    assert (events + [e])[..|events|] == events;
  }

  lemma NoLeaveSnoc(events: seq<Event>, e: Event, i: nat, s: Session)
    requires i <= |events|
    ensures NoLeaveFrom(events + [e], i, s) <==> NoLeaveFrom(events, i, s) && !Leaves(e, s)
  {
    if NoLeaveFrom(events + [e], i, s) {
      forall j | i <= j < |events| ensures !Leaves(events[j], s) {
        assert (events + [e])[j] == events[j];
      }
      assert (events + [e])[|events|] == e;
    }
  }

  /** One event more. */
  lemma StillInSnoc(alloc: nat -> bool, root: real -> real, r: RoomState, events: seq<Event>, e: Event, s: Session)
    ensures StillIn(alloc, root, r, events + [e], s)
       <==> !Leaves(e, s) && (StillIn(alloc, root, r, events, s) || (e == EnterJob(s) && Joins(alloc, Run(alloc, root, r, events), s)))
  {
    var n, all := |events|, events + [e];
    NoLeaveSnoc(events, e, 0, s);
    NoLeaveSnoc(events, e, n, s);
    AdmittedLast(alloc, root, r, events, e, s);
    forall i: nat | i < n
      ensures AdmittedAt(alloc, root, r, all, i, s) && NoLeaveFrom(all, i, s)
         <==> AdmittedAt(alloc, root, r, events, i, s) && NoLeaveFrom(events, i, s) && !Leaves(e, s)
    {
      AdmittedEarlier(alloc, root, r, events, e, i, s);
      NoLeaveSnoc(events, e, i, s);
    }
    if e == EnterJob(s) && Joins(alloc, Run(alloc, root, r, events), s) {
      assert AdmittedAt(alloc, root, r, all, n, s) && NoLeaveFrom(all, n, s);
    }
  }

  /** Main result on membership. After any run a session is a member exactly if it was one at the
      beginning or was admitted on the way, and has not left since. */
  lemma {:induction false} MemberExactly(alloc: nat -> bool, root: real -> real, r: RoomState, events: seq<Event>, s: Session)
    requires Books(r)
    ensures IsMember(Run(alloc, root, r, events), s) <==> StillIn(alloc, root, r, events, s)
    decreases |events|
  {
    if events != [] {
      var init, e := events[..|events| - 1], events[|events| - 1];
      assert events == init + [e];
      MemberExactly(alloc, root, r, init, s);
      StillInSnoc(alloc, root, r, init, e, s);
      RunBooks(alloc, root, r, init);
      StepMembers(alloc, root, Run(alloc, root, r, init), e, s);
      RunSnoc(alloc, root, r, init, e);
    }
  }

  /** Once a session has left, it is gone until it enters again. */
  lemma GoneAfterLeaving(alloc: nat -> bool, root: real -> real, r: RoomState, before: seq<Event>, s: Session, after: seq<Event>)
    requires Books(r) && EnterJob(s) !in after
    ensures !IsMember(Run(alloc, root, r, before + [LeaveJob(s)] + after), s)
  {
    var events, n := before + [LeaveJob(s)] + after, |before|;
    MemberExactly(alloc, root, r, events, s);
    assert Leaves(events[n], s);
    forall i: nat | n < i < |events| ensures events[i] in after {
      assert events[i] == after[i - n - 1];
    }
    assert forall i: nat :: AdmittedAt(alloc, root, r, events, i, s) ==> i <= n;
  }

  // ---- acknowledgements

  /** An acknowledgement names this room and an id it has, or is the refusal. */
  predicate AckOk(room: int, m: Msg) {
    m.EnterAck? ==> m == EnterAck(-1, 0) || (m.room == room && m.seqID < 1000)
  }

  ghost predicate QueueOk(room: int, msgs: seq<Msg>) {
    forall i | 0 <= i < |msgs| :: AckOk(room, msgs[i])
  }

  ghost predicate AcksOk(r: RoomState) {
    forall s :: QueueOk(r.roomID, InboxOf(r.inbox, s))
  }

  lemma QueueGrows(room: int, msgs: seq<Msg>, more: seq<Msg>)
    requires QueueOk(room, msgs) && QueueOk(room, more)
    ensures QueueOk(room, msgs + more)
  {
  }

  lemma {:induction false} SpawnsOk(room: int, batches: seq<seq<Spot>>)
    ensures QueueOk(room, AsSpawns(batches))
  {
    if batches != [] {
      SpawnsOk(room, batches[..|batches| - 1]);
    }
  }

  lemma {:induction false} MadeOk(room: int, alloc: nat -> bool, calls: nat, batches: seq<seq<Spot>>)
    ensures QueueOk(room, Made(alloc, calls, batches))
  {
    if batches != [] {
      MadeOk(room, alloc, calls, batches[..|batches| - 1]);
    }
  }

  lemma AdmissionOk(room: int, id: nat, spawns: seq<seq<Spot>>)
    requires id < 1000
    ensures QueueOk(room, [EnterAck(room, id)] + AsSpawns(spawns))
  {
    SpawnsOk(room, spawns);
    QueueGrows(room, [EnterAck(room, id)], AsSpawns(spawns));
  }

  /** The session's own queue. */
  lemma OwnAcks(alloc: nat -> bool, r: RoomState, s: Session)
    requires Books(r) && QueueOk(r.roomID, InboxOf(r.inbox, s))
    ensures QueueOk(r.roomID, InboxOf(Enter(alloc, r, s).inbox, s))
  {
    var _, _, spawns := EnterAnswers(alloc, r, s);
    if Joins(alloc, r, s) {
      assert r.free[0] in r.free;
      AdmissionOk(r.roomID, r.free[0], spawns);
      QueueGrows(r.roomID, InboxOf(r.inbox, s), [EnterAck(r.roomID, r.free[0])] + AsSpawns(spawns));
    }
  }

  lemma EnterAcks(alloc: nat -> bool, r: RoomState, s: Session, x: Session)
    requires Books(r) && QueueOk(r.roomID, InboxOf(r.inbox, x))
    ensures QueueOk(r.roomID, InboxOf(Enter(alloc, r, s).inbox, x))
  {
    if x == s {
      OwnAcks(alloc, r, s);
    } else {
      EnterTellsOthers(alloc, r, s, x);
    }
  }

  lemma LeaveAcks(alloc: nat -> bool, r: RoomState, s: Session, x: Session)
    requires Books(r) && QueueOk(r.roomID, InboxOf(r.inbox, x))
    ensures QueueOk(r.roomID, InboxOf(Leave(alloc, r, s).inbox, x))
  {
    if s in r.connected {
      LeaveTells(alloc, r, s, x);
    }
  }

  lemma TickAcks(alloc: nat -> bool, r: RoomState, now: Clock, x: Session)
    requires Books(r) && QueueOk(r.roomID, InboxOf(r.inbox, x))
    ensures QueueOk(r.roomID, InboxOf(TickRoom(alloc, r, now).inbox, x))
  {
    if Due(r.lastTick, now) {
      var moved, batches := r.(lastTick := now, users := MoveUsers(r.users, now)), MoveBatches(TickSpots(r, now));
      TickDelivered(alloc, moved, batches, x);
      MadeOk(r.roomID, alloc, r.calls, batches);
      QueueGrows(r.roomID, InboxOf(r.inbox, x), Made(alloc, r.calls, batches));
    }
  }

  lemma StepAcks(alloc: nat -> bool, root: real -> real, r: RoomState, e: Event, x: Session)
    requires Books(r) && QueueOk(r.roomID, InboxOf(r.inbox, x))
    ensures QueueOk(r.roomID, InboxOf(Apply(alloc, root, r, e).inbox, x))
  {
    match e
    case EnterJob(s) => EnterAcks(alloc, r, s, x);
    case LeaveJob(s) => LeaveAcks(alloc, r, s, x);
    case BroadcastJob(s, data) => BroadCastTells(alloc, r, s, data, x);
    case MoveJob(_, _, _, _) =>
    case TickEvent(at) => TickAcks(alloc, r, at, x);
  }

  lemma SameRoom(alloc: nat -> bool, root: real -> real, r: RoomState, e: Event)
    requires Books(r)
    ensures Apply(alloc, root, r, e).roomID == r.roomID
  {
    match e
    case EnterJob(s) => EnterExact(alloc, r, s);
    case TickEvent(at) => SendAllFrame(alloc, r.(lastTick := at, users := MoveUsers(r.users, at)), MoveBatches(TickSpots(r.(lastTick := at), at)));
    case _ =>
  }

  lemma {:induction false} RunAcks(alloc: nat -> bool, root: real -> real, r: RoomState, events: seq<Event>)
    requires Books(r) && AcksOk(r)
    ensures var t := Run(alloc, root, r, events); t.roomID == r.roomID && AcksOk(t)
    decreases |events|
  {
    if events != [] {
      var next := Apply(alloc, root, r, events[0]);
      ApplyBooks(alloc, root, r, events[0]);
      SameRoom(alloc, root, r, events[0]);
      forall x ensures QueueOk(r.roomID, InboxOf(next.inbox, x)) {
        StepAcks(alloc, root, r, events[0], x);
      }
      RunAcks(alloc, root, next, events[1..]);
    }
  }

  /** Whatever a room does, the acknowledgements it sends name it, and an id below 1000, or are
      refusals. */
  lemma AcksNameRoom(alloc: nat -> bool, root: real -> real, roomID: int, events: seq<Event>)
    ensures var inbox := Run(alloc, root, NewRoom(roomID), events).inbox;
            forall s :: QueueOk(roomID, InboxOf(inbox, s))
  {
    NewRoomBooks(roomID);
    RunAcks(alloc, root, NewRoom(roomID), events);
  }
}
