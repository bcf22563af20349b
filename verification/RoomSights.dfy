/** A move as the other clients see it: from the request to what arrives in their send queues. */
module RoomSights {
  import opened Basics
  import opened Movement
  import opened MoveRun
  import opened RoomSpec
  import opened RoomBooks
  import opened RoomViews
  import opened RoomMoves
  import opened RoomRun

  /** The entries about one id. */
  function About(spots: seq<Spot>, id: nat): seq<Spot> {
    if spots == [] then []
    else
      var last := spots[|spots| - 1];
      About(spots[..|spots| - 1], id) + if last.seqID == id then [last] else []
  }

  /** Everything a client is told about where one id is, in order. */
  function Sights(msgs: seq<Msg>, id: nat): seq<Spot> {
    if msgs == [] then []
    else
      var last := msgs[|msgs| - 1];
      Sights(msgs[..|msgs| - 1], id) + if last.MoveNote? then About(last.spots, id) else []
  }

  function SightsOf(inbox: Inboxes, x: Session, id: nat): seq<Spot> {
    Sights(InboxOf(inbox, x), id)
  }

  /** The points of a move as entries. */
  function AsSpots(points: seq<Point>, id: nat): seq<Spot> {
    if points == [] then []
    else AsSpots(points[..|points| - 1], id) + [Spot(id, points[|points| - 1].x, points[|points| - 1].y)]
  }

  lemma {:induction false} AsSpotsJoin(a: seq<Point>, b: seq<Point>, id: nat)
    ensures AsSpots(a + b, id) == AsSpots(a, id) + AsSpots(b, id)
  {
    if b == [] {
      assert a + [] == a;
    } else {
      var n := |b| - 1;
      assert (a + b)[..|a + b| - 1] == a + b[..n];
      AsSpotsJoin(a, b[..n], id);
    }
  }

  lemma {:induction false} AboutPoints(spots: seq<Spot>, id: nat, at: Clock)
    ensures About(spots, id) == AsSpots(PointsOf(spots, id, at), id)
  {
    if spots != [] {
      var init, last := spots[..|spots| - 1], spots[|spots| - 1];
      AboutPoints(init, id, at);
      var points, p := PointsOf(init, id, at), Point(at, last.x, last.y);
      assert (points + [p])[..|points|] == points && points + [] == points;
      assert About(init, id) + [] == About(init, id);
    }
  }

  lemma {:induction false} AboutJoin(a: seq<Spot>, b: seq<Spot>, id: nat)
    ensures About(a + b, id) == About(a, id) + About(b, id)
  {
    if b == [] {
      assert a + [] == a;
    } else {
      var n := |b| - 1;
      assert (a + b)[..|a + b| - 1] == a + b[..n];
      AboutJoin(a, b[..n], id);
    }
  }

  lemma {:induction false} PointsJoin(a: seq<Spot>, b: seq<Spot>, id: nat, at: Clock)
    ensures PointsOf(a + b, id, at) == PointsOf(a, id, at) + PointsOf(b, id, at)
  {
    if b == [] {
      assert a + [] == a;
    } else {
      var n := |b| - 1;
      assert (a + b)[..|a + b| - 1] == a + b[..n];
      PointsJoin(a, b[..n], id, at);
    }
  }

  // ---- what is left when some packets could not be made

  lemma ShowsPrefix(u: RoomUser, b: seq<Point>)
    requires u.start <= u.end && ShowsMove(u, b) && b != []
    ensures ShowsMove(u, b[..|b| - 1])
  {
  }

  /** Leaving snapshots out of a proper move leaves a proper move. */
  lemma {:induction false} ShowsLess(u: RoomUser, a: seq<Point>, b: seq<Point>)
    requires u.start <= u.end && ShowsMove(u, b) && Subsequence(a, b)
    ensures ShowsMove(u, a)
    decreases |b|
  {
    if a != [] {
      var init, n := b[..|b| - 1], |a| - 1;
      ShowsPrefix(u, b);
      SubsequenceIn(a, b);
      if Subsequence(a, init) {
        ShowsLess(u, a, init);
      } else {
        ShowsLess(u, a[..n], init);
        SubsequenceIn(a[..n], init);
        forall i | 0 <= i < n
          ensures Between(a[i].x, a[n].x, u.destX) && Between(a[i].y, a[n].y, u.destY)
        {
          assert a[i] in a[..n];
          var j :| 0 <= j < |init| && init[j] == a[i];
        }
      }
    }
  }

  // ---- everything but the tick is silent about positions

  lemma PostSilent(inbox: Inboxes, s: Session, m: Msg, x: Session, id: nat)
    requires !m.MoveNote?
    ensures SightsOf(Post(inbox, s, m), x, id) == SightsOf(inbox, x, id)
  {
  }

  lemma {:induction false} DeliverSilent(inbox: Inboxes, targets: seq<Session>, m: Msg, x: Session, id: nat)
    requires !m.MoveNote?
    ensures SightsOf(Deliver(inbox, targets, m), x, id) == SightsOf(inbox, x, id)
  {
    if targets != [] {
      var n := |targets| - 1;
      DeliverSilent(inbox, targets[..n], m, x, id);
      PostSilent(Deliver(inbox, targets[..n], m), targets[n], m, x, id);
    }
  }

  lemma {:induction false} SpawnsSilent(inbox: Inboxes, s: Session, batches: seq<seq<Spot>>, x: Session, id: nat)
    ensures SightsOf(PostSpawns(inbox, s, batches), x, id) == SightsOf(inbox, x, id)
  {
    if batches != [] {
      var n := |batches| - 1;
      SpawnsSilent(inbox, s, batches[..n], x, id);
      PostSilent(PostSpawns(inbox, s, batches[..n]), s, Spawn(batches[n]), x, id);
    }
  }

  lemma JoinSilent(alloc: nat -> bool, r: RoomState, s: Session, given: nat, x: Session, id: nat)
    ensures SightsOf(Join(alloc, r, s, given).inbox, x, id) == SightsOf(r.inbox, x, id)
    ensures r.calls <= Join(alloc, r, s, given).calls
  {
    var a := Admit(r, s, given);
    var others := OtherKeys(a.users, a.order, s);
    var told := Deliver(a.inbox, SessionsOf(a.users, others), NewSpawn(given));
    PostSilent(r.inbox, s, EnterAck(r.roomID, given), x, id);
    DeliverSilent(a.inbox, SessionsOf(a.users, others), NewSpawn(given), x, id);
    SpawnsSilent(told, s, SpawnBatches(alloc, a.calls, SpotsOf(a.users, others)).sent, x, id);
    JoinCalls(alloc, r, s, given);
  }

  lemma EnterSilent(alloc: nat -> bool, r: RoomState, s: Session, x: Session, id: nat)
    ensures SightsOf(Enter(alloc, r, s).inbox, x, id) == SightsOf(r.inbox, x, id)
    ensures r.calls <= Enter(alloc, r, s).calls
  {
    if Joins(alloc, r, s) {
      JoinSilent(alloc, Tried(r), s, r.free[0], x, id);
      EnterIsJoin(alloc, r, s);
    } else if s !in r.connected {
      PostSilent(r.inbox, s, EnterAck(-1, 0), x, id);
    }
  }

  lemma TellSilent(r: RoomState, s: Session, m: Msg, x: Session, id: nat)
    requires !m.MoveNote?
    ensures SightsOf(Deliver(r.inbox, SessionsOf(r.users, OtherKeys(r.users, r.order, s)), m), x, id) == SightsOf(r.inbox, x, id)
  {
    DeliverSilent(r.inbox, SessionsOf(r.users, OtherKeys(r.users, r.order, s)), m, x, id);
  }

  lemma LeaveSilent(alloc: nat -> bool, r: RoomState, s: Session, x: Session, id: nat)
    ensures SightsOf(Leave(alloc, r, s).inbox, x, id) == SightsOf(r.inbox, x, id)
    ensures r.calls <= Leave(alloc, r, s).calls
  {
    if s in r.connected && s.socket in r.users {
      var out := r.(connected := r.connected - {s});
      TellSilent(out, s, LeaveNote(r.users[s.socket].seqID), x, id);
    }
  }

  lemma BroadCastSilent(alloc: nat -> bool, r: RoomState, s: Session, data: nat, x: Session, id: nat)
    ensures SightsOf(BroadCast(alloc, r, s, data).inbox, x, id) == SightsOf(r.inbox, x, id)
    ensures r.calls <= BroadCast(alloc, r, s, data).calls
  {
    TellSilent(r, s, Chat(data), x, id);
  }

  lemma JobSilent(alloc: nat -> bool, root: real -> real, r: RoomState, e: Event, x: Session, id: nat)
    requires !e.TickEvent?
    ensures SightsOf(Apply(alloc, root, r, e).inbox, x, id) == SightsOf(r.inbox, x, id)
    ensures r.calls <= Apply(alloc, root, r, e).calls
  {
    match e
    case EnterJob(s) => EnterSilent(alloc, r, s, x, id);
    case LeaveJob(s) => LeaveSilent(alloc, r, s, x, id);
    case BroadcastJob(s, data) => BroadCastSilent(alloc, r, s, data, x, id);
    case MoveJob(_, _, _, _) =>
  }

  // ---- the tick

  /** The entries of the packets that could be made. */
  function MadeSpots(alloc: nat -> bool, calls: nat, batches: seq<seq<Spot>>): seq<Spot> {
    if batches == [] then []
    else
      var n := |batches| - 1;
      MadeSpots(alloc, calls, batches[..n]) + if alloc(calls + n) then batches[n] else []
  }

  lemma {:induction false} MadeAll(alloc: nat -> bool, calls: nat, batches: seq<seq<Spot>>)
    requires AllOk(alloc, calls, calls + |batches|)
    ensures MadeSpots(alloc, calls, batches) == Concat(batches)
  {
    if batches != [] {
      MadeAll(alloc, calls, batches[..|batches| - 1]);
    }
  }

  lemma {:induction false} MadeLess(alloc: nat -> bool, calls: nat, batches: seq<seq<Spot>>, id: nat, at: Clock)
    ensures Subsequence(PointsOf(MadeSpots(alloc, calls, batches), id, at), PointsOf(Concat(batches), id, at))
  {
    if batches != [] {
      var n := |batches| - 1;
      var made, last := MadeSpots(alloc, calls, batches[..n]), PointsOf(batches[n], id, at);
      MadeLess(alloc, calls, batches[..n], id, at);
      PointsJoin(Concat(batches[..n]), batches[n], id, at);
      SubsequenceSame(last);
      SubsequenceJoin(PointsOf(made, id, at), PointsOf(Concat(batches[..n]), id, at), last, last);
      SubsequenceJoin(PointsOf(made, id, at), PointsOf(Concat(batches[..n]), id, at), [], last);
      PointsJoin(made, batches[n], id, at);
      SeqEmpty(PointsOf(made, id, at));
      SeqEmpty(made);
    }
  }

  lemma SightsSnoc(msgs: seq<Msg>, spots: seq<Spot>, id: nat)
    ensures Sights(msgs + [MoveNote(spots)], id) == Sights(msgs, id) + About(spots, id)
  {
    assert (msgs + [MoveNote(spots)])[..|msgs|] == msgs;
  }

  lemma SightsOneMore(msgs: seq<Msg>, made: seq<Msg>, spots: seq<Spot>, batch: seq<Spot>, id: nat)
    requires Sights(msgs + made, id) == Sights(msgs, id) + About(spots, id)
    ensures Sights(msgs + (made + [MoveNote(batch)]), id) == Sights(msgs, id) + About(spots + batch, id)
  {
    SeqAssociates(msgs, made, [MoveNote(batch)]);
    SightsSnoc(msgs + made, batch, id);
    AboutJoin(spots, batch, id);
    SeqAssociates(Sights(msgs, id), About(spots, id), About(batch, id));
  }

  /** All of a tick's packets that could be made, one after the other. */
  lemma {:induction false} MadeSights(alloc: nat -> bool, calls: nat, batches: seq<seq<Spot>>, msgs: seq<Msg>, id: nat)
    ensures Sights(msgs + Made(alloc, calls, batches), id)
         == Sights(msgs, id) + About(MadeSpots(alloc, calls, batches), id)
  {
    if batches == [] {
      assert msgs + [] == msgs;
    } else {
      var n := |batches| - 1;
      var made, spots := Made(alloc, calls, batches[..n]), MadeSpots(alloc, calls, batches[..n]);
      MadeSights(alloc, calls, batches[..n], msgs, id);
      SightsOneMore(msgs, made, spots, batches[n], id);
      SeqEmpty(made);
      SeqEmpty(spots);
    }
  }

  lemma BatchSights(alloc: nat -> bool, r: RoomState, batches: seq<seq<Spot>>, k: int, id: nat)
    requires Filed(r.users, r.order) && k in r.users && forall l | l in r.users :: l in r.order
    ensures SendAll(alloc, r, batches).calls == r.calls + |batches|
    ensures SightsOf(SendAll(alloc, r, batches).inbox, r.users[k].session, id)
         == SightsOf(r.inbox, r.users[k].session, id) + About(MadeSpots(alloc, r.calls, batches), id)
  {
    var x := r.users[k].session;
    assert x.socket == k && IsMember(r, x);
    TickDelivered(alloc, r, batches, x);
    SendAllQuiet(alloc, r, batches, x);
    MadeSights(alloc, r.calls, batches, InboxOf(r.inbox, x), id);
  }

  lemma MovedFiled(r: RoomState, now: Clock, k: int)
    requires Books(r) && k in r.users
    ensures var moved := MoveUsers(r.users, now);
            && Filed(moved, r.order) && (forall l | l in moved :: l in r.order)
            && k in moved && moved[k].session == r.users[k].session
  {
  }

  /** What every member is told about one id in an event, as points. */
  function ReceivedIn(alloc: nat -> bool, r: RoomState, e: Event, id: nat): seq<Point> {
    if e.TickEvent? && Due(r.lastTick, e.at) then
      PointsOf(MadeSpots(alloc, r.calls, MoveBatches(TickSpots(r, e.at))), id, e.at)
    else []
  }

  function Received(alloc: nat -> bool, root: real -> real, r: RoomState, events: seq<Event>, id: nat): seq<Point>
    decreases |events|
  {
    if events == [] then []
    else ReceivedIn(alloc, r, events[0], id) + Received(alloc, root, Apply(alloc, root, r, events[0]), events[1..], id)
  }

  lemma TickSends(alloc: nat -> bool, r: RoomState, now: Clock)
    requires Due(r.lastTick, now)
    ensures TickRoom(alloc, r, now)
         == SendAll(alloc, r.(lastTick := now, users := MoveUsers(r.users, now)), MoveBatches(TickSpots(r, now)))
  {
  }

  lemma TickSights(alloc: nat -> bool, r: RoomState, now: Clock, k: int, id: nat)
    requires Books(r) && k in r.users && Due(r.lastTick, now)
    ensures SightsOf(TickRoom(alloc, r, now).inbox, r.users[k].session, id)
         == SightsOf(r.inbox, r.users[k].session, id) + AsSpots(ReceivedIn(alloc, r, TickEvent(now), id), id)
    ensures AllOk(alloc, r.calls, TickRoom(alloc, r, now).calls) ==>
              ReceivedIn(alloc, r, TickEvent(now), id) == PointsIn(r, TickEvent(now), id)
  {
    var batches := MoveBatches(TickSpots(r, now));
    MovedFiled(r, now, k);
    TickSends(alloc, r, now);
    BatchSights(alloc, r.(lastTick := now, users := MoveUsers(r.users, now)), batches, k, id);
    AboutPoints(MadeSpots(alloc, r.calls, batches), id, now);
    if AllOk(alloc, r.calls, r.calls + |batches|) {
      MadeAll(alloc, r.calls, batches);
    }
  }

  lemma OneSpot(id: nat, p: Point)
    ensures AsSpots([p], id) == [Spot(id, p.x, p.y)]
  {
    assert [p][..0] == [];
  }

  /** Where a due tick sees the user. */
  ghost function Shown(u: RoomUser, now: Clock): seq<Spot>
    requires Timely(u, now)
  {
    if u.isMove then [Spot(u.seqID, DirectX(u, now), DirectY(u, now))] else []
  }

  lemma ShownInTick(r: RoomState, now: Clock, k: int)
    requires Books(r) && k in r.users && Timely(r.users[k], now) && Due(r.lastTick, now)
    ensures AsSpots(PointsIn(r, TickEvent(now), r.users[k].seqID), r.users[k].seqID) == Shown(r.users[k], now)
  {
    var u := r.users[k];
    TickPoint(r, k, now);
    LookIsDirect(u, now);
    var p := Point(now, DirectX(u, now), DirectY(u, now));
    OneSpot(u.seqID, p);
    assert [] + [p] == [p];
  }

  lemma DueTick(alloc: nat -> bool, r: RoomState, now: Clock, k: int, other: int)
    requires Books(r) && k in r.users && Timely(r.users[k], now) && other in r.users && Due(r.lastTick, now)
    requires AllOk(alloc, r.calls, TickRoom(alloc, r, now).calls)
    ensures SightsOf(TickRoom(alloc, r, now).inbox, r.users[other].session, r.users[k].seqID)
         == SightsOf(r.inbox, r.users[other].session, r.users[k].seqID) + Shown(r.users[k], now)
  {
    TickSights(alloc, r, now, other, r.users[k].seqID);
    ShownInTick(r, now, k);
  }

  /** What a tick of the clock does: within a hundred milliseconds of the last one nothing; after
      that every member is told where each moving member is now, if all packets can be made. */
  lemma TickShows(alloc: nat -> bool, root: real -> real, r: RoomState, now: Clock, k: int, other: int)
    requires Books(r) && k in r.users && Timely(r.users[k], now) && other in r.users
    ensures now < r.lastTick + 100 ==> Apply(alloc, root, r, TickEvent(now)) == r
    ensures now >= r.lastTick + 100 ==> Apply(alloc, root, r, TickEvent(now)).lastTick == now
    ensures var t := Apply(alloc, root, r, TickEvent(now)); var id, x := r.users[k].seqID, r.users[other].session;
            now >= r.lastTick + 100 && AllOk(alloc, r.calls, t.calls) ==>
              SightsOf(t.inbox, x, id) == SightsOf(r.inbox, x, id) + Shown(r.users[k], now)
  {
    TickUsers(alloc, r, now);
    if now >= r.lastTick + 100 && AllOk(alloc, r.calls, TickRoom(alloc, r, now).calls) {
      DueTick(alloc, r, now, k, other);
    }
  }

  lemma CallsGrow(alloc: nat -> bool, root: real -> real, r: RoomState, e: Event)
    ensures r.calls <= Apply(alloc, root, r, e).calls
  {
    if e.TickEvent? {
      var moved := r.(lastTick := e.at, users := MoveUsers(r.users, e.at));
      SendAllQuiet(alloc, moved, MoveBatches(TickSpots(r, e.at)), Session(0, 0));
    } else {
      JobSilent(alloc, root, r, e, Session(0, 0), 0);
    }
  }

  lemma {:induction false} RunCallsGrow(alloc: nat -> bool, root: real -> real, r: RoomState, events: seq<Event>)
    ensures r.calls <= Run(alloc, root, r, events).calls
    decreases |events|
  {
    if events != [] {
      CallsGrow(alloc, root, r, events[0]);
      RunCallsGrow(alloc, root, Apply(alloc, root, r, events[0]), events[1..]);
    }
  }

  /** An event without packets about positions. */
  lemma QuietSights(alloc: nat -> bool, root: real -> real, r: RoomState, e: Event, x: Session, id: nat)
    requires e.TickEvent? ==> !Due(r.lastTick, e.at)
    ensures SightsOf(Apply(alloc, root, r, e).inbox, x, id) == SightsOf(r.inbox, x, id)
    ensures ReceivedIn(alloc, r, e, id) == PointsIn(r, e, id) == []
  {
    if !e.TickEvent? {
      JobSilent(alloc, root, r, e, x, id);
    }
  }

  lemma StepSights(alloc: nat -> bool, root: real -> real, r: RoomState, e: Event, k: int, id: nat)
    requires Books(r) && k in r.users
    ensures SightsOf(Apply(alloc, root, r, e).inbox, r.users[k].session, id)
         == SightsOf(r.inbox, r.users[k].session, id) + AsSpots(ReceivedIn(alloc, r, e, id), id)
    ensures AllOk(alloc, r.calls, Apply(alloc, root, r, e).calls) ==> ReceivedIn(alloc, r, e, id) == PointsIn(r, e, id)
    ensures Subsequence(ReceivedIn(alloc, r, e, id), PointsIn(r, e, id))
  {
    if e.TickEvent? && Due(r.lastTick, e.at) {
      assert Apply(alloc, root, r, e) == TickRoom(alloc, r, e.at);
      TickSights(alloc, r, e.at, k, id);
      MadeLess(alloc, r.calls, MoveBatches(TickSpots(r, e.at)), id, e.at);
    } else {
      var x := r.users[k].session;
      QuietSights(alloc, root, r, e, x, id);
      assert SightsOf(r.inbox, x, id) + [] == SightsOf(r.inbox, x, id);
    }
  }

  /** A member that stays is sent exactly those snapshots of every id that could be made, in
      order: all of them as long as no allocation fails. */
  lemma {:induction false} RunSights(alloc: nat -> bool, root: real -> real, r: RoomState, events: seq<Event>, k: int, id: nat)
    requires Books(r) && k in r.users
    requires forall i | 0 <= i < |events| :: !Leaves(events[i], r.users[k].session)
    ensures SightsOf(Run(alloc, root, r, events).inbox, r.users[k].session, id)
         == SightsOf(r.inbox, r.users[k].session, id) + AsSpots(Received(alloc, root, r, events, id), id)
    ensures Subsequence(Received(alloc, root, r, events, id), Snapshots(alloc, root, r, events, id))
    ensures AllOk(alloc, r.calls, Run(alloc, root, r, events).calls) ==>
              Received(alloc, root, r, events, id) == Snapshots(alloc, root, r, events, id)
    decreases |events|
  {
    var x := r.users[k].session;
    if events == [] {
      assert SightsOf(r.inbox, x, id) + [] == SightsOf(r.inbox, x, id);
    } else {
      var e, rest := events[0], events[1..];
      var next, got := Apply(alloc, root, r, e), ReceivedIn(alloc, r, e, id);
      ApplyBooks(alloc, root, r, e);
      CallsGrow(alloc, root, r, e);
      RunCallsGrow(alloc, root, next, rest);
      StepSights(alloc, root, r, e, k, id);
      StaysUnlessLeaves(alloc, root, r, e, k);
      RunSights(alloc, root, next, rest, k, id);
      var later := Received(alloc, root, next, rest, id);
      AsSpotsJoin(got, later, id);
      SeqAssociates(SightsOf(r.inbox, x, id), AsSpots(got, id), AsSpots(later, id));
      SubsequenceJoin(got, PointsIn(r, e, id), later, Snapshots(alloc, root, next, rest, id));
    }
  }

  /** Main result from request to client. After a member's accepted request for (x, y), what every
      member that stays is sent about the mover, the mover included, is one proper move, whatever
      packets could not be made; and if all could and the move has ended, the last entry is
      (x, y). */
  lemma MoveSeenBy(alloc: nat -> bool, root: real -> real, r: RoomState, s: Session, x: real, y: real, now: Clock,
                   events: seq<Event>, other: int) returns (seen: seq<Point>)
    requires Accepted(root, r, s, x, y, now) && InTime(now, events) && Undisturbed(events, s)
    requires other in r.users && forall i | 0 <= i < |events| :: !Leaves(events[i], r.users[other].session)
    ensures var m := Move(root, r, s, Finite(x), Finite(y), now); var t := Run(alloc, root, m, events);
            && s.socket in m.users && s.socket in t.users && Departing(m.users[s.socket], now)
            && ArrivesInTime(m.users[s.socket], DirectX(r.users[s.socket], now), DirectY(r.users[s.socket], now), x, y, now)
            && ShowsMove(m.users[s.socket], seen)
            && (AllOk(alloc, r.calls, t.calls) && !t.users[s.socket].isMove ==> EndsAt(seen, x, y))
            && SightsOf(t.inbox, r.users[other].session, m.users[s.socket].seqID)
               == SightsOf(r.inbox, r.users[other].session, m.users[s.socket].seqID) + AsSpots(seen, m.users[s.socket].seqID)
  {
    var m := Move(root, r, s, Finite(x), Finite(y), now);
    var u := m.users[s.socket];
    AcceptedDeparts(root, r, s, x, y, now);
    MoveSeen(alloc, root, r, s, x, y, now, events);
    seen := Received(alloc, root, m, events, u.seqID);
    RunSights(alloc, root, m, events, other, u.seqID);
    ShowsLess(u, seen, Snapshots(alloc, root, m, events, u.seqID));
  }
}
