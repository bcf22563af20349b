/** The room object: what the room thread runs, statement by statement, against RoomSpec. The
    flags and send queues of its sessions are fields here, because nobody else is modelled. */
module Rooms {
  import opened JobDraining
  import opened Movement
  import opened MoveRun
  import opened Packets
  import opened RoomSpec
  import opened RoomBooks
  import opened RoomViews
  import opened RoomMoves

  /** What may be pushed. A move carries the clock that is read when it is dispatched. */
  type Job = e: Event | !e.TickEvent? witness EnterJob(Session(0, 0))

  // ---- one more step of a loop over the map

  ghost predicate Keyed(users: map<int, RoomUser>, order: seq<int>) {
    forall i | 0 <= i < |order| :: order[i] in users
  }

  lemma NextOther(users: map<int, RoomUser>, order: seq<int>, i: nat, s: Session)
    requires i < |order| && order[i] in users
    ensures OtherKeys(users, order[..i + 1], s)
         == if users[order[i]].session != s then OtherKeys(users, order[..i], s) + [order[i]]
            else OtherKeys(users, order[..i], s)
  {
    assert order[..i + 1][..i] == order[..i];
  }

  lemma NextMoving(users: map<int, RoomUser>, order: seq<int>, i: nat)
    requires i < |order| && order[i] in users
    ensures MovingKeys(users, order[..i + 1])
         == if users[order[i]].isMove then MovingKeys(users, order[..i]) + [order[i]] else MovingKeys(users, order[..i])
  {
    assert order[..i + 1][..i] == order[..i];
  }

  lemma NextSession(users: map<int, RoomUser>, order: seq<int>, i: nat)
    requires i < |order| && order[i] in users
    ensures SessionsOf(users, order[..i + 1]) == SessionsOf(users, order[..i]) + [users[order[i]].session]
  {
    assert order[..i + 1][..i] == order[..i];
  }

  lemma SelectionSnoc(users: map<int, RoomUser>, keys: seq<int>, k: int)
    requires k in users
    ensures SessionsOf(users, keys + [k]) == SessionsOf(users, keys) + [users[k].session]
    ensures SpotsOf(users, keys + [k]) == SpotsOf(users, keys) + [SpotOf(users[k])]
  {
  }

  lemma DeliverSnoc(inbox: Inboxes, targets: seq<Session>, x: Session, m: Msg)
    ensures Deliver(inbox, targets + [x], m) == Post(Deliver(inbox, targets, m), x, m)
  {
  }

  lemma PostSpawnsSnoc(inbox: Inboxes, s: Session, batches: seq<seq<Spot>>, b: seq<Spot>)
    ensures PostSpawns(inbox, s, batches + [b]) == Post(PostSpawns(inbox, s, batches), s, Spawn(b))
  {
  }

  lemma AddSpawnsSnoc(alloc: nat -> bool, calls: nat, spots: seq<Spot>, spot: Spot)
    ensures AddSpawns(alloc, calls, spots + [spot]) == AddSpawn(alloc, AddSpawns(alloc, calls, spots), spot)
  {
  }

  lemma PackSnoc(spots: seq<Spot>, spot: Spot)
    ensures var (full, pending) := Pack(spots);
            Pack(spots + [spot]) == if |pending| < MAX_SEND_COUNT then (full, pending + [spot]) else (full + [pending], [spot])
  {
  }

  lemma SendAllSnoc(alloc: nat -> bool, r: RoomState, batches: seq<seq<Spot>>, b: seq<Spot>)
    ensures SendAll(alloc, r, batches + [b]) == SendMoveData(alloc, SendAll(alloc, r, batches), b)
  {
  }

  /** Packets to the new member and to another one may be queued in either order. */
  lemma {:induction false} PostsCommute(inbox: Inboxes, s: Session, batches: seq<seq<Spot>>, x: Session, m: Msg)
    requires x != s
    ensures Post(PostSpawns(inbox, s, batches), x, m) == PostSpawns(Post(inbox, x, m), s, batches)
  {
    if batches != [] {
      var n := |batches| - 1;
      PostsCommute(inbox, s, batches[..n], x, m);
      PostCommutes(PostSpawns(inbox, s, batches[..n]), s, Spawn(batches[n]), x, m);
    }
  }

  lemma PostCommutes(inbox: Inboxes, s: Session, m: Msg, x: Session, n: Msg)
    requires x != s
    ensures Post(Post(inbox, s, m), x, n) == Post(Post(inbox, x, n), s, m)
  {
  }

  /** Sessions do not change while positions do. */
  lemma {:induction false} SameSessions(users: map<int, RoomUser>, after: map<int, RoomUser>, keys: seq<int>)
    requires after.Keys == users.Keys && forall k | k in users :: after[k].session == users[k].session
    ensures SessionsOf(after, keys) == SessionsOf(users, keys)
  {
    if keys != [] {
      SameSessions(users, after, keys[..|keys| - 1]);
    }
  }

  /** How far Enter's loop has come: what was queued, the packet being filled, and the next call. */
  ghost predicate Spawned(alloc: nat -> bool, r: RoomState, s: Session, id: nat, keys: seq<int>,
                          inbox: Inboxes, calls: nat, pending: seq<Spot>) {
    var b := AddSpawns(alloc, r.calls, SpotsOf(r.users, keys));
    && inbox == PostSpawns(Deliver(r.inbox, SessionsOf(r.users, keys), NewSpawn(id)), s, b.sent)
    && calls == b.calls && pending == b.pending
  }

  /** One round of the loop, whatever was sent before. */
  lemma SpawnedNext(alloc: nat -> bool, r: RoomState, s: Session, id: nat, keys: seq<int>,
                    inbox: Inboxes, calls: nat, pending: seq<Spot>, k: int)
    requires Spawned(alloc, r, s, id, keys, inbox, calls, pending)
    requires k in r.users && r.users[k].session != s
    ensures var b := AddSpawn(alloc, Batching([], pending, calls), SpotOf(r.users[k]));
            Spawned(alloc, r, s, id, keys + [k],
                    PostSpawns(Post(inbox, r.users[k].session, NewSpawn(id)), s, b.sent), b.calls, b.pending)
  {
    var b, x := AddSpawns(alloc, r.calls, SpotsOf(r.users, keys)), r.users[k].session;
    var before := Deliver(r.inbox, SessionsOf(r.users, keys), NewSpawn(id));
    SelectionSnoc(r.users, keys, k);
    AddSpawnsSnoc(alloc, r.calls, SpotsOf(r.users, keys), SpotOf(r.users[k]));
    DeliverSnoc(r.inbox, SessionsOf(r.users, keys), x, NewSpawn(id));
    PostsCommute(before, s, b.sent, x, NewSpawn(id));
    PostSpawnsSnoc(Post(before, x, NewSpawn(id)), s, b.sent, b.pending);
    assert PostSpawns(Post(inbox, x, NewSpawn(id)), s, []) == Post(inbox, x, NewSpawn(id));
    assert [b.pending][..0] == [];
  }

  /** The same by position in the map. */
  ghost predicate SpawnedTo(alloc: nat -> bool, r: RoomState, s: Session, id: nat, i: nat,
                            inbox: Inboxes, calls: nat, pending: seq<Spot>)
    requires i <= |r.order|
  {
    Spawned(alloc, r, s, id, OtherKeys(r.users, r.order[..i], s), inbox, calls, pending)
  }

  lemma SpawnedStep(alloc: nat -> bool, r: RoomState, s: Session, id: nat, i: nat,
                    inbox: Inboxes, calls: nat, pending: seq<Spot>)
    requires i < |r.order| && r.order[i] in r.users && SpawnedTo(alloc, r, s, id, i, inbox, calls, pending)
    ensures var u := r.users[r.order[i]]; var b := AddSpawn(alloc, Batching([], pending, calls), SpotOf(u));
            if u.session == s then SpawnedTo(alloc, r, s, id, i + 1, inbox, calls, pending)
            else SpawnedTo(alloc, r, s, id, i + 1, PostSpawns(Post(inbox, u.session, NewSpawn(id)), s, b.sent), b.calls, b.pending)
  {
    NextOther(r.users, r.order, i, s);
    if r.users[r.order[i]].session != s {
      SpawnedNext(alloc, r, s, id, OtherKeys(r.users, r.order[..i], s), inbox, calls, pending, r.order[i]);
    }
  }

  /** What the loop and the last packet come to. */
  ghost predicate Exchanged(alloc: nat -> bool, r: RoomState, s: Session, id: nat, inbox: Inboxes, calls: nat) {
    var others := OtherKeys(r.users, r.order, s);
    var b := SpawnBatches(alloc, r.calls, SpotsOf(r.users, others));
    && inbox == PostSpawns(Deliver(r.inbox, SessionsOf(r.users, others), NewSpawn(id)), s, b.sent)
    && calls == b.calls
  }

  lemma SpawnedAll(alloc: nat -> bool, r: RoomState, s: Session, id: nat,
                   inbox: Inboxes, calls: nat, pending: seq<Spot>)
    requires SpawnedTo(alloc, r, s, id, |r.order|, inbox, calls, pending)
    ensures Exchanged(alloc, r, s, id,
                      if pending != [] && alloc(calls) then Post(inbox, s, Spawn(pending)) else inbox,
                      if pending == [] then calls else calls + 1)
  {
    assert r.order[..|r.order|] == r.order;
    var keys := OtherKeys(r.users, r.order, s);
    var b := AddSpawns(alloc, r.calls, SpotsOf(r.users, keys));
    PostSpawnsSnoc(Deliver(r.inbox, SessionsOf(r.users, keys), NewSpawn(id)), s, b.sent, b.pending);
  }

  /** How far MoveCheckUsers' loop has come with the users: those listed before `i` have been
      moved, the others have not. */
  ghost predicate MovedTo(before: map<int, RoomUser>, order: seq<int>, i: nat, now: Clock, users: map<int, RoomUser>)
    requires Keyed(before, order) && i <= |order|
  {
    && users.Keys == before.Keys
    && (forall j | 0 <= j < i :: users[order[j]] == MovePosition(before[order[j]], now))
    && (forall j | i <= j < |order| :: users[order[j]] == before[order[j]])
  }

  lemma MovedNext(before: map<int, RoomUser>, order: seq<int>, i: nat, now: Clock, users: map<int, RoomUser>)
    requires Keyed(before, order) && Sorted(order) && i < |order| && MovedTo(before, order, i, now, users)
    ensures MovedTo(before, order, i + 1, now, users[order[i] := MovePosition(before[order[i]], now)])
    ensures users[order[i]] == before[order[i]]
    ensures !before[order[i]].isMove ==> MovedTo(before, order, i + 1, now, users)
  {
  }

  lemma MovedAll(before: map<int, RoomUser>, order: seq<int>, now: Clock, users: map<int, RoomUser>)
    requires Keyed(before, order) && (forall k | k in before :: k in order)
    requires MovedTo(before, order, |order|, now, users)
    ensures users == MoveUsers(before, now)
  {
    forall k | k in before ensures users[k] == MoveUsers(before, now)[k] {
      var j :| 0 <= j < |order| && order[j] == k;
    }
  }

  lemma MovedSessions(before: map<int, RoomUser>, order: seq<int>, i: nat, now: Clock, users: map<int, RoomUser>)
    requires Keyed(before, order) && (forall k | k in before :: k in order) && i <= |order|
    requires MovedTo(before, order, i, now, users)
    ensures SessionsOf(users, order) == SessionsOf(MoveUsers(before, now), order)
  {
    forall k | k in before ensures users[k].session == MoveUsers(before, now)[k].session {
      var j :| 0 <= j < |order| && order[j] == k;
    }
    SameSessions(MoveUsers(before, now), users, order);
  }

  /** How far MoveCheckUsers' loop has come with its packets. */
  ghost predicate Sent(alloc: nat -> bool, moved: RoomState, spots: seq<Spot>, inbox: Inboxes, calls: nat, pending: seq<Spot>) {
    var (full, filling) := Pack(spots);
    var sent := SendAll(alloc, moved, full);
    inbox == sent.inbox && calls == sent.calls && pending == filling
  }

  lemma SentNext(alloc: nat -> bool, moved: RoomState, spots: seq<Spot>, r: RoomState, pending: seq<Spot>, spot: Spot)
    requires Sent(alloc, moved, spots, r.inbox, r.calls, pending)
    requires SessionsOf(r.users, r.order) == SessionsOf(moved.users, moved.order)
    ensures |pending| < MAX_SEND_COUNT ==> Sent(alloc, moved, spots + [spot], r.inbox, r.calls, pending + [spot])
    ensures |pending| >= MAX_SEND_COUNT ==>
              var t := RoomSpec.SendMoveData(alloc, r, pending);
              Sent(alloc, moved, spots + [spot], t.inbox, t.calls, [spot])
  {
    PackSnoc(spots, spot);
    SendAllFrame(alloc, moved, Pack(spots).0);
    SendAllSnoc(alloc, moved, Pack(spots).0, pending);
  }

  lemma SentAll(alloc: nat -> bool, moved: RoomState, spots: seq<Spot>, r: RoomState, pending: seq<Spot>)
    requires Sent(alloc, moved, spots, r.inbox, r.calls, pending)
    requires SessionsOf(r.users, r.order) == SessionsOf(moved.users, moved.order)
    ensures var t := if pending == [] then r else RoomSpec.SendMoveData(alloc, r, pending);
            var sent := SendAll(alloc, moved, MoveBatches(spots));
            t.inbox == sent.inbox && t.calls == sent.calls
  {
    SendAllFrame(alloc, moved, Pack(spots).0);
    SendAllSnoc(alloc, moved, Pack(spots).0, pending);
  }

  /** How far the tick's loop has come: the room `r` now, and the packet being filled. */
  ghost predicate TickAt(alloc: nat -> bool, before: RoomState, now: Clock, i: nat, r: RoomState, pending: seq<Spot>)
    requires Keyed(before.users, before.order) && i <= |before.order|
  {
    var moved := before.(users := MoveUsers(before.users, now));
    && r == before.(users := r.users, inbox := r.inbox, calls := r.calls)
    && MovedTo(before.users, before.order, i, now, r.users)
    && Sent(alloc, moved, SpotsOf(moved.users, MovingKeys(before.users, before.order[..i])), r.inbox, r.calls, pending)
  }

  lemma ListedKeyed(r: RoomState)
    requires Listed(r)
    ensures Keyed(r.users, r.order) && forall k | k in r.users :: k in r.order
  {
  }

  /** What one round does for a moving user, as MoveUser's contract says. */
  function Round(alloc: nat -> bool, m: RoomState, pending: seq<Spot>, spot: Spot): (RoomState, seq<Spot>) {
    if |pending| < MAX_SEND_COUNT then (m, pending + [spot]) else (RoomSpec.SendMoveData(alloc, m, pending), [spot])
  }

  lemma TickStill(alloc: nat -> bool, before: RoomState, now: Clock, i: nat, r: RoomState, pending: seq<Spot>)
    requires Listed(before) && Keyed(before.users, before.order) && i < |before.order|
    requires TickAt(alloc, before, now, i, r, pending)
    ensures before.order[i] in r.users && r.users[before.order[i]] == before.users[before.order[i]]
    ensures !r.users[before.order[i]].isMove ==> TickAt(alloc, before, now, i + 1, r, pending)
  {
    NextMoving(before.users, before.order, i);
    MovedNext(before.users, before.order, i, now, r.users);
  }

  lemma TickNext(alloc: nat -> bool, before: RoomState, now: Clock, i: nat, r: RoomState, pending: seq<Spot>)
    requires Listed(before) && Keyed(before.users, before.order) && i < |before.order|
    requires TickAt(alloc, before, now, i, r, pending)
    requires before.users[before.order[i]].isMove
    ensures var k := before.order[i];
            var v := MovePosition(before.users[k], now);
            var (t, p) := Round(alloc, r.(users := r.users[k := v]), pending, SpotOf(v));
            TickAt(alloc, before, now, i + 1, t, p)
  {
    var k, keys := before.order[i], MovingKeys(before.users, before.order[..i]);
    var v := MovePosition(before.users[k], now);
    var m := r.(users := r.users[k := v]);
    var moved := before.(users := MoveUsers(before.users, now));
    ListedKeyed(before);
    NextMoving(before.users, before.order, i);
    MovedNext(before.users, before.order, i, now, r.users);
    MovedSessions(before.users, before.order, i + 1, now, m.users);
    SelectionSnoc(moved.users, keys, k);
    SentNext(alloc, moved, SpotsOf(moved.users, keys), m, pending, SpotOf(v));
  }

  lemma TickDone(alloc: nat -> bool, before: RoomState, now: Clock, r: RoomState, pending: seq<Spot>)
    requires Listed(before) && Keyed(before.users, before.order)
    requires TickAt(alloc, before, now, |before.order|, r, pending)
    ensures RoomSpec.MoveCheckUsers(alloc, before, now)
         == if pending == [] then r else RoomSpec.SendMoveData(alloc, r, pending)
  {
    assert before.order[..|before.order|] == before.order;
    ListedKeyed(before);
    MovedAll(before.users, before.order, now, r.users);
    SentAll(alloc, before.(users := MoveUsers(before.users, now)), TickSpots(before, now), r, pending);
    SendAllFrame(alloc, before.(users := MoveUsers(before.users, now)), MoveBatches(TickSpots(before, now)));
  }

  class Room {
    const alloc: nat -> bool    // which MakeSendPacket calls succeed
    const root: real -> real    // sqrtf
    const jobQueue: JobQueue<Job>
    const roomID: int
    var users: map<int, RoomUser>
    var order: seq<int>         // the map's keys as it iterates them
    var seqIDs: seq<nat>
    var lastTick: Clock
    var connected: set<Session>
    var inbox: Inboxes
    var calls: nat
    ghost var withdrawn: set<nat>

    ghost function View(): RoomState
      reads this
    {
      RoomState(roomID, users, order, seqIDs, connected, lastTick, calls, inbox, withdrawn)
    }

    ghost predicate Valid()
      reads this
    {
      Books(View())
    }

    constructor (roomID: int, alloc: nat -> bool, root: real -> real)
      ensures Valid() && View() == NewRoom(roomID)
      ensures this.alloc == alloc && this.root == root
      ensures fresh(jobQueue) && jobQueue.queue == [] && !jobQueue.stop
    {
      this.roomID, this.alloc, this.root := roomID, alloc, root;
      jobQueue := new JobQueue<Job>();
      users, order, seqIDs, connected, inbox := map[], [], [], {}, map[];
      lastTick, calls, withdrawn := 0, 0, {};
      new;
      FillIDs(MAX_ROOM_USER_COUNT);
      NewRoomBooks(roomID);
    }

    /** The constructor's loop. */
    method FillIDs(count: nat)
      requires seqIDs == []
      modifies this`seqIDs
      ensures seqIDs == Ids(count)
    {
      for i := 0 to count
        invariant seqIDs == Ids(i)
      {
        seqIDs := seqIDs + [i];
      }
    }

    method MakeSendPacket() returns (made: bool)
      modifies this`calls
      ensures made == alloc(old(calls)) && calls == old(calls) + 1
    {
      made := alloc(calls);
      calls := calls + 1;
    }

    method InsertSendQueue(s: Session, m: Msg)
      modifies this`inbox
      ensures inbox == Post(old(inbox), s, m)
    {
      inbox := inbox[s := (if s in inbox then inbox[s] else []) + [m]];
    }

    // ---- jobs

    method Enter(session: Session)
      requires Listed(View())
      modifies this
      ensures View() == RoomSpec.Enter(alloc, old(View()), session)
    {
      if session in connected {
        return;
      }
      if seqIDs == [] {
        var sendNak := MakeSendPacket();
        if sendNak {
          InsertSendQueue(session, EnterAck(-1, 0));
        }
      } else {
        EnterWithID(session);
      }
    }

    method EnterWithID(session: Session)
      requires Listed(View()) && session !in connected && seqIDs != []
      modifies this
      ensures View() == RoomSpec.Enter(alloc, old(View()), session)
    {
      ghost var r := View();
      var seqID := seqIDs[0];
      seqIDs := seqIDs[1..];
      var sendClient := MakeSendPacket();
      var sendBroadCast := MakeSendPacket();
      assert View() == Tried(r);
      if sendClient && sendBroadCast && session.socket !in users {
        EnterIsJoin(alloc, r, session);
        Join(session, seqID);
      } else {
        EnterRefused(alloc, r, session);
        seqIDs := seqIDs + [seqID];
      }
    }

    method Join(session: Session, seqID: nat)
      requires Listed(View()) && session.socket !in users
      modifies this
      ensures View() == RoomSpec.Join(alloc, old(View()), session, seqID)
    {
      InsertSorted(order, session.socket);
      users := users[session.socket := NewUser(session, seqID)];
      order := InsertKey(order, session.socket);
      connected := connected + {session};
      InsertSendQueue(session, EnterAck(roomID, seqID));
      assert View() == Admit(old(View()), session, seqID);
      assert forall i | 0 <= i < |order| :: order[i] in order;
      ExchangeSpawns(session, seqID);
    }

    /** The loop of Enter and what follows it: every other member is told of the new one, and the
        new one of every other member, in packets of a hundred. */
    method ExchangeSpawns(session: Session, seqID: nat)
      requires Keyed(users, order)
      modifies this`inbox, this`calls
      ensures Exchanged(alloc, old(View()), session, seqID, inbox, calls)
    {
      ghost var r := View();
      var enterSpawn := FillSpawns(session, seqID);
      SpawnedAll(alloc, r, session, seqID, inbox, calls, enterSpawn.Contents());
      SendRest(session, enterSpawn);
    }

    method FillSpawns(session: Session, seqID: nat) returns (enterSpawn: SpotPacket)
      requires Keyed(users, order)
      modifies this`inbox, this`calls
      ensures enterSpawn.Valid() && fresh(enterSpawn) && fresh(enterSpawn.entries)
      ensures SpawnedTo(alloc, old(View()), session, seqID, |order|, inbox, calls, enterSpawn.Contents())
    {
      ghost var r := View();
      enterSpawn := new SpotPacket();
      for i := 0 to |order|
        invariant enterSpawn.Valid() && fresh(enterSpawn) && fresh(enterSpawn.entries)
        invariant SpawnedTo(alloc, r, session, seqID, i, inbox, calls, enterSpawn.Contents())
      {
        SpawnedStep(alloc, r, session, seqID, i, inbox, calls, enterSpawn.Contents());
        if users[order[i]].session != session {
          ExchangeSpawn(session, seqID, users[order[i]], enterSpawn);
        }
      }
    }

    method SendRest(session: Session, enterSpawn: SpotPacket)
      requires enterSpawn.Valid()
      modifies this`inbox, this`calls
      ensures var pending := enterSpawn.Contents();
              && inbox == (if pending != [] && alloc(old(calls)) then Post(old(inbox), session, Spawn(pending)) else old(inbox))
              && calls == if pending == [] then old(calls) else old(calls) + 1
    {
      if enterSpawn.count > 0 {
        var sendEnterSpawn := MakeSendPacket();
        if sendEnterSpawn {
          var spots := enterSpawn.Take();
          InsertSendQueue(session, Spawn(spots));
        }
      }
    }

    /** One round: a full packet goes out first; if it cannot be made, the entry is lost. */
    method ExchangeSpawn(session: Session, seqID: nat, user: RoomUser, enterSpawn: SpotPacket)
      requires enterSpawn.Valid()
      modifies this`inbox, this`calls, enterSpawn`count, enterSpawn.entries
      ensures enterSpawn.Valid()
      ensures var b := AddSpawn(alloc, Batching([], old(enterSpawn.Contents()), old(calls)), SpotOf(user));
              && inbox == PostSpawns(Post(old(inbox), user.session, NewSpawn(seqID)), session, b.sent)
              && calls == b.calls && enterSpawn.Contents() == b.pending
    {
      InsertSendQueue(user.session, NewSpawn(seqID));
      var added := enterSpawn.Add(SpotOf(user));
      if !added {
        SendFull(session, SpotOf(user), enterSpawn);
      }
    }

    method SendFull(session: Session, spot: Spot, enterSpawn: SpotPacket)
      requires enterSpawn.Valid()
      modifies this`inbox, this`calls, enterSpawn`count, enterSpawn.entries
      ensures enterSpawn.Valid() && calls == old(calls) + 1
      ensures alloc(old(calls)) ==>
                inbox == Post(old(inbox), session, Spawn(old(enterSpawn.Contents()))) && enterSpawn.Contents() == [spot]
      ensures !alloc(old(calls)) ==>
                inbox == old(inbox) && enterSpawn.Contents() == old(enterSpawn.Contents())
    {
      var sendEnterSpawn := MakeSendPacket();
      if sendEnterSpawn {
        var spots := enterSpawn.Take();
        InsertSendQueue(session, Spawn(spots));
        enterSpawn.Clear();
        var _ := enterSpawn.Add(spot);
        assert enterSpawn.Contents() == [spot];
      }
    }

    /** The loop of Leave and BroadCast. */
    method TellOthers(session: Session, m: Msg)
      requires Keyed(users, order)
      modifies this`inbox
      ensures inbox == ToOthers(old(View()), session, m)
    {
      for i := 0 to |order|
        invariant inbox == Deliver(old(inbox), SessionsOf(users, OtherKeys(users, order[..i], session)), m)
      {
        var user := users[order[i]];
        NextOther(users, order, i, session);
        if user.session == session {
          continue;
        }
        SelectionSnoc(users, OtherKeys(users, order[..i], session), order[i]);
        DeliverSnoc(old(inbox), SessionsOf(users, OtherKeys(users, order[..i], session)), user.session, m);
        InsertSendQueue(user.session, m);
      }
      assert order[..|order|] == order;
    }

    method Leave(session: Session)
      requires Keyed(users, order)
      modifies this
      ensures View() == RoomSpec.Leave(alloc, old(View()), session)
    {
      if session !in connected {
        return;
      }
      connected := connected - {session};
      if session.socket in users {
        Tell(session, users[session.socket].seqID);
        users := users - {session.socket};
        order := RemoveKey(order, session.socket);
      }
    }

    method Tell(session: Session, seqID: nat)
      requires Keyed(users, order)
      modifies this
      ensures View() == RoomSpec.Tell(alloc, old(View()), session, seqID)
    {
      var leaveBroadCast := MakeSendPacket();
      if leaveBroadCast {
        TellOthers(session, LeaveNote(seqID));
        seqIDs := seqIDs + [seqID];
      } else {
        withdrawn := withdrawn + {seqID};
      }
    }

    method BroadCast(session: Session, data: nat)
      requires Keyed(users, order)
      modifies this
      ensures View() == RoomSpec.BroadCast(alloc, old(View()), session, data)
    {
      var check := MakeSendPacket();
      if check {
        TellOthers(session, Chat(data));
      }
    }

    method Move(session: Session, x: Coord, y: Coord, now: Clock)
      modifies this
      ensures View() == RoomSpec.Move(root, old(View()), session, x, y, now)
    {
      if session !in connected || !x.Finite? || !y.Finite? {
        return;
      }
      if 0.0 > x.value || x.value >= MAX_X {
        return;
      }
      if 0.0 > y.value || y.value >= MAX_Y {
        return;
      }
      if session.socket !in users {
        return;
      }
      MovePosition(session.socket, now);
      var user := users[session.socket];
      var dx, dy := x.value - user.posX, y.value - user.posY;
      var dist := root(Square(dx) + Square(dy));
      if dist > 0.0 {
        user := user.(isMove := true, destX := x.value, destY := y.value, start := now, end := Arrival(now, dist));
        users := users[session.socket := user];
      }
    }

    // ---- the tick

    method MovePosition(k: int, now: Tick)
      requires k in users
      modifies this`users
      ensures users == old(users)[k := Movement.MovePosition(old(users[k]), now)]
    {
      var user := users[k];
      if !user.isMove {
        assert users[k := user] == users;
        return;
      }
      if user.end <= now {
        user := user.(posX := user.destX, posY := user.destY);
        user := user.(start := now);
        user := user.(isMove := false);
        users := users[k := user];
        return;
      }
      if user.end < user.start {
        users := users[k := user.(isMove := false)];
        return;
      }
      var totalTick := Minus(user.end, user.start);
      if totalTick == 0 {
        users := users[k := user.(isMove := false)];
        return;
      }
      var ratio := Minus(now, user.start) as real / totalTick as real;
      user := user.(posX := user.posX + (user.destX - user.posX) * ratio);
      user := user.(posY := user.posY + (user.destY - user.posY) * ratio);
      user := user.(start := now);
      assert user == Movement.MovePosition(old(users[k]), now);
      users := users[k := user];
    }

    method SendMoveData(packet: SpotPacket)
      requires Keyed(users, order) && packet.Valid()
      modifies this`inbox, this`calls
      ensures View() == RoomSpec.SendMoveData(alloc, old(View()), old(packet.Contents()))
    {
      var check := MakeSendPacket();
      if check {
        var spots := packet.Take();
        TellAll(MoveNote(spots));
      }
    }

    method TellAll(m: Msg)
      requires Keyed(users, order)
      modifies this`inbox
      ensures inbox == ToAll(old(View()), m)
    {
      for i := 0 to |order|
        invariant inbox == Deliver(old(inbox), SessionsOf(users, order[..i]), m)
      {
        NextSession(users, order, i);
        DeliverSnoc(old(inbox), SessionsOf(users, order[..i]), users[order[i]].session, m);
        InsertSendQueue(users[order[i]].session, m);
      }
      assert order[..|order|] == order;
    }

    /** One round of the tick's loop for a moving user. */
    method MoveUser(k: int, now: Clock, packet: SpotPacket)
      requires Keyed(users, order) && k in users && packet.Valid()
      modifies this, packet`count, packet.entries
      ensures packet.Valid()
      ensures var v := Movement.MovePosition(old(users[k]), now);
              (View(), packet.Contents())
              == Round(alloc, old(View()).(users := old(users)[k := v]), old(packet.Contents()), SpotOf(v))
    {
      MovePosition(k, now);
      var added := packet.Add(SpotOf(users[k]));
      if !added {
        SendMoveData(packet);
        packet.Clear();
        added := packet.Add(SpotOf(users[k]));
        assert packet.Contents() == [SpotOf(users[k])];
      }
    }

    method MoveCheckUsers(now: Clock)
      requires Listed(View())
      modifies this
      ensures View() == RoomSpec.MoveCheckUsers(alloc, old(View()), now)
    {
      ghost var before := View();
      ListedKeyed(before);
      var packet := new SpotPacket();
      for i := 0 to |order|
        invariant packet.Valid() && fresh(packet) && fresh(packet.entries)
        invariant order == before.order && Keyed(users, order)
        invariant TickAt(alloc, before, now, i, View(), packet.Contents())
      {
        TickStill(alloc, before, now, i, View(), packet.Contents());
        if users[order[i]].isMove {
          TickNext(alloc, before, now, i, View(), packet.Contents());
          MoveUser(order[i], now, packet);
        }
      }
      TickDone(alloc, before, now, View(), packet.Contents());
      if packet.count > 0 {
        SendMoveData(packet);
      }
    }

    // ---- the room thread

    method Dispatch(job: Job)
      requires Valid()
      modifies this
      ensures Valid() && View() == Apply(alloc, root, old(View()), job)
    {
      ListedKeyed(View());
      DispatchTo(job);
      ApplyBooks(alloc, root, old(View()), job);
    }

    method DispatchTo(job: Job)
      requires Listed(View()) && Keyed(users, order)
      modifies this
      ensures View() == Apply(alloc, root, old(View()), job)
    {
      match job
      case EnterJob(s) => Enter(s);
      case LeaveJob(s) => Leave(s);
      case BroadcastJob(s, data) => BroadCast(s, data);
      case MoveJob(s, x, y, at) => Move(s, x, y, at);
    }

    /** Everything that was queued is dispatched, in order, and then the tick is looked at; the
        thread goes on unless the queue was stopped. */
    method StartJob(nowTick: Clock) returns (more: bool)
      requires Valid()
      modifies this, jobQueue`queue
      ensures Valid() && View() == TickRoom(alloc, Run(alloc, root, old(View()), old(jobQueue.queue)), nowTick)
      ensures jobQueue.queue == [] && more == !jobQueue.stop
    {
      ghost var before := View();
      var jobqueue, stop := jobQueue.PopAll([]);
      ghost var all := jobqueue;
      while jobqueue != []
        invariant Valid() && jobQueue.queue == []
        invariant Run(alloc, root, View(), jobqueue) == Run(alloc, root, before, all)
        decreases |jobqueue|
      {
        Dispatch(jobqueue[0]);
        jobqueue := jobqueue[1..];
      }
      TickBooks(alloc, View(), nowTick);
      if lastTick + MIN_MOVE_TICK <= nowTick {
        lastTick := nowTick;
        MoveCheckUsers(nowTick);
      }
      return !stop;
    }
  }
}
