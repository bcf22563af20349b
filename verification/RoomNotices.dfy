/** Who hears what: each job's effect on every send queue, whole, and on the room. */
module RoomNotices {
  import opened Basics
  import opened Movement
  import opened MoveRun
  import opened RoomSpec
  import opened RoomBooks
  import opened RoomViews
  import opened RoomMoves
  import opened RoomSpawns

  /** A notice sent to everyone but `s` is appended once to the queue of every other member, and
      to no other. */
  lemma OthersTold(r: RoomState, s: Session, m: Msg, x: Session)
    requires Books(r)
    ensures InboxOf(Deliver(r.inbox, SessionsOf(r.users, OtherKeys(r.users, r.order, s)), m), x)
         == InboxOf(r.inbox, x) + if x != s && IsMember(r, x) then [m] else []
  {
    BooksFiled(r);
    ToldOthers(r.inbox, r.users, r.order, s, m, x);
  }

  /** A session is admitted exactly when it is not yet in, an id is free, both packets can be
      made, and its socket is not taken. It then is given the id that has been free the longest, and
      stands at the origin; otherwise the members stay as they are, and an id that was tried goes to
      the end of the queue. */
  lemma EnterExact(alloc: nat -> bool, r: RoomState, s: Session)
    requires Books(r)
    ensures Joins(alloc, r, s)
       <==> s !in r.connected && r.free != [] && alloc(r.calls) && alloc(r.calls + 1) && s.socket !in r.users
    ensures var t := Enter(alloc, r, s);
            && t.connected == (if Joins(alloc, r, s) then r.connected + {s} else r.connected)
            && t.lastTick == r.lastTick && t.withdrawn == r.withdrawn && t.roomID == r.roomID
            && if Joins(alloc, r, s) then
                 && s.socket in t.users && t.users == r.users[s.socket := t.users[s.socket]]
                 && NewHere(t.users[s.socket], s, r.free[0]) && t.free == r.free[1..]
               else
                 && t.users == r.users
                 && t.free == if s in r.connected || r.free == [] then r.free else r.free[1..] + [r.free[0]]
  {
    if Joins(alloc, r, s) {
      EnterIsJoin(alloc, r, s);
    } else if s !in r.connected && r.free != [] {
      EnterRefused(alloc, r, s);
    }
  }

  /** The record of a session that has just been given `id`. */
  predicate NewHere(u: RoomUser, s: Session, id: nat) {
    u.session == s && u.seqID == id && u.posX == 0.0 && u.posY == 0.0 && !u.isMove
  }

  lemma JoinTellsOther(alloc: nat -> bool, r: RoomState, s: Session, id: nat, x: Session)
    requires Books(Admit(r, s, id)) && s.socket !in r.users && x != s
    ensures InboxOf(Join(alloc, r, s, id).inbox, x)
         == InboxOf(r.inbox, x) + if IsMember(r, x) then [NewSpawn(id)] else []
  {
    var a := Admit(r, s, id);
    JoinInbox(alloc, r, s, id, x);
    OthersTold(a, s, NewSpawn(id), x);
    assert IsMember(a, x) <==> IsMember(r, x);
  }

  /** What an entry puts into anybody else's queue: to every member the new one's id and position,
      as they are in its record. */
  lemma EnterTellsOthers(alloc: nat -> bool, r: RoomState, s: Session, x: Session)
    requires Books(r) && x != s
    ensures Joins(alloc, r, s) ==> s.socket in Enter(alloc, r, s).users
    ensures var t := Enter(alloc, r, s);
            InboxOf(t.inbox, x) == InboxOf(r.inbox, x) +
              if Joins(alloc, r, s) && IsMember(r, x) then
                var u := t.users[s.socket]; [Spawn([Spot(u.seqID, u.posX, u.posY)])]
              else []
  {
    if Joins(alloc, r, s) {
      TriedBooks(r, s);
      JoinTellsOther(alloc, Tried(r), s, r.free[0], x);
      EnterIsJoin(alloc, r, s);
    }
  }

  lemma {:induction false} PostSpawnsOwn(inbox: Inboxes, s: Session, batches: seq<seq<Spot>>)
    ensures InboxOf(PostSpawns(inbox, s, batches), s) == InboxOf(inbox, s) + AsSpawns(batches)
  {
    if batches != [] {
      var n := |batches| - 1;
      PostSpawnsOwn(inbox, s, batches[..n]);
      SeqAssociates(InboxOf(inbox, s), AsSpawns(batches[..n]), [Spawn(batches[n])]);
    }
  }

  function AsSpawns(batches: seq<seq<Spot>>): seq<Msg> {
    if batches == [] then []
    else AsSpawns(batches[..|batches| - 1]) + [Spawn(batches[|batches| - 1])]
  }

  lemma JoinAnswers(alloc: nat -> bool, r: RoomState, s: Session, id: nat)
    requires Books(Admit(r, s, id))
    ensures var a := Admit(r, s, id);
            var b := SpawnBatches(alloc, a.calls, SpotsOf(a.users, OtherKeys(a.users, a.order, s)));
            InboxOf(Join(alloc, r, s, id).inbox, s)
            == InboxOf(r.inbox, s) + [EnterAck(r.roomID, id)] + AsSpawns(b.sent)
  {
    var a := Admit(r, s, id);
    var others := OtherKeys(a.users, a.order, s);
    OthersTold(a, s, NewSpawn(id), s);
    PostSpawnsOwn(Deliver(a.inbox, SessionsOf(a.users, others), NewSpawn(id)), s,
                  SpawnBatches(alloc, a.calls, SpotsOf(a.users, others)).sent);
  }

  /** The members in map order, and what a new one is to be sent about them. */
  ghost predicate MembersAt(r: RoomState, keys: seq<int>, spots: seq<Spot>) {
    Sorted(keys) && (forall k :: k in keys <==> k in r.users) && SpotsAt(spots, r.users, keys)
  }

  lemma AdmittedAnswers(alloc: nat -> bool, r: RoomState, s: Session, id: nat) returns (keys: seq<int>, spots: seq<Spot>, spawns: seq<seq<Spot>>)
    requires Books(Admit(r, s, id)) && s.socket !in r.users
    ensures MembersAt(r, keys, spots)
    ensures Accounted(alloc, r.calls, Join(alloc, r, s, id).calls, spots, spawns)
    ensures InboxOf(Join(alloc, r, s, id).inbox, s) == InboxOf(r.inbox, s) + ([EnterAck(r.roomID, id)] + AsSpawns(spawns))
  {
    keys := NewOthers(r, s, id);
    spots := SpotsOf(Admit(r, s, id).users, keys);
    spawns := SpawnBatches(alloc, r.calls, spots).sent;
    NewOthersAre(r, s, id);
    OldSpots(r, s, id);
    SpawnsExact(alloc, r.calls, spots);
    JoinAnswers(alloc, r, s, id);
    SeqAssociates(InboxOf(r.inbox, s), [EnterAck(r.roomID, id)], AsSpawns(spawns));
  }

  lemma MembersListed(r: RoomState)
    requires Books(r)
    ensures MembersAt(r, r.order, SpotsOf(r.users, r.order))
  {
    BooksFiled(r);
    SpotsAre(r.users, r.order);
  }

  lemma RefusedAnswers(alloc: nat -> bool, r: RoomState, s: Session)
    requires !Joins(alloc, r, s)
    ensures InboxOf(Enter(alloc, r, s).inbox, s) == InboxOf(r.inbox, s) +
              if s !in r.connected && r.free == [] && alloc(r.calls) then [EnterAck(-1, 0)] else []
  {
    SeqEmpty(InboxOf(r.inbox, s));
  }

  /** What an entry puts into the own queue: the acknowledgement with the room and the id first,
      then the members' entries in map order, in packets as far as these could be made; or the
      refusal, if there is no id and it can be made; or nothing. */
  lemma EnterAnswers(alloc: nat -> bool, r: RoomState, s: Session) returns (keys: seq<int>, spots: seq<Spot>, spawns: seq<seq<Spot>>)
    requires Books(r)
    ensures MembersAt(r, keys, spots)
    ensures Joins(alloc, r, s) ==> Accounted(alloc, r.calls + 2, Enter(alloc, r, s).calls, spots, spawns)
    ensures InboxOf(Enter(alloc, r, s).inbox, s) == InboxOf(r.inbox, s) +
              if Joins(alloc, r, s) then [EnterAck(r.roomID, r.free[0])] + AsSpawns(spawns)
              else if s !in r.connected && r.free == [] && alloc(r.calls) then [EnterAck(-1, 0)]
              else []
  {
    if Joins(alloc, r, s) {
      TriedBooks(r, s);
      EnterIsJoin(alloc, r, s);
      keys, spots, spawns := AdmittedAnswers(alloc, Tried(r), s, r.free[0]);
    } else {
      keys, spots, spawns := r.order, SpotsOf(r.users, r.order), [];
      MembersListed(r);
      RefusedAnswers(alloc, r, s);
    }
  }

  /** A leaver is gone, whatever fails; its id goes to the end of the queue exactly when the
      others could be told. */
  lemma LeaveExact(alloc: nat -> bool, r: RoomState, s: Session)
    requires Books(r)
    ensures var t := Leave(alloc, r, s);
            && t.connected == r.connected - {s} && !IsMember(t, s)
            && (forall x | x != s :: IsMember(t, x) <==> IsMember(r, x))
            && (forall k | k in t.users :: k in r.users && t.users[k] == r.users[k])
            && t.lastTick == r.lastTick && t.roomID == r.roomID
            && (s !in r.connected ==> t == r)
            && (s in r.connected ==>
                  var id := r.users[s.socket].seqID;
                  if alloc(r.calls) then t.free == r.free + [id] && t.withdrawn == r.withdrawn
                  else t.free == r.free && t.withdrawn == r.withdrawn + {id})
  {
  }

  /** What a leave puts into every queue. */
  lemma LeaveTells(alloc: nat -> bool, r: RoomState, s: Session, x: Session)
    requires Books(r) && s in r.connected
    ensures InboxOf(Leave(alloc, r, s).inbox, x)
         == InboxOf(r.inbox, x) +
            if alloc(r.calls) && x != s && IsMember(r, x) then [LeaveNote(r.users[s.socket].seqID)] else []
  {
    OthersTold(r, s, LeaveNote(r.users[s.socket].seqID), x);
  }

  /** What a broadcast puts into every queue; the sender need not be a member. */
  lemma BroadCastTells(alloc: nat -> bool, r: RoomState, s: Session, data: nat, x: Session)
    requires Books(r)
    ensures var t := BroadCast(alloc, r, s, data); t == r.(calls := r.calls + 1, inbox := t.inbox)
    ensures InboxOf(BroadCast(alloc, r, s, data).inbox, x)
         == InboxOf(r.inbox, x) + if alloc(r.calls) && x != s && IsMember(r, x) then [Chat(data)] else []
  {
    OthersTold(r, s, Chat(data), x);
  }

  /** A request changes nothing unless it is a member's and for a finite point on the map; then it
      changes the member's own record only, as RedirectExact says, and nothing is sent. */
  lemma MoveExact(root: real -> real, r: RoomState, s: Session, x: Coord, y: Coord, now: Clock)
    requires Books(r) && IsRoot(root) && AllSafe(r, now)
    ensures var t := Move(root, r, s, x, y, now);
            if s in r.connected && x.Finite? && y.Finite? && 0.0 <= x.value < 10000.0 && 0.0 <= y.value < 10000.0 then
              var u, v := r.users[s.socket], t.users[s.socket];
              && t == r.(users := r.users[s.socket := v])
              && v.posX == DirectX(u, now) && v.posY == DirectY(u, now)
              && v.session == u.session && v.seqID == u.seqID
              && if v.posX == x.value && v.posY == y.value then v == MovePosition(u, now)
                 else v.isMove && v.destX == x.value && v.destY == y.value && v.start == now
                      && ArrivesInTime(v, v.posX, v.posY, x.value, y.value, now)
            else t == r
  {
    if s in r.connected && OnMap(x, MAX_X) && OnMap(y, MAX_Y) {
      RedirectExact(root, r.users[s.socket], x.value, y.value, now);
      LookIsDirect(r.users[s.socket], now);
    }
  }
}
