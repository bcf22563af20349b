/** What a new member is sent about the others: exactly which entries, and when they are current. */
module RoomSpawns {
  import opened Basics
  import opened Movement
  import opened MoveRun
  import opened RoomSpec
  import opened RoomBooks
  import opened RoomViews
  import opened RoomMoves

  /** The entries of all SPAWN packets since the last ENTER, in order. */
  function SpawnsIn(msgs: seq<Msg>): seq<Spot> {
    if msgs == [] then []
    else
      var before, last := SpawnsIn(msgs[..|msgs| - 1]), msgs[|msgs| - 1];
      match last
      case EnterAck(_, _) => []
      case Spawn(spots) => before + spots
      case _ => before
  }

  lemma SpawnsSnoc(msgs: seq<Msg>, m: Msg)
    ensures m.EnterAck? ==> SpawnsIn(msgs + [m]) == []
    ensures m.Spawn? ==> SpawnsIn(msgs + [m]) == SpawnsIn(msgs) + m.spots
  {
    assert (msgs + [m])[..|msgs|] == msgs;
  }

  lemma {:induction false} PostSpawnsIn(inbox: Inboxes, s: Session, batches: seq<seq<Spot>>)
    ensures SpawnsIn(InboxOf(PostSpawns(inbox, s, batches), s)) == SpawnsIn(InboxOf(inbox, s)) + Concat(batches)
  {
    if batches != [] {
      var n := |batches| - 1;
      PostSpawnsIn(inbox, s, batches[..n]);
      SpawnsSnoc(InboxOf(PostSpawns(inbox, s, batches[..n]), s), Spawn(batches[n]));
      SeqAssociates(SpawnsIn(InboxOf(inbox, s)), Concat(batches[..n]), batches[n]);
    }
  }

  // ---- which entries are lost when packets cannot be made

  /** How many of these allocations fail. */
  function Failures(alloc: nat -> bool, calls: nat, next: nat): nat
    requires calls <= next
    decreases next
  {
    if calls == next then 0 else Failures(alloc, calls, next - 1) + Count(!alloc(next - 1))
  }

  lemma FailuresNext(alloc: nat -> bool, calls: nat, next: nat)
    requires calls <= next
    ensures Failures(alloc, calls, next + 1) == Failures(alloc, calls, next) + Count(!alloc(next))
  {
  }

  /** After some entries: full packets, one for each allocation that succeeded, and the one being
      filled; each allocation that failed has cost one entry. */
  ghost predicate Filled(alloc: nat -> bool, calls: nat, b: Batching, spots: seq<Spot>) {
    && calls <= b.calls && |b.pending| <= 100 && (b.pending == [] <==> spots == [])
    && (forall i | 0 <= i < |b.sent| :: |b.sent[i]| == 100)
    && Subsequence(Concat(b.sent) + b.pending, spots)
    && |Concat(b.sent)| + |b.pending| + Failures(alloc, calls, b.calls) == |spots|
    && |b.sent| + Failures(alloc, calls, b.calls) == b.calls - calls
    && (spots == [] ==> b.calls == calls)
  }

  lemma FillMore(alloc: nat -> bool, calls: nat, b: Batching, spots: seq<Spot>, spot: Spot)
    requires Filled(alloc, calls, b, spots) && |b.pending| < 100
    ensures Filled(alloc, calls, b.(pending := b.pending + [spot]), spots + [spot])
  {
    SubsequenceSame([spot]);
    SubsequenceJoin(Concat(b.sent) + b.pending, spots, [spot], [spot]);
    SeqAssociates(Concat(b.sent), b.pending, [spot]);
  }

  lemma FillAnother(alloc: nat -> bool, calls: nat, b: Batching, spots: seq<Spot>, spot: Spot)
    requires Filled(alloc, calls, b, spots) && |b.pending| == 100 && alloc(b.calls)
    ensures Filled(alloc, calls, Batching(b.sent + [b.pending], [spot], b.calls + 1), spots + [spot])
  {
    SubsequenceSame([spot]);
    SubsequenceJoin(Concat(b.sent) + b.pending, spots, [spot], [spot]);
    JoinSnoc(b.sent, b.pending);
    FailuresNext(alloc, calls, b.calls);
  }

  lemma LoseEntry(alloc: nat -> bool, calls: nat, b: Batching, spots: seq<Spot>, spot: Spot)
    requires Filled(alloc, calls, b, spots) && b.pending != [] && !alloc(b.calls)
    ensures Filled(alloc, calls, b.(calls := b.calls + 1), spots + [spot])
  {
    SubsequenceMore(Concat(b.sent) + b.pending, spots, spot);
    FailuresNext(alloc, calls, b.calls);
  }

  lemma AddSpawnFilled(alloc: nat -> bool, calls: nat, b: Batching, spots: seq<Spot>, spot: Spot)
    requires Filled(alloc, calls, b, spots)
    ensures Filled(alloc, calls, AddSpawn(alloc, b, spot), spots + [spot])
  {
    if |b.pending| < 100 {
      FillMore(alloc, calls, b, spots, spot);
    } else if alloc(b.calls) {
      FillAnother(alloc, calls, b, spots, spot);
    } else {
      LoseEntry(alloc, calls, b, spots, spot);
    }
  }

  lemma {:induction false} AddSpawnsFilled(alloc: nat -> bool, calls: nat, spots: seq<Spot>)
    ensures Filled(alloc, calls, AddSpawns(alloc, calls, spots), spots)
  {
    if spots == [] {
      assert Failures(alloc, calls, calls) == 0;
    } else {
      var init, last := spots[..|spots| - 1], spots[|spots| - 1];
      AddSpawnsFilled(alloc, calls, init);
      AddSpawnFilled(alloc, calls, AddSpawns(alloc, calls, init), init, last);
      assert spots == init + [last];
    }
  }

  /** The entries of `spots` as packets, made by the allocations from `calls` to `next`: in order,
      full but for the last, one packet for each allocation that succeeds. One that fails costs one
      entry, if it is not the last one; that one costs all the entries of its own packet. */
  ghost predicate Accounted(alloc: nat -> bool, calls: nat, next: nat, spots: seq<Spot>, sent: seq<seq<Spot>>) {
    && calls <= next && (next == calls <==> spots == [])
    && |sent| + Failures(alloc, calls, next) == next - calls
    && (forall i | 0 <= i < |sent| :: 0 < |sent[i]| <= 100 && (i < |sent| - 1 ==> |sent[i]| == 100))
    && Subsequence(Concat(sent), spots)
    && (spots != [] && alloc(next - 1) ==> |Concat(sent)| + Failures(alloc, calls, next) == |spots|)
    && (spots != [] && !alloc(next - 1) ==>
          0 < |spots| - |Concat(sent)| - (Failures(alloc, calls, next) - 1) <= 100)
  }

  lemma LastMade(alloc: nat -> bool, calls: nat, b: Batching, spots: seq<Spot>)
    requires Filled(alloc, calls, b, spots) && b.pending != [] && alloc(b.calls)
    ensures Accounted(alloc, calls, b.calls + 1, spots, b.sent + [b.pending])
  {
    FailuresNext(alloc, calls, b.calls);
    JoinSnoc(b.sent, b.pending);
  }

  lemma LastLost(alloc: nat -> bool, calls: nat, b: Batching, spots: seq<Spot>)
    requires Filled(alloc, calls, b, spots) && b.pending != [] && !alloc(b.calls)
    ensures Accounted(alloc, calls, b.calls + 1, spots, b.sent)
  {
    FailuresNext(alloc, calls, b.calls);
    SubsequencePrefix(Concat(b.sent), b.pending, spots);
  }

  lemma NothingLeft(alloc: nat -> bool, calls: nat, b: Batching, spots: seq<Spot>)
    requires Filled(alloc, calls, b, spots) && b.pending == []
    ensures Accounted(alloc, calls, b.calls, spots, b.sent)
  {
    assert b.sent == [] && Concat(b.sent) == [];
  }

  lemma FlushAccounted(alloc: nat -> bool, calls: nat, b: Batching, spots: seq<Spot>)
    requires Filled(alloc, calls, b, spots)
    ensures Accounted(alloc, calls, FlushSpawns(alloc, b).calls, spots, FlushSpawns(alloc, b).sent)
  {
    if b.pending == [] {
      NothingLeft(alloc, calls, b, spots);
    } else if alloc(b.calls) {
      LastMade(alloc, calls, b, spots);
    } else {
      LastLost(alloc, calls, b, spots);
    }
  }

  /** Main result on SPAWN packets under any allocation failures. */
  lemma SpawnsExact(alloc: nat -> bool, calls: nat, spots: seq<Spot>)
    ensures var b := SpawnBatches(alloc, calls, spots);
            Accounted(alloc, calls, b.calls, spots, b.sent)
  {
    AddSpawnsFilled(alloc, calls, spots);
    FlushAccounted(alloc, calls, AddSpawns(alloc, calls, spots), spots);
  }

  /** The keys Enter goes through for the new member. */
  function NewOthers(r: RoomState, s: Session, id: nat): seq<int> {
    OtherKeys(Admit(r, s, id).users, Admit(r, s, id).order, s)
  }

  lemma JoinSpawns(alloc: nat -> bool, r: RoomState, s: Session, id: nat)
    requires Books(Admit(r, s, id)) && AllOk(alloc, r.calls, Join(alloc, r, s, id).calls)
    ensures SpawnsIn(InboxOf(Join(alloc, r, s, id).inbox, s)) == SpotsOf(Admit(r, s, id).users, NewOthers(r, s, id))
  {
    var a, others := Admit(r, s, id), NewOthers(r, s, id);
    var spots := SpotsOf(a.users, others);
    var b := SpawnBatches(alloc, a.calls, spots);
    var delivered := Deliver(a.inbox, SessionsOf(a.users, others), NewSpawn(id));
    BooksFiled(a);
    ToldOthers(a.inbox, a.users, a.order, s, NewSpawn(id), s);
    assert InboxOf(delivered, s) == InboxOf(a.inbox, s);
    SpawnsSnoc(InboxOf(r.inbox, s), EnterAck(r.roomID, id));
    PostSpawnsIn(delivered, s, b.sent);
    SpawnsCover(alloc, a.calls, spots);
    assert [] + spots == spots;
  }

  lemma NewOthersAre(r: RoomState, s: Session, id: nat)
    requires Books(Admit(r, s, id)) && s.socket !in r.users
    ensures Sorted(NewOthers(r, s, id))
    ensures forall k :: k in NewOthers(r, s, id) <==> k in r.users
  {
    BooksFiled(Admit(r, s, id));
    OtherKeysAre(Admit(r, s, id).users, Admit(r, s, id).order, s);
  }

  /** The spots of the members at `keys`. */
  ghost predicate SpotsAt(spots: seq<Spot>, users: map<int, RoomUser>, keys: seq<int>) {
    |spots| == |keys| && forall i | 0 <= i < |keys| :: keys[i] in users && spots[i] == SpotOf(users[keys[i]])
  }

  lemma OldSpots(r: RoomState, s: Session, id: nat)
    requires Books(Admit(r, s, id)) && s.socket !in r.users
    ensures SpotsAt(SpotsOf(Admit(r, s, id).users, NewOthers(r, s, id)), r.users, NewOthers(r, s, id))
  {
    var keys := NewOthers(r, s, id);
    NewOthersAre(r, s, id);
    assert forall i | 0 <= i < |keys| :: keys[i] in keys;
    SpotsAre(Admit(r, s, id).users, keys);
  }

  lemma TriedSpawns(alloc: nat -> bool, r: RoomState, s: Session, id: nat)
    requires Books(Admit(r, s, id)) && s.socket !in r.users && AllOk(alloc, r.calls, Join(alloc, r, s, id).calls)
    ensures Sorted(NewOthers(r, s, id)) && forall k :: k in NewOthers(r, s, id) <==> k in r.users
    ensures SpotsAt(SpawnsIn(InboxOf(Join(alloc, r, s, id).inbox, s)), r.users, NewOthers(r, s, id))
  {
    NewOthersAre(r, s, id);
    OldSpots(r, s, id);
    JoinSpawns(alloc, r, s, id);
  }

  /** Main result on SPAWN batches: when every allocation succeeds, a new member is sent one entry
      for each member that was there, in map order, with the stored position. */
  lemma EnterSpawnsExact(alloc: nat -> bool, r: RoomState, s: Session) returns (keys: seq<int>)
    requires Books(r) && Joins(alloc, r, s) && AllOk(alloc, r.calls, Enter(alloc, r, s).calls)
    ensures Sorted(keys) && forall k :: k in keys <==> k in r.users
    ensures SpotsAt(SpawnsIn(InboxOf(Enter(alloc, r, s).inbox, s)), r.users, keys)
  {
    keys := NewOthers(Tried(r), s, r.free[0]);
    EnterIsJoin(alloc, r, s);
    TriedBooks(r, s);
    TriedSpawns(alloc, Tried(r), s, r.free[0]);
  }

  /** The user is where its record says: it stands still, or was looked at this very tick. */
  predicate Standing(u: RoomUser, now: Clock) {
    !u.isMove || (u.posX == u.destX && u.posY == u.destY) || (u.start == now && now < u.end)
  }

  lemma LerpStays(from: real, to: real, ratio: real)
    requires 0.0 < ratio
    ensures Lerp(from, to, ratio) == from <==> to == from
  {
    if Lerp(from, to, ratio) == from {
      CancelFactor(to - from, 0.0, ratio);
    }
  }

  lemma FractionPositive(u: RoomUser, now: Clock)
    requires u.start < now < u.end
    ensures Fraction(u, now) > 0.0
  {
  }

  lemma SpotCurrentExactly(u: RoomUser, now: Clock)
    requires Timely(u, now)
    ensures SpotOf(u) == SpotOf(MovePosition(u, now)) <==> Standing(u, now)
  {
    LookIsDirect(u, now);
    if u.isMove && now < u.end {
      if u.start < now {
        FractionPositive(u, now);
        LerpStays(u.posX, u.destX, Fraction(u, now));
        LerpStays(u.posY, u.destY, Fraction(u, now));
      } else {
        assert Fraction(u, now) == 0.0;
      }
    }
  }

  /** README.md:291 says that positions are brought up to date before they are spawned. Enter does
      not do that: the entries a new member is sent are current exactly when every member stands
      still or was looked at this very tick. */
  lemma SpawnsCurrentExactly(alloc: nat -> bool, r: RoomState, s: Session, now: Clock) returns (keys: seq<int>)
    requires Books(r) && AllSafe(r, now) && Joins(alloc, r, s) && AllOk(alloc, r.calls, Enter(alloc, r, s).calls)
    ensures forall k :: k in keys <==> k in r.users
    ensures SpotsAt(SpawnsIn(InboxOf(Enter(alloc, r, s).inbox, s)), MoveUsers(r.users, now), keys)
            <==> forall k | k in r.users :: Standing(r.users[k], now)
  {
    keys := EnterSpawnsExact(alloc, r, s);
    forall k | k in r.users
      ensures SpotOf(r.users[k]) == SpotOf(MovePosition(r.users[k], now)) <==> Standing(r.users[k], now)
    {
      SpotCurrentExactly(r.users[k], now);
    }
    if k :| k in r.users && !Standing(r.users[k], now) {
      var i :| 0 <= i < |keys| && keys[i] == k;
    }
  }

  /** The room with one member, on the way from the origin to (100, 0) since 1000. */
  ghost predicate Walking(r: RoomState, s: Session) {
    && r.users.Keys == {s.socket} && r.free != []
    && var u := r.users[s.socket];
       u.isMove && u.posX == 0.0 && u.destX == 100.0 && u.start == 1000 && u.end > 1050
  }

  lemma FirstMember(alloc: nat -> bool, roomID: int, s: Session)
    requires alloc(0) && alloc(1)
    ensures var r := Enter(alloc, NewRoom(roomID), s);
            r.users == map[s.socket := NewUser(s, 0)] && r.connected == {s} && r.lastTick == 0 && r.free != []
  {
    IdsDistinct(MAX_ROOM_USER_COUNT);
  }

  lemma FirstWalk(root: real -> real, r: RoomState, s: Session)
    requires IsRoot(root) && r.users == map[s.socket := NewUser(s, 0)] && r.connected == {s} && r.free != []
    ensures var t := Move(root, r, s, Finite(100.0), Finite(0.0), 1000);
            Walking(t, s) && t.lastTick == r.lastTick
  {
    var u := NewUser(s, 0);
    RedirectExact(root, u, 100.0, 0.0, 1000);
    LongWay(root, u);
  }

  lemma LongWay(root: real -> real, u: RoomUser)
    requires IsRoot(root) && u.posX == 0.0 && u.posY == 0.0
    ensures 1.0 <= Distance(root, u, 100.0, 0.0) < 15000.0
    ensures Arrival(1000, Distance(root, u, 100.0, 0.0)) >= 2000
  {
    var dist := Distance(root, u, 100.0, 0.0);
    DistanceSquared(root, u, 100.0, 0.0);
    DistanceBound(root, u, 100.0, 0.0);
    if dist < 1.0 {
      SquareGrows(dist, 1.0);
    }
    ArrivalInOrder(1000, dist);
  }

  /** The tick at 1000 finds the walker where it started. */
  lemma FirstTick(alloc: nat -> bool, r: RoomState, s: Session)
    requires Walking(r, s) && r.lastTick == 0
    ensures var t := TickRoom(alloc, r, 1000);
            Walking(t, s) && t.lastTick == 1000
  {
    TickUsers(alloc, r, 1000);
    SendAllFrame(alloc, r.(lastTick := 1000, users := MoveUsers(r.users, 1000)), MoveBatches(TickSpots(r.(lastTick := 1000), 1000)));
    assert Fraction(r.users[s.socket], 1000) == 0.0;
  }

  /** It does happen, in the middle of the room's usual work: one member walks, the room ticks in
      the same millisecond, and fifty milliseconds later, before the next tick, another enters.
      What it is sent is not where the first one is. */
  lemma StaleRun(alloc: nat -> bool, root: real -> real, roomID: int, a: Session, b: Session)
    returns (events: seq<Event>, keys: seq<int>)
    requires IsRoot(root) && (forall i: nat :: alloc(i)) && a.socket != b.socket
    ensures InTime(0, events) && Ends(0, events) <= 1050
    ensures var r := Run(alloc, root, NewRoom(roomID), events);
            && r.lastTick == 1000 && !Due(r.lastTick, 1050)
            && Joins(alloc, r, b)
            && (forall k :: k in keys <==> k in r.users) && keys != []
            && !SpotsAt(SpawnsIn(InboxOf(Enter(alloc, r, b).inbox, b)), MoveUsers(r.users, 1050), keys)
  {
    var enter, move, tick := EnterJob(a), MoveJob(a, Finite(100.0), Finite(0.0), 1000), TickEvent(1000);
    events := [enter] + [move] + [tick];
    assert events == [enter] + ([move] + ([tick] + []));
    TimedNext(0, enter, [move] + ([tick] + []));
    TimedNext(0, move, [tick] + []);
    TimedNext(1000, tick, []);
    var r0 := NewRoom(roomID);
    var r1 := Enter(alloc, r0, a);
    var r2 := Move(root, r1, a, Finite(100.0), Finite(0.0), 1000);
    var r3 := TickRoom(alloc, r2, 1000);
    FirstMember(alloc, roomID, a);
    FirstWalk(root, r1, a);
    FirstTick(alloc, r2, a);
    RunThree(alloc, root, r0, enter, move, tick);
    keys := StaleEntry(alloc, root, roomID, events, r3, a, b);
  }

  lemma StaleEntry(alloc: nat -> bool, root: real -> real, roomID: int, events: seq<Event>, r: RoomState, a: Session, b: Session)
    returns (keys: seq<int>)
    requires IsRoot(root) && (forall i: nat :: alloc(i)) && a.socket != b.socket
    requires InTime(0, events) && Ends(0, events) <= 1050
    requires r == Run(alloc, root, NewRoom(roomID), events) && Walking(r, a)
    ensures Joins(alloc, r, b) && (forall k :: k in keys <==> k in r.users) && keys != []
    ensures !SpotsAt(SpawnsIn(InboxOf(Enter(alloc, r, b).inbox, b)), MoveUsers(r.users, 1050), keys)
  {
    NewRoomBooks(roomID);
    RunBooks(alloc, root, NewRoom(roomID), events);
    RunSafe(alloc, root, NewRoom(roomID), 0, events);
    forall k | k in r.users ensures UserSafe(r.users[k], 1050) {
      LaterSafe(r.users[k], Ends(0, events), 1050);
    }
    keys := SpawnsCurrentExactly(alloc, r, b, 1050);
    assert !Standing(r.users[a.socket], 1050);
    assert a.socket in keys;
  }

  lemma TimedNext(now: Clock, e: Event, rest: seq<Event>)
    ensures InTime(now, [e] + rest) <==> now <= TimeOf(e, now) && InTime(TimeOf(e, now), rest)
    ensures Ends(now, [e] + rest) == Ends(TimeOf(e, now), rest)
  {
    assert ([e] + rest)[1..] == rest;
  }

  lemma RunThree(alloc: nat -> bool, root: real -> real, r: RoomState, e: Event, f: Event, g: Event)
    ensures Run(alloc, root, r, [e] + [f] + [g]) == Apply(alloc, root, Apply(alloc, root, Apply(alloc, root, r, e), f), g)
  {
    assert ([e] + [f] + [g])[1..] == [f] + [g];
    RunTwo(alloc, root, Apply(alloc, root, r, e), f, g);
  }

  lemma RunTwo(alloc: nat -> bool, root: real -> real, r: RoomState, e: Event, f: Event)
    ensures Run(alloc, root, r, [e] + [f]) == Apply(alloc, root, Apply(alloc, root, r, e), f)
  {
    var after := Apply(alloc, root, r, e);
    assert ([e] + [f])[1..] == [f] && [f][1..] == [];
    assert Run(alloc, root, after, [f]) == Run(alloc, root, Apply(alloc, root, after, f), []);
  }
}
