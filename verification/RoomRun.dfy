/** One accepted move followed through a run of the whole room: whatever the others do in the
    meantime, the room's ticks broadcast what MoveRun says. */
module RoomRun {
  import opened Basics
  import opened Movement
  import opened MoveRun
  import opened RoomSpec
  import opened RoomBooks
  import opened RoomViews
  import opened RoomMoves

  /** The entries about one id, as points. */
  function PointsOf(spots: seq<Spot>, id: nat, at: Clock): seq<Point> {
    if spots == [] then []
    else
      var last := spots[|spots| - 1];
      PointsOf(spots[..|spots| - 1], id, at) + if last.seqID == id then [Point(at, last.x, last.y)] else []
  }

  /** What the packets of an event say about one id. */
  function PointsIn(r: RoomState, e: Event, id: nat): seq<Point> {
    if e.TickEvent? && Due(r.lastTick, e.at) then PointsOf(Concat(MoveBatches(TickSpots(r, e.at))), id, e.at) else []
  }

  /** What the packets of a run say about one id. */
  function Snapshots(alloc: nat -> bool, root: real -> real, r: RoomState, events: seq<Event>, id: nat): seq<Point>
    decreases |events|
  {
    if events == [] then []
    else PointsIn(r, events[0], id) + Snapshots(alloc, root, Apply(alloc, root, r, events[0]), events[1..], id)
  }

  function TickTimes(events: seq<Event>): seq<Clock> {
    if events == [] then []
    else (if events[0].TickEvent? then [events[0].at] else []) + TickTimes(events[1..])
  }

  predicate Leaves(e: Event, s: Session) {
    e.LeaveJob? && e.s == s
  }

  predicate Moves(e: Event, s: Session) {
    e.MoveJob? && e.s == s
  }

  /** The session neither leaves nor asks to move. */
  predicate Undisturbed(events: seq<Event>, s: Session) {
    forall i | 0 <= i < |events| :: !Leaves(events[i], s) && !Moves(events[i], s)
  }

  // ---- who stays

  lemma StaysUnlessLeaves(alloc: nat -> bool, root: real -> real, r: RoomState, e: Event, k: int)
    requires Books(r) && k in r.users && !Leaves(e, r.users[k].session)
    ensures Stays(r, Apply(alloc, root, r, e), k)
  {
    match e
    case TickEvent(at) => TickUsers(alloc, r, at);
    case _ =>
  }

  /** A member stays for as long as it does not leave, whatever the others do. */
  lemma {:induction false} StaysThroughout(alloc: nat -> bool, root: real -> real, r: RoomState, events: seq<Event>, k: int)
    requires Books(r) && k in r.users
    requires forall i | 0 <= i < |events| :: !Leaves(events[i], r.users[k].session)
    ensures StaysThrough(alloc, root, r, events, k)
    decreases |events|
  {
    if events != [] {
      ApplyBooks(alloc, root, r, events[0]);
      StaysUnlessLeaves(alloc, root, r, events[0], k);
      StaysThroughout(alloc, root, Apply(alloc, root, r, events[0]), events[1..], k);
    }
  }

  // ---- one user among all

  lemma PointsSnoc(spots: seq<Spot>, last: Spot, id: nat, at: Clock)
    ensures PointsOf(spots + [last], id, at) == PointsOf(spots, id, at) + if last.seqID == id then [Point(at, last.x, last.y)] else []
  {
  }

  ghost predicate OwnOnly(users: map<int, RoomUser>, keys: seq<int>, k: int, at: Clock)
    requires k in users
  {
    PointsOf(SpotsOf(users, keys), users[k].seqID, at)
    == if k in keys then [Point(at, users[k].posX, users[k].posY)] else []
  }

  lemma OwnPointNext(users: map<int, RoomUser>, keys: seq<int>, k: int, at: Clock)
    requires k in users && keys != [] && keys[|keys| - 1] in users && keys[|keys| - 1] !in keys[..|keys| - 1]
    requires keys[|keys| - 1] != k ==> users[keys[|keys| - 1]].seqID != users[k].seqID
    requires OwnOnly(users, keys[..|keys| - 1], k, at)
    ensures OwnOnly(users, keys, k, at)
  {
    var init, last := keys[..|keys| - 1], keys[|keys| - 1];
    assert keys == init + [last];
    PointsSnoc(SpotsOf(users, init), SpotOf(users[last]), users[k].seqID, at);
  }

  lemma SortedLast(keys: seq<int>)
    requires Sorted(keys) && keys != []
    ensures Sorted(keys[..|keys| - 1]) && keys[|keys| - 1] !in keys[..|keys| - 1]
  {
  }

  /** In a list of members without repetition, the only entry about a member is its own. */
  lemma {:induction false} OwnPoint(users: map<int, RoomUser>, keys: seq<int>, k: int, at: Clock)
    requires Sorted(keys) && (forall i | 0 <= i < |keys| :: keys[i] in users) && IdsApart(users) && k in users
    ensures OwnOnly(users, keys, k, at)
  {
    if keys != [] {
      var n := |keys| - 1;
      SortedLast(keys);
      OwnPoint(users, keys[..n], k, at);
      OwnPointNext(users, keys, k, at);
    }
  }

  lemma TickSpot(r: RoomState, k: int, now: Clock)
    requires Books(r) && k in r.users
    ensures PointsOf(TickSpots(r, now), r.users[k].seqID, now)
         == if r.users[k].isMove then [Point(now, MovePosition(r.users[k], now).posX, MovePosition(r.users[k], now).posY)] else []
  {
    var keys := MovingKeys(r.users, r.order);
    MovingKeysIn(r.users, r.order);
    MovingKeysSorted(r.users, r.order);
    assert forall i | 0 <= i < |keys| :: keys[i] in keys;
    MovedApart(r.users, now);
    OwnPoint(MoveUsers(r.users, now), keys, k, now);
  }

  lemma MovedApart(users: map<int, RoomUser>, now: Clock)
    requires IdsApart(users)
    ensures IdsApart(MoveUsers(users, now)) && MoveUsers(users, now).Keys == users.Keys
    ensures forall k | k in users :: MoveUsers(users, now)[k].seqID == users[k].seqID
  {
  }

  /** A due tick says about a member exactly what watching it alone says. */
  lemma TickPoint(r: RoomState, k: int, now: Clock)
    requires Books(r) && k in r.users
    ensures PointsIn(r, TickEvent(now), r.users[k].seqID)
         == Tick1(Watch(r.users[k], r.lastTick, []), now).seen
  {
    TickSpot(r, k, now);
    BatchesExact(TickSpots(r, now));
  }

  lemma OtherJob(alloc: nat -> bool, root: real -> real, r: RoomState, e: Event, k: int)
    requires Books(r) && k in r.users && !e.TickEvent?
    requires !Leaves(e, r.users[k].session) && !Moves(e, r.users[k].session)
    ensures var t := Apply(alloc, root, r, e);
            k in t.users && t.users[k] == r.users[k] && t.lastTick == r.lastTick
  {
  }

  /** What an event does to one member that neither leaves nor moves in it. */
  function Watched(e: Event, w: Watch): Watch {
    if e.TickEvent? then Tick1(w, e.at) else w
  }

  lemma StepWatched(alloc: nat -> bool, root: real -> real, r: RoomState, e: Event, k: int, seen: seq<Point>)
    requires Books(r) && k in r.users
    requires !Leaves(e, r.users[k].session) && !Moves(e, r.users[k].session)
    ensures var t := Apply(alloc, root, r, e);
            && Stays(r, t, k) && t.users[k].seqID == r.users[k].seqID
            && Watched(e, Watch(r.users[k], r.lastTick, seen))
               == Watch(t.users[k], t.lastTick, seen + PointsIn(r, e, r.users[k].seqID))
  {
    if e.TickEvent? {
      TickUsers(alloc, r, e.at);
      TickPoint(r, k, e.at);
    } else {
      OtherJob(alloc, root, r, e, k);
      assert seen + [] == seen;
    }
  }

  lemma TicksNext(e: Event, rest: seq<Event>, w: Watch)
    ensures Ticks(w, TickTimes([e] + rest)) == Ticks(Watched(e, w), TickTimes(rest))
  {
    assert ([e] + rest)[1..] == rest;
    if e.TickEvent? {
      assert ([e.at] + TickTimes(rest))[1..] == TickTimes(rest);
    } else {
      assert [] + TickTimes(rest) == TickTimes(rest);
    }
  }

  /** A room run, seen from one member that neither leaves nor asks to move, is the run of a watch
      through the room's ticks: same record, same lastTick, same snapshots. */
  lemma {:induction false} RunIsWatched(alloc: nat -> bool, root: real -> real, r: RoomState, events: seq<Event>, k: int, seen: seq<Point>)
    requires Books(r) && k in r.users && Undisturbed(events, r.users[k].session)
    ensures var t := Run(alloc, root, r, events);
            && Stays(r, t, k)
            && Ticks(Watch(r.users[k], r.lastTick, seen), TickTimes(events))
               == Watch(t.users[k], t.lastTick, seen + Snapshots(alloc, root, r, events, r.users[k].seqID))
    decreases |events|
  {
    if events == [] {
      assert seen + [] == seen;
    } else {
      var e, rest, id := events[0], events[1..], r.users[k].seqID;
      var next := Apply(alloc, root, r, e);
      ApplyBooks(alloc, root, r, e);
      StepWatched(alloc, root, r, e, k, seen);
      assert events == [e] + rest;
      TicksNext(e, rest, Watch(r.users[k], r.lastTick, seen));
      RunIsWatched(alloc, root, next, rest, k, seen + PointsIn(r, e, id));
      SeqAssociates(seen, PointsIn(r, e, id), Snapshots(alloc, root, next, rest, id));
    }
  }

  // ---- the clock

  lemma {:induction false} ClocksEarlier(from: Clock, later: Clock, times: seq<Clock>)
    requires from <= later && ClocksInOrder(later, times)
    ensures ClocksInOrder(from, times)
  {
  }

  lemma {:induction false} TicksInTime(now: Clock, events: seq<Event>)
    requires InTime(now, events)
    ensures ClocksInOrder(now, TickTimes(events))
    decreases |events|
  {
    if events != [] {
      var e, rest := events[0], events[1..];
      TicksInTime(TimeOf(e, now), rest);
      if e.TickEvent? {
        assert ([e.at] + TickTimes(rest))[1..] == TickTimes(rest);
      } else {
        assert [] + TickTimes(rest) == TickTimes(rest);
        ClocksEarlier(now, TimeOf(e, now), TickTimes(rest));
      }
    }
  }

  // ---- main results

  /** The room after a request for somewhere else on the map by a member. */
  ghost predicate Accepted(root: real -> real, r: RoomState, s: Session, x: real, y: real, now: Clock) {
    && IsRoot(root) && Books(r) && AllSafe(r, now) && s in r.connected
    && Inside(x, MAX_X) && Inside(y, MAX_Y)
    && (DirectX(r.users[s.socket], now) != x || DirectY(r.users[s.socket], now) != y)
  }

  lemma AcceptedDeparts(root: real -> real, r: RoomState, s: Session, x: real, y: real, now: Clock)
    requires Accepted(root, r, s, x, y, now)
    ensures var m := Move(root, r, s, Finite(x), Finite(y), now); var u := r.users[s.socket];
            && Books(m) && s.socket in m.users && m.lastTick == r.lastTick
            && m.users[s.socket].session == s
            && Departing(m.users[s.socket], now) && m.users[s.socket].start == now
            && m.users[s.socket].posX == DirectX(u, now) && m.users[s.socket].posY == DirectY(u, now)
            && m.users[s.socket].destX == x && m.users[s.socket].destY == y
            && ArrivesInTime(m.users[s.socket], DirectX(u, now), DirectY(u, now), x, y, now)
  {
    RedirectExact(root, r.users[s.socket], x, y, now);
    LookIsDirect(r.users[s.socket], now);
    SameBooksKeep(r, Move(root, r, s, Finite(x), Finite(y), now));
  }

  /** Main result on one move in a whole room. A member asks for (x, y) at `now`, on the map and
      not where it is, and then neither leaves nor asks again; the others do what they like. Then
      the run's packets show that move as they should: at most ceil((end - now) / 100) + 1 times,
      each time where one interpolation from where it was puts it, neither coordinate turning
      back; and once it has stopped, the last snapshot was (x, y). From `now` to the end it is a
      second for each unit of the way. */
  lemma MoveSeen(alloc: nat -> bool, root: real -> real, r: RoomState, s: Session, x: real, y: real, now: Clock, events: seq<Event>)
    requires Accepted(root, r, s, x, y, now) && InTime(now, events) && Undisturbed(events, s)
    ensures var m := Move(root, r, s, Finite(x), Finite(y), now);
            && s.socket in m.users && Departing(m.users[s.socket], now)
            && ArrivesInTime(m.users[s.socket], DirectX(r.users[s.socket], now), DirectY(r.users[s.socket], now), x, y, now)
    ensures var m := Move(root, r, s, Finite(x), Finite(y), now);
            var u, t := m.users[s.socket], Run(alloc, root, m, events);
            var seen := Snapshots(alloc, root, m, events, u.seqID);
            && ShowsMove(u, seen)
            && s.socket in t.users
            && (!t.users[s.socket].isMove ==> EndsAt(seen, x, y))
  {
    AcceptedDeparts(root, r, s, x, y, now);
    var m := Move(root, r, s, Finite(x), Finite(y), now);
    RunIsWatched(alloc, root, m, events, s.socket, []);
    var seen := Snapshots(alloc, root, m, events, m.users[s.socket].seqID);
    assert [] + seen == seen;
    TicksInTime(now, events);
    MoveBroadcast(m.users[s.socket], m.lastTick, now, TickTimes(events));
  }

  /** If the room keeps ticking for a tick's length past the end, the move does end there, and
      whatever happens later without another request there is no further snapshot. */
  lemma MoveStops(alloc: nat -> bool, root: real -> real, r: RoomState, s: Session, x: real, y: real, now: Clock, events: seq<Event>, later: seq<Event>)
    requires Accepted(root, r, s, x, y, now) && InTime(now, events) && Undisturbed(events, s) && Undisturbed(later, s)
    requires var m := Move(root, r, s, Finite(x), Finite(y), now); var times := TickTimes(events);
             && s.socket in m.users && times != []
             && times[|times| - 1] >= m.users[s.socket].end + 100
             && times[|times| - 1] >= r.lastTick + 100
    ensures var m := Move(root, r, s, Finite(x), Finite(y), now);
            var t := Run(alloc, root, m, events);
            && s.socket in t.users && !t.users[s.socket].isMove
            && t.users[s.socket].posX == x && t.users[s.socket].posY == y
            && Snapshots(alloc, root, t, later, m.users[s.socket].seqID) == []
  {
    AcceptedDeparts(root, r, s, x, y, now);
    var m := Move(root, r, s, Finite(x), Finite(y), now);
    var k, t := s.socket, Run(alloc, root, m, events);
    RunIsWatched(alloc, root, m, events, k, []);
    RunBooks(alloc, root, m, events);
    TicksInTime(now, events);
    MoveEnds(m.users[k], m.lastTick, now, TickTimes(events), TickTimes(later));
    RunIsWatched(alloc, root, t, later, k, []);
    Silent(Watch(t.users[k], t.lastTick, []), TickTimes(later));
    StoppedThere(m.users[k], m.lastTick, now, TickTimes(events));
  }
}
