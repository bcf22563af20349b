/** What the room's ticks broadcast, and that everybody stays on the map. */
module RoomMoves {
  import opened Basics
  import opened Movement
  import opened MoveRun
  import opened RoomSpec
  import opened RoomBooks
  import opened RoomViews

  // ---- batches

  ghost predicate Packed(full: seq<seq<Spot>>, pending: seq<Spot>, spots: seq<Spot>) {
    && Concat(full) + pending == spots
    && (forall i | 0 <= i < |full| :: |full[i]| == MAX_SEND_COUNT)
    && |pending| <= MAX_SEND_COUNT
    && (pending == [] <==> spots == [])
    && |spots| == MAX_SEND_COUNT * |full| + |pending|
  }

  lemma PackStep(full: seq<seq<Spot>>, pending: seq<Spot>, spots: seq<Spot>, last: Spot)
    requires Packed(full, pending, spots)
    ensures if |pending| < MAX_SEND_COUNT then Packed(full, pending + [last], spots + [last])
            else Packed(full + [pending], [last], spots + [last])
  {
    if |pending| < MAX_SEND_COUNT {
      SeqAssociates(Concat(full), pending, [last]);
    } else {
      JoinSnoc(full, pending);
    }
  }

  lemma {:induction false} PackExact(spots: seq<Spot>)
    ensures Packed(Pack(spots).0, Pack(spots).1, spots)
  {
    if spots != [] {
      var init, last := spots[..|spots| - 1], spots[|spots| - 1];
      PackExact(init);
      PackStep(Pack(init).0, Pack(init).1, init, last);
      assert spots == init + [last];
    }
  }

  /** The packets of a tick, one after the other, are the entries in order; all are full but
      the last, which is not empty; so there are ceil(n / 100). */
  lemma BatchesExact(spots: seq<Spot>)
    ensures var batches := MoveBatches(spots);
            && Concat(batches) == spots
            && |batches| == (|spots| + 99) / 100
            && (forall i | 0 <= i < |batches| - 1 :: |batches[i]| == 100)
            && (batches != [] ==> 0 < |batches[|batches| - 1]| <= 100)
  {
    PackExact(spots);
    var (full, pending) := Pack(spots);
    JoinSnoc(full, pending);
    if pending == [] {
      assert Concat(full) + [] == Concat(full);
    }
  }

  lemma {:induction false} MovingKeysIn(users: map<int, RoomUser>, order: seq<int>)
    ensures forall k :: k in MovingKeys(users, order) <==> k in order && k in users && users[k].isMove
  {
    if order != [] {
      var n := |order| - 1;
      assert order == order[..n] + [order[n]];
      MovingKeysIn(users, order[..n]);
    }
  }

  lemma {:induction false} MovingKeysSorted(users: map<int, RoomUser>, order: seq<int>)
    requires Sorted(order)
    ensures Sorted(MovingKeys(users, order))
  {
    if order != [] {
      var n := |order| - 1;
      MovingKeysSorted(users, order[..n]);
      MovingKeysIn(users, order[..n]);
      SortedSnoc(order[..n], MovingKeys(users, order[..n]), order[n]);
    }
  }

  /** Main result on a tick: its packets list everyone who was moving when it began, once each,
      in map order, at the position of this tick. */
  lemma TickExact(r: RoomState, now: Clock) returns (keys: seq<int>)
    requires Books(r)
    ensures Sorted(keys) && forall k :: k in keys <==> k in r.users && r.users[k].isMove
    ensures var spots := Concat(MoveBatches(TickSpots(r, now)));
            && |spots| == |keys|
            && forall i | 0 <= i < |keys| ::
                 keys[i] in keys && var v := MovePosition(r.users[keys[i]], now); spots[i] == Spot(v.seqID, v.posX, v.posY)
  {
    keys := MovingKeys(r.users, r.order);
    MovingKeysIn(r.users, r.order);
    MovingKeysSorted(r.users, r.order);
    assert forall i | 0 <= i < |keys| :: keys[i] in keys;
    SpotsAre(MoveUsers(r.users, now), keys);
    BatchesExact(TickSpots(r, now));
  }

  /** The notices of a tick that could be made. */
  function Made(alloc: nat -> bool, calls: nat, batches: seq<seq<Spot>>): seq<Msg> {
    if batches == [] then []
    else
      var n := |batches| - 1;
      Made(alloc, calls, batches[..n]) + if alloc(calls + n) then [MoveNote(batches[n])] else []
  }

  /** What a notice to everyone does to the queue of `x`, whatever is in the queues. */
  ghost predicate Hears(users: map<int, RoomUser>, order: seq<int>, x: Session, hears: bool) {
    forall inbox, m ::
      InboxOf(Deliver(inbox, SessionsOf(users, order), m), x) == InboxOf(inbox, x) + if hears then [m] else []
  }

  lemma MembersHear(r: RoomState, x: Session)
    requires Filed(r.users, r.order) && forall k | k in r.users :: k in r.order
    ensures Hears(r.users, r.order, x, IsMember(r, x))
  {
    forall inbox, m
      ensures InboxOf(Deliver(inbox, SessionsOf(r.users, r.order), m), x)
           == InboxOf(inbox, x) + if IsMember(r, x) then [m] else []
    {
      DeliverToKeys(inbox, r.users, r.order, m, x);
    }
  }

  /** `x` is sent each packet that could be made, in order, if it hears of them, and nothing else
      in any case. */
  ghost predicate Delivered(alloc: nat -> bool, r: RoomState, batches: seq<seq<Spot>>, x: Session, hears: bool) {
    InboxOf(SendAll(alloc, r, batches).inbox, x)
    == InboxOf(r.inbox, x) + if hears then Made(alloc, r.calls, batches) else []
  }

  lemma SentSoFar(alloc: nat -> bool, r: RoomState, batches: seq<seq<Spot>>)
    ensures var t := SendAll(alloc, r, batches);
            t == r.(inbox := t.inbox, calls := t.calls) && t.calls == r.calls + |batches|
  {
    SendAllFrame(alloc, r, batches);
    SendAllQuiet(alloc, r, batches, Session(0, 0));
  }

  /** What one more packet does, after `t` has been reached. */
  lemma OneMoreBatch(alloc: nat -> bool, t: RoomState, before: seq<Msg>, made: seq<Msg>, batch: seq<Spot>, x: Session, hears: bool)
    requires Hears(t.users, t.order, x, hears)
    requires InboxOf(t.inbox, x) == before + if hears then made else []
    ensures InboxOf(SendMoveData(alloc, t, batch).inbox, x)
         == before + if hears then made + (if alloc(t.calls) then [MoveNote(batch)] else []) else []
  {
    SeqAssociates(before, made, [MoveNote(batch)]);
    SeqEmpty(before);
    SeqEmpty(made);
    SeqEmpty(InboxOf(t.inbox, x));
  }

  lemma DeliveredNext(alloc: nat -> bool, r: RoomState, init: seq<seq<Spot>>, last: seq<Spot>, x: Session, hears: bool)
    requires Hears(r.users, r.order, x, hears) && Delivered(alloc, r, init, x, hears)
    ensures InboxOf(SendMoveData(alloc, SendAll(alloc, r, init), last).inbox, x)
         == InboxOf(r.inbox, x)
            + if hears then Made(alloc, r.calls, init) + (if alloc(r.calls + |init|) then [MoveNote(last)] else []) else []
  {
    SentSoFar(alloc, r, init);
    OneMoreBatch(alloc, SendAll(alloc, r, init), InboxOf(r.inbox, x), Made(alloc, r.calls, init), last, x, hears);
  }

  lemma {:induction false} BatchesDelivered(alloc: nat -> bool, r: RoomState, batches: seq<seq<Spot>>, x: Session, hears: bool)
    requires Hears(r.users, r.order, x, hears)
    ensures Delivered(alloc, r, batches, x, hears)
  {
    if batches == [] {
      SeqEmpty(InboxOf(r.inbox, x));
    } else {
      var n := |batches| - 1;
      BatchesDelivered(alloc, r, batches[..n], x, hears);
      DeliveredNext(alloc, r, batches[..n], batches[n], x, hears);
    }
  }

  /** Every member, the movers included, is sent each packet of the tick that could be made, in
      order; nobody else is sent anything. */
  lemma TickDelivered(alloc: nat -> bool, r: RoomState, batches: seq<seq<Spot>>, x: Session)
    requires Filed(r.users, r.order) && forall k | k in r.users :: k in r.order
    ensures InboxOf(SendAll(alloc, r, batches).inbox, x)
         == InboxOf(r.inbox, x) + if IsMember(r, x) then Made(alloc, r.calls, batches) else []
  {
    MembersHear(r, x);
    BatchesDelivered(alloc, r, batches, x, IsMember(r, x));
  }

  // ---- on the map

  /** `sqrtf`, up to rounding. */
  ghost predicate IsRoot(root: real -> real) {
    forall x: real :: x >= 0.0 ==> root(x) >= 0.0 && Square(root(x)) == x
  }

  predicate Inside(x: real, max: real) {
    0.0 <= x < max
  }

  /** Where the user is and where it goes is on the map, and its ticks are in order. */
  predicate UserSafe(u: RoomUser, now: Tick) {
    && Timely(u, now)
    && Inside(u.posX, MAX_X) && Inside(u.posY, MAX_Y) && Inside(u.destX, MAX_X) && Inside(u.destY, MAX_Y)
  }

  lemma LookSafe(u: RoomUser, now: Tick)
    requires UserSafe(u, now)
    ensures UserSafe(MovePosition(u, now), now)
  {
    LookIsDirect(u, now);
    LookApproaches(u, now);
  }

  lemma Product(a: real, b: real)
    requires a > 0.0 && b > 0.0
    ensures Times(a, b) > 0.0
  {
  }

  lemma SquareEven(d: real)
    ensures Square(-d) == Square(d)
  {
  }

  lemma SquareAbove(d: real)
    requires d != 0.0
    ensures Square(d) > 0.0
  {
    if d > 0.0 {
      Product(d, d);
    } else {
      SquareEven(d);
      Product(-d, -d);
    }
  }

  lemma SquarePositive(d: real)
    ensures Square(d) >= 0.0
    ensures Square(d) == 0.0 <==> d == 0.0
  {
    if d != 0.0 {
      SquareAbove(d);
    }
  }

  lemma SquareGrows(a: real, b: real)
    requires 0.0 <= a <= b
    ensures Square(a) <= Square(b)
  {
    assert Square(b) - Square(a) == Times(b - a, b + a);
    if a < b {
      Product(b - a, b + a);
    }
  }

  lemma SquareMonotone(d: real, max: real)
    requires -max <= d <= max
    ensures Square(d) <= Square(max)
  {
    if d < 0.0 {
      SquareEven(d);
      SquareGrows(-d, max);
    } else {
      SquareGrows(d, max);
    }
  }

  lemma DistanceSquared(root: real -> real, u: RoomUser, x: real, y: real)
    requires IsRoot(root)
    ensures Distance(root, u, x, y) >= 0.0
    ensures Square(Distance(root, u, x, y)) == Square(x - u.posX) + Square(y - u.posY)
  {
    var square := Square(x - u.posX) + Square(y - u.posY);
    SquarePositive(x - u.posX);
    SquarePositive(y - u.posY);
    assert root(square) >= 0.0 && Square(root(square)) == square;
  }

  /** No way on the map is longer than 15000, so no arrival tick wraps. */
  lemma DistanceBound(root: real -> real, u: RoomUser, x: real, y: real)
    requires IsRoot(root) && Inside(u.posX, MAX_X) && Inside(u.posY, MAX_Y) && Inside(x, MAX_X) && Inside(y, MAX_Y)
    ensures 0.0 <= Distance(root, u, x, y) < 15000.0
  {
    SquareMonotone(x - u.posX, MAX_X);
    SquareMonotone(y - u.posY, MAX_Y);
    DistanceSquared(root, u, x, y);
    if Distance(root, u, x, y) >= 15000.0 {
      SquareMonotone(15000.0, Distance(root, u, x, y));
    }
  }

  lemma DistanceZero(root: real -> real, v: RoomUser, x: real, y: real)
    requires IsRoot(root)
    ensures Distance(root, v, x, y) <= 0.0 <==> v.posX == x && v.posY == y
  {
    DistanceSquared(root, v, x, y);
    SquarePositive(x - v.posX);
    SquarePositive(y - v.posY);
    SquarePositive(Distance(root, v, x, y));
  }

  /** `d` is how long the way is. */
  ghost predicate IsLength(d: real, fromX: real, fromY: real, toX: real, toY: real) {
    d >= 0.0 && d * d == (toX - fromX) * (toX - fromX) + (toY - fromY) * (toY - fromY)
  }

  /** A way of length `d` takes 1000 milliseconds for each unit, rounded down. */
  predicate Lasts(ticks: int, d: real) {
    ticks as real <= 1000.0 * d < ticks as real + 1.0
  }

  lemma ArrivalInOrder(now: Clock, dist: real)
    requires 0.0 <= dist < 15000.0
    ensures Arrival(now, dist) == (now as real + dist * 1000.0).Floor
    ensures now <= Arrival(now, dist) <= now + 15000000
    ensures Lasts(Arrival(now, dist) - now, dist)
  {
  }

  lemma RootUnique(d: real, e: real)
    requires d >= 0.0 && e >= 0.0 && Square(d) == Square(e)
    ensures d == e
  {
    assert Square(d) - Square(e) == Times(d - e, d + e);
    if d < e {
      Product(e - d, d + e);
    } else if d > e {
      Product(d - e, d + e);
    }
  }

  /** There is one length only, and Distance is it. */
  lemma DistanceIsLength(root: real -> real, u: RoomUser, x: real, y: real, d: real)
    requires IsRoot(root) && IsLength(d, u.posX, u.posY, x, y)
    ensures d == Distance(root, u, x, y)
  {
    DistanceSquared(root, u, x, y);
    RootUnique(d, Distance(root, u, x, y));
  }

  lemma RedirectSafe(root: real -> real, u: RoomUser, x: real, y: real, now: Clock)
    requires IsRoot(root) && UserSafe(u, now) && Inside(x, MAX_X) && Inside(y, MAX_Y)
    ensures UserSafe(Redirect(root, u, x, y, now), now)
  {
    LookSafe(u, now);
    DistanceBound(root, MovePosition(u, now), x, y);
    ArrivalInOrder(now, Distance(root, MovePosition(u, now), x, y));
  }

  /** When the user that a request leaves at `t` arrives, however the length of its way is found. */
  ghost predicate ArrivesInTime(t: RoomUser, fromX: real, fromY: real, x: real, y: real, now: Clock) {
    forall d | IsLength(d, fromX, fromY, x, y) :: Lasts(t.end - now, d)
  }

  lemma RedirectArrives(root: real -> real, u: RoomUser, x: real, y: real, now: Clock)
    requires IsRoot(root) && UserSafe(u, now) && Inside(x, MAX_X) && Inside(y, MAX_Y)
    requires DirectX(u, now) != x || DirectY(u, now) != y
    ensures ArrivesInTime(Redirect(root, u, x, y, now), DirectX(u, now), DirectY(u, now), x, y, now)
  {
    var v := MovePosition(u, now);
    LookIsDirect(u, now);
    LookSafe(u, now);
    DistanceZero(root, v, x, y);
    DistanceBound(root, v, x, y);
    ArrivalInOrder(now, Distance(root, v, x, y));
    forall d | IsLength(d, DirectX(u, now), DirectY(u, now), x, y)
      ensures Lasts(Redirect(root, u, x, y, now).end - now, d)
    {
      DistanceIsLength(root, v, x, y, d);
    }
  }

  /** A request is taken up exactly when it is for somewhere else than where the user is now;
      the way then starts here and now, and takes a second for each unit of its length. */
  lemma RedirectExact(root: real -> real, u: RoomUser, x: real, y: real, now: Clock)
    requires IsRoot(root) && UserSafe(u, now) && Inside(x, MAX_X) && Inside(y, MAX_Y)
    ensures var v, t := MovePosition(u, now), Redirect(root, u, x, y, now);
            && t.posX == DirectX(u, now) && t.posY == DirectY(u, now)
            && (if v.posX == x && v.posY == y then t == v
                else Departing(t, now) && t.destX == x && t.destY == y && t.start == now
                     && ArrivesInTime(t, DirectX(u, now), DirectY(u, now), x, y, now))
  {
    if DirectX(u, now) != x || DirectY(u, now) != y {
      RedirectArrives(root, u, x, y, now);
    }
    LookIsDirect(u, now);
    LookSafe(u, now);
    RedirectSafe(root, u, x, y, now);
    DistanceZero(root, MovePosition(u, now), x, y);
  }

  function TimeOf(e: Event, now: Clock): Clock {
    match e
    case MoveJob(_, _, _, at) => at
    case TickEvent(at) => at
    case _ => now
  }

  /** GetTickCount64 never goes back. */
  predicate InTime(now: Clock, events: seq<Event>)
    decreases |events|
  {
    events != [] ==> now <= TimeOf(events[0], now) && InTime(TimeOf(events[0], now), events[1..])
  }

  ghost predicate AllSafe(r: RoomState, now: Clock) {
    forall k | k in r.users :: UserSafe(r.users[k], now)
  }

  lemma LaterSafe(u: RoomUser, now: Tick, later: Tick)
    requires UserSafe(u, now) && now <= later
    ensures UserSafe(u, later)
  {
  }

  lemma ApplySafe(alloc: nat -> bool, root: real -> real, r: RoomState, e: Event, now: Clock)
    requires IsRoot(root) && AllSafe(r, now) && now <= TimeOf(e, now)
    ensures AllSafe(Apply(alloc, root, r, e), TimeOf(e, now))
  {
    var t, at := Apply(alloc, root, r, e), TimeOf(e, now);
    match e
    case MoveJob(s, x, y, _) =>
      if s.socket in r.users && OnMap(x, MAX_X) && OnMap(y, MAX_Y) {
        RedirectSafe(root, r.users[s.socket], x.value, y.value, at);
      }
    case TickEvent(_) =>
      TickUsers(alloc, r, at);
      forall k | k in t.users ensures UserSafe(t.users[k], at) {
        LaterSafe(r.users[k], now, at);
        LookSafe(r.users[k], at);
      }
    case _ =>
  }

  lemma TickUsers(alloc: nat -> bool, r: RoomState, now: Clock)
    ensures var t := TickRoom(alloc, r, now);
            && t.users == (if Due(r.lastTick, now) then MoveUsers(r.users, now) else r.users)
            && t.lastTick == (if Due(r.lastTick, now) then now else r.lastTick)
  {
    var moved := r.(lastTick := now, users := MoveUsers(r.users, now));
    SendAllFrame(alloc, moved, MoveBatches(TickSpots(r.(lastTick := now), now)));
  }

  ghost function Ends(now: Clock, events: seq<Event>): Clock
    decreases |events|
  {
    if events == [] then now else Ends(TimeOf(events[0], now), events[1..])
  }

  lemma {:induction false} RunSafe(alloc: nat -> bool, root: real -> real, r: RoomState, now: Clock, events: seq<Event>)
    requires IsRoot(root) && AllSafe(r, now) && InTime(now, events)
    ensures AllSafe(Run(alloc, root, r, events), Ends(now, events))
    decreases |events|
  {
    if events != [] {
      ApplySafe(alloc, root, r, events[0], now);
      RunSafe(alloc, root, Apply(alloc, root, r, events[0]), TimeOf(events[0], now), events[1..]);
    }
  }

  /** Main result on positions. Whatever is sent, NaN and infinities included, every user of every
      reachable room is on the map and bound for a point on it, and its ticks are in order, so
      that the next look divides by no zero, wraps no subtraction and takes no early exit. */
  lemma MapSafety(alloc: nat -> bool, root: real -> real, roomID: int, events: seq<Event>, next: Clock)
    requires IsRoot(root) && InTime(0, events) && Ends(0, events) <= next
    ensures var r := Run(alloc, root, NewRoom(roomID), events);
            forall k | k in r.users ::
              var u := r.users[k];
              && 0.0 <= u.posX < 10000.0 && 0.0 <= u.posY < 10000.0
              && 0.0 <= u.destX < 10000.0 && 0.0 <= u.destY < 10000.0
              && (u.isMove && next < u.end ==> u.start < u.end && u.start <= next)
  {
    RunSafe(alloc, root, NewRoom(roomID), 0, events);
  }
}
