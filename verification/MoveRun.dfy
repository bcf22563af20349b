/** One movement as the room broadcasts it: a snapshot at every due tick while the user moves. */
module MoveRun {
  import opened Movement

  const MIN_MOVE_TICK: int := 100

  predicate Due(last: Clock, now: Clock) {
    last + MIN_MOVE_TICK <= now
  }

  /** A position in a snapshot, and the tick it was taken at. */
  datatype Point = Point(at: Clock, x: real, y: real)

  /** One user followed through the room's ticks: its record, the room's lastTick, and the
      snapshots it has appeared in. */
  datatype Watch = Watch(u: RoomUser, last: Clock, seen: seq<Point>)

  function Tick1(w: Watch, now: Clock): Watch {
    if !Due(w.last, now) then w
    else if !w.u.isMove then w.(last := now)
    else
      var v := MovePosition(w.u, now);
      Watch(v, now, w.seen + [Point(now, v.posX, v.posY)])
  }

  function Ticks(w: Watch, times: seq<Clock>): Watch
    decreases |times|
  {
    if times == [] then w else Ticks(Tick1(w, times[0]), times[1..])
  }

  predicate ClocksInOrder(from: Clock, times: seq<Clock>)
    decreases |times|
  {
    times != [] ==> from <= times[0] && ClocksInOrder(times[0], times[1..])
  }

  function CeilHundred(n: int): int {
    (n + 99) / 100
  }

  /** A user that has just been given a destination. */
  predicate Departing(u: RoomUser, from: Clock) {
    u.isMove && u.start <= u.end && u.start <= from
  }

  /** How a watch started with `u` stands when the clock is at `now`. */
  ghost predicate Follows(u: RoomUser, first: Clock, w: Watch, now: Clock) {
    && w.u.seqID == u.seqID && w.u.end == u.end && w.u.destX == u.destX && w.u.destY == u.destY
    && Timely(w.u, now)
    && (w.u.isMove ==> w.seen == [] || (u.start + 100 * (|w.seen| - 1) <= w.last < u.end))
    && (!w.u.isMove ==> w.seen != [] && (|w.seen| == 1 || u.start + 100 * (|w.seen| - 2) < u.end))
    && (w.seen == [] ==> w.u == u && w.last == first)
    && (w.seen != [] ==> w.seen[|w.seen| - 1].x == w.u.posX && w.seen[|w.seen| - 1].y == w.u.posY)
    && (!w.u.isMove ==> w.u.posX == u.destX && w.u.posY == u.destY)
  }

  lemma Tick1Follows(u: RoomUser, first: Clock, w: Watch, now: Clock, next: Clock)
    requires Departing(u, now) && Follows(u, first, w, now) && now <= next
    ensures Follows(u, first, Tick1(w, next), next)
  {
    LookIsDirect(w.u, next);
  }

  lemma {:induction false} TicksFollow(u: RoomUser, first: Clock, w: Watch, now: Clock, times: seq<Clock>)
    requires Departing(u, now) && Follows(u, first, w, now) && ClocksInOrder(now, times)
    ensures Follows(u, first, Ticks(w, times), if times == [] then now else times[|times| - 1])
    decreases |times|
  {
    if times != [] {
      Tick1Follows(u, first, w, now, times[0]);
      TicksFollow(u, first, Tick1(w, times[0]), times[0], times[1..]);
    }
  }

  /** Each coordinate has gone from snapshot to snapshot, and on to (x, y), without turning back
      from the destination. */
  ghost predicate Advancing(seen: seq<Point>, x: real, y: real, u: RoomUser) {
    && (forall i | 0 <= i < |seen| :: Between(seen[i].x, x, u.destX) && Between(seen[i].y, y, u.destY))
    && (forall i, j | 0 <= i < j < |seen| :: Between(seen[i].x, seen[j].x, u.destX) && Between(seen[i].y, seen[j].y, u.destY))
  }

  lemma AdvancingOn(seen: seq<Point>, x: real, y: real, p: Point, u: RoomUser)
    requires Advancing(seen, x, y, u) && Between(x, p.x, u.destX) && Between(y, p.y, u.destY)
    ensures Advancing(seen + [p], p.x, p.y, u)
  {
  }

  /** Every snapshot shows the position one interpolation from the start gives, and each
      coordinate goes from the origin towards the destination without turning back. */
  ghost predicate OnTheWay(u: RoomUser, w: Watch, now: Clock)
    requires u.start <= u.end
  {
    && (forall i | 0 <= i < |w.seen| :: u.start <= w.seen[i].at <= now)
    && (forall i | 0 <= i < |w.seen| :: w.seen[i].x == DirectX(u, w.seen[i].at) && w.seen[i].y == DirectY(u, w.seen[i].at))
    && Advancing(w.seen, w.u.posX, w.u.posY, u)
  }

  /** The watch sees from now on what a direct interpolation from the start would show. */
  ghost predicate SeesDirect(u: RoomUser, w: Watch, now: Clock)
    requires Timely(u, now)
  {
    Timely(w.u, now) && forall t: Tick | now <= t :: DirectX(w.u, t) == DirectX(u, t) && DirectY(w.u, t) == DirectY(u, t)
  }

  lemma Tick1SeesDirect(u: RoomUser, w: Watch, now: Clock, next: Clock)
    requires Timely(u, now) && now <= next && SeesDirect(u, w, now)
    ensures SeesDirect(u, Tick1(w, next), next)
  {
    forall t: Tick | next <= t
      ensures DirectX(Tick1(w, next).u, t) == DirectX(u, t) && DirectY(Tick1(w, next).u, t) == DirectY(u, t)
    {
      LookKeepsDirect(w.u, next, t);
    }
    LookIsDirect(w.u, next);
  }

  lemma Tick1OnTheWay(u: RoomUser, first: Clock, w: Watch, now: Clock, next: Clock)
    requires Departing(u, now) && now <= next
    requires Follows(u, first, w, now) && SeesDirect(u, w, now) && OnTheWay(u, w, now)
    ensures OnTheWay(u, Tick1(w, next), next)
  {
    LookIsDirect(w.u, next);
    LookApproaches(w.u, next);
    var v := MovePosition(w.u, next);
    AdvancingOn(w.seen, w.u.posX, w.u.posY, Point(next, v.posX, v.posY), u);
  }

  lemma {:induction false} TicksOnTheWay(u: RoomUser, first: Clock, w: Watch, now: Clock, times: seq<Clock>)
    requires Departing(u, now) && ClocksInOrder(now, times)
    requires Follows(u, first, w, now) && SeesDirect(u, w, now) && OnTheWay(u, w, now)
    ensures OnTheWay(u, Ticks(w, times), if times == [] then now else times[|times| - 1])
    decreases |times|
  {
    if times != [] {
      Tick1Follows(u, first, w, now, times[0]);
      Tick1SeesDirect(u, w, now, times[0]);
      Tick1OnTheWay(u, first, w, now, times[0]);
      TicksOnTheWay(u, first, Tick1(w, times[0]), times[0], times[1..]);
    }
  }

  /** A set of snapshots as one move should give: no more than one for each hundred ticks of the
      way and one to end it, each at the point of the direct interpolation, and each coordinate
      going towards the destination without turning back. */
  ghost predicate ShowsMove(u: RoomUser, seen: seq<Point>)
    requires u.start <= u.end
  {
    && |seen| <= CeilHundred(u.end - u.start) + 1
    && (forall i | 0 <= i < |seen| ::
          u.start <= seen[i].at && seen[i].x == DirectX(u, seen[i].at) && seen[i].y == DirectY(u, seen[i].at))
    && (forall i, j | 0 <= i < j < |seen| :: Between(seen[i].x, seen[j].x, u.destX) && Between(seen[i].y, seen[j].y, u.destY))
  }

  /** The last snapshot shows the destination itself. */
  predicate EndsAt(seen: seq<Point>, x: real, y: real) {
    seen != [] && seen[|seen| - 1].x == x && seen[|seen| - 1].y == y
  }

  /** Main result. One accepted move, followed through any ticks: its snapshots are as they should
      be, and if it has ended, the last snapshot is the destination exactly. */
  lemma MoveBroadcast(u: RoomUser, last: Clock, from: Clock, times: seq<Clock>)
    requires Departing(u, from) && ClocksInOrder(from, times)
    ensures var w := Ticks(Watch(u, last, []), times);
            ShowsMove(u, w.seen) && (!w.u.isMove ==> EndsAt(w.seen, u.destX, u.destY))
  {
    var w := Watch(u, last, []);
    TicksFollow(u, last, w, from, times);
    TicksOnTheWay(u, last, w, from, times);
  }

  /** A tick that is due at or after the end ends the move. */
  ghost predicate EndsInTime(u: RoomUser, first: Clock, w: Watch) {
    w.last == first || w.last < u.end || !w.u.isMove
  }

  lemma {:induction false} TicksEnd(u: RoomUser, first: Clock, w: Watch, now: Clock, times: seq<Clock>)
    requires Departing(u, now) && ClocksInOrder(now, times)
    requires Follows(u, first, w, now) && EndsInTime(u, first, w)
    ensures EndsInTime(u, first, Ticks(w, times))
    ensures times != [] ==> times[|times| - 1] < Ticks(w, times).last + MIN_MOVE_TICK
    decreases |times|
  {
    if times != [] {
      Tick1Follows(u, first, w, now, times[0]);
      LookIsDirect(w.u, times[0]);
      TicksEnd(u, first, Tick1(w, times[0]), times[0], times[1..]);
    }
  }

  /** If the room keeps ticking the move does end, and nothing follows its last snapshot. */
  lemma MoveEnds(u: RoomUser, last: Clock, from: Clock, times: seq<Clock>, more: seq<Clock>)
    requires Departing(u, from) && ClocksInOrder(from, times)
    requires times != [] && times[|times| - 1] >= u.end + 100 && times[|times| - 1] >= last + 100
    ensures var w := Ticks(Watch(u, last, []), times);
            && !w.u.isMove
            && Ticks(w, more).seen == w.seen && Ticks(w, more).u == w.u
  {
    var w := Watch(u, last, []);
    TicksEnd(u, last, w, from, times);
    Silent(Ticks(w, times), more);
  }

  /** Where a move has ended. */
  lemma StoppedThere(u: RoomUser, last: Clock, from: Clock, times: seq<Clock>)
    requires Departing(u, from) && ClocksInOrder(from, times)
    ensures var w := Ticks(Watch(u, last, []), times);
            && w.u.seqID == u.seqID
            && (!w.u.isMove ==> w.u.posX == u.destX && w.u.posY == u.destY)
  {
    TicksFollow(u, last, Watch(u, last, []), from, times);
  }

  lemma {:induction false} Silent(w: Watch, times: seq<Clock>)
    requires !w.u.isMove
    ensures Ticks(w, times).seen == w.seen && Ticks(w, times).u == w.u
    decreases |times|
  {
    if times != [] {
      Silent(Tick1(w, times[0]), times[1..]);
    }
  }
}
