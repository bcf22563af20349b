/** Where a moving user is. The room stores an origin and a start tick, and overwrites both on
    every look; positions are real numbers here. */
module Movement {

  const TWO_TO_64: int := 0x1_0000_0000_0000_0000

  type Tick = t: int | 0 <= t < TWO_TO_64  // uint64 milliseconds

  /** What GetTickCount64 answers. That the top bit is clear is the one assumption about it. */
  type Clock = t: Tick | t < TWO_TO_64 / 2

  datatype Session = Session(id: nat, socket: int)

  datatype RoomUser = RoomUser(
    session: Session,
    posX: real, posY: real,
    seqID: nat,
    isMove: bool,
    destX: real, destY: real,
    start: Tick,   // m_startMoveTick
    end: Tick)     // m_endMoveTick

  /** RoomUser::Set on a default constructed user. */
  function NewUser(session: Session, seqID: nat): RoomUser {
    RoomUser(session, 0.0, 0.0, seqID, false, 0.0, 0.0, 0, 0)
  }

  /** uint64 subtraction: it wraps. */
  function Minus(a: Tick, b: Tick): Tick {
    if a >= b then a - b else a - b + TWO_TO_64
  }

  function Lerp(from: real, to: real, ratio: real): real {
    from + (to - from) * ratio
  }

  function MovePosition(u: RoomUser, now: Tick): RoomUser {
    if !u.isMove then u
    else if u.end <= now then
      u.(posX := u.destX, posY := u.destY, start := now, isMove := false)
    else if u.end < u.start then u.(isMove := false)
    else
      var total := Minus(u.end, u.start);
      if total == 0 then u.(isMove := false)
      else
        var ratio := Minus(now, u.start) as real / total as real;
        u.(posX := Lerp(u.posX, u.destX, ratio), posY := Lerp(u.posY, u.destY, ratio), start := now)
  }

  /** The user's ticks are in order, and the clock has not gone back behind its start. */
  predicate Timely(u: RoomUser, now: Tick) {
    u.isMove ==> u.start <= u.end && u.start <= now
  }

  // ---- one interpolation from the original origin

  /** The fraction of the way made at `t`. */
  function Fraction(u: RoomUser, t: Tick): real
    requires u.start <= t < u.end
  {
    (t - u.start) as real / (u.end - u.start) as real
  }

  function DirectX(u: RoomUser, t: Tick): real
    requires Timely(u, t)
  {
    if !u.isMove then u.posX else if u.end <= t then u.destX else Lerp(u.posX, u.destX, Fraction(u, t))
  }

  function DirectY(u: RoomUser, t: Tick): real
    requires Timely(u, t)
  {
    if !u.isMove then u.posY else if u.end <= t then u.destY else Lerp(u.posY, u.destY, Fraction(u, t))
  }

  /** It is subtraction modulo 2 to the 64th. */
  lemma MinusWraps(a: Tick, b: Tick)
    ensures Minus(a, b) == (a - b) % TWO_TO_64
  {
  }

  /** What the direct interpolation is: the share of the way is the share of the time. */
  lemma DirectExact(u: RoomUser, t: Tick)
    requires Timely(u, t)
    ensures !u.isMove ==> DirectX(u, t) == u.posX && DirectY(u, t) == u.posY
    ensures u.isMove && u.end <= t ==> DirectX(u, t) == u.destX && DirectY(u, t) == u.destY
    ensures u.isMove && t < u.end ==>
              && (DirectX(u, t) - u.posX) * (u.end - u.start) as real == (u.destX - u.posX) * (t - u.start) as real
              && (DirectY(u, t) - u.posY) * (u.end - u.start) as real == (u.destY - u.posY) * (t - u.start) as real
  {
    if u.isMove && t < u.end {
      var total := (u.end - u.start) as real;
      assert Fraction(u, t) * total == (t - u.start) as real;
      ShareOfWay(u.destX - u.posX, Fraction(u, t), total);
      ShareOfWay(u.destY - u.posY, Fraction(u, t), total);
    }
  }

  lemma ShareOfWay(way: real, share: real, total: real)
    ensures (way * share) * total == way * (share * total)
  {
  }

  /** With a clock that does not go back, neither subtraction wraps, nothing is divided by zero,
      and neither of the two early exits is taken: a look yields the direct interpolation. */
  lemma LookIsDirect(u: RoomUser, now: Tick)
    requires Timely(u, now)
    ensures u.isMove && now < u.end ==>
              && u.start < u.end
              && Minus(u.end, u.start) == u.end - u.start
              && Minus(now, u.start) == now - u.start
    ensures var v := MovePosition(u, now);
            && v.posX == DirectX(u, now) && v.posY == DirectY(u, now)
            && v == u.(posX := v.posX, posY := v.posY, start := v.start, isMove := v.isMove)
            && (v.isMove <==> u.isMove && now < u.end)
            && (u.isMove ==> v.start == now)
            && Timely(v, now)
  {
  }

  /** Interpolating to `m` and from there on is interpolating at once. */
  lemma LerpTwice(from: real, to: real, s: real, m: real, t: real, e: real)
    requires s <= m <= t < e
    ensures Lerp(Lerp(from, to, (m - s) / (e - s)), to, (t - m) / (e - m)) == Lerp(from, to, (t - s) / (e - s))
  {
    var a, b, c := (m - s) / (e - s), (t - m) / (e - m), (t - s) / (e - s);
    assert a * (e - s) == m - s && b * (e - m) == t - m && c * (e - s) == t - s;
    assert (1.0 - a) * (e - s) == e - m;
    assert (a + (1.0 - a) * b) * (e - s) == c * (e - s) by {
      assert (1.0 - a) * b * (e - s) == b * ((1.0 - a) * (e - s));
    }
    CancelFactor(a + (1.0 - a) * b, c, e - s);
    assert Lerp(Lerp(from, to, a), to, b) == from + (to - from) * (a + (1.0 - a) * b);
  }

  lemma CancelFactor(x: real, y: real, k: real)
    requires k != 0.0 && x * k == y * k
    ensures x == y
  {
    assert (x - y) * k == 0.0;
  }

  /** A look on the way changes nothing about where the user will be seen later. */
  lemma LookKeepsDirect(u: RoomUser, m: Tick, t: Tick)
    requires Timely(u, m) && m <= t
    ensures Timely(MovePosition(u, m), t) && Timely(u, t)
    ensures DirectX(MovePosition(u, m), t) == DirectX(u, t)
    ensures DirectY(MovePosition(u, m), t) == DirectY(u, t)
  {
    LookIsDirect(u, m);
    if u.isMove && t < u.end {
      var v := MovePosition(u, m);
      var s, e := u.start as real, u.end as real;
      assert Fraction(u, t) == (t as real - s) / (e - s);
      assert Fraction(u, m) == (m as real - s) / (e - s);
      assert Fraction(v, t) == (t as real - m as real) / (e - m as real);
      LerpTwice(u.posX, u.destX, s, m as real, t as real, e);
      LerpTwice(u.posY, u.destY, s, m as real, t as real, e);
    }
  }

  predicate InOrder(from: Tick, ticks: seq<Tick>)
    decreases |ticks|
  {
    ticks != [] ==> from <= ticks[0] && InOrder(ticks[0], ticks[1..])
  }

  /** The user after a look at each of the ticks. */
  function Looked(u: RoomUser, ticks: seq<Tick>): RoomUser
    decreases |ticks|
  {
    if ticks == [] then u else Looked(MovePosition(u, ticks[0]), ticks[1..])
  }

  /** Main result. However often and whenever the room has looked, a user is where one
      interpolation from the original origin and start tick puts it; from its end tick on that
      is the destination itself. */
  lemma {:induction false} ScheduleIndependent(u: RoomUser, from: Tick, ticks: seq<Tick>, t: Tick)
    requires Timely(u, from) && InOrder(from, ticks + [t])
    ensures Timely(u, t)
    ensures var v := Looked(u, ticks + [t]);
            && v.posX == DirectX(u, t) && v.posY == DirectY(u, t)
            && (v.isMove <==> u.isMove && t < u.end)
            && (u.isMove && u.end <= t ==> v.posX == u.destX && v.posY == u.destY)
    decreases |ticks|
  {
    if ticks == [] {
      assert Looked(u, [t]) == Looked(MovePosition(u, t), []) by {
        assert [t][1..] == [];
      }
      assert [] + [t] == [t];
      LookIsDirect(u, t);
    } else {
      var m, rest := ticks[0], ticks[1..] + [t];
      assert (ticks + [t])[0] == m && (ticks + [t])[1..] == rest;
      InOrderLast(m, ticks[1..], t);
      LookIsDirect(u, m);
      LookKeepsDirect(u, m, t);
      ScheduleIndependent(MovePosition(u, m), m, ticks[1..], t);
    }
  }

  lemma {:induction false} InOrderLast(from: Tick, ticks: seq<Tick>, t: Tick)
    requires InOrder(from, ticks + [t])
    ensures from <= t
    decreases |ticks|
  {
    if ticks == [] {
      assert ([] + [t])[0] == t;
    } else {
      assert (ticks + [t])[0] == ticks[0] && (ticks + [t])[1..] == ticks[1..] + [t];
      InOrderLast(ticks[0], ticks[1..], t);
    }
  }

  // ---- monotone, and inside the map

  /** `p` lies on the way from `a` to `b`. */
  predicate Between(a: real, p: real, b: real) {
    a <= p <= b || a >= p >= b
  }

  lemma SameSign(w: real, k: real)
    requires 0.0 <= k
    ensures w >= 0.0 ==> w * k >= 0.0
    ensures w <= 0.0 ==> w * k <= 0.0
  {
  }

  lemma LerpBetween(from: real, to: real, ratio: real)
    requires 0.0 <= ratio <= 1.0
    ensures Between(from, Lerp(from, to, ratio), to)
  {
    SameSign(to - from, ratio);
    SameSign(to - from, 1.0 - ratio);
    assert to - Lerp(from, to, ratio) == (to - from) * (1.0 - ratio);
  }

  lemma QuotientBounds(n: real, d: real)
    requires 0.0 <= n <= d && 0.0 < d
    ensures 0.0 <= n / d <= 1.0
  {
    assert (n / d) * d == n;
  }

  /** A look moves each coordinate towards the destination, never past it and never back. */
  lemma LookApproaches(u: RoomUser, now: Tick)
    requires Timely(u, now)
    ensures u.isMove ==> Between(u.posX, MovePosition(u, now).posX, u.destX)
    ensures u.isMove ==> Between(u.posY, MovePosition(u, now).posY, u.destY)
    ensures !u.isMove ==> MovePosition(u, now) == u
  {
    LookIsDirect(u, now);
    if u.isMove && now < u.end {
      QuotientBounds((now - u.start) as real, (u.end - u.start) as real);
      LerpBetween(u.posX, u.destX, Fraction(u, now));
      LerpBetween(u.posY, u.destY, Fraction(u, now));
    }
  }
}
