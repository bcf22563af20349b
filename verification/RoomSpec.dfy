/** The room as a value, and what each job and tick makes of it. Only the room thread runs these.
    Every call of MakeSendPacket has a number, and `alloc` says which of them succeed: a theorem
    for every `alloc` is a theorem for every pattern of pool exhaustion. */
module RoomSpec {
  import opened Movement
  import opened MoveRun

  const MAX_ROOM_USER_COUNT: nat := 1000
  const MAX_SEND_COUNT: nat := 100  // entries in one SPAWN or MOVE packet
  const MAX_X: real := 10000.0
  const MAX_Y: real := 10000.0
  const MOVE_SPEED: real := 1.0

  /** A coordinate as a client may send it. */
  datatype Coord = Finite(value: real) | PosInfinity | NegInfinity | NaN

  datatype Spot = Spot(seqID: nat, x: real, y: real)

  datatype Msg =
    | EnterAck(room: int, seqID: nat)
    | Spawn(spots: seq<Spot>)
    | LeaveNote(seqID: nat)
    | MoveNote(spots: seq<Spot>)
    | Chat(data: nat)

  type Inboxes = map<Session, seq<Msg>>

  datatype RoomState = RoomState(
    roomID: int,
    users: map<int, RoomUser>,  // m_roomUser, by socket
    order: seq<int>,            // its keys in ascending order, as the map is iterated
    free: seq<nat>,             // m_seqIDs
    connected: set<Session>,    // sessions whose connected flag is set
    lastTick: Clock,
    calls: nat,                 // history: MakeSendPacket calls so far
    inbox: Inboxes,             // history: what was put into each session's send queue
    withdrawn: set<nat>)        // history: ids whose leave notice could not be made

  // ---- the ordered map

  function InsertKey(order: seq<int>, k: int): seq<int> {
    if order == [] then [k]
    else if k < order[0] then [k] + order
    else [order[0]] + InsertKey(order[1..], k)
  }

  function RemoveKey(order: seq<int>, k: int): seq<int> {
    if order == [] then []
    else if order[0] == k then order[1..]
    else [order[0]] + RemoveKey(order[1..], k)
  }

  /** The keys of everyone but `s`, in order. */
  function OtherKeys(users: map<int, RoomUser>, order: seq<int>, s: Session): seq<int> {
    if order == [] then []
    else
      var n := |order| - 1;
      OtherKeys(users, order[..n], s)
      + if order[n] in users && users[order[n]].session != s then [order[n]] else []
  }

  function MovingKeys(users: map<int, RoomUser>, order: seq<int>): seq<int> {
    if order == [] then []
    else
      var n := |order| - 1;
      MovingKeys(users, order[..n]) + if order[n] in users && users[order[n]].isMove then [order[n]] else []
  }

  function SessionsOf(users: map<int, RoomUser>, keys: seq<int>): seq<Session> {
    if keys == [] then []
    else
      var n := |keys| - 1;
      SessionsOf(users, keys[..n]) + if keys[n] in users then [users[keys[n]].session] else []
  }

  function SpotOf(u: RoomUser): Spot {
    Spot(u.seqID, u.posX, u.posY)
  }

  function SpotsOf(users: map<int, RoomUser>, keys: seq<int>): seq<Spot> {
    if keys == [] then []
    else
      var n := |keys| - 1;
      SpotsOf(users, keys[..n]) + if keys[n] in users then [SpotOf(users[keys[n]])] else []
  }

  // ---- sending

  function InboxOf(inbox: Inboxes, s: Session): seq<Msg> {
    if s in inbox then inbox[s] else []
  }

  /** InsertSendQueue. */
  function Post(inbox: Inboxes, s: Session, m: Msg): Inboxes {
    inbox[s := InboxOf(inbox, s) + [m]]
  }

  function Deliver(inbox: Inboxes, targets: seq<Session>, m: Msg): Inboxes {
    if targets == [] then inbox
    else Post(Deliver(inbox, targets[..|targets| - 1], m), targets[|targets| - 1], m)
  }

  /** A notice to everyone but `s`, and to everyone. */
  function ToOthers(r: RoomState, s: Session, m: Msg): Inboxes {
    Deliver(r.inbox, SessionsOf(r.users, OtherKeys(r.users, r.order, s)), m)
  }

  function ToAll(r: RoomState, m: Msg): Inboxes {
    Deliver(r.inbox, SessionsOf(r.users, r.order), m)
  }

  function PostSpawns(inbox: Inboxes, s: Session, batches: seq<seq<Spot>>): Inboxes {
    if batches == [] then inbox
    else Post(PostSpawns(inbox, s, batches[..|batches| - 1]), s, Spawn(batches[|batches| - 1]))
  }

  // ---- batches

  /** A packet being filled, those sent before it, and the number of the next allocation. */
  datatype Batching = Batching(sent: seq<seq<Spot>>, pending: seq<Spot>, calls: nat)

  /** Enter's loop: when the packet is full it is sent first; if that fails the entry is
      dropped. */
  function AddSpawn(alloc: nat -> bool, b: Batching, spot: Spot): Batching {
    if |b.pending| < MAX_SEND_COUNT then b.(pending := b.pending + [spot])
    else if alloc(b.calls) then Batching(b.sent + [b.pending], [spot], b.calls + 1)
    else b.(calls := b.calls + 1)
  }

  function AddSpawns(alloc: nat -> bool, calls: nat, spots: seq<Spot>): Batching {
    if spots == [] then Batching([], [], calls)
    else AddSpawn(alloc, AddSpawns(alloc, calls, spots[..|spots| - 1]), spots[|spots| - 1])
  }

  function FlushSpawns(alloc: nat -> bool, b: Batching): Batching {
    if b.pending == [] then b
    else if alloc(b.calls) then Batching(b.sent + [b.pending], [], b.calls + 1)
    else b.(pending := [], calls := b.calls + 1)
  }

  function SpawnBatches(alloc: nat -> bool, calls: nat, spots: seq<Spot>): Batching {
    FlushSpawns(alloc, AddSpawns(alloc, calls, spots))
  }

  /** MoveCheckUsers' loop: the full packets, and the one being filled. */
  function Pack(spots: seq<Spot>): (seq<seq<Spot>>, seq<Spot>) {
    if spots == [] then ([], [])
    else
      var (full, pending) := Pack(spots[..|spots| - 1]);
      if |pending| < MAX_SEND_COUNT then (full, pending + [spots[|spots| - 1]])
      else (full + [pending], [spots[|spots| - 1]])
  }

  function MoveBatches(spots: seq<Spot>): seq<seq<Spot>> {
    var (full, pending) := Pack(spots);
    if pending == [] then full else full + [pending]
  }

  // ---- jobs

  function Enter(alloc: nat -> bool, r: RoomState, s: Session): RoomState {
    if s in r.connected then r
    else if r.free == [] then
      var nak := r.(calls := r.calls + 1);
      if alloc(r.calls) then nak.(inbox := Post(r.inbox, s, EnterAck(-1, 0))) else nak
    else
      var id := r.free[0];
      var tried := r.(free := r.free[1..], calls := r.calls + 2);
      if alloc(r.calls) && alloc(r.calls + 1) && s.socket !in r.users then Join(alloc, tried, s, id)
      else tried.(free := tried.free + [id])
  }

  function Admit(r: RoomState, s: Session, id: nat): RoomState {
    r.(users := r.users[s.socket := NewUser(s, id)],
       order := InsertKey(r.order, s.socket),
       connected := r.connected + {s},
       inbox := Post(r.inbox, s, EnterAck(r.roomID, id)))
  }

  /** What the others are told of a new member. */
  function NewSpawn(id: nat): Msg {
    Spawn([Spot(id, 0.0, 0.0)])
  }

  function Join(alloc: nat -> bool, r: RoomState, s: Session, id: nat): RoomState {
    var a := Admit(r, s, id);
    var others := OtherKeys(a.users, a.order, s);
    var b := SpawnBatches(alloc, a.calls, SpotsOf(a.users, others));
    a.(inbox := PostSpawns(Deliver(a.inbox, SessionsOf(a.users, others), NewSpawn(id)), s, b.sent),
       calls := b.calls)
  }

  function Leave(alloc: nat -> bool, r: RoomState, s: Session): RoomState {
    if s !in r.connected then r
    else
      var out := r.(connected := r.connected - {s});
      if s.socket !in r.users then out
      else Remove(Tell(alloc, out, s, r.users[s.socket].seqID), s.socket)
  }

  /** The others are told and the id is free again, or neither. */
  function Tell(alloc: nat -> bool, r: RoomState, s: Session, id: nat): RoomState {
    var told := r.(calls := r.calls + 1);
    if alloc(r.calls) then
      told.(inbox := ToOthers(r, s, LeaveNote(id)),
            free := r.free + [id])
    else
      told.(withdrawn := r.withdrawn + {id})
  }

  function Remove(r: RoomState, socket: int): RoomState {
    r.(users := r.users - {socket}, order := RemoveKey(r.order, socket))
  }

  function BroadCast(alloc: nat -> bool, r: RoomState, s: Session, data: nat): RoomState {
    var called := r.(calls := r.calls + 1);
    if alloc(r.calls) then called.(inbox := ToOthers(r, s, Chat(data))) else called
  }

  /** A point the map has: finite and inside. */
  predicate OnMap(x: Coord, max: real) {
    x.Finite? && 0.0 <= x.value < max
  }

  /** `m_endMoveTick`: the sum is made in floating point and truncated to uint64. */
  function Arrival(now: Clock, dist: real): Tick {
    (now as real + (dist / MOVE_SPEED) * 1000.0).Floor % TWO_TO_64
  }

  function Times(a: real, b: real): real {
    a * b
  }

  function Square(d: real): real {
    Times(d, d)
  }

  function Distance(root: real -> real, u: RoomUser, x: real, y: real): real {
    root(Square(x - u.posX) + Square(y - u.posY))
  }

  function Redirect(root: real -> real, u: RoomUser, x: real, y: real, now: Clock): RoomUser {
    var v := MovePosition(u, now);
    var dist := Distance(root, v, x, y);
    if dist <= 0.0 then v
    else v.(isMove := true, destX := x, destY := y, start := now, end := Arrival(now, dist))
  }

  function Move(root: real -> real, r: RoomState, s: Session, x: Coord, y: Coord, now: Clock): RoomState {
    if s in r.connected && OnMap(x, MAX_X) && OnMap(y, MAX_Y) && s.socket in r.users then
      r.(users := r.users[s.socket := Redirect(root, r.users[s.socket], x.value, y.value, now)])
    else r
  }

  // ---- the tick

  function SendMoveData(alloc: nat -> bool, r: RoomState, batch: seq<Spot>): RoomState {
    var called := r.(calls := r.calls + 1);
    if alloc(r.calls) then called.(inbox := ToAll(r, MoveNote(batch)))
    else called
  }

  function SendAll(alloc: nat -> bool, r: RoomState, batches: seq<seq<Spot>>): RoomState {
    if batches == [] then r
    else SendMoveData(alloc, SendAll(alloc, r, batches[..|batches| - 1]), batches[|batches| - 1])
  }

  function MoveUsers(users: map<int, RoomUser>, now: Clock): map<int, RoomUser> {
    map k | k in users :: MovePosition(users[k], now)
  }

  /** What the tick broadcasts: everyone moving when it starts, where they are now. */
  function TickSpots(r: RoomState, now: Clock): seq<Spot> {
    SpotsOf(MoveUsers(r.users, now), MovingKeys(r.users, r.order))
  }

  function MoveCheckUsers(alloc: nat -> bool, r: RoomState, now: Clock): RoomState {
    SendAll(alloc, r.(users := MoveUsers(r.users, now)), MoveBatches(TickSpots(r, now)))
  }

  function TickRoom(alloc: nat -> bool, r: RoomState, now: Clock): RoomState {
    if Due(r.lastTick, now) then MoveCheckUsers(alloc, r.(lastTick := now), now) else r
  }

  // ---- runs

  datatype Event =
    | EnterJob(s: Session)
    | LeaveJob(s: Session)
    | BroadcastJob(s: Session, data: nat)
    | MoveJob(s: Session, x: Coord, y: Coord, at: Clock)
    | TickEvent(at: Clock)

  function Apply(alloc: nat -> bool, root: real -> real, r: RoomState, e: Event): RoomState {
    match e
    case EnterJob(s) => Enter(alloc, r, s)
    case LeaveJob(s) => Leave(alloc, r, s)
    case BroadcastJob(s, data) => BroadCast(alloc, r, s, data)
    case MoveJob(s, x, y, at) => Move(root, r, s, x, y, at)
    case TickEvent(at) => TickRoom(alloc, r, at)
  }

  function Run(alloc: nat -> bool, root: real -> real, r: RoomState, events: seq<Event>): RoomState
    decreases |events|
  {
    if events == [] then r else Run(alloc, root, Apply(alloc, root, r, events[0]), events[1..])
  }

  function Ids(count: nat): seq<nat> {
    if count == 0 then [] else Ids(count - 1) + [count - 1]
  }

  /** A room as constructed. */
  function NewRoom(roomID: int): RoomState {
    RoomState(roomID, map[], [], Ids(MAX_ROOM_USER_COUNT), {}, 0, 0, map[], {})
  }
}
