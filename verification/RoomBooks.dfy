/** What every reachable room keeps: its ordered map, its membership flags and its ids. */
module RoomBooks {
  import opened Movement
  import opened MoveRun
  import opened RoomSpec

  // ---- the ordered map

  ghost predicate Sorted(order: seq<int>) {
    forall i, j | 0 <= i < j < |order| :: order[i] < order[j]
  }

  lemma SortedCons(k: int, rest: seq<int>)
    requires Sorted(rest) && forall x | x in rest :: k < x
    ensures Sorted([k] + rest)
    ensures forall x :: x in [k] + rest <==> x == k || x in rest
  {
    forall j | 0 <= j < |rest| ensures k < rest[j] {
      assert rest[j] in rest;
    }
  }

  lemma SortedTail(order: seq<int>)
    requires Sorted(order) && order != []
    ensures Sorted(order[1..]) && forall x | x in order[1..] :: order[0] < x
    ensures forall x :: x in order <==> x == order[0] || x in order[1..]
  {
    assert order == [order[0]] + order[1..];
  }

  lemma {:induction false} InsertSorted(order: seq<int>, k: int)
    requires Sorted(order) && k !in order
    ensures Sorted(InsertKey(order, k))
    ensures forall x :: x in InsertKey(order, k) <==> x == k || x in order
  {
    if order != [] {
      SortedTail(order);
      if k < order[0] {
        SortedCons(k, order);
      } else {
        InsertSorted(order[1..], k);
        SortedCons(order[0], InsertKey(order[1..], k));
      }
    }
  }

  lemma {:induction false} RemoveSorted(order: seq<int>, k: int)
    requires Sorted(order)
    ensures Sorted(RemoveKey(order, k))
    ensures forall x :: x in RemoveKey(order, k) <==> x != k && x in order
  {
    if order != [] {
      SortedTail(order);
      if order[0] != k {
        RemoveSorted(order[1..], k);
        SortedCons(order[0], RemoveKey(order[1..], k));
      }
    }
  }

  /** The map is listed once each, in ascending order. */
  ghost predicate Listed(r: RoomState) {
    Sorted(r.order) && forall k :: k in r.order <==> k in r.users
  }

  predicate IsMember(r: RoomState, x: Session) {
    x.socket in r.users && r.users[x.socket].session == x
  }

  /** Connected means member: every member's session is flagged and filed under its own socket,
      and every flagged session is a member. */
  ghost predicate Membership(r: RoomState) {
    && (forall k | k in r.users :: r.users[k].session.socket == k && r.users[k].session in r.connected)
    && (forall s | s in r.connected :: s.socket in r.users && r.users[s.socket].session == s)
  }

  // ---- ids

  ghost function MemberIds(users: map<int, RoomUser>): set<nat> {
    set k | k in users :: users[k].seqID
  }

  ghost predicate Distinct(s: seq<nat>) {
    forall i, j | 0 <= i < j < |s| :: s[i] != s[j]
  }

  /** Every id is free, a member's, or withdrawn, exactly one of these, and held once. */
  ghost predicate IdsKept(r: RoomState) {
    && Distinct(r.free)
    && (forall k, l | k in r.users && l in r.users && k != l :: r.users[k].seqID != r.users[l].seqID)
    && (forall id | id in r.free :: id !in MemberIds(r.users) && id !in r.withdrawn)
    && MemberIds(r.users) !! r.withdrawn
    && (forall id: nat :: id < MAX_ROOM_USER_COUNT <==> id in r.free || id in MemberIds(r.users) || id in r.withdrawn)
  }

  ghost predicate Books(r: RoomState) {
    Listed(r) && Membership(r) && IdsKept(r)
  }

  lemma MemberIdsAdd(users: map<int, RoomUser>, k: int, u: RoomUser)
    requires k !in users
    ensures MemberIds(users[k := u]) == MemberIds(users) + {u.seqID}
  {
    var after := users[k := u];
    forall id | id in MemberIds(users) + {u.seqID} ensures id in MemberIds(after) {
      if id == u.seqID {
        assert after[k].seqID == id;
      } else {
        var l :| l in users && users[l].seqID == id;
        assert after[l].seqID == id;
      }
    }
  }

  lemma MemberIdsCut(users: map<int, RoomUser>, k: int)
    requires k in users
    requires forall i, j | i in users && j in users && i != j :: users[i].seqID != users[j].seqID
    ensures MemberIds(users - {k}) == MemberIds(users) - {users[k].seqID}
  {
    var after := users - {k};
    forall id | id in MemberIds(users) - {users[k].seqID} ensures id in MemberIds(after) {
      var l :| l in users && users[l].seqID == id;
      assert after[l].seqID == id;
    }
  }

  lemma MemberIdsSame(users: map<int, RoomUser>, after: map<int, RoomUser>)
    requires users.Keys == after.Keys
    requires forall k | k in users :: after[k].seqID == users[k].seqID
    ensures MemberIds(after) == MemberIds(users)
  {
  }

  lemma {:induction false} IdsDistinct(count: nat)
    ensures |Ids(count)| == count
    ensures forall i | 0 <= i < count :: Ids(count)[i] == i
  {
    if count > 0 {
      IdsDistinct(count - 1);
    }
  }

  /** A new room is empty, and its ids are queued in ascending order. */
  lemma NewRoomBooks(roomID: int)
    ensures Books(NewRoom(roomID))
    ensures var r := NewRoom(roomID);
            && r.roomID == roomID && r.users == map[] && r.connected == {} && r.withdrawn == {} && r.lastTick == 0
            && |r.free| == 1000 && (forall i | 0 <= i < 1000 :: r.free[i] == i)
            && r.calls == 0 && forall s :: InboxOf(r.inbox, s) == []
  {
    IdsDistinct(MAX_ROOM_USER_COUNT);
    var free := NewRoom(roomID).free;
    forall id: nat | id < MAX_ROOM_USER_COUNT ensures id in free {
      assert free[id] == id;
    }
  }

  /** A refused entry puts the id at the end of the queue. */
  lemma RotateIds(r: RoomState, calls: nat)
    requires IdsKept(r) && r.free != []
    ensures IdsKept(r.(free := r.free[1..] + [r.free[0]], calls := calls))
  {
  }

  lemma AdmitIds(r: RoomState, s: Session)
    requires IdsKept(r) && r.free != [] && s.socket !in r.users
    ensures var a := Admit(r.(free := r.free[1..]), s, r.free[0]); IdsKept(a)
  {
    var id := r.free[0];
    MemberIdsAdd(r.users, s.socket, NewUser(s, id));
    assert r.free == [id] + r.free[1..];
    forall k | k in r.users ensures r.users[k].seqID != id {
      assert r.users[k].seqID in MemberIds(r.users);
    }
  }

  /** The books do not depend on what was sent. */
  ghost predicate SameBooks(r: RoomState, t: RoomState) {
    && t.users.Keys == r.users.Keys && t.order == r.order && t.free == r.free
    && t.connected == r.connected && t.withdrawn == r.withdrawn
    && (forall k | k in r.users :: t.users[k].seqID == r.users[k].seqID && t.users[k].session == r.users[k].session)
  }

  lemma SameBooksKeep(r: RoomState, t: RoomState)
    requires Books(r) && SameBooks(r, t)
    ensures Books(t)
  {
    MemberIdsSame(r.users, t.users);
    assert forall k, l | k in t.users && l in t.users && k != l :: t.users[k].seqID != t.users[l].seqID;
  }

  lemma AdmitBooks(r: RoomState, s: Session)
    requires Books(r) && r.free != [] && s.socket !in r.users && s !in r.connected
    ensures Books(Admit(r.(free := r.free[1..]), s, r.free[0]))
  {
    AdmitIds(r, s);
    InsertSorted(r.order, s.socket);
  }

  lemma EnterBooks(alloc: nat -> bool, r: RoomState, s: Session)
    requires Books(r)
    ensures Books(Enter(alloc, r, s))
  {
    if s !in r.connected && r.free != [] {
      if alloc(r.calls) && alloc(r.calls + 1) && s.socket !in r.users {
        AdmitBooks(r, s);
        SameBooksKeep(Admit(r.(free := r.free[1..]), s, r.free[0]), Enter(alloc, r, s));
      } else {
        RotateIds(r, r.calls + 2);
      }
    }
  }

  /** A leaver's id is free again, or, if nobody could be told, never used again. */
  lemma LeaveIds(alloc: nat -> bool, r: RoomState, s: Session)
    requires Books(r) && s in r.connected
    ensures IdsKept(Leave(alloc, r, s))
  {
    var id, left := r.users[s.socket].seqID, Leave(alloc, r, s);
    MemberIdsCut(r.users, s.socket);
    assert id in MemberIds(r.users);
    assert left.users == r.users - {s.socket};
    if alloc(r.calls) {
      assert left.free == r.free + [id];
    }
  }

  lemma LeaveBooks(alloc: nat -> bool, r: RoomState, s: Session)
    requires Books(r)
    ensures Books(Leave(alloc, r, s))
  {
    if s in r.connected {
      LeaveIds(alloc, r, s);
      RemoveSorted(r.order, s.socket);
    }
  }

  lemma {:induction false} SendAllFrame(alloc: nat -> bool, r: RoomState, batches: seq<seq<Spot>>)
    ensures var t := SendAll(alloc, r, batches);
            t == r.(inbox := t.inbox, calls := t.calls)
  {
    if batches != [] {
      SendAllFrame(alloc, r, batches[..|batches| - 1]);
    }
  }

  lemma TickBooks(alloc: nat -> bool, r: RoomState, now: Clock)
    requires Books(r)
    ensures Books(TickRoom(alloc, r, now)) && TickRoom(alloc, r, now).withdrawn == r.withdrawn
  {
    var moved := r.(lastTick := now, users := MoveUsers(r.users, now));
    SendAllFrame(alloc, moved, MoveBatches(TickSpots(r.(lastTick := now), now)));
    if Due(r.lastTick, now) {
      SameBooksKeep(r, TickRoom(alloc, r, now));
    }
  }

  lemma ApplyBooks(alloc: nat -> bool, root: real -> real, r: RoomState, e: Event)
    requires Books(r)
    ensures Books(Apply(alloc, root, r, e))
    ensures r.withdrawn <= Apply(alloc, root, r, e).withdrawn
  {
    match e
    case EnterJob(s) => EnterBooks(alloc, r, s);
    case LeaveJob(s) => LeaveBooks(alloc, r, s);
    case TickEvent(at) => TickBooks(alloc, r, at);
    case _ => SameBooksKeep(r, Apply(alloc, root, r, e));
  }

  lemma {:induction false} RunBooks(alloc: nat -> bool, root: real -> real, r: RoomState, events: seq<Event>)
    requires Books(r)
    ensures Books(Run(alloc, root, r, events))
    ensures r.withdrawn <= Run(alloc, root, r, events).withdrawn
    decreases |events|
  {
    if events != [] {
      ApplyBooks(alloc, root, r, events[0]);
      RunBooks(alloc, root, Apply(alloc, root, r, events[0]), events[1..]);
    }
  }

  /** A withdrawn id stays withdrawn: whatever happens later, nobody is given it. */
  lemma WithdrawnForever(alloc: nat -> bool, root: real -> real, r: RoomState, events: seq<Event>, id: nat)
    requires Books(r) && id in r.withdrawn
    ensures var t := Run(alloc, root, r, events);
            id in t.withdrawn && id !in t.free && id !in MemberIds(t.users)
  {
    RunBooks(alloc, root, r, events);
  }

  lemma {:induction false} MembersCounted(users: map<int, RoomUser>)
    requires forall k, l | k in users && l in users && k != l :: users[k].seqID != users[l].seqID
    ensures |MemberIds(users)| == |users|
    decreases |users|
  {
    if users == map[] {
      assert MemberIds(users) == {};
    } else {
      var k :| k in users;
      MemberIdsCut(users, k);
      assert (users - {k}).Keys == users.Keys - {k};
      assert users[k].seqID in MemberIds(users);
      MembersCounted(users - {k});
    }
  }

  lemma {:induction false} IdsCounted(ids: set<nat>, bound: nat)
    requires forall id | id in ids :: id < bound
    ensures |ids| <= bound
    decreases bound
  {
    if bound == 0 {
      assert ids == {};
    } else {
      var below := ids - {bound - 1};
      IdsCounted(below, bound - 1);
      assert ids <= below + {bound - 1};
    }
  }

  /** Main result on ids. In every reachable room the free queue, the members' ids and the ids
      withdrawn by failed leave notices are duplicate free, disjoint, and together are 0..999:
      nobody shares an id, and there are never more than 1000 members. */
  lemma IdsConserved(alloc: nat -> bool, root: real -> real, roomID: int, events: seq<Event>)
    ensures var r := Run(alloc, root, NewRoom(roomID), events);
            && IdsKept(r)
            && (forall id: nat :: id < 1000 <==> id in r.free || id in MemberIds(r.users) || id in r.withdrawn)
            && |r.users| + |r.withdrawn| <= 1000
  {
    NewRoomBooks(roomID);
    RunBooks(alloc, root, NewRoom(roomID), events);
    var r := Run(alloc, root, NewRoom(roomID), events);
    MembersCounted(r.users);
    IdsCounted(MemberIds(r.users) + r.withdrawn, MAX_ROOM_USER_COUNT);
  }
}
