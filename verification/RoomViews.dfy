/** What each member can tell from its packets about who is in the room. */
module RoomViews {
  import opened Movement
  import opened MoveRun
  import opened RoomSpec
  import opened RoomBooks

  // ---- the client's fold

  ghost function SpotIds(spots: seq<Spot>): set<nat> {
    set i | 0 <= i < |spots| :: spots[i].seqID
  }

  /** The ids a client holds after its packets: its own ENTER starts over, SPAWN adds, LEAVE
      takes away, everything else leaves it as it is. */
  ghost function View(msgs: seq<Msg>): set<nat> {
    if msgs == [] then {}
    else Seen(View(msgs[..|msgs| - 1]), msgs[|msgs| - 1])
  }

  ghost function Seen(view: set<nat>, m: Msg): set<nat> {
    match m
    case EnterAck(_, _) => {}
    case Spawn(spots) => view + SpotIds(spots)
    case LeaveNote(id) => view - {id}
    case MoveNote(_) => view
    case Chat(_) => view
  }

  lemma ViewSnoc(msgs: seq<Msg>, m: Msg)
    ensures View(msgs + [m]) == Seen(View(msgs), m)
  {
  }

  ghost function ViewOf(inbox: Inboxes, s: Session): set<nat> {
    View(InboxOf(inbox, s))
  }

  lemma PostView(inbox: Inboxes, s: Session, m: Msg)
    ensures ViewOf(Post(inbox, s, m), s) == Seen(ViewOf(inbox, s), m)
  {
  }

  // ---- who is told

  /** Users are filed under their sockets and listed in ascending order. */
  ghost predicate Filed(users: map<int, RoomUser>, order: seq<int>) {
    && Sorted(order)
    && (forall i | 0 <= i < |order| :: order[i] in users)
    && (forall k | k in users :: users[k].session.socket == k)
  }

  lemma {:induction false} OtherKeysIn(users: map<int, RoomUser>, order: seq<int>, s: Session)
    ensures forall k :: k in OtherKeys(users, order, s) <==> k in order && k in users && users[k].session != s
  {
    if order != [] {
      var n := |order| - 1;
      assert order == order[..n] + [order[n]];
      OtherKeysIn(users, order[..n], s);
    }
  }

  /** A selection from what comes before `k` can be followed by `k`. */
  lemma SortedSnoc(order: seq<int>, keys: seq<int>, k: int)
    requires Sorted(keys) && (forall x | x in keys :: x in order) && (forall i | 0 <= i < |order| :: order[i] < k)
    ensures Sorted(keys + [k]) && Sorted(keys + [])
  {
    forall i | 0 <= i < |keys| ensures keys[i] < k {
      assert keys[i] in keys;
    }
  }

  lemma {:induction false} OtherKeysSorted(users: map<int, RoomUser>, order: seq<int>, s: Session)
    requires Sorted(order)
    ensures Sorted(OtherKeys(users, order, s))
  {
    if order != [] {
      var n := |order| - 1;
      OtherKeysSorted(users, order[..n], s);
      OtherKeysIn(users, order[..n], s);
      SortedSnoc(order[..n], OtherKeys(users, order[..n], s), order[n]);
    }
  }

  lemma OtherKeysAre(users: map<int, RoomUser>, order: seq<int>, s: Session)
    requires Sorted(order)
    ensures Sorted(OtherKeys(users, order, s))
    ensures forall k :: k in OtherKeys(users, order, s) <==> k in order && k in users && users[k].session != s
  {
    OtherKeysIn(users, order, s);
    OtherKeysSorted(users, order, s);
  }

  lemma {:induction false} SessionsAre(users: map<int, RoomUser>, keys: seq<int>)
    requires forall i | 0 <= i < |keys| :: keys[i] in users
    ensures |SessionsOf(users, keys)| == |keys|
    ensures forall i | 0 <= i < |keys| :: SessionsOf(users, keys)[i] == users[keys[i]].session
  {
    if keys != [] {
      SessionsAre(users, keys[..|keys| - 1]);
    }
  }

  lemma {:induction false} DeliverOnce(inbox: Inboxes, targets: seq<Session>, m: Msg, s: Session)
    requires forall i, j | 0 <= i < j < |targets| :: targets[i] != targets[j]
    ensures InboxOf(Deliver(inbox, targets, m), s) == InboxOf(inbox, s) + if s in targets then [m] else []
  {
    if targets != [] {
      var n := |targets| - 1;
      DeliverOnce(inbox, targets[..n], m, s);
      assert targets == targets[..n] + [targets[n]];
    }
  }

  /** A notice to a list of members reaches each of them once, and nobody else. */
  lemma DeliverToKeys(inbox: Inboxes, users: map<int, RoomUser>, keys: seq<int>, m: Msg, s: Session)
    requires Filed(users, keys)
    ensures InboxOf(Deliver(inbox, SessionsOf(users, keys), m), s)
         == InboxOf(inbox, s) + if s.socket in keys && users[s.socket].session == s then [m] else []
  {
    SessionsAre(users, keys);
    var targets := SessionsOf(users, keys);
    DeliverOnce(inbox, targets, m, s);
    if s.socket in keys && users[s.socket].session == s {
      var i :| 0 <= i < |keys| && keys[i] == s.socket;
      assert targets[i] == s;
    }
  }

  /** A notice to everyone but `s` reaches exactly the other members, once each. */
  lemma ToldOthers(inbox: Inboxes, users: map<int, RoomUser>, order: seq<int>, s: Session, m: Msg, x: Session)
    requires Filed(users, order)
    ensures InboxOf(Deliver(inbox, SessionsOf(users, OtherKeys(users, order, s)), m), x)
         == InboxOf(inbox, x) + if x != s && x.socket in order && users[x.socket].session == x then [m] else []
  {
    OtherKeysAre(users, order, s);
    DeliverToKeys(inbox, users, OtherKeys(users, order, s), m, x);
  }

  lemma ToldView(inbox: Inboxes, users: map<int, RoomUser>, order: seq<int>, s: Session, m: Msg, k: int)
    requires Filed(users, order) && k in order && users[k].session != s
    ensures ViewOf(Deliver(inbox, SessionsOf(users, OtherKeys(users, order, s)), m), users[k].session)
         == Seen(ViewOf(inbox, users[k].session), m)
  {
    var x := users[k].session;
    assert x.socket == k;
    ToldOthers(inbox, users, order, s, m, x);
    ViewSnoc(InboxOf(inbox, x), m);
  }

  // ---- SPAWN batches

  function Concat(batches: seq<seq<Spot>>): seq<Spot> {
    if batches == [] then [] else Concat(batches[..|batches| - 1]) + batches[|batches| - 1]
  }

  predicate AllOk(alloc: nat -> bool, from: nat, to: nat) {
    forall i | from <= i < to :: alloc(i)
  }

  lemma JoinSnoc(batches: seq<seq<Spot>>, b: seq<Spot>)
    ensures Concat(batches + [b]) == Concat(batches) + b
  {
  }

  ghost predicate AllIn(part: seq<Spot>, spots: seq<Spot>) {
    forall x | x in part :: x in spots
  }

  /** Full packets so far, nothing in them that is not in `spots`, and nothing missing unless an
      allocation failed. */
  ghost predicate Covers(alloc: nat -> bool, calls: nat, b: Batching, spots: seq<Spot>) {
    && calls <= b.calls && |b.pending| <= MAX_SEND_COUNT
    && (forall i | 0 <= i < |b.sent| :: |b.sent[i]| == MAX_SEND_COUNT)
    && AllIn(Concat(b.sent), spots) && AllIn(b.pending, spots)
    && (AllOk(alloc, calls, b.calls) ==> Concat(b.sent) + b.pending == spots)
  }

  lemma AddSpawnCovers(alloc: nat -> bool, calls: nat, b: Batching, spots: seq<Spot>, spot: Spot)
    requires Covers(alloc, calls, b, spots)
    ensures Covers(alloc, calls, AddSpawn(alloc, b, spot), spots + [spot])
  {
  }

  lemma {:induction false} AddSpawnsCover(alloc: nat -> bool, calls: nat, spots: seq<Spot>)
    ensures Covers(alloc, calls, AddSpawns(alloc, calls, spots), spots)
  {
    if spots != [] {
      var init, last := spots[..|spots| - 1], spots[|spots| - 1];
      AddSpawnsCover(alloc, calls, init);
      AddSpawnCovers(alloc, calls, AddSpawns(alloc, calls, init), init, last);
      assert spots == init + [last];
    }
  }

  lemma FlushCovers(alloc: nat -> bool, calls: nat, b: Batching, spots: seq<Spot>)
    requires Covers(alloc, calls, b, spots)
    ensures var f := FlushSpawns(alloc, b);
            && calls <= f.calls && AllIn(Concat(f.sent), spots)
            && (forall i | 0 <= i < |f.sent| :: |f.sent[i]| <= MAX_SEND_COUNT)
            && (AllOk(alloc, calls, f.calls) ==> Concat(f.sent) == spots)
  {
  }

  /** Whatever is sent to a new member is about members; when every allocation succeeds it is
      about each of them, once, in map order. */
  lemma SpawnsCover(alloc: nat -> bool, calls: nat, spots: seq<Spot>)
    ensures var b := SpawnBatches(alloc, calls, spots);
            && calls <= b.calls && AllIn(Concat(b.sent), spots)
            && (forall i | 0 <= i < |b.sent| :: |b.sent[i]| <= 100)
            && (AllOk(alloc, calls, b.calls) ==> Concat(b.sent) == spots)
  {
    AddSpawnsCover(alloc, calls, spots);
    FlushCovers(alloc, calls, AddSpawns(alloc, calls, spots), spots);
  }

  // ---- what a new member sees

  lemma {:induction false} SpotsAre(users: map<int, RoomUser>, keys: seq<int>)
    requires forall i | 0 <= i < |keys| :: keys[i] in users
    ensures |SpotsOf(users, keys)| == |keys|
    ensures forall i | 0 <= i < |keys| :: SpotsOf(users, keys)[i] == SpotOf(users[keys[i]])
  {
    if keys != [] {
      SpotsAre(users, keys[..|keys| - 1]);
    }
  }

  lemma SpotIdsJoin(a: seq<Spot>, b: seq<Spot>)
    ensures SpotIds(a + b) == SpotIds(a) + SpotIds(b)
  {
    forall i | 0 <= i < |b| ensures b[i].seqID in SpotIds(a + b) {
      assert (a + b)[|a| + i] == b[i];
    }
    forall i | 0 <= i < |a| ensures a[i].seqID in SpotIds(a + b) {
      assert (a + b)[i] == a[i];
    }
  }

  lemma {:induction false} PostSpawnsView(inbox: Inboxes, s: Session, batches: seq<seq<Spot>>)
    ensures ViewOf(PostSpawns(inbox, s, batches), s) == ViewOf(inbox, s) + SpotIds(Concat(batches))
    ensures forall x | x != s :: InboxOf(PostSpawns(inbox, s, batches), x) == InboxOf(inbox, x)
  {
    if batches != [] {
      var n := |batches| - 1;
      PostSpawnsView(inbox, s, batches[..n]);
      PostView(PostSpawns(inbox, s, batches[..n]), s, Spawn(batches[n]));
      SpotIdsJoin(Concat(batches[..n]), batches[n]);
    }
  }

  /** The ids of all members but the one at `k`. */
  ghost function Others(users: map<int, RoomUser>, k: int): set<nat>
    requires k in users
  {
    MemberIds(users) - {users[k].seqID}
  }

  ghost predicate IdsApart(users: map<int, RoomUser>) {
    forall k, l | k in users && l in users && k != l :: users[k].seqID != users[l].seqID
  }

  lemma SpotsFound(users: map<int, RoomUser>, keys: seq<int>, k: int)
    requires forall i | 0 <= i < |keys| :: keys[i] in users
    requires k in keys
    ensures users[k].seqID in SpotIds(SpotsOf(users, keys))
  {
    SpotsAre(users, keys);
    var i :| 0 <= i < |keys| && keys[i] == k;
    assert SpotsOf(users, keys)[i].seqID == users[k].seqID;
  }

  lemma SpotsFrom(users: map<int, RoomUser>, keys: seq<int>, id: nat) returns (k: int)
    requires forall i | 0 <= i < |keys| :: keys[i] in users
    requires id in SpotIds(SpotsOf(users, keys))
    ensures k in keys && k in users && users[k].seqID == id
  {
    SpotsAre(users, keys);
    var i :| 0 <= i < |keys| && SpotsOf(users, keys)[i].seqID == id;
    k := keys[i];
  }

  /** The entries that Enter goes through are those of the other members. */
  lemma OtherSpots(users: map<int, RoomUser>, order: seq<int>, k: int)
    requires Filed(users, order) && IdsApart(users) && k in users && (forall l | l in users :: l in order)
    ensures SpotIds(SpotsOf(users, OtherKeys(users, order, users[k].session))) == Others(users, k)
  {
    var keys := OtherKeys(users, order, users[k].session);
    OtherKeysAre(users, order, users[k].session);
    assert forall i | 0 <= i < |keys| :: keys[i] in keys;
    forall id | id in Others(users, k) ensures id in SpotIds(SpotsOf(users, keys)) {
      var l :| l in users && users[l].seqID == id;
      SpotsFound(users, keys, l);
    }
    forall id | id in SpotIds(SpotsOf(users, keys)) ensures id in Others(users, k) {
      var l := SpotsFrom(users, keys, id);
    }
  }

  // ---- the views of a room

  /** A member holds only ids of other members, or ids withdrawn for good. */
  ghost predicate ViewsOk(r: RoomState) {
    forall k | k in r.users :: ViewOf(r.inbox, r.users[k].session) <= Others(r.users, k) + r.withdrawn
  }

  /** The other members that a member does not know of. */
  ghost function Missing(r: RoomState, k: int): set<nat>
    requires k in r.users
  {
    Others(r.users, k) - ViewOf(r.inbox, r.users[k].session)
  }

  /** The same session is a member before and after. */
  predicate Stays(r: RoomState, t: RoomState, k: int) {
    k in r.users && k in t.users && t.users[k].session == r.users[k].session
  }

  /** For members that stay, an event adds nothing they miss. */
  ghost predicate NothingNewMissing(r: RoomState, t: RoomState) {
    forall k | Stays(r, t, k) :: Missing(t, k) <= Missing(r, k)
  }

  /** Nobody who is there misses anybody, and no id is out of use. */
  ghost predicate AllSeen(r: RoomState) {
    r.withdrawn == {} && forall k | k in r.users :: Missing(r, k) == {}
  }

  lemma BooksFiled(r: RoomState)
    requires Books(r)
    ensures Filed(r.users, r.order) && IdsApart(r.users) && (forall k | k in r.users :: k in r.order)
  {
  }

  /** A notice that says nothing about membership. */
  lemma QuietViews(r: RoomState, t: RoomState)
    requires ViewsOk(r)
    requires t.users.Keys == r.users.Keys && t.withdrawn == r.withdrawn
    requires forall k | k in r.users :: t.users[k].seqID == r.users[k].seqID && t.users[k].session == r.users[k].session
    requires forall k | k in r.users :: ViewOf(t.inbox, r.users[k].session) == ViewOf(r.inbox, r.users[k].session)
    ensures ViewsOk(t) && NothingNewMissing(r, t)
    ensures AllSeen(r) ==> AllSeen(t)
  {
  }

  // ---- entering

  /** Everybody but the new member is sent the notice and nothing else. */
  lemma JoinInbox(alloc: nat -> bool, r: RoomState, s: Session, id: nat, x: Session)
    requires x != s
    ensures var a := Admit(r, s, id);
            InboxOf(Join(alloc, r, s, id).inbox, x)
            == InboxOf(Deliver(a.inbox, SessionsOf(a.users, OtherKeys(a.users, a.order, s)), NewSpawn(id)), x)
    ensures InboxOf(Admit(r, s, id).inbox, x) == InboxOf(r.inbox, x)
  {
    var a := Admit(r, s, id);
    var others := OtherKeys(a.users, a.order, s);
    var b := SpawnBatches(alloc, a.calls, SpotsOf(a.users, others));
    PostSpawnsView(Deliver(a.inbox, SessionsOf(a.users, others), NewSpawn(id)), s, b.sent);
  }

  lemma SpotIdsOne(spot: Spot)
    ensures SpotIds([spot]) == {spot.seqID}
  {
    assert [spot][0].seqID in SpotIds([spot]);
  }

  /** What a join does to a member that was there before: it learns of the new one. */
  lemma JoinOld(alloc: nat -> bool, r: RoomState, s: Session, id: nat, k: int)
    requires Filed(Admit(r, s, id).users, Admit(r, s, id).order) && s.socket !in r.users
    requires k in r.users && k in Admit(r, s, id).order
    ensures ViewOf(Join(alloc, r, s, id).inbox, r.users[k].session) == ViewOf(r.inbox, r.users[k].session) + {id}
  {
    var a, x := Admit(r, s, id), r.users[k].session;
    assert a.users[k] == r.users[k] && x.socket == k && x != s;
    JoinInbox(alloc, r, s, id, x);
    ToldView(a.inbox, a.users, a.order, s, NewSpawn(id), k);
    SpotIdsOne(Spot(id, 0.0, 0.0));
  }

  /** What the new member sees: members only; all of them unless one of its own batches failed. */
  lemma JoinNew(alloc: nat -> bool, r: RoomState, s: Session, id: nat)
    requires var a := Admit(r, s, id); Filed(a.users, a.order) && IdsApart(a.users) && forall l | l in a.users :: l in a.order
    ensures var t := Join(alloc, r, s, id);
            && ViewOf(t.inbox, s) <= Others(t.users, s.socket)
            && (AllOk(alloc, r.calls, t.calls) ==> ViewOf(t.inbox, s) == Others(t.users, s.socket))
  {
    var a, news := Admit(r, s, id), NewSpawn(id);
    var others := OtherKeys(a.users, a.order, s);
    var spots := SpotsOf(a.users, others);
    var b := SpawnBatches(alloc, a.calls, spots);
    ToldOthers(a.inbox, a.users, a.order, s, news, s);
    PostView(r.inbox, s, EnterAck(r.roomID, id));
    PostSpawnsView(Deliver(a.inbox, SessionsOf(a.users, others), news), s, b.sent);
    SpawnsCover(alloc, a.calls, spots);
    OtherSpots(a.users, a.order, s.socket);
    forall i | 0 <= i < |Concat(b.sent)| ensures Concat(b.sent)[i].seqID in SpotIds(spots) {
      assert Concat(b.sent)[i] in Concat(b.sent);
    }
  }

  /** A member that stays, and from whose point of view the id is new. */
  ghost predicate Learns(r: RoomState, t: RoomState, k: int, id: nat) {
    && Stays(r, t, k)
    && ViewOf(t.inbox, t.users[k].session) == ViewOf(r.inbox, r.users[k].session) + {id}
    && Others(t.users, k) == Others(r.users, k) + {id}
  }

  lemma OthersGrow(users: map<int, RoomUser>, socket: int, u: RoomUser, k: int)
    requires socket !in users && k in users && u.seqID != users[k].seqID
    ensures Others(users[socket := u], k) == Others(users, k) + {u.seqID}
  {
    MemberIdsAdd(users, socket, u);
  }

  lemma JoinLearns(alloc: nat -> bool, r: RoomState, s: Session, id: nat, k: int)
    requires s.socket !in r.users && k in r.users && Books(Admit(r, s, id))
    ensures Learns(r, Join(alloc, r, s, id), k, id)
  {
    BooksFiled(Admit(r, s, id));
    JoinOld(alloc, r, s, id, k);
    JoinFrame(alloc, r, s, id);
    NewIdApart(r, s, id, k);
    OthersGrow(r.users, s.socket, NewUser(s, id), k);
  }

  lemma NewIdApart(r: RoomState, s: Session, id: nat, k: int)
    requires s.socket !in r.users && k in r.users && IdsApart(Admit(r, s, id).users)
    ensures r.users[k].seqID != id
  {
    var users := Admit(r, s, id).users;
    assert users[k].seqID != users[s.socket].seqID;
  }

  lemma LearningKeepsViews(r: RoomState, t: RoomState, socket: int, id: nat)
    requires ViewsOk(r) && t.withdrawn == r.withdrawn && t.users.Keys == r.users.Keys + {socket}
    requires forall k | k in r.users :: Learns(r, t, k, id)
    requires socket !in r.users && ViewOf(t.inbox, t.users[socket].session) <= Others(t.users, socket)
    ensures ViewsOk(t) && NothingNewMissing(r, t)
    ensures AllSeen(r) && Missing(t, socket) == {} ==> AllSeen(t)
  {
  }

  lemma JoinFrame(alloc: nat -> bool, r: RoomState, s: Session, id: nat)
    ensures var t := Join(alloc, r, s, id);
            && t.users == r.users[s.socket := NewUser(s, id)] && t.users.Keys == r.users.Keys + {s.socket}
            && t.withdrawn == r.withdrawn
  {
  }

  lemma JoinViews(alloc: nat -> bool, r: RoomState, s: Session, id: nat)
    requires s.socket !in r.users && ViewsOk(r)
    requires Books(Admit(r, s, id))
    ensures ViewsOk(Join(alloc, r, s, id)) && NothingNewMissing(r, Join(alloc, r, s, id))
    ensures AllSeen(r) && AllOk(alloc, r.calls, Join(alloc, r, s, id).calls) ==> AllSeen(Join(alloc, r, s, id))
  {
    forall k | k in r.users ensures Learns(r, Join(alloc, r, s, id), k, id) {
      JoinLearns(alloc, r, s, id, k);
    }
    JoinFrame(alloc, r, s, id);
    JoinedSees(alloc, r, s, id);
    LearningKeepsViews(r, Join(alloc, r, s, id), s.socket, id);
  }

  lemma JoinedSees(alloc: nat -> bool, r: RoomState, s: Session, id: nat)
    requires Books(Admit(r, s, id))
    ensures var t := Join(alloc, r, s, id);
            && s.socket in t.users && t.users[s.socket].session == s
            && ViewOf(t.inbox, s) <= Others(t.users, s.socket)
            && (AllOk(alloc, r.calls, t.calls) ==> Missing(t, s.socket) == {})
  {
    BooksFiled(Admit(r, s, id));
    JoinNew(alloc, r, s, id);
  }

  predicate Joins(alloc: nat -> bool, r: RoomState, s: Session) {
    s !in r.connected && r.free != [] && alloc(r.calls) && alloc(r.calls + 1) && s.socket !in r.users
  }

  lemma RefusedFrame(alloc: nat -> bool, r: RoomState, s: Session)
    requires !Joins(alloc, r, s)
    ensures var t := Enter(alloc, r, s);
            t.users == r.users && t.withdrawn == r.withdrawn && r.calls <= t.calls
  {
  }

  /** A refusal is sent to no member. */
  lemma RefusedInbox(alloc: nat -> bool, r: RoomState, s: Session, x: Session)
    requires !Joins(alloc, r, s) && x in r.connected
    ensures ViewOf(Enter(alloc, r, s).inbox, x) == ViewOf(r.inbox, x)
  {
  }

  lemma RefusedViews(alloc: nat -> bool, r: RoomState, s: Session)
    requires Membership(r) && ViewsOk(r) && !Joins(alloc, r, s)
    ensures var t := Enter(alloc, r, s);
            ViewsOk(t) && NothingNewMissing(r, t) && r.calls <= t.calls && (AllSeen(r) ==> AllSeen(t))
  {
    forall k | k in r.users
      ensures ViewOf(Enter(alloc, r, s).inbox, r.users[k].session) == ViewOf(r.inbox, r.users[k].session)
    {
      RefusedInbox(alloc, r, s, r.users[k].session);
    }
    RefusedFrame(alloc, r, s);
    QuietViews(r, Enter(alloc, r, s));
  }

  /** The room once the id is taken and the two packets are made. */
  function Tried(r: RoomState): RoomState
    requires r.free != []
  {
    r.(free := r.free[1..], calls := r.calls + 2)
  }

  lemma EnterIsJoin(alloc: nat -> bool, r: RoomState, s: Session)
    requires Joins(alloc, r, s)
    ensures Enter(alloc, r, s) == Join(alloc, Tried(r), s, r.free[0])
  {
  }

  /** Refused for another reason than that there is no id. */
  lemma EnterRefused(alloc: nat -> bool, r: RoomState, s: Session)
    requires s !in r.connected && r.free != [] && !Joins(alloc, r, s)
    ensures Enter(alloc, r, s) == Tried(r).(free := r.free[1..] + [r.free[0]])
  {
  }

  /** Who is in afterwards was in before, or has joined. */
  lemma EnteredJoined(alloc: nat -> bool, r: RoomState, s: Session)
    requires s !in r.connected && s in Enter(alloc, r, s).connected
    ensures Joins(alloc, r, s)
  {
  }

  lemma TriedBooks(r: RoomState, s: Session)
    requires Books(r) && r.free != [] && s !in r.connected && s.socket !in r.users
    ensures Books(Admit(Tried(r), s, r.free[0]))
  {
    AdmitBooks(r, s);
    SameBooksKeep(Admit(r.(free := r.free[1..]), s, r.free[0]), Admit(Tried(r), s, r.free[0]));
  }

  lemma TriedViews(r: RoomState, t: RoomState)
    requires r.free != []
    ensures ViewsOk(r) ==> ViewsOk(Tried(r))
    ensures AllSeen(r) ==> AllSeen(Tried(r))
    ensures NothingNewMissing(Tried(r), t) ==> NothingNewMissing(r, t)
  {
    if NothingNewMissing(Tried(r), t) {
      forall k | Stays(r, t, k) ensures Missing(t, k) <= Missing(r, k) {
        assert Stays(Tried(r), t, k);
      }
    }
  }

  lemma JoinedViews(alloc: nat -> bool, r: RoomState, s: Session)
    requires Books(r) && ViewsOk(r) && Joins(alloc, r, s)
    ensures var t := Enter(alloc, r, s);
            && ViewsOk(t) && NothingNewMissing(r, t) && r.calls <= t.calls
            && (AllSeen(r) && AllOk(alloc, r.calls, t.calls) ==> AllSeen(t))
  {
    var id, tried := r.free[0], Tried(r);
    EnterIsJoin(alloc, r, s);
    TriedBooks(r, s);
    TriedViews(r, Join(alloc, tried, s, id));
    JoinViews(alloc, tried, s, id);
    JoinCalls(alloc, tried, s, id);
  }

  lemma EnterViews(alloc: nat -> bool, r: RoomState, s: Session)
    requires Books(r) && ViewsOk(r)
    ensures var t := Enter(alloc, r, s);
            && ViewsOk(t) && NothingNewMissing(r, t) && r.calls <= t.calls
            && (AllSeen(r) && AllOk(alloc, r.calls, t.calls) ==> AllSeen(t))
  {
    if Joins(alloc, r, s) {
      JoinedViews(alloc, r, s);
    } else {
      RefusedViews(alloc, r, s);
    }
  }

  lemma JoinCalls(alloc: nat -> bool, r: RoomState, s: Session, id: nat)
    ensures r.calls <= Join(alloc, r, s, id).calls
  {
    var a := Admit(r, s, id);
    SpawnsCover(alloc, a.calls, SpotsOf(a.users, OtherKeys(a.users, a.order, s)));
  }

  // ---- leaving

  /** What a leave does to a member that stays: if it could be told, it forgets the leaver. */
  lemma LeaveInbox(alloc: nat -> bool, r: RoomState, s: Session)
    requires s in r.connected && s.socket in r.users
    ensures Leave(alloc, r, s).inbox ==
              if alloc(r.calls) then ToOthers(r, s, LeaveNote(r.users[s.socket].seqID)) else r.inbox
  {
  }

  lemma LeaveOld(alloc: nat -> bool, r: RoomState, s: Session, k: int)
    requires Books(r) && s in r.connected && k in r.users && k != s.socket
    ensures var x, id, t := r.users[k].session, r.users[s.socket].seqID, Leave(alloc, r, s);
            ViewOf(t.inbox, x) == if alloc(r.calls) then ViewOf(r.inbox, x) - {id} else ViewOf(r.inbox, x)
  {
    BooksFiled(r);
    LeaveInbox(alloc, r, s);
    ToldView(r.inbox, r.users, r.order, s, LeaveNote(r.users[s.socket].seqID), k);
  }

  /** A member that stays while the one with the id goes; it hears of that or it does not. */
  ghost predicate Forgets(r: RoomState, t: RoomState, k: int, id: nat, told: bool) {
    && Stays(r, t, k)
    && ViewOf(t.inbox, t.users[k].session) == ViewOf(r.inbox, r.users[k].session) - (if told then {id} else {})
    && Others(t.users, k) == Others(r.users, k) - {id}
  }

  lemma LeaveForgets(alloc: nat -> bool, r: RoomState, s: Session, k: int)
    requires Books(r) && s in r.connected && k in r.users && k != s.socket
    ensures Forgets(r, Leave(alloc, r, s), k, r.users[s.socket].seqID, alloc(r.calls))
  {
    MemberIdsCut(r.users, s.socket);
    assert Leave(alloc, r, s).users == r.users - {s.socket};
    LeaveOld(alloc, r, s, k);
  }

  lemma ForgettingKeepsViews(r: RoomState, t: RoomState, id: nat, told: bool)
    requires ViewsOk(r) && t.withdrawn == (if told then r.withdrawn else r.withdrawn + {id})
    requires forall k | k in t.users :: Forgets(r, t, k, id, told)
    ensures ViewsOk(t) && NothingNewMissing(r, t)
    ensures AllSeen(r) && told ==> AllSeen(t)
  {
  }

  lemma LeaveViews(alloc: nat -> bool, r: RoomState, s: Session)
    requires Books(r) && ViewsOk(r)
    ensures var t := Leave(alloc, r, s);
            && ViewsOk(t) && NothingNewMissing(r, t) && r.calls <= t.calls
            && (AllSeen(r) && AllOk(alloc, r.calls, t.calls) ==> AllSeen(t))
  {
    if s in r.connected {
      var id, t := r.users[s.socket].seqID, Leave(alloc, r, s);
      assert t.users.Keys == r.users.Keys - {s.socket};
      forall k | k in t.users ensures Forgets(r, t, k, id, alloc(r.calls)) {
        LeaveForgets(alloc, r, s, k);
      }
      ForgettingKeepsViews(r, t, id, alloc(r.calls));
    }
  }

  // ---- everything else

  predicate Quiet(m: Msg) {
    m.MoveNote? || m.Chat?
  }

  lemma {:induction false} QuietDelivery(inbox: Inboxes, targets: seq<Session>, m: Msg, x: Session)
    requires Quiet(m)
    ensures ViewOf(Deliver(inbox, targets, m), x) == ViewOf(inbox, x)
  {
    if targets != [] {
      var n := |targets| - 1;
      QuietDelivery(inbox, targets[..n], m, x);
      PostView(Deliver(inbox, targets[..n], m), targets[n], m);
    }
  }

  lemma {:induction false} SendAllQuiet(alloc: nat -> bool, r: RoomState, batches: seq<seq<Spot>>, x: Session)
    ensures ViewOf(SendAll(alloc, r, batches).inbox, x) == ViewOf(r.inbox, x)
    ensures SendAll(alloc, r, batches).calls == r.calls + |batches|
  {
    if batches != [] {
      var n := |batches| - 1;
      var before := SendAll(alloc, r, batches[..n]);
      SendAllQuiet(alloc, r, batches[..n], x);
      QuietDelivery(before.inbox, SessionsOf(before.users, before.order), MoveNote(batches[n]), x);
    }
  }

  lemma BroadCastViews(alloc: nat -> bool, r: RoomState, s: Session, data: nat)
    requires ViewsOk(r)
    ensures var t := BroadCast(alloc, r, s, data);
            ViewsOk(t) && NothingNewMissing(r, t) && r.calls <= t.calls && (AllSeen(r) ==> AllSeen(t))
  {
    var t := BroadCast(alloc, r, s, data);
    forall k | k in r.users ensures ViewOf(t.inbox, r.users[k].session) == ViewOf(r.inbox, r.users[k].session) {
      QuietDelivery(r.inbox, SessionsOf(r.users, OtherKeys(r.users, r.order, s)), Chat(data), r.users[k].session);
    }
    QuietViews(r, t);
  }

  lemma TickViews(alloc: nat -> bool, r: RoomState, now: Clock)
    requires ViewsOk(r)
    ensures var t := TickRoom(alloc, r, now);
            ViewsOk(t) && NothingNewMissing(r, t) && r.calls <= t.calls && (AllSeen(r) ==> AllSeen(t))
  {
    var t := TickRoom(alloc, r, now);
    if Due(r.lastTick, now) {
      var moved, batches := r.(lastTick := now, users := MoveUsers(r.users, now)), MoveBatches(TickSpots(r.(lastTick := now), now));
      SendAllFrame(alloc, moved, batches);
      SendAllQuiet(alloc, moved, batches, Session(0, 0));
      forall k | k in r.users ensures ViewOf(t.inbox, r.users[k].session) == ViewOf(r.inbox, r.users[k].session) {
        SendAllQuiet(alloc, moved, batches, r.users[k].session);
      }
      QuietViews(r, t);
    }
  }

  lemma ApplyViews(alloc: nat -> bool, root: real -> real, r: RoomState, e: Event)
    requires Books(r) && ViewsOk(r)
    ensures var t := Apply(alloc, root, r, e);
            && ViewsOk(t) && NothingNewMissing(r, t) && r.calls <= t.calls
            && (AllSeen(r) && AllOk(alloc, r.calls, t.calls) ==> AllSeen(t))
  {
    match e
    case EnterJob(s) => EnterViews(alloc, r, s);
    case LeaveJob(s) => LeaveViews(alloc, r, s);
    case BroadcastJob(s, data) => BroadCastViews(alloc, r, s, data);
    case MoveJob(_, _, _, _) => QuietViews(r, Apply(alloc, root, r, e));
    case TickEvent(at) => TickViews(alloc, r, at);
  }

  lemma {:induction false} RunViews(alloc: nat -> bool, root: real -> real, r: RoomState, events: seq<Event>)
    requires Books(r) && ViewsOk(r)
    ensures var t := Run(alloc, root, r, events);
            && ViewsOk(t) && r.calls <= t.calls
            && (AllSeen(r) && AllOk(alloc, r.calls, t.calls) ==> AllSeen(t))
    decreases |events|
  {
    if events != [] {
      var next := Apply(alloc, root, r, events[0]);
      ApplyBooks(alloc, root, r, events[0]);
      ApplyViews(alloc, root, r, events[0]);
      RunViews(alloc, root, next, events[1..]);
    }
  }

  /** Main result on what clients see. After any run of the room, under any pattern of failed
      allocations, the ids a member holds are ids of other present members, or ids that were
      withdrawn and will never be given out again; if no allocation has failed, they are exactly
      the other members' ids. */
  lemma ClientViews(alloc: nat -> bool, root: real -> real, roomID: int, events: seq<Event>)
    ensures var r := Run(alloc, root, NewRoom(roomID), events);
            && (forall k | k in r.users :: ViewOf(r.inbox, r.users[k].session) <= Others(r.users, k) + r.withdrawn)
            && (AllOk(alloc, 0, r.calls) ==>
                  r.withdrawn == {} && forall k | k in r.users :: ViewOf(r.inbox, r.users[k].session) == Others(r.users, k))
  {
    NewRoomBooks(roomID);
    RunViews(alloc, root, NewRoom(roomID), events);
    var r := Run(alloc, root, NewRoom(roomID), events);
    if AllOk(alloc, 0, r.calls) {
      forall k | k in r.users ensures ViewOf(r.inbox, r.users[k].session) == Others(r.users, k) {
        assert Missing(r, k) == {};
      }
    }
  }

  /** The member stays through all the events. */
  ghost predicate StaysThrough(alloc: nat -> bool, root: real -> real, r: RoomState, events: seq<Event>, k: int)
    decreases |events|
  {
    k in r.users && (events != [] ==>
      var next := Apply(alloc, root, r, events[0]);
      Stays(r, next, k) && StaysThrough(alloc, root, next, events[1..], k))
  }

  /** A member that knows everybody keeps knowing everybody for as long as it stays, whatever
      allocations fail from then on: only its own entry can leave it with gaps, and gaps never
      widen. */
  lemma {:induction false} GapsNeverWiden(alloc: nat -> bool, root: real -> real, r: RoomState, events: seq<Event>, k: int)
    requires Books(r) && ViewsOk(r) && StaysThrough(alloc, root, r, events, k)
    ensures var t := Run(alloc, root, r, events);
            Stays(r, t, k) && Missing(t, k) <= Missing(r, k)
    decreases |events|
  {
    if events != [] {
      ApplyBooks(alloc, root, r, events[0]);
      ApplyViews(alloc, root, r, events[0]);
      GapsNeverWiden(alloc, root, Apply(alloc, root, r, events[0]), events[1..], k);
    }
  }

  lemma JoinedKnows(alloc: nat -> bool, r: RoomState, s: Session, id: nat)
    requires Books(Admit(r, s, id))
    ensures var t := Join(alloc, r, s, id);
            && s.socket in t.users && t.users[s.socket].session == s
            && (AllOk(alloc, r.calls, t.calls) ==> ViewOf(t.inbox, s) == Others(t.users, s.socket))
  {
    BooksFiled(Admit(r, s, id));
    JoinNew(alloc, r, s, id);
  }

  /** A member whose own batches were all allocated enters without gaps. */
  lemma EnterWithoutGaps(alloc: nat -> bool, r: RoomState, s: Session)
    requires Books(r) && ViewsOk(r) && s !in r.connected && s in Enter(alloc, r, s).connected
    ensures var t := Enter(alloc, r, s);
            && s.socket in t.users && t.users[s.socket].session == s
            && (AllOk(alloc, r.calls + 2, t.calls) ==> ViewOf(t.inbox, s) == Others(t.users, s.socket))
  {
    EnteredJoined(alloc, r, s);
    EnterIsJoin(alloc, r, s);
    TriedBooks(r, s);
    JoinedKnows(alloc, Tried(r), s, r.free[0]);
  }
}
