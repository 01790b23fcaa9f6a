/** Whole runs of the room protocol: one execution per proposal, within one lease, under a generation never reused. */
module CollaborationLease {
  import opened Characters
  import opened Outcomes
  import opened CollaborationRoom
  import opened CollaborationInvariant
  import opened CollaborationRuns

  /** Version 4 UUIDs, taken never to collide. */
  ghost predicate FreshIds(trace: seq<Moment>) {
    forall i, j :: 0 <= i < j < |trace| && trace[i].event.Request? && trace[j].event.Request? ==>
      trace[i].event.uuid != trace[j].event.uuid
  }

  ghost predicate ClockForward(trace: seq<Moment>) {
    forall i, j :: 0 <= i < j < |trace| && trace[i].event.Request? && trace[j].event.Request? ==>
      trace[i].event.now <= trace[j].event.now
  }

  // ---- Proposal ids within one room

  function Ids(proposals: seq<Proposal>): (ids: seq<Id>)
    ensures |ids| == |proposals| && forall i :: 0 <= i < |ids| ==> ids[i] == proposals[i].id
  {
    seq(|proposals|, i requires 0 <= i < |proposals| => proposals[i].id)
  }

  ghost predicate DistinctIds(proposals: seq<Proposal>) {
    forall i, j :: 0 <= i < j < |proposals| ==> proposals[i].id != proposals[j].id
  }

  lemma ActedIds(r: Room, actor: Actor, role: Role, c: Command, now: int, who: Identity, uuid: Id)
    requires !c.Create?
    ensures var e := Acted(r, actor, role, c, now, who, uuid);
      e.Updated? || e.Departed? ==>
        var ids := Ids(e.room.proposals);
        ids == [] || ids == Ids(r.proposals) || (c.Propose? && ids == Ids(r.proposals) + [uuid])
  {
  }

  lemma StepIds(m: Moment, room: Id)
    requires TableOk(m.before) && Faithful(m) && room in m.after
    ensures var ids := Ids(m.after[room].proposals);
      ids == [] || (room in m.before && (ids == Ids(m.before[room].proposals)
        || (m.event.Request? && ids == Ids(m.before[room].proposals) + [m.event.uuid])))
  {
    if m.event.Request? {
      var e := m.event;
      if Accepted(m) && !e.command.Create? && e.command.room == room {
        AcceptedOnRoom(m);
        ActedIds(Settled(m.before[room], e.who, e.now), e.actor, e.role, e.command, e.now, e.who, e.uuid);
      } else {
        OtherRoomsUntouched(m, room);
      }
    }
  }

  lemma {:induction false} RunKeepsDistinctIds(trace: seq<Moment>, n: nat, room: Id)
    requires Run(trace) && FreshIds(trace) && n < |trace| && room in trace[n].after
    ensures DistinctIds(trace[n].after[room].proposals)
  {
    RunKeepsTable(trace, n);
    StepIds(trace[n], room);
    var after := trace[n].after[room].proposals;
    if n > 0 && after != [] {
      RunKeepsDistinctIds(trace, n - 1, room);
      var before := trace[n].before[room].proposals;
      forall i, j | 0 <= i < j < |after|
        ensures after[i].id != after[j].id
      {
        assert after[i].id == Ids(after)[i] == Ids(before)[i] && after[j].id == Ids(after)[j];
        if j < |before| {
          assert after[j].id == Ids(before)[j];
        } else {
          var made := StoredProposalIsBacked(trace, n - 1, room, before[i]);
          assert trace[made].event.uuid == before[i].id;
        }
      }
    }
  }

  // ---- One execution per proposal

  lemma ExecutedOnceProposed(trace: seq<Moment>, k: nat, room: Id, p: Proposal) returns (made: nat)
    requires Run(trace) && k < |trace| && Executes(trace[k], room, p)
    ensures made < k && trace[made].event.Request? && trace[made].event.uuid == p.id
    ensures trace[made].event.command.Propose? && trace[made].event.command.room == room
  {
    var i, _, _ := VoteSafety(trace, k, room, p);
    made := i;
  }

  lemma ConsumedInPlace(m: Moment, room: Id, p: Proposal, p': Proposal)
    requires TableOk(m.before) && Faithful(m) && Executes(m, room, p)
    requires room in m.before && DistinctIds(m.before[room].proposals)
    requires room in m.after && p' in m.after[room].proposals && p'.id == p.id
    ensures p' == p
  {
    var r := Settled(m.before[room], m.event.who, m.event.now);
    var q := ExecutionChecks(m, room, p);
    var at := FindRequest(r.proposals, p.id, p.digest);
    var j :| 0 <= j < |m.after[room].proposals| && m.after[room].proposals[j] == p';
    assert r == m.before[room];
    assert m.after[room].proposals == r.proposals[at := p];
  }

  /** An execution leaves no unconsumed proposal with its id in the room. */
  lemma ExecutionConsumes(trace: seq<Moment>, n: nat, room: Id, p: Proposal, p': Proposal)
    requires Run(trace) && FreshIds(trace) && n < |trace| && Executes(trace[n], room, p)
    requires room in trace[n].after && p' in trace[n].after[room].proposals && p'.id == p.id
    ensures p'.consumed
  {
    RunKeepsTable(trace, n);
    var q := ExecutionChecks(trace[n], room, p);
    RunKeepsDistinctIds(trace, n - 1, room);
    ConsumedInPlace(trace[n], room, p, p');
  }

  /** A stored proposal with the id of one executed earlier is that one, and it is consumed. */
  lemma {:induction false} StaysConsumed(trace: seq<Moment>, k: nat, n: nat, room: Id, done: Proposal, other: Id,
      p': Proposal)
    requires Run(trace) && FreshIds(trace) && k <= n < |trace| && Executes(trace[k], room, done)
    requires other in trace[n].after && p' in trace[n].after[other].proposals && p'.id == done.id
    ensures p'.consumed
    decreases n
  {
    var born := ExecutedOnceProposed(trace, k, room, done);
    var made := StoredProposalIsBacked(trace, n, other, p');
    assert made == born && other == room;
    if k == n {
      ExecutionConsumes(trace, n, room, done, p');
    } else {
      RunKeepsTable(trace, n);
      var p := StepOrigin(trace[n], room, p');
      StaysConsumed(trace, k, n - 1, room, done, room, p);
    }
  }

  /** Over a whole run, each proposal id is executed at most once. */
  lemma AtMostOnce(trace: seq<Moment>, k: nat, n: nat, room: Id, p: Proposal, other: Id, q: Proposal)
    requires Run(trace) && FreshIds(trace) && k < n < |trace|
    requires Executes(trace[k], room, p) && Executes(trace[n], other, q)
    ensures p.id != q.id
  {
    RunKeepsTable(trace, n);
    var stored := ExecutionChecks(trace[n], other, q);
    if p.id == q.id {
      StaysConsumed(trace, k, n - 1, room, p, other, stored);
    }
  }

  // ---- One lease

  ghost predicate Grants(m: Moment, room: Id, l: Lease) {
    Accepted(m) && m.event.command == CollaborationRoom.Grant(room, l.actor) && l.expires == m.event.now + LEASE_SECONDS
  }

  lemma StepLease(m: Moment, room: Id)
    requires TableOk(m.before) && Faithful(m) && room in m.after && m.after[room].lease.Some?
    ensures (room in m.before && m.before[room].lease == m.after[room].lease)
      || Grants(m, room, m.after[room].lease.value)
  {
    if m.event.Request? && (!Accepted(m) || m.event.command.Create? || m.event.command.room != room) {
      OtherRoomsUntouched(m, room);
    } else if m.event.Request? {
      ActedLease(Settled(m.before[room], m.event.who, m.event.now), m.event.actor, m.event.role, m.event.command,
        m.event.now,
                 m.event.who, m.event.uuid);
    }
  }

  lemma ActedLease(r: Room, actor: Actor, role: Role, c: Command, now: int, who: Identity, uuid: Id)
    requires !c.Create?
    ensures var e := Acted(r, actor, role, c, now, who, uuid);
      (e.Updated? || e.Departed?) && e.room.lease.Some? ==>
        e.room.lease == r.lease || (c.Grant? && e.room.lease.value.actor == c.actor
          && e.room.lease.value.expires == now + LEASE_SECONDS)
  {
  }

  lemma {:induction false} LeaseWasGranted(trace: seq<Moment>, n: nat, room: Id) returns (g: nat)
    requires Run(trace) && n < |trace| && room in trace[n].after && trace[n].after[room].lease.Some?
    ensures g <= n && Grants(trace[g], room, trace[n].after[room].lease.value)
  {
    RunKeepsTable(trace, n);
    StepLease(trace[n], room);
    if Grants(trace[n], room, trace[n].after[room].lease.value) {
      g := n;
    } else {
      g := LeaseWasGranted(trace, n - 1, room);
    }
  }

  /**
   * A proposal and its execution fall in the twenty seconds of one lease: the grant of the lease in force at the
   * execution comes before the proposal, and nothing disturbed the room in between.
   */
  lemma ExecutedWithinOneLease(trace: seq<Moment>, n: nat, room: Id, p: Proposal) returns (g: nat, i: nat)
    requires Run(trace) && ClockForward(trace) && n < |trace| && Executes(trace[n], room, p)
    ensures g < i < n && room in trace[n].before && trace[n].before[room].lease.Some?
    ensures Grants(trace[g], room, trace[n].before[room].lease.value)
    ensures Proposes(trace[i], room, p) && Undisturbed(trace, i, n, room, p.frameHash)
    ensures trace[g].event.now <= trace[i].event.now <= trace[n].event.now < trace[g].event.now + LEASE_SECONDS
  {
    RunKeepsTable(trace, n);
    var q := ExecutionChecks(trace[n], room, p);
    i := StoredProposalIsBacked(trace, n - 1, room, q);
    g := LeaseWasGranted(trace, n - 1, room);
    if g > i {
      assert Disturbs(trace[g], room, p.frameHash);
    }
  }

  // ---- Generations

  ghost predicate Creates(m: Moment, room: Id) {
    Accepted(m) && m.event.command.Create? && m.event.uuid == room
  }

  lemma StepGeneration(m: Moment, room: Id)
    requires Faithful(m) && room in m.after
    ensures (room in m.before && m.before[room].generation <= m.after[room].generation) || Creates(m, room)
  {
    if m.event.Request? {
      var e := m.event;
      if !Accepted(m) || e.command.Create? || e.command.room != room {
        OtherRoomsUntouched(m, room);
      }
    }
  }

  lemma {:induction false} RoomWasCreated(trace: seq<Moment>, n: nat, room: Id) returns (c: nat)
    requires Run(trace) && n < |trace| && room in trace[n].after
    ensures c <= n && Creates(trace[c], room)
  {
    StepGeneration(trace[n], room);
    if Creates(trace[n], room) {
      c := n;
    } else {
      c := RoomWasCreated(trace, n - 1, room);
    }
  }

  lemma {:induction false} GenerationsRise(trace: seq<Moment>, k: nat, n: nat, room: Id)
    requires Run(trace) && FreshIds(trace) && k <= n < |trace| && room in trace[k].after && room in trace[n].after
    ensures trace[k].after[room].generation <= trace[n].after[room].generation
    decreases n
  {
    if k < n {
      StepGeneration(trace[n], room);
      if Creates(trace[n], room) {
        var c := RoomWasCreated(trace, k, room);
        assert false;
      }
      GenerationsRise(trace, k, n - 1, room);
    }
  }

  /** A generation a room has left behind is never accepted by Propose again. */
  lemma SupersededNeverProposes(trace: seq<Moment>, k: nat, n: nat, room: Id, p: Proposal)
    requires Run(trace) && FreshIds(trace) && k < n < |trace|
    requires room in trace[k].after && p.generation < trace[k].after[room].generation
    ensures !Proposes(trace[n], room, p)
  {
    RunKeepsTable(trace, n);
    if Proposes(trace[n], room, p) {
      GenerationsRise(trace, k, n - 1, room);
    }
  }

  // ---- Who can use a granted lease

  /**
   * Grant asks whether the new holder may operate, but every later command asks for a live token of theirs. So a
   * fresh lease lets its holder propose exactly when they hold a token: an operator known only to the external
   * identity provider is granted leases they can never use.
   */
  lemma GrantedLeaseUsable(rooms: map<Id, Room>, owner: Actor, role: Role, room: Id, target: Actor, t: int,
      who: Identity, uuid: Id,
                           role': Role, c: Command, now: int, who': Identity, uuid': Id)
    requires TableOk(rooms) && Applied(rooms, owner, role, Command.Grant(room, target), t, who, uuid).reply.Ok?
    requires var granted := Applied(rooms, owner, role, Command.Grant(room, target), t, who, uuid).rooms[room];
      && c.Propose? && c.room == room && c.generation == granted.generation && ShowsHash(granted, c.frameHash)
      && c.x <= MAX_COORDINATE && c.y <= MAX_COORDINATE
    requires role' != Viewer && t <= now < t + LEASE_SECONDS
    ensures var after := Applied(rooms, owner, role, Command.Grant(room, target), t, who, uuid).rooms;
      Applied(after, target, role', c, now, who', uuid').reply.Ok? <==> target in who'.tokenHolders
  {
    var live := Live(rooms, t);
    var granted := GrantedRoom(live, owner, role, room, target, t, who, uuid);
    FreshLease(live[room := granted], room, target, role', c, now, who', uuid');
  }

  lemma GrantedRoom(live: map<Id, Room>, owner: Actor, role: Role, room: Id, target: Actor, t: int, who: Identity,
      uuid: Id)
    returns (granted: Room)
    requires AppliedToRoom(live, owner, role, Command.Grant(room, target), t, who, uuid).reply.Ok?
    ensures AppliedToRoom(live, owner, role, Command.Grant(room, target), t, who, uuid).rooms == live[room := granted]
    ensures granted.lease == Some(Lease(target, granted.generation, t + LEASE_SECONDS)) && granted.proposals == []
    ensures target in granted.members && granted.expires == t + ROOM_SECONDS
  {
    granted := Granted(Settled(live[room], who, t), target, t).(expires := t + ROOM_SECONDS);
  }

  lemma FreshLease(rooms: map<Id, Room>, room: Id, target: Actor, role: Role, c: Command, now: int, who: Identity,
      uuid: Id)
    requires room in rooms && rooms[room].expires > now && target in rooms[room].members && rooms[room].proposals == []
    requires c.Propose? && c.room == room && role != Viewer && HoldsLease(rooms[room], target, c.generation, now)
    requires ShowsHash(rooms[room], c.frameHash) && c.x <= MAX_COORDINATE && c.y <= MAX_COORDINATE
    ensures Applied(rooms, target, role, c, now, who, uuid).reply.Ok? <==> target in who.tokenHolders
  {
  }
  // ---- A lease nobody can use

  const HOST: Actor := "host"
  const GUEST: Actor := "oidc:x"

  /** The guest may operate, as the external identity provider says, and holds no token here. */
  const WHO := Identity({GUEST}, {})

  const PICTURE := Frame(1, 1, [0, 0, 0], 5)
  const OPENED := Room(7, HOST, 1, [GUEST], ROOM_SECONDS, 0, None, None, [], [])
  const SHOWN := OPENED.(frame := Some(PICTURE))
  const LEASED := SHOWN.(generation := 1, lease := Some(Lease(GUEST, 1, LEASE_SECONDS)))
  const WISH := Command.Propose(None, 7, 1, 5, 0, 0)

  function Only(r: Room): map<Id, Room> { map[7 := r] }

  lemma OnlyLive(r: Room)
    requires r.id == 7 && r.expires > 0
    ensures Live(Only(r), 0) == Only(r)
  {
  }

  function Opening(): Moment {
    Moment(map[], Request(HOST, Operator, Create(1, [GUEST]), 0, WHO, 7), Only(OPENED), Ok(Reply(Some(OPENED), None)))
  }

  function Showing(): Moment {
    Moment(Only(OPENED), Request(HOST, Operator, Publish(7, PICTURE), 0, WHO, 8), Only(SHOWN),
      Ok(Reply(Some(SHOWN), None)))
  }

  function Granting(): Moment {
    Moment(Only(SHOWN), Request(HOST, Operator, Grant(7, GUEST), 0, WHO, 9), Only(LEASED),
      Ok(Reply(Some(LEASED), None)))
  }

  function Refusing(): Moment {
    Moment(Only(LEASED), Request(GUEST, Operator, WISH, 0, WHO, 10), Only(LEASED), Err(LeaseRequired))
  }

  lemma Opens()
    ensures Faithful(Opening())
  {
    assert Live(map[], 0) == map[];
    assert GUEST[0] == 'o' && !Blank(GUEST);
    assert Printable(GUEST, 100);
    assert map[][7 := OPENED] == Only(OPENED);
  }

  lemma Shows()
    ensures Faithful(Showing())
  {
    OnlyLive(OPENED);
    assert Only(OPENED)[7 := SHOWN] == Only(SHOWN);
  }

  lemma Leases()
    ensures Faithful(Granting())
  {
    OnlyLive(SHOWN);
    assert Only(SHOWN)[7 := LEASED] == Only(LEASED);
  }

  lemma RefusesWish()
    ensures Faithful(Refusing())
  {
    OnlyLive(LEASED);
  }

  lemma FourInARow(a: Moment, b: Moment, c: Moment, d: Moment)
    requires Faithful(a) && Faithful(b) && Faithful(c) && Faithful(d)
    requires a.before == map[] && b.before == a.after && c.before == b.after && d.before == c.after
    ensures Run([a, b, c, d])
  {
  }

  /**
   * A run from the empty table: an operator known only to the external identity provider is granted the lease, and
   * their proposal under it, in the same second and on the frame shown, is refused for want of a lease.
   */
  lemma GrantedToNoUse() returns (trace: seq<Moment>)
    ensures Run(trace) && |trace| == 4 && trace[2] == Granting() && trace[3] == Refusing()
    ensures GUEST in WHO.operators && Accepted(trace[2]) && trace[3].reply == Err(LeaseRequired)
    ensures var granted := trace[2].after[7];
      granted.lease == Some(Lease(GUEST, WISH.generation, LEASE_SECONDS)) && ShowsHash(granted, WISH.frameHash)
  {
    Opens();
    Shows();
    Leases();
    RefusesWish();
    FourInARow(Opening(), Showing(), Granting(), Refusing());
    trace := [Opening(), Showing(), Granting(), Refusing()];
  }
}
