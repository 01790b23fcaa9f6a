/** What every command and every token revocation keeps true of every room. */
module CollaborationInvariant {
  import opened Outcomes
  import opened CollaborationRoom

  ghost predicate Distinct(actors: seq<Actor>) {
    forall i, j :: 0 <= i < j < |actors| ==> actors[i] != actors[j]
  }

  /**
   * A stored proposal lives under the current lease and the current frame, and only members or the owner voted for it.
   */
  ghost predicate ProposalOk(r: Room, p: Proposal) {
    && r.lease.Some? && p.generation == r.generation && p.session == r.session
    && ShowsHash(r, p.frameHash)
    && p.digest == Digest(r.id, p.id, p.session, p.generation, p.frameHash, p.x, p.y, p.key)
    && p.x <= MAX_COORDINATE && p.y <= MAX_COORDINATE
    && Distinct(p.approvals)
    && forall a :: a in p.approvals ==> MayVote(r, a)
  }

  ghost predicate LeaseOk(r: Room) {
    r.lease.Some? ==> r.lease.value.generation == r.generation && r.lease.value.actor in r.members
  }

  ghost predicate RoomOk(r: Room) {
    && LeaseOk(r)
    && (forall p :: p in r.proposals ==> ProposalOk(r, p))
    && (r.frame.Some? ==> ValidFrame(r.frame.value))
    && |r.members| <= MAX_MEMBERS && |r.annotations| <= MAX_ANNOTATIONS && |r.proposals| <= MAX_PROPOSALS
  }

  ghost predicate TableOk(rooms: map<Id, Room>) {
    |rooms| <= MAX_ROOMS && forall id :: id in rooms ==> rooms[id].id == id && RoomOk(rooms[id])
  }

  // ---- Votes

  lemma {:induction false} WithoutKeepsDistinct(actors: seq<Actor>, gone: Actor)
    requires Distinct(actors)
    ensures Distinct(Without(actors, gone))
  {
    if actors != [] {
      var rest := Without(actors[1..], gone);
      WithoutKeepsDistinct(actors[1..], gone);
      assert forall a :: a in rest ==> a in actors[1..];
      assert actors[0] !in rest;
    }
  }

  lemma WithdrawnIsFrom(proposals: seq<Proposal>, gone: Actor, p': Proposal) returns (p: Proposal)
    requires p' in WithdrawnAll(proposals, gone)
    ensures p in proposals && p' == Withdrawn(p, gone)
  {
    var i :| 0 <= i < |proposals| && WithdrawnAll(proposals, gone)[i] == p';
    p := proposals[i];
  }

  // ---- One room

  lemma SettledOk(r: Room, who: Identity, now: int)
    requires RoomOk(r)
    ensures RoomOk(Settled(r, who, now))
  {
  }

  lemma WithoutMemberOk(r: Room, gone: Actor)
    requires RoomOk(r) && r.owner != gone
    ensures RoomOk(WithoutMember(r, gone))
  {
    var r' := WithoutMember(r, gone);
    forall p' | p' in r'.proposals
      ensures ProposalOk(r', p')
    {
      var p := WithdrawnIsFrom(r.proposals, gone, p');
      WithoutKeepsDistinct(p.approvals, gone);
    }
  }

  lemma WithoutIdentityOk(r: Room, gone: Actor)
    requires RoomOk(r)
    ensures RoomOk(WithoutIdentity(r, gone))
  {
    var r' := WithoutIdentity(r, gone);
    forall p' | p' in r'.proposals
      ensures ProposalOk(r', p')
    {
      var kept := if r.lease.Some? && r.lease.value.actor == gone then LeaseLost(r) else r;
      var p := WithdrawnIsFrom(kept.proposals, gone, p');
      WithoutKeepsDistinct(p.approvals, gone);
    }
  }

  lemma ProposeOk(r: Room, actor: Actor, role: Role, c: Command, now: int, uuid: Id)
    requires RoomOk(r) && c.Propose?
    ensures var e := ProposeEffect(r, actor, role, c, now, uuid); e.Updated? ==> RoomOk(e.room)
  {
  }

  lemma ApproveOk(r: Room, actor: Actor, id: Id, digest: Digest)
    requires RoomOk(r) && MayVote(r, actor)
    ensures var e := ApproveEffect(r, actor, id, digest); e.Updated? ==> RoomOk(e.room)
  {
    var e := ApproveEffect(r, actor, id, digest);
    if e.Updated? {
      forall p | p in e.room.proposals
        ensures ProposalOk(e.room, p)
      {
        var i := FindRequest(r.proposals, id, digest);
        assert p in r.proposals || p == e.room.proposals[i];
        assert ProposalOk(r, r.proposals[i]);
      }
    }
  }

  lemma ConsumeOk(r: Room, id: Id, digest: Digest, who: Identity, now: int)
    requires RoomOk(r)
    ensures var e := ConsumeEffect(r, id, digest, who, now); e.Updated? ==> RoomOk(e.room)
    ensures ConsumeEffect(r, id, digest, who, now) != Rejected(ApproverLeftRoom)
  {
    var e := ConsumeEffect(r, id, digest, who, now);
    var i := FindRequest(r.proposals, id, digest);
    if i < |r.proposals| {
      assert ProposalOk(r, r.proposals[i]);
      if e.Updated? {
        forall p | p in e.room.proposals
          ensures ProposalOk(e.room, p)
        {
          assert p in r.proposals || p == e.room.proposals[i];
        }
      }
    }
  }

  /** A member's or the owner's command leaves a sound room sound, and never finds a voter who has left. */
  lemma ActedOk(r: Room, actor: Actor, role: Role, c: Command, now: int, who: Identity, uuid: Id)
    requires !c.Create? && RoomOk(r) && MayVote(r, actor)
    ensures var e := Acted(r, actor, role, c, now, who, uuid);
      (e.Updated? || e.Departed? ==> RoomOk(e.room) && e.room.id == r.id) && e != Rejected(ApproverLeftRoom)
  {
    match c
    case Leave(_) => if r.owner != actor { WithoutMemberOk(r, actor); }
    case Propose(_, _, _, _, _, _) => ProposeOk(r, actor, role, c, now, uuid);
    case Approve(_, id, digest) => ApproveOk(r, actor, id, digest);
    case Consume(_, id, digest) => ConsumeOk(r, id, digest, who, now);
    case _ =>
  }

  // ---- The table

  lemma LiveOk(rooms: map<Id, Room>, now: int)
    requires TableOk(rooms)
    ensures TableOk(Live(rooms, now))
  {
    SubsetIsSmaller(Live(rooms, now).Keys, rooms.Keys);
  }

  lemma {:induction false} SubsetIsSmaller(a: set<Id>, b: set<Id>)
    requires a <= b
    ensures |a| <= |b|
  {
    if x :| x in a {
      SubsetIsSmaller(a - {x}, b - {x});
    }
  }

  lemma SavedOk(rooms: map<Id, Room>, id: Id, owner: bool, now: int, effect: Effect)
    requires TableOk(rooms) && id in rooms
    requires effect.Updated? || effect.Departed? ==> RoomOk(effect.room) && effect.room.id == id
    ensures TableOk(Saved(rooms, id, owner, now, effect).rooms)
  {
    var rooms' := Saved(rooms, id, owner, now, effect).rooms;
    SubsetIsSmaller(rooms'.Keys, rooms.Keys);
    if effect.Updated? {
      assert RoomOk(rooms'[id]) by {
        forall p | p in rooms'[id].proposals
          ensures ProposalOk(rooms'[id], p)
        {
          assert ProposalOk(effect.room, p);
        }
      }
    }
  }

  lemma AddedRoomOk(rooms: map<Id, Room>, r: Room)
    requires TableOk(rooms) && |rooms| < MAX_ROOMS && RoomOk(r)
    ensures TableOk(rooms[r.id := r])
  {
    var rooms' := rooms[r.id := r];
    assert rooms'.Keys == rooms.Keys + {r.id};
    assert |rooms'.Keys| <= |rooms.Keys| + 1;
  }

  lemma CreatedOk(rooms: map<Id, Room>, actor: Actor, c: Command, now: int, uuid: Id)
    requires TableOk(rooms) && c.Create?
    ensures TableOk(Created(rooms, actor, c, now, uuid).rooms)
  {
    if |rooms| < MAX_ROOMS && |c.members| <= MAX_MEMBERS {
      AddedRoomOk(rooms, Room(uuid, actor, c.session, c.members, now + ROOM_SECONDS, 0, None, None, [], []));
    }
  }

  lemma EffectOf(live: map<Id, Room>, actor: Actor, role: Role, c: Command, now: int, who: Identity, uuid: Id)
    returns (effect: Effect)
    requires !c.Create? && c.room in live && RoomOk(live[c.room]) && MayVote(live[c.room], actor)
    ensures AppliedToRoom(live, actor, role, c, now, who, uuid) ==
      Saved(live, c.room, live[c.room].owner == actor, now, effect)
    ensures effect.Updated? || effect.Departed? ==> RoomOk(effect.room) && effect.room.id == live[c.room].id
    ensures effect != Rejected(ApproverLeftRoom)
  {
    var r := Settled(live[c.room], who, now);
    SettledOk(live[c.room], who, now);
    ActedOk(r, actor, role, c, now, who, uuid);
    effect := Acted(r, actor, role, c, now, who, uuid);
  }

  lemma RoomCommandOk(live: map<Id, Room>, actor: Actor, role: Role, c: Command, now: int, who: Identity, uuid: Id)
    requires TableOk(live) && !c.Create?
    ensures TableOk(AppliedToRoom(live, actor, role, c, now, who, uuid).rooms)
    ensures AppliedToRoom(live, actor, role, c, now, who, uuid).reply != Err(ApproverLeftRoom)
  {
    if c.room in live && MayVote(live[c.room], actor) {
      var effect := EffectOf(live, actor, role, c, now, who, uuid);
      SavedOk(live, c.room, live[c.room].owner == actor, now, effect);
    }
  }

  /** Every command keeps the invariant, and the branch for a voter who left the room is never taken. */
  lemma CommandKeepsTable(rooms: map<Id, Room>, actor: Actor, role: Role, c: Command, now: int, who: Identity, uuid: Id)
    requires TableOk(rooms)
    ensures TableOk(Applied(rooms, actor, role, c, now, who, uuid).rooms)
    ensures Applied(rooms, actor, role, c, now, who, uuid).reply != Err(ApproverLeftRoom)
  {
    LiveOk(rooms, now);
    if c.Create? {
      CreatedOk(Live(rooms, now), actor, c, now, uuid);
    } else {
      RoomCommandOk(Live(rooms, now), actor, role, c, now, who, uuid);
    }
  }

  /** A rejected command leaves every unexpired room exactly as it was, and adds none. */
  lemma RejectionChangesNothing(rooms: map<Id, Room>, actor: Actor, role: Role, c: Command, now: int, who: Identity,
      uuid: Id)
    requires Applied(rooms, actor, role, c, now, who, uuid).reply.Err?
    ensures var rooms' := Applied(rooms, actor, role, c, now, who, uuid).rooms;
      (forall id :: id in rooms && rooms[id].expires > now ==> id in rooms')
      && forall id :: id in rooms' ==> id in rooms && rooms'[id] == rooms[id]
  {
    if !c.Create? && !(role.Viewer? && !ViewerMay(c)) {
      RoomRejectionChangesNothing(Live(rooms, now), actor, role, c, now, who, uuid);
    }
  }

  lemma RoomRejectionChangesNothing(live: map<Id, Room>, actor: Actor, role: Role, c: Command, now: int, who: Identity,
      uuid: Id)
    requires !c.Create? && AppliedToRoom(live, actor, role, c, now, who, uuid).reply.Err?
    ensures AppliedToRoom(live, actor, role, c, now, who, uuid).rooms == live
  {
  }

  lemma RevocationKeepsTable(rooms: map<Id, Room>, actor: Actor)
    requires TableOk(rooms)
    ensures TableOk(Invalidated(rooms, actor))
  {
    SubsetIsSmaller(Invalidated(rooms, actor).Keys, rooms.Keys);
    forall id | id in rooms
      ensures RoomOk(WithoutIdentity(rooms[id], actor))
    {
      WithoutIdentityOk(rooms[id], actor);
    }
  }
}
