/** The table of live rooms as the server updates it in place, step by step. */
module CollaborationTable {
  import opened Outcomes
  import opened CollaborationRoom

  class LiveRooms {
    var rooms: map<Id, Room>

    constructor ()
      ensures rooms == map[]
    {
      rooms := map[];
    }

    method Apply(actor: Actor, role: Role, command: Command, now: int, who: Identity, uuid: Id)
      returns (reply: Result<Reply, Rejection>)
      modifies this
      ensures Step(rooms, reply) == Applied(old(rooms), actor, role, command, now, who, uuid)
    {
      if role.Viewer? && !ViewerMay(command) {
        return Err(OperatorRequired);
      }
      rooms := map id | id in rooms && rooms[id].expires > now :: rooms[id];
      if command.Create? {
        reply := CreateRoom(actor, command, now, uuid);
      } else {
        reply := ApplyToRoom(actor, role, command, now, who, uuid);
      }
    }

    method ApplyToRoom(actor: Actor, role: Role, command: Command, now: int, who: Identity, uuid: Id)
      returns (reply: Result<Reply, Rejection>)
      requires !command.Create?
      modifies this
      ensures Step(rooms, reply) == AppliedToRoom(old(rooms), actor, role, command, now, who, uuid)
    {
      var id := command.room;
      if id !in rooms {
        return Err(RoomUnavailable);
      }
      var r := rooms[id];
      var owner := r.owner == actor;
      if !owner && actor !in r.members {
        return Err(MembershipRequired);
      }
      r := DropLostLease(r, who, now);
      var effect := Act(r, actor, role, command, now, who, uuid);
      reply := Save(id, owner, now, effect);
    }

    method Save(id: Id, owner: bool, now: int, effect: Effect) returns (reply: Result<Reply, Rejection>)
      modifies this
      ensures Step(rooms, reply) == Saved(old(rooms), id, owner, now, effect)
    {
      match effect {
        case Rejected(why) =>
          return Err(why);
        case Removed =>
          rooms := rooms - {id};
          return Ok(Reply(None, None));
        case Departed(left) =>
          rooms := rooms[id := left];
          return Ok(Reply(None, None));
        case Updated(kept, execute) =>
          var r := kept;
          if owner {
            r := r.(expires := now + ROOM_SECONDS);
          }
          rooms := rooms[id := r];
          return Ok(Reply(Some(r), execute));
      }
    }

    method CreateRoom(actor: Actor, command: Command, now: int, uuid: Id) returns (reply: Result<Reply, Rejection>)
      requires command.Create?
      modifies this
      ensures Step(rooms, reply) == Created(old(rooms), actor, command, now, uuid)
    {
      if |command.members| > MAX_MEMBERS || exists m :: m in command.members && !Printable(m, 100) {
        return Err(InvalidMembership);
      }
      if |rooms| >= MAX_ROOMS {
        return Err(RoomLimit);
      }
      var room := Room(uuid, actor, command.session, command.members, now + ROOM_SECONDS, 0, None, None, [], []);
      rooms := rooms[uuid := room];
      return Ok(Reply(Some(room), None));
    }

    /** Any token revocation invalidates that actor's grants and votes in every room. */
    method InvalidateActor(actor: Actor)
      modifies this
      ensures rooms == Invalidated(old(rooms), actor)
    {
      ghost var before := rooms;
      var pending := rooms.Keys;
      while pending != {}
        invariant pending <= before.Keys && rooms.Keys <= before.Keys
        invariant forall id :: id in pending ==> id in rooms && rooms[id] == before[id]
        invariant forall id :: id in before.Keys - pending ==>
          (id in rooms <==> before[id].owner != actor)
          && (id in rooms ==> rooms[id] == WithoutIdentity(before[id], actor))
        decreases pending
      {
        var id :| id in pending;
        var room := rooms[id];
        pending := pending - {id};
        if room.owner == actor {
          rooms := rooms - {id};
          continue;
        }
        if room.lease.Some? && room.lease.value.actor == actor {
          room := room.(generation := room.generation + 1);
          room := room.(lease := None);
          room := room.(proposals := []);
        }
        room := room.(proposals := WithdrawnAll(room.proposals, actor));
        rooms := rooms[id := room];
      }
    }
  }

  method DropLostLease(room: Room, who: Identity, now: int) returns (r: Room)
    ensures r == Settled(room, who, now)
  {
    r := room;
    var controllerRevoked := r.lease.Some? && r.lease.value.actor !in who.tokenHolders;
    if controllerRevoked || (r.lease.Some? && r.lease.value.expires <= now) {
      r := r.(generation := r.generation + 1);
      r := r.(lease := None);
      r := r.(proposals := []);
    }
  }

  /** Runs one command on the loaded room, changing the local copy step by step. */
  method Act(room: Room, actor: Actor, role: Role, command: Command, now: int, who: Identity, uuid: Id)
    returns (effect: Effect)
    requires !command.Create?
    ensures effect == Acted(room, actor, role, command, now, who, uuid)
  {
    var r := room;
    var owner := r.owner == actor;
    match command {
      case Poll(_) =>
      case Close(_) =>
        return if owner then Removed else Rejected(OwnerRequired);
      case Leave(_) =>
        if owner {
          return Removed;
        }
        r := r.(members := Without(r.members, actor));
        r := r.(proposals := WithdrawnAll(r.proposals, actor));
        if r.lease.Some? && r.lease.value.actor == actor {
          r := r.(generation := r.generation + 1);
          r := r.(lease := None);
          r := r.(proposals := []);
        }
        return Departed(r);
      case Publish(_, frame) =>
        if !owner {
          return Rejected(OwnerRequired);
        }
        if frame.width == 0 || frame.height == 0 || frame.width > 640 || frame.height > 360
           || |frame.rgb| != frame.width * frame.height * 3 {
          return Rejected(InvalidFrame);
        }
        if r.frame.Some? && r.frame.value.sourceHash != frame.sourceHash {
          r := r.(proposals := []);
          r := r.(annotations := []);
        }
        r := r.(frame := Some(frame));
      case Annotate(_, x, y, text) =>
        if x > MAX_COORDINATE || y > MAX_COORDINATE || !Printable(text, 200) {
          return Rejected(InvalidAnnotation);
        }
        if |r.annotations| >= MAX_ANNOTATIONS {
          r := r.(annotations := r.annotations[1..]);
        }
        r := r.(annotations := r.annotations + [Annotation(actor, x, y, text)]);
      case Grant(_, target) =>
        if !owner {
          return Rejected(OwnerRequired);
        }
        if target !in r.members {
          return Rejected(MembershipRequired);
        }
        if target !in who.operators {
          return Rejected(OperatorRequired);
        }
        r := r.(generation := r.generation + 1);
        r := r.(proposals := []);
        r := r.(lease := Some(Lease(target, r.generation, now + LEASE_SECONDS)));
      case Revoke(_) =>
        if !owner {
          return Rejected(OwnerRequired);
        }
        r := r.(generation := r.generation + 1);
        r := r.(lease := None);
        r := r.(proposals := []);
      case Propose(_, _, generation, frameHash, x, y) =>
        if role.Viewer? || !HoldsLease(r, actor, generation, now) {
          return Rejected(LeaseRequired);
        }
        if x > MAX_COORDINATE || y > MAX_COORDINATE || !ShowsHash(r, frameHash) || |r.proposals| >= MAX_PROPOSALS {
          return Rejected(StaleTarget);
        }
        r := r.(proposals := r.proposals + [NewProposal(r, uuid, command)]);
      case Approve(_, id, digest) =>
        if role.Viewer? {
          return Rejected(OperatorRequired);
        }
        var i := FindRequest(r.proposals, id, digest);
        if i == |r.proposals| {
          return Rejected(RequestUnavailable);
        }
        var p := r.proposals[i];
        if actor !in p.approvals {
          p := p.(approvals := p.approvals + [actor]);
        }
        r := r.(proposals := r.proposals[i := p]);
      case Consume(_, id, digest) =>
        if !owner {
          return Rejected(OwnerRequired);
        }
        effect := ConsumeRequest(r, id, digest, who, now);
        return;
    }
    return Updated(r, None);
  }

  method ConsumeRequest(room: Room, id: Id, digest: Digest, who: Identity, now: int) returns (effect: Effect)
    ensures effect == ConsumeEffect(room, id, digest, who, now)
  {
    var r := room;
    var i := FindRequest(r.proposals, id, digest);
    if i == |r.proposals| {
      return Rejected(RequestUnavailable);
    }
    var p := r.proposals[i];
    if |p.approvals| < 2
       || !(r.lease.Some? && r.lease.value.generation == p.generation && r.lease.value.expires > now)
       || !ShowsHash(r, p.frameHash) {
      return Rejected(VotesOrTargetStale);
    }
    var objection := CheckVoters(r, p.approvals, who);
    if objection.Some? {
      return Rejected(objection.value);
    }
    p := p.(consumed := true);
    r := r.(proposals := r.proposals[i := p]);
    return Updated(r, Some(p));
  }

  /** Walks the counted votes in order and reports the first that no longer stands. */
  method CheckVoters(r: Room, approvals: seq<Actor>, who: Identity) returns (why: Option<Rejection>)
    ensures why == Objection(r, approvals, who)
  {
    for i := 0 to |approvals|
      invariant Objection(r, approvals, who) == Objection(r, approvals[i..], who)
    {
      if approvals[i] != r.owner && approvals[i] !in r.members {
        return Some(ApproverLeftRoom);
      }
      if approvals[i] !in who.operators {
        return Some(ApproverRevoked);
      }
      assert approvals[i..][1..] == approvals[i + 1..];
    }
    return None;
  }
}
