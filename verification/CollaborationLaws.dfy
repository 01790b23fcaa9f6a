/** When each command is accepted and what it leaves, in the fields of the room and nothing else. */
module CollaborationLaws {
  import opened Characters
  import opened Outcomes
  import opened CollaborationRoom
  import opened CollaborationRuns

  // ---- What a command meets

  ghost predicate Open(rooms: map<Id, Room>, id: Id, now: int) { id in rooms && rooms[id].expires > now }

  /** The room is there and the actor belongs to it. */
  ghost predicate Admitted(m: Moment)
    requires m.event.Request? && !m.event.command.Create?
  {
    && Open(m.before, m.event.command.room, m.event.now)
    && var r := m.before[m.event.command.room];
       m.event.actor == r.owner || m.event.actor in r.members
  }

  ghost predicate AdmittedOwner(m: Moment)
    requires m.event.Request? && !m.event.command.Create?
  {
    Admitted(m) && m.event.actor == m.before[m.event.command.room].owner
  }

  /** Everything but the lease, its generation and the requests made under it. */
  ghost predicate SameSetting(r: Room, s: Room) {
    && s.id == r.id && s.owner == r.owner && s.session == r.session && s.members == r.members
    && s.expires == r.expires && s.frame == r.frame && s.annotations == r.annotations
  }

  /**
   * A command finds the room `r` as `s`: a lease that has run out, or whose holder has no token, is gone with its
   * requests.
   */
  ghost predicate Finds(r: Room, s: Room, who: Identity, now: int) {
    && SameSetting(r, s)
    && if r.lease.None? || (r.lease.value.expires > now && r.lease.value.actor in who.tokenHolders)
       then s.generation == r.generation && s.lease == r.lease && s.proposals == r.proposals
       else s.generation == r.generation + 1 && s.lease.None? && s.proposals == []
  }

  /** `s` is the room of this request as it is found, if it is there at all. */
  ghost predicate Asks(m: Moment, s: Room) {
    && Faithful(m) && m.event.Request? && !m.event.command.Create?
    && (Open(m.before, m.event.command.room, m.event.now) ==>
          Finds(m.before[m.event.command.room], s, m.event.who, m.event.now))
  }

  /** Every unexpired room but this one is left as it was, and no other room is there. */
  ghost predicate OthersKept(m: Moment, room: Id)
    requires m.event.Request?
  {
    forall id :: id != room ==>
      (id in m.after <==> Open(m.before, id, m.event.now)) && (id in m.after ==> m.after[id] == m.before[id])
  }

  /** The room is stored and returned, for thirty seconds more if its owner spoke. */
  ghost predicate Stored(m: Moment, s: Room, execute: Option<Proposal>)
    requires m.event.Request? && !m.event.command.Create?
  {
    var id := m.event.command.room;
    && OthersKept(m, id) && id in m.after
    && m.after[id].expires == (if m.event.actor == s.owner then m.event.now + 30 else s.expires)
    && m.reply == Ok(Reply(Some(m.after[id]), execute))
  }

  ghost predicate Gone(m: Moment)
    requires m.event.Request? && !m.event.command.Create?
  {
    OthersKept(m, m.event.command.room) && m.event.command.room !in m.after && m.reply == Ok(Reply(None, None))
  }

  ghost predicate MayOperate(m: Moment)
    requires m.event.Request?
  {
    m.event.role.Operator? || m.event.role.Admin?
  }

  /** Every request on a room meets it in exactly one way. */
  lemma FoundRoom(m: Moment) returns (s: Room)
    requires Faithful(m) && m.event.Request? && !m.event.command.Create?
    requires Open(m.before, m.event.command.room, m.event.now)
    ensures Asks(m, s)
    ensures forall t :: Asks(m, t) ==> t == s
  {
    var r := m.before[m.event.command.room];
    s := if r.lease.None?
            || (r.lease.value.expires > m.event.now && r.lease.value.actor in m.event.who.tokenHolders) then r
         else r.(generation := r.generation + 1, lease := None, proposals := []);
  }

  // ---- Why a request is refused

  /** A viewer may poll, draw and leave. */
  ghost predicate Barred(m: Moment)
    requires m.event.Request?
  {
    m.event.role.Viewer? && !m.event.command.Poll? && !m.event.command.Annotate? && !m.event.command.Leave?
  }

  lemma CreateRefusals(m: Moment)
    requires Faithful(m) && m.event.Request? && m.event.command.Create?
    ensures Barred(m) ==> m.reply == Err(OperatorRequired)
    ensures var members := m.event.command.members;
      !Barred(m) && (|members| > 16 || exists a :: a in members && !Printable(a, 100)) ==>
        m.reply == Err(InvalidMembership)
    ensures m.reply.Err? ==> m.reply.error in {OperatorRequired, InvalidMembership, RoomLimit}
  {
  }

  /** At the door: role, room and membership, in this order. */
  lemma DoorRefusals(m: Moment)
    requires Faithful(m) && m.event.Request? && !m.event.command.Create?
    ensures Barred(m) ==> m.reply == Err(OperatorRequired)
    ensures !Barred(m) && !Open(m.before, m.event.command.room, m.event.now) ==> m.reply == Err(RoomUnavailable)
    ensures !Barred(m) && Open(m.before, m.event.command.room, m.event.now) && !Admitted(m) ==>
      m.reply == Err(MembershipRequired)
  {
  }

  lemma OwnerRefusals(m: Moment)
    requires Faithful(m) && m.event.Request? && !m.event.command.Create? && !Barred(m) && Admitted(m)
    requires !AdmittedOwner(m)
    requires var c := m.event.command; c.Close? || c.Publish? || c.Grant? || c.Revoke? || c.Consume?
    ensures m.reply == Err(OwnerRequired)
  {
  }

  lemma GrantRefusals(m: Moment)
    requires Faithful(m) && m.event.Request? && m.event.command.Grant? && !Barred(m) && AdmittedOwner(m)
    ensures var members, target := m.before[m.event.command.room].members, m.event.command.actor;
      && (target !in members ==> m.reply == Err(MembershipRequired))
      && (target in members && target !in m.event.who.operators ==> m.reply == Err(OperatorRequired))
  {
  }

  lemma ContentRefusals(m: Moment)
    requires Faithful(m) && m.event.Request? && m.reply.Err? && !Barred(m)
    requires m.event.command.Publish? || m.event.command.Annotate?
    ensures m.event.command.Publish? && AdmittedOwner(m) ==> m.reply == Err(InvalidFrame)
    ensures m.event.command.Annotate? && Admitted(m) ==> m.reply == Err(InvalidAnnotation)
  {
  }

  ghost predicate HeldBy(s: Room, a: Actor, generation: nat, now: int) {
    && s.lease.Some? && s.lease.value.actor == a && s.lease.value.generation == generation
    && s.lease.value.expires > now
  }

  lemma ProposeRefusals(m: Moment, s: Room)
    requires Asks(m, s) && m.event.command.Propose? && !Barred(m) && Admitted(m) && m.reply.Err?
    ensures m.reply == Err(
      if HeldBy(s, m.event.actor, m.event.command.generation, m.event.now) then StaleTarget else LeaseRequired)
  {
  }

  lemma RequestIsUnavailable(m: Moment, s: Room, i: nat)
    requires Asks(m, s) && (m.event.command.Approve? || m.event.command.Consume?) && !Barred(m) && Admitted(m)
    requires m.event.command.Consume? ==> AdmittedOwner(m)
    requires i == FindRequest(s.proposals, m.event.command.id, m.event.command.digest)
    ensures i == |s.proposals| ==> m.reply == Err(RequestUnavailable)
  {
  }

  lemma RequestIsAvailable(m: Moment, s: Room, i: nat)
    requires Asks(m, s) && (m.event.command.Approve? || m.event.command.Consume?) && !Barred(m) && Admitted(m)
    requires m.event.command.Consume? ==> AdmittedOwner(m)
    requires i == FindRequest(s.proposals, m.event.command.id, m.event.command.digest) < |s.proposals|
    requires Objection(s, s.proposals[i].approvals, m.event.who) != Some(RequestUnavailable)
    ensures m.reply != Err(RequestUnavailable)
  {
  }

  lemma RequestRefusals(m: Moment, s: Room)
    requires Asks(m, s) && (m.event.command.Approve? || m.event.command.Consume?) && !Barred(m) && Admitted(m)
    requires m.event.command.Consume? ==> AdmittedOwner(m)
    ensures m.reply == Err(RequestUnavailable) <==>
      forall i :: !Wanted(s.proposals, i, m.event.command.id, m.event.command.digest)
  {
    WantedIsFound(s.proposals, m.event.command.id, m.event.command.digest);
    var i := FindRequest(s.proposals, m.event.command.id, m.event.command.digest);
    if i < |s.proposals| {
      RevokedVoter(s, s.proposals[i].approvals, m.event.who);
      RequestIsAvailable(m, s, i);
    } else {
      RequestIsUnavailable(m, s, i);
    }
  }

  lemma ConsumeRefusals(m: Moment, s: Room, i: nat)
    requires Asks(m, s) && m.event.command.Consume? && !Barred(m) && AdmittedOwner(m)
    requires Wanted(s.proposals, i, m.event.command.id, m.event.command.digest)
    ensures m.reply == Err(VotesOrTargetStale) <==> !Backed(m, s, s.proposals[i])
    ensures m.reply == Err(ApproverRevoked) ==>
      exists a :: a in s.proposals[i].approvals && a !in m.event.who.operators
  {
    var c := m.event.command;
    WantedIsFound(s.proposals, c.id, c.digest);
    WantedOnce(s.proposals, i, FindRequest(s.proposals, c.id, c.digest), c.id, c.digest);
    RevokedVoter(s, s.proposals[i].approvals, m.event.who);
  }

  lemma {:induction false} RevokedVoter(s: Room, approvals: seq<Actor>, who: Identity)
    ensures Objection(s, approvals, who) == Some(ApproverRevoked) ==> exists a :: a in approvals && a !in who.operators
    ensures Objection(s, approvals, who) in {None, Some(ApproverLeftRoom), Some(ApproverRevoked)}
  {
    if approvals != [] {
      RevokedVoter(s, approvals[1..], who);
    }
  }

  // ---- Rooms come and go

  lemma CreateExactly(m: Moment)
    requires Faithful(m) && m.event.Request? && m.event.command.Create?
    ensures Accepted(m) <==>
      && MayOperate(m) && |m.event.command.members| <= 16
      && (forall a :: a in m.event.command.members ==> Printable(a, 100))
      && |set id | id in m.before && m.before[id].expires > m.event.now| < 32
    ensures Accepted(m) ==>
      && OthersKept(m, m.event.uuid) && m.event.uuid in m.after
      && m.reply == Ok(Reply(Some(m.after[m.event.uuid]), None))
      && var r := m.after[m.event.uuid];
         && r.id == m.event.uuid && r.owner == m.event.actor && r.session == m.event.command.session
         && r.members == m.event.command.members && r.expires == m.event.now + 30 && r.generation == 0
         && r.lease.None? && r.frame.None? && r.annotations == [] && r.proposals == []
  {
    assert Live(m.before, m.event.now).Keys == set id | id in m.before && m.before[id].expires > m.event.now;
  }

  lemma PollExactly(m: Moment, s: Room)
    requires Asks(m, s) && m.event.command.Poll?
    ensures Accepted(m) <==> Admitted(m)
    ensures Accepted(m) ==> Stored(m, s, None)
    ensures var room := m.event.command.room; Accepted(m) ==> m.after[room] == s.(expires := m.after[room].expires)
  {
  }

  lemma CloseExactly(m: Moment, s: Room)
    requires Asks(m, s) && m.event.command.Close?
    ensures Accepted(m) <==> MayOperate(m) && AdmittedOwner(m)
    ensures Accepted(m) ==> Gone(m)
  {
  }

  /** The votes of `gone` are withdrawn from every request, and nothing else of them changes. */
  ghost predicate VotesWithdrawn(before: seq<Proposal>, after: seq<Proposal>, gone: Actor) {
    && |after| == |before|
    && forall i :: 0 <= i < |before| ==>
         && after[i].(approvals := before[i].approvals) == before[i]
         && forall a :: a in after[i].approvals <==> a in before[i].approvals && a != gone
  }

  lemma LeaveAccepted(m: Moment, s: Room)
    requires Asks(m, s) && m.event.command.Leave?
    ensures Accepted(m) <==> Admitted(m)
    ensures Accepted(m) && m.event.actor == s.owner ==> Gone(m)
    ensures Accepted(m) && m.event.actor != s.owner ==>
      && OthersKept(m, m.event.command.room) && m.event.command.room in m.after && m.reply == Ok(Reply(None, None))
      && m.after[m.event.command.room] == WithoutMember(s, m.event.actor)
  {
  }

  /** An owner who leaves closes the room; anyone else leaves their seat, their votes and their lease. */
  lemma LeaveExactly(m: Moment, s: Room)
    requires Asks(m, s) && m.event.command.Leave?
    ensures Accepted(m) <==> Admitted(m)
    ensures Accepted(m) && m.event.actor == s.owner ==> Gone(m)
    ensures Accepted(m) && m.event.actor != s.owner ==>
      && OthersKept(m, m.event.command.room) && m.event.command.room in m.after && m.reply == Ok(Reply(None, None))
      && var r, a := m.after[m.event.command.room], m.event.actor;
         && SameSetting(r.(members := s.members), s) && (forall b :: b in r.members <==> b in s.members && b != a)
         && if s.lease.Some? && s.lease.value.actor == a
            then r.lease.None? && r.generation == s.generation + 1 && r.proposals == []
            else r.lease == s.lease && r.generation == s.generation && VotesWithdrawn(s.proposals, r.proposals, a)
  {
    LeaveAccepted(m, s);
  }

  // ---- The picture and what is drawn on it

  lemma PublishExactly(m: Moment, s: Room)
    requires Asks(m, s) && m.event.command.Publish?
    ensures var f := m.event.command.frame;
      Accepted(m) <==>
        && MayOperate(m) && AdmittedOwner(m)
        && 1 <= f.width <= 640 && 1 <= f.height <= 360 && |f.rgb| == f.width * f.height * 3
    ensures Accepted(m) ==>
      && Stored(m, s, None)
      && var r, f := m.after[m.event.command.room], m.event.command.frame;
         && r.frame == Some(f) && r.lease == s.lease && r.generation == s.generation && r.members == s.members
         && r.session == s.session && r.owner == s.owner && r.id == s.id
         && if s.frame.Some? && s.frame.value.sourceHash != f.sourceHash then r.proposals == [] && r.annotations == []
            else r.proposals == s.proposals && r.annotations == s.annotations
  {
  }

  lemma AnnotateExactly(m: Moment, s: Room)
    requires Asks(m, s) && m.event.command.Annotate?
    ensures var c := m.event.command;
      Accepted(m) <==> Admitted(m) && c.x <= 10000 && c.y <= 10000 && Printable(c.text, 200)
    ensures Accepted(m) ==>
      && Stored(m, s, None)
      && var r, c := m.after[m.event.command.room], m.event.command;
         && r == s.(annotations := r.annotations, expires := r.expires) && r.annotations != []
         && r.annotations[|r.annotations| - 1] == Annotation(m.event.actor, c.x, c.y, c.text)
         && var earlier := r.annotations[..|r.annotations| - 1];
            earlier == if |s.annotations| < 64 then s.annotations else s.annotations[1..]
  {
  }

  // ---- The lease

  lemma GrantExactly(m: Moment, s: Room)
    requires Asks(m, s) && m.event.command.Grant?
    ensures var target := m.event.command.actor;
      Accepted(m) <==>
        MayOperate(m) && AdmittedOwner(m) && target in s.members && target in m.event.who.operators
    ensures Accepted(m) ==>
      && Stored(m, s, None)
      && var r := m.after[m.event.command.room];
         && SameSetting(r.(expires := s.expires), s) && r.generation == s.generation + 1 && r.proposals == []
         && r.lease == Some(Lease(m.event.command.actor, s.generation + 1, m.event.now + 20))
  {
  }

  lemma RevokeExactly(m: Moment, s: Room)
    requires Asks(m, s) && m.event.command.Revoke?
    ensures Accepted(m) <==> MayOperate(m) && AdmittedOwner(m)
    ensures Accepted(m) ==>
      && Stored(m, s, None)
      && var r := m.after[m.event.command.room];
         && SameSetting(r.(expires := s.expires), s) && r.generation == s.generation + 1
         && r.lease.None? && r.proposals == []
  {
  }

  // ---- Requests

  /** A request is stored with every field of the command, bound by its digest, without votes. */
  lemma ProposeExactly(m: Moment, s: Room)
    requires Asks(m, s) && m.event.command.Propose?
    ensures var c := m.event.command;
      Accepted(m) <==>
        && MayOperate(m) && Admitted(m)
        && s.lease.Some? && s.lease.value.actor == m.event.actor && s.lease.value.generation == c.generation
        && s.lease.value.expires > m.event.now
        && c.x <= 10000 && c.y <= 10000 && s.frame.Some? && s.frame.value.sourceHash == c.frameHash
        && |s.proposals| < 16
    ensures Accepted(m) ==>
      && Stored(m, s, None)
      && var r, c := m.after[m.event.command.room], m.event.command;
         && r == s.(proposals := r.proposals, expires := r.expires)
         && |r.proposals| == |s.proposals| + 1 && r.proposals[..|s.proposals|] == s.proposals
         && var p := r.proposals[|s.proposals|];
            && p.key == c.key && p.x == c.x && p.y == c.y && p.generation == c.generation && p.frameHash == c.frameHash
            && p.id == m.event.uuid && p.session == s.session && p.approvals == [] && !p.consumed
            && p.digest == Digest(s.id, m.event.uuid, s.session, c.generation, c.frameHash, c.x, c.y, c.key)
  {
  }

  ghost predicate Matches(p: Proposal, id: Id, digest: Digest) { p.id == id && p.digest == digest && !p.consumed }

  /** The first open request with this id and digest. */
  ghost predicate Wanted(proposals: seq<Proposal>, i: int, id: Id, digest: Digest) {
    && 0 <= i < |proposals| && Matches(proposals[i], id, digest)
    && forall k :: 0 <= k < i ==> !Matches(proposals[k], id, digest)
  }

  /** Only request `i` differs. */
  ghost predicate OnlyRequest(s: Room, r: Room, i: nat) {
    && r == s.(proposals := r.proposals, expires := r.expires) && i < |s.proposals| == |r.proposals|
    && forall k :: 0 <= k < |s.proposals| && k != i ==> r.proposals[k] == s.proposals[k]
  }

  lemma WantedIsFound(proposals: seq<Proposal>, id: Id, digest: Digest)
    ensures var i := FindRequest(proposals, id, digest);
      if i < |proposals| then Wanted(proposals, i, id, digest) else forall k :: !Wanted(proposals, k, id, digest)
  {
    var i := FindRequest(proposals, id, digest);
    assert forall k :: 0 <= k < i ==> !Matches(proposals[k], id, digest);
  }

  lemma WantedOnce(proposals: seq<Proposal>, i: nat, j: nat, id: Id, digest: Digest)
    requires Wanted(proposals, i, id, digest) && Wanted(proposals, j, id, digest)
    ensures i == j
  {
  }

  lemma ApproveAccepted(m: Moment, s: Room)
    requires Asks(m, s) && m.event.command.Approve?
    ensures var c := m.event.command;
      Accepted(m) <==> MayOperate(m) && Admitted(m) && FindRequest(s.proposals, c.id, c.digest) < |s.proposals|
    ensures Accepted(m) ==> Stored(m, s, None)
  {
  }

  lemma ApproveStores(m: Moment, s: Room, i: nat)
    requires Asks(m, s) && m.event.command.Approve? && Accepted(m)
    requires i == FindRequest(s.proposals, m.event.command.id, m.event.command.digest) < |s.proposals|
    ensures var r := m.after[m.event.command.room];
      OnlyRequest(s, r, i) && VoteAdded(s.proposals[i], r.proposals[i], m.event.actor)
  {
  }

  /** An accepted vote is stored beside every earlier one, on the first open request with that id and digest. */
  lemma ApproveExactly(m: Moment, s: Room)
    requires Asks(m, s) && m.event.command.Approve?
    ensures var c := m.event.command;
      Accepted(m) <==> MayOperate(m) && Admitted(m) && exists i :: Wanted(s.proposals, i, c.id, c.digest)
    ensures Accepted(m) ==> Stored(m, s, None)
    ensures var c := m.event.command;
      forall i :: Accepted(m) && Wanted(s.proposals, i, c.id, c.digest) ==>
        OnlyRequest(s, m.after[c.room], i) && VoteAdded(s.proposals[i], m.after[c.room].proposals[i], m.event.actor)
  {
    var c := m.event.command;
    ApproveAccepted(m, s);
    WantedIsFound(s.proposals, c.id, c.digest);
    forall i | Accepted(m) && Wanted(s.proposals, i, c.id, c.digest)
      ensures OnlyRequest(s, m.after[c.room], i)
      ensures VoteAdded(s.proposals[i], m.after[c.room].proposals[i], m.event.actor)
    {
      WantedOnce(s.proposals, i, FindRequest(s.proposals, c.id, c.digest), c.id, c.digest);
      ApproveStores(m, s, i);
    }
  }

  /** The votes are those before and `a`, each counted once. */
  ghost predicate VoteAdded(p: Proposal, q: Proposal, a: Actor) {
    && q.(approvals := p.approvals) == p && p.approvals <= q.approvals
    && (forall b :: b in q.approvals <==> b in p.approvals || b == a)
    && |q.approvals| == |p.approvals| + if a in p.approvals then 0 else 1
  }

  /** Two votes, the live lease and the frame of the request. */
  ghost predicate Backed(m: Moment, s: Room, p: Proposal)
    requires m.event.Request?
  {
    && |p.approvals| >= 2
    && s.lease.Some? && s.lease.value.generation == p.generation && s.lease.value.expires > m.event.now
    && s.frame.Some? && s.frame.value.sourceHash == p.frameHash
  }

  /** And every voter still seated and entitled: then, once, it executes. */
  ghost predicate Executable(m: Moment, s: Room, p: Proposal)
    requires m.event.Request?
  {
    Backed(m, s, p) && forall a :: a in p.approvals ==> (a == s.owner || a in s.members) && a in m.event.who.operators
  }

  lemma ConsumeAccepted(m: Moment, s: Room)
    requires Asks(m, s) && m.event.command.Consume?
    ensures var i := FindRequest(s.proposals, m.event.command.id, m.event.command.digest);
      Accepted(m) <==> MayOperate(m) && AdmittedOwner(m) && i < |s.proposals| && Executable(m, s, s.proposals[i])
  {
  }

  lemma ConsumeStores(m: Moment, s: Room, i: nat)
    requires Asks(m, s) && m.event.command.Consume? && Accepted(m)
    requires i == FindRequest(s.proposals, m.event.command.id, m.event.command.digest)
    ensures i < |s.proposals| && OnlyRequest(s, m.after[m.event.command.room], i)
    ensures m.after[m.event.command.room].proposals[i] == s.proposals[i].(consumed := true)
    ensures Stored(m, s, Some(s.proposals[i].(consumed := true)))
  {
  }

  lemma ConsumeExactly(m: Moment, s: Room)
    requires Asks(m, s) && m.event.command.Consume?
    ensures var c := m.event.command;
      Accepted(m) <==>
        && MayOperate(m) && AdmittedOwner(m)
        && exists i :: Wanted(s.proposals, i, c.id, c.digest) && Executable(m, s, s.proposals[i])
    ensures var c := m.event.command;
      forall i :: Accepted(m) && Wanted(s.proposals, i, c.id, c.digest) ==>
        && OnlyRequest(s, m.after[c.room], i) && m.after[c.room].proposals[i] == s.proposals[i].(consumed := true)
        && Stored(m, s, Some(s.proposals[i].(consumed := true)))
  {
    var c := m.event.command;
    ConsumeAccepted(m, s);
    if Accepted(m) {
      ConsumeStores(m, s, FindRequest(s.proposals, c.id, c.digest));
    }
    WantedIsFound(s.proposals, c.id, c.digest);
    forall i | Wanted(s.proposals, i, c.id, c.digest)
      ensures i == FindRequest(s.proposals, c.id, c.digest)
    {
      WantedOnce(s.proposals, i, FindRequest(s.proposals, c.id, c.digest), c.id, c.digest);
    }
  }

  // ---- A token is revoked

  /** The actor's rooms go; elsewhere their lease and their votes go, and nothing else changes. */
  lemma RevocationExactly(m: Moment, id: Id)
    requires Faithful(m) && m.event.TokenRevoked?
    ensures id in m.after <==> id in m.before && m.before[id].owner != m.event.gone
    ensures id in m.after ==>
      && var s, r, a := m.before[id], m.after[id], m.event.gone;
         && SameSetting(s, r)
         && if s.lease.Some? && s.lease.value.actor == a
            then r.lease.None? && r.generation == s.generation + 1 && r.proposals == []
            else r.lease == s.lease && r.generation == s.generation && VotesWithdrawn(s.proposals, r.proposals, a)
  {
  }

  // ---- Small pieces

  /** Whatever led there, a viewer neither asks for a click nor votes for one. */
  lemma ViewersOnlyWatch(r: Room, actor: Actor, c: Command, now: int, who: Identity, uuid: Id)
    requires c.Propose? || c.Approve?
    ensures Acted(r, actor, Viewer, c, now, who, uuid).Rejected?
  {
  }

  /** Actors that stay keep their order. */
  lemma {:induction false} WithoutExactly(actors: seq<Actor>, more: seq<Actor>, gone: Actor)
    ensures Without(actors + more, gone) == Without(actors, gone) + Without(more, gone)
    ensures gone !in actors ==> Without(actors, gone) == actors
  {
    if actors == [] {
      assert actors + more == more;
    } else {
      var rest := actors[1..];
      WithoutExactly(rest, more, gone);
      assert (actors + more)[0] == actors[0] && (actors + more)[1..] == rest + more;
      Behind(actors[0], Without(rest, gone), Without(more, gone));
      assert actors == [actors[0]] + rest;
    }
  }

  lemma Behind(a: Actor, s: seq<Actor>, t: seq<Actor>)
    ensures [a] + (s + t) == [a] + s + t
  {
  }

  lemma PrintableExactly(s: string, max: nat)
    ensures Printable(s, max) <==>
      && |s| <= max && (exists c :: c in s && !IsSpace(c))
      && forall c :: c in s ==> !(c as int < 0x20 || 0x7F <= c as int <= 0x9F)
  {
    assert forall i :: 0 <= i < |s| ==> s[i] in s;
  }
}
