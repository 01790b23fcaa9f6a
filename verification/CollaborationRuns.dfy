/** Whole runs of the room protocol: where each stored proposal and each counted vote came from. */
module CollaborationRuns {
  import opened Outcomes
  import opened CollaborationRoom
  import opened CollaborationInvariant

  datatype Event =
    | Request(actor: Actor, role: Role, command: Command, now: int, who: Identity, uuid: Id)
    | TokenRevoked(gone: Actor)

  function StepOf(rooms: map<Id, Room>, e: Event): Step {
    match e
    case Request(actor, role, command, now, who, uuid) => Applied(rooms, actor, role, command, now, who, uuid)
    case TokenRevoked(gone) => Step(Invalidated(rooms, gone), Ok(Reply(None, None)))
  }

  /** One event with the table it met, the table it left and the answer it got. */
  datatype Moment = Moment(before: map<Id, Room>, event: Event, after: map<Id, Room>, reply: Result<Reply, Rejection>)

  ghost predicate Faithful(m: Moment) {
    StepOf(m.before, m.event) == Step(m.after, m.reply)
  }

  /** Any sequence of commands and token revocations, from the empty table. */
  ghost predicate Run(trace: seq<Moment>) {
    && (forall k :: 0 <= k < |trace| ==> Faithful(trace[k]))
    && (trace != [] ==> trace[0].before == map[])
    && (forall k :: 0 < k < |trace| ==> trace[k].before == trace[k - 1].after)
  }

  // ---- What one event did

  ghost predicate Accepted(m: Moment) { m.event.Request? && m.reply.Ok? }

  ghost predicate SameRequest(p: Proposal, q: Proposal) {
    p.(approvals := [], consumed := false) == q.(approvals := [], consumed := false)
  }

  /** The event is the accepted Propose that made `p`, by the holder of the room's live lease. */
  ghost predicate Proposes(m: Moment, room: Id, p: Proposal) {
    && Accepted(m) && m.event.command.Propose? && m.event.command.room == room && room in m.before
    && HoldsLease(m.before[room], m.event.actor, p.generation, m.event.now)
    && SameRequest(p, NewProposal(m.before[room], m.event.uuid, m.event.command))
  }

  ghost predicate Votes(m: Moment, room: Id, id: Id, digest: Digest, a: Actor) {
    Accepted(m) && m.event.actor == a && m.event.command == Approve(room, id, digest)
  }

  ghost predicate Withdraws(m: Moment, room: Id, a: Actor) {
    m.event == TokenRevoked(a) || (Accepted(m) && m.event.actor == a && m.event.command == Leave(room))
  }

  /** A grant, a revocation, a frame with another hash, or any other loss of the lease. */
  ghost predicate Disturbs(m: Moment, room: Id, hash: nat) {
    || (Accepted(m) && (m.event.command.Grant? || m.event.command.Revoke? || m.event.command.Close?)
      && m.event.command.room == room)
    || (Accepted(m) && m.event.command.Publish? && m.event.command.room == room
      && m.event.command.frame.sourceHash != hash)
    || (room in m.before && (room !in m.after || m.after[room].lease != m.before[room].lease))
  }

  ghost predicate Executes(m: Moment, room: Id, p: Proposal) {
    Accepted(m) && m.event.command == Consume(room, p.id, p.digest) && m.reply.value.execute == Some(p)
  }

  // ---- Origin of one stored proposal, across one step

  /** `p'` is `p` one step later, with no votes but the old ones not withdrawn and a vote cast in this step. */
  ghost predicate Carries(m: Moment, room: Id, p: Proposal, p': Proposal) {
    && SameRequest(p, p') && (p.consumed ==> p'.consumed)
    && !Disturbs(m, room, p.frameHash)
    && forall a :: a in p'.approvals ==>
         (a in p.approvals && !Withdraws(m, room, a)) || Votes(m, room, p.id, p.digest, a)
  }

  lemma ApproveOrigin(r: Room, actor: Actor, id: Id, digest: Digest, p': Proposal) returns (p: Proposal)
    requires var e := ApproveEffect(r, actor, id, digest); e.Updated? && p' in e.room.proposals
    ensures p in r.proposals && SameRequest(p, p') && (p.consumed ==> p'.consumed)
    ensures forall a :: a in p'.approvals ==> a in p.approvals || (a == actor && p.id == id && p.digest == digest)
  {
    var i := FindRequest(r.proposals, id, digest);
    p := if p' in r.proposals then p' else r.proposals[i];
  }

  lemma ConsumeOrigin(r: Room, id: Id, digest: Digest, who: Identity, now: int, p': Proposal) returns (p: Proposal)
    requires var e := ConsumeEffect(r, id, digest, who, now); e.Updated? && p' in e.room.proposals
    ensures p in r.proposals && SameRequest(p, p') && (p.consumed ==> p'.consumed) && p'.approvals == p.approvals
  {
    var i := FindRequest(r.proposals, id, digest);
    p := if p' in r.proposals then p' else r.proposals[i];
  }

  /** A proposal present after a command on a room was there before, or that command is the Propose that made it. */
  lemma ActedOrigin(r: Room, actor: Actor, role: Role, c: Command, now: int, who: Identity, uuid: Id, p': Proposal)
    returns (p: Proposal)
    requires !c.Create? && RoomOk(r)
    requires var e := Acted(r, actor, role, c, now, who, uuid); (e.Updated? || e.Departed?) && p' in e.room.proposals
    ensures Acted(r, actor, role, c, now, who, uuid).room.lease == r.lease
    ensures !c.Grant? && !c.Revoke? && (c.Publish? ==> c.frame.sourceHash == p'.frameHash)
    ensures
      || (c.Propose? && HoldsLease(r, actor, c.generation, now) && p' == NewProposal(r, uuid, c))
      || (&& p in r.proposals && SameRequest(p, p') && (p.consumed ==> p'.consumed)
          && forall a :: a in p'.approvals ==>
               || (a in p.approvals && !(c.Leave? && a == actor))
               || (c.Approve? && a == actor && p.id == c.id && p.digest == c.digest))
  {
    p := p';
    match c
    case Leave(_) => p := WithdrawnIsFrom(r.proposals, actor, p');
    case Approve(_, id, digest) => p := ApproveOrigin(r, actor, id, digest, p');
    case Consume(_, id, digest) => p := ConsumeOrigin(r, id, digest, who, now, p');
    case Publish(_, _) => assert ProposalOk(r, p');
    case _ =>
  }

  /** An accepted command on a room that is still there stored what it did to the settled room. */
  lemma AcceptedOnRoom(m: Moment)
    requires Faithful(m) && Accepted(m) && !m.event.command.Create? && m.event.command.room in m.after
    ensures var e, id := m.event, m.event.command.room;
      && id in m.before
      && var effect := Acted(Settled(m.before[id], e.who, e.now), e.actor, e.role, e.command, e.now, e.who, e.uuid);
         && (effect.Updated? || effect.Departed?)
         && m.after[id].proposals == effect.room.proposals && m.after[id].lease == effect.room.lease
  {
  }

  lemma OriginInRoom(m: Moment, p': Proposal) returns (p: Proposal)
    requires TableOk(m.before) && Faithful(m) && Accepted(m) && !m.event.command.Create?
    requires var id := m.event.command.room; id in m.after && p' in m.after[id].proposals
    ensures var id := m.event.command.room; id in m.before && m.after[id].lease == m.before[id].lease
    ensures var id := m.event.command.room;
      || (Proposes(m, id, p') && p'.approvals == [] && !p'.consumed)
      || (p in m.before[id].proposals && Carries(m, id, p, p'))
  {
    var e := m.event;
    var id := e.command.room;
    AcceptedOnRoom(m);
    var r := Settled(m.before[id], e.who, e.now);
    p := ActedOrigin(r, e.actor, e.role, e.command, e.now, e.who, e.uuid, p');
    assert (r.proposals == [] && r.lease.None?) || r == m.before[id];
  }

  lemma RevocationOrigin(m: Moment, id: Id, p': Proposal) returns (p: Proposal)
    requires Faithful(m) && m.event.TokenRevoked? && id in m.after && p' in m.after[id].proposals
    ensures id in m.before && p in m.before[id].proposals && Carries(m, id, p, p')
    ensures m.after[id].lease == m.before[id].lease
  {
    var r := m.before[id];
    var kept := if r.lease.Some? && r.lease.value.actor == m.event.gone then LeaseLost(r) else r;
    p := WithdrawnIsFrom(kept.proposals, m.event.gone, p');
  }

  /** A command that is rejected, creates a room, or concerns another room leaves this one alone. */
  lemma OtherRoomsUntouched(m: Moment, id: Id)
    requires Faithful(m) && m.event.Request? && id in m.after
    requires Accepted(m) && !m.event.command.Create? ==> m.event.command.room != id
    ensures (id in m.before && m.after[id] == m.before[id])
      || (Accepted(m) && m.event.command.Create? && m.event.uuid == id)
    ensures Accepted(m) && m.event.command.Create? && m.event.uuid == id ==>
      m.after[id].proposals == [] && m.after[id].lease.None?
  {
    if !Accepted(m) {
      var e := m.event;
      RejectionChangesNothing(m.before, e.actor, e.role, e.command, e.now, e.who, e.uuid);
    }
  }

  /** A stored proposal was there one step earlier, or this step proposed it. */
  lemma StepOrigin(m: Moment, id: Id, p': Proposal) returns (p: Proposal)
    requires TableOk(m.before) && Faithful(m) && id in m.after && p' in m.after[id].proposals
    ensures id in m.before && m.after[id].lease == m.before[id].lease
    ensures
      || (Proposes(m, id, p') && p'.approvals == [] && !p'.consumed)
      || (p in m.before[id].proposals && Carries(m, id, p, p'))
  {
    if m.event.TokenRevoked? {
      p := RevocationOrigin(m, id, p');
    } else if Accepted(m) && !m.event.command.Create? && m.event.command.room == id {
      p := OriginInRoom(m, p');
    } else {
      OtherRoomsUntouched(m, id);
      p := p';
    }
  }

  // ---- Origin of one stored proposal, across a run

  lemma StepKeepsTable(m: Moment)
    requires Faithful(m) && TableOk(m.before)
    ensures TableOk(m.after)
  {
    match m.event
    case Request(actor, role, command, now, who, uuid) => CommandKeepsTable(m.before, actor, role, command, now, who,
      uuid);
    case TokenRevoked(gone) => RevocationKeepsTable(m.before, gone);
  }

  /** The room invariant holds before and after every event of every run. */
  lemma {:induction false} RunKeepsTable(trace: seq<Moment>, k: nat)
    requires Run(trace) && k < |trace|
    ensures TableOk(trace[k].before) && TableOk(trace[k].after)
  {
    if k > 0 {
      RunKeepsTable(trace, k - 1);
    }
    StepKeepsTable(trace[k]);
  }

  /** Since event `i` the room has kept the lease and the frame hash it had then. */
  ghost predicate Undisturbed(trace: seq<Moment>, i: nat, n: nat, room: Id, hash: nat)
    requires n <= |trace|
  {
    forall k :: i < k < n ==> !Disturbs(trace[k], room, hash)
  }

  /** `a` voted for this id and digest after event `i`, and has neither left nor had a token revoked since. */
  ghost predicate VoteStands(trace: seq<Moment>, i: nat, n: nat, room: Id, id: Id, digest: Digest, a: Actor)
    requires n <= |trace|
  {
    exists j :: i < j < n && Votes(trace[j], room, id, digest, a)
                && forall k :: j < k < n ==> !Withdraws(trace[k], room, a)
  }

  ghost predicate BackedFrom(trace: seq<Moment>, i: nat, n: nat, room: Id, p: Proposal)
    requires n <= |trace|
  {
    && i < n && Proposes(trace[i], room, p)
    && Undisturbed(trace, i, n, room, p.frameHash)
    && forall a :: a in p.approvals ==> VoteStands(trace, i, n, room, p.id, p.digest, a)
  }

  lemma BackedOneStepLater(trace: seq<Moment>, i: nat, n: nat, room: Id, p: Proposal, p': Proposal)
    requires n < |trace| && BackedFrom(trace, i, n, room, p) && Carries(trace[n], room, p, p')
    ensures BackedFrom(trace, i, n + 1, room, p')
  {
    forall a | a in p'.approvals
      ensures VoteStands(trace, i, n + 1, room, p'.id, p'.digest, a)
    {
    }
  }

  /** Every stored proposal was proposed, has stood undisturbed since, and each of its votes still stands. */
  lemma {:induction false} StoredProposalIsBacked(trace: seq<Moment>, n: nat, room: Id, p': Proposal) returns (i: nat)
    requires Run(trace) && n < |trace| && room in trace[n].after && p' in trace[n].after[room].proposals
    ensures BackedFrom(trace, i, n + 1, room, p')
    decreases n
  {
    RunKeepsTable(trace, n);
    var p := StepOrigin(trace[n], room, p');
    if Proposes(trace[n], room, p') && p'.approvals == [] {
      i := n;
    } else {
      i := StoredProposalIsBacked(trace, n - 1, room, p);
      BackedOneStepLater(trace, i, n, room, p, p');
    }
  }

  // ---- Execution

  /** What the server checked in the step that executed `p`. */
  lemma ExecutionChecks(m: Moment, room: Id, p: Proposal) returns (q: Proposal)
    requires TableOk(m.before) && Faithful(m) && Executes(m, room, p)
    ensures room in m.before && q in m.before[room].proposals && !q.consumed && p == q.(consumed := true)
    ensures m.event.actor == m.before[room].owner && |p.approvals| >= 2
    ensures var l := m.before[room].lease;
      l.Some? && l.value.generation == p.generation && l.value.expires > m.event.now
        && l.value.actor in m.event.who.tokenHolders
    ensures forall a :: a in p.approvals ==> MayVote(m.before[room], a) && a in m.event.who.operators
    ensures room in m.after && forall p' :: p' in m.after[room].proposals ==> p' in m.before[room].proposals || p' == p
  {
    var r := Settled(m.before[room], m.event.who, m.event.now);
    q := r.proposals[FindRequest(r.proposals, p.id, p.digest)];
  }

  /** `a` backs the execution at event `n`: a standing vote, a seat in the room, and the right to operate now. */
  ghost predicate Backs(trace: seq<Moment>, i: nat, n: nat, room: Id, p: Proposal, a: Actor)
    requires n < |trace|
  {
    && trace[n].event.Request? && room in trace[n].before
    && VoteStands(trace, i, n, room, p.id, p.digest, a)
    && MayVote(trace[n].before[room], a) && a in trace[n].event.who.operators
  }

  /**
   * Whenever a command executes a proposal, the run holds the Propose of exactly that id and digest, followed by the
   * votes of two different actors that still stand; and since the proposal nothing disturbed the room.
   */
  lemma VoteSafety(trace: seq<Moment>, n: nat, room: Id, p: Proposal) returns (i: nat, a: Actor, b: Actor)
    requires Run(trace) && n < |trace| && Executes(trace[n], room, p)
    ensures i < n && Proposes(trace[i], room, p) && Undisturbed(trace, i, n, room, p.frameHash)
    ensures a != b && Backs(trace, i, n, room, p, a) && Backs(trace, i, n, room, p, b)
  {
    RunKeepsTable(trace, n);
    var q := ExecutionChecks(trace[n], room, p);
    i := StoredProposalIsBacked(trace, n - 1, room, q);
    a, b := p.approvals[0], p.approvals[1];
    assert ProposalOk(trace[n].before[room], q);
  }
}
