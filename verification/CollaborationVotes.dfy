/** Votes count: two that stand on an undisturbed request execute it, and nothing less does. */
module CollaborationVotes {
  import opened Outcomes
  import opened CollaborationRoom
  import opened CollaborationInvariant
  import opened CollaborationRuns
  import opened CollaborationLease
  import opened CollaborationLaws

  ghost predicate ExecutesId(m: Moment, room: Id, id: Id) {
    Accepted(m) && m.event.command.Consume? && m.event.command.room == room && m.event.command.id == id
  }

  /** The request goes on: unconsumed, with every vote not withdrawn and the vote cast now. */
  ghost predicate GoesOn(m: Moment, room: Id, p: Proposal, p': Proposal) {
    && SameRequest(p, p') && !p'.consumed
    && (forall a :: a in p.approvals && !Withdraws(m, room, a) ==> a in p'.approvals)
    && (forall a :: Votes(m, room, p.id, p.digest, a) ==> a in p'.approvals)
  }

  lemma RevokedGoesOn(m: Moment, room: Id, i: nat) returns (p': Proposal)
    requires Faithful(m) && m.event.TokenRevoked? && room in m.before && i < |m.before[room].proposals|
    requires !m.before[room].proposals[i].consumed && !Disturbs(m, room, m.before[room].proposals[i].frameHash)
    ensures room in m.after && p' in m.after[room].proposals && GoesOn(m, room, m.before[room].proposals[i], p')
  {
    RevocationExactly(m, room);
    p' := m.after[room].proposals[i];
  }

  /** An open request with an id of its own is the one a command means. */
  lemma MeansThis(proposals: seq<Proposal>, i: nat)
    requires DistinctIds(proposals) && i < |proposals| && !proposals[i].consumed
    ensures Wanted(proposals, i, proposals[i].id, proposals[i].digest)
  {
  }

  lemma ApprovedGoesOn(m: Moment, s: Room, i: nat) returns (p': Proposal)
    requires Asks(m, s) && m.event.command.Approve? && Accepted(m) && DistinctIds(s.proposals)
    requires i < |s.proposals| && !s.proposals[i].consumed
    ensures var room := m.event.command.room;
      room in m.after && p' in m.after[room].proposals && GoesOn(m, room, s.proposals[i], p')
  {
    var c := m.event.command;
    ApproveExactly(m, s);
    var j :| Wanted(s.proposals, j, c.id, c.digest);
    MeansThis(s.proposals, i);
    p' := m.after[c.room].proposals[i];
    if c.id == s.proposals[i].id && c.digest == s.proposals[i].digest {
      WantedOnce(s.proposals, i, j, c.id, c.digest);
    }
  }

  lemma ConsumedGoesOn(m: Moment, s: Room, i: nat) returns (p': Proposal)
    requires Asks(m, s) && m.event.command.Consume? && Accepted(m) && DistinctIds(s.proposals)
    requires i < |s.proposals| && !s.proposals[i].consumed && m.event.command.id != s.proposals[i].id
    ensures var room := m.event.command.room;
      room in m.after && p' in m.after[room].proposals && GoesOn(m, room, s.proposals[i], p')
  {
    var c := m.event.command;
    ConsumeExactly(m, s);
    var j :| Wanted(s.proposals, j, c.id, c.digest) && Executable(m, s, s.proposals[j]);
    p' := m.after[c.room].proposals[i];
  }

  lemma OtherGoesOn(m: Moment, s: Room, i: nat) returns (p': Proposal)
    requires Asks(m, s) && Accepted(m) && !m.event.command.Approve? && !m.event.command.Consume?
    requires i < |s.proposals| && !s.proposals[i].consumed && s.lease.Some?
    requires s.frame.Some? && s.frame.value.sourceHash == s.proposals[i].frameHash
    requires var room := m.event.command.room;
      room in m.before && m.before[room].lease == s.lease && !Disturbs(m, room, s.proposals[i].frameHash)
    ensures var room := m.event.command.room;
      room in m.after && p' in m.after[room].proposals && GoesOn(m, room, s.proposals[i], p')
  {
    var room := m.event.command.room;
    p' := s.proposals[i];
    match m.event.command
    case Poll(_) => PollExactly(m, s);
    case Close(_) => CloseExactly(m, s);
    case Leave(_) =>
      LeaveExactly(m, s);
      if room in m.after {
        p' := LeftGoesOn(m, s, i);
      }
    case Publish(_, _) => PublishExactly(m, s);
    case Annotate(_, _, _, _) => AnnotateExactly(m, s);
    case Grant(_, _) =>
    case Revoke(_) =>
    case Propose(_, _, _, _, _, _) =>
      ProposeExactly(m, s);
      assert m.after[room].proposals[i] == m.after[room].proposals[..|s.proposals|][i];
  }

  lemma LeftGoesOn(m: Moment, s: Room, i: nat) returns (p': Proposal)
    requires Asks(m, s) && Accepted(m) && m.event.command.Leave? && i < |s.proposals| && !s.proposals[i].consumed
    requires var room := m.event.command.room;
      && room in m.before && m.before[room].lease == s.lease && s.lease.Some?
      && !Disturbs(m, room, s.proposals[i].frameHash)
    ensures var room := m.event.command.room;
      room in m.after && p' in m.after[room].proposals && GoesOn(m, room, s.proposals[i], p')
  {
    LeaveExactly(m, s);
    p' := m.after[m.event.command.room].proposals[i];
  }

  /**
   * A lease lost on the way in does not come back, so the room a command leaves undisturbed was found as it was stored.
   */
  lemma FoundUndisturbed(m: Moment, hash: nat) returns (s: Room)
    requires Faithful(m) && Accepted(m) && !m.event.command.Create?
    requires var room := m.event.command.room;
      room in m.before && m.before[room].lease.Some? && !Disturbs(m, room, hash)
    ensures Asks(m, s) && s == m.before[m.event.command.room]
  {
    var room := m.event.command.room;
    if Open(m.before, room, m.event.now) {
      s := FoundRoom(m);
      if s != m.before[room] {
        LostLeaseDisturbs(m, s, hash);
      }
    } else {
      s := m.before[room];
      PollOrGone(m, s);
    }
  }

  lemma LostLeaseDisturbs(m: Moment, s: Room, hash: nat)
    requires Asks(m, s) && Accepted(m) && m.event.command.room in m.before
    requires m.before[m.event.command.room].lease.Some? && s.lease.None?
    ensures Disturbs(m, m.event.command.room, hash)
  {
    match m.event.command
    case Poll(_) => PollExactly(m, s);
    case Close(_) => CloseExactly(m, s);
    case Leave(_) => LeaveExactly(m, s);
    case Publish(_, _) => PublishExactly(m, s);
    case Annotate(_, _, _, _) => AnnotateExactly(m, s);
    case Grant(_, _) =>
    case Revoke(_) =>
    case Propose(_, _, _, _, _, _) => ProposeExactly(m, s);
    case Approve(_, _, _) => ApproveExactly(m, s);
    case Consume(_, _, _) => ConsumeExactly(m, s);
  }

  /** A request is accepted only on a room that is still open. */
  lemma PollOrGone(m: Moment, s: Room)
    requires Asks(m, s) && Accepted(m)
    ensures Open(m.before, m.event.command.room, m.event.now)
  {
  }

  /** One undisturbed step carries an open request on. */
  lemma StepGoesOn(m: Moment, room: Id, i: nat) returns (p': Proposal)
    requires Faithful(m) && TableOk(m.before) && room in m.before && i < |m.before[room].proposals|
    requires DistinctIds(m.before[room].proposals) && !m.before[room].proposals[i].consumed
    requires !Disturbs(m, room, m.before[room].proposals[i].frameHash)
    requires !ExecutesId(m, room, m.before[room].proposals[i].id)
    ensures room in m.after && p' in m.after[room].proposals && GoesOn(m, room, m.before[room].proposals[i], p')
  {
    var p := m.before[room].proposals[i];
    assert ProposalOk(m.before[room], p);
    if m.event.TokenRevoked? {
      p' := RevokedGoesOn(m, room, i);
    } else if Accepted(m) && !m.event.command.Create? && m.event.command.room == room {
      var s := FoundUndisturbed(m, p.frameHash);
      if m.event.command.Approve? {
        p' := ApprovedGoesOn(m, s, i);
      } else if m.event.command.Consume? {
        p' := ConsumedGoesOn(m, s, i);
      } else {
        p' := OtherGoesOn(m, s, i);
      }
    } else {
      OtherRoomsUntouched(m, room);
      p' := p;
    }
  }

  // ---- Over a run

  /** The request of this accepted Propose. */
  ghost predicate Requests(m: Moment, room: Id, p: Proposal) {
    && Accepted(m) && m.event.command.Propose? && m.event.command.room == room && room in m.before
    && var c, session := m.event.command, m.before[room].session;
       && p.key == c.key && p.x == c.x && p.y == c.y && p.generation == c.generation && p.frameHash == c.frameHash
       && p.id == m.event.uuid && p.session == session
       && p.digest == Digest(room, p.id, session, c.generation, c.frameHash, c.x, c.y, c.key)
  }

  /** The request stands in the room, open, with every standing vote. */
  ghost predicate StandsWithVotes(trace: seq<Moment>, k: nat, n: nat, room: Id, p: Proposal, p': Proposal)
    requires 0 < n <= |trace|
  {
    && room in trace[n - 1].after && p' in trace[n - 1].after[room].proposals && SameRequest(p, p') && !p'.consumed
    && forall a :: VoteStands(trace, k, n, room, p.id, p.digest, a) ==> a in p'.approvals
  }

  lemma RequestIsStored(trace: seq<Moment>, k: nat, room: Id, p: Proposal) returns (p': Proposal)
    requires k < |trace| && Requests(trace[k], room, p) && Faithful(trace[k]) && TableOk(trace[k].before)
    ensures StandsWithVotes(trace, k, k + 1, room, p, p')
  {
    var m := trace[k];
    var s := AcceptedRoom(m);
    ProposeExactly(m, s);
    p' := m.after[room].proposals[|s.proposals|];
  }

  lemma AcceptedRoom(m: Moment) returns (s: Room)
    requires Faithful(m) && Accepted(m) && !m.event.command.Create?
    ensures Asks(m, s) && Open(m.before, m.event.command.room, m.event.now)
    ensures SameSetting(m.before[m.event.command.room], s)
  {
    s := FoundRoom(m);
  }

  /** One event after another that neither disturbs the room nor executes the request. */
  ghost predicate Passes(last: Moment, m: Moment, room: Id, p: Proposal) {
    && m.before == last.after && Faithful(m) && TableOk(m.before)
    && (room in m.before ==> DistinctIds(m.before[room].proposals))
    && !Disturbs(m, room, p.frameHash) && !ExecutesId(m, room, p.id)
  }

  ghost predicate PassesAt(trace: seq<Moment>, n: int, room: Id, p: Proposal) {
    0 < n < |trace| && Passes(trace[n - 1], trace[n], room, p)
  }

  lemma PassesInRun(trace: seq<Moment>, n: nat, room: Id, p: Proposal)
    requires Run(trace) && FreshIds(trace) && 0 < n < |trace|
    requires !Disturbs(trace[n], room, p.frameHash) && !ExecutesId(trace[n], room, p.id)
    ensures PassesAt(trace, n, room, p)
  {
    RunKeepsTable(trace, n);
    if room in trace[n].before {
      RunKeepsDistinctIds(trace, n - 1, room);
    }
  }

  lemma RequestStands(trace: seq<Moment>, k: nat, n: nat, room: Id, p: Proposal) returns (p': Proposal)
    requires k < n <= |trace| && Requests(trace[k], room, p) && Faithful(trace[k]) && TableOk(trace[k].before)
    requires forall j :: k < j < n ==> PassesAt(trace, j, room, p)
    ensures StandsWithVotes(trace, k, n, room, p, p')
  {
    p' := RequestIsStored(trace, k, room, p);
    var m := k + 1;
    while m < n
      invariant k < m <= n && StandsWithVotes(trace, k, m, room, p, p')
    {
      p' := StandsOneStepLater(trace, k, m, room, p, p');
      m := m + 1;
    }
  }

  lemma RequestStandsInRun(trace: seq<Moment>, k: nat, n: nat, room: Id, p: Proposal) returns (p': Proposal)
    requires Run(trace) && FreshIds(trace) && k < n <= |trace| && Requests(trace[k], room, p)
    requires Undisturbed(trace, k, n, room, p.frameHash) && forall j :: k < j < n ==> !ExecutesId(trace[j], room, p.id)
    ensures StandsWithVotes(trace, k, n, room, p, p')
  {
    RunKeepsTable(trace, k);
    forall j | k < j < n ensures PassesAt(trace, j, room, p) {
      PassesInRun(trace, j, room, p);
    }
    p' := RequestStands(trace, k, n, room, p);
  }

  lemma StandsOneStepLater(trace: seq<Moment>, k: nat, n: nat, room: Id, p: Proposal,
      q: Proposal) returns (p': Proposal)
    requires 0 < n < |trace| && StandsWithVotes(trace, k, n, room, p, q) && PassesAt(trace, n, room, p)
    ensures StandsWithVotes(trace, k, n + 1, room, p, p')
  {
    var m := trace[n];
    var i :| 0 <= i < |m.before[room].proposals| && m.before[room].proposals[i] == q;
    p' := StepGoesOn(m, room, i);
    forall a | VoteStands(trace, k, n + 1, room, p.id, p.digest, a)
      ensures a in p'.approvals
    {
      StandingBefore(trace, k, n, room, p.id, p.digest, a);
    }
  }

  lemma StandingBefore(trace: seq<Moment>, k: nat, n: nat, room: Id, id: Id, digest: Digest, a: Actor)
    requires n < |trace| && VoteStands(trace, k, n + 1, room, id, digest, a)
    ensures Votes(trace[n], room, id, digest, a)
      || (VoteStands(trace, k, n, room, id, digest, a) && !Withdraws(trace[n], room, a))
  {
  }

  /** The owner asks to execute in time: the room is open, and the lease has not run out nor lost its holder's token. */
  ghost predicate AsksInTime(m: Moment, room: Id, id: Id, digest: Digest) {
    && m.event.Request? && m.event.command == Consume(room, id, digest)
    && (m.event.role.Operator? || m.event.role.Admin?)
    && Open(m.before, room, m.event.now) && m.event.actor == m.before[room].owner
    && var lease := m.before[room].lease;
       lease.Some? && lease.value.expires > m.event.now && lease.value.actor in m.event.who.tokenHolders
  }

  /**
   * The converse of vote safety. Once a request was accepted and two different actors voted for it, with both votes
   * still standing, nothing disturbed and nothing executed yet, the owner's timely Consume executes it, provided
   * everyone who stands by it may operate.
   */
  lemma VotesExecute(trace: seq<Moment>, k: nat, n: nat, room: Id, p: Proposal, a: Actor,
      b: Actor) returns (done: Proposal)
    requires Run(trace) && FreshIds(trace) && k < n < |trace| && Requests(trace[k], room, p)
    requires Undisturbed(trace, k, n, room, p.frameHash) && forall j :: k < j < n ==> !ExecutesId(trace[j], room, p.id)
    requires a != b && VoteStands(trace, k, n, room, p.id, p.digest, a)
    requires VoteStands(trace, k, n, room, p.id, p.digest, b)
    requires room in trace[n].before && AsksInTime(trace[n], room, p.id, p.digest)
    requires forall v :: VoteStands(trace, k, n, room, p.id, p.digest, v) ==> v in trace[n].event.who.operators
    ensures Accepted(trace[n]) && trace[n].reply.value.execute == Some(done)
    ensures SameRequest(done, p) && done.consumed && a in done.approvals && b in done.approvals
  {
    var q := RequestStandsInRun(trace, k, n, room, p);
    RunKeepsTable(trace, n);
    RunKeepsDistinctIds(trace, n - 1, room);
    VotersStand(trace, k, n, room, q);
    TwoVotes(q.approvals, a, b);
    done := Executed(trace[n], room, q);
  }

  /** An open request with two votes, all of people who may operate, is executed by a timely Consume. */
  lemma Executed(m: Moment, room: Id, q: Proposal) returns (done: Proposal)
    requires Faithful(m) && TableOk(m.before) && room in m.before && AsksInTime(m, room, q.id, q.digest)
    requires q in m.before[room].proposals && !q.consumed && DistinctIds(m.before[room].proposals)
    requires |q.approvals| >= 2 && forall v :: v in q.approvals ==> v in m.event.who.operators
    ensures Accepted(m) && done == q.(consumed := true) && m.reply.value.execute == Some(done)
  {
    var s := FoundRoom(m);
    assert s == m.before[room];
    var i :| 0 <= i < |s.proposals| && s.proposals[i] == q;
    MeansThis(s.proposals, i);
    assert ProposalOk(s, q) && LeaseOk(s);
    ConsumeExactly(m, s);
    done := q.(consumed := true);
  }

  lemma TwoVotes(approvals: seq<Actor>, a: Actor, b: Actor)
    requires a in approvals && b in approvals && a != b
    ensures |approvals| >= 2
  {
  }

  /** Every stored vote was cast since the request and still stands. */
  lemma VotersStand(trace: seq<Moment>, k: nat, n: nat, room: Id, q: Proposal)
    requires Run(trace) && FreshIds(trace) && k < n < |trace| && trace[k].event.Request? && trace[k].event.uuid == q.id
    requires room in trace[n].before && q in trace[n].before[room].proposals
    ensures forall v :: v in q.approvals ==> VoteStands(trace, k, n, room, q.id, q.digest, v)
  {
    var i := StoredProposalIsBacked(trace, n - 1, room, q);
    assert trace[i].event.uuid == q.id;
  }
}
