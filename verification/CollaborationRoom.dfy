/** The co-working room protocol: the value a room is stored as, and what one command does to the table of rooms. */
module CollaborationRoom {
  import opened Characters
  import opened Outcomes

  type Actor = string
  type Id = nat

  const MAX_MEMBERS := 16
  const MAX_ROOMS := 32
  const MAX_ANNOTATIONS := 64
  const MAX_PROPOSALS := 16
  const MAX_COORDINATE := 10000
  const ROOM_SECONDS := 30
  const LEASE_SECONDS := 20

  datatype Role = Viewer | Operator | Admin

  datatype SharedKey = Enter | Tab | Escape | Up | Down | Left | Right | Home | End | PageUp | PageDown | F5

  datatype Frame = Frame(width: nat, height: nat, rgb: seq<nat>, sourceHash: nat)

  datatype Annotation = Annotation(actor: Actor, x: nat, y: nat, text: string)

  datatype Lease = Lease(actor: Actor, generation: nat, expires: int)

  /** SHA-256 over the separated fields, taken to be injective. */
  datatype Digest =
    Digest(room: Id, proposal: Id, session: Id, generation: nat, frameHash: nat, x: nat, y: nat, key: Option<SharedKey>)

  datatype Proposal = Proposal(
    key: Option<SharedKey>, id: Id, digest: Digest, session: Id, generation: nat, frameHash: nat,
    x: nat, y: nat, approvals: seq<Actor>, consumed: bool)

  datatype Room = Room(
    id: Id, owner: Actor, session: Id, members: seq<Actor>, expires: int, generation: nat,
    lease: Option<Lease>, frame: Option<Frame>, annotations: seq<Annotation>, proposals: seq<Proposal>)

  datatype Command =
    | Create(session: Id, members: seq<Actor>)
    | Poll(room: Id)
    | Close(room: Id)
    | Leave(room: Id)
    | Publish(room: Id, frame: Frame)
    | Annotate(room: Id, x: nat, y: nat, text: string)
    | Grant(room: Id, actor: Actor)
    | Revoke(room: Id)
    | Propose(key: Option<SharedKey>, room: Id, generation: nat, frameHash: nat, x: nat, y: nat)
    | Approve(room: Id, id: Id, digest: Digest)
    | Consume(room: Id, id: Id, digest: Digest)

  datatype Reply = Reply(room: Option<Room>, execute: Option<Proposal>)

  datatype Rejection =
    | OperatorRequired | InvalidMembership | RoomLimit | RoomUnavailable | MembershipRequired | OwnerRequired
    | InvalidFrame | InvalidAnnotation | LeaseRequired | StaleTarget | RequestUnavailable | VotesOrTargetStale
    | ApproverLeftRoom | ApproverRevoked

  /** What the identity store answers while one command runs: who may operate, and who holds a live operator token. */
  datatype Identity = Identity(operators: set<Actor>, tokenHolders: set<Actor>)

  /** The table of rooms after a command, and the command's answer. */
  datatype Step = Step(rooms: map<Id, Room>, reply: Result<Reply, Rejection>)

  /** What an accepted command does to its room. */
  datatype Effect =
    | Rejected(why: Rejection)
    | Removed
    | Departed(room: Room)
    | Updated(room: Room, execute: Option<Proposal>)

  // ---- Text limits

  predicate Printable(s: string, max: nat) { !Blank(s) && |s| <= max && NoControls(s) }

  // ---- Pieces of a step

  function Without(actors: seq<Actor>, gone: Actor): (rest: seq<Actor>)
    ensures forall a :: a in rest <==> a in actors && a != gone
    ensures |rest| <= |actors|
  {
    if actors == [] then []
    else if actors[0] == gone then Without(actors[1..], gone)
    else [actors[0]] + Without(actors[1..], gone)
  }

  function Withdrawn(p: Proposal, gone: Actor): Proposal {
    p.(approvals := Without(p.approvals, gone))
  }

  function WithdrawnAll(proposals: seq<Proposal>, gone: Actor): (rest: seq<Proposal>)
    ensures |rest| == |proposals|
    ensures forall i :: 0 <= i < |rest| ==> rest[i] == Withdrawn(proposals[i], gone)
  {
    seq(|proposals|, i requires 0 <= i < |proposals| => Withdrawn(proposals[i], gone))
  }

  /** The room without its lease and everything that depended on it. */
  function LeaseLost(r: Room): Room {
    r.(generation := r.generation + 1, lease := None, proposals := [])
  }

  /** A lease is dropped when it has expired or its holder has no live operator token. */
  function Settled(r: Room, who: Identity, now: int): Room {
    if r.lease.Some? && (r.lease.value.actor !in who.tokenHolders || r.lease.value.expires <= now) then LeaseLost(r)
    else r
  }

  function WithoutMember(r: Room, gone: Actor): Room {
    var left := r.(members := Without(r.members, gone), proposals := WithdrawnAll(r.proposals, gone));
    if left.lease.Some? && left.lease.value.actor == gone then LeaseLost(left) else left
  }

  /** Revoking any token of `gone` ends their lease and withdraws their votes. */
  function WithoutIdentity(r: Room, gone: Actor): Room {
    var kept := if r.lease.Some? && r.lease.value.actor == gone then LeaseLost(r) else r;
    kept.(proposals := WithdrawnAll(kept.proposals, gone))
  }

  predicate ValidFrame(f: Frame) {
    0 < f.width <= 640 && 0 < f.height <= 360 && |f.rgb| == f.width * f.height * 3
  }

  predicate ShowsHash(r: Room, hash: nat) {
    r.frame.Some? && r.frame.value.sourceHash == hash
  }

  /** The index of the first unconsumed proposal with this id and digest, or the number of proposals. */
  function FindRequest(proposals: seq<Proposal>, id: Id, digest: Digest): (i: nat)
    ensures i <= |proposals|
    ensures i < |proposals| ==> proposals[i].id == id && proposals[i].digest == digest && !proposals[i].consumed
    ensures forall k :: 0 <= k < i ==>
      !(proposals[k].id == id && proposals[k].digest == digest && !proposals[k].consumed)
  {
    if proposals == [] || (proposals[0].id == id && proposals[0].digest == digest && !proposals[0].consumed) then 0
    else 1 + FindRequest(proposals[1..], id, digest)
  }

  predicate MayVote(r: Room, a: Actor) { a == r.owner || a in r.members }

  /** The first reason, in voting order, why a counted vote no longer stands. */
  function Objection(r: Room, approvals: seq<Actor>, who: Identity): (why: Option<Rejection>)
    ensures why.None? <==> forall a :: a in approvals ==> MayVote(r, a) && a in who.operators
    ensures why == Some(ApproverLeftRoom) ==> exists a :: a in approvals && !MayVote(r, a)
  {
    if approvals == [] then None
    else if !MayVote(r, approvals[0]) then Some(ApproverLeftRoom)
    else if approvals[0] !in who.operators then Some(ApproverRevoked)
    else Objection(r, approvals[1..], who)
  }

  // ---- One command on one room

  function Published(r: Room, frame: Frame): Room {
    var stale := r.frame.Some? && r.frame.value.sourceHash != frame.sourceHash;
    r.(frame := Some(frame),
       proposals := if stale then [] else r.proposals,
       annotations := if stale then [] else r.annotations)
  }

  function Annotated(r: Room, note: Annotation): Room {
    var kept := if |r.annotations| >= MAX_ANNOTATIONS then r.annotations[1..] else r.annotations;
    r.(annotations := kept + [note])
  }

  function Granted(r: Room, target: Actor, now: int): Room {
    r.(generation := r.generation + 1,
       proposals := [],
       lease := Some(Lease(target, r.generation + 1, now + LEASE_SECONDS)))
  }

  function NewProposal(r: Room, uuid: Id, c: Command): Proposal
    requires c.Propose?
  {
    Proposal(c.key, uuid, Digest(r.id, uuid, r.session, c.generation, c.frameHash, c.x, c.y, c.key),
             r.session, c.generation, c.frameHash, c.x, c.y, [], false)
  }

  predicate HoldsLease(r: Room, actor: Actor, generation: nat, now: int) {
    r.lease.Some? && r.lease.value.actor == actor && r.lease.value.generation == generation
      && r.lease.value.expires > now
  }

  function ProposeEffect(r: Room, actor: Actor, role: Role, c: Command, now: int, uuid: Id): Effect
    requires c.Propose?
  {
    if role.Viewer? || !HoldsLease(r, actor, c.generation, now) then Rejected(LeaseRequired)
    else if c.x > MAX_COORDINATE || c.y > MAX_COORDINATE || !ShowsHash(r, c.frameHash)
      || |r.proposals| >= MAX_PROPOSALS then
      Rejected(StaleTarget)
    else Updated(r.(proposals := r.proposals + [NewProposal(r, uuid, c)]), None)
  }

  function ApproveEffect(r: Room, actor: Actor, id: Id, digest: Digest): Effect {
    var i := FindRequest(r.proposals, id, digest);
    if i == |r.proposals| then Rejected(RequestUnavailable)
    else
      var p := r.proposals[i];
      var voted := if actor in p.approvals then p else p.(approvals := p.approvals + [actor]);
      Updated(r.(proposals := r.proposals[i := voted]), None)
  }

  function ConsumeEffect(r: Room, id: Id, digest: Digest, who: Identity, now: int): Effect {
    var i := FindRequest(r.proposals, id, digest);
    if i == |r.proposals| then Rejected(RequestUnavailable)
    else
      var p := r.proposals[i];
      if |p.approvals| < 2
         || !(r.lease.Some? && r.lease.value.generation == p.generation && r.lease.value.expires > now)
         || !ShowsHash(r, p.frameHash) then Rejected(VotesOrTargetStale)
      else
        var objection := Objection(r, p.approvals, who);
        if objection.Some? then Rejected(objection.value)
        else Updated(r.(proposals := r.proposals[i := p.(consumed := true)]), Some(p.(consumed := true)))
  }

  /** What a command other than Create does to the settled room `r`. */
  function Acted(r: Room, actor: Actor, role: Role, c: Command, now: int, who: Identity, uuid: Id): Effect
    requires !c.Create?
  {
    var owner := r.owner == actor;
    match c
    case Poll(_) => Updated(r, None)
    case Close(_) => if owner then Removed else Rejected(OwnerRequired)
    case Leave(_) => if owner then Removed else Departed(WithoutMember(r, actor))
    case Publish(_, frame) =>
      if !owner then Rejected(OwnerRequired)
      else if !ValidFrame(frame) then Rejected(InvalidFrame)
      else Updated(Published(r, frame), None)
    case Annotate(_, x, y, text) =>
      if x > MAX_COORDINATE || y > MAX_COORDINATE || !Printable(text, 200) then Rejected(InvalidAnnotation)
      else Updated(Annotated(r, Annotation(actor, x, y, text)), None)
    case Grant(_, target) =>
      if !owner then Rejected(OwnerRequired)
      else if target !in r.members then Rejected(MembershipRequired)
      else if target !in who.operators then Rejected(OperatorRequired)
      else Updated(Granted(r, target, now), None)
    case Revoke(_) => if owner then Updated(LeaseLost(r), None) else Rejected(OwnerRequired)
    case Propose(_, _, _, _, _, _) => ProposeEffect(r, actor, role, c, now, uuid)
    case Approve(_, id, digest) => if role.Viewer? then Rejected(OperatorRequired)
      else ApproveEffect(r, actor, id, digest)
    case Consume(_, id, digest) => if owner then ConsumeEffect(r, id, digest, who, now) else Rejected(OwnerRequired)
  }

  // ---- One command on the table of rooms

  /** Expired rooms are deleted before any command that passes the role check. */
  function Live(rooms: map<Id, Room>, now: int): map<Id, Room> {
    map id | id in rooms && rooms[id].expires > now :: rooms[id]
  }

  function Created(rooms: map<Id, Room>, actor: Actor, c: Command, now: int, uuid: Id): Step
    requires c.Create?
  {
    if |c.members| > MAX_MEMBERS || exists m :: m in c.members && !Printable(m, 100) then
      Step(rooms, Err(InvalidMembership))
    else if |rooms| >= MAX_ROOMS then Step(rooms, Err(RoomLimit))
    else
      var r := Room(uuid, actor, c.session, c.members, now + ROOM_SECONDS, 0, None, None, [], []);
      Step(rooms[uuid := r], Ok(Reply(Some(r), None)))
  }

  function Saved(rooms: map<Id, Room>, id: Id, owner: bool, now: int, effect: Effect): Step {
    match effect
    case Rejected(why) => Step(rooms, Err(why))
    case Removed => Step(rooms - {id}, Ok(Reply(None, None)))
    case Departed(r) => Step(rooms[id := r], Ok(Reply(None, None)))
    case Updated(r, execute) =>
      var kept := if owner then r.(expires := now + ROOM_SECONDS) else r;
      Step(rooms[id := kept], Ok(Reply(Some(kept), execute)))
  }

  predicate ViewerMay(c: Command) { c.Poll? || c.Annotate? || c.Leave? }

  /** A command on an existing room, once expired rooms are gone. */
  function AppliedToRoom(live: map<Id, Room>, actor: Actor, role: Role, c: Command, now: int, who: Identity,
      uuid: Id): Step
    requires !c.Create?
  {
    if c.room !in live then Step(live, Err(RoomUnavailable))
    else if !MayVote(live[c.room], actor) then Step(live, Err(MembershipRequired))
    else
      var r := Settled(live[c.room], who, now);
      Saved(live, c.room, r.owner == actor, now, Acted(r, actor, role, c, now, who, uuid))
  }

  function Applied(rooms: map<Id, Room>, actor: Actor, role: Role, c: Command, now: int, who: Identity,
      uuid: Id): Step {
    if role.Viewer? && !ViewerMay(c) then Step(rooms, Err(OperatorRequired))
    else if c.Create? then Created(Live(rooms, now), actor, c, now, uuid)
    else AppliedToRoom(Live(rooms, now), actor, role, c, now, who, uuid)
  }

  /** The table after any token of `actor` was revoked: their rooms go, their leases end, their votes are withdrawn. */
  function Invalidated(rooms: map<Id, Room>, actor: Actor): map<Id, Room> {
    map id | id in rooms && rooms[id].owner != actor :: WithoutIdentity(rooms[id], actor)
  }
}
