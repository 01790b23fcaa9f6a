/**
 * The prepare/apply/restore journal over one target. Every call to the target or the journal may be preceded by an
 * outside write, and may be lost before or after it took effect: losing a call ends the operation, as a crash would.
 */
module ChangeJournal {
  import opened Outcomes

  type Bytes = seq<int>
  type Id = nat

  const CONTENT_LIMIT := 1048576
  const ENTRY_LIMIT := 128

  datatype Phase = Prepared | Applied | RestorePending | Restored

  /** The security of a file and of its parent directory at snapshot time. */
  datatype FileContext = FileContext(file: nat, parent: nat)

  /**
   * `file` is set for plain file targets, where a deletion can be undone; registry values and permissions are not
   * files.
   */
  datatype Entry = Entry(id: Id, file: bool, phase: Phase, before: Bytes, after: Bytes, context: Option<FileContext>)

  datatype Failure =
    | CallLost | TargetAbsent | Conflict | NotPrepared | AlreadyRestored | NoSnapshot | Unverified | NoChange
    | TooLarge | JournalFull

  datatype Fate = Works | LostBefore | LostAfter

  /** What happens around one call: a write by someone else just before it, and the fate of the call itself. */
  datatype Call = Call(outside: Option<Outside>, fate: Fate)

  datatype Outside = Outside(target: Option<Bytes>, context: FileContext)

  /** One write of this program: the content it replaced and the content it left. */
  datatype Write = Write(replaced: Option<Bytes>, written: Bytes)

  datatype State = State(
    target: Option<Bytes>, context: FileContext, journal: map<Id, Entry>, writes: seq<Write>, calls: seq<Call>)

  // ---- Single calls

  function Arrived(s: State): State {
    if s.calls == [] then s
    else
      var rest := s.(calls := s.calls[1..]);
      if s.calls[0].outside.None? then rest
      else rest.(target := s.calls[0].outside.value.target, context := s.calls[0].outside.value.context)
  }

  function FateOf(s: State): Fate {
    if s.calls == [] then Works else s.calls[0].fate
  }

  function Read(s: State): (State, Result<Bytes, Failure>) {
    var t := Arrived(s);
    (t, if FateOf(s) != Works then Err(CallLost) else if t.target.None? then Err(TargetAbsent) else Ok(t.target.value))
  }

  function IsMissing(s: State): (State, Result<bool, Failure>) {
    var t := Arrived(s);
    (t, if FateOf(s) != Works then Err(CallLost) else Ok(t.target.None?))
  }

  function ReadContext(s: State): (State, Result<FileContext, Failure>) {
    var t := Arrived(s);
    (t, if FateOf(s) != Works then Err(CallLost) else if t.target.None? then Err(TargetAbsent) else Ok(t.context))
  }

  function Written(s: State, bytes: Bytes): State {
    s.(target := Some(bytes), writes := s.writes + [Write(s.target, bytes)])
  }

  /** Compares the exact current bytes before replacing them. */
  function Replace(s: State, expected: Bytes, replacement: Bytes): (State, Result<Bytes, Failure>) {
    var t := Arrived(s);
    if FateOf(s).LostBefore? then (t, Err(CallLost))
    else if t.target != Some(expected) then (t, Err(Conflict))
    else (Written(t, replacement), if FateOf(s).LostAfter? then Err(CallLost) else Ok(replacement))
  }

  /** Recreates a deleted file under an unchanged parent. */
  function RestoreDeleted(s: State, bytes: Bytes, context: FileContext): (State, Result<Bytes, Failure>) {
    var t := Arrived(s);
    if FateOf(s).LostBefore? then (t, Err(CallLost))
    else if t.target.Some? || t.context.parent != context.parent then (t, Err(Conflict))
    else (Written(t, bytes), if FateOf(s).LostAfter? then Err(CallLost) else Ok(bytes))
  }

  /** Both recorded contents are within the bound. */
  predicate Fits(e: Entry) { |e.before| <= CONTENT_LIMIT && |e.after| <= CONTENT_LIMIT }

  /** An entry the journal already holds may be rewritten even when the journal is full. */
  predicate HasRoom(s: State, id: Id) { id in s.journal || |s.journal| < ENTRY_LIMIT }

  function Persist(s: State, e: Entry): (State, Result<(), Failure>) {
    var t := Arrived(s);
    if FateOf(s).LostBefore? then (t, Err(CallLost))
    else if !Fits(e) then (t, Err(TooLarge))
    else if !HasRoom(t, e.id) then (t, Err(JournalFull))
    else (t.(journal := t.journal[e.id := e]), if FateOf(s).LostAfter? then Err(CallLost) else Ok(()))
  }

  // ---- Operations

  /** The review conditions Apply repeats: the target and its permissions are as recorded. */
  function Reviewed(s: State, e: Entry): (State, Result<(), Failure>) {
    if e.phase != Prepared then (s, Err(NotPrepared))
    else
      var (t, current) := Read(s);
      if current.Err? then (t, Err(current.error))
      else if current.value != e.before then (t, Err(Conflict))
      else if e.context.None? then (t, Ok(()))
      else
        var (u, context) := ReadContext(t);
        if context.Err? then (u, Err(context.error))
        else if Some(context.value) != e.context then (u, Err(Conflict))
        else (u, Ok(()))
  }

  function Committed(s: State, e: Entry): (State, Result<Entry, Failure>) {
    var (t, journaled) := Persist(s, e);
    if journaled.Err? then (t, Err(journaled.error))
    else
      var (u, observed) := Replace(t, e.before, e.after);
      if observed.Err? then (u, Err(observed.error))
      else if observed.value != e.after then (u, Err(Unverified))
      else
        var done := e.(phase := Applied);
        var (v, finished) := Persist(u, done);
        (v, if finished.Err? then Err(finished.error) else Ok(done))
  }

  function AppliedChange(s: State, e: Entry): (State, Result<Entry, Failure>) {
    var (t, reviewed) := Reviewed(s, e);
    if reviewed.Err? then (t, Err(reviewed.error)) else Committed(t, e)
  }

  function Finished(s: State, e: Entry): (State, Result<Entry, Failure>) {
    var done := e.(phase := Restored);
    var (t, finished) := Persist(s, done);
    (t, if finished.Err? then Err(finished.error) else Ok(done))
  }

  function RecreatedFile(s: State, e: Entry): (State, Result<Entry, Failure>) {
    if e.context.None? then (s, Err(NoSnapshot))
    else
      var pending := e.(phase := RestorePending);
      var (t, journaled) := Persist(s, pending);
      if journaled.Err? then (t, Err(journaled.error))
      else
        var (u, observed) := RestoreDeleted(t, e.before, e.context.value);
        if observed.Err? then (u, Err(observed.error))
        else if observed.value != e.before then (u, Err(Unverified))
        else Finished(u, pending)
  }

  function RestoredContent(s: State, e: Entry): (State, Result<Entry, Failure>) {
    var (t, current) := Read(s);
    if current.Err? then (t, Err(current.error))
    else if current.value == e.before then Finished(t, e)
    else if current.value != e.after then (t, Err(Conflict))
    else
      var pending := e.(phase := RestorePending);
      var (u, journaled) := Persist(t, pending);
      if journaled.Err? then (u, Err(journaled.error))
      else
        var (v, observed) := Replace(u, e.after, e.before);
        if observed.Err? then (v, Err(observed.error))
        else if observed.value != e.before then (v, Err(Unverified))
        else Finished(v, pending)
  }

  function RestoredChange(s: State, e: Entry): (State, Result<Entry, Failure>) {
    if e.phase == Restored then (s, Err(AlreadyRestored))
    else if !e.file then RestoredContent(s, e)
    else
      var (t, missing) := IsMissing(s);
      if missing.Err? then (t, Err(missing.error))
      else if missing.value then RecreatedFile(t, e)
      else RestoredContent(t, e)
  }

  /** A fresh entry for an existing target whose content would change. */
  function PreparedChange(s: State, id: Id, file: bool, after: Bytes): (State, Result<Entry, Failure>) {
    var (t, before) := Read(s);
    if |after| > CONTENT_LIMIT then (s, Err(TooLarge))
    else if before.Err? then (t, Err(before.error))
    else if |before.value| > CONTENT_LIMIT then (t, Err(TooLarge))
    else if !file then
      (t, if before.value == after then Err(NoChange) else Ok(Entry(id, file, Prepared, before.value, after, None)))
    else
      var (u, context) := ReadContext(t);
      (u, if context.Err? then Err(context.error)
          else if before.value == after then Err(NoChange)
          else Ok(Entry(id, file, Prepared, before.value, after, Some(context.value))))
  }

  // ---- The operations in place

  class Machine {
    var target: Option<Bytes>
    var context: FileContext
    var journal: map<Id, Entry>
    var writes: seq<Write>
    var calls: seq<Call>

    constructor (s: State)
      ensures Now() == s
    {
      target, context, journal, writes, calls := s.target, s.context, s.journal, s.writes, s.calls;
    }

    function Now(): State
      reads this
    {
      State(target, context, journal, writes, calls)
    }

    method Arrive() returns (fate: Fate)
      modifies this
      ensures Now() == Arrived(old(Now())) && fate == FateOf(old(Now()))
    {
      fate := Works;
      if calls != [] {
        fate := calls[0].fate;
        if calls[0].outside.Some? {
          target, context := calls[0].outside.value.target, calls[0].outside.value.context;
        }
        calls := calls[1..];
      }
    }

    method ReadTarget() returns (r: Result<Bytes, Failure>)
      modifies this
      ensures (Now(), r) == Read(old(Now()))
    {
      var fate := Arrive();
      if fate != Works { return Err(CallLost); }
      if target.None? { return Err(TargetAbsent); }
      return Ok(target.value);
    }

    method CheckMissing() returns (r: Result<bool, Failure>)
      modifies this
      ensures (Now(), r) == IsMissing(old(Now()))
    {
      var fate := Arrive();
      if fate != Works { return Err(CallLost); }
      return Ok(target.None?);
    }

    method ReadFileContext() returns (r: Result<FileContext, Failure>)
      modifies this
      ensures (Now(), r) == ReadContext(old(Now()))
    {
      var fate := Arrive();
      if fate != Works { return Err(CallLost); }
      if target.None? { return Err(TargetAbsent); }
      return Ok(context);
    }

    method ReplaceTarget(expected: Bytes, replacement: Bytes) returns (r: Result<Bytes, Failure>)
      modifies this
      ensures (Now(), r) == Replace(old(Now()), expected, replacement)
    {
      var fate := Arrive();
      if fate == LostBefore { return Err(CallLost); }
      if target != Some(expected) { return Err(Conflict); }
      writes := writes + [Write(target, replacement)];
      target := Some(replacement);
      if fate == LostAfter { return Err(CallLost); }
      return Ok(replacement);
    }

    method RecreateTarget(bytes: Bytes, wanted: FileContext) returns (r: Result<Bytes, Failure>)
      modifies this
      ensures (Now(), r) == RestoreDeleted(old(Now()), bytes, wanted)
    {
      var fate := Arrive();
      if fate == LostBefore { return Err(CallLost); }
      if target.Some? || context.parent != wanted.parent { return Err(Conflict); }
      writes := writes + [Write(target, bytes)];
      target := Some(bytes);
      if fate == LostAfter { return Err(CallLost); }
      return Ok(bytes);
    }

    method PersistEntry(e: Entry) returns (r: Result<(), Failure>)
      modifies this
      ensures (Now(), r) == Persist(old(Now()), e)
    {
      var fate := Arrive();
      if fate == LostBefore { return Err(CallLost); }
      if |e.before| > CONTENT_LIMIT || |e.after| > CONTENT_LIMIT { return Err(TooLarge); }
      if e.id !in journal && |journal| >= ENTRY_LIMIT { return Err(JournalFull); }
      journal := journal[e.id := e];
      if fate == LostAfter { return Err(CallLost); }
      return Ok(());
    }

    method Review(entry: Entry) returns (r: Result<(), Failure>)
      modifies this
      ensures (Now(), r) == Reviewed(old(Now()), entry)
    {
      if entry.phase != Prepared { return Err(NotPrepared); }
      var current := ReadTarget();
      if current.Err? { return Err(current.error); }
      if current.value != entry.before { return Err(Conflict); }
      if entry.context.Some? {
        var seen := ReadFileContext();
        if seen.Err? { return Err(seen.error); }
        if Some(seen.value) != entry.context { return Err(Conflict); }
      }
      return Ok(());
    }

    method Apply(prepared: Entry) returns (r: Result<Entry, Failure>)
      modifies this
      ensures (Now(), r) == AppliedChange(old(Now()), prepared)
    {
      var entry := prepared;
      var reviewed := Review(entry);
      if reviewed.Err? { return Err(reviewed.error); }
      var journaled := PersistEntry(entry);
      if journaled.Err? { return Err(journaled.error); }
      var observed := ReplaceTarget(entry.before, entry.after);
      if observed.Err? { return Err(observed.error); }
      if observed.value != entry.after { return Err(Unverified); }
      entry := entry.(phase := Applied);
      var finished := PersistEntry(entry);
      if finished.Err? { return Err(finished.error); }
      return Ok(entry);
    }

    method Restore(journaled: Entry) returns (r: Result<Entry, Failure>)
      modifies this
      ensures (Now(), r) == RestoredChange(old(Now()), journaled)
    {
      var entry := journaled;
      if entry.phase == Restored { return Err(AlreadyRestored); }
      if entry.file {
        var missing := CheckMissing();
        if missing.Err? { return Err(missing.error); }
        if missing.value {
          r := Recreate(entry);
          return;
        }
      }
      r := RestoreContent(entry);
    }

    method Recreate(missing: Entry) returns (r: Result<Entry, Failure>)
      modifies this
      ensures (Now(), r) == RecreatedFile(old(Now()), missing)
    {
      var entry := missing;
      if entry.context.None? { return Err(NoSnapshot); }
      entry := entry.(phase := RestorePending);
      var pending := PersistEntry(entry);
      if pending.Err? { return Err(pending.error); }
      var observed := RecreateTarget(entry.before, entry.context.value);
      if observed.Err? { return Err(observed.error); }
      if observed.value != entry.before { return Err(Unverified); }
      entry := entry.(phase := Restored);
      var finished := PersistEntry(entry);
      if finished.Err? { return Err(finished.error); }
      return Ok(entry);
    }

    method RestoreContent(present: Entry) returns (r: Result<Entry, Failure>)
      modifies this
      ensures (Now(), r) == RestoredContent(old(Now()), present)
    {
      var entry := present;
      var current := ReadTarget();
      if current.Err? { return Err(current.error); }
      if current.value != entry.before {
        if current.value != entry.after { return Err(Conflict); }
        entry := entry.(phase := RestorePending);
        var pending := PersistEntry(entry);
        if pending.Err? { return Err(pending.error); }
        var observed := ReplaceTarget(entry.after, entry.before);
        if observed.Err? { return Err(observed.error); }
        if observed.value != entry.before { return Err(Unverified); }
      }
      entry := entry.(phase := Restored);
      var finished := PersistEntry(entry);
      if finished.Err? { return Err(finished.error); }
      return Ok(entry);
    }
  }
}
