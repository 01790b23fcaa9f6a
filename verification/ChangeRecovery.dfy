/** Recovery from crashes and interference, over any sequence of applies and restores of one prepared change. */
module ChangeRecovery {
  import opened Outcomes
  import opened ChangeJournal

  /** Apply is called with the prepared entry, Restore with the journaled one; each with the fate of its own calls. */
  datatype Operation = ApplyIt(calls: seq<Call>) | RestoreIt(calls: seq<Call>)

  function Performed(s: State, e: Entry, op: Operation): State {
    var t := s.(calls := op.calls);
    match op
    case ApplyIt(_) => AppliedChange(t, e).0
    case RestoreIt(_) => if e.id in t.journal then RestoredChange(t, t.journal[e.id]).0 else t
  }

  function PerformedAll(s: State, e: Entry, ops: seq<Operation>): State
    decreases |ops|
  {
    if ops == [] then s else PerformedAll(Performed(s, e, ops[0]), e, ops[1..])
  }

  ghost predicate SameChange(a: Entry, e: Entry) {
    a == e.(phase := a.phase)
  }

  /** The journal knows the change only as prepared, whatever its phase; other entries are left alone. */
  ghost predicate JournalOf(s: State, e: Entry) {
    e.id in s.journal ==> SameChange(s.journal[e.id], e)
  }

  // ---- Every write is one of the change's own

  /** The only contents this program ever replaces: the recorded before by after, after by before, nothing by before. */
  ghost predicate OwnWrite(w: Write, e: Entry) {
    || w == Write(Some(e.before), e.after)
    || w == Write(Some(e.after), e.before)
    || (e.file && w == Write(None, e.before))
  }

  ghost predicate OwnWritesSince(s: State, t: State, e: Entry) {
    && |s.writes| <= |t.writes| && t.writes[..|s.writes|] == s.writes
    && (forall i :: |s.writes| <= i < |t.writes| ==> OwnWrite(t.writes[i], e))
    && (|t.writes| > |s.writes| ==> e.id in t.journal)
    && (e.id in s.journal ==> e.id in t.journal)
    && JournalOf(t, e)
    && forall id :: id != e.id ==>
         (id in t.journal <==> id in s.journal) && (id in s.journal ==> t.journal[id] == s.journal[id])
  }

  lemma Chained(s: State, t: State, u: State, e: Entry)
    requires OwnWritesSince(s, t, e) && OwnWritesSince(t, u, e)
    ensures OwnWritesSince(s, u, e)
  {
    assert u.writes[..|s.writes|] == t.writes[..|s.writes|];
    forall i | |s.writes| <= i < |u.writes|
      ensures OwnWrite(u.writes[i], e)
    {
      if i < |t.writes| {
        assert u.writes[i] == u.writes[..|t.writes|][i];
      }
    }
  }

  lemma ReplaceWrites(s: State, e: Entry, expected: Bytes, replacement: Bytes)
    requires JournalOf(s, e) && e.id in s.journal
    requires (expected == e.before && replacement == e.after) || (expected == e.after && replacement == e.before)
    ensures OwnWritesSince(s, Replace(s, expected, replacement).0, e)
  {
  }

  lemma PersistWrites(s: State, e: Entry, a: Entry)
    requires JournalOf(s, e) && SameChange(a, e)
    ensures OwnWritesSince(s, Persist(s, a).0, e)
    ensures Persist(s, a).1.Ok? ==> e.id in Persist(s, a).0.journal
  {
  }

  lemma ApplyWrites(s: State, e: Entry)
    requires JournalOf(s, e)
    ensures OwnWritesSince(s, AppliedChange(s, e).0, e)
  {
    var (t, reviewed) := Reviewed(s, e);
    assert OwnWritesSince(s, t, e);
    if reviewed.Ok? {
      CommitWrites(t, e);
      Chained(s, t, Committed(t, e).0, e);
    }
  }

  lemma CommitWrites(s: State, e: Entry)
    requires JournalOf(s, e)
    ensures OwnWritesSince(s, Committed(s, e).0, e)
  {
    var (t, journaled) := Persist(s, e);
    PersistWrites(s, e, e);
    if journaled.Ok? {
      var (u, observed) := Replace(t, e.before, e.after);
      ReplaceWrites(t, e, e.before, e.after);
      Chained(s, t, u, e);
      if observed.Ok? {
        PersistWrites(u, e, e.(phase := Applied));
        Chained(s, u, Persist(u, e.(phase := Applied)).0, e);
      }
    }
  }

  lemma RestoreContentWrites(s: State, e: Entry, a: Entry)
    requires SameChange(a, e) && JournalOf(s, e) && e.id in s.journal
    ensures OwnWritesSince(s, RestoredContent(s, a).0, e)
  {
    var (t, current) := Read(s);
    assert OwnWritesSince(s, t, e);
    if current.Ok? && current.value == a.before {
      PersistWrites(t, e, a.(phase := Restored));
      Chained(s, t, Finished(t, a).0, e);
    } else if current.Ok? && current.value == a.after {
      UndoWrites(t, e, a);
      Chained(s, t, RestoredContent(s, a).0, e);
    }
  }

  lemma UndoWrites(s: State, e: Entry, a: Entry)
    requires SameChange(a, e) && JournalOf(s, e) && e.id in s.journal
    ensures var pending := a.(phase := RestorePending);
      var (t, journaled) := Persist(s, pending);
      var (u, observed) := Replace(t, a.after, a.before);
      OwnWritesSince(s, t, e) && OwnWritesSince(s, u, e) && OwnWritesSince(s, Finished(u, pending).0, e)
  {
    var pending := a.(phase := RestorePending);
    var t := Persist(s, pending).0;
    PersistWrites(s, e, pending);
    var u := Replace(t, a.after, a.before).0;
    ReplaceWrites(t, e, a.after, a.before);
    Chained(s, t, u, e);
    PersistWrites(u, e, pending.(phase := Restored));
    Chained(s, u, Finished(u, pending).0, e);
  }

  lemma RecreateWrites(s: State, e: Entry, a: Entry)
    requires SameChange(a, e) && JournalOf(s, e) && e.id in s.journal && e.file
    ensures OwnWritesSince(s, RecreatedFile(s, a).0, e)
  {
    if a.context.Some? {
      var pending := a.(phase := RestorePending);
      var t := Persist(s, pending).0;
      PersistWrites(s, e, pending);
      RecreateThenFinish(t, e, pending);
      var u := RestoreDeleted(t, a.before, a.context.value).0;
      Chained(s, t, u, e);
      Chained(s, t, Finished(u, pending).0, e);
    }
  }

  lemma RecreateThenFinish(t: State, e: Entry, pending: Entry)
    requires SameChange(pending, e) && JournalOf(t, e) && e.id in t.journal && e.file && pending.context.Some?
    ensures var u := RestoreDeleted(t, pending.before, pending.context.value).0;
      OwnWritesSince(t, u, e) && OwnWritesSince(t, Finished(u, pending).0, e)
  {
    var u := RestoreDeleted(t, pending.before, pending.context.value).0;
    assert OwnWritesSince(t, u, e);
    PersistWrites(u, e, pending.(phase := Restored));
    Chained(t, u, Finished(u, pending).0, e);
  }

  lemma RestoreWrites(s: State, e: Entry, a: Entry)
    requires SameChange(a, e) && JournalOf(s, e) && e.id in s.journal
    ensures OwnWritesSince(s, RestoredChange(s, a).0, e)
  {
    if a.file {
      var (t, missing) := IsMissing(s);
      assert OwnWritesSince(s, t, e);
      if missing.Ok? && missing.value {
        RecreateWrites(t, e, a);
      } else if missing.Ok? {
        RestoreContentWrites(t, e, a);
      }
      Chained(s, t, RestoredChange(s, a).0, e);
    } else {
      RestoreContentWrites(s, e, a);
    }
  }

  lemma OperationWrites(s: State, e: Entry, op: Operation)
    requires JournalOf(s, e)
    ensures OwnWritesSince(s, Performed(s, e, op), e)
  {
    var t := s.(calls := op.calls);
    match op
    case ApplyIt(_) => ApplyWrites(t, e);
    case RestoreIt(_) =>
      if e.id in t.journal {
        RestoreWrites(t, e, t.journal[e.id]);
      }
  }

  /**
   * Whatever others write in between and whichever calls are lost, this program only ever replaces the recorded before
   * or after, recreates a deleted file as it was, and writes nothing before the change is journaled.
   */
  lemma {:induction false} OnlyOwnWrites(s: State, e: Entry, ops: seq<Operation>)
    requires JournalOf(s, e)
    ensures OwnWritesSince(s, PerformedAll(s, e, ops), e)
    decreases |ops|
  {
    if ops != [] {
      var t := Performed(s, e, ops[0]);
      var u := PerformedAll(t, e, ops[1..]);
      OperationWrites(s, e, ops[0]);
      OnlyOwnWrites(t, e, ops[1..]);
      Chained(s, t, u, e);
    }
  }

  // ---- Recovery from crashes and deletions

  ghost predicate Quiet(calls: seq<Call>) {
    forall i :: 0 <= i < |calls| ==> calls[i].outside.None?
  }

  ghost predicate ParentKept(context: FileContext, e: Entry) {
    e.file ==> e.context.Some? && context.parent == e.context.value.parent
  }

  /**
   * What others may do to the target just before any call: put its original content back or, if `deletions`, delete the
   * file.
   */
  ghost predicate HarmlessWrite(o: Outside, e: Entry, deletions: bool) {
    && (o.target == Some(e.before) || (deletions && e.file && o.target.None?))
    && ParentKept(o.context, e)
  }

  ghost predicate Harmless(calls: seq<Call>, e: Entry, deletions: bool) {
    forall i :: 0 <= i < |calls| && calls[i].outside.Some? ==> HarmlessWrite(calls[i].outside.value, e, deletions)
  }

  ghost predicate HarmlessAll(ops: seq<Operation>, e: Entry, deletions: bool) {
    forall i :: 0 <= i < |ops| ==> Harmless(ops[i].calls, e, deletions)
  }

  ghost predicate TargetKnown(s: State, e: Entry, deletions: bool) {
    || s.target == Some(e.before) || s.target == Some(e.after)
    || (deletions && e.file && s.target.None?)
  }

  /**
   * The target holds before or after, or is a deleted file whose parent is as recorded; it never holds after while the
   * change is unjournaled or once it is restored.
   */
  ghost predicate Recoverable(s: State, e: Entry, deletions: bool) {
    && e.before != e.after && Fits(e) && JournalOf(s, e) && ParentKept(s.context, e) && TargetKnown(s, e, deletions)
    && (s.target == Some(e.after) ==> e.id in s.journal && s.journal[e.id].phase != Restored)
  }

  /** Recoverable now, whatever the calls still ahead may find. */
  ghost predicate Safe(s: State, e: Entry, deletions: bool) {
    Recoverable(s, e, deletions) && Harmless(s.calls, e, deletions)
  }

  lemma ArrivedSafe(s: State, e: Entry, deletions: bool)
    requires Safe(s, e, deletions)
    ensures var t := Arrived(s);
      Safe(t, e, deletions) && t.journal == s.journal && (s.target != Some(e.after) ==> t.target != Some(e.after))
  {
    if s.calls != [] && s.calls[0].outside.Some? {
      assert HarmlessWrite(s.calls[0].outside.value, e, deletions);
    }
  }

  /** Journaling any phase is safe, except Restored while the target still holds after. */
  lemma PersistSafe(s: State, e: Entry, a: Entry, deletions: bool)
    requires Safe(s, e, deletions) && SameChange(a, e) && (a.phase == Restored ==> s.target != Some(e.after))
    ensures Safe(Persist(s, a).0, e, deletions)
    ensures Persist(s, a).1.Ok? ==> e.id in Persist(s, a).0.journal && Persist(s, a).0.journal[e.id] == a
  {
    ArrivedSafe(s, e, deletions);
  }

  lemma ReplaceSafe(s: State, e: Entry, expected: Bytes, replacement: Bytes, deletions: bool)
    requires Safe(s, e, deletions) && e.id in s.journal && s.journal[e.id].phase != Restored
    requires replacement == e.before || replacement == e.after
    ensures var (t, r) := Replace(s, expected, replacement);
      && Safe(t, e, deletions) && t.journal == s.journal
      && (r.Ok? ==> t.target == Some(replacement))
  {
    ArrivedSafe(s, e, deletions);
  }

  lemma RecreateSafe(s: State, e: Entry, deletions: bool)
    requires Safe(s, e, deletions) && e.file
    ensures var (t, r) := RestoreDeleted(s, e.before, e.context.value);
      Safe(t, e, deletions) && (r.Ok? ==> t.target == Some(e.before))
  {
    ArrivedSafe(s, e, deletions);
  }

  lemma FinishedSafe(s: State, e: Entry, a: Entry, deletions: bool)
    requires Safe(s, e, deletions) && SameChange(a, e) && s.target != Some(e.after)
    ensures Safe(Finished(s, a).0, e, deletions)
  {
    PersistSafe(s, e, a.(phase := Restored), deletions);
  }

  lemma ReviewSafe(s: State, e: Entry, deletions: bool)
    requires Safe(s, e, deletions)
    ensures Safe(Reviewed(s, e).0, e, deletions)
    ensures Reviewed(s, e).1.Ok? ==> e.phase == Prepared
  {
    ArrivedSafe(s, e, deletions);
    ArrivedSafe(Arrived(s), e, deletions);
  }

  lemma CommitSafe(s: State, e: Entry, deletions: bool)
    requires Safe(s, e, deletions) && e.phase == Prepared
    ensures Safe(Committed(s, e).0, e, deletions)
  {
    var (t, journaled) := Persist(s, e);
    PersistSafe(s, e, e, deletions);
    if journaled.Ok? {
      ReplaceSafe(t, e, e.before, e.after, deletions);
      PersistSafe(Replace(t, e.before, e.after).0, e, e.(phase := Applied), deletions);
    }
  }

  lemma ApplySafe(s: State, e: Entry, deletions: bool)
    requires Safe(s, e, deletions)
    ensures Safe(AppliedChange(s, e).0, e, deletions)
  {
    ReviewSafe(s, e, deletions);
    if Reviewed(s, e).1.Ok? {
      CommitSafe(Reviewed(s, e).0, e, deletions);
    }
  }

  lemma RecreatedSafe(s: State, e: Entry, a: Entry, deletions: bool)
    requires Safe(s, e, deletions) && SameChange(a, e) && e.file
    ensures Safe(RecreatedFile(s, a).0, e, deletions)
  {
    var pending := a.(phase := RestorePending);
    var (t, journaled) := Persist(s, pending);
    PersistSafe(s, e, pending, deletions);
    if journaled.Ok? {
      var (u, observed) := RestoreDeleted(t, e.before, e.context.value);
      RecreateSafe(t, e, deletions);
      if observed.Ok? {
        FinishedSafe(u, e, pending, deletions);
      }
    }
  }

  lemma UndoneSafe(s: State, e: Entry, a: Entry, deletions: bool)
    requires Safe(s, e, deletions) && SameChange(a, e)
    ensures var pending := a.(phase := RestorePending);
      var (t, journaled) := Persist(s, pending);
      && Safe(t, e, deletions)
      && (journaled.Ok? ==>
            var (u, observed) := Replace(t, e.after, e.before);
            Safe(u, e, deletions) && (observed.Ok? ==> Safe(Finished(u, pending).0, e, deletions)))
  {
    var pending := a.(phase := RestorePending);
    var (t, journaled) := Persist(s, pending);
    PersistSafe(s, e, pending, deletions);
    if journaled.Ok? {
      var (u, observed) := Replace(t, e.after, e.before);
      ReplaceSafe(t, e, e.after, e.before, deletions);
      if observed.Ok? {
        FinishedSafe(u, e, pending, deletions);
      }
    }
  }

  lemma RestoreContentSafe(s: State, e: Entry, a: Entry, deletions: bool)
    requires Safe(s, e, deletions) && SameChange(a, e)
    ensures Safe(RestoredContent(s, a).0, e, deletions)
  {
    var (t, current) := Read(s);
    ArrivedSafe(s, e, deletions);
    if current.Ok? && current.value == e.before {
      FinishedSafe(t, e, a, deletions);
    } else if current.Ok? && current.value == e.after {
      UndoneSafe(t, e, a, deletions);
    }
  }

  lemma OperationSafe(s: State, e: Entry, op: Operation, deletions: bool)
    requires Recoverable(s, e, deletions) && Harmless(op.calls, e, deletions)
    ensures Recoverable(Performed(s, e, op), e, deletions)
  {
    var t := s.(calls := op.calls);
    match op
    case ApplyIt(_) => ApplySafe(t, e, deletions);
    case RestoreIt(_) =>
      if e.id in t.journal {
        var a, u := t.journal[e.id], IsMissing(t).0;
        RestoreContentSafe(t, e, a, deletions);
        ArrivedSafe(t, e, deletions);
        RestoreContentSafe(u, e, a, deletions);
        if e.file {
          RecreatedSafe(u, e, a, deletions);
        }
      }
  }

  lemma {:induction false} AllSafe(s: State, e: Entry, ops: seq<Operation>, deletions: bool)
    requires Recoverable(s, e, deletions) && HarmlessAll(ops, e, deletions)
    ensures Recoverable(PerformedAll(s, e, ops), e, deletions)
    decreases |ops|
  {
    if ops != [] {
      assert Harmless(ops[0].calls, e, deletions);
      OperationSafe(s, e, ops[0], deletions);
      AllSafe(Performed(s, e, ops[0]), e, ops[1..], deletions);
    }
  }

  // ---- What a change does when nothing interrupts it

  /** The journal can hold the entry: both contents within a mebibyte, and a place among 128. */
  ghost predicate Journalable(s: State, e: Entry) {
    |e.before| <= 1048576 && |e.after| <= 1048576 && (e.id in s.journal || |s.journal| < 128)
  }

  /**
   * An uninterrupted apply succeeds exactly for a prepared entry whose target and context are as recorded and that the
   * journal can hold. Success leaves the target changed by one write and the journal at Applied; refusal changes
   * nothing.
   */
  lemma ApplyExactly(s: State, e: Entry)
    requires s.calls == []
    ensures AppliedChange(s, e).1.Ok? <==>
      && e.phase == Prepared && s.target == Some(e.before) && (e.context.Some? ==> e.context.value == s.context)
      && Journalable(s, e)
    ensures var (t, r) := AppliedChange(s, e);
      if r.Ok? then
        && r.value == e.(phase := Applied) && t.target == Some(e.after) && t.context == s.context
        && t.journal == s.journal[e.id := e.(phase := Applied)]
        && t.writes == s.writes + [Write(Some(e.before), e.after)]
      else t == s
  {
    var done := e.(phase := Applied);
    assert s.journal[e.id := e][e.id := done] == s.journal[e.id := done];
  }

  /** Why an uninterrupted apply is refused. */
  lemma ApplyRefusals(s: State, e: Entry)
    requires s.calls == [] && AppliedChange(s, e).1.Err?
    ensures AppliedChange(s, e).1.error ==
      if e.phase != Prepared then NotPrepared
      else if s.target.None? then TargetAbsent
      else if s.target != Some(e.before) || (e.context.Some? && e.context.value != s.context) then Conflict
      else if |e.before| > 1048576 || |e.after| > 1048576 then TooLarge
      else JournalFull
  {
  }

  lemma ReviewedWrites(s: State, e: Entry)
    ensures Reviewed(s, e).0.writes == s.writes
    ensures Reviewed(s, e).1.Ok? ==> e.phase == Prepared
  {
  }

  /**
   * A journal call takes effect unless it is lost before, or the journal cannot hold the entry; it reports only what it
   * knows.
   */
  lemma PersistExactly(s: State, a: Entry)
    ensures var (t, r) := Persist(s, a);
      && t.writes == s.writes && t.target == Arrived(s).target && t.context == Arrived(s).context
      && t.journal == (if FateOf(s) != LostBefore && Journalable(s, a) then s.journal[a.id := a] else s.journal)
      && (r.Ok? <==> FateOf(s) == Works && Journalable(s, a))
  {
  }

  /** A replacement takes effect unless it is lost before, or the content is not the expected one. */
  lemma ReplaceExactly(s: State, expected: Bytes, replacement: Bytes)
    ensures var (t, r) := Replace(s, expected, replacement);
      && t.journal == s.journal
      && (r.Ok? <==> FateOf(s) == Works && Arrived(s).target == Some(expected))
      && if FateOf(s) != LostBefore && Arrived(s).target == Some(expected)
         then t.target == Some(replacement) && t.writes == s.writes + [Write(Some(expected), replacement)]
         else t.target == Arrived(s).target && t.writes == s.writes
  {
  }

  ghost predicate PhaseIn(s: State, id: Id, one: Phase, other: Phase) {
    id in s.journal && (s.journal[id].phase == one || s.journal[id].phase == other)
  }

  lemma CommittedWrites(s: State, e: Entry)
    ensures var (t, r) := Committed(s, e);
      && (r.Ok? ==> r.value == e.(phase := Applied) && t.writes == s.writes + [Write(Some(e.before), e.after)])
      && (r.Ok? ==> e.id in t.journal && t.journal[e.id] == e.(phase := Applied))
      && (t.writes != s.writes ==> PhaseIn(t, e.id, e.phase, Applied))
  {
    var (t, journaled) := Persist(s, e);
    PersistExactly(s, e);
    if journaled.Ok? {
      var (u, observed) := Replace(t, e.before, e.after);
      ReplaceExactly(t, e.before, e.after);
      PersistExactly(u, e.(phase := Applied));
    }
  }

  /**
   * An apply that reports success has itself written the new content over the reviewed one, and journaled it, whatever
   * happened around it.
   */
  lemma AppliedMeansWritten(s: State, e: Entry)
    requires AppliedChange(s, e).1.Ok?
    ensures var (t, r) := AppliedChange(s, e);
      && r.value == e.(phase := Applied) && e.phase == Prepared
      && t.writes == s.writes + [Write(Some(e.before), e.after)]
      && e.id in t.journal && t.journal[e.id] == e.(phase := Applied)
  {
    ReviewedWrites(s, e);
    CommittedWrites(Reviewed(s, e).0, e);
  }

  /** Whenever an apply has written, the journal says so. */
  lemma ApplyIsAnnounced(s: State, e: Entry)
    ensures var t := AppliedChange(s, e).0;
      t.writes != s.writes ==> PhaseIn(t, e.id, Prepared, Applied)
  {
    ReviewedWrites(s, e);
    CommittedWrites(Reviewed(s, e).0, e);
  }

  lemma FinishedAnnounces(s: State, a: Entry)
    requires PhaseIn(s, a.id, RestorePending, Restored)
    ensures var t := Finished(s, a).0; t.writes == s.writes && PhaseIn(t, a.id, RestorePending, Restored)
  {
    PersistExactly(s, a.(phase := Restored));
  }

  lemma RecreatingIsAnnounced(s: State, a: Entry)
    ensures var t := RecreatedFile(s, a).0; t.writes != s.writes ==> PhaseIn(t, a.id, RestorePending, Restored)
  {
    if a.context.Some? {
      var pending := a.(phase := RestorePending);
      var (t, journaled) := Persist(s, pending);
      PersistExactly(s, pending);
      if journaled.Ok? {
        FinishedAnnounces(RestoreDeleted(t, a.before, a.context.value).0, pending);
      }
    }
  }

  lemma SwappingBackIsAnnounced(s: State, a: Entry)
    ensures var pending := a.(phase := RestorePending);
      var (t, journaled) := Persist(s, pending);
      var u := Replace(t, a.after, a.before).0;
      && t.writes == s.writes
      && (journaled.Ok? ==> PhaseIn(u, a.id, RestorePending, Restored))
      && (journaled.Ok? ==> PhaseIn(Finished(u, pending).0, a.id, RestorePending, Restored))
  {
    var pending := a.(phase := RestorePending);
    var (t, journaled) := Persist(s, pending);
    PersistExactly(s, pending);
    if journaled.Ok? {
      ReplaceExactly(t, a.after, a.before);
      FinishedAnnounces(Replace(t, a.after, a.before).0, pending);
    }
  }

  lemma RestoringIsAnnounced(s: State, a: Entry)
    ensures var t := RestoredContent(s, a).0; t.writes != s.writes ==> PhaseIn(t, a.id, RestorePending, Restored)
  {
    var (t, current) := Read(s);
    assert t.writes == s.writes;
    PersistExactly(t, a.(phase := Restored));
    SwappingBackIsAnnounced(t, a);
  }

  /** Whenever a restore has written, the journal says that it was begun. */
  lemma RestoreIsAnnounced(s: State, a: Entry)
    ensures var t := RestoredChange(s, a).0;
      t.writes != s.writes ==> PhaseIn(t, a.id, RestorePending, Restored)
  {
    RestoringIsAnnounced(s, a);
    RestoringIsAnnounced(IsMissing(s).0, a);
    RecreatingIsAnnounced(IsMissing(s).0, a);
  }

  /**
   * An uninterrupted preparation records what is there, and is refused exactly for a missing, unchanged or oversized
   * content.
   */
  lemma PrepareExactly(s: State, id: Id, file: bool, after: Bytes)
    requires s.calls == []
    ensures var (t, r) := PreparedChange(s, id, file, after);
      && t == s
      && (r.Ok? <==> s.target.Some? && s.target.value != after && |s.target.value| <= 1048576 && |after| <= 1048576)
      && (r.Ok? ==>
            && r.value.id == id && r.value.file == file && r.value.phase == Prepared
            && Some(r.value.before) == s.target && r.value.after == after
            && r.value.context == if file then Some(s.context) else None)
  {
  }

  /** What Restore can undo: the recorded contents, or a deletion under the recorded parent. */
  ghost predicate Restorable(s: State, a: Entry) {
    || s.target == Some(a.before)
    || s.target == Some(a.after)
    || (a.file && s.target.None? && a.context.Some? && s.context.parent == a.context.value.parent)
  }

  /** The one write that brings the recorded content back, if it is not there. */
  function Undoing(s: State, a: Entry): seq<Write> {
    if s.target == Some(a.before) then [] else [Write(s.target, a.before)]
  }

  /** A refusal can leave its mark: a deleted file is announced before its parent is found changed. */
  function Announced(s: State, a: Entry): map<Id, Entry> {
    if a.file && s.target.None? && a.context.Some? && a.context.value.parent != s.context.parent
       && (a.id in s.journal || |s.journal| < 128) && |a.before| <= 1048576 && |a.after| <= 1048576
    then s.journal[a.id := a.(phase := RestorePending)]
    else s.journal
  }

  lemma RecreatesExactly(s: State, a: Entry)
    requires s.calls == [] && a.phase != Restored && a.file && s.target.None?
    ensures RestoredChange(s, a).1.Ok? <==> Restorable(s, a) && Journalable(s, a)
    ensures var (t, r) := RestoredChange(s, a);
      if r.Ok? then
        && r.value == a.(phase := Restored) && t.target == Some(a.before) && t.context == s.context
        && t.journal == s.journal[a.id := a.(phase := Restored)] && t.writes == s.writes + Undoing(s, a)
      else t == s.(journal := Announced(s, a))
  {
    var pending, done := a.(phase := RestorePending), a.(phase := Restored);
    assert s.journal[a.id := pending][a.id := done] == s.journal[a.id := done];
  }

  lemma RestoresContentExactly(s: State, a: Entry)
    requires s.calls == [] && a.phase != Restored && !(a.file && s.target.None?)
    ensures RestoredChange(s, a).1.Ok? <==> Restorable(s, a) && Journalable(s, a)
    ensures var (t, r) := RestoredChange(s, a);
      if r.Ok? then
        && r.value == a.(phase := Restored) && t.target == Some(a.before) && t.context == s.context
        && t.journal == s.journal[a.id := a.(phase := Restored)] && t.writes == s.writes + Undoing(s, a)
      else t == s
  {
    var pending, done := a.(phase := RestorePending), a.(phase := Restored);
    assert s.journal[a.id := pending][a.id := done] == s.journal[a.id := done];
    assert s.writes + [] == s.writes;
  }

  /**
   * An uninterrupted restore of an unrestored entry succeeds exactly when the target is restorable and the journal
   * takes the entry. Success leaves the target at its recorded content by at most one write, and the journal at
   * Restored; refusal leaves all but the entry's own phase alone.
   */
  lemma RestoreExactly(s: State, a: Entry)
    requires s.calls == [] && a.phase != Restored
    ensures RestoredChange(s, a).1.Ok? <==> Restorable(s, a) && Journalable(s, a)
    ensures var (t, r) := RestoredChange(s, a);
      if r.Ok? then
        && r.value == a.(phase := Restored) && t.target == Some(a.before) && t.context == s.context
        && t.journal == s.journal[a.id := a.(phase := Restored)] && t.writes == s.writes + Undoing(s, a)
      else t == s.(journal := Announced(s, a))
  {
    if a.file && s.target.None? {
      RecreatesExactly(s, a);
    } else {
      RestoresContentExactly(s, a);
    }
  }

  /** Why a restore is refused: nothing to restore from, or neither recorded content is there. */
  lemma RestoreRefusals(s: State, a: Entry)
    requires s.calls == [] && RestoredChange(s, a).1.Err?
    ensures RestoredChange(s, a).1.error ==
      if a.phase == Restored then AlreadyRestored
      else if s.target.None? && a.file && a.context.None? then NoSnapshot
      else if s.target.None? && !a.file then TargetAbsent
      else if s.target.Some? && s.target.value != a.before && s.target.value != a.after then Conflict
      else if |a.before| > 1048576 || |a.after| > 1048576 then TooLarge
      else if a.id !in s.journal && |s.journal| >= 128 then JournalFull
      else Conflict
  {
  }

  /** The journaled change is undone: by an uninterrupted restore now, unless an earlier one already finished. */
  ghost predicate Undone(t: State, e: Entry, deletions: bool)
    requires e.id in t.journal && t.calls == []
  {
    var a := t.journal[e.id];
    if a.phase == Restored then
      a == e.(phase := Restored) && (t.target == Some(e.before) || (deletions && e.file && t.target.None?))
    else
      var (u, r) := RestoredChange(t, a);
      r.Ok? && u.target == Some(e.before) && e.id in u.journal && u.journal[e.id] == e.(phase := Restored)
  }

  /**
   * From any recoverable state, a deleted file included, after any applies and restores with any calls lost and any
   * deletions in between, one uninterrupted restore of the journaled entry ends with the original content and phase
   * Restored; an unjournaled target was never changed by this program.
   */
  lemma RecoveryFrom(s: State, e: Entry, ops: seq<Operation>, deletions: bool)
    requires Recoverable(s, e, deletions) && HarmlessAll(ops, e, deletions)
    ensures var t := PerformedAll(s, e, ops).(calls := []);
      if e.id in t.journal then Undone(t, e, deletions)
      else (t.target == Some(e.before) || (deletions && e.file && t.target.None?)) && t.writes == s.writes
  {
    AllSafe(s, e, ops, deletions);
    OnlyOwnWrites(s, e, ops);
    var t := PerformedAll(s, e, ops).(calls := []);
    if e.id !in t.journal {
      assert PerformedAll(s, e, ops).writes[..|s.writes|] == s.writes;
    } else if t.journal[e.id].phase != Restored {
      RestoreExactly(t, t.journal[e.id]);
    }
  }

  lemma PreparedRecoverable(s: State, id: Id, file: bool, after: Bytes)
    requires Quiet(s.calls) && id !in s.journal && PreparedChange(s, id, file, after).1.Ok?
    ensures var (p, prepared) := PreparedChange(s, id, file, after);
      && s.target == Some(prepared.value.before) && prepared.value.id == id
      && p.target == s.target && p.journal == s.journal && p.writes == s.writes
      && forall deletions :: Recoverable(p, prepared.value, deletions)
  {
  }

  /**
   * A prepared change is recoverable: crashed at any call of any applies and restores, and deleted by others at any
   * time, its target ends at the content it was prepared from after one uninterrupted restore.
   */
  lemma CrashRecovery(s: State, id: Id, file: bool, after: Bytes, ops: seq<Operation>, deletions: bool)
    requires Quiet(s.calls) && id !in s.journal && PreparedChange(s, id, file, after).1.Ok?
    requires HarmlessAll(ops, PreparedChange(s, id, file, after).1.value, deletions)
    ensures var (p, prepared) := PreparedChange(s, id, file, after);
      var e := prepared.value;
      var t := PerformedAll(p, e, ops).(calls := []);
      && e.before != e.after && s.target == Some(e.before)
      && (id in t.journal ==> Undone(t, e, deletions))
      && (id !in t.journal ==> t.writes == s.writes && (t.target == s.target || (deletions && file && t.target.None?)))
  {
    PreparedRecoverable(s, id, file, after);
    var (p, prepared) := PreparedChange(s, id, file, after);
    RecoveryFrom(p, prepared.value, ops, deletions);
  }
}
