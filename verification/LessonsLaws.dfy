/** Exactly which rows the lessons hold, in the fields of the runs they are learned from. */
module LessonsLaws {
  import opened Outcomes
  import opened Execution
  import opened Lessons

  // ---- One target

  /**
   * The run still is the plan that was reviewed, and the target is its computer of that pair, on the side it ran on.
   */
  ghost predicate AsPlanned(r: Run, i: nat, checks: Checks)
    requires i < |r.targets|
  {
    && r.hash == checks.digest(r.scheme) && |r.scheme.pairs| == |r.targets|
    && var planned := if r.rehearsal then r.scheme.pairs[i].staging else r.scheme.pairs[i].production;
       r.targets[i].target.profile == planned.profile && r.targets[i].target.endpoint == planned.endpoint
  }

  /** A success shows as one only with its whole evidence; nothing shows of a target that is not as planned. */
  ghost predicate Shows(r: Run, i: nat, checks: Checks, now: int, p: Phase)
    requires i < |r.targets|
  {
    var t := r.targets[i];
    match t.phase
    case Passed => p == if AsPlanned(r, i, checks) && EvidencedSuccess(r, t, now) then Passed else Unknown
    case phase => p == if AsPlanned(r, i, checks) then phase else Unknown
  }

  lemma ShownExactly(r: Run, i: nat, checks: Checks, now: int, p: Phase)
    requires i < |r.targets|
    ensures p == PhaseShown(r, i, checks, now) <==> Shows(r, i, checks, now, p)
  {
  }

  /** One resting target of a run, as a row. */
  ghost predicate Describes(row: Row, r: Run, i: nat, checks: Checks, now: int)
    requires i < |r.targets|
  {
    && row.run == r.id && row.target == r.targets[i].target.profile && row.rehearsal == r.rehearsal
    && Shows(r, i, checks, now, row.phase)
  }

  /** Lessons are about one change of one service under one check, on whatever computers. */
  ghost predicate AboutWork(key: LessonKey, s: Scheme) {
    key.restart == s.restart && key.service == s.service && key.desired == s.desired && key.health == s.health
  }

  lemma EntryExactly(r: Run, i: nat, checks: Checks, now: int, key: LessonKey, row: Row)
    requires i < |r.targets|
    ensures Entry(key, row) == EntryOf(r, i, checks, now) <==>
      AboutWork(key, r.scheme) && Describes(row, r, i, checks, now)
  {
    ShownExactly(r, i, checks, now, row.phase);
  }

  // ---- The first record of a computer in a run

  ghost predicate Resting(r: Run, i: int) {
    && 0 <= i < |r.targets|
    && (r.targets[i].phase == Passed || r.targets[i].phase == Failed || r.targets[i].phase == Restored
        || r.targets[i].phase == Unknown)
  }

  ghost predicate Taken(r: Run, checks: Checks) { r.finished != None && checks.valid(r.scheme) }

  /** A target that counts, of this run id and computer. */
  ghost predicate Counts(runs: seq<Run>, checks: Checks, k: int, i: int, pair: (nat, nat)) {
    && 0 <= k < |runs| && Taken(runs[k], checks) && Resting(runs[k], i)
    && pair == (runs[k].id, runs[k].targets[i].target.profile)
  }

  /** The first in the journal that does. */
  ghost predicate CountsFirst(runs: seq<Run>, checks: Checks, k: int, i: int, pair: (nat, nat)) {
    && Counts(runs, checks, k, i, pair)
    && forall h, j :: h < k || (h == k && j < i) ==> !Counts(runs, checks, h, j, pair)
  }

  ghost predicate NewIn(before: seq<Entry>, r: Run, i: int, n: nat, pair: (nat, nat)) {
    && 0 <= i < n && Resting(r, i) && pair == (r.id, r.targets[i].target.profile) && pair !in Pairs(before)
    && forall j :: 0 <= j < i && Resting(r, j) ==> r.targets[j].target.profile != r.targets[i].target.profile
  }

  ghost predicate EnteredAt(before: seq<Entry>, r: Run, i: int, n: nat, checks: Checks, now: int, e: Entry) {
    NewIn(before, r, i, n, PairOf(e)) && e == EntryOf(r, i, checks, now)
  }

  lemma {:induction false} TargetsEnter(before: seq<Entry>, r: Run, n: nat, checks: Checks, now: int, e: Entry)
    requires n <= |r.targets| && Once(before)
    ensures e in FromTargets(before, r, n, checks, now) <==>
      e in before || exists i :: EnteredAt(before, r, i, n, checks, now, e)
  {
    if n > 0 {
      var m := n - 1;
      TargetsEnter(before, r, m, checks, now, e);
      LastEnters(before, r, n, checks, now, e);
      if i :| EnteredAt(before, r, i, n, checks, now, e) {
        assert i < m ==> EnteredAt(before, r, i, m, checks, now, e);
      }
      if i :| EnteredAt(before, r, i, m, checks, now, e) {
        assert EnteredAt(before, r, i, n, checks, now, e);
      }
    }
  }

  lemma LastEnters(before: seq<Entry>, r: Run, n: nat, checks: Checks, now: int, e: Entry)
    requires 0 < n <= |r.targets| && Once(before)
    ensures EnteredAt(before, r, n - 1, n, checks, now, e) <==>
      && Terminal(r.targets[n - 1].phase) && e == EntryOf(r, n - 1, checks, now)
      && PairOf(e) !in Pairs(FromTargets(before, r, n - 1, checks, now))
  {
    TargetsCountOnce(before, r, n - 1, checks, now);
    var pair := (r.id, r.targets[n - 1].target.profile);
    assert DueInRun(r, n - 1, pair) <==>
      exists j :: 0 <= j < n - 1 && Resting(r, j) && r.targets[j].target.profile == r.targets[n - 1].target.profile;
  }

  ghost predicate FirstEntry(runs: seq<Run>, checks: Checks, now: int, k: int, i: int, e: Entry) {
    CountsFirst(runs, checks, k, i, PairOf(e)) && e == EntryOf(runs[k], i, checks, now)
  }

  lemma DueCounts(runs: seq<Run>, checks: Checks, pair: (nat, nat))
    ensures Due(runs, checks, pair) <==> exists k, i :: Counts(runs, checks, k, i, pair)
  {
    if Due(runs, checks, pair) {
      var k, i :| 0 <= k < |runs| && Counted(runs[k], checks) && 0 <= i < |runs[k].targets|
                  && Terminal(runs[k].targets[i].phase) && pair == (runs[k].id, runs[k].targets[i].target.profile);
      assert Counts(runs, checks, k, i, pair);
    }
    if k, i :| Counts(runs, checks, k, i, pair) {
      assert Counted(runs[k], checks) && Terminal(runs[k].targets[i].phase);
    }
  }

  /** What counts first in a journal still does when another run follows. */
  lemma EarlierFirst(rest: seq<Run>, last: Run, checks: Checks, k: int, i: int, pair: (nat, nat))
    requires k < |rest|
    ensures CountsFirst(rest + [last], checks, k, i, pair) <==> CountsFirst(rest, checks, k, i, pair)
  {
    var all := rest + [last];
    assert forall h, j :: h < |rest| ==> (Counts(all, checks, h, j, pair) <==> Counts(rest, checks, h, j, pair));
  }

  /** And in the last run what no run before it has. */
  lemma LastFirst(rest: seq<Run>, last: Run, checks: Checks, now: int, i: int, pair: (nat, nat))
    ensures CountsFirst(rest + [last], checks, |rest|, i, pair) <==>
      Taken(last, checks) && NewIn(Entries(rest, checks, now), last, i, |last.targets|, pair)
  {
    var all := rest + [last];
    EntriesConserve(rest, checks, now);
    DueCounts(rest, checks, pair);
    assert forall h, j :: h < |rest| ==> (Counts(all, checks, h, j, pair) <==> Counts(rest, checks, h, j, pair));
    assert forall j :: Counts(all, checks, |rest|, j, pair) <==>
      Taken(last, checks) && Resting(last, j) && pair == (last.id, last.targets[j].target.profile);
  }

  /** What a first entry of the longer journal is. */
  lemma FirstEntries(rest: seq<Run>, last: Run, checks: Checks, now: int, k: int, i: int, e: Entry)
    ensures FirstEntry(rest + [last], checks, now, k, i, e) <==>
      if k == |rest| then
        Taken(last, checks) && EnteredAt(Entries(rest, checks, now), last, i, |last.targets|, checks, now, e)
      else FirstEntry(rest, checks, now, k, i, e)
  {
    if k == |rest| {
      LastFirst(rest, last, checks, now, i, PairOf(e));
    } else if k < |rest| {
      EarlierFirst(rest, last, checks, k, i, PairOf(e));
    }
  }

  lemma {:induction false} EntriesAre(runs: seq<Run>, checks: Checks, now: int, e: Entry)
    ensures e in Entries(runs, checks, now) <==> exists k, i :: FirstEntry(runs, checks, now, k, i, e)
  {
    if runs != [] {
      var rest, last := runs[..|runs| - 1], runs[|runs| - 1];
      assert runs == rest + [last];
      var before := Entries(rest, checks, now);
      EntriesAre(rest, checks, now, e);
      EntriesConserve(rest, checks, now);
      TargetsEnter(before, last, |last.targets|, checks, now, e);
      if k, i :| FirstEntry(runs, checks, now, k, i, e) {
        FirstEntries(rest, last, checks, now, k, i, e);
      }
      if k, i :| FirstEntry(rest, checks, now, k, i, e) {
        FirstEntries(rest, last, checks, now, k, i, e);
      }
      if i :| EnteredAt(before, last, i, |last.targets|, checks, now, e) {
        FirstEntries(rest, last, checks, now, |rest|, i, e);
      }
    }
  }

  // ---- The rows of a lesson

  lemma {:induction false} RowsUnderAre(entries: seq<Entry>, key: LessonKey, row: Row)
    ensures row in RowsUnder(entries, key) <==> Entry(key, row) in entries
  {
    if entries != [] {
      RowsUnderAre(entries[..|entries| - 1], key, row);
      assert entries == entries[..|entries| - 1] + [entries[|entries| - 1]];
    }
  }

  ghost predicate Learned(runs: seq<Run>, checks: Checks, now: int, k: int, i: int, key: LessonKey, row: Row) {
    && CountsFirst(runs, checks, k, i, (row.run, row.target))
    && AboutWork(key, runs[k].scheme) && Describes(row, runs[k], i, checks, now)
  }

  /**
   * A lesson holds a row exactly if some target at rest, of a finished run with a valid plan, is the first in the
   * journal of its run id and computer, worked on this service in this way, and shows what the row says.
   */
  lemma LessonRowsExactly(runs: seq<Run>, checks: Checks, now: int, key: LessonKey, row: Row)
    ensures var lessons := LessonsOf(runs, checks, now);
      key in lessons && row in lessons[key].evidence <==> exists k, i :: Learned(runs, checks, now, k, i, key, row)
  {
    var entries := Entries(runs, checks, now);
    EntriesAtRest(runs, checks, now);
    GroupsHoldTheirRows(entries, key);
    RowsUnderAre(entries, key, row);
    EntriesAre(runs, checks, now, Entry(key, row));
    forall k, i
      ensures FirstEntry(runs, checks, now, k, i, Entry(key, row)) <==> Learned(runs, checks, now, k, i, key, row)
    {
      if CountsFirst(runs, checks, k, i, (row.run, row.target)) {
        EntryExactly(runs[k], i, checks, now, key, row);
      }
    }
  }
}
