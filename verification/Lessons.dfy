/**
 * Lessons learned from a journal of runs: each finished target is counted once, under its workflow, as what it proved.
 */
module Lessons {
  import opened Execution
  import Mission

  /** Runs with the same change, service, wanted state and check share a lesson. */
  datatype LessonKey = LessonKey(restart: bool, service: string, desired: Service, health: Check)

  datatype Row = Row(run: nat, target: nat, rehearsal: bool, phase: Phase)

  datatype Counts = Counts(successes: nat, failures: nat, restored: nat, unknown: nat)

  datatype Lesson = Lesson(production: Counts, rehearsal: Counts, evidence: seq<Row>)

  const ZERO := Counts(0, 0, 0, 0)
  const BLANK := Lesson(ZERO, ZERO, [])

  /** The checks and the digest of a plan, which live outside this model. */
  datatype Checks = Checks(valid: Scheme -> bool, digest: Scheme -> nat)

  function KeyOf(s: Scheme): LessonKey { LessonKey(s.restart, s.service, s.desired, s.health) }

  // ---- What is counted

  predicate Counted(r: Run, checks: Checks) { r.finished.Some? && checks.valid(r.scheme) }

  predicate Bound(r: Run, i: nat, checks: Checks)
    requires i < |r.targets|
  {
    && checks.digest(r.scheme) == r.hash && |r.targets| == |r.scheme.pairs|
    && var pair := r.scheme.pairs[i];
       Mission.SameEndpoint(r.targets[i].target, if r.rehearsal then pair.staging else pair.production)
  }

  /** What the target is counted as: its phase, unless the plan changed or the success lacks its evidence. */
  function PhaseShown(r: Run, i: nat, checks: Checks, now: int): Phase
    requires i < |r.targets|
  {
    if !Bound(r, i, checks) || (r.targets[i].phase == Passed && !EvidencedSuccess(r, r.targets[i], now)) then Unknown
    else r.targets[i].phase
  }

  datatype Entry = Entry(key: LessonKey, row: Row)

  function EntryOf(r: Run, i: nat, checks: Checks, now: int): Entry
    requires i < |r.targets|
  {
    Entry(KeyOf(r.scheme), Row(r.id, r.targets[i].target.profile, r.rehearsal, PhaseShown(r, i, checks, now)))
  }

  function PairOf(e: Entry): (nat, nat) { (e.row.run, e.row.target) }

  function Pairs(entries: seq<Entry>): set<(nat, nat)> { set i | 0 <= i < |entries| :: PairOf(entries[i]) }

  /** The entries after the first `n` targets of a run, each run and computer entered once. */
  function FromTargets(before: seq<Entry>, r: Run, n: nat, checks: Checks, now: int): seq<Entry>
    requires n <= |r.targets|
  {
    if n == 0 then before
    else
      var so := FromTargets(before, r, n - 1, checks, now);
      if !Terminal(r.targets[n - 1].phase) || (r.id, r.targets[n - 1].target.profile) in Pairs(so) then so
      else so + [EntryOf(r, n - 1, checks, now)]
  }

  function Entries(runs: seq<Run>, checks: Checks, now: int): seq<Entry> {
    if runs == [] then []
    else
      var before, last := Entries(runs[..|runs| - 1], checks, now), runs[|runs| - 1];
      if Counted(last, checks) then FromTargets(before, last, |last.targets|, checks, now) else before
  }

  // ---- Grouping

  function Tallied(c: Counts, p: Phase): Counts {
    match p
    case Passed => c.(successes := c.successes + 1)
    case Failed => c.(failures := c.failures + 1)
    case Restored => c.(restored := c.restored + 1)
    case _ => c.(unknown := c.unknown + 1)
  }

  function Noted(l: Lesson, row: Row): Lesson {
    var m := l.(evidence := l.evidence + [row]);
    if row.rehearsal then m.(rehearsal := Tallied(l.rehearsal, row.phase))
    else m.(production := Tallied(l.production, row.phase))
  }

  function Put(groups: map<LessonKey, Lesson>, e: Entry): map<LessonKey, Lesson> {
    groups[e.key := Noted(if e.key in groups then groups[e.key] else BLANK, e.row)]
  }

  function Grouped(entries: seq<Entry>): map<LessonKey, Lesson> {
    if entries == [] then map[] else Put(Grouped(entries[..|entries| - 1]), entries[|entries| - 1])
  }

  function LessonsOf(runs: seq<Run>, checks: Checks, now: int): map<LessonKey, Lesson> {
    Grouped(Entries(runs, checks, now))
  }

  // ---- The fold in place

  class Journal {
    var runs: seq<Run>

    constructor (runs: seq<Run>)
      ensures this.runs == runs
    {
      this.runs := runs;
    }

    method Learn(checks: Checks, now: int) returns (groups: map<LessonKey, Lesson>)
      ensures groups == LessonsOf(runs, checks, now)
    {
      groups := map[];
      var seen: set<(nat, nat)> := {};
      ghost var entries: seq<Entry> := [];
      var k := 0;
      while k < |runs|
        invariant k <= |runs| && entries == Entries(runs[..k], checks, now)
        invariant groups == Grouped(entries) && seen == Pairs(entries)
      {
        assert runs[..k + 1][..k] == runs[..k];
        if Counted(runs[k], checks) {
          groups, seen := LearnRun(groups, seen, entries, runs[k], checks, now);
          entries := FromTargets(entries, runs[k], |runs[k].targets|, checks, now);
        }
        k := k + 1;
      }
      assert runs[..k] == runs;
    }
  }

  method LearnRun(groups0: map<LessonKey, Lesson>, seen0: set<(nat, nat)>, ghost entries0: seq<Entry>, r: Run,
      checks: Checks, now: int)
    returns (groups: map<LessonKey, Lesson>, seen: set<(nat, nat)>)
    requires groups0 == Grouped(entries0) && seen0 == Pairs(entries0)
    ensures groups == Grouped(FromTargets(entries0, r, |r.targets|, checks, now))
    ensures seen == Pairs(FromTargets(entries0, r, |r.targets|, checks, now))
  {
    groups, seen := groups0, seen0;
    ghost var entries := entries0;
    var i := 0;
    while i < |r.targets|
      invariant i <= |r.targets| && entries == FromTargets(entries0, r, i, checks, now)
      invariant groups == Grouped(entries) && seen == Pairs(entries)
    {
      var t := r.targets[i];
      if Terminal(t.phase) && (r.id, t.target.profile) !in seen {
        ghost var e := EntryOf(r, i, checks, now);
        PairsAppend(entries, e);
        GroupedAppend(entries, e);
        seen := seen + {(r.id, t.target.profile)};
        var key := KeyOf(r.scheme);
        var group := if key in groups then groups[key] else BLANK;
        var shown := PhaseShown(r, i, checks, now);
        if r.rehearsal {
          group := group.(rehearsal := Tallied(group.rehearsal, shown));
        } else {
          group := group.(production := Tallied(group.production, shown));
        }
        group := group.(evidence := group.evidence + [Row(r.id, t.target.profile, r.rehearsal, shown)]);
        groups := groups[key := group];
        entries := entries + [e];
      }
      i := i + 1;
    }
  }

  lemma GroupedAppend(entries: seq<Entry>, e: Entry)
    ensures Grouped(entries + [e]) == Put(Grouped(entries), e)
  {
    assert (entries + [e])[..|entries|] == entries;
  }

  lemma PairsAppend(entries: seq<Entry>, e: Entry)
    ensures Pairs(entries + [e]) == Pairs(entries) + {PairOf(e)}
  {
    var all := entries + [e];
    assert all[|entries|] == e && forall i :: 0 <= i < |entries| ==> all[i] == entries[i];
  }

  // ---- Conservation

  /** Everything that has to be counted: the targets at rest of the finished runs with a valid plan. */
  ghost predicate Due(runs: seq<Run>, checks: Checks, pair: (nat, nat)) {
    exists k, i :: 0 <= k < |runs| && Counted(runs[k], checks) && 0 <= i < |runs[k].targets|
                   && Terminal(runs[k].targets[i].phase) && pair == (runs[k].id, runs[k].targets[i].target.profile)
  }

  ghost predicate DueInRun(r: Run, n: nat, pair: (nat, nat)) {
    exists i :: 0 <= i < n && i < |r.targets| && Terminal(r.targets[i].phase)
      && pair == (r.id, r.targets[i].target.profile)
  }

  ghost predicate Once(entries: seq<Entry>) { |Pairs(entries)| == |entries| }

  lemma {:induction false} TargetsCountOnce(before: seq<Entry>, r: Run, n: nat, checks: Checks, now: int)
    requires n <= |r.targets| && Once(before)
    ensures Once(FromTargets(before, r, n, checks, now))
    ensures forall pair :: pair in Pairs(FromTargets(before, r, n, checks, now)) <==>
      pair in Pairs(before) || DueInRun(r, n, pair)
    ensures before <= FromTargets(before, r, n, checks, now)
  {
    if n > 0 {
      TargetsCountOnce(before, r, n - 1, checks, now);
      var so, t := FromTargets(before, r, n - 1, checks, now), r.targets[n - 1];
      PairsAppend(so, EntryOf(r, n - 1, checks, now));
      var mine := (r.id, t.target.profile);
      forall pair ensures DueInRun(r, n, pair) <==> DueInRun(r, n - 1, pair) || (Terminal(t.phase) && pair == mine) {
        if DueInRun(r, n, pair) {
          var i :| 0 <= i < n && Terminal(r.targets[i].phase) && pair == (r.id, r.targets[i].target.profile);
          assert i < n - 1 ==> DueInRun(r, n - 1, pair);
        }
      }
    }
  }

  lemma DueMore(runs: seq<Run>, r: Run, checks: Checks, pair: (nat, nat))
    ensures Due(runs + [r], checks, pair) <==>
      Due(runs, checks, pair) || (Counted(r, checks) && DueInRun(r, |r.targets|, pair))
  {
    var all := runs + [r];
    if Due(runs, checks, pair) {
      var k, i :| 0 <= k < |runs| && Counted(runs[k], checks) && 0 <= i < |runs[k].targets|
                  && Terminal(runs[k].targets[i].phase) && pair == (runs[k].id, runs[k].targets[i].target.profile);
      assert all[k] == runs[k];
    }
    if Counted(r, checks) && DueInRun(r, |r.targets|, pair) {
      assert all[|runs|] == r;
    }
    if Due(all, checks, pair) {
      var k, i :| 0 <= k < |all| && Counted(all[k], checks) && 0 <= i < |all[k].targets|
                  && Terminal(all[k].targets[i].phase) && pair == (all[k].id, all[k].targets[i].target.profile);
      assert k < |runs| ==> all[k] == runs[k];
    }
  }

  /** Each run and computer due is entered exactly once, and nothing else is. */
  lemma {:induction false} EntriesConserve(runs: seq<Run>, checks: Checks, now: int)
    ensures Once(Entries(runs, checks, now))
    ensures forall pair :: pair in Pairs(Entries(runs, checks, now)) <==> Due(runs, checks, pair)
  {
    if runs != [] {
      var rest, last := runs[..|runs| - 1], runs[|runs| - 1];
      EntriesConserve(rest, checks, now);
      TargetsCountOnce(Entries(rest, checks, now), last, |last.targets|, checks, now);
      assert runs == rest + [last];
      forall pair ensures pair in Pairs(Entries(runs, checks, now)) <==> Due(runs, checks, pair) {
        DueMore(rest, last, checks, pair);
      }
    }
  }

  // ---- Totals over the groups

  ghost function Total(groups: map<LessonKey, Lesson>): nat
    decreases |groups|
  {
    if groups == map[] then 0
    else
      var k :| k in groups;
      |groups[k].evidence| + Total(groups - {k})
  }

  lemma {:induction false} TotalSplit(groups: map<LessonKey, Lesson>, k: LessonKey)
    requires k in groups
    ensures Total(groups) == |groups[k].evidence| + Total(groups - {k})
    decreases |groups|
  {
    var j :| j in groups && Total(groups) == |groups[j].evidence| + Total(groups - {j});
    if j != k {
      TotalSplit(groups - {j}, k);
      TotalSplit(groups - {k}, j);
      assert groups - {j} - {k} == groups - {k} - {j};
    }
  }

  lemma TotalPut(groups: map<LessonKey, Lesson>, e: Entry)
    ensures Total(Put(groups, e)) == Total(groups) + 1
  {
    var after := Put(groups, e);
    TotalSplit(after, e.key);
    assert after - {e.key} == groups - {e.key};
    if e.key in groups {
      TotalSplit(groups, e.key);
    } else {
      assert groups - {e.key} == groups;
    }
  }

  lemma {:induction false} TotalGrouped(entries: seq<Entry>)
    ensures Total(Grouped(entries)) == |entries|
  {
    if entries != [] {
      TotalGrouped(entries[..|entries| - 1]);
      TotalPut(Grouped(entries[..|entries| - 1]), entries[|entries| - 1]);
    }
  }

  // ---- One group

  function RowsUnder(entries: seq<Entry>, key: LessonKey): seq<Row> {
    if entries == [] then []
    else
      var last := entries[|entries| - 1];
      RowsUnder(entries[..|entries| - 1], key) + if last.key == key then [last.row] else []
  }

  function CountOf(rows: seq<Row>, rehearsal: bool, phase: Phase): nat {
    if rows == [] then 0
    else
      var last := rows[|rows| - 1];
      CountOf(rows[..|rows| - 1], rehearsal, phase)
      + if last.rehearsal == rehearsal && last.phase == phase then 1 else 0
  }

  /** The counts are those of the rows listed. */
  ghost predicate Tallies(c: Counts, rows: seq<Row>, rehearsal: bool) {
    && c.successes == CountOf(rows, rehearsal, Passed) && c.failures == CountOf(rows, rehearsal, Failed)
    && c.restored == CountOf(rows, rehearsal, Restored) && c.unknown == CountOf(rows, rehearsal, Unknown)
  }

  ghost predicate LessonOk(l: Lesson) {
    && Tallies(l.production, l.evidence, false) && Tallies(l.rehearsal, l.evidence, true)
    && forall i :: 0 <= i < |l.evidence| ==> Terminal(l.evidence[i].phase)
  }

  lemma CountSnoc(rows: seq<Row>, row: Row, rehearsal: bool, phase: Phase)
    ensures CountOf(rows + [row], rehearsal, phase) ==
      CountOf(rows, rehearsal, phase) + if row.rehearsal == rehearsal && row.phase == phase then 1 else 0
  {
    assert (rows + [row])[..|rows|] == rows;
  }

  /** One more row raises the one count it belongs to. */
  lemma TalliedOk(c: Counts, rows: seq<Row>, row: Row, rehearsal: bool)
    requires Tallies(c, rows, rehearsal) && Terminal(row.phase)
    ensures Tallies(if row.rehearsal == rehearsal then Tallied(c, row.phase) else c, rows + [row], rehearsal)
  {
    CountSnoc(rows, row, rehearsal, Passed);
    CountSnoc(rows, row, rehearsal, Failed);
    CountSnoc(rows, row, rehearsal, Restored);
    CountSnoc(rows, row, rehearsal, Unknown);
  }

  lemma NotedOk(l: Lesson, row: Row)
    requires LessonOk(l) && Terminal(row.phase)
    ensures LessonOk(Noted(l, row))
  {
    TalliedOk(l.production, l.evidence, row, false);
    TalliedOk(l.rehearsal, l.evidence, row, true);
  }

  lemma {:induction false} GroupsHoldTheirRows(entries: seq<Entry>, key: LessonKey)
    requires forall i :: 0 <= i < |entries| ==> Terminal(entries[i].row.phase)
    ensures key in Grouped(entries) <==> RowsUnder(entries, key) != []
    ensures key in Grouped(entries) ==>
      LessonOk(Grouped(entries)[key]) && Grouped(entries)[key].evidence == RowsUnder(entries, key)
  {
    if entries != [] {
      var rest, last := entries[..|entries| - 1], entries[|entries| - 1];
      GroupsHoldTheirRows(rest, key);
      if last.key == key {
        NotedOk(if key in Grouped(rest) then Grouped(rest)[key] else BLANK, last.row);
      }
    }
  }

  // ---- Where each row comes from

  ghost predicate Made(e: Entry, r: Run, i: nat, checks: Checks, now: int) {
    i < |r.targets| && Terminal(r.targets[i].phase) && e == EntryOf(r, i, checks, now)
  }

  lemma {:induction false} TargetsMakeEntries(before: seq<Entry>, r: Run, n: nat, checks: Checks, now: int, e: Entry)
    requires n <= |r.targets| && e in FromTargets(before, r, n, checks, now)
    ensures e in before || exists i :: Made(e, r, i, checks, now)
  {
    if n > 0 && e !in FromTargets(before, r, n - 1, checks, now) {
      assert Made(e, r, n - 1, checks, now);
    } else if n > 0 {
      TargetsMakeEntries(before, r, n - 1, checks, now, e);
    }
  }

  /**
   * A row is one target at rest of one finished run; it is a success exactly when the target is bound and evidenced.
   */
  lemma {:induction false} RowsComeFromTargets(runs: seq<Run>, checks: Checks, now: int, e: Entry) returns (k: nat,
      i: nat)
    requires e in Entries(runs, checks, now)
    ensures k < |runs| && Counted(runs[k], checks) && Made(e, runs[k], i, checks, now)
    ensures e.key == KeyOf(runs[k].scheme) && Terminal(e.row.phase)
    ensures e.row.phase == Passed <==> Bound(runs[k], i, checks) && EvidencedSuccess(runs[k], runs[k].targets[i], now)
  {
    var rest, last := runs[..|runs| - 1], runs[|runs| - 1];
    if e in Entries(rest, checks, now) {
      k, i := RowsComeFromTargets(rest, checks, now, e);
    } else {
      TargetsMakeEntries(Entries(rest, checks, now), last, |last.targets|, checks, now, e);
      k := |runs| - 1;
      i :| Made(e, last, i, checks, now);
    }
  }

  lemma EntriesAtRest(runs: seq<Run>, checks: Checks, now: int)
    ensures forall i :: 0 <= i < |Entries(runs, checks, now)| ==> Terminal(Entries(runs, checks, now)[i].row.phase)
  {
    var entries := Entries(runs, checks, now);
    forall i | 0 <= i < |entries| ensures Terminal(entries[i].row.phase) {
      var k, j := RowsComeFromTargets(runs, checks, now, entries[i]);
    }
  }

  // ---- The theorems

  /**
   * The lessons hold exactly as many rows as there are distinct pairs of run and computer due, and every count is the
   * number of rows of that phase.
   */
  lemma LessonsConserve(runs: seq<Run>, checks: Checks, now: int)
    ensures var entries := Entries(runs, checks, now);
      && Total(LessonsOf(runs, checks, now)) == |Pairs(entries)|
      && (forall pair :: pair in Pairs(entries) <==> Due(runs, checks, pair))
    ensures forall key :: key in LessonsOf(runs, checks, now) ==> LessonOk(LessonsOf(runs, checks, now)[key])
  {
    EntriesConserve(runs, checks, now);
    TotalGrouped(Entries(runs, checks, now));
    EntriesAtRest(runs, checks, now);
    forall key | key in LessonsOf(runs, checks, now) ensures LessonOk(LessonsOf(runs, checks, now)[key]) {
      GroupsHoldTheirRows(Entries(runs, checks, now), key);
    }
  }

  ghost predicate AtLeast(c: Counts, d: Counts) {
    c.successes <= d.successes && c.failures <= d.failures && c.restored <= d.restored && c.unknown <= d.unknown
  }

  ghost predicate Extends(l: Lesson, m: Lesson) {
    l.evidence <= m.evidence && AtLeast(l.production, m.production) && AtLeast(l.rehearsal, m.rehearsal)
  }

  lemma PutExtends(groups: map<LessonKey, Lesson>, e: Entry, key: LessonKey)
    requires key in groups
    ensures key in Put(groups, e) && Extends(groups[key], Put(groups, e)[key])
  {
  }

  lemma ExtendsOn(l: Lesson, m: Lesson, n: Lesson)
    requires Extends(l, m) && Extends(m, n)
    ensures Extends(l, n)
  {
  }

  lemma {:induction false} MoreEntries(entries: seq<Entry>, more: seq<Entry>, key: LessonKey)
    requires entries <= more && key in Grouped(entries)
    ensures key in Grouped(more) && Extends(Grouped(entries)[key], Grouped(more)[key])
  {
    if |entries| < |more| {
      var rest, last := more[..|more| - 1], more[|more| - 1];
      assert entries <= rest;
      MoreEntries(entries, rest, key);
      PutExtends(Grouped(rest), last, key);
      ExtendsOn(Grouped(entries)[key], Grouped(rest)[key], Put(Grouped(rest), last)[key]);
    } else {
      assert entries == more;
    }
  }

  /** Another run, read at the same time, never takes a row away nor lowers a count. */
  lemma AnotherRunOnlyAdds(runs: seq<Run>, r: Run, checks: Checks, now: int, key: LessonKey)
    requires key in LessonsOf(runs, checks, now)
    ensures key in LessonsOf(runs + [r], checks, now)
    ensures Extends(LessonsOf(runs, checks, now)[key], LessonsOf(runs + [r], checks, now)[key])
  {
    var before := Entries(runs, checks, now);
    EntriesConserve(runs, checks, now);
    assert (runs + [r])[..|runs|] == runs;
    TargetsCountOnce(before, r, |r.targets|, checks, now);
    assert before <= Entries(runs + [r], checks, now);
    MoreEntries(before, Entries(runs + [r], checks, now), key);
  }
  // ---- When time passes

  /**
   * What a target is counted as changes exactly if its evidence is complete but for a finish that was still to come.
   */
  lemma PhaseClears(r: Run, i: nat, checks: Checks, now: int, later: int)
    requires now <= later && i < |r.targets|
    ensures PhaseShown(r, i, checks, now) != PhaseShown(r, i, checks, later) <==>
      Bound(r, i, checks) && EvidencedSuccess(r, r.targets[i], later) && r.finished.value > now
    ensures PhaseShown(r, i, checks, now) != PhaseShown(r, i, checks, later) ==>
      PhaseShown(r, i, checks, now) == Unknown && PhaseShown(r, i, checks, later) == Passed
  {
  }

  ghost predicate RowClears(a: Row, b: Row) {
    b == a || (a.phase == Unknown && b == a.(phase := Passed))
  }

  ghost predicate RowsClear(a: seq<Row>, b: seq<Row>) {
    |a| == |b| && forall i :: 0 <= i < |a| ==> RowClears(a[i], b[i])
  }

  ghost predicate EntriesClear(a: seq<Entry>, b: seq<Entry>) {
    |a| == |b| && forall i :: 0 <= i < |a| ==> a[i].key == b[i].key && RowClears(a[i].row, b[i].row)
  }

  lemma PairsClear(a: seq<Entry>, b: seq<Entry>)
    requires EntriesClear(a, b)
    ensures Pairs(a) == Pairs(b)
  {
    forall i | 0 <= i < |a| ensures PairOf(a[i]) == PairOf(b[i]) { assert RowClears(a[i].row, b[i].row); }
  }

  lemma {:induction false} TargetsClear(a: seq<Entry>, b: seq<Entry>, r: Run, n: nat, checks: Checks, now: int,
      later: int)
    requires now <= later && n <= |r.targets| && EntriesClear(a, b)
    ensures EntriesClear(FromTargets(a, r, n, checks, now), FromTargets(b, r, n, checks, later))
  {
    if n > 0 {
      TargetsClear(a, b, r, n - 1, checks, now, later);
      PairsClear(FromTargets(a, r, n - 1, checks, now), FromTargets(b, r, n - 1, checks, later));
      PhaseClears(r, n - 1, checks, now, later);
    }
  }

  lemma {:induction false} AllClear(runs: seq<Run>, checks: Checks, now: int, later: int)
    requires now <= later
    ensures EntriesClear(Entries(runs, checks, now), Entries(runs, checks, later))
  {
    if runs != [] {
      var rest, last := runs[..|runs| - 1], runs[|runs| - 1];
      AllClear(rest, checks, now, later);
      TargetsClear(Entries(rest, checks, now), Entries(rest, checks, later), last, |last.targets|, checks, now, later);
    }
  }

  lemma {:induction false} GroupClears(a: seq<Entry>, b: seq<Entry>, key: LessonKey)
    requires EntriesClear(a, b)
    ensures RowsClear(RowsUnder(a, key), RowsUnder(b, key))
  {
    if a != [] {
      GroupClears(a[..|a| - 1], b[..|b| - 1], key);
      assert RowClears(a[|a| - 1].row, b[|a| - 1].row);
    }
  }

  lemma {:induction false} CountsClear(a: seq<Row>, b: seq<Row>, rehearsal: bool)
    requires RowsClear(a, b)
    ensures CountOf(a, rehearsal, Failed) == CountOf(b, rehearsal, Failed)
    ensures CountOf(a, rehearsal, Restored) == CountOf(b, rehearsal, Restored)
    ensures CountOf(a, rehearsal, Passed) <= CountOf(b, rehearsal, Passed)
    ensures CountOf(a, rehearsal, Passed) + CountOf(a, rehearsal, Unknown) ==
      CountOf(b, rehearsal, Passed) + CountOf(b, rehearsal, Unknown)
  {
    if a != [] {
      CountsClear(a[..|a| - 1], b[..|b| - 1], rehearsal);
      assert RowClears(a[|a| - 1], b[|a| - 1]);
    }
  }

  ghost predicate CountsCleared(c: Counts, d: Counts) {
    && d.failures == c.failures && d.restored == c.restored
    && c.successes <= d.successes && c.successes + c.unknown == d.successes + d.unknown
  }

  /**
   * As time passes over one journal, no group or row comes or goes, and only unknown counts can fall, by as much as
   * successes rise: for runs recorded as finished by a clock that was ahead.
   */
  lemma TimeOnlyClears(runs: seq<Run>, checks: Checks, now: int, later: int, key: LessonKey)
    requires now <= later
    ensures key in LessonsOf(runs, checks, now) <==> key in LessonsOf(runs, checks, later)
    ensures key in LessonsOf(runs, checks, now) ==>
      var l, m := LessonsOf(runs, checks, now)[key], LessonsOf(runs, checks, later)[key];
      RowsClear(l.evidence, m.evidence) && CountsCleared(l.production, m.production)
        && CountsCleared(l.rehearsal, m.rehearsal)
  {
    var a, b := Entries(runs, checks, now), Entries(runs, checks, later);
    EntriesAtRest(runs, checks, now);
    EntriesAtRest(runs, checks, later);
    GroupsHoldTheirRows(a, key);
    GroupsHoldTheirRows(b, key);
    AllClear(runs, checks, now, later);
    GroupClears(a, b, key);
    CountsClear(RowsUnder(a, key), RowsUnder(b, key), false);
    CountsClear(RowsUnder(a, key), RowsUnder(b, key), true);
  }
}
