/**
 * What a DACL grants, after section 2.5.3.2 of MS-DTYP, defined apart from the rewriter; and the proof that rewriting
 * a descriptor never changes it.
 */
module SddlMeaning {
  import opened Outcomes
  import opened SddlText
  import opened Sddl

  /** Flags are two-letter words; an ACE marked IO only serves inheritance and is skipped by the check. */
  ghost predicate HasFlag(flags: string, word: string) {
    exists k: nat :: 2 * k + 2 <= |flags| && flags[2 * k..2 * k + 2] == word
  }

  /** The words section 2.5.1.1 of MS-DTYP allows in ACE flags. */
  predicate FlagWord(w: string) {
    w == "CI" || w == "OI" || w == "NP" || w == "IO" || w == "ID" || w == "SA" || w == "FA"
  }

  ghost predicate FlagText(flags: string) {
    |flags| % 2 == 0 && forall k: nat :: 2 * k + 2 <= |flags| ==> FlagWord(flags[2 * k..2 * k + 2])
  }

  /** How a token and a decoding of rights are seen by the check. */
  datatype Request = Request(inToken: string -> bool, rights: string -> set<nat>)

  /** One ACE of the check; `None` stands for access denied, `Some` for the rights still wanted. */
  ghost function Visit(a: Ace, left: Option<set<nat>>, q: Request): Option<set<nat>> {
    if left.None? || HasFlag(a.flags, "IO") || !q.inToken(a.sid) then left
    else if a.kind.Allow? then Some(left.value - q.rights(a.rights))
    else if left.value * q.rights(a.rights) != {} then None
    else left
  }

  ghost function Walk(aces: seq<Ace>, left: Option<set<nat>>, q: Request): Option<set<nat>> {
    if aces == [] then left else Walk(aces[1..], Visit(aces[0], left, q), q)
  }

  /**
   * The ordered access check: an allow ACE for a SID of the token removes its rights from those still wanted, a deny
   * ACE for one fails the check if it names a right still wanted, and all wanted rights must be gone at the end.
   */
  ghost predicate Grants(aces: seq<Ace>, wanted: set<nat>, q: Request) {
    Walk(aces, Some(wanted), q) == Some({})
  }

  // ---- Reordering within a run

  ghost predicate OneKind(aces: seq<Ace>, kind: AceKind) {
    forall i :: 0 <= i < |aces| ==> aces[i].kind == kind
  }

  lemma {:induction false} WalkAppend(a: seq<Ace>, b: seq<Ace>, left: Option<set<nat>>, q: Request)
    ensures Walk(a + b, left, q) == Walk(b, Walk(a, left, q), q)
  {
    if a == [] {
      assert a + b == b;
    } else {
      WalkAppend(a[1..], b, Visit(a[0], left, q), q);
      assert (a + b)[1..] == a[1..] + b;
    }
  }

  /** Two ACEs of one type may be visited in either order. */
  lemma VisitsCommute(x: Ace, y: Ace, left: Option<set<nat>>, q: Request)
    requires x.kind == y.kind
    ensures Visit(x, Visit(y, left, q), q) == Visit(y, Visit(x, left, q), q)
  {
    if left.Some? {
      assert (left.value - q.rights(x.rights)) - q.rights(y.rights) ==
        (left.value - q.rights(y.rights)) - q.rights(x.rights);
    }
  }

  lemma {:induction false} InsertWalks(x: Ace, run: seq<Ace>, left: Option<set<nat>>, q: Request)
    requires OneKind(run, x.kind)
    ensures Walk(InsertAce(x, run), left, q) == Walk(run, Visit(x, left, q), q)
  {
    if run == [] || Leq(Rendered(x), Rendered(run[0])) {
      assert ([x] + run)[1..] == run;
    } else {
      InsertWalks(x, run[1..], Visit(run[0], left, q), q);
      VisitsCommute(x, run[0], left, q);
      assert InsertAce(x, run)[1..] == InsertAce(x, run[1..]);
    }
  }

  lemma {:induction false} SortKeepsKind(run: seq<Ace>, kind: AceKind)
    requires OneKind(run, kind)
    ensures OneKind(SortedRun(run), kind)
  {
    var sorted := SortedRun(run);
    forall i | 0 <= i < |sorted|
      ensures sorted[i].kind == kind
    {
      assert sorted[i] in run;
    }
  }

  lemma {:induction false} SortWalks(run: seq<Ace>, kind: AceKind, left: Option<set<nat>>, q: Request)
    requires OneKind(run, kind)
    ensures Walk(SortedRun(run), left, q) == Walk(run, left, q)
  {
    if run != [] {
      SortKeepsKind(run[1..], kind);
      InsertWalks(run[0], SortedRun(run[1..]), left, q);
      SortWalks(run[1..], kind, Visit(run[0], left, q), q);
    }
  }

  // ---- All runs

  function Flat(runs: seq<seq<Ace>>): seq<Ace> {
    if runs == [] then [] else Flat(runs[..|runs| - 1]) + runs[|runs| - 1]
  }

  ghost predicate UniformRuns(runs: seq<seq<Ace>>) {
    forall i :: 0 <= i < |runs| ==> runs[i] != [] && OneKind(runs[i], runs[i][0].kind)
  }

  lemma FlatExtend(runs: seq<seq<Ace>>, a: Ace)
    requires runs != [] && UniformRuns(runs) && runs[|runs| - 1][0].kind == a.kind
    ensures var m := |runs| - 1;
      var more := runs[..m] + [runs[m] + [a]];
      Flat(more) == Flat(runs) + [a] && UniformRuns(more)
  {
    var m := |runs| - 1;
    var more := runs[..m] + [runs[m] + [a]];
    assert more[..m] == runs[..m];
    assert Flat(runs[..m]) + (runs[m] + [a]) == (Flat(runs[..m]) + runs[m]) + [a];
    assert OneKind(runs[m], runs[m][0].kind);
    assert OneKind(more[m], more[m][0].kind);
  }

  lemma FlatStart(runs: seq<seq<Ace>>, a: Ace)
    requires UniformRuns(runs)
    ensures Flat(runs + [[a]]) == Flat(runs) + [a] && UniformRuns(runs + [[a]])
  {
    var more := runs + [[a]];
    assert more[..|more| - 1] == runs;
  }

  /** The runs are cut from the list without dropping, repeating or moving an ACE, and each has one type. */
  lemma {:induction false} RunsCover(aces: seq<Ace>)
    ensures Flat(Runs(aces)) == aces && UniformRuns(Runs(aces))
  {
    if aces != [] {
      var n := |aces| - 1;
      var front, a := aces[..n], aces[n];
      assert aces == front + [a];
      RunsCover(front);
      RunsCoverSnoc(front, a);
    }
  }

  lemma RunsCoverSnoc(front: seq<Ace>, a: Ace)
    requires Flat(Runs(front)) == front && UniformRuns(Runs(front))
    ensures Flat(Runs(front + [a])) == front + [a] && UniformRuns(Runs(front + [a]))
  {
    var n, runs := |front|, Runs(front);
    RunsSnoc(front, a);
    if n > 0 && Key(front[n - 1]) == Key(a) {
      var last := runs[|runs| - 1];
      assert OneKind(last, last[0].kind) && last[|last| - 1] == front[n - 1];
      FlatExtend(runs, a);
    } else {
      FlatStart(runs, a);
    }
  }

  lemma {:induction false} SortedFlatWalks(runs: seq<seq<Ace>>, left: Option<set<nat>>, q: Request)
    requires UniformRuns(runs)
    ensures Walk(SortedFlat(runs), left, q) == Walk(Flat(runs), left, q)
  {
    if runs != [] {
      var n := |runs| - 1;
      var front, last := runs[..n], runs[n];
      SortedFlatWalks(front, left, q);
      WalkAppend(SortedFlat(front), SortedRun(last), left, q);
      WalkAppend(Flat(front), last, left, q);
      SortWalks(last, last[0].kind, Walk(Flat(front), left, q), q);
    }
  }

  // ---- Stripping ID under a protected DACL

  /** Deleting the word ID from well-formed flags deletes that word and nothing else. */
  lemma {:induction false} RemovedWord(flags: string, word: string)
    requires FlagText(flags) && word != "ID"
    ensures FlagText(Removed(flags, "ID"))
    ensures HasFlag(Removed(flags, "ID"), word) <==> HasFlag(flags, word)
    ensures !HasFlag(Removed(flags, "ID"), "ID")
  {
    if flags != [] {
      var first, rest := flags[..2], flags[2..];
      assert FlagWord(flags[2 * 0..2 * 0 + 2]);
      FlagTail(flags);
      RemovedWord(rest, word);
      FlagFront(flags, word);
      if first != "ID" {
        assert flags == first + rest;
        RemovedKeepsWord(first, rest);
        assert Removed(flags, "ID")[2..] == Removed(rest, "ID");
        FlagBack(Removed(flags, "ID"));
        FlagFront(Removed(flags, "ID"), word);
        FlagFront(Removed(flags, "ID"), "ID");
      }
    }
  }

  lemma NotId(c: char, d: char)
    requires d != 'D'
    ensures [c, d] != "ID"
  {
    assert [c, d][1] == d;
  }

  /** A word other than ID survives in front: no ID can begin inside it. */
  lemma RemovedKeepsWord(first: string, rest: string)
    requires FlagWord(first) && first != "ID" && FlagText(rest)
    ensures Removed(first + rest, "ID") == first + Removed(rest, "ID")
  {
    if rest != [] {
      assert FlagWord(rest[2 * 0..2 * 0 + 2]);
      assert rest[0] == rest[2 * 0..2 * 0 + 2][0] != 'D';
      NotId(first[1], rest[0]);
    }
    RemovedSkipsWord(first, rest, "ID");
  }

  lemma FlagTail(flags: string)
    requires FlagText(flags) && flags != []
    ensures FlagText(flags[2..])
  {
    forall k: nat | 2 * k + 2 <= |flags[2..]|
      ensures FlagWord(flags[2..][2 * k..2 * k + 2])
    {
      assert flags[2..][2 * k..2 * k + 2] == flags[2 * (k + 1)..2 * (k + 1) + 2];
    }
  }

  lemma FlagBack(flags: string)
    requires |flags| >= 2 && FlagWord(flags[..2]) && FlagText(flags[2..])
    ensures FlagText(flags)
  {
    forall k: nat | 2 * k + 2 <= |flags|
      ensures FlagWord(flags[2 * k..2 * k + 2])
    {
      if k > 0 {
        assert flags[2..][2 * (k - 1)..2 * (k - 1) + 2] == flags[2 * k..2 * k + 2];
      }
    }
  }

  lemma PairAfterTwo(flags: string, k: nat)
    requires 2 * k + 4 <= |flags|
    ensures flags[2..][2 * k..2 * k + 2] == flags[2 * (k + 1)..2 * (k + 1) + 2]
  {
  }

  lemma FlagFront(flags: string, word: string)
    requires |flags| >= 2
    ensures HasFlag(flags, word) <==> flags[..2] == word || HasFlag(flags[2..], word)
  {
    if flags[..2] == word {
      assert flags[2 * 0..2 * 0 + 2] == word;
    }
    if HasFlag(flags, word) {
      var k: nat :| 2 * k + 2 <= |flags| && flags[2 * k..2 * k + 2] == word;
      if k > 0 {
        PairAfterTwo(flags, k - 1);
      }
    }
    if HasFlag(flags[2..], word) {
      var k: nat :| 2 * k + 2 <= |flags[2..]| && flags[2..][2 * k..2 * k + 2] == word;
      PairAfterTwo(flags, k);
      assert flags[2 * (k + 1)..2 * (k + 1) + 2] == word;
    }
  }

  /** Stripping ID neither uncovers nor removes the word IO: the check an ACE's flags can be put to beforehand. */
  ghost predicate SameIo(a: Ace) {
    HasFlag(Removed(a.flags, "ID"), "IO") <==> HasFlag(a.flags, "IO")
  }

  ghost predicate SafeToStrip(aces: seq<Ace>) {
    forall i :: 0 <= i < |aces| ==> SameIo(aces[i])
  }

  lemma {:induction false} StripWalks(aces: seq<Ace>, protected: bool, left: Option<set<nat>>, q: Request)
    requires protected ==> SafeToStrip(aces)
    ensures Walk(StrippedAll(aces, protected), left, q) == Walk(aces, left, q)
  {
    if aces != [] {
      assert protected ==> SameIo(aces[0]);
      StripWalks(aces[1..], protected, Visit(aces[0], left, q), q);
      assert StrippedAll(aces, protected)[1..] == StrippedAll(aces[1..], protected);
    }
  }

  // ---- Main result

  /**
   * The canonical descriptor grants exactly what the original grants: for every token, every decoding of rights and
   * every set of wanted rights, whenever nothing is stripped or stripping leaves every ACE's IO as it was. For one ACE
   * that condition is exact, below; for a list it is sufficient, since an ACE may be redundant.
   */
  lemma CanonicalGrantsTheSame(d: Descriptor, wanted: set<nat>, q: Request)
    requires Protected(d.control) ==> SafeToStrip(d.aces)
    ensures Grants(Canonical(d).aces, wanted, q) <==> Grants(d.aces, wanted, q)
  {
    var stripped := StrippedAll(d.aces, Protected(d.control));
    StripWalks(d.aces, Protected(d.control), Some(wanted), q);
    RunsCover(stripped);
    SortedFlatWalks(Runs(stripped), Some(wanted), q);
  }

  ghost predicate WellFormedFlags(aces: seq<Ace>) {
    forall i :: 0 <= i < |aces| ==> FlagText(aces[i].flags)
  }

  /** Well-formed flags are always safe. */
  lemma WellFormedIsSafe(aces: seq<Ace>)
    requires WellFormedFlags(aces)
    ensures SafeToStrip(aces)
  {
    forall i | 0 <= i < |aces|
      ensures SameIo(aces[i])
    {
      RemovedWord(aces[i].flags, "IO");
    }
  }

  // ---- The condition is exact

  ghost predicate VisitedAlike(a: Ace, b: Ace) {
    forall left: Option<set<nat>>, q: Request :: Visit(a, left, q) == Visit(b, left, q)
  }

  /** A single ACE means the same after stripping if and only if its IO is left as it was. */
  lemma StrippedAceMeansTheSame(a: Ace)
    ensures VisitedAlike(Stripped(a, true), a) <==> SameIo(a)
  {
    if !SameIo(a) {
      var q := EveryOne();
      RightGone();
      assert Visit(Stripped(a, true), Some({0}), q) != Visit(a, Some({0}), q);
    }
  }

  /** Every SID is in the token, and all rights text names the one right 0. */
  function EveryOne(): Request {
    Request(_ => true, _ => {0})
  }

  lemma RightGone()
    ensures var one: set<nat> := {0}; one - EveryOne().rights("") == {} && one * EveryOne().rights("") != {}
  {
    var one: set<nat> := {0};
    assert one * EveryOne().rights("") == one && 0 in one;
    assert one - one == {};
  }

  /** Granted alike inside every list: whatever stands before and after, and whoever asks. */
  ghost predicate GrantedAlike(a: Ace, b: Ace) {
    forall before: seq<Ace>, after: seq<Ace>, wanted: set<nat>, q: Request ::
      Grants(before + [a] + after, wanted, q) <==> Grants(before + [b] + after, wanted, q)
  }

  lemma WalkThrough(before: seq<Ace>, a: Ace, after: seq<Ace>, left: Option<set<nat>>, q: Request)
    ensures Walk(before + [a] + after, left, q) == Walk(after, Visit(a, Walk(before, left, q), q), q)
  {
    var one := [a];
    assert one[1..] == [];
    WalkAppend(before + one, after, left, q);
    WalkAppend(before, one, left, q);
  }

  /** A deny ACE followed by an allow ACE for everything: granted only when the first is skipped. */
  lemma DenyShows(a: Ace)
    requires a.kind.Deny?
    ensures var all := a.(kind := Allow, flags := ""); Grants([] + [a] + [all], {0}, EveryOne()) <==>
      HasFlag(a.flags, "IO")
  {
    var all, q := a.(kind := Allow, flags := ""), EveryOne();
    RightGone();
    WalkThrough([], a, [all], Some({0}), q);
    var left := Visit(a, Some({0}), q);
    assert [all][1..] == [];
    assert Walk([all], left, q) == Visit(all, left, q);
  }

  lemma AllowShows(a: Ace)
    requires a.kind.Allow?
    ensures Grants([] + [a] + [], {0}, EveryOne()) <==> !HasFlag(a.flags, "IO")
  {
    RightGone();
    WalkThrough([], a, [], Some({0}), EveryOne());
    var one: set<nat> := {0};
    assert 0 in one && one != {};
  }

  /**
   * The exact condition for access decisions: an ACE may be stripped without changing any decision of any list it
   * stands in if and only if stripping leaves its IO as it was.
   */
  lemma StrippingChangesDecisions(a: Ace)
    ensures GrantedAlike(Stripped(a, true), a) <==> SameIo(a)
  {
    var b := Stripped(a, true);
    if SameIo(a) {
      forall before: seq<Ace>, after: seq<Ace>, wanted: set<nat>, q: Request
        ensures Grants(before + [b] + after, wanted, q) <==> Grants(before + [a] + after, wanted, q)
      {
        WalkThrough(before, a, after, Some(wanted), q);
        WalkThrough(before, b, after, Some(wanted), q);
      }
    } else if GrantedAlike(b, a) {
      if a.kind.Allow? {
        AllowShows(a);
        AllowShows(b);
      } else {
        DenyShows(a);
        DenyShows(b);
      }
    }
  }

  // ---- For a whole list the condition is sufficient only

  /** After an ACE that is not skipped, another one for the same SID and rights has no effect. */
  lemma SecondHasNoEffect(a: Ace, b: Ace, left: Option<set<nat>>, q: Request)
    requires !HasFlag(a.flags, "IO") && b.sid == a.sid && b.rights == a.rights
    ensures Visit(b, Visit(a, left, q), q) == Visit(a, left, q)
  {
    if left.Some? && q.inToken(a.sid) {
      var rights := q.rights(a.rights);
      var gone := left.value - rights;
      assert gone - rights == gone && forall x :: x !in gone * rights;
      if left.value * rights == {} {
        assert forall x :: x in left.value && x in rights ==> x in left.value * rights;
        assert gone == left.value;
      }
    }
  }

  /** So an ACE behind such a one may be stripped whatever becomes of its IO. */
  lemma UnsafeMayBeRedundant(a: Ace, b: Ace, rest: seq<Ace>, wanted: set<nat>, q: Request)
    requires !HasFlag(a.flags, "IO") && b.sid == a.sid && b.rights == a.rights
    ensures Grants([a] + [Stripped(b, true)] + rest, wanted, q) <==> Grants([a] + [b] + rest, wanted, q)
  {
    var c := Stripped(b, true);
    WalkThrough([a], b, rest, Some(wanted), q);
    WalkThrough([a], c, rest, Some(wanted), q);
    WalkThrough([], a, [], Some(wanted), q);
    assert [] + [a] + [] == [a];
    SecondHasNoEffect(a, b, Some(wanted), q);
    SecondHasNoEffect(a, c, Some(wanted), q);
  }

  lemma StripMalformed()
    ensures Removed("IIDO", "ID") == "IO"
  {
    assert "IIDO"[1..] == "IDO" && "IDO"[2..] == "O";
    assert "IIDO"[..2] == "II" && "IDO"[..2] == "ID";
    assert Removed("IDO", "ID") == "O";
  }

  lemma SingleRun(a: Ace)
    ensures SortedFlat(Runs([a])) == [a]
  {
    var one: seq<Ace> := [a];
    assert one[..0] == [] && one[1..] == [];
    var runs: seq<seq<Ace>> := [one];
    assert Runs(one) == runs;
    assert runs[..0] == [];
    assert SortedRun(one) == one;
  }

  /**
   * The condition can fail: stripping ID from malformed flags can leave IO behind, and an allow ACE that granted a
   * right before is skipped afterwards.
   */
  lemma MalformedFlagsChangeTheAnswer(q: Request)
    requires q.inToken("WD") && q.rights("GA") == {0}
    ensures var d := Descriptor("D:", "P", [Ace(Allow, "IIDO", "GA", "", "", "WD")]);
      Grants(d.aces, {0}, q) && !Grants(Canonical(d).aces, {0}, q)
  {
    var a := Ace(Allow, "IIDO", "GA", "", "", "WD");
    var b := a.(flags := "IO");
    var d := Descriptor("D:", "P", [a]);
    assert Removed("P", "AI") == "P" && Removed("P", "AR") == "P";
    StripMalformed();
    assert StrippedAll(d.aces, true) == [b];
    SingleRun(b);
    MalformedFlagWords();
    OneAceWalk(a, q);
    OneAceWalk(b, q);
  }

  lemma MalformedFlagWords()
    ensures !HasFlag("IIDO", "IO") && HasFlag("IO", "IO")
  {
    assert "IO"[2 * 0..2 * 0 + 2] == "IO";
    forall k: nat | 2 * k + 2 <= 4
      ensures "IIDO"[2 * k..2 * k + 2] != "IO"
    {
      assert "IIDO"[2 * k..2 * k + 2][1] == "IIDO"[2 * k + 1];
      assert "IIDO"[2 * k..2 * k + 2][0] == "IIDO"[2 * k];
      assert k == 0 || k == 1;
    }
  }

  lemma OneAceWalk(a: Ace, q: Request)
    requires a.kind.Allow? && q.inToken(a.sid) && q.rights(a.rights) == {0}
    ensures Grants([a], {0}, q) <==> !HasFlag(a.flags, "IO")
  {
    var wanted: set<nat>, none: set<nat> := {0}, {};
    assert wanted - q.rights(a.rights) == none;
    assert 0 in wanted && wanted != none;
    var one := [a];
    assert one[1..] == [];
    assert Walk(one, Some(wanted), q) == Visit(a, Some(wanted), q);
  }
}
