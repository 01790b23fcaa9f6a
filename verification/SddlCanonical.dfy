/**
 * The rewritten descriptor is a canonical form: what it parses back to, when it is a fixed point, and what it tells
 * apart.
 */
module SddlCanonical {
  import opened Outcomes
  import opened SddlText
  import opened Sddl
  import opened SddlMeaning

  // ---- Reading and writing are inverse

  ghost predicate PlainField(f: string) { ';' !in f && ')' !in f }

  ghost predicate Plain(a: Ace) {
    PlainField(a.flags) && PlainField(a.rights) && PlainField(a.objectId) && PlainField(a.inheritId)
      && PlainField(a.sid)
  }

  ghost predicate AllPlain(aces: seq<Ace>) {
    forall i :: 0 <= i < |aces| ==> Plain(aces[i])
  }

  /** A prefix that runs exactly through the first "D:". */
  ghost predicate DaclPrefix(prefix: string) {
    |prefix| >= 2 && At(prefix, "D:", |prefix| - 2) && forall j: nat :: j < |prefix| - 2 ==> !At(prefix, "D:", j)
  }

  ghost predicate Sound(d: Descriptor) {
    DaclPrefix(d.prefix) && '(' !in d.control && AllPlain(d.aces)
  }

  function AcesText(aces: seq<Ace>): string { Concat(RenderedAll(aces)) }

  ghost predicate FirstAt(s: string, pat: string, i: nat) {
    At(s, pat, i) && forall j: nat :: j < i ==> !At(s, pat, j)
  }

  lemma AtChar(s: string, c: char, i: nat)
    ensures At(s, [c], i) <==> i < |s| && s[i] == c
  {
    if i < |s| {
      assert s[i..i + 1] == [s[i]];
    }
  }

  lemma NoneBefore(s: string, c: char, close: nat)
    requires FirstAt(s, [c], close)
    ensures close < |s| && s[close] == c && c !in s[..close]
  {
    AtChar(s, c, close);
    forall j | 0 <= j < close
      ensures s[j] != c
    {
      AtChar(s, c, j);
    }
  }

  lemma FieldsInside(inner: string, fields: seq<string>)
    requires ')' !in inner && fields == Split(inner, ';') && StandardFields(fields)
    ensures Plain(FromFields(fields)) && Rendered(FromFields(fields)) == "(" + inner + ")"
  {
    forall i, x | 0 <= i < 6 && x in fields[i]
      ensures x != ';' && x != ')'
    {
      assert fields[i] in fields && x in inner;
    }
    assert Fields(FromFields(fields)) == fields;
    JoinSplit(inner, ';');
  }

  lemma FirstAce(tail: string, close: nat, fields: seq<string>)
    requires tail != [] && tail[0] == '(' && 0 < close < |tail| && tail[close] == ')' && ')' !in tail[..close]
    requires fields == Split(tail[1..close], ';') && StandardFields(fields)
    ensures Plain(FromFields(fields)) && Rendered(FromFields(fields)) + tail[close + 1..] == tail
  {
    var inner := tail[1..close];
    assert forall x :: x in inner ==> x in tail[..close];
    FieldsInside(inner, fields);
    assert tail == "(" + inner + ")" + tail[close + 1..];
  }

  lemma AcesTextCons(a: Ace, rest: seq<Ace>)
    ensures AcesText([a] + rest) == Rendered(a) + AcesText(rest)
  {
    RenderedCons(a, rest);
  }

  lemma {:induction false} ParsedAcesText(tail: string)
    requires ParsedAces(tail).Ok?
    ensures AllPlain(ParsedAces(tail).value) && AcesText(ParsedAces(tail).value) == tail
  {
    if tail != [] {
      var close := Find(tail, ")").value;
      var fields := Split(tail[1..close], ';');
      NoneBefore(tail, ')', close);
      assert close > 0;
      FirstAce(tail, close, fields);
      ParsedAcesText(tail[close + 1..]);
      AcesTextCons(FromFields(fields), ParsedAces(tail[close + 1..]).value);
    }
  }

  lemma RenderedInner(a: Ace)
    requires Plain(a)
    ensures var inner := Join(Fields(a), ';');
      Rendered(a) == "(" + inner + ")" && ')' !in inner && Split(inner, ';') == Fields(a)
  {
    var fields := Fields(a);
    SplitJoin(fields, ';');
  }

  lemma FindClose(inner: string, rest: string)
    requires ')' !in inner
    ensures Find("(" + inner + ")" + rest, ")") == Some(|inner| + 1)
  {
    var s := "(" + inner + ")" + rest;
    assert s[|inner| + 1..|inner| + 2] == ")";
    forall j: nat | j < |inner| + 1
      ensures !At(s, ")", j)
    {
      assert s[j..j + 1] == [s[j]];
      if j > 0 {
        assert s[j] == inner[j - 1];
      }
    }
    FindIs(s, ")", |inner| + 1);
  }

  /** One rendered ACE in front is read back before the rest. */
  lemma ParsedFirst(a: Ace, rest: string)
    requires Plain(a)
    ensures ParsedAces(Rendered(a) + rest) == Resumed([a], ParsedAces(rest))
  {
    RenderedInner(a);
    var inner := Join(Fields(a), ';');
    FindClose(inner, rest);
    var text := Rendered(a) + rest;
    assert text[1..|inner| + 1] == inner && text[|inner| + 2..] == rest;
  }

  lemma {:induction false} AcesTextParsed(aces: seq<Ace>)
    requires AllPlain(aces)
    ensures ParsedAces(AcesText(aces)) == Ok(aces)
  {
    if aces != [] {
      var a, rest := aces[0], aces[1..];
      AcesTextParsed(rest);
      ParsedFirst(a, AcesText(rest));
      assert aces == [a] + rest;
      AcesTextCons(a, rest);
    }
  }

  lemma {:induction false} ControlEndIs(control: string, aces: string)
    requires '(' !in control && (aces == [] || aces[0] == '(')
    ensures ControlEnd(control + aces) == |control|
  {
    if control != [] {
      assert (control + aces)[1..] == control[1..] + aces;
      assert control[0] in control;
      ControlEndIs(control[1..], aces);
    } else {
      assert control + aces == aces;
    }
  }

  lemma DaclStartIs(prefix: string, rest: string)
    requires DaclPrefix(prefix)
    ensures DaclStart(prefix + rest) == Some(|prefix|)
  {
    var s := prefix + rest;
    assert s[|prefix| - 2..|prefix|] == prefix[|prefix| - 2..];
    forall j: nat | j < |prefix| - 2
      ensures !At(s, "D:", j)
    {
      assert s[j..j + 2] == prefix[j..j + 2];
      assert |"D:"| == 2 && !At(prefix, "D:", j);
    }
    FindIs(s, "D:", |prefix| - 2);
  }

  /** Writing a sound descriptor and reading it back gives it back. */
  lemma TextParsed(d: Descriptor)
    requires Sound(d)
    ensures ParsedDacl(Text(d)) == Ok(d)
  {
    var aces := AcesText(d.aces);
    var s := d.prefix + d.control + aces;
    assert s == d.prefix + (d.control + aces);
    DaclStartIs(d.prefix, d.control + aces);
    assert s[|d.prefix|..] == d.control + aces;
    if d.aces != [] {
      assert aces[0] == Rendered(d.aces[0])[0];
    }
    ControlEndIs(d.control, aces);
    AcesTextParsed(d.aces);
    assert s[..|d.prefix|] == d.prefix;
    assert s[|d.prefix|..|d.prefix| + |d.control|] == d.control;
    assert s[|d.prefix| + |d.control|..] == aces;
  }

  lemma FirstDaclPrefix(s: string, i: nat)
    requires FirstAt(s, "D:", i)
    ensures DaclPrefix(s[..i + 2])
  {
    var prefix := s[..i + 2];
    assert |"D:"| == 2;
    assert prefix[i..i + 2] == s[i..i + 2];
    forall j: nat | j < i
      ensures !At(prefix, "D:", j)
    {
      assert !At(s, "D:", j) && prefix[j..j + 2] == s[j..j + 2];
    }
  }

  lemma DaclStartPrefix(s: string, start: nat)
    requires DaclStart(s) == Some(start)
    ensures DaclPrefix(s[..start])
  {
    FirstDaclPrefix(s, Find(s, "D:").value);
  }

  lemma ThreeParts(s: string, start: nat, end: nat)
    requires start <= end <= |s|
    ensures s[..start] + s[start..end] + s[end..] == s
  {
  }

  lemma CutText(s: string, start: nat, end: nat)
    requires start <= end <= |s| && Cut(s, start, end).Ok? && DaclPrefix(s[..start]) && '(' !in s[start..end]
    ensures Sound(Cut(s, start, end).value) && Text(Cut(s, start, end).value) == s
  {
    ParsedAcesText(s[end..]);
    ThreeParts(s, start, end);
    var d := Cut(s, start, end).value;
    assert d == Descriptor(s[..start], s[start..end], ParsedAces(s[end..]).value);
  }

  lemma ControlInside(s: string, start: nat, end: nat)
    requires start <= |s| && end == start + ControlEnd(s[start..])
    ensures '(' !in s[start..end]
  {
    assert s[start..end] == s[start..][..end - start];
  }

  /** Reading an accepted text and writing it back gives the same text. */
  lemma ParsedText(s: string)
    requires ParsedDacl(s).Ok?
    ensures Sound(ParsedDacl(s).value) && Text(ParsedDacl(s).value) == s
  {
    var start := DaclStart(s).value;
    var end := start + ControlEnd(s[start..]);
    assert ParsedDacl(s) == Cut(s, start, end);
    assert DaclPrefix(s[..start]) by { DaclStartPrefix(s, start); }
    assert '(' !in s[start..end] by { ControlInside(s, start, end); }
    CutText(s, start, end);
  }

  // ---- The runs of a canonical descriptor

  function SortedRuns(runs: seq<seq<Ace>>): (r: seq<seq<Ace>>)
    ensures |r| == |runs| && forall i :: 0 <= i < |r| ==> r[i] == SortedRun(runs[i])
  {
    seq(|runs|, i requires 0 <= i < |runs| => SortedRun(runs[i]))
  }

  lemma {:induction false} SortedFlatIsFlat(runs: seq<seq<Ace>>)
    ensures SortedFlat(runs) == Flat(SortedRuns(runs))
  {
    if runs != [] {
      var n := |runs| - 1;
      SortedFlatIsFlat(runs[..n]);
      assert SortedRuns(runs)[..n] == SortedRuns(runs[..n]);
    }
  }

  ghost predicate OneKey(run: seq<Ace>, key: RunKey) {
    run != [] && forall i :: 0 <= i < |run| ==> Key(run[i]) == key
  }

  /** Maximal runs: each has one key, and neighbours have different keys. */
  ghost predicate Maximal(runs: seq<seq<Ace>>) {
    && (forall i :: 0 <= i < |runs| ==> runs[i] != [] && OneKey(runs[i], Key(runs[i][0])))
    && (forall i :: 0 < i < |runs| ==> Key(runs[i - 1][0]) != Key(runs[i][0]))
  }

  lemma MaximalExtend(runs: seq<seq<Ace>>, a: Ace)
    requires Maximal(runs) && runs != [] && Key(runs[|runs| - 1][0]) == Key(a)
    ensures Maximal(runs[..|runs| - 1] + [runs[|runs| - 1] + [a]])
  {
    var m := |runs| - 1;
    assert OneKey(runs[m] + [a], Key(runs[m][0]));
  }

  lemma MaximalStart(runs: seq<seq<Ace>>, a: Ace)
    requires Maximal(runs) && (runs != [] ==> Key(runs[|runs| - 1][0]) != Key(a))
    ensures Maximal(runs + [[a]])
  {
    assert OneKey([a], Key(a));
  }

  lemma {:induction false} RunsMaximal(aces: seq<Ace>)
    ensures Maximal(Runs(aces))
  {
    if aces != [] {
      var n := |aces| - 1;
      var front, a := aces[..n], aces[n];
      assert aces == front + [a];
      RunsMaximal(front);
      RunsSnoc(front, a);
      if n > 0 && Key(front[n - 1]) == Key(a) {
        MaximalExtend(Runs(front), a);
      } else {
        MaximalStart(Runs(front), a);
      }
    }
  }

  lemma SnocParts(front: seq<Ace>, run: seq<Ace>, n: nat)
    requires n + 1 == |run|
    ensures run[..n] + [run[n]] == run && front + run == front + run[..n] + [run[n]]
  {
  }

  /** Appending a run with a new key starts exactly one new run. */
  lemma {:induction false} RunsAppend(front: seq<Ace>, run: seq<Ace>)
    requires run != [] && OneKey(run, Key(run[0]))
    requires front != [] ==> Key(front[|front| - 1]) != Key(run[0])
    ensures Runs(front + run) == Runs(front) + [run]
  {
    var n := |run| - 1;
    SnocParts(front, run, n);
    if n == 0 {
      assert run == [run[0]];
    } else {
      var head := run[..n];
      assert OneKey(head, Key(head[0]));
      RunsAppend(front, head);
    }
  }

  lemma FlatLast(runs: seq<seq<Ace>>)
    requires Maximal(runs) && runs != []
    ensures Flat(runs) != [] && Key(Flat(runs)[|Flat(runs)| - 1]) == Key(runs[|runs| - 1][0])
  {
    var last := runs[|runs| - 1];
    assert OneKey(last, Key(last[0]));
  }

  lemma MaximalParts(runs: seq<seq<Ace>>)
    requires Maximal(runs) && runs != []
    ensures var n := |runs| - 1;
      && Maximal(runs[..n]) && runs[n] != [] && OneKey(runs[n], Key(runs[n][0]))
      && (n > 0 ==> Key(runs[..n][n - 1][0]) != Key(runs[n][0]))
  {
  }

  lemma FlatSnoc(front: seq<seq<Ace>>, last: seq<Ace>)
    ensures Flat(front + [last]) == Flat(front) + last
  {
    assert (front + [last])[..|front|] == front;
  }

  /** The last run starts where its key first appears. */
  lemma LastRunApart(front: seq<seq<Ace>>, last: seq<Ace>)
    requires Maximal(front + [last])
    ensures Maximal(front) && last != [] && OneKey(last, Key(last[0]))
    ensures Flat(front) != [] ==> Key(Flat(front)[|Flat(front)| - 1]) != Key(last[0])
  {
    assert (front + [last])[..|front|] == front;
    MaximalParts(front + [last]);
    if front != [] {
      FlatLast(front);
    }
  }

  lemma {:induction false} RunsOfFlat(runs: seq<seq<Ace>>)
    requires Maximal(runs)
    ensures Runs(Flat(runs)) == runs
  {
    if runs != [] {
      var front, last := runs[..|runs| - 1], runs[|runs| - 1];
      assert runs == front + [last];
      LastRunApart(front, last);
      RunsOfFlat(front);
      FlatSnoc(front, last);
      RunsAppend(Flat(front), last);
    }
  }

  lemma SortedRunKey(run: seq<Ace>, key: RunKey)
    requires OneKey(run, key)
    ensures OneKey(SortedRun(run), key)
  {
    var sorted := SortedRun(run);
    assert run[0] in sorted;
    forall i | 0 <= i < |sorted|
      ensures Key(sorted[i]) == key
    {
      assert sorted[i] in run;
    }
  }

  /** Sorting inside runs keeps the run boundaries. */
  lemma SortedRunsMaximal(runs: seq<seq<Ace>>)
    requires Maximal(runs)
    ensures Maximal(SortedRuns(runs))
  {
    var sorted := SortedRuns(runs);
    forall i | 0 <= i < |runs|
      ensures sorted[i] != [] && OneKey(sorted[i], Key(sorted[i][0])) && Key(sorted[i][0]) == Key(runs[i][0])
    {
      SortedRunKey(runs[i], Key(runs[i][0]));
    }
  }

  lemma RunsOfSortedFlat(aces: seq<Ace>)
    ensures Runs(SortedFlat(Runs(aces))) == SortedRuns(Runs(aces))
  {
    RunsMaximal(aces);
    SortedRunsMaximal(Runs(aces));
    SortedFlatIsFlat(Runs(aces));
    RunsOfFlat(SortedRuns(Runs(aces)));
  }

  // ---- A canonical descriptor is sound

  lemma {:induction false} SortedFlatMembers(runs: seq<seq<Ace>>, a: Ace)
    requires a in SortedFlat(runs)
    ensures a in Flat(runs)
  {
    if runs != [] {
      var n := |runs| - 1;
      if a in SortedFlat(runs[..n]) {
        SortedFlatMembers(runs[..n], a);
      } else {
        assert a in runs[n];
      }
    }
  }

  /** Every ACE of the canonical descriptor is a stripped ACE of the original. */
  lemma CanonicalMembers(d: Descriptor, c: Ace) returns (a: Ace)
    requires c in Canonical(d).aces
    ensures a in d.aces && c == Stripped(a, Protected(d.control))
  {
    var stripped := StrippedAll(d.aces, Protected(d.control));
    SortedFlatMembers(Runs(stripped), c);
    RunsCover(stripped);
    var i :| 0 <= i < |stripped| && stripped[i] == c;
    a := d.aces[i];
  }

  lemma CanonicalSound(d: Descriptor)
    requires Sound(d)
    ensures Sound(Canonical(d))
  {
    var c := Canonical(d);
    forall i | 0 <= i < |c.aces|
      ensures Plain(c.aces[i])
    {
      var a := CanonicalMembers(d, c.aces[i]);
      assert Plain(a);
    }
  }

  // ---- Main result

  ghost predicate SameRuns(a: seq<seq<Ace>>, b: seq<seq<Ace>>) {
    |a| == |b| && forall i :: 0 <= i < |a| ==> multiset(RenderedAll(a[i])) == multiset(RenderedAll(b[i]))
  }

  /** The runs the rewriter sorts. */
  function CanonicalRuns(d: Descriptor): seq<seq<Ace>> {
    Runs(StrippedAll(d.aces, Protected(d.control)))
  }

  lemma {:induction false} SameRunsText(a: seq<seq<Ace>>, b: seq<seq<Ace>>)
    requires SameRuns(a, b)
    ensures RunsText(a) == RunsText(b)
  {
    if a != [] {
      var n := |a| - 1;
      SameRunsText(a[..n], b[..n]);
      var x, y := RenderedAll(a[n]), RenderedAll(b[n]);
      SortedOrdered(x);
      SortedOrdered(y);
      OrderedUnique(Sorted(x), Sorted(y));
    }
  }

  lemma SortedRunsSame(a: seq<seq<Ace>>, b: seq<seq<Ace>>)
    requires SortedRuns(a) == SortedRuns(b)
    ensures SameRuns(a, b)
  {
    forall i | 0 <= i < |a|
      ensures multiset(RenderedAll(a[i])) == multiset(RenderedAll(b[i]))
    {
      assert SortedRuns(a)[i] == SortedRuns(b)[i];
      SortedRendered(a[i]);
      SortedRendered(b[i]);
      SortedOrdered(RenderedAll(a[i]));
      SortedOrdered(RenderedAll(b[i]));
    }
  }

  lemma CanonicalText(d: Descriptor)
    ensures Text(Canonical(d)) == d.prefix + Residual(d.control) + RunsText(CanonicalRuns(d))
  {
    RunsTextIsFlat(CanonicalRuns(d));
  }

  lemma SoundTextInjective(c: Descriptor, e: Descriptor)
    requires Sound(c) && Sound(e) && Text(c) == Text(e)
    ensures c == e
  {
    TextParsed(c);
    TextParsed(e);
  }

  lemma EqualTextSameRuns(d: Descriptor, e: Descriptor)
    requires Sound(d) && Sound(e) && Text(Canonical(d)) == Text(Canonical(e))
    ensures d.prefix == e.prefix && Residual(d.control) == Residual(e.control)
    ensures SameRuns(CanonicalRuns(d), CanonicalRuns(e))
  {
    CanonicalSound(d);
    CanonicalSound(e);
    SoundTextInjective(Canonical(d), Canonical(e));
    RunsOfSortedFlat(StrippedAll(d.aces, Protected(d.control)));
    RunsOfSortedFlat(StrippedAll(e.aces, Protected(e.control)));
    SortedRunsSame(CanonicalRuns(d), CanonicalRuns(e));
  }

  /**
   * Two accepted texts are rewritten to the same text exactly when they agree on everything before the ACEs, up to
   * AI and AR, and their maximal runs hold the same ACE texts equally often, run by run.
   */
  lemma CanonicalForm(s: string, t: string)
    requires Parsed(s).Ok? && Parsed(t).Ok?
    ensures Normalized(s) == Normalized(t) <==>
      var d, e := Parsed(s).value, Parsed(t).value;
      d.prefix == e.prefix && Residual(d.control) == Residual(e.control) && SameRuns(CanonicalRuns(d), CanonicalRuns(e))
  {
    var d, e := Parsed(s).value, Parsed(t).value;
    ParsedText(s);
    ParsedText(t);
    if Normalized(s) == Normalized(t) {
      EqualTextSameRuns(d, e);
    }
    if d.prefix == e.prefix && Residual(d.control) == Residual(e.control)
      && SameRuns(CanonicalRuns(d), CanonicalRuns(e)) {
      CanonicalText(d);
      CanonicalText(e);
      SameRunsText(CanonicalRuns(d), CanonicalRuns(e));
    }
  }
}
