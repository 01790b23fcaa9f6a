/**
 * The canonical form of a security descriptor string: its parts, the rewriting of its parts, and the loop that does it.
 */
module Sddl {
  import opened Outcomes
  import opened SddlText

  datatype AceKind = Allow | Deny

  /** One standard ACE: the six semicolon-separated fields between its parentheses. */
  datatype Ace = Ace(kind: AceKind, flags: string, rights: string, objectId: string, inheritId: string, sid: string)

  /** `prefix` runs through "D:"; `control` holds the DACL control flags. */
  datatype Descriptor = Descriptor(prefix: string, control: string, aces: seq<Ace>)

  datatype Refusal = SaclUnsupported | DaclRequired | InvalidAce | UnsupportedAce

  // ---- Reading

  predicate StandardFields(fields: seq<string>) {
    |fields| == 6 && (fields[0] == "A" || fields[0] == "D")
  }

  function FromFields(fields: seq<string>): Ace
    requires StandardFields(fields)
  {
    Ace(if fields[0] == "A" then Allow else Deny, fields[1], fields[2], fields[3], fields[4], fields[5])
  }

  function Fields(a: Ace): (fields: seq<string>)
    ensures StandardFields(fields) && FromFields(fields) == a
  {
    [if a.kind.Allow? then "A" else "D", a.flags, a.rights, a.objectId, a.inheritId, a.sid]
  }

  function ParsedAces(tail: string): (r: Result<seq<Ace>, Refusal>) {
    if tail == [] then Ok([])
    else if tail[0] != '(' then Err(InvalidAce)
    else
      var close := Find(tail, ")");
      if close.None? then Err(InvalidAce)
      else
        assert forall j :: 0 <= j < close.value ==> !At(tail, ")", j) && tail[j..j + 1] == [tail[j]];
        assert close.value > 0;
        var fields := Split(tail[1..close.value], ';');
        if !StandardFields(fields) then Err(UnsupportedAce)
        else
          var rest := ParsedAces(tail[close.value + 1..]);
          if rest.Err? then rest else Ok([FromFields(fields)] + rest.value)
  }

  /** Where the control flags end: the first parenthesis, or the end of the text. */
  function ControlEnd(s: string): (n: nat)
    ensures n <= |s|
    ensures forall i :: 0 <= i < n ==> s[i] != '('
    ensures n < |s| ==> s[n] == '('
  {
    if s == [] || s[0] == '(' then 0 else 1 + ControlEnd(s[1..])
  }

  /** Where the control flags begin: after the first "D:". */
  function DaclStart(s: string): (r: Option<nat>)
    ensures r.Some? ==> 2 <= r.value <= |s|
  {
    var dacl := Find(s, "D:");
    if dacl.None? then None else Some(dacl.value + 2)
  }

  predicate HasSacl(s: string) { Find(s, "S:").Some? }

  /** The descriptor whose control flags are `s[start..end]`. */
  function Cut(s: string, start: nat, end: nat): Result<Descriptor, Refusal>
    requires start <= end <= |s|
  {
    var aces := ParsedAces(s[end..]);
    if aces.Err? then Err(aces.error) else Ok(Descriptor(s[..start], s[start..end], aces.value))
  }

  function ParsedDacl(s: string): Result<Descriptor, Refusal> {
    var dacl := DaclStart(s);
    if dacl.None? then Err(DaclRequired) else Cut(s, dacl.value, dacl.value + ControlEnd(s[dacl.value..]))
  }

  function Parsed(s: string): Result<Descriptor, Refusal> {
    if HasSacl(s) then Err(SaclUnsupported) else ParsedDacl(s)
  }

  // ---- Writing

  function Rendered(a: Ace): string {
    "(" + Join(Fields(a), ';') + ")"
  }

  function RenderedAll(aces: seq<Ace>): (texts: seq<string>)
    ensures |texts| == |aces| && forall i :: 0 <= i < |texts| ==> texts[i] == Rendered(aces[i])
  {
    seq(|aces|, i requires 0 <= i < |aces| => Rendered(aces[i]))
  }

  function Text(d: Descriptor): string {
    d.prefix + d.control + Concat(RenderedAll(d.aces))
  }

  // ---- Rewriting

  function Residual(control: string): string {
    Removed(Removed(control, "AI"), "AR")
  }

  predicate Protected(control: string) { 'P' in Residual(control) }

  /** Under a protected DACL an inherited ACE is kept as an explicit one. */
  function Stripped(a: Ace, protected: bool): (b: Ace) {
    if protected then a.(flags := Removed(a.flags, "ID")) else a
  }

  function StrippedAll(aces: seq<Ace>, protected: bool): (r: seq<Ace>)
    ensures |r| == |aces| && forall i :: 0 <= i < |r| ==> r[i] == Stripped(aces[i], protected)
  {
    seq(|aces|, i requires 0 <= i < |aces| => Stripped(aces[i], protected))
  }

  /** ACEs with one key may be reordered: their type, and whether they are inherited. */
  datatype RunKey = RunKey(kind: AceKind, inherited: bool)

  function Key(a: Ace): RunKey {
    RunKey(a.kind, Find(a.flags, "ID").Some?)
  }

  predicate EndsWith(run: seq<Ace>, a: Ace) { run != [] && run[|run| - 1] == a }

  /** The last run, one ACE longer. */
  function WithLast(runs: seq<seq<Ace>>, a: Ace): (r: seq<seq<Ace>>)
    requires runs != []
    ensures |r| == |runs| && r[|runs| - 1] == runs[|runs| - 1] + [a]
  {
    runs[..|runs| - 1] + [runs[|runs| - 1] + [a]]
  }

  /** Maximal runs of ACEs with one key, in order. */
  function Runs(aces: seq<Ace>): (runs: seq<seq<Ace>>)
    ensures aces != [] ==> runs != [] && EndsWith(runs[|runs| - 1], aces[|aces| - 1])
    ensures aces == [] ==> runs == []
  {
    if aces == [] then []
    else
      var n := |aces| - 1;
      var runs := Runs(aces[..n]);
      if n > 0 && Key(aces[n - 1]) == Key(aces[n]) then
        WithLast(runs, aces[n])
      else runs + [[aces[n]]]
  }

  lemma RunsSnoc(aces: seq<Ace>, a: Ace)
    ensures var runs, m := Runs(aces), |Runs(aces)| - 1;
      Runs(aces + [a]) ==
      if aces != [] && Key(aces[|aces| - 1]) == Key(a) then runs[..m] + [runs[m] + [a]] else runs + [[a]]
  {
    assert (aces + [a])[..|aces|] == aces;
  }

  function InsertAce(x: Ace, aces: seq<Ace>): (r: seq<Ace>)
    ensures forall a :: a in r <==> a == x || a in aces
  {
    if aces == [] || Leq(Rendered(x), Rendered(aces[0])) then [x] + aces
    else [aces[0]] + InsertAce(x, aces[1..])
  }

  function SortedRun(run: seq<Ace>): (r: seq<Ace>)
    ensures forall a :: a in r <==> a in run
  {
    if run == [] then [] else InsertAce(run[0], SortedRun(run[1..]))
  }

  function SortedFlat(runs: seq<seq<Ace>>): (r: seq<Ace>) {
    if runs == [] then [] else SortedFlat(runs[..|runs| - 1]) + SortedRun(runs[|runs| - 1])
  }

  function Canonical(d: Descriptor): (c: Descriptor) {
    Descriptor(d.prefix, Residual(d.control), SortedFlat(Runs(StrippedAll(d.aces, Protected(d.control)))))
  }

  function Rewriting(parsed: Result<Descriptor, Refusal>): Result<string, Refusal> {
    match parsed
    case Err(refusal) => Err(refusal)
    case Ok(d) => Ok(Text(Canonical(d)))
  }

  function Normalized(s: string): Result<string, Refusal> { Rewriting(Parsed(s)) }

  // ---- Sorting texts and sorting ACEs by text

  lemma RenderedCons(a: Ace, rest: seq<Ace>)
    ensures RenderedAll([a] + rest) == [Rendered(a)] + RenderedAll(rest)
  {
  }

  lemma {:induction false} InsertRendered(x: Ace, aces: seq<Ace>)
    ensures RenderedAll(InsertAce(x, aces)) == Insert(Rendered(x), RenderedAll(aces))
  {
    if aces != [] && !Leq(Rendered(x), Rendered(aces[0])) {
      InsertRendered(x, aces[1..]);
      RenderedCons(aces[0], InsertAce(x, aces[1..]));
      assert RenderedAll(aces)[1..] == RenderedAll(aces[1..]);
    } else {
      RenderedCons(x, aces);
    }
  }

  lemma {:induction false} SortedRendered(run: seq<Ace>)
    ensures RenderedAll(SortedRun(run)) == Sorted(RenderedAll(run))
  {
    if run != [] {
      SortedRendered(run[1..]);
      InsertRendered(run[0], SortedRun(run[1..]));
      assert RenderedAll(run)[1..] == RenderedAll(run[1..]);
    }
  }

  // ---- The rewriting loop

  ghost function Resumed(seen: seq<Ace>, rest: Result<seq<Ace>, Refusal>): Result<seq<Ace>, Refusal> {
    if rest.Err? then rest else Ok(seen + rest.value)
  }

  /** What the loop has settled: the sorted text of every run but the open one, which `group` still collects. */
  ghost predicate Settled(head: string, seen: seq<Ace>, result: string, group: seq<string>, previous: Option<RunKey>)
  {
    var runs := Runs(seen);
    if seen == [] then result == head && group == [] && previous == None
    else
      var last := runs[|runs| - 1];
      && result == head + RunsText(runs[..|runs| - 1])
      && group == RenderedAll(last)
      && previous == Some(Key(seen[|seen| - 1]))
  }

  /** The sorted text of each run, in order. */
  function RunsText(runs: seq<seq<Ace>>): string {
    if runs == [] then "" else RunsText(runs[..|runs| - 1]) + Concat(Sorted(RenderedAll(runs[|runs| - 1])))
  }

  lemma {:induction false} RunsTextIsFlat(runs: seq<seq<Ace>>)
    ensures Concat(RenderedAll(SortedFlat(runs))) == RunsText(runs)
  {
    if runs != [] {
      var n := |runs| - 1;
      var before, last := SortedFlat(runs[..n]), SortedRun(runs[n]);
      RunsTextIsFlat(runs[..n]);
      SortedRendered(runs[n]);
      RenderedAppend(before, last);
      ConcatAppend(RenderedAll(before), RenderedAll(last));
    }
  }

  lemma RenderedAppend(a: seq<Ace>, b: seq<Ace>)
    ensures RenderedAll(a + b) == RenderedAll(a) + RenderedAll(b)
  {
  }

  /** Flushing the open group yields the whole canonical ACE text. */
  lemma SettledText(head: string, seen: seq<Ace>, result: string, group: seq<string>, previous: Option<RunKey>)
    requires Settled(head, seen, result, group, previous)
    ensures result + Concat(Sorted(group)) == head + RunsText(Runs(seen))
  {
    if seen == [] {
      assert head + "" == head;
    } else {
      var runs := Runs(seen);
      ConcatAssociates(head, RunsText(runs[..|runs| - 1]), Concat(Sorted(group)));
    }
  }

  lemma ConcatAssociates(a: string, b: string, c: string)
    ensures (a + b) + c == a + (b + c)
  {
  }

  /** An ACE with the open run's key joins its group. */
  lemma SettledExtend(head: string, seen: seq<Ace>, result: string, group: seq<string>, a: Ace)
    requires seen != [] && Settled(head, seen, result, group, Some(Key(a)))
    ensures Settled(head, seen + [a], result, group + [Rendered(a)], Some(Key(a)))
  {
    RunsSnoc(seen, a);
    var runs, m := Runs(seen), |Runs(seen)| - 1;
    var more := runs[..m] + [runs[m] + [a]];
    assert more[..|more| - 1] == runs[..m];
    assert RenderedAll(runs[m] + [a]) == RenderedAll(runs[m]) + [Rendered(a)];
  }

  /** An ACE with another key closes the open run and starts the next one. */
  lemma SettledFlush(head: string, seen: seq<Ace>, result: string, group: seq<string>, previous: Option<RunKey>, a: Ace)
    requires Settled(head, seen, result, group, previous) && previous != Some(Key(a))
    ensures Settled(head, seen + [a], result + Concat(Sorted(group)), [Rendered(a)], Some(Key(a)))
  {
    RunsSnoc(seen, a);
    SettledText(head, seen, result, group, previous);
    var runs := Runs(seen);
    var more := runs + [[a]];
    assert more[..|more| - 1] == runs;
    assert RenderedAll([a]) == [Rendered(a)];
  }

  lemma SettledStep(head: string, seen: seq<Ace>, result: string, group: seq<string>, previous: Option<RunKey>, a: Ace)
    requires Settled(head, seen, result, group, previous)
    ensures var flush := previous.Some? && Key(a) != previous.value;
      Settled(head, seen + [a], if flush then result + Concat(Sorted(group)) else result,
              (if flush then [] else group) + [Rendered(a)], Some(Key(a)))
  {
    if previous == Some(Key(a)) {
      SettledExtend(head, seen, result, group, a);
    } else {
      SettledFlush(head, seen, result, group, previous, a);
      assert [] + [Rendered(a)] == [Rendered(a)];
      if previous.None? {
        assert Concat(Sorted([])) == "" && result + "" == result;
      }
    }
  }

  lemma ResumedStep(raw: seq<Ace>, a: Ace, rest: Result<seq<Ace>, Refusal>)
    ensures Resumed(raw, Resumed([a], rest)) == Resumed(raw + [a], rest)
  {
    if rest.Ok? {
      assert raw + ([a] + rest.value) == (raw + [a]) + rest.value;
    }
  }

  lemma StripStep(raw: seq<Ace>, a: Ace, protected: bool)
    ensures StrippedAll(raw + [a], protected) == StrippedAll(raw, protected) + [Stripped(a, protected)]
  {
  }

  /** Reads the ACE at the front of a non-empty tail. */
  method ReadAce(tail: string) returns (r: Result<Ace, Refusal>, rest: string)
    requires tail != []
    ensures r.Err? ==> ParsedAces(tail) == Err(r.error)
    ensures r.Ok? ==> |rest| < |tail| && ParsedAces(tail) == Resumed([r.value], ParsedAces(rest))
  {
    rest := tail;
    if tail[0] != '(' {
      return Err(InvalidAce), rest;
    }
    var close := Find(tail, ")");
    if close.None? {
      return Err(InvalidAce), rest;
    }
    assert close.value > 0;
    var fields := Split(tail[1..close.value], ';');
    if |fields| != 6 || (fields[0] != "A" && fields[0] != "D") {
      return Err(UnsupportedAce), rest;
    }
    rest := tail[close.value + 1..];
    return Ok(FromFields(fields)), rest;
  }

  /** The canonical text of the ACEs in `aces`, after `head`. */
  function Rewritten(head: string, aces: string, protected: bool): Result<string, Refusal> {
    var parsed := ParsedAces(aces);
    if parsed.Err? then Err(parsed.error)
    else Ok(head + Concat(RenderedAll(SortedFlat(Runs(StrippedAll(parsed.value, protected))))))
  }

  /** One pass over the ACEs after `head`, sorting each run when the next one begins. */
  method RewriteAces(head: string, aces: string, protected: bool) returns (r: Result<string, Refusal>)
    ensures r == Rewritten(head, aces, protected)
  {
    var result := head;
    var group: seq<string> := [];
    var previous: Option<RunKey> := None;
    var tail := aces;
    ghost var raw: seq<Ace> := [];
    ghost var whole := ParsedAces(tail);
    assert whole.Ok? ==> [] + whole.value == whole.value;
    while tail != []
      invariant whole == Resumed(raw, ParsedAces(tail))
      invariant Settled(head, StrippedAll(raw, protected), result, group, previous)
      decreases |tail|
    {
      var read, rest := ReadAce(tail);
      if read.Err? {
        return Err(read.error);
      }
      ResumedStep(raw, read.value, ParsedAces(rest));
      StripStep(raw, read.value, protected);
      var ace := read.value;
      if protected {
        ace := ace.(flags := Removed(ace.flags, "ID"));
      }
      SettledStep(head, StrippedAll(raw, protected), result, group, previous, ace);
      var key := Key(ace);
      if previous.Some? && key != previous.value {
        result := result + Concat(Sorted(group));
        group := [];
      }
      previous := Some(key);
      group := group + [Rendered(ace)];
      raw := raw + [read.value];
      tail := rest;
    }
    SettledText(head, StrippedAll(raw, protected), result, group, previous);
    RunsTextIsFlat(Runs(StrippedAll(raw, protected)));
    assert raw + [] == raw;
    result := result + Concat(Sorted(group));
    return Ok(result);
  }

  /** Rewrites a descriptor: control flags without AI and AR, and every run of commuting ACEs in order. */
  method NormalizeSddl(s: string) returns (r: Result<string, Refusal>)
    ensures r == Normalized(s)
  {
    if HasSacl(s) {
      return Err(SaclUnsupported);
    }
    r := RewriteFromDacl(s);
  }

  method RewriteFromDacl(s: string) returns (r: Result<string, Refusal>)
    ensures r == Rewriting(ParsedDacl(s))
  {
    var dacl := DaclStart(s);
    if dacl.None? {
      assert ParsedDacl(s) == Err(DaclRequired);
      return Err(DaclRequired);
    }
    var start := dacl.value;
    var end := start + ControlEnd(s[start..]);
    assert ParsedDacl(s) == Cut(s, start, end);
    r := RewriteDacl(s, start, end);
  }

  /** Rewrites the control flags `s[start..end]` and the ACEs after them. */
  method RewriteDacl(s: string, start: nat, end: nat) returns (r: Result<string, Refusal>)
    requires start <= end <= |s|
    ensures r == Rewriting(Cut(s, start, end))
  {
    var flags := Removed(Removed(s[start..end], "AI"), "AR");
    var protected := 'P' in flags;
    r := RewriteAces(s[..start] + flags, s[end..], protected);
  }
}
