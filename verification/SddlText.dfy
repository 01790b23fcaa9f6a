/** Text operations the descriptor rewriter is built on: search, removal, splitting, ordering. */
module SddlText {
  import opened Outcomes

  predicate At(s: string, pat: string, i: nat) {
    i + |pat| <= |s| && s[i..i + |pat|] == pat
  }

  ghost predicate Contains(s: string, pat: string) {
    exists i: nat :: At(s, pat, i)
  }

  /** The first position of `pat` in `s`. */
  function Find(s: string, pat: string): (r: Option<nat>)
    ensures r.None? ==> !Contains(s, pat)
    ensures r.Some? ==> At(s, pat, r.value) && forall j: nat :: j < r.value ==> !At(s, pat, j)
  {
    if At(s, pat, 0) then Some(0)
    else if s == [] then None
    else
      assert forall i: nat :: i > 0 && At(s, pat, i) ==> At(s[1..], pat, i - 1) by { ShiftAt(s, pat); }
      var rest := Find(s[1..], pat);
      if rest.None? then None
      else
        assert At(s, pat, rest.value + 1) by { ShiftAt(s, pat); }
        Some(rest.value + 1)
  }

  lemma ShiftAt(s: string, pat: string)
    requires s != []
    ensures forall i: nat :: At(s, pat, i + 1) <==> At(s[1..], pat, i)
    ensures forall i: nat :: i > 0 ==> (At(s, pat, i) <==> At(s[1..], pat, i - 1))
  {
    forall i: nat
      ensures At(s, pat, i + 1) <==> At(s[1..], pat, i)
    {
    }
  }

  /** The first position is determined by what is there and what is not before it. */
  lemma FindIs(s: string, pat: string, i: nat)
    requires At(s, pat, i) && forall j: nat :: j < i ==> !At(s, pat, j)
    ensures Find(s, pat) == Some(i)
  {
  }

  /** Every occurrence of the two-character `pat` deleted, from left to right. */
  function Removed(s: string, pat: string): (r: string)
    requires |pat| == 2
    ensures |r| <= |s|
    ensures forall c :: c in r ==> c in s
  {
    if |s| < 2 then s
    else if s[..2] == pat then Removed(s[2..], pat)
    else [s[0]] + Removed(s[1..], pat)
  }

  /** Deletion changes a text exactly when there is something to delete. */
  lemma {:induction false} RemovedStable(s: string, pat: string)
    requires |pat| == 2
    ensures Removed(s, pat) == s <==> !Contains(s, pat)
    ensures Contains(s, pat) ==> |Removed(s, pat)| < |s|
  {
    if |s| < 2 {
    } else if s[..2] == pat {
      assert At(s, pat, 0);
    } else {
      RemovedStable(s[1..], pat);
      ShiftAt(s, pat);
      assert !At(s, pat, 0);
      if Contains(s, pat) {
        var i: nat :| At(s, pat, i);
        assert At(s[1..], pat, i - 1);
      }
      if Contains(s[1..], pat) {
        var i: nat :| At(s[1..], pat, i);
        assert At(s, pat, i + 1);
      }
      assert s == [s[0]] + s[1..];
    }
  }

  /** A two-character word that is not deleted, nor joined by its end to what follows, stays. */
  lemma RemovedSkipsWord(word: string, rest: string, pat: string)
    requires |word| == 2 && |pat| == 2 && word != pat && (rest == "" || [word[1], rest[0]] != pat)
    ensures Removed(word + rest, pat) == word + Removed(rest, pat)
  {
    TwoThen(word, rest);
    TwoThen(word, Removed(rest, pat));
    RemovedTwoSteps(word[0], word[1], rest, pat);
  }

  lemma TwoThen(word: string, rest: string)
    requires |word| == 2
    ensures word == [word[0], word[1]] && word + rest == [word[0]] + ([word[1]] + rest)
  {
  }

  lemma RemovedTwoSteps(c: char, d: char, rest: string, pat: string)
    requires |pat| == 2 && [c, d] != pat && (rest == "" || [d, rest[0]] != pat)
    ensures Removed([c] + ([d] + rest), pat) == [c] + ([d] + Removed(rest, pat))
  {
  }

  // ---- Fields

  function Split(s: string, c: char): (fields: seq<string>)
    ensures fields != []
    ensures forall f, x :: f in fields && x in f ==> x != c && x in s
  {
    if s == [] then [""]
    else
      var rest := Split(s[1..], c);
      if s[0] == c then [""] + rest
      else [[s[0]] + rest[0]] + rest[1..]
  }

  function Join(fields: seq<string>, c: char): (s: string)
    requires fields != []
    ensures forall x :: x in s ==> x == c || exists f :: f in fields && x in f
  {
    if |fields| == 1 then fields[0] else fields[0] + [c] + Join(fields[1..], c)
  }

  lemma {:induction false} SplitPiece(piece: string, c: char, rest: string)
    requires c !in piece
    ensures Split(piece + [c] + rest, c) == [piece] + Split(rest, c)
  {
    var s := piece + [c] + rest;
    if piece == [] {
      assert s[1..] == rest;
    } else {
      SplitPiece(piece[1..], c, rest);
      assert s[1..] == piece[1..] + [c] + rest;
      assert s[0] == piece[0] != c;
      assert piece == [piece[0]] + piece[1..];
    }
  }

  lemma {:induction false} SplitWhole(piece: string, c: char)
    requires c !in piece
    ensures Split(piece, c) == [piece]
  {
    if piece != [] {
      SplitWhole(piece[1..], c);
      assert piece[0] != c;
      assert piece == [piece[0]] + piece[1..];
    }
  }

  lemma {:induction false} SplitJoin(fields: seq<string>, c: char)
    requires fields != [] && forall f :: f in fields ==> c !in f
    ensures Split(Join(fields, c), c) == fields
  {
    if |fields| == 1 {
      SplitWhole(fields[0], c);
    } else {
      SplitPiece(fields[0], c, Join(fields[1..], c));
      SplitJoin(fields[1..], c);
      assert fields == [fields[0]] + fields[1..];
    }
  }

  lemma {:induction false} JoinSplit(s: string, c: char)
    ensures Join(Split(s, c), c) == s
  {
    if s != [] {
      JoinSplit(s[1..], c);
      var rest := Split(s[1..], c);
      if s[0] == c {
        assert ([""] + rest)[1..] == rest;
      } else {
        assert ([[s[0]] + rest[0]] + rest[1..])[1..] == rest[1..];
      }
    }
  }

  // ---- Order

  /** The byte order of the text, which for scalar values is their own order. */
  predicate Leq(a: string, b: string) {
    a == [] || (b != [] && (a[0] < b[0] || (a[0] == b[0] && Leq(a[1..], b[1..]))))
  }

  lemma {:induction false} LeqTotal(a: string, b: string)
    ensures Leq(a, b) || Leq(b, a)
    ensures Leq(a, b) && Leq(b, a) ==> a == b
  {
    if a != [] && b != [] {
      LeqTotal(a[1..], b[1..]);
      assert a == [a[0]] + a[1..] && b == [b[0]] + b[1..];
    }
  }

  lemma {:induction false} LeqTransitive(a: string, b: string, c: string)
    requires Leq(a, b) && Leq(b, c)
    ensures Leq(a, c)
  {
    if a != [] && b != [] && c != [] && a[0] == b[0] && b[0] == c[0] {
      LeqTransitive(a[1..], b[1..], c[1..]);
    }
  }

  ghost predicate Ordered(texts: seq<string>) {
    forall i, j :: 0 <= i < j < |texts| ==> Leq(texts[i], texts[j])
  }

  function Insert(x: string, texts: seq<string>): seq<string> {
    if texts == [] || Leq(x, texts[0]) then [x] + texts else [texts[0]] + Insert(x, texts[1..])
  }

  function Sorted(texts: seq<string>): seq<string> {
    if texts == [] then [] else Insert(texts[0], Sorted(texts[1..]))
  }

  lemma {:induction false} InsertOrdered(x: string, texts: seq<string>)
    requires Ordered(texts)
    ensures Ordered(Insert(x, texts)) && multiset(Insert(x, texts)) == multiset{x} + multiset(texts)
  {
    if texts == [] {
    } else if Leq(x, texts[0]) {
      forall j | 0 <= j < |texts|
        ensures Leq(x, texts[j])
      {
        if j > 0 { LeqTransitive(x, texts[0], texts[j]); }
      }
    } else {
      InsertOrdered(x, texts[1..]);
      LeqTotal(x, texts[0]);
      var rest := Insert(x, texts[1..]);
      assert texts == [texts[0]] + texts[1..];
      forall j | 0 <= j < |rest|
        ensures Leq(texts[0], rest[j])
      {
        assert rest[j] in multiset(rest);
      }
    }
  }

  /** The sorted text list is ordered and holds the same texts equally often. */
  lemma {:induction false} SortedOrdered(texts: seq<string>)
    ensures Ordered(Sorted(texts)) && multiset(Sorted(texts)) == multiset(texts)
  {
    if texts != [] {
      SortedOrdered(texts[1..]);
      InsertOrdered(texts[0], Sorted(texts[1..]));
      assert texts == [texts[0]] + texts[1..];
    }
  }

  lemma TailBag(a: seq<string>)
    requires a != []
    ensures multiset(a[1..]) == multiset(a) - multiset{a[0]}
  {
    assert a == [a[0]] + a[1..];
  }

  /** The first of an ordered list is below every member. */
  lemma FirstIsLeast(a: seq<string>, x: string)
    requires Ordered(a) && x in a
    ensures Leq(a[0], x)
  {
    LeqTotal(a[0], x);
    var i :| 0 <= i < |a| && a[i] == x;
    if i > 0 {
      assert Leq(a[0], a[i]);
    }
  }

  /** There is only one way to order the same texts. */
  lemma {:induction false} OrderedUnique(a: seq<string>, b: seq<string>)
    requires Ordered(a) && Ordered(b) && multiset(a) == multiset(b)
    ensures a == b
  {
    assert |a| == |multiset(a)| == |multiset(b)| == |b|;
    if a != [] {
      assert a[0] in multiset(b) && b[0] in multiset(a);
      FirstIsLeast(a, b[0]);
      FirstIsLeast(b, a[0]);
      LeqTotal(a[0], b[0]);
      TailBag(a);
      TailBag(b);
      OrderedUnique(a[1..], b[1..]);
    }
  }

  function Concat(texts: seq<string>): string {
    if texts == [] then "" else texts[0] + Concat(texts[1..])
  }

  lemma ConcatCons(first: string, rest: seq<string>)
    ensures Concat([first] + rest) == first + Concat(rest)
  {
    assert ([first] + rest)[1..] == rest;
  }

  lemma Joined(a: string, b: string, c: string)
    ensures a + (b + c) == (a + b) + c
  {
  }

  lemma {:induction false} ConcatAppend(a: seq<string>, b: seq<string>)
    ensures Concat(a + b) == Concat(a) + Concat(b)
  {
    if a == [] {
      assert a + b == b;
    } else {
      ConcatAppend(a[1..], b);
      ConcatCons(a[0], a[1..] + b);
      Joined(a[0], Concat(a[1..]), Concat(b));
      assert a + b == [a[0]] + (a[1..] + b);
    }
  }
}
