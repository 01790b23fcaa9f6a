/** Masking of secrets in text, word by word. */
module Redaction {
  import opened Characters
  import opened SddlText

  const MARKERS := ["password=", "pwd=", "token=", "secret="]
  const MASK := "[REDACTED]"

  function Lowered(s: string, lower: char -> char): string {
    seq(|s|, i requires 0 <= i < |s| => lower(s[i]))
  }

  /** Whatever follows the first of the markers found is replaced by the mask. */
  function MaskedFrom(word: string, markers: seq<string>, lower: char -> char): string {
    if markers == [] then word
    else
      var at := Find(Lowered(word, lower), markers[0]);
      if at.Some? then word[..at.value + |markers[0]|] + MASK else MaskedFrom(word, markers[1..], lower)
  }

  function Masked(word: string, lower: char -> char): string { MaskedFrom(word, MARKERS, lower) }

  /** What has been written, and the word still being read. */
  datatype Reading = Reading(done: string, word: string)

  function Flushed(r: Reading, lower: char -> char): string {
    r.done + if r.word == "" then "" else Masked(r.word, lower)
  }

  function Next(r: Reading, c: char, lower: char -> char): Reading {
    if IsSpace(c) then Reading(Flushed(r, lower) + [c], "") else Reading(r.done, r.word + [c])
  }

  function Read(s: string, lower: char -> char): Reading {
    if s == "" then Reading("", "") else Next(Read(s[..|s| - 1], lower), s[|s| - 1], lower)
  }

  function Redact(s: string, lower: char -> char): string { Flushed(Read(s, lower), lower) }

  function Redactor(lower: char -> char): string -> string { (s: string) => Redact(s, lower) }

  method RedactText(s: string, lower: char -> char) returns (redacted: string)
    ensures redacted == Redact(s, lower)
  {
    redacted := "";
    var word := "";
    var i := 0;
    while i < |s|
      invariant i <= |s| && Read(s[..i], lower) == Reading(redacted, word)
    {
      assert s[..i + 1][..i] == s[..i];
      if IsSpace(s[i]) {
        if word != "" {
          redacted := redacted + Masked(word, lower);
          word := "";
        }
        redacted := redacted + [s[i]];
      } else {
        word := word + [s[i]];
      }
      i := i + 1;
    }
    assert s[..i] == s;
    if word != "" {
      redacted := redacted + Masked(word, lower);
    }
  }

  // ---- What redaction leaves

  lemma {:induction false} MaskedNotBlank(word: string, markers: seq<string>, lower: char -> char)
    requires !Blank(word)
    ensures !Blank(MaskedFrom(word, markers, lower))
  {
    if markers != [] {
      var at := Find(Lowered(word, lower), markers[0]);
      if at.Some? {
        var masked := MaskedFrom(word, markers, lower);
        assert masked[at.value + |markers[0]|] == '[';
      } else {
        MaskedNotBlank(word, markers[1..], lower);
      }
    }
  }

  lemma BlankAppend(s: string, t: string)
    ensures Blank(s + t) <==> Blank(s) && Blank(t)
  {
    var u := s + t;
    assert forall i :: 0 <= i < |s| ==> u[i] == s[i];
    assert forall i :: 0 <= i < |t| ==> u[|s| + i] == t[i];
  }

  lemma {:induction false} ReadKeepsWords(s: string, lower: char -> char)
    ensures var r := Read(s, lower);
      (Blank(r.word) <==> r.word == "") && (Blank(s) <==> Blank(r.done) && r.word == "")
  {
    if s != "" {
      var rest, c := s[..|s| - 1], s[|s| - 1];
      var r := Read(rest, lower);
      ReadKeepsWords(rest, lower);
      assert s == rest + [c];
      BlankAppend(rest, [c]);
      BlankAppend(r.word, [c]);
      BlankAppend(Flushed(r, lower), [c]);
      FlushedBlank(r, lower);
    }
  }

  lemma FlushedBlank(r: Reading, lower: char -> char)
    requires Blank(r.word) <==> r.word == ""
    ensures Blank(Flushed(r, lower)) <==> Blank(r.done) && r.word == ""
  {
    if r.word != "" {
      MaskedNotBlank(r.word, MARKERS, lower);
      BlankAppend(r.done, Masked(r.word, lower));
    } else {
      assert r.done + "" == r.done;
    }
  }

  /** Redaction leaves a text blank exactly when it was. */
  lemma RedactionKeepsWords(s: string, lower: char -> char)
    ensures Blank(Redact(s, lower)) <==> Blank(s)
  {
    ReadKeepsWords(s, lower);
    FlushedBlank(Read(s, lower), lower);
  }

  // ---- Redaction can make a text longer

  lemma {:induction false} ReadWord(s: string, word: string, lower: char -> char)
    requires forall i :: 0 <= i < |word| ==> !IsSpace(word[i])
    ensures Read(s + word, lower) == Reading(Read(s, lower).done, Read(s, lower).word + word)
  {
    var before := Read(s, lower).word;
    if word == "" {
      assert s + word == s && before + word == before;
    } else {
      var rest, c := word[..|word| - 1], word[|word| - 1];
      ReadWord(s, rest, lower);
      assert s + word == (s + rest) + [c] && before + word == (before + rest) + [c];
    }
  }

  lemma NotFound(s: string, pat: string, c: char)
    requires c !in s && c in pat
    ensures Find(s, pat).None?
  {
    if Find(s, pat).Some? {
      assert false;
    }
  }

  lemma {:induction false} UnmarkedUnchanged(word: string, markers: seq<string>, lower: char -> char)
    requires '=' !in Lowered(word, lower)
    requires forall m :: m in markers ==> '=' in m
    ensures MaskedFrom(word, markers, lower) == word
  {
    if markers != [] {
      NotFound(Lowered(word, lower), markers[0], '=');
      UnmarkedUnchanged(word, markers[1..], lower);
    }
  }

  lemma MaskedBy(word: string, markers: seq<string>, lower: char -> char, c: char)
    requires markers != [] && c !in Lowered(word, lower) && c in markers[0]
    ensures MaskedFrom(word, markers, lower) == MaskedFrom(word, markers[1..], lower)
  {
    NotFound(Lowered(word, lower), markers[0], c);
  }

  lemma MaskedToken(lower: char -> char)
    requires Lowered("token=x", lower) == "token=x"
    ensures Masked("token=x", lower) == "token=" + MASK
  {
    var word := "token=x";
    MaskedBy(word, MARKERS, lower, 'p');
    MaskedBy(word, MARKERS[1..], lower, 'p');
    assert MARKERS[1..][1..] == ["token=", "secret="];
    assert At(word, "token=", 0) by { assert word[0..6] == "token="; }
    FindIs(word, "token=", 0);
  }

  /** One word, a space, another word. */
  lemma RedactTwoWords(first: string, c: char, second: string, lower: char -> char)
    requires first != "" && second != "" && IsSpace(c)
    requires forall i :: 0 <= i < |first| ==> !IsSpace(first[i])
    requires forall i :: 0 <= i < |second| ==> !IsSpace(second[i])
    ensures Redact(first + [c] + second, lower) == Masked(first, lower) + [c] + Masked(second, lower)
  {
    ReadFirstWord(first, lower);
    var spaced := first + [c];
    assert "" + Masked(first, lower) == Masked(first, lower);
    ReadWord(spaced, second, lower);
    assert "" + second == second;
  }

  lemma ReadFirstWord(first: string, lower: char -> char)
    requires forall i :: 0 <= i < |first| ==> !IsSpace(first[i])
    ensures Read(first, lower) == Reading("", first)
  {
    ReadWord("", first, lower);
    assert "" + first == first;
  }

  /** A long text ending in a short secret. */
  function LongText(n: nat): string { seq(n, (i: nat) => 'a') + [' '] + "token=x" }

  /** The longest text that is allowed can come out longer than is allowed. */
  lemma RedactionGrows(n: nat, lower: char -> char)
    requires Lowered("token=x", lower) == "token=x" && lower('a') == 'a' && n > 0
    ensures |LongText(n)| == n + 8 && !Blank(LongText(n)) && |Redact(LongText(n), lower)| == n + 17
  {
    var first: string := seq(n, (i: nat) => 'a');
    assert LongText(n)[0] == 'a';
    RedactTwoWords(first, ' ', "token=x", lower);
    UnmarkedUnchanged(first, MARKERS, lower);
    MaskedToken(lower);
  }
}
