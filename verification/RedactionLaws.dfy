/** Redaction in the letters of the text: word by word, everything after the marker found. */
module RedactionLaws {
  import opened Characters
  import opened SddlText
  import opened Redaction

  // ---- Word by word

  lemma ReadSnoc(s: string, c: char, lower: char -> char)
    ensures Read(s + [c], lower) == Next(Read(s, lower), c, lower)
  {
    assert (s + [c])[..|s|] == s;
  }

  lemma {:induction false} ReadAfterSpace(s: string, c: char, t: string, lower: char -> char)
    requires IsSpace(c)
    ensures Read(s + [c] + t, lower) ==
      Reading(Redact(s, lower) + [c] + Read(t, lower).done, Read(t, lower).word)
  {
    var front := Redact(s, lower) + [c];
    if t == "" {
      ReadSnoc(s, c, lower);
      assert s + [c] + t == s + [c] && front + "" == front;
    } else {
      var rest, last := t[..|t| - 1], t[|t| - 1];
      ReadAfterSpace(s, c, rest, lower);
      ReadSnoc(s + [c] + rest, last, lower);
      assert s + [c] + t == s + [c] + rest + [last];
      NextAfter(front, Read(rest, lower), last, lower);
    }
  }

  lemma NextAfter(front: string, r: Reading, c: char, lower: char -> char)
    ensures Next(Reading(front + r.done, r.word), c, lower) ==
      Reading(front + Next(r, c, lower).done, Next(r, c, lower).word)
  {
    var more := if r.word == "" then "" else Masked(r.word, lower);
    assert front + r.done + more + [c] == front + (r.done + more + [c]);
  }

  /** The parts of a text on both sides of a white space are redacted on their own, and the space stays. */
  lemma RedactApart(s: string, c: char, t: string, lower: char -> char)
    requires IsSpace(c)
    ensures Redact(s + [c] + t, lower) == Redact(s, lower) + [c] + Redact(t, lower)
  {
    ReadAfterSpace(s, c, t, lower);
    var r := Read(t, lower);
    var more := if r.word == "" then "" else Masked(r.word, lower);
    assert Redact(s, lower) + [c] + r.done + more == Redact(s, lower) + [c] + (r.done + more);
  }

  /** A text without white space is masked as one word. */
  lemma RedactWord(word: string, lower: char -> char)
    requires forall i :: 0 <= i < |word| ==> !IsSpace(word[i])
    ensures Redact(word, lower) == if word == "" then "" else Masked(word, lower)
  {
    ReadFirstWord(word, lower);
    assert "" + Masked(word, lower) == Masked(word, lower);
  }

  // ---- One word

  /** The marker stands at that place, whatever the case of its letters in the word. */
  ghost predicate MarkedAt(word: string, marker: string, i: int, lower: char -> char) {
    0 <= i && i + |marker| <= |word| && forall j :: 0 <= j < |marker| ==> lower(word[i + j]) == marker[j]
  }

  /** It stands there first. */
  ghost predicate MarkedFirst(word: string, marker: string, i: int, lower: char -> char) {
    MarkedAt(word, marker, i, lower) && forall h :: h < i ==> !MarkedAt(word, marker, h, lower)
  }

  ghost predicate Unmarked(word: string, marker: string, lower: char -> char) {
    forall i :: !MarkedAt(word, marker, i, lower)
  }

  lemma MarkedIsFound(word: string, marker: string, i: nat, lower: char -> char)
    ensures At(Lowered(word, lower), marker, i) <==> MarkedAt(word, marker, i, lower)
  {
    var low := Lowered(word, lower);
    if MarkedAt(word, marker, i, lower) {
      assert low[i..i + |marker|] == marker;
    }
  }

  lemma FoundExactly(word: string, marker: string, lower: char -> char)
    ensures var at := Find(Lowered(word, lower), marker);
      if at.Some? then MarkedFirst(word, marker, at.value, lower) else Unmarked(word, marker, lower)
  {
    forall i: nat ensures At(Lowered(word, lower), marker, i) <==> MarkedAt(word, marker, i, lower) {
      MarkedIsFound(word, marker, i, lower);
    }
    if Find(Lowered(word, lower), marker).None? {
      forall i ensures !MarkedAt(word, marker, i, lower) {
        if i >= 0 {
          assert At(Lowered(word, lower), marker, i) ==> Contains(Lowered(word, lower), marker);
        }
      }
    }
  }

  /** The word up to and with its first marker of a kind, and the mask in place of the rest. */
  ghost predicate MaskedBehind(word: string, marker: string, masked: string, lower: char -> char) {
    exists i :: MarkedFirst(word, marker, i, lower) && masked == word[..i + |marker|] + "[REDACTED]"
  }

  lemma MaskStep(word: string, markers: seq<string>, lower: char -> char)
    requires markers != []
    ensures var masked := MaskedFrom(word, markers, lower);
      if Unmarked(word, markers[0], lower) then masked == MaskedFrom(word, markers[1..], lower)
      else MaskedBehind(word, markers[0], masked, lower)
  {
    FoundExactly(word, markers[0], lower);
  }

  /**
   * A word is cut behind its first password marker, or if it has none behind its first pwd, token or secret marker, in
   * this order of kinds; a word without any marker stays as it is.
   */
  lemma MaskedExactly(word: string, lower: char -> char)
    ensures var masked := Masked(word, lower);
      if !Unmarked(word, "password=", lower) then MaskedBehind(word, "password=", masked, lower)
      else if !Unmarked(word, "pwd=", lower) then MaskedBehind(word, "pwd=", masked, lower)
      else if !Unmarked(word, "token=", lower) then MaskedBehind(word, "token=", masked, lower)
      else if !Unmarked(word, "secret=", lower) then MaskedBehind(word, "secret=", masked, lower)
      else masked == word
  {
    var four, three, two, one := MARKERS, MARKERS[1..], MARKERS[2..], MARKERS[3..];
    assert four[1..] == three && three[1..] == two && two[1..] == one && one[1..] == [];
    MaskStep(word, four, lower);
    MaskStep(word, three, lower);
    MaskStep(word, two, lower);
    MaskStep(word, one, lower);
  }
}
