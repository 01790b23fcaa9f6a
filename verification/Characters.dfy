/** Classes of characters that the checks on text share. */
module Characters {
  /** The Unicode white space. */
  predicate IsSpace(c: char) {
    ('\t' <= c <= '\r') || c in " \U{85}\U{A0}\U{1680}\U{2028}\U{2029}\U{202F}\U{205F}\U{3000}"
      || '\U{2000}' <= c <= '\U{200A}'
  }

  predicate Blank(s: string) { forall i :: 0 <= i < |s| ==> IsSpace(s[i]) }

  predicate IsControl(c: char) { c < ' ' || '\U{7F}' <= c <= '\U{9F}' }

  predicate NoControls(s: string) { forall i :: 0 <= i < |s| ==> !IsControl(s[i]) }

  /** ASCII lower case, the only case folding the identifiers here get. */
  function Lower(c: char): char { if 'A' <= c <= 'Z' then c - 'A' + 'a' else c }

  predicate SameIgnoringCase(s: string, t: string) {
    |s| == |t| && forall i :: 0 <= i < |s| ==> Lower(s[i]) == Lower(t[i])
  }

  /** The two cases of one ASCII letter. */
  predicate Cases(c: char, d: char) { 'A' <= c <= 'Z' && d as int == c as int + 32 }

  /** Texts are the same if nothing but the case of ASCII letters tells them apart. */
  lemma SameExactly(s: string, t: string)
    ensures SameIgnoringCase(s, t) <==>
      |s| == |t| && forall i :: 0 <= i < |s| ==> s[i] == t[i] || Cases(s[i], t[i]) || Cases(t[i], s[i])
  {
  }

  lemma SpacesByNumber(c: char)
    ensures IsSpace(c) <==>
      || 0x9 <= c as int <= 0xD || 0x2000 <= c as int <= 0x200A
      || c as int in {0x20, 0x85, 0xA0, 0x1680, 0x2028, 0x2029, 0x202F, 0x205F, 0x3000}
    ensures IsControl(c) <==> c as int < 0x20 || 0x7F <= c as int <= 0x9F
  {
  }
}
