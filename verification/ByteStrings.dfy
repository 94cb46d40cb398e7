/** Byte strings as the program sees them: arbitrary bytes, plus the reading of
    a byte string as a NUL-terminated C string. */
module ByteStrings {

  type byte = b: int | 0 <= b < 256
  type Bytes = seq<byte>

  const NUL: byte := 0
  const LF: byte := 10
  const CR: byte := 13
  const CRLF: Bytes := [CR, LF]

  datatype Option<+T> = None | Some(value: T)

  predicate IsNotNul(b: byte) { b != NUL }

  predicate IsNotCrOrLf(b: byte) { b != CR && b != LF }

  predicate NulFree(s: Bytes) {
    forall i | 0 <= i < |s| :: IsNotNul(s[i])
  }

  predicate CrLfFree(s: Bytes) {
    forall i | 0 <= i < |s| :: IsNotCrOrLf(s[i])
  }

  /** The length of the longest prefix of `s` whose bytes all satisfy `p`. */
  function Span(s: Bytes, p: byte -> bool): (k: nat)
    ensures k <= |s|
    ensures forall i | 0 <= i < k :: p(s[i])
    ensures k < |s| ==> !p(s[k])
  {
    if s == [] || !p(s[0]) then 0 else
      var k := 1 + Span(s[1..], p);
      assert forall i | 1 <= i < k :: s[i] == s[1..][i - 1];
      k
  }

  /** `Span` is the only number with the properties it promises. */
  lemma SpanIsUnique(s: Bytes, p: byte -> bool, k: nat)
    requires k <= |s|
    requires forall i | 0 <= i < k :: p(s[i])
    requires k < |s| ==> !p(s[k])
    ensures Span(s, p) == k
  {
  }

  /** What a C string copy keeps of `s`: everything before the first NUL. */
  function CString(s: Bytes): (c: Bytes)
    ensures NulFree(c)
    ensures |c| <= |s| && c == s[..|c|]
    ensures |c| < |s| ==> s[|c|] == NUL
    ensures NulFree(s) ==> c == s
  {
    var k := Span(s, IsNotNul);
    assert forall i | 0 <= i < k :: IsNotNul(s[i]);
    assert k < |s| ==> !IsNotNul(s[k]);
    s[..k]
  }

  /** A NUL written after `s` ends the copy there, whatever follows in memory. */
  lemma CStringStopsAtNul(s: Bytes, rest: Bytes)
    ensures CString(s + [NUL] + rest) == CString(s)
  {
    var all := s + [NUL] + rest;
    var k := Span(s, IsNotNul);
    assert all[..k] == s[..k];
    assert forall i | 0 <= i < k :: all[i] == s[i];
    assert all[k] == if k < |s| then s[k] else NUL;
    SpanIsUnique(all, IsNotNul, k);
  }
}
