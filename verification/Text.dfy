/** The string operations of the Go standard library that the modelled code relies on. */
module Text {

  /** White space as unicode.IsSpace has it. */
  predicate IsSpace(c: char) {
    c in {'\t', '\n', '\U{b}', '\U{c}', '\r', ' ', '\U{85}', '\U{a0}', '\U{1680}', '\U{2028}', '\U{2029}', '\U{202f}', '\U{205f}', '\U{3000}'}
    || '\U{2000}' <= c <= '\U{200a}'
  }

  /** White space by code point. */
  lemma IsSpaceExactly(c: char)
    ensures IsSpace(c) <==> c as int in {9, 10, 11, 12, 13, 32, 133, 160, 5760, 8232, 8233, 8239, 8287, 12288} || 8192 <= c as int <= 8202
  {}

  function TrimLeft(s: string): string {
    if s != "" && IsSpace(s[0]) then TrimLeft(s[1..]) else s
  }

  function TrimRight(s: string): string {
    if s != "" && IsSpace(s[|s| - 1]) then TrimRight(s[..|s| - 1]) else s
  }

  function Trim(s: string): string { TrimRight(TrimLeft(s)) }

  /** Neither end is white space. */
  predicate Trimmed(s: string) { s == "" || (!IsSpace(s[0]) && !IsSpace(s[|s| - 1])) }

  lemma {:induction false} TrimLeftDone(s: string)
    ensures TrimLeft(s) == "" || !IsSpace(TrimLeft(s)[0])
    ensures |TrimLeft(s)| <= |s| && TrimLeft(s) == s[|s| - |TrimLeft(s)|..]
  {
    if s != "" && IsSpace(s[0]) { TrimLeftDone(s[1..]); }
  }

  lemma {:induction false} TrimRightDone(s: string)
    ensures TrimRight(s) <= s
    ensures TrimRight(s) == "" || !IsSpace(TrimRight(s)[|TrimRight(s)| - 1])
  {
    if s != "" && IsSpace(s[|s| - 1]) { TrimRightDone(s[..|s| - 1]); }
  }

  /** Trimming leaves a trimmed part of its argument, and is the identity exactly on trimmed strings. */
  lemma TrimCanonical(s: string)
    ensures Trimmed(Trim(s))
    ensures Trim(s) == s <==> Trimmed(s)
    ensures forall c | c in Trim(s) :: c in s
  {
    TrimLeftDone(s);
    TrimRightDone(TrimLeft(s));
    if Trim(s) == s { assert TrimLeft(s) == s; }
  }

  lemma {:induction false} TrimLeftDrops(s: string)
    ensures |TrimLeft(s)| <= |s| && forall i | 0 <= i < |s| - |TrimLeft(s)| :: IsSpace(s[i])
  {
    if s != "" && IsSpace(s[0]) {
      TrimLeftDrops(s[1..]);
      assert forall i | 0 < i < |s| :: s[i] == s[1..][i - 1];
    }
  }

  lemma {:induction false} TrimRightDrops(s: string)
    ensures |TrimRight(s)| <= |s| && forall i | |TrimRight(s)| <= i < |s| :: IsSpace(s[i])
  {
    if s != "" && IsSpace(s[|s| - 1]) { TrimRightDrops(s[..|s| - 1]); }
  }

  lemma MiddleOf(s: string, i: nat, n: nat)
    requires i + n <= |s|
    ensures s[i..][..n] == s[i..i + n]
  {}

  /** Trimming drops white space from both ends and nothing else. */
  lemma TrimExact(s: string) returns (i: nat, j: nat)
    ensures i <= j <= |s| && Trim(s) == s[i..j] && Trimmed(Trim(s))
    ensures forall k | 0 <= k < i || j <= k < |s| :: IsSpace(s[k])
  {
    var left := TrimLeft(s);
    TrimLeftDone(s);
    TrimRightDone(left);
    TrimCanonical(s);
    TrimLeftDrops(s);
    TrimRightDrops(left);
    i := |s| - |left|;
    j := i + |Trim(s)|;
    MiddleOf(s, i, |Trim(s)|);
    forall k | j <= k < |s| ensures IsSpace(s[k]) { assert s[k] == left[k - i]; }
  }

  /** ASCII lower case. */
  function LowerChar(c: char): char {
    if 'A' <= c <= 'Z' then ((c as int) - ('A' as int) + ('a' as int)) as char else c
  }

  function Lower(s: string): string { seq(|s|, i requires 0 <= i < |s| => LowerChar(s[i])) }

  predicate EqualFold(a: string, b: string) { Lower(a) == Lower(b) }

  /** The two are the capital and the small form of one letter. */
  predicate OtherCase(c: char, d: char) {
    ('A' <= c <= 'Z' && d as int == c as int + 32) || ('a' <= c <= 'z' && d as int == c as int - 32)
  }

  /** Letter by letter the same, but for case. */
  predicate SameButForCase(a: string, b: string) {
    |a| == |b| && forall i | 0 <= i < |a| :: a[i] == b[i] || OtherCase(a[i], b[i])
  }

  lemma EqualFoldExact(a: string, b: string)
    ensures EqualFold(a, b) <==> SameButForCase(a, b)
  {
    if EqualFold(a, b) {
      forall i | 0 <= i < |a| ensures a[i] == b[i] || OtherCase(a[i], b[i]) {
        assert Lower(a)[i] == LowerChar(a[i]) && Lower(b)[i] == LowerChar(b[i]);
      }
    }
  }

  predicate IsSplit(whole: string, pre: string, part: string, post: string) { whole == pre + part + post }

  /** The part stands somewhere in the whole. */
  ghost predicate Occurs(part: string, whole: string) { exists pre, post :: IsSplit(whole, pre, part, post) }

  /** How many bytes a character takes in UTF-8. */
  function ByteSize(c: char): nat {
    if c < '\U{80}' then 1 else if c < '\U{800}' then 2 else if c < '\U{10000}' then 3 else 4
  }

  /** Go's len of a string. */
  function ByteLength(s: string): nat {
    if s == "" then 0 else ByteLength(s[..|s| - 1]) + ByteSize(s[|s| - 1])
  }

  /** By code point: one byte up to 7F, two up to 7FF, three up to FFFF, four beyond; and text by text. */
  lemma {:induction false} ByteLengthExact(a: string, b: string, c: char)
    ensures ByteLength([c]) == if c as int <= 127 then 1 else if c as int <= 2047 then 2 else if c as int <= 65535 then 3 else 4
    ensures ByteLength(a + b) == ByteLength(a) + ByteLength(b)
  {
    assert [c][..0] == "";
    if b == "" {
      assert a + b == a;
    } else {
      ByteLengthExact(a, b[..|b| - 1], c);
      assert (a + b)[..|a + b| - 1] == a + b[..|b| - 1];
    }
  }
}
