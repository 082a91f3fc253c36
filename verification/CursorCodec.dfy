/**
 A position in the conversation sidebar's order and its opaque wire form: base64url of the
 timestamp, a bar and the id. A Go string is a sequence of bytes; here one char is one byte.
 */
module CursorCodec {
  import opened Basics
  import opened Text
  import opened Base64Url
  import Rfc3339

  predicate IsBytes(s: string) { forall c | c in s :: c < '\U{100}' }

  datatype Key = Key(updatedAt: int, id: string)

  function ByteOf(c: char): (x: Byte)
    requires c < '\U{100}'
    ensures CharOf(x) == c
  {
    var n := c as int;
    var p := n / 4;
    var q := p / 4;
    Byte((q / 4) as Digit, (q % 4) as Digit, (p % 4) as Digit, (n % 4) as Digit)
  }

  function CharOf(x: Byte): char { (x.a as int * 64 + x.b as int * 16 + x.c as int * 4 + x.d as int) as char }

  function Bytes(s: string): seq<Byte>
    requires IsBytes(s)
  {
    seq(|s|, i requires 0 <= i < |s| => assert s[i] in s; ByteOf(s[i]))
  }

  function TextOf(x: seq<Byte>): string { seq(|x|, i requires 0 <= i < |x| => CharOf(x[i])) }

  lemma TextOfBytes(s: string)
    requires IsBytes(s)
    ensures TextOf(Bytes(s)) == s
  {
    forall i | 0 <= i < |s| ensures TextOf(Bytes(s))[i] == s[i] {
      assert s[i] in s;
      assert Bytes(s)[i] == ByteOf(s[i]);
    }
  }

  /** The parts of s around its first bar. */
  function Cut(s: string): Option<(string, string)> {
    if s == "" then None
    else if s[0] == '|' then Some(("", s[1..]))
    else
      var rest := Cut(s[1..]);
      if rest.None? then None else Some(([s[0]] + rest.value.0, rest.value.1))
  }

  lemma {:induction false} CutAtFirst(a: string, b: string)
    requires '|' !in a
    ensures Cut(a + "|" + b) == Some((a, b))
  {
    var s := a + "|" + b;
    if a == "" {
      assert s[1..] == b;
    } else {
      CutAtFirst(a[1..], b);
      assert s[1..] == a[1..] + "|" + b;
      assert a == [a[0]] + a[1..];
    }
  }

  function Raw(k: Key): (s: string)
    requires IsBytes(k.id)
    ensures IsBytes(s)
  {
    var t := Rfc3339.Format(k.updatedAt);
    Rfc3339.FormatIsPlain(k.updatedAt);
    assert IsBytes(t);
    t + "|" + k.id
  }

  function Encode(k: Key): string
    requires IsBytes(k.id)
  {
    EncodeToString(Bytes(Raw(k)))
  }

  function Decode(cursor: string): Option<Key> {
    var raw := DecodeString(Trim(cursor));
    if raw.None? then None
    else
      var parts := Cut(TextOf(raw.value));
      if parts.None? || parts.value.1 == "" then None
      else
        var t := Rfc3339.Parse(parts.value.0);
        if t.None? then None else Some(Key(t.value, parts.value.1))
  }

  /** A cursor a server can hand out and take back. */
  predicate Encodable(k: Key) { IsBytes(k.id) && k.id != "" && 0 <= Rfc3339.YearOf(k.updatedAt) <= 9999 }

  lemma NotSpace(c: char)
    requires CharSextet(c).Some?
    ensures !IsSpace(c)
  {}

  lemma EncodedIsTrimmed(x: seq<Byte>)
    ensures Trim(EncodeToString(x)) == EncodeToString(x)
  {
    var s := EncodeToString(x);
    assert Trimmed(s) by {
      EncodedAlphabet(x);
      if s != "" {
        NotSpace(s[0]);
        NotSpace(s[|s| - 1]);
      }
    }
    TrimCanonical(s);
  }

  /** Decoding an encoded key gives the key, exactly when its id is not empty and its year has four digits. */
  lemma RoundTrip(k: Key)
    requires IsBytes(k.id)
    ensures Decode(Encode(k)) == if Encodable(k) then Some(k) else None
  {
    var t := Rfc3339.Format(k.updatedAt);
    Rfc3339.FormatIsPlain(k.updatedAt);
    var raw := Raw(k);
    DecodeEncoded(Bytes(raw));
    EncodedIsTrimmed(Bytes(raw));
    TextOfBytes(raw);
    CutAtFirst(t, k.id);
    Rfc3339.ParseFormat(k.updatedAt);
  }

  /** No two keys share a cursor. */
  lemma EncodeIsInjective(k: Key, l: Key)
    requires Encodable(k) && Encodable(l) && Encode(k) == Encode(l)
    ensures k == l
  {
    RoundTrip(k);
    RoundTrip(l);
  }

  /** Go's string order: byte by byte, a proper prefix first. */
  predicate LexLess(a: string, b: string) {
    b != "" && (a == "" || a[0] < b[0] || (a[0] == b[0] && LexLess(a[1..], b[1..])))
  }

  /** A row keyed (updatedAt, id) sorts strictly after k. */
  predicate Precedes(k: Key, updatedAt: int, id: string) {
    updatedAt < k.updatedAt || (updatedAt == k.updatedAt && LexLess(id, k.id))
  }

  /** a and b agree up to k, where a ends or has the smaller byte. */
  predicate SmallerAt(a: string, b: string, k: nat) {
    k <= |a| && k < |b| && a[..k] == b[..k] && (k == |a| || a[k] < b[k])
  }

  ghost predicate SmallerText(a: string, b: string) { exists k: nat :: SmallerAt(a, b, k) }

  lemma {:induction false} LexExact(a: string, b: string)
    ensures LexLess(a, b) <==> SmallerText(a, b)
  {
    forall k: nat | 0 < k <= |a| && k <= |b| && a[..k] == b[..k] ensures a[0] == b[0] { assert a[..k][0] == b[..k][0]; }
    if a == "" || b == "" || a[0] != b[0] {
      assert b != "" && (a == "" || a[0] < b[0]) ==> SmallerAt(a, b, 0);
    } else {
      LexExact(a[1..], b[1..]);
      if k: nat :| SmallerAt(a[1..], b[1..], k) {
        assert a[..k + 1] == [a[0]] + a[1..][..k] && b[..k + 1] == [b[0]] + b[1..][..k];
        assert SmallerAt(a, b, k + 1);
      }
      if k: nat :| SmallerAt(a, b, k) {
        if k > 0 {
          assert a[1..][..k - 1] == a[..k][1..] && b[1..][..k - 1] == b[..k][1..];
          assert SmallerAt(a[1..], b[1..], k - 1);
        }
      }
    }
  }

  lemma {:induction false} LexTotal(a: string, b: string)
    ensures LexLess(a, b) || a == b || LexLess(b, a)
    ensures !(LexLess(a, b) && LexLess(b, a)) && !LexLess(a, a)
  {
    if a != "" { LexIrreflexive(a); }
    if a != "" && b != "" {
      LexTotal(a[1..], b[1..]);
      assert a == [a[0]] + a[1..] && b == [b[0]] + b[1..];
    }
  }

  lemma {:induction false} LexIrreflexive(a: string)
    ensures !LexLess(a, a)
  {
    if a != "" { LexIrreflexive(a[1..]); }
  }

  lemma {:induction false} LexTransitive(a: string, b: string, c: string)
    requires LexLess(a, b) && LexLess(b, c)
    ensures LexLess(a, c)
  {
    if a != "" && a[0] == b[0] == c[0] { LexTransitive(a[1..], b[1..], c[1..]); }
  }
}
