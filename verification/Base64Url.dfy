/**
 Base64url without padding (section 5 of RFC 4648), as Go's RawURLEncoding reads and writes
 it. The codec only regroups bits, so bytes and sextets are given as base-4 digits, most
 significant first: three bytes and four sextets are the same twelve digits.
 */
module Base64Url {
  import opened Basics

  newtype Digit = x: int | 0 <= x < 4
  datatype Byte = Byte(a: Digit, b: Digit, c: Digit, d: Digit)
  datatype Sextet = Sextet(a: Digit, b: Digit, c: Digit)

  function Value(s: Sextet): (n: int)
    ensures 0 <= n < 64
  {
    s.a as int * 16 + s.b as int * 4 + s.c as int
  }

  function SextetOf(n: int): Sextet
    requires 0 <= n < 64
  {
    var p := n / 4;
    Sextet((p / 4) as Digit, (p % 4) as Digit, (n % 4) as Digit)
  }

  function SextetChar(s: Sextet): char {
    var n := Value(s);
    if n < 26 then ('A' as int + n) as char
    else if n < 52 then ('a' as int + n - 26) as char
    else if n < 62 then ('0' as int + n - 52) as char
    else if n == 62 then '-' else '_'
  }

  /** The place of a character in the alphabet, -1 outside it. */
  function CharValue(c: char): (n: int)
    ensures -1 <= n < 64
  {
    if 'A' <= c <= 'Z' then c as int - 'A' as int
    else if 'a' <= c <= 'z' then c as int - 'a' as int + 26
    else if '0' <= c <= '9' then c as int - '0' as int + 52
    else if c == '-' then 62
    else if c == '_' then 63
    else -1
  }

  function CharSextet(c: char): Option<Sextet> {
    if CharValue(c) < 0 then None else Some(SextetOf(CharValue(c)))
  }

  lemma ValueBack(s: Sextet)
    ensures SextetOf(Value(s)) == s
  {
    var n := Value(s);
    assert n / 4 == s.a as int * 4 + s.b as int && n % 4 == s.c as int;
    assert n / 4 / 4 == s.a as int && n / 4 % 4 == s.b as int;
  }

  lemma CharOfSextet(s: Sextet)
    ensures CharSextet(SextetChar(s)) == Some(s)
  {
    assert CharValue(SextetChar(s)) == Value(s);
    ValueBack(s);
  }

  function ToSextets(x: seq<Byte>): seq<Sextet> {
    if |x| == 0 then []
    else if |x| == 1 then [Sextet(x[0].a, x[0].b, x[0].c), Sextet(x[0].d, 0, 0)]
    else if |x| == 2 then [Sextet(x[0].a, x[0].b, x[0].c), Sextet(x[0].d, x[1].a, x[1].b), Sextet(x[1].c, x[1].d, 0)]
    else
      var quad := [Sextet(x[0].a, x[0].b, x[0].c), Sextet(x[0].d, x[1].a, x[1].b), Sextet(x[1].c, x[1].d, x[2].a), Sextet(x[2].b, x[2].c, x[2].d)];
      quad + ToSextets(x[3..])
  }

  /** A single sextet left over is an error; leftover bits are ignored. */
  function FromSextets(s: seq<Sextet>): Option<seq<Byte>> {
    if |s| == 0 then Some([])
    else if |s| == 1 then None
    else if |s| == 2 then Some([Byte(s[0].a, s[0].b, s[0].c, s[1].a)])
    else if |s| == 3 then Some([Byte(s[0].a, s[0].b, s[0].c, s[1].a), Byte(s[1].b, s[1].c, s[2].a, s[2].b)])
    else
      var rest := FromSextets(s[4..]);
      if rest.None? then None
      else Some([Byte(s[0].a, s[0].b, s[0].c, s[1].a), Byte(s[1].b, s[1].c, s[2].a, s[2].b), Byte(s[2].c, s[3].a, s[3].b, s[3].c)] + rest.value)
  }

  function Chars(s: seq<Sextet>): string { seq(|s|, i requires 0 <= i < |s| => SextetChar(s[i])) }

  /** The sextets of a text; line breaks are skipped, any other foreign character is an error. */
  function Sextets(t: string): Option<seq<Sextet>> {
    if t == "" then Some([])
    else if t[0] == '\n' || t[0] == '\r' then Sextets(t[1..])
    else
      var head, rest := CharSextet(t[0]), Sextets(t[1..]);
      if head.None? || rest.None? then None else Some([head.value] + rest.value)
  }

  function EncodeToString(x: seq<Byte>): string { Chars(ToSextets(x)) }

  function DecodeString(t: string): Option<seq<Byte>> {
    var s := Sextets(t);
    if s.None? then None else FromSextets(s.value)
  }

  lemma NextSextet(c: char, rest: string)
    requires CharSextet(c).Some?
    ensures var more := Sextets(rest);
            Sextets([c] + rest) == if more.None? then None else Some([CharSextet(c).value] + more.value)
  {
    assert c != '\n' && c != '\r';
    assert ([c] + rest)[1..] == rest;
  }

  lemma {:induction false} SextetsOfChars(s: seq<Sextet>)
    ensures Sextets(Chars(s)) == Some(s)
  {
    if s != [] {
      CharOfSextet(s[0]);
      NextSextet(SextetChar(s[0]), Chars(s[1..]));
      assert Chars(s) == [SextetChar(s[0])] + Chars(s[1..]);
      SextetsOfChars(s[1..]);
      assert s == [s[0]] + s[1..];
    }
  }

  lemma {:induction false} FromToSextets(x: seq<Byte>)
    ensures FromSextets(ToSextets(x)) == Some(x)
  {
    if |x| == 1 {
      assert x == [x[0]];
    } else if |x| == 2 {
      assert x == [x[0], x[1]];
    } else if |x| >= 3 {
      FromToSextets(x[3..]);
      assert ToSextets(x)[4..] == ToSextets(x[3..]);
      assert x == [x[0], x[1], x[2]] + x[3..];
    }
  }

  /** Decoding an encoded text gives the bytes back. */
  lemma DecodeEncoded(x: seq<Byte>)
    ensures DecodeString(EncodeToString(x)) == Some(x)
  {
    SextetsOfChars(ToSextets(x));
    FromToSextets(x);
  }

  /** Encoded text is made of the alphabet alone. */
  lemma EncodedAlphabet(x: seq<Byte>)
    ensures forall c | c in EncodeToString(x) :: CharSextet(c).Some?
  {
    forall c | c in EncodeToString(x) ensures CharSextet(c).Some? {
      var s := ToSextets(x);
      var i :| 0 <= i < |s| && Chars(s)[i] == c;
      CharOfSextet(s[i]);
    }
  }

  /** The alphabet of section 5, by ASCII code: capitals, small letters, digits, hyphen, underscore. */
  lemma AlphabetInOrder(s: Sextet)
    ensures var n, c := Value(s), SextetChar(s) as int;
            c == if n <= 25 then 65 + n else if n <= 51 then 71 + n else if n <= 61 then n - 4 else if n == 62 then 45 else 95
  {}

  function Number(x: Byte): nat { x.a as int * 64 + x.b as int * 16 + x.c as int * 4 + x.d as int }

  /** Three bytes and their four sextets, most significant first, are one 24-bit number. */
  lemma GroupOfThree(x: seq<Byte>)
    requires |x| == 3
    ensures |ToSextets(x)| == 4
    ensures var s := ToSextets(x);
            ((Value(s[0]) * 64 + Value(s[1])) * 64 + Value(s[2])) * 64 + Value(s[3]) == (Number(x[0]) * 256 + Number(x[1])) * 256 + Number(x[2])
  {
    assert ToSextets(x[3..]) == [];
  }

  /** One or two bytes at the end are padded with zero bits, and no padding character is written. */
  lemma LastGroup(x: seq<Byte>)
    requires 1 <= |x| <= 2
    ensures |ToSextets(x)| == |x| + 1
    ensures var s := ToSextets(x);
            if |x| == 1 then Value(s[0]) * 64 + Value(s[1]) == Number(x[0]) * 16
            else (Value(s[0]) * 64 + Value(s[1])) * 64 + Value(s[2]) == (Number(x[0]) * 256 + Number(x[1])) * 4
  {}

  /** Line breaks anywhere in the text make no difference. */
  lemma {:induction false} LineBreaksSkipped(a: string, c: char, b: string)
    requires c == '\n' || c == '\r'
    ensures Sextets(a + [c] + b) == Sextets(a + b)
  {
    var s := a + [c] + b;
    if a == "" {
      assert s[1..] == b && a + b == b;
    } else {
      LineBreaksSkipped(a[1..], c, b);
      assert s[1..] == a[1..] + [c] + b && (a + b)[1..] == a[1..] + b;
    }
  }
}
