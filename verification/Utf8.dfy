// UTF-8 as section 3 of RFC 3629 defines it: the encoder, the boundary test of
// `str::is_char_boundary`, and the two facts the truncating and the reading code
// rely on: a boundary cuts a string into whole characters, and the encoding of
// a string determines it.
module Utf8 {
  import opened Text

  newtype Byte = b: int | 0 <= b < 256

  function EncodeChar(c: char): (bytes: seq<Byte>)
    ensures 1 <= |bytes| <= 4
  {
    var n := c as int;
    if n < 0x80 then [n as Byte]
    else if n < 0x800 then [(0xC0 + n / 64) as Byte, (0x80 + n % 64) as Byte]
    else if n < 0x10000 then
      [(0xE0 + n / 4096) as Byte, (0x80 + n / 64 % 64) as Byte, (0x80 + n % 64) as Byte]
    else
      [(0xF0 + n / 262144) as Byte, (0x80 + n / 4096 % 64) as Byte, (0x80 + n / 64 % 64) as Byte,
          (0x80 + n % 64) as Byte]
  }

  function Encode(s: string): seq<Byte> {
    if s == [] then [] else EncodeChar(s[0]) + Encode(s[1..])
  }

  predicate Continuation(b: Byte) { 0x80 <= b < 0xC0 }

  predicate CharBoundary(bytes: seq<Byte>, i: nat) {
    i == 0 || i == |bytes| || (i < |bytes| && !Continuation(bytes[i]))
  }

  lemma LeadAndTail(c: char)
    ensures !Continuation(EncodeChar(c)[0])
    ensures forall i :: 1 <= i < |EncodeChar(c)| ==> Continuation(EncodeChar(c)[i])
  {
  }

  function Width(lead: Byte): nat {
    if lead < 0x80 then 1 else if lead < 0xE0 then 2 else if lead < 0xF0 then 3 else 4
  }

  lemma WidthOfLead(c: char)
    ensures |EncodeChar(c)| == Width(EncodeChar(c)[0])
  {
    var n := c as int;
    assert n < 0x800 ==> n / 64 < 32;
    assert n < 0x10000 ==> n / 4096 < 16;
    assert n < 0x110000 ==> n / 262144 < 5;
  }

  lemma SixBitGroups(n: nat)
    ensures n == n / 64 * 64 + n % 64
    ensures n / 64 == n / 4096 * 64 + n / 64 % 64
    ensures n / 4096 == n / 262144 * 64 + n / 4096 % 64
  {
    assert n / 4096 == n / 64 / 64;
    assert n / 262144 == n / 4096 / 64;
  }

  lemma CharInjective(c: char, d: char)
    requires EncodeChar(c) == EncodeChar(d)
    ensures c == d
  {
    var e, f := EncodeChar(c), EncodeChar(d);
    assert forall i :: 0 <= i < |e| ==> e[i] as int == f[i] as int;
    SixBitGroups(c as int);
    SixBitGroups(d as int);
    assert c as int == d as int;
  }

  /** The encoding is prefix-free: the first character can be read off. */
  lemma FirstCharDetermined(c: char, x: seq<Byte>, d: char, y: seq<Byte>)
    requires EncodeChar(c) + x == EncodeChar(d) + y
    ensures c == d && x == y
  {
    var e, f := EncodeChar(c), EncodeChar(d);
    assert e[0] == (e + x)[0] == (f + y)[0] == f[0];
    WidthOfLead(c);
    WidthOfLead(d);
    assert e == (e + x)[..|e|] == (f + y)[..|f|] == f;
    assert x == (e + x)[|e|..] == (f + y)[|f|..] == y;
    CharInjective(c, d);
  }

  lemma {:induction false} EncodeInjective(a: string, b: string)
    requires Encode(a) == Encode(b)
    ensures a == b
  {
    if a != [] && b != [] {
      FirstCharDetermined(a[0], Encode(a[1..]), b[0], Encode(b[1..]));
      EncodeInjective(a[1..], b[1..]);
      assert a == [a[0]] + a[1..] && b == [b[0]] + b[1..];
    }
  }

  lemma {:induction false} EncodeConcat(a: string, b: string)
    ensures Encode(a + b) == Encode(a) + Encode(b)
  {
    if a == [] {
      assert a + b == b;
    } else {
      assert (a + b)[1..] == a[1..] + b;
      EncodeConcat(a[1..], b);
    }
  }

  lemma {:induction false} EncodeAscii(s: string)
    requires forall i :: 0 <= i < |s| ==> s[i] as int < 0x80
    ensures |Encode(s)| == |s|
  {
    if s != [] {
      EncodeAscii(s[1..]);
    }
  }

  /** A character boundary of an encoded string falls between two of its characters. */
  lemma {:induction false} BoundaryCutsCharacters(s: string, end: nat) returns (k: nat)
    requires end <= |Encode(s)| && CharBoundary(Encode(s), end)
    ensures k <= |s| && Encode(s)[..end] == Encode(s[..k])
  {
    if end == 0 {
      k := 0;
      assert s[..0] == [];
    } else {
      var head, rest := EncodeChar(s[0]), Encode(s[1..]);
      LeadAndTail(s[0]);
      assert forall i :: 0 <= i < |head| ==> Encode(s)[i] == head[i];
      var e := end - |head|;
      if e < |rest| {
        assert Encode(s)[end] == rest[e];
      }
      var j := BoundaryCutsCharacters(s[1..], e);
      k := j + 1;
      assert s[..k][1..] == s[1..][..j];
      assert Encode(s)[..end] == head + rest[..e];
    }
  }

  /** Among any four consecutive positions of an encoded string one is a boundary. */
  lemma {:induction false} BoundaryWithinThree(s: string, end: nat) returns (back: nat)
    requires end <= |Encode(s)|
    ensures back <= 3 && back <= end && CharBoundary(Encode(s), end - back)
  {
    if end == |Encode(s)| {
      back := 0;
    } else if end < |EncodeChar(s[0])| {
      back := end;
    } else {
      var head, rest := EncodeChar(s[0]), Encode(s[1..]);
      back := BoundaryWithinThree(s[1..], end - |head|);
      var at := end - |head| - back;
      LeadAndTail(s[1]);
      assert rest[at] == Encode(s)[end - back];
    }
  }

  predicate IsScalar(n: nat) { n < 0xD800 || 0xE000 <= n < 0x110000 }

  function Low(b: Byte): nat
    requires Continuation(b)
  {
    b as int - 0x80
  }

  /** The first character of some bytes and its width, if they start with one. */
  function DecodeFirst(b: seq<Byte>): (r: Option<(char, nat)>)
    ensures r.Some? ==> 1 <= r.value.1 <= |b|
  {
    if b == [] then None
    else if b[0] < 0x80 then Some((b[0] as char, 1))
    else if 0xC2 <= b[0] < 0xE0 && |b| >= 2 && Continuation(b[1]) then
      Some((((b[0] as int - 0xC0) * 64 + Low(b[1])) as char, 2))
    else if 0xE0 <= b[0] < 0xF0 && |b| >= 3 && Continuation(b[1]) && Continuation(b[2]) then
      var n := (b[0] as int - 0xE0) * 4096 + Low(b[1]) * 64 + Low(b[2]);
      if n >= 0x800 && IsScalar(n) then Some((n as char, 3)) else None
    else if 0xF0 <= b[0] < 0xF5 && |b| >= 4 && Continuation(b[1]) && Continuation(b[2]) && Continuation(b[3]) then
      var n := (b[0] as int - 0xF0) * 262144 + Low(b[1]) * 4096 + Low(b[2]) * 64 + Low(b[3]);
      if n >= 0x10000 && IsScalar(n) then Some((n as char, 4)) else None
    else None
  }

  /** `str::from_utf8`. */
  function Decode(b: seq<Byte>): Option<string>
    decreases |b|
  {
    if b == [] then Some([])
    else
      match DecodeFirst(b)
      case None => None
      case Some((c, width)) =>
        match Decode(b[width..])
        case None => None
        case Some(rest) => Some([c] + rest)
  }

  lemma TwoGroups(h: nat, l: nat)
    requires l < 64
    ensures (h * 64 + l) / 64 == h && (h * 64 + l) % 64 == l
  {
  }

  lemma TwoBytes(a: nat, b: nat)
    requires 2 <= a < 32 && b < 64
    ensures EncodeChar((a * 64 + b) as char) == [(0xC0 + a) as Byte, (0x80 + b) as Byte]
  {
    TwoGroups(a, b);
  }

  lemma ThreeBytes(a: nat, b: nat, c: nat)
    requires a < 16 && b < 64 && c < 64 && a * 4096 + b * 64 + c >= 0x800 && IsScalar(a * 4096 + b * 64 + c)
    ensures EncodeChar((a * 4096 + b * 64 + c) as char) == [(0xE0 + a) as Byte, (0x80 + b) as Byte, (0x80 + c) as Byte]
  {
    TwoGroups(a, b);
    TwoGroups(a * 64 + b, c);
    SixBitGroups(a * 4096 + b * 64 + c);
    TwoGroups(a * 64 + b, c);
  }

  lemma FourBytes(a: nat, b: nat, c: nat, d: nat)
    requires a < 5 && b < 64 && c < 64 && d < 64
    requires 0x10000 <= a * 262144 + b * 4096 + c * 64 + d < 0x110000
    ensures EncodeChar((a * 262144 + b * 4096 + c * 64 + d) as char) ==
            [(0xF0 + a) as Byte, (0x80 + b) as Byte, (0x80 + c) as Byte, (0x80 + d) as Byte]
  {
    TwoGroups(a, b);
    TwoGroups(a * 64 + b, c);
    TwoGroups((a * 64 + b) * 64 + c, d);
    SixBitGroups(a * 262144 + b * 4096 + c * 64 + d);
  }

  lemma DecodeFirstSound(b: seq<Byte>)
    requires DecodeFirst(b).Some?
    ensures b[..DecodeFirst(b).value.1] == EncodeChar(DecodeFirst(b).value.0)
  {
    var width := DecodeFirst(b).value.1;
    if width == 2 {
      TwoBytes(b[0] as int - 0xC0, Low(b[1]));
      hide EncodeChar;
      assert b[..2] == [b[0], b[1]];
    } else if width == 3 {
      ThreeBytes(b[0] as int - 0xE0, Low(b[1]), Low(b[2]));
      hide EncodeChar;
      assert b[..3] == [b[0], b[1], b[2]];
    } else if width == 4 {
      FourBytes(b[0] as int - 0xF0, Low(b[1]), Low(b[2]), Low(b[3]));
      hide EncodeChar;
      assert b[..4] == [b[0], b[1], b[2], b[3]];
    }
  }

  lemma DecodeFirstComplete(c: char, rest: seq<Byte>)
    ensures DecodeFirst(EncodeChar(c) + rest) == Some((c, |EncodeChar(c)|))
  {
    var b, n := EncodeChar(c) + rest, c as int;
    SixBitGroups(n);
    WidthOfLead(c);
    LeadAndTail(c);
    assert b[..|EncodeChar(c)|] == EncodeChar(c);
    assert forall i :: 0 <= i < |EncodeChar(c)| ==> b[i] == EncodeChar(c)[i];
    if n < 0x80 {
    } else if n < 0x800 {
      assert 0xC2 <= b[0] < 0xE0;
    } else if n < 0x10000 {
      assert 0xE0 <= b[0] < 0xF0;
      assert (b[0] as int - 0xE0) * 4096 + Low(b[1]) * 64 + Low(b[2]) == n;
    } else {
      assert 0xF0 <= b[0] < 0xF5;
      assert (b[0] as int - 0xF0) * 262144 + Low(b[1]) * 4096 + Low(b[2]) * 64 + Low(b[3]) == n;
    }
  }

  /** The decoder accepts exactly the encodings of strings, and returns the string. */
  lemma {:induction false} DecodeEncode(s: string)
    ensures Decode(Encode(s)) == Some(s)
  {
    if s != [] {
      DecodeFirstComplete(s[0], Encode(s[1..]));
      assert Encode(s)[|EncodeChar(s[0])|..] == Encode(s[1..]);
      DecodeEncode(s[1..]);
      assert s == [s[0]] + s[1..];
    }
  }

  lemma {:induction false} EncodeDecode(b: seq<Byte>)
    requires Decode(b).Some?
    ensures Encode(Decode(b).value) == b
    decreases |b|
  {
    hide EncodeChar, DecodeFirst;
    if b != [] {
      var (c, width) := DecodeFirst(b).value;
      DecodeFirstSound(b);
      EncodeDecode(b[width..]);
      assert b == b[..width] + b[width..];
      assert Decode(b).value[1..] == Decode(b[width..]).value;
    }
  }
}
