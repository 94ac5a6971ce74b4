/** UTF-8 (RFC 3629): the byte sequences of section 4, and the encoding of section 3.
    Main result: the first are exactly the encodings of scalar values (ValidIsEncoding). */
module Utf8 {
  import opened Basics
  import opened Bytes

  type scalar = x: int | 0 <= x < 0xD800 || 0xE000 <= x <= 0x10FFFF

  predicate Tail(b: byte) {
    0x80 <= b <= 0xBF
  }

  /** The length of the character s starts with, 0 if it starts with none (section 4). */
  function CharLen(s: seq<byte>): (n: nat)
    ensures n <= |s| && n <= 4
  {
    if s == [] then 0
    else if s[0] < 0x80 then 1
    else if 0xC2 <= s[0] <= 0xDF && |s| >= 2 && Tail(s[1]) then 2
    else if 0xE0 <= s[0] <= 0xEF && |s| >= 3 && Tail(s[1]) && Tail(s[2])
            && (s[0] == 0xE0 ==> s[1] >= 0xA0) && (s[0] == 0xED ==> s[1] <= 0x9F) then 3
    else if 0xF0 <= s[0] <= 0xF4 && |s| >= 4 && Tail(s[1]) && Tail(s[2]) && Tail(s[3])
            && (s[0] == 0xF0 ==> s[1] >= 0x90) && (s[0] == 0xF4 ==> s[1] <= 0x8F) then 4
    else 0
  }

  predicate Valid(s: seq<byte>) {
    s == [] || (CharLen(s) > 0 && Valid(s[CharLen(s)..]))
  }

  /** Section 3: the bits of c in groups of six, the leading group after the length mark. */
  function Encode(c: scalar): seq<byte> {
    var c1 := c / 64;
    var c2 := c1 / 64;
    if c < 0x80 then [c]
    else if c < 0x800 then [0xC0 + c1, 0x80 + c % 64]
    else if c < 0x10000 then [0xE0 + c2, 0x80 + c1 % 64, 0x80 + c % 64]
    else [0xF0 + c2 / 64, 0x80 + c2 % 64, 0x80 + c1 % 64, 0x80 + c % 64]
  }

  function EncodeAll(cs: seq<scalar>): seq<byte> {
    if cs == [] then [] else Encode(cs[0]) + EncodeAll(cs[1..])
  }

  function Six(b: byte): int {
    b - 0x80
  }

  /** The scalar value of the character s starts with. */
  function First(s: seq<byte>): (c: scalar)
    requires CharLen(s) > 0
  {
    match CharLen(s)
    case 1 => s[0]
    case 2 => 64 * (s[0] - 0xC0) as int + Six(s[1])
    case 3 => 64 * (64 * (s[0] - 0xE0) as int + Six(s[1])) + Six(s[2])
    case 4 => 64 * (64 * (64 * (s[0] - 0xF0) as int + Six(s[1])) + Six(s[2])) + Six(s[3])
  }

  lemma Digit(a: int, b: int)
    requires 0 <= b < 64
    ensures (64 * a + b) / 64 == a && (64 * a + b) % 64 == b
  {
  }

  lemma FirstEncodes(s: seq<byte>)
    requires CharLen(s) > 0
    ensures Encode(First(s)) == s[..CharLen(s)]
  {
    match CharLen(s)
    case 1 =>
    case 2 => Digit(s[0] - 0xC0, Six(s[1]));
    case 3 =>
      Digit(s[0] - 0xE0, Six(s[1]));
      Digit(64 * (s[0] - 0xE0) as int + Six(s[1]), Six(s[2]));
    case 4 =>
      Digit(s[0] - 0xF0, Six(s[1]));
      Digit(64 * (s[0] - 0xF0) as int + Six(s[1]), Six(s[2]));
      Digit(64 * (64 * (s[0] - 0xF0) as int + Six(s[1])) + Six(s[2]), Six(s[3]));
  }

  lemma EncodedStarts(c: scalar, rest: seq<byte>)
    ensures CharLen(Encode(c) + rest) == |Encode(c)|
  {
  }

  lemma {:induction false} EncodeAllValid(cs: seq<scalar>)
    ensures Valid(EncodeAll(cs))
  {
    if cs != [] {
      EncodedStarts(cs[0], EncodeAll(cs[1..]));
      assert EncodeAll(cs)[|Encode(cs[0])|..] == EncodeAll(cs[1..]);
      EncodeAllValid(cs[1..]);
    }
  }

  lemma {:induction false} Decodable(s: seq<byte>) returns (cs: seq<scalar>)
    requires Valid(s)
    ensures EncodeAll(cs) == s
  {
    if s == [] {
      cs := [];
    } else {
      var rest := Decodable(s[CharLen(s)..]);
      cs := [First(s)] + rest;
      FirstEncodes(s);
      assert s == s[..CharLen(s)] + s[CharLen(s)..];
    }
  }

  /** The byte sequences from_utf8 accepts are the encodings of sequences of scalar values. */
  lemma ValidIsEncoding(s: seq<byte>)
    ensures Valid(s) <==> exists cs :: EncodeAll(cs) == s
  {
    if Valid(s) {
      var cs := Decodable(s);
    }
    if cs :| EncodeAll(cs) == s {
      EncodeAllValid(cs);
    }
  }
}
