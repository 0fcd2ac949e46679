/** Base 64 encoding as defined in section 4 of RFC 4648: the standard
    alphabet, each group of three octets written as four characters, and a
    final group of one or two octets written as two or three characters
    followed by "==" or "=". Decoding is stated for unpadded text, the form
    produced once trailing padding is stripped.

    The encoding is split in two layers: octets to 6-bit values (Sextets,
    undone by Join) and 6-bit values to characters (Letter, undone by
    ValueOf). */
module Base64 {

  type byte = x: int | 0 <= x < 256

  // ------------------------------------------------------------ alphabet

  /** The character of a 6-bit value (Table 1 of RFC 4648). */
  function Letter(v: int): (c: char)
    requires 0 <= v < 64
  {
    if v < 26 then ('A' as int + v) as char
    else if v < 52 then ('a' as int + v - 26) as char
    else if v < 62 then ('0' as int + v - 52) as char
    else if v == 62 then '+'
    else '/'
  }

  predicate IsLetter(c: char) {
    ('A' <= c <= 'Z') || ('a' <= c <= 'z') || ('0' <= c <= '9') || c == '+' || c == '/'
  }

  /** The 6-bit value of an alphabet character. */
  function ValueOf(c: char): (v: int)
    requires IsLetter(c)
    ensures 0 <= v < 64 && Letter(v) == c
  {
    if 'A' <= c <= 'Z' then c as int - 'A' as int
    else if 'a' <= c <= 'z' then c as int - 'a' as int + 26
    else if '0' <= c <= '9' then c as int - '0' as int + 52
    else if c == '+' then 62
    else 63
  }

  /** Every value's character is in the alphabet and names that value back. */
  lemma LetterValue(v: int)
    requires 0 <= v < 64
    ensures IsLetter(Letter(v)) && ValueOf(Letter(v)) == v
  {
  }

  /** The characters of a sequence of 6-bit values. */
  function Letters(v: seq<int>): (s: string)
    requires forall i :: 0 <= i < |v| ==> 0 <= v[i] < 64
    ensures |s| == |v|
    ensures forall i :: 0 <= i < |v| ==> IsLetter(s[i]) && s[i] == Letter(v[i])
  {
    seq(|v|, i requires 0 <= i < |v| => LetterOf(v[i]))
  }

  function LetterOf(v: int): (c: char)
    requires 0 <= v < 64
    ensures IsLetter(c) && c == Letter(v)
  {
    LetterValue(v);
    Letter(v)
  }

  /** The 6-bit values of alphabet text. */
  function Values(s: string): (v: seq<int>)
    requires forall i :: 0 <= i < |s| ==> IsLetter(s[i])
    ensures |v| == |s|
    ensures forall i :: 0 <= i < |s| ==> 0 <= v[i] < 64 && v[i] == ValueOf(s[i])
  {
    seq(|s|, i requires 0 <= i < |s| => ValueOf(s[i]))
  }

  /** Reading characters back gives the values they were written from. */
  lemma ValuesOfLetters(v: seq<int>)
    requires forall i :: 0 <= i < |v| ==> 0 <= v[i] < 64
    ensures Values(Letters(v)) == v
  {
    var r := Values(Letters(v));
    forall i | 0 <= i < |v|
      ensures r[i] == v[i]
    {
      LetterValue(v[i]);
    }
  }

  // ------------------------------------------------------------- sextets

  /** The 24 bits of a group of three octets, most significant first, as
      four 6-bit values; a last group of one or two octets is completed with
      zero bits and gives two or three values. */
  function Sextets(b: seq<byte>): (v: seq<int>)
    ensures forall i :: 0 <= i < |v| ==> 0 <= v[i] < 64
    ensures |v| == |b| / 3 * 4 + (if |b| % 3 == 0 then 0 else |b| % 3 + 1)
    decreases |b|
  {
    if |b| >= 3 then Group(b[0], b[1], b[2]) + Sextets(b[3..])
    else if |b| == 2 then [b[0] / 4, b[0] % 4 * 16 + b[1] / 16, b[1] % 16 * 4]
    else if |b| == 1 then [b[0] / 4, b[0] % 4 * 16]
    else []
  }

  function Group(x: byte, y: byte, z: byte): (v: seq<int>)
    ensures |v| == 4 && forall i :: 0 <= i < 4 ==> 0 <= v[i] < 64
  {
    [x / 4, x % 4 * 16 + y / 16, y % 16 * 4 + z / 64, z % 64]
  }

  /** An encoding never leaves a single value in its last group. */
  lemma SextetsLength(b: seq<byte>)
    ensures |Sextets(b)| % 4 != 1
  {
    var k := |b| / 3;
    assert |Sextets(b)| == 4 * k + (if |b| % 3 == 0 then 0 else |b| % 3 + 1);
  }

  /** The three octets of a group of four 6-bit values. */
  function Triple(a: int, b: int, c: int, d: int): seq<int> {
    [a * 4 + b / 16, b % 16 * 16 + c / 4, c % 4 * 64 + d]
  }

  /** Octets from 6-bit values: each group of four gives three octets; a
      short last group of two or three gives one or two, dropping the zero
      bits that completed it. */
  function Join(v: seq<int>): (b: seq<int>)
    requires forall i :: 0 <= i < |v| ==> 0 <= v[i] < 64
    requires |v| % 4 != 1
    decreases |v|
  {
    if |v| >= 4 then Triple(v[0], v[1], v[2], v[3]) + Join(v[4..])
    else if |v| == 3 then Triple(v[0], v[1], v[2], 0)[..2]
    else if |v| == 2 then Triple(v[0], v[1], 0, 0)[..1]
    else []
  }

  lemma FirstOctet(x: byte, y: byte)
    ensures x / 4 * 4 + (x % 4 * 16 + y / 16) / 16 == x
  {
    var a := x % 4 * 16 + y / 16;
    assert a / 16 == x % 4;
  }

  lemma SecondOctet(x: byte, y: byte, z: byte)
    ensures (x % 4 * 16 + y / 16) % 16 * 16 + (y % 16 * 4 + z / 64) / 4 == y
    ensures (y % 16 * 4 + z / 64) % 4 * 64 + z % 64 == z
  {
    var a := x % 4 * 16 + y / 16;
    assert a % 16 == y / 16;
    var c := y % 16 * 4 + z / 64;
    assert c / 4 == y % 16;
    assert c % 4 == z / 64;
  }

  /** The values of a group combine back into its octets. */
  lemma GroupBack(x: byte, y: byte, z: byte)
    ensures var g := Group(x, y, z); Triple(g[0], g[1], g[2], g[3]) == [x, y, z]
  {
    var a, b, c, d := x / 4, x % 4 * 16 + y / 16, y % 16 * 4 + z / 64, z % 64;
    assert Group(x, y, z) == [a, b, c, d];
    FirstOctet(x, y);
    SecondOctet(x, y, z);
    assert a * 4 + b / 16 == x;
    assert b % 16 * 16 + c / 4 == y;
    assert c % 4 * 64 + d == z;
  }

  /** Joining a whole group gives back its three octets. */
  lemma JoinGroup(x: byte, y: byte, z: byte, rest: seq<int>)
    requires forall i :: 0 <= i < |rest| ==> 0 <= rest[i] < 64
    requires |rest| % 4 != 1
    ensures forall i :: 0 <= i < |Group(x, y, z) + rest| ==> 0 <= (Group(x, y, z) + rest)[i] < 64
    ensures Join(Group(x, y, z) + rest) == [x, y, z] + Join(rest)
  {
    var g := Group(x, y, z);
    var v := g + rest;
    assert v[0] == g[0] && v[1] == g[1] && v[2] == g[2] && v[3] == g[3];
    assert v[4..] == rest;
    GroupBack(x, y, z);
  }

  /** Join undoes Sextets. */
  lemma {:induction false} JoinSextets(b: seq<byte>)
    ensures |Sextets(b)| % 4 != 1
    ensures Join(Sextets(b)) == b
    decreases |b|
  {
    SextetsLength(b);
    if |b| >= 3 {
      SextetsLength(b[3..]);
      JoinSextets(b[3..]);
      JoinGroup(b[0], b[1], b[2], Sextets(b[3..]));
      assert b == [b[0], b[1], b[2]] + b[3..];
    } else if |b| == 2 {
      GroupBack(b[0], b[1], 0);
    } else if |b| == 1 {
      GroupBack(b[0], 0, 0);
    }
  }

  // ------------------------------------------------------------ encoding

  /** The characters of an encoding before its padding. */
  function Unpadded(b: seq<byte>): (s: string)
    ensures forall i :: 0 <= i < |s| ==> IsLetter(s[i])
    ensures |s| == |Sextets(b)|
  {
    Letters(Sextets(b))
  }

  /** The padding that completes the last group to four characters. */
  function Padding(n: nat): string {
    if n % 3 == 1 then "==" else if n % 3 == 2 then "=" else ""
  }

  /** The base 64 encoding of section 4 of RFC 4648. */
  function Encode(b: seq<byte>): string {
    Unpadded(b) + Padding(|b|)
  }

  /** An encoding is a whole number of four-character groups whose only
      '=' characters are the padding at the end. */
  lemma EncodeShape(b: seq<byte>)
    ensures |Encode(b)| % 4 == 0
    ensures forall i :: 0 <= i < |Unpadded(b)| ==> Encode(b)[i] != '='
    ensures forall i :: |Unpadded(b)| <= i < |Encode(b)| ==> Encode(b)[i] == '='
  {
    var k := |b| / 3;
    assert |Encode(b)| == 4 * k || |Encode(b)| == 4 * k + 4;
  }

  /** Decoding of text without padding whose length is not 1 modulo 4. */
  function Decode(s: string): (b: seq<int>)
    requires forall i :: 0 <= i < |s| ==> IsLetter(s[i])
    requires |s| % 4 != 1
  {
    Join(Values(s))
  }

  /** Decoding undoes encoding. */
  lemma DecodeUnpadded(b: seq<byte>)
    ensures |Unpadded(b)| % 4 != 1
    ensures Decode(Unpadded(b)) == b
  {
    JoinSextets(b);
    ValuesOfLetters(Sextets(b));
  }
}
