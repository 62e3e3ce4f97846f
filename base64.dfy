/** The standard base64 alphabet and padding of section 4 of RFC 4648, as
    `Buffer.toString('base64')` produces it, with the decoder of unpadded text that shows
    the encoding loses nothing. */
module Base64 {

  type byte = x: int | 0 <= x < 256

  predicate IsSextet(i: int)
  {
    0 <= i < 64
  }

  /** The character of a 6-bit value: A-Z, a-z, 0-9, '+', '/'. */
  function Sextet(i: int): (ch: char)
    requires IsSextet(i)
    ensures ch != '='
  {
    if i < 26 then ('A' as int + i) as char
    else if i < 52 then ('a' as int + (i - 26)) as char
    else if i < 62 then ('0' as int + (i - 52)) as char
    else if i == 62 then '+'
    else '/'
  }

  predicate IsAlphabet(ch: char)
  {
    'A' <= ch <= 'Z' || 'a' <= ch <= 'z' || '0' <= ch <= '9' || ch == '+' || ch == '/'
  }

  function SextetValue(ch: char): (i: int)
    requires IsAlphabet(ch)
    ensures IsSextet(i) && Sextet(i) == ch
  {
    if 'A' <= ch <= 'Z' then ch as int - 'A' as int
    else if 'a' <= ch <= 'z' then ch as int - 'a' as int + 26
    else if '0' <= ch <= '9' then ch as int - '0' as int + 52
    else if ch == '+' then 62
    else 63
  }

  lemma SextetInAlphabet(i: int)
    requires IsSextet(i)
    ensures IsAlphabet(Sextet(i)) && SextetValue(Sextet(i)) == i
  {
  }

  /** Three bytes, 24 bits, as four characters. */
  function EncodeGroup(a: byte, b: byte, c: byte): (s: string)
    ensures |s| == 4
  {
    [Sextet(a / 4), Sextet((a % 4) * 16 + b / 16), Sextet((b % 16) * 4 + c / 64), Sextet(c % 64)]
  }

  /** The encoding, padded with '=' when the input is not a whole number of groups. */
  function Encode(bs: seq<byte>): (s: string)
    ensures |s| == 4 * ((|bs| + 2) / 3)
    decreases |bs|
  {
    if |bs| == 0 then ""
    else if |bs| == 1 then [Sextet(bs[0] / 4), Sextet((bs[0] % 4) * 16), '=', '=']
    else if |bs| == 2 then [Sextet(bs[0] / 4), Sextet((bs[0] % 4) * 16 + bs[1] / 16), Sextet((bs[1] % 16) * 4), '=']
    else EncodeGroup(bs[0], bs[1], bs[2]) + Encode(bs[3..])
  }

  predicate AllAlphabet(s: string)
  {
    forall k :: 0 <= k < |s| ==> IsAlphabet(s[k])
  }

  /** Four alphabet characters back to the three bytes they encode. */
  function DecodeGroup(s: string): (bs: seq<byte>)
    requires |s| == 4 && AllAlphabet(s)
    ensures |bs| == 3
  {
    var i0, i1, i2, i3 := SextetValue(s[0]), SextetValue(s[1]), SextetValue(s[2]), SextetValue(s[3]);
    [i0 * 4 + i1 / 16, (i1 % 16) * 16 + i2 / 4, (i2 % 4) * 64 + i3]
  }

  function Decode(s: string): (bs: seq<byte>)
    requires |s| % 4 == 0 && AllAlphabet(s)
    ensures |bs| == |s| / 4 * 3
  {
    if s == [] then [] else DecodeGroup(s[..4]) + Decode(s[4..])
  }

  /** The four 6-bit values of three bytes, and back. */
  lemma Regroup(a: byte, b: byte, c: byte)
    ensures IsSextet(a / 4) && IsSextet((a % 4) * 16 + b / 16)
    ensures IsSextet((b % 16) * 4 + c / 64) && IsSextet(c % 64)
    ensures (a / 4) * 4 + ((a % 4) * 16 + b / 16) / 16 == a
    ensures (((a % 4) * 16 + b / 16) % 16) * 16 + ((b % 16) * 4 + c / 64) / 4 == b
    ensures (((b % 16) * 4 + c / 64) % 4) * 64 + c % 64 == c
  {
    var ra, hb := a % 4, b / 16;
    assert a == (a / 4) * 4 + ra;
    assert (ra * 16 + hb) / 16 == ra && (ra * 16 + hb) % 16 == hb;
    var rb, hc := b % 16, c / 64;
    assert b == hb * 16 + rb;
    assert (rb * 4 + hc) / 4 == rb && (rb * 4 + hc) % 4 == hc;
    assert c == hc * 64 + c % 64;
  }

  lemma DecodeEncodeGroup(a: byte, b: byte, c: byte)
    ensures AllAlphabet(EncodeGroup(a, b, c))
    ensures DecodeGroup(EncodeGroup(a, b, c)) == [a, b, c]
  {
    Regroup(a, b, c);
    var i0, i1, i2, i3 := a / 4, (a % 4) * 16 + b / 16, (b % 16) * 4 + c / 64, c % 64;
    SextetInAlphabet(i0);
    SextetInAlphabet(i1);
    SextetInAlphabet(i2);
    SextetInAlphabet(i3);
    var g := EncodeGroup(a, b, c);
    assert g == [Sextet(i0), Sextet(i1), Sextet(i2), Sextet(i3)];
    assert SextetValue(g[0]) == i0 && SextetValue(g[1]) == i1;
    assert SextetValue(g[2]) == i2 && SextetValue(g[3]) == i3;
  }

  /** An input that is not a whole number of groups ends in padding. */
  lemma {:induction false} EncodePadded(bs: seq<byte>)
    requires |bs| % 3 != 0
    ensures Encode(bs)[|Encode(bs)| - 1] == '='
    decreases |bs|
  {
    if |bs| > 2 {
      EncodePadded(bs[3..]);
      var g := EncodeGroup(bs[0], bs[1], bs[2]);
      var rest := Encode(bs[3..]);
      assert Encode(bs) == g + rest;
      assert (g + rest)[|g + rest| - 1] == rest[|rest| - 1];
    }
  }

  /** Whole groups encode without padding, and decoding gives the bytes back. */
  lemma {:induction false} DecodeEncode(bs: seq<byte>)
    requires |bs| % 3 == 0
    ensures AllAlphabet(Encode(bs))
    ensures Decode(Encode(bs)) == bs
    decreases |bs|
  {
    if |bs| > 0 {
      var g := EncodeGroup(bs[0], bs[1], bs[2]);
      var rest := Encode(bs[3..]);
      DecodeEncodeGroup(bs[0], bs[1], bs[2]);
      DecodeEncode(bs[3..]);
      assert Encode(bs) == g + rest;
      DecodePrefixGroup(g, rest);
      assert bs == [bs[0], bs[1], bs[2]] + bs[3..];
    }
  }

  /** Decoding reads the first group off the front. */
  lemma DecodePrefixGroup(g: string, rest: string)
    requires |g| == 4 && AllAlphabet(g) && |rest| % 4 == 0 && AllAlphabet(rest)
    ensures AllAlphabet(g + rest)
    ensures Decode(g + rest) == DecodeGroup(g) + Decode(rest)
  {
    assert (g + rest)[..4] == g && (g + rest)[4..] == rest;
  }
}
