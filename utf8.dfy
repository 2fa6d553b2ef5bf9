/** UTF-8, as used for the command-line argument frame (`Encoding.UTF8`
    `GetBytes` and `GetString`). Characters are Unicode scalar values, so
    every string has an encoding; decoding replaces each byte that does
    not start a well-formed sequence by U+FFFD. */
module Utf8 {
  import opened Common

  type byte = b: int | 0 <= b < 256

  const Replacement: char := '\U{FFFD}'

  predicate IsContinuation(b: byte) {
    0x80 <= b < 0xC0
  }

  /** The encoding of one scalar value: one to four bytes, by magnitude. */
  function EncodeChar(c: char): (bs: seq<byte>)
    ensures 1 <= |bs| <= 4
    ensures (|bs| == 1) == (c as int < 0x80)
    ensures |bs| == 1 ==> bs[0] == c as int
    ensures |bs| > 1 ==> forall i :: 0 <= i < |bs| ==> bs[i] >= 0x80
  {
    var v := c as int;
    if v < 0x80 then [v]
    else if v < 0x800 then [0xC0 + v / 0x40, 0x80 + v % 0x40]
    else if v < 0x10000 then [0xE0 + v / 0x1000, 0x80 + v / 0x40 % 0x40, 0x80 + v % 0x40]
    else [0xF0 + v / 0x40000, 0x80 + v / 0x1000 % 0x40, 0x80 + v / 0x40 % 0x40, 0x80 + v % 0x40]
  }

  /** `Encoding.UTF8.GetBytes`. */
  function Encode(s: string): (bs: seq<byte>)
    ensures |s| <= |bs| <= 4 * |s|
  {
    if s == [] then [] else EncodeChar(s[0]) + Encode(s[1..])
  }

  /** The scalar value and length of the well-formed sequence at the head of
      `bs`, if there is one. */
  function DecodeHead(bs: seq<byte>): (r: Option<(char, nat)>)
    ensures r.Some? ==> 1 <= r.value.1 <= |bs|
  {
    if bs == [] then None
    else if bs[0] < 0x80 then Some((bs[0] as char, 1))
    else if 0xC2 <= bs[0] <= 0xDF && |bs| >= 2 && IsContinuation(bs[1]) then
      Some((Scalar2(bs[0], bs[1]) as char, 2))
    else if 0xE0 <= bs[0] <= 0xEF && |bs| >= 3 && IsContinuation(bs[1]) && IsContinuation(bs[2]) then
      var v := Scalar3(bs[0], bs[1], bs[2]);
      if 0x800 <= v && !(0xD800 <= v < 0xE000) then Some((v as char, 3)) else None
    else if 0xF0 <= bs[0] <= 0xF4 && |bs| >= 4
            && IsContinuation(bs[1]) && IsContinuation(bs[2]) && IsContinuation(bs[3]) then
      var v := Scalar4(bs[0], bs[1], bs[2], bs[3]);
      if 0x10000 <= v < 0x110000 then Some((v as char, 4)) else None
    else None
  }

  /** The value carried by a two-byte sequence. */
  function Scalar2(b0: byte, b1: byte): (v: int)
    requires 0xC2 <= b0 <= 0xDF && IsContinuation(b1)
    ensures 0x80 <= v < 0x800
  {
    (b0 as int - 0xC0) * 0x40 + (b1 as int - 0x80)
  }

  /** The value carried by a three-byte sequence. */
  function Scalar3(b0: byte, b1: byte, b2: byte): int
    requires 0xE0 <= b0 && IsContinuation(b1) && IsContinuation(b2)
  {
    (b0 as int - 0xE0) * 0x1000 + (b1 as int - 0x80) * 0x40 + (b2 as int - 0x80)
  }

  /** The value carried by a four-byte sequence. */
  function Scalar4(b0: byte, b1: byte, b2: byte, b3: byte): int
    requires 0xF0 <= b0 && IsContinuation(b1) && IsContinuation(b2) && IsContinuation(b3)
  {
    (b0 as int - 0xF0) * 0x40000 + (b1 as int - 0x80) * 0x1000 + (b2 as int - 0x80) * 0x40 + (b3 as int - 0x80)
  }

  /** `Encoding.UTF8.GetString`. */
  function Decode(bs: seq<byte>): (s: string)
    ensures |s| <= |bs|
    ensures |s| == 0 <==> |bs| == 0
    decreases |bs|
  {
    if bs == [] then []
    else
      match DecodeHead(bs)
      case Some((c, n)) => [c] + Decode(bs[n..])
      case None => [Replacement] + Decode(bs[1..])
  }

  /** The encoding of a character is the well-formed sequence the decoder
      reads back, whatever follows it. */
  lemma DecodeHeadOfEncodeChar(c: char, rest: seq<byte>)
    ensures DecodeHead(EncodeChar(c) + rest) == Some((c, |EncodeChar(c)|))
  {
    var v := c as int;
    var bs := EncodeChar(c) + rest;
    if v < 0x80 {
    } else if v < 0x800 {
      assert Scalar2(bs[0], bs[1]) == v;
    } else if v < 0x10000 {
      SplitSixBits(v, 2);
      assert Scalar3(bs[0], bs[1], bs[2]) == v;
    } else {
      SplitSixBits(v, 3);
      assert Scalar4(bs[0], bs[1], bs[2], bs[3]) == v;
    }
  }

  /** A value cut into a leading part and `groups` six-bit groups is put
      back together by the decoder's sums. */
  lemma SplitSixBits(v: nat, groups: nat)
    requires groups == 2 || groups == 3
    ensures groups == 2 ==> v / 0x1000 * 0x1000 + v / 0x40 % 0x40 * 0x40 + v % 0x40 == v
    ensures groups == 3 ==>
              v / 0x40000 * 0x40000 + v / 0x1000 % 0x40 * 0x1000 + v / 0x40 % 0x40 * 0x40 + v % 0x40 == v
  {
    var q := v / 0x40;
    assert v == q * 0x40 + v % 0x40;
    var q2 := q / 0x40;
    assert q == q2 * 0x40 + q % 0x40;
    assert v / 0x1000 == q2;
    assert v / 0x40 % 0x40 == q % 0x40;
    if groups == 3 {
      var q3 := q2 / 0x40;
      assert q2 == q3 * 0x40 + q2 % 0x40;
      assert v / 0x40000 == q3;
      assert v / 0x1000 % 0x40 == q2 % 0x40;
    }
  }

  /** Decoding undoes encoding. */
  lemma {:induction false} DecodeEncode(s: string)
    ensures Decode(Encode(s)) == s
  {
    if s != [] {
      var head := EncodeChar(s[0]);
      var rest := Encode(s[1..]);
      DecodeHeadOfEncodeChar(s[0], rest);
      assert (head + rest)[|head|..] == rest;
      DecodeEncode(s[1..]);
    }
  }

  /** Encoding distributes over concatenation. */
  lemma {:induction false} EncodeAppend(s: string, t: string)
    ensures Encode(s + t) == Encode(s) + Encode(t)
  {
    if s == [] {
      assert s + t == t;
    } else {
      assert (s + t)[0] == s[0];
      assert (s + t)[1..] == s[1..] + t;
      EncodeAppend(s[1..], t);
    }
  }

  /** Encoding is injective: different argument strings never share bytes. */
  lemma EncodeInjective(s: string, t: string)
    requires Encode(s) == Encode(t)
    ensures s == t
  {
    DecodeEncode(s);
    DecodeEncode(t);
  }

  /** The byte 0x0A appears in an encoding exactly where '\n' appears in the
      string: a multi-byte sequence never contains a byte below 0x80. */
  lemma {:induction false} NewlineByteIffNewlineChar(s: string)
    ensures (10 in Encode(s)) <==> ('\n' in s)
  {
    if s != [] {
      NewlineByteIffNewlineChar(s[1..]);
      assert s == [s[0]] + s[1..];
      var head := EncodeChar(s[0]);
      assert (10 in head) <==> s[0] == '\n';
    }
  }
}
