/** UTF-8 (RFC 3629, section 3): what the sizes of bodies and comments count. */
module Utf8 {
  import opened Strings

  /** A continuation byte with six bits. */
  function Continuation(bits: nat): nat { 0x80 + bits % 0x40 }

  function EncodeChar(c: char): seq<nat> {
    var n := c as int;
    if n < 0x80 then [n]
    else if n < 0x800 then [0xC0 + n / 0x40, Continuation(n)]
    else if n < 0x1_0000 then [0xE0 + n / 0x1000, Continuation(n / 0x40), Continuation(n)]
    else [0xF0 + n / 0x4_0000, Continuation(n / 0x1000), Continuation(n / 0x40), Continuation(n)]
  }

  function Encode(text: string): seq<nat> {
    if text == "" then [] else EncodeChar(text[0]) + Encode(text[1..])
  }

  /** The code point that the bytes start with, and how many bytes it takes. */
  function DecodeFirst(b: seq<nat>): (nat, nat) {
    if b == [] then (0, 0)
    else if b[0] < 0x80 then (b[0], 1)
    else if 0xC0 <= b[0] < 0xE0 && |b| > 1 && b[1] >= 0x80 then ((b[0] - 0xC0) * 0x40 + (b[1] - 0x80), 2)
    else if 0xE0 <= b[0] < 0xF0 && |b| > 2 && b[1] >= 0x80 && b[2] >= 0x80 then
      ((b[0] - 0xE0) * 0x1000 + (b[1] - 0x80) * 0x40 + (b[2] - 0x80), 3)
    else if b[0] >= 0xF0 && |b| > 3 && b[1] >= 0x80 && b[2] >= 0x80 && b[3] >= 0x80 then
      ((b[0] - 0xF0) * 0x4_0000 + (b[1] - 0x80) * 0x1000 + (b[2] - 0x80) * 0x40 + (b[3] - 0x80), 4)
    else (0, 0)
  }

  lemma Digits(n: nat)
    ensures n == n / 0x40 * 0x40 + n % 0x40 && n / 0x40 == n / 0x1000 * 0x40 + n / 0x40 % 0x40
    ensures n / 0x1000 == n / 0x4_0000 * 0x40 + n / 0x1000 % 0x40
  {
    assert n / 0x40 / 0x40 == n / 0x1000 && n / 0x1000 / 0x40 == n / 0x4_0000;
  }

  lemma TwoReadBack(n: nat, rest: seq<nat>)
    requires 0x80 <= n < 0x800
    ensures DecodeFirst([0xC0 + n / 0x40, Continuation(n)] + rest) == (n, 2)
    ensures 0xC0 + n / 0x40 < 0xE0 && Continuation(n) < 0xC0
  {
    Digits(n);
    var b := [0xC0 + n / 0x40, Continuation(n)] + rest;
    assert b[0] == 0xC0 + n / 0x40 && b[1] == 0x80 + n % 0x40;
  }

  lemma ThreeReadBack(n: nat, rest: seq<nat>)
    requires 0x800 <= n < 0x1_0000
    ensures DecodeFirst([0xE0 + n / 0x1000, Continuation(n / 0x40), Continuation(n)] + rest) == (n, 3)
    ensures 0xE0 + n / 0x1000 < 0xF0
  {
    Digits(n);
    var b := [0xE0 + n / 0x1000, Continuation(n / 0x40), Continuation(n)] + rest;
    assert b[0] == 0xE0 + n / 0x1000 && b[1] == 0x80 + n / 0x40 % 0x40 && b[2] == 0x80 + n % 0x40;
  }

  lemma FourReadBack(n: nat, rest: seq<nat>)
    requires 0x1_0000 <= n < 0x11_0000
    ensures DecodeFirst([0xF0 + n / 0x4_0000, Continuation(n / 0x1000), Continuation(n / 0x40), Continuation(n)] +
                        rest) ==
            (n, 4)
    ensures 0xF0 + n / 0x4_0000 < 0x100
  {
    Digits(n);
    var b := [0xF0 + n / 0x4_0000, Continuation(n / 0x1000), Continuation(n / 0x40), Continuation(n)] + rest;
    assert b[0] == 0xF0 + n / 0x4_0000 && b[1] == 0x80 + n / 0x1000 % 0x40;
    assert b[2] == 0x80 + n / 0x40 % 0x40 && b[3] == 0x80 + n % 0x40;
  }

  lemma CharReadsBack(c: char, rest: seq<nat>)
    ensures DecodeFirst(EncodeChar(c) + rest) == (c as int, CharBytes(c))
    ensures |EncodeChar(c)| == CharBytes(c) && forall i :: 0 <= i < |EncodeChar(c)| ==> EncodeChar(c)[i] < 0x100
  {
    var n := c as int;
    hide DecodeFirst;
    hide Continuation;
    ContinuationsFit();
    if n < 0x80 { OneReadsBack(n, rest); }
    else if n < 0x800 { TwoReadBack(n, rest); }
    else if n < 0x1_0000 { ThreeReadBack(n, rest); }
    else { FourReadBack(n, rest); }
  }

  lemma ContinuationsFit()
    ensures forall bits :: Continuation(bits) < 0x100
  {
  }

  lemma OneReadsBack(n: nat, rest: seq<nat>)
    requires n < 0x80
    ensures DecodeFirst([n] + rest) == (n, 1)
  {
  }

  /** The size of a text is the number of bytes of its encoding. */
  lemma {:induction false} SizeIsLength(text: string)
    ensures Utf8Size(text) == |Encode(text)| && forall i :: 0 <= i < |Encode(text)| ==> Encode(text)[i] < 0x100
  {
    if text != "" {
      SizeIsLength(text[1..]);
      CharReadsBack(text[0], Encode(text[1..]));
    }
  }

  /** Different texts have different encodings. */
  lemma {:induction false} EncodeInjective(a: string, b: string)
    requires Encode(a) == Encode(b)
    ensures a == b
    decreases |a|
  {
    if a != "" { CharReadsBack(a[0], Encode(a[1..])); }
    if b != "" { CharReadsBack(b[0], Encode(b[1..])); }
    if a != "" && b != "" {
      var n := CharBytes(a[0]);
      assert Encode(a)[n..] == Encode(a[1..]) && Encode(b)[n..] == Encode(b[1..]);
      EncodeInjective(a[1..], b[1..]);
      assert a == [a[0]] + a[1..] && b == [b[0]] + b[1..];
    }
  }
}
