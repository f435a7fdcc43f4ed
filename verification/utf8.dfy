/** The UTF-8 encoding `Buffer.from(string)` applies to a JavaScript string
    (RFC 3629), here over strings of Unicode scalar values. */
module Utf8 {
  import opened Bytes

  /** The one to four bytes of one scalar value (section 3 of RFC 3629). */
  function EncodeChar(c: char): (bs: seq<byte>)
    ensures 1 <= |bs| <= 4
    ensures (c as int < 0x80) <==> |bs| == 1
    ensures |bs| == 1 ==> bs[0] == c as int
    ensures |bs| > 1 ==> bs[0] >= 0xC0 && forall k :: 1 <= k < |bs| ==> 0x80 <= bs[k] < 0xC0
    ensures |bs| == 2 <==> 0x80 <= c as int < 0x800
    ensures |bs| == 3 <==> 0x800 <= c as int < 0x1_0000
    ensures |bs| == 2 ==> bs[0] < 0xE0
    ensures |bs| == 3 ==> 0xE0 <= bs[0] < 0xF0
    ensures |bs| == 4 ==> 0xF0 <= bs[0] < 0xF8
  {
    var n := c as int;
    if n < 0x80 then [n]
    else if n < 0x800 then [0xC0 + n / 64, 0x80 + n % 64]
    else if n < 0x1_0000 then [0xE0 + n / 4096, 0x80 + (n / 64) % 64, 0x80 + n % 64]
    else [0xF0 + n / 262144, 0x80 + (n / 4096) % 64, 0x80 + (n / 64) % 64, 0x80 + n % 64]
  }

  /** The scalar value one encoded character stands for: the payload bits
      of the lead byte, followed by six bits from each continuation byte. */
  function ScalarOf(bs: seq<byte>): int
    requires 1 <= |bs| <= 4
  {
    if |bs| == 1 then bs[0] as int
    else if |bs| == 2 then (bs[0] as int - 0xC0) * 64 + (bs[1] as int - 0x80)
    else if |bs| == 3 then ((bs[0] as int - 0xE0) * 64 + (bs[1] as int - 0x80)) * 64 + (bs[2] as int - 0x80)
    else (((bs[0] as int - 0xF0) * 64 + (bs[1] as int - 0x80)) * 64 + (bs[2] as int - 0x80)) * 64 + (bs[3] as int - 0x80)
  }

  /** Reading the bits back out of a character's bytes gives the character:
      the encoder puts every bit of the scalar value in its place. */
  lemma DecodeEncodeChar(c: char)
    ensures ScalarOf(EncodeChar(c)) == c as int
  {
    var n := c as int;
    if n >= 0x800 {
      SixBits(n);
      SixBits(n / 64);
      if n >= 0x1_0000 {
        SixBits(n / 4096);
        assert n / 4096 / 64 == n / 262144;
      }
      assert n / 64 / 64 == n / 4096;
    }
  }

  /** Proof helper: a number is its upper part followed by its low six bits. */
  lemma SixBits(n: nat)
    ensures n == (n / 64) * 64 + n % 64
  {
  }

  /** `Buffer.from(s)`: the concatenated encodings of the characters. */
  function Encode(s: string): seq<byte>
    decreases |s|
  {
    if |s| == 0 then [] else Encode(s[..|s| - 1]) + EncodeChar(s[|s| - 1])
  }

  predicate IsAscii(s: string) {
    forall k :: 0 <= k < |s| ==> s[k] as int < 0x80
  }

  /** Encoding distributes over concatenation. */
  lemma {:induction false} EncodeAppend(a: string, b: string)
    ensures Encode(a + b) == Encode(a) + Encode(b)
    decreases |b|
  {
    if |b| == 0 {
      assert a + b == a;
    } else {
      var b', c := b[..|b| - 1], b[|b| - 1];
      assert (a + b)[..|a + b| - 1] == a + b' && (a + b)[|a + b| - 1] == c;
      calc {
        Encode(a + b);
        Encode(a + b') + EncodeChar(c);
      == { EncodeAppend(a, b'); }
        Encode(a) + Encode(b') + EncodeChar(c);
        Encode(a) + (Encode(b') + EncodeChar(c));
        Encode(a) + Encode(b);
      }
    }
  }

  /** An ASCII string encodes to its own character codes, one byte each. */
  lemma {:induction false} EncodeAscii(s: string)
    requires IsAscii(s)
    ensures |Encode(s)| == |s|
    ensures forall k :: 0 <= k < |s| ==> Encode(s)[k] == s[k] as int
    decreases |s|
  {
    if |s| > 0 {
      EncodeAscii(s[..|s| - 1]);
    }
  }
}
