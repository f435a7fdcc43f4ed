/** Base 64 encoding as `Buffer.prototype.toString('base64')` produces it
    (section 4 of RFC 4648, with `=` padding), the URL-safe variant the
    source derives from it by replacing `+` and `/` and stripping the
    padding (section 5 of RFC 4648), and the decoders that undo both. */
module Base64 {
  import opened Errors
  import opened Bytes

  /** The character for a 6-bit value in the standard alphabet. */
  function Char64(v: int): (c: char)
    requires 0 <= v < 64
    ensures Value64(c) == Some(v)
  {
    if v < 26 then ('A' as int + v) as char
    else if v < 52 then ('a' as int + (v - 26)) as char
    else if v < 62 then ('0' as int + (v - 52)) as char
    else if v == 62 then '+'
    else '/'
  }

  /** The 6-bit value of a standard-alphabet character; `None` for any other. */
  function Value64(c: char): (r: Option<int>)
    ensures r.Some? ==> 0 <= r.value < 64
    ensures c == '=' ==> r.None?
  {
    if 'A' <= c <= 'Z' then Some(c as int - 'A' as int)
    else if 'a' <= c <= 'z' then Some(c as int - 'a' as int + 26)
    else if '0' <= c <= '9' then Some(c as int - '0' as int + 52)
    else if c == '+' then Some(62)
    else if c == '/' then Some(63)
    else None
  }

  predicate InAlphabet(c: char) {
    Value64(c).Some?
  }

  /** Four characters for three bytes. */
  function Quad(a: byte, b: byte, c: byte): (s: string)
    ensures |s| == 4
  {
    [Char64(a / 4), Char64((a % 4) * 16 + b / 16), Char64((b % 16) * 4 + c / 64), Char64(c % 64)]
  }

  /** The encoding without padding: the last one or two bytes give two or
      three characters. */
  function Unpadded(bs: seq<byte>): (s: string)
    ensures forall k :: 0 <= k < |s| ==> InAlphabet(s[k])
    decreases |bs|
  {
    if |bs| == 0 then ""
    else if |bs| == 1 then [Char64(bs[0] / 4), Char64((bs[0] % 4) * 16)]
    else if |bs| == 2 then [Char64(bs[0] / 4), Char64((bs[0] % 4) * 16 + bs[1] / 16), Char64((bs[1] % 16) * 4)]
    else Quad(bs[0], bs[1], bs[2]) + Unpadded(bs[3..])
  }

  /** The `=` characters that complete the last group of four. */
  function Padding(n: nat): (s: string)
    ensures |s| <= 2
    ensures forall k :: 0 <= k < |s| ==> s[k] == '='
  {
    if n % 3 == 1 then "==" else if n % 3 == 2 then "=" else ""
  }

  /** `Buffer.from(bs).toString('base64')`. */
  function Encode(bs: seq<byte>): string {
    Unpadded(bs) + Padding(|bs|)
  }

  /** Every three bytes, and a final one or two, take four characters. */
  lemma EncodeLength(bs: seq<byte>)
    ensures |Encode(bs)| == 4 * ((|bs| + 2) / 3)
  {
    UnpaddedLength(bs);
  }

  lemma {:induction false} UnpaddedLength(bs: seq<byte>)
    ensures |Unpadded(bs)| + |Padding(|bs|)| == 4 * ((|bs| + 2) / 3)
    decreases |bs|
  {
    var n := |bs|;
    if n > 2 {
      UnpaddedLength(bs[3..]);
      assert |Unpadded(bs)| == 4 + |Unpadded(bs[3..])| by {
        assert Unpadded(bs) == Quad(bs[0], bs[1], bs[2]) + Unpadded(bs[3..]);
      }
      assert |Padding(n)| == |Padding(n - 3)| by {
        PaddingStep(n);
      }
      GroupStep(n);
    } else if n == 2 {
      assert |Unpadded(bs)| == 3 && |Padding(n)| == 1;
    } else if n == 1 {
      assert |Unpadded(bs)| == 2 && |Padding(n)| == 2;
    }
  }

  lemma PaddingStep(n: nat)
    requires n >= 3
    ensures Padding(n) == Padding(n - 3)
  {
    assert n % 3 == (n - 3) % 3;
  }

  /** Three more bytes make one more group of four characters. */
  lemma GroupStep(n: nat)
    requires n >= 3
    ensures 4 * ((n + 2) / 3) == 4 + 4 * ((n - 3 + 2) / 3)
  {
  }

  /** One group of four characters back to its bytes; a third or fourth `=`
      ends the data early. */
  function DecodeQuad(q: string): Option<seq<byte>>
    requires |q| == 4
  {
    var v0, v1, v2, v3 := Value64(q[0]), Value64(q[1]), Value64(q[2]), Value64(q[3]);
    if v0.None? || v1.None? then None
    else if v2.Some? && v3.Some? then Some(Three(v0.value, v1.value, v2.value, v3.value))
    else if v2.Some? then (if q[3] == '=' then Some(Three(v0.value, v1.value, v2.value, 0)[..2]) else None)
    else if v3.None? && q[2] == '=' && q[3] == '=' then Some(Three(v0.value, v1.value, 0, 0)[..1])
    else None
  }

  /** Three bytes from four 6-bit values. */
  function Three(v0: int, v1: int, v2: int, v3: int): (bs: seq<byte>)
    requires 0 <= v0 < 64 && 0 <= v1 < 64 && 0 <= v2 < 64 && 0 <= v3 < 64
    ensures |bs| == 3
  {
    [v0 * 4 + v1 / 16, (v1 % 16) * 16 + v2 / 4, (v2 % 4) * 64 + v3]
  }

  /** Decoding of a padded encoding (section 4 of RFC 4648): the length is a
      multiple of four and only the last group may hold `=`. */
  function Decode(s: string): Option<seq<byte>>
    decreases |s|
  {
    if |s| == 0 then Some([])
    else if |s| < 4 then None
    else
      match DecodeQuad(s[..4])
      case None => None
      case Some(head) =>
        if |head| < 3 then (if |s| == 4 then Some(head) else None)
        else
          match Decode(s[4..])
          case None => None
          case Some(tail) => Some(head + tail)
  }

  /** The six-bit values of three bytes give those bytes back. */
  lemma ThreeOfQuad(a: byte, b: byte, c: byte)
    ensures Three(a / 4, (a % 4) * 16 + b / 16, (b % 16) * 4 + c / 64, c % 64) == [a, b, c]
  {
    var v1 := (a % 4) * 16 + b / 16;
    var v2 := (b % 16) * 4 + c / 64;
    Split16(a % 4, b / 16);
    Split4(b % 16, c / 64);
    assert (a / 4) * 4 + v1 / 16 == a;
    assert (v1 % 16) * 16 + v2 / 4 == b;
    assert (v2 % 4) * 64 + c % 64 == c;
  }

  lemma Split16(x: int, y: int)
    requires 0 <= y < 16
    ensures (x * 16 + y) / 16 == x && (x * 16 + y) % 16 == y
  {
  }

  lemma Split4(x: int, y: int)
    requires 0 <= y < 4
    ensures (x * 4 + y) / 4 == x && (x * 4 + y) % 4 == y
  {
  }

  lemma QuadRoundTrip(a: byte, b: byte, c: byte)
    ensures DecodeQuad(Quad(a, b, c)) == Some([a, b, c])
  {
    var v0, v1, v2, v3 := a / 4, (a % 4) * 16 + b / 16, (b % 16) * 4 + c / 64, c % 64;
    var q := Quad(a, b, c);
    assert Value64(q[0]) == Some(v0) && Value64(q[1]) == Some(v1);
    assert Value64(q[2]) == Some(v2) && Value64(q[3]) == Some(v3);
    assert DecodeQuad(q) == Some(Three(v0, v1, v2, v3));
    ThreeOfQuad(a, b, c);
  }

  lemma PairRoundTrip(a: byte, b: byte)
    ensures DecodeQuad(Encode([a, b])) == Some([a, b])
  {
    var v0, v1, v2 := a / 4, (a % 4) * 16 + b / 16, (b % 16) * 4;
    var q := Encode([a, b]);
    assert q == [Char64(v0), Char64(v1), Char64(v2), '='];
    assert Value64(q[0]) == Some(v0) && Value64(q[1]) == Some(v1);
    assert Value64(q[2]) == Some(v2) && Value64(q[3]).None?;
    assert DecodeQuad(q) == Some(Three(v0, v1, v2, 0)[..2]);
    ThreeOfQuad(a, b, 0);
    assert v2 == (b % 16) * 4 + 0 / 64 && 0 == 0 % 64;
    assert Three(v0, v1, v2, 0) == [a, b, 0];
    assert [a, b, 0][..2] == [a, b];
  }

  lemma SingleRoundTrip(a: byte)
    ensures DecodeQuad(Encode([a])) == Some([a])
  {
    var v0, v1 := a / 4, (a % 4) * 16;
    var q := Encode([a]);
    assert q == [Char64(v0), Char64(v1), '=', '='];
    assert Value64(q[0]) == Some(v0) && Value64(q[1]) == Some(v1);
    assert Value64(q[2]).None? && Value64(q[3]).None?;
    assert DecodeQuad(q) == Some(Three(v0, v1, 0, 0)[..1]);
    ThreeOfQuad(a, 0, 0);
    assert v1 == (a % 4) * 16 + 0 / 16 && 0 == (0 % 16) * 4 + 0 / 64 && 0 == 0 % 64;
    assert Three(v0, v1, 0, 0) == [a, 0, 0];
    assert [a, 0, 0][..1] == [a];
  }

  /** A full group in front decodes to its three bytes in front. */
  lemma DecodeCons(q: string, rest: string)
    requires |q| == 4 && DecodeQuad(q).Some? && |DecodeQuad(q).value| == 3
    ensures Decode(q + rest) == match Decode(rest) case None => None case Some(t) => Some(DecodeQuad(q).value + t)
  {
    assert (q + rest)[..4] == q;
    assert (q + rest)[4..] == rest;
  }

  /** A single group decodes as that group. */
  lemma DecodeOne(q: string)
    requires |q| == 4
    ensures Decode(q) == DecodeQuad(q)
  {
    assert q[..4] == q;
    if DecodeQuad(q).Some? {
      assert DecodeQuad(q).value + [] == DecodeQuad(q).value;
    }
  }

  /** Three bytes in front encode as one group in front. */
  lemma EncodeCons(bs: seq<byte>)
    requires |bs| > 2
    ensures Encode(bs) == Quad(bs[0], bs[1], bs[2]) + Encode(bs[3..])
  {
    assert Padding(|bs|) == Padding(|bs| - 3);
  }

  /** Decoding an encoding gives back the bytes. */
  lemma {:induction false} DecodeEncode(bs: seq<byte>)
    ensures Decode(Encode(bs)) == Some(bs)
    decreases |bs|
  {
    if |bs| == 1 {
      DecodeEncodeShort(bs);
    } else if |bs| == 2 {
      DecodeEncodeShort(bs);
    } else if |bs| > 2 {
      DecodeEncode(bs[3..]);
      DecodeEncodeStep(bs);
    }
  }

  /** One or two bytes are a single padded group. */
  lemma DecodeEncodeShort(bs: seq<byte>)
    requires |bs| == 1 || |bs| == 2
    ensures Decode(Encode(bs)) == Some(bs)
  {
    DecodeOne(Encode(bs));
    if |bs| == 1 {
      SingleRoundTrip(bs[0]);
      assert bs == [bs[0]];
    } else {
      PairRoundTrip(bs[0], bs[1]);
      assert bs == [bs[0], bs[1]];
    }
  }

  /** A leading group of three bytes decodes in front of the rest. */
  lemma DecodeEncodeStep(bs: seq<byte>)
    requires |bs| > 2 && Decode(Encode(bs[3..])) == Some(bs[3..])
    ensures Decode(Encode(bs)) == Some(bs)
  {
    var q := Quad(bs[0], bs[1], bs[2]);
    EncodeCons(bs);
    QuadRoundTrip(bs[0], bs[1], bs[2]);
    DecodeCons(q, Encode(bs[3..]));
    assert bs == [bs[0], bs[1], bs[2]] + bs[3..];
  }

  /** `+` becomes `-` and `/` becomes `_`. */
  function UrlChar(c: char): char {
    if c == '+' then '-' else if c == '/' then '_' else c
  }

  function StandardChar(c: char): char {
    if c == '-' then '+' else if c == '_' then '/' else c
  }

  function MapChars(s: string, f: char -> char): (r: string)
    ensures |r| == |s|
    ensures forall k :: 0 <= k < |s| ==> r[k] == f(s[k])
  {
    seq(|s|, k requires 0 <= k < |s| => f(s[k]))
  }

  /** `.replace(/=+$/, '')`: every trailing `=` removed. */
  function StripPadding(s: string): (r: string)
    ensures r <= s
    ensures |r| == 0 || r[|r| - 1] != '='
    ensures forall k :: |r| <= k < |s| ==> s[k] == '='
    decreases |s|
  {
    if |s| > 0 && s[|s| - 1] == '=' then StripPadding(s[..|s| - 1]) else s
  }

  /** The alphabet of section 5 of RFC 4648: letters, digits, `-` and `_`. */
  predicate InUrlAlphabet(c: char) {
    'A' <= c <= 'Z' || 'a' <= c <= 'z' || '0' <= c <= '9' || c == '-' || c == '_'
  }

  /** The raw-message encoding of the source: standard base 64 with `+`
      replaced by `-`, `/` by `_`, and the trailing padding removed. No
      `+`, `/` or `=` is left in it. */
  function UrlEncode(bs: seq<byte>): (u: string)
    ensures forall k :: 0 <= k < |u| ==> InUrlAlphabet(u[k])
  {
    UrlBody(bs);
    StripPadding(MapChars(Encode(bs), UrlChar))
  }

  /** Proof helper: stripping takes off exactly the padding, and the mapped
      body is in the URL-safe alphabet. */
  lemma UrlBody(bs: seq<byte>)
    ensures StripPadding(MapChars(Encode(bs), UrlChar)) == MapChars(Unpadded(bs), UrlChar)
    ensures forall k :: 0 <= k < |Unpadded(bs)| ==> InUrlAlphabet(UrlChar(Unpadded(bs)[k]))
  {
    var body, pad := Unpadded(bs), Padding(|bs|);
    MapPadded(body, pad);
    StripAfterAlphabet(MapChars(body, UrlChar), pad);
    forall k | 0 <= k < |body| ensures InUrlAlphabet(UrlChar(body[k])) {
      assert InAlphabet(body[k]);
    }
  }

  /** The `=` characters that bring a length up to a multiple of four. */
  function Repad(n: nat): (s: string)
    ensures (n + |s|) % 4 == 0 && |s| < 4
    ensures forall k :: 0 <= k < |s| ==> s[k] == '='
  {
    if n % 4 == 0 then "" else if n % 4 == 1 then "===" else if n % 4 == 2 then "==" else "="
  }

  /** What a receiver does with a URL-safe encoding: map the characters
      back, restore the padding, decode. */
  function UrlDecode(u: string): Option<seq<byte>> {
    Decode(MapChars(u, StandardChar) + Repad(|u|))
  }

  /** The URL-safe encoding is the standard one with `-` and `_` in place
      of `+` and `/` and the padding dropped: mapping the characters back
      and restoring the padding gives the standard encoding, and decoding
      that gives back the original bytes. */
  lemma UrlDecodeEncode(bs: seq<byte>)
    ensures var u := UrlEncode(bs);
            (forall k :: 0 <= k < |u| ==> InUrlAlphabet(u[k])) &&
            MapChars(u, StandardChar) + Repad(|u|) == Encode(bs)
    ensures UrlDecode(UrlEncode(bs)) == Some(bs)
  {
    assert (|Unpadded(bs)| + |Padding(|bs|)|) % 4 == 0 by {
      UnpaddedLength(bs);
    }
    Unstrip(Unpadded(bs), Padding(|bs|));
    DecodeEncode(bs);
  }

  /** Undoing the URL-safe mapping and restoring the padding rebuilds a
      padded encoding. */
  lemma Unstrip(body: string, pad: string)
    requires forall k :: 0 <= k < |body| ==> InAlphabet(body[k])
    requires forall k :: 0 <= k < |pad| ==> pad[k] == '='
    requires |pad| < 4 && (|body| + |pad|) % 4 == 0
    ensures var u := StripPadding(MapChars(body + pad, UrlChar));
            MapChars(u, StandardChar) + Repad(|u|) == body + pad
  {
    var mappedBody := MapChars(body, UrlChar);
    var u := StripPadding(MapChars(body + pad, UrlChar));
    assert u == mappedBody by {
      MapPadded(body, pad);
      StripAfterAlphabet(mappedBody, pad);
    }
    assert Repad(|u|) == pad by {
      PadLength(|body|, |Repad(|body|)|, |pad|);
      SameEquals(Repad(|body|), pad);
    }
    assert MapChars(u, StandardChar) == body by {
      UnmapBody(body);
    }
  }

  /** Padding up to a multiple of four has only one length. */
  lemma PadLength(n: nat, a: nat, b: nat)
    requires a < 4 && b < 4 && (n + a) % 4 == 0 && (n + b) % 4 == 0
    ensures a == b
  {
  }

  /** Mapping the characters of an encoding maps its body and keeps its padding. */
  lemma MapPadded(body: string, pad: string)
    requires forall k :: 0 <= k < |body| ==> InAlphabet(body[k])
    requires forall k :: 0 <= k < |pad| ==> pad[k] == '='
    ensures MapChars(body + pad, UrlChar) == MapChars(body, UrlChar) + pad
    ensures var m := MapChars(body, UrlChar); |m| == 0 || m[|m| - 1] != '='
  {
    var m := MapChars(body, UrlChar);
    assert forall k :: 0 <= k < |m| ==> m[k] != '=' by {
      forall k | 0 <= k < |m| ensures m[k] != '=' {
        assert InAlphabet(body[k]);
      }
    }
  }

  /** Two strings of `=` of the same length are equal. */
  lemma SameEquals(a: string, b: string)
    requires |a| == |b|
    requires forall k :: 0 <= k < |a| ==> a[k] == '='
    requires forall k :: 0 <= k < |b| ==> b[k] == '='
    ensures a == b
  {
  }

  /** On the standard alphabet, the URL-safe mapping is undone by its reverse. */
  lemma UnmapBody(body: string)
    requires forall k :: 0 <= k < |body| ==> InAlphabet(body[k])
    ensures MapChars(MapChars(body, UrlChar), StandardChar) == body
  {
    var r := MapChars(MapChars(body, UrlChar), StandardChar);
    forall k | 0 <= k < |body| ensures r[k] == body[k] {
      assert InAlphabet(body[k]);
    }
  }

  /** Stripping the padding off a string whose last character is not `=`
      leaves that string. */
  lemma {:induction false} StripAfterAlphabet(body: string, pad: string)
    requires |body| == 0 || body[|body| - 1] != '='
    requires forall k :: 0 <= k < |pad| ==> pad[k] == '='
    ensures StripPadding(body + pad) == body
    decreases |pad|
  {
    if |pad| > 0 {
      assert (body + pad)[..|body + pad| - 1] == body + pad[..|pad| - 1];
      StripAfterAlphabet(body, pad[..|pad| - 1]);
    } else {
      assert body + pad == body;
    }
  }
}
