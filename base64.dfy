/**
 * Base64 as section 4 of RFC 4648 defines it, restricted to the payloads that
 * HTTP Basic's BasicPattern accepts: the recogniser of that pattern's payload
 * group, the decoder that stands in for Ruby's Base64.decode64 on such
 * payloads, and the encoder a client uses to build the header.
 */
module Base64 {

  /** An octet of a decoded payload. */
  type Byte = b: int | 0 <= b < 256

  /** The value carried by one alphabet character. */
  type Sextet = s: int | 0 <= s < 64

  const Pad: char := '='

  /** The character class `[A-Za-z0-9+/]`. */
  predicate IsAlphabetChar(c: char) {
    'A' <= c <= 'Z' || 'a' <= c <= 'z' || '0' <= c <= '9' || c == '+' || c == '/'
  }

  /** Table 1 of RFC 4648: the character that encodes a sextet. */
  function CharOf(s: Sextet): (c: char)
    ensures IsAlphabetChar(c)
  {
    if s < 26 then ('A' as int + s) as char
    else if s < 52 then ('a' as int + (s - 26)) as char
    else if s < 62 then ('0' as int + (s - 52)) as char
    else if s == 62 then '+'
    else '/'
  }

  /** The sextet an alphabet character encodes; CharOf undoes it. */
  function ValueOf(c: char): (s: Sextet)
    requires IsAlphabetChar(c)
    ensures CharOf(s) == c
  {
    if 'A' <= c <= 'Z' then c as int - 'A' as int
    else if 'a' <= c <= 'z' then c as int - 'a' as int + 26
    else if '0' <= c <= '9' then c as int - '0' as int + 52
    else if c == '+' then 62
    else 63
  }

  lemma ValueOfCharOf(s: Sextet)
    ensures ValueOf(CharOf(s)) == s
  {
  }

  /** `[A-Za-z0-9+/]{4}` */
  predicate IsQuad(g: string) {
    |g| == 4 && forall i :: 0 <= i < 4 ==> IsAlphabetChar(g[i])
  }

  /** `[A-Za-z0-9+/]{2}==|[A-Za-z0-9+/]{3}=` */
  predicate IsPaddedGroup(g: string) {
    && |g| == 4
    && IsAlphabetChar(g[0]) && IsAlphabetChar(g[1])
    && (g[2] == Pad || IsAlphabetChar(g[2]))
    && g[3] == Pad
  }

  /**
   * The whole-string match of BasicPattern's payload group
   * `(?:[A-Za-z0-9+/]{4})*(?:[A-Za-z0-9+/]{2}==|[A-Za-z0-9+/]{3}=)?`,
   * one group of four characters at a time.
   */
  predicate IsPaddedBase64(p: string)
    decreases |p|
  {
    || p == []
    || IsPaddedGroup(p)
    || (|p| >= 4 && IsQuad(p[..4]) && IsPaddedBase64(p[4..]))
  }

  /** The last two characters: alphabet or padding, and padding only as a suffix. */
  predicate TailOk(a: char, b: char) {
    && (IsAlphabetChar(a) || a == Pad)
    && (IsAlphabetChar(b) || b == Pad)
    && (a == Pad ==> b == Pad)
  }

  /**
   * What the payload pattern amounts to: a length that is a multiple of four,
   * alphabet characters throughout, except that the last one or two may be
   * `=` padding.
   */
  predicate PaddedShape(p: string) {
    && |p| % 4 == 0
    && (forall i :: 0 <= i < |p| - 2 ==> IsAlphabetChar(p[i]))
    && (|p| > 0 ==> TailOk(p[|p| - 2], p[|p| - 1]))
  }

  /** The number of `=` characters that end a padded payload. */
  function PadCount(p: string): (n: nat)
    ensures n <= 2 && n <= |p|
  {
    if |p| >= 2 && p[|p| - 2] == Pad then 2
    else if |p| >= 1 && p[|p| - 1] == Pad then 1
    else 0
  }

  /** The regular expression accepts exactly the strings of PaddedShape. */
  lemma {:induction false} PatternShape(p: string)
    ensures IsPaddedBase64(p) <==> PaddedShape(p)
    decreases |p|
  {
    if |p| == 4 {
      assert p[..4] == p && p[4..] == [];
    } else if |p| > 4 {
      var rest := p[4..];
      PatternShape(rest);
      assert !IsPaddedGroup(p);
      if PaddedShape(p) {
        assert IsQuad(p[..4]);
        assert PaddedShape(rest) by {
          forall i | 0 <= i < |rest| - 2 ensures IsAlphabetChar(rest[i]) {
            assert rest[i] == p[i + 4];
          }
        }
      }
      if IsPaddedBase64(p) {
        assert IsQuad(p[..4]) && PaddedShape(rest);
        forall i | 0 <= i < |p| - 2 ensures IsAlphabetChar(p[i]) {
          if i < 4 {
            assert p[i] == p[..4][i];
          } else {
            assert p[i] == rest[i - 4];
          }
        }
        assert p[|p| - 2] == rest[|rest| - 2];
        assert p[|p| - 1] == rest[|rest| - 1];
      }
    }
  }

  /** RFC 4648: four sextets carry three octets, most significant bits first. */
  function DecodeQuad(g: string): (bytes: seq<Byte>)
    requires IsQuad(g)
    ensures |bytes| == 3
  {
    var s0, s1, s2, s3 := ValueOf(g[0]), ValueOf(g[1]), ValueOf(g[2]), ValueOf(g[3]);
    [s0 * 4 + s1 / 16, (s1 % 16) * 16 + s2 / 4, (s2 % 4) * 64 + s3]
  }

  /** A final group with `==` carries one octet, with `=` two; left-over bits are dropped. */
  function DecodePaddedGroup(g: string): (bytes: seq<Byte>)
    requires IsPaddedGroup(g)
    ensures |bytes| == 3 - PadCount(g)
  {
    var s0, s1 := ValueOf(g[0]), ValueOf(g[1]);
    if g[2] == Pad then [s0 * 4 + s1 / 16]
    else [s0 * 4 + s1 / 16, (s1 % 16) * 16 + ValueOf(g[2]) / 4]
  }

  /**
   * Base64.decode64 on a payload the pattern accepted: every four characters
   * carry three octets, less one per `=`.
   */
  function Decode(p: string): (bytes: seq<Byte>)
    requires IsPaddedBase64(p)
    ensures |bytes| == |p| / 4 * 3 - PadCount(p)
    decreases |p|
  {
    if p == [] then []
    else if IsPaddedGroup(p) then DecodePaddedGroup(p)
    else
      var rest := p[4..];
      assert |p| / 4 * 3 == 3 + |rest| / 4 * 3 by {
        assert |p| == |rest| + 4;
      }
      assert IsPaddedBase64(rest);
      assert PadCount(p) == PadCount(rest) by {
        if rest != [] {
          assert p[|p| - 1] == rest[|rest| - 1];
          assert p[|p| - 2] == rest[|rest| - 2];
        }
      }
      DecodeQuad(p[..4]) + Decode(rest)
  }

  /** Three octets as four alphabet characters. */
  function EncodeTriple(b0: Byte, b1: Byte, b2: Byte): (g: string)
    ensures IsQuad(g)
  {
    [CharOf(b0 / 4), CharOf((b0 % 4) * 16 + b1 / 16), CharOf((b1 % 16) * 4 + b2 / 64), CharOf(b2 % 64)]
  }

  /** RFC 4648 encoding with `=` padding, as a client builds a Basic header. */
  function Encode(bytes: seq<Byte>): (p: string)
    decreases |bytes|
  {
    if |bytes| == 0 then []
    else if |bytes| == 1 then
      [CharOf(bytes[0] / 4), CharOf((bytes[0] % 4) * 16), Pad, Pad]
    else if |bytes| == 2 then
      [CharOf(bytes[0] / 4), CharOf((bytes[0] % 4) * 16 + bytes[1] / 16), CharOf((bytes[1] % 16) * 4), Pad]
    else
      EncodeTriple(bytes[0], bytes[1], bytes[2]) + Encode(bytes[3..])
  }

  /** Every encoding is accepted by the payload pattern. */
  lemma {:induction false} EncodeIsPaddedBase64(bytes: seq<Byte>)
    ensures IsPaddedBase64(Encode(bytes))
    decreases |bytes|
  {
    if |bytes| >= 3 {
      var p := Encode(bytes);
      EncodeIsPaddedBase64(bytes[3..]);
      assert p[..4] == EncodeTriple(bytes[0], bytes[1], bytes[2]);
      assert p[4..] == Encode(bytes[3..]);
    }
  }

  /** Splitting `hi * 16 + lo` back into its two parts. */
  lemma Split16(hi: int, lo: int)
    requires 0 <= lo < 16
    ensures (hi * 16 + lo) / 16 == hi && (hi * 16 + lo) % 16 == lo
  {
  }

  /** Splitting `hi * 4 + lo` back into its two parts. */
  lemma Split4(hi: int, lo: int)
    requires 0 <= lo < 4
    ensures (hi * 4 + lo) / 4 == hi && (hi * 4 + lo) % 4 == lo
  {
  }

  lemma DecodeEncodeTriple(b0: Byte, b1: Byte, b2: Byte)
    ensures DecodeQuad(EncodeTriple(b0, b1, b2)) == [b0, b1, b2]
  {
    var s0, s1, s2, s3 := b0 / 4, (b0 % 4) * 16 + b1 / 16, (b1 % 16) * 4 + b2 / 64, b2 % 64;
    ValueOfCharOf(s0);
    ValueOfCharOf(s1);
    ValueOfCharOf(s2);
    ValueOfCharOf(s3);
    Split16(b0 % 4, b1 / 16);
    Split4(b1 % 16, b2 / 64);
    assert s0 * 4 + s1 / 16 == b0;
    assert (s1 % 16) * 16 + s2 / 4 == b1;
    assert (s2 % 4) * 64 + s3 == b2;
  }

  /** Round trip: decoding an encoding gives back the octets. */
  lemma {:induction false} DecodeEncode(bytes: seq<Byte>)
    ensures IsPaddedBase64(Encode(bytes))
    ensures Decode(Encode(bytes)) == bytes
    decreases |bytes|
  {
    EncodeIsPaddedBase64(bytes);
    var p := Encode(bytes);
    if |bytes| == 1 {
      ValueOfCharOf(bytes[0] / 4);
      ValueOfCharOf((bytes[0] % 4) * 16);
    } else if |bytes| == 2 {
      ValueOfCharOf(bytes[0] / 4);
      ValueOfCharOf((bytes[0] % 4) * 16 + bytes[1] / 16);
      ValueOfCharOf((bytes[1] % 16) * 4);
    } else if |bytes| >= 3 {
      DecodeEncode(bytes[3..]);
      assert p[..4] == EncodeTriple(bytes[0], bytes[1], bytes[2]);
      assert p[4..] == Encode(bytes[3..]);
      assert !IsPaddedGroup(p);
      DecodeEncodeTriple(bytes[0], bytes[1], bytes[2]);
      assert bytes == bytes[..3] + bytes[3..];
    }
  }
}
