/**
 * The standard base64 encoding of section 4 of RFC 4648 (alphabet
 * A-Z a-z 0-9 + /, padded with '='), as produced by Go's
 * `base64.StdEncoding.EncodeToString`. Session tokens, salts and password
 * hashes are all such encodings. A decoder is defined beside it so that the
 * round trip, and with it the injectivity of the encoding, can be proved.
 */
module Base64 {
  import opened Wrappers

  newtype byte = x: int | 0 <= x < 256

  const Pad: char := '='

  /** The character of the 6-bit value `n`. */
  function Digit(n: int): (c: char)
    requires 0 <= n < 64
    ensures c != Pad
  {
    if n < 26 then ('A' as int + n) as char
    else if n < 52 then ('a' as int + n - 26) as char
    else if n < 62 then ('0' as int + n - 52) as char
    else if n == 62 then '+'
    else '/'
  }

  /** The 6-bit value of an alphabet character; None for any other character. */
  function Value(c: char): (r: Option<int>)
    ensures r.Some? ==> 0 <= r.value < 64 && Digit(r.value) == c
  {
    if 'A' <= c <= 'Z' then Some(c as int - 'A' as int)
    else if 'a' <= c <= 'z' then Some(c as int - 'a' as int + 26)
    else if '0' <= c <= '9' then Some(c as int - '0' as int + 52)
    else if c == '+' then Some(62)
    else if c == '/' then Some(63)
    else None
  }

  lemma ValueOfDigit(n: int)
    requires 0 <= n < 64
    ensures Value(Digit(n)) == Some(n)
  {
  }

  /** Four characters for three bytes. */
  function EncodeGroup(b0: byte, b1: byte, b2: byte): string
  {
    [Digit(b0 as int / 4),
     Digit((b0 as int % 4) * 16 + b1 as int / 16),
     Digit((b1 as int % 16) * 4 + b2 as int / 64),
     Digit(b2 as int % 64)]
  }

  /** Every three bytes give four characters; a final one or two bytes are padded to four. */
  function Encode(b: seq<byte>): (s: string)
    ensures |s| == 4 * ((|b| + 2) / 3)
    decreases |b|
  {
    if |b| == 0 then ""
    else if |b| == 1 then
      [Digit(b[0] as int / 4), Digit((b[0] as int % 4) * 16), Pad, Pad]
    else if |b| == 2 then
      [Digit(b[0] as int / 4), Digit((b[0] as int % 4) * 16 + b[1] as int / 16),
       Digit((b[1] as int % 16) * 4), Pad]
    else
      assert (|b| - 3 + 2) / 3 + 1 == (|b| + 2) / 3;
      EncodeGroup(b[0], b[1], b[2]) + Encode(b[3..])
  }

  /** Inverse of Encode on its outputs; None on text of the wrong shape. */
  function Decode(s: string): (r: Option<seq<byte>>)
    decreases |s|
  {
    if |s| == 0 then Some([])
    else if |s| < 4 then None
    else
      var v0, v1, v2, v3 := Value(s[0]), Value(s[1]), Value(s[2]), Value(s[3]);
      if v0.None? || v1.None? then None
      else if |s| == 4 && s[2] == Pad && s[3] == Pad then
        Some([(v0.value * 4 + v1.value / 16) as byte])
      else if v2.None? then None
      else if |s| == 4 && s[3] == Pad then
        Some([(v0.value * 4 + v1.value / 16) as byte,
              ((v1.value % 16) * 16 + v2.value / 4) as byte])
      else if v3.None? then None
      else
        match Decode(s[4..])
        case None => None
        case Some(rest) =>
          Some([(v0.value * 4 + v1.value / 16) as byte,
                ((v1.value % 16) * 16 + v2.value / 4) as byte,
                ((v2.value % 4) * 64 + v3.value) as byte] + rest)
  }

  /** The bit arithmetic of one group undoes itself. */
  lemma GroupArithmetic(b0: int, b1: int, b2: int)
    requires 0 <= b0 < 256 && 0 <= b1 < 256 && 0 <= b2 < 256
    ensures (b0 / 4) * 4 + ((b0 % 4) * 16 + b1 / 16) / 16 == b0
    ensures (((b0 % 4) * 16 + b1 / 16) % 16) * 16 + ((b1 % 16) * 4 + b2 / 64) / 4 == b1
    ensures (((b1 % 16) * 4 + b2 / 64) % 4) * 64 + b2 % 64 == b2
  {
  }

  /** A final single byte survives the round trip. */
  lemma DecodeEncodeOne(b0: byte)
    ensures Decode(Encode([b0])) == Some([b0])
  {
    var n := b0 as int;
    ValueOfDigit(n / 4);
    ValueOfDigit((n % 4) * 16);
    GroupArithmetic(n, 0, 0);
  }

  /** A final pair of bytes survives the round trip. */
  lemma DecodeEncodeTwo(b0: byte, b1: byte)
    ensures Decode(Encode([b0, b1])) == Some([b0, b1])
  {
    var n0, n1 := b0 as int, b1 as int;
    var d0, d1, d2 := n0 / 4, (n0 % 4) * 16 + n1 / 16, (n1 % 16) * 4;
    var s := Encode([b0, b1]);
    assert s == [Digit(d0), Digit(d1), Digit(d2), Pad];
    ValueOfDigit(d0);
    ValueOfDigit(d1);
    ValueOfDigit(d2);
    GroupArithmetic(n0, n1, 0);
    assert d0 * 4 + d1 / 16 == n0;
    assert (d1 % 16) * 16 + d2 / 4 == n1;
  }

  /** Decoding a full group in front of any text yields its three bytes in front of that text's decoding. */
  lemma DecodeGroupPrefix(b0: byte, b1: byte, b2: byte, t: string)
    ensures Decode(EncodeGroup(b0, b1, b2) + t) ==
            match Decode(t)
            case None => None
            case Some(rest) => Some([b0, b1, b2] + rest)
  {
    var n0, n1, n2 := b0 as int, b1 as int, b2 as int;
    var s := EncodeGroup(b0, b1, b2) + t;
    ValueOfDigit(n0 / 4);
    ValueOfDigit((n0 % 4) * 16 + n1 / 16);
    ValueOfDigit((n1 % 16) * 4 + n2 / 64);
    ValueOfDigit(n2 % 64);
    GroupArithmetic(n0, n1, n2);
    assert s[4..] == t;
  }

  /** One full group in front of a tail that survives the round trip survives it too. */
  lemma DecodeEncodeStep(b: seq<byte>)
    requires |b| >= 3 && Decode(Encode(b[3..])) == Some(b[3..])
    ensures Decode(EncodeGroup(b[0], b[1], b[2]) + Encode(b[3..])) == Some(b)
  {
    DecodeGroupPrefix(b[0], b[1], b[2], Encode(b[3..]));
    assert [b[0], b[1], b[2]] + b[3..] == b;
  }

  lemma {:induction false} DecodeEncode(b: seq<byte>)
    ensures Decode(Encode(b)) == Some(b)
    decreases |b|
  {
    if |b| == 1 {
      assert b == [b[0]];
      DecodeEncodeOne(b[0]);
    } else if |b| == 2 {
      assert b == [b[0], b[1]];
      DecodeEncodeTwo(b[0], b[1]);
    } else if |b| >= 3 {
      DecodeEncode(b[3..]);
      DecodeEncodeStep(b);
      assert Encode(b) == EncodeGroup(b[0], b[1], b[2]) + Encode(b[3..]);
    }
  }

  /** Distinct byte strings never share an encoding. */
  lemma EncodeInjective(a: seq<byte>, b: seq<byte>)
    requires Encode(a) == Encode(b)
    ensures a == b
  {
    DecodeEncode(a);
    DecodeEncode(b);
  }
}
