/**
 * Standard base64 with padding (section 4 of RFC 4648), in the form the packet codec uses it
 * through encoding/base64: the decoder skips line breaks and ignores unused trailing bits.
 */
module Base64 {
  import opened Prelude

  type Sextet = n: int | 0 <= n < 64

  const PAD: Byte := 61

  function Letter(n: Sextet): Byte {
    if n < 26 then 65 + n
    else if n < 52 then 71 + n
    else if n < 62 then n - 4
    else if n == 62 then 43
    else 47
  }

  function Index(b: Byte): (n: Option<Sextet>)
    ensures n.Some? ==> Letter(n.value) == b
    ensures n.None? ==> forall m: Sextet :: Letter(m) != b
  {
    if 65 <= b <= 90 then Some(b - 65)
    else if 97 <= b <= 122 then Some(b - 71)
    else if 48 <= b <= 57 then Some(b + 4)
    else if b == 43 then Some(62)
    else if b == 47 then Some(63)
    else None
  }

  lemma IndexOfLetter(n: Sextet)
    ensures Index(Letter(n)) == Some(n)
  {
  }

  /** The four sextets of three bytes, and back. */
  function S0(x: Byte): Sextet { x / 4 }
  function S1(x: Byte, y: Byte): Sextet { x % 4 * 16 + y / 16 }
  function S2(y: Byte, z: Byte): Sextet { y % 16 * 4 + z / 64 }
  function S3(z: Byte): Sextet { z % 64 }
  function B0(a: Sextet, b: Sextet): Byte { a * 4 + b / 16 }
  function B1(b: Sextet, c: Sextet): Byte { b % 16 * 16 + c / 4 }
  function B2(c: Sextet, e: Sextet): Byte { c % 4 * 64 + e }

  lemma FirstByte(x: Byte, y: Byte)
    ensures B0(S0(x), S1(x, y)) == x
  {
  }

  lemma SecondByte(x: Byte, y: Byte, z: Byte)
    ensures B1(S1(x, y), S2(y, z)) == y
  {
    assert S1(x, y) % 16 == y / 16;
    assert S2(y, z) / 4 == y % 16;
  }

  lemma ThirdByte(y: Byte, z: Byte)
    ensures B2(S2(y, z), S3(z)) == z
  {
    assert S2(y, z) % 4 == z / 64;
  }

  /** base64.StdEncoding.EncodedLen. */
  function EncodedLen(n: nat): nat {
    (n + 2) / 3 * 4
  }

  function Encode(d: Bytes): (s: Bytes)
    ensures |s| == EncodedLen(|d|)
  {
    if |d| == 0 then []
    else if |d| == 1 then [Letter(S0(d[0])), Letter(S1(d[0], 0)), PAD, PAD]
    else if |d| == 2 then [Letter(S0(d[0])), Letter(S1(d[0], d[1])), Letter(S2(d[1], 0)), PAD]
    else [Letter(S0(d[0])), Letter(S1(d[0], d[1])), Letter(S2(d[1], d[2])), Letter(S3(d[2]))] + Encode(d[3..])
  }

  predicate IsLineBreak(b: Byte) {
    b == 10 || b == 13
  }

  function Strip(s: Bytes): (r: Bytes)
    ensures (forall i | 0 <= i < |s| :: !IsLineBreak(s[i])) ==> r == s
  {
    if s == [] then []
    else if IsLineBreak(s[0]) then Strip(s[1..])
    else [s[0]] + Strip(s[1..])
  }

  /** One quantum of four characters: its bytes, and whether it is padded; None is a CorruptInputError. */
  function DecodeQuantum(p: Byte, q: Byte, r: Byte, t: Byte): Option<(Bytes, bool)> {
    var a, b, c, e := Index(p), Index(q), Index(r), Index(t);
    if a.None? || b.None? then None
    else if r == PAD then (if t == PAD then Some(([B0(a.value, b.value)], true)) else None)
    else if c.None? then None
    else if t == PAD then Some(([B0(a.value, b.value), B1(b.value, c.value)], true))
    else if e.None? then None
    else Some(([B0(a.value, b.value), B1(b.value, c.value), B2(c.value, e.value)], false))
  }

  /** Quantum by quantum; only the last one may be padded. */
  function DecodeQuanta(s: Bytes): Option<Bytes> {
    if |s| == 0 then Some([])
    else if |s| < 4 then None
    else
      match DecodeQuantum(s[0], s[1], s[2], s[3])
      case None => None
      case Some((bytes, padded)) =>
        if padded then (if |s| == 4 then Some(bytes) else None)
        else match DecodeQuanta(s[4..])
          case None => None
          case Some(rest) => Some(bytes + rest)
  }

  function Decode(s: Bytes): Option<Bytes> {
    DecodeQuanta(Strip(s))
  }

  /** The bytes an encoding is made of. */
  predicate IsBase64(b: Byte) {
    b == PAD || Index(b).Some?
  }

  lemma {:induction false} EncodeAlphabet(d: Bytes, i: nat)
    requires i < |Encode(d)|
    ensures IsBase64(Encode(d)[i]) && !IsLineBreak(Encode(d)[i]) && Encode(d)[i] != 30
  {
    if i >= 4 {
      EncodeAlphabet(d[3..], i - 4);
    }
  }

  lemma OneByte(x: Byte)
    ensures DecodeQuantum(Letter(S0(x)), Letter(S1(x, 0)), PAD, PAD) == Some(([x], true))
  {
    IndexOfLetter(S0(x));
    IndexOfLetter(S1(x, 0));
    FirstByte(x, 0);
  }

  lemma TwoBytes(x: Byte, y: Byte)
    ensures DecodeQuantum(Letter(S0(x)), Letter(S1(x, y)), Letter(S2(y, 0)), PAD) == Some(([x, y], true))
  {
    IndexOfLetter(S0(x));
    IndexOfLetter(S1(x, y));
    IndexOfLetter(S2(y, 0));
    FirstByte(x, y);
    SecondByte(x, y, 0);
  }

  lemma ThreeBytes(x: Byte, y: Byte, z: Byte)
    ensures DecodeQuantum(Letter(S0(x)), Letter(S1(x, y)), Letter(S2(y, z)), Letter(S3(z))) == Some(([x, y, z], false))
  {
    IndexOfLetter(S0(x));
    IndexOfLetter(S1(x, y));
    IndexOfLetter(S2(y, z));
    IndexOfLetter(S3(z));
    FirstByte(x, y);
    SecondByte(x, y, z);
    ThirdByte(y, z);
  }

  lemma FullQuantum(s: Bytes, bytes: Bytes, rest: Bytes)
    requires |s| >= 4 && DecodeQuantum(s[0], s[1], s[2], s[3]) == Some((bytes, false))
    requires DecodeQuanta(s[4..]) == Some(rest)
    ensures DecodeQuanta(s) == Some(bytes + rest)
  {
  }

  lemma LastQuantum(p: Byte, q: Byte, r: Byte, t: Byte, bytes: Bytes)
    requires DecodeQuantum(p, q, r, t) == Some((bytes, true))
    ensures DecodeQuanta([p, q, r, t]) == Some(bytes)
  {
    var s := [p, q, r, t];
    assert s[0] == p && s[1] == q && s[2] == r && s[3] == t;
  }

  lemma EncodeQuantum(d: Bytes)
    requires |d| >= 3
    ensures var s := Encode(d);
            && |s| >= 4 && s[4..] == Encode(d[3..])
            && DecodeQuantum(s[0], s[1], s[2], s[3]) == Some((d[..3], false))
  {
    ThreeBytes(d[0], d[1], d[2]);
    assert d[..3] == [d[0], d[1], d[2]];
  }

  lemma {:induction false} DecodeQuantaEncode(d: Bytes)
    ensures DecodeQuanta(Encode(d)) == Some(d)
  {
    if |d| == 1 {
      OneByte(d[0]);
      assert d == [d[0]];
      LastQuantum(Letter(S0(d[0])), Letter(S1(d[0], 0)), PAD, PAD, d);
    } else if |d| == 2 {
      TwoBytes(d[0], d[1]);
      assert d == [d[0], d[1]];
      LastQuantum(Letter(S0(d[0])), Letter(S1(d[0], d[1])), Letter(S2(d[1], 0)), PAD, d);
    } else if |d| >= 3 {
      EncodeQuantum(d);
      DecodeQuantaEncode(d[3..]);
      FullQuantum(Encode(d), d[..3], d[3..]);
      assert d[..3] + d[3..] == d;
    }
  }

  /** Decoding undoes encoding, for all data. */
  lemma DecodeEncode(d: Bytes)
    ensures Decode(Encode(d)) == Some(d)
  {
    forall i | 0 <= i < |Encode(d)| ensures !IsLineBreak(Encode(d)[i]) {
      EncodeAlphabet(d, i);
    }
    DecodeQuantaEncode(d);
  }
}
