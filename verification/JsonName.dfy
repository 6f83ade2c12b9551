/**
 * JSON string literals for event names, byte by byte: the escaping that encoding/json applies
 * (section 7 of RFC 8259) and the reading of a one-element list of strings.
 */
module JsonName {
  import opened Prelude

  const QUOTE: Byte := 34
  const BACKSLASH: Byte := 92
  const OPEN: Byte := 91
  const CLOSE: Byte := 93

  function HexDigit(d: int): Byte
    requires 0 <= d < 16
  {
    if d < 10 then 48 + d else 87 + d
  }

  function HexValue(b: Byte): (v: Option<nat>)
    ensures v.Some? ==> v.value < 16
  {
    if 48 <= b <= 57 then Some(b - 48)
    else if 97 <= b <= 102 then Some(b - 87)
    else if 65 <= b <= 70 then Some(b - 55)
    else None
  }

  /** The control characters with a one-letter escape, and the quote and the backslash themselves. */
  function ShortEscape(b: Byte): Option<Byte> {
    if b == QUOTE || b == BACKSLASH then Some(b)
    else if b == 8 then Some(98)
    else if b == 12 then Some(102)
    else if b == 10 then Some(110)
    else if b == 13 then Some(114)
    else if b == 9 then Some(116)
    else None
  }

  /** Control characters, and the characters '<', '>' and '&', are written \u00xy. */
  predicate LongEscape(b: Byte) {
    b < 32 || b == 60 || b == 62 || b == 38
  }

  function EscapeByte(b: Byte): (e: Bytes)
    ensures |e| > 0
    ensures e[0] != QUOTE
  {
    match ShortEscape(b)
    case Some(c) => [BACKSLASH, c]
    case None =>
      if LongEscape(b) then [BACKSLASH, 117, 48, 48, HexDigit(b / 16), HexDigit(b % 16)] else [b]
  }

  function Escape(name: Bytes): Bytes {
    if name == [] then [] else EscapeByte(name[0]) + Escape(name[1..])
  }

  function Quote(name: Bytes): Bytes {
    [QUOTE] + Escape(name) + [QUOTE]
  }

  /** A code point of the basic plane in UTF-8. */
  function Utf8(c: int): Bytes
    requires 0 <= c < 0x1_0000
  {
    if c < 0x80 then [c]
    else if c < 0x800 then [0xC0 + c / 64, 0x80 + c % 64]
    else [0xE0 + c / 4096, 0x80 + c / 64 % 64, 0x80 + c % 64]
  }

  function UnescapeShort(c: Byte): Option<Byte> {
    if c == QUOTE || c == BACKSLASH || c == 47 then Some(c)
    else if c == 98 then Some(8)
    else if c == 102 then Some(12)
    else if c == 110 then Some(10)
    else if c == 114 then Some(13)
    else if c == 116 then Some(9)
    else None
  }

  function HexCode(s: Bytes): (c: Option<nat>)
    requires |s| == 4
    ensures c.Some? ==> c.value < 0x1_0000
  {
    var a, b, c, d := HexValue(s[0]), HexValue(s[1]), HexValue(s[2]), HexValue(s[3]);
    if a.None? || b.None? || c.None? || d.None? then None
    else Some(a.value * 4096 + b.value * 256 + c.value * 16 + d.value)
  }

  /** The rest of a literal whose opening quote has been read: its value, and what follows its closing quote. */
  function ReadString(s: Bytes): Option<(Bytes, Bytes)> {
    if s == [] then None
    else if s[0] == QUOTE then Some(([], s[1..]))
    else if s[0] < 32 then None
    else if s[0] != BACKSLASH then Prepend([s[0]], ReadString(s[1..]))
    else if |s| < 2 then None
    else if UnescapeShort(s[1]).Some? then Prepend([UnescapeShort(s[1]).value], ReadString(s[2..]))
    else if s[1] != 117 || |s| < 6 || HexCode(s[2..6]).None? then None
    else Prepend(Utf8(HexCode(s[2..6]).value), ReadString(s[6..]))
  }

  function Prepend(head: Bytes, r: Option<(Bytes, Bytes)>): Option<(Bytes, Bytes)> {
    match r
    case Some((name, rest)) => Some((head + name, rest))
    case None => None
  }

  /**
   * What decoding `text` into a list of strings gives when the list has exactly one element; None
   * stands for a syntax error or a list of another length, both of which the caller refuses.
   */
  function SingleString(text: Bytes): Option<Bytes> {
    if |text| < 2 || text[0] != OPEN || text[1] != QUOTE then None
    else match ReadString(text[2..])
      case Some((name, rest)) => if rest == [CLOSE] then Some(name) else None
      case None => None
  }

  lemma ReadEscapedByte(b: Byte, s: Bytes)
    ensures ReadString(EscapeByte(b) + s) == Prepend([b], ReadString(s))
  {
    var t := EscapeByte(b) + s;
    if ShortEscape(b).Some? {
      assert t[1] == ShortEscape(b).value && t[2..] == s;
    } else if LongEscape(b) {
      var h, l := HexDigit(b / 16), HexDigit(b % 16);
      assert t[1] == 117 && t[2..6] == [48, 48, h, l] && t[6..] == s;
      assert HexValue(h) == Some(b / 16) && HexValue(l) == Some(b % 16);
      assert HexCode([48, 48, h, l]) == Some(b);
    } else {
      assert t[1..] == s;
    }
  }

  /** Reading undoes quoting, whatever follows the literal. */
  lemma {:induction false} ReadQuoted(name: Bytes, rest: Bytes)
    ensures ReadString(Escape(name) + [QUOTE] + rest) == Some((name, rest))
  {
    if name == [] {
      assert Escape(name) + [QUOTE] + rest == [QUOTE] + rest;
    } else {
      var tail := Escape(name[1..]) + [QUOTE] + rest;
      assert Escape(name) + [QUOTE] + rest == EscapeByte(name[0]) + tail;
      ReadQuoted(name[1..], rest);
      ReadEscapedByte(name[0], tail);
      assert [name[0]] + name[1..] == name;
    }
  }

  lemma SingleStringOfQuoted(name: Bytes)
    ensures SingleString([OPEN] + Quote(name) + [CLOSE]) == Some(name)
  {
    var text := [OPEN] + Quote(name) + [CLOSE];
    assert text[2..] == Escape(name) + [QUOTE] + [CLOSE];
    ReadQuoted(name, [CLOSE]);
  }

  /** Inside an escaped name, a quote always follows a backslash. */
  lemma {:induction false} QuotesAreEscaped(name: Bytes, i: nat)
    requires i < |Escape(name)| && Escape(name)[i] == QUOTE
    ensures i > 0 && Escape(name)[i - 1] == BACKSLASH
  {
    var first := EscapeByte(name[0]);
    if i >= |first| {
      QuotesAreEscaped(name[1..], i - |first|);
    }
  }

  /** An escaped name ends in a backslash exactly when the name does. */
  lemma {:induction false} LastIsBackslash(name: Bytes)
    requires name != []
    ensures Escape(name) != []
    ensures Escape(name)[|Escape(name)| - 1] == BACKSLASH <==> name[|name| - 1] == BACKSLASH
  {
    if |name| > 1 {
      LastIsBackslash(name[1..]);
    } else {
      assert Escape(name[1..]) == [];
      assert Escape(name) == EscapeByte(name[0]);
    }
  }
}
