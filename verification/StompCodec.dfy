/**
 Header escaping and integer parsing of the STOMP wire format
 (lib/yajsonrpc/stomp.py).  Text is modelled as its UTF-8 bytes, so the
 conversion between text and bytes is the identity here.
 */
module StompCodec {
  import opened Bytes
  import opened Options

  const NUL: byte := 0
  const LF: byte := 10
  const CR: byte := 13
  const COLON: byte := 58
  const BACKSLASH: byte := 92

  // ---------------------------------------------------------------- escaping

  /** The escape table applied to one byte. */
  function EncodeByte(b: byte): bytes {
    if b == COLON then [BACKSLASH, 99]
    else if b == BACKSLASH then [BACKSLASH, BACKSLASH]
    else if b == CR then [BACKSLASH, 114]
    else if b == LF then [BACKSLASH, 110]
    else [b]
  }

  function EncodeValue(s: bytes): bytes {
    if s == [] then [] else EncodeByte(s[0]) + EncodeValue(s[1..])
  }

  /** The byte named by an escape letter; None is the source's KeyError. */
  function DecodeEscape(letter: byte): Option<byte> {
    if letter == BACKSLASH then Some(BACKSLASH)
    else if letter == 114 then Some(CR)
    else if letter == 110 then Some(LF)
    else if letter == 99 then Some(COLON)
    else None
  }

  function Prepend(b: byte, rest: Option<bytes>): Option<bytes> {
    match rest
    case None => None
    case Some(t) => Some([b] + t)
  }

  /**
   Substitution of every escape sequence from left to right.  A backslash that
   ends the value or stands before a line feed is not a sequence and stays.
   */
  function Unescape(s: bytes): Option<bytes>
    decreases |s|
  {
    if s == [] then Some([])
    else if s[0] == BACKSLASH && |s| > 1 && s[1] != LF then
      match DecodeEscape(s[1])
      case None => None
      case Some(b) => Prepend(b, Unescape(s[2..]))
    else Prepend(s[0], Unescape(s[1..]))
  }

  /** None is the source's ValueError. */
  function DecodeValue(s: bytes): Option<bytes> {
    if COLON in s then None else Unescape(s)
  }

  /** An encoded value never holds a byte that delimits lines or headers. */
  lemma {:induction false} EncodedIsDelimiterFree(s: bytes)
    ensures LF !in EncodeValue(s) && CR !in EncodeValue(s) && COLON !in EncodeValue(s)
  {
    if s != [] {
      EncodedIsDelimiterFree(s[1..]);
    }
  }

  lemma {:induction false} UnescapeEncoded(s: bytes)
    ensures Unescape(EncodeValue(s)) == Some(s)
  {
    if s != [] {
      var head, tail := EncodeByte(s[0]), EncodeValue(s[1..]);
      UnescapeEncoded(s[1..]);
      assert EncodeValue(s)[|head|..] == tail;
      assert [s[0]] + s[1..] == s;
    }
  }

  /** Round trip: decoding what was encoded gives the value back. */
  lemma {:induction false} DecodeEncode(s: bytes)
    ensures DecodeValue(EncodeValue(s)) == Some(s)
  {
    EncodedIsDelimiterFree(s);
    UnescapeEncoded(s);
  }

  function TrailingBackslashes(t: bytes): nat {
    if t == [] || t[|t| - 1] != BACKSLASH then 0
    else 1 + TrailingBackslashes(t[..|t| - 1])
  }

  /** Dropping a leading byte that is no backslash keeps the count. */
  lemma {:induction false} TrailingAfterPlain(t: bytes)
    requires t != [] && t[0] != BACKSLASH
    ensures TrailingBackslashes(t) == TrailingBackslashes(t[1..])
  {
    if |t| > 1 {
      var u := t[..|t| - 1];
      assert t[1..][..|t| - 2] == u[1..];
      TrailingAfterPlain(u);
    }
  }

  /** Dropping a leading backslash and the byte after it keeps the parity. */
  lemma {:induction false} TrailingAfterPair(t: bytes)
    requires |t| >= 2 && t[0] == BACKSLASH
    ensures TrailingBackslashes(t) % 2 == TrailingBackslashes(t[2..]) % 2
  {
    if |t| == 2 {
      assert t[..1] == [BACKSLASH];
      assert t[..1][..0] == [];
    } else {
      var u := t[..|t| - 1];
      assert t[2..][..|t| - 3] == u[2..];
      TrailingAfterPair(u);
    }
  }

  /**
   The other direction: re-encoding a decodable value reproduces it exactly
   when it holds no raw CR or LF and its backslashes pair up to the end.
   */
  lemma {:induction false} EncodeDecode(t: bytes)
    requires DecodeValue(t).Some?
    ensures EncodeValue(DecodeValue(t).value) == t <==>
            CR !in t && LF !in t && TrailingBackslashes(t) % 2 == 0
  {
    var s := Unescape(t).value;
    EncodedIsDelimiterFree(s);
    if CR in t || LF in t {
      assert EncodeValue(s) != t;
    } else {
      ReencodeIffPaired(t);
    }
  }

  lemma {:induction false} ReencodeIffPaired(t: bytes)
    requires Unescape(t).Some? && COLON !in t && CR !in t && LF !in t
    ensures EncodeValue(Unescape(t).value) == t <==> TrailingBackslashes(t) % 2 == 0
    decreases |t|
  {
    if t == [] {
    } else if t[0] == BACKSLASH && |t| > 1 {
      var b, rest := DecodeEscape(t[1]).value, Unescape(t[2..]).value;
      ReencodeIffPaired(t[2..]);
      TrailingAfterPair(t);
      assert ([b] + rest)[1..] == rest;
      assert EncodeByte(b) == t[..2];
      assert EncodeValue([b] + rest)[2..] == EncodeValue(rest);
      assert t == t[..2] + t[2..];
    } else if t[0] == BACKSLASH {
      assert t[..0] == [];
      assert [BACKSLASH] + [] == [BACKSLASH];
      assert Unescape(t).value == [BACKSLASH];
    } else {
      var rest := Unescape(t[1..]).value;
      ReencodeIffPaired(t[1..]);
      TrailingAfterPlain(t);
      assert ([t[0]] + rest)[1..] == rest;
      assert EncodeValue([t[0]] + rest)[1..] == EncodeValue(rest);
      assert t == [t[0]] + t[1..];
    }
  }

  // ---------------------------------------------------------------- integers

  function Digit(n: nat): byte
    requires n < 10
  {
    (48 + n) as byte
  }

  /** str(n) for a natural number. */
  function Decimal(n: nat): bytes {
    if n < 10 then [Digit(n)] else Decimal(n / 10) + [Digit(n % 10)]
  }

  predicate IsDigit(b: byte) { 48 <= b <= 57 }

  /** The ASCII part of what str.strip() removes. */
  predicate IsSpace(b: byte) { 9 <= b <= 13 || 28 <= b <= 32 }

  function StripLeft(s: bytes): bytes {
    if s != [] && IsSpace(s[0]) then StripLeft(s[1..]) else s
  }

  function StripRight(s: bytes): bytes {
    if s != [] && IsSpace(s[|s| - 1]) then StripRight(s[..|s| - 1]) else s
  }

  /** Digits, with single underscores allowed between two of them. */
  function ParseDigits(s: bytes): Option<int>
    decreases |s|
  {
    if s == [] || !IsDigit(s[|s| - 1]) then None
    else
      var d := s[|s| - 1] as nat - 48;
      if |s| == 1 then Some(d)
      else
        match ParseDigits(s[..if s[|s| - 2] == 95 then |s| - 2 else |s| - 1])
        case None => None
        case Some(n) => Some(10 * n + d)
  }

  /** int(text); None is the source's ValueError. */
  function ParseInt(s: bytes): Option<int> {
    var t := StripRight(StripLeft(s));
    if t != [] && t[0] == 45 then
      match ParseDigits(t[1..])
      case None => None
      case Some(n) => Some(-n)
    else
      ParseDigits(if t != [] && t[0] == 43 then t[1..] else t)
  }

  lemma {:induction false} DecimalShape(n: nat)
    ensures Decimal(n) != [] && forall i :: 0 <= i < |Decimal(n)| ==> IsDigit(Decimal(n)[i])
    ensures ParseDigits(Decimal(n)) == Some(n)
  {
    if n >= 10 {
      DecimalShape(n / 10);
      var s, p := Decimal(n), Decimal(n / 10);
      assert s[..|s| - 1] == p;
      assert s[|s| - 2] == p[|p| - 1];
      assert IsDigit(p[|p| - 1]);
    }
  }

  /** A printed length reads back as the same number. */
  lemma {:induction false} ParseIntDecimal(n: nat)
    ensures ParseInt(Decimal(n)) == Some(n)
  {
    DecimalShape(n);
    var s := Decimal(n);
    assert IsDigit(s[0]) && IsDigit(s[|s| - 1]);
    assert StripLeft(s) == s && StripRight(s) == s;
  }
}
