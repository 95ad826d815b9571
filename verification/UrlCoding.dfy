/** Percent coding (src/utils.cpp; sections 2.1 and 2.3 of RFC 3986) over byte strings. */
module UrlCoding {
  import opened Common
  import opened Text

  predicate Bytes(s: string) {
    forall i | 0 <= i < |s| :: s[i] as int < 256
  }

  /** isalnum in the C locale, and "-_.~". */
  predicate Unreserved(c: char) {
    'a' <= c <= 'z' || 'A' <= c <= 'Z' || '0' <= c <= '9' || c == '-' || c == '_' || c == '.' || c == '~'
  }

  function HexDigit(d: int): (c: char)
    requires 0 <= d < 16
  {
    if d < 10 then '0' + d as char else 'A' + (d - 10) as char
  }

  predicate IsHex(c: char) {
    '0' <= c <= '9' || 'A' <= c <= 'F' || 'a' <= c <= 'f'
  }

  function HexValue(c: char): (v: int)
    requires IsHex(c)
    ensures 0 <= v < 16
  {
    if c <= '9' then c as int - '0' as int
    else if c <= 'F' then c as int - 'A' as int + 10
    else c as int - 'a' as int + 10
  }

  function EncodeByte(c: char): string
    requires c as int < 256
  {
    if Unreserved(c) then [c] else ['%', HexDigit(c as int / 16), HexDigit(c as int % 16)]
  }

  function Encode(s: string): string
    requires Bytes(s)
  {
    if s == "" then ""
    else EncodeByte(s[0]) + Encode(s[1..])
  }

  /** What stream extraction makes of two characters that are not both hexadecimal digits is left open. */
  type Lenient = (char, char) -> char

  function DecodePair(a: char, b: char, lenient: Lenient): char {
    if IsHex(a) && IsHex(b) then (HexValue(a) * 16 + HexValue(b)) as char else lenient(a, b)
  }

  /** A percent sign needs two characters after it; otherwise it stands for itself. */
  function Decode(s: string, lenient: Lenient): string
    decreases |s|
  {
    if s == "" then ""
    else if s[0] == '%' && |s| > 2 then [DecodePair(s[1], s[2], lenient)] + Decode(s[3..], lenient)
    else [if s[0] == '+' then ' ' else s[0]] + Decode(s[1..], lenient)
  }

  /** The character that decoding makes at position i, and where it goes on. */
  ghost function DecodedAt(s: string, i: nat, lenient: Lenient): (char, nat)
    requires i < |s|
  {
    if s[i] == '%' && i + 2 < |s| then (DecodePair(s[i + 1], s[i + 2], lenient), i + 3)
    else (if s[i] == '+' then ' ' else s[i], i + 1)
  }

  lemma DecodeAt(s: string, i: nat, lenient: Lenient)
    requires i < |s|
    ensures var (c, next) := DecodedAt(s, i, lenient);
            next <= |s| && Decode(s[i..], lenient) == [c] + Decode(s[next..], lenient)
  {
    assert s[i..][1..] == s[i + 1..];
    assert i + 2 < |s| ==> s[i..][3..] == s[i + 3..];
  }

  method UrlDecode(s: string, lenient: Lenient) returns (res: string)
    ensures res == Decode(s, lenient)
  {
    res := "";
    var i := 0;
    assert s[0..] == s;
    while i < |s|
      invariant 0 <= i <= |s|
      invariant res + Decode(s[i..], lenient) == Decode(s, lenient)
    {
      DecodeAt(s, i, lenient);
      ghost var (c, next) := DecodedAt(s, i, lenient);
      Associates(res, [c], Decode(s[next..], lenient));
      if s[i] == '%' && i + 2 < |s| {
        res := res + [DecodePair(s[i + 1], s[i + 2], lenient)];
        i := i + 2;
      } else if s[i] == '+' {
        res := res + " ";
      } else {
        res := res + [s[i]];
      }
      i := i + 1;
    }
  }

  lemma EncodeAt(s: string, i: nat)
    requires Bytes(s) && i < |s|
    ensures Encode(s[i..]) == EncodeByte(s[i]) + Encode(s[i + 1..])
  {
    assert s[i..][1..] == s[i + 1..];
  }

  method UrlEncode(s: string) returns (res: string)
    requires Bytes(s)
    ensures res == Encode(s)
  {
    res := "";
    assert s[0..] == s;
    for i := 0 to |s|
      invariant res + Encode(s[i..]) == Encode(s)
    {
      EncodeAt(s, i);
      var c := s[i];
      Associates(res, EncodeByte(c), Encode(s[i + 1..]));
      if Unreserved(c) {
        res := res + [c];
      } else {
        res := res + ['%', HexDigit(c as int / 16), HexDigit(c as int % 16)];
      }
    }
  }

  lemma HexPairReads(n: int, lenient: Lenient)
    requires 0 <= n < 256
    ensures DecodePair(HexDigit(n / 16), HexDigit(n % 16), lenient) == n as char
  {
    var hi, lo := n / 16, n % 16;
    assert HexValue(HexDigit(hi)) == hi && HexValue(HexDigit(lo)) == lo;
  }

  /** Decoding an encoded byte string gives it back. */
  lemma {:induction false} DecodeEncode(s: string, lenient: Lenient)
    requires Bytes(s)
    ensures Decode(Encode(s), lenient) == s
  {
    if s != "" {
      DecodeEncode(s[1..], lenient);
      var whole := EncodeByte(s[0]) + Encode(s[1..]);
      if Unreserved(s[0]) {
        assert whole[1..] == Encode(s[1..]);
      } else {
        assert whole[3..] == Encode(s[1..]);
        HexPairReads(s[0] as int, lenient);
      }
      assert s == [s[0]] + s[1..];
    }
  }

  /** Encoded text is made of unreserved characters and percent signs. */
  lemma {:induction false} EncodedAlphabet(s: string)
    requires Bytes(s)
    ensures forall c | c in Encode(s) :: Unreserved(c) || c == '%'
  {
    if s != "" {
      EncodedAlphabet(s[1..]);
    }
  }

  const UPPER_HEX: string := "0123456789ABCDEF"
  const LOWER_HEX: string := "0123456789abcdef"

  /** Section 2.3 of RFC 3986: letters, digits, hyphen, period, underscore and tilde. */
  predicate RfcUnreserved(c: char) {
    'A' <= c <= 'Z' || 'a' <= c <= 'z' || '0' <= c <= '9' || c in "-._~"
  }

  /** Encoding is what section 2.1 asks for: an unreserved byte stands for itself, any other becomes a
      percent sign and its two digits in upper case. */
  lemma EncodesAsRfc(c: char)
    requires c as int < 256
    ensures |UPPER_HEX| == 16
    ensures Encode([c]) == if RfcUnreserved(c) then [c] else ['%', UPPER_HEX[c as int / 16], UPPER_HEX[c as int % 16]]
  {
    assert [c][1..] == "";
    assert EncodeByte(c) + "" == EncodeByte(c);
    HexDigitIs(c as int / 16);
    HexDigitIs(c as int % 16);
  }

  lemma HexDigitIs(d: int)
    requires 0 <= d < 16
    ensures HexDigit(d) == UPPER_HEX[d]
  {
  }

  lemma HexValueIs(d: int)
    requires 0 <= d < 16
    ensures IsHex(UPPER_HEX[d]) && HexValue(UPPER_HEX[d]) == d
    ensures IsHex(LOWER_HEX[d]) && HexValue(LOWER_HEX[d]) == d
  {
  }

  lemma {:induction false} EncodeOfSum(a: string, b: string)
    requires Bytes(a) && Bytes(b)
    ensures Bytes(a + b) && Encode(a + b) == Encode(a) + Encode(b)
  {
    if a == "" {
      assert a + b == b;
    } else {
      assert (a + b)[1..] == a[1..] + b;
      EncodeOfSum(a[1..], b);
      Associates(EncodeByte(a[0]), Encode(a[1..]), Encode(b));
    }
  }

  /** One piece of encoded text: a byte as it is, a plus sign for a blank, or a byte by its two digits. */
  datatype Piece = Raw(c: char) | Plus | Percent(hi: char, lo: char)

  /** The character is the digit d, in upper or lower case. */
  ghost predicate IsDigit16(c: char, d: int) {
    0 <= d < 16 && (c == UPPER_HEX[d] || c == LOWER_HEX[d])
  }

  ghost predicate Stands(p: Piece, c: char) {
    match p
    case Raw(r) => r == c && c != '%' && c != '+'
    case Plus => c == ' '
    case Percent(hi, lo) => c as int < 256 && IsDigit16(hi, c as int / 16) && IsDigit16(lo, c as int % 16)
  }

  function Spelled(pieces: seq<Piece>): string {
    if pieces == [] then ""
    else
      (match pieces[0] case Raw(c) => [c] case Plus => "+" case Percent(hi, lo) => ['%', hi, lo]) + Spelled(pieces[1..])
  }

  /** Decoding reads every spelling: raw bytes, plus signs as blanks, and digits of either case. */
  lemma {:induction false} DecodeReadsEverySpelling(pieces: seq<Piece>, s: string, lenient: Lenient)
    requires |pieces| == |s| && forall i | 0 <= i < |s| :: Stands(pieces[i], s[i])
    ensures Decode(Spelled(pieces), lenient) == s
  {
    if pieces != [] {
      var tail := Spelled(pieces[1..]);
      assert Stands(pieces[0], s[0]);
      forall i | 0 <= i < |s[1..]| ensures Stands(pieces[1..][i], s[1..][i]) {
        assert Stands(pieces[i + 1], s[i + 1]);
      }
      DecodeReadsEverySpelling(pieces[1..], s[1..], lenient);
      PieceReads(pieces[0], s[0], tail, lenient);
      assert s == [s[0]] + s[1..];
    }
  }

  lemma PieceReads(p: Piece, c: char, tail: string, lenient: Lenient)
    requires Stands(p, c)
    ensures Decode(Spelled([p]) + tail, lenient) == [c] + Decode(tail, lenient)
    ensures Spelled([p]) == match p case Raw(r) => [r] case Plus => "+" case Percent(hi, lo) => ['%', hi, lo]
  {
    assert [p][1..] == [];
    match p
    case Raw(r) => assert ([r] + tail)[1..] == tail;
    case Plus => assert ("+" + tail)[1..] == tail;
    case Percent(hi, lo) =>
      HexValueIs(c as int / 16);
      HexValueIs(c as int % 16);
      assert (['%', hi, lo] + tail)[3..] == tail;
  }

  /** A percent sign too close to the end stands for itself. */
  lemma LatePercentStays(s: string, lenient: Lenient)
    requires |s| <= 2 && s != "" && s[0] == '%' && (|s| == 2 ==> s[1] != '+' && s[1] != '%')
    ensures Decode(s, lenient) == s
  {
    assert |s| == 2 ==> s[1..][1..] == "";
    assert |s| == 2 ==> s == [s[0]] + [s[1]];
  }
}
