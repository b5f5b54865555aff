/**
 The standard base64 encoding with padding (section 4 of RFC 4648), as used to
 build OpenFGA object names. A Go string is a sequence of bytes; it is modelled
 as a string all of whose characters are below 256.
 */
module Base64 {

  type byte = b: int | 0 <= b < 256
  type sextet = x: int | 0 <= x < 64

  predicate IsGoString(s: string) {
    forall i | 0 <= i < |s| :: s[i] < 256 as char
  }

  type GoString = s: string | IsGoString(s)

  function Bytes(s: GoString): (bs: seq<byte>)
    ensures |bs| == |s|
    ensures forall i | 0 <= i < |s| :: bs[i] == s[i] as int
  {
    seq(|s|, i requires 0 <= i < |s| => s[i] as int)
  }

  lemma BytesInjective(s: GoString, t: GoString)
    requires Bytes(s) == Bytes(t)
    ensures s == t
  {
    assert forall i | 0 <= i < |s| :: s[i] as int == Bytes(s)[i] == t[i] as int;
  }

  /** Table 1 of RFC 4648. */
  function Digit(x: sextet): char {
    if x < 26 then (x + 65) as char
    else if x < 52 then (x + 71) as char
    else if x < 62 then (x - 4) as char
    else if x == 62 then '+'
    else '/'
  }

  /** The sextet a base64 digit stands for; 0 for anything else. */
  function Undigit(c: char): sextet {
    if 'A' <= c <= 'Z' then c as int - 65
    else if 'a' <= c <= 'z' then c as int - 71
    else if '0' <= c <= '9' then c as int + 4
    else if c == '+' then 62
    else if c == '/' then 63
    else 0
  }

  predicate IsDigit(c: char) {
    'A' <= c <= 'Z' || 'a' <= c <= 'z' || '0' <= c <= '9' || c == '+' || c == '/'
  }

  lemma DigitRoundTrip(x: sextet)
    ensures IsDigit(Digit(x)) && Undigit(Digit(x)) == x
  {}

  const UPPER := "ABCDEFGHIJKLMNOPQRSTUVWXYZ"
  const LOWER := "abcdefghijklmnopqrstuvwxyz"
  const FIGURES := "0123456789"
  const TABLE_1 := UPPER + LOWER + FIGURES + "+/"

  lemma UpperDigits(x: sextet)
    requires x < 26
    ensures |UPPER| == 26 && Digit(x) == UPPER[x]
  {}

  lemma LowerDigits(x: sextet)
    requires 26 <= x < 52
    ensures |LOWER| == 26 && Digit(x) == LOWER[x - 26]
  {}

  lemma FigureDigits(x: sextet)
    requires 52 <= x < 62
    ensures |FIGURES| == 10 && Digit(x) == FIGURES[x - 52]
  {}

  /** The digits are those of Table 1, in its order. */
  lemma DigitsFollowTable1(x: sextet)
    ensures |TABLE_1| == 64 && Digit(x) == TABLE_1[x]
  {
    if x < 26 {
      UpperDigits(x);
    } else if x < 52 {
      LowerDigits(x);
    } else if x < 62 {
      FigureDigits(x);
    }
  }

  /** Splits a 24-bit group into four sextets. */
  function Split(a: byte, b: byte, c: byte): (sextet, sextet, sextet, sextet) {
    (a / 4, a % 4 * 16 + b / 16, b % 16 * 4 + c / 64, c % 64)
  }

  /** Four characters for one to three bytes, padded with '='. */
  function EncodeGroup(bs: seq<byte>): (s: string)
    requires 1 <= |bs| <= 3
    ensures |s| == 4
  {
    var (w, x, y, z) := Split(bs[0], if |bs| > 1 then bs[1] else 0, if |bs| > 2 then bs[2] else 0);
    [Digit(w), Digit(x), if |bs| > 1 then Digit(y) else '=', if |bs| > 2 then Digit(z) else '=']
  }

  function Encode(bs: seq<byte>): string {
    if bs == [] then ""
    else if |bs| <= 3 then EncodeGroup(bs)
    else EncodeGroup(bs[..3]) + Encode(bs[3..])
  }

  /** The three bytes of four sextets. */
  function Join(w: sextet, x: sextet, y: sextet, z: sextet): (byte, byte, byte) {
    (w * 4 + x / 16, x % 16 * 16 + y / 4, y % 4 * 64 + z)
  }

  function DecodeGroup(s: string): seq<byte>
    requires |s| == 4
  {
    var (a, b, c) := Join(Undigit(s[0]), Undigit(s[1]), Undigit(s[2]), Undigit(s[3]));
    if s[2] == '=' then [a] else if s[3] == '=' then [a, b] else [a, b, c]
  }

  /** Decodes four characters at a time; padding shortens the last group. */
  function Decode(s: string): seq<byte> {
    if |s| < 4 then [] else DecodeGroup(s[..4]) + Decode(s[4..])
  }

  lemma SplitJoin(a: byte, b: byte, c: byte)
    ensures var (w, x, y, z) := Split(a, b, c);
            Join(w, x, y, z) == (a, b, c)
  {}

  /** The four sextets spell the same 24-bit number as the three bytes, most significant first. */
  lemma SplitKeepsTheBits(a: byte, b: byte, c: byte)
    ensures var (w, x, y, z) := Split(a, b, c);
            ((w * 64 + x) * 64 + y) * 64 + z == (a * 256 + b) * 256 + c
  {}

  /** Three bytes give four digits; two give three and one pad, one gives two and two pads. */
  lemma GroupExactly(bs: seq<byte>) returns (w: sextet, x: sextet, y: sextet, z: sextet)
    requires 1 <= |bs| <= 3
    ensures var a: int := bs[0];
            var b: int := if |bs| > 1 then bs[1] else 0;
            var c: int := if |bs| > 2 then bs[2] else 0;
            ((w * 64 + x) * 64 + y) * 64 + z == (a * 256 + b) * 256 + c
    ensures EncodeGroup(bs) ==
            [TABLE_1[w], TABLE_1[x], if |bs| > 1 then TABLE_1[y] else '=', if |bs| > 2 then TABLE_1[z] else '=']
  {
    var b, c := (if |bs| > 1 then bs[1] else 0), (if |bs| > 2 then bs[2] else 0);
    var (p, q, r, s) := Split(bs[0], b, c);
    w, x, y, z := p, q, r, s;
    SplitKeepsTheBits(bs[0], b, c);
    DigitsFollowTable1(w);
    DigitsFollowTable1(x);
    DigitsFollowTable1(y);
    DigitsFollowTable1(z);
  }

  /** Groups of three bytes are encoded one after the other. */
  lemma EncodeGroupwise(bs: seq<byte>)
    ensures 1 <= |bs| <= 3 ==> Encode(bs) == EncodeGroup(bs)
    ensures |bs| > 3 ==> Encode(bs)[..4] == EncodeGroup(bs[..3]) && Encode(bs)[4..] == Encode(bs[3..])
  {}

  lemma GroupRoundTrip(bs: seq<byte>)
    requires 1 <= |bs| <= 3
    ensures DecodeGroup(EncodeGroup(bs)) == bs
    ensures forall i | 0 <= i < 4 :: IsDigit(EncodeGroup(bs)[i]) || EncodeGroup(bs)[i] == '='
  {
    var b := if |bs| > 1 then bs[1] else 0;
    var c := if |bs| > 2 then bs[2] else 0;
    var (w, x, y, z) := Split(bs[0], b, c);
    SplitJoin(bs[0], b, c);
    DigitRoundTrip(w);
    DigitRoundTrip(x);
    DigitRoundTrip(y);
    DigitRoundTrip(z);
  }

  /** Decoding undoes encoding on every byte string. */
  lemma {:induction false} RoundTrip(bs: seq<byte>)
    ensures Decode(Encode(bs)) == bs
  {
    if 1 <= |bs| <= 3 {
      GroupRoundTrip(bs);
      assert Encode(bs)[..4] == EncodeGroup(bs) && Encode(bs)[4..] == [];
    } else if bs != [] {
      GroupRoundTrip(bs[..3]);
      RoundTrip(bs[3..]);
      assert Encode(bs)[..4] == EncodeGroup(bs[..3]) && Encode(bs)[4..] == Encode(bs[3..]);
      assert bs == bs[..3] + bs[3..];
    }
  }

  /** Only base64 digits and padding occur. */
  lemma {:induction false} Alphabet(bs: seq<byte>)
    ensures forall i | 0 <= i < |Encode(bs)| :: IsDigit(Encode(bs)[i]) || Encode(bs)[i] == '='
  {
    if 1 <= |bs| <= 3 {
      GroupRoundTrip(bs);
    } else if bs != [] {
      GroupRoundTrip(bs[..3]);
      Alphabet(bs[3..]);
    }
  }

  lemma Injective(a: seq<byte>, b: seq<byte>)
    requires Encode(a) == Encode(b)
    ensures a == b
  {
    RoundTrip(a);
    RoundTrip(b);
  }
}
