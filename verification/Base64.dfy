/** Base 64 with padding: section 4 of RFC 4648, decoded strictly as its section 3.5 allows. */
module Base64 {
  import opened Wrappers

  type byte = x: int | 0 <= x < 256
  type sextet = x: int | 0 <= x < 64

  function SextetChar(x: sextet): char {
    if x < 26 then 'A' + x as char
    else if x < 52 then 'a' + (x - 26) as char
    else if x < 62 then '0' + (x - 52) as char
    else if x == 62 then '+'
    else '/'
  }

  const UPPER := "ABCDEFGHIJKLMNOPQRSTUVWXYZ"
  const LOWER := "abcdefghijklmnopqrstuvwxyz"

  /** The table of section 4 of RFC 4648. */
  const ALPHABET := UPPER + LOWER + "0123456789" + "+/"

  lemma Letters(i: nat)
    requires i < 26
    ensures |UPPER| == |LOWER| == 26 && UPPER[i] == 'A' + i as char && LOWER[i] == 'a' + i as char
  {
    assert i in [0, 1, 2, 3, 4, 5, 6, 7, 8, 9, 10, 11, 12, 13, 14, 15, 16, 17, 18, 19, 20, 21, 22, 23, 24, 25];
  }

  lemma SextetIsTableEntry(x: sextet)
    ensures |ALPHABET| == 64 && SextetChar(x) == ALPHABET[x]
  {
    Letters(if x < 26 then x else if x < 52 then x - 26 else 0);
    assert x >= 52 ==> x in [52, 53, 54, 55, 56, 57, 58, 59, 60, 61, 62, 63];
  }

  /** An encoded block, read as four digits to the base 64, is the number its three bytes are to the base 256. */
  lemma BlockIsNumber(a: byte, b: byte, c: byte) returns (w: sextet, x: sextet, y: sextet, z: sextet)
    ensures EncodeBlock(a, b, c) == [ALPHABET[w], ALPHABET[x], ALPHABET[y], ALPHABET[z]]
    ensures ((w * 64 + x) * 64 + y) * 64 + z == a * 65536 + b * 256 + c
  {
    w, x, y, z := a / 4, a % 4 * 16 + b / 16, b % 16 * 4 + c / 64, c % 64;
    hide SextetChar;
    SextetIsTableEntry(w);
    SextetIsTableEntry(x);
    SextetIsTableEntry(y);
    SextetIsTableEntry(z);
  }

  function CharSextet(c: char): Option<sextet> {
    if 'A' <= c <= 'Z' then Some((c - 'A') as int)
    else if 'a' <= c <= 'z' then Some((c - 'a') as int + 26)
    else if '0' <= c <= '9' then Some((c - '0') as int + 52)
    else if c == '+' then Some(62)
    else if c == '/' then Some(63)
    else None
  }

  function EncodeBlock(a: byte, b: byte, c: byte): (s: string)
    ensures |s| == 4 && s[3] != '='
  {
    [SextetChar(a / 4), SextetChar(a % 4 * 16 + b / 16), SextetChar(b % 16 * 4 + c / 64), SextetChar(c % 64)]
  }

  function Encode(bs: seq<byte>): string {
    if bs == [] then ""
    else if |bs| == 1 then EncodeBlock(bs[0], 0, 0)[..2] + "=="
    else if |bs| == 2 then EncodeBlock(bs[0], bs[1], 0)[..3] + "="
    else EncodeBlock(bs[0], bs[1], bs[2]) + Encode(bs[3..])
  }

  /** The one or two bytes of a padded final block whose unused bits are zero. */
  function DecodePadded(s: string): Option<seq<byte>>
    requires |s| == 4 && s[3] == '='
  {
    match (CharSextet(s[0]), CharSextet(s[1]), CharSextet(s[2]))
    case (Some(x), Some(y), Some(z)) =>
      if z % 4 == 0 then Some([(x as int) * 4 + y / 16, (y as int) % 16 * 16 + z / 4]) else None
    case (Some(x), Some(y), None) =>
      if s[2] == '=' && y % 16 == 0 then Some([(x as int) * 4 + y / 16]) else None
    case _ => None
  }

  function DecodeBlock(s: string): Option<seq<byte>>
    requires |s| == 4
  {
    match (CharSextet(s[0]), CharSextet(s[1]), CharSextet(s[2]), CharSextet(s[3]))
    case (Some(w), Some(x), Some(y), Some(z)) =>
      Some([(w as int) * 4 + x / 16, (x as int) % 16 * 16 + y / 4, (y as int) % 4 * 64 + z])
    case _ => None
  }

  function Decode(s: string): Option<seq<byte>> {
    if s == "" then Some([])
    else if |s| < 4 then None
    else if |s| == 4 && s[3] == '=' then DecodePadded(s)
    else
      match (DecodeBlock(s[..4]), Decode(s[4..]))
      case (Some(block), Some(rest)) => Some(block + rest)
      case _ => None
  }

  lemma SextetRoundTrip(x: sextet)
    ensures CharSextet(SextetChar(x)) == Some(x)
    ensures SextetChar(x) != '='
  {}

  lemma PadIsNoSextet()
    ensures CharSextet('=') == None
  {}

  lemma CharRoundTrip(c: char)
    requires CharSextet(c).Some?
    ensures SextetChar(CharSextet(c).value) == c
  {}

  /** Splitting three bytes into four sextets and joining them again. */
  lemma Regroup(a: byte, b: byte, c: byte)
    ensures var w, x, y, z := a / 4, a % 4 * 16 + b / 16, b % 16 * 4 + c / 64, c % 64;
            w * 4 + x / 16 == a && x % 16 * 16 + y / 4 == b && y % 4 * 64 + z == c
  {
    var x, y := a % 4 * 16 + b / 16, b % 16 * 4 + c / 64;
    assert x / 16 == a % 4 && x % 16 == b / 16;
    assert y / 4 == b % 16 && y % 4 == c / 64;
  }

  lemma BlockRoundTrip(a: byte, b: byte, c: byte)
    ensures DecodeBlock(EncodeBlock(a, b, c)) == Some([a, b, c])
  {
    hide SextetChar, CharSextet;
    SextetRoundTrip(a / 4);
    SextetRoundTrip(a % 4 * 16 + b / 16);
    SextetRoundTrip(b % 16 * 4 + c / 64);
    SextetRoundTrip(c % 64);
    Regroup(a, b, c);
  }

  lemma PaddedRoundTrip(a: byte, b: byte)
    ensures DecodePadded(EncodeBlock(a, 0, 0)[..2] + "==") == Some([a])
    ensures DecodePadded(EncodeBlock(a, b, 0)[..3] + "=") == Some([a, b])
  {
    hide SextetChar, CharSextet;
    PadIsNoSextet();
    SextetRoundTrip(a / 4);
    SextetRoundTrip(a % 4 * 16);
    SextetRoundTrip(a % 4 * 16 + b / 16);
    SextetRoundTrip(b % 16 * 4);
    var y, z := a % 4 * 16 + b / 16, b % 16 * 4;
    assert y / 16 == a % 4 && y % 16 == b / 16 && z / 4 == b % 16;
  }

  /** Every byte string is recovered from its encoding. */
  lemma {:induction false} DecodeEncode(bs: seq<byte>)
    ensures Decode(Encode(bs)) == Some(bs)
    decreases |bs|
  {
    hide EncodeBlock, DecodeBlock, DecodePadded;
    if |bs| == 1 {
      PaddedRoundTrip(bs[0], 0);
      assert bs == [bs[0]];
    } else if |bs| == 2 {
      PaddedRoundTrip(bs[0], bs[1]);
      assert bs == [bs[0], bs[1]];
    } else if |bs| > 2 {
      var block := EncodeBlock(bs[0], bs[1], bs[2]);
      BlockRoundTrip(bs[0], bs[1], bs[2]);
      DecodeEncode(bs[3..]);
      assert Encode(bs)[..4] == block && Encode(bs)[4..] == Encode(bs[3..]);
      assert bs == [bs[0], bs[1], bs[2]] + bs[3..];
    }
  }

  /** Joining four sextets into three bytes and splitting them again. */
  lemma Ungroup(w: sextet, x: sextet, y: sextet, z: sextet)
    ensures var a, b, c := (w as int) * 4 + x / 16, (x as int) % 16 * 16 + y / 4, (y as int) % 4 * 64 + z;
            a / 4 == w && a % 4 * 16 + b / 16 == x && b % 16 * 4 + c / 64 == y && c % 64 == z
  {
    var a, b, c := (w as int) * 4 + x / 16, (x as int) % 16 * 16 + y / 4, (y as int) % 4 * 64 + z;
    assert a / 4 == w && a % 4 == x / 16;
    assert b / 16 == x % 16 && b % 16 == y / 4;
    assert c / 64 == y % 4 && c % 64 == z;
  }

  lemma BlockInverse(s: string)
    requires |s| == 4 && DecodeBlock(s).Some?
    ensures var b := DecodeBlock(s).value; |b| == 3 && EncodeBlock(b[0], b[1], b[2]) == s
  {
    hide SextetChar, CharSextet;
    CharRoundTrip(s[0]);
    CharRoundTrip(s[1]);
    CharRoundTrip(s[2]);
    CharRoundTrip(s[3]);
    Ungroup(CharSextet(s[0]).value, CharSextet(s[1]).value, CharSextet(s[2]).value, CharSextet(s[3]).value);
    assert s == [s[0], s[1], s[2], s[3]];
  }

  lemma PaddedInverse(s: string)
    requires |s| == 4 && s[3] == '=' && DecodePadded(s).Some?
    ensures Encode(DecodePadded(s).value) == s
  {
    hide SextetChar, CharSextet;
    var x, y := CharSextet(s[0]).value, CharSextet(s[1]).value;
    CharRoundTrip(s[0]);
    CharRoundTrip(s[1]);
    var a := x as int * 4 + y / 16;
    assert a / 4 == x && a % 4 == y / 16;
    if CharSextet(s[2]).Some? {
      var z := CharSextet(s[2]).value;
      CharRoundTrip(s[2]);
      var b := (y as int) % 16 * 16 + z / 4;
      assert b / 16 == y % 16 && b % 16 == z / 4;
      assert Encode([a, b]) == [s[0], s[1], s[2], '='];
    } else {
      assert Encode([a]) == [s[0], s[1], '=', '='];
    }
  }

  /** Only canonical encodings decode: decoding is the exact inverse of encoding. */
  lemma {:induction false} EncodeDecode(s: string)
    requires Decode(s).Some?
    ensures Encode(Decode(s).value) == s
    decreases |s|
  {
    hide EncodeBlock, DecodeBlock, DecodePadded;
    if s != "" {
      if |s| == 4 && s[3] == '=' {
        PaddedInverse(s);
      } else {
        var block, rest := DecodeBlock(s[..4]).value, Decode(s[4..]).value;
        BlockInverse(s[..4]);
        EncodeDecode(s[4..]);
        assert (block + rest)[3..] == rest;
        assert s == s[..4] + s[4..];
      }
    }
  }

  lemma {:induction false} EncodeLength(bs: seq<byte>)
    ensures |Encode(bs)| == (|bs| + 2) / 3 * 4
    decreases |bs|
  {
    hide EncodeBlock;
    if |bs| > 2 {
      EncodeLength(bs[3..]);
    }
  }

  /** Encoding splits at any multiple of three bytes. */
  lemma {:induction false} EncodeAppend(a: seq<byte>, b: seq<byte>)
    requires |a| % 3 == 0
    ensures Encode(a + b) == Encode(a) + Encode(b)
    decreases |a|
  {
    hide EncodeBlock;
    if a == [] {
      assert a + b == b;
    } else {
      var head, tail := EncodeBlock(a[0], a[1], a[2]), Encode(a[3..]);
      assert Encode(a) == head + tail;
      assert Encode(a + b) == head + Encode((a + b)[3..]);
      assert (a + b)[3..] == a[3..] + b;
      EncodeAppend(a[3..], b);
      assert head + (tail + Encode(b)) == head + tail + Encode(b);
    }
  }

  lemma {:induction false} DecodableLength(s: string)
    requires Decode(s).Some?
    ensures |s| % 4 == 0
    decreases |s|
  {
    hide DecodeBlock, DecodePadded;
    if s != "" && !(|s| == 4 && s[3] == '=') {
      DecodableLength(s[4..]);
    }
  }
}
