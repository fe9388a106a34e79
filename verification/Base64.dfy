/** The standard encoding of `encoding/base64`: section 4 of RFC 4648, with padding. */
module Base64 {
  import opened Text

  type Byte = x: int | 0 <= x < 256

  function SextetChar(v: int): char
    requires 0 <= v < 64
  {
    if v < 26 then 'A' + v as char
    else if v < 52 then 'a' + (v - 26) as char
    else if v < 62 then '0' + (v - 52) as char
    else if v == 62 then '+' else '/'
  }

  function SextetOf(c: char): (v: int)
    ensures -1 <= v < 64
  {
    if 'A' <= c <= 'Z' then (c - 'A') as int
    else if 'a' <= c <= 'z' then (c - 'a') as int + 26
    else if '0' <= c <= '9' then (c - '0') as int + 52
    else if c == '+' then 62
    else if c == '/' then 63
    else -1
  }

  function Encode(d: seq<Byte>): string {
    if |d| == 0 then ""
    else if |d| == 1 then [SextetChar(d[0] / 4), SextetChar(d[0] % 4 * 16), '=', '=']
    else if |d| == 2 then
      [SextetChar(d[0] / 4), SextetChar(d[0] % 4 * 16 + d[1] / 16), SextetChar(d[1] % 16 * 4), '=']
    else
      [SextetChar(d[0] / 4), SextetChar(d[0] % 4 * 16 + d[1] / 16),
       SextetChar(d[1] % 16 * 4 + d[2] / 64), SextetChar(d[2] % 64)] + Encode(d[3..])
  }

  /** `DecodeString`; bits beyond the last whole byte are ignored, as Go's non-strict decoder does. */
  function Decode(s: string): Option<seq<Byte>> {
    if s == "" then Some([])
    else if |s| < 4 then None
    else
      var a, b, c, d := SextetOf(s[0]), SextetOf(s[1]), SextetOf(s[2]), SextetOf(s[3]);
      if a < 0 || b < 0 then None
      else if s[2] == '=' then (if s[3] == '=' && |s| == 4 then Some([a * 4 + b / 16]) else None)
      else if c < 0 then None
      else if s[3] == '=' then (if |s| == 4 then Some([a * 4 + b / 16, b % 16 * 16 + c / 4]) else None)
      else if d < 0 then None
      else
        match Decode(s[4..])
        case None => None
        case Some(rest) => Some([a * 4 + b / 16, b % 16 * 16 + c / 4, c % 4 * 64 + d] + rest)
  }

  lemma {:induction false} SextetRoundTrip(v: int)
    requires 0 <= v < 64
    ensures SextetOf(SextetChar(v)) == v && SextetChar(v) != '='
  {
  }

  /** The bits of three bytes, cut into sextets and put together again. */
  lemma {:induction false} SextetsOfBytes(x: Byte, y: Byte, z: Byte)
    ensures var a, b, c, d := x / 4, x % 4 * 16 + y / 16, y % 16 * 4 + z / 64, z % 64;
            && 0 <= a < 64 && 0 <= b < 64 && 0 <= c < 64 && 0 <= d < 64
            && a * 4 + b / 16 == x && b % 16 * 16 + c / 4 == y && c % 4 * 64 + d == z
  {
  }

  lemma {:induction false} DecodeQuad(x: Byte, y: Byte, z: Byte, t: string)
    ensures var q := [SextetChar(x / 4), SextetChar(x % 4 * 16 + y / 16),
                      SextetChar(y % 16 * 4 + z / 64), SextetChar(z % 64)];
            Decode(q + t) == match Decode(t) case None => None case Some(rest) => Some([x, y, z] + rest)
  {
    SextetsOfBytes(x, y, z);
    SextetRoundTrip(x / 4);
    SextetRoundTrip(x % 4 * 16 + y / 16);
    SextetRoundTrip(y % 16 * 4 + z / 64);
    SextetRoundTrip(z % 64);
    var q := [SextetChar(x / 4), SextetChar(x % 4 * 16 + y / 16), SextetChar(y % 16 * 4 + z / 64), SextetChar(z % 64)];
    assert (q + t)[4..] == t;
  }

  lemma {:induction false} DecodeTail(x: Byte, y: Byte)
    ensures Decode([SextetChar(x / 4), SextetChar(x % 4 * 16 + y / 16), SextetChar(y % 16 * 4), '=']) == Some([x, y])
    ensures Decode([SextetChar(x / 4), SextetChar(x % 4 * 16), '=', '=']) == Some([x])
  {
    SextetsOfBytes(x, y, 0);
    SextetsOfBytes(x, 0, 0);
    SextetRoundTrip(x / 4);
    SextetRoundTrip(x % 4 * 16);
    SextetRoundTrip(x % 4 * 16 + y / 16);
    SextetRoundTrip(y % 16 * 4);
  }

  lemma {:induction false} DecodeEncodeEnd(d: seq<Byte>)
    requires |d| <= 2
    ensures Decode(Encode(d)) == Some(d)
  {
    if |d| == 1 {
      DecodeTail(d[0], 0);
      assert [d[0]] == d;
    } else if |d| == 2 {
      DecodeTail(d[0], d[1]);
      assert [d[0], d[1]] == d;
    }
  }

  lemma {:induction false} DecodeEncode(d: seq<Byte>)
    ensures Decode(Encode(d)) == Some(d)
  {
    if |d| <= 2 {
      DecodeEncodeEnd(d);
    } else {
      DecodeQuad(d[0], d[1], d[2], Encode(d[3..]));
      DecodeEncode(d[3..]);
      assert [d[0], d[1], d[2]] + d[3..] == d;
    }
  }

  /** The characters of encoded text. */
  predicate IsBase64(c: char) {
    SextetOf(c) >= 0 || c == '='
  }

  /** Padding stands at the end, and never right after a `b` unless it is the last character. */
  predicate PaddedWell(e: string) {
    && (forall i :: 0 <= i < |e| ==> IsBase64(e[i]))
    && (forall i :: 0 <= i < |e| - 1 && e[i + 1] == '=' && i + 1 < |e| - 1 ==> e[i] != 'b')
  }

  lemma {:induction false} EncodedIsPaddedWell(d: seq<Byte>)
    ensures PaddedWell(Encode(d)) && (Encode(d) != "" ==> Encode(d)[0] != '=')
  {
    if |d| > 2 {
      var e, rest := Encode(d), Encode(d[3..]);
      EncodedIsPaddedWell(d[3..]);
      SextetRoundTrip(d[0] / 4);
      SextetRoundTrip(d[0] % 4 * 16 + d[1] / 16);
      SextetRoundTrip(d[1] % 16 * 4 + d[2] / 64);
      SextetRoundTrip(d[2] % 64);
      assert rest != "" ==> e[4] == rest[0];
      forall i | 0 <= i < |e| ensures IsBase64(e[i]) {
        assert i >= 4 ==> e[i] == rest[i - 4];
      }
      forall i | 0 <= i < |e| - 1 && e[i + 1] == '=' && i + 1 < |e| - 1 ensures e[i] != 'b' {
        assert i >= 4 ==> e[i] == rest[i - 4] && e[i + 1] == rest[i - 3];
      }
    } else if |d| == 2 {
      SextetRoundTrip(d[0] / 4);
      SextetRoundTrip(d[0] % 4 * 16 + d[1] / 16);
      SextetRoundTrip(d[1] % 16 * 4);
    } else if |d| == 1 {
      SextetRoundTrip(d[0] / 4);
      SextetRoundTrip(d[0] % 4 * 16);
      assert SextetOf('b') == 27;
    }
  }

  // ----- the alphabet

  const UPPER := "ABCDEFGHIJKLMNOPQRSTUVWXYZ"
  const LOWER := "abcdefghijklmnopqrstuvwxyz"
  const OTHERS := "0123456789+/"

  function Letter(v: int): char
    requires 0 <= v < 64
  {
    if v < 26 then UPPER[v] else if v < 52 then LOWER[v - 26] else OTHERS[v - 52]
  }

  lemma {:induction false} UpperLetter(v: int)
    requires 0 <= v < 26
    ensures SextetChar(v) == UPPER[v]
  {
  }

  lemma {:induction false} LowerLetter(v: int)
    requires 26 <= v < 52
    ensures SextetChar(v) == LOWER[v - 26]
  {
  }

  lemma {:induction false} SextetIs(v: int)
    requires 0 <= v < 64
    ensures SextetChar(v) == Letter(v)
  {
    if v < 26 {
      UpperLetter(v);
    } else if v < 52 {
      LowerLetter(v);
    }
  }

  /** Three bytes are four letters of the alphabet of section 4 of RFC 4648, six bits each. */
  lemma {:induction false} EncodeThree(x: Byte, y: Byte, z: Byte, rest: seq<Byte>)
    ensures Encode([x, y, z] + rest)
         == [Letter(x / 4), Letter(x % 4 * 16 + y / 16), Letter(y % 16 * 4 + z / 64), Letter(z % 64)]
            + Encode(rest)
  {
    SextetsOfBytes(x, y, z);
    SextetIs(x / 4);
    SextetIs(x % 4 * 16 + y / 16);
    SextetIs(y % 16 * 4 + z / 64);
    SextetIs(z % 64);
    EncodeSextets(x, y, z, rest);
  }

  lemma {:induction false} EncodeSextets(x: Byte, y: Byte, z: Byte, rest: seq<Byte>)
    ensures Encode([x, y, z] + rest)
         == [SextetChar(x / 4), SextetChar(x % 4 * 16 + y / 16), SextetChar(y % 16 * 4 + z / 64), SextetChar(z % 64)]
            + Encode(rest)
  {
    assert ([x, y, z] + rest)[3..] == rest;
  }

  // ----- which texts decode

  /** Whole groups of four letters, with `n` padding characters at the end. */
  predicate Padded(s: string, n: nat) {
    && |s| % 4 == 0 && n <= 2 && n <= |s|
    && (forall i :: 0 <= i < |s| - n ==> SextetOf(s[i]) >= 0)
    && (forall i :: |s| - n <= i < |s| ==> s[i] == '=')
  }

  predicate PaddedSomehow(s: string) {
    Padded(s, 0) || Padded(s, 1) || Padded(s, 2)
  }

  lemma {:induction false} PaddedTail(s: string, n: nat)
    requires |s| > 4
    ensures Padded(s, n)
            <==> SextetOf(s[0]) >= 0 && SextetOf(s[1]) >= 0 && SextetOf(s[2]) >= 0 && SextetOf(s[3]) >= 0
                 && Padded(s[4..], n)
  {
    var t := s[4..];
    if Padded(s, n) {
      assert |s| >= 8;
      assert forall i :: 0 <= i < |t| ==> t[i] == s[i + 4];
    }
    if SextetOf(s[0]) >= 0 && SextetOf(s[1]) >= 0 && SextetOf(s[2]) >= 0 && SextetOf(s[3]) >= 0 && Padded(t, n) {
      forall i | 0 <= i < |s| - n ensures SextetOf(s[i]) >= 0 {
        assert i >= 4 ==> s[i] == t[i - 4];
      }
      forall i | |s| - n <= i < |s| ensures s[i] == '=' {
        assert s[i] == t[i - 4];
      }
    }
  }

  lemma {:induction false} OneGroup(s: string)
    requires |s| <= 4
    ensures Decode(s).Some? <==> PaddedSomehow(s)
  {
    if |s| == 4 {
      assert s[4..] == "" && SextetOf('=') < 0;
    }
  }

  lemma {:induction false} FirstGroup(s: string)
    requires |s| > 4
    ensures Decode(s).Some?
            <==> SextetOf(s[0]) >= 0 && SextetOf(s[1]) >= 0 && SextetOf(s[2]) >= 0 && SextetOf(s[3]) >= 0
                 && Decode(s[4..]).Some?
  {
  }

  /** Exactly the padded texts decode. */
  lemma {:induction false} DecodesExactly(s: string)
    ensures Decode(s).Some? <==> PaddedSomehow(s)
    decreases |s|
  {
    if |s| <= 4 {
      OneGroup(s);
    } else {
      FirstGroup(s);
      DecodesExactly(s[4..]);
      PaddedTail(s, 0);
      PaddedTail(s, 1);
      PaddedTail(s, 2);
    }
  }
}
