/** UTF-8 decoding and the base64 codec the attestation reader applies to payload strings. */
module Encodings {
  import opened PyText

  type Byte = n: int | 0 <= n < 256

  // ---------------------------------------------------------------- UTF-8

  predicate Continues(bytes: seq<Byte>, i: nat) {
    i < |bytes| && 0x80 <= bytes[i] < 0xc0
  }

  predicate IsScalar(n: int) {
    0 <= n < 0xd800 || 0xe000 <= n < 0x110000
  }

  /** `bytes.decode("utf-8")`; None is a UnicodeDecodeError. Overlong forms and surrogates are errors. */
  function DecodeUtf8(bytes: seq<Byte>): (r: Option<string>)
    ensures r.Some? ==> |r.value| <= |bytes|
  {
    if bytes == [] then Some([])
    else if bytes[0] < 0x80 then
      Prepend(bytes[0], DecodeUtf8(bytes[1..]))
    else if 0xc2 <= bytes[0] < 0xe0 && Continues(bytes, 1) then
      Prepend((bytes[0] as int - 0xc0) * 64 + (bytes[1] as int - 0x80), DecodeUtf8(bytes[2..]))
    else if 0xe0 <= bytes[0] < 0xf0 && Continues(bytes, 1) && Continues(bytes, 2) then
      var n := (bytes[0] as int - 0xe0) * 4096 + (bytes[1] as int - 0x80) * 64 + (bytes[2] as int - 0x80);
      if n >= 0x800 && IsScalar(n) then Prepend(n, DecodeUtf8(bytes[3..])) else None
    else if 0xf0 <= bytes[0] < 0xf5 && Continues(bytes, 1) && Continues(bytes, 2) && Continues(bytes, 3) then
      var n := (bytes[0] as int - 0xf0) * 262144 + (bytes[1] as int - 0x80) * 4096 + (bytes[2] as int - 0x80) * 64 + (bytes[3] as int - 0x80);
      if n >= 0x10000 && IsScalar(n) then Prepend(n, DecodeUtf8(bytes[4..])) else None
    else None
  }

  function Prepend(n: int, rest: Option<string>): (r: Option<string>)
    requires IsScalar(n)
    ensures r.Some? <==> rest.Some?
    ensures r.Some? ==> |r.value| == |rest.value| + 1
  {
    if rest.None? then None else Some([n as char] + rest.value)
  }

  /** The shortest form of a character, as section 3 of RFC 3629 tables it. */
  function Utf8(c: char): seq<Byte> {
    var n := c as int;
    if n < 0x80 then [n]
    else if n < 0x800 then [0xc0 + n / 64, 0x80 + n % 64]
    else if n < 0x10000 then [0xe0 + n / 64 / 64, 0x80 + n / 64 % 64, 0x80 + n % 64]
    else [0xf0 + n / 64 / 64 / 64, 0x80 + n / 64 / 64 % 64, 0x80 + n / 64 % 64, 0x80 + n % 64]
  }

  function EncodeUtf8(s: string): seq<Byte> {
    if s == [] then [] else Utf8(s[0]) + EncodeUtf8(s[1..])
  }

  lemma Split64(n: nat)
    ensures n == n / 64 * 64 + n % 64 && 0 <= n % 64 < 64
  {
  }

  lemma Join64(q: nat, r: nat)
    requires r < 64
    ensures (q * 64 + r) / 64 == q && (q * 64 + r) % 64 == r
  {
  }

  /** What the decoder makes of a first group of two, three or four bytes. */
  lemma TwoBytes(a: Byte, b: Byte, rest: seq<Byte>)
    requires 0xc2 <= a < 0xe0 && 0x80 <= b < 0xc0
    ensures DecodeUtf8([a, b] + rest) == Prepend((a - 0xc0) * 64 + (b - 0x80), DecodeUtf8(rest))
  {
    var all := [a, b] + rest;
    assert all[2..] == rest && all[0] == a && all[1] == b;
  }

  lemma ThreeBytes(a: Byte, b: Byte, c: Byte, rest: seq<Byte>)
    requires 0xe0 <= a < 0xf0 && 0x80 <= b < 0xc0 && 0x80 <= c < 0xc0
    ensures var n := (a - 0xe0) * 4096 + (b - 0x80) * 64 + (c - 0x80);
            DecodeUtf8([a, b, c] + rest) == if n >= 0x800 && IsScalar(n) then Prepend(n, DecodeUtf8(rest)) else None
  {
    var all := [a, b, c] + rest;
    assert all[3..] == rest && all[0] == a && all[1] == b && all[2] == c;
  }

  lemma FourBytes(a: Byte, b: Byte, c: Byte, d: Byte, rest: seq<Byte>)
    requires 0xf0 <= a < 0xf5 && 0x80 <= b < 0xc0 && 0x80 <= c < 0xc0 && 0x80 <= d < 0xc0
    ensures var n := (a - 0xf0) * 262144 + (b - 0x80) * 4096 + (c - 0x80) * 64 + (d - 0x80);
            DecodeUtf8([a, b, c, d] + rest) == if n >= 0x10000 && IsScalar(n) then Prepend(n, DecodeUtf8(rest)) else None
  {
    var all := [a, b, c, d] + rest;
    assert all[4..] == rest && all[0] == a && all[1] == b && all[2] == c && all[3] == d;
  }

  lemma OneByte(a: Byte, rest: seq<Byte>)
    requires a < 0x80
    ensures DecodeUtf8([a] + rest) == Prepend(a, DecodeUtf8(rest))
  {
    assert ([a] + rest)[1..] == rest;
  }

  lemma DecodesOne(c: char, rest: seq<Byte>)
    ensures DecodeUtf8(Utf8(c) + rest) == Prepend(c as int, DecodeUtf8(rest))
  {
    hide DecodeUtf8, Prepend;
    var n := c as int;
    Split64(n);
    Split64(n / 64);
    Split64(n / 64 / 64);
    if n < 0x80 {
      OneByte(n, rest);
    } else if n < 0x800 {
      TwoBytes(0xc0 + n / 64, 0x80 + n % 64, rest);
    } else if n < 0x10000 {
      ThreeBytes(0xe0 + n / 64 / 64, 0x80 + n / 64 % 64, 0x80 + n % 64, rest);
    } else {
      FourBytes(0xf0 + n / 64 / 64 / 64, 0x80 + n / 64 / 64 % 64, 0x80 + n / 64 % 64, 0x80 + n % 64, rest);
    }
  }

  /** The bytes start with the form of `s[0]`, and the rest decodes to the rest. */
  ghost predicate StartsWithForm(b: seq<Byte>, s: string, k: nat) {
    k <= |b| && s != [] && Utf8(s[0]) == b[..k] && DecodeUtf8(b[k..]) == Some(s[1..])
  }

  lemma PrependIs(n: int, rest: Option<string>, s: string)
    requires IsScalar(n) && Prepend(n, rest) == Some(s)
    ensures s != [] && s[0] as int == n && rest == Some(s[1..])
  {
  }

  lemma ShortStart(b: seq<Byte>, s: string)
    requires b != [] && b[0] < 0xe0 && DecodeUtf8(b) == Some(s)
    ensures exists k: nat :: k > 0 && StartsWithForm(b, s, k)
  {
    if b[0] < 0x80 {
      PrependIs(b[0], DecodeUtf8(b[1..]), s);
      assert StartsWithForm(b, s, 1);
    } else {
      var q: int, r: int := b[0] - 0xc0, b[1] - 0x80;
      Join64(q, r);
      PrependIs(q * 64 + r, DecodeUtf8(b[2..]), s);
      hide DecodeUtf8;
      assert StartsWithForm(b, s, 2);
    }
  }

  lemma FourForm(q: nat, r: nat, t: nat, u: nat, n: int)
    requires q < 5 && r < 64 && t < 64 && u < 64 && n == ((q * 64 + r) * 64 + t) * 64 + u && n >= 0x10000 && IsScalar(n)
    ensures Utf8(n as char) == [0xf0 + q, 0x80 + r, 0x80 + t, 0x80 + u]
  {
    Join64(q, r);
    Join64(q * 64 + r, t);
    Join64((q * 64 + r) * 64 + t, u);
  }

  lemma ThreeForm(q: nat, r: nat, t: nat, n: int)
    requires q < 16 && r < 64 && t < 64 && n == (q * 64 + r) * 64 + t && 0x800 <= n && IsScalar(n)
    ensures Utf8(n as char) == [0xe0 + q, 0x80 + r, 0x80 + t]
  {
    Join64(q, r);
    Join64(q * 64 + r, t);
  }

  lemma ThreeStart(b: seq<Byte>, s: string)
    requires b != [] && 0xe0 <= b[0] < 0xf0 && DecodeUtf8(b) == Some(s)
    ensures exists k: nat :: k > 0 && StartsWithForm(b, s, k)
  {
    hide Utf8;
    var n := (b[0] as int - 0xe0) * 4096 + (b[1] as int - 0x80) * 64 + (b[2] as int - 0x80);
    PrependIs(n, DecodeUtf8(b[3..]), s);
    ThreeForm(b[0] - 0xe0, b[1] - 0x80, b[2] - 0x80, n);
    assert StartsWithForm(b, s, 3);
  }

  lemma FourStart(b: seq<Byte>, s: string)
    requires b != [] && 0xf0 <= b[0] && DecodeUtf8(b) == Some(s)
    ensures exists k: nat :: k > 0 && StartsWithForm(b, s, k)
  {
    hide Utf8;
    var n := (b[0] as int - 0xf0) * 262144 + (b[1] as int - 0x80) * 4096 + (b[2] as int - 0x80) * 64 + (b[3] as int - 0x80);
    PrependIs(n, DecodeUtf8(b[4..]), s);
    FourForm(b[0] - 0xf0, b[1] - 0x80, b[2] - 0x80, b[3] - 0x80, n);
    assert StartsWithForm(b, s, 4);
  }

  lemma StartIsForm(b: seq<Byte>, s: string) returns (k: nat)
    requires b != [] && DecodeUtf8(b) == Some(s)
    ensures k > 0 && StartsWithForm(b, s, k)
  {
    hide StartsWithForm, DecodeUtf8;
    if b[0] < 0xe0 {
      ShortStart(b, s);
    } else if b[0] < 0xf0 {
      ThreeStart(b, s);
    } else {
      FourStart(b, s);
    }
    k :| k > 0 && StartsWithForm(b, s, k);
  }

  /** Bytes decode to a text exactly if they are the shortest forms of its characters, one after another. */
  lemma {:induction false} Utf8Means(b: seq<Byte>, s: string)
    ensures DecodeUtf8(b) == Some(s) <==> b == EncodeUtf8(s)
  {
    if DecodeUtf8(b) == Some(s) {
      DecodedIsEncoded(b, s);
    }
    if b == EncodeUtf8(s) {
      EncodedIsDecoded(s);
    }
  }

  lemma {:induction false} DecodedIsEncoded(b: seq<Byte>, s: string)
    requires DecodeUtf8(b) == Some(s)
    ensures b == EncodeUtf8(s)
    decreases |b|
  {
    if b != [] {
      var k := StartIsForm(b, s);
      hide DecodeUtf8, Utf8;
      DecodedIsEncoded(b[k..], s[1..]);
      assert b == b[..k] + b[k..];
    }
  }

  lemma {:induction false} EncodedIsDecoded(s: string)
    ensures DecodeUtf8(EncodeUtf8(s)) == Some(s)
  {
    hide Utf8;
    if s != [] {
      EncodedIsDecoded(s[1..]);
      DecodesOne(s[0], EncodeUtf8(s[1..]));
      assert s == [s[0]] + s[1..];
    }
  }

  predicate IsAscii(s: string) {
    forall i :: 0 <= i < |s| ==> s[i] as int < 128
  }

  /** The bytes of an ASCII text. */
  function AsciiBytes(s: string): (b: seq<Byte>)
    requires IsAscii(s)
    ensures |b| == |s|
  {
    if s == [] then [] else [s[0] as int] + AsciiBytes(s[1..])
  }

  lemma {:induction false} AsciiRoundTrip(s: string)
    requires IsAscii(s)
    ensures DecodeUtf8(AsciiBytes(s)) == Some(s)
  {
    if s != [] {
      AsciiRoundTrip(s[1..]);
      assert AsciiBytes(s)[1..] == AsciiBytes(s[1..]);
      assert s == [s[0]] + s[1..];
    }
  }

  // ---------------------------------------------------------------- base64

  /** The value of a character of the alphabet (RFC 4648, section 4); None for any other character. */
  function Sextet(c: char): (r: Option<nat>)
    ensures r.Some? ==> r.value < 64
  {
    if 'A' <= c <= 'Z' then Some(c as int - 'A' as int)
    else if 'a' <= c <= 'z' then Some(c as int - 'a' as int + 26)
    else if '0' <= c <= '9' then Some(c as int - '0' as int + 52)
    else if c == '+' then Some(62)
    else if c == '/' then Some(63)
    else None
  }

  function Letter(n: nat): (c: char)
    requires n < 64
    ensures Sextet(c) == Some(n) && c as int < 128
  {
    if n < 26 then ('A' as int + n) as char
    else if n < 52 then ('a' as int + (n - 26)) as char
    else if n < 62 then ('0' as int + (n - 52)) as char
    else if n == 62 then '+'
    else '/'
  }

  /** The lenient decoder. `quad` data characters of the current group were read, `left` holds their unused bits and
      `pads` counts the padding seen since. Characters outside the alphabet are skipped (RFC 4648, section 3.3). */
  function Decode(s: string, quad: nat, left: nat, pads: nat): (r: Option<seq<Byte>>)
    requires quad < 4 && left < 64 && (quad == 2 ==> left < 16) && (quad == 3 ==> left < 4)
    ensures r.Some? ==> |r.value| <= |s|
    decreases |s|
  {
    if s == [] then
      if quad == 0 then Some([]) else None
    else if s[0] == '=' then
      if quad >= 2 && quad + pads + 1 >= 4 then Some([])
      else Decode(s[1..], quad, left, if quad >= 2 then pads + 1 else pads)
    else
      match Sextet(s[0])
      case None => Decode(s[1..], quad, left, pads)
      case Some(n) =>
        if quad == 0 then Decode(s[1..], 1, n, 0)
        else
          var byte := if quad == 1 then left * 4 + n / 16 else if quad == 2 then left * 16 + n / 4 else left * 64 + n;
          Emit(byte, Decode(s[1..], (quad + 1) % 4, if quad == 1 then n % 16 else if quad == 2 then n % 4 else 0, 0))
  }

  function Emit(byte: Byte, rest: Option<seq<Byte>>): (r: Option<seq<Byte>>)
    ensures r.Some? <==> rest.Some?
    ensures r.Some? ==> |r.value| == |rest.value| + 1
  {
    if rest.None? then None else Some([byte] + rest.value)
  }

  /** `base64.b64decode(s, validate=False)`; None is the ValueError it raises. */
  function DecodeBase64(s: string): (r: Option<seq<Byte>>)
    ensures r.Some? ==> |r.value| <= |s| && forall c :: c in s ==> c as int < 128
  {
    if IsAscii(s) then Decode(s, 0, 0, 0) else None
  }

  function EncodeGroup(x: Byte, y: Byte, z: Byte, rest: string): (s: string)
    requires IsAscii(rest)
    ensures IsAscii(s)
  {
    [Letter(x / 4)] + ([Letter(x % 4 * 16 + y / 16)] + ([Letter(y % 16 * 4 + z / 64)] + ([Letter(z % 64)] + rest)))
  }

  function EncodeBase64(b: seq<Byte>): (s: string)
    ensures IsAscii(s)
  {
    if |b| == 0 then []
    else if |b| == 1 then [Letter(b[0] / 4), Letter(b[0] % 4 * 16), '=', '=']
    else if |b| == 2 then [Letter(b[0] / 4), Letter(b[0] % 4 * 16 + b[1] / 16), Letter(b[1] % 16 * 4), '=']
    else
      EncodeGroup(b[0], b[1], b[2], EncodeBase64(b[3..]))
  }

  lemma FirstLetter(n: nat, rest: string)
    requires n < 64
    ensures Decode([Letter(n)] + rest, 0, 0, 0) == Decode(rest, 1, n, 0)
  {
    var s := [Letter(n)] + rest;
    assert s[1..] == rest && Sextet(s[0]) == Some(n) && s[0] != '=';
    hide Letter, Sextet;
  }

  lemma SecondLetter(n: nat, rest: string, left: nat)
    requires n < 64 && left < 64
    ensures Decode([Letter(n)] + rest, 1, left, 0) == Emit(left * 4 + n / 16, Decode(rest, 2, n % 16, 0))
  {
    var s := [Letter(n)] + rest;
    assert s[1..] == rest && Sextet(s[0]) == Some(n) && s[0] != '=';
    hide Letter, Sextet;
  }

  lemma ThirdLetter(n: nat, rest: string, left: nat)
    requires n < 64 && left < 16
    ensures Decode([Letter(n)] + rest, 2, left, 0) == Emit(left * 16 + n / 4, Decode(rest, 3, n % 4, 0))
  {
    var s := [Letter(n)] + rest;
    assert s[1..] == rest && Sextet(s[0]) == Some(n) && s[0] != '=';
    hide Letter, Sextet;
  }

  lemma FourthLetter(n: nat, rest: string, left: nat)
    requires n < 64 && left < 4
    ensures Decode([Letter(n)] + rest, 3, left, 0) == Emit(left * 64 + n, Decode(rest, 0, 0, 0))
  {
    var s := [Letter(n)] + rest;
    assert s[1..] == rest && Sextet(s[0]) == Some(n) && s[0] != '=';
    hide Letter, Sextet;
  }

  /** Decoding inverts encoding. */
  lemma Base64RoundTrip(b: seq<Byte>)
    ensures DecodeBase64(EncodeBase64(b)) == Some(b)
  {
    DecodeEncoded(b);
  }

  lemma {:induction false} DecodeEncoded(b: seq<Byte>)
    ensures Decode(EncodeBase64(b), 0, 0, 0) == Some(b)
  {
    hide Decode, EncodeBase64, EncodeGroup, Letter;
    if |b| == 0 {
      DecodeNothing();
      assert b == [];
    } else if |b| == 1 {
      DecodeOne(b[0]);
      assert b == [b[0]];
    } else if |b| == 2 {
      DecodeTwo(b[0], b[1]);
      assert b == [b[0], b[1]];
    } else {
      var more := EncodeBase64(b[3..]);
      DecodeEncoded(b[3..]);
      EncodeFirstGroup(b);
      DecodeGroup(b[0], b[1], b[2], more);
      assert b == [b[0]] + ([b[1]] + ([b[2]] + b[3..]));
    }
  }

  lemma DecodeNothing()
    ensures Decode(EncodeBase64([]), 0, 0, 0) == Some([])
  {
  }

  lemma EncodeFirstGroup(b: seq<Byte>)
    requires |b| >= 3
    ensures EncodeBase64(b) == EncodeGroup(b[0], b[1], b[2], EncodeBase64(b[3..]))
  {
  }

  lemma DecodeOne(x: Byte)
    ensures Decode(EncodeBase64([x]), 0, 0, 0) == Some([x])
  {
    hide Letter, Decode;
    var c1 := x % 4 * 16;
    assert EncodeBase64([x]) == [Letter(x / 4)] + ([Letter(c1)] + "==");
    FirstLetter(x / 4, [Letter(c1)] + "==");
    SecondLetter(c1, "==", x / 4);
    DecodePads(c1 % 16);
    assert x / 4 * 4 + c1 / 16 == x && [x] + [] == [x];
  }

  lemma DecodeTwo(x: Byte, y: Byte)
    ensures Decode(EncodeBase64([x, y]), 0, 0, 0) == Some([x, y])
  {
    hide Letter, Decode;
    var c1, c2 := x % 4 * 16 + y / 16, y % 16 * 4;
    assert EncodeBase64([x, y]) == [Letter(x / 4)] + ([Letter(c1)] + ([Letter(c2)] + "="));
    FirstLetter(x / 4, [Letter(c1)] + ([Letter(c2)] + "="));
    SecondLetter(c1, [Letter(c2)] + "=", x / 4);
    ThirdLetter(c2, "=", c1 % 16);
    DecodePads(c2 % 4);
    GroupBits(x, y, 0);
    assert [x] + ([y] + []) == [x, y];
  }

  lemma GroupBits(x: Byte, y: Byte, z: Byte)
    ensures x / 4 * 4 + (x % 4 * 16 + y / 16) / 16 == x
    ensures (x % 4 * 16 + y / 16) % 16 * 16 + (y % 16 * 4 + z / 64) / 4 == y
    ensures (y % 16 * 4 + z / 64) % 4 * 64 + z % 64 == z
  {
  }

  lemma DecodeGroup(x: Byte, y: Byte, z: Byte, rest: string)
    requires IsAscii(rest)
    ensures Decode(EncodeGroup(x, y, z, rest), 0, 0, 0) == Emit(x, Emit(y, Emit(z, Decode(rest, 0, 0, 0))))
  {
    hide Letter, Decode, Emit;
    var c0, c1, c2, c3 := x / 4, x % 4 * 16 + y / 16, y % 16 * 4 + z / 64, z % 64;
    var r3 := [Letter(c3)] + rest;
    var r2 := [Letter(c2)] + r3;
    var r1 := [Letter(c1)] + r2;
    FirstLetter(c0, r1);
    SecondLetter(c1, r2, c0);
    ThirdLetter(c2, r3, c1 % 16);
    FourthLetter(c3, rest, c2 % 4);
    GroupBits(x, y, z);
  }

  lemma DecodePads(left: nat)
    requires left < 16
    ensures Decode("==", 2, left, 0) == Some([])
    ensures left < 4 ==> Decode("=", 3, left, 0) == Some([])
  {
    assert "=="[1..] == "=";
  }

  /** The sixty-four characters of section 4 of RFC 4648. */
  predicate InAlphabet(c: char) {
    'A' <= c <= 'Z' || 'a' <= c <= 'z' || '0' <= c <= '9' || c == '+' || c == '/'
  }

  predicate IsJunk(c: char) {
    c != '=' && !InAlphabet(c)
  }

  /** The characters of `s` that mean something to the decoder. */
  function WithoutJunk(s: string): string {
    if s == [] then [] else (if IsJunk(s[0]) then [] else [s[0]]) + WithoutJunk(s[1..])
  }

  lemma {:induction false} WithoutJunkIsAscii(s: string)
    requires IsAscii(s)
    ensures IsAscii(WithoutJunk(s))
  {
    if s != [] {
      WithoutJunkIsAscii(s[1..]);
    }
  }

  lemma JunkHasNoSextet(c: char)
    ensures IsJunk(c) <==> c != '=' && Sextet(c).None?
  {
  }

  lemma {:induction false} DecodeSkipsJunk(s: string, quad: nat, left: nat, pads: nat)
    requires quad < 4 && left < 64 && (quad == 2 ==> left < 16) && (quad == 3 ==> left < 4)
    ensures Decode(WithoutJunk(s), quad, left, pads) == Decode(s, quad, left, pads)
    decreases |s|
  {
    hide Sextet, IsJunk;
    if s != [] {
      var clean := WithoutJunk(s);
      JunkHasNoSextet(s[0]);
      if IsJunk(s[0]) {
        assert clean == WithoutJunk(s[1..]);
        DecodeSkipsJunk(s[1..], quad, left, pads);
      } else {
        assert clean[0] == s[0] && clean[1..] == WithoutJunk(s[1..]);
        if s[0] == '=' {
          DecodeSkipsJunk(s[1..], quad, left, if quad >= 2 then pads + 1 else pads);
        } else {
          var n := Sextet(s[0]).value;
          if quad == 0 {
            DecodeSkipsJunk(s[1..], 1, n, 0);
          } else {
            DecodeSkipsJunk(s[1..], (quad + 1) % 4, if quad == 1 then n % 16 else if quad == 2 then n % 4 else 0, 0);
          }
        }
      }
    }
  }

  /** Line breaks and any other ASCII characters outside the alphabet make no difference. */
  lemma JunkIsSkipped(s: string)
    requires IsAscii(s)
    ensures DecodeBase64(WithoutJunk(s)) == DecodeBase64(s)
  {
    hide WithoutJunk, Decode;
    WithoutJunkIsAscii(s);
    DecodeSkipsJunk(s, 0, 0, 0);
  }

  // ---------------------------------------------------------------- padding

  predicate Letters(s: string) {
    forall i :: 0 <= i < |s| ==> InAlphabet(s[i])
  }

  /** The bits left of a group fit. */
  predicate Fits(quad: nat, left: nat) {
    quad < 4 && left < 64 && (quad == 2 ==> left < 16) && (quad == 3 ==> left < 4)
  }

  lemma LetterMovesOn(c: char, rest: string, quad: nat, left: nat, pads: nat) returns (carry: nat)
    requires InAlphabet(c) && Fits(quad, left)
    ensures Fits((quad + 1) % 4, carry)
    ensures Decode([c] + rest, quad, left, pads).Some? <==> Decode(rest, (quad + 1) % 4, carry, 0).Some?
  {
    JunkHasNoSextet(c);
    var all := [c] + rest;
    assert all[0] == c && all[1..] == rest;
    var n := Sextet(c).value;
    carry := if quad == 0 then n else if quad == 1 then n % 16 else if quad == 2 then n % 4 else 0;
  }

  /** Reading letters moves the decoder on within its groups of four; what follows decides. */
  lemma {:induction false} LettersMoveOn(letters: string, tail: string, quad: nat, left: nat) returns (rest: nat)
    requires Letters(letters) && Fits(quad, left)
    ensures Fits((quad + |letters|) % 4, rest)
    ensures Decode(letters + tail, quad, left, 0).Some? <==> Decode(tail, (quad + |letters|) % 4, rest, 0).Some?
    decreases |letters|
  {
    hide Decode, InAlphabet;
    if letters == [] {
      assert letters + tail == tail;
      rest := left;
    } else {
      assert letters + tail == [letters[0]] + (letters[1..] + tail);
      var carry := LetterMovesOn(letters[0], letters[1..] + tail, quad, left, 0);
      rest := LettersMoveOn(letters[1..], tail, (quad + 1) % 4, carry);
      assert ((quad + 1) % 4 + |letters[1..]|) % 4 == (quad + |letters|) % 4;
    }
  }

  /** What the end of the text decides, by the letters read in the last group. */
  lemma EndDecides(quad: nat, left: nat, tail: string)
    requires Fits(quad, left)
    ensures Decode([], quad, left, 0).Some? <==> quad == 0
    ensures quad == 3 ==> Decode("=" + tail, quad, left, 0).Some?
    ensures quad == 1 || quad == 2 ==> Decode("=", quad, left, 0).None?
    ensures quad == 2 ==> Decode("==" + tail, quad, left, 0).Some?
    ensures quad == 1 ==> Decode("==", quad, left, 0).None?
  {
    assert "="[1..] == [] && "=="[1..] == "=";
    assert ("==" + tail)[1..] == "=" + tail;
  }

  lemma AsciiConcat(a: string, b: string)
    requires IsAscii(a) && IsAscii(b)
    ensures IsAscii(a + b)
  {
  }

  /** The last group of the letters, and what is left of it when `tail` begins. */
  lemma LastGroup(letters: string, tail: string) returns (left: nat)
    requires Letters(letters) && IsAscii(letters) && IsAscii(tail)
    ensures Fits(|letters| % 4, left)
    ensures DecodeBase64(letters + tail).Some? <==> Decode(tail, |letters| % 4, left, 0).Some?
  {
    hide Decode;
    left := LettersMoveOn(letters, tail, 0, 0);
    AsciiConcat(letters, tail);
  }

  /** An incomplete last group must be closed: one of three letters by one sign, one of two by two signs, and one letter alone
      by none; what stands behind the closing sign is ignored. */
  lemma PaddingMeans(letters: string, tail: string)
    requires Letters(letters) && IsAscii(letters) && IsAscii(tail)
    ensures DecodeBase64(letters).Some? <==> |letters| % 4 == 0
    ensures |letters| % 4 == 3 ==> DecodeBase64(letters + ("=" + tail)).Some?
    ensures |letters| % 4 == 2 ==> DecodeBase64(letters + "=").None? && DecodeBase64(letters + ("==" + tail)).Some?
    ensures |letters| % 4 == 1 ==> DecodeBase64(letters + "=").None? && DecodeBase64(letters + "==").None?
  {
    hide Decode, DecodeBase64;
    AsciiConcat("=", tail);
    AsciiConcat("==", tail);
    assert letters + [] == letters;
    var none := LastGroup(letters, []);
    EndDecides(|letters| % 4, none, tail);
    var one := LastGroup(letters, "=");
    EndDecides(|letters| % 4, one, tail);
    var two := LastGroup(letters, "==");
    EndDecides(|letters| % 4, two, tail);
    var first := LastGroup(letters, "=" + tail);
    EndDecides(|letters| % 4, first, tail);
    var second := LastGroup(letters, "==" + tail);
    EndDecides(|letters| % 4, second, tail);
  }
}
