/** `json.loads` and `json.dumps`: a parser whose values are no heavier than their text, and its inverse. */
module JsonText {
  import opened PyText
  import opened Json

  // ---------------------------------------------------------------- lexical parts

  /** White space between tokens. */
  predicate IsBlank(c: char) {
    c == ' ' || c == '\n' || c == '\t' || c == '\r'
  }

  function SkipBlank(s: string): (r: string)
    ensures |r| <= |s|
  {
    if s != [] && (s[0] == ' ' || s[0] == '\t' || s[0] == '\n' || s[0] == '\r') then SkipBlank(s[1..]) else s
  }

  function DigitRun(s: string): (n: nat)
    ensures n <= |s|
  {
    if s != [] && IsDigit(s[0]) then 1 + DigitRun(s[1..]) else 0
  }

  /** Length of the integer, fraction and exponent parts at the start of a text; 0 where a part is missing. */
  function IntegerLength(s: string): (n: nat)
    ensures n <= |s|
  {
    if s != [] && s[0] == '0' then 1 else DigitRun(s)
  }

  function FractionLength(s: string): (n: nat)
    ensures n <= |s|
  {
    if |s| > 1 && s[0] == '.' && DigitRun(s[1..]) > 0 then 1 + DigitRun(s[1..]) else 0
  }

  function ExponentLength(s: string): (n: nat)
    ensures n <= |s|
  {
    if s == [] || (s[0] != 'e' && s[0] != 'E') then 0
    else
      var sign := if |s| > 1 && (s[1] == '+' || s[1] == '-') then 1 else 0;
      var digits := DigitRun(s[1 + sign..]);
      if digits > 0 then 1 + sign + digits else 0
  }

  /** Length of the number at the start of a text, or 0. */
  function NumberLength(s: string): (n: nat)
    ensures n <= |s|
  {
    var sign := if s != [] && s[0] == '-' then 1 else 0;
    var whole := IntegerLength(s[sign..]);
    if whole == 0 then 0
    else
      var i := sign + whole;
      var j := i + FractionLength(s[i..]);
      j + ExponentLength(s[j..])
  }

  /** A number literal, or one of the three words Python also reads as numbers. */
  function LiteralLength(s: string): (n: nat)
    ensures n <= |s|
  {
    if NumberLength(s) > 0 then NumberLength(s)
    else if "NaN" <= s then 3
    else if "Infinity" <= s then 8
    else if "-Infinity" <= s then 9
    else 0
  }

  // ---------------------------------------------------------------- what a number is

  predicate Digits(s: string) {
    s != [] && AllDigits(s)
  }

  /** The four parts of a number, section 6 of RFC 8259. */
  predicate NumberParts(sign: string, whole: string, fraction: string, exponent: string) {
    && (sign == "" || sign == "-") && (whole == "0" || (Digits(whole) && whole[0] != '0'))
    && (fraction == "" || (fraction[0] == '.' && Digits(fraction[1..])))
    && (exponent == "" || ((exponent[0] == 'e' || exponent[0] == 'E')
                           && (Digits(exponent[1..]) || (|exponent| > 1 && (exponent[1] == '+' || exponent[1] == '-') && Digits(exponent[2..])))))
  }

  /** The text has these parts, cut at three places. */
  predicate CutAt(s: string, i: nat, j: nat, k: nat) {
    i <= j <= k <= |s| && NumberParts(s[..i], s[i..j], s[j..k], s[k..])
  }

  ghost predicate IsNumber(s: string) {
    exists i: nat, j: nat, k: nat :: CutAt(s, i, j, k)
  }

  lemma {:induction false} RunEnds(digits: string, rest: string)
    requires AllDigits(digits) && (rest == [] || !IsDigit(rest[0]))
    ensures DigitRun(digits + rest) == |digits|
  {
    if digits == [] {
      assert digits + rest == rest;
    } else {
      RunEnds(digits[1..], rest);
      assert (digits + rest)[1..] == digits[1..] + rest;
    }
  }

  lemma {:induction false} RunIsDigits(s: string)
    ensures AllDigits(s[..DigitRun(s)])
  {
    if s != [] && IsDigit(s[0]) {
      RunIsDigits(s[1..]);
      assert s[..DigitRun(s)] == [s[0]] + s[1..][..DigitRun(s[1..])];
    }
  }

  /** The scanner's length of each part, where nothing follows that could belong to it. */
  lemma WholeLength(whole: string, rest: string)
    requires whole == "0" || (Digits(whole) && whole[0] != '0')
    requires rest == [] || !IsDigit(rest[0])
    ensures IntegerLength(whole + rest) == |whole|
  {
    if whole != "0" {
      RunEnds(whole, rest);
    }
  }

  lemma ExponentIs(exponent: string)
    requires NumberParts("", "0", "", exponent)
    ensures ExponentLength(exponent) == |exponent|
  {
    if exponent != "" {
      if Digits(exponent[1..]) {
        assert IsDigit(exponent[1]);
        RunEnds(exponent[1..], []);
        assert exponent[1..] + [] == exponent[1..];
      } else {
        RunEnds(exponent[2..], []);
        assert exponent[2..] + [] == exponent[2..];
      }
    }
  }

  lemma FractionIs(fraction: string, exponent: string)
    requires NumberParts("", "0", fraction, exponent)
    ensures FractionLength(fraction + exponent) == |fraction|
  {
    if fraction != "" {
      RunEnds(fraction[1..], exponent);
      assert (fraction + exponent)[1..] == fraction[1..] + exponent;
    } else {
      assert fraction + exponent == exponent;
    }
  }

  /** What may stand behind the integer part is no digit. */
  lemma TailBegins(fraction: string, exponent: string)
    requires NumberParts("", "0", fraction, exponent)
    ensures fraction + exponent == [] || !IsDigit((fraction + exponent)[0])
  {
    if fraction == [] {
      assert fraction + exponent == exponent;
    } else {
      assert (fraction + exponent)[0] == fraction[0];
    }
  }

  /** One part at a time. */
  lemma PartsSplit(sign: string, whole: string, fraction: string, exponent: string)
    ensures NumberParts(sign, whole, fraction, exponent) <==>
            && (sign == "" || sign == "-") && NumberParts("", whole, "", "") && NumberParts("", "0", fraction, "")
            && NumberParts("", "0", "", exponent) && NumberParts("", "0", fraction, exponent)
  {
    hide Digits;
  }

  lemma WholeAt(whole: string, fraction: string, exponent: string)
    requires NumberParts("", whole, "", "") && NumberParts("", "0", fraction, exponent)
    ensures IntegerLength(whole + (fraction + exponent)) == |whole| > 0 && whole[0] != '-'
  {
    hide IntegerLength;
    TailBegins(fraction, exponent);
    WholeLength(whole, fraction + exponent);
  }

  lemma LengthByParts(s: string, i: nat, j: nat, k: nat)
    requires s != [] && i == (if s[0] == '-' then 1 else 0) && i < j <= k <= |s|
    requires IntegerLength(s[i..]) == j - i && FractionLength(s[j..]) == k - j
    ensures NumberLength(s) == k + ExponentLength(s[k..])
  {
    hide IntegerLength, FractionLength, ExponentLength;
  }

  lemma PartsAreScanned(s: string, i: nat, j: nat, k: nat)
    requires CutAt(s, i, j, k)
    ensures s != [] && NumberLength(s) == |s|
  {
    hide IntegerLength, FractionLength, ExponentLength, NumberLength, NumberParts;
    PartsSplit(s[..i], s[i..j], s[j..k], s[k..]);
    WholeAt(s[i..j], s[j..k], s[k..]);
    FractionIs(s[j..k], s[k..]);
    ExponentIs(s[k..]);
    assert s[j..] == s[j..k] + s[k..] && s[i..] == s[i..j] + s[j..];
    assert s[i..j][0] == s[i];
    assert i > 0 ==> s[..i][0] == s[0];
    LengthByParts(s, i, j, k);
  }

  lemma ExponentScans(s: string)
    requires ExponentLength(s) == |s|
    ensures NumberParts("", "0", "", s)
  {
    if s != [] {
      RunIsDigits(s[1..]);
      if |s| > 1 {
        RunIsDigits(s[2..]);
        assert IsDigit(s[1]) ==> s[1..][..DigitRun(s[1..])] == s[1..];
        assert s[2..][..|s| - 2] == s[2..];
      }
    }
  }

  lemma WholeScans(s: string)
    requires IntegerLength(s) > 0
    ensures NumberParts("", s[..IntegerLength(s)], "", "")
  {
    RunIsDigits(s);
  }

  lemma FractionScans(s: string)
    ensures NumberParts("", "0", s[..FractionLength(s)], "")
  {
    if FractionLength(s) > 0 {
      RunIsDigits(s[1..]);
      assert s[..FractionLength(s)][1..] == s[1..][..FractionLength(s) - 1];
    }
  }

  lemma FractionAndExponent(fraction: string, exponent: string)
    requires NumberParts("", "0", fraction, "") && NumberParts("", "0", "", exponent)
    ensures NumberParts("", "0", fraction, exponent)
  {
    hide Digits;
  }

  lemma ScannedHasParts(s: string)
    requires s != [] && NumberLength(s) == |s|
    ensures IsNumber(s)
  {
    hide NumberParts, IntegerLength, FractionLength, ExponentLength;
    var i := if s[0] == '-' then 1 else 0;
    var j := i + IntegerLength(s[i..]);
    var k := j + FractionLength(s[j..]);
    WholeScans(s[i..]);
    FractionScans(s[j..]);
    ExponentScans(s[k..]);
    assert s[i..j] == s[i..][..j - i] && s[j..k] == s[j..][..k - j];
    FractionAndExponent(s[j..k], s[k..]);
    PartsSplit(s[..i], s[i..j], s[j..k], s[k..]);
    assert CutAt(s, i, j, k);
  }

  /** The scanner takes a whole text for a number exactly if it is one by the grammar, or one of three words. */
  lemma LiteralMeans(s: string)
    ensures s != [] && LiteralLength(s) == |s| <==> IsNumber(s) || s == "NaN" || s == "Infinity" || s == "-Infinity"
  {
    hide NumberLength, CutAt;
    if i: nat, j: nat, k: nat :| CutAt(s, i, j, k) {
      PartsAreScanned(s, i, j, k);
    }
    WordsAreNoNumbers();
    if s != [] && NumberLength(s) == |s| {
      ScannedHasParts(s);
    } else if NumberLength(s) == 0 {
      WordsMean(s);
    } else {
      assert LiteralLength(s) == NumberLength(s);
    }
  }

  lemma WordsMean(s: string)
    requires NumberLength(s) == 0
    ensures s != [] && LiteralLength(s) == |s| <==> s == "NaN" || s == "Infinity" || s == "-Infinity"
  {
    hide NumberLength;
    if "NaN" <= s {
      assert s[0] == 'N';
    } else if "Infinity" <= s {
      assert s[0] == 'I';
    } else if "-Infinity" <= s {
      assert s[0] == '-';
    }
  }

  lemma WordsAreNoNumbers()
    ensures NumberLength("NaN") == NumberLength("Infinity") == NumberLength("-Infinity") == 0
  {
    assert "-Infinity"[1..] == "Infinity";
  }

  // ---------------------------------------------------------------- escapes

  function HexValue(c: char): (r: Option<nat>)
    ensures r.Some? ==> r.value < 16
  {
    if IsDigit(c) then Some(c as int - '0' as int)
    else if 'a' <= c <= 'f' then Some(c as int - 'a' as int + 10)
    else if 'A' <= c <= 'F' then Some(c as int - 'A' as int + 10)
    else None
  }

  function HexChar(n: nat): (c: char)
    requires n < 16
    ensures HexValue(c) == Some(n) && ' ' <= c <= '~'
  {
    if n < 10 then Digit(n) else ('a' as int + (n - 10)) as char
  }

  /** The four hexadecimal digits at the start of a text. */
  function Hex4(s: string): (r: Option<nat>)
    ensures r.Some? ==> |s| >= 4 && r.value < 0x10000
  {
    if |s| < 4 then None
    else
      var a, b, c, d := HexValue(s[0]), HexValue(s[1]), HexValue(s[2]), HexValue(s[3]);
      if a.Some? && b.Some? && c.Some? && d.Some? then Some(a.value * 4096 + b.value * 256 + c.value * 16 + d.value) else None
  }

  function PrintHex4(n: nat): (s: string)
    requires n < 0x10000
    ensures |s| == 4 && Plain(s)
  {
    [HexChar(n / 4096), HexChar(n / 256 % 16), HexChar(n / 16 % 16), HexChar(n % 16)]
  }

  lemma Hex4RoundTrip(n: nat, rest: string)
    requires n < 0x10000
    ensures Hex4(PrintHex4(n) + rest) == Some(n)
  {
    HexBits(n);
    hide HexChar, HexValue;
  }

  lemma HexBits(n: nat)
    ensures n / 4096 * 4096 + n / 256 % 16 * 256 + n / 16 % 16 * 16 + n % 16 == n
  {
    var a := n / 16;
    var b := a / 16;
    assert n / 256 == b && n / 4096 == b / 16;
  }

  // ---------------------------------------------------------------- strings

  /** Printable ASCII. */
  predicate Plain(s: string) {
    forall i :: 0 <= i < |s| ==> ' ' <= s[i] <= '~'
  }

  function Unescape(c: char): Option<char> {
    if c == '"' || c == '\\' || c == '/' then Some(c)
    else if c == 'b' then Some(0x8 as char)
    else if c == 'f' then Some(0xc as char)
    else if c == 'n' then Some('\n')
    else if c == 'r' then Some('\r')
    else if c == 't' then Some('\t')
    else None
  }

  /** The eight short escapes of section 7 of RFC 8259. */
  lemma EscapesMean(c: char, d: char)
    ensures Unescape(c) == Some(d) <==>
            [c as int, d as int] in [[34, 34], [92, 92], [47, 47], [98, 8], [102, 12], [110, 10], [114, 13], [116, 9]]
  {
    assert forall a: int, b: int :: [c as int, d as int] == [a, b] <==> c as int == a && d as int == b;
  }

  /** One character of a string body and the text after it; None ends the parse with an error. */
  function ParseChar(s: string): (r: Option<(char, string)>)
    requires s != [] && s[0] != '"'
    ensures r.Some? ==> |r.value.1| < |s|
  {
    if s[0] != '\\' then
      if s[0] < ' ' then None else Some((s[0], s[1..]))
    else if |s| < 2 then None
    else if s[1] != 'u' then
      var c := Unescape(s[1]);
      if c.None? then None else Some((c.value, s[2..]))
    else
      var high := Hex4(s[2..]);
      if high.None? then None
      else if high.value < 0xd800 || high.value >= 0xe000 then Some((high.value as char, s[6..]))
      else if high.value < 0xdc00 && "\\u" <= s[6..] then
        var low := Hex4(s[8..]);
        if low.Some? && 0xdc00 <= low.value < 0xe000 then
          Some(((0x10000 + (high.value - 0xd800) * 0x400 + (low.value - 0xdc00)) as char, s[12..]))
        else None
      else None
  }

  /** The body of a string up to its closing quote, and the text after that. */
  function ParseString(s: string): (r: Option<(string, string)>)
    ensures r.Some? ==> |r.value.0| + |r.value.1| < |s|
    decreases |s|
  {
    if s == [] then None
    else if s[0] == '"' then Some(([], s[1..]))
    else
      var c := ParseChar(s);
      if c.None? then None
      else
        var more := ParseString(c.value.1);
        if more.None? then None else Some(([c.value.0] + more.value.0, more.value.1))
  }

  function PrintChar(c: char): (s: string)
    ensures s != [] && s[0] != '"' && Plain(s)
  {
    var n := c as int;
    if c == '"' then "\\\""
    else if c == '\\' then "\\\\"
    else if c == '\n' then "\\n"
    else if c == '\r' then "\\r"
    else if c == '\t' then "\\t"
    else if n == 0x8 then "\\b"
    else if n == 0xc then "\\f"
    else if ' ' <= c <= '~' then [c]
    else if n < 0x10000 then "\\u" + PrintHex4(n)
    else "\\u" + PrintHex4(0xd800 + (n - 0x10000) / 0x400) + "\\u" + PrintHex4(0xdc00 + (n - 0x10000) % 0x400)
  }

  function PrintBody(s: string): (t: string)
    ensures Plain(t)
  {
    if s == [] then [] else PrintChar(s[0]) + PrintBody(s[1..])
  }

  function PrintString(s: string): (t: string)
    ensures Plain(t)
  {
    "\"" + PrintBody(s) + "\""
  }

  lemma CharRoundTrip(c: char, rest: string)
    ensures ParseChar(PrintChar(c) + rest) == Some((c, rest))
  {
    var n := c as int;
    if c == '"' || c == '\\' || c == '\n' || c == '\r' || c == '\t' || n == 0x8 || n == 0xc {
      hide PrintHex4, Hex4;
      assert (PrintChar(c) + rest)[2..] == rest;
    } else if ' ' <= c <= '~' {
      hide PrintHex4, Hex4, Unescape;
      assert ([c] + rest)[1..] == rest;
    } else {
      hide PrintChar, ParseChar, PrintHex4, Hex4;
      EscapeRoundTrip(c, rest);
    }
  }

  lemma EscapeRoundTrip(c: char, rest: string)
    requires !(' ' <= c <= '~') && c != '\n' && c != '\r' && c != '\t' && c as int != 0x8 && c as int != 0xc
    ensures ParseChar(PrintChar(c) + rest) == Some((c, rest))
  {
    var n := c as int;
    if n < 0x10000 {
      hide PrintHex4, Hex4, Unescape, ParseChar;
      assert PrintChar(c) + rest == "\\u" + (PrintHex4(n) + rest);
      hide PrintChar;
      ParseSingle("\\u" + (PrintHex4(n) + rest), n, rest);
    } else {
      hide PrintHex4, Hex4, Unescape, ParseChar;
      var high, low := 0xd800 + (n - 0x10000) / 0x400, 0xdc00 + (n - 0x10000) % 0x400;
      assert PrintChar(c) + rest == "\\u" + (PrintHex4(high) + ("\\u" + (PrintHex4(low) + rest)));
      hide PrintChar;
      ParsePair("\\u" + (PrintHex4(high) + ("\\u" + (PrintHex4(low) + rest))), high, low, rest);
    }
  }

  lemma ParseSingle(s: string, n: nat, rest: string)
    requires n < 0x10000 && (n < 0xd800 || n >= 0xe000) && s == "\\u" + (PrintHex4(n) + rest)
    ensures ParseChar(s) == Some((n as char, rest))
  {
    hide PrintHex4, Hex4, Unescape;
    UnicodeEscape(n, rest);
  }

  lemma ParsePair(s: string, high: nat, low: nat, rest: string)
    requires 0xd800 <= high < 0xdc00 <= low < 0xe000
    requires s == "\\u" + (PrintHex4(high) + ("\\u" + (PrintHex4(low) + rest)))
    ensures ParseChar(s) == Some(((0x10000 + (high - 0xd800) * 0x400 + (low - 0xdc00)) as char, rest))
  {
    hide PrintHex4, Hex4, Unescape;
    var second := "\\u" + (PrintHex4(low) + rest);
    UnicodeEscape(high, second);
    UnicodeEscape(low, rest);
    assert s[6..] == second;
    assert s[8..] == second[2..] && s[12..] == second[6..];
  }

  lemma UnicodeEscape(n: nat, rest: string)
    requires n < 0x10000
    ensures var s := "\\u" + (PrintHex4(n) + rest);
            |s| >= 6 && s[0] == '\\' && s[1] == 'u' && s[6..] == rest && Hex4(s[2..]) == Some(n)
  {
    Hex4RoundTrip(n, rest);
    hide PrintHex4, Hex4;
    var s := "\\u" + (PrintHex4(n) + rest);
    assert s[2..] == PrintHex4(n) + rest;
  }

  lemma {:induction false} StringRoundTrip(s: string, rest: string)
    ensures ParseString(PrintBody(s) + "\"" + rest) == Some((s, rest))
  {
    hide PrintChar, ParseChar, PrintHex4;
    var text := PrintBody(s) + "\"" + rest;
    if s == [] {
      assert text[1..] == rest;
    } else {
      var after := PrintBody(s[1..]) + "\"" + rest;
      assert text == PrintChar(s[0]) + after;
      hide PrintBody;
      CharRoundTrip(s[0], after);
      StringRoundTrip(s[1..], rest);
      assert [s[0]] + s[1..] == s;
    }
  }

  // ---------------------------------------------------------------- values

  /** A value at the start of a text and the text after it. No value is heavier than the text it was read from. */
  function ParseValue(s: string): (r: Option<(Json, string)>)
    ensures r.Some? ==> Weight(r.value.0) + |r.value.1| <= |s|
    decreases |s|, 0
  {
    if s == [] then None
    else if s[0] == '"' then
      var r := ParseString(s[1..]);
      if r.None? then None else Some((Str(r.value.0), r.value.1))
    else if s[0] == '[' then
      var t := SkipBlank(s[1..]);
      if t != [] && t[0] == ']' then Some((Arr([]), t[1..]))
      else
        var r := ParseItems(t);
        if r.None? then None else Some((Arr(r.value.0), r.value.1))
    else if s[0] == '{' then
      var t := SkipBlank(s[1..]);
      if t != [] && t[0] == '}' then Some((Obj([]), t[1..]))
      else
        var r := ParseFields(t, []);
        if r.None? then None else Some((Obj(r.value.0), r.value.1))
    else if "null" <= s then Some((Null, s[4..]))
    else if "true" <= s then Some((Bool(true), s[4..]))
    else if "false" <= s then Some((Bool(false), s[5..]))
    else
      var n := LiteralLength(s);
      if n == 0 then None else Some((Number(s[..n]), s[n..]))
  }

  /** One or more values up to the closing bracket. */
  function ParseItems(s: string): (r: Option<(seq<Json>, string)>)
    ensures r.Some? ==> WeightItems(r.value.0) + |r.value.1| < |s|
    decreases |s|, 1
  {
    var first := ParseValue(s);
    if first.None? then None
    else
      var t := SkipBlank(first.value.1);
      if t == [] then None
      else if t[0] == ']' then Some(([first.value.0], t[1..]))
      else if t[0] != ',' then None
      else
        var more := ParseItems(SkipBlank(t[1..]));
        if more.None? then None else Some(([first.value.0] + more.value.0, more.value.1))
  }

  /** One or more members up to the closing brace, added to those read before. */
  function ParseFields(s: string, read: seq<Member>): (r: Option<(seq<Member>, string)>)
    ensures r.Some? ==> WeightFields(r.value.0) + |r.value.1| < WeightFields(read) + |s|
    decreases |s|, 1
  {
    if s == [] || s[0] != '"' then None
    else
      var key := ParseString(s[1..]);
      if key.None? then None
      else
        var colon := SkipBlank(key.value.1);
        if colon == [] || colon[0] != ':' then None
        else
          var value := ParseValue(SkipBlank(colon[1..]));
          if value.None? then None
          else
            var fields := Put(read, key.value.0, value.value.0);
            var t := SkipBlank(value.value.1);
            if t == [] then None
            else if t[0] == '}' then Some((fields, t[1..]))
            else if t[0] != ',' then None
            else ParseFields(SkipBlank(t[1..]), fields)
  }

  /** `json.loads`; None is a JSONDecodeError. */
  function Loads(text: string): (r: Option<Json>)
    ensures r.Some? ==> Weight(r.value) <= |text|
  {
    var r := ParseValue(SkipBlank(text));
    if r.Some? && SkipBlank(r.value.1) == [] then Some(r.value.0) else None
  }

  // ---------------------------------------------------------------- the printer

  /** `json.dumps` with compact separators. */
  function Dumps(v: Json): string {
    match v
    case Null => "null"
    case Bool(b) => if b then "true" else "false"
    case Number(literal) => literal
    case Str(s) => PrintString(s)
    case Arr(items) => "[" + DumpItems(items) + "]"
    case Obj(fields) => "{" + DumpFields(fields) + "}"
  }

  function DumpItems(items: seq<Json>): string {
    if items == [] then []
    else Dumps(items[0]) + if |items| == 1 then [] else "," + DumpItems(items[1..])
  }

  function DumpFields(fields: seq<Member>): string {
    if fields == [] then []
    else
      PrintString(fields[0].key) + ":" + Dumps(fields[0].value)
      + if |fields| == 1 then [] else "," + DumpFields(fields[1..])
  }

  /** The values a Python program can hold: number literals that are numbers, and no key twice. */
  predicate Valid(v: Json) {
    match v
    case Number(literal) => |literal| > 0 && LiteralLength(literal) == |literal| && Plain(literal)
    case Arr(items) => ValidItems(items)
    case Obj(fields) => DistinctKeys(fields) && ValidFields(fields)
    case _ => true
  }

  predicate ValidItems(items: seq<Json>) {
    items == [] || (Valid(items[0]) && ValidItems(items[1..]))
  }

  predicate ValidFields(fields: seq<Member>) {
    fields == [] || (Valid(fields[0].value) && ValidFields(fields[1..]))
  }

  lemma {:induction false} FieldsAreValid(fields: seq<Member>)
    requires forall i :: 0 <= i < |fields| ==> Valid(fields[i].value)
    ensures ValidFields(fields) && (DistinctKeys(fields) ==> Valid(Obj(fields)))
  {
    hide Valid;
    if fields != [] {
      FieldsAreValid(fields[1..]);
    }
    DictionaryIsValid(fields);
  }

  lemma DictionaryIsValid(fields: seq<Member>)
    ensures DistinctKeys(fields) && ValidFields(fields) ==> Valid(Obj(fields))
  {
  }

  // ---------------------------------------------------------------- loads inverts dumps

  /** No number goes on into this text. */
  predicate Delimits(rest: string) {
    rest == [] || rest[0] == ',' || rest[0] == ']' || rest[0] == '}' || IsBlank(rest[0])
  }

  lemma {:induction false} DigitRunStops(s: string, rest: string)
    requires rest == [] || !IsDigit(rest[0])
    ensures DigitRun(s + rest) == DigitRun(s)
  {
    if s == [] {
      assert s + rest == rest;
    } else {
      assert (s + rest)[1..] == s[1..] + rest;
      DigitRunStops(s[1..], rest);
    }
  }

  lemma PartsStop(s: string, rest: string)
    requires Delimits(rest)
    ensures IntegerLength(s + rest) == IntegerLength(s)
    ensures FractionLength(s + rest) == FractionLength(s)
  {
    DigitRunStops(s, rest);
    if s == [] {
      assert s + rest == rest;
    } else {
      assert (s + rest)[1..] == s[1..] + rest;
      DigitRunStops(s[1..], rest);
    }
  }

  lemma ExponentStops(s: string, rest: string)
    requires Delimits(rest)
    ensures ExponentLength(s + rest) == ExponentLength(s)
  {
    hide DigitRun;
    if s == [] {
      assert s + rest == rest;
    } else {
      var sign := if |s| > 1 && (s[1] == '+' || s[1] == '-') then 1 else 0;
      assert (s + rest)[1 + sign..] == s[1 + sign..] + rest;
      DigitRunStops(s[1 + sign..], rest);
    }
  }

  lemma NumberStops(s: string, rest: string)
    requires Delimits(rest)
    ensures NumberLength(s + rest) == NumberLength(s)
  {
    hide IntegerLength, FractionLength, ExponentLength, Delimits;
    if s == [] {
      hide NumberLength;
      NumberNeedsDigits(rest);
      assert s + rest == rest;
    } else {
      var sign := if s[0] == '-' then 1 else 0;
      assert (s + rest)[sign..] == s[sign..] + rest;
      PartsStop(s[sign..], rest);
      var whole := IntegerLength(s[sign..]);
      if whole > 0 {
        var i := sign + whole;
        assert (s + rest)[i..] == s[i..] + rest;
        PartsStop(s[i..], rest);
        var j := i + FractionLength(s[i..]);
        assert (s + rest)[j..] == s[j..] + rest;
        ExponentStops(s[j..], rest);
      }
    }
  }

  lemma NumberNeedsDigits(rest: string)
    requires Delimits(rest)
    ensures NumberLength(rest) == 0 && NumberLength([]) == 0
  {
    assert rest[0..] == rest;
  }

  /** The first character of a printed value tells what it is. */
  lemma LiteralRoundTrip(literal: string, rest: string)
    requires Valid(Number(literal)) && Delimits(rest)
    ensures ParseValue(literal + rest) == Some((Number(literal), rest))
  {
    hide NumberLength;
    var s := literal + rest;
    NumberStops(literal, rest);
    NumberStarts(literal);
    assert s[..|literal|] == literal && s[|literal|..] == rest;
    assert s[0] == literal[0];
    if NumberLength(literal) == 0 {
      WordStarts(literal, s);
    }
    assert LiteralLength(s) == |literal|;
    hide LiteralLength, ParseItems, ParseFields, ParseString;
  }

  lemma NumberStarts(literal: string)
    ensures NumberLength(literal) > 0 ==> literal != [] && (literal[0] == '-' || IsDigit(literal[0]))
  {
    hide FractionLength, ExponentLength;
    if literal != [] {
      assert literal[0..] == literal;
    }
  }

  lemma WordStarts(literal: string, s: string)
    requires NumberLength(literal) == 0 && |literal| > 0 && LiteralLength(literal) == |literal| && literal <= s
    ensures literal == "NaN" || literal == "Infinity" || literal == "-Infinity"
    ensures NumberLength(s) == 0 ==> LiteralLength(s) == |literal|
  {
    hide NumberLength;
    if "NaN" <= literal {
      assert literal == "NaN";
    } else if "Infinity" <= literal {
      assert literal == "Infinity";
    } else {
      assert literal == "-Infinity";
    }
  }

  predicate Solid(s: string) {
    s != [] && s[0] !in {' ', '\t', '\n', '\r', ']', '}', ','}
  }

  lemma DumpsSolid(v: Json, rest: string)
    requires Valid(v)
    ensures Solid(Dumps(v) + rest) && SkipBlank(Dumps(v) + rest) == Dumps(v) + rest
  {
    if v.Number? {
      hide NumberLength;
      NumberStarts(v.literal);
      if NumberLength(v.literal) == 0 {
        WordStarts(v.literal, v.literal);
      }
    }
    hide PrintBody, DumpItems, DumpFields, LiteralLength;
  }

  lemma ReadWord(v: Json, rest: string)
    requires v.Null? || v.Bool?
    ensures ParseValue(Dumps(v) + rest) == Some((v, rest))
  {
    hide LiteralLength, ParseString, ParseItems, ParseFields;
    assert (Dumps(v) + rest)[|Dumps(v)|..] == rest;
  }

  lemma ReadString(text: string, rest: string)
    ensures ParseValue(PrintString(text) + rest) == Some((Str(text), rest))
  {
    StringRoundTrip(text, rest);
    hide LiteralLength, ParseString, PrintBody, ParseItems, ParseFields;
    assert (PrintString(text) + rest)[1..] == PrintBody(text) + "\"" + rest;
  }

  // ---------------------------------------------------------------- all ways to write a value

  predicate Blanks(s: string) {
    forall i :: 0 <= i < |s| ==> IsBlank(s[i])
  }

  lemma {:induction false} BlanksAreSkipped(b: string, t: string)
    requires Blanks(b) && (t == [] || !IsBlank(t[0]))
    ensures SkipBlank(b + t) == t
  {
    if b == [] {
      assert b + t == t;
    } else {
      assert (b + t)[1..] == b[1..] + t;
      BlanksAreSkipped(b[1..], t);
    }
  }

  /** The text writes the value, with blanks wherever JSON allows them between its tokens. */
  ghost predicate Written(v: Json, t: string)
    decreases v, 0
  {
    match v
    case Arr(items) =>
      if items == [] then exists b :: Blanks(b) && t == "[" + b + "]"
      else exists b, body :: Blanks(b) && WrittenItems(items, body) && t == "[" + (b + (body + "]"))
    case Obj(fields) =>
      if fields == [] then exists b :: Blanks(b) && t == "{" + b + "}"
      else exists b, body :: Blanks(b) && WrittenFields(fields, body) && t == "{" + (b + (body + "}"))
    case _ => t == Dumps(v)
  }

  ghost predicate WrittenItems(items: seq<Json>, body: string)
    requires items != []
    decreases items, 1
  {
    if |items| == 1 then exists t, b :: Written(items[0], t) && Blanks(b) && body == t + b
    else exists t, b, c, more :: Written(items[0], t) && Blanks(b) && Blanks(c) && WrittenItems(items[1..], more)
                                 && body == t + (b + ("," + (c + more)))
  }

  ghost predicate WrittenFields(fields: seq<Member>, body: string)
    requires fields != []
    decreases fields, 1
  {
    if |fields| == 1 then exists t, b :: WrittenMember(fields[0], t) && Blanks(b) && body == t + b
    else exists t, b, c, more :: WrittenMember(fields[0], t) && Blanks(b) && Blanks(c) && WrittenFields(fields[1..], more)
                                 && body == t + (b + ("," + (c + more)))
  }

  ghost predicate WrittenMember(f: Member, text: string)
    decreases f, 0
  {
    exists b, c, t :: Blanks(b) && Blanks(c) && Written(f.value, t) && text == PrintString(f.key) + (b + (":" + (c + t)))
  }

  lemma ReadEmpty(b: string, rest: string)
    requires Blanks(b)
    ensures ParseValue("[" + b + "]" + rest) == Some((Arr([]), rest))
    ensures ParseValue("{" + b + "}" + rest) == Some((Obj([]), rest))
  {
    hide LiteralLength, ParseString, ParseItems, ParseFields, SkipBlank;
    BlanksAreSkipped(b, "]" + rest);
    BlanksAreSkipped(b, "}" + rest);
    assert ("[" + b + "]" + rest)[1..] == b + ("]" + rest) && ("]" + rest)[1..] == rest;
    assert ("{" + b + "}" + rest)[1..] == b + ("}" + rest) && ("}" + rest)[1..] == rest;
  }

  lemma ReadArr(b: string, t: string, items: seq<Json>, rest: string)
    requires Blanks(b) && Solid(t) && ParseItems(t) == Some((items, rest))
    ensures ParseValue("[" + (b + t)) == Some((Arr(items), rest))
  {
    hide LiteralLength, ParseString, ParseItems, ParseFields, SkipBlank;
    BlanksAreSkipped(b, t);
    assert ("[" + (b + t))[1..] == b + t;
  }

  lemma ReadObj(b: string, t: string, fields: seq<Member>, rest: string)
    requires Blanks(b) && Solid(t) && ParseFields(t, []) == Some((fields, rest))
    ensures ParseValue("{" + (b + t)) == Some((Obj(fields), rest))
  {
    hide LiteralLength, ParseString, ParseItems, ParseFields, SkipBlank;
    BlanksAreSkipped(b, t);
    assert ("{" + (b + t))[1..] == b + t;
  }

  lemma ScalarRoundTrip(v: Json, rest: string)
    requires Valid(v) && !v.Arr? && !v.Obj? && Delimits(rest)
    ensures ParseValue(Dumps(v) + rest) == Some((v, rest))
  {
    hide ParseValue, LiteralLength, PrintString, Delimits;
    match v
    case Null => ReadWord(v, rest);
    case Bool(b) => ReadWord(v, rest);
    case Number(literal) => LiteralRoundTrip(literal, rest);
    case Str(text) => ReadString(text, rest);
  }

  lemma WrittenIsSolid(v: Json, t: string, rest: string)
    requires Valid(v) && Written(v, t)
    ensures Solid(t + rest)
  {
    hide WrittenItems, WrittenFields, Dumps;
    if !v.Arr? && !v.Obj? {
      DumpsSolid(v, rest);
    }
  }

  /** Whatever way a value is written, it is read. */
  lemma {:induction false} ValueRoundTrip(v: Json, t: string, rest: string)
    requires Valid(v) && Written(v, t) && Delimits(rest)
    ensures ParseValue(t + rest) == Some((v, rest))
    decreases v, 0
  {
    hide ParseValue, ParseItems, ParseFields, SkipBlank, Solid, Dumps, Delimits, WrittenItems, WrittenFields, Blanks;
    match v
    case Arr(items) =>
      if items == [] {
        var b :| Blanks(b) && t == "[" + b + "]";
        ReadEmpty(b, rest);
      } else {
        var b, body :| Blanks(b) && WrittenItems(items, body) && t == "[" + (b + (body + "]"));
        ItemsRoundTrip(items, body, rest);
        ReadArr(b, body + "]" + rest, items, rest);
        Closing("[", b, body, "]", rest);
      }
    case Obj(fields) =>
      if fields == [] {
        var b :| Blanks(b) && t == "{" + b + "}";
        ReadEmpty(b, rest);
      } else {
        var b, body :| Blanks(b) && WrittenFields(fields, body) && t == "{" + (b + (body + "}"));
        assert [] + fields == fields;
        FieldsRoundTrip(fields, body, [], rest);
        ReadObj(b, body + "}" + rest, fields, rest);
        Closing("{", b, body, "}", rest);
      }
    case _ => ScalarRoundTrip(v, rest);
  }

  lemma Closing(open: string, b: string, body: string, close: string, rest: string)
    ensures open + (b + (body + close)) + rest == open + (b + (body + close + rest))
  {
  }

  lemma LastOf(t: string, b: string, close: string, rest: string)
    ensures t + b + close + rest == t + (b + (close + rest))
  {
  }

  lemma NextOf(t: string, b: string, c: string, more: string, close: string, rest: string)
    ensures t + (b + ("," + (c + more))) + close + rest == t + (b + ("," + (c + (more + close + rest))))
  {
    assert ("," + (c + more)) + close + rest == "," + (c + (more + close + rest));
  }

  lemma {:induction false} ItemsRoundTrip(items: seq<Json>, body: string, rest: string)
    requires items != [] && ValidItems(items) && WrittenItems(items, body)
    ensures Solid(body + "]" + rest) && ParseItems(body + "]" + rest) == Some((items, rest))
    decreases items, 1
  {
    hide ParseValue, Written, Blanks, SkipBlank, Solid, Valid;
    var v := items[0];
    if |items| == 1 {
      var t, b :| Written(v, t) && Blanks(b) && body == t + b;
      LastOf(t, b, "]", rest);
      ItemThen(v, t, b, "]" + rest);
      assert items == [v] && ("]" + rest)[1..] == rest;
    } else {
      var t, b, c, more :| Written(v, t) && Blanks(b) && Blanks(c) && WrittenItems(items[1..], more)
                           && body == t + (b + ("," + (c + more)));
      var tail := more + "]" + rest;
      NextOf(t, b, c, more, "]", rest);
      ItemThen(v, t, b, "," + (c + tail));
      ItemsRoundTrip(items[1..], more, rest);
      SolidIsKept(c, tail);
      assert ("," + (c + tail))[1..] == c + tail;
      assert items == [v] + items[1..];
    }
  }

  lemma SolidIsKept(b: string, t: string)
    requires Blanks(b) && Solid(t)
    ensures SkipBlank(b + t) == t
  {
    BlanksAreSkipped(b, t);
  }

  /** One written value, blanks, and a token that is no blank. */
  lemma {:induction false} ItemThen(v: Json, t: string, b: string, after: string)
    requires Valid(v) && Written(v, t) && Blanks(b) && after != [] && (after[0] == ',' || after[0] == ']' || after[0] == '}')
    ensures Solid(t + (b + after)) && ParseValue(t + (b + after)) == Some((v, b + after)) && SkipBlank(b + after) == after
    decreases v, 1
  {
    hide ParseValue, Written, Solid, Valid;
    WrittenIsSolid(v, t, b + after);
    ValueRoundTrip(v, t, b + after);
    BlanksAreSkipped(b, after);
  }

  lemma DistinctSplit(read: seq<Member>, fields: seq<Member>)
    requires fields != [] && DistinctKeys(read + fields)
    ensures Absent(read, fields[0].key) && read + fields == (read + [fields[0]]) + fields[1..]
  {
    assert (read + fields)[|read|] == fields[0];
    assert forall i :: 0 <= i < |read| ==> (read + fields)[i] == read[i];
  }

  lemma {:induction false} FieldsRoundTrip(fields: seq<Member>, body: string, read: seq<Member>, rest: string)
    requires fields != [] && ValidFields(fields) && WrittenFields(fields, body) && DistinctKeys(read + fields)
    ensures Solid(body + "}" + rest) && ParseFields(body + "}" + rest, read) == Some((read + fields, rest))
    decreases fields, 1
  {
    hide ParseFields, WrittenMember, Blanks, SkipBlank, Solid, Valid, DistinctKeys, Absent;
    var f := fields[0];
    DistinctSplit(read, fields);
    if |fields| == 1 {
      var t, b :| WrittenMember(f, t) && Blanks(b) && body == t + b;
      LastOf(t, b, "}", rest);
      StepField(f, t, b, "}" + rest, read);
      assert fields == [f] && ("}" + rest)[1..] == rest;
    } else {
      var t, b, c, more :| WrittenMember(f, t) && Blanks(b) && Blanks(c) && WrittenFields(fields[1..], more)
                           && body == t + (b + ("," + (c + more)));
      var tail := more + "}" + rest;
      NextOf(t, b, c, more, "}", rest);
      StepField(f, t, b, "," + (c + tail), read);
      FieldsRoundTrip(fields[1..], more, read + [f], rest);
      SolidIsKept(c, tail);
      assert ("," + (c + tail))[1..] == c + tail;
    }
  }

  lemma {:induction false} StepField(f: Member, t: string, b: string, after: string, read: seq<Member>)
    requires Valid(f.value) && WrittenMember(f, t) && Blanks(b) && after != [] && (after[0] == ',' || after[0] == '}') && Absent(read, f.key)
    ensures Solid(t + (b + after))
    ensures ParseFields(t + (b + after), read) ==
            if after[0] == '}' then Some((read + [f], after[1..])) else ParseFields(SkipBlank(after[1..]), read + [f])
    decreases f, 1
  {
    hide ParseValue, ParseString, PrintBody, PrintString, Written, Blanks, SkipBlank, Valid;
    var s := t + (b + after);
    var text, colon := OneField(f, t, b, after);
    PutAbsent(read, f.key, f.value);
    assert Member(f.key, f.value) == f;
  }

  /** The text of one member is read as its key and its value. */
  lemma {:induction false} OneField(f: Member, t: string, b: string, after: string) returns (value: string, colon: string)
    requires Valid(f.value) && WrittenMember(f, t) && Blanks(b) && after != [] && (after[0] == ',' || after[0] == '}')
    ensures var s := t + (b + after);
            && s != [] && s[0] == '"' && ParseString(s[1..]).Some? && ParseString(s[1..]).value.0 == f.key
            && SkipBlank(ParseString(s[1..]).value.1) == colon && colon != [] && colon[0] == ':'
            && SkipBlank(colon[1..]) == value
    ensures ParseValue(value) == Some((f.value, b + after)) && SkipBlank(b + after) == after
    decreases f, 0
  {
    hide ParseValue, ParseString, PrintBody, Written, Blanks, Valid, Solid, SkipBlank;
    var d, c, text :| Blanks(d) && Blanks(c) && Written(f.value, text) && t == PrintString(f.key) + (d + (":" + (c + text)));
    value := text + (b + after);
    colon := ":" + (c + value);
    MemberText(f.key, d, c, text, b + after);
    StringRoundTrip(f.key, d + colon);
    BlanksAreSkipped(d, colon);
    ItemThen(f.value, text, b, after);
    SolidIsKept(c, value);
    assert colon[1..] == c + value;
  }

  lemma MemberText(key: string, d: string, c: string, text: string, after: string)
    ensures var s := PrintString(key) + (d + (":" + (c + text))) + after;
            s != [] && s[0] == '"' && s[1..] == PrintBody(key) + "\"" + (d + (":" + (c + (text + after))))
  {
    hide PrintBody;
    assert (d + (":" + (c + text))) + after == d + (":" + (c + (text + after)));
  }

  /** `loads` reads a value from any text that writes it, with any blanks around. */
  lemma LoadsWritten(v: Json, before: string, t: string, after: string)
    requires Valid(v) && Written(v, t) && Blanks(before) && Blanks(after)
    ensures Loads(before + t + after) == Some(v)
  {
    hide ParseValue, Written, Valid, SkipBlank, Solid;
    WrittenIsSolid(v, t, after);
    SolidIsKept(before, t + after);
    ValueRoundTrip(v, t, after);
    BlanksAreSkipped(after, []);
    assert after + [] == after && before + t + after == before + (t + after);
  }

  // ---------------------------------------------------------------- the two printers

  lemma WriteArr(items: seq<Json>, b: string, body: string)
    requires items != [] && Blanks(b) && WrittenItems(items, body)
    ensures Written(Arr(items), "[" + (b + (body + "]")))
  {
    hide WrittenItems, Blanks;
  }

  lemma WriteObj(fields: seq<Member>, b: string, body: string)
    requires fields != [] && Blanks(b) && WrittenFields(fields, body)
    ensures Written(Obj(fields), "{" + (b + (body + "}")))
  {
    hide WrittenFields, Blanks;
  }

  lemma WriteEmpty()
    ensures Written(Arr([]), "[]") && Written(Obj([]), "{}")
  {
    assert "[" + [] + "]" == "[]" && "{" + [] + "}" == "{}" && Blanks([]);
  }

  lemma WriteItems(items: seq<Json>, t: string, b: string, c: string, more: string)
    requires items != [] && Written(items[0], t) && Blanks(b) && Blanks(c)
    requires |items| > 1 ==> WrittenItems(items[1..], more)
    ensures WrittenItems(items, if |items| == 1 then t + b else t + (b + ("," + (c + more))))
  {
    hide Written, Blanks;
    if |items| > 1 {
      var body := t + (b + ("," + (c + more)));
      assert Written(items[0], t) && Blanks(b) && Blanks(c) && WrittenItems(items[1..], more) && body == t + (b + ("," + (c + more)));
    }
  }

  lemma WriteFields(fields: seq<Member>, t: string, b: string, c: string, more: string)
    requires fields != [] && WrittenMember(fields[0], t) && Blanks(b) && Blanks(c)
    requires |fields| > 1 ==> WrittenFields(fields[1..], more)
    ensures WrittenFields(fields, if |fields| == 1 then t + b else t + (b + ("," + (c + more))))
  {
    hide WrittenMember, Blanks;
    if |fields| > 1 {
      var body := t + (b + ("," + (c + more)));
      assert WrittenMember(fields[0], t) && Blanks(b) && Blanks(c) && WrittenFields(fields[1..], more) && body == t + (b + ("," + (c + more)));
    }
  }

  lemma WriteMember(f: Member, c: string, t: string)
    requires Blanks(c) && Written(f.value, t)
    ensures WrittenMember(f, PrintString(f.key) + (":" + (c + t)))
  {
    hide Written, PrintString;
    var b: string := [];
    assert b + (":" + (c + t)) == ":" + (c + t);
    assert Blanks(b) && Blanks(c) && Written(f.value, t) && PrintString(f.key) + (":" + (c + t)) == PrintString(f.key) + (b + (":" + (c + t)));
  }

  lemma {:induction false} DumpsWrites(v: Json)
    ensures Written(v, Dumps(v))
    decreases v, 0
  {
    WriteEmpty();
    match v
    case Arr(items) =>
      hide Written, WrittenItems;
      if items != [] {
        DumpItemsWrites(items);
        WriteArr(items, [], DumpItems(items));
        assert [] + (DumpItems(items) + "]") == DumpItems(items) + "]";
        assert Dumps(v) == "[" + (DumpItems(items) + "]");
      }
    case Obj(fields) =>
      hide Written, WrittenFields;
      if fields != [] {
        DumpFieldsWrites(fields);
        WriteObj(fields, [], DumpFields(fields));
        assert [] + (DumpFields(fields) + "}") == DumpFields(fields) + "}";
        assert Dumps(v) == "{" + (DumpFields(fields) + "}");
      }
    case _ =>
  }

  lemma {:induction false} DumpItemsWrites(items: seq<Json>)
    requires items != []
    ensures WrittenItems(items, DumpItems(items))
    decreases items, 1
  {
    hide Written, WrittenItems, Dumps;
    var t := Dumps(items[0]);
    DumpsWrites(items[0]);
    if |items| == 1 {
      WriteItems(items, t, [], [], []);
      assert t + [] == t;
    } else {
      var more := DumpItems(items[1..]);
      DumpItemsWrites(items[1..]);
      WriteItems(items, t, [], [], more);
      assert [] + ("," + ([] + more)) == "," + more;
      assert DumpItems(items) == t + ("," + more);
    }
  }

  lemma {:induction false} DumpFieldsWrites(fields: seq<Member>)
    requires fields != []
    ensures WrittenFields(fields, DumpFields(fields))
    decreases fields, 1
  {
    hide Written, WrittenFields, WrittenMember, Dumps, PrintString;
    var f := fields[0];
    var t := PrintString(f.key) + ":" + Dumps(f.value);
    DumpsWrites(f.value);
    WriteMember(f, [], Dumps(f.value));
    assert t == PrintString(f.key) + (":" + ([] + Dumps(f.value)));
    if |fields| == 1 {
      WriteFields(fields, t, [], [], []);
      assert t + [] == t;
    } else {
      var more := DumpFields(fields[1..]);
      DumpFieldsWrites(fields[1..]);
      WriteFields(fields, t, [], [], more);
      assert [] + ("," + ([] + more)) == "," + more;
      assert DumpFields(fields) == t + ("," + more);
    }
  }

  /** A line break and two blanks for every level. */
  function NewLine(level: nat): (b: string)
    ensures Blanks(b)
  {
    if level == 0 then "\n" else NewLine(level - 1) + "  "
  }

  /** `json.dumps` with an indent of two. */
  function Pretty(v: Json, level: nat): string
    decreases v, 0
  {
    match v
    case Arr(items) => if items == [] then "[]" else "[" + NewLine(level + 1) + PrettyItems(items, level + 1) + NewLine(level) + "]"
    case Obj(fields) => if fields == [] then "{}" else "{" + NewLine(level + 1) + PrettyFields(fields, level + 1) + NewLine(level) + "}"
    case _ => Dumps(v)
  }

  function PrettyItems(items: seq<Json>, level: nat): string
    requires items != []
    decreases items, 1
  {
    Pretty(items[0], level) + if |items| == 1 then [] else "," + NewLine(level) + PrettyItems(items[1..], level)
  }

  function PrettyFields(fields: seq<Member>, level: nat): string
    requires fields != []
    decreases fields, 1
  {
    PrintString(fields[0].key) + ": " + Pretty(fields[0].value, level)
    + if |fields| == 1 then [] else "," + NewLine(level) + PrettyFields(fields[1..], level)
  }

  lemma WriteScalar(v: Json)
    requires !v.Arr? && !v.Obj?
    ensures Written(v, Dumps(v))
  {
  }

  lemma PrettyShape(v: Json, level: nat)
    ensures !v.Arr? && !v.Obj? ==> Pretty(v, level) == Dumps(v)
    ensures v == Arr([]) ==> Pretty(v, level) == "[]"
    ensures v == Obj([]) ==> Pretty(v, level) == "{}"
    ensures v.Arr? && v.items != [] ==>
              Pretty(v, level) == "[" + (NewLine(level + 1) + (PrettyItems(v.items, level + 1) + NewLine(level) + "]"))
    ensures v.Obj? && v.fields != [] ==>
              Pretty(v, level) == "{" + (NewLine(level + 1) + (PrettyFields(v.fields, level + 1) + NewLine(level) + "}"))
  {
    hide Dumps, NewLine, PrettyItems, PrettyFields;
  }

  lemma {:induction false} PrettyWrites(v: Json, level: nat)
    ensures Written(v, Pretty(v, level))
    decreases v, 0
  {
    hide Written, WrittenItems, WrittenFields, Dumps, NewLine, Pretty, PrettyItems, PrettyFields;
    PrettyShape(v, level);
    WriteEmpty();
    match v
    case Arr(items) =>
      if items != [] {
        PrettyItemsWrites(items, level + 1, NewLine(level));
        WriteArr(items, NewLine(level + 1), PrettyItems(items, level + 1) + NewLine(level));
      }
    case Obj(fields) =>
      if fields != [] {
        PrettyFieldsWrites(fields, level + 1, NewLine(level));
        WriteObj(fields, NewLine(level + 1), PrettyFields(fields, level + 1) + NewLine(level));
      }
    case _ => WriteScalar(v);
  }

  lemma {:induction false} PrettyItemsWrites(items: seq<Json>, level: nat, end: string)
    requires items != [] && Blanks(end)
    ensures WrittenItems(items, PrettyItems(items, level) + end)
    decreases items, 1
  {
    hide Written, WrittenItems, Pretty, NewLine, Blanks;
    var t, c := Pretty(items[0], level), NewLine(level);
    PrettyWrites(items[0], level);
    NoBlanks();
    if |items| == 1 {
      WriteItems(items, t, end, [], []);
      assert PrettyItems(items, level) == t;
    } else {
      var more := PrettyItems(items[1..], level) + end;
      PrettyItemsWrites(items[1..], level, end);
      WriteItems(items, t, [], c, more);
      assert [] + ("," + (c + more)) == "," + (c + more);
      Ending(t, ",", c, PrettyItems(items[1..], level), end);
    }
  }

  lemma Ending(t: string, comma: string, c: string, more: string, end: string)
    ensures t + (comma + c + more) + end == t + (comma + (c + (more + end)))
  {
    assert comma + c + more + end == comma + (c + (more + end));
  }

  lemma NoBlanks()
    ensures Blanks([]) && Blanks(" ")
  {
  }

  lemma {:induction false} PrettyFieldsWrites(fields: seq<Member>, level: nat, end: string)
    requires fields != [] && Blanks(end)
    ensures WrittenFields(fields, PrettyFields(fields, level) + end)
    decreases fields, 1
  {
    hide Written, WrittenFields, WrittenMember, Pretty, NewLine, PrintString, Blanks;
    var f, c := fields[0], NewLine(level);
    var t := PrintString(f.key) + ": " + Pretty(f.value, level);
    PrettyWrites(f.value, level);
    NoBlanks();
    WriteMember(f, " ", Pretty(f.value, level));
    assert ": " == ":" + " ";
    assert t == PrintString(f.key) + (":" + (" " + Pretty(f.value, level)));
    if |fields| == 1 {
      WriteFields(fields, t, end, [], []);
      assert PrettyFields(fields, level) == t;
    } else {
      var more := PrettyFields(fields[1..], level) + end;
      PrettyFieldsWrites(fields[1..], level, end);
      WriteFields(fields, t, [], c, more);
      assert [] + ("," + (c + more)) == "," + (c + more);
      Ending(t, ",", c, PrettyFields(fields[1..], level), end);
    }
  }

  /** `loads(dumps(v)) == v` for every value a program can hold, with compact separators or with an indent of two and a
      line break at the end, as the tools write their files. */
  lemma LoadsDumps(v: Json)
    requires Valid(v)
    ensures Loads(Dumps(v)) == Some(v)
    ensures Loads(Pretty(v, 0) + "\n") == Some(v)
  {
    hide ParseValue, Dumps, Written, Pretty;
    DumpsWrites(v);
    PrettyWrites(v, 0);
    LoadsWritten(v, [], Dumps(v), []);
    LoadsWritten(v, [], Pretty(v, 0), "\n");
    assert [] + Dumps(v) + [] == Dumps(v) && [] + Pretty(v, 0) + "\n" == Pretty(v, 0) + "\n";
  }
}
