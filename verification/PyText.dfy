/** The part of Python's string type the tooling relies on, and the two result types of the model. */
module PyText {

  datatype Option<+T> = None | Some(value: T)

  datatype Result<+T, +E> = Ok(value: T) | Err(error: E)

  /** The characters that `str.isspace` accepts. */
  predicate IsSpace(c: char) {
    var n := c as int;
    0x9 <= n <= 0xd || 0x1c <= n <= 0x20 || n == 0x85 || n == 0xa0 || n == 0x1680 || 0x2000 <= n <= 0x200a
    || n == 0x2028 || n == 0x2029 || n == 0x202f || n == 0x205f || n == 0x3000
  }

  /** The characters that `str.splitlines` splits on. */
  predicate IsBreak(c: char) {
    var n := c as int;
    0xa <= n <= 0xd || 0x1c <= n <= 0x1e || n == 0x85 || n == 0x2028 || n == 0x2029
  }

  predicate NoBreak(s: string) {
    forall i :: 0 <= i < |s| ==> !IsBreak(s[i])
  }

  predicate IsDigit(c: char) {
    '0' <= c <= '9'
  }

  predicate AllDigits(s: string) {
    forall i :: 0 <= i < |s| ==> IsDigit(s[i])
  }

  function TrimLeft(s: string): string {
    if s != [] && IsSpace(s[0]) then TrimLeft(s[1..]) else s
  }

  function TrimRight(s: string): string {
    if s != [] && IsSpace(s[|s| - 1]) then TrimRight(s[..|s| - 1]) else s
  }

  function Strip(s: string): string {
    TrimLeft(TrimRight(s))
  }

  /** Neither end of `s` is white space; such a text is its own `strip()`. */
  predicate Trimmed(s: string) {
    s == [] || (!IsSpace(s[0]) && !IsSpace(s[|s| - 1]))
  }

  /** `strip()` of a text cut at both ends is the part between, whatever white space surrounds it. */
  lemma StripTrimmed(s: string)
    requires Trimmed(s)
    ensures TrimLeft(s) == TrimRight(s) == Strip(s) == s
  {
  }

  lemma {:induction false} TrimRightShape(s: string)
    ensures TrimRight(s) <= s
    ensures TrimRight(s) == [] || !IsSpace(TrimRight(s)[|TrimRight(s)| - 1])
    ensures forall i :: |TrimRight(s)| <= i < |s| ==> IsSpace(s[i])
  {
    if s != [] && IsSpace(s[|s| - 1]) {
      TrimRightShape(s[..|s| - 1]);
    }
  }

  lemma {:induction false} TrimLeftShape(s: string)
    ensures |TrimLeft(s)| <= |s| && TrimLeft(s) == s[|s| - |TrimLeft(s)|..]
    ensures TrimLeft(s) == [] || !IsSpace(TrimLeft(s)[0])
    ensures forall i :: 0 <= i < |s| - |TrimLeft(s)| ==> IsSpace(s[i])
  {
    if s != [] && IsSpace(s[0]) {
      TrimLeftShape(s[1..]);
      forall i | 0 <= i < |s| - |TrimLeft(s)|
        ensures IsSpace(s[i])
      {
        if i > 0 {
          assert s[i] == s[1..][i - 1];
        }
      }
    }
  }

  lemma StripShape(s: string)
    ensures Trimmed(Strip(s))
    ensures forall c :: c in Strip(s) ==> c in s
  {
    var r := TrimRight(s);
    TrimRightShape(s);
    TrimLeftShape(r);
    var t := Strip(s);
    if t != [] {
      assert t[|t| - 1] == r[|r| - 1];
    }
  }

  /** `strip()` keeps every character that is not white space. */
  lemma StripKeeps(s: string, i: nat)
    requires i < |s| && !IsSpace(s[i])
    ensures s[i] in Strip(s)
  {
    hide IsSpace;
    var r := TrimRight(s);
    TrimRightShape(s);
    TrimLeftShape(r);
    var cut := |r| - |Strip(s)|;
    assert i < |r| && r[i] == s[i];
    assert cut <= i && Strip(s)[i - cut] == r[i];
  }

  lemma {:induction false} TrimRightAppend(s: string, tail: string)
    requires forall i :: 0 <= i < |tail| ==> IsSpace(tail[i])
    ensures TrimRight(s + tail) == TrimRight(s)
    decreases |tail|
  {
    if tail == [] {
      assert s + tail == s;
    } else {
      var all := s + tail;
      assert all[..|all| - 1] == s + tail[..|tail| - 1];
      TrimRightAppend(s, tail[..|tail| - 1]);
    }
  }

  lemma TrimRightIdempotent(s: string)
    ensures TrimRight(TrimRight(s)) == TrimRight(s)
  {
    TrimRightShape(s);
  }

  /** `strip()` drops any white space put around a text that has none at its ends. */
  lemma {:induction false} StripPadded(left: string, body: string)
    requires forall i :: 0 <= i < |left| ==> IsSpace(left[i])
    requires body != [] && Trimmed(body)
    ensures Strip(left + body) == body
  {
    assert (left + body)[|left + body| - 1] == body[|body| - 1];
    TrimLeftPadded(left, body);
  }

  lemma {:induction false} TrimLeftPadded(left: string, body: string)
    requires forall i :: 0 <= i < |left| ==> IsSpace(left[i])
    requires body == [] || !IsSpace(body[0])
    ensures TrimLeft(left + body) == body
  {
    if left == [] {
      assert left + body == body;
    } else {
      assert (left + body)[1..] == left[1..] + body;
      TrimLeftPadded(left[1..], body);
    }
  }

  predicate StartsWith(s: string, prefix: string) {
    prefix <= s
  }

  predicate EndsWith(s: string, suffix: string) {
    |suffix| <= |s| && s[|s| - |suffix|..] == suffix
  }

  function Find(s: string, c: char): (i: nat)
    ensures i <= |s|
    ensures i < |s| ==> s[i] == c
    ensures forall k :: 0 <= k < i ==> s[k] != c
  {
    if s == [] || s[0] == c then 0 else 1 + Find(s[1..], c)
  }

  lemma FindAt(s: string, c: char, i: nat)
    requires i <= |s| && (i < |s| ==> s[i] == c)
    requires forall k :: 0 <= k < i ==> s[k] != c
    ensures Find(s, c) == i
  {
  }

  /** Does `s` contain `part` as a substring? */
  predicate Contains(s: string, part: string) {
    exists i :: 0 <= i <= |s| && OccursAt(s, part, i)
  }

  predicate OccursAt(s: string, part: string, i: nat) {
    i + |part| <= |s| && s[i..i + |part|] == part
  }

  /** `str.splitlines`: a carriage return and the line feed after it are one break, a final break adds no line. */
  function SplitLines(text: string): seq<string> {
    SplitFrom([], text)
  }

  function SplitFrom(line: string, text: string): seq<string>
    decreases |text|
  {
    if text == [] then
      if line == [] then [] else [line]
    else if text[0] == '\r' && |text| > 1 && text[1] == '\n' then
      [line] + SplitFrom([], text[2..])
    else if IsBreak(text[0]) then
      [line] + SplitFrom([], text[1..])
    else
      SplitFrom(line + [text[0]], text[1..])
  }

  /** Every line followed by a line feed. */
  function JoinLines(lines: seq<string>): string {
    if lines == [] then [] else lines[0] + "\n" + JoinLines(lines[1..])
  }

  lemma {:induction false} SplitOneLine(line: string, more: string, rest: string)
    requires NoBreak(more)
    ensures SplitFrom(line, more + "\n" + rest) == [line + more] + SplitFrom([], rest)
    decreases |more|
  {
    var text := more + "\n" + rest;
    if more == [] {
      assert text == "\n" + rest;
      assert text[1..] == rest;
      assert line + more == line;
    } else {
      assert text[0] == more[0] && text[1..] == more[1..] + "\n" + rest;
      assert (line + [more[0]]) + more[1..] == line + more;
      SplitOneLine(line + [more[0]], more[1..], rest);
    }
  }

  /** Splitting the join of break-free lines gives the lines back. */
  lemma {:induction false} SplitJoin(lines: seq<string>)
    requires forall i :: 0 <= i < |lines| ==> NoBreak(lines[i])
    ensures SplitLines(JoinLines(lines)) == lines
  {
    if lines != [] {
      SplitOneLine([], lines[0], JoinLines(lines[1..]));
      assert [] + lines[0] == lines[0];
      SplitJoin(lines[1..]);
    }
  }

  /** The decimal digits of `n`, as `str(int)` writes them. */
  function Decimal(n: nat): (s: string)
    ensures s != [] && AllDigits(s)
  {
    if n < 10 then [Digit(n)] else Decimal(n / 10) + [Digit(n % 10)]
  }

  function Digit(n: nat): (c: char)
    requires n < 10
    ensures IsDigit(c) && c as int - '0' as int == n
  {
    ('0' as int + n) as char
  }

  /** `int()` on a text of digits. */
  function ParseDecimal(s: string): nat
    requires AllDigits(s)
  {
    if s == [] then 0 else ParseDecimal(s[..|s| - 1]) * 10 + (s[|s| - 1] as int - '0' as int)
  }

  lemma {:induction false} DecimalRoundTrip(n: nat)
    ensures ParseDecimal(Decimal(n)) == n
  {
    if n >= 10 {
      var s := Decimal(n);
      assert s[..|s| - 1] == Decimal(n / 10);
      DecimalRoundTrip(n / 10);
    }
  }

  /** Python's order on strings. */
  predicate Less(a: string, b: string) {
    b != [] && (a == [] || a[0] < b[0] || (a[0] == b[0] && Less(a[1..], b[1..])))
  }

  lemma {:induction false} LessTransitive(a: string, b: string, c: string)
    requires Less(a, b) && Less(b, c)
    ensures Less(a, c)
  {
    if a != [] && a[0] == b[0] == c[0] {
      LessTransitive(a[1..], b[1..], c[1..]);
    }
  }

  lemma {:induction false} LessTotal(a: string, b: string)
    ensures a == b || Less(a, b) || Less(b, a)
  {
    if a != [] && b != [] && a[0] == b[0] {
      LessTotal(a[1..], b[1..]);
      assert a == [a[0]] + a[1..] && b == [b[0]] + b[1..];
    }
  }

  lemma {:induction false} LessAsymmetric(a: string, b: string)
    requires Less(a, b)
    ensures !Less(b, a) && a != b
  {
    if a != [] && a[0] == b[0] {
      LessAsymmetric(a[1..], b[1..]);
    }
  }

  lemma LessIsKeyOrder(a: string, b: string, c: string)
    ensures Less(a, b) ==> !Less(b, a)
    ensures !Less(b, a) && !Less(c, b) ==> !Less(c, a)
    ensures !Less(b, a) && !Less(c, b) && (a == c || Less(c, a)) ==> a == b == c
    ensures !Less(b, a) <==> a == b || Less(a, b)
    ensures !Less(a, a)
  {
    hide Less;
    LessTotal(a, b);
    LessTotal(b, c);
    if Less(a, b) {
      LessAsymmetric(a, b);
    }
    if Less(b, a) {
      LessAsymmetric(b, a);
    }
    if Less(a, a) {
      LessAsymmetric(a, a);
    }
    if Less(a, b) && Less(b, c) {
      LessTransitive(a, b, c);
    }
    if Less(c, a) {
      LessAsymmetric(c, a);
    }
  }
}
