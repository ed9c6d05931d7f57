/** The reader of `ci/build-matrix.yml`: comment stripping, scalars, and the line-by-line section parser. */
module MatrixReader {
  import opened PyText

  // ---------------------------------------------------------------- comments

  /** What the comment scanner remembers between two characters. */
  datatype Quoting = Quoting(single: bool, double: bool, escaped: bool)

  const PLAIN := Quoting(false, false, false)

  predicate Cuts(q: Quoting, c: char) {
    c == '#' && !q.escaped && !q.single && !q.double
  }

  function Advance(q: Quoting, c: char): Quoting {
    if q.escaped then q.(escaped := false)
    else if c == '\\' then q.(escaped := true)
    else if c == '\'' && !q.double then q.(single := !q.single)
    else if c == '"' && !q.single then q.(double := !q.double)
    else q
  }

  function After(q: Quoting, s: string): Quoting
    decreases |s|
  {
    if s == [] then q else After(Advance(q, s[0]), s[1..])
  }

  /** Position of the first `#` outside quotes and escapes, or the length of the text. */
  function CommentAt(q: Quoting, s: string): (i: nat)
    ensures i <= |s|
    decreases |s|
  {
    if s == [] || Cuts(q, s[0]) then 0 else 1 + CommentAt(Advance(q, s[0]), s[1..])
  }

  function StripComment(line: string): string {
    TrimRight(line[..CommentAt(PLAIN, line)])
  }

  method ScanComment(line: string) returns (r: string)
    ensures r == StripComment(line)
  {
    var inSingle, inDouble, escaped := false, false, false;
    for idx := 0 to |line|
      invariant After(PLAIN, line[..idx]) == Quoting(inSingle, inDouble, escaped)
      invariant CommentAt(PLAIN, line[..idx]) == idx
    {
      var c := line[idx];
      assert line[..idx + 1] == line[..idx] + [c];
      assert line == line[..idx] + ([c] + line[idx + 1..]);
      CommentAtConcat(PLAIN, line[..idx], [c]);
      CommentAtConcat(PLAIN, line[..idx], [c] + line[idx + 1..]);
      if escaped {
        escaped := false;
      } else if c == '\\' {
        escaped := true;
      } else if c == '\'' && !inDouble {
        inSingle := !inSingle;
      } else if c == '"' && !inSingle {
        inDouble := !inDouble;
      } else if c == '#' && !inSingle && !inDouble {
        return TrimRight(line[..idx]);
      }
    }
    assert line[..|line|] == line;
    r := TrimRight(line);
  }

  lemma {:induction false} CommentAtConcat(q: Quoting, a: string, b: string)
    ensures After(q, a + b) == After(After(q, a), b)
    ensures CommentAt(q, a + b) ==
            if CommentAt(q, a) < |a| then CommentAt(q, a) else |a| + CommentAt(After(q, a), b)
    decreases |a|
  {
    if a == [] {
      assert a + b == b;
    } else {
      assert (a + b)[1..] == a[1..] + b;
      CommentAtConcat(Advance(q, a[0]), a[1..], b);
    }
  }

  // ---------------------------------------------------------------- scalars

  datatype Scalar = Flag(b: bool) | Null | Number(n: nat) | Text(s: string)

  predicate IsQuote(c: char) {
    c == '\'' || c == '"'
  }

  predicate Quoted(s: string) {
    |s| >= 2 && s[0] == s[|s| - 1] && IsQuote(s[0])
  }

  function ParseScalar(text: string): Scalar {
    var value := Strip(text);
    if value == "true" || value == "false" then Flag(value == "true")
    else if value == "null" || value == "~" then Null
    else if Quoted(value) then Text(value[1..|value| - 1])
    else if value != [] && AllDigits(value) then Number(ParseDecimal(value))
    else Text(value)
  }

  /** `None` is the ValueError for a text without a colon. */
  function ParseKeyValue(text: string): Option<(string, string)> {
    var i := Find(text, ':');
    if i == |text| then None else Some((Strip(text[..i]), Strip(text[i + 1..])))
  }

  // ---------------------------------------------------------------- sections

  datatype Value = One(scalar: Scalar) | Many(items: seq<Scalar>)
  datatype Field = Field(key: string, value: Value)

  /** A dictionary of the source, in insertion order. */
  type Entry = seq<Field>

  /** `others` are the sections that are neither of the three known ones; the reader keeps them as empty lists. */
  datatype Matrix = Matrix(defconfigs: seq<Entry>, variants: seq<Entry>, scans: seq<Scalar>, others: seq<string>)

  datatype Problem = UnsupportedLine | ExpectedKeyValue
  datatype ReadError = ReadError(problem: Problem, line: nat)

  const EMPTY := Matrix([], [], [], [])

  /** Reader state. `open` says that `current` is not None; it is then the last entry of the current section. */
  datatype Reader = Reader(data: Matrix, section: Option<string>, open: bool, pending: Option<string>)

  const START := Reader(EMPTY, None, false, None)

  predicate KnownSection(name: string) {
    name == "defconfigs" || name == "variants" || name == "security_scans"
  }

  predicate InEntries(section: Option<string>) {
    section == Some("defconfigs") || section == Some("variants")
  }

  function Entries(data: Matrix, section: Option<string>): seq<Entry> {
    if section == Some("defconfigs") then data.defconfigs else data.variants
  }

  function WithEntries(data: Matrix, section: Option<string>, entries: seq<Entry>): Matrix {
    if section == Some("defconfigs") then data.(defconfigs := entries) else data.(variants := entries)
  }

  function AddSection(data: Matrix, name: string): Matrix {
    if KnownSection(name) || name in data.others then data else data.(others := data.others + [name])
  }

  /** Dictionary assignment: an existing key keeps its place. */
  function Put(e: Entry, key: string, value: Value): Entry {
    if e == [] then [Field(key, value)]
    else if e[0].key == key then [Field(key, value)] + e[1..]
    else [e[0]] + Put(e[1..], key, value)
  }

  /** `entry[key].append(item)` */
  function AppendItem(e: Entry, key: string, item: Scalar): Entry {
    if e == [] then []
    else if e[0].key == key then
      [if e[0].value.Many? then Field(key, Many(e[0].value.items + [item])) else e[0]] + e[1..]
    else [e[0]] + AppendItem(e[1..], key, item)
  }

  function UpdateLast(entries: seq<Entry>, f: Entry -> Entry): seq<Entry> {
    if entries == [] then [] else entries[..|entries| - 1] + [f(entries[|entries| - 1])]
  }

  function UpdateCurrent(r: Reader, f: Entry -> Entry): Matrix {
    WithEntries(r.data, r.section, UpdateLast(Entries(r.data, r.section), f))
  }

  function OpenEntry(r: Reader, e: Entry): Reader {
    r.(data := WithEntries(r.data, r.section, Entries(r.data, r.section) + [e]), open := true, pending := None)
  }

  function Indent(line: string): nat {
    if line != [] && line[0] == ' ' then 1 + Indent(line[1..]) else 0
  }

  /** One line of the file: its indent and its stripped text. */
  function Apply(r: Reader, indent: nat, text: string): Result<Reader, Problem>
    requires text != []
  {
    if indent == 0 && text[|text| - 1] == ':' then
      var name := text[..|text| - 1];
      Ok(Reader(AddSection(r.data, name), Some(name), false, None))
    else if InEntries(r.section) && indent == 2 && "- " <= text then
      var rest := Strip(text[2..]);
      if rest == [] then Ok(OpenEntry(r, []))
      else
        match ParseKeyValue(rest) {
          case None => Err(ExpectedKeyValue)
          case Some((key, value)) => Ok(OpenEntry(r, [Field(key, One(ParseScalar(value)))]))
        }
    else if InEntries(r.section) && indent == 4 && r.open then
      match ParseKeyValue(text) {
        case None => Err(ExpectedKeyValue)
        case Some((key, value)) =>
          if value != [] then
            Ok(r.(data := UpdateCurrent(r, e => Put(e, key, One(ParseScalar(value)))), pending := None))
          else
            Ok(r.(data := UpdateCurrent(r, e => Put(e, key, Many([]))), pending := Some(key)))
      }
    else if InEntries(r.section) && indent == 6 && "- " <= text && r.open && r.pending.Some? && r.pending.value != [] then
      Ok(r.(data := UpdateCurrent(r, e => AppendItem(e, r.pending.value, ParseScalar(Strip(text[2..]))))))
    else if r.section == Some("security_scans") && indent == 2 && "- " <= text then
      Ok(r.(data := r.data.(scans := r.data.scans + [ParseScalar(Strip(text[2..]))])))
    else
      Err(UnsupportedLine)
  }

  function Step(r: Reader, raw: string): Result<Reader, Problem> {
    var line := StripComment(raw);
    if Strip(line) == [] then Ok(r) else Apply(r, Indent(line), Strip(line))
  }

  /** Reads `lines`, the first of which has number `n`. */
  function Run(r: Reader, lines: seq<string>, n: nat): Result<Reader, ReadError>
    decreases |lines|
  {
    if lines == [] then Ok(r)
    else
      match Step(r, lines[0]) {
        case Err(problem) => Err(ReadError(problem, n))
        case Ok(next) => Run(next, lines[1..], n + 1)
      }
  }

  function ReadLines(lines: seq<string>): Result<Matrix, ReadError> {
    match Run(START, lines, 1) {
      case Err(e) => Err(e)
      case Ok(r) => Ok(r.data)
    }
  }

  /** `load_matrix` on the text of the file. */
  function ReadMatrix(text: string): Result<Matrix, ReadError> {
    ReadLines(SplitLines(text))
  }

  lemma {:induction false} RunConcat(r: Reader, a: seq<string>, b: seq<string>, n: nat)
    ensures Run(r, a + b, n) ==
            match Run(r, a, n) { case Err(e) => Err(e) case Ok(next) => Run(next, b, n + |a|) }
    decreases |a|
  {
    if a == [] {
      assert a + b == b;
    } else {
      assert (a + b)[1..] == a[1..] + b;
      match Step(r, a[0]) {
        case Err(_) =>
        case Ok(next) => RunConcat(next, a[1..], b, n + 1);
      }
    }
  }

  /** The reader loop, with the source's own local variables. */
  method LoadMatrix(text: string) returns (result: Result<Matrix, ReadError>)
    ensures result == ReadMatrix(text)
  {
    var lines := SplitLines(text);
    var data := EMPTY;
    var section: Option<string> := None;
    var open := false;
    var pendingKey: Option<string> := None;
    for i := 0 to |lines|
      invariant Run(START, lines, 1) == Run(Reader(data, section, open, pendingKey), lines[i..], i + 1)
    {
      ghost var before := Reader(data, section, open, pendingKey);
      assert lines[i..][1..] == lines[i + 1..];
      var line := ScanComment(lines[i]);
      var txt := Strip(line);
      if txt == [] {
        continue;
      }
      var indent := Indent(line);
      if indent == 0 && txt[|txt| - 1] == ':' {
        section := Some(txt[..|txt| - 1]);
        data := AddSection(data, section.value);
        open, pendingKey := false, None;
        continue;
      }
      if InEntries(section) {
        var entries := Entries(data, section);
        if indent == 2 && "- " <= txt {
          var current: Entry := [];
          var rest := Strip(txt[2..]);
          if rest != [] {
            var kv := ParseKeyValue(rest);
            if kv.None? {
              return Err(ReadError(ExpectedKeyValue, i + 1));
            }
            current := [Field(kv.value.0, One(ParseScalar(kv.value.1)))];
          }
          data := WithEntries(data, section, entries + [current]);
          open, pendingKey := true, None;
          assert Reader(data, section, open, pendingKey) == OpenEntry(before, current);
          continue;
        }
        if indent == 4 && open {
          var kv := ParseKeyValue(txt);
          if kv.None? {
            return Err(ReadError(ExpectedKeyValue, i + 1));
          }
          var (key, value) := kv.value;
          if value != [] {
            data := WithEntries(data, section, UpdateLast(entries, e => Put(e, key, One(ParseScalar(value)))));
            pendingKey := None;
          } else {
            data := WithEntries(data, section, UpdateLast(entries, e => Put(e, key, Many([]))));
            pendingKey := Some(key);
          }
          continue;
        }
        if indent == 6 && "- " <= txt && open && pendingKey.Some? && pendingKey.value != [] {
          var item := ParseScalar(Strip(txt[2..]));
          data := WithEntries(data, section, UpdateLast(entries, e => AppendItem(e, pendingKey.value, item)));
          continue;
        }
      }
      if section == Some("security_scans") && indent == 2 && "- " <= txt {
        data := data.(scans := data.scans + [ParseScalar(Strip(txt[2..]))]);
        continue;
      }
      return Err(ReadError(UnsupportedLine, i + 1));
    }
    result := Ok(data);
  }
}
