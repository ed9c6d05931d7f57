/** A canonical printer for build matrices, and the proofs that the reader inverts it and never sees comments. */
module MatrixPrinter {
  import opened PyText
  import opened MatrixReader
  import opened MatrixWords

  // ---------------------------------------------------------------- comments never change meaning

  /** `strip_comment` keeps a prefix, and a second application changes nothing. */
  lemma StripCommentIsPrefix(line: string)
    ensures StripComment(line) <= line
    ensures StripComment(StripComment(line)) == StripComment(line)
  {
    var i := CommentAt(PLAIN, line);
    var kept := StripComment(line);
    TrimRightShape(line[..i]);
    assert line == kept + line[|kept|..];
    CommentAtConcat(PLAIN, kept, line[|kept|..]);
    assert kept[..|kept|] == kept;
    TrimRightIdempotent(line[..i]);
  }

  /** The line ends outside quotes and escapes, or already holds a comment. */
  predicate EndsPlain(line: string) {
    After(PLAIN, line) == PLAIN || CommentAt(PLAIN, line) < |line|
  }

  /** A comment put after a line is removed again, together with the blank before it. */
  lemma CommentIsInvisible(line: string, remark: string)
    requires EndsPlain(line)
    ensures StripComment(line + " #" + remark) == StripComment(line)
  {
    var i := CommentAt(PLAIN, line);
    CommentAtConcat(PLAIN, line, " #" + remark);
    assert line + " #" + remark == line + (" #" + remark);
    if i == |line| {
      assert CommentAt(PLAIN, " #" + remark) == 1 by {
        assert (" #" + remark)[1..] == "#" + remark;
      }
      assert (line + " #" + remark)[..|line| + 1] == line + " ";
      assert line[..|line|] == line;
      TrimRightAppend(line, " ");
    } else {
      assert (line + " #" + remark)[..i] == line[..i];
    }
  }

  ghost predicate Remarked(line: string, line': string) {
    line' == line || (EndsPlain(line) && exists remark :: line' == line + " #" + remark)
  }

  lemma {:induction false} RunIgnoresComments(r: Reader, a: seq<string>, b: seq<string>, n: nat)
    requires |a| == |b| && forall i :: 0 <= i < |a| ==> StripComment(a[i]) == StripComment(b[i])
    ensures Run(r, a, n) == Run(r, b, n)
    decreases |a|
  {
    if a != [] {
      match Step(r, a[0]) {
        case Err(_) =>
        case Ok(next) => RunIgnoresComments(next, a[1..], b[1..], n + 1);
      }
    }
  }

  /** Remarks added to any number of lines leave the result of the reader as it was, its errors included. */
  lemma CommentsNeverChangeMeaning(lines: seq<string>, remarked: seq<string>)
    requires |lines| == |remarked|
    requires forall i :: 0 <= i < |lines| ==> NoBreak(lines[i]) && NoBreak(remarked[i]) && Remarked(lines[i], remarked[i])
    ensures ReadMatrix(JoinLines(remarked)) == ReadMatrix(JoinLines(lines))
  {
    SplitJoin(lines);
    SplitJoin(remarked);
    forall i | 0 <= i < |lines|
      ensures StripComment(lines[i]) == StripComment(remarked[i])
    {
      if remarked[i] != lines[i] {
        var remark :| remarked[i] == lines[i] + " #" + remark;
        CommentIsInvisible(lines[i], remark);
      }
    }
    RunIgnoresComments(START, lines, remarked, 1);
  }

  // ---------------------------------------------------------------- the printer

  /** From this state of the scanner on, the text holds no comment. */
  predicate NoCutFrom(q: Quoting, s: string) {
    CommentAt(q, s) == |s|
  }

  predicate NoCut(s: string) {
    NoCutFrom(PLAIN, s)
  }

  /** The scanner's state behind a key and its colon: a key may hold an odd quote. */
  function AfterKey(key: string): (q: Quoting)
    ensures !q.escaped
  {
    After(PLAIN, key).(escaped := false)
  }

  function InQuotes(q: char, s: string): string {
    [q] + s + [q]
  }

  predicate Bare(q: Quoting, s: string) {
    s != [] && Trimmed(s) && NoCutFrom(q, s) && IsPlain(s)
  }

  /** Strings the subset can express where the scanner is in state `q`: bare, or between quotes, so that every `#` of the
      string is hidden. */
  predicate Expressible(q: Quoting, s: string) {
    NoBreak(s) && (Bare(q, s) || NoCutFrom(q, InQuotes('"', s)) || NoCutFrom(q, InQuotes('\'', s)))
  }

  function PrintScalar(q: Quoting, v: Scalar): string {
    match v
    case Flag(b) => if b then "true" else "false"
    case Null => "null"
    case Number(n) => Decimal(n)
    case Text(s) =>
      if Bare(q, s) then s else if NoCutFrom(q, InQuotes('"', s)) then InQuotes('"', s) else InQuotes('\'', s)
  }

  function Spaces(n: nat): string {
    seq(n, _ => ' ')
  }

  function Indented(n: nat, body: string): string {
    Spaces(n) + body
  }

  function PrintItems(items: seq<Scalar>): seq<string> {
    if items == [] then [] else [Indented(6, "- " + PrintScalar(PLAIN, items[0]))] + PrintItems(items[1..])
  }

  function PrintPair(key: string, v: Scalar): string {
    key + ": " + PrintScalar(AfterKey(key), v)
  }

  function PrintField(f: Field): seq<string> {
    match f.value
    case One(v) => [Indented(4, PrintPair(f.key, v))]
    case Many(items) => [Indented(4, f.key + ":")] + PrintItems(items)
  }

  function PrintFields(fields: seq<Field>): seq<string> {
    if fields == [] then [] else PrintField(fields[0]) + PrintFields(fields[1..])
  }

  function DashLine(key: string, v: Scalar): string {
    Indented(2, "- " + PrintPair(key, v))
  }

  /** A list that comes first is written over a scalar: the dash line opens the entry with the key, and the list then
      takes the key's place. */
  function PrintEntry(e: Entry): seq<string>
    requires e != []
  {
    match e[0].value
    case One(v) => [DashLine(e[0].key, v)] + PrintFields(e[1..])
    case Many(_) => [DashLine(e[0].key, Null)] + PrintFields(e)
  }

  function PrintEntries(entries: seq<Entry>): seq<string>
    requires ValidEntries(entries)
  {
    if entries == [] then [] else PrintEntry(entries[0]) + PrintEntries(entries[1..])
  }

  function PrintScans(scans: seq<Scalar>): seq<string> {
    if scans == [] then [] else [Indented(2, "- " + PrintScalar(PLAIN, scans[0]))] + PrintScans(scans[1..])
  }

  function PrintOthers(names: seq<string>): seq<string> {
    if names == [] then [] else [names[0] + ":"] + PrintOthers(names[1..])
  }

  function PrintMatrix(m: Matrix): seq<string>
    requires ValidMatrix(m)
  {
    ["defconfigs:"] + PrintEntries(m.defconfigs) + ["variants:"] + PrintEntries(m.variants)
    + ["security_scans:"] + PrintScans(m.scans) + PrintOthers(m.others)
  }

  // ---------------------------------------------------------------- what can be printed

  predicate ValidScalar(q: Quoting, v: Scalar) {
    v.Text? ==> Expressible(q, v.s)
  }

  predicate ValidKey(key: string) {
    NoBreak(key) && Trimmed(key) && ':' !in key && NoCut(key)
  }

  /** Items under an empty key are an error of the reader, so such a list must be empty. */
  predicate ValidField(f: Field) {
    && ValidKey(f.key)
    && match f.value {
         case One(v) => ValidScalar(AfterKey(f.key), v)
         case Many(items) => (f.key == [] ==> items == []) && ValidScalars(items)
       }
  }

  predicate DistinctKeys(e: Entry) {
    forall i, j :: 0 <= i < j < |e| ==> e[i].key != e[j].key
  }

  /** A dash line always holds a key, so no entry is empty. */
  predicate ValidEntry(e: Entry) {
    e != [] && DistinctKeys(e) && forall i :: 0 <= i < |e| ==> ValidField(e[i])
  }

  predicate ValidScalars(vs: seq<Scalar>) {
    forall i :: 0 <= i < |vs| ==> ValidScalar(PLAIN, vs[i])
  }

  predicate ValidEntries(entries: seq<Entry>) {
    forall i :: 0 <= i < |entries| ==> ValidEntry(entries[i])
  }

  predicate ValidName(name: string) {
    NoBreak(name) && NoCut(name) && (name == [] || !IsSpace(name[0])) && !KnownSection(name)
  }

  predicate ValidMatrix(m: Matrix) {
    && ValidEntries(m.defconfigs) && ValidEntries(m.variants) && ValidScalars(m.scans)
    && (forall i :: 0 <= i < |m.others| ==> ValidName(m.others[i]))
    && (forall i, j :: 0 <= i < j < |m.others| ==> m.others[i] != m.others[j])
  }

  // ---------------------------------------------------------------- single lines

  predicate Unmarked(s: string) {
    forall c :: c in s ==> c != '#' && c != '\\' && c != '\'' && c != '"'
  }

  lemma {:induction false} UnmarkedUncut(q: Quoting, s: string)
    requires Unmarked(s) && !q.escaped
    ensures NoCutFrom(q, s) && After(q, s) == q
    decreases |s|
  {
    if s != [] {
      assert s[0] in s && forall c :: c in s[1..] ==> c in s;
      UnmarkedUncut(q, s[1..]);
    }
  }

  lemma NoCutAppend(a: string, b: string)
    requires NoCut(a) && After(PLAIN, a) == PLAIN
    ensures After(PLAIN, a + b) == After(PLAIN, b)
    ensures CommentAt(PLAIN, a + b) == |a| + CommentAt(PLAIN, b)
  {
    CommentAtConcat(PLAIN, a, b);
  }

  /** A comment-free line reaches the section parser as its indent and its text. */
  lemma StepIndented(r: Reader, n: nat, body: string)
    requires body != [] && Trimmed(body) && NoCut(body)
    ensures Step(r, Indented(n, body)) == Apply(r, n, body)
  {
    var line := Indented(n, body);
    UnmarkedUncut(PLAIN, Spaces(n));
    NoCutAppend(Spaces(n), body);
    assert line[..|line|] == line;
    assert line[|line| - 1] == body[|body| - 1];
    StripPadded(Spaces(n), body);
    IndentOf(n, body);
  }

  lemma {:induction false} IndentOf(n: nat, body: string)
    requires body != [] && body[0] != ' '
    ensures Indent(Spaces(n) + body) == n
  {
    if n == 0 {
      assert Spaces(0) + body == body;
    } else {
      assert (Spaces(n) + body)[1..] == Spaces(n - 1) + body;
      IndentOf(n - 1, body);
    }
  }

  lemma BareIsAtom(q: Quoting, s: string)
    requires s != [] && Unmarked(s) && Trimmed(s) && !q.escaped
    ensures NoCutFrom(q, s) && Strip(s) == s && !Quoted(s)
  {
    UnmarkedUncut(q, s);
    StripTrimmed(s);
    assert s[0] in s;
  }

  /** The text is one clean word of a line in state `q` and reads as `v`. */
  predicate Writes(q: Quoting, s: string, v: Scalar) {
    s != [] && Trimmed(s) && NoCutFrom(q, s) && NoBreak(s) && ParseScalar(s) == v
  }

  /** A printed scalar reads back as itself. */
  lemma ScalarRoundTrip(q: Quoting, v: Scalar)
    requires ValidScalar(q, v) && !q.escaped
    ensures Writes(q, PrintScalar(q, v), v)
  {
    match v
    case Flag(b) => BareIsAtom(q, PrintScalar(q, v));
    case Null => BareIsAtom(q, "null");
    case Number(n) => NumberRoundTrip(q, n);
    case Text(s) => TextRoundTrip(q, s);
  }

  lemma NumberRoundTrip(q: Quoting, n: nat)
    requires !q.escaped
    ensures Writes(q, Decimal(n), Number(n))
  {
    DecimalRoundTrip(n);
    var s := Decimal(n);
    hide Decimal, ParseDecimal;
    assert IsDigit(s[0]);
    BareIsAtom(q, s);
    hide CommentAt, TrimLeft, TrimRight;
  }

  lemma TextRoundTrip(q: Quoting, s: string)
    requires Expressible(q, s)
    ensures Writes(q, PrintScalar(q, Text(s)), Text(s))
  {
    hide CommentAt, TrimLeft, TrimRight;
    var t := PrintScalar(q, Text(s));
    if Bare(q, s) {
      ScalarMeans(s, Text(s));
    } else {
      QuotedRoundTrip(t[0], s);
    }
  }

  lemma QuotedRoundTrip(q: char, s: string)
    requires IsQuote(q) && NoBreak(s)
    ensures var t := InQuotes(q, s);
            Trimmed(t) && NoBreak(t) && ParseScalar(t) == Text(s)
  {
    var t := InQuotes(q, s);
    StripTrimmed(t);
    assert t[1..|t| - 1] == s;
    assert forall i :: 1 <= i <= |s| ==> t[i] == s[i - 1];
  }

  /** Exactly the expressible strings can be written: if any comment-free text reads as `s`, the printer has one too. */
  lemma PrinterIsComplete(q: Quoting, text: string, s: string)
    requires !q.escaped && NoBreak(text) && NoCutFrom(q, text) && Strip(text) != [] && ParseScalar(text) == Text(s)
    ensures Expressible(q, s) && ParseScalar(PrintScalar(q, Text(s))) == Text(s)
  {
    var value := Strip(text);
    StripShape(text);
    StripTrimmed(value);
    StripKeepsUncut(q, text);
    assert NoBreak(value) by {
      forall i | 0 <= i < |value|
        ensures !IsBreak(value[i])
      {
        assert value[i] in value;
      }
    }
    if Quoted(value) {
      assert value == InQuotes(value[0], s);
      assert forall i :: 0 <= i < |s| ==> s[i] == value[i + 1];
    } else {
      ScalarMeans(value, Text(s));
      assert Bare(q, s);
    }
    ScalarRoundTrip(q, Text(s));
  }

  lemma StripKeepsUncut(q: Quoting, text: string)
    requires NoCutFrom(q, text) && !q.escaped
    ensures NoCutFrom(q, Strip(text))
  {
    var r := TrimRight(text);
    TrimRightShape(text);
    assert text == r + text[|r|..];
    CommentAtConcat(q, r, text[|r|..]);
    TrimLeftShape(r);
    var left := r[..|r| - |TrimLeft(r)|];
    assert r == left + TrimLeft(r);
    assert Unmarked(left) by {
      forall c | c in left
        ensures c != '#' && c != '\\' && c != '\'' && c != '"'
      {
        var i :| 0 <= i < |left| && left[i] == c;
        assert IsSpace(r[i]);
      }
    }
    UnmarkedUncut(q, left);
    CommentAtConcat(q, left, TrimLeft(r));
  }

  /** `key: value` splits at its first colon. */
  lemma KeyValueRoundTrip(key: string, v: string)
    requires ValidKey(key) && v != [] && Trimmed(v) && NoCutFrom(AfterKey(key), v)
    ensures var body := key + ": " + v;
            ParseKeyValue(body) == Some((key, v)) && Trimmed(body) && NoCut(body)
  {
    KeyValueUncut(key, v);
    hide CommentAt, After, AfterKey;
    var body := key + ": " + v;
    FindAt(body, ':', |key|);
    assert body[..|key|] == key;
    assert body[|key| + 1..] == " " + v;
    StripTrimmed(key);
    StripPadded(" ", v);
    hide Strip, Find;
    assert body[|body| - 1] == v[|v| - 1];
  }

  /** A colon and a blank end an escape and change nothing else. */
  lemma ColonUncut(q: Quoting, v: string)
    ensures CommentAt(q, ": " + v) == 2 + CommentAt(q.(escaped := false), v)
  {
    assert (": " + v)[1..] == " " + v;
    assert (" " + v)[1..] == v;
  }

  lemma KeyValueUncut(key: string, v: string)
    requires ValidKey(key) && NoCutFrom(AfterKey(key), v)
    ensures NoCut(key + ": " + v)
  {
    assert key + ": " + v == key + (": " + v);
    CommentAtConcat(PLAIN, key, ": " + v);
    ColonUncut(After(PLAIN, key), v);
  }

  lemma KeyAlone(key: string)
    requires ValidKey(key)
    ensures var body := key + ":";
            ParseKeyValue(body) == Some((key, [])) && Trimmed(body) && NoCut(body)
  {
    var body := key + ":";
    FindAt(body, ':', |key|);
    assert body[..|key|] == key && body[|key| + 1..] == [];
    StripTrimmed(key);
    CommentAtConcat(PLAIN, key, ":");
  }

  lemma Dashed(v: string)
    requires v != [] && Trimmed(v) && NoCut(v)
    ensures var body := "- " + v;
            Trimmed(body) && NoCut(body) && Strip(body[2..]) == v
  {
    var body := "- " + v;
    assert body[2..] == v;
    StripTrimmed(v);
    assert body[|body| - 1] == v[|v| - 1];
    UnmarkedUncut(PLAIN, "- ");
    NoCutAppend("- ", v);
  }

  lemma RunStep(r: Reader, line: string, rest: seq<string>, n: nat, next: Reader)
    requires Step(r, line) == Ok(next)
    ensures Run(r, [line] + rest, n) == Run(next, rest, n + 1)
  {
    hide Step;
    assert ([line] + rest)[1..] == rest;
  }

  // ---------------------------------------------------------------- entries

  predicate HasKey(e: Entry, key: string) {
    exists i :: 0 <= i < |e| && e[i].key == key
  }

  lemma {:induction false} PutNew(e: Entry, key: string, value: Value)
    requires !HasKey(e, key)
    ensures Put(e, key, value) == e + [Field(key, value)]
  {
    if e != [] {
      assert e[0].key != key;
      assert forall i :: 0 <= i < |e[1..]| ==> e[1..][i].key == e[i + 1].key;
      PutNew(e[1..], key, value);
      assert [e[0]] + (e[1..] + [Field(key, value)]) == e + [Field(key, value)];
    }
  }

  lemma {:induction false} AppendToNew(e: Entry, key: string, items: seq<Scalar>, item: Scalar)
    requires !HasKey(e, key)
    ensures AppendItem(e + [Field(key, Many(items))], key, item) == e + [Field(key, Many(items + [item]))]
  {
    var last := [Field(key, Many(items))];
    if e == [] {
      assert e + last == last;
    } else {
      assert e[0].key != key;
      assert forall i :: 0 <= i < |e[1..]| ==> e[1..][i].key == e[i + 1].key;
      assert (e + last)[1..] == e[1..] + last;
      AppendToNew(e[1..], key, items, item);
    }
  }

  /** The reader inside an entry: `done` entries of the section are complete, `current` is open. */
  function Inside(base: Matrix, section: Option<string>, done: seq<Entry>, current: Entry, pending: Option<string>): Reader {
    Reader(WithEntries(base, section, done + [current]), section, true, pending)
  }

  lemma UpdateInside(base: Matrix, section: Option<string>, done: seq<Entry>, current: Entry, pending: Option<string>, f: Entry -> Entry)
    requires InEntries(section)
    ensures UpdateCurrent(Inside(base, section, done, current, pending), f) == WithEntries(base, section, done + [f(current)])
  {
    assert (done + [current])[..|done|] == done;
  }

  lemma ReadItem(base: Matrix, section: Option<string>, done: seq<Entry>, e: Entry, key: string, read: seq<Scalar>, item: Scalar)
    requires InEntries(section) && !HasKey(e, key) && key != [] && ValidScalar(PLAIN, item)
    ensures Step(Inside(base, section, done, e + [Field(key, Many(read))], Some(key)), Indented(6, "- " + PrintScalar(PLAIN, item)))
            == Ok(Inside(base, section, done, e + [Field(key, Many(read + [item]))], Some(key)))
  {
    var v := PrintScalar(PLAIN, item);
    ScalarRoundTrip(PLAIN, item);
    Dashed(v);
    hide CommentAt, After, ParseScalar, PrintScalar, TrimLeft, TrimRight, AppendItem;
    StepIndented(Inside(base, section, done, e + [Field(key, Many(read))], Some(key)), 6, "- " + v);
    UpdateInside(base, section, done, e + [Field(key, Many(read))], Some(key), (x: Entry) => AppendItem(x, key, ParseScalar(v)));
    AppendToNew(e, key, read, item);
  }

  lemma {:induction false} ReadItems(base: Matrix, section: Option<string>, done: seq<Entry>, e: Entry, key: string,
                                     read: seq<Scalar>, items: seq<Scalar>, n: nat)
    requires InEntries(section) && !HasKey(e, key) && key != []
    requires ValidScalars(items)
    ensures Run(Inside(base, section, done, e + [Field(key, Many(read))], Some(key)), PrintItems(items), n)
            == Ok(Inside(base, section, done, e + [Field(key, Many(read + items))], Some(key)))
    decreases |items|
  {
    var r := Inside(base, section, done, e + [Field(key, Many(read))], Some(key));
    if items == [] {
      assert read + items == read;
    } else {
      ReadItem(base, section, done, e, key, read, items[0]);
      hide Step, PrintScalar, ValidScalar, HasKey, WithEntries, UpdateLast;
      assert (read + [items[0]]) + items[1..] == read + items;
      ReadItems(base, section, done, e, key, read + [items[0]], items[1..], n + 1);
    }
  }

  function PendingAfter(f: Field): Option<string> {
    if f.value.One? then None else Some(f.key)
  }

  /** A list is read into the last place of the entry, whether its key is new or holds a scalar there. */
  lemma ReadList(base: Matrix, section: Option<string>, done: seq<Entry>, before: Entry, e: Entry, pending: Option<string>, f: Field, n: nat)
    requires InEntries(section) && ValidField(f) && f.value.Many? && !HasKey(e, f.key)
    requires Put(before, f.key, Many([])) == e + [Field(f.key, Many([]))]
    ensures Run(Inside(base, section, done, before, pending), PrintField(f), n)
            == Ok(Inside(base, section, done, e + [f], Some(f.key)))
  {
    var r := Inside(base, section, done, before, pending);
    var items := f.value.items;
    var next := Inside(base, section, done, e + [Field(f.key, Many([]))], Some(f.key));
    KeyAlone(f.key);
    StepIndented(r, 4, f.key + ":");
    UpdateInside(base, section, done, before, pending, (x: Entry) => Put(x, f.key, Many([])));
    assert Step(r, Indented(4, f.key + ":")) == Ok(next);
    assert [] + items == items;
    assert PrintField(f)[1..] == PrintItems(items);
    if f.key != [] {
      ReadItems(base, section, done, e, f.key, [], items, n + 1);
    }
  }

  lemma ReadScalar(base: Matrix, section: Option<string>, done: seq<Entry>, e: Entry, pending: Option<string>, f: Field)
    requires InEntries(section) && ValidField(f) && f.value.One? && !HasKey(e, f.key)
    ensures Step(Inside(base, section, done, e, pending), Indented(4, PrintPair(f.key, f.value.scalar)))
            == Ok(Inside(base, section, done, e + [f], None))
  {
    var r := Inside(base, section, done, e, pending);
    var v := PrintScalar(AfterKey(f.key), f.value.scalar);
    ScalarRoundTrip(AfterKey(f.key), f.value.scalar);
    KeyValueRoundTrip(f.key, v);
    hide CommentAt, After, AfterKey, ParseScalar, PrintScalar, ParseKeyValue, TrimLeft, TrimRight, Put;
    StepIndented(r, 4, f.key + ": " + v);
    UpdateInside(base, section, done, e, pending, (x: Entry) => Put(x, f.key, One(ParseScalar(v))));
    PutNew(e, f.key, f.value);
  }

  lemma ReadField(base: Matrix, section: Option<string>, done: seq<Entry>, e: Entry, pending: Option<string>, f: Field, n: nat)
    requires InEntries(section) && ValidField(f) && !HasKey(e, f.key)
    ensures Run(Inside(base, section, done, e, pending), PrintField(f), n)
            == Ok(Inside(base, section, done, e + [f], PendingAfter(f)))
  {
    hide Step, ValidField, PrintPair, Put;
    if f.value.One? {
      ReadScalar(base, section, done, e, pending, f);
    } else {
      PutNew(e, f.key, Many([]));
      ReadList(base, section, done, e, e, pending, f, n);
    }
  }

  lemma {:induction false} ReadFields(base: Matrix, section: Option<string>, done: seq<Entry>, e: Entry, pending: Option<string>,
                                      fields: seq<Field>, n: nat)
    requires InEntries(section) && DistinctKeys(e + fields)
    requires forall i :: 0 <= i < |fields| ==> ValidField(fields[i])
    ensures exists p ::
              Run(Inside(base, section, done, e, pending), PrintFields(fields), n) == Ok(Inside(base, section, done, e + fields, p))
    decreases |fields|
  {
    hide Step, PrintField, ValidField, WithEntries;
    var r := Inside(base, section, done, e, pending);
    if fields == [] {
      assert e + fields == e;
    } else {
      var f := fields[0];
      assert (e + fields)[|e|] == f;
      assert forall i :: 0 <= i < |e| ==> (e + fields)[i] == e[i];
      ReadField(base, section, done, e, pending, f, n);
      RunConcat(r, PrintField(f), PrintFields(fields[1..]), n);
      assert (e + [f]) + fields[1..] == e + fields;
      ReadFields(base, section, done, e + [f], PendingAfter(f), fields[1..], n + |PrintField(f)|);
    }
  }

  /** Complete entries of a section have been read. `AtEntries` forgets whether the last one may still grow. */
  ghost predicate AtEntries(r: Reader, base: Matrix, section: Option<string>, done: seq<Entry>) {
    r.data == WithEntries(base, section, done) && r.section == section
  }

  lemma ReadDash(r: Reader, base: Matrix, section: Option<string>, done: seq<Entry>, key: string, scalar: Scalar)
    requires InEntries(section) && AtEntries(r, base, section, done) && ValidKey(key) && ValidScalar(AfterKey(key), scalar)
    ensures Step(r, DashLine(key, scalar)) == Ok(Inside(base, section, done, [Field(key, One(scalar))], None))
  {
    var v := PrintScalar(AfterKey(key), scalar);
    var body := key + ": " + v;
    ScalarRoundTrip(AfterKey(key), scalar);
    KeyValueRoundTrip(key, v);
    hide CommentAt, After, AfterKey, ParseScalar, PrintScalar, ParseKeyValue, ValidKey, ValidScalar, TrimLeft,
         TrimRight;
    Dashed(body);
    StepIndented(r, 2, "- " + body);
    assert Apply(r, 2, "- " + body) == Ok(OpenEntry(r, [Field(key, One(scalar))]));
  }

  /** The first field of an entry, whichever kind it is. */
  function FirstLines(f: Field): seq<string> {
    match f.value
    case One(v) => [DashLine(f.key, v)]
    case Many(_) => [DashLine(f.key, Null)] + PrintField(f)
  }

  lemma ReadFirst(r: Reader, base: Matrix, section: Option<string>, done: seq<Entry>, f: Field, n: nat)
    requires InEntries(section) && AtEntries(r, base, section, done) && ValidField(f)
    ensures Run(r, FirstLines(f), n) == Ok(Inside(base, section, done, [f], PendingAfter(f)))
  {
    hide Step, DashLine, ValidKey, ValidScalars, Expressible, PrintField;
    match f.value
    case One(v) =>
      ReadDash(r, base, section, done, f.key, v);
    case Many(_) =>
      var begun := Inside(base, section, done, [Field(f.key, One(Null))], None);
      ReadDash(r, base, section, done, f.key, Null);
      assert [] + [f] == [f];
      ReadList(base, section, done, [Field(f.key, One(Null))], [], None, f, n + 1);
      RunStep(r, DashLine(f.key, Null), PrintField(f), n, begun);
  }

  lemma EntryLines(e: Entry)
    requires e != []
    ensures PrintEntry(e) == FirstLines(e[0]) + PrintFields(e[1..])
  {
    hide DashLine, PrintField;
    assert [DashLine(e[0].key, Null)] + (PrintField(e[0]) + PrintFields(e[1..]))
        == [DashLine(e[0].key, Null)] + PrintField(e[0]) + PrintFields(e[1..]);
  }

  lemma ReadEntry(r: Reader, base: Matrix, section: Option<string>, done: seq<Entry>, e: Entry, rest: seq<string>, n: nat)
    returns (next: Reader)
    requires InEntries(section) && AtEntries(r, base, section, done) && ValidEntry(e)
    ensures Run(r, PrintEntry(e) + rest, n) == Run(next, rest, n + |PrintEntry(e)|)
    ensures AtEntries(next, base, section, done + [e])
  {
    hide Step, Run, FirstLines, PrintEntry, PrintFields, ValidField;
    var first, more := FirstLines(e[0]), PrintFields(e[1..]);
    var begun := Inside(base, section, done, [e[0]], PendingAfter(e[0]));
    var after := n + |first|;
    EntryLines(e);
    ReadFirst(r, base, section, done, e[0], n);
    assert [e[0]] + e[1..] == e;
    ReadFields(base, section, done, [e[0]], PendingAfter(e[0]), e[1..], after);
    var p :| Run(begun, more, after) == Ok(Inside(base, section, done, e, p));
    next := Inside(base, section, done, e, p);
    RunConcat(begun, more, rest, after);
    RunConcat(r, first, more + rest, n);
    assert PrintEntry(e) + rest == first + (more + rest);
  }

  lemma {:induction false} ReadEntries(r: Reader, base: Matrix, section: Option<string>, done: seq<Entry>, entries: seq<Entry>, n: nat)
    requires InEntries(section) && AtEntries(r, base, section, done)
    requires ValidEntries(entries)
    ensures Run(r, PrintEntries(entries), n).Ok?
    ensures AtEntries(Run(r, PrintEntries(entries), n).value, base, section, done + entries)
    decreases |entries|
  {
    hide Step, PrintEntry, ValidField;
    if entries == [] {
      assert done + entries == done;
    } else {
      var next := ReadEntry(r, base, section, done, entries[0], PrintEntries(entries[1..]), n);
      assert (done + [entries[0]]) + entries[1..] == done + entries;
      ReadEntries(next, base, section, done + [entries[0]], entries[1..], n + |PrintEntry(entries[0])|);
    }
  }

  // ---------------------------------------------------------------- whole files

  lemma ReadHeader(r: Reader, name: string)
    requires NoCut(name) && (name == [] || !IsSpace(name[0]))
    ensures Step(r, name + ":") == Ok(Reader(AddSection(r.data, name), Some(name), false, None))
  {
    var body := name + ":";
    CommentAtConcat(PLAIN, name, ":");
    assert Indented(0, body) == body;
    assert body[..|body| - 1] == name;
    StepIndented(r, 0, body);
  }

  lemma ReadScan(r: Reader, scan: Scalar)
    requires r.section == Some("security_scans") && ValidScalar(PLAIN, scan)
    ensures Step(r, Indented(2, "- " + PrintScalar(PLAIN, scan))) == Ok(r.(data := r.data.(scans := r.data.scans + [scan])))
  {
    var v := PrintScalar(PLAIN, scan);
    ScalarRoundTrip(PLAIN, scan);
    Dashed(v);
    hide CommentAt, After, ParseScalar, PrintScalar, TrimLeft, TrimRight;
    StepIndented(r, 2, "- " + v);
  }

  lemma {:induction false} ReadScans(r: Reader, scans: seq<Scalar>, n: nat)
    requires r.section == Some("security_scans")
    requires ValidScalars(scans)
    ensures Run(r, PrintScans(scans), n) == Ok(r.(data := r.data.(scans := r.data.scans + scans)))
    decreases |scans|
  {
    hide Step, PrintScalar, ValidScalar;
    if scans == [] {
      assert r.data.scans + scans == r.data.scans;
    } else {
      var next := r.(data := r.data.(scans := r.data.scans + [scans[0]]));
      ReadScan(r, scans[0]);
      RunStep(r, Indented(2, "- " + PrintScalar(PLAIN, scans[0])), PrintScans(scans[1..]), n, next);
      assert (r.data.scans + [scans[0]]) + scans[1..] == r.data.scans + scans;
      ReadScans(next, scans[1..], n + 1);
    }
  }

  lemma {:induction false} ReadOthers(r: Reader, names: seq<string>, n: nat)
    requires forall i :: 0 <= i < |names| ==> ValidName(names[i]) && names[i] !in r.data.others
    requires forall i, j :: 0 <= i < j < |names| ==> names[i] != names[j]
    ensures Run(r, PrintOthers(names), n).Ok?
    ensures Run(r, PrintOthers(names), n).value.data == r.data.(others := r.data.others + names)
    decreases |names|
  {
    if names == [] {
      assert r.data.others + names == r.data.others;
    } else {
      ReadHeader(r, names[0]);
      var next := Reader(AddSection(r.data, names[0]), Some(names[0]), false, None);
      assert (r.data.others + [names[0]]) + names[1..] == r.data.others + names;
      ReadOthers(next, names[1..], n + 1);
    }
  }

  lemma ReadKnownHeader(r: Reader, name: string)
    requires KnownSection(name)
    ensures Step(r, name + ":") == Ok(Reader(r.data, Some(name), false, None))
  {
    hide Step, CommentAt, After;
    assert Unmarked(name);
    UnmarkedUncut(PLAIN, name);
    ReadHeader(r, name);
  }

  lemma ReadSection(r: Reader, name: string, entries: seq<Entry>, rest: seq<string>, n: nat) returns (next: Reader)
    requires InEntries(Some(name)) && Entries(r.data, Some(name)) == []
    requires ValidEntries(entries)
    ensures Run(r, [name + ":"] + PrintEntries(entries) + rest, n) == Run(next, rest, n + 1 + |PrintEntries(entries)|)
    ensures next.data == WithEntries(r.data, Some(name), entries)
  {
    hide Step, Run, PrintEntries, ValidEntries;
    ReadKnownHeader(r, name);
    var begun := Reader(r.data, Some(name), false, None);
    assert [] + entries == entries;
    var lines := PrintEntries(entries);
    ReadEntries(begun, r.data, Some(name), [], entries, n + 1);
    next := Run(begun, lines, n + 1).value;
    RunConcat(begun, lines, rest, n + 1);
    RunStep(r, name + ":", lines + rest, n, begun);
    assert [name + ":"] + lines + rest == [name + ":"] + (lines + rest);
  }

  lemma ReadTail(r: Reader, scans: seq<Scalar>, others: seq<string>, n: nat)
    requires r.data.scans == [] && r.data.others == [] && ValidScalars(scans)
    requires forall i :: 0 <= i < |others| ==> ValidName(others[i])
    requires forall i, j :: 0 <= i < j < |others| ==> others[i] != others[j]
    ensures Run(r, ["security_scans:"] + PrintScans(scans) + PrintOthers(others), n).Ok?
    ensures Run(r, ["security_scans:"] + PrintScans(scans) + PrintOthers(others), n).value.data
            == r.data.(scans := scans, others := others)
  {
    hide Step, Run, PrintScans, PrintOthers, ValidScalars, ValidName;
    ReadKnownHeader(r, "security_scans");
    assert "security_scans:" == "security_scans" + ":";
    var begun := Reader(r.data, Some("security_scans"), false, None);
    ReadScans(begun, scans, n + 1);
    RunConcat(begun, PrintScans(scans), PrintOthers(others), n + 1);
    assert [] + scans == scans && [] + others == others;
    var full := begun.(data := r.data.(scans := scans));
    ReadOthers(full, others, n + 1 + |PrintScans(scans)|);
    RunStep(r, "security_scans:", PrintScans(scans) + PrintOthers(others), n, begun);
    assert ["security_scans:"] + PrintScans(scans) + PrintOthers(others) == ["security_scans:"] + (PrintScans(scans) + PrintOthers(others));
  }

  /** The reader inverts the printer on every matrix the subset can express. */
  lemma MatrixRoundTrip(m: Matrix)
    requires ValidMatrix(m)
    ensures ReadLines(PrintMatrix(m)) == Ok(m)
  {
    hide Run, PrintEntries, PrintScans, PrintOthers, ValidEntries, ValidScalars, ValidName;
    var tail := ["security_scans:"] + PrintScans(m.scans) + PrintOthers(m.others);
    var second := ["variants:"] + PrintEntries(m.variants) + tail;
    assert PrintMatrix(m) == ["defconfigs:"] + PrintEntries(m.defconfigs) + second;
    assert "defconfigs:" == "defconfigs" + ":" && "variants:" == "variants" + ":";
    var r1 := ReadSection(START, "defconfigs", m.defconfigs, second, 1);
    var n1 := 2 + |PrintEntries(m.defconfigs)|;
    var r2 := ReadSection(r1, "variants", m.variants, tail, n1);
    ReadTail(r2, m.scans, m.others, n1 + 1 + |PrintEntries(m.variants)|);
  }

  predicate Unbroken(lines: seq<string>) {
    forall i :: 0 <= i < |lines| ==> NoBreak(lines[i])
  }

  lemma ScalarUnbroken(q: Quoting, v: Scalar, n: nat, before: string)
    requires ValidScalar(q, v) && !q.escaped && NoBreak(before)
    ensures NoBreak(Indented(n, before + PrintScalar(q, v)))
  {
    ScalarRoundTrip(q, v);
  }

  lemma {:induction false} ItemsUnbroken(items: seq<Scalar>)
    requires ValidScalars(items)
    ensures Unbroken(PrintItems(items)) && Unbroken(PrintScans(items))
  {
    if items != [] {
      ScalarUnbroken(PLAIN, items[0], 6, "- ");
      ScalarUnbroken(PLAIN, items[0], 2, "- ");
      ItemsUnbroken(items[1..]);
    }
  }

  lemma PairUnbroken(key: string, v: Scalar, n: nat)
    requires ValidKey(key) && ValidScalar(AfterKey(key), v)
    ensures NoBreak(Indented(n, PrintPair(key, v))) && NoBreak(Indented(n, "- " + PrintPair(key, v)))
  {
    ScalarUnbroken(AfterKey(key), v, n, key + ": ");
    ScalarUnbroken(AfterKey(key), v, n, "- " + (key + ": "));
    hide PrintScalar, AfterKey, ValidScalar, NoCutFrom;
    assert "- " + PrintPair(key, v) == "- " + (key + ": ") + PrintScalar(AfterKey(key), v);
  }

  lemma FieldUnbroken(f: Field)
    requires ValidField(f)
    ensures Unbroken(PrintField(f)) && Unbroken(FirstLines(f))
  {
    hide PrintPair, ValidKey, Expressible, ValidScalars, PrintItems;
    match f.value
    case One(v) => PairUnbroken(f.key, v, 4); PairUnbroken(f.key, v, 2);
    case Many(items) =>
      ItemsUnbroken(items);
      PairUnbroken(f.key, Null, 2);
      assert NoBreak(f.key) by {
        KeyUnbroken(f.key);
      }
  }

  lemma KeyUnbroken(key: string)
    requires ValidKey(key)
    ensures NoBreak(key)
  {
  }

  lemma {:induction false} FieldsUnbroken(fields: seq<Field>)
    requires forall i :: 0 <= i < |fields| ==> ValidField(fields[i])
    ensures Unbroken(PrintFields(fields))
  {
    hide PrintField, ValidField;
    if fields != [] {
      FieldUnbroken(fields[0]);
      FieldsUnbroken(fields[1..]);
    }
  }

  lemma {:induction false} EntriesUnbroken(entries: seq<Entry>)
    requires ValidEntries(entries)
    ensures Unbroken(PrintEntries(entries))
  {
    hide FirstLines, PrintFields, PrintEntry, ValidField;
    if entries != [] {
      var e := entries[0];
      EntryLines(e);
      FieldUnbroken(e[0]);
      FieldsUnbroken(e[1..]);
      EntriesUnbroken(entries[1..]);
    }
  }

  lemma {:induction false} OthersUnbroken(names: seq<string>)
    requires forall i :: 0 <= i < |names| ==> ValidName(names[i])
    ensures Unbroken(PrintOthers(names))
  {
    if names != [] {
      OthersUnbroken(names[1..]);
    }
  }

  lemma PrintedUnbroken(m: Matrix)
    requires ValidMatrix(m)
    ensures Unbroken(PrintMatrix(m))
  {
    hide PrintScalar, ValidEntry, CommentAt, PrintFields, PrintEntry;
    EntriesUnbroken(m.defconfigs);
    EntriesUnbroken(m.variants);
    ItemsUnbroken(m.scans);
    OthersUnbroken(m.others);
    assert NoBreak("defconfigs:") && NoBreak("variants:") && NoBreak("security_scans:");
  }

  /** The same for the file's text. */
  lemma MatrixTextRoundTrip(m: Matrix)
    requires ValidMatrix(m)
    ensures ReadMatrix(JoinLines(PrintMatrix(m))) == Ok(m)
  {
    PrintedUnbroken(m);
    SplitJoin(PrintMatrix(m));
    hide PrintMatrix, ReadLines, ValidEntries, ValidScalars, ValidName;
    MatrixRoundTrip(m);
  }
}
