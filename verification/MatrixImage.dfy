/** The converse of the printer's round trip: whatever the matrix reader accepts, the printer can write. */
module MatrixImage {
  import opened PyText
  import opened MatrixReader
  import opened MatrixPrinter

  // ---------------------------------------------------------------- words of a line

  predicate White(s: string) {
    forall i :: 0 <= i < |s| ==> IsSpace(s[i])
  }

  /** One word of a line, reached by the comment scanner in state `q`. */
  predicate Word(q: Quoting, s: string) {
    NoBreak(s) && Trimmed(s) && NoCutFrom(q, s)
  }

  lemma UncutParts(q: Quoting, a: string, b: string)
    requires NoCutFrom(q, a + b)
    ensures NoCutFrom(q, a) && NoCutFrom(After(q, a), b)
  {
    CommentAtConcat(q, a, b);
  }

  /** White space ends an escape and changes nothing else. */
  lemma {:induction false} WhiteKeepsQuotes(q: Quoting, white: string)
    requires White(white)
    ensures After(q, white).(escaped := false) == q.(escaped := false)
    ensures !q.escaped ==> After(q, white) == q
    decreases |white|
  {
    if white != [] {
      WhiteKeepsQuotes(Advance(q, white[0]), white[1..]);
    }
  }

  lemma StripParts(s: string) returns (left: string, right: string)
    ensures s == left + Strip(s) + right && White(left) && White(right)
  {
    var r := TrimRight(s);
    TrimRightShape(s);
    TrimLeftShape(r);
    left, right := r[..|r| - |Strip(s)|], s[|r|..];
    hide IsSpace;
    assert r == left + Strip(s);
    assert s == r + right;
    assert forall i :: 0 <= i < |right| ==> right[i] == s[|r| + i];
  }

  lemma StripIsWord(q: Quoting, s: string)
    requires NoBreak(s) && NoCutFrom(q, s) && !q.escaped
    ensures Word(q, Strip(s))
  {
    StripKeepsUncut(q, s);
    StripShape(s);
    hide CommentAt, TrimLeft, TrimRight;
    var t := Strip(s);
    forall i | 0 <= i < |t|
      ensures !IsBreak(t[i])
    {
      assert t[i] in t;
    }
  }

  /** The text the section parser sees of a line is a word. */
  lemma LineIsWord(raw: string)
    requires NoBreak(raw)
    ensures Word(PLAIN, Strip(StripComment(raw)))
  {
    var line := StripComment(raw);
    StripCommentIsPrefix(raw);
    TrimRightShape(raw[..CommentAt(PLAIN, raw)]);
    assert raw == line + raw[|line|..];
    CommentAtConcat(PLAIN, line, raw[|line|..]);
    StripIsWord(PLAIN, line);
  }

  lemma DashedIsWord(text: string)
    requires Word(PLAIN, text) && "- " <= text
    ensures Word(PLAIN, Strip(text[2..])) && Strip(text[2..]) != []
  {
    assert text == "- " + text[2..];
    UnmarkedUncut(PLAIN, "- ");
    UncutParts(PLAIN, "- ", text[2..]);
    StripIsWord(PLAIN, text[2..]);
    StripKeeps(text, |text| - 1);
    StripKeeps(text[2..], |text| - 3);
  }

  /** Both sides of the first colon: a valid key, and a word in the state that the key leaves behind. */
  lemma SidesAreWords(text: string, key: string, value: string)
    requires Word(PLAIN, text) && ParseKeyValue(text) == Some((key, value))
    ensures ValidKey(key) && Word(AfterKey(key), value)
  {
    var i := Find(text, ':');
    var front, back := text[..i], text[i + 1..];
    assert text == front + ":" + back;
    UncutParts(PLAIN, front + ":", back);
    UncutParts(PLAIN, front, ":");
    CommentAtConcat(PLAIN, front, ":");
    assert After(PLAIN, front + ":") == After(PLAIN, front).(escaped := false);
    KeyIsValid(front);
    hide CommentAt, TrimLeft, TrimRight, After;
    StripIsWord(AfterKey(key), back);
  }

  lemma KeyIsValid(front: string)
    requires NoBreak(front) && NoCut(front) && ':' !in front
    ensures ValidKey(Strip(front)) && AfterKey(Strip(front)) == After(PLAIN, front).(escaped := false)
  {
    var key := Strip(front);
    StripIsWord(PLAIN, front);
    StripShape(front);
    var left, right := StripParts(front);
    hide TrimLeft, TrimRight, CommentAt;
    WhiteKeepsQuotes(PLAIN, left);
    CommentAtConcat(PLAIN, left, key);
    CommentAtConcat(PLAIN, left + key, right);
    WhiteKeepsQuotes(After(PLAIN, key), right);
  }

  lemma ScalarIsValid(q: Quoting, value: string)
    requires Word(q, value) && !q.escaped
    ensures ValidScalar(q, ParseScalar(value))
  {
    StripTrimmed(value);
    if value == [] {
      var pair := InQuotes('"', []);
      assert pair == "\"\"" && pair[1..] == "\"" && pair[1..][1..] == [];
      assert NoCutFrom(q, pair);
    } else if ParseScalar(value).Text? {
      PrinterIsComplete(q, value, ParseScalar(value).s);
    }
  }

  // ---------------------------------------------------------------- one line

  lemma {:induction false} PutKeepsValid(e: Entry, key: string, value: Value)
    requires DistinctKeys(e) && (forall i :: 0 <= i < |e| ==> ValidField(e[i])) && ValidField(Field(key, value))
    ensures ValidEntry(Put(e, key, value))
    ensures forall f :: f in Put(e, key, value) ==> f.key == key || exists i :: 0 <= i < |e| && e[i].key == f.key
  {
    hide ValidField;
    if e != [] && e[0].key != key {
      PutKeepsValid(e[1..], key, value);
      var rest := Put(e[1..], key, value);
      forall j | 0 <= j < |rest|
        ensures rest[j].key != e[0].key
      {
        assert rest[j] in rest;
      }
    }
  }

  lemma {:induction false} AppendKeepsValid(e: Entry, key: string, item: Scalar)
    requires key != [] && ValidScalar(PLAIN, item) && DistinctKeys(e) && forall i :: 0 <= i < |e| ==> ValidField(e[i])
    ensures var e' := AppendItem(e, key, item);
            |e'| == |e| && DistinctKeys(e') && forall i :: 0 <= i < |e| ==> e'[i].key == e[i].key && ValidField(e'[i])
  {
    hide ValidKey, ValidScalar;
    if e != [] && e[0].key != key {
      AppendKeepsValid(e[1..], key, item);
    }
  }

  lemma UpdateKeepsValid(r: Reader, f: Entry -> Entry)
    requires ValidMatrix(r.data)
    requires forall e :: ValidEntry(e) ==> ValidEntry(f(e))
    ensures ValidMatrix(UpdateCurrent(r, f))
  {
    hide ValidEntry, ValidScalars, ValidName;
  }

  lemma OpenKeepsValid(r: Reader, e: Entry)
    requires ValidMatrix(r.data) && ValidEntry(e)
    ensures ValidMatrix(OpenEntry(r, e).data)
  {
    hide ValidEntry, ValidScalars, ValidName;
  }

  lemma HeaderKeepsValid(r: Reader, text: string)
    requires ValidMatrix(r.data) && Word(PLAIN, text) && text != [] && text[|text| - 1] == ':'
    ensures ValidMatrix(AddSection(r.data, text[..|text| - 1]))
  {
    var name := text[..|text| - 1];
    assert text == name + ":";
    UncutParts(PLAIN, name, ":");
    hide ValidEntries, ValidScalars, CommentAt;
  }

  lemma DashKeepsValid(r: Reader, text: string, next: Reader)
    requires ValidMatrix(r.data) && Word(PLAIN, text) && text != [] && InEntries(r.section) && "- " <= text
    requires Apply(r, 2, text) == Ok(next)
    ensures ValidMatrix(next.data)
  {
    DashedIsWord(text);
    var rest := Strip(text[2..]);
    var kv := ParseKeyValue(rest);
    hide ParseKeyValue, Strip, ParseScalar, ValidMatrix, OpenEntry, ValidKey, ValidScalar, Word, NoBreak;
    assert kv.Some?;
    var (key, value) := kv.value;
    SidesAreWords(rest, key, value);
    ScalarIsValid(AfterKey(key), value);
    OpenKeepsValid(r, [Field(key, One(ParseScalar(value)))]);
  }

  lemma FieldIsValid(key: string, value: Value)
    requires ValidKey(key)
    requires match value { case One(v) => ValidScalar(AfterKey(key), v) case Many(items) => items == [] }
    ensures ValidField(Field(key, value))
  {
  }

  lemma FieldKeepsValid(r: Reader, text: string, next: Reader)
    requires ValidMatrix(r.data) && Word(PLAIN, text) && text != [] && InEntries(r.section) && r.open
    requires Apply(r, 4, text) == Ok(next)
    ensures ValidMatrix(next.data)
  {
    var kv := ParseKeyValue(text);
    hide ParseKeyValue, Strip, ParseScalar, ValidMatrix, UpdateCurrent, ValidKey, ValidScalar, Word, NoBreak, Put,
         ValidField;
    assert kv.Some?;
    var (key, value) := kv.value;
    SidesAreWords(text, key, value);
    ScalarIsValid(AfterKey(key), value);
    var put := if value != [] then One(ParseScalar(value)) else Many([]);
    FieldIsValid(key, put);
    forall e | ValidEntry(e)
      ensures ValidEntry(Put(e, key, put))
    {
      PutKeepsValid(e, key, put);
    }
    if value != [] {
      UpdateKeepsValid(r, e => Put(e, key, One(ParseScalar(value))));
    } else {
      UpdateKeepsValid(r, e => Put(e, key, Many([])));
    }
  }

  lemma ItemKeepsValid(r: Reader, text: string)
    requires ValidMatrix(r.data) && Word(PLAIN, text) && "- " <= text && r.pending.Some? && r.pending.value != []
    ensures ValidMatrix(UpdateCurrent(r, e => AppendItem(e, r.pending.value, ParseScalar(Strip(text[2..])))))
  {
    DashedIsWord(text);
    var key, item := r.pending.value, ParseScalar(Strip(text[2..]));
    ScalarIsValid(PLAIN, Strip(text[2..]));
    hide ParseScalar, Strip, ValidMatrix, UpdateCurrent, ValidField, ValidScalar, AppendItem, Word;
    forall e | ValidEntry(e)
      ensures ValidEntry(AppendItem(e, key, item))
    {
      AppendKeepsValid(e, key, item);
    }
    UpdateKeepsValid(r, e => AppendItem(e, r.pending.value, ParseScalar(Strip(text[2..]))));
  }

  lemma ScanKeepsValid(data: Matrix, text: string)
    requires ValidMatrix(data) && Word(PLAIN, text) && "- " <= text
    ensures ValidMatrix(data.(scans := data.scans + [ParseScalar(Strip(text[2..]))]))
  {
    DashedIsWord(text);
    ScalarIsValid(PLAIN, Strip(text[2..]));
    hide ParseScalar, Strip, ValidEntries, ValidName, ValidScalar, Word;
  }

  lemma ApplyKeepsValid(r: Reader, indent: nat, text: string, next: Reader)
    requires ValidMatrix(r.data) && Word(PLAIN, text) && text != []
    requires Apply(r, indent, text) == Ok(next)
    ensures ValidMatrix(next.data)
  {
    hide ParseKeyValue, Strip, ParseScalar, ValidMatrix, OpenEntry, UpdateCurrent, Put, AppendItem, AddSection, Word,
         KnownSection;
    if indent == 0 && text[|text| - 1] == ':' {
      HeaderKeepsValid(r, text);
    } else if InEntries(r.section) && indent == 2 && "- " <= text {
      DashKeepsValid(r, text, next);
    } else if InEntries(r.section) && indent == 4 && r.open {
      FieldKeepsValid(r, text, next);
    } else if InEntries(r.section) && indent == 6 && "- " <= text && r.open && r.pending.Some? && r.pending.value != [] {
      ItemKeepsValid(r, text);
    } else {
      ScanKeepsValid(r.data, text);
    }
  }

  // ---------------------------------------------------------------- whole files

  lemma {:induction false} RunKeepsValid(r: Reader, lines: seq<string>, n: nat)
    requires ValidMatrix(r.data) && Unbroken(lines) && Run(r, lines, n).Ok?
    ensures ValidMatrix(Run(r, lines, n).value.data)
    decreases |lines|
  {
    hide Apply, StripComment, ValidMatrix, Strip;
    if lines != [] {
      var line := StripComment(lines[0]);
      var next := Step(r, lines[0]).value;
      LineIsWord(lines[0]);
      if Strip(line) != [] {
        ApplyKeepsValid(r, Indent(line), Strip(line), next);
      }
      RunKeepsValid(next, lines[1..], n + 1);
    }
  }

  lemma {:induction false} SplitUnbroken(line: string, text: string)
    requires NoBreak(line)
    ensures Unbroken(SplitFrom(line, text))
    decreases |text|
  {
    if text != [] {
      if text[0] == '\r' && |text| > 1 && text[1] == '\n' {
        SplitUnbroken([], text[2..]);
      } else if IsBreak(text[0]) {
        SplitUnbroken([], text[1..]);
      } else {
        SplitUnbroken(line + [text[0]], text[1..]);
      }
    }
  }

  /** Every matrix that some text denotes can be printed: with `MatrixTextRoundTrip`, the printable matrices are exactly
      the image of the reader. */
  lemma ValidIsReadable(m: Matrix)
    ensures ValidMatrix(m) <==> exists text :: ReadMatrix(text) == Ok(m)
  {
    if ValidMatrix(m) {
      MatrixTextRoundTrip(m);
    }
    forall text | ReadMatrix(text) == Ok(m)
      ensures ValidMatrix(m)
    {
      SplitUnbroken([], text);
      RunKeepsValid(START, SplitLines(text), 1);
    }
  }

  /** Whatever file is read, its matrix printed and read again is the same matrix. */
  lemma RereadIsIdentity(text: string)
    requires ReadMatrix(text).Ok?
    ensures var m := ReadMatrix(text).value;
            ValidMatrix(m) && ReadMatrix(JoinLines(PrintMatrix(m))) == ReadMatrix(text)
  {
    var m := ReadMatrix(text).value;
    ValidIsReadable(m);
    MatrixTextRoundTrip(m);
  }
}
