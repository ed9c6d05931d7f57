/** Written files of a few lines: which value each kind of line puts where. */
module MatrixLines {
  import opened PyText
  import opened MatrixReader
  import opened MatrixWords
  import opened MatrixPrinter

  /** A word that can be written behind `before` without being cut. */
  predicate Fits(q: Quoting, word: string) {
    word != [] && Trimmed(word) && NoBreak(word) && NoCutFrom(q, word)
  }

  lemma SpacesAre()
    ensures Spaces(2) == "  " && Spaces(4) == "    " && Spaces(6) == "      "
  {
  }

  // ---------------------------------------------------------------- single lines

  /** A pair sets its key in the open entry. */
  lemma FieldLine(base: Matrix, section: Option<string>, done: seq<Entry>, e: Entry, pending: Option<string>, key: string, word: string, v: Scalar)
    requires InEntries(section) && ValidKey(key) && Fits(AfterKey(key), word) && Means(word, v)
    ensures Step(Inside(base, section, done, e, pending), "    " + key + ": " + word)
            == Ok(Inside(base, section, done, Put(e, key, One(v)), None))
  {
    hide ParseKeyValue, ParseScalar, Means, ValidKey, AfterKey, TrimLeft, TrimRight, Put, NoCutFrom, CommentAt, Step, Spaces;
    SpacesAre();
    KeyValueRoundTrip(key, word);
    ScalarMeans(word, v);
    StripTrimmed(word);
    var r, body := Inside(base, section, done, e, pending), key + ": " + word;
    StepIndented(r, 4, body);
    assert "    " + key + ": " + word == "    " + body;
    UpdateInside(base, section, done, e, pending, (x: Entry) => Put(x, key, One(ParseScalar(word))));
  }

  /** A key alone opens a list. */
  lemma ListLine(base: Matrix, section: Option<string>, done: seq<Entry>, e: Entry, pending: Option<string>, key: string)
    requires InEntries(section) && ValidKey(key)
    ensures Step(Inside(base, section, done, e, pending), "    " + key + ":")
            == Ok(Inside(base, section, done, Put(e, key, Many([])), Some(key)))
  {
    hide ParseKeyValue, ValidKey, TrimLeft, TrimRight, Put, NoCutFrom, CommentAt, Step, Spaces;
    SpacesAre();
    KeyAlone(key);
    StepIndented(Inside(base, section, done, e, pending), 4, key + ":");
    assert "    " + key + ":" == "    " + (key + ":");
    UpdateInside(base, section, done, e, pending, (x: Entry) => Put(x, key, Many([])));
  }

  /** An item joins the list that is open. */
  lemma ItemLine(base: Matrix, section: Option<string>, done: seq<Entry>, e: Entry, key: string, word: string, v: Scalar)
    requires InEntries(section) && key != [] && Fits(PLAIN, word) && Means(word, v)
    ensures Step(Inside(base, section, done, e, Some(key)), "      - " + word)
            == Ok(Inside(base, section, done, AppendItem(e, key, v), Some(key)))
  {
    hide ParseKeyValue, ParseScalar, Means, TrimLeft, TrimRight, AppendItem, NoCutFrom, CommentAt, Step, Spaces;
    SpacesAre();
    Dashed(word);
    ScalarMeans(word, v);
    StepIndented(Inside(base, section, done, e, Some(key)), 6, "- " + word);
    assert "      - " + word == "      " + ("- " + word);
    UpdateInside(base, section, done, e, Some(key), (x: Entry) => AppendItem(x, key, ParseScalar(word)));
  }

  lemma ScanLine(r: Reader, word: string, v: Scalar)
    requires r.section == Some("security_scans") && Fits(PLAIN, word) && Means(word, v)
    ensures Step(r, "  - " + word) == Ok(r.(data := r.data.(scans := r.data.scans + [v])))
  {
    hide ParseKeyValue, ParseScalar, Means, TrimLeft, TrimRight, NoCutFrom, CommentAt, Step, Spaces;
    SpacesAre();
    Dashed(word);
    ScalarMeans(word, v);
    StepIndented(r, 2, "- " + word);
    assert "  - " + word == "  " + ("- " + word);
  }

  lemma EntryLine(r: Reader, key: string, word: string, v: Scalar)
    requires InEntries(r.section) && ValidKey(key) && Fits(AfterKey(key), word) && Means(word, v)
    ensures Step(r, "  - " + key + ": " + word) == Ok(OpenEntry(r, [Field(key, One(v))]))
  {
    hide ParseKeyValue, ParseScalar, Means, ValidKey, AfterKey, TrimLeft, TrimRight, NoCutFrom, CommentAt, Step, Spaces, OpenEntry;
    SpacesAre();
    var body := key + ": " + word;
    KeyValueRoundTrip(key, word);
    Dashed(body);
    ScalarMeans(word, v);
    StripTrimmed(word);
    StepIndented(r, 2, "- " + body);
    assert "  - " + key + ": " + word == "  " + ("- " + body);
  }

  // ---------------------------------------------------------------- a file

  /** A pair on a line. */
  datatype Pair = Pair(key: string, word: string)

  predicate PairFits(p: Pair) {
    ValidKey(p.key) && Fits(AfterKey(p.key), p.word)
  }

  /** A file with every kind of line: an entry that opens with a pair, another pair, a list of one word, and a scan. */
  function FileOf(first: Pair, second: Pair, list: string, item: string, scan: string): seq<string> {
    ["defconfigs:", "  - " + first.key + ": " + first.word, "    " + second.key + ": " + second.word,
     "    " + list + ":", "      - " + item, "security_scans:", "  - " + scan]
  }

  lemma PairUnbroken(before: string, p: Pair)
    requires PairFits(p) && NoBreak(before)
    ensures NoBreak(before + p.key + ": " + p.word)
  {
    hide NoCutFrom, NoCut, Trimmed;
    assert NoBreak(": ");
    hide IsBreak;
  }

  lemma FileUnbroken(first: Pair, second: Pair, list: string, item: string, scan: string)
    requires PairFits(first) && PairFits(second) && ValidKey(list) && Fits(PLAIN, item) && Fits(PLAIN, scan)
    ensures forall k :: 0 <= k < 7 ==> NoBreak(FileOf(first, second, list, item, scan)[k])
  {
    hide NoCutFrom, NoCut, Trimmed, PairFits;
    PairUnbroken("  - ", first);
    PairUnbroken("    ", second);
    assert NoBreak("    " + list + ":") && NoBreak("      - " + item) && NoBreak("  - " + scan);
    assert NoBreak("defconfigs:") && NoBreak("security_scans:");
    hide NoBreak;
  }

  /** The reader after the entry's first pair, with the entry still open. */
  function At(e: Entry, pending: Option<string>): Reader {
    Inside(EMPTY, Some("defconfigs"), [], e, pending)
  }

  lemma PairsAreRead(first: Pair, u: Scalar, second: Pair, v: Scalar)
    requires PairFits(first) && PairFits(second) && first.key != second.key && Means(first.word, u) && Means(second.word, v)
    ensures Step(START, "defconfigs:") == Ok(Reader(EMPTY, Some("defconfigs"), false, None))
    ensures Step(Reader(EMPTY, Some("defconfigs"), false, None), "  - " + first.key + ": " + first.word) == Ok(At([Field(first.key, One(u))], None))
    ensures Step(At([Field(first.key, One(u))], None), "    " + second.key + ": " + second.word)
            == Ok(At([Field(first.key, One(u)), Field(second.key, One(v))], None))
  {
    hide Step, Means, Fits, ValidKey, Put;
    var begun, e := Reader(EMPTY, Some("defconfigs"), false, None), [Field(first.key, One(u))];
    assert "defconfigs" + ":" == "defconfigs:";
    ReadKnownHeader(START, "defconfigs");
    EntryLine(begun, first.key, first.word, u);
    assert [] + [e] == [e];
    FieldLine(EMPTY, Some("defconfigs"), [], e, None, second.key, second.word, v);
    PutNew(e, second.key, One(v));
    assert e + [Field(second.key, One(v))] == [Field(first.key, One(u)), Field(second.key, One(v))];
  }

  lemma ListIsRead(e: Entry, list: string, item: string, w: Scalar)
    requires !HasKey(e, list) && ValidKey(list) && list != [] && Fits(PLAIN, item) && Means(item, w)
    ensures Step(At(e, None), "    " + list + ":") == Ok(At(e + [Field(list, Many([]))], Some(list)))
    ensures Step(At(e + [Field(list, Many([]))], Some(list)), "      - " + item) == Ok(At(e + [Field(list, Many([w]))], Some(list)))
  {
    hide Step, Means, Fits, ValidKey, Put, AppendItem, HasKey;
    ListLine(EMPTY, Some("defconfigs"), [], e, None, list);
    PutNew(e, list, Many([]));
    ItemLine(EMPTY, Some("defconfigs"), [], e + [Field(list, Many([]))], list, item, w);
    AppendToNew(e, list, [], w);
    assert [] + [w] == [w];
  }

  /** The words of the file stand in the matrix with their meanings, each under its key. */
  lemma FileIsRead(first: Pair, u: Scalar, second: Pair, v: Scalar, list: string, item: string, w: Scalar, scan: string, x: Scalar)
    requires PairFits(first) && PairFits(second) && ValidKey(list) && list != [] && Fits(PLAIN, item) && Fits(PLAIN, scan)
    requires first.key != second.key && first.key != list && second.key != list
    requires Means(first.word, u) && Means(second.word, v) && Means(item, w) && Means(scan, x)
    ensures ReadMatrix(JoinLines(FileOf(first, second, list, item, scan)))
            == Ok(Matrix([[Field(first.key, One(u)), Field(second.key, One(v)), Field(list, Many([w]))]], [], [x], []))
  {
    hide Step, Means, PairFits, Fits, ValidKey, SplitLines, JoinLines, Run;
    var lines := FileOf(first, second, list, item, scan);
    FileUnbroken(first, second, list, item, scan);
    SplitJoin(lines);
    var e := [Field(first.key, One(u)), Field(second.key, One(v))];
    var full := e + [Field(list, Many([w]))];
    PairsAreRead(first, u, second, v);
    ListIsRead(e, list, item, w);
    assert [] + [full] == [full];
    var tail := Reader(At(full, None).data, Some("security_scans"), false, None);
    assert "security_scans" + ":" == "security_scans:";
    ReadKnownHeader(At(full, Some(list)), "security_scans");
    ScanLine(tail, scan, x);
    assert tail.data == EMPTY.(defconfigs := [full]) && [] + [x] == [x];
    assert full == [Field(first.key, One(u)), Field(second.key, One(v)), Field(list, Many([w]))];
    RunSeven(lines, Reader(EMPTY, Some("defconfigs"), false, None), At([Field(first.key, One(u))], None), At(e, None),
             At(e + [Field(list, Many([]))], Some(list)), At(full, Some(list)), tail, tail.(data := tail.data.(scans := [x])));
  }

  lemma RunSeven(lines: seq<string>, a: Reader, b: Reader, c: Reader, d: Reader, e: Reader, f: Reader, g: Reader)
    requires |lines| == 7 && Step(START, lines[0]) == Ok(a) && Step(a, lines[1]) == Ok(b) && Step(b, lines[2]) == Ok(c)
    requires Step(c, lines[3]) == Ok(d) && Step(d, lines[4]) == Ok(e) && Step(e, lines[5]) == Ok(f) && Step(f, lines[6]) == Ok(g)
    ensures Run(START, lines, 1) == Ok(g)
  {
    hide Step;
    assert Run(a, lines[1..], 2) == Run(b, lines[2..], 3) == Run(c, lines[3..], 4);
    assert Run(c, lines[3..], 4) == Run(d, lines[4..], 5) == Run(e, lines[5..], 6);
    assert Run(e, lines[5..], 6) == Run(f, lines[6..], 7) == Run(g, lines[7..], 8);
  }
}
