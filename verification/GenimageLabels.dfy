/** The block-stack scanner that finds file-system labels longer than their file system allows. */
module GenimageLabels {
  import opened PyText
  import MatrixReader

  // ---------------------------------------------------------------- lines

  datatype Line = Blank | Close | Open(kind: string) | Label(name: string) | Other

  predicate IsWordChar(c: char) {
    'A' <= c <= 'Z' || 'a' <= c <= 'z' || '0' <= c <= '9' || c == '_' || c == '.' || c == '-'
  }

  function WordLength(s: string): (n: nat)
    ensures n <= |s|
  {
    if s != [] && IsWordChar(s[0]) then 1 + WordLength(s[1..]) else 0
  }

  /** `name {` or `kind name {`: the first word of an opening line. */
  function BlockKind(line: string): Option<string> {
    var w := WordLength(line);
    var rest := TrimLeft(line[w..]);
    if w == 0 then None
    else if rest == "{" then Some(line[..w])
    else if |rest| < |line| - w && WordLength(rest) > 0 && TrimLeft(rest[WordLength(rest)..]) == "{" then Some(line[..w])
    else None
  }

  /** `label = "..."`, either quote character at either end and none inside. */
  function LabelValue(line: string): Option<string> {
    if !("label" <= line) then None
    else
      var rest := TrimLeft(line[5..]);
      if !("=" <= rest) then None
      else
        var q := TrimLeft(rest[1..]);
        if |q| >= 2 && MatrixReader.IsQuote(q[0]) && MatrixReader.IsQuote(q[|q| - 1])
           && (forall i :: 1 <= i < |q| - 1 ==> !MatrixReader.IsQuote(q[i]))
        then Some(q[1..|q| - 1]) else None
  }

  function Classify(raw: string): Line {
    var line := Strip(MatrixReader.StripComment(raw));
    if line == [] then Blank
    else if line == "}" then Close
    else if BlockKind(line).Some? then Open(BlockKind(line).value)
    else if LabelValue(line).Some? then Label(LabelValue(line).value)
    else Other
  }

  // ---------------------------------------------------------------- what a line says

  /** Digits, letters, underscores, full stops and hyphens, by their codes. */
  lemma WordCharMeans(c: char)
    ensures IsWordChar(c) <==> 48 <= c as int <= 57 || 65 <= c as int <= 90 || 97 <= c as int <= 122 || c in "_.-"
  {
  }

  predicate IsWord(s: string) {
    s != [] && forall i :: 0 <= i < |s| ==> IsWordChar(s[i])
  }

  predicate IsWhite(s: string) {
    forall i :: 0 <= i < |s| ==> IsSpace(s[i])
  }

  /** A word, perhaps a second one, and an opening brace. */
  ghost predicate Opens(line: string, kind: string) {
    IsWord(kind)
    && ((exists w :: IsWhite(w) && line == kind + w + "{")
        || exists w, name, v :: IsWhite(w) && w != [] && IsWord(name) && IsWhite(v) && line == kind + w + name + v + "{")
  }

  ghost predicate Labels(line: string, name: string) {
    && (forall i :: 0 <= i < |name| ==> name[i] != '\'' && name[i] != '"')
    && exists w, v, q, r :: IsWhite(w) && IsWhite(v) && (q == "'" || q == "\"") && (r == "'" || r == "\"")
                            && line == "label" + w + "=" + v + q + name + r
  }

  lemma {:induction false} WordEnds(word: string, rest: string)
    requires (forall i :: 0 <= i < |word| ==> IsWordChar(word[i])) && (rest == [] || !IsWordChar(rest[0]))
    ensures WordLength(word + rest) == |word|
  {
    if word == [] {
      assert word + rest == rest;
    } else {
      assert (word + rest)[1..] == word[1..] + rest;
      WordEnds(word[1..], rest);
    }
  }

  lemma {:induction false} WordSplits(s: string)
    ensures forall i :: 0 <= i < WordLength(s) ==> IsWordChar(s[i])
    ensures WordLength(s) == |s| || !IsWordChar(s[WordLength(s)])
  {
    if s != [] && IsWordChar(s[0]) {
      WordSplits(s[1..]);
      forall i | 0 <= i < WordLength(s)
        ensures IsWordChar(s[i])
      {
        assert i == 0 || s[i] == s[1..][i - 1];
      }
    }
  }

  /** A text is its leading white space and what is left of it. */
  lemma Leading(s: string) returns (white: string)
    ensures s == white + TrimLeft(s) && IsWhite(white) && (TrimLeft(s) == [] || !IsSpace(TrimLeft(s)[0]))
  {
    TrimLeftShape(s);
    white := s[..|s| - |TrimLeft(s)|];
  }

  lemma OneWordOpens(kind: string, w: string)
    requires IsWord(kind) && IsWhite(w)
    ensures BlockKind(kind + w + "{") == Some(kind)
  {
    var line := kind + w + "{";
    assert line == kind + (w + "{");
    WordEnds(kind, w + "{");
    TrimLeftPadded(w, "{");
    assert line[|kind|..] == w + "{" && line[..|kind|] == kind;
    hide TrimLeft, WordLength;
  }

  lemma TwoWordsOpen(kind: string, w: string, name: string, v: string)
    requires IsWord(kind) && IsWhite(w) && w != [] && IsWord(name) && IsWhite(v)
    ensures BlockKind(kind + w + name + v + "{") == Some(kind)
  {
    var rest, end := name + v + "{", v + "{";
    var line := kind + w + name + v + "{";
    assert line == kind + (w + rest) && rest == name + end;
    assert !IsWordChar(w[0]) && !IsSpace(name[0]) && rest[0] == name[0];
    WordEnds(kind, w + rest);
    TrimLeftPadded(w, rest);
    WordEnds(name, end);
    TrimLeftPadded(v, "{");
    assert line[|kind|..] == w + rest && line[..|kind|] == kind && rest[|name|..] == end;
    hide TrimLeft, WordLength;
  }

  lemma OpensMeans(line: string, kind: string)
    ensures BlockKind(line) == Some(kind) <==> Opens(line, kind)
  {
    hide IsWhite, IsWord, IsWordChar, IsSpace;
    if Opens(line, kind) {
      if w :| IsWhite(w) && line == kind + w + "{" {
        OneWordOpens(kind, w);
      } else {
        var w, name, v :| IsWhite(w) && w != [] && IsWord(name) && IsWhite(v) && line == kind + w + name + v + "{";
        TwoWordsOpen(kind, w, name, v);
      }
    }
    if BlockKind(line) == Some(kind) {
      KindOpens(line);
    }
  }

  lemma KindOpens(line: string)
    requires BlockKind(line).Some?
    ensures Opens(line, BlockKind(line).value)
  {
    hide TrimLeft, WordLength, IsWordChar, IsSpace;
    var n := WordLength(line);
    var kind := line[..n];
    WordSplits(line);
    var w := Leading(line[n..]);
    var rest := TrimLeft(line[n..]);
    if rest == "{" {
      assert line == kind + w + "{";
    } else {
      var m := WordLength(rest);
      WordSplits(rest);
      var v := Leading(rest[m..]);
      assert rest == rest[..m] + v + "{";
      assert line == kind + w + rest[..m] + v + "{";
      assert IsWord(rest[..m]);
    }
  }

  lemma LabelsMeans(line: string, name: string)
    ensures LabelValue(line) == Some(name) <==> Labels(line, name)
  {
    hide IsSpace, TrimLeft;
    if Labels(line, name) {
      var w, v, q, r :| IsWhite(w) && IsWhite(v) && (q == "'" || q == "\"") && (r == "'" || r == "\"")
                        && line == "label" + w + "=" + v + q + name + r;
      QuotedIsLabel(w, v, q, name, r);
    }
    if LabelValue(line) == Some(name) {
      LabelIsQuoted(line);
    }
  }

  lemma QuotesAreNoSpace()
    ensures !IsSpace('\'') && !IsSpace('"') && !IsSpace('=')
  {
  }

  lemma Nested(w: string, v: string, q: string, name: string, r: string)
    ensures "label" + w + "=" + v + q + name + r == "label" + (w + ("=" + (v + (q + name + r))))
  {
    var text := q + name + r;
    assert v + q + name + r == v + text;
    assert "=" + v + text == "=" + (v + text);
  }

  /** A text behind white space and a fixed start. */
  lemma Behind(start: string, white: string, text: string)
    requires IsWhite(white) && text != [] && !IsSpace(text[0])
    ensures var line := start + (white + text); start <= line && TrimLeft(line[|start|..]) == text
  {
    hide IsSpace, TrimLeft;
    var line := start + (white + text);
    assert line[|start|..] == white + text;
    TrimLeftPadded(white, text);
  }

  lemma QuotedIsLabel(w: string, v: string, q: string, name: string, r: string)
    requires IsWhite(w) && IsWhite(v) && (q == "'" || q == "\"") && (r == "'" || r == "\"")
    requires forall i :: 0 <= i < |name| ==> name[i] != '\'' && name[i] != '"'
    ensures LabelValue("label" + w + "=" + v + q + name + r) == Some(name)
  {
    hide IsSpace, TrimLeft;
    QuotesAreNoSpace();
    var text := q + name + r;
    var rest := "=" + (v + text);
    Nested(w, v, q, name, r);
    Behind("label", w, rest);
    Behind("=", v, text);
    assert text[1..|text| - 1] == name;
    assert forall i :: 1 <= i < |text| - 1 ==> text[i] == name[i - 1];
  }

  lemma LabelIsQuoted(line: string)
    requires LabelValue(line).Some?
    ensures Labels(line, LabelValue(line).value)
  {
    hide IsSpace, TrimLeft;
    var w := Leading(line[5..]);
    var rest := TrimLeft(line[5..]);
    var v := Leading(rest[1..]);
    var text := TrimLeft(rest[1..]);
    var n := |text|;
    var q, name, r := [text[0]], text[1..n - 1], [text[n - 1]];
    assert text == q + name + r;
    assert rest == "=" + v + text;
    assert line == "label" + w + rest;
    assert line == "label" + w + "=" + v + q + name + r;
    assert forall i :: 0 <= i < |name| ==> name[i] == text[i + 1];
  }

  /** The text that counts of a line. */
  function Bared(raw: string): string {
    Strip(MatrixReader.StripComment(raw))
  }

  /** The scanner's reading of a line is what the line says: a closing brace alone, an opened block, a quoted label. */
  lemma LineMeans(raw: string)
    ensures Classify(raw) == Close <==> Bared(raw) == "}"
    ensures forall kind :: Classify(raw) == Open(kind) <==> Opens(Bared(raw), kind)
    ensures forall name :: Classify(raw) == Label(name) <==> Labels(Bared(raw), name)
  {
    hide Strip, MatrixReader.StripComment, BlockKind, LabelValue, Opens, Labels;
    forall kind
      ensures BlockKind(Bared(raw)) == Some(kind) <==> Opens(Bared(raw), kind)
    {
      OpensMeans(Bared(raw), kind);
    }
    forall name
      ensures LabelValue(Bared(raw)) == Some(name) <==> Labels(Bared(raw), name)
    {
      LabelsMeans(Bared(raw), name);
    }
    NothingOpens();
    LabelIsNoBlock(Bared(raw));
  }

  lemma NothingOpens()
    ensures BlockKind([]).None? && BlockKind("}").None? && LabelValue([]).None? && LabelValue("}").None?
  {
  }

  lemma LabelIsNoBlock(line: string)
    ensures BlockKind(line).None? || LabelValue(line).None?
  {
    hide IsSpace, TrimLeft, IsWordChar, WordLength;
    if BlockKind(line).Some? && LabelValue(line).Some? {
      KindOpens(line);
      LabelIsQuoted(line);
      var name := LabelValue(line).value;
      var w, v, q, r :| IsWhite(w) && IsWhite(v) && (q == "'" || q == "\"") && (r == "'" || r == "\"")
                        && line == "label" + w + "=" + v + q + name + r;
      assert line[|line| - 1] == r[0] != '{';
      EndsInBrace(line, BlockKind(line).value);
    }
  }

  lemma EndsInBrace(line: string, kind: string)
    requires Opens(line, kind)
    ensures line != [] && line[|line| - 1] == '{'
  {
  }

  // ---------------------------------------------------------------- the scanner

  function Limit(kind: string): Option<nat> {
    if kind == "vfat" then Some(11)
    else if kind == "ext2" || kind == "ext3" || kind == "ext4" then Some(16)
    else None
  }

  datatype LabelError = LabelError(line: nat, filesystem: string, name: string)

  /** What an open block puts on the stack. */
  function Entry(kind: string): Option<string> {
    if Limit(kind).Some? then Some(kind) else None
  }

  /** The nearest file system on the stack, whose top is its last element. */
  function Nearest(stack: seq<Option<string>>): Option<string> {
    if stack == [] then None
    else if stack[|stack| - 1].Some? then stack[|stack| - 1]
    else Nearest(stack[..|stack| - 1])
  }

  function Check(name: string, filesystem: Option<string>, n: nat): seq<LabelError> {
    if filesystem.Some? && Limit(filesystem.value).Some? && |name| > Limit(filesystem.value).value
    then [LabelError(n, filesystem.value, name)] else []
  }

  predicate OnlyFilesystems(stack: seq<Option<string>>) {
    forall i :: 0 <= i < |stack| && stack[i].Some? ==> Limit(stack[i].value).Some?
  }

  function Scan(stack: seq<Option<string>>, lines: seq<string>, n: nat): seq<LabelError>
    decreases |lines|
  {
    if lines == [] then []
    else
      match Classify(lines[0])
      case Close => Scan(if stack == [] then [] else stack[..|stack| - 1], lines[1..], n + 1)
      case Open(kind) => Scan(stack + [Entry(kind)], lines[1..], n + 1)
      case Label(name) => Check(name, Nearest(stack), n) + Scan(stack, lines[1..], n + 1)
      case _ => Scan(stack, lines[1..], n + 1)
  }

  const LABEL_LIMITS := map["vfat" := 11, "ext2" := 16, "ext3" := 16, "ext4" := 16]

  lemma LimitsAre(kind: string)
    ensures Limit(kind).Some? <==> kind in LABEL_LIMITS
    ensures kind in LABEL_LIMITS ==> Limit(kind) == Some(LABEL_LIMITS[kind])
  {
  }

  method GenimageLabelErrors(text: string) returns (errors: seq<LabelError>)
    ensures errors == Scan([], SplitLines(text), 1)
  {
    hide Classify, Limit, LABEL_LIMITS;
    var lines := SplitLines(text);
    var blockStack: seq<Option<string>> := [];
    errors := [];
    for i := 0 to |lines|
      invariant Scan([], lines, 1) == errors + Scan(blockStack, lines[i..], i + 1)
      invariant OnlyFilesystems(blockStack)
    {
      assert lines[i..][1..] == lines[i + 1..];
      match Classify(lines[i]) {
        case Close =>
          if blockStack != [] {
            blockStack := blockStack[..|blockStack| - 1];
          }
        case Open(kind) =>
          LimitsAre(kind);
          blockStack := blockStack + [if kind in LABEL_LIMITS then Some(kind) else None];
        case Label(name) =>
          var filesystem := FindNearest(blockStack);
          if filesystem.Some? {
            LimitsAre(filesystem.value);
          }
          if filesystem.Some? && |name| > LABEL_LIMITS[filesystem.value] {
            errors := errors + [LabelError(i + 1, filesystem.value, name)];
          }
        case _ =>
      }
    }
    assert lines[|lines|..] == [];
  }

  method FindNearest(stack: seq<Option<string>>) returns (filesystem: Option<string>)
    requires OnlyFilesystems(stack)
    ensures filesystem == Nearest(stack)
    ensures filesystem.Some? ==> Limit(filesystem.value).Some?
  {
    var i := |stack|;
    assert stack[..i] == stack;
    while i > 0
      invariant 0 <= i <= |stack| && Nearest(stack) == Nearest(stack[..i])
    {
      i := i - 1;
      assert stack[..i + 1][..i] == stack[..i];
      if stack[i].Some? {
        return stack[i];
      }
    }
    filesystem := None;
  }

  // ---------------------------------------------------------------- block trees

  /** A file as a tree: each node is followed by the rest of its block. `Unclosed` blocks reach the end of the file;
      a `Stray` closing brace has no block to close. */
  datatype Tree =
    | End
    | Plain(raw: string, next: Tree)
    | Block(head: string, body: Tree, tail: string, next: Tree)
    | Unclosed(head: string, body: Tree)
    | Stray(raw: string, next: Tree)

  function Flatten(t: Tree): seq<string> {
    match t
    case End => []
    case Plain(raw, next) => [raw] + Flatten(next)
    case Block(head, body, tail, next) => [head] + Flatten(body) + [tail] + Flatten(next)
    case Unclosed(head, body) => [head] + Flatten(body)
    case Stray(raw, next) => [raw] + Flatten(next)
  }

  /** Every block of the tree is closed. */
  predicate Closed(t: Tree) {
    match t
    case End => true
    case Plain(_, next) => Closed(next)
    case Block(_, body, _, next) => Closed(body) && Closed(next)
    case Unclosed(_, _) => false
    case Stray(_, next) => Closed(next)
  }

  /** The lines stand where their kind allows; stray braces only outside all blocks. */
  predicate WellFormed(t: Tree, top: bool) {
    match t
    case End => true
    case Plain(raw, next) => !Classify(raw).Open? && !Classify(raw).Close? && WellFormed(next, top)
    case Block(head, body, tail, next) =>
      Classify(head).Open? && Classify(tail).Close? && WellFormed(body, false) && Closed(body) && WellFormed(next, top)
    case Unclosed(head, body) => Classify(head).Open? && WellFormed(body, false)
    case Stray(raw, next) => top && Classify(raw).Close? && WellFormed(next, top)
  }

  predicate IsFilesystem(kind: string) {
    kind == "vfat" || kind == "ext4" || kind == "ext3" || kind == "ext2"
  }

  /** VFAT takes eleven characters, the others take sixteen. */
  predicate TooLong(kind: string, name: string) {
    |name| >= 17 || (kind == "vfat" && |name| >= 12)
  }

  function Inner(head: string, filesystem: Option<string>): Option<string> {
    if Classify(head).Open? && IsFilesystem(Classify(head).kind) then Some(Classify(head).kind) else filesystem
  }

  function Report(raw: string, filesystem: Option<string>, n: nat): seq<LabelError> {
    if Classify(raw).Label? && filesystem.Some? && TooLong(filesystem.value, Classify(raw).name)
    then [LabelError(n, filesystem.value, Classify(raw).name)] else []
  }

  /** The over-long labels of a tree inside `filesystem`, its nearest enclosing file system; line `n` is the first. */
  function Meaning(t: Tree, filesystem: Option<string>, n: nat): seq<LabelError> {
    match t
    case End => []
    case Plain(raw, next) => Report(raw, filesystem, n) + Meaning(next, filesystem, n + 1)
    case Block(head, body, tail, next) =>
      Meaning(body, Inner(head, filesystem), n + 1) + Meaning(next, filesystem, n + 2 + |Flatten(body)|)
    case Unclosed(head, body) => Meaning(body, Inner(head, filesystem), n + 1)
    case Stray(_, next) => Meaning(next, filesystem, n + 1)
  }

  lemma {:induction false} NearestIsFilesystem(stack: seq<Option<string>>)
    requires OnlyFilesystems(stack)
    ensures Nearest(stack).Some? ==> IsFilesystem(Nearest(stack).value)
  {
    if stack != [] && stack[|stack| - 1].None? {
      NearestIsFilesystem(stack[..|stack| - 1]);
    }
  }

  lemma ScanOpen(stack: seq<Option<string>>, head: string, rest: seq<string>, n: nat)
    requires Classify(head).Open?
    ensures Scan(stack, [head] + rest, n) == Scan(stack + [Entry(Classify(head).kind)], rest, n + 1)
    ensures Nearest(stack + [Entry(Classify(head).kind)]) == Inner(head, Nearest(stack))
  {
    hide Classify;
    assert ([head] + rest)[1..] == rest;
    assert (stack + [Entry(Classify(head).kind)])[..|stack|] == stack;
  }

  lemma ScanClose(stack: seq<Option<string>>, top: Option<string>, tail: string, rest: seq<string>, n: nat)
    requires Classify(tail).Close?
    ensures Scan(stack + [top], [tail] + rest, n) == Scan(stack, rest, n + 1)
  {
    hide Classify;
    assert ([tail] + rest)[1..] == rest;
    assert (stack + [top])[..|stack|] == stack;
  }

  lemma ScanPlain(stack: seq<Option<string>>, raw: string, rest: seq<string>, n: nat)
    requires !Classify(raw).Open? && !Classify(raw).Close? && OnlyFilesystems(stack)
    ensures Scan(stack, [raw] + rest, n) == Report(raw, Nearest(stack), n) + Scan(stack, rest, n + 1)
  {
    hide Classify;
    NearestIsFilesystem(stack);
    assert ([raw] + rest)[1..] == rest;
    assert [] + Scan(stack, rest, n + 1) == Scan(stack, rest, n + 1);
  }

  lemma BlockLines(head: string, body: seq<string>, tail: string, more: seq<string>)
    ensures [head] + body + [tail] + more == [head] + (body + ([tail] + more))
  {
  }

  lemma Concat3(a: seq<string>, b: seq<string>, c: seq<string>)
    ensures a + b + c == a + (b + c)
  {
  }

  /** The scan of a closed tree reports its meaning and leaves the stack as it was. */
  lemma {:induction false} ScanClosed(stack: seq<Option<string>>, t: Tree, rest: seq<string>, n: nat)
    requires WellFormed(t, false) && Closed(t) && OnlyFilesystems(stack)
    ensures Scan(stack, Flatten(t) + rest, n) == Meaning(t, Nearest(stack), n) + Scan(stack, rest, n + |Flatten(t)|)
    decreases t
  {
    hide Classify, Scan, Nearest, Report, Inner;
    match t
    case End => assert Flatten(t) + rest == rest;
    case Plain(raw, next) =>
      Concat3([raw], Flatten(next), rest);
      ScanPlain(stack, raw, Flatten(next) + rest, n);
      ScanClosed(stack, next, rest, n + 1);
    case Block(head, body, tail, next) =>
      var top := Entry(Classify(head).kind);
      var after := Flatten(next) + rest;
      BlockLines(head, Flatten(body), tail, after);
      Concat3([head] + Flatten(body) + [tail], Flatten(next), rest);
      ScanOpen(stack, head, Flatten(body) + ([tail] + after), n);
      ScanClosed(stack + [top], body, [tail] + after, n + 1);
      ScanClose(stack, top, tail, after, n + 1 + |Flatten(body)|);
      ScanClosed(stack, next, rest, n + 2 + |Flatten(body)|);
  }

  lemma {:induction false} ScanTree(stack: seq<Option<string>>, t: Tree, n: nat)
    requires WellFormed(t, stack == []) && OnlyFilesystems(stack)
    ensures Scan(stack, Flatten(t), n) == Meaning(t, Nearest(stack), n)
    decreases t
  {
    hide Classify, Nearest, Report, Inner;
    match t
    case End =>
    case Plain(raw, next) =>
      ScanPlain(stack, raw, Flatten(next), n);
      ScanTree(stack, next, n + 1);
    case Block(head, body, tail, next) =>
      hide Scan;
      var top := Entry(Classify(head).kind);
      BlockLines(head, Flatten(body), tail, Flatten(next));
      ScanOpen(stack, head, Flatten(body) + ([tail] + Flatten(next)), n);
      ScanClosed(stack + [top], body, [tail] + Flatten(next), n + 1);
      ScanClose(stack, top, tail, Flatten(next), n + 1 + |Flatten(body)|);
      ScanTree(stack, next, n + 2 + |Flatten(body)|);
    case Unclosed(head, body) =>
      ScanOpen(stack, head, Flatten(body), n);
      ScanTree(stack + [Entry(Classify(head).kind)], body, n + 1);
    case Stray(raw, next) =>
      assert Flatten(t)[1..] == Flatten(next);
      ScanTree(stack, next, n + 1);
  }

  /** Reads a tree off `lines`, up to their end or to a brace that closes an outer block. */
  lemma {:induction false} Grow(lines: seq<string>) returns (t: Tree, rest: seq<string>)
    ensures lines == Flatten(t) + rest && WellFormed(t, false)
    ensures rest != [] ==> Closed(t) && Classify(rest[0]).Close?
    decreases |lines|
  {
    hide Classify;
    if lines == [] || Classify(lines[0]).Close? {
      t, rest := End, lines;
    } else if Classify(lines[0]).Open? {
      var body, after := Grow(lines[1..]);
      if after == [] {
        t, rest := Unclosed(lines[0], body), [];
        assert Flatten(body) + after == Flatten(body);
      } else {
        var next;
        next, rest := Grow(after[1..]);
        t := Block(lines[0], body, after[0], next);
        BlockLines(lines[0], Flatten(body), after[0], Flatten(next) + rest);
      }
    } else {
      var next;
      next, rest := Grow(lines[1..]);
      t := Plain(lines[0], next);
      assert lines == [lines[0]] + (Flatten(next) + rest);
    }
  }

  /** The tree `t`, then a stray brace, then `u`. */
  function Graft(t: Tree, u: Tree): Tree {
    match t
    case End => u
    case Plain(raw, next) => Plain(raw, Graft(next, u))
    case Block(head, body, tail, next) => Block(head, body, tail, Graft(next, u))
    case Unclosed(head, body) => t
    case Stray(raw, next) => Stray(raw, Graft(next, u))
  }

  lemma {:induction false} GraftFlattens(t: Tree, u: Tree)
    requires Closed(t) && WellFormed(t, false) && WellFormed(u, true)
    ensures Flatten(Graft(t, u)) == Flatten(t) + Flatten(u) && WellFormed(Graft(t, u), true)
  {
    hide Classify;
    match t
    case End => assert [] + Flatten(u) == Flatten(u);
    case Plain(raw, next) =>
      GraftFlattens(next, u);
    case Block(head, body, tail, next) =>
      GraftFlattens(next, u);
      Concat3([head] + Flatten(body) + [tail], Flatten(next), Flatten(u));
  }

  /** Every sequence of lines is the flattening of a tree. */
  lemma {:induction false} EveryFileIsATree(lines: seq<string>) returns (t: Tree)
    ensures WellFormed(t, true) && Flatten(t) == lines
    decreases |lines|
  {
    hide Classify;
    var first, rest := Grow(lines);
    if rest == [] {
      t := first;
      assert Flatten(first) + [] == Flatten(first);
      Loosen(first);
    } else {
      var more := EveryFileIsATree(rest[1..]);
      t := Graft(first, Stray(rest[0], more));
      GraftFlattens(first, Stray(rest[0], more));
      assert [rest[0]] + rest[1..] == rest;
    }
  }

  lemma {:induction false} Loosen(t: Tree)
    requires WellFormed(t, false)
    ensures WellFormed(t, true)
  {
    hide Classify;
    match t
    case End =>
    case Plain(_, next) => Loosen(next);
    case Block(_, _, _, next) => Loosen(next);
    case Unclosed(_, _) =>
  }

  /** For every file, the reported errors are those of its block tree, in line order. */
  lemma ScanIsTreeMeaning(text: string) returns (t: Tree)
    ensures WellFormed(t, true) && Flatten(t) == SplitLines(text)
    ensures Scan([], SplitLines(text), 1) == Meaning(t, None, 1)
  {
    t := EveryFileIsATree(SplitLines(text));
    ScanTree([], t, 1);
  }

  /** Whatever tree a file is read as, the meaning is the same. */
  lemma MeaningIsUnique(t: Tree, u: Tree)
    requires WellFormed(t, true) && WellFormed(u, true) && Flatten(t) == Flatten(u)
    ensures Meaning(t, None, 1) == Meaning(u, None, 1)
  {
    ScanTree([], t, 1);
    ScanTree([], u, 1);
  }
}
