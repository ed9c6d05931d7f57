/** The texts whose digests identify the Buildroot source and the release source: each can be read in one way only. */
module SourceIdentity {
  import opened PyText
  import opened Json
  import JsonText

  // ---------------------------------------------------------------- the texts

  function Line(name: string, value: string): string {
    name + value + "\n"
  }

  /** What the effective source id binds; None is no diff. */
  datatype Effective = Effective(index: string, ref: string, mode: string, patchset: string, diff: Option<string>)

  function DiffText(diff: Option<string>): string {
    if diff.Some? && diff.value != [] then diff.value else "none"
  }

  function EffectiveText(f: Effective): string {
    "buildroot-source-identity-v2\n" + Line("index:", f.index) + Line("upstream-ref:", f.ref) + Line("source-mode:", f.mode)
    + Line("patchset:", f.patchset) + Line("diff-identity:", DiffText(f.diff))
  }

  datatype Release = Release(source: string, externalTree: string, effective: string)

  function ReleaseText(r: Release): string {
    "suderra-release-source-identity-v1\n" + Line("source:", r.source) + Line("external-tree:", r.externalTree)
    + Line("buildroot-effective:", r.effective)
  }

  datatype Patch = Patch(path: string, bytes: nat, sha256: string)

  function PatchJson(p: Patch): Json {
    Obj([Member("bytes", Number(Decimal(p.bytes))), Member("path", Json.Str(p.path)), Member("sha256", Json.Str(p.sha256))])
  }

  function PatchesJson(patches: seq<Patch>): seq<Json> {
    if patches == [] then [] else [PatchJson(patches[0])] + PatchesJson(patches[1..])
  }

  /** `canonical_patchset_payload`: keys sorted, compact separators. */
  function PatchsetText(patches: seq<Patch>): string {
    JsonText.Dumps(Arr(PatchesJson(patches)))
  }

  // ---------------------------------------------------------------- reading lines off either end

  predicate OneLine(s: string) {
    forall i :: 0 <= i < |s| ==> s[i] != '\n'
  }

  predicate EndsLine(s: string) {
    s != [] && s[|s| - 1] == '\n'
  }

  lemma LineEnds(x: string, name: string, value: string)
    ensures EndsLine(x + Line(name, value))
  {
  }

  /** A last line of known name can be read off a text. */
  lemma PeelLast(x: string, y: string, name: string, a: string, b: string)
    requires EndsLine(x) && EndsLine(y) && OneLine(name) && OneLine(a) && OneLine(b)
    requires x + Line(name, a) == y + Line(name, b)
    ensures x == y && a == b
  {
    var s, t := x + Line(name, a), y + Line(name, b);
    LastBreak(x, name + a, s);
    LastBreak(y, name + b, t);
    assert s[|x| - 1] == '\n' && t[|y| - 1] == '\n';
    assert |x| == |y|;
    assert s[..|x|] == x && t[..|y|] == y;
    assert s[|x| + |name|..|s| - 1] == a && t[|x| + |name|..|t| - 1] == b;
  }

  lemma LastBreak(x: string, line: string, s: string)
    requires EndsLine(x) && OneLine(line) && s == x + (line + "\n")
    ensures s[|x| - 1] == '\n' && |s| == |x| + |line| + 1
    ensures forall k :: |x| <= k < |s| - 1 ==> s[k] != '\n'
  {
    forall k | |x| <= k < |s| - 1
      ensures s[k] != '\n'
    {
      assert s[k] == line[k - |x|];
    }
  }

  /** A line of known name can be read off the start of a text. */
  lemma PeelFirst(head: string, name: string, a: string, b: string, x: string, y: string)
    requires OneLine(a) && OneLine(b) && head + Line(name, a) + x == head + Line(name, b) + y
    ensures a == b && x == y
  {
    var s, t := head + Line(name, a) + x, head + Line(name, b) + y;
    var at := |head| + |name|;
    FirstBreak(head, name, a, x);
    FirstBreak(head, name, b, y);
    assert s[at + |a|] == '\n' && t[at + |b|] == '\n';
    assert |a| == |b|;
    assert s[at..at + |a|] == a && t[at..at + |b|] == b;
    assert s[at + |a| + 1..] == x && t[at + |b| + 1..] == y;
  }

  lemma FirstBreak(head: string, name: string, a: string, x: string)
    requires OneLine(a)
    ensures var s := head + Line(name, a) + x; var at := |head| + |name|;
            |s| == at + |a| + 1 + |x| && s[at + |a|] == '\n' && forall k :: at <= k < at + |a| ==> s[k] != '\n'
  {
    var s, at := head + Line(name, a) + x, |head| + |name|;
    forall k | at <= k < at + |a|
      ensures s[k] != '\n'
    {
      assert s[k] == a[k - at];
    }
  }

  lemma SameValue(name: string, a: string, b: string)
    requires Line(name, a) == Line(name, b)
    ensures a == b
  {
    var s, t := Line(name, a), Line(name, b);
    assert s[|name|..|s| - 1] == a && t[|name|..|t| - 1] == b;
  }

  lemma NamesAreLines()
    ensures OneLine("source-mode:") && OneLine("patchset:") && OneLine("diff-identity:") && OneLine("none")
  {
  }

  lemma ReleaseNamesAreLines()
    ensures OneLine("external-tree:") && OneLine("buildroot-effective:")
  {
  }

  // ---------------------------------------------------------------- injectivity

  /** Every field but the ref is one line, and a diff is a digest, not the word for none. */
  predicate Readable(f: Effective) {
    OneLine(f.index) && OneLine(f.mode) && OneLine(f.patchset)
    && (f.diff.Some? ==> f.diff.value != [] && f.diff.value != "none" && OneLine(f.diff.value))
  }

  /** The effective-id text determines its five fields, whatever the ref contains. */
  lemma EffectiveIsReadable(f: Effective, g: Effective)
    requires Readable(f) && Readable(g)
    ensures EffectiveText(f) == EffectiveText(g) <==> f == g
  {
    if EffectiveText(f) == EffectiveText(g) {
      NamesAreLines();
      hide Line, OneLine, EndsLine;
      var head := "buildroot-source-identity-v2\n";
      var f1, g1 := head + Line("index:", f.index), head + Line("index:", g.index);
      var f2, g2 := f1 + Line("upstream-ref:", f.ref), g1 + Line("upstream-ref:", g.ref);
      var f3, g3 := f2 + Line("source-mode:", f.mode), g2 + Line("source-mode:", g.mode);
      var f4, g4 := f3 + Line("patchset:", f.patchset), g3 + Line("patchset:", g.patchset);
      LineEnds(f1, "upstream-ref:", f.ref);
      LineEnds(g1, "upstream-ref:", g.ref);
      LineEnds(f2, "source-mode:", f.mode);
      LineEnds(g2, "source-mode:", g.mode);
      LineEnds(f3, "patchset:", f.patchset);
      LineEnds(g3, "patchset:", g.patchset);
      PeelLast(f4, g4, "diff-identity:", DiffText(f.diff), DiffText(g.diff));
      PeelLast(f3, g3, "patchset:", f.patchset, g.patchset);
      PeelLast(f2, g2, "source-mode:", f.mode, g.mode);
      PeelFirst(head, "index:", f.index, g.index, Line("upstream-ref:", f.ref), Line("upstream-ref:", g.ref));
      SameValue("upstream-ref:", f.ref, g.ref);
    }
  }

  /** The release-source text determines its three fields. */
  lemma ReleaseIsReadable(r: Release, q: Release)
    requires OneLine(r.externalTree) && OneLine(r.effective) && OneLine(q.externalTree) && OneLine(q.effective)
    ensures ReleaseText(r) == ReleaseText(q) <==> r == q
  {
    if ReleaseText(r) == ReleaseText(q) {
      ReleaseNamesAreLines();
      hide Line, OneLine, EndsLine;
      var head := "suderra-release-source-identity-v1\n";
      var r1, q1 := head + Line("source:", r.source), head + Line("source:", q.source);
      LineEnds(head, "source:", r.source);
      LineEnds(head, "source:", q.source);
      LineEnds(r1, "external-tree:", r.externalTree);
      LineEnds(q1, "external-tree:", q.externalTree);
      PeelLast(r1 + Line("external-tree:", r.externalTree), q1 + Line("external-tree:", q.externalTree), "buildroot-effective:", r.effective, q.effective);
      PeelLast(r1, q1, "external-tree:", r.externalTree, q.externalTree);
      SameTail(head, Line("source:", r.source), Line("source:", q.source));
      SameValue("source:", r.source, q.source);
    }
  }

  lemma SameTail(head: string, a: string, b: string)
    requires head + a == head + b
    ensures a == b
  {
    assert (head + a)[|head|..] == a && (head + b)[|head|..] == b;
  }

  // ---------------------------------------------------------------- the patch set

  lemma {:induction false} DigitsRun(s: string)
    requires AllDigits(s)
    ensures JsonText.DigitRun(s) == |s|
  {
    if s != [] {
      DigitsRun(s[1..]);
    }
  }

  lemma {:induction false} DecimalStarts(n: nat)
    requires n > 0
    ensures Decimal(n)[0] != '0'
  {
    if n >= 10 {
      DecimalStarts(n / 10);
    }
  }

  lemma DecimalIsLiteral(n: nat)
    ensures JsonText.Valid(Number(Decimal(n)))
  {
    var s := Decimal(n);
    DigitsRun(s);
    if n > 0 {
      DecimalStarts(n);
    }
    assert s[0..] == s && s[|s|..] == [];
    assert IsDigit(s[0]);
    forall i | 0 <= i < |s|
      ensures ' ' <= s[i] <= '~'
    {
      assert IsDigit(s[i]);
    }
  }

  lemma PatchIsValid(p: Patch)
    ensures JsonText.Valid(PatchJson(p))
  {
    hide Decimal;
    DecimalIsLiteral(p.bytes);
    hide JsonText.LiteralLength, JsonText.Plain;
    var fields := PatchJson(p).fields;
    assert |fields[0].key| == 5 && |fields[1].key| == 4 && |fields[2].key| == 6;
    assert fields[2..] == [fields[2]] && JsonText.ValidFields(fields[2..]);
    assert fields[1..][1..] == fields[2..] && JsonText.ValidFields(fields[1..]);
    assert JsonText.ValidFields(fields);
  }

  lemma {:induction false} PatchesAreValid(patches: seq<Patch>)
    ensures JsonText.ValidItems(PatchesJson(patches))
  {
    hide PatchJson, JsonText.Valid;
    if patches != [] {
      PatchIsValid(patches[0]);
      PatchesAreValid(patches[1..]);
    }
  }

  lemma PatchJsonIsReadable(p: Patch, q: Patch)
    requires PatchJson(p) == PatchJson(q)
    ensures p == q
  {
    hide Decimal;
    var a, b := PatchJson(p).fields, PatchJson(q).fields;
    assert a[0] == b[0] && a[1] == b[1] && a[2] == b[2];
    DecimalRoundTrip(p.bytes);
    DecimalRoundTrip(q.bytes);
  }

  lemma {:induction false} PatchesJsonIsReadable(p: seq<Patch>, q: seq<Patch>)
    requires PatchesJson(p) == PatchesJson(q)
    ensures p == q
  {
    hide PatchJson;
    if p != [] && q != [] {
      assert PatchesJson(p)[0] == PatchesJson(q)[0];
      assert PatchesJson(p)[1..] == PatchesJson(q)[1..];
      PatchJsonIsReadable(p[0], q[0]);
      PatchesJsonIsReadable(p[1..], q[1..]);
      assert p == [p[0]] + p[1..] && q == [q[0]] + q[1..];
    }
  }

  /** The canonical patch-set text determines the patches. */
  lemma PatchsetIsReadable(p: seq<Patch>, q: seq<Patch>)
    ensures PatchsetText(p) == PatchsetText(q) <==> p == q
  {
    hide PatchesJson, JsonText.Dumps, JsonText.ValidItems;
    PatchesAreValid(p);
    PatchesAreValid(q);
    JsonText.LoadsDumps(Arr(PatchesJson(p)));
    JsonText.LoadsDumps(Arr(PatchesJson(q)));
    if PatchsetText(p) == PatchsetText(q) {
      PatchesJsonIsReadable(p, q);
    }
  }
}
