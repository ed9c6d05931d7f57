/** The Buildroot source-identity payload: its producer, its validator, and its way through the release manifests. */
module IdentityVerdict {
  import opened PyText
  import opened Hashing
  import opened EvidenceGraph
  import opened SourceIdentity
  import PosixPath
  import Sorting

  // ---------------------------------------------------------------- payloads

  /** The keys of the payload. `Identity` is the binding's name for the payload's own schema version. */
  datatype Key =
    | SchemaVersion | Identity | IndexSha | UpstreamRef | SourceMode | PatchsetSha | PatchFiles | EffectiveId | ExpectedPatched
    | RustVersion | RustBinVersion | ExpectedDiff | StagedDiff | AppliedDiff | WorktreeDiff
    | SuderraSha | ExternalTree | DirtyPaths | ReleaseId | Other(name: string)

  /** A value of the payload; an item of the patch list is seen through its three fields. */
  datatype Value =
    | Null | Flag(b: bool) | Whole(n: int) | Text(s: string) | List(items: seq<Value>) | File(path: Value, bytes: Value, sha256: Value)
    | Unknown

  type Payload = map<Key, Value>

  /** `payload.get(key)` */
  function At(p: Payload, key: Key): Value {
    if key in p then p[key] else Null
  }

  /** The fields that travel under their own names, in the order in which they are copied. */
  const FIELDS: seq<Key> :=
    [IndexSha, UpstreamRef, SourceMode, PatchsetSha, PatchFiles, EffectiveId, ExpectedPatched, RustVersion, RustBinVersion,
     ExpectedDiff, StagedDiff, AppliedDiff, WorktreeDiff, SuderraSha, ExternalTree, DirtyPaths, ReleaseId]

  const SCHEMA := "suderra.buildroot-source-identity.v2"
  const NATIVE_REF := "2025.05.3"
  const NATIVE_COMMIT := "019201c6e007d80c1ab1bf65b98d9902bc767bdd"
  const NATIVE_RUST := "1.86.0"
  const CLEAN := "clean-native"
  const PATCHED := "staged-patched-tree"

  // ---------------------------------------------------------------- the producer

  datatype PatchFile = PatchFile(name: string, bytes: Bytes)

  /** What git and the file system say: the indexed commit, the tags at it, the digest of the external tree, the dirty
      paths, the patch directory, the work tree's diff (None: no work tree) and the two Rust versions. */
  datatype Source = Source(sha: string, index: Option<string>, tags: seq<string>, externalTree: string, dirty: seq<string>,
                           patches: seq<PatchFile>, worktree: Option<Bytes>, rust: Option<string>, rustBin: Option<string>)

  function SortedPatches(g: Source): seq<PatchFile> {
    Sorting.Sort(g.patches, (a: PatchFile, b: PatchFile) => Less(a.name, b.name))
  }

  function PatchPath(name: string): string {
    "patches" + "/" + "buildroot" + "/" + name
  }

  function EntriesOf(files: seq<PatchFile>, sha: Bytes -> string): (r: seq<Patch>)
    ensures |r| == |files| && forall i :: 0 <= i < |files| ==> r[i] == Patch(PatchPath(files[i].name), |files[i].bytes|, sha(files[i].bytes))
  {
    seq(|files|, i requires 0 <= i < |files| => Patch(PatchPath(files[i].name), |files[i].bytes|, sha(files[i].bytes)))
  }

  function FileValues(patches: seq<Patch>): (r: seq<Value>)
    ensures |r| == |patches| && forall i :: 0 <= i < |patches| ==> r[i] == File(Text(patches[i].path), Whole(patches[i].bytes), Text(patches[i].sha256))
  {
    seq(|patches|, i requires 0 <= i < |patches| => File(Text(patches[i].path), Whole(patches[i].bytes), Text(patches[i].sha256)))
  }

  function TextValues(lines: seq<string>): (r: seq<Value>)
    ensures |r| == |lines| && forall i :: 0 <= i < |lines| ==> r[i] == Text(lines[i])
  {
    seq(|lines|, i requires 0 <= i < |lines| => Text(lines[i]))
  }

  function OrNull(o: Option<string>): Value {
    if o.Some? then Text(o.value) else Null
  }

  /** `buildroot_upstream_ref` */
  function RefOf(index: string, tags: seq<string>): string {
    if index == NATIVE_COMMIT || NATIVE_REF in tags then NATIVE_REF else if tags != [] then tags[0] else index
  }

  /** `current_buildroot_diff_sha256` */
  function DiffOf(g: Source, sha: Bytes -> string): Option<string> {
    if g.worktree.Some? && g.worktree.value != [] then Some(sha(g.worktree.value)) else None
  }

  /** Digests of files and of texts. */
  datatype Digests = Digests(file: Bytes -> string, text: string -> string)

  function EffectiveOf(g: Source, index: string, d: Digests): Effective {
    var patches := EntriesOf(SortedPatches(g), d.file);
    Effective(index, RefOf(index, g.tags), if SortedPatches(g) != [] then PATCHED else CLEAN, d.text(PatchsetText(patches)),
              if SortedPatches(g) != [] then DiffOf(g, d.file) else None)
  }

  /** The keys that are always there, and their values. */
  const COMMON: set<Key> :=
    {SchemaVersion, SuderraSha, ExternalTree, DirtyPaths, ReleaseId, IndexSha, UpstreamRef, SourceMode, PatchsetSha, PatchFiles,
     EffectiveId, ExpectedPatched, RustVersion, RustBinVersion}

  function ValueOf(g: Source, f: Effective, patches: seq<Patch>, effective: string, release: string, key: Key): Value {
    match key
    case SchemaVersion => Text(SCHEMA)
    case SuderraSha => Text(g.sha)
    case ExternalTree => Text(g.externalTree)
    case DirtyPaths => List(TextValues(g.dirty))
    case ReleaseId => Text(release)
    case IndexSha => Text(f.index)
    case UpstreamRef => Text(f.ref)
    case SourceMode => Text(f.mode)
    case PatchsetSha => Text(f.patchset)
    case PatchFiles => List(FileValues(patches))
    case EffectiveId => Text(effective)
    case ExpectedPatched => Flag(patches != [])
    case RustVersion => OrNull(g.rust)
    case RustBinVersion => OrNull(g.rustBin)
    case _ => Null
  }

  function CommonValue(g: Source, index: string, d: Digests, key: Key): Value {
    var f := EffectiveOf(g, index, d);
    var effective := d.text(EffectiveText(f));
    ValueOf(g, f, EntriesOf(SortedPatches(g), d.file), effective, d.text(ReleaseText(Release(g.sha, g.externalTree, effective))), key)
  }

  function Common(g: Source, index: string, d: Digests): Payload {
    map key | key in COMMON :: CommonValue(g, index, d, key)
  }

  const APPLIED_DIFF_DOMAIN := "suderra-buildroot-applied-diff-from-patchset-v1\n"

  /** `canonical_applied_diff_sha256` of a patched source */
  function CanonicalDiff(g: Source, d: Digests): string {
    d.text(APPLIED_DIFF_DOMAIN + PatchsetText(EntriesOf(SortedPatches(g), d.file)))
  }

  function DiffFields(patched: bool, diff: Option<string>, canonical: string): Payload {
    if patched then
      if diff.Some? then map[ExpectedDiff := Text(diff.value), StagedDiff := Text(diff.value), AppliedDiff := Text(diff.value)]
      else map[ExpectedDiff := Text(canonical)]
    else if diff.Some? then map[WorktreeDiff := Text(diff.value)]
    else map[]
  }

  function MetadataOf(g: Source, index: string, d: Digests): Payload {
    Common(g, index, d) + DiffFields(SortedPatches(g) != [], DiffOf(g, d.file), CanonicalDiff(g, d))
  }

  /** `patch_entries`, in the order of the file names. */
  method PatchEntries(g: Source, sha: Bytes -> string) returns (patches: seq<Patch>)
    ensures patches == EntriesOf(SortedPatches(g), sha)
  {
    var files := Sorting.Sort(g.patches, (a: PatchFile, b: PatchFile) => Less(a.name, b.name));
    patches := [];
    for i := 0 to |files|
      invariant patches == EntriesOf(files[..i], sha)
    {
      patches := patches + [Patch("patches/buildroot/" + files[i].name, |files[i].bytes|, sha(files[i].bytes))];
      assert "patches" + "/" + "buildroot" + "/" == "patches/buildroot/";
      assert PatchPath(files[i].name) == "patches/buildroot/" + files[i].name;
    }
    assert files[..|files|] == files;
  }

  /** `buildroot_upstream_ref` */
  method UpstreamRefOf(index: string, tags: seq<string>) returns (ref: string)
    ensures ref == RefOf(index, tags)
  {
    if index == "019201c6e007d80c1ab1bf65b98d9902bc767bdd" {
      return "2025.05.3";
    }
    for i := 0 to |tags|
      invariant "2025.05.3" !in tags[..i]
    {
      if tags[i] == "2025.05.3" {
        return tags[i];
      }
    }
    assert tags[..|tags|] == tags;
    ref := index;
    if |tags| > 0 {
      ref := tags[0];
    }
  }

  /** `current_buildroot_diff_sha256` */
  method DiffDigest(g: Source, sha: Bytes -> string) returns (diff: Option<string>)
    ensures diff == DiffOf(g, sha)
  {
    diff := None;
    if g.worktree.Some? && |g.worktree.value| > 0 {
      diff := Some(sha(g.worktree.value));
    }
  }

  /** The dictionary's literal. */
  method CommonFields(g: Source, f: Effective, patches: seq<Patch>, effective: string, release: string) returns (p: Payload)
    ensures p == map key | key in COMMON :: ValueOf(g, f, patches, effective, release, key)
  {
    hide TextValues, FileValues, OrNull;
    p := map[SchemaVersion := Text("suderra.buildroot-source-identity.v2"), SuderraSha := Text(g.sha),
             ExternalTree := Text(g.externalTree), DirtyPaths := List(TextValues(g.dirty)), ReleaseId := Text(release),
             IndexSha := Text(f.index), UpstreamRef := Text(f.ref), SourceMode := Text(f.mode), PatchsetSha := Text(f.patchset),
             PatchFiles := List(FileValues(patches)), EffectiveId := Text(effective), ExpectedPatched := Flag(|patches| > 0),
             RustVersion := OrNull(g.rust), RustBinVersion := OrNull(g.rustBin)];
  }

  /** The keys that are always there. */
  method CommonPart(g: Source, index: string, patches: seq<Patch>, diff: Option<string>, d: Digests) returns (p: Payload)
    requires patches == EntriesOf(SortedPatches(g), d.file) && diff == DiffOf(g, d.file)
    ensures p == Common(g, index, d)
  {
    hide EntriesOf, SortedPatches, DiffOf, RefOf, PatchsetText, EffectiveText, ReleaseText, ValueOf;
    var ref := UpstreamRefOf(index, g.tags);
    var patchset := d.text(PatchsetText(patches));
    SameCount(g, d.file);
    var f := if |patches| > 0 then Effective(index, ref, "staged-patched-tree", patchset, diff)
             else Effective(index, ref, "clean-native", patchset, None);
    var effective := d.text(EffectiveText(f));
    var release := d.text(ReleaseText(Release(g.sha, g.externalTree, effective)));
    p := CommonFields(g, f, patches, effective, release);
  }

  lemma SameCount(g: Source, sha: Bytes -> string)
    ensures |EntriesOf(SortedPatches(g), sha)| == |SortedPatches(g)|
  {
  }

  /** `metadata`: the dictionary is filled step by step. */
  method Metadata(g: Source, d: Digests) returns (r: Result<Payload, string>)
    ensures r.Ok? <==> IsHex(g.sha, 40) && g.index.Some?
    ensures r.Ok? ==> r.value == MetadataOf(g, g.index.value, d)
  {
    hide Common, EntriesOf, SortedPatches, DiffOf, PatchsetText;
    if !IsHex(g.sha, 40) {
      return Err("source_sha must be a lowercase git commit sha");
    }
    if g.index.None? {
      return Err("cannot resolve Buildroot submodule");
    }
    var patches := PatchEntries(g, d.file);
    var diff := DiffDigest(g, d.file);
    var payload := CommonPart(g, g.index.value, patches, diff, d);
    SameCount(g, d.file);
    if |patches| > 0 {
      if diff.Some? {
        payload := payload[ExpectedDiff := Text(diff.value)];
        payload := payload[StagedDiff := Text(diff.value)];
        payload := payload[AppliedDiff := Text(diff.value)];
      } else {
        payload := payload[ExpectedDiff := Text(d.text("suderra-buildroot-applied-diff-from-patchset-v1\n" + PatchsetText(patches)))];
      }
    } else if diff.Some? {
      payload := payload[WorktreeDiff := Text(diff.value)];
    }
    return Ok(payload);
  }

  // ---------------------------------------------------------------- the validator

  predicate IsHexText(v: Value, n: nat) {
    v.Text? && IsHex(v.s, n)
  }

  predicate IsOptionalDigest(v: Value) {
    v == Null || (v.Text? && IsRealSha256(v.s))
  }

  predicate IsNative(v: Value) {
    v == Null || v == Text(NATIVE_RUST)
  }

  /** An int above zero; True counts as one. */
  predicate IsPositive(v: Value) {
    (v.Whole? && v.n > 0) || v == Flag(true)
  }

  predicate IsRelative(v: Value) {
    v.Text? && !("/" <= v.s) && ".." !in PosixPath.Parts(v.s)
  }

  predicate GoodFile(v: Value) {
    v.File? && IsRelative(v.path) && IsPositive(v.bytes) && IsHexText(v.sha256, 64)
  }

  predicate GoodFiles(items: seq<Value>) {
    (forall i :: 0 <= i < |items| ==> GoodFile(items[i]))
    && forall i, j :: 0 <= i < j < |items| ==> items[i].File? && items[j].File? ==> items[i].path != items[j].path
  }

  predicate GoodDirty(v: Value) {
    v.List? && forall i :: 0 <= i < |v.items| ==> v.items[i].Text? && v.items[i].s != []
  }

  predicate GoodSchema(p: Payload) {
    At(p, SchemaVersion) == Text(SCHEMA)
  }

  predicate GoodIds(p: Payload) {
    && IsHexText(At(p, IndexSha), 40) && IsHexText(At(p, EffectiveId), 64) && IsHexText(At(p, SuderraSha), 40)
    && IsHexText(At(p, ExternalTree), 64) && IsHexText(At(p, ReleaseId), 64) && IsHexText(At(p, PatchsetSha), 64)
  }

  predicate GoodChoices(p: Payload) {
    && At(p, ExpectedPatched).Flag? && At(p, UpstreamRef).Text? && At(p, UpstreamRef).s != []
    && (At(p, SourceMode) == Text(CLEAN) || At(p, SourceMode) == Text(PATCHED))
    && IsNative(At(p, RustVersion)) && IsNative(At(p, RustBinVersion))
  }

  predicate GoodDiffs(p: Payload) {
    && IsOptionalDigest(At(p, AppliedDiff)) && IsOptionalDigest(At(p, WorktreeDiff))
    && IsOptionalDigest(At(p, ExpectedDiff)) && IsOptionalDigest(At(p, StagedDiff))
  }

  predicate WellTyped(p: Payload) {
    && GoodSchema(p) && GoodIds(p) && GoodDirty(At(p, DirtyPaths))
    && At(p, PatchFiles).List? && GoodFiles(At(p, PatchFiles).items) && GoodChoices(p) && GoodDiffs(p)
  }

  predicate CleanRules(p: Payload) {
    && At(p, IndexSha) == Text(NATIVE_COMMIT) && At(p, UpstreamRef) == Text(NATIVE_REF) && At(p, ExpectedPatched) == Flag(false)
    && (At(p, PatchFiles) == List([]) || At(p, PatchFiles) == Null)
    && At(p, AppliedDiff) == Null && At(p, WorktreeDiff) == Null && At(p, ExpectedDiff) == Null && At(p, StagedDiff) == Null
  }

  predicate PatchedRules(p: Payload) {
    && At(p, ExpectedPatched) == Flag(true) && At(p, PatchFiles) != List([]) && At(p, AppliedDiff) != Null
    && At(p, ExpectedDiff) != Null && At(p, StagedDiff) != Null && At(p, ExpectedDiff) == At(p, StagedDiff)
  }

  predicate BindsEffective(p: Payload, text: string -> string)
    requires WellTyped(p)
  {
    var staged := At(p, StagedDiff);
    var f := Effective(At(p, IndexSha).s, At(p, UpstreamRef).s, At(p, SourceMode).s, At(p, PatchsetSha).s,
                       if At(p, SourceMode) == Text(PATCHED) && staged.Text? then Some(staged.s) else None);
    At(p, EffectiveId).s == text(EffectiveText(f))
  }

  predicate BindsRelease(p: Payload, text: string -> string, tree: Option<string>)
    requires WellTyped(p)
  {
    && At(p, ReleaseId).s == text(ReleaseText(Release(At(p, SuderraSha).s, At(p, ExternalTree).s, At(p, EffectiveId).s)))
    && (tree.Some? ==> At(p, ExternalTree).s == tree.value)
  }

  /** The two ids bind what they should; `tree` is the external tree's digest where the commit is at hand. */
  predicate BindsIds(p: Payload, text: string -> string, tree: Option<string>)
    requires WellTyped(p)
  {
    BindsEffective(p, text) && BindsRelease(p, text, tree)
  }

  predicate Valid(p: Payload, text: string -> string, tree: Option<string>) {
    WellTyped(p) && (if At(p, SourceMode) == Text(CLEAN) then CleanRules(p) else PatchedRules(p)) && BindsIds(p, text, tree)
  }

  /* The validator's failures, each named by a field it is about. */

  method ValidateDirty(v: Value) returns (failures: seq<Key>)
    ensures failures == [] <==> GoodDirty(v)
  {
    failures := [];
    if !v.List? {
      return [DirtyPaths];
    }
    for i := 0 to |v.items|
      invariant failures == [] <==> forall k :: 0 <= k < i ==> v.items[k].Text? && v.items[k].s != []
    {
      if !(v.items[i].Text? && v.items[i].s != []) {
        failures := failures + [DirtyPaths];
      }
    }
  }

  /** A relative path, a positive size and a digest; True counts as one byte. */
  method CheckFile(v: Value) returns (good: bool)
    ensures good <==> GoodFile(v)
    ensures good ==> v.File? && v.path.Text?
  {
    hide PosixPath.Parts, IsHex;
    good := false;
    if !v.File? || !v.path.Text? || (|v.path.s| > 0 && v.path.s[0] == '/') || ".." in PosixPath.Parts(v.path.s) {
      return;
    }
    if (!v.bytes.Whole? || v.bytes.n <= 0) && v.bytes != Flag(true) {
      return;
    }
    good := v.sha256.Text? && IsHex(v.sha256.s, 64);
  }

  method ValidateFiles(items: seq<Value>) returns (failures: seq<Key>)
    ensures failures == [] <==> GoodFiles(items)
  {
    hide GoodFile;
    failures := [];
    var seen: set<string> := {};
    for i := 0 to |items|
      invariant failures == [] <==> GoodFiles(items[..i])
      invariant failures == [] ==> seen == set v | v in items[..i] && v.File? && v.path.Text? :: v.path.s
    {
      assert items[..i + 1] == items[..i] + [items[i]];
      GoodFilesStep(items[..i], items[i]);
      var good := CheckFile(items[i]);
      if !good || items[i].path.s in seen {
        failures := failures + [PatchFiles];
      } else {
        seen := seen + {items[i].path.s};
      }
    }
    assert items[..|items|] == items;
  }

  lemma RelativeIsText(v: Value)
    requires IsRelative(v)
    ensures v.Text?
  {
  }

  lemma GoodFilesStep(front: seq<Value>, v: Value)
    ensures GoodFiles(front + [v]) <==>
            GoodFiles(front) && GoodFile(v) && v.path.Text? && v.path.s !in (set u | u in front && u.File? && u.path.Text? :: u.path.s)
  {
    var all := front + [v];
    assert all[|front|] == v;
    assert forall i :: 0 <= i < |front| ==> all[i] == front[i] && front[i] in front;
    if GoodFile(v) {
      RelativeIsText(v.path);
    }
    hide IsRelative, IsHexText, IsPositive;
    if GoodFiles(all) {
      forall u | u in front && u.File? && u.path.Text?
        ensures u.path.s != v.path.s
      {
        var i :| 0 <= i < |front| && front[i] == u;
        assert all[i].path != all[|front|].path;
      }
    }
  }

  /** `not isinstance(value, str) or not re.fullmatch(...)` */
  method CheckHex(p: Payload, key: Key, n: nat) returns (failures: seq<Key>)
    ensures failures == [] <==> IsHexText(At(p, key), n)
  {
    hide IsHex;
    failures := [key];
    if key in p && p[key].Text? && IsHex(p[key].s, n) {
      failures := [];
    }
  }

  method CheckIds(p: Payload) returns (failures: seq<Key>)
    ensures failures == [] <==> GoodIds(p)
  {
    hide IsHexText;
    failures := CheckHex(p, IndexSha, 40);
    var more := CheckHex(p, EffectiveId, 64);
    failures := failures + more;
    more := CheckHex(p, SuderraSha, 40);
    failures := failures + more;
    more := CheckHex(p, ExternalTree, 64);
    failures := failures + more;
    more := CheckHex(p, ReleaseId, 64);
    failures := failures + more;
    more := CheckHex(p, PatchsetSha, 64);
    failures := failures + more;
  }

  method CheckRust(v: Value, key: Key) returns (failures: seq<Key>)
    ensures failures == [] <==> IsNative(v)
  {
    failures := if v.Null? || (v.Text? && v.s == "1.86.0") then [] else [key];
  }

  method CheckChoices(p: Payload) returns (failures: seq<Key>)
    ensures failures == [] <==> GoodChoices(p)
  {
    hide At, IsNative;
    failures := CheckRust(At(p, RustVersion), RustVersion);
    var more := CheckRust(At(p, RustBinVersion), RustBinVersion);
    failures := failures + more;
    if !At(p, ExpectedPatched).Flag? {
      failures := failures + [ExpectedPatched];
    }
    var ref, mode := At(p, UpstreamRef), At(p, SourceMode);
    if !ref.Text? || |ref.s| == 0 {
      failures := failures + [UpstreamRef];
    }
    if !mode.Text? || (mode.s != "clean-native" && mode.s != "staged-patched-tree") {
      failures := failures + [SourceMode];
    }
  }

  /** Null, or a digest that is not all zeros. */
  method CheckDiff(p: Payload, key: Key) returns (failures: seq<Key>)
    ensures failures == [] <==> IsOptionalDigest(At(p, key))
  {
    hide IsRealSha256;
    failures := [];
    if key in p && !p[key].Null? && (!p[key].Text? || !IsRealSha256(p[key].s)) {
      failures := [key];
    }
  }

  method CheckDiffs(p: Payload) returns (failures: seq<Key>)
    ensures failures == [] <==> GoodDiffs(p)
  {
    hide IsOptionalDigest;
    failures := CheckDiff(p, AppliedDiff);
    var more := CheckDiff(p, WorktreeDiff);
    failures := failures + more;
    more := CheckDiff(p, ExpectedDiff);
    failures := failures + more;
    more := CheckDiff(p, StagedDiff);
    failures := failures + more;
  }

  method ValidateTypes(p: Payload) returns (failures: seq<Key>)
    ensures failures == [] <==> WellTyped(p)
  {
    hide GoodIds, GoodChoices, GoodDiffs, GoodFiles, GoodDirty, At;
    failures := if At(p, SchemaVersion) == Text("suderra.buildroot-source-identity.v2") then [] else [SchemaVersion];
    var more := CheckIds(p);
    failures := failures + more;
    more := ValidateDirty(At(p, DirtyPaths));
    failures := failures + more;
    var files := At(p, PatchFiles);
    if files.List? {
      more := ValidateFiles(files.items);
      failures := failures + more;
    } else {
      failures := failures + [PatchFiles];
    }
    more := CheckChoices(p);
    failures := failures + more;
    more := CheckDiffs(p);
    failures := failures + more;
  }

  /** The rules of a clean source: the pinned commit, nothing patched, no diff. */
  method CheckClean(p: Payload) returns (failures: seq<Key>)
    ensures failures == [] <==> CleanRules(p)
  {
    hide At;
    failures := [];
    if At(p, IndexSha) != Text("019201c6e007d80c1ab1bf65b98d9902bc767bdd") {
      failures := failures + [IndexSha];
    }
    if At(p, UpstreamRef) != Text("2025.05.3") {
      failures := failures + [UpstreamRef];
    }
    if At(p, ExpectedPatched) != Flag(false) {
      failures := failures + [ExpectedPatched];
    }
    if At(p, PatchFiles) !in [List([]), Null] {
      failures := failures + [PatchFiles];
    }
    if !At(p, AppliedDiff).Null? || !At(p, WorktreeDiff).Null? || !At(p, ExpectedDiff).Null? || !At(p, StagedDiff).Null? {
      failures := failures + [AppliedDiff];
    }
  }

  /** The rules of a patched source: patches, and one diff under both names. */
  method CheckPatched(p: Payload) returns (failures: seq<Key>)
    ensures failures == [] <==> PatchedRules(p)
  {
    hide At;
    failures := [];
    if At(p, ExpectedPatched) != Flag(true) {
      failures := failures + [ExpectedPatched];
    }
    if At(p, PatchFiles) == List([]) {
      failures := failures + [PatchFiles];
    }
    if At(p, AppliedDiff).Null? {
      failures := failures + [AppliedDiff];
    }
    if At(p, ExpectedDiff).Null? || At(p, StagedDiff).Null? {
      failures := failures + [ExpectedDiff];
    } else if At(p, ExpectedDiff) != At(p, StagedDiff) {
      failures := failures + [StagedDiff];
    }
  }

  /** The ids of a well-typed payload against the texts they are digests of. */
  method CheckBinding(p: Payload, text: string -> string, tree: Option<string>) returns (failures: seq<Key>)
    requires WellTyped(p)
    ensures failures == [] <==> BindsIds(p, text, tree)
  {
    hide At, EffectiveText, ReleaseText, GoodFiles, GoodDirty, IsHex, IsOptionalDigest, IsNative;
    var mode, staged := At(p, SourceMode).s, At(p, StagedDiff);
    var diff := if mode == "staged-patched-tree" && staged.Text? then Some(staged.s) else None;
    failures := [];
    if text(EffectiveText(Effective(At(p, IndexSha).s, At(p, UpstreamRef).s, mode, At(p, PatchsetSha).s, diff))) != At(p, EffectiveId).s {
      failures := failures + [EffectiveId];
    }
    var release := text(ReleaseText(Release(At(p, SuderraSha).s, At(p, ExternalTree).s, At(p, EffectiveId).s)));
    if release != At(p, ReleaseId).s {
      failures := failures + [ReleaseId];
    }
    if tree.Some? && tree.value != At(p, ExternalTree).s {
      failures := failures + [ExternalTree];
    }
  }

  /** `validate_metadata_payload` */
  method ValidateMetadataPayload(p: Payload, text: string -> string, tree: Option<string>) returns (failures: seq<Key>)
    ensures failures == [] <==> Valid(p, text, tree)
  {
    hide WellTyped, CleanRules, PatchedRules, BindsIds, At;
    failures := ValidateTypes(p);
    if failures == [] {
      TypedMode(p);
    }
    var more: seq<Key> := [];
    if At(p, SourceMode) == Text("clean-native") {
      more := CheckClean(p);
    } else if At(p, SourceMode) == Text("staged-patched-tree") {
      more := CheckPatched(p);
    }
    failures := failures + more;
    if failures == [] {
      failures := CheckBinding(p, text, tree);
    }
  }

  lemma TypedMode(p: Payload)
    requires WellTyped(p)
    ensures At(p, SourceMode) == Text(CLEAN) || At(p, SourceMode) == Text(PATCHED)
  {
  }

  // ---------------------------------------------------------------- renaming

  predicate IsField(key: Key) {
    !key.SchemaVersion? && !key.Identity? && !key.Other?
  }

  /** Every key of the payload but its schema version travels under its own name. */
  lemma FieldsAreAll(key: Key)
    ensures key in FIELDS <==> IsField(key)
  {
    if IsField(key) {
      FieldsAreListed(key);
    }
    FieldsAreFields();
    hide FIELDS;
  }

  lemma FieldsAreFields()
    ensures forall i :: 0 <= i < |FIELDS| ==> IsField(FIELDS[i])
  {
  }

  lemma FieldsAreListed(key: Key)
    requires IsField(key)
    ensures key in FIELDS
  {
    match key
    case IndexSha => assert FIELDS[0] == key;
    case UpstreamRef => assert FIELDS[1] == key;
    case SourceMode => assert FIELDS[2] == key;
    case PatchsetSha => assert FIELDS[3] == key;
    case PatchFiles => assert FIELDS[4] == key;
    case EffectiveId => assert FIELDS[5] == key;
    case ExpectedPatched => assert FIELDS[6] == key;
    case RustVersion => assert FIELDS[7] == key;
    case RustBinVersion => assert FIELDS[8] == key;
    case ExpectedDiff => assert FIELDS[9] == key;
    case StagedDiff => assert FIELDS[10] == key;
    case AppliedDiff => assert FIELDS[11] == key;
    case WorktreeDiff => assert FIELDS[12] == key;
    case SuderraSha => assert FIELDS[13] == key;
    case ExternalTree => assert FIELDS[14] == key;
    case DirtyPaths => assert FIELDS[15] == key;
    case ReleaseId => assert FIELDS[16] == key;
  }

  /** `output` with the fields in `keys` that `p` has. */
  function WithFields(output: Payload, p: Payload, keys: seq<Key>): Payload {
    if keys == [] then output
    else
      var last := keys[|keys| - 1];
      var r := WithFields(output, p, keys[..|keys| - 1]);
      if last in p then r[last := p[last]] else r
  }

  lemma {:induction false} FieldsAt(output: Payload, p: Payload, keys: seq<Key>, key: Key)
    ensures At(WithFields(output, p, keys), key) == if key in keys && key in p then p[key] else At(output, key)
  {
    if keys != [] {
      FieldsAt(output, p, keys[..|keys| - 1], key);
      assert keys == keys[..|keys| - 1] + [keys[|keys| - 1]];
    }
  }

  method CopyFields(output: Payload, p: Payload) returns (r: Payload)
    ensures r == WithFields(output, p, FIELDS)
  {
    r := output;
    var keys := FIELDS;
    for i := 0 to |keys|
      invariant r == WithFields(output, p, keys[..i])
    {
      assert keys[..i + 1][..i] == keys[..i];
      if keys[i] in p {
        r := r[keys[i] := p[keys[i]]];
      }
    }
    assert keys[..|keys|] == keys;
  }

  function BindingFields(identity: Payload): Payload {
    WithFields(map[Identity := At(identity, SchemaVersion)], identity, FIELDS)
  }

  function FromMapping(p: Payload): Payload {
    WithFields(if Identity in p then map[SchemaVersion := p[Identity]] else map[], p, FIELDS)
  }

  /** `buildroot_metadata_for_binding` */
  method BuildrootMetadataForBinding(identity: Payload) returns (r: Payload)
    ensures r == BindingFields(identity)
  {
    r := CopyFields(map[Identity := At(identity, SchemaVersion)], identity);
  }

  /** `buildroot_identity_payload_from_mapping` */
  method BuildrootIdentityPayloadFromMapping(p: Payload) returns (r: Payload)
    ensures r == FromMapping(p)
  {
    r := map[];
    if Identity in p {
      r := r[SchemaVersion := p[Identity]];
    }
    r := CopyFields(r, p);
  }

  /** The fields an ingress manifest holds only if the binding's value is not null. */
  const OPTIONAL: seq<Key> :=
    [AppliedDiff, ExpectedDiff, StagedDiff, WorktreeDiff, SuderraSha, ExternalTree, DirtyPaths, ReleaseId]

  function WithPresent(output: Payload, p: Payload, keys: seq<Key>): Payload {
    if keys == [] then output
    else
      var last := keys[|keys| - 1];
      var r := WithPresent(output, p, keys[..|keys| - 1]);
      if At(p, last) != Null then r[last := At(p, last)] else r
  }

  function Always(binding: Payload): Payload {
    map[Identity := At(binding, Identity), IndexSha := At(binding, IndexSha), UpstreamRef := At(binding, UpstreamRef),
        SourceMode := At(binding, SourceMode), PatchsetSha := At(binding, PatchsetSha), PatchFiles := At(binding, PatchFiles),
        EffectiveId := At(binding, EffectiveId), ExpectedPatched := At(binding, ExpectedPatched),
        RustVersion := At(binding, RustVersion), RustBinVersion := At(binding, RustBinVersion)]
  }

  /** The ingress manifest built from a binding; `others` are its further fields. */
  function ManifestOf(binding: Payload, others: Payload): Payload {
    WithPresent(others + Always(binding), binding, OPTIONAL)
  }

  method IngressManifest(binding: Payload, others: Payload) returns (r: Payload)
    ensures r == ManifestOf(binding, others)
  {
    r := others + Always(binding);
    ghost var start := r;
    var keys := OPTIONAL;
    for i := 0 to |keys|
      invariant r == WithPresent(start, binding, keys[..i])
    {
      assert keys[..i + 1][..i] == keys[..i];
      if At(binding, keys[i]) != Null {
        r := r[keys[i] := At(binding, keys[i])];
      }
    }
    assert keys[..|keys|] == keys;
  }

  lemma {:induction false} PresentAt(output: Payload, p: Payload, keys: seq<Key>, key: Key)
    ensures At(WithPresent(output, p, keys), key) == if key in keys && At(p, key) != Null then At(p, key) else At(output, key)
  {
    if keys != [] {
      PresentAt(output, p, keys[..|keys| - 1], key);
      assert keys == keys[..|keys| - 1] + [keys[|keys| - 1]];
    }
  }

  /** A manifest's other fields are not fields of the identity. */
  predicate Foreign(others: Payload) {
    forall key :: key in others ==> !IsField(key) && key != Identity
  }

  lemma OptionalOrAlways(key: Key, binding: Payload)
    requires IsField(key)
    ensures key in OPTIONAL || key in Always(binding)
    ensures key in Always(binding) ==> Always(binding)[key] == At(binding, key)
  {
    match key
    case AppliedDiff => assert OPTIONAL[0] == key;
    case ExpectedDiff => assert OPTIONAL[1] == key;
    case StagedDiff => assert OPTIONAL[2] == key;
    case WorktreeDiff => assert OPTIONAL[3] == key;
    case SuderraSha => assert OPTIONAL[4] == key;
    case ExternalTree => assert OPTIONAL[5] == key;
    case DirtyPaths => assert OPTIONAL[6] == key;
    case ReleaseId => assert OPTIONAL[7] == key;
    case _ =>
  }

  lemma IdentityIsAlways(binding: Payload)
    ensures Identity in Always(binding) && Always(binding)[Identity] == At(binding, Identity)
  {
  }

  lemma ManifestField(binding: Payload, others: Payload, key: Key)
    requires Foreign(others) && (IsField(key) || key == Identity)
    ensures At(ManifestOf(binding, others), key) == At(binding, key)
  {
    hide OPTIONAL, Always, WithPresent;
    PresentAt(others + Always(binding), binding, OPTIONAL, key);
    if IsField(key) {
      OptionalOrAlways(key, binding);
    } else {
      IdentityIsAlways(binding);
    }
  }

  lemma MappedField(p: Payload, key: Key)
    ensures At(FromMapping(p), key) ==
            if key == SchemaVersion then At(p, Identity) else if IsField(key) then At(p, key) else Null
  {
    FieldsAreAll(key);
    FieldsAt(if Identity in p then map[SchemaVersion := p[Identity]] else map[], p, FIELDS, key);
    hide FIELDS, WithFields;
  }

  lemma BindingField(identity: Payload, key: Key)
    ensures At(BindingFields(identity), key) ==
            if key == Identity then At(identity, SchemaVersion) else if IsField(key) then At(identity, key) else Null
  {
    FieldsAreAll(key);
    FieldsAt(map[Identity := At(identity, SchemaVersion)], identity, FIELDS, key);
    hide FIELDS, WithFields;
  }

  /** A binding: its own fields, overlaid with the identity's. */
  function BindingOf(base: Payload, identity: Payload): Payload {
    base + BindingFields(identity)
  }

  ghost predicate SameFields(p: Payload, q: Payload) {
    At(p, SchemaVersion) == At(q, SchemaVersion) && forall key :: IsField(key) ==> At(p, key) == At(q, key)
  }

  lemma SameTypes(p: Payload, q: Payload)
    requires SameFields(p, q)
    ensures WellTyped(p) <==> WellTyped(q)
  {
    hide At, IsHexText, GoodFiles, GoodDirty, IsOptionalDigest, IsNative;
  }

  lemma SameRules(p: Payload, q: Payload)
    requires SameFields(p, q)
    ensures CleanRules(p) <==> CleanRules(q)
    ensures PatchedRules(p) <==> PatchedRules(q)
  {
    hide At;
  }

  /** The verdict depends on what `get` returns for the payload's own keys. */
  lemma SameView(p: Payload, q: Payload, text: string -> string, tree: Option<string>)
    requires SameFields(p, q)
    ensures Valid(p, text, tree) <==> Valid(q, text, tree)
  {
    hide At, WellTyped, CleanRules, PatchedRules, EffectiveText, ReleaseText;
    SameTypes(p, q);
    SameRules(p, q);
  }

  /** Renaming into a binding, on into an ingress manifest and back leaves what the validator sees, and so its verdict,
      as it was; so does the way back from the binding alone. */
  lemma VerdictSurvivesRenaming(identity: Payload, base: Payload, others: Payload, text: string -> string, tree: Option<string>)
    requires Foreign(base) && Foreign(others)
    ensures var binding := BindingOf(base, identity);
            && (Valid(FromMapping(binding), text, tree) <==> Valid(identity, text, tree))
            && (Valid(FromMapping(ManifestOf(binding, others)), text, tree) <==> Valid(identity, text, tree))
  {
    var binding := BindingOf(base, identity);
    var manifest := ManifestOf(binding, others);
    hide FromMapping, BindingFields, ManifestOf, Valid, At, WithFields;
    forall key | IsField(key) || key == SchemaVersion
      ensures At(FromMapping(binding), key) == At(FromMapping(manifest), key) == At(identity, key)
    {
      var source := if key == SchemaVersion then Identity else key;
      MappedField(binding, key);
      MappedField(manifest, key);
      ManifestField(binding, others, source);
      BindingField(identity, source);
      Overlay(base, BindingFields(identity), source);
    }
    SameView(FromMapping(binding), identity, text, tree);
    SameView(FromMapping(manifest), identity, text, tree);
  }

  lemma Overlay(base: Payload, top: Payload, key: Key)
    requires Foreign(base) && (IsField(key) || key == Identity)
    ensures At(base + top, key) == At(top, key)
  {
  }

  // ---------------------------------------------------------------- when the producer's payload is accepted

  /** The digests are digests: well-formed and not all zeros. */
  ghost predicate AreDigests(d: Digests) {
    (forall b :: IsRealSha256(d.file(b))) && forall t :: IsRealSha256(d.text(t))
  }

  /** What git and a patch directory give: well-formed commits and digests, non-empty status lines and tags, patch names
      that are names and differ, no empty patch; the Rust versions are absent or native. */
  predicate WellFormed(g: Source, index: string) {
    && IsHex(g.sha, 40) && IsHex(index, 40) && IsHex(g.externalTree, 64)
    && (forall i :: 0 <= i < |g.dirty| ==> g.dirty[i] != []) && (forall i :: 0 <= i < |g.tags| ==> g.tags[i] != [])
    && GoodPatches(g.patches) && IsNative(OrNull(g.rust)) && IsNative(OrNull(g.rustBin))
  }

  predicate GoodPatches(files: seq<PatchFile>) {
    (forall i :: 0 <= i < |files| ==> PosixPath.IsPart(files[i].name) && files[i].name != ".." && files[i].bytes != [])
    && forall i, j :: 0 <= i < j < |files| ==> files[i].name != files[j].name
  }

  lemma GoodPatchesByElements(files: seq<PatchFile>)
    ensures GoodPatches(files) <==>
            && Sorting.NoRepeats(files)
            && (forall f :: f in files ==> PosixPath.IsPart(f.name) && f.name != ".." && f.bytes != [])
            && forall f, h :: f in files && h in files && f != h ==> f.name != h.name
  {
    hide PosixPath.IsPart;
    assert forall i :: 0 <= i < |files| ==> files[i] in files;
  }

  lemma SortedPatchesAreGood(g: Source)
    requires GoodPatches(g.patches)
    ensures GoodPatches(SortedPatches(g)) && |SortedPatches(g)| == |g.patches|
  {
    hide GoodPatches;
    Sorting.SortPermutes(g.patches, (a: PatchFile, b: PatchFile) => Less(a.name, b.name));
    Sorting.SamePermutation(g.patches, SortedPatches(g));
    GoodPatchesByElements(g.patches);
    GoodPatchesByElements(SortedPatches(g));
  }

  lemma PatchPathIsRelative(name: string)
    requires PosixPath.IsPart(name) && name != ".."
    ensures IsRelative(Text(PatchPath(name))) && PosixPath.Parts(PatchPath(name)) == ["patches", "buildroot", name]
  {
    var parts := ["patches", "buildroot", name];
    assert parts[1..] == ["buildroot", name] && parts[1..][1..] == [name];
    assert PosixPath.Join([name]) == name;
    assert PosixPath.Join(parts[1..]) == "buildroot" + "/" + name;
    assert PosixPath.Join(parts) == "patches" + "/" + ("buildroot" + "/" + name);
    assert PatchPath(name) == PosixPath.Join(parts);
    PosixPath.PartsOfJoin(parts);
    assert PatchPath(name)[0] == 'p';
    hide PosixPath.Parts, PosixPath.Join;
    assert ".." !in parts;
  }

  lemma ProducedFilesAreGood(files: seq<PatchFile>, sha: Bytes -> string)
    requires GoodPatches(files) && forall b :: IsRealSha256(sha(b))
    ensures GoodFiles(FileValues(EntriesOf(files, sha)))
  {
    var values := FileValues(EntriesOf(files, sha));
    hide PatchPath, PosixPath.IsPart, IsRelative;
    forall i | 0 <= i < |values|
      ensures GoodFile(values[i])
    {
      PatchPathIsRelative(files[i].name);
      assert IsRealSha256(sha(files[i].bytes));
    }
    forall i, j | 0 <= i < j < |values|
      ensures values[i].path != values[j].path
    {
      PatchPathIsRelative(files[i].name);
      PatchPathIsRelative(files[j].name);
      assert PosixPath.Parts(PatchPath(files[i].name))[2] != PosixPath.Parts(PatchPath(files[j].name))[2];
    }
  }

  predicate IsCommon(key: Key) {
    !key.Identity? && !key.Other? && !IsDiff(key)
  }

  predicate IsDiff(key: Key) {
    key == ExpectedDiff || key == StagedDiff || key == AppliedDiff || key == WorktreeDiff
  }

  lemma CommonKeys(key: Key)
    ensures key in COMMON <==> IsCommon(key)
  {
  }

  lemma DiffAt(patched: bool, diff: Option<string>, canonical: string)
    ensures var p := DiffFields(patched, diff, canonical);
            && (forall key :: key in p ==> IsDiff(key))
            && At(p, StagedDiff) == At(p, AppliedDiff) == (if patched then OrNull(diff) else Null)
            && At(p, WorktreeDiff) == (if patched then Null else OrNull(diff))
            && At(p, ExpectedDiff) == (if !patched then Null else if diff.Some? then OrNull(diff) else Text(canonical))
  {
  }

  /** What the validator sees of the producer's payload. */
  lemma MetadataAt(g: Source, index: string, d: Digests, key: Key)
    ensures IsCommon(key) ==> At(MetadataOf(g, index, d), key) == CommonValue(g, index, d, key)
    ensures IsDiff(key) ==> At(MetadataOf(g, index, d), key) == At(DiffFields(SortedPatches(g) != [], DiffOf(g, d.file), CanonicalDiff(g, d)), key)
  {
    DiffAt(SortedPatches(g) != [], DiffOf(g, d.file), CanonicalDiff(g, d));
    CommonKeys(key);
    hide COMMON, CommonValue, DiffFields, SortedPatches, DiffOf, CanonicalDiff, IsCommon;
    assert IsDiff(key) ==> !IsCommon(key) by {
      DiffIsNotCommon(key);
    }
  }

  lemma DiffIsNotCommon(key: Key)
    ensures IsDiff(key) ==> !IsCommon(key)
  {
  }

  /** The payload is always well typed. */
  lemma ProducedTypes(g: Source, index: string, d: Digests)
    requires WellFormed(g, index) && AreDigests(d)
    ensures WellTyped(MetadataOf(g, index, d))
  {
    hide WellFormed, AreDigests, GoodSchema, GoodIds, GoodDirty, GoodFiles, GoodChoices, GoodDiffs, At, MetadataOf;
    ProducedIds(g, index, d);
    ProducedLists(g, index, d);
    ProducedChoices(g, index, d);
    ProducedDiffs(g, index, d);
  }

  lemma ProducedIds(g: Source, index: string, d: Digests)
    requires WellFormed(g, index) && AreDigests(d)
    ensures GoodIds(MetadataOf(g, index, d))
  {
    hide MetadataOf, At, EffectiveText, ReleaseText, PatchsetText, SortedPatches, EntriesOf, DiffOf, RefOf, GoodPatches,
         IsHex, IsRealSha256;
    MetadataAt(g, index, d, IndexSha);
    MetadataAt(g, index, d, EffectiveId);
    MetadataAt(g, index, d, SuderraSha);
    MetadataAt(g, index, d, ExternalTree);
    MetadataAt(g, index, d, ReleaseId);
    MetadataAt(g, index, d, PatchsetSha);
    RealIsHex();
  }

  lemma ProducedFiles(g: Source, index: string, d: Digests)
    requires WellFormed(g, index) && AreDigests(d)
    ensures GoodFiles(FileValues(EntriesOf(SortedPatches(g), d.file)))
  {
    hide SortedPatches, EntriesOf, FileValues, GoodFiles, GoodPatches, IsHex, IsNative, IsRealSha256;
    SortedPatchesAreGood(g);
    ProducedFilesAreGood(SortedPatches(g), d.file);
  }

  lemma ProducedDirty(g: Source, index: string)
    requires WellFormed(g, index)
    ensures GoodDirty(List(TextValues(g.dirty)))
  {
    hide GoodPatches, IsHex, IsNative;
  }

  lemma ProducedLists(g: Source, index: string, d: Digests)
    requires WellFormed(g, index) && AreDigests(d)
    ensures var p := MetadataOf(g, index, d);
            GoodSchema(p) && GoodDirty(At(p, DirtyPaths)) && At(p, PatchFiles).List? && GoodFiles(At(p, PatchFiles).items)
  {
    hide WellFormed, AreDigests, MetadataOf, At, SortedPatches, EffectiveOf, EntriesOf, FileValues, TextValues,
         GoodFiles, GoodDirty, SCHEMA;
    ProducedFiles(g, index, d);
    ProducedDirty(g, index);
    MetadataAt(g, index, d, SchemaVersion);
    MetadataAt(g, index, d, DirtyPaths);
    MetadataAt(g, index, d, PatchFiles);
  }

  lemma ProducedChoices(g: Source, index: string, d: Digests)
    requires WellFormed(g, index)
    ensures GoodChoices(MetadataOf(g, index, d))
  {
    hide MetadataOf, At, EffectiveText, ReleaseText, PatchsetText, SortedPatches, EntriesOf, DiffOf, RefOf, GoodPatches,
         IsHex, IsNative, OrNull, CLEAN, PATCHED;
    RefIsThere(index, g.tags);
    MetadataAt(g, index, d, ExpectedPatched);
    MetadataAt(g, index, d, UpstreamRef);
    MetadataAt(g, index, d, SourceMode);
    MetadataAt(g, index, d, RustVersion);
    MetadataAt(g, index, d, RustBinVersion);
  }

  lemma ProducedDiffs(g: Source, index: string, d: Digests)
    requires AreDigests(d)
    ensures GoodDiffs(MetadataOf(g, index, d))
  {
    hide MetadataOf, At, CanonicalDiff, IsRealSha256, DiffOf, SortedPatches;
    DiffIsDigest(g, d);
    SeesDiffs(g, index, d);
    CanonicalIsDigest(g, d);
  }

  lemma CanonicalIsDigest(g: Source, d: Digests)
    requires AreDigests(d)
    ensures IsRealSha256(CanonicalDiff(g, d))
  {
    hide IsRealSha256, PatchsetText, SortedPatches, EntriesOf, APPLIED_DIFF_DOMAIN;
  }

  lemma SeesDiffs(g: Source, index: string, d: Digests)
    ensures var p := MetadataOf(g, index, d); var patched := SortedPatches(g) != []; var diff := DiffOf(g, d.file);
            && At(p, StagedDiff) == At(p, AppliedDiff) == (if patched then OrNull(diff) else Null)
            && At(p, WorktreeDiff) == (if patched then Null else OrNull(diff))
            && At(p, ExpectedDiff) == (if !patched then Null else if diff.Some? then OrNull(diff) else Text(CanonicalDiff(g, d)))
  {
    hide MetadataOf, At, DiffFields, CanonicalDiff, DiffOf, SortedPatches, CommonValue, OrNull;
    DiffAt(SortedPatches(g) != [], DiffOf(g, d.file), CanonicalDiff(g, d));
    MetadataAt(g, index, d, StagedDiff);
    MetadataAt(g, index, d, AppliedDiff);
    MetadataAt(g, index, d, WorktreeDiff);
    MetadataAt(g, index, d, ExpectedDiff);
  }

  lemma RefIsThere(index: string, tags: seq<string>)
    requires IsHex(index, 40) && forall i :: 0 <= i < |tags| ==> tags[i] != []
    ensures RefOf(index, tags) != []
  {
  }

  lemma DiffIsDigest(g: Source, d: Digests)
    requires AreDigests(d)
    ensures IsOptionalDigest(OrNull(DiffOf(g, d.file)))
  {
    hide IsRealSha256;
  }

  lemma RealIsHex()
    ensures forall s :: IsRealSha256(s) ==> IsHex(s, 64)
  {
  }

  lemma EffectiveIsBound(g: Source, index: string, d: Digests)
    requires WellTyped(MetadataOf(g, index, d))
    ensures BindsEffective(MetadataOf(g, index, d), d.text)
  {
    hide MetadataOf, At, WellTyped, SortedPatches, EntriesOf, PatchsetText, EffectiveText, ReleaseText, DiffOf, RefOf,
         CLEAN, PATCHED, SCHEMA;
    SeesDiffs(g, index, d);
    MetadataAt(g, index, d, IndexSha);
    MetadataAt(g, index, d, UpstreamRef);
    MetadataAt(g, index, d, SourceMode);
    MetadataAt(g, index, d, PatchsetSha);
    MetadataAt(g, index, d, EffectiveId);
    ModesDiffer();
  }

  lemma ReleaseIsBound(g: Source, index: string, d: Digests, tree: Option<string>)
    requires WellTyped(MetadataOf(g, index, d)) && (tree.Some? ==> tree.value == g.externalTree)
    ensures BindsRelease(MetadataOf(g, index, d), d.text, tree)
  {
    hide MetadataOf, At, WellTyped, EffectiveOf, EffectiveText, ReleaseText, SCHEMA;
    MetadataAt(g, index, d, EffectiveId);
    MetadataAt(g, index, d, ReleaseId);
    MetadataAt(g, index, d, SuderraSha);
    MetadataAt(g, index, d, ExternalTree);
  }

  /** The validator takes the producer's payload exactly if the source is unpatched, on the pinned commit and without a
      diff in the work tree, or patched with a diff. */
  lemma ProducerIsAccepted(g: Source, index: string, d: Digests, tree: Option<string>)
    requires WellFormed(g, index) && AreDigests(d) && (tree.Some? ==> tree.value == g.externalTree)
    ensures Valid(MetadataOf(g, index, d), d.text, tree) <==>
            if g.patches == [] then index == NATIVE_COMMIT && DiffOf(g, d.file).None? else DiffOf(g, d.file).Some?
  {
    hide WellFormed, MetadataOf, WellTyped, BindsEffective, BindsRelease, DiffOf, At, CleanRules, PatchedRules,
         SortedPatches, CLEAN, PATCHED, NATIVE_COMMIT;
    PatchesAreSorted(g, index);
    ProducedTypes(g, index, d);
    EffectiveIsBound(g, index, d);
    ReleaseIsBound(g, index, d, tree);
    ProducedMode(g, index, d);
    if g.patches == [] {
      CleanIsAccepted(g, index, d);
    } else {
      PatchedIsAccepted(g, index, d);
    }
  }

  lemma PatchesAreSorted(g: Source, index: string)
    requires WellFormed(g, index)
    ensures |SortedPatches(g)| == |g.patches|
  {
    SortedPatchesAreGood(g);
  }

  lemma ProducedMode(g: Source, index: string, d: Digests)
    ensures At(MetadataOf(g, index, d), SourceMode) == Text(CLEAN) <==> SortedPatches(g) == []
  {
    hide MetadataOf, At, EntriesOf, PatchsetText, EffectiveText, ReleaseText, DiffOf, RefOf, CLEAN, PATCHED,
         SortedPatches;
    MetadataAt(g, index, d, SourceMode);
    ModesDiffer();
  }

  lemma CleanIsAccepted(g: Source, index: string, d: Digests)
    requires SortedPatches(g) == []
    ensures CleanRules(MetadataOf(g, index, d)) <==> index == NATIVE_COMMIT && DiffOf(g, d.file).None?
  {
    hide MetadataOf, At, PatchsetText, EffectiveText, ReleaseText, DiffOf, SortedPatches, NATIVE_COMMIT, NATIVE_REF;
    SeesDiffs(g, index, d);
    MetadataAt(g, index, d, IndexSha);
    MetadataAt(g, index, d, UpstreamRef);
    MetadataAt(g, index, d, ExpectedPatched);
    MetadataAt(g, index, d, PatchFiles);
  }

  lemma PatchedIsAccepted(g: Source, index: string, d: Digests)
    requires SortedPatches(g) != []
    ensures PatchedRules(MetadataOf(g, index, d)) <==> DiffOf(g, d.file).Some?
  {
    hide MetadataOf, At, PatchsetText, EffectiveText, ReleaseText, DiffOf, SortedPatches;
    SeesDiffs(g, index, d);
    MetadataAt(g, index, d, ExpectedPatched);
    MetadataAt(g, index, d, PatchFiles);
  }

  lemma ModesDiffer()
    ensures CLEAN != PATCHED
  {
  }
}
