/** The evidence bundle: what is copied into it from the release inputs, and the closure check against the graph. */
module BundleClosure {
  import opened PyText
  import opened Reporting
  import opened Hashing
  import opened EvidenceGraph
  import AttestationRecord
  import Json
  import PosixPath

  // ---------------------------------------------------------------- the evidence dictionary

  /** A reference to a file of the bundle; a missing or ill-typed digest or size is None. */
  datatype Ref = Ref(path: string, measured: Measurement)

  /** A list entry: a reference with its target, or the name it is listed under. */
  datatype Listed = Listed(tag: string, ref: Ref)

  datatype FinalEvidence = FinalEvidence(
    target: string, artifacts: seq<Listed>,
    releaseInput: Option<Ref>, reproducibility: Option<Ref>, retention: Option<Ref>, roleBindings: Option<Ref>,
    signingManifests: seq<Listed>, hardwareSubjects: seq<Listed>, otaArtifacts: seq<Listed>, runtimeSuites: seq<Listed>,
    scans: seq<string>, securityReports: seq<Listed>, scannerReports: seq<Listed>, imageScanReports: seq<Listed>,
    stationRegistry: Option<Ref>, policyValidation: Option<Ref>)

  /** Where the inputs lie and for what release they are collected. `suites` are those of the target's contract. */
  datatype Inputs = Inputs(root: Tree, version: string, target: string, suites: seq<string>, sha: Bytes -> string)

  function ProfileOf(version: string): string {
    if '-' in version then "release-candidate" else "production-candidate"
  }

  // ---------------------------------------------------------------- one file

  /** `base / rel`: an absolute right side replaces the left. */
  function Under(base: string, rel: string): string {
    if "/" <= rel then rel else base + "/" + rel
  }

  predicate HasFile(root: Tree, path: string) {
    FileAt(root, path).Some? && FileAt(root, path).value != []
  }

  function RefOf(rel: string, bytes: Bytes, sha: Bytes -> string): Ref {
    Ref(rel, Measurement(Some(sha(bytes)), Some(|bytes|)))
  }

  /** The slot's new value: the copied input where there is one. */
  function Slot(before: Option<Ref>, i: Inputs, source: string, rel: string): Option<Ref> {
    if HasFile(i.root, source) then Some(RefOf(rel, FileAt(i.root, source).value, i.sha)) else before
  }

  /** What is appended to a list. */
  function Entry(i: Inputs, tag: string, source: string, rel: string): seq<Listed> {
    if HasFile(i.root, source) then [Listed(tag, RefOf(rel, FileAt(i.root, source).value, i.sha))] else []
  }

  // ---------------------------------------------------------------- sources and destinations

  function BindingSource(i: Inputs): string {
    Under(Under("release-inputs", i.version), ProfileOf(i.version) + ".json")
  }

  function RoleBindingsSource(i: Inputs): string {
    Under("release-governance", i.version) + "/" + "role-bindings.json"
  }

  function RetentionSource(i: Inputs): string {
    Under("release-retention", i.version) + "/" + "retention-manifest.json"
  }

  function SigningSource(i: Inputs): string {
    Under(Under("release-signing", i.version), i.target) + "/" + "signing-manifest.json"
  }

  function OtaSource(i: Inputs): string {
    Under(Under("release-ota", i.version), i.target) + "/" + "ota-artifacts.json"
  }

  function HardwareSource(i: Inputs): string {
    Under(Under("release-lab-input", i.version), i.target) + "/" + "hardware-subject.json"
  }

  function ReproducibilitySource(i: Inputs): string {
    Under(Under("release-reproducibility", i.version), i.target + ".json")
  }

  function ReportSource(i: Inputs, scan: string): string {
    Under(Under("release-security", i.version), scan + ".json")
  }

  function SuiteSource(i: Inputs, suite: string): string {
    Under(Under("release-runtime", i.version), suite) + "/" + "production-runtime.json"
  }

  function BindingCopy(i: Inputs): string {
    "preflight" + "/" + "release-inputs" + "/" + ProfileOf(i.version) + ".json"
  }

  function ReportCopy(scan: string): string {
    "preflight/security/" + PosixPath.Name(scan + ".json")
  }

  function SuiteCopy(suite: string): string {
    Under("preflight/runtime", suite) + "/production-runtime.json"
  }

  const ROLE_BINDINGS_COPY := PosixPath.Join(["governance", "role-bindings.json"])
  const RETENTION_COPY := PosixPath.Join(["retention", "retention-manifest.json"])
  const SIGNING_COPY := PosixPath.Join(["preflight", "signing", "signing-manifest.json"])
  const OTA_COPY := PosixPath.Join(["preflight", "ota", "ota-artifacts.json"])
  const HARDWARE_COPY := PosixPath.Join(["hardware", "input", "hardware-subject.json"])
  const REPRODUCIBILITY_COPY := PosixPath.Join(["preflight", "reproducibility", "reproducibility.json"])

  // ---------------------------------------------------------------- the bundle after assembly

  predicate IsImageReport(i: Inputs, scan: string) {
    HasFile(i.root, ReportSource(i, scan))
    && (var payload := AttestationRecord.ReadJson(FileAt(i.root, ReportSource(i, scan)).value);
        payload.Some? && Json.TextAt(payload.value, "schema_version") == Some("suderra.release-security-report.v2"))
  }

  function ReportEntries(i: Inputs, scans: seq<string>): seq<Listed> {
    if scans == [] then []
    else
      var scan := scans[|scans| - 1];
      ReportEntries(i, scans[..|scans| - 1])
      + if IsImageReport(i, scan) then Entry(i, scan, ReportSource(i, scan), ReportCopy(scan)) else []
  }

  /** Every scan report there is, whatever its schema. */
  function SecurityEntries(i: Inputs, scans: seq<string>): seq<Listed> {
    if scans == [] then []
    else
      var scan := scans[|scans| - 1];
      SecurityEntries(i, scans[..|scans| - 1]) + Entry(i, scan, ReportSource(i, scan), ReportCopy(scan))
  }

  function SuiteEntries(i: Inputs, suites: seq<string>): seq<Listed> {
    if suites == [] then []
    else
      var suite := suites[|suites| - 1];
      SuiteEntries(i, suites[..|suites| - 1]) + Entry(i, suite, SuiteSource(i, suite), SuiteCopy(suite))
  }

  function Applied(e: FinalEvidence, i: Inputs): FinalEvidence {
    e.(releaseInput := Slot(e.releaseInput, i, BindingSource(i), BindingCopy(i)),
       roleBindings := Slot(e.roleBindings, i, RoleBindingsSource(i), ROLE_BINDINGS_COPY),
       retention := Slot(e.retention, i, RetentionSource(i), RETENTION_COPY),
       signingManifests := e.signingManifests + Entry(i, i.target, SigningSource(i), SIGNING_COPY),
       otaArtifacts := e.otaArtifacts + Entry(i, i.target, OtaSource(i), OTA_COPY),
       hardwareSubjects := e.hardwareSubjects + Entry(i, i.target, HardwareSource(i), HARDWARE_COPY),
       reproducibility := Slot(e.reproducibility, i, ReproducibilitySource(i), REPRODUCIBILITY_COPY),
       securityReports := e.securityReports + SecurityEntries(i, e.scans),
       scannerReports := e.scannerReports + ReportEntries(i, e.scans),
       imageScanReports := e.imageScanReports + ReportEntries(i, e.scans),
       runtimeSuites := e.runtimeSuites + SuiteEntries(i, i.suites))
  }

  /** The three lists that grow in the loop over the scans. */
  function WithReports(e: FinalEvidence, i: Inputs, scans: seq<string>): FinalEvidence {
    e.(securityReports := e.securityReports + SecurityEntries(i, scans), scannerReports := e.scannerReports + ReportEntries(i, scans),
       imageScanReports := e.imageScanReports + ReportEntries(i, scans))
  }

  // ---------------------------------------------------------------- the copies

  /** One `copy_into_bundle`: the destination as it is named, and the bytes. */
  datatype Copy = Copy(rel: string, bytes: Bytes)

  function CopyOf(i: Inputs, source: string, rel: string): seq<Copy> {
    if HasFile(i.root, source) then [Copy(rel, FileAt(i.root, source).value)] else []
  }

  function SlotCopies(i: Inputs): seq<Copy> {
    CopyOf(i, BindingSource(i), BindingCopy(i)) + CopyOf(i, RoleBindingsSource(i), ROLE_BINDINGS_COPY)
    + CopyOf(i, RetentionSource(i), RETENTION_COPY) + CopyOf(i, SigningSource(i), SIGNING_COPY) + CopyOf(i, OtaSource(i), OTA_COPY)
    + CopyOf(i, HardwareSource(i), HARDWARE_COPY) + CopyOf(i, ReproducibilitySource(i), REPRODUCIBILITY_COPY)
  }

  function ReportCopies(i: Inputs, scans: seq<string>): seq<Copy> {
    if scans == [] then []
    else
      var scan := scans[|scans| - 1];
      ReportCopies(i, scans[..|scans| - 1]) + CopyOf(i, ReportSource(i, scan), ReportCopy(scan))
  }

  function SuiteCopies(i: Inputs, suites: seq<string>): seq<Copy> {
    if suites == [] then []
    else
      var suite := suites[|suites| - 1];
      SuiteCopies(i, suites[..|suites| - 1]) + CopyOf(i, SuiteSource(i, suite), SuiteCopy(suite))
  }

  /** The copies of one assembly, in order. */
  function Copies(e: FinalEvidence, i: Inputs): seq<Copy> {
    SlotCopies(i) + ReportCopies(i, e.scans) + SuiteCopies(i, i.suites)
  }

  /** The bundle after the copies: of several to one place, the last stays. */
  function Laid(files: Tree, copies: seq<Copy>): Tree {
    if copies == [] then files
    else
      var last := copies[|copies| - 1];
      Laid(files, copies[..|copies| - 1])[PosixPath.AsPosix(last.rel) := last.bytes]
  }

  lemma {:induction false} LaidConcat(files: Tree, a: seq<Copy>, b: seq<Copy>)
    ensures Laid(files, a + b) == Laid(Laid(files, a), b)
    decreases |b|
  {
    hide PosixPath.AsPosix;
    if b == [] {
      assert a + b == a;
    } else {
      assert (a + b)[..|a + b| - 1] == a + b[..|b| - 1];
      LaidConcat(files, a, b[..|b| - 1]);
    }
  }

  lemma LaidSeven(files: Tree, a: seq<Copy>, b: seq<Copy>, c: seq<Copy>, d: seq<Copy>, e: seq<Copy>, f: seq<Copy>, g: seq<Copy>)
    ensures Laid(files, a + b + c + d + e + f + g) == Laid(Laid(Laid(Laid(Laid(Laid(Laid(files, a), b), c), d), e), f), g)
  {
    hide Laid;
    LaidConcat(files, a, b);
    LaidConcat(files, a + b, c);
    LaidConcat(files, a + b + c, d);
    LaidConcat(files, a + b + c + d, e);
    LaidConcat(files, a + b + c + d + e, f);
    LaidConcat(files, a + b + c + d + e + f, g);
  }

  lemma LaidOne(files: Tree, c: Copy)
    ensures Laid(files, [c]) == files[PosixPath.AsPosix(c.rel) := c.bytes]
    ensures Laid(files, []) == files
  {
    assert [c][..0] == [];
  }

  method JoinPath(base: string, rel: string) returns (path: string)
    ensures path == Under(base, rel)
  {
    path := rel;
    if |rel| == 0 || rel[0] != '/' {
      path := base + "/" + rel;
    }
  }

  /** The binding of the version's profile, and its copy. */
  method BindingPlace(i: Inputs) returns (source: string, rel: string)
    ensures source == BindingSource(i) && rel == BindingCopy(i)
  {
    hide Under;
    var profile := "production-candidate";
    for k := 0 to |i.version|
      invariant '-' !in i.version[..k]
    {
      if i.version[k] == '-' {
        profile := "release-candidate";
        break;
      }
    }
    assert i.version[..|i.version|] == i.version;
    source := JoinPath("release-inputs", i.version);
    source := JoinPath(source, profile + ".json");
    rel := "preflight" + "/" + "release-inputs" + "/" + profile + ".json";
  }

  /** The files of the release and of the target. */
  method SlotPlaces(i: Inputs) returns (roles: string, retention: string, signing: string, ota: string, hardware: string, reproducibility: string)
    ensures roles == RoleBindingsSource(i) && retention == RetentionSource(i) && signing == SigningSource(i)
    ensures ota == OtaSource(i) && hardware == HardwareSource(i) && reproducibility == ReproducibilitySource(i)
  {
    hide Under;
    roles := JoinPath("release-governance", i.version);
    roles := roles + "/" + "role-bindings.json";
    retention := JoinPath("release-retention", i.version);
    retention := retention + "/" + "retention-manifest.json";
    signing := JoinPath("release-signing", i.version);
    signing := JoinPath(signing, i.target);
    signing := signing + "/" + "signing-manifest.json";
    ota := JoinPath("release-ota", i.version);
    ota := JoinPath(ota, i.target);
    ota := ota + "/" + "ota-artifacts.json";
    hardware := JoinPath("release-lab-input", i.version);
    hardware := JoinPath(hardware, i.target);
    hardware := hardware + "/" + "hardware-subject.json";
    reproducibility := JoinPath("release-reproducibility", i.version);
    reproducibility := JoinPath(reproducibility, i.target + ".json");
  }

  method ReportPlace(i: Inputs, scan: string) returns (source: string, rel: string)
    ensures source == ReportSource(i, scan) && rel == ReportCopy(scan)
  {
    hide Under, PosixPath.Name;
    source := JoinPath("release-security", i.version);
    source := JoinPath(source, scan + ".json");
    rel := "preflight/security/" + PosixPath.Name(scan + ".json");
  }

  method SuitePlace(i: Inputs, suite: string) returns (source: string, rel: string)
    ensures source == SuiteSource(i, suite) && rel == SuiteCopy(suite)
  {
    hide Under;
    source := JoinPath("release-runtime", i.version);
    source := JoinPath(source, suite);
    source := source + "/" + "production-runtime.json";
    rel := JoinPath("preflight/runtime", suite);
    rel := rel + "/production-runtime.json";
  }

  /** Does the report carry the schema of the release's security reports? */
  method IsOwnReport(i: Inputs, scan: string) returns (own: bool)
    ensures own <==> IsImageReport(i, scan)
  {
    hide FileAt, AttestationRecord.ReadJson, Json.TextAt, Under;
    var source, _ := ReportPlace(i, scan);
    var file := FileAt(i.root, source);
    own := false;
    if file.Some? && |file.value| > 0 {
      var payload := AttestationRecord.ReadJson(file.value);
      own := payload.Some? && Json.TextAt(payload.value, "schema_version") == Some("suderra.release-security-report.v2");
    }
  }

  class Bundle {
    var files: Tree
    var evidence: FinalEvidence

    constructor (files: Tree, evidence: FinalEvidence)
      ensures this.files == files && this.evidence == evidence
    {
      this.files, this.evidence := files, evidence;
    }

    /** `preserved_ref`: the copy in the bundle is what gets measured. */
    method Preserve(bytes: Bytes, rel: string, sha: Bytes -> string) returns (ref: Ref)
      modifies this`files
      ensures files == old(files)[PosixPath.AsPosix(rel) := bytes]
      ensures ref == RefOf(rel, bytes, sha)
    {
      files := files[PosixPath.AsPosix(rel) := bytes];
      var copy := files[PosixPath.AsPosix(rel)];
      ref := Ref(rel, Measurement(Some(sha(copy)), Some(|copy|)));
    }

    method FillSlot(i: Inputs, before: Option<Ref>, source: string, rel: string) returns (slot: Option<Ref>)
      modifies this`files
      ensures files == Laid(old(files), CopyOf(i, source, rel))
      ensures slot == Slot(before, i, source, rel)
    {
      hide FileAt, PosixPath.AsPosix;
      slot := before;
      var file := FileAt(i.root, source);
      if file.Some? && |file.value| > 0 {
        LaidOne(files, Copy(rel, file.value));
        var ref := Preserve(file.value, rel, i.sha);
        slot := Some(ref);
      }
    }

    method MakeEntry(i: Inputs, tag: string, source: string, rel: string) returns (entry: seq<Listed>)
      modifies this`files
      ensures files == Laid(old(files), CopyOf(i, source, rel))
      ensures entry == Entry(i, tag, source, rel)
    {
      hide FileAt, PosixPath.AsPosix;
      entry := [];
      var file := FileAt(i.root, source);
      if file.Some? && |file.value| > 0 {
        LaidOne(files, Copy(rel, file.value));
        var ref := Preserve(file.value, rel, i.sha);
        entry := [Listed(tag, ref)];
      }
    }

    method ApplySlots(i: Inputs)
      modifies this
      ensures files == Laid(old(files), SlotCopies(i))
      ensures var e := old(evidence); var after := Applied(e, i);
              evidence == after.(securityReports := e.securityReports, scannerReports := e.scannerReports,
                                 imageScanReports := e.imageScanReports, runtimeSuites := e.runtimeSuites)
    {
      hide Slot, Entry, CopyOf, BindingSource, RoleBindingsSource, RetentionSource, SigningSource, OtaSource,
           HardwareSource, ReproducibilitySource, BindingCopy, Laid;
      var e := evidence;
      LaidSeven(files, CopyOf(i, BindingSource(i), BindingCopy(i)), CopyOf(i, RoleBindingsSource(i), ROLE_BINDINGS_COPY),
                CopyOf(i, RetentionSource(i), RETENTION_COPY), CopyOf(i, SigningSource(i), SIGNING_COPY),
                CopyOf(i, OtaSource(i), OTA_COPY), CopyOf(i, HardwareSource(i), HARDWARE_COPY),
                CopyOf(i, ReproducibilitySource(i), REPRODUCIBILITY_COPY));
      var from, to := BindingPlace(i);
      var rolesAt, retentionAt, signingAt, otaAt, hardwareAt, reproducibilityAt := SlotPlaces(i);
      var binding := FillSlot(i, e.releaseInput, from, to);
      var roles := FillSlot(i, e.roleBindings, rolesAt, ROLE_BINDINGS_COPY);
      var retention := FillSlot(i, e.retention, retentionAt, RETENTION_COPY);
      var signing := MakeEntry(i, i.target, signingAt, SIGNING_COPY);
      var ota := MakeEntry(i, i.target, otaAt, OTA_COPY);
      var hardware := MakeEntry(i, i.target, hardwareAt, HARDWARE_COPY);
      var reproducibility := FillSlot(i, e.reproducibility, reproducibilityAt, REPRODUCIBILITY_COPY);
      evidence := e.(releaseInput := binding, roleBindings := roles, retention := retention,
        signingManifests := e.signingManifests + signing, otaArtifacts := e.otaArtifacts + ota,
        hardwareSubjects := e.hardwareSubjects + hardware, reproducibility := reproducibility);
    }

    method ApplyReports(i: Inputs)
      modifies this
      ensures files == Laid(old(files), ReportCopies(i, old(evidence).scans))
      ensures var e := old(evidence); evidence == WithReports(e, i, e.scans)
    {
      hide Entry, CopyOf, ReportSource, ReportCopy, IsImageReport, Laid;
      var e := evidence;
      LaidOne(files, Copy("", []));
      for k := 0 to |e.scans|
        invariant files == Laid(old(files), ReportCopies(i, e.scans[..k]))
        invariant evidence == WithReports(e, i, e.scans[..k])
      {
        assert e.scans[..k + 1][..k] == e.scans[..k];
        var scan := e.scans[k];
        ghost var before := ReportEntries(i, e.scans[..k]);
        ghost var all := SecurityEntries(i, e.scans[..k]);
        LaidConcat(old(files), ReportCopies(i, e.scans[..k]), CopyOf(i, ReportSource(i, scan), ReportCopy(scan)));
        var from, to := ReportPlace(i, scan);
        var entry := MakeEntry(i, scan, from, to);
        assert e.securityReports + all + entry == e.securityReports + (all + entry);
        assert e.scannerReports + before + entry == e.scannerReports + (before + entry);
        assert e.imageScanReports + before + entry == e.imageScanReports + (before + entry);
        evidence := evidence.(securityReports := evidence.securityReports + entry);
        var own := IsOwnReport(i, scan);
        if own {
          evidence := evidence.(scannerReports := evidence.scannerReports + entry, imageScanReports := evidence.imageScanReports + entry);
        }
      }
      assert e.scans[..|e.scans|] == e.scans;
    }

    method ApplySuites(i: Inputs)
      modifies this
      ensures files == Laid(old(files), SuiteCopies(i, i.suites))
      ensures var e := old(evidence); evidence == e.(runtimeSuites := e.runtimeSuites + SuiteEntries(i, i.suites))
    {
      hide Entry, CopyOf, SuiteSource, SuiteCopy, Laid;
      var e := evidence;
      LaidOne(files, Copy("", []));
      for k := 0 to |i.suites|
        invariant files == Laid(old(files), SuiteCopies(i, i.suites[..k]))
        invariant evidence == e.(runtimeSuites := e.runtimeSuites + SuiteEntries(i, i.suites[..k]))
      {
        assert i.suites[..k + 1][..k] == i.suites[..k];
        var suite := i.suites[k];
        ghost var before := SuiteEntries(i, i.suites[..k]);
        LaidConcat(old(files), SuiteCopies(i, i.suites[..k]), CopyOf(i, SuiteSource(i, suite), SuiteCopy(suite)));
        var from, to := SuitePlace(i, suite);
        var entry := MakeEntry(i, suite, from, to);
        assert e.runtimeSuites + before + entry == e.runtimeSuites + (before + entry);
        evidence := evidence.(runtimeSuites := evidence.runtimeSuites + entry);
      }
      assert i.suites[..|i.suites|] == i.suites;
    }

    /** `apply_release_inputs` */
    method ApplyReleaseInputs(i: Inputs)
      modifies this
      ensures evidence == Applied(old(evidence), i)
      ensures files == Laid(old(files), Copies(old(evidence), i))
    {
      hide Slot, Entry, SlotCopies, ReportCopies, SuiteCopies, ReportEntries, SecurityEntries, SuiteEntries, Laid;
      var e := evidence;
      LaidConcat(files, SlotCopies(i), ReportCopies(i, e.scans));
      LaidConcat(files, SlotCopies(i) + ReportCopies(i, e.scans), SuiteCopies(i, i.suites));
      ApplySlots(i);
      ApplyReports(i);
      ApplySuites(i);
    }
  }

  // ---------------------------------------------------------------- references for the closure

  datatype GraphRef = GraphRef(role: string, target: string, sha256: string, bytes: int)

  /** `append_graph_ref`: only a well-formed digest with a positive size makes a reference. */
  function RefItem(role: string, target: string, m: Measurement): seq<GraphRef> {
    if m.sha256.Some? && IsSha256(m.sha256.value) && m.bytes.Some? && m.bytes.value > 0
    then [GraphRef(role, target, m.sha256.value, m.bytes.value)] else []
  }

  function SlotItem(role: string, target: string, slot: Option<Ref>): seq<GraphRef> {
    if slot.Some? then RefItem(role, target, slot.value.measured) else []
  }

  /** The references of a list; `own` tells whether an entry's tag is its target. */
  function ListItems(role: string, target: string, own: bool, entries: seq<Listed>): seq<GraphRef> {
    if entries == [] then []
    else
      var last := entries[|entries| - 1];
      ListItems(role, target, own, entries[..|entries| - 1]) + RefItem(role, if own then last.tag else target, last.ref.measured)
  }

  function FinalRefs(e: FinalEvidence): seq<GraphRef> {
    SlotItem("release-input-binding", e.target, e.releaseInput)
    + SlotItem("reproducibility", e.target, e.reproducibility)
    + SlotItem("retention-manifest", e.target, e.retention)
    + SlotItem("governance-role-bindings", e.target, e.roleBindings)
    + ListItems("compressed-release-artifact", e.target, false, e.artifacts)
    + ListItems("signing-manifest", e.target, true, e.signingManifests)
    + ListItems("hardware-subject", e.target, true, e.hardwareSubjects)
    + ListItems("ota-artifacts", e.target, true, e.otaArtifacts)
    + ListItems("runtime-suite", e.target, false, e.runtimeSuites)
    + ListItems("scanner-native-report", e.target, false, e.scannerReports)
    + ListItems("scanner-native-report", e.target, false, e.imageScanReports)
    + SlotItem("station-registry", e.target, e.stationRegistry)
    + SlotItem("governance-snapshot", e.target, e.policyValidation)
  }

  /** `append_graph_ref` */
  method AppendRef(refs: seq<GraphRef>, role: string, target: string, ref: Option<Ref>) returns (r: seq<GraphRef>)
    ensures r == refs + SlotItem(role, target, ref)
  {
    hide IsSha256;
    r := refs;
    if ref.None? || ref.value.measured.sha256.None? || !IsSha256(ref.value.measured.sha256.value) {
      return;
    }
    var bytes := ref.value.measured.bytes;
    if bytes.None? || bytes.value <= 0 {
      return;
    }
    r := refs + [GraphRef(role, target, ref.value.measured.sha256.value, bytes.value)];
  }

  method AppendRefs(role: string, target: string, own: bool, entries: seq<Listed>) returns (refs: seq<GraphRef>)
    ensures refs == ListItems(role, target, own, entries)
  {
    refs := [];
    for k := 0 to |entries|
      invariant refs == ListItems(role, target, own, entries[..k])
    {
      assert entries[..k + 1][..k] == entries[..k];
      refs := AppendRef(refs, role, if own then entries[k].tag else target, Some(entries[k].ref));
    }
    assert entries[..|entries|] == entries;
  }

  method FinalEvidenceGraphRefs(e: FinalEvidence) returns (refs: seq<GraphRef>)
    ensures refs == FinalRefs(e)
  {
    hide SlotItem, ListItems;
    refs := AppendRef([], "release-input-binding", e.target, e.releaseInput);
    refs := AppendRef(refs, "reproducibility", e.target, e.reproducibility);
    refs := AppendRef(refs, "retention-manifest", e.target, e.retention);
    refs := AppendRef(refs, "governance-role-bindings", e.target, e.roleBindings);
    var more := AppendRefs("compressed-release-artifact", e.target, false, e.artifacts);
    refs := refs + more;
    more := AppendRefs("signing-manifest", e.target, true, e.signingManifests);
    refs := refs + more;
    more := AppendRefs("hardware-subject", e.target, true, e.hardwareSubjects);
    refs := refs + more;
    more := AppendRefs("ota-artifacts", e.target, true, e.otaArtifacts);
    refs := refs + more;
    more := AppendRefs("runtime-suite", e.target, false, e.runtimeSuites);
    refs := refs + more;
    more := AppendRefs("scanner-native-report", e.target, false, e.scannerReports);
    refs := refs + more;
    more := AppendRefs("scanner-native-report", e.target, false, e.imageScanReports);
    refs := refs + more;
    refs := AppendRef(refs, "station-registry", e.target, e.stationRegistry);
    refs := AppendRef(refs, "governance-snapshot", e.target, e.policyValidation);
  }

  // ---------------------------------------------------------------- the closure check

  function RequiredNodes(nodes: seq<Node>, subjectId: string): seq<Node> {
    if nodes == [] then []
    else RequiredNodes(nodes[..|nodes| - 1], subjectId)
         + (var n := nodes[|nodes| - 1]; if n.required && n.subjectId == subjectId then [n] else [])
  }

  /** `evidence_artifact_sha256s` */
  predicate IsArtifactDigest(e: FinalEvidence, sha256: string) {
    IsSha256(sha256) && exists k :: 0 <= k < |e.artifacts| && e.artifacts[k].ref.measured.sha256 == Some(sha256)
  }

  predicate Matched(refs: seq<GraphRef>, role: string, sha256: string, bytes: int) {
    exists k :: 0 <= k < |refs| && refs[k].role == role && refs[k].sha256 == sha256 && refs[k].bytes == bytes
  }

  /** The bundle still holds what the node names. */
  predicate NodeCloses(e: FinalEvidence, refs: seq<GraphRef>, n: Node) {
    || n.role == "raw-image"
    || (n.role == "compressed-release-artifact" && n.measured.sha256.Some? && IsArtifactDigest(e, n.measured.sha256.value))
    || (Strip(n.role) != [] && n.measured.sha256.Some? && IsRealSha256(n.measured.sha256.value)
        && n.measured.bytes.Some? && n.measured.bytes.value > 0
        && Matched(refs, n.role, n.measured.sha256.value, n.measured.bytes.value))
  }

  predicate Closed(e: FinalEvidence, graph: Graph, subjectId: string) {
    var nodes := RequiredNodes(graph.nodes, subjectId);
    nodes != [] && forall k :: 0 <= k < |nodes| ==> NodeCloses(e, FinalRefs(e), nodes[k])
  }

  /** `graph_required_evidence_nodes` */
  method RequiredOf(nodes: seq<Node>, subjectId: string) returns (required: seq<Node>)
    ensures required == RequiredNodes(nodes, subjectId)
  {
    required := [];
    for k := 0 to |nodes|
      invariant required == RequiredNodes(nodes[..k], subjectId)
    {
      assert nodes[..k + 1][..k] == nodes[..k];
      if nodes[k].subjectId == subjectId && nodes[k].required {
        required := required + [nodes[k]];
      }
    }
    assert nodes[..|nodes|] == nodes;
  }

  method ListsDigest(artifacts: seq<Listed>, sha256: string) returns (listed: bool)
    ensures listed <==> exists k :: 0 <= k < |artifacts| && artifacts[k].ref.measured.sha256 == Some(sha256)
  {
    for k := 0 to |artifacts|
      invariant forall j :: 0 <= j < k ==> artifacts[j].ref.measured.sha256 != Some(sha256)
    {
      if artifacts[k].ref.measured.sha256 == Some(sha256) {
        return true;
      }
    }
    listed := false;
  }

  /** One node of the closure loop. */
  method CheckNode(v: Validation, e: FinalEvidence, refs: seq<GraphRef>, n: Node, at: string)
    modifies v
    ensures NodeCloses(e, refs, n) ==> v.errors == old(v.errors)
    ensures !NodeCloses(e, refs, n) ==> |v.errors| == |old(v.errors)| + 1 && old(v.errors) <= v.errors
  {
    hide Matched, IsSha256, IsRealSha256, Strip;
    if n.role == "raw-image" {
      return;
    }
    if n.role == "compressed-release-artifact" && n.measured.sha256.Some? {
      var listed := ListsDigest(e.artifacts, n.measured.sha256.value);
      if listed && IsSha256(n.measured.sha256.value) {
        return;
      }
    }
    if Strip(n.role) == [] {
      v.Error(at + ".role", "must be a non-placeholder string");
    } else if n.measured.sha256.None? || !IsRealSha256(n.measured.sha256.value) {
      v.Error(at + ".sha256", "must be preserved for final closure");
    } else if n.measured.bytes.None? || n.measured.bytes.value <= 0 {
      v.Error(at + ".bytes", "must be preserved for final closure");
    } else if !Matched(refs, n.role, n.measured.sha256.value, n.measured.bytes.value) {
      v.Error(at, "required graph node is not preserved in final evidence: " + n.role + " " + n.path);
    }
  }

  /** `validate_subject_graph_closure`: errors are added exactly if some required node does not close. */
  method ValidateSubjectGraphClosure(v: Validation, e: FinalEvidence, graph: Graph, subjectId: string)
    modifies v
    ensures old(v.errors) <= v.errors
    ensures v.errors == old(v.errors) <==> Closed(e, graph, subjectId)
  {
    hide NodeCloses, FinalRefs, RequiredNodes;
    var nodes := RequiredOf(graph.nodes, subjectId);
    if nodes == [] {
      v.Error("$.subject_graph.evidence_nodes", "must include required evidence closure nodes");
      return;
    }
    var refs := FinalEvidenceGraphRefs(e);
    for k := 0 to |nodes|
      invariant old(v.errors) <= v.errors
      invariant v.errors == old(v.errors) <==> forall j :: 0 <= j < k ==> NodeCloses(e, refs, nodes[j])
    {
      CheckNode(v, e, refs, nodes[k], "$.subject_graph.evidence_nodes[" + Decimal(k) + "]");
    }
  }
}
