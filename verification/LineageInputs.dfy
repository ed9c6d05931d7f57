/** What a release operator can check of the inputs beforehand, and exactly when the lineage round trip then succeeds. */
module LineageInputs {
  import opened PyText
  import opened Hashing
  import opened EvidenceGraph
  import opened SubjectGraph
  import opened GraphReplay
  import opened LineageRoundTrip
  import opened LineageProducer
  import PosixPath

  // ---------------------------------------------------------------- conditions

  /** One path component that is neither `.` nor `..`. */
  predicate IsPlain(s: string) {
    PosixPath.IsPart(s) && s != ".."
  }

  predicate GoodMeasurement(m: Measurement) {
    (m.sha256.Some? && m.sha256.value != [] ==> IsRealSha256(m.sha256.value)) && (m.bytes.Some? ==> m.bytes.value > 0)
  }

  predicate GoodBound(b: Bound) {
    RelativePath(b.path).Some? ==> !IsPlaceholder(RelativePath(b.path).value) && GoodMeasurement(Measurement(b.sha256, b.bytes))
  }

  predicate NonEmptyFiles(tree: Tree) {
    forall path :: path in tree ==> tree[path] != []
  }

  /** The truncated digests of the node ids of one row do not collide. */
  predicate NoCollision(input: Input, row: Row)
    requires Covered(input, row)
  {
    var id := IdOf(input, row.target.value);
    var specs := Specs(input, row);
    forall i, j :: 0 <= i < j < |specs| && Preimage(id, specs[i]) != Preimage(id, specs[j]) ==>
      input.shortSha(Preimage(id, specs[i])) != input.shortSha(Preimage(id, specs[j]))
  }

  function Preimage(id: string, s: Spec): string {
    id + "|" + s.role + "|" + s.path
  }

  ghost predicate PlainInput(input: Input) {
    && IsPlain(input.binding.version) && PosixPath.Slashless(input.binding.profile)
    && (forall i :: 0 <= i < |input.rows| && Covered(input, input.rows[i]) ==>
          IsPlain(input.rows[i].target.value) && NoCollision(input, input.rows[i]))
    && (forall i :: 0 <= i < |input.binding.artifacts| ==> GoodBound(input.binding.artifacts[i]))
    && (input.tree.Some? ==> NonEmptyFiles(input.tree.value)) && IsDigest(input.sha)
  }

  /** Paths without `..` that stay apart once they are normalised. */
  predicate Apart(paths: seq<string>) {
    && (forall i :: 0 <= i < |paths| ==> ".." !in PosixPath.Parts(paths[i]))
    && forall i, j :: 0 <= i < j < |paths| ==> PosixPath.AsPosix(paths[i]) != PosixPath.AsPosix(paths[j])
  }

  function SuitePaths(input: Input, suites: seq<string>): (r: seq<string>)
    ensures |r| == |suites| && forall i :: 0 <= i < |r| ==> r[i] == RuntimePath(input, suites[i])
  {
    seq(|suites|, i requires 0 <= i < |suites| => RuntimePath(input, suites[i]))
  }

  function ReportPaths(input: Input, scans: seq<string>): (r: seq<string>)
    ensures |r| == |scans| && forall i :: 0 <= i < |r| ==> r[i] == ScanPath(input, scans[i])
  {
    seq(|scans|, i requires 0 <= i < |scans| => ScanPath(input, scans[i]))
  }

  /** The runtime reports of the row's suites stay apart, and so do its scan reports where the policy asks for them. */
  predicate PathsApart(input: Input, row: Row)
    requires Covered(input, row)
  {
    && Apart(SuitePaths(input, SuitesFor(input.contract, row.target.value)))
    && (input.contract.policies[row.target.value].scanRequired ==> Apart(ReportPaths(input, input.scans)))
  }

  // ---------------------------------------------------------------- paths

  predicate PlainParts(parts: seq<string>) {
    parts != [] && forall i :: 0 <= i < |parts| ==> IsPlain(parts[i])
  }

  /** A path joined from plain components, the first of which starts with `r`, is safe and its own normal form. */
  lemma JoinedIsSafe(parts: seq<string>)
    requires PlainParts(parts) && parts[0][0] == 'r'
    ensures SafePath(PosixPath.Join(parts)) == Some(PosixPath.Join(parts))
    ensures PosixPath.Parts(PosixPath.Join(parts)) == parts
  {
    var path := PosixPath.Join(parts);
    PosixPath.PartsOfJoin(parts);
    assert path[0] == 'r';
    StripStartsWith(path);
    assert ".." !in parts;
  }

  lemma StripStartsWith(s: string)
    requires s != [] && !IsSpace(s[0])
    ensures Strip(s) != [] && Strip(s)[0] == s[0]
  {
    TrimRightShape(s);
    if TrimRight(s) == [] {
      assert false;
    }
  }

  lemma JsonIsPlain(stem: string)
    requires PosixPath.Slashless(stem)
    ensures IsPlain(stem + ".json")
  {
    var s := stem + ".json";
    assert s[|s| - 1] == 'n';
  }

  /** `root/version/file` */
  lemma SafeThree(root: string, version: string, file: string)
    requires IsPlain(root) && root[0] == 'r' && IsPlain(version) && IsPlain(file)
    ensures var path := root + "/" + version + "/" + file;
            SafePath(path) == Some(path) && PosixPath.Parts(path) == [root, version, file]
  {
    PosixPath.JoinThree(root, version, file);
    JoinedIsSafe([root, version, file]);
  }

  /** `root/version/middle/file` */
  lemma SafeFour(root: string, version: string, middle: string, file: string)
    requires IsPlain(root) && root[0] == 'r' && IsPlain(version) && IsPlain(middle) && IsPlain(file)
    ensures var path := root + "/" + version + "/" + middle + "/" + file;
            SafePath(path) == Some(path) && PosixPath.Parts(path) == [root, version, middle, file]
  {
    PosixPath.JoinFour(root, version, middle, file);
    JoinedIsSafe([root, version, middle, file]);
  }

  // ---------------------------------------------------------------- blocks of specs

  /** The place of a role in the order in which one subject's evidence is appended. */
  function Rank(role: string): nat {
    if role == "release-input-binding" then 1
    else if role == "raw-image" then 2
    else if role == "compressed-release-artifact" then 3
    else if role == "runtime-suite" then 4
    else if role == "signing-manifest" then 5
    else if role == "hardware-subject" then 6
    else if role == "station-registry" then 7
    else if role == "scanner-native-report" then 8
    else if role == "ota-artifacts" then 9
    else if role == "governance-role-bindings" then 10
    else if role == "governance-snapshot" then 11
    else if role == "reproducibility" then 12
    else if role == "retention-manifest" then 13
    else 0
  }

  /** No role contains the bar that separates the parts of a node id's preimage. */
  predicate IsRole(role: string) {
    role != [] && '|' !in role
  }

  lemma Ranks()
    ensures Rank("release-input-binding") == 1 && Rank("raw-image") == 2 && Rank("compressed-release-artifact") == 3
    ensures Rank("runtime-suite") == 4 && Rank("signing-manifest") == 5 && Rank("hardware-subject") == 6
    ensures Rank("station-registry") == 7 && Rank("scanner-native-report") == 8 && Rank("ota-artifacts") == 9
    ensures Rank("governance-role-bindings") == 10 && Rank("governance-snapshot") == 11 && Rank("reproducibility") == 12
    ensures Rank("retention-manifest") == 13
  {
  }

  lemma BuildRoles()
    ensures IsRole("release-input-binding") && IsRole("raw-image") && IsRole("compressed-release-artifact")
  {
  }

  lemma DeviceRoles()
    ensures IsRole("runtime-suite") && IsRole("signing-manifest") && IsRole("hardware-subject")
  {
  }

  lemma StationRoles()
    ensures IsRole("station-registry") && IsRole("scanner-native-report") && IsRole("ota-artifacts")
  {
  }

  lemma GovernanceRoles()
    ensures IsRole("governance-role-bindings") && IsRole("governance-snapshot")
  {
  }

  lemma ClosingRoles()
    ensures IsRole("reproducibility") && IsRole("retention-manifest")
  {
  }

  predicate GoodSpec(s: Spec) {
    IsRole(s.role) && SafePath(s.path).Some? && GoodMeasurement(s.measured)
  }

  predicate ApartSpecs(s: Spec, t: Spec) {
    s.role != t.role || PosixPath.AsPosix(s.path) != PosixPath.AsPosix(t.path)
  }

  /** Good specs with ranks between the bounds, no role and normal path twice. */
  predicate Block(specs: seq<Spec>, low: nat, high: nat) {
    && 0 < low
    && (forall i :: 0 <= i < |specs| ==> GoodSpec(specs[i]) && low <= Rank(specs[i].role) < high)
    && forall i, j :: 0 <= i < j < |specs| ==> ApartSpecs(specs[i], specs[j])
  }

  lemma BlockConcat(a: seq<Spec>, b: seq<Spec>, low: nat, middle: nat, high: nat)
    requires Block(a, low, middle) && Block(b, middle, high) && low <= middle <= high
    ensures Block(a + b, low, high)
  {
    hide Rank, GoodSpec, PosixPath.AsPosix;
    var all := a + b;
    forall i | 0 <= i < |all|
      ensures GoodSpec(all[i]) && low <= Rank(all[i].role) < high
    {
      assert all[i] == if i < |a| then a[i] else b[i - |a|];
    }
    forall i, j | 0 <= i < j < |all|
      ensures ApartSpecs(all[i], all[j])
    {
      if i < |a| && j >= |a| {
        assert all[i] == a[i] && all[j] == b[j - |a|];
      } else if j < |a| {
        assert all[i] == a[i] && all[j] == a[j];
      } else {
        assert all[i] == b[i - |a|] && all[j] == b[j - |a|];
      }
    }
  }

  lemma SingleBlock(s: Spec, low: nat, high: nat)
    requires GoodSpec(s) && 0 < low <= Rank(s.role) < high
    ensures Block([s], low, high)
  {
  }

  lemma ConsBlock(s: Spec, rest: seq<Spec>, low: nat, high: nat)
    requires GoodSpec(s) && 0 < low <= Rank(s.role) < high && Block(rest, low, high)
    requires forall i :: 0 <= i < |rest| ==> ApartSpecs(s, rest[i])
    ensures Block([s] + rest, low, high)
  {
    hide Rank, GoodSpec, ApartSpecs;
    var all := [s] + rest;
    assert forall i :: 1 <= i < |all| ==> all[i] == rest[i - 1];
  }

  lemma EmptyBlock(low: nat, high: nat)
    requires 0 < low
    ensures Block([], low, high)
  {
  }

  lemma MeasuredFileIsGood(input: Input, path: string)
    requires PlainInput(input)
    ensures GoodMeasurement(MeasureFile(input.tree, path, input.sha))
  {
    hide PosixPath.AsPosix, PosixPath.Parts, NoCollision, IsRealSha256, GoodBound, IsPlain;
    if input.tree.Some? {
      var key := PosixPath.AsPosix(path);
      if key in input.tree.value {
        assert IsRealSha256(input.sha(input.tree.value[key]));
        assert NonEmptyFiles(input.tree.value);
      }
    }
  }

  lemma VersionIsPlain(input: Input)
    requires PlainInput(input)
    ensures IsPlain(input.binding.version) && PosixPath.Slashless(input.binding.profile)
  {
  }

  lemma BindingBlock(input: Input)
    requires PlainInput(input)
    ensures Block([BindingSpec(input)], 1, 2)
  {
    VersionIsPlain(input);
    JsonIsPlain(input.binding.profile);
    InputWords();
    BuildRoles();
    Ranks();
    hide PlainInput, SafePath, MeasureFile, IsPlain, IsRole, Rank, PosixPath.Slashless;
    SafeThree("release-inputs", input.binding.version, input.binding.profile + ".json");
    MeasuredFileIsGood(input, BindingPath(input));
    SingleBlock(BindingSpec(input), 1, 2);
  }

  lemma InputWords()
    ensures IsPlain("release-inputs")
  {
  }

  lemma {:induction false} RefIsBound(artifacts: seq<Bound>, target: string, name: string)
    ensures ArtifactRef(artifacts, target, name).Some? ==>
              exists i :: 0 <= i < |artifacts| && artifacts[i] == ArtifactRef(artifacts, target, name).value
  {
    if artifacts != [] {
      if artifacts[0].target == target && artifacts[0].artifact == name {
        assert artifacts[0] == ArtifactRef(artifacts, target, name).value;
      } else {
        RefIsBound(artifacts[1..], target, name);
        if ArtifactRef(artifacts, target, name).Some? {
          var i :| 0 <= i < |artifacts[1..]| && artifacts[1..][i] == ArtifactRef(artifacts[1..], target, name).value;
          assert artifacts[i + 1] == artifacts[1..][i];
        }
      }
    }
  }

  lemma RelativePathIsNormal(path: Option<string>)
    requires RelativePath(path).Some?
    ensures var p := RelativePath(path).value;
            PosixPath.AsPosix(p) == p && !("/" <= p) && ".." !in PosixPath.Parts(p)
  {
    var raw := path.value;
    var p := PosixPath.AsPosix(raw);
    PosixPath.AsPosixNormal(raw);
    var parts := PosixPath.Parts(raw);
    PosixPath.PartsAreParts([], raw);
    if parts != [] {
      assert PosixPath.IsPart(parts[0]);
      assert p[0] == parts[0][0];
      assert parts[0][0] in parts[0];
    }
  }

  lemma ArtifactBlock(input: Input, role: string, ref: Option<Bound>)
    requires PlainInput(input) && IsRole(role) && Rank(role) > 0
    requires ref.Some? ==> exists i :: 0 <= i < |input.binding.artifacts| && input.binding.artifacts[i] == ref.value
    ensures Block(ArtifactSpecs(input, role, ref), Rank(role), Rank(role) + 1)
  {
    if ref.Some? && RelativePath(ref.value.path).Some? {
      RefIsGood(input, ref.value);
      var p := RelativePath(ref.value.path).value;
      RelativePathIsNormal(ref.value.path);
      NormalIsSafe(p);
      hide PlainInput, SafePath, RelativePath, IsPlaceholder, Rank, IsRole;
      var s := Spec(role, p, "build_artifact", "sha256-digest", IsProduction(input),
                    Measurement(ref.value.sha256, ref.value.bytes), "ci/build-matrix.yml");
      assert ArtifactSpecs(input, role, ref) == [s];
      SingleBlock(s, Rank(role), Rank(role) + 1);
    } else {
      EmptyBlock(Rank(role), Rank(role) + 1);
    }
  }

  lemma RefIsGood(input: Input, b: Bound)
    requires PlainInput(input) && exists i :: 0 <= i < |input.binding.artifacts| && input.binding.artifacts[i] == b
    ensures GoodBound(b)
  {
    hide GoodBound, NoCollision, IsPlain;
  }

  lemma NormalIsSafe(p: string)
    requires PosixPath.AsPosix(p) == p && !("/" <= p) && ".." !in PosixPath.Parts(p) && !IsPlaceholder(p)
    ensures SafePath(p) == Some(p)
  {
    hide PosixPath.AsPosix, PosixPath.Parts;
  }

  /** A path below a directory of the release inputs is safe unless it climbs up. */
  lemma SafeUnlessUp(path: string)
    requires path != [] && path[0] == 'r'
    ensures SafePath(path) == if ".." in PosixPath.Parts(path) then None else Some(PosixPath.AsPosix(path))
  {
    StripStartsWith(path);
    hide Strip, PosixPath.Parts, PosixPath.AsPosix;
  }

  lemma {:induction false} RuntimeBlock(input: Input, policy: Policy, suites: seq<string>)
    requires PlainInput(input) && Apart(SuitePaths(input, suites))
    ensures Block(RuntimeSpecs(input, policy, suites), 4, 5)
  {
    hide PlainInput, FileSpec, GoodSpec, Block, Rank, RuntimePath, PosixPath.AsPosix, PosixPath.Parts;
    RuntimeSpecsAre(input, policy, suites);
    if suites == [] {
      EmptyBlock(4, 5);
    } else {
      var paths := SuitePaths(input, suites);
      var s, rest := RuntimeSpec(input, policy, suites[0]), RuntimeSpecs(input, policy, suites[1..]);
      assert SuitePaths(input, suites[1..]) == paths[1..];
      RuntimeBlock(input, policy, suites[1..]);
      RuntimeSpecsAre(input, policy, suites[1..]);
      RuntimeIsGood(input, policy, suites[0]);
      forall i | 0 <= i < |rest|
        ensures ApartSpecs(s, rest[i])
      {
        assert s.path == paths[0] && rest[i].path == paths[i + 1] by {
          RuntimeSpecPath(input, policy, suites[0]);
          RuntimeSpecPath(input, policy, suites[i + 1]);
        }
      }
      ConsBlock(s, rest, 4, 5);
    }
  }

  lemma RuntimeSpecPath(input: Input, policy: Policy, suite: string)
    ensures RuntimeSpec(input, policy, suite).path == RuntimePath(input, suite)
  {
  }

  lemma {:induction false} RuntimeSpecsAre(input: Input, policy: Policy, suites: seq<string>)
    ensures |RuntimeSpecs(input, policy, suites)| == |suites|
    ensures forall i :: 0 <= i < |suites| ==> RuntimeSpecs(input, policy, suites)[i] == RuntimeSpec(input, policy, suites[i])
  {
    hide RuntimeSpec;
    if suites != [] {
      RuntimeSpecsAre(input, policy, suites[1..]);
    }
  }

  lemma RuntimeIsGood(input: Input, policy: Policy, suite: string)
    requires PlainInput(input) && ".." !in PosixPath.Parts(RuntimePath(input, suite))
    ensures GoodSpec(RuntimeSpec(input, policy, suite)) && Rank(RuntimeSpec(input, policy, suite).role) == 4
  {
    DeviceRoles();
    Ranks();
    hide PlainInput, SafePath, MeasureFile, IsRole, Rank, PosixPath.Parts, PosixPath.AsPosix;
    SafeUnlessUp(RuntimePath(input, suite));
    MeasuredFileIsGood(input, RuntimePath(input, suite));
  }

  lemma {:induction false} ScanBlock(input: Input, scans: seq<string>)
    requires PlainInput(input) && Apart(ReportPaths(input, scans))
    ensures Block(ScanSpecs(input, scans), 8, 9)
  {
    hide PlainInput, FileSpec, GoodSpec, Block, Rank, ScanPath, PosixPath.AsPosix, PosixPath.Parts;
    ScanSpecsAre(input, scans);
    if scans == [] {
      EmptyBlock(8, 9);
    } else {
      var paths := ReportPaths(input, scans);
      var s, rest := ScanSpec(input, scans[0]), ScanSpecs(input, scans[1..]);
      assert ReportPaths(input, scans[1..]) == paths[1..];
      ScanBlock(input, scans[1..]);
      ScanSpecsAre(input, scans[1..]);
      ScanIsGood(input, scans[0]);
      forall i | 0 <= i < |rest|
        ensures ApartSpecs(s, rest[i])
      {
        assert s.path == paths[0] && rest[i].path == paths[i + 1] by {
          ScanSpecPath(input, scans[0]);
          ScanSpecPath(input, scans[i + 1]);
        }
      }
      ConsBlock(s, rest, 8, 9);
    }
  }

  lemma ScanSpecPath(input: Input, scan: string)
    ensures ScanSpec(input, scan).path == ScanPath(input, scan)
  {
  }

  lemma {:induction false} ScanSpecsAre(input: Input, scans: seq<string>)
    ensures |ScanSpecs(input, scans)| == |scans|
    ensures forall i :: 0 <= i < |scans| ==> ScanSpecs(input, scans)[i] == ScanSpec(input, scans[i])
  {
    hide ScanSpec;
    if scans != [] {
      ScanSpecsAre(input, scans[1..]);
    }
  }

  lemma ScanIsGood(input: Input, scan: string)
    requires PlainInput(input) && ".." !in PosixPath.Parts(ScanPath(input, scan))
    ensures GoodSpec(ScanSpec(input, scan)) && Rank(ScanSpec(input, scan).role) == 8
  {
    StationRoles();
    Ranks();
    hide PlainInput, SafePath, MeasureFile, IsRole, Rank, PosixPath.Parts, PosixPath.AsPosix;
    SafeUnlessUp(ScanPath(input, scan));
    MeasuredFileIsGood(input, ScanPath(input, scan));
  }

  /** A block of one file under `root/version/target/`. */
  lemma TargetFileBlock(input: Input, s: Spec, root: string, target: string, file: string)
    requires PlainInput(input) && IsPlain(target) && IsPlain(root) && root[0] == 'r' && IsPlain(file)
    requires IsRole(s.role) && Rank(s.role) > 0
    requires s.path == root + "/" + input.binding.version + "/" + target + "/" + file
    requires s.measured == MeasureFile(input.tree, s.path, input.sha)
    ensures Block([s], Rank(s.role), Rank(s.role) + 1)
  {
    VersionIsPlain(input);
    hide PlainInput, SafePath, MeasureFile, Rank, IsPlain, IsRole;
    SafeFour(root, input.binding.version, target, file);
    MeasuredFileIsGood(input, s.path);
    SingleBlock(s, Rank(s.role), Rank(s.role) + 1);
  }

  /** A block of one file under `root/version/`. */
  lemma VersionFileBlock(input: Input, s: Spec, root: string, file: string)
    requires PlainInput(input) && IsPlain(root) && root[0] == 'r' && IsPlain(file) && IsRole(s.role) && Rank(s.role) > 0
    requires s.path == root + "/" + input.binding.version + "/" + file
    requires s.measured == MeasureFile(input.tree, s.path, input.sha)
    ensures Block([s], Rank(s.role), Rank(s.role) + 1)
  {
    VersionIsPlain(input);
    hide PlainInput, SafePath, MeasureFile, Rank, IsPlain, IsRole;
    SafeThree(root, input.binding.version, file);
    MeasuredFileIsGood(input, s.path);
    SingleBlock(s, Rank(s.role), Rank(s.role) + 1);
  }

  lemma SigningWords()
    ensures IsPlain("release-signing") && IsPlain("signing-manifest.json")
  {
  }

  lemma SigningBlock(input: Input, target: string)
    requires PlainInput(input) && IsPlain(target)
    ensures Block(SigningSpecs(input, target), 5, 6)
  {
    SigningWords();
    DeviceRoles();
    Ranks();
    hide PlainInput, MeasureFile, Block, IsPlain, IsRole, Rank;
    TargetFileBlock(input, SigningSpecs(input, target)[0], "release-signing", target, "signing-manifest.json");
  }

  lemma HardwareWords()
    ensures IsPlain("release-lab-input") && IsPlain("hardware-subject.json")
  {
  }

  lemma RegistryWords()
    ensures IsPlain("release-governance") && IsPlain("station-registry.json")
  {
  }

  lemma HardwareBlock(input: Input, target: string)
    requires PlainInput(input) && IsPlain(target)
    ensures Block(HardwareSpecs(input, target), 6, 8)
  {
    HardwareWords();
    RegistryWords();
    DeviceRoles();
    StationRoles();
    Ranks();
    hide PlainInput, MeasureFile, Block, IsPlain, IsRole, Rank;
    var specs := HardwareSpecs(input, target);
    TargetFileBlock(input, specs[0], "release-lab-input", target, "hardware-subject.json");
    VersionFileBlock(input, specs[1], "release-governance", "station-registry.json");
    PairBlock(specs, 6, 7, 8);
  }

  lemma PairBlock(specs: seq<Spec>, low: nat, middle: nat, high: nat)
    requires |specs| == 2 && low <= middle <= high && Block([specs[0]], low, middle) && Block([specs[1]], middle, high)
    ensures Block(specs, low, high)
  {
    hide Block;
    BlockConcat([specs[0]], [specs[1]], low, middle, high);
    assert [specs[0]] + [specs[1]] == specs;
  }

  lemma OtaWords()
    ensures IsPlain("release-ota") && IsPlain("ota-artifacts.json")
  {
  }

  lemma OtaBlock(input: Input, target: string)
    requires PlainInput(input) && IsPlain(target)
    ensures Block(OtaSpecs(input, target), 9, 10)
  {
    OtaWords();
    StationRoles();
    Ranks();
    hide PlainInput, MeasureFile, Block, IsPlain, IsRole, Rank;
    TargetFileBlock(input, OtaSpecs(input, target)[0], "release-ota", target, "ota-artifacts.json");
  }

  lemma RetentionWords()
    ensures IsPlain("release-retention") && IsPlain("retention-manifest.json")
  {
  }

  lemma RetentionBlock(input: Input)
    requires PlainInput(input)
    ensures Block(RetentionSpecs(input), 13, 14)
  {
    RetentionWords();
    ClosingRoles();
    Ranks();
    hide PlainInput, MeasureFile, Block, IsPlain, IsRole, Rank;
    if IsProduction(input) {
      VersionFileBlock(input, RetentionSpecs(input)[0], "release-retention", "retention-manifest.json");
    } else {
      EmptyBlock(13, 14);
    }
  }

  lemma GovernanceWords()
    ensures IsPlain("release-governance") && IsPlain("role-bindings.json") && IsPlain("governance-policy-validation.json")
  {
  }

  lemma GovernanceBlock(input: Input, target: string)
    requires PlainInput(input)
    ensures Block(GateSpecs(input, target)[..2], 10, 12)
  {
    GovernanceWords();
    GovernanceRoles();
    Ranks();
    hide PlainInput, MeasureFile, Block, RetentionSpecs, IsPlain, IsRole, Rank;
    var specs := GateSpecs(input, target);
    VersionFileBlock(input, specs[0], "release-governance", "role-bindings.json");
    VersionFileBlock(input, specs[1], "release-governance", "governance-policy-validation.json");
    PairBlock(specs[..2], 10, 11, 12);
  }

  lemma ReproducibilityWords()
    ensures IsPlain("release-reproducibility")
  {
  }

  lemma ReproducibilityBlock(input: Input, target: string)
    requires PlainInput(input) && IsPlain(target)
    ensures Block([GateSpecs(input, target)[2]], 12, 13)
  {
    ReproducibilityWords();
    ClosingRoles();
    Ranks();
    PlainHasNoSlash(target);
    JsonIsPlain(target);
    hide PlainInput, MeasureFile, Block, RetentionSpecs, IsPlain, IsRole, Rank;
    VersionFileBlock(input, GateSpecs(input, target)[2], "release-reproducibility", target + ".json");
  }

  lemma GateBlock(input: Input, target: string)
    requires PlainInput(input) && IsPlain(target)
    ensures Block(GateSpecs(input, target), 10, 14)
  {
    hide PlainInput, FileSpec, Block, RetentionSpecs, IsPlain;
    var specs := GateSpecs(input, target);
    ReproducibilityBlock(input, target);
    GovernanceBlock(input, target);
    RetentionBlock(input);
    BlockConcat([specs[2]], RetentionSpecs(input), 12, 13, 14);
    BlockConcat(specs[..2], [specs[2]] + RetentionSpecs(input), 10, 12, 14);
    assert specs == specs[..2] + ([specs[2]] + RetentionSpecs(input));
  }

  lemma PlainHasNoSlash(s: string)
    requires IsPlain(s)
    ensures PosixPath.Slashless(s)
  {
  }

  // ---------------------------------------------------------------- one row

  lemma {:induction false} Optional(b: bool, specs: seq<Spec>, low: nat, high: nat)
    requires 0 < low && (b ==> Block(specs, low, high))
    ensures Block(if b then specs else [], low, high)
  {
  }

  lemma SpecsBlock(input: Input, row: Row)
    requires PlainInput(input) && Covered(input, row) && IsPlain(row.target.value) && PathsApart(input, row)
    ensures Block(Specs(input, row), 1, 14)
  {
    var target := row.target.value;
    var policy := input.contract.policies[target];
    var raw, compressed := RawRef(input, row, target), CompressedRef(input, row, target);
    RefsAreBound(input, row, target);
    BuildRoles();
    Ranks();
    hide PlainInput, Covered, IsPlain, IsRole, Rank, Block, Apart, SuitesFor, RawRef, CompressedRef, ArtifactSpecs,
         RuntimeSpecs, ScanSpecs, SigningSpecs, HardwareSpecs, OtaSpecs, GateSpecs, BindingSpec;
    BindingBlock(input);
    ArtifactBlock(input, "raw-image", raw);
    ArtifactBlock(input, "compressed-release-artifact", compressed);
    RuntimeBlock(input, policy, SuitesFor(input.contract, target));
    SigningBlock(input, target);
    HardwareBlock(input, target);
    if policy.scanRequired {
      ScanBlock(input, input.scans);
    }
    OtaBlock(input, target);
    GateBlock(input, target);
    Optional(policy.signingRequired, SigningSpecs(input, target), 5, 6);
    Optional(policy.hardwareRequired, HardwareSpecs(input, target), 6, 8);
    Optional(policy.scanRequired, ScanSpecs(input, input.scans), 8, 9);
    Optional(policy.otaCapable, OtaSpecs(input, target), 9, 10);
    Optional(policy.productionGate, GateSpecs(input, target), 10, 14);
    Chain([BindingSpec(input)], ArtifactSpecs(input, "raw-image", raw), ArtifactSpecs(input, "compressed-release-artifact", compressed),
          RuntimeSpecs(input, policy, SuitesFor(input.contract, target)),
          if policy.signingRequired then SigningSpecs(input, target) else [],
          if policy.hardwareRequired then HardwareSpecs(input, target) else [],
          if policy.scanRequired then ScanSpecs(input, input.scans) else [],
          if policy.otaCapable then OtaSpecs(input, target) else [],
          if policy.productionGate then GateSpecs(input, target) else []);
  }

  lemma RefsAreBound(input: Input, row: Row, target: string)
    ensures RawRef(input, row, target).Some? ==>
              exists i :: 0 <= i < |input.binding.artifacts| && input.binding.artifacts[i] == RawRef(input, row, target).value
    ensures CompressedRef(input, row, target).Some? ==>
              exists i :: 0 <= i < |input.binding.artifacts| && input.binding.artifacts[i] == CompressedRef(input, row, target).value
  {
    hide ArtifactRef;
    RefIsBound(input.binding.artifacts, target, Str(row.artifact));
    RefIsBound(input.binding.artifacts, target, Str(row.releaseArtifact));
    RefIsBound(input.binding.artifacts, target, Str(row.artifact) + ".xz");
  }

  lemma Chain(a: seq<Spec>, b: seq<Spec>, c: seq<Spec>, d: seq<Spec>, e: seq<Spec>, f: seq<Spec>, g: seq<Spec>, h: seq<Spec>, k: seq<Spec>)
    requires Block(a, 1, 2) && Block(b, 2, 3) && Block(c, 3, 4) && Block(d, 4, 5) && Block(e, 5, 6)
    requires Block(f, 6, 8) && Block(g, 8, 9) && Block(h, 9, 10) && Block(k, 10, 14)
    ensures Block(a + b + c + d + e + f + g + h + k, 1, 14)
  {
    hide Block;
    BlockConcat(a, b, 1, 2, 3);
    BlockConcat(a + b, c, 1, 3, 4);
    BlockConcat(a + b + c, d, 1, 4, 5);
    BlockConcat(a + b + c + d, e, 1, 5, 6);
    BlockConcat(a + b + c + d + e, f, 1, 6, 8);
    BlockConcat(a + b + c + d + e + f, g, 1, 8, 9);
    BlockConcat(a + b + c + d + e + f + g, h, 1, 9, 10);
    BlockConcat(a + b + c + d + e + f + g + h, k, 1, 10, 14);
  }

  lemma AnyBlock(a: seq<Spec>, b: seq<Spec>, c: seq<Spec>, d: seq<Spec>, f: seq<Spec>, g: seq<Spec>, h: seq<Spec>, k: seq<Spec>, l: seq<Spec>,
                 s: Spec)
    ensures s in a + b + c + d + f + g + h + k + l <==>
            s in a || s in b || s in c || s in d || s in f || s in g || s in h || s in k || s in l
  {
  }

  lemma Flagged(flag: bool, specs: seq<Spec>, s: Spec)
    ensures s in (if flag then specs else []) <==> flag && s in specs
  {
  }

  /** Membership in the row's specs, block by block. */
  lemma FlaggedBlocks(input: Input, row: Row, s: Spec)
    requires Covered(input, row)
    ensures var target := row.target.value; var policy := input.contract.policies[target];
            s in Specs(input, row) <==>
            || s == BindingSpec(input)
            || s in ArtifactSpecs(input, "raw-image", RawRef(input, row, target))
            || s in ArtifactSpecs(input, "compressed-release-artifact", CompressedRef(input, row, target))
            || s in RuntimeSpecs(input, policy, SuitesFor(input.contract, target))
            || (policy.signingRequired && s in SigningSpecs(input, target))
            || (policy.hardwareRequired && s in HardwareSpecs(input, target))
            || (policy.scanRequired && s in ScanSpecs(input, input.scans))
            || (policy.otaCapable && s in OtaSpecs(input, target))
            || (policy.productionGate && s in GateSpecs(input, target))
  {
    hide Covered, RuntimeSpecs, ScanSpecs, SigningSpecs, OtaSpecs, HardwareSpecs, GateSpecs, BindingSpec, ArtifactSpecs,
         RawRef, CompressedRef, SuitesFor;
    CoveredHasTarget(input, row);
    var target := row.target.value;
    var policy := input.contract.policies[target];
    Flagged(policy.signingRequired, SigningSpecs(input, target), s);
    Flagged(policy.hardwareRequired, HardwareSpecs(input, target), s);
    Flagged(policy.scanRequired, ScanSpecs(input, input.scans), s);
    Flagged(policy.otaCapable, OtaSpecs(input, target), s);
    Flagged(policy.productionGate, GateSpecs(input, target), s);
    AnyBlock([BindingSpec(input)], ArtifactSpecs(input, "raw-image", RawRef(input, row, target)),
             ArtifactSpecs(input, "compressed-release-artifact", CompressedRef(input, row, target)),
             RuntimeSpecs(input, policy, SuitesFor(input.contract, target)),
             if policy.signingRequired then SigningSpecs(input, target) else [],
             if policy.hardwareRequired then HardwareSpecs(input, target) else [],
             if policy.scanRequired then ScanSpecs(input, input.scans) else [],
             if policy.otaCapable then OtaSpecs(input, target) else [],
             if policy.productionGate then GateSpecs(input, target) else [], s);
  }

  // ---------------------------------------------------------------- preimages of node ids

  lemma PreimageReads(id: string, s: Spec)
    requires IsRole(s.role)
    ensures |id| < |Preimage(id, s)|
    ensures var r := Preimage(id, s)[|id| + 1..];
            var cut := Find(r, '|');
            cut < |r| && r[..cut] == s.role && r[cut + 1..] == s.path
  {
    var r := Preimage(id, s)[|id| + 1..];
    assert r == s.role + "|" + s.path;
    assert forall k :: 0 <= k < |s.role| ==> s.role[k] in s.role;
    FindAt(r, '|', |s.role|);
  }

  /** Role and path can be read off a node id's preimage, as no role of the graph contains a bar. */
  lemma PreimagesDiffer(id: string, s: Spec, t: Spec)
    requires IsRole(s.role) && IsRole(t.role)
    ensures Preimage(id, s) == Preimage(id, t) <==> s.role == t.role && s.path == t.path
  {
    hide Preimage, IsRole;
    PreimageReads(id, s);
    PreimageReads(id, t);
    if s.role == t.role && s.path == t.path {
      SamePreimage(id, s, t);
    }
  }

  lemma SamePreimage(id: string, s: Spec, t: Spec)
    requires s.role == t.role && s.path == t.path
    ensures Preimage(id, s) == Preimage(id, t)
  {
  }

  lemma CleanFromBlock(input: Input, row: Row)
    requires Covered(input, row) && NoCollision(input, row) && Block(Specs(input, row), 1, 14)
    requires IdOf(input, row.target.value) != []
    ensures CleanRow(input, row)
  {
    var id := IdOf(input, row.target.value);
    var specs := Specs(input, row);
    var nodes, edges := RowNodes(input, row), RowEdges(input, row);
    hide Covered, Specs, IdOf, NodesOf, EdgesOf;
    forall i | 0 <= i < |specs|
      ensures Canonical(nodes[i]).Some? && Canonical(nodes[i]).value.role == specs[i].role
      ensures Canonical(nodes[i]).value.path == PosixPath.AsPosix(specs[i].path)
      ensures GoodEdge(edges[i])
    {
      GoodSpecIsCanonical(input, id, row.target.value, specs[i]);
    }
    forall i, j | 0 <= i < j < |specs|
      ensures nodes[i].id != nodes[j].id && Canonical(nodes[i]) != Canonical(nodes[j]) && edges[i] != edges[j]
    {
      assert ApartSpecs(specs[i], specs[j]);
      PreimagesDiffer(id, specs[i], specs[j]);
      IdsDiffer(input, id, specs[i], specs[j]);
    }
    hide Canonical, GoodEdge, Block;
  }

  lemma IdsDiffer(input: Input, id: string, s: Spec, t: Spec)
    requires input.shortSha(Preimage(id, s)) != input.shortSha(Preimage(id, t))
    ensures NodeId(input, id, s.role, s.path) != NodeId(input, id, t.role, t.path)
  {
    var a, b := NodeId(input, id, s.role, s.path), NodeId(input, id, t.role, t.path);
    assert a[14..] == input.shortSha(Preimage(id, s));
    assert b[14..] == input.shortSha(Preimage(id, t));
  }

  lemma GoodSpecIsCanonical(input: Input, id: string, target: string, s: Spec)
    requires GoodSpec(s) && id != []
    ensures var c := Canonical(NodeOf(input, id, target, s));
            c.Some? && c.value.path == PosixPath.AsPosix(s.path) && c.value.role == s.role
    ensures GoodEdge(EdgeOf(input, id, s))
  {
    hide IsPlaceholder, PosixPath.IsSafe, PosixPath.AsPosix, IsRealSha256;
  }

  lemma {:induction false} IdIsNotEmpty(template: seq<Piece>, version: string, target: string, sourceSha: string, runId: string)
    requires Target in template && target != []
    ensures SubjectId(template, version, target, sourceSha, runId) != []
  {
    if template[0] != Target {
      IdIsNotEmpty(template[1..], version, target, sourceSha, runId);
    }
  }

  // ---------------------------------------------------------------- the converse

  /** Two calls for files at one normal path, alike in all else, have one canonical node. */
  lemma SamePlaceSameNode(input: Input, id: string, target: string, s: Spec, t: Spec)
    requires s.measured == MeasureFile(input.tree, s.path, input.sha) && t.measured == MeasureFile(input.tree, t.path, input.sha)
    requires t == s.(path := t.path, measured := t.measured)
    requires PosixPath.AsPosix(s.path) == PosixPath.AsPosix(t.path)
    requires Canonical(NodeOf(input, id, target, s)).Some? && Canonical(NodeOf(input, id, target, t)).Some?
    ensures Canonical(NodeOf(input, id, target, s)) == Canonical(NodeOf(input, id, target, t))
  {
    hide IsPlaceholder, Strip, PosixPath.AsPosix, PosixPath.Parts, IsRealSha256;
  }

  /** A row is clean only if its file specs of one kind, wherever they stand in the row, lie apart. */
  lemma CleanMeansApart(input: Input, row: Row, front: seq<Spec>, own: seq<Spec>, back: seq<Spec>, paths: seq<string>)
    requires Covered(input, row) && CleanRow(input, row) && Specs(input, row) == front + own + back
    requires |own| == |paths| && forall i :: 0 <= i < |own| ==> IsFileSpec(input, own[0], own[i], paths[i])
    ensures Apart(paths)
  {
    hide Covered, Canonical, PosixPath.AsPosix, PosixPath.Parts, Specs, IdOf, CleanEdges, RowEdges, MeasureFile;
    CoveredHasTarget(input, row);
    var id, target, nodes := IdOf(input, row.target.value), row.target.value, RowNodes(input, row);
    var specs := Specs(input, row);
    forall i | 0 <= i < |own|
      ensures nodes[|front| + i] == NodeOf(input, id, target, own[i]) && Canonical(nodes[|front| + i]).Some?
      ensures ".." !in PosixPath.Parts(paths[i])
    {
      assert specs[|front| + i] == own[i];
      CanonicalIsSafe(nodes[|front| + i]);
    }
    forall i, j | 0 <= i < j < |own|
      ensures PosixPath.AsPosix(paths[i]) != PosixPath.AsPosix(paths[j])
    {
      assert Canonical(nodes[|front| + i]) != Canonical(nodes[|front| + j]);
      if PosixPath.AsPosix(paths[i]) == PosixPath.AsPosix(paths[j]) {
        SamePlaceSameNode(input, id, target, own[i], own[j]);
      }
    }
  }

  predicate IsFileSpec(input: Input, sample: Spec, s: Spec, path: string) {
    s == sample.(path := path, measured := MeasureFile(input.tree, path, input.sha))
  }

  lemma CanonicalIsSafe(n: Node)
    requires Canonical(n).Some?
    ensures ".." !in PosixPath.Parts(n.path)
  {
    hide IsPlaceholder, Strip, PosixPath.Parts, IsRealSha256;
  }

  lemma RuntimeSpecsAreFiles(input: Input, policy: Policy, suites: seq<string>)
    ensures var own, paths := RuntimeSpecs(input, policy, suites), SuitePaths(input, suites);
            |own| == |paths| && forall i :: 0 <= i < |own| ==> IsFileSpec(input, own[0], own[i], paths[i])
  {
    hide MeasureFile, RuntimePath, IsProduction;
    RuntimeSpecsAre(input, policy, suites);
  }

  lemma ScanSpecsAreFiles(input: Input, scans: seq<string>)
    ensures var own, paths := ScanSpecs(input, scans), ReportPaths(input, scans);
            |own| == |paths| && forall i :: 0 <= i < |own| ==> IsFileSpec(input, own[0], own[i], paths[i])
  {
    hide MeasureFile, ScanPath, IsProduction;
    ScanSpecsAre(input, scans);
  }

  /** Where the runtime and scan specs stand in a row's list. */
  lemma SpecsSplit(input: Input, row: Row) returns (front: seq<Spec>, middle: seq<Spec>, back: seq<Spec>)
    requires Covered(input, row)
    ensures var policy := input.contract.policies[row.target.value];
            Specs(input, row) == front + RuntimeSpecs(input, policy, SuitesFor(input.contract, row.target.value)) + middle
                                 + (if policy.scanRequired then ScanSpecs(input, input.scans) else []) + back
  {
    hide Covered, SuitesFor, RawRef, CompressedRef, ArtifactSpecs, RuntimeSpecs, ScanSpecs, SigningSpecs, HardwareSpecs,
         OtaSpecs, GateSpecs, BindingSpec;
    CoveredHasTarget(input, row);
    var target := row.target.value;
    var policy := input.contract.policies[target];
    var raw := ArtifactSpecs(input, "raw-image", RawRef(input, row, target));
    var compressed := ArtifactSpecs(input, "compressed-release-artifact", CompressedRef(input, row, target));
    var signing := if policy.signingRequired then SigningSpecs(input, target) else [];
    var hardware := if policy.hardwareRequired then HardwareSpecs(input, target) else [];
    var scans := if policy.scanRequired then ScanSpecs(input, input.scans) else [];
    var ota := if policy.otaCapable then OtaSpecs(input, target) else [];
    var gate := if policy.productionGate then GateSpecs(input, target) else [];
    front, middle, back := [BindingSpec(input)] + raw + compressed, signing + hardware, ota + gate;
    Regroup(front + RuntimeSpecs(input, policy, SuitesFor(input.contract, target)), signing, hardware, scans, ota, gate);
  }

  lemma Regroup(a: seq<Spec>, b: seq<Spec>, c: seq<Spec>, d: seq<Spec>, e: seq<Spec>, f: seq<Spec>)
    ensures a + b + c + d + e + f == a + (b + c) + d + (e + f)
  {
  }

  /** Whatever the input, a clean row keeps its suites and its scans apart. */
  lemma CleanRowIsApart(input: Input, row: Row)
    requires Covered(input, row) && CleanRow(input, row)
    ensures PathsApart(input, row)
  {
    hide Covered, CleanRow, Specs, SuitesFor, RuntimeSpecs, ScanSpecs, Apart, IsFileSpec;
    CoveredHasTarget(input, row);
    var policy := input.contract.policies[row.target.value];
    var suites := SuitesFor(input.contract, row.target.value);
    var front, middle, back := SpecsSplit(input, row);
    var runtime := RuntimeSpecs(input, policy, suites);
    var scans := if policy.scanRequired then ScanSpecs(input, input.scans) else [];
    RuntimeSpecsAreFiles(input, policy, suites);
    assert front + runtime + middle + scans + back == front + runtime + (middle + scans + back);
    CleanMeansApart(input, row, front, runtime, middle + scans + back, SuitePaths(input, suites));
    if policy.scanRequired {
      ScanSpecsAreFiles(input, input.scans);
      assert front + runtime + middle + scans + back == (front + runtime + middle) + scans + back;
      CleanMeansApart(input, row, front + runtime + middle, scans, back, ReportPaths(input, input.scans));
    }
  }

  lemma ApartRowIsClean(input: Input, k: nat)
    requires PlainInput(input) && Target in input.contract.template
    requires k < |input.rows| && Covered(input, input.rows[k]) && PathsApart(input, input.rows[k])
    ensures CleanRow(input, input.rows[k])
  {
    var row := input.rows[k];
    RowIsPlain(input, k);
    IdIsNotEmpty(input.contract.template, input.binding.version, row.target.value, input.binding.sourceSha, input.binding.runId);
    SpecsBlock(input, row);
    hide PlainInput, Covered, Specs, Block, NoCollision, CleanRow, PathsApart;
    CleanFromBlock(input, row);
  }

  lemma RowIsPlain(input: Input, i: nat)
    requires PlainInput(input) && i < |input.rows| && Covered(input, input.rows[i])
    ensures IsPlain(input.rows[i].target.value) && input.rows[i].target.value != [] && NoCollision(input, input.rows[i])
  {
    hide Covered, NoCollision, GoodBound;
  }

  // ---------------------------------------------------------------- the round trip

  /** The lineage round trip: on inputs plain in all else, with distinct targets, the produced graph, sliced into one plan
      per subject and replayed, gives no failure if and only if in every covered row the normal paths of the suites'
      reports, and of the scans' reports where they are asked for, are safe and all different. */
  lemma LineageRoundTrips(input: Input)
    requires PlainInput(input) && DistinctRows(input, input.rows) && Target in input.contract.template
    ensures Replayed(GraphOf(input), Slices(GraphOf(input))) <==>
            forall i :: 0 <= i < |input.rows| && Covered(input, input.rows[i]) ==> PathsApart(input, input.rows[i])
  {
    hide PlainInput, DistinctRows, Covered, CleanRow, PathsApart, GraphOf, Slices, Replayed;
    ProducedGraphReplays(input);
    forall i | 0 <= i < |input.rows| && Covered(input, input.rows[i])
      ensures CleanRow(input, input.rows[i]) <==> PathsApart(input, input.rows[i])
    {
      if PathsApart(input, input.rows[i]) {
        ApartRowIsClean(input, i);
      } else if CleanRow(input, input.rows[i]) {
        CleanRowIsApart(input, input.rows[i]);
      }
    }
  }

  /** Two spellings of one place: a row that needs the scans `a` and `./a` never survives, whatever else the input holds. */
  lemma TwoSpellingsFail(input: Input, k: nat)
    requires DistinctRows(input, input.rows) && Target in input.contract.template
    requires k < |input.rows| && Covered(input, input.rows[k]) && input.scans == ["a", "./a"]
    requires input.contract.policies[input.rows[k].target.value].scanRequired
    ensures !Replayed(GraphOf(input), Slices(GraphOf(input)))
  {
    hide DistinctRows, Covered, CleanRow, GraphOf, Slices, Replayed, ScanPath, PosixPath.AsPosix, PosixPath.Parts;
    ProducedGraphReplays(input);
    SamePlace(input);
    var paths := ReportPaths(input, input.scans);
    assert PosixPath.AsPosix(paths[0]) == PosixPath.AsPosix(paths[1]);
    if CleanRow(input, input.rows[k]) {
      CleanRowIsApart(input, input.rows[k]);
    }
  }

  lemma SamePlace(input: Input)
    ensures PosixPath.AsPosix(ScanPath(input, "a")) == PosixPath.AsPosix(ScanPath(input, "./a"))
  {
    var dir := "release-security" + "/" + input.binding.version;
    DotsVanish();
    PosixPath.PartsConcat(dir, "a" + ".json");
    PosixPath.PartsConcat(dir, "./a" + ".json");
    PosixPath.SameNormalForm(ScanPath(input, "a"), ScanPath(input, "./a"));
  }

  lemma DotsVanish()
    ensures PosixPath.Parts("a" + ".json") == PosixPath.Parts("./a" + ".json")
  {
    PosixPath.PartsConcat(".", "a.json");
    assert PosixPath.Parts(".") == [];
    assert "./a" + ".json" == "." + "/" + "a.json" && "a" + ".json" == "a.json";
  }

  /** Such an input. */
  function TwoSpellings(sha: Bytes -> string, shortSha: string -> string): Input {
    var policy := Policy(false, true, false, false, false, true, false);
    Input(Binding("1.0", "rc", "sha", "1", "1", []), [Row(Some("d"), Some("t"), Some("i"), Some("i.xz"), true)], ["a", "./a"],
          Contract(map["t" := policy], map[], map[], [Target], role => "v1", "keep", []), None, sha, shortSha)
  }

  lemma TwoSpellingsExample(sha: Bytes -> string, shortSha: string -> string)
    ensures var graph := GraphOf(TwoSpellings(sha, shortSha)); !Replayed(graph, Slices(graph))
  {
    hide GraphOf, Replayed, Slices;
    TwoSpellingsFail(TwoSpellings(sha, shortSha), 0);
  }
}
