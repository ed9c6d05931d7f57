/** What the produced graph demands of a target: exactly the evidence its policy and the release profile ask for. */
module PolicyCoverage {
  import opened PyText
  import opened EvidenceGraph
  import opened SubjectGraph
  import opened LineageInputs
  import GraphReplay
  import LineageProducer
  import Sorting

  // ---------------------------------------------------------------- the demand

  /** A piece of evidence: its kind, its place, and whether the release needs it. */
  datatype Item = Item(role: string, path: string, required: bool)

  predicate FromBinding(item: Item, role: string, ref: Option<Bound>, required: bool) {
    ref.Some? && RelativePath(ref.value.path).Some? && item == Item(role, RelativePath(ref.value.path).value, required)
  }

  /** What a release profile and the policy of a target ask for, kind by kind. */
  predicate Demanded(input: Input, row: Row, item: Item)
    requires Covered(input, row)
  {
    var target := row.target.value;
    var policy := input.contract.policies[target];
    var production := IsProduction(input);
    || item == Item("release-input-binding", BindingPath(input), true)
    || FromBinding(item, "raw-image", RawRef(input, row, target), production)
    || FromBinding(item, "compressed-release-artifact", CompressedRef(input, row, target), production)
    || (item.path in RuntimePaths(input, target) && item == Item("runtime-suite", item.path, production && policy.runtimeRequired))
    || (policy.signingRequired && item == Item("signing-manifest", SigningPath(input, target), production))
    || (policy.hardwareRequired && item == Item("hardware-subject", HardwarePath(input, target), production))
    || (policy.hardwareRequired && item == Item("station-registry", RegistryPath(input), production))
    || (policy.scanRequired && item.path in ScanPaths(input) && item == Item("scanner-native-report", item.path, production))
    || (policy.otaCapable && item == Item("ota-artifacts", OtaPath(input, target), production))
    || (policy.productionGate && item == Item("governance-role-bindings", RoleBindingsPath(input), production))
    || (policy.productionGate && item == Item("governance-snapshot", SnapshotPath(input), production))
    || (policy.productionGate && item == Item("reproducibility", ReproducibilityPath(input, target), true))
    || (policy.productionGate && production && item == Item("retention-manifest", RetentionPath(input), true))
  }

  function RuntimePaths(input: Input, target: string): set<string> {
    set suite | suite in SuitesFor(input.contract, target) :: RuntimePath(input, suite)
  }

  function ScanPaths(input: Input): set<string> {
    set scan | scan in input.scans :: ScanPath(input, scan)
  }

  // ---------------------------------------------------------------- the calls that append evidence

  function ItemOf(s: Spec): Item {
    Item(s.role, s.path, s.required)
  }

  predicate Has(specs: seq<Spec>, item: Item) {
    exists i :: 0 <= i < |specs| && ItemOf(specs[i]) == item
  }

  lemma HasNothing(item: Item)
    ensures !Has([], item)
  {
  }

  lemma HasConcat(a: seq<Spec>, b: seq<Spec>, item: Item)
    ensures Has(a + b, item) <==> Has(a, item) || Has(b, item)
  {
    hide ItemOf;
    assert forall i :: 0 <= i < |a| ==> (a + b)[i] == a[i];
    assert forall i :: 0 <= i < |b| ==> (a + b)[|a| + i] == b[i];
  }

  lemma HasOne(s: Spec, item: Item)
    ensures Has([s], item) <==> item == ItemOf(s)
  {
    assert [s][0] == s;
  }

  lemma HasFile(input: Input, role: string, path: string, schemaRole: string, schemaVersion: string, required: bool, item: Item)
    ensures Has([FileSpec(input, role, path, schemaRole, schemaVersion, required)], item) <==> item == Item(role, path, required)
  {
    hide MeasureFile, Has;
    HasOne(FileSpec(input, role, path, schemaRole, schemaVersion, required), item);
  }

  lemma ArtifactItems(input: Input, role: string, ref: Option<Bound>, item: Item)
    ensures Has(ArtifactSpecs(input, role, ref), item) <==> FromBinding(item, role, ref, IsProduction(input))
  {
    hide Has, RelativePath, IsProduction;
    if ref.Some? && RelativePath(ref.value.path).Some? {
      HasOne(ArtifactSpecs(input, role, ref)[0], item);
    } else {
      HasNothing(item);
    }
  }

  lemma {:induction false} RuntimeItems(input: Input, policy: Policy, suites: seq<string>, item: Item)
    ensures Has(RuntimeSpecs(input, policy, suites), item) <==>
            (exists suite :: suite in suites && item == Item("runtime-suite", RuntimePath(input, suite), IsProduction(input) && policy.runtimeRequired))
  {
    hide FileSpec, Has, RuntimePath, IsProduction;
    if suites == [] {
      HasNothing(item);
    } else {
      RuntimeItems(input, policy, suites[1..], item);
      HasConcat([RuntimeSpec(input, policy, suites[0])], RuntimeSpecs(input, policy, suites[1..]), item);
      HasFile(input, "runtime-suite", RuntimePath(input, suites[0]), "production_runtime_suite",
              input.contract.schemaVersion("production_runtime_suite"), IsProduction(input) && policy.runtimeRequired, item);
    }
  }

  lemma {:induction false} ScanItems(input: Input, scans: seq<string>, item: Item)
    ensures Has(ScanSpecs(input, scans), item) <==>
            exists scan :: scan in scans && item == Item("scanner-native-report", ScanPath(input, scan), IsProduction(input))
  {
    hide FileSpec, Has, ScanPath, IsProduction;
    if scans == [] {
      HasNothing(item);
    } else {
      ScanItems(input, scans[1..], item);
      HasConcat([ScanSpec(input, scans[0])], ScanSpecs(input, scans[1..]), item);
      HasFile(input, "scanner-native-report", ScanPath(input, scans[0]), "release_security_report",
              input.contract.schemaVersion("release_security_report"), IsProduction(input), item);
    }
  }

  lemma HardwareItems(input: Input, target: string, item: Item)
    ensures Has(HardwareSpecs(input, target), item) <==>
            || item == Item("hardware-subject", HardwarePath(input, target), IsProduction(input))
            || item == Item("station-registry", RegistryPath(input), IsProduction(input))
  {
    hide FileSpec, Has, HardwarePath, RegistryPath, IsProduction;
    var specs := HardwareSpecs(input, target);
    assert specs == [specs[0]] + [specs[1]];
    HasConcat([specs[0]], [specs[1]], item);
    HasFile(input, "hardware-subject", HardwarePath(input, target), "hardware_subject",
            input.contract.schemaVersion("hardware_subject"), IsProduction(input), item);
    HasFile(input, "station-registry", RegistryPath(input), "lab_station_registry", "suderra.lab-station-registry.v1",
            IsProduction(input), item);
  }

  lemma GateItems(input: Input, target: string, item: Item)
    ensures Has(GateSpecs(input, target), item) <==>
            || item == Item("governance-role-bindings", RoleBindingsPath(input), IsProduction(input))
            || item == Item("governance-snapshot", SnapshotPath(input), IsProduction(input))
            || item == Item("reproducibility", ReproducibilityPath(input, target), true)
            || (IsProduction(input) && item == Item("retention-manifest", RetentionPath(input), true))
  {
    hide FileSpec, Has, RoleBindingsPath, SnapshotPath, ReproducibilityPath, RetentionPath, IsProduction;
    var specs := GateSpecs(input, target);
    assert specs == [specs[0]] + [specs[1]] + [specs[2]] + RetentionSpecs(input);
    HasConcat([specs[0]] + [specs[1]] + [specs[2]], RetentionSpecs(input), item);
    HasConcat([specs[0]] + [specs[1]], [specs[2]], item);
    HasConcat([specs[0]], [specs[1]], item);
    HasFile(input, "governance-role-bindings", RoleBindingsPath(input), "governance_role_bindings",
            input.contract.schemaVersion("governance_role_bindings"), IsProduction(input), item);
    HasFile(input, "governance-snapshot", SnapshotPath(input), "github_governance_validation",
            "suderra.github-governance-validation.v2", IsProduction(input), item);
    HasFile(input, "reproducibility", ReproducibilityPath(input, target), "reproducibility", "suderra.reproducibility.v1", true, item);
    HasNothing(item);
    HasFile(input, "retention-manifest", RetentionPath(input), "retention_manifest",
            input.contract.schemaVersion("retention_manifest"), true, item);
  }

  /** The item is in one of the blocks of a row's calls. */
  predicate InBlock(input: Input, row: Row, item: Item)
    requires Covered(input, row)
  {
    var target := row.target.value;
    var policy := input.contract.policies[target];
    || Has([BindingSpec(input)], item)
    || Has(ArtifactSpecs(input, "raw-image", RawRef(input, row, target)), item)
    || Has(ArtifactSpecs(input, "compressed-release-artifact", CompressedRef(input, row, target)), item)
    || Has(RuntimeSpecs(input, policy, SuitesFor(input.contract, target)), item)
    || (policy.signingRequired && Has(SigningSpecs(input, target), item))
    || (policy.hardwareRequired && Has(HardwareSpecs(input, target), item))
    || (policy.scanRequired && Has(ScanSpecs(input, input.scans), item))
    || (policy.otaCapable && Has(OtaSpecs(input, target), item))
    || (policy.productionGate && Has(GateSpecs(input, target), item))
  }

  lemma HasFour(a: seq<Spec>, b: seq<Spec>, c: seq<Spec>, d: seq<Spec>, item: Item)
    ensures Has(a + b + c + d, item) <==> Has(a, item) || Has(b, item) || Has(c, item) || Has(d, item)
  {
    hide Has;
    HasConcat(a, b, item);
    HasConcat(a + b, c, item);
    HasConcat(a + b + c, d, item);
  }

  lemma SpecsAreBlocks(input: Input, row: Row, item: Item)
    requires Covered(input, row)
    ensures Has(Specs(input, row), item) <==> InBlock(input, row, item)
  {
    hide Covered, Has, BindingSpec, ArtifactSpecs, RuntimeSpecs, SigningSpecs, HardwareSpecs, ScanSpecs, OtaSpecs,
         GateSpecs, RawRef, CompressedRef, SuitesFor;
    CoveredHasTarget(input, row);
    var target := row.target.value;
    var policy := input.contract.policies[target];
    var images := ArtifactSpecs(input, "raw-image", RawRef(input, row, target));
    var releases := ArtifactSpecs(input, "compressed-release-artifact", CompressedRef(input, row, target));
    var suites := RuntimeSpecs(input, policy, SuitesFor(input.contract, target));
    var front := [BindingSpec(input)] + images + releases + suites;
    var signing := if policy.signingRequired then SigningSpecs(input, target) else [];
    var hardware := if policy.hardwareRequired then HardwareSpecs(input, target) else [];
    var scans := if policy.scanRequired then ScanSpecs(input, input.scans) else [];
    var ota := if policy.otaCapable then OtaSpecs(input, target) else [];
    HasFour([BindingSpec(input)], images, releases, suites, item);
    HasFour(front, signing, hardware, scans, item);
    HasConcat(front + signing + hardware + scans, ota, item);
    HasConcat(front + signing + hardware + scans + ota, if policy.productionGate then GateSpecs(input, target) else [], item);
    HasNothing(item);
  }

  /** The calls made for a row are those its policy and profile demand. */
  lemma SpecsAreDemanded(input: Input, row: Row, item: Item)
    requires Covered(input, row)
    ensures Has(Specs(input, row), item) <==> Demanded(input, row, item)
  {
    hide Covered, Has, Specs, BindingSpec, ArtifactSpecs, RuntimeSpecs, SigningSpecs, HardwareSpecs, ScanSpecs,
         OtaSpecs, GateSpecs, RawRef, CompressedRef, SuitesFor, FromBinding, BindingPath, RuntimePath, SigningPath,
         HardwarePath, RegistryPath, ScanPath, OtaPath, RoleBindingsPath, SnapshotPath, ReproducibilityPath,
         RetentionPath, IsProduction;
    CoveredHasTarget(input, row);
    SpecsAreBlocks(input, row, item);
    var target := row.target.value;
    BindingItem(input, item);
    ArtifactItems(input, "raw-image", RawRef(input, row, target), item);
    ArtifactItems(input, "compressed-release-artifact", CompressedRef(input, row, target), item);
    RuntimeItems(input, input.contract.policies[target], SuitesFor(input.contract, target), item);
    SigningItem(input, target, item);
    HardwareItems(input, target, item);
    ScanItems(input, input.scans, item);
    OtaItem(input, target, item);
    GateItems(input, target, item);
  }

  lemma BindingItem(input: Input, item: Item)
    ensures Has([BindingSpec(input)], item) <==> item == Item("release-input-binding", BindingPath(input), true)
  {
    hide Has, MeasureFile, BindingPath;
    HasOne(BindingSpec(input), item);
  }

  lemma SigningItem(input: Input, target: string, item: Item)
    ensures Has(SigningSpecs(input, target), item) <==> item == Item("signing-manifest", SigningPath(input, target), IsProduction(input))
  {
    hide Has, FileSpec, SigningPath, IsProduction;
    HasFile(input, "signing-manifest", SigningPath(input, target), "signing_manifest",
            input.contract.schemaVersion("signing_manifest"), IsProduction(input), item);
  }

  lemma OtaItem(input: Input, target: string, item: Item)
    ensures Has(OtaSpecs(input, target), item) <==> item == Item("ota-artifacts", OtaPath(input, target), IsProduction(input))
  {
    hide Has, FileSpec, OtaPath, IsProduction;
    HasFile(input, "ota-artifacts", OtaPath(input, target), "ota_artifacts", input.contract.schemaVersion("ota_artifacts"),
            IsProduction(input), item);
  }

  // ---------------------------------------------------------------- in the graph

  function ItemOfNode(n: Node): Item {
    Item(n.role, n.path, n.required)
  }

  predicate HasNode(nodes: seq<Node>, item: Item) {
    exists n :: n in nodes && ItemOfNode(n) == item
  }

  /** The nodes of the sorted graph that carry the subject's id. */
  function Slice(input: Input, row: Row): seq<Node>
    requires Covered(input, row)
  {
    GraphReplay.NodesFor(GraphOf(input).nodes, IdOf(input, row.target.value))
  }

  lemma NodesCarrySpecs(input: Input, id: string, target: string, specs: seq<Spec>, item: Item)
    ensures HasNode(NodesOf(input, id, target, specs), item) <==> Has(specs, item)
  {
    hide NodeId;
    var nodes := NodesOf(input, id, target, specs);
    if i :| 0 <= i < |specs| && ItemOf(specs[i]) == item {
      assert nodes[i] in nodes && ItemOfNode(nodes[i]) == item;
    }
    if n :| n in nodes && ItemOfNode(n) == item {
      var i :| 0 <= i < |nodes| && nodes[i] == n;
      assert ItemOf(specs[i]) == item;
    }
  }

  /** A subject's slice of the graph holds a node of this kind, place and necessity exactly if its policy and profile demand
      one: nothing asked for is missing and nothing else is there. */
  lemma EvidenceFollowsPolicy(input: Input, k: nat, item: Item)
    requires Target in input.contract.template && LineageProducer.DistinctRows(input, input.rows)
    requires k < |input.rows| && Covered(input, input.rows[k])
    ensures HasNode(Slice(input, input.rows[k]), item) <==> Demanded(input, input.rows[k], item)
  {
    hide Covered, GraphOf, Specs, LineageProducer.DistinctRows, IdOf, Demanded, Has, NodesOf, ItemOfNode;
    var row := input.rows[k];
    CoveredHasTarget(input, row);
    SpecsAreDemanded(input, row, item);
    NodesCarrySpecs(input, IdOf(input, row.target.value), row.target.value, Specs(input, row), item);
    LineageProducer.OwnedInGraph(input, k);
    LineageProducer.SubjectTarget(input, row);
    Sorting.SamePermutation(Slice(input, row), RowNodes(input, row));
  }

  /** Which of a subject's nodes are required: of a candidate the release binding and the reproducibility report only, of a
      production release every node but the runtime suites of a target that does not demand them. */
  lemma RequirementFollowsProfile(input: Input, k: nat, n: Node)
    requires Target in input.contract.template && LineageProducer.DistinctRows(input, input.rows)
    requires k < |input.rows| && Covered(input, input.rows[k]) && n in Slice(input, input.rows[k])
    ensures n.required <==>
            || n.role == "release-input-binding" || n.role == "reproducibility"
            || (IsProduction(input) && (n.role == "runtime-suite" ==> input.contract.policies[input.rows[k].target.value].runtimeRequired))
  {
    hide Covered, Slice, LineageProducer.DistinctRows, Demanded, IsProduction, Rank;
    CoveredHasTarget(input, input.rows[k]);
    EvidenceFollowsPolicy(input, k, ItemOfNode(n));
    RequirementByRank(input, input.rows[k], ItemOfNode(n));
    RankTellsRole(n.role);
  }

  lemma RequirementByRank(input: Input, row: Row, item: Item)
    requires Covered(input, row) && Demanded(input, row, item)
    ensures item.required <==>
            || Rank(item.role) == 1 || Rank(item.role) == 12
            || (IsProduction(input) && (Rank(item.role) == 4 ==> input.contract.policies[row.target.value].runtimeRequired))
  {
    hide Covered, Rank, IsProduction, RawRef, CompressedRef, RelativePath, RuntimePaths, ScanPaths, BindingPath,
         SigningPath, HardwarePath, RegistryPath, OtaPath, RoleBindingsPath, SnapshotPath, ReproducibilityPath,
         RetentionPath;
    CoveredHasTarget(input, row);
    Ranks();
  }

  /** No kind of evidence beyond the thirteen is demanded. */
  lemma DemandedHasRank(input: Input, row: Row, item: Item)
    requires Covered(input, row) && Demanded(input, row, item)
    ensures 1 <= Rank(item.role) <= 13
  {
    hide Covered, Rank, IsProduction, RawRef, CompressedRef, RelativePath, RuntimePaths, ScanPaths, BindingPath,
         SigningPath, HardwarePath, RegistryPath, OtaPath, RoleBindingsPath, SnapshotPath, ReproducibilityPath,
         RetentionPath;
    CoveredHasTarget(input, row);
    Ranks();
  }

  lemma SpecHasRank(input: Input, row: Row, s: Spec)
    requires Covered(input, row) && s in Specs(input, row)
    ensures 1 <= Rank(s.role) <= 13
  {
    hide Covered, Specs, Demanded, Rank;
    var j :| 0 <= j < |Specs(input, row)| && Specs(input, row)[j] == s;
    assert ItemOf(Specs(input, row)[j]) == ItemOf(s);
    SpecsAreDemanded(input, row, ItemOf(s));
    DemandedHasRank(input, row, ItemOf(s));
  }

  lemma RankTellsRole(role: string)
    ensures Rank(role) == 1 <==> role == "release-input-binding"
    ensures Rank(role) == 12 <==> role == "reproducibility"
    ensures Rank(role) == 4 <==> role == "runtime-suite"
  {
    Ranks();
  }
}
