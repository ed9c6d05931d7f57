/** The producer of the release subject graph: one subject per covered matrix row, its evidence nodes and edges. */
module SubjectGraph {
  import opened PyText
  import opened Hashing
  import opened EvidenceGraph
  import PosixPath
  import Sorting

  // ---------------------------------------------------------------- inputs

  /** A row of the build matrix; None is a missing field. */
  datatype Row = Row(name: Option<string>, target: Option<string>, artifact: Option<string>, releaseArtifact: Option<string>,
                     release: bool)

  datatype Bound = Bound(target: string, artifact: string, path: Option<string>, sha256: Option<string>, bytes: Option<int>)

  datatype Binding = Binding(version: string, profile: string, sourceSha: string, runId: string, runAttempt: string,
                             artifacts: seq<Bound>)

  /** Everything `subject_graph_payload` reads. `shortSha` is the truncated hexadecimal digest of a text. */
  datatype Input = Input(binding: Binding, rows: seq<Row>, scans: seq<string>, contract: Contract, tree: Option<Tree>,
                         sha: Bytes -> string, shortSha: string -> string)

  /** `str(value)` of an optional text. */
  function Str(o: Option<string>): string {
    if o.Some? then o.value else "None"
  }

  function ArtifactRef(artifacts: seq<Bound>, target: string, name: string): Option<Bound> {
    if artifacts == [] then None
    else if artifacts[0].target == target && artifacts[0].artifact == name then Some(artifacts[0])
    else ArtifactRef(artifacts[1..], target, name)
  }

  function RawRef(input: Input, row: Row, target: string): Option<Bound> {
    ArtifactRef(input.binding.artifacts, target, Str(row.artifact))
  }

  function CompressedRef(input: Input, row: Row, target: string): Option<Bound> {
    var first := ArtifactRef(input.binding.artifacts, target, Str(row.releaseArtifact));
    if first.Some? then first else ArtifactRef(input.binding.artifacts, target, Str(row.artifact) + ".xz")
  }

  /** `relative_path` */
  function RelativePath(path: Option<string>): Option<string> {
    if path.Some? && PosixPath.IsSafe(path.value) then Some(PosixPath.AsPosix(path.value)) else None
  }

  predicate IsProduction(input: Input) {
    input.binding.profile == "production-candidate"
  }

  /** Does the row get a subject? */
  predicate Covered(input: Input, row: Row) {
    && row.target.Some? && row.target.value in input.contract.policies
    && (var policy := input.contract.policies[row.target.value]; policy.productionGate || policy.releasePublic)
    && !(IsStrict(input) && !IsProduction(input) && !row.release
         && (RawRef(input, row, row.target.value).None? || CompressedRef(input, row, row.target.value).None?))
  }

  predicate IsStrict(input: Input) {
    input.binding.profile in input.contract.strict && input.contract.strict[input.binding.profile]
  }

  // ---------------------------------------------------------------- what one subject requires

  /** The arguments of one `append_evidence_node` call. */
  datatype Spec = Spec(role: string, path: string, schemaRole: string, schemaVersion: string, required: bool,
                       measured: Measurement, producer: string)

  const CONTRACT_FILE := "ci/evidence-contract.yml"

  function FileSpec(input: Input, role: string, path: string, schemaRole: string, schemaVersion: string, required: bool): Spec {
    Spec(role, path, schemaRole, schemaVersion, required, MeasureFile(input.tree, path, input.sha), CONTRACT_FILE)
  }

  function BindingPath(input: Input): string {
    "release-inputs" + "/" + input.binding.version + "/" + (input.binding.profile + ".json")
  }

  function BindingSpec(input: Input): Spec {
    FileSpec(input, "release-input-binding", BindingPath(input), "binding_manifest", "suderra.release-input-binding.v2", true)
      .(producer := "prepare-release-inputs.py")
  }

  function ArtifactSpecs(input: Input, role: string, ref: Option<Bound>): seq<Spec> {
    if ref.None? || RelativePath(ref.value.path).None? then []
    else [Spec(role, RelativePath(ref.value.path).value, "build_artifact", "sha256-digest", IsProduction(input),
               Measurement(ref.value.sha256, ref.value.bytes), "ci/build-matrix.yml")]
  }

  function RuntimePath(input: Input, suite: string): string {
    "release-runtime" + "/" + input.binding.version + "/" + suite + "/" + "production-runtime.json"
  }

  function RuntimeSpec(input: Input, policy: Policy, suite: string): Spec {
    FileSpec(input, "runtime-suite", RuntimePath(input, suite), "production_runtime_suite",
             input.contract.schemaVersion("production_runtime_suite"), IsProduction(input) && policy.runtimeRequired)
  }

  function RuntimeSpecs(input: Input, policy: Policy, suites: seq<string>): seq<Spec> {
    if suites == [] then [] else [RuntimeSpec(input, policy, suites[0])] + RuntimeSpecs(input, policy, suites[1..])
  }

  function SigningPath(input: Input, target: string): string {
    "release-signing" + "/" + input.binding.version + "/" + target + "/" + "signing-manifest.json"
  }

  function SigningSpecs(input: Input, target: string): seq<Spec> {
    [FileSpec(input, "signing-manifest", SigningPath(input, target), "signing_manifest",
              input.contract.schemaVersion("signing_manifest"), IsProduction(input))]
  }

  function HardwarePath(input: Input, target: string): string {
    "release-lab-input" + "/" + input.binding.version + "/" + target + "/" + "hardware-subject.json"
  }

  function RegistryPath(input: Input): string {
    "release-governance" + "/" + input.binding.version + "/" + "station-registry.json"
  }

  function HardwareSpecs(input: Input, target: string): seq<Spec> {
    [FileSpec(input, "hardware-subject", HardwarePath(input, target), "hardware_subject",
              input.contract.schemaVersion("hardware_subject"), IsProduction(input)),
     FileSpec(input, "station-registry", RegistryPath(input), "lab_station_registry",
              "suderra.lab-station-registry.v1", IsProduction(input))]
  }

  function ScanPath(input: Input, scan: string): string {
    "release-security" + "/" + input.binding.version + "/" + (scan + ".json")
  }

  function ScanSpec(input: Input, scan: string): Spec {
    FileSpec(input, "scanner-native-report", ScanPath(input, scan), "release_security_report",
             input.contract.schemaVersion("release_security_report"), IsProduction(input))
  }

  function ScanSpecs(input: Input, scans: seq<string>): seq<Spec> {
    if scans == [] then [] else [ScanSpec(input, scans[0])] + ScanSpecs(input, scans[1..])
  }

  function OtaPath(input: Input, target: string): string {
    "release-ota" + "/" + input.binding.version + "/" + target + "/" + "ota-artifacts.json"
  }

  function OtaSpecs(input: Input, target: string): seq<Spec> {
    [FileSpec(input, "ota-artifacts", OtaPath(input, target), "ota_artifacts",
              input.contract.schemaVersion("ota_artifacts"), IsProduction(input))]
  }

  function RoleBindingsPath(input: Input): string {
    "release-governance" + "/" + input.binding.version + "/" + "role-bindings.json"
  }

  function SnapshotPath(input: Input): string {
    "release-governance" + "/" + input.binding.version + "/" + "governance-policy-validation.json"
  }

  function ReproducibilityPath(input: Input, target: string): string {
    "release-reproducibility" + "/" + input.binding.version + "/" + (target + ".json")
  }

  function RetentionPath(input: Input): string {
    "release-retention" + "/" + input.binding.version + "/" + "retention-manifest.json"
  }

  function GateSpecs(input: Input, target: string): seq<Spec> {
    [FileSpec(input, "governance-role-bindings", RoleBindingsPath(input), "governance_role_bindings",
              input.contract.schemaVersion("governance_role_bindings"), IsProduction(input)),
     FileSpec(input, "governance-snapshot", SnapshotPath(input), "github_governance_validation",
              "suderra.github-governance-validation.v2", IsProduction(input)),
     FileSpec(input, "reproducibility", ReproducibilityPath(input, target), "reproducibility",
              "suderra.reproducibility.v1", true)]
    + RetentionSpecs(input)
  }

  function RetentionSpecs(input: Input): seq<Spec> {
    if IsProduction(input)
    then [FileSpec(input, "retention-manifest", RetentionPath(input), "retention_manifest",
                   input.contract.schemaVersion("retention_manifest"), true)]
    else []
  }

  function Specs(input: Input, row: Row): seq<Spec>
    requires Covered(input, row)
  {
    var target := row.target.value;
    var policy := input.contract.policies[target];
    [BindingSpec(input)]
    + ArtifactSpecs(input, "raw-image", RawRef(input, row, target))
    + ArtifactSpecs(input, "compressed-release-artifact", CompressedRef(input, row, target))
    + RuntimeSpecs(input, policy, SuitesFor(input.contract, target))
    + (if policy.signingRequired then SigningSpecs(input, target) else [])
    + (if policy.hardwareRequired then HardwareSpecs(input, target) else [])
    + (if policy.scanRequired then ScanSpecs(input, input.scans) else [])
    + (if policy.otaCapable then OtaSpecs(input, target) else [])
    + (if policy.productionGate then GateSpecs(input, target) else [])
  }

  // ---------------------------------------------------------------- nodes and edges

  function NodeId(input: Input, subjectId: string, role: string, path: string): string {
    "evidence-node:" + input.shortSha(subjectId + "|" + role + "|" + path)
  }

  function NodeOf(input: Input, subjectId: string, target: string, s: Spec): Node {
    Node(NodeId(input, subjectId, s.role, s.path), subjectId, target, s.role, s.path, s.schemaRole, s.schemaVersion,
         s.required, s.producer, s.measured)
  }

  function EdgeOf(input: Input, subjectId: string, s: Spec): Edge {
    Edge(subjectId, NodeId(input, subjectId, s.role, s.path), if s.required then "requires" else "observes", s.role)
  }

  function NodesOf(input: Input, subjectId: string, target: string, specs: seq<Spec>): (r: seq<Node>)
    ensures |r| == |specs| && forall i :: 0 <= i < |specs| ==> r[i] == NodeOf(input, subjectId, target, specs[i])
  {
    seq(|specs|, i requires 0 <= i < |specs| => NodeOf(input, subjectId, target, specs[i]))
  }

  function EdgesOf(input: Input, subjectId: string, specs: seq<Spec>): (r: seq<Edge>)
    ensures |r| == |specs| && forall i :: 0 <= i < |specs| ==> r[i] == EdgeOf(input, subjectId, specs[i])
  {
    seq(|specs|, i requires 0 <= i < |specs| => EdgeOf(input, subjectId, specs[i]))
  }

  function IdsOf(input: Input, subjectId: string, specs: seq<Spec>): (r: seq<string>)
    ensures |r| == |specs| && forall i :: 0 <= i < |specs| ==> r[i] == NodeId(input, subjectId, specs[i].role, specs[i].path)
  {
    seq(|specs|, i requires 0 <= i < |specs| => NodeId(input, subjectId, specs[i].role, specs[i].path))
  }

  function IdOf(input: Input, target: string): string {
    SubjectId(input.contract.template, input.binding.version, target, input.binding.sourceSha, input.binding.runId)
  }

  function ArtifactOf(name: Option<string>, ref: Option<Bound>): Artifact {
    if ref.Some? then Artifact(name, ref.value.sha256, ref.value.bytes) else Artifact(name, None, None)
  }

  function SubjectWith(input: Input, row: Row, ids: seq<string>): Subject
    requires Covered(input, row)
  {
    var target := row.target.value;
    var b := input.binding;
    Subject(IdOf(input, target), b.version, b.profile, target, row.name, b.sourceSha, b.runId, b.runAttempt,
            ArtifactOf(row.artifact, RawRef(input, row, target)),
            ArtifactOf(row.releaseArtifact, CompressedRef(input, row, target)),
            Sorting.Sort(ids, Less))
  }

  function SubjectOf(input: Input, row: Row): Subject
    requires Covered(input, row)
  {
    SubjectWith(input, row, IdsOf(input, IdOf(input, row.target.value), Specs(input, row)))
  }

  /** What one covered row adds to the two lists. */
  function RowNodes(input: Input, row: Row): seq<Node>
    requires Covered(input, row)
  {
    NodesOf(input, IdOf(input, row.target.value), row.target.value, Specs(input, row))
  }

  function RowEdges(input: Input, row: Row): seq<Edge>
    requires Covered(input, row)
  {
    EdgesOf(input, IdOf(input, row.target.value), Specs(input, row))
  }

  // ---------------------------------------------------------------- the whole graph

  function AllSubjects(input: Input, rows: seq<Row>): seq<Subject> {
    if rows == [] then []
    else
      var row := rows[|rows| - 1];
      AllSubjects(input, rows[..|rows| - 1]) + if Covered(input, row) then [SubjectOf(input, row)] else []
  }

  function AllNodes(input: Input, rows: seq<Row>): seq<Node> {
    if rows == [] then []
    else
      var row := rows[|rows| - 1];
      AllNodes(input, rows[..|rows| - 1])
      + if Covered(input, row) then RowNodes(input, row) else []
  }

  function AllEdges(input: Input, rows: seq<Row>): seq<Edge> {
    if rows == [] then []
    else
      var row := rows[|rows| - 1];
      AllEdges(input, rows[..|rows| - 1])
      + if Covered(input, row) then RowEdges(input, row) else []
  }

  predicate Less3(a: (string, string, string), b: (string, string, string)) {
    Less(a.0, b.0) || (a.0 == b.0 && (Less(a.1, b.1) || (a.1 == b.1 && Less(a.2, b.2))))
  }

  function SortSubjects(s: seq<Subject>): seq<Subject> {
    Sorting.Sort(s, (a: Subject, b: Subject) => Less(a.target, b.target))
  }

  function SortNodes(s: seq<Node>): seq<Node> {
    Sorting.Sort(s, (a: Node, b: Node) => Less3((a.target, a.role, a.path), (b.target, b.role, b.path)))
  }

  function SortEdges(s: seq<Edge>): seq<Edge> {
    Sorting.Sort(s, (a: Edge, b: Edge) => Less3((a.source, a.role, a.to), (b.source, b.role, b.to)))
  }

  function Assemble(input: Input, subjects: seq<Subject>, nodes: seq<Node>, edges: seq<Edge>): Graph {
    var b := input.binding;
    Graph(input.contract.schemaVersion("release_subject_graph"), b.version, b.profile, b.sourceSha, b.runId, b.runAttempt,
          SortSubjects(subjects), SortNodes(nodes), SortEdges(edges),
          set n | n in nodes && n.required :: n.path,
          Some(Retention(input.contract.retentionPolicy, input.contract.requiredExports)))
  }

  function GraphOf(input: Input): Graph {
    Assemble(input, AllSubjects(input, input.rows), AllNodes(input, input.rows), AllEdges(input, input.rows))
  }

  // ---------------------------------------------------------------- lists of calls

  lemma SpecsConcat(input: Input, subjectId: string, target: string, a: seq<Spec>, b: seq<Spec>)
    ensures NodesOf(input, subjectId, target, a + b) == NodesOf(input, subjectId, target, a) + NodesOf(input, subjectId, target, b)
    ensures EdgesOf(input, subjectId, a + b) == EdgesOf(input, subjectId, a) + EdgesOf(input, subjectId, b)
    ensures IdsOf(input, subjectId, a + b) == IdsOf(input, subjectId, a) + IdsOf(input, subjectId, b)
  {
    hide NodeOf, EdgeOf, NodeId;
  }

  lemma NoSpecs(input: Input, subjectId: string, target: string)
    ensures NodesOf(input, subjectId, target, []) == [] && EdgesOf(input, subjectId, []) == [] && IdsOf(input, subjectId, []) == []
  {
  }

  lemma OneSpec(input: Input, subjectId: string, target: string, s: Spec)
    ensures NodesOf(input, subjectId, target, [s]) == [NodeOf(input, subjectId, target, s)]
    ensures EdgesOf(input, subjectId, [s]) == [EdgeOf(input, subjectId, s)]
    ensures IdsOf(input, subjectId, [s]) == [NodeId(input, subjectId, s.role, s.path)]
  {
    hide NodeOf, EdgeOf, NodeId;
  }

  /** `file_measurement`: nothing is measured without an input tree, nor where there is no file. */
  method Measure(tree: Option<Tree>, path: string, sha: Bytes -> string) returns (m: Measurement)
    ensures m == MeasureFile(tree, path, sha)
  {
    hide FileAt;
    m := Measurement(None, None);
    if tree.Some? {
      var file := FileAt(tree.value, path);
      if file.Some? {
        m := Measurement(Some(sha(file.value)), Some(|file.value|));
      }
    }
  }

  /** `artifact_ref` */
  method FindArtifact(artifacts: seq<Bound>, target: string, name: string) returns (ref: Option<Bound>)
    ensures ref == ArtifactRef(artifacts, target, name)
  {
    for i := 0 to |artifacts|
      invariant ArtifactRef(artifacts, target, name) == ArtifactRef(artifacts[i..], target, name)
    {
      assert artifacts[i..][0] == artifacts[i] && artifacts[i..][1..] == artifacts[i + 1..];
      if artifacts[i].artifact == name && artifacts[i].target == target {
        return Some(artifacts[i]);
      }
    }
    ref := None;
  }

  /** The subject whose evidence is appended: its id, its target, and whether the profile is that of a production candidate. */
  datatype Scope = Scope(id: string, target: string, production: bool)

  /** The two lists that `append_evidence_node` grows in place, and the ids of the current row. */
  class Evidence {
    var nodes: seq<Node>
    var edges: seq<Edge>
    var required: seq<string>
    ghost var nodesBefore: seq<Node>
    ghost var edgesBefore: seq<Edge>
    ghost var calls: seq<Spec>

    constructor ()
      ensures nodes == [] && edges == []
    {
      nodes, edges, required := [], [], [];
      nodesBefore, edgesBefore, calls := [], [], [];
    }

    /** Since the row began, the lists have grown by these calls. */
    ghost predicate Grown(input: Input, c: Scope)
      reads this
    {
      && nodes == nodesBefore + NodesOf(input, c.id, c.target, calls) && edges == edgesBefore + EdgesOf(input, c.id, calls)
      && required == IdsOf(input, c.id, calls)
    }

    method Begin(input: Input, c: Scope)
      modifies this
      ensures Grown(input, c) && nodes == old(nodes) == nodesBefore && edges == old(edges) == edgesBefore && calls == []
    {
      NoSpecs(input, c.id, c.target);
      nodesBefore, edgesBefore, calls := nodes, edges, [];
      required := [];
    }

    /** `append_evidence_node` */
    method Append(input: Input, c: Scope, s: Spec)
      requires Grown(input, c)
      modifies this
      ensures Grown(input, c) && calls == old(calls) + [s]
      ensures nodes == old(nodes) + [NodeOf(input, c.id, c.target, s)] && edges == old(edges) + [EdgeOf(input, c.id, s)]
      ensures nodesBefore == old(nodesBefore) && edgesBefore == old(edgesBefore)
    {
      SpecsConcat(input, c.id, c.target, calls, [s]);
      OneSpec(input, c.id, c.target, s);
      var id := "evidence-node:" + input.shortSha(c.id + "|" + s.role + "|" + s.path);
      nodes := nodes + [Node(id, c.id, c.target, s.role, s.path, s.schemaRole, s.schemaVersion, s.required, s.producer, s.measured)];
      edges := edges + [Edge(c.id, id, if s.required then "requires" else "observes", s.role)];
      required := required + [id];
      calls := calls + [s];
    }

    /** The call for a file of the input tree, with the default producer. */
    method AppendFile(input: Input, c: Scope, role: string, path: string, schemaRole: string, schemaVersion: string, needed: bool)
      requires Grown(input, c)
      modifies this
      ensures Grown(input, c) && calls == old(calls) + [FileSpec(input, role, path, schemaRole, schemaVersion, needed)]
      ensures nodesBefore == old(nodesBefore) && edgesBefore == old(edgesBefore)
    {
      hide NodesOf, EdgesOf, IdsOf, MeasureFile;
      var measured := Measure(input.tree, path, input.sha);
      Append(input, c, Spec(role, path, schemaRole, schemaVersion, needed, measured, "ci/evidence-contract.yml"));
    }

    method AppendBinding(input: Input, c: Scope)
      requires Grown(input, c)
      modifies this
      ensures Grown(input, c) && calls == old(calls) + [BindingSpec(input)]
      ensures nodesBefore == old(nodesBefore) && edgesBefore == old(edgesBefore)
    {
      hide NodesOf, EdgesOf, IdsOf, MeasureFile;
      var path := "release-inputs" + "/" + input.binding.version + "/" + (input.binding.profile + ".json");
      var measured := Measure(input.tree, path, input.sha);
      Append(input, c, Spec("release-input-binding", path, "binding_manifest", "suderra.release-input-binding.v2", true, measured,
                            "prepare-release-inputs.py"));
    }

    method AppendArtifact(input: Input, c: Scope, role: string, ref: Option<Bound>)
      requires Grown(input, c) && c.production == IsProduction(input)
      modifies this
      ensures Grown(input, c) && calls == old(calls) + ArtifactSpecs(input, role, ref)
      ensures nodesBefore == old(nodesBefore) && edgesBefore == old(edgesBefore)
    {
      hide NodesOf, EdgesOf, IdsOf, IsProduction;
      assert calls + [] == calls;
      if ref.None? {
        return;
      }
      var path := ref.value.path;
      if path.Some? && PosixPath.IsSafe(path.value) {
        Append(input, c, Spec(role, PosixPath.AsPosix(path.value), "build_artifact", "sha256-digest", c.production,
                              Measurement(ref.value.sha256, ref.value.bytes), "ci/build-matrix.yml"));
      }
    }

    method AppendRuntime(input: Input, c: Scope, policy: Policy, suites: seq<string>)
      requires Grown(input, c) && c.production == IsProduction(input)
      modifies this
      ensures Grown(input, c) && calls == old(calls) + RuntimeSpecs(input, policy, suites)
      ensures nodesBefore == old(nodesBefore) && edgesBefore == old(edgesBefore)
    {
      hide NodesOf, EdgesOf, IdsOf, IsProduction, FileSpec, RuntimeSpecs;
      ghost var all := old(calls) + RuntimeSpecs(input, policy, suites);
      for i := 0 to |suites|
        invariant Grown(input, c) && all == calls + RuntimeSpecs(input, policy, suites[i..])
        invariant nodesBefore == old(nodesBefore) && edgesBefore == old(edgesBefore)
      {
        RuntimeStep(input, policy, suites, i);
        Regroup(calls, RuntimeSpec(input, policy, suites[i]), RuntimeSpecs(input, policy, suites[i + 1..]));
        var path := "release-runtime" + "/" + input.binding.version + "/" + suites[i] + "/" + "production-runtime.json";
        AppendFile(input, c, "runtime-suite", path, "production_runtime_suite", input.contract.schemaVersion("production_runtime_suite"),
                   c.production && policy.runtimeRequired);
      }
      NoSuites(input, policy, suites, suites);
    }

    method AppendScans(input: Input, c: Scope, policy: Policy, scans: seq<string>)
      requires Grown(input, c) && c.production == IsProduction(input)
      modifies this
      ensures Grown(input, c) && calls == old(calls) + if policy.scanRequired then ScanSpecs(input, scans) else []
      ensures nodesBefore == old(nodesBefore) && edgesBefore == old(edgesBefore)
    {
      hide NodesOf, EdgesOf, IdsOf, IsProduction, FileSpec, ScanSpecs;
      if !policy.scanRequired {
        return;
      }
      ghost var all := old(calls) + ScanSpecs(input, scans);
      for i := 0 to |scans|
        invariant Grown(input, c) && all == calls + ScanSpecs(input, scans[i..])
        invariant nodesBefore == old(nodesBefore) && edgesBefore == old(edgesBefore)
      {
        ScanStep(input, scans, i);
        Regroup(calls, ScanSpec(input, scans[i]), ScanSpecs(input, scans[i + 1..]));
        var path := "release-security" + "/" + input.binding.version + "/" + (scans[i] + ".json");
        AppendFile(input, c, "scanner-native-report", path, "release_security_report", input.contract.schemaVersion("release_security_report"),
                   c.production);
      }
      NoSuites(input, policy, scans, scans);
    }

    method AppendSigning(input: Input, c: Scope, policy: Policy)
      requires Grown(input, c) && c.production == IsProduction(input)
      modifies this
      ensures Grown(input, c) && calls == old(calls) + if policy.signingRequired then SigningSpecs(input, c.target) else []
      ensures nodesBefore == old(nodesBefore) && edgesBefore == old(edgesBefore)
    {
      hide NodesOf, EdgesOf, IdsOf, FileSpec, IsProduction;
      if policy.signingRequired {
        AppendFile(input, c, "signing-manifest", "release-signing" + "/" + input.binding.version + "/" + c.target + "/" + "signing-manifest.json",
                   "signing_manifest", input.contract.schemaVersion("signing_manifest"), c.production);
      }
    }

    method AppendOta(input: Input, c: Scope, policy: Policy)
      requires Grown(input, c) && c.production == IsProduction(input)
      modifies this
      ensures Grown(input, c) && calls == old(calls) + if policy.otaCapable then OtaSpecs(input, c.target) else []
      ensures nodesBefore == old(nodesBefore) && edgesBefore == old(edgesBefore)
    {
      hide NodesOf, EdgesOf, IdsOf, FileSpec, IsProduction;
      if policy.otaCapable {
        AppendFile(input, c, "ota-artifacts", "release-ota" + "/" + input.binding.version + "/" + c.target + "/" + "ota-artifacts.json",
                   "ota_artifacts", input.contract.schemaVersion("ota_artifacts"), c.production);
      }
    }

    method AppendHardware(input: Input, c: Scope, policy: Policy)
      requires Grown(input, c) && c.production == IsProduction(input)
      modifies this
      ensures Grown(input, c) && calls == old(calls) + if policy.hardwareRequired then HardwareSpecs(input, c.target) else []
      ensures nodesBefore == old(nodesBefore) && edgesBefore == old(edgesBefore)
    {
      hide NodesOf, EdgesOf, IdsOf, FileSpec, IsProduction;
      var version := input.binding.version;
      if policy.hardwareRequired {
        AppendFile(input, c, "hardware-subject", "release-lab-input" + "/" + version + "/" + c.target + "/" + "hardware-subject.json",
                   "hardware_subject", input.contract.schemaVersion("hardware_subject"), c.production);
        AppendFile(input, c, "station-registry", "release-governance" + "/" + version + "/" + "station-registry.json",
                   "lab_station_registry", "suderra.lab-station-registry.v1", c.production);
      }
    }

    method AppendGates(input: Input, c: Scope, policy: Policy)
      requires Grown(input, c) && c.production == IsProduction(input)
      modifies this
      ensures Grown(input, c) && calls == old(calls) + if policy.productionGate then GateSpecs(input, c.target) else []
      ensures nodesBefore == old(nodesBefore) && edgesBefore == old(edgesBefore)
    {
      hide NodesOf, EdgesOf, IdsOf, FileSpec, IsProduction;
      if !policy.productionGate {
        return;
      }
      var version := input.binding.version;
      AppendFile(input, c, "governance-role-bindings", "release-governance" + "/" + version + "/" + "role-bindings.json",
                 "governance_role_bindings", input.contract.schemaVersion("governance_role_bindings"), c.production);
      AppendFile(input, c, "governance-snapshot", "release-governance" + "/" + version + "/" + "governance-policy-validation.json",
                 "github_governance_validation", "suderra.github-governance-validation.v2", c.production);
      AppendFile(input, c, "reproducibility", "release-reproducibility" + "/" + version + "/" + (c.target + ".json"),
                 "reproducibility", "suderra.reproducibility.v1", true);
      if c.production {
        AppendFile(input, c, "retention-manifest", "release-retention" + "/" + version + "/" + "retention-manifest.json",
                   "retention_manifest", input.contract.schemaVersion("retention_manifest"), true);
      }
    }

    method AppendArtifacts(input: Input, c: Scope, raw: Option<Bound>, compressed: Option<Bound>)
      requires c.production == IsProduction(input)
      modifies this
      ensures Grown(input, c) && nodesBefore == old(nodes) && edgesBefore == old(edges)
      ensures calls == [BindingSpec(input)] + ArtifactSpecs(input, "raw-image", raw) + ArtifactSpecs(input, "compressed-release-artifact", compressed)
    {
      hide Grown, IsProduction, BindingSpec, ArtifactSpecs;
      Begin(input, c);
      AppendBinding(input, c);
      assert calls == [BindingSpec(input)];
      AppendArtifact(input, c, "raw-image", raw);
      AppendArtifact(input, c, "compressed-release-artifact", compressed);
    }

    /** The calls for one row, in the order of the source. */
    method AppendRow(input: Input, c: Scope, row: Row, raw: Option<Bound>, compressed: Option<Bound>)
      requires Covered(input, row) && c.target == row.target.value && c.production == IsProduction(input)
      requires raw == RawRef(input, row, c.target) && compressed == CompressedRef(input, row, c.target)
      modifies this
      ensures Grown(input, c) && calls == Specs(input, row) && nodesBefore == old(nodes) && edgesBefore == old(edges)
    {
      hide Grown, IsProduction, RawRef, CompressedRef, BindingSpec, ArtifactSpecs, RuntimeSpecs, SigningSpecs, HardwareSpecs,
           ScanSpecs, OtaSpecs, GateSpecs, Covered, Specs;
      CoveredHasTarget(input, row);
      var policy := input.contract.policies[c.target];
      AppendArtifacts(input, c, raw, compressed);
      var suites: seq<string> := [];
      if c.target in input.contract.suites {
        suites := input.contract.suites[c.target];
      }
      AppendRuntime(input, c, policy, suites);
      AppendSigning(input, c, policy);
      AppendHardware(input, c, policy);
      AppendScans(input, c, policy, input.scans);
      AppendOta(input, c, policy);
      AppendGates(input, c, policy);
      SpecsAre(input, row);
    }
  }

  lemma SpecsAre(input: Input, row: Row)
    requires Covered(input, row)
    ensures var target := row.target.value; var policy := input.contract.policies[target];
            Specs(input, row)
            == [BindingSpec(input)] + ArtifactSpecs(input, "raw-image", RawRef(input, row, target))
               + ArtifactSpecs(input, "compressed-release-artifact", CompressedRef(input, row, target))
               + RuntimeSpecs(input, policy, SuitesFor(input.contract, target))
               + (if policy.signingRequired then SigningSpecs(input, target) else [])
               + (if policy.hardwareRequired then HardwareSpecs(input, target) else [])
               + (if policy.scanRequired then ScanSpecs(input, input.scans) else [])
               + (if policy.otaCapable then OtaSpecs(input, target) else [])
               + (if policy.productionGate then GateSpecs(input, target) else [])
  {
  }

  lemma RuntimeStep(input: Input, policy: Policy, suites: seq<string>, i: nat)
    requires i < |suites|
    ensures RuntimeSpecs(input, policy, suites[i..]) == [RuntimeSpec(input, policy, suites[i])] + RuntimeSpecs(input, policy, suites[i + 1..])
  {
    hide RuntimeSpec;
    assert suites[i..][1..] == suites[i + 1..];
  }

  lemma ScanStep(input: Input, scans: seq<string>, i: nat)
    requires i < |scans|
    ensures ScanSpecs(input, scans[i..]) == [ScanSpec(input, scans[i])] + ScanSpecs(input, scans[i + 1..])
  {
    hide ScanSpec;
    assert scans[i..][1..] == scans[i + 1..];
  }

  lemma NoSuites(input: Input, policy: Policy, suites: seq<string>, scans: seq<string>)
    ensures RuntimeSpecs(input, policy, suites[|suites|..]) == [] && ScanSpecs(input, scans[|scans|..]) == []
  {
  }

  lemma Regroup(a: seq<Spec>, s: Spec, c: seq<Spec>)
    ensures a + ([s] + c) == (a + [s]) + c
  {
  }

  /** Does the row get a subject? The two artifacts found for it. */
  method Cover(input: Input, row: Row) returns (covered: bool, raw: Option<Bound>, compressed: Option<Bound>)
    ensures covered <==> Covered(input, row)
    ensures covered ==> raw == RawRef(input, row, row.target.value) && compressed == CompressedRef(input, row, row.target.value)
  {
    hide ArtifactRef;
    covered, raw, compressed := false, None, None;
    if row.target.None? {
      return;
    }
    var target := row.target.value;
    if target !in input.contract.policies {
      return;
    }
    var policy := input.contract.policies[target];
    if !(policy.productionGate || policy.releasePublic) {
      return;
    }
    var artifact := if row.artifact.Some? then row.artifact.value else "None";
    var release := if row.releaseArtifact.Some? then row.releaseArtifact.value else "None";
    raw := FindArtifact(input.binding.artifacts, target, artifact);
    compressed := FindArtifact(input.binding.artifacts, target, release);
    if compressed.None? {
      compressed := FindArtifact(input.binding.artifacts, target, artifact + ".xz");
    }
    var profile := input.binding.profile;
    var strict := profile in input.contract.strict && input.contract.strict[profile];
    covered := !(strict && profile != "production-candidate" && !row.release && (raw.None? || compressed.None?));
  }

  method SubjectGraphPayload(input: Input) returns (graph: Graph)
    ensures graph == GraphOf(input)
  {
    hide Covered, Specs, NodesOf, EdgesOf, IdsOf, RawRef, CompressedRef, SubjectId;
    var evidence := new Evidence();
    var b := input.binding;
    var subjects: seq<Subject> := [];
    for i := 0 to |input.rows|
      invariant subjects == AllSubjects(input, input.rows[..i])
      invariant evidence.nodes == AllNodes(input, input.rows[..i])
      invariant evidence.edges == AllEdges(input, input.rows[..i])
    {
      assert input.rows[..i + 1][..i] == input.rows[..i];
      var row := input.rows[i];
      var covered, raw, compressed := Cover(input, row);
      if !covered {
        continue;
      }
      CoveredHasTarget(input, row);
      var target := row.target.value;
      var id := SubjectId(input.contract.template, b.version, target, b.sourceSha, b.runId);
      evidence.AppendRow(input, Scope(id, target, b.profile == "production-candidate"), row, raw, compressed);
      var rawImage := Artifact(row.artifact, None, None);
      if raw.Some? {
        rawImage := rawImage.(sha256 := raw.value.sha256, bytes := raw.value.bytes);
      }
      var packed := Artifact(row.releaseArtifact, None, None);
      if compressed.Some? {
        packed := packed.(sha256 := compressed.value.sha256, bytes := compressed.value.bytes);
      }
      subjects := subjects + [Subject(id, b.version, b.profile, target, row.name, b.sourceSha, b.runId, b.runAttempt, rawImage, packed,
                                      Sorting.Sort(evidence.required, Less))];
    }
    assert input.rows[..|input.rows|] == input.rows;
    graph := Graph(input.contract.schemaVersion("release_subject_graph"), b.version, b.profile, b.sourceSha, b.runId, b.runAttempt,
                   SortSubjects(subjects), SortNodes(evidence.nodes), SortEdges(evidence.edges),
                   set n | n in evidence.nodes && n.required :: n.path,
                   Some(Retention(input.contract.retentionPolicy, input.contract.requiredExports)));
  }

  lemma CoveredHasTarget(input: Input, row: Row)
    requires Covered(input, row)
    ensures row.target.Some? && row.target.value in input.contract.policies
  {
  }
}
