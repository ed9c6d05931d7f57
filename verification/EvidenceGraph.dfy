/** The release subject graph, the evidence contract it is built from, and the files it measures. */
module EvidenceGraph {
  import opened PyText
  import opened Hashing
  import PosixPath

  // ---------------------------------------------------------------- contract

  /** A target's policy; `ci/evidence-contract.yml` requires the flags to be booleans. */
  datatype Policy = Policy(productionGate: bool, releasePublic: bool, runtimeRequired: bool, signingRequired: bool,
                           hardwareRequired: bool, scanRequired: bool, otaCapable: bool)

  /** A piece of `subject_id_template`. */
  datatype Piece = Literal(text: string) | Version | Target | SourceSha | RunId

  datatype Contract = Contract(
    policies: map<string, Policy>, suites: map<string, seq<string>>, strict: map<string, bool>,
    template: seq<Piece>, schemaVersion: string -> string, retentionPolicy: string, requiredExports: seq<string>)

  function FillPiece(p: Piece, version: string, target: string, sourceSha: string, runId: string): string {
    match p
    case Literal(text) => text
    case Version => version
    case Target => target
    case SourceSha => sourceSha
    case RunId => runId
  }

  /** `template.format(...)` */
  function SubjectId(template: seq<Piece>, version: string, target: string, sourceSha: string, runId: string): string {
    if template == [] then []
    else FillPiece(template[0], version, target, sourceSha, runId) + SubjectId(template[1..], version, target, sourceSha, runId)
  }

  function SuitesFor(contract: Contract, target: string): seq<string> {
    if target in contract.suites then contract.suites[target] else []
  }

  lemma {:induction false} SubjectIdGrows(template: seq<Piece>, version: string, a: string, b: string, sourceSha: string, runId: string)
    requires |a| <= |b|
    ensures |SubjectId(template, version, a, sourceSha, runId)| <= |SubjectId(template, version, b, sourceSha, runId)|
    ensures |a| < |b| && Target in template ==>
              |SubjectId(template, version, a, sourceSha, runId)| < |SubjectId(template, version, b, sourceSha, runId)|
  {
    if template != [] {
      SubjectIdGrows(template[1..], version, a, b, sourceSha, runId);
    }
  }

  /** Distinct targets get distinct subject ids, since the template names the target. */
  lemma {:induction false} SubjectIdsDiffer(template: seq<Piece>, version: string, a: string, b: string, sourceSha: string, runId: string)
    requires Target in template && a != b
    ensures SubjectId(template, version, a, sourceSha, runId) != SubjectId(template, version, b, sourceSha, runId)
  {
    if |a| < |b| {
      SubjectIdGrows(template, version, a, b, sourceSha, runId);
    } else if |b| < |a| {
      SubjectIdGrows(template, version, b, a, sourceSha, runId);
    } else {
      var head := |FillPiece(template[0], version, a, sourceSha, runId)|;
      var idA, idB := SubjectId(template, version, a, sourceSha, runId), SubjectId(template, version, b, sourceSha, runId);
      if template[0] == Target {
        assert idA[..head] == a && idB[..head] == b;
      } else {
        SubjectIdsDiffer(template[1..], version, a, b, sourceSha, runId);
        assert idA[head..] == SubjectId(template[1..], version, a, sourceSha, runId);
        assert idB[head..] == SubjectId(template[1..], version, b, sourceSha, runId);
      }
    }
  }

  // ---------------------------------------------------------------- graph

  datatype Measurement = Measurement(sha256: Option<string>, bytes: Option<int>)

  datatype Node = Node(id: string, subjectId: string, target: string, role: string, path: string, schemaRole: string,
                       schemaVersion: string, required: bool, producer: string, measured: Measurement)

  datatype Edge = Edge(source: string, to: string, relationship: string, role: string)

  datatype Artifact = Artifact(name: Option<string>, sha256: Option<string>, bytes: Option<int>)

  datatype Subject = Subject(id: string, version: string, profile: string, target: string, defconfig: Option<string>,
                             sourceSha: string, runId: string, runAttempt: string,
                             rawImage: Artifact, compressed: Artifact, requiredNodes: seq<string>)

  datatype Retention = Retention(policyId: string, exports: seq<string>)

  datatype Graph = Graph(schemaVersion: string, version: string, profile: string, sourceSha: string, runId: string,
                         runAttempt: string, subjects: seq<Subject>, nodes: seq<Node>, edges: seq<Edge>,
                         requiredPaths: set<string>, retention: Option<Retention>)

  // ---------------------------------------------------------------- values

  predicate IsPlaceholder(value: string) {
    Strip(value) in {"", "TODO", "TBD", "TO_BE_COLLECTED", "PLACEHOLDER", "not_collected", "NOT_COLLECTED", "pending", "PENDING"}
  }

  /** `safe_relative_path(path)` as its posix form; None where the source returns None. */
  function SafePath(path: string): Option<string> {
    if IsPlaceholder(path) || !PosixPath.IsSafe(path) then None else Some(PosixPath.AsPosix(path))
  }

  // ---------------------------------------------------------------- files

  /** A directory tree by normalised relative path. */
  type Tree = map<string, Bytes>

  /** The file at a relative path below the root of `tree`. */
  function FileAt(tree: Tree, path: string): Option<Bytes> {
    var key := PosixPath.AsPosix(path);
    if !("/" <= path) && ".." !in PosixPath.Parts(path) && key in tree then Some(tree[key]) else None
  }

  /** `file_measurement` */
  function MeasureFile(tree: Option<Tree>, path: string, sha: Bytes -> string): Measurement {
    var file := if tree.Some? then FileAt(tree.value, path) else None;
    if file.Some? then Measurement(Some(sha(file.value)), Some(|file.value|)) else Measurement(None, None)
  }
}
