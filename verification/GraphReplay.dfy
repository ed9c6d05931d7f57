/** Slicing the subject graph into one plan per target, and the replay that compares plans with the graph. */
module GraphReplay {
  import opened PyText
  import opened Hashing
  import opened EvidenceGraph
  import Sorting
  import SubjectGraph

  datatype Requirement = Requirement(nodeId: string, role: string, path: string, schemaRole: string, schemaVersion: string,
                                     required: Option<bool>)

  datatype Plan = Plan(schemaVersion: string, subjectId: string, version: string, profile: string, target: string,
                       defconfig: Option<string>, sourceSha: string, runId: string, runAttempt: string,
                       rawImage: Artifact, compressed: Artifact, requirements: seq<Requirement>,
                       nodes: seq<Node>, edges: seq<Edge>, retention: Option<Retention>)

  // ---------------------------------------------------------------- slicing

  function NodesFor(nodes: seq<Node>, subjectId: string): seq<Node> {
    if nodes == [] then []
    else (if nodes[0].subjectId == subjectId then [nodes[0]] else []) + NodesFor(nodes[1..], subjectId)
  }

  function EdgesFor(edges: seq<Edge>, subjectId: string): seq<Edge> {
    if edges == [] then []
    else (if edges[0].source == subjectId then [edges[0]] else []) + EdgesFor(edges[1..], subjectId)
  }

  function RequirementsOf(nodes: seq<Node>): (r: seq<Requirement>)
    ensures |r| == |nodes|
    ensures forall i :: 0 <= i < |nodes| ==>
              r[i] == Requirement(nodes[i].id, nodes[i].role, nodes[i].path, nodes[i].schemaRole, nodes[i].schemaVersion,
                                  Some(nodes[i].required))
  {
    seq(|nodes|, i requires 0 <= i < |nodes| =>
      Requirement(nodes[i].id, nodes[i].role, nodes[i].path, nodes[i].schemaRole, nodes[i].schemaVersion, Some(nodes[i].required)))
  }

  function SliceNodes(graph: Graph, subjectId: string): seq<Node> {
    Sorting.Sort(NodesFor(graph.nodes, subjectId),
                 (a: Node, b: Node) => SubjectGraph.Less3((a.role, a.path, a.id), (b.role, b.path, b.id)))
  }

  function SliceEdges(graph: Graph, subjectId: string): seq<Edge> {
    Sorting.Sort(EdgesFor(graph.edges, subjectId),
                 (a: Edge, b: Edge) => Less(a.role, b.role) || (a.role == b.role && Less(a.to, b.to)))
  }

  /** `subject_plan_from_graph_subject` */
  function Slice(graph: Graph, s: Subject): Plan {
    Plan(graph.schemaVersion, s.id, s.version, s.profile, s.target, s.defconfig, s.sourceSha, s.runId, s.runAttempt,
         s.rawImage, s.compressed, RequirementsOf(SliceNodes(graph, s.id)), SliceNodes(graph, s.id), SliceEdges(graph, s.id),
         graph.retention)
  }

  function Slices(graph: Graph): (r: seq<Plan>)
    ensures |r| == |graph.subjects| && forall i :: 0 <= i < |r| ==> r[i] == Slice(graph, graph.subjects[i])
  {
    seq(|graph.subjects|, i requires 0 <= i < |graph.subjects| => Slice(graph, graph.subjects[i]))
  }

  // ---------------------------------------------------------------- canonical forms

  /** `_graph_subjects_by_target`: of several subjects with one target, the last. */
  function SubjectAt(subjects: seq<Subject>, target: string): Option<Subject> {
    if subjects == [] then None
    else if subjects[|subjects| - 1].target == target then Some(subjects[|subjects| - 1])
    else SubjectAt(subjects[..|subjects| - 1], target)
  }

  function Targets(subjects: seq<Subject>): set<string> {
    set s | s in subjects :: s.target
  }

  function ArtifactIdentity(a: Artifact): Option<(string, int)> {
    if a.sha256.Some? && IsRealSha256(a.sha256.value) && a.bytes.Some? && a.bytes.value > 0
    then Some((a.sha256.value, a.bytes.value)) else None
  }

  datatype CanonicalNode = CanonicalNode(subjectId: string, target: string, role: string, path: string, schemaRole: string,
                                         schemaVersion: string, required: bool, sha256: string, bytes: Option<int>)

  function DigestText(n: Node): string {
    if n.measured.sha256.Some? then n.measured.sha256.value else []
  }

  /** `_canonical_evidence_node`; None is a failure. */
  function Canonical(n: Node): Option<CanonicalNode> {
    if SafePath(n.path).None? then None
    else if DigestText(n) != [] && !IsRealSha256(DigestText(n)) then None
    else if n.measured.bytes.Some? && n.measured.bytes.value <= 0 then None
    else Some(CanonicalNode(n.subjectId, n.target, n.role, SafePath(n.path).value, n.schemaRole, n.schemaVersion, n.required,
                            DigestText(n), n.measured.bytes))
  }

  /** No failure: every node has a canonical form, and neither ids nor canonical forms repeat. */
  predicate CleanNodes(nodes: seq<Node>) {
    && (forall i :: 0 <= i < |nodes| ==> Canonical(nodes[i]).Some?)
    && forall i, j :: 0 <= i < j < |nodes| ==> nodes[i].id != nodes[j].id && Canonical(nodes[i]) != Canonical(nodes[j])
  }

  function CanonicalSet(nodes: seq<Node>): set<CanonicalNode> {
    set n | n in nodes && Canonical(n).Some? :: Canonical(n).value
  }

  predicate GoodEdge(e: Edge) {
    e.source != [] && e.to != [] && e.relationship != [] && e.role != []
  }

  predicate CleanEdges(edges: seq<Edge>) {
    (forall i :: 0 <= i < |edges| ==> GoodEdge(edges[i])) && Sorting.NoRepeats(edges)
  }

  function EdgeSet(edges: seq<Edge>): set<Edge> {
    set e | e in edges && GoodEdge(e)
  }

  datatype Required = Required(subjectId: string, target: string, role: string, path: string, required: bool)

  /** `_required_evidence_from_nodes`: nodes without a safe path are passed over. */
  function RequiredOfNodes(nodes: seq<Node>): set<Required> {
    set n | n in nodes && SafePath(n.path).Some? :: Required(n.subjectId, n.target, n.role, SafePath(n.path).value, n.required)
  }

  function RequiredOfItem(r: Requirement, subjectId: string, target: string): Required
    requires SafePath(r.path).Some?
  {
    Required(subjectId, target, r.role, SafePath(r.path).value, if r.required.None? then true else r.required.value)
  }

  predicate SafeRequirements(rs: seq<Requirement>) {
    forall i :: 0 <= i < |rs| ==> SafePath(rs[i].path).Some?
  }

  function RequiredOfPlan(p: Plan): set<Required> {
    set r | r in p.requirements && SafePath(r.path).Some? :: RequiredOfItem(r, p.subjectId, p.target)
  }

  // ---------------------------------------------------------------- the verdict

  predicate SameIdentity(s: Subject, p: Plan) {
    && s.id == p.subjectId && s.target == p.target && SubjectGraph.Str(s.defconfig) == SubjectGraph.Str(p.defconfig)
    && s.sourceSha == p.sourceSha && s.runId == p.runId
    && ArtifactIdentity(s.rawImage) == ArtifactIdentity(p.rawImage)
    && ArtifactIdentity(s.compressed) == ArtifactIdentity(p.compressed)
  }

  predicate SameRetention(graph: Graph, p: Plan) {
    && p.retention.Some?
    && (graph.retention.Some? ==>
          p.retention.value.policyId == graph.retention.value.policyId
          && multiset(p.retention.value.exports) == multiset(graph.retention.value.exports))
  }

  predicate SameRequirements(nodes: seq<Node>, p: Plan) {
    SafeRequirements(p.requirements) && RequiredOfPlan(p) != {} && RequiredOfNodes(nodes) == RequiredOfPlan(p)
  }

  predicate SameNodes(nodes: seq<Node>, p: Plan) {
    p.nodes != [] && CleanNodes(nodes) && CleanNodes(p.nodes) && CanonicalSet(nodes) == CanonicalSet(p.nodes)
  }

  predicate SameEdges(edges: seq<Edge>, p: Plan) {
    CleanEdges(edges) && CleanEdges(p.edges) && EdgeSet(edges) == EdgeSet(p.edges)
  }

  predicate Agrees(graph: Graph, p: Plan) {
    var s := SubjectAt(graph.subjects, p.target);
    s.Some? && SameIdentity(s.value, p) && SameRetention(graph, p)
    && SameRequirements(NodesFor(graph.nodes, p.subjectId), p) && SameNodes(NodesFor(graph.nodes, p.subjectId), p)
    && SameEdges(EdgesFor(graph.edges, p.subjectId), p)
  }

  function PlanTargets(plans: seq<Plan>): set<string> {
    set p | p in plans :: p.target
  }

  /** The replay finds nothing to complain about. */
  predicate Replayed(graph: Graph, plans: seq<Plan>) {
    && graph.retention.Some?
    && (forall i :: 0 <= i < |plans| ==> Agrees(graph, plans[i]))
    && PlanTargets(plans) == Targets(graph.subjects)
  }

  // ---------------------------------------------------------------- the replay loops

  method CanonicalNodes(nodes: seq<Node>) returns (records: set<CanonicalNode>, failures: seq<string>)
    ensures failures == [] <==> CleanNodes(nodes)
    ensures records == CanonicalSet(nodes)
  {
    hide Canonical;
    records, failures := {}, [];
    var seen: set<string> := {};
    for i := 0 to |nodes|
      invariant failures == [] <==> CleanNodes(nodes[..i])
      invariant records == CanonicalSet(nodes[..i])
      invariant seen == set n | n in nodes[..i] :: n.id
    {
      var front := nodes[..i];
      assert nodes[..i + 1] == front + [nodes[i]];
      CleanStep(front, nodes[i]);
      if nodes[i].id in seen {
        failures := failures + ["duplicate node id"];
      }
      seen := seen + {nodes[i].id};
      var record := Canonical(nodes[i]);
      if record.None? {
        failures := failures + ["not a canonical evidence node"];
        continue;
      }
      if record.value in records {
        failures := failures + ["duplicate canonical evidence node"];
      }
      records := records + {record.value};
    }
    assert nodes[..|nodes|] == nodes;
  }

  lemma CleanStep(front: seq<Node>, n: Node)
    ensures CleanNodes(front + [n]) <==>
            CleanNodes(front) && Canonical(n).Some? && n.id !in (set m | m in front :: m.id) && Canonical(n).value !in CanonicalSet(front)
    ensures CanonicalSet(front + [n]) == CanonicalSet(front) + if Canonical(n).Some? then {Canonical(n).value} else {}
  {
    hide Canonical;
    var all := front + [n];
    assert all[|front|] == n;
    assert forall i :: 0 <= i < |front| ==> all[i] == front[i] && front[i] in front;
    if CleanNodes(front) && Canonical(n).Some? && n.id !in (set m | m in front :: m.id) && Canonical(n).value !in CanonicalSet(front) {
      assert CleanNodes(all);
    }
  }

  method CanonicalEdges(edges: seq<Edge>) returns (records: set<Edge>, failures: seq<string>)
    ensures failures == [] <==> CleanEdges(edges)
    ensures records == EdgeSet(edges)
  {
    hide GoodEdge;
    records, failures := {}, [];
    for i := 0 to |edges|
      invariant failures == [] <==> CleanEdges(edges[..i])
      invariant records == EdgeSet(edges[..i])
    {
      assert edges[..i + 1] == edges[..i] + [edges[i]];
      CleanEdgeStep(edges[..i], edges[i]);
      if !GoodEdge(edges[i]) {
        failures := failures + ["from, to, relationship, and role are required"];
        continue;
      }
      if edges[i] in records {
        failures := failures + ["duplicate canonical evidence edge"];
      }
      records := records + {edges[i]};
    }
    assert edges[..|edges|] == edges;
  }

  lemma CleanEdgeStep(front: seq<Edge>, e: Edge)
    ensures CleanEdges(front + [e]) <==> CleanEdges(front) && GoodEdge(e) && e !in EdgeSet(front)
    ensures EdgeSet(front + [e]) == EdgeSet(front) + if GoodEdge(e) then {e} else {}
  {
    hide GoodEdge;
    var all := front + [e];
    assert all[|front|] == e;
    assert forall i :: 0 <= i < |front| ==> all[i] == front[i];
  }

  method ReplayRequirements(nodes: seq<Node>, p: Plan) returns (failures: seq<string>)
    ensures failures == [] <==> SameRequirements(nodes, p)
  {
    hide SafeRequirements, RequiredOfPlan, RequiredOfNodes;
    failures := [];
    if !SafeRequirements(p.requirements) {
      failures := failures + ["required_evidence.path: must be a safe relative path"];
    }
    if RequiredOfPlan(p) == {} {
      failures := failures + ["required_evidence must be non-empty"];
    }
    if RequiredOfNodes(nodes) != RequiredOfPlan(p) {
      failures := failures + ["required_evidence differs between graph and subject-plan"];
    }
  }

  method ReplayNodes(nodes: seq<Node>, p: Plan) returns (failures: seq<string>)
    ensures failures == [] <==> SameNodes(nodes, p)
  {
    hide CleanNodes, CanonicalSet;
    failures := [];
    if p.nodes == [] {
      failures := failures + ["evidence_nodes must be non-empty"];
    }
    var graphSet, more := CanonicalNodes(nodes);
    failures := failures + more;
    var planSet;
    planSet, more := CanonicalNodes(p.nodes);
    failures := failures + more;
    if graphSet != planSet {
      failures := failures + ["evidence_nodes differ between graph and subject-plan"];
    }
  }

  method ReplayEdges(edges: seq<Edge>, p: Plan) returns (failures: seq<string>)
    ensures failures == [] <==> SameEdges(edges, p)
  {
    hide CleanEdges, EdgeSet;
    var graphSet, more := CanonicalEdges(edges);
    failures := more;
    var planSet;
    planSet, more := CanonicalEdges(p.edges);
    failures := failures + more;
    if graphSet != planSet {
      failures := failures + ["evidence_edges differ between graph and subject-plan"];
    }
  }

  /** The comparison of the fields that identify a subject, and of its two artifacts. */
  method ReplayIdentity(s: Subject, p: Plan) returns (failures: seq<string>)
    ensures failures == [] <==> SameIdentity(s, p)
  {
    hide ArtifactIdentity, SubjectGraph.Str;
    failures := [];
    var fields := [(s.id, p.subjectId), (s.target, p.target), (SubjectGraph.Str(s.defconfig), SubjectGraph.Str(p.defconfig)),
                   (s.sourceSha, p.sourceSha), (s.runId, p.runId)];
    for i := 0 to |fields|
      invariant failures == [] <==> forall k :: 0 <= k < i ==> fields[k].0 == fields[k].1
    {
      if fields[i].0 != fields[i].1 {
        failures := failures + ["field must match subject-plan"];
      }
    }
    assert (forall k :: 0 <= k < |fields| ==> fields[k].0 == fields[k].1) <==>
           fields[0].0 == fields[0].1 && fields[1].0 == fields[1].1 && fields[2].0 == fields[2].1
           && fields[3].0 == fields[3].1 && fields[4].0 == fields[4].1;
    var artifacts := [(s.rawImage, p.rawImage), (s.compressed, p.compressed)];
    for i := 0 to |artifacts|
      invariant failures == [] <==> (forall k :: 0 <= k < |fields| ==> fields[k].0 == fields[k].1)
                                    && forall k :: 0 <= k < i ==> ArtifactIdentity(artifacts[k].0) == ArtifactIdentity(artifacts[k].1)
    {
      if ArtifactIdentity(artifacts[i].0) != ArtifactIdentity(artifacts[i].1) {
        failures := failures + ["artifact must match subject-plan"];
      }
    }
    assert (forall k :: 0 <= k < 2 ==> ArtifactIdentity(artifacts[k].0) == ArtifactIdentity(artifacts[k].1)) <==>
           ArtifactIdentity(artifacts[0].0) == ArtifactIdentity(artifacts[0].1)
           && ArtifactIdentity(artifacts[1].0) == ArtifactIdentity(artifacts[1].1);
  }

  method ReplayRetention(graph: Graph, p: Plan) returns (failures: seq<string>)
    ensures failures == [] <==> SameRetention(graph, p)
  {
    failures := [];
    if p.retention.None? {
      failures := failures + ["retention_closure must contain policy_id and required_exports"];
    } else if graph.retention.Some? {
      var own, other := graph.retention.value, p.retention.value;
      if own.policyId != other.policyId || multiset(own.exports) != multiset(other.exports) {
        failures := failures + ["retention_closure must match subject-plan"];
      }
    }
  }

  method ReplayPlan(graph: Graph, p: Plan) returns (failures: seq<string>)
    ensures failures == [] <==> Agrees(graph, p)
  {
    hide SameIdentity, SameRetention, SameRequirements, SameNodes, SameEdges;
    var s := SubjectAt(graph.subjects, p.target);
    if s.None? {
      return ["missing graph subject for subject-plan target"];
    }
    failures := ReplayIdentity(s.value, p);
    var more := ReplayRetention(graph, p);
    failures := failures + more;
    more := ReplayRequirements(NodesFor(graph.nodes, p.subjectId), p);
    failures := failures + more;
    more := ReplayNodes(NodesFor(graph.nodes, p.subjectId), p);
    failures := failures + more;
    more := ReplayEdges(EdgesFor(graph.edges, p.subjectId), p);
    failures := failures + more;
  }

  /** `replay_subject_graph_against_plans` */
  method Replay(graph: Graph, plans: seq<Plan>) returns (failures: seq<string>)
    ensures failures == [] <==> Replayed(graph, plans)
  {
    hide Agrees;
    failures := if graph.retention.Some? then [] else ["retention_closure must contain policy_id and required_exports"];
    var seen: set<string> := {};
    for i := 0 to |plans|
      invariant failures == [] <==> graph.retention.Some? && forall k :: 0 <= k < i ==> Agrees(graph, plans[k])
      invariant seen == PlanTargets(plans[..i])
    {
      assert plans[..i + 1] == plans[..i] + [plans[i]];
      seen := seen + {plans[i].target};
      var more := ReplayPlan(graph, plans[i]);
      failures := failures + more;
    }
    assert plans[..|plans|] == plans;
    if Targets(graph.subjects) - seen != {} {
      failures := failures + ["graph subjects missing subject-plans"];
    }
    if seen - Targets(graph.subjects) != {} {
      failures := failures + ["subject-plan targets missing from graph"];
    }
  }
}
