/** What the replay of subject plans guarantees, field by field. */
module ReplayMeaning {
  import opened PyText
  import opened Hashing
  import opened EvidenceGraph
  import opened GraphReplay
  import LineageRoundTrip
  import PosixPath
  import Sorting
  import SubjectGraph

  // ---------------------------------------------------------------- what is compared

  predicate Measured(a: Artifact) {
    a.sha256.Some? && IsRealSha256(a.sha256.value) && a.bytes.Some? && a.bytes.value > 0
  }

  /** The same real digest and positive size on both sides, or none on both. */
  predicate SameArtifact(a: Artifact, b: Artifact) {
    if Measured(a) then a.sha256 == b.sha256 && a.bytes == b.bytes else !Measured(b)
  }

  predicate SameSubject(s: Subject, p: Plan) {
    && p.subjectId == s.id && p.target == s.target && p.sourceSha == s.sourceSha && p.runId == s.runId
    && SubjectGraph.Str(p.defconfig) == SubjectGraph.Str(s.defconfig)
    && SameArtifact(p.rawImage, s.rawImage) && SameArtifact(p.compressed, s.compressed)
  }

  predicate SafeAt(path: string) {
    !IsPlaceholder(path) && PosixPath.IsSafe(path)
  }

  predicate NoDigest(m: Measurement) {
    m.sha256 == None || m.sha256 == Some("")
  }

  predicate GoodNode(n: Node) {
    && SafeAt(n.path) && (NoDigest(n.measured) || IsRealSha256(n.measured.sha256.value))
    && (n.measured.bytes.Some? ==> n.measured.bytes.value > 0)
  }

  /** Two nodes say the same; their ids, their producers and the spelling of their paths do not matter. */
  predicate SameRecord(n: Node, m: Node) {
    && n.subjectId == m.subjectId && n.target == m.target && n.role == m.role && n.schemaRole == m.schemaRole
    && n.schemaVersion == m.schemaVersion && n.required == m.required && PosixPath.AsPosix(n.path) == PosixPath.AsPosix(m.path)
    && n.measured.bytes == m.measured.bytes
    && (n.measured.sha256 == m.measured.sha256 || (NoDigest(n.measured) && NoDigest(m.measured)))
  }

  predicate GoodNodes(nodes: seq<Node>) {
    && (forall n :: n in nodes ==> GoodNode(n))
    && forall i, j :: 0 <= i < j < |nodes| ==> nodes[i].id != nodes[j].id && !SameRecord(nodes[i], nodes[j])
  }

  predicate GoodEdges(edges: seq<Edge>) {
    && (forall e :: e in edges ==> e.source != "" && e.to != "" && e.relationship != "" && e.role != "")
    && forall i, j :: 0 <= i < j < |edges| ==> edges[i] != edges[j]
  }

  /** The requirement asks for what the node is; without a flag it is required. */
  predicate Demands(r: Requirement, n: Node) {
    r.role == n.role && PosixPath.AsPosix(r.path) == PosixPath.AsPosix(n.path) && n.required == (r.required != Some(false))
  }

  predicate SameNodesAs(graph: Graph, s: Subject, nodes: seq<Node>) {
    && GoodNodes(nodes)
    && (forall n :: n in graph.nodes && n.subjectId == s.id ==> exists m :: m in nodes && SameRecord(m, n))
    && (forall m :: m in nodes ==> exists n :: n in graph.nodes && n.subjectId == s.id && SameRecord(m, n))
  }

  predicate SameRequirementsAs(graph: Graph, s: Subject, rs: seq<Requirement>) {
    && (forall r :: r in rs ==> SafeAt(r.path))
    && (forall n :: n in graph.nodes && n.subjectId == s.id ==> exists r :: r in rs && Demands(r, n))
    && (forall r :: r in rs ==> exists n :: n in graph.nodes && n.subjectId == s.id && Demands(r, n))
  }

  predicate SameEdgesAs(graph: Graph, s: Subject, edges: seq<Edge>) {
    && GoodEdges(edges) && (forall e :: e in edges ==> e in graph.edges && e.source == s.id)
    && forall e :: e in graph.edges && e.source == s.id ==> e in edges
  }

  /** The plan says of the subject what the graph says of it. */
  predicate Mirrors(graph: Graph, p: Plan, s: Subject) {
    && SameSubject(s, p) && SameNodesAs(graph, s, p.nodes) && SameRequirementsAs(graph, s, p.requirements)
    && SameEdgesAs(graph, s, p.edges)
    && graph.retention.Some? && p.retention.Some? && p.retention.value.policyId == graph.retention.value.policyId
    && multiset(p.retention.value.exports) == multiset(graph.retention.value.exports)
  }

  // ---------------------------------------------------------------- canonical forms are just that

  lemma IdentityMeans(s: Subject, p: Plan)
    ensures SameIdentity(s, p) <==> SameSubject(s, p)
  {
    hide IsRealSha256, SubjectGraph.Str;
  }

  lemma CanonicalMeans(n: Node)
    ensures Canonical(n).Some? <==> GoodNode(n)
  {
    hide IsRealSha256, IsPlaceholder, PosixPath.IsSafe, PosixPath.AsPosix;
  }

  lemma SameForms(n: Node, m: Node)
    requires GoodNode(n) && GoodNode(m)
    ensures Canonical(n) == Canonical(m) <==> SameRecord(n, m)
  {
    hide IsRealSha256, IsPlaceholder, PosixPath.IsSafe, PosixPath.AsPosix;
  }

  lemma CleanMeans(nodes: seq<Node>)
    ensures CleanNodes(nodes) <==> GoodNodes(nodes)
  {
    hide Canonical, GoodNode, SameRecord;
    forall i | 0 <= i < |nodes|
      ensures Canonical(nodes[i]).Some? <==> GoodNode(nodes[i])
    {
      CanonicalMeans(nodes[i]);
    }
    assert (forall n :: n in nodes ==> GoodNode(n)) <==> forall i :: 0 <= i < |nodes| ==> GoodNode(nodes[i]);
    if forall i :: 0 <= i < |nodes| ==> GoodNode(nodes[i]) {
      forall i, j | 0 <= i < j < |nodes|
        ensures Canonical(nodes[i]) == Canonical(nodes[j]) <==> SameRecord(nodes[i], nodes[j])
      {
        SameForms(nodes[i], nodes[j]);
      }
    }
  }

  lemma SameSets(a: seq<Node>, b: seq<Node>)
    requires GoodNodes(a) && GoodNodes(b)
    ensures CanonicalSet(a) == CanonicalSet(b) <==>
            && (forall n :: n in b ==> exists m :: m in a && SameRecord(m, n))
            && (forall m :: m in a ==> exists n :: n in b && SameRecord(m, n))
  {
    hide Canonical, GoodNode, SameRecord;
    forall n, m | n in b && m in a
      ensures Canonical(n).Some? && Canonical(m).Some? && (Canonical(m) == Canonical(n) <==> SameRecord(m, n))
    {
      CanonicalMeans(n);
      CanonicalMeans(m);
      SameForms(m, n);
    }
    forall n | n in b ensures Canonical(n).Some? { CanonicalMeans(n); }
    forall m | m in a ensures Canonical(m).Some? { CanonicalMeans(m); }
    if CanonicalSet(a) == CanonicalSet(b) {
      forall n | n in b
        ensures exists m :: m in a && SameRecord(m, n)
      {
        assert Canonical(n).value in CanonicalSet(a);
      }
      forall m | m in a
        ensures exists n :: n in b && SameRecord(m, n)
      {
        assert Canonical(m).value in CanonicalSet(b);
      }
    }
  }

  lemma {:induction false} EdgesForOwn(edges: seq<Edge>, subjectId: string)
    ensures forall e :: e in EdgesFor(edges, subjectId) <==> e in edges && e.source == subjectId
  {
    if edges != [] {
      EdgesForOwn(edges[1..], subjectId);
    }
  }

  lemma EdgesMean(edges: seq<Edge>)
    ensures CleanEdges(edges) <==> GoodEdges(edges)
    ensures CleanEdges(edges) ==> forall e :: e in EdgeSet(edges) <==> e in edges
  {
    assert forall i :: 0 <= i < |edges| ==> edges[i] in edges;
  }

  lemma RequirementsMean(graph: Graph, s: Subject, p: Plan)
    requires p.subjectId == s.id && p.target == s.target && forall n :: n in graph.nodes && n.subjectId == s.id ==> n.target == s.target && SafeAt(n.path)
    ensures SafeRequirements(p.requirements) && RequiredOfPlan(p) == RequiredOfNodes(NodesFor(graph.nodes, s.id))
            <==> SameRequirementsAs(graph, s, p.requirements)
  {
    LineageRoundTrip.NodesForOwn(graph.nodes, s.id);
    hide IsPlaceholder, PosixPath.IsSafe, PosixPath.AsPosix, NodesFor;
    var own, rs := NodesFor(graph.nodes, s.id), p.requirements;
    SafeMeans(rs);
    if SafeRequirements(rs) {
      if RequiredOfPlan(p) == RequiredOfNodes(own) {
        RequirementsMatch(graph, s, p);
      }
      if SameRequirementsAs(graph, s, rs) {
        RequirementsMatchBack(graph, s, p);
      }
    }
  }

  lemma SafeMeans(rs: seq<Requirement>)
    ensures SafeRequirements(rs) <==> forall r :: r in rs ==> SafeAt(r.path)
  {
    hide IsPlaceholder, PosixPath.IsSafe, PosixPath.AsPosix;
    assert forall i :: 0 <= i < |rs| ==> rs[i] in rs;
  }

  lemma DemandMeans(r: Requirement, n: Node)
    requires SafeAt(r.path) && SafeAt(n.path)
    ensures Demands(r, n) <==> RequiredOfItem(r, n.subjectId, n.target) == Required(n.subjectId, n.target, n.role, SafePath(n.path).value, n.required)
  {
    hide IsPlaceholder, PosixPath.IsSafe, PosixPath.AsPosix;
  }

  lemma RequirementsMatch(graph: Graph, s: Subject, p: Plan)
    requires p.subjectId == s.id && p.target == s.target && SafeRequirements(p.requirements)
    requires forall n :: n in graph.nodes && n.subjectId == s.id ==> n.target == s.target && SafeAt(n.path)
    requires RequiredOfPlan(p) == RequiredOfNodes(NodesFor(graph.nodes, s.id))
    ensures SameRequirementsAs(graph, s, p.requirements)
  {
    LineageRoundTrip.NodesForOwn(graph.nodes, s.id);
    SafeMeans(p.requirements);
    hide IsPlaceholder, PosixPath.IsSafe, PosixPath.AsPosix, NodesFor, RequiredOfItem, Demands, SafeAt;
    var own, rs := NodesFor(graph.nodes, s.id), p.requirements;
    forall n | n in own
      ensures exists r :: r in rs && Demands(r, n)
    {
      SafeIs(n.path);
      var x := Required(n.subjectId, n.target, n.role, SafePath(n.path).value, n.required);
      assert x in RequiredOfNodes(own);
      var r :| r in rs && SafePath(r.path).Some? && RequiredOfItem(r, p.subjectId, p.target) == x;
      DemandMeans(r, n);
    }
    forall r | r in rs
      ensures exists n :: n in own && Demands(r, n)
    {
      SafeIs(r.path);
      assert RequiredOfItem(r, p.subjectId, p.target) in RequiredOfPlan(p);
      var n :| n in own && SafePath(n.path).Some?
               && Required(n.subjectId, n.target, n.role, SafePath(n.path).value, n.required) == RequiredOfItem(r, p.subjectId, p.target);
      DemandMeans(r, n);
    }
  }

  lemma SafeIs(path: string)
    ensures SafePath(path).Some? <==> SafeAt(path)
  {
    hide IsPlaceholder, PosixPath.IsSafe, PosixPath.AsPosix;
  }

  lemma ItemHasNode(graph: Graph, s: Subject, p: Plan, r: Requirement)
    requires p.subjectId == s.id && p.target == s.target && SameRequirementsAs(graph, s, p.requirements) && r in p.requirements
    requires forall n :: n in graph.nodes && n.subjectId == s.id ==> n.target == s.target && SafeAt(n.path)
    ensures SafePath(r.path).Some? && RequiredOfItem(r, p.subjectId, p.target) in RequiredOfNodes(NodesFor(graph.nodes, s.id))
  {
    hide IsPlaceholder, PosixPath.IsSafe, PosixPath.AsPosix, NodesFor, RequiredOfItem, Demands, SafeAt, SafePath;
    LineageRoundTrip.NodesForOwn(graph.nodes, s.id);
    var n :| n in graph.nodes && n.subjectId == s.id && Demands(r, n);
    SafeIs(n.path);
    SafeIs(r.path);
    DemandMeans(r, n);
    assert n in NodesFor(graph.nodes, s.id);
  }

  lemma NodeHasItem(graph: Graph, s: Subject, p: Plan, n: Node)
    requires p.subjectId == s.id && p.target == s.target && SameRequirementsAs(graph, s, p.requirements)
    requires n in graph.nodes && n.subjectId == s.id && n.target == s.target && SafeAt(n.path)
    ensures SafePath(n.path).Some? && Required(n.subjectId, n.target, n.role, SafePath(n.path).value, n.required) in RequiredOfPlan(p)
  {
    hide IsPlaceholder, PosixPath.IsSafe, PosixPath.AsPosix, RequiredOfItem, Demands, SafeAt, SafePath;
    var r :| r in p.requirements && Demands(r, n);
    SafeIs(n.path);
    SafeIs(r.path);
    DemandMeans(r, n);
  }

  lemma RequirementsMatchBack(graph: Graph, s: Subject, p: Plan)
    requires p.subjectId == s.id && p.target == s.target && SameRequirementsAs(graph, s, p.requirements)
    requires forall n :: n in graph.nodes && n.subjectId == s.id ==> n.target == s.target && SafeAt(n.path)
    ensures RequiredOfPlan(p) == RequiredOfNodes(NodesFor(graph.nodes, s.id))
  {
    hide IsPlaceholder, PosixPath.IsSafe, PosixPath.AsPosix, NodesFor, RequiredOfItem, Demands, SafeAt, SafePath, SameRequirementsAs;
    LineageRoundTrip.NodesForOwn(graph.nodes, s.id);
    forall r | r in p.requirements
      ensures SafePath(r.path).Some? && RequiredOfItem(r, p.subjectId, p.target) in RequiredOfNodes(NodesFor(graph.nodes, s.id))
    {
      ItemHasNode(graph, s, p, r);
    }
    forall n | n in NodesFor(graph.nodes, s.id)
      ensures SafePath(n.path).Some? && Required(n.subjectId, n.target, n.role, SafePath(n.path).value, n.required) in RequiredOfPlan(p)
    {
      NodeHasItem(graph, s, p, n);
    }
  }

  // ---------------------------------------------------------------- the plans that pass

  /** For a subject that is consistent in itself, a plan matches its slice exactly if it mirrors the graph. */
  lemma MatchIsMirror(graph: Graph, p: Plan, s: Subject)
    requires LineageRoundTrip.Consistent(graph, s)
    ensures LineageRoundTrip.MatchesSlice(graph, p, s) <==> Mirrors(graph, p, s)
  {
    hide SameIdentity, SameSubject, CleanNodes, CleanEdges, GoodNodes, GoodEdges, CanonicalSet, EdgeSet, NodesFor, EdgesFor, SliceNodes, SliceEdges,
         SafeRequirements, RequiredOfPlan, SameRequirementsAs, SubjectAt, SameNodesAs, SameEdgesAs;
    IdentityMeans(s, p);
    if SameSubject(s, p) {
      SameSubjectHas(s, p);
      NodesMatch(graph, p, s);
      EdgesMatch(graph, p, s);
      RequirementsMatchSlice(graph, p, s);
    }
  }

  lemma SameSubjectHas(s: Subject, p: Plan)
    requires SameSubject(s, p)
    ensures p.subjectId == s.id && p.target == s.target
  {
  }

  lemma NodesMatch(graph: Graph, p: Plan, s: Subject)
    requires CleanNodes(NodesFor(graph.nodes, s.id))
    ensures CanonicalSet(p.nodes) == CanonicalSet(SliceNodes(graph, s.id)) && CleanNodes(p.nodes) <==> SameNodesAs(graph, s, p.nodes)
  {
    hide CanonicalSet, CleanNodes, GoodNodes, SameRecord, NodesFor, SliceNodes;
    var own := NodesFor(graph.nodes, s.id);
    LineageRoundTrip.SlicePermutes(graph, s.id);
    LineageRoundTrip.CleanPermutation(own, SliceNodes(graph, s.id));
    LineageRoundTrip.NodesForOwn(graph.nodes, s.id);
    CleanMeans(own);
    CleanMeans(p.nodes);
    if GoodNodes(p.nodes) {
      SameSets(p.nodes, own);
    }
  }

  lemma EdgesMatch(graph: Graph, p: Plan, s: Subject)
    requires CleanEdges(EdgesFor(graph.edges, s.id))
    ensures EdgeSet(p.edges) == EdgeSet(SliceEdges(graph, s.id)) && CleanEdges(p.edges) <==> SameEdgesAs(graph, s, p.edges)
  {
    hide CleanEdges, EdgeSet, GoodEdges, EdgesFor, SliceEdges;
    var own := EdgesFor(graph.edges, s.id);
    LineageRoundTrip.SlicePermutes(graph, s.id);
    LineageRoundTrip.CleanEdgePermutation(own, SliceEdges(graph, s.id));
    EdgesForOwn(graph.edges, s.id);
    EdgesMean(own);
    EdgesMean(p.edges);
  }

  lemma OwnAreSafe(graph: Graph, s: Subject)
    requires CleanNodes(NodesFor(graph.nodes, s.id)) && forall n :: n in NodesFor(graph.nodes, s.id) ==> n.target == s.target
    ensures forall n :: n in graph.nodes && n.subjectId == s.id ==> n.target == s.target && SafeAt(n.path)
  {
    hide GoodNode, SafeAt, NodesFor, CleanNodes, SameRecord;
    CleanMeans(NodesFor(graph.nodes, s.id));
    LineageRoundTrip.NodesForOwn(graph.nodes, s.id);
    forall n | n in graph.nodes && n.subjectId == s.id
      ensures SafeAt(n.path)
    {
      assert n in NodesFor(graph.nodes, s.id);
      GoodIsSafe(n);
    }
  }

  lemma GoodIsSafe(n: Node)
    requires GoodNode(n)
    ensures SafeAt(n.path)
  {
  }

  lemma RequirementsMatchSlice(graph: Graph, p: Plan, s: Subject)
    requires p.subjectId == s.id && p.target == s.target
    requires CleanNodes(NodesFor(graph.nodes, s.id)) && forall n :: n in NodesFor(graph.nodes, s.id) ==> n.target == s.target
    ensures SafeRequirements(p.requirements) && RequiredOfPlan(p) == RequiredOfPlan(Slice(graph, s))
            <==> SameRequirementsAs(graph, s, p.requirements)
  {
    hide CleanNodes, NodesFor, SliceNodes, SafeRequirements, RequiredOfPlan, RequiredOfNodes, SameRequirementsAs, SafeAt, SafePath, SliceEdges;
    OwnAreSafe(graph, s);
    RequirementsMean(graph, s, p);
    SliceDemandsOwn(graph, s);
  }

  lemma SliceDemandsOwn(graph: Graph, s: Subject)
    requires CleanNodes(NodesFor(graph.nodes, s.id)) && forall n :: n in NodesFor(graph.nodes, s.id) ==> n.target == s.target
    ensures RequiredOfPlan(Slice(graph, s)) == RequiredOfNodes(NodesFor(graph.nodes, s.id))
  {
    hide CleanNodes, NodesFor, SliceNodes, SafeRequirements, RequiredOfPlan, RequiredOfNodes, SafePath, SliceEdges;
    var own, slice := NodesFor(graph.nodes, s.id), SliceNodes(graph, s.id);
    LineageRoundTrip.SlicePermutes(graph, s.id);
    LineageRoundTrip.CleanPermutation(own, slice);
    Sorting.SamePermutation(own, slice);
    LineageRoundTrip.CleanNodesAreSafe(own);
    LineageRoundTrip.NodesForOwn(graph.nodes, s.id);
    LineageRoundTrip.RequirementsOfSlice(Slice(graph, s), s.id, s.target, slice);
  }

  /** The plan for a subject's target mirrors it. */
  lemma PlanMirrorsSubject(graph: Graph, plans: seq<Plan>, p: Plan, s: Subject)
    requires Replayed(graph, plans) && LineageRoundTrip.DistinctTargets(graph.subjects)
    requires s in graph.subjects && p in plans && p.target == s.target
    ensures Mirrors(graph, p, s) && LineageRoundTrip.Consistent(graph, s)
  {
    hide Mirrors, LineageRoundTrip.MatchesSlice, LineageRoundTrip.Consistent, Agrees, LineageRoundTrip.DistinctTargets, SubjectAt;
    var i :| 0 <= i < |plans| && plans[i] == p;
    LineageRoundTrip.SubjectAtTarget(graph.subjects, s);
    LineageRoundTrip.AgreesMeansMatches(graph, p, s);
    MatchIsMirror(graph, p, s);
  }

  /** If the replay passes and targets are distinct, every subject has a plan, every plan a subject, and each plan mirrors what
      the graph says of its subject; the graph itself is then replayable. */
  lemma ReplayIsSound(graph: Graph, plans: seq<Plan>)
    requires Replayed(graph, plans) && LineageRoundTrip.DistinctTargets(graph.subjects)
    ensures forall s :: s in graph.subjects ==> exists p :: p in plans && Mirrors(graph, p, s)
    ensures forall p :: p in plans ==> exists s :: s in graph.subjects && Mirrors(graph, p, s)
    ensures LineageRoundTrip.Replayable(graph)
  {
    hide Mirrors, LineageRoundTrip.Consistent, LineageRoundTrip.DistinctTargets, Agrees;
    forall s | s in graph.subjects
      ensures exists p :: p in plans && Mirrors(graph, p, s) && LineageRoundTrip.Consistent(graph, s)
    {
      assert s.target in Targets(graph.subjects);
      var p :| p in plans && p.target == s.target;
      PlanMirrorsSubject(graph, plans, p, s);
    }
    forall p | p in plans
      ensures exists s :: s in graph.subjects && Mirrors(graph, p, s)
    {
      assert p.target in PlanTargets(plans);
      var s :| s in graph.subjects && s.target == p.target;
      PlanMirrorsSubject(graph, plans, p, s);
    }
  }

  /** Conversely, on a replayable graph any plans that mirror their subjects, one for each target, pass. */
  lemma MirrorsPass(graph: Graph, plans: seq<Plan>)
    requires LineageRoundTrip.Replayable(graph) && LineageRoundTrip.DistinctTargets(graph.subjects) && PlanTargets(plans) == Targets(graph.subjects)
    requires forall p :: p in plans ==> exists s :: s in graph.subjects && Mirrors(graph, p, s)
    ensures Replayed(graph, plans)
  {
    hide Mirrors, LineageRoundTrip.MatchesSlice, LineageRoundTrip.Consistent, Agrees;
    forall p | p in plans
      ensures exists s :: s in graph.subjects && LineageRoundTrip.MatchesSlice(graph, p, s)
    {
      var s :| s in graph.subjects && Mirrors(graph, p, s);
      var i :| 0 <= i < |graph.subjects| && graph.subjects[i] == s;
      MatchIsMirror(graph, p, s);
    }
    LineageRoundTrip.MatchesPass(graph, plans);
  }

  lemma MirrorHasTarget(graph: Graph, p: Plan, s: Subject)
    requires Mirrors(graph, p, s)
    ensures p.target == s.target && SameSubject(s, p) && SameNodesAs(graph, s, p.nodes)
  {
    hide SameNodesAs, SameRequirementsAs, SameEdgesAs, SameArtifact;
  }

  /** One field is enough: a plan for a subject's target that differs from it in id, source, run, build name or in one of the
      two artifacts defeats the replay, whatever the other plans are. */
  lemma OneFieldFails(graph: Graph, plans: seq<Plan>, p: Plan, s: Subject)
    requires LineageRoundTrip.DistinctTargets(graph.subjects) && s in graph.subjects && p in plans && p.target == s.target
    requires || p.subjectId != s.id || p.sourceSha != s.sourceSha || p.runId != s.runId
             || SubjectGraph.Str(p.defconfig) != SubjectGraph.Str(s.defconfig)
             || !SameArtifact(p.rawImage, s.rawImage) || !SameArtifact(p.compressed, s.compressed)
    ensures !Replayed(graph, plans)
  {
    hide Replayed, Mirrors, SameArtifact, SubjectGraph.Str, LineageRoundTrip.DistinctTargets, SameNodesAs;
    if Replayed(graph, plans) {
      PlanMirrorsSubject(graph, plans, p, s);
      MirrorHasTarget(graph, p, s);
    }
  }

  /** And the same for the evidence: a plan that lists no record of some node of the subject defeats the replay. */
  lemma MissingRecordFails(graph: Graph, plans: seq<Plan>, p: Plan, s: Subject, n: Node)
    requires LineageRoundTrip.DistinctTargets(graph.subjects) && s in graph.subjects && p in plans && p.target == s.target
    requires n in graph.nodes && n.subjectId == s.id && forall m :: m in p.nodes ==> !SameRecord(m, n)
    ensures !Replayed(graph, plans)
  {
    hide Replayed, Mirrors, SameSubject, SameRecord, GoodNodes, LineageRoundTrip.DistinctTargets;
    if Replayed(graph, plans) {
      PlanMirrorsSubject(graph, plans, p, s);
      MirrorHasTarget(graph, p, s);
    }
  }
}
