/** Soundness of the replay, and exactly when a graph survives being sliced and replayed. */
module LineageRoundTrip {
  import opened PyText
  import opened Hashing
  import opened EvidenceGraph
  import opened GraphReplay
  import SubjectGraph
  import Sorting

  // ---------------------------------------------------------------- order does not matter

  /** Clean node lists in terms of their elements. */
  lemma CleanByElements(nodes: seq<Node>)
    ensures CleanNodes(nodes) <==>
            && Sorting.NoRepeats(nodes)
            && (forall n :: n in nodes ==> Canonical(n).Some?)
            && forall n, m :: n in nodes && m in nodes && n != m ==> n.id != m.id && Canonical(n) != Canonical(m)
  {
    hide Canonical;
    assert forall i :: 0 <= i < |nodes| ==> nodes[i] in nodes;
  }

  lemma CleanPermutation(a: seq<Node>, b: seq<Node>)
    requires multiset(a) == multiset(b)
    ensures CleanNodes(a) <==> CleanNodes(b)
    ensures CanonicalSet(a) == CanonicalSet(b) && RequiredOfNodes(a) == RequiredOfNodes(b)
  {
    Sorting.SamePermutation(a, b);
    CleanByElements(a);
    CleanByElements(b);
    hide Canonical, SafePath, CleanNodes;
  }

  lemma CleanEdgePermutation(a: seq<Edge>, b: seq<Edge>)
    requires multiset(a) == multiset(b)
    ensures CleanEdges(a) <==> CleanEdges(b)
    ensures EdgeSet(a) == EdgeSet(b)
  {
    Sorting.SamePermutation(a, b);
    hide GoodEdge;
    assert (forall i :: 0 <= i < |a| ==> GoodEdge(a[i])) <==> forall e :: e in a ==> GoodEdge(e);
    assert (forall i :: 0 <= i < |b| ==> GoodEdge(b[i])) <==> forall e :: e in b ==> GoodEdge(e);
  }

  /** A slice holds the subject's nodes and edges, in some order. */
  lemma SlicePermutes(graph: Graph, subjectId: string)
    ensures multiset(SliceNodes(graph, subjectId)) == multiset(NodesFor(graph.nodes, subjectId))
    ensures multiset(SliceEdges(graph, subjectId)) == multiset(EdgesFor(graph.edges, subjectId))
  {
    Sorting.SortPermutes(NodesFor(graph.nodes, subjectId),
                         (a: Node, b: Node) => SubjectGraph.Less3((a.role, a.path, a.id), (b.role, b.path, b.id)));
    Sorting.SortPermutes(EdgesFor(graph.edges, subjectId),
                         (a: Edge, b: Edge) => Less(a.role, b.role) || (a.role == b.role && Less(a.to, b.to)));
  }

  lemma {:induction false} NodesForOwn(nodes: seq<Node>, subjectId: string)
    ensures forall n :: n in NodesFor(nodes, subjectId) <==> n in nodes && n.subjectId == subjectId
  {
    if nodes != [] {
      NodesForOwn(nodes[1..], subjectId);
    }
  }

  // ---------------------------------------------------------------- slices agree with their graph

  /** The requirements a slice lists are those of its nodes, under the subject's own target. */
  lemma RequirementsOfSlice(p: Plan, subjectId: string, target: string, nodes: seq<Node>)
    requires p.requirements == RequirementsOf(nodes) && p.subjectId == subjectId && p.target == target
    requires forall n :: n in nodes ==> n.subjectId == subjectId && SafePath(n.path).Some?
    ensures SafeRequirements(p.requirements)
    ensures RequiredOfPlan(p) == set n | n in nodes && SafePath(n.path).Some? :: Required(subjectId, target, n.role, SafePath(n.path).value, n.required)
    ensures RequiredOfPlan(p) == RequiredOfNodes(nodes) <==> forall n :: n in nodes ==> n.target == target
  {
    hide SafePath;
    var rs := p.requirements;
    var own := set n | n in nodes && SafePath(n.path).Some? :: Required(subjectId, target, n.role, SafePath(n.path).value, n.required);
    forall i | 0 <= i < |nodes|
      ensures SafePath(rs[i].path).Some?
      ensures RequiredOfItem(rs[i], subjectId, target) == Required(subjectId, target, nodes[i].role, SafePath(nodes[i].path).value, nodes[i].required)
    {
      assert nodes[i] in nodes;
    }
    assert RequiredOfPlan(p) <= own;
    forall x | x in own
      ensures x in RequiredOfPlan(p)
    {
      var n :| n in nodes && x == Required(subjectId, target, n.role, SafePath(n.path).value, n.required);
      var i :| 0 <= i < |nodes| && nodes[i] == n;
      assert rs[i] in rs;
    }
    if RequiredOfPlan(p) == RequiredOfNodes(nodes) {
      forall n | n in nodes
        ensures n.target == target
      {
        assert Required(n.subjectId, n.target, n.role, SafePath(n.path).value, n.required) in RequiredOfNodes(nodes);
      }
    }
  }

  /** What a caller can check on a graph before slicing it, for one subject: the subject that stands for its target
      agrees with it, it has nodes, all under its target, and its nodes and edges are clean. */
  predicate Consistent(graph: Graph, s: Subject) {
    var t := SubjectAt(graph.subjects, s.target);
    var nodes := NodesFor(graph.nodes, s.id);
    && t.Some? && SameIdentity(t.value, Slice(graph, s))
    && nodes != [] && CleanNodes(nodes) && (forall n :: n in nodes ==> n.target == s.target)
    && CleanEdges(EdgesFor(graph.edges, s.id))
  }

  predicate Replayable(graph: Graph) {
    graph.retention.Some? && forall i :: 0 <= i < |graph.subjects| ==> Consistent(graph, graph.subjects[i])
  }

  lemma CleanNodesAreSafe(nodes: seq<Node>)
    requires CleanNodes(nodes)
    ensures forall n :: n in nodes ==> SafePath(n.path).Some?
  {
    hide SafePath, IsRealSha256;
    forall n | n in nodes
      ensures SafePath(n.path).Some?
    {
      var i :| 0 <= i < |nodes| && nodes[i] == n;
      assert Canonical(nodes[i]).Some?;
    }
  }

  lemma SliceRequirements(graph: Graph, s: Subject)
    requires CleanNodes(NodesFor(graph.nodes, s.id))
    ensures SameRequirements(NodesFor(graph.nodes, s.id), Slice(graph, s))
            <==> NodesFor(graph.nodes, s.id) != [] && forall n :: n in NodesFor(graph.nodes, s.id) ==> n.target == s.target
  {
    var nodes := NodesFor(graph.nodes, s.id);
    var slice := SliceNodes(graph, s.id);
    CleanNodesAreSafe(nodes);
    hide CleanNodes, SafePath, SafeRequirements, RequiredOfPlan, RequiredOfNodes;
    NodesForOwn(graph.nodes, s.id);
    SlicePermutes(graph, s.id);
    Sorting.SamePermutation(nodes, slice);
    CleanPermutation(nodes, slice);
    RequirementsOfSlice(Slice(graph, s), s.id, s.target, slice);
    if slice != [] {
      assert slice[0] in slice;
      assert Required(s.id, s.target, slice[0].role, SafePath(slice[0].path).value, slice[0].required) in RequiredOfPlan(Slice(graph, s));
    }
  }

  /** A slice passes the replay exactly if its subject is consistent. */
  lemma SliceAgrees(graph: Graph, s: Subject)
    requires graph.retention.Some?
    ensures Agrees(graph, Slice(graph, s)) <==> Consistent(graph, s)
  {
    hide CleanNodes, CleanEdges, CanonicalSet, EdgeSet, SameIdentity, SameRequirements, NodesFor, EdgesFor, SubjectAt,
         SliceNodes, SliceEdges;
    var nodes := NodesFor(graph.nodes, s.id);
    SlicePermutes(graph, s.id);
    Sorting.SamePermutation(nodes, SliceNodes(graph, s.id));
    CleanPermutation(nodes, SliceNodes(graph, s.id));
    CleanEdgePermutation(EdgesFor(graph.edges, s.id), SliceEdges(graph, s.id));
    if CleanNodes(nodes) {
      SliceRequirements(graph, s);
    }
  }

  lemma SliceTargets(graph: Graph)
    ensures PlanTargets(Slices(graph)) == Targets(graph.subjects)
  {
    var plans := Slices(graph);
    forall t | t in Targets(graph.subjects)
      ensures t in PlanTargets(plans)
    {
      var i :| 0 <= i < |graph.subjects| && graph.subjects[i].target == t;
      assert plans[i] in plans;
    }
  }

  /** Slicing a graph and replaying the slices succeeds exactly on the replayable graphs. */
  lemma SliceReplayRoundTrip(graph: Graph)
    ensures Replayed(graph, Slices(graph)) <==> Replayable(graph)
  {
    hide Agrees, Consistent, Slice;
    SliceTargets(graph);
    if graph.retention.Some? {
      forall i | 0 <= i < |graph.subjects| {
        SliceAgrees(graph, graph.subjects[i]);
      }
    }
  }

  // ---------------------------------------------------------------- soundness

  predicate DistinctTargets(subjects: seq<Subject>) {
    forall i, j :: 0 <= i < j < |subjects| ==> subjects[i].target != subjects[j].target
  }

  lemma {:induction false} SubjectAtTarget(subjects: seq<Subject>, s: Subject)
    requires s in subjects
    ensures SubjectAt(subjects, s.target).Some?
    ensures DistinctTargets(subjects) ==> SubjectAt(subjects, s.target) == Some(s)
  {
    var last := subjects[|subjects| - 1];
    if last.target != s.target {
      SubjectAtTarget(subjects[..|subjects| - 1], s);
    } else if DistinctTargets(subjects) {
      var i :| 0 <= i < |subjects| && subjects[i] == s;
    }
  }

  lemma {:induction false} SubjectAtIsMember(subjects: seq<Subject>, target: string)
    ensures SubjectAt(subjects, target).Some? ==>
              SubjectAt(subjects, target).value in subjects && SubjectAt(subjects, target).value.target == target
  {
    if subjects != [] && subjects[|subjects| - 1].target != target {
      SubjectAtIsMember(subjects[..|subjects| - 1], target);
    }
  }

  /** The plan equals the subject's slice up to canonical forms. */
  predicate MatchesSlice(graph: Graph, p: Plan, s: Subject) {
    var q := Slice(graph, s);
    && SameIdentity(s, p)
    && CanonicalSet(p.nodes) == CanonicalSet(q.nodes) && CleanNodes(p.nodes)
    && EdgeSet(p.edges) == EdgeSet(q.edges) && CleanEdges(p.edges)
    && SafeRequirements(p.requirements) && RequiredOfPlan(p) == RequiredOfPlan(q)
    && graph.retention.Some? && p.retention.Some? && p.retention.value.policyId == graph.retention.value.policyId
    && multiset(p.retention.value.exports) == multiset(graph.retention.value.exports)
  }

  /** A plan that passes matches the slice of the subject at its target, which is then consistent in itself. */
  lemma AgreesMeansMatches(graph: Graph, p: Plan, s: Subject)
    requires graph.retention.Some? && Agrees(graph, p) && SubjectAt(graph.subjects, p.target) == Some(s)
    ensures MatchesSlice(graph, p, s) && Consistent(graph, s)
  {
    var nodes := NodesFor(graph.nodes, s.id);
    var slice := SliceNodes(graph, s.id);
    SubjectAtIsMember(graph.subjects, p.target);
    SlicePermutes(graph, s.id);
    Sorting.SamePermutation(nodes, slice);
    CleanPermutation(nodes, slice);
    CleanEdgePermutation(EdgesFor(graph.edges, s.id), SliceEdges(graph, s.id));
    CleanNodesAreSafe(nodes);
    NodesForOwn(graph.nodes, s.id);
    hide CleanNodes, CleanEdges, CanonicalSet, EdgeSet, SafePath, SafeRequirements, RequiredOfPlan;
    TargetsFollow(nodes, p);
    RequirementsOfSlice(Slice(graph, s), s.id, s.target, slice);
    PlanHasNodes(nodes, p);
  }

  lemma TargetsFollow(nodes: seq<Node>, p: Plan)
    requires RequiredOfNodes(nodes) == RequiredOfPlan(p) && forall n :: n in nodes ==> SafePath(n.path).Some?
    ensures forall n :: n in nodes ==> n.target == p.target
  {
    hide SafePath;
    forall n | n in nodes
      ensures n.target == p.target
    {
      assert Required(n.subjectId, n.target, n.role, SafePath(n.path).value, n.required) in RequiredOfPlan(p);
    }
  }

  lemma PlanHasNodes(nodes: seq<Node>, p: Plan)
    requires RequiredOfNodes(nodes) == RequiredOfPlan(p) && RequiredOfPlan(p) != {}
    ensures nodes != []
  {
    hide SafePath, RequiredOfPlan;
    assert nodes == [] ==> RequiredOfNodes(nodes) == {};
  }

  /** Conversely, on a replayable graph any plans that match the slices, one for each target, pass. */
  lemma MatchesPass(graph: Graph, plans: seq<Plan>)
    requires Replayable(graph) && DistinctTargets(graph.subjects) && PlanTargets(plans) == Targets(graph.subjects)
    requires forall p :: p in plans ==> exists s :: s in graph.subjects && MatchesSlice(graph, p, s)
    ensures Replayed(graph, plans)
  {
    hide Agrees, MatchesSlice, Consistent;
    forall i | 0 <= i < |plans|
      ensures Agrees(graph, plans[i])
    {
      assert plans[i] in plans;
      var s :| s in graph.subjects && MatchesSlice(graph, plans[i], s);
      assert Consistent(graph, s);
      MatchingPlanAgrees(graph, plans[i], s);
    }
  }

  lemma MatchingPlanAgrees(graph: Graph, p: Plan, s: Subject)
    requires graph.retention.Some? && s in graph.subjects && DistinctTargets(graph.subjects)
    requires MatchesSlice(graph, p, s) && Consistent(graph, s)
    ensures Agrees(graph, p)
  {
    var nodes := NodesFor(graph.nodes, s.id);
    var slice := SliceNodes(graph, s.id);
    SubjectAtTarget(graph.subjects, s);
    SlicePermutes(graph, s.id);
    CleanPermutation(nodes, slice);
    CleanEdgePermutation(EdgesFor(graph.edges, s.id), SliceEdges(graph, s.id));
    hide CleanNodes, CleanEdges, EdgeSet, SafeRequirements, RequiredOfPlan, RequiredOfNodes;
    SliceRequirements(graph, s);
    HasCanonical(nodes);
    HasCanonical(p.nodes);
    hide CanonicalSet;
    SliceAgrees(graph, s);
  }

  lemma HasCanonical(nodes: seq<Node>)
    requires CleanNodes(nodes)
    ensures CanonicalSet(nodes) != {} <==> nodes != []
  {
    hide Canonical;
    if nodes != [] {
      assert Canonical(nodes[0]).value in CanonicalSet(nodes);
    }
  }
}
