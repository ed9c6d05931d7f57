/** The produced graph: what each subject owns in it, and when the whole graph survives slicing and replay. */
module LineageProducer {
  import opened PyText
  import opened EvidenceGraph
  import opened SubjectGraph
  import opened GraphReplay
  import opened LineageRoundTrip
  import Sorting

  /** No two covered rows share a target. */
  predicate DistinctRows(input: Input, rows: seq<Row>) {
    forall i, j :: 0 <= i < j < |rows| && Covered(input, rows[i]) && Covered(input, rows[j]) ==> rows[i].target != rows[j].target
  }

  // ---------------------------------------------------------------- ownership

  lemma {:induction false} NodesForCount(nodes: seq<Node>, id: string, n: Node)
    ensures multiset(NodesFor(nodes, id))[n] == if n.subjectId == id then multiset(nodes)[n] else 0
  {
    if nodes != [] {
      NodesForCount(nodes[1..], id, n);
      assert nodes == [nodes[0]] + nodes[1..];
    }
  }

  lemma {:induction false} EdgesForCount(edges: seq<Edge>, id: string, e: Edge)
    ensures multiset(EdgesFor(edges, id))[e] == if e.source == id then multiset(edges)[e] else 0
  {
    if edges != [] {
      EdgesForCount(edges[1..], id, e);
      assert edges == [edges[0]] + edges[1..];
    }
  }

  /** Sorting the lists first does not change what a subject owns. */
  lemma OwnedAfterSorting(nodes: seq<Node>, edges: seq<Edge>, id: string)
    ensures multiset(NodesFor(SortNodes(nodes), id)) == multiset(NodesFor(nodes, id))
    ensures multiset(EdgesFor(SortEdges(edges), id)) == multiset(EdgesFor(edges, id))
  {
    Sorting.SortPermutes(nodes, (a: Node, b: Node) => Less3((a.target, a.role, a.path), (b.target, b.role, b.path)));
    Sorting.SortPermutes(edges, (a: Edge, b: Edge) => Less3((a.source, a.role, a.to), (b.source, b.role, b.to)));
    forall n
      ensures multiset(NodesFor(SortNodes(nodes), id))[n] == multiset(NodesFor(nodes, id))[n]
    {
      NodesForCount(SortNodes(nodes), id, n);
      NodesForCount(nodes, id, n);
    }
    forall e
      ensures multiset(EdgesFor(SortEdges(edges), id))[e] == multiset(EdgesFor(edges, id))[e]
    {
      EdgesForCount(SortEdges(edges), id, e);
      EdgesForCount(edges, id, e);
    }
  }

  lemma {:induction false} NodesForConcat(a: seq<Node>, b: seq<Node>, id: string)
    ensures NodesFor(a + b, id) == NodesFor(a, id) + NodesFor(b, id)
  {
    if a == [] {
      assert a + b == b;
    } else {
      assert (a + b)[1..] == a[1..] + b;
      NodesForConcat(a[1..], b, id);
      var head := if a[0].subjectId == id then [a[0]] else [];
      assert head + (NodesFor(a[1..], id) + NodesFor(b, id)) == (head + NodesFor(a[1..], id)) + NodesFor(b, id);
    }
  }

  lemma {:induction false} EdgesForConcat(a: seq<Edge>, b: seq<Edge>, id: string)
    ensures EdgesFor(a + b, id) == EdgesFor(a, id) + EdgesFor(b, id)
  {
    if a == [] {
      assert a + b == b;
    } else {
      assert (a + b)[1..] == a[1..] + b;
      EdgesForConcat(a[1..], b, id);
      var head := if a[0].source == id then [a[0]] else [];
      assert head + (EdgesFor(a[1..], id) + EdgesFor(b, id)) == (head + EdgesFor(a[1..], id)) + EdgesFor(b, id);
    }
  }

  lemma {:induction false} NodesForAll(nodes: seq<Node>, owner: string, id: string)
    requires forall i :: 0 <= i < |nodes| ==> nodes[i].subjectId == owner
    ensures NodesFor(nodes, id) == if owner == id then nodes else []
  {
    if nodes != [] {
      NodesForAll(nodes[1..], owner, id);
      assert nodes == [nodes[0]] + nodes[1..];
    }
  }

  lemma {:induction false} EdgesForAll(edges: seq<Edge>, owner: string, id: string)
    requires forall i :: 0 <= i < |edges| ==> edges[i].source == owner
    ensures EdgesFor(edges, id) == if owner == id then edges else []
  {
    if edges != [] {
      EdgesForAll(edges[1..], owner, id);
      assert edges == [edges[0]] + edges[1..];
    }
  }

  /** What a row adds is found under its own subject only. */
  lemma RowOwns(input: Input, row: Row, target: string)
    requires Covered(input, row) && Target in input.contract.template
    ensures NodesFor(RowNodes(input, row), IdOf(input, target)) == if row.target == Some(target) then RowNodes(input, row) else []
    ensures EdgesFor(RowEdges(input, row), IdOf(input, target)) == if row.target == Some(target) then RowEdges(input, row) else []
  {
    hide Covered, Specs;
    CoveredHasTarget(input, row);
    var b := input.binding;
    if row.target != Some(target) {
      SubjectIdsDiffer(input.contract.template, b.version, row.target.value, target, b.sourceSha, b.runId);
    }
    NodesForAll(RowNodes(input, row), IdOf(input, row.target.value), IdOf(input, target));
    EdgesForAll(RowEdges(input, row), IdOf(input, row.target.value), IdOf(input, target));
  }

  lemma {:induction false} NobodyOwns(input: Input, rows: seq<Row>, target: string)
    requires Target in input.contract.template
    requires forall i :: 0 <= i < |rows| && Covered(input, rows[i]) ==> rows[i].target != Some(target)
    ensures NodesFor(AllNodes(input, rows), IdOf(input, target)) == []
    ensures EdgesFor(AllEdges(input, rows), IdOf(input, target)) == []
  {
    hide Covered, RowNodes, RowEdges, IdOf;
    if rows != [] {
      var front, last := rows[..|rows| - 1], rows[|rows| - 1];
      NobodyOwns(input, front, target);
      if Covered(input, last) {
        CoveredHasTarget(input, last);
        RowOwns(input, last, target);
        NodesForConcat(AllNodes(input, front), RowNodes(input, last), IdOf(input, target));
        EdgesForConcat(AllEdges(input, front), RowEdges(input, last), IdOf(input, target));
      } else {
        assert AllNodes(input, front) + [] == AllNodes(input, front) && AllEdges(input, front) + [] == AllEdges(input, front);
      }
    }
  }

  lemma {:induction false} OwnerOwns(input: Input, rows: seq<Row>, k: nat)
    requires Target in input.contract.template && DistinctRows(input, rows) && k < |rows| && Covered(input, rows[k])
    ensures NodesFor(AllNodes(input, rows), IdOf(input, rows[k].target.value)) == RowNodes(input, rows[k])
    ensures EdgesFor(AllEdges(input, rows), IdOf(input, rows[k].target.value)) == RowEdges(input, rows[k])
  {
    hide Covered, RowNodes, RowEdges, IdOf;
    CoveredHasTarget(input, rows[k]);
    var front, last := rows[..|rows| - 1], rows[|rows| - 1];
    var target := rows[k].target.value;
    var id := IdOf(input, target);
    if k == |rows| - 1 {
      NobodyOwns(input, front, target);
    } else {
      OwnerOwns(input, front, k);
    }
    if Covered(input, last) {
      RowOwns(input, last, target);
      NodesForConcat(AllNodes(input, front), RowNodes(input, last), id);
      EdgesForConcat(AllEdges(input, front), RowEdges(input, last), id);
    } else {
      assert AllNodes(input, front) + [] == AllNodes(input, front) && AllEdges(input, front) + [] == AllEdges(input, front);
    }
  }

  // ---------------------------------------------------------------- subjects

  lemma {:induction false} SubjectsOfRows(input: Input, rows: seq<Row>)
    ensures forall s :: s in AllSubjects(input, rows) <==>
              exists i :: 0 <= i < |rows| && Covered(input, rows[i]) && s == SubjectOf(input, rows[i])
    ensures DistinctRows(input, rows) ==> DistinctTargets(AllSubjects(input, rows))
  {
    hide Covered, SubjectOf;
    if rows != [] {
      var front, last := rows[..|rows| - 1], rows[|rows| - 1];
      SubjectsOfRows(input, front);
      assert forall i :: 0 <= i < |front| ==> front[i] == rows[i];
      if Covered(input, last) && DistinctRows(input, rows) {
        assert DistinctRows(input, front);
        forall k | 0 <= k < |AllSubjects(input, front)|
          ensures AllSubjects(input, front)[k].target != SubjectOf(input, last).target
        {
          assert AllSubjects(input, front)[k] in AllSubjects(input, front);
          var i :| 0 <= i < |front| && Covered(input, front[i]) && AllSubjects(input, front)[k] == SubjectOf(input, front[i]);
          SubjectTarget(input, front[i]);
          SubjectTarget(input, last);
        }
      }
    }
  }

  lemma SubjectTarget(input: Input, row: Row)
    requires Covered(input, row)
    ensures row.target == Some(SubjectOf(input, row).target)
    ensures SubjectOf(input, row).id == IdOf(input, row.target.value)
  {
    hide Specs;
  }

  lemma DistinctPermutation(a: seq<Subject>, b: seq<Subject>)
    requires multiset(a) == multiset(b) && DistinctTargets(a)
    ensures DistinctTargets(b)
  {
    assert Sorting.NoRepeats(a);
    Sorting.SamePermutation(a, b);
    forall i, j | 0 <= i < j < |b|
      ensures b[i].target != b[j].target
    {
      assert b[i] in b && b[j] in b && b[i] != b[j];
      var k :| 0 <= k < |a| && a[k] == b[i];
      var l :| 0 <= l < |a| && a[l] == b[j];
    }
  }

  lemma GraphSubjects(input: Input)
    requires DistinctRows(input, input.rows)
    ensures forall s :: s in GraphOf(input).subjects <==>
              exists i :: 0 <= i < |input.rows| && Covered(input, input.rows[i]) && s == SubjectOf(input, input.rows[i])
    ensures DistinctTargets(GraphOf(input).subjects)
  {
    hide Covered, SubjectOf;
    var all := AllSubjects(input, input.rows);
    SubjectsOfRows(input, input.rows);
    Sorting.SortPermutes(all, (a: Subject, b: Subject) => Less(a.target, b.target));
    Sorting.SamePermutation(all, GraphOf(input).subjects);
    DistinctPermutation(all, GraphOf(input).subjects);
  }

  // ---------------------------------------------------------------- the verdict on a produced graph

  /** The evidence of one row is free of unsafe paths, bad measurements and duplicates. */
  predicate CleanRow(input: Input, row: Row)
    requires Covered(input, row)
  {
    CleanNodes(RowNodes(input, row)) && CleanEdges(RowEdges(input, row))
  }

  /** In the produced graph, the row's subject owns exactly what the row added. */
  lemma OwnedInGraph(input: Input, k: nat)
    requires Target in input.contract.template && DistinctRows(input, input.rows)
    requires k < |input.rows| && Covered(input, input.rows[k])
    ensures multiset(NodesFor(GraphOf(input).nodes, SubjectOf(input, input.rows[k]).id)) == multiset(RowNodes(input, input.rows[k]))
    ensures multiset(EdgesFor(GraphOf(input).edges, SubjectOf(input, input.rows[k]).id)) == multiset(RowEdges(input, input.rows[k]))
  {
    hide Covered, SubjectOf, RowNodes, RowEdges, AllNodes, AllEdges, AllSubjects, SortNodes, SortEdges;
    SubjectTarget(input, input.rows[k]);
    OwnerOwns(input, input.rows, k);
    OwnedAfterSorting(AllNodes(input, input.rows), AllEdges(input, input.rows), SubjectOf(input, input.rows[k]).id);
  }

  lemma SliceKeepsIdentity(graph: Graph, s: Subject)
    ensures SameIdentity(s, Slice(graph, s))
  {
    hide SliceNodes, SliceEdges, ArtifactIdentity;
  }

  lemma RowConsistent(input: Input, k: nat)
    requires Target in input.contract.template && DistinctRows(input, input.rows)
    requires k < |input.rows| && Covered(input, input.rows[k])
    ensures Consistent(GraphOf(input), SubjectOf(input, input.rows[k])) <==> CleanRow(input, input.rows[k])
  {
    hide Covered, SubjectOf, RowNodes, RowEdges, CleanNodes, CleanEdges, GraphOf, SameIdentity, DistinctTargets, Slice;
    var row := input.rows[k];
    var graph := GraphOf(input);
    var s := SubjectOf(input, row);
    var nodes := NodesFor(graph.nodes, s.id);
    SubjectTarget(input, row);
    GraphSubjects(input);
    SubjectAtTarget(graph.subjects, s);
    SliceKeepsIdentity(graph, s);
    OwnedInGraph(input, k);
    RowHasNodes(input, row);
    CleanPermutation(nodes, RowNodes(input, row));
    CleanEdgePermutation(EdgesFor(graph.edges, s.id), RowEdges(input, row));
    Sorting.SamePermutation(nodes, RowNodes(input, row));
  }

  lemma RowHasNodes(input: Input, row: Row)
    requires Covered(input, row)
    ensures RowNodes(input, row) != [] && forall n :: n in RowNodes(input, row) ==> Some(n.target) == row.target
  {
  }

  /** Slicing the produced graph into one plan per subject and replaying the plans succeeds exactly if every covered
      row's evidence is clean. */
  lemma ProducedGraphReplays(input: Input)
    requires Target in input.contract.template && DistinctRows(input, input.rows)
    ensures Replayed(GraphOf(input), Slices(GraphOf(input)))
            <==> forall i :: 0 <= i < |input.rows| && Covered(input, input.rows[i]) ==> CleanRow(input, input.rows[i])
  {
    hide Covered, SubjectOf, CleanRow, Consistent, AllNodes, AllEdges;
    var graph := GraphOf(input);
    SliceReplayRoundTrip(graph);
    GraphSubjects(input);
    forall i | 0 <= i < |input.rows| && Covered(input, input.rows[i])
      ensures SubjectOf(input, input.rows[i]) in graph.subjects
      ensures Consistent(graph, SubjectOf(input, input.rows[i])) <==> CleanRow(input, input.rows[i])
    {
      RowConsistent(input, i);
    }
    hide Replayed, GraphOf;
    assert graph.retention.Some?;
    assert (forall i :: 0 <= i < |graph.subjects| ==> Consistent(graph, graph.subjects[i]))
      <==> forall s :: s in graph.subjects ==> Consistent(graph, s);
  }
}
