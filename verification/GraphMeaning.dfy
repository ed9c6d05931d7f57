/** What the release subject graph holds, said without the functions that build it: its order, and its edges. */
module GraphMeaning {
  import opened PyText
  import opened EvidenceGraph
  import opened SubjectGraph
  import Sorting

  // ---------------------------------------------------------------- order

  type Key = (string, string, string)

  lemma Less3IsKeyOrder(a: Key, b: Key, c: Key)
    ensures Less3(a, b) ==> !Less3(b, a)
    ensures !Less3(b, a) && !Less3(c, b) ==> !Less3(c, a)
  {
    hide Less;
    LessIsKeyOrder(a.0, b.0, c.0);
    LessIsKeyOrder(a.1, b.1, c.1);
    LessIsKeyOrder(a.2, b.2, c.2);
  }

  function SubjectKey(s: Subject): Key { (s.target, "", "") }

  function NodeKey(n: Node): Key { (n.target, n.role, n.path) }

  function EdgeKey(e: Edge): Key { (e.source, e.role, e.to) }

  /** Where `a` and `b` first differ, `a` has the lesser text. */
  ghost predicate InOrder(a: Key, b: Key) {
    var x, y := [a.0, a.1, a.2], [b.0, b.1, b.2];
    forall k :: 0 <= k < 3 && x[..k] == y[..k] ==> x[k] == y[k] || Less(x[k], y[k])
  }

  lemma InOrderMeans(a: Key, b: Key)
    requires !Less3(b, a)
    ensures InOrder(a, b)
  {
    hide Less;
    var x, y := [a.0, a.1, a.2], [b.0, b.1, b.2];
    LessTotal(a.0, b.0);
    LessTotal(a.1, b.1);
    LessTotal(a.2, b.2);
    forall k | 0 <= k < 3 && x[..k] == y[..k]
      ensures x[k] == y[k] || Less(x[k], y[k])
    {
      if k > 0 {
        assert x[..k][0] == y[..k][0];
      }
      if k > 1 {
        assert x[..k][1] == y[..k][1];
      }
    }
  }

  ghost predicate IsSorted<T(!new)>(s: seq<T>, key: T -> Key) {
    forall i, j :: 0 <= i < j < |s| ==> InOrder(key(s[i]), key(s[j]))
  }

  lemma KeyOrder<T(!new)>(before: (T, T) -> bool, key: T -> Key)
    requires forall a, b :: before(a, b) <==> Less3(key(a), key(b))
    ensures Sorting.IsKeyOrder(before)
  {
    hide Less3;
    forall a, b | before(a, b)
      ensures !before(b, a)
    {
      Less3IsKeyOrder(key(a), key(b), key(a));
    }
    forall a, b, c | !before(b, a) && !before(c, b)
      ensures !before(c, a)
    {
      Less3IsKeyOrder(key(a), key(b), key(c));
    }
  }

  lemma SortedBy<T(!new)>(s: seq<T>, before: (T, T) -> bool, key: T -> Key)
    requires forall a, b :: before(a, b) <==> Less3(key(a), key(b))
    ensures IsSorted(Sorting.Sort(s, before), key)
    ensures multiset(Sorting.Sort(s, before)) == multiset(s)
  {
    hide Less3, InOrder, Sorting.Sort;
    KeyOrder(before, key);
    Sorting.SortAscends(s, before);
    Sorting.SortPermutes(s, before);
    var sorted := Sorting.Sort(s, before);
    forall i, j | 0 <= i < j < |sorted|
      ensures InOrder(key(sorted[i]), key(sorted[j]))
    {
      assert !before(sorted[j], sorted[i]);
      InOrderMeans(key(sorted[i]), key(sorted[j]));
    }
  }

  /** Subjects are sorted by target, nodes by target, role and path, edges by source, role and end. */
  lemma GraphIsSorted(input: Input)
    ensures IsSorted(GraphOf(input).subjects, SubjectKey)
    ensures IsSorted(GraphOf(input).nodes, NodeKey)
    ensures IsSorted(GraphOf(input).edges, EdgeKey)
  {
    hide AllSubjects, AllNodes, AllEdges, Less, Sorting.Sort, InOrder;
    assert forall a: string :: !Less(a, a) by {
      forall a: string
        ensures !Less(a, a)
      {
        LessIsKeyOrder(a, a, a);
      }
    }
    SortedBy(AllSubjects(input, input.rows), (a: Subject, b: Subject) => Less(a.target, b.target), SubjectKey);
    SortedBy(AllNodes(input, input.rows), (a: Node, b: Node) => Less3((a.target, a.role, a.path), (b.target, b.role, b.path)), NodeKey);
    SortedBy(AllEdges(input, input.rows), (a: Edge, b: Edge) => Less3((a.source, a.role, a.to), (b.source, b.role, b.to)), EdgeKey);
  }

  // ---------------------------------------------------------------- edges

  /** An edge from the node's subject to the node, which requires it exactly if the node is required and else observes it. */
  predicate Links(e: Edge, n: Node) {
    && e.source == n.subjectId && e.to == n.id && e.role == n.role
    && e.relationship == (if n.required then "requires" else "observes")
  }

  lemma {:induction false} RowsLink(input: Input, rows: seq<Row>)
    ensures |AllNodes(input, rows)| == |AllEdges(input, rows)|
    ensures forall i :: 0 <= i < |AllNodes(input, rows)| ==> Links(AllEdges(input, rows)[i], AllNodes(input, rows)[i])
  {
    hide Specs, Covered, NodeId, SubjectId;
    if rows != [] {
      RowsLink(input, rows[..|rows| - 1]);
    }
  }

  /** Every node has its edge, and every edge its node. */
  lemma EdgesFollowNodes(input: Input)
    ensures forall n :: n in GraphOf(input).nodes ==> exists e :: e in GraphOf(input).edges && Links(e, n)
    ensures forall e :: e in GraphOf(input).edges ==> exists n :: n in GraphOf(input).nodes && Links(e, n)
    ensures |GraphOf(input).nodes| == |GraphOf(input).edges|
  {
    hide AllSubjects, AllNodes, AllEdges, Less3, Sorting.Sort, Links, SortSubjects;
    var g := GraphOf(input);
    var nodes, edges := AllNodes(input, input.rows), AllEdges(input, input.rows);
    RowsLink(input, input.rows);
    SortedBy(nodes, (a: Node, b: Node) => Less3((a.target, a.role, a.path), (b.target, b.role, b.path)), NodeKey);
    SortedBy(edges, (a: Edge, b: Edge) => Less3((a.source, a.role, a.to), (b.source, b.role, b.to)), EdgeKey);
    Sorting.SamePermutation(g.nodes, nodes);
    Sorting.SamePermutation(g.edges, edges);
    forall n | n in g.nodes
      ensures exists e :: e in g.edges && Links(e, n)
    {
      var i :| 0 <= i < |nodes| && nodes[i] == n;
      assert edges[i] in g.edges && Links(edges[i], n);
    }
    forall e | e in g.edges
      ensures exists n :: n in g.nodes && Links(e, n)
    {
      var i :| 0 <= i < |edges| && edges[i] == e;
      assert nodes[i] in g.nodes && Links(e, nodes[i]);
    }
  }
}
