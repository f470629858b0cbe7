/**
 The support graph: snapshots, the lookup indexes built from them, and what an admissible walk,
 a distance and a supporting adjacency entry are.
 */
module SupportGraph {
  import opened Common

  datatype Node = Node(nodeId: string, recordId: string, nodeType: string, projectScope: string,
                       workspaceId: Option<string>)

  datatype Edge = Edge(edgeId: string, from: string, to: string, kind: string, confidenceLabel: string,
                       projectScope: string)

  datatype Snapshot = Snapshot(nodes: seq<Node>, edges: seq<Edge>)

  datatype Filter = Filter(projectScope: Option<string>, workspaceId: Option<string>)

  datatype Indexes = Indexes(nodeIndex: map<string, Node>, edgeIndex: map<string, Edge>,
                             adjacency: map<string, seq<string>>)

  /** One hop of a walk, as the query reports it. */
  datatype Hop = Hop(from: string, to: string, edgeId: string, kind: string, confidenceLabel: string)

  datatype Walk = Walk(nodePath: seq<string>, edgePath: seq<string>, hops: seq<Hop>)

  predicate MatchesScope(requested: Option<string>, value: string) {
    requested.None? || requested.value in ["", "global"] || value == "global" || value == requested.value
  }

  predicate MatchesWorkspace(requested: Option<string>, value: Option<string>) {
    requested.None? || requested.value == "" || value == requested
  }

  predicate AdmitsNode(f: Filter, node: Node) {
    MatchesScope(f.projectScope, node.projectScope) && MatchesWorkspace(f.workspaceId, node.workspaceId)
  }

  /** An empty or global scope asks for everything, and what is global belongs to every scope. */
  ghost predicate InScope(f: Filter, scope: string) {
    f.projectScope == None || f.projectScope == Some("") || f.projectScope == Some("global") || scope == "global"
      || f.projectScope == Some(scope)
  }

  ghost predicate Admits(f: Filter, node: Node) {
    && InScope(f, node.projectScope)
    && (f.workspaceId == None || f.workspaceId == Some("") || node.workspaceId == f.workspaceId)
  }

  lemma AdmissionExactly(f: Filter)
    ensures forall scope :: MatchesScope(f.projectScope, scope) <==> InScope(f, scope)
    ensures forall node :: AdmitsNode(f, node) <==> Admits(f, node)
  {
  }

  // ---------------------------------------------------------------- indexes

  function NodeIndex(nodes: seq<Node>): (index: map<string, Node>)
    ensures forall id :: id in index ==> index[id] in nodes && index[id].nodeId == id
    ensures forall node :: node in nodes ==> node.nodeId in index
  {
    if nodes == [] then map[] else NodeIndex(nodes[..|nodes| - 1])[nodes[|nodes| - 1].nodeId := nodes[|nodes| - 1]]
  }

  function EdgeIndex(edges: seq<Edge>): (index: map<string, Edge>)
    ensures forall id :: id in index ==> index[id] in edges && index[id].edgeId == id
    ensures forall edge :: edge in edges ==> edge.edgeId in index
  {
    if edges == [] then map[] else EdgeIndex(edges[..|edges| - 1])[edges[|edges| - 1].edgeId := edges[|edges| - 1]]
  }

  function Append(adjacency: map<string, seq<string>>, key: string, value: string): map<string, seq<string>> {
    adjacency[key := (if key in adjacency then adjacency[key] else []) + [value]]
  }

  function Adjacency(edges: seq<Edge>): map<string, seq<string>> {
    if edges == [] then map[]
    else
      var edge := edges[|edges| - 1];
      Append(Append(Adjacency(edges[..|edges| - 1]), edge.from, edge.edgeId), edge.to, edge.edgeId)
  }

  function IndexesOf(snapshot: Snapshot): Indexes {
    Indexes(NodeIndex(snapshot.nodes), EdgeIndex(snapshot.edges), Adjacency(snapshot.edges))
  }

  function Entries(g: Indexes, u: string): seq<string> {
    if u in g.adjacency then g.adjacency[u] else []
  }

  /** What the search loops rely on: adjacency lists name indexed edges, and ids index their own record. */
  ghost predicate WellFormed(g: Indexes) {
    && (forall u, i :: 0 <= i < |Entries(g, u)| ==> Entries(g, u)[i] in g.edgeIndex)
    && (forall id :: id in g.edgeIndex ==> g.edgeIndex[id].edgeId == id)
    && (forall id :: id in g.nodeIndex ==> g.nodeIndex[id].nodeId == id)
  }

  lemma {:induction false} AdjacencyListsTouchingEdges(edges: seq<Edge>, u: string, id: string)
    ensures var adjacency := Adjacency(edges);
            (u in adjacency && id in adjacency[u]) <==>
            exists k :: 0 <= k < |edges| && edges[k].edgeId == id && (edges[k].from == u || edges[k].to == u)
  {
    if edges != [] {
      var prefix, last := edges[..|edges| - 1], edges[|edges| - 1];
      AdjacencyListsTouchingEdges(prefix, u, id);
      if exists k :: 0 <= k < |edges| && edges[k].edgeId == id && (edges[k].from == u || edges[k].to == u) {
        var k :| 0 <= k < |edges| && edges[k].edgeId == id && (edges[k].from == u || edges[k].to == u);
        if k < |prefix| {
          assert prefix[k] == edges[k];
        }
      }
      if u in Adjacency(prefix) && id in Adjacency(prefix)[u] {
        var k :| 0 <= k < |prefix| && prefix[k].edgeId == id && (prefix[k].from == u || prefix[k].to == u);
        assert edges[k] == prefix[k];
      }
      if last.edgeId == id && (last.from == u || last.to == u) {
        assert edges[|edges| - 1].edgeId == id;
      }
    }
  }

  lemma SnapshotIndexesAreWellFormed(snapshot: Snapshot)
    ensures WellFormed(IndexesOf(snapshot))
  {
    var g := IndexesOf(snapshot);
    forall u, i | 0 <= i < |Entries(g, u)|
      ensures Entries(g, u)[i] in g.edgeIndex
    {
      AdjacencyListsTouchingEdges(snapshot.edges, u, Entries(g, u)[i]);
    }
  }

  // ---------------------------------------------------------------- admissible walks

  /** The node an adjacency entry of u leads to, when the filter admits the edge and the node. */
  function Next(g: Indexes, f: Filter, u: string, edgeId: string): Option<string>
    requires edgeId in g.edgeIndex
  {
    var edge := g.edgeIndex[edgeId];
    if !MatchesScope(f.projectScope, edge.projectScope) then None
    else
      var v := if edge.from == u then edge.to else edge.from;
      if v !in g.nodeIndex || !AdmitsNode(f, g.nodeIndex[v]) then None else Some(v)
  }

  ghost predicate Linked(g: Indexes, f: Filter, u: string, edgeId: string, v: string) {
    edgeId in Entries(g, u) && edgeId in g.edgeIndex && Next(g, f, u, edgeId) == Some(v)
  }

  /** The same relation read off the snapshot alone: an edge in scope that joins u to an admitted node v. */
  ghost predicate SnapshotLinked(snapshot: Snapshot, f: Filter, u: string, edgeId: string, v: string) {
    && (exists edge ::
          && edge in snapshot.edges && edge.edgeId == edgeId && InScope(f, edge.projectScope)
          && ((edge.from == u && edge.to == v) || (edge.to == u && edge.from == v)))
    && (exists node :: node in snapshot.nodes && node.nodeId == v && Admits(f, node))
  }

  ghost predicate UniqueIds(snapshot: Snapshot) {
    && (forall i, j :: 0 <= i < j < |snapshot.nodes| ==> snapshot.nodes[i].nodeId != snapshot.nodes[j].nodeId)
    && (forall i, j :: 0 <= i < j < |snapshot.edges| ==> snapshot.edges[i].edgeId != snapshot.edges[j].edgeId)
  }

  ghost predicate WalkShape(from: string, to: string, w: Walk) {
    && |w.nodePath| == |w.edgePath| + 1 && |w.hops| == |w.edgePath|
    && w.nodePath[0] == from && w.nodePath[|w.edgePath|] == to
  }

  ghost predicate AdmissibleWalk(g: Indexes, f: Filter, from: string, to: string, w: Walk) {
    && WalkShape(from, to, w)
    && forall i {:trigger w.edgePath[i]} :: 0 <= i < |w.edgePath| ==>
         && Linked(g, f, w.nodePath[i], w.edgePath[i], w.nodePath[i + 1])
         && var edge := g.edgeIndex[w.edgePath[i]];
            w.hops[i] == Hop(w.nodePath[i], w.nodePath[i + 1], w.edgePath[i], edge.kind, edge.confidenceLabel)
  }

  ghost predicate SnapshotWalk(snapshot: Snapshot, f: Filter, from: string, to: string, nodePath: seq<string>,
                               edgePath: seq<string>)
  {
    && |nodePath| == |edgePath| + 1 && nodePath[0] == from && nodePath[|edgePath|] == to
    && forall i {:trigger edgePath[i]} :: 0 <= i < |edgePath| ==>
         SnapshotLinked(snapshot, f, nodePath[i], edgePath[i], nodePath[i + 1])
  }

  lemma UniqueEdgeLooksUp(edges: seq<Edge>, edge: Edge)
    requires forall i, j :: 0 <= i < j < |edges| ==> edges[i].edgeId != edges[j].edgeId
    requires edge in edges
    ensures EdgeIndex(edges)[edge.edgeId] == edge
  {
    var found := EdgeIndex(edges)[edge.edgeId];
    var i :| 0 <= i < |edges| && edges[i] == edge;
    var j :| 0 <= j < |edges| && edges[j] == found;
    assert i == j;
  }

  lemma UniqueNodeLooksUp(nodes: seq<Node>, node: Node)
    requires forall i, j :: 0 <= i < j < |nodes| ==> nodes[i].nodeId != nodes[j].nodeId
    requires node in nodes
    ensures NodeIndex(nodes)[node.nodeId] == node
  {
    var found := NodeIndex(nodes)[node.nodeId];
    var i :| 0 <= i < |nodes| && nodes[i] == node;
    var j :| 0 <= j < |nodes| && nodes[j] == found;
    assert i == j;
  }

  lemma IndexedLinkIsInSnapshot(snapshot: Snapshot, f: Filter, u: string, edgeId: string, v: string)
    requires UniqueIds(snapshot) && Linked(IndexesOf(snapshot), f, u, edgeId, v)
    ensures SnapshotLinked(snapshot, f, u, edgeId, v)
  {
    AdjacencyListsTouchingEdges(snapshot.edges, u, edgeId);
    var k :| 0 <= k < |snapshot.edges| && snapshot.edges[k].edgeId == edgeId
      && (snapshot.edges[k].from == u || snapshot.edges[k].to == u);
    var edge := snapshot.edges[k];
    UniqueEdgeLooksUp(snapshot.edges, edge);
    assert edge in snapshot.edges && EdgeIndex(snapshot.edges)[edgeId] == edge;
    var node := NodeIndex(snapshot.nodes)[v];
    AdmissionExactly(f);
    assert node in snapshot.nodes && node.nodeId == v && Admits(f, node);
  }

  lemma EdgeIsListed(edges: seq<Edge>, u: string, edge: Edge)
    requires edge in edges && (edge.from == u || edge.to == u)
    ensures u in Adjacency(edges) && edge.edgeId in Adjacency(edges)[u]
  {
    hide Adjacency;
    AdjacencyListsTouchingEdges(edges, u, edge.edgeId);
  }

  lemma SnapshotLinkIsIndexed(snapshot: Snapshot, f: Filter, u: string, edgeId: string, v: string)
    requires UniqueIds(snapshot) && SnapshotLinked(snapshot, f, u, edgeId, v)
    ensures Linked(IndexesOf(snapshot), f, u, edgeId, v)
  {
    hide Adjacency, NodeIndex, EdgeIndex, MatchesScope, AdmitsNode, InScope, Admits;
    AdmissionExactly(f);
    var edge :| edge in snapshot.edges && edge.edgeId == edgeId && InScope(f, edge.projectScope)
        && ((edge.from == u && edge.to == v) || (edge.to == u && edge.from == v));
    EdgeIsListed(snapshot.edges, u, edge);
    var node :| node in snapshot.nodes && node.nodeId == v && Admits(f, node);
    UniqueNodeLooksUp(snapshot.nodes, node);
    UniqueEdgeLooksUp(snapshot.edges, edge);
  }

  /** The indexed relation is the snapshot's own, given that no two nodes and no two edges share an id. */
  lemma IndexedLinkIsSnapshotLink(snapshot: Snapshot, f: Filter, u: string, edgeId: string, v: string)
    requires UniqueIds(snapshot)
    ensures Linked(IndexesOf(snapshot), f, u, edgeId, v) <==> SnapshotLinked(snapshot, f, u, edgeId, v)
  {
    if Linked(IndexesOf(snapshot), f, u, edgeId, v) {
      IndexedLinkIsInSnapshot(snapshot, f, u, edgeId, v);
    }
    if SnapshotLinked(snapshot, f, u, edgeId, v) {
      SnapshotLinkIsIndexed(snapshot, f, u, edgeId, v);
    }
  }

  /** The hops a walk reports are determined by its nodes and edges. */
  ghost function HopsOf(g: Indexes, nodePath: seq<string>, edgePath: seq<string>): seq<Hop>
    requires |nodePath| == |edgePath| + 1
    requires forall i :: 0 <= i < |edgePath| ==> edgePath[i] in g.edgeIndex
  {
    seq(|edgePath|, i requires 0 <= i < |edgePath| =>
      Hop(nodePath[i], nodePath[i + 1], edgePath[i], g.edgeIndex[edgePath[i]].kind,
          g.edgeIndex[edgePath[i]].confidenceLabel))
  }

  lemma SnapshotWalkIsAdmissible(snapshot: Snapshot, f: Filter, from: string, to: string, nodePath: seq<string>,
                                 edgePath: seq<string>)
      returns (w: Walk)
    requires UniqueIds(snapshot) && SnapshotWalk(snapshot, f, from, to, nodePath, edgePath)
    ensures AdmissibleWalk(IndexesOf(snapshot), f, from, to, w) && w.nodePath == nodePath && w.edgePath == edgePath
  {
    var g := IndexesOf(snapshot);
    forall i | 0 <= i < |edgePath|
      ensures Linked(g, f, nodePath[i], edgePath[i], nodePath[i + 1])
    {
      IndexedLinkIsSnapshotLink(snapshot, f, nodePath[i], edgePath[i], nodePath[i + 1]);
    }
    w := Walk(nodePath, edgePath, HopsOf(g, nodePath, edgePath));
  }

  lemma AdmissibleWalkIsSnapshotWalk(snapshot: Snapshot, f: Filter, from: string, to: string, w: Walk)
    requires UniqueIds(snapshot) && AdmissibleWalk(IndexesOf(snapshot), f, from, to, w)
    ensures SnapshotWalk(snapshot, f, from, to, w.nodePath, w.edgePath)
  {
    forall i | 0 <= i < |w.edgePath|
      ensures SnapshotLinked(snapshot, f, w.nodePath[i], w.edgePath[i], w.nodePath[i + 1])
    {
      IndexedLinkIsSnapshotLink(snapshot, f, w.nodePath[i], w.edgePath[i], w.nodePath[i + 1]);
    }
  }

  // ---------------------------------------------------------------- distances

  /** The nodes some admissible walk of at most k edges reaches. */
  ghost function Reach(g: Indexes, f: Filter, from: string, k: nat): set<string> {
    if k == 0 then {from}
    else
      Reach(g, f, from, k - 1)
      + set v | v in g.nodeIndex && exists u, e :: u in Reach(g, f, from, k - 1) && Linked(g, f, u, e, v)
  }

  lemma {:induction false} WalkStaysInReach(g: Indexes, f: Filter, from: string, to: string, w: Walk)
    requires AdmissibleWalk(g, f, from, to, w)
    ensures to in Reach(g, f, from, |w.edgePath|)
    decreases |w.edgePath|
  {
    var n := |w.edgePath|;
    if n > 0 {
      var shorter := Walk(w.nodePath[..n], w.edgePath[..n - 1], w.hops[..n - 1]);
      assert AdmissibleWalk(g, f, from, w.nodePath[n - 1], shorter) by {
        forall i {:trigger shorter.edgePath[i]} | 0 <= i < |shorter.edgePath|
          ensures shorter.edgePath[i] == w.edgePath[i]
                    && Linked(g, f, shorter.nodePath[i], shorter.edgePath[i], shorter.nodePath[i + 1])
        {
          assert Linked(g, f, w.nodePath[i], w.edgePath[i], w.nodePath[i + 1]);
        }
      }
      WalkStaysInReach(g, f, from, w.nodePath[n - 1], shorter);
      assert Linked(g, f, w.nodePath[n - 1], w.edgePath[n - 1], to);
    }
  }

  lemma {:induction false} ReachGrows(g: Indexes, f: Filter, from: string, j: nat, k: nat)
    requires j <= k
    ensures Reach(g, f, from, j) <= Reach(g, f, from, k)
  {
    if j < k {
      ReachGrows(g, f, from, j, k - 1);
    }
  }

  /** w is a shortest admissible walk. */
  ghost predicate ShortestWalk(g: Indexes, f: Filter, from: string, to: string, w: Walk) {
    && AdmissibleWalk(g, f, from, to, w)
    && forall other :: AdmissibleWalk(g, f, from, to, other) ==> |w.edgePath| <= |other.edgePath|
  }

  /** The admissible adjacency entries that lead to v from the nodes in sources. */
  ghost function SupportingEntries(g: Indexes, f: Filter, sources: set<string>, v: string): set<(string, int)>
    requires WellFormed(g)
  {
    set u, i | u in sources && 0 <= i < |Entries(g, u)| && Next(g, f, u, Entries(g, u)[i]) == Some(v) :: (u, i)
  }
}
