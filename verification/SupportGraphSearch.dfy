/**
 Breadth-first search over the support graph: shortest path and bounded expansion. Both loops keep
 a tree of predecessors, a queue whose depths never differ by more than one, and the set of nodes
 already expanded.
 */
module SupportGraphSearch {
  import opened Common
  import opened SupportGraph

  datatype Visit = Visit(nodeId: string, depth: nat)

  datatype Predecessor = Predecessor(nodeId: string, edgeId: string)

  datatype QueryError = NodeNotFound | AmbiguousRecordId

  datatype PathQuery = NoPath | PathFound(walk: Walk)

  datatype Related = Related(node: Node, distance: nat, supportCount: nat, score: int, examplePath: Walk)

  // ---------------------------------------------------------------- naming a node

  function ByRecordId(nodes: seq<Node>, recordId: string): seq<Node> {
    if nodes == [] then []
    else ByRecordId(nodes[..|nodes| - 1], recordId)
         + if nodes[|nodes| - 1].recordId == recordId then [nodes[|nodes| - 1]] else []
  }

  function ResolveNodeId(snapshot: Snapshot, candidate: string): Result<string, QueryError> {
    if exists node :: node in snapshot.nodes && node.nodeId == candidate then Success(candidate)
    else
      var matches := ByRecordId(snapshot.nodes, candidate);
      if |matches| == 1 then Success(matches[0].nodeId)
      else if |matches| > 1 then Failure(AmbiguousRecordId)
      else Failure(NodeNotFound)
  }

  lemma {:induction false} ByRecordIdSelects(nodes: seq<Node>, recordId: string)
    ensures forall node :: node in ByRecordId(nodes, recordId) <==> node in nodes && node.recordId == recordId
  {
    if nodes != [] {
      ByRecordIdSelects(nodes[..|nodes| - 1], recordId);
      assert nodes == nodes[..|nodes| - 1] + [nodes[|nodes| - 1]];
    }
  }

  /** A name resolves only to a node of the snapshot, and a node id always resolves to itself. */
  lemma ResolutionNamesANode(snapshot: Snapshot, candidate: string)
    ensures var r := ResolveNodeId(snapshot, candidate);
            && (r.Success? ==> r.value in NodeIndex(snapshot.nodes))
            && (candidate in NodeIndex(snapshot.nodes) ==> r == Success(candidate))
            && (r == Failure(NodeNotFound) <==>
                forall node :: node in snapshot.nodes ==> node.nodeId != candidate && node.recordId != candidate)
  {
    ByRecordIdSelects(snapshot.nodes, candidate);
    var matches := ByRecordId(snapshot.nodes, candidate);
    if |matches| > 0 {
      assert matches[0] in snapshot.nodes && matches[0].recordId == candidate;
    }
  }

  /** No node has the name as its id or as its record id. */
  ghost predicate Nameless(nodes: seq<Node>, name: string) {
    forall i :: 0 <= i < |nodes| ==> nodes[i].nodeId != name && nodes[i].recordId != name
  }

  /** No node has the name as its id, and two have it as their record id. */
  ghost predicate Ambiguous(nodes: seq<Node>, name: string) {
    && (forall i :: 0 <= i < |nodes| ==> nodes[i].nodeId != name)
    && exists i, j :: 0 <= i < j < |nodes| && nodes[i].recordId == name && nodes[j].recordId == name
  }

  /** The name is the node id itself, or it is no node id and the record id of that one node alone. */
  ghost predicate Names(nodes: seq<Node>, name: string, nodeId: string) {
    || (nodeId == name && exists i :: 0 <= i < |nodes| && nodes[i].nodeId == name)
    || ((forall i :: 0 <= i < |nodes| ==> nodes[i].nodeId != name)
        && exists i :: OnlyBearer(nodes, name, i) && nodes[i].nodeId == nodeId)
  }

  ghost predicate OnlyBearer(nodes: seq<Node>, name: string, i: int) {
    && 0 <= i < |nodes| && nodes[i].recordId == name
    && forall j :: 0 <= j < |nodes| && nodes[j].recordId == name ==> j == i
  }

  ghost predicate Borne(nodes: seq<Node>, name: string) {
    exists i :: 0 <= i < |nodes| && nodes[i].recordId == name
  }

  lemma BearersOfPrefix(nodes: seq<Node>, last: Node, name: string)
    ensures Borne(nodes + [last], name) <==> Borne(nodes, name) || last.recordId == name
    ensures last.recordId != name ==> forall i :: OnlyBearer(nodes + [last], name, i) <==> OnlyBearer(nodes, name, i)
    ensures last.recordId == name ==>
              forall i :: OnlyBearer(nodes + [last], name, i) <==> i == |nodes| && !Borne(nodes, name)
    ensures forall i :: OnlyBearer(nodes, name, i) ==> 0 <= i < |nodes|
  {
    var more := nodes + [last];
    assert forall j :: 0 <= j < |nodes| ==> more[j] == nodes[j];
    if Borne(nodes, name) {
      var j :| 0 <= j < |nodes| && nodes[j].recordId == name;
      assert more[j].recordId == name;
    }
    if last.recordId == name {
      assert more[|nodes|].recordId == name;
    }
  }

  lemma {:induction false} ByRecordIdCounts(nodes: seq<Node>, name: string)
    ensures var matches := ByRecordId(nodes, name);
            && (|matches| == 0 <==> !Borne(nodes, name))
            && (|matches| == 1 <==> exists i :: OnlyBearer(nodes, name, i))
            && (forall i :: OnlyBearer(nodes, name, i) ==> 0 <= i < |nodes| && matches == [nodes[i]])
  {
    hide OnlyBearer, Borne;
    if nodes == [] {
      NobodyBears(name);
    } else {
      var n := |nodes| - 1;
      ByRecordIdCounts(nodes[..n], name);
      assert nodes == nodes[..n] + [nodes[n]];
      BearersOfPrefix(nodes[..n], nodes[n], name);
      assert OnlyBearer(nodes, name, n) <==> nodes[n].recordId == name && !Borne(nodes[..n], name);
      forall i | OnlyBearer(nodes, name, i)
        ensures 0 <= i < |nodes| && ByRecordId(nodes, name) == [nodes[i]]
      {
        if nodes[n].recordId != name {
          assert OnlyBearer(nodes[..n], name, i);
        }
      }
    }
  }

  lemma NobodyBears(name: string)
    ensures !Borne([], name) && forall i :: !OnlyBearer([], name, i)
  {
  }

  /** What a name stands for, said of the snapshot's nodes alone; exactly one of the three applies. */
  lemma ResolutionExactlyWhen(snapshot: Snapshot, name: string)
    ensures var r := ResolveNodeId(snapshot, name);
            && (forall v :: r == Success(v) <==> Names(snapshot.nodes, name, v))
            && (r == Failure(AmbiguousRecordId) <==> Ambiguous(snapshot.nodes, name))
            && (r == Failure(NodeNotFound) <==> Nameless(snapshot.nodes, name))
  {
    var nodes := snapshot.nodes;
    ByRecordIdCounts(nodes, name);
    hide ByRecordId, OnlyBearer;
    if (forall i :: 0 <= i < |nodes| ==> nodes[i].nodeId != name) && |ByRecordId(nodes, name)| > 1 {
      SeveralBearers(nodes, name);
    }
    TwoBearersAreNotOne(nodes, name);
  }

  lemma SeveralBearers(nodes: seq<Node>, name: string)
    requires |ByRecordId(nodes, name)| > 1
    ensures exists i, j :: 0 <= i < j < |nodes| && nodes[i].recordId == name && nodes[j].recordId == name
  {
    ByRecordIdCounts(nodes, name);
    hide ByRecordId;
    var i :| 0 <= i < |nodes| && nodes[i].recordId == name;
    assert !OnlyBearer(nodes, name, i);
  }

  lemma TwoBearersAreNotOne(nodes: seq<Node>, name: string)
    ensures (exists i, j :: 0 <= i < j < |nodes| && nodes[i].recordId == name && nodes[j].recordId == name) ==>
              forall i :: !OnlyBearer(nodes, name, i)
    ensures forall i :: OnlyBearer(nodes, name, i) ==> 0 <= i < |nodes| && nodes[i].recordId == name
  {
  }

  // ---------------------------------------------------------------- search invariants

  /** Every discovered node but the root hangs one level below an admissible predecessor. */
  ghost predicate Tree(g: Indexes, f: Filter, root: string, depth: map<string, nat>, previous: map<string, Predecessor>)
  {
    && root in depth && depth[root] == 0
    && previous.Keys == depth.Keys - {root}
    && forall v :: v in previous ==>
         && previous[v].nodeId in depth && depth[v] == depth[previous[v].nodeId] + 1
         && Linked(g, f, previous[v].nodeId, previous[v].edgeId, v)
  }

  ghost function Waiting(queue: seq<Visit>): set<string> {
    set q | q in queue :: q.nodeId
  }

  /** The queue holds each waiting node once, by depth, and only depths d and d + 1. */
  ghost predicate Frontier(depth: map<string, nat>, queue: seq<Visit>, popped: set<string>, d: nat) {
    && depth.Keys == popped + Waiting(queue)
    && (forall i :: 0 <= i < |queue| ==>
          queue[i].nodeId in depth && depth[queue[i].nodeId] == queue[i].depth && queue[i].nodeId !in popped)
    && (forall i, j :: 0 <= i < j < |queue| ==> queue[i].depth <= queue[j].depth && queue[i].nodeId != queue[j].nodeId)
    && (forall i :: 0 <= i < |queue| ==> d <= queue[i].depth <= d + 1)
    && (forall u :: u in popped ==> depth[u] <= d)
  }

  /** u's admissible neighbours are discovered, at most one level further away. */
  ghost predicate Expanded(g: Indexes, f: Filter, depth: map<string, nat>, u: string)
    requires u in depth
  {
    forall e, v :: Linked(g, f, u, e, v) ==> v in depth && depth[v] <= depth[u] + 1
  }

  ghost predicate Closed(g: Indexes, f: Filter, depth: map<string, nat>, popped: set<string>, maxDepth: int) {
    && popped <= depth.Keys
    && forall u :: u in popped && depth[u] < maxDepth ==> Expanded(g, f, depth, u)
  }

  lemma {:induction false} ReachIsDiscovered(g: Indexes, f: Filter, root: string, depth: map<string, nat>,
                                             previous: map<string, Predecessor>, popped: set<string>, maxDepth: int,
                                             k: nat)
    requires Tree(g, f, root, depth, previous) && Closed(g, f, depth, popped, maxDepth)
    requires k <= maxDepth || k == 0
    requires forall u :: u in depth && depth[u] < k ==> u in popped
    ensures forall v :: v in Reach(g, f, root, k) ==> v in depth && depth[v] <= k
  {
    if k > 0 {
      ReachIsDiscovered(g, f, root, depth, previous, popped, maxDepth, k - 1);
      forall v | v in Reach(g, f, root, k)
        ensures v in depth && depth[v] <= k
      {
        if v !in Reach(g, f, root, k - 1) {
          var u, e :| u in Reach(g, f, root, k - 1) && Linked(g, f, u, e, v);
          assert Expanded(g, f, depth, u);
        }
      }
    }
  }

  lemma EnqueueKeepsFrontier(depth: map<string, nat>, queue: seq<Visit>, popped: set<string>, d: nat, v: string)
    requires Frontier(depth, queue, popped, d) && v !in depth
    ensures Frontier(depth[v := d + 1], queue + [Visit(v, d + 1)], popped, d)
  {
    var longer := queue + [Visit(v, d + 1)];
    assert Waiting(longer) == Waiting(queue) + {v} by {
      forall x | x in Waiting(queue) + {v}
        ensures x in Waiting(longer)
      {
        if x == v {
          assert longer[|queue|] == Visit(v, d + 1);
        } else {
          var q :| q in queue && q.nodeId == x;
          assert q in longer;
        }
      }
    }
    assert (depth[v := d + 1]).Keys == depth.Keys + {v};
  }

  lemma WaitingAfterFirst(queue: seq<Visit>)
    requires queue != []
    ensures Waiting(queue) == {queue[0].nodeId} + Waiting(queue[1..])
  {
    forall x | x in Waiting(queue)
      ensures x == queue[0].nodeId || x in Waiting(queue[1..])
    {
      var q :| q in queue && q.nodeId == x;
      assert q == queue[0] || q in queue[1..];
    }
  }

  lemma DequeueKeepsFrontier(depth: map<string, nat>, queue: seq<Visit>, popped: set<string>, d: nat)
    requires Frontier(depth, queue, popped, d) && queue != []
    ensures Frontier(depth, queue[1..], popped + {queue[0].nodeId}, queue[0].depth)
    ensures queue[0].nodeId in depth && queue[0].nodeId !in popped
  {
    WaitingAfterFirst(queue);
    hide Waiting;
    forall i | 0 <= i < |queue[1..]|
      ensures queue[0].depth <= queue[1..][i].depth <= queue[0].depth + 1 && queue[1..][i].nodeId != queue[0].nodeId
    {
      assert queue[1..][i] == queue[i + 1];
    }
  }

  /**
   The state between two steps of either search. While a node is being expanded it is popped but
   not yet closed; between expansions the two sets agree.
   */
  ghost predicate Searching(g: Indexes, f: Filter, root: string, maxDepth: int, depth: map<string, nat>,
                            previous: map<string, Predecessor>, queue: seq<Visit>, popped: set<string>,
                            closed: set<string>, level: nat) {
    && Tree(g, f, root, depth, previous)
    && depth.Keys <= g.nodeIndex.Keys + {root}
    && Frontier(depth, queue, popped, level)
    && Closed(g, f, depth, closed, maxDepth)
    && closed <= popped
  }

  /** The first n adjacency entries of u have been followed. */
  ghost predicate PartlyExpanded(g: Indexes, f: Filter, depth: map<string, nat>, u: string, n: nat)
    requires WellFormed(g)
  {
    && u in depth && n <= |Entries(g, u)|
    && forall j :: 0 <= j < n ==> Next(g, f, u, Entries(g, u)[j]).Some? ==>
         var v := Next(g, f, u, Entries(g, u)[j]).value; v in depth && depth[v] <= depth[u] + 1
  }

  lemma StartSearch(g: Indexes, f: Filter, root: string, maxDepth: int)
    ensures Searching(g, f, root, maxDepth, map[root := 0], map[], [Visit(root, 0)], {}, {}, 0)
  {
    assert Waiting([Visit(root, 0)]) == {root} by {
      assert [Visit(root, 0)][0] in [Visit(root, 0)];
    }
  }

  lemma PopNode(g: Indexes, f: Filter, root: string, maxDepth: int, depth: map<string, nat>,
                previous: map<string, Predecessor>, queue: seq<Visit>, popped: set<string>, level: nat)
    requires WellFormed(g) && queue != []
               && Searching(g, f, root, maxDepth, depth, previous, queue, popped, popped, level)
    ensures var c := queue[0];
            && Searching(g, f, root, maxDepth, depth, previous, queue[1..], popped + {c.nodeId}, popped, c.depth)
            && PartlyExpanded(g, f, depth, c.nodeId, 0)
            && depth[c.nodeId] == c.depth && c.nodeId !in popped && c.nodeId in g.nodeIndex.Keys + {root}
  {
    DequeueKeepsFrontier(depth, queue, popped, level);
  }

  lemma SkipEntry(g: Indexes, f: Filter, root: string, maxDepth: int, depth: map<string, nat>,
                  previous: map<string, Predecessor>, queue: seq<Visit>, popped: set<string>, closed: set<string>,
                  level: nat,
                  u: string, i: nat)
    requires WellFormed(g) && Searching(g, f, root, maxDepth, depth, previous, queue, popped, closed, level)
    requires PartlyExpanded(g, f, depth, u, i) && i < |Entries(g, u)| && depth[u] == level
    requires var next := Next(g, f, u, Entries(g, u)[i]); next.None? || next.value in depth
    ensures PartlyExpanded(g, f, depth, u, i + 1)
    ensures forall v :: v in depth ==> depth[v] <= level + 1
  {
    forall v | v in depth
      ensures depth[v] <= level + 1
    {
      if v !in popped {
        assert v in Waiting(queue);
        var q :| q in queue && q.nodeId == v;
        var k :| 0 <= k < |queue| && queue[k] == q;
        assert queue[k].depth <= level + 1;
      }
    }
  }

  lemma DiscoverNode(g: Indexes, f: Filter, root: string, maxDepth: int, depth: map<string, nat>,
                     previous: map<string, Predecessor>, queue: seq<Visit>, popped: set<string>, closed: set<string>,
                     level: nat,
                     u: string, i: nat)
    requires WellFormed(g) && Searching(g, f, root, maxDepth, depth, previous, queue, popped, closed, level)
    requires PartlyExpanded(g, f, depth, u, i) && i < |Entries(g, u)| && depth[u] == level
    requires var next := Next(g, f, u, Entries(g, u)[i]); next.Some? && next.value !in depth
    ensures var e := Entries(g, u)[i];
            var v := Next(g, f, u, e).value;
            var deeper := depth[v := level + 1];
            && Searching(g, f, root, maxDepth, deeper, previous[v := Predecessor(u, e)], queue + [Visit(v, level + 1)],
                         popped, closed, level)
            && PartlyExpanded(g, f, deeper, u, i + 1)
  {
    var e := Entries(g, u)[i];
    var v := Next(g, f, u, e).value;
    assert Linked(g, f, u, e, v);
    EnqueueKeepsFrontier(depth, queue, popped, level, v);
    DeeperKeepsClosed(g, f, depth, closed, maxDepth, v, level + 1);
    FollowedOneMore(g, f, depth, u, i, level);
    DeeperKeepsTree(g, f, root, depth, previous, u, e, v);
    hide Frontier, Closed, PartlyExpanded, Tree;
  }

  lemma DeeperKeepsTree(g: Indexes, f: Filter, root: string, depth: map<string, nat>,
                        previous: map<string, Predecessor>, u: string, e: string, v: string)
    requires Tree(g, f, root, depth, previous) && u in depth && v !in depth && Linked(g, f, u, e, v)
    ensures Tree(g, f, root, depth[v := depth[u] + 1], previous[v := Predecessor(u, e)])
  {
  }

  lemma DeeperKeepsClosed(g: Indexes, f: Filter, depth: map<string, nat>, closed: set<string>, maxDepth: int, v: string,
                          d: nat)
    requires Closed(g, f, depth, closed, maxDepth) && v !in depth
    ensures Closed(g, f, depth[v := d], closed, maxDepth)
  {
    forall w | w in closed && depth[v := d][w] < maxDepth
      ensures Expanded(g, f, depth[v := d], w)
    {
      assert Expanded(g, f, depth, w);
    }
  }

  lemma FollowedOneMore(g: Indexes, f: Filter, depth: map<string, nat>, u: string, i: nat, level: nat)
    requires WellFormed(g) && PartlyExpanded(g, f, depth, u, i) && i < |Entries(g, u)| && depth[u] == level
    requires var next := Next(g, f, u, Entries(g, u)[i]); next.Some? && next.value !in depth
    ensures PartlyExpanded(g, f, depth[Next(g, f, u, Entries(g, u)[i]).value := level + 1], u, i + 1)
  {
  }

  lemma FinishNode(g: Indexes, f: Filter, root: string, maxDepth: int, depth: map<string, nat>,
                   previous: map<string, Predecessor>, queue: seq<Visit>, closed: set<string>, level: nat, u: string)
    requires WellFormed(g) && Searching(g, f, root, maxDepth, depth, previous, queue, closed + {u}, closed, level)
    requires u in depth && (depth[u] >= maxDepth || PartlyExpanded(g, f, depth, u, |Entries(g, u)|))
    ensures Searching(g, f, root, maxDepth, depth, previous, queue, closed + {u}, closed + {u}, level)
  {
    if depth[u] < maxDepth {
      forall e, v | Linked(g, f, u, e, v)
        ensures v in depth && depth[v] <= depth[u] + 1
      {
        var j :| 0 <= j < |Entries(g, u)| && Entries(g, u)[j] == e;
      }
    }
  }

  // ---------------------------------------------------------------- following predecessors back

  lemma PrependHop(g: Indexes, f: Filter, u: string, e: string, from: string, to: string, w: Walk)
    requires AdmissibleWalk(g, f, from, to, w) && Linked(g, f, u, e, from)
    ensures var hop := Hop(u, from, e, g.edgeIndex[e].kind, g.edgeIndex[e].confidenceLabel);
            AdmissibleWalk(g, f, u, to, Walk([u] + w.nodePath, [e] + w.edgePath, [hop] + w.hops))
  {
    var hop := Hop(u, from, e, g.edgeIndex[e].kind, g.edgeIndex[e].confidenceLabel);
    var longer := Walk([u] + w.nodePath, [e] + w.edgePath, [hop] + w.hops);
    forall i {:trigger longer.edgePath[i]} | 0 <= i < |longer.edgePath|
      ensures Linked(g, f, longer.nodePath[i], longer.edgePath[i], longer.nodePath[i + 1])
      ensures var edge := g.edgeIndex[longer.edgePath[i]];
              longer.hops[i] == Hop(longer.nodePath[i], longer.nodePath[i + 1], longer.edgePath[i], edge.kind,
                                    edge.confidenceLabel)
    {
      if i > 0 {
        assert longer.edgePath[i] == w.edgePath[i - 1] && longer.nodePath[i] == w.nodePath[i - 1];
        assert longer.nodePath[i + 1] == w.nodePath[i] && longer.hops[i] == w.hops[i - 1];
        assert Linked(g, f, w.nodePath[i - 1], w.edgePath[i - 1], w.nodePath[i]);
      }
    }
  }

  lemma ReversedPush<T>(s: seq<T>, x: T)
    ensures Reversed(s + [x]) == [x] + Reversed(s)
  {
    assert (s + [x])[..|s|] == s;
  }

  /** Walks predecessors from the target to the root, then turns the collected path round. */
  method MaterializePath(g: Indexes, fromNodeId: string, toNodeId: string, previous: map<string, Predecessor>,
                         ghost f: Filter, ghost depth: map<string, nat>)
      returns (walk: Walk)
    requires WellFormed(g) && Tree(g, f, fromNodeId, depth, previous) && toNodeId in depth
    ensures AdmissibleWalk(g, f, fromNodeId, toNodeId, walk)
    ensures |walk.edgePath| == depth[toNodeId]
  {
    var nodePath, edgePath: seq<string>, hops: seq<Hop> := [toNodeId], [], [];
    var cursor := toNodeId;
    while cursor != fromNodeId
      invariant cursor in depth
      invariant AdmissibleWalk(g, f, cursor, toNodeId, Walk(Reversed(nodePath), Reversed(edgePath), Reversed(hops)))
      invariant |edgePath| + depth[cursor] == depth[toNodeId]
      decreases depth[cursor]
    {
      var link := previous[cursor];
      var edge := g.edgeIndex[link.edgeId];
      PrependHop(g, f, link.nodeId, link.edgeId, cursor, toNodeId,
                 Walk(Reversed(nodePath), Reversed(edgePath), Reversed(hops)));
      ReversedPush(nodePath, link.nodeId);
      ReversedPush(edgePath, edge.edgeId);
      ReversedPush(hops, Hop(link.nodeId, cursor, edge.edgeId, edge.kind, edge.confidenceLabel));
      edgePath := edgePath + [edge.edgeId];
      hops := hops + [Hop(link.nodeId, cursor, edge.edgeId, edge.kind, edge.confidenceLabel)];
      nodePath := nodePath + [link.nodeId];
      cursor := link.nodeId;
    }
    walk := Walk(Reversed(nodePath), Reversed(edgePath), Reversed(hops));
  }

  method BuildIndexes(snapshot: Snapshot) returns (g: Indexes)
    ensures g == IndexesOf(snapshot) && WellFormed(g)
  {
    var adjacency: map<string, seq<string>> := map[];
    var i := 0;
    while i < |snapshot.edges|
      invariant 0 <= i <= |snapshot.edges|
      invariant adjacency == Adjacency(snapshot.edges[..i])
    {
      var edge := snapshot.edges[i];
      assert snapshot.edges[..i + 1][..i] == snapshot.edges[..i];
      adjacency := Append(adjacency, edge.from, edge.edgeId);
      adjacency := Append(adjacency, edge.to, edge.edgeId);
      i := i + 1;
    }
    assert snapshot.edges[..|snapshot.edges|] == snapshot.edges;
    g := Indexes(NodeIndex(snapshot.nodes), EdgeIndex(snapshot.edges), adjacency);
    SnapshotIndexesAreWellFormed(snapshot);
  }

  // ---------------------------------------------------------------- shortest path

  /** A node no closed level discovered has no admissible walk of that many edges. */
  lemma UndiscoveredIsFar(g: Indexes, f: Filter, root: string, maxDepth: int, depth: map<string, nat>,
                          previous: map<string, Predecessor>, queue: seq<Visit>, popped: set<string>,
                          closed: set<string>, level: nat,
                          k: nat, to: string)
    requires Searching(g, f, root, maxDepth, depth, previous, queue, popped, closed, level) && to !in depth
    requires k <= maxDepth || k == 0
    requires (queue == [] && closed == popped)
               || (k == level && exists u :: u in depth && depth[u] == level && popped == closed + {u})
    ensures forall w :: AdmissibleWalk(g, f, root, to, w) ==> |w.edgePath| > k
  {
    assert forall u :: u in depth && depth[u] < k ==> u in closed;
    ReachIsDiscovered(g, f, root, depth, previous, closed, maxDepth, k);
    forall w | AdmissibleWalk(g, f, root, to, w)
      ensures |w.edgePath| > k
    {
      WalkStaysInReach(g, f, root, to, w);
      if |w.edgePath| <= k {
        ReachGrows(g, f, root, |w.edgePath|, k);
      }
    }
  }

  ghost predicate PathAnswer(g: Indexes, f: Filter, from: string, to: string, maxDepth: int, answer: PathQuery) {
    match answer
    case NoPath => forall w :: AdmissibleWalk(g, f, from, to, w) ==> |w.edgePath| > maxDepth
    case PathFound(walk) => ShortestWalk(g, f, from, to, walk) && (|walk.edgePath| <= maxDepth || from == to)
  }

  method SearchPath(g: Indexes, f: Filter, fromNodeId: string, toNodeId: string, maxDepth: int)
      returns (answer: PathQuery)
    requires WellFormed(g) && fromNodeId != toNodeId
    ensures PathAnswer(g, f, fromNodeId, toNodeId, maxDepth, answer)
  {
    hide Searching, PartlyExpanded;
    var queue := [Visit(fromNodeId, 0)];
    var visited := {fromNodeId};
    var previous: map<string, Predecessor> := map[];
    ghost var depth: map<string, nat> := map[fromNodeId := 0];
    ghost var popped: set<string> := {};
    ghost var level := 0;
    StartSearch(g, f, fromNodeId, maxDepth);
    while queue != []
      invariant visited == depth.Keys && toNodeId !in depth
      invariant Searching(g, f, fromNodeId, maxDepth, depth, previous, queue, popped, popped, level)
      decreases g.nodeIndex.Keys + {fromNodeId} - popped
    {
      var current := queue[0];
      PopNode(g, f, fromNodeId, maxDepth, depth, previous, queue, popped, level);
      queue := queue[1..];
      level := current.depth;
      ghost var closed := popped;
      popped := popped + {current.nodeId};
      if current.depth >= maxDepth {
        FinishNode(g, f, fromNodeId, maxDepth, depth, previous, queue, closed, level, current.nodeId);
        continue;
      }
      var adjacent := Entries(g, current.nodeId);
      var i := 0;
      while i < |adjacent|
        invariant 0 <= i <= |adjacent|
        invariant visited == depth.Keys && toNodeId !in depth
        invariant Searching(g, f, fromNodeId, maxDepth, depth, previous, queue, popped, closed, level)
        invariant PartlyExpanded(g, f, depth, current.nodeId, i)
        invariant current.nodeId in depth && depth[current.nodeId] == level
      {
        var edgeId := adjacent[i];
        var next := Next(g, f, current.nodeId, edgeId);
        if next.None? || next.value in visited {
          SkipEntry(g, f, fromNodeId, maxDepth, depth, previous, queue, popped, closed, level, current.nodeId, i);
          i := i + 1;
          continue;
        }
        var nextNodeId := next.value;
        DiscoverNode(g, f, fromNodeId, maxDepth, depth, previous, queue, popped, closed, level, current.nodeId, i);
        visited := visited + {nextNodeId};
        if nextNodeId == toNodeId {
          UndiscoveredIsFar(g, f, fromNodeId, maxDepth, depth, previous, queue, popped, closed, level, level, toNodeId);
        }
        previous := previous[nextNodeId := Predecessor(current.nodeId, edgeId)];
        depth := depth[nextNodeId := level + 1];
        if nextNodeId == toNodeId {
          SearchHoldsTree(g, f, fromNodeId, maxDepth, depth, previous, queue + [Visit(nextNodeId, level + 1)], popped,
                          closed, level);
          var walk := MaterializePath(g, fromNodeId, toNodeId, previous, f, depth);
          return PathFound(walk);
        }
        queue := queue + [Visit(nextNodeId, current.depth + 1)];
        i := i + 1;
      }
      FinishNode(g, f, fromNodeId, maxDepth, depth, previous, queue, closed, level, current.nodeId);
    }
    if maxDepth >= 0 {
      UndiscoveredIsFar(g, f, fromNodeId, maxDepth, depth, previous, queue, popped, popped, level, maxDepth, toNodeId);
    }
    return NoPath;
  }

  lemma SearchHoldsTree(g: Indexes, f: Filter, root: string, maxDepth: int, depth: map<string, nat>,
                        previous: map<string, Predecessor>, queue: seq<Visit>, popped: set<string>, closed: set<string>,
                        level: nat)
    requires Searching(g, f, root, maxDepth, depth, previous, queue, popped, closed, level)
    ensures Tree(g, f, root, depth, previous)
  {
  }

  /**
   Finds a shortest admissible path of at most maxDepth edges between two named nodes, or reports
   that the snapshot has none.
   */
  method FindShortestPath(snapshot: Snapshot, from: string, to: string, f: Filter, maxDepth: int)
      returns (result: Result<PathQuery, QueryError>)
    ensures Nameless(snapshot.nodes, from) ==> result == Failure(NodeNotFound)
    ensures Ambiguous(snapshot.nodes, from) ==> result == Failure(AmbiguousRecordId)
    ensures forall u :: Names(snapshot.nodes, from, u) ==>
              && (Nameless(snapshot.nodes, to) ==> result == Failure(NodeNotFound))
              && (Ambiguous(snapshot.nodes, to) ==> result == Failure(AmbiguousRecordId))
    ensures forall u, v :: Names(snapshot.nodes, from, u) && Names(snapshot.nodes, to, v) ==>
              result.Success? && PathAnswer(IndexesOf(snapshot), f, u, v, maxDepth, result.value)
  {
    hide ResolveNodeId, Names, Nameless, Ambiguous;
    ResolutionExactlyWhen(snapshot, from);
    ResolutionExactlyWhen(snapshot, to);
    var fromNodeId := ResolveNodeId(snapshot, from);
    if fromNodeId.Failure? {
      return Failure(fromNodeId.error);
    }
    var toNodeId := ResolveNodeId(snapshot, to);
    if toNodeId.Failure? {
      return Failure(toNodeId.error);
    }
    if fromNodeId.value == toNodeId.value {
      return Success(PathFound(Walk([fromNodeId.value], [], [])));
    }
    var g := BuildIndexes(snapshot);
    var answer := SearchPath(g, f, fromNodeId.value, toNodeId.value, maxDepth);
    return Success(answer);
  }

  /**
   With unique ids the answer is about the snapshot itself: there is no path exactly when no
   admissible path of at most maxDepth edges exists, and a reported path is a shortest one.
   */
  lemma PathAnswerIsAboutTheSnapshot(snapshot: Snapshot, f: Filter, from: string, to: string, maxDepth: int,
                                     answer: PathQuery)
    requires UniqueIds(snapshot) && from != to
    requires PathAnswer(IndexesOf(snapshot), f, from, to, maxDepth, answer)
    ensures answer.NoPath? <==>
              forall nodes, edges :: SnapshotWalk(snapshot, f, from, to, nodes, edges) ==> |edges| > maxDepth
    ensures answer.PathFound? ==>
              && SnapshotWalk(snapshot, f, from, to, answer.walk.nodePath, answer.walk.edgePath)
              && forall nodes, edges :: SnapshotWalk(snapshot, f, from, to, nodes, edges) ==>
                   |answer.walk.edgePath| <= |edges|
  {
    forall nodes, edges | SnapshotWalk(snapshot, f, from, to, nodes, edges)
      ensures answer.NoPath? ==> |edges| > maxDepth
      ensures answer.PathFound? ==> |answer.walk.edgePath| <= |edges|
    {
      var w := SnapshotWalkIsAdmissible(snapshot, f, from, to, nodes, edges);
    }
    if answer.PathFound? {
      AdmissibleWalkIsSnapshotWalk(snapshot, f, from, to, answer.walk);
    }
  }
}
