/**
 Bounded expansion around one node: exact distances, support counts and an example path for every
 node within the depth limit, ranked by score.
 */
module SupportGraphExpansion {
  import opened Common
  import opened SupportGraph
  import opened SupportGraphSearch

  // ---------------------------------------------------------------- counting adjacency entries

  function CountOf(counts: map<string, nat>, v: string): nat {
    if v in counts then counts[v] else 0
  }

  /** The supporting entries of the nodes in sources, and of u up to its first n entries. */
  ghost function SupportSoFar(g: Indexes, f: Filter, sources: set<string>, u: string, n: nat, v: string)
      : set<(string, int)>
    requires WellFormed(g) && n <= |Entries(g, u)|
  {
    SupportingEntries(g, f, sources, v) + Trail(g, f, u, n, v)
  }

  ghost function Trail(g: Indexes, f: Filter, u: string, n: nat, v: string): set<(string, int)>
    requires WellFormed(g) && n <= |Entries(g, u)|
  {
    set i | 0 <= i < n && Next(g, f, u, Entries(g, u)[i]) == Some(v) :: (u, i)
  }

  lemma TrailGrows(g: Indexes, f: Filter, u: string, i: nat, v: string)
    requires WellFormed(g) && i < |Entries(g, u)|
    ensures Trail(g, f, u, i + 1, v)
            == Trail(g, f, u, i, v) + if Next(g, f, u, Entries(g, u)[i]) == Some(v) then {(u, i)} else {}
    ensures (u, i) !in Trail(g, f, u, i, v)
  {
  }

  ghost predicate Counted(g: Indexes, f: Filter, counts: map<string, nat>, sources: set<string>, u: string, n: nat)
    requires WellFormed(g)
  {
    n <= |Entries(g, u)| && forall v :: CountOf(counts, v) == |SupportSoFar(g, f, sources, u, n, v)|
  }

  lemma StartCounting(g: Indexes, f: Filter, u: string)
    requires WellFormed(g)
    ensures Counted(g, f, map[], {}, u, 0)
  {
    forall v
      ensures SupportSoFar(g, f, {}, u, 0, v) == {}
    {
    }
  }

  lemma SwitchNode(g: Indexes, f: Filter, counts: map<string, nat>, sources: set<string>, u: string, w: string)
    requires WellFormed(g) && Counted(g, f, counts, sources, u, 0)
    ensures Counted(g, f, counts, sources, w, 0)
  {
    hide SupportSoFar, SupportingEntries;
    forall v
      ensures SupportSoFar(g, f, sources, w, 0, v) == SupportSoFar(g, f, sources, u, 0, v)
    {
      NothingSoFar(g, f, sources, u, v);
      NothingSoFar(g, f, sources, w, v);
    }
  }

  lemma NothingSoFar(g: Indexes, f: Filter, sources: set<string>, u: string, v: string)
    requires WellFormed(g)
    ensures SupportSoFar(g, f, sources, u, 0, v) == SupportingEntries(g, f, sources, v)
  {
    hide SupportingEntries;
    NothingTrailed(g, f, u, v);
  }

  lemma NothingTrailed(g: Indexes, f: Filter, u: string, v: string)
    requires WellFormed(g)
    ensures Trail(g, f, u, 0, v) == {}
  {
  }

  lemma SupportTakesIn(g: Indexes, f: Filter, sources: set<string>, u: string, v: string)
    requires WellFormed(g)
    ensures SupportSoFar(g, f, sources + {u}, u, 0, v) == SupportSoFar(g, f, sources, u, |Entries(g, u)|, v)
  {
    NothingTrailed(g, f, u, v);
    var joined := SupportingEntries(g, f, sources + {u}, v);
    forall pair | pair in joined
      ensures pair in SupportingEntries(g, f, sources, v) + Trail(g, f, u, |Entries(g, u)|, v)
    {
      assert pair.0 in sources || pair.0 == u;
    }
  }

  lemma SupportGrowsByOne(g: Indexes, f: Filter, sources: set<string>, u: string, i: nat, v: string)
    requires WellFormed(g) && u !in sources && i < |Entries(g, u)|
    ensures |SupportSoFar(g, f, sources, u, i + 1, v)|
            == |SupportSoFar(g, f, sources, u, i, v)| + if Next(g, f, u, Entries(g, u)[i]) == Some(v) then 1 else 0
  {
    TrailGrows(g, f, u, i, v);
    assert (u, i) !in SupportingEntries(g, f, sources, v);
    hide SupportingEntries, Trail;
    if Next(g, f, u, Entries(g, u)[i]) == Some(v) {
      assert SupportSoFar(g, f, sources, u, i + 1, v) == SupportSoFar(g, f, sources, u, i, v) + {(u, i)};
    }
  }

  lemma CountEntry(g: Indexes, f: Filter, counts: map<string, nat>, sources: set<string>, u: string, i: nat)
    requires WellFormed(g) && Counted(g, f, counts, sources, u, i) && u !in sources && i < |Entries(g, u)|
    ensures var next := Next(g, f, u, Entries(g, u)[i]);
            Counted(g, f, if next.None? then counts else counts[next.value := CountOf(counts, next.value) + 1], sources,
                    u, i + 1)
  {
    hide SupportSoFar;
    forall v
      ensures |SupportSoFar(g, f, sources, u, i + 1, v)|
              == |SupportSoFar(g, f, sources, u, i, v)| + if Next(g, f, u, Entries(g, u)[i]) == Some(v) then 1 else 0
    {
      SupportGrowsByOne(g, f, sources, u, i, v);
    }
  }

  lemma FinishCounting(g: Indexes, f: Filter, counts: map<string, nat>, sources: set<string>, u: string)
    requires WellFormed(g) && Counted(g, f, counts, sources, u, |Entries(g, u)|)
    ensures Counted(g, f, counts, sources + {u}, u, 0)
  {
    hide SupportSoFar;
    forall v
      ensures SupportSoFar(g, f, sources + {u}, u, 0, v) == SupportSoFar(g, f, sources, u, |Entries(g, u)|, v)
    {
      SupportTakesIn(g, f, sources, u, v);
    }
  }

  // ---------------------------------------------------------------- distances

  lemma AppendHop(g: Indexes, f: Filter, from: string, to: string, e: string, v: string, w: Walk) returns (longer: Walk)
    requires AdmissibleWalk(g, f, from, to, w) && Linked(g, f, to, e, v)
    ensures AdmissibleWalk(g, f, from, v, longer) && |longer.edgePath| == |w.edgePath| + 1
  {
    var hop := Hop(to, v, e, g.edgeIndex[e].kind, g.edgeIndex[e].confidenceLabel);
    longer := Walk(w.nodePath + [v], w.edgePath + [e], w.hops + [hop]);
    forall i {:trigger longer.edgePath[i]} | 0 <= i < |longer.edgePath|
      ensures Linked(g, f, longer.nodePath[i], longer.edgePath[i], longer.nodePath[i + 1])
      ensures var edge := g.edgeIndex[longer.edgePath[i]];
              longer.hops[i] == Hop(longer.nodePath[i], longer.nodePath[i + 1], longer.edgePath[i], edge.kind,
                                    edge.confidenceLabel)
    {
      if i < |w.edgePath| {
        assert longer.edgePath[i] == w.edgePath[i];
        assert Linked(g, f, w.nodePath[i], w.edgePath[i], w.nodePath[i + 1]);
      }
    }
  }

  lemma {:induction false} TreeHasWalk(g: Indexes, f: Filter, root: string, depth: map<string, nat>,
                                       previous: map<string, Predecessor>, v: string)
      returns (w: Walk)
    requires Tree(g, f, root, depth, previous) && v in depth
    ensures AdmissibleWalk(g, f, root, v, w) && |w.edgePath| == depth[v]
    decreases depth[v]
  {
    if v == root {
      w := Walk([root], [], []);
    } else {
      var shorter := TreeHasWalk(g, f, root, depth, previous, previous[v].nodeId);
      w := AppendHop(g, f, root, previous[v].nodeId, previous[v].edgeId, v, shorter);
    }
  }

  /** Recorded depths are shortest distances, and nothing within the limit is missing. */
  ghost predicate ExactDistances(g: Indexes, f: Filter, root: string, maxDepth: int, depth: map<string, nat>) {
    && (forall v :: v in depth ==>
          && (depth[v] == 0 || depth[v] <= maxDepth)
          && exists w :: ShortestWalk(g, f, root, v, w) && |w.edgePath| == depth[v])
    && (forall v, w :: AdmissibleWalk(g, f, root, v, w) && (|w.edgePath| <= maxDepth || v == root) ==> v in depth)
  }

  lemma ExhaustedSearchIsExact(g: Indexes, f: Filter, root: string, maxDepth: int, depth: map<string, nat>,
                               previous: map<string, Predecessor>, popped: set<string>, level: nat)
    requires Searching(g, f, root, maxDepth, depth, previous, [], popped, popped, level)
    requires forall v :: v in depth ==> depth[v] == 0 || depth[v] <= maxDepth
    ensures ExactDistances(g, f, root, maxDepth, depth)
    ensures Tree(g, f, root, depth, previous) && popped == depth.Keys
    ensures forall v, w :: v in depth && AdmissibleWalk(g, f, root, v, w) ==> depth[v] <= |w.edgePath|
  {
    assert Waiting([]) == {};
    forall v, w | AdmissibleWalk(g, f, root, v, w) && (|w.edgePath| <= maxDepth || v == root)
      ensures v in depth && depth[v] <= |w.edgePath|
    {
      if v != root {
        ReachIsDiscovered(g, f, root, depth, previous, popped, maxDepth, |w.edgePath|);
        WalkStaysInReach(g, f, root, v, w);
      }
    }
    forall v | v in depth
      ensures exists w :: ShortestWalk(g, f, root, v, w) && |w.edgePath| == depth[v]
      ensures forall other :: AdmissibleWalk(g, f, root, v, other) ==> depth[v] <= |other.edgePath|
    {
      var w := TreeHasWalk(g, f, root, depth, previous, v);
      forall other | AdmissibleWalk(g, f, root, v, other)
        ensures |w.edgePath| <= |other.edgePath|
      {
        assert |other.edgePath| > maxDepth || depth[v] <= |other.edgePath|;
      }
      assert ShortestWalk(g, f, root, v, w);
    }
  }

  /** The nodes whose adjacency entries the expansion follows. */
  ghost function Followed(depth: map<string, nat>, maxDepth: int): set<string> {
    set u | u in depth && depth[u] < maxDepth
  }

  method Expand(g: Indexes, f: Filter, root: string, maxDepth: int)
      returns (visitedDepth: map<string, nat>, predecessor: map<string, Predecessor>, supportCounts: map<string, nat>)
    requires WellFormed(g)
    ensures ExactDistances(g, f, root, maxDepth, visitedDepth)
    ensures Tree(g, f, root, visitedDepth, predecessor) && visitedDepth.Keys <= g.nodeIndex.Keys + {root}
    ensures forall v :: CountOf(supportCounts, v) == |SupportingEntries(g, f, Followed(visitedDepth, maxDepth), v)|
    ensures forall v, w :: v in visitedDepth && AdmissibleWalk(g, f, root, v, w) ==> visitedDepth[v] <= |w.edgePath|
  {
    hide Searching, PartlyExpanded, Counted, Bookkept;
    var queue := [Visit(root, 0)];
    visitedDepth, predecessor, supportCounts := map[root := 0], map[], map[];
    ghost var popped: set<string>, sources: set<string>, level := {}, {}, 0;
    StartSearch(g, f, root, maxDepth);
    StartCounting(g, f, root);
    StartBooks(root, maxDepth);
    while queue != []
      invariant Searching(g, f, root, maxDepth, visitedDepth, predecessor, queue, popped, popped, level)
      invariant Bookkept(visitedDepth, maxDepth, popped, popped, sources)
      invariant Counted(g, f, supportCounts, sources, root, 0)
      decreases g.nodeIndex.Keys + {root} - popped
    {
      var current := queue[0];
      PopNode(g, f, root, maxDepth, visitedDepth, predecessor, queue, popped, level);
      queue := queue[1..];
      level := current.depth;
      ghost var closed := popped;
      popped := popped + {current.nodeId};
      PoppedIsDiscovered(g, f, root, maxDepth, visitedDepth, predecessor, queue, popped, closed, level);
      BookPopped(visitedDepth, maxDepth, closed, sources, current.nodeId);
      if current.depth >= maxDepth {
        FinishNode(g, f, root, maxDepth, visitedDepth, predecessor, queue, closed, level, current.nodeId);
        BookFinished(visitedDepth, maxDepth, closed, sources, current.nodeId);
        continue;
      }
      SwitchNode(g, f, supportCounts, sources, root, current.nodeId);
      var adjacent := Entries(g, current.nodeId);
      var i := 0;
      while i < |adjacent|
        invariant 0 <= i <= |adjacent|
        invariant Searching(g, f, root, maxDepth, visitedDepth, predecessor, queue, popped, closed, level)
        invariant PartlyExpanded(g, f, visitedDepth, current.nodeId, i)
        invariant current.nodeId in visitedDepth && visitedDepth[current.nodeId] == level
        invariant Bookkept(visitedDepth, maxDepth, popped, closed, sources)
        invariant Counted(g, f, supportCounts, sources, current.nodeId, i)
      {
        var next := Next(g, f, current.nodeId, adjacent[i]);
        CountEntry(g, f, supportCounts, sources, current.nodeId, i);
        if next.Some? {
          var nextNodeId := next.value;
          supportCounts := supportCounts[nextNodeId := CountOf(supportCounts, nextNodeId) + 1];
          var nextDepth := current.depth + 1;
          if nextNodeId in visitedDepth {
            SkipEntry(g, f, root, maxDepth, visitedDepth, predecessor, queue, popped, closed, level, current.nodeId, i);
          } else {
            DiscoverNode(g, f, root, maxDepth, visitedDepth, predecessor, queue, popped, closed, level, current.nodeId,
                         i);
            BookDiscovered(visitedDepth, maxDepth, popped, closed, sources, nextNodeId, nextDepth);
          }
          if nextNodeId !in visitedDepth || nextDepth < visitedDepth[nextNodeId] {
            visitedDepth := visitedDepth[nextNodeId := nextDepth];
            predecessor := predecessor[nextNodeId := Predecessor(current.nodeId, adjacent[i])];
            queue := queue + [Visit(nextNodeId, nextDepth)];
          }
        } else {
          SkipEntry(g, f, root, maxDepth, visitedDepth, predecessor, queue, popped, closed, level, current.nodeId, i);
        }
        i := i + 1;
      }
      FinishNode(g, f, root, maxDepth, visitedDepth, predecessor, queue, closed, level, current.nodeId);
      FinishCounting(g, f, supportCounts, sources, current.nodeId);
      BookFinished(visitedDepth, maxDepth, closed, sources, current.nodeId);
      sources := sources + {current.nodeId};
      SwitchNode(g, f, supportCounts, sources, current.nodeId, root);
    }
    BooksBound(visitedDepth, maxDepth, popped, popped, sources);
    ExhaustedSearchIsExact(g, f, root, maxDepth, visitedDepth, predecessor, popped, level);
    SearchStaysInIndex(g, f, root, maxDepth, visitedDepth, predecessor, queue, popped, level);
    BooksFollow(visitedDepth, maxDepth, popped, sources);
    FinishedCounts(g, f, supportCounts, sources, root);
  }

  /** Depths stay within the limit, and sources are the closed nodes that were followed. */
  ghost predicate Bookkept(depth: map<string, nat>, maxDepth: int, popped: set<string>, closed: set<string>,
                           sources: set<string>) {
    && (forall v :: v in depth ==> depth[v] == 0 || depth[v] <= maxDepth)
    && closed <= popped <= depth.Keys
    && (forall u :: u in sources <==> u in closed && u in depth && depth[u] < maxDepth)
  }

  lemma StartBooks(root: string, maxDepth: int)
    ensures Bookkept(map[root := 0], maxDepth, {}, {}, {})
  {
  }

  lemma BookPopped(depth: map<string, nat>, maxDepth: int, closed: set<string>, sources: set<string>, u: string)
    requires Bookkept(depth, maxDepth, closed, closed, sources) && u in depth
    ensures Bookkept(depth, maxDepth, closed + {u}, closed, sources) && (u !in closed ==> u !in sources)
  {
  }

  lemma BookDiscovered(depth: map<string, nat>, maxDepth: int, popped: set<string>, closed: set<string>,
                       sources: set<string>, v: string, d: nat)
    requires Bookkept(depth, maxDepth, popped, closed, sources) && v !in depth && d <= maxDepth
    ensures Bookkept(depth[v := d], maxDepth, popped, closed, sources)
  {
  }

  lemma BookFinished(depth: map<string, nat>, maxDepth: int, closed: set<string>, sources: set<string>, u: string)
    requires Bookkept(depth, maxDepth, closed + {u}, closed, sources)
    ensures Bookkept(depth, maxDepth, closed + {u}, closed + {u},
                     if u in depth && depth[u] < maxDepth then sources + {u} else sources)
  {
  }

  lemma BooksBound(depth: map<string, nat>, maxDepth: int, popped: set<string>, closed: set<string>,
                   sources: set<string>)
    requires Bookkept(depth, maxDepth, popped, closed, sources)
    ensures forall v :: v in depth ==> depth[v] == 0 || depth[v] <= maxDepth
  {
  }

  lemma BooksFollow(depth: map<string, nat>, maxDepth: int, popped: set<string>, sources: set<string>)
    requires Bookkept(depth, maxDepth, popped, popped, sources) && depth.Keys <= popped
    ensures sources == Followed(depth, maxDepth)
  {
  }

  lemma PoppedIsDiscovered(g: Indexes, f: Filter, root: string, maxDepth: int, depth: map<string, nat>,
                           previous: map<string, Predecessor>, queue: seq<Visit>, popped: set<string>,
                           closed: set<string>, level: nat)
    requires Searching(g, f, root, maxDepth, depth, previous, queue, popped, closed, level)
    ensures popped <= depth.Keys
  {
  }

  lemma SearchStaysInIndex(g: Indexes, f: Filter, root: string, maxDepth: int, depth: map<string, nat>,
                           previous: map<string, Predecessor>, queue: seq<Visit>, popped: set<string>, level: nat)
    requires Searching(g, f, root, maxDepth, depth, previous, queue, popped, popped, level)
    ensures depth.Keys <= g.nodeIndex.Keys + {root}
  {
  }

  lemma FinishedCounts(g: Indexes, f: Filter, counts: map<string, nat>, sources: set<string>, u: string)
    requires WellFormed(g) && Counted(g, f, counts, sources, u, 0)
    ensures forall v :: CountOf(counts, v) == |SupportingEntries(g, f, sources, v)|
  {
    forall v
      ensures SupportSoFar(g, f, sources, u, 0, v) == SupportingEntries(g, f, sources, v)
    {
    }
  }

  // ---------------------------------------------------------------- ranked result

  function ConfidenceRank(confidence: string): nat {
    match confidence
    case "DECLARED" => 4
    case "EXTRACTED" => 3
    case "INFERRED" => 2
    case "AMBIGUOUS" => 1
    case _ => 0
  }

  predicate IsCanonicalNodeType(nodeType: string) {
    nodeType in ["evidence", "case", "invariant", "tactic"]
  }

  function PathConfidence(hops: seq<Hop>): nat {
    if hops == [] then 0
    else
      var rest, last := PathConfidence(hops[..|hops| - 1]), ConfidenceRank(hops[|hops| - 1].confidenceLabel);
      if rest >= last then rest else last
  }

  function Score(node: Node, maxDepth: int, distance: nat, supportCount: nat, path: Walk): int {
    (maxDepth + 1 - distance) * 100 + (if IsCanonicalNodeType(node.nodeType) then 15 else 0) + supportCount * 5
      + PathConfidence(path.hops)
  }

  /** Best score first; then node type and node id in the given string order. */
  predicate RanksBefore(le: (string, string) -> bool, a: Related, b: Related) {
    || a.score > b.score
    || (a.score == b.score
        && le(a.node.nodeType, b.node.nodeType)
        && (le(b.node.nodeType, a.node.nodeType) ==> le(a.node.nodeId, b.node.nodeId)))
  }

  lemma RankingIsTotal(le: (string, string) -> bool)
    requires TotalPreorder(le)
    ensures TotalPreorder((a, b) => RanksBefore(le, a, b))
  {
  }

  /** What the expansion promises about one reported node. */
  ghost predicate FaithfullyRelated(g: Indexes, f: Filter, root: string, maxDepth: int, r: Related) {
    && r.node.nodeId in g.nodeIndex && g.nodeIndex[r.node.nodeId] == r.node && r.node.nodeId != root
    && ShortestWalk(g, f, root, r.node.nodeId, r.examplePath)
    && r.distance == |r.examplePath.edgePath| && r.distance <= maxDepth
    && WellFormed(g)
    && r.supportCount
         == |SupportingEntries(g, f, Reach(g, f, root, if maxDepth > 0 then maxDepth - 1 else 0), r.node.nodeId)|
    && r.score == Score(r.node, maxDepth, r.distance, r.supportCount, r.examplePath)
  }

  lemma {:induction false} ReachHasWalk(g: Indexes, f: Filter, root: string, k: nat, v: string) returns (w: Walk)
    requires v in Reach(g, f, root, k)
    ensures AdmissibleWalk(g, f, root, v, w) && |w.edgePath| <= k
  {
    if k == 0 {
      w := Walk([root], [], []);
    } else if v in Reach(g, f, root, k - 1) {
      w := ReachHasWalk(g, f, root, k - 1, v);
    } else {
      var u, e :| u in Reach(g, f, root, k - 1) && Linked(g, f, u, e, v);
      var shorter := ReachHasWalk(g, f, root, k - 1, u);
      w := AppendHop(g, f, root, u, e, v, shorter);
    }
  }

  /** The followed nodes are those an admissible walk of fewer than maxDepth edges reaches. */
  lemma FollowedIsReach(g: Indexes, f: Filter, root: string, maxDepth: int, depth: map<string, nat>)
    requires ExactDistances(g, f, root, maxDepth, depth) && maxDepth > 0
    requires forall v, w :: v in depth && AdmissibleWalk(g, f, root, v, w) ==> depth[v] <= |w.edgePath|
    ensures Followed(depth, maxDepth) == Reach(g, f, root, maxDepth - 1)
  {
    hide Reach, AdmissibleWalk;
    forall v | v in Followed(depth, maxDepth)
      ensures v in Reach(g, f, root, maxDepth - 1)
    {
      var w :| ShortestWalk(g, f, root, v, w) && |w.edgePath| == depth[v];
      WalkStaysInReach(g, f, root, v, w);
      ReachGrows(g, f, root, |w.edgePath|, maxDepth - 1);
    }
    forall v | v in Reach(g, f, root, maxDepth - 1)
      ensures v in Followed(depth, maxDepth)
    {
      var w := ReachHasWalk(g, f, root, maxDepth - 1, v);
    }
  }

  ghost function Ids(rs: seq<Related>): set<string> {
    set r | r in rs :: r.node.nodeId
  }

  predicate Wanted(g: Indexes, root: string, canonicalOnly: bool, v: string) {
    v != root && v in g.nodeIndex && (canonicalOnly ==> IsCanonicalNodeType(g.nodeIndex[v].nodeType))
  }

  ghost predicate WithinReach(g: Indexes, f: Filter, root: string, maxDepth: int, v: string) {
    exists w :: AdmissibleWalk(g, f, root, v, w) && |w.edgePath| <= maxDepth
  }

  ghost predicate DistinctNodes(rs: seq<Related>) {
    forall i, j :: 0 <= i < j < |rs| ==> rs[i].node.nodeId != rs[j].node.nodeId
  }

  /** All and only the wanted nodes within the limit are reported, each once and faithfully. */
  ghost predicate Covers(g: Indexes, f: Filter, root: string, maxDepth: int, canonicalOnly: bool, ranked: seq<Related>)
  {
    && (forall r :: r in ranked ==> FaithfullyRelated(g, f, root, maxDepth, r))
    && DistinctNodes(ranked)
    && (forall v :: v in Ids(ranked) <==> Wanted(g, root, canonicalOnly, v) && WithinReach(g, f, root, maxDepth, v))
  }

  /** The collection loop: found lists the wanted nodes taken out of remaining so far. */
  ghost predicate Collecting(g: Indexes, f: Filter, root: string, maxDepth: int, canonicalOnly: bool,
                             depths: map<string, nat>, found: seq<Related>, remaining: set<string>) {
    && remaining <= depths.Keys - {root}
    && (forall r :: r in found ==> FaithfullyRelated(g, f, root, maxDepth, r))
    && DistinctNodes(found)
    && (forall v :: v in Ids(found) <==> v in depths && v !in remaining && Wanted(g, root, canonicalOnly, v))
  }

  lemma NothingCollected(g: Indexes, f: Filter, root: string, maxDepth: int, canonicalOnly: bool,
                         depths: map<string, nat>)
    ensures Collecting(g, f, root, maxDepth, canonicalOnly, depths, [], depths.Keys - {root})
  {
  }

  lemma CollectOne(g: Indexes, f: Filter, root: string, maxDepth: int, canonicalOnly: bool, depths: map<string, nat>,
                   found: seq<Related>, remaining: set<string>, r: Related)
    requires Collecting(g, f, root, maxDepth, canonicalOnly, depths, found, remaining)
    requires r.node.nodeId in remaining && Wanted(g, root, canonicalOnly, r.node.nodeId)
               && FaithfullyRelated(g, f, root, maxDepth, r)
    ensures Collecting(g, f, root, maxDepth, canonicalOnly, depths, found + [r], remaining - {r.node.nodeId})
  {
    assert Ids(found + [r]) == Ids(found) + {r.node.nodeId} by {
      assert (found + [r])[|found|] == r;
      forall x | x in found
        ensures x in found + [r]
      {
      }
    }
    forall i | 0 <= i < |found|
      ensures found[i].node.nodeId != r.node.nodeId
    {
      assert found[i].node.nodeId in Ids(found);
    }
  }

  lemma DropOne(g: Indexes, f: Filter, root: string, maxDepth: int, canonicalOnly: bool, depths: map<string, nat>,
                found: seq<Related>, remaining: set<string>, v: string)
    requires Collecting(g, f, root, maxDepth, canonicalOnly, depths, found, remaining)
    requires !Wanted(g, root, canonicalOnly, v)
    ensures Collecting(g, f, root, maxDepth, canonicalOnly, depths, found, remaining - {v})
  {
  }

  lemma CollectedAll(g: Indexes, f: Filter, root: string, maxDepth: int, canonicalOnly: bool, depths: map<string, nat>,
                     found: seq<Related>)
    requires Collecting(g, f, root, maxDepth, canonicalOnly, depths, found, {})
    requires ExactDistances(g, f, root, maxDepth, depths)
    requires forall v, w :: v in depths && AdmissibleWalk(g, f, root, v, w) ==> depths[v] <= |w.edgePath|
    ensures Covers(g, f, root, maxDepth, canonicalOnly, found)
  {
    forall v | Wanted(g, root, canonicalOnly, v)
      ensures v in depths <==> WithinReach(g, f, root, maxDepth, v)
    {
      if v in depths {
        var w :| ShortestWalk(g, f, root, v, w) && |w.edgePath| == depths[v];
        assert |w.edgePath| > 0;
      }
    }
  }

  method CollectRelated(g: Indexes, f: Filter, root: string, maxDepth: int, canonicalOnly: bool)
      returns (found: seq<Related>)
    requires WellFormed(g)
    ensures Covers(g, f, root, maxDepth, canonicalOnly, found)
  {
    hide Covers, Collecting, ExactDistances, FaithfullyRelated, Tree, AdmissibleWalk, Wanted, Score, SupportingEntries,
         Followed;
    var depths, predecessor, supportCounts := Expand(g, f, root, maxDepth);
    found := [];
    var remaining := depths.Keys - {root};
    NothingCollected(g, f, root, maxDepth, canonicalOnly, depths);
    while remaining != {}
      invariant Collecting(g, f, root, maxDepth, canonicalOnly, depths, found, remaining)
    {
      var id :| id in remaining;
      var node := g.nodeIndex[id];
      if Wanted(g, root, canonicalOnly, id) {
        var path := MaterializePath(g, root, id, predecessor, f, depths);
        var count := CountOf(supportCounts, id);
        var related := Related(node, depths[id], count, Score(node, maxDepth, depths[id], count, path), path);
        DiscoveredIsFaithful(g, f, root, maxDepth, depths, related);
        CollectOne(g, f, root, maxDepth, canonicalOnly, depths, found, remaining, related);
        found := found + [related];
      } else {
        DropOne(g, f, root, maxDepth, canonicalOnly, depths, found, remaining, id);
      }
      remaining := remaining - {id};
    }
    CollectedAll(g, f, root, maxDepth, canonicalOnly, depths, found);
  }

  lemma DiscoveredIsFaithful(g: Indexes, f: Filter, root: string, maxDepth: int, depth: map<string, nat>, r: Related)
    requires WellFormed(g) && ExactDistances(g, f, root, maxDepth, depth)
    requires forall v, w :: v in depth && AdmissibleWalk(g, f, root, v, w) ==> depth[v] <= |w.edgePath|
    requires r.node.nodeId in depth && r.node.nodeId in g.nodeIndex && g.nodeIndex[r.node.nodeId] == r.node
               && r.node.nodeId != root
    requires AdmissibleWalk(g, f, root, r.node.nodeId, r.examplePath)
               && |r.examplePath.edgePath| == depth[r.node.nodeId] == r.distance
    requires r.supportCount == |SupportingEntries(g, f, Followed(depth, maxDepth), r.node.nodeId)|
    requires r.score == Score(r.node, maxDepth, r.distance, r.supportCount, r.examplePath)
    ensures FaithfullyRelated(g, f, root, maxDepth, r)
  {
    assert r.distance > 0;
    FollowedIsReach(g, f, root, maxDepth, depth);
  }

  /** The related nodes in rank order, cut off at the limit. */
  method ExpandRelated(snapshot: Snapshot, nodeId: string, f: Filter, maxDepth: int, limit: nat, canonicalOnly: bool,
                       le: (string, string) -> bool)
      returns (result: Result<seq<Related>, QueryError>, ghost ranked: seq<Related>)
    requires TotalPreorder(le)
    ensures Nameless(snapshot.nodes, nodeId) ==> result == Failure(NodeNotFound)
    ensures Ambiguous(snapshot.nodes, nodeId) ==> result == Failure(AmbiguousRecordId)
    ensures forall root :: Names(snapshot.nodes, nodeId, root) ==>
              && result == Success(ranked[..if limit < |ranked| then limit else |ranked|])
              && Covers(IndexesOf(snapshot), f, root, maxDepth, canonicalOnly, ranked)
              && SortedBy((a, b) => RanksBefore(le, a, b), ranked)
  {
    hide ResolveNodeId, Names, Nameless, Ambiguous;
    ResolutionExactlyWhen(snapshot, nodeId);
    ranked := [];
    var root := ResolveNodeId(snapshot, nodeId);
    if root.Failure? {
      result := Failure(root.error);
      return;
    }
    var g := BuildIndexes(snapshot);
    var found := CollectRelated(g, f, root.value, maxDepth, canonicalOnly);
    var sorted := Sort((a, b) => RanksBefore(le, a, b), found);
    RankingIsTotal(le);
    SortSorts((a, b) => RanksBefore(le, a, b), found);
    SortKeepsDistinctNodes((a, b) => RanksBefore(le, a, b), found);
    ranked := sorted;
    result := Success(sorted[..if limit < |sorted| then limit else |sorted|]);
  }

  lemma {:induction false} InsertKeepsDistinctNodes(le: (Related, Related) -> bool, s: seq<Related>, x: Related)
    requires TotalPreorder(le) && SortedBy(le, s)
    requires DistinctNodes(s)
    requires forall r :: r in s ==> r.node.nodeId != x.node.nodeId
    ensures DistinctNodes(Insert(le, s, x))
  {
    if s != [] && !le(s[|s| - 1], x) {
      InsertKeepsDistinctNodes(le, s[..|s| - 1], x);
      InsertSorts(le, s[..|s| - 1], x);
      var shorter := Insert(le, s[..|s| - 1], x);
      forall i | 0 <= i < |shorter|
        ensures shorter[i].node.nodeId != s[|s| - 1].node.nodeId
      {
        assert shorter[i] in multiset(shorter);
        assert shorter[i] == x || shorter[i] in s[..|s| - 1];
      }
    }
  }

  lemma {:induction false} SortKeepsDistinctNodes(le: (Related, Related) -> bool, s: seq<Related>)
    requires TotalPreorder(le)
    requires DistinctNodes(s)
    ensures DistinctNodes(Sort(le, s))
  {
    if s != [] {
      SortKeepsDistinctNodes(le, s[..|s| - 1]);
      SortSorts(le, s[..|s| - 1]);
      InsertKeepsDistinctNodes(le, Sort(le, s[..|s| - 1]), s[|s| - 1]);
    }
  }
}
