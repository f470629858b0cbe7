/**
 What the graph queries answer about a snapshot: which nodes are related, along which walks, how they
 are scored and in which order they come.
 */
module GraphAnswers {
  import opened Common
  import opened SupportGraph
  import opened SupportGraphSearch
  import opened SupportGraphExpansion

  // ---------------------------------------------------------------- scores

  ghost predicate Rates(confidence: string, rank: nat) {
    && (confidence == "DECLARED" ==> rank == 4) && (confidence == "EXTRACTED" ==> rank == 3)
    && (confidence == "INFERRED" ==> rank == 2) && (confidence == "AMBIGUOUS" ==> rank == 1)
    && (confidence !in {"DECLARED", "EXTRACTED", "INFERRED", "AMBIGUOUS"} ==> rank == 0)
  }

  /** The best rating of a hop, and zero for no hops. */
  ghost predicate BestRating(hops: seq<Hop>, rank: nat) {
    && (forall i, r: nat :: 0 <= i < |hops| && Rates(hops[i].confidenceLabel, r) ==> r <= rank)
    && (rank == 0 || exists i :: 0 <= i < |hops| && Rates(hops[i].confidenceLabel, rank))
  }

  ghost predicate Canonical(node: Node) {
    node.nodeType == "evidence" || node.nodeType == "case" || node.nodeType == "invariant" || node.nodeType == "tactic"
  }

  /** Nearer first, then canonical, then better supported, then more confident. */
  ghost predicate Scores(r: Related, maxDepth: int) {
    exists rank: nat ::
      && BestRating(r.examplePath.hops, rank)
      && r.score == 100 * (maxDepth + 1 - r.distance) + 5 * r.supportCount + rank
                    + if Canonical(r.node) then 15 else 0
  }

  lemma RankRates(confidence: string)
    ensures forall r: nat :: Rates(confidence, r) <==> r == ConfidenceRank(confidence)
  {
  }

  lemma BestSnoc(hops: seq<Hop>, last: Hop, rank: nat)
    requires BestRating(hops, rank)
    ensures BestRating(hops + [last], if rank >= ConfidenceRank(last.confidenceLabel) then rank
                                      else ConfidenceRank(last.confidenceLabel))
  {
    hide Rates, ConfidenceRank;
    RankRates(last.confidenceLabel);
    var all, n := hops + [last], |hops|;
    assert all[n] == last;
    assert forall i :: 0 <= i < n ==> all[i] == hops[i];
    if rank > 0 {
      var i :| 0 <= i < n && Rates(hops[i].confidenceLabel, rank);
      assert Rates(all[i].confidenceLabel, rank);
    }
    assert Rates(all[n].confidenceLabel, ConfidenceRank(last.confidenceLabel));
  }

  lemma {:induction false} PathConfidenceIsBest(hops: seq<Hop>)
    ensures BestRating(hops, PathConfidence(hops))
  {
    if hops != [] {
      hide BestRating, ConfidenceRank;
      var n := |hops| - 1;
      PathConfidenceIsBest(hops[..n]);
      BestSnoc(hops[..n], hops[n], PathConfidence(hops[..n]));
      assert hops == hops[..n] + [hops[n]];
    }
  }

  lemma ScoreScores(r: Related, maxDepth: int)
    requires r.score == Score(r.node, maxDepth, r.distance, r.supportCount, r.examplePath)
    ensures Scores(r, maxDepth)
  {
    hide PathConfidence, BestRating;
    PathConfidenceIsBest(r.examplePath.hops);
  }

  // ---------------------------------------------------------------- the related nodes

  /** Every hop names its edge, with the kind and the confidence the snapshot gives it. */
  ghost predicate HopsTell(snapshot: Snapshot, w: Walk) {
    && |w.hops| == |w.edgePath| && |w.nodePath| == |w.edgePath| + 1
    && forall i :: 0 <= i < |w.hops| ==> HopTells(snapshot, w, i)
  }

  ghost predicate HopTells(snapshot: Snapshot, w: Walk, i: nat)
    requires i < |w.hops| == |w.edgePath| && |w.nodePath| == |w.edgePath| + 1
  {
    && w.hops[i].from == w.nodePath[i] && w.hops[i].to == w.nodePath[i + 1] && w.hops[i].edgeId == w.edgePath[i]
    && exists edge <- snapshot.edges ::
         edge.edgeId == w.edgePath[i] && edge.kind == w.hops[i].kind
           && edge.confidenceLabel == w.hops[i].confidenceLabel
  }

  ghost predicate Within(snapshot: Snapshot, f: Filter, root: string, maxDepth: int, v: string) {
    exists nodes, edges :: SnapshotWalk(snapshot, f, root, v, nodes, edges) && |edges| <= maxDepth
  }

  /** A related node: one of the snapshot, its distance, a shortest walk to it, its support and its score. */
  ghost predicate Relates(snapshot: Snapshot, f: Filter, root: string, maxDepth: int, r: Related) {
    && r.node in snapshot.nodes && r.node.nodeId != root && r.distance <= maxDepth
    && SnapshotWalk(snapshot, f, root, r.node.nodeId, r.examplePath.nodePath, r.examplePath.edgePath)
    && HopsTell(snapshot, r.examplePath) && |r.examplePath.edgePath| == r.distance
    && (forall nodes, edges :: SnapshotWalk(snapshot, f, root, r.node.nodeId, nodes, edges) ==> r.distance <= |edges|)
    && Scores(r, maxDepth)
  }

  ghost predicate ComesFirst(le: (string, string) -> bool, a: Related, b: Related) {
    || b.score < a.score
    || (a.score == b.score && le(a.node.nodeType, b.node.nodeType)
        && (le(b.node.nodeType, a.node.nodeType) ==> le(a.node.nodeId, b.node.nodeId)))
  }

  /** The nodes within reach, each once and best first; only canonical ones when only those are asked for. */
  ghost predicate RanksRelated(snapshot: Snapshot, f: Filter, root: string, maxDepth: int, canonicalOnly: bool,
                               le: (string, string) -> bool, ranked: seq<Related>)
  {
    && (forall r <- ranked :: Relates(snapshot, f, root, maxDepth, r) && (canonicalOnly ==> Canonical(r.node)))
    && (forall i, j :: 0 <= i < j < |ranked| ==>
          ranked[i].node.nodeId != ranked[j].node.nodeId && ComesFirst(le, ranked[i], ranked[j]))
    && forall node <- snapshot.nodes ::
         (exists r <- ranked :: r.node == node) <==>
           && node.nodeId != root && (canonicalOnly ==> Canonical(node))
           && Within(snapshot, f, root, maxDepth, node.nodeId)
  }

  lemma WalkTellsHops(snapshot: Snapshot, f: Filter, from: string, to: string, w: Walk)
    requires AdmissibleWalk(IndexesOf(snapshot), f, from, to, w)
    ensures HopsTell(snapshot, w)
  {
    var g := IndexesOf(snapshot);
    forall i | 0 <= i < |w.hops|
      ensures HopTells(snapshot, w, i)
    {
      assert Linked(g, f, w.nodePath[i], w.edgePath[i], w.nodePath[i + 1]);
      assert g.edgeIndex[w.edgePath[i]] in snapshot.edges;
    }
  }

  lemma WithinIsWithin(snapshot: Snapshot, f: Filter, root: string, maxDepth: int, v: string)
    requires UniqueIds(snapshot)
    ensures WithinReach(IndexesOf(snapshot), f, root, maxDepth, v) <==> Within(snapshot, f, root, maxDepth, v)
  {
    if nodes, edges :| SnapshotWalk(snapshot, f, root, v, nodes, edges) && |edges| <= maxDepth {
      var w := SnapshotWalkIsAdmissible(snapshot, f, root, v, nodes, edges);
    }
    if w :| AdmissibleWalk(IndexesOf(snapshot), f, root, v, w) && |w.edgePath| <= maxDepth {
      AdmissibleWalkIsSnapshotWalk(snapshot, f, root, v, w);
    }
  }

  lemma FaithfulRelates(snapshot: Snapshot, f: Filter, root: string, maxDepth: int, r: Related)
    requires UniqueIds(snapshot) && FaithfullyRelated(IndexesOf(snapshot), f, root, maxDepth, r)
    ensures Relates(snapshot, f, root, maxDepth, r)
  {
    hide Score, Scores, SnapshotWalk, AdmissibleWalk, SupportingEntries, Reach, HopsTell;
    var v := r.node.nodeId;
    ScoreScores(r, maxDepth);
    WalkTellsHops(snapshot, f, root, v, r.examplePath);
    AdmissibleWalkIsSnapshotWalk(snapshot, f, root, v, r.examplePath);
    forall nodes, edges | SnapshotWalk(snapshot, f, root, v, nodes, edges)
      ensures r.distance <= |edges|
    {
      var w := SnapshotWalkIsAdmissible(snapshot, f, root, v, nodes, edges);
    }
  }

  lemma CanonicalExactly(node: Node)
    ensures IsCanonicalNodeType(node.nodeType) <==> Canonical(node)
  {
  }

  lemma WantedExactly(snapshot: Snapshot, root: string, canonicalOnly: bool, node: Node)
    requires UniqueIds(snapshot) && node in snapshot.nodes
    ensures node.nodeId in NodeIndex(snapshot.nodes) && NodeIndex(snapshot.nodes)[node.nodeId] == node
    ensures Wanted(IndexesOf(snapshot), root, canonicalOnly, node.nodeId) <==>
              node.nodeId != root && (canonicalOnly ==> Canonical(node))
  {
    hide IsCanonicalNodeType, Canonical, NodeIndex, EdgeIndex, Adjacency;
    UniqueNodeLooksUp(snapshot.nodes, node);
    CanonicalExactly(node);
  }

  lemma RankComesFirst(le: (string, string) -> bool, ranked: seq<Related>)
    requires SortedBy((a, b) => RanksBefore(le, a, b), ranked)
    ensures forall i, j :: 0 <= i < j < |ranked| ==> ComesFirst(le, ranked[i], ranked[j])
  {
  }

  lemma CoveredNode(snapshot: Snapshot, f: Filter, root: string, maxDepth: int, canonicalOnly: bool,
                    ranked: seq<Related>, node: Node)
    requires UniqueIds(snapshot) && Covers(IndexesOf(snapshot), f, root, maxDepth, canonicalOnly, ranked)
    requires node in snapshot.nodes
    ensures (exists r <- ranked :: r.node == node) <==>
              && node.nodeId != root && (canonicalOnly ==> Canonical(node))
              && Within(snapshot, f, root, maxDepth, node.nodeId)
  {
    hide Wanted, WithinReach, Within, Canonical;
    WantedExactly(snapshot, root, canonicalOnly, node);
    WithinIsWithin(snapshot, f, root, maxDepth, node.nodeId);
    if r :| r in ranked && r.node == node {
      assert node.nodeId in Ids(ranked);
    }
    if node.nodeId in Ids(ranked) {
      var r :| r in ranked && r.node.nodeId == node.nodeId;
      assert FaithfullyRelated(IndexesOf(snapshot), f, root, maxDepth, r);
      assert r.node == node;
    }
  }

  lemma CoveredRelates(snapshot: Snapshot, f: Filter, root: string, maxDepth: int, canonicalOnly: bool,
                       ranked: seq<Related>, r: Related)
    requires UniqueIds(snapshot) && Covers(IndexesOf(snapshot), f, root, maxDepth, canonicalOnly, ranked)
    requires r in ranked
    ensures Relates(snapshot, f, root, maxDepth, r) && (canonicalOnly ==> Canonical(r.node))
  {
    hide WithinReach, Canonical;
    FaithfulRelates(snapshot, f, root, maxDepth, r);
    assert r.node.nodeId in Ids(ranked);
    WantedExactly(snapshot, root, canonicalOnly, r.node);
  }

  /** What an expansion answers, in terms of the snapshot alone. */
  lemma ExpansionIsAboutTheSnapshot(snapshot: Snapshot, f: Filter, root: string, maxDepth: int, canonicalOnly: bool,
                                    le: (string, string) -> bool, ranked: seq<Related>)
    requires UniqueIds(snapshot) && Covers(IndexesOf(snapshot), f, root, maxDepth, canonicalOnly, ranked)
    requires SortedBy((a, b) => RanksBefore(le, a, b), ranked)
    ensures RanksRelated(snapshot, f, root, maxDepth, canonicalOnly, le, ranked)
  {
    hide FaithfullyRelated, Wanted, WithinReach, Within, Relates, Canonical, ComesFirst;
    RankComesFirst(le, ranked);
    forall r | r in ranked
      ensures Relates(snapshot, f, root, maxDepth, r) && (canonicalOnly ==> Canonical(r.node))
    {
      CoveredRelates(snapshot, f, root, maxDepth, canonicalOnly, ranked, r);
    }
    forall node | node in snapshot.nodes
      ensures (exists r <- ranked :: r.node == node) <==>
                && node.nodeId != root && (canonicalOnly ==> Canonical(node))
                && Within(snapshot, f, root, maxDepth, node.nodeId)
    {
      CoveredNode(snapshot, f, root, maxDepth, canonicalOnly, ranked, node);
    }
  }

  /** A path that is found reports, for every hop, the edge it takes. */
  lemma PathsTellTheirHops(snapshot: Snapshot, f: Filter, from: string, to: string, maxDepth: int, answer: PathQuery)
    requires PathAnswer(IndexesOf(snapshot), f, from, to, maxDepth, answer) && answer.PathFound?
    ensures HopsTell(snapshot, answer.walk)
  {
    hide AdmissibleWalk, HopsTell;
    WalkTellsHops(snapshot, f, from, to, answer.walk);
  }
}
