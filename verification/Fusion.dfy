/**
 Retrieval fusion: candidates from several lanes are grouped by layer and record, scored, admitted
 or excluded, ranked, thinned to one candidate per evidence lineage and cut to each layer's budget.
 */
module Fusion {
  import opened Common

  const MAX_PUBLIC_CONFLICTS: nat := 7
  const MAX_PUBLIC_CONFLICT_EXAMPLES: nat := MAX_PUBLIC_CONFLICTS - 1

  datatype Layer = Tactics | Invariants | Cases | Evidence

  datatype Record = Record(evidenceId: string, workspaceId: Option<string>, sourceLocator: Option<string>,
                           correctionOf: Option<string>, timestamp: int)

  datatype Candidate = Candidate(laneId: string, layer: Layer, recordId: string, record: Record, score: real,
                                 reasons: seq<string>, semanticQualified: bool)

  datatype Aggregated = Aggregated(layer: Layer, recordId: string, record: Record, score: real, laneIds: seq<string>,
                                   reasons: seq<string>, semanticQualified: bool)

  datatype Key = Key(layer: Layer, recordId: string)

  datatype Exclusion = Exclusion(code: string, message: string)

  datatype Request = Request(exactIdentifierQuery: bool)

  /** The eligibility rules are one function of the aggregated candidate; only their verdict matters here. */
  type Eligibility = Aggregated -> Option<Exclusion>

  // ---------------------------------------------------------------- grouping and scores

  function KeyOf(candidate: Candidate): Key {
    Key(candidate.layer, candidate.recordId)
  }

  function Start(c: Candidate): Aggregated {
    Aggregated(c.layer, c.recordId, c.record, c.score, [c.laneId], c.reasons, c.semanticQualified)
  }

  function Boost(score: real, next: real): real {
    (if score >= next then score else next) + 0.05
  }

  function Absorb(a: Aggregated, c: Candidate): Aggregated {
    a.(score := Boost(a.score, c.score), laneIds := a.laneIds + [c.laneId], reasons := a.reasons + c.reasons,
       semanticQualified := a.semanticQualified || c.semanticQualified)
  }

  ghost function GroupOf(candidates: seq<Candidate>, key: Key): seq<Candidate> {
    if candidates == [] then []
    else
      var earlier, last := GroupOf(candidates[..|candidates| - 1], key), candidates[|candidates| - 1];
      if KeyOf(last) == key then earlier + [last] else earlier
  }

  ghost function Aggregate(group: seq<Candidate>): Aggregated
    requires group != []
  {
    if |group| == 1 then Start(group[0]) else Absorb(Aggregate(group[..|group| - 1]), group[|group| - 1])
  }

  ghost function KeysOf(candidates: seq<Candidate>): seq<Key> {
    if candidates == [] then []
    else
      var keys := KeysOf(candidates[..|candidates| - 1]);
      if KeyOf(candidates[|candidates| - 1]) in keys then keys else keys + [KeyOf(candidates[|candidates| - 1])]
  }

  lemma {:induction false} KeysHold(candidates: seq<Candidate>)
    ensures Distinct(KeysOf(candidates))
    ensures forall key :: key in KeysOf(candidates) <==> GroupOf(candidates, key) != []
  {
    if candidates != [] {
      KeysHold(candidates[..|candidates| - 1]);
    }
  }

  ghost function BestScore(group: seq<Candidate>): real
    requires group != []
  {
    if |group| == 1 then group[0].score
    else
      var best, last := BestScore(group[..|group| - 1]), group[|group| - 1].score;
      if best >= last then best else last
  }

  /** Agreement between lanes is worth at least one and at most n - 1 boosts over the best lane's score. */
  lemma {:induction false} FusedScoreBounds(group: seq<Candidate>)
    requires group != []
    ensures |group| == 1 ==> Aggregate(group).score == BestScore(group)
    ensures |group| >= 2 ==>
              BestScore(group) + 0.05 <= Aggregate(group).score <= BestScore(group) + 0.05 * (|group| - 1) as real
  {
    if |group| > 1 {
      FusedScoreBounds(group[..|group| - 1]);
      assert (|group| - 1) as real == (|group| - 2) as real + 1.0;
    }
  }

  /** An aggregated candidate carries its group's key, record, lanes and any lane's qualification. */
  lemma {:induction false} AggregateDescribesGroup(candidates: seq<Candidate>, key: Key)
    requires GroupOf(candidates, key) != []
    ensures var group := GroupOf(candidates, key); var a := Aggregate(group);
            && Key(a.layer, a.recordId) == key && |a.laneIds| == |group|
            && (forall i :: 0 <= i < |group| ==> a.laneIds[i] == group[i].laneId)
            && (a.semanticQualified <==> exists c :: c in group && c.semanticQualified)
  {
    var prefix, last := candidates[..|candidates| - 1], candidates[|candidates| - 1];
    var earlier := GroupOf(prefix, key);
    if KeyOf(last) == key {
      var group := earlier + [last];
      assert group[..|group| - 1] == earlier;
      if earlier != [] {
        AggregateDescribesGroup(prefix, key);
      }
      assert last in group;
    } else {
      AggregateDescribesGroup(prefix, key);
    }
  }

  method GroupCandidates(candidates: seq<Candidate>) returns (keys: seq<Key>, grouped: map<Key, Aggregated>)
    ensures keys == KeysOf(candidates)
    ensures forall key :: key in keys ==>
              key in grouped && GroupOf(candidates, key) != [] && grouped[key] == Aggregate(GroupOf(candidates, key))
  {
    keys, grouped := [], map[];
    var i := 0;
    while i < |candidates|
      invariant 0 <= i <= |candidates|
      invariant keys == KeysOf(candidates[..i])
      invariant forall key :: key in grouped <==> key in keys
      invariant forall key :: key in keys ==>
                  GroupOf(candidates[..i], key) != [] && grouped[key] == Aggregate(GroupOf(candidates[..i], key))
    {
      var candidate := candidates[i];
      var key := KeyOf(candidate);
      KeysHold(candidates[..i]);
      assert candidates[..i + 1][..i] == candidates[..i];
      ghost var group := GroupOf(candidates[..i], key);
      assert (group + [candidate])[..|group|] == group;
      if key !in grouped {
        grouped := grouped[key := Start(candidate)];
        keys := keys + [key];
      } else {
        grouped := grouped[key := Absorb(grouped[key], candidate)];
      }
      i := i + 1;
    }
    assert candidates[..|candidates|] == candidates;
  }

  // ---------------------------------------------------------------- admission

  function Relevance(request: Request, a: Aggregated): Option<Exclusion> {
    if request.exactIdentifierQuery && "lexical" !in a.laneIds && "metadata" !in a.laneIds
    then Some(Exclusion("low_relevance", "exact identifier queries require lexical or metadata support"))
    else if (forall lane :: lane in a.laneIds ==> lane == "semantic") && a.laneIds != [] && !a.semanticQualified
    then Some(Exclusion("low_relevance", "semantic-only candidate was not qualified by its backend"))
    else None
  }

  function Admission(request: Request, eligibility: Eligibility, a: Aggregated): Option<Exclusion> {
    if Relevance(request, a).Some? then Relevance(request, a) else eligibility(a)
  }

  function CountOf(counts: map<string, nat>, code: string): nat {
    if code in counts then counts[code] else 0
  }

  function Excluded(request: Request, eligibility: Eligibility, groups: seq<Aggregated>): seq<Exclusion> {
    if groups == [] then []
    else
      var earlier := Excluded(request, eligibility, groups[..|groups| - 1]);
      var verdict := Admission(request, eligibility, groups[|groups| - 1]);
      if verdict.Some? then earlier + [verdict.value] else earlier
  }

  ghost function Admitted(request: Request, eligibility: Eligibility, groups: seq<Aggregated>, layer: Layer)
      : seq<Aggregated>
  {
    if groups == [] then []
    else
      var earlier, last := Admitted(request, eligibility, groups[..|groups| - 1], layer), groups[|groups| - 1];
      if Admission(request, eligibility, last).None? && last.layer == layer then earlier + [last] else earlier
  }

  ghost function CodesOf(exclusions: seq<Exclusion>): seq<string> {
    if exclusions == [] then [] else CodesOf(exclusions[..|exclusions| - 1]) + [exclusions[|exclusions| - 1].code]
  }

  lemma {:induction false} CodesKeepLength(exclusions: seq<Exclusion>)
    ensures |CodesOf(exclusions)| == |exclusions|
  {
    if exclusions != [] {
      CodesKeepLength(exclusions[..|exclusions| - 1]);
    }
  }

  /** Nothing is lost: every group is excluded once or admitted to exactly one layer. */
  lemma {:induction false} GroupsAreConserved(request: Request, eligibility: Eligibility, groups: seq<Aggregated>)
    ensures |groups| == |Excluded(request, eligibility, groups)|
                        + |Admitted(request, eligibility, groups, Tactics)|
                        + |Admitted(request, eligibility, groups, Invariants)|
                        + |Admitted(request, eligibility, groups, Cases)|
                        + |Admitted(request, eligibility, groups, Evidence)|
  {
    if groups != [] {
      GroupsAreConserved(request, eligibility, groups[..|groups| - 1]);
    }
  }

  datatype AdmissionCounts = AdmissionCounts(excludedCount: nat, exclusionCounts: map<string, nat>,
                                             examples: seq<string>)

  /** The running counts describe the exclusions so far; the examples are the first of them, up to the cap. */
  ghost predicate Tallied(counts: AdmissionCounts, exclusions: seq<Exclusion>) {
    && counts.excludedCount == |exclusions|
    && (forall code :: CountOf(counts.exclusionCounts, code) == multiset(CodesOf(exclusions))[code])
    && |counts.examples| == (if |exclusions| < MAX_PUBLIC_CONFLICT_EXAMPLES then |exclusions|
                             else MAX_PUBLIC_CONFLICT_EXAMPLES)
    && (forall k :: 0 <= k < |counts.examples| ==> counts.examples[k] == exclusions[k].message)
  }

  function Tally(counts: AdmissionCounts, verdict: Exclusion): AdmissionCounts {
    AdmissionCounts(
      counts.excludedCount + 1,
      counts.exclusionCounts[verdict.code := CountOf(counts.exclusionCounts, verdict.code) + 1],
      if |counts.examples| < MAX_PUBLIC_CONFLICT_EXAMPLES then counts.examples + [verdict.message] else counts.examples)
  }

  lemma CodesOfOneMore(exclusions: seq<Exclusion>, verdict: Exclusion)
    ensures multiset(CodesOf(exclusions + [verdict])) == multiset(CodesOf(exclusions)) + multiset{verdict.code}
  {
    assert (exclusions + [verdict])[..|exclusions|] == exclusions;
    assert CodesOf(exclusions + [verdict]) == CodesOf(exclusions) + [verdict.code];
  }

  lemma TallyKeepsCount(counts: AdmissionCounts, exclusions: seq<Exclusion>, verdict: Exclusion)
    requires Tallied(counts, exclusions)
    ensures Tallied(Tally(counts, verdict), exclusions + [verdict])
  {
    hide CodesOf;
    CodesOfOneMore(exclusions, verdict);
  }

  /** The sum of all counts. */
  ghost function Total(counts: map<string, nat>): nat {
    if counts == map[] then 0
    else
      var code :| code in counts;
      counts[code] + Total(counts - {code})
  }

  lemma {:induction false} TotalWithout(counts: map<string, nat>, code: string)
    requires code in counts
    ensures Total(counts) == counts[code] + Total(counts - {code})
    decreases |counts|
  {
    var first: string :| first in counts && Total(counts) == counts[first] + Total(counts - {first});
    if first != code {
      TotalWithout(counts - {first}, code);
      TotalWithout(counts - {code}, first);
      assert counts - {first} - {code} == counts - {code} - {first};
    }
  }

  lemma TotalAfterUpdate(counts: map<string, nat>, code: string, count: nat)
    requires code in counts
    ensures Total(counts[code := count]) == Total(counts) - counts[code] + count
  {
    TotalWithout(counts, code);
    TotalWithout(counts[code := count], code);
    assert counts[code := count] - {code} == counts - {code};
  }

  lemma {:induction false} TotalOfZeros(counts: map<string, nat>)
    requires forall code :: code in counts ==> counts[code] == 0
    ensures Total(counts) == 0
    decreases |counts|
  {
    if counts != map[] {
      var code :| code in counts;
      TotalWithout(counts, code);
      TotalOfZeros(counts - {code});
    }
  }

  lemma {:induction false} TotalCountsCodes(counts: map<string, nat>, codes: seq<string>)
    requires forall code :: CountOf(counts, code) == multiset(codes)[code]
    ensures Total(counts) == |codes|
    decreases |codes|
  {
    if codes == [] {
      forall code | code in counts
        ensures counts[code] == 0
      {
        assert CountOf(counts, code) == 0;
      }
      TotalOfZeros(counts);
    } else {
      var init, last := codes[..|codes| - 1], codes[|codes| - 1];
      assert codes == init + [last];
      assert CountOf(counts, last) == multiset(init)[last] + 1;
      var fewer := counts[last := counts[last] - 1];
      forall code
        ensures CountOf(fewer, code) == multiset(init)[code]
      {
        assert CountOf(counts, code) == multiset(codes)[code];
      }
      TotalCountsCodes(fewer, init);
      TotalAfterUpdate(counts, last, counts[last] - 1);
    }
  }

  /** The recorded per-code counts add up to the number of exclusions. */
  lemma TalliedCodesAddUp(counts: AdmissionCounts, exclusions: seq<Exclusion>)
    requires Tallied(counts, exclusions)
    ensures Total(counts.exclusionCounts) == counts.excludedCount == |exclusions|
  {
    CodesKeepLength(exclusions);
    TotalCountsCodes(counts.exclusionCounts, CodesOf(exclusions));
  }

  ghost predicate Placed(request: Request, eligibility: Eligibility, groups: seq<Aggregated>,
                         perLayer: map<Layer, seq<Aggregated>>)
  {
    && perLayer.Keys == {Tactics, Invariants, Cases, Evidence}
    && forall layer :: layer in perLayer ==> perLayer[layer] == Admitted(request, eligibility, groups, layer)
  }

  lemma ExcludeGroup(request: Request, eligibility: Eligibility, groups: seq<Aggregated>, i: nat,
                     perLayer: map<Layer, seq<Aggregated>>)
    requires i < |groups| && Placed(request, eligibility, groups[..i], perLayer)
               && Admission(request, eligibility, groups[i]).Some?
    ensures Placed(request, eligibility, groups[..i + 1], perLayer)
    ensures Excluded(request, eligibility, groups[..i + 1])
            == Excluded(request, eligibility, groups[..i]) + [Admission(request, eligibility, groups[i]).value]
  {
    assert groups[..i + 1][..i] == groups[..i];
  }

  lemma PlaceGroup(request: Request, eligibility: Eligibility, groups: seq<Aggregated>, i: nat,
                   perLayer: map<Layer, seq<Aggregated>>)
    requires i < |groups| && Placed(request, eligibility, groups[..i], perLayer)
               && Admission(request, eligibility, groups[i]).None?
    requires groups[i].layer in perLayer
    ensures Placed(request, eligibility, groups[..i + 1],
                   perLayer[groups[i].layer := perLayer[groups[i].layer] + [groups[i]]])
    ensures Excluded(request, eligibility, groups[..i + 1]) == Excluded(request, eligibility, groups[..i])
  {
    assert groups[..i + 1][..i] == groups[..i];
  }

  lemma EveryLayerIsPlaced(request: Request, eligibility: Eligibility, groups: seq<Aggregated>,
                           perLayer: map<Layer, seq<Aggregated>>, layer: Layer)
    requires Placed(request, eligibility, groups, perLayer)
    ensures layer in perLayer
  {
    assert layer.Tactics? || layer.Invariants? || layer.Cases? || layer.Evidence?;
  }

  /** The admission loop. */
  method AdmitGroups(request: Request, eligibility: Eligibility, groups: seq<Aggregated>)
      returns (perLayer: map<Layer, seq<Aggregated>>, counts: AdmissionCounts)
    ensures Placed(request, eligibility, groups, perLayer)
    ensures Tallied(counts, Excluded(request, eligibility, groups))
  {
    perLayer := map[Tactics := [], Invariants := [], Cases := [], Evidence := []];
    counts := AdmissionCounts(0, map[], []);
    assert groups[..0] == [];
    assert Tallied(counts, []) && Placed(request, eligibility, [], perLayer);
    hide Tallied, Tally, Admission, Excluded, Admitted, Placed;
    var i := 0;
    while i < |groups|
      invariant 0 <= i <= |groups|
      invariant Placed(request, eligibility, groups[..i], perLayer)
      invariant Tallied(counts, Excluded(request, eligibility, groups[..i]))
    {
      var aggregated := groups[i];
      EveryLayerIsPlaced(request, eligibility, groups[..i], perLayer, aggregated.layer);
      var verdict := Admission(request, eligibility, aggregated);
      if verdict.Some? {
        ExcludeGroup(request, eligibility, groups, i, perLayer);
        TallyKeepsCount(counts, Excluded(request, eligibility, groups[..i]), verdict.value);
        counts := Tally(counts, verdict.value);
      } else {
        PlaceGroup(request, eligibility, groups, i, perLayer);
        perLayer := perLayer[aggregated.layer := perLayer[aggregated.layer] + [aggregated]];
      }
      i := i + 1;
    }
    assert groups[..|groups|] == groups;
  }

  function PublicConflicts(counts: AdmissionCounts, summary: string): seq<string> {
    if counts.excludedCount <= |counts.examples| then counts.examples else counts.examples + [summary]
  }

  // ---------------------------------------------------------------- ranking and lineage

  datatype LineageKey = BySource(workspaceId: Option<string>, locator: string) | ByCorrection(parent: string)
    | ByEvidence(id: string)

  function LineageOf(record: Record): LineageKey {
    if record.sourceLocator.Some? && record.sourceLocator.value != "" then
      BySource(record.workspaceId, record.sourceLocator.value)
    else if record.correctionOf.Some? && record.correctionOf.value != "" then ByCorrection(record.correctionOf.value)
    else ByEvidence(record.evidenceId)
  }

  predicate RanksBefore(le: (string, string) -> bool, a: Aggregated, b: Aggregated) {
    || a.score > b.score
    || (a.score == b.score && a.record.timestamp > b.record.timestamp)
    || (a.score == b.score && a.record.timestamp == b.record.timestamp && le(a.recordId, b.recordId))
  }

  lemma RankingIsTotal(le: (string, string) -> bool)
    requires TotalPreorder(le)
    ensures TotalPreorder((a, b) => RanksBefore(le, a, b))
  {
  }

  ghost function Diversify(candidates: seq<Aggregated>): seq<Aggregated> {
    if candidates == [] then []
    else
      var kept, last := Diversify(candidates[..|candidates| - 1]), candidates[|candidates| - 1];
      if exists k :: k in kept && LineageOf(k.record) == LineageOf(last.record) then kept else kept + [last]
  }

  method DiversifyByLineage(candidates: seq<Aggregated>) returns (diversified: seq<Aggregated>)
    ensures diversified == Diversify(candidates)
  {
    var seen: set<LineageKey> := {};
    diversified := [];
    var i := 0;
    while i < |candidates|
      invariant 0 <= i <= |candidates|
      invariant diversified == Diversify(candidates[..i])
      invariant forall lineage :: lineage in seen <==> exists k :: k in diversified && LineageOf(k.record) == lineage
    {
      var candidate := candidates[i];
      assert candidates[..i + 1][..i] == candidates[..i];
      var lineage := LineageOf(candidate.record);
      i := i + 1;
      if lineage in seen {
        continue;
      }
      ghost var before := diversified;
      seen := seen + {lineage};
      diversified := diversified + [candidate];
      forall other
        ensures other in seen <==> exists k :: k in diversified && LineageOf(k.record) == other
      {
        if other == lineage {
          assert diversified[|before|] == candidate;
        } else if exists k :: k in before && LineageOf(k.record) == other {
          var k :| k in before && LineageOf(k.record) == other;
          assert k in diversified;
        }
      }
    }
    assert candidates[..|candidates|] == candidates;
  }

  ghost predicate OnePerLineage(kept: seq<Aggregated>) {
    forall i, j :: 0 <= i < j < |kept| ==> LineageOf(kept[i].record) != LineageOf(kept[j].record)
  }

  lemma {:induction false} DiversifyKeepsOrder(le: (Aggregated, Aggregated) -> bool, candidates: seq<Aggregated>)
    requires SortedBy(le, candidates)
    ensures SortedBy(le, Diversify(candidates))
    ensures forall k :: k in Diversify(candidates) ==> k in candidates
    ensures OnePerLineage(Diversify(candidates))
  {
    if candidates != [] {
      var prefix, last := candidates[..|candidates| - 1], candidates[|candidates| - 1];
      DiversifyKeepsOrder(le, prefix);
      var before := Diversify(prefix);
      forall k | k in before
        ensures le(k, last)
      {
        var i :| 0 <= i < |prefix| && prefix[i] == k;
        assert le(candidates[i], candidates[|candidates| - 1]);
      }
      forall i | 0 <= i < |before|
        ensures le(before[i], last)
      {
        assert before[i] in before;
      }
    }
  }

  ghost predicate HasBest(le: (Aggregated, Aggregated) -> bool, kept: seq<Aggregated>, c: Aggregated) {
    exists k :: k in kept && LineageOf(k.record) == LineageOf(c.record) && le(k, c)
  }

  ghost predicate LineageIsKept(kept: seq<Aggregated>, c: Aggregated) {
    exists k :: k in kept && LineageOf(k.record) == LineageOf(c.record)
  }

  lemma DiversifySnoc(prefix: seq<Aggregated>, last: Aggregated)
    ensures Diversify(prefix + [last])
         == if LineageIsKept(Diversify(prefix), last) then Diversify(prefix) else Diversify(prefix) + [last]
  {
    hide LineageOf;
    assert (prefix + [last])[..|prefix|] == prefix;
  }

  lemma KeptBeforeIsBetter(le: (Aggregated, Aggregated) -> bool, prefix: seq<Aggregated>, last: Aggregated)
    requires SortedBy(le, prefix + [last]) && LineageIsKept(Diversify(prefix), last)
    ensures HasBest(le, Diversify(prefix), last)
  {
    hide LineageOf, Diversify;
    var k :| k in Diversify(prefix) && LineageOf(k.record) == LineageOf(last.record);
    SortedInit(le, prefix, last);
    DiversifyKeepsOrder(le, prefix);
    assert k in prefix;
  }

  lemma SortedInit(le: (Aggregated, Aggregated) -> bool, prefix: seq<Aggregated>, last: Aggregated)
    requires SortedBy(le, prefix + [last])
    ensures SortedBy(le, prefix) && forall c <- prefix :: le(c, last)
  {
    var all := prefix + [last];
    forall c | c in prefix
      ensures le(c, last)
    {
      var i :| 0 <= i < |prefix| && prefix[i] == c;
      assert le(all[i], all[|prefix|]);
    }
    forall i, j | 0 <= i < j < |prefix|
      ensures le(prefix[i], prefix[j])
    {
      assert le(all[i], all[j]);
    }
  }

  /** Every candidate's lineage keeps a candidate at least as well ranked: the best one. */
  lemma {:induction false} DiversifyKeepsBest(le: (Aggregated, Aggregated) -> bool, candidates: seq<Aggregated>,
                                              c: Aggregated)
    requires TotalPreorder(le) && SortedBy(le, candidates) && c in candidates
    ensures HasBest(le, Diversify(candidates), c)
  {
    hide LineageOf, Diversify, SortedBy, LineageIsKept;
    var prefix, last := candidates[..|candidates| - 1], candidates[|candidates| - 1];
    assert candidates == prefix + [last];
    SortedInit(le, prefix, last);
    DiversifySnoc(prefix, last);
    if c in prefix {
      DiversifyKeepsBest(le, prefix, c);
      var k :| k in Diversify(prefix) && LineageOf(k.record) == LineageOf(c.record) && le(k, c);
      assert k in Diversify(candidates);
    } else if LineageIsKept(Diversify(prefix), last) {
      KeptBeforeIsBetter(le, prefix, last);
    } else {
      var kept := Diversify(prefix);
      assert le(last, last) && (kept + [last])[|kept|] == last;
    }
  }

  // ---------------------------------------------------------------- the whole fusion

  datatype Response = Response(results: map<Layer, seq<Aggregated>>, conflicts: seq<string>, excludedCount: nat,
                               excludedByCode: map<string, nat>)

  ghost function GroupsOf(candidates: seq<Candidate>, keys: seq<Key>): seq<Aggregated>
    requires forall key :: key in keys ==> GroupOf(candidates, key) != []
  {
    seq(|keys|, i requires 0 <= i < |keys| => Aggregate(GroupOf(candidates, keys[i])))
  }

  function Budget(budgets: map<Layer, nat>, layer: Layer): nat {
    if layer in budgets then budgets[layer] else 0
  }

  function Take<T>(s: seq<T>, n: nat): seq<T> {
    if n < |s| then s[..n] else s
  }

  /** The ranked, thinned and cut list of one layer. */
  ghost function LayerResult(le: (string, string) -> bool, admitted: seq<Aggregated>, layer: Layer, budget: nat)
      : seq<Aggregated>
  {
    var ranked := Sort((a, b) => RanksBefore(le, a, b), admitted);
    Take(if layer == Evidence then Diversify(ranked) else ranked, budget)
  }

  /** Ranks, thins and cuts every layer. */
  method RankLayers(perLayer: map<Layer, seq<Aggregated>>, budgets: map<Layer, nat>, le: (string, string) -> bool)
    returns (results: map<Layer, seq<Aggregated>>)
    ensures results.Keys == perLayer.Keys
    ensures forall layer :: layer in results ==>
              results[layer] == LayerResult(le, perLayer[layer], layer, Budget(budgets, layer))
  {
    results := map[];
    var remaining := perLayer.Keys;
    while remaining != {}
      invariant results.Keys == perLayer.Keys - remaining && remaining <= perLayer.Keys
      invariant forall layer :: layer in results ==>
                  results[layer] == LayerResult(le, perLayer[layer], layer, Budget(budgets, layer))
    {
      var layer :| layer in remaining;
      remaining := remaining - {layer};
      var ranked := Sort((a, b) => RanksBefore(le, a, b), perLayer[layer]);
      if layer == Evidence {
        ranked := DiversifyByLineage(ranked);
      }
      results := results[layer := Take(ranked, Budget(budgets, layer))];
    }
  }

  /** The layers of a response, each from what was admitted to it. */
  ghost predicate RankedLayers(request: Request, eligibility: Eligibility, groups: seq<Aggregated>,
                               budgets: map<Layer, nat>, le: (string, string) -> bool,
                               results: map<Layer, seq<Aggregated>>) {
    && results.Keys == {Tactics, Invariants, Cases, Evidence}
    && forall layer :: layer in results ==>
         results[layer] == LayerResult(le, Admitted(request, eligibility, groups, layer), layer, Budget(budgets, layer))
  }

  ghost predicate OncePerLayer(results: map<Layer, seq<Aggregated>>) {
    forall layer :: layer in results ==> DistinctRecords(results[layer])
  }

  method Fuse(request: Request, eligibility: Eligibility, candidates: seq<Candidate>, budgets: map<Layer, nat>,
              summary: string, le: (string, string) -> bool)
      returns (response: Response, ghost groups: seq<Aggregated>)
    requires TotalPreorder(le)
    ensures forall key :: key in KeysOf(candidates) ==> GroupOf(candidates, key) != []
    ensures groups == GroupsOf(candidates, KeysOf(candidates))
    ensures RankedLayers(request, eligibility, groups, budgets, le, response.results)
    ensures OncePerLayer(response.results)
    ensures response.excludedCount == |Excluded(request, eligibility, groups)| == Total(response.excludedByCode)
    ensures forall code :: CountOf(response.excludedByCode, code)
                        == multiset(CodesOf(Excluded(request, eligibility, groups)))[code]
    ensures |response.conflicts| <= MAX_PUBLIC_CONFLICTS
    ensures |response.conflicts|
         == if response.excludedCount <= MAX_PUBLIC_CONFLICT_EXAMPLES then response.excludedCount
            else MAX_PUBLIC_CONFLICTS
    ensures forall k :: 0 <= k < |response.conflicts| && k < MAX_PUBLIC_CONFLICT_EXAMPLES ==>
              response.conflicts[k] == Excluded(request, eligibility, groups)[k].message
    ensures |response.conflicts| == MAX_PUBLIC_CONFLICTS ==>
              response.conflicts[MAX_PUBLIC_CONFLICT_EXAMPLES] == summary
  {
    hide LayerResult, Admitted, GroupOf, KeysOf, Aggregate, Total;
    var keys, grouped := GroupCandidates(candidates);
    var aggregated := seq(|keys|, i requires 0 <= i < |keys| && keys[i] in grouped => grouped[keys[i]]);
    assert aggregated == GroupsOf(candidates, keys);
    groups := aggregated;
    var perLayer, counts := AdmitGroups(request, eligibility, aggregated);
    TalliedCodesAddUp(counts, Excluded(request, eligibility, groups));
    var results := RankLayers(perLayer, budgets, le);
    FusedLayersHoldRecordsOnce(request, eligibility, candidates, budgets, le, results);
    response := Response(results, PublicConflicts(counts, summary), counts.excludedCount, counts.exclusionCounts);
  }

  // ---------------------------------------------------------------- no record twice

  ghost predicate DistinctRecords(s: seq<Aggregated>) {
    forall i, j :: 0 <= i < j < |s| ==> s[i].recordId != s[j].recordId
  }

  lemma RearrangedRecordsStayDistinct(s: seq<Aggregated>, t: seq<Aggregated>)
    requires DistinctRecords(s) && multiset(s) == multiset(t)
    ensures DistinctRecords(t)
  {
    DistinctFromMultiset(s, t);
    forall i, j | 0 <= i < j < |t|
      ensures t[i].recordId != t[j].recordId
    {
      assert t[i] in multiset(s) && t[j] in multiset(s);
      var a :| 0 <= a < |s| && s[a] == t[i];
      var b :| 0 <= b < |s| && s[b] == t[j];
      assert a != b;
    }
  }

  lemma {:induction false} DiversifiedRecordsStayDistinct(candidates: seq<Aggregated>)
    requires DistinctRecords(candidates)
    ensures DistinctRecords(Diversify(candidates))
    ensures forall k <- Diversify(candidates) :: k in candidates
  {
    if candidates != [] {
      var prefix, last := candidates[..|candidates| - 1], candidates[|candidates| - 1];
      DiversifiedRecordsStayDistinct(prefix);
      var before := Diversify(prefix);
      forall i | 0 <= i < |before|
        ensures before[i].recordId != last.recordId
      {
        assert before[i] in before;
        var k :| 0 <= k < |prefix| && prefix[k] == before[i];
        assert candidates[k] == before[i];
      }
    }
  }

  lemma LayerHoldsRecordsOnce(le: (string, string) -> bool, admitted: seq<Aggregated>, layer: Layer, budget: nat)
    requires TotalPreorder(le) && DistinctRecords(admitted)
    ensures DistinctRecords(LayerResult(le, admitted, layer, budget))
  {
    var order := (a, b) => RanksBefore(le, a, b);
    RankingIsTotal(le);
    SortSorts(order, admitted);
    RearrangedRecordsStayDistinct(admitted, Sort(order, admitted));
    DiversifiedRecordsStayDistinct(Sort(order, admitted));
  }

  /** Whatever the candidates, no layer of the response lists a record twice. */
  lemma FusedLayersHoldRecordsOnce(request: Request, eligibility: Eligibility, candidates: seq<Candidate>,
                                   budgets: map<Layer, nat>, le: (string, string) -> bool,
                                   results: map<Layer, seq<Aggregated>>)
    requires TotalPreorder(le)
    requires forall key :: key in KeysOf(candidates) ==> GroupOf(candidates, key) != []
    requires RankedLayers(request, eligibility, GroupsOf(candidates, KeysOf(candidates)), budgets, le, results)
    ensures OncePerLayer(results)
  {
    var groups := GroupsOf(candidates, KeysOf(candidates));
    GroupKeysAreDistinct(candidates);
    hide LayerResult, Admitted, GroupOf, KeysOf;
    forall layer | layer in results
      ensures DistinctRecords(results[layer])
    {
      AdmittedRecordsAreDistinct(request, eligibility, groups, layer);
      LayerHoldsRecordsOnce(le, Admitted(request, eligibility, groups, layer), layer, Budget(budgets, layer));
    }
  }

  /** What ranking means: a higher score, then a later time, then the id. */
  ghost predicate AtLeastAsGood(le: (string, string) -> bool, a: Aggregated, b: Aggregated) {
    || b.score < a.score
    || (a.score == b.score && b.record.timestamp < a.record.timestamp)
    || (a.score == b.score && a.record.timestamp == b.record.timestamp && le(a.recordId, b.recordId))
  }

  /** The same source of the same workspace, else corrections of the same record, else the same record. */
  ghost predicate SameLineage(a: Record, b: Record) {
    if Named(a.sourceLocator) || Named(b.sourceLocator) then
      a.sourceLocator == b.sourceLocator && a.workspaceId == b.workspaceId
    else if Named(a.correctionOf) || Named(b.correctionOf) then a.correctionOf == b.correctionOf
    else a.evidenceId == b.evidenceId
  }

  lemma LineageExactly(a: Record, b: Record)
    ensures LineageOf(a) == LineageOf(b) <==> SameLineage(a, b)
  {
  }

  /** The list holds the best of what was admitted, in order. */
  ghost predicate BestFirst(le: (string, string) -> bool, admitted: seq<Aggregated>, budget: nat, r: seq<Aggregated>) {
    && |r| <= budget && (forall c <- r :: c in admitted)
    && forall i, j :: 0 <= i < j < |r| ==> AtLeastAsGood(le, r[i], r[j])
  }

  ghost predicate BestOfAll(le: (string, string) -> bool, admitted: seq<Aggregated>, budget: nat, r: seq<Aggregated>) {
    && |r| == (if |admitted| < budget then |admitted| else budget)
    && forall c <- admitted :: c in r || forall x <- r :: AtLeastAsGood(le, x, c)
  }

  /** The candidate's lineage has one at least as good, which is listed unless better ones fill the budget. */
  ghost predicate LineageIsServed(le: (string, string) -> bool, admitted: seq<Aggregated>, budget: nat,
                                  r: seq<Aggregated>, c: Aggregated)
  {
    exists k <- admitted ::
      && SameLineage(k.record, c.record) && AtLeastAsGood(le, k, c)
      && (k in r || (|r| == budget && forall x <- r :: AtLeastAsGood(le, x, k)))
  }

  ghost predicate BestOfEachLineage(le: (string, string) -> bool, admitted: seq<Aggregated>, budget: nat,
                                    r: seq<Aggregated>)
  {
    && (forall i, j :: 0 <= i < j < |r| ==> !SameLineage(r[i].record, r[j].record))
    && forall c <- admitted :: LineageIsServed(le, admitted, budget, r, c)
  }

  lemma RankIsGood(le: (string, string) -> bool)
    ensures forall a, b :: RanksBefore(le, a, b) <==> AtLeastAsGood(le, a, b)
  {
  }

  /**
   Each layer's list is the best of what was admitted to that layer, best first and within budget;
   evidence keeps one candidate per lineage, the best ranked.
   */
  lemma LayerResultsAreRanked(le: (string, string) -> bool, admitted: seq<Aggregated>, layer: Layer, budget: nat)
    requires TotalPreorder(le)
    ensures var r := LayerResult(le, admitted, layer, budget);
            && BestFirst(le, admitted, budget, r)
            && (layer != Evidence ==> BestOfAll(le, admitted, budget, r))
            && (layer == Evidence ==> BestOfEachLineage(le, admitted, budget, r))
  {
    var order := (a, b) => RanksBefore(le, a, b);
    RankingIsTotal(le);
    RankIsGood(le);
    hide RanksBefore, AtLeastAsGood, LineageOf, SameLineage;
    SortSorts(order, admitted);
    var ranked := Sort(order, admitted);
    var r := LayerResult(le, admitted, layer, budget);
    DiversifyKeepsOrder(order, ranked);
    if layer == Evidence {
      BestOfLineagesAreFirst(le, admitted, ranked, budget);
    } else {
      BestAreFirst(le, admitted, ranked, budget);
    }
  }

  lemma BestAreFirst(le: (string, string) -> bool, admitted: seq<Aggregated>, ranked: seq<Aggregated>, budget: nat)
    requires SortedBy((a, b) => RanksBefore(le, a, b), ranked)
    requires |ranked| == |admitted| && forall c <- admitted :: c in ranked
    ensures BestOfAll(le, admitted, budget, Take(ranked, budget))
  {
    RankIsGood(le);
    hide RanksBefore, AtLeastAsGood;
    forall c | c in admitted
      ensures c in Take(ranked, budget) || forall x <- Take(ranked, budget) :: AtLeastAsGood(le, x, c)
    {
      CutKeepsTheFront((a, b) => RanksBefore(le, a, b), ranked, budget, c);
    }
  }

  lemma BestOfLineagesAreFirst(le: (string, string) -> bool, admitted: seq<Aggregated>, ranked: seq<Aggregated>,
                               budget: nat)
    requires TotalPreorder((a, b) => RanksBefore(le, a, b)) && SortedBy((a, b) => RanksBefore(le, a, b), ranked)
    requires forall c :: c in ranked <==> c in admitted
    ensures BestOfEachLineage(le, admitted, budget, Take(Diversify(ranked), budget))
  {
    var order := (a, b) => RanksBefore(le, a, b);
    var thinned := Diversify(ranked);
    var r := Take(thinned, budget);
    RankIsGood(le);
    hide RanksBefore, AtLeastAsGood, LineageOf, SameLineage, Diversify, TotalPreorder;
    DiversifyKeepsOrder(order, ranked);
    forall c | c in admitted
      ensures LineageIsServed(le, admitted, budget, r, c)
    {
      DiversifyKeepsBest(order, ranked, c);
      var k :| k in thinned && LineageOf(k.record) == LineageOf(c.record) && order(k, c);
      LineageExactly(k.record, c.record);
      CutKeepsTheFront(order, thinned, budget, k);
      assert k in admitted;
    }
    CutKeepsLineages(thinned, budget);
  }

  lemma CutKeepsLineages(thinned: seq<Aggregated>, budget: nat)
    requires OnePerLineage(thinned)
    ensures var r := Take(thinned, budget);
            forall i, j :: 0 <= i < j < |r| ==> !SameLineage(r[i].record, r[j].record)
  {
    hide LineageOf, SameLineage;
    var r := Take(thinned, budget);
    forall i, j | 0 <= i < j < |r|
      ensures !SameLineage(r[i].record, r[j].record)
    {
      assert r[i] == thinned[i] && r[j] == thinned[j];
      LineageExactly(r[i].record, r[j].record);
    }
  }

  lemma CutKeepsTheFront(order: (Aggregated, Aggregated) -> bool, s: seq<Aggregated>, n: nat, k: Aggregated)
    requires SortedBy(order, s) && k in s
    ensures k in Take(s, n) || (|Take(s, n)| == n && forall x :: x in Take(s, n) ==> order(x, k))
  {
    var i :| 0 <= i < |s| && s[i] == k;
    if i < n {
      assert Take(s, n)[i] == k;
    } else {
      forall x | x in Take(s, n)
        ensures order(x, k)
      {
        var j :| 0 <= j < |Take(s, n)| && Take(s, n)[j] == x;
        assert s[j] == x;
      }
    }
  }

  /** Groups with different keys are admitted to a layer as different records. */
  lemma {:induction false} AdmittedRecordsAreDistinct(request: Request, eligibility: Eligibility,
                                                      groups: seq<Aggregated>, layer: Layer)
    requires forall i, j :: 0 <= i < j < |groups| ==>
               Key(groups[i].layer, groups[i].recordId) != Key(groups[j].layer, groups[j].recordId)
    ensures var a := Admitted(request, eligibility, groups, layer);
            && (forall x :: x in a ==> x in groups && x.layer == layer)
            && (forall i, j :: 0 <= i < j < |a| ==> a[i].recordId != a[j].recordId)
  {
    if groups != [] {
      var prefix, last := groups[..|groups| - 1], groups[|groups| - 1];
      AdmittedRecordsAreDistinct(request, eligibility, prefix, layer);
      var earlier := Admitted(request, eligibility, prefix, layer);
      assert groups == prefix + [last];
      if last.layer == layer {
        forall i | 0 <= i < |earlier|
          ensures earlier[i].recordId != last.recordId
        {
          assert earlier[i] in prefix;
          var k :| 0 <= k < |prefix| && prefix[k] == earlier[i];
          assert groups[k] == earlier[i];
        }
      }
    }
  }

  lemma GroupKeysAreDistinct(candidates: seq<Candidate>)
    requires forall key :: key in KeysOf(candidates) ==> GroupOf(candidates, key) != []
    ensures var groups := GroupsOf(candidates, KeysOf(candidates));
            forall i, j :: 0 <= i < j < |groups| ==>
              Key(groups[i].layer, groups[i].recordId) != Key(groups[j].layer, groups[j].recordId)
  {
    var keys := KeysOf(candidates);
    KeysHold(candidates);
    forall i | 0 <= i < |keys|
      ensures var a := Aggregate(GroupOf(candidates, keys[i])); Key(a.layer, a.recordId) == keys[i]
    {
      AggregateDescribesGroup(candidates, keys[i]);
    }
  }

  /** The distinct layer and record keys are exactly the admitted and the excluded groups, which are all counted. */
  lemma FusionConserves(request: Request, eligibility: Eligibility, candidates: seq<Candidate>)
    requires forall key :: key in KeysOf(candidates) ==> GroupOf(candidates, key) != []
    ensures var groups := GroupsOf(candidates, KeysOf(candidates));
            && |KeySet(candidates)|
               == |Excluded(request, eligibility, groups)| + |Admitted(request, eligibility, groups, Tactics)|
                  + |Admitted(request, eligibility, groups, Invariants)|
                  + |Admitted(request, eligibility, groups, Cases)|
                  + |Admitted(request, eligibility, groups, Evidence)|
            && forall counts :: Tallied(counts, Excluded(request, eligibility, groups)) ==>
                 Total(counts.exclusionCounts) == |Excluded(request, eligibility, groups)|
  {
    var groups := GroupsOf(candidates, KeysOf(candidates));
    GroupsAreConserved(request, eligibility, groups);
    DistinctKeysAreCounted(candidates);
    forall counts | Tallied(counts, Excluded(request, eligibility, groups))
      ensures Total(counts.exclusionCounts) == |Excluded(request, eligibility, groups)|
    {
      TalliedCodesAddUp(counts, Excluded(request, eligibility, groups));
    }
  }

  ghost function KeySet(candidates: seq<Candidate>): set<Key> {
    set c | c in candidates :: KeyOf(c)
  }

  lemma OneMoreKey(prefix: seq<Candidate>, last: Candidate)
    ensures KeySet(prefix + [last]) == KeySet(prefix) + {KeyOf(last)}
  {
    hide KeyOf;
    assert forall c :: c in prefix + [last] <==> c in prefix || c == last;
  }

  lemma {:induction false} DistinctKeysAreCounted(candidates: seq<Candidate>)
    ensures KeySet(candidates) == set key | key in KeysOf(candidates)
    ensures |KeySet(candidates)| == |KeysOf(candidates)|
  {
    if candidates != [] {
      hide KeySet, KeyOf;
      var prefix, last := candidates[..|candidates| - 1], candidates[|candidates| - 1];
      DistinctKeysAreCounted(prefix);
      assert candidates == prefix + [last];
      OneMoreKey(prefix, last);
      if KeyOf(last) in KeysOf(prefix) {
        assert KeySet(prefix) + {KeyOf(last)} == KeySet(prefix);
      } else {
        assert KeyOf(last) !in KeySet(prefix);
        assert (set key | key in KeysOf(candidates)) == KeySet(prefix) + {KeyOf(last)};
      }
    } else {
      assert KeySet([]) == {};
    }
  }
}
