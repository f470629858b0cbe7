/**
 What a fused response answers, said of the lane candidates themselves: which records may be shown, what
 each of them carries, and which of them are shown.
 */
module FusionAnswers {
  import opened Common
  import opened Fusion

  // ---------------------------------------------------------------- one record of a layer

  ghost predicate IsAt(candidates: seq<Candidate>, layer: Layer, id: string, i: nat) {
    i < |candidates| && candidates[i].layer == layer && candidates[i].recordId == id
  }

  /** Where the candidates of a record of a layer stand, in order. */
  ghost predicate RecordPlaces(candidates: seq<Candidate>, layer: Layer, id: string, places: seq<nat>) {
    Increasing(places) && forall i: nat :: i in places <==> IsAt(candidates, layer, id, i)
  }

  /** The score after n candidates: the best of the next one and the score so far, and a boost for agreeing. */
  ghost function ScoreOf(candidates: seq<Candidate>, places: seq<nat>, n: nat): real
    requires 0 < n <= |places| && InRange(candidates, places)
  {
    if n == 1 then candidates[places[0]].score
    else
      var before, next := ScoreOf(candidates, places, n - 1), candidates[places[n - 1]].score;
      0.05 + if next > before then next else before
  }

  ghost function ReasonsOf(candidates: seq<Candidate>, places: seq<nat>, n: nat): seq<string>
    requires n <= |places| && InRange(candidates, places)
  {
    if n == 0 then [] else ReasonsOf(candidates, places, n - 1) + candidates[places[n - 1]].reasons
  }

  /** The aggregated candidate carries what the candidates at these places say. */
  ghost predicate Carries(candidates: seq<Candidate>, places: seq<nat>, n: nat, a: Aggregated)
    requires 0 < n <= |places| && InRange(candidates, places)
  {
    var first := candidates[places[0]];
    && a.layer == first.layer && a.recordId == first.recordId && a.record == first.record
    && a.score == ScoreOf(candidates, places, n)
    && |a.laneIds| == n && (forall k :: 0 <= k < n ==> a.laneIds[k] == candidates[places[k]].laneId)
    && a.reasons == ReasonsOf(candidates, places, n)
    && (a.semanticQualified <==> exists k :: 0 <= k < n && candidates[places[k]].semanticQualified)
  }

  ghost predicate InRange(candidates: seq<Candidate>, places: seq<nat>) {
    forall k :: 0 <= k < |places| ==> places[k] < |candidates|
  }

  /** The aggregated candidate is that of one record of a layer, with all of its candidates. */
  ghost predicate Fuses(candidates: seq<Candidate>, a: Aggregated) {
    exists places ::
      && places != [] && RecordPlaces(candidates, a.layer, a.recordId, places) && InRange(candidates, places)
      && Carries(candidates, places, |places|, a)
  }

  lemma OneMorePlace(candidates: seq<Candidate>, last: Candidate, layer: Layer, id: string, places: seq<nat>)
    requires RecordPlaces(candidates, layer, id, places)
    ensures RecordPlaces(candidates + [last], layer, id,
                     if last.layer == layer && last.recordId == id then places + [|candidates|] else places)
  {
    var n := |candidates|;
    var isLast := last.layer == layer && last.recordId == id;
    var more := if isLast then places + [n] else places;
    forall k | 0 <= k < |places|
      ensures places[k] < n
    {
      assert places[k] in places;
    }
    assert forall i: nat :: IsAt(candidates + [last], layer, id, i) <==>
                              IsAt(candidates, layer, id, i) || (i == n && isLast);
    hide IsAt;
    assert forall i: nat :: i in more <==> i in places || (i == n && isLast);
  }

  /** The group holds the candidates at these places. */
  ghost predicate StandsAt(candidates: seq<Candidate>, places: seq<nat>, group: seq<Candidate>) {
    && |group| == |places| && InRange(candidates, places)
    && forall k :: 0 <= k < |places| ==> group[k] == candidates[places[k]]
  }

  lemma StandsLonger(candidates: seq<Candidate>, last: Candidate, places: seq<nat>, group: seq<Candidate>)
    requires StandsAt(candidates, places, group)
    ensures StandsAt(candidates + [last], places, group)
    ensures StandsAt(candidates + [last], places + [|candidates|], group + [last])
  {
  }

  /** The group of a key is that of the candidates at its places. */
  lemma {:induction false} GroupIsAtItsPlaces(candidates: seq<Candidate>, layer: Layer, id: string)
      returns (places: seq<nat>)
    ensures RecordPlaces(candidates, layer, id, places)
    ensures StandsAt(candidates, places, GroupOf(candidates, Key(layer, id)))
  {
    hide RecordPlaces, StandsAt;
    places := [];
    if candidates == [] {
      NoPlaces(layer, id);
    } else {
      var n := |candidates| - 1;
      places := GroupIsAtItsPlaces(candidates[..n], layer, id);
      OneMorePlace(candidates[..n], candidates[n], layer, id, places);
      StandsLonger(candidates[..n], candidates[n], places, GroupOf(candidates[..n], Key(layer, id)));
      assert candidates == candidates[..n] + [candidates[n]];
      places := if candidates[n].layer == layer && candidates[n].recordId == id then places + [n] else places;
    }
  }

  lemma NoPlaces(layer: Layer, id: string)
    ensures RecordPlaces([], layer, id, []) && StandsAt([], [], [])
  {
  }

  /** Aggregating a group step by step gives what its candidates say. */
  lemma {:induction false} AggregateCarries(candidates: seq<Candidate>, places: seq<nat>, group: seq<Candidate>)
    requires group != [] && StandsAt(candidates, places, group)
    ensures Carries(candidates, places, |places|, Aggregate(group))
    decreases |group|
  {
    var n := |group| - 1;
    if n > 0 {
      AggregateCarries(candidates, places[..n], group[..n]);
      SamePlaces(candidates, places, n, n);
    } else {
      assert ReasonsOf(candidates, places, 1) == [] + group[0].reasons;
    }
  }

  lemma {:induction false} SamePlaces(candidates: seq<Candidate>, places: seq<nat>, m: nat, n: nat)
    requires n <= m <= |places| && InRange(candidates, places)
    ensures n > 0 ==> ScoreOf(candidates, places[..m], n) == ScoreOf(candidates, places, n)
    ensures ReasonsOf(candidates, places[..m], n) == ReasonsOf(candidates, places, n)
  {
    if n > 0 {
      SamePlaces(candidates, places, m, n - 1);
    }
  }

  // ---------------------------------------------------------------- one aggregated candidate per record

  lemma {:induction false} IncreasingIsUnique(a: seq<nat>, b: seq<nat>)
    requires Increasing(a) && Increasing(b) && forall i: nat :: i in a <==> i in b
    ensures a == b
    decreases |a| + |b|
  {
    LastIsIn(a, b);
    LastIsIn(b, a);
    if a != [] {
      var m, n := |a| - 1, |b| - 1;
      assert a[m] == b[n];
      forall i: nat
        ensures i in a[..m] <==> i in b[..n]
      {
        WithoutLast(a, i);
        WithoutLast(b, i);
      }
      IncreasingIsUnique(a[..m], b[..n]);
      assert a == a[..m] + [a[m]] && b == b[..n] + [b[n]];
    }
  }

  lemma LastIsIn(a: seq<nat>, b: seq<nat>)
    requires Increasing(b) && forall i: nat :: i in a ==> i in b
    ensures a != [] ==> b != [] && a[|a| - 1] <= b[|b| - 1]
  {
    if a != [] {
      assert a[|a| - 1] in a;
    }
  }

  lemma WithoutLast(a: seq<nat>, i: nat)
    requires Increasing(a) && a != []
    ensures i in a[..|a| - 1] <==> i in a && i != a[|a| - 1]
  {
    assert a == a[..|a| - 1] + [a[|a| - 1]];
  }

  /** What a record of a layer carries is determined by the candidates. */
  lemma FusedOnce(candidates: seq<Candidate>, a: Aggregated, b: Aggregated)
    requires Fuses(candidates, a) && Fuses(candidates, b) && a.layer == b.layer && a.recordId == b.recordId
    ensures a == b
  {
    hide IsAt, ScoreOf, ReasonsOf, InRange;
    var p :|
      && p != [] && RecordPlaces(candidates, a.layer, a.recordId, p) && InRange(candidates, p)
      && Carries(candidates, p, |p|, a);
    var q :|
      && q != [] && RecordPlaces(candidates, b.layer, b.recordId, q) && InRange(candidates, q)
      && Carries(candidates, q, |q|, b);
    IncreasingIsUnique(p, q);
    CarriedOnce(candidates, p, a, b);
  }

  lemma CarriedOnce(candidates: seq<Candidate>, places: seq<nat>, a: Aggregated, b: Aggregated)
    requires places != [] && InRange(candidates, places)
    requires Carries(candidates, places, |places|, a) && Carries(candidates, places, |places|, b)
    ensures a == b
  {
    assert a.laneIds == b.laneIds;
  }

  /** The groups of the response are the fused records, one for each record of a layer that has candidates. */
  lemma GroupsAreFused(candidates: seq<Candidate>)
    requires forall key :: key in KeysOf(candidates) ==> GroupOf(candidates, key) != []
    ensures forall a :: a in GroupsOf(candidates, KeysOf(candidates)) <==> Fuses(candidates, a)
  {
    var keys, groups := KeysOf(candidates), GroupsOf(candidates, KeysOf(candidates));
    KeysHold(candidates);
    hide KeysOf, GroupOf, Aggregate, Fuses;
    forall i | 0 <= i < |groups|
      ensures Fuses(candidates, groups[i])
    {
      GroupIsFused(candidates, keys[i]);
    }
    forall a | Fuses(candidates, a)
      ensures a in groups
    {
      FusedHasAGroup(candidates, a);
      var i :| 0 <= i < |keys| && keys[i] == Key(a.layer, a.recordId);
      GroupIsFused(candidates, keys[i]);
      FusedOnce(candidates, a, groups[i]);
    }
  }

  lemma GroupIsFused(candidates: seq<Candidate>, key: Key)
    requires GroupOf(candidates, key) != []
    ensures var a := Aggregate(GroupOf(candidates, key));
            Fuses(candidates, a) && a.layer == key.layer && a.recordId == key.recordId
  {
    hide GroupOf, Aggregate, RecordPlaces;
    var places := GroupIsAtItsPlaces(candidates, key.layer, key.recordId);
    AggregateCarries(candidates, places, GroupOf(candidates, key));
    AggregateDescribesGroup(candidates, key);
  }

  lemma FusedHasAGroup(candidates: seq<Candidate>, a: Aggregated)
    requires Fuses(candidates, a)
    ensures GroupOf(candidates, Key(a.layer, a.recordId)) != []
  {
    hide GroupOf, Carries;
    var p :|
      && p != [] && RecordPlaces(candidates, a.layer, a.recordId, p) && InRange(candidates, p)
      && Carries(candidates, p, |p|, a);
    assert p[0] in p;
    var places := GroupIsAtItsPlaces(candidates, a.layer, a.recordId);
    assert p[0] in places;
  }

  // ---------------------------------------------------------------- what may be shown

  ghost predicate TextSupported(a: Aggregated) {
    "lexical" in a.laneIds || "metadata" in a.laneIds
  }

  ghost predicate OnlySemantic(a: Aggregated) {
    a.laneIds != [] && forall lane <- a.laneIds :: lane == "semantic"
  }

  ghost predicate Relevant(request: Request, a: Aggregated) {
    && (request.exactIdentifierQuery ==> TextSupported(a))
    && (OnlySemantic(a) ==> a.semanticQualified)
  }

  /** A candidate is admitted when it is relevant and eligible, and excluded for the first of these it is not. */
  lemma AdmittedExactlyWhen(request: Request, eligibility: Eligibility, a: Aggregated)
    ensures var verdict := Admission(request, eligibility, a);
            if Relevant(request, a) then verdict == eligibility(a)
            else
              && verdict.Some? && verdict.value.code == "low_relevance"
              && verdict.value.message
                 == (if request.exactIdentifierQuery && !TextSupported(a)
                     then "exact identifier queries require lexical or metadata support"
                     else "semantic-only candidate was not qualified by its backend")
  {
  }

  ghost predicate MayShow(request: Request, eligibility: Eligibility, candidates: seq<Candidate>, layer: Layer,
                          a: Aggregated)
  {
    Fuses(candidates, a) && a.layer == layer && Relevant(request, a) && eligibility(a).None?
  }

  lemma {:induction false} AdmittedAre(request: Request, eligibility: Eligibility, groups: seq<Aggregated>,
                                       layer: Layer)
    ensures forall a :: a in Admitted(request, eligibility, groups, layer) <==>
                        a in groups && a.layer == layer && Relevant(request, a) && eligibility(a).None?
  {
    hide Admission, Relevant;
    if groups != [] {
      var prefix, last := groups[..|groups| - 1], groups[|groups| - 1];
      AdmittedAre(request, eligibility, prefix, layer);
      AdmittedExactlyWhen(request, eligibility, last);
      assert groups == prefix + [last];
      assert forall a :: a in groups <==> a in prefix || a == last;
    }
  }

  /** The layer shows the best of what it may show, within its budget and each record once. */
  ghost predicate ShowsTheBest(request: Request, eligibility: Eligibility, candidates: seq<Candidate>,
                               budgets: map<Layer, nat>, le: (string, string) -> bool, layer: Layer,
                               shown: seq<Aggregated>)
  {
    var budget := if layer in budgets then budgets[layer] else 0;
    exists admitted: seq<Aggregated> ::
      && (forall a :: a in admitted <==> MayShow(request, eligibility, candidates, layer, a))
      && DistinctRecords(admitted) && DistinctRecords(shown)
      && BestFirst(le, admitted, budget, shown)
      && (if layer == Evidence then BestOfEachLineage(le, admitted, budget, shown)
          else BestOfAll(le, admitted, budget, shown))
  }

  lemma AdmittedMayShow(request: Request, eligibility: Eligibility, candidates: seq<Candidate>, layer: Layer)
    requires forall key :: key in KeysOf(candidates) ==> GroupOf(candidates, key) != []
    ensures var admitted := Admitted(request, eligibility, GroupsOf(candidates, KeysOf(candidates)), layer);
            && (forall a :: a in admitted <==> MayShow(request, eligibility, candidates, layer, a))
            && DistinctRecords(admitted)
  {
    var groups := GroupsOf(candidates, KeysOf(candidates));
    hide KeysOf, GroupOf, Admitted, Fuses, Relevant;
    GroupsAreFused(candidates);
    AdmittedAre(request, eligibility, groups, layer);
    GroupKeysAreDistinct(candidates);
    AdmittedRecordsAreDistinct(request, eligibility, groups, layer);
  }

  /** Every layer of a response shows the best of what it may show. */
  lemma ResponsesShowTheBest(request: Request, eligibility: Eligibility, candidates: seq<Candidate>,
                             budgets: map<Layer, nat>, le: (string, string) -> bool,
                             results: map<Layer, seq<Aggregated>>, layer: Layer)
    requires TotalPreorder(le)
    requires forall key :: key in KeysOf(candidates) ==> GroupOf(candidates, key) != []
    requires RankedLayers(request, eligibility, GroupsOf(candidates, KeysOf(candidates)), budgets, le, results)
    ensures layer in results && ShowsTheBest(request, eligibility, candidates, budgets, le, layer, results[layer])
  {
    hide KeysOf, GroupOf, LayerResult, Admitted, BestFirst, BestOfAll, BestOfEachLineage, MayShow, DistinctRecords,
         TotalPreorder;
    assert layer.Tactics? || layer.Invariants? || layer.Cases? || layer.Evidence?;
    var admitted := Admitted(request, eligibility, GroupsOf(candidates, KeysOf(candidates)), layer);
    AdmittedMayShow(request, eligibility, candidates, layer);
    LayerResultsAreRanked(le, admitted, layer, Budget(budgets, layer));
    FusedLayersHoldRecordsOnce(request, eligibility, candidates, budgets, le, results);
  }

  // ---------------------------------------------------------------- what is excluded

  ghost predicate IsRejected(request: Request, eligibility: Eligibility, a: Aggregated, code: string) {
    if Relevant(request, a) then eligibility(a).Some? && eligibility(a).value.code == code else code == "low_relevance"
  }

  /** The groups excluded under a code. */
  ghost function RejectedWith(request: Request, eligibility: Eligibility, groups: seq<Aggregated>, code: string)
      : set<nat>
  {
    set i: nat | i < |groups| && IsRejected(request, eligibility, groups[i], code)
  }

  lemma OneMoreRejected(request: Request, eligibility: Eligibility, groups: seq<Aggregated>, last: Aggregated,
                        code: string)
    ensures |RejectedWith(request, eligibility, groups + [last], code)|
         == |RejectedWith(request, eligibility, groups, code)|
            + if IsRejected(request, eligibility, last, code) then 1 else 0
  {
    hide IsRejected;
    var more := if IsRejected(request, eligibility, last, code) then {|groups|} else {};
    assert RejectedWith(request, eligibility, groups + [last], code)
        == RejectedWith(request, eligibility, groups, code) + more;
    assert RejectedWith(request, eligibility, groups, code) !! more;
  }

  lemma RejectionHasItsCode(request: Request, eligibility: Eligibility, a: Aggregated, code: string)
    ensures var verdict := Admission(request, eligibility, a);
            IsRejected(request, eligibility, a, code) <==> verdict.Some? && verdict.value.code == code
  {
    hide Admission, Relevant;
    AdmittedExactlyWhen(request, eligibility, a);
  }

  lemma CodesSnoc(exclusions: seq<Exclusion>, last: Exclusion, code: string)
    ensures multiset(CodesOf(exclusions + [last]))[code]
         == multiset(CodesOf(exclusions))[code] + if last.code == code then 1 else 0
  {
    assert (exclusions + [last])[..|exclusions|] == exclusions;
    assert CodesOf(exclusions + [last]) == CodesOf(exclusions) + [last.code];
  }

  /** Each code counts the records that were excluded under it. */
  lemma {:induction false} CodesCountTheRejected(request: Request, eligibility: Eligibility, groups: seq<Aggregated>,
                                                 code: string)
    ensures multiset(CodesOf(Excluded(request, eligibility, groups)))[code]
         == |RejectedWith(request, eligibility, groups, code)|
  {
    hide Admission, IsRejected, RejectedWith, CodesOf;
    if groups == [] {
      NothingRejected(request, eligibility, code);
    } else {
      var prefix, last := groups[..|groups| - 1], groups[|groups| - 1];
      CodesCountTheRejected(request, eligibility, prefix, code);
      OneMoreRejected(request, eligibility, prefix, last, code);
      RejectionHasItsCode(request, eligibility, last, code);
      if Admission(request, eligibility, last).Some? {
        CodesSnoc(Excluded(request, eligibility, prefix), Admission(request, eligibility, last).value, code);
      }
      assert groups == prefix + [last];
    }
  }

  lemma NothingRejected(request: Request, eligibility: Eligibility, code: string)
    ensures multiset(CodesOf([]))[code] == 0 && |RejectedWith(request, eligibility, [], code)| == 0
  {
    assert RejectedWith(request, eligibility, [], code) == {};
  }
}
