/**
 * One processing pass over the live promotion candidates: the latest eligible candidate of every
 * series leaves through exactly one exit, and no more than the cap are activated.
 */
module PromotionPass {
  import opened Common
  import opened LiveCandidates

  datatype Verdict = Unavailable | Retire | NarrowTo(entry: Entry) | Activate

  /**
   * Everything the pass asks of its surroundings. Answers may depend on the position in the pass,
   * because promotions made earlier change what a later candidate is compared with.
   */
  datatype Surroundings = Surroundings(
    judge: Option<(nat, Candidate) -> Verdict>,
    proposedId: Candidate -> string,
    alreadyActive: (nat, Candidate) -> bool,
    supported: (nat, Candidate) -> bool,
    activationReady: (nat, Candidate) -> bool,
    duplicate: (nat, Candidate) -> bool,
    promotes: (nat, Candidate) -> bool)

  datatype Reason = CapReached | FoundActive | Unsupported | NoVerdict | JudgedUnfit | NotReady | DuplicateOfActive
    | PromotionFailed | Promoted

  datatype Exit = Exit(reason: Reason, narrowedTo: Option<Entry>)

  datatype Bucket = ActivatedBucket | RetiredBucket | JudgeSkippedBucket | CapSkippedBucket | AlreadyActiveBucket

  function BucketOf(exit: Exit): Bucket {
    match exit.reason
    case Promoted => ActivatedBucket
    case FoundActive => AlreadyActiveBucket
    case CapReached => CapSkippedBucket
    case NoVerdict => JudgeSkippedBucket
    case Unsupported | JudgedUnfit | NotReady | DuplicateOfActive | PromotionFailed => RetiredBucket
  }

  datatype Summary = Summary(
    total: nat,
    activatedCount: nat, activated: seq<CandidateId>,
    retiredCount: nat, retired: seq<CandidateId>,
    judgeSkippedCount: nat, judgeSkipped: seq<CandidateId>,
    capSkippedCount: nat, capSkipped: seq<CandidateId>,
    alreadyActiveCount: nat, alreadyActive: seq<string>,
    narrowedCount: nat, narrowed: seq<CandidateId>,
    duplicateCount: nat, duplicates: seq<CandidateId>)

  predicate Eligible(c: Candidate) {
    c.status in {Staged, Narrowed, JudgeSkipped, CapSkipped}
  }

  // ----- the exits of a pass -----

  function WorkingCandidate(c: Candidate, narrowedTo: Option<Entry>, at: int): Candidate {
    if narrowedTo.Some? then NarrowedTo(c, narrowedTo.value, at) else c
  }

  function ExitOf(env: Surroundings, judge: (nat, Candidate) -> Verdict, cap: int, activated: nat, i: nat, c: Candidate,
                  at: int): Exit
  {
    if activated >= cap then Exit(CapReached, None)
    else if env.alreadyActive(i, c) then Exit(FoundActive, None)
    else if !env.supported(i, c) then Exit(Unsupported, None)
    else
      var verdict := judge(i, c);
      if verdict.Unavailable? then Exit(NoVerdict, None)
      else if verdict.Retire? then Exit(JudgedUnfit, None)
      else
        var narrowedTo := if verdict.NarrowTo? then Some(verdict.entry) else None;
        var working := WorkingCandidate(c, narrowedTo, at);
        Exit(if !env.activationReady(i, working) then NotReady
             else if env.duplicate(i, working) then DuplicateOfActive
             else if !env.promotes(i, working) then PromotionFailed
             else Promoted,
             narrowedTo)
  }

  function CountIn(exits: seq<Exit>, bucket: Bucket): nat {
    if exits == [] then 0
    else CountIn(exits[..|exits| - 1], bucket) + if BucketOf(exits[|exits| - 1]) == bucket then 1 else 0
  }

  function Exits(env: Surroundings, judge: (nat, Candidate) -> Verdict, cap: int, selected: seq<Candidate>, at: int)
      : (r: seq<Exit>)
    ensures |r| == |selected|
    decreases |selected|
  {
    if selected == [] then []
    else
      var n := |selected| - 1;
      var earlier := Exits(env, judge, cap, selected[..n], at);
      earlier + [ExitOf(env, judge, cap, CountIn(earlier, ActivatedBucket), n, selected[n], at)]
  }

  ghost function IdsIn(selected: seq<Candidate>, exits: seq<Exit>, bucket: Bucket): seq<CandidateId>
    requires |selected| == |exits|
  {
    if selected == [] then []
    else
      var n := |selected| - 1;
      var earlier := IdsIn(selected[..n], exits[..n], bucket);
      if BucketOf(exits[n]) == bucket then earlier + [selected[n].id] else earlier
  }

  ghost function ProposedIn(env: Surroundings, selected: seq<Candidate>, exits: seq<Exit>): seq<string>
    requires |selected| == |exits|
  {
    if selected == [] then []
    else
      var n := |selected| - 1;
      var earlier := ProposedIn(env, selected[..n], exits[..n]);
      if BucketOf(exits[n]) == AlreadyActiveBucket then earlier + [env.proposedId(selected[n])] else earlier
  }

  ghost function NarrowedIn(selected: seq<Candidate>, exits: seq<Exit>): seq<CandidateId>
    requires |selected| == |exits|
  {
    if selected == [] then []
    else
      var n := |selected| - 1;
      var earlier := NarrowedIn(selected[..n], exits[..n]);
      if exits[n].narrowedTo.Some? then earlier + [selected[n].id] else earlier
  }

  ghost function DuplicatesIn(selected: seq<Candidate>, exits: seq<Exit>): seq<CandidateId>
    requires |selected| == |exits|
  {
    if selected == [] then []
    else
      var n := |selected| - 1;
      var earlier := DuplicatesIn(selected[..n], exits[..n]);
      if exits[n].reason.DuplicateOfActive? then earlier + [selected[n].id] else earlier
  }

  /** The lists say which candidates left through each exit. */
  ghost predicate ListsExits(env: Surroundings, selected: seq<Candidate>, exits: seq<Exit>, s: Summary)
    requires |selected| == |exits|
  {
    && s.activated == IdsIn(selected, exits, ActivatedBucket)
    && s.retired == IdsIn(selected, exits, RetiredBucket)
    && s.judgeSkipped == IdsIn(selected, exits, JudgeSkippedBucket)
    && s.capSkipped == IdsIn(selected, exits, CapSkippedBucket)
    && s.alreadyActive == ProposedIn(env, selected, exits)
    && s.narrowed == NarrowedIn(selected, exits)
    && s.duplicates == DuplicatesIn(selected, exits)
  }

  ghost predicate CountsExits(exits: seq<Exit>, s: Summary) {
    && s.activatedCount == CountIn(exits, ActivatedBucket)
    && s.retiredCount == CountIn(exits, RetiredBucket)
    && s.judgeSkippedCount == CountIn(exits, JudgeSkippedBucket)
    && s.capSkippedCount == CountIn(exits, CapSkippedBucket)
    && s.alreadyActiveCount == CountIn(exits, AlreadyActiveBucket)
    && s.narrowedCount == |s.narrowed|
    && s.duplicateCount == |s.duplicates|
  }

  /** The summary says how many and which candidates left through each exit. */
  ghost predicate Summarizes(env: Surroundings, selected: seq<Candidate>, exits: seq<Exit>, total: nat, s: Summary) {
    |selected| == |exits| && s.total == total && ListsExits(env, selected, exits, s) && CountsExits(exits, s)
  }

  lemma {:induction false} ActivationsStayUnderTheCap(env: Surroundings, judge: (nat, Candidate) -> Verdict, cap: int,
                                                      selected: seq<Candidate>, at: int)
    ensures CountIn(Exits(env, judge, cap, selected, at), ActivatedBucket) <= if cap > 0 then cap else 0
    decreases |selected|
  {
    if selected != [] {
      var exits := Exits(env, judge, cap, selected, at);
      ActivationsStayUnderTheCap(env, judge, cap, selected[..|selected| - 1], at);
      assert exits[..|exits| - 1] == Exits(env, judge, cap, selected[..|selected| - 1], at);
    }
  }

  lemma {:induction false} BucketsPartition(exits: seq<Exit>)
    ensures CountIn(exits, ActivatedBucket) + CountIn(exits, RetiredBucket) + CountIn(exits, JudgeSkippedBucket)
            + CountIn(exits, CapSkippedBucket) + CountIn(exits, AlreadyActiveBucket) == |exits|
  {
    if exits != [] {
      BucketsPartition(exits[..|exits| - 1]);
    }
  }

  lemma {:induction false} CountsAreLengths(env: Surroundings, selected: seq<Candidate>, exits: seq<Exit>,
                                            bucket: Bucket)
    requires |selected| == |exits|
    ensures |IdsIn(selected, exits, bucket)| == CountIn(exits, bucket)
    ensures |ProposedIn(env, selected, exits)| == CountIn(exits, AlreadyActiveBucket)
  {
    if selected != [] {
      CountsAreLengths(env, selected[..|selected| - 1], exits[..|exits| - 1], bucket);
    }
  }

  lemma OverlayOfExit(env: Surroundings, judge: (nat, Candidate) -> Verdict, cap: int, activated: nat, i: nat,
                      c: Candidate, at: int)
    ensures var exit := ExitOf(env, judge, cap, activated, i, c, at);
            && (exit.narrowedTo.Some? ==> BucketOf(exit) in {ActivatedBucket, RetiredBucket})
            && (exit.reason.DuplicateOfActive? ==> BucketOf(exit) == RetiredBucket)
  {
  }

  /** Narrowing and duplication are overlays: those candidates are also activated or retired, or retired. */
  lemma {:induction false} OverlaysAreDecided(env: Surroundings, judge: (nat, Candidate) -> Verdict, cap: int,
                                              selected: seq<Candidate>, at: int)
    ensures var exits := Exits(env, judge, cap, selected, at);
            && |NarrowedIn(selected, exits)| <= CountIn(exits, RetiredBucket) + CountIn(exits, ActivatedBucket)
            && |DuplicatesIn(selected, exits)| <= CountIn(exits, RetiredBucket)
    decreases |selected|
  {
    hide ExitOf;
    if selected != [] {
      var n := |selected| - 1;
      var exits := Exits(env, judge, cap, selected, at);
      var earlier := Exits(env, judge, cap, selected[..n], at);
      OverlaysAreDecided(env, judge, cap, selected[..n], at);
      assert exits[..n] == earlier;
      OverlayOfExit(env, judge, cap, CountIn(earlier, ActivatedBucket), n, selected[n], at);
    }
  }

  /** An id is listed under a bucket exactly when its candidate left through it. */
  lemma {:induction false} ListedExactlyOnExit(selected: seq<Candidate>, exits: seq<Exit>, bucket: Bucket,
                                               id: CandidateId)
    requires |selected| == |exits|
    ensures id in IdsIn(selected, exits, bucket) <==>
            exists i :: 0 <= i < |selected| && selected[i].id == id && BucketOf(exits[i]) == bucket
  {
    if selected != [] {
      var n := |selected| - 1;
      ListedExactlyOnExit(selected[..n], exits[..n], bucket, id);
      if i :| 0 <= i < |selected| && selected[i].id == id && BucketOf(exits[i]) == bucket {
        if i < n {
          assert selected[..n][i].id == id && BucketOf(exits[..n][i]) == bucket;
        }
      }
    }
  }

  /** Distinct candidates are listed once, under one bucket only. */
  lemma ListedUnderOneBucket(selected: seq<Candidate>, exits: seq<Exit>, a: Bucket, b: Bucket, id: CandidateId)
    requires |selected| == |exits|
    requires forall i, j :: 0 <= i < j < |selected| ==> selected[i].id != selected[j].id
    requires id in IdsIn(selected, exits, a) && id in IdsIn(selected, exits, b)
    ensures a == b
  {
    ListedExactlyOnExit(selected, exits, a, id);
    ListedExactlyOnExit(selected, exits, b, id);
  }

  // ----- what the pass writes -----

  ghost function StatusFor(exit: Exit): Status {
    match BucketOf(exit)
    case ActivatedBucket => Activated
    case AlreadyActiveBucket => Activated
    case RetiredBucket => Retired
    case JudgeSkippedBucket => JudgeSkipped
    case CapSkippedBucket => CapSkipped
  }

  ghost function Recorded(c: Candidate, exit: Exit, at: int): Candidate {
    Decided(WorkingCandidate(c, exit.narrowedTo, at), StatusFor(exit), at)
  }

  ghost function AfterPass(files: Files, selected: seq<Candidate>, exits: seq<Exit>, at: int): Files
    requires |selected| == |exits|
    decreases |selected|
  {
    if selected == [] then files
    else
      var n := |selected| - 1;
      AfterPass(files, selected[..n], exits[..n], at)[selected[n].id := Recorded(selected[n], exits[n], at)]
  }

  /** Nothing final was decided yet. */
  ghost predicate Undecided(c: Candidate) {
    c.status == Staged || c.status == Narrowed || c.status == JudgeSkipped || c.status == CapSkipped
  }

  /** One candidate per series: the latest, provided it is still open for a decision. */
  ghost predicate IsSelection(le: (CandidateId, CandidateId) -> bool, files: Files, selected: seq<Candidate>) {
    && (forall i :: 0 <= i < |selected| ==>
          && selected[i].id in files && files[selected[i].id] == selected[i]
          && IsLatest(le, files, SeriesOf(selected[i]), selected[i].id)
          && Undecided(selected[i]))
    && (forall i, j :: 0 <= i < j < |selected| ==> SeriesOf(selected[i]) != SeriesOf(selected[j]))
    && (forall id :: id in files && IsLatest(le, files, SeriesOf(files[id]), id) && Undecided(files[id]) ==>
          files[id] in selected)
  }

  lemma {:induction false} SelectedIsWritten(files: Files, selected: seq<Candidate>, exits: seq<Exit>, at: int, i: nat)
    requires |selected| == |exits| && i < |selected|
    requires forall i, j :: 0 <= i < j < |selected| ==> selected[i].id != selected[j].id
    ensures selected[i].id in AfterPass(files, selected, exits, at)
    ensures AfterPass(files, selected, exits, at)[selected[i].id] == Recorded(selected[i], exits[i], at)
    decreases |selected|
  {
    hide Recorded;
    var n := |selected| - 1;
    if i < n {
      SelectedIsWritten(files, selected[..n], exits[..n], at, i);
      assert selected[i].id != selected[n].id;
    }
  }

  lemma {:induction false} OthersAreKept(files: Files, selected: seq<Candidate>, exits: seq<Exit>, at: int,
                                         id: CandidateId)
    requires |selected| == |exits|
    requires forall i :: 0 <= i < |selected| ==> selected[i].id != id
    ensures var after := AfterPass(files, selected, exits, at);
            (id in after <==> id in files) && (id in after ==> after[id] == files[id])
    decreases |selected|
  {
    hide Recorded;
    if selected != [] {
      OthersAreKept(files, selected[..|selected| - 1], exits[..|selected| - 1], at, id);
    }
  }

  lemma SelectionHasDistinctIds(le: (CandidateId, CandidateId) -> bool, files: Files, selected: seq<Candidate>)
    requires IsSelection(le, files, selected)
    ensures forall i, j :: 0 <= i < j < |selected| ==> selected[i].id != selected[j].id
  {
    forall i, j | 0 <= i < j < |selected|
      ensures selected[i].id != selected[j].id
    {
      assert SeriesOf(selected[i]) != SeriesOf(selected[j]);
    }
  }

  /** A pass leaves a well-linked store, and only ever activates the latest revision of a series. */
  lemma PassActivatesOnlyLatest(le: (CandidateId, CandidateId) -> bool, files: Files, selected: seq<Candidate>,
                                exits: seq<Exit>, at: int, id: CandidateId)
    requires |selected| == |exits| && IsSelection(le, files, selected)
    requires var after := AfterPass(files, selected, exits, at); id in after && after[id].status == Activated
    ensures id in files
    ensures files[id].status == Activated || IsLatest(le, files, SeriesOf(files[id]), id)
  {
    SelectionHasDistinctIds(le, files, selected);
    if i :| 0 <= i < |selected| && selected[i].id == id {
      SelectedIsWritten(files, selected, exits, at, i);
    } else {
      OthersAreKept(files, selected, exits, at, id);
    }
  }

  ghost predicate LatestEach(le: (CandidateId, CandidateId) -> bool, files: Files, selected: seq<Candidate>) {
    && (forall i :: 0 <= i < |selected| ==>
          && selected[i].id in files && files[selected[i].id] == selected[i]
          && IsLatest(le, files, SeriesOf(selected[i]), selected[i].id))
    && (forall i, j :: 0 <= i < j < |selected| ==> SeriesOf(selected[i]) != SeriesOf(selected[j]))
  }

  /** The stores agree on every series that has no selected candidate. */
  ghost predicate OnlySelectedSeries(files: Files, after: Files, selected: seq<Candidate>) {
    && after.Keys == files.Keys
    && (forall id :: id in files ==> SeriesOf(after[id]) == SeriesOf(files[id]))
    && (forall id :: id in files && (forall c <- selected :: SeriesOf(c) != SeriesOf(files[id])) ==>
          after[id] == files[id])
  }

  lemma PassStepKeepsInv(le: (CandidateId, CandidateId) -> bool, files: Files, before: Files, init: seq<Candidate>,
                         last: Candidate, exit: Exit, at: int)
    requires TotalOrder(le) && StoreInv(files) && StoreInv(before) && OnlySelectedSeries(files, before, init)
    requires last.id in files && files[last.id] == last && IsLatest(le, files, SeriesOf(last), last.id)
    requires forall c <- init :: SeriesOf(c) != SeriesOf(last)
    ensures StoreInv(before[last.id := Recorded(last, exit, at)])
    ensures OnlySelectedSeries(files, before[last.id := Recorded(last, exit, at)], init + [last])
  {
    SeriesIsBase(files, last.id);
    LatestHasTopRevision(le, files, SeriesOf(last), last.id);
    HashIsRecorded(files, last.id);
    hide StoreInv, IsLatest;
    TopElsewhere(files, before, init, last);
    ReplaceKeepsInv(before, Recorded(last, exit, at));
    SeriesStaySelected(files, before, init, last, Recorded(last, exit, at));
  }

  lemma HashIsRecorded(files: Files, id: CandidateId)
    requires StoreInv(files) && id in files
    ensures files[id].hash.Some? && files[id].id == id
  {
  }

  lemma TopElsewhere(files: Files, before: Files, init: seq<Candidate>, last: Candidate)
    requires OnlySelectedSeries(files, before, init) && TopsSeries(files, last.id) && files[last.id] == last
    requires forall c <- init :: SeriesOf(c) != SeriesOf(last)
    ensures TopsSeries(before, last.id) && before[last.id] == last
  {
  }

  lemma SeriesStaySelected(files: Files, before: Files, init: seq<Candidate>, last: Candidate, next: Candidate)
    requires OnlySelectedSeries(files, before, init) && last.id in files && files[last.id] == last
    requires next.id == last.id && SeriesOf(next) == SeriesOf(last)
    ensures OnlySelectedSeries(files, before[last.id := next], init + [last])
  {
    assert last in init + [last];
    assert forall c <- init :: c in init + [last];
  }

  /** A pass leaves a well-linked store. */
  lemma {:induction false} PassKeepsInv(le: (CandidateId, CandidateId) -> bool, files: Files, selected: seq<Candidate>,
                                        exits: seq<Exit>, at: int)
    requires TotalOrder(le) && StoreInv(files) && |selected| == |exits| && LatestEach(le, files, selected)
    ensures StoreInv(AfterPass(files, selected, exits, at))
    ensures OnlySelectedSeries(files, AfterPass(files, selected, exits, at), selected)
    decreases |selected|
  {
    hide StoreInv, OnlySelectedSeries, IsLatest, LatestEach, Recorded, TotalOrder;
    if selected == [] {
      NothingSelected(files);
    } else {
      var n := |selected| - 1;
      var init, last := selected[..n], selected[n];
      assert selected == init + [last];
      LatestEachInit(le, files, init, last);
      PassKeepsInv(le, files, init, exits[..n], at);
      PassStepKeepsInv(le, files, AfterPass(files, init, exits[..n], at), init, last, exits[n], at);
    }
  }

  lemma NothingSelected(files: Files)
    ensures OnlySelectedSeries(files, files, [])
  {
  }

  lemma LatestEachInit(le: (CandidateId, CandidateId) -> bool, files: Files, init: seq<Candidate>, last: Candidate)
    requires LatestEach(le, files, init + [last])
    ensures LatestEach(le, files, init)
    ensures last.id in files && files[last.id] == last && IsLatest(le, files, SeriesOf(last), last.id)
    ensures forall c <- init :: SeriesOf(c) != SeriesOf(last)
  {
    hide IsLatest;
    var selected := init + [last];
    assert selected[|init|] == last;
    forall i, j | 0 <= i < j < |init|
      ensures SeriesOf(init[i]) != SeriesOf(init[j])
    {
      assert SeriesOf(selected[i]) != SeriesOf(selected[j]);
    }
    forall i | 0 <= i < |init|
      ensures init[i].id in files && files[init[i].id] == init[i]
      ensures IsLatest(le, files, SeriesOf(init[i]), init[i].id) && SeriesOf(init[i]) != SeriesOf(last)
    {
      assert selected[i] == init[i] && SeriesOf(selected[i]) != SeriesOf(selected[|init|]);
    }
  }

  // ----- selecting -----

  predicate StrictlyAfter(le: (CandidateId, CandidateId) -> bool, a: Candidate, b: Candidate) {
    || a.revision > b.revision
    || (a.revision == b.revision && a.lastSeenAt > b.lastSeenAt)
    || (a.revision == b.revision && a.lastSeenAt == b.lastSeenAt && !le(a.id, b.id))
  }

  ghost predicate LatestOfPrefix(le: (CandidateId, CandidateId) -> bool, seen: seq<Candidate>, order: seq<CandidateId>,
                                 latest: map<CandidateId, Candidate>)
  {
    && latest.Keys == (set x | x in order)
    && (forall i, j :: 0 <= i < j < |order| ==> order[i] != order[j])
    && (forall c <- seen :: SeriesOf(c) in latest && NotAfter(le, c, latest[SeriesOf(c)]))
    && (forall series <- order :: series in latest && latest[series] in seen && SeriesOf(latest[series]) == series)
  }

  /** One candidate per series of the list, in the order the series first appear. */
  method SelectLatestCandidatesBySeries(le: (CandidateId, CandidateId) -> bool, candidates: seq<Candidate>)
      returns (selected: seq<Candidate>)
    requires TotalOrder(le)
    ensures AreTops(le, candidates, selected)
  {
    hide NotAfter, StrictlyAfter;
    var order: seq<CandidateId> := [];
    var latest: map<CandidateId, Candidate> := map[];
    for i := 0 to |candidates|
      invariant LatestOfPrefix(le, candidates[..i], order, latest)
    {
      assert candidates[..i + 1] == candidates[..i] + [candidates[i]];
      var c := candidates[i];
      ghost var oldOrder, oldLatest := order, latest;
      var series := SeriesOf(c);
      if series !in latest {
        order := order + [series];
        latest := latest[series := c];
        NewSeries(le, candidates[..i], oldOrder, oldLatest, c);
      } else {
        if StrictlyAfter(le, c, latest[series]) {
          latest := latest[series := c];
        }
        KnownSeries(le, candidates[..i], order, oldLatest, c);
      }
    }
    assert candidates[..|candidates|] == candidates;
    selected := [];
    for k := 0 to |order|
      invariant |selected| == k
      invariant forall a :: 0 <= a < k ==> selected[a] == latest[order[a]]
    {
      selected := selected + [latest[order[k]]];
    }
    TopsOfPrefix(le, candidates, order, latest, selected);
  }

  lemma TopsOfPrefix(le: (CandidateId, CandidateId) -> bool, seen: seq<Candidate>, order: seq<CandidateId>,
                     latest: map<CandidateId, Candidate>, tops: seq<Candidate>)
    requires LatestOfPrefix(le, seen, order, latest)
    requires |tops| == |order| && forall a :: 0 <= a < |order| ==> order[a] in latest && tops[a] == latest[order[a]]
    ensures AreTops(le, seen, tops)
  {
    forall a | 0 <= a < |tops|
      ensures SeriesOf(tops[a]) == order[a] && tops[a] in seen
    {
      assert order[a] in order;
    }
    forall c | c in seen
      ensures IsTopped(le, c, tops)
    {
      var k :| 0 <= k < |order| && order[k] == SeriesOf(c);
      assert tops[k] in tops;
    }
  }

  ghost predicate IsTopped(le: (CandidateId, CandidateId) -> bool, c: Candidate, tops: seq<Candidate>) {
    exists top <- tops :: SeriesOf(top) == SeriesOf(c) && NotAfter(le, c, top)
  }

  /** Listed candidates, one per series, each at least as recent as every listed candidate of its series. */
  ghost predicate AreTops(le: (CandidateId, CandidateId) -> bool, list: seq<Candidate>, tops: seq<Candidate>) {
    && (forall c <- tops :: c in list)
    && (forall i, j :: 0 <= i < j < |tops| ==> SeriesOf(tops[i]) != SeriesOf(tops[j]))
    && (forall c <- list :: IsTopped(le, c, tops))
  }

  lemma NewSeries(le: (CandidateId, CandidateId) -> bool, seen: seq<Candidate>, order: seq<CandidateId>,
                  latest: map<CandidateId, Candidate>, c: Candidate)
    requires TotalOrder(le) && LatestOfPrefix(le, seen, order, latest) && SeriesOf(c) !in latest
    ensures LatestOfPrefix(le, seen + [c], order + [SeriesOf(c)], latest[SeriesOf(c) := c])
  {
    assert le(c.id, c.id);
  }

  lemma KnownSeries(le: (CandidateId, CandidateId) -> bool, seen: seq<Candidate>, order: seq<CandidateId>,
                    latest: map<CandidateId, Candidate>, c: Candidate)
    requires TotalOrder(le) && LatestOfPrefix(le, seen, order, latest) && SeriesOf(c) in latest
    ensures LatestOfPrefix(le, seen + [c], order,
                           if StrictlyAfter(le, c, latest[SeriesOf(c)]) then latest[SeriesOf(c) := c] else latest)
  {
    var top := latest[SeriesOf(c)];
    assert le(c.id, top.id) || le(top.id, c.id);
    assert le(c.id, c.id);
    if StrictlyAfter(le, c, top) {
      forall s | s in seen && SeriesOf(s) == SeriesOf(c)
        ensures NotAfter(le, s, c)
      {
        assert NotAfter(le, s, top) && NotAfter(le, top, c);
      }
    }
  }

  lemma SelectedAreLatest(le: (CandidateId, CandidateId) -> bool, files: Files, list: seq<Candidate>,
                          tops: seq<Candidate>)
    requires TotalOrder(le) && StoreInv(files) && Lists(files, list)
    requires AreTops(le, list, tops)
    ensures LatestEach(le, files, tops)
    ensures forall id :: id in files && IsLatest(le, files, SeriesOf(files[id]), id) ==> files[id] in tops
  {
    forall i | 0 <= i < |tops|
      ensures tops[i].id in files && files[tops[i].id] == tops[i] && IsLatest(le, files, SeriesOf(tops[i]), tops[i].id)
    {
      assert tops[i] in tops;
      var c := tops[i];
      SeriesIsBase(files, c.id);
      forall other | other in files && InSeries(files[other], SeriesOf(c))
        ensures NotAfter(le, files[other], c)
      {
        SeriesMembership(files, other, SeriesOf(c));
        assert IsTopped(le, files[other], tops);
        var top :| top in tops && SeriesOf(top) == SeriesOf(files[other]) && NotAfter(le, files[other], top);
        var j :| 0 <= j < |tops| && tops[j] == top;
        assert i == j;
      }
    }
    forall id | id in files && IsLatest(le, files, SeriesOf(files[id]), id)
      ensures files[id] in tops
    {
      assert IsTopped(le, files[id], tops);
      var top :| top in tops && SeriesOf(top) == SeriesOf(files[id]) && NotAfter(le, files[id], top);
      SeriesIsBase(files, id);
      assert InSeries(files[top.id], SeriesOf(files[id]));
      assert NotAfter(le, top, files[id]);
    }
  }

  method FilterEligible(le: (CandidateId, CandidateId) -> bool, ghost files: Files, tops: seq<Candidate>)
      returns (selected: seq<Candidate>)
    requires LatestEach(le, files, tops)
    requires forall id :: id in files && IsLatest(le, files, SeriesOf(files[id]), id) ==> files[id] in tops
    ensures IsSelection(le, files, selected) && LatestEach(le, files, selected)
  {
    hide IsLatest, Eligible, Undecided;
    selected := [];
    for i := 0 to |tops|
      invariant forall c :: c in selected <==> c in tops[..i] && Eligible(c)
      invariant forall a, b :: 0 <= a < b < |selected| ==> SeriesOf(selected[a]) != SeriesOf(selected[b])
    {
      assert tops[..i + 1] == tops[..i] + [tops[i]];
      if Eligible(tops[i]) {
        forall a | 0 <= a < |selected|
          ensures SeriesOf(selected[a]) != SeriesOf(tops[i])
        {
          assert selected[a] in selected;
          var k :| 0 <= k < i && tops[..i][k] == selected[a];
          assert SeriesOf(tops[k]) != SeriesOf(tops[i]);
        }
        selected := selected + [tops[i]];
      }
    }
    assert tops[..|tops|] == tops;
    forall c: Candidate
      ensures Eligible(c) <==> Undecided(c)
    {
      EligibleIsUndecided(c);
    }
    EligibleTopsAreTheSelection(le, files, tops, selected);
  }

  lemma EligibleIsUndecided(c: Candidate)
    ensures Eligible(c) <==> Undecided(c)
  {
  }

  lemma EligibleTopsAreTheSelection(le: (CandidateId, CandidateId) -> bool, files: Files, tops: seq<Candidate>,
                                    selected: seq<Candidate>)
    requires LatestEach(le, files, tops)
    requires forall id :: id in files && IsLatest(le, files, SeriesOf(files[id]), id) ==> files[id] in tops
    requires forall c :: c in selected <==> c in tops && Undecided(c)
    requires forall a, b :: 0 <= a < b < |selected| ==> SeriesOf(selected[a]) != SeriesOf(selected[b])
    ensures IsSelection(le, files, selected) && LatestEach(le, files, selected)
  {
    hide IsLatest, Undecided;
    forall a | 0 <= a < |selected|
      ensures selected[a] in tops && Undecided(selected[a])
    {
      assert selected[a] in selected;
    }
  }

  // ----- the pass -----

  const EMPTY_SUMMARY := Summary(0, 0, [], 0, [], 0, [], 0, [], 0, [], 0, [], 0, [])

  function WithoutJudge(selected: seq<Candidate>): seq<Exit> {
    seq(|selected|, i => Exit(NoVerdict, None))
  }

  function ExitsOf(env: Surroundings, cap: int, selected: seq<Candidate>, at: int): (r: seq<Exit>)
    ensures |r| == |selected|
  {
    if env.judge.None? then WithoutJudge(selected) else Exits(env, env.judge.value, cap, selected, at)
  }

  /** Nothing is written on a dry run, or when there is no judge at all. */
  ghost function FilesAfter(env: Surroundings, cap: int, files: Files, selected: seq<Candidate>, at: int, dryRun: bool)
      : Files
  {
    if dryRun || env.judge.None? then files else AfterPass(files, selected, ExitsOf(env, cap, selected, at), at)
  }

  /** The summary after one more candidate left through an exit. */
  ghost function Tallied(env: Surroundings, s: Summary, c: Candidate, exit: Exit): Summary {
    var narrowed := if exit.narrowedTo.Some? then
      s.(narrowedCount := s.narrowedCount + 1, narrowed := s.narrowed + [c.id])
                    else s;
    var overlaid :=
      if exit.reason.DuplicateOfActive?
      then narrowed.(duplicateCount := narrowed.duplicateCount + 1, duplicates := narrowed.duplicates + [c.id])
      else narrowed;
    match BucketOf(exit)
    case ActivatedBucket => overlaid.(activatedCount := s.activatedCount + 1, activated := s.activated + [c.id])
    case RetiredBucket => overlaid.(retiredCount := s.retiredCount + 1, retired := s.retired + [c.id])
    case JudgeSkippedBucket => overlaid.(judgeSkippedCount := s.judgeSkippedCount + 1,
                                         judgeSkipped := s.judgeSkipped + [c.id])
    case CapSkippedBucket => overlaid.(capSkippedCount := s.capSkippedCount + 1, capSkipped := s.capSkipped + [c.id])
    case AlreadyActiveBucket => overlaid.(alreadyActiveCount := s.alreadyActiveCount + 1,
                                          alreadyActive := s.alreadyActive + [env.proposedId(c)])
  }

  lemma TallyExtends(env: Surroundings, selected: seq<Candidate>, exits: seq<Exit>, total: nat, s: Summary,
                     c: Candidate, exit: Exit)
    requires Summarizes(env, selected, exits, total, s)
    ensures Summarizes(env, selected + [c], exits + [exit], total, Tallied(env, s, c, exit))
  {
    TallyExtendsLists(env, selected, exits, s, c, exit);
    TallyExtendsCounts(env, exits, s, c, exit);
    hide ListsExits, CountsExits;
  }

  lemma TallyExtendsCounts(env: Surroundings, exits: seq<Exit>, s: Summary, c: Candidate, exit: Exit)
    requires CountsExits(exits, s)
    ensures CountsExits(exits + [exit], Tallied(env, s, c, exit))
  {
    CountSnoc(exits, exit, ActivatedBucket);
    CountSnoc(exits, exit, RetiredBucket);
    CountSnoc(exits, exit, JudgeSkippedBucket);
    CountSnoc(exits, exit, CapSkippedBucket);
    CountSnoc(exits, exit, AlreadyActiveBucket);
    hide CountIn;
  }

  lemma TallyExtendsLists(env: Surroundings, selected: seq<Candidate>, exits: seq<Exit>, s: Summary, c: Candidate,
                          exit: Exit)
    requires |selected| == |exits| && ListsExits(env, selected, exits, s)
    ensures ListsExits(env, selected + [c], exits + [exit], Tallied(env, s, c, exit))
  {
    IdsInSnoc(selected, exits, c, exit, ActivatedBucket);
    IdsInSnoc(selected, exits, c, exit, RetiredBucket);
    IdsInSnoc(selected, exits, c, exit, JudgeSkippedBucket);
    IdsInSnoc(selected, exits, c, exit, CapSkippedBucket);
    OverlaySnoc(env, selected, exits, c, exit);
    hide IdsIn, ProposedIn, NarrowedIn, DuplicatesIn;
  }

  lemma CountSnoc(exits: seq<Exit>, exit: Exit, bucket: Bucket)
    ensures CountIn(exits + [exit], bucket) == CountIn(exits, bucket) + if BucketOf(exit) == bucket then 1 else 0
  {
    assert (exits + [exit])[..|exits|] == exits;
  }

  lemma IdsInSnoc(selected: seq<Candidate>, exits: seq<Exit>, c: Candidate, exit: Exit, bucket: Bucket)
    requires |selected| == |exits|
    ensures IdsIn(selected + [c], exits + [exit], bucket)
         == if BucketOf(exit) == bucket then IdsIn(selected, exits, bucket) + [c.id] else IdsIn(selected, exits, bucket)
  {
    assert (selected + [c])[..|selected|] == selected;
    assert (exits + [exit])[..|exits|] == exits;
  }

  lemma OverlaySnoc(env: Surroundings, selected: seq<Candidate>, exits: seq<Exit>, c: Candidate, exit: Exit)
    requires |selected| == |exits|
    ensures ProposedIn(env, selected + [c], exits + [exit])
         == if BucketOf(exit).AlreadyActiveBucket? then ProposedIn(env, selected, exits) + [env.proposedId(c)]
            else ProposedIn(env, selected, exits)
    ensures NarrowedIn(selected + [c], exits + [exit])
         == if exit.narrowedTo.Some? then NarrowedIn(selected, exits) + [c.id] else NarrowedIn(selected, exits)
    ensures DuplicatesIn(selected + [c], exits + [exit])
         == if exit.reason.DuplicateOfActive? then DuplicatesIn(selected, exits) + [c.id]
            else DuplicatesIn(selected, exits)
  {
    assert (selected + [c])[..|selected|] == selected;
    assert (exits + [exit])[..|exits|] == exits;
  }

  lemma {:induction false} EveryoneSkipped(env: Surroundings, selected: seq<Candidate>, ids: seq<CandidateId>)
    requires |ids| == |selected| && forall i :: 0 <= i < |ids| ==> ids[i] == selected[i].id
    ensures Summarizes(env, selected, WithoutJudge(selected), |selected|,
                       EMPTY_SUMMARY.(total := |selected|, judgeSkippedCount := |selected|, judgeSkipped := ids))
    decreases |selected|
  {
    if selected != [] {
      var n := |selected| - 1;
      hide Summarizes;
      EveryoneSkipped(env, selected[..n], ids[..n]);
      assert WithoutJudge(selected) == WithoutJudge(selected[..n]) + [Exit(NoVerdict, None)];
      assert selected == selected[..n] + [selected[n]];
      assert ids == ids[..n] + [ids[n]];
      TotalIsFree(env, selected[..n], WithoutJudge(selected[..n]), n, |selected|,
                  EMPTY_SUMMARY.(total := n, judgeSkippedCount := n, judgeSkipped := ids[..n]));
      TallyExtends(env, selected[..n], WithoutJudge(selected[..n]), |selected|,
                   EMPTY_SUMMARY.(total := |selected|, judgeSkippedCount := n, judgeSkipped := ids[..n]), selected[n],
                   Exit(NoVerdict, None));
    }
  }

  lemma TotalIsFree(env: Surroundings, selected: seq<Candidate>, exits: seq<Exit>, a: nat, b: nat, s: Summary)
    requires Summarizes(env, selected, exits, a, s)
    ensures Summarizes(env, selected, exits, b, s.(total := b))
  {
  }

  // ----- what a candidate's way out means -----

  /** The candidate as the judge left it: narrowed under its id, one revision on, or as it was. */
  ghost function JudgedForm(c: Candidate, verdict: Verdict, at: int): Candidate {
    match verdict
    case NarrowTo(entry) =>
      c.(entry := entry, revision := c.revision + 1, status := Narrowed, lastSeenAt := at,
         history := c.history + [Decision(Narrowed, at)])
    case _ => c
  }

  /** The checks before the judge leave the candidate in. */
  ghost predicate ReachesJudge(env: Surroundings, cap: int, activated: nat, i: nat, c: Candidate) {
    activated < cap && !env.alreadyActive(i, c) && env.supported(i, c)
  }

  /** The judge would activate it, as it is or narrowed. */
  ghost predicate JudgedFit(env: Surroundings, judge: (nat, Candidate) -> Verdict, cap: int, activated: nat, i: nat,
                            c: Candidate)
  {
    ReachesJudge(env, cap, activated, i, c) && (judge(i, c) == Activate || judge(i, c).NarrowTo?)
  }

  /** It passes every check after the judge, and is promoted. */
  ghost predicate IsPromoted(env: Surroundings, judge: (nat, Candidate) -> Verdict, cap: int, activated: nat, i: nat,
                             c: Candidate, at: int)
  {
    var working := JudgedForm(c, judge(i, c), at);
    && JudgedFit(env, judge, cap, activated, i, c)
    && env.activationReady(i, working) && !env.duplicate(i, working) && env.promotes(i, working)
  }

  ghost predicate IsDuplicate(env: Surroundings, judge: (nat, Candidate) -> Verdict, cap: int, activated: nat, i: nat,
                              c: Candidate, at: int)
  {
    var working := JudgedForm(c, judge(i, c), at);
    && JudgedFit(env, judge, cap, activated, i, c)
    && env.activationReady(i, working) && env.duplicate(i, working)
  }

  ghost predicate IsRetired(env: Surroundings, judge: (nat, Candidate) -> Verdict, cap: int, activated: nat, i: nat,
                            c: Candidate, at: int)
  {
    && activated < cap && !env.alreadyActive(i, c)
    && (|| !env.supported(i, c)
        || judge(i, c) == Retire
        || (judge(i, c) != Unavailable && !IsPromoted(env, judge, cap, activated, i, c, at)))
  }

  /** The status a candidate leaves with. */
  ghost predicate LeavesWith(env: Surroundings, judge: (nat, Candidate) -> Verdict, cap: int, activated: nat, i: nat,
                             c: Candidate, at: int, status: Status)
  {
    match status
    case CapSkipped => activated >= cap
    case Activated =>
      || (activated < cap && env.alreadyActive(i, c))
      || IsPromoted(env, judge, cap, activated, i, c, at)
    case JudgeSkipped => ReachesJudge(env, cap, activated, i, c) && judge(i, c) == Unavailable
    case Retired => IsRetired(env, judge, cap, activated, i, c, at)
    case Staged => false
    case Narrowed => false
  }

  /** The stored candidate: its last decision, and before it the narrowing if the judge narrowed it. */
  ghost predicate StoredAs(env: Surroundings, judge: (nat, Candidate) -> Verdict, cap: int, activated: nat, i: nat,
                           c: Candidate, at: int, stored: Candidate)
  {
    var form := if JudgedFit(env, judge, cap, activated, i, c) then JudgedForm(c, judge(i, c), at) else c;
    && LeavesWith(env, judge, cap, activated, i, c, at, stored.status)
    && stored.history == form.history + [Decision(stored.status, at)] && stored.lastSeenAt == at
    && stored.entry == form.entry && stored.revision == form.revision
    && stored.id == c.id && stored.series == c.series && stored.supersedes == c.supersedes
    && stored.basis == c.basis && stored.signals == c.signals && stored.hash == c.hash
  }

  ghost predicate Appends<T>(wanted: bool, count: nat, list: seq<T>, x: T, count': nat, list': seq<T>) {
    if wanted then count' == count + 1 && list' == list + [x] else count' == count && list' == list
  }

  /** The summary gains the candidate under the ways it left, and under no other. */
  ghost predicate Tallies(env: Surroundings, judge: (nat, Candidate) -> Verdict, cap: int, i: nat, c: Candidate,
                          at: int, before: Summary, after: Summary)
  {
    var activated := before.activatedCount;
    && after.total == before.total
    && Appends(IsPromoted(env, judge, cap, activated, i, c, at), before.activatedCount, before.activated, c.id,
               after.activatedCount, after.activated)
    && Appends(IsRetired(env, judge, cap, activated, i, c, at), before.retiredCount, before.retired, c.id,
               after.retiredCount, after.retired)
    && Appends(LeavesWith(env, judge, cap, activated, i, c, at, JudgeSkipped), before.judgeSkippedCount,
               before.judgeSkipped, c.id, after.judgeSkippedCount, after.judgeSkipped)
    && Appends(activated >= cap, before.capSkippedCount, before.capSkipped, c.id, after.capSkippedCount,
               after.capSkipped)
    && Appends(activated < cap && env.alreadyActive(i, c), before.alreadyActiveCount, before.alreadyActive,
               env.proposedId(c), after.alreadyActiveCount, after.alreadyActive)
    && Appends(JudgedFit(env, judge, cap, activated, i, c) && judge(i, c).NarrowTo?, before.narrowedCount,
               before.narrowed, c.id, after.narrowedCount, after.narrowed)
    && Appends(IsDuplicate(env, judge, cap, activated, i, c, at), before.duplicateCount, before.duplicates, c.id,
               after.duplicateCount, after.duplicates)
  }

  lemma RecordedIsStored(env: Surroundings, judge: (nat, Candidate) -> Verdict, cap: int, activated: nat, i: nat,
                         c: Candidate, at: int)
    ensures StoredAs(env, judge, cap, activated, i, c, at,
                     Recorded(c, ExitOf(env, judge, cap, activated, i, c, at), at))
  {
  }

  /** Why a candidate leaves, in terms of the checks it met. */
  lemma ExitExactlyWhen(env: Surroundings, judge: (nat, Candidate) -> Verdict, cap: int, activated: nat, i: nat,
                        c: Candidate, at: int)
    ensures var exit := ExitOf(env, judge, cap, activated, i, c, at);
            && (exit.reason == CapReached <==> activated >= cap)
            && (exit.reason == FoundActive <==> activated < cap && env.alreadyActive(i, c))
            && (exit.reason == NoVerdict <==> ReachesJudge(env, cap, activated, i, c) && judge(i, c) == Unavailable)
            && (exit.reason == DuplicateOfActive <==> IsDuplicate(env, judge, cap, activated, i, c, at))
            && (exit.reason == Promoted <==> IsPromoted(env, judge, cap, activated, i, c, at))
            && (exit.reason in {Unsupported, JudgedUnfit, NotReady, DuplicateOfActive, PromotionFailed} <==>
                  IsRetired(env, judge, cap, activated, i, c, at))
            && (exit.narrowedTo.Some? <==> JudgedFit(env, judge, cap, activated, i, c) && judge(i, c).NarrowTo?)
  {
  }

  lemma TalliedTallies(env: Surroundings, judge: (nat, Candidate) -> Verdict, cap: int, i: nat, c: Candidate,
                       at: int, before: Summary)
    ensures Tallies(env, judge, cap, i, c, at, before,
                    Tallied(env, before, c, ExitOf(env, judge, cap, before.activatedCount, i, c, at)))
  {
    hide ExitOf, IsDuplicate, IsPromoted, IsRetired, JudgedFit;
    ExitExactlyWhen(env, judge, cap, before.activatedCount, i, c, at);
  }

  // ----- what a whole pass means -----

  /** How many of the first n selected candidates were activated by the pass. */
  ghost function ActivatedBefore(selected: seq<Candidate>, s: Summary, n: nat): nat
    requires n <= |selected|
  {
    |set k: nat | k < n && selected[k].id in s.activated|
  }

  /** The candidate is listed exactly under the ways it left. */
  ghost predicate ListsOne(env: Surroundings, judge: (nat, Candidate) -> Verdict, cap: int, activated: nat, i: nat,
                           c: Candidate, at: int, s: Summary)
  {
    && (c.id in s.activated <==> IsPromoted(env, judge, cap, activated, i, c, at))
    && (c.id in s.retired <==> IsRetired(env, judge, cap, activated, i, c, at))
    && (c.id in s.judgeSkipped <==> LeavesWith(env, judge, cap, activated, i, c, at, JudgeSkipped))
    && (c.id in s.capSkipped <==> activated >= cap)
    && (activated < cap && env.alreadyActive(i, c) ==> env.proposedId(c) in s.alreadyActive)
    && (c.id in s.narrowed <==> JudgedFit(env, judge, cap, activated, i, c) && judge(i, c).NarrowTo?)
    && (c.id in s.duplicates <==> IsDuplicate(env, judge, cap, activated, i, c, at))
  }

  ghost predicate Mentions(selected: seq<Candidate>, ids: seq<CandidateId>) {
    forall id <- ids :: exists c <- selected :: c.id == id
  }

  ghost predicate MentionsSelected(selected: seq<Candidate>, s: Summary) {
    && Mentions(selected, s.activated) && Mentions(selected, s.retired) && Mentions(selected, s.judgeSkipped)
    && Mentions(selected, s.capSkipped) && Mentions(selected, s.narrowed) && Mentions(selected, s.duplicates)
  }

  ghost predicate CountsLists(s: Summary) {
    && s.activatedCount == |s.activated| && s.retiredCount == |s.retired| && s.judgeSkippedCount == |s.judgeSkipped|
    && s.capSkippedCount == |s.capSkipped| && s.alreadyActiveCount == |s.alreadyActive|
    && s.narrowedCount == |s.narrowed| && s.duplicateCount == |s.duplicates|
  }

  ghost predicate ListsAll(env: Surroundings, judge: (nat, Candidate) -> Verdict, cap: int, selected: seq<Candidate>,
                           at: int, s: Summary)
  {
    forall i: nat :: i < |selected| ==>
      ListsOne(env, judge, cap, ActivatedBefore(selected, s, i), i, selected[i], at, s)
  }

  /** The summary of a pass over these candidates, in terms of what each of them met. */
  ghost predicate SummaryTells(env: Surroundings, judge: (nat, Candidate) -> Verdict, cap: int,
                               selected: seq<Candidate>, at: int, s: Summary)
  {
    && CountsLists(s) && MentionsSelected(selected, s)
    && s.activatedCount == ActivatedBefore(selected, s, |selected|)
    && ListsAll(env, judge, cap, selected, at, s)
  }

  lemma TalliesKeepCounts(env: Surroundings, judge: (nat, Candidate) -> Verdict, cap: int, i: nat, c: Candidate,
                          at: int, before: Summary, after: Summary)
    requires CountsLists(before) && Tallies(env, judge, cap, i, c, at, before, after)
    ensures CountsLists(after)
  {
    hide LeavesWith, IsPromoted, IsRetired, IsDuplicate, JudgedFit;
  }

  lemma MentionsMore(selected: seq<Candidate>, c: Candidate, ids: seq<CandidateId>)
    requires Mentions(selected, ids)
    ensures Mentions(selected + [c], ids) && Mentions(selected + [c], ids + [c.id])
  {
    forall id | id in ids
      ensures exists d <- selected + [c] :: d.id == id
    {
      var d :| d in selected && d.id == id;
      assert d in selected + [c];
    }
    assert c in selected + [c];
  }

  lemma TalliesMention(env: Surroundings, judge: (nat, Candidate) -> Verdict, cap: int, i: nat, c: Candidate,
                       at: int, selected: seq<Candidate>, before: Summary, after: Summary)
    requires MentionsSelected(selected, before) && Tallies(env, judge, cap, i, c, at, before, after)
    ensures MentionsSelected(selected + [c], after)
  {
    hide Mentions, LeavesWith, IsPromoted, IsRetired, IsDuplicate, JudgedFit;
    MentionsMore(selected, c, before.activated);
    MentionsMore(selected, c, before.retired);
    MentionsMore(selected, c, before.judgeSkipped);
    MentionsMore(selected, c, before.capSkipped);
    MentionsMore(selected, c, before.narrowed);
    MentionsMore(selected, c, before.duplicates);
  }

  ghost predicate IsNew(selected: seq<Candidate>, c: Candidate) {
    forall d <- selected :: d.id != c.id
  }

  /** Listing a new candidate says nothing about the others. */
  lemma OthersStayListed(env: Surroundings, judge: (nat, Candidate) -> Verdict, cap: int, i: nat, c: Candidate,
                         at: int, before: Summary, after: Summary, activated: nat, k: nat, d: Candidate)
    requires Tallies(env, judge, cap, i, c, at, before, after) && d.id != c.id
    requires ListsOne(env, judge, cap, activated, k, d, at, before)
    ensures ListsOne(env, judge, cap, activated, k, d, at, after)
    ensures d.id in after.activated <==> d.id in before.activated
  {
    hide LeavesWith, IsPromoted, IsRetired, IsDuplicate, JudgedFit;
  }

  lemma NewIsListed(env: Surroundings, judge: (nat, Candidate) -> Verdict, cap: int, i: nat, c: Candidate,
                    at: int, selected: seq<Candidate>, before: Summary, after: Summary)
    requires MentionsSelected(selected, before) && IsNew(selected, c)
    requires Tallies(env, judge, cap, i, c, at, before, after)
    ensures ListsOne(env, judge, cap, before.activatedCount, i, c, at, after)
  {
    hide LeavesWith, IsPromoted, IsRetired, IsDuplicate, JudgedFit;
  }

  lemma SameActivated(selected: seq<Candidate>, c: Candidate, before: Summary, after: Summary, n: nat)
    requires n <= |selected|
    requires forall d <- selected :: d.id in after.activated <==> d.id in before.activated
    ensures ActivatedBefore(selected + [c], after, n) == ActivatedBefore(selected, before, n)
  {
    var all := selected + [c];
    assert forall k: nat :: k < n ==> all[k] == selected[k] && selected[k] in selected;
    assert (set k: nat | k < n && all[k].id in after.activated)
        == (set k: nat | k < n && selected[k].id in before.activated);
  }

  lemma OneMoreActivated(selected: seq<Candidate>, c: Candidate, s: Summary)
    ensures ActivatedBefore(selected + [c], s, |selected| + 1)
         == ActivatedBefore(selected + [c], s, |selected|) + if c.id in s.activated then 1 else 0
  {
    var all := selected + [c];
    var earlier := set k: nat | k < |selected| && all[k].id in s.activated;
    var more := if c.id in s.activated then {|selected|} else {};
    assert (set k: nat | k < |all| && all[k].id in s.activated) == earlier + more;
    assert earlier !! more;
  }

  lemma OthersListed(env: Surroundings, judge: (nat, Candidate) -> Verdict, cap: int, selected: seq<Candidate>,
                     c: Candidate, at: int, before: Summary, after: Summary)
    requires ListsAll(env, judge, cap, selected, at, before) && IsNew(selected, c)
    requires Tallies(env, judge, cap, |selected|, c, at, before, after)
    ensures forall n: nat :: n <= |selected| ==>
              ActivatedBefore(selected + [c], after, n) == ActivatedBefore(selected, before, n)
    ensures forall i: nat :: i < |selected| ==>
              ListsOne(env, judge, cap, ActivatedBefore(selected, before, i), i, selected[i], at, after)
  {
    hide Tallies, ListsOne, ActivatedBefore;
    forall k: nat | k < |selected|
      ensures ListsOne(env, judge, cap, ActivatedBefore(selected, before, k), k, selected[k], at, after)
      ensures selected[k].id in after.activated <==> selected[k].id in before.activated
    {
      assert selected[k] in selected;
      OthersStayListed(env, judge, cap, |selected|, c, at, before, after, ActivatedBefore(selected, before, k), k,
                       selected[k]);
    }
    forall n: nat | n <= |selected|
      ensures ActivatedBefore(selected + [c], after, n) == ActivatedBefore(selected, before, n)
    {
      SameActivated(selected, c, before, after, n);
    }
  }

  lemma ListedAll(env: Surroundings, judge: (nat, Candidate) -> Verdict, cap: int, selected: seq<Candidate>,
                  c: Candidate, at: int, before: Summary, after: Summary)
    requires forall n: nat :: n <= |selected| ==>
               ActivatedBefore(selected + [c], after, n) == ActivatedBefore(selected, before, n)
    requires forall i: nat :: i < |selected| ==>
               ListsOne(env, judge, cap, ActivatedBefore(selected, before, i), i, selected[i], at, after)
    requires ListsOne(env, judge, cap, ActivatedBefore(selected, before, |selected|), |selected|, c, at, after)
    ensures ListsAll(env, judge, cap, selected + [c], at, after)
  {
    hide ListsOne, ActivatedBefore;
    var all := selected + [c];
    forall i: nat | i < |all|
      ensures ListsOne(env, judge, cap, ActivatedBefore(all, after, i), i, all[i], at, after)
    {
      assert all[i] == if i < |selected| then selected[i] else c;
    }
  }

  lemma TallyTells(env: Surroundings, judge: (nat, Candidate) -> Verdict, cap: int, selected: seq<Candidate>,
                   c: Candidate, at: int, before: Summary, after: Summary)
    requires SummaryTells(env, judge, cap, selected, at, before) && IsNew(selected, c)
    requires Tallies(env, judge, cap, |selected|, c, at, before, after)
    ensures SummaryTells(env, judge, cap, selected + [c], at, after)
  {
    hide Tallies, ListsOne, ListsAll, MentionsSelected, CountsLists, ActivatedBefore;
    var n := |selected|;
    TalliesKeepCounts(env, judge, cap, n, c, at, before, after);
    TalliesMention(env, judge, cap, n, c, at, selected, before, after);
    NewIsListed(env, judge, cap, n, c, at, selected, before, after);
    OthersListed(env, judge, cap, selected, c, at, before, after);
    ListedAll(env, judge, cap, selected, c, at, before, after);
    OneMoreActivated(selected, c, after);
    NewIsCounted(env, judge, cap, n, c, at, before, after);
  }

  lemma NewIsCounted(env: Surroundings, judge: (nat, Candidate) -> Verdict, cap: int, i: nat, c: Candidate,
                     at: int, before: Summary, after: Summary)
    requires Tallies(env, judge, cap, i, c, at, before, after)
    requires ListsOne(env, judge, cap, before.activatedCount, i, c, at, after)
    ensures after.activatedCount == before.activatedCount + if c.id in after.activated then 1 else 0
  {
    hide LeavesWith, IsPromoted, IsRetired, IsDuplicate, JudgedFit;
  }

  // ----- what a pass leaves in the store -----

  /** The candidates that a pass activated. */
  ghost function NewlyActivated(files: Files, now: Files): set<CandidateId> {
    set id | id in now && now[id].status == Activated && !(id in files && files[id].status == Activated)
  }

  ghost predicate StoresAll(env: Surroundings, judge: (nat, Candidate) -> Verdict, cap: int,
                            selected: seq<Candidate>, at: int, s: Summary, now: Files)
  {
    forall i: nat :: i < |selected| ==>
      && selected[i].id in now
      && StoredAs(env, judge, cap, ActivatedBefore(selected, s, i), i, selected[i], at, now[selected[i].id])
  }

  ghost predicate KeepsOthers(files: Files, selected: seq<Candidate>, now: Files) {
    && now.Keys == files.Keys
    && forall id <- files :: (forall c <- selected :: c.id != id) ==> now[id] == files[id]
  }

  /** The store after a pass over these candidates, in terms of what each of them met. */
  ghost predicate StoreTells(env: Surroundings, judge: (nat, Candidate) -> Verdict, cap: int, files: Files,
                             selected: seq<Candidate>, at: int, s: Summary, now: Files)
  {
    && KeepsOthers(files, selected, now)
    && StoresAll(env, judge, cap, selected, at, s, now)
    && |NewlyActivated(files, now)| == s.activatedCount + s.alreadyActiveCount
  }

  lemma NewIsStored(env: Surroundings, judge: (nat, Candidate) -> Verdict, cap: int, selected: seq<Candidate>,
                    c: Candidate, at: int, before: Summary, after: Summary, now: Files, stored: Candidate)
    requires StoresAll(env, judge, cap, selected, at, before, now) && IsNew(selected, c)
    requires StoredAs(env, judge, cap, ActivatedBefore(selected, before, |selected|), |selected|, c, at, stored)
    requires forall n: nat :: n <= |selected| ==>
               ActivatedBefore(selected + [c], after, n) == ActivatedBefore(selected, before, n)
    ensures StoresAll(env, judge, cap, selected + [c], at, after, now[c.id := stored])
  {
    hide StoredAs, ActivatedBefore;
    var all := selected + [c];
    forall i: nat | i < |all|
      ensures all[i].id in now[c.id := stored]
      ensures StoredAs(env, judge, cap, ActivatedBefore(all, after, i), i, all[i], at, now[c.id := stored][all[i].id])
    {
      if i < |selected| {
        assert all[i] == selected[i] && selected[i] in selected;
      } else {
        assert all[i] == c;
      }
    }
  }

  lemma OthersAreStored(files: Files, selected: seq<Candidate>, c: Candidate, now: Files, stored: Candidate)
    requires KeepsOthers(files, selected, now) && IsNew(selected, c) && c.id in files
    ensures c.id in now && now[c.id] == files[c.id] && KeepsOthers(files, selected + [c], now[c.id := stored])
  {
    assert c in selected + [c];
    assert forall d <- selected :: d in selected + [c];
  }

  lemma OneMoreIsActive(files: Files, now: Files, c: Candidate, stored: Candidate)
    requires c.id in files && c.id in now && files[c.id].status != Activated && now[c.id] == files[c.id]
    ensures |NewlyActivated(files, now[c.id := stored])|
         == |NewlyActivated(files, now)| + if stored.status == Activated then 1 else 0
  {
    var more := if stored.status == Activated then {c.id} else {};
    assert NewlyActivated(files, now[c.id := stored]) == NewlyActivated(files, now) + more;
    assert NewlyActivated(files, now) !! more;
  }

  lemma ActiveIsTallied(env: Surroundings, judge: (nat, Candidate) -> Verdict, cap: int, i: nat, c: Candidate,
                        at: int, before: Summary, after: Summary, stored: Candidate)
    requires Tallies(env, judge, cap, i, c, at, before, after)
    requires StoredAs(env, judge, cap, before.activatedCount, i, c, at, stored)
    ensures after.activatedCount + after.alreadyActiveCount
         == before.activatedCount + before.alreadyActiveCount + if stored.status == Activated then 1 else 0
  {
    hide IsDuplicate;
  }

  lemma StoringTells(env: Surroundings, judge: (nat, Candidate) -> Verdict, cap: int, files: Files,
                     selected: seq<Candidate>, c: Candidate, at: int, before: Summary, after: Summary, now: Files,
                     stored: Candidate)
    requires SummaryTells(env, judge, cap, selected, at, before) && IsNew(selected, c)
    requires StoreTells(env, judge, cap, files, selected, at, before, now)
    requires c.id in files && files[c.id].status != Activated
    requires Tallies(env, judge, cap, |selected|, c, at, before, after)
    requires StoredAs(env, judge, cap, before.activatedCount, |selected|, c, at, stored)
    ensures StoreTells(env, judge, cap, files, selected + [c], at, after, now[c.id := stored])
  {
    hide Tallies, StoredAs, StoresAll, KeepsOthers, NewlyActivated, ListsAll, MentionsSelected, CountsLists,
         ActivatedBefore;
    OthersListed(env, judge, cap, selected, c, at, before, after);
    NewIsStored(env, judge, cap, selected, c, at, before, after, now, stored);
    OthersAreStored(files, selected, c, now, stored);
    OneMoreIsActive(files, now, c, stored);
    ActiveIsTallied(env, judge, cap, |selected|, c, at, before, after, stored);
  }

  /** The selected candidates are stored, undecided, and different ones. */
  ghost predicate Open(files: Files, selected: seq<Candidate>) {
    && (forall i, j :: 0 <= i < j < |selected| ==> selected[i].id != selected[j].id)
    && forall c <- selected :: c.id in files && files[c.id] == c && c.status != Activated
  }

  ghost function TallyAll(env: Surroundings, judge: (nat, Candidate) -> Verdict, cap: int, selected: seq<Candidate>,
                          at: int, total: nat): Summary
    decreases |selected|
  {
    if selected == [] then EMPTY_SUMMARY.(total := total)
    else
      var n := |selected| - 1;
      var before := TallyAll(env, judge, cap, selected[..n], at, total);
      Tallied(env, before, selected[n], ExitOf(env, judge, cap, before.activatedCount, n, selected[n], at))
  }

  lemma NothingTells(env: Surroundings, judge: (nat, Candidate) -> Verdict, cap: int, files: Files, at: int,
                     total: nat)
    ensures var s := EMPTY_SUMMARY.(total := total);
            && Summarizes(env, [], [], total, s) && SummaryTells(env, judge, cap, [], at, s)
            && StoreTells(env, judge, cap, files, [], at, s, files)
  {
    assert ActivatedBefore([], EMPTY_SUMMARY.(total := total), 0) == 0;
    assert NewlyActivated(files, files) == {};
  }

  lemma OpenInit(files: Files, init: seq<Candidate>, last: Candidate)
    requires Open(files, init + [last])
    ensures Open(files, init) && IsNew(init, last) && last.id in files && files[last.id].status != Activated
  {
    var selected := init + [last];
    assert selected[|init|] == last && last in selected;
    forall i, j | 0 <= i < j < |init|
      ensures init[i].id != init[j].id
    {
      assert selected[i].id != selected[j].id;
    }
    forall d | d in init
      ensures d in selected && d.id != last.id
    {
      var i :| 0 <= i < |init| && init[i] == d;
      assert selected[i].id != selected[|init|].id;
    }
  }

  /** Every prefix of a pass tells what its candidates met. */
  lemma {:induction false} TallyAllTells(env: Surroundings, judge: (nat, Candidate) -> Verdict, cap: int, files: Files,
                                         selected: seq<Candidate>, at: int, total: nat)
    requires Open(files, selected)
    ensures var s := TallyAll(env, judge, cap, selected, at, total);
            var exits := Exits(env, judge, cap, selected, at);
            && Summarizes(env, selected, exits, total, s) && SummaryTells(env, judge, cap, selected, at, s)
            && StoreTells(env, judge, cap, files, selected, at, s, AfterPass(files, selected, exits, at))
    decreases |selected|
  {
    hide Open, Summarizes, SummaryTells, StoreTells, ExitOf, Tallied, Recorded, Tallies, StoredAs;
    if selected == [] {
      NothingTells(env, judge, cap, files, at, total);
    } else {
      var n := |selected| - 1;
      var init, c := selected[..n], selected[n];
      assert selected == init + [c];
      var before := TallyAll(env, judge, cap, init, at, total);
      var exits := Exits(env, judge, cap, init, at);
      OpenInit(files, init, c);
      TallyAllTells(env, judge, cap, files, init, at, total);
      CountedExits(env, init, exits, total, before);
      var exit := ExitOf(env, judge, cap, before.activatedCount, n, c, at);
      ExitsSnoc(env, judge, cap, init, c, at);
      TallyExtends(env, init, exits, total, before, c, exit);
      TalliedTallies(env, judge, cap, n, c, at, before);
      RecordedIsStored(env, judge, cap, before.activatedCount, n, c, at);
      TallyTells(env, judge, cap, init, c, at, before, Tallied(env, before, c, exit));
      StoringTells(env, judge, cap, files, init, c, at, before, Tallied(env, before, c, exit),
                   AfterPass(files, init, exits, at), Recorded(c, exit, at));
      AfterPassSnoc(files, init, exits, c, exit, at);
    }
  }

  lemma CountedExits(env: Surroundings, selected: seq<Candidate>, exits: seq<Exit>, total: nat, s: Summary)
    requires Summarizes(env, selected, exits, total, s)
    ensures s.activatedCount == CountIn(exits, ActivatedBucket)
  {
    hide ListsExits;
  }

  lemma AfterPassSnoc(files: Files, selected: seq<Candidate>, exits: seq<Exit>, c: Candidate, exit: Exit, at: int)
    requires |selected| == |exits|
    ensures AfterPass(files, selected + [c], exits + [exit], at)
         == AfterPass(files, selected, exits, at)[c.id := Recorded(c, exit, at)]
  {
    assert (selected + [c])[..|selected|] == selected && (exits + [exit])[..|exits|] == exits;
  }

  lemma OneSummary(env: Surroundings, selected: seq<Candidate>, exits: seq<Exit>, total: nat, s: Summary, t: Summary)
    requires Summarizes(env, selected, exits, total, s) && Summarizes(env, selected, exits, total, t)
    ensures s == t
  {
    hide IdsIn, ProposedIn, NarrowedIn, DuplicatesIn, CountIn;
  }

  /**
   * A whole pass: each selected candidate is listed and stored as what it met says, no other is touched, and the
   * store holds exactly as many new activations as the summary counts.
   */
  lemma PassTells(env: Surroundings, judge: (nat, Candidate) -> Verdict, cap: int, files: Files,
                  selected: seq<Candidate>, at: int, s: Summary)
    requires Open(files, selected)
    requires Summarizes(env, selected, Exits(env, judge, cap, selected, at), |selected|, s)
    ensures SummaryTells(env, judge, cap, selected, at, s)
    ensures StoreTells(env, judge, cap, files, selected, at, s,
                       AfterPass(files, selected, Exits(env, judge, cap, selected, at), at))
  {
    hide Open, Summarizes, SummaryTells, StoreTells, Exits, AfterPass;
    TallyAllTells(env, judge, cap, files, selected, at, |selected|);
    OneSummary(env, selected, Exits(env, judge, cap, selected, at), |selected|, s,
               TallyAll(env, judge, cap, selected, at, |selected|));
  }

  // ----- the loop -----

  /** Takes one candidate through the checks in order and records how it left. */
  method ProcessCandidate(store: LivePromotionCandidateStore, env: Surroundings, judge: (nat, Candidate) -> Verdict,
                          cap: int, i: nat, candidate: Candidate, at: int, dryRun: bool, summary: Summary)
    returns (s: Summary)
    requires store.Valid() && candidate.id in store.files
    modifies store
    ensures store.Valid()
    ensures var exit := ExitOf(env, judge, cap, summary.activatedCount, i, candidate, at);
            && s == Tallied(env, summary, candidate, exit)
            && store.files == if dryRun then old(store.files)
                              else old(store.files)[candidate.id := Recorded(candidate, exit, at)]
    ensures Tallies(env, judge, cap, i, candidate, at, summary, s)
    ensures !dryRun ==>
              && candidate.id in store.files
              && StoredAs(env, judge, cap, summary.activatedCount, i, candidate, at, store.files[candidate.id])
  {
    hide TotalOrder, Keyed, Tallies, StoredAs;
    TalliedTallies(env, judge, cap, i, candidate, at, summary);
    RecordedIsStored(env, judge, cap, summary.activatedCount, i, candidate, at);
    s := summary;
    if s.activatedCount >= cap {
      s := s.(capSkippedCount := s.capSkippedCount + 1, capSkipped := s.capSkipped + [candidate.id]);
      var _, _ := store.RecordCandidateDecision(candidate, CapSkipped, at, dryRun);
      return;
    }
    if env.alreadyActive(i, candidate) {
      s := s.(alreadyActiveCount := s.alreadyActiveCount + 1,
              alreadyActive := s.alreadyActive + [env.proposedId(candidate)]);
      var _, _ := store.RecordCandidateDecision(candidate, Activated, at, dryRun);
      return;
    }
    if !env.supported(i, candidate) {
      s := s.(retiredCount := s.retiredCount + 1, retired := s.retired + [candidate.id]);
      var _, _ := store.RecordCandidateDecision(candidate, Retired, at, dryRun);
      return;
    }
    var verdict := judge(i, candidate);
    if verdict.Unavailable? {
      s := s.(judgeSkippedCount := s.judgeSkippedCount + 1, judgeSkipped := s.judgeSkipped + [candidate.id]);
      var _, _ := store.RecordCandidateDecision(candidate, JudgeSkipped, at, dryRun);
      return;
    }
    if verdict.Retire? {
      s := s.(retiredCount := s.retiredCount + 1, retired := s.retired + [candidate.id]);
      var _, _ := store.RecordCandidateDecision(candidate, Retired, at, dryRun);
      return;
    }
    var workingCandidate := candidate;
    if verdict.NarrowTo? {
      s := s.(narrowedCount := s.narrowedCount + 1, narrowed := s.narrowed + [candidate.id]);
      var _, next := store.RecordCandidateDecision(
        candidate.(entry := verdict.entry, revision := candidate.revision + 1), Narrowed, at, dryRun);
      workingCandidate := next;
    }
    if !env.activationReady(i, workingCandidate) {
      s := s.(retiredCount := s.retiredCount + 1, retired := s.retired + [candidate.id]);
      var _, _ := store.RecordCandidateDecision(workingCandidate, Retired, at, dryRun);
      return;
    }
    if env.duplicate(i, workingCandidate) {
      s := s.(duplicateCount := s.duplicateCount + 1, duplicates := s.duplicates + [candidate.id],
              retiredCount := s.retiredCount + 1, retired := s.retired + [candidate.id]);
      var _, _ := store.RecordCandidateDecision(workingCandidate, Retired, at, dryRun);
      return;
    }
    if !env.promotes(i, workingCandidate) {
      s := s.(retiredCount := s.retiredCount + 1, retired := s.retired + [candidate.id]);
      var _, _ := store.RecordCandidateDecision(workingCandidate, Retired, at, dryRun);
      return;
    }
    s := s.(activatedCount := s.activatedCount + 1, activated := s.activated + [candidate.id]);
    var _, _ := store.RecordCandidateDecision(workingCandidate, Activated, at, dryRun);
  }

  /** The store while the pass is under way. */
  ghost predicate Passed(files: Files, now: Files, selected: seq<Candidate>, exits: seq<Exit>, at: int, dryRun: bool)
    requires |selected| == |exits|
  {
    now == if dryRun then files else AfterPass(files, selected, exits, at)
  }

  lemma NothingPassed(files: Files, at: int, dryRun: bool)
    ensures Passed(files, files, [], [], at, dryRun)
  {
  }

  lemma PassStep(files: Files, now: Files, selected: seq<Candidate>, exits: seq<Exit>, at: int, dryRun: bool,
                 c: Candidate, exit: Exit)
    requires |selected| == |exits| && Passed(files, now, selected, exits, at, dryRun)
    ensures Passed(files, if dryRun then now else now[c.id := Recorded(c, exit, at)], selected + [c], exits + [exit],
                   at, dryRun)
  {
    assert (selected + [c])[..|selected|] == selected;
    assert (exits + [exit])[..|exits|] == exits;
  }

  lemma ExitsSnoc(env: Surroundings, judge: (nat, Candidate) -> Verdict, cap: int, selected: seq<Candidate>,
                  c: Candidate, at: int)
    ensures Exits(env, judge, cap, selected + [c], at)
         == Exits(env, judge, cap, selected, at)
            + [ExitOf(env, judge, cap, CountIn(Exits(env, judge, cap, selected, at), ActivatedBucket), |selected|, c,
                      at)]
  {
    assert (selected + [c])[..|selected|] == selected;
  }

  lemma PassKeepsKeys(files: Files, selected: seq<Candidate>, exits: seq<Exit>, at: int)
    requires |selected| == |exits| && forall c <- selected :: c.id in files
    ensures AfterPass(files, selected, exits, at).Keys == files.Keys
    decreases |selected|
  {
    if selected != [] {
      PassKeepsKeys(files, selected[..|selected| - 1], exits[..|exits| - 1], at);
    }
  }

  method ProcessSelected(store: LivePromotionCandidateStore, env: Surroundings, judge: (nat, Candidate) -> Verdict,
                         cap: int, candidates: seq<Candidate>, at: int, dryRun: bool)
    returns (s: Summary)
    requires store.Valid() && forall c <- candidates :: c.id in store.files
    modifies store
    ensures store.Valid()
    ensures var exits := Exits(env, judge, cap, candidates, at);
            && Summarizes(env, candidates, exits, |candidates|, s)
            && Passed(old(store.files), store.files, candidates, exits, at, dryRun)
    ensures Open(old(store.files), candidates) ==>
              && SummaryTells(env, judge, cap, candidates, at, s)
              && (dryRun ==> store.files == old(store.files))
              && (!dryRun ==> StoreTells(env, judge, cap, old(store.files), candidates, at, s, store.files))
  {
    hide ExitOf, Tallied, Recorded, AfterPass, Tallies, StoredAs, SummaryTells, StoreTells, Open;
    s := EMPTY_SUMMARY.(total := |candidates|);
    NothingPassed(store.files, at, dryRun);
    for i := 0 to |candidates|
      invariant store.Valid()
      invariant Summarizes(env, candidates[..i], Exits(env, judge, cap, candidates[..i], at), |candidates|, s)
      invariant Passed(old(store.files), store.files, candidates[..i], Exits(env, judge, cap, candidates[..i], at), at,
                       dryRun)
    {
      ghost var exits := Exits(env, judge, cap, candidates[..i], at);
      ghost var before, summary := store.files, s;
      ghost var exit := ExitOf(env, judge, cap, CountIn(exits, ActivatedBucket), i, candidates[i], at);
      assert candidates[..i + 1] == candidates[..i] + [candidates[i]];
      PassKeepsKeys(old(store.files), candidates[..i], exits, at);
      ExitsSnoc(env, judge, cap, candidates[..i], candidates[i], at);
      s := ProcessCandidate(store, env, judge, cap, i, candidates[i], at, dryRun, s);
      TallyExtends(env, candidates[..i], exits, |candidates|, summary, candidates[i], exit);
      PassStep(old(store.files), before, candidates[..i], exits, at, dryRun, candidates[i], exit);
    }
    assert candidates[..|candidates|] == candidates;
    if Open(old(store.files), candidates) {
      PassTells(env, judge, cap, old(store.files), candidates, at, s);
    }
  }

  lemma SelectionIsOpen(le: (CandidateId, CandidateId) -> bool, files: Files, selected: seq<Candidate>)
    requires IsSelection(le, files, selected)
    ensures Open(files, selected)
  {
    SelectionHasDistinctIds(le, files, selected);
  }

  /** Without a judge every selected candidate is skipped. */
  ghost predicate SkipsAll(selected: seq<Candidate>, s: Summary) {
    && CountsLists(s) && s.total == |selected|
    && |s.judgeSkipped| == |selected| && (forall i :: 0 <= i < |selected| ==> s.judgeSkipped[i] == selected[i].id)
    && s.activated == [] && s.retired == [] && s.capSkipped == [] && s.alreadyActive == [] && s.narrowed == []
    && s.duplicates == []
  }

  /**
   * The pass: it selects one candidate per series, sends each through one exit, never activates more
   * than the cap, and accounts for every candidate it selected.
   */
  method ProcessCandidateKind(store: LivePromotionCandidateStore, env: Surroundings, cap: int, at: int, dryRun: bool)
    returns (s: Summary, ghost selected: seq<Candidate>)
    requires store.Valid() && StoreInv(store.files)
    modifies store
    ensures store.Valid() && StoreInv(store.files)
    ensures IsSelection(store.idOrder, old(store.files), selected)
    ensures Summarizes(env, selected, ExitsOf(env, cap, selected, at), |selected|, s)
    ensures store.files == FilesAfter(env, cap, old(store.files), selected, at, dryRun)
    ensures dryRun || env.judge.None? ==> store.files == old(store.files)
    ensures env.judge.None? ==> SkipsAll(selected, s)
    ensures env.judge.Some? ==> SummaryTells(env, env.judge.value, cap, selected, at, s)
    ensures env.judge.Some? && !dryRun ==>
              StoreTells(env, env.judge.value, cap, old(store.files), selected, at, s, store.files)
    ensures s.activatedCount <= if cap > 0 then cap else 0
    ensures s.activatedCount + s.retiredCount + s.judgeSkippedCount + s.capSkippedCount + s.alreadyActiveCount
              == s.total
  {
    hide StoreInv;
    ghost var files := store.files;
    var list := store.ListCandidates();
    var tops := SelectLatestCandidatesBySeries(store.idOrder, list);
    SelectedAreLatest(store.idOrder, files, list, tops);
    var candidates := FilterEligible(store.idOrder, files, tops);
    selected := candidates;
    SelectionIsOpen(store.idOrder, files, selected);
    BucketsPartition(ExitsOf(env, cap, selected, at));
    hide IsSelection, LatestEach, IsLatest;
    if env.judge.None? {
      var ids := seq(|candidates|, i requires 0 <= i < |candidates| => candidates[i].id);
      s := EMPTY_SUMMARY.(total := |candidates|, judgeSkippedCount := |candidates|, judgeSkipped := ids);
      EveryoneSkipped(env, candidates, ids);
      assert s.activatedCount == 0;
      return;
    }
    PassKeepsInv(store.idOrder, files, selected, ExitsOf(env, cap, selected, at), at);
    ActivationsStayUnderTheCap(env, env.judge.value, cap, selected, at);
    s := ProcessSelected(store, env, env.judge.value, cap, candidates, at, dryRun);
  }
}
