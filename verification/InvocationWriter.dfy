/**
 The writer's side of an invocation artifact: the updates the project memory surface commits, one
 at a time, and what they leave for the report to compare.
 */
module InvocationWriter {
  import opened Common
  import opened InvocationArtifacts
  import opened DeliveryReport

  const RECEIPT_CAP: nat := 20
  const MANDATORY := "mandatory_retrieval_required"

  datatype Policy = Policy(preflightMandatory: bool, failureRetryMandatory: bool)

  datatype RetrievalOutcome = RetrievalOutcome(request: Option<Json>, requestId: Option<string>, returned: Returned,
                                               basis: Option<Json>, gateEvaluation: Option<Json>)

  datatype Update =
    | ObserveGate(observation: GateObservation)
    | Decide(decision: Decision, reason: Option<string>, trigger: string, now: int)
    | StartAttempt(attempt: Attempt, startedRequest: Option<Json>)
    | FinishAttempt(failed: bool, cancelled: bool, finishedAt: int, details: Json, outcome: Option<RetrievalOutcome>)
    | ReadRecords(bound: bool, receipt: Receipt)
    | RecordUsage(usedAt: int, used: seq<string>, selected: seq<string>, linked: seq<string>, useEvidence: Json)

  datatype UpdateError =
    | NoOpportunity | NoAttempt | DecisionConflict | TerminalAlreadyRecorded | NotBound | InvalidReceipts
    | ReceiptCapReached | EvidenceNotUsed

  // ---------------------------------------------------------------- one update

  function WithOpportunity(a: Artifact, o: Opportunity): Artifact
    requires a.telemetry.Some?
  {
    a.(telemetry := Some(a.telemetry.value.(opportunity := Some(o))))
  }

  function WithAttempt(a: Artifact, attempt: Attempt): Artifact
    requires a.telemetry.Some?
  {
    a.(telemetry := Some(a.telemetry.value.(attempt := Some(attempt))))
  }

  predicate SkipForbidden(policy: Policy, decision: Decision, trigger: string) {
    decision == Skip && (policy.preflightMandatory || (trigger == "failure_retry" && policy.failureRetryMandatory))
  }

  function ActualBehavior(decision: Decision): string {
    match decision
    case Skip => "not_consulted"
    case Blocked => "blocked"
    case _ => "retrieve_always"
  }

  /** None leaves the artifact as it is; Some is the next committed artifact. */
  function ObserveGateStep(a: Artifact, observation: GateObservation): Result<Option<Artifact>, UpdateError> {
    if a.Opportunity().None? then Failure(NoOpportunity)
    else if a.Opportunity().value.gateObservation.Some? then Success(None)
    else Success(Some(WithOpportunity(a, a.Opportunity().value.(gateObservation := Some(observation)))))
  }

  function DecideStep(policy: Policy, a: Artifact, decision: Decision, reason: Option<string>, trigger: string,
                      now: int)
      : Result<Option<Artifact>, UpdateError> {
    if a.Opportunity().None? then Failure(NoOpportunity)
    else
      var current := a.Opportunity().value;
      var satisfyingMandatory := current.decision == Blocked && current.decisionReason == Some(MANDATORY)
        && decision == Consult;
      if current.decision != Pending && current.decision != decision && !satisfyingMandatory then
        Failure(DecisionConflict)
      else if current.decision == decision then Success(None)
      else
        var forbidden := SkipForbidden(policy, decision, trigger);
        var resolved := if forbidden then Blocked else decision;
        var decided := current.(decision := resolved,
                                decisionReason := if forbidden then Some(MANDATORY) else reason,
                                decisionAt := Some(now));
        var gate := if current.gateObservation.Some? && current.gateObservation.value.evaluation.Some?
                    then Some(current.gateObservation.value.evaluation.value + ActualBehavior(resolved)) else None;
        Success(Some(WithOpportunity(a, decided).(retrievalGate := gate)))
  }

  function StartStep(a: Artifact, attempt: Attempt, request: Option<Json>): Result<Option<Artifact>, UpdateError> {
    if a.telemetry.None? then Failure(NoOpportunity)
    else if a.Attempt().Some? then Success(None)
    else Success(Some(WithAttempt(a, attempt.(status := Running)).(
      memoryConsulted := true, consultTrigger := Some(attempt.trigger), request := request)))
  }

  function FinishStep(a: Artifact, failed: bool, cancelled: bool, finishedAt: int, details: Json,
                      outcome: Option<RetrievalOutcome>)
      : Result<Option<Artifact>, UpdateError> {
    if a.Attempt().None? then Failure(NoAttempt)
    else if a.Attempt().value.status != Running then Failure(TerminalAlreadyRecorded)
    else
      var status := if !failed then Succeeded else if cancelled then Cancelled else Failed;
      var finished := a.Attempt().value.(status := status, finishedAt := Some(finishedAt), details := details);
      match outcome
      case None => Success(Some(WithAttempt(a, finished)))
      case Some(result) =>
        Success(Some(WithAttempt(a, finished.(requestId := result.requestId)).(
          request := if result.request.Some? then result.request else a.request,
          returned := result.returned,
          retrievalBasis := if result.basis.Some? then result.basis else a.retrievalBasis,
          retrievalGate := if result.gateEvaluation.Some? then result.gateEvaluation else a.retrievalGate)))
  }

  function ReadStep(a: Artifact, bound: bool, receipt: Receipt): Result<Option<Artifact>, UpdateError> {
    if !bound then Failure(NotBound)
    else if |a.readReceipts| > RECEIPT_CAP || |ReceiptMap(a.readReceipts)| != |a.readReceipts| then
      Failure(InvalidReceipts)
    else if receipt.receiptId in ReceiptMap(a.readReceipts) then Success(None)
    else if |a.readReceipts| == RECEIPT_CAP then Failure(ReceiptCapReached)
    else Success(Some(a.(readReceipts := a.readReceipts + [receipt])))
  }

  function Keep(ids: seq<string>, returned: Returned): seq<string> {
    if ids == [] then []
    else
      var id := ids[|ids| - 1];
      Keep(ids[..|ids| - 1], returned)
      + if id in returned.tactics || id in returned.invariants || id in returned.cases || id in returned.evidence then
        [id]
        else []
  }

  function UsageStep(a: Artifact, usedAt: int, used: seq<string>, selected: seq<string>, linked: seq<string>,
                     useEvidence: Json)
      : Result<Option<Artifact>, UpdateError> {
    var usedReturned := Keep(used, a.returned);
    if exists id :: id in linked && id !in usedReturned then Failure(EvidenceNotUsed)
    else Success(Some(a.(usage := Usage(Some(usedAt), usedReturned != [], used, selected, usedReturned,
                                        Some(useEvidence)))))
  }

  function Step(policy: Policy, a: Artifact, update: Update): Result<Option<Artifact>, UpdateError> {
    match update
    case ObserveGate(observation) => ObserveGateStep(a, observation)
    case Decide(decision, reason, trigger, now) => DecideStep(policy, a, decision, reason, trigger, now)
    case StartAttempt(attempt, request) => StartStep(a, attempt, request)
    case FinishAttempt(failed, cancelled, finishedAt, details, outcome) =>
      FinishStep(a, failed, cancelled, finishedAt, details, outcome)
    case ReadRecords(bound, receipt) => ReadStep(a, bound, receipt)
    case RecordUsage(usedAt, used, selected, linked, useEvidence) =>
      UsageStep(a, usedAt, used, selected, linked, useEvidence)
  }

  /** A failed update commits nothing; so does one that finds its work already recorded. */
  function Commit(policy: Policy, a: Artifact, update: Update): Artifact {
    var step := Step(policy, a, update);
    if step.Success? && step.value.Some? then step.value.value else a
  }

  /** Every version of the artifact, the initial one first. */
  ghost function History(policy: Policy, a: Artifact, updates: seq<Update>): (history: seq<Artifact>)
    ensures |history| == |updates| + 1 && history[0] == a
    decreases |updates|
  {
    if updates == [] then [a] else [a] + History(policy, Commit(policy, a, updates[0]), updates[1..])
  }

  // ---------------------------------------------------------------- what updates keep

  /** What the report compares and no update takes back, between an earlier and a later version. */
  ghost predicate Advances(before: Artifact, after: Artifact) {
    && Immutable(before) == Immutable(after)
    && (before.usage.recordedAt.Some? ==> after.usage.recordedAt.Some?)
    && (forall id :: id in ReceiptMap(before.readReceipts) ==>
          id in ReceiptMap(after.readReceipts)
            && ReceiptMap(after.readReceipts)[id] == ReceiptMap(before.readReceipts)[id])
    && (before.Attempt().Some? ==>
          after.Attempt().Some? && SameAttemptIdentity(before.Attempt().value, after.Attempt().value))
    && (Terminal(before.Attempt()) ==>
          after.Attempt() == before.Attempt() && after.returned == before.returned
            && after.retrievalBasis == before.retrievalBasis)
    && (before.Opportunity().Some? ==>
          && after.Opportunity().Some?
          && (before.Opportunity().value.gateObservation.Some? ==> after.Opportunity().value.gateObservation.Some?)
          && (before.Opportunity().value.decision != Pending ==>
                || after.Opportunity().value.decision == before.Opportunity().value.decision
                || (before.Opportunity().value.decision == Blocked && after.Opportunity().value.decision == Consult)))
  }

  lemma AdvancesIsTransitive(a: Artifact, b: Artifact, c: Artifact)
    requires Advances(a, b) && Advances(b, c)
    ensures Advances(a, c)
  {
  }

  lemma ReceiptMapGrows(receipts: seq<Receipt>, r: Receipt)
    ensures ReceiptMap(receipts + [r]) == ReceiptMap(receipts)[r.receiptId := r]
  {
    assert (receipts + [r])[..|receipts|] == receipts;
  }

  lemma AdvancesIsReflexive(a: Artifact)
    ensures Advances(a, a)
  {
  }

  lemma DecideAdvances(policy: Policy, a: Artifact, decision: Decision, reason: Option<string>, trigger: string,
                       now: int)
    ensures var step := DecideStep(policy, a, decision, reason, trigger, now);
            step.Success? && step.value.Some? ==> Advances(a, step.value.value)
  {
  }

  lemma FinishAdvances(a: Artifact, failed: bool, cancelled: bool, finishedAt: int, details: Json,
                       outcome: Option<RetrievalOutcome>)
    ensures var step := FinishStep(a, failed, cancelled, finishedAt, details, outcome);
            step.Success? && step.value.Some? ==> Advances(a, step.value.value)
  {
    hide ReceiptMap;
  }

  lemma ReadAdvances(a: Artifact, bound: bool, receipt: Receipt)
    ensures var step := ReadStep(a, bound, receipt);
            step.Success? && step.value.Some? ==> Advances(a, step.value.value)
  {
    ReceiptMapGrows(a.readReceipts, receipt);
    hide ReceiptMap;
  }

  lemma OtherUpdatesAdvance(policy: Policy, a: Artifact, update: Update)
    requires update.ObserveGate? || update.StartAttempt? || update.RecordUsage?
    ensures var step := Step(policy, a, update);
            step.Success? && step.value.Some? ==> Advances(a, step.value.value)
  {
  }

  lemma CommitAdvances(policy: Policy, a: Artifact, update: Update)
    ensures Advances(a, Commit(policy, a, update))
  {
    AdvancesIsReflexive(a);
    match update {
      case Decide(decision, reason, trigger, now) => DecideAdvances(policy, a, decision, reason, trigger, now);
      case FinishAttempt(failed, cancelled, finishedAt, details, outcome) =>
        FinishAdvances(a, failed, cancelled, finishedAt, details, outcome);
      case ReadRecords(bound, receipt) => ReadAdvances(a, bound, receipt);
      case _ => OtherUpdatesAdvance(policy, a, update);
    }
    hide Advances, ObserveGateStep, DecideStep, StartStep, FinishStep, ReadStep, UsageStep;
  }

  lemma {:induction false} HistoryAdvances(policy: Policy, a: Artifact, updates: seq<Update>, i: nat, j: nat)
    requires i <= j <= |updates|
    ensures Advances(History(policy, a, updates)[i], History(policy, a, updates)[j])
    decreases |updates|
  {
    hide Advances, Commit;
    if j == 0 {
      AdvancesIsReflexive(a);
    } else {
      var next := Commit(policy, a, updates[0]);
      var rest := History(policy, next, updates[1..]);
      assert History(policy, a, updates) == [a] + rest;
      if i == 0 {
        HistoryAdvances(policy, next, updates[1..], 0, j - 1);
        CommitAdvances(policy, a, updates[0]);
        AdvancesIsTransitive(a, rest[0], rest[j - 1]);
      } else {
        HistoryAdvances(policy, next, updates[1..], i - 1, j - 1);
      }
    }
  }

  /** In every run of the writer, an earlier version is progression-below every later one. */
  lemma EveryRunProgresses(policy: Policy, a: Artifact, updates: seq<Update>, i: nat, j: nat)
    requires i <= j <= |updates|
    ensures IsProgression(History(policy, a, updates)[i], History(policy, a, updates)[j])
  {
    HistoryAdvances(policy, a, updates, i, j);
  }

  /** The only conflicts the report can find between two versions of one run, and exactly when it finds them. */
  ghost function ExpectedConflicts(before: Artifact, after: Artifact): set<Reason> {
    (if before.Opportunity().Some? && after.Opportunity().Some?
        && before.Opportunity().value.decision == Blocked && after.Opportunity().value.decision == Consult
     then {OpportunityDecisionConflict} else {})
    + (if before.usage.recordedAt.Some? && before.usage != after.usage then {UsageCallbackConflict} else {})
    + (if RequestsDisagree(before, after) then {RequestIdentityConflict} else {})
  }

  lemma AdvancingVersionsConflictExactly(before: Artifact, after: Artifact)
    requires Advances(before, after)
    ensures DeliveryConflicts(before, after) == ExpectedConflicts(before, after)
  {
    assert IsProgression(before, after);
    assert !ReceiptsDisagree(before, after) && !ReceiptsFork(before, after);
    hide ReceiptsDisagree, ReceiptsFork, IsProgression;
  }

  lemma RunConflictsExactly(policy: Policy, a: Artifact, updates: seq<Update>, i: nat, j: nat)
    requires i <= j <= |updates|
    ensures var history := History(policy, a, updates);
            DeliveryConflicts(history[i], history[j]) == ExpectedConflicts(history[i], history[j])
  {
    HistoryAdvances(policy, a, updates, i, j);
    AdvancingVersionsConflictExactly(History(policy, a, updates)[i], History(policy, a, updates)[j]);
  }

  // ---------------------------------------------------------------- runs the report accepts

  /** The updates that contradict what an artifact already says; a caller can tell before committing one. */
  ghost predicate Contradicts(a: Artifact, update: Update) {
    match update
    case ObserveGate(_) => false
    case Decide(decision, _, _, _) => decision == Consult && a.Opportunity().Some?
      && a.Opportunity().value.decision == Blocked
    case StartAttempt(_, request) => a.request.Some? && a.request != request
    case FinishAttempt(_, _, _, _, outcome) =>
      outcome.Some? && outcome.value.request.Some? && a.request.Some? && a.request != outcome.value.request
    case ReadRecords(_, _) => false
    case RecordUsage(_, _, _, _, _) => a.usage.recordedAt.Some?
  }

  ghost predicate Consistent(policy: Policy, a: Artifact, updates: seq<Update>)
    decreases |updates|
  {
    updates == [] || (!Contradicts(a, updates[0]) && Consistent(policy, Commit(policy, a, updates[0]), updates[1..]))
  }

  /** Decisions, usage and request, once recorded, are the same in every later version. */
  ghost predicate StandsBy(before: Artifact, after: Artifact) {
    && (before.usage.recordedAt.Some? ==> after.usage == before.usage)
    && (before.request.Some? ==> after.request == before.request)
    && (before.Opportunity().Some? && before.Opportunity().value.decision != Pending ==>
          after.Opportunity().Some? && after.Opportunity().value.decision == before.Opportunity().value.decision)
  }

  lemma ConsistentUpdateStandsBy(policy: Policy, a: Artifact, update: Update)
    requires !Contradicts(a, update)
    ensures StandsBy(a, Commit(policy, a, update))
  {
  }

  lemma {:induction false} ConsistentRunStandsBy(policy: Policy, a: Artifact, updates: seq<Update>, i: nat, j: nat)
    requires Consistent(policy, a, updates) && i <= j <= |updates|
    ensures StandsBy(History(policy, a, updates)[i], History(policy, a, updates)[j])
    decreases |updates|
  {
    if j > 0 {
      var next := Commit(policy, a, updates[0]);
      var rest := History(policy, next, updates[1..]);
      assert History(policy, a, updates) == [a] + rest;
      if i == 0 {
        ConsistentUpdateStandsBy(policy, a, updates[0]);
        ConsistentRunStandsBy(policy, next, updates[1..], 0, j - 1);
        StandsByIsTransitive(a, rest[0], rest[j - 1]);
      } else {
        ConsistentRunStandsBy(policy, next, updates[1..], i - 1, j - 1);
      }
    }
  }

  lemma StandsByIsTransitive(a: Artifact, b: Artifact, c: Artifact)
    requires StandsBy(a, b) && StandsBy(b, c)
    ensures StandsBy(a, c)
  {
  }

  /** No two versions of a consistent run conflict, whichever is delivered first. */
  lemma ConsistentRunNeverConflicts(policy: Policy, a: Artifact, updates: seq<Update>, i: nat, j: nat)
    requires Consistent(policy, a, updates) && i <= |updates| && j <= |updates|
    ensures DeliveryConflicts(History(policy, a, updates)[i], History(policy, a, updates)[j]) == {}
  {
    var history := History(policy, a, updates);
    var first, second := if i <= j then i else j, if i <= j then j else i;
    RunConflictsExactly(policy, a, updates, first, second);
    ConsistentRunStandsBy(policy, a, updates, first, second);
    ConflictsAreSymmetric(history[i], history[j]);
  }

  ghost predicate ReceiptsKept(a: Artifact) {
    DistinctReceipts(a.readReceipts) && |a.readReceipts| <= RECEIPT_CAP
  }

  lemma CommitKeepsReceipts(policy: Policy, a: Artifact, update: Update)
    requires ReceiptsKept(a)
    ensures ReceiptsKept(Commit(policy, a, update))
  {
    if update.ReadRecords? {
      ReadKeepsReceipts(a, update.bound, update.receipt);
    } else {
      OnlyReadsAddReceipts(policy, a, update);
      hide Commit;
    }
    hide ReadStep, ObserveGateStep, DecideStep, StartStep, FinishStep, UsageStep;
  }

  lemma ReadKeepsReceipts(a: Artifact, bound: bool, receipt: Receipt)
    requires ReceiptsKept(a)
    ensures var step := ReadStep(a, bound, receipt);
            step.Success? && step.value.Some? ==> ReceiptsKept(step.value.value)
  {
    EveryReceiptIsMapped(a.readReceipts);
    hide ReceiptMap;
  }

  lemma EveryReceiptIsMapped(receipts: seq<Receipt>)
    ensures forall r <- receipts :: r.receiptId in ReceiptMap(receipts)
  {
  }

  lemma OnlyReadsAddReceipts(policy: Policy, a: Artifact, update: Update)
    requires !update.ReadRecords?
    ensures Commit(policy, a, update).readReceipts == a.readReceipts
  {
  }

  lemma {:induction false} RunKeepsReceipts(policy: Policy, a: Artifact, updates: seq<Update>, i: nat)
    requires ReceiptsKept(a) && i <= |updates|
    ensures ReceiptsKept(History(policy, a, updates)[i])
    decreases |updates|
  {
    if i > 0 {
      CommitKeepsReceipts(policy, a, updates[0]);
      RunKeepsReceipts(policy, Commit(policy, a, updates[0]), updates[1..], i - 1);
      assert History(policy, a, updates) == [a] + History(policy, Commit(policy, a, updates[0]), updates[1..]);
    }
  }

  lemma {:induction false} SameKeyThroughout(input: seq<Artifact>, key: Key)
    requires forall d :: d in input ==> DeliveryKey(d) == key
    ensures GroupOf(input, key) == input
    ensures KeysOf(input) == if input == [] then [] else [key]
  {
    hide DeliveryKey;
    if input != [] {
      SameKeyThroughout(input[..|input| - 1], key);
      assert input == input[..|input| - 1] + [input[|input| - 1]];
    }
  }

  /**
   What the writer can do is what the report accepts: however often and in whatever order the
   versions of a consistent run are delivered, they form one conflict-free group, and the survivor
   records everything any of them does.
   */
  lemma WriterRunsAreAccepted(policy: Policy, a: Artifact, updates: seq<Update>, deliveries: seq<Artifact>)
    requires Consistent(policy, a, updates) && a.invocationId.Some? && ReceiptsKept(a)
    requires deliveries != [] && forall d :: d in deliveries ==> d in History(policy, a, updates)
    ensures KeysOf(deliveries) == [DeliveryKey(a)]
    ensures var group := GroupOf(deliveries, DeliveryKey(a));
            && group == deliveries && ConflictFree(group)
            && forall d :: d in deliveries ==> IsProgression(d, Survivor(group))
  {
    hide Advances, ReceiptsKept, History, Consistent, DeliveryKey, DeliveryConflicts, IsProgression, Survivor;
    forall d | d in deliveries
      ensures DeliveryKey(d) == DeliveryKey(a) && DistinctReceipts(d.readReceipts) && |d.readReceipts| < 1000
    {
      VersionHasItsKey(policy, a, updates, d);
    }
    SameKeyThroughout(deliveries, DeliveryKey(a));
    hide KeysOf, GroupOf, ConflictFree;
    forall x, y | x in deliveries && y in deliveries
      ensures DeliveryConflicts(x, y) == {}
    {
      VersionsNeverConflict(policy, a, updates, x, y);
    }
    ConflictFreeByValue(deliveries);
    forall d | d in deliveries
      ensures IsProgression(d, Survivor(deliveries))
    {
      SurvivorIsAProgressionOfAll(deliveries, d);
    }
  }

  lemma VersionHasItsKey(policy: Policy, a: Artifact, updates: seq<Update>, d: Artifact)
    requires a.invocationId.Some? && ReceiptsKept(a) && d in History(policy, a, updates)
    ensures DeliveryKey(d) == DeliveryKey(a) && DistinctReceipts(d.readReceipts) && |d.readReceipts| < 1000
  {
    hide History;
    var i :| 0 <= i < |History(policy, a, updates)| && History(policy, a, updates)[i] == d;
    HistoryAdvances(policy, a, updates, 0, i);
    RunKeepsReceipts(policy, a, updates, i);
    hide ReceiptMap;
  }

  lemma VersionsNeverConflict(policy: Policy, a: Artifact, updates: seq<Update>, x: Artifact, y: Artifact)
    requires Consistent(policy, a, updates) && x in History(policy, a, updates) && y in History(policy, a, updates)
    ensures DeliveryConflicts(x, y) == {}
  {
    hide History, Consistent, DeliveryConflicts;
    var i :| 0 <= i < |History(policy, a, updates)| && History(policy, a, updates)[i] == x;
    var j :| 0 <= j < |History(policy, a, updates)| && History(policy, a, updates)[j] == y;
    ConsistentRunNeverConflicts(policy, a, updates, i, j);
  }
}
