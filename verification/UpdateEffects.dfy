/**
 What each update of an invocation artifact changes, said of the artifact before and after it, and of
 the conditions under which it is refused.
 */
module UpdateEffects {
  import opened Common
  import opened InvocationArtifacts
  import opened DeliveryReport
  import opened InvocationWriter

  // ---------------------------------------------------------------- the effects

  /** Only the opportunity may differ. */
  ghost predicate SameButOpportunity(before: Artifact, after: Artifact) {
    && before.telemetry.Some? && after.telemetry.Some?
    && after.Attempt() == before.Attempt()
    && after.telemetry.value.schemaVersion == before.telemetry.value.schemaVersion
    && before.(telemetry := after.telemetry) == after
  }

  /** The gate is observed once. */
  ghost predicate ObserveEffect(before: Artifact, observation: GateObservation, result: Result<Artifact, UpdateError>) {
    if before.Opportunity().None? then result == Failure(NoOpportunity)
    else if before.Opportunity().value.gateObservation.Some? then result == Success(before)
    else
      && result.Success? && SameButOpportunity(before, result.value) && result.value.Opportunity().Some?
      && var opportunity := result.value.Opportunity().value;
         && opportunity.gateObservation == Some(observation)
         && opportunity.(gateObservation := None) == before.Opportunity().value
  }

  /** A decision other than the one taken is refused, save consulting after a block for being mandatory. */
  ghost predicate Refused(opportunity: Opportunity, decision: Decision) {
    && opportunity.decision != Pending && opportunity.decision != decision
    && !(opportunity.decision == Blocked && opportunity.decisionReason == Some("mandatory_retrieval_required")
         && decision == Consult)
  }

  /** Where retrieval is mandatory a skip is turned into a block. */
  ghost predicate MandatoryHere(policy: Policy, trigger: string) {
    policy.preflightMandatory || (policy.failureRetryMandatory && trigger == "failure_retry")
  }

  /** The gate says what was evaluated and what was done about it. */
  ghost predicate GateTells(opportunity: Opportunity, gate: Option<Json>) {
    if opportunity.gateObservation.None? || opportunity.gateObservation.value.evaluation.None? then gate == None
    else
      var evaluation := opportunity.gateObservation.value.evaluation.value;
      match opportunity.decision
      case Skip => gate == Some(evaluation + "not_consulted")
      case Blocked => gate == Some(evaluation + "blocked")
      case Consult => gate == Some(evaluation + "retrieve_always")
      case Pending => gate == Some(evaluation + "retrieve_always")
  }

  ghost predicate DecideEffect(policy: Policy, before: Artifact, decision: Decision, reason: Option<string>,
                               trigger: string, now: int, result: Result<Artifact, UpdateError>)
  {
    if before.Opportunity().None? then result == Failure(NoOpportunity)
    else if Refused(before.Opportunity().value, decision) then result == Failure(DecisionConflict)
    else if before.Opportunity().value.decision == decision then result == Success(before)
    else
      && result.Success? && result.value.Opportunity().Some?
      && SameButOpportunity(before.(retrievalGate := result.value.retrievalGate), result.value)
      && DecisionTaken(policy, before.Opportunity().value, result.value.Opportunity().value, decision, reason, trigger,
                       now)
      && GateTells(result.value.Opportunity().value, result.value.retrievalGate)
  }

  ghost predicate DecisionTaken(policy: Policy, before: Opportunity, after: Opportunity, decision: Decision,
                                reason: Option<string>, trigger: string, now: int)
  {
    && after.decisionAt == Some(now)
    && (if decision == Skip && MandatoryHere(policy, trigger) then
          after.decision == Blocked && after.decisionReason == Some("mandatory_retrieval_required")
        else
          after.decision == decision && after.decisionReason == reason)
    && after.(decision := before.decision, decisionReason := before.decisionReason, decisionAt := before.decisionAt)
       == before
  }

  /** An attempt is attached once, running, with the request it was started for. */
  ghost predicate StartEffect(before: Artifact, attempt: Attempt, request: Option<Json>,
                              result: Result<Artifact, UpdateError>)
  {
    if before.telemetry.None? then result == Failure(NoOpportunity)
    else if before.Attempt().Some? then result == Success(before)
    else
      && result.Success?
      && var after := result.value;
         && after.Attempt().Some? && after.Attempt().value.status == Running
         && after.Attempt().value.(status := attempt.status) == attempt
         && after.memoryConsulted && after.consultTrigger == Some(attempt.trigger) && after.request == request
         && after.telemetry.value.(attempt := None) == before.telemetry.value
         && after.(telemetry := before.telemetry, memoryConsulted := before.memoryConsulted,
                   consultTrigger := before.consultTrigger, request := before.request) == before
  }

  /** How the attempt ended: what it recorded besides the identity it started with. */
  ghost predicate EndsAs(before: Attempt, after: Attempt, ending: Ending) {
    && (after.status == Succeeded <==> !ending.failed)
    && (after.status == Cancelled <==> ending.failed && ending.cancelled)
    && (after.status == Failed <==> ending.failed && !ending.cancelled)
    && after.finishedAt == Some(ending.finishedAt) && after.details == ending.details
    && after.requestId == (if ending.outcome.Some? then ending.outcome.value.requestId else before.requestId)
    && after.attemptId == before.attemptId && after.invocationId == before.invocationId
    && after.retryOf == before.retryOf && after.trigger == before.trigger && after.context == before.context
    && after.startedAt == before.startedAt
  }

  /** What an outcome leaves of a value it may replace. */
  ghost predicate Replaces<T>(before: Option<T>, given: Option<T>, after: Option<T>) {
    if given.Some? then after == given else after == before
  }

  /** What the retrieval brought is recorded; without an outcome all of it stays as it was. */
  ghost predicate Brings(before: Artifact, after: Artifact, outcome: Option<RetrievalOutcome>) {
    if outcome.None? then
      && after.request == before.request && after.returned == before.returned
      && after.retrievalBasis == before.retrievalBasis && after.retrievalGate == before.retrievalGate
    else
      && after.returned == outcome.value.returned
      && Replaces(before.request, outcome.value.request, after.request)
      && Replaces(before.retrievalBasis, outcome.value.basis, after.retrievalBasis)
      && Replaces(before.retrievalGate, outcome.value.gateEvaluation, after.retrievalGate)
  }

  ghost predicate FinishEffect(before: Artifact, ending: Ending, result: Result<Artifact, UpdateError>) {
    if before.Attempt().None? then result == Failure(NoAttempt)
    else if before.Attempt().value.status != Running then result == Failure(TerminalAlreadyRecorded)
    else
      && result.Success?
      && var after := result.value;
         && after.Attempt().Some? && EndsAs(before.Attempt().value, after.Attempt().value, ending)
         && Brings(before, after, ending.outcome)
         && after.telemetry.value.(attempt := before.Attempt()) == before.telemetry.value
         && after.(telemetry := before.telemetry, request := before.request, returned := before.returned,
                   retrievalBasis := before.retrievalBasis, retrievalGate := before.retrievalGate) == before
  }

  ghost predicate HasReceipt(receipts: seq<Receipt>, id: string) {
    exists i :: 0 <= i < |receipts| && receipts[i].receiptId == id
  }

  /** A receipt is kept once, under distinct ids and the cap. */
  ghost predicate ReadEffect(before: Artifact, bound: bool, receipt: Receipt, result: Result<Artifact, UpdateError>) {
    if !bound then result == Failure(NotBound)
    else if |before.readReceipts| > 20 || !DistinctReceipts(before.readReceipts) then result == Failure(InvalidReceipts)
    else if HasReceipt(before.readReceipts, receipt.receiptId) then result == Success(before)
    else if |before.readReceipts| == 20 then result == Failure(ReceiptCapReached)
    else
      && result.Success? && result.value.readReceipts == before.readReceipts + [receipt]
      && result.value.(readReceipts := before.readReceipts) == before
  }

  ghost predicate WasReturned(returned: Returned, id: string) {
    id in returned.tactics + returned.invariants + returned.cases + returned.evidence
  }

  /** kept holds exactly the used ids that were returned, in the order they were used. */
  ghost predicate KeepsReturned(used: seq<string>, returned: Returned, kept: seq<string>) {
    Picks(used, id => WasReturned(returned, id), kept)
  }

  ghost predicate SomeReturned(used: seq<string>, returned: Returned) {
    exists id <- used :: WasReturned(returned, id)
  }

  ghost predicate OnlyReturned(linked: seq<string>, used: seq<string>, returned: Returned) {
    forall id <- linked :: id in used && WasReturned(returned, id)
  }

  ghost predicate UsageEffect(before: Artifact, usedAt: int, used: seq<string>, selected: seq<string>,
                              linked: seq<string>, useEvidence: Json, result: Result<Artifact, UpdateError>)
  {
    if !OnlyReturned(linked, used, before.returned) then result == Failure(EvidenceNotUsed)
    else
      && result.Success?
      && var usage := result.value.usage;
         && usage.recordedAt == Some(usedAt) && usage.used == used && usage.selected == selected
         && usage.evidence == Some(useEvidence)
         && KeepsReturned(used, before.returned, usage.usedReturned)
         && (usage.usedMemory <==> SomeReturned(used, before.returned))
         && result.value.(usage := before.usage) == before
  }

  /** What an update does to an artifact, or why it is refused. */
  ghost predicate Effect(policy: Policy, before: Artifact, update: Update, result: Result<Artifact, UpdateError>) {
    match update
    case ObserveGate(observation) => ObserveEffect(before, observation, result)
    case Decide(decision, reason, trigger, now) => DecideEffect(policy, before, decision, reason, trigger, now, result)
    case StartAttempt(attempt, request) => StartEffect(before, attempt, request, result)
    case FinishAttempt(failed, cancelled, finishedAt, details, outcome) =>
      FinishEffect(before, Ending(failed, cancelled, finishedAt, details, outcome), result)
    case ReadRecords(bound, receipt) => ReadEffect(before, bound, receipt, result)
    case RecordUsage(usedAt, used, selected, linked, useEvidence) =>
      UsageEffect(before, usedAt, used, selected, linked, useEvidence, result)
  }

  /** How the retrieval itself went. */
  datatype Ending = Ending(failed: bool, cancelled: bool, finishedAt: int, details: Json,
                           outcome: Option<RetrievalOutcome>)
  {
    function Update(): Update {
      FinishAttempt(failed, cancelled, finishedAt, details, outcome)
    }
  }

  // ---------------------------------------------------------------- every update has its effect

  /** The error of an update, or the artifact it leaves. */
  function Outcome(policy: Policy, a: Artifact, update: Update): Result<Artifact, UpdateError> {
    var step := Step(policy, a, update);
    if step.Failure? then Failure(step.error) else Success(Commit(policy, a, update))
  }

  lemma ObserveHasEffect(policy: Policy, a: Artifact, update: Update)
    requires update.ObserveGate?
    ensures ObserveEffect(a, update.observation, Outcome(policy, a, update))
  {
  }

  lemma DecideHasEffect(policy: Policy, a: Artifact, update: Update)
    requires update.Decide?
    ensures DecideEffect(policy, a, update.decision, update.reason, update.trigger, update.now,
                         Outcome(policy, a, update))
  {
  }

  lemma StartHasEffect(policy: Policy, a: Artifact, update: Update)
    requires update.StartAttempt?
    ensures StartEffect(a, update.attempt, update.startedRequest, Outcome(policy, a, update))
  {
  }

  lemma FinishHasEffect(policy: Policy, a: Artifact, ending: Ending)
    ensures FinishEffect(a, ending, Outcome(policy, a, ending.Update()))
  {
  }

  lemma LastReceipt(prefix: seq<Receipt>, last: Receipt)
    ensures DistinctReceipts(prefix + [last]) <==> DistinctReceipts(prefix) && !HasReceipt(prefix, last.receiptId)
  {
    var receipts := prefix + [last];
    assert forall i :: 0 <= i < |prefix| ==> receipts[i] == prefix[i];
    if HasReceipt(prefix, last.receiptId) {
      var i :| 0 <= i < |prefix| && prefix[i].receiptId == last.receiptId;
      assert receipts[i].receiptId == receipts[|prefix|].receiptId;
    }
    if DistinctReceipts(receipts) {
      forall i, j | 0 <= i < j < |prefix|
        ensures prefix[i].receiptId != prefix[j].receiptId
      {
        assert receipts[i].receiptId != receipts[j].receiptId;
      }
    }
  }

  lemma ReceiptIsMapped(receipts: seq<Receipt>, id: string)
    ensures id in ReceiptMap(receipts) <==> HasReceipt(receipts, id)
  {
  }

  lemma MapCounts(prefix: seq<Receipt>, last: Receipt)
    ensures |ReceiptMap(prefix + [last])|
         == |ReceiptMap(prefix)| + if HasReceipt(prefix, last.receiptId) then 0 else 1
  {
    ReceiptIsMapped(prefix, last.receiptId);
    assert (prefix + [last])[..|prefix|] == prefix;
    var before, after := ReceiptMap(prefix), ReceiptMap(prefix + [last]);
    assert after.Keys == before.Keys + {last.receiptId};
    assert |before| == |before.Keys| && |after| == |after.Keys|;
    if last.receiptId in before {
      assert after.Keys == before.Keys;
    }
  }

  lemma NoReceipts()
    ensures |ReceiptMap([])| == 0 && DistinctReceipts([])
  {
  }

  lemma {:induction false} DistinctExactlyWhenCounted(receipts: seq<Receipt>)
    ensures |ReceiptMap(receipts)| <= |receipts|
    ensures |ReceiptMap(receipts)| == |receipts| <==> DistinctReceipts(receipts)
  {
    hide ReceiptMap, DistinctReceipts, HasReceipt;
    if receipts == [] {
      NoReceipts();
    } else {
      var n := |receipts| - 1;
      DistinctExactlyWhenCounted(receipts[..n]);
      assert receipts == receipts[..n] + [receipts[n]];
      LastReceipt(receipts[..n], receipts[n]);
      MapCounts(receipts[..n], receipts[n]);
    }
  }

  lemma ReadHasEffect(policy: Policy, a: Artifact, update: Update)
    requires update.ReadRecords?
    ensures ReadEffect(a, update.bound, update.receipt, Outcome(policy, a, update))
  {
    hide ReceiptMap, DistinctReceipts, HasReceipt;
    DistinctExactlyWhenCounted(a.readReceipts);
    ReceiptIsMapped(a.readReceipts, update.receipt.receiptId);
  }

  lemma {:induction false} KeepKeepsReturned(used: seq<string>, returned: Returned)
    ensures KeepsReturned(used, returned, Keep(used, returned))
  {
    hide WasReturned, Picks;
    if used == [] {
      NothingPicked((id: string) => WasReturned(returned, id));
    } else {
      var n := |used| - 1;
      KeepKeepsReturned(used[..n], returned);
      PickOneMore(used[..n], id => WasReturned(returned, id), Keep(used[..n], returned), used[n]);
      KeepSnoc(used[..n], returned, used[n]);
      assert used == used[..n] + [used[n]];
    }
  }

  lemma KeepSnoc(used: seq<string>, returned: Returned, last: string)
    ensures Keep(used + [last], returned)
         == if WasReturned(returned, last) then Keep(used, returned) + [last] else Keep(used, returned)
  {
    assert (used + [last])[..|used|] == used;
  }

  lemma {:induction false} KeepHolds(used: seq<string>, returned: Returned)
    ensures forall id :: id in Keep(used, returned) <==> id in used && WasReturned(returned, id)
  {
    if used != [] {
      KeepHolds(used[..|used| - 1], returned);
      assert used == used[..|used| - 1] + [used[|used| - 1]];
    }
  }

  lemma UsageHasEffect(policy: Policy, a: Artifact, update: Update)
    requires update.RecordUsage?
    ensures UsageEffect(a, update.usedAt, update.used, update.selected, update.linked, update.useEvidence,
                        Outcome(policy, a, update))
  {
    hide Keep, WasReturned, OnlyReturned, SomeReturned, KeepsReturned;
    KeptOutcome(update.used, update.linked, a.returned);
  }

  lemma KeptOutcome(used: seq<string>, linked: seq<string>, returned: Returned)
    ensures KeepsReturned(used, returned, Keep(used, returned))
    ensures Keep(used, returned) != [] <==> SomeReturned(used, returned)
    ensures (exists id :: id in linked && id !in Keep(used, returned)) <==> !OnlyReturned(linked, used, returned)
  {
    hide Keep, WasReturned, KeepsReturned;
    var kept := Keep(used, returned);
    KeepKeepsReturned(used, returned);
    KeepHolds(used, returned);
    assert kept != [] ==> kept[0] in kept;
  }

  /** Every update has exactly its effect on every artifact. */
  lemma UpdatesHaveTheirEffect(policy: Policy, a: Artifact, update: Update)
    ensures Effect(policy, a, update, Outcome(policy, a, update))
  {
    hide Outcome, ObserveEffect, DecideEffect, StartEffect, FinishEffect, ReadEffect, UsageEffect;
    match update {
      case ObserveGate(_) => ObserveHasEffect(policy, a, update);
      case Decide(_, _, _, _) => DecideHasEffect(policy, a, update);
      case StartAttempt(_, _) => StartHasEffect(policy, a, update);
      case FinishAttempt(failed, cancelled, finishedAt, details, outcome) =>
        FinishHasEffect(policy, a, Ending(failed, cancelled, finishedAt, details, outcome));
      case ReadRecords(_, _) => ReadHasEffect(policy, a, update);
      case RecordUsage(_, _, _, _, _) => UsageHasEffect(policy, a, update);
    }
  }
}
