/**
 What the report's pairwise test finds: each reason said of the two deliveries, and what deliveries
 without a conflict agree on.
 */
module DeliveryFacts {
  import opened Common
  import opened InvocationArtifacts
  import opened DeliveryReport

  /** Where an artifact comes from is never rewritten. */
  ghost predicate SameOrigin(l: Artifact, r: Artifact) {
    && l.invocationId == r.invocationId && l.workspaceId == r.workspaceId && l.catalogRoot == r.catalogRoot
    && l.markerPath == r.markerPath && l.consultedAt == r.consultedAt && l.taskId == r.taskId
    && (l.telemetry.Some? <==> r.telemetry.Some?)
    && (l.telemetry.Some? ==>
          && l.telemetry.value.schemaVersion == r.telemetry.value.schemaVersion
          && SameOccasion(l.telemetry.value.opportunity, r.telemetry.value.opportunity))
  }

  ghost predicate SameOccasion(l: Option<Opportunity>, r: Option<Opportunity>) {
    && (l.Some? <==> r.Some?)
    && (l.Some? ==>
          && l.value.opportunityId == r.value.opportunityId && l.value.binding == r.value.binding
          && l.value.attribution == r.value.attribution && l.value.identityBasis == r.value.identityBasis
          && l.value.captureBoundary == r.value.captureBoundary)
  }

  ghost predicate SameStart(l: Attempt, r: Attempt) {
    && l.attemptId == r.attemptId && l.invocationId == r.invocationId && l.retryOf == r.retryOf
    && l.trigger == r.trigger && l.context == r.context && l.startedAt == r.startedAt
  }

  ghost predicate HasAttempt(a: Artifact) {
    a.telemetry.Some? && a.telemetry.value.attempt.Some?
  }

  ghost predicate HasEnded(a: Artifact) {
    HasAttempt(a) && a.telemetry.value.attempt.value.status != Running
  }

  ghost predicate HasOpportunity(a: Artifact) {
    a.telemetry.Some? && a.telemetry.value.opportunity.Some?
  }

  ghost predicate HasDecided(a: Artifact) {
    HasOpportunity(a) && a.telemetry.value.opportunity.value.decision != Pending
  }

  /** The receipt that counts for an id: the last one under it. */
  ghost predicate HoldsReceipt(receipts: seq<Receipt>, receipt: Receipt) {
    exists i :: 0 <= i < |receipts| && receipts[i] == receipt
                && forall j :: i < j < |receipts| ==> receipts[j].receiptId != receipt.receiptId
  }

  ghost predicate LacksReceipt(l: seq<Receipt>, r: seq<Receipt>) {
    exists mine <- l :: forall yours <- r :: yours.receiptId != mine.receiptId
  }

  /** What is recorded in one delivery is recorded in the other. */
  ghost predicate Advances(before: Artifact, after: Artifact) {
    && (before.usage.recordedAt != None ==> after.usage.recordedAt != None)
    && !LacksReceipt(before.readReceipts, after.readReceipts)
    && (HasAttempt(before) ==> HasAttempt(after)) && (HasEnded(before) && HasAttempt(after) ==> HasEnded(after))
    && (HasDecided(before) && HasOpportunity(after) ==> HasDecided(after))
    && (HasOpportunity(before) && before.telemetry.value.opportunity.value.gateObservation != None ==>
          HasOpportunity(after) && after.telemetry.value.opportunity.value.gateObservation != None)
  }

  ghost predicate Conflicts(l: Artifact, r: Artifact, reason: Reason) {
    match reason
    case ImmutableIdentityConflict => !SameOrigin(l, r)
    case AttemptIdentityConflict =>
      HasAttempt(l) && HasAttempt(r) && !SameStart(l.telemetry.value.attempt.value, r.telemetry.value.attempt.value)
    case TerminalAttemptConflict =>
      HasEnded(l) && HasEnded(r) && l.telemetry.value.attempt != r.telemetry.value.attempt
    case OpportunityDecisionConflict =>
      && HasDecided(l) && HasDecided(r)
      && l.telemetry.value.opportunity.value.decision != r.telemetry.value.opportunity.value.decision
    case RequestIdentityConflict => l.request != None && r.request != None && l.request != r.request
    case RetrievalResultConflict =>
      HasEnded(l) && HasEnded(r) && !(l.returned == r.returned && l.retrievalBasis == r.retrievalBasis)
    case UsageCallbackConflict => l.usage.recordedAt != None && r.usage.recordedAt != None && l.usage != r.usage
    case ReadReceiptConflict =>
      exists a, b :: HoldsReceipt(l.readReceipts, a) && HoldsReceipt(r.readReceipts, b)
                     && a.receiptId == b.receiptId && a != b
    case ReadReceiptFork => LacksReceipt(l.readReceipts, r.readReceipts) && LacksReceipt(r.readReceipts, l.readReceipts)
    case IncomparableProgression => !Advances(l, r) && !Advances(r, l)
  }

  lemma {:induction false} MapHoldsReceipts(receipts: seq<Receipt>, receipt: Receipt)
    ensures HoldsReceipt(receipts, receipt) <==>
              receipt.receiptId in ReceiptMap(receipts) && ReceiptMap(receipts)[receipt.receiptId] == receipt
  {
    if receipts != [] {
      var n := |receipts| - 1;
      var prefix, last := receipts[..n], receipts[n];
      MapHoldsReceipts(prefix, receipt);
      LastReceiptCounts(prefix, last, receipt);
      assert receipts == prefix + [last];
      hide HoldsReceipt;
    }
  }

  lemma LastReceiptCounts(prefix: seq<Receipt>, last: Receipt, receipt: Receipt)
    ensures HoldsReceipt(prefix + [last], receipt) <==>
              receipt == last || (receipt.receiptId != last.receiptId && HoldsReceipt(prefix, receipt))
  {
    var receipts := prefix + [last];
    if i :| 0 <= i < |receipts| && receipts[i] == receipt
            && forall j :: i < j < |receipts| ==> receipts[j].receiptId != receipt.receiptId {
      if i < |prefix| {
        assert receipts[|prefix|] == last && prefix[i] == receipt;
        assert forall j :: i < j < |prefix| ==> receipts[j] == prefix[j];
      }
    }
    if receipt == last {
      assert receipts[|prefix|] == receipt;
    }
    if i :| 0 <= i < |prefix| && prefix[i] == receipt
            && forall j :: i < j < |prefix| ==> prefix[j].receiptId != receipt.receiptId {
      if receipt.receiptId != last.receiptId {
        assert receipts[i] == receipt;
        assert forall j :: i < j < |receipts| ==> receipts[j] == if j < |prefix| then prefix[j] else last;
      }
    }
  }

  lemma DisagreementIsOfReceipts(l: Artifact, r: Artifact)
    ensures ReceiptsDisagree(l, r) <==> Conflicts(l, r, ReadReceiptConflict)
  {
    var lr, rr := ReceiptMap(l.readReceipts), ReceiptMap(r.readReceipts);
    hide ReceiptMap, HoldsReceipt;
    forall receipt: Receipt
      ensures HoldsReceipt(l.readReceipts, receipt) <==> receipt.receiptId in lr && lr[receipt.receiptId] == receipt
    {
      MapHoldsReceipts(l.readReceipts, receipt);
    }
    forall receipt: Receipt
      ensures HoldsReceipt(r.readReceipts, receipt) <==> receipt.receiptId in rr && rr[receipt.receiptId] == receipt
    {
      MapHoldsReceipts(r.readReceipts, receipt);
    }
    if id :| id in lr && id in rr && lr[id] != rr[id] {
      assert HoldsReceipt(l.readReceipts, lr[id]) && HoldsReceipt(r.readReceipts, rr[id]);
    }
  }

  lemma LackingIsMissing(l: seq<Receipt>, r: seq<Receipt>)
    ensures LacksReceipt(l, r) <==> !(ReceiptMap(l).Keys <= ReceiptMap(r).Keys)
  {
    var lr, rr := ReceiptMap(l), ReceiptMap(r);
    if mine :| mine in l && forall yours <- r :: yours.receiptId != mine.receiptId {
      assert mine.receiptId in lr.Keys && mine.receiptId !in rr.Keys;
    }
    if !(lr.Keys <= rr.Keys) {
      var id :| id in lr.Keys && id !in rr.Keys;
      assert lr[id] in l;
    }
  }

  lemma ProgressionAdvances(before: Artifact, after: Artifact)
    ensures IsProgression(before, after) <==> Advances(before, after)
  {
    hide ReceiptMap, LacksReceipt;
    LackingIsMissing(before.readReceipts, after.readReceipts);
  }

  lemma OriginIsImmutable(l: Artifact, r: Artifact)
    ensures Immutable(l) == Immutable(r) <==> SameOrigin(l, r)
  {
  }

  lemma AttemptReasons(l: Artifact, r: Artifact)
    ensures var a, b := l.Attempt(), r.Attempt();
            var reasons := DeliveryConflicts(l, r);
            && (ImmutableIdentityConflict in reasons <==> Immutable(l) != Immutable(r))
            && (AttemptIdentityConflict in reasons <==> a.Some? && b.Some? && !SameAttemptIdentity(a.value, b.value))
            && (TerminalAttemptConflict in reasons <==> Terminal(a) && Terminal(b) && a != b)
  {
    hide When, Immutable, SameAttemptIdentity, Terminal, DecisionsDisagree, RequestsDisagree, UsagesDisagree,
         ReceiptsDisagree, ReceiptsFork, IsProgression;
  }

  lemma ResultReasons(l: Artifact, r: Artifact)
    ensures var a, b := l.Attempt(), r.Attempt();
            var reasons := DeliveryConflicts(l, r);
            && (OpportunityDecisionConflict in reasons <==> DecisionsDisagree(l, r))
            && (RequestIdentityConflict in reasons <==> RequestsDisagree(l, r))
            && (RetrievalResultConflict in reasons <==>
                  Terminal(a) && Terminal(b) && (l.returned != r.returned || l.retrievalBasis != r.retrievalBasis))
  {
    hide When, Immutable, SameAttemptIdentity, Terminal, DecisionsDisagree, RequestsDisagree, UsagesDisagree,
         ReceiptsDisagree, ReceiptsFork, IsProgression;
  }

  lemma RecordReasons(l: Artifact, r: Artifact)
    ensures var reasons := DeliveryConflicts(l, r);
            && (UsageCallbackConflict in reasons <==> UsagesDisagree(l, r))
            && (ReadReceiptConflict in reasons <==> ReceiptsDisagree(l, r))
            && (ReadReceiptFork in reasons <==> ReceiptsFork(l, r))
            && (IncomparableProgression in reasons <==> !IsProgression(l, r) && !IsProgression(r, l))
  {
    hide When, Immutable, SameAttemptIdentity, Terminal, DecisionsDisagree, RequestsDisagree, UsagesDisagree,
         ReceiptsDisagree, ReceiptsFork, IsProgression;
  }

  lemma ForkIsOfReceipts(l: Artifact, r: Artifact)
    ensures ReceiptsFork(l, r) <==> Conflicts(l, r, ReadReceiptFork)
  {
    hide ReceiptMap, LacksReceipt;
    LackingIsMissing(l.readReceipts, r.readReceipts);
    LackingIsMissing(r.readReceipts, l.readReceipts);
  }

  /** Two deliveries conflict for a reason exactly when it applies to them. */
  lemma ConflictsExactly(l: Artifact, r: Artifact, reason: Reason)
    ensures reason in DeliveryConflicts(l, r) <==> Conflicts(l, r, reason)
  {
    hide DeliveryConflicts, Immutable, SameOrigin, ReceiptsDisagree, ReceiptsFork, HoldsReceipt, LacksReceipt,
         IsProgression, Advances;
    AttemptReasons(l, r);
    ResultReasons(l, r);
    RecordReasons(l, r);
    match reason
    case ImmutableIdentityConflict => OriginIsImmutable(l, r);
    case ReadReceiptConflict => DisagreementIsOfReceipts(l, r);
    case ReadReceiptFork => ForkIsOfReceipts(l, r);
    case IncomparableProgression =>
      ProgressionAdvances(l, r);
      ProgressionAdvances(r, l);
    case _ =>
  }

  /** Deliveries without a conflict tell one story: one of them has everything the other has. */
  lemma ConflictFreeDeliveriesAgree(l: Artifact, r: Artifact)
    requires DeliveryConflicts(l, r) == {}
    ensures SameOrigin(l, r) && (Advances(l, r) || Advances(r, l))
    ensures HasAttempt(l) && HasAttempt(r) ==>
              SameStart(l.telemetry.value.attempt.value, r.telemetry.value.attempt.value)
    ensures HasEnded(l) && HasEnded(r) ==>
              && l.telemetry.value.attempt == r.telemetry.value.attempt
              && l.returned == r.returned && l.retrievalBasis == r.retrievalBasis
    ensures HasDecided(l) && HasDecided(r) ==>
              l.telemetry.value.opportunity.value.decision == r.telemetry.value.opportunity.value.decision
    ensures l.usage.recordedAt != None && r.usage.recordedAt != None ==> l.usage == r.usage
    ensures forall a, b ::
              HoldsReceipt(l.readReceipts, a) && HoldsReceipt(r.readReceipts, b) && a.receiptId == b.receiptId ==>
                a == b
  {
    hide DeliveryConflicts, SameOrigin, HoldsReceipt, LacksReceipt, Advances, SameStart;
    forall reason
      ensures !Conflicts(l, r, reason)
    {
      ConflictsExactly(l, r, reason);
    }
    assert !Conflicts(l, r, ImmutableIdentityConflict) && !Conflicts(l, r, AttemptIdentityConflict);
    assert !Conflicts(l, r, TerminalAttemptConflict) && !Conflicts(l, r, OpportunityDecisionConflict);
    assert !Conflicts(l, r, RetrievalResultConflict) && !Conflicts(l, r, UsageCallbackConflict);
    assert !Conflicts(l, r, ReadReceiptConflict) && !Conflicts(l, r, IncomparableProgression);
  }
}
