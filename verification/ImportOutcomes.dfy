/**
 * What becomes of each candidate of an import: which outcome it leaves under which conditions, what it
 * changes with it, and what the snapshots a run stores hold.
 */
module ImportOutcomes {
  import opened Common
  import opened RolloutSnapshots
  import opened RolloutImport
  import VisibleMessages

  // ----- what a parsed rollout carries -----

  /** The time of the last message that carries one, else of the session, when it is a date. */
  ghost predicate CarriesTime(timeOf: TimeOf, h: Header, messages: seq<Message>, at: int) {
    var n := |messages|;
    var stamp := if n > 0 && messages[n - 1].timestamp != None then messages[n - 1].timestamp else h.startedAt;
    at == if stamp != None && timeOf(stamp.value) != None then timeOf(stamp.value).value else h.observedAt
  }

  /** The visible messages in order, and a coverage that is never supported when the thread is inherited. */
  ghost predicate Carries(timeOf: TimeOf, h: Header, x: VisibleMessages.Extraction, parsed: Parsed) {
    && parsed.thread == h.thread && parsed.sourceHash == h.sourceHash && parsed.sourcePath == h.sourcePath
    && parsed.observedAt == h.observedAt && parsed.isArchived == h.isArchived && parsed.workspace == h.workspace
    && parsed.insideRoots == h.insideRoots && (parsed.legacyFormat <==> x.format == VisibleMessages.LegacyOnly)
    && |parsed.messages| == |x.visible|
    && (forall i :: 0 <= i < |x.visible| ==>
          parsed.messages[i] == Message(x.visible[i].sequence, x.visible[i].timestamp,
                                        if x.visible[i].role == VisibleMessages.User then "user" else "assistant",
                                        x.visible[i].phase, x.visible[i].text))
    && CarriesTime(timeOf, h, parsed.messages, parsed.lastVisibleAt)
    && parsed.coverage == (if !h.inherited then x.coverage
                           else if |x.visible| > 0 then VisibleMessages.Partial else VisibleMessages.Unsupported)
  }

  /** A parsed rollout carries its header and what its events show. */
  lemma ParsedCarries(timeOf: TimeOf, h: Header, events: seq<VisibleMessages.LineEvent>)
    ensures Carries(timeOf, h, VisibleMessages.Extracted(ValidTimes(timeOf), h.thread, events),
                    ParsedFrom(timeOf, h, events))
  {
    hide VisibleMessages.Extracted;
  }

  // ----- when a snapshot is due, and what it holds -----

  /** Where the final answers of an assistant are. */
  ghost function FinalPlaces(messages: seq<Message>): set<nat> {
    set i: nat | i < |messages| && messages[i].role == "assistant" && messages[i].phase == Some("final_answer")
  }

  /** The stored snapshot should have contained messages that it does not show. */
  ghost predicate Contradicts(parsed: Parsed, latest: Option<Snapshot>) {
    && latest.Some? && latest.value.metadata.messages != parsed.messages
    && (latest.value.record.sourceHash == parsed.sourceHash || latest.value.record.capturedAt >= parsed.lastVisibleAt)
  }

  ghost predicate MoreAnswers(parsed: Parsed, stored: Metadata) {
    stored.finalAnswers < |FinalPlaces(parsed.messages)|
  }

  ghost predicate NewlyArchived(parsed: Parsed, stored: Metadata) {
    parsed.isArchived && !stored.isArchived
  }

  ghost predicate HundredMore(parsed: Parsed, stored: Metadata) {
    stored.messageCount + 100 <= |parsed.messages|
  }

  /** The first reason that applies, of those a snapshot is taken for. */
  ghost predicate Due(parsed: Parsed, latest: Option<Snapshot>, reason: Reason) {
    if latest.None? then reason == FirstSeen
    else
      var stored := latest.value.metadata;
      match reason
      case FirstSeen => false
      case NewFinalAnswer => MoreAnswers(parsed, stored)
      case ThreadArchived => NewlyArchived(parsed, stored) && !MoreAnswers(parsed, stored)
      case MessageThreshold =>
        HundredMore(parsed, stored) && !NewlyArchived(parsed, stored) && !MoreAnswers(parsed, stored)
      case AgeThreshold =>
        && parsed.lastVisibleAt - latest.value.record.capturedAt >= 7 * 24 * 60 * 60 * 1000
        && !HundredMore(parsed, stored) && !NewlyArchived(parsed, stored) && !MoreAnswers(parsed, stored)
  }

  /** An archived thread's snapshot is taken when the file was seen, but always after the last one. */
  ghost predicate Stamped(parsed: Parsed, latest: Option<Snapshot>, reason: Reason, at: int) {
    if reason != ThreadArchived then at == parsed.lastVisibleAt
    else
      && parsed.lastVisibleAt <= at && parsed.observedAt <= at
      && (latest.Some? ==> latest.value.record.capturedAt < at)
      && (at == parsed.lastVisibleAt || at == parsed.observedAt
          || (latest.Some? && at == latest.value.record.capturedAt + 1))
  }

  /** The record of a snapshot carries its source, its messages and its place in the chain of its thread. */
  ghost predicate Describes(r: Record, parsed: Parsed, reason: Reason, at: int, parent: Option<EvidenceId>) {
    && r.id == SnapshotId(parsed.thread, at) && r.thread == Some(parsed.thread) && r.capturedAt == at
    && r.sourceHash == parsed.sourceHash && r.sourcePath == parsed.sourcePath && r.workspace == parsed.workspace
    && r.payload == SnapshotBytes(Payload(parsed, at, reason))
    && r.parent == parent && r.correctionOf == None
  }

  ghost predicate Shows(m: Metadata, parsed: Parsed) {
    && m.messages == parsed.messages && m.messageCount == |parsed.messages|
    && m.finalAnswers == |FinalPlaces(parsed.messages)| && m.isArchived == parsed.isArchived
  }

  /** The current record is the snapshot, possibly corrected, or an older form of it with the same messages. */
  ghost predicate AlreadyStored(catalog: Catalog, current: Record, r: Record, parsed: Parsed) {
    && current.thread == r.thread && current.capturedAt == r.capturedAt && current.sourceHash == r.sourceHash
    && current.sourcePath == r.sourcePath && current.workspace == r.workspace
    && ((current.payload == r.payload && current.parent == r.parent)
        || (parsed.legacyFormat && catalog.metadata(current).messages == parsed.messages))
  }

  // ----- what a candidate leaves behind -----

  ghost predicate Leaves(before: Run, after: Run, path: string, outcome: Outcome, thread: Option<string>,
                         planned: Option<EvidenceId>) {
    after.entries == before.entries + [Entry(path, outcome, thread, planned)]
  }

  /** The ledger remembers the outcome, unless the run is dry. */
  ghost predicate Marks(setting: Setting, before: Run, after: Run, path: string, outcome: Outcome) {
    after.ledger == if setting.dryRun then before.ledger else before.ledger[path := outcome]
  }

  ghost predicate StoresNothing(before: Run, after: Run) {
    after.latest == before.latest && after.payloads == before.payloads && after.written == before.written
      && after.links == before.links
  }

  /** The candidate goes no further than this outcome. */
  ghost predicate Stops(before: Run, after: Run, path: string, outcome: Outcome, thread: Option<string>,
                        planned: Option<EvidenceId>)
  {
    && StoresNothing(before, after) && Leaves(before, after, path, outcome, thread, planned)
    && after.counted == before.counted + [outcome]
  }

  /** An accepted snapshot becomes the latest and is linked, unless its link fails. */
  ghost predicate Accepts(setting: Setting, before: Run, after: Run, fault: Fault, path: string, outcome: Outcome,
                          parsed: Parsed, r: Record, id: EvidenceId)
  {
    if fault == LinkFault && !setting.dryRun && !setting.pinned then
      && after.latest == before.latest && after.links == before.links && after.ledger == before.ledger
      && Leaves(before, after, path, LinkFailed, Some(parsed.thread), Some(id))
      && after.counted == before.counted + [outcome, LinkFailed]
    else
      && parsed.thread in after.latest && after.latest[parsed.thread].record == r
      && Shows(after.latest[parsed.thread].metadata, parsed)
      && after.latest - {parsed.thread} == before.latest - {parsed.thread}
      && after.links == before.links + (if setting.dryRun || setting.pinned then [] else [(parsed.thread, id)])
      && Marks(setting, before, after, path, outcome)
      && Leaves(before, after, path, outcome, Some(parsed.thread), Some(id))
      && after.counted == before.counted + [outcome]
  }

  ghost predicate Stores(setting: Setting, before: Run, after: Run, fault: Fault, path: string, parsed: Parsed,
                         r: Record)
  {
    if setting.dryRun then
      && after.payloads == before.payloads && after.written == before.written
      && Accepts(setting, before, after, fault, path, Planned, parsed, r, r.id)
    else if fault == PayloadFault then
      after.ledger == before.ledger && Stops(before, after, path, Errored, Some(parsed.thread), Some(r.id))
    else
      && after.payloads == before.payloads[r.id := r.payload]
      && (if fault == RecordFault || exists w <- before.written :: w.id == r.id then
            && after.ledger == before.ledger
            && Stops(before.(payloads := after.payloads), after, path, Errored, Some(parsed.thread), Some(r.id))
          else
            && after.written == before.written + [r]
            && Accepts(setting, before, after, fault, path, Imported, parsed, r, r.id))
  }

  /** A new snapshot, one the catalog has, or one that conflicts with it or with what is on disk. */
  ghost predicate Compares(setting: Setting, before: Run, after: Run, fault: Fault, path: string, parsed: Parsed,
                           r: Record)
  {
    if r.id in setting.catalog.current then
      var current := setting.catalog.current[r.id];
      if AlreadyStored(setting.catalog, current, r, parsed) then
        && after.payloads == before.payloads && after.written == before.written
        && Accepts(setting, before, after, fault, path, SkippedExisting, parsed, current, r.id)
      else
        after.ledger == before.ledger && Stops(before, after, path, RecordMismatch, Some(parsed.thread), Some(r.id))
    else if r.id in before.payloads && before.payloads[r.id] != r.payload then
      after.ledger == before.ledger && Stops(before, after, path, PayloadMismatch, Some(parsed.thread), Some(r.id))
    else Stores(setting, before, after, fault, path, parsed, r)
  }

  ghost predicate ParentAmong(latest: Option<Snapshot>, id: EvidenceId, parent: Option<EvidenceId>) {
    if latest.None? || latest.value.record.id == id then parent == None else parent == Some(latest.value.record.id)
  }

  ghost predicate SnapshotOutcome(setting: Setting, before: Run, after: Run, fault: Fault, path: string,
                                  parsed: Parsed, r: Record)
  {
    if r.id in before.seen then
      var outcome := if before.seen[r.id] == parsed.sourceHash then SkippedDuplicateSource else DuplicateConflict;
      && Stops(before, after, path, outcome, Some(parsed.thread), Some(r.id)) && after.seen == before.seen
      && (outcome == SkippedDuplicateSource ==> Marks(setting, before, after, path, outcome))
      && (outcome == DuplicateConflict ==> after.ledger == before.ledger)
    else
      && after.seen == before.seen[r.id := parsed.sourceHash]
      && Compares(setting, before, after, fault, path, parsed, r)
  }

  /** The snapshot that is due, when one is. */
  ghost predicate IsPlanned(parsed: Parsed, latest: Option<Snapshot>, r: Record) {
    exists reason, at, parent ::
      && Due(parsed, latest, reason) && Stamped(parsed, latest, reason, at)
      && ParentAmong(latest, SnapshotId(parsed.thread, at), parent) && Describes(r, parsed, reason, at, parent)
  }

  ghost predicate Readable(parsed: Parsed) {
    parsed.coverage == VisibleMessages.Supported || parsed.coverage == VisibleMessages.NoVisibleMessages
  }

  ghost predicate RolloutOutcome(setting: Setting, before: Run, after: Run, fault: Fault, path: string,
                                 parsed: Parsed)
  {
    var latest := if parsed.thread in before.latest then Some(before.latest[parsed.thread]) else None;
    var thread := Some(parsed.thread);
    if !parsed.insideRoots then
      && after.ledger == before.ledger && after.eligible == before.eligible && after.seen == before.seen
      && Stops(before, after, path, SkippedWorkspaceFilter, thread, None)
    else if Readable(parsed) && Contradicts(parsed, latest) then
      && after.ledger == before.ledger && after.eligible == before.eligible && after.seen == before.seen
      && Stops(before, after, path, RepairRequired, thread, None)
    else if !Readable(parsed) || parsed.messages == [] then
      var outcome :=
        if parsed.coverage == VisibleMessages.Unsupported then RejectedUnsupported
        else if parsed.coverage == VisibleMessages.Partial then RejectedPartial
        else SkippedNoVisibleMessages;
      && Marks(setting, before, after, path, outcome) && after.eligible == before.eligible && after.seen == before.seen
      && Stops(before, after, path, outcome, thread, None)
    else if forall reason :: !Due(parsed, latest, reason) then
      && Marks(setting, before, after, path, SkippedCheckpoint) && after.eligible == before.eligible + 1
      && after.seen == before.seen && Stops(before, after, path, SkippedCheckpoint, thread, None)
    else
      && after.eligible == before.eligible + 1
      && exists r :: IsPlanned(parsed, latest, r) && SnapshotOutcome(setting, before, after, fault, path, parsed, r)
  }

  /** What one candidate does to a run. */
  ghost predicate CandidateOutcome(setting: Setting, before: Run, after: Run, fault: Fault, source: Source) {
    if source.remembered.Some? then
      var cached := source.remembered.value;
      && Stops(before, after, source.path, SkippedUnchanged, None, None)
      && after.ledger == before.ledger && after.seen == before.seen
      && after.eligible == before.eligible
                          + if cached.messageCount > 0 && cached.coverage == VisibleMessages.Supported then 1 else 0
    else if source.read.Read? then RolloutOutcome(setting, before, after, fault, source.path, source.read.parsed)
    else
      && after.ledger == before.ledger && after.seen == before.seen && after.eligible == before.eligible
      && Stops(before, after, source.path, if source.read == Unreadable then Errored else RejectedMalformed, None, None)
  }

  // ----- every candidate has its outcome -----

  lemma OneMorePlace(messages: seq<Message>, m: Message)
    ensures |FinalPlaces(messages + [m])| == |FinalPlaces(messages)| + if IsFinalAnswer(m) then 1 else 0
  {
    var last := if IsFinalAnswer(m) then {|messages|} else {};
    assert FinalPlaces(messages + [m]) == FinalPlaces(messages) + last;
    assert FinalPlaces(messages) !! last;
  }

  lemma {:induction false} FinalAnswersAreCounted(messages: seq<Message>)
    ensures FinalAnswers(messages) == |FinalPlaces(messages)|
  {
    if messages != [] {
      hide FinalPlaces;
      var n := |messages| - 1;
      FinalAnswersAreCounted(messages[..n]);
      OneMorePlace(messages[..n], messages[n]);
      assert messages == messages[..n] + [messages[n]];
    }
  }

  /** A checkpoint is reached exactly when some reason is due, and then it is that one. */
  lemma CheckpointExactlyWhenDue(parsed: Parsed, latest: Option<Snapshot>)
    ensures forall reason :: Checkpoint(parsed, latest) == Some(reason) <==> Due(parsed, latest, reason)
  {
    hide FinalAnswers, FinalPlaces;
    FinalAnswersAreCounted(parsed.messages);
  }

  /** What is planned is the snapshot that is due. */
  lemma PlansWhatIsDue(parsed: Parsed, latest: Option<Snapshot>, reason: Reason)
    requires Checkpoint(parsed, latest) == Some(reason)
    ensures IsPlanned(parsed, latest, RecordFor(parsed, PlanFor(parsed, latest, reason), latest))
    ensures RecordFor(parsed, PlanFor(parsed, latest, reason), latest).id == PlanFor(parsed, latest, reason).id
  {
    var at := CapturedAt(parsed, latest, reason);
    var r := RecordFor(parsed, PlanFor(parsed, latest, reason), latest);
    CheckpointExactlyWhenDue(parsed, latest);
    assert Stamped(parsed, latest, reason, at);
    hide Checkpoint, Due, Stamped, CapturedAt;
    assert ParentAmong(latest, SnapshotId(parsed.thread, at), r.parent) && Describes(r, parsed, reason, at, r.parent);
  }

  lemma RepairExactlyWhenContradicted(parsed: Parsed, latest: Option<Snapshot>)
    ensures RequiresRepair(parsed, latest) <==> Contradicts(parsed, latest)
  {
  }

  lemma SettledIsAccepted(setting: Setting, run: Run, fault: Fault, entry: Entry, parsed: Parsed, r: Record,
                          payload: Payload)
    requires entry.thread == Some(parsed.thread) && entry.planned.Some? && payload.source == parsed
    ensures var snapshot := Snapshot(r, MetadataOf(payload));
            var after := Settled(setting, run, fault, entry, parsed.thread, entry.planned.value, snapshot);
            && Accepts(setting, run, after, fault, entry.path, entry.outcome, parsed, r, entry.planned.value)
            && after.seen == run.seen && after.payloads == run.payloads && after.written == run.written
            && after.eligible == run.eligible
  {
    FinalAnswersAreCounted(parsed.messages);
    hide FinalAnswers, FinalPlaces;
  }

  /** Everything but latest, links and the marks of the outcome may have changed before it is accepted. */
  lemma AcceptedBefore(setting: Setting, before: Run, run: Run, after: Run, fault: Fault, path: string,
                       outcome: Outcome, parsed: Parsed, r: Record, id: EvidenceId)
    requires Accepts(setting, run, after, fault, path, outcome, parsed, r, id)
    requires run.latest == before.latest && run.links == before.links && run.ledger == before.ledger
    requires run.entries == before.entries && run.counted == before.counted
    ensures Accepts(setting, before, after, fault, path, outcome, parsed, r, id)
  {
  }

  lemma StoppedWritingStores(setting: Setting, before: Run, run: Run, fault: Fault, entry: Entry, parsed: Parsed,
                             plan: Plan, r: Record)
    requires entry.thread == Some(parsed.thread) && entry.planned == Some(r.id) && r.id == plan.id
    requires r.payload == SnapshotBytes(plan.payload)
    requires run == before.(seen := run.seen, eligible := run.eligible) && r.id !in setting.catalog.current
    requires !setting.dryRun && (fault.PayloadFault? || fault.RecordFault? || OnDisk(setting, run, r.id))
    ensures var after := WriteNew(setting, run, fault, entry, plan, r);
            && Stores(setting, before, after, fault, entry.path, parsed, r)
            && after.seen == run.seen && after.eligible == run.eligible
  {
    hide MetadataOf, Settled, Accepts;
  }

  lemma WritingStores(setting: Setting, before: Run, run: Run, fault: Fault, entry: Entry, parsed: Parsed, plan: Plan,
                      r: Record)
    requires entry.thread == Some(parsed.thread) && entry.planned == Some(r.id) && r.id == plan.id
    requires plan.payload.source == parsed && r.payload == SnapshotBytes(plan.payload)
    requires run == before.(seen := run.seen, eligible := run.eligible) && r.id !in setting.catalog.current
    ensures var after := WriteNew(setting, run, fault, entry, plan, r);
            && Stores(setting, before, after, fault, entry.path, parsed, r)
            && after.seen == run.seen && after.eligible == run.eligible
  {
    hide MetadataOf, Settled, Accepts, Stops;
    var payloads := run.payloads[plan.id := SnapshotBytes(plan.payload)];
    var written := run.(payloads := payloads, written := run.written + [r]);
    var after := WriteNew(setting, run, fault, entry, plan, r);
    if setting.dryRun {
      SettledIsAccepted(setting, run, fault, entry.(outcome := Planned), parsed, r, plan.payload);
      AcceptedBefore(setting, before, run, after, fault, entry.path, Planned, parsed, r, r.id);
    } else if fault.PayloadFault? || fault.RecordFault? || OnDisk(setting, run, r.id) {
      StoppedWritingStores(setting, before, run, fault, entry, parsed, plan, r);
    } else {
      SettledIsAccepted(setting, written, fault, entry.(outcome := Imported), parsed, r, plan.payload);
      AcceptedBefore(setting, before, written, after, fault, entry.path, Imported, parsed, r, r.id);
    }
  }

  /** The catalog's verdict tells whether the snapshot is stored, in conflict, or new. */
  lemma JudgedByComparison(catalog: Catalog, payloads: map<EvidenceId, Bytes>, parsed: Parsed, plan: Plan,
                           latest: Option<Snapshot>)
    ensures var r := RecordFor(parsed, plan, latest);
            var verdict := Judge(catalog, payloads, parsed, plan, latest);
            if plan.id in catalog.current then
              verdict == (if AlreadyStored(catalog, catalog.current[plan.id], r, parsed)
                          then KnownSnapshot(catalog.current[plan.id]) else RecordConflict)
            else
              verdict == (if plan.id in payloads && payloads[plan.id] != r.payload then PayloadConflict
                          else NewSnapshot(r))
  {
  }

  /** Settling a marked run on a known snapshot leaves what accepting it leaves. */
  lemma SettlingKnownAccepts(setting: Setting, before: Run, marked: Run, fault: Fault, path: string, parsed: Parsed,
                        plan: Plan, current: Record)
    requires marked == before.(seen := marked.seen, eligible := marked.eligible) && plan.payload.source == parsed
    ensures var entry := Entry(path, SkippedExisting, Some(parsed.thread), Some(plan.id));
            var after := Settled(setting, marked, fault, entry, parsed.thread, plan.id,
                                 Snapshot(current, MetadataOf(plan.payload)));
            && Accepts(setting, before, after, fault, path, SkippedExisting, parsed, current, plan.id)
            && after.payloads == before.payloads && after.written == before.written
            && after.seen == marked.seen && after.eligible == marked.eligible
  {
    hide MetadataOf, Settled, Accepts;
    var entry := Entry(path, SkippedExisting, Some(parsed.thread), Some(plan.id));
    var after := Settled(setting, marked, fault, entry, parsed.thread, plan.id,
                         Snapshot(current, MetadataOf(plan.payload)));
    SettledIsAccepted(setting, marked, fault, entry, parsed, current, plan.payload);
    AcceptedBefore(setting, before, marked, after, fault, path, SkippedExisting, parsed, current, plan.id);
  }

  lemma PlannedHasItsOutcome(setting: Setting, before: Run, run: Run, fault: Fault, path: string, parsed: Parsed,
                             plan: Plan, r: Record)
    requires run == before.(eligible := run.eligible)
    requires r == RecordFor(parsed, plan, LatestOf(run.latest, parsed.thread))
    requires r.id == plan.id && plan.payload.source == parsed && r.payload == SnapshotBytes(plan.payload)
    ensures var after := ImportPlanned(setting, run, fault, path, parsed, plan);
            SnapshotOutcome(setting, before, after, fault, path, parsed, r) && after.eligible == run.eligible
  {
    hide Judge, AlreadyStored, RecordFor, MetadataOf, Settled, WriteNew, Stores, Accepts;
    var entry := Entry(path, SkippedDuplicateSource, Some(parsed.thread), Some(plan.id));
    var marked := run.(seen := run.seen[plan.id := parsed.sourceHash]);
    JudgedByComparison(setting.catalog, run.payloads, parsed, plan, LatestOf(run.latest, parsed.thread));
    if plan.id !in run.seen {
      if plan.id in setting.catalog.current {
        SettlingKnownAccepts(setting, before, marked, fault, path, parsed, plan, setting.catalog.current[plan.id]);
      } else {
        WritingStores(setting, before, marked, fault, entry, parsed, plan, r);
      }
    }
  }

  lemma DueHasItsOutcome(setting: Setting, run: Run, fault: Fault, path: string, parsed: Parsed)
    requires GetsPlanned(run, parsed)
    ensures var latest := LatestOf(run.latest, parsed.thread);
            var after := ImportParsed(setting, run, fault, path, parsed);
            && after.eligible == run.eligible + 1
            && exists r :: IsPlanned(parsed, latest, r) && SnapshotOutcome(setting, run, after, fault, path, parsed, r)
  {
    var latest := LatestOf(run.latest, parsed.thread);
    var plan := PlanOf(run, parsed);
    var r := RecordFor(parsed, plan, latest);
    assert r.payload == SnapshotBytes(plan.payload) && plan.payload.source == parsed;
    PlansWhatIsDue(parsed, latest, Checkpoint(parsed, latest).value);
    ParsedIsPlanned(setting, run, fault, path, parsed);
    PlannedHasItsOutcome(setting, run, run.(eligible := run.eligible + 1), fault, path, parsed, plan, r);
    hide Checkpoint, RequiresRepair, ImportParsed, ImportPlanned, SnapshotOutcome, RecordFor, PlanFor, IsPlanned;
  }

  lemma IdleHasItsOutcome(setting: Setting, run: Run, fault: Fault, path: string, parsed: Parsed)
    requires !GetsPlanned(run, parsed)
    ensures RolloutOutcome(setting, run, ImportParsed(setting, run, fault, path, parsed), fault, path, parsed)
  {
    hide Checkpoint, Due, RequiresRepair, Contradicts, ImportPlanned, SnapshotOutcome, RecordFor, PlanFor, IsPlanned;
    var latest := LatestOf(run.latest, parsed.thread);
    RepairExactlyWhenContradicted(parsed, latest);
    CheckpointExactlyWhenDue(parsed, latest);
  }

  lemma ParsedHasItsOutcome(setting: Setting, run: Run, fault: Fault, path: string, parsed: Parsed)
    ensures RolloutOutcome(setting, run, ImportParsed(setting, run, fault, path, parsed), fault, path, parsed)
  {
    hide Checkpoint, Due, RequiresRepair, Contradicts, ImportParsed, SnapshotOutcome, IsPlanned;
    if GetsPlanned(run, parsed) {
      var latest := LatestOf(run.latest, parsed.thread);
      RepairExactlyWhenContradicted(parsed, latest);
      CheckpointExactlyWhenDue(parsed, latest);
      DueHasItsOutcome(setting, run, fault, path, parsed);
    } else {
      IdleHasItsOutcome(setting, run, fault, path, parsed);
    }
  }

  /** Every candidate has its outcome, at any point of any run. */
  lemma CandidatesHaveTheirOutcome(setting: Setting, run: Run, fault: Fault, source: Source)
    ensures CandidateOutcome(setting, run, ImportSource(setting, run, fault, source), fault, source)
  {
    hide ImportParsed, RolloutOutcome;
    if source.remembered.None? && source.read.Read? {
      ParsedHasItsOutcome(setting, run, fault, source.path, source.read.parsed);
    }
  }

  // ----- what the stored snapshots hold -----

  /** The record was taken of this rollout, and its payload is stored under its id. */
  ghost predicate TakenOf(payloads: map<EvidenceId, Bytes>, r: Record, parsed: Parsed) {
    && r.payload.SnapshotBytes?
    && Describes(r, parsed, r.payload.payload.reason, r.capturedAt, r.parent)
    && r.id in payloads && payloads[r.id] == r.payload
  }

  ghost predicate TakenOfSome(payloads: map<EvidenceId, Bytes>, r: Record, sources: seq<Source>) {
    exists s <- sources :: s.remembered.None? && s.read.Read? && TakenOf(payloads, r, s.read.parsed)
  }

  ghost predicate AllTaken(run: Run, sources: seq<Source>) {
    forall r <- run.written :: TakenOfSome(run.payloads, r, sources)
  }

  /** A step stores nothing, or one record of its own rollout, and overwrites no payload of a seen id. */
  ghost predicate StoresOwn(a: Run, b: Run, source: Source) {
    && (forall id :: id in a.seen && id in a.payloads ==> id in b.payloads && b.payloads[id] == a.payloads[id])
    && (b.written == a.written
        || (source.remembered.None? && source.read.Read? && |b.written| == |a.written| + 1
            && b.written == a.written + [b.written[|a.written|]]
            && TakenOf(b.payloads, b.written[|a.written|], source.read.parsed)))
  }

  lemma PlannedDescribes(parsed: Parsed, latest: Option<Snapshot>, r: Record)
    requires IsPlanned(parsed, latest, r)
    ensures r.payload.SnapshotBytes? && Describes(r, parsed, r.payload.payload.reason, r.capturedAt, r.parent)
  {
    hide Due, Stamped, ParentAmong;
  }

  /** A snapshot that goes on after its comparison keeps what is stored, or stores itself. */
  lemma SnapshotStoresOwn(setting: Setting, a: Run, b: Run, fault: Fault, source: Source, parsed: Parsed,
                          latest: Option<Snapshot>, r: Record)
    requires source.remembered.None? && source.read == Read(parsed) && IsPlanned(parsed, latest, r)
    requires SnapshotOutcome(setting, a, b, fault, source.path, parsed, r)
    ensures StoresOwn(a, b, source)
  {
    hide IsPlanned, Describes, Accepts, AlreadyStored, Leaves, Marks;
    PlannedDescribes(parsed, latest, r);
  }

  lemma StepStoresOwn(setting: Setting, run: Run, fault: Fault, source: Source)
    ensures StoresOwn(run, ImportSource(setting, run, fault, source), source)
  {
    hide ImportSource, Due, Readable, Contradicts, IsPlanned, SnapshotOutcome, TakenOf, Leaves, Marks;
    var after := ImportSource(setting, run, fault, source);
    CandidatesHaveTheirOutcome(setting, run, fault, source);
    if source.remembered.None? && source.read.Read? {
      var parsed := source.read.parsed;
      var latest := if parsed.thread in run.latest then Some(run.latest[parsed.thread]) else None;
      if r :| IsPlanned(parsed, latest, r) && SnapshotOutcome(setting, run, after, fault, source.path, parsed, r) {
        SnapshotStoresOwn(setting, run, after, fault, source, parsed, latest, r);
      }
    }
  }

  lemma StillTaken(sources: seq<Source>, source: Source, a: Run, b: Run, r: Record)
    requires TakenOfSome(a.payloads, r, sources) && StoresOwn(a, b, source) && r.id in a.seen
    ensures TakenOfSome(b.payloads, r, sources + [source])
  {
    var s :| s in sources && s.remembered.None? && s.read.Read? && TakenOf(a.payloads, r, s.read.parsed);
    assert s in sources + [source] && TakenOf(b.payloads, r, s.read.parsed);
  }

  lemma NewlyTaken(sources: seq<Source>, source: Source, run: Run, r: Record)
    requires source.remembered.None? && source.read.Read? && TakenOf(run.payloads, r, source.read.parsed)
    ensures TakenOfSome(run.payloads, r, sources + [source])
  {
    assert source in sources + [source];
  }

  /** In every run each stored record is a snapshot of one of the sources, and its payload is on disk. */
  lemma {:induction false} StoredSnapshotsShowTheirSources(setting: Setting, latest: Latest,
                                                           payloads: map<EvidenceId, Bytes>, sources: seq<Source>)
    ensures AllTaken(ImportAll(setting, Started(latest, payloads), sources), sources)
    decreases |sources|
  {
    hide ImportSource, AllTaken, StoresOwn, RunInv;
    if sources == [] {
      NothingTaken(latest, payloads);
    } else {
      var n := |sources| - 1;
      var before := ImportAll(setting, Started(latest, payloads), sources[..n]);
      StoredSnapshotsShowTheirSources(setting, latest, payloads, sources[..n]);
      RunKeepsInv(setting, latest, payloads, sources[..n]);
      StepStoresOwn(setting, before, setting.faults(n), sources[n]);
      StepKeepsTaken(setting, sources[..n], sources[n], before, ImportAll(setting, Started(latest, payloads), sources));
      assert sources == sources[..n] + [sources[n]];
    }
  }

  lemma NothingTaken(latest: Latest, payloads: map<EvidenceId, Bytes>)
    ensures AllTaken(Started(latest, payloads), [])
  {
  }

  lemma StepKeepsTaken(setting: Setting, sources: seq<Source>, source: Source, a: Run, b: Run)
    requires StoresOwn(a, b, source) && RunInv(setting, a)
    requires AllTaken(a, sources)
    ensures AllTaken(b, sources + [source])
  {
    hide TakenOfSome, TakenOf, SeenSound;
    forall r | r in b.written
      ensures TakenOfSome(b.payloads, r, sources + [source])
    {
      if r in a.written {
        StillTaken(sources, source, a, b, r);
      } else {
        NewlyTaken(sources, source, b, r);
      }
    }
  }

  // ----- why a preflight blocks a source -----

  lemma PlannedIsUnique(parsed: Parsed, latest: Option<Snapshot>, r: Record, other: Record)
    requires IsPlanned(parsed, latest, r) && IsPlanned(parsed, latest, other)
    ensures r == other
  {
    hide FinalPlaces;
  }

  /** The planned snapshot conflicts with one screened before, with the catalog or with a stored payload. */
  ghost predicate PlanBlocks(catalog: Catalog, payloads: map<EvidenceId, Bytes>, pre: Preflight, parsed: Parsed,
                             r: Record, outcome: Outcome)
  {
    if r.id in pre.identities && pre.identities[r.id] != parsed.sourceHash then outcome == DuplicateConflict
    else if r.id in catalog.current then
      outcome == RecordMismatch && !AlreadyStored(catalog, catalog.current[r.id], r, parsed)
    else
      outcome == PayloadMismatch && r.id in payloads && payloads[r.id] != r.payload
  }

  ghost predicate RolloutBlocks(catalog: Catalog, payloads: map<EvidenceId, Bytes>, pre: Preflight, parsed: Parsed,
                                outcome: Outcome)
  {
    var latest := if parsed.thread in pre.latest then Some(pre.latest[parsed.thread]) else None;
    if Readable(parsed) && Contradicts(parsed, latest) then outcome == RepairRequired
    else if parsed.coverage != VisibleMessages.Supported then
      match parsed.coverage
      case NoVisibleMessages => outcome == SkippedNoVisibleMessages
      case Unsupported => outcome == RejectedUnsupported
      case Partial => outcome == RejectedPartial
    else if !parsed.insideRoots then outcome == SkippedWorkspaceFilter
    else SomePlanBlocks(catalog, payloads, pre, parsed, latest, outcome)
  }

  ghost predicate Blocks(catalog: Catalog, payloads: map<EvidenceId, Bytes>, pre: Preflight, source: Source,
                         outcome: Outcome)
  {
    match source.read
    case Unreadable => outcome == Errored
    case Malformed => outcome == RejectedMalformed
    case Read(parsed) => RolloutBlocks(catalog, payloads, pre, parsed, outcome)
  }

  ghost predicate Screens(pre: Preflight, after: Preflight, path: string) {
    && |after.results| == |pre.results| + 1 && pre.results <= after.results
    && after.results[|pre.results|].path == path
  }

  ghost predicate BlocksFor(pre: Preflight, after: Preflight, outcome: Outcome)
    requires |pre.results| < |after.results|
  {
    after.results[|pre.results|].blocked == Some(outcome)
  }

  /** A conflict names the snapshot that is planned. */
  ghost predicate NamesPlan(pre: Preflight, after: Preflight, parsed: Parsed, latest: Option<Snapshot>)
    requires |pre.results| < |after.results|
  {
    exists r :: IsPlanned(parsed, latest, r) && after.results[|pre.results|].planned == Some(r.id)
  }

  ghost predicate NamesConflicts(pre: Preflight, after: Preflight, source: Source)
    requires |pre.results| < |after.results|
  {
    BlocksFor(pre, after, DuplicateConflict) || BlocksFor(pre, after, RecordMismatch)
      || BlocksFor(pre, after, PayloadMismatch) ==>
        && source.read.Read?
        && var parsed := source.read.parsed;
           NamesPlan(pre, after, parsed,
                     if parsed.thread in pre.latest then Some(pre.latest[parsed.thread]) else None)
  }

  lemma PlanIsBlockedForItsReason(catalog: Catalog, payloads: map<EvidenceId, Bytes>, pre: Preflight, path: string,
                                  parsed: Parsed, plan: Plan, r: Record)
    requires r == RecordFor(parsed, plan, LatestOf(pre.latest, parsed.thread)) && r.id == plan.id
    requires plan.sourceHash == parsed.sourceHash
    ensures var after := ScreenPlanned(catalog, payloads, pre, path, parsed, plan);
            && Screens(pre, after, path) && after.results[|pre.results|].planned == Some(r.id)
            && forall outcome ::
                 BlocksFor(pre, after, outcome) <==> PlanBlocks(catalog, payloads, pre, parsed, r, outcome)
  {
    JudgedByComparison(catalog, payloads, parsed, plan, LatestOf(pre.latest, parsed.thread));
    hide Judge, AlreadyStored, RecordFor, MetadataOf, LatestOf;
  }

  ghost predicate SomePlanBlocks(catalog: Catalog, payloads: map<EvidenceId, Bytes>, pre: Preflight, parsed: Parsed,
                                 latest: Option<Snapshot>, outcome: Outcome)
  {
    exists r :: IsPlanned(parsed, latest, r) && PlanBlocks(catalog, payloads, pre, parsed, r, outcome)
  }

  lemma DueIsBlockedForItsReason(catalog: Catalog, payloads: map<EvidenceId, Bytes>, pre: Preflight, path: string,
                                 parsed: Parsed, latest: Option<Snapshot>, reason: Reason)
    requires latest == LatestOf(pre.latest, parsed.thread) && Checkpoint(parsed, latest) == Some(reason)
    ensures var after := ScreenPlanned(catalog, payloads, pre, path, parsed, PlanFor(parsed, latest, reason));
            && Screens(pre, after, path) && NamesPlan(pre, after, parsed, latest)
            && forall outcome ::
                 BlocksFor(pre, after, outcome) <==> SomePlanBlocks(catalog, payloads, pre, parsed, latest, outcome)
  {
    var plan := PlanFor(parsed, latest, reason);
    var r := RecordFor(parsed, plan, latest);
    hide Checkpoint, ScreenPlanned, PlanBlocks, RecordFor, IsPlanned;
    PlansWhatIsDue(parsed, latest, reason);
    PlanIsBlockedForItsReason(catalog, payloads, pre, path, parsed, plan, r);
    forall other | IsPlanned(parsed, latest, other)
      ensures other == r
    {
      PlannedIsUnique(parsed, latest, r, other);
    }
  }

  lemma NothingDueBlocksNothing(catalog: Catalog, payloads: map<EvidenceId, Bytes>, pre: Preflight, parsed: Parsed,
                                latest: Option<Snapshot>)
    requires Checkpoint(parsed, latest).None?
    ensures forall outcome :: !SomePlanBlocks(catalog, payloads, pre, parsed, latest, outcome)
  {
    hide Checkpoint, Due, Stamped, PlanBlocks;
    CheckpointExactlyWhenDue(parsed, latest);
  }

  lemma RolloutIsBlockedForItsReason(catalog: Catalog, payloads: map<EvidenceId, Bytes>, pre: Preflight, path: string,
                                     parsed: Parsed)
    ensures var after := ScreenParsed(catalog, payloads, pre, path, parsed);
            && Screens(pre, after, path)
            && forall outcome ::
                 BlocksFor(pre, after, outcome) <==> RolloutBlocks(catalog, payloads, pre, parsed, outcome)
  {
    hide Checkpoint, RequiresRepair, Contradicts, ScreenPlanned, SomePlanBlocks, PlanFor, NamesPlan;
    var latest := LatestOf(pre.latest, parsed.thread);
    RepairExactlyWhenContradicted(parsed, latest);
    if Checkpoint(parsed, latest).Some? {
      DueIsBlockedForItsReason(catalog, payloads, pre, path, parsed, latest, Checkpoint(parsed, latest).value);
    } else {
      NothingDueBlocksNothing(catalog, payloads, pre, parsed, latest);
    }
  }

  lemma RolloutNamesConflicts(catalog: Catalog, payloads: map<EvidenceId, Bytes>, pre: Preflight, path: string,
                              parsed: Parsed)
    ensures var after := ScreenParsed(catalog, payloads, pre, path, parsed);
            Screens(pre, after, path) && NamesConflicts(pre, after, Source(path, None, Read(parsed)))
  {
    hide Checkpoint, RequiresRepair, ScreenPlanned, SomePlanBlocks, PlanFor, NamesPlan;
    var latest := LatestOf(pre.latest, parsed.thread);
    if Checkpoint(parsed, latest).Some? {
      DueIsBlockedForItsReason(catalog, payloads, pre, path, parsed, latest, Checkpoint(parsed, latest).value);
    }
  }

  /** A preflight blocks a source for the reason that applies to it, and for no other. */
  lemma SourcesAreBlockedForTheirReason(catalog: Catalog, payloads: map<EvidenceId, Bytes>, pre: Preflight,
                                        source: Source)
    ensures var after := ScreenSource(catalog, payloads, pre, source);
            && Screens(pre, after, source.path) && NamesConflicts(pre, after, source)
            && forall outcome :: BlocksFor(pre, after, outcome) <==> Blocks(catalog, payloads, pre, source, outcome)
  {
    hide ScreenParsed, RolloutBlocks, NamesPlan;
    if source.read.Read? {
      RolloutIsBlockedForItsReason(catalog, payloads, pre, source.path, source.read.parsed);
      RolloutNamesConflicts(catalog, payloads, pre, source.path, source.read.parsed);
    }
  }
}
