/**
 * A whole import run: the loop over candidate rollouts, the preflight of a pinned selection, what
 * every run keeps, and why a passed preflight predicts the run.
 */
module RolloutImport {
  import opened Common
  import opened RolloutReplay
  import opened RolloutSnapshots
  import ImportState
  import VisibleMessages

  datatype Read = Unreadable | Malformed | Read(parsed: Parsed)

  /** What the ledger remembers of a source that has not changed since. */
  datatype Cached = Cached(messageCount: nat, coverage: Coverage)

  datatype Source = Source(path: string, remembered: Option<Cached>, read: Read)

  datatype Fault = NoFault | PayloadFault | RecordFault | LinkFault

  datatype Outcome =
    | NotAttempted
    | SkippedUnchanged
    | RejectedMalformed
    | Errored
    | LinkFailed
    | SkippedWorkspaceFilter
    | RepairRequired
    | RejectedUnsupported
    | RejectedPartial
    | SkippedNoVisibleMessages
    | SkippedCheckpoint
    | SkippedDuplicateSource
    | DuplicateConflict
    | RecordMismatch
    | PayloadMismatch
    | SkippedExisting
    | Planned
    | Imported

  ghost predicate Troublesome(outcome: Outcome) {
    outcome in {Errored, LinkFailed, DuplicateConflict, RecordMismatch, PayloadMismatch}
  }

  /** What became of one candidate; a snapshot that got as far as a plan names its id. */
  datatype Entry = Entry(path: string, outcome: Outcome, thread: Option<string>, planned: Option<EvidenceId>)

  datatype Setting = Setting(
    catalog: Catalog, dryRun: bool, pinned: bool, timeOf: TimeOf, faults: nat -> Fault)

  datatype Run = Run(
    latest: Latest,
    seen: map<EvidenceId, string>,
    payloads: map<EvidenceId, Bytes>,
    written: seq<Record>,
    links: seq<(string, EvidenceId)>,
    ledger: map<string, Outcome>,
    eligible: nat,
    entries: seq<Entry>,
    counted: seq<Outcome>)

  function Started(latest: Latest, payloads: map<EvidenceId, Bytes>): Run {
    Run(latest, map[], payloads, [], [], map[], 0, [], [])
  }

  // ----- one candidate -----

  function Noted(run: Run, entry: Entry): Run {
    run.(entries := run.entries + [entry], counted := run.counted + [entry.outcome])
  }

  /** The ledger skips the source next time, until it changes; a dry run leaves the ledger alone. */
  function Remembered(setting: Setting, run: Run, entry: Entry): Run {
    Noted(run, entry).(ledger := if setting.dryRun then run.ledger else run.ledger[entry.path := entry.outcome])
  }

  /**
   * A snapshot that raised no conflict: linked to case seeds unless pinned, remembered, and now the latest.
   * Its outcome is counted before it is linked, so a failing link is counted besides it.
   */
  function Settled(setting: Setting, run: Run, fault: Fault, entry: Entry, thread: string, id: EvidenceId,
                   snapshot: Snapshot): Run
  {
    var known := run.(latest := run.latest[thread := snapshot]);
    if setting.dryRun || setting.pinned then Remembered(setting, known, entry)
    else if fault.LinkFault? then Noted(run.(counted := run.counted + [entry.outcome]), entry.(outcome := LinkFailed))
    else Remembered(setting, known.(links := run.links + [(thread, id)]), entry)
  }

  predicate OnDisk(setting: Setting, run: Run, id: EvidenceId) {
    id in setting.catalog.current || exists r <- run.written :: r.id == id
  }

  /** Writes the payload, then the record; a fault stops there and keeps what was written. */
  function WriteNew(setting: Setting, run: Run, fault: Fault, entry: Entry, plan: Plan, record: Record): Run {
    var thread := plan.payload.source.thread;
    var snapshot := Snapshot(record, MetadataOf(plan.payload));
    if setting.dryRun then Settled(setting, run, fault, entry.(outcome := Planned), thread, plan.id, snapshot)
    else if fault.PayloadFault? then Noted(run, entry.(outcome := Errored))
    else
      var stored := run.(payloads := run.payloads[plan.id := SnapshotBytes(plan.payload)]);
      if fault.RecordFault? || OnDisk(setting, run, plan.id) then Noted(stored, entry.(outcome := Errored))
      else Settled(setting, stored.(written := run.written + [record]), fault, entry.(outcome := Imported), thread,
                   plan.id, snapshot)
  }

  function ImportPlanned(setting: Setting, run: Run, fault: Fault, path: string, parsed: Parsed, plan: Plan): Run {
    var latest := LatestOf(run.latest, parsed.thread);
    var entry := Entry(path, SkippedDuplicateSource, Some(parsed.thread), Some(plan.id));
    if plan.id in run.seen then
      if run.seen[plan.id] == parsed.sourceHash then Remembered(setting, run, entry)
      else Noted(run, entry.(outcome := DuplicateConflict))
    else
      var marked := run.(seen := run.seen[plan.id := parsed.sourceHash]);
      match Judge(setting.catalog, run.payloads, parsed, plan, latest)
      case RecordConflict => Noted(marked, entry.(outcome := RecordMismatch))
      case PayloadConflict => Noted(marked, entry.(outcome := PayloadMismatch))
      case KnownSnapshot(current) =>
        Settled(setting, marked, fault, entry.(outcome := SkippedExisting), parsed.thread, plan.id,
                Snapshot(current, MetadataOf(plan.payload)))
      case NewSnapshot(record) => WriteNew(setting, marked, fault, entry, plan, record)
  }

  /** How a parsed rollout leaves before anything is planned, if it does. */
  function Gate(parsed: Parsed, latest: Option<Snapshot>): (r: Option<Outcome>)
    ensures r.None? <==>
            && parsed.insideRoots && (parsed.coverage.Supported? || parsed.coverage.NoVisibleMessages?)
            && !RequiresRepair(parsed, latest) && parsed.messages != [] && Checkpoint(parsed, latest).Some?
    ensures r.Some? ==> !Troublesome(r.value)
  {
    if !parsed.insideRoots then Some(SkippedWorkspaceFilter)
    else if (parsed.coverage.Supported? || parsed.coverage.NoVisibleMessages?) && RequiresRepair(parsed, latest) then
      Some(RepairRequired)
    else if parsed.coverage.Unsupported? then Some(RejectedUnsupported)
    else if parsed.coverage.Partial? then Some(RejectedPartial)
    else if parsed.messages == [] then Some(SkippedNoVisibleMessages)
    else if Checkpoint(parsed, latest).None? then Some(SkippedCheckpoint)
    else None
  }

  /** Outcomes that leave no mark in the ledger, so the source is read again next time. */
  predicate Forgotten(outcome: Outcome) {
    outcome in {SkippedWorkspaceFilter, RepairRequired}
  }

  function Counted(run: Run, gate: Option<Outcome>): Run {
    if gate.None? || gate.value.SkippedCheckpoint? then run.(eligible := run.eligible + 1) else run
  }

  function ImportParsed(setting: Setting, run: Run, fault: Fault, path: string, parsed: Parsed): Run {
    var latest := LatestOf(run.latest, parsed.thread);
    var gate := Gate(parsed, latest);
    if gate.None? then ImportPlanned(setting, Counted(run, gate), fault, path, parsed,
                                     PlanFor(parsed, latest, Checkpoint(parsed, latest).value))
    else if Forgotten(gate.value) then Noted(Counted(run, gate), Entry(path, gate.value, Some(parsed.thread), None))
    else Remembered(setting, Counted(run, gate), Entry(path, gate.value, Some(parsed.thread), None))
  }

  function ImportSource(setting: Setting, run: Run, fault: Fault, source: Source): Run {
    if source.remembered.Some? then
      var cached := source.remembered.value;
      Noted(run, Entry(source.path, SkippedUnchanged, None, None)).(
        eligible := if cached.messageCount > 0 && cached.coverage.Supported? then run.eligible + 1 else run.eligible)
    else
      match source.read
      case Unreadable => Noted(run, Entry(source.path, Errored, None, None))
      case Malformed => Noted(run, Entry(source.path, RejectedMalformed, None, None))
      case Read(parsed) => ImportParsed(setting, run, fault, source.path, parsed)
  }

  function ImportAll(setting: Setting, start: Run, sources: seq<Source>): Run
    decreases |sources|
  {
    if sources == [] then start
    else
      var n := |sources| - 1;
      ImportSource(setting, ImportAll(setting, start, sources[..n]), setting.faults(n), sources[n])
  }

  // ----- what every run keeps -----

  /** A conflicting or failed import of the thread happened earlier in the run. */
  ghost predicate Troubled(run: Run, thread: string) {
    exists e <- run.entries :: e.thread == Some(thread) && Troublesome(e.outcome)
  }

  /** The thread's latest snapshot is at or after the id, with counts that are those of its messages. */
  ghost predicate Overtaken(latest: Latest, id: EvidenceId)
    requires id.SnapshotId?
  {
    && id.thread in latest
    && id.capturedAt <= latest[id.thread].record.capturedAt
    && latest[id.thread].metadata.Consistent()
  }

  /** Until a thread runs into trouble, its latest snapshot has overtaken everything planned for it. */
  ghost predicate SeenSound(run: Run) {
    && (forall id :: id in run.seen ==> id.SnapshotId?)
    && (forall id :: id in run.seen && !Troubled(run, id.thread) ==> Overtaken(run.latest, id))
  }

  /** The record's parent is an older record of the same thread, stored before it. */
  ghost predicate ParentIsOlder(r: Record, earlier: seq<Record>) {
    r.parent.None? || exists p <- earlier ::
      p.id == r.parent.value && p.thread == r.thread && p.capturedAt < r.capturedAt
  }

  ghost predicate SameCalmThread(run: Run, i: nat, j: nat)
    requires i < |run.written| && j < |run.written|
  {
    run.written[i].thread == run.written[j].thread && run.written[i].thread.Some?
      && !Troubled(run, run.written[i].thread.value)
  }

  ghost predicate WrittenSound(setting: Setting, run: Run) {
    && (forall i :: 0 <= i < |run.written| ==>
          && run.written[i].id in run.seen
          && run.written[i].thread.Some?
          && run.written[i].id == SnapshotId(run.written[i].thread.value, run.written[i].capturedAt)
          && run.written[i].id !in setting.catalog.current)
    && (forall i, j :: 0 <= i < j < |run.written| ==> run.written[i].id != run.written[j].id)
    && (forall i, j :: 0 <= i < j < |run.written| && SameCalmThread(run, i, j) ==>
          run.written[i].capturedAt < run.written[j].capturedAt)
  }

  /** What every run keeps, on any catalog and from any latest snapshots. */
  ghost predicate RunInv(setting: Setting, run: Run) {
    && SeenSound(run)
    && WrittenSound(setting, run)
    && (setting.dryRun ==> run.written == [])
  }

  /** The latest snapshots stay records of their threads, and parents are older records of the thread. */
  ghost predicate ChainInv(setting: Setting, run: Run) {
    && (forall t :: t in run.latest ==>
          && run.latest[t].record.thread == Some(t)
          && CountsSuffice(run.latest[t].metadata)
          && (!setting.dryRun ==> run.latest[t].record in setting.catalog.records + run.written))
    && (forall i :: 0 <= i < |run.written| ==>
          ParentIsOlder(run.written[i], setting.catalog.records + run.written[..i]))
  }

  /** The duplicate branch is reachable only after trouble with the same thread in the same run. */
  lemma DuplicatesOnlyAfterTrouble(setting: Setting, run: Run, parsed: Parsed)
    requires RunInv(setting, run)
    requires Plans(parsed, LatestOf(run.latest, parsed.thread))
    requires PlanOf(run, parsed).id in run.seen
    ensures Troubled(run, parsed.thread)
  {
    var id := PlanOf(run, parsed).id;
    if !Troubled(run, parsed.thread) {
      assert Overtaken(run.latest, id);
      ConsistentCountsSuffice(run.latest[parsed.thread].metadata);
      PlannedIsLater(parsed, run.latest[parsed.thread]);
    }
  }

  /** What a run plans for a rollout that reaches a checkpoint. */
  ghost function PlanOf(run: Run, parsed: Parsed): Plan
    requires Checkpoint(parsed, LatestOf(run.latest, parsed.thread)).Some?
  {
    var latest := LatestOf(run.latest, parsed.thread);
    PlanFor(parsed, latest, Checkpoint(parsed, latest).value)
  }

  // ----- every step keeps it -----

  lemma TroubleStays(a: Run, b: Run, thread: string)
    requires a.entries <= b.entries && Troubled(a, thread)
    ensures Troubled(b, thread)
  {
    var e :| e in a.entries && e.thread == Some(thread) && Troublesome(e.outcome);
    assert e in b.entries;
  }

  lemma CalmBefore(a: Run, b: Run)
    requires a.entries <= b.entries
    ensures forall t :: !Troubled(b, t) ==> !Troubled(a, t)
  {
    forall t | !Troubled(b, t)
      ensures !Troubled(a, t)
    {
      if Troubled(a, t) {
        TroubleStays(a, b, t);
      }
    }
  }

  ghost predicate SameCore(a: Run, b: Run) {
    b.latest == a.latest && b.seen == a.seen && b.written == a.written && a.entries <= b.entries
  }

  /** Steps that plan nothing only add entries, ledger marks, links or payloads. */
  lemma IdleKeepsInv(setting: Setting, a: Run, b: Run)
    requires RunInv(setting, a) && SameCore(a, b)
    ensures RunInv(setting, b)
  {
    CalmBefore(a, b);
    hide Troubled, Overtaken;
    forall i, j | 0 <= i < j < |b.written| && SameCalmThread(b, i, j)
      ensures b.written[i].capturedAt < b.written[j].capturedAt
    {
      assert SameCalmThread(a, i, j);
    }
  }

  /** The plan and record a run has for a parsed rollout at a checkpoint. */
  ghost predicate Planning(run: Run, parsed: Parsed, plan: Plan, record: Record) {
    && record.thread == Some(parsed.thread) && record.capturedAt == plan.capturedAt
    && plan.id == SnapshotId(parsed.thread, plan.capturedAt)
    && plan.payload.source == parsed && plan.sourceHash == parsed.sourceHash
    && (parsed.thread in run.latest && CountsSuffice(run.latest[parsed.thread].metadata) ==>
          plan.capturedAt > run.latest[parsed.thread].record.capturedAt)
  }

  /** How far a planned snapshot got: marked as seen, stored, and accepted as the latest. */
  datatype Progress = Progress(parsed: Parsed, plan: Plan, record: Record, stored: bool, settled: bool)

  ghost predicate Advanced(setting: Setting, a: Run, b: Run, p: Progress) {
    && p.plan.id !in a.seen
    && b.seen == a.seen[p.plan.id := p.parsed.sourceHash]
    && b.written == (if p.stored then a.written + [p.record] else a.written)
    && b.latest == (if p.settled then a.latest[p.parsed.thread := Snapshot(p.record, MetadataOf(p.plan.payload))]
                    else a.latest)
    && |b.entries| == |a.entries| + 1 && a.entries <= b.entries
    && (p.stored ==>
          && !setting.dryRun && p.plan.id !in setting.catalog.current
          && p.record == RecordFor(p.parsed, p.plan, LatestOf(a.latest, p.parsed.thread)))
    && (p.settled && !p.stored && !setting.dryRun ==>
          p.plan.id in setting.catalog.current && p.record == setting.catalog.current[p.plan.id])
    && (!p.settled ==>
          b.entries[|a.entries|].thread == Some(p.parsed.thread) && Troublesome(b.entries[|a.entries|].outcome))
  }

  /** One step of a run: nothing planned, or one plan carried as far as it got. */
  ghost predicate Moved(setting: Setting, a: Run, b: Run) {
    || SameCore(a, b)
    || exists p: Progress :: Planning(a, p.parsed, p.plan, p.record) && Advanced(setting, a, b, p)
  }

  lemma AdvanceKeepsSeen(setting: Setting, a: Run, b: Run, p: Progress)
    requires RunInv(setting, a) && Planning(a, p.parsed, p.plan, p.record) && Advanced(setting, a, b, p)
    ensures SeenSound(b)
  {
    hide WrittenSound;
    CalmBefore(a, b);
    ConsistentLatestSuffices(a, p.parsed.thread);
    if !p.settled {
      assert b.entries[|a.entries|] in b.entries;
      assert Troubled(b, p.parsed.thread);
    }
    hide Troubled, CountsSuffice;
    forall id | id in b.seen && !Troubled(b, id.thread)
      ensures Overtaken(b.latest, id)
    {
      if id != p.plan.id {
        assert Overtaken(a.latest, id);
      }
    }
  }

  lemma ConsistentLatestSuffices(run: Run, thread: string)
    ensures thread in run.latest && run.latest[thread].metadata.Consistent() ==>
              CountsSuffice(run.latest[thread].metadata)
  {
  }

  lemma AdvanceKeepsWritten(setting: Setting, a: Run, b: Run, p: Progress)
    requires RunInv(setting, a) && Planning(a, p.parsed, p.plan, p.record) && Advanced(setting, a, b, p)
    ensures WrittenSound(setting, b)
  {
    CalmBefore(a, b);
    ConsistentLatestSuffices(a, p.parsed.thread);
    hide Troubled, CountsSuffice;
    forall i, j | 0 <= i < j < |b.written| && SameCalmThread(b, i, j)
      ensures b.written[i].capturedAt < b.written[j].capturedAt
    {
      if j < |a.written| {
        assert SameCalmThread(a, i, j);
      } else {
        assert a.written[i].id in a.seen && !Troubled(a, p.parsed.thread);
        assert Overtaken(a.latest, a.written[i].id);
      }
    }
  }

  lemma MoveKeepsInv(setting: Setting, a: Run, b: Run)
    requires RunInv(setting, a) && Moved(setting, a, b)
    ensures RunInv(setting, b)
  {
    if SameCore(a, b) {
      IdleKeepsInv(setting, a, b);
    } else {
      var p: Progress :| Planning(a, p.parsed, p.plan, p.record) && Advanced(setting, a, b, p);
      AdvanceKeepsSeen(setting, a, b, p);
      AdvanceKeepsWritten(setting, a, b, p);
      hide SeenSound, WrittenSound;
    }
  }

  lemma MoveKeepsChain(setting: Setting, a: Run, b: Run)
    requires setting.catalog.Resolves() && ChainInv(setting, a) && Moved(setting, a, b)
    ensures ChainInv(setting, b)
  {
    if !SameCore(a, b) {
      var p: Progress :| Planning(a, p.parsed, p.plan, p.record) && Advanced(setting, a, b, p);
      AdvanceKeepsLatest(setting, a, b, p);
      AdvanceKeepsParents(setting, a, b, p);
    }
  }

  lemma AdvanceKeepsLatest(setting: Setting, a: Run, b: Run, p: Progress)
    requires setting.catalog.Resolves() && ChainInv(setting, a)
    requires Planning(a, p.parsed, p.plan, p.record) && Advanced(setting, a, b, p)
    ensures forall t :: t in b.latest ==>
              && b.latest[t].record.thread == Some(t)
              && CountsSuffice(b.latest[t].metadata)
              && (!setting.dryRun ==> b.latest[t].record in setting.catalog.records + b.written)
  {
    ConsistentCountsSuffice(MetadataOf(p.plan.payload));
    hide CountsSuffice, ParentIsOlder;
    forall t | t in b.latest && !setting.dryRun
      ensures b.latest[t].record in setting.catalog.records + b.written
    {
      if p.settled && t == p.parsed.thread {
        assert p.stored ==> p.record in b.written;
      } else {
        assert a.latest[t].record in setting.catalog.records + a.written;
      }
    }
  }

  lemma AdvanceKeepsParents(setting: Setting, a: Run, b: Run, p: Progress)
    requires ChainInv(setting, a)
    requires Planning(a, p.parsed, p.plan, p.record) && Advanced(setting, a, b, p)
    ensures forall i :: 0 <= i < |b.written| ==>
              ParentIsOlder(b.written[i], setting.catalog.records + b.written[..i])
  {
    forall i | 0 <= i < |b.written|
      ensures ParentIsOlder(b.written[i], setting.catalog.records + b.written[..i])
    {
      if i < |a.written| {
        assert b.written[..i] == a.written[..i];
      } else {
        assert b.written[..i] == a.written;
        if p.parsed.thread in a.latest {
          assert a.latest[p.parsed.thread].record in setting.catalog.records + a.written;
        }
      }
    }
  }

  /** New latest snapshots are later than the ones they replace, so the catalog stays covered. */
  lemma MoveKeepsCover(setting: Setting, a: Run, b: Run)
    requires ChainInv(setting, a) && Covers(setting.catalog, a.latest) && Moved(setting, a, b)
    ensures Covers(setting.catalog, b.latest)
  {
    if !SameCore(a, b) {
      var p: Progress :| Planning(a, p.parsed, p.plan, p.record) && Advanced(setting, a, b, p);
    }
  }

  // ----- how one candidate moves a run -----

  /** Whether a parsed rollout gets as far as a plan. */
  ghost predicate GetsPlanned(run: Run, parsed: Parsed) {
    Gate(parsed, LatestOf(run.latest, parsed.thread)).None?
  }

  lemma PlannedCheckpoint(run: Run, parsed: Parsed)
    requires GetsPlanned(run, parsed)
    ensures Plans(parsed, LatestOf(run.latest, parsed.thread))
  {
  }

  /** A run plans a rollout exactly when it is importable and plans something on top of the thread's latest snapshot. */
  lemma PlannedAreImportable(timeOf: TimeOf, run: Run, parsed: Parsed)
    requires WasParsed(timeOf, parsed)
    ensures GetsPlanned(run, parsed)
       <==> Importable(timeOf, parsed) && Plans(parsed, LatestOf(run.latest, parsed.thread))
  {
    hide ParsedFrom, RequiresRepair, Checkpoint;
    var h: Header, events: seq<VisibleMessages.LineEvent> :| parsed == ParsedFrom(timeOf, h, events);
    ParsedIsExtractable(timeOf, h, events);
  }

  lemma ParsedIsPlanned(setting: Setting, run: Run, fault: Fault, path: string, parsed: Parsed)
    requires GetsPlanned(run, parsed)
    ensures ImportParsed(setting, run, fault, path, parsed)
         == ImportPlanned(setting, run.(eligible := run.eligible + 1), fault, path, parsed, PlanOf(run, parsed))
  {
    hide ImportPlanned, PlanFor, RequiresRepair, Checkpoint, Gate, LatestOf;
  }

  lemma ParsedIsIdle(setting: Setting, run: Run, fault: Fault, path: string, parsed: Parsed)
    requires !GetsPlanned(run, parsed)
    ensures SameCore(run, ImportParsed(setting, run, fault, path, parsed))
  {
    hide ImportPlanned, PlanFor, RequiresRepair, Checkpoint, Gate, LatestOf;
  }

  lemma PlanningHolds(run: Run, parsed: Parsed, record: Record)
    requires Plans(parsed, LatestOf(run.latest, parsed.thread))
    requires record.thread == Some(parsed.thread) && record.capturedAt == PlanOf(run, parsed).capturedAt
    ensures Planning(run, parsed, PlanOf(run, parsed), record)
  {
    if parsed.thread in run.latest && CountsSuffice(run.latest[parsed.thread].metadata) {
      PlannedIsLater(parsed, run.latest[parsed.thread]);
    }
  }

  /** A snapshot the catalog knows has the thread and time of the plan. */
  lemma KnownRecordFits(setting: Setting, run: Run, parsed: Parsed, plan: Plan)
    requires Judge(setting.catalog, run.payloads, parsed, plan, LatestOf(run.latest, parsed.thread)).KnownSnapshot?
    ensures var known := Judge(setting.catalog, run.payloads, parsed, plan,
                               LatestOf(run.latest, parsed.thread)).current;
            && known.thread == Some(parsed.thread) && known.capturedAt == plan.capturedAt
            && plan.id in setting.catalog.current && setting.catalog.current[plan.id] == known
  {
    hide LatestOf;
  }

  lemma NewRecordFits(setting: Setting, run: Run, parsed: Parsed, plan: Plan)
    ensures var latest := LatestOf(run.latest, parsed.thread);
            var record := RecordFor(parsed, plan, latest);
            var verdict := Judge(setting.catalog, run.payloads, parsed, plan, latest);
            && record.thread == Some(parsed.thread) && record.capturedAt == plan.capturedAt
            && (verdict.NewSnapshot? ==> verdict.record == record && plan.id !in setting.catalog.current)
  {
    hide LatestOf, SameFields, LegacyEquivalent;
  }

  /** Writing stores and settles the snapshot, or stops at the first fault with the thread in trouble. */
  lemma WritingAdvances(setting: Setting, run: Run, fault: Fault, entry: Entry, parsed: Parsed, plan: Plan)
      returns (p: Progress)
    requires plan.id !in run.seen && plan.payload.source == parsed && entry.thread == Some(parsed.thread)
    requires plan.id !in setting.catalog.current
    ensures var record := RecordFor(parsed, plan, LatestOf(run.latest, parsed.thread));
            var marked := run.(seen := run.seen[plan.id := parsed.sourceHash]);
            && p.parsed == parsed && p.plan == plan && p.record == record
            && Advanced(setting, run, WriteNew(setting, marked, fault, entry, plan, record), p)
  {
    var record := RecordFor(parsed, plan, LatestOf(run.latest, parsed.thread));
    var marked := run.(seen := run.seen[plan.id := parsed.sourceHash]);
    var stored := !setting.dryRun && !fault.PayloadFault? && !fault.RecordFault? && !OnDisk(setting, marked, plan.id);
    var settled := setting.dryRun || (stored && (setting.pinned || !fault.LinkFault?));
    p := Progress(parsed, plan, record, stored, settled);
    hide MetadataOf, OnDisk, RecordFor, LatestOf;
  }

  /** A known snapshot is settled without being stored, unless its seed link fails. */
  lemma KnowingAdvances(setting: Setting, run: Run, fault: Fault, entry: Entry, parsed: Parsed, plan: Plan)
      returns (p: Progress)
    requires plan.id !in run.seen && entry.thread == Some(parsed.thread) && plan.id in setting.catalog.current
    ensures var known := setting.catalog.current[plan.id];
            var marked := run.(seen := run.seen[plan.id := parsed.sourceHash]);
            && p.parsed == parsed && p.plan == plan && p.record == known
            && Advanced(setting, run, Settled(setting, marked, fault, entry, parsed.thread, plan.id,
                                              Snapshot(known, MetadataOf(plan.payload))), p)
  {
    var settled := setting.dryRun || setting.pinned || !fault.LinkFault?;
    p := Progress(parsed, plan, setting.catalog.current[plan.id], false, settled);
    hide MetadataOf, RecordFor, LatestOf;
  }

  /** A conflict marks the id as seen and leaves the thread in trouble. */
  lemma ConflictAdvances(setting: Setting, run: Run, entry: Entry, parsed: Parsed, plan: Plan, record: Record)
    requires plan.id !in run.seen && entry.thread == Some(parsed.thread) && Troublesome(entry.outcome)
    ensures Advanced(setting, run, Noted(run.(seen := run.seen[plan.id := parsed.sourceHash]), entry),
                     Progress(parsed, plan, record, false, false))
  {
    hide MetadataOf, RecordFor, LatestOf;
  }

  lemma PlannedMoves(setting: Setting, run: Run, fault: Fault, path: string, parsed: Parsed)
    requires Plans(parsed, LatestOf(run.latest, parsed.thread))
    ensures Moved(setting, run, ImportPlanned(setting, run, fault, path, parsed, PlanOf(run, parsed)))
  {
    var plan := PlanOf(run, parsed);
    var latest := LatestOf(run.latest, parsed.thread);
    var record := RecordFor(parsed, plan, latest);
    var entry := Entry(path, SkippedDuplicateSource, Some(parsed.thread), Some(plan.id));
    var verdict := Judge(setting.catalog, run.payloads, parsed, plan, latest);
    assert plan.payload.source == parsed;
    NewRecordFits(setting, run, parsed, plan);
    PlanningHolds(run, parsed, record);
    if plan.id !in run.seen && verdict.KnownSnapshot? {
      KnownRecordFits(setting, run, parsed, plan);
      PlanningHolds(run, parsed, verdict.current);
    }
    hide PlanOf, Plans, Planning, Judge, RecordFor, LatestOf, MetadataOf, WriteNew, Settled, Advanced;
    if plan.id in run.seen {
      assert SameCore(run, ImportPlanned(setting, run, fault, path, parsed, plan));
    } else if verdict.NewSnapshot? {
      var p := WritingAdvances(setting, run, fault, entry, parsed, plan);
    } else if verdict.KnownSnapshot? {
      var p := KnowingAdvances(setting, run, fault, entry.(outcome := SkippedExisting), parsed, plan);
    } else {
      var outcome := if verdict.RecordConflict? then RecordMismatch else PayloadMismatch;
      ConflictAdvances(setting, run, entry.(outcome := outcome), parsed, plan, record);
    }
  }

  lemma ParsedMoves(setting: Setting, run: Run, fault: Fault, path: string, parsed: Parsed)
    ensures Moved(setting, run, ImportParsed(setting, run, fault, path, parsed))
  {
    if GetsPlanned(run, parsed) {
      var counted := run.(eligible := run.eligible + 1);
      ParsedIsPlanned(setting, run, fault, path, parsed);
      PlannedCheckpoint(run, parsed);
      assert PlanOf(counted, parsed) == PlanOf(run, parsed);
      hide ImportParsed, ImportPlanned, PlanFor, PlanOf, RequiresRepair, Checkpoint, Moved;
      PlannedMoves(setting, counted, fault, path, parsed);
      CountingIsFree(setting, run, ImportParsed(setting, run, fault, path, parsed));
    } else {
      ParsedIsIdle(setting, run, fault, path, parsed);
    }
  }

  lemma CountingIsFree(setting: Setting, a: Run, b: Run)
    requires Moved(setting, a.(eligible := a.eligible + 1), b)
    ensures Moved(setting, a, b)
  {
    var counted := a.(eligible := a.eligible + 1);
    hide CountsSuffice, RecordFor, MetadataOf;
    if !SameCore(a, b) {
      var p: Progress :| Planning(counted, p.parsed, p.plan, p.record) && Advanced(setting, counted, b, p);
      assert Planning(a, p.parsed, p.plan, p.record) && Advanced(setting, a, b, p);
    }
  }

  lemma StepMoves(setting: Setting, run: Run, fault: Fault, source: Source)
    ensures Moved(setting, run, ImportSource(setting, run, fault, source))
  {
    hide ImportParsed;
    if source.remembered.None? && source.read.Read? {
      ParsedMoves(setting, run, fault, source.path, source.read.parsed);
    }
  }

  /** Every run keeps the invariant, on any catalog and from any start, in either mode and under any faults. */
  lemma {:induction false} RunKeepsInv(setting: Setting, latest: Latest, payloads: map<EvidenceId, Bytes>,
                                       sources: seq<Source>)
    ensures RunInv(setting, ImportAll(setting, Started(latest, payloads), sources))
    decreases |sources|
  {
    if sources != [] {
      hide RunInv, ImportSource, Moved;
      var n := |sources| - 1;
      var before := ImportAll(setting, Started(latest, payloads), sources[..n]);
      RunKeepsInv(setting, latest, payloads, sources[..n]);
      StepMoves(setting, before, setting.faults(n), sources[n]);
      MoveKeepsInv(setting, before, ImportSource(setting, before, setting.faults(n), sources[n]));
    }
  }

  /** From latest snapshots that are catalog records with sufficient counts, parents stay older records. */
  lemma {:induction false} RunKeepsChains(setting: Setting, latest: Latest, payloads: map<EvidenceId, Bytes>,
                                          sources: seq<Source>)
    requires setting.catalog.Resolves() && Rooted(setting.catalog, latest)
    ensures ChainInv(setting, ImportAll(setting, Started(latest, payloads), sources))
    ensures Covers(setting.catalog, latest) ==>
              Covers(setting.catalog, ImportAll(setting, Started(latest, payloads), sources).latest)
    decreases |sources|
  {
    if sources != [] {
      hide ChainInv, Covers, ImportSource, Moved, Rooted;
      var n := |sources| - 1;
      var before := ImportAll(setting, Started(latest, payloads), sources[..n]);
      RunKeepsChains(setting, latest, payloads, sources[..n]);
      StepMoves(setting, before, setting.faults(n), sources[n]);
      MoveKeepsChain(setting, before, ImportSource(setting, before, setting.faults(n), sources[n]));
      if Covers(setting.catalog, latest) {
        MoveKeepsCover(setting, before, ImportSource(setting, before, setting.faults(n), sources[n]));
      }
    }
  }

  /** In a catalog whose snapshot names tell thread and time, a run never plans an id that is already there. */
  lemma PlanIsNew(setting: Setting, latest: Latest, payloads: map<EvidenceId, Bytes>, sources: seq<Source>,
                  parsed: Parsed)
    requires setting.catalog.Resolves() && setting.catalog.WellIdentified()
    requires Rooted(setting.catalog, latest) && Covers(setting.catalog, latest)
    requires Plans(parsed, LatestOf(ImportAll(setting, Started(latest, payloads), sources).latest, parsed.thread))
    ensures var run := ImportAll(setting, Started(latest, payloads), sources);
            && PlanOf(run, parsed).id !in setting.catalog.current
            && (parsed.thread in run.latest ==>
                  PlanOf(run, parsed).capturedAt > run.latest[parsed.thread].record.capturedAt)
  {
    var run := ImportAll(setting, Started(latest, payloads), sources);
    RunKeepsChains(setting, latest, payloads, sources);
    hide ImportAll;
    if parsed.thread in run.latest {
      PlannedIsLater(parsed, run.latest[parsed.thread]);
    }
    var id := PlanOf(run, parsed).id;
    assert forall r <- setting.catalog.records :: r.id != id;
  }

  // ----- what a run writes -----

  ghost function LinkFailures(entries: seq<Entry>): nat {
    if entries == [] then 0
    else LinkFailures(entries[..|entries| - 1]) + if entries[|entries| - 1].outcome.LinkFailed? then 1 else 0
  }

  lemma LinkFailuresSnoc(entries: seq<Entry>, e: Entry)
    ensures LinkFailures(entries + [e]) == LinkFailures(entries) + if e.outcome.LinkFailed? then 1 else 0
  {
    assert (entries + [e])[..|entries|] == entries;
  }

  /** One more entry for the path, counted once, or twice when it is a failed link. */
  ghost predicate AddsEntry(a: Run, b: Run, path: string) {
    && |b.entries| == |a.entries| + 1
    && b.entries == a.entries + [b.entries[|a.entries|]]
    && b.entries[|a.entries|].path == path
    && |b.counted| == |a.counted| + if b.entries[|a.entries|].outcome.LinkFailed? then 2 else 1
  }

  /** Every candidate leaves one entry, in order, and the loop counts a failed seed link besides its import. */
  lemma {:induction false} EveryCandidateIsAccounted(setting: Setting, latest: Latest, payloads: map<EvidenceId, Bytes>,
                                                     sources: seq<Source>)
    ensures Accounted(sources, ImportAll(setting, Started(latest, payloads), sources))
    decreases |sources|
  {
    hide ImportSource, AddsEntry, Accounted;
    if sources == [] {
      NothingAccounted(latest, payloads);
    } else {
      var n := |sources| - 1;
      var run := ImportAll(setting, Started(latest, payloads), sources[..n]);
      EveryCandidateIsAccounted(setting, latest, payloads, sources[..n]);
      StepAddsOneEntry(setting, run, setting.faults(n), sources[n]);
      OneMoreAccounted(sources[..n], run, ImportAll(setting, Started(latest, payloads), sources), sources[n]);
      assert sources == sources[..n] + [sources[n]];
    }
  }

  lemma NothingAccounted(latest: Latest, payloads: map<EvidenceId, Bytes>)
    ensures Accounted([], Started(latest, payloads))
  {
  }

  ghost predicate Accounted(sources: seq<Source>, run: Run) {
    && |run.entries| == |sources|
    && (forall i :: 0 <= i < |sources| ==> run.entries[i].path == sources[i].path)
    && |run.counted| == |run.entries| + LinkFailures(run.entries)
  }

  /** After the loop the ledger is saved, except on a dry run; a save that fails is counted as one more error. */
  ghost function AfterSave(setting: Setting, run: Run, saved: bool): Run {
    if setting.dryRun || saved then run else run.(counted := run.counted + [Errored])
  }

  /** The counters of a whole run: the candidates, the seed links that failed, and one for a failed ledger save. */
  lemma CountersOfARun(setting: Setting, latest: Latest, payloads: map<EvidenceId, Bytes>, sources: seq<Source>,
                       saved: bool)
    ensures var run := ImportAll(setting, Started(latest, payloads), sources);
            |AfterSave(setting, run, saved).counted|
              == |sources| + LinkFailures(run.entries) + if setting.dryRun || saved then 0 else 1
  {
    EveryCandidateIsAccounted(setting, latest, payloads, sources);
  }

  lemma OneMoreAccounted(sources: seq<Source>, run: Run, next: Run, source: Source)
    requires Accounted(sources, run) && AddsEntry(run, next, source.path)
    ensures Accounted(sources + [source], next)
  {
    LinkFailuresSnoc(run.entries, next.entries[|run.entries|]);
  }

  lemma StepAddsOneEntry(setting: Setting, run: Run, fault: Fault, source: Source)
    ensures AddsEntry(run, ImportSource(setting, run, fault, source), source.path)
  {
    hide ImportParsed;
    if source.remembered.None? && source.read.Read? {
      ParsedAddsOneEntry(setting, run, fault, source.path, source.read.parsed);
    }
  }

  lemma ParsedAddsOneEntry(setting: Setting, run: Run, fault: Fault, path: string, parsed: Parsed)
    ensures AddsEntry(run, ImportParsed(setting, run, fault, path, parsed), path)
  {
    hide PlanFor, RequiresRepair, Checkpoint, Gate, ImportPlanned, LatestOf;
    if GetsPlanned(run, parsed) {
      var plan := PlanOf(run, parsed);
      ParsedIsPlanned(setting, run, fault, path, parsed);
      hide ImportParsed, GetsPlanned, PlanOf;
      PlannedAddsOneEntry(setting, run.(eligible := run.eligible + 1), fault, path, parsed, plan);
    }
  }

  lemma PlannedAddsOneEntry(setting: Setting, run: Run, fault: Fault, path: string, parsed: Parsed, plan: Plan)
    ensures AddsEntry(run, ImportPlanned(setting, run, fault, path, parsed, plan), path)
  {
    var marked := run.(seen := run.seen[plan.id := parsed.sourceHash]);
    var entry := Entry(path, SkippedDuplicateSource, Some(parsed.thread), Some(plan.id));
    var verdict := Judge(setting.catalog, run.payloads, parsed, plan, LatestOf(run.latest, parsed.thread));
    if plan.id in run.seen {
      NotingAddsOneEntry(run, run, entry.(outcome := DuplicateConflict));
      RememberingAddsOneEntry(setting, run, run, entry);
    } else if verdict.NewSnapshot? {
      WritingAddsOneEntry(setting, run, marked, fault, entry, plan, verdict.record);
    } else if verdict.KnownSnapshot? {
      SettlingAddsOneEntry(setting, run, marked, fault, entry.(outcome := SkippedExisting), parsed.thread, plan.id,
                           Snapshot(verdict.current, MetadataOf(plan.payload)));
    } else {
      NotingAddsOneEntry(run, marked, entry.(outcome := RecordMismatch));
      NotingAddsOneEntry(run, marked, entry.(outcome := PayloadMismatch));
    }
    hide Judge, MetadataOf, LatestOf, WriteNew, Settled, Noted, Remembered, AddsEntry;
  }

  /** The runs agree on the entries and the counters. */
  ghost predicate SameTally(a: Run, b: Run) {
    a.entries == b.entries && a.counted == b.counted
  }

  lemma NotingAddsOneEntry(before: Run, run: Run, entry: Entry)
    requires SameTally(before, run) && entry.outcome != LinkFailed
    ensures AddsEntry(before, Noted(run, entry), entry.path)
  {
  }

  lemma RememberingAddsOneEntry(setting: Setting, before: Run, run: Run, entry: Entry)
    requires SameTally(before, run) && entry.outcome != LinkFailed
    ensures AddsEntry(before, Remembered(setting, run, entry), entry.path)
  {
  }

  lemma SettlingAddsOneEntry(setting: Setting, before: Run, run: Run, fault: Fault, entry: Entry, thread: string,
                             id: EvidenceId, snapshot: Snapshot)
    requires SameTally(before, run) && entry.outcome != LinkFailed
    ensures AddsEntry(before, Settled(setting, run, fault, entry, thread, id, snapshot), entry.path)
  {
  }

  lemma WritingAddsOneEntry(setting: Setting, before: Run, run: Run, fault: Fault, entry: Entry, plan: Plan,
                            record: Record)
    requires SameTally(before, run)
    ensures AddsEntry(before, WriteNew(setting, run, fault, entry, plan, record), entry.path)
  {
    var thread := plan.payload.source.thread;
    var snapshot := Snapshot(record, MetadataOf(plan.payload));
    var stored := run.(payloads := run.payloads[plan.id := SnapshotBytes(plan.payload)]);
    var written := stored.(written := run.written + [record]);
    NotingAddsOneEntry(before, run, entry.(outcome := Errored));
    NotingAddsOneEntry(before, stored, entry.(outcome := Errored));
    SettlingAddsOneEntry(setting, before, run, fault, entry.(outcome := Planned), thread, plan.id, snapshot);
    SettlingAddsOneEntry(setting, before, written, fault, entry.(outcome := Imported), thread, plan.id, snapshot);
    hide MetadataOf, OnDisk, Settled, Noted, AddsEntry;
  }

  /** A dry run leaves payloads, records, seed links and ledger as they were. */
  lemma {:induction false} DryRunWritesNothing(setting: Setting, start: Run, sources: seq<Source>)
    requires setting.dryRun
    ensures WritesNothing(start, ImportAll(setting, start, sources))
    decreases |sources|
  {
    if sources != [] {
      var n := |sources| - 1;
      DryRunWritesNothing(setting, start, sources[..n]);
      hide ImportSource;
      DryStepWritesNothing(setting, ImportAll(setting, start, sources[..n]), setting.faults(n), sources[n]);
    }
  }

  ghost predicate WritesNothing(a: Run, b: Run) {
    b.payloads == a.payloads && b.written == a.written && b.links == a.links && b.ledger == a.ledger
  }

  lemma DryStepWritesNothing(setting: Setting, run: Run, fault: Fault, source: Source)
    requires setting.dryRun
    ensures WritesNothing(run, ImportSource(setting, run, fault, source))
  {
    hide ImportParsed;
    if source.remembered.None? && source.read.Read? {
      DryParsedWritesNothing(setting, run, fault, source.path, source.read.parsed);
    }
  }

  lemma DryParsedWritesNothing(setting: Setting, run: Run, fault: Fault, path: string, parsed: Parsed)
    requires setting.dryRun
    ensures WritesNothing(run, ImportParsed(setting, run, fault, path, parsed))
  {
    hide PlanFor, RequiresRepair, Checkpoint, Gate, ImportPlanned, LatestOf;
    if GetsPlanned(run, parsed) {
      var plan := PlanOf(run, parsed);
      ParsedIsPlanned(setting, run, fault, path, parsed);
      hide ImportParsed, GetsPlanned, PlanOf;
      DryPlanWritesNothing(setting, run.(eligible := run.eligible + 1), fault, path, parsed, plan);
    }
  }

  lemma DryPlanWritesNothing(setting: Setting, run: Run, fault: Fault, path: string, parsed: Parsed, plan: Plan)
    requires setting.dryRun
    ensures WritesNothing(run, ImportPlanned(setting, run, fault, path, parsed, plan))
  {
    var marked := run.(seen := run.seen[plan.id := parsed.sourceHash]);
    var entry := Entry(path, SkippedDuplicateSource, Some(parsed.thread), Some(plan.id));
    var verdict := Judge(setting.catalog, run.payloads, parsed, plan, LatestOf(run.latest, parsed.thread));
    if verdict.NewSnapshot? {
      DrySettlingWritesNothing(setting, run, marked, fault, entry.(outcome := Planned), plan.payload.source.thread,
                               plan.id, Snapshot(verdict.record, MetadataOf(plan.payload)));
    } else if verdict.KnownSnapshot? {
      DrySettlingWritesNothing(setting, run, marked, fault, entry.(outcome := SkippedExisting), parsed.thread, plan.id,
                               Snapshot(verdict.current, MetadataOf(plan.payload)));
    }
    hide Judge, MetadataOf, OnDisk, LatestOf, Settled;
  }

  lemma DrySettlingWritesNothing(setting: Setting, before: Run, run: Run, fault: Fault, entry: Entry, thread: string,
                                 id: EvidenceId, snapshot: Snapshot)
    requires setting.dryRun && WritesNothing(before, run)
    ensures WritesNothing(before, Settled(setting, run, fault, entry, thread, id, snapshot))
  {
  }

  /**
   * Over whole runs, on any catalog: stored snapshots have distinct ids and never reuse one from the catalog,
   * and until a thread runs into trouble its stored times increase.
   */
  lemma StoredSnapshotsAreDistinct(setting: Setting, latest: Latest, payloads: map<EvidenceId, Bytes>,
                                   sources: seq<Source>)
    ensures var run := ImportAll(setting, Started(latest, payloads), sources);
            && (forall i, j :: 0 <= i < j < |run.written| ==> run.written[i].id != run.written[j].id)
            && (forall i :: 0 <= i < |run.written| ==> run.written[i].id !in setting.catalog.current)
            && (forall i, j :: 0 <= i < j < |run.written| && SameCalmThread(run, i, j) ==>
                  run.written[i].capturedAt < run.written[j].capturedAt)
  {
    RunKeepsInv(setting, latest, payloads, sources);
  }

  // ----- the preflight of a pinned selection -----

  /** The reason a source blocks the selection, or the snapshot it plans and whether the catalog knows it. */
  datatype Screening = Screening(path: string, blocked: Option<Outcome>, planned: Option<EvidenceId>, known: bool)

  datatype Preflight = Preflight(latest: Latest, identities: map<EvidenceId, string>, results: seq<Screening>)

  function Blocked(pre: Preflight, path: string, outcome: Outcome, planned: Option<EvidenceId>): Preflight {
    pre.(results := pre.results + [Screening(path, Some(outcome), planned, false)])
  }

  function Cleared(pre: Preflight, path: string, planned: Option<EvidenceId>, known: bool): Preflight {
    pre.(results := pre.results + [Screening(path, None, planned, known)])
  }

  function ScreenPlanned(catalog: Catalog, payloads: map<EvidenceId, Bytes>, pre: Preflight, path: string,
                         parsed: Parsed, plan: Plan): Preflight {
    if plan.id in pre.identities && pre.identities[plan.id] != plan.sourceHash then
      Blocked(pre, path, DuplicateConflict, Some(plan.id))
    else
      var marked := pre.(identities := pre.identities[plan.id := plan.sourceHash]);
      match Judge(catalog, payloads, parsed, plan, LatestOf(pre.latest, parsed.thread))
      case RecordConflict => Blocked(marked, path, RecordMismatch, Some(plan.id))
      case PayloadConflict => Blocked(marked, path, PayloadMismatch, Some(plan.id))
      case KnownSnapshot(current) =>
        var snapshot := Snapshot(current, MetadataOf(plan.payload));
        Cleared(marked.(latest := pre.latest[parsed.thread := snapshot]), path, Some(plan.id), true)
      case NewSnapshot(record) =>
        var snapshot := Snapshot(record, MetadataOf(plan.payload));
        Cleared(marked.(latest := pre.latest[parsed.thread := snapshot]), path, Some(plan.id), false)
  }

  function ScreenParsed(catalog: Catalog, payloads: map<EvidenceId, Bytes>, pre: Preflight, path: string,
                        parsed: Parsed): Preflight {
    var latest := LatestOf(pre.latest, parsed.thread);
    if (parsed.coverage.Supported? || parsed.coverage.NoVisibleMessages?) && RequiresRepair(parsed, latest) then
      Blocked(pre, path, RepairRequired, None)
    else if parsed.coverage.NoVisibleMessages? then Blocked(pre, path, SkippedNoVisibleMessages, None)
    else if parsed.coverage.Unsupported? then Blocked(pre, path, RejectedUnsupported, None)
    else if parsed.coverage.Partial? then Blocked(pre, path, RejectedPartial, None)
    else if !parsed.insideRoots then Blocked(pre, path, SkippedWorkspaceFilter, None)
    else
      var checkpoint := Checkpoint(parsed, latest);
      if checkpoint.None? then Cleared(pre, path, None, false)
      else ScreenPlanned(catalog, payloads, pre, path, parsed, PlanFor(parsed, latest, checkpoint.value))
  }

  function ScreenSource(catalog: Catalog, payloads: map<EvidenceId, Bytes>, pre: Preflight, source: Source): Preflight {
    match source.read
    case Unreadable => Blocked(pre, source.path, Errored, None)
    case Malformed => Blocked(pre, source.path, RejectedMalformed, None)
    case Read(parsed) => ScreenParsed(catalog, payloads, pre, source.path, parsed)
  }

  ghost function ScreenAll(catalog: Catalog, payloads: map<EvidenceId, Bytes>, latest: Latest,
                           sources: seq<Source>): Preflight
    decreases |sources|
  {
    if sources == [] then Preflight(latest, map[], [])
    else
      var n := |sources| - 1;
      ScreenSource(catalog, payloads, ScreenAll(catalog, payloads, latest, sources[..n]), sources[n])
  }

  predicate Passed(pre: Preflight) {
    forall r <- pre.results :: r.blocked.None?
  }

  // ----- why a passed preflight predicts the run -----

  /** The sources are rollouts of events, none is served from the ledger, and no read or write fails. */
  ghost predicate Undisturbed(setting: Setting, sources: seq<Source>) {
    && setting.pinned
    && (forall n: nat :: setting.faults(n) == NoFault)
    && (forall s <- sources :: s.remembered.None? && (s.read.Read? ==> WasParsed(setting.timeOf, s.read.parsed)))
  }

  /** A source without a plan is skipped at its checkpoint, a known snapshot is skipped, a new one is taken in. */
  ghost function PredictedOutcome(setting: Setting, r: Screening): Outcome {
    if r.planned.None? then SkippedCheckpoint
    else if r.known then SkippedExisting
    else if setting.dryRun then Planned
    else Imported
  }

  ghost predicate PredictsEntry(setting: Setting, r: Screening, e: Entry) {
    e.path == r.path && e.planned == r.planned && e.outcome == PredictedOutcome(setting, r)
  }

  /** The preflight and the run are in the same state, and the run did what the preflight said. */
  ghost predicate Agree(setting: Setting, payloads: map<EvidenceId, Bytes>, pre: Preflight, run: Run) {
    && run.latest == pre.latest
    && run.seen == pre.identities
    && (forall id :: id !in run.seen ==>
          (id in run.payloads <==> id in payloads) && (id in payloads ==> run.payloads[id] == payloads[id]))
    && |run.entries| == |pre.results|
    && forall i :: 0 <= i < |run.entries| ==> PredictsEntry(setting, pre.results[i], run.entries[i])
  }

  lemma AgreementIsCalm(setting: Setting, payloads: map<EvidenceId, Bytes>, pre: Preflight, run: Run, thread: string)
    requires Agree(setting, payloads, pre, run)
    ensures !Troubled(run, thread)
  {
    forall e | e in run.entries
      ensures !Troublesome(e.outcome)
    {
      var i :| 0 <= i < |run.entries| && run.entries[i] == e;
      assert PredictsEntry(setting, pre.results[i], run.entries[i]);
    }
  }

  lemma SameSeen(setting: Setting, payloads: map<EvidenceId, Bytes>, pre: Preflight, run: Run)
    requires Agree(setting, payloads, pre, run)
    ensures run.seen == pre.identities && run.latest == pre.latest
  {
  }

  /** What accepting a snapshot does to the preflight. */
  ghost function AcceptedBy(pre: Preflight, path: string, parsed: Parsed, plan: Plan, record: Record, known: bool)
      : Preflight
  {
    Cleared(pre.(identities := pre.identities[plan.id := parsed.sourceHash],
                 latest := pre.latest[parsed.thread := Snapshot(record, MetadataOf(plan.payload))]),
            path, Some(plan.id), known)
  }

  /** What accepting a snapshot does to the run, as far as the two are compared. */
  ghost predicate AcceptedInto(setting: Setting, run: Run, next: Run, path: string, parsed: Parsed, plan: Plan,
                               record: Record, known: bool) {
    var outcome := PredictedOutcome(setting, Screening(path, None, Some(plan.id), known));
    && next.latest == run.latest[parsed.thread := Snapshot(record, MetadataOf(plan.payload))]
    && next.seen == run.seen[plan.id := parsed.sourceHash]
    && (next.payloads == run.payloads || next.payloads == run.payloads[plan.id := SnapshotBytes(plan.payload)])
    && next.entries == run.entries + [Entry(path, outcome, Some(parsed.thread), Some(plan.id))]
  }

  lemma AcceptingAgrees(setting: Setting, payloads: map<EvidenceId, Bytes>, pre: Preflight, run: Run, next: Run,
                        path: string, parsed: Parsed, plan: Plan, record: Record, known: bool)
    requires Agree(setting, payloads, pre, run)
    requires AcceptedInto(setting, run, next, path, parsed, plan, record, known)
    ensures Agree(setting, payloads, AcceptedBy(pre, path, parsed, plan, record, known), next)
  {
    var after := AcceptedBy(pre, path, parsed, plan, record, known);
    hide MetadataOf;
    forall i | 0 <= i < |next.entries|
      ensures PredictsEntry(setting, after.results[i], next.entries[i])
    {
      if i < |run.entries| {
        assert PredictsEntry(setting, pre.results[i], run.entries[i]);
      }
    }
  }

  /** Payloads this run stored are under ids it has seen, so an unseen plan is judged as before the run. */
  lemma SameJudgement(setting: Setting, payloads: map<EvidenceId, Bytes>, pre: Preflight, run: Run, parsed: Parsed,
                      plan: Plan)
    requires Agree(setting, payloads, pre, run) && plan.id !in run.seen
    ensures Judge(setting.catalog, run.payloads, parsed, plan, LatestOf(run.latest, parsed.thread))
         == Judge(setting.catalog, payloads, parsed, plan, LatestOf(pre.latest, parsed.thread))
  {
  }

  lemma NewIsAccepted(setting: Setting, run: Run, path: string, parsed: Parsed, plan: Plan, record: Record)
    requires setting.pinned && plan.id !in run.seen && plan.payload.source == parsed && !OnDisk(setting, run, plan.id)
    requires Judge(setting.catalog, run.payloads, parsed, plan, LatestOf(run.latest, parsed.thread))
               == NewSnapshot(record)
    ensures AcceptedInto(setting, run, ImportPlanned(setting, run, NoFault, path, parsed, plan), path, parsed, plan,
                         record, false)
  {
    hide Judge, MetadataOf, LatestOf;
  }

  lemma KnownIsAccepted(setting: Setting, run: Run, path: string, parsed: Parsed, plan: Plan, record: Record)
    requires setting.pinned && plan.id !in run.seen
    requires Judge(setting.catalog, run.payloads, parsed, plan, LatestOf(run.latest, parsed.thread))
               == KnownSnapshot(record)
    ensures AcceptedInto(setting, run, ImportPlanned(setting, run, NoFault, path, parsed, plan), path, parsed, plan,
                         record, true)
  {
    hide Judge, MetadataOf, LatestOf;
  }

  /** An unblocked plan with an unseen id is accepted, known or new. */
  lemma UnblockedIsAccepted(catalog: Catalog, payloads: map<EvidenceId, Bytes>, pre: Preflight, path: string,
                            parsed: Parsed, plan: Plan)
    requires plan.id !in pre.identities && plan.sourceHash == parsed.sourceHash
    requires Passed(ScreenPlanned(catalog, payloads, pre, path, parsed, plan))
    ensures var verdict := Judge(catalog, payloads, parsed, plan, LatestOf(pre.latest, parsed.thread));
            var after := ScreenPlanned(catalog, payloads, pre, path, parsed, plan);
            && (verdict.NewSnapshot? || verdict.KnownSnapshot?)
            && (verdict.NewSnapshot? ==> after == AcceptedBy(pre, path, parsed, plan, verdict.record, false))
            && (verdict.KnownSnapshot? ==> after == AcceptedBy(pre, path, parsed, plan, verdict.current, true))
  {
    var after := ScreenPlanned(catalog, payloads, pre, path, parsed, plan);
    assert after.results[|pre.results|] in after.results;
    hide Judge, MetadataOf, LatestOf;
  }

  /** An unseen id that the catalog does not know is not on disk. */
  lemma UnseenIsNotOnDisk(setting: Setting, run: Run, id: EvidenceId)
    requires RunInv(setting, run) && id !in run.seen && id !in setting.catalog.current
    ensures !OnDisk(setting, run, id)
  {
  }

  /** A snapshot the preflight accepts is skipped as known, planned or imported by the run, with the same record. */
  lemma UnseenPlanAgrees(setting: Setting, payloads: map<EvidenceId, Bytes>, pre: Preflight, run: Run, path: string,
                         parsed: Parsed, plan: Plan)
    requires RunInv(setting, run) && Agree(setting, payloads, pre, run) && setting.pinned
    requires plan.id !in run.seen && plan.payload.source == parsed && plan.sourceHash == parsed.sourceHash
    requires Passed(ScreenPlanned(setting.catalog, payloads, pre, path, parsed, plan))
    ensures Agree(setting, payloads, ScreenPlanned(setting.catalog, payloads, pre, path, parsed, plan),
                  ImportPlanned(setting, run, NoFault, path, parsed, plan))
  {
    var next := ImportPlanned(setting, run, NoFault, path, parsed, plan);
    var verdict := Judge(setting.catalog, payloads, parsed, plan, LatestOf(pre.latest, parsed.thread));
    SameSeen(setting, payloads, pre, run);
    SameJudgement(setting, payloads, pre, run, parsed, plan);
    UnblockedIsAccepted(setting.catalog, payloads, pre, path, parsed, plan);
    NewRecordFits(setting, run, parsed, plan);
    hide RunInv, Agree, AcceptedInto, AcceptedBy, Judge, ImportPlanned, ScreenPlanned, LatestOf, MetadataOf, RecordFor;
    if verdict.NewSnapshot? {
      UnseenIsNotOnDisk(setting, run, plan.id);
      hide OnDisk;
      NewIsAccepted(setting, run, path, parsed, plan, verdict.record);
      AcceptingAgrees(setting, payloads, pre, run, next, path, parsed, plan, verdict.record, false);
    } else {
      KnownIsAccepted(setting, run, path, parsed, plan, verdict.current);
      AcceptingAgrees(setting, payloads, pre, run, next, path, parsed, plan, verdict.current, true);
    }
  }

  lemma PlannedStepAgrees(setting: Setting, payloads: map<EvidenceId, Bytes>, pre: Preflight, run: Run, path: string,
                          parsed: Parsed)
    requires RunInv(setting, run) && Agree(setting, payloads, pre, run) && setting.pinned
    requires Plans(parsed, LatestOf(run.latest, parsed.thread))
    requires Passed(ScreenPlanned(setting.catalog, payloads, pre, path, parsed, PlanOf(run, parsed)))
    ensures Agree(setting, payloads, ScreenPlanned(setting.catalog, payloads, pre, path, parsed, PlanOf(run, parsed)),
                  ImportPlanned(setting, run, NoFault, path, parsed, PlanOf(run, parsed)))
  {
    var plan := PlanOf(run, parsed);
    AgreementIsCalm(setting, payloads, pre, run, parsed.thread);
    assert plan.payload.source == parsed && plan.sourceHash == parsed.sourceHash;
    assert plan.id !in run.seen by {
      if plan.id in run.seen {
        DuplicatesOnlyAfterTrouble(setting, run, parsed);
      }
    }
    hide RunInv, Agree, ScreenPlanned, ImportPlanned, PlanOf, Plans;
    UnseenPlanAgrees(setting, payloads, pre, run, path, parsed, plan);
  }

  lemma SkippedStepAgrees(setting: Setting, payloads: map<EvidenceId, Bytes>, pre: Preflight, run: Run, path: string,
                          thread: string)
    requires Agree(setting, payloads, pre, run)
    ensures Agree(setting, payloads, Cleared(pre, path, None, false),
                  Remembered(setting, run.(eligible := run.eligible + 1),
                             Entry(path, SkippedCheckpoint, Some(thread), None)))
  {
    var next := Remembered(setting, run.(eligible := run.eligible + 1),
                           Entry(path, SkippedCheckpoint, Some(thread), None));
    var after := Cleared(pre, path, None, false);
    forall i | 0 <= i < |next.entries|
      ensures PredictsEntry(setting, after.results[i], next.entries[i])
    {
      if i < |run.entries| {
        assert PredictsEntry(setting, pre.results[i], run.entries[i]);
      }
    }
  }

  /** A passed screening went through every gate the run has. */
  lemma PassedGates(catalog: Catalog, payloads: map<EvidenceId, Bytes>, pre: Preflight, source: Source)
    requires Passed(ScreenSource(catalog, payloads, pre, source))
    ensures source.read.Read?
    ensures var parsed := source.read.parsed;
            var latest := LatestOf(pre.latest, parsed.thread);
            && parsed.coverage.Supported? && parsed.insideRoots && !RequiresRepair(parsed, latest)
            && ScreenSource(catalog, payloads, pre, source)
               == (if Checkpoint(parsed, latest).None? then Cleared(pre, source.path, None, false)
                   else ScreenPlanned(catalog, payloads, pre, source.path, parsed,
                                      PlanFor(parsed, latest, Checkpoint(parsed, latest).value)))
  {
    hide RequiresRepair, Checkpoint, PlanFor, ScreenPlanned, LatestOf;
    forall outcome, planned
      ensures !Passed(Blocked(pre, source.path, outcome, planned))
    {
      ABlockIsFinal(pre, source.path, outcome, planned);
    }
  }

  lemma ABlockIsFinal(pre: Preflight, path: string, outcome: Outcome, planned: Option<EvidenceId>)
    ensures !Passed(Blocked(pre, path, outcome, planned))
  {
    var after := Blocked(pre, path, outcome, planned);
    assert after.results[|pre.results|] in after.results;
  }

  lemma StepAgrees(setting: Setting, payloads: map<EvidenceId, Bytes>, pre: Preflight, run: Run, source: Source)
    requires RunInv(setting, run) && Agree(setting, payloads, pre, run) && setting.pinned
    requires source.remembered.None? && (source.read.Read? ==> source.read.parsed.Extractable())
    requires Passed(ScreenSource(setting.catalog, payloads, pre, source))
    ensures Agree(setting, payloads, ScreenSource(setting.catalog, payloads, pre, source),
                  ImportSource(setting, run, NoFault, source))
  {
    PassedGates(setting.catalog, payloads, pre, source);
    SameSeen(setting, payloads, pre, run);
    var parsed := source.read.parsed;
    var checkpoint := Checkpoint(parsed, LatestOf(run.latest, parsed.thread));
    if checkpoint.Some? {
      var counted := run.(eligible := run.eligible + 1);
      assert GetsPlanned(run, parsed);
      ParsedIsPlanned(setting, run, NoFault, source.path, parsed);
      PlannedCheckpoint(run, parsed);
      assert PlanOf(counted, parsed) == PlanOf(run, parsed);
      hide RunInv, Agree, ImportParsed, ImportPlanned, PlanFor, Checkpoint, RequiresRepair, ScreenPlanned, ScreenSource;
      IdleKeepsInv(setting, run, counted);
      EligibleIsFree(setting, payloads, pre, run);
      PlannedStepAgrees(setting, payloads, pre, counted, source.path, parsed);
    } else {
      ParsedIsSkipped(setting, run, source.path, parsed);
      hide RunInv, Agree, ScreenPlanned, ScreenSource, ImportParsed, Remembered, RequiresRepair;
      SkippedStepAgrees(setting, payloads, pre, run, source.path, parsed.thread);
    }
  }

  lemma ParsedIsSkipped(setting: Setting, run: Run, path: string, parsed: Parsed)
    requires parsed.coverage.Supported? && parsed.messages != [] && parsed.insideRoots
    requires !RequiresRepair(parsed, LatestOf(run.latest, parsed.thread))
    requires Checkpoint(parsed, LatestOf(run.latest, parsed.thread)) == None
    ensures ImportParsed(setting, run, NoFault, path, parsed)
         == Remembered(setting, run.(eligible := run.eligible + 1),
                       Entry(path, SkippedCheckpoint, Some(parsed.thread), None))
  {
    hide RequiresRepair, Checkpoint, ImportPlanned, PlanFor, Remembered, Noted, LatestOf;
  }

  lemma EligibleIsFree(setting: Setting, payloads: map<EvidenceId, Bytes>, pre: Preflight, run: Run)
    requires Agree(setting, payloads, pre, run)
    ensures Agree(setting, payloads, pre, run.(eligible := run.eligible + 1))
  {
    var next := run.(eligible := run.eligible + 1);
    forall i | 0 <= i < |next.entries|
      ensures PredictsEntry(setting, pre.results[i], next.entries[i])
    {
      assert PredictsEntry(setting, pre.results[i], run.entries[i]);
    }
  }

  lemma SourceIsExtractable(setting: Setting, sources: seq<Source>, i: nat)
    requires Undisturbed(setting, sources) && i < |sources|
    ensures sources[i].remembered.None? && (sources[i].read.Read? ==> sources[i].read.parsed.Extractable())
  {
    assert sources[i] in sources;
    if sources[i].read.Read? {
      var parsed := sources[i].read.parsed;
      var h: Header, events: seq<VisibleMessages.LineEvent> :| parsed == ParsedFrom(setting.timeOf, h, events);
      ParsedIsExtractable(setting.timeOf, h, events);
    }
  }

  /**
   * On any catalog: when preflight passes and no source is served from the ledger, the real run makes the same
   * decisions in the same order. Every source is skipped at its checkpoint, or its planned snapshot is already
   * known, planned or imported; no conflict, repair or rejection is reached.
   */
  lemma {:induction false} PreflightPredictsTheRun(setting: Setting, latest: Latest, payloads: map<EvidenceId, Bytes>,
                                                   sources: seq<Source>)
    requires Undisturbed(setting, sources)
    requires Passed(ScreenAll(setting.catalog, payloads, latest, sources))
    ensures Agree(setting, payloads, ScreenAll(setting.catalog, payloads, latest, sources),
                  ImportAll(setting, Started(latest, payloads), sources))
    decreases |sources|
  {
    if sources != [] {
      var n := |sources| - 1;
      var pre := ScreenAll(setting.catalog, payloads, latest, sources[..n]);
      ScreeningOnlyAdds(setting.catalog, payloads, pre, sources[n]);
      SourceIsExtractable(setting, sources, n);
      hide RunInv, ImportSource, ScreenSource, Agree, WasParsed;
      PreflightPredictsTheRun(setting, latest, payloads, sources[..n]);
      RunKeepsInv(setting, latest, payloads, sources[..n]);
      StepAgrees(setting, payloads, pre, ImportAll(setting, Started(latest, payloads), sources[..n]), sources[n]);
    }
  }

  lemma ScreeningOnlyAdds(catalog: Catalog, payloads: map<EvidenceId, Bytes>, pre: Preflight, source: Source)
    ensures pre.results <= ScreenSource(catalog, payloads, pre, source).results
    ensures Passed(ScreenSource(catalog, payloads, pre, source)) ==> Passed(pre)
  {
    hide Judge, PlanFor, RequiresRepair, Checkpoint, MetadataOf;
  }

  /** An outcome that a pinned selection may leave. */
  ghost predicate Clean(outcome: Outcome) {
    outcome == SkippedCheckpoint || outcome == SkippedExisting || outcome == Planned || outcome == Imported
  }

  lemma PredictedIsClean(setting: Setting, payloads: map<EvidenceId, Bytes>, pre: Preflight, run: Run)
    requires Agree(setting, payloads, pre, run)
    ensures forall e <- run.entries :: Clean(e.outcome)
  {
    forall e | e in run.entries
      ensures Clean(e.outcome)
    {
      var i :| 0 <= i < |run.entries| && run.entries[i] == e;
      assert PredictsEntry(setting, pre.results[i], run.entries[i]);
    }
  }

  ghost predicate LeavesUnclean(run: Run, next: Run) {
    |next.entries| == |run.entries| + 1 && !Clean(next.entries[|run.entries|].outcome)
  }

  lemma BlockedPlanIsUnclean(setting: Setting, payloads: map<EvidenceId, Bytes>, pre: Preflight, run: Run,
                             path: string, parsed: Parsed, plan: Plan)
    requires Agree(setting, payloads, pre, run) && plan.id !in run.seen
    requires Passed(pre) && !Passed(ScreenPlanned(setting.catalog, payloads, pre, path, parsed, plan))
    ensures LeavesUnclean(run, ImportPlanned(setting, run, NoFault, path, parsed, plan))
  {
    SameSeen(setting, payloads, pre, run);
    SameJudgement(setting, payloads, pre, run, parsed, plan);
    hide Agree, Judge, LatestOf, MetadataOf;
  }

  lemma GatedRolloutIsUnclean(setting: Setting, payloads: map<EvidenceId, Bytes>, pre: Preflight, run: Run,
                              path: string, parsed: Parsed)
    requires run.latest == pre.latest && parsed.Extractable() && !GetsPlanned(run, parsed)
    requires Passed(pre) && !Passed(ScreenParsed(setting.catalog, payloads, pre, path, parsed))
    ensures LeavesUnclean(run, ImportParsed(setting, run, NoFault, path, parsed))
  {
    hide RequiresRepair, Checkpoint, PlanFor, ScreenPlanned, ImportPlanned, LatestOf;
  }

  lemma BlockedRolloutIsUnclean(setting: Setting, payloads: map<EvidenceId, Bytes>, pre: Preflight, run: Run,
                                path: string, parsed: Parsed)
    requires RunInv(setting, run) && Agree(setting, payloads, pre, run) && setting.pinned && parsed.Extractable()
    requires Passed(pre) && !Passed(ScreenParsed(setting.catalog, payloads, pre, path, parsed))
    ensures LeavesUnclean(run, ImportParsed(setting, run, NoFault, path, parsed))
  {
    hide RequiresRepair, Checkpoint, PlanFor, RunInv, ImportParsed, Passed, Plans;
    if GetsPlanned(run, parsed) {
      var counted := run.(eligible := run.eligible + 1);
      var plan := PlanOf(run, parsed);
      PlannedCheckpoint(run, parsed);
      ParsedIsPlanned(setting, run, NoFault, path, parsed);
      AgreementIsCalm(setting, payloads, pre, run, parsed.thread);
      if plan.id in run.seen {
        DuplicatesOnlyAfterTrouble(setting, run, parsed);
      }
      BlockedPlanIsUnclean(setting, payloads, pre, counted, path, parsed, plan);
    } else {
      GatedRolloutIsUnclean(setting, payloads, pre, run, path, parsed);
    }
  }

  lemma BlockedSourceIsUnclean(setting: Setting, payloads: map<EvidenceId, Bytes>, pre: Preflight, run: Run,
                               source: Source)
    requires RunInv(setting, run) && Agree(setting, payloads, pre, run) && setting.pinned
    requires source.remembered.None? && (source.read.Read? ==> source.read.parsed.Extractable())
    requires Passed(pre) && !Passed(ScreenSource(setting.catalog, payloads, pre, source))
    ensures LeavesUnclean(run, ImportSource(setting, run, NoFault, source))
  {
    hide RunInv, Agree, ScreenParsed, ImportParsed;
    if source.read.Read? {
      BlockedRolloutIsUnclean(setting, payloads, pre, run, source.path, source.read.parsed);
    }
  }

  /**
   * A preflight passes exactly when the run it stands for would neither reject nor repair nor conflict: on any
   * catalog, with no source served from the ledger and no fault.
   */
  lemma {:induction false} PassesExactlyWhenTheRunIsClean(setting: Setting, latest: Latest,
                                                          payloads: map<EvidenceId, Bytes>, sources: seq<Source>)
    requires Undisturbed(setting, sources)
    ensures Passed(ScreenAll(setting.catalog, payloads, latest, sources))
       <==> forall e <- ImportAll(setting, Started(latest, payloads), sources).entries :: Clean(e.outcome)
    decreases |sources|
  {
    hide RunInv, ImportSource, ScreenSource, Agree, WasParsed;
    var pre := ScreenAll(setting.catalog, payloads, latest, sources);
    var run := ImportAll(setting, Started(latest, payloads), sources);
    if Passed(pre) {
      PreflightPredictsTheRun(setting, latest, payloads, sources);
      PredictedIsClean(setting, payloads, pre, run);
    } else {
      var n := |sources| - 1;
      var before := ImportAll(setting, Started(latest, payloads), sources[..n]);
      PassesExactlyWhenTheRunIsClean(setting, latest, payloads, sources[..n]);
      StepMoves(setting, before, setting.faults(n), sources[n]);
      StepAddsOneEntry(setting, before, setting.faults(n), sources[n]);
      if Passed(ScreenAll(setting.catalog, payloads, latest, sources[..n])) {
        PreflightPredictsTheRun(setting, latest, payloads, sources[..n]);
        RunKeepsInv(setting, latest, payloads, sources[..n]);
        SourceIsExtractable(setting, sources, n);
        BlockedSourceIsUnclean(setting, payloads, ScreenAll(setting.catalog, payloads, latest, sources[..n]), before,
                               sources[n]);
        assert run.entries[|before.entries|] in run.entries;
      }
    }
  }

  // ----- the run itself -----

  class RolloutImporter {
    const setting: Setting
    var latest: Latest
    var seen: map<EvidenceId, string>
    var payloads: map<EvidenceId, Bytes>
    var written: seq<Record>
    var links: seq<(string, EvidenceId)>
    var ledger: map<string, Outcome>
    var eligible: nat
    var entries: seq<Entry>
    var counted: seq<Outcome>

    function State(): Run
      reads this
    {
      Run(latest, seen, payloads, written, links, ledger, eligible, entries, counted)
    }

    constructor (setting: Setting, latest: Latest, payloads: map<EvidenceId, Bytes>)
      ensures this.setting == setting && State() == Started(latest, payloads)
    {
      this.setting := setting;
      this.latest, this.payloads := latest, payloads;
      seen, written, links, ledger, eligible, entries, counted := map[], [], [], map[], 0, [], [];
    }

    method Note(entry: Entry)
      modifies this`entries, this`counted
      ensures State() == Noted(old(State()), entry)
    {
      entries := entries + [entry];
      counted := counted + [entry.outcome];
    }

    method Remember(entry: Entry)
      modifies this`entries, this`counted, this`ledger
      ensures State() == Remembered(setting, old(State()), entry)
    {
      Note(entry);
      if !setting.dryRun {
        ledger := ledger[entry.path := entry.outcome];
      }
    }

    method Settle(fault: Fault, entry: Entry, thread: string, id: EvidenceId, snapshot: Snapshot)
      modifies this
      ensures State() == Settled(setting, old(State()), fault, entry, thread, id, snapshot)
    {
      if !setting.dryRun && !setting.pinned {
        if fault.LinkFault? {
          counted := counted + [entry.outcome];
          Note(entry.(outcome := LinkFailed));
          return;
        }
        links := links + [(thread, id)];
      }
      Remember(entry);
      latest := latest[thread := snapshot];
    }

    method Write(fault: Fault, entry: Entry, plan: Plan, record: Record)
      modifies this
      ensures State() == WriteNew(setting, old(State()), fault, entry, plan, record)
    {
      var thread := plan.payload.source.thread;
      var snapshot := Snapshot(record, MetadataOf(plan.payload));
      if setting.dryRun {
        Settle(fault, entry.(outcome := Planned), thread, plan.id, snapshot);
        return;
      }
      if fault.PayloadFault? {
        Note(entry.(outcome := Errored));
        return;
      }
      payloads := payloads[plan.id := SnapshotBytes(plan.payload)];
      if fault.RecordFault? || plan.id in setting.catalog.current || exists r <- written :: r.id == plan.id {
        Note(entry.(outcome := Errored));
        return;
      }
      written := written + [record];
      Settle(fault, entry.(outcome := Imported), thread, plan.id, snapshot);
    }

    method ImportSnapshot(fault: Fault, path: string, parsed: Parsed, plan: Plan)
      modifies this
      ensures State() == ImportPlanned(setting, old(State()), fault, path, parsed, plan)
    {
      hide WriteNew, MetadataOf, Judge, LatestOf;
      var previous := LatestOf(latest, parsed.thread);
      var entry := Entry(path, SkippedDuplicateSource, Some(parsed.thread), Some(plan.id));
      if plan.id in seen {
        if seen[plan.id] == parsed.sourceHash {
          Remember(entry);
        } else {
          Note(entry.(outcome := DuplicateConflict));
        }
        return;
      }
      seen := seen[plan.id := parsed.sourceHash];
      var verdict := Judge(setting.catalog, payloads, parsed, plan, previous);
      match verdict
      case RecordConflict => Note(entry.(outcome := RecordMismatch));
      case PayloadConflict => Note(entry.(outcome := PayloadMismatch));
      case KnownSnapshot(current) =>
        Settle(fault, entry.(outcome := SkippedExisting), parsed.thread, plan.id,
               Snapshot(current, MetadataOf(plan.payload)));
      case NewSnapshot(record) => Write(fault, entry, plan, record);
    }

    method ImportRollout(fault: Fault, path: string, parsed: Parsed)
      modifies this
      ensures State() == ImportParsed(setting, old(State()), fault, path, parsed)
    {
      hide ImportPlanned, PlanFor, Checkpoint, RequiresRepair;
      var previous := LatestOf(latest, parsed.thread);
      var entry := Entry(path, SkippedWorkspaceFilter, Some(parsed.thread), None);
      if !parsed.insideRoots {
        Note(entry);
        return;
      }
      if (parsed.coverage.Supported? || parsed.coverage.NoVisibleMessages?) && RequiresRepair(parsed, previous) {
        Note(entry.(outcome := RepairRequired));
        return;
      }
      if parsed.coverage.Unsupported? || parsed.coverage.Partial? {
        Remember(entry.(outcome := if parsed.coverage.Unsupported? then RejectedUnsupported else RejectedPartial));
        return;
      }
      if parsed.messages == [] {
        Remember(entry.(outcome := SkippedNoVisibleMessages));
        return;
      }
      eligible := eligible + 1;
      var checkpoint := Checkpoint(parsed, previous);
      if checkpoint.None? {
        Remember(entry.(outcome := SkippedCheckpoint));
        return;
      }
      ImportSnapshot(fault, path, parsed, PlanFor(parsed, previous, checkpoint.value));
    }

    method Import(fault: Fault, source: Source)
      modifies this
      ensures State() == ImportSource(setting, old(State()), fault, source)
    {
      hide ImportParsed;
      if source.remembered.Some? {
        Note(Entry(source.path, SkippedUnchanged, None, None));
        if source.remembered.value.messageCount > 0 && source.remembered.value.coverage.Supported? {
          eligible := eligible + 1;
        }
        return;
      }
      match source.read
      case Unreadable => Note(Entry(source.path, Errored, None, None));
      case Malformed => Note(Entry(source.path, RejectedMalformed, None, None));
      case Read(parsed) => ImportRollout(fault, source.path, parsed);
    }

    /** The loop over the candidate files; it stops once the limit is reached. */
    method ImportCandidates(sources: seq<Source>, limit: nat)
      modifies this
      ensures State() == ImportAll(setting, old(State()), if limit < |sources| then sources[..limit] else sources)
    {
      hide ImportSource;
      var n := 0;
      while n < |sources| && n < limit
        invariant 0 <= n <= |sources| && n <= limit
        invariant State() == ImportAll(setting, old(State()), sources[..n])
      {
        assert sources[..n + 1][..n] == sources[..n];
        Import(setting.faults(n), sources[n]);
        n := n + 1;
      }
      assert sources[..n] == if limit < |sources| then sources[..limit] else sources;
    }

    /** Saves the ledger, dropping sources no longer listed; a failed save is one more error. */
    method Finish(ledgerState: ImportState.CodexImportState, listed: Option<set<string>>) returns (saved: bool)
      modifies this`counted, ledgerState, ledgerState.disk
      ensures State() == AfterSave(setting, old(State()), saved)
      ensures counted == old(counted) + (if setting.dryRun || saved then [] else [Errored])
      ensures setting.dryRun ==>
                && saved && ledgerState.disk.ledger == old(ledgerState.disk.ledger)
                && ledgerState.sources == old(ledgerState.sources)
      ensures !setting.dryRun ==>
                && (saved <==> !old(ledgerState.disk.locked)
                               && old(ledgerState.disk.ledger) == old(ledgerState.loadedBytes))
                && (if saved then
                      ledgerState.disk.ledger == Some(ImportState.Rendered(ImportState.CURRENT_VERSION,
                                                                           ledgerState.sources))
                    else ledgerState.disk.ledger == old(ledgerState.disk.ledger))
                && ledgerState.sources == Pruned(old(ledgerState.sources), listed)
    {
      if setting.dryRun {
        return true;
      }
      if listed.Some? {
        ledgerState.PruneSources(listed.value);
      }
      var result := ledgerState.Save();
      saved := result.Success?;
      if !saved {
        counted := counted + [Errored];
      }
    }
  }

  ghost function Pruned<V>(sources: map<string, V>, listed: Option<set<string>>): map<string, V> {
    if listed.None? then sources else map path | path in sources && path in listed.value :: sources[path]
  }

  /** An unpinned run: the candidates up to the limit, then the ledger. */
  method ImportRollouts(setting: Setting, latest: Latest, payloads: map<EvidenceId, Bytes>, sources: seq<Source>,
                        limit: nat, ledgerState: ImportState.CodexImportState, listed: Option<set<string>>)
    returns (importer: RolloutImporter, saved: bool)
    requires !setting.pinned
    modifies ledgerState, ledgerState.disk
    ensures fresh(importer)
    ensures var candidates := if limit < |sources| then sources[..limit] else sources;
            var run := ImportAll(setting, Started(latest, payloads), candidates);
            && importer.State() == AfterSave(setting, run, saved)
            && |importer.counted| == |candidates| + LinkFailures(run.entries) + (if saved then 0 else 1)
    ensures !setting.dryRun ==>
              (saved <==> !old(ledgerState.disk.locked) && old(ledgerState.disk.ledger) == old(ledgerState.loadedBytes))
  {
    importer := new RolloutImporter(setting, latest, payloads);
    importer.ImportCandidates(sources, limit);
    ghost var candidates := if limit < |sources| then sources[..limit] else sources;
    saved := importer.Finish(ledgerState, listed);
    CountersOfARun(setting, latest, payloads, candidates, saved);
  }

  method PreflightSelectedSources(catalog: Catalog, payloads: map<EvidenceId, Bytes>, latest: Latest,
                                  sources: seq<Source>)
    returns (passed: bool, results: seq<Screening>, ghost pre: Preflight)
    ensures pre == ScreenAll(catalog, payloads, latest, sources) && results == pre.results
    ensures passed <==> Passed(pre)
    ensures |results| == |sources|
  {
    hide ScreenSource;
    var state := Preflight(latest, map[], []);
    for i := 0 to |sources|
      invariant state == ScreenAll(catalog, payloads, latest, sources[..i]) && |state.results| == i
    {
      assert sources[..i + 1][..i] == sources[..i];
      ScreeningAddsOne(catalog, payloads, state, sources[i]);
      state := ScreenSource(catalog, payloads, state, sources[i]);
    }
    assert sources[..|sources|] == sources;
    pre := state;
    results := state.results;
    passed := Passed(state);
  }

  lemma ScreeningAddsOne(catalog: Catalog, payloads: map<EvidenceId, Bytes>, pre: Preflight, source: Source)
    ensures |ScreenSource(catalog, payloads, pre, source).results| == |pre.results| + 1
  {
    hide Judge, PlanFor, RequiresRepair, Checkpoint, MetadataOf;
  }

  /** A blocked source keeps its own outcome; one that would have passed is not attempted. */
  function BlockedEntries(results: seq<Screening>): seq<Entry> {
    seq(|results|, i requires 0 <= i < |results| =>
      Entry(results[i].path, if results[i].blocked.Some? then results[i].blocked.value else NotAttempted, None, None))
  }

  function OutcomesOf(entries: seq<Entry>): seq<Outcome> {
    seq(|entries|, i requires 0 <= i < |entries| => entries[i].outcome)
  }

  /** A pinned selection: nothing at all is written unless the whole selection passes preflight. */
  method ImportSelection(setting: Setting, latest: Latest, payloads: map<EvidenceId, Bytes>, sources: seq<Source>,
                         ledgerState: ImportState.CodexImportState)
    returns (importer: RolloutImporter, saved: bool)
    requires setting.pinned
    modifies ledgerState, ledgerState.disk
    ensures fresh(importer)
    ensures var pre := ScreenAll(setting.catalog, payloads, latest, sources);
            var entries := BlockedEntries(pre.results);
            importer.State() ==
              if Passed(pre) then AfterSave(setting, ImportAll(setting, Started(latest, payloads), sources), saved)
              else Started(latest, payloads).(entries := entries, counted := OutcomesOf(entries))
    ensures !Passed(ScreenAll(setting.catalog, payloads, latest, sources)) ==>
              && WritesNothing(Started(latest, payloads), importer.State())
              && ledgerState.sources == old(ledgerState.sources)
              && ledgerState.disk.ledger == old(ledgerState.disk.ledger)
  {
    importer := new RolloutImporter(setting, latest, payloads);
    var passed, results, pre := PreflightSelectedSources(setting.catalog, payloads, latest, sources);
    if passed {
      importer.ImportCandidates(sources, |sources|);
      saved := importer.Finish(ledgerState, None);
    } else {
      saved := false;
      importer.entries := BlockedEntries(results);
      importer.counted := OutcomesOf(importer.entries);
    }
  }
}
