/**
 * Snapshots of a growing thread: when a rollout needs a new one, which time it carries, and what
 * importing a single planned snapshot does to the catalog.
 */
module RolloutSnapshots {
  import opened Common
  import VisibleMessages

  datatype Message = Message(
    sequence: int, timestamp: Option<string>, role: string, phase: Option<string>, text: string)

  predicate IsFinalAnswer(m: Message) {
    m.role == "assistant" && m.phase == Some("final_answer")
  }

  function FinalAnswers(messages: seq<Message>): nat {
    if messages == [] then 0
    else FinalAnswers(messages[..|messages| - 1]) + if IsFinalAnswer(messages[|messages| - 1]) then 1 else 0
  }

  type Coverage = VisibleMessages.Coverage

  /** A parsed rollout. Times are milliseconds; a hash stands for the bytes it was computed from. */
  datatype Parsed = Parsed(
    thread: string,
    sourceHash: string,
    sourcePath: string,
    lastVisibleAt: int,
    observedAt: int,
    isArchived: bool,
    messages: seq<Message>,
    coverage: Coverage,
    legacyFormat: bool,
    insideRoots: bool,
    workspace: Option<string>)
  {
    /** A rollout counts as supported only when it shows some message. */
    predicate Extractable() {
      (coverage.Supported? ==> messages != []) && (coverage.NoVisibleMessages? ==> messages == [])
    }
  }

  // ----- parsing: the identity and times of a rollout, and what its events show -----

  /** How a timestamp is read; no time for a text that is no date, such as the empty one. */
  type TimeOf = string -> Option<int>

  function ValidTimes(timeOf: TimeOf): string -> bool {
    (timestamp: string) => timeOf(timestamp).Some?
  }

  datatype Header = Header(
    thread: string,
    sourceHash: string,
    sourcePath: string,
    startedAt: Option<string>,
    observedAt: int,
    isArchived: bool,
    inherited: bool,
    insideRoots: bool,
    workspace: Option<string>)

  function MessageOf(v: VisibleMessages.Visible): Message {
    Message(v.sequence, v.timestamp, if v.role.User? then "user" else "assistant", v.phase, v.text)
  }

  function MessagesOf(visible: seq<VisibleMessages.Visible>): (r: seq<Message>)
    ensures |r| == |visible|
  {
    seq(|visible|, i requires 0 <= i < |visible| => MessageOf(visible[i]))
  }

  /** The time of the last message, else of the session, else when the file was last written. */
  function LastVisibleAt(timeOf: TimeOf, messages: seq<Message>, startedAt: Option<string>, observedAt: int): int {
    var stamp :=
      if messages != [] && messages[|messages| - 1].timestamp.Some? then messages[|messages| - 1].timestamp
      else startedAt;
    if stamp.Some? && timeOf(stamp.value).Some? then timeOf(stamp.value).value else observedAt
  }

  /** A rollout that inherits another thread's scope is never better than partial. */
  function ParseRollout(timeOf: TimeOf, h: Header, x: VisibleMessages.Extraction): Parsed {
    var coverage :=
      if !h.inherited then x.coverage
      else if x.visible != [] then VisibleMessages.Partial
      else VisibleMessages.Unsupported;
    var messages := MessagesOf(x.visible);
    Parsed(h.thread, h.sourceHash, h.sourcePath, LastVisibleAt(timeOf, messages, h.startedAt, h.observedAt),
           h.observedAt, h.isArchived, messages, coverage, x.format.LegacyOnly?, h.insideRoots, h.workspace)
  }

  /** The rollout of a header and its events. */
  ghost function ParsedFrom(timeOf: TimeOf, h: Header, events: seq<VisibleMessages.LineEvent>): Parsed {
    ParseRollout(timeOf, h, VisibleMessages.Extracted(ValidTimes(timeOf), h.thread, events))
  }

  lemma {:induction false} SameFinalAnswers(visible: seq<VisibleMessages.Visible>)
    ensures FinalAnswers(MessagesOf(visible)) == VisibleMessages.FinalAnswers(visible)
    decreases |visible|
  {
    if visible != [] {
      var n := |visible| - 1;
      SameFinalAnswers(visible[..n]);
      assert MessagesOf(visible)[..n] == MessagesOf(visible[..n]);
    }
  }

  /** Whatever its events, a parsed rollout is supported only with messages, and counts its final answers. */
  lemma ParsedIsExtractable(timeOf: TimeOf, h: Header, events: seq<VisibleMessages.LineEvent>)
    ensures ParsedFrom(timeOf, h, events).Extractable()
    ensures FinalAnswers(ParsedFrom(timeOf, h, events).messages)
         == VisibleMessages.Extracted(ValidTimes(timeOf), h.thread, events).finalAnswers
  {
    VisibleMessages.CoverageFollowsMessages(ValidTimes(timeOf), h.thread, events);
    hide VisibleMessages.Extracted;
    SameFinalAnswers(VisibleMessages.Extracted(ValidTimes(timeOf), h.thread, events).visible);
  }

  /** Some rollout of events parses to it. */
  ghost predicate WasParsed(timeOf: TimeOf, parsed: Parsed) {
    exists h: Header, events: seq<VisibleMessages.LineEvent> :: parsed == ParsedFrom(timeOf, h, events)
  }

  datatype Reason = FirstSeen | NewFinalAnswer | ThreadArchived | MessageThreshold | AgeThreshold

  /** Snapshot ids are built from thread and time; catalogs may hold records named otherwise. */
  datatype EvidenceId = SnapshotId(thread: string, capturedAt: int) | NamedId(name: string)

  datatype Payload = Payload(source: Parsed, capturedAt: int, reason: Reason)

  datatype Bytes = SnapshotBytes(payload: Payload) | OtherBytes(name: string)

  datatype Record = Record(
    id: EvidenceId,
    thread: Option<string>,
    capturedAt: int,
    sourceHash: string,
    sourcePath: string,
    payload: Bytes,
    workspace: Option<string>,
    parent: Option<EvidenceId>,
    correctionOf: Option<EvidenceId>)

  datatype Metadata = Metadata(messageCount: int, finalAnswers: int, isArchived: bool, messages: seq<Message>)
  {
    /** The stored counts are those of the stored messages. */
    ghost predicate Consistent() {
      messageCount == |messages| && finalAnswers == FinalAnswers(messages)
    }
  }

  datatype Snapshot = Snapshot(record: Record, metadata: Metadata)

  type Latest = map<string, Snapshot>

  function LatestOf(latest: Latest, thread: string): Option<Snapshot> {
    if thread in latest then Some(latest[thread]) else None
  }

  ghost function KnownLatest(latest: Latest, thread: string): Option<Record> {
    if thread in latest then Some(latest[thread].record) else None
  }

  // ----- the checkpoint decision -----

  const CHECKPOINT_MESSAGES := 100
  const CHECKPOINT_DAYS := 7
  const DAY := 86400000

  /** The stored snapshot disagrees with messages it should already have contained. */
  predicate RequiresRepair(parsed: Parsed, latest: Option<Snapshot>) {
    && latest.Some?
    && (parsed.sourceHash == latest.value.record.sourceHash || parsed.lastVisibleAt <= latest.value.record.capturedAt)
    && latest.value.metadata.messages != parsed.messages
  }

  /** Whole days from one time to another, rounded down; negative when going back. */
  function DaysBetween(left: int, right: int): int {
    (right - left) / DAY
  }

  function Checkpoint(parsed: Parsed, latest: Option<Snapshot>): Option<Reason> {
    if latest.None? then Some(FirstSeen)
    else
      var previous := latest.value.metadata;
      if FinalAnswers(parsed.messages) > previous.finalAnswers then Some(NewFinalAnswer)
      else if parsed.isArchived && !previous.isArchived then Some(ThreadArchived)
      else if |parsed.messages| - previous.messageCount >= CHECKPOINT_MESSAGES then Some(MessageThreshold)
      else if DaysBetween(latest.value.record.capturedAt, parsed.lastVisibleAt) >= CHECKPOINT_DAYS then
        Some(AgeThreshold)
      else None
  }

  function Max(a: int, b: int): int {
    if a >= b then a else b
  }

  function CapturedAt(parsed: Parsed, latest: Option<Snapshot>, reason: Reason): int {
    if reason.ThreadArchived? then
      if latest.None? then Max(parsed.lastVisibleAt, parsed.observedAt)
      else
        var previous := latest.value.record.capturedAt;
        var observed := Max(Max(parsed.lastVisibleAt, parsed.observedAt), previous);
        if observed > previous then observed else previous + 1
    else parsed.lastVisibleAt
  }

  datatype Plan = Plan(id: EvidenceId, capturedAt: int, sourceHash: string, payload: Payload)

  function PlanFor(parsed: Parsed, latest: Option<Snapshot>, reason: Reason): Plan {
    var at := CapturedAt(parsed, latest, reason);
    Plan(SnapshotId(parsed.thread, at), at, parsed.sourceHash, Payload(parsed, at, reason))
  }

  /** The stored counts do not fall so far behind the stored messages that the same messages look new. */
  ghost predicate CountsSuffice(m: Metadata) {
    m.messages == []
    || (FinalAnswers(m.messages) <= m.finalAnswers && |m.messages| - m.messageCount < CHECKPOINT_MESSAGES)
  }

  /** The rollout has messages, contradicts nothing stored and reaches a checkpoint. */
  ghost predicate Plans(parsed: Parsed, latest: Option<Snapshot>) {
    parsed.messages != [] && !RequiresRepair(parsed, latest) && Checkpoint(parsed, latest).Some?
  }

  ghost function PlannedTime(parsed: Parsed, latest: Option<Snapshot>): int
    requires Checkpoint(parsed, latest).Some?
  {
    PlanFor(parsed, latest, Checkpoint(parsed, latest).value).capturedAt
  }

  /** A snapshot planned for a thread that already has one is strictly later. */
  lemma PlannedIsLater(parsed: Parsed, latest: Snapshot)
    requires CountsSuffice(latest.metadata) && Plans(parsed, Some(latest))
    ensures PlannedTime(parsed, Some(latest)) > latest.record.capturedAt
  {
    if parsed.messages == latest.metadata.messages {
      assert !Checkpoint(parsed, Some(latest)).value.NewFinalAnswer?;
      assert !Checkpoint(parsed, Some(latest)).value.MessageThreshold?;
    }
  }

  /** Counts that are those of the messages suffice. */
  lemma ConsistentCountsSuffice(m: Metadata)
    requires m.Consistent()
    ensures CountsSuffice(m)
  {
  }

  /** The fields of a stored payload that may be missing from older ones. */
  datatype Stored = Stored(messageCount: Option<int>, finalAnswers: Option<int>, archived: Option<bool>,
                           fromArchive: bool, messages: seq<Message>)

  function DerivedMetadata(s: Stored): Metadata {
    Metadata(if s.messageCount.Some? then s.messageCount.value else |s.messages|,
             if s.finalAnswers.Some? then s.finalAnswers.value else FinalAnswers(s.messages),
             if s.archived.Some? then s.archived.value else s.fromArchive,
             s.messages)
  }

  lemma DerivedIsConsistentExactlyWhen(s: Stored)
    ensures DerivedMetadata(s).Consistent()
       <==> (s.messageCount.None? || s.messageCount.value == |s.messages|)
            && (s.finalAnswers.None? || s.finalAnswers.value == FinalAnswers(s.messages))
  {
  }

  // ----- importing one planned snapshot -----

  function MetadataOf(payload: Payload): Metadata {
    Metadata(|payload.source.messages|, FinalAnswers(payload.source.messages), payload.source.isArchived,
             payload.source.messages)
  }

  function RecordFor(parsed: Parsed, plan: Plan, latest: Option<Snapshot>): Record {
    Record(plan.id, Some(parsed.thread), plan.capturedAt, plan.sourceHash, parsed.sourcePath,
           SnapshotBytes(plan.payload), parsed.workspace,
           if latest.Some? && latest.value.record.id != plan.id then Some(latest.value.record.id) else None,
           None)
  }

  /** Nothing but the id and the correction link may differ. */
  predicate SameFields(current: Record, expected: Record) {
    expected.(id := current.id, correctionOf := if current.correctionOf.Some? then current.correctionOf
                                                else expected.correctionOf) == current
  }

  predicate LegacyEquivalent(current: Record, expected: Record, existing: seq<Message>, next: seq<Message>) {
    && current.workspace == expected.workspace
    && current.thread == expected.thread && current.sourcePath == expected.sourcePath
    && current.capturedAt == expected.capturedAt && current.sourceHash == expected.sourceHash
    && existing == next
  }

  /** The catalog as a run found it: its records, the current record of each id, and a record's stored metadata. */
  datatype Catalog = Catalog(records: seq<Record>, current: map<EvidenceId, Record>, metadata: Record -> Metadata)
  {
    ghost predicate Resolves() {
      && (forall id :: id in current <==> exists r <- records :: r.id == id)
      && (forall id :: id in current ==> current[id] in records)
    }

    /** A record named like a snapshot belongs to that thread and carries that time. */
    ghost predicate WellIdentified() {
      forall r <- records :: r.id.SnapshotId? ==> r.thread == Some(r.id.thread) && r.capturedAt == r.id.capturedAt
    }

    ghost predicate SufficientCounts() {
      forall r <- records :: CountsSuffice(metadata(r))
    }
  }

  datatype Verdict =
    | KnownSnapshot(current: Record)
    | RecordConflict
    | PayloadConflict
    | NewSnapshot(record: Record)

  /** What the catalog and the stored payloads say about a planned snapshot, before anything is written. */
  function Judge(catalog: Catalog, payloads: map<EvidenceId, Bytes>, parsed: Parsed, plan: Plan,
                 latest: Option<Snapshot>): Verdict
  {
    var record := RecordFor(parsed, plan, latest);
    if plan.id in catalog.current then
      var current := catalog.current[plan.id];
      if SameFields(current, record)
         || (parsed.legacyFormat && LegacyEquivalent(current, record, catalog.metadata(current).messages,
                                                     parsed.messages))
      then KnownSnapshot(current) else RecordConflict
    else if plan.id in payloads && payloads[plan.id] != SnapshotBytes(plan.payload) then PayloadConflict
    else NewSnapshot(record)
  }

  // ----- the latest snapshots of a catalog -----

  function LaterOf(current: Option<Record>, r: Record): Record {
    if current.None? || r.capturedAt > current.value.capturedAt then r else current.value
  }

  ghost predicate HasThread(records: seq<Record>, thread: string) {
    exists r <- records :: r.thread == Some(thread)
  }

  /** The record at k is the first of the thread's records that no other is later than. */
  ghost predicate IsLatestAt(records: seq<Record>, thread: string, k: nat)
    requires k < |records|
  {
    && records[k].thread == Some(thread)
    && (forall i :: 0 <= i < |records| && records[i].thread == Some(thread) ==>
          records[i].capturedAt <= records[k].capturedAt)
    && (forall i :: 0 <= i < k && records[i].thread == Some(thread) ==> records[i].capturedAt < records[k].capturedAt)
  }

  ghost predicate IsLatest(records: seq<Record>, thread: string, r: Record) {
    exists k: nat | k < |records| :: records[k] == r && IsLatestAt(records, thread, k)
  }

  /** A thread has a latest record exactly when it has records, and it is the latest of them. */
  ghost predicate TellsLatest(records: seq<Record>, thread: string, latest: Option<Record>) {
    if latest.None? then !HasThread(records, thread) else IsLatest(records, thread, latest.value)
  }

  lemma OtherThreadsFirst(records: seq<Record>, r: Record, thread: string, latest: Option<Record>)
    requires TellsLatest(records, thread, latest) && r.thread != Some(thread)
    ensures TellsLatest(records + [r], thread, latest)
  {
    var more := records + [r];
    if latest.Some? {
      var k: nat :| k < |records| && records[k] == latest.value && IsLatestAt(records, thread, k);
      assert more[k] == latest.value && IsLatestAt(more, thread, k);
    }
  }

  lemma LaterComesFirst(records: seq<Record>, r: Record, thread: string, latest: Option<Record>)
    requires TellsLatest(records, thread, latest) && r.thread == Some(thread)
    ensures TellsLatest(records + [r], thread,
                        Some(if latest.None? || r.capturedAt > latest.value.capturedAt then r else latest.value))
  {
    var more := records + [r];
    if latest.None? {
      assert forall i :: 0 <= i < |records| ==> records[i] in records;
      assert more[|records|] == r && IsLatestAt(more, thread, |records|);
    } else {
      var k: nat :| k < |records| && records[k] == latest.value && IsLatestAt(records, thread, k);
      if r.capturedAt > latest.value.capturedAt {
        assert more[|records|] == r && IsLatestAt(more, thread, |records|);
      } else {
        assert more[k] == latest.value && IsLatestAt(more, thread, k);
      }
    }
  }

  method LoadLatestSnapshots(catalog: Catalog) returns (latest: Latest)
    ensures forall t :: TellsLatest(catalog.records, t, KnownLatest(latest, t))
    ensures forall t :: t in latest ==>
              && latest[t].record in catalog.records && latest[t].record.thread == Some(t)
              && latest[t].metadata == catalog.metadata(latest[t].record)
    ensures catalog.SufficientCounts() ==> Rooted(catalog, latest)
    ensures Covers(catalog, latest)
  {
    hide TellsLatest, CountsSuffice;
    var byThread: map<string, Record> := map[];
    NoRecords();
    for i := 0 to |catalog.records|
      invariant forall t :: TellsLatest(catalog.records[..i], t, if t in byThread then Some(byThread[t]) else None)
    {
      assert catalog.records[..i + 1] == catalog.records[..i] + [catalog.records[i]];
      var r := catalog.records[i];
      forall t, current | TellsLatest(catalog.records[..i], t, current)
        ensures r.thread != Some(t) ==> TellsLatest(catalog.records[..i + 1], t, current)
        ensures r.thread == Some(t) ==> TellsLatest(catalog.records[..i + 1], t, Some(LaterOf(current, r)))
      {
        if r.thread == Some(t) {
          LaterComesFirst(catalog.records[..i], r, t, current);
        } else {
          OtherThreadsFirst(catalog.records[..i], r, t, current);
        }
      }
      if r.thread.Some? {
        var current := if r.thread.value in byThread then Some(byThread[r.thread.value]) else None;
        byThread := byThread[r.thread.value := LaterOf(current, r)];
      }
    }
    assert catalog.records[..|catalog.records|] == catalog.records;
    latest := map t | t in byThread :: Snapshot(byThread[t], catalog.metadata(byThread[t]));
    assert forall t :: t in latest <==> t in byThread;
    forall t
      ensures TellsLatest(catalog.records, t, KnownLatest(latest, t))
    {
      assert TellsLatest(catalog.records, t, if t in byThread then Some(byThread[t]) else None);
    }
    LatestIsRooted(catalog, latest);
  }

  lemma NoRecords()
    ensures forall t :: TellsLatest([], t, None)
  {
  }

  lemma LatestIsRooted(catalog: Catalog, latest: Latest)
    requires forall t :: TellsLatest(catalog.records, t, KnownLatest(latest, t))
    ensures forall t :: t in latest ==> latest[t].record in catalog.records && latest[t].record.thread == Some(t)
    ensures Covers(catalog, latest)
  {
    forall t | t in latest
      ensures IsLatest(catalog.records, t, latest[t].record)
    {
      assert TellsLatest(catalog.records, t, KnownLatest(latest, t));
    }
    forall r | r in catalog.records && r.thread.Some?
      ensures r.thread.value in latest && r.capturedAt <= latest[r.thread.value].record.capturedAt
    {
      var t := r.thread.value;
      assert TellsLatest(catalog.records, t, KnownLatest(latest, t));
      assert HasThread(catalog.records, t);
    }
  }

  /** Every latest snapshot is a catalog record of its thread, with counts that suffice. */
  ghost predicate Rooted(catalog: Catalog, latest: Latest) {
    forall t :: t in latest ==>
      && latest[t].record in catalog.records && latest[t].record.thread == Some(t)
      && CountsSuffice(latest[t].metadata)
  }

  /** No catalog record of a thread is later than the thread's latest snapshot. */
  ghost predicate Covers(catalog: Catalog, latest: Latest) {
    forall r <- catalog.records :: r.thread.Some? ==>
      r.thread.value in latest && r.capturedAt <= latest[r.thread.value].record.capturedAt
  }
}
