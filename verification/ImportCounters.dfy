/**
 * When the counters of an import add up to its candidates: a failed seed link is counted besides the
 * snapshot it belongs to, and a failed ledger save besides all of them.
 */
module ImportCounters {
  import opened Common
  import opened RolloutSnapshots
  import opened RolloutImport
  import opened RolloutReplay

  // ----- which candidates reach the seed link -----

  /** What stands before the link: a readable rollout with a plan of its own that is known, or new and written. */
  ghost predicate ReachesLink(setting: Setting, run: Run, source: Source) {
    && !setting.dryRun && !setting.pinned
    && source.remembered.None? && source.read.Read?
    && GetsPlanned(run, source.read.parsed)
    && Accepts(setting, run, source.read.parsed, PlanOf(run, source.read.parsed))
  }

  ghost predicate Accepts(setting: Setting, run: Run, parsed: Parsed, plan: Plan) {
    && plan.id !in run.seen
    && var verdict := Judge(setting.catalog, run.payloads, parsed, plan, LatestOf(run.latest, parsed.thread));
       verdict.KnownSnapshot? || (verdict.NewSnapshot? && !OnDisk(setting, run, plan.id))
  }

  /** One more entry, a failed link or not. */
  ghost predicate Leaves(a: Run, b: Run, failedLink: bool) {
    |b.entries| == |a.entries| + 1 && (b.entries[|a.entries|].outcome.LinkFailed? <==> failedLink)
  }

  lemma NotingLeaves(before: Run, run: Run, entry: Entry)
    requires before.entries == run.entries
    ensures Leaves(before, Noted(run, entry), entry.outcome.LinkFailed?)
  {
  }

  lemma RememberingLeaves(setting: Setting, before: Run, run: Run, entry: Entry)
    requires before.entries == run.entries
    ensures Leaves(before, Remembered(setting, run, entry), entry.outcome.LinkFailed?)
  {
  }

  lemma SettlingLeaves(setting: Setting, before: Run, run: Run, fault: Fault, entry: Entry, thread: string,
                       id: EvidenceId, snapshot: Snapshot)
    requires before.entries == run.entries && entry.outcome != LinkFailed
    ensures Leaves(before, Settled(setting, run, fault, entry, thread, id, snapshot),
                   !setting.dryRun && !setting.pinned && fault.LinkFault?)
  {
  }

  lemma WritingLeaves(setting: Setting, before: Run, run: Run, fault: Fault, entry: Entry, plan: Plan, record: Record)
    requires before.entries == run.entries
    ensures Leaves(before, WriteNew(setting, run, fault, entry, plan, record),
                   !setting.dryRun && !setting.pinned && fault.LinkFault? && !OnDisk(setting, run, plan.id))
  {
    var thread := plan.payload.source.thread;
    var snapshot := Snapshot(record, MetadataOf(plan.payload));
    var stored := run.(payloads := run.payloads[plan.id := SnapshotBytes(plan.payload)]);
    var written := stored.(written := run.written + [record]);
    hide MetadataOf, OnDisk, Settled, Noted, Leaves;
    NotingLeaves(before, run, entry.(outcome := Errored));
    NotingLeaves(before, stored, entry.(outcome := Errored));
    SettlingLeaves(setting, before, run, fault, entry.(outcome := Planned), thread, plan.id, snapshot);
    SettlingLeaves(setting, before, written, fault, entry.(outcome := Imported), thread, plan.id, snapshot);
  }

  lemma PlannedLeaves(setting: Setting, run: Run, fault: Fault, path: string, parsed: Parsed, plan: Plan)
    ensures Leaves(run, ImportPlanned(setting, run, fault, path, parsed, plan),
                   !setting.dryRun && !setting.pinned && fault.LinkFault? && Accepts(setting, run, parsed, plan))
  {
    hide Judge, MetadataOf, LatestOf, WriteNew, Settled, Noted, Remembered, Leaves, OnDisk;
    var marked := run.(seen := run.seen[plan.id := parsed.sourceHash]);
    var entry := Entry(path, SkippedDuplicateSource, Some(parsed.thread), Some(plan.id));
    var verdict := Judge(setting.catalog, run.payloads, parsed, plan, LatestOf(run.latest, parsed.thread));
    if plan.id in run.seen {
      NotingLeaves(run, run, entry.(outcome := DuplicateConflict));
      RememberingLeaves(setting, run, run, entry);
    } else if verdict.NewSnapshot? {
      WritingLeaves(setting, run, marked, fault, entry, plan, verdict.record);
      SameDisk(setting, run, marked, plan.id);
    } else if verdict.KnownSnapshot? {
      SettlingLeaves(setting, run, marked, fault, entry.(outcome := SkippedExisting), parsed.thread, plan.id,
                     Snapshot(verdict.current, MetadataOf(plan.payload)));
    } else {
      NotingLeaves(run, marked, entry.(outcome := RecordMismatch));
      NotingLeaves(run, marked, entry.(outcome := PayloadMismatch));
    }
  }

  lemma SameDisk(setting: Setting, a: Run, b: Run, id: EvidenceId)
    requires a.written == b.written
    ensures OnDisk(setting, a, id) == OnDisk(setting, b, id)
  {
  }

  lemma ParsedLeaves(setting: Setting, run: Run, fault: Fault, path: string, parsed: Parsed)
    ensures Leaves(run, ImportParsed(setting, run, fault, path, parsed),
                   && !setting.dryRun && !setting.pinned && fault.LinkFault?
                   && GetsPlanned(run, parsed) && Accepts(setting, run, parsed, PlanOf(run, parsed)))
  {
    hide PlanFor, RequiresRepair, Checkpoint, ImportPlanned, LatestOf, Judge, OnDisk;
    if GetsPlanned(run, parsed) {
      var counted := run.(eligible := run.eligible + 1);
      ParsedIsPlanned(setting, run, fault, path, parsed);
      PlannedLeaves(setting, counted, fault, path, parsed, PlanOf(run, parsed));
      SameDisk(setting, run, counted, PlanOf(run, parsed).id);
    }
  }

  /** A candidate leaves a failed link exactly when it reaches the link and the link fails. */
  lemma LinkFailsExactlyWhen(setting: Setting, run: Run, fault: Fault, source: Source)
    ensures Leaves(run, ImportSource(setting, run, fault, source),
                   fault.LinkFault? && ReachesLink(setting, run, source))
  {
    hide ImportParsed, GetsPlanned, Accepts, PlanOf;
    if source.remembered.None? && source.read.Read? {
      ParsedLeaves(setting, run, fault, source.path, source.read.parsed);
    }
  }

  // ----- when the counters add up -----

  /** The n-th candidate, reached in the state the ones before it leave, fails at its link. */
  ghost predicate LinkBreaks(setting: Setting, start: Run, sources: seq<Source>, n: nat)
    requires n < |sources|
  {
    setting.faults(n).LinkFault? && ReachesLink(setting, ImportAll(setting, start, sources[..n]), sources[n])
  }

  lemma {:induction false} EntriesTellLinks(setting: Setting, start: Run, sources: seq<Source>)
    requires start.entries == []
    ensures var entries := ImportAll(setting, start, sources).entries;
            && |entries| == |sources|
            && forall n: nat :: n < |sources| ==>
                 (entries[n].outcome.LinkFailed? <==> LinkBreaks(setting, start, sources, n))
    decreases |sources|
  {
    hide ImportSource, ReachesLink;
    if sources != [] {
      var n := |sources| - 1;
      var before := ImportAll(setting, start, sources[..n]);
      EntriesTellLinks(setting, start, sources[..n]);
      LinkFailsExactlyWhen(setting, before, setting.faults(n), sources[n]);
      var after := ImportAll(setting, start, sources);
      KeepsEntries(setting, before, setting.faults(n), sources[n]);
      forall k: nat | k < |sources|
        ensures after.entries[k].outcome.LinkFailed? <==> LinkBreaks(setting, start, sources, k)
      {
        if k < n {
          assert sources[..n][..k] == sources[..k];
          assert LinkBreaks(setting, start, sources[..n], k) == LinkBreaks(setting, start, sources, k);
        }
      }
    }
  }

  lemma KeepsEntries(setting: Setting, run: Run, fault: Fault, source: Source)
    ensures run.entries <= ImportSource(setting, run, fault, source).entries
  {
    hide ImportSource;
    StepAddsOneEntry(setting, run, fault, source);
  }

  lemma {:induction false} NoLinkFailures(entries: seq<Entry>)
    ensures LinkFailures(entries) == 0 <==> forall n :: 0 <= n < |entries| ==> !entries[n].outcome.LinkFailed?
  {
    if entries != [] {
      NoLinkFailures(entries[..|entries| - 1]);
    }
  }

  /** The counters of a run add up exactly when no candidate breaks at its link and the save succeeds. */
  lemma CountersAddUpExactlyWhen(setting: Setting, latest: Latest, payloads: map<EvidenceId, Bytes>,
                                 sources: seq<Source>, saved: bool)
    ensures var start := Started(latest, payloads);
            |AfterSave(setting, ImportAll(setting, start, sources), saved).counted| == |sources| <==>
              && (setting.dryRun || saved)
              && forall n: nat :: n < |sources| ==> !LinkBreaks(setting, start, sources, n)
  {
    hide ImportAll, LinkBreaks;
    var start := Started(latest, payloads);
    var run := ImportAll(setting, start, sources);
    CountersOfARun(setting, latest, payloads, sources, saved);
    EntriesTellLinks(setting, start, sources);
    NoLinkFailures(run.entries);
  }

  // ----- which settings are safe for every selection -----

  /** The guard of the link: it is not taken on a dry or pinned run, and otherwise it may fail. */
  ghost predicate LinksSafely(setting: Setting) {
    setting.dryRun || setting.pinned || forall n: nat :: setting.faults(n) != LinkFault
  }

  ghost function Unread(n: nat): seq<Source> {
    seq(n, i => Source("", None, Unreadable))
  }

  lemma {:induction false} UnreadChangesNothing(setting: Setting, start: Run, n: nat)
    ensures var run := ImportAll(setting, start, Unread(n));
            run == start.(entries := run.entries, counted := run.counted)
    decreases n
  {
    if n > 0 {
      UnreadChangesNothing(setting, start, n - 1);
      assert Unread(n)[..n - 1] == Unread(n - 1);
    }
  }

  /** A rollout of one message, in a thread of its own. */
  ghost function OneMessage(timeOf: TimeOf, thread: string, stamp: string): Parsed {
    ParsedFrom(timeOf, Header(thread, "", "", None, 0, false, false, true, None),
               Printing([Message(1, Some(stamp), "user", None, "Hello.")]))
  }

  ghost predicate UnknownThread(setting: Setting, latest: Latest, payloads: map<EvidenceId, Bytes>, thread: string) {
    && thread !in latest
    && (forall at: int :: SnapshotId(thread, at) !in setting.catalog.current && SnapshotId(thread, at) !in payloads)
  }

  lemma OneMessageIsNew(timeOf: TimeOf, thread: string, stamp: string)
    requires timeOf(stamp).Some?
    ensures var parsed := OneMessage(timeOf, thread, stamp);
            && Importable(timeOf, parsed) && parsed.thread == thread && parsed.messages != []
  {
    var h := Header(thread, "", "", None, 0, false, false, true, None);
    var messages := [Message(1, Some(stamp), "user", None, "Hello.")];
    PrintingShowsMessages(timeOf, h, messages);
  }

  lemma NewRolloutReachesLink(setting: Setting, run: Run, parsed: Parsed)
    requires !setting.dryRun && !setting.pinned && run.seen == map[] && run.written == []
    requires UnknownThread(setting, run.latest, run.payloads, parsed.thread)
    requires parsed.insideRoots && parsed.coverage.Supported? && parsed.messages != []
    ensures ReachesLink(setting, run, Source("", None, Read(parsed)))
  {
  }

  /** The failing input: after any number of unreadable sources, a new rollout at the index of a link fault. */
  lemma LinkFaultBreaksTheCounters(setting: Setting, latest: Latest, payloads: map<EvidenceId, Bytes>, n: nat,
                                   thread: string, stamp: string)
      returns (sources: seq<Source>)
    requires !setting.dryRun && !setting.pinned && setting.faults(n) == LinkFault
    requires setting.timeOf(stamp).Some? && UnknownThread(setting, latest, payloads, thread)
    ensures |sources| == n + 1
    ensures forall s <- sources :: s.read.Read? ==> Importable(setting.timeOf, s.read.parsed)
    ensures |AfterSave(setting, ImportAll(setting, Started(latest, payloads), sources), true).counted| > |sources|
  {
    var start := Started(latest, payloads);
    var parsed := OneMessage(setting.timeOf, thread, stamp);
    hide Importable, OneMessage, ReachesLink, ImportSource;
    OneMessageIsNew(setting.timeOf, thread, stamp);
    ImportableIsSupported(setting.timeOf, parsed);
    sources := Unread(n) + [Source("", None, Read(parsed))];
    assert sources[..n] == Unread(n);
    UnreadChangesNothing(setting, start, n);
    NewRolloutReachesLink(setting, ImportAll(setting, start, Unread(n)), parsed);
    assert LinkBreaks(setting, start, sources, n);
    CountersAddUpExactlyWhen(setting, latest, payloads, sources, true);
    CountersOfARun(setting, latest, payloads, sources, true);
  }

  lemma ImportableIsSupported(timeOf: TimeOf, parsed: Parsed)
    requires Importable(timeOf, parsed)
    ensures parsed.insideRoots && parsed.coverage.Supported?
  {
  }

  /**
   * Over all selections: with a successful save the counters always add up exactly when the link is not taken or
   * never fails.
   */
  lemma CountersAlwaysAddUpExactlyWhen(setting: Setting, latest: Latest, payloads: map<EvidenceId, Bytes>,
                                       thread: string, stamp: string)
    requires setting.timeOf(stamp).Some? && UnknownThread(setting, latest, payloads, thread)
    ensures LinksSafely(setting)
       <==> forall sources: seq<Source> ::
              |AfterSave(setting, ImportAll(setting, Started(latest, payloads), sources), true).counted| == |sources|
  {
    var start := Started(latest, payloads);
    hide ImportAll, AfterSave, UnknownThread;
    if LinksSafely(setting) {
      forall sources: seq<Source>
        ensures |AfterSave(setting, ImportAll(setting, start, sources), true).counted| == |sources|
      {
        CountersAddUpExactlyWhen(setting, latest, payloads, sources, true);
        SafeLinksHold(setting, start, sources);
      }
    } else {
      var n: nat :| setting.faults(n) == LinkFault;
      var sources := LinkFaultBreaksTheCounters(setting, latest, payloads, n, thread, stamp);
      assert |AfterSave(setting, ImportAll(setting, start, sources), true).counted| != |sources|;
    }
  }

  lemma SafeLinksHold(setting: Setting, start: Run, sources: seq<Source>)
    requires LinksSafely(setting)
    ensures forall n: nat :: n < |sources| ==> !LinkBreaks(setting, start, sources, n)
  {
    hide ImportAll;
  }
}
