/**
 * The chains that the snapshots of a thread form: each stored snapshot names the one its thread had just
 * before it, in the catalog or earlier in the same run.
 */
module SnapshotChains {
  import opened Common
  import opened RolloutSnapshots
  import opened RolloutImport
  import ImportOutcomes
  import ImportState

  /** The parent is the latest record the thread had before; none exactly when it had none. */
  ghost predicate ParentIsLatest(r: Record, earlier: seq<Record>)
  {
    && r.thread.Some?
    && (r.parent.None? <==> !HasThread(earlier, r.thread.value))
    && (r.parent.Some? ==>
          exists p: Record :: p.id == r.parent.value && p.capturedAt < r.capturedAt
                              && IsLatest(earlier, r.thread.value, p))
  }

  /** The thread of the i-th stored snapshot never ran into trouble. */
  ghost predicate WrittenCalmly(run: Run, i: nat)
    requires i < |run.written|
  {
    run.written[i].thread.Some? && !Troubled(run, run.written[i].thread.value)
  }

  /** The latest snapshot of a thread without trouble is its latest record, in the catalog or written since. */
  ghost predicate LatestTells(setting: Setting, run: Run) {
    forall t :: !Troubled(run, t) ==> TellsLatest(setting.catalog.records + run.written, t, KnownLatest(run.latest, t))
  }

  ghost predicate ParentsTell(setting: Setting, run: Run) {
    forall i :: 0 <= i < |run.written| && WrittenCalmly(run, i) ==>
      ParentIsLatest(run.written[i], setting.catalog.records + run.written[..i])
  }

  lemma NoneIsLater(records: seq<Record>, latest: Latest, r: Record, thread: string)
    requires TellsLatest(records, thread, KnownLatest(latest, thread)) && r in records && r.thread == Some(thread)
    ensures thread in latest && r.capturedAt <= latest[thread].record.capturedAt
  {
    assert HasThread(records, thread);
  }

  lemma UnsettledIsTrouble(setting: Setting, a: Run, b: Run, p: Progress)
    requires Advanced(setting, a, b, p) && !p.settled
    ensures Troubled(b, p.parsed.thread)
  {
    assert b.entries[|a.entries|] in b.entries;
  }

  /** A thread without trouble never meets a snapshot the catalog already has: what is planned is later than all. */
  lemma CalmSnapshotsAreStored(setting: Setting, a: Run, b: Run, p: Progress)
    requires setting.catalog.Resolves() && !setting.dryRun && ChainInv(setting, a) && LatestTells(setting, a)
    requires Planning(a, p.parsed, p.plan, p.record) && Advanced(setting, a, b, p) && !Troubled(b, p.parsed.thread)
    ensures p.stored && p.settled
  {
    CalmBefore(a, b);
    hide Troubled, CountsSuffice, ParentIsOlder, TellsLatest;
    if !p.settled {
      UnsettledIsTrouble(setting, a, b, p);
    } else if !p.stored {
      NoneIsLater(setting.catalog.records + a.written, a.latest, p.record, p.parsed.thread);
    }
  }

  lemma AdvanceTellsLatest(setting: Setting, a: Run, b: Run, p: Progress)
    requires setting.catalog.Resolves() && !setting.dryRun && ChainInv(setting, a) && LatestTells(setting, a)
    requires Planning(a, p.parsed, p.plan, p.record) && Advanced(setting, a, b, p)
    ensures LatestTells(setting, b)
  {
    var all := setting.catalog.records + a.written;
    CalmBefore(a, b);
    if !Troubled(b, p.parsed.thread) {
      CalmSnapshotsAreStored(setting, a, b, p);
    }
    hide Troubled, CountsSuffice, ParentIsOlder, TellsLatest;
    assert p.stored ==> setting.catalog.records + b.written == all + [p.record];
    forall t | !Troubled(b, t)
      ensures TellsLatest(setting.catalog.records + b.written, t, KnownLatest(b.latest, t))
    {
      assert TellsLatest(all, t, KnownLatest(a.latest, t));
      if t == p.parsed.thread {
        LaterComesFirst(all, p.record, t, KnownLatest(a.latest, t));
      } else if p.stored {
        OtherThreadsFirst(all, p.record, t, KnownLatest(a.latest, t));
      }
    }
  }

  /** A snapshot stored for a thread without trouble has the thread's latest record as its parent. */
  lemma StoredHasItsParent(setting: Setting, a: Run, b: Run, p: Progress)
    requires setting.catalog.Resolves() && RunInv(setting, a) && ChainInv(setting, a) && LatestTells(setting, a)
    requires Planning(a, p.parsed, p.plan, p.record) && Advanced(setting, a, b, p)
    requires p.stored && !Troubled(a, p.parsed.thread)
    ensures ParentIsLatest(p.record, setting.catalog.records + a.written)
  {
    var t := p.parsed.thread;
    var all := setting.catalog.records + a.written;
    assert TellsLatest(all, t, KnownLatest(a.latest, t));
    hide Troubled, CountsSuffice, ParentIsOlder, IsLatest;
    if t in a.latest {
      var previous := a.latest[t].record;
      LatestIsAmong(all, t, previous);
      assert previous in all && previous.id != p.plan.id by {
        if previous in a.written {
          assert previous.id in a.seen;
        }
      }
    }
  }

  lemma LatestIsAmong(records: seq<Record>, thread: string, r: Record)
    requires IsLatest(records, thread, r)
    ensures r in records && HasThread(records, thread)
  {
  }

  lemma AdvanceTellsParents(setting: Setting, a: Run, b: Run, p: Progress)
    requires setting.catalog.Resolves() && RunInv(setting, a) && ChainInv(setting, a) && LatestTells(setting, a)
    requires ParentsTell(setting, a)
    requires Planning(a, p.parsed, p.plan, p.record) && Advanced(setting, a, b, p)
    ensures ParentsTell(setting, b)
  {
    hide ParentIsLatest, RunInv, ChainInv, LatestTells, ParentsTell;
    CalmBefore(a, b);
    if p.stored {
      if !Troubled(a, p.parsed.thread) {
        StoredHasItsParent(setting, a, b, p);
      }
      OneMoreParent(setting, a, b, p.record);
    } else {
      SameParents(setting, a, b);
    }
  }

  lemma OneMoreParent(setting: Setting, a: Run, b: Run, r: Record)
    requires ParentsTell(setting, a) && b.written == a.written + [r]
    requires forall t :: !Troubled(b, t) ==> !Troubled(a, t)
    requires r.thread.Some? && !Troubled(a, r.thread.value) ==>
               ParentIsLatest(r, setting.catalog.records + a.written)
    ensures ParentsTell(setting, b)
  {
    hide Troubled, ParentIsLatest;
    forall i | 0 <= i < |b.written| && WrittenCalmly(b, i)
      ensures ParentIsLatest(b.written[i], setting.catalog.records + b.written[..i])
    {
      if i < |a.written| {
        assert b.written[..i] == a.written[..i];
        assert WrittenCalmly(a, i);
      } else {
        assert b.written[..i] == a.written;
      }
    }
  }

  lemma SameParents(setting: Setting, a: Run, b: Run)
    requires ParentsTell(setting, a) && b.written == a.written
    requires forall t :: !Troubled(b, t) ==> !Troubled(a, t)
    ensures ParentsTell(setting, b)
  {
    hide Troubled, ParentIsLatest;
    assert forall i :: 0 <= i < |b.written| && WrittenCalmly(b, i) ==> WrittenCalmly(a, i);
  }

  lemma MoveKeepsParents(setting: Setting, a: Run, b: Run)
    requires setting.catalog.Resolves() && !setting.dryRun && Moved(setting, a, b)
    requires RunInv(setting, a) && ChainInv(setting, a) && LatestTells(setting, a) && ParentsTell(setting, a)
    ensures LatestTells(setting, b) && ParentsTell(setting, b)
  {
    if SameCore(a, b) {
      CalmBefore(a, b);
      SameParents(setting, a, b);
      hide Troubled, ParentsTell, TellsLatest;
    } else {
      var p: Progress :| Planning(a, p.parsed, p.plan, p.record) && Advanced(setting, a, b, p);
      hide LatestTells, ParentsTell, RunInv, ChainInv;
      AdvanceTellsLatest(setting, a, b, p);
      AdvanceTellsParents(setting, a, b, p);
    }
  }

  /**
   * In every run that writes, from the latest snapshots of the catalog: until its thread runs into trouble, each
   * stored snapshot has as its parent the latest record its thread had before it, in the catalog or in this run,
   * and has none exactly when the thread had none.
   */
  lemma {:induction false} RunTellsParents(setting: Setting, latest: Latest, payloads: map<EvidenceId, Bytes>,
                                           sources: seq<Source>)
    requires setting.catalog.Resolves() && !setting.dryRun && Rooted(setting.catalog, latest)
    requires forall t :: TellsLatest(setting.catalog.records, t, KnownLatest(latest, t))
    ensures var run := ImportAll(setting, Started(latest, payloads), sources);
            LatestTells(setting, run) && ParentsTell(setting, run)
    decreases |sources|
  {
    hide RunInv, ChainInv, LatestTells, ParentsTell, ImportSource, Moved, Rooted, TellsLatest;
    if sources == [] {
      NothingWritten(setting, latest, payloads);
    } else {
      var n := |sources| - 1;
      var before := ImportAll(setting, Started(latest, payloads), sources[..n]);
      RunTellsParents(setting, latest, payloads, sources[..n]);
      RunKeepsInv(setting, latest, payloads, sources[..n]);
      RunKeepsChains(setting, latest, payloads, sources[..n]);
      StepMoves(setting, before, setting.faults(n), sources[n]);
      MoveKeepsParents(setting, before, ImportSource(setting, before, setting.faults(n), sources[n]));
    }
  }

  lemma NothingWritten(setting: Setting, latest: Latest, payloads: map<EvidenceId, Bytes>)
    requires forall t :: TellsLatest(setting.catalog.records, t, KnownLatest(latest, t))
    ensures LatestTells(setting, Started(latest, payloads)) && ParentsTell(setting, Started(latest, payloads))
  {
    assert setting.catalog.records + Started(latest, payloads).written == setting.catalog.records;
  }

  /**
   * Each parent is an older record of the thread, stored before; until the thread runs into trouble it is the
   * latest record of the thread, and only a thread without records stores a snapshot without a parent.
   */
  lemma StoredSnapshotsFormChains(setting: Setting, latest: Latest, payloads: map<EvidenceId, Bytes>,
                                  sources: seq<Source>)
    requires setting.catalog.Resolves() && Rooted(setting.catalog, latest)
    requires forall t :: TellsLatest(setting.catalog.records, t, KnownLatest(latest, t))
    ensures var run := ImportAll(setting, Started(latest, payloads), sources);
            forall i :: 0 <= i < |run.written| ==>
              && ParentIsOlder(run.written[i], setting.catalog.records + run.written[..i])
              && (WrittenCalmly(run, i) ==>
                    ParentIsLatest(run.written[i], setting.catalog.records + run.written[..i]))
  {
    hide ImportAll, Rooted, TellsLatest, ParentIsLatest, ParentIsOlder, Troubled, LatestTells;
    RunKeepsChains(setting, latest, payloads, sources);
    if setting.dryRun {
      RunKeepsInv(setting, latest, payloads, sources);
    } else {
      RunTellsParents(setting, latest, payloads, sources);
    }
  }

  lemma SavingIsCalm(setting: Setting, run: Run, saved: bool)
    ensures forall t :: Troubled(AfterSave(setting, run, saved), t) <==> Troubled(run, t)
  {
  }

  /**
   * A whole unpinned import over a catalog: the latest snapshots are loaded from it, and what is stored chains on
   * to it whenever its records resolve and their counts suffice.
   */
  method ImportIntoCatalog(setting: Setting, payloads: map<EvidenceId, Bytes>, sources: seq<Source>, limit: nat,
                           ledgerState: ImportState.CodexImportState, listed: Option<set<string>>)
    returns (importer: RolloutImporter, saved: bool, ghost latest: Latest)
    requires !setting.pinned
    modifies ledgerState, ledgerState.disk
    ensures fresh(importer)
    ensures var candidates := if limit < |sources| then sources[..limit] else sources;
            importer.State() == AfterSave(setting, ImportAll(setting, Started(latest, payloads), candidates), saved)
    ensures Covers(setting.catalog, latest)
    ensures forall i, j :: 0 <= i < j < |importer.written| ==> importer.written[i].id != importer.written[j].id
    ensures forall r <- importer.written :: r.id !in setting.catalog.current
    ensures var candidates := if limit < |sources| then sources[..limit] else sources;
            forall r <- importer.written :: ImportOutcomes.TakenOfSome(importer.payloads, r, candidates)
    ensures setting.catalog.Resolves() && setting.catalog.SufficientCounts() ==>
              && Rooted(setting.catalog, latest)
              && (forall i :: 0 <= i < |importer.written| ==>
                    ParentIsOlder(importer.written[i], setting.catalog.records + importer.written[..i]))
              && Covers(setting.catalog, importer.latest)
              && (forall i :: 0 <= i < |importer.written| && WrittenCalmly(importer.State(), i) ==>
                    ParentIsLatest(importer.written[i], setting.catalog.records + importer.written[..i]))
  {
    hide ImportAll, RunInv, ChainInv, Covers, Rooted, ParentIsOlder, ParentIsLatest, TellsLatest,
         Troubled, ImportOutcomes.TakenOfSome;
    var loaded := LoadLatestSnapshots(setting.catalog);
    latest := loaded;
    importer, saved := ImportRollouts(setting, loaded, payloads, sources, limit, ledgerState, listed);
    ghost var candidates := if limit < |sources| then sources[..limit] else sources;
    StoredSnapshotsAreDistinct(setting, loaded, payloads, candidates);
    ImportOutcomes.StoredSnapshotsShowTheirSources(setting, loaded, payloads, candidates);
    if setting.catalog.Resolves() && setting.catalog.SufficientCounts() {
      StoredSnapshotsFormChains(setting, loaded, payloads, candidates);
      RunKeepsChains(setting, loaded, payloads, candidates);
      SavingIsCalm(setting, ImportAll(setting, Started(latest, payloads), candidates), saved);
    }
  }
}
