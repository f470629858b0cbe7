/**
 * Showing the messages of a stored snapshot once more: which messages a rollout can show at all, and
 * exactly when a rollout planned on top of a snapshot goes back in time or takes its id again.
 */
module RolloutReplay {
  import opened Common
  import opened RolloutSnapshots
  import V = VisibleMessages

  // ----- what a cleanly read rollout shows -----

  /** Messages numbered from one, each of a visible role and phase, with a readable time. */
  ghost predicate Showable(timeOf: TimeOf, messages: seq<Message>) {
    forall i :: 0 <= i < |messages| ==> ShowableAt(timeOf, messages[i], i + 1)
  }

  ghost predicate ShowableAt(timeOf: TimeOf, m: Message, sequence: int) {
    && m.sequence == sequence
    && m.timestamp.Some? && timeOf(m.timestamp.value).Some?
    && (|| (m.role == "user" && m.phase.None?)
        || (m.role == "assistant" && (m.phase.None? || m.phase.value in V.VISIBLE_PHASES)))
  }

  ghost predicate Fits(valid: string -> bool, m: V.MessageData) {
    && V.ValidTime(valid, m.timestamp)
    && (m.phase.None? || (m.role.Assistant? && m.phase.value in V.VISIBLE_PHASES))
  }

  ghost predicate AllFit(valid: string -> bool, messages: seq<V.MessageData>) {
    forall i :: 0 <= i < |messages| ==> Fits(valid, messages[i])
  }

  lemma CollectStepFits(valid: string -> bool, thread: string, st: V.Collected, at: V.LineEvent)
    requires st.issues == [] ==> AllFit(valid, st.primary)
    ensures var next := V.CollectStep(valid, thread, st, at); next.issues == [] ==> AllFit(valid, next.primary)
  {
  }

  lemma {:induction false} CollectedFit(valid: string -> bool, thread: string, events: seq<V.LineEvent>)
    ensures var st := V.Collect(valid, thread, events); st.issues == [] ==> AllFit(valid, st.primary)
    decreases |events|
  {
    hide V.CollectStep;
    if events != [] {
      var n := |events| - 1;
      CollectedFit(valid, thread, events[..n]);
      CollectStepFits(valid, thread, V.Collect(valid, thread, events[..n]), events[n]);
    }
  }

  lemma {:induction false} PrintedFit(valid: string -> bool, primary: seq<V.MessageData>)
    requires AllFit(valid, primary)
    ensures AllFit(valid, V.PrintAll(primary).printed)
    decreases |primary|
  {
    if primary != [] {
      PrintedFit(valid, primary[..|primary| - 1]);
    }
  }

  lemma MatchedFit(valid: string -> bool, printed: seq<V.MessageData>, final: seq<V.MessageData>)
    requires AllFit(valid, printed) && V.OnlyPhasesAdded(printed, final)
    ensures AllFit(valid, final)
  {
    forall k | 0 <= k < |final|
      ensures Fits(valid, final[k])
    {
      assert Fits(valid, printed[k]) && V.SameProjection(printed[k], final[k]) && V.PhaseKept(printed[k], final[k]);
    }
  }

  lemma ExtractedFit(valid: string -> bool, thread: string, events: seq<V.LineEvent>)
    requires V.Extracted(valid, thread, events).diagnosticCount == 0
    ensures AllFit(valid, V.Extracted(valid, thread, events).ordered)
  {
    hide V.Collect, V.PrintAll, V.MatchAll, V.PhaseIssues, AllFit;
    var collected := V.Collect(valid, thread, events);
    var printed := V.PrintAll(collected.primary).printed;
    var final := V.MatchAll(printed, collected.responses).printed;
    CollectedFit(valid, thread, events);
    PrintedFit(valid, collected.primary);
    V.MatchingIsSound(printed, collected.responses);
    MatchedFit(valid, printed, final);
    SortedFit(valid, final);
  }

  lemma SortedFit(valid: string -> bool, messages: seq<V.MessageData>)
    requires AllFit(valid, messages)
    ensures AllFit(valid, Sort(V.ByLine, messages))
  {
    V.ByLineIsATotalPreorder();
    SortSorts(V.ByLine, messages);
    var sorted := Sort(V.ByLine, messages);
    forall k | 0 <= k < |sorted|
      ensures Fits(valid, sorted[k])
    {
      assert sorted[k] in messages;
    }
  }

  /** Whatever the events, a supported rollout shows showable messages. */
  lemma SupportedIsShowable(timeOf: TimeOf, h: Header, events: seq<V.LineEvent>)
    requires ParsedFrom(timeOf, h, events).coverage.Supported?
    ensures Showable(timeOf, ParsedFrom(timeOf, h, events).messages)
  {
    var x := V.Extracted(ValidTimes(timeOf), h.thread, events);
    V.CoverageFollowsMessages(ValidTimes(timeOf), h.thread, events);
    ExtractedFit(ValidTimes(timeOf), h.thread, events);
    VisibleAreOrdered(ValidTimes(timeOf), h.thread, events);
    FittingIsShowable(timeOf, x);
  }

  lemma VisibleAreOrdered(valid: string -> bool, thread: string, events: seq<V.LineEvent>)
    ensures var x := V.Extracted(valid, thread, events); x.visible == V.VisibleOf(x.ordered)
  {
    hide V.Collect, V.PrintAll, V.MatchAll, V.PhaseIssues;
  }

  lemma FittingIsShowable(timeOf: TimeOf, x: V.Extraction)
    requires AllFit(ValidTimes(timeOf), x.ordered) && x.visible == V.VisibleOf(x.ordered)
    ensures Showable(timeOf, MessagesOf(x.visible))
  {
    var messages := MessagesOf(x.visible);
    forall i | 0 <= i < |messages|
      ensures ShowableAt(timeOf, messages[i], i + 1)
    {
      assert Fits(ValidTimes(timeOf), x.ordered[i]);
    }
  }

  // ----- a rollout that shows given messages -----

  ghost function RoleOf(m: Message): V.Role {
    if m.role == "user" then V.User else V.Assistant
  }

  /** One printed event for each message, a line each. */
  ghost function Printing(messages: seq<Message>): (r: seq<V.LineEvent>)
    ensures |r| == |messages|
  {
    seq(|messages|, i requires 0 <= i < |messages| =>
          V.LineEvent(V.LegacyMessage(RoleOf(messages[i]), messages[i].phase, Some(messages[i].text), None, None,
                                      messages[i].timestamp, false), i + 1))
  }

  ghost function DataOf(m: Message, line: nat): V.MessageData {
    V.MessageData(V.Legacy, line, None, None, m.timestamp, RoleOf(m), m.phase, m.text, None, None, None)
  }

  ghost function AllData(messages: seq<Message>): (r: seq<V.MessageData>)
    ensures |r| == |messages|
  {
    seq(|messages|, i requires 0 <= i < |messages| => DataOf(messages[i], i + 1))
  }

  lemma {:induction false} CollectedPrinting(timeOf: TimeOf, thread: string, messages: seq<Message>)
    requires Showable(timeOf, messages)
    ensures V.Collect(ValidTimes(timeOf), thread, Printing(messages))
         == V.Collected(AllData(messages), [], [], map[], 0, None, if messages == [] then {} else {V.Legacy})
    decreases |messages|
  {
    if messages != [] {
      var n := |messages| - 1;
      CollectedPrinting(timeOf, thread, messages[..n]);
      assert Printing(messages)[..n] == Printing(messages[..n]);
      assert AllData(messages) == AllData(messages[..n]) + [DataOf(messages[n], n + 1)];
      PrintingIsRead(timeOf, thread, V.Collect(ValidTimes(timeOf), thread, Printing(messages[..n])), messages[n], n);
    }
  }

  lemma PrintingIsRead(timeOf: TimeOf, thread: string, st: V.Collected, m: Message, n: nat)
    requires ShowableAt(timeOf, m, n + 1) && st.activeTurn == None && st.families <= {V.Legacy} && st.issues == []
    ensures var event := V.LegacyMessage(RoleOf(m), m.phase, Some(m.text), None, None, m.timestamp, false);
            var at := V.LineEvent(event, n + 1);
            V.CollectStep(ValidTimes(timeOf), thread, st, at)
              == st.(primary := st.primary + [DataOf(m, n + 1)], families := {V.Legacy})
  {
    assert V.IssuesAt(n + 1, []) == [];
  }

  lemma LegacyIsPrinted(primary: seq<V.MessageData>, m: V.MessageData)
    requires m.family.Legacy? && forall c <- primary :: c.family.Legacy?
    ensures V.PrintStep(V.PrintState(primary, [], 0), m) == V.PrintState(primary + [m], [], 0)
  {
    assert V.CounterpartOf(primary, m).None?;
  }

  lemma {:induction false} PrintedPrinting(messages: seq<Message>)
    ensures V.PrintAll(AllData(messages)) == V.PrintState(AllData(messages), [], 0)
    decreases |messages|
  {
    hide V.PrintStep;
    if messages != [] {
      var n := |messages| - 1;
      PrintedPrinting(messages[..n]);
      assert AllData(messages)[..n] == AllData(messages[..n]);
      assert AllData(messages) == AllData(messages[..n]) + [DataOf(messages[n], n + 1)];
      LegacyIsPrinted(AllData(messages[..n]), DataOf(messages[n], n + 1));
    }
  }

  lemma {:induction false} LegacyHasNoPhaseIssues(messages: seq<Message>)
    ensures V.PhaseIssues(AllData(messages)) == []
    decreases |messages|
  {
    if messages != [] {
      var n := |messages| - 1;
      LegacyHasNoPhaseIssues(messages[..n]);
      assert AllData(messages)[..n] == AllData(messages[..n]);
    }
  }

  lemma {:induction false} DataIsSorted(messages: seq<Message>)
    ensures Sort(V.ByLine, AllData(messages)) == AllData(messages)
    decreases |messages|
  {
    if messages != [] {
      var n := |messages| - 1;
      DataIsSorted(messages[..n]);
      assert AllData(messages)[..n] == AllData(messages[..n]);
      assert AllData(messages) == AllData(messages[..n]) + [DataOf(messages[n], n + 1)];
    }
  }

  lemma PrintingIsExtracted(timeOf: TimeOf, thread: string, messages: seq<Message>)
    requires Showable(timeOf, messages)
    ensures var x := V.Extracted(ValidTimes(timeOf), thread, Printing(messages));
            x.ordered == AllData(messages) && x.visible == V.VisibleOf(AllData(messages)) && x.diagnosticCount == 0
  {
    CollectedPrinting(timeOf, thread, messages);
    PrintedPrinting(messages);
    LegacyHasNoPhaseIssues(messages);
    DataIsSorted(messages);
    assert V.MatchAll(AllData(messages), []).printed == AllData(messages);
  }

  /** Printed one event each, showable messages are read back as they were: reading undoes printing. */
  lemma PrintingShowsMessages(timeOf: TimeOf, h: Header, messages: seq<Message>)
    requires Showable(timeOf, messages) && messages != [] && !h.inherited
    ensures V.EventsInOrder(Printing(messages))
    ensures var parsed := ParsedFrom(timeOf, h, Printing(messages));
            parsed.messages == messages && parsed.coverage.Supported?
  {
    hide V.Extracted;
    PrintingIsExtracted(timeOf, h.thread, messages);
    V.CoverageFollowsMessages(ValidTimes(timeOf), h.thread, Printing(messages));
    var x := V.Extracted(ValidTimes(timeOf), h.thread, Printing(messages));
    forall i | 0 <= i < |messages|
      ensures MessagesOf(x.visible)[i] == messages[i]
    {
      assert ShowableAt(timeOf, messages[i], i + 1);
    }
    assert MessagesOf(x.visible) == messages;
  }

  /** Some supported rollout shows exactly these messages. */
  ghost predicate Shown(timeOf: TimeOf, messages: seq<Message>) {
    exists h: Header, events: seq<V.LineEvent> ::
      ParsedFrom(timeOf, h, events).coverage.Supported? && ParsedFrom(timeOf, h, events).messages == messages
  }

  lemma ShownExactlyWhen(timeOf: TimeOf, messages: seq<Message>)
    requires messages != []
    ensures Shown(timeOf, messages) <==> Showable(timeOf, messages)
  {
    hide ParsedFrom, Showable;
    if Shown(timeOf, messages) {
      var h: Header, events: seq<V.LineEvent> :|
        ParsedFrom(timeOf, h, events).coverage.Supported? && ParsedFrom(timeOf, h, events).messages == messages;
      SupportedIsShowable(timeOf, h, events);
    }
    if Showable(timeOf, messages) {
      var h := Header("", "", "", None, 0, false, false, true, None);
      PrintingShowsMessages(timeOf, h, messages);
    }
  }

  // ----- what showing the stored messages again plans -----

  /** A rollout the import takes as far as the checkpoint decision. */
  ghost predicate Importable(timeOf: TimeOf, parsed: Parsed) {
    WasParsed(timeOf, parsed) && parsed.insideRoots && parsed.coverage.Supported?
  }

  ghost function LastTime(timeOf: TimeOf, messages: seq<Message>): int
    requires messages != [] && Showable(timeOf, messages)
  {
    assert ShowableAt(timeOf, messages[|messages| - 1], |messages|);
    timeOf(messages[|messages| - 1].timestamp.value).value
  }

  /** The stored counts do not suffice, and some rollout can show the stored messages up to the stored time. */
  ghost predicate Recurs(timeOf: TimeOf, latest: Snapshot) {
    && !CountsSuffice(latest.metadata)
    && Showable(timeOf, latest.metadata.messages)
    && LastTime(timeOf, latest.metadata.messages) <= latest.record.capturedAt
  }

  /** A live rollout that shows the stored messages, no later than the snapshot, is planned at its own time. */
  lemma ShownAgainIsPlannedAgain(timeOf: TimeOf, h: Header, events: seq<V.LineEvent>, latest: Snapshot)
    requires !CountsSuffice(latest.metadata) && !h.isArchived
    requires ParsedFrom(timeOf, h, events).messages == latest.metadata.messages
    requires ParsedFrom(timeOf, h, events).lastVisibleAt <= latest.record.capturedAt
    ensures var parsed := ParsedFrom(timeOf, h, events);
            && WasParsed(timeOf, parsed) && Plans(parsed, Some(latest))
            && PlannedTime(parsed, Some(latest)) == parsed.lastVisibleAt
  {
    hide V.Extracted, LastVisibleAt;
  }

  /** An importable rollout carries the time of its last message. */
  lemma ImportableTime(timeOf: TimeOf, parsed: Parsed)
    requires Importable(timeOf, parsed)
    ensures parsed.messages != [] && Showable(timeOf, parsed.messages)
    ensures parsed.lastVisibleAt == LastTime(timeOf, parsed.messages)
  {
    hide V.Extracted, Showable;
    var h: Header, events: seq<V.LineEvent> :| parsed == ParsedFrom(timeOf, h, events);
    SupportedIsShowable(timeOf, h, events);
    ParsedIsExtractable(timeOf, h, events);
    LastIsShowable(timeOf, parsed.messages);
  }

  lemma LastIsShowable(timeOf: TimeOf, messages: seq<Message>)
    requires Showable(timeOf, messages) && messages != []
    ensures ShowableAt(timeOf, messages[|messages| - 1], |messages|)
  {
  }

  /** Only showing the stored messages again, up to the stored time, is planned no later than the snapshot. */
  lemma NotLaterIsShownAgain(timeOf: TimeOf, parsed: Parsed, latest: Snapshot)
    requires Importable(timeOf, parsed) && Plans(parsed, Some(latest))
    requires PlannedTime(parsed, Some(latest)) <= latest.record.capturedAt
    ensures parsed.messages == latest.metadata.messages && Recurs(timeOf, latest)
    ensures PlannedTime(parsed, Some(latest)) == LastTime(timeOf, latest.metadata.messages)
  {
    hide Importable, Showable, LastTime, CountsSuffice;
    if CountsSuffice(latest.metadata) {
      PlannedIsLater(parsed, latest);
      assert false;
    }
    ImportableTime(timeOf, parsed);
  }

  /** The rollout that prints the stored messages again, an event each, in the thread. */
  ghost function Replay(timeOf: TimeOf, thread: string, latest: Snapshot): Parsed {
    var h := Header(thread, latest.record.sourceHash, "", None, latest.record.capturedAt, false, false, true, None);
    ParsedFrom(timeOf, h, Printing(latest.metadata.messages))
  }

  lemma ReplayIsPlannedAgain(timeOf: TimeOf, thread: string, latest: Snapshot)
    requires Recurs(timeOf, latest)
    ensures var parsed := Replay(timeOf, thread, latest);
            && Importable(timeOf, parsed) && parsed.thread == thread && Plans(parsed, Some(latest))
            && PlannedTime(parsed, Some(latest)) == LastTime(timeOf, latest.metadata.messages)
  {
    var messages := latest.metadata.messages;
    var h := Header(thread, latest.record.sourceHash, "", None, latest.record.capturedAt, false, false, true, None);
    PrintingShowsMessages(timeOf, h, messages);
    hide V.Extracted;
    assert ShowableAt(timeOf, messages[|messages| - 1], |messages|);
    ShownAgainIsPlannedAgain(timeOf, h, Printing(messages), latest);
  }

  /**
   * The exact condition on a stored snapshot, over the rollouts an import takes: everything planned on top of it
   * is strictly later unless its counts do not suffice, its messages can be shown, and the last of them is not
   * after the stored time.
   */
  lemma PlannedIsLaterExactlyWhen(timeOf: TimeOf, latest: Snapshot)
    ensures !Recurs(timeOf, latest)
       <==> forall parsed: Parsed :: Importable(timeOf, parsed) && Plans(parsed, Some(latest)) ==>
              PlannedTime(parsed, Some(latest)) > latest.record.capturedAt
  {
    hide Recurs, Importable, Replay;
    if Recurs(timeOf, latest) {
      ReplayIsPlannedAgain(timeOf, "", latest);
      RecursNoLater(timeOf, latest);
      assert Plans(Replay(timeOf, "", latest), Some(latest));
    } else {
      forall parsed: Parsed | Importable(timeOf, parsed) && Plans(parsed, Some(latest))
        ensures PlannedTime(parsed, Some(latest)) > latest.record.capturedAt
      {
        if PlannedTime(parsed, Some(latest)) <= latest.record.capturedAt {
          NotLaterIsShownAgain(timeOf, parsed, latest);
        }
      }
    }
  }

  lemma RecursNoLater(timeOf: TimeOf, latest: Snapshot)
    requires Recurs(timeOf, latest)
    ensures Showable(timeOf, latest.metadata.messages) && latest.metadata.messages != []
    ensures LastTime(timeOf, latest.metadata.messages) <= latest.record.capturedAt
  {
  }

  ghost predicate TakesId(timeOf: TimeOf, parsed: Parsed, latest: Snapshot) {
    && Importable(timeOf, parsed) && Plans(parsed, Some(latest))
    && PlanFor(parsed, Some(latest), Checkpoint(parsed, Some(latest)).value).id == latest.record.id
  }

  /**
   * Some rollout is planned under the id of the stored snapshot exactly when it recurs and carries the time of
   * its last message. A snapshot taken when its thread was archived may carry a later time: showing its messages
   * again then goes back in time, under another id.
   */
  lemma IdIsReusedExactlyWhen(timeOf: TimeOf, thread: string, latest: Snapshot)
    requires latest.record.id == SnapshotId(thread, latest.record.capturedAt)
    ensures (exists parsed: Parsed :: TakesId(timeOf, parsed, latest))
       <==> Recurs(timeOf, latest) && LastTime(timeOf, latest.metadata.messages) == latest.record.capturedAt
  {
    hide Importable, Plans, Replay;
    if parsed: Parsed :| TakesId(timeOf, parsed, latest) {
      NotLaterIsShownAgain(timeOf, parsed, latest);
    }
    if Recurs(timeOf, latest) && LastTime(timeOf, latest.metadata.messages) == latest.record.capturedAt {
      ReplayIsPlannedAgain(timeOf, thread, latest);
      assert TakesId(timeOf, Replay(timeOf, thread, latest), latest);
    }
  }

  /** The failing input: a payload that stores its final answer but counts none, taken when that answer was given. */
  lemma StaleCountRecurs(timeOf: TimeOf, thread: string, stamp: string) returns (latest: Snapshot)
    requires timeOf(stamp).Some?
    ensures latest.record.id == SnapshotId(thread, latest.record.capturedAt)
    ensures exists s: Stored ::
              latest.metadata == DerivedMetadata(s) && s.finalAnswers == Some(0) && s.messageCount == Some(1)
    ensures Recurs(timeOf, latest) && LastTime(timeOf, latest.metadata.messages) == latest.record.capturedAt
  {
    var answer := Message(1, Some(stamp), "assistant", Some("final_answer"), "Done.");
    var stored := Stored(Some(1), Some(0), Some(false), false, [answer]);
    var at := timeOf(stamp).value;
    latest := Snapshot(Record(SnapshotId(thread, at), Some(thread), at, "", "", OtherBytes(""), None, None, None),
                       DerivedMetadata(stored));
    assert FinalAnswers([answer]) == 1;
  }
}
