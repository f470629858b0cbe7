/**
 * What the visible messages and the diagnostics of a rollout say about its events: which event is shown,
 * which one stands for another, and which one is rejected for what reason.
 */
module VisibleEvents {
  import opened Common
  import opened VisibleMessages

  // ----- what an event says -----

  /** The turn that is running after these events. */
  ghost function RunningTurn(events: seq<LineEvent>): Option<string>
    decreases |events|
  {
    if events == [] then None
    else
      var last := events[|events| - 1].event;
      if last.TurnStart? && last.turn.Some? then last.turn else RunningTurn(events[..|events| - 1])
  }

  ghost predicate IsMessage(e: Event) {
    e.LegacyMessage? || e.CompletedMessage?
  }

  /** The turn a message names, or else the one running before it. */
  ghost function TurnAt(events: seq<LineEvent>, i: nat): Option<string>
    requires i < |events| && IsMessage(events[i].event)
  {
    if events[i].event.turn.Some? then events[i].event.turn else RunningTurn(events[..i])
  }

  ghost predicate Hidden(e: Event)
    requires IsMessage(e)
  {
    e.role == Assistant && (e.phase == Some("analysis") || e.phase == Some("reasoning"))
  }

  ghost predicate UnknownPhase(e: Event)
    requires IsMessage(e)
  {
    && e.role == Assistant && e.phase.Some? && !Hidden(e)
    && e.phase != Some("commentary") && e.phase != Some("final_answer")
  }

  ghost predicate OtherThread(threadId: string, e: Event) {
    e.CompletedMessage? && e.thread.Some? && e.thread != Some(threadId)
  }

  /** The texts of the blocks, one after the other. */
  ghost function Concatenated(blocks: seq<Block>): string
    requires forall b <- blocks :: b.text.Some?
  {
    if blocks == [] then "" else blocks[0].text.value + Concatenated(blocks[1..])
  }

  ghost predicate Contains(content: Content, kind: string, text: string) {
    && content.Blocks? && content.blocks != []
    && (forall b <- content.blocks :: b.kind == kind && b.text.Some?)
    && Concatenated(content.blocks) == text
  }

  ghost predicate Says(e: Event, text: string)
    requires IsMessage(e)
  {
    if e.LegacyMessage? then e.text == Some(text)
    else Contains(e.content, if e.role == User then "text" else "Text", text)
  }

  ghost predicate Speaks(e: Event)
    requires IsMessage(e)
  {
    exists text: string :: Says(e, text)
  }

  /** A message of this thread that is not hidden. */
  ghost predicate Prints(threadId: string, e: Event) {
    IsMessage(e) && !Hidden(e) && !OtherThread(threadId, e)
  }

  ghost predicate Readable(threadId: string, e: Event) {
    Prints(threadId, e) && !UnknownPhase(e) && Speaks(e)
  }

  ghost function PhaseOf(e: Event): Option<string>
    requires IsMessage(e)
  {
    if e.role == User then None else e.phase
  }

  // ----- why an event is rejected -----

  /** The event alone is a reason for this code. */
  ghost predicate Rejects(valid: string -> bool, threadId: string, e: Event, code: Code) {
    match code
    case UnsupportedLegacyPhase => e.LegacyMessage? && UnknownPhase(e)
    case UnsupportedLegacyText => e.LegacyMessage? && !Hidden(e) && !UnknownPhase(e) && e.text == None
    case UnsupportedTimestamp => Readable(threadId, e) && (e.timestamp == None || !valid(e.timestamp.value))
    case UnsupportedAttachment => e.LegacyMessage? && Readable(threadId, e) && e.attached
    case UnsupportedCompletedItem => e == MalformedCompletedItem
    case UnsupportedCompletedType => e == OtherCompletedItem(true)
    case ThreadMismatch => OtherThread(threadId, e)
    case UnsupportedCompletedPhase => e.CompletedMessage? && !OtherThread(threadId, e) && UnknownPhase(e)
    case UnsupportedCompletedContent =>
      e.CompletedMessage? && Prints(threadId, e) && !UnknownPhase(e) && !Speaks(e)
    case _ => false
  }

  ghost predicate OfOneEvent(code: Code) {
    code in {UnsupportedLegacyPhase, UnsupportedLegacyText, UnsupportedTimestamp, UnsupportedAttachment,
             UnsupportedCompletedItem, UnsupportedCompletedType, ThreadMismatch, UnsupportedCompletedPhase,
             UnsupportedCompletedContent}
  }

  ghost predicate IsRejected(valid: string -> bool, threadId: string, events: seq<LineEvent>, line: nat, code: Code) {
    exists at <- events :: at.line == line && Rejects(valid, threadId, at.event, code)
  }

  /** The issues with such a code are exactly those of rejected events. */
  ghost predicate TellsRejections(valid: string -> bool, threadId: string, events: seq<LineEvent>, issues: seq<Issue>) {
    forall line, code :: OfOneEvent(code) ==>
      (Issue(line, code) in issues <==> IsRejected(valid, threadId, events, line, code))
  }

  lemma JoinedSnoc(blocks: seq<Block>, last: Block)
    requires last.text.Some? && forall b <- blocks :: b.text.Some?
    ensures Joined(blocks + [last]) == Joined(blocks) + last.text.value
  {
    assert (blocks + [last])[..|blocks|] == blocks;
  }

  lemma OneMoreLater(first: Block, rest: seq<Block>, last: Block)
    requires first.text.Some? && last.text.Some? && forall b <- rest :: b.text.Some?
    requires Joined([first] + rest) == first.text.value + Joined(rest)
    ensures Joined([first] + (rest + [last])) == first.text.value + Joined(rest + [last])
  {
    hide Joined;
    JoinedSnoc(rest, last);
    JoinedSnoc([first] + rest, last);
    assert [first] + (rest + [last]) == ([first] + rest) + [last];
  }

  lemma {:induction false} JoinedFrom(first: Block, rest: seq<Block>)
    requires first.text.Some? && forall b <- rest :: b.text.Some?
    ensures Joined([first] + rest) == first.text.value + Joined(rest)
    decreases |rest|
  {
    if rest == [] {
      assert [first] + rest == [] + [first];
      JoinedSnoc([], first);
    } else {
      hide Joined;
      var n := |rest| - 1;
      JoinedFrom(first, rest[..n]);
      OneMoreLater(first, rest[..n], rest[n]);
      assert rest == rest[..n] + [rest[n]];
    }
  }

  lemma {:induction false} JoinedIsConcatenated(blocks: seq<Block>)
    requires forall b <- blocks :: b.text.Some?
    ensures Joined(blocks) == Concatenated(blocks)
  {
    if blocks != [] {
      JoinedIsConcatenated(blocks[1..]);
      JoinedFrom(blocks[0], blocks[1..]);
      assert blocks == [blocks[0]] + blocks[1..];
    }
  }

  lemma ContentIsContained(content: Content, kind: string)
    ensures forall text :: TextContent(content, kind) == Some(text) <==> Contains(content, kind, text)
  {
    if content.Blocks? && forall b <- content.blocks :: b.text.Some? {
      JoinedIsConcatenated(content.blocks);
    }
  }

  lemma CompletedSays(e: Event)
    requires e.CompletedMessage?
    ensures forall text :: CompletedText(e) == Some(text) <==> Says(e, text)
    ensures CompletedText(e).Some? <==> Speaks(e)
  {
    hide TextContent, Contains;
    ContentIsContained(e.content, if e.role.User? then "text" else "Text");
    if CompletedText(e).Some? {
      assert Says(e, CompletedText(e).value);
    }
  }

  lemma LegacySays(e: Event)
    requires e.LegacyMessage?
    ensures forall text :: e.text == Some(text) <==> Says(e, text)
    ensures e.text.Some? <==> Speaks(e)
  {
    if e.text.Some? {
      assert Says(e, e.text.value);
    }
  }

  /** The message data is that of the i-th event. */
  ghost predicate ReadAs(events: seq<LineEvent>, i: nat, m: MessageData)
    requires i < |events| && IsMessage(events[i].event)
  {
    var e := events[i].event;
    && m.family == (if e.LegacyMessage? then Legacy else Completed)
    && m.line == events[i].line && m.turn == TurnAt(events, i) && m.id == e.id && m.timestamp == e.timestamp
    && m.role == e.role && m.phase == PhaseOf(e) && Says(e, m.text)
  }

  // ----- what one event leaves -----

  /** A reading of the event: printed exactly when it is readable, and rejected or remarked on for its reasons. */
  ghost predicate ReadsEvent(valid: string -> bool, threadId: string, e: Event, line: nat, turn: Option<string>,
                             reading: Reading)
    requires IsMessage(e)
  {
    && (reading.Printed? <==> Readable(threadId, e))
    && (reading.Printed? ==>
          && reading.message.family == (if e.LegacyMessage? then Legacy else Completed)
          && reading.message.line == line && reading.message.id == e.id && reading.message.timestamp == e.timestamp
          && reading.message.turn == (if e.turn.Some? then e.turn else turn)
          && reading.message.role == e.role && reading.message.phase == PhaseOf(e) && Says(e, reading.message.text))
    && (forall code ::
          Rejects(valid, threadId, e, code) <==>
            (reading.Rejected? && code == reading.code) || (reading.Printed? && code in reading.remarks))
  }

  lemma LegacyIsRead(valid: string -> bool, threadId: string, e: Event, line: nat, turn: Option<string>)
    requires e.LegacyMessage?
    ensures ReadsEvent(valid, threadId, e, line, turn, ReadLegacy(valid, e, line, turn))
  {
    LegacySays(e);
    hide Says, Speaks;
  }

  lemma CompletedIsRead(valid: string -> bool, threadId: string, e: Event, line: nat, turn: Option<string>)
    requires e.CompletedMessage?
    ensures ReadsEvent(valid, threadId, e, line, turn, ReadCompleted(valid, threadId, e, line, turn))
  {
    CompletedSays(e);
    hide Says, Speaks, CompletedText;
  }

  /** The issues gained are those of the event, but for a conflicting identity. */
  ghost predicate GainsIssues(valid: string -> bool, threadId: string, at: LineEvent, before: seq<Issue>,
                              after: seq<Issue>)
  {
    && before <= after
    && forall issue: Issue :: issue.code != ConflictingCompletedIdentity ==>
         (issue in after <==>
            issue in before || (issue.line == at.line && Rejects(valid, threadId, at.event, issue.code)))
  }

  lemma IssuesAtHold(line: nat, codes: seq<Code>)
    ensures forall issue :: issue in IssuesAt(line, codes) <==> issue.line == line && issue.code in codes
  {
    forall code | code in codes
      ensures Issue(line, code) in IssuesAt(line, codes)
    {
      var i :| 0 <= i < |codes| && codes[i] == code;
      assert IssuesAt(line, codes)[i] == Issue(line, code);
    }
  }

  lemma LegacyGainsIssues(valid: string -> bool, threadId: string, at: LineEvent, st: Collected, reading: Reading)
    requires at.event.LegacyMessage? && ReadsEvent(valid, threadId, at.event, at.line, st.activeTurn, reading)
    ensures GainsIssues(valid, threadId, at, st.issues, WithLegacy(st, at.line, reading).issues)
  {
    hide Rejects, Readable, Says, PhaseOf, IssuesAt;
    if reading.Printed? {
      IssuesAtHold(at.line, reading.remarks);
    }
  }

  lemma CompletedGainsIssues(valid: string -> bool, threadId: string, at: LineEvent, st: Collected, reading: Reading)
    requires at.event.CompletedMessage? && ReadsEvent(valid, threadId, at.event, at.line, st.activeTurn, reading)
    ensures GainsIssues(valid, threadId, at, st.issues, WithCompleted(st, at.line, reading).issues)
  {
    hide Rejects, Readable, Says, PhaseOf, IssuesAt, IdentityOf;
    if reading.Printed? {
      IssuesAtHold(at.line, reading.remarks);
    }
  }

  lemma StepGainsIssues(valid: string -> bool, threadId: string, st: Collected, at: LineEvent)
    ensures GainsIssues(valid, threadId, at, st.issues, CollectStep(valid, threadId, st, at).issues)
  {
    hide ReadsEvent, ReadLegacy, ReadCompleted, WithLegacy, WithCompleted, GainsIssues;
    if at.event.LegacyMessage? {
      LegacyIsRead(valid, threadId, at.event, at.line, st.activeTurn);
      LegacyGainsIssues(valid, threadId, at, st.(families := st.families + {Legacy}),
                        ReadLegacy(valid, at.event, at.line, st.activeTurn));
    } else if at.event.CompletedMessage? {
      CompletedIsRead(valid, threadId, at.event, at.line, st.activeTurn);
      CompletedGainsIssues(valid, threadId, at, st.(families := st.families + {Completed}),
                           ReadCompleted(valid, threadId, at.event, at.line, st.activeTurn));
    } else {
      OtherGainsIssues(valid, threadId, st, at);
    }
  }

  lemma OtherGainsIssues(valid: string -> bool, threadId: string, st: Collected, at: LineEvent)
    requires !IsMessage(at.event)
    ensures GainsIssues(valid, threadId, at, st.issues, CollectStep(valid, threadId, st, at).issues)
  {
  }

  lemma RejectionsGrow(valid: string -> bool, threadId: string, events: seq<LineEvent>, at: LineEvent,
                       before: seq<Issue>, after: seq<Issue>)
    requires TellsRejections(valid, threadId, events, before) && GainsIssues(valid, threadId, at, before, after)
    ensures TellsRejections(valid, threadId, events + [at], after)
  {
    hide Rejects;
    forall line, code | OfOneEvent(code)
      ensures IsRejected(valid, threadId, events + [at], line, code) <==>
              (|| IsRejected(valid, threadId, events, line, code)
               || (at.line == line && Rejects(valid, threadId, at.event, code)))
    {
      assert forall e :: e in events + [at] <==> e in events || e == at;
    }
  }

  /** The first pass reports exactly the events that are rejected, each for its reason. */
  lemma {:induction false} CollectedRejections(valid: string -> bool, threadId: string, events: seq<LineEvent>)
    ensures TellsRejections(valid, threadId, events, Collect(valid, threadId, events).issues)
    decreases |events|
  {
    if events == [] {
      NothingRejected(valid, threadId);
    } else {
      hide CollectStep, TellsRejections, GainsIssues;
      var n := |events| - 1;
      var st := Collect(valid, threadId, events[..n]);
      CollectedRejections(valid, threadId, events[..n]);
      StepGainsIssues(valid, threadId, st, events[n]);
      RejectionsGrow(valid, threadId, events[..n], events[n], st.issues, Collect(valid, threadId, events).issues);
      assert events == events[..n] + [events[n]];
    }
  }

  lemma NothingRejected(valid: string -> bool, threadId: string)
    ensures TellsRejections(valid, threadId, [], Collect(valid, threadId, []).issues)
  {
  }

  // ----- which events are gathered -----

  ghost predicate SharesIdentity(events: seq<LineEvent>, i: nat, j: nat)
    requires i < |events| && j < |events| && IsMessage(events[i].event) && IsMessage(events[j].event)
  {
    && events[i].event.role == events[j].event.role
    && events[i].event.id == events[j].event.id && Present(events[i].event.id)
    && TurnAt(events, i) == TurnAt(events, j) && Present(TurnAt(events, i))
  }

  ghost predicate PrintsAt(threadId: string, events: seq<LineEvent>, i: nat) {
    i < |events| && Prints(threadId, events[i].event)
  }

  /** The second of two completed projections of one message. */
  ghost predicate Repeats(threadId: string, events: seq<LineEvent>, i: nat, j: nat)
    requires i < |events| && IsMessage(events[i].event)
  {
    && PrintsAt(threadId, events, j) && j < i && SharesIdentity(events, i, j)
    && events[i].event.CompletedMessage? && events[j].event.CompletedMessage?
  }

  /** The message is the event's own, or that of an earlier completed projection of it. */
  ghost predicate Represents(threadId: string, events: seq<LineEvent>, i: nat, m: MessageData)
    requires i < |events| && IsMessage(events[i].event)
  {
    && Says(events[i].event, m.text) && m.phase == PhaseOf(events[i].event)
    && (ReadAs(events, i, m)
        || exists j: nat :: Repeats(threadId, events, i, j) && ReadAs(events, j, m))
  }

  ghost predicate IsRepresented(threadId: string, events: seq<LineEvent>, i: nat, primary: seq<MessageData>)
    requires i < |events| && IsMessage(events[i].event)
  {
    exists m <- primary :: Represents(threadId, events, i, m)
  }

  ghost predicate IsOfAnEvent(threadId: string, events: seq<LineEvent>, m: MessageData) {
    exists i: nat :: PrintsAt(threadId, events, i) && ReadAs(events, i, m)
  }

  ghost predicate AllRepresented(threadId: string, events: seq<LineEvent>, primary: seq<MessageData>) {
    forall i: nat :: PrintsAt(threadId, events, i) ==> IsRepresented(threadId, events, i, primary)
  }

  ghost predicate AllOfEvents(threadId: string, events: seq<LineEvent>, primary: seq<MessageData>) {
    forall m <- primary :: IsOfAnEvent(threadId, events, m)
  }

  /** The remembered completed messages are gathered ones with that identity. */
  ghost predicate RemembersCompleted(primary: seq<MessageData>, completed: map<Identity, MessageData>) {
    && (forall m <- primary :: m.family.Completed? && IdentityOf(m).Some? ==>
          IdentityOf(m).value in completed && completed[IdentityOf(m).value] == m)
    && forall identity <- completed ::
         && completed[identity] in primary && completed[identity].family.Completed?
         && IdentityOf(completed[identity]) == Some(identity)
  }

  lemma EarlierTurns(events: seq<LineEvent>, at: LineEvent, i: nat)
    requires i < |events| && IsMessage(events[i].event)
    ensures TurnAt(events + [at], i) == TurnAt(events, i)
  {
    assert (events + [at])[..i] == events[..i];
  }

  lemma StaysRead(events: seq<LineEvent>, at: LineEvent, i: nat, m: MessageData)
    requires i < |events| && IsMessage(events[i].event)
    ensures ReadAs(events + [at], i, m) <==> ReadAs(events, i, m)
  {
    hide Says;
    EarlierTurns(events, at, i);
  }

  lemma StaysRepresented(threadId: string, events: seq<LineEvent>, at: LineEvent, i: nat, primary: seq<MessageData>,
                         next: seq<MessageData>)
    requires i < |events| && IsMessage(events[i].event) && IsRepresented(threadId, events, i, primary)
    requires primary <= next
    ensures IsRepresented(threadId, events + [at], i, next)
  {
    hide Says, ReadAs, PhaseOf;
    var m :| m in primary && Represents(threadId, events, i, m);
    StaysRead(events, at, i, m);
    if !ReadAs(events, i, m) {
      var j: nat :| Repeats(threadId, events, i, j) && ReadAs(events, j, m);
      StaysRead(events, at, j, m);
      EarlierTurns(events, at, i);
      EarlierTurns(events, at, j);
      assert Repeats(threadId, events + [at], i, j);
    }
    assert m in next && Represents(threadId, events + [at], i, m);
  }

  lemma StaysOfAnEvent(threadId: string, events: seq<LineEvent>, at: LineEvent, m: MessageData)
    requires IsOfAnEvent(threadId, events, m)
    ensures IsOfAnEvent(threadId, events + [at], m)
  {
    hide ReadAs, Says;
    var i: nat :| PrintsAt(threadId, events, i) && ReadAs(events, i, m);
    StaysRead(events, at, i, m);
    assert PrintsAt(threadId, events + [at], i);
  }

  /** The last event is gathered by its own message. */
  lemma OwnMessage(threadId: string, events: seq<LineEvent>, at: LineEvent, primary: seq<MessageData>, m: MessageData)
    requires Prints(threadId, at.event) && m in primary && ReadAs(events + [at], |events|, m)
    ensures IsRepresented(threadId, events + [at], |events|, primary)
    ensures IsOfAnEvent(threadId, events + [at], m)
  {
    hide Says;
    assert Represents(threadId, events + [at], |events|, m);
    assert PrintsAt(threadId, events + [at], |events|);
  }

  ghost predicate Gathers(threadId: string, events: seq<LineEvent>, primary: seq<MessageData>,
                          completed: map<Identity, MessageData>)
  {
    && AllRepresented(threadId, events, primary) && AllOfEvents(threadId, events, primary)
    && RemembersCompleted(primary, completed)
  }

  /** Nothing gathered for an event that prints nothing. */
  lemma SilentEvent(threadId: string, events: seq<LineEvent>, at: LineEvent, primary: seq<MessageData>)
    requires AllRepresented(threadId, events, primary) && AllOfEvents(threadId, events, primary)
    requires !Prints(threadId, at.event)
    ensures AllRepresented(threadId, events + [at], primary) && AllOfEvents(threadId, events + [at], primary)
  {
    hide IsRepresented, IsOfAnEvent, Hidden, OtherThread;
    forall i: nat | PrintsAt(threadId, events + [at], i)
      ensures IsRepresented(threadId, events + [at], i, primary)
    {
      assert PrintsAt(threadId, events, i);
      StaysRepresented(threadId, events, at, i, primary, primary);
    }
    forall m | m in primary
      ensures IsOfAnEvent(threadId, events + [at], m)
    {
      StaysOfAnEvent(threadId, events, at, m);
    }
  }

  /** One more event that prints, gathered by its own message or by the one it repeats. */
  lemma PrintingEvent(threadId: string, events: seq<LineEvent>, at: LineEvent, primary: seq<MessageData>,
                      next: seq<MessageData>)
    requires AllRepresented(threadId, events, primary) && AllOfEvents(threadId, events, primary)
    requires Prints(threadId, at.event) && IsRepresented(threadId, events + [at], |events|, next)
    requires next == primary || (next == primary + [next[|next| - 1]] && next != []
                                 && IsOfAnEvent(threadId, events + [at], next[|next| - 1]))
    ensures AllRepresented(threadId, events + [at], next) && AllOfEvents(threadId, events + [at], next)
  {
    hide IsRepresented, IsOfAnEvent, Hidden, OtherThread;
    forall i: nat | PrintsAt(threadId, events + [at], i)
      ensures IsRepresented(threadId, events + [at], i, next)
    {
      if i < |events| {
        assert PrintsAt(threadId, events, i);
        StaysRepresented(threadId, events, at, i, primary, next);
      }
    }
    forall m | m in next
      ensures IsOfAnEvent(threadId, events + [at], m)
    {
      if m in primary {
        StaysOfAnEvent(threadId, events, at, m);
      }
    }
  }

  lemma ReadsFamily(events: seq<LineEvent>, i: nat, m: MessageData)
    requires i < |events| && IsMessage(events[i].event) && ReadAs(events, i, m)
    ensures m.family.Legacy? <==> events[i].event.LegacyMessage?
    ensures m.role == events[i].event.role && m.id == events[i].event.id && m.turn == TurnAt(events, i)
    ensures m.line == events[i].line && m.timestamp == events[i].event.timestamp
    ensures Says(events[i].event, m.text) && m.phase == PhaseOf(events[i].event)
  {
  }

  /** The message of an event that prints is gathered on its own. */
  lemma OwnIsGathered(threadId: string, events: seq<LineEvent>, at: LineEvent, primary: seq<MessageData>,
                      m: MessageData)
    requires AllRepresented(threadId, events, primary) && AllOfEvents(threadId, events, primary)
    requires Prints(threadId, at.event) && ReadAs(events + [at], |events|, m)
    ensures AllRepresented(threadId, events + [at], primary + [m])
    ensures AllOfEvents(threadId, events + [at], primary + [m])
  {
    hide Prints, ReadAs, AllRepresented, AllOfEvents, IsRepresented, IsOfAnEvent;
    OwnMessage(threadId, events, at, primary + [m], m);
    PrintingEvent(threadId, events, at, primary, primary + [m]);
  }

  /** Two completed messages with one identity come from events that share it. */
  lemma SameIdentityIsShared(events: seq<LineEvent>, i: nat, j: nat, m: MessageData, other: MessageData)
    requires i < |events| && IsMessage(events[i].event) && ReadAs(events, i, m)
    requires j < |events| && IsMessage(events[j].event) && ReadAs(events, j, other)
    requires IdentityOf(m).Some? && IdentityOf(other) == IdentityOf(m)
    ensures SharesIdentity(events, i, j)
  {
    hide Says, TurnAt, PhaseOf;
  }

  /** A completed message with a remembered identity repeats the event of the remembered one. */
  lemma RepeatIsRepresented(threadId: string, events: seq<LineEvent>, at: LineEvent, primary: seq<MessageData>,
                            existing: MessageData, m: MessageData)
    requires existing in primary && IsOfAnEvent(threadId, events, existing) && existing.family.Completed?
    requires Prints(threadId, at.event) && at.event.CompletedMessage? && ReadAs(events + [at], |events|, m)
    requires IdentityOf(m).Some? && IdentityOf(existing) == IdentityOf(m)
    requires existing.text == m.text && existing.phase == m.phase
    ensures IsRepresented(threadId, events + [at], |events|, primary)
  {
    hide ReadAs, TurnAt, Hidden, OtherThread, IdentityOf, Says, PhaseOf, SharesIdentity;
    var all := events + [at];
    var j: nat :| PrintsAt(threadId, events, j) && ReadAs(events, j, existing);
    StaysRead(events, at, j, existing);
    ReadsFamily(all, j, existing);
    ReadsFamily(all, |events|, m);
    SameIdentityIsShared(all, |events|, j, m, existing);
    assert Repeats(threadId, all, |events|, j);
    assert Represents(threadId, all, |events|, existing);
  }

  lemma CompletedIsGathered(threadId: string, events: seq<LineEvent>, at: LineEvent, st: Collected, m: MessageData)
    requires Gathers(threadId, events, st.primary, st.completed)
    requires Prints(threadId, at.event) && at.event.CompletedMessage?
    requires ReadAs(events + [at], |events|, m) && PlacedCompleted(st, at.line, m).issues == []
    ensures var next := PlacedCompleted(st, at.line, m);
            Gathers(threadId, events + [at], next.primary, next.completed)
  {
    hide Prints, ReadAs, AllRepresented, IsRepresented, IsOfAnEvent, IdentityOf;
    ReadsFamily(events + [at], |events|, m);
    if IdentityOf(m).Some? && IdentityOf(m).value in st.completed {
      RepeatIsRepresented(threadId, events, at, st.primary, st.completed[IdentityOf(m).value], m);
      PrintingEvent(threadId, events, at, st.primary, st.primary);
    } else {
      OwnIsGathered(threadId, events, at, st.primary, m);
    }
  }

  lemma UnreadableIsRejected(valid: string -> bool, threadId: string, e: Event)
    requires Prints(threadId, e) && !Readable(threadId, e)
    ensures exists code :: Rejects(valid, threadId, e, code)
  {
    if e.LegacyMessage? {
      LegacySays(e);
      assert Rejects(valid, threadId, e, if UnknownPhase(e) then UnsupportedLegacyPhase else UnsupportedLegacyText);
    } else {
      assert Rejects(valid, threadId, e,
                     if UnknownPhase(e) then UnsupportedCompletedPhase else UnsupportedCompletedContent);
    }
  }

  lemma UnreadableIsReported(valid: string -> bool, threadId: string, at: LineEvent, st: Collected)
    requires Prints(threadId, at.event) && !Readable(threadId, at.event)
    ensures CollectStep(valid, threadId, st, at).issues != []
  {
    hide CollectStep, Prints, Readable, Rejects;
    StepGainsIssues(valid, threadId, st, at);
    UnreadableIsRejected(valid, threadId, at.event);
    var code :| Rejects(valid, threadId, at.event, code);
    ConflictIsOfNoEvent(valid, threadId, at.event);
    assert Issue(at.line, code) in CollectStep(valid, threadId, st, at).issues;
  }

  /** Without issues every event that prints can be read. */
  lemma PrintedIsReadable(valid: string -> bool, threadId: string, at: LineEvent, st: Collected)
    requires CollectStep(valid, threadId, st, at).issues == []
    ensures Prints(threadId, at.event) <==> Readable(threadId, at.event)
  {
    hide CollectStep, Prints, Readable;
    ReadableIsPrinted(threadId, at.event);
    if Prints(threadId, at.event) && !Readable(threadId, at.event) {
      UnreadableIsReported(valid, threadId, at, st);
    }
  }

  lemma ReadableIsPrinted(threadId: string, e: Event)
    ensures Readable(threadId, e) ==> Prints(threadId, e)
  {
  }

  lemma ConflictIsOfNoEvent(valid: string -> bool, threadId: string, e: Event)
    ensures !Rejects(valid, threadId, e, ConflictingCompletedIdentity)
  {
  }

  lemma LegacyGathers(valid: string -> bool, threadId: string, events: seq<LineEvent>, at: LineEvent, st: Collected,
                      reading: Reading)
    requires Gathers(threadId, events, st.primary, st.completed) && at.event.LegacyMessage?
    requires ReadsEvent(valid, threadId, at.event, at.line, RunningTurn(events), reading)
    requires Prints(threadId, at.event) <==> Readable(threadId, at.event)
    ensures var next := WithLegacy(st, at.line, reading);
            Gathers(threadId, events + [at], next.primary, next.completed)
  {
    hide Prints, Readable, Rejects, AllRepresented, AllOfEvents, IdentityOf, Says, PhaseOf;
    if reading.Printed? {
      assert (events + [at])[..|events|] == events;
      OwnIsGathered(threadId, events, at, st.primary, reading.message);
    } else {
      SilentEvent(threadId, events, at, st.primary);
    }
  }

  lemma CompletedGathers(valid: string -> bool, threadId: string, events: seq<LineEvent>, at: LineEvent, st: Collected,
                         reading: Reading)
    requires Gathers(threadId, events, st.primary, st.completed) && at.event.CompletedMessage?
    requires ReadsEvent(valid, threadId, at.event, at.line, RunningTurn(events), reading)
    requires Prints(threadId, at.event) <==> Readable(threadId, at.event)
    requires WithCompleted(st, at.line, reading).issues == []
    ensures var next := WithCompleted(st, at.line, reading);
            Gathers(threadId, events + [at], next.primary, next.completed)
  {
    hide Prints, Readable, Rejects, AllRepresented, AllOfEvents, Says, PhaseOf, PlacedCompleted;
    if reading.Printed? {
      assert (events + [at])[..|events|] == events;
      CompletedIsGathered(threadId, events, at, st.(issues := st.issues + IssuesAt(at.line, reading.remarks)),
                          reading.message);
    } else {
      SilentEvent(threadId, events, at, st.primary);
    }
  }

  /** Without issues every event that prints is gathered. */
  lemma StepGathers(valid: string -> bool, threadId: string, events: seq<LineEvent>, at: LineEvent, st: Collected)
    requires Gathers(threadId, events, st.primary, st.completed) && st.activeTurn == RunningTurn(events)
    requires CollectStep(valid, threadId, st, at).issues == []
    ensures var next := CollectStep(valid, threadId, st, at);
            Gathers(threadId, events + [at], next.primary, next.completed)
  {
    hide Gathers, Prints, Readable, ReadsEvent, ReadLegacy, ReadCompleted, WithLegacy, WithCompleted;
    PrintedIsReadable(valid, threadId, at, st);
    if at.event.LegacyMessage? {
      LegacyIsRead(valid, threadId, at.event, at.line, st.activeTurn);
      LegacyGathers(valid, threadId, events, at, st.(families := st.families + {Legacy}),
                    ReadLegacy(valid, at.event, at.line, st.activeTurn));
    } else if at.event.CompletedMessage? {
      CompletedIsRead(valid, threadId, at.event, at.line, st.activeTurn);
      CompletedGathers(valid, threadId, events, at, st.(families := st.families + {Completed}),
                       ReadCompleted(valid, threadId, at.event, at.line, st.activeTurn));
    } else {
      OtherGathers(threadId, events, at, st.primary, st.completed);
    }
  }

  lemma OtherGathers(threadId: string, events: seq<LineEvent>, at: LineEvent, primary: seq<MessageData>,
                     completed: map<Identity, MessageData>)
    requires Gathers(threadId, events, primary, completed) && !IsMessage(at.event)
    ensures Gathers(threadId, events + [at], primary, completed)
  {
    hide AllRepresented, AllOfEvents, RemembersCompleted;
    SilentEvent(threadId, events, at, primary);
  }

  lemma {:induction false} ActiveTurnRuns(valid: string -> bool, threadId: string, events: seq<LineEvent>)
    ensures Collect(valid, threadId, events).activeTurn == RunningTurn(events)
    decreases |events|
  {
    if events != [] {
      ActiveTurnRuns(valid, threadId, events[..|events| - 1]);
      TurnOfAStep(valid, threadId, Collect(valid, threadId, events[..|events| - 1]), events[|events| - 1]);
      hide CollectStep;
    }
  }

  lemma TurnOfAStep(valid: string -> bool, threadId: string, st: Collected, at: LineEvent)
    ensures CollectStep(valid, threadId, st, at).activeTurn
         == (if at.event.TurnStart? && at.event.turn.Some? then at.event.turn else st.activeTurn)
  {
    hide ReadLegacy, ReadCompleted, IdentityOf;
  }

  /** With no issues from reading, every event that prints is gathered, and nothing else is. */
  lemma {:induction false} CollectedGathers(valid: string -> bool, threadId: string, events: seq<LineEvent>)
    requires Collect(valid, threadId, events).issues == []
    ensures var st := Collect(valid, threadId, events); Gathers(threadId, events, st.primary, st.completed)
    decreases |events|
  {
    hide Collect, CollectStep, Gathers;
    if events == [] {
      NothingGathered(valid, threadId);
    } else {
      var n := |events| - 1;
      CollectSnoc(valid, threadId, events);
      var st := Collect(valid, threadId, events[..n]);
      IssuesOnlyGrow(valid, threadId, st, events[n]);
      ActiveTurnRuns(valid, threadId, events[..n]);
      CollectedGathers(valid, threadId, events[..n]);
      StepGathers(valid, threadId, events[..n], events[n], st);
      assert events == events[..n] + [events[n]];
    }
  }

  lemma IssuesOnlyGrow(valid: string -> bool, threadId: string, st: Collected, at: LineEvent)
    ensures st.issues <= CollectStep(valid, threadId, st, at).issues
  {
    hide CollectStep, Rejects;
    StepGainsIssues(valid, threadId, st, at);
  }

  lemma CollectSnoc(valid: string -> bool, threadId: string, events: seq<LineEvent>)
    requires events != []
    ensures var n := |events| - 1;
            Collect(valid, threadId, events)
              == CollectStep(valid, threadId, Collect(valid, threadId, events[..n]), events[n])
  {
    hide CollectStep;
  }

  lemma NothingGathered(valid: string -> bool, threadId: string)
    ensures var st := Collect(valid, threadId, []); Gathers(threadId, [], st.primary, st.completed)
  {
  }

  // ----- which gathered messages are printed -----

  ghost predicate SharedId(a: MessageData, b: MessageData) {
    a.role == b.role && a.turn == b.turn && Present(a.turn) && a.id == b.id && Present(a.id)
  }

  /** q shows the message p: as itself, or as its legacy projection. */
  ghost predicate Carries(p: MessageData, q: MessageData) {
    && p.role == q.role && p.text == q.text && p.phase == q.phase
    && (SameProjection(p, q) || (p.family.Completed? && q.family.Legacy? && SharedId(p, q)))
  }

  ghost predicate IsCarried(p: MessageData, printed: seq<MessageData>) {
    exists q <- printed :: Carries(p, q)
  }

  ghost predicate Shows(primary: seq<MessageData>, printed: seq<MessageData>) {
    && (forall p <- primary :: IsCarried(p, printed))
    && (forall q <- printed :: IsAmong(primary, q))
  }

  lemma AppendedShows(primary: seq<MessageData>, printed: seq<MessageData>, m: MessageData)
    requires Shows(primary, printed)
    ensures Shows(primary + [m], printed + [m])
  {
    hide Carries, SameProjection;
    assert SameProjection(m, m) && Carries(m, m) by {
      CarriesItself(m);
    }
    forall p | p in primary + [m]
      ensures IsCarried(p, printed + [m])
    {
      if p in primary {
        var q :| q in printed && Carries(p, q);
        assert q in printed + [m];
      } else {
        assert m in printed + [m];
      }
    }
    forall q | q in printed + [m]
      ensures IsAmong(primary + [m], q)
    {
      StaysAmong(primary, m, q, printed);
    }
  }

  lemma CarriesItself(m: MessageData)
    ensures SameProjection(m, m) && Carries(m, m)
  {
  }

  lemma StaysAmong(primary: seq<MessageData>, m: MessageData, q: MessageData, printed: seq<MessageData>)
    requires forall q <- printed :: IsAmong(primary, q)
    requires q in printed || SameProjection(m, q)
    ensures IsAmong(primary + [m], q)
  {
    hide SameProjection;
    if q in printed {
      var p :| p in primary && SameProjection(p, q);
      assert p in primary + [m];
    } else {
      assert m in primary + [m];
    }
  }

  lemma MergedCarries(p: MessageData, q: MessageData, m: MessageData)
    requires IsCounterpart(q, m) && q.text == m.text && q.phase == m.phase && m.family.Legacy?
    ensures Carries(p, q) ==> Carries(p, MergeLegacy(q, m))
    ensures Carries(m, MergeLegacy(q, m)) && SameProjection(m, MergeLegacy(q, m))
  {
  }

  /** A legacy projection takes the place of the completed one it shares its identity with. */
  lemma MergedShows(primary: seq<MessageData>, printed: seq<MessageData>, k: nat, m: MessageData)
    requires Shows(primary, printed) && k < |printed| && IsCounterpart(printed[k], m) && m.family.Legacy?
    requires printed[k].text == m.text && printed[k].phase == m.phase
    ensures Shows(primary + [m], printed[k := MergeLegacy(printed[k], m)])
  {
    hide Carries, SameProjection, IsCounterpart;
    var merged := MergeLegacy(printed[k], m);
    var next := printed[k := merged];
    assert merged == next[k];
    MergedCarries(m, printed[k], m);
    forall p | p in primary + [m]
      ensures IsCarried(p, next)
    {
      if p in primary {
        var q :| q in printed && Carries(p, q);
        var i :| 0 <= i < |printed| && printed[i] == q;
        MergedCarries(p, printed[k], m);
        assert next[i] in next && Carries(p, next[i]);
      }
    }
    forall q | q in next
      ensures IsAmong(primary + [m], q)
    {
      StaysAmong(primary, m, q, printed);
    }
  }

  lemma CounterpartCarries(m: MessageData, q: MessageData)
    requires IsCounterpart(q, m) && m.family.Completed? && q.text == m.text && q.phase == m.phase
    ensures Carries(m, q)
  {
  }

  /** A completed projection that shares its identity with a printed legacy one is shown by that one. */
  lemma RepeatedShows(primary: seq<MessageData>, printed: seq<MessageData>, k: nat, m: MessageData)
    requires Shows(primary, printed) && k < |printed| && IsCounterpart(printed[k], m) && m.family.Completed?
    requires printed[k].text == m.text && printed[k].phase == m.phase
    ensures Shows(primary + [m], printed)
  {
    hide Carries, SameProjection, IsCounterpart;
    CounterpartCarries(m, printed[k]);
    assert printed[k] in printed;
    forall q | q in printed
      ensures IsAmong(primary + [m], q)
    {
      StaysAmong(primary, m, q, printed);
    }
  }

  lemma PrintStepShows(primary: seq<MessageData>, st: PrintState, m: MessageData)
    requires Shows(primary, st.printed) && PrintStep(st, m).issues == []
    ensures Shows(primary + [m], PrintStep(st, m).printed)
  {
    hide Shows, MergeLegacy, LooksAlike, IsCounterpart;
    var counterpart := CounterpartOf(st.printed, m);
    if counterpart.None? {
      AppendedShows(primary, st.printed, m);
    } else if m.family.Legacy? {
      MergedShows(primary, st.printed, counterpart.value, m);
    } else {
      RepeatedShows(primary, st.printed, counterpart.value, m);
    }
  }

  lemma PrintIssuesGrow(st: PrintState, m: MessageData)
    ensures st.issues <= PrintStep(st, m).issues
  {
  }

  /** With no issues from deduplicating, every gathered message is printed, as itself or as its legacy projection. */
  lemma {:induction false} PrintingShows(primary: seq<MessageData>)
    requires PrintAll(primary).issues == []
    ensures Shows(primary, PrintAll(primary).printed)
    decreases |primary|
  {
    hide PrintStep, Shows;
    if primary == [] {
      NothingShown();
    } else {
      var n := |primary| - 1;
      PrintIssuesGrow(PrintAll(primary[..n]), primary[n]);
      PrintingShows(primary[..n]);
      PrintStepShows(primary[..n], PrintAll(primary[..n]), primary[n]);
      assert primary == primary[..n] + [primary[n]];
    }
  }

  lemma NothingShown()
    ensures Shows([], PrintAll([]).printed)
  {
  }

  // ----- which events are shown -----

  /** The later of two completed projections, or a completed one beside a legacy one. */
  ghost predicate StandsFor(threadId: string, events: seq<LineEvent>, i: nat, j: nat)
    requires i < |events| && IsMessage(events[i].event)
  {
    && PrintsAt(threadId, events, j) && events[i].event.CompletedMessage? && SharesIdentity(events, i, j)
    && (events[j].event.LegacyMessage? || j < i)
  }

  ghost predicate PhaseShown(e: Event, phase: Option<string>)
    requires IsMessage(e)
  {
    || phase == PhaseOf(e)
    || (e.CompletedMessage? && e.role == Assistant && e.phase == None
        && (phase == Some("commentary") || phase == Some("final_answer")))
  }

  ghost predicate HasPlaceOf(threadId: string, events: seq<LineEvent>, i: nat, m: MessageData)
    requires i < |events| && IsMessage(events[i].event)
  {
    || (m.line == events[i].line && m.timestamp == events[i].event.timestamp)
    || exists j: nat :: StandsFor(threadId, events, i, j)
                        && m.line == events[j].line && m.timestamp == events[j].event.timestamp
  }

  /** The message shows the event: its role, text and phase, at its own place or at that of a projection of it. */
  ghost predicate ShownBy(threadId: string, events: seq<LineEvent>, i: nat, m: MessageData)
    requires i < |events| && IsMessage(events[i].event)
  {
    && m.role == events[i].event.role && Says(events[i].event, m.text) && PhaseShown(events[i].event, m.phase)
    && HasPlaceOf(threadId, events, i, m)
  }

  /** The event that a gathered message of another event was read from. */
  lemma RepresentingEvent(threadId: string, events: seq<LineEvent>, i: nat, p: MessageData) returns (j: nat)
    requires PrintsAt(threadId, events, i) && Represents(threadId, events, i, p)
    ensures PrintsAt(threadId, events, j) && ReadAs(events, j, p)
    ensures j == i || Repeats(threadId, events, i, j)
  {
    hide ReadAs, Says, SharesIdentity;
    if ReadAs(events, i, p) {
      j := i;
    } else {
      j :| Repeats(threadId, events, i, j) && ReadAs(events, j, p);
    }
  }

  /** A message carried as itself has the place of its event, or of an earlier completed projection. */
  lemma CarriedInPlace(threadId: string, events: seq<LineEvent>, i: nat, p: MessageData, q: MessageData)
    requires PrintsAt(threadId, events, i) && Represents(threadId, events, i, p) && SameProjection(p, q)
    ensures HasPlaceOf(threadId, events, i, q) && q.role == events[i].event.role
  {
    hide Says, Hidden, OtherThread, TurnAt, PhaseOf;
    var j := RepresentingEvent(threadId, events, i, p);
    assert q.line == events[j].line && q.timestamp == events[j].event.timestamp;
    assert j != i ==> StandsFor(threadId, events, i, j);
  }

  /** A completed message shown by its legacy projection has the place of the legacy event. */
  lemma CarriedByLegacy(threadId: string, events: seq<LineEvent>, i: nat, p: MessageData, q: MessageData)
    requires PrintsAt(threadId, events, i) && Represents(threadId, events, i, p)
    requires p.family.Completed? && q.family.Legacy? && SharedId(p, q)
    requires exists r :: SameProjection(r, q) && IsOfAnEvent(threadId, events, r)
    ensures HasPlaceOf(threadId, events, i, q) && q.role == events[i].event.role
  {
    hide Says, Hidden, OtherThread, TurnAt, PhaseOf;
    var j := RepresentingEvent(threadId, events, i, p);
    var r :| SameProjection(r, q) && IsOfAnEvent(threadId, events, r);
    var l: nat :| PrintsAt(threadId, events, l) && ReadAs(events, l, r);
    assert SharesIdentity(events, i, l);
    assert StandsFor(threadId, events, i, l);
  }

  /** What carries a gathered message shows every event that message represents. */
  lemma CarriedShows(threadId: string, events: seq<LineEvent>, i: nat, primary: seq<MessageData>, p: MessageData,
                     q: MessageData)
    requires AllOfEvents(threadId, events, primary) && IsAmong(primary, q)
    requires PrintsAt(threadId, events, i) && Represents(threadId, events, i, p) && Carries(p, q)
    ensures ShownBy(threadId, events, i, q)
  {
    hide Says, Hidden, OtherThread, PhaseOf, IsOfAnEvent, SharedId, ReadAs, Repeats, HasPlaceOf;
    if SameProjection(p, q) {
      CarriedInPlace(threadId, events, i, p, q);
    } else {
      CarriedByLegacy(threadId, events, i, p, q);
    }
  }

  /** A phase added later is shown with the rest of the message. */
  lemma StaysShown(threadId: string, events: seq<LineEvent>, i: nat, q: MessageData, r: MessageData)
    requires PrintsAt(threadId, events, i) && ShownBy(threadId, events, i, q)
    requires q.phase == PhaseOf(events[i].event)
    requires SameProjection(q, r) && PhaseKept(q, r)
    requires q.family.Completed? ==> events[i].event.CompletedMessage?
    ensures ShownBy(threadId, events, i, r)
  {
    hide Says, Hidden, OtherThread, StandsFor;
  }

  ghost predicate IsShown(threadId: string, events: seq<LineEvent>, i: nat, messages: seq<MessageData>)
    requires i < |events| && IsMessage(events[i].event)
  {
    exists m <- messages :: ShownBy(threadId, events, i, m)
  }

  ghost predicate AllShown(threadId: string, events: seq<LineEvent>, messages: seq<MessageData>) {
    forall i: nat :: PrintsAt(threadId, events, i) ==> IsShown(threadId, events, i, messages)
  }

  lemma RepresentedFamily(threadId: string, events: seq<LineEvent>, i: nat, p: MessageData, q: MessageData)
    requires PrintsAt(threadId, events, i) && Represents(threadId, events, i, p) && Carries(p, q)
    ensures q.phase == PhaseOf(events[i].event)
    ensures q.family.Completed? ==> events[i].event.CompletedMessage?
  {
    hide Says, Hidden, OtherThread, PhaseOf, SharesIdentity, TurnAt;
  }

  /** Printing and matching show every event that is represented. */
  lemma RepresentedIsShown(threadId: string, events: seq<LineEvent>, i: nat, primary: seq<MessageData>,
                           printed: seq<MessageData>, final: seq<MessageData>)
    requires AllOfEvents(threadId, events, primary) && Shows(primary, printed) && OnlyPhasesAdded(printed, final)
    requires PrintsAt(threadId, events, i) && IsRepresented(threadId, events, i, primary)
    ensures IsShown(threadId, events, i, final)
  {
    hide AllOfEvents, IsAmong, Represents, ShownBy, Carries, SameProjection, PhaseKept, PhaseOf, Hidden, OtherThread;
    var p :| p in primary && Represents(threadId, events, i, p);
    assert IsCarried(p, printed);
    var q :| q in printed && Carries(p, q);
    var k :| 0 <= k < |printed| && printed[k] == q;
    CarriedShows(threadId, events, i, primary, p, q);
    RepresentedFamily(threadId, events, i, p, q);
    StaysShown(threadId, events, i, q, final[k]);
    assert final[k] in final;
  }

  /** The visible messages are the ordered ones, numbered from one. */
  ghost predicate Presents(x: Extraction) {
    && |x.visible| == |x.ordered|
    && forall k :: 0 <= k < |x.visible| ==>
         && x.visible[k].sequence == k + 1
         && x.visible[k].timestamp == x.ordered[k].timestamp && x.visible[k].role == x.ordered[k].role
         && x.visible[k].phase == x.ordered[k].phase && x.visible[k].text == x.ordered[k].text
  }

  lemma ExtractionPresents(valid: string -> bool, threadId: string, events: seq<LineEvent>)
    ensures Presents(Extracted(valid, threadId, events))
  {
    hide Collect, PrintAll, MatchAll, PhaseIssues;
  }

  /**
   * With no diagnostics, every event that prints is shown: a legacy one at its own place, a completed one at its
   * own or at that of a legacy or an earlier completed projection with the same turn and id.
   */
  lemma CleanExtractionShowsEveryEvent(valid: string -> bool, threadId: string, events: seq<LineEvent>)
    requires Extracted(valid, threadId, events).diagnosticCount == 0
    ensures AllShown(threadId, events, Extracted(valid, threadId, events).ordered)
    ensures Presents(Extracted(valid, threadId, events))
  {
    hide Collect, PrintAll, MatchAll, PhaseIssues, Shows, AllRepresented, AllOfEvents, OnlyPhasesAdded, IsRepresented,
         IsShown, Hidden, OtherThread, RemembersCompleted, FatesSound, Presents;
    ExtractionPresents(valid, threadId, events);
    var collected := Collect(valid, threadId, events);
    var printed := PrintAll(collected.primary).printed;
    var final := MatchAll(printed, collected.responses).printed;
    var ordered := Extracted(valid, threadId, events).ordered;
    CollectedGathers(valid, threadId, events);
    PrintingShows(collected.primary);
    MatchingIsSound(printed, collected.responses);
    ByLineIsATotalPreorder();
    SortSorts(ByLine, final);
    forall i: nat | PrintsAt(threadId, events, i)
      ensures IsShown(threadId, events, i, ordered)
    {
      AllAreRepresented(threadId, events, i, collected.primary);
      RepresentedIsShown(threadId, events, i, collected.primary, printed, final);
      ShownInAnyOrder(threadId, events, i, final, ordered);
    }
  }

  lemma AllAreRepresented(threadId: string, events: seq<LineEvent>, i: nat, primary: seq<MessageData>)
    requires AllRepresented(threadId, events, primary) && PrintsAt(threadId, events, i)
    ensures IsRepresented(threadId, events, i, primary)
  {
  }

  lemma ShownInAnyOrder(threadId: string, events: seq<LineEvent>, i: nat, messages: seq<MessageData>,
                        ordered: seq<MessageData>)
    requires PrintsAt(threadId, events, i) && IsShown(threadId, events, i, messages)
    requires multiset(messages) == multiset(ordered)
    ensures IsShown(threadId, events, i, ordered)
  {
    hide ShownBy;
    var m :| m in messages && ShownBy(threadId, events, i, m);
    assert m in multiset(messages);
  }

  // ----- the diagnostics of a whole extraction -----

  ghost predicate OfNoEvent(issues: seq<Issue>) {
    forall issue <- issues :: !OfOneEvent(issue.code)
  }

  lemma {:induction false} PrintingIsOfNoEvent(primary: seq<MessageData>)
    ensures OfNoEvent(PrintAll(primary).issues)
    decreases |primary|
  {
    if primary != [] {
      PrintingIsOfNoEvent(primary[..|primary| - 1]);
      hide CounterpartOf, LooksAlike;
    }
  }

  lemma {:induction false} MatchingIsOfNoEvent(printed: seq<MessageData>, responses: seq<Response>)
    ensures OfNoEvent(MatchAll(printed, responses).issues)
    decreases |responses|
  {
    if responses != [] {
      MatchingIsOfNoEvent(printed, responses[..|responses| - 1]);
      hide MatchOf, IsContext, AdoptPhase, ResponseText, SameTurn;
    }
  }

  lemma {:induction false} PhasesAreOfNoEvent(printed: seq<MessageData>)
    ensures OfNoEvent(PhaseIssues(printed))
  {
    if printed != [] {
      PhasesAreOfNoEvent(printed[..|printed| - 1]);
    }
  }

  /**
   * Every event that cannot be taken is reported for its reason, up to the first twenty diagnostics, and no other
   * event is; when an event is rejected the extraction is not clean.
   */
  lemma EventsAreRejectedForTheirReasons(valid: string -> bool, threadId: string, events: seq<LineEvent>)
    ensures var x := Extracted(valid, threadId, events);
            && |x.diagnostics| == (if x.diagnosticCount <= 20 then x.diagnosticCount else 20)
            && (x.diagnosticCount <= 20 ==> TellsRejections(valid, threadId, events, x.diagnostics))
            && (forall issue <- x.diagnostics :: OfOneEvent(issue.code) ==>
                  IsRejected(valid, threadId, events, issue.line, issue.code))
            && (forall at <- events, code :: Rejects(valid, threadId, at.event, code) ==> x.diagnosticCount > 0)
  {
    hide Collect, PrintAll, MatchAll, PhaseIssues, Rejects, OfOneEvent;
    var collected := Collect(valid, threadId, events);
    var printing := PrintAll(collected.primary);
    var matching := MatchAll(printing.printed, collected.responses);
    CollectedRejections(valid, threadId, events);
    PrintingIsOfNoEvent(collected.primary);
    MatchingIsOfNoEvent(printing.printed, collected.responses);
    PhasesAreOfNoEvent(matching.printed);
    var others := printing.issues + matching.issues + PhaseIssues(matching.printed);
    AllIssuesTell(valid, threadId, events, collected.issues, others);
    var issues := collected.issues + others;
    assert issues == collected.issues + printing.issues + matching.issues + PhaseIssues(matching.printed);
    assert forall issue :: issue in issues[..if |issues| <= 20 then |issues| else 20] ==> issue in issues;
    forall at, code | at in events && Rejects(valid, threadId, at.event, code)
      ensures issues != []
    {
      RejectedIsOfOneEvent(valid, threadId, at.event, code);
      assert IsRejected(valid, threadId, events, at.line, code);
      assert Issue(at.line, code) in issues;
    }
  }

  lemma RejectedIsOfOneEvent(valid: string -> bool, threadId: string, e: Event, code: Code)
    requires Rejects(valid, threadId, e, code)
    ensures OfOneEvent(code)
  {
  }

  lemma AllIssuesTell(valid: string -> bool, threadId: string, events: seq<LineEvent>, read: seq<Issue>,
                      others: seq<Issue>)
    requires TellsRejections(valid, threadId, events, read) && OfNoEvent(others)
    ensures TellsRejections(valid, threadId, events, read + others)
  {
    hide IsRejected, OfOneEvent;
  }

  // ----- the format and the final answers -----

  ghost predicate Holds(events: seq<LineEvent>, family: Family) {
    exists at <- events :: if family == Legacy then at.event.LegacyMessage? else at.event.CompletedMessage?
  }

  lemma FamiliesOfAStep(valid: string -> bool, threadId: string, st: Collected, at: LineEvent)
    ensures CollectStep(valid, threadId, st, at).families
         == st.families + (if at.event.LegacyMessage? then {Legacy} else {})
            + (if at.event.CompletedMessage? then {Completed} else {})
  {
    hide ReadLegacy, ReadCompleted, IdentityOf;
  }

  lemma {:induction false} FamiliesOfEvents(valid: string -> bool, threadId: string, events: seq<LineEvent>)
    ensures forall family :: family in Collect(valid, threadId, events).families <==> Holds(events, family)
    decreases |events|
  {
    if events != [] {
      hide CollectStep;
      var n := |events| - 1;
      FamiliesOfEvents(valid, threadId, events[..n]);
      FamiliesOfAStep(valid, threadId, Collect(valid, threadId, events[..n]), events[n]);
      assert events == events[..n] + [events[n]];
      assert forall at :: at in events <==> at in events[..n] || at == events[n];
    }
  }

  lemma FormatOfFamilies(families: set<Family>)
    ensures FormatOf(families) == (if Legacy in families && Completed in families then Mixed
                                   else if Legacy in families then LegacyOnly
                                   else if Completed in families then CompletedOnly
                                   else UnknownFormat)
  {
    var named := (if Legacy in families then {Legacy} else {}) + (if Completed in families then {Completed} else {});
    forall family: Family
      ensures family in families <==> family in named
    {
      assert family.Legacy? || family.Completed?;
    }
    assert families == named;
  }

  /** The format names the families of messages the events hold, visible or not. */
  lemma FormatFollowsEvents(valid: string -> bool, threadId: string, events: seq<LineEvent>)
    ensures Extracted(valid, threadId, events).format
         == (if Holds(events, Legacy) && Holds(events, Completed) then Mixed
             else if Holds(events, Legacy) then LegacyOnly
             else if Holds(events, Completed) then CompletedOnly
             else UnknownFormat)
  {
    hide Collect, PrintAll, MatchAll, PhaseIssues, FormatOf, Holds;
    FamiliesOfEvents(valid, threadId, events);
    FormatOfFamilies(Collect(valid, threadId, events).families);
  }

  ghost function FinalPlaces(visible: seq<Visible>): set<nat> {
    set k: nat | k < |visible| && visible[k].role == Assistant && visible[k].phase == Some("final_answer")
  }

  lemma OneMoreFinal(visible: seq<Visible>, last: Visible)
    ensures |FinalPlaces(visible + [last])|
         == |FinalPlaces(visible)| + if last.role == Assistant && last.phase == Some("final_answer") then 1 else 0
  {
    var more := if last.role == Assistant && last.phase == Some("final_answer") then {|visible|} else {};
    assert FinalPlaces(visible + [last]) == FinalPlaces(visible) + more;
    assert FinalPlaces(visible) !! more;
  }

  /** The final answers of an extraction are the visible messages of an assistant in that phase. */
  lemma {:induction false} FinalAnswersAreCounted(visible: seq<Visible>)
    ensures FinalAnswers(visible) == |FinalPlaces(visible)|
  {
    if visible != [] {
      hide FinalPlaces;
      var n := |visible| - 1;
      FinalAnswersAreCounted(visible[..n]);
      OneMoreFinal(visible[..n], visible[n]);
      assert visible == visible[..n] + [visible[n]];
    }
  }
}
