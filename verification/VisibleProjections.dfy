/**
 * How the projections of one message are reconciled, one event, one printed message and one response at a
 * time: what each of them leaves, in terms of what was there before.
 */
module VisibleProjections {
  import opened Common
  import opened VisibleMessages
  import opened VisibleEvents

  // ----- gathering one event -----

  ghost predicate OneMessage(m: MessageData, other: MessageData) {
    m.role == other.role && m.turn == other.turn && Named(m.turn) && m.id == other.id && Named(m.id)
  }

  ghost predicate Disagree(m: MessageData, other: MessageData) {
    m.text != other.text || m.phase != other.phase
  }

  /** A completed message is a duplicate of the first of its identity, in conflict with it, or the first one. */
  ghost predicate PlacesCompleted(before: Collected, line: nat, m: MessageData, after: Collected) {
    && after.responses == before.responses && after.activeTurn == before.activeTurn
    && after.families == before.families
    && if !Named(m.turn) || !Named(m.id) then
         && after.primary == before.primary + [m] && after.completed == before.completed
         && after.duplicates == before.duplicates && after.issues == before.issues
       else
         var identity := Identity(m.turn.value, m.role, m.id.value);
         if identity !in before.completed then
           && after.primary == before.primary + [m] && after.completed == before.completed[identity := m]
           && after.duplicates == before.duplicates && after.issues == before.issues
         else
           var clash := Disagree(before.completed[identity], m);
           && after.primary == before.primary && after.completed == before.completed
           && after.duplicates == before.duplicates + (if clash then 0 else 1)
           && after.issues == before.issues + (if clash then [Issue(line, ConflictingCompletedIdentity)] else [])
  }

  ghost predicate AnswersAs(e: Event, line: nat, turn: Option<string>, r: Response)
    requires e.ResponseMessage?
  {
    && r.line == line && r.id == e.id && r.role == e.role && r.content == e.content && r.kinds == e.kinds
    && r.turn == (if e.turn.Some? then e.turn else turn)
    && r.phase == (if e.phase.Some? then e.phase
                   else if e.channel == Some("final") then Some("final_answer")
                   else e.channel)
  }

  /** What an event leaves that is no printed message of either family. */
  ghost predicate PassesBy(before: Collected, at: LineEvent, after: Collected)
    requires !IsMessage(at.event)
  {
    match at.event
    case TurnStart(turn) =>
      after == before.(activeTurn := after.activeTurn)
      && after.activeTurn == if turn.Some? then turn else before.activeTurn
    case ResponseMessage(_, _, _, _, _, _, _) =>
      && after == before.(responses := after.responses) && |after.responses| == |before.responses| + 1
      && before.responses <= after.responses
      && AnswersAs(at.event, at.line, before.activeTurn, after.responses[|before.responses|])
    case MalformedCompletedItem =>
      after == before.(issues := before.issues + [Issue(at.line, UnsupportedCompletedItem)])
    case OtherCompletedItem(messageLike) =>
      after == before.(issues := before.issues
                                 + if messageLike then [Issue(at.line, UnsupportedCompletedType)] else [])
    case OtherEvent => after == before
  }

  /** A printed message of the legacy family is gathered, and one of the completed family placed. */
  ghost predicate Takes(valid: string -> bool, threadId: string, before: Collected, at: LineEvent, after: Collected)
    requires IsMessage(at.event)
  {
    var family := if at.event.LegacyMessage? then Legacy else Completed;
    var counted := before.(families := before.families + {family});
    exists reading ::
      && ReadsEvent(valid, threadId, at.event, at.line, before.activeTurn, reading)
      && (if !reading.Printed? then after == counted.(issues := after.issues)
          else
            exists issues ::
              if at.event.LegacyMessage? then
                after == counted.(issues := issues, primary := before.primary + [reading.message])
              else PlacesCompleted(counted.(issues := issues), at.line, reading.message, after))
  }

  lemma CompletedIsPlaced(st: Collected, line: nat, m: MessageData)
    ensures PlacesCompleted(st, line, m, PlacedCompleted(st, line, m))
  {
  }

  lemma EventsPassBy(valid: string -> bool, threadId: string, st: Collected, at: LineEvent)
    requires !IsMessage(at.event)
    ensures PassesBy(st, at, CollectStep(valid, threadId, st, at))
  {
  }

  lemma MessagesAreTaken(valid: string -> bool, threadId: string, st: Collected, at: LineEvent)
    requires IsMessage(at.event)
    ensures Takes(valid, threadId, st, at, CollectStep(valid, threadId, st, at))
  {
    hide ReadsEvent, ReadLegacy, ReadCompleted, PlacedCompleted, PlacesCompleted;
    if at.event.LegacyMessage? {
      var reading := ReadLegacy(valid, at.event, at.line, st.activeTurn);
      LegacyIsRead(valid, threadId, at.event, at.line, st.activeTurn);
      assert ReadsEvent(valid, threadId, at.event, at.line, st.activeTurn, reading);
    } else {
      var reading := ReadCompleted(valid, threadId, at.event, at.line, st.activeTurn);
      CompletedIsRead(valid, threadId, at.event, at.line, st.activeTurn);
      assert ReadsEvent(valid, threadId, at.event, at.line, st.activeTurn, reading);
      if reading.Printed? {
        var noted := st.(families := st.families + {Completed},
                         issues := st.issues + IssuesAt(at.line, reading.remarks));
        CompletedIsPlaced(noted, at.line, reading.message);
      }
    }
  }

  // ----- printing one message -----

  ghost predicate OtherProjection(c: MessageData, m: MessageData) {
    c.family != m.family && OneMessage(c, m)
  }

  ghost predicate Lookalike(c: MessageData, m: MessageData) {
    && c.family != m.family && c.role == m.role && c.turn == m.turn && Named(c.turn)
    && c.timestamp == m.timestamp && c.text == m.text
  }

  ghost predicate FirstProjection(printed: seq<MessageData>, m: MessageData, k: nat) {
    && k < |printed| && OtherProjection(printed[k], m)
    && forall i :: 0 <= i < k ==> !OtherProjection(printed[i], m)
  }

  /** The legacy message takes the place of the completed one, which keeps what only it had. */
  ghost predicate TakesPlace(c: MessageData, m: MessageData, merged: MessageData) {
    && SameProjection(m, merged) && merged.phase == m.phase
    && merged.citation == c.citation && merged.delivery == c.delivery && merged.phaseSourceLine == c.phaseSourceLine
  }

  /** A message is merged with its other projection, in conflict with it, or printed beside the rest. */
  ghost predicate Places(before: PrintState, m: MessageData, after: PrintState) {
    if k: nat :| FirstProjection(before.printed, m, k) then
      if Disagree(before.printed[k], m) then
        after == before.(issues := before.issues + [Issue(m.line, ConflictingPrintedProjections)])
      else
        && after.issues == before.issues && after.duplicates == before.duplicates + 1
        && (if m.family.Completed? then after.printed == before.printed
            else
              && |after.printed| == |before.printed| && TakesPlace(before.printed[k], m, after.printed[k])
              && forall i :: 0 <= i < |before.printed| && i != k ==> after.printed[i] == before.printed[i])
    else
      && after.printed == before.printed + [m] && after.duplicates == before.duplicates
      && after.issues == before.issues + if exists c <- before.printed :: Lookalike(c, m)
                                         then [Issue(m.line, AmbiguousPrintedProjections)] else []
  }

  lemma FirstIsCounterpart(printed: seq<MessageData>, m: MessageData, k: nat)
    ensures FirstProjection(printed, m, k) <==> CounterpartOf(printed, m) == Some(k)
  {
    assert forall c :: IsCounterpart(c, m) <==> OtherProjection(c, m);
    hide OtherProjection, IsCounterpart;
  }

  lemma MergedTakesPlace(c: MessageData, m: MessageData)
    ensures TakesPlace(c, m, MergeLegacy(c, m))
  {
  }

  /** Each printed message finds its place among those before it. */
  lemma MessagesArePlaced(st: PrintState, m: MessageData)
    ensures Places(st, m, PrintStep(st, m))
  {
    assert forall c :: LooksAlike(c, m) <==> Lookalike(c, m);
    hide CounterpartOf, FirstProjection, TakesPlace, MergeLegacy, LooksAlike, Lookalike;
    forall k: nat
      ensures FirstProjection(st.printed, m, k) <==> CounterpartOf(st.printed, m) == Some(k)
    {
      FirstIsCounterpart(st.printed, m, k);
    }
    if CounterpartOf(st.printed, m).Some? {
      MergedTakesPlace(st.printed[CounterpartOf(st.printed, m).value], m);
    }
  }

  // ----- matching one response -----

  ghost predicate HasLength(content: Content, n: nat) {
    match content
    case Blocks(blocks) => |blocks| == n
    case NotAList(size) => size == Some(n)
  }

  /** Every block of a user response is context that the harness added. */
  ghost predicate ContextOnly(r: Response) {
    && r.role == User && r.kinds.Some? && HasLength(r.content, |r.kinds.value|)
    && forall kind <- r.kinds.value ::
         kind == "plugins.recommendations" || kind == "agents_md.instructions"
         || kind == "environments.environment_context"
  }

  ghost predicate Answers(r: Response, text: string) {
    Contains(r.content, if r.role == User then "input_text" else "output_text", text)
  }

  ghost predicate TurnsAgree(r: Response, m: MessageData) {
    Named(r.turn) && Named(m.turn) ==> r.turn == m.turn
  }

  /** The response is a projection of the message: by an assistant's id, or by an equal text on the next line. */
  ghost predicate Projects(r: Response, m: MessageData) {
    && m.role == r.role && TurnsAgree(r, m)
    && ((r.role == Assistant && Named(r.id) && r.id == m.id)
        || ((m.line - r.line == 1 || m.line - r.line == -1) && Answers(r, m.text)))
  }

  ghost predicate FirstFree(st: MatchState, r: Response, k: nat) {
    && k < |st.printed| && k !in st.used && Projects(r, st.printed[k])
    && forall i: nat :: i < k && i !in st.used ==> !Projects(r, st.printed[i])
  }

  /** A completed message of an assistant without a phase takes it from an equal response. */
  ghost predicate Adopts(m: MessageData, r: Response, after: MessageData) {
    if m.family == Completed && m.role == Assistant && m.phase == None && Answers(r, m.text)
       && (r.phase == Some("commentary") || r.phase == Some("final_answer"))
    then after == m.(phase := r.phase, phaseSourceLine := Some(r.line)) else after == m
  }

  ghost predicate Unclassified(r: Response) {
    if r.role == User then
      r.kinds.None? || !HasLength(r.content, |r.kinds.value|) || exists kind <- r.kinds.value :: kind != "user.text"
    else r.phase != Some("commentary") && r.phase != Some("final_answer")
  }

  /** Why a response without a printed message is reported: the first reason that applies. */
  ghost predicate Explains(printed: seq<MessageData>, r: Response, code: Code) {
    if forall text: string :: !Answers(r, text) then code == UnsupportedResponseContent
    else if Unclassified(r) then
      code == if r.role == User then UnclassifiedUserVisibility else UnclassifiedAssistantVisibility
    else if exists m <- printed :: m.role == r.role && TurnsAgree(r, m) && Answers(r, m.text) then
      code == AmbiguousResponseProjection
    else code == UnmatchedResponse
  }

  /** A response is context, the projection of the first free message it fits, analysis, or reported. */
  ghost predicate Settles(before: MatchState, r: Response, after: MatchState) {
    if ContextOnly(r) then
      after == before.(excluded := before.excluded + 1, fates := before.fates + [ExcludedContext])
    else if k: nat :| FirstFree(before, r, k) then
      && |after.printed| == |before.printed| && Adopts(before.printed[k], r, after.printed[k])
      && (forall i :: 0 <= i < |before.printed| && i != k ==> after.printed[i] == before.printed[i])
      && after == before.(printed := after.printed, used := before.used + {k},
                          fates := before.fates + [Projection(k)], projections := before.projections + 1)
    else if r.role == Assistant && r.phase == Some("analysis") then
      after == before.(fates := before.fates + [AnalysisSkipped])
    else
      exists code :: Explains(before.printed, r, code)
                     && after == before.(issues := before.issues + [Issue(r.line, code)],
                                         fates := before.fates + [Unaccounted(code)])
  }

  lemma ResponseAnswers(r: Response)
    ensures forall text :: ResponseText(r) == Some(text) <==> Answers(r, text)
    ensures ResponseText(r).None? <==> forall text: string :: !Answers(r, text)
  {
    hide TextContent, Contains;
    ContentIsContained(r.content, if r.role.User? then "input_text" else "output_text");
    if ResponseText(r).Some? {
      assert Answers(r, ResponseText(r).value);
    }
  }

  lemma ContextIsOnly(r: Response)
    ensures IsContext(r) <==> ContextOnly(r)
  {
  }

  lemma MatchesProjects(r: Response, m: MessageData)
    ensures Matches(r, m) <==> Projects(r, m)
  {
    hide ResponseText, Answers;
    ResponseAnswers(r);
  }

  lemma FirstFreeIsMatch(st: MatchState, r: Response, k: nat)
    ensures FirstFree(st, r, k) <==> MatchOf(st.printed, st.used, r) == Some(k)
  {
    hide Matches, Projects;
    forall m
      ensures Matches(r, m) <==> Projects(r, m)
    {
      MatchesProjects(r, m);
    }
  }

  lemma AdoptionAdopts(m: MessageData, r: Response)
    ensures Adopts(m, r, AdoptPhase(m, r))
  {
    hide ResponseText, Answers;
    ResponseAnswers(r);
  }

  lemma CodeExplains(printed: seq<MessageData>, r: Response)
    ensures Explains(printed, r, UnmatchedCode(printed, r))
  {
    hide ResponseText, Answers;
    ResponseAnswers(r);
  }

  /** Each response is settled against the printed messages that are still free. */
  lemma ResponsesAreSettled(st: MatchState, r: Response)
    ensures Settles(st, r, MatchStep(st, r))
  {
    hide IsContext, ContextOnly, MatchOf, FirstFree, AdoptPhase, Adopts, UnmatchedCode, Explains;
    ContextIsOnly(r);
    forall k: nat
      ensures FirstFree(st, r, k) <==> MatchOf(st.printed, st.used, r) == Some(k)
    {
      FirstFreeIsMatch(st, r, k);
    }
    if MatchOf(st.printed, st.used, r).Some? {
      FirstFreeIsInRange(st, r, MatchOf(st.printed, st.used, r).value);
      AdoptionAdopts(st.printed[MatchOf(st.printed, st.used, r).value], r);
    }
    CodeExplains(st.printed, r);
  }

  lemma FirstFreeIsInRange(st: MatchState, r: Response, k: nat)
    requires FirstFree(st, r, k)
    ensures k < |st.printed|
  {
  }
}
