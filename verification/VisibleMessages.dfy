/**
 * Visible messages of a rollout: printed events are collected, the two printed families are
 * deduplicated by merging message objects in place, and model responses are matched against them.
 */
module VisibleMessages {
  import opened Common

  datatype Role = User | Assistant

  datatype Family = Legacy | Completed

  datatype Block = Block(kind: string, text: Option<string>)

  /** A content list, or a value of another kind with whatever length that value has. */
  datatype Content = Blocks(blocks: seq<Block>) | NotAList(size: Option<nat>)

  datatype Event =
    | TurnStart(turn: Option<string>)
    | LegacyMessage(role: Role, phase: Option<string>, text: Option<string>, turn: Option<string>, id: Option<string>,
                    timestamp: Option<string>, attached: bool)
    | MalformedCompletedItem
    | OtherCompletedItem(messageLike: bool)
    | CompletedMessage(role: Role, thread: Option<string>, phase: Option<string>, content: Content,
                       turn: Option<string>, id: Option<string>, timestamp: Option<string>,
                       citation: Option<string>, delivery: Option<string>)
    | ResponseMessage(role: Role, turn: Option<string>, id: Option<string>, phase: Option<string>,
                      channel: Option<string>, content: Content, kinds: Option<seq<string>>)
    | OtherEvent

  datatype LineEvent = LineEvent(event: Event, line: nat)

  datatype MessageData = MessageData(
    family: Family, line: nat, turn: Option<string>, id: Option<string>, timestamp: Option<string>, role: Role,
    phase: Option<string>, text: string, citation: Option<string>, delivery: Option<string>,
    phaseSourceLine: Option<nat>)

  datatype Response = Response(
    line: nat, turn: Option<string>, id: Option<string>, role: Role, phase: Option<string>, content: Content,
    kinds: Option<seq<string>>)

  datatype Code =
    | UnsupportedLegacyPhase | UnsupportedLegacyText | UnsupportedTimestamp | UnsupportedAttachment
    | UnsupportedCompletedItem | UnsupportedCompletedType | ThreadMismatch | UnsupportedCompletedPhase
    | UnsupportedCompletedContent | ConflictingCompletedIdentity
    | ConflictingPrintedProjections | AmbiguousPrintedProjections
    | UnsupportedResponseContent | UnclassifiedUserVisibility | UnclassifiedAssistantVisibility
    | AmbiguousResponseProjection | UnmatchedResponse | UnknownCompletedPhase

  datatype Issue = Issue(line: nat, code: Code)

  const VISIBLE_PHASES := {"commentary", "final_answer"}

  const HIDDEN_PHASES := {"analysis", "reasoning"}

  const CONTEXT_KINDS := {"plugins.recommendations", "agents_md.instructions", "environments.environment_context"}

  predicate Present(s: Option<string>) {
    s.Some? && s.value != ""
  }

  function OrElse<T>(a: Option<T>, b: Option<T>): Option<T> {
    if a.Some? then a else b
  }

  function Joined(blocks: seq<Block>): string
    requires forall b <- blocks :: b.text.Some?
  {
    if blocks == [] then "" else Joined(blocks[..|blocks| - 1]) + blocks[|blocks| - 1].text.value
  }

  /** The text of a content list whose blocks all have the expected type, and nothing otherwise. */
  function TextContent(content: Content, expected: string): Option<string> {
    if content.NotAList? || content.blocks == []
      || !(forall b <- content.blocks :: b.kind == expected && b.text.Some?) then None
    else Some(Joined(content.blocks))
  }

  function Length(content: Content): Option<nat> {
    if content.Blocks? then Some(|content.blocks|) else content.size
  }

  function ChannelPhase(channel: Option<string>): Option<string> {
    if channel == Some("final") then Some("final_answer") else channel
  }

  // ----- first pass: reading the events -----

  datatype Reading = Ignored | Rejected(code: Code) | Printed(message: MessageData, remarks: seq<Code>)

  function Remark(wanted: bool, code: Code): seq<Code> {
    if wanted then [code] else []
  }

  predicate ValidTime(valid: string -> bool, timestamp: Option<string>) {
    timestamp.Some? && valid(timestamp.value)
  }

  function ReadLegacy(valid: string -> bool, e: Event, line: nat, activeTurn: Option<string>): Reading
    requires e.LegacyMessage?
  {
    if e.role.Assistant? && e.phase.Some? && e.phase.value in HIDDEN_PHASES then Ignored
    else if e.role.Assistant? && e.phase.Some? && e.phase.value !in VISIBLE_PHASES then Rejected(UnsupportedLegacyPhase)
    else if e.text.None? then Rejected(UnsupportedLegacyText)
    else Printed(
      MessageData(Legacy, line, OrElse(e.turn, activeTurn), e.id, e.timestamp, e.role,
                  if e.role.User? then None else e.phase, e.text.value, None, None, None),
      Remark(!ValidTime(valid, e.timestamp), UnsupportedTimestamp) + Remark(e.attached, UnsupportedAttachment))
  }

  function CompletedText(e: Event): Option<string>
    requires e.CompletedMessage?
  {
    TextContent(e.content, if e.role.User? then "text" else "Text")
  }

  function ReadCompleted(valid: string -> bool, threadId: string, e: Event, line: nat,
                         activeTurn: Option<string>): Reading
    requires e.CompletedMessage?
  {
    if e.thread.Some? && e.thread.value != threadId then Rejected(ThreadMismatch)
    else if e.role.Assistant? && e.phase.Some? && e.phase.value in HIDDEN_PHASES then Ignored
    else if e.role.Assistant? && e.phase.Some? && e.phase.value !in VISIBLE_PHASES then
      Rejected(UnsupportedCompletedPhase)
    else if CompletedText(e).None? then Rejected(UnsupportedCompletedContent)
    else Printed(
      MessageData(Completed, line, OrElse(e.turn, activeTurn), e.id, e.timestamp, e.role,
                  if e.role.User? then None else e.phase, CompletedText(e).value, e.citation, e.delivery, None),
      Remark(!ValidTime(valid, e.timestamp), UnsupportedTimestamp))
  }

  datatype Identity = Identity(turn: string, role: Role, id: string)

  function IdentityOf(m: MessageData): Option<Identity> {
    if Present(m.id) && Present(m.turn) then Some(Identity(m.turn.value, m.role, m.id.value)) else None
  }

  function IssuesAt(line: nat, codes: seq<Code>): seq<Issue> {
    seq(|codes|, i requires 0 <= i < |codes| => Issue(line, codes[i]))
  }

  datatype Collected = Collected(
    primary: seq<MessageData>, responses: seq<Response>, issues: seq<Issue>, completed: map<Identity, MessageData>,
    duplicates: nat, activeTurn: Option<string>, families: set<Family>)

  const NOTHING_COLLECTED := Collected([], [], [], map[], 0, None, {})

  function WithIssue(st: Collected, line: nat, code: Code): Collected {
    st.(issues := st.issues + [Issue(line, code)])
  }

  function WithLegacy(st: Collected, line: nat, reading: Reading): Collected {
    match reading
    case Ignored => st
    case Rejected(code) => WithIssue(st, line, code)
    case Printed(message, remarks) =>
      st.(issues := st.issues + IssuesAt(line, remarks), primary := st.primary + [message])
  }

  /** A completed identity seen before is a duplicate or a conflict; anything else is printed. */
  function PlacedCompleted(st: Collected, line: nat, message: MessageData): Collected {
    var identity := IdentityOf(message);
    if identity.Some? && identity.value in st.completed then
      var existing := st.completed[identity.value];
      if existing.text != message.text || existing.phase != message.phase
      then WithIssue(st, line, ConflictingCompletedIdentity)
      else st.(duplicates := st.duplicates + 1)
    else if identity.Some? then
      st.(primary := st.primary + [message], completed := st.completed[identity.value := message])
    else st.(primary := st.primary + [message])
  }

  function WithCompleted(st: Collected, line: nat, reading: Reading): Collected {
    match reading
    case Ignored => st
    case Rejected(code) => WithIssue(st, line, code)
    case Printed(message, remarks) => PlacedCompleted(st.(issues := st.issues + IssuesAt(line, remarks)), line, message)
  }

  function ResponseOf(e: Event, line: nat, activeTurn: Option<string>): Response
    requires e.ResponseMessage?
  {
    Response(line, OrElse(e.turn, activeTurn), e.id, e.role, OrElse(e.phase, ChannelPhase(e.channel)), e.content,
             e.kinds)
  }

  function CollectStep(valid: string -> bool, threadId: string, st: Collected, at: LineEvent): Collected {
    match at.event
    case TurnStart(turn) => st.(activeTurn := OrElse(turn, st.activeTurn))
    case LegacyMessage(_, _, _, _, _, _, _) =>
      WithLegacy(st.(families := st.families + {Legacy}), at.line, ReadLegacy(valid, at.event, at.line, st.activeTurn))
    case MalformedCompletedItem => WithIssue(st, at.line, UnsupportedCompletedItem)
    case OtherCompletedItem(messageLike) => if messageLike then WithIssue(st, at.line, UnsupportedCompletedType) else st
    case CompletedMessage(_, _, _, _, _, _, _, _, _) =>
      WithCompleted(st.(families := st.families + {Completed}), at.line,
                    ReadCompleted(valid, threadId, at.event, at.line, st.activeTurn))
    case ResponseMessage(_, _, _, _, _, _, _) =>
      st.(responses := st.responses + [ResponseOf(at.event, at.line, st.activeTurn)])
    case OtherEvent => st
  }

  function Collect(valid: string -> bool, threadId: string, events: seq<LineEvent>): Collected
    decreases |events|
  {
    if events == [] then NOTHING_COLLECTED
    else CollectStep(valid, threadId, Collect(valid, threadId, events[..|events| - 1]), events[|events| - 1])
  }

  // ----- second pass: deduplicating the printed families -----

  function FirstIndex<T>(s: seq<T>, p: (nat, T) -> bool): (r: Option<nat>)
    ensures r.Some? ==> r.value < |s| && p(r.value, s[r.value]) && forall i :: 0 <= i < r.value ==> !p(i, s[i])
    ensures r.None? ==> forall i :: 0 <= i < |s| ==> !p(i, s[i])
  {
    if s == [] then None
    else
      var earlier := FirstIndex(s[..|s| - 1], p);
      if earlier.Some? then earlier
      else if p(|s| - 1, s[|s| - 1]) then Some(|s| - 1) else None
  }

  /** Two projections of one message: other family, same role, and an explicit shared turn and id. */
  predicate IsCounterpart(c: MessageData, m: MessageData) {
    c.family != m.family && c.role == m.role && Present(c.turn) && c.turn == m.turn && Present(c.id) && c.id == m.id
  }

  predicate LooksAlike(c: MessageData, m: MessageData) {
    c.family != m.family && c.role == m.role && Present(c.turn) && c.turn == m.turn && c.timestamp == m.timestamp
      && c.text == m.text
  }

  function CounterpartOf(printed: seq<MessageData>, m: MessageData): Option<nat> {
    FirstIndex(printed, (_, c) => IsCounterpart(c, m))
  }

  /** The legacy projection overwrites the fields it has; the completed-only fields stay. */
  function MergeLegacy(c: MessageData, m: MessageData): MessageData {
    m.(citation := c.citation, delivery := c.delivery, phaseSourceLine := c.phaseSourceLine)
  }

  datatype PrintState = PrintState(printed: seq<MessageData>, issues: seq<Issue>, duplicates: nat)

  function PrintStep(st: PrintState, m: MessageData): PrintState {
    var counterpart := CounterpartOf(st.printed, m);
    if counterpart.Some? then
      var k := counterpart.value;
      if st.printed[k].text != m.text || st.printed[k].phase != m.phase then
        st.(issues := st.issues + [Issue(m.line, ConflictingPrintedProjections)])
      else
        st.(duplicates := st.duplicates + 1,
            printed := if m.family.Legacy? then st.printed[k := MergeLegacy(st.printed[k], m)] else st.printed)
    else if exists c <- st.printed :: LooksAlike(c, m) then
      st.(issues := st.issues + [Issue(m.line, AmbiguousPrintedProjections)], printed := st.printed + [m])
    else st.(printed := st.printed + [m])
  }

  function PrintAll(primary: seq<MessageData>): PrintState
    decreases |primary|
  {
    if primary == [] then PrintState([], [], 0)
    else PrintStep(PrintAll(primary[..|primary| - 1]), primary[|primary| - 1])
  }

  // ----- third pass: matching the responses -----

  datatype Fate = ExcludedContext | Projection(of: nat) | AnalysisSkipped | Unaccounted(code: Code)

  predicate IsContext(r: Response) {
    && r.role.User?
    && r.kinds.Some?
    && Length(r.content) == Some(|r.kinds.value|)
    && forall kind <- r.kinds.value :: kind in CONTEXT_KINDS
  }

  function ResponseText(r: Response): Option<string> {
    TextContent(r.content, if r.role.User? then "input_text" else "output_text")
  }

  predicate SameTurn(r: Response, m: MessageData) {
    !Present(r.turn) || !Present(m.turn) || r.turn == m.turn
  }

  /** A printed message a response projects: same role and turn, and the same id or an adjacent equal text. */
  predicate Matches(r: Response, m: MessageData) {
    && m.role == r.role
    && SameTurn(r, m)
    && (|| (r.role.Assistant? && Present(r.id) && r.id == m.id)
        || ((m.line == r.line + 1 || r.line == m.line + 1) && ResponseText(r) == Some(m.text)))
  }

  ghost function MatchOf(printed: seq<MessageData>, used: set<nat>, r: Response): Option<nat> {
    FirstIndex(printed, (i, m) => i !in used && Matches(r, m))
  }

  ghost function AdoptPhase(m: MessageData, r: Response): MessageData {
    if m.family.Completed? && m.role.Assistant? && m.phase.None? && ResponseText(r) == Some(m.text)
       && r.phase.Some? && r.phase.value in VISIBLE_PHASES
    then m.(phase := r.phase, phaseSourceLine := Some(r.line)) else m
  }

  /** Why a response with no printed message is reported. */
  ghost function UnmatchedCode(printed: seq<MessageData>, r: Response): Code {
    if ResponseText(r).None? then UnsupportedResponseContent
    else if r.role.User? && (r.kinds.None? || Some(|r.kinds.value|) != Length(r.content)
                             || exists kind <- r.kinds.value :: kind != "user.text") then UnclassifiedUserVisibility
    else if r.role.Assistant? && (r.phase.None? || r.phase.value !in VISIBLE_PHASES) then
      UnclassifiedAssistantVisibility
    else if exists m <- printed :: SameTurn(r, m) && m.role == r.role && ResponseText(r) == Some(m.text) then
      AmbiguousResponseProjection
    else UnmatchedResponse
  }

  datatype MatchState = MatchState(
    printed: seq<MessageData>, used: set<nat>, fates: seq<Fate>, issues: seq<Issue>, excluded: nat, projections: nat)

  ghost function MatchStep(st: MatchState, r: Response): MatchState {
    if IsContext(r) then st.(excluded := st.excluded + 1, fates := st.fates + [ExcludedContext])
    else
      var counterpart := MatchOf(st.printed, st.used, r);
      if counterpart.Some? then
        var k := counterpart.value;
        st.(printed := st.printed[k := AdoptPhase(st.printed[k], r)], used := st.used + {k},
            fates := st.fates + [Projection(k)], projections := st.projections + 1)
      else if r.role.Assistant? && r.phase == Some("analysis") then st.(fates := st.fates + [AnalysisSkipped])
      else
        var code := UnmatchedCode(st.printed, r);
        st.(issues := st.issues + [Issue(r.line, code)], fates := st.fates + [Unaccounted(code)])
  }

  ghost function MatchAll(printed: seq<MessageData>, responses: seq<Response>): MatchState
    decreases |responses|
  {
    if responses == [] then MatchState(printed, {}, [], [], 0, 0)
    else MatchStep(MatchAll(printed, responses[..|responses| - 1]), responses[|responses| - 1])
  }

  // ----- the result -----

  predicate PhaseUnknown(m: MessageData) {
    m.family.Completed? && m.role.Assistant? && m.phase.None?
  }

  ghost function PhaseIssues(printed: seq<MessageData>): seq<Issue> {
    if printed == [] then []
    else
      var earlier := PhaseIssues(printed[..|printed| - 1]);
      var last := printed[|printed| - 1];
      if PhaseUnknown(last) then earlier + [Issue(last.line, UnknownCompletedPhase)] else earlier
  }

  datatype Visible = Visible(sequence: nat, timestamp: Option<string>, role: Role, phase: Option<string>, text: string)

  datatype Format = Mixed | LegacyOnly | CompletedOnly | UnknownFormat

  datatype Coverage = Partial | Unsupported | Supported | NoVisibleMessages

  datatype Extraction = Extraction(
    ordered: seq<MessageData>, visible: seq<Visible>, finalAnswers: nat, format: Format, coverage: Coverage,
    diagnostics: seq<Issue>, diagnosticCount: nat, excludedContext: nat, responseProjections: nat,
    duplicateProjections: nat)

  function VisibleOf(ordered: seq<MessageData>): seq<Visible> {
    seq(|ordered|, i requires 0 <= i < |ordered| =>
      Visible(i + 1, ordered[i].timestamp, ordered[i].role, ordered[i].phase, ordered[i].text))
  }

  function FinalAnswers(visible: seq<Visible>): nat {
    if visible == [] then 0
    else
      var last := visible[|visible| - 1];
      FinalAnswers(visible[..|visible| - 1]) + if last.role.Assistant? && last.phase == Some("final_answer") then 1
                                               else 0
  }

  function FormatOf(families: set<Family>): Format {
    if |families| > 1 then Mixed
    else if Legacy in families then LegacyOnly
    else if Completed in families then CompletedOnly else UnknownFormat
  }

  function ByLine(a: MessageData, b: MessageData): bool {
    a.line <= b.line
  }

  function Report(messages: seq<MessageData>, issues: seq<Issue>, families: set<Family>, excluded: nat,
                  projections: nat, duplicates: nat): Extraction
  {
    var ordered := Sort(ByLine, messages);
    var visible := VisibleOf(ordered);
    Extraction(
      ordered, visible, FinalAnswers(visible), FormatOf(families),
      if |issues| > 0 then (if |visible| > 0 then Partial else Unsupported)
      else if |visible| > 0 then Supported
      else NoVisibleMessages,
      if |issues| <= 20 then issues else issues[..20], |issues|,
      excluded, projections, duplicates)
  }

  ghost function Assemble(collected: Collected, printing: PrintState, matching: MatchState): Extraction {
    Report(matching.printed, collected.issues + printing.issues + matching.issues + PhaseIssues(matching.printed),
           collected.families,
           matching.excluded, matching.projections, collected.duplicates + printing.duplicates)
  }

  ghost function Extracted(valid: string -> bool, threadId: string, events: seq<LineEvent>): Extraction {
    var collected := Collect(valid, threadId, events);
    var printing := PrintAll(collected.primary);
    Assemble(collected, printing, MatchAll(printing.printed, collected.responses))
  }

  // ----- the message objects -----

  class Message {
    const citation: Option<string>
    const delivery: Option<string>
    var family: Family
    var line: nat
    var turn: Option<string>
    var id: Option<string>
    var timestamp: Option<string>
    var role: Role
    var phase: Option<string>
    var text: string
    var phaseSourceLine: Option<nat>

    function Data(): MessageData
      reads this
    {
      MessageData(family, line, turn, id, timestamp, role, phase, text, citation, delivery, phaseSourceLine)
    }

    constructor (d: MessageData)
      ensures Data() == d
    {
      citation, delivery := d.citation, d.delivery;
      family, line, turn, id, timestamp := d.family, d.line, d.turn, d.id, d.timestamp;
      role, phase, text, phaseSourceLine := d.role, d.phase, d.text, d.phaseSourceLine;
    }

    /** Copies every field a legacy message has onto this one. */
    method Assign(legacy: Message)
      modifies this
      ensures Data() == MergeLegacy(old(Data()), old(legacy.Data()))
    {
      family, line, turn, id, timestamp := legacy.family, legacy.line, legacy.turn, legacy.id, legacy.timestamp;
      role, phase, text := legacy.role, legacy.phase, legacy.text;
    }

    method SetPhase(r: Response)
      modifies this
      ensures Data() == AdoptPhase(old(Data()), r)
    {
      if family.Completed? && role.Assistant? && phase.None? && ResponseText(r) == Some(text)
         && r.phase.Some? && r.phase.value in VISIBLE_PHASES {
        phase := r.phase;
        phaseSourceLine := Some(r.line);
      }
    }
  }

  /** The objects are different ones and hold these values. */
  ghost predicate Hold(messages: seq<Message>, values: seq<MessageData>)
    reads messages
  {
    && |messages| == |values|
    && (forall i, j :: 0 <= i < j < |messages| ==> messages[i] != messages[j])
    && (forall i :: 0 <= i < |messages| ==> messages[i].Data() == values[i])
  }

  /** The remembered objects are collected ones and hold the remembered values. */
  ghost predicate Remembers(ids: map<Identity, Message>, primary: seq<Message>, values: map<Identity, MessageData>)
    reads primary
  {
    && ids.Keys == values.Keys
    && forall identity :: identity in ids ==> ids[identity] in primary && ids[identity].Data() == values[identity]
  }

  lemma RemembersOneMore(ids: map<Identity, Message>, primary: seq<Message>, values: map<Identity, MessageData>,
                         identity: Identity, m: Message)
    requires Remembers(ids, primary, values) && m in primary
    ensures Remembers(ids[identity := m], primary, values[identity := m.Data()])
  {
  }

  lemma RemembersExactly(ids: map<Identity, Message>, primary: seq<Message>, values: map<Identity, MessageData>)
    requires Remembers(ids, primary, values)
    ensures ids.Keys == values.Keys && forall identity :: identity in ids ==> ids[identity].Data() == values[identity]
  {
  }

  /** What the first pass has gathered so far. */
  class MessageReader {
    var primary: seq<Message>
    var responses: seq<Response>
    var issues: seq<Issue>
    var completedIds: map<Identity, Message>
    var duplicates: nat
    var activeTurn: Option<string>
    var families: set<Family>

    ghost predicate Gathered(c: Collected)
      reads this, primary
    {
      && Hold(primary, c.primary)
      && Remembers(completedIds, primary, c.completed)
      && SameRest(c)
    }

    ghost predicate SameRest(c: Collected)
      reads this
    {
      && responses == c.responses && issues == c.issues && duplicates == c.duplicates
      && activeTurn == c.activeTurn && families == c.families
    }

    constructor ()
      ensures Gathered(NOTHING_COLLECTED) && primary == []
    {
      primary, responses, issues, completedIds, duplicates, activeTurn, families := [], [], [], map[], 0, None, {};
    }

    method Report(line: nat, code: Code)
      modifies this`issues
      ensures issues == old(issues) + [Issue(line, code)]
    {
      issues := issues + [Issue(line, code)];
    }

    method AddMessage(data: MessageData, ghost values: seq<MessageData>, ghost remembered: map<Identity, MessageData>)
        returns (message: Message)
      requires Hold(primary, values) && Remembers(completedIds, primary, remembered)
      modifies this`primary
      ensures fresh(message) && message.Data() == data && primary == old(primary) + [message]
      ensures Hold(primary, values + [data]) && Remembers(completedIds, primary, remembered)
    {
      message := new Message(data);
      primary := primary + [message];
    }

    method ReadLegacyMessage(line: nat, reading: Reading, ghost c: Collected)
      requires Gathered(c)
      modifies this
      ensures Gathered(WithLegacy(c, line, reading))
      ensures old(primary) <= primary && fresh(primary[|old(primary)|..])
    {
      hide Hold, Remembers;
      match reading {
        case Ignored =>
        case Rejected(code) => Report(line, code);
        case Printed(data, remarks) =>
          issues := issues + IssuesAt(line, remarks);
          var _ := AddMessage(data, c.primary, c.completed);
      }
    }

    method PlaceCompleted(line: nat, data: MessageData, ghost c: Collected)
      requires Gathered(c)
      modifies this
      ensures Gathered(PlacedCompleted(c, line, data))
      ensures old(primary) <= primary && fresh(primary[|old(primary)|..])
    {
      hide Hold, IdentityOf, Remembers;
      RemembersExactly(completedIds, primary, c.completed);
      var identity := IdentityOf(data);
      if identity.Some? && identity.value in completedIds {
        var existing := completedIds[identity.value];
        if existing.text != data.text || existing.phase != data.phase {
          Report(line, ConflictingCompletedIdentity);
        } else {
          duplicates := duplicates + 1;
        }
        return;
      }
      var candidate := AddMessage(data, c.primary, c.completed);
      if identity.Some? {
        RemembersOneMore(completedIds, primary, c.completed, identity.value, candidate);
        completedIds := completedIds[identity.value := candidate];
      }
    }

    method ReadCompletedMessage(line: nat, reading: Reading, ghost c: Collected)
      requires Gathered(c)
      modifies this
      ensures Gathered(WithCompleted(c, line, reading))
      ensures old(primary) <= primary && fresh(primary[|old(primary)|..])
    {
      hide Hold, Remembers, PlacedCompleted;
      match reading {
        case Ignored =>
        case Rejected(code) => Report(line, code);
        case Printed(data, remarks) =>
          issues := issues + IssuesAt(line, remarks);
          PlaceCompleted(line, data, c.(issues := issues));
      }
    }

    method Read(valid: string -> bool, threadId: string, at: LineEvent, ghost c: Collected)
      requires Gathered(c)
      modifies this
      ensures Gathered(CollectStep(valid, threadId, c, at))
      ensures old(primary) <= primary && fresh(primary[|old(primary)|..])
    {
      hide Hold, Remembers, ReadLegacy, ReadCompleted, WithLegacy, WithCompleted, ResponseOf;
      match at.event {
        case TurnStart(turn) =>
          activeTurn := OrElse(turn, activeTurn);
        case LegacyMessage(_, _, _, _, _, _, _) =>
          families := families + {Legacy};
          ReadLegacyMessage(at.line, ReadLegacy(valid, at.event, at.line, activeTurn), c.(families := families));
        case MalformedCompletedItem =>
          Report(at.line, UnsupportedCompletedItem);
        case OtherCompletedItem(messageLike) =>
          if messageLike {
            Report(at.line, UnsupportedCompletedType);
          }
        case CompletedMessage(_, _, _, _, _, _, _, _, _) =>
          families := families + {Completed};
          ReadCompletedMessage(at.line, ReadCompleted(valid, threadId, at.event, at.line, activeTurn),
                               c.(families := families));
        case ResponseMessage(_, _, _, _, _, _, _) =>
          responses := responses + [ResponseOf(at.event, at.line, activeTurn)];
        case OtherEvent =>
      }
    }
  }

  method CollectMessages(valid: string -> bool, threadId: string, events: seq<LineEvent>)
      returns (reader: MessageReader)
    ensures fresh(reader) && fresh(reader.primary) && reader.Gathered(Collect(valid, threadId, events))
  {
    hide CollectStep, Hold, Remembers;
    reader := new MessageReader();
    for i := 0 to |events|
      invariant fresh(reader) && fresh(reader.primary)
      invariant reader.Gathered(Collect(valid, threadId, events[..i]))
    {
      assert events[..i + 1][..i] == events[..i];
      ghost var before := reader.primary;
      reader.Read(valid, threadId, events[i], Collect(valid, threadId, events[..i]));
      assert reader.primary == before + reader.primary[|before|..];
    }
    assert events[..|events|] == events;
  }

  method FindCounterpart(printed: seq<Message>, message: Message, ghost values: seq<MessageData>)
      returns (k: Option<nat>)
    requires Hold(printed, values)
    ensures k == CounterpartOf(values, message.Data())
  {
    for i := 0 to |printed|
      invariant forall j :: 0 <= j < i ==> !IsCounterpart(values[j], message.Data())
    {
      if IsCounterpart(printed[i].Data(), message.Data()) {
        return Some(i);
      }
    }
    k := None;
  }

  /** A shared identity merges the later projection into the earlier object; anything else is printed by itself. */
  method PlaceMessage(placed: seq<Message>, message: Message, ghost st: PrintState)
    returns (printed: seq<Message>, found: seq<Issue>, repeated: nat)
    requires Hold(placed, st.printed) && message !in placed
    modifies placed
    ensures var next := PrintStep(st, old(message.Data()));
            && Hold(printed, next.printed)
            && next.issues == st.issues + found && next.duplicates == st.duplicates + repeated
    ensures message.Data() == old(message.Data())
    ensures printed == placed || printed == placed + [message]
  {
    printed, found, repeated := placed, [], 0;
    var counterpart := FindCounterpart(printed, message, st.printed);
    if counterpart.Some? {
      var c := printed[counterpart.value];
      if c.text != message.text || c.phase != message.phase {
        found := [Issue(message.line, ConflictingPrintedProjections)];
      } else {
        repeated := 1;
        if message.family.Legacy? {
          c.Assign(message);
        }
      }
    } else {
      var alike := FindLookalike(printed, message, st.printed);
      if alike {
        found := [Issue(message.line, AmbiguousPrintedProjections)];
      }
      printed := printed + [message];
    }
  }

  method FindLookalike(printed: seq<Message>, message: Message, ghost values: seq<MessageData>) returns (found: bool)
    requires Hold(printed, values)
    ensures found <==> exists c <- values :: LooksAlike(c, message.Data())
  {
    for i := 0 to |printed|
      invariant forall c <- values[..i] :: !LooksAlike(c, message.Data())
    {
      assert values[..i + 1] == values[..i] + [values[i]];
      if LooksAlike(printed[i].Data(), message.Data()) {
        assert values[i] in values;
        return true;
      }
    }
    assert values[..|printed|] == values;
    found := false;
  }

  lemma LaterIsElsewhere(primary: seq<Message>, i: nat, k: nat)
    requires forall a, b :: 0 <= a < b < |primary| ==> primary[a] != primary[b]
    requires i <= k < |primary|
    ensures primary[k] !in primary[..i]
  {
  }

  /** Keeps distinct printed occurrences distinct. */
  method DeduplicatePrinted(primary: seq<Message>, ghost values: seq<MessageData>)
    returns (printed: seq<Message>, issues: seq<Issue>, duplicates: nat)
    requires Hold(primary, values)
    modifies primary
    ensures var st := PrintAll(values);
            Hold(printed, st.printed) && issues == st.issues && duplicates == st.duplicates
    ensures forall k :: 0 <= k < |printed| ==> printed[k] in primary
  {
    hide PrintStep;
    printed, issues, duplicates := [], [], 0;
    for i := 0 to |primary|
      invariant Hold(printed, PrintAll(values[..i]).printed)
      invariant issues == PrintAll(values[..i]).issues && duplicates == PrintAll(values[..i]).duplicates
      invariant forall k :: 0 <= k < |printed| ==> printed[k] in primary[..i]
      invariant forall k :: i <= k < |primary| ==> primary[k].Data() == values[k]
    {
      assert values[..i + 1][..i] == values[..i];
      assert primary[..i + 1] == primary[..i] + [primary[i]];
      forall k | i <= k < |primary|
        ensures primary[k] !in printed
      {
        LaterIsElsewhere(primary, i, k);
      }
      assert forall k :: 0 <= k < |printed| ==> printed[k] in primary[..i] && printed[k] in primary;
      var found, repeated;
      printed, found, repeated := PlaceMessage(printed, primary[i], PrintAll(values[..i]));
      issues := issues + found;
      duplicates := duplicates + repeated;
    }
    assert values[..|primary|] == values;
  }

  method FindMatch(printed: seq<Message>, matched: set<Message>, r: Response, ghost values: seq<MessageData>,
                   ghost used: set<nat>)
    returns (k: Option<nat>)
    requires Hold(printed, values) && MatchedAre(printed, matched, used)
    ensures k == MatchOf(values, used, r)
  {
    for i := 0 to |printed|
      invariant forall j :: 0 <= j < i ==> j in used || !Matches(r, values[j])
    {
      if printed[i] !in matched && Matches(r, printed[i].Data()) {
        return Some(i);
      }
    }
    k := None;
  }

  /** The matched objects are exactly the printed ones at the used positions. */
  ghost predicate MatchedAre(printed: seq<Message>, matched: set<Message>, used: set<nat>) {
    && (forall k <- used :: k < |printed|)
    && (forall k :: 0 <= k < |printed| ==> (printed[k] in matched <==> k in used))
  }

  method ExplainUnmatched(printed: seq<Message>, r: Response, ghost values: seq<MessageData>) returns (code: Code)
    requires Hold(printed, values)
    ensures code == UnmatchedCode(values, r)
  {
    var text := ResponseText(r);
    if text.None? {
      return UnsupportedResponseContent;
    }
    if r.role.User? && (r.kinds.None? || Some(|r.kinds.value|) != Length(r.content) || exists kind <- r.kinds.value ::
                          kind != "user.text") {
      return UnclassifiedUserVisibility;
    }
    if r.role.Assistant? && (r.phase.None? || r.phase.value !in VISIBLE_PHASES) {
      return UnclassifiedAssistantVisibility;
    }
    for i := 0 to |printed|
      invariant forall j :: 0 <= j < i ==>
                  !(SameTurn(r, values[j]) && values[j].role == r.role && text == Some(values[j].text))
    {
      if SameTurn(r, printed[i].Data()) && printed[i].role == r.role && text == Some(printed[i].text) {
        assert values[i] in values;
        return AmbiguousResponseProjection;
      }
    }
    code := UnmatchedResponse;
  }

  lemma NothingMatched(values: seq<MessageData>)
    ensures MatchAll(values, []) == MatchState(values, {}, [], [], 0, 0)
  {
  }

  lemma MatchAllSnoc(values: seq<MessageData>, responses: seq<Response>, i: nat)
    requires i < |responses|
    ensures MatchAll(values, responses[..i + 1]) == MatchStep(MatchAll(values, responses[..i]), responses[i])
  {
    assert responses[..i + 1][..i] == responses[..i];
  }

  method MatchResponses(printed: seq<Message>, responses: seq<Response>, ghost values: seq<MessageData>)
    returns (issues: seq<Issue>, excluded: nat, projections: nat)
    requires Hold(printed, values)
    modifies printed
    ensures var st := MatchAll(values, responses);
            Hold(printed, st.printed) && issues == st.issues && excluded == st.excluded && projections == st.projections
  {
    hide MatchAll, UnmatchedCode, IsContext, AdoptPhase, Matches;
    issues, excluded, projections := [], 0, 0;
    var matched: set<Message> := {};
    NothingMatched(values);
    for i := 0 to |responses|
      invariant Hold(printed, MatchAll(values, responses[..i]).printed)
      invariant MatchedAre(printed, matched, MatchAll(values, responses[..i]).used)
      invariant var st := MatchAll(values, responses[..i]);
                issues == st.issues && excluded == st.excluded && projections == st.projections
    {
      MatchAllSnoc(values, responses, i);
      ghost var st := MatchAll(values, responses[..i]);
      var r := responses[i];
      if IsContext(r) {
        excluded := excluded + 1;
        continue;
      }
      var counterpart := FindMatch(printed, matched, r, st.printed, st.used);
      if counterpart.Some? {
        var c := printed[counterpart.value];
        matched := matched + {c};
        projections := projections + 1;
        c.SetPhase(r);
        continue;
      }
      if r.role.Assistant? && r.phase == Some("analysis") {
        continue;
      }
      var code := ExplainUnmatched(printed, r, st.printed);
      issues := issues + [Issue(r.line, code)];
    }
    assert responses[..|responses|] == responses;
  }

  method ReadOff(printed: seq<Message>, ghost values: seq<MessageData>)
      returns (data: seq<MessageData>, issues: seq<Issue>)
    requires Hold(printed, values)
    ensures data == values && issues == PhaseIssues(values)
  {
    data, issues := [], [];
    for i := 0 to |printed|
      invariant data == values[..i]
      invariant issues == PhaseIssues(values[..i])
    {
      assert values[..i + 1][..i] == values[..i];
      if PhaseUnknown(printed[i].Data()) {
        issues := issues + [Issue(printed[i].line, UnknownCompletedPhase)];
      }
      data := data + [printed[i].Data()];
    }
    assert values[..|printed|] == values;
  }

  method ExtractVisibleMessages(valid: string -> bool, threadId: string, events: seq<LineEvent>) returns (x: Extraction)
    ensures x == Extracted(valid, threadId, events)
  {
    hide Collect, PrintAll, MatchAll, Report, PhaseIssues;
    ghost var collected := Collect(valid, threadId, events);
    var reader := CollectMessages(valid, threadId, events);
    var primary, responses, readIssues := reader.primary, reader.responses, reader.issues;
    var readDuplicates, families := reader.duplicates, reader.families;
    var printed, printIssues, printDuplicates := DeduplicatePrinted(primary, collected.primary);
    assert forall k :: 0 <= k < |printed| ==> printed[k] in primary && fresh(printed[k]);
    ghost var printing := PrintAll(collected.primary);
    var matchIssues, excluded, projections := MatchResponses(printed, responses, printing.printed);
    ghost var matching := MatchAll(printing.printed, responses);
    var values, phaseIssues := ReadOff(printed, matching.printed);
    x := Report(values, readIssues + printIssues + matchIssues + phaseIssues, families,
                excluded, projections, readDuplicates + printDuplicates);
  }

  // ----- visible text comes from printed events, in line order -----

  ghost predicate EventsInOrder(events: seq<LineEvent>) {
    forall i, j :: 0 <= i < j < |events| ==> events[i].line < events[j].line
  }

  ghost predicate InLineOrder(messages: seq<MessageData>) {
    forall i, j :: 0 <= i < j < |messages| ==> messages[i].line < messages[j].line
  }

  /** The event printed this message: same line, role, time and text, and not a hidden phase or another thread's. */
  ghost predicate PrintedBy(threadId: string, at: LineEvent, m: MessageData) {
    && at.line == m.line
    && (if m.family.Legacy? then
          && at.event.LegacyMessage? && at.event.text == Some(m.text)
          && at.event.role == m.role && at.event.timestamp == m.timestamp && at.event.id == m.id
          && (m.role.Assistant? ==> at.event.phase.None? || at.event.phase.value in VISIBLE_PHASES)
        else
          && at.event.CompletedMessage? && CompletedText(at.event) == Some(m.text)
          && at.event.role == m.role && at.event.timestamp == m.timestamp && at.event.id == m.id
          && (at.event.thread.None? || at.event.thread.value == threadId)
          && (m.role.Assistant? ==> at.event.phase.None? || at.event.phase.value in VISIBLE_PHASES))
  }

  ghost predicate WasPrinted(threadId: string, events: seq<LineEvent>, m: MessageData) {
    exists at <- events :: PrintedBy(threadId, at, m)
  }

  ghost predicate AllPrinted(threadId: string, events: seq<LineEvent>, messages: seq<MessageData>) {
    forall i :: 0 <= i < |messages| ==> WasPrinted(threadId, events, messages[i])
  }

  lemma AllPrintedGrows(threadId: string, events: seq<LineEvent>, at: LineEvent, messages: seq<MessageData>,
                        next: seq<MessageData>)
    requires AllPrinted(threadId, events, messages)
    requires next == messages || (|next| == |messages| + 1 && next[..|messages|] == messages
                                  && PrintedBy(threadId, at, next[|messages|]))
    ensures AllPrinted(threadId, events + [at], next)
  {
    forall i | 0 <= i < |next|
      ensures WasPrinted(threadId, events + [at], next[i])
    {
      if i < |messages| {
        assert next[i] == messages[i];
        var found :| found in events && PrintedBy(threadId, found, messages[i]);
        assert found in events + [at];
      } else {
        assert at in events + [at];
      }
    }
  }

  /** One event prints at most one message, the one the event describes. */
  lemma CollectStepPrints(valid: string -> bool, threadId: string, st: Collected, at: LineEvent)
    ensures var next := CollectStep(valid, threadId, st, at).primary;
            next == st.primary || (next == st.primary + [next[|st.primary|]]
                                   && PrintedBy(threadId, at, next[|st.primary|]))
  {
  }

  lemma {:induction false} CollectedWerePrinted(valid: string -> bool, threadId: string, events: seq<LineEvent>)
    requires EventsInOrder(events)
    ensures var primary := Collect(valid, threadId, events).primary;
            && AllPrinted(threadId, events, primary)
            && InLineOrder(primary)
            && (forall i :: 0 <= i < |primary| ==> events != [] && primary[i].line <= events[|events| - 1].line)
    decreases |events|
  {
    if events != [] {
      var n := |events| - 1;
      var st := Collect(valid, threadId, events[..n]);
      CollectedWerePrinted(valid, threadId, events[..n]);
      CollectStepPrints(valid, threadId, st, events[n]);
      hide CollectStep;
      assert events == events[..n] + [events[n]];
      AllPrintedGrows(threadId, events[..n], events[n], st.primary, Collect(valid, threadId, events).primary);
    }
  }

  /** Equal but for the phase a response may still add and the fields a legacy projection never had. */
  ghost predicate SameProjection(a: MessageData, b: MessageData) {
    && a.family == b.family && a.line == b.line && a.turn == b.turn && a.id == b.id
    && a.timestamp == b.timestamp && a.role == b.role && a.text == b.text
  }

  ghost predicate IsAmong(primary: seq<MessageData>, m: MessageData) {
    exists p <- primary :: SameProjection(p, m)
  }

  ghost predicate LinesDiffer(messages: seq<MessageData>) {
    forall i, j :: 0 <= i < j < |messages| ==> messages[i].line != messages[j].line
  }

  /** Merging in place still leaves only printed projections, each line at most once. */
  ghost predicate PrintedSound(primary: seq<MessageData>, printed: seq<MessageData>) {
    && (forall k :: 0 <= k < |printed| ==> IsAmong(primary, printed[k]))
    && LinesDiffer(printed)
  }

  lemma PrintStepIsSound(primary: seq<MessageData>, st: PrintState, m: MessageData)
    requires PrintedSound(primary, st.printed)
    requires forall p <- primary :: p.line < m.line
    ensures PrintedSound(primary + [m], PrintStep(st, m).printed)
  {
    var next := PrintStep(st, m).printed;
    forall k | 0 <= k < |st.printed|
      ensures st.printed[k].line < m.line && IsAmong(primary + [m], st.printed[k])
    {
      assert IsAmong(primary, st.printed[k]);
      var p :| p in primary && SameProjection(p, st.printed[k]);
      assert p in primary + [m];
    }
    assert m in primary + [m];
    forall k | 0 <= k < |next|
      ensures IsAmong(primary + [m], next[k])
    {
      assert SameProjection(m, next[k]) || (k < |st.printed| && next[k] == st.printed[k]);
    }
  }

  lemma {:induction false} PrintingIsSound(primary: seq<MessageData>)
    requires InLineOrder(primary)
    ensures PrintedSound(primary, PrintAll(primary).printed)
    decreases |primary|
  {
    if primary != [] {
      var n := |primary| - 1;
      PrintingIsSound(primary[..n]);
      assert primary == primary[..n] + [primary[n]];
      hide PrintStep, PrintedSound;
      PrintStepIsSound(primary[..n], PrintAll(primary[..n]), primary[n]);
    }
  }

  /** A printed message is added, merged or reported: none is lost. */
  lemma {:induction false} PrintingConserves(primary: seq<MessageData>)
    ensures var st := PrintAll(primary);
            && |primary| == |st.printed| + st.duplicates + |Conflicts(st.issues)|
            && (st.issues == [] ==> |primary| == |st.printed| + st.duplicates)
    decreases |primary|
  {
    if primary != [] {
      var n := |primary| - 1;
      PrintingConserves(primary[..n]);
      var st := PrintAll(primary[..n]);
      ConflictsSnoc(st.issues, Issue(primary[n].line, ConflictingPrintedProjections));
      ConflictsSnoc(st.issues, Issue(primary[n].line, AmbiguousPrintedProjections));
    }
  }

  ghost function Conflicts(issues: seq<Issue>): seq<Issue> {
    if issues == [] then []
    else
      var earlier := Conflicts(issues[..|issues| - 1]);
      if issues[|issues| - 1].code.ConflictingPrintedProjections? then earlier + [issues[|issues| - 1]] else earlier
  }

  lemma ConflictsSnoc(issues: seq<Issue>, issue: Issue)
    ensures Conflicts(issues + [issue]) == if issue.code.ConflictingPrintedProjections? then Conflicts(issues) + [issue]
                                           else Conflicts(issues)
  {
    assert (issues + [issue])[..|issues|] == issues;
  }

  // ----- what matching does to the printed messages and to the responses -----

  /** Matching only ever adds a visible phase to a completed assistant message that had none. */
  ghost predicate OnlyPhasesAdded(before: seq<MessageData>, after: seq<MessageData>) {
    && |before| == |after|
    && forall k :: 0 <= k < |before| ==> SameProjection(before[k], after[k]) && PhaseKept(before[k], after[k])
  }

  ghost predicate PhaseKept(a: MessageData, b: MessageData) {
    a.phase == b.phase || (PhaseUnknown(a) && b.phase.Some? && b.phase.value in VISIBLE_PHASES)
  }

  ghost predicate FateIsJustified(printed: seq<MessageData>, r: Response, fate: Fate) {
    match fate
    case ExcludedContext => IsContext(r)
    case Projection(k) => !IsContext(r) && k < |printed| && Matches(r, printed[k])
    case AnalysisSkipped => !IsContext(r) && r.role.Assistant? && r.phase == Some("analysis")
    case Unaccounted(_) => !IsContext(r)
  }

  ghost predicate FatesSound(printed: seq<MessageData>, responses: seq<Response>, st: MatchState) {
    && |st.fates| == |responses|
    && (forall i :: 0 <= i < |responses| ==> FateIsJustified(printed, responses[i], st.fates[i]))
    && (forall i :: 0 <= i < |responses| && st.fates[i].Projection? ==> st.fates[i].of in st.used)
    && (forall i, j :: 0 <= i < j < |responses| && st.fates[i].Projection? && st.fates[j].Projection? ==>
          st.fates[i].of != st.fates[j].of)
    && st.projections == |st.used|
    && (forall i :: 0 <= i < |responses| && st.fates[i].Unaccounted? ==> st.issues != [])
  }

  lemma MatchStepKeepsMessages(printed: seq<MessageData>, st: MatchState, r: Response)
    requires OnlyPhasesAdded(printed, st.printed)
    ensures OnlyPhasesAdded(printed, MatchStep(st, r).printed)
  {
  }

  lemma MatchStepIsSound(printed: seq<MessageData>, responses: seq<Response>, st: MatchState, r: Response)
    requires OnlyPhasesAdded(printed, st.printed) && FatesSound(printed, responses, st)
    ensures FatesSound(printed, responses + [r], MatchStep(st, r))
  {
    hide OnlyPhasesAdded, MatchOf, AdoptPhase, UnmatchedCode, IsContext, Matches;
    if !IsContext(r) && MatchOf(st.printed, st.used, r).Some? {
      MatchWasPrinted(printed, st, r);
    }
    assert FateIsJustified(printed, r, MatchStep(st, r).fates[|responses|]);
  }

  lemma MatchWasPrinted(printed: seq<MessageData>, st: MatchState, r: Response)
    requires OnlyPhasesAdded(printed, st.printed) && MatchOf(st.printed, st.used, r).Some?
    ensures var k := MatchOf(st.printed, st.used, r).value; k < |printed| && k !in st.used && Matches(r, printed[k])
  {
    var k := MatchOf(st.printed, st.used, r).value;
    assert SameProjection(printed[k], st.printed[k]);
  }

  /** Every response gets one justified fate, and no printed message is matched twice. */
  lemma {:induction false} MatchingIsSound(printed: seq<MessageData>, responses: seq<Response>)
    ensures var st := MatchAll(printed, responses);
            OnlyPhasesAdded(printed, st.printed) && FatesSound(printed, responses, st)
    decreases |responses|
  {
    if responses != [] {
      var n := |responses| - 1;
      var st := MatchAll(printed, responses[..n]);
      MatchingIsSound(printed, responses[..n]);
      assert responses == responses[..n] + [responses[n]];
      hide MatchStep, OnlyPhasesAdded, FatesSound;
      MatchStepKeepsMessages(printed, st, responses[n]);
      MatchStepIsSound(printed, responses[..n], st, responses[n]);
    }
  }

  // ----- the main results -----

  lemma ByLineIsATotalPreorder()
    ensures TotalPreorder(ByLine)
  {
  }

  lemma SortedLinesIncrease(messages: seq<MessageData>)
    requires LinesDiffer(messages)
    ensures InLineOrder(Sort(ByLine, messages))
    ensures forall m :: m in Sort(ByLine, messages) <==> m in messages
  {
    ByLineIsATotalPreorder();
    SortSorts(ByLine, messages);
    var sorted := Sort(ByLine, messages);
    forall i, j | 0 <= i < j < |sorted|
      ensures sorted[i].line < sorted[j].line
    {
      assert ByLine(sorted[i], sorted[j]);
      SortedHoldsOnce(messages, sorted, i, j);
    }
  }

  lemma SortedHoldsOnce(messages: seq<MessageData>, sorted: seq<MessageData>, i: nat, j: nat)
    requires multiset(messages) == multiset(sorted) && LinesDiffer(messages) && i < j < |sorted|
    ensures sorted[i].line != sorted[j].line
  {
    DistinctFromMultiset(messages, sorted);
    assert sorted[i] in multiset(messages) && sorted[j] in multiset(messages);
    var a :| 0 <= a < |messages| && messages[a] == sorted[i];
    var b :| 0 <= b < |messages| && messages[b] == sorted[j];
    assert a != b;
  }

  /**
   * For every rollout: each visible message carries the text, role and time of one printed event, and
   * the messages come in strictly increasing line order, however the message objects were merged.
   */
  lemma VisibleTextWasPrinted(valid: string -> bool, threadId: string, events: seq<LineEvent>)
    requires EventsInOrder(events)
    ensures var x := Extracted(valid, threadId, events);
            && |x.visible| == |x.ordered|
            && InLineOrder(x.ordered)
            && (forall i :: 0 <= i < |x.visible| ==>
                  && x.visible[i].sequence == i + 1
                  && x.visible[i].text == x.ordered[i].text
                  && x.visible[i].role == x.ordered[i].role
                  && x.visible[i].timestamp == x.ordered[i].timestamp
                  && WasPrinted(threadId, events, x.ordered[i]))
  {
    var x := Extracted(valid, threadId, events);
    var collected := Collect(valid, threadId, events);
    var printed := PrintAll(collected.primary).printed;
    var final := MatchAll(printed, collected.responses).printed;
    CollectedWerePrinted(valid, threadId, events);
    PrintingIsSound(collected.primary);
    MatchingIsSound(printed, collected.responses);
    forall i, j | 0 <= i < j < |final|
      ensures final[i].line != final[j].line
    {
      assert SameProjection(printed[i], final[i]) && SameProjection(printed[j], final[j]);
    }
    SortedLinesIncrease(final);
    forall i | 0 <= i < |x.ordered|
      ensures WasPrinted(threadId, events, x.ordered[i])
    {
      assert x.ordered[i] in final;
      var k :| 0 <= k < |final| && final[k] == x.ordered[i];
      FinalMessageWasPrinted(threadId, events, collected.primary, printed, final, k);
    }
  }

  lemma FinalMessageWasPrinted(threadId: string, events: seq<LineEvent>, primary: seq<MessageData>,
                               printed: seq<MessageData>, final: seq<MessageData>, k: nat)
    requires AllPrinted(threadId, events, primary) && PrintedSound(primary, printed) && OnlyPhasesAdded(printed, final)
               && k < |final|
    ensures WasPrinted(threadId, events, final[k])
  {
    assert SameProjection(printed[k], final[k]) && IsAmong(primary, printed[k]);
    var p :| p in primary && SameProjection(p, printed[k]);
    var i :| 0 <= i < |primary| && primary[i] == p;
    assert WasPrinted(threadId, events, primary[i]);
    var at :| at in events && PrintedBy(threadId, at, primary[i]);
    assert PrintedBy(threadId, at, final[k]);
  }

  /**
   With nothing reported, every response is context, skipped analysis, or the projection of its own
   printed message.
   */
  lemma CleanExtractionAccountsForResponses(valid: string -> bool, threadId: string, events: seq<LineEvent>)
    requires Extracted(valid, threadId, events).diagnosticCount == 0
    ensures var responses := Collect(valid, threadId, events).responses;
            var printed := PrintAll(Collect(valid, threadId, events).primary).printed;
            var st := MatchAll(printed, responses);
            && FatesSound(printed, responses, st)
            && (forall i :: 0 <= i < |responses| ==> !st.fates[i].Unaccounted?)
            && Extracted(valid, threadId, events).responseProjections == |st.used|
  {
    var collected := Collect(valid, threadId, events);
    MatchingIsSound(PrintAll(collected.primary).printed, collected.responses);
  }

  lemma {:induction false} NoPhaseIssues(printed: seq<MessageData>)
    requires PhaseIssues(printed) == []
    ensures forall m <- printed :: !PhaseUnknown(m)
  {
    if printed != [] {
      NoPhaseIssues(printed[..|printed| - 1]);
    }
  }

  /** With nothing reported, no printed event was dropped and every completed assistant message has a phase. */
  lemma CleanExtractionIsComplete(valid: string -> bool, threadId: string, events: seq<LineEvent>)
    requires Extracted(valid, threadId, events).diagnosticCount == 0
    ensures var x := Extracted(valid, threadId, events);
            var collected := Collect(valid, threadId, events);
            && |collected.primary| + collected.duplicates == |x.visible| + x.duplicateProjections
            && forall m <- x.ordered :: !PhaseUnknown(m)
  {
    var collected := Collect(valid, threadId, events);
    var printing := PrintAll(collected.primary);
    var final := MatchAll(printing.printed, collected.responses).printed;
    PrintingConserves(collected.primary);
    MatchingIsSound(printing.printed, collected.responses);
    NoPhaseIssues(final);
    ByLineIsATotalPreorder();
    SortSorts(ByLine, final);
  }

  /** What is visible makes the coverage, together with whether anything was reported. */
  lemma CoverageFollowsMessages(valid: string -> bool, threadId: string, events: seq<LineEvent>)
    ensures var x := Extracted(valid, threadId, events);
            && (x.coverage.Supported? <==> x.diagnosticCount == 0 && x.visible != [])
            && (x.coverage.NoVisibleMessages? <==> x.diagnosticCount == 0 && x.visible == [])
            && (x.coverage.Partial? <==> x.diagnosticCount > 0 && x.visible != [])
            && (x.coverage.Unsupported? <==> x.diagnosticCount > 0 && x.visible == [])
            && x.finalAnswers == FinalAnswers(x.visible)
  {
    hide Collect, PrintAll, MatchAll, PhaseIssues;
  }
}
