/**
 * Completion of a draft case: numbered, deduplicated support items gathered from the case and its
 * evidence, the boundary recovery run when the first build finds no bounded boundary, and the
 * suggestion built on top of them.
 */
module CaseCompletion {
  import opened Common

  datatype Lane = FactLane | BoundaryLane

  /** A hash of case, lane and index: a free constructor, so equal only for equal inputs. */
  datatype SupportId = SupportId(caseId: string, lane: Lane, index: nat)

  datatype SourceList = FailureLines | Constraints | StepsCompleted | Findings | Blockers

  datatype SourceField = ProblemStatement | Objective | Entry(list: SourceList, position: nat)

  datatype SupportItem = SupportItem(id: SupportId, text: string, evidenceRef: string, field: SourceField)

  /** What a builder offers to a list; a missing text or reference is skipped. */
  datatype Candidate = Candidate(lane: Lane, text: Option<string>, evidenceRef: Option<string>, field: SourceField)

  datatype Payload =
    | Unreadable
    | NotAnObject
    | Payload(objective: Option<string>, steps: seq<string>, findings: seq<string>, blockers: seq<string>)

  datatype Evidence = Evidence(id: string, payload: Payload)

  datatype CaseRecord = CaseRecord(
    caseId: string,
    version: int,
    isDraft: bool,
    evidenceRefs: seq<string>,
    problemStatement: Option<string>,
    failureMode: Option<string>,
    constraints: seq<Option<string>>,
    actionLine: Option<string>,
    outcomeLine: Option<string>,
    whenToApply: seq<SuggestedText>,
    whenNotToApply: seq<SuggestedText>,
    openQuestions: seq<string>)

  datatype SuggestedText =
    | SameIntervention(line: string)
    | SameBoundaries(boundaries: seq<string>)
    | BlockerRemoved(boundary: string)
    | DifferentOutcome(line: string)

  datatype SuggestedLine = SuggestedLine(text: SuggestedText, supportRefs: seq<SupportId>)

  datatype Suggestion = Suggestion(whenToApply: seq<SuggestedLine>, whenNotToApply: seq<SuggestedLine>)

  datatype CompletionPacket = CompletionPacket(facts: seq<SupportItem>, boundaries: seq<SupportItem>,
                                               suggestion: Suggestion)

  datatype CompletionError =
    | NotADraft
    | NoEvidence
    | PayloadUnreadable
    | NoFacts
    | NoBoundaries
    | LineWithoutSupport
    | UnknownSupport
    | NoBoundaryCited
    | WrongBaseVersion

  datatype Completion = Completion(recovery: Option<seq<SupportItem>>, packet: CompletionPacket, nextRecord: CaseRecord)

  /** String operations and phrase lists. A phrase predicate sees trimmed lower-case text. */
  datatype TextRules = TextRules(
    trim: string -> string,
    lower: string -> string,
    lines: string -> seq<string>,
    processPhrase: string -> bool,
    resolvedPhrase: string -> bool,
    recoverablePhrase: string -> bool)
  {
    ghost predicate Lawful() {
      forall s :: trim(trim(s)) == trim(s)
    }

    function Key(text: string): string {
      lower(trim(text))
    }

    predicate ProcessOnly(text: string) {
      processPhrase(Key(text))
    }

    predicate Resolved(text: string) {
      resolvedPhrase(Key(text))
    }

    predicate Recoverable(text: string) {
      var normalized := Key(text);
      && normalized != ""
      && !Resolved(normalized)
      && !ProcessOnly(normalized)
      && recoverablePhrase(normalized)
    }

    function StructuredLines(text: Option<string>): seq<string> {
      if text.None? || trim(text.value) == "" then [] else lines(text.value)
    }
  }

  // ----- numbered, deduplicated lists -----

  datatype Lists = Lists(facts: seq<SupportItem>, boundaries: seq<SupportItem>, seen: set<(Lane, string)>) {
    function Lane(lane: Lane): seq<SupportItem> {
      if lane.FactLane? then facts else boundaries
    }

    function Append(lane: Lane, key: string, item: SupportItem): Lists {
      if lane.FactLane? then Lists(facts + [item], boundaries, seen + {(lane, key)})
      else Lists(facts, boundaries + [item], seen + {(lane, key)})
    }
  }

  ghost predicate Usable(rules: TextRules, candidate: Candidate) {
    && candidate.text.Some?
    && rules.trim(candidate.text.value) != ""
    && candidate.evidenceRef.Some?
    && candidate.evidenceRef.value != ""
  }

  ghost function ItemOf(rules: TextRules, caseId: string, candidate: Candidate, index: nat): SupportItem
    requires Usable(rules, candidate)
  {
    SupportItem(SupportId(caseId, candidate.lane, index), rules.trim(candidate.text.value),
                candidate.evidenceRef.value, candidate.field)
  }

  ghost function Pushed(rules: TextRules, caseId: string, lists: Lists, candidate: Candidate): Lists {
    if !Usable(rules, candidate) || (candidate.lane, rules.Key(candidate.text.value)) in lists.seen then lists
    else lists.Append(candidate.lane, rules.Key(candidate.text.value),
                      ItemOf(rules, caseId, candidate, |lists.Lane(candidate.lane)|))
  }

  ghost function PushedAll(rules: TextRules, caseId: string, lists: Lists, candidates: seq<Candidate>): Lists
    decreases |candidates|
  {
    if candidates == [] then lists
    else Pushed(rules, caseId, PushedAll(rules, caseId, lists, candidates[..|candidates| - 1]),
                candidates[|candidates| - 1])
  }

  ghost function PushedExisting(rules: TextRules, lists: Lists, item: SupportItem): Lists {
    if rules.trim(item.text) == "" || (BoundaryLane, rules.Key(item.text)) in lists.seen then lists
    else lists.Append(BoundaryLane, rules.Key(item.text), item)
  }

  ghost function PushedAllExisting(rules: TextRules, lists: Lists, items: seq<SupportItem>): Lists
    decreases |items|
  {
    if items == [] then lists
    else PushedExisting(rules, PushedAllExisting(rules, lists, items[..|items| - 1]), items[|items| - 1])
  }

  const EMPTY := Lists([], [], {})

  // ----- what the builders offer, in the order they offer it -----

  /** Trims the entries of a payload array and drops the blank ones. */
  function NormalizedStrings(rules: TextRules, entries: seq<string>): seq<string> {
    if entries == [] then []
    else
      var earlier := NormalizedStrings(rules, entries[..|entries| - 1]);
      var last := rules.trim(entries[|entries| - 1]);
      if last == "" then earlier else earlier + [last]
  }

  function LineCandidates(lane: Lane, texts: seq<string>, evidenceRef: Option<string>, list: SourceList): seq<Candidate>
  {
    seq(|texts|, i requires 0 <= i < |texts| => Candidate(lane, Some(texts[i]), evidenceRef, Entry(list, i)))
  }

  function ConstraintCandidates(constraints: seq<Option<string>>, evidenceRef: Option<string>): seq<Candidate> {
    seq(|constraints|, i requires 0 <= i < |constraints| =>
          Candidate(BoundaryLane, constraints[i], evidenceRef, Entry(Constraints, i)))
  }

  function CaseRef(record: CaseRecord): Option<string> {
    if record.evidenceRefs == [] then None else Some(record.evidenceRefs[0])
  }

  function CaseCandidates(rules: TextRules, record: CaseRecord): seq<Candidate> {
    [Candidate(FactLane, record.problemStatement, CaseRef(record), ProblemStatement)]
    + LineCandidates(BoundaryLane, rules.StructuredLines(record.failureMode), CaseRef(record), FailureLines)
    + ConstraintCandidates(record.constraints, CaseRef(record))
  }

  function EvidenceCandidates(rules: TextRules, evidence: Evidence): seq<Candidate> {
    if !evidence.payload.Payload? then [] else
      [Candidate(FactLane, evidence.payload.objective, Some(evidence.id), Objective)]
      + LineCandidates(FactLane, NormalizedStrings(rules, evidence.payload.steps), Some(evidence.id), StepsCompleted)
      + LineCandidates(FactLane, NormalizedStrings(rules, evidence.payload.findings), Some(evidence.id), Findings)
      + LineCandidates(BoundaryLane, NormalizedStrings(rules, evidence.payload.blockers), Some(evidence.id), Blockers)
  }

  function AllEvidenceCandidates(rules: TextRules, evidence: seq<Evidence>): seq<Candidate> {
    if evidence == [] then []
    else AllEvidenceCandidates(rules, evidence[..|evidence| - 1]) + EvidenceCandidates(rules, evidence[|evidence| - 1])
  }

  ghost function CompletionCandidates(rules: TextRules, record: CaseRecord, evidence: seq<Evidence>): seq<Candidate> {
    CaseCandidates(rules, record) + AllEvidenceCandidates(rules, evidence)
  }

  function RecoverableFindings(rules: TextRules, findings: seq<string>, evidenceRef: string): seq<Candidate> {
    if findings == [] then []
    else
      var n := |findings| - 1;
      var earlier := RecoverableFindings(rules, findings[..n], evidenceRef);
      if rules.Recoverable(findings[n])
      then earlier + [Candidate(BoundaryLane, Some(findings[n]), Some(evidenceRef), Entry(Findings, n))]
      else earlier
  }

  function RecoveryCandidatesOf(rules: TextRules, evidence: Evidence): seq<Candidate> {
    if !evidence.payload.Payload? then [] else
      LineCandidates(BoundaryLane, NormalizedStrings(rules, evidence.payload.blockers), Some(evidence.id), Blockers)
      + RecoverableFindings(rules, NormalizedStrings(rules, evidence.payload.findings), evidence.id)
  }

  ghost function RecoveryCandidates(rules: TextRules, evidence: seq<Evidence>): seq<Candidate> {
    if evidence == [] then []
    else RecoveryCandidates(rules, evidence[..|evidence| - 1]) + RecoveryCandidatesOf(rules, evidence[|evidence| - 1])
  }

  ghost predicate Readable(evidence: seq<Evidence>) {
    forall item <- evidence :: !item.payload.Unreadable?
  }

  // ----- filters -----

  function Bounded(rules: TextRules, items: seq<SupportItem>): (r: seq<SupportItem>)
    ensures forall item :: item in r <==> item in items && !rules.ProcessOnly(item.text)
  {
    if items == [] then []
    else
      var earlier := Bounded(rules, items[..|items| - 1]);
      var last := items[|items| - 1];
      if rules.ProcessOnly(last.text) then earlier else earlier + [last]
  }

  function Substantive(rules: TextRules, items: seq<SupportItem>): (r: seq<SupportItem>)
    ensures forall item :: item in r <==> item in items && !rules.Resolved(item.text) && !rules.ProcessOnly(item.text)
  {
    if items == [] then []
    else
      var earlier := Substantive(rules, items[..|items| - 1]);
      var last := items[|items| - 1];
      if rules.Resolved(last.text) || rules.ProcessOnly(last.text) then earlier else earlier + [last]
  }

  // ----- the packet -----

  function PrimaryBoundaries(rules: TextRules, boundaries: seq<SupportItem>): seq<SupportItem> {
    var substantive := Substantive(rules, boundaries);
    var preferred := if |substantive| > 0 then substantive else boundaries;
    if |preferred| <= 2 then preferred else preferred[..2]
  }

  function IdsOf(items: seq<SupportItem>): (r: seq<SupportId>)
    ensures |r| == |items| && (forall i :: 0 <= i < |items| ==> r[i] == items[i].id)
  {
    seq(|items|, i requires 0 <= i < |items| => items[i].id)
  }

  function TextsOf(items: seq<SupportItem>): seq<string> {
    seq(|items|, i requires 0 <= i < |items| => items[i].text)
  }

  function OrElse(line: Option<string>, fallback: string): string {
    if line.Some? && line.value != "" then line.value else fallback
  }

  function SuggestedApplicability(rules: TextRules, record: CaseRecord, facts: seq<SupportItem>,
                                  boundaries: seq<SupportItem>): Suggestion
    requires facts != [] && boundaries != []
  {
    var primary := PrimaryBoundaries(rules, boundaries);
    Suggestion(
      [SuggestedLine(SameIntervention(OrElse(record.actionLine, facts[0].text)), [facts[0].id]),
       SuggestedLine(SameBoundaries(TextsOf(primary)), IdsOf(primary))],
      [SuggestedLine(BlockerRemoved(primary[0].text), IdsOf(primary)),
       SuggestedLine(DifferentOutcome(OrElse(record.outcomeLine, facts[0].text)), IdsOf(primary))])
  }

  ghost function Finished(rules: TextRules, record: CaseRecord, lists: Lists)
      : Result<CompletionPacket, CompletionError>
  {
    var bounded := Bounded(rules, lists.boundaries);
    if lists.facts == [] then Failure(NoFacts)
    else if bounded == [] then Failure(NoBoundaries)
    else Success(CompletionPacket(lists.facts, bounded, SuggestedApplicability(rules, record, lists.facts, bounded)))
  }

  /** The lists a build ends with: the case and its evidence first, then any recovered boundaries. */
  ghost function Gathered(rules: TextRules, record: CaseRecord, evidence: seq<Evidence>, recovered: seq<SupportItem>)
      : Lists
  {
    PushedAllExisting(rules, PushedAll(rules, record.caseId, EMPTY, CompletionCandidates(rules, record, evidence)),
                      recovered)
  }

  ghost function CompletionOf(rules: TextRules, record: CaseRecord, evidence: seq<Evidence>,
                              recovered: seq<SupportItem>)
      : Result<CompletionPacket, CompletionError>
  {
    if !Readable(evidence) then Failure(PayloadUnreadable)
    else Finished(rules, record, Gathered(rules, record, evidence, recovered))
  }

  ghost function RecoveredLists(rules: TextRules, caseId: string, evidence: seq<Evidence>): Lists {
    PushedAll(rules, caseId, EMPTY, RecoveryCandidates(rules, evidence))
  }

  ghost function RecoveryOf(rules: TextRules, caseId: string, evidence: seq<Evidence>)
      : Result<seq<SupportItem>, CompletionError>
  {
    if !Readable(evidence) then Failure(PayloadUnreadable)
    else
      var bounded := Substantive(rules, RecoveredLists(rules, caseId, evidence).boundaries);
      if bounded == [] then Failure(NoBoundaries) else Success(bounded)
  }

  // ----- the builders -----

  /** The lists a builder fills in place. */
  class SupportLists {
    var facts: seq<SupportItem>
    var boundaries: seq<SupportItem>
    var seenTexts: set<(Lane, string)>
    const rules: TextRules
    const caseId: string

    function State(): Lists
      reads this
    {
      Lists(facts, boundaries, seenTexts)
    }

    constructor (rules: TextRules, caseId: string)
      ensures State() == EMPTY && this.rules == rules && this.caseId == caseId
    {
      facts, boundaries, seenTexts := [], [], {};
      this.rules, this.caseId := rules, caseId;
    }

    method PushSupportItem(lane: Lane, text: Option<string>, evidenceRef: Option<string>, field: SourceField)
      modifies this
      ensures State() == Pushed(rules, caseId, old(State()), Candidate(lane, text, evidenceRef, field))
    {
      if text.None? || rules.trim(text.value) == "" || evidenceRef.None? || evidenceRef.value == "" {
        return;
      }
      var normalizedText := rules.trim(text.value);
      var dedupeKey := (lane, rules.lower(normalizedText));
      if dedupeKey in seenTexts {
        return;
      }
      seenTexts := seenTexts + {dedupeKey};
      if lane.FactLane? {
        facts := facts + [SupportItem(SupportId(caseId, lane, |facts|), normalizedText, evidenceRef.value, field)];
      } else {
        boundaries := boundaries + [SupportItem(SupportId(caseId, lane, |boundaries|), normalizedText,
                                                evidenceRef.value, field)];
      }
    }

    method PushExistingSupportItem(item: SupportItem)
      modifies this
      ensures State() == PushedExisting(rules, old(State()), item)
    {
      var normalizedText := rules.trim(item.text);
      var dedupeKey := (BoundaryLane, rules.lower(normalizedText));
      if normalizedText == "" || dedupeKey in seenTexts {
        return;
      }
      seenTexts := seenTexts + {dedupeKey};
      boundaries := boundaries + [item];
    }

    method PushLines(lane: Lane, texts: seq<string>, evidenceRef: Option<string>, list: SourceList)
      modifies this
      ensures State() == PushedAll(rules, caseId, old(State()), LineCandidates(lane, texts, evidenceRef, list))
    {
      ghost var offered := LineCandidates(lane, texts, evidenceRef, list);
      for i := 0 to |texts|
        invariant State() == PushedAll(rules, caseId, old(State()), offered[..i])
      {
        assert offered[..i + 1][..i] == offered[..i];
        PushSupportItem(lane, Some(texts[i]), evidenceRef, Entry(list, i));
      }
      assert offered[..|texts|] == offered;
    }

    method PushConstraints(constraints: seq<Option<string>>, evidenceRef: Option<string>)
      modifies this
      ensures State() == PushedAll(rules, caseId, old(State()), ConstraintCandidates(constraints, evidenceRef))
    {
      ghost var offered := ConstraintCandidates(constraints, evidenceRef);
      for i := 0 to |constraints|
        invariant State() == PushedAll(rules, caseId, old(State()), offered[..i])
      {
        assert offered[..i + 1][..i] == offered[..i];
        PushSupportItem(BoundaryLane, constraints[i], evidenceRef, Entry(Constraints, i));
      }
      assert offered[..|constraints|] == offered;
    }

    method PushCase(record: CaseRecord)
      modifies this
      ensures State() == PushedAll(rules, caseId, old(State()), CaseCandidates(rules, record))
    {
      var first := Candidate(FactLane, record.problemStatement, CaseRef(record), ProblemStatement);
      ghost var failures := LineCandidates(BoundaryLane, rules.StructuredLines(record.failureMode), CaseRef(record),
                                           FailureLines);
      PushSupportItem(FactLane, record.problemStatement, CaseRef(record), ProblemStatement);
      PushedOne(rules, caseId, old(State()), first);
      PushLines(BoundaryLane, rules.StructuredLines(record.failureMode), CaseRef(record), FailureLines);
      PushedAllConcat(rules, caseId, old(State()), [first], failures);
      PushConstraints(record.constraints, CaseRef(record));
      PushedAllConcat(rules, caseId, old(State()), [first] + failures,
                      ConstraintCandidates(record.constraints, CaseRef(record)));
    }

    method PushEvidence(evidence: Evidence)
      requires evidence.payload.Payload?
      modifies this
      ensures State() == PushedAll(rules, caseId, old(State()), EvidenceCandidates(rules, evidence))
    {
      var ref := Some(evidence.id);
      var first := Candidate(FactLane, evidence.payload.objective, ref, Objective);
      var steps := NormalizedStrings(rules, evidence.payload.steps);
      var findings := NormalizedStrings(rules, evidence.payload.findings);
      var blockers := NormalizedStrings(rules, evidence.payload.blockers);
      ghost var a := LineCandidates(FactLane, steps, ref, StepsCompleted);
      ghost var b := LineCandidates(FactLane, findings, ref, Findings);
      ghost var c := LineCandidates(BoundaryLane, blockers, ref, Blockers);
      PushSupportItem(FactLane, evidence.payload.objective, ref, Objective);
      PushedOne(rules, caseId, old(State()), first);
      PushLines(FactLane, steps, ref, StepsCompleted);
      PushedAllConcat(rules, caseId, old(State()), [first], a);
      PushLines(FactLane, findings, ref, Findings);
      PushedAllConcat(rules, caseId, old(State()), [first] + a, b);
      PushLines(BoundaryLane, blockers, ref, Blockers);
      PushedAllConcat(rules, caseId, old(State()), [first] + a + b, c);
    }

    /** Stops, as a failed read does, at the first payload that cannot be read. */
    method PushAllEvidence(evidence: seq<Evidence>) returns (readable: bool)
      modifies this
      ensures readable <==> Readable(evidence)
      ensures readable ==> State() == PushedAll(rules, caseId, old(State()), AllEvidenceCandidates(rules, evidence))
    {
      hide PushedAll, EvidenceCandidates;
      NothingPushed(rules, caseId, State());
      for i := 0 to |evidence|
        invariant Readable(evidence[..i])
        invariant State() == PushedAll(rules, caseId, old(State()), AllEvidenceCandidates(rules, evidence[..i]))
      {
        assert evidence[..i + 1] == evidence[..i] + [evidence[i]];
        if evidence[i].payload.Unreadable? {
          return false;
        }
        if evidence[i].payload.Payload? {
          PushEvidence(evidence[i]);
        } else {
          NothingOffered(rules, evidence[i]);
          NothingPushed(rules, caseId, State());
        }
        PushedAllConcat(rules, caseId, old(State()), AllEvidenceCandidates(rules, evidence[..i]),
                        EvidenceCandidates(rules, evidence[i]));
      }
      assert evidence[..|evidence|] == evidence;
      readable := true;
    }

    method PushRecovered(recovered: seq<SupportItem>)
      modifies this
      ensures State() == PushedAllExisting(rules, old(State()), recovered)
    {
      for i := 0 to |recovered|
        invariant State() == PushedAllExisting(rules, old(State()), recovered[..i])
      {
        assert recovered[..i + 1][..i] == recovered[..i];
        PushExistingSupportItem(recovered[i]);
      }
      assert recovered[..|recovered|] == recovered;
    }

    method PushRecoverable(evidence: Evidence)
      requires evidence.payload.Payload?
      modifies this
      ensures State() == PushedAll(rules, caseId, old(State()), RecoveryCandidatesOf(rules, evidence))
    {
      var ref := Some(evidence.id);
      var blockers := NormalizedStrings(rules, evidence.payload.blockers);
      var findings := NormalizedStrings(rules, evidence.payload.findings);
      ghost var offered := LineCandidates(BoundaryLane, blockers, ref, Blockers);
      PushLines(BoundaryLane, blockers, ref, Blockers);
      ghost var base := State();
      for i := 0 to |findings|
        invariant State() == PushedAll(rules, caseId, base, RecoverableFindings(rules, findings[..i], evidence.id))
      {
        assert findings[..i + 1][..i] == findings[..i];
        if rules.Recoverable(findings[i]) {
          PushSupportItem(BoundaryLane, Some(findings[i]), ref, Entry(Findings, i));
          PushedAllSnoc(rules, caseId, base, RecoverableFindings(rules, findings[..i], evidence.id),
                        Candidate(BoundaryLane, Some(findings[i]), ref, Entry(Findings, i)));
        }
      }
      assert findings[..|findings|] == findings;
      PushedAllConcat(rules, caseId, old(State()), offered, RecoverableFindings(rules, findings, evidence.id));
    }
  }

  lemma PushedOne(rules: TextRules, caseId: string, lists: Lists, candidate: Candidate)
    ensures PushedAll(rules, caseId, lists, [candidate]) == Pushed(rules, caseId, lists, candidate)
  {
    assert [candidate][..0] == [];
  }

  lemma NothingPushed(rules: TextRules, caseId: string, lists: Lists)
    ensures PushedAll(rules, caseId, lists, []) == lists
  {
  }

  lemma NothingOffered(rules: TextRules, evidence: Evidence)
    requires !evidence.payload.Payload?
    ensures EvidenceCandidates(rules, evidence) == []
  {
  }

  lemma NothingRecoverable(rules: TextRules, evidence: Evidence)
    requires !evidence.payload.Payload?
    ensures RecoveryCandidatesOf(rules, evidence) == []
  {
  }

  lemma PushedAllSnoc(rules: TextRules, caseId: string, lists: Lists, candidates: seq<Candidate>, last: Candidate)
    ensures PushedAll(rules, caseId, lists, candidates + [last])
         == Pushed(rules, caseId, PushedAll(rules, caseId, lists, candidates), last)
  {
    assert (candidates + [last])[..|candidates|] == candidates;
  }

  lemma {:induction false} PushedAllConcat(rules: TextRules, caseId: string, lists: Lists, a: seq<Candidate>,
                                           b: seq<Candidate>)
    ensures PushedAll(rules, caseId, lists, a + b) == PushedAll(rules, caseId, PushedAll(rules, caseId, lists, a), b)
    decreases |b|
  {
    if b == [] {
      assert a + b == a;
    } else {
      assert (a + b)[..|a + b| - 1] == a + b[..|b| - 1];
      PushedAllConcat(rules, caseId, lists, a, b[..|b| - 1]);
    }
  }

  method BuildCaseCompletionPacket(rules: TextRules, record: CaseRecord, evidence: seq<Evidence>,
                                   recovered: seq<SupportItem>)
    returns (r: Result<CompletionPacket, CompletionError>)
    ensures r == CompletionOf(rules, record, evidence, recovered)
  {
    var lists := new SupportLists(rules, record.caseId);
    lists.PushCase(record);
    var readable := lists.PushAllEvidence(evidence);
    if !readable {
      return Failure(PayloadUnreadable);
    }
    PushedAllConcat(rules, record.caseId, EMPTY, CaseCandidates(rules, record), AllEvidenceCandidates(rules, evidence));
    lists.PushRecovered(recovered);
    if lists.facts == [] {
      return Failure(NoFacts);
    }
    var bounded := Bounded(rules, lists.boundaries);
    if bounded == [] {
      return Failure(NoBoundaries);
    }
    r := Success(CompletionPacket(lists.facts, bounded, SuggestedApplicability(rules, record, lists.facts, bounded)));
  }

  method BuildCaseBoundaryRecoveryPacket(rules: TextRules, caseId: string, evidence: seq<Evidence>)
    returns (r: Result<seq<SupportItem>, CompletionError>)
    ensures r == RecoveryOf(rules, caseId, evidence)
  {
    hide Pushed, RecoveryCandidatesOf, Substantive;
    var lists := new SupportLists(rules, caseId);
    for i := 0 to |evidence|
      invariant Readable(evidence[..i])
      invariant lists.State() == PushedAll(rules, caseId, EMPTY, RecoveryCandidates(rules, evidence[..i]))
    {
      assert evidence[..i + 1][..i] == evidence[..i];
      ghost var offered := RecoveryCandidates(rules, evidence[..i]);
      if evidence[i].payload.Unreadable? {
        return Failure(PayloadUnreadable);
      }
      if evidence[i].payload.Payload? {
        lists.PushRecoverable(evidence[i]);
      } else {
        NothingRecoverable(rules, evidence[i]);
      }
      PushedAllConcat(rules, caseId, EMPTY, offered, RecoveryCandidatesOf(rules, evidence[i]));
    }
    assert evidence[..|evidence|] == evidence;
    var bounded := Substantive(rules, lists.boundaries);
    if bounded == [] {
      return Failure(NoBoundaries);
    }
    r := Success(bounded);
  }

  // ----- validation and amendment -----

  function ValidateLine(line: SuggestedLine, known: set<SupportId>): Result<(), CompletionError> {
    if line.supportRefs == [] then Failure(LineWithoutSupport)
    else if exists i :: 0 <= i < |line.supportRefs| && line.supportRefs[i] !in known then Failure(UnknownSupport)
    else Success(())
  }

  function IdSet(items: seq<SupportItem>): set<SupportId> {
    set i | 0 <= i < |items| :: items[i].id
  }

  method ValidateCompletionSuggestion(packet: CompletionPacket) returns (r: Result<(), CompletionError>)
    ensures r.Success? <==> SuggestionIsSupported(packet)
  {
    var known := IdSet(packet.facts) + IdSet(packet.boundaries);
    var boundaryIds := IdSet(packet.boundaries);
    for i := 0 to |packet.suggestion.whenToApply|
      invariant forall k :: 0 <= k < i ==> LineIsSupported(packet.suggestion.whenToApply[k], known)
    {
      var checked := ValidateLine(packet.suggestion.whenToApply[i], known);
      if checked.Failure? {
        return checked;
      }
    }
    for i := 0 to |packet.suggestion.whenNotToApply|
      invariant forall k :: 0 <= k < i ==> LineIsSupported(packet.suggestion.whenNotToApply[k], known)
      invariant forall k :: 0 <= k < i ==> CitesOneOf(packet.suggestion.whenNotToApply[k], boundaryIds)
    {
      var line := packet.suggestion.whenNotToApply[i];
      var checked := ValidateLine(line, known);
      if checked.Failure? {
        return checked;
      }
      if !(exists k :: 0 <= k < |line.supportRefs| && line.supportRefs[k] in boundaryIds) {
        return Failure(NoBoundaryCited);
      }
    }
    r := Success(());
  }

  ghost predicate LineIsSupported(line: SuggestedLine, known: set<SupportId>) {
    line.supportRefs != [] && (forall i :: 0 <= i < |line.supportRefs| ==> line.supportRefs[i] in known)
  }

  ghost predicate CitesOneOf(line: SuggestedLine, ids: set<SupportId>) {
    exists i :: 0 <= i < |line.supportRefs| && line.supportRefs[i] in ids
  }

  /** Every line cites known items, and every warning cites a boundary. */
  ghost predicate SuggestionIsSupported(packet: CompletionPacket) {
    var known := IdSet(packet.facts) + IdSet(packet.boundaries);
    && (forall i :: 0 <= i < |packet.suggestion.whenToApply| ==>
          LineIsSupported(packet.suggestion.whenToApply[i], known))
    && (forall i :: 0 <= i < |packet.suggestion.whenNotToApply| ==>
          && LineIsSupported(packet.suggestion.whenNotToApply[i], known)
          && CitesOneOf(packet.suggestion.whenNotToApply[i], IdSet(packet.boundaries)))
  }

  function LineTexts(lines: seq<SuggestedLine>): seq<SuggestedText> {
    seq(|lines|, i requires 0 <= i < |lines| => lines[i].text)
  }

  function Amended(rules: TextRules, record: CaseRecord, packet: CompletionPacket,
                   recovery: Option<seq<SupportItem>>): CaseRecord
  {
    var failureMode :=
      if recovery.Some? && rules.StructuredLines(record.failureMode) == [] && recovery.value != []
        && recovery.value[0].text != ""
      then Some(recovery.value[0].text) else record.failureMode;
    record.(version := record.version + 1,
            failureMode := failureMode,
            whenToApply := LineTexts(packet.suggestion.whenToApply),
            whenNotToApply := LineTexts(packet.suggestion.whenNotToApply),
            openQuestions := [])
  }

  /** Completes a draft, recovering boundaries only when the first build found none that is bounded. */
  method CompleteDraft(rules: TextRules, record: CaseRecord, evidence: seq<Evidence>, baseVersion: Option<int>)
    returns (r: Result<Completion, CompletionError>)
    requires rules.Lawful()
    ensures !record.isDraft ==> r == Failure(NotADraft)
    ensures record.isDraft && evidence == [] ==> r == Failure(NoEvidence)
    ensures r.Success? ==> IsCompletionOf(rules, record, evidence, r.value)
    ensures r.Success? <==>
            && record.isDraft && evidence != [] && Readable(evidence)
            && OffersFact(rules, record, evidence)
            && (OffersBoundedBoundary(rules, record, evidence) || OffersRecovery(rules, evidence))
            && (baseVersion == None || baseVersion.value == record.version)
    ensures r == Failure(PayloadUnreadable) <==> record.isDraft && evidence != [] && !Readable(evidence)
    ensures r == Failure(NoFacts) <==>
              record.isDraft && evidence != [] && Readable(evidence) && !OffersFact(rules, record, evidence)
    ensures r == Failure(NoBoundaries) <==>
              && record.isDraft && evidence != [] && Readable(evidence) && OffersFact(rules, record, evidence)
              && !OffersBoundedBoundary(rules, record, evidence) && !OffersRecovery(rules, evidence)
    ensures r.Failure? ==>
              r.error in {NotADraft, NoEvidence, PayloadUnreadable, NoFacts, NoBoundaries, WrongBaseVersion}
  {
    if !record.isDraft {
      return Failure(NotADraft);
    }
    if evidence == [] {
      return Failure(NoEvidence);
    }
    FirstBuildSucceedsExactlyWhen(rules, record, evidence);
    RecoverySucceedsExactlyWhen(rules, record.caseId, evidence);
    var recovery: Option<seq<SupportItem>> := None;
    var built := BuildCaseCompletionPacket(rules, record, evidence, []);
    if built.Failure? {
      if built.error != NoBoundaries {
        return Failure(built.error);
      }
      var recovered := BuildCaseBoundaryRecoveryPacket(rules, record.caseId, evidence);
      if recovered.Failure? {
        return Failure(recovered.error);
      }
      recovery := Some(recovered.value);
      built := BuildCaseCompletionPacket(rules, record, evidence, recovered.value);
      RecoveryNeverFailsTheSecondBuild(rules, record, evidence);
      RecoveredPacketIsSupported(rules, record, evidence);
    } else {
      FirstPacketIsSupported(rules, record, evidence);
    }
    var packet := built.value;
    var validated := ValidateCompletionSuggestion(packet);
    assert validated.Success?;
    if baseVersion.Some? && baseVersion.value != record.version {
      return Failure(WrongBaseVersion);
    }
    r := Success(Completion(recovery, packet, Amended(rules, record, packet, recovery)));
  }

  /** The packet comes from the first build when that succeeds, and otherwise from the build after recovery. */
  ghost predicate IsCompletionOf(rules: TextRules, record: CaseRecord, evidence: seq<Evidence>, completion: Completion)
  {
    var first := CompletionOf(rules, record, evidence, []);
    var recovery := RecoveryOf(rules, record.caseId, evidence);
    && (if first.Success? then
          completion.recovery == None && completion.packet == first.value
        else
          && recovery.Success?
          && completion.recovery == Some(recovery.value)
          && CompletionOf(rules, record, evidence, recovery.value) == Success(completion.packet)
          && completion.packet.boundaries == recovery.value)
    && SuggestionIsSupported(completion.packet)
    && IdsAreDistinct(completion.packet)
    && completion.nextRecord == Amended(rules, record, completion.packet, completion.recovery)
  }

  ghost predicate IdsAreDistinct(packet: CompletionPacket) {
    Distinct(IdsOf(packet.facts + packet.boundaries))
  }

  // ----- what the inputs must offer -----

  ghost predicate OffersFact(rules: TextRules, record: CaseRecord, evidence: seq<Evidence>) {
    exists candidate <- CompletionCandidates(rules, record, evidence) ::
      candidate.lane.FactLane? && Usable(rules, candidate)
  }

  ghost predicate OffersBoundedBoundary(rules: TextRules, record: CaseRecord, evidence: seq<Evidence>) {
    exists candidate <- CompletionCandidates(rules, record, evidence) ::
      candidate.lane.BoundaryLane? && Usable(rules, candidate) && !rules.ProcessOnly(candidate.text.value)
  }

  ghost predicate OffersRecovery(rules: TextRules, evidence: seq<Evidence>) {
    exists candidate <- RecoveryCandidates(rules, evidence) ::
      Usable(rules, candidate) && !rules.Resolved(candidate.text.value) && !rules.ProcessOnly(candidate.text.value)
  }

  // ----- what pushing keeps -----

  /** An item's id is its position in its own list. */
  ghost predicate Numbered(caseId: string, lane: Lane, items: seq<SupportItem>) {
    forall i :: 0 <= i < |items| ==> items[i].id == SupportId(caseId, lane, i)
  }

  /** One item per key of the lane that has been seen, and none besides. */
  ghost predicate OnePerKey(rules: TextRules, lane: Lane, lists: Lists) {
    var items := lists.Lane(lane);
    && (forall i :: 0 <= i < |items| ==> (lane, rules.Key(items[i].text)) in lists.seen)
    && (forall i, j :: 0 <= i < j < |items| ==> rules.Key(items[i].text) != rules.Key(items[j].text))
    && (forall key | (lane, key) in lists.seen :: KeyIsHeld(rules, items, key))
  }

  ghost predicate KeyIsHeld(rules: TextRules, items: seq<SupportItem>, key: string) {
    exists item <- items :: rules.Key(item.text) == key
  }

  /** The item carries the candidate's trimmed text, its evidence and its field. */
  ghost predicate Stands(rules: TextRules, lane: Lane, item: SupportItem, candidate: Candidate) {
    && candidate.lane == lane
    && Usable(rules, candidate)
    && item.text == rules.trim(candidate.text.value)
    && item.evidenceRef == candidate.evidenceRef.value
    && item.field == candidate.field
  }

  ghost predicate StandsForOne(rules: TextRules, lane: Lane, item: SupportItem, candidates: seq<Candidate>) {
    exists candidate <- candidates :: Stands(rules, lane, item, candidate)
  }

  ghost predicate AllStand(rules: TextRules, lane: Lane, items: seq<SupportItem>, candidates: seq<Candidate>) {
    forall i :: 0 <= i < |items| ==> StandsForOne(rules, lane, items[i], candidates)
  }

  ghost predicate AllHeard(rules: TextRules, lane: Lane, lists: Lists, candidates: seq<Candidate>) {
    forall c <- candidates :: c.lane == lane && Usable(rules, c) ==> (lane, rules.Key(c.text.value)) in lists.seen
  }

  lemma PushKeepsOnePerKey(rules: TextRules, caseId: string, lane: Lane, lists: Lists, next: Candidate)
    requires rules.Lawful()
    requires OnePerKey(rules, lane, lists)
    ensures OnePerKey(rules, lane, Pushed(rules, caseId, lists, next))
  {
    var after := Pushed(rules, caseId, lists, next);
    var items, grown := lists.Lane(lane), after.Lane(lane);
    if grown != items {
      assert grown == items + [ItemOf(rules, caseId, next, |items|)];
      assert rules.Key(grown[|items|].text) == rules.Key(next.text.value);
      assert grown[|items|] in grown;
    }
    forall key | (lane, key) in after.seen
      ensures KeyIsHeld(rules, grown, key)
    {
      if (lane, key) in lists.seen {
        assert KeyIsHeld(rules, items, key);
        var item :| item in items && rules.Key(item.text) == key;
        assert item in grown;
      }
    }
  }

  lemma PushKeepsStanding(rules: TextRules, caseId: string, lane: Lane, lists: Lists, candidates: seq<Candidate>,
                          next: Candidate)
    requires AllStand(rules, lane, lists.Lane(lane), candidates)
    ensures AllStand(rules, lane, Pushed(rules, caseId, lists, next).Lane(lane), candidates + [next])
  {
    var items, grown := lists.Lane(lane), Pushed(rules, caseId, lists, next).Lane(lane);
    forall i | 0 <= i < |grown|
      ensures StandsForOne(rules, lane, grown[i], candidates + [next])
    {
      if i < |items| {
        assert StandsForOne(rules, lane, items[i], candidates);
        var c :| c in candidates && Stands(rules, lane, items[i], c);
        assert c in candidates + [next];
      } else {
        assert Stands(rules, lane, grown[i], next) && next in candidates + [next];
      }
    }
  }

  lemma PushKeepsHearing(rules: TextRules, caseId: string, lane: Lane, lists: Lists, candidates: seq<Candidate>,
                         next: Candidate)
    requires AllHeard(rules, lane, lists, candidates)
    ensures AllHeard(rules, lane, Pushed(rules, caseId, lists, next), candidates + [next])
  {
  }

  lemma PushKeepsNumbers(rules: TextRules, caseId: string, lane: Lane, lists: Lists, next: Candidate)
    requires Numbered(caseId, lane, lists.Lane(lane))
    ensures Numbered(caseId, lane, Pushed(rules, caseId, lists, next).Lane(lane))
  {
  }

  /** Everything pushing candidates one by one establishes about a lane. */
  ghost predicate Sound(rules: TextRules, caseId: string, lane: Lane, lists: Lists, candidates: seq<Candidate>) {
    && Numbered(caseId, lane, lists.Lane(lane))
    && OnePerKey(rules, lane, lists)
    && AllStand(rules, lane, lists.Lane(lane), candidates)
    && AllHeard(rules, lane, lists, candidates)
  }

  lemma PushKeepsSound(rules: TextRules, caseId: string, lane: Lane, lists: Lists, candidates: seq<Candidate>,
                       next: Candidate)
    requires rules.Lawful()
    requires Sound(rules, caseId, lane, lists, candidates)
    ensures Sound(rules, caseId, lane, Pushed(rules, caseId, lists, next), candidates + [next])
  {
    hide Numbered, OnePerKey, AllStand, AllHeard, Pushed;
    PushKeepsNumbers(rules, caseId, lane, lists, next);
    PushKeepsOnePerKey(rules, caseId, lane, lists, next);
    PushKeepsStanding(rules, caseId, lane, lists, candidates, next);
    PushKeepsHearing(rules, caseId, lane, lists, candidates, next);
  }

  lemma NothingIsSound(rules: TextRules, caseId: string, lane: Lane)
    ensures Sound(rules, caseId, lane, EMPTY, [])
  {
  }

  /** Ids follow positions, keys are never repeated, and items and usable candidates account for each other. */
  lemma {:induction false} PushingNumbers(rules: TextRules, caseId: string, lane: Lane, candidates: seq<Candidate>)
    requires rules.Lawful()
    ensures Sound(rules, caseId, lane, PushedAll(rules, caseId, EMPTY, candidates), candidates)
  {
    hide Sound, Pushed, TextRules.Lawful;
    if candidates == [] {
      NothingIsSound(rules, caseId, lane);
    } else {
      var n := |candidates| - 1;
      PushingNumbers(rules, caseId, lane, candidates[..n]);
      PushKeepsSound(rules, caseId, lane, PushedAll(rules, caseId, EMPTY, candidates[..n]), candidates[..n],
                     candidates[n]);
      assert candidates[..n] + [candidates[n]] == candidates;
    }
  }

  // ----- when the builds succeed -----

  /** A lane's items and its usable candidates have the same keys. */
  lemma ItemsMatchCandidates(rules: TextRules, caseId: string, lane: Lane, candidates: seq<Candidate>)
    requires rules.Lawful()
    ensures var items := PushedAll(rules, caseId, EMPTY, candidates).Lane(lane);
            && (forall item <- items ::
                  rules.trim(item.text) != "" && CandidateHolds(rules, lane, candidates, rules.Key(item.text)))
            && (forall c <- candidates :: c.lane == lane && Usable(rules, c) ==>
                  KeyIsHeld(rules, items, rules.Key(c.text.value)))
  {
    var lists := PushedAll(rules, caseId, EMPTY, candidates);
    var items := lists.Lane(lane);
    PushingNumbers(rules, caseId, lane, candidates);
    forall item | item in items
      ensures rules.trim(item.text) != "" && CandidateHolds(rules, lane, candidates, rules.Key(item.text))
    {
      var i :| 0 <= i < |items| && items[i] == item;
      assert StandsForOne(rules, lane, items[i], candidates);
      var c :| c in candidates && Stands(rules, lane, items[i], c);
    }
  }

  ghost predicate CandidateHolds(rules: TextRules, lane: Lane, candidates: seq<Candidate>, key: string) {
    exists c <- candidates :: c.lane == lane && Usable(rules, c) && rules.Key(c.text.value) == key
  }

  lemma FactsComeFromCandidates(rules: TextRules, caseId: string, candidates: seq<Candidate>)
    requires rules.Lawful()
    ensures PushedAll(rules, caseId, EMPTY, candidates).facts != []
       <==> exists c <- candidates :: c.lane.FactLane? && Usable(rules, c)
  {
    var facts := PushedAll(rules, caseId, EMPTY, candidates).facts;
    ItemsMatchCandidates(rules, caseId, FactLane, candidates);
    if facts != [] {
      assert facts[0] in facts;
      assert CandidateHolds(rules, FactLane, candidates, rules.Key(facts[0].text));
    }
    if c :| c in candidates && c.lane.FactLane? && Usable(rules, c) {
      assert KeyIsHeld(rules, facts, rules.Key(c.text.value));
    }
  }

  lemma BoundedComeFromCandidates(rules: TextRules, caseId: string, candidates: seq<Candidate>)
    requires rules.Lawful()
    ensures Bounded(rules, PushedAll(rules, caseId, EMPTY, candidates).boundaries) != []
       <==> exists c <- candidates :: c.lane.BoundaryLane? && Usable(rules, c) && !rules.ProcessOnly(c.text.value)
  {
    var items := PushedAll(rules, caseId, EMPTY, candidates).boundaries;
    var kept := Bounded(rules, items);
    ItemsMatchCandidates(rules, caseId, BoundaryLane, candidates);
    hide PushedAll, Usable, Bounded, TextRules.Lawful;
    if kept != [] {
      assert kept[0] in kept;
      assert CandidateHolds(rules, BoundaryLane, candidates, rules.Key(kept[0].text));
      var c :| c in candidates && c.lane == BoundaryLane && Usable(rules, c)
        && rules.Key(c.text.value) == rules.Key(kept[0].text);
    }
    if c :| c in candidates && c.lane.BoundaryLane? && Usable(rules, c) && !rules.ProcessOnly(c.text.value) {
      assert KeyIsHeld(rules, items, rules.Key(c.text.value));
      var item :| item in items && rules.Key(item.text) == rules.Key(c.text.value);
      assert item in kept;
    }
  }

  lemma SameKeyReadsTheSame(rules: TextRules, a: string, b: string)
    requires rules.Key(a) == rules.Key(b)
    ensures rules.Resolved(a) == rules.Resolved(b) && rules.ProcessOnly(a) == rules.ProcessOnly(b)
  {
  }

  lemma SubstantiveComeFromCandidates(rules: TextRules, caseId: string, candidates: seq<Candidate>)
    requires rules.Lawful()
    ensures Substantive(rules, PushedAll(rules, caseId, EMPTY, candidates).boundaries) != []
       <==> exists c <- candidates :: c.lane.BoundaryLane? && Usable(rules, c)
                                      && !rules.Resolved(c.text.value) && !rules.ProcessOnly(c.text.value)
  {
    var items := PushedAll(rules, caseId, EMPTY, candidates).boundaries;
    var kept := Substantive(rules, items);
    ItemsMatchCandidates(rules, caseId, BoundaryLane, candidates);
    hide PushedAll, Substantive, TextRules.Lawful, TextRules.Key, TextRules.Resolved, TextRules.ProcessOnly;
    if kept != [] {
      assert kept[0] in kept;
      assert CandidateHolds(rules, BoundaryLane, candidates, rules.Key(kept[0].text));
      var c :| c in candidates && c.lane == BoundaryLane && Usable(rules, c)
               && rules.Key(c.text.value) == rules.Key(kept[0].text);
      SameKeyReadsTheSame(rules, c.text.value, kept[0].text);
    } else {
      forall c | c in candidates && c.lane.BoundaryLane? && Usable(rules, c)
        ensures rules.Resolved(c.text.value) || rules.ProcessOnly(c.text.value)
      {
        assert KeyIsHeld(rules, items, rules.Key(c.text.value));
        var item :| item in items && rules.Key(item.text) == rules.Key(c.text.value);
        SameKeyReadsTheSame(rules, c.text.value, item.text);
        assert item !in kept;
      }
    }
  }

  lemma FirstBuildSucceedsExactlyWhen(rules: TextRules, record: CaseRecord, evidence: seq<Evidence>)
    requires rules.Lawful()
    ensures var built := CompletionOf(rules, record, evidence, []);
            && (built.Success? <==>
                  && Readable(evidence) && OffersFact(rules, record, evidence)
                  && OffersBoundedBoundary(rules, record, evidence))
            && (built == Failure(NoBoundaries) <==>
                  && Readable(evidence) && OffersFact(rules, record, evidence)
                  && !OffersBoundedBoundary(rules, record, evidence))
  {
    FactsComeFromCandidates(rules, record.caseId, CompletionCandidates(rules, record, evidence));
    BoundedComeFromCandidates(rules, record.caseId, CompletionCandidates(rules, record, evidence));
  }

  lemma {:induction false} RecoveryCandidatesAreBoundaries(rules: TextRules, evidence: seq<Evidence>)
    ensures forall c <- RecoveryCandidates(rules, evidence) :: c.lane.BoundaryLane?
  {
    if evidence != [] {
      RecoveryCandidatesAreBoundaries(rules, evidence[..|evidence| - 1]);
      var last := evidence[|evidence| - 1];
      if last.payload.Payload? {
        RecoverableFindingsAreBoundaries(rules, NormalizedStrings(rules, last.payload.findings), last.id);
      }
    }
  }

  lemma {:induction false} RecoverableFindingsAreBoundaries(rules: TextRules, findings: seq<string>,
                                                            evidenceRef: string)
    ensures forall c <- RecoverableFindings(rules, findings, evidenceRef) :: c.lane.BoundaryLane?
  {
    if findings != [] {
      RecoverableFindingsAreBoundaries(rules, findings[..|findings| - 1], evidenceRef);
    }
  }

  lemma RecoverySucceedsExactlyWhen(rules: TextRules, caseId: string, evidence: seq<Evidence>)
    requires rules.Lawful()
    ensures RecoveryOf(rules, caseId, evidence).Success? <==> Readable(evidence) && OffersRecovery(rules, evidence)
  {
    SubstantiveComeFromCandidates(rules, caseId, RecoveryCandidates(rules, evidence));
    RecoveryCandidatesAreBoundaries(rules, evidence);
  }

  // ----- the build after recovery -----

  ghost predicate KeysApart(rules: TextRules, items: seq<SupportItem>) {
    forall i, j :: 0 <= i < j < |items| ==> rules.Key(items[i].text) != rules.Key(items[j].text)
  }

  /** Recovered boundaries that are pairwise different and unlike anything seen are all appended. */
  lemma {:induction false} FreshItemsAreAppended(rules: TextRules, lists: Lists, items: seq<SupportItem>)
    requires KeysApart(rules, items)
    requires forall i :: 0 <= i < |items| ==>
               rules.trim(items[i].text) != "" && (BoundaryLane, rules.Key(items[i].text)) !in lists.seen
    ensures var after := PushedAllExisting(rules, lists, items);
            && after.facts == lists.facts
            && after.boundaries == lists.boundaries + items
    ensures forall key :: (BoundaryLane, key) in PushedAllExisting(rules, lists, items).seen ==>
              (BoundaryLane, key) in lists.seen || KeyIsHeld(rules, items, key)
    decreases |items|
  {
    var after := PushedAllExisting(rules, lists, items);
    if items == [] {
      assert lists.boundaries + items == lists.boundaries;
    } else {
      var n := |items| - 1;
      var before := PushedAllExisting(rules, lists, items[..n]);
      FreshItemsAreAppended(rules, lists, items[..n]);
      assert !KeyIsHeld(rules, items[..n], rules.Key(items[n].text));
      assert lists.boundaries + items == lists.boundaries + items[..n] + [items[n]];
      forall key | (BoundaryLane, key) in after.seen && (BoundaryLane, key) !in lists.seen
        ensures KeyIsHeld(rules, items, key)
      {
        if (BoundaryLane, key) in before.seen {
          assert KeyIsHeld(rules, items[..n], key);
          var item :| item in items[..n] && rules.Key(item.text) == key;
          assert item in items;
        } else {
          assert items[n] in items;
        }
      }
    }
  }

  lemma {:induction false} NothingIsBounded(rules: TextRules, items: seq<SupportItem>)
    requires forall item <- items :: rules.ProcessOnly(item.text)
    ensures Bounded(rules, items) == []
  {
    if items != [] {
      NothingIsBounded(rules, items[..|items| - 1]);
    }
  }

  lemma {:induction false} BoundedOfConcat(rules: TextRules, a: seq<SupportItem>, b: seq<SupportItem>)
    requires forall item <- a :: rules.ProcessOnly(item.text)
    requires forall item <- b :: !rules.ProcessOnly(item.text)
    ensures Bounded(rules, a + b) == b
    decreases |b|
  {
    if b != [] {
      assert (a + b)[..|a + b| - 1] == a + b[..|b| - 1];
      BoundedOfConcat(rules, a, b[..|b| - 1]);
    } else {
      assert a + b == a;
      NothingIsBounded(rules, a);
    }
  }

  /** Filtering keeps different keys different. */
  lemma {:induction false} SubstantiveKeepsKeysApart(rules: TextRules, items: seq<SupportItem>)
    requires KeysApart(rules, items)
    ensures KeysApart(rules, Substantive(rules, items))
  {
    if items == [] {
      assert Substantive(rules, items) == items;
    } else {
      hide KeysApart, TextRules.Key, TextRules.Resolved, TextRules.ProcessOnly;
      var n := |items| - 1;
      KeysApartInit(rules, items);
      SubstantiveKeepsKeysApart(rules, items[..n]);
      SnocKeepsKeysApart(rules, items, Substantive(rules, items[..n]));
    }
  }

  lemma KeysApartInit(rules: TextRules, items: seq<SupportItem>)
    requires items != [] && KeysApart(rules, items)
    ensures KeysApart(rules, items[..|items| - 1])
  {
  }

  lemma SnocKeepsKeysApart(rules: TextRules, items: seq<SupportItem>, kept: seq<SupportItem>)
    requires items != [] && KeysApart(rules, items) && KeysApart(rules, kept)
    requires forall item <- kept :: item in items[..|items| - 1]
    ensures KeysApart(rules, kept + [items[|items| - 1]])
  {
    hide TextRules.Key;
    var n := |items| - 1;
    forall i | 0 <= i < |kept|
      ensures rules.Key(kept[i].text) != rules.Key(items[n].text)
    {
      assert kept[i] in kept;
      var k :| 0 <= k < n && items[..n][k] == kept[i];
      assert rules.Key(items[k].text) != rules.Key(items[n].text);
    }
  }

  lemma FailedBuildIsProcessOnly(rules: TextRules, record: CaseRecord, evidence: seq<Evidence>)
    requires CompletionOf(rules, record, evidence, []) == Failure(NoBoundaries)
    ensures Readable(evidence) && Gathered(rules, record, evidence, []).facts != []
    ensures forall item <- Gathered(rules, record, evidence, []).boundaries :: rules.ProcessOnly(item.text)
  {
    var boundaries := Gathered(rules, record, evidence, []).boundaries;
    forall item | item in boundaries
      ensures rules.ProcessOnly(item.text)
    {
      assert item !in Bounded(rules, boundaries);
    }
  }

  lemma RecoveredItemsAreUsable(rules: TextRules, caseId: string, evidence: seq<Evidence>)
    requires rules.Lawful()
    requires RecoveryOf(rules, caseId, evidence).Success?
    ensures var recovered := RecoveryOf(rules, caseId, evidence).value;
            && KeysApart(rules, recovered)
            && (forall item <- recovered :: rules.trim(item.text) != "" && !rules.ProcessOnly(item.text))
  {
    var all := RecoveredLists(rules, caseId, evidence).boundaries;
    PushingNumbers(rules, caseId, BoundaryLane, RecoveryCandidates(rules, evidence));
    ItemsMatchCandidates(rules, caseId, BoundaryLane, RecoveryCandidates(rules, evidence));
    SubstantiveKeepsKeysApart(rules, all);
  }

  lemma RecoveredItemsAreFresh(rules: TextRules, record: CaseRecord, evidence: seq<Evidence>)
    requires rules.Lawful()
    requires CompletionOf(rules, record, evidence, []) == Failure(NoBoundaries)
    requires RecoveryOf(rules, record.caseId, evidence).Success?
    ensures forall item <- RecoveryOf(rules, record.caseId, evidence).value ::
              (BoundaryLane, rules.Key(item.text)) !in Gathered(rules, record, evidence, []).seen
  {
    var lists := Gathered(rules, record, evidence, []);
    FailedBuildIsProcessOnly(rules, record, evidence);
    RecoveredItemsAreUsable(rules, record.caseId, evidence);
    PushingNumbers(rules, record.caseId, BoundaryLane, CompletionCandidates(rules, record, evidence));
    forall item | item in RecoveryOf(rules, record.caseId, evidence).value
      ensures (BoundaryLane, rules.Key(item.text)) !in lists.seen
    {
      assert !KeyIsHeld(rules, lists.boundaries, rules.Key(item.text));
    }
  }

  /** The build after recovery keeps the facts and takes exactly the recovered items as boundaries. */
  lemma RecoveryNeverFailsTheSecondBuild(rules: TextRules, record: CaseRecord, evidence: seq<Evidence>)
    requires rules.Lawful()
    requires CompletionOf(rules, record, evidence, []) == Failure(NoBoundaries)
    requires RecoveryOf(rules, record.caseId, evidence).Success?
    ensures var recovered := RecoveryOf(rules, record.caseId, evidence).value;
            var built := CompletionOf(rules, record, evidence, recovered);
            && built.Success?
            && built.value.facts == Gathered(rules, record, evidence, []).facts
            && built.value.boundaries == recovered
  {
    var lists := Gathered(rules, record, evidence, []);
    var recovered := RecoveryOf(rules, record.caseId, evidence).value;
    FailedBuildIsProcessOnly(rules, record, evidence);
    RecoveredItemsAreUsable(rules, record.caseId, evidence);
    RecoveredItemsAreFresh(rules, record, evidence);
    FreshItemsAreAppended(rules, lists, recovered);
    BoundedOfConcat(rules, lists.boundaries, recovered);
  }

  // ----- distinct ids and supported suggestions -----

  lemma IdsFollowTheLane(rules: TextRules, caseId: string, lane: Lane, candidates: seq<Candidate>,
                         kept: seq<SupportItem>)
    requires rules.Lawful()
    requires kept == PushedAll(rules, caseId, EMPTY, candidates).Lane(lane)
    ensures Distinct(IdsOf(kept)) && forall i :: 0 <= i < |kept| ==> kept[i].id.lane == lane
  {
    PushingNumbers(rules, caseId, lane, candidates);
  }

  lemma {:induction false} FilteringKeepsIdsApart(rules: TextRules, items: seq<SupportItem>)
    requires Distinct(IdsOf(items))
    ensures Distinct(IdsOf(Bounded(rules, items)))
    ensures Distinct(IdsOf(Substantive(rules, items)))
  {
    if items != [] {
      var n := |items| - 1;
      assert IdsOf(items[..n]) == IdsOf(items)[..n];
      FilteringKeepsIdsApart(rules, items[..n]);
      SnocKeepsIdsApart(items, Bounded(rules, items[..n]));
      SnocKeepsIdsApart(items, Substantive(rules, items[..n]));
    }
  }

  lemma SnocKeepsIdsApart(items: seq<SupportItem>, kept: seq<SupportItem>)
    requires items != [] && Distinct(IdsOf(items)) && Distinct(IdsOf(kept))
    requires forall item <- kept :: item in items[..|items| - 1]
    ensures Distinct(IdsOf(kept + [items[|items| - 1]]))
  {
    var n := |items| - 1;
    var ids := IdsOf(kept + [items[n]]);
    forall i, j | 0 <= i < j < |ids|
      ensures ids[i] != ids[j]
    {
      if j < |kept| {
        assert IdsOf(kept)[i] != IdsOf(kept)[j];
      } else {
        assert kept[i] in kept;
        var k :| 0 <= k < n && items[k] == kept[i];
        assert IdsOf(items)[k] != IdsOf(items)[n];
      }
    }
  }

  lemma LanesDoNotShareIds(facts: seq<SupportItem>, boundaries: seq<SupportItem>)
    requires Distinct(IdsOf(facts)) && Distinct(IdsOf(boundaries))
    requires forall item <- facts :: item.id.lane.FactLane?
    requires forall item <- boundaries :: item.id.lane.BoundaryLane?
    ensures Distinct(IdsOf(facts + boundaries))
  {
    var ids := IdsOf(facts + boundaries);
    forall i, j | 0 <= i < j < |ids|
      ensures ids[i] != ids[j]
    {
      if j < |facts| {
        assert IdsOf(facts)[i] != IdsOf(facts)[j];
      } else if i >= |facts| {
        assert IdsOf(boundaries)[i - |facts|] != IdsOf(boundaries)[j - |facts|];
      } else {
        assert facts[i] in facts && boundaries[j - |facts|] in boundaries;
      }
    }
  }

  lemma SuggestionsAreSupported(rules: TextRules, record: CaseRecord, facts: seq<SupportItem>,
                                boundaries: seq<SupportItem>)
    requires facts != [] && boundaries != []
    ensures SuggestionIsSupported(CompletionPacket(facts, boundaries,
                                                   SuggestedApplicability(rules, record, facts, boundaries)))
  {
    var primary := PrimaryBoundaries(rules, boundaries);
    var substantive := Substantive(rules, boundaries);
    forall i | 0 <= i < |primary|
      ensures IdsOf(primary)[i] in IdSet(boundaries)
    {
      assert primary[i] in boundaries by {
        if |substantive| > 0 {
          assert primary[i] in substantive;
        }
      }
    }
    assert facts[0].id in IdSet(facts);
    assert IdsOf(primary)[0] in IdSet(boundaries);
  }

  lemma FirstPacketIsSupported(rules: TextRules, record: CaseRecord, evidence: seq<Evidence>)
    requires rules.Lawful()
    requires CompletionOf(rules, record, evidence, []).Success?
    ensures var packet := CompletionOf(rules, record, evidence, []).value;
            IdsAreDistinct(packet) && SuggestionIsSupported(packet)
  {
    var packet := CompletionOf(rules, record, evidence, []).value;
    var lists := Gathered(rules, record, evidence, []);
    var offered := CompletionCandidates(rules, record, evidence);
    IdsFollowTheLane(rules, record.caseId, FactLane, offered, lists.facts);
    IdsFollowTheLane(rules, record.caseId, BoundaryLane, offered, lists.boundaries);
    FilteringKeepsIdsApart(rules, lists.boundaries);
    LanesDoNotShareIds(packet.facts, packet.boundaries);
    SuggestionsAreSupported(rules, record, packet.facts, packet.boundaries);
  }

  /** Two counters numbered these items, yet no id is used twice. */
  lemma RecoveredPacketIsSupported(rules: TextRules, record: CaseRecord, evidence: seq<Evidence>)
    requires rules.Lawful()
    requires CompletionOf(rules, record, evidence, []) == Failure(NoBoundaries)
    requires RecoveryOf(rules, record.caseId, evidence).Success?
    ensures var built := CompletionOf(rules, record, evidence, RecoveryOf(rules, record.caseId, evidence).value);
            built.Success? && IdsAreDistinct(built.value) && SuggestionIsSupported(built.value)
  {
    RecoveryNeverFailsTheSecondBuild(rules, record, evidence);
    var packet := CompletionOf(rules, record, evidence, RecoveryOf(rules, record.caseId, evidence).value).value;
    var all := RecoveredLists(rules, record.caseId, evidence);
    IdsFollowTheLane(rules, record.caseId, FactLane, CompletionCandidates(rules, record, evidence), packet.facts);
    IdsFollowTheLane(rules, record.caseId, BoundaryLane, RecoveryCandidates(rules, evidence), all.boundaries);
    FilteringKeepsIdsApart(rules, all.boundaries);
    LanesDoNotShareIds(packet.facts, packet.boundaries);
    SuggestionsAreSupported(rules, record, packet.facts, packet.boundaries);
  }

  /** Recovering beside a bounded boundary of the first build would reuse its id. */
  lemma RecoveryBesideBoundariesCollides(rules: TextRules, record: CaseRecord, evidence: seq<Evidence>)
    requires rules.Lawful()
    requires CompletionOf(rules, record, evidence, []).Success?
    requires RecoveryOf(rules, record.caseId, evidence).Success?
    requires var first := Gathered(rules, record, evidence, []).boundaries;
             var all := RecoveredLists(rules, record.caseId, evidence).boundaries;
             && first != [] && all != []
             && !rules.ProcessOnly(first[0].text)
             && !rules.ProcessOnly(all[0].text) && !rules.Resolved(all[0].text)
             && (forall item <- first :: rules.Key(item.text) != rules.Key(all[0].text))
    ensures var built := CompletionOf(rules, record, evidence, RecoveryOf(rules, record.caseId, evidence).value);
            built.Success? && !IdsAreDistinct(built.value)
  {
    var offered := CompletionCandidates(rules, record, evidence);
    var lists := Gathered(rules, record, evidence, []);
    var all := RecoveredLists(rules, record.caseId, evidence).boundaries;
    var recovered := RecoveryOf(rules, record.caseId, evidence).value;
    KeyIsNew(rules, record.caseId, offered, all[0]);
    FirstItem(rules, record.caseId, offered);
    FirstItem(rules, record.caseId, RecoveryCandidates(rules, evidence));
    hide PushedAll, KeyIsHeld, CompletionCandidates, RecoveryCandidates, TextRules.Key, TextRules.Lawful,
         IdsAreDistinct;
    FirstSubstantiveLeads(rules, all);
    LeaderIsKept(rules, lists, recovered);
    assert all[0] in all && lists.boundaries[0] in lists.boundaries;
    SharedIdIsNotDistinct(rules, record, PushedAllExisting(rules, lists, recovered), |lists.boundaries|);
  }

  /** Rules under which every text is a recoverable line of its own. */
  ghost function OpenRules(): TextRules {
    TextRules(s => s, s => s, s => [s], s => false, s => false, s => true)
  }

  /** Such inputs exist: a case with a constraint, and a finding that recovery takes for a boundary. */
  lemma CollidingInputs() returns (rules: TextRules, record: CaseRecord, evidence: seq<Evidence>)
    ensures rules.Lawful() && record.isDraft
    ensures CompletionOf(rules, record, evidence, []).Success?
    ensures RecoveryOf(rules, record.caseId, evidence).Success?
    ensures var first := Gathered(rules, record, evidence, []).boundaries;
            var all := RecoveredLists(rules, record.caseId, evidence).boundaries;
            && first != [] && all != []
            && !rules.ProcessOnly(first[0].text)
            && !rules.ProcessOnly(all[0].text) && !rules.Resolved(all[0].text)
            && (forall item <- first :: rules.Key(item.text) != rules.Key(all[0].text))
  {
    hide CompletionOf, RecoveryOf, Gathered, RecoveredLists;
    rules, record, evidence := OpenRules(), LimitedCase(), [Outage()];
    ExampleBuilds();
    BuiltHasBoundaries(rules, record, evidence);
    ExampleBoundaries();
    var all := RecoveredLists(rules, record.caseId, evidence).boundaries;
    assert all[0] in all;
  }

  lemma ExampleBuilds()
    ensures CompletionOf(OpenRules(), LimitedCase(), [Outage()], []).Success?
    ensures RecoveryOf(OpenRules(), LimitedCase().caseId, [Outage()]).Success?
  {
    hide CompletionOf, RecoveryOf, CompletionCandidates, RecoveryCandidates;
    var rules := OpenRules();
    OutageIsOffered();
    LimitIsOffered();
    var offered := CompletionCandidates(rules, LimitedCase(), [Outage()]);
    var recoverable := RecoveryCandidates(rules, [Outage()]);
    FirstBuildSucceedsExactlyWhen(rules, LimitedCase(), [Outage()]);
    RecoverySucceedsExactlyWhen(rules, LimitedCase().caseId, [Outage()]);
    assert offered[0] in offered && offered[1] in offered && recoverable[0] in recoverable;
  }

  lemma BuiltHasBoundaries(rules: TextRules, record: CaseRecord, evidence: seq<Evidence>)
    ensures CompletionOf(rules, record, evidence, []).Success? ==>
              Gathered(rules, record, evidence, []).boundaries != []
    ensures RecoveryOf(rules, record.caseId, evidence).Success? ==>
              RecoveredLists(rules, record.caseId, evidence).boundaries != []
  {
    hide Gathered, RecoveredLists;
  }

  lemma ExampleBoundaries()
    ensures var rules := OpenRules();
            && (forall item <- Gathered(rules, LimitedCase(), [Outage()], []).boundaries ::
                  rules.Key(item.text) == "limit")
            && (forall item <- RecoveredLists(rules, LimitedCase().caseId, [Outage()]).boundaries ::
                  rules.Key(item.text) == "outage")
  {
    hide PushedAll, CompletionCandidates, RecoveryCandidates;
    OutageIsOffered();
    LimitIsOffered();
    OneBoundaryKey(OpenRules(), "case", CompletionCandidates(OpenRules(), LimitedCase(), [Outage()]), "limit");
    OneBoundaryKey(OpenRules(), "case", RecoveryCandidates(OpenRules(), [Outage()]), "outage");
  }

  lemma OneBoundaryKey(rules: TextRules, caseId: string, candidates: seq<Candidate>, key: string)
    requires rules.Lawful()
    requires forall c <- candidates :: c.lane.BoundaryLane? && Usable(rules, c) ==> rules.Key(c.text.value) == key
    ensures forall item <- PushedAll(rules, caseId, EMPTY, candidates).boundaries :: rules.Key(item.text) == key
  {
    hide PushedAll, Usable, TextRules.Lawful, TextRules.Key;
    ItemsMatchCandidates(rules, caseId, BoundaryLane, candidates);
    forall item | item in PushedAll(rules, caseId, EMPTY, candidates).boundaries
      ensures rules.Key(item.text) == key
    {
      assert CandidateHolds(rules, BoundaryLane, candidates, rules.Key(item.text));
    }
  }

  ghost function LimitedCase(): CaseRecord {
    CaseRecord("case", 1, true, ["source"], Some("problem"), None, [Some("limit")], None, None, [], [], [])
  }

  ghost function Outage(): Evidence {
    Evidence("source", Payload(None, [], ["outage"], []))
  }

  lemma OutageIsNormal()
    ensures NormalizedStrings(OpenRules(), ["outage"]) == ["outage"]
  {
    assert ["outage"][..0] == [];
  }

  lemma OutageIsOffered()
    ensures RecoveryCandidates(OpenRules(), [Outage()])
         == [Candidate(BoundaryLane, Some("outage"), Some("source"), Entry(Findings, 0))]
  {
    OutageIsNormal();
    assert ["outage"][..0] == [] && [Outage()][..0] == [];
  }

  lemma LimitIsOffered()
    ensures CompletionCandidates(OpenRules(), LimitedCase(), [Outage()])
         == [Candidate(FactLane, Some("problem"), Some("source"), ProblemStatement),
             Candidate(BoundaryLane, Some("limit"), Some("source"), Entry(Constraints, 0)),
             Candidate(FactLane, None, Some("source"), Objective),
             Candidate(FactLane, Some("outage"), Some("source"), Entry(Findings, 0))]
  {
    OutageIsNormal();
    assert [Outage()][..0] == [];
  }

  /** The first boundary has the first id, and a text. */
  lemma FirstItem(rules: TextRules, caseId: string, candidates: seq<Candidate>)
    requires rules.Lawful()
    ensures var items := PushedAll(rules, caseId, EMPTY, candidates).boundaries;
            items != [] ==> items[0].id == SupportId(caseId, BoundaryLane, 0) && rules.trim(items[0].text) != ""
  {
    PushingNumbers(rules, caseId, BoundaryLane, candidates);
    ItemsMatchCandidates(rules, caseId, BoundaryLane, candidates);
    hide PushedAll, OnePerKey, AllStand, AllHeard, TextRules.Lawful;
    var items := PushedAll(rules, caseId, EMPTY, candidates).boundaries;
    assert items != [] ==> items[0] in items;
  }

  /** A text unlike that of any boundary has not been seen. */
  lemma KeyIsNew(rules: TextRules, caseId: string, candidates: seq<Candidate>, item: SupportItem)
    requires rules.Lawful()
    requires forall other <- PushedAll(rules, caseId, EMPTY, candidates).boundaries ::
               rules.Key(other.text) != rules.Key(item.text)
    ensures (BoundaryLane, rules.Key(item.text)) !in PushedAll(rules, caseId, EMPTY, candidates).seen
  {
    PushingNumbers(rules, caseId, BoundaryLane, candidates);
    hide PushedAll, Numbered, AllStand, AllHeard, TextRules.Lawful, TextRules.Key;
    assert !KeyIsHeld(rules, PushedAll(rules, caseId, EMPTY, candidates).boundaries, rules.Key(item.text));
  }

  lemma SharedIdIsNotDistinct(rules: TextRules, record: CaseRecord, lists: Lists, k: nat)
    requires lists.facts != [] && 0 < k < |lists.boundaries|
    requires lists.boundaries[0].id == lists.boundaries[k].id && lists.boundaries[0] != lists.boundaries[k]
    requires !rules.ProcessOnly(lists.boundaries[0].text) && !rules.ProcessOnly(lists.boundaries[k].text)
    ensures Finished(rules, record, lists).Success? && !IdsAreDistinct(Finished(rules, record, lists).value)
  {
    hide SuggestedApplicability;
    var kept := Bounded(rules, lists.boundaries);
    assert lists.boundaries[0] in kept && lists.boundaries[k] in kept;
    TwinsAreNotDistinct(lists.facts, kept, lists.boundaries[0], lists.boundaries[k]);
  }

  lemma TwinsAreNotDistinct(facts: seq<SupportItem>, boundaries: seq<SupportItem>, x: SupportItem, y: SupportItem)
    requires x in boundaries && y in boundaries && x != y && x.id == y.id
    ensures !Distinct(IdsOf(facts + boundaries))
  {
    var i :| 0 <= i < |boundaries| && boundaries[i] == x;
    var j :| 0 <= j < |boundaries| && boundaries[j] == y;
    var ids := IdsOf(facts + boundaries);
    assert ids[|facts| + i] == ids[|facts| + j];
  }

  lemma {:induction false} FirstSubstantiveLeads(rules: TextRules, items: seq<SupportItem>)
    requires items != [] && !rules.ProcessOnly(items[0].text) && !rules.Resolved(items[0].text)
    ensures Substantive(rules, items) != [] && Substantive(rules, items)[0] == items[0]
  {
    if |items| > 1 {
      FirstSubstantiveLeads(rules, items[..|items| - 1]);
    }
  }

  lemma {:induction false} LeaderIsKept(rules: TextRules, lists: Lists, items: seq<SupportItem>)
    requires items != [] && rules.trim(items[0].text) != "" && (BoundaryLane, rules.Key(items[0].text)) !in lists.seen
    ensures var after := PushedAllExisting(rules, lists, items);
            && lists.boundaries + [items[0]] <= after.boundaries
            && after.facts == lists.facts
    decreases |items|
  {
    if |items| > 1 {
      LeaderIsKept(rules, lists, items[..|items| - 1]);
    } else {
      assert items[..0] == [];
      assert PushedAllExisting(rules, lists, items[..0]) == lists;
    }
  }
}
