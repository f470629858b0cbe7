/**
 * What completing a case answers, said of the case and its evidence: which texts are offered, which of
 * them are kept and under which ids, what is suggested from them, and what the amended case says.
 */
module CompletionAnswers {
  import opened Common
  import opened CaseCompletion

  // ----- which texts are offered -----

  /** Trimmed, and without what is blank. */
  ghost function NonBlank(rules: TextRules, entries: seq<string>): seq<string> {
    if entries == [] then []
    else (if rules.trim(entries[0]) == "" then [] else [rules.trim(entries[0])]) + NonBlank(rules, entries[1..])
  }

  lemma {:induction false} NormalizedFrom(rules: TextRules, first: string, rest: seq<string>)
    ensures NormalizedStrings(rules, [first] + rest)
         == (if rules.trim(first) == "" then [] else [rules.trim(first)]) + NormalizedStrings(rules, rest)
    decreases |rest|
  {
    var all := [first] + rest;
    if rest == [] {
      assert all[..|all| - 1] == [];
    } else {
      var n := |rest| - 1;
      NormalizedFrom(rules, first, rest[..n]);
      assert all[..|all| - 1] == [first] + rest[..n] && all[|all| - 1] == rest[n];
    }
  }

  lemma {:induction false} NormalizedIsNonBlank(rules: TextRules, entries: seq<string>)
    ensures NormalizedStrings(rules, entries) == NonBlank(rules, entries)
  {
    if entries != [] {
      NormalizedIsNonBlank(rules, entries[1..]);
      NormalizedFrom(rules, entries[0], entries[1..]);
      assert entries == [entries[0]] + entries[1..];
    }
  }

  /** The texts of a list, offered to a lane with where they stand. */
  ghost predicate OffersList(offers: seq<Candidate>, lane: Lane, texts: seq<string>, ref: Option<string>,
                             list: SourceList)
  {
    && |offers| == |texts|
    && forall i :: 0 <= i < |texts| ==> offers[i] == Candidate(lane, Some(texts[i]), ref, Entry(list, i))
  }

  /** The problem as a fact, the lines of its failure and its constraints as boundaries, of the first evidence. */
  ghost predicate OffersCase(rules: TextRules, record: CaseRecord, offers: seq<Candidate>) {
    var ref := if |record.evidenceRefs| > 0 then Some(record.evidenceRefs[0]) else None;
    var lines :=
      if record.failureMode.Some? && rules.trim(record.failureMode.value) != ""
      then rules.lines(record.failureMode.value) else [];
    var n := 1 + |lines|;
    && |offers| == n + |record.constraints|
    && offers[0] == Candidate(FactLane, record.problemStatement, ref, ProblemStatement)
    && OffersList(offers[1..n], BoundaryLane, lines, ref, FailureLines)
    && forall i :: 0 <= i < |record.constraints| ==>
         offers[n + i] == Candidate(BoundaryLane, record.constraints[i], ref, Entry(Constraints, i))
  }

  /** The objective, the steps and the findings as facts, the blockers as boundaries. */
  ghost predicate OffersEvidence(rules: TextRules, evidence: Evidence, offers: seq<Candidate>) {
    match evidence.payload
    case Payload(objective, steps, findings, blockers) =>
      var ref := Some(evidence.id);
      exists s: seq<Candidate>, f: seq<Candidate>, b: seq<Candidate> ::
        && OffersList(s, FactLane, NonBlank(rules, steps), ref, StepsCompleted)
        && OffersList(f, FactLane, NonBlank(rules, findings), ref, Findings)
        && OffersList(b, BoundaryLane, NonBlank(rules, blockers), ref, Blockers)
        && offers == [Candidate(FactLane, objective, ref, Objective)] + s + f + b
    case _ => offers == []
  }

  /** The parts are offered one after the other. */
  ghost predicate Chains(parts: seq<seq<Candidate>>, offers: seq<Candidate>) {
    if parts == [] then offers == []
    else |parts[0]| <= |offers| && offers[..|parts[0]|] == parts[0] && Chains(parts[1..], offers[|parts[0]|..])
  }

  ghost predicate OffersAllEvidence(rules: TextRules, evidence: seq<Evidence>, offers: seq<Candidate>) {
    exists parts: seq<seq<Candidate>> :: PartsOf(rules, evidence, parts) && Chains(parts, offers)
  }

  /** What a build is offered: the case first, then its evidence in order. */
  ghost predicate OffersAll(rules: TextRules, record: CaseRecord, evidence: seq<Evidence>, offers: seq<Candidate>) {
    exists ofCase: seq<Candidate>, ofEvidence: seq<Candidate> ::
      && offers == ofCase + ofEvidence
      && OffersCase(rules, record, ofCase) && OffersAllEvidence(rules, evidence, ofEvidence)
  }

  lemma CaseIsOffered(rules: TextRules, record: CaseRecord)
    ensures OffersCase(rules, record, CaseCandidates(rules, record))
  {
    var offers := CaseCandidates(rules, record);
    var lines := LineCandidates(BoundaryLane, rules.StructuredLines(record.failureMode), CaseRef(record), FailureLines);
    assert offers[1..1 + |lines|] == lines;
  }

  lemma EvidenceIsOffered(rules: TextRules, evidence: Evidence)
    ensures OffersEvidence(rules, evidence, EvidenceCandidates(rules, evidence))
  {
    if evidence.payload.Payload? {
      NormalizedIsNonBlank(rules, evidence.payload.steps);
      NormalizedIsNonBlank(rules, evidence.payload.findings);
      NormalizedIsNonBlank(rules, evidence.payload.blockers);
      var ref := Some(evidence.id);
      var s := LineCandidates(FactLane, NormalizedStrings(rules, evidence.payload.steps), ref, StepsCompleted);
      var f := LineCandidates(FactLane, NormalizedStrings(rules, evidence.payload.findings), ref, Findings);
      var b := LineCandidates(BoundaryLane, NormalizedStrings(rules, evidence.payload.blockers), ref, Blockers);
      hide NormalizedStrings, NonBlank;
      assert OffersList(s, FactLane, NonBlank(rules, evidence.payload.steps), ref, StepsCompleted);
      assert OffersList(f, FactLane, NonBlank(rules, evidence.payload.findings), ref, Findings);
      assert OffersList(b, BoundaryLane, NonBlank(rules, evidence.payload.blockers), ref, Blockers);
      assert EvidenceCandidates(rules, evidence)
          == [Candidate(FactLane, evidence.payload.objective, ref, Objective)] + s + f + b;
    }
  }

  lemma {:induction false} ChainSnoc(parts: seq<seq<Candidate>>, offers: seq<Candidate>, last: seq<Candidate>)
    requires Chains(parts, offers)
    ensures Chains(parts + [last], offers + last)
  {
    var all := parts + [last];
    if parts == [] {
      assert all[1..] == [] && (offers + last)[|last|..] == [];
    } else {
      var n := |parts[0]|;
      ChainSnoc(parts[1..], offers[n..], last);
      assert all[1..] == parts[1..] + [last] && (offers + last)[n..] == offers[n..] + last;
      assert (offers + last)[..n] == offers[..n];
    }
  }

  /** Each part is what its evidence offers. */
  ghost predicate PartsOf(rules: TextRules, evidence: seq<Evidence>, parts: seq<seq<Candidate>>) {
    |parts| == |evidence| && forall i :: 0 <= i < |evidence| ==> OffersEvidence(rules, evidence[i], parts[i])
  }

  lemma OneMorePart(rules: TextRules, evidence: seq<Evidence>, parts: seq<seq<Candidate>>, last: Evidence,
                    part: seq<Candidate>)
    requires PartsOf(rules, evidence, parts) && OffersEvidence(rules, last, part)
    ensures PartsOf(rules, evidence + [last], parts + [part])
  {
    hide OffersEvidence;
  }

  lemma AllEvidenceSnoc(rules: TextRules, evidence: seq<Evidence>, last: Evidence)
    ensures AllEvidenceCandidates(rules, evidence + [last])
         == AllEvidenceCandidates(rules, evidence) + EvidenceCandidates(rules, last)
  {
    assert (evidence + [last])[..|evidence|] == evidence;
  }

  lemma {:induction false} AllEvidenceIsOffered(rules: TextRules, evidence: seq<Evidence>)
      returns (parts: seq<seq<Candidate>>)
    ensures PartsOf(rules, evidence, parts) && Chains(parts, AllEvidenceCandidates(rules, evidence))
  {
    hide PartsOf, OffersEvidence, EvidenceCandidates, AllEvidenceCandidates, Chains;
    if evidence == [] {
      parts := [];
      NoParts(rules);
    } else {
      var n := |evidence| - 1;
      var earlier := AllEvidenceIsOffered(rules, evidence[..n]);
      EvidenceIsOffered(rules, evidence[n]);
      OneMorePart(rules, evidence[..n], earlier, evidence[n], EvidenceCandidates(rules, evidence[n]));
      ChainSnoc(earlier, AllEvidenceCandidates(rules, evidence[..n]), EvidenceCandidates(rules, evidence[n]));
      AllEvidenceSnoc(rules, evidence[..n], evidence[n]);
      assert evidence == evidence[..n] + [evidence[n]];
      parts := earlier + [EvidenceCandidates(rules, evidence[n])];
    }
  }

  lemma NoParts(rules: TextRules)
    ensures PartsOf(rules, [], []) && Chains([], AllEvidenceCandidates(rules, []))
  {
  }

  lemma EverythingIsOffered(rules: TextRules, record: CaseRecord, evidence: seq<Evidence>)
    ensures OffersAll(rules, record, evidence, CompletionCandidates(rules, record, evidence))
  {
    hide OffersCase, OffersEvidence, Chains, AllEvidenceCandidates, CaseCandidates;
    CaseIsOffered(rules, record);
    var parts := AllEvidenceIsOffered(rules, evidence);
    assert OffersAllEvidence(rules, evidence, AllEvidenceCandidates(rules, evidence));
  }

  // ----- which offers are kept -----

  /** A text that says something, with the evidence it comes from. */
  ghost predicate IsUsable(rules: TextRules, lane: Lane, c: Candidate) {
    && c.lane == lane && c.text.Some? && rules.trim(c.text.value) != ""
    && c.evidenceRef.Some? && c.evidenceRef != Some("")
  }

  /** Two texts that differ in case and surrounding space only. */
  ghost predicate SaysTheSame(rules: TextRules, a: string, b: string) {
    rules.lower(rules.trim(a)) == rules.lower(rules.trim(b))
  }

  /** The first usable offer of its lane to say this. */
  ghost predicate IsFirst(rules: TextRules, lane: Lane, offers: seq<Candidate>, i: nat) {
    && i < |offers| && IsUsable(rules, lane, offers[i])
    && forall j: nat :: j < i && IsUsable(rules, lane, offers[j]) ==>
         !SaysTheSame(rules, offers[j].text.value, offers[i].text.value)
  }

  /** The item a usable offer becomes, numbered within its lane. */
  ghost predicate Becomes(rules: TextRules, caseId: string, lane: Lane, c: Candidate, k: nat, item: SupportItem)
    requires IsUsable(rules, lane, c)
  {
    && item.id == SupportId(caseId, lane, k) && item.text == rules.trim(c.text.value)
    && Some(item.evidenceRef) == c.evidenceRef && item.field == c.field
  }

  ghost predicate FirstsOf(rules: TextRules, lane: Lane, offers: seq<Candidate>, firsts: seq<nat>) {
    Increasing(firsts) && forall i: nat :: i in firsts <==> IsFirst(rules, lane, offers, i)
  }

  ghost predicate ItemsOf(rules: TextRules, caseId: string, lane: Lane, offers: seq<Candidate>, firsts: seq<nat>,
                          items: seq<SupportItem>)
  {
    && |items| == |firsts|
    && forall k: nat :: k < |items| ==>
         && firsts[k] < |offers| && IsUsable(rules, lane, offers[firsts[k]])
         && Becomes(rules, caseId, lane, offers[firsts[k]], k, items[k])
  }

  /** A lane keeps the first offer of each text, numbered in the order they were offered. */
  ghost predicate KeepsFirsts(rules: TextRules, caseId: string, lane: Lane, offers: seq<Candidate>,
                              items: seq<SupportItem>)
  {
    exists firsts: seq<nat> ::
      FirstsOf(rules, lane, offers, firsts) && ItemsOf(rules, caseId, lane, offers, firsts, items)
  }

  ghost predicate Heard(rules: TextRules, lane: Lane, offers: seq<Candidate>, text: string) {
    exists i: nat ::
      i < |offers| && IsUsable(rules, lane, offers[i]) && SaysTheSame(rules, offers[i].text.value, text)
  }

  lemma FirstsSnoc(rules: TextRules, lane: Lane, offers: seq<Candidate>, last: Candidate, i: nat)
    ensures IsFirst(rules, lane, offers + [last], i) <==>
              || IsFirst(rules, lane, offers, i)
              || (i == |offers| && IsUsable(rules, lane, last) && !Heard(rules, lane, offers, last.text.value))
  {
    hide IsUsable, SaysTheSame;
    var all := offers + [last];
    if i <= |offers| {
      assert forall j: nat :: j < i ==> all[j] == offers[j];
    }
  }

  lemma FirstOneMore(rules: TextRules, lane: Lane, offers: seq<Candidate>, last: Candidate, firsts: seq<nat>)
    requires FirstsOf(rules, lane, offers, firsts)
    ensures FirstsOf(rules, lane, offers + [last],
                     if IsUsable(rules, lane, last) && !Heard(rules, lane, offers, last.text.value)
                     then firsts + [|offers|] else firsts)
  {
    var n := |offers|;
    var isNew := IsUsable(rules, lane, last) && !Heard(rules, lane, offers, last.text.value);
    var more := if isNew then firsts + [n] else firsts;
    forall k | 0 <= k < |firsts|
      ensures firsts[k] < n
    {
      assert firsts[k] in firsts;
    }
    forall i: nat
      ensures IsFirst(rules, lane, offers + [last], i) <==> IsFirst(rules, lane, offers, i) || (i == n && isNew)
    {
      FirstsSnoc(rules, lane, offers, last, i);
    }
    hide IsFirst, IsUsable, Heard;
    assert forall i: nat :: i in more <==> i in firsts || (i == n && isNew);
  }

  lemma ItemsStay(rules: TextRules, caseId: string, lane: Lane, offers: seq<Candidate>, last: Candidate,
                  firsts: seq<nat>, items: seq<SupportItem>)
    requires ItemsOf(rules, caseId, lane, offers, firsts, items)
    ensures ItemsOf(rules, caseId, lane, offers + [last], firsts, items)
  {
    hide IsUsable, Becomes;
    assert forall k :: 0 <= k < |offers| ==> (offers + [last])[k] == offers[k];
  }

  lemma ItemOneMore(rules: TextRules, caseId: string, lane: Lane, offers: seq<Candidate>, last: Candidate,
                    firsts: seq<nat>, items: seq<SupportItem>, item: SupportItem)
    requires ItemsOf(rules, caseId, lane, offers, firsts, items)
    requires IsUsable(rules, lane, last) && Becomes(rules, caseId, lane, last, |items|, item)
    ensures ItemsOf(rules, caseId, lane, offers + [last], firsts + [|offers|], items + [item])
  {
    hide IsUsable, Becomes;
    assert (offers + [last])[|offers|] == last;
    assert forall k :: 0 <= k < |offers| ==> (offers + [last])[k] == offers[k];
  }

  /** The keys a lane has seen are those of the usable offers. */
  ghost predicate SeesOffers(rules: TextRules, lane: Lane, offers: seq<Candidate>, lists: Lists) {
    forall text: string ::
      (lane, rules.lower(rules.trim(text))) in lists.seen <==> Heard(rules, lane, offers, text)
  }

  lemma HeardOneMore(rules: TextRules, lane: Lane, offers: seq<Candidate>, last: Candidate, text: string)
    ensures Heard(rules, lane, offers + [last], text) <==>
              || Heard(rules, lane, offers, text)
              || (IsUsable(rules, lane, last) && SaysTheSame(rules, last.text.value, text))
  {
    hide IsUsable, SaysTheSame;
    var all := offers + [last];
    assert forall k :: 0 <= k < |offers| ==> all[k] == offers[k];
    assert all[|offers|] == last;
  }

  /** What pushing one candidate leaves of a lane. */
  ghost predicate Pushes(rules: TextRules, caseId: string, lane: Lane, before: Lists, c: Candidate, after: Lists) {
    if IsUsable(rules, lane, c) && (lane, rules.lower(rules.trim(c.text.value))) !in before.seen then
      && |after.Lane(lane)| == |before.Lane(lane)| + 1
      && after.Lane(lane) == before.Lane(lane) + [after.Lane(lane)[|before.Lane(lane)|]]
      && Becomes(rules, caseId, lane, c, |before.Lane(lane)|, after.Lane(lane)[|before.Lane(lane)|])
      && forall key: string ::
           (lane, key) in after.seen <==> (lane, key) in before.seen || key == rules.lower(rules.trim(c.text.value))
    else
      && after.Lane(lane) == before.Lane(lane)
      && forall key: string :: (lane, key) in after.seen <==> (lane, key) in before.seen
  }

  lemma PushedPushes(rules: TextRules, caseId: string, lane: Lane, lists: Lists, c: Candidate)
    ensures Pushes(rules, caseId, lane, lists, c, Pushed(rules, caseId, lists, c))
  {
  }

  lemma SeesOneMore(rules: TextRules, caseId: string, lane: Lane, offers: seq<Candidate>, lists: Lists, c: Candidate,
                    after: Lists)
    requires SeesOffers(rules, lane, offers, lists) && Pushes(rules, caseId, lane, lists, c, after)
    ensures SeesOffers(rules, lane, offers + [c], after)
  {
    hide Heard, Becomes;
    forall text: string
      ensures (lane, rules.lower(rules.trim(text))) in after.seen <==> Heard(rules, lane, offers + [c], text)
    {
      HeardOneMore(rules, lane, offers, c, text);
      assert (lane, rules.lower(rules.trim(text))) in lists.seen <==> Heard(rules, lane, offers, text);
      if IsUsable(rules, lane, c) {
        var said := c.text.value;
        assert (lane, rules.lower(rules.trim(said))) in lists.seen <==> Heard(rules, lane, offers, said);
      }
    }
  }

  lemma KeepsOneMore(rules: TextRules, caseId: string, lane: Lane, offers: seq<Candidate>, lists: Lists, c: Candidate,
                     after: Lists)
    requires SeesOffers(rules, lane, offers, lists) && Pushes(rules, caseId, lane, lists, c, after)
    requires KeepsFirsts(rules, caseId, lane, offers, lists.Lane(lane))
    ensures KeepsFirsts(rules, caseId, lane, offers + [c], after.Lane(lane))
  {
    hide Heard, Becomes, FirstsOf, ItemsOf, IsUsable;
    var items := lists.Lane(lane);
    var firsts: seq<nat> :|
      FirstsOf(rules, lane, offers, firsts) && ItemsOf(rules, caseId, lane, offers, firsts, items);
    FirstOneMore(rules, lane, offers, c, firsts);
    ItemsStay(rules, caseId, lane, offers, c, firsts, items);
    if IsUsable(rules, lane, c) {
      UsableHasText(rules, lane, c);
      assert (lane, rules.lower(rules.trim(c.text.value))) in lists.seen <==> Heard(rules, lane, offers, c.text.value);
      if !Heard(rules, lane, offers, c.text.value) {
        ItemOneMore(rules, caseId, lane, offers, c, firsts, items, after.Lane(lane)[|items|]);
      }
    }
  }

  lemma UsableHasText(rules: TextRules, lane: Lane, c: Candidate)
    requires IsUsable(rules, lane, c)
    ensures c.text.Some?
  {
  }

  /** Pushing what is offered keeps, in each lane, the first offer of each text. */
  lemma {:induction false} PushingKeepsFirsts(rules: TextRules, caseId: string, lane: Lane, offers: seq<Candidate>)
    ensures var lists := PushedAll(rules, caseId, EMPTY, offers);
            SeesOffers(rules, lane, offers, lists) && KeepsFirsts(rules, caseId, lane, offers, lists.Lane(lane))
    decreases |offers|
  {
    hide Pushed, Pushes, SeesOffers, KeepsFirsts;
    if offers == [] {
      NothingKept(rules, caseId, lane);
    } else {
      var n := |offers| - 1;
      var before, after := PushedAll(rules, caseId, EMPTY, offers[..n]), PushedAll(rules, caseId, EMPTY, offers);
      PushingKeepsFirsts(rules, caseId, lane, offers[..n]);
      PushedPushes(rules, caseId, lane, before, offers[n]);
      SeesOneMore(rules, caseId, lane, offers[..n], before, offers[n], after);
      KeepsOneMore(rules, caseId, lane, offers[..n], before, offers[n], after);
      assert offers == offers[..n] + [offers[n]];
    }
  }

  lemma NothingKept(rules: TextRules, caseId: string, lane: Lane)
    ensures SeesOffers(rules, lane, [], EMPTY) && KeepsFirsts(rules, caseId, lane, [], EMPTY.Lane(lane))
  {
    assert FirstsOf(rules, lane, [], []) && ItemsOf(rules, caseId, lane, [], [], []);
  }

  // ----- what recovery is offered and keeps -----

  ghost predicate LooksProcessOnly(rules: TextRules, text: string) {
    rules.processPhrase(rules.lower(rules.trim(text)))
  }

  ghost predicate LooksResolved(rules: TextRules, text: string) {
    rules.resolvedPhrase(rules.lower(rules.trim(text)))
  }

  /** A finding that reads like a boundary, and not like one that is resolved or about the process only. */
  ghost predicate LooksRecoverable(rules: TextRules, text: string) {
    var normalized := rules.lower(rules.trim(text));
    && normalized != "" && rules.recoverablePhrase(normalized)
    && !LooksResolved(rules, normalized) && !LooksProcessOnly(rules, normalized)
  }

  ghost predicate OffersFindings(rules: TextRules, findings: seq<string>, ref: string, offers: seq<Candidate>) {
    exists places: seq<nat> ::
      PlacesOf(findings, t => LooksRecoverable(rules, t), places) && FindingsAt(findings, ref, places, offers)
  }

  ghost predicate FindingsAt(findings: seq<string>, ref: string, places: seq<nat>, offers: seq<Candidate>) {
    && |offers| == |places|
    && forall k :: 0 <= k < |places| ==>
         && places[k] < |findings|
         && offers[k] == Candidate(BoundaryLane, Some(findings[places[k]]), Some(ref), Entry(Findings, places[k]))
  }

  /** The blockers, then the findings that look recoverable, all as boundaries. */
  ghost predicate OffersRecoverable(rules: TextRules, evidence: Evidence, offers: seq<Candidate>) {
    match evidence.payload
    case Payload(_, _, findings, blockers) =>
      exists b: seq<Candidate>, f: seq<Candidate> ::
        && offers == b + f
        && OffersList(b, BoundaryLane, NonBlank(rules, blockers), Some(evidence.id), Blockers)
        && OffersFindings(rules, NonBlank(rules, findings), evidence.id, f)
    case _ => offers == []
  }

  ghost predicate RecoveryPartsOf(rules: TextRules, evidence: seq<Evidence>, parts: seq<seq<Candidate>>) {
    |parts| == |evidence| && forall i :: 0 <= i < |evidence| ==> OffersRecoverable(rules, evidence[i], parts[i])
  }

  ghost predicate OffersAllRecoverable(rules: TextRules, evidence: seq<Evidence>, offers: seq<Candidate>) {
    exists parts: seq<seq<Candidate>> :: RecoveryPartsOf(rules, evidence, parts) && Chains(parts, offers)
  }

  lemma RecoverableExactly(rules: TextRules, text: string)
    ensures rules.Recoverable(text) <==> LooksRecoverable(rules, text)
  {
  }

  lemma FindingOneMore(findings: seq<string>, ref: string, places: seq<nat>, offers: seq<Candidate>, last: string)
    requires FindingsAt(findings, ref, places, offers)
    ensures FindingsAt(findings + [last], ref, places, offers)
    ensures FindingsAt(findings + [last], ref, places + [|findings|],
                       offers + [Candidate(BoundaryLane, Some(last), Some(ref), Entry(Findings, |findings|))])
  {
  }

  lemma FindingsOneMore(rules: TextRules, findings: seq<string>, ref: string, offers: seq<Candidate>, last: string)
    requires OffersFindings(rules, findings, ref, offers)
    ensures var c := Candidate(BoundaryLane, Some(last), Some(ref), Entry(Findings, |findings|));
            OffersFindings(rules, findings + [last], ref,
                           if rules.Recoverable(last) then offers + [c] else offers)
  {
    hide LooksRecoverable, FindingsAt, PlacesOf;
    var places: seq<nat> :|
      PlacesOf(findings, t => LooksRecoverable(rules, t), places) && FindingsAt(findings, ref, places, offers);
    RecoverableExactly(rules, last);
    PlaceOneMore(findings, t => LooksRecoverable(rules, t), places, last);
    FindingOneMore(findings, ref, places, offers, last);
  }

  lemma {:induction false} FindingsAreOffered(rules: TextRules, findings: seq<string>, ref: string)
    ensures OffersFindings(rules, findings, ref, RecoverableFindings(rules, findings, ref))
  {
    hide OffersFindings;
    if findings == [] {
      NoFindings(rules, ref);
    } else {
      var n := |findings| - 1;
      FindingsAreOffered(rules, findings[..n], ref);
      FindingsOneMore(rules, findings[..n], ref, RecoverableFindings(rules, findings[..n], ref), findings[n]);
      assert findings == findings[..n] + [findings[n]];
    }
  }

  lemma NoFindings(rules: TextRules, ref: string)
    ensures OffersFindings(rules, [], ref, RecoverableFindings(rules, [], ref))
  {
    assert PlacesOf<string>([], t => LooksRecoverable(rules, t), []) && FindingsAt([], ref, [], []);
  }

  lemma RecoverableIsOffered(rules: TextRules, evidence: Evidence)
    ensures OffersRecoverable(rules, evidence, RecoveryCandidatesOf(rules, evidence))
  {
    if evidence.payload.Payload? {
      NormalizedIsNonBlank(rules, evidence.payload.findings);
      NormalizedIsNonBlank(rules, evidence.payload.blockers);
      hide NormalizedStrings, NonBlank, OffersFindings, RecoverableFindings;
      var findings := NormalizedStrings(rules, evidence.payload.findings);
      var b := LineCandidates(BoundaryLane, NormalizedStrings(rules, evidence.payload.blockers), Some(evidence.id),
                              Blockers);
      FindingsAreOffered(rules, findings, evidence.id);
      assert OffersList(b, BoundaryLane, NonBlank(rules, evidence.payload.blockers), Some(evidence.id), Blockers);
    }
  }

  lemma OneMoreRecoveryPart(rules: TextRules, evidence: seq<Evidence>, parts: seq<seq<Candidate>>, last: Evidence,
                            part: seq<Candidate>)
    requires RecoveryPartsOf(rules, evidence, parts) && OffersRecoverable(rules, last, part)
    ensures RecoveryPartsOf(rules, evidence + [last], parts + [part])
  {
    hide OffersRecoverable;
  }

  lemma RecoverySnoc(rules: TextRules, evidence: seq<Evidence>, last: Evidence)
    ensures RecoveryCandidates(rules, evidence + [last])
         == RecoveryCandidates(rules, evidence) + RecoveryCandidatesOf(rules, last)
  {
    assert (evidence + [last])[..|evidence|] == evidence;
  }

  lemma {:induction false} AllRecoverableIsOffered(rules: TextRules, evidence: seq<Evidence>)
      returns (parts: seq<seq<Candidate>>)
    ensures RecoveryPartsOf(rules, evidence, parts) && Chains(parts, RecoveryCandidates(rules, evidence))
  {
    hide RecoveryPartsOf, OffersRecoverable, RecoveryCandidatesOf, RecoveryCandidates, Chains;
    if evidence == [] {
      parts := [];
      NoRecoveryParts(rules);
    } else {
      var n := |evidence| - 1;
      var earlier := AllRecoverableIsOffered(rules, evidence[..n]);
      RecoverableIsOffered(rules, evidence[n]);
      OneMoreRecoveryPart(rules, evidence[..n], earlier, evidence[n], RecoveryCandidatesOf(rules, evidence[n]));
      ChainSnoc(earlier, RecoveryCandidates(rules, evidence[..n]), RecoveryCandidatesOf(rules, evidence[n]));
      RecoverySnoc(rules, evidence[..n], evidence[n]);
      assert evidence == evidence[..n] + [evidence[n]];
      parts := earlier + [RecoveryCandidatesOf(rules, evidence[n])];
    }
  }

  lemma NoRecoveryParts(rules: TextRules)
    ensures RecoveryPartsOf(rules, [], []) && Chains([], RecoveryCandidates(rules, []))
  {
  }

  // ----- which boundaries are kept -----

  ghost predicate IsBounded(rules: TextRules, item: SupportItem) {
    !LooksProcessOnly(rules, item.text)
  }

  ghost predicate IsSubstantive(rules: TextRules, item: SupportItem) {
    !LooksResolved(rules, item.text) && !LooksProcessOnly(rules, item.text)
  }

  lemma {:induction false} BoundedPicks(rules: TextRules, items: seq<SupportItem>)
    ensures Picks(items, item => IsBounded(rules, item), Bounded(rules, items))
  {
    hide Picks;
    if items == [] {
      NothingPicked((item: SupportItem) => IsBounded(rules, item));
    } else {
      var n := |items| - 1;
      BoundedPicks(rules, items[..n]);
      PickOneMore(items[..n], item => IsBounded(rules, item), Bounded(rules, items[..n]), items[n]);
      assert items == items[..n] + [items[n]];
    }
  }

  lemma {:induction false} SubstantivePicks(rules: TextRules, items: seq<SupportItem>)
    ensures Picks(items, item => IsSubstantive(rules, item), Substantive(rules, items))
  {
    hide Picks;
    if items == [] {
      NothingPicked((item: SupportItem) => IsSubstantive(rules, item));
    } else {
      var n := |items| - 1;
      SubstantivePicks(rules, items[..n]);
      PickOneMore(items[..n], item => IsSubstantive(rules, item), Substantive(rules, items[..n]), items[n]);
      assert items == items[..n] + [items[n]];
    }
  }

  // ----- what is suggested -----

  ghost predicate PicksSubstantive(rules: TextRules, items: seq<SupportItem>, picked: seq<SupportItem>) {
    Picks(items, item => IsSubstantive(rules, item), picked)
  }

  /** The first two boundaries that are neither resolved nor process-only, or else the first two. */
  ghost predicate IsPrimary(rules: TextRules, boundaries: seq<SupportItem>, primary: seq<SupportItem>) {
    exists substantive: seq<SupportItem> ::
      && PicksSubstantive(rules, boundaries, substantive)
      && primary == FirstTwo(if substantive != [] then substantive else boundaries)
  }

  ghost function FirstTwo(items: seq<SupportItem>): seq<SupportItem> {
    if |items| >= 2 then [items[0], items[1]] else items
  }

  ghost predicate Cites(refs: seq<SupportId>, items: seq<SupportItem>) {
    |refs| == |items| && forall i :: 0 <= i < |refs| ==> refs[i] == items[i].id
  }

  /** The line the record names, or the leading fact. */
  ghost predicate SaysLine(said: string, line: Option<string>, fact: SupportItem) {
    said == if line.Some? && line != Some("") then line.value else fact.text
  }

  /** When to apply: the same intervention under the same boundaries, citing the leading fact and those boundaries. */
  ghost predicate SuggestsWhen(record: CaseRecord, fact: SupportItem, primary: seq<SupportItem>,
                               lines: seq<SuggestedLine>)
  {
    && |lines| == 2
    && lines[0].text.SameIntervention? && SaysLine(lines[0].text.line, record.actionLine, fact)
    && Cites(lines[0].supportRefs, [fact])
    && lines[1].text.SameBoundaries? && |lines[1].text.boundaries| == |primary|
    && (forall i :: 0 <= i < |primary| ==> lines[1].text.boundaries[i] == primary[i].text)
    && Cites(lines[1].supportRefs, primary)
  }

  /** When not to: once the first boundary is gone, or for another outcome, citing the boundaries. */
  ghost predicate SuggestsWhenNot(record: CaseRecord, fact: SupportItem, primary: seq<SupportItem>,
                                  lines: seq<SuggestedLine>)
  {
    && |lines| == 2 && primary != []
    && lines[0].text == BlockerRemoved(primary[0].text) && Cites(lines[0].supportRefs, primary)
    && lines[1].text.DifferentOutcome? && SaysLine(lines[1].text.line, record.outcomeLine, fact)
    && Cites(lines[1].supportRefs, primary)
  }

  ghost predicate Suggests(rules: TextRules, record: CaseRecord, facts: seq<SupportItem>,
                           boundaries: seq<SupportItem>, suggestion: Suggestion)
    requires facts != []
  {
    exists primary: seq<SupportItem> ::
      && IsPrimary(rules, boundaries, primary)
      && SuggestsWhen(record, facts[0], primary, suggestion.whenToApply)
      && SuggestsWhenNot(record, facts[0], primary, suggestion.whenNotToApply)
  }

  lemma PrimaryIsPrimary(rules: TextRules, boundaries: seq<SupportItem>)
    ensures IsPrimary(rules, boundaries, PrimaryBoundaries(rules, boundaries))
  {
    hide Picks, IsSubstantive, Substantive;
    SubstantivePicks(rules, boundaries);
    var substantive := Substantive(rules, boundaries);
    assert PicksSubstantive(rules, boundaries, substantive);
    assert PrimaryBoundaries(rules, boundaries) == FirstTwo(if substantive != [] then substantive else boundaries);
  }

  lemma ApplicabilityIsSuggested(rules: TextRules, record: CaseRecord, facts: seq<SupportItem>,
                                 boundaries: seq<SupportItem>)
    requires facts != [] && boundaries != []
    ensures Suggests(rules, record, facts, boundaries, SuggestedApplicability(rules, record, facts, boundaries))
  {
    hide IsPrimary, Substantive;
    PrimaryIsPrimary(rules, boundaries);
    var primary := PrimaryBoundaries(rules, boundaries);
    var suggestion := SuggestedApplicability(rules, record, facts, boundaries);
    assert SuggestsWhen(record, facts[0], primary, suggestion.whenToApply);
    assert SuggestsWhenNot(record, facts[0], primary, suggestion.whenNotToApply);
  }

  // ----- what the amended case says -----

  ghost predicate HasFailureLines(rules: TextRules, record: CaseRecord) {
    && record.failureMode.Some? && rules.trim(record.failureMode.value) != ""
    && rules.lines(record.failureMode.value) != []
  }

  ghost predicate SaysTexts(texts: seq<SuggestedText>, lines: seq<SuggestedLine>) {
    |texts| == |lines| && forall i :: 0 <= i < |texts| ==> texts[i] == lines[i].text
  }

  /** A recovered boundary becomes the failure of a case that named none. */
  ghost predicate Amends(rules: TextRules, record: CaseRecord, packet: CompletionPacket,
                         recovery: Option<seq<SupportItem>>, next: CaseRecord)
  {
    && next.version == record.version + 1 && next.openQuestions == []
    && SaysTexts(next.whenToApply, packet.suggestion.whenToApply)
    && SaysTexts(next.whenNotToApply, packet.suggestion.whenNotToApply)
    && (if recovery.Some? && recovery.value != [] && !HasFailureLines(rules, record) && recovery.value[0].text != ""
        then next.failureMode == Some(recovery.value[0].text) else next.failureMode == record.failureMode)
    && next.(version := record.version, openQuestions := record.openQuestions, whenToApply := record.whenToApply,
             whenNotToApply := record.whenNotToApply, failureMode := record.failureMode) == record
  }

  lemma AmendedAmends(rules: TextRules, record: CaseRecord, packet: CompletionPacket,
                      recovery: Option<seq<SupportItem>>)
    ensures Amends(rules, record, packet, recovery, Amended(rules, record, packet, recovery))
  {
  }

  // ----- what is validated -----

  ghost predicate CitesItem(ref: SupportId, items: seq<SupportItem>) {
    exists item <- items :: item.id == ref
  }

  ghost predicate CitesItems(packet: CompletionPacket, line: SuggestedLine) {
    && line.supportRefs != []
    && forall ref <- line.supportRefs :: CitesItem(ref, packet.facts) || CitesItem(ref, packet.boundaries)
  }

  ghost predicate CitesBoundary(packet: CompletionPacket, line: SuggestedLine) {
    exists ref <- line.supportRefs :: CitesItem(ref, packet.boundaries)
  }

  /** Every line cites something, and only items of the packet; every warning cites a boundary. */
  ghost predicate IsSupported(packet: CompletionPacket) {
    && (forall line <- packet.suggestion.whenToApply :: CitesItems(packet, line))
    && forall line <- packet.suggestion.whenNotToApply :: CitesItems(packet, line) && CitesBoundary(packet, line)
  }

  lemma IdsAreCited(items: seq<SupportItem>)
    ensures forall ref :: ref in IdSet(items) <==> CitesItem(ref, items)
  {
  }

  lemma LineSupport(packet: CompletionPacket, line: SuggestedLine)
    ensures LineIsSupported(line, IdSet(packet.facts) + IdSet(packet.boundaries)) <==> CitesItems(packet, line)
    ensures CitesOneOf(line, IdSet(packet.boundaries)) <==> CitesBoundary(packet, line)
  {
    IdsAreCited(packet.facts);
    IdsAreCited(packet.boundaries);
    hide CitesItem, IdSet;
  }

  /** What validation accepts. */
  lemma SupportedExactlyWhen(packet: CompletionPacket)
    ensures SuggestionIsSupported(packet) <==> IsSupported(packet)
  {
    hide LineIsSupported, CitesOneOf, CitesItems, CitesBoundary, IdSet;
    forall line | line in packet.suggestion.whenToApply + packet.suggestion.whenNotToApply
      ensures LineIsSupported(line, IdSet(packet.facts) + IdSet(packet.boundaries)) <==> CitesItems(packet, line)
      ensures CitesOneOf(line, IdSet(packet.boundaries)) <==> CitesBoundary(packet, line)
    {
      LineSupport(packet, line);
    }
  }

  /** Why a line is refused: it cites nothing, or something unknown. */
  lemma LinesAreRefusedForTheirReason(packet: CompletionPacket, line: SuggestedLine)
    ensures var known := IdSet(packet.facts) + IdSet(packet.boundaries);
            ValidateLine(line, known) == (if line.supportRefs == [] then Failure(LineWithoutSupport)
                                          else if CitesItems(packet, line) then Success(())
                                          else Failure(UnknownSupport))
  {
    IdsAreCited(packet.facts);
    IdsAreCited(packet.boundaries);
    hide CitesItem, IdSet;
  }

  // ----- the whole completion -----

  /** The boundaries of the first build: every bounded one of those kept. */
  ghost predicate KeepsBounded(rules: TextRules, caseId: string, offers: seq<Candidate>, boundaries: seq<SupportItem>) {
    exists kept: seq<SupportItem> ::
      && KeepsFirsts(rules, caseId, BoundaryLane, offers, kept)
      && Picks(kept, item => IsBounded(rules, item), boundaries)
  }

  /** The boundaries of a recovery: every substantive one of those kept from what is recoverable. */
  ghost predicate KeepsRecovered(rules: TextRules, caseId: string, evidence: seq<Evidence>,
                                 boundaries: seq<SupportItem>)
  {
    exists offers: seq<Candidate>, kept: seq<SupportItem> ::
      && OffersAllRecoverable(rules, evidence, offers)
      && KeepsFirsts(rules, caseId, BoundaryLane, offers, kept)
      && Picks(kept, item => IsSubstantive(rules, item), boundaries)
  }

  ghost predicate CompletionTells(rules: TextRules, record: CaseRecord, evidence: seq<Evidence>, x: Completion) {
    && x.packet.facts != [] && x.packet.boundaries != []
    && (exists offers: seq<Candidate> ::
          && OffersAll(rules, record, evidence, offers)
          && KeepsFirsts(rules, record.caseId, FactLane, offers, x.packet.facts)
          && if x.recovery.None? then KeepsBounded(rules, record.caseId, offers, x.packet.boundaries)
             else KeepsBounded(rules, record.caseId, offers, []))
    && (x.recovery.Some? ==>
          && x.recovery == Some(x.packet.boundaries)
          && KeepsRecovered(rules, record.caseId, evidence, x.packet.boundaries))
    && Suggests(rules, record, x.packet.facts, x.packet.boundaries, x.packet.suggestion)
    && IsSupported(x.packet)
    && Amends(rules, record, x.packet, x.recovery, x.nextRecord)
  }

  lemma GatheredKeeps(rules: TextRules, record: CaseRecord, evidence: seq<Evidence>)
    ensures var offers := CompletionCandidates(rules, record, evidence);
            var lists := Gathered(rules, record, evidence, []);
            && OffersAll(rules, record, evidence, offers)
            && KeepsFirsts(rules, record.caseId, FactLane, offers, lists.facts)
            && KeepsBounded(rules, record.caseId, offers, Bounded(rules, lists.boundaries))
  {
    hide OffersAll, KeepsFirsts, Picks, SeesOffers, PushedAll, CompletionCandidates;
    EverythingIsOffered(rules, record, evidence);
    PushingKeepsFirsts(rules, record.caseId, FactLane, CompletionCandidates(rules, record, evidence));
    PushingKeepsFirsts(rules, record.caseId, BoundaryLane, CompletionCandidates(rules, record, evidence));
    BoundedPicks(rules, Gathered(rules, record, evidence, []).boundaries);
  }

  lemma RecoveredKeeps(rules: TextRules, caseId: string, evidence: seq<Evidence>)
    requires RecoveryOf(rules, caseId, evidence).Success?
    ensures KeepsRecovered(rules, caseId, evidence, RecoveryOf(rules, caseId, evidence).value)
  {
    hide KeepsFirsts, Picks, SeesOffers, PushedAll, RecoveryCandidates, RecoveryPartsOf, Chains, Substantive;
    var parts := AllRecoverableIsOffered(rules, evidence);
    PushingKeepsFirsts(rules, caseId, BoundaryLane, RecoveryCandidates(rules, evidence));
    SubstantivePicks(rules, RecoveredLists(rules, caseId, evidence).boundaries);
    assert OffersAllRecoverable(rules, evidence, RecoveryCandidates(rules, evidence));
  }

  lemma {:induction false} ExistingKeepsFacts(rules: TextRules, lists: Lists, items: seq<SupportItem>)
    ensures PushedAllExisting(rules, lists, items).facts == lists.facts
    decreases |items|
  {
    if items != [] {
      ExistingKeepsFacts(rules, lists, items[..|items| - 1]);
    }
  }

  /** A build that fails without recovery and succeeds with one lacked bounded boundaries only. */
  lemma OnlyBoundariesWereMissing(rules: TextRules, record: CaseRecord, evidence: seq<Evidence>,
                                  recovered: seq<SupportItem>)
    requires CompletionOf(rules, record, evidence, []).Failure?
    requires CompletionOf(rules, record, evidence, recovered).Success?
    ensures CompletionOf(rules, record, evidence, []) == Failure(NoBoundaries)
    ensures Bounded(rules, Gathered(rules, record, evidence, []).boundaries) == []
    ensures CompletionOf(rules, record, evidence, recovered).value.facts == Gathered(rules, record, evidence, []).facts
  {
    hide CompletionCandidates, PushedAll, Bounded;
    var lists := PushedAll(rules, record.caseId, EMPTY, CompletionCandidates(rules, record, evidence));
    ExistingKeepsFacts(rules, lists, recovered);
    ExistingKeepsFacts(rules, lists, []);
  }

  /** A completion tells what the case and its evidence offer, and amends the case accordingly. */
  lemma CompletionsTell(rules: TextRules, record: CaseRecord, evidence: seq<Evidence>, x: Completion)
    requires IsCompletionOf(rules, record, evidence, x)
    ensures CompletionTells(rules, record, evidence, x)
  {
    hide OffersAll, KeepsFirsts, KeepsBounded, KeepsRecovered, Suggests, IsSupported, Amends, CompletionCandidates,
         Gathered, SuggestedApplicability, Amended, IdsAreDistinct, SuggestionIsSupported, RecoveryOf;
    GatheredKeeps(rules, record, evidence);
    SupportedExactlyWhen(x.packet);
    AmendedAmends(rules, record, x.packet, x.recovery);
    ApplicabilityIsSuggested(rules, record, x.packet.facts, x.packet.boundaries);
    if x.recovery.Some? {
      RecoveredKeeps(rules, record.caseId, evidence);
      OnlyBoundariesWereMissing(rules, record, evidence, x.recovery.value);
    }
  }
}
