/**
 What each operation changes in a case seed, and which packets a run of operations accepts, said of the
 operations and of the seed before and after them.
 */
module SeedEffects {
  import opened Common
  import opened CaseSeeds

  /** A seed is ready for review exactly when it names the evidence of its run. */
  ghost predicate FollowsLinks(status: SeedStatus, links: EvidenceLinks) {
    status == if Named(links.run) then ReadyForReview else PendingEvidence
  }

  // ---------------------------------------------------------------- building and upserting

  ghost predicate IsCandidate(runRef: string, record: RunRecord) {
    runRef != "" && record.closeoutDecision == "candidate" && record.projectId != "" && record.sessionRef != ""
  }

  /** The first revision of a seed, with everything its run says and nothing else. */
  ghost predicate FirstSeed(runRef: string, record: RunRecord, runEvidenceRef: Option<string>,
                            workspaceId: Option<string>, sourceHash: Option<string>, now: int, seed: Seed)
  {
    && seed.id == SeedIdOf(runRef) && seed.runRef == runRef && seed.sessionRef == record.sessionRef
    && seed.threadRef == (if Named(record.threadRef) then record.threadRef else None)
    && seed.projectId == record.projectId && seed.workspaceId == workspaceId
    && seed.packet == record.seed && seed.packetHash == Sha256Of(record.seed) && seed.sourceHash == sourceHash
    && seed.links == EvidenceLinks(runEvidenceRef, None, []) && FollowsLinks(seed.status, seed.links)
    && seed.importedAt == now && seed.lastSeenAt == now && seed.revision == 1 && seed.previousHashes == []
  }

  /** A seed is built from a closed-out candidate, and every other run is refused for its reason. */
  lemma BuildsCandidatesOnly(runRef: string, record: RunRecord, runEvidenceRef: Option<string>,
                             workspaceId: Option<string>, sourceHash: Option<string>, now: int)
    ensures var built := BuildCaseSeed(runRef, record, runEvidenceRef, workspaceId, sourceHash, now);
            && (built.Success? <==> IsCandidate(runRef, record))
            && (built.Success? ==>
                  FirstSeed(runRef, record, runEvidenceRef, workspaceId, sourceHash, now, built.value))
            && (built == Failure(NotACandidate) <==> runRef != "" && record.closeoutDecision != "candidate")
            && (built.Failure? ==> built.error == NotACandidate || built.error == EmptyArgument)
  {
  }

  /** What was there first stays; what is missing is taken over. */
  ghost predicate FillsIn<T>(before: Option<T>, given: Option<T>, after: Option<T>) {
    after == if before.Some? then before else given
  }

  ghost predicate JoinsLinks(before: EvidenceLinks, run: Option<string>, after: EvidenceLinks) {
    FillsIn(before.run, run, after.run) && after.session == before.session && after.chats == before.chats
  }

  /** The same packet seen again: only links, source, workspace and the last sighting may change. */
  ghost predicate SeenAgain(before: Seed, next: Seed, after: Seed) {
    && JoinsLinks(before.links, next.links.run, after.links)
    && after.workspaceId == (if next.workspaceId.Some? then next.workspaceId else before.workspaceId)
    && FillsIn(before.sourceHash, next.sourceHash, after.sourceHash)
    && (if before.status == Compiled then after.status == Compiled else FollowsLinks(after.status, after.links))
    && after.lastSeenAt == next.lastSeenAt
    && after.(links := before.links, workspaceId := before.workspaceId, sourceHash := before.sourceHash,
              status := before.status, lastSeenAt := before.lastSeenAt) == before
  }

  /** A changed packet: one revision more, and the packet before it is remembered once. */
  ghost predicate Revised(before: Seed, next: Seed, after: Seed) {
    && JoinsLinks(before.links, next.links.run, after.links) && FollowsLinks(after.status, after.links)
    && after.revision == before.revision + 1 && after.importedAt == before.importedAt && after.id == before.id
    && after.previousHashes == before.previousHashes
                               + (if before.packetHash in before.previousHashes then [] else [before.packetHash])
    && after.runRef == next.runRef && after.sessionRef == next.sessionRef && after.threadRef == next.threadRef
    && after.projectId == next.projectId && after.workspaceId == next.workspaceId
    && after.packet == next.packet && after.packetHash == next.packetHash && after.sourceHash == next.sourceHash
    && after.lastSeenAt == next.lastSeenAt
  }

  ghost predicate Upserts(existing: Option<Seed>, next: Seed, upsert: Upsert) {
    if existing.None? then upsert == CreatedSeed(next)
    else if existing.value.packet == next.packet then
      upsert.SeenExisting? && SeenAgain(existing.value, next, upsert.seed)
    else if existing.value.status == Compiled then
      upsert == CompiledConflict(existing.value, Sha256Of(next.packet))
    else upsert.UpdatedSeed? && Revised(existing.value, next, upsert.seed)
  }

  lemma UpsertHasItsEffect(id: SeedId, existing: Option<Seed>, next: Seed)
    requires existing.Some? ==> WellKept(id, existing.value)
    requires Fresh(id, next)
    ensures Upserts(existing, next, UpsertSeed(existing, next))
  {
    hide UniqueNonEmpty, Distinct;
    if existing.Some? {
      MergingNoChats(existing.value.links, next.links);
    }
  }

  // ---------------------------------------------------------------- attaching and compiling

  /** What an offer meets: another seed, the same evidence, other evidence, or room for it. */
  lemma FatesExactly(offer: Offer, seed: Seed)
    ensures var session := seed.links.session;
            var related := if offer.ToSession? then seed.sessionRef == offer.ref else seed.threadRef == Some(offer.ref);
            var fate := FateOf(offer, seed);
            && (fate == Unrelated <==> !related)
            && (fate == SeenBefore <==>
                  related && if offer.ToSession? then session == Some(offer.evidence)
                             else offer.evidence in seed.links.chats)
            && (fate == Conflicting <==>
                  related && offer.ToSession? && Named(session) && session != Some(offer.evidence))
  {
  }

  ghost predicate AttachesSession(before: Seed, sessionRef: string, evidenceRef: string, now: int, after: Seed) {
    if before.sessionRef == sessionRef && !Named(before.links.session) then
      after == before.(links := before.links.(session := Some(evidenceRef)), lastSeenAt := now)
    else after == before
  }

  ghost predicate AttachesChat(before: Seed, threadRef: string, evidenceRef: string, now: int, after: Seed) {
    if before.threadRef == Some(threadRef) && evidenceRef !in before.links.chats then
      after == before.(links := before.links.(chats := before.links.chats + [evidenceRef]), lastSeenAt := now)
    else after == before
  }

  /** What an operation does to the seed of one id. */
  ghost predicate Steps(id: SeedId, before: Option<Seed>, op: Operation, after: Option<Seed>) {
    match op
    case UpsertFromRun(runRef, record, runEvidenceRef, workspaceId, sourceHash, now) =>
      if id != SeedIdOf(runRef) || !IsCandidate(runRef, record) then after == before
      else
        exists next, upsert ::
          && FirstSeed(runRef, record, runEvidenceRef, workspaceId, sourceHash, now, next)
          && Upserts(before, next, upsert) && after == Some(upsert.seed)
    case AttachSessionEvidence(sessionRef, evidenceRef, now) =>
      if before.None? || sessionRef == "" || evidenceRef == "" then after == before
      else after.Some? && AttachesSession(before.value, sessionRef, evidenceRef, now, after.value)
    case AttachChatEvidence(threadRef, evidenceRef, now) =>
      if before.None? || threadRef == "" || evidenceRef == "" then after == before
      else after.Some? && AttachesChat(before.value, threadRef, evidenceRef, now, after.value)
    case MarkCompiled(compiled, now) =>
      if before.None? || compiled != id then after == before
      else after == Some(before.value.(status := Compiled, lastSeenAt := now))
  }

  /** Every operation has its effect on every seed a store may hold. */
  lemma StepsHaveTheirEffect(id: SeedId, seed: Option<Seed>, op: Operation)
    requires seed.Some? ==> WellKept(id, seed.value)
    ensures Steps(id, seed, op, StepSeed(id, seed, op))
  {
    hide UpsertSeed, BuildCaseSeed, Upserts, FirstSeed, WellKept, Fresh;
    if op.UpsertFromRun? {
      var built := BuildCaseSeed(op.runRef, op.record, op.runEvidenceRef, op.workspaceId, op.sourceHash, op.now);
      BuildsCandidatesOnly(op.runRef, op.record, op.runEvidenceRef, op.workspaceId, op.sourceHash, op.now);
      BuiltIsFresh(op.runRef, op.record, op.runEvidenceRef, op.workspaceId, op.sourceHash, op.now);
      if built.Success? {
        FirstIsOfItsRun(op, built.value);
        if built.value.id == id {
          UpsertHasItsEffect(id, seed, built.value);
        }
      }
    }
  }

  lemma FirstIsOfItsRun(op: Operation, seed: Seed)
    requires op.UpsertFromRun?
    requires FirstSeed(op.runRef, op.record, op.runEvidenceRef, op.workspaceId, op.sourceHash, op.now, seed)
    ensures seed.id == SeedIdOf(op.runRef) && seed.packet == op.record.seed
  {
  }

  // ---------------------------------------------------------------- the packets of a run of operations

  /** The packet an operation offers to the seed of an id. */
  ghost function Offers(id: SeedId, op: Operation): Option<Json> {
    if op.UpsertFromRun? && id == SeedIdOf(op.runRef) && IsCandidate(op.runRef, op.record) then Some(op.record.seed)
    else None
  }

  /** The packets accepted for an id: the first one, and each other one until the seed is compiled. */
  ghost function Packets(id: SeedId, ops: seq<Operation>): seq<Json> {
    if ops == [] then []
    else
      var n := |ops| - 1;
      var earlier := Packets(id, ops[..n]);
      var offered := Offers(id, ops[n]);
      if offered.Some?
         && (earlier == [] || (offered.value != earlier[|earlier| - 1] && !IsFrozen(id, ops[..n])))
      then earlier + [offered.value] else earlier
  }

  /** The seed was compiled at some point after it was created. */
  ghost predicate IsFrozen(id: SeedId, ops: seq<Operation>) {
    exists j :: 0 <= j < |ops| && ops[j].MarkCompiled? && ops[j].id == id && Packets(id, ops[..j]) != []
  }

  lemma FrozenSnoc(id: SeedId, ops: seq<Operation>)
    requires ops != []
    ensures var n := |ops| - 1;
            IsFrozen(id, ops) <==>
              IsFrozen(id, ops[..n]) || (ops[n].MarkCompiled? && ops[n].id == id && Packets(id, ops[..n]) != [])
  {
    hide Packets;
    var n := |ops| - 1;
    if j :| 0 <= j < |ops| && ops[j].MarkCompiled? && ops[j].id == id && Packets(id, ops[..j]) != [] {
      if j < n {
        assert ops[..n][..j] == ops[..j];
      }
    }
    if j :| 0 <= j < n && ops[j].MarkCompiled? && ops[j].id == id && Packets(id, ops[..n][..j]) != [] {
      assert ops[..n][..j] == ops[..j];
    }
  }

  /** A seed stands for the packets accepted for it. */
  ghost predicate StandsFor(seed: Option<Seed>, packets: seq<Json>, frozen: bool) {
    && (seed.None? <==> packets == [])
    && (seed.Some? ==>
          && seed.value.packet == packets[|packets| - 1] && seed.value.revision == |packets|
          && (seed.value.status == Compiled <==> frozen)
          && (forall hash ::
                hash in seed.value.previousHashes || hash == seed.value.packetHash <==> hash.packet in packets))
  }

  lemma OfferedStands(id: SeedId, seed: Option<Seed>, op: Operation, packets: seq<Json>, frozen: bool,
                      next: Seed, upsert: Upsert)
    requires seed.Some? ==> WellKept(id, seed.value)
    requires StandsFor(seed, packets, frozen) && (frozen ==> packets != [])
    requires op.UpsertFromRun? && Upserts(seed, next, upsert)
    requires FirstSeed(op.runRef, op.record, op.runEvidenceRef, op.workspaceId, op.sourceHash, op.now, next)
    ensures StandsFor(Some(upsert.seed),
                      if packets == [] || (next.packet != packets[|packets| - 1] && !frozen)
                      then packets + [next.packet] else packets, frozen)
  {
    hide Distinct;
    forall hash: PacketHash
      ensures hash == Sha256Of(hash.packet)
    {
    }
  }

  lemma OtherwiseStands(id: SeedId, seed: Option<Seed>, op: Operation, packets: seq<Json>, frozen: bool,
                        after: Option<Seed>)
    requires StandsFor(seed, packets, frozen) && Steps(id, seed, op, after) && Offers(id, op).None?
    ensures StandsFor(after, packets, frozen || (op.MarkCompiled? && op.id == id && packets != []))
  {
  }

  lemma StepStands(id: SeedId, seed: Option<Seed>, op: Operation, packets: seq<Json>, frozen: bool,
                   after: Option<Seed>)
    requires seed.Some? ==> WellKept(id, seed.value)
    requires StandsFor(seed, packets, frozen) && (frozen ==> packets != []) && Steps(id, seed, op, after)
    ensures var offered := Offers(id, op);
            var accepted := offered.Some?
                            && (packets == [] || (offered.value != packets[|packets| - 1] && !frozen));
            StandsFor(after, if accepted then packets + [offered.value] else packets,
                      frozen || (op.MarkCompiled? && op.id == id && packets != []))
  {
    hide StandsFor, Upserts, FirstSeed, WellKept;
    if Offers(id, op).Some? {
      var next, upsert :|
        && FirstSeed(op.runRef, op.record, op.runEvidenceRef, op.workspaceId, op.sourceHash, op.now, next)
        && Upserts(seed, next, upsert) && after == Some(upsert.seed);
      FirstIsOfItsRun(op, next);
      OfferedStands(id, seed, op, packets, frozen, next, upsert);
    } else {
      OtherwiseStands(id, seed, op, packets, frozen, after);
    }
  }

  lemma {:induction false} OnlyCreatedIsFrozen(id: SeedId, ops: seq<Operation>)
    ensures IsFrozen(id, ops) ==> Packets(id, ops) != []
    decreases |ops|
  {
    if ops != [] {
      var n := |ops| - 1;
      OnlyCreatedIsFrozen(id, ops[..n]);
      FrozenSnoc(id, ops);
      hide IsFrozen;
    }
  }

  /**
   Over any run from an empty store, a seed holds the last packet accepted for it; its revision counts
   them, its hashes are theirs, and it is compiled exactly when it was compiled after it was created.
   */
  lemma {:induction false} RunsStandForTheirPackets(id: SeedId, ops: seq<Operation>)
    ensures StandsFor(RunSeed(id, None, ops), Packets(id, ops), IsFrozen(id, ops))
    decreases |ops|
  {
    if ops != [] {
      var n := |ops| - 1;
      var before := RunSeed(id, None, ops[..n]);
      hide StandsFor, StepSeed, WellKept, IsFrozen, Steps, Offers;
      RunsStandForTheirPackets(id, ops[..n]);
      RunsAccountForPackets(id, ops[..n]);
      OnlyCreatedIsFrozen(id, ops[..n]);
      FrozenSnoc(id, ops);
      StepsHaveTheirEffect(id, before, ops[n]);
      StepStands(id, before, ops[n], Packets(id, ops[..n]), IsFrozen(id, ops[..n]), RunSeed(id, None, ops));
    }
  }
}
