/**
 Case seeds: one staged seed per run, upserted as the run is seen again, linked to evidence as it
 arrives, and frozen when it is compiled into a case.
 */
module CaseSeeds {
  import opened Common

  type Json = string

  /** Digests are told apart by what they digest. */
  datatype SeedId = SeedIdOf(runRef: string)
  datatype PacketHash = Sha256Of(packet: Json)

  datatype EvidenceLinks = EvidenceLinks(run: Option<string>, session: Option<string>, chats: seq<string>)

  datatype SeedStatus = PendingEvidence | ReadyForReview | Compiled

  datatype Seed = Seed(
    id: SeedId, runRef: string, sessionRef: string, threadRef: Option<string>, projectId: string,
    workspaceId: Option<string>,
    packet: Json, packetHash: PacketHash, sourceHash: Option<string>, links: EvidenceLinks, status: SeedStatus,
    importedAt: int, lastSeenAt: int, revision: nat, previousHashes: seq<PacketHash>)

  datatype RunRecord = RunRecord(closeoutDecision: string, seed: Json, projectId: string, sessionRef: string,
                                 threadRef: Option<string>)

  datatype SeedError = EmptyArgument | NotACandidate | SeedNotFound

  datatype Upsert = CreatedSeed(seed: Seed) | SeenExisting(seed: Seed)
    | CompiledConflict(seed: Seed, attempted: PacketHash) | UpdatedSeed(seed: Seed)

  datatype AttachCounts = AttachCounts(matched: nat, attached: nat, seenExisting: nat, conflicts: nat)

  // ---------------------------------------------------------------- pure parts

  function UniqueNonEmpty(values: seq<string>): seq<string> {
    if values == [] then []
    else
      var earlier, last := UniqueNonEmpty(values[..|values| - 1]), values[|values| - 1];
      if last == "" || last in earlier then earlier else earlier + [last]
  }

  function AppendUnique(hashes: seq<PacketHash>, hash: PacketHash): seq<PacketHash> {
    if hash in hashes then hashes else hashes + [hash]
  }

  function OrElse<T>(first: Option<T>, second: Option<T>): Option<T> {
    if first.Some? then first else second
  }

  function MergeEvidenceLinks(existing: EvidenceLinks, next: EvidenceLinks): EvidenceLinks {
    EvidenceLinks(OrElse(existing.run, next.run), OrElse(existing.session, next.session),
                  UniqueNonEmpty(existing.chats + next.chats))
  }

  function ResolveSeedStatus(links: EvidenceLinks): SeedStatus {
    if links.run.Some? && links.run.value != "" then ReadyForReview else PendingEvidence
  }

  function BuildCaseSeed(runRef: string, record: RunRecord, runEvidenceRef: Option<string>, workspaceId: Option<string>,
                         sourceHash: Option<string>, now: int): Result<Seed, SeedError> {
    if runRef == "" then Failure(EmptyArgument)
    else if record.closeoutDecision != "candidate" then Failure(NotACandidate)
    else if record.projectId == "" || record.sessionRef == "" then Failure(EmptyArgument)
    else
      var links := EvidenceLinks(runEvidenceRef, None, []);
      var thread := if record.threadRef == Some("") then None else record.threadRef;
      Success(Seed(SeedIdOf(runRef), runRef, record.sessionRef, thread, record.projectId, workspaceId, record.seed,
                   Sha256Of(record.seed), sourceHash, links, ResolveSeedStatus(links), now, now, 1, []))
  }

  function UpsertSeed(existing: Option<Seed>, next: Seed): Upsert {
    if existing.None? then CreatedSeed(next)
    else
      var seed := existing.value;
      var merged := MergeEvidenceLinks(seed.links, next.links);
      if seed.packetHash == next.packetHash then
        SeenExisting(seed.(workspaceId := OrElse(next.workspaceId, seed.workspaceId),
                           sourceHash := OrElse(seed.sourceHash, next.sourceHash),
                           links := merged,
                           status := if seed.status == Compiled then Compiled else ResolveSeedStatus(merged),
                           lastSeenAt := next.lastSeenAt))
      else if seed.status == Compiled then CompiledConflict(seed, next.packetHash)
      else
        UpdatedSeed(seed.(runRef := next.runRef, sessionRef := next.sessionRef, threadRef := next.threadRef,
                          projectId := next.projectId, workspaceId := next.workspaceId, packet := next.packet,
                          packetHash := next.packetHash, sourceHash := next.sourceHash,
                          links := merged, status := ResolveSeedStatus(merged), lastSeenAt := next.lastSeenAt,
                          revision := seed.revision + 1,
                          previousHashes := AppendUnique(seed.previousHashes, seed.packetHash)))
  }

  ghost function AttachSession(seed: Seed, sessionRef: string, evidenceRef: string, now: int): Seed {
    if seed.sessionRef != sessionRef || (seed.links.session.Some? && seed.links.session.value != "") then seed
    else seed.(links := seed.links.(session := Some(evidenceRef)), lastSeenAt := now)
  }

  ghost function AttachChat(seed: Seed, threadRef: string, evidenceRef: string, now: int): Seed {
    if seed.threadRef != Some(threadRef) || evidenceRef in seed.links.chats then seed
    else seed.(links := seed.links.(chats := seed.links.chats + [evidenceRef]), lastSeenAt := now)
  }

  // ---------------------------------------------------------------- one seed over a run of operations

  datatype Operation =
    | UpsertFromRun(runRef: string, record: RunRecord, runEvidenceRef: Option<string>, workspaceId: Option<string>,
                    sourceHash: Option<string>, now: int)
    | AttachSessionEvidence(sessionRef: string, evidenceRef: string, now: int)
    | AttachChatEvidence(threadRef: string, evidenceRef: string, now: int)
    | MarkCompiled(id: SeedId, now: int)

  ghost function SeedOf(upsert: Upsert): Seed {
    upsert.seed
  }

  /** What an operation on the store does to the seed of one id. */
  ghost function StepSeed(id: SeedId, seed: Option<Seed>, op: Operation): Option<Seed> {
    match op
    case UpsertFromRun(runRef, record, runEvidenceRef, workspaceId, sourceHash, now) =>
      var next := BuildCaseSeed(runRef, record, runEvidenceRef, workspaceId, sourceHash, now);
      if next.Failure? || next.value.id != id then seed else Some(SeedOf(UpsertSeed(seed, next.value)))
    case AttachSessionEvidence(sessionRef, evidenceRef, now) =>
      if seed.None? || sessionRef == "" || evidenceRef == "" then seed
      else Some(AttachSession(seed.value, sessionRef, evidenceRef, now))
    case AttachChatEvidence(threadRef, evidenceRef, now) =>
      if seed.None? || threadRef == "" || evidenceRef == "" then seed
      else Some(AttachChat(seed.value, threadRef, evidenceRef, now))
    case MarkCompiled(compiled, now) =>
      if seed.None? || compiled != id then seed else Some(seed.value.(status := Compiled, lastSeenAt := now))
  }

  ghost function RunSeed(id: SeedId, seed: Option<Seed>, ops: seq<Operation>): Option<Seed> {
    if ops == [] then seed else StepSeed(id, RunSeed(id, seed, ops[..|ops| - 1]), ops[|ops| - 1])
  }

  /** The packets accepted for a seed over a run from nothing: the first, then every accepted change. */
  ghost function AcceptedHashes(id: SeedId, ops: seq<Operation>): seq<PacketHash> {
    if ops == [] then []
    else
      var before, after := RunSeed(id, None, ops[..|ops| - 1]), RunSeed(id, None, ops);
      AcceptedHashes(id, ops[..|ops| - 1])
      + if after.Some? && (before.None? || before.value.packetHash != after.value.packetHash) then
        [after.value.packetHash]
        else []
  }

  lemma {:induction false} UniqueKeepsDistinct(values: seq<string>)
    requires Distinct(values) && "" !in values
    ensures UniqueNonEmpty(values) == values
  {
    if values != [] {
      UniqueKeepsDistinct(values[..|values| - 1]);
      assert values == values[..|values| - 1] + [values[|values| - 1]];
    }
  }

  ghost predicate WellKept(id: SeedId, seed: Seed) {
    && seed.id == id
    && seed.packetHash == Sha256Of(seed.packet)
    && Distinct(seed.links.chats) && "" !in seed.links.chats
    && seed.links.session != Some("")
    && (seed.status != Compiled ==> seed.status == ResolveSeedStatus(seed.links))
    && seed.revision >= 1
    && Distinct(seed.previousHashes)
  }

  /** What later operations may not take back from a seed. */
  ghost predicate Preserves(before: Seed, after: Seed) {
    && (before.links.run.Some? ==> after.links.run == before.links.run)
    && (before.links.session.Some? ==> after.links.session == before.links.session)
    && before.links.chats <= after.links.chats
    && (before.status == Compiled ==>
          after.status == Compiled && after.packet == before.packet && after.packetHash == before.packetHash
            && after.revision == before.revision)
    && before.revision <= after.revision
  }

  lemma MergingNoChats(existing: EvidenceLinks, next: EvidenceLinks)
    requires Distinct(existing.chats) && "" !in existing.chats && next.chats == []
    ensures MergeEvidenceLinks(existing, next).chats == existing.chats
  {
    UniqueKeepsDistinct(existing.chats);
    assert existing.chats + [] == existing.chats;
  }

  lemma SnocStaysDistinct<T>(s: seq<T>, x: T)
    requires Distinct(s) && x !in s
    ensures Distinct(s + [x])
  {
  }

  /** A seed as a run builds it: well kept, with no session and no chats yet. */
  ghost predicate Fresh(id: SeedId, seed: Seed) {
    WellKept(id, seed) && seed.links.chats == [] && seed.links.session.None?
  }

  lemma BuiltIsFresh(runRef: string, record: RunRecord, runEvidenceRef: Option<string>, workspaceId: Option<string>,
                     sourceHash: Option<string>, now: int)
    ensures var built := BuildCaseSeed(runRef, record, runEvidenceRef, workspaceId, sourceHash, now);
            built.Success? ==> Fresh(built.value.id, built.value)
  {
  }

  lemma UpsertPreserves(id: SeedId, seed: Seed, next: Seed)
    requires WellKept(id, seed) && Fresh(id, next)
    ensures var after := SeedOf(UpsertSeed(Some(seed), next)); WellKept(id, after) && Preserves(seed, after)
  {
    MergingNoChats(seed.links, next.links);
    if seed.packetHash !in seed.previousHashes {
      SnocStaysDistinct(seed.previousHashes, seed.packetHash);
    }
    hide UniqueNonEmpty, Distinct;
  }

  lemma AttachSessionPreserves(id: SeedId, seed: Seed, sessionRef: string, evidenceRef: string, now: int)
    requires WellKept(id, seed) && evidenceRef != ""
    ensures var after := AttachSession(seed, sessionRef, evidenceRef, now);
            WellKept(id, after) && Preserves(seed, after)
  {
    hide Distinct;
  }

  lemma AttachChatPreserves(id: SeedId, seed: Seed, threadRef: string, evidenceRef: string, now: int)
    requires WellKept(id, seed) && evidenceRef != ""
    ensures var after := AttachChat(seed, threadRef, evidenceRef, now); WellKept(id, after) && Preserves(seed, after)
  {
    if evidenceRef !in seed.links.chats {
      SnocStaysDistinct(seed.links.chats, evidenceRef);
    }
    hide Distinct;
  }

  /** One operation keeps a seed in order and takes nothing back from it. */
  lemma StepPreserves(id: SeedId, seed: Seed, op: Operation)
    requires WellKept(id, seed)
    ensures var next := StepSeed(id, Some(seed), op);
            next.Some? && WellKept(id, next.value) && Preserves(seed, next.value)
  {
    hide UpsertSeed, BuildCaseSeed, AttachSession, AttachChat, Distinct, UniqueNonEmpty, SeedOf;
    match op
    case UpsertFromRun(runRef, record, runEvidenceRef, workspaceId, sourceHash, now) =>
      var next := BuildCaseSeed(runRef, record, runEvidenceRef, workspaceId, sourceHash, now);
      BuiltIsFresh(runRef, record, runEvidenceRef, workspaceId, sourceHash, now);
      if next.Success? && next.value.id == id {
        UpsertPreserves(id, seed, next.value);
      }
    case AttachSessionEvidence(sessionRef, evidenceRef, now) =>
      if sessionRef != "" && evidenceRef != "" {
        AttachSessionPreserves(id, seed, sessionRef, evidenceRef, now);
      }
    case AttachChatEvidence(threadRef, evidenceRef, now) =>
      if threadRef != "" && evidenceRef != "" {
        AttachChatPreserves(id, seed, threadRef, evidenceRef, now);
      }
    case MarkCompiled(_, _) =>
  }

  lemma StepKeepsSeeds(id: SeedId, seed: Option<Seed>, op: Operation)
    requires seed.Some? ==> WellKept(id, seed.value)
    ensures var next := StepSeed(id, seed, op);
            (seed.Some? ==> next.Some?) && (next.Some? ==> WellKept(id, next.value))
  {
    hide WellKept, Preserves, BuildCaseSeed;
    if seed.Some? {
      StepPreserves(id, seed.value, op);
    } else if op.UpsertFromRun? {
      BuiltIsFresh(op.runRef, op.record, op.runEvidenceRef, op.workspaceId, op.sourceHash, op.now);
    }
  }

  /**
   Over any run of operations, evidence references once set never change, chat references only
   grow, and a compiled seed keeps its packet.
   */
  lemma {:induction false} RunsPreserveSeeds(id: SeedId, seed: Seed, ops: seq<Operation>)
    requires WellKept(id, seed)
    ensures RunSeed(id, Some(seed), ops).Some?
    ensures WellKept(id, RunSeed(id, Some(seed), ops).value) && Preserves(seed, RunSeed(id, Some(seed), ops).value)
  {
    if ops != [] {
      RunsPreserveSeeds(id, seed, ops[..|ops| - 1]);
      var middle := RunSeed(id, Some(seed), ops[..|ops| - 1]).value;
      StepPreserves(id, middle, ops[|ops| - 1]);
    }
  }

  ghost predicate Accounted(seed: Seed, accepted: seq<PacketHash>) {
    && accepted != [] && accepted[|accepted| - 1] == seed.packetHash
    && seed.revision == |accepted|
    && (forall hash :: hash in accepted <==> hash == seed.packetHash || hash in seed.previousHashes)
  }

  /** How one operation accounts for the packet it accepts, if it accepts one. */
  lemma StepAccounts(id: SeedId, seed: Option<Seed>, op: Operation, accepted: seq<PacketHash>)
    requires if seed.Some? then WellKept(id, seed.value) && Accounted(seed.value, accepted) else accepted == []
    ensures var next := StepSeed(id, seed, op);
            if next.None? then seed.None?
            else Accounted(next.value, accepted + if seed.None? || seed.value.packetHash != next.value.packetHash then
                             [next.value.packetHash]
                                                  else [])
  {
  }

  /**
   Over any run from an empty store a seed stays well kept, its revision counts the packets accepted
   for it, and its previous hashes with the current one are exactly the hashes ever accepted.
   */
  lemma {:induction false} RunsAccountForPackets(id: SeedId, ops: seq<Operation>)
    ensures var seed := RunSeed(id, None, ops);
            if seed.None? then AcceptedHashes(id, ops) == []
            else
              && WellKept(id, seed.value)
              && Accounted(seed.value, AcceptedHashes(id, ops))
  {
    if ops != [] {
      var before := RunSeed(id, None, ops[..|ops| - 1]);
      RunsAccountForPackets(id, ops[..|ops| - 1]);
      StepKeepsSeeds(id, before, ops[|ops| - 1]);
      StepAccounts(id, before, ops[|ops| - 1], AcceptedHashes(id, ops[..|ops| - 1]));
      hide StepSeed, WellKept, Accounted;
    }
  }

  /** Evidence offered to the seeds of a session or of a chat thread. */
  datatype Offer = ToSession(ref: string, evidence: string) | ToThread(ref: string, evidence: string)

  datatype Fate = Unrelated | Attached | SeenBefore | Conflicting

  /** What an offer meets at a seed, read off the seed alone. */
  ghost function FateOf(offer: Offer, seed: Seed): Fate {
    match offer
    case ToSession(ref, evidence) =>
      if seed.sessionRef != ref then Unrelated
      else if seed.links.session == Some(evidence) then SeenBefore
      else if seed.links.session.Some? && seed.links.session.value != "" then Conflicting
      else Attached
    case ToThread(ref, evidence) =>
      if seed.threadRef != Some(ref) then Unrelated
      else if evidence in seed.links.chats then SeenBefore
      else Attached
  }

  /** The seeds among some ids that an offer meets in one way. */
  ghost function Meeting(seeds: map<SeedId, Seed>, ids: set<SeedId>, offer: Offer, fate: Fate): set<SeedId> {
    set id | id in ids && id in seeds && FateOf(offer, seeds[id]) == fate
  }

  /** Every count is the size of the set of seeds it counts. */
  ghost predicate CountsSeeds(seeds: map<SeedId, Seed>, ids: set<SeedId>, offer: Offer, counts: AttachCounts) {
    && counts.attached == |Meeting(seeds, ids, offer, Attached)|
    && counts.seenExisting == |Meeting(seeds, ids, offer, SeenBefore)|
    && counts.conflicts == |Meeting(seeds, ids, offer, Conflicting)|
    && counts.matched == counts.attached + counts.seenExisting + counts.conflicts == |Related(seeds, ids, offer)|
  }

  /** The seeds of the session or thread an offer names. */
  ghost function Related(seeds: map<SeedId, Seed>, ids: set<SeedId>, offer: Offer): set<SeedId> {
    set id | id in ids && id in seeds && FateOf(offer, seeds[id]) != Unrelated
  }

  ghost function Count(counts: AttachCounts, fate: Fate): AttachCounts {
    match fate
    case Unrelated => counts
    case Attached => counts.(matched := counts.matched + 1, attached := counts.attached + 1)
    case SeenBefore => counts.(matched := counts.matched + 1, seenExisting := counts.seenExisting + 1)
    case Conflicting => counts.(matched := counts.matched + 1, conflicts := counts.conflicts + 1)
  }

  lemma MeetingOneMore(seeds: map<SeedId, Seed>, ids: set<SeedId>, id: SeedId, offer: Offer, fate: Fate)
    requires id in seeds && id !in ids
    ensures |Meeting(seeds, ids + {id}, offer, fate)|
         == |Meeting(seeds, ids, offer, fate)| + if FateOf(offer, seeds[id]) == fate then 1 else 0
  {
    var before, after := Meeting(seeds, ids, offer, fate), Meeting(seeds, ids + {id}, offer, fate);
    hide FateOf;
    if FateOf(offer, seeds[id]) == fate {
      assert after == before + {id};
    } else {
      assert after == before;
    }
  }

  lemma RelatedOneMore(seeds: map<SeedId, Seed>, ids: set<SeedId>, id: SeedId, offer: Offer)
    requires id in seeds && id !in ids
    ensures |Related(seeds, ids + {id}, offer)|
         == |Related(seeds, ids, offer)| + if FateOf(offer, seeds[id]) != Unrelated then 1 else 0
  {
    var before, after := Related(seeds, ids, offer), Related(seeds, ids + {id}, offer);
    hide FateOf;
    if FateOf(offer, seeds[id]) != Unrelated {
      assert after == before + {id};
    } else {
      assert after == before;
    }
  }

  lemma CountOneMore(seeds: map<SeedId, Seed>, ids: set<SeedId>, id: SeedId, offer: Offer, counts: AttachCounts)
    requires id in seeds && id !in ids && CountsSeeds(seeds, ids, offer, counts)
    ensures CountsSeeds(seeds, ids + {id}, offer, Count(counts, FateOf(offer, seeds[id])))
  {
    MeetingOneMore(seeds, ids, id, offer, Attached);
    MeetingOneMore(seeds, ids, id, offer, SeenBefore);
    MeetingOneMore(seeds, ids, id, offer, Conflicting);
    RelatedOneMore(seeds, ids, id, offer);
    hide Meeting, Related, FateOf;
  }

  /** An offer changes exactly the seeds it is attached to. */
  lemma OfferStep(id: SeedId, seed: Seed, offer: Offer, now: int)
    requires offer.ref != "" && offer.evidence != ""
    ensures StepSeed(id, Some(seed), OperationFor(offer, now)) == Some(Attach(offer, seed, now))
  {
  }

  function OperationFor(offer: Offer, now: int): Operation {
    match offer
    case ToSession(ref, evidence) => AttachSessionEvidence(ref, evidence, now)
    case ToThread(ref, evidence) => AttachChatEvidence(ref, evidence, now)
  }

  ghost function Attach(offer: Offer, seed: Seed, now: int): Seed {
    if FateOf(offer, seed) != Attached then seed
    else
      match offer
      case ToSession(_, evidence) => seed.(links := seed.links.(session := Some(evidence)), lastSeenAt := now)
      case ToThread(_, evidence) =>
        seed.(links := seed.links.(chats := seed.links.chats + [evidence]), lastSeenAt := now)
  }

  /** The loop's state: seeds still to come are untouched, the others are offered and counted. */
  ghost predicate PartlyOffered(before: map<SeedId, Seed>, seeds: map<SeedId, Seed>, remaining: set<SeedId>,
                                offer: Offer, now: int, counts: AttachCounts) {
    && seeds.Keys == before.Keys
    && (forall id :: id in seeds ==>
          seeds[id] == if id in remaining then before[id] else Attach(offer, before[id], now))
    && CountsSeeds(before, before.Keys - remaining, offer, counts)
  }

  lemma ThreadsNeverConflict(seeds: map<SeedId, Seed>, ids: set<SeedId>, ref: string, evidence: string)
    ensures Meeting(seeds, ids, ToThread(ref, evidence), Conflicting) == {}
  {
  }

  lemma NothingOffered(seeds: map<SeedId, Seed>, offer: Offer, now: int)
    ensures PartlyOffered(seeds, seeds, seeds.Keys, offer, now, AttachCounts(0, 0, 0, 0))
  {
  }

  lemma OfferOneMore(before: map<SeedId, Seed>, seeds: map<SeedId, Seed>, remaining: set<SeedId>, offer: Offer,
                     now: int, counts: AttachCounts, id: SeedId)
    requires PartlyOffered(before, seeds, remaining, offer, now, counts) && id in remaining && id in before
    ensures id in seeds
    ensures PartlyOffered(before, seeds[id := Attach(offer, seeds[id], now)], remaining - {id}, offer, now,
                          Count(counts, FateOf(offer, seeds[id])))
  {
    CountOneMore(before, before.Keys - remaining, id, offer, counts);
    assert before.Keys - (remaining - {id}) == before.Keys - remaining + {id};
    hide CountsSeeds, Attach, FateOf, Count;
  }

  lemma EverythingOffered(before: map<SeedId, Seed>, seeds: map<SeedId, Seed>, offer: Offer, now: int,
                          counts: AttachCounts)
    requires PartlyOffered(before, seeds, {}, offer, now, counts)
    ensures seeds.Keys == before.Keys && CountsSeeds(before, before.Keys, offer, counts)
    ensures forall id :: id in seeds ==> seeds[id] == Attach(offer, before[id], now)
  {
    assert before.Keys - {} == before.Keys;
  }

  lemma AllOffered(seeds: map<SeedId, Seed>, offer: Offer, now: int)
    requires offer.ref != "" && offer.evidence != ""
    ensures forall id :: id in seeds ==>
              StepSeed(id, Some(seeds[id]), OperationFor(offer, now)) == Some(Attach(offer, seeds[id], now))
  {
    forall id | id in seeds
      ensures StepSeed(id, Some(seeds[id]), OperationFor(offer, now)) == Some(Attach(offer, seeds[id], now))
    {
      OfferStep(id, seeds[id], offer, now);
    }
  }

  lemma AllStepsKeepSeeds(seeds: map<SeedId, Seed>, op: Operation)
    requires forall id :: id in seeds ==> WellKept(id, seeds[id])
    ensures forall id :: id in seeds ==>
              var next := StepSeed(id, Some(seeds[id]), op); next.Some? && WellKept(id, next.value)
  {
    forall id | id in seeds
      ensures var next := StepSeed(id, Some(seeds[id]), op); next.Some? && WellKept(id, next.value)
    {
      StepKeepsSeeds(id, Some(seeds[id]), op);
    }
  }

  // ---------------------------------------------------------------- the store

  class CaseSeedStore {
    var seeds: map<SeedId, Seed>

    constructor ()
      ensures seeds == map[]
    {
      seeds := map[];
    }

    ghost predicate Valid()
      reads this
    {
      forall id :: id in seeds ==> WellKept(id, seeds[id])
    }

    function GetSeed(id: SeedId): Option<Seed>
      reads this
    {
      if id in seeds then Some(seeds[id]) else None
    }

    /** Every id's seed has taken the step of this operation. */
    twostate predicate Stepped(op: Operation)
      reads this
    {
      forall id :: GetSeed(id) == StepSeed(id, old(GetSeed(id)), op)
    }

    method UpsertRun(runRef: string, record: RunRecord, runEvidenceRef: Option<string>, workspaceId: Option<string>,
                     sourceHash: Option<string>, now: int)
        returns (result: Result<Upsert, SeedError>)
      requires Valid()
      modifies this
      ensures Valid() && Stepped(UpsertFromRun(runRef, record, runEvidenceRef, workspaceId, sourceHash, now))
      ensures match BuildCaseSeed(runRef, record, runEvidenceRef, workspaceId, sourceHash, now)
              case Failure(error) => result == Failure(error)
              case Success(next) =>
                && result == Success(UpsertSeed(old(GetSeed(next.id)), next))
                && GetSeed(next.id) == Some(result.value.seed)
    {
      var next := BuildCaseSeed(runRef, record, runEvidenceRef, workspaceId, sourceHash, now);
      if next.Failure? {
        return Failure(next.error);
      }
      var upsert := UpsertSeed(GetSeed(next.value.id), next.value);
      StepKeepsSeeds(next.value.id, GetSeed(next.value.id),
                     UpsertFromRun(runRef, record, runEvidenceRef, workspaceId, sourceHash, now));
      if !upsert.CompiledConflict? {
        seeds := seeds[next.value.id := upsert.seed];
      }
      return Success(upsert);
    }

    /** One seed of the loop: attached, seen before, in conflict, or of another session. */
    method OfferToSession(id: SeedId, sessionRef: string, evidenceRef: string, now: int, before: AttachCounts)
        returns (counts: AttachCounts)
      requires id in seeds
      modifies this`seeds
      ensures seeds == old(seeds)[id := Attach(ToSession(sessionRef, evidenceRef), old(seeds)[id], now)]
      ensures counts == Count(before, FateOf(ToSession(sessionRef, evidenceRef), old(seeds)[id]))
    {
      counts := before;
      var seed := seeds[id];
      if seed.sessionRef == sessionRef {
        counts := counts.(matched := counts.matched + 1);
        if seed.links.session == Some(evidenceRef) {
          counts := counts.(seenExisting := counts.seenExisting + 1);
        } else if seed.links.session.Some? && seed.links.session.value != "" {
          counts := counts.(conflicts := counts.conflicts + 1);
        } else {
          seeds := seeds[id := seed.(links := seed.links.(session := Some(evidenceRef)), lastSeenAt := now)];
          counts := counts.(attached := counts.attached + 1);
        }
      }
      assert seeds == old(seeds)[id := Attach(ToSession(sessionRef, evidenceRef), seed, now)];
    }

    method AttachSessionToSeeds(sessionRef: string, evidenceRef: string, now: int)
        returns (result: Result<AttachCounts, SeedError>)
      requires Valid()
      modifies this
      ensures Valid() && Stepped(AttachSessionEvidence(sessionRef, evidenceRef, now))
      ensures result.Failure? <==> sessionRef == "" || evidenceRef == ""
      ensures result.Success? ==>
                CountsSeeds(old(seeds), old(seeds).Keys, ToSession(sessionRef, evidenceRef), result.value)
    {
      if sessionRef == "" || evidenceRef == "" {
        return Failure(EmptyArgument);
      }
      var offer := ToSession(sessionRef, evidenceRef);
      var counts := AttachCounts(0, 0, 0, 0);
      var remaining := seeds.Keys;
      NothingOffered(seeds, offer, now);
      AllOffered(seeds, offer, now);
      AllStepsKeepSeeds(seeds, OperationFor(offer, now));
      hide WellKept, StepSeed, PartlyOffered, Attach, FateOf, Count;
      while remaining != {}
        invariant remaining <= old(seeds).Keys
        invariant PartlyOffered(old(seeds), seeds, remaining, offer, now, counts)
      {
        var id :| id in remaining;
        OfferOneMore(old(seeds), seeds, remaining, offer, now, counts, id);
        counts := OfferToSession(id, sessionRef, evidenceRef, now, counts);
        remaining := remaining - {id};
      }
      EverythingOffered(old(seeds), seeds, offer, now, counts);
      return Success(counts);
    }

    /** One seed of the loop: attached, seen before, in conflict, or of another thread. */
    method OfferToThread(id: SeedId, threadRef: string, evidenceRef: string, now: int, before: AttachCounts)
        returns (counts: AttachCounts)
      requires id in seeds
      modifies this`seeds
      ensures seeds == old(seeds)[id := Attach(ToThread(threadRef, evidenceRef), old(seeds)[id], now)]
      ensures counts == Count(before, FateOf(ToThread(threadRef, evidenceRef), old(seeds)[id]))
    {
      counts := before;
      var seed := seeds[id];
      if seed.threadRef == Some(threadRef) {
        counts := counts.(matched := counts.matched + 1);
        if evidenceRef in seed.links.chats {
          counts := counts.(seenExisting := counts.seenExisting + 1);
        } else {
          var chats := seed.links.chats + [evidenceRef];
          seeds := seeds[id := seed.(links := seed.links.(chats := chats), lastSeenAt := now)];
          counts := counts.(attached := counts.attached + 1);
        }
      }
      assert seeds == old(seeds)[id := Attach(ToThread(threadRef, evidenceRef), seed, now)];
    }

    method AttachChatToSeeds(threadRef: string, evidenceRef: string, now: int)
        returns (result: Result<AttachCounts, SeedError>)
      requires Valid()
      modifies this
      ensures Valid() && Stepped(AttachChatEvidence(threadRef, evidenceRef, now))
      ensures result.Failure? <==> threadRef == "" || evidenceRef == ""
      ensures result.Success? ==>
                && CountsSeeds(old(seeds), old(seeds).Keys, ToThread(threadRef, evidenceRef), result.value)
                && result.value.conflicts == 0
    {
      if threadRef == "" || evidenceRef == "" {
        return Failure(EmptyArgument);
      }
      var offer := ToThread(threadRef, evidenceRef);
      var counts := AttachCounts(0, 0, 0, 0);
      var remaining := seeds.Keys;
      NothingOffered(seeds, offer, now);
      AllOffered(seeds, offer, now);
      AllStepsKeepSeeds(seeds, OperationFor(offer, now));
      hide WellKept, StepSeed, PartlyOffered, Attach, FateOf, Count;
      while remaining != {}
        invariant remaining <= old(seeds).Keys
        invariant PartlyOffered(old(seeds), seeds, remaining, offer, now, counts)
      {
        var id :| id in remaining;
        OfferOneMore(old(seeds), seeds, remaining, offer, now, counts, id);
        counts := OfferToThread(id, threadRef, evidenceRef, now, counts);
        remaining := remaining - {id};
      }
      EverythingOffered(old(seeds), seeds, offer, now, counts);
      ThreadsNeverConflict(old(seeds), old(seeds).Keys, threadRef, evidenceRef);
      return Success(counts);
    }

    method CompileSeed(id: SeedId, now: int) returns (result: Result<Seed, SeedError>)
      requires Valid()
      modifies this
      ensures Valid() && Stepped(MarkCompiled(id, now))
      ensures result == (if id in old(seeds) then Success(old(seeds)[id].(status := Compiled, lastSeenAt := now))
                         else Failure(SeedNotFound))
    {
      if id !in seeds {
        return Failure(SeedNotFound);
      }
      seeds := seeds[id := seeds[id].(status := Compiled, lastSeenAt := now)];
      return Success(seeds[id]);
    }
  }
}
