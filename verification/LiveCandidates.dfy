/**
 * Live promotion candidates: a store of revisioned candidates keyed by id, and the capped pass that
 * carries the latest candidate of every series to exactly one outcome.
 */
module LiveCandidates {
  import opened Common

  /** What discovery found, without the generated lifecycle dates; its hash is modelled by itself. */
  datatype Semantics = Semantics(basis: string, content: string)

  /** A discovered id, or the id built from a series, a revision number and a digest. */
  datatype CandidateId = Base(name: string) | Revised(series: CandidateId, revision: int, digest: Semantics)

  datatype Status = Staged | Narrowed | JudgeSkipped | CapSkipped | Retired | Activated

  datatype Decision = Decision(status: Status, at: int)

  datatype Entry = Entry(content: string, createdAt: Option<int>, revalidateAt: Option<int>)

  datatype Candidate = Candidate(
    id: CandidateId,
    series: Option<CandidateId>,
    supersedes: Option<CandidateId>,
    revision: int,
    status: Status,
    lastSeenAt: int,
    basis: string,
    entry: Entry,
    signals: string,
    hash: Option<Semantics>,
    history: seq<Decision>)

  type Files = map<CandidateId, Candidate>

  function SemanticsOf(c: Candidate): Semantics {
    Semantics(c.basis, c.entry.content)
  }

  function DiscoveryHash(c: Candidate): Semantics {
    if c.hash.Some? then c.hash.value else SemanticsOf(c)
  }

  function SeriesOf(c: Candidate): CandidateId {
    if c.series.Some? then c.series.value else c.id
  }

  predicate InSeries(c: Candidate, series: CandidateId) {
    c.id == series || c.series == Some(series)
  }

  // ----- the latest candidate of a series -----

  ghost predicate TotalOrder(le: (CandidateId, CandidateId) -> bool) {
    TotalPreorder(le) && forall x, y :: le(x, y) && le(y, x) ==> x == y
  }

  /** b is at least as recent as a: by revision, then by last sighting, then by id. */
  predicate NotAfter(le: (CandidateId, CandidateId) -> bool, a: Candidate, b: Candidate) {
    || a.revision < b.revision
    || (a.revision == b.revision && a.lastSeenAt < b.lastSeenAt)
    || (a.revision == b.revision && a.lastSeenAt == b.lastSeenAt && le(a.id, b.id))
  }

  ghost predicate IsLatest(le: (CandidateId, CandidateId) -> bool, files: Files, series: CandidateId, id: CandidateId) {
    && id in files
    && InSeries(files[id], series)
    && forall other :: other in files && InSeries(files[other], series) ==> NotAfter(le, files[other], files[id])
  }

  ghost function LatestId(le: (CandidateId, CandidateId) -> bool, files: Files, series: CandidateId): (id: CandidateId)
    requires exists id :: IsLatest(le, files, series, id)
    ensures IsLatest(le, files, series, id)
  {
    var id :| IsLatest(le, files, series, id);
    id
  }

  ghost function LatestIn(le: (CandidateId, CandidateId) -> bool, files: Files, series: CandidateId): Option<Candidate>
  {
    if exists id :: IsLatest(le, files, series, id) then Some(files[LatestId(le, files, series)]) else None
  }

  lemma LatestIsUnique(le: (CandidateId, CandidateId) -> bool, files: Files, series: CandidateId, id: CandidateId)
    requires TotalOrder(le) && Keyed(files)
    requires IsLatest(le, files, series, id)
    ensures LatestIn(le, files, series) == Some(files[id])
  {
    var chosen := LatestId(le, files, series);
    assert NotAfter(le, files[id], files[chosen]) && NotAfter(le, files[chosen], files[id]);
  }

  // ----- one upsert -----

  datatype UpsertError = RevisionIdConflict

  datatype UpsertStatus = Created | Updated | RevisionCreated

  datatype Upsert = Upsert(candidate: Candidate, status: UpsertStatus, changed: bool)

  function WithHash(c: Candidate): Candidate {
    c.(hash := Some(SemanticsOf(c)))
  }

  /** What discovery hands over: a base id, first revision, nothing decided yet. */
  ghost predicate Discovered(c: Candidate) {
    && c.id.Base?
    && c.series == None
    && c.supersedes == None
    && c.revision == 1
    && c.status == Staged
    && c.history == []
  }

  function Prepared(latest: Option<Candidate>, incoming: Candidate, series: CandidateId): Candidate {
    if latest.None? then incoming
    else if DiscoveryHash(latest.value) != DiscoveryHash(incoming) then
      incoming.(id := Revised(series, latest.value.revision + 1, DiscoveryHash(incoming)),
                series := Some(series),
                supersedes := Some(latest.value.id),
                status := Staged,
                revision := latest.value.revision + 1,
                history := [])
    else incoming.(id := latest.value.id)
  }

  function Merged(existing: Option<Candidate>, prepared: Candidate): Result<Candidate, UpsertError> {
    if existing.None? then Success(prepared)
    else if DiscoveryHash(existing.value) != DiscoveryHash(prepared) then Failure(RevisionIdConflict)
    else Success(existing.value.(lastSeenAt := prepared.lastSeenAt, signals := prepared.signals, hash := prepared.hash))
  }

  function Lookup(files: Files, id: CandidateId): Option<Candidate> {
    if id in files then Some(files[id]) else None
  }

  function UpsertWith(files: Files, latest: Option<Candidate>, candidate: Candidate): Result<Upsert, UpsertError> {
    var incoming := WithHash(candidate);
    var prepared := Prepared(latest, incoming, SeriesOf(incoming));
    var existing := Lookup(files, prepared.id);
    var merged := Merged(existing, prepared);
    if merged.Failure? then Failure(merged.error)
    else
      var revised := latest.Some? && DiscoveryHash(latest.value) != DiscoveryHash(incoming);
      var rediscovered := latest.Some? && !revised;
      Success(Upsert(
        merged.value,
        if revised then RevisionCreated else if existing.Some? then Updated else Created,
        if rediscovered then false else existing.None? || SemanticsOf(existing.value) != SemanticsOf(incoming)))
  }

  ghost function Upserted(le: (CandidateId, CandidateId) -> bool, files: Files, candidate: Candidate)
      : Result<Upsert, UpsertError>
  {
    UpsertWith(files, LatestIn(le, files, SeriesOf(candidate)), candidate)
  }

  // ----- recording a decision -----

  function Decided(c: Candidate, status: Status, at: int): Candidate {
    c.(status := status, lastSeenAt := at, history := c.history + [Decision(status, at)])
  }

  /** Narrowing replaces the entry and bumps the revision under the same id. */
  function NarrowedTo(c: Candidate, entry: Entry, at: int): Candidate {
    Decided(c.(entry := entry, revision := c.revision + 1), Narrowed, at)
  }

  // ----- what every store holds -----

  ghost predicate Keyed(files: Files) {
    forall id :: id in files ==> files[id].id == id
  }

  /** Base candidates start a series; revised ones carry the series and number their id was built from. */
  ghost predicate WellIdentified(files: Files) {
    forall id :: id in files ==>
      var c := files[id];
      && c.hash.Some?
      && (if id.Base? then c.series == None && c.revision >= 1
          else c.series == Some(id.series) && id.series.Base? && id.series in files && c.revision >= id.revision >= 2)
  }

  ghost predicate RevisionsDiffer(files: Files) {
    forall a, b :: a in files && b in files && a != b && SeriesOf(files[a]) == SeriesOf(files[b]) ==>
      files[a].revision != files[b].revision
  }

  /** p is the candidate of c's series just before c: nothing of the series lies between them. */
  ghost predicate JustBefore(files: Files, p: CandidateId, c: CandidateId) {
    && p in files && c in files
    && SeriesOf(files[p]) == SeriesOf(files[c])
    && files[p].revision < files[c].revision
    && forall q :: q in files && SeriesOf(files[q]) == SeriesOf(files[c]) ==>
         files[q].revision <= files[p].revision || files[c].revision <= files[q].revision
  }

  /** The links to superseded candidates run through a series in revision order, down to its base. */
  ghost predicate OneChain(files: Files) {
    forall id :: id in files ==>
      if id.Base? then files[id].supersedes == None
      else files[id].supersedes.Some? && JustBefore(files, files[id].supersedes.value, id)
  }

  /** The base candidate is the oldest of its series. */
  ghost predicate BaseIsOldest(files: Files) {
    forall id :: id in files && id.Revised? ==> id.series in files && files[id.series].revision < files[id].revision
  }

  ghost predicate StoreInv(files: Files) {
    Keyed(files) && WellIdentified(files) && RevisionsDiffer(files) && OneChain(files) && BaseIsOldest(files)
  }

  lemma SeriesMembership(files: Files, id: CandidateId, series: CandidateId)
    requires StoreInv(files) && id in files && series.Base?
    ensures InSeries(files[id], series) <==> SeriesOf(files[id]) == series
  {
  }

  // ----- runs -----

  datatype Op =
    | Rediscover(candidate: Candidate)
    | Narrow(id: CandidateId, entry: Entry, at: int)
    | Decide(id: CandidateId, status: Status, at: int)

  /** Candidates are decided on only while they are the latest of their series. */
  ghost predicate Enabled(le: (CandidateId, CandidateId) -> bool, files: Files, op: Op) {
    match op
    case Rediscover(candidate) => Discovered(candidate)
    case Narrow(id, _, _) => id in files && IsLatest(le, files, SeriesOf(files[id]), id)
    case Decide(id, _, _) => id in files && IsLatest(le, files, SeriesOf(files[id]), id)
  }

  /** None is the error that a revision id is taken by other semantics. */
  ghost function After(le: (CandidateId, CandidateId) -> bool, files: Files, op: Op): Option<Files>
    requires Enabled(le, files, op)
  {
    match op
    case Rediscover(candidate) =>
      var r := Upserted(le, files, candidate);
      if r.Failure? then None else Some(files[r.value.candidate.id := r.value.candidate])
    case Narrow(id, entry, at) => Some(files[id := NarrowedTo(files[id], entry, at)])
    case Decide(id, status, at) => Some(files[id := Decided(files[id], status, at)])
  }

  ghost predicate Run(le: (CandidateId, CandidateId) -> bool, states: seq<Files>, ops: seq<Op>) {
    && |states| == |ops| + 1
    && states[0] == map[]
    && forall i :: 0 <= i < |ops| ==> StepAt(le, states, ops, i)
  }

  ghost predicate StepAt(le: (CandidateId, CandidateId) -> bool, states: seq<Files>, ops: seq<Op>, i: nat)
    requires i < |ops| && |states| == |ops| + 1
  {
    Enabled(le, states[i], ops[i]) && After(le, states[i], ops[i]) == Some(states[i + 1])
  }

  /** Every candidate of the series is at or below the latest one; an equal revision is the latest itself. */
  lemma LatestHasTopRevision(le: (CandidateId, CandidateId) -> bool, files: Files, series: CandidateId, id: CandidateId)
    requires StoreInv(files) && series.Base? && IsLatest(le, files, series, id)
    ensures SeriesOf(files[id]) == series
    ensures forall q :: q in files && q != id && SeriesOf(files[q]) == series ==> files[q].revision < files[id].revision
  {
    SeriesMembership(files, id, series);
    forall q | q in files && q != id && SeriesOf(files[q]) == series
      ensures files[q].revision < files[id].revision
    {
      SeriesMembership(files, q, series);
      assert NotAfter(le, files[q], files[id]);
      assert files[q].revision != files[id].revision;
    }
  }

  lemma SeriesIsBase(files: Files, id: CandidateId)
    requires StoreInv(files) && id in files
    ensures SeriesOf(files[id]).Base? && SeriesOf(files[id]) in files
  {
  }

  /** The id of the next revision of a series has never been used. */
  lemma NextRevisionIdIsUnused(le: (CandidateId, CandidateId) -> bool, files: Files, series: CandidateId,
                               latest: CandidateId, digest: Semantics)
    requires StoreInv(files) && series.Base? && IsLatest(le, files, series, latest)
    ensures Revised(series, files[latest].revision + 1, digest) !in files
  {
    var id := Revised(series, files[latest].revision + 1, digest);
    LatestHasTopRevision(le, files, series, latest);
    assert id in files ==> SeriesOf(files[id]) == series;
  }

  /** What rediscovery does, without reference to the code that prepares and merges. */
  ghost predicate RediscoveryEffect(files: Files, latest: Option<Candidate>, candidate: Candidate, r: Upsert) {
    var found := Semantics(candidate.basis, candidate.entry.content);
    if latest.None? then
      r == Upsert(candidate.(hash := Some(found)), Created, true) && candidate.id !in files
    else if latest.value.hash == Some(found) then
      r == Upsert(latest.value.(lastSeenAt := candidate.lastSeenAt, signals := candidate.signals), Updated, false)
    else
      && r.status == RevisionCreated && r.changed
      && r.candidate.id !in files
      && r.candidate.id == Revised(candidate.id, latest.value.revision + 1, found)
      && r.candidate.series == Some(candidate.id)
      && r.candidate.supersedes == Some(latest.value.id)
      && r.candidate.revision == latest.value.revision + 1
      && r.candidate.status == Staged && r.candidate.history == []
      && r.candidate.hash == Some(found)
      && r.candidate.basis == candidate.basis && r.candidate.entry == candidate.entry
      && r.candidate.signals == candidate.signals && r.candidate.lastSeenAt == candidate.lastSeenAt
  }

  /** Rediscovery never meets a revision id conflict, and has exactly one of three effects. */
  lemma RediscoveryNeverConflicts(le: (CandidateId, CandidateId) -> bool, files: Files, candidate: Candidate)
    requires TotalOrder(le) && StoreInv(files) && Discovered(candidate)
    ensures Upserted(le, files, candidate).Success?
    ensures RediscoveryEffect(files, LatestIn(le, files, candidate.id), candidate, Upserted(le, files, candidate).value)
  {
    var latest := LatestIn(le, files, candidate.id);
    if latest.Some? {
      var id := LatestId(le, files, candidate.id);
      NextRevisionIdIsUnused(le, files, candidate.id, id, SemanticsOf(candidate));
    } else if candidate.id in files {
      SomeLatest(le, files, candidate.id, candidate.id);
      assert false;
    }
    hide LatestIn, TotalOrder, WellIdentified, RevisionsDiffer, OneChain, BaseIsOldest;
    UpsertHasItsEffect(files, latest, candidate);
  }

  lemma UpsertHasItsEffect(files: Files, latest: Option<Candidate>, candidate: Candidate)
    requires Discovered(candidate)
    requires latest.None? ==> candidate.id !in files
    requires latest.Some? ==>
               && latest.value.hash.Some? && latest.value.id in files && files[latest.value.id] == latest.value
               && Revised(candidate.id, latest.value.revision + 1, SemanticsOf(candidate)) !in files
    ensures UpsertWith(files, latest, candidate).Success?
    ensures RediscoveryEffect(files, latest, candidate, UpsertWith(files, latest, candidate).value)
  {
  }

  /** A series with a member has a latest member. */
  lemma SomeLatest(le: (CandidateId, CandidateId) -> bool, files: Files, series: CandidateId, member: CandidateId)
    requires TotalOrder(le) && member in files && InSeries(files[member], series)
    ensures exists id :: IsLatest(le, files, series, id)
  {
    var members := set id | id in files && InSeries(files[id], series);
    assert member in members;
    var top := Topmost(le, files, members);
    assert IsLatest(le, files, series, top);
  }

  lemma {:induction false} Topmost(le: (CandidateId, CandidateId) -> bool, files: Files, members: set<CandidateId>)
      returns (top: CandidateId)
    requires TotalOrder(le) && members != {} && members <= files.Keys
    ensures top in members && forall other <- members :: NotAfter(le, files[other], files[top])
  {
    hide NotAfter;
    var first :| first in members;
    var rest := members - {first};
    NotAfterIsTotal(le, files[first], files[first]);
    if rest == {} {
      assert members == {first};
      return first;
    }
    var best := Topmost(le, files, rest);
    NotAfterIsTotal(le, files[first], files[best]);
    top := if NotAfter(le, files[first], files[best]) then best else first;
    forall other | other in members
      ensures NotAfter(le, files[other], files[top])
    {
      if other in rest && top == first {
        NotAfterIsTransitive(le, files[other], files[best], files[first]);
      }
    }
  }

  lemma NotAfterIsTotal(le: (CandidateId, CandidateId) -> bool, a: Candidate, b: Candidate)
    requires TotalOrder(le)
    ensures NotAfter(le, a, b) || NotAfter(le, b, a)
  {
    assert le(a.id, b.id) || le(b.id, a.id);
  }

  lemma NotAfterIsTransitive(le: (CandidateId, CandidateId) -> bool, a: Candidate, b: Candidate, c: Candidate)
    requires TotalOrder(le) && NotAfter(le, a, b) && NotAfter(le, b, c)
    ensures NotAfter(le, a, c)
  {
    assert le(a.id, b.id) && le(b.id, c.id) ==> le(a.id, c.id);
  }

  lemma RediscoverKeepsInv(le: (CandidateId, CandidateId) -> bool, files: Files, candidate: Candidate)
    requires TotalOrder(le) && StoreInv(files) && Discovered(candidate)
    ensures Upserted(le, files, candidate).Success?
    ensures var next := Upserted(le, files, candidate).value.candidate; StoreInv(files[next.id := next])
  {
    RediscoveryNeverConflicts(le, files, candidate);
    var latest := LatestIn(le, files, candidate.id);
    var r := Upserted(le, files, candidate).value;
    if latest.None? {
      AddBaseKeepsInv(files, candidate);
    } else {
      var id := LatestId(le, files, candidate.id);
      LatestHasTopRevision(le, files, candidate.id, id);
      if r.status == RevisionCreated {
        AddRevisionKeepsInv(files, id, r.candidate);
      } else {
        ReplaceKeepsInv(files, r.candidate);
      }
    }
  }

  lemma AddBaseKeepsInv(files: Files, candidate: Candidate)
    requires StoreInv(files) && Discovered(candidate) && candidate.id !in files
    ensures StoreInv(files[candidate.id := WithHash(candidate)])
  {
    AddBaseKeepsIds(files, candidate);
    AddBaseKeepsLinks(files, candidate);
    hide OneChain, WellIdentified, BaseIsOldest, RevisionsDiffer;
  }

  lemma AddBaseKeepsIds(files: Files, candidate: Candidate)
    requires StoreInv(files) && Discovered(candidate) && candidate.id !in files
    ensures var after := files[candidate.id := WithHash(candidate)];
            WellIdentified(after) && BaseIsOldest(after) && RevisionsDiffer(after)
  {
    forall id | id in files
      ensures SeriesOf(files[id]) != candidate.id
    {
      SeriesIsBase(files, id);
    }
  }

  lemma AddBaseKeepsLinks(files: Files, candidate: Candidate)
    requires StoreInv(files) && Discovered(candidate) && candidate.id !in files
    ensures OneChain(files[candidate.id := WithHash(candidate)])
  {
    var after := files[candidate.id := WithHash(candidate)];
    forall id | id in after && id.Revised?
      ensures after[id].supersedes.Some? && JustBefore(after, after[id].supersedes.value, id)
    {
      SeriesIsBase(files, id);
      NewSeriesKeepsJustBefore(files, WithHash(candidate), files[id].supersedes.value, id);
    }
  }

  lemma NewSeriesKeepsJustBefore(files: Files, next: Candidate, p: CandidateId, c: CandidateId)
    requires JustBefore(files, p, c) && next.id !in files && SeriesOf(next) != SeriesOf(files[c])
    ensures JustBefore(files[next.id := next], p, c)
  {
  }

  /** The fields an addition on top of a series or an in-place change must have. */
  ghost predicate TopsSeries(files: Files, top: CandidateId) {
    && top in files
    && forall q :: q in files && q != top && SeriesOf(files[q]) == SeriesOf(files[top]) ==>
         files[q].revision < files[top].revision
  }

  ghost predicate IsNextRevision(files: Files, latest: CandidateId, next: Candidate) {
    && TopsSeries(files, latest)
    && next.id !in files && next.id.Revised?
    && next.series == Some(next.id.series) && next.id.series == SeriesOf(files[latest]) && next.hash.Some?
    && next.revision == next.id.revision == files[latest].revision + 1
    && next.supersedes == Some(latest)
  }

  lemma AddRevisionKeepsInv(files: Files, latest: CandidateId, next: Candidate)
    requires StoreInv(files) && IsNextRevision(files, latest, next)
    ensures StoreInv(files[next.id := next])
  {
    SeriesIsBase(files, latest);
    AddRevisionKeepsIds(files, latest, next);
    AddRevisionKeepsLinks(files, latest, next);
    hide OneChain, WellIdentified, BaseIsOldest, RevisionsDiffer;
  }

  lemma AddRevisionKeepsIds(files: Files, latest: CandidateId, next: Candidate)
    requires Keyed(files) && WellIdentified(files) && BaseIsOldest(files) && RevisionsDiffer(files)
    requires IsNextRevision(files, latest, next)
    ensures var after := files[next.id := next]; WellIdentified(after) && BaseIsOldest(after) && RevisionsDiffer(after)
  {
    var after := files[next.id := next];
    hide OneChain;
    assert WellIdentified(after);
    assert BaseIsOldest(after);
    forall id | id in files && SeriesOf(files[id]) == SeriesOf(next)
      ensures files[id].revision < next.revision
    {
    }
  }

  lemma AddRevisionKeepsLinks(files: Files, latest: CandidateId, next: Candidate)
    requires StoreInv(files) && IsNextRevision(files, latest, next)
    ensures OneChain(files[next.id := next])
  {
    var after := files[next.id := next];
    forall id | id in after && id.Revised?
      ensures after[id].supersedes.Some? && JustBefore(after, after[id].supersedes.value, id)
    {
      if id == next.id {
        assert JustBefore(after, latest, id);
      } else {
        AdditionKeepsJustBefore(files, latest, next, files[id].supersedes.value, id);
      }
    }
  }

  lemma AdditionKeepsJustBefore(files: Files, latest: CandidateId, next: Candidate, p: CandidateId, c: CandidateId)
    requires TopsSeries(files, latest) && next.id !in files
    requires SeriesOf(next) == SeriesOf(files[latest]) && next.revision > files[latest].revision
    requires JustBefore(files, p, c)
    ensures JustBefore(files[next.id := next], p, c)
  {
    var after := files[next.id := next];
    forall q | q in after && SeriesOf(after[q]) == SeriesOf(after[c])
      ensures after[q].revision <= after[p].revision || after[c].revision <= after[q].revision
    {
      if q == next.id {
        assert files[c].revision <= files[latest].revision;
      } else {
        assert files[q].revision <= files[p].revision || files[c].revision <= files[q].revision;
      }
    }
  }

  /** An in-place change of the top candidate that touches no link and does not age it. */
  ghost predicate IsTopChange(files: Files, next: Candidate) {
    && TopsSeries(files, next.id)
    && next.series == files[next.id].series && next.supersedes == files[next.id].supersedes && next.hash.Some?
    && next.revision >= files[next.id].revision
  }

  lemma ReplaceKeepsInv(files: Files, next: Candidate)
    requires StoreInv(files) && IsTopChange(files, next)
    ensures StoreInv(files[next.id := next])
  {
    ReplaceKeepsIds(files, next);
    ReplaceKeepsLinks(files, next);
    hide OneChain, WellIdentified, BaseIsOldest, RevisionsDiffer;
  }

  lemma ReplaceKeepsIds(files: Files, next: Candidate)
    requires Keyed(files) && WellIdentified(files) && BaseIsOldest(files) && RevisionsDiffer(files)
    requires IsTopChange(files, next)
    ensures var after := files[next.id := next]; WellIdentified(after) && BaseIsOldest(after) && RevisionsDiffer(after)
  {
    var after := files[next.id := next];
    assert SeriesOf(next) == SeriesOf(files[next.id]);
    assert WellIdentified(after);
    forall id | id in after && id.Revised?
      ensures id.series in after && after[id.series].revision < after[id].revision
    {
      assert files[id.series].revision < files[id].revision;
      assert id.series != next.id;
    }
  }

  lemma ReplaceKeepsLinks(files: Files, next: Candidate)
    requires StoreInv(files) && IsTopChange(files, next)
    ensures OneChain(files[next.id := next])
  {
    var after := files[next.id := next];
    forall c | c in after && c.Revised?
      ensures after[c].supersedes.Some? && JustBefore(after, after[c].supersedes.value, c)
    {
      ChangeKeepsJustBefore(files, next, files[c].supersedes.value, c);
    }
  }

  lemma ChangeKeepsJustBefore(files: Files, next: Candidate, p: CandidateId, c: CandidateId)
    requires Keyed(files) && IsTopChange(files, next) && JustBefore(files, p, c)
    ensures JustBefore(files[next.id := next], p, c)
  {
    var after := files[next.id := next];
    assert SeriesOf(next) == SeriesOf(files[next.id]);
    assert p != next.id;
    forall q | q in after && SeriesOf(after[q]) == SeriesOf(after[c])
      ensures after[q].revision <= after[p].revision || after[c].revision <= after[q].revision
    {
      assert files[q].revision <= files[p].revision || files[c].revision <= files[q].revision;
    }
  }

  lemma StepKeepsInv(le: (CandidateId, CandidateId) -> bool, files: Files, op: Op)
    requires TotalOrder(le) && StoreInv(files) && Enabled(le, files, op)
    ensures After(le, files, op).Some? && StoreInv(After(le, files, op).value)
  {
    match op
    case Rediscover(candidate) => RediscoverKeepsInv(le, files, candidate);
    case Narrow(id, entry, at) =>
      SeriesIsBase(files, id);
      LatestHasTopRevision(le, files, SeriesOf(files[id]), id);
      ReplaceKeepsInv(files, NarrowedTo(files[id], entry, at));
    case Decide(id, status, at) =>
      SeriesIsBase(files, id);
      LatestHasTopRevision(le, files, SeriesOf(files[id]), id);
      ReplaceKeepsInv(files, Decided(files[id], status, at));
  }

  /** Every state of every run is a well-linked store, so no step ever meets a conflict. */
  lemma {:induction false} RunKeepsInv(le: (CandidateId, CandidateId) -> bool, states: seq<Files>, ops: seq<Op>, n: nat)
    requires TotalOrder(le) && Run(le, states, ops) && n < |states|
    ensures StoreInv(states[n])
  {
    if n > 0 {
      RunKeepsInv(le, states, ops, n - 1);
      assert StepAt(le, states, ops, n - 1);
      StepKeepsInv(le, states[n - 1], ops[n - 1]);
    }
  }

  /** How a candidate may change: its identity is fixed, its revision never falls, its history only grows. */
  ghost predicate Progress(a: Candidate, b: Candidate) {
    && a.id == b.id && a.series == b.series && a.supersedes == b.supersedes && a.hash == b.hash && a.basis == b.basis
    && a.revision <= b.revision
    && a.history <= b.history
    && (a.history == b.history ==> a.status == b.status && a.entry == b.entry && a.revision == b.revision)
  }

  ghost predicate AllProgress(a: Files, b: Files) {
    forall id :: id in a ==> id in b && Progress(a[id], b[id])
  }

  /** Whatever b adds to a series of a is above all of it. */
  ghost predicate AddsOnTop(a: Files, b: Files) {
    forall id, prior :: id in b && id !in a && prior in a && SeriesOf(a[prior]) == SeriesOf(b[id]) ==>
      a[prior].revision < b[id].revision
  }

  /** One step moves candidates only forward, and adds only on top. */
  lemma StepProgresses(le: (CandidateId, CandidateId) -> bool, files: Files, op: Op)
    requires TotalOrder(le) && StoreInv(files) && Enabled(le, files, op)
    ensures After(le, files, op).Some?
    ensures AllProgress(files, After(le, files, op).value)
    ensures AddsOnTop(files, After(le, files, op).value)
  {
    hide StoreInv, TotalOrder, AllProgress, AddsOnTop;
    match op
    case Rediscover(candidate) => RediscoveryProgresses(le, files, candidate);
    case Narrow(id, entry, at) =>
      KeyedByStoreInv(files, id);
      ChangeProgresses(files, NarrowedTo(files[id], entry, at));
    case Decide(id, status, at) =>
      KeyedByStoreInv(files, id);
      ChangeProgresses(files, Decided(files[id], status, at));
  }

  lemma RediscoveryProgresses(le: (CandidateId, CandidateId) -> bool, files: Files, candidate: Candidate)
    requires TotalOrder(le) && StoreInv(files) && Discovered(candidate)
    ensures Upserted(le, files, candidate).Success?
    ensures var next := Upserted(le, files, candidate).value.candidate;
            AllProgress(files, files[next.id := next]) && AddsOnTop(files, files[next.id := next])
  {
    RediscoveryNeverConflicts(le, files, candidate);
    hide Upserted, StoreInv, TotalOrder, AllProgress, AddsOnTop;
    var latest := LatestIn(le, files, candidate.id);
    var next := Upserted(le, files, candidate).value.candidate;
    if latest.None? {
      forall prior | prior in files
        ensures SeriesOf(files[prior]) != candidate.id
      {
        SeriesIsBase(files, prior);
      }
      AdditionProgresses(files, next);
    } else {
      LatestHasTopRevision(le, files, candidate.id, LatestId(le, files, candidate.id));
      if latest.value.hash == Some(SemanticsOf(candidate)) {
        KeyedByStoreInv(files, LatestId(le, files, candidate.id));
        ChangeProgresses(files, next);
      } else {
        AdditionProgresses(files, next);
      }
    }
  }

  lemma KeyedByStoreInv(files: Files, id: CandidateId)
    requires StoreInv(files) && id in files
    ensures files[id].id == id
  {
  }

  lemma AdditionProgresses(files: Files, next: Candidate)
    requires next.id !in files
    requires forall q :: q in files && SeriesOf(files[q]) == SeriesOf(next) ==> files[q].revision < next.revision
    ensures AllProgress(files, files[next.id := next]) && AddsOnTop(files, files[next.id := next])
  {
  }

  lemma ChangeProgresses(files: Files, next: Candidate)
    requires next.id in files && Progress(files[next.id], next)
    ensures AllProgress(files, files[next.id := next]) && AddsOnTop(files, files[next.id := next])
  {
  }

  /** Over any run: a candidate only moves forward, and one added later has a higher revision than all before it. */
  lemma {:induction false} RunProgresses(le: (CandidateId, CandidateId) -> bool, states: seq<Files>, ops: seq<Op>,
                                         m: nat, n: nat)
    requires TotalOrder(le) && Run(le, states, ops) && m <= n < |states|
    ensures AllProgress(states[m], states[n])
    ensures AddsOnTop(states[m], states[n])
    decreases n
  {
    hide AllProgress, AddsOnTop, StoreInv, After, Enabled, TotalOrder;
    if m == n {
      ProgressIsReflexive(states[m]);
    } else {
      RunProgresses(le, states, ops, m, n - 1);
      RunKeepsInv(le, states, ops, n - 1);
      assert StepAt(le, states, ops, n - 1);
      StepProgresses(le, states[n - 1], ops[n - 1]);
      ProgressIsTransitive(states[m], states[n - 1], states[n]);
    }
  }

  lemma ProgressIsReflexive(a: Files)
    ensures AllProgress(a, a) && AddsOnTop(a, a)
  {
  }

  lemma ProgressIsTransitive(a: Files, b: Files, c: Files)
    requires AllProgress(a, b) && AddsOnTop(a, b) && AllProgress(b, c) && AddsOnTop(b, c)
    ensures AllProgress(a, c) && AddsOnTop(a, c)
  {
    forall id | id in a
      ensures id in c && Progress(a[id], c[id])
    {
      assert Progress(a[id], b[id]) && Progress(b[id], c[id]);
    }
    forall id, prior | id in c && id !in a && prior in a && SeriesOf(a[prior]) == SeriesOf(c[id])
      ensures a[prior].revision < c[id].revision
    {
      assert Progress(a[prior], b[prior]);
      if id in b {
        assert Progress(b[id], c[id]);
      }
    }
  }

  // ----- the store -----

  class LivePromotionCandidateStore {
    var files: Files
    const idOrder: (CandidateId, CandidateId) -> bool

    ghost predicate Valid()
      reads this
    {
      TotalOrder(idOrder) && Keyed(files)
    }

    constructor (idOrder: (CandidateId, CandidateId) -> bool)
      requires TotalOrder(idOrder)
      ensures Valid() && files == map[] && this.idOrder == idOrder && StoreInv(files)
    {
      files := map[];
      this.idOrder := idOrder;
    }

    method ListCandidates() returns (list: seq<Candidate>)
      requires Valid()
      ensures Lists(files, list)
    {
      list := [];
      var remaining := files.Keys;
      while remaining != {}
        invariant remaining <= files.Keys
        invariant forall i :: 0 <= i < |list| ==>
                    list[i].id in files && list[i] == files[list[i].id] && list[i].id !in remaining
        invariant forall i, j :: 0 <= i < j < |list| ==> list[i].id != list[j].id
        invariant forall id :: id in files && id !in remaining ==> files[id] in list
      {
        var id :| id in remaining;
        remaining := remaining - {id};
        list := list + [files[id]];
      }
    }

    method GetLatestCandidateForSeries(series: CandidateId) returns (latest: Option<Candidate>)
      requires Valid()
      ensures latest == LatestIn(idOrder, files, series)
      ensures latest.Some? ==>
                IsLatest(idOrder, files, series, latest.value.id) && files[latest.value.id] == latest.value
    {
      var list := ListCandidates();
      var matching := [];
      for i := 0 to |list|
        invariant forall c :: c in matching <==> c in list[..i] && InSeries(c, series)
      {
        assert list[..i + 1] == list[..i] + [list[i]];
        if InSeries(list[i], series) {
          matching := matching + [list[i]];
        }
      }
      assert list[..|list|] == list;
      var newestFirst := (a: Candidate, b: Candidate) => NotAfter(idOrder, b, a);
      NotAfterIsATotalPreorder(idOrder);
      SortSorts(newestFirst, matching);
      var sorted := Sort(newestFirst, matching);
      if sorted == [] {
        latest := None;
        forall id
          ensures !IsLatest(idOrder, files, series, id)
        {
          assert id in files ==> files[id] in list && files[id] !in matching;
        }
      } else {
        latest := Some(sorted[0]);
        TopOfListIsLatest(idOrder, files, list, series, sorted[0], newestFirst, sorted);
        LatestIsUnique(idOrder, files, series, sorted[0].id);
      }
    }

    method UpsertCandidate(candidate: Candidate, dryRun: bool) returns (r: Result<Upsert, UpsertError>)
      requires Valid()
      modifies this
      ensures Valid()
      ensures r == Upserted(idOrder, old(files), candidate)
      ensures files == if r.Failure? || dryRun then old(files)
                       else old(files)[r.value.candidate.id := r.value.candidate]
    {
      var incoming := WithHash(candidate);
      var latest := GetLatestCandidateForSeries(SeriesOf(incoming));
      r := UpsertWith(files, latest, candidate);
      if r.Success? && !dryRun {
        files := files[r.value.candidate.id := r.value.candidate];
      }
    }

    /** False when there is no such candidate to overwrite. */
    method RecordCandidateDecision(candidate: Candidate, status: Status, at: int, dryRun: bool)
        returns (known: bool, next: Candidate)
      requires Valid()
      modifies this
      ensures Valid()
      ensures known <==> candidate.id in old(files)
      ensures next == Decided(candidate, status, at)
      ensures files == if known && !dryRun then old(files)[candidate.id := next] else old(files)
    {
      next := Decided(candidate, status, at);
      known := candidate.id in files;
      if known && !dryRun {
        files := files[candidate.id := next];
      }
    }
  }

  /** The list holds every stored candidate once. */
  ghost predicate Lists(files: Files, list: seq<Candidate>) {
    && (forall i :: 0 <= i < |list| ==> list[i].id in files && list[i] == files[list[i].id])
    && (forall i, j :: 0 <= i < j < |list| ==> list[i].id != list[j].id)
    && (forall id :: id in files ==> files[id] in list)
  }

  lemma NotAfterIsATotalPreorder(le: (CandidateId, CandidateId) -> bool)
    requires TotalOrder(le)
    ensures TotalPreorder((a: Candidate, b: Candidate) => NotAfter(le, b, a))
  {
  }

  lemma TopOfListIsLatest(le: (CandidateId, CandidateId) -> bool, files: Files, list: seq<Candidate>,
                          series: CandidateId, top: Candidate, newestFirst: (Candidate, Candidate) -> bool,
                          sorted: seq<Candidate>)
    requires Lists(files, list) && Keyed(files) && TotalOrder(le)
    requires newestFirst == ((a: Candidate, b: Candidate) => NotAfter(le, b, a))
    requires SortedBy(newestFirst, sorted) && sorted != [] && top == sorted[0]
    requires forall c :: c in sorted <==> c in list && InSeries(c, series)
    ensures top.id in files && files[top.id] == top && IsLatest(le, files, series, top.id)
  {
    assert top in sorted;
    forall other | other in files && InSeries(files[other], series)
      ensures NotAfter(le, files[other], top)
    {
      assert files[other] in sorted;
      var k :| 0 <= k < |sorted| && sorted[k] == files[other];
      assert k > 0 ==> newestFirst(sorted[0], sorted[k]);
    }
  }
}
