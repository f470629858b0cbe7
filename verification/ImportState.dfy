/**
 The Codex import ledger: a file that an instance loads, edits in memory and saves under an
 exclusive lock, refusing to overwrite contents it did not itself load or save.
 */
module ImportState {
  import opened Common

  const CURRENT_VERSION: int := 2

  datatype SourceEntry = SourceEntry(fingerprint: string, metadata: string)

  /** The file's contents: the rendered ledger, or bytes that do not parse as one. */
  datatype Bytes = Rendered(version: int, sources: map<string, SourceEntry>) | Unparsable(raw: string)

  datatype StateError = NotJson | UnsupportedVersion | LockHeld | ChangedAfterLoad | MissingFingerprint

  /** The directory the ledger lives in: the ledger file and its lock file. */
  class Disk {
    var ledger: Option<Bytes>
    var locked: bool

    constructor ()
      ensures ledger == None && !locked
    {
      ledger := None;
      locked := false;
    }
  }

  predicate ValidSources(sources: map<string, SourceEntry>) {
    forall path :: path in sources ==> path != "" && path[0] == '/' && sources[path].fingerprint != ""
  }

  function Normalize(bytes: Option<Bytes>): Result<map<string, SourceEntry>, StateError> {
    match bytes
    case None => Success(map[])
    case Some(Unparsable(_)) => Failure(NotJson)
    case Some(Rendered(version, sources)) =>
      if version in [1, CURRENT_VERSION] && ValidSources(sources) then Success(sources) else Failure(UnsupportedVersion)
  }

  class CodexImportState {
    const disk: Disk
    var sources: map<string, SourceEntry>
    var loadedBytes: Option<Bytes>

    constructor (disk: Disk)
      ensures this.disk == disk && sources == map[] && loadedBytes == None
    {
      this.disk := disk;
      sources := map[];
      loadedBytes := None;
    }

    method Load() returns (result: Result<(), StateError>)
      modifies this
      ensures result == (if Normalize(disk.ledger).Success? then Success(()) else Failure(Normalize(disk.ledger).error))
      ensures result.Success? ==> loadedBytes == disk.ledger && sources == Normalize(disk.ledger).value
      ensures result.Failure? ==> sources == old(sources)
    {
      loadedBytes := disk.ledger;
      var parsed := Normalize(disk.ledger);
      if parsed.Failure? {
        return Failure(parsed.error);
      }
      sources := parsed.value;
      return Success(());
    }

    method SetSourceFingerprint(path: string, fingerprint: string, metadata: string)
        returns (result: Result<(), StateError>)
      modifies this`sources
      ensures fingerprint == "" ==> result == Failure(MissingFingerprint) && sources == old(sources)
      ensures fingerprint != "" ==>
                result == Success(()) && sources == old(sources)[path := SourceEntry(fingerprint, metadata)]
    {
      if fingerprint == "" {
        return Failure(MissingFingerprint);
      }
      sources := sources[path := SourceEntry(fingerprint, metadata)];
      return Success(());
    }

    method PruneSources(keep: set<string>)
      modifies this`sources
      ensures sources == map path | path in old(sources) && path in keep :: old(sources)[path]
    {
      var remaining := sources.Keys;
      while remaining != {}
        invariant remaining <= old(sources).Keys
        invariant sources == map path | path in old(sources) && (path in keep || path in remaining) ::
                    old(sources)[path]
      {
        var path :| path in remaining;
        if path !in keep {
          sources := sources - {path};
        }
        remaining := remaining - {path};
      }
    }

    /** Replaces the ledger only while it still holds what this instance last loaded or saved. */
    method Save() returns (result: Result<(), StateError>)
      modifies this`loadedBytes, disk
      ensures disk.locked == old(disk.locked)
      ensures result == (if old(disk.locked) then Failure(LockHeld)
                         else if old(disk.ledger) != old(loadedBytes) then Failure(ChangedAfterLoad)
                         else Success(()))
      ensures result.Failure? ==> disk.ledger == old(disk.ledger) && loadedBytes == old(loadedBytes)
      ensures result.Success? ==> disk.ledger == Some(Rendered(CURRENT_VERSION, sources)) && loadedBytes == disk.ledger
    {
      if disk.locked {
        return Failure(LockHeld);
      }
      disk.locked := true;
      if disk.ledger != loadedBytes {
        disk.locked := false;
        return Failure(ChangedAfterLoad);
      }
      var bytes := Rendered(CURRENT_VERSION, sources);
      disk.ledger := Some(bytes);
      loadedBytes := Some(bytes);
      disk.locked := false;
      return Success(());
    }
  }

  /** A ledger loads when there is none yet, or when it is one of the known versions with proper entries. */
  lemma LoadsExactlyWhen(bytes: Option<Bytes>)
    ensures var loaded := Normalize(bytes);
            && (bytes == None ==> loaded == Success(map[]))
            && (bytes.Some? && bytes.value.Unparsable? ==> loaded == Failure(NotJson))
            && (bytes.Some? && bytes.value.Rendered? ==>
                  var sources := bytes.value.sources;
                  if (bytes.value.version == 1 || bytes.value.version == 2)
                     && (forall path <- sources :: path != "" && path[0] == '/')
                     && (forall path <- sources :: sources[path].fingerprint != "")
                  then loaded == Success(sources) else loaded == Failure(UnsupportedVersion))
  {
  }

  /** A saved ledger loads back as it was saved. */
  lemma SavedLedgerLoadsBack(sources: map<string, SourceEntry>)
    requires ValidSources(sources)
    ensures Normalize(Some(Rendered(CURRENT_VERSION, sources))) == Success(sources)
  {
    assert CURRENT_VERSION in [1, CURRENT_VERSION];
  }

  // ---------------------------------------------------------------- interleaved instances

  type Pid = nat

  datatype Phase = Ready | LockTaken | Compared | Replaced | Crashed

  datatype Save = Save(pid: Pid, base: Option<Bytes>, text: Bytes)

  datatype State = State(ledger: Option<Bytes>, lock: bool, phases: map<Pid, Phase>, loaded: map<Pid, Option<Bytes>>,
                         saves: seq<Save>)

  datatype Step = Reload(p: Pid) | TakeLock(p: Pid) | Compare(p: Pid) | Replace(p: Pid, bytes: Bytes) | Unlock(p: Pid)
    | Crash(p: Pid)

  function PhaseOf(s: State, p: Pid): Phase {
    if p in s.phases then s.phases[p] else Ready
  }

  function LoadedBy(s: State, p: Pid): Option<Bytes> {
    if p in s.loaded then s.loaded[p] else None
  }

  predicate HoldsLock(phase: Phase) {
    phase in [LockTaken, Compared, Replaced]
  }

  function Apply(s: State, step: Step): Option<State> {
    var p := step.p;
    var phase := PhaseOf(s, p);
    match step
    case Reload(_) => if phase == Ready then Some(s.(loaded := s.loaded[p := s.ledger])) else None
    case TakeLock(_) => if phase == Ready && !s.lock then Some(s.(lock := true, phases := s.phases[p := LockTaken]))
                        else None
    case Compare(_) =>
      if phase != LockTaken then None
      else if s.ledger != LoadedBy(s, p) then Some(s.(phases := s.phases[p := Replaced]))
      else Some(s.(phases := s.phases[p := Compared]))
    case Replace(_, bytes) =>
      if phase != Compared then None
      else Some(s.(ledger := Some(bytes), phases := s.phases[p := Replaced], loaded := s.loaded[p := Some(bytes)],
                   saves := s.saves + [Save(p, LoadedBy(s, p), bytes)]))
    case Unlock(_) => if HoldsLock(phase) then Some(s.(lock := false, phases := s.phases[p := Ready])) else None
    case Crash(_) => Some(s.(phases := s.phases[p := Crashed]))
  }

  function Run(s: State, steps: seq<Step>): State {
    if steps == [] then s
    else
      var before := Run(s, steps[..|steps| - 1]);
      var after := Apply(before, steps[|steps| - 1]);
      if after.Some? then after.value else before
  }

  ghost function Initial(ledger: Option<Bytes>): State {
    State(ledger, false, map[], map[], [])
  }

  /** Each save replaces what the save before it wrote, and that is what its own instance had last seen. */
  ghost predicate SavesChain(first: Option<Bytes>, saves: seq<Save>) {
    && (saves != [] ==> saves[0].base == first)
    && (forall i, j :: 0 <= i && i + 1 == j < |saves| ==> saves[j].base == Some(saves[i].text))
  }

  ghost predicate OneHolder(s: State) {
    && (forall p :: p in s.phases && HoldsLock(s.phases[p]) ==> s.lock)
    && (forall p, q :: p in s.phases && q in s.phases && HoldsLock(s.phases[p]) && HoldsLock(s.phases[q]) ==> p == q)
  }

  ghost predicate ComparedIsFresh(s: State) {
    forall p :: p in s.phases && s.phases[p] == Compared ==> s.ledger == LoadedBy(s, p)
  }

  ghost predicate Inv(first: Option<Bytes>, s: State) {
    && OneHolder(s)
    && ComparedIsFresh(s)
    && SavesChain(first, s.saves)
    && s.ledger == if s.saves == [] then first else Some(s.saves[|s.saves| - 1].text)
  }

  lemma StepKeepsInv(first: Option<Bytes>, s: State, step: Step)
    requires Inv(first, s) && Apply(s, step).Some?
    ensures Inv(first, Apply(s, step).value)
  {
    StepKeepsOneHolder(s, step);
    StepKeepsComparedFresh(s, step);
    StepKeepsSaves(first, s, step);
    hide Apply, OneHolder, ComparedIsFresh, SavesChain;
  }

  lemma StepKeepsOneHolder(s: State, step: Step)
    requires OneHolder(s) && Apply(s, step).Some?
    ensures OneHolder(Apply(s, step).value)
  {
    hide LoadedBy;
  }

  lemma StepKeepsComparedFresh(s: State, step: Step)
    requires OneHolder(s) && ComparedIsFresh(s) && Apply(s, step).Some?
    ensures ComparedIsFresh(Apply(s, step).value)
  {
  }

  lemma StepKeepsSaves(first: Option<Bytes>, s: State, step: Step)
    requires Inv(first, s) && Apply(s, step).Some?
    ensures var s' := Apply(s, step).value;
            SavesChain(first, s'.saves) && s'.ledger == if s'.saves == [] then first
                                                        else Some(s'.saves[|s'.saves| - 1].text)
  {
    hide OneHolder, LoadedBy;
    if step.Replace? {
      assert s.phases[step.p] == Compared;
    }
  }

  lemma {:induction false} RunKeepsInv(first: Option<Bytes>, steps: seq<Step>)
    ensures Inv(first, Run(Initial(first), steps))
  {
    if steps != [] {
      RunKeepsInv(first, steps[..|steps| - 1]);
      var before := Run(Initial(first), steps[..|steps| - 1]);
      if Apply(before, steps[|steps| - 1]).Some? {
        StepKeepsInv(first, before, steps[|steps| - 1]);
      }
    }
  }

  /**
   In every interleaving no save is lost: the ledger is the last save of a chain in which each save
   replaces its predecessor, which is exactly what the saving instance had last loaded or saved.
   */
  lemma SavesNeverOverwriteUnseenContents(first: Option<Bytes>, steps: seq<Step>)
    ensures var s := Run(Initial(first), steps);
            && SavesChain(first, s.saves)
            && s.ledger == (if s.saves == [] then first else Some(s.saves[|s.saves| - 1].text))
            && (forall p :: p in s.phases && s.phases[p] == Compared ==> s.ledger == LoadedBy(s, p))
  {
    RunKeepsInv(first, steps);
  }

  // ---------------------------------------------------------------- saves that go through

  ghost function Then(s: State, step: Step): State {
    if Apply(s, step).Some? then Apply(s, step).value else s
  }

  lemma RunSnoc(s: State, steps: seq<Step>, step: Step)
    ensures Run(s, steps + [step]) == Then(Run(s, steps), step)
  {
    assert (steps + [step])[..|steps|] == steps;
  }

  lemma EmptyRun(s: State)
    ensures Run(s, []) == s
  {
  }

  lemma RunOfFour(s: State, a: Step, b: Step, c: Step, d: Step)
    ensures Run(s, [a, b, c, d]) == Then(Then(Then(Then(s, a), b), c), d)
  {
    hide Run, Then;
    EmptyRun(s);
    RunSnoc(s, [], a);
    RunSnoc(s, [a], b);
    RunSnoc(s, [a, b], c);
    RunSnoc(s, [a, b, c], d);
    assert [] + [a] == [a] && [a] + [b] == [a, b] && [a, b] + [c] == [a, b, c] && [a, b, c] + [d] == [a, b, c, d];
  }

  /** An instance that reloads and meets no other saves its bytes and frees the lock. */
  lemma UncontendedSaveGoesThrough(s: State, p: Pid, bytes: Bytes)
    requires PhaseOf(s, p) == Ready && !s.lock
    ensures var after := Run(s, [Reload(p), TakeLock(p), Compare(p), Replace(p, bytes), Unlock(p)]);
            && after.ledger == Some(bytes) && after.saves == s.saves + [Save(p, s.ledger, bytes)]
            && !after.lock && PhaseOf(after, p) == Ready && LoadedBy(after, p) == Some(bytes)
            && (forall q :: q != p ==> PhaseOf(after, q) == PhaseOf(s, q) && LoadedBy(after, q) == LoadedBy(s, q))
  {
    hide Run;
    RunOfFour(s, Reload(p), TakeLock(p), Compare(p), Replace(p, bytes));
    RunSnoc(s, [Reload(p), TakeLock(p), Compare(p), Replace(p, bytes)], Unlock(p));
    assert [Reload(p), TakeLock(p), Compare(p), Replace(p, bytes)] + [Unlock(p)]
        == [Reload(p), TakeLock(p), Compare(p), Replace(p, bytes), Unlock(p)];
  }

  /** An instance whose ledger was saved by another since it loaded changes nothing, and frees the lock. */
  lemma StaleSaveChangesNothing(s: State, p: Pid, bytes: Bytes)
    requires PhaseOf(s, p) == Ready && !s.lock && s.ledger != LoadedBy(s, p)
    ensures var after := Run(s, [TakeLock(p), Compare(p), Replace(p, bytes), Unlock(p)]);
            && after == s.(phases := after.phases) && PhaseOf(after, p) == Ready
            && forall q :: PhaseOf(after, q) == PhaseOf(s, q)
  {
    hide Run;
    RunOfFour(s, TakeLock(p), Compare(p), Replace(p, bytes), Unlock(p));
  }

  ghost predicate IsHeld(s: State) {
    exists p :: p in s.phases && (s.phases[p] == LockTaken || s.phases[p] == Compared || s.phases[p] == Replaced)
  }

  /** Until an instance crashes, the lock is taken exactly while one of them holds it. */
  lemma {:induction false} LockIsHeldUntilACrash(first: Option<Bytes>, steps: seq<Step>)
    requires forall step <- steps :: !step.Crash?
    ensures var s := Run(Initial(first), steps); s.lock <==> IsHeld(s)
  {
    if steps != [] {
      var n := |steps| - 1;
      var before := Run(Initial(first), steps[..n]);
      LockIsHeldUntilACrash(first, steps[..n]);
      RunKeepsInv(first, steps[..n]);
      assert steps[n] in steps;
      if Apply(before, steps[n]).Some? {
        StepKeepsHeld(first, before, steps[n]);
      }
    }
  }

  lemma StepKeepsHeld(first: Option<Bytes>, s: State, step: Step)
    requires Inv(first, s) && Apply(s, step).Some? && !step.Crash? && (s.lock <==> IsHeld(s))
    ensures Apply(s, step).value.lock <==> IsHeld(Apply(s, step).value)
  {
    hide LoadedBy, SavesChain, ComparedIsFresh;
    var after := Apply(s, step).value;
    if !step.Reload? && !step.Unlock? {
      assert step.p in after.phases && after.phases[step.p] in [LockTaken, Compared, Replaced];
    }
    if step.Reload? && IsHeld(s) {
      var p :| p in s.phases && (s.phases[p] == LockTaken || s.phases[p] == Compared || s.phases[p] == Replaced);
      assert p in after.phases && after.phases[p] == s.phases[p];
    }
  }

  ghost predicate Orphaned(s: State) {
    s.lock && !IsHeld(s)
  }

  /** An instance that crashes while it holds the lock leaves it behind. */
  lemma CrashOrphansTheLock(s: State, p: Pid)
    requires OneHolder(s) && (PhaseOf(s, p) == LockTaken || PhaseOf(s, p) == Compared || PhaseOf(s, p) == Replaced)
    ensures Orphaned(Then(s, Crash(p)))
  {
  }

  /** While a lock is left behind nothing is saved any more. */
  lemma {:induction false} CrashedHolderBlocksLaterSaves(s: State, steps: seq<Step>)
    requires Orphaned(s)
    ensures var after := Run(s, steps); Orphaned(after) && after.ledger == s.ledger && after.saves == s.saves
  {
    if steps != [] {
      var n := |steps| - 1;
      CrashedHolderBlocksLaterSaves(s, steps[..n]);
      if Apply(Run(s, steps[..n]), steps[n]).Some? {
        OrphanStays(Run(s, steps[..n]), steps[n]);
      }
      hide Apply, Orphaned;
    }
  }

  lemma OrphanStays(s: State, step: Step)
    requires Orphaned(s) && Apply(s, step).Some?
    ensures var after := Apply(s, step).value; Orphaned(after) && after.ledger == s.ledger && after.saves == s.saves
  {
    hide LoadedBy;
  }
}
