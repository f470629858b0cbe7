/**
 The lock protocol around an invocation artifact. Any number of processes interleave the file
 system steps of creating and updating one artifact: exclusive creation of a lock file, a snapshot,
 a temporary file, a check that nothing changed, an atomic rename, and a release that compares
 file identities before it unlinks.
 */
module InvocationLock {
  import opened Common

  type Pid = nat
  type Inode = nat
  type Text = string

  datatype File = File(inode: Inode, text: Text)

  /** What an update callback does with the artifact it is shown. */
  datatype Outcome = Rejects | Keeps | Replaces(next: Text)

  type Updates = (Pid, Text) -> Outcome

  datatype Phase =
    | Idle
    | Creating(initial: Text)
    | Acquiring
    | Holding(lock: Inode)
    | Inspecting(lock: Inode, snapshot: File)
    | Prepared(lock: Inode, snapshot: File, next: Text)
    | Verified(lock: Inode, snapshot: File, next: Text)
    | Releasing(lock: Inode)
    | Unlinking(lock: Inode)
    | Finished
    | Crashed

  datatype Commit = Created(pid: Pid, text: Text) | Updated(pid: Pid, base: Text, text: Text)

  datatype State = State(artifact: Option<File>, lock: Option<Inode>, phases: map<Pid, Phase>, commits: seq<Commit>)

  datatype Step =
    | BeginCreate(p: Pid, initial: Text)
    | Link(p: Pid, fileInode: Inode)
    | BeginUpdate(p: Pid)
    | OpenLock(p: Pid, lockInode: Inode)
    | GiveUp(p: Pid)
    | ReadSnapshot(p: Pid)
    | RunUpdate(p: Pid)
    | VerifyUnchanged(p: Pid)
    | Rename(p: Pid, fileInode: Inode)
    | Abandon(p: Pid)
    | CompareLock(p: Pid)
    | Unlink(p: Pid)
    | Crash(p: Pid)

  function PhaseOf(s: State, p: Pid): Phase {
    if p in s.phases then s.phases[p] else Idle
  }

  /** From opening the lock to unlinking it a process keeps the lock file's descriptor open. */
  ghost predicate Critical(phase: Phase) {
    phase.Holding? || phase.Inspecting? || phase.Prepared? || phase.Verified? || phase.Releasing? || phase.Unlinking?
  }

  ghost function Initial(): State {
    State(None, None, map[], [])
  }

  /** A new file gets an inode no existing file and no open descriptor has. */
  ghost predicate FreshInode(s: State, inode: Inode) {
    && s.lock != Some(inode)
    && (s.artifact.Some? ==> s.artifact.value.inode != inode)
    && forall q :: q in s.phases && Critical(s.phases[q]) ==> s.phases[q].lock != inode
  }

  ghost function Goto(s: State, p: Pid, phase: Phase): State {
    s.(phases := s.phases[p := phase])
  }

  /** The effect of one step, where it is enabled. */
  ghost function Apply(f: Updates, s: State, step: Step): Option<State> {
    var phase := PhaseOf(s, step.p);
    match step
    case BeginCreate(p, initial) => if phase.Idle? || phase.Finished? then Some(Goto(s, p, Creating(initial))) else None
    case Link(p, inode) =>
      // Publishing by link fails when the artifact exists; the loser goes on to update it.
      if !phase.Creating? then None
      else if s.artifact.Some? then Some(Goto(s, p, Acquiring))
      else if !FreshInode(s, inode) then None
      else Some(Goto(s, p, Finished).(artifact := Some(File(inode, phase.initial)),
                                      commits := s.commits + [Created(p, phase.initial)]))
    case BeginUpdate(p) => if phase.Idle? || phase.Finished? then Some(Goto(s, p, Acquiring)) else None
    case OpenLock(p, inode) =>
      if phase.Acquiring? && s.lock.None? && FreshInode(s, inode) then
        Some(Goto(s, p, Holding(inode)).(lock := Some(inode)))
      else None
    case GiveUp(p) => if phase.Acquiring? && s.lock.Some? then Some(Goto(s, p, Finished)) else None
    case ReadSnapshot(p) =>
      if !phase.Holding? then None
      else if s.artifact.None? then Some(Goto(s, p, Releasing(phase.lock)))
      else Some(Goto(s, p, Inspecting(phase.lock, s.artifact.value)))
    case RunUpdate(p) =>
      if !phase.Inspecting? then None
      else (match f(p, phase.snapshot.text)
            case Replaces(next) => Some(Goto(s, p, Prepared(phase.lock, phase.snapshot, next)))
            case _ => Some(Goto(s, p, Releasing(phase.lock))))
    case VerifyUnchanged(p) =>
      if !phase.Prepared? then None
      else if s.artifact != Some(phase.snapshot) then Some(Goto(s, p, Releasing(phase.lock)))
      else Some(Goto(s, p, Verified(phase.lock, phase.snapshot, phase.next)))
    case Rename(p, inode) =>
      if phase.Verified? && FreshInode(s, inode)
      then Some(Goto(s, p, Releasing(phase.lock)).(
        artifact := Some(File(inode, phase.next)),
        commits := s.commits + [Updated(p, phase.snapshot.text, phase.next)]))
      else None
    case Abandon(p) =>
      if phase.Holding? || phase.Inspecting? || phase.Prepared? || phase.Verified? then
        Some(Goto(s, p, Releasing(phase.lock)))
      else None
    case CompareLock(p) =>
      if !phase.Releasing? then None
      else if s.lock == Some(phase.lock) then Some(Goto(s, p, Unlinking(phase.lock)))
      else Some(Goto(s, p, Finished))
    case Unlink(p) => if phase.Unlinking? then Some(Goto(s, p, Finished).(lock := None)) else None
    case Crash(p) => Some(Goto(s, p, Crashed))
  }

  /** Any schedule: steps that are not enabled when their turn comes change nothing. */
  ghost function Run(f: Updates, s: State, steps: seq<Step>): State {
    if steps == [] then s
    else
      var before := Run(f, s, steps[..|steps| - 1]);
      var after := Apply(f, before, steps[|steps| - 1]);
      if after.Some? then after.value else before
  }

  // ---------------------------------------------------------------- the invariant

  /** One creation, then each commit is one update applied to the commit just before it. */
  ghost predicate Chain(f: Updates, commits: seq<Commit>) {
    && (commits != [] ==> commits[0].Created?)
    && forall i :: 0 < i < |commits| ==>
         commits[i].Updated? && commits[i].base == commits[i - 1].text
           && f(commits[i].pid, commits[i].base) == Replaces(commits[i].text)
  }

  ghost predicate HolderAgrees(f: Updates, s: State, p: Pid, phase: Phase) {
    && (Critical(phase) ==> s.lock == Some(phase.lock))
    && (phase.Inspecting? || phase.Prepared? || phase.Verified? ==> s.artifact == Some(phase.snapshot))
    && (phase.Prepared? || phase.Verified? ==> f(p, phase.snapshot.text) == Replaces(phase.next))
  }

  ghost predicate Inv(f: Updates, s: State) {
    && (forall p :: p in s.phases ==> HolderAgrees(f, s, p, s.phases[p]))
    && (forall p, q :: p in s.phases && q in s.phases && Critical(s.phases[p]) && Critical(s.phases[q]) ==> p == q)
    && Chain(f, s.commits)
    && (if s.commits == [] then s.artifact.None?
        else s.artifact.Some? && s.artifact.value.text == s.commits[|s.commits| - 1].text)
  }

  lemma StepKeepsInv(f: Updates, s: State, step: Step)
    requires Inv(f, s) && Apply(f, s, step).Some?
    ensures Inv(f, Apply(f, s, step).value)
  {
    var s' := Apply(f, s, step).value;
    StepKeepsHolders(f, s, step);
    StepKeepsChain(f, s, step);
    hide Apply, Chain, HolderAgrees;
  }

  lemma StepKeepsHolders(f: Updates, s: State, step: Step)
    requires Inv(f, s) && Apply(f, s, step).Some?
    ensures var s' := Apply(f, s, step).value;
            && (forall p :: p in s'.phases ==> HolderAgrees(f, s', p, s'.phases[p]))
            && (forall p, q ::
                  p in s'.phases && q in s'.phases && Critical(s'.phases[p]) && Critical(s'.phases[q]) ==> p == q)
  {
    hide Chain, HolderAgrees, Apply;
    var s' := Apply(f, s, step).value;
    forall q | q in s'.phases
      ensures HolderAgrees(f, s', q, s'.phases[q])
    {
      StepKeepsHolder(f, s, step, q);
    }
    forall p, q | p in s'.phases && q in s'.phases && Critical(s'.phases[p]) && Critical(s'.phases[q])
      ensures p == q
    {
      OneStaysCritical(f, s, step, p, q);
    }
  }

  lemma StepKeepsHolder(f: Updates, s: State, step: Step, q: Pid)
    requires Inv(f, s) && Apply(f, s, step).Some? && q in Apply(f, s, step).value.phases
    ensures HolderAgrees(f, Apply(f, s, step).value, q, Apply(f, s, step).value.phases[q])
  {
    hide Chain;
    if q in s.phases {
      assert HolderAgrees(f, s, q, s.phases[q]);
    }
    if step.p in s.phases {
      assert HolderAgrees(f, s, step.p, s.phases[step.p]);
    }
  }

  lemma OneStaysCritical(f: Updates, s: State, step: Step, p: Pid, q: Pid)
    requires Inv(f, s) && Apply(f, s, step).Some?
    requires var phases := Apply(f, s, step).value.phases;
             p in phases && q in phases && Critical(phases[p]) && Critical(phases[q])
    ensures p == q
  {
    hide Chain;
    var phases := Apply(f, s, step).value.phases;
    if p in s.phases && Critical(s.phases[p]) {
      assert HolderAgrees(f, s, p, s.phases[p]);
    }
    if q in s.phases && Critical(s.phases[q]) {
      assert HolderAgrees(f, s, q, s.phases[q]);
    }
  }

  lemma StepKeepsChain(f: Updates, s: State, step: Step)
    requires Inv(f, s) && Apply(f, s, step).Some?
    ensures var s' := Apply(f, s, step).value;
            && Chain(f, s'.commits)
            && (if s'.commits == [] then s'.artifact.None?
                else s'.artifact.Some? && s'.artifact.value.text == s'.commits[|s'.commits| - 1].text)
  {
    if step.Rename? {
      assert HolderAgrees(f, s, step.p, s.phases[step.p]);
    }
  }

  lemma {:induction false} RunKeepsInv(f: Updates, steps: seq<Step>)
    ensures Inv(f, Run(f, Initial(), steps))
  {
    if steps != [] {
      RunKeepsInv(f, steps[..|steps| - 1]);
      var before := Run(f, Initial(), steps[..|steps| - 1]);
      if Apply(f, before, steps[|steps| - 1]).Some? {
        StepKeepsInv(f, before, steps[|steps| - 1]);
      }
    }
  }

  // ---------------------------------------------------------------- what every schedule guarantees

  /** At most one process is between opening and unlinking the lock. */
  lemma MutualExclusion(f: Updates, steps: seq<Step>, p: Pid, q: Pid)
    requires var s := Run(f, Initial(), steps); Critical(PhaseOf(s, p)) && Critical(PhaseOf(s, q))
    ensures p == q
  {
    var s := Run(f, Initial(), steps);
    RunKeepsInv(f, steps);
    assert HolderAgrees(f, s, p, s.phases[p]) && HolderAgrees(f, s, q, s.phases[q]);
  }

  /** The lock file a release unlinks is the releasing process's own, and nobody else's descriptor. */
  lemma ReleaseRemovesOnlyItsOwnLock(f: Updates, steps: seq<Step>, p: Pid)
    requires var s := Run(f, Initial(), steps); PhaseOf(s, p).Unlinking? || PhaseOf(s, p).Releasing?
    ensures var s := Run(f, Initial(), steps);
            && s.lock == Some(PhaseOf(s, p).lock)
            && forall q :: q != p && Critical(PhaseOf(s, q)) ==> PhaseOf(s, q).lock != s.lock.value
  {
    var s := Run(f, Initial(), steps);
    RunKeepsInv(f, steps);
    assert HolderAgrees(f, s, p, s.phases[p]);
  }

  /** What is on disk is always the last of a chain that starts with the one creation that won. */
  lemma CommitsFormAChain(f: Updates, steps: seq<Step>)
    ensures var s := Run(f, Initial(), steps);
            && Chain(f, s.commits)
            && (s.artifact.Some? <==> s.commits != [])
            && (s.artifact.Some? ==> s.artifact.value.text == s.commits[|s.commits| - 1].text)
            && (forall i, j ::
                  0 <= i < |s.commits| && 0 <= j < |s.commits| && s.commits[i].Created? && s.commits[j].Created? ==>
                    i == j)
  {
    RunKeepsInv(f, steps);
  }

  /**
   No update is lost: a rename replaces exactly the text its process read, and that process's
   verification can not fail while every process follows the protocol.
   */
  lemma RenameReplacesWhatWasRead(f: Updates, steps: seq<Step>, p: Pid)
    requires var s := Run(f, Initial(), steps); PhaseOf(s, p).Prepared? || PhaseOf(s, p).Verified?
    ensures var s := Run(f, Initial(), steps);
            var phase := PhaseOf(s, p);
            && s.artifact == Some(phase.snapshot) && s.commits != []
            && phase.snapshot.text == s.commits[|s.commits| - 1].text
            && f(p, phase.snapshot.text) == Replaces(phase.next)
            && (phase.Prepared? ==>
                  Apply(f, s, VerifyUnchanged(p)) == Some(Goto(s, p, Verified(phase.lock, phase.snapshot, phase.next))))
  {
    var s := Run(f, Initial(), steps);
    RunKeepsInv(f, steps);
    assert HolderAgrees(f, s, p, s.phases[p]);
  }

  lemma {:induction false} CommitsOnlyGrow(f: Updates, s: State, steps: seq<Step>)
    ensures s.commits <= Run(f, s, steps).commits
  {
    if steps != [] {
      CommitsOnlyGrow(f, s, steps[..|steps| - 1]);
      var before := Run(f, s, steps[..|steps| - 1]);
      var after := Apply(f, before, steps[|steps| - 1]);
      assert after.Some? ==> before.commits <= after.value.commits;
    }
  }

  /** A rejected, unchanged, contended, abandoned or crashed update commits nothing: only link and rename commit. */
  lemma OnlyLinkAndRenameCommit(f: Updates, s: State, step: Step)
    requires Apply(f, s, step).Some?
    ensures var s' := Apply(f, s, step).value;
            if s'.commits == s.commits then s'.artifact == s.artifact
            else
              && |s'.commits| == |s.commits| + 1 && s'.artifact.Some?
              && s'.artifact.value.text == s'.commits[|s.commits|].text
              && s'.commits[|s.commits|].pid == step.p && (step.Link? || step.Rename?)
  {
  }

  ghost predicate Orphaned(s: State) {
    s.lock.Some? && s.artifact.Some? && forall p :: p in s.phases ==> !Critical(s.phases[p])
  }

  /** A process that crashes after opening the lock leaves it orphaned. */
  lemma CrashOrphansTheLock(f: Updates, p: Pid, text: Text, fileInode: Inode, lockInode: Inode)
    requires fileInode != lockInode
    ensures Orphaned(Run(f, Initial(),
                         [BeginCreate(p, text), Link(p, fileInode), BeginUpdate(p), OpenLock(p, lockInode), Crash(p)]))
  {
    var first, linking := [BeginCreate(p, text)], [BeginCreate(p, text), Link(p, fileInode)];
    var waiting, opening := linking + [BeginUpdate(p)], linking + [BeginUpdate(p), OpenLock(p, lockInode)];
    var states := CrashSteps(f, p, text, fileInode, lockInode);
    hide Apply, Run, Orphaned;
    RunNothing(f, Initial());
    assert [] + [BeginCreate(p, text)] == first;
    RunOne(f, Initial(), [], BeginCreate(p, text), states[0], states[1]);
    assert first + [Link(p, fileInode)] == linking;
    RunOne(f, Initial(), first, Link(p, fileInode), states[1], states[2]);
    RunOne(f, Initial(), linking, BeginUpdate(p), states[2], states[3]);
    assert waiting + [OpenLock(p, lockInode)] == opening;
    RunOne(f, Initial(), waiting, OpenLock(p, lockInode), states[3], states[4]);
    RunOne(f, Initial(), opening, Crash(p), states[4], states[5]);
    assert opening + [Crash(p)]
        == [BeginCreate(p, text), Link(p, fileInode), BeginUpdate(p), OpenLock(p, lockInode), Crash(p)];
  }

  /** The states of that schedule. */
  lemma CrashSteps(f: Updates, p: Pid, text: Text, fileInode: Inode, lockInode: Inode) returns (states: seq<State>)
    requires fileInode != lockInode
    ensures |states| == 6 && states[0] == Initial() && Orphaned(states[5])
    ensures Apply(f, states[0], BeginCreate(p, text)) == Some(states[1])
    ensures Apply(f, states[1], Link(p, fileInode)) == Some(states[2])
    ensures Apply(f, states[2], BeginUpdate(p)) == Some(states[3])
    ensures Apply(f, states[3], OpenLock(p, lockInode)) == Some(states[4])
    ensures Apply(f, states[4], Crash(p)) == Some(states[5])
  {
    var created := Goto(Initial(), p, Creating(text));
    var linked := Goto(created, p, Finished).(
      artifact := Some(File(fileInode, text)), commits := created.commits + [Created(p, text)]);
    var waiting := Goto(linked, p, Acquiring);
    var holding := Goto(waiting, p, Holding(lockInode)).(lock := Some(lockInode));
    states := [Initial(), created, linked, waiting, holding, Goto(holding, p, Crashed)];
  }

  lemma RunNothing(f: Updates, s: State)
    ensures Run(f, s, []) == s
  {
  }

  lemma RunOne(f: Updates, start: State, steps: seq<Step>, step: Step, before: State, after: State)
    requires Run(f, start, steps) == before && Apply(f, before, step) == Some(after)
    ensures Run(f, start, steps + [step]) == after
  {
    assert (steps + [step])[..|steps|] == steps;
  }

  /** The price of the protocol: a lock whose holder crashed stays, and no later update ever commits. */
  lemma {:induction false} CrashedHolderBlocksLaterUpdates(f: Updates, s: State, steps: seq<Step>)
    requires Orphaned(s)
    ensures Orphaned(Run(f, s, steps))
    ensures Run(f, s, steps).lock == s.lock && Run(f, s, steps).artifact == s.artifact
              && Run(f, s, steps).commits == s.commits
  {
    if steps != [] {
      CrashedHolderBlocksLaterUpdates(f, s, steps[..|steps| - 1]);
    }
  }

  // ---------------------------------------------------------------- updates that go through

  ghost function Then(f: Updates, s: State, step: Step): State {
    if Apply(f, s, step).Some? then Apply(f, s, step).value else s
  }

  lemma RunSnoc(f: Updates, s: State, steps: seq<Step>, step: Step)
    ensures Run(f, s, steps + [step]) == Then(f, Run(f, s, steps), step)
  {
    assert (steps + [step])[..|steps|] == steps;
  }

  lemma {:induction false} RunConcat(f: Updates, s: State, a: seq<Step>, b: seq<Step>)
    ensures Run(f, s, a + b) == Run(f, Run(f, s, a), b)
    decreases |b|
  {
    hide Apply;
    if b == [] {
      assert a + b == a;
    } else {
      RunConcat(f, s, a, b[..|b| - 1]);
      assert (a + b)[..|a + b| - 1] == a + b[..|b| - 1];
    }
  }

  lemma RunOfFour(f: Updates, s: State, a: Step, b: Step, c: Step, d: Step)
    ensures Run(f, s, [a, b, c, d]) == Then(f, Then(f, Then(f, Then(f, s, a), b), c), d)
  {
    hide Run, Then;
    RunNothing(f, s);
    RunSnoc(f, s, [], a);
    RunSnoc(f, s, [a], b);
    RunSnoc(f, s, [a, b], c);
    RunSnoc(f, s, [a, b, c], d);
    assert [] + [a] == [a] && [a] + [b] == [a, b] && [a, b] + [c] == [a, b, c] && [a, b, c] + [d] == [a, b, c, d];
  }

  /** Everything but the phase of one process is as before. */
  ghost predicate OnlyMoved(s: State, after: State, p: Pid) {
    && after.artifact == s.artifact && after.commits == s.commits
    && forall q :: q != p ==> PhaseOf(after, q) == PhaseOf(s, q)
  }

  lemma UpdateIsPrepared(f: Updates, s: State, p: Pid, lock: Inode)
    requires (PhaseOf(s, p) == Idle || PhaseOf(s, p) == Finished) && s.lock == None && s.artifact.Some?
    requires FreshInode(s, lock)
    ensures var after := Run(f, s, [BeginUpdate(p), OpenLock(p, lock), ReadSnapshot(p), RunUpdate(p)]);
            var outcome := f(p, s.artifact.value.text);
            && OnlyMoved(s, after, p) && after.lock == Some(lock)
            && PhaseOf(after, p) == if outcome.Replaces? then Prepared(lock, s.artifact.value, outcome.next)
                                    else Releasing(lock)
  {
    hide Run;
    RunOfFour(f, s, BeginUpdate(p), OpenLock(p, lock), ReadSnapshot(p), RunUpdate(p));
    var waiting := Goto(s, p, Acquiring);
    var holding := Goto(waiting, p, Holding(lock)).(lock := Some(lock));
    assert Then(f, s, BeginUpdate(p)) == waiting;
    assert FreshInode(waiting, lock);
    assert Then(f, waiting, OpenLock(p, lock)) == holding;
    assert Then(f, holding, ReadSnapshot(p)) == Goto(holding, p, Inspecting(lock, s.artifact.value));
  }

  lemma PreparedUpdateCommits(f: Updates, s: State, p: Pid, lock: Inode, next: Text, fileInode: Inode)
    requires s.artifact.Some? && PhaseOf(s, p) == Prepared(lock, s.artifact.value, next) && s.lock == Some(lock)
    requires FreshInode(s, fileInode)
    ensures var after := Run(f, s, [VerifyUnchanged(p), Rename(p, fileInode), CompareLock(p), Unlink(p)]);
            && after.artifact == Some(File(fileInode, next)) && after.lock == None && PhaseOf(after, p) == Finished
            && after.commits == s.commits + [Updated(p, s.artifact.value.text, next)]
            && forall q :: q != p ==> PhaseOf(after, q) == PhaseOf(s, q)
  {
    hide Run;
    RunOfFour(f, s, VerifyUnchanged(p), Rename(p, fileInode), CompareLock(p), Unlink(p));
    var verified := Goto(s, p, Verified(lock, s.artifact.value, next));
    assert Then(f, s, VerifyUnchanged(p)) == verified;
    assert FreshInode(verified, fileInode);
  }

  lemma RefusedUpdateReleases(f: Updates, s: State, p: Pid, lock: Inode, fileInode: Inode)
    requires PhaseOf(s, p) == Releasing(lock) && s.lock == Some(lock)
    ensures var after := Run(f, s, [VerifyUnchanged(p), Rename(p, fileInode), CompareLock(p), Unlink(p)]);
            OnlyMoved(s, after, p) && after.lock == None && PhaseOf(after, p) == Finished
  {
    hide Run;
    RunOfFour(f, s, VerifyUnchanged(p), Rename(p, fileInode), CompareLock(p), Unlink(p));
    assert Then(f, s, VerifyUnchanged(p)) == s && Then(f, s, Rename(p, fileInode)) == s;
  }

  /** The steps of one update. */
  ghost function UpdateSteps(p: Pid, lock: Inode, fileInode: Inode): seq<Step> {
    [BeginUpdate(p), OpenLock(p, lock), ReadSnapshot(p), RunUpdate(p)]
    + [VerifyUnchanged(p), Rename(p, fileInode), CompareLock(p), Unlink(p)]
  }

  /** An update that meets no other commits what its callback makes of the artifact, and frees the lock. */
  lemma UncontendedUpdateCommits(f: Updates, s: State, p: Pid, lock: Inode, fileInode: Inode)
    requires (PhaseOf(s, p) == Idle || PhaseOf(s, p) == Finished) && s.lock == None && s.artifact.Some?
    requires FreshInode(s, lock) && FreshInode(s, fileInode) && lock != fileInode
    ensures var after := Run(f, s, UpdateSteps(p, lock, fileInode));
            var text := s.artifact.value.text;
            && after.lock == None && PhaseOf(after, p) == Finished
            && (forall q :: q != p ==> PhaseOf(after, q) == PhaseOf(s, q))
            && match f(p, text)
               case Replaces(next) =>
                 after.artifact == Some(File(fileInode, next)) && after.commits == s.commits + [Updated(p, text, next)]
               case _ => after.artifact == s.artifact && after.commits == s.commits
  {
    hide Run, Apply, Critical;
    var first := [BeginUpdate(p), OpenLock(p, lock), ReadSnapshot(p), RunUpdate(p)];
    var prepared := Run(f, s, first);
    UpdateIsPrepared(f, s, p, lock);
    RunConcat(f, s, first, [VerifyUnchanged(p), Rename(p, fileInode), CompareLock(p), Unlink(p)]);
    var outcome := f(p, s.artifact.value.text);
    if outcome.Replaces? {
      StaysFresh(s, prepared, p, lock, fileInode);
      PreparedUpdateCommits(f, prepared, p, lock, outcome.next, fileInode);
    } else {
      RefusedUpdateReleases(f, prepared, p, lock, fileInode);
    }
  }

  lemma StaysFresh(s: State, after: State, p: Pid, lock: Inode, fileInode: Inode)
    requires FreshInode(s, fileInode) && OnlyMoved(s, after, p) && lock != fileInode && after.lock == Some(lock)
    requires PhaseOf(after, p).Prepared? && PhaseOf(after, p).lock == lock
    ensures FreshInode(after, fileInode)
  {
    forall q | q in after.phases && Critical(after.phases[q])
      ensures after.phases[q].lock != fileInode
    {
      if q != p {
        assert PhaseOf(after, q) == PhaseOf(s, q);
      }
    }
  }

  ghost predicate IsHeld(s: State) {
    exists p :: p in s.phases && Critical(s.phases[p]) && s.lock == Some(s.phases[p].lock)
  }

  /** Until a process crashes, a lock file exists only while a process holds it. */
  lemma {:induction false} LockIsHeldUntilACrash(f: Updates, steps: seq<Step>)
    requires forall step <- steps :: !step.Crash?
    ensures var s := Run(f, Initial(), steps); s.lock.Some? <==> IsHeld(s)
  {
    if steps != [] {
      hide Inv, IsHeld, Apply;
      var n := |steps| - 1;
      var before := Run(f, Initial(), steps[..n]);
      LockIsHeldUntilACrash(f, steps[..n]);
      RunKeepsInv(f, steps[..n]);
      assert steps[n] in steps;
      if Apply(f, before, steps[n]).Some? {
        StepKeepsHeld(f, before, steps[n]);
      }
    } else {
      NobodyHolds();
    }
  }

  lemma NobodyHolds()
    ensures !IsHeld(Initial())
  {
  }

  lemma StepKeepsHeld(f: Updates, s: State, step: Step)
    requires Inv(f, s) && Apply(f, s, step).Some? && !step.Crash? && (s.lock.Some? <==> IsHeld(s))
    ensures Apply(f, s, step).value.lock.Some? <==> IsHeld(Apply(f, s, step).value)
  {
    hide Chain;
    var after := Apply(f, s, step).value;
    if s.lock.Some? {
      var p :| p in s.phases && Critical(s.phases[p]) && s.lock == Some(s.phases[p].lock);
      assert p in after.phases;
    }
    assert step.p in after.phases;
    if step.p in s.phases {
      assert HolderAgrees(f, s, step.p, s.phases[step.p]);
    }
  }
}
