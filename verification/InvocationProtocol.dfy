/**
 * The lock protocol with the writer's updates as its callbacks: the files any schedule commits are the
 * versions of one writer run, so what a consistent schedule leaves to be delivered the report accepts.
 */
module InvocationProtocol {
  import opened Common
  import opened InvocationArtifacts
  import opened DeliveryReport
  import opened InvocationWriter
  import Lock = InvocationLock

  /** How artifacts are written to files and read back. */
  datatype Codec = Codec(render: Artifact -> string, parse: string -> Option<Artifact>) {
    ghost predicate Lawful() {
      forall a :: parse(render(a)) == Some(a)
    }
  }

  /** The callback of a process that applies one writer update to whatever the file holds. */
  function Callback(codec: Codec, policy: Policy, op: Update, text: string): Lock.Outcome {
    match codec.parse(text)
    case None => Lock.Rejects
    case Some(a) =>
      match Step(policy, a, op)
      case Failure(_) => Lock.Rejects
      case Success(None) => Lock.Keeps
      case Success(Some(next)) => Lock.Replaces(codec.render(next))
  }

  /** A file that cannot be read or updated is left alone, and so is one the update does not change. */
  lemma CallbacksReplaceWhatChanges(codec: Codec, policy: Policy, op: Update, text: string)
    ensures var read := codec.parse(text);
            var outcome := Callback(codec, policy, op, text);
            && (outcome == Lock.Rejects <==> read == None || Step(policy, read.value, op).Failure?)
            && (outcome == Lock.Keeps <==> read.Some? && Step(policy, read.value, op) == Success(None))
            && (outcome.Replaces? ==>
                  && read.Some? && Step(policy, read.value, op).Success?
                  && outcome.next == codec.render(Commit(policy, read.value, op)))
  {
    hide Step;
  }

  function Callbacks(codec: Codec, policy: Policy, ops: Lock.Pid -> Update): Lock.Updates {
    (p: Lock.Pid, text: string) => Callback(codec, policy, ops(p), text)
  }

  /** The updates behind the commits after the first, which created the file. */
  ghost function UpdatesOf(ops: Lock.Pid -> Update, commits: seq<Lock.Commit>): (r: seq<Update>)
    requires commits != []
    ensures |r| == |commits| - 1
  {
    seq(|commits| - 1, i requires 0 <= i < |commits| - 1 => ops(commits[i + 1].pid))
  }

  lemma {:induction false} HistoryStep(policy: Policy, a: Artifact, updates: seq<Update>, i: nat)
    requires i < |updates|
    ensures History(policy, a, updates)[i + 1] == Commit(policy, History(policy, a, updates)[i], updates[i])
    decreases |updates|
  {
    hide Commit;
    var rest := History(policy, Commit(policy, a, updates[0]), updates[1..]);
    assert History(policy, a, updates) == [a] + rest;
    if i > 0 {
      HistoryStep(policy, Commit(policy, a, updates[0]), updates[1..], i - 1);
    }
  }

  lemma ReplacementIsACommit(codec: Codec, policy: Policy, op: Update, a: Artifact, next: string)
    requires codec.Lawful() && Callback(codec, policy, op, codec.render(a)) == Lock.Replaces(next)
    ensures next == codec.render(Commit(policy, a, op))
  {
    hide Step;
  }

  /** Each commit of a chain is the next version of the run of its updates. */
  lemma {:induction false} ChainIsAHistory(codec: Codec, policy: Policy, ops: Lock.Pid -> Update,
                                           commits: seq<Lock.Commit>, a: Artifact, i: nat)
    requires codec.Lawful() && Lock.Chain(Callbacks(codec, policy, ops), commits)
    requires i < |commits| && commits[0].text == codec.render(a)
    ensures commits[i].text == codec.render(History(policy, a, UpdatesOf(ops, commits))[i])
  {
    if i > 0 {
      var updates := UpdatesOf(ops, commits);
      ChainIsAHistory(codec, policy, ops, commits, a, i - 1);
      HistoryStep(policy, a, updates, i - 1);
      var version := History(policy, a, updates)[i - 1];
      assert commits[i].Updated? && commits[i].base == commits[i - 1].text;
      hide Commit, Step, Callback, History;
      assert Callbacks(codec, policy, ops)(commits[i].pid, commits[i].base)
          == Callback(codec, policy, ops(commits[i].pid), commits[i].base);
      ReplacementIsACommit(codec, policy, updates[i - 1], version, commits[i].text);
    }
  }

  // ----- what creators write -----

  ghost predicate Offered(steps: seq<Lock.Step>, text: string) {
    exists step <- steps :: step.BeginCreate? && step.initial == text
  }

  ghost predicate CreationsOffered(steps: seq<Lock.Step>, s: Lock.State) {
    && (forall p :: p in s.phases && s.phases[p].Creating? ==> Offered(steps, s.phases[p].initial))
    && (forall i :: 0 <= i < |s.commits| && s.commits[i].Created? ==> Offered(steps, s.commits[i].text))
  }

  lemma OfferedStays(steps: seq<Lock.Step>, step: Lock.Step, text: string)
    requires Offered(steps, text)
    ensures Offered(steps + [step], text)
  {
    var s :| s in steps && s.BeginCreate? && s.initial == text;
    assert s in steps + [step];
  }

  lemma StepKeepsOffers(f: Lock.Updates, steps: seq<Lock.Step>, s: Lock.State, step: Lock.Step)
    requires CreationsOffered(steps, s)
    ensures var next := Lock.Apply(f, s, step);
            CreationsOffered(steps + [step], if next.Some? then next.value else s)
  {
    var applied := Lock.Apply(f, s, step);
    var next := if applied.Some? then applied.value else s;
    forall text | Offered(steps, text)
      ensures Offered(steps + [step], text)
    {
      OfferedStays(steps, step, text);
    }
    assert step in steps + [step];
    hide Offered;
    if step.BeginCreate? {
      assert Offered(steps + [step], step.initial) by {
        InitialIsOffered(steps, step);
      }
    }
  }

  lemma InitialIsOffered(steps: seq<Lock.Step>, step: Lock.Step)
    requires step.BeginCreate?
    ensures Offered(steps + [step], step.initial)
  {
    assert step in steps + [step];
  }

  lemma {:induction false} RunKeepsOffers(f: Lock.Updates, steps: seq<Lock.Step>)
    ensures CreationsOffered(steps, Lock.Run(f, Lock.Initial(), steps))
  {
    if steps != [] {
      var n := |steps| - 1;
      RunKeepsOffers(f, steps[..n]);
      StepKeepsOffers(f, steps[..n], Lock.Run(f, Lock.Initial(), steps[..n]), steps[n]);
      assert steps == steps[..n] + [steps[n]];
    }
  }

  // ----- the joint result -----

  /** Every creator writes an artifact with an id and no receipts out of bounds. */
  ghost predicate CreatesArtifacts(codec: Codec, steps: seq<Lock.Step>) {
    forall step <- steps :: step.BeginCreate? ==> IsFreshArtifact(codec, step.initial)
  }

  ghost predicate IsFreshArtifact(codec: Codec, text: string) {
    exists a: Artifact :: text == codec.render(a) && a.invocationId.Some? && ReceiptsKept(a)
  }

  /** The artifacts a schedule committed, oldest first. */
  ghost predicate AreVersions(codec: Codec, commits: seq<Lock.Commit>, versions: seq<Artifact>) {
    |versions| == |commits| && forall i :: 0 <= i < |commits| ==> commits[i].text == codec.render(versions[i])
  }

  /** In any schedule of writers the commits are the versions of one run, the created artifact first. */
  lemma ScheduleIsAWriterRun(codec: Codec, policy: Policy, ops: Lock.Pid -> Update, steps: seq<Lock.Step>)
      returns (a: Artifact, updates: seq<Update>)
    requires codec.Lawful() && CreatesArtifacts(codec, steps)
    requires Lock.Run(Callbacks(codec, policy, ops), Lock.Initial(), steps).commits != []
    ensures var commits := Lock.Run(Callbacks(codec, policy, ops), Lock.Initial(), steps).commits;
            && a.invocationId.Some? && ReceiptsKept(a)
            && updates == UpdatesOf(ops, commits)
            && AreVersions(codec, commits, History(policy, a, updates))
  {
    var f := Callbacks(codec, policy, ops);
    var commits := Lock.Run(f, Lock.Initial(), steps).commits;
    Lock.CommitsFormAChain(f, steps);
    RunKeepsOffers(f, steps);
    assert commits[0].Created? && Offered(steps, commits[0].text);
    var step :| step in steps && step.BeginCreate? && step.initial == commits[0].text;
    assert IsFreshArtifact(codec, step.initial);
    a :| commits[0].text == codec.render(a) && a.invocationId.Some? && ReceiptsKept(a);
    updates := UpdatesOf(ops, commits);
    hide Lock.Run, History, ReceiptsKept;
    forall i | 0 <= i < |commits|
      ensures commits[i].text == codec.render(History(policy, a, updates)[i])
    {
      ChainIsAHistory(codec, policy, ops, commits, a, i);
    }
  }

  /** What a file of the schedule held at some time. */
  ghost predicate WasCommitted(codec: Codec, commits: seq<Lock.Commit>, d: Artifact) {
    exists i :: 0 <= i < |commits| && commits[i].text == codec.render(d)
  }

  lemma CommittedIsAVersion(codec: Codec, commits: seq<Lock.Commit>, versions: seq<Artifact>, d: Artifact)
    requires codec.Lawful() && AreVersions(codec, commits, versions) && WasCommitted(codec, commits, d)
    ensures d in versions
  {
    var i :| 0 <= i < |commits| && commits[i].text == codec.render(d);
    assert codec.parse(codec.render(versions[i])) == codec.parse(codec.render(d));
    assert versions[i] in versions;
  }

  /**
   * However writers interleave, crash and retry: when their committed updates contradict nothing recorded,
   * whatever versions of the file are delivered, in whatever order and number, form one conflict-free group,
   * and its survivor is a progression of each.
   */
  lemma ConsistentSchedulesAreAccepted(codec: Codec, policy: Policy, ops: Lock.Pid -> Update, steps: seq<Lock.Step>,
                                       deliveries: seq<Artifact>)
    requires codec.Lawful() && CreatesArtifacts(codec, steps)
    requires var commits := Lock.Run(Callbacks(codec, policy, ops), Lock.Initial(), steps).commits;
             && commits != []
             && (forall a: Artifact :: codec.render(a) == commits[0].text ==>
                   Consistent(policy, a, UpdatesOf(ops, commits)))
             && (forall d <- deliveries :: WasCommitted(codec, commits, d))
    requires deliveries != []
    ensures |KeysOf(deliveries)| == 1
    ensures ConflictFree(deliveries) && forall d <- deliveries :: IsProgression(d, Survivor(deliveries))
  {
    var commits := Lock.Run(Callbacks(codec, policy, ops), Lock.Initial(), steps).commits;
    var a, updates := ScheduleIsAWriterRun(codec, policy, ops, steps);
    assert History(policy, a, updates)[0] == a;
    forall d | d in deliveries
      ensures d in History(policy, a, updates)
    {
      CommittedIsAVersion(codec, commits, History(policy, a, updates), d);
    }
    hide Lock.Run, History, Consistent, ConflictFree, Survivor, IsProgression, ReceiptsKept, KeysOf, GroupOf;
    WriterRunsAreAccepted(policy, a, updates, deliveries);
  }
}
