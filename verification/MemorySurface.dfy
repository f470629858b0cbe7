/**
 The memory surface of a project: the stored artifacts, and the operations that begin a task,
 consult the memory for it and record how the consultation ended.
 */
module MemorySurface {
  import opened Common
  import opened InvocationArtifacts
  import opened InvocationWriter
  import opened UpdateEffects

  /** The project an artifact is written for. */
  datatype Project = Project(workspaceId: string, catalogRoot: string, markerPath: Option<string>)

  /** How a consultation came to its anchor: an opportunity of the caller's, or one begun for it. */
  datatype Anchor = Supplied | Begun(created: Artifact, observation: GateObservation)

  datatype SurfaceError = InvocationNotFound | ContextConflict | Rejected(cause: UpdateError)

  // ---------------------------------------------------------------- what a consultation leaves

  /** A supplied opportunity must exist, and a known one must have been taken in the same context. */
  ghost predicate Anchorable(artifacts: map<string, Artifact>, anchorId: string, anchor: Anchor, contextMatches: bool) {
    if anchorId in artifacts then contextMatches else anchor.Begun?
  }

  /** The anchor as the consultation finds it: as supplied, or with its gate observed. */
  ghost predicate Opens(artifacts: map<string, Artifact>, anchorId: string, anchor: Anchor, found: Artifact) {
    match anchor
    case Supplied => anchorId in artifacts && found == artifacts[anchorId]
    case Begun(created, observation) =>
      ObserveEffect(if anchorId in artifacts then artifacts[anchorId] else created, observation, Success(found))
  }

  /** What both kinds of consulted artifact say of the consultation. */
  ghost predicate Consulted(used: Artifact, usedId: string, attempt: Attempt, ending: Ending) {
    && used.memoryConsulted && used.consultTrigger == Some(attempt.trigger)
    && used.Attempt().Some? && EndsAs(attempt.(invocationId := usedId), used.Attempt().value, ending)
  }

  /** The anchor gains the attempt, the request and what the retrieval brought, and nothing else. */
  ghost predicate EndedOnAnchor(decided: Artifact, used: Artifact, usedId: string, attempt: Attempt,
                                request: Option<Json>, ending: Ending)
  {
    && Consulted(used, usedId, attempt, ending)
    && Brings(decided.(request := request), used, ending.outcome)
    && decided.telemetry.Some? && used.telemetry.value.(attempt := None) == decided.telemetry.value
    && used.(telemetry := decided.telemetry, memoryConsulted := decided.memoryConsulted,
             consultTrigger := decided.consultTrigger, request := decided.request, returned := decided.returned,
             retrievalBasis := decided.retrievalBasis, retrievalGate := decided.retrievalGate) == decided
  }

  /** A new artifact for the same opportunity: its own identity and attempt, no usage, no receipts. */
  ghost predicate EndedAfresh(project: Project, decided: Artifact, used: Artifact, usedId: string,
                              taskId: Option<string>, consultedAt: int, attempt: Attempt, request: Option<Json>,
                              ending: Ending)
  {
    && Consulted(used, usedId, attempt, ending)
    && used.invocationId == Some(usedId) && used.taskId == taskId && used.consultedAt == consultedAt
    && used.workspaceId == Some(project.workspaceId) && used.catalogRoot == Some(project.catalogRoot)
    && used.markerPath == project.markerPath
    && used.usage == Usage(None, false, [], [], [], None) && used.readReceipts == []
    && used.Opportunity() == decided.Opportunity()
    && decided.telemetry.Some? && used.telemetry.value.schemaVersion == decided.telemetry.value.schemaVersion
    && (if ending.outcome.None? then
          && used.request == request && used.returned == Returned([], [], [], [])
          && used.retrievalBasis == None && used.retrievalGate == None
        else
          var outcome := ending.outcome.value;
          && used.request == (if outcome.request.Some? then outcome.request else request)
          && used.returned == outcome.returned
          && used.retrievalBasis == outcome.basis && used.retrievalGate == outcome.gateEvaluation)
  }

  /** The artifact of a second consultation: the opportunity of the first one, and nothing else of it. */
  function RetryArtifact(project: Project, retryId: string, taskId: Option<string>, opportunity: Telemetry,
                         attempt: Attempt, request: Option<Json>, consultedAt: int): Artifact {
    Artifact(Some(retryId), Some(project.workspaceId), Some(project.catalogRoot), project.markerPath, consultedAt,
             taskId, true, Some(attempt.trigger), request, None, Returned([], [], [], []), None,
             Usage(None, false, [], [], [], None), [],
             Some(opportunity.(attempt := Some(attempt.(invocationId := retryId, status := Running)))))
  }

  ghost const NOTHING: Artifact :=
    Artifact(None, None, None, None, 0, None, false, None, None, None, Returned([], [], [], []), None,
             Usage(None, false, [], [], [], None), [], None)

  // ---------------------------------------------------------------- the steps of a consultation

  ghost predicate Runs(a: Artifact, attempt: Attempt) {
    && a.Attempt().Some? && a.Attempt().value.status == Running
    && a.Attempt().value.(status := attempt.status) == attempt
  }

  lemma ConsultFails(policy: Policy, artifacts: map<string, Artifact>, anchorId: string, anchor: Anchor, a: Artifact,
                     reason: Option<string>, trigger: string, now: int, cause: UpdateError)
    requires Opens(artifacts, anchorId, anchor, a)
    requires Effect(policy, a, Decide(Consult, reason, trigger, now), Failure(cause))
    ensures if a.Opportunity().None? then cause == NoOpportunity && anchorId in artifacts && artifacts[anchorId] == a
            else cause == DecisionConflict && Refused(a.Opportunity().value, Consult)
  {
    hide Refused;
  }

  lemma ConsultHolds(policy: Policy, a: Artifact, reason: Option<string>, trigger: string, now: int, decided: Artifact)
    requires Effect(policy, a, Decide(Consult, reason, trigger, now), Success(decided))
    ensures DecideEffect(policy, a, Consult, reason, trigger, now, Success(decided))
    ensures decided.telemetry.Some? && decided.Attempt() == a.Attempt()
  {
  }

  lemma RetryRuns(project: Project, retryId: string, taskId: Option<string>, decided: Artifact, attempt: Attempt,
                  request: Option<Json>, consultedAt: int)
    requires decided.telemetry.Some?
    ensures Runs(RetryArtifact(project, retryId, taskId, decided.telemetry.value, attempt, request, consultedAt),
                 attempt.(invocationId := retryId))
  {
  }

  lemma AnchorRuns(policy: Policy, decided: Artifact, attempt: Attempt, request: Option<Json>,
                   started: Result<Artifact, SurfaceError>)
    requires decided.telemetry.Some? && decided.Attempt().None?
    requires match started
             case Success(after) => Effect(policy, decided, StartAttempt(attempt, request), Success(after))
             case Failure(error) =>
               error.Rejected? && Effect(policy, decided, StartAttempt(attempt, request), Failure(error.cause))
    ensures started.Success? && StartEffect(decided, attempt, request, Success(started.value))
    ensures Runs(started.value, attempt)
  {
  }

  lemma RunningEnds(policy: Policy, running: Artifact, ending: Ending, result: Result<Artifact, SurfaceError>)
    requires running.Attempt().Some? && running.Attempt().value.status == Running
    requires match result
             case Success(after) => Effect(policy, running, ending.Update(), Success(after))
             case Failure(error) => error.Rejected? && Effect(policy, running, ending.Update(), Failure(error.cause))
    ensures result.Success? && FinishEffect(running, ending, Success(result.value))
  {
  }

  lemma AnchorEnded(decided: Artifact, running: Artifact, used: Artifact, usedId: string, attempt: Attempt,
                    request: Option<Json>, ending: Ending)
    requires decided.telemetry.Some? && decided.Attempt().None?
    requires StartEffect(decided, attempt.(invocationId := usedId), request, Success(running))
    requires FinishEffect(running, ending, Success(used))
    ensures EndedOnAnchor(decided, used, usedId, attempt, request, ending)
  {
  }

  lemma RetryEnded(project: Project, decided: Artifact, used: Artifact, usedId: string, taskId: Option<string>,
                   consultedAt: int, attempt: Attempt, request: Option<Json>, ending: Ending)
    requires decided.telemetry.Some?
    requires FinishEffect(RetryArtifact(project, usedId, taskId, decided.telemetry.value, attempt, request,
                                        consultedAt),
                          ending, Success(used))
    ensures EndedAfresh(project, decided, used, usedId, taskId, consultedAt, attempt, request, ending)
  {
  }

  /** The stored artifacts of one workspace, and the operations that create and update them. */
  class ProjectMemorySurface {
    const policy: Policy
    const project: Project
    var artifacts: map<string, Artifact>

    constructor (policy: Policy, project: Project)
      ensures this.policy == policy && this.project == project && artifacts == map[]
    {
      this.policy := policy;
      this.project := project;
      artifacts := map[];
    }

    method UpdateInvocation(invocationId: string, update: Update) returns (result: Result<Artifact, SurfaceError>)
      modifies this
      ensures invocationId !in old(artifacts) ==> result == Failure(InvocationNotFound) && artifacts == old(artifacts)
      ensures invocationId in old(artifacts) ==>
                && artifacts == old(artifacts)[invocationId := Commit(policy, old(artifacts)[invocationId], update)]
                && match result
                   case Success(after) =>
                     && artifacts[invocationId] == after
                     && Effect(policy, old(artifacts)[invocationId], update, Success(after))
                   case Failure(error) =>
                     && artifacts == old(artifacts) && error.Rejected?
                     && Effect(policy, old(artifacts)[invocationId], update, Failure(error.cause))
    {
      hide Effect;
      if invocationId in artifacts {
        UpdatesHaveTheirEffect(policy, artifacts[invocationId], update);
      }
      if invocationId !in artifacts {
        return Failure(InvocationNotFound);
      }
      var artifact := artifacts[invocationId];
      var step := Step(policy, artifact, update);
      if step.Failure? {
        return Failure(Rejected(step.error));
      }
      if step.value.Some? {
        artifacts := artifacts[invocationId := step.value.value];
      }
      return Success(artifacts[invocationId]);
    }

    /** Creates the anchor artifact once, and observes the gate once, however often the task begins. */
    method BeginTaskOpportunity(invocationId: string, anchor: Artifact, contextMatches: bool,
                                observation: GateObservation)
        returns (result: Result<Artifact, SurfaceError>)
      requires anchor.Opportunity().Some? && anchor.Opportunity().value.gateObservation.None?
      modifies this
      ensures invocationId in old(artifacts) && !contextMatches ==>
                result == Failure(ContextConflict) && artifacts == old(artifacts)
      ensures invocationId in old(artifacts) && contextMatches ==>
                && invocationId in artifacts
                && artifacts == old(artifacts)[invocationId := artifacts[invocationId]]
                && (if old(artifacts)[invocationId].Opportunity().None? then
                      result == Failure(Rejected(NoOpportunity)) && artifacts == old(artifacts)
                    else
                      && result == Success(artifacts[invocationId])
                      && ObserveEffect(old(artifacts)[invocationId], observation, Success(artifacts[invocationId])))
      ensures invocationId !in old(artifacts) ==>
                && result.Success? && invocationId in artifacts
                && artifacts == old(artifacts)[invocationId := artifacts[invocationId]]
                && ObserveEffect(anchor, observation, Success(artifacts[invocationId]))
    {
      if invocationId in artifacts {
        if !contextMatches {
          return Failure(ContextConflict);
        }
      } else {
        artifacts := artifacts[invocationId := anchor];
      }
      result := UpdateInvocation(invocationId, ObserveGate(observation));
    }

    /** Finds the anchor: a supplied opportunity is only inspected, otherwise one is begun. */
    method FindAnchor(anchorId: string, anchor: Anchor, contextMatches: bool) returns (error: Option<SurfaceError>)
      requires anchor.Begun? ==>
                 anchor.created.Opportunity().Some? && anchor.created.Opportunity().value.gateObservation.None?
      modifies this
      ensures anchorId !in old(artifacts) && anchor.Supplied? ==>
                error == Some(InvocationNotFound) && artifacts == old(artifacts)
      ensures anchorId in old(artifacts) && !contextMatches ==>
                error == Some(ContextConflict) && artifacts == old(artifacts)
      ensures Anchorable(old(artifacts), anchorId, anchor, contextMatches) ==>
                && anchorId in artifacts && artifacts == old(artifacts)[anchorId := artifacts[anchorId]]
                && (if error.None? then Opens(old(artifacts), anchorId, anchor, artifacts[anchorId])
                    else
                      && error == Some(Rejected(NoOpportunity)) && artifacts == old(artifacts)
                      && artifacts[anchorId].Opportunity().None?)
    {
      if anchorId !in artifacts && anchor.Supplied? {
        return Some(InvocationNotFound);
      }
      if anchorId in artifacts && !contextMatches {
        return Some(ContextConflict);
      }
      if anchor.Begun? {
        var begun := BeginTaskOpportunity(anchorId, anchor.created, contextMatches, anchor.observation);
        return if begun.Failure? then Some(begun.error) else None;
      }
      error := None;
    }

    /**
     Attaches the attempt to the anchor, or to a new invocation when the anchor already holds one, and
     records how the retrieval ended.
     */
    method RunRetrieval(anchorId: string, retryId: string, taskId: Option<string>, attempt: Attempt,
                        request: Option<Json>, consultedAt: int, ending: Ending)
        returns (result: Result<Artifact, SurfaceError>, usedId: string)
      requires retryId != anchorId && retryId !in artifacts
      requires anchorId in artifacts && artifacts[anchorId].telemetry.Some?
      modifies this
      ensures result.Success? && usedId in artifacts && result.value == artifacts[usedId]
      ensures var decided := old(artifacts)[anchorId];
              if decided.Attempt().None? then
                && usedId == anchorId && artifacts == old(artifacts)[anchorId := result.value]
                && EndedOnAnchor(decided, result.value, anchorId, attempt, request, ending)
              else
                && usedId == retryId && artifacts == old(artifacts)[retryId := result.value]
                && EndedAfresh(project, decided, result.value, retryId, taskId, consultedAt, attempt, request, ending)
    {
      hide Effect, RetryArtifact, EndedOnAnchor, EndedAfresh, StartEffect, FinishEffect, Commit, Step;
      usedId := anchorId;
      var decided := artifacts[anchorId];
      ghost var running: Artifact;
      if decided.Attempt().Some? {
        usedId := retryId;
        var retry := RetryArtifact(project, retryId, taskId, decided.telemetry.value, attempt, request, consultedAt);
        artifacts := artifacts[retryId := retry];
        running := retry;
        RetryRuns(project, retryId, taskId, decided, attempt, request, consultedAt);
      } else {
        var started := UpdateInvocation(anchorId, StartAttempt(attempt.(invocationId := anchorId), request));
        AnchorRuns(policy, decided, attempt.(invocationId := anchorId), request, started);
        running := artifacts[anchorId];
      }
      result := UpdateInvocation(usedId, ending.Update());
      RunningEnds(policy, running, ending, result);
      if decided.Attempt().None? {
        AnchorEnded(decided, running, result.value, anchorId, attempt, request, ending);
      } else {
        RetryEnded(project, decided, result.value, retryId, taskId, consultedAt, attempt, request, ending);
      }
    }

    /**
     Finds the anchor, decides to consult, runs the retrieval for it and records how it ended.
     */
    method ExecuteConsultation(anchorId: string, anchor: Anchor, contextMatches: bool, retryId: string,
                               taskId: Option<string>, reason: Option<string>, decidedAt: int, attempt: Attempt,
                               request: Option<Json>, consultedAt: int, ending: Ending)
        returns (result: Result<Artifact, SurfaceError>, usedId: string, ghost inspected: Artifact,
                 ghost decided: Artifact)
      requires retryId != anchorId && retryId !in artifacts
      requires anchor.Begun? ==>
                 anchor.created.Opportunity().Some? && anchor.created.Opportunity().value.gateObservation.None?
      modifies this
      ensures anchorId !in old(artifacts) && anchor.Supplied? ==>
                result == Failure(InvocationNotFound) && artifacts == old(artifacts)
      ensures anchorId in old(artifacts) && !contextMatches ==>
                result == Failure(ContextConflict) && artifacts == old(artifacts)
      ensures Anchorable(old(artifacts), anchorId, anchor, contextMatches) && result.Failure? ==>
                || (result == Failure(Rejected(NoOpportunity)) && artifacts == old(artifacts)
                    && anchorId in artifacts && artifacts[anchorId].Opportunity().None?)
                || (result == Failure(Rejected(DecisionConflict)) && artifacts == old(artifacts)[anchorId := inspected]
                    && Opens(old(artifacts), anchorId, anchor, inspected)
                    && inspected.Opportunity().Some? && Refused(inspected.Opportunity().value, Consult))
      ensures Anchorable(old(artifacts), anchorId, anchor, contextMatches) && result.Success? ==>
                && Opens(old(artifacts), anchorId, anchor, inspected)
                && DecideEffect(policy, inspected, Consult, reason, attempt.trigger, decidedAt, Success(decided))
                && usedId in artifacts && result.value == artifacts[usedId]
                && (if inspected.Attempt().None? then
                      && usedId == anchorId && artifacts == old(artifacts)[anchorId := result.value]
                      && EndedOnAnchor(decided, result.value, anchorId, attempt, request, ending)
                    else
                      && usedId == retryId && artifacts == old(artifacts)[anchorId := decided][retryId := result.value]
                      && EndedAfresh(project, decided, result.value, retryId, taskId, consultedAt, attempt, request,
                                     ending))
    {
      hide Effect, EndedOnAnchor, EndedAfresh, Refused, DecideEffect, ObserveEffect, Opens, Commit, Step;
      usedId := anchorId;
      var error := FindAnchor(anchorId, anchor, contextMatches);
      if error.Some? {
        return Failure(error.value), usedId, NOTHING, NOTHING;
      }
      inspected := artifacts[anchorId];
      decided := inspected;
      var consulted := UpdateInvocation(anchorId, Decide(Consult, reason, attempt.trigger, decidedAt));
      if consulted.Failure? {
        ConsultFails(policy, old(artifacts), anchorId, anchor, inspected, reason, attempt.trigger, decidedAt,
                     consulted.error.cause);
        return Failure(consulted.error), usedId, inspected, inspected;
      }
      decided := consulted.value;
      ConsultHolds(policy, inspected, reason, attempt.trigger, decidedAt, decided);
      result, usedId := RunRetrieval(anchorId, retryId, taskId, attempt, request, consultedAt, ending);
    }
  }
}
