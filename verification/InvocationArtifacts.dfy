/**
 Invocation artifacts: one JSON file per memory invocation, written under a lock and delivered to
 the telemetry report any number of times. Values the protocol only copies or compares are kept
 as canonical JSON text.
 */
module InvocationArtifacts {
  import opened Common

  type Json = string

  datatype Decision = Pending | Consult | Skip | Blocked

  datatype AttemptStatus = Running | Succeeded | Failed | Cancelled

  datatype GateObservation = GateObservation(evaluation: Option<Json>, reason: Option<string>, observedAt: int)

  datatype Opportunity = Opportunity(
    opportunityId: string, binding: Json, attribution: Option<Json>, identityBasis: string, captureBoundary: string,
    decision: Decision, decisionReason: Option<string>, decisionAt: Option<int>,
    gateObservation: Option<GateObservation>)

  datatype Attempt = Attempt(
    attemptId: string, invocationId: string, requestId: Option<string>, retryOf: Option<string>, trigger: string,
    context: Json,
    startedAt: int, status: AttemptStatus, finishedAt: Option<int>, details: Json)

  datatype Telemetry = Telemetry(schemaVersion: int, opportunity: Option<Opportunity>, attempt: Option<Attempt>)

  datatype Returned = Returned(tactics: seq<string>, invariants: seq<string>, cases: seq<string>, evidence: seq<string>)

  datatype Usage = Usage(recordedAt: Option<int>, usedMemory: bool, used: seq<string>, selected: seq<string>,
                         usedReturned: seq<string>, evidence: Option<Json>)

  datatype Receipt = Receipt(receiptId: string, preparedAt: int, data: Json)

  datatype Artifact = Artifact(
    invocationId: Option<string>, workspaceId: Option<string>, catalogRoot: Option<string>, markerPath: Option<string>,
    consultedAt: int, taskId: Option<string>, memoryConsulted: bool, consultTrigger: Option<string>,
    request: Option<Json>,
    retrievalGate: Option<Json>, returned: Returned, retrievalBasis: Option<Json>, usage: Usage,
    readReceipts: seq<Receipt>,
    telemetry: Option<Telemetry>)
  {
    function Opportunity(): Option<Opportunity> {
      if telemetry.None? then None else telemetry.value.opportunity
    }

    function Attempt(): Option<Attempt> {
      if telemetry.None? then None else telemetry.value.attempt
    }
  }

  predicate Terminal(attempt: Option<Attempt>) {
    attempt.Some? && attempt.value.status != Running
  }

  /** Receipts by id; a repeated id keeps its last receipt. */
  function ReceiptMap(receipts: seq<Receipt>): (index: map<string, Receipt>)
    ensures forall id :: id in index <==> exists r :: r in receipts && r.receiptId == id
    ensures forall id :: id in index ==> index[id] in receipts && index[id].receiptId == id
  {
    if receipts == [] then map[]
    else ReceiptMap(receipts[..|receipts| - 1])[receipts[|receipts| - 1].receiptId := receipts[|receipts| - 1]]
  }

  ghost predicate DistinctReceipts(receipts: seq<Receipt>) {
    forall i, j :: 0 <= i < j < |receipts| ==> receipts[i].receiptId != receipts[j].receiptId
  }
}
