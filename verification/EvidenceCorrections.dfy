/**
 Evidence corrections: the index over correction links, the resolution of an id to its latest
 correction, and the current records. Records are immutable; a correction is a new record that
 names the one it corrects.
 */
module EvidenceCorrections {
  import opened Common

  /** evidenceId and correctionOf count as absent when empty. */
  datatype Record = Record(evidenceId: string, correctionOf: string, payloadRef: string)

  datatype Index = Index(byId: map<string, Record>, childByParent: map<string, string>)

  datatype CorrectionError =
    | MissingEvidence(id: string, parent: string)
    | AmbiguousCorrections(parent: string, first: string, second: string)
    | CorrectionCycle(id: string)

  function ById(records: seq<Record>): (byId: map<string, Record>)
    ensures forall id :: id in byId ==> id != "" && byId[id] in records && byId[id].evidenceId == id
    ensures forall r :: r in records && r.evidenceId != "" ==> r.evidenceId in byId
  {
    if records == [] then map[]
    else
      var last := records[|records| - 1];
      if last.evidenceId == "" then ById(records[..|records| - 1])
      else ById(records[..|records| - 1])[last.evidenceId := last]
  }

  // ---------------------------------------------------------------- the correction relation

  ghost predicate Corrects(byId: map<string, Record>, child: string, parent: string) {
    child in byId && parent != "" && byId[child].correctionOf == parent
  }

  ghost predicate NoDangling(byId: map<string, Record>) {
    forall child, parent :: Corrects(byId, child, parent) ==> parent in byId
  }

  ghost predicate NoBranching(byId: map<string, Record>) {
    forall a, b, parent :: Corrects(byId, a, parent) && Corrects(byId, b, parent) ==> a == b
  }

  /** The record n corrections before id, if the links go back that far. */
  ghost function Ancestor(byId: map<string, Record>, id: string, n: nat): Option<string>
    decreases n
  {
    if n == 0 then Some(id)
    else if id in byId && byId[id].correctionOf != "" then Ancestor(byId, byId[id].correctionOf, n - 1)
    else None
  }

  ghost predicate Acyclic(byId: map<string, Record>) {
    forall id, n: nat :: id in byId && n > 0 ==> Ancestor(byId, id, n) != Some(id)
  }

  /** No correction dangles, branches or runs in a circle: the links are disjoint finite chains. */
  ghost predicate DisjointFiniteChains(byId: map<string, Record>) {
    NoDangling(byId) && NoBranching(byId) && Acyclic(byId)
  }

  ghost predicate Linked(index: Index) {
    && (forall parent :: parent in index.childByParent ==> Corrects(index.byId, index.childByParent[parent], parent))
    && (forall child, parent :: Corrects(index.byId, child, parent) ==>
          parent in index.byId && parent in index.childByParent && index.childByParent[parent] == child)
  }

  // ---------------------------------------------------------------- walking towards the head

  /** The record n corrections after id. */
  ghost function Descendant(childByParent: map<string, string>, id: string, n: nat): Option<string>
    decreases n
  {
    if n == 0 then Some(id)
    else if id in childByParent then Descendant(childByParent, childByParent[id], n - 1)
    else None
  }

  ghost predicate IsHead(index: Index, id: string, head: string) {
    head in index.byId && head !in index.childByParent && exists n: nat ::
      Descendant(index.childByParent, id, n) == Some(head)
  }

  lemma {:induction false} DescendantsCompose(childByParent: map<string, string>, id: string, m: nat, n: nat)
    requires Descendant(childByParent, id, m).Some?
    ensures Descendant(childByParent, id, m + n) == Descendant(childByParent, Descendant(childByParent, id, m).value, n)
    decreases m
  {
    if m > 0 {
      DescendantsCompose(childByParent, childByParent[id], m - 1, n);
    }
  }

  lemma {:induction false} AncestorsCompose(byId: map<string, Record>, id: string, m: nat, n: nat)
    requires Ancestor(byId, id, m).Some?
    ensures Ancestor(byId, id, m + n) == Ancestor(byId, Ancestor(byId, id, m).value, n)
    decreases m
  {
    if m > 0 {
      AncestorsCompose(byId, byId[id].correctionOf, m - 1, n);
    }
  }

  lemma {:induction false} DescendantHasAncestor(index: Index, id: string, n: nat)
    requires Linked(index) && Descendant(index.childByParent, id, n).Some?
    ensures Ancestor(index.byId, Descendant(index.childByParent, id, n).value, n) == Some(id)
    decreases n
  {
    if n > 0 {
      var child := index.childByParent[id];
      DescendantHasAncestor(index, child, n - 1);
      AncestorsCompose(index.byId, Descendant(index.childByParent, id, n).value, n - 1, 1);
      assert Ancestor(index.byId, child, 1) == Ancestor(index.byId, id, 0);
    }
  }

  lemma {:induction false} AncestorHasDescendant(index: Index, id: string, n: nat)
    requires Linked(index) && Ancestor(index.byId, id, n).Some?
    ensures Descendant(index.childByParent, Ancestor(index.byId, id, n).value, n) == Some(id)
    decreases n
  {
    if n > 0 {
      var parent := index.byId[id].correctionOf;
      AncestorHasDescendant(index, parent, n - 1);
      assert Corrects(index.byId, id, parent);
      DescendantsCompose(index.childByParent, Ancestor(index.byId, id, n).value, n - 1, 1);
      assert Descendant(index.childByParent, parent, 1) == Descendant(index.childByParent, id, 0);
    }
  }

  /** A record on a cycle has a correction however far one follows them, so it never resolves. */
  lemma {:induction false} CycleNeverEnds(index: Index, id: string, n: nat, m: nat)
    requires n > 0 && Descendant(index.childByParent, id, n) == Some(id)
    ensures Descendant(index.childByParent, id, m).Some?
              && Descendant(index.childByParent, id, m).value in index.childByParent
    decreases m
  {
    if m >= n {
      CycleNeverEnds(index, id, n, m - n);
      DescendantsCompose(index.childByParent, id, n, m - n);
    } else {
      PrefixIsDefined(index.childByParent, id, m, n);
      DescendantsCompose(index.childByParent, id, m, n - m);
    }
  }

  lemma {:induction false} PrefixIsDefined(childByParent: map<string, string>, id: string, m: nat, n: nat)
    requires m <= n && Descendant(childByParent, id, n).Some?
    ensures Descendant(childByParent, id, m).Some?
    decreases m
  {
    if m > 0 {
      PrefixIsDefined(childByParent, childByParent[id], m - 1, n - 1);
    }
  }

  lemma HeadOfCycleIsImpossible(index: Index, id: string, head: string)
    requires Linked(index) && IsHead(index, id, head)
    ensures forall n: nat :: n > 0 ==> Ancestor(index.byId, id, n) != Some(id)
  {
    forall n: nat | n > 0
      ensures Ancestor(index.byId, id, n) != Some(id)
    {
      if Ancestor(index.byId, id, n) == Some(id) {
        AncestorHasDescendant(index, id, n);
        var m: nat :| Descendant(index.childByParent, id, m) == Some(head);
        CycleNeverEnds(index, id, n, m);
      }
    }
  }

  // ---------------------------------------------------------------- resolving and building

  /** Follows corrections to the latest one; an id that was never recorded resolves to nothing. */
  method ResolveLatest(index: Index, evidenceId: string) returns (result: Result<Option<Record>, CorrectionError>)
    requires Linked(index)
    ensures evidenceId !in index.byId ==> result == Success(None)
    ensures evidenceId in index.byId && result.Success? ==>
              result.value.Some? && result.value.value.evidenceId in index.byId
              && index.byId[result.value.value.evidenceId] == result.value.value
              && IsHead(index, evidenceId, result.value.value.evidenceId)
    ensures result.Failure? ==> result.error.CorrectionCycle? && exists n: nat ::
              n > 0 && Ancestor(index.byId, result.error.id, n) == Some(result.error.id)
    ensures result.Failure? ==> result.error.id in index.byId
    requires forall id :: id in index.byId ==> index.byId[id].evidenceId == id
  {
    if evidenceId !in index.byId {
      return Success(None);
    }
    var seen: set<string> := {};
    var currentId := evidenceId;
    ghost var steps := 0;
    while currentId in index.childByParent
      invariant Descendant(index.childByParent, evidenceId, steps) == Some(currentId)
      invariant currentId in index.byId
      invariant seen <= index.childByParent.Keys
      invariant forall id :: id in seen ==>
                  exists k :: 0 <= k < steps && Descendant(index.childByParent, evidenceId, k) == Some(id)
      decreases index.childByParent.Keys - seen
    {
      if currentId in seen {
        ghost var k :| 0 <= k < steps && Descendant(index.childByParent, evidenceId, k) == Some(currentId);
        DescendantsCompose(index.childByParent, evidenceId, k, steps - k);
        DescendantHasAncestor(index, currentId, steps - k);
        return Failure(CorrectionCycle(currentId));
      }
      seen := seen + {currentId};
      DescendantsCompose(index.childByParent, evidenceId, steps, 1);
      steps := steps + 1;
      assert Corrects(index.byId, index.childByParent[currentId], currentId);
      currentId := index.childByParent[currentId];
      assert Descendant(index.childByParent, evidenceId, steps) == Descendant(index.childByParent, currentId, 0);
    }
    return Success(Some(index.byId[currentId]));
  }

  ghost predicate Explains(byId: map<string, Record>, error: CorrectionError) {
    match error
    case MissingEvidence(id, parent) => Corrects(byId, id, parent) && parent !in byId
    case AmbiguousCorrections(parent, first, second) => first != second && Corrects(byId, first, parent)
      && Corrects(byId, second, parent)
    case CorrectionCycle(id) => id in byId && exists n: nat :: n > 0 && Ancestor(byId, id, n) == Some(id)
  }

  /** The correction links of the records whose ids are not in remaining. */
  ghost predicate PartlyLinked(byId: map<string, Record>, childByParent: map<string, string>, remaining: set<string>) {
    && (forall parent :: parent in childByParent ==>
          Corrects(byId, childByParent[parent], parent) && childByParent[parent] !in remaining)
    && (forall child, parent :: child !in remaining && Corrects(byId, child, parent) ==>
          parent in byId && parent in childByParent && childByParent[parent] == child)
  }

  method LinkChildren(byId: map<string, Record>) returns (result: Result<map<string, string>, CorrectionError>)
    ensures result.Success? ==> Linked(Index(byId, result.value))
    ensures result.Failure? ==> Explains(byId, result.error)
  {
    var childByParent: map<string, string> := map[];
    var remaining := byId.Keys;
    while remaining != {}
      invariant remaining <= byId.Keys
      invariant PartlyLinked(byId, childByParent, remaining)
    {
      var id :| id in remaining;
      var parent := byId[id].correctionOf;
      if parent != "" {
        assert Corrects(byId, id, parent);
        if parent !in byId {
          return Failure(MissingEvidence(id, parent));
        }
        if parent in childByParent && childByParent[parent] != id {
          return Failure(AmbiguousCorrections(parent, childByParent[parent], id));
        }
        childByParent := childByParent[parent := id];
      }
      remaining := remaining - {id};
    }
    return Success(childByParent);
  }

  /** Builds the index, and accepts exactly the record sets whose corrections form disjoint finite chains. */
  method BuildIndex(records: seq<Record>) returns (result: Result<Index, CorrectionError>)
    ensures result.Success? <==> DisjointFiniteChains(ById(records))
    ensures result.Success? ==> result.value.byId == ById(records) && Linked(result.value)
    ensures result.Success? ==> forall id :: id in ById(records) ==> exists head :: IsHead(result.value, id, head)
    ensures result.Failure? ==> Explains(ById(records), result.error)
  {
    hide ById, Linked, IsHead, Ancestor;
    var byId := ById(records);
    var children := LinkChildren(byId);
    if children.Failure? {
      return Failure(children.error);
    }
    var index := Index(byId, children.value);
    var remaining := byId.Keys;
    while remaining != {}
      invariant remaining <= byId.Keys
      invariant forall id :: id in byId && id !in remaining ==> exists head :: IsHead(index, id, head)
    {
      var id :| id in remaining;
      var resolved := ResolveLatest(index, id);
      if resolved.Failure? {
        return Failure(resolved.error);
      }
      remaining := remaining - {id};
    }
    HeadsRuleOutCycles(index);
    return Success(index);
  }

  lemma HeadsRuleOutCycles(index: Index)
    requires Linked(index) && forall id :: id in index.byId ==> exists head :: IsHead(index, id, head)
    ensures forall id, n: nat :: id in index.byId && n > 0 ==> Ancestor(index.byId, id, n) != Some(id)
  {
    hide Linked, IsHead;
    forall id, n: nat | id in index.byId && n > 0
      ensures Ancestor(index.byId, id, n) != Some(id)
    {
      var head :| IsHead(index, id, head);
      HeadOfCycleIsImpossible(index, id, head);
    }
  }

  // ---------------------------------------------------------------- what a built index guarantees

  /** Every id of a built index resolves to exactly one record. */
  lemma HeadIsUnique(index: Index, id: string, first: string, second: string)
    requires IsHead(index, id, first) && IsHead(index, id, second)
    ensures first == second
  {
    var m: nat :| Descendant(index.childByParent, id, m) == Some(first);
    var n: nat :| Descendant(index.childByParent, id, n) == Some(second);
    if m <= n {
      DescendantsCompose(index.childByParent, id, m, n - m);
    } else {
      DescendantsCompose(index.childByParent, id, n, m - n);
    }
  }

  /** Resolution is idempotent: a head resolves to itself, and only heads do. */
  lemma HeadsResolveToThemselves(index: Index, id: string)
    requires Linked(index) && id in index.byId && exists head :: IsHead(index, id, head)
    ensures IsHead(index, id, id) <==> id !in index.childByParent
    ensures forall head :: IsHead(index, id, head) ==> IsHead(index, head, head)
  {
    forall head | IsHead(index, id, head)
      ensures IsHead(index, head, head)
    {
      assert Descendant(index.childByParent, head, 0) == Some(head);
    }
    assert Descendant(index.childByParent, id, 0) == Some(id);
  }

  /** Resolution is constant along a chain. */
  lemma ChainSharesItsHead(index: Index, child: string, parent: string, head: string)
    requires Linked(index) && Corrects(index.byId, child, parent)
    ensures IsHead(index, child, head) <==> IsHead(index, parent, head)
  {
    assert index.childByParent[parent] == child;
    if IsHead(index, child, head) {
      var n: nat :| Descendant(index.childByParent, child, n) == Some(head);
      assert Descendant(index.childByParent, parent, n + 1) == Some(head);
    }
    if IsHead(index, parent, head) {
      var n: nat :| Descendant(index.childByParent, parent, n) == Some(head);
      assert n > 0;
      assert Descendant(index.childByParent, child, n - 1) == Some(head);
    }
  }

  ghost function Uncorrected(index: Index): Record -> bool {
    (r: Record) => r.evidenceId !in index.childByParent
  }

  function CurrentOf(records: seq<Record>, childByParent: map<string, string>): seq<Record> {
    if records == [] then []
    else
      CurrentOf(records[..|records| - 1], childByParent)
      + if records[|records| - 1].evidenceId in childByParent then [] else [records[|records| - 1]]
  }

  method GetCurrentRecords(records: seq<Record>) returns (result: Result<seq<Record>, CorrectionError>)
    ensures result.Success? <==> DisjointFiniteChains(ById(records))
    ensures result.Success? ==> exists index: Index ::
              && index.byId == ById(records) && Linked(index)
              && (forall id :: id in index.byId ==> exists head :: IsHead(index, id, head))
              && result.value == CurrentOf(records, index.childByParent)
              && Picks(records, Uncorrected(index), result.value)
  {
    var index := BuildIndex(records);
    if index.Failure? {
      return Failure(index.error);
    }
    CurrentPicks(records, index.value);
    return Success(CurrentOf(records, index.value.childByParent));
  }

  /** The records nothing corrects, each as often as it is there and in the same order. */
  lemma {:induction false} CurrentPicks(records: seq<Record>, index: Index)
    ensures Picks(records, Uncorrected(index), CurrentOf(records, index.childByParent))
  {
    hide Picks;
    if records == [] {
      NothingPicked(Uncorrected(index));
    } else {
      var n := |records| - 1;
      CurrentPicks(records[..n], index);
      var kept := CurrentOf(records[..n], index.childByParent);
      PickOneMore(records[..n], Uncorrected(index), kept, records[n]);
      assert kept + [] == kept;
      assert records == records[..n] + [records[n]];
    }
  }

  lemma {:induction false} CurrentSelects(records: seq<Record>, childByParent: map<string, string>)
    ensures forall r :: r in CurrentOf(records, childByParent) <==> r in records && r.evidenceId !in childByParent
  {
    if records != [] {
      CurrentSelects(records[..|records| - 1], childByParent);
      assert records == records[..|records| - 1] + [records[|records| - 1]];
    }
  }

  lemma UniqueIdIsLookedUp(records: seq<Record>, r: Record)
    requires forall i, j :: 0 <= i < j < |records| ==> records[i].evidenceId != records[j].evidenceId
    requires r in records && r.evidenceId != ""
    ensures r.evidenceId in ById(records) && ById(records)[r.evidenceId] == r
  {
    var found := ById(records)[r.evidenceId];
    var i :| 0 <= i < |records| && records[i] == r;
    var j :| 0 <= j < |records| && records[j] == found;
    assert i == j;
  }

  /**
   With unique ids, the current records are exactly the chain heads, and every recorded id resolves
   to one and only one of them.
   */
  lemma CurrentRecordsAreTheHeads(records: seq<Record>, index: Index, r: Record)
    requires forall i, j :: 0 <= i < j < |records| ==> records[i].evidenceId != records[j].evidenceId
    requires r in records && r.evidenceId != ""
    requires index.byId == ById(records) && Linked(index) && exists head :: IsHead(index, r.evidenceId, head)
    ensures r in CurrentOf(records, index.childByParent) <==> IsHead(index, r.evidenceId, r.evidenceId)
    ensures exists current :: current in CurrentOf(records, index.childByParent)
              && IsHead(index, r.evidenceId, current.evidenceId)
                && forall other :: IsHead(index, r.evidenceId, other) ==> other == current.evidenceId
  {
    var head :| IsHead(index, r.evidenceId, head);
    CurrentSelects(records, index.childByParent);
    UniqueIdIsLookedUp(records, r);
    HeadsResolveToThemselves(index, r.evidenceId);
    var current := index.byId[head];
    assert current in CurrentOf(records, index.childByParent);
    forall other | IsHead(index, r.evidenceId, other)
      ensures other == head
    {
      HeadIsUnique(index, r.evidenceId, other, head);
    }
  }
}
