/**
 Parameter observations: each evidence record's distilled entries become observations, every later
 observation of a key supersedes the one before it, and retrieval shows only what is not superseded
 and still backed by current evidence.
 */
module Parameters {
  import opened Common

  datatype Evidence = Evidence(evidenceId: string, workspaceId: Option<string>, capturedAt: int)

  datatype Span = Span(startLine: int, startChar: int, locator: string)

  datatype Entry = Entry(parameterKey: string, rawValueText: string, observationKind: string, span: Span, value: string,
                         confidence: string)

  /** Observation ids digest these fields, and are told apart by them. */
  datatype ObservationId = ObservationIdOf(workspaceId: Option<string>, parameterKey: string, observationKind: string,
                                           observedAt: int,
                                           sourceEvidenceRefs: seq<string>, span: Span, rawValueText: string)

  datatype Observation = Observation(id: ObservationId, parameterKey: string, entry: Entry, observedAt: int,
                                     sourceEvidenceRefs: seq<string>, supersedes: Option<ObservationId>)

  // ---------------------------------------------------------------- distinct entries

  datatype EntryKey = EntryKey(parameterKey: string, observationKind: string, rawValueText: string, span: Span)

  function KeyOf(entry: Entry): EntryKey {
    EntryKey(entry.parameterKey, entry.observationKind, entry.rawValueText, entry.span)
  }

  function ReplaceByKey(entries: seq<Entry>, entry: Entry): seq<Entry> {
    if entries == [] then []
    else [if KeyOf(entries[0]) == KeyOf(entry) then entry else entries[0]] + ReplaceByKey(entries[1..], entry)
  }

  /** Equal keys keep the place of the first and the value of the last. */
  function DedupeEntries(entries: seq<Entry>): seq<Entry> {
    if entries == [] then []
    else
      var earlier, last := DedupeEntries(entries[..|entries| - 1]), entries[|entries| - 1];
      if exists e :: e in earlier && KeyOf(e) == KeyOf(last) then ReplaceByKey(earlier, last) else earlier + [last]
  }

  ghost predicate DistinctKeys(entries: seq<Entry>) {
    forall i, j :: 0 <= i < j < |entries| ==> KeyOf(entries[i]) != KeyOf(entries[j])
  }

  lemma {:induction false} ReplaceKeepsKeys(entries: seq<Entry>, entry: Entry)
    ensures |ReplaceByKey(entries, entry)| == |entries|
    ensures forall i :: 0 <= i < |entries| ==> KeyOf(ReplaceByKey(entries, entry)[i]) == KeyOf(entries[i])
  {
    if entries != [] {
      ReplaceKeepsKeys(entries[1..], entry);
    }
  }

  lemma {:induction false} DedupedEntriesAreDistinct(entries: seq<Entry>)
    ensures DistinctKeys(DedupeEntries(entries))
  {
    if entries != [] {
      var prefix, last := entries[..|entries| - 1], entries[|entries| - 1];
      DedupedEntriesAreDistinct(prefix);
      ReplaceKeepsKeys(DedupeEntries(prefix), last);
    }
  }

  // ---------------------------------------------------------------- grouping by key, in source order

  function IdOf(e: Evidence, entry: Entry): ObservationId {
    ObservationIdOf(e.workspaceId, entry.parameterKey, entry.observationKind, e.capturedAt, [e.evidenceId], entry.span,
                    entry.rawValueText)
  }

  function IndexesOf(entries: seq<Entry>, key: string): seq<nat> {
    if entries == [] then []
    else
      var earlier := IndexesOf(entries[..|entries| - 1], key);
      if entries[|entries| - 1].parameterKey == key then earlier + [|entries| - 1] else earlier
  }

  predicate InSourceOrder(entries: seq<Entry>, i: nat, j: nat) {
    if i < |entries| && j < |entries| then
      || entries[i].span.startLine < entries[j].span.startLine
      || (entries[i].span.startLine == entries[j].span.startLine
          && entries[i].span.startChar <= entries[j].span.startChar)
    else i < |entries| || j >= |entries|
  }

  function SourceOrder(entries: seq<Entry>): (nat, nat) -> bool {
    (i: nat, j: nat) => InSourceOrder(entries, i, j)
  }

  /** The entries of one key by line, then character. */
  function SortedGroup(entries: seq<Entry>, key: string): seq<nat> {
    Sort(SourceOrder(entries), IndexesOf(entries, key))
  }

  lemma {:induction false} IndexesHold(entries: seq<Entry>, key: string)
    ensures Distinct(IndexesOf(entries, key))
    ensures forall i :: i in IndexesOf(entries, key) <==> 0 <= i < |entries| && entries[i].parameterKey == key
  {
    if entries != [] {
      var earlier := IndexesOf(entries[..|entries| - 1], key);
      IndexesHold(entries[..|entries| - 1], key);
      forall k | 0 <= k < |earlier|
        ensures earlier[k] < |entries| - 1
      {
        assert earlier[k] in earlier;
      }
    }
  }

  lemma SortedGroupHolds(entries: seq<Entry>, key: string)
    ensures var g := SortedGroup(entries, key);
            && Distinct(g)
            && SortedBy(SourceOrder(entries), g)
            && (forall i :: i in g <==> 0 <= i < |entries| && entries[i].parameterKey == key)
  {
    var le := SourceOrder(entries);
    assert TotalPreorder(le);
    IndexesHold(entries, key);
    SortSorts(le, IndexesOf(entries, key));
    DistinctFromMultiset(IndexesOf(entries, key), SortedGroup(entries, key));
  }

  // ---------------------------------------------------------------- materialized observations

  ghost predicate BuiltFrom(e: Evidence, entry: Entry, o: Observation) {
    && o.id == IdOf(e, entry) && o.parameterKey == entry.parameterKey && o.entry == entry
    && o.observedAt == e.capturedAt && o.sourceEvidenceRefs == [e.evidenceId]
  }

  /** Each observation of a group supersedes the one before it; the first supersedes nothing. */
  ghost predicate Chained(observations: seq<Observation>, group: seq<nat>) {
    && (forall q :: 0 <= q < |group| ==> group[q] < |observations|)
    && (group != [] ==> observations[group[0]].supersedes == None)
    && forall p, q :: 0 <= p && q == p + 1 < |group| ==>
         observations[group[q]].supersedes == Some(observations[group[p]].id)
  }

  ghost predicate Materialized(e: Evidence, entries: seq<Entry>, observations: seq<Observation>) {
    && |observations| == |entries|
    && (forall i :: 0 <= i < |entries| ==> BuiltFrom(e, entries[i], observations[i]))
    && forall key :: Chained(observations, SortedGroup(entries, key))
  }

  method GroupEntries(entries: seq<Entry>) returns (grouped: map<string, seq<nat>>)
    ensures forall key :: key in grouped <==> exists i :: 0 <= i < |entries| && entries[i].parameterKey == key
    ensures forall key :: key in grouped ==> grouped[key] == IndexesOf(entries, key)
  {
    grouped := map[];
    var n := 0;
    while n < |entries|
      invariant 0 <= n <= |entries|
      invariant forall key :: key in grouped <==> exists i :: 0 <= i < n && entries[i].parameterKey == key
      invariant forall key :: key in grouped ==> grouped[key] == IndexesOf(entries[..n], key)
      invariant forall key :: key !in grouped ==> IndexesOf(entries[..n], key) == []
    {
      var key := entries[n].parameterKey;
      assert entries[..n + 1][..n] == entries[..n];
      if key !in grouped {
        grouped := grouped[key := []];
      }
      grouped := grouped[key := grouped[key] + [n]];
      n := n + 1;
    }
    assert entries[..|entries|] == entries;
  }

  /** Entry i is linked to its predecessor in its sorted group, or to nothing when it comes first. */
  ghost predicate LinkedRight(e: Evidence, entries: seq<Entry>, links: map<nat, ObservationId>, group: seq<nat>, q: nat)
    requires q < |group| && forall p :: 0 <= p < |group| ==> group[p] < |entries|
  {
    if q == 0 then group[q] !in links else group[q] in links && links[group[q]] == IdOf(e, entries[group[q - 1]])
  }

  /** The links recorded once every group but the waiting ones has been walked. */
  ghost predicate LinksFor(e: Evidence, entries: seq<Entry>, links: map<nat, ObservationId>, waiting: set<string>) {
    && (forall i :: i in links ==> i < |entries| && entries[i].parameterKey !in waiting)
    && forall key :: key !in waiting ==> GroupLinked(e, entries, links, SortedGroup(entries, key))
  }

  ghost predicate GroupLinked(e: Evidence, entries: seq<Entry>, links: map<nat, ObservationId>, group: seq<nat>) {
    && (forall p :: 0 <= p < |group| ==> group[p] < |entries|)
    && forall q: nat :: q < |group| ==> LinkedRight(e, entries, links, group, q)
  }

  method LinkGroup(e: Evidence, entries: seq<Entry>, links: map<nat, ObservationId>, group: seq<nat>)
      returns (more: map<nat, ObservationId>)
    requires Distinct(group) && forall q :: 0 <= q < |group| ==> group[q] < |entries| && group[q] !in links
    ensures GroupLinked(e, entries, more, group)
    ensures forall i :: i !in group ==> (i in more <==> i in links) && (i in links ==> more[i] == links[i])
  {
    more := links;
    var index := 1;
    while index < |group|
      invariant 1 <= index && (group != [] ==> index <= |group|)
      invariant forall q: nat :: q < index && q < |group| ==> LinkedRight(e, entries, more, group, q)
      invariant forall i :: i !in group ==> (i in more <==> i in links) && (i in links ==> more[i] == links[i])
    {
      ghost var before := more;
      more := more[group[index] := IdOf(e, entries[group[index - 1]])];
      forall q: nat | q < index
        ensures LinkedRight(e, entries, more, group, q)
      {
        assert LinkedRight(e, entries, before, group, q) && group[q] != group[index];
      }
      index := index + 1;
    }
  }

  lemma LinkOneMoreGroup(e: Evidence, entries: seq<Entry>, links: map<nat, ObservationId>,
                         more: map<nat, ObservationId>, waiting: set<string>, key: string)
    requires LinksFor(e, entries, links, waiting) && key in waiting
    requires GroupLinked(e, entries, more, SortedGroup(entries, key))
    requires forall i :: i !in SortedGroup(entries, key) ==>
               (i in more <==> i in links) && (i in links ==> more[i] == links[i])
    ensures LinksFor(e, entries, more, waiting - {key})
  {
    SortedGroupHolds(entries, key);
    hide SortedGroup;
    forall i | i in more
      ensures i < |entries| && entries[i].parameterKey !in waiting - {key}
    {
      if i !in SortedGroup(entries, key) {
        assert i in links;
      }
    }
    forall other | other !in waiting - {key}
      ensures GroupLinked(e, entries, more, SortedGroup(entries, other))
    {
      if other != key {
        OtherGroupStays(e, entries, links, more, SortedGroup(entries, key), key, other);
      }
    }
  }

  lemma OtherGroupStays(e: Evidence, entries: seq<Entry>, links: map<nat, ObservationId>, more: map<nat, ObservationId>,
                        changed: seq<nat>, key: string, other: string)
    requires other != key && GroupLinked(e, entries, links, SortedGroup(entries, other))
    requires forall i :: i in changed <==> 0 <= i < |entries| && entries[i].parameterKey == key
    requires forall i :: i !in changed ==> (i in more <==> i in links) && (i in links ==> more[i] == links[i])
    ensures GroupLinked(e, entries, more, SortedGroup(entries, other))
  {
    SortedGroupHolds(entries, other);
    var group := SortedGroup(entries, other);
    forall q: nat | q < |group|
      ensures LinkedRight(e, entries, more, group, q)
    {
      assert group[q] in group && LinkedRight(e, entries, links, group, q);
    }
  }

  lemma {:induction false} NoEntriesNoGroup(entries: seq<Entry>, key: string)
    requires forall i :: 0 <= i < |entries| ==> entries[i].parameterKey != key
    ensures IndexesOf(entries, key) == []
  {
    if entries != [] {
      NoEntriesNoGroup(entries[..|entries| - 1], key);
    }
  }

  lemma NothingLinkedYet(e: Evidence, entries: seq<Entry>, grouped: map<string, seq<nat>>)
    requires forall key :: key in grouped <==> exists i :: 0 <= i < |entries| && entries[i].parameterKey == key
    ensures LinksFor(e, entries, map[], grouped.Keys)
  {
    forall key | key !in grouped.Keys
      ensures SortedGroup(entries, key) == []
    {
      NoEntriesNoGroup(entries, key);
    }
  }

  lemma WaitingGroupIsFree(e: Evidence, entries: seq<Entry>, links: map<nat, ObservationId>, waiting: set<string>,
                           key: string)
    requires LinksFor(e, entries, links, waiting) && key in waiting
    ensures var group := SortedGroup(entries, key);
            Distinct(group) && forall q :: 0 <= q < |group| ==> group[q] < |entries| && group[q] !in links
  {
    SortedGroupHolds(entries, key);
    var group := SortedGroup(entries, key);
    forall q | 0 <= q < |group|
      ensures group[q] < |entries| && group[q] !in links
    {
      assert group[q] in group;
    }
  }

  method LinkGroups(e: Evidence, entries: seq<Entry>) returns (links: map<nat, ObservationId>)
    ensures LinksFor(e, entries, links, {})
  {
    var grouped := GroupEntries(entries);
    links := map[];
    var waiting := grouped.Keys;
    NothingLinkedYet(e, entries, grouped);
    hide GroupLinked, LinksFor;
    while waiting != {}
      invariant waiting <= grouped.Keys
      invariant LinksFor(e, entries, links, waiting)
    {
      var key :| key in waiting;
      WaitingGroupIsFree(e, entries, links, waiting, key);
      var group := Sort(SourceOrder(entries), grouped[key]);
      assert group == SortedGroup(entries, key);
      var more := LinkGroup(e, entries, links, group);
      LinkOneMoreGroup(e, entries, links, more, waiting, key);
      links := more;
      waiting := waiting - {key};
    }
  }

  ghost function LinkOf(links: map<nat, ObservationId>, i: nat): Option<ObservationId> {
    if i in links then Some(links[i]) else None
  }

  /** The observations so far are built from their entries, each with its recorded link. */
  ghost predicate BuiltSoFar(e: Evidence, entries: seq<Entry>, links: map<nat, ObservationId>,
                             observations: seq<Observation>) {
    && |observations| <= |entries|
    && forall i: nat :: i < |observations| ==>
         BuiltFrom(e, entries[i], observations[i]) && observations[i].supersedes == LinkOf(links, i)
  }

  lemma LinkedGroupIsChained(e: Evidence, entries: seq<Entry>, links: map<nat, ObservationId>,
                             observations: seq<Observation>, group: seq<nat>)
    requires |observations| == |entries| && BuiltSoFar(e, entries, links, observations)
    requires GroupLinked(e, entries, links, group)
    ensures Chained(observations, group)
  {
    hide IdOf;
    if group != [] {
      assert LinkedRight(e, entries, links, group, 0);
    }
    forall p, q | 0 <= p && q == p + 1 < |group|
      ensures observations[group[q]].supersedes == Some(observations[group[p]].id)
    {
      assert LinkedRight(e, entries, links, group, q);
      assert BuiltFrom(e, entries[group[p]], observations[group[p]]);
    }
  }

  method MaterializeObservations(e: Evidence, entries: seq<Entry>) returns (observations: seq<Observation>)
    ensures Materialized(e, entries, observations)
  {
    hide IdOf, SortedGroup, GroupLinked, Chained;
    var links := LinkGroups(e, entries);
    observations := [];
    var n := 0;
    while n < |entries|
      invariant 0 <= n <= |entries| && |observations| == n
      invariant BuiltSoFar(e, entries, links, observations)
    {
      var entry := entries[n];
      observations := observations + [Observation(IdOf(e, entry), entry.parameterKey, entry, e.capturedAt,
                                                  [e.evidenceId], if n in links then Some(links[n]) else None)];
      n := n + 1;
    }
    forall key
      ensures Chained(observations, SortedGroup(entries, key))
    {
      LinkedGroupIsChained(e, entries, links, observations, SortedGroup(entries, key));
    }
  }

  // ---------------------------------------------------------------- what retrieval shows

  datatype Indexes = Indexes(byEvidence: map<string, seq<Observation>>, superseded: set<ObservationId>,
                             current: set<string>)

  ghost function BackedBy(observations: seq<Observation>, evidenceId: string): seq<Observation> {
    if observations == [] then []
    else
      var earlier, last := BackedBy(observations[..|observations| - 1], evidenceId), observations[|observations| - 1];
      earlier + Copies(Occurrences(last.sourceEvidenceRefs, evidenceId), last)
  }

  function Copies(n: nat, o: Observation): (r: seq<Observation>)
    ensures |r| == n && forall x <- r :: x == o
  {
    if n == 0 then [] else Copies(n - 1, o) + [o]
  }

  ghost function Occurrences(refs: seq<string>, id: string): nat {
    if refs == [] then 0 else Occurrences(refs[..|refs| - 1], id) + if refs[|refs| - 1] == id then 1 else 0
  }

  ghost function SupersededIn(observations: seq<Observation>): set<ObservationId> {
    set o | o in observations && o.supersedes.Some? :: o.supersedes.value
  }

  function Listed(byEvidence: map<string, seq<Observation>>, evidenceId: string): seq<Observation> {
    if evidenceId in byEvidence then byEvidence[evidenceId] else []
  }

  lemma SupersededGrows(observations: seq<Observation>, o: Observation)
    ensures SupersededIn(observations + [o]) == SupersededIn(observations) + if o.supersedes.Some? then
              {o.supersedes.value}
                                                                             else {}
  {
    forall x | x in observations
      ensures x in observations + [o]
    {
    }
    assert (observations + [o])[|observations|] == o;
  }

  method IndexObservations(observations: seq<Observation>)
      returns (byEvidence: map<string, seq<Observation>>, superseded: set<ObservationId>)
    ensures superseded == SupersededIn(observations)
    ensures forall id :: Listed(byEvidence, id) == BackedBy(observations, id)
  {
    byEvidence, superseded := map[], {};
    hide BackedBy, SupersededIn;
    NothingIsListed();
    var n := 0;
    assert observations[..0] == [];
    while n < |observations|
      invariant 0 <= n <= |observations|
      invariant superseded == SupersededIn(observations[..n])
      invariant forall id :: Listed(byEvidence, id) == BackedBy(observations[..n], id)
    {
      var o := observations[n];
      assert observations[..n + 1] == observations[..n] + [o];
      SupersededGrows(observations[..n], o);
      if o.supersedes.Some? {
        superseded := superseded + {o.supersedes.value};
      }
      byEvidence := ListUnderRefs(byEvidence, o, observations[..n]);
      n := n + 1;
    }
    assert observations[..|observations|] == observations;
  }

  lemma NothingIsListed()
    ensures SupersededIn([]) == {} && forall id :: BackedBy([], id) == []
  {
  }

  method CurrentIds(evidence: seq<Evidence>) returns (current: set<string>)
    ensures current == set e | e in evidence && e.evidenceId != "" :: e.evidenceId
  {
    current := {};
    var n := 0;
    while n < |evidence|
      invariant 0 <= n <= |evidence|
      invariant current == set e | e in evidence[..n] && e.evidenceId != "" :: e.evidenceId
    {
      assert evidence[..n + 1] == evidence[..n] + [evidence[n]];
      if evidence[n].evidenceId != "" {
        current := current + {evidence[n].evidenceId};
      }
      n := n + 1;
    }
    assert evidence[..|evidence|] == evidence;
  }

  /** The index retrieval works from; evidence counts as current when the catalog lists it. */
  method BuildParameterIndexes(evidence: seq<Evidence>, observations: seq<Observation>) returns (indexes: Indexes)
    ensures indexes.superseded == SupersededIn(observations)
    ensures indexes.current == set e | e in evidence && e.evidenceId != "" :: e.evidenceId
    ensures forall id :: Listed(indexes.byEvidence, id) == BackedBy(observations, id)
  {
    var byEvidence, superseded := IndexObservations(observations);
    var current := CurrentIds(evidence);
    indexes := Indexes(byEvidence, superseded, current);
  }

  method ListUnderRefs(byEvidence: map<string, seq<Observation>>, o: Observation, ghost earlier: seq<Observation>)
      returns (more: map<string, seq<Observation>>)
    requires forall id :: Listed(byEvidence, id) == BackedBy(earlier, id)
    ensures forall id :: Listed(more, id) == BackedBy(earlier + [o], id)
  {
    hide BackedBy, Copies, Occurrences, Listed, ListsCopies;
    more := byEvidence;
    NoCopies(more, earlier, o);
    var k := 0;
    assert o.sourceEvidenceRefs[..0] == [];
    while k < |o.sourceEvidenceRefs|
      invariant 0 <= k <= |o.sourceEvidenceRefs|
      invariant ListsCopies(more, earlier, o, o.sourceEvidenceRefs[..k])
    {
      var id := o.sourceEvidenceRefs[k];
      assert o.sourceEvidenceRefs[..k + 1] == o.sourceEvidenceRefs[..k] + [id];
      ListOneMore(more, earlier, o, o.sourceEvidenceRefs[..k], id);
      more := more[id := Listed(more, id) + [o]];
      k := k + 1;
    }
    assert o.sourceEvidenceRefs[..|o.sourceEvidenceRefs|] == o.sourceEvidenceRefs;
    AllCopies(more, earlier, o);
  }

  lemma NoCopies(more: map<string, seq<Observation>>, earlier: seq<Observation>, o: Observation)
    requires forall id :: Listed(more, id) == BackedBy(earlier, id)
    ensures ListsCopies(more, earlier, o, [])
  {
    hide BackedBy, Listed;
  }

  lemma AllCopies(more: map<string, seq<Observation>>, earlier: seq<Observation>, o: Observation)
    requires ListsCopies(more, earlier, o, o.sourceEvidenceRefs)
    ensures forall id :: Listed(more, id) == BackedBy(earlier + [o], id)
  {
    hide Copies, Occurrences, Listed;
    assert (earlier + [o])[..|earlier|] == earlier;
  }

  ghost predicate ListsCopies(more: map<string, seq<Observation>>, earlier: seq<Observation>, o: Observation,
                              refs: seq<string>)
  {
    forall id :: Listed(more, id) == BackedBy(earlier, id) + Copies(Occurrences(refs, id), o)
  }

  lemma ListOneMore(more: map<string, seq<Observation>>, earlier: seq<Observation>, o: Observation, refs: seq<string>,
                    ref: string)
    requires ListsCopies(more, earlier, o, refs)
    ensures ListsCopies(more[ref := Listed(more, ref) + [o]], earlier, o, refs + [ref])
  {
    hide BackedBy, Copies, Occurrences;
    forall id
      ensures Listed(more[ref := Listed(more, ref) + [o]], id)
           == BackedBy(earlier, id) + Copies(Occurrences(refs + [ref], id), o)
    {
      assert Listed(more, id) == BackedBy(earlier, id) + Copies(Occurrences(refs, id), o);
      OccurrencesSnoc(refs, ref, id);
      CopiesSnoc(Occurrences(refs, id), o);
    }
  }

  lemma OccurrencesSnoc(refs: seq<string>, ref: string, id: string)
    ensures Occurrences(refs + [ref], id) == Occurrences(refs, id) + if ref == id then 1 else 0
  {
    assert (refs + [ref])[..|refs|] == refs;
  }

  lemma CopiesSnoc(n: nat, o: Observation)
    ensures Copies(n + 1, o) == Copies(n, o) + [o]
  {
  }

  predicate IsVisible(indexes: Indexes, o: Observation) {
    o.id !in indexes.superseded && exists ref :: ref in o.sourceEvidenceRefs && ref in indexes.current
  }

  /** The visible observations of a list, each id once; a repeated id keeps its last observation. */
  function VisibleOnce(indexes: Indexes, observations: seq<Observation>): map<ObservationId, Observation> {
    if observations == [] then map[]
    else
      var earlier, last := VisibleOnce(indexes, observations[..|observations| - 1]), observations[|observations| - 1];
      if IsVisible(indexes, last) then earlier[last.id := last] else earlier
  }

  lemma {:induction false} VisibleOnceHolds(indexes: Indexes, observations: seq<Observation>)
    ensures forall id :: id in VisibleOnce(indexes, observations) ==>
              var o := VisibleOnce(indexes, observations)[id]; o.id == id && o in observations && IsVisible(indexes, o)
    ensures forall o :: o in observations && IsVisible(indexes, o) ==> o.id in VisibleOnce(indexes, observations)
  {
    if observations != [] {
      VisibleOnceHolds(indexes, observations[..|observations| - 1]);
      assert observations == observations[..|observations| - 1] + [observations[|observations| - 1]];
    }
  }

  // ---------------------------------------------------------------- exactly one visible observation per key

  /** One evidence record with its deduplicated entries and the observations made of them. */
  datatype Source = Source(evidence: Evidence, entries: seq<Entry>, observations: seq<Observation>)

  ghost predicate Distilled(s: Source) {
    DistinctKeys(s.entries) && Materialized(s.evidence, s.entries, s.observations)
  }

  ghost predicate Catalogued(sources: seq<Source>) {
    && (forall n :: 0 <= n < |sources| ==> Distilled(sources[n]))
    && forall m, n :: 0 <= m < n < |sources| ==> sources[m].evidence.evidenceId != sources[n].evidence.evidenceId
  }

  ghost function AllObservations(sources: seq<Source>): seq<Observation> {
    if sources == [] then [] else AllObservations(sources[..|sources| - 1]) + sources[|sources| - 1].observations
  }

  lemma {:induction false} AllObservationsHold(sources: seq<Source>)
    ensures forall o :: o in AllObservations(sources)
              <==> exists n :: 0 <= n < |sources| && o in sources[n].observations
  {
    if sources != [] {
      var prefix, last := sources[..|sources| - 1], sources[|sources| - 1];
      AllObservationsHold(prefix);
      forall o
        ensures o in AllObservations(sources) <==> exists n :: 0 <= n < |sources| && o in sources[n].observations
      {
        if o in AllObservations(prefix) {
          var n :| 0 <= n < |prefix| && o in prefix[n].observations;
          assert o in sources[n].observations;
        }
        if exists n :: 0 <= n < |sources| && o in sources[n].observations {
          var n :| 0 <= n < |sources| && o in sources[n].observations;
          if n < |prefix| {
            assert o in prefix[n].observations;
          }
        }
      }
    }
  }

  lemma {:induction false} BackedHolds(observations: seq<Observation>, id: string)
    ensures forall o :: o in BackedBy(observations, id)
              <==> o in observations && Occurrences(o.sourceEvidenceRefs, id) > 0
  {
    if observations != [] {
      var prefix, last := observations[..|observations| - 1], observations[|observations| - 1];
      BackedHolds(prefix, id);
      assert observations == prefix + [last];
      var copies := Copies(Occurrences(last.sourceEvidenceRefs, id), last);
      assert BackedBy(observations, id) == BackedBy(prefix, id) + copies;
      assert copies != [] ==> copies[0] in copies;
    }
  }

  /** The place of an observation in its sorted group. */
  lemma PlaceInGroup(s: Source, o: Observation) returns (q: nat)
    requires Distilled(s) && o in s.observations
    ensures var g := SortedGroup(s.entries, o.parameterKey);
            q < |g| && g[q] < |s.observations| && s.observations[g[q]] == o
  {
    var i: nat :| i < |s.observations| && s.observations[i] == o;
    assert BuiltFrom(s.evidence, s.entries[i], o);
    SortedGroupHolds(s.entries, o.parameterKey);
    var g := SortedGroup(s.entries, o.parameterKey);
    assert i in g;
    q :| q < |g| && g[q] == i;
  }

  lemma SameIdSamePlace(s: Source, i: nat, j: nat)
    requires Distilled(s) && i < |s.observations| && j < |s.observations|
               && s.observations[i].id == s.observations[j].id
    ensures i == j
  {
    assert BuiltFrom(s.evidence, s.entries[i], s.observations[i])
             && BuiltFrom(s.evidence, s.entries[j], s.observations[j]);
    assert KeyOf(s.entries[i]) == KeyOf(s.entries[j]);
  }

  /**
   Links run back along the source order: an observation supersedes another exactly when both have
   the same key and the other is the one just before it in (line, character) order.
   */
  lemma SupersedesExactlyItsPredecessor(s: Source, key: string, p: nat, q: nat)
    requires Distilled(s)
    requires var g := SortedGroup(s.entries, key);
             p < |g| && q < |g| && g[p] < |s.observations| && g[q] < |s.observations|
    ensures var g := SortedGroup(s.entries, key);
            s.observations[g[q]].supersedes == Some(s.observations[g[p]].id) <==> q == p + 1
  {
    var g := SortedGroup(s.entries, key);
    assert Chained(s.observations, g);
    SortedGroupHolds(s.entries, key);
    if s.observations[g[q]].supersedes == Some(s.observations[g[p]].id) {
      assert q > 0;
      assert s.observations[g[q]].supersedes == Some(s.observations[g[q - 1]].id) by {
        var r := q - 1;
        assert q == r + 1;
      }
      SameIdSamePlace(s, g[p], g[q - 1]);
      assert p == q - 1;
    }
  }

  lemma SuccessorSupersedes(s: Source, o: Observation, q: nat)
    requires Distilled(s)
    requires var g := SortedGroup(s.entries, o.parameterKey);
             q + 1 < |g| && g[q] < |s.observations| && s.observations[g[q]] == o
    ensures exists later :: later in s.observations && later.supersedes == Some(o.id)
  {
    var g := SortedGroup(s.entries, o.parameterKey);
    assert Chained(s.observations, g);
    var next := q + 1;
    assert s.observations[g[next]].supersedes == Some(s.observations[g[q]].id);
  }

  lemma SupersedingFollows(s: Source, o: Observation, q: nat, later: Observation)
    requires Distilled(s) && later in s.observations && later.supersedes == Some(o.id)
    requires var g := SortedGroup(s.entries, o.parameterKey);
             q < |g| && g[q] < |s.observations| && s.observations[g[q]] == o
    ensures q + 1 < |SortedGroup(s.entries, o.parameterKey)|
  {
    var r := PlaceInGroup(s, later);
    var g, h := SortedGroup(s.entries, o.parameterKey), SortedGroup(s.entries, later.parameterKey);
    SortedGroupHolds(s.entries, later.parameterKey);
    SortedGroupHolds(s.entries, o.parameterKey);
    assert Chained(s.observations, h);
    hide SortedGroup;
    assert r > 0;
    var before := r - 1;
    assert s.observations[h[r]].supersedes == Some(s.observations[h[before]].id);
    SameIdSamePlace(s, h[before], g[q]);
    assert h[before] in h && g[q] in g;
    assert h == g;
  }

  /** An observation is superseded within its source exactly when a later one of the same key follows it. */
  lemma SupersededUnlessLast(s: Source, o: Observation, q: nat)
    requires Distilled(s) && o in s.observations
    requires var g := SortedGroup(s.entries, o.parameterKey);
             q < |g| && g[q] < |s.observations| && s.observations[g[q]] == o
    ensures (exists later :: later in s.observations && later.supersedes == Some(o.id))
       <==> q + 1 < |SortedGroup(s.entries, o.parameterKey)|
  {
    hide SortedGroup, Distilled;
    if q + 1 < |SortedGroup(s.entries, o.parameterKey)| {
      SuccessorSupersedes(s, o, q);
    }
    if later :| later in s.observations && later.supersedes == Some(o.id) {
      SupersedingFollows(s, o, q, later);
    }
  }

  lemma ObservationsOfOneEvidence(sources: seq<Source>, n: nat, o: Observation)
    requires Catalogued(sources) && n < |sources| && o in AllObservations(sources)
    requires sources[n].evidence.evidenceId in o.sourceEvidenceRefs
    ensures o in sources[n].observations && o.sourceEvidenceRefs == [sources[n].evidence.evidenceId]
              && o.id.sourceEvidenceRefs == o.sourceEvidenceRefs
  {
    hide AllObservations, Chained, DistinctKeys;
    AllObservationsHold(sources);
    var m :| 0 <= m < |sources| && o in sources[m].observations;
    var i :| 0 <= i < |sources[m].observations| && sources[m].observations[i] == o;
    assert BuiltFrom(sources[m].evidence, sources[m].entries[i], o);
  }

  lemma SupersededSharesEvidence(s: Source, later: Observation)
    requires Distilled(s) && later in s.observations && later.supersedes.Some?
    ensures later.supersedes.value.sourceEvidenceRefs == [s.evidence.evidenceId]
  {
    var r := PlaceInGroup(s, later);
    var h := SortedGroup(s.entries, later.parameterKey);
    assert Chained(s.observations, h);
    var before := r - 1;
    assert s.observations[h[r]].supersedes == Some(s.observations[h[before]].id);
    assert BuiltFrom(s.evidence, s.entries[h[before]], s.observations[h[before]]);
  }

  lemma SupersededOnlyFromWithin(sources: seq<Source>, n: nat, o: Observation)
    requires Catalogued(sources) && n < |sources| && o in sources[n].observations
    ensures o.id in SupersededIn(AllObservations(sources))
       <==> exists later :: later in sources[n].observations && later.supersedes == Some(o.id)
  {
    AllObservationsHold(sources);
    hide AllObservations;
    if exists later :: later in sources[n].observations && later.supersedes == Some(o.id) {
      var later :| later in sources[n].observations && later.supersedes == Some(o.id);
      assert later in AllObservations(sources);
    }
    if o.id in SupersededIn(AllObservations(sources)) {
      var later :| later in AllObservations(sources) && later.supersedes == Some(o.id);
      var m :| 0 <= m < |sources| && later in sources[m].observations;
      SupersededSharesEvidence(sources[m], later);
      var i :| 0 <= i < |sources[n].observations| && sources[n].observations[i] == o;
      assert BuiltFrom(sources[n].evidence, sources[n].entries[i], o);
      hide Distilled;
      assert sources[m].evidence.evidenceId == sources[n].evidence.evidenceId;
      assert m == n;
    }
  }

  lemma LastOfGroup(s: Source, key: string) returns (last: Observation)
    requires Distilled(s) && exists i :: 0 <= i < |s.entries| && s.entries[i].parameterKey == key
    ensures var g := SortedGroup(s.entries, key);
            && g != [] && g[|g| - 1] < |s.observations| && s.observations[g[|g| - 1]] == last
            && last in s.observations && last.parameterKey == key && last.sourceEvidenceRefs == [s.evidence.evidenceId]
  {
    var g := SortedGroup(s.entries, key);
    SortedGroupHolds(s.entries, key);
    var i: nat :| i < |s.entries| && s.entries[i].parameterKey == key;
    assert i in g;
    assert g[|g| - 1] in g;
    last := s.observations[g[|g| - 1]];
    assert BuiltFrom(s.evidence, s.entries[g[|g| - 1]], last);
  }

  lemma VisibleOnlyWhenLast(sources: seq<Source>, indexes: Indexes, n: nat, o: Observation, last: Observation)
    requires Catalogued(sources) && n < |sources| && indexes.superseded == SupersededIn(AllObservations(sources))
    requires var g := SortedGroup(sources[n].entries, o.parameterKey);
             g != [] && g[|g| - 1] < |sources[n].observations| && sources[n].observations[g[|g| - 1]] == last
    requires o in AllObservations(sources) && sources[n].evidence.evidenceId in o.sourceEvidenceRefs
    ensures IsVisible(indexes, o) <==> sources[n].evidence.evidenceId in indexes.current && o == last
  {
    var s := sources[n];
    var g := SortedGroup(s.entries, o.parameterKey);
    ObservationsOfOneEvidence(sources, n, o);
    assert Distilled(s);
    var q := PlaceInGroup(s, o);
    SupersededOnlyFromWithin(sources, n, o);
    SupersededUnlessLast(s, o, q);
    if o == last {
      SortedGroupHolds(s.entries, o.parameterKey);
      SameIdSamePlace(s, g[q], g[|g| - 1]);
      assert q == |g| - 1;
    }
    VisibleWhenCurrent(indexes, o, s.evidence.evidenceId);
  }

  /**
   For every current evidence record and every key it mentions, exactly one of its observations is
   visible: the last in (line, character) order. Evidence that is not current shows nothing.
   */
  lemma ExactlyTheLastIsVisible(sources: seq<Source>, indexes: Indexes, n: nat, key: string)
    requires Catalogued(sources) && n < |sources| && indexes.superseded == SupersededIn(AllObservations(sources))
    requires exists i :: 0 <= i < |sources[n].entries| && sources[n].entries[i].parameterKey == key
    ensures var s := sources[n]; var g := SortedGroup(s.entries, key);
            && g != [] && g[|g| - 1] < |s.observations|
            && var last := s.observations[g[|g| - 1]];
               && last in BackedBy(AllObservations(sources), s.evidence.evidenceId) && last.parameterKey == key
               && forall o ::
                    o in BackedBy(AllObservations(sources), s.evidence.evidenceId) && o.parameterKey == key ==>
                      (IsVisible(indexes, o) <==> s.evidence.evidenceId in indexes.current && o == last)
  {
    var s, all := sources[n], AllObservations(sources);
    var id := s.evidence.evidenceId;
    assert Distilled(s);
    var last := LastOfGroup(s, key);
    AllObservationsHold(sources);
    BackedHolds(all, id);
    OccursWithin([id], id);
    hide Distilled, Catalogued, AllObservations, BackedBy, SortedGroup, IsVisible, SupersededIn, Occurrences;
    forall o | o in BackedBy(all, id) && o.parameterKey == key
      ensures IsVisible(indexes, o) <==> id in indexes.current && o == last
    {
      OccursWithin(o.sourceEvidenceRefs, id);
      VisibleOnlyWhenLast(sources, indexes, n, o, last);
    }
  }

  lemma VisibleWhenCurrent(indexes: Indexes, o: Observation, id: string)
    requires o.sourceEvidenceRefs == [id]
    ensures IsVisible(indexes, o) <==> o.id !in indexes.superseded && id in indexes.current
  {
    assert id in o.sourceEvidenceRefs;
  }

  lemma {:induction false} OccursWithin(refs: seq<string>, id: string)
    ensures Occurrences(refs, id) > 0 <==> id in refs
  {
    if refs != [] {
      OccursWithin(refs[..|refs| - 1], id);
      assert refs == refs[..|refs| - 1] + [refs[|refs| - 1]];
    }
  }
}
