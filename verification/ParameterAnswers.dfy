/**
 What retrieval answers about a parameter, said of the entries of an evidence record: which of them are
 kept, how their observations are linked, and which one is shown.
 */
module ParameterAnswers {
  import opened Common
  import opened Parameters

  // ---------------------------------------------------------------- which entries are kept

  /** Two readings of one place. */
  ghost predicate SameReading(a: Entry, b: Entry) {
    && a.parameterKey == b.parameterKey && a.observationKind == b.observationKind
    && a.rawValueText == b.rawValueText && a.span == b.span
  }

  /** Nothing before this index reads the same place. */
  ghost predicate IsFirst(entries: seq<Entry>, i: nat) {
    i < |entries| && forall j: nat :: j < i ==> !SameReading(entries[j], entries[i])
  }

  /** Nothing after this index reads the same place. */
  ghost predicate IsFinal(entries: seq<Entry>, i: nat) {
    i < |entries| && forall j: nat :: i < j < |entries| ==> !SameReading(entries[j], entries[i])
  }

  /** Each place once, in the order it was first read, with its final reading. */
  ghost predicate KeepsFinal(entries: seq<Entry>, kept: seq<Entry>, firsts: seq<nat>) {
    && |firsts| == |kept|
    && (forall j, k :: 0 <= j < k < |firsts| ==> firsts[j] < firsts[k])
    && (forall i: nat :: IsFirst(entries, i) <==> i in firsts)
    && forall k :: 0 <= k < |kept| ==>
         && firsts[k] < |entries| && SameReading(entries[firsts[k]], kept[k])
         && HasFinal(entries, kept[k])
  }

  lemma KeysTellReadings(a: Entry, b: Entry)
    ensures KeyOf(a) == KeyOf(b) <==> SameReading(a, b)
  {
  }

  ghost predicate Replaces(kept: seq<Entry>, last: Entry, next: seq<Entry>) {
    && |next| == |kept|
    && forall k :: 0 <= k < |kept| ==> next[k] == if SameReading(kept[k], last) then last else kept[k]
  }

  lemma {:induction false} ReplacingReplaces(kept: seq<Entry>, last: Entry)
    ensures Replaces(kept, last, ReplaceByKey(kept, last))
  {
    if kept != [] {
      KeysTellReadings(kept[0], last);
      ReplacingReplaces(kept[1..], last);
    }
  }

  lemma FirstsSnoc(entries: seq<Entry>, last: Entry, i: nat)
    ensures IsFirst(entries + [last], i) <==>
              IsFirst(entries, i) || (i == |entries| && forall e <- entries :: !SameReading(e, last))
  {
    hide SameReading;
    var all := entries + [last];
    if i < |entries| {
      assert forall j: nat :: j <= i ==> all[j] == entries[j];
    } else if i == |entries| {
      assert forall j: nat :: j < i ==> all[j] == entries[j] && entries[j] in entries;
    }
  }

  lemma FinalsSnoc(entries: seq<Entry>, last: Entry, i: nat)
    requires IsFinal(entries, i) && !SameReading(entries[i], last)
    ensures IsFinal(entries + [last], i)
  {
    var all := entries + [last];
    forall j: nat | i < j < |all|
      ensures !SameReading(all[j], all[i])
    {
      assert all[j] == if j < |entries| then entries[j] else last;
    }
  }

  lemma LastIsFinal(entries: seq<Entry>, last: Entry)
    ensures IsFinal(entries + [last], |entries|) && (entries + [last])[|entries|] == last
  {
  }

  ghost predicate HasFinal(entries: seq<Entry>, e: Entry) {
    exists i: nat :: IsFinal(entries, i) && entries[i] == e
  }

  lemma StaysFinal(entries: seq<Entry>, last: Entry, e: Entry)
    requires HasFinal(entries, e)
    ensures HasFinal(entries + [last], if SameReading(e, last) then last else e)
  {
    LastIsFinal(entries, last);
    if !SameReading(e, last) {
      var i: nat :| IsFinal(entries, i) && entries[i] == e;
      FinalsSnoc(entries, last, i);
      assert (entries + [last])[i] == e;
    }
  }

  lemma SameReadingIsTransitive(a: Entry, b: Entry, c: Entry)
    requires SameReading(a, b)
    ensures SameReading(b, a) && (SameReading(a, c) <==> SameReading(b, c))
  {
  }

  /** The kept entries read every place that was read. */
  lemma {:induction false} EveryReadingHasAFirst(entries: seq<Entry>, i: nat) returns (f: nat)
    requires i < |entries|
    ensures f <= i && IsFirst(entries, f) && SameReading(entries[f], entries[i])
    decreases i
  {
    hide SameReading;
    if j: nat :| j < i && SameReading(entries[j], entries[i]) {
      f := EveryReadingHasAFirst(entries, j);
      SameReadingIsTransitive(entries[f], entries[j], entries[i]);
    } else {
      f := i;
      SameReadingIsReflexive(entries[i]);
    }
  }

  lemma SameReadingIsReflexive(e: Entry)
    ensures SameReading(e, e)
  {
  }

  lemma KeptReadsAll(entries: seq<Entry>, kept: seq<Entry>, firsts: seq<nat>, last: Entry)
    requires KeepsFinal(entries, kept, firsts)
    ensures (exists e :: e in kept && SameReading(e, last)) <==> exists e :: e in entries && SameReading(e, last)
  {
    hide SameReading;
    if e :| e in kept && SameReading(e, last) {
      var k :| 0 <= k < |kept| && kept[k] == e;
      var i: nat :| IsFinal(entries, i) && entries[i] == kept[k];
      assert entries[i] in entries;
    }
    if e :| e in entries && SameReading(e, last) {
      var i :| 0 <= i < |entries| && entries[i] == e;
      var f := EveryReadingHasAFirst(entries, i);
      assert f in firsts;
      var k :| 0 <= k < |firsts| && firsts[k] == f;
      SameReadingIsTransitive(entries[f], kept[k], last);
      SameReadingIsTransitive(entries[f], entries[i], last);
      assert kept[k] in kept;
    }
  }

  lemma AppendedKeeps(entries: seq<Entry>, kept: seq<Entry>, firsts: seq<nat>, last: Entry)
    requires KeepsFinal(entries, kept, firsts) && forall e <- entries :: !SameReading(e, last)
    requires forall e <- kept :: !SameReading(e, last)
    ensures KeepsFinal(entries + [last], kept + [last], firsts + [|entries|])
  {
    hide SameReading, HasFinal, IsFirst;
    var all, more, next := entries + [last], firsts + [|entries|], kept + [last];
    FirstsStay(entries, last, firsts, more);
    forall k | 0 <= k < |next|
      ensures more[k] < |all| && SameReading(all[more[k]], next[k]) && HasFinal(all, next[k])
    {
      if k < |kept| {
        assert kept[k] in kept;
        StaysFinal(entries, last, kept[k]);
      } else {
        SameReadingIsReflexive(last);
        HasItself(entries, last);
      }
    }
    forall j, k | 0 <= j < k < |more|
      ensures more[j] < more[k]
    {
    }
  }

  lemma HasItself(entries: seq<Entry>, last: Entry)
    ensures HasFinal(entries + [last], last)
  {
    LastIsFinal(entries, last);
  }

  lemma FirstsStay(entries: seq<Entry>, last: Entry, firsts: seq<nat>, more: seq<nat>)
    requires forall i: nat :: IsFirst(entries, i) <==> i in firsts
    requires more == if forall e <- entries :: !SameReading(e, last) then firsts + [|entries|] else firsts
    ensures forall i: nat :: IsFirst(entries + [last], i) <==> i in more
  {
    hide SameReading;
    forall i: nat
      ensures IsFirst(entries + [last], i) <==> i in more
    {
      FirstsSnoc(entries, last, i);
    }
  }

  lemma ReplacedKeeps(entries: seq<Entry>, kept: seq<Entry>, firsts: seq<nat>, last: Entry, next: seq<Entry>)
    requires KeepsFinal(entries, kept, firsts) && exists e :: e in entries && SameReading(e, last)
    requires Replaces(kept, last, next)
    ensures KeepsFinal(entries + [last], next, firsts)
  {
    hide SameReading, HasFinal, IsFirst;
    var all := entries + [last];
    FirstsStay(entries, last, firsts, firsts);
    forall k | 0 <= k < |next|
      ensures firsts[k] < |all| && SameReading(all[firsts[k]], next[k]) && HasFinal(all, next[k])
    {
      StaysFinal(entries, last, kept[k]);
      SameReadingIsTransitive(entries[firsts[k]], kept[k], last);
    }
  }

  ghost predicate ReadIn(kept: seq<Entry>, last: Entry) {
    exists e :: e in kept && SameReading(e, last)
  }

  lemma DedupeSnoc(prefix: seq<Entry>, last: Entry)
    ensures var kept := DedupeEntries(prefix);
            DedupeEntries(prefix + [last]) == if ReadIn(kept, last) then ReplaceByKey(kept, last) else kept + [last]
  {
    hide KeyOf, SameReading, ReplaceByKey;
    assert (prefix + [last])[..|prefix|] == prefix;
    var kept := DedupeEntries(prefix);
    if e :| e in kept && KeyOf(e) == KeyOf(last) {
      KeysTellReadings(e, last);
    }
    if e :| e in kept && SameReading(e, last) {
      KeysTellReadings(e, last);
    }
  }

  lemma OneMoreKept(prefix: seq<Entry>, last: Entry, before: seq<nat>) returns (firsts: seq<nat>)
    requires KeepsFinal(prefix, DedupeEntries(prefix), before)
    ensures KeepsFinal(prefix + [last], DedupeEntries(prefix + [last]), firsts)
  {
    hide KeepsFinal, SameReading, ReplaceByKey, DedupeEntries;
    var kept := DedupeEntries(prefix);
    DedupeSnoc(prefix, last);
    KeptReadsAll(prefix, kept, before, last);
    if ReadIn(kept, last) {
      ReplacingReplaces(kept, last);
      ReplacedKeeps(prefix, kept, before, last, ReplaceByKey(kept, last));
      firsts := before;
    } else {
      AppendedKeeps(prefix, kept, before, last);
      firsts := before + [|prefix|];
    }
  }

  /** Deduplication keeps each place once, in the order it was first read, with its final reading. */
  lemma {:induction false} DedupeKeepsFinal(entries: seq<Entry>) returns (firsts: seq<nat>)
    ensures KeepsFinal(entries, DedupeEntries(entries), firsts)
  {
    hide KeepsFinal, DedupeEntries;
    if entries == [] {
      firsts := [];
      NothingKept();
    } else {
      var prefix, last := entries[..|entries| - 1], entries[|entries| - 1];
      assert entries == prefix + [last];
      var before := DedupeKeepsFinal(prefix);
      firsts := OneMoreKept(prefix, last, before);
    }
  }

  lemma NothingKept()
    ensures KeepsFinal([], DedupeEntries([]), [])
  {
  }

  // ---------------------------------------------------------------- which entry comes last

  ghost predicate HasKey(entries: seq<Entry>, key: string, i: nat) {
    i < |entries| && entries[i].parameterKey == key
  }

  /** By line, then by character, then by the order the entries were distilled in. */
  ghost predicate ComesBefore(entries: seq<Entry>, i: nat, j: nat)
    requires i < |entries| && j < |entries|
  {
    var a, b := entries[i].span, entries[j].span;
    || a.startLine < b.startLine
    || (a.startLine == b.startLine && a.startChar < b.startChar)
    || (a.startLine == b.startLine && a.startChar == b.startChar && i < j)
  }

  lemma {:induction false} IndexesIncrease(entries: seq<Entry>, key: string)
    ensures SortedBy<nat>((i, j) => i <= j, IndexesOf(entries, key))
  {
    if entries != [] {
      var n := |entries| - 1;
      IndexesIncrease(entries[..n], key);
      IndexesHold(entries[..n], key);
      forall i | i in IndexesOf(entries[..n], key)
        ensures i <= n
      {
      }
      SnocSorts<nat>((i, j) => i <= j, IndexesOf(entries[..n], key), n);
    }
  }

  ghost predicate PairInOrder(entries: seq<Entry>, group: seq<nat>, p: nat, q: nat)
    requires p < |group| && q < |group|
  {
    group[p] < |entries| && group[q] < |entries| && ComesBefore(entries, group[p], group[q])
  }

  ghost predicate InOrder(entries: seq<Entry>, key: string, group: seq<nat>) {
    && (forall i: nat :: i in group <==> HasKey(entries, key, i))
    && forall p: nat, q: nat :: p < q < |group| ==> PairInOrder(entries, group, p, q)
  }

  lemma SourceOrderIsTotal(entries: seq<Entry>)
    ensures TotalPreorder(SourceOrder(entries))
  {
  }

  lemma StableIsComesBefore(entries: seq<Entry>, i: nat, j: nat)
    requires i < |entries| && j < |entries| && i != j
    requires SourceOrder(entries)(i, j) && (SourceOrder(entries)(j, i) ==> i <= j)
    ensures ComesBefore(entries, i, j)
  {
  }

  lemma StableGroupIsInOrder(entries: seq<Entry>, key: string, tie: (nat, nat) -> bool, group: seq<nat>)
    requires StablySorted(SourceOrder(entries), tie, group) && Distinct(group)
    requires forall i, j :: tie(i, j) ==> i <= j
    requires forall i: nat :: i in group <==> HasKey(entries, key, i)
    ensures InOrder(entries, key, group)
  {
    hide SourceOrder, StablySorted, ComesBefore;
    forall p: nat, q: nat | p < q < |group|
      ensures PairInOrder(entries, group, p, q)
    {
      assert group[p] in group && group[q] in group;
      StablyAt(SourceOrder(entries), tie, group, p, q);
      StableIsComesBefore(entries, group[p], group[q]);
    }
  }

  /** The entries of a key, in the order they come in the source. */
  lemma GroupIsInOrder(entries: seq<Entry>, key: string)
    ensures InOrder(entries, key, SortedGroup(entries, key))
  {
    hide TotalPreorder, SourceOrder, IndexesOf, StablySorted, InOrder;
    var tie: (nat, nat) -> bool := (i, j) => i <= j;
    SortedGroupHolds(entries, key);
    IndexesIncrease(entries, key);
    SourceOrderIsTotal(entries);
    SortIsStable(SourceOrder(entries), tie, IndexesOf(entries, key));
    HoldsKey(entries, key, SortedGroup(entries, key));
    StableGroupIsInOrder(entries, key, tie, SortedGroup(entries, key));
  }

  lemma HoldsKey(entries: seq<Entry>, key: string, group: seq<nat>)
    requires forall i :: i in group <==> 0 <= i < |entries| && entries[i].parameterKey == key
    ensures forall i: nat :: i in group <==> HasKey(entries, key, i)
  {
  }

  lemma StablyAt(le: (nat, nat) -> bool, tie: (nat, nat) -> bool, s: seq<nat>, p: nat, q: nat)
    requires StablySorted(le, tie, s) && p < q < |s|
    ensures le(s[p], s[q]) && (le(s[q], s[p]) ==> tie(s[p], s[q]))
  {
    assert StablyBefore(le, tie, s[p], s[q]);
  }

  /** i is the entry of its key just before j, or j is the first. */
  ghost predicate JustBefore(entries: seq<Entry>, i: nat, j: nat)
    requires i < |entries| && j < |entries|
  {
    && entries[i].parameterKey == entries[j].parameterKey && ComesBefore(entries, i, j)
    && forall k: nat :: HasKey(entries, entries[j].parameterKey, k) ==>
         k == i || ComesBefore(entries, k, i) || k == j || ComesBefore(entries, j, k)
  }

  ghost predicate IsFirstOfKey(entries: seq<Entry>, j: nat)
    requires j < |entries|
  {
    forall k: nat :: HasKey(entries, entries[j].parameterKey, k) ==> k == j || ComesBefore(entries, j, k)
  }

  ghost predicate IsLastOfKey(entries: seq<Entry>, j: nat)
    requires j < |entries|
  {
    forall k: nat :: HasKey(entries, entries[j].parameterKey, k) ==> k == j || ComesBefore(entries, k, j)
  }

  /** The observation of an entry of an evidence record, but for what it supersedes. */
  ghost predicate Observes(e: Evidence, entry: Entry, o: Observation) {
    && o.parameterKey == entry.parameterKey && o.entry == entry
    && o.observedAt == e.capturedAt && o.sourceEvidenceRefs == [e.evidenceId]
    && o.id.workspaceId == e.workspaceId && o.id.parameterKey == entry.parameterKey
    && o.id.observationKind == entry.observationKind && o.id.observedAt == e.capturedAt
    && o.id.sourceEvidenceRefs == [e.evidenceId] && o.id.span == entry.span
    && o.id.rawValueText == entry.rawValueText
  }

  lemma PlaceOf(entries: seq<Entry>, j: nat, group: seq<nat>) returns (q: nat)
    requires j < |entries| && InOrder(entries, entries[j].parameterKey, group)
    ensures q < |group| && group[q] == j
  {
    assert HasKey(entries, entries[j].parameterKey, j);
    q :| 0 <= q < |group| && group[q] == j;
  }

  lemma FirstIsFirst(entries: seq<Entry>, j: nat, group: seq<nat>, q: nat)
    requires j < |entries| && InOrder(entries, entries[j].parameterKey, group) && q < |group| && group[q] == j
    ensures IsFirstOfKey(entries, j) <==> q == 0
    ensures IsLastOfKey(entries, j) <==> q == |group| - 1
  {
    forall k: nat | HasKey(entries, entries[j].parameterKey, k)
      ensures q == 0 ==> k == j || ComesBefore(entries, j, k)
      ensures q == |group| - 1 ==> k == j || ComesBefore(entries, k, j)
    {
      var r: nat :| r < |group| && group[r] == k;
      assert r < q ==> PairInOrder(entries, group, r, q);
      assert q < r ==> PairInOrder(entries, group, q, r);
    }
    if q > 0 {
      assert group[0] in group && PairInOrder(entries, group, 0, q);
    }
    if q < |group| - 1 {
      assert group[|group| - 1] in group && PairInOrder(entries, group, q, |group| - 1);
    }
  }

  lemma NeighbourIsJustBefore(entries: seq<Entry>, i: nat, j: nat, group: seq<nat>, p: nat, q: nat)
    requires i < |entries| && j < |entries| && InOrder(entries, entries[j].parameterKey, group)
    requires p < |group| && group[p] == i && q < |group| && group[q] == j
    ensures JustBefore(entries, i, j) <==> q == p + 1
  {
    assert group[p] in group;
    assert p < q ==> PairInOrder(entries, group, p, q);
    assert q < p ==> PairInOrder(entries, group, q, p);
    if q == p + 1 {
      forall k: nat | HasKey(entries, entries[j].parameterKey, k)
        ensures k == i || ComesBefore(entries, k, i) || k == j || ComesBefore(entries, j, k)
      {
        var r: nat :| r < |group| && group[r] == k;
        assert r < p ==> PairInOrder(entries, group, r, p);
        assert q < r ==> PairInOrder(entries, group, q, r);
      }
    } else if p < q {
      var k := group[p + 1];
      assert k in group && PairInOrder(entries, group, p, p + 1) && PairInOrder(entries, group, p + 1, q);
    }
  }

  // ---------------------------------------------------------------- how observations are linked and shown

  lemma BuiltObserves(e: Evidence, entry: Entry, o: Observation)
    requires BuiltFrom(e, entry, o)
    ensures Observes(e, entry, o)
  {
  }

  /** What an observation supersedes: the one of its key just before it in the source, and no other. */
  ghost predicate LinksBack(s: Source, i: nat, j: nat)
    requires i < |s.entries| && j < |s.entries| && |s.observations| == |s.entries|
  {
    && (s.observations[j].supersedes == Some(s.observations[i].id) <==> JustBefore(s.entries, i, j))
    && (s.observations[j].supersedes == None <==> IsFirstOfKey(s.entries, j))
  }

  lemma ChainedLinks(s: Source, i: nat, j: nat, group: seq<nat>, p: nat, q: nat)
    requires Distilled(s) && i < |s.entries| && j < |s.entries|
    requires group == SortedGroup(s.entries, s.entries[j].parameterKey)
    requires p < |group| && group[p] == i && q < |group| && group[q] == j
    ensures s.observations[j].supersedes == Some(s.observations[i].id) <==> q == p + 1
    ensures s.observations[j].supersedes == None <==> q == 0
  {
    hide BuiltFrom, DistinctKeys, SortedGroup;
    SupersedesExactlyItsPredecessor(s, s.entries[j].parameterKey, p, q);
    assert Chained(s.observations, group);
    if q > 0 {
      var before := q - 1;
      assert q == before + 1;
      assert s.observations[group[q]].supersedes == Some(s.observations[group[before]].id);
    }
  }

  /** An entry of another key has another observation, and is superseded by nothing of this key. */
  lemma OtherKeysNeverLink(s: Source, i: nat, j: nat)
    requires Distilled(s) && i < |s.entries| && j < |s.entries|
    requires s.entries[i].parameterKey != s.entries[j].parameterKey
    ensures s.observations[j].supersedes != Some(s.observations[i].id)
  {
    hide SortedGroup;
    var group := SortedGroup(s.entries, s.entries[j].parameterKey);
    GroupIsInOrder(s.entries, s.entries[j].parameterKey);
    var q := PlaceOf(s.entries, j, group);
    assert Chained(s.observations, group);
    assert BuiltFrom(s.evidence, s.entries[i], s.observations[i]);
    if q > 0 {
      var before := q - 1;
      assert q == before + 1;
      assert s.observations[group[q]].supersedes == Some(s.observations[group[before]].id);
      assert group[before] in group && HasKey(s.entries, s.entries[j].parameterKey, group[before]);
      assert BuiltFrom(s.evidence, s.entries[group[before]], s.observations[group[before]]);
    }
  }

  /** The observations of an evidence record are those of its entries, linked in source order. */
  lemma LinksFollowTheSource(s: Source, i: nat, j: nat)
    requires Distilled(s) && i < |s.entries| && j < |s.entries|
    ensures Observes(s.evidence, s.entries[j], s.observations[j]) && LinksBack(s, i, j)
  {
    hide SortedGroup, InOrder, DistinctKeys, Chained;
    BuiltObserves(s.evidence, s.entries[j], s.observations[j]);
    var key := s.entries[j].parameterKey;
    var group := SortedGroup(s.entries, key);
    GroupIsInOrder(s.entries, key);
    var q := PlaceOf(s.entries, j, group);
    FirstIsFirst(s.entries, j, group, q);
    if s.entries[i].parameterKey == key {
      var p := PlaceOf(s.entries, i, group);
      NeighbourIsJustBefore(s.entries, i, j, group, p, q);
      ChainedLinks(s, i, j, group, p, q);
    } else {
      OtherKeysNeverLink(s, i, j);
      ChainedLinks(s, j, j, group, q, q);
    }
  }

  /** Shown: superseded by nothing, and backed by evidence that is current. */
  lemma ShownExactlyWhen(indexes: Indexes, o: Observation)
    ensures IsVisible(indexes, o) <==>
              o.id !in indexes.superseded && exists ref <- o.sourceEvidenceRefs :: ref in indexes.current
  {
  }

  /** Of the entries of a key, retrieval shows the last in the source, as long as its evidence is current. */
  lemma TheLastEntryIsShown(sources: seq<Source>, indexes: Indexes, n: nat, j: nat)
    requires Catalogued(sources) && n < |sources| && j < |sources[n].entries|
    requires indexes.superseded == SupersededIn(AllObservations(sources))
    ensures |sources[n].observations| == |sources[n].entries|
    ensures IsVisible(indexes, sources[n].observations[j]) <==>
              sources[n].evidence.evidenceId in indexes.current && IsLastOfKey(sources[n].entries, j)
  {
    hide SortedGroup, InOrder, DistinctKeys, Chained, IsVisible, AllObservations, IsLastOfKey;
    var s := sources[n];
    var o := s.observations[j];
    var key := s.entries[j].parameterKey;
    var group := SortedGroup(s.entries, key);
    GroupIsInOrder(s.entries, key);
    var q := PlaceOf(s.entries, j, group);
    FirstIsFirst(s.entries, j, group, q);
    assert BuiltFrom(s.evidence, s.entries[j], o);
    var last := LastOfGroup(s, key);
    AllObservationsHold(sources);
    assert o in s.observations;
    VisibleOnlyWhenLast(sources, indexes, n, o, last);
    if q < |group| - 1 {
      NotLastOfGroup(s.entries, key, group, q);
    }
    if o == last {
      SameIdSamePlace(s, group[q], group[|group| - 1]);
    }
  }

  lemma NotLastOfGroup(entries: seq<Entry>, key: string, group: seq<nat>, q: nat)
    requires InOrder(entries, key, group) && q < |group| - 1
    ensures group[q] != group[|group| - 1]
  {
    assert PairInOrder(entries, group, q, |group| - 1);
  }
}
