/** Vocabulary shared by every component: optional values, results, sorting and lists. */
module Common {

  datatype Option<+T> = None | Some(value: T)

  datatype Result<+T, +E> = Success(value: T) | Failure(error: E)

  /** A value that is there and not empty. */
  ghost predicate Named(value: Option<string>) {
    value.Some? && value != Some("")
  }

  /** The comparison functions handed to a sort are total preorders. */
  ghost predicate TotalPreorder<T(!new)>(le: (T, T) -> bool) {
    && (forall x, y :: le(x, y) || le(y, x))
    && (forall x, y, z :: le(x, y) && le(y, z) ==> le(x, z))
  }

  ghost predicate SortedBy<T>(le: (T, T) -> bool, s: seq<T>) {
    forall i, j :: 0 <= i < j < |s| ==> le(s[i], s[j])
  }

  function Insert<T>(le: (T, T) -> bool, s: seq<T>, x: T): seq<T> {
    if s == [] then [x]
    else if le(s[|s| - 1], x) then s + [x]
    else Insert(le, s[..|s| - 1], x) + [s[|s| - 1]]
  }

  /** A stable sort: an element goes after every earlier element it is not strictly below. */
  function Sort<T>(le: (T, T) -> bool, s: seq<T>): seq<T> {
    if s == [] then [] else Insert(le, Sort(le, s[..|s| - 1]), s[|s| - 1])
  }

  lemma {:induction false} InsertAdds<T>(le: (T, T) -> bool, s: seq<T>, x: T)
    ensures multiset(Insert(le, s, x)) == multiset(s) + multiset{x}
  {
    if s != [] && !le(s[|s| - 1], x) {
      InsertAdds(le, s[..|s| - 1], x);
      assert s == s[..|s| - 1] + [s[|s| - 1]];
    }
  }

  lemma SnocSorts<T>(le: (T, T) -> bool, s: seq<T>, x: T)
    requires SortedBy(le, s)
    requires forall y <- s :: le(y, x)
    ensures SortedBy(le, s + [x])
  {
  }

  lemma {:induction false} InsertSorts<T(!new)>(le: (T, T) -> bool, s: seq<T>, x: T)
    requires TotalPreorder(le) && SortedBy(le, s)
    ensures SortedBy(le, Insert(le, s, x))
    ensures multiset(Insert(le, s, x)) == multiset(s) + multiset{x}
  {
    InsertAdds(le, s, x);
    if s != [] {
      var init, last := s[..|s| - 1], s[|s| - 1];
      assert forall y <- init :: le(y, last);
      if le(last, x) {
        SnocSorts(le, s, x);
      } else {
        InsertSorts(le, init, x);
        forall y | y in Insert(le, init, x)
          ensures le(y, last)
        {
          assert y in multiset(init) + multiset{x};
        }
        SnocSorts(le, Insert(le, init, x), last);
      }
    }
  }

  lemma SameMembers<T>(s: seq<T>, t: seq<T>)
    requires multiset(s) == multiset(t)
    ensures |s| == |t| && forall x :: x in s <==> x in t
  {
    assert |multiset(s)| == |multiset(t)|;
    forall x
      ensures x in s <==> x in t
    {
      assert x in s <==> x in multiset(s);
      assert x in t <==> x in multiset(t);
    }
  }

  lemma {:induction false} SortPermutes<T(!new)>(le: (T, T) -> bool, s: seq<T>)
    ensures multiset(Sort(le, s)) == multiset(s)
  {
    hide Sort, Insert;
    SortUnfolds(le, s);
    if s != [] {
      var init, last := s[..|s| - 1], s[|s| - 1];
      SortPermutes(le, init);
      InsertAdds(le, Sort(le, init), last);
      assert s == init + [last];
    }
  }

  lemma SortUnfolds<T>(le: (T, T) -> bool, s: seq<T>)
    ensures Sort(le, s) == if s == [] then [] else Insert(le, Sort(le, s[..|s| - 1]), s[|s| - 1])
  {
  }

  /** Sorting orders the list and only rearranges it. */
  lemma {:induction false} SortSorts<T(!new)>(le: (T, T) -> bool, s: seq<T>)
    requires TotalPreorder(le)
    ensures SortedBy(le, Sort(le, s))
    ensures multiset(Sort(le, s)) == multiset(s)
    ensures |Sort(le, s)| == |s|
    ensures forall x :: x in Sort(le, s) <==> x in s
  {
    SortPermutes(le, s);
    SameMembers(Sort(le, s), s);
    if s != [] {
      hide SortedBy;
      SortSorts(le, s[..|s| - 1]);
      InsertSorts(le, Sort(le, s[..|s| - 1]), s[|s| - 1]);
    }
  }

  /** Ordered by the sort, and where the sort does not tell two elements apart, by the order they came in. */
  ghost predicate StablyBefore<T>(le: (T, T) -> bool, tie: (T, T) -> bool, x: T, y: T) {
    le(x, y) && (le(y, x) ==> tie(x, y))
  }

  ghost predicate StablySorted<T>(le: (T, T) -> bool, tie: (T, T) -> bool, s: seq<T>) {
    forall i, j :: 0 <= i < j < |s| ==> StablyBefore(le, tie, s[i], s[j])
  }

  lemma SnocStaysStable<T>(le: (T, T) -> bool, tie: (T, T) -> bool, s: seq<T>, x: T)
    requires StablySorted(le, tie, s) && forall y <- s :: StablyBefore(le, tie, y, x)
    ensures StablySorted(le, tie, s + [x])
  {
    hide StablyBefore;
  }

  lemma {:induction false} InsertIsStable<T(!new)>(le: (T, T) -> bool, tie: (T, T) -> bool, s: seq<T>, x: T)
    requires TotalPreorder(le) && StablySorted(le, tie, s) && forall y <- s :: tie(y, x)
    ensures StablySorted(le, tie, Insert(le, s, x))
  {
    if s != [] {
      var init, last := s[..|s| - 1], s[|s| - 1];
      assert forall y <- init :: StablyBefore(le, tie, y, last);
      if le(last, x) {
        SnocStaysStable(le, tie, s, x);
      } else {
        InsertIsStable(le, tie, init, x);
        InsertAdds(le, init, x);
        forall y | y in Insert(le, init, x)
          ensures StablyBefore(le, tie, y, last)
        {
          assert y in multiset(init) + multiset{x};
        }
        SnocStaysStable(le, tie, Insert(le, init, x), last);
      }
    }
  }

  /** Elements the sort does not tell apart keep the order they came in. */
  lemma {:induction false} SortIsStable<T(!new)>(le: (T, T) -> bool, tie: (T, T) -> bool, s: seq<T>)
    requires TotalPreorder(le) && SortedBy(tie, s)
    ensures StablySorted(le, tie, Sort(le, s))
  {
    if s != [] {
      var init, last := s[..|s| - 1], s[|s| - 1];
      SortIsStable(le, tie, init);
      SortPermutes(le, init);
      forall y | y in Sort(le, init)
        ensures tie(y, last)
      {
        assert y in multiset(init);
        var i :| 0 <= i < |init| && init[i] == y;
        assert tie(s[i], s[|s| - 1]);
      }
      InsertIsStable(le, tie, Sort(le, init), last);
    }
  }

  ghost predicate Distinct<T>(s: seq<T>) {
    forall i, j :: 0 <= i < j < |s| ==> s[i] != s[j]
  }

  /** The values a list holds at most once each fit a distinct list of the same length. */
  lemma {:induction false} DistinctFromMultiset<T>(s: seq<T>, t: seq<T>)
    requires Distinct(s) && multiset(s) == multiset(t)
    ensures Distinct(t)
  {
    forall i, j | 0 <= i < j < |t|
      ensures t[i] != t[j]
    {
      if t[i] == t[j] {
        assert t == t[..i] + [t[i]] + t[i + 1..j] + [t[j]] + t[j + 1..];
        assert multiset(t)[t[i]] >= 2;
        DistinctCounts(s, t[i]);
      }
    }
  }

  lemma {:induction false} DistinctCounts<T>(s: seq<T>, x: T)
    requires Distinct(s)
    ensures multiset(s)[x] <= 1
  {
    if s != [] {
      DistinctCounts(s[1..], x);
      assert s == [s[0]] + s[1..];
      if s[0] == x {
        assert x !in s[1..];
      }
    }
  }

  function Reversed<T>(s: seq<T>): (r: seq<T>)
    ensures |r| == |s|
    ensures forall i :: 0 <= i < |s| ==> r[i] == s[|s| - 1 - i]
  {
    if s == [] then [] else [s[|s| - 1]] + Reversed(s[..|s| - 1])
  }

  // ----- what is picked from a list -----

  ghost predicate Increasing(places: seq<nat>) {
    forall j, k :: 0 <= j < k < |places| ==> places[j] < places[k]
  }

  ghost predicate IsWanted<T(!new)>(items: seq<T>, wanted: T -> bool, i: nat) {
    i < |items| && wanted(items[i])
  }

  /** Where the wanted items stand, in order. */
  ghost predicate PlacesOf<T(!new)>(items: seq<T>, wanted: T -> bool, places: seq<nat>) {
    Increasing(places) && forall i: nat :: i in places <==> IsWanted(items, wanted, i)
  }

  ghost predicate StandAt<T>(items: seq<T>, places: seq<nat>, picked: seq<T>) {
    && |picked| == |places|
    && forall k :: 0 <= k < |places| ==> places[k] < |items| && picked[k] == items[places[k]]
  }

  /** The wanted items, in order. */
  ghost predicate Picks<T(!new)>(items: seq<T>, wanted: T -> bool, picked: seq<T>) {
    exists places: seq<nat> :: PlacesOf(items, wanted, places) && StandAt(items, places, picked)
  }

  lemma PlaceOneMore<T(!new)>(items: seq<T>, wanted: T -> bool, places: seq<nat>, last: T)
    requires PlacesOf(items, wanted, places)
    ensures PlacesOf(items + [last], wanted, if wanted(last) then places + [|items|] else places)
  {
    var n := |items|;
    var more := if wanted(last) then places + [n] else places;
    forall k | 0 <= k < |places|
      ensures places[k] < n
    {
      assert places[k] in places;
    }
    assert forall i: nat ::
        IsWanted(items + [last], wanted, i) <==> IsWanted(items, wanted, i) || (i == n && wanted(last));
    hide IsWanted;
    assert forall i: nat :: i in more <==> i in places || (i == n && wanted(last));
  }

  lemma StandOneMore<T>(items: seq<T>, places: seq<nat>, picked: seq<T>, last: T)
    requires StandAt(items, places, picked)
    ensures StandAt(items + [last], places, picked)
    ensures StandAt(items + [last], places + [|items|], picked + [last])
  {
  }

  lemma PickOneMore<T(!new)>(items: seq<T>, wanted: T -> bool, picked: seq<T>, last: T)
    requires Picks(items, wanted, picked)
    ensures Picks(items + [last], wanted, if wanted(last) then picked + [last] else picked)
  {
    hide PlacesOf, StandAt;
    var places: seq<nat> :| PlacesOf(items, wanted, places) && StandAt(items, places, picked);
    PlaceOneMore(items, wanted, places, last);
    StandOneMore(items, places, picked, last);
  }

  lemma NothingPicked<T(!new)>(wanted: T -> bool)
    ensures Picks([], wanted, [])
  {
    assert PlacesOf<T>([], wanted, []) && StandAt<T>([], [], []);
  }
}
