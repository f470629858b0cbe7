/**
 The telemetry report's reader side: grouping deliveries of the same invocation, the pairwise
 conflict test, the progression preorder and the textual rank that picks a survivor.
 */
module DeliveryReport {
  import opened Common
  import opened InvocationArtifacts

  datatype Reason =
    | ImmutableIdentityConflict
    | AttemptIdentityConflict
    | TerminalAttemptConflict
    | OpportunityDecisionConflict
    | RequestIdentityConflict
    | RetrievalResultConflict
    | UsageCallbackConflict
    | ReadReceiptConflict
    | ReadReceiptFork
    | IncomparableProgression

  // ---------------------------------------------------------------- comparing two deliveries

  datatype Identity = Identity(
    invocationId: Option<string>, workspaceId: Option<string>, catalogRoot: Option<string>, markerPath: Option<string>,
    consultedAt: int, taskId: Option<string>, schemaVersion: Option<int>, opportunityId: Option<string>,
    binding: Option<Json>,
    attribution: Option<Json>, identityBasis: Option<string>, captureBoundary: Option<string>)

  function Immutable(a: Artifact): Identity {
    var version := if a.telemetry.None? then None else Some(a.telemetry.value.schemaVersion);
    match a.Opportunity()
    case None =>
      Identity(a.invocationId, a.workspaceId, a.catalogRoot, a.markerPath, a.consultedAt, a.taskId, version,
               None, None, None, None, None)
    case Some(o) =>
      Identity(a.invocationId, a.workspaceId, a.catalogRoot, a.markerPath, a.consultedAt, a.taskId, version,
               Some(o.opportunityId), Some(o.binding), o.attribution, Some(o.identityBasis), Some(o.captureBoundary))
  }

  predicate SameAttemptIdentity(l: Attempt, r: Attempt) {
    && l.attemptId == r.attemptId && l.invocationId == r.invocationId && l.startedAt == r.startedAt
    && l.context == r.context && l.trigger == r.trigger && l.retryOf == r.retryOf
  }

  predicate DecisionsDisagree(l: Artifact, r: Artifact) {
    && l.Opportunity().Some? && r.Opportunity().Some?
    && l.Opportunity().value.decision != Pending && r.Opportunity().value.decision != Pending
    && l.Opportunity().value.decision != r.Opportunity().value.decision
  }

  predicate RequestsDisagree(l: Artifact, r: Artifact) {
    l.request.Some? && r.request.Some? && l.request != r.request
  }

  predicate UsagesDisagree(l: Artifact, r: Artifact) {
    l.usage.recordedAt.Some? && r.usage.recordedAt.Some? && l.usage != r.usage
  }

  predicate ReceiptsDisagree(l: Artifact, r: Artifact) {
    var lr, rr := ReceiptMap(l.readReceipts), ReceiptMap(r.readReceipts);
    exists id :: id in lr && id in rr && lr[id] != rr[id]
  }

  predicate ReceiptsFork(l: Artifact, r: Artifact) {
    var lr, rr := ReceiptMap(l.readReceipts), ReceiptMap(r.readReceipts);
    !(lr.Keys <= rr.Keys) && !(rr.Keys <= lr.Keys)
  }

  function When(applies: bool, reason: Reason): (r: set<Reason>)
    ensures forall x :: x in r <==> applies && x == reason
  {
    if applies then {reason} else {}
  }

  function DeliveryConflicts(left: Artifact, right: Artifact): set<Reason> {
    var l, r := left.Attempt(), right.Attempt();
    When(Immutable(left) != Immutable(right), ImmutableIdentityConflict)
    + When(l.Some? && r.Some? && !SameAttemptIdentity(l.value, r.value), AttemptIdentityConflict)
    + When(Terminal(l) && Terminal(r) && l != r, TerminalAttemptConflict)
    + When(DecisionsDisagree(left, right), OpportunityDecisionConflict)
    + When(RequestsDisagree(left, right), RequestIdentityConflict)
    + When(Terminal(l) && Terminal(r)
           && (left.returned != right.returned || left.retrievalBasis != right.retrievalBasis), RetrievalResultConflict)
    + When(UsagesDisagree(left, right), UsageCallbackConflict)
    + When(ReceiptsDisagree(left, right), ReadReceiptConflict)
    + When(ReceiptsFork(left, right), ReadReceiptFork)
    + When(!IsProgression(left, right) && !IsProgression(right, left), IncomparableProgression)
  }

  /** Nothing the earlier delivery records is missing from the later one. */
  predicate IsProgression(before: Artifact, after: Artifact) {
    && (before.usage.recordedAt.Some? ==> after.usage.recordedAt.Some?)
    && ReceiptMap(before.readReceipts).Keys <= ReceiptMap(after.readReceipts).Keys
    && (before.Attempt().Some? ==> after.Attempt().Some?)
    && (Terminal(before.Attempt()) ==> !(after.Attempt().Some? && after.Attempt().value.status == Running))
    && (before.Opportunity().Some? && before.Opportunity().value.decision != Pending ==>
          !(after.Opportunity().Some? && after.Opportunity().value.decision == Pending))
    && (before.Opportunity().Some? && before.Opportunity().value.gateObservation.Some? ==>
          after.Opportunity().Some? && after.Opportunity().value.gateObservation.Some?)
  }

  lemma ConflictsAreSymmetric(left: Artifact, right: Artifact)
    ensures DeliveryConflicts(left, right) == DeliveryConflicts(right, left)
  {
    assert ReceiptsDisagree(left, right) == ReceiptsDisagree(right, left);
    assert ReceiptsFork(left, right) == ReceiptsFork(right, left);
    hide ReceiptsDisagree, ReceiptsFork, IsProgression, Immutable;
  }

  lemma NoConflictWithItself(a: Artifact)
    ensures DeliveryConflicts(a, a) == {}
  {
  }

  // ---------------------------------------------------------------- the textual rank

  function Digit(d: nat): char
    requires d < 10
  {
    (48 + d) as char
  }

  function Decimal(n: nat): string {
    if n < 10 then [Digit(n)] else Decimal(n / 10) + [Digit(n % 10)]
  }

  function PadStart(s: string, width: nat): string
    decreases if |s| < width then width - |s| else 0
  {
    if |s| >= width then s else PadStart("0" + s, width)
  }

  function Flag(b: bool): string {
    if b then "1" else "0"
  }

  predicate Decided(a: Artifact) {
    a.Opportunity().None? || a.Opportunity().value.decision != Pending
  }

  predicate Gated(a: Artifact) {
    a.Opportunity().Some? && a.Opportunity().value.gateObservation.Some?
  }

  function DeliveryRank(a: Artifact): string {
    Flag(a.usage.recordedAt.Some?) + ":"
    + (PadStart(Decimal(|a.readReceipts|), 3) + ":"
       + (Flag(Terminal(a.Attempt())) + ":"
          + (Flag(a.Attempt().Some?) + ":"
             + (Flag(Decided(a)) + ":" + Flag(Gated(a))))))
  }

  /** The order the rank strings are compared in: character by character. */
  predicate TextLess(a: string, b: string) {
    b != [] && (a == [] || a[0] < b[0] || (a[0] == b[0] && TextLess(a[1..], b[1..])))
  }

  lemma {:induction false} TextLessByParts(p: string, q: string, r: string, s: string)
    requires |p| == |q|
    ensures TextLess(p + r, q + s) <==> TextLess(p, q) || (p == q && TextLess(r, s))
  {
    if p == [] {
      assert p + r == r && q + s == s;
    } else {
      assert (p + r)[1..] == p[1..] + r && (q + s)[1..] == q[1..] + s;
      TextLessByParts(p[1..], q[1..], r, s);
      assert p == [p[0]] + p[1..] && q == [q[0]] + q[1..];
    }
  }

  lemma {:induction false} TextLessIsIrreflexive(a: string)
    ensures !TextLess(a, a)
  {
    if a != [] {
      TextLessIsIrreflexive(a[1..]);
    }
  }

  lemma {:induction false} TextLessIsTotal(a: string, b: string)
    ensures a == b || TextLess(a, b) || TextLess(b, a)
  {
    if a != [] && b != [] {
      TextLessIsTotal(a[1..], b[1..]);
      if a[0] == b[0] && a[1..] == b[1..] {
        assert a == [a[0]] + a[1..] && b == [b[0]] + b[1..];
      }
    }
  }

  lemma {:induction false} TextLessIsTransitive(a: string, b: string, c: string)
    requires TextLess(a, b) && TextLess(b, c)
    ensures TextLess(a, c)
  {
    if a != [] && a[0] == b[0] == c[0] {
      TextLessIsTransitive(a[1..], b[1..], c[1..]);
    }
  }

  /** Below a thousand, the padded count is three digits. */
  lemma PaddedCount(n: nat)
    requires n < 1000
    ensures PadStart(Decimal(n), 3) == [Digit(n / 100), Digit(n / 10 % 10), Digit(n % 10)]
  {
    if n < 10 {
      PadTwice(Digit(n));
    } else if n < 100 {
      TwoDigits(n);
      assert "0" + Decimal(n) == [Digit(0), Digit(n / 10), Digit(n % 10)];
    } else {
      TwoDigits(n / 10);
      assert Decimal(n) == Decimal(n / 10) + [Digit(n % 10)];
    }
  }

  lemma PadTwice(c: char)
    ensures PadStart([c], 3) == ['0', '0', c]
  {
    assert "0" + [c] == ['0', c] && "0" + ['0', c] == ['0', '0', c];
    assert PadStart(['0', c], 3) == PadStart(['0', '0', c], 3);
  }

  lemma TwoDigits(n: nat)
    requires 10 <= n < 100
    ensures Decimal(n) == [Digit(n / 10), Digit(n % 10)]
  {
    assert Decimal(n / 10) == [Digit(n / 10)];
  }

  lemma DigitsOrder(h: nat, t: nat, u: nat, h': nat, t': nat, u': nat)
    requires h < 10 && t < 10 && u < 10 && h' < 10 && t' < 10 && u' < 10
    requires 100 * h + 10 * t + u < 100 * h' + 10 * t' + u'
    ensures TextLess([Digit(h), Digit(t), Digit(u)], [Digit(h'), Digit(t'), Digit(u')])
  {
    ThreeCharacters(Digit(h), Digit(t), Digit(u), Digit(h'), Digit(t'), Digit(u'));
  }

  lemma ThreeCharacters(a: char, b: char, c: char, x: char, y: char, z: char)
    ensures TextLess([a, b, c], [x, y, z]) <==> a < x || (a == x && (b < y || (b == y && c < z)))
  {
    assert [a, b, c][1..] == [b, c] && [x, y, z][1..] == [y, z];
    assert [b, c][1..] == [c] && [y, z][1..] == [z];
    assert TextLess([c], [z]) <==> c < z;
    assert TextLess([b, c], [y, z]) <==> b < y || (b == y && c < z);
  }

  lemma DigitsOf(n: nat)
    requires n < 1000
    ensures n / 100 < 10 && n == 100 * (n / 100) + 10 * (n / 10 % 10) + n % 10
  {
  }

  /** Below a thousand, padded counts order as the numbers do. */
  lemma PaddedCountsOrder(m: nat, n: nat)
    requires m <= n < 1000
    ensures |PadStart(Decimal(m), 3)| == |PadStart(Decimal(n), 3)| == 3
    ensures m == n || TextLess(PadStart(Decimal(m), 3), PadStart(Decimal(n), 3))
  {
    PaddedCount(m);
    PaddedCount(n);
    DigitsOf(m);
    DigitsOf(n);
    hide PadStart, Decimal, TextLess;
    if m < n {
      DigitsOrder(m / 100, m / 10 % 10, m % 10, n / 100, n / 10 % 10, n % 10);
    }
  }

  ghost predicate AtMost(p: string, q: string) {
    p == q || TextLess(p, q)
  }

  /** The exact bound: padded counts up to it order as the numbers do precisely below a thousand. */
  lemma PaddedCountsOrderExactlyBelow(bound: nat)
    ensures (forall m: nat, n: nat :: m <= n <= bound ==> AtMost(PadStart(Decimal(m), 3), PadStart(Decimal(n), 3)))
       <==> bound < 1000
  {
    if bound < 1000 {
      hide PadStart, Decimal, TextLess;
      forall m: nat, n: nat | m <= n <= bound
        ensures AtMost(PadStart(Decimal(m), 3), PadStart(Decimal(n), 3))
      {
        PaddedCountsOrder(m, n);
      }
    } else {
      ThousandPadsBelow();
      assert 999 <= 1000 <= bound;
    }
  }

  lemma ThousandPadsBelow()
    ensures !AtMost(PadStart(Decimal(999), 3), PadStart(Decimal(1000), 3))
  {
    PaddedCount(999);
    assert Decimal(1000) == Decimal(100) + ['0'] == Decimal(10) + ['0'] + ['0'] == Decimal(1) + ['0'] + ['0'] + ['0'];
    assert PadStart(Decimal(1000), 3)[0] == '1' && PadStart(Decimal(999), 3)[0] == '9';
  }

  // ---------------------------------------------------------------- rank and progression agree

  /** Texts joined from ordered parts are ordered, and agree only where every part agrees. */
  lemma PartsOrder(p: string, q: string, r: string, s: string)
    requires |p| == |q| && AtMost(p, q) && AtMost(r, s)
    ensures AtMost(p + ":" + r, q + ":" + s)
    ensures p + ":" + r == q + ":" + s <==> p == q && r == s
  {
    TextLessByParts(p + ":", q + ":", r, s);
    TextLessByParts(p, q, ":", ":");
    TextLessIsIrreflexive(":");
    assert (p + ":" + r)[..|p|] == p && (q + ":" + s)[..|q|] == q;
    assert (p + ":" + r)[|p| + 1..] == r && (q + ":" + s)[|q| + 1..] == s;
    TextLessIsIrreflexive(p);
    TextLessIsIrreflexive(r);
  }

  ghost predicate SameMilestones(a: Artifact, b: Artifact) {
    && a.usage.recordedAt.Some? == b.usage.recordedAt.Some? && |a.readReceipts| == |b.readReceipts|
    && Terminal(a.Attempt()) == Terminal(b.Attempt()) && a.Attempt().Some? == b.Attempt().Some?
    && Decided(a) == Decided(b) && Gated(a) == Gated(b)
  }

  lemma FlagsOrder(b: bool, a: bool)
    requires b ==> a
    ensures |Flag(b)| == |Flag(a)| == 1
    ensures Flag(b) == Flag(a) || TextLess(Flag(b), Flag(a))
    ensures Flag(b) == Flag(a) <==> b == a
  {
  }

  lemma {:induction false} KeysAreCounted(receipts: seq<Receipt>)
    requires DistinctReceipts(receipts)
    ensures |ReceiptMap(receipts)| == |receipts|
  {
    if receipts != [] {
      var prefix, last := receipts[..|receipts| - 1], receipts[|receipts| - 1];
      KeysAreCounted(prefix);
      assert last.receiptId !in ReceiptMap(prefix) by {
        forall r | r in prefix
          ensures r.receiptId != last.receiptId
        {
        }
      }
      assert ReceiptMap(receipts).Keys == ReceiptMap(prefix).Keys + {last.receiptId};
    }
  }

  lemma SubsetsCount<T>(a: set<T>, b: set<T>)
    requires a <= b
    ensures |a| <= |b|
    ensures |a| == |b| ==> a == b
  {
    assert b == a + (b - a);
  }

  lemma ProgressionOrdersCounts(b: Artifact, a: Artifact)
    requires DistinctReceipts(b.readReceipts) && DistinctReceipts(a.readReceipts) && IsProgression(b, a)
    ensures |b.readReceipts| <= |a.readReceipts|
    ensures |b.readReceipts| == |a.readReceipts| ==> ReceiptMap(b.readReceipts).Keys == ReceiptMap(a.readReceipts).Keys
  {
    KeysAreCounted(b.readReceipts);
    KeysAreCounted(a.readReceipts);
    SubsetsCount(ReceiptMap(b.readReceipts).Keys, ReceiptMap(a.readReceipts).Keys);
    assert |ReceiptMap(b.readReceipts).Keys| == |ReceiptMap(b.readReceipts)|;
    assert |ReceiptMap(a.readReceipts).Keys| == |ReceiptMap(a.readReceipts)|;
  }

  /** Deliveries of one invocation rank at least as high as everything they are a progression of. */
  lemma RankIsMonotone(b: Artifact, a: Artifact)
    requires Immutable(b) == Immutable(a) && IsProgression(b, a)
    requires DistinctReceipts(b.readReceipts) && DistinctReceipts(a.readReceipts)
    requires |b.readReceipts| < 1000 && |a.readReceipts| < 1000
    ensures DeliveryRank(b) == DeliveryRank(a) || TextLess(DeliveryRank(b), DeliveryRank(a))
    ensures DeliveryRank(b) == DeliveryRank(a) ==> SameMilestones(b, a)
  {
    ProgressionOrdersCounts(b, a);
    PaddedCountsOrder(|b.readReceipts|, |a.readReceipts|);
    FlagsOrder(b.usage.recordedAt.Some?, a.usage.recordedAt.Some?);
    FlagsOrder(Terminal(b.Attempt()), Terminal(a.Attempt()));
    FlagsOrder(b.Attempt().Some?, a.Attempt().Some?);
    FlagsOrder(Decided(b), Decided(a));
    FlagsOrder(Gated(b), Gated(a));
    TextLessIsIrreflexive(PadStart(Decimal(|b.readReceipts|), 3));
    RankParts(b, a);
  }

  /** A rank is ordered by its parts. */
  lemma RankParts(b: Artifact, a: Artifact)
    requires |PadStart(Decimal(|b.readReceipts|), 3)| == |PadStart(Decimal(|a.readReceipts|), 3)|
    requires AtMost(Flag(b.usage.recordedAt.Some?), Flag(a.usage.recordedAt.Some?))
    requires AtMost(PadStart(Decimal(|b.readReceipts|), 3), PadStart(Decimal(|a.readReceipts|), 3))
    requires AtMost(Flag(Terminal(b.Attempt())), Flag(Terminal(a.Attempt())))
    requires AtMost(Flag(b.Attempt().Some?), Flag(a.Attempt().Some?))
    requires AtMost(Flag(Decided(b)), Flag(Decided(a)))
    requires AtMost(Flag(Gated(b)), Flag(Gated(a)))
    ensures AtMost(DeliveryRank(b), DeliveryRank(a))
    ensures DeliveryRank(b) == DeliveryRank(a) ==>
              && PadStart(Decimal(|b.readReceipts|), 3) == PadStart(Decimal(|a.readReceipts|), 3)
              && b.usage.recordedAt.Some? == a.usage.recordedAt.Some? && Terminal(b.Attempt()) == Terminal(a.Attempt())
              && b.Attempt().Some? == a.Attempt().Some? && Decided(b) == Decided(a) && Gated(b) == Gated(a)
  {
    hide AtMost, TextLess, PadStart, Decimal, Terminal, Decided, Gated;
    var u, u' := Flag(b.usage.recordedAt.Some?), Flag(a.usage.recordedAt.Some?);
    var c, c' := PadStart(Decimal(|b.readReceipts|), 3), PadStart(Decimal(|a.readReceipts|), 3);
    var t, t' := Flag(Terminal(b.Attempt())), Flag(Terminal(a.Attempt()));
    var s, s' := Flag(b.Attempt().Some?), Flag(a.Attempt().Some?);
    var d, d' := Flag(Decided(b)), Flag(Decided(a));
    var g, g' := Flag(Gated(b)), Flag(Gated(a));
    PartsOrder(d, d', g, g');
    PartsOrder(s, s', d + ":" + g, d' + ":" + g');
    PartsOrder(t, t', s + ":" + (d + ":" + g), s' + ":" + (d' + ":" + g'));
    PartsOrder(c, c', t + ":" + (s + ":" + (d + ":" + g)), t' + ":" + (s' + ":" + (d' + ":" + g')));
    PartsOrder(u, u', c + ":" + (t + ":" + (s + ":" + (d + ":" + g))),
               c' + ":" + (t' + ":" + (s' + ":" + (d' + ":" + g'))));
  }

  /**
   The padding stops at three characters: a thousandth receipt makes a delivery rank below its own
   predecessor, so the bound on receipts is needed.
   */
  lemma RankBreaksAtAThousandReceipts(b: Artifact, a: Artifact)
    requires |b.readReceipts| == 999 && |a.readReceipts| == 1000
    requires b.usage.recordedAt.Some? == a.usage.recordedAt.Some?
    ensures TextLess(DeliveryRank(a), DeliveryRank(b))
  {
    PaddedCount(999);
    assert Decimal(1000) == Decimal(100) + ['0'] == Decimal(10) + ['0'] + ['0'] == Decimal(1) + ['0'] + ['0'] + ['0'];
    var flag := Flag(a.usage.recordedAt.Some?) + ":";
    var ra := DeliveryRank(a)[2..];
    var rb := DeliveryRank(b)[2..];
    assert DeliveryRank(a) == flag + ra && DeliveryRank(b) == flag + rb;
    assert ra[0] == '1' && rb[0] == '9';
    TextLessByParts(flag, flag, ra, rb);
  }

  // ---------------------------------------------------------------- grouping and survivors

  /** An artifact without an id is identified by its own content. */
  datatype Key = ById(workspaceId: Option<string>, invocationId: string)
    | ByContent(workspaceId: Option<string>, content: Artifact)

  function DeliveryKey(a: Artifact): Key {
    if a.invocationId.Some? then ById(a.workspaceId, a.invocationId.value) else ByContent(a.workspaceId, a)
  }

  ghost function GroupOf(input: seq<Artifact>, key: Key): seq<Artifact> {
    if input == [] then []
    else GroupOf(input[..|input| - 1], key) + if DeliveryKey(input[|input| - 1]) == key then [input[|input| - 1]]
                                              else []
  }

  /** The keys of the input in order of first appearance. */
  ghost function KeysOf(input: seq<Artifact>): seq<Key> {
    if input == [] then []
    else
      var keys := KeysOf(input[..|input| - 1]);
      if DeliveryKey(input[|input| - 1]) in keys then keys else keys + [DeliveryKey(input[|input| - 1])]
  }

  ghost predicate ConflictFree(group: seq<Artifact>) {
    forall i, j :: 0 <= i < j < |group| ==> DeliveryConflicts(group[i], group[j]) == {}
  }

  /** The first delivery of the highest rank. */
  ghost function Survivor(group: seq<Artifact>): Artifact
    requires group != []
  {
    if |group| == 1 then group[0]
    else
      var best := Survivor(group[..|group| - 1]);
      if TextLess(DeliveryRank(best), DeliveryRank(group[|group| - 1])) then group[|group| - 1] else best
  }

  lemma {:induction false} SurvivorRanksHighest(group: seq<Artifact>)
    requires group != []
    ensures Survivor(group) in group
    ensures forall e :: e in group ==> !TextLess(DeliveryRank(Survivor(group)), DeliveryRank(e))
  {
    var last := group[|group| - 1];
    if |group| > 1 {
      var prefix := group[..|group| - 1];
      SurvivorRanksHighest(prefix);
      var best := Survivor(prefix);
      TextLessIsIrreflexive(DeliveryRank(last));
      forall e | e in group
        ensures !TextLess(DeliveryRank(Survivor(group)), DeliveryRank(e))
      {
        if e in prefix && TextLess(DeliveryRank(best), DeliveryRank(last))
          && TextLess(DeliveryRank(last), DeliveryRank(e)) {
          TextLessIsTransitive(DeliveryRank(best), DeliveryRank(last), DeliveryRank(e));
        }
        assert e in prefix || e == last;
      }
    } else {
      TextLessIsIrreflexive(DeliveryRank(last));
    }
  }

  lemma ConflictFreeByValue(group: seq<Artifact>)
    ensures ConflictFree(group) <==> forall x, y :: x in group && y in group ==> DeliveryConflicts(x, y) == {}
  {
    if ConflictFree(group) {
      forall x, y | x in group && y in group
        ensures DeliveryConflicts(x, y) == {}
      {
        var i :| 0 <= i < |group| && group[i] == x;
        var j :| 0 <= j < |group| && group[j] == y;
        ConflictsAreSymmetric(x, y);
        NoConflictWithItself(x);
        if i < j {
          assert DeliveryConflicts(group[i], group[j]) == {};
        } else if j < i {
          assert DeliveryConflicts(group[j], group[i]) == {};
        }
      }
    }
  }

  lemma ComparableDeliveries(x: Artifact, y: Artifact)
    requires DeliveryConflicts(x, y) == {}
    ensures Immutable(x) == Immutable(y) && (IsProgression(x, y) || IsProgression(y, x))
  {
    assert ImmutableIdentityConflict !in DeliveryConflicts(x, y);
    assert IncomparableProgression !in DeliveryConflicts(x, y);
  }

  /** The report keeps a delivery that is a progression of every other one in its accepted group. */
  lemma SurvivorIsAProgressionOfAll(group: seq<Artifact>, e: Artifact)
    requires ConflictFree(group) && e in group
    requires forall x :: x in group ==> DistinctReceipts(x.readReceipts) && |x.readReceipts| < 1000
    ensures IsProgression(e, Survivor(group))
  {
    var best := Survivor(group);
    SurvivorRanksHighest(group);
    ConflictFreeByValue(group);
    ComparableDeliveries(e, best);
    if !IsProgression(e, best) {
      RankIsMonotone(best, e);
      ProgressionOrdersCounts(best, e);
    }
  }

  // ---------------------------------------------------------------- order and conservation

  lemma {:induction false} GroupHolds(input: seq<Artifact>, key: Key)
    ensures forall a :: a in GroupOf(input, key) <==> a in input && DeliveryKey(a) == key
  {
    if input != [] {
      GroupHolds(input[..|input| - 1], key);
      assert input == input[..|input| - 1] + [input[|input| - 1]];
    }
  }

  lemma {:induction false} KeysHold(input: seq<Artifact>)
    ensures Distinct(KeysOf(input))
    ensures forall key :: key in KeysOf(input) <==> exists a :: a in input && DeliveryKey(a) == key
    ensures forall key :: key in KeysOf(input) <==> GroupOf(input, key) != []
  {
    if input != [] {
      var prefix, last := input[..|input| - 1], input[|input| - 1];
      KeysHold(prefix);
      assert input == prefix + [last];
      forall key
        ensures key in KeysOf(input) <==> key in KeysOf(prefix) || key == DeliveryKey(last)
        ensures (exists a :: a in input && DeliveryKey(a) == key) <==> key in KeysOf(prefix) || key == DeliveryKey(last)
      {
        if key == DeliveryKey(last) {
          assert last in input;
        } else if exists a :: a in prefix && DeliveryKey(a) == key {
          var a :| a in prefix && DeliveryKey(a) == key;
          assert a in input;
        }
      }
    }
  }

  /** Whether a group is accepted does not depend on the order the deliveries arrive in. */
  lemma AcceptanceIgnoresOrder(input: seq<Artifact>, shuffled: seq<Artifact>, key: Key)
    requires multiset(input) == multiset(shuffled)
    ensures ConflictFree(GroupOf(input, key)) <==> ConflictFree(GroupOf(shuffled, key))
  {
    GroupHolds(input, key);
    GroupHolds(shuffled, key);
    ConflictFreeByValue(GroupOf(input, key));
    ConflictFreeByValue(GroupOf(shuffled, key));
    forall a
      ensures a in input <==> a in shuffled
    {
      assert a in multiset(input) <==> a in multiset(shuffled);
    }
  }

  /** Two orders of arrival may keep different deliveries, but each records all the other does. */
  lemma SurvivorsAgreeInProgress(input: seq<Artifact>, shuffled: seq<Artifact>, key: Key)
    requires multiset(input) == multiset(shuffled) && GroupOf(input, key) != [] && ConflictFree(GroupOf(input, key))
    requires forall x :: x in input ==> DistinctReceipts(x.readReceipts) && |x.readReceipts| < 1000
    ensures GroupOf(shuffled, key) != []
    ensures IsProgression(Survivor(GroupOf(input, key)), Survivor(GroupOf(shuffled, key)))
    ensures IsProgression(Survivor(GroupOf(shuffled, key)), Survivor(GroupOf(input, key)))
  {
    GroupHolds(input, key);
    GroupHolds(shuffled, key);
    AcceptanceIgnoresOrder(input, shuffled, key);
    forall a
      ensures a in input <==> a in shuffled
    {
      assert a in multiset(input) <==> a in multiset(shuffled);
    }
    assert GroupOf(input, key)[0] in GroupOf(shuffled, key);
    SurvivorRanksHighest(GroupOf(input, key));
    SurvivorRanksHighest(GroupOf(shuffled, key));
    SurvivorIsAProgressionOfAll(GroupOf(input, key), Survivor(GroupOf(shuffled, key)));
    SurvivorIsAProgressionOfAll(GroupOf(shuffled, key), Survivor(GroupOf(input, key)));
  }

  ghost function GroupSizes(input: seq<Artifact>, keys: seq<Key>): nat {
    if keys == [] then 0 else GroupSizes(input, keys[..|keys| - 1]) + |GroupOf(input, keys[|keys| - 1])|
  }

  lemma {:induction false} OneMoreDelivery(input: seq<Artifact>, keys: seq<Key>, last: Artifact)
    requires Distinct(keys)
    ensures GroupSizes(input + [last], keys) == GroupSizes(input, keys) + if DeliveryKey(last) in keys then 1 else 0
  {
    assert (input + [last])[..|input|] == input;
    if keys != [] {
      var rest := keys[..|keys| - 1];
      OneMoreDelivery(input, rest, last);
      assert keys == rest + [keys[|keys| - 1]];
      assert keys[|keys| - 1] !in rest;
    }
  }

  /** Every delivery is in exactly one group. */
  lemma {:induction false} GroupsPartitionTheInput(input: seq<Artifact>)
    ensures GroupSizes(input, KeysOf(input)) == |input|
  {
    if input != [] {
      var prefix, last := input[..|input| - 1], input[|input| - 1];
      GroupsPartitionTheInput(prefix);
      assert input == prefix + [last];
      KeysHold(prefix);
      KeysHold(input);
      var keys := KeysOf(prefix);
      OneMoreDelivery(prefix, keys, last);
      if DeliveryKey(last) !in keys {
        assert KeysOf(input)[..|keys|] == keys;
        assert GroupOf(prefix, DeliveryKey(last)) == [];
      }
    }
  }

  // ---------------------------------------------------------------- the deduplication loop

  datatype Conflict = Conflict(key: Key, reasons: set<Reason>, deliveries: nat)

  ghost function ReasonsOf(group: seq<Artifact>): set<Reason> {
    set i, j, reason | 0 <= i < j < |group| && reason in DeliveryConflicts(group[i], group[j]) :: reason
  }

  /** The survivors of the accepted groups and the conflicts of the others, key by key. */
  ghost predicate Deduplicated(input: seq<Artifact>, keys: seq<Key>, accepted: seq<Artifact>, conflicts: seq<Conflict>)
    requires forall key :: key in keys ==> GroupOf(input, key) != []
  {
    if keys == [] then accepted == [] && conflicts == []
    else
      var key := keys[|keys| - 1];
      var group := GroupOf(input, key);
      if ConflictFree(group)
      then accepted != [] && accepted[|accepted| - 1] == Survivor(group)
           && Deduplicated(input, keys[..|keys| - 1], accepted[..|accepted| - 1], conflicts)
      else conflicts != [] && conflicts[|conflicts| - 1] == Conflict(key, ReasonsOf(group), |group|)
           && Deduplicated(input, keys[..|keys| - 1], accepted, conflicts[..|conflicts| - 1])
  }

  ghost function ConflictedDeliveries(conflicts: seq<Conflict>): nat {
    if conflicts == [] then 0
    else ConflictedDeliveries(conflicts[..|conflicts| - 1]) + conflicts[|conflicts| - 1].deliveries
  }

  /** The duplicates the report counts: every delivery of an accepted group but its survivor. */
  ghost function SurplusDeliveries(input: seq<Artifact>, keys: seq<Key>): int {
    if keys == [] then 0
    else
      SurplusDeliveries(input, keys[..|keys| - 1])
      + if ConflictFree(GroupOf(input, keys[|keys| - 1])) then |GroupOf(input, keys[|keys| - 1])| - 1 else 0
  }

  lemma {:induction false} DeliveriesAddUp(input: seq<Artifact>, keys: seq<Key>, accepted: seq<Artifact>,
                                           conflicts: seq<Conflict>)
    requires forall key :: key in keys ==> GroupOf(input, key) != []
    requires Deduplicated(input, keys, accepted, conflicts)
    ensures |accepted| + SurplusDeliveries(input, keys) + ConflictedDeliveries(conflicts) == GroupSizes(input, keys)
    ensures SurplusDeliveries(input, keys) >= 0
  {
    if keys != [] {
      var rest, group := keys[..|keys| - 1], GroupOf(input, keys[|keys| - 1]);
      if ConflictFree(group) {
        DeliveriesAddUp(input, rest, accepted[..|accepted| - 1], conflicts);
      } else {
        DeliveriesAddUp(input, rest, accepted, conflicts[..|conflicts| - 1]);
      }
    }
  }

  /**
   accepted, duplicate and conflicted deliveries add up to the input; the duplicates are the
   surplus of the accepted groups.
   */
  lemma EveryDeliveryIsAccountedFor(input: seq<Artifact>, accepted: seq<Artifact>, conflicts: seq<Conflict>)
    requires forall key :: key in KeysOf(input) ==> GroupOf(input, key) != []
    requires Deduplicated(input, KeysOf(input), accepted, conflicts)
    ensures var duplicates := |input| - |accepted| - ConflictedDeliveries(conflicts);
            duplicates == SurplusDeliveries(input, KeysOf(input)) && duplicates >= 0
  {
    DeliveriesAddUp(input, KeysOf(input), accepted, conflicts);
    GroupsPartitionTheInput(input);
  }

  method CollectReasons(group: seq<Artifact>) returns (reasons: set<Reason>)
    ensures reasons == ReasonsOf(group)
    ensures reasons == {} <==> ConflictFree(group)
  {
    hide DeliveryConflicts;
    reasons := {};
    var i := 0;
    while i < |group|
      invariant 0 <= i <= |group|
      invariant reasons == set a, b, reason | 0 <= a < b < |group| && a < i
                  && reason in DeliveryConflicts(group[a], group[b]) :: reason
    {
      var j := i + 1;
      ghost var before := reasons;
      while j < |group|
        invariant i < j <= |group|
        invariant reasons == before + set b, reason | i < b < j && reason in DeliveryConflicts(group[i], group[b]) ::
                    reason
      {
        reasons := reasons + DeliveryConflicts(group[i], group[j]);
        j := j + 1;
      }
      i := i + 1;
    }
    if reasons == {} {
      forall a, b | 0 <= a < b < |group|
        ensures DeliveryConflicts(group[a], group[b]) == {}
      {
        forall reason | reason in DeliveryConflicts(group[a], group[b])
          ensures reason in reasons
        {
        }
      }
    }
  }

  method ChooseSurvivor(group: seq<Artifact>) returns (current: Artifact)
    requires group != []
    ensures current == Survivor(group)
  {
    hide DeliveryRank, TextLess;
    current := group[0];
    var i := 1;
    assert group[..1] == [group[0]];
    while i < |group|
      invariant 1 <= i <= |group|
      invariant current == Survivor(group[..i])
    {
      assert group[..i + 1][..i] == group[..i];
      if TextLess(DeliveryRank(current), DeliveryRank(group[i])) {
        current := group[i];
      }
      i := i + 1;
    }
    assert group[..|group|] == group;
  }

  method GroupByKey(artifacts: seq<Artifact>) returns (keys: seq<Key>, groups: map<Key, seq<Artifact>>)
    ensures keys == KeysOf(artifacts) && groups.Keys == set key | key in keys
    ensures forall key :: key in keys ==> groups[key] == GroupOf(artifacts, key) && groups[key] != []
  {
    hide DeliveryKey, Grouped;
    keys, groups := [], map[];
    var i := 0;
    NothingGrouped();
    while i < |artifacts|
      invariant 0 <= i <= |artifacts|
      invariant Grouped(artifacts[..i], keys, groups)
    {
      var key := DeliveryKey(artifacts[i]);
      GroupOneMore(artifacts[..i], keys, groups, artifacts[i]);
      assert artifacts[..i + 1] == artifacts[..i] + [artifacts[i]];
      if key !in groups {
        groups := groups[key := []];
        keys := keys + [key];
      }
      groups := groups[key := groups[key] + [artifacts[i]]];
      i := i + 1;
    }
    assert artifacts[..|artifacts|] == artifacts;
    GroupedHolds(artifacts, keys, groups);
  }

  ghost predicate Grouped(seen: seq<Artifact>, keys: seq<Key>, groups: map<Key, seq<Artifact>>) {
    keys == KeysOf(seen) && forall key :: GroupedAt(seen, keys, groups, key)
  }

  ghost predicate GroupedAt(seen: seq<Artifact>, keys: seq<Key>, groups: map<Key, seq<Artifact>>, key: Key) {
    && (key in groups <==> key in keys)
    && GroupOf(seen, key) == if key in groups then groups[key] else []
  }

  lemma NothingGrouped()
    ensures Grouped([], [], map[])
  {
  }

  lemma GroupOneMore(seen: seq<Artifact>, keys: seq<Key>, groups: map<Key, seq<Artifact>>, a: Artifact)
    requires Grouped(seen, keys, groups)
    ensures var key := DeliveryKey(a);
            var known := if key in groups then groups else groups[key := []];
            Grouped(seen + [a], if key in groups then keys else keys + [key], known[key := known[key] + [a]])
  {
    var key := DeliveryKey(a);
    var known := if key in groups then groups else groups[key := []];
    var more, grown := if key in groups then keys else keys + [key], known[key := known[key] + [a]];
    hide GroupedAt, DeliveryKey, KeysOf, GroupOf;
    forall other
      ensures GroupedAt(seen + [a], more, grown, other)
    {
      assert GroupedAt(seen, keys, groups, key) && GroupedAt(seen, keys, groups, other);
      GroupOneMoreAt(seen, keys, groups, a, other);
    }
    KeysSnoc(seen, a);
    assert GroupedAt(seen, keys, groups, key);
    KnownKey(seen, keys, groups, key);
  }

  lemma KnownKey(seen: seq<Artifact>, keys: seq<Key>, groups: map<Key, seq<Artifact>>, key: Key)
    requires GroupedAt(seen, keys, groups, key)
    ensures key in groups <==> key in keys
  {
  }

  lemma GroupOneMoreAt(seen: seq<Artifact>, keys: seq<Key>, groups: map<Key, seq<Artifact>>, a: Artifact, other: Key)
    requires GroupedAt(seen, keys, groups, DeliveryKey(a)) && GroupedAt(seen, keys, groups, other)
    ensures var key := DeliveryKey(a);
            var known := if key in groups then groups else groups[key := []];
            GroupedAt(seen + [a], if key in groups then keys else keys + [key], known[key := known[key] + [a]], other)
  {
    GroupSnoc(seen, a, other);
    hide DeliveryKey, GroupOf;
  }

  lemma KeysSnoc(seen: seq<Artifact>, a: Artifact)
    ensures var keys := KeysOf(seen);
            KeysOf(seen + [a]) == if DeliveryKey(a) in keys then keys else keys + [DeliveryKey(a)]
  {
    hide DeliveryKey;
    assert (seen + [a])[..|seen|] == seen;
  }

  lemma GroupSnoc(seen: seq<Artifact>, a: Artifact, key: Key)
    ensures GroupOf(seen + [a], key) == GroupOf(seen, key) + if DeliveryKey(a) == key then [a] else []
  {
    hide DeliveryKey;
    assert (seen + [a])[..|seen|] == seen;
  }

  lemma GroupedHolds(input: seq<Artifact>, keys: seq<Key>, groups: map<Key, seq<Artifact>>)
    requires Grouped(input, keys, groups)
    ensures keys == KeysOf(input) && groups.Keys == set key | key in keys
    ensures forall key :: key in keys ==> groups[key] == GroupOf(input, key) && groups[key] != []
  {
    KeysHold(input);
    hide KeysOf, GroupOf;
    forall key
      ensures (key in groups <==> key in keys) && (key in keys ==> groups[key] == GroupOf(input, key))
    {
      assert GroupedAt(input, keys, groups, key);
    }
  }

  lemma OneMoreSurvivor(input: seq<Artifact>, keys: seq<Key>, key: Key, accepted: seq<Artifact>,
                        conflicts: seq<Conflict>)
    requires forall k :: k in keys + [key] ==> GroupOf(input, k) != []
    requires Deduplicated(input, keys, accepted, conflicts) && ConflictFree(GroupOf(input, key))
    ensures Deduplicated(input, keys + [key], accepted + [Survivor(GroupOf(input, key))], conflicts)
  {
    hide ConflictFree, Survivor, GroupOf;
    assert (keys + [key])[..|keys|] == keys;
    var more := accepted + [Survivor(GroupOf(input, key))];
    assert more[..|more| - 1] == accepted;
  }

  lemma OneMoreConflict(input: seq<Artifact>, keys: seq<Key>, key: Key, accepted: seq<Artifact>,
                        conflicts: seq<Conflict>)
    requires forall k :: k in keys + [key] ==> GroupOf(input, k) != []
    requires Deduplicated(input, keys, accepted, conflicts) && !ConflictFree(GroupOf(input, key))
    ensures var group := GroupOf(input, key);
            Deduplicated(input, keys + [key], accepted, conflicts + [Conflict(key, ReasonsOf(group), |group|)])
  {
    hide ConflictFree, Survivor, GroupOf, ReasonsOf;
    assert (keys + [key])[..|keys|] == keys;
    var more := conflicts + [Conflict(key, ReasonsOf(GroupOf(input, key)), |GroupOf(input, key)|)];
    assert more[..|more| - 1] == conflicts;
  }

  /** One survivor for each conflict-free group, one conflict for each other, survivors in report order. */
  method Deduplicate(artifacts: seq<Artifact>, le: (Artifact, Artifact) -> bool)
      returns (accepted: seq<Artifact>, conflicts: seq<Conflict>, ghost unsorted: seq<Artifact>)
    requires TotalPreorder(le)
    ensures forall key :: key in KeysOf(artifacts) ==> GroupOf(artifacts, key) != []
    ensures Deduplicated(artifacts, KeysOf(artifacts), unsorted, conflicts)
    ensures accepted == Sort(le, unsorted) && SortedBy(le, accepted) && multiset(accepted) == multiset(unsorted)
  {
    hide DeliveryRank, TextLess, DeliveryConflicts, ReasonsOf, ConflictFree, Survivor, GroupOf, KeysOf;
    var keys, groups := GroupByKey(artifacts);
    accepted, conflicts := [], [];
    var i := 0;
    assert Deduplicated(artifacts, keys[..0], accepted, conflicts);
    hide Deduplicated;
    while i < |keys|
      invariant 0 <= i <= |keys|
      invariant Deduplicated(artifacts, keys[..i], accepted, conflicts)
    {
      var group := groups[keys[i]];
      assert keys[..i + 1] == keys[..i] + [keys[i]];
      var reasons := CollectReasons(group);
      if reasons != {} {
        OneMoreConflict(artifacts, keys[..i], keys[i], accepted, conflicts);
        conflicts := conflicts + [Conflict(keys[i], reasons, |group|)];
      } else {
        var survivor := ChooseSurvivor(group);
        OneMoreSurvivor(artifacts, keys[..i], keys[i], accepted, conflicts);
        accepted := accepted + [survivor];
      }
      i := i + 1;
    }
    assert keys[..|keys|] == keys;
    unsorted := accepted;
    SortSorts(le, accepted);
    accepted := Sort(le, accepted);
  }
}
