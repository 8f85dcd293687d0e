/**
 First-move selection and lane ranks of a briefing (src/briefing/selectFirstMove.ts).

 Drafts are objects, so equal-looking drafts stay different: they are told apart by their
 position in the collected list. Due dates are time values.
 */
module FirstMove {
  import opened Options
  import opened Ordering

  datatype Draft = Draft(lane: string, eligible: bool, blocker: bool, dueAt: Option<int>, dependents: nat, ageDays: nat)

  // ----- The comparator

  function CompareByDeadline(a: Option<int>, b: Option<int>): int {
    if a.None? && b.None? then 0
    else if a.None? then 1
    else if b.None? then -1
    else a.value - b.value
  }

  function Compare(a: Draft, b: Draft): int {
    if a.blocker != b.blocker then (if a.blocker then -1 else 1)
    else if CompareByDeadline(a.dueAt, b.dueAt) != 0 then CompareByDeadline(a.dueAt, b.dueAt)
    else if a.dependents != b.dependents then b.dependents - a.dependents
    else b.ageDays - a.ageDays
  }

  /** A total preorder: swapping the arguments flips the sign, and "not after" is transitive. */
  lemma CompareIsTotalPreorder(a: Draft, b: Draft, c: Draft)
    ensures Compare(a, a) == 0
    ensures (Compare(a, b) < 0 <==> Compare(b, a) > 0) && (Compare(a, b) == 0 <==> Compare(b, a) == 0)
    ensures Compare(a, b) <= 0 && Compare(b, c) <= 0 ==> Compare(a, c) <= 0
    ensures Compare(a, b) <= 0 && Compare(b, c) <= 0 && Compare(a, c) == 0 ==> Compare(a, b) == 0 && Compare(b, c) == 0
  {
  }

  predicate DueSooner(a: Option<int>, b: Option<int>) {
    a.Some? && (b.None? || a.value < b.value)
  }

  /** A blocker first; then the earlier due date, none last; then more dependents; then the older draft. */
  predicate Beats(a: Draft, b: Draft) {
    || (a.blocker && !b.blocker)
    || (a.blocker == b.blocker && DueSooner(a.dueAt, b.dueAt))
    || (a.blocker == b.blocker && a.dueAt == b.dueAt && a.dependents > b.dependents)
    || (a.blocker == b.blocker && a.dueAt == b.dueAt && a.dependents == b.dependents && a.ageDays > b.ageDays)
  }

  /** Negative exactly for the draft that comes first, zero exactly for drafts that agree in all four. */
  lemma CompareIsLexicographic(a: Draft, b: Draft)
    ensures Compare(a, b) < 0 <==> Beats(a, b)
    ensures Compare(a, b) > 0 <==> Beats(b, a)
    ensures Compare(a, b) == 0 <==>
      a.blocker == b.blocker && a.dueAt == b.dueAt && a.dependents == b.dependents && a.ageDays == b.ageDays
  {
  }

  // ----- Stable order on positions

  predicate Precedes(drafts: seq<Draft>, i: nat, j: nat)
    requires i < |drafts| && j < |drafts|
  {
    Compare(drafts[i], drafts[j]) < 0 || (Compare(drafts[i], drafts[j]) == 0 && i < j)
  }

  function Precedence(drafts: seq<Draft>): Order {
    (i: nat, j: nat) => i < |drafts| && j < |drafts| && Precedes(drafts, i, j)
  }

  ghost predicate Positions(drafts: seq<Draft>, s: set<nat>) {
    forall i :: i in s ==> i < |drafts|
  }

  lemma PrecedenceIsStrictTotal(drafts: seq<Draft>, s: set<nat>)
    requires Positions(drafts, s)
    ensures StrictTotal(Precedence(drafts), s)
  {
    var less := Precedence(drafts);
    forall a, b, c | a in s && b in s && c in s
      ensures !less(a, a)
      ensures a != b ==> less(a, b) || less(b, a)
      ensures less(a, b) && less(b, c) ==> less(a, c)
    {
      CompareIsTotalPreorder(drafts[a], drafts[b], drafts[c]);
    }
  }

  // ----- selectFirstMove

  ghost function EligiblePositions(drafts: seq<Draft>): set<nat> {
    set i: nat | i < |drafts| && drafts[i].eligible
  }

  method SelectFirstMove(drafts: seq<Draft>) returns (first: Option<nat>)
    ensures first.None? <==> EligiblePositions(drafts) == {}
    ensures first.Some? ==> first.value in EligiblePositions(drafts)
    ensures first.Some? ==> forall j :: j in EligiblePositions(drafts) && j != first.value ==>
      Beats(drafts[first.value], drafts[j]) || (!Beats(drafts[j], drafts[first.value]) && first.value < j)
    ensures first.Some? ==>
      (drafts[first.value].blocker <==> exists j :: j in EligiblePositions(drafts) && drafts[j].blocker)
  {
    var eligible: seq<nat> := [];
    for i := 0 to |drafts|
      invariant Distinct(eligible)
      invariant forall k :: 0 <= k < |eligible| ==> eligible[k] < i && drafts[eligible[k]].eligible
      invariant forall p :: 0 <= p < i && drafts[p].eligible ==> p in eligible
    {
      if drafts[i].eligible {
        eligible := eligible + [i];
      }
    }
    ghost var s := EligiblePositions(drafts);
    assert Elements(eligible) == s;
    EmptyElements(eligible);
    if |eligible| == 0 {
      return None;
    }
    PrecedenceIsStrictTotal(drafts, s);
    SortArranges(eligible, Precedence(drafts));
    var sorted := Sort(eligible, Precedence(drafts));
    EmptyElements(sorted);
    HeadIsLeast(sorted, s, Precedence(drafts));
    assert sorted[0] in s;
    first := Some(sorted[0]);
    forall j | j in s && j != sorted[0]
      ensures Beats(drafts[sorted[0]], drafts[j]) || (!Beats(drafts[j], drafts[sorted[0]]) && sorted[0] < j)
    {
      assert j in s - {sorted[0]};
      CompareIsLexicographic(drafts[sorted[0]], drafts[j]);
    }
  }

  // ----- rankWithinLane

  ghost function LaneMembers(drafts: seq<Draft>, lane: string): set<nat> {
    set i: nat | i < |drafts| && drafts[i].lane == lane
  }

  /** One more than the number of drafts of the same lane that come before. */
  ghost function RankOf(drafts: seq<Draft>, i: nat): nat
    requires i < |drafts|
  {
    1 + |Before(LaneMembers(drafts, drafts[i].lane), Precedence(drafts), i)|
  }

  method RankWithinLane(drafts: seq<Draft>) returns (ranks: map<nat, nat>)
    ensures forall i: nat :: i in ranks <==> i < |drafts|
    ensures forall i :: i in ranks ==> ranks[i] == RankOf(drafts, i)
  {
    var byLane: map<string, seq<nat>> := map[];
    for i := 0 to |drafts|
      invariant forall lane :: lane in byLane ==> Distinct(byLane[lane])
      invariant forall lane, k :: lane in byLane && 0 <= k < |byLane[lane]| ==>
        byLane[lane][k] < i && drafts[byLane[lane][k]].lane == lane
      invariant forall p :: 0 <= p < i ==> drafts[p].lane in byLane && p in byLane[drafts[p].lane]
    {
      var lane := drafts[i].lane;
      var bucket := if lane in byLane then byLane[lane] else [];
      byLane := byLane[lane := bucket + [i]];
    }
    ranks := map[];
    var todo := byLane.Keys;
    while todo != {}
      invariant todo <= byLane.Keys
      invariant forall i: nat :: i in ranks <==> i < |drafts| && drafts[i].lane !in todo
      invariant forall i :: i in ranks ==> ranks[i] == RankOf(drafts, i)
      decreases |todo|
    {
      var lane :| lane in todo;
      assert Elements(byLane[lane]) == LaneMembers(drafts, lane);
      ranks := RankBucket(drafts, lane, byLane[lane], ranks);
      todo := todo - {lane};
    }
  }

  method RankBucket(drafts: seq<Draft>, lane: string, bucket: seq<nat>, ranks: map<nat, nat>)
        returns (ranks': map<nat, nat>)
    requires Distinct(bucket) && Elements(bucket) == LaneMembers(drafts, lane)
    ensures ranks'.Keys == ranks.Keys + LaneMembers(drafts, lane)
    ensures forall i :: i in LaneMembers(drafts, lane) ==> ranks'[i] == RankOf(drafts, i)
    ensures forall i :: i in ranks && i !in LaneMembers(drafts, lane) ==> ranks'[i] == ranks[i]
  {
    ghost var s, less := LaneMembers(drafts, lane), Precedence(drafts);
    PrecedenceIsStrictTotal(drafts, s);
    SortArranges(bucket, less);
    var sorted := Sort(bucket, Precedence(drafts));
    ranks' := ranks;
    for k := 0 to |sorted|
      invariant ranks'.Keys == ranks.Keys + Elements(sorted[..k])
      invariant forall i :: i in Elements(sorted[..k]) ==> i in s && ranks'[i] == RankOf(drafts, i)
      invariant forall i :: i in ranks && i !in s ==> ranks'[i] == ranks[i]
    {
      PositionCountsBefore(sorted, s, less, k);
      assert sorted[k] in s;
      ranks' := ranks'[sorted[k] := k + 1];
      assert sorted[..k + 1] == sorted[..k] + [sorted[k]];
      SnocElements(sorted[..k], sorted[k]);
    }
    assert sorted[..|sorted|] == sorted;
  }

  lemma SnocElements(xs: seq<nat>, x: nat)
    ensures Elements(xs + [x]) == Elements(xs) + {x}
  {
    var all := xs + [x];
    assert all[|xs|] == x;
    assert forall i :: 0 <= i < |xs| ==> all[i] == xs[i];
    forall y
      ensures y in Elements(all) <==> y in Elements(xs) || y == x
    {
      if y in Elements(xs) {
        var i :| 0 <= i < |xs| && xs[i] == y;
        assert all[i] == y;
      }
    }
  }

  // ----- What the ranks mean

  /** Within a lane the ranks follow the comparator, ties in input order. */
  lemma RankFollowsPrecedence(drafts: seq<Draft>, i: nat, j: nat)
    requires i < |drafts| && j < |drafts| && drafts[i].lane == drafts[j].lane
    ensures RankOf(drafts, i) < RankOf(drafts, j) <==>
      Beats(drafts[i], drafts[j]) || (!Beats(drafts[j], drafts[i]) && i < j)
  {
    CompareIsLexicographic(drafts[i], drafts[j]);
    var s, less := LaneMembers(drafts, drafts[i].lane), Precedence(drafts);
    PrecedenceIsStrictTotal(drafts, s);
    assert i in s && j in s;
    if Precedes(drafts, i, j) {
      FewerBefore(s, less, i, j);
    } else if i != j {
      FewerBefore(s, less, j, i);
    }
  }

  lemma FewerBefore(s: set<nat>, less: Order, a: nat, b: nat)
    requires StrictTotal(less, s) && a in s && b in s && less(a, b)
    ensures |Before(s, less, a)| < |Before(s, less, b)|
  {
    assert Before(s, less, a) + {a} <= Before(s, less, b);
    SubsetCount(Before(s, less, a) + {a}, Before(s, less, b));
  }

  /** A lane laid out in order: the draft at place k has rank k + 1. */
  lemma LaneInOrder(drafts: seq<Draft>, lane: string) returns (sorted: seq<nat>)
    ensures Elements(sorted) == LaneMembers(drafts, lane) && |sorted| == |LaneMembers(drafts, lane)|
    ensures forall k :: 0 <= k < |sorted| ==>
      sorted[k] in LaneMembers(drafts, lane) && RankOf(drafts, sorted[k]) == k + 1
  {
    var s, less := LaneMembers(drafts, lane), Precedence(drafts);
    PrecedenceIsStrictTotal(drafts, s);
    var members := Listed(drafts, lane, |drafts|);
    assert Elements(members) == s;
    SortArranges(members, less);
    sorted := Sort(members, less);
    ArrangedCount(sorted, s, less);
    forall k: nat | k < |sorted|
      ensures sorted[k] in s && RankOf(drafts, sorted[k]) == k + 1
    {
      PositionCountsBefore(sorted, s, less, k);
      assert sorted[k] in s;
    }
  }

  ghost function LaneRanks(drafts: seq<Draft>, lane: string): set<nat> {
    set i | i in LaneMembers(drafts, lane) :: RankOf(drafts, i)
  }

  /** The ranks of a lane are 1..n, and no two drafts of the lane share one. */
  lemma LaneRanksAreABijection(drafts: seq<Draft>, lane: string)
    ensures forall r: nat :: r in LaneRanks(drafts, lane) <==> 1 <= r <= |LaneMembers(drafts, lane)|
    ensures forall i, j :: i in LaneMembers(drafts, lane) && j in LaneMembers(drafts, lane) && i != j ==>
      RankOf(drafts, i) != RankOf(drafts, j)
  {
    var s := LaneMembers(drafts, lane);
    var sorted := LaneInOrder(drafts, lane);
    forall r: nat
      ensures r in LaneRanks(drafts, lane) <==> 1 <= r <= |s|
    {
      if 1 <= r <= |s| {
        assert sorted[r - 1] in s && RankOf(drafts, sorted[r - 1]) == r;
      }
      if r in LaneRanks(drafts, lane) {
        var i :| i in s && RankOf(drafts, i) == r;
        var k :| 0 <= k < |sorted| && sorted[k] == i;
      }
    }
    forall i, j | i in s && j in s && i != j
      ensures RankOf(drafts, i) != RankOf(drafts, j)
    {
      var k :| 0 <= k < |sorted| && sorted[k] == i;
      var l :| 0 <= l < |sorted| && sorted[l] == j;
    }
  }

  ghost function Listed(drafts: seq<Draft>, lane: string, n: nat): (xs: seq<nat>)
    requires n <= |drafts|
    ensures Distinct(xs)
    ensures forall k :: 0 <= k < |xs| ==> xs[k] < n && drafts[xs[k]].lane == lane
    ensures forall p: nat :: p < n && drafts[p].lane == lane ==> p in xs
  {
    if n == 0 then []
    else if drafts[n - 1].lane == lane then Listed(drafts, lane, n - 1) + [n - 1]
    else Listed(drafts, lane, n - 1)
  }

  lemma ArrangedCount(xs: seq<nat>, s: set<nat>, less: Order)
    requires Arranged(xs, s, less) && StrictTotal(less, s)
    ensures |xs| == |s|
  {
    assert Distinct(xs) by {
      forall i, j | 0 <= i < j < |xs|
        ensures xs[i] != xs[j]
      {
        assert less(xs[i], xs[j]) && xs[i] in s;
      }
    }
    DistinctCount(xs);
  }

  /** The first move has the lowest rank of all eligible drafts in its own lane. */
  lemma FirstMoveLeadsItsLane(drafts: seq<Draft>, first: nat, j: nat)
    requires first in EligiblePositions(drafts) && j in EligiblePositions(drafts)
    requires drafts[j].lane == drafts[first].lane
    requires first == j || Beats(drafts[first], drafts[j]) || (!Beats(drafts[j], drafts[first]) && first < j)
    ensures RankOf(drafts, first) <= RankOf(drafts, j)
  {
    if first != j {
      RankFollowsPrecedence(drafts, first, j);
    }
  }
}
