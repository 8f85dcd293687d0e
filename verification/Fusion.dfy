/**
 Hybrid memory retrieval (src/elora/memory/retrieveHybridMemory.ts): reciprocal rank fusion of
 the full-text and the vector candidate lists, and the final ordering.

 Record ids are naturals: canonical UUID texts compare like the numbers they write. Scores are
 reals. The two searches are given by the rows they find, best first.
 */
module Fusion {
  import opened Options
  import opened Ordering

  const RRF_K := 60

  datatype Source = Fts | Vector

  datatype Entry = Entry(score: real, ftsRank: Option<nat>, vectorRank: Option<nat>, sources: seq<Source>)

  const BLANK := Entry(0.0, None, None, [])

  function Weight(rank: nat): (w: real)
    ensures w > 0.0
  {
    1.0 / (RRF_K + rank) as real
  }

  // ----- What fusion means

  /** Total weight of the occurrences of `id` among the first n ids of a list; ranks start at 1. */
  ghost function Total(ids: seq<nat>, id: nat, n: nat): real
    requires n <= |ids|
  {
    if n == 0 then 0.0 else Total(ids, id, n - 1) + (if ids[n - 1] == id then Weight(n) else 0.0)
  }

  /** Rank of the last occurrence of `id` among the first n. */
  ghost function LastRank(ids: seq<nat>, id: nat, n: nat): (rank: Option<nat>)
    requires n <= |ids|
    ensures rank.Some? <==> id in ids[..n]
    ensures rank.Some? ==> 1 <= rank.value <= n && ids[rank.value - 1] == id
  {
    if n == 0 then None
    else if ids[n - 1] == id then Some(n)
    else LastRank(ids, id, n - 1)
  }

  ghost function Score(fts: seq<nat>, vector: seq<nat>, id: nat): real {
    Total(fts, id, |fts|) + Total(vector, id, |vector|)
  }

  lemma {:induction false} TotalOfDistinct(ids: seq<nat>, id: nat, n: nat)
    requires Distinct(ids) && n <= |ids|
    ensures Total(ids, id, n) == match LastRank(ids, id, n) case None => 0.0 case Some(r) => Weight(r)
  {
    if n > 0 {
      TotalOfDistinct(ids, id, n - 1);
    }
  }

  ghost function Tags(ids: seq<nat>, id: nat, n: nat, source: Source): seq<Source>
    requires n <= |ids|
  {
    if n == 0 then [] else Tags(ids, id, n - 1, source) + (if ids[n - 1] == id then [source] else [])
  }

  /** The entry of `id` after n full-text and m vector candidates. */
  ghost function Tally(fts: seq<nat>, n: nat, vector: seq<nat>, m: nat, id: nat): Entry
    requires n <= |fts| && m <= |vector|
  {
    Entry(Total(fts, id, n) + Total(vector, id, m), LastRank(fts, id, n), LastRank(vector, id, m),
      Tags(fts, id, n, Fts) + Tags(vector, id, m, Vector))
  }

  function Noted(keys: seq<nat>, id: nat): seq<nat> {
    if id in keys then keys else keys + [id]
  }

  /**
   The ids of n full-text and m vector candidates in order of first appearance: how a JavaScript Map
   lists its keys.
   */
  ghost function FirstSeen(fts: seq<nat>, n: nat, vector: seq<nat>, m: nat): seq<nat>
    requires n <= |fts| && m <= |vector|
    decreases n + m
  {
    if m > 0 then
      Noted(FirstSeen(fts, n, vector, m - 1), vector[m - 1])
    else if n > 0 then
      Noted(FirstSeen(fts, n - 1, vector, 0), fts[n - 1])
    else []
  }

  // ----- fuseRankings

  /** The map entry with one more occurrence counted in. */
  function Bump(e: Entry, source: Source, rank: nat): Entry {
    var e' := e.(score := e.score + Weight(rank), sources := e.sources + [source]);
    match source case Fts => e'.(ftsRank := Some(rank)) case Vector => e'.(vectorRank := Some(rank))
  }

  ghost predicate Fused(entries: map<nat, Entry>, keys: seq<nat>, fts: seq<nat>, n: nat, vector: seq<nat>, m: nat)
    requires n <= |fts| && m <= |vector|
  {
    && Distinct(keys)
    && (forall id :: id in keys <==> id in entries)
    && Tallied(entries, fts, n, vector, m)
  }

  ghost predicate Tallied(entries: map<nat, Entry>, fts: seq<nat>, n: nat, vector: seq<nat>, m: nat)
    requires n <= |fts| && m <= |vector|
  {
    && (forall id :: id in entries <==> id in fts[..n] || id in vector[..m])
    && (forall id :: id in entries ==> entries[id] == Tally(fts, n, vector, m, id))
  }

  lemma {:induction false} AbsentTally(ids: seq<nat>, id: nat, n: nat, source: Source)
    requires n <= |ids| && id !in ids[..n]
    ensures Total(ids, id, n) == 0.0 && LastRank(ids, id, n) == None && Tags(ids, id, n, source) == []
  {
    if n > 0 {
      assert ids[..n][n - 1] == ids[n - 1];
      assert forall i :: 0 <= i < n - 1 ==> ids[..n - 1][i] == ids[..n][i];
      AbsentTally(ids, id, n - 1, source);
    }
  }

  /** One callback of either `forEach`: look up or create the entry, then count the occurrence. */
  method Count(entries: map<nat, Entry>, keys: seq<nat>, id: nat, source: Source, rank: nat)
      returns (entries': map<nat, Entry>, keys': seq<nat>)
    requires Distinct(keys) && forall k :: k in keys <==> k in entries
    ensures entries' == entries[id := Bump(if id in entries then entries[id] else BLANK, source, rank)]
    ensures keys' == Noted(keys, id)
    ensures Distinct(keys') && forall k :: k in keys' <==> k in entries'
  {
    entries', keys' := entries, keys;
    if id !in entries {
      entries', keys' := entries[id := BLANK], keys + [id];
    }
    entries' := entries'[id := Bump(entries'[id], source, rank)];
  }

  lemma SnocMember(ids: seq<nat>, n: nat)
    requires n < |ids|
    ensures forall id :: id in ids[..n + 1] <==> id in ids[..n] || id == ids[n]
  {
    assert ids[..n + 1] == ids[..n] + [ids[n]];
  }

  lemma TallyFts(fts: seq<nat>, n: nat, vector: seq<nat>, id: nat)
    requires n < |fts|
    ensures Tally(fts, n + 1, vector, 0, id) == if fts[n] == id then Bump(Tally(fts, n, vector, 0, id), Fts, n + 1)
      else Tally(fts, n, vector, 0, id)
    ensures id !in fts[..n] ==> Tally(fts, n, vector, 0, id) == BLANK
  {
    if id !in fts[..n] {
      AbsentTally(fts, id, n, Fts);
    }
  }

  lemma TallyVector(fts: seq<nat>, vector: seq<nat>, m: nat, id: nat)
    requires m < |vector|
    ensures Tally(fts, |fts|, vector, m + 1, id)
         == if vector[m] == id then Bump(Tally(fts, |fts|, vector, m, id), Vector, m + 1)
           else Tally(fts, |fts|, vector, m, id)
    ensures id !in fts[..|fts|] && id !in vector[..m] ==> Tally(fts, |fts|, vector, m, id) == BLANK
  {
    if id !in fts[..|fts|] && id !in vector[..m] {
      AbsentTally(fts, id, |fts|, Fts);
      AbsentTally(vector, id, m, Vector);
    }
  }

  lemma FusedInFull(entries: map<nat, Entry>, keys: seq<nat>, fts: seq<nat>, vector: seq<nat>)
    requires Fused(entries, keys, fts, |fts|, vector, |vector|)
    ensures Elements(keys) == entries.Keys == Elements(fts) + Elements(vector)
  {
    assert fts[..|fts|] == fts && vector[..|vector|] == vector;
  }

  lemma TalliedFts(entries: map<nat, Entry>, fts: seq<nat>, n: nat, vector: seq<nat>)
    requires n < |fts| && Tallied(entries, fts, n, vector, 0)
    ensures Tallied(entries[fts[n] := Bump(if fts[n] in entries then entries[fts[n]] else BLANK, Fts, n + 1)], fts,
      n + 1, vector, 0)
  {
    var entries' := entries[fts[n] := Bump(if fts[n] in entries then entries[fts[n]] else BLANK, Fts, n + 1)];
    SnocMember(fts, n);
    forall id | id in entries'
      ensures entries'[id] == Tally(fts, n + 1, vector, 0, id)
    {
      TallyFts(fts, n, vector, id);
    }
  }

  lemma TalliedVector(entries: map<nat, Entry>, fts: seq<nat>, vector: seq<nat>, m: nat)
    requires m < |vector| && Tallied(entries, fts, |fts|, vector, m)
    ensures Tallied(entries[vector[m] := Bump(if vector[m] in entries then entries[vector[m]]
      else BLANK, Vector, m + 1)], fts, |fts|, vector, m + 1)
  {
    var entries' := entries[vector[m] := Bump(if vector[m] in entries then entries[vector[m]]
      else BLANK, Vector, m + 1)];
    SnocMember(vector, m);
    forall id | id in entries'
      ensures entries'[id] == Tally(fts, |fts|, vector, m + 1, id)
    {
      TallyVector(fts, vector, m, id);
    }
  }

  /**
   Exactly the union of the two lists, no id twice, in order of first appearance, each with the sum
   over its occurrences.
   */
  method FuseRankings(fts: seq<nat>, vector: seq<nat>) returns (entries: map<nat, Entry>, keys: seq<nat>)
    ensures Distinct(keys) && Elements(keys) == entries.Keys == Elements(fts) + Elements(vector)
    ensures keys == FirstSeen(fts, |fts|, vector, |vector|)
    ensures forall id :: id in entries ==> entries[id] == Tally(fts, |fts|, vector, |vector|, id)
  {
    entries, keys := map[], [];
    for n := 0 to |fts|
      invariant Fused(entries, keys, fts, n, vector, 0)
      invariant keys == FirstSeen(fts, n, vector, 0)
    {
      TalliedFts(entries, fts, n, vector);
      entries, keys := Count(entries, keys, fts[n], Fts, n + 1);
    }
    for m := 0 to |vector|
      invariant Fused(entries, keys, fts, |fts|, vector, m)
      invariant keys == FirstSeen(fts, |fts|, vector, m)
    {
      TalliedVector(entries, fts, vector, m);
      entries, keys := Count(entries, keys, vector[m], Vector, m + 1);
    }
    FusedInFull(entries, keys, fts, vector);
  }

  // ----- The guarantee behind k = 60

  /** `a` was found by both searches. */
  ghost predicate InBoth(fts: seq<nat>, vector: seq<nat>, a: nat) { a in fts && a in vector }

  ghost predicate InOne(fts: seq<nat>, vector: seq<nat>, b: nat) { b in fts <==> b !in vector }

  ghost predicate Lists(fts: seq<nat>, vector: seq<nat>, limit: nat) {
    Distinct(fts) && Distinct(vector) && |fts| <= limit && |vector| <= limit
  }

  lemma WeightFalls(r: nat, s: nat)
    requires r <= s
    ensures Weight(r) >= Weight(s)
  {
    Reciprocals((RRF_K + r) as real, (RRF_K + s) as real);
  }

  lemma Reciprocals(x: real, y: real)
    requires 0.0 < x <= y
    ensures 1.0 / x >= 1.0 / y
  {
    assert 1.0 / x - 1.0 / y == (y - x) * (1.0 / x) * (1.0 / y) by {
      assert (1.0 / x) * x == 1.0 && (1.0 / y) * y == 1.0;
    }
  }

  lemma ScoreOf(fts: seq<nat>, vector: seq<nat>, id: nat)
    requires Distinct(fts) && Distinct(vector)
    ensures Score(fts, vector, id)
         == (match LastRank(fts, id, |fts|) case None => 0.0 case Some(r) => Weight(r))
          + (match LastRank(vector, id, |vector|) case None => 0.0 case Some(r) => Weight(r))
    ensures LastRank(fts, id, |fts|).Some? <==> id in fts
    ensures LastRank(vector, id, |vector|).Some? <==> id in vector
  {
    TotalOfDistinct(fts, id, |fts|);
    TotalOfDistinct(vector, id, |vector|);
    assert fts[..|fts|] == fts && vector[..|vector|] == vector;
  }

  /**
   For lists without repetition the entry says where the id stands in either list, adds up
   1/(60 + rank) over the lists that have it, and names those lists, full-text first.
   */
  lemma EntryOf(fts: seq<nat>, vector: seq<nat>, id: nat)
    requires Distinct(fts) && Distinct(vector)
    ensures var e := Tally(fts, |fts|, vector, |vector|, id);
      && RanksAs(fts, id, e.ftsRank) && RanksAs(vector, id, e.vectorRank)
      && e.score == Share(e.ftsRank) + Share(e.vectorRank)
      && e.sources == (if id in fts then [Fts] else []) + (if id in vector then [Vector] else [])
  {
    ScoreOf(fts, vector, id);
    TagsOfDistinct(fts, id, |fts|, Fts);
    TagsOfDistinct(vector, id, |vector|, Vector);
    assert fts[..|fts|] == fts && vector[..|vector|] == vector;
  }

  ghost predicate RanksAs(ids: seq<nat>, id: nat, rank: Option<nat>) {
    && (rank.None? <==> id !in ids)
    && (rank.Some? ==> 1 <= rank.value <= |ids| && ids[rank.value - 1] == id)
  }

  ghost function Share(rank: Option<nat>): real {
    if rank.Some? then 1.0 / (60 + rank.value) as real else 0.0
  }

  lemma {:induction false} TagsOfDistinct(ids: seq<nat>, id: nat, n: nat, source: Source)
    requires Distinct(ids) && n <= |ids|
    ensures Tags(ids, id, n, source) == if id in ids[..n] then [source] else []
  {
    if n > 0 {
      TagsOfDistinct(ids, id, n - 1, source);
      assert ids[..n] == ids[..n - 1] + [ids[n - 1]];
    }
  }

  /** The first of the two has come up when the second has not yet. */
  ghost predicate ComesUpFirst(all: seq<nat>, a: nat, b: nat) {
    exists p :: 0 <= p < |all| && all[p] == a && b !in all[..p + 1]
  }

  /** Order of first appearance: full-text list first, then the vector list. */
  lemma {:induction false} FirstSeenInOrder(fts: seq<nat>, n: nat, vector: seq<nat>, m: nat, i: nat, j: nat)
    requires n <= |fts| && m <= |vector| && i < j < |FirstSeen(fts, n, vector, m)|
    ensures ComesUpFirst(fts[..n] + vector[..m], FirstSeen(fts, n, vector, m)[i], FirstSeen(fts, n, vector, m)[j])
    decreases n + m
  {
    var all, keys := fts[..n] + vector[..m], FirstSeen(fts, n, vector, m);
    SeenAreThere(fts, n, vector, m);
    var front := if m > 0 then fts[..n] + vector[..m - 1] else fts[..n - 1];
    var last := if m > 0 then vector[m - 1] else fts[n - 1];
    var before := if m > 0 then FirstSeen(fts, n, vector, m - 1) else FirstSeen(fts, n - 1, vector, 0);
    assert front + [last] == all;
    if m > 0 {
      SeenAreThere(fts, n, vector, m - 1);
    } else {
      SeenAreThere(fts, n - 1, vector, 0);
      assert fts[..n - 1] + vector[..0] == front;
    }
    if j < |before| {
      if m > 0 {
        FirstSeenInOrder(fts, n, vector, m - 1, i, j);
      } else {
        FirstSeenInOrder(fts, n - 1, vector, 0, i, j);
      }
      LongerList(front, last, before[i], before[j]);
    } else {
      assert keys == before + [last] && keys[i] in before;
      var p :| 0 <= p < |front| && front[p] == keys[i];
      assert all[p] == keys[i] && all[..p + 1] == front[..p + 1];
    }
  }

  lemma LongerList(front: seq<nat>, last: nat, a: nat, b: nat)
    requires ComesUpFirst(front, a, b)
    ensures ComesUpFirst(front + [last], a, b)
  {
    var p :| 0 <= p < |front| && front[p] == a && b !in front[..p + 1];
    assert (front + [last])[p] == a && (front + [last])[..p + 1] == front[..p + 1];
  }

  lemma {:induction false} SeenAreThere(fts: seq<nat>, n: nat, vector: seq<nat>, m: nat)
    requires n <= |fts| && m <= |vector|
    ensures forall id :: id in FirstSeen(fts, n, vector, m) <==> id in fts[..n] + vector[..m]
    decreases n + m
  {
    if m > 0 {
      SeenAreThere(fts, n, vector, m - 1);
      assert fts[..n] + vector[..m] == fts[..n] + vector[..m - 1] + [vector[m - 1]];
    } else if n > 0 {
      SeenAreThere(fts, n - 1, vector, 0);
      assert fts[..n] + vector[..0] == fts[..n - 1] + vector[..0] + [fts[n - 1]];
    }
  }

  lemma BothBeatsOne(fts: seq<nat>, vector: seq<nat>, a: nat, b: nat)
    requires Lists(fts, vector, 61) && InBoth(fts, vector, a) && InOne(fts, vector, b)
    ensures Score(fts, vector, a) > Score(fts, vector, b)
  {
    ScoreOf(fts, vector, a);
    ScoreOf(fts, vector, b);
    WeightFalls(LastRank(fts, a, |fts|).value, 61);
    WeightFalls(LastRank(vector, a, |vector|).value, 61);
    assert Weight(61) + Weight(61) > Weight(1);
    if b in fts {
      WeightFalls(1, LastRank(fts, b, |fts|).value);
    } else {
      WeightFalls(1, LastRank(vector, b, |vector|).value);
    }
  }

  // ----- The final ordering

  datatype Row = Row(id: nat, scope: Option<string>, versionCreatedAt: int)

  /** An absent or empty requested domain matches nothing. */
  predicate DomainMatches(domain: Option<string>, row: Row) {
    domain.Some? && domain.value != "" && row.scope == domain
  }

  /** Does the comparator put entry e of row r before entry f of row s? */
  predicate Ahead(domain: Option<string>, e: Entry, r: Row, f: Entry, s: Row) {
    if f.score != e.score then f.score < e.score
    else if DomainMatches(domain, s) != DomainMatches(domain, r) then DomainMatches(domain, r)
    else if r.versionCreatedAt != s.versionCreatedAt then s.versionCreatedAt < r.versionCreatedAt
    else r.id < s.id
  }

  function Ranking(domain: Option<string>, entries: map<nat, Entry>, rows: map<nat, Row>): Order {
    (a: nat, b: nat) =>
      a in entries && b in entries && a in rows && b in rows && Ahead(domain, entries[a], rows[a], entries[b], rows[b])
  }

  ghost predicate Keyed(rows: map<nat, Row>) {
    forall id :: id in rows ==> rows[id].id == id
  }

  lemma RankingIsStrictTotal(domain: Option<string>, entries: map<nat, Entry>, rows: map<nat, Row>, s: set<nat>)
    requires Keyed(rows) && s <= entries.Keys && s <= rows.Keys
    ensures StrictTotal(Ranking(domain, entries, rows), s)
  {
    var less := Ranking(domain, entries, rows);
    forall a, b, c | a in s && b in s && c in s
      ensures !less(a, a)
      ensures a != b ==> less(a, b) || less(b, a)
      ensures less(a, b) && less(b, c) ==> less(a, c)
    {
      assert rows[a].id == a && rows[b].id == b && rows[c].id == c;
    }
  }

  /** The higher score; then the row of the requested domain; then the later version; then the smaller id. */
  lemma AheadIff(domain: Option<string>, e: Entry, r: Row, f: Entry, s: Row)
    ensures Ahead(domain, e, r, f, s) <==>
      || e.score > f.score
      || (e.score == f.score && InDomain(domain, r) && !InDomain(domain, s))
      || (e.score == f.score && (InDomain(domain, r) <==> InDomain(domain, s))
        && (r.versionCreatedAt > s.versionCreatedAt
          || (r.versionCreatedAt == s.versionCreatedAt && r.id < s.id)))
  {
  }

  ghost predicate InDomain(domain: Option<string>, row: Row) {
    domain.Some? && |domain.value| > 0 && row.scope.Some? && row.scope.value == domain.value
  }

  /** `top` holds the best `limit` members of `s`, best first. */
  ghost predicate IsTop(top: seq<nat>, s: set<nat>, less: Order, limit: nat) {
    && |top| == (if limit < |s| then limit else |s|)
    && Elements(top) <= s
    && (forall i, j :: 0 <= i < j < |top| ==> less(top[i], top[j]))
    && (forall i, y :: 0 <= i < |top| && y in s - Elements(top) ==> less(top[i], y))
  }

  lemma PrefixIsTop(xs: seq<nat>, s: set<nat>, less: Order, limit: nat)
    requires Arranged(xs, s, less) && StrictTotal(less, s)
    ensures IsTop(xs[..if limit < |xs| then limit else |xs|], s, less, limit)
  {
    assert Distinct(xs) by {
      assert forall i :: 0 <= i < |xs| ==> xs[i] in s;
    }
    DistinctCount(xs);
    var top := xs[..if limit < |xs| then limit else |xs|];
    assert forall i :: 0 <= i < |top| ==> top[i] == xs[i] && xs[i] in s;
    forall i, y | 0 <= i < |top| && y in s - Elements(top)
      ensures less(top[i], y)
    {
      var k :| 0 <= k < |xs| && xs[k] == y;
      assert forall i :: 0 <= i < |top| ==> top[i] in Elements(top);
    }
  }

  /** A strict total order leaves only one possible result. */
  lemma TopIsUnique(xs: seq<nat>, ys: seq<nat>, s: set<nat>, less: Order, limit: nat)
    requires IsTop(xs, s, less, limit) && IsTop(ys, s, less, limit) && StrictTotal(less, s)
    ensures xs == ys
  {
    forall k: nat | k < |xs|
      ensures xs[k] == ys[k]
    {
      TopAgrees(xs, ys, s, less, limit, k);
    }
  }

  lemma {:induction false} TopAgrees(xs: seq<nat>, ys: seq<nat>, s: set<nat>, less: Order, limit: nat, k: nat)
    requires IsTop(xs, s, less, limit) && IsTop(ys, s, less, limit) && StrictTotal(less, s) && k < |xs|
    ensures xs[..k + 1] == ys[..k + 1]
  {
    if k > 0 {
      TopAgrees(xs, ys, s, less, limit, k - 1);
      assert forall i :: 0 <= i < k ==> xs[i] == xs[..k][i] == ys[..k][i] == ys[i];
    }
    assert xs[k] in Elements(xs) && ys[k] in Elements(ys);
    NotBehind(xs, ys, s, less, limit, k);
    NotBehind(ys, xs, s, less, limit, k);
  }

  lemma NotBehind(xs: seq<nat>, ys: seq<nat>, s: set<nat>, less: Order, limit: nat, k: nat)
    requires IsTop(xs, s, less, limit) && IsTop(ys, s, less, limit) && StrictTotal(less, s) && k < |xs|
    requires forall i :: 0 <= i < k ==> xs[i] == ys[i]
    requires xs[k] in s && ys[k] in s
    ensures xs[k] == ys[k] || less(xs[k], ys[k])
  {
    if ys[k] in Elements(xs) {
      var j :| 0 <= j < |xs| && xs[j] == ys[k];
      assert xs[j] == ys[k] && !less(ys[k], ys[k]);
    } else {
      assert ys[k] in s - Elements(xs);
    }
  }

  // ----- retrieveHybridMemory

  const DEFAULT_LIMIT := 5
  const MAX_CANDIDATE_LIMIT := 100

  datatype LimitError = LimitNotPositive | CandidateLimitBelowLimit | CandidateLimitTooLarge

  function DefaultCandidateLimit(limit: int): int {
    if limit * 4 < 20 then 20 else limit * 4
  }

  function Limits(limit: Option<int>, candidateLimit: Option<int>): (r: Result<(nat, nat), LimitError>)
    ensures r.Ok? ==> 1 <= r.value.0 <= r.value.1 <= MAX_CANDIDATE_LIMIT
  {
    var l := if limit.Some? then limit.value else DEFAULT_LIMIT;
    var c := if candidateLimit.Some? then candidateLimit.value else DefaultCandidateLimit(l);
    if l <= 0 then Err(LimitNotPositive)
    else if c < l then Err(CandidateLimitBelowLimit)
    else if c > MAX_CANDIDATE_LIMIT then Err(CandidateLimitTooLarge)
    else Ok((l, c))
  }

  /** Without a candidate limit exactly the limits 1 to 25 are accepted, and nothing given means 5 of 20. */
  lemma DefaultLimitsIff(limit: int)
    ensures Limits(Some(limit), None).Ok? <==> 1 <= limit <= 25
    ensures Limits(Some(limit), None).Ok? ==>
      Limits(Some(limit), None).value.1 >= 20 && Limits(Some(limit), None).value.1 >= 4 * limit
    ensures Limits(None, None) == Ok((5, 20))
  {
  }

  /** Both limits are the ones given; only an absent one is replaced. */
  lemma LimitsIff(limit: Option<int>, candidateLimit: Option<int>)
    ensures var l := if limit == None then 5 else limit.value;
      var c := if candidateLimit.Some? then candidateLimit.value else if l <= 5 then 20 else 4 * l;
      && (Limits(limit, candidateLimit).Ok? <==> 1 <= l <= c <= 100)
      && (1 <= l <= c <= 100 ==> Limits(limit, candidateLimit) == Ok((l, c)))
      && (Limits(limit, candidateLimit) == Err(LimitNotPositive) <==> l < 1)
      && (Limits(limit, candidateLimit) == Err(CandidateLimitBelowLimit) <==> 1 <= l && c < l)
  {
  }

  /** The first rows, as many as there are up to the limit. */
  function Take(rows: seq<Row>, limit: nat): (taken: seq<Row>)
    ensures taken <= rows && |taken| <= limit
    ensures |taken| < limit ==> taken == rows
  {
    if |rows| <= limit then rows else rows[..limit]
  }

  function Ids(rows: seq<Row>): (ids: seq<nat>)
    ensures |ids| == |rows| && forall i :: 0 <= i < |rows| ==> ids[i] == rows[i].id
  {
    seq(|rows|, i requires 0 <= i < |rows| => rows[i].id)
  }

  /** Full-text rows first; a vector row only where there is none. */
  method RowsById(fts: seq<Row>, vector: seq<Row>) returns (rows: map<nat, Row>)
    ensures Keyed(rows) && rows.Keys == Elements(Ids(fts)) + Elements(Ids(vector))
    ensures forall id :: id in rows ==> rows[id] in (if id in Ids(fts) then fts else vector)
  {
    rows := map[];
    for i := 0 to |fts|
      invariant Keyed(rows)
      invariant forall id :: id in rows ==> rows[id] in fts && id in Ids(fts)
      invariant forall j :: 0 <= j < i ==> fts[j].id in rows
    {
      assert Ids(fts)[i] == fts[i].id;
      rows := rows[fts[i].id := fts[i]];
    }
    assert forall id :: id in Ids(fts) ==> id in rows;
    ghost var ftsRows := rows;
    for i := 0 to |vector|
      invariant Keyed(rows)
      invariant forall id :: id in ftsRows ==> id in rows && rows[id] == ftsRows[id]
      invariant forall id :: id in rows && id !in ftsRows ==> rows[id] in vector && id in Ids(vector)
      invariant forall j :: 0 <= j < i ==> vector[j].id in rows
    {
      assert Ids(vector)[i] == vector[i].id;
      if vector[i].id !in rows {
        rows := rows[vector[i].id := vector[i]];
      }
    }
    assert forall id :: id in Ids(vector) ==> id in rows;
  }

  /** The fused entries and their rows, as the retrieval builds them. */
  ghost predicate FusedFrom(entries: map<nat, Entry>, rows: map<nat, Row>, fts: seq<nat>, vector: seq<nat>) {
    && entries.Keys == rows.Keys == Elements(fts) + Elements(vector)
    && Keyed(rows)
    && (forall id :: id in entries ==> entries[id] == Tally(fts, |fts|, vector, |vector|, id))
  }

  datatype Retrieved = Retrieved(ids: seq<nat>, entries: map<nat, Entry>, rows: map<nat, Row>)

  /** The whole retrieval; a failed query embedding is a vector search that found nothing. */
  method RetrieveHybridMemory(limit: Option<int>, candidateLimit: Option<int>, domain: Option<string>,
        ftsMatches: seq<Row>, vectorMatches: Option<seq<Row>>)
      returns (result: Result<Retrieved, LimitError>)
    ensures result.Err? <==> Limits(limit, candidateLimit).Err?
    ensures result.Err? ==> result.error == Limits(limit, candidateLimit).error
    ensures result.Ok? ==>
      var (l, c) := Limits(limit, candidateLimit).value;
      var fts, vector := Ids(Take(ftsMatches, c)),
        Ids(Take(if vectorMatches.Some? then vectorMatches.value else [], c));
      var Retrieved(ids, entries, rows) := result.value;
      && FusedFrom(entries, rows, fts, vector)
      && StrictTotal(Ranking(domain, entries, rows), entries.Keys)
      && IsTop(ids, entries.Keys, Ranking(domain, entries, rows), l)
  {
    var limits := Limits(limit, candidateLimit);
    if limits.Err? {
      return Err(limits.error);
    }
    var (l, c) := limits.value;
    var fts := Take(ftsMatches, c);
    var vector := Take(if vectorMatches.Some? then vectorMatches.value else [], c);
    var rows := RowsById(fts, vector);
    var entries, keys := FuseRankings(Ids(fts), Ids(vector));
    RankingIsStrictTotal(domain, entries, rows, entries.Keys);
    SortArranges(keys, Ranking(domain, entries, rows));
    var ranked := Sort(keys, Ranking(domain, entries, rows));
    PrefixIsTop(ranked, entries.Keys, Ranking(domain, entries, rows), l);
    var top := ranked[..if l < |ranked| then l else |ranked|];
    result := Ok(Retrieved(top, entries, rows));
  }

  // ----- Both lists before one list, exactly up to a candidate limit of 61

  /** Whatever the rows say, records of both lists come before records of one list. */
  ghost predicate BothFirst(fts: seq<nat>, vector: seq<nat>) {
    forall domain, entries, rows, a, b ::
      && FusedFrom(entries, rows, fts, vector)
      && InBoth(fts, vector, a) && InOne(fts, vector, b)
      ==> Ranking(domain, entries, rows)(a, b)
  }

  lemma BothAhead(domain: Option<string>, entries: map<nat, Entry>, rows: map<nat, Row>, fts: seq<nat>,
        vector: seq<nat>, a: nat, b: nat)
    requires Lists(fts, vector, 61) && FusedFrom(entries, rows, fts, vector) && InBoth(fts, vector, a)
    requires InOne(fts, vector, b)
    ensures Ranking(domain, entries, rows)(a, b) && !Ranking(domain, entries, rows)(b, a)
    ensures a in entries && b in entries && a != b
  {
    BothBeatsOne(fts, vector, a, b);
    assert a in Elements(fts) && b in Elements(fts) + Elements(vector);
    ScoreOrders(domain, entries, rows, a, b);
  }

  lemma BothFirstUpTo61(fts: seq<nat>, vector: seq<nat>)
    requires Lists(fts, vector, 61)
    ensures BothFirst(fts, vector)
  {
    forall domain, entries, rows, a, b | FusedFrom(entries, rows, fts, vector) && InBoth(fts, vector, a)
      && InOne(fts, vector, b)
      ensures Ranking(domain, entries, rows)(a, b)
    {
      BothAhead(domain, entries, rows, fts, vector, a, b);
    }
  }

  lemma RankInDistinct(ids: seq<nat>, k: nat)
    requires Distinct(ids) && k < |ids|
    ensures LastRank(ids, ids[k], |ids|) == Some(k + 1)
  {
    assert ids[..|ids|] == ids;
  }

  /** Rank 62 twice ties with rank 1 once: 2/122 == 1/61. */
  lemma ScoresTie(fts: seq<nat>, vector: seq<nat>, a: nat, b: nat)
    requires Distinct(fts) && Distinct(vector) && |fts| >= 62 && |vector| >= 62
    requires fts[61] == vector[61] == a && fts[0] == b && b !in vector
    ensures Score(fts, vector, a) == Score(fts, vector, b)
  {
    ScoreOf(fts, vector, a);
    ScoreOf(fts, vector, b);
    RankInDistinct(fts, 61);
    RankInDistinct(vector, 61);
    RankInDistinct(fts, 0);
    assert Weight(62) + Weight(62) == Weight(1);
  }

  /** After the tie, the smaller id of a one-list record goes first. */
  lemma TieBreaksBothFirst(fts: seq<nat>, vector: seq<nat>, a: nat, b: nat)
    requires InBoth(fts, vector, a) && InOne(fts, vector, b) && Score(fts, vector, a) == Score(fts, vector, b) && b < a
    ensures !BothFirst(fts, vector)
  {
    var ids := Elements(fts) + Elements(vector);
    var entries := map id | id in ids :: Tally(fts, |fts|, vector, |vector|, id);
    var rows := map id | id in ids :: Row(id, None, 0);
    assert a in ids && b in ids;
    assert entries[a].score == entries[b].score;
    assert FusedFrom(entries, rows, fts, vector);
    assert !Ranking(None, entries, rows)(a, b);
  }

  lemma TieAtRank62() returns (fts: seq<nat>, vector: seq<nat>)
    ensures Lists(fts, vector, 62) && !BothFirst(fts, vector)
  {
    fts, vector := seq(62, (i: nat) => i), seq(62, (i: nat) => if i == 61 then 61 else 100 + i);
    assert fts[0] == 0 && fts[61] == 61 && vector[61] == 61;
    ScoresTie(fts, vector, 61, 0);
    TieBreaksBothFirst(fts, vector, 61, 0);
  }

  lemma BothFirstIff(candidateLimit: nat)
    ensures (forall fts, vector :: Lists(fts, vector, candidateLimit) ==> BothFirst(fts, vector)) <==>
      candidateLimit <= 61
  {
    if candidateLimit <= 61 {
      forall fts, vector | Lists(fts, vector, candidateLimit)
        ensures BothFirst(fts, vector)
      {
        BothFirstUpTo61(fts, vector);
      }
    } else {
      var fts, vector := TieAtRank62();
      assert Lists(fts, vector, candidateLimit);
    }
  }

  /** With the default candidate limit the guarantee holds for limits up to 15 and no further. */
  lemma BothFirstByDefaultIff(limit: int)
    requires Limits(Some(limit), None).Ok?
    ensures (forall fts, vector :: Lists(fts, vector, Limits(Some(limit), None).value.1) ==>
      BothFirst(fts, vector)) <==> limit <= 15
  {
    BothFirstIff(Limits(Some(limit), None).value.1);
  }

  lemma ScoreOrders(domain: Option<string>, entries: map<nat, Entry>, rows: map<nat, Row>, a: nat, b: nat)
    requires a in entries && b in entries && a in rows && b in rows && entries[a].score > entries[b].score
    ensures Ranking(domain, entries, rows)(a, b) && !Ranking(domain, entries, rows)(b, a)
  {
  }

  lemma AheadInTop(ids: seq<nat>, s: set<nat>, less: Order, limit: nat, j: nat, a: nat)
    requires IsTop(ids, s, less, limit) && j < |ids| && a in s && ids[j] != a && !less(ids[j], a)
    ensures exists i :: 0 <= i < j && ids[i] == a
  {
    assert a !in s - Elements(ids);
    var i :| 0 <= i < |ids| && ids[i] == a;
  }

  /** In the result: a one-list record at position j has every two-list record before it. */
  lemma BothPrecedeOneInResult(ids: seq<nat>, fts: seq<nat>, vector: seq<nat>, domain: Option<string>,
        entries: map<nat, Entry>, rows: map<nat, Row>, limit: nat, j: nat, a: nat)
    requires Lists(fts, vector, 61)
    requires FusedFrom(entries, rows, fts, vector)
    requires IsTop(ids, entries.Keys, Ranking(domain, entries, rows), limit)
    requires j < |ids| && InOne(fts, vector, ids[j]) && InBoth(fts, vector, a)
    ensures exists i :: 0 <= i < j && ids[i] == a
  {
    BothAhead(domain, entries, rows, fts, vector, a, ids[j]);
    AheadInTop(ids, entries.Keys, Ranking(domain, entries, rows), limit, j, a);
  }
}
