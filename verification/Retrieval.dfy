/**
 Hybrid retrieval on one reachable state of the memory tables: what the two searches can return,
 and hence the order of the fused result.
 */
module Retrieval {
  import opened Options
  import opened Ordering
  import Memory
  import Fusion

  /** The full-text search pairs records with their current versions; a query returns no row twice. */
  ghost predicate FtsResult(s: Memory.State, rows: seq<(nat, nat)>) {
    && (forall i :: 0 <= i < |rows| ==>
          Memory.FtsEligible(s, rows[i].0) && s.records[rows[i].0].current == Some(rows[i].1))
    && (forall i, j :: 0 <= i < j < |rows| ==> rows[i] != rows[j])
  }

  /** The vector search pairs records with embeddings of their current versions. */
  ghost predicate VectorResult(s: Memory.State, rows: seq<(nat, nat)>, model: string) {
    && (forall i :: 0 <= i < |rows| ==> Memory.VectorEligible(s, rows[i].0, rows[i].1, model))
    && (forall i, j :: 0 <= i < j < |rows| ==> rows[i] != rows[j])
  }

  /** On every reachable state both candidate lists are free of repeated ids. */
  lemma CandidateListsAreDistinct(ops: seq<Memory.Op>, fts: seq<(nat, nat)>, vector: seq<(nat, nat)>, model: string)
    requires FtsResult(Memory.After(ops), fts) && VectorResult(Memory.After(ops), vector, model)
    ensures Distinct(Memory.Firsts(fts)) && Distinct(Memory.Firsts(vector))
  {
    Memory.ReachableStatesAreSound(ops);
    Memory.FtsListIsDistinct(Memory.After(ops), fts);
    Memory.VectorListIsDistinct(Memory.After(ops), vector, model);
  }

  /**
   On every reachable state, with at most 61 candidates on each side, a record that both searches
   found stands in the result before any record that only one of them found.
   */
  lemma BothPrecedeOne(ops: seq<Memory.Op>, fts: seq<(nat, nat)>, vector: seq<(nat, nat)>, model: string,
                       r: Fusion.Retrieved, domain: Option<string>, limit: nat, j: nat, a: nat)
    requires FtsResult(Memory.After(ops), fts) && VectorResult(Memory.After(ops), vector, model)
    requires |fts| <= 61 && |vector| <= 61
    requires Fusion.FusedFrom(r.entries, r.rows, Memory.Firsts(fts), Memory.Firsts(vector))
    requires Fusion.IsTop(r.ids, r.entries.Keys, Fusion.Ranking(domain, r.entries, r.rows), limit)
    requires j < |r.ids| && Fusion.InOne(Memory.Firsts(fts), Memory.Firsts(vector), r.ids[j])
    requires Fusion.InBoth(Memory.Firsts(fts), Memory.Firsts(vector), a)
    ensures exists i :: 0 <= i < j && r.ids[i] == a
  {
    CandidateListsAreDistinct(ops, fts, vector, model);
    Fusion.BothPrecedeOneInResult(r.ids, Memory.Firsts(fts), Memory.Firsts(vector), domain, r.entries, r.rows, limit,
      j, a);
  }

  /** Deleted records are in neither list. */
  lemma DeletedIsNeverFound(ops: seq<Memory.Op>, fts: seq<(nat, nat)>, vector: seq<(nat, nat)>, model: string, id: nat)
    requires FtsResult(Memory.After(ops), fts) && VectorResult(Memory.After(ops), vector, model)
    requires id in Memory.Firsts(fts) || id in Memory.Firsts(vector)
    ensures id in Memory.After(ops).records && !Memory.After(ops).records[id].deleted
  {
    Memory.EligibleIffLive(ops, id);
  }

  /** What full-text search returns is the latest version, with the content the record shows. */
  lemma SupersededIsNeverFound(ops: seq<Memory.Op>, fts: seq<(nat, nat)>, i: nat)
    requires FtsResult(Memory.After(ops), fts) && i < |fts|
    ensures Latest(Memory.After(ops), fts[i].0, fts[i].1)
  {
    Memory.ReachableStatesAreSound(ops);
    Memory.CurrentNumberCounts(Memory.After(ops), fts[i].0);
    assert Memory.RecordOk(Memory.After(ops), fts[i].0);
  }

  /** ... and what vector search returns is the one ACTIVE embedding of it. */
  lemma StaleEmbeddingIsNeverFound(ops: seq<Memory.Op>, vector: seq<(nat, nat)>, model: string, i: nat)
    requires VectorResult(Memory.After(ops), vector, model) && i < |vector|
    ensures vector[i].1 in Memory.After(ops).embeddings
    ensures var s := Memory.After(ops); var v := s.embeddings[vector[i].1].version;
      Latest(s, vector[i].0, v) && Memory.ActiveOf(s, v) == {vector[i].1}
  {
    var s := Memory.After(ops);
    var e := vector[i].1;
    Memory.ReachableStatesAreSound(ops);
    assert Memory.VectorEligible(s, vector[i].0, e, model);
    Memory.CurrentNumberCounts(s, vector[i].0);
    assert Memory.RecordOk(s, vector[i].0);
    Memory.ExactlyOneActive(s, e);
    assert e in Memory.ActiveOf(s, s.embeddings[e].version);
  }

  ghost predicate Latest(s: Memory.State, r: nat, v: nat) {
    && r in s.records && v in s.versions && s.versions[v].record == r
    && s.versions[v].number == |Memory.VersionsOf(s, r)| && s.versions[v].content == s.records[r].content
  }
}
