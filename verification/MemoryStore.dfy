/**
 The four writers of src/elora/memory/, statement by statement, on tables updated in place.
 Each does to the tables exactly what the corresponding step of module Memory says, including
 the rollback when an INSERT finds its id taken; the invariant is kept by `Valid()`.
 */
module MemoryStore {
  import opened Options
  import opened Memory

  class Store {
    var records: map<Id, Record>
    var versions: map<Id, Version>
    var embeddings: map<Id, Embedding>

    ghost function View(): State
      reads this
    {
      State(records, versions, embeddings)
    }

    ghost predicate Valid()
      reads this
    {
      Inv(View())
    }

    constructor ()
      ensures Valid() && View() == EMPTY
    {
      records, versions, embeddings := map[], map[], map[];
    }

    /** SELECT COALESCE(MAX(version_number), 0) */
    method MaxVersionNumber(r: Id) returns (m: nat)
      ensures m == MaxOf(Numbers(versions, r))
    {
      m := 0;
      var todo := versions.Keys;
      ghost var seen: set<nat> := {};
      while todo != {}
        invariant todo <= versions.Keys
        invariant forall v :: v in versions && v !in todo && versions[v].record == r ==> versions[v].number in seen
        invariant seen <= Numbers(versions, r)
        invariant m == MaxOf(seen)
        decreases |todo|
      {
        var v :| v in todo;
        if versions[v].record == r {
          ghost var seen' := seen + {versions[v].number};
          assert versions[v].number in seen' && MaxOf(seen') in seen';
          if versions[v].number > m {
            m := versions[v].number;
          }
          seen := seen';
        }
        todo := todo - {v};
      }
      assert seen == Numbers(versions, r);
    }

    method CreateMemoryRecordWithVersion(r: Id, v: Id, content: string) returns (error: Option<Error>)
      requires Valid()
      modifies this
      ensures Valid() && (View(), error) == Create(old(View()), r, v, content)
    {
      CreateKeeps(View(), r, v, content);
      if r in records {
        return Some(DuplicateId);
      }
      var savedRecords := records;
      records := records[r := Record(content, None, false)];
      if v in versions {
        records := savedRecords;
        return Some(DuplicateId);
      }
      versions := versions[v := Version(r, 1, content, false)];
      records := records[r := records[r].(current := Some(v))];
      error := None;
      assert records == savedRecords[r := Record(content, Some(v), false)];
    }

    method SupersedeMemoryRecord(r: Id, v: Id, newContent: string) returns (error: Option<Error>)
      requires Valid()
      modifies this
      ensures Valid() && (View(), error) == Supersede(old(View()), r, v, newContent)
    {
      SupersedeKeeps(View(), r, v, newContent);
      if r !in records {
        return Some(RecordNotFound);
      }
      if records[r].deleted {
        return Some(AlreadyDeleted);
      }
      var max := MaxVersionNumber(r);
      if v in versions {
        return Some(DuplicateId);
      }
      versions := versions[v := Version(r, max + 1, newContent, false)];
      records := records[r := records[r].(content := newContent, current := Some(v))];
      error := None;
    }

    method WriteMemoryEmbedding(v: Id, e: Id, model: string) returns (error: Option<Error>)
      requires Valid()
      modifies this
      ensures Valid() && (View(), error) == Embed(old(View()), v, e, model)
    {
      EmbedKeeps(View(), v, e, model);
      if v !in versions || versions[v].record !in records {
        return Some(VersionNotFound);
      }
      if versions[v].marker {
        return Some(IsDeletionMarker);
      }
      if records[versions[v].record].deleted {
        return Some(AlreadyDeleted);
      }
      if e in embeddings {
        return Some(DuplicateId);
      }
      embeddings := embeddings[e := Embedding(v, model, versions[v].content, true, None)];
      embeddings := map f | f in embeddings ::
        if embeddings[f].version == v && embeddings[f].active && f != e
        then embeddings[f].(active := false, supersededBy := Some(e)) else embeddings[f];
      error := None;
    }

    /** DELETE FROM memory_embeddings for every version of the record. */
    method RemoveEmbeddings(r: Id)
      modifies this`embeddings
      ensures embeddings == Unembed(old(View()), r)
      ensures forall e :: e in embeddings <==>
        e in old(embeddings)
        && !(old(embeddings)[e].version in versions && versions[old(embeddings)[e].version].record == r)
      ensures forall e :: e in embeddings ==> embeddings[e] == old(embeddings)[e]
    {
      embeddings := map e | e in embeddings
        && !(embeddings[e].version in versions && versions[embeddings[e].version].record == r) :: embeddings[e];
    }

    /** UPDATE memory_record_versions SET content for every version of the record. */
    method ScrubVersions(r: Id)
      modifies this`versions
      ensures versions == Scrub(old(versions), r)
      ensures versions.Keys == old(versions).Keys
      ensures forall w :: w in versions && old(versions)[w].record != r ==> versions[w] == old(versions)[w]
      ensures forall w :: w in versions && old(versions)[w].record == r ==>
        versions[w] == old(versions)[w].(content := "[content removed by deletion]")
    {
      versions := map w | w in versions ::
        if versions[w].record == r then versions[w].(content := TOMBSTONE) else versions[w];
    }

    method DeleteMemoryRecord(r: Id, v: Id) returns (error: Option<Error>)
      requires Valid()
      modifies this
      ensures Valid() && (View(), error) == Delete(old(View()), r, v)
    {
      DeleteKeeps(View(), r, v);
      if r !in records {
        return Some(RecordNotFound);
      }
      if records[r].deleted {
        return Some(AlreadyDeleted);
      }
      var savedVersions, savedEmbeddings := versions, embeddings;
      RemoveEmbeddings(r);
      var max := MaxVersionNumber(r);
      ScrubVersions(r);
      if v in versions {
        versions, embeddings := savedVersions, savedEmbeddings;
        return Some(DuplicateId);
      }
      versions := versions[v := Version(r, max + 1, TOMBSTONE, true)];
      records := records[r := records[r].(content := TOMBSTONE, deleted := true, current := Some(v))];
      error := None;
    }
  }
}
