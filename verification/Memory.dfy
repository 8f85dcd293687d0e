/**
 Memory records, their versions and their embeddings (src/elora/memory/).

 Each operation is one transaction: it commits as a whole or leaves the tables unchanged. Ids
 are whatever the id generator returns; an id that is already taken makes the INSERT, and with
 it the transaction, fail. A content hash is modelled by the content itself.
 */
module Memory {
  import opened Options
  import opened Ordering

  type Id = nat

  const TOMBSTONE := "[content removed by deletion]"

  datatype Record = Record(content: string, current: Option<Id>, deleted: bool)
  datatype Version = Version(record: Id, number: nat, content: string, marker: bool)
  datatype Embedding = Embedding(version: Id, model: string, hash: string, active: bool, supersededBy: Option<Id>)

  datatype State = State(records: map<Id, Record>, versions: map<Id, Version>, embeddings: map<Id, Embedding>)

  datatype Error = RecordNotFound | VersionNotFound | AlreadyDeleted | IsDeletionMarker | DuplicateId

  // ----- What each operation does to the tables

  ghost function Numbers(versions: map<Id, Version>, r: Id): set<nat> {
    set v | v in versions && versions[v].record == r :: versions[v].number
  }

  /** COALESCE(MAX(..), 0) */
  ghost function MaxOf(s: set<nat>): (m: nat)
    ensures forall x :: x in s ==> x <= m
    ensures if s == {} then m == 0 else m in s
  {
    if s == {} then 0
    else
      var x :| x in s;
      var m := MaxOf(s - {x});
      assert s == s - {x} + {x};
      if m < x then x else m
  }

  ghost function NextNumber(versions: map<Id, Version>, r: Id): nat {
    MaxOf(Numbers(versions, r)) + 1
  }

  ghost function Create(s: State, r: Id, v: Id, content: string): (State, Option<Error>) {
    if r in s.records || v in s.versions then (s, Some(DuplicateId))
    else (State(s.records[r := Record(content, Some(v), false)], s.versions[v := Version(r, 1, content, false)],
      s.embeddings), None)
  }

  ghost function Supersede(s: State, r: Id, v: Id, content: string): (State, Option<Error>) {
    if r !in s.records then (s, Some(RecordNotFound))
    else if s.records[r].deleted then (s, Some(AlreadyDeleted))
    else if v in s.versions then (s, Some(DuplicateId))
    else (s.(
      records := s.records[r := s.records[r].(content := content, current := Some(v))],
      versions := s.versions[v := Version(r, NextNumber(s.versions, r), content, false)]), None)
  }

  /** Every ACTIVE row of the version other than the new one becomes SUPERSEDED by it. */
  ghost function Retire(embeddings: map<Id, Embedding>, v: Id, e: Id): map<Id, Embedding> {
    map f | f in embeddings ::
      if embeddings[f].version == v && embeddings[f].active && f != e
      then embeddings[f].(active := false, supersededBy := Some(e)) else embeddings[f]
  }

  ghost function Embed(s: State, v: Id, e: Id, model: string): (State, Option<Error>) {
    if v !in s.versions || s.versions[v].record !in s.records then (s, Some(VersionNotFound))
    else if s.versions[v].marker then (s, Some(IsDeletionMarker))
    else if s.records[s.versions[v].record].deleted then (s, Some(AlreadyDeleted))
    else if e in s.embeddings then (s, Some(DuplicateId))
    else (s.(embeddings := Retire(s.embeddings[e := Embedding(v, model, s.versions[v].content, true, None)], v, e)),
      None)
  }

  ghost function Scrub(versions: map<Id, Version>, r: Id): map<Id, Version> {
    map v | v in versions :: if versions[v].record == r then versions[v].(content := TOMBSTONE) else versions[v]
  }

  ghost function Unembed(s: State, r: Id): map<Id, Embedding> {
    map e | e in s.embeddings && !(s.embeddings[e].version in s.versions
      && s.versions[s.embeddings[e].version].record == r) :: s.embeddings[e]
  }

  ghost function Delete(s: State, r: Id, v: Id): (State, Option<Error>) {
    if r !in s.records then (s, Some(RecordNotFound))
    else if s.records[r].deleted then (s, Some(AlreadyDeleted))
    else if v in s.versions then (s, Some(DuplicateId))
    else (State(
      s.records[r := Record(TOMBSTONE, Some(v), true)],
      Scrub(s.versions, r)[v := Version(r, NextNumber(s.versions, r), TOMBSTONE, true)],
      Unembed(s, r)), None)
  }

  datatype Op =
    | CreateOp(r: Id, v: Id, content: string)
    | SupersedeOp(r: Id, v: Id, content: string)
    | EmbedOp(v: Id, e: Id, model: string)
    | DeleteOp(r: Id, v: Id)

  ghost function Step(s: State, op: Op): (State, Option<Error>) {
    match op
    case CreateOp(r, v, content) => Create(s, r, v, content)
    case SupersedeOp(r, v, content) => Supersede(s, r, v, content)
    case EmbedOp(v, e, model) => Embed(s, v, e, model)
    case DeleteOp(r, v) => Delete(s, r, v)
  }

  const EMPTY := State(map[], map[], map[])

  ghost function After(ops: seq<Op>): State {
    if ops == [] then EMPTY else Step(After(ops[..|ops| - 1]), ops[|ops| - 1]).0
  }

  // ----- The invariant

  ghost predicate HasNumber(versions: map<Id, Version>, r: Id, k: nat) {
    exists v :: v in versions && versions[v].record == r && versions[v].number == k
  }

  /** The version numbers of r are 1..n, each used once. */
  ghost predicate NumberedTo(versions: map<Id, Version>, r: Id, n: nat) {
    && (forall v :: v in versions && versions[v].record == r ==> 1 <= versions[v].number <= n)
    && (forall v, w ::
      && v in versions && w in versions && versions[v].record == r && versions[w].record == r
      && versions[v].number == versions[w].number
      ==> v == w)
    && (forall k: nat :: 1 <= k <= n ==> HasNumber(versions, r, k))
  }

  /** The record points at its last version, whose content it repeats. */
  ghost predicate RecordOk(s: State, r: Id)
    requires r in s.records
  {
    var record := s.records[r];
    && record.current.Some? && record.current.value in s.versions
    && var last := s.versions[record.current.value];
    && last.record == r && last.content == record.content && last.marker == record.deleted
    && NumberedTo(s.versions, r, last.number)
  }

  /** Deletion markers are current versions of deleted records, and deleted records hold tombstones only. */
  ghost predicate VersionOk(s: State, v: Id)
    requires v in s.versions
  {
    var version := s.versions[v];
    && version.record in s.records
    && (version.marker ==> s.records[version.record].deleted && s.records[version.record].current == Some(v))
    && (s.records[version.record].deleted ==> version.content == TOMBSTONE)
  }

  ghost predicate EmbeddingOk(s: State, e: Id)
    requires e in s.embeddings
  {
    var embedding := s.embeddings[e];
    && embedding.version in s.versions
    && embedding.hash == s.versions[embedding.version].content
    && s.versions[embedding.version].record in s.records
    && !s.records[s.versions[embedding.version].record].deleted
  }

  // ----- Supersession chains

  /** n steps along `superseded_by_embedding_id`. */
  ghost function Follow(es: map<Id, Embedding>, e: Id, n: nat): Option<Id>
    decreases n
  {
    if n == 0 then Some(e)
    else if e in es && es[e].supersededBy.Some? then Follow(es, es[e].supersededBy.value, n - 1)
    else None
  }

  ghost predicate ReachesIn(es: map<Id, Embedding>, e: Id, n: nat, a: Id) {
    e in es && a in es && Follow(es, e, n) == Some(a) && es[a].active && es[a].version == es[e].version
  }

  ghost predicate ReachesActive(es: map<Id, Embedding>, e: Id) {
    exists n: nat, a: Id :: ReachesIn(es, e, n, a)
  }

  ghost predicate LinkOk(es: map<Id, Embedding>, e: Id)
    requires e in es
  {
    && (es[e].active <==> es[e].supersededBy.None?)
    && (es[e].supersededBy.Some? ==>
      es[e].supersededBy.value in es && es[es[e].supersededBy.value].version == es[e].version)
  }

  ghost predicate OneActive(es: map<Id, Embedding>) {
    forall e, f :: e in es && f in es && es[e].active && es[f].active && es[e].version == es[f].version ==> e == f
  }

  ghost predicate ChainsOk(es: map<Id, Embedding>) {
    && (forall e {:trigger LinkOk(es, e)} :: e in es ==> LinkOk(es, e))
    && OneActive(es)
    && (forall e {:trigger ReachesActive(es, e)} :: e in es ==> ReachesActive(es, e))
  }

  ghost predicate Inv(s: State) {
    && (forall r {:trigger RecordOk(s, r)} :: r in s.records ==> RecordOk(s, r))
    && (forall v {:trigger VersionOk(s, v)} :: v in s.versions ==> VersionOk(s, v))
    && (forall e {:trigger EmbeddingOk(s, e)} :: e in s.embeddings ==> EmbeddingOk(s, e))
    && ChainsOk(s.embeddings)
  }

  // ----- Creating, superseding and deleting keep it

  /** A new version numbered n + 1 extends 1..n; changing contents only does not matter. */
  lemma NumberedOneMore(versions: map<Id, Version>, versions': map<Id, Version>, r: Id, n: nat, v: Id)
    requires NumberedTo(versions, r, n) && v !in versions
    requires versions'.Keys == versions.Keys + {v} && versions'[v].record == r && versions'[v].number == n + 1
    requires forall w :: w in versions ==>
      versions'[w].record == versions[w].record && versions'[w].number == versions[w].number
    ensures NumberedTo(versions', r, n + 1)
  {
    forall k: nat | 1 <= k <= n + 1
      ensures HasNumber(versions', r, k)
    {
      if k <= n {
        assert HasNumber(versions, r, k);
        var w :| w in versions && versions[w].record == r && versions[w].number == k;
        assert w in versions';
      } else {
        assert v in versions';
      }
    }
  }

  /** Versions of other records are as before. */
  lemma NumberedElsewhere(versions: map<Id, Version>, versions': map<Id, Version>, r: Id, n: nat, v: Id)
    requires NumberedTo(versions, r, n) && v !in versions
    requires versions'.Keys == versions.Keys + {v} && versions'[v].record != r
    requires forall w :: w in versions ==>
      versions'[w].record == versions[w].record && versions'[w].number == versions[w].number
    ensures NumberedTo(versions', r, n)
  {
    forall k: nat | 1 <= k <= n
      ensures HasNumber(versions', r, k)
    {
      assert HasNumber(versions, r, k);
      var w :| w in versions && versions[w].record == r && versions[w].number == k;
      assert w in versions';
    }
  }

  lemma MaxIsLast(s: State, r: Id)
    requires Inv(s) && r in s.records
    ensures s.records[r].current.Some? && s.records[r].current.value in s.versions
    ensures NextNumber(s.versions, r) == s.versions[s.records[r].current.value].number + 1
  {
    assert RecordOk(s, r);
    assert s.versions[s.records[r].current.value].number in Numbers(s.versions, r);
  }

  /**
   The common part of the three operations that add version v to record r: the other records
   are as before, and the versions differ at most in the contents of r's own.
   */
  ghost predicate AddsVersion(s: State, s': State, r: Id, v: Id, n: nat) {
    && v !in s.versions && s'.versions.Keys == s.versions.Keys + {v}
    && s'.records.Keys == s.records.Keys + {r}
    && (forall q :: q in s.records && q != r ==> s'.records[q] == s.records[q])
    && (forall w :: w in s.versions && s.versions[w].record != r ==> s'.versions[w] == s.versions[w])
    && (forall w :: w in s.versions && s.versions[w].record == r ==>
      s'.versions[w] == s.versions[w].(content := s'.versions[w].content))
    && NumberedTo(s.versions, r, n)
    && s'.versions[v].record == r && s'.versions[v].number == n + 1
    && s'.records[r] == Record(s'.versions[v].content, Some(v), s'.versions[v].marker)
  }

  lemma RecordsKept(s: State, s': State, r: Id, v: Id, n: nat)
    requires Inv(s) && AddsVersion(s, s', r, v, n)
    ensures forall q {:trigger RecordOk(s', q)} :: q in s'.records ==> RecordOk(s', q)
  {
    forall q {:trigger RecordOk(s', q)} | q in s'.records
      ensures RecordOk(s', q)
    {
      if q == r {
        NumberedOneMore(s.versions, s'.versions, r, n, v);
      } else {
        assert RecordOk(s, q);
        NumberedElsewhere(s.versions, s'.versions, q, s.versions[s.records[q].current.value].number, v);
      }
    }
  }

  /** A record that is neither new nor deleted has no deletion marker; a new one has no version. */
  lemma VersionsKept(s: State, s': State, r: Id, v: Id, n: nat)
    requires Inv(s) && AddsVersion(s, s', r, v, n)
    requires r in s.records ==> !s.records[r].deleted
    requires s'.records[r].deleted ==> forall w :: w in s'.versions && s'.versions[w].record == r ==>
      s'.versions[w].content == TOMBSTONE
    ensures forall w {:trigger VersionOk(s', w)} :: w in s'.versions ==> VersionOk(s', w)
  {
    forall w {:trigger VersionOk(s', w)} | w in s'.versions
      ensures VersionOk(s', w)
    {
      if w != v {
        assert VersionOk(s, w);
      }
    }
  }

  lemma LastNumbered(s: State, r: Id)
    requires Inv(s) && r in s.records
    ensures NumberedTo(s.versions, r, NextNumber(s.versions, r) - 1)
  {
    MaxIsLast(s, r);
    assert RecordOk(s, r);
  }

  lemma CreateKeeps(s: State, r: Id, v: Id, content: string)
    requires Inv(s)
    ensures Inv(Create(s, r, v, content).0)
  {
    var s' := Create(s, r, v, content).0;
    if s' != s {
      forall w | w in s.versions
        ensures s.versions[w].record != r
      {
        assert VersionOk(s, w);
      }
      assert AddsVersion(s, s', r, v, 0);
      RecordsKept(s, s', r, v, 0);
      VersionsKept(s, s', r, v, 0);
      EmbeddingsKept(s, s', r);
    }
  }

  lemma SupersedeKeeps(s: State, r: Id, v: Id, content: string)
    requires Inv(s)
    ensures Inv(Supersede(s, r, v, content).0)
  {
    var s' := Supersede(s, r, v, content).0;
    if s' != s {
      LastNumbered(s, r);
      var n := NextNumber(s.versions, r) - 1;
      assert AddsVersion(s, s', r, v, n);
      RecordsKept(s, s', r, v, n);
      VersionsKept(s, s', r, v, n);
      EmbeddingsKept(s, s', r);
    }
  }

  lemma DeleteAddsVersion(s: State, r: Id, v: Id)
    requires Inv(s) && Delete(s, r, v).1 == None
    ensures AddsVersion(s, Delete(s, r, v).0, r, v, NextNumber(s.versions, r) - 1)
  {
    LastNumbered(s, r);
  }

  lemma DeleteKeeps(s: State, r: Id, v: Id)
    requires Inv(s)
    ensures Inv(Delete(s, r, v).0)
  {
    var s' := Delete(s, r, v).0;
    if Delete(s, r, v).1 == None {
      DeleteAddsVersion(s, r, v);
      var n := NextNumber(s.versions, r) - 1;
      RecordsKept(s, s', r, v, n);
      VersionsKept(s, s', r, v, n);
      EmbeddingsKept(s, s', r);
      DeleteKeepsChains(s, r);
    }
  }

  /** Surviving embeddings of versions whose content did not change stay in order. */
  lemma EmbeddingsKept(s: State, s': State, r: Id)
    requires Inv(s)
    requires forall e :: e in s'.embeddings ==> e in s.embeddings && s'.embeddings[e] == s.embeddings[e]
    requires forall w :: w in s.versions ==> w in s'.versions && s'.versions[w].record == s.versions[w].record
    requires forall w :: w in s.versions && s.versions[w].record != r ==> s'.versions[w] == s.versions[w]
    requires forall q :: q in s.records ==> q in s'.records
    requires forall q :: q in s.records && q != r ==> s'.records[q] == s.records[q]
    requires r in s'.records && s'.records[r].deleted ==>
      forall e :: e in s'.embeddings && s.embeddings[e].version in s.versions ==>
      s.versions[s.embeddings[e].version].record != r
    requires r in s'.records && !s'.records[r].deleted ==> forall w :: w in s.versions ==>
      s'.versions[w] == s.versions[w]
    ensures forall e {:trigger EmbeddingOk(s', e)} :: e in s'.embeddings ==> EmbeddingOk(s', e)
  {
    forall e {:trigger EmbeddingOk(s', e)} | e in s'.embeddings
      ensures EmbeddingOk(s', e)
    {
      assert EmbeddingOk(s, e);
    }
  }

  lemma DeleteKeepsChains(s: State, r: Id)
    requires Inv(s)
    ensures ChainsOk(Unembed(s, r))
  {
    var es, es' := s.embeddings, Unembed(s, r);
    forall e {:trigger LinkOk(es', e)} {:trigger ReachesActive(es', e)} | e in es'
      ensures LinkOk(es', e) && ReachesActive(es', e)
    {
      assert LinkOk(es, e) && ReachesActive(es, e);
      var n: nat, a: Id :| ReachesIn(es, e, n, a);
      FollowKept(es, es', e, n, a);
      assert ReachesIn(es', e, n, a);
    }
  }

  /** A chain stays inside its version, so removing other versions' embeddings does not touch it. */
  lemma {:induction false} FollowKept(es: map<Id, Embedding>, es': map<Id, Embedding>, e: Id, n: nat, a: Id)
    requires ChainsOk(es) && ReachesIn(es, e, n, a)
    requires forall f :: f in es && es[f].version == es[e].version ==> f in es' && es'[f] == es[f]
    ensures Follow(es', e, n) == Some(a)
    decreases n
  {
    assert LinkOk(es, e);
    if n > 0 {
      FollowKept(es, es', es[e].supersededBy.value, n - 1, a);
    }
  }

  // ----- Embedding keeps it

  /** The old ACTIVE row at the end of a chain now points one step further. */
  lemma {:induction false} FollowExtended(es: map<Id, Embedding>, es': map<Id, Embedding>, e: Id, n: nat, a: Id, v: Id,
        e': Id)
    requires ChainsOk(es) && ReachesIn(es, e, n, a) && e' !in es
    requires e' in es' && es'[e'] == Embedding(v, es'[e'].model, es'[e'].hash, true, None)
    requires forall f :: f in es ==>
      f in es' && es'[f] == if es[f].version == v && es[f].active
      then es[f].(active := false, supersededBy := Some(e')) else es[f]
    ensures if es[e].version == v then ReachesIn(es', e, n + 1, e') else ReachesIn(es', e, n, a)
    decreases n
  {
    assert LinkOk(es, e);
    if n > 0 {
      FollowExtended(es, es', es[e].supersededBy.value, n - 1, a, v, e');
    } else {
      assert Follow(es', e', 0) == Some(e');
    }
  }

  lemma EmbedKeepsChains(es: map<Id, Embedding>, v: Id, e: Id, model: string, hash: string)
    requires ChainsOk(es) && e !in es
    ensures ChainsOk(Retire(es[e := Embedding(v, model, hash, true, None)], v, e))
  {
    var es' := Retire(es[e := Embedding(v, model, hash, true, None)], v, e);
    forall f {:trigger LinkOk(es', f)} {:trigger ReachesActive(es', f)} | f in es'
      ensures LinkOk(es', f) && ReachesActive(es', f)
    {
      if f == e {
        assert ReachesIn(es', e, 0, e);
      } else {
        assert LinkOk(es, f) && ReachesActive(es, f);
        var n: nat, a: Id :| ReachesIn(es, f, n, a);
        FollowExtended(es, es', f, n, a, v, e);
      }
    }
  }

  lemma EmbedKeeps(s: State, v: Id, e: Id, model: string)
    requires Inv(s)
    ensures Inv(Embed(s, v, e, model).0)
  {
    var s' := Embed(s, v, e, model).0;
    if s' != s {
      assert VersionOk(s, v);
      EmbedKeepsChains(s.embeddings, v, e, model, s.versions[v].content);
      forall r {:trigger RecordOk(s', r)} | r in s'.records ensures RecordOk(s', r) {
        assert RecordOk(s, r);
      }
      forall w {:trigger VersionOk(s', w)} | w in s'.versions ensures VersionOk(s', w) {
        assert VersionOk(s, w);
      }
      forall f {:trigger EmbeddingOk(s', f)} | f in s'.embeddings ensures EmbeddingOk(s', f) {
        if f != e {
          assert EmbeddingOk(s, f);
        }
      }
    }
  }

  // ----- Every reachable state

  lemma {:induction false} ReachableStatesAreSound(ops: seq<Op>)
    ensures Inv(After(ops))
  {
    if ops != [] {
      var s := After(ops[..|ops| - 1]);
      ReachableStatesAreSound(ops[..|ops| - 1]);
      match ops[|ops| - 1]
      case CreateOp(r, v, content) => CreateKeeps(s, r, v, content);
      case SupersedeOp(r, v, content) => SupersedeKeeps(s, r, v, content);
      case EmbedOp(v, e, model) => EmbedKeeps(s, v, e, model);
      case DeleteOp(r, v) => DeleteKeeps(s, r, v);
    }
  }

  // ----- What the invariant gives

  /** "Version numbers are 1..n": as many versions as the current version's number. */
  lemma CurrentNumberCounts(s: State, r: Id)
    requires Inv(s) && r in s.records
    ensures s.records[r].current.Some? && s.records[r].current.value in s.versions
    ensures |VersionsOf(s, r)| == s.versions[s.records[r].current.value].number
  {
    assert RecordOk(s, r);
    var n := s.versions[s.records[r].current.value].number;
    CountNumbered(s.versions, r, n, n);
    assert VersionsOf(s, r) == UpTo(s.versions, r, n);
  }

  ghost function VersionsOf(s: State, r: Id): set<Id> {
    set v | v in s.versions && s.versions[v].record == r
  }

  ghost function UpTo(versions: map<Id, Version>, r: Id, k: nat): set<Id> {
    set v | v in versions && versions[v].record == r && versions[v].number <= k
  }

  lemma {:induction false} CountNumbered(versions: map<Id, Version>, r: Id, m: nat, n: nat)
    requires n <= m && NumberedTo(versions, r, m)
    ensures |UpTo(versions, r, n)| == n
  {
    if n == 0 {
      assert UpTo(versions, r, 0) == {};
    } else {
      CountNumbered(versions, r, m, n - 1);
      OneMoreUpTo(versions, r, m, n);
    }
  }

  lemma OneMoreUpTo(versions: map<Id, Version>, r: Id, m: nat, n: nat)
    requires 1 <= n <= m && NumberedTo(versions, r, m)
    ensures |UpTo(versions, r, n)| == |UpTo(versions, r, n - 1)| + 1
  {
    assert HasNumber(versions, r, n);
    var v :| v in versions && versions[v].record == r && versions[v].number == n;
    assert UpTo(versions, r, n) == UpTo(versions, r, n - 1) + {v};
  }

  ghost function ActiveOf(s: State, v: Id): set<Id> {
    set e | e in s.embeddings && s.embeddings[e].version == v && s.embeddings[e].active
  }

  /** A version with embeddings has exactly one ACTIVE, and every row of it leads there. */
  lemma ExactlyOneActive(s: State, e: Id)
    requires Inv(s) && e in s.embeddings
    ensures |ActiveOf(s, s.embeddings[e].version)| == 1
    ensures exists n: nat, a: Id :: ActiveOf(s, s.embeddings[e].version) == {a} && Follow(s.embeddings, e, n) == Some(a)
  {
    assert ReachesActive(s.embeddings, e);
    var n: nat, a: Id :| ReachesIn(s.embeddings, e, n, a);
    assert ActiveOf(s, s.embeddings[e].version) == {a};
  }

  lemma {:induction false} FollowAdds(es: map<Id, Embedding>, e: Id, n: nat, m: nat)
    requires Follow(es, e, n).Some?
    ensures Follow(es, e, n + m) == Follow(es, Follow(es, e, n).value, m)
    decreases n
  {
    if n > 0 {
      FollowAdds(es, es[e].supersededBy.value, n - 1, m);
    }
  }

  /** Supersession chains never come back. */
  lemma ChainsAreAcyclic(s: State, e: Id, n: nat)
    requires Inv(s) && e in s.embeddings && n >= 1
    ensures Follow(s.embeddings, e, n) != Some(e)
  {
    assert ReachesActive(s.embeddings, e);
    var m: nat, a: Id :| ReachesIn(s.embeddings, e, m, a);
    assert LinkOk(s.embeddings, a);
    if Follow(s.embeddings, e, n) == Some(e) {
      NoCycleBeforeEnd(s.embeddings, e, n, m, a);
    }
  }

  lemma {:induction false} NoCycleBeforeEnd(es: map<Id, Embedding>, e: Id, n: nat, m: nat, a: Id)
    requires Follow(es, e, m) == Some(a) && a in es && es[a].supersededBy.None? && n >= 1
    ensures Follow(es, e, n) != Some(e)
    decreases m
  {
    if Follow(es, e, n) == Some(e) {
      if m >= n {
        FollowAdds(es, e, n, m - n);
        NoCycleBeforeEnd(es, e, n, m - n, a);
      } else {
        FollowAdds(es, e, m, n - m);
      }
    }
  }

  /** After deletion nothing but tombstones is left, in rows or vectors, and exactly one marker, the last version. */
  lemma DeletionIsComplete(s: State, r: Id)
    requires Inv(s) && r in s.records && s.records[r].deleted
    ensures s.records[r].content == TOMBSTONE
    ensures forall v :: v in VersionsOf(s, r) ==> s.versions[v].content == TOMBSTONE
    ensures forall v :: v in VersionsOf(s, r) ==> (s.versions[v].marker <==> s.versions[v].number == |VersionsOf(s, r)|)
    ensures forall v :: v in VersionsOf(s, r) ==> (s.versions[v].marker <==> s.records[r].current == Some(v))
    ensures forall e :: e in s.embeddings ==> s.embeddings[e].version !in VersionsOf(s, r)
  {
    CurrentNumberCounts(s, r);
    assert RecordOk(s, r);
    forall v | v in VersionsOf(s, r)
      ensures s.versions[v].content == TOMBSTONE
      ensures s.versions[v].marker <==> s.records[r].current == Some(v)
    {
      assert VersionOk(s, v);
    }
    forall e | e in s.embeddings
      ensures s.embeddings[e].version !in VersionsOf(s, r)
    {
      assert EmbeddingOk(s, e);
    }
  }

  /** In every run a record that is not deleted has no marker at all. */
  lemma LiveRecordsHaveNoMarker(ops: seq<Op>, v: Id)
    requires v in After(ops).versions
    ensures var s := After(ops); var r := s.versions[v].record;
      r in s.records && (s.versions[v].marker ==> s.records[r].deleted)
  {
    ReachableStatesAreSound(ops);
    assert VersionOk(After(ops), v);
  }

  /** History only grows: rows keep their record, number and kind; contents change to the tombstone or not at all. */
  ghost predicate HistoryKept(s: State, s': State) {
    && (forall v :: v in s.versions ==>
      v in s'.versions && s'.versions[v] in {s.versions[v], s.versions[v].(content := TOMBSTONE)})
    && (forall r :: r in s.records ==> r in s'.records)
    && (forall r :: r in s.records && s.records[r].deleted ==>
      s'.records[r] == s.records[r] && VersionsOf(s', r) == VersionsOf(s, r))
  }

  lemma AddedVersionKeepsHistory(s: State, s': State, r: Id, v: Id)
    requires Inv(s) && v !in s.versions && (r in s.records ==> !s.records[r].deleted)
    requires s'.versions.Keys == s.versions.Keys + {v} && s'.versions[v].record == r
    requires forall w :: w in s.versions ==>
      s'.versions[w] == s.versions[w] || s'.versions[w] == s.versions[w].(content := TOMBSTONE)
    requires r in s'.records && s'.records == s.records[r := s'.records[r]]
    ensures HistoryKept(s, s')
  {
    forall q | q in s.records && s.records[q].deleted
      ensures VersionsOf(s', q) == VersionsOf(s, q)
    {
      assert q != r;
    }
  }

  lemma CreateKeepsHistory(s: State, r: Id, v: Id, content: string)
    requires Inv(s) && Create(s, r, v, content).1 == None
    ensures HistoryKept(s, Create(s, r, v, content).0)
  {
    AddedVersionKeepsHistory(s, Create(s, r, v, content).0, r, v);
  }

  lemma SupersedeKeepsHistory(s: State, r: Id, v: Id, content: string)
    requires Inv(s) && Supersede(s, r, v, content).1 == None
    ensures HistoryKept(s, Supersede(s, r, v, content).0)
  {
    AddedVersionKeepsHistory(s, Supersede(s, r, v, content).0, r, v);
  }

  lemma DeleteKeepsHistory(s: State, r: Id, v: Id)
    requires Inv(s) && Delete(s, r, v).1 == None
    ensures HistoryKept(s, Delete(s, r, v).0)
  {
    AddedVersionKeepsHistory(s, Delete(s, r, v).0, r, v);
  }

  lemma SameTablesKeepHistory(s: State, s': State)
    requires s'.records == s.records && s'.versions == s.versions
    ensures HistoryKept(s, s')
  {
  }

  lemma StepKeepsHistory(s: State, op: Op)
    requires Inv(s)
    ensures HistoryKept(s, Step(s, op).0)
  {
    if Step(s, op).1 == None {
      match op
      case CreateOp(r, v, content) => CreateKeepsHistory(s, r, v, content);
      case SupersedeOp(r, v, content) => SupersedeKeepsHistory(s, r, v, content);
      case DeleteOp(r, v) => DeleteKeepsHistory(s, r, v);
      case EmbedOp(v, e, model) => SameTablesKeepHistory(s, Embed(s, v, e, model).0);
    } else {
      SameTablesKeepHistory(s, s);
    }
  }

  lemma OneMoreKeepsHistory(ops: seq<Op>, op: Op)
    ensures HistoryKept(After(ops), After(ops + [op]))
  {
    assert (ops + [op])[..|ops|] == ops;
    ReachableStatesAreSound(ops);
    StepKeepsHistory(After(ops), op);
  }

  /** Deletion is final and history is never rewritten, over any continuation of any run. */
  lemma {:induction false} HistoryIsKept(ops: seq<Op>, more: seq<Op>)
    ensures HistoryKept(After(ops), After(ops + more))
    decreases |more|
  {
    if more == [] {
      assert ops + more == ops;
    } else {
      var front, last := more[..|more| - 1], more[|more| - 1];
      HistoryIsKept(ops, front);
      OneMoreKeepsHistory(ops + front, last);
      assert ops + front + [last] == ops + more;
      HistoryTransitive(After(ops), After(ops + front), After(ops + more));
    }
  }

  lemma HistoryTransitive(a: State, b: State, c: State)
    requires HistoryKept(a, b) && HistoryKept(b, c)
    ensures HistoryKept(a, c)
  {
    forall v | v in a.versions
      ensures v in c.versions && c.versions[v] in {a.versions[v], a.versions[v].(content := TOMBSTONE)}
    {
      assert v in b.versions;
    }
  }

  /** The record shows its new last version, numbered by how many there were; other records are untouched. */
  ghost predicate AddedTo(s: State, s': State, r: Id, v: Id, content: string, deleted: bool) {
    && v !in s.versions && s'.versions.Keys == s.versions.Keys + {v}
    && s'.versions[v] == Version(r, |VersionsOf(s, r)| + 1, content, deleted)
    && s'.records == s.records[r := Record(content, Some(v), deleted)]
    && (forall w :: w in s.versions && s.versions[w].record != r ==> s'.versions[w] == s.versions[w])
  }

  /** Exactly the embeddings of r's versions are gone; the others are as they were. */
  ghost predicate EmbeddingsDropped(s: State, s': State, r: Id) {
    && (forall e :: e in s'.embeddings <==> e in s.embeddings && s.embeddings[e].version !in VersionsOf(s, r))
    && (forall e :: e in s'.embeddings ==> s'.embeddings[e] == s.embeddings[e])
  }

  /** One new ACTIVE row; the ACTIVE row of its version, if any, points to it; the others are as they were. */
  ghost predicate EmbeddedAs(s: State, s': State, v: Id, e: Id, model: string) {
    && v in s.versions && e !in s.embeddings && s'.embeddings.Keys == s.embeddings.Keys + {e}
    && s'.embeddings[e] == Embedding(v, model, s.versions[v].content, true, None)
    && (forall f :: f in s.embeddings && !(f in ActiveOf(s, v)) ==> s'.embeddings[f] == s.embeddings[f])
    && (forall f :: f in ActiveOf(s, v) ==>
      s'.embeddings[f] == Embedding(v, s.embeddings[f].model, s.embeddings[f].hash, false, Some(e)))
  }

  /** What each successful operation leaves in all three tables. */
  lemma WritesAreReadBack(s: State, op: Op)
    requires Inv(s) && Step(s, op).1 == None
    ensures var s' := Step(s, op).0;
      match op
      case CreateOp(r, v, content) =>
        && r !in s.records && VersionsOf(s, r) == {} && AddedTo(s, s', r, v, content, false)
        && s'.embeddings == s.embeddings
      case SupersedeOp(r, v, content) =>
        && r in s.records && !s.records[r].deleted && AddedTo(s, s', r, v, content, false)
        && (forall w :: w in s.versions ==> s'.versions[w] == s.versions[w]) && s'.embeddings == s.embeddings
      case EmbedOp(v, e, model) =>
        s'.records == s.records && s'.versions == s.versions && EmbeddedAs(s, s', v, e, model)
      case DeleteOp(r, v) =>
        && r in s.records && !s.records[r].deleted
        && AddedTo(s, s', r, v, "[content removed by deletion]", true)
        && (forall w :: w in VersionsOf(s, r) ==>
          s'.versions[w] == Version(r, s.versions[w].number, "[content removed by deletion]", s.versions[w].marker))
        && EmbeddingsDropped(s, s', r)
  {
    match op
    case CreateOp(r, v, content) =>
      forall w | w in s.versions
        ensures s.versions[w].record != r
      {
        assert VersionOk(s, w);
      }
      assert VersionsOf(s, r) == {};
    case SupersedeOp(r, v, content) => NextNumberCounts(s, r);
    case EmbedOp(v, e, model) =>
    case DeleteOp(r, v) =>
      NextNumberCounts(s, r);
      forall e | e in s.embeddings
        ensures s.embeddings[e].version in s.versions
      {
        assert EmbeddingOk(s, e);
      }
  }

  lemma NextNumberCounts(s: State, r: Id)
    requires Inv(s) && r in s.records
    ensures NextNumber(s.versions, r) == |VersionsOf(s, r)| + 1
  {
    MaxIsLast(s, r);
    CurrentNumberCounts(s, r);
  }

  /** Which operations fail, how, and that a failure changes nothing. */
  lemma RejectsExactly(s: State, op: Op)
    requires Inv(s)
    ensures Step(s, op).1.Some? ==> Step(s, op).0 == s
    ensures Step(s, op).1 == match op
      case CreateOp(r, v, _) => if r in s.records || v in s.versions then Some(DuplicateId) else None
      case SupersedeOp(r, v, _) => RecordError(s, r, v)
      case DeleteOp(r, v) => RecordError(s, r, v)
      case EmbedOp(v, e, _) => EmbedError(s, v, e)
  {
    if op.EmbedOp? && op.v in s.versions {
      assert VersionOk(s, op.v) && RecordOk(s, s.versions[op.v].record);
    }
  }

  /** A deleted record's current version is its deletion marker. */
  ghost function EmbedError(s: State, v: Id, e: Id): Option<Error> {
    if v !in s.versions || s.versions[v].record !in s.records then Some(VersionNotFound)
    else
      var record := s.records[s.versions[v].record];
      if record.deleted then Some(if record.current == Some(v) then IsDeletionMarker else AlreadyDeleted)
      else if e in s.embeddings then Some(DuplicateId)
      else None
  }

  ghost function RecordError(s: State, r: Id, v: Id): Option<Error> {
    if r !in s.records then Some(RecordNotFound)
    else if s.records[r].deleted then Some(AlreadyDeleted)
    else if v in s.versions then Some(DuplicateId)
    else None
  }

  /**
   After deletion nothing can be written to the record again; the marker and the scrubbed versions
   answer differently.
   */
  lemma DeletedRejects(s: State, r: Id, v: Id, w: Id, e: Id, content: string, model: string)
    requires Inv(s) && r in s.records && s.records[r].deleted
    ensures Supersede(s, r, v, content) == (s, Some(AlreadyDeleted)) && Delete(s, r, v) == (s, Some(AlreadyDeleted))
    ensures w in VersionsOf(s, r) ==>
      Embed(s, w, e, model) == (s, Some(if s.records[r].current == Some(w) then IsDeletionMarker else AlreadyDeleted))
  {
    DeletionIsComplete(s, r);
  }

  // ----- The two searches

  predicate FtsEligible(s: State, r: Id) {
    && r in s.records && !s.records[r].deleted && s.records[r].current.Some?
    && s.records[r].current.value in s.versions
    && var v := s.versions[s.records[r].current.value];
    v.record == r && !v.marker
  }

  /** A row of the vector search joins a record with an embedding of its current version. */
  predicate VectorEligible(s: State, r: Id, e: Id, model: string) {
    && FtsEligible(s, r) && e in s.embeddings
    && s.embeddings[e].version == s.records[r].current.value
    && s.embeddings[e].active && s.embeddings[e].model == model
    && s.embeddings[e].hash == s.versions[s.records[r].current.value].content
  }

  /** In every run a record is eligible for search exactly while it is not deleted. */
  lemma EligibleIffLive(ops: seq<Op>, r: Id)
    ensures FtsEligible(After(ops), r) <==> r in After(ops).records && !After(ops).records[r].deleted
  {
    ReachableStatesAreSound(ops);
    if r in After(ops).records {
      assert RecordOk(After(ops), r);
    }
  }

  /**
   In every run the vector search finds exactly the ACTIVE embeddings, of the model asked for, of the
   current versions of live records: the tests on marker and content hash reject nothing.
   */
  lemma HashIsAlwaysFresh(ops: seq<Op>, r: Id, e: Id, model: string)
    ensures var s := After(ops);
      VectorEligible(s, r, e, model) <==>
      && r in s.records && !s.records[r].deleted
      && e in s.embeddings && s.embeddings[e].active && s.embeddings[e].model == model
      && s.records[r].current == Some(s.embeddings[e].version)
  {
    ReachableStatesAreSound(ops);
    EligibleIffLive(ops, r);
    if e in After(ops).embeddings {
      assert EmbeddingOk(After(ops), e);
    }
  }

  /** Full-text rows pair a record with its current version, so no record comes up twice. */
  lemma FtsListIsDistinct(s: State, rows: seq<(Id, Id)>)
    requires forall i :: 0 <= i < |rows| ==>
      FtsEligible(s, rows[i].0) && s.records[rows[i].0].current == Some(rows[i].1)
    requires forall i, j :: 0 <= i < j < |rows| ==> rows[i] != rows[j]
    ensures Distinct(Firsts(rows))
  {
  }

  function Firsts(rows: seq<(Id, Id)>): (ids: seq<Id>)
    ensures |ids| == |rows| && forall i :: 0 <= i < |rows| ==> ids[i] == rows[i].0
  {
    seq(|rows|, i requires 0 <= i < |rows| => rows[i].0)
  }

  /** The join finds each record at most once, so the vector list has no repeated id. */
  lemma VectorListIsDistinct(s: State, rows: seq<(Id, Id)>, model: string)
    requires Inv(s)
    requires forall i :: 0 <= i < |rows| ==> VectorEligible(s, rows[i].0, rows[i].1, model)
    requires forall i, j :: 0 <= i < j < |rows| ==> rows[i] != rows[j]
    ensures Distinct(Firsts(rows))
  {
    forall i, j | 0 <= i < j < |rows|
      ensures rows[i].0 != rows[j].0
    {
      assert VectorEligible(s, rows[i].0, rows[i].1, model) && VectorEligible(s, rows[j].0, rows[j].1, model);
    }
  }
}
