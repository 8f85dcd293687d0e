/**
 The JSON-value gate in front of the `claims.object_value` column (src/schemas/claim.ts).

 The gate walks an arbitrary object graph depth first and shares one `seen` set between all
 branches. It is modelled on an explicit heap, so that cycles and shared containers exist.
 The reference definition below does not mention the walk at all: a value is acceptable when
 every value found at the end of some access path is, and no container sits at the end of two
 different access paths.
 */
module JsonValues {
  import opened Options

  type Address = nat

  datatype Value =
    | Null
    | Text(text: string)
    | Boolean(flag: bool)
    | Number(finite: bool)
    | Foreign                // undefined, function, symbol, bigint
    | Ref(at: Address)

  /** What an address holds: an array, a plain object's values in key order, or any other object. */
  datatype Container =
    | Array(items: seq<Value>)
    | Plain(items: seq<Value>)
    | Exotic

  type Heap = map<Address, Container>

  ghost predicate Resolved(h: Heap, v: Value) {
    v.Ref? ==> v.at in h
  }

  /** References never dangle, as in any JavaScript heap. */
  ghost predicate Closed(h: Heap) {
    forall a, i :: a in h && !h[a].Exotic? && 0 <= i < |h[a].items| ==> Resolved(h, h[a].items[i])
  }

  ghost predicate AllResolved(h: Heap, vs: seq<Value>) {
    forall i :: 0 <= i < |vs| ==> Resolved(h, vs[i])
  }

  // ----- Reference definition: access paths

  /** A path lists the positions chosen at each container on the way down. */
  type Path = seq<nat>

  /** The value at the end of path `p` from `v`, if there is one. */
  ghost function At(h: Heap, v: Value, p: Path): Option<Value>
    decreases |p|, 0
  {
    if p == [] then Some(v)
    else if v.Ref? && v.at in h && !h[v.at].Exotic? then AtAny(h, h[v.at].items, p)
    else None
  }

  ghost function AtAny(h: Heap, vs: seq<Value>, p: Path): Option<Value>
    requires p != []
    decreases |p| - 1, 1
  {
    if p[0] < |vs| then At(h, vs[p[0]], p[1..]) else None
  }

  ghost predicate Acceptable(h: Heap, v: Value) {
    match v
    case Null => true
    case Text(_) => true
    case Boolean(_) => true
    case Number(finite) => finite
    case Foreign => false
    case Ref(a) => a in h && !h[a].Exotic?
  }

  /** The reachable part is a tree of arrays and plain objects over JSON leaves. */
  ghost predicate JsonTree(h: Heap, v: Value) {
    && (forall p :: At(h, v, p).Some? ==> Acceptable(h, At(h, v, p).value))
    && (forall p, q :: At(h, v, p).Some? && At(h, v, p).value.Ref? && At(h, v, p) == At(h, v, q) ==> p == q)
  }

  // ----- The walk

  datatype Walk = Walk(ok: bool, seen: set<Address>)

  /** What `isJsonValue(value, seen)` answers, and the members of `seen` afterwards. */
  function Check(h: Heap, v: Value, seen: set<Address>): (w: Walk)
    requires Closed(h) && Resolved(h, v)
    ensures seen <= w.seen
    decreases h.Keys - seen, 0
  {
    match v
    case Null => Walk(true, seen)
    case Text(_) => Walk(true, seen)
    case Boolean(_) => Walk(true, seen)
    case Number(finite) => Walk(finite, seen)
    case Foreign => Walk(false, seen)
    case Ref(a) =>
      if h[a].Exotic? || a in seen then Walk(false, seen)
      else CheckFrom(h, h[a].items, 0, seen + {a})
  }

  /** `items.every(...)` from position `i` on: left to right, stopping at the first refusal. */
  function CheckFrom(h: Heap, vs: seq<Value>, i: nat, seen: set<Address>): (w: Walk)
    requires Closed(h) && AllResolved(h, vs) && i <= |vs|
    ensures seen <= w.seen
    decreases h.Keys - seen, |vs| - i + 1
  {
    if i == |vs| then Walk(true, seen)
    else
      var first := Check(h, vs[i], seen);
      if first.ok then
        assert h.Keys - first.seen <= h.Keys - seen;
        CheckFrom(h, vs, i + 1, first.seen)
      else first
  }

  // ----- The mutable form

  class Seen {
    var members: set<Address>

    constructor ()
      ensures members == {}
    {
      members := {};
    }
  }

  method IsJsonValue(h: Heap, v: Value, seen: Seen) returns (ok: bool)
    requires Closed(h) && Resolved(h, v)
    modifies seen
    ensures Walk(ok, seen.members) == Check(h, v, old(seen.members))
    decreases h.Keys - seen.members
  {
    match v {
      case Null => return true;
      case Text(_) => return true;
      case Boolean(_) => return true;
      case Number(finite) => return finite;
      case Foreign => return false;
      case Ref(a) =>
        if h[a].Exotic? || a in seen.members {
          return false;
        }
        seen.members := seen.members + {a};
        var items := h[a].items;
        ghost var start := seen.members;
        for i := 0 to |items|
          invariant start <= seen.members
          invariant CheckFrom(h, items, 0, start) == CheckFrom(h, items, i, seen.members)
        {
          assert h.Keys - seen.members < h.Keys - old(seen.members) by {
            assert a in h.Keys - old(seen.members) && a !in h.Keys - seen.members;
          }
          ghost var before := seen.members;
          ok := IsJsonValue(h, items[i], seen);
          assert before <= Check(h, items[i], before).seen;
          if !ok {
            return false;
          }
        }
        return true;
    }
  }

  /** The schema's entry point: a fresh `seen` set. The answer is exactly the reference definition. */
  method Accepts(h: Heap, v: Value) returns (ok: bool)
    requires Closed(h) && Resolved(h, v)
    ensures ok <==> JsonTree(h, v)
  {
    var seen := new Seen();
    ok := IsJsonValue(h, v, seen);
    CheckIsJsonTree(h, v);
  }

  // ----- The walk decides the reference definition

  /** `n` sits at the end of some path from `v`. */
  ghost predicate Reaches(h: Heap, v: Value, n: Address) {
    exists p :: At(h, v, p) == Some(Ref(n))
  }

  /** A path into the siblings `vs` that starts at position `i` or later. */
  ghost predicate Enters(p: Path, i: nat) {
    p != [] && i <= p[0]
  }

  ghost predicate ReachesFrom(h: Heap, vs: seq<Value>, i: nat, n: Address) {
    exists p: Path :: Enters(p, i) && AtAny(h, vs, p) == Some(Ref(n))
  }

  /** A tree none of whose containers is in `seen`. */
  ghost predicate FreshTree(h: Heap, v: Value, seen: set<Address>) {
    && JsonTree(h, v)
    && (forall n :: n in seen ==> !Reaches(h, v, n))
  }

  /** The same for the siblings from position `i` on; their paths start with a position. */
  ghost predicate FreshForest(h: Heap, vs: seq<Value>, i: nat, seen: set<Address>) {
    && (forall p: Path :: Enters(p, i) && AtAny(h, vs, p).Some? ==> Acceptable(h, AtAny(h, vs, p).value))
    && (forall p: Path, q: Path ::
          Enters(p, i) && Enters(q, i) && AtAny(h, vs, p).Some? && AtAny(h, vs, p).value.Ref?
            && AtAny(h, vs, p) == AtAny(h, vs, q)
          ==> p == q)
    && (forall n :: n in seen ==> !ReachesFrom(h, vs, i, n))
  }

  lemma {:induction false} CheckIsFreshTree(h: Heap, v: Value, seen: set<Address>)
    requires Closed(h) && Resolved(h, v)
    ensures Check(h, v, seen).ok <==> FreshTree(h, v, seen)
    ensures Check(h, v, seen).ok ==> forall n :: n in Check(h, v, seen).seen <==> n in seen || Reaches(h, v, n)
    decreases h.Keys - seen, 0
  {
    if v.Ref? {
      var a := v.at;
      assert At(h, v, []) == Some(v);
      if h[a].Exotic? || a in seen {
        assert Reaches(h, v, a);
      } else {
        assert h.Keys - (seen + {a}) < h.Keys - seen by {
          assert a in h.Keys - seen && a !in h.Keys - (seen + {a});
        }
        CheckIsFreshForest(h, h[a].items, 0, seen + {a});
        TreeIsRootOverForest(h, v, seen);
      }
    } else {
      LeafPaths(h, v);
    }
  }

  lemma LeafPaths(h: Heap, v: Value)
    requires !v.Ref?
    ensures JsonTree(h, v) <==> Acceptable(h, v)
    ensures forall n :: !Reaches(h, v, n)
  {
    assert At(h, v, []) == Some(v);
    assert forall p :: At(h, v, p).Some? ==> p == [];
  }

  lemma TreeIsRootOverForest(h: Heap, v: Value, seen: set<Address>)
    requires v.Ref? && v.at in h && !h[v.at].Exotic? && v.at !in seen
    ensures FreshTree(h, v, seen) <==> FreshForest(h, h[v.at].items, 0, seen + {v.at})
    ensures forall n :: Reaches(h, v, n) <==> n == v.at || ReachesFrom(h, h[v.at].items, 0, n)
  {
    var a, items := v.at, h[v.at].items;
    assert At(h, v, []) == Some(v);
    assert forall p: Path :: Enters(p, 0) ==> At(h, v, p) == AtAny(h, items, p);
    assert forall p: Path :: p == [] || Enters(p, 0);
    forall n
      ensures Reaches(h, v, n) <==> n == a || ReachesFrom(h, items, 0, n)
    {
      if ReachesFrom(h, items, 0, n) {
        var p: Path :| Enters(p, 0) && AtAny(h, items, p) == Some(Ref(n));
        assert At(h, v, p) == Some(Ref(n));
      }
    }
    if FreshTree(h, v, seen) {
      forall p: Path | Enters(p, 0)
        ensures AtAny(h, items, p) != Some(Ref(a))
      {
        assert At(h, v, p) != At(h, v, []);
      }
    }
    if FreshForest(h, items, 0, seen + {a}) {
      assert !ReachesFrom(h, items, 0, a);
      forall p, q | At(h, v, p).Some? && At(h, v, p).value.Ref? && At(h, v, p) == At(h, v, q)
        ensures p == q
      {
        assert p == [] <==> At(h, v, p) == Some(v);
        assert q == [] <==> At(h, v, q) == Some(v);
      }
    }
  }

  lemma {:induction false} CheckIsFreshForest(h: Heap, vs: seq<Value>, i: nat, seen: set<Address>)
    requires Closed(h) && AllResolved(h, vs) && i <= |vs|
    ensures CheckFrom(h, vs, i, seen).ok <==> FreshForest(h, vs, i, seen)
    ensures CheckFrom(h, vs, i, seen).ok ==>
              forall n :: n in CheckFrom(h, vs, i, seen).seen <==> n in seen || ReachesFrom(h, vs, i, n)
    decreases h.Keys - seen, |vs| - i + 1
  {
    if i < |vs| {
      CheckIsFreshTree(h, vs[i], seen);
      var first := Check(h, vs[i], seen);
      if first.ok {
        assert h.Keys - first.seen <= h.Keys - seen;
        CheckIsFreshForest(h, vs, i + 1, first.seen);
        ForestIsTreeBesideForest(h, vs, i, seen, first.seen);
      } else if FreshForest(h, vs, i, seen) {
        ForestHeadIsFreshTree(h, vs, i, seen);
      }
    }
  }

  lemma PathIntoSibling(h: Heap, vs: seq<Value>, i: nat, p: Path)
    requires i < |vs|
    ensures Enters([i] + p, i) && AtAny(h, vs, [i] + p) == At(h, vs[i], p)
  {
    assert ([i] + p)[1..] == p;
  }

  lemma ReachesHeadOrTail(h: Heap, vs: seq<Value>, i: nat, n: Address)
    requires i < |vs|
    ensures ReachesFrom(h, vs, i, n) <==> Reaches(h, vs[i], n) || ReachesFrom(h, vs, i + 1, n)
  {
    if ReachesFrom(h, vs, i, n) {
      var p: Path :| Enters(p, i) && AtAny(h, vs, p) == Some(Ref(n));
      if p[0] == i {
        assert At(h, vs[i], p[1..]) == Some(Ref(n));
      } else {
        assert Enters(p, i + 1);
      }
    }
    if Reaches(h, vs[i], n) {
      var p :| At(h, vs[i], p) == Some(Ref(n));
      PathIntoSibling(h, vs, i, p);
    }
    if ReachesFrom(h, vs, i + 1, n) {
      var p: Path :| Enters(p, i + 1) && AtAny(h, vs, p) == Some(Ref(n));
      assert Enters(p, i);
    }
  }

  lemma ForestHeadIsFreshTree(h: Heap, vs: seq<Value>, i: nat, seen: set<Address>)
    requires i < |vs| && FreshForest(h, vs, i, seen)
    ensures FreshTree(h, vs[i], seen)
  {
    forall p | At(h, vs[i], p).Some?
      ensures Acceptable(h, At(h, vs[i], p).value)
    {
      PathIntoSibling(h, vs, i, p);
    }
    forall p, q | At(h, vs[i], p).Some? && At(h, vs[i], p).value.Ref? && At(h, vs[i], p) == At(h, vs[i], q)
      ensures p == q
    {
      PathIntoSibling(h, vs, i, p);
      PathIntoSibling(h, vs, i, q);
      assert p == ([i] + p)[1..] && q == ([i] + q)[1..];
    }
    forall n | n in seen
      ensures !Reaches(h, vs[i], n)
    {
      ReachesHeadOrTail(h, vs, i, n);
    }
  }

  lemma ForestTailIsFreshForest(h: Heap, vs: seq<Value>, i: nat, seen: set<Address>, seen': set<Address>)
    requires i < |vs| && FreshForest(h, vs, i, seen)
    requires forall n :: n in seen' <==> n in seen || Reaches(h, vs[i], n)
    ensures FreshForest(h, vs, i + 1, seen')
  {
    assert forall p: Path :: Enters(p, i + 1) ==> Enters(p, i);
    forall p: Path, n | Enters(p, i + 1) && AtAny(h, vs, p) == Some(Ref(n))
      ensures n !in seen'
    {
      assert ReachesFrom(h, vs, i, n);
      if Reaches(h, vs[i], n) {
        var q :| At(h, vs[i], q) == Some(Ref(n));
        PathIntoSibling(h, vs, i, q);
        assert false;
      }
    }
  }

  lemma ForestIsTreeBesideForest(h: Heap, vs: seq<Value>, i: nat, seen: set<Address>, seen': set<Address>)
    requires i < |vs| && FreshTree(h, vs[i], seen)
    requires forall n :: n in seen' <==> n in seen || Reaches(h, vs[i], n)
    ensures FreshForest(h, vs, i, seen) <==> FreshForest(h, vs, i + 1, seen')
    ensures forall n :: ReachesFrom(h, vs, i, n) <==> Reaches(h, vs[i], n) || ReachesFrom(h, vs, i + 1, n)
  {
    forall n
      ensures ReachesFrom(h, vs, i, n) <==> Reaches(h, vs[i], n) || ReachesFrom(h, vs, i + 1, n)
    {
      ReachesHeadOrTail(h, vs, i, n);
    }
    if FreshForest(h, vs, i, seen) {
      ForestTailIsFreshForest(h, vs, i, seen, seen');
    }
    if FreshForest(h, vs, i + 1, seen') {
      forall p: Path | Enters(p, i) && AtAny(h, vs, p).Some?
        ensures Acceptable(h, AtAny(h, vs, p).value)
      {
        assert p[0] == i || Enters(p, i + 1);
      }
      forall p: Path, q: Path |
        Enters(p, i) && Enters(q, i) && AtAny(h, vs, p).Some? && AtAny(h, vs, p).value.Ref?
          && AtAny(h, vs, p) == AtAny(h, vs, q)
        ensures p == q
      {
        SiblingPathsAgree(h, vs, i, seen, seen', p, q);
      }
    }
  }

  lemma SiblingPathsAgree(h: Heap, vs: seq<Value>, i: nat, seen: set<Address>, seen': set<Address>, p: Path, q: Path)
    requires i < |vs| && FreshTree(h, vs[i], seen) && FreshForest(h, vs, i + 1, seen')
    requires forall n :: n in seen' <==> n in seen || Reaches(h, vs[i], n)
    requires Enters(p, i) && Enters(q, i)
    requires AtAny(h, vs, p).Some? && AtAny(h, vs, p).value.Ref? && AtAny(h, vs, p) == AtAny(h, vs, q)
    ensures p == q
  {
    var n := AtAny(h, vs, p).value.at;
    assert (p[0] == i) == Reaches(h, vs[i], n) by {
      EndsInHead(h, vs, i, seen', p, n);
    }
    assert (q[0] == i) == Reaches(h, vs[i], n) by {
      EndsInHead(h, vs, i, seen', q, n);
    }
    assert p == [p[0]] + p[1..] && q == [q[0]] + q[1..];
    if p[0] != i {
      assert Enters(p, i + 1) && Enters(q, i + 1);
    }
  }

  lemma EndsInHead(h: Heap, vs: seq<Value>, i: nat, seen': set<Address>, p: Path, n: Address)
    requires i < |vs| && FreshForest(h, vs, i + 1, seen')
    requires forall m :: Reaches(h, vs[i], m) ==> m in seen'
    requires Enters(p, i) && AtAny(h, vs, p) == Some(Ref(n))
    ensures (p[0] == i) == Reaches(h, vs[i], n)
  {
    if p[0] == i {
      assert At(h, vs[i], p[1..]) == Some(Ref(n));
    } else {
      assert Enters(p, i + 1);
      assert ReachesFrom(h, vs, i + 1, n);
    }
  }

  /** Started with nothing seen, the walk accepts exactly the trees of JSON values. */
  lemma CheckIsJsonTree(h: Heap, v: Value)
    requires Closed(h) && Resolved(h, v)
    ensures Check(h, v, {}).ok <==> JsonTree(h, v)
  {
    CheckIsFreshTree(h, v, {});
  }
}
