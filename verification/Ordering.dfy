/**
 Sorting a list of positions by a strict total order. `Array.prototype.sort` is stable, so
 sorting items by a comparator is sorting their positions by "comparator first, position
 second", which is strict and total. Such an order has only one sorted arrangement, so nothing
 about the sorting algorithm itself matters; `Sort` is one way to get there.
 */
module Ordering {

  type Order = (nat, nat) -> bool

  ghost predicate StrictTotal(less: Order, s: set<nat>) {
    && (forall a :: a in s ==> !less(a, a))
    && (forall a, b :: a in s && b in s && a != b ==> less(a, b) || less(b, a))
    && (forall a, b, c :: a in s && b in s && c in s && less(a, b) && less(b, c) ==> less(a, c))
  }

  ghost function Elements(xs: seq<nat>): set<nat> {
    set i | 0 <= i < |xs| :: xs[i]
  }

  ghost predicate Distinct(xs: seq<nat>) {
    forall i, j :: 0 <= i < j < |xs| ==> xs[i] != xs[j]
  }

  /** The members of `s`, each once, in order. */
  ghost predicate Arranged(xs: seq<nat>, s: set<nat>, less: Order) {
    && Elements(xs) == s
    && forall i, j :: 0 <= i < j < |xs| ==> less(xs[i], xs[j])
  }

  function Insert(x: nat, xs: seq<nat>, less: Order): seq<nat> {
    if xs == [] || less(x, xs[0]) then [x] + xs else [xs[0]] + Insert(x, xs[1..], less)
  }

  function Sort(xs: seq<nat>, less: Order): seq<nat> {
    if xs == [] then [] else Insert(xs[0], Sort(xs[1..], less), less)
  }

  lemma ConsElements(x: nat, xs: seq<nat>)
    ensures Elements([x] + xs) == {x} + Elements(xs)
  {
    var all := [x] + xs;
    forall y
      ensures y in Elements(all) <==> y == x || y in Elements(xs)
    {
      if y == x {
        assert all[0] == x;
      }
      if y in Elements(xs) {
        var i :| 0 <= i < |xs| && xs[i] == y;
        assert all[i + 1] == y;
      }
    }
  }

  lemma UnconsElements(xs: seq<nat>)
    requires xs != []
    ensures Elements(xs) == {xs[0]} + Elements(xs[1..])
  {
    assert xs == [xs[0]] + xs[1..];
    ConsElements(xs[0], xs[1..]);
  }

  lemma ConsArranged(x: nat, xs: seq<nat>, s: set<nat>, less: Order)
    requires Arranged(xs, s, less) && forall y :: y in s ==> less(x, y)
    ensures Arranged([x] + xs, s + {x}, less)
  {
    ConsElements(x, xs);
    assert forall j :: 0 <= j < |xs| ==> xs[j] in s;
  }

  lemma TailArranged(xs: seq<nat>, s: set<nat>, less: Order)
    requires Arranged(xs, s, less) && StrictTotal(less, s) && xs != []
    ensures Arranged(xs[1..], s - {xs[0]}, less)
  {
    UnconsElements(xs);
    var rest := xs[1..];
    assert forall j :: 0 <= j < |rest| ==> rest[j] == xs[j + 1] && less(xs[0], rest[j]);
    assert xs[0] in s;
    assert xs[0] !in Elements(rest);
  }

  /** The first element of an arrangement comes before all the others. */
  lemma HeadIsLeast(xs: seq<nat>, s: set<nat>, less: Order)
    requires Arranged(xs, s, less) && xs != []
    ensures forall y :: y in s - {xs[0]} ==> less(xs[0], y)
  {
    forall y | y in s - {xs[0]}
      ensures less(xs[0], y)
    {
      var j :| 0 <= j < |xs| && xs[j] == y;
    }
  }

  lemma {:induction false} InsertArranges(x: nat, xs: seq<nat>, s: set<nat>, less: Order)
    requires Arranged(xs, s, less) && x !in s && StrictTotal(less, s + {x})
    ensures Arranged(Insert(x, xs, less), s + {x}, less)
    decreases |xs|
  {
    EmptyElements(xs);
    if xs == [] {
      ConsArranged(x, xs, s, less);
    } else {
      var y, s' := xs[0], s - {xs[0]};
      assert y in s;
      HeadIsLeast(xs, s, less);
      if less(x, y) {
        ConsArranged(x, xs, s, less);
      } else {
        TailArranged(xs, s, less);
        InsertArranges(x, xs[1..], s', less);
        ConsArranged(y, Insert(x, xs[1..], less), s' + {x}, less);
        assert s' + {x} + {y} == s + {x};
      }
    }
  }

  lemma {:induction false} SortArranges(xs: seq<nat>, less: Order)
    requires Distinct(xs) && StrictTotal(less, Elements(xs))
    ensures Arranged(Sort(xs, less), Elements(xs), less)
  {
    if xs != [] {
      var rest := xs[1..];
      UnconsElements(xs);
      assert xs[0] !in Elements(rest) by {
        assert forall j :: 0 <= j < |rest| ==> rest[j] == xs[j + 1];
      }
      SortArranges(rest, less);
      InsertArranges(xs[0], Sort(rest, less), Elements(rest), less);
      assert Elements(rest) + {xs[0]} == Elements(xs);
    }
  }

  /** The members of `s` that come before `x`. */
  ghost function Before(s: set<nat>, less: Order, x: nat): set<nat> {
    set y | y in s && less(y, x)
  }

  /** In an arrangement the position of an element is the number of elements before it. */
  lemma PositionCountsBefore(xs: seq<nat>, s: set<nat>, less: Order, k: nat)
    requires Arranged(xs, s, less) && StrictTotal(less, s) && k < |xs|
    ensures |Before(s, less, xs[k])| == k
  {
    var front := xs[..k];
    assert Before(s, less, xs[k]) == Elements(front) by {
      forall y
        ensures y in Before(s, less, xs[k]) <==> y in Elements(front)
      {
        if y in Elements(front) {
          var i :| 0 <= i < |front| && front[i] == y;
          assert xs[i] == y && less(xs[i], xs[k]) && y in s;
        }
        if y in Before(s, less, xs[k]) {
          var i :| 0 <= i < |xs| && xs[i] == y;
          assert xs[k] in s;
          assert i < k && front[i] == y;
        }
      }
    }
    assert forall i, j :: 0 <= i < j < k ==> front[i] != front[j] by {
      forall i, j | 0 <= i < j < k
        ensures front[i] != front[j]
      {
        assert less(xs[i], xs[j]) && xs[i] in s;
      }
    }
    DistinctCount(front);
  }

  lemma {:induction false} DistinctCount(xs: seq<nat>)
    requires Distinct(xs)
    ensures |Elements(xs)| == |xs|
  {
    if xs != [] {
      UnconsElements(xs);
      assert xs[0] !in Elements(xs[1..]) by {
        assert forall j :: 0 <= j < |xs[1..]| ==> xs[1..][j] == xs[j + 1];
      }
      DistinctCount(xs[1..]);
    }
  }

  lemma EmptyElements(xs: seq<nat>)
    ensures Elements(xs) == {} <==> xs == []
  {
    if xs != [] {
      assert xs[0] in Elements(xs);
    }
  }

  lemma {:induction false} SubsetCount<T>(a: set<T>, b: set<T>)
    requires a <= b
    ensures |a| <= |b|
  {
    if a != {} {
      var x :| x in a;
      SubsetCount(a - {x}, b - {x});
    }
  }
}
