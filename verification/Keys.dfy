/**
 Idempotency keys (src/shared/ids.ts): the parts of a key joined by ':'.

 Every "insert or fetch" in the runtime trusts that two different logical requests never
 share a key. Joining is lossy in general, so the module settles exactly when it is not:
 a list shape is safe if and only if at most one of its positions may hold a colon.
 */
module Keys {
  import Ordering

  predicate ColonFree(s: string) {
    ':' !in s
  }

  /** Generated ids and fixed words hold no colon. */
  type Uuid = s: string | ColonFree(s)

  function Join(parts: seq<string>): string {
    if |parts| == 0 then ""
    else if |parts| == 1 then parts[0]
    else parts[0] + ":" + Join(parts[1..])
  }

  /** The positions of `parts` that hold a colon all lie in `open`. */
  ghost predicate Shaped(parts: seq<string>, open: set<nat>) {
    forall i :: 0 <= i < |parts| && i !in open ==> ColonFree(parts[i])
  }

  /** No two different lists of length n with colons only at the positions in `open` share a key. */
  ghost predicate Safe(n: nat, open: set<nat>) {
    forall a: seq<string>, b: seq<string> ::
      |a| == n && |b| == n && Shaped(a, open) && Shaped(b, open) && Join(a) == Join(b) ==> a == b
  }

  /** Colon-free heads in front of a colon are determined by the joined string. */
  lemma SplitAtFirstColon(x: string, x': string, y: string, y': string)
    requires ColonFree(x) && ColonFree(x')
    requires x + ":" + y == x' + ":" + y'
    ensures x == x' && y == y'
  {
    var s := x + ":" + y;
    assert s[|x|] == ':' && s[|x'|] == ':';
    assert |x| == |x'|;
    assert x == s[..|x|] && x' == s[..|x'|];
    assert y == s[|x| + 1..] && y' == s[|x'| + 1..];
  }

  /** Colon-free tails behind a colon are determined by the joined string. */
  lemma SplitAtLastColon(x: string, x': string, y: string, y': string)
    requires ColonFree(y) && ColonFree(y')
    requires x + ":" + y == x' + ":" + y'
    ensures x == x' && y == y'
  {
    var s := x + ":" + y;
    assert s[|x|] == ':' && s[|x'|] == ':';
    assert |x| == |x'|;
    assert x == s[..|x|] && x' == s[..|x'|];
    assert y == s[|x| + 1..] && y' == s[|x'| + 1..];
  }

  lemma {:induction false} JoinSnoc(parts: seq<string>)
    requires |parts| >= 2
    ensures Join(parts) == Join(parts[..|parts| - 1]) + ":" + parts[|parts| - 1]
  {
    if |parts| > 2 {
      JoinSnoc(parts[1..]);
      assert parts[1..][..|parts| - 2] == parts[..|parts| - 1][1..];
      assert Join(parts[..|parts| - 1]) == parts[0] + ":" + Join(parts[..|parts| - 1][1..]);
    }
  }

  /** With one open position the key determines every part, whatever colons that position holds. */
  lemma {:induction false} KeyDeterminesParts(a: seq<string>, b: seq<string>, free: nat)
    requires |a| == |b|
    requires Shaped(a, {free}) && Shaped(b, {free})
    requires Join(a) == Join(b)
    ensures a == b
    decreases |a|
  {
    var n := |a|;
    if n >= 2 {
      if free == n - 1 || free >= n {
        SplitAtFirstColon(a[0], b[0], Join(a[1..]), Join(b[1..]));
        KeyDeterminesParts(a[1..], b[1..], free - 1);
        assert a == [a[0]] + a[1..] && b == [b[0]] + b[1..];
      } else {
        JoinSnoc(a);
        JoinSnoc(b);
        SplitAtLastColon(Join(a[..n - 1]), Join(b[..n - 1]), a[n - 1], b[n - 1]);
        KeyDeterminesParts(a[..n - 1], b[..n - 1], free);
        assert a == a[..n - 1] + [a[n - 1]] && b == b[..n - 1] + [b[n - 1]];
      }
    } else if n == 1 {
      assert a == [a[0]] && b == [b[0]];
    }
  }

  /** Keys of generated ids and fixed words only. */
  lemma PlainKeyDeterminesParts(a: seq<string>, b: seq<string>)
    requires |a| == |b| && Shaped(a, {}) && Shaped(b, {}) && Join(a) == Join(b)
    ensures a == b
  {
    KeyDeterminesParts(a, b, 0);
  }

  function Colons(n: nat): string {
    seq(n, _ => ':')
  }

  /** `n` empty parts, except for a single colon at position `at`. */
  function LoneColon(n: nat, at: nat): seq<string> {
    seq(n, i => if i == at then ":" else "")
  }

  lemma {:induction false} LoneColonKey(n: nat, at: nat)
    requires n >= 1
    ensures Join(LoneColon(n, at)) == Colons(if at < n then n else n - 1)
  {
    var parts := LoneColon(n, at);
    if n > 1 {
      if at == 0 {
        LoneColonKey(n - 1, n);
        assert parts[1..] == LoneColon(n - 1, n);
      } else {
        LoneColonKey(n - 1, at - 1);
        assert parts[1..] == LoneColon(n - 1, at - 1);
      }
    }
  }

  /** Exactly when keys are collision free: at most one position of the list may hold a colon. */
  lemma SafeIffOneOpenPosition(n: nat, open: set<nat>)
    requires forall i :: i in open ==> i < n
    ensures Safe(n, open) <==> |open| <= 1
  {
    if |open| <= 1 {
      var free: nat := if open == {} then 0 else var i :| i in open; i;
      assert open <= {free} by {
        forall i | i in open ensures i == free {
          if i != free {
            assert {i, free} <= open && |{i, free}| == 2;
            Ordering.SubsetCount({i, free}, open);
          }
        }
      }
      forall a: seq<string>, b: seq<string> |
        |a| == n && |b| == n && Shaped(a, open) && Shaped(b, open) && Join(a) == Join(b)
        ensures a == b
      {
        KeyDeterminesParts(a, b, free);
      }
    } else {
      var i :| i in open;
      assert open != {i};
      var j :| j in open && j != i;
      var a, b := LoneColon(n, i), LoneColon(n, j);
      LoneColonKey(n, i);
      LoneColonKey(n, j);
      assert a[i] != b[i];
      assert Shaped(a, open) && Shaped(b, open);
    }
  }
}
