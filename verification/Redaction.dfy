/**
 Redaction of declared values from model input (src/elora/llm/contentPolicy/redactModelInput.ts).

 Fields are applied one after the other to every string leaf: split at the value, join with the
 placeholder. A later placeholder could in principle bring an earlier value back, so what the
 result is free of is a property of the whole field list, not of one replacement.
 */
module Redaction {

  datatype Field = Field(name: string, value: string)

  function Placeholder(f: Field): string {
    "[REDACTED:" + f.name + "]"
  }

  // ----- Occurrences, split and join

  predicate OccursAt(s: string, v: string, i: int) {
    0 <= i <= |s| - |v| && s[i..i + |v|] == v
  }

  ghost predicate Contains(s: string, v: string) {
    exists i :: OccursAt(s, v, i)
  }

  /** The first occurrence of `v` at or after `i`, or -1. */
  function Find(s: string, v: string, i: nat): (r: int)
    requires i <= |s|
    ensures r == -1 ==> forall k :: i <= k ==> !OccursAt(s, v, k)
    ensures r != -1 ==> i <= r && OccursAt(s, v, r) && forall k :: i <= k < r ==> !OccursAt(s, v, k)
    decreases |s| - i
  {
    if OccursAt(s, v, i) then i
    else if i == |s| then -1
    else Find(s, v, i + 1)
  }

  predicate Includes(s: string, v: string)
    ensures Includes(s, v) <==> Contains(s, v)
  {
    Find(s, v, 0) != -1
  }

  /** `s.split(v)` for a non-empty separator: cut at each occurrence, leftmost first. */
  function Split(s: string, v: string): (pieces: seq<string>)
    requires v != ""
    ensures |pieces| >= 1
    decreases |s|
  {
    var i := Find(s, v, 0);
    if i == -1 then [s] else [s[..i]] + Split(s[i + |v|..], v)
  }

  function Join(pieces: seq<string>, glue: string): string
    requires |pieces| >= 1
  {
    if |pieces| == 1 then pieces[0] else pieces[0] + glue + Join(pieces[1..], glue)
  }

  lemma SliceOfSlice(s: string, a: int, b: int, c: int, d: int)
    requires 0 <= a <= b <= |s| && 0 <= c <= d <= b - a
    ensures s[a..b][c..d] == s[a + c..a + d]
  {
    var x, y := s[a..b][c..d], s[a + c..a + d];
    forall j | 0 <= j < d - c
      ensures x[j] == y[j]
    {
      assert x[j] == s[a..b][c + j] == s[a + c + j];
    }
  }

  lemma PartOccurs(s: string, a: int, b: int, v: string, k: int)
    requires 0 <= a <= b <= |s|
    ensures OccursAt(s[a..b], v, k) ==> OccursAt(s, v, a + k)
  {
    if OccursAt(s[a..b], v, k) {
      SliceOfSlice(s, a, b, k, k + |v|);
    }
  }

  lemma PartContains(s: string, a: int, b: int, v: string)
    requires 0 <= a <= b <= |s|
    ensures Contains(s[a..b], v) ==> Contains(s, v)
  {
    forall k
      ensures OccursAt(s[a..b], v, k) ==> OccursAt(s, v, a + k)
    {
      PartOccurs(s, a, b, v, k);
    }
  }

  lemma FirstPieceAvoids(s: string, v: string, i: int)
    requires v != "" && 0 <= i <= |s| && forall k :: 0 <= k < i ==> !OccursAt(s, v, k)
    ensures !Contains(s[0..i], v)
  {
    forall k
      ensures !OccursAt(s[0..i], v, k)
    {
      PartOccurs(s, 0, i, v, k);
    }
  }

  lemma CutOut(s: string, i: int, j: int)
    requires 0 <= i <= j <= |s|
    ensures s == s[..i] + s[i..j] + s[j..]
  {
  }

  lemma JoinCons(first: string, rest: seq<string>, glue: string)
    requires |rest| >= 1
    ensures Join([first] + rest, glue) == first + glue + Join(rest, glue)
  {
    assert ([first] + rest)[1..] == rest;
  }

  /** Joining with the separator undoes the split. */
  lemma {:induction false} SplitJoin(s: string, v: string)
    requires v != ""
    ensures Join(Split(s, v), v) == s
    decreases |s|
  {
    var i := Find(s, v, 0);
    if i != -1 {
      var rest := s[i + |v|..];
      SplitJoin(rest, v);
      JoinCons(s[..i], Split(rest, v), v);
      CutOut(s, i, i + |v|);
    }
  }

  lemma {:induction false} PiecesAvoidSeparator(s: string, v: string)
    requires v != ""
    ensures forall piece :: piece in Split(s, v) ==> !Contains(piece, v)
    decreases |s|
  {
    var i := Find(s, v, 0);
    if i != -1 {
      PiecesAvoidSeparator(s[i + |v|..], v);
      FirstPieceAvoids(s, v, i);
      assert s[0..i] == s[..i];
    }
  }

  // ----- Redacting one string

  /** Number of replacements one field makes in `s`. */
  function Occurrences(s: string, f: Field): nat {
    if f.value == "" then 0 else |Split(s, f.value)| - 1
  }

  function Replace(s: string, f: Field): string {
    if f.value == "" then s else Join(Split(s, f.value), Placeholder(f))
  }

  function Redact(s: string, fields: seq<Field>): string
    decreases |fields|
  {
    if fields == [] then s else Redact(Replace(s, fields[0]), fields[1..])
  }

  function Count(s: string, fields: seq<Field>): nat
    decreases |fields|
  {
    if fields == [] then 0 else Occurrences(s, fields[0]) + Count(Replace(s, fields[0]), fields[1..])
  }

  class Counter {
    var count: nat

    constructor ()
      ensures count == 0
    {
      count := 0;
    }
  }

  method RedactStringValue(value: string, fields: seq<Field>, counter: Counter) returns (result: string)
    modifies counter
    ensures result == Redact(value, fields)
    ensures counter.count == old(counter.count) + Count(value, fields)
  {
    result := value;
    for i := 0 to |fields|
      invariant Redact(value, fields) == Redact(result, fields[i..])
      invariant counter.count + Count(result, fields[i..]) == old(counter.count) + Count(value, fields)
    {
      var field := fields[i];
      assert fields[i..][0] == field && fields[i..][1..] == fields[i + 1..];
      if |field.value| == 0 || !Includes(result, field.value) {
        NothingToReplace(result, field);
        continue;
      }
      var occurrences := |Split(result, field.value)| - 1;
      result := Join(Split(result, field.value), Placeholder(field));
      counter.count := counter.count + occurrences;
    }
  }

  lemma NothingToReplace(s: string, f: Field)
    requires f.value == "" || !Contains(s, f.value)
    ensures Replace(s, f) == s && Occurrences(s, f) == 0
  {
    if f.value != "" {
      assert Find(s, f.value, 0) == -1;
    }
  }

  // ----- What one replacement leaves out

  predicate BracketFree(v: string) {
    '[' !in v && ']' !in v
  }

  /** Not part of any placeholder that can come up; a field with an empty value never replaces anything. */
  ghost predicate Clear(v: string, fields: seq<Field>) {
    forall f :: f in fields && f.value != "" ==> !Contains(Placeholder(f), v)
  }

  /** Without brackets a value cannot straddle a placeholder either. */
  ghost predicate Apart(v: string, fields: seq<Field>) {
    BracketFree(v) && Clear(v, fields)
  }

  /** A value without brackets that occurs in x + placeholder + y occurs in one of the three. */
  lemma NoStraddle(x: string, p: string, y: string, v: string)
    requires |p| >= 2 && p[0] == '[' && p[|p| - 1] == ']'
    requires '[' !in v && ']' !in v
    requires Contains(x + p + y, v)
    ensures Contains(x, v) || Contains(p, v) || Contains(y, v)
  {
    var s := x + p + y;
    var i :| OccursAt(s, v, i);
    var open, close := |x|, |x| + |p| - 1;
    assert s[open] == '[' && s[close] == ']';
    assert forall k :: i <= k < i + |v| ==> s[k] == v[k - i];
    assert !(i <= open < i + |v|) && !(i <= close < i + |v|);
    if i + |v| <= open {
      assert OccursAt(x, v, i);
    } else if close < i {
      assert OccursAt(y, v, i - close - 1);
    } else if |v| == 0 {
      assert OccursAt(x, v, 0);
    } else {
      assert OccursAt(p, v, i - open);
    }
  }

  lemma {:induction false} JoinAvoids(pieces: seq<string>, p: string, v: string)
    requires |pieces| >= 1
    requires |p| >= 2 && p[0] == '[' && p[|p| - 1] == ']'
    requires '[' !in v && ']' !in v
    requires !Contains(p, v) && forall piece :: piece in pieces ==> !Contains(piece, v)
    ensures !Contains(Join(pieces, p), v)
  {
    if |pieces| > 1 {
      JoinAvoids(pieces[1..], p, v);
      if Contains(Join(pieces, p), v) {
        NoStraddle(pieces[0], p, Join(pieces[1..], p), v);
      }
    }
  }

  lemma {:induction false} PiecesAvoid(s: string, v: string, w: string)
    requires w != "" && !Contains(s, v)
    ensures forall piece :: piece in Split(s, w) ==> !Contains(piece, v)
    decreases |s|
  {
    var i := Find(s, w, 0);
    if i != -1 {
      var rest := s[i + |w|..];
      PartContains(s, 0, i, v);
      PartContains(s, i + |w|, |s|, v);
      assert s[0..i] == s[..i] && s[i + |w|..|s|] == rest;
      PiecesAvoid(rest, v, w);
    }
  }

  /** A replacement removes its own value and brings no absent value back. */
  lemma ReplaceAvoids(s: string, f: Field, fields: seq<Field>, v: string)
    requires f in fields && Apart(v, fields) && v != ""
    requires v == f.value || !Contains(s, v)
    ensures !Contains(Replace(s, f), v)
  {
    if f.value != "" {
      PiecesAvoidSeparator(s, f.value);
      if v != f.value {
        PiecesAvoid(s, v, f.value);
      }
      JoinAvoids(Split(s, f.value), Placeholder(f), v);
    }
  }

  lemma {:induction false} RedactAvoids(s: string, todo: seq<Field>, fields: seq<Field>, v: string)
    requires forall f :: f in todo ==> f in fields
    requires Apart(v, fields) && v != ""
    requires !Contains(s, v) || exists f :: f in todo && f.value == v
    ensures !Contains(Redact(s, todo), v)
    decreases |todo|
  {
    if todo != [] {
      var f := todo[0];
      if v == f.value || !Contains(s, v) {
        ReplaceAvoids(s, f, fields, v);
      }
      assert forall g :: g in todo[1..] ==> g in todo;
      RedactAvoids(Replace(s, f), todo[1..], fields, v);
    }
  }

  /** Every declared value stays apart from the placeholders. */
  ghost predicate Separable(fields: seq<Field>) {
    forall f :: f in fields ==> f.value == "" || Apart(f.value, fields)
  }

  /** Whatever the order of the fields, a redacted string contains no declared value. */
  lemma NothingDeclaredSurvives(s: string, fields: seq<Field>, order: seq<Field>)
    requires Separable(fields)
    requires multiset(order) == multiset(fields)
    ensures forall f :: f in fields && f.value != "" ==> !Contains(Redact(s, order), f.value)
  {
    SameMembers(order, fields);
    forall f | f in fields && f.value != ""
      ensures !Contains(Redact(s, order), f.value)
    {
      RedactAvoids(s, order, fields, f.value);
    }
  }

  // ----- Exactly when nothing survives

  /** Redaction with these fields, in any order, leaves no declared value in any string. */
  ghost predicate Safe(fields: seq<Field>) {
    forall s, order :: multiset(order) == multiset(fields) ==> NoneLeft(Redact(s, order), fields)
  }

  ghost predicate NoneLeft(s: string, fields: seq<Field>) {
    forall f :: f in fields && f.value != "" ==> !Contains(s, f.value)
  }

  /** Values without brackets, none inside another one. */
  ghost predicate Plain(fields: seq<Field>) {
    && (forall f :: f in fields ==> BracketFree(f.value))
    && (forall i, j :: 0 <= i < |fields| && 0 <= j < |fields| && i != j && fields[j].value != "" ==>
          !Contains(fields[i].value, fields[j].value))
  }

  ghost predicate AllClear(fields: seq<Field>) {
    forall f :: f in fields && f.value != "" ==> Clear(f.value, fields)
  }

  lemma {:induction false} SkipAbsent(s: string, fields: seq<Field>)
    requires NoneLeft(s, fields)
    ensures Redact(s, fields) == s
    decreases |fields|
  {
    if fields != [] {
      NothingToReplace(s, fields[0]);
      assert forall f :: f in fields[1..] ==> f in fields;
      SkipAbsent(s, fields[1..]);
    }
  }

  lemma {:induction false} RedactAppend(s: string, a: seq<Field>, b: seq<Field>)
    ensures Redact(s, a + b) == Redact(Redact(s, a), b)
    decreases |a|
  {
    if a == [] {
      assert a + b == b;
    } else {
      assert (a + b)[1..] == a[1..] + b;
      RedactAppend(Replace(s, a[0]), a[1..], b);
    }
  }

  lemma WholeValue(g: Field)
    requires g.value != ""
    ensures Replace(g.value, g) == Placeholder(g)
  {
    var v := g.value;
    assert OccursAt(v, v, 0);
    assert v[..0] == "" && v[|v|..] == "";
    assert forall i :: !OccursAt("", v, i);
    assert Split(v, v) == [""] + Split("", v) == ["", ""];
    JoinCons("", [""], Placeholder(g));
    assert ["", ""] == [""] + [""];
  }

  /** With field k last, its own value comes out as its placeholder and nothing else touches it. */
  lemma LeakThrough(fields: seq<Field>, k: nat) returns (order: seq<Field>)
    requires Plain(fields) && k < |fields| && fields[k].value != ""
    ensures multiset(order) == multiset(fields) && Redact(fields[k].value, order) == Placeholder(fields[k])
  {
    var g, others := fields[k], fields[..k] + fields[k + 1..];
    order := others + [g];
    assert fields == fields[..k] + [g] + fields[k + 1..];
    forall f | f in others && f.value != ""
      ensures !Contains(g.value, f.value)
    {
      var i :| 0 <= i < |others| && others[i] == f;
      assert f == fields[if i < k then i else i + 1];
    }
    SkipAbsent(g.value, others);
    RedactAppend(g.value, others, [g]);
    WholeValue(g);
    assert [g][1..] == [];
  }

  /**
   For plain values: nothing survives, whatever the string and the order, if and only if no value
   occurs in a placeholder.
   */
  lemma SafeIffClear(fields: seq<Field>)
    requires Plain(fields)
    ensures Safe(fields) <==> AllClear(fields)
  {
    if AllClear(fields) {
      forall s, order | multiset(order) == multiset(fields)
        ensures NoneLeft(Redact(s, order), fields)
      {
        NothingDeclaredSurvives(s, fields, order);
      }
    } else {
      var f, g :| f in fields && g in fields && f.value != "" && g.value != "" && Contains(Placeholder(g), f.value);
      var k :| 0 <= k < |fields| && fields[k] == g;
      var order := LeakThrough(fields, k);
      assert !NoneLeft(Redact(g.value, order), fields);
    }
  }

  /** One such list: a value that every placeholder contains. */
  lemma PlaceholderLeak()
    ensures !Safe([Field("a", "E"), Field("b", "x")])
  {
    var a, b := Field("a", "E"), Field("b", "x");
    var fields := [a, b];
    assert fields[0] == a && fields[1] == b;
    assert "x"[0..1] == "x" && "E"[0..1] == "E";
    assert forall i :: !OccursAt("x", "E", i) && !OccursAt("E", "x", i);
    assert OccursAt(Placeholder(b), "E", 2);
    assert !Clear("E", fields);
    SafeIffClear(fields);
  }

  // ----- Exactly, for a given order, with values nested or not

  predicate Opens(s: string) {
    s != "" && s[0] == '['
  }

  predicate Closes(s: string) {
    s != "" && s[|s| - 1] == ']'
  }

  /** A cut that no value without brackets can straddle. */
  predicate Seam(a: string, b: string) {
    a == "" || b == "" || Closes(a) || Opens(b)
  }

  ghost predicate AllBracketFree(fields: seq<Field>) {
    forall f :: f in fields ==> BracketFree(f.value)
  }

  ghost predicate FirstAt(s: string, v: string, i: int) {
    OccursAt(s, v, i) && forall k :: 0 <= k < i ==> !OccursAt(s, v, k)
  }

  /** A string around the first occurrence of a value. */
  lemma AroundFirst(s: string, v: string) returns (head: string, tail: string)
    requires v != "" && Contains(s, v)
    ensures s == head + v + tail && FirstAt(s, v, |head|)
  {
    var i := Find(s, v, 0);
    head, tail := s[..i], s[i + |v|..];
    CutOut(s, i, i + |v|);
  }

  /** One replacement, then the rest. */
  lemma ReplaceStep(s: string, f: Field, head: string, tail: string)
    requires f.value != "" && s == head + f.value + tail && FirstAt(s, f.value, |head|)
    ensures Replace(s, f) == head + Placeholder(f) + Replace(tail, f)
  {
    var i := Find(s, f.value, 0);
    assert i == |head| && s[..i] == head && s[i + |f.value|..] == tail;
    assert Split(s, f.value) == [head] + Split(tail, f.value);
    JoinCons(head, Split(tail, f.value), Placeholder(f));
  }

  lemma StraddlingHoldsTheSeam(a: string, b: string, v: string, k: int)
    requires 0 <= k < |a| < k + |v|
    ensures OccursAt(a + b, v, k) ==> b != "" && a[|a| - 1] in v && b[0] in v
  {
    if OccursAt(a + b, v, k) {
      assert (a + b)[k..k + |v|][|a| - 1 - k] == a[|a| - 1];
      assert (a + b)[k..k + |v|][|a| - k] == b[0];
    }
  }

  /** An occurrence in a + b lies in a or in b. */
  lemma OccursOnOneSide(a: string, b: string, v: string, k: int)
    requires BracketFree(v) && v != "" && Seam(a, b)
    ensures OccursAt(a + b, v, k) <==> OccursAt(a, v, k) || (|a| <= k && OccursAt(b, v, k - |a|))
  {
    var s := a + b;
    if k < 0 {
    } else if k + |v| <= |a| {
      assert s[k..k + |v|] == a[k..k + |v|];
    } else if k < |a| {
      StraddlingHoldsTheSeam(a, b, v, k);
    } else if k + |v| <= |s| {
      assert s[k..k + |v|] == b[k - |a|..k - |a| + |v|];
    }
  }

  lemma FirstOnTheLeft(a: string, b: string, v: string, i: int)
    requires BracketFree(v) && v != "" && Seam(a, b) && FirstAt(a, v, i)
    ensures FirstAt(a + b, v, i)
  {
    forall k
      ensures OccursAt(a + b, v, k) <==> OccursAt(a, v, k) || (|a| <= k && OccursAt(b, v, k - |a|))
    {
      OccursOnOneSide(a, b, v, k);
    }
  }

  lemma FirstOnTheRight(a: string, b: string, v: string, i: int)
    requires BracketFree(v) && v != "" && Seam(a, b) && !Contains(a, v) && FirstAt(b, v, i)
    ensures FirstAt(a + b, v, |a| + i)
  {
    forall k
      ensures OccursAt(a + b, v, k) <==> OccursAt(a, v, k) || (|a| <= k && OccursAt(b, v, k - |a|))
    {
      OccursOnOneSide(a, b, v, k);
    }
  }

  lemma OnNeitherSide(a: string, b: string, v: string)
    requires BracketFree(v) && v != "" && Seam(a, b) && !Contains(a, v) && !Contains(b, v)
    ensures !Contains(a + b, v)
  {
    forall k
      ensures !OccursAt(a + b, v, k)
    {
      OccursOnOneSide(a, b, v, k);
    }
  }

  lemma Regroup(x: string, p: string, y: string, z: string)
    ensures x + p + (y + z) == (x + p + y) + z
    ensures (x + y) + p + z == x + (y + p + z)
  {
  }

  lemma ReplaceOnTheRight(a: string, b: string, f: Field)
    requires BracketFree(f.value) && f.value != "" && Seam(a, b) && !Contains(a, f.value)
    ensures Replace(a + b, f) == a + Replace(b, f)
  {
    if Contains(b, f.value) {
      var head, tail := AroundFirst(b, f.value);
      FirstOnTheRight(a, b, f.value, |head|);
      Regroup(a, f.value, head, tail);
      ReplaceStep(a + b, f, a + head, tail);
      ReplaceStep(b, f, head, tail);
      Regroup(a, Placeholder(f), head, Replace(tail, f));
    } else {
      OnNeitherSide(a, b, f.value);
      NothingToReplace(a + b, f);
      NothingToReplace(b, f);
    }
  }

  lemma {:induction false} ReplaceConcat(a: string, b: string, f: Field)
    requires BracketFree(f.value) && Seam(a, b)
    ensures Replace(a + b, f) == Replace(a, f) + Replace(b, f)
    decreases |a|
  {
    if f.value != "" {
      if Contains(a, f.value) {
        var head, tail := AroundFirst(a, f.value);
        FirstOnTheLeft(a, b, f.value, |head|);
        Regroup(head, f.value, tail, b);
        ReplaceStep(a + b, f, head, tail + b);
        ReplaceStep(a, f, head, tail);
        assert tail != "" ==> tail[|tail| - 1] == a[|a| - 1];
        ReplaceConcat(tail, b, f);
        Regroup(head, Placeholder(f), Replace(tail, f), Replace(b, f));
      } else {
        ReplaceOnTheRight(a, b, f);
        NothingToReplace(a, f);
      }
    }
  }

  /** A block in brackets stays one. */
  lemma {:induction false} ReplaceKeepsEnds(s: string, f: Field)
    requires BracketFree(f.value)
    ensures Opens(s) ==> Opens(Replace(s, f))
    ensures Closes(s) ==> Closes(Replace(s, f))
    ensures s == "" ==> Replace(s, f) == ""
    decreases |s|
  {
    if f.value != "" && Contains(s, f.value) {
      var head, tail := AroundFirst(s, f.value);
      ReplaceStep(s, f, head, tail);
      EndsAround(head, f.value, tail);
      ReplaceKeepsEnds(tail, f);
      EndsOfThree(head, Placeholder(f), Replace(tail, f));
    } else {
      NothingToReplace(s, f);
    }
  }

  lemma EndsAround(head: string, v: string, tail: string)
    requires BracketFree(v) && v != ""
    ensures Opens(head + v + tail) ==> Opens(head)
    ensures Closes(head + v + tail) ==> Closes(tail)
  {
    var s := head + v + tail;
    assert s[|head|] == v[0] && s[|head| + |v| - 1] == v[|v| - 1];
  }

  lemma EndsOfThree(x: string, p: string, y: string)
    ensures Opens(x) ==> Opens(x + p + y)
    ensures Closes(y) ==> Closes(x + p + y)
  {
  }

  lemma {:induction false} RedactKeepsEnds(s: string, fields: seq<Field>)
    requires AllBracketFree(fields)
    ensures Opens(s) ==> Opens(Redact(s, fields))
    ensures Closes(s) ==> Closes(Redact(s, fields))
    decreases |fields|
  {
    if fields != [] {
      ReplaceKeepsEnds(s, fields[0]);
      RedactKeepsEnds(Replace(s, fields[0]), fields[1..]);
    }
  }

  /** Redaction works on both sides of a seam separately. */
  lemma {:induction false} RedactConcat(a: string, b: string, fields: seq<Field>)
    requires AllBracketFree(fields) && Seam(a, b)
    ensures Redact(a + b, fields) == Redact(a, fields) + Redact(b, fields)
    decreases |fields|
  {
    if fields != [] {
      ReplaceConcat(a, b, fields[0]);
      ReplaceKeepsEnds(a, fields[0]);
      ReplaceKeepsEnds(b, fields[0]);
      RedactConcat(Replace(a, fields[0]), Replace(b, fields[0]), fields[1..]);
    }
  }

  /** Field i finds its own value intact when its turn comes: no earlier value lies inside it. */
  ghost predicate Unmasked(order: seq<Field>, i: nat)
    requires i < |order|
  {
    order[i].value != "" && forall j :: 0 <= j < i && order[j].value != "" ==> !Contains(order[i].value, order[j].value)
  }

  /** What the later fields make of each placeholder that can come up holds no declared value. */
  ghost predicate PlaceholdersClean(order: seq<Field>) {
    forall i: nat :: i < |order| && Unmasked(order, i) ==>
      NoneLeft(Redact(Placeholder(order[i]), order[i + 1..]), order)
  }

  ghost predicate SafeInOrder(order: seq<Field>) {
    forall s :: NoneLeft(Redact(s, order), order)
  }

  /** An unmasked field's own value, as the whole string, comes down to its placeholder and what follows. */
  lemma ValueBecomesPlaceholder(order: seq<Field>, i: nat)
    requires i < |order| && Unmasked(order, i)
    ensures Redact(order[i].value, order) == Redact(Placeholder(order[i]), order[i + 1..])
  {
    var g, before, rest := order[i], order[..i], order[i..];
    assert order == before + rest && rest[0] == g && rest[1..] == order[i + 1..];
    RedactAppend(g.value, before, rest);
    SkipAbsent(g.value, before);
    WholeValue(g);
  }

  lemma ContainsTransitive(s: string, v: string, w: string)
    requires Contains(s, v) && Contains(v, w)
    ensures Contains(s, w)
  {
    var i :| OccursAt(s, v, i);
    PartContains(s, i, i + |v|, w);
  }

  lemma RedactThree(x: string, p: string, y: string, rest: seq<Field>)
    requires AllBracketFree(rest) && Opens(p) && Closes(p)
    ensures Redact(x + p + y, rest) == Redact(x, rest) + Redact(p, rest) + Redact(y, rest)
  {
    EndsOfThree("", x, p);
    assert "" + x + p == x + p;
    RedactConcat(x + p, y, rest);
    RedactConcat(x, p, rest);
  }

  lemma NothingBetween(x: string, q: string, y: string, v: string)
    requires Opens(q) && Closes(q) && BracketFree(v) && !Contains(x, v) && !Contains(q, v) && !Contains(y, v)
    ensures !Contains(x + q + y, v)
  {
    assert q[0] != q[|q| - 1] && |q| >= 2;
    if Contains(x + q + y, v) {
      NoStraddle(x, q, y, v);
    }
  }

  lemma ThreeClean(x: string, p: string, y: string, rest: seq<Field>, v: string)
    requires AllBracketFree(rest) && Opens(p) && Closes(p) && BracketFree(v)
    requires !Contains(Redact(x, rest), v) && !Contains(Redact(p, rest), v) && !Contains(Redact(y, rest), v)
    ensures !Contains(Redact(x + p + y, rest), v)
  {
    RedactThree(x, p, y, rest);
    RedactKeepsEnds(p, rest);
    NothingBetween(Redact(x, rest), Redact(p, rest), Redact(y, rest), v);
  }

  /** Clean pieces around clean placeholders make a clean string. */
  lemma {:induction false} JoinClean(pieces: seq<string>, p: string, rest: seq<Field>, v: string)
    requires |pieces| >= 1 && AllBracketFree(rest) && BracketFree(v)
    requires Opens(p) && Closes(p) && !Contains(Redact(p, rest), v)
    requires forall piece :: piece in pieces ==> !Contains(Redact(piece, rest), v)
    ensures !Contains(Redact(Join(pieces, p), rest), v)
  {
    if |pieces| > 1 {
      JoinClean(pieces[1..], p, rest, v);
      ThreeClean(pieces[0], p, Join(pieces[1..], p), rest, v);
    }
  }

  /** No value of the fields that have had their turn. */
  ghost predicate Past(s: string, order: seq<Field>, i: nat)
    requires i <= |order|
  {
    forall j :: 0 <= j < i && order[j].value != "" ==> !Contains(s, order[j].value)
  }

  lemma {:induction false} CleanFrom(s: string, order: seq<Field>, i: nat)
    requires AllBracketFree(order) && PlaceholdersClean(order) && i <= |order| && Past(s, order, i)
    ensures NoneLeft(Redact(s, order[i..]), order)
    decreases |order| - i, 0
  {
    if i == |order| {
      assert order[i..] == [];
    } else {
      var g, rest := order[i], order[i + 1..];
      assert order[i..][0] == g && order[i..][1..] == rest;
      if g.value == "" || !Contains(s, g.value) {
        NothingToReplace(s, g);
        CleanFrom(s, order, i + 1);
      } else {
        TurnIsUnmasked(s, order, i);
        forall piece | piece in Split(s, g.value)
          ensures NoneLeft(Redact(piece, rest), order)
        {
          CleanPiece(s, order, i, piece);
        }
        assert forall h :: h in rest ==> h in order;
        ReplacedIsClean(s, g, rest, order);
      }
    }
  }

  lemma ReplacedIsClean(s: string, g: Field, rest: seq<Field>, order: seq<Field>)
    requires AllBracketFree(order) && AllBracketFree(rest) && g.value != ""
    requires NoneLeft(Redact(Placeholder(g), rest), order)
    requires forall piece :: piece in Split(s, g.value) ==> NoneLeft(Redact(piece, rest), order)
    ensures NoneLeft(Redact(Replace(s, g), rest), order)
  {
    forall f | f in order && f.value != ""
      ensures !Contains(Redact(Replace(s, g), rest), f.value)
    {
      JoinClean(Split(s, g.value), Placeholder(g), rest, f.value);
    }
  }

  lemma TurnIsUnmasked(s: string, order: seq<Field>, i: nat)
    requires i < |order| && Past(s, order, i) && order[i].value != "" && Contains(s, order[i].value)
    ensures Unmasked(order, i)
  {
    forall j | 0 <= j < i && order[j].value != ""
      ensures !Contains(order[i].value, order[j].value)
    {
      if Contains(order[i].value, order[j].value) {
        ContainsTransitive(s, order[i].value, order[j].value);
      }
    }
  }

  lemma PieceIsPast(s: string, order: seq<Field>, i: nat, piece: string)
    requires i < |order| && Past(s, order, i) && order[i].value != "" && piece in Split(s, order[i].value)
    ensures Past(piece, order, i + 1)
  {
    PiecesAvoidSeparator(s, order[i].value);
    forall j | 0 <= j < i && order[j].value != ""
      ensures !Contains(piece, order[j].value)
    {
      PiecesAvoid(s, order[j].value, order[i].value);
    }
  }

  lemma {:induction false} CleanPiece(s: string, order: seq<Field>, i: nat, piece: string)
    requires AllBracketFree(order) && PlaceholdersClean(order) && i < |order| && Past(s, order, i)
    requires order[i].value != "" && piece in Split(s, order[i].value)
    ensures NoneLeft(Redact(piece, order[i + 1..]), order)
    decreases |order| - i - 1, 1
  {
    PieceIsPast(s, order, i, piece);
    CleanFrom(piece, order, i + 1);
  }

  /**
   For a given order of fields whose values hold no brackets, nested or not: nothing declared survives
   in any string if and only if nothing survives in the placeholders that can come up.
   */
  lemma SafeInOrderIff(order: seq<Field>)
    requires AllBracketFree(order)
    ensures SafeInOrder(order) <==> PlaceholdersClean(order)
  {
    if PlaceholdersClean(order) {
      forall s
        ensures NoneLeft(Redact(s, order), order)
      {
        CleanFrom(s, order, 0);
        assert order[0..] == order;
      }
    }
    if SafeInOrder(order) {
      forall i: nat | i < |order| && Unmasked(order, i)
        ensures NoneLeft(Redact(Placeholder(order[i]), order[i + 1..]), order)
      {
        ValueBecomesPlaceholder(order, i);
        assert NoneLeft(Redact(order[i].value, order), order);
      }
    }
  }

  /** The same for every order at once. */
  lemma SafeIffEveryOrderClean(fields: seq<Field>)
    requires AllBracketFree(fields)
    ensures Safe(fields) <==> forall order :: multiset(order) == multiset(fields) ==> PlaceholdersClean(order)
  {
    forall order | multiset(order) == multiset(fields)
      ensures AllBracketFree(order) && forall s :: NoneLeft(s, order) <==> NoneLeft(s, fields)
      ensures SafeInOrder(order) <==> PlaceholdersClean(order)
    {
      SameMembers(order, fields);
      SafeInOrderIff(order);
    }
    if Safe(fields) {
      forall order | multiset(order) == multiset(fields)
        ensures PlaceholdersClean(order)
      {
        assert forall s :: NoneLeft(Redact(s, order), fields);
      }
    }
    if forall order :: multiset(order) == multiset(fields) ==> PlaceholdersClean(order) {
      forall s, order | multiset(order) == multiset(fields)
        ensures NoneLeft(Redact(s, order), fields)
      {
        assert SafeInOrder(order);
      }
    }
  }

  lemma SameMembers(a: seq<Field>, b: seq<Field>)
    requires multiset(a) == multiset(b)
    ensures forall f :: f in a <==> f in b
  {
    forall f
      ensures f in a <==> f in b
    {
      assert f in multiset(a) <==> f in multiset(b);
    }
  }

  lemma ContainsChar(s: string, v: string)
    requires v != "" && Contains(s, v)
    ensures v[0] in s
  {
    var i :| OccursAt(s, v, i);
    assert s[i] == s[i..i + |v|][0] == v[0];
  }

  lemma AbsentChar(s: string, v: string)
    requires v != "" && v[0] !in s
    ensures !Contains(s, v)
  {
    if Contains(s, v) {
      ContainsChar(s, v);
    }
  }

  lemma HiddenPlaceholderIsClean(h: Field, g: Field)
    requires h == Field("hh", "c") && g == Field("c", "xcx")
    ensures NoneLeft(Redact(Placeholder(h), [g]), [h, g])
  {
    var p := Placeholder(h);
    assert p == "[REDACTED:hh]" && 'c' !in p && 'x' !in p;
    AbsentChar(p, h.value);
    AbsentChar(p, g.value);
    SkipAbsent(p, [g]);
  }

  /** With nesting a value may occur in a placeholder and the order still be safe: that placeholder never comes up. */
  lemma NestingCanHideALeak(h: Field, g: Field)
    requires h == Field("hh", "c") && g == Field("c", "xcx")
    ensures SafeInOrder([h, g]) && !AllClear([h, g])
  {
    var order := [h, g];
    assert order[0] == h && order[1] == g && order[1..] == [g];
    assert OccursAt(g.value, h.value, 1) && !Unmasked(order, 1);
    assert OccursAt(Placeholder(g), h.value, 10) && !Clear(h.value, order);
    HiddenPlaceholderIsClean(h, g);
    SafeInOrderIff(order);
  }

  // ----- The count, by conservation of length

  function TotalLength(pieces: seq<string>): nat {
    if pieces == [] then 0 else |pieces[0]| + TotalLength(pieces[1..])
  }

  lemma {:induction false} JoinLength(pieces: seq<string>, glue: string)
    requires |pieces| >= 1
    ensures |Join(pieces, glue)| == TotalLength(pieces) + (|pieces| - 1) * |glue|
  {
    if |pieces| > 1 {
      JoinLength(pieces[1..], glue);
      assert (|pieces| - 2) * |glue| + |glue| == (|pieces| - 1) * |glue|;
    }
  }

  /** Every counted replacement trades one value for one placeholder, and nothing else changes length. */
  lemma ReplacementsAccountForLength(s: string, f: Field)
    ensures |Replace(s, f)| + Occurrences(s, f) * |f.value| == |s| + Occurrences(s, f) * |Placeholder(f)|
  {
    if f.value != "" {
      var pieces, n := Split(s, f.value), Occurrences(s, f);
      assert |s| == TotalLength(pieces) + n * |f.value| by {
        SplitJoin(s, f.value);
        JoinLength(pieces, f.value);
      }
      assert |Replace(s, f)| == TotalLength(pieces) + n * |Placeholder(f)| by {
        JoinLength(pieces, Placeholder(f));
      }
    }
  }

  // ----- Trees

  /** JSON-shaped input. Numbers, booleans and null are opaque leaves. */
  datatype Json =
    | Text(text: string)
    | Other(tag: int)
    | Array(items: seq<Json>)
    | Object(keys: seq<string>, values: seq<Json>)

  function RedactTree(j: Json, fields: seq<Field>): Json
    decreases j
  {
    match j
    case Text(s) => Text(Redact(s, fields))
    case Other(_) => j
    case Array(items) => Array(RedactAll(items, fields))
    case Object(keys, values) => Object(keys, RedactAll(values, fields))
  }

  function RedactAll(js: seq<Json>, fields: seq<Field>): seq<Json>
    decreases js
  {
    if js == [] then [] else [RedactTree(js[0], fields)] + RedactAll(js[1..], fields)
  }

  function CountTree(j: Json, fields: seq<Field>): nat
    decreases j
  {
    match j
    case Text(s) => Count(s, fields)
    case Other(_) => 0
    case Array(items) => CountAll(items, fields)
    case Object(_, values) => CountAll(values, fields)
  }

  function CountAll(js: seq<Json>, fields: seq<Field>): nat
    decreases js
  {
    if js == [] then 0 else CountTree(js[0], fields) + CountAll(js[1..], fields)
  }

  method RedactValue(value: Json, fields: seq<Field>, counter: Counter) returns (result: Json)
    modifies counter
    ensures result == RedactTree(value, fields)
    ensures counter.count == old(counter.count) + CountTree(value, fields)
    decreases value, 1
  {
    match value {
      case Text(s) =>
        var text := RedactStringValue(s, fields, counter);
        result := Text(text);
      case Array(items) =>
        var redacted := RedactEach(items, fields, counter);
        result := Array(redacted);
      case Object(keys, values) =>
        var redacted := RedactEach(values, fields, counter);
        result := Object(keys, redacted);
      case Other(_) =>
        result := value;
    }
  }

  method RedactEach(js: seq<Json>, fields: seq<Field>, counter: Counter) returns (result: seq<Json>)
    modifies counter
    ensures result == RedactAll(js, fields)
    ensures counter.count == old(counter.count) + CountAll(js, fields)
    decreases js, 0
  {
    result := [];
    for i := 0 to |js|
      invariant result + RedactAll(js[i..], fields) == RedactAll(js, fields)
      invariant counter.count + CountAll(js[i..], fields) == old(counter.count) + CountAll(js, fields)
    {
      assert js[i..][0] == js[i] && js[i..][1..] == js[i + 1..];
      var item := RedactValue(js[i], fields, counter);
      assert result + ([item] + RedactAll(js[i + 1..], fields)) == result + [item] + RedactAll(js[i + 1..], fields);
      result := result + [item];
    }
  }

  /** The string leaves of a tree, left to right. */
  function Leaves(j: Json): seq<string>
    decreases j
  {
    match j
    case Text(s) => [s]
    case Other(_) => []
    case Array(items) => LeavesOf(items)
    case Object(_, values) => LeavesOf(values)
  }

  function LeavesOf(js: seq<Json>): seq<string>
    decreases js
  {
    if js == [] then [] else Leaves(js[0]) + LeavesOf(js[1..])
  }

  /** The tree with every string leaf blanked: its shape, its keys and its other leaves. */
  function Skeleton(j: Json): Json
    decreases j
  {
    match j
    case Text(_) => Text("")
    case Other(_) => j
    case Array(items) => Array(SkeletonOf(items))
    case Object(keys, values) => Object(keys, SkeletonOf(values))
  }

  function SkeletonOf(js: seq<Json>): seq<Json>
    decreases js
  {
    if js == [] then [] else [Skeleton(js[0])] + SkeletonOf(js[1..])
  }

  function RedactStrings(ss: seq<string>, fields: seq<Field>): (r: seq<string>)
    ensures |r| == |ss| && forall k :: 0 <= k < |ss| ==> r[k] == Redact(ss[k], fields)
  {
    seq(|ss|, k requires 0 <= k < |ss| => Redact(ss[k], fields))
  }

  function CountStrings(ss: seq<string>, fields: seq<Field>): nat {
    if ss == [] then 0 else Count(ss[0], fields) + CountStrings(ss[1..], fields)
  }

  lemma RedactStringsConcat(a: seq<string>, b: seq<string>, fields: seq<Field>)
    ensures RedactStrings(a + b, fields) == RedactStrings(a, fields) + RedactStrings(b, fields)
  {
  }

  lemma ConsForest(j: Json, js: seq<Json>)
    ensures SkeletonOf([j] + js) == [Skeleton(j)] + SkeletonOf(js)
    ensures LeavesOf([j] + js) == Leaves(j) + LeavesOf(js)
  {
    assert ([j] + js)[1..] == js;
  }

  lemma {:induction false} CountStringsConcat(a: seq<string>, b: seq<string>, fields: seq<Field>)
    ensures CountStrings(a + b, fields) == CountStrings(a, fields) + CountStrings(b, fields)
  {
    if a == [] {
      assert a + b == b;
    } else {
      assert (a + b)[1..] == a[1..] + b;
      CountStringsConcat(a[1..], b, fields);
    }
  }

  /** Redaction keeps the skeleton, rewrites each string leaf in place, and counts leaf by leaf. */
  lemma {:induction false} RedactionIsLeafwise(j: Json, fields: seq<Field>)
    ensures Skeleton(RedactTree(j, fields)) == Skeleton(j)
    ensures Leaves(RedactTree(j, fields)) == RedactStrings(Leaves(j), fields)
    ensures CountTree(j, fields) == CountStrings(Leaves(j), fields)
    decreases j, 1
  {
    match j
    case Text(s) =>
      assert [s][1..] == [];
    case Other(_) =>
    case Array(items) => RedactAllIsLeafwise(items, fields);
    case Object(_, values) => RedactAllIsLeafwise(values, fields);
  }

  lemma {:induction false} RedactAllIsLeafwise(js: seq<Json>, fields: seq<Field>)
    ensures SkeletonOf(RedactAll(js, fields)) == SkeletonOf(js)
    ensures LeavesOf(RedactAll(js, fields)) == RedactStrings(LeavesOf(js), fields)
    ensures CountAll(js, fields) == CountStrings(LeavesOf(js), fields)
    decreases js, 0
  {
    if js != [] {
      RedactionIsLeafwise(js[0], fields);
      RedactAllIsLeafwise(js[1..], fields);
      CountStringsConcat(Leaves(js[0]), LeavesOf(js[1..]), fields);
      RedactStringsConcat(Leaves(js[0]), LeavesOf(js[1..]), fields);
      ConsForest(RedactTree(js[0], fields), RedactAll(js[1..], fields));
    }
  }

  /** The entry point: a fresh counter, and for separable fields no string leaf keeps a declared value. */
  method RedactModelInput(input: Json, fields: seq<Field>) returns (redacted: Json, redactionCount: nat)
    ensures redacted == RedactTree(input, fields)
    ensures Skeleton(redacted) == Skeleton(input)
    ensures redactionCount == CountStrings(Leaves(input), fields)
    ensures Separable(fields) ==>
              forall k, f :: 0 <= k < |Leaves(redacted)| && f in fields && f.value != "" ==>
                !Contains(Leaves(redacted)[k], f.value)
  {
    var counter := new Counter();
    redacted := RedactValue(input, fields, counter);
    redactionCount := counter.count;
    RedactionIsLeafwise(input, fields);
    if Separable(fields) {
      forall k, f | 0 <= k < |Leaves(redacted)| && f in fields && f.value != ""
        ensures !Contains(Leaves(redacted)[k], f.value)
      {
        NothingDeclaredSurvives(Leaves(input)[k], fields, fields);
      }
    }
  }
}
