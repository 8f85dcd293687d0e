/**
 Walks up the reporting hierarchy: who may own a trigger
 (src/elora/triggers/isOwnershipAssignmentAuthorized.ts) and whose standing rule settles an
 escalation (src/elora/resolveAuthorityWithHierarchy.ts).

 Nothing in the schema forbids cycles in `reports_to_actor_id`, so the reporting map is
 arbitrary here, cycles included.
 */
module Hierarchy {
  import opened Options
  import opened Ordering
  import opened Outcomes

  type Actor = nat

  /** The actors rows: absent, without superior, or with one. */
  type Reporting = map<Actor, Option<Actor>>

  function Superior(reports: Reporting, a: Actor): Option<Actor> {
    if a in reports then reports[a] else None
  }

  // ----- What the walks are about: following superiors n times

  ghost function Climb(reports: Reporting, a: Actor, n: nat): Option<Actor> {
    if n == 0 then Some(a)
    else match Climb(reports, a, n - 1)
      case None => None
      case Some(b) => Superior(reports, b)
  }

  /** `b` stands somewhere above `a`, by one step or more. */
  ghost predicate Above(reports: Reporting, b: Actor, a: Actor) {
    exists n: nat :: n >= 1 && Climb(reports, a, n) == Some(b)
  }

  /** Each actor of the chain reports, by its row, to the next one. */
  ghost predicate Chain(reports: Reporting, chain: seq<Actor>) {
    forall i :: 0 <= i < |chain| - 1 ==> chain[i] in reports && reports[chain[i]] == Some(chain[i + 1])
  }

  ghost predicate ChainFrom(reports: Reporting, a: Actor, b: Actor, chain: seq<Actor>) {
    |chain| >= 2 && chain[0] == a && chain[|chain| - 1] == b && Chain(reports, chain)
  }

  lemma {:induction false} ClimbMakesChain(reports: Reporting, a: Actor, n: nat) returns (chain: seq<Actor>)
    requires Climb(reports, a, n).Some?
    ensures |chain| == n + 1 && chain[0] == a && chain[n] == Climb(reports, a, n).value && Chain(reports, chain)
  {
    if n == 0 {
      chain := [a];
    } else {
      chain := ClimbMakesChain(reports, a, n - 1);
      chain := chain + [Climb(reports, a, n).value];
    }
  }

  lemma {:induction false} ChainIsClimbed(reports: Reporting, chain: seq<Actor>, n: nat)
    requires Chain(reports, chain) && n < |chain|
    ensures Climb(reports, chain[0], n) == Some(chain[n])
  {
    if n > 0 {
      ChainIsClimbed(reports, chain, n - 1);
    }
  }

  /** Standing above somebody is being at the upper end of a chain of rows. */
  lemma AboveIffChain(reports: Reporting, b: Actor, a: Actor)
    ensures Above(reports, b, a) <==> exists chain :: ChainFrom(reports, a, b, chain)
  {
    if Above(reports, b, a) {
      var n: nat :| n >= 1 && Climb(reports, a, n) == Some(b);
      var chain := ClimbMakesChain(reports, a, n);
      assert ChainFrom(reports, a, b, chain);
    }
    if chain :| ChainFrom(reports, a, b, chain) {
      ChainIsClimbed(reports, chain, |chain| - 1);
    }
  }

  /** Nobody in `s` reports to anybody outside it. */
  ghost predicate ClosedUpwards(reports: Reporting, s: set<Actor>) {
    forall v {:trigger Superior(reports, v)} :: v in s && Superior(reports, v).Some? ==> Superior(reports, v).value in s
  }

  lemma {:induction false} ClimbStaysInside(reports: Reporting, s: set<Actor>, a: Actor, n: nat)
    requires a in s && ClosedUpwards(reports, s)
    ensures Climb(reports, a, n).Some? ==> Climb(reports, a, n).value in s
  {
    if n > 0 {
      ClimbStaysInside(reports, s, a, n - 1);
    }
  }

  /** Everybody a walk from `a` can meet. */
  ghost function Universe(reports: Reporting, a: Actor): set<Actor> {
    {a} + set b | b in reports && reports[b].Some? :: reports[b].value
  }

  /** A walk of n steps from `start` has met `visited`, and only `current`'s superior is still unknown. */
  ghost predicate Walked(reports: Reporting, start: Actor, current: Actor, n: nat, visited: set<Actor>) {
    && Climb(reports, start, n) == Some(current)
    && start in visited && current in visited
    && visited <= Universe(reports, start)
    && (forall k: nat :: k <= n ==> Climb(reports, start, k).Some? && Climb(reports, start, k).value in visited)
    && (forall v {:trigger Superior(reports, v)} :: v in visited && v != current && Superior(reports, v).Some? ==>
      Superior(reports, v).value in visited)
  }

  lemma WalkOn(reports: Reporting, start: Actor, current: Actor, n: nat, visited: set<Actor>, superior: Actor)
    requires Walked(reports, start, current, n, visited) && Superior(reports, current) == Some(superior)
    requires superior !in visited
    ensures Walked(reports, start, superior, n + 1, visited + {superior})
    ensures |Universe(reports, start) - visited - {superior}| < |Universe(reports, start) - visited|
  {
    assert Climb(reports, start, n + 1) == Some(superior);
    var rest := Universe(reports, start) - visited;
    assert rest == (rest - {superior}) + {superior};
  }

  // ----- isOwnershipAssignmentAuthorized

  /** Authorised exactly when the creator is the owner or stands above the owner. */
  method IsOwnershipAssignmentAuthorized(reports: Reporting, creator: Actor, owner: Actor) returns (ok: bool)
    ensures ok <==> creator == owner || Above(reports, creator, owner)
  {
    if creator == owner {
      return true;
    }
    var visited, current := {owner}, owner;
    ghost var n := 0;
    while true
      invariant Walked(reports, owner, current, n, visited)
      invariant creator !in visited
      decreases |Universe(reports, owner) - visited|
    {
      var superior := Superior(reports, current);
      if superior == None {
        AllClimbsInside(reports, owner, visited);
        return false;
      }
      if superior.value == creator {
        assert Climb(reports, owner, n + 1) == Some(creator);
        return true;
      }
      if superior.value in visited {
        AllClimbsInside(reports, owner, visited);
        return false;
      }
      WalkOn(reports, owner, current, n, visited, superior.value);
      ghost var rest := Universe(reports, owner) - visited;
      assert Universe(reports, owner) - (visited + {superior.value}) == rest - {superior.value};
      visited := visited + {superior.value};
      current, n := superior.value, n + 1;
    }
  }

  lemma AllClimbsInside(reports: Reporting, a: Actor, s: set<Actor>)
    requires a in s && ClosedUpwards(reports, s)
    ensures forall n: nat :: Climb(reports, a, n).Some? ==> Climb(reports, a, n).value in s
  {
    forall n: nat
      ensures Climb(reports, a, n).Some? ==> Climb(reports, a, n).value in s
    {
      ClimbStaysInside(reports, s, a, n);
    }
  }

  /** In an acyclic hierarchy nobody can hand a trigger to somebody above them. */
  lemma NeverToASuperior(reports: Reporting, creator: Actor, owner: Actor)
    requires Above(reports, owner, creator) && !Above(reports, creator, creator)
    ensures !(creator == owner || Above(reports, creator, owner))
  {
    var n: nat :| n >= 1 && Climb(reports, creator, n) == Some(owner);
    forall m: nat
      ensures !(m >= 1 && Climb(reports, owner, m) == Some(creator))
    {
      ClimbAdds(reports, creator, n, m);
    }
  }

  lemma {:induction false} ClimbAdds(reports: Reporting, a: Actor, n: nat, m: nat)
    requires Climb(reports, a, n).Some?
    ensures Climb(reports, a, n + m) == Climb(reports, Climb(reports, a, n).value, m)
  {
    if m > 0 {
      ClimbAdds(reports, a, n, m - 1);
    }
  }

  // ----- Standing rules

  datatype Polarity = Approve | Deny
  datatype RuleStatus = Active | Inactive
  datatype Criteria = Criteria(contentPattern: Option<string>, taskType: Option<string>)
  datatype Rule = Rule(id: nat, scopeActor: Actor, polarity: Polarity, status: RuleStatus, createdAt: int,
    criteria: Criteria)

  /** What a regular expression says about the message; it may also fail to compile. */
  type Tester = string -> Option<bool>

  predicate MatchesCriteria(c: Criteria, taskType: string, test: Tester) {
    && (c.taskType.Some? ==> c.taskType.value == taskType)
    && c.contentPattern.Some? && c.contentPattern.value != ""
    && test(c.contentPattern.value) == Some(true)
  }

  predicate Selected(rule: Rule, actor: Actor) {
    rule.scopeActor == actor && rule.polarity == Approve && rule.status == Active
  }

  /** Rule number p lets `actor` approve this message. */
  predicate Usable(rules: seq<Rule>, p: nat, actor: Actor, taskType: string, test: Tester) {
    p < |rules| && Selected(rules[p], actor) && MatchesCriteria(rules[p].criteria, taskType, test)
  }

  /** An active approve rule of this actor, for any or this task type, whose pattern is there and matches. */
  lemma UsableIff(rules: seq<Rule>, p: nat, actor: Actor, taskType: string, test: Tester)
    ensures Usable(rules, p, actor, taskType, test) <==>
      && p < |rules| && rules[p].scopeActor == actor && rules[p].polarity == Approve && rules[p].status == Active
      && rules[p].criteria.taskType in {None, Some(taskType)}
      && rules[p].criteria.contentPattern !in {None, Some("")}
      && test(rules[p].criteria.contentPattern.value) == Some(true)
  {
  }

  ghost predicate HasUsable(rules: seq<Rule>, actor: Actor, taskType: string, test: Tester) {
    exists p: nat :: Usable(rules, p, actor, taskType, test)
  }

  /** ... and no usable rule of the same actor is older. */
  ghost predicate Earliest(rules: seq<Rule>, p: nat, actor: Actor, taskType: string, test: Tester) {
    && Usable(rules, p, actor, taskType, test)
    && forall q: nat :: Usable(rules, q, actor, taskType, test) ==> rules[p].createdAt <= rules[q].createdAt
  }

  function ByAge(rules: seq<Rule>): Order {
    (p: nat, q: nat) =>
      p < |rules| && q < |rules| && (rules[p].createdAt < rules[q].createdAt
      || (rules[p].createdAt == rules[q].createdAt && p < q))
  }

  /** The rows of one superior, oldest first; rows of one instant in table order. */
  method SelectRules(rules: seq<Rule>, actor: Actor) returns (rows: seq<nat>)
    ensures forall p: nat :: p in rows <==> p < |rules| && Selected(rules[p], actor)
    ensures forall i, j :: 0 <= i < j < |rows| ==> ByAge(rules)(rows[i], rows[j])
  {
    var found: seq<nat> := [];
    for p := 0 to |rules|
      invariant Distinct(found)
      invariant forall q: nat :: q in found <==> q < p && Selected(rules[q], actor)
    {
      if Selected(rules[p], actor) {
        found := found + [p];
      }
    }
    assert forall p :: p in Elements(found) ==> p in found;
    SortArranges(found, ByAge(rules));
    rows := Sort(found, ByAge(rules));
    assert forall p :: p in Elements(rows) <==> p in Elements(found);
    assert forall p :: p in rows <==> p in Elements(rows);
    assert forall p :: p in found <==> p in Elements(found);
  }

  method FindRule(rules: seq<Rule>, actor: Actor, taskType: string, test: Tester) returns (found: Option<nat>)
    ensures found.Some? <==> HasUsable(rules, actor, taskType, test)
    ensures found.Some? ==> Earliest(rules, found.value, actor, taskType, test)
  {
    var rows := SelectRules(rules, actor);
    assert forall k :: 0 <= k < |rows| ==> rows[k] in rows;
    for i := 0 to |rows|
      invariant forall k :: 0 <= k < i ==> !Usable(rules, rows[k], actor, taskType, test)
    {
      if MatchesCriteria(rules[rows[i]].criteria, taskType, test) {
        forall q: nat | Usable(rules, q, actor, taskType, test)
          ensures rules[rows[i]].createdAt <= rules[q].createdAt
        {
          assert q in rows;
          var k :| 0 <= k < |rows| && rows[k] == q;
          assert k == i || ByAge(rules)(rows[i], rows[k]);
        }
        assert Usable(rules, rows[i], actor, taskType, test);
        return Some(rows[i]);
      }
    }
    assert forall q: nat :: Usable(rules, q, actor, taskType, test) ==> q in rows;
    return None;
  }

  // ----- resolveAuthorityWithHierarchy

  datatype Authority = Authority(outcome: Outcome, gatekeeper: bool, risk: string, floorProtected: bool,
    viaRule: Option<nat>)

  ghost predicate Ordinary(baseline: Authority) {
    baseline.outcome == Escalate && !baseline.floorProtected
  }

  /**
   Rule number p settles the escalation: it is the earliest usable rule of the superior n steps
   up, who is not the starting actor, and no superior in between has a usable rule.
   */
  ghost predicate Settles(reports: Reporting, rules: seq<Rule>, start: Actor, taskType: string, test: Tester, n: nat,
        p: nat) {
    && n >= 1 && Climb(reports, start, n).Some? && Climb(reports, start, n) != Some(start)
    && Earliest(rules, p, Climb(reports, start, n).value, taskType, test)
    && forall k: nat :: 1 <= k < n ==>
      && Climb(reports, start, k).Some? && Climb(reports, start, k) != Some(start)
      && !HasUsable(rules, Climb(reports, start, k).value, taskType, test)
  }

  /** Some actor above the starting one, other than itself, could settle it. */
  ghost predicate CanBeSettled(reports: Reporting, rules: seq<Rule>, start: Actor, taskType: string, test: Tester) {
    exists a :: a != start && Above(reports, a, start) && HasUsable(rules, a, taskType, test)
  }

  /** Everybody met so far, the starting actor apart, has no usable rule. */
  ghost predicate NoneSettles(reports: Reporting, rules: seq<Rule>, start: Actor, n: nat, visited: set<Actor>,
        taskType: string, test: Tester) {
    && (forall k: nat :: 1 <= k <= n ==> Climb(reports, start, k) != Some(start))
    && (forall v :: v in visited && v != start ==> !HasUsable(rules, v, taskType, test))
  }

  lemma NobodyLeft(reports: Reporting, rules: seq<Rule>, start: Actor, current: Actor, n: nat, visited: set<Actor>,
        taskType: string, test: Tester)
    requires Walked(reports, start, current, n, visited)
    requires NoneSettles(reports, rules, start, n, visited, taskType, test)
    requires Superior(reports, current) == None || Superior(reports, current).value in visited
    ensures !CanBeSettled(reports, rules, start, taskType, test)
  {
    AllClimbsInside(reports, start, visited);
  }

  lemma NextSettles(reports: Reporting, rules: seq<Rule>, start: Actor, current: Actor, n: nat, visited: set<Actor>,
        taskType: string, test: Tester, superior: Actor, p: nat)
    requires Walked(reports, start, current, n, visited)
    requires NoneSettles(reports, rules, start, n, visited, taskType, test)
    requires Superior(reports, current) == Some(superior) && superior !in visited
    requires Earliest(rules, p, superior, taskType, test)
    ensures Settles(reports, rules, start, taskType, test, n + 1, p)
    ensures CanBeSettled(reports, rules, start, taskType, test)
  {
    assert Climb(reports, start, n + 1) == Some(superior);
    assert Above(reports, superior, start);
    assert HasUsable(rules, superior, taskType, test);
  }

  /** The loop over successive superiors. */
  method WalkForRule(reports: Reporting, rules: seq<Rule>, start: Actor, taskType: string, test: Tester)
      returns (found: Option<nat>, ghost steps: nat)
    ensures found.Some? <==> CanBeSettled(reports, rules, start, taskType, test)
    ensures found.Some? ==> Settles(reports, rules, start, taskType, test, steps, found.value)
  {
    var current, visited := start, {start};
    steps := 0;
    while true
      invariant Walked(reports, start, current, steps, visited)
      invariant NoneSettles(reports, rules, start, steps, visited, taskType, test)
      decreases |Universe(reports, start) - visited|
    {
      var superior := Superior(reports, current);
      if superior == None || superior.value in visited {
        NobodyLeft(reports, rules, start, current, steps, visited, taskType, test);
        return None, steps;
      }
      var matched := FindRule(rules, superior.value, taskType, test);
      if matched.Some? {
        NextSettles(reports, rules, start, current, steps, visited, taskType, test, superior.value, matched.value);
        return matched, steps + 1;
      }
      WalkOn(reports, start, current, steps, visited, superior.value);
      ghost var rest := Universe(reports, start) - visited;
      assert Universe(reports, start) - (visited + {superior.value}) == rest - {superior.value};
      visited := visited + {superior.value};
      current, steps := superior.value, steps + 1;
    }
  }

  method ResolveAuthority(baseline: Authority, reports: Reporting, rules: seq<Rule>, start: Actor, taskType: string,
        test: Tester)
      returns (r: Authority, ghost steps: nat, ghost rule: nat)
    ensures !Ordinary(baseline) ==> r == baseline.(viaRule := None)
    ensures Ordinary(baseline) ==> (r.outcome == ActAndReport <==> CanBeSettled(reports, rules, start, taskType, test))
    ensures Ordinary(baseline) && r.outcome == ActAndReport ==>
      Settles(reports, rules, start, taskType, test, steps, rule)
        && r == Authority(ActAndReport, false, baseline.risk, false, Some(rules[rule].id))
    ensures Ordinary(baseline) && r.outcome != ActAndReport ==> r == baseline.(viaRule := None)
  {
    r, steps, rule := baseline.(viaRule := None), 0, 0;
    if baseline.outcome != Escalate || baseline.floorProtected {
      return;
    }
    var found;
    found, steps := WalkForRule(reports, rules, start, taskType, test);
    if found.Some? {
      rule := found.value;
      r := Authority(ActAndReport, false, baseline.risk, false, Some(rules[found.value].id));
    }
  }

  /** The settling superior and the age of the settling rule are determined by the tables alone. */
  lemma SettlingIsDetermined(reports: Reporting, rules: seq<Rule>, start: Actor, taskType: string, test: Tester,
        n: nat, p: nat, n': nat, p': nat)
    requires Settles(reports, rules, start, taskType, test, n, p)
    requires Settles(reports, rules, start, taskType, test, n', p')
    ensures n == n' && rules[p].scopeActor == rules[p'].scopeActor && rules[p].createdAt == rules[p'].createdAt
  {
  }
}
