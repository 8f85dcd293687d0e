/**
 The tool gateway (src/tools/gateway.ts): any number of concurrent calls, beside the WorkOrder
 machine that decides what they may do. Every write may succeed, fail without effect, or commit
 and be reported as failed; a call may crash anywhere.
 */
module Gateway {
  import opened Options
  import opened Outcomes
  import opened Keys
  import W = WorkOrders

  datatype Tier = NeedsActAndReport | NeedsAct

  /** Tool registrations do not change; a tool is known by name and version. */
  type Registry = (string, string) -> Tier

  datatype Key = Key(order: Uuid, tool: string, version: string)

  /** The idempotency key says which WorkOrder, tool and version it is for; only the version may hold colons. */
  lemma KeyTextNamesTheCall(tenant: Uuid, k: Key, l: Key)
    requires ColonFree(k.tool) && ColonFree(l.tool)
    ensures Join([tenant, k.order, k.tool, k.version]) == Join([tenant, l.order, l.tool, l.version]) ==> k == l
  {
    var a, b := [tenant, k.order, k.tool, k.version], [tenant, l.order, l.tool, l.version];
    if Join(a) == Join(b) {
      KeyDeterminesParts(a, b, 3);
      assert a[1] == b[1] && a[2] == b[2] && a[3] == b[3];
    }
  }

  // ----- Authority

  /** The outcome of the decision the WorkOrder is linked to. */
  function LinkedOutcome(work: W.State, o: Uuid): Option<Outcome> {
    if o in work.orders && work.orders[o].decision.Some? && work.orders[o].decision.value in work.decisions
    then Some(work.decisions[work.orders[o].decision.value].outcome) else None
  }

  function Rank(outcome: Outcome): nat {
    match outcome
    case Act => 2
    case ActAndReport => 1
    case _ => 0
  }

  predicate Authorised(registry: Registry, work: W.State, k: Key) {
    match LinkedOutcome(work, k.order)
    case None => false
    case Some(outcome) =>
      (outcome == Act || outcome == ActAndReport)
      && Rank(outcome) >= (if registry(k.tool, k.version) == NeedsAct then 2 else 1)
  }

  /** The WorkOrder links to this decision row. */
  ghost predicate LinkedTo(work: W.State, o: Uuid, d: Uuid) {
    o in work.orders && work.orders[o].decision == Some(d) && d in work.decisions
  }

  /**
   Who may run what, by the decision row the WorkOrder links to: `act` may run every tool,
   `act_and_report` those that ask for no more, nobody else anything.
   */
  ghost predicate MayRun(registry: Registry, work: W.State, k: Key) {
    exists d :: LinkedTo(work, k.order, d)
      && (work.decisions[d].outcome == Act
        || (work.decisions[d].outcome == ActAndReport && registry(k.tool, k.version) == NeedsActAndReport))
  }

  lemma AuthorisedIff(registry: Registry, work: W.State, k: Key)
    ensures Authorised(registry, work, k) <==> MayRun(registry, work, k)
    ensures LinkedOutcome(work, k.order).Some? <==> exists d :: LinkedTo(work, k.order, d)
  {
    if k.order in work.orders && work.orders[k.order].decision.Some?
      && work.orders[k.order].decision.value in work.decisions {
      assert LinkedTo(work, k.order, work.orders[k.order].decision.value);
    }
  }

  // ----- Calls

  datatype Status = Pending | Succeeded | Failed

  /** `runs` counts handler executions and `leaves` the times the status left pending. */
  datatype Invocation = Invocation(id: Uuid, status: Status, runs: nat, leaves: nat)

  datatype Pc =
    | Verifying | Verified | Replaying | Validating | Executing
    | Marking(status: Status) | Returned(id: Uuid, status: Status) | Raised

  datatype Call = Call(key: Key, pc: Pc)

  datatype State = State(work: W.State, invocations: map<Key, Invocation>, calls: map<nat, Call>)

  datatype Op =
    | Start(c: nat, key: Key)
    | Verify(c: nat)
    | Insert(c: nat, id: Uuid, fate: Fate)
    | Replay(c: nat)
    | Validate(c: nat, valid: bool)
    | Execute(c: nat, good: bool)
    | Mark(c: nat, fate: Fate)
    | Crash(c: nat)
    | WorkOp(op: W.Op)

  function Goto(s: State, c: nat, pc: Pc): State
    requires c in s.calls
  {
    s.(calls := s.calls[c := s.calls[c].(pc := pc)])
  }

  function Put(s: State, k: Key, row: Invocation): State {
    s.(invocations := s.invocations[k := row])
  }

  predicate IdTaken(rows: map<Key, Invocation>, id: Uuid) {
    exists k :: k in rows && rows[k].id == id
  }

  /** A taken key is a conflict to do nothing about; a taken id is an error. */
  function InsertStep(s: State, c: nat, id: Uuid, fate: Fate): State
    requires c in s.calls
  {
    var k := s.calls[c].key;
    if k in s.invocations then Goto(s, c, if fate == Heard then Replaying else Raised)
    else if IdTaken(s.invocations, id) then Goto(s, c, Raised)
    else
      match fate
      case Heard => Goto(Put(s, k, Invocation(id, Pending, 0, 0)), c, Validating)
      case Lost => Goto(s, c, Raised)
      case Unheard => Goto(Put(s, k, Invocation(id, Pending, 0, 0)), c, Raised)
  }

  function ExecuteStep(s: State, c: nat, good: bool): State
    requires c in s.calls && s.calls[c].key in s.invocations
  {
    var k := s.calls[c].key;
    Goto(Put(s, k, s.invocations[k].(runs := s.invocations[k].runs + 1)), c,
      Marking(if good then Succeeded else Failed))
  }

  function MarkStep(s: State, c: nat, fate: Fate): State
    requires c in s.calls && s.calls[c].key in s.invocations && s.calls[c].pc.Marking?
  {
    var k, status := s.calls[c].key, s.calls[c].pc.status;
    var row := s.invocations[k];
    var s1 := Put(s, k, row.(status := status, leaves := row.leaves + 1));
    match fate
    case Heard => Goto(s1, c, Returned(row.id, status))
    case Lost => Goto(s, c, Raised)
    case Unheard => Goto(s1, c, Raised)
  }

  predicate At(s: State, c: nat, pc: Pc) {
    c in s.calls && s.calls[c].pc == pc
  }

  predicate Stored(s: State, c: nat) {
    c in s.calls && s.calls[c].key in s.invocations
  }

  function Step(registry: Registry, s: State, op: Op): State {
    match op
    case Start(c, key) => if c in s.calls then s else s.(calls := s.calls[c := Call(key, Verifying)])
    case Verify(c) =>
      if At(s, c, Verifying) then Goto(s, c, if Authorised(registry, s.work, s.calls[c].key) then Verified else Raised)
      else s
    case Insert(c, id, fate) => if At(s, c, Verified) then InsertStep(s, c, id, fate) else s
    case Replay(c) =>
      if At(s, c, Replaying) && Stored(s, c)
      then Goto(s, c, Returned(s.invocations[s.calls[c].key].id, s.invocations[s.calls[c].key].status)) else s
    case Validate(c, valid) =>
      if At(s, c, Validating) then Goto(s, c, if valid then Executing else Marking(Failed)) else s
    case Execute(c, good) => if At(s, c, Executing) && Stored(s, c) then ExecuteStep(s, c, good) else s
    case Mark(c, fate) => if Stored(s, c) && s.calls[c].pc.Marking? then MarkStep(s, c, fate) else s
    case Crash(c) => if c in s.calls && !s.calls[c].pc.Returned? then s.(calls := s.calls - {c}) else s
    case WorkOp(op) => s.(work := W.Step(s.work, op))
  }

  function After(registry: Registry, tenant: Uuid, ops: seq<Op>): State {
    if ops == [] then State(W.After(tenant, []), map[], map[])
    else Step(registry, After(registry, tenant, ops[..|ops| - 1]), ops[|ops| - 1])
  }

  // ----- The invariant

  predicate Owns(pc: Pc) {
    pc.Validating? || pc.Executing? || pc.Marking?
  }

  ghost predicate RowOk(registry: Registry, s: State, k: Key)
    requires k in s.invocations
  {
    var row := s.invocations[k];
    && Authorised(registry, s.work, k)
    && row.runs <= 1 && row.leaves <= 1
    && (row.status == Pending <==> row.leaves == 0)
    && (row.status == Succeeded ==> row.runs == 1)
  }

  ghost predicate CallOk(registry: Registry, s: State, c: nat)
    requires c in s.calls
  {
    var Call(k, pc) := s.calls[c];
    && (pc == Verified ==> Authorised(registry, s.work, k))
    && (pc == Replaying ==> k in s.invocations)
    && (Owns(pc) ==> k in s.invocations && s.invocations[k].status == Pending)
    && (pc == Validating || pc == Executing ==> s.invocations[k].runs == 0)
    && (pc.Marking? ==> pc.status != Pending && (pc.status == Succeeded ==> s.invocations[k].runs == 1))
    && (pc.Returned? ==>
      k in s.invocations && pc.id == s.invocations[k].id
      && (pc.status == Pending || pc.status == s.invocations[k].status))
  }

  ghost predicate OneOwner(s: State) {
    forall c, d ::
      && c in s.calls && d in s.calls
      && Owns(s.calls[c].pc) && Owns(s.calls[d].pc) && s.calls[c].key == s.calls[d].key
      ==> c == d
  }

  ghost predicate UniqueIds(rows: map<Key, Invocation>) {
    forall k, l :: k in rows && l in rows && rows[k].id == rows[l].id ==> k == l
  }

  ghost predicate Inv(registry: Registry, s: State) {
    && W.Inv(s.work) && UniqueIds(s.invocations)
    && (forall k {:trigger RowOk(registry, s, k)} :: k in s.invocations ==> RowOk(registry, s, k))
    && (forall c {:trigger CallOk(registry, s, c)} :: c in s.calls ==> CallOk(registry, s, c))
    && OneOwner(s)
  }

  // ----- Every step keeps it

  /** A call that changes at most the row it owns, or inserts the row of its key. */
  lemma CallStepKeeps(registry: Registry, s: State, s': State, c: nat)
    requires Inv(registry, s) && c in s.calls && s'.work == s.work && s'.calls.Keys == s.calls.Keys
    requires forall d :: d in s.calls && d != c ==> s'.calls[d] == s.calls[d]
    requires s'.calls[c].key == s.calls[c].key
    requires forall k :: k in s.invocations ==>
      k in s'.invocations && (k != s.calls[c].key ==> s'.invocations[k] == s.invocations[k])
    requires forall k :: k in s'.invocations && k !in s.invocations ==> k == s.calls[c].key
    requires s.calls[c].key in s.invocations && s'.invocations[s.calls[c].key] != s.invocations[s.calls[c].key] ==>
      Owns(s.calls[c].pc) && s'.invocations[s.calls[c].key].id == s.invocations[s.calls[c].key].id
    requires s.calls[c].key in s'.invocations ==> RowOk(registry, s', s.calls[c].key)
    requires CallOk(registry, s', c) && UniqueIds(s'.invocations)
    requires Owns(s'.calls[c].pc) ==> Owns(s.calls[c].pc) || s.calls[c].key !in s.invocations
    ensures Inv(registry, s')
  {
    forall k {:trigger RowOk(registry, s', k)} | k in s'.invocations
      ensures RowOk(registry, s', k)
    {
      if k != s.calls[c].key {
        assert RowOk(registry, s, k);
      }
    }
    forall d {:trigger CallOk(registry, s', d)} | d in s'.calls
      ensures CallOk(registry, s', d)
    {
      assert CallOk(registry, s, d) && CallOk(registry, s, c);
    }
    forall d, e | d in s'.calls && e in s'.calls && Owns(s'.calls[d].pc) && Owns(s'.calls[e].pc)
      && s'.calls[d].key == s'.calls[e].key
      ensures d == e
    {
      assert CallOk(registry, s, d) && CallOk(registry, s, e);
    }
  }

  /** A call that only moves on. */
  lemma GotoKeeps(registry: Registry, s: State, c: nat, pc: Pc)
    requires Inv(registry, s) && c in s.calls && CallOk(registry, Goto(s, c, pc), c)
    requires Owns(pc) ==> Owns(s.calls[c].pc)
    ensures Inv(registry, Goto(s, c, pc))
  {
    if s.calls[c].key in s.invocations {
      assert RowOk(registry, s, s.calls[c].key);
    }
    CallStepKeeps(registry, s, Goto(s, c, pc), c);
  }

  lemma NewRowKeeps(registry: Registry, s: State, c: nat, id: Uuid, pc: Pc)
    requires Inv(registry, s) && At(s, c, Verified) && s.calls[c].key !in s.invocations && !IdTaken(s.invocations, id)
    requires pc == Validating || pc == Raised
    ensures Inv(registry, Goto(Put(s, s.calls[c].key, Invocation(id, Pending, 0, 0)), c, pc))
  {
    var s' := Goto(Put(s, s.calls[c].key, Invocation(id, Pending, 0, 0)), c, pc);
    assert CallOk(registry, s, c);
    assert RowOk(registry, s', s.calls[c].key);
    CallStepKeeps(registry, s, s', c);
  }

  lemma InsertKeeps(registry: Registry, s: State, c: nat, id: Uuid, fate: Fate)
    requires Inv(registry, s) && At(s, c, Verified)
    ensures Inv(registry, InsertStep(s, c, id, fate))
  {
    assert CallOk(registry, s, c);
    GotoKeeps(registry, s, c, Raised);
    if s.calls[c].key in s.invocations {
      GotoKeeps(registry, s, c, Replaying);
    } else if !IdTaken(s.invocations, id) {
      NewRowKeeps(registry, s, c, id, Validating);
      NewRowKeeps(registry, s, c, id, Raised);
    }
  }

  lemma ExecuteKeeps(registry: Registry, s: State, c: nat, good: bool)
    requires Inv(registry, s) && At(s, c, Executing) && Stored(s, c)
    ensures Inv(registry, ExecuteStep(s, c, good))
  {
    assert CallOk(registry, s, c) && RowOk(registry, s, s.calls[c].key);
    CallStepKeeps(registry, s, ExecuteStep(s, c, good), c);
  }

  lemma MarkKeeps(registry: Registry, s: State, c: nat, fate: Fate)
    requires Inv(registry, s) && Stored(s, c) && s.calls[c].pc.Marking?
    ensures Inv(registry, MarkStep(s, c, fate))
  {
    assert CallOk(registry, s, c) && RowOk(registry, s, s.calls[c].key);
    CallStepKeeps(registry, s, MarkStep(s, c, fate), c);
  }

  lemma MoveKeeps(registry: Registry, s: State, op: Op)
    requires Inv(registry, s) && (op.Verify? || op.Replay? || op.Validate?) && op.c in s.calls
    ensures Inv(registry, Step(registry, s, op))
  {
    assert CallOk(registry, s, op.c);
    var k := s.calls[op.c].key;
    match op
    case Verify(c) =>
      if At(s, c, Verifying) {
        GotoKeeps(registry, s, c, if Authorised(registry, s.work, k) then Verified else Raised);
      }
    case Replay(c) =>
      if At(s, c, Replaying) {
        GotoKeeps(registry, s, c, Returned(s.invocations[k].id, s.invocations[k].status));
      }
    case Validate(c, valid) =>
      if At(s, c, Validating) {
        GotoKeeps(registry, s, c, if valid then Executing else Marking(Failed));
      }
  }

  /** A WorkOrder's decision link is written once and decisions do not change. */
  lemma OutcomeStays(work: W.State, op: W.Op, o: Uuid)
    requires W.Inv(work) && LinkedOutcome(work, o).Some?
    ensures LinkedOutcome(W.Step(work, op), o) == LinkedOutcome(work, o)
  {
    if op.TransitionOp? && op.request.order in work.orders
      && op.request.next in W.Next(work.orders[op.request.order].status) {
      var q := op.request;
      assert W.OrderOk(work, q.order);
      W.SubstantiateSound(work, work.orders[q.order], q);
    }
  }

  lemma AuthorityStays(registry: Registry, work: W.State, op: W.Op, k: Key)
    requires W.Inv(work) && Authorised(registry, work, k)
    ensures Authorised(registry, W.Step(work, op), k)
  {
    OutcomeStays(work, op, k.order);
  }

  lemma WorkKeeps(registry: Registry, s: State, op: W.Op)
    requires Inv(registry, s)
    ensures Inv(registry, Step(registry, s, WorkOp(op)))
  {
    var s' := Step(registry, s, WorkOp(op));
    match op {
      case CreateOp(o, key) => W.CreateKeeps(s.work, o, key);
      case TransitionOp(q) => W.TransitionKeeps(s.work, q);
    }
    forall k {:trigger RowOk(registry, s', k)} | k in s'.invocations
      ensures RowOk(registry, s', k)
    {
      assert RowOk(registry, s, k);
      AuthorityStays(registry, s.work, op, k);
    }
    forall d {:trigger CallOk(registry, s', d)} | d in s'.calls
      ensures CallOk(registry, s', d)
    {
      assert CallOk(registry, s, d);
      if s.calls[d].pc == Verified {
        AuthorityStays(registry, s.work, op, s.calls[d].key);
      }
    }
  }

  lemma CallsKeep(registry: Registry, s: State, op: Op)
    requires Inv(registry, s) && (op.Start? || op.Crash?)
    ensures Inv(registry, Step(registry, s, op))
  {
    var s' := Step(registry, s, op);
    forall k {:trigger RowOk(registry, s', k)} | k in s'.invocations
      ensures RowOk(registry, s', k)
    {
      assert RowOk(registry, s, k);
    }
    forall d {:trigger CallOk(registry, s', d)} | d in s'.calls
      ensures CallOk(registry, s', d)
    {
      if d in s.calls {
        assert CallOk(registry, s, d);
      }
    }
  }

  lemma StepKeeps(registry: Registry, s: State, op: Op)
    requires Inv(registry, s)
    ensures Inv(registry, Step(registry, s, op))
  {
    if op.WorkOp? {
      WorkKeeps(registry, s, op.op);
    } else if op.Start? || op.Crash? {
      CallsKeep(registry, s, op);
    } else if op.c in s.calls {
      match op {
        case Insert(c, id, fate) => if At(s, c, Verified) { InsertKeeps(registry, s, c, id, fate); }
        case Execute(c, good) => if At(s, c, Executing) && Stored(s, c) { ExecuteKeeps(registry, s, c, good); }
        case Mark(c, fate) => if Stored(s, c) && s.calls[c].pc.Marking? { MarkKeeps(registry, s, c, fate); }
        case _ => MoveKeeps(registry, s, op);
      }
    }
  }

  lemma {:induction false} ReachableStatesAreSound(registry: Registry, tenant: Uuid, ops: seq<Op>)
    ensures Inv(registry, After(registry, tenant, ops))
  {
    if ops != [] {
      ReachableStatesAreSound(registry, tenant, ops[..|ops| - 1]);
      StepKeeps(registry, After(registry, tenant, ops[..|ops| - 1]), ops[|ops| - 1]);
    }
  }

  // ----- What callers can rely on

  /**
   A handler runs at most once per key, only under sufficient authority, and the status leaves
   pending at most once.
   */
  lemma AtMostOneRun(registry: Registry, tenant: Uuid, ops: seq<Op>, k: Key)
    requires k in After(registry, tenant, ops).invocations
    ensures var s := After(registry, tenant, ops);
      && s.invocations[k].runs <= 1 && s.invocations[k].leaves <= 1 && Authorised(registry, s.work, k)
      && (s.invocations[k].status == Succeeded ==> s.invocations[k].runs == 1)
  {
    ReachableStatesAreSound(registry, tenant, ops);
    assert RowOk(registry, After(registry, tenant, ops), k);
  }

  /** In every run the decision behind an invocation is linked, exists and belongs to the very WorkOrder. */
  lemma AuthorityIsItsOwn(registry: Registry, tenant: Uuid, ops: seq<Op>, k: Key)
    requires k in After(registry, tenant, ops).invocations
    ensures HasOwnDecision(After(registry, tenant, ops).work, k.order)
  {
    var s := After(registry, tenant, ops);
    ReachableStatesAreSound(registry, tenant, ops);
    assert RowOk(registry, s, k) && W.OrderOk(s.work, k.order);
  }

  ghost predicate HasOwnDecision(work: W.State, o: Uuid) {
    && o in work.orders && work.orders[o].decision.Some? && work.orders[o].decision.value in work.decisions
    && work.decisions[work.orders[o].decision.value].order == o
  }

  /** The moment a handler runs, the linked decision authorises it and no handler ran before. */
  lemma HandlerRunsAuthorised(registry: Registry, tenant: Uuid, ops: seq<Op>, c: nat)
    requires At(After(registry, tenant, ops), c, Executing)
    ensures var s := After(registry, tenant, ops);
      Authorised(registry, s.work, s.calls[c].key) && Stored(s, c) && s.invocations[s.calls[c].key].runs == 0
  {
    var s := After(registry, tenant, ops);
    ReachableStatesAreSound(registry, tenant, ops);
    assert CallOk(registry, s, c) && RowOk(registry, s, s.calls[c].key);
  }

  ghost predicate Later(s: State, s': State) {
    && (forall k :: k in s.invocations ==> k in s'.invocations && RowLasts(s.invocations[k], s'.invocations[k]))
    && (forall c :: c in s.calls && s.calls[c].pc.Returned? ==> c in s'.calls && s'.calls[c] == s.calls[c])
  }

  ghost predicate RowLasts(row: Invocation, row': Invocation) {
    row'.id == row.id && (row.status != Pending ==> row'.status == row.status)
  }

  /** A step of a call that has not returned, on the row of its own key. */
  lemma CallStepIsLater(s: State, s': State, c: nat)
    requires c in s.calls && !s.calls[c].pc.Returned?
    requires forall d :: d in s.calls && d != c ==> d in s'.calls && s'.calls[d] == s.calls[d]
    requires forall k :: k in s.invocations ==>
      k in s'.invocations && (k != s.calls[c].key ==> s'.invocations[k] == s.invocations[k])
    requires s.calls[c].key in s.invocations ==> RowLasts(s.invocations[s.calls[c].key], s'.invocations[s.calls[c].key])
    ensures Later(s, s')
  {
  }

  lemma InsertIsLater(s: State, c: nat, id: Uuid, fate: Fate)
    requires c in s.calls && !s.calls[c].pc.Returned?
    ensures Later(s, InsertStep(s, c, id, fate))
  {
    CallStepIsLater(s, InsertStep(s, c, id, fate), c);
  }

  lemma ExecuteIsLater(s: State, c: nat, good: bool)
    requires Stored(s, c) && !s.calls[c].pc.Returned?
    ensures Later(s, ExecuteStep(s, c, good))
  {
    CallStepIsLater(s, ExecuteStep(s, c, good), c);
  }

  lemma MarkIsLater(s: State, c: nat, fate: Fate)
    requires Stored(s, c) && s.calls[c].pc.Marking? && s.invocations[s.calls[c].key].status == Pending
    ensures Later(s, MarkStep(s, c, fate))
  {
    CallStepIsLater(s, MarkStep(s, c, fate), c);
  }

  lemma WriteIsLater(registry: Registry, s: State, op: Op)
    requires Inv(registry, s) && (op.Insert? || op.Execute? || op.Mark?) && op.c in s.calls
    ensures Later(s, Step(registry, s, op))
  {
    assert CallOk(registry, s, op.c);
    match op
    case Insert(c, id, fate) => if At(s, c, Verified) { InsertIsLater(s, c, id, fate); }
    case Execute(c, good) => if At(s, c, Executing) && Stored(s, c) { ExecuteIsLater(s, c, good); }
    case Mark(c, fate) => if Stored(s, c) && s.calls[c].pc.Marking? { MarkIsLater(s, c, fate); }
  }

  lemma StepIsLater(registry: Registry, s: State, op: Op)
    requires Inv(registry, s)
    ensures Later(s, Step(registry, s, op))
  {
    if op.Insert? || op.Execute? || op.Mark? {
      if op.c in s.calls {
        WriteIsLater(registry, s, op);
      }
    } else {
      OtherIsLater(registry, s, op);
    }
  }

  lemma OtherIsLater(registry: Registry, s: State, op: Op)
    requires !op.Insert? && !op.Execute? && !op.Mark?
    ensures Later(s, Step(registry, s, op))
  {
  }

  lemma LaterTransitive(a: State, b: State, c: State)
    requires Later(a, b) && Later(b, c)
    ensures Later(a, c)
  {
    forall k | k in a.invocations
      ensures k in c.invocations && RowLasts(a.invocations[k], c.invocations[k])
    {
      assert k in b.invocations;
    }
    forall d | d in a.calls && a.calls[d].pc.Returned?
      ensures d in c.calls && c.calls[d] == a.calls[d]
    {
      assert d in b.calls;
    }
  }

  lemma OneMoreIsLater(registry: Registry, tenant: Uuid, ops: seq<Op>, op: Op)
    ensures Later(After(registry, tenant, ops), After(registry, tenant, ops + [op]))
  {
    assert (ops + [op])[..|ops|] == ops;
    ReachableStatesAreSound(registry, tenant, ops);
    StepIsLater(registry, After(registry, tenant, ops), op);
  }

  lemma {:induction false} ContinuationsAreLater(registry: Registry, tenant: Uuid, ops: seq<Op>, more: seq<Op>)
    ensures Later(After(registry, tenant, ops), After(registry, tenant, ops + more))
    decreases |more|
  {
    if more == [] {
      assert ops + more == ops;
    } else {
      var front, last := more[..|more| - 1], more[|more| - 1];
      ContinuationsAreLater(registry, tenant, ops, front);
      OneMoreIsLater(registry, tenant, ops + front, last);
      assert ops + front + [last] == ops + more;
      LaterTransitive(After(registry, tenant, ops), After(registry, tenant, ops + front),
        After(registry, tenant, ops + more));
    }
  }

  /** In every run an invocation id belongs to one key. */
  lemma IdNamesTheKey(registry: Registry, tenant: Uuid, ops: seq<Op>, k: Key, l: Key)
    requires k in After(registry, tenant, ops).invocations && l in After(registry, tenant, ops).invocations
    requires After(registry, tenant, ops).invocations[k].id == After(registry, tenant, ops).invocations[l].id
    ensures k == l
  {
    ReachableStatesAreSound(registry, tenant, ops);
  }

  ghost predicate HasReturned(s: State, d: nat) {
    d in s.calls && s.calls[d].pc.Returned?
  }

  ghost predicate Final(s: State, k: Key) {
    k in s.invocations && s.invocations[k].status != Pending
  }

  lemma OwnersArePending(registry: Registry, s: State)
    requires Inv(registry, s)
    ensures forall c :: c in s.calls && Owns(s.calls[c].pc) ==> !Final(s, s.calls[c].key)
  {
    forall c | c in s.calls && Owns(s.calls[c].pc)
      ensures !Final(s, s.calls[c].key)
    {
      assert CallOk(registry, s, c);
    }
  }

  /** A call that returns in this step, when the status is already final. */
  lemma ReturnsFinal(registry: Registry, s: State, op: Op, d: nat)
    requires Inv(registry, s) && !HasReturned(s, d) && HasReturned(Step(registry, s, op), d)
    requires Final(s, Step(registry, s, op).calls[d].key)
    ensures var k := Step(registry, s, op).calls[d].key;
      Step(registry, s, op).calls[d].pc == Returned(s.invocations[k].id, s.invocations[k].status)
  {
    OwnersArePending(registry, s);
  }

  /** Once the status is final, every call of the key that returns from then on returns that id and status. */
  lemma {:induction false} LaterCallsReturnTheSame(registry: Registry, tenant: Uuid, ops: seq<Op>, more: seq<Op>,
        k: Key, d: nat)
    requires Final(After(registry, tenant, ops), k) && !HasReturned(After(registry, tenant, ops), d)
    requires HasReturned(After(registry, tenant, ops + more), d)
    requires After(registry, tenant, ops + more).calls[d].key == k
    ensures var row := After(registry, tenant, ops).invocations[k];
      After(registry, tenant, ops + more).calls[d].pc == Returned(row.id, row.status)
    decreases |more|
  {
    assert more == [] ==> ops + more == ops;
    if more != [] {
      var front, last := more[..|more| - 1], more[|more| - 1];
      var s, mid := After(registry, tenant, ops), After(registry, tenant, ops + front);
      assert (ops + more)[..|ops + more| - 1] == ops + front;
      assert After(registry, tenant, ops + more) == Step(registry, mid, last);
      ReachableStatesAreSound(registry, tenant, ops + front);
      StepIsLater(registry, mid, last);
      if HasReturned(mid, d) {
        LaterCallsReturnTheSame(registry, tenant, ops, front, k, d);
      } else {
        ContinuationsAreLater(registry, tenant, ops, front);
        assert RowLasts(s.invocations[k], mid.invocations[k]);
        ReturnsFinal(registry, mid, last, d);
      }
    }
  }

  /** A replay after the status is final returns exactly it. */
  lemma ReplayReturnsTheStatus(registry: Registry, s: State, c: nat)
    requires Inv(registry, s) && At(s, c, Replaying)
    ensures Stored(s, c)
    ensures At(Step(registry, s, Replay(c)), c,
      Returned(s.invocations[s.calls[c].key].id, s.invocations[s.calls[c].key].status))
  {
    assert CallOk(registry, s, c);
  }
}
