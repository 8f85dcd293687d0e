/**
 What creating and moving a WorkOrder needs and does, table by table, and which decision stands
 behind the way it took (src/state/createWorkOrder.ts, src/state/transitionWorkOrder.ts).
 */
module WorkOrderEffects {
  import opened Options
  import opened Outcomes
  import opened Keys
  import opened WorkOrders

  // ----- The graph and the decision

  /** The graph by where its edges lead. */
  predicate Edge(from: Status, to: Status) {
    match to
    case Received => false
    case IntentParsed => from == Received
    case AuthorityClassified => from == IntentParsed
    case ReadyToAct => from in {AuthorityClassified, AwaitingAuthorization, SetupNeeded}
    case AwaitingAuthorization => from == AuthorityClassified
    case SetupNeeded => from == AuthorityClassified
    case NoCapability => from == AuthorityClassified
    case Refused => from in {AuthorityClassified, AwaitingAuthorization}
    case Executing => from == ReadyToAct
    case Validating => from == Executing
    case ReceiptWritten => from == Validating
    case MemoryCandidatesCreated => from == ReceiptWritten
    case Completed => from in {ReceiptWritten, MemoryCandidatesCreated}
    case Failed => from !in {NoCapability, Refused, Completed, Failed}
  }

  lemma EdgesByTarget(from: Status, to: Status)
    ensures to in Next(from) <==> Edge(from, to)
    ensures Terminal(from) <==> from in {NoCapability, Refused, Completed, Failed}
  {
  }

  /** Where a classified WorkOrder may go, other than to FAILED: the decision alone says it. */
  predicate Branch(outcome: Outcome, to: Status) {
    match to
    case ReadyToAct => outcome == Act || outcome == ActAndReport
    case AwaitingAuthorization => outcome == Escalate
    case SetupNeeded => outcome == SetupRequired
    case NoCapability => outcome == CapabilityMissing
    case Refused => outcome == Refuse
    case _ => false
  }

  /** The outcome of the decision row a WorkOrder links to. */
  ghost predicate Decided(s: State, w: Order, outcome: Outcome) {
    w.decision.Some? && w.decision.value in s.decisions && s.decisions[w.decision.value].outcome == outcome
  }

  // ----- Exactly when a transition goes through

  /** How a request fails in a sound state, or None. */
  ghost function Fault(s: State, q: Request): Option<Error> {
    if q.order !in s.orders then Some(NotFound)
    else
      var w := s.orders[q.order];
      if w.status in {NoCapability, Refused, Completed, Failed} then Some(TerminalState)
      else if !Edge(w.status, q.next) then Some(InvalidTransition)
      else match q.next
        case AuthorityClassified =>
          if q.decision == None then Some(DecisionRequired)
          else if !q.decision.value.actorKnown then Some(ActorNotFound)
          else if q.decisionId in s.decisions then Some(DuplicateId)
          else None
        case MemoryCandidatesCreated => if q.candidate == None then Some(CandidateRequired) else None
        case Failed => None
        case _ =>
          if w.status == AuthorityClassified && !exists outcome :: Decided(s, w, outcome) && Branch(outcome, q.next)
          then Some(OutcomeMismatch)
          else None
  }

  lemma SubstantiateFailsWith(s: State, q: Request)
    requires Inv(s) && q.order in s.orders && Edge(s.orders[q.order].status, q.next)
    ensures var r := Substantiate(s, s.orders[q.order], q);
      Fault(s, q) == if r.Ok? then None else Some(r.error)
  {
    var w := s.orders[q.order];
    assert OrderOk(s, q.order);
    SubstantiateSound(s, w, q);
    if w.status == AuthorityClassified && q.next != Failed {
      var outcome := s.decisions[w.decision.value].outcome;
      assert Decided(s, w, outcome);
      assert Branch(outcome, q.next) <==> ExpectedStatus(outcome) == q.next;
    }
  }

  lemma TransitionFailsWith(s: State, q: Request)
    requires Inv(s)
    ensures Transition(s, q).1 == Fault(s, q)
    ensures Fault(s, q).Some? ==> Transition(s, q).0 == s
  {
    if q.order in s.orders {
      EdgesByTarget(s.orders[q.order].status, q.next);
      if Edge(s.orders[q.order].status, q.next) {
        SubstantiateFailsWith(s, q);
      }
    }
  }

  // ----- What a transition writes

  /** The rows of the WorkOrder itself. */
  ghost predicate RowsWritten(tenant: Uuid, w: Order, w': Order, q: Request) {
    && w'.key == w.key && w'.status == q.next && w'.history == w.history + [Row(Some(w.status), q.next)]
    && w'.decision == (if q.next == AuthorityClassified then Some(q.decisionId) else w.decision)
    && (match q.next
        case Executing => w'.runs == [Run(RunText(tenant, q.order), Executing)]
        case Validating => w.runs != [] && w'.runs == [w.runs[0].(status := Validating)]
        case _ => w'.runs == w.runs)
    && w'.receipts == (if q.next == ReceiptWritten
        then [Receipt(ReceiptText(tenant, q.order), 0, w.decision, Validating, ReceiptWritten)] else w.receipts)
    && (if q.next == MemoryCandidatesCreated
        then q.candidate.Some? && w'.candidates == [Candidate(0, q.candidate.value)]
        else w'.candidates == w.candidates)
  }

  function RunText(tenant: Uuid, o: Uuid): string {
    Join([tenant, o, "run", "1"])
  }

  function ReceiptText(tenant: Uuid, o: Uuid): string {
    Join([tenant, o, "receipt", "state_transitioned", "RECEIPT_WRITTEN"])
  }

  /** The decision of a classification request, with the outcome it asks for. */
  function WithDecision(decisions: map<Uuid, Decision>, q: Request): map<Uuid, Decision>
    requires q.decision.Some?
  {
    decisions[q.decisionId := Decision(q.order, q.decision.value.outcome)]
  }

  /** Everything a transition changes: the WorkOrder, and the decision, run key or receipt key it brings. */
  ghost predicate MovedOn(s: State, s': State, q: Request) {
    && q.order in s.orders && q.order in s'.orders
    && s'.tenant == s.tenant && s'.orderKeys == s.orderKeys && s'.orders == s.orders[q.order := s'.orders[q.order]]
    && RowsWritten(s.tenant, s.orders[q.order], s'.orders[q.order], q)
    && (if q.next == AuthorityClassified
        then q.decision.Some? && s'.decisions == WithDecision(s.decisions, q)
        else s'.decisions == s.decisions)
    && s'.runKeys == s.runKeys + (if q.next == Executing then {RunText(s.tenant, q.order)} else {})
    && s'.receiptKeys == s.receiptKeys + (if q.next == ReceiptWritten then {ReceiptText(s.tenant, q.order)} else {})
  }

  lemma TransitionMovesOn(s: State, q: Request)
    requires Inv(s) && Transition(s, q).1 == None
    ensures MovedOn(s, Transition(s, q).0, q)
  {
    var w := s.orders[q.order];
    assert OrderOk(s, q.order);
    EdgesByTarget(w.status, q.next);
    SubstantiateWrites(s, w, q);
  }

  /** The rows written before the status moves. */
  lemma SubstantiateWrites(s: State, w: Order, q: Request)
    requires RowsOk(s, q.order, w) && Edge(w.status, q.next) && Substantiate(s, w, q).Ok?
    ensures var c := Substantiate(s, w, q).value;
      && RowsWritten(s.tenant, w, Moved(c.order, q.next), q)
      && (if q.next == AuthorityClassified
          then q.decision.Some? && c.decisions == WithDecision(s.decisions, q)
          else c.decisions == s.decisions)
      && c.runKeys == s.runKeys + (if q.next == Executing then {RunText(s.tenant, q.order)} else {})
      && c.receiptKeys == s.receiptKeys + (if q.next == ReceiptWritten then {ReceiptText(s.tenant, q.order)} else {})
  {
    match q.next {
      case Executing => assert w.runs == [];
      case Validating => assert |w.runs| == 1;
      case ReceiptWritten => assert w.receipts == [];
      case MemoryCandidatesCreated => assert w.candidates == [] && |w.receipts| == 1;
      case _ =>
    }
  }

  /** A transition fails as it should and changes nothing, or moves the WorkOrder on. */
  ghost predicate Answered(s: State, s': State, q: Request, error: Option<Error>) {
    && error == Fault(s, q)
    && (if error == None then MovedOn(s, s', q) else s' == s)
  }

  lemma TransitionAnswers(s: State, q: Request)
    requires Inv(s)
    ensures Inv(Transition(s, q).0) && Answered(s, Transition(s, q).0, q, Transition(s, q).1)
  {
    TransitionKeeps(s, q);
    TransitionFailsWith(s, q);
    if Transition(s, q).1 == None {
      TransitionMovesOn(s, q);
    }
  }

  /** A first creation makes a RECEIVED WorkOrder; another one with its key returns it; a taken id fails. */
  lemma CreateIsExact(s: State, o: Uuid, key: string)
    ensures Create(s, o, key) ==
      if key in s.orderKeys then (s, Ok(s.orderKeys[key]))
      else if o in s.orders then (s, Err(DuplicateId))
      else (State(s.tenant, s.orders[o := Order(key, Received, None, [Row(None, Received)], [], [], [])],
        s.orderKeys[key := o], s.decisions, s.runKeys, s.receiptKeys), Ok(o))
  {
  }

  // ----- Which decision stands behind a WorkOrder

  /** Row i leaves AUTHORITY_CLASSIFIED to FAILED, or where the linked decision sends it. */
  ghost predicate BranchRow(s: State, w: Order, i: nat)
    requires i < |w.history|
  {
    w.history[i].from == Some(AuthorityClassified) ==>
      exists outcome :: Decided(s, w, outcome) && (w.history[i].to == Failed || Branch(outcome, w.history[i].to))
  }

  ghost predicate BranchRows(s: State, w: Order) {
    forall i: nat {:trigger BranchRow(s, w, i)} :: i < |w.history| ==> BranchRow(s, w, i)
  }

  ghost predicate AllBranchRows(s: State) {
    forall o {:trigger s.orders[o]} :: o in s.orders ==> BranchRows(s, s.orders[o])
  }

  /** Decisions are never changed, and links neither, so a row keeps its decision. */
  lemma BranchRowStays(s: State, s': State, w: Order, w': Order, i: nat)
    requires i < |w.history| && i < |w'.history| && w'.history[i] == w.history[i] && BranchRow(s, w, i)
    requires w.decision.Some? ==> w'.decision == w.decision
    requires forall d :: d in s.decisions ==> d in s'.decisions && s'.decisions[d] == s.decisions[d]
    ensures BranchRow(s', w', i)
  {
    if w.history[i].from == Some(AuthorityClassified) {
      var outcome :| Decided(s, w, outcome) && (w.history[i].to == Failed || Branch(outcome, w.history[i].to));
      assert Decided(s', w', outcome);
    }
  }

  /** The row a transition adds. */
  lemma NewBranchRow(s: State, q: Request)
    requires Inv(s) && Fault(s, q) == None && MovedOn(s, Transition(s, q).0, q)
    ensures var s' := Transition(s, q).0;
      BranchRow(s', s'.orders[q.order], |s.orders[q.order].history|)
  {
    var s', w := Transition(s, q).0, s.orders[q.order];
    assert OrderOk(s, q.order);
    if w.status == AuthorityClassified {
      var outcome := s.decisions[w.decision.value].outcome;
      assert Decided(s', s'.orders[q.order], outcome);
      assert q.next != Failed ==> exists other :: Decided(s, w, other) && Branch(other, q.next);
    }
  }

  lemma OldBranchRow(s: State, q: Request, o: Uuid, i: nat)
    requires Inv(s) && Fault(s, q) == None && MovedOn(s, Transition(s, q).0, q)
    requires o in s.orders && i < |s.orders[o].history| && BranchRow(s, s.orders[o], i)
    ensures var s' := Transition(s, q).0;
      o in s'.orders && i < |s'.orders[o].history| && BranchRow(s', s'.orders[o], i)
  {
    var s' := Transition(s, q).0;
    assert OrderOk(s, q.order);
    BranchRowStays(s, s', s.orders[o], s'.orders[o], i);
  }

  lemma TransitionKeepsBranches(s: State, q: Request)
    requires Inv(s) && AllBranchRows(s)
    ensures AllBranchRows(Transition(s, q).0)
  {
    var s' := Transition(s, q).0;
    TransitionFailsWith(s, q);
    if Fault(s, q) == None {
      TransitionMovesOn(s, q);
      NewBranchRow(s, q);
      forall o, i: nat {:trigger BranchRow(s', s'.orders[o], i)} | o in s'.orders && i < |s'.orders[o].history|
        ensures BranchRow(s', s'.orders[o], i)
      {
        if i < |s.orders[o].history| {
          assert BranchRow(s, s.orders[o], i);
          OldBranchRow(s, q, o, i);
        }
      }
    }
  }

  lemma {:induction false} RunsBranchAsDecided(tenant: Uuid, ops: seq<Op>)
    ensures AllBranchRows(After(tenant, ops))
  {
    if ops != [] {
      var s := After(tenant, ops[..|ops| - 1]);
      RunsBranchAsDecided(tenant, ops[..|ops| - 1]);
      ReachableStatesAreSound(tenant, ops[..|ops| - 1]);
      match ops[|ops| - 1]
      case CreateOp(o, key) =>
        var s' := Create(s, o, key).0;
        forall p, i: nat {:trigger BranchRow(s', s'.orders[p], i)} | p in s'.orders && i < |s'.orders[p].history|
          ensures BranchRow(s', s'.orders[p], i)
        {
          if p in s.orders {
            assert BranchRow(s, s.orders[p], i);
            BranchRowStays(s, s', s.orders[p], s'.orders[p], i);
          }
        }
      case TransitionOp(q) => TransitionKeepsBranches(s, q);
    }
  }

  /** In every run, directly after AUTHORITY_CLASSIFIED a WorkOrder is FAILED or where its decision sends it. */
  lemma NextAfterClassification(tenant: Uuid, ops: seq<Op>, o: Uuid, i: nat)
    requires o in After(tenant, ops).orders && 1 <= i < |After(tenant, ops).orders[o].history|
    requires After(tenant, ops).orders[o].history[i - 1].to == AuthorityClassified
    ensures LeftAsDecided(After(tenant, ops), After(tenant, ops).orders[o], After(tenant, ops).orders[o].history[i].to)
  {
    var s := After(tenant, ops);
    ReachableStatesAreSound(tenant, ops);
    RunsBranchAsDecided(tenant, ops);
    assert OrderOk(s, o);
    assert BranchRow(s, s.orders[o], i);
  }

  ghost predicate LeftAsDecided(s: State, w: Order, to: Status) {
    && w.decision.Some? && w.decision.value in s.decisions
    && (to == Failed || Branch(s.decisions[w.decision.value].outcome, to))
  }

  /** Step k of the run is the successful classification request that made this decision. */
  ghost predicate Requested(tenant: Uuid, ops: seq<Op>, k: nat, d: Uuid, row: Decision) {
    && k < |ops| && ops[k].TransitionOp?
    && var q := ops[k].request;
    && q.decisionId == d && q.order == row.order && q.next == AuthorityClassified
    && q.decision == Some(DecisionInput(row.outcome, true))
    && Fault(After(tenant, ops[..k]), q) == None
  }

  lemma StillRequested(tenant: Uuid, ops: seq<Op>, op: Op, k: nat, d: Uuid, row: Decision)
    requires Requested(tenant, ops, k, d, row)
    ensures Requested(tenant, ops + [op], k, d, row)
  {
    assert (ops + [op])[..k] == ops[..k] && (ops + [op])[k] == ops[k];
  }

  /** In every run each decision has the outcome and the WorkOrder of the request that classified it. */
  lemma {:induction false} DecisionsAreRequested(tenant: Uuid, ops: seq<Op>, d: Uuid) returns (k: nat)
    requires d in After(tenant, ops).decisions
    ensures Requested(tenant, ops, k, d, After(tenant, ops).decisions[d])
  {
    var front, last := ops[..|ops| - 1], ops[|ops| - 1];
    var s := After(tenant, front);
    assert front + [last] == ops;
    ReachableStatesAreSound(tenant, front);
    if last.TransitionOp? {
      TransitionFailsWith(s, last.request);
      if Fault(s, last.request) == None {
        TransitionMovesOn(s, last.request);
        if last.request.next == AuthorityClassified && last.request.decisionId == d {
          assert ops[..|front|] == front;
          return |front|;
        }
      }
    }
    k := DecisionsAreRequested(tenant, front, d);
    StillRequested(tenant, front, last, k, d, s.decisions[d]);
  }
}
