/**
 The WorkOrder state machine (src/state/): creation, the status graph, and transitions with the
 decision, run, receipt and memory candidate that substantiate them.

 Rows that belong to one WorkOrder are kept with it, oldest first. Unique indexes are sets of
 keys. Only receipts of type `state_transitioned` are kept; no other code writes these rows.
 */
module WorkOrders {
  import opened Options
  import opened Outcomes
  import opened Keys

  // ----- The status graph

  datatype Status =
    | Received | IntentParsed | AuthorityClassified
    | ReadyToAct | AwaitingAuthorization | SetupNeeded | NoCapability | Refused
    | Executing | Validating | ReceiptWritten | MemoryCandidatesCreated
    | Completed | Failed

  function Next(from: Status): set<Status> {
    match from
    case Received => {IntentParsed, Failed}
    case IntentParsed => {AuthorityClassified, Failed}
    case AuthorityClassified => {ReadyToAct, AwaitingAuthorization, SetupNeeded, NoCapability, Refused, Failed}
    case ReadyToAct => {Executing, Failed}
    case AwaitingAuthorization => {ReadyToAct, Refused, Failed}
    case SetupNeeded => {ReadyToAct, Failed}
    case NoCapability => {}
    case Refused => {}
    case Executing => {Validating, Failed}
    case Validating => {ReceiptWritten, Failed}
    case ReceiptWritten => {MemoryCandidatesCreated, Completed, Failed}
    case MemoryCandidatesCreated => {Completed, Failed}
    case Completed => {}
    case Failed => {}
  }

  predicate Terminal(s: Status) {
    s in {NoCapability, Refused, Completed, Failed}
  }

  function ExpectedStatus(outcome: Outcome): Status {
    match outcome
    case Act => ReadyToAct
    case ActAndReport => ReadyToAct
    case Escalate => AwaitingAuthorization
    case SetupRequired => SetupNeeded
    case CapabilityMissing => NoCapability
    case Refuse => Refused
  }

  predicate AuthorityBranch(s: Status) {
    s in {ReadyToAct, AwaitingAuthorization, SetupNeeded, NoCapability, Refused}
  }

  // ----- Rows

  datatype Row = Row(from: Option<Status>, to: Status)
  datatype Decision = Decision(order: Uuid, outcome: Outcome)
  datatype Run = Run(key: string, status: Status)
  datatype Receipt = Receipt(key: string, run: nat, decision: Option<Uuid>, from: Status, to: Status)
  datatype Candidate = Candidate(receipt: nat, content: string)
  datatype Order = Order(
    key: string,
    status: Status,
    decision: Option<Uuid>,
    history: seq<Row>,
    runs: seq<Run>,
    receipts: seq<Receipt>,
    candidates: seq<Candidate>)

  datatype State = State(
    tenant: Uuid,
    orders: map<Uuid, Order>,
    orderKeys: map<string, Uuid>,
    decisions: map<Uuid, Decision>,
    runKeys: set<string>,
    receiptKeys: set<string>)

  datatype Error =
    | NotFound | TerminalState | InvalidTransition
    | DecisionRequired | ActorNotFound | OutcomeMismatch | CandidateRequired | DuplicateId
    | NoDecisionLinked | DecisionMissing | NoRun | NoReceipt | DuplicateRunKey | DuplicateReceiptKey

  /** The errors that would mean the tables contradict each other. */
  predicate Broken(e: Error) {
    e in {NoDecisionLinked, DecisionMissing, NoRun, NoReceipt, DuplicateRunKey, DuplicateReceiptKey}
  }

  function RunKey(tenant: Uuid, o: Uuid): string {
    Join([tenant, o, "run", "1"])
  }

  function ReceiptKey(tenant: Uuid, o: Uuid): string {
    Join([tenant, o, "receipt", "state_transitioned", "RECEIPT_WRITTEN"])
  }

  lemma RunKeyNamesTheOrder(tenant: Uuid, o: Uuid, p: Uuid)
    ensures RunKey(tenant, o) == RunKey(tenant, p) ==> o == p
  {
    var a, b := [tenant, o, "run", "1"], [tenant, p, "run", "1"];
    if Join(a) == Join(b) {
      PlainKeyDeterminesParts(a, b);
      assert a[1] == b[1];
    }
  }

  lemma ReceiptKeyNamesTheOrder(tenant: Uuid, o: Uuid, p: Uuid)
    ensures ReceiptKey(tenant, o) == ReceiptKey(tenant, p) ==> o == p
  {
    var a := [tenant, o, "receipt", "state_transitioned", "RECEIPT_WRITTEN"];
    var b := [tenant, p, "receipt", "state_transitioned", "RECEIPT_WRITTEN"];
    if Join(a) == Join(b) {
      PlainKeyDeterminesParts(a, b);
      assert a[1] == b[1];
    }
  }

  // ----- createWorkOrder

  function NewOrder(key: string): Order {
    Order(key, Received, None, [Row(None, Received)], [], [], [])
  }

  /** Insert, or fetch what is stored under the key. */
  function Create(s: State, o: Uuid, key: string): (State, Result<Uuid, Error>) {
    if key in s.orderKeys then (s, Ok(s.orderKeys[key]))
    else if o in s.orders then (s, Err(DuplicateId))
    else (s.(orders := s.orders[o := NewOrder(key)], orderKeys := s.orderKeys[key := o]), Ok(o))
  }

  // ----- transitionWorkOrder

  datatype DecisionInput = DecisionInput(outcome: Outcome, actorKnown: bool)
  datatype Request = Request(order: Uuid, next: Status, decision: Option<DecisionInput>, decisionId: Uuid,
    candidate: Option<string>)

  /** What the substantiation of a transition writes, before the status moves. */
  datatype Change = Change(order: Order, decisions: map<Uuid, Decision>, runKeys: set<string>, receiptKeys: set<string>)

  function Unchanged(s: State, w: Order): Change {
    Change(w, s.decisions, s.runKeys, s.receiptKeys)
  }

  function Classify(s: State, w: Order, q: Request): Result<Change, Error> {
    if q.decision.None? then Err(DecisionRequired)
    else if !q.decision.value.actorKnown then Err(ActorNotFound)
    else if q.decisionId in s.decisions then Err(DuplicateId)
    else Ok(Unchanged(s, w.(decision := Some(q.decisionId)))
      .(decisions := s.decisions[q.decisionId := Decision(q.order, q.decision.value.outcome)]))
  }

  function CheckOutcome(s: State, w: Order, q: Request): Result<Change, Error> {
    if w.decision.None? then Err(NoDecisionLinked)
    else if w.decision.value !in s.decisions then Err(DecisionMissing)
    else if ExpectedStatus(s.decisions[w.decision.value].outcome) != q.next then Err(OutcomeMismatch)
    else Ok(Unchanged(s, w))
  }

  function StartRun(s: State, w: Order, q: Request): Result<Change, Error> {
    var key := RunKey(s.tenant, q.order);
    if key in s.runKeys then Err(DuplicateRunKey)
    else Ok(Unchanged(s, w.(runs := w.runs + [Run(key, Executing)])).(runKeys := s.runKeys + {key}))
  }

  function ValidateRun(s: State, w: Order): Result<Change, Error> {
    if w.runs == [] then Err(NoRun)
    else Ok(Unchanged(s, w.(runs := w.runs[|w.runs| - 1 := w.runs[|w.runs| - 1].(status := Validating)])))
  }

  function WriteReceipt(s: State, w: Order, q: Request): Result<Change, Error> {
    var key := ReceiptKey(s.tenant, q.order);
    if w.runs == [] then Err(NoRun)
    else if key in s.receiptKeys then Err(DuplicateReceiptKey)
    else Ok(Unchanged(s, w.(receipts := w.receipts + [Receipt(key, |w.runs| - 1, w.decision, w.status, q.next)]))
      .(receiptKeys := s.receiptKeys + {key}))
  }

  function AddCandidate(s: State, w: Order, q: Request): Result<Change, Error> {
    if q.candidate.None? then Err(CandidateRequired)
    else if w.receipts == [] then Err(NoReceipt)
    else Ok(Unchanged(s, w.(candidates := w.candidates + [Candidate(|w.receipts| - 1, q.candidate.value)])))
  }

  function Substantiate(s: State, w: Order, q: Request): Result<Change, Error> {
    if w.status == IntentParsed && q.next == AuthorityClassified then Classify(s, w, q)
    else if w.status == AuthorityClassified && AuthorityBranch(q.next) then CheckOutcome(s, w, q)
    else if w.status == ReadyToAct && q.next == Executing then StartRun(s, w, q)
    else if w.status == Executing && q.next == Validating then ValidateRun(s, w)
    else if w.status == Validating && q.next == ReceiptWritten then WriteReceipt(s, w, q)
    else if w.status == ReceiptWritten && q.next == MemoryCandidatesCreated then AddCandidate(s, w, q)
    else Ok(Unchanged(s, w))
  }

  function Moved(w: Order, next: Status): Order {
    w.(status := next, history := w.history + [Row(Some(w.status), next)])
  }

  function Commit(s: State, o: Uuid, c: Change, next: Status): State {
    State(s.tenant, s.orders[o := Moved(c.order, next)], s.orderKeys, c.decisions, c.runKeys, c.receiptKeys)
  }

  function Transition(s: State, q: Request): (State, Option<Error>) {
    if q.order !in s.orders then (s, Some(NotFound))
    else if Terminal(s.orders[q.order].status) then (s, Some(TerminalState))
    else if q.next !in Next(s.orders[q.order].status) then (s, Some(InvalidTransition))
    else match Substantiate(s, s.orders[q.order], q)
      case Err(e) => (s, Some(e))
      case Ok(c) => (Commit(s, q.order, c, q.next), None)
  }

  datatype Op = CreateOp(o: Uuid, key: string) | TransitionOp(request: Request)

  function Step(s: State, op: Op): State {
    match op
    case CreateOp(o, key) => Create(s, o, key).0
    case TransitionOp(request) => Transition(s, request).0
  }

  function After(tenant: Uuid, ops: seq<Op>): State {
    if ops == [] then State(tenant, map[], map[], map[], {}, {})
    else Step(After(tenant, ops[..|ops| - 1]), ops[|ops| - 1])
  }

  // ----- The invariant

  /** The rows form a path of the graph from RECEIVED to the current status. */
  ghost predicate PathTo(h: seq<Row>, status: Status) {
    && |h| >= 1 && h[0] == Row(None, Received) && h[|h| - 1].to == status
    && forall i :: 1 <= i < |h| ==> h[i].from == Some(h[i - 1].to) && h[i].to in Next(h[i - 1].to)
  }

  predicate NeedsRun(s: Status) { s in {Executing, Validating, ReceiptWritten, MemoryCandidatesCreated, Completed} }

  predicate NeedsReceipt(s: Status) { s in {ReceiptWritten, MemoryCandidatesCreated, Completed} }

  /** Which decisions can stand behind a status. */
  predicate Fits(status: Status, outcome: Outcome) {
    match status
    case AuthorityClassified => true
    case AwaitingAuthorization => outcome == Escalate
    case SetupNeeded => outcome == SetupRequired
    case NoCapability => outcome == CapabilityMissing
    case Refused => outcome == Refuse || outcome == Escalate
    case _ => Actionable(outcome)
  }

  predicate Actionable(outcome: Outcome) {
    outcome != Refuse && outcome != CapabilityMissing
  }

  ghost predicate DecisionOk(s: State, o: Uuid, w: Order) {
    && (w.decision.Some? ==> w.decision.value in s.decisions && s.decisions[w.decision.value].order == o)
    && (w.status in {Received, IntentParsed} ==> w.decision == None)
    && (w.status !in {Received, IntentParsed, Failed} ==>
      w.decision.Some? && Fits(w.status, s.decisions[w.decision.value].outcome))
  }

  ghost predicate RunsOk(s: State, o: Uuid, w: Order) {
    && |w.runs| <= 1
    && (NeedsRun(w.status) ==> |w.runs| == 1)
    && (!NeedsRun(w.status) && w.status != Failed ==> w.runs == [])
    && (w.runs != [] ==>
      w.decision.Some? && w.decision.value in s.decisions && Actionable(s.decisions[w.decision.value].outcome))
    && (w.runs != [] ==> w.runs[0].key == RunKey(s.tenant, o))
    && (NeedsRun(w.status) ==> w.runs[0].status == if w.status == Executing then Executing else Validating)
    && (RunKey(s.tenant, o) in s.runKeys <==> w.runs != [])
  }

  ghost predicate ReceiptsOk(s: State, o: Uuid, w: Order) {
    && |w.receipts| <= 1
    && (NeedsReceipt(w.status) ==> |w.receipts| == 1)
    && (!NeedsReceipt(w.status) && w.status != Failed ==> w.receipts == [])
    && (w.receipts != [] ==>
      |w.runs| == 1 && w.receipts[0] == Receipt(ReceiptKey(s.tenant, o), 0, w.decision, Validating, ReceiptWritten))
    && (ReceiptKey(s.tenant, o) in s.receiptKeys <==> w.receipts != [])
  }

  ghost predicate CandidatesOk(w: Order) {
    && |w.candidates| <= 1
    && (w.status == MemoryCandidatesCreated ==> |w.candidates| == 1)
    && (w.status !in {MemoryCandidatesCreated, Completed, Failed} ==> w.candidates == [])
    && (w.candidates != [] ==> |w.receipts| == 1 && w.candidates[0].receipt == 0)
  }

  ghost predicate OrderOk(s: State, o: Uuid)
    requires o in s.orders
  {
    var w := s.orders[o];
    && PathTo(w.history, w.status)
    && RowsOk(s, o, w)
    && w.key in s.orderKeys && s.orderKeys[w.key] == o
  }

  ghost predicate Inv(s: State) {
    && (forall o {:trigger OrderOk(s, o)} :: o in s.orders ==> OrderOk(s, o))
    && (forall o: Uuid :: o !in s.orders ==>
      RunKey(s.tenant, o) !in s.runKeys && ReceiptKey(s.tenant, o) !in s.receiptKeys)
    && (forall key :: key in s.orderKeys ==> s.orderKeys[key] in s.orders && s.orders[s.orderKeys[key]].key == key)
  }

  // ----- Every step keeps it

  /** The other tables only grew, and only by rows of order o. */
  ghost predicate Extends(s: State, c: Change, o: Uuid) {
    && (forall d :: d in s.decisions ==> d in c.decisions && c.decisions[d] == s.decisions[d])
    && (forall k :: k in s.runKeys ==> k in c.runKeys)
    && (forall k :: k in c.runKeys && k !in s.runKeys ==> k == RunKey(s.tenant, o))
    && (forall k :: k in s.receiptKeys ==> k in c.receiptKeys)
    && (forall k :: k in c.receiptKeys && k !in s.receiptKeys ==> k == ReceiptKey(s.tenant, o))
  }

  ghost predicate RowsOk(s: State, o: Uuid, w: Order) {
    DecisionOk(s, o, w) && RunsOk(s, o, w) && ReceiptsOk(s, o, w) && CandidatesOk(w)
  }

  /** The order's own rows after the status has moved to `next`, in the changed tables. */
  ghost predicate ChangeOk(s: State, c: Change, o: Uuid, next: Status) {
    RowsOk(State(s.tenant, s.orders, s.orderKeys, c.decisions, c.runKeys, c.receiptKeys), o, c.order.(status := next))
  }

  ghost predicate Ready(s: State, w: Order, q: Request) {
    RowsOk(s, q.order, w) && q.next in Next(w.status)
  }

  /** Only the caller can be at fault, the history and key of the order are not touched, and the rows still fit. */
  ghost predicate Sound(s: State, w: Order, q: Request, r: Result<Change, Error>) {
    match r
    case Err(e) => !Broken(e)
    case Ok(c) =>
      && Extends(s, c, q.order) && ChangeOk(s, c, q.order, q.next)
      && c.order.key == w.key && c.order.status == w.status && c.order.history == w.history
      && w.receipts <= c.order.receipts && |w.runs| <= |c.order.runs|
      && (w.decision.Some? ==> c.order.decision == w.decision)
  }

  lemma ClassifySound(s: State, w: Order, q: Request)
    requires Ready(s, w, q) && w.status == IntentParsed && q.next == AuthorityClassified
    ensures Sound(s, w, q, Classify(s, w, q))
  {
  }

  lemma CheckOutcomeSound(s: State, w: Order, q: Request)
    requires Ready(s, w, q) && w.status == AuthorityClassified && AuthorityBranch(q.next)
    ensures Sound(s, w, q, CheckOutcome(s, w, q))
  {
  }

  lemma StartRunSound(s: State, w: Order, q: Request)
    requires Ready(s, w, q) && w.status == ReadyToAct && q.next == Executing
    ensures Sound(s, w, q, StartRun(s, w, q))
  {
  }

  lemma ValidateRunSound(s: State, w: Order, q: Request)
    requires Ready(s, w, q) && w.status == Executing && q.next == Validating
    ensures Sound(s, w, q, ValidateRun(s, w))
  {
  }

  lemma WriteReceiptSound(s: State, w: Order, q: Request)
    requires Ready(s, w, q) && w.status == Validating && q.next == ReceiptWritten
    ensures Sound(s, w, q, WriteReceipt(s, w, q))
  {
  }

  lemma AddCandidateSound(s: State, w: Order, q: Request)
    requires Ready(s, w, q) && w.status == ReceiptWritten && q.next == MemoryCandidatesCreated
    ensures Sound(s, w, q, AddCandidate(s, w, q))
  {
  }

  /** The edges without side rows: to FAILED, to COMPLETED, the first step and the human decisions. */
  lemma PlainMoveSound(s: State, w: Order, q: Request)
    requires Ready(s, w, q)
    requires q.next == Failed || q.next == Completed || w.status in {Received, AwaitingAuthorization, SetupNeeded}
    ensures Sound(s, w, q, Ok(Unchanged(s, w)))
  {
  }

  lemma SubstantiateSound(s: State, w: Order, q: Request)
    requires Ready(s, w, q)
    ensures Sound(s, w, q, Substantiate(s, w, q))
  {
    if w.status == IntentParsed && q.next == AuthorityClassified {
      ClassifySound(s, w, q);
    } else if w.status == AuthorityClassified && AuthorityBranch(q.next) {
      CheckOutcomeSound(s, w, q);
    } else if w.status == ReadyToAct && q.next == Executing {
      StartRunSound(s, w, q);
    } else if w.status == Executing && q.next == Validating {
      ValidateRunSound(s, w, q);
    } else if w.status == Validating && q.next == ReceiptWritten {
      WriteReceiptSound(s, w, q);
    } else if w.status == ReceiptWritten && q.next == MemoryCandidatesCreated {
      AddCandidateSound(s, w, q);
    } else {
      PlainMoveSound(s, w, q);
    }
  }

  lemma PathGrows(h: seq<Row>, status: Status, next: Status)
    requires PathTo(h, status) && next in Next(status)
    ensures PathTo(h + [Row(Some(status), next)], next)
  {
    var h' := h + [Row(Some(status), next)];
    assert forall i :: 0 <= i < |h| ==> h'[i] == h[i];
  }

  /** Growing the tables for one order leaves the rows of another one in order. */
  lemma OthersKept(s: State, c: Change, o: Uuid, p: Uuid, s': State)
    requires Extends(s, c, o) && p != o
    requires s'.tenant == s.tenant && s'.decisions == c.decisions && s'.runKeys == c.runKeys
    requires s'.receiptKeys == c.receiptKeys
    ensures forall w {:trigger RowsOk(s', p, w)} :: RowsOk(s, p, w) ==> RowsOk(s', p, w)
    ensures RunKey(s'.tenant, p) in s'.runKeys ==> RunKey(s.tenant, p) in s.runKeys
    ensures ReceiptKey(s'.tenant, p) in s'.receiptKeys ==> ReceiptKey(s.tenant, p) in s.receiptKeys
  {
    RunKeyNamesTheOrder(s.tenant, o, p);
    ReceiptKeyNamesTheOrder(s.tenant, o, p);
  }

  lemma CommitKeeps(s: State, o: Uuid, c: Change, next: Status)
    requires Inv(s) && o in s.orders && next in Next(s.orders[o].status)
    requires Extends(s, c, o) && ChangeOk(s, c, o, next)
    requires c.order.key == s.orders[o].key && c.order.status == s.orders[o].status
    requires c.order.history == s.orders[o].history
    ensures Inv(Commit(s, o, c, next))
  {
    var s' := Commit(s, o, c, next);
    assert OrderOk(s, o);
    PathGrows(c.order.history, c.order.status, next);
    MovedRowsOk(s, o, c, next);
    assert OrderOk(s', o);
    forall p: Uuid | p != o
      ensures p in s'.orders ==> OrderOk(s', p)
      ensures p !in s'.orders ==> RunKey(s'.tenant, p) !in s'.runKeys && ReceiptKey(s'.tenant, p) !in s'.receiptKeys
    {
      OthersKept(s, c, o, p, s');
      if p in s.orders {
        assert OrderOk(s, p);
        assert RowsOk(s', p, s.orders[p]);
      }
    }
  }

  lemma MovedRowsOk(s: State, o: Uuid, c: Change, next: Status)
    requires ChangeOk(s, c, o, next)
    ensures RowsOk(Commit(s, o, c, next), o, Moved(c.order, next))
  {
  }

  lemma TransitionKeeps(s: State, q: Request)
    requires Inv(s)
    ensures Inv(Transition(s, q).0)
    ensures Transition(s, q).1.Some? ==> Transition(s, q).0 == s && !Broken(Transition(s, q).1.value)
  {
    if q.order in s.orders && q.next in Next(s.orders[q.order].status) {
      assert OrderOk(s, q.order);
      var r := Substantiate(s, s.orders[q.order], q);
      SubstantiateSound(s, s.orders[q.order], q);
      if r.Ok? {
        CommitKeeps(s, q.order, r.value, q.next);
      }
    }
  }

  lemma NewOrderKeeps(s: State, o: Uuid, key: string)
    requires Inv(s) && o !in s.orders && key !in s.orderKeys
    ensures Inv(s.(orders := s.orders[o := NewOrder(key)], orderKeys := s.orderKeys[key := o]))
  {
    var s' := s.(orders := s.orders[o := NewOrder(key)], orderKeys := s.orderKeys[key := o]);
    forall p {:trigger OrderOk(s', p)} | p in s'.orders
      ensures OrderOk(s', p)
    {
      if p != o {
        assert OrderOk(s, p);
      }
    }
  }

  lemma CreateKeeps(s: State, o: Uuid, key: string)
    requires Inv(s)
    ensures Inv(Create(s, o, key).0)
    ensures Create(s, o, key).1.Ok? ==>
      var id := Create(s, o, key).1.value; id in Create(s, o, key).0.orders && Create(s, o, key).0.orders[id].key == key
  {
    if key !in s.orderKeys && o !in s.orders {
      NewOrderKeeps(s, o, key);
    }
  }

  lemma {:induction false} ReachableStatesAreSound(tenant: Uuid, ops: seq<Op>)
    ensures Inv(After(tenant, ops))
  {
    if ops != [] {
      var s := After(tenant, ops[..|ops| - 1]);
      ReachableStatesAreSound(tenant, ops[..|ops| - 1]);
      match ops[|ops| - 1]
      case CreateOp(o, key) => CreateKeeps(s, o, key);
      case TransitionOp(q) => TransitionKeeps(s, q);
    }
  }

  // ----- What it gives

  /** The rows follow a rank that every edge raises. */
  function Rank(s: Status): nat {
    match s
    case Received => 0
    case IntentParsed => 1
    case AuthorityClassified => 2
    case AwaitingAuthorization => 3
    case SetupNeeded => 3
    case ReadyToAct => 4
    case Executing => 5
    case Validating => 6
    case ReceiptWritten => 7
    case MemoryCandidatesCreated => 8
    case _ => 9
  }

  lemma {:induction false} RanksRise(h: seq<Row>, status: Status, i: nat, j: nat)
    requires PathTo(h, status) && i <= j < |h|
    ensures Rank(h[i].to) + (j - i) <= Rank(h[j].to)
    decreases j
  {
    if i < j {
      RanksRise(h, status, i, j - 1);
      assert h[j].to in Next(h[j - 1].to);
    }
  }

  /** No status is visited twice, and a WorkOrder has at most ten rows. */
  lemma NoStatusTwice(s: State, o: Uuid)
    requires Inv(s) && o in s.orders
    ensures |s.orders[o].history| <= 10
    ensures forall i, j :: 0 <= i < j < |s.orders[o].history| ==> s.orders[o].history[i].to != s.orders[o].history[j].to
  {
    assert OrderOk(s, o);
    var h := s.orders[o].history;
    RanksRise(h, s.orders[o].status, 0, |h| - 1);
    forall i, j | 0 <= i < j < |h|
      ensures h[i].to != h[j].to
    {
      RanksRise(h, s.orders[o].status, i, j);
    }
  }

  /** One run where the status needs one, one receipt naming that run and the decision, no run without authority. */
  ghost predicate Substantiated(w: Order, decisions: map<Uuid, Decision>) {
    && (NeedsRun(w.status) ==> |w.runs| == 1)
    && (NeedsReceipt(w.status) ==>
          |w.receipts| == 1 && w.receipts[0].run == 0 && w.decision.Some? && w.receipts[0].decision == w.decision)
    && (w.runs != [] ==>
          && w.decision.Some? && w.decision.value in decisions
          && decisions[w.decision.value].outcome !in {Refuse, CapabilityMissing})
  }

  /** In every run, from EXECUTING to COMPLETED and from RECEIPT_WRITTEN to COMPLETED. */
  lemma Substantiation(tenant: Uuid, ops: seq<Op>, o: Uuid)
    requires o in After(tenant, ops).orders
    ensures Substantiated(After(tenant, ops).orders[o], After(tenant, ops).decisions)
  {
    ReachableStatesAreSound(tenant, ops);
    assert OrderOk(After(tenant, ops), o);
  }

  /** A transition can fail for what the caller asked, never for a missing or clashing row. */
  lemma ThrowsAreUnreachable(tenant: Uuid, ops: seq<Op>, q: Request)
    ensures var e := Transition(After(tenant, ops), q).1; e.Some? ==> !Broken(e.value)
  {
    ReachableStatesAreSound(tenant, ops);
    TransitionKeeps(After(tenant, ops), q);
  }

  lemma RunKeysAreUnique(s: State, o: Uuid, p: Uuid)
    requires Inv(s) && o in s.orders && p in s.orders && o != p
    ensures forall i, j :: 0 <= i < |s.orders[o].runs| && 0 <= j < |s.orders[p].runs| ==>
      s.orders[o].runs[i].key != s.orders[p].runs[j].key
  {
    assert OrderOk(s, o) && OrderOk(s, p);
    RunKeyNamesTheOrder(s.tenant, o, p);
  }

  lemma ReceiptKeysAreUnique(s: State, o: Uuid, p: Uuid)
    requires Inv(s) && o in s.orders && p in s.orders && o != p
    ensures forall i, j :: 0 <= i < |s.orders[o].receipts| && 0 <= j < |s.orders[p].receipts| ==>
      s.orders[o].receipts[i].key != s.orders[p].receipts[j].key
  {
    assert OrderOk(s, o) && OrderOk(s, p);
    ReceiptKeyNamesTheOrder(s.tenant, o, p);
  }

  ghost predicate DifferentKeys(w: Order, w': Order) {
    && (forall i, j :: 0 <= i < |w.runs| && 0 <= j < |w'.runs| ==> w.runs[i].key != w'.runs[j].key)
    && (forall i, j :: 0 <= i < |w.receipts| && 0 <= j < |w'.receipts| ==> w.receipts[i].key != w'.receipts[j].key)
  }

  /** In every run all run rows, and all receipt rows, of different WorkOrders have different keys. */
  lemma RowKeysAreUnique(tenant: Uuid, ops: seq<Op>, o: Uuid, p: Uuid)
    requires o in After(tenant, ops).orders && p in After(tenant, ops).orders && o != p
    ensures DifferentKeys(After(tenant, ops).orders[o], After(tenant, ops).orders[p])
  {
    ReachableStatesAreSound(tenant, ops);
    RunKeysAreUnique(After(tenant, ops), o, p);
    ReceiptKeysAreUnique(After(tenant, ops), o, p);
  }

  /** In every run one WorkOrder per key. */
  lemma OneOrderPerKey(tenant: Uuid, ops: seq<Op>, o: Uuid, p: Uuid)
    requires o in After(tenant, ops).orders && p in After(tenant, ops).orders
    requires After(tenant, ops).orders[o].key == After(tenant, ops).orders[p].key
    ensures o == p
  {
    ReachableStatesAreSound(tenant, ops);
    assert OrderOk(After(tenant, ops), o) && OrderOk(After(tenant, ops), p);
  }

  /** The terminal set is exactly the statuses without outgoing edges. */
  lemma TerminalIffNoEdge(s: Status)
    ensures Terminal(s) <==> Next(s) == {}
  {
    assert Failed in Next(Received) && Failed in Next(IntentParsed) && Failed in Next(AuthorityClassified);
    assert Failed in Next(ReadyToAct);
    assert Failed in Next(AwaitingAuthorization) && Failed in Next(SetupNeeded) && Failed in Next(Executing);
    assert Failed in Next(Validating);
    assert Failed in Next(ReceiptWritten) && Failed in Next(MemoryCandidatesCreated);
  }

  /** What the caller has to bring for an edge; the tables do the rest. */
  predicate CallerProvides(s: State, w: Order, q: Request) {
    && (w.status == IntentParsed && q.next == AuthorityClassified ==>
      q.decision.Some? && q.decision.value.actorKnown && q.decisionId !in s.decisions)
    && (w.status == AuthorityClassified && q.next != Failed ==>
      w.decision.Some? && w.decision.value in s.decisions
        && q.next == ExpectedStatus(s.decisions[w.decision.value].outcome))
    && (q.next == MemoryCandidatesCreated ==> q.candidate.Some?)
  }

  lemma SubstantiateSucceedsIff(s: State, w: Order, q: Request)
    requires Ready(s, w, q)
    ensures Substantiate(s, w, q).Ok? <==> CallerProvides(s, w, q)
  {
  }

  /** In every reachable state a transition goes through exactly when the edge exists and the caller's part is there. */
  lemma TransitionSucceedsIff(tenant: Uuid, ops: seq<Op>, q: Request)
    ensures var s := After(tenant, ops);
      Transition(s, q).1 == None <==>
        q.order in s.orders && q.next in Next(s.orders[q.order].status) && CallerProvides(s, s.orders[q.order], q)
  {
    var s := After(tenant, ops);
    ReachableStatesAreSound(tenant, ops);
    if q.order in s.orders && q.next in Next(s.orders[q.order].status) {
      assert OrderOk(s, q.order);
      SubstantiateSucceedsIff(s, s.orders[q.order], q);
    }
  }

  // ----- Later states

  /**
   Nothing is lost: the key stays, rows are only added, the decision link is written once, terminal
   WorkOrders stay as they are.
   */
  ghost predicate OrderGrows(w: Order, w': Order) {
    && w'.key == w.key && w.history <= w'.history && |w.runs| <= |w'.runs| && w.receipts <= w'.receipts
    && (w.decision.Some? ==> w'.decision == w.decision)
    && (Terminal(w.status) ==> w' == w)
  }

  ghost predicate Grows(s: State, s': State) {
    forall o {:trigger o in s'.orders} {:trigger o in s.orders} :: o in s.orders ==>
      o in s'.orders && OrderGrows(s.orders[o], s'.orders[o])
  }

  lemma TransitionGrows(s: State, q: Request)
    requires Inv(s)
    ensures Grows(s, Transition(s, q).0)
  {
    if q.order in s.orders && q.next in Next(s.orders[q.order].status) {
      assert OrderOk(s, q.order);
      SubstantiateSound(s, s.orders[q.order], q);
    }
  }

  lemma StepGrows(s: State, op: Op)
    requires Inv(s)
    ensures Grows(s, Step(s, op))
  {
    match op
    case CreateOp(_, _) =>
    case TransitionOp(q) => TransitionGrows(s, q);
  }

  lemma GrowsTransitive(a: State, b: State, c: State)
    requires Grows(a, b) && Grows(b, c)
    ensures Grows(a, c)
  {
    forall o | o in a.orders
      ensures o in c.orders && OrderGrows(a.orders[o], c.orders[o])
    {
      assert o in b.orders;
      var x, y, z := a.orders[o], b.orders[o], c.orders[o];
      PrefixTransitive(x.history, y.history, z.history);
      PrefixTransitive(x.receipts, y.receipts, z.receipts);
    }
  }

  lemma PrefixTransitive<T>(a: seq<T>, b: seq<T>, c: seq<T>)
    requires a <= b <= c
    ensures a <= c
  {
  }

  lemma OneMoreStepGrows(tenant: Uuid, ops: seq<Op>, op: Op)
    ensures Grows(After(tenant, ops), After(tenant, ops + [op]))
  {
    assert (ops + [op])[..|ops|] == ops;
    ReachableStatesAreSound(tenant, ops);
    StepGrows(After(tenant, ops), op);
  }

  lemma {:induction false} LaterStatesGrow(tenant: Uuid, ops: seq<Op>, more: seq<Op>)
    ensures Grows(After(tenant, ops), After(tenant, ops + more))
    decreases |more|
  {
    if more == [] {
      assert ops + more == ops;
    } else {
      var front, last := more[..|more| - 1], more[|more| - 1];
      LaterStatesGrow(tenant, ops, front);
      OneMoreStepGrows(tenant, ops + front, last);
      assert ops + front + [last] == ops + more;
      GrowsTransitive(After(tenant, ops), After(tenant, ops + front), After(tenant, ops + more));
    }
  }
}
