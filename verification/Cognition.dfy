/**
 Conversational cognitive runs and the model executor (src/cognition/,
 src/elora/llm/executeModelOperation.ts, src/elora/llm/operations/responseSynthesis.ts).

 Any number of callers may ask for the same run. Every write may succeed, fail without effect,
 or commit and still be reported as failed; a caller may crash anywhere; the provider may
 answer, answer badly, or time out. A run is named by its idempotency key, and its invocation
 key with attempt 1 admits one invocation row.
 */
module Cognition {
  import opened Options

  type Id = nat

  datatype Status = Pending | Running | Completed | Failed | Cancelled

  function Next(from: Status): set<Status> {
    match from
    case Pending => {Running, Cancelled}
    case Running => {Completed, Failed, Cancelled}
    case _ => {}
  }

  predicate Terminal(s: Status) { s in {Completed, Failed, Cancelled} }

  /** The terminal set is exactly the statuses without outgoing edges, and COMPLETED is reached from RUNNING only. */
  lemma GraphShape(s: Status)
    ensures Terminal(s) <==> Next(s) == {}
    ensures Completed in Next(s) <==> s == Running
  {
    assert Cancelled in Next(Pending) && Cancelled in Next(Running);
  }

  datatype Invocation = Started | Succeeded | FailedCall | TimedOut

  /** The rows of one run; `calls` and `marks` count provider calls and terminal writes. */
  datatype Run = Run(status: Status, history: seq<Status>, invocation: Option<Invocation>, calls: nat, marks: nat)

  const NEW_RUN := Run(Pending, [Pending], None, 0, 0)

  predicate Substantiated(run: Run) {
    run.invocation.Some? && run.invocation.value != Started
  }

  datatype Error = TerminalState | InvalidTransition | Unsubstantiated | DuplicateInvocation | NotFound | WriteFailed

  /** transitionCognitiveRun, with the completion gate. */
  function Transition(run: Run, to: Status): Result<Run, Error> {
    if Terminal(run.status) then Err(TerminalState)
    else if to !in Next(run.status) then Err(InvalidTransition)
    else if to == Completed && !Substantiated(run) then Err(Unsubstantiated)
    else Ok(run.(status := to, history := run.history + [to]))
  }

  /** insertStartedRow; the unique index rejects a second row. */
  function InsertStarted(run: Run): Result<Run, Error> {
    if run.invocation.Some? then Err(DuplicateInvocation) else Ok(run.(invocation := Some(Started)))
  }

  function MarkTerminal(run: Run, status: Invocation): Run {
    run.(invocation := Some(status), marks := run.marks + 1)
  }

  // ----- Callers

  datatype Pc =
    | Starting                          // transition to RUNNING comes next
    | Choosing                          // picks a provider
    | Inserting                         // content policy passed
    | Calling
    | Marking(status: Invocation)
    | Completing
    | Failing
    | Told(completed: bool)

  datatype Caller = Caller(run: Id, pc: Pc)

  datatype State = State(runs: map<Id, Run>, callers: map<Id, Caller>)

  datatype Op =
    | Create(c: Id, r: Id, fate: Fate)
    | Begin(c: Id, fate: Fate)
    | Choose(c: Id, available: bool)
    | Insert(c: Id, allowed: bool, fate: Fate)
    | Call(c: Id, result: Invocation)
    | Mark(c: Id, fate: Fate)
    | Complete(c: Id, fate: Fate)
    | Fail(c: Id, fate: Fate)
    | Throw(c: Id)
    | Crash(c: Id)
    | Cancel(r: Id)

  function Goto(s: State, c: Id, pc: Pc): State
    requires c in s.callers
  {
    s.(callers := s.callers[c := s.callers[c].(pc := pc)])
  }

  function Put(s: State, r: Id, run: Run): State {
    s.(runs := s.runs[r := run])
  }

  /** createCognitiveRun and the replay of a run that has already begun. */
  function CreateStep(s: State, c: Id, r: Id, fate: Fate): State {
    var s1 := if r in s.runs then s else Put(s, r, NEW_RUN);
    match fate
    case Lost => s
    case Unheard => s1
    case Heard =>
      var pc := if s1.runs[r].status == Pending then Starting else Told(s1.runs[r].status == Completed);
      s1.(callers := s1.callers[c := Caller(r, pc)])
  }

  /** A transition attempted by caller c: where it goes if heard, and if it throws. */
  function TransitionStep(s: State, c: Id, to: Status, fate: Fate, done: Pc, thrown: Pc): State
    requires c in s.callers && s.callers[c].run in s.runs
  {
    var r := s.callers[c].run;
    match Transition(s.runs[r], to)
    case Err(_) => Goto(s, c, thrown)
    case Ok(run) =>
      match fate
      case Heard => Goto(Put(s, r, run), c, done)
      case Lost => Goto(s, c, thrown)
      case Unheard => Goto(Put(s, r, run), c, thrown)
  }

  function InsertStep(s: State, c: Id, allowed: bool, fate: Fate): State
    requires c in s.callers && s.callers[c].run in s.runs
  {
    var r := s.callers[c].run;
    if !allowed then Goto(s, c, Failing)
    else match InsertStarted(s.runs[r])
      case Err(_) => Goto(s, c, Failing)
      case Ok(run) =>
        match fate
        case Heard => Goto(Put(s, r, run), c, Calling)
        case Lost => Goto(s, c, Failing)
        case Unheard => Goto(Put(s, r, run), c, Failing)
  }

  function CallStep(s: State, c: Id, result: Invocation): State
    requires c in s.callers && s.callers[c].run in s.runs
  {
    var r := s.callers[c].run;
    Goto(Put(s, r, s.runs[r].(calls := s.runs[r].calls + 1)), c,
      Marking(if result == Started then FailedCall else result))
  }

  /** One terminal write; whether it is heard or not, the answer (or the fallback) goes on to completion. */
  function MarkStep(s: State, c: Id, fate: Fate): State
    requires c in s.callers && s.callers[c].run in s.runs && s.callers[c].pc.Marking?
  {
    var r := s.callers[c].run;
    Goto(if fate == Lost then s else Put(s, r, MarkTerminal(s.runs[r], s.callers[c].pc.status)), c, Completing)
  }

  predicate Ready(s: State, c: Id) {
    c in s.callers && s.callers[c].run in s.runs
  }

  function Step(s: State, op: Op): State {
    match op
    case Create(c, r, fate) => if c in s.callers then s else CreateStep(s, c, r, fate)
    case Begin(c, fate) =>
      if Ready(s, c) && s.callers[c].pc == Starting then TransitionStep(s, c, Running, fate, Choosing, Told(false))
      else s
    case Choose(c, available) =>
      if Ready(s, c) && s.callers[c].pc == Choosing then Goto(s, c, if available then Inserting else Failing) else s
    case Insert(c, allowed, fate) =>
      if Ready(s, c) && s.callers[c].pc == Inserting then InsertStep(s, c, allowed, fate) else s
    case Call(c, result) => if Ready(s, c) && s.callers[c].pc == Calling then CallStep(s, c, result) else s
    case Mark(c, fate) => if Ready(s, c) && s.callers[c].pc.Marking? then MarkStep(s, c, fate) else s
    case Complete(c, fate) =>
      if Ready(s, c) && s.callers[c].pc == Completing then TransitionStep(s, c, Completed, fate, Told(true), Failing)
      else s
    case Fail(c, fate) =>
      if Ready(s, c) && s.callers[c].pc == Failing then TransitionStep(s, c, Failed, fate, Told(false), Told(false))
      else s
    case Throw(c) => if c in s.callers && Owns(s.callers[c].pc) then Goto(s, c, Failing) else s
    case Crash(c) => if c in s.callers && !s.callers[c].pc.Told? then s.(callers := s.callers - {c}) else s
    case Cancel(r) =>
      if r !in s.runs then s
      else match Transition(s.runs[r], Cancelled)
        case Err(_) => s
        case Ok(run) => Put(s, r, run)
  }

  /** The caller that moved the run to RUNNING, until it answers. */
  predicate Owns(pc: Pc) {
    !pc.Starting? && !pc.Told?
  }

  function After(ops: seq<Op>): State {
    if ops == [] then State(map[], map[]) else Step(After(ops[..|ops| - 1]), ops[|ops| - 1])
  }

  // ----- The invariant

  ghost predicate HistoryOk(run: Run) {
    && |run.history| >= 1 && run.history[0] == Pending && run.history[|run.history| - 1] == run.status
    && forall i :: 1 <= i < |run.history| ==> run.history[i] in Next(run.history[i - 1])
  }

  ghost predicate RunOk(run: Run) {
    && HistoryOk(run)
    && run.calls <= 1 && run.marks <= 1
    && (run.status == Pending ==> run.invocation == None)
    && (run.invocation == None ==> run.calls == 0)
    && (Substantiated(run) <==> run.marks == 1)
    && (run.marks == 1 ==> run.calls == 1)
    && (run.status == Completed ==> Substantiated(run))
  }

  /** What the owner's place says about the rows, and what an answer promises. */
  ghost predicate CallerOk(s: State, c: Id)
    requires c in s.callers
  {
    var Caller(r, pc) := s.callers[c];
    && r in s.runs
    && var run := s.runs[r];
    && (Owns(pc) ==> run.status != Pending)
    && (pc == Choosing || pc == Inserting ==> run.invocation == None)
    && (pc == Calling ==> run.invocation == Some(Started) && run.calls == 0)
    && (pc.Marking? ==> run.invocation == Some(Started) && run.calls == 1 && pc.status != Started)
    && (pc == Told(true) ==> run.status == Completed)
  }

  ghost predicate OneOwner(s: State) {
    forall c, d ::
      && c in s.callers && d in s.callers
      && Owns(s.callers[c].pc) && Owns(s.callers[d].pc) && s.callers[c].run == s.callers[d].run
      ==> c == d
  }

  ghost predicate Inv(s: State) {
    && (forall r :: r in s.runs ==> RunOk(s.runs[r]))
    && (forall c {:trigger CallerOk(s, c)} :: c in s.callers ==> CallerOk(s, c))
    && OneOwner(s)
  }

  /** How one run may change while its owner, if any, is the caller taking the step. */
  ghost predicate RunGrows(run: Run, run': Run) {
    && run.history <= run'.history && run.calls <= run'.calls && run.marks <= run'.marks
    && (run.status != Pending ==> run'.status != Pending)
    && (Terminal(run.status) ==> run'.status == run.status)
    && (Substantiated(run) ==> Substantiated(run'))
    && (run.invocation.Some? ==> run'.invocation.Some?)
  }

  lemma TransitionOk(run: Run, to: Status)
    requires RunOk(run) && Transition(run, to).Ok?
    ensures RunOk(Transition(run, to).value) && RunGrows(run, Transition(run, to).value)
  {
    var run' := Transition(run, to).value;
    assert forall i :: 0 <= i < |run.history| ==> run'.history[i] == run.history[i];
  }

  /**
   A step of caller c that changes at most its own run's row and its own place. Other callers of
   that run are waiting to begin, or have been told; nobody else owns it.
   */
  lemma CallerStepKeeps(s: State, s': State, c: Id)
    requires Inv(s) && c in s.callers && s'.callers.Keys == s.callers.Keys && s'.runs.Keys == s.runs.Keys
    requires forall d :: d in s.callers && d != c ==> s'.callers[d] == s.callers[d]
    requires forall r :: r in s.runs && r != s.callers[c].run ==> s'.runs[r] == s.runs[r]
    requires s'.callers[c].run == s.callers[c].run && s.callers[c].run in s.runs
    requires RunOk(s'.runs[s.callers[c].run]) && RunGrows(s.runs[s.callers[c].run], s'.runs[s.callers[c].run])
    requires CallerOk(s', c)
    requires Owns(s.callers[c].pc) || s'.runs[s.callers[c].run] == s.runs[s.callers[c].run]
      || s.runs[s.callers[c].run].status == Pending
    requires Owns(s'.callers[c].pc) ==> Owns(s.callers[c].pc) || s.runs[s.callers[c].run].status == Pending
    ensures Inv(s')
  {
    forall d {:trigger CallerOk(s', d)} | d in s'.callers
      ensures CallerOk(s', d)
    {
      assert CallerOk(s, d);
    }
    forall d, e | d in s'.callers && e in s'.callers && Owns(s'.callers[d].pc) && Owns(s'.callers[e].pc)
      && s'.callers[d].run == s'.callers[e].run
      ensures d == e
    {
      assert CallerOk(s, d) && CallerOk(s, e);
    }
  }

  lemma BeginKeeps(s: State, c: Id, fate: Fate)
    requires Inv(s) && Ready(s, c) && s.callers[c].pc == Starting
    ensures Inv(Step(s, Begin(c, fate)))
  {
    assert CallerOk(s, c);
    var run := s.runs[s.callers[c].run];
    if Transition(run, Running).Ok? {
      TransitionOk(run, Running);
    }
    CallerStepKeeps(s, Step(s, Begin(c, fate)), c);
  }

  /** Whether the write took effect, and where the caller goes on. */
  lemma OwnerMoves(s: State, c: Id, run: Run, pc: Pc)
    requires Inv(s) && Ready(s, c) && Owns(s.callers[c].pc)
    requires RunOk(run) && RunGrows(s.runs[s.callers[c].run], run) && run.status != Pending
    requires pc == Failing || pc == Told(false) || (pc == Told(true) && run.status == Completed)
    ensures Inv(Goto(Put(s, s.callers[c].run, run), c, pc))
  {
    assert CallerOk(s, c);
    CallerStepKeeps(s, Goto(Put(s, s.callers[c].run, run), c, pc), c);
  }

  lemma EndKeeps(s: State, c: Id, to: Status, fate: Fate, done: Pc, thrown: Pc)
    requires Inv(s) && Ready(s, c) && Owns(s.callers[c].pc)
    requires (to == Completed && done == Told(true) && thrown == Failing)
      || (to == Failed && done == Told(false) && thrown == Told(false))
    ensures Inv(TransitionStep(s, c, to, fate, done, thrown))
  {
    assert CallerOk(s, c);
    var r, run := s.callers[c].run, s.runs[s.callers[c].run];
    assert Put(s, r, run) == s;
    OwnerMoves(s, c, run, thrown);
    if Transition(run, to).Ok? {
      TransitionOk(run, to);
      OwnerMoves(s, c, Transition(run, to).value, done);
      OwnerMoves(s, c, Transition(run, to).value, thrown);
    }
  }

  lemma MoveKeeps(s: State, c: Id, pc: Pc)
    requires Inv(s) && Ready(s, c) && Owns(s.callers[c].pc)
    requires pc == Failing || (pc == Inserting && s.callers[c].pc == Choosing)
    ensures Inv(Goto(s, c, pc))
  {
    assert CallerOk(s, c);
    CallerStepKeeps(s, Goto(s, c, pc), c);
  }

  lemma InsertKeeps(s: State, c: Id, allowed: bool, fate: Fate)
    requires Inv(s) && Ready(s, c) && s.callers[c].pc == Inserting
    ensures Inv(InsertStep(s, c, allowed, fate))
  {
    assert CallerOk(s, c);
    CallerStepKeeps(s, InsertStep(s, c, allowed, fate), c);
  }

  lemma CallKeeps(s: State, c: Id, result: Invocation)
    requires Inv(s) && Ready(s, c) && s.callers[c].pc == Calling
    ensures Inv(CallStep(s, c, result))
  {
    assert CallerOk(s, c);
    CallerStepKeeps(s, CallStep(s, c, result), c);
  }

  lemma MarkKeeps(s: State, c: Id, fate: Fate)
    requires Inv(s) && Ready(s, c) && s.callers[c].pc.Marking?
    ensures Inv(MarkStep(s, c, fate))
  {
    assert CallerOk(s, c);
    CallerStepKeeps(s, MarkStep(s, c, fate), c);
  }

  lemma NewRunKeeps(s: State, r: Id)
    requires Inv(s) && r !in s.runs
    ensures Inv(Put(s, r, NEW_RUN))
  {
    var s' := Put(s, r, NEW_RUN);
    forall d {:trigger CallerOk(s', d)} | d in s'.callers
      ensures CallerOk(s', d)
    {
      assert CallerOk(s, d);
    }
  }

  /** A new caller waits to begin or is told what is stored; it owns nothing. */
  lemma NewCallerKeeps(s: State, c: Id, r: Id)
    requires Inv(s) && c !in s.callers && r in s.runs
    ensures Inv(CreateStep(s, c, r, Heard))
  {
    var s' := CreateStep(s, c, r, Heard);
    forall d {:trigger CallerOk(s', d)} | d in s'.callers
      ensures CallerOk(s', d)
    {
      if d != c {
        assert CallerOk(s, d);
      }
    }
  }

  lemma CreateKeeps(s: State, c: Id, r: Id, fate: Fate)
    requires Inv(s)
    ensures Inv(Step(s, Create(c, r, fate)))
  {
    if c !in s.callers && fate != Lost {
      if r !in s.runs {
        NewRunKeeps(s, r);
      }
      if fate == Heard {
        NewCallerKeeps(if r in s.runs then s else Put(s, r, NEW_RUN), c, r);
      }
    }
  }

  lemma OutsideKeeps(s: State, op: Op)
    requires Inv(s) && (op.Crash? || op.Cancel?)
    ensures Inv(Step(s, op))
  {
    var s' := Step(s, op);
    if op.Cancel? && op.r in s.runs && Transition(s.runs[op.r], Cancelled).Ok? {
      TransitionOk(s.runs[op.r], Cancelled);
    }
    forall d {:trigger CallerOk(s', d)} | d in s'.callers
      ensures CallerOk(s', d)
    {
      assert CallerOk(s, d);
    }
  }

  lemma StepKeeps(s: State, op: Op)
    requires Inv(s)
    ensures Inv(Step(s, op))
  {
    if op.Create? {
      CreateKeeps(s, op.c, op.r, op.fate);
    } else if op.Crash? || op.Cancel? {
      OutsideKeeps(s, op);
    } else if op.c in s.callers {
      assert CallerOk(s, op.c);
      var pc := s.callers[op.c].pc;
      match op {
        case Begin(c, fate) => if pc == Starting { BeginKeeps(s, c, fate); }
        case Choose(c, available) => if pc == Choosing { MoveKeeps(s, c, if available then Inserting else Failing); }
        case Insert(c, allowed, fate) => if pc == Inserting { InsertKeeps(s, c, allowed, fate); }
        case Call(c, result) => if pc == Calling { CallKeeps(s, c, result); }
        case Mark(c, fate) => if pc.Marking? { MarkKeeps(s, c, fate); }
        case Complete(c, fate) => if pc == Completing { EndKeeps(s, c, Completed, fate, Told(true), Failing); }
        case Fail(c, fate) => if pc == Failing { EndKeeps(s, c, Failed, fate, Told(false), Told(false)); }
        case Throw(c) => if Owns(pc) { MoveKeeps(s, c, Failing); }
      }
    }
  }

  lemma {:induction false} ReachableStatesAreSound(ops: seq<Op>)
    ensures Inv(After(ops))
  {
    if ops != [] {
      ReachableStatesAreSound(ops[..|ops| - 1]);
      StepKeeps(After(ops[..|ops| - 1]), ops[|ops| - 1]);
    }
  }

  /** The provider is called at most once per run, and an invocation row gets at most one terminal write. */
  lemma AtMostOneCall(ops: seq<Op>, r: Id)
    requires r in After(ops).runs
    ensures After(ops).runs[r].calls <= 1 && After(ops).runs[r].marks <= 1
  {
    ReachableStatesAreSound(ops);
  }

  // ----- What a caller was told stays true

  ghost predicate Later(s: State, s': State) {
    && (forall r :: r in s.runs ==> r in s'.runs && Lasting(s.runs[r], s'.runs[r]))
    && (forall c :: c in s.callers && s.callers[c].pc.Told? ==> c in s'.callers && s'.callers[c] == s.callers[c])
  }

  ghost predicate Lasting(run: Run, run': Run) {
    && (Terminal(run.status) ==> run'.status == run.status)
    && (Substantiated(run) ==> Substantiated(run'))
  }

  lemma PutIsLater(s: State, s': State, r: Id)
    requires forall q :: q in s.runs ==> q in s'.runs && (q != r ==> s'.runs[q] == s.runs[q])
    requires r in s.runs ==> Lasting(s.runs[r], s'.runs[r])
    requires forall c :: c in s.callers && s.callers[c].pc.Told? ==> c in s'.callers && s'.callers[c] == s.callers[c]
    ensures Later(s, s')
  {
  }

  lemma InsertIsLater(s: State, c: Id, allowed: bool, fate: Fate)
    requires Ready(s, c) && !s.callers[c].pc.Told? && s.runs[s.callers[c].run].invocation == None
    ensures Later(s, InsertStep(s, c, allowed, fate))
  {
    PutIsLater(s, InsertStep(s, c, allowed, fate), s.callers[c].run);
  }

  lemma CallIsLater(s: State, c: Id, result: Invocation)
    requires Ready(s, c) && !s.callers[c].pc.Told?
    ensures Later(s, CallStep(s, c, result))
  {
    PutIsLater(s, CallStep(s, c, result), s.callers[c].run);
  }

  lemma MarkIsLater(s: State, c: Id, fate: Fate)
    requires Ready(s, c) && s.callers[c].pc.Marking? && s.callers[c].pc.status != Started
    ensures Later(s, MarkStep(s, c, fate))
  {
    PutIsLater(s, MarkStep(s, c, fate), s.callers[c].run);
  }

  lemma ExecutorIsLater(s: State, op: Op)
    requires Inv(s) && (op.Insert? || op.Call? || op.Mark?) && op.c in s.callers
    ensures Later(s, Step(s, op))
  {
    assert CallerOk(s, op.c);
    var pc := s.callers[op.c].pc;
    match op
    case Insert(c, allowed, fate) => if pc == Inserting { InsertIsLater(s, c, allowed, fate); }
    case Call(c, result) => if pc == Calling { CallIsLater(s, c, result); }
    case Mark(c, fate) => if pc.Marking? { MarkIsLater(s, c, fate); }
  }

  lemma TransitionLasts(run: Run, to: Status)
    requires Transition(run, to).Ok?
    ensures Lasting(run, Transition(run, to).value)
  {
  }

  lemma MoveIsLater(s: State, c: Id, run: Run, pc: Pc)
    requires Ready(s, c) && !s.callers[c].pc.Told? && Lasting(s.runs[s.callers[c].run], run)
    ensures Later(s, Goto(Put(s, s.callers[c].run, run), c, pc)) && Later(s, Goto(s, c, pc))
  {
  }

  lemma TransitionStepIsLater(s: State, c: Id, to: Status, fate: Fate, done: Pc, thrown: Pc)
    requires Ready(s, c) && !s.callers[c].pc.Told?
    ensures Later(s, TransitionStep(s, c, to, fate, done, thrown))
  {
    var run := s.runs[s.callers[c].run];
    MoveIsLater(s, c, run, thrown);
    if Transition(run, to).Ok? {
      TransitionLasts(run, to);
      MoveIsLater(s, c, Transition(run, to).value, done);
      MoveIsLater(s, c, Transition(run, to).value, thrown);
    }
  }

  lemma TransitionIsLater(s: State, op: Op)
    requires (op.Begin? || op.Complete? || op.Fail?) && op.c in s.callers
    ensures Later(s, Step(s, op))
  {
    if Ready(s, op.c) && !s.callers[op.c].pc.Told? {
      match op
      case Begin(c, fate) => TransitionStepIsLater(s, c, Running, fate, Choosing, Told(false));
      case Complete(c, fate) => TransitionStepIsLater(s, c, Completed, fate, Told(true), Failing);
      case Fail(c, fate) => TransitionStepIsLater(s, c, Failed, fate, Told(false), Told(false));
    }
  }

  lemma StepIsLater(s: State, op: Op)
    requires Inv(s)
    ensures Later(s, Step(s, op))
  {
    if op.Insert? || op.Call? || op.Mark? {
      if op.c in s.callers {
        ExecutorIsLater(s, op);
      }
    } else if op.Begin? || op.Complete? || op.Fail? {
      if op.c in s.callers {
        TransitionIsLater(s, op);
      }
    } else {
      RestIsLater(s, op);
    }
  }

  lemma RestIsLater(s: State, op: Op)
    requires op.Create? || op.Choose? || op.Throw? || op.Crash? || op.Cancel?
    ensures Later(s, Step(s, op))
  {
  }

  lemma OneMoreIsLater(ops: seq<Op>, op: Op)
    ensures Later(After(ops), After(ops + [op]))
  {
    assert (ops + [op])[..|ops|] == ops;
    ReachableStatesAreSound(ops);
    StepIsLater(After(ops), op);
  }

  lemma LaterTransitive(a: State, b: State, c: State)
    requires Later(a, b) && Later(b, c)
    ensures Later(a, c)
  {
    forall r | r in a.runs
      ensures r in c.runs && Lasting(a.runs[r], c.runs[r])
    {
      assert r in b.runs;
    }
    forall d | d in a.callers && a.callers[d].pc.Told?
      ensures d in c.callers && c.callers[d] == a.callers[d]
    {
      assert d in b.callers;
    }
  }

  lemma {:induction false} ContinuationsAreLater(ops: seq<Op>, more: seq<Op>)
    ensures Later(After(ops), After(ops + more))
    decreases |more|
  {
    if more == [] {
      assert ops + more == ops;
    } else {
      var front, last := more[..|more| - 1], more[|more| - 1];
      ContinuationsAreLater(ops, front);
      OneMoreIsLater(ops + front, last);
      assert ops + front + [last] == ops + more;
      LaterTransitive(After(ops), After(ops + front), After(ops + more));
    }
  }

  /** Whoever is told COMPLETED: the stored run is COMPLETED with a terminal invocation row, now and ever after. */
  lemma ToldCompletedIsTrue(ops: seq<Op>, more: seq<Op>, c: Id)
    requires c in After(ops).callers && After(ops).callers[c].pc == Told(true)
    ensures var s, r := After(ops + more), After(ops).callers[c].run;
      r in s.runs && s.runs[r].status == Completed && Substantiated(s.runs[r]) && s.runs[r].calls == 1
        && s.runs[r].marks == 1
  {
    ReachableStatesAreSound(ops);
    ReachableStatesAreSound(ops + more);
    assert CallerOk(After(ops), c);
    ContinuationsAreLater(ops, more);
  }
}
