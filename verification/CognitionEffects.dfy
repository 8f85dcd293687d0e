/**
 What a transition of a cognitive run needs and does, and how one conversational call ends, for
 every way its writes, its provider and its policy can turn out
 (src/cognition/transitionCognitiveRun.ts, src/cognition/runConversationalCognitiveRun.ts).
 */
module CognitionEffects {
  import opened Options
  import opened Cognition

  // ----- Transitions

  /** The five edges, by where they lead. */
  predicate Edge(from: Status, to: Status) {
    match to
    case Pending => false
    case Running => from == Pending
    case Completed => from == Running
    case Failed => from == Running
    case Cancelled => from == Pending || from == Running
  }

  /** COMPLETED needs an invocation that came to an end, well or badly. */
  predicate MayMove(run: Run, to: Status) {
    && Edge(run.status, to)
    && (to == Completed ==> run.invocation in {Some(Succeeded), Some(FailedCall), Some(TimedOut)})
  }

  /** Allowed exactly over an edge and with the evidence; only status and history change. */
  lemma TransitionIff(run: Run, to: Status)
    ensures Transition(run, to).Ok? <==> MayMove(run, to)
    ensures MayMove(run, to) ==>
      Transition(run, to) == Ok(Run(to, run.history + [to], run.invocation, run.calls, run.marks))
    ensures Transition(run, to) == Err(TerminalState) <==> run.status in {Completed, Failed, Cancelled}
    ensures Transition(run, to) == Err(Unsubstantiated) <==>
      run.status == Running && to == Completed && !MayMove(run, to)
  {
  }

  /** A run gets one invocation row: STARTED, and only while there is none. */
  lemma InsertsOnce(run: Run)
    ensures InsertStarted(run) ==
      if run.invocation == None then Ok(Run(run.status, run.history, Some(Started), run.calls, run.marks))
      else Err(DuplicateInvocation)
  {
  }

  // ----- One call from start to answer

  /** What goes wrong along the way; an `answer` of Started stands for a provider that threw. */
  datatype Script = Script(create: Fate, begin: Fate, provider: bool, allowed: bool, insert: Fate, answer: Invocation,
    mark: Fate, complete: Fate, fail: Fate)

  /** The call got through to the provider. */
  predicate Called(script: Script) {
    script.create == Heard && script.begin == Heard && script.provider && script.allowed && script.insert == Heard
  }

  /** COMPLETED was stored: the provider was called, its end was recorded, and the last write took effect. */
  predicate Completes(script: Script) {
    Called(script) && script.mark != Lost && script.complete != Lost
  }

  /** FAILED was stored instead. */
  predicate Fails(script: Script) {
    script.create == Heard && script.begin == Heard && !Completes(script) && script.fail != Lost
  }

  /** The invocation row a fresh run ends up with. */
  function RowLeft(script: Script): Option<Invocation> {
    if Called(script) && script.mark != Lost then
      Some(if script.answer == Started then FailedCall else script.answer)
    else if script.create == Heard && script.begin == Heard && script.provider && script.allowed
      && script.insert != Lost then Some(Started)
    else None
  }

  /** The statuses a fresh run goes through. */
  function Path(script: Script): seq<Status> {
    (if script.create == Heard && script.begin != Lost then [Running] else [])
    + (if Completes(script) then [Completed] else if Fails(script) then [Failed] else [])
  }

  /**
   How a call ends. A run that has begun is only replayed. A fresh one goes the way of the script.
   COMPLETED is answered exactly if it was stored and heard, or found.
   */
  ghost predicate Played(before: Option<Run>, after: Option<Run>, script: Script, told: Option<bool>) {
    && (told == None <==> script.create != Heard)
    && if before.Some? && before.value.status != Pending then
        && after == before
        && (told == Some(true) <==> script.create == Heard && before.value.status == Completed)
      else if script.create == Lost then
        after == before
      else
        && after.Some?
        && after.value.history == (if before.Some? then before.value.history else [Pending]) + Path(script)
        && after.value.status == (if Path(script) == [] then Pending else Path(script)[|Path(script)| - 1])
        && after.value.invocation == RowLeft(script)
        && after.value.calls == (if Called(script) then 1 else 0)
        && after.value.marks == (if Called(script) && script.mark != Lost then 1 else 0)
        && (told == Some(true) <==> Completes(script) && script.complete == Heard)
  }

  function Find(runs: map<Id, Run>, r: Id): Option<Run> {
    if r in runs then Some(runs[r]) else None
  }

  // ----- The state machine plays the script

  function ScriptOps(c: Id, r: Id, script: Script): seq<Op> {
    [Create(c, r, script.create), Begin(c, script.begin), Choose(c, script.provider),
     Insert(c, script.allowed, script.insert), Call(c, script.answer), Mark(c, script.mark),
     Complete(c, script.complete), Fail(c, script.fail)]
  }

  function Steps(s: State, ops: seq<Op>): State
    decreases |ops|
  {
    if ops == [] then s else Steps(Step(s, ops[0]), ops[1..])
  }

  lemma {:induction false} AfterSteps(ops: seq<Op>, more: seq<Op>)
    ensures After(ops + more) == Steps(After(ops), more)
    decreases |more|
  {
    if more == [] {
      assert ops + more == ops;
    } else {
      assert (ops + [more[0]])[..|ops|] == ops;
      assert (ops + [more[0]]) + more[1..] == ops + more;
      AfterSteps(ops + [more[0]], more[1..]);
    }
  }

  /** Caller c stands at pc with its run as given, everything else as in s. */
  function At(s: State, c: Id, r: Id, run: Run, pc: Pc): State {
    State(s.runs[r := run], s.callers[c := Caller(r, pc)])
  }

  /** Where a transition leaves its caller. */
  function Landing(ok: bool, fate: Fate, done: Pc, thrown: Pc): Pc {
    if ok && fate == Heard then done else thrown
  }

  function Tried(run: Run, to: Status, fate: Fate): Run {
    if MayMove(run, to) && fate != Lost then run.(status := to, history := run.history + [to]) else run
  }

  lemma TransitionAt(s: State, c: Id, r: Id, run: Run, pc: Pc, to: Status, fate: Fate, done: Pc, thrown: Pc)
    ensures TransitionStep(At(s, c, r, run, pc), c, to, fate, done, thrown)
         == At(s, c, r, Tried(run, to, fate), Landing(MayMove(run, to), fate, done, thrown))
  {
    TransitionIff(run, to);
    var s1 := At(s, c, r, run, pc);
    var run' := Tried(run, to, fate);
    assert s1.runs[r := run'] == s.runs[r := run'];
    assert forall p :: s1.callers[c := Caller(r, p)] == s.callers[c := Caller(r, p)];
  }

  lemma MoveAt(s: State, c: Id, r: Id, run: Run, pc: Pc, run': Run, pc': Pc)
    ensures Goto(Put(At(s, c, r, run, pc), r, run'), c, pc') == At(s, c, r, run', pc')
    ensures Goto(At(s, c, r, run, pc), c, pc') == At(s, c, r, run, pc')
  {
    assert s.runs[r := run][r := run'] == s.runs[r := run'];
    assert s.callers[c := Caller(r, pc)][c := Caller(r, pc')] == s.callers[c := Caller(r, pc')];
  }

  lemma NextOp(s: State, c: Id, r: Id, script: Script, i: nat)
    requires i < 8
    ensures Steps(s, ScriptOps(c, r, script)[i..])
         == Steps(Step(s, ScriptOps(c, r, script)[i]), ScriptOps(c, r, script)[i + 1..])
  {
    var ops := ScriptOps(c, r, script);
    assert ops[i..][0] == ops[i] && ops[i..][1..] == ops[i + 1..];
  }

  lemma ToldStays(s: State, c: Id, r: Id, run: Run, script: Script, b: bool, i: nat)
    requires 1 <= i < 8
    ensures Step(At(s, c, r, run, Told(b)), ScriptOps(c, r, script)[i]) == At(s, c, r, run, Told(b))
  {
    var op := ScriptOps(c, r, script)[i];
    assert !op.Create? && !op.Throw? && !op.Crash? && !op.Cancel? && op.c == c;
  }

  lemma {:induction false} ToldAt(s: State, c: Id, r: Id, run: Run, script: Script, b: bool, i: nat)
    requires 1 <= i <= 8
    ensures Steps(At(s, c, r, run, Told(b)), ScriptOps(c, r, script)[i..]) == At(s, c, r, run, Told(b))
    decreases 8 - i
  {
    if i < 8 {
      NextOp(At(s, c, r, run, Told(b)), c, r, script, i);
      ToldStays(s, c, r, run, script, b, i);
      ToldAt(s, c, r, run, script, b, i + 1);
    }
  }

  lemma FailingStays(s: State, c: Id, r: Id, run: Run, script: Script, i: nat)
    requires 1 <= i < 7
    ensures Step(At(s, c, r, run, Failing), ScriptOps(c, r, script)[i]) == At(s, c, r, run, Failing)
  {
    var op := ScriptOps(c, r, script)[i];
    assert !op.Create? && !op.Fail? && !op.Throw? && !op.Crash? && !op.Cancel? && op.c == c;
  }

  lemma FailAt(s: State, c: Id, r: Id, run: Run, script: Script)
    ensures Steps(At(s, c, r, run, Failing), ScriptOps(c, r, script)[7..])
         == At(s, c, r, Tried(run, Failed, script.fail), Told(false))
  {
    NextOp(At(s, c, r, run, Failing), c, r, script, 7);
    TransitionAt(s, c, r, run, Failing, Failed, script.fail, Told(false), Told(false));
    ToldAt(s, c, r, Tried(run, Failed, script.fail), script, false, 8);
  }

  /** A caller on its way to FAILED does nothing until the last step. */
  lemma {:induction false} FailingAt(s: State, c: Id, r: Id, run: Run, script: Script, i: nat)
    requires 1 <= i <= 7
    ensures Steps(At(s, c, r, run, Failing), ScriptOps(c, r, script)[i..])
         == At(s, c, r, Tried(run, Failed, script.fail), Told(false))
    decreases 7 - i
  {
    if i < 7 {
      NextOp(At(s, c, r, run, Failing), c, r, script, i);
      FailingStays(s, c, r, run, script, i);
      FailingAt(s, c, r, run, script, i + 1);
    } else {
      FailAt(s, c, r, run, script);
    }
  }

  /** Completion, or the failure of it. */
  function Ended(run: Run, script: Script): (Run, bool) {
    var run' := Tried(run, Completed, script.complete);
    if MayMove(run, Completed) && script.complete == Heard then (run', true)
    else (Tried(run', Failed, script.fail), false)
  }

  lemma CompletingAt(s: State, c: Id, r: Id, run: Run, script: Script)
    ensures var (last, told) := Ended(run, script);
      Steps(At(s, c, r, run, Completing), ScriptOps(c, r, script)[6..]) == At(s, c, r, last, Told(told))
  {
    NextOp(At(s, c, r, run, Completing), c, r, script, 6);
    TransitionAt(s, c, r, run, Completing, Completed, script.complete, Told(true), Failing);
    var run' := Tried(run, Completed, script.complete);
    if MayMove(run, Completed) && script.complete == Heard {
      ToldAt(s, c, r, run', script, true, 7);
    } else {
      FailingAt(s, c, r, run', script, 7);
    }
  }

  function Marked(run: Run, status: Invocation, fate: Fate): Run {
    if fate == Lost then run else run.(invocation := Some(status), marks := run.marks + 1)
  }

  lemma MarkAt(s: State, c: Id, r: Id, run: Run, status: Invocation, fate: Fate)
    ensures Step(At(s, c, r, run, Marking(status)), Mark(c, fate)) == At(s, c, r, Marked(run, status, fate), Completing)
  {
    MoveAt(s, c, r, run, Marking(status), Marked(run, status, fate), Completing);
  }

  lemma MarkingAt(s: State, c: Id, r: Id, run: Run, status: Invocation, script: Script)
    ensures var (last, told) := Ended(Marked(run, status, script.mark), script);
      Steps(At(s, c, r, run, Marking(status)), ScriptOps(c, r, script)[5..]) == At(s, c, r, last, Told(told))
  {
    NextOp(At(s, c, r, run, Marking(status)), c, r, script, 5);
    MarkAt(s, c, r, run, status, script.mark);
    CompletingAt(s, c, r, Marked(run, status, script.mark), script);
  }

  /** The run after the provider has been called, and after its end has been recorded. */
  function Answered(run: Run, script: Script): Run {
    Marked(run.(calls := run.calls + 1), if script.answer == Started then FailedCall else script.answer, script.mark)
  }

  lemma CallAt(s: State, c: Id, r: Id, run: Run, answer: Invocation)
    ensures Step(At(s, c, r, run, Calling), Call(c, answer))
         == At(s, c, r, run.(calls := run.calls + 1), Marking(if answer == Started then FailedCall else answer))
  {
    MoveAt(s, c, r, run, Calling, run.(calls := run.calls + 1),
      Marking(if answer == Started then FailedCall else answer));
  }

  lemma CallingAt(s: State, c: Id, r: Id, run: Run, script: Script)
    ensures var (last, told) := Ended(Answered(run, script), script);
      Steps(At(s, c, r, run, Calling), ScriptOps(c, r, script)[4..]) == At(s, c, r, last, Told(told))
  {
    NextOp(At(s, c, r, run, Calling), c, r, script, 4);
    CallAt(s, c, r, run, script.answer);
    MarkingAt(s, c, r, run.(calls := run.calls + 1), if script.answer == Started then FailedCall else script.answer,
      script);
  }

  lemma InsertAt(s: State, c: Id, r: Id, run: Run, allowed: bool, fate: Fate)
    ensures Step(At(s, c, r, run, Inserting), Insert(c, allowed, fate))
         == At(s, c, r,
              if allowed && run.invocation == None && fate != Lost then run.(invocation := Some(Started)) else run,
              if allowed && run.invocation == None && fate == Heard then Calling else Failing)
  {
    MoveAt(s, c, r, run, Inserting, run.(invocation := Some(Started)), Calling);
    MoveAt(s, c, r, run, Inserting, run.(invocation := Some(Started)), Failing);
  }

  /** From the policy decision on. */
  function Executed(run: Run, script: Script): (Run, bool) {
    var inserted := if script.allowed && script.insert != Lost then run.(invocation := Some(Started)) else run;
    if script.allowed && script.insert == Heard then Ended(Answered(inserted, script), script)
    else (Tried(inserted, Failed, script.fail), false)
  }

  lemma InsertingAt(s: State, c: Id, r: Id, run: Run, script: Script)
    requires run.invocation == None
    ensures var (last, told) := Executed(run, script);
      Steps(At(s, c, r, run, Inserting), ScriptOps(c, r, script)[3..]) == At(s, c, r, last, Told(told))
  {
    NextOp(At(s, c, r, run, Inserting), c, r, script, 3);
    InsertAt(s, c, r, run, script.allowed, script.insert);
    var inserted := if script.allowed && script.insert != Lost then run.(invocation := Some(Started)) else run;
    if script.allowed && script.insert == Heard {
      CallingAt(s, c, r, inserted, script);
    } else {
      FailingAt(s, c, r, inserted, script, 4);
    }
  }

  /** From the choice of a provider on. */
  function Chosen(run: Run, script: Script): (Run, bool) {
    if script.provider then Executed(run, script) else (Tried(run, Failed, script.fail), false)
  }

  lemma ChoosingAt(s: State, c: Id, r: Id, run: Run, script: Script)
    requires run.invocation == None
    ensures var (last, told) := Chosen(run, script);
      Steps(At(s, c, r, run, Choosing), ScriptOps(c, r, script)[2..]) == At(s, c, r, last, Told(told))
  {
    NextOp(At(s, c, r, run, Choosing), c, r, script, 2);
    if script.provider {
      MoveAt(s, c, r, run, Choosing, run, Inserting);
      InsertingAt(s, c, r, run, script);
    } else {
      MoveAt(s, c, r, run, Choosing, run, Failing);
      FailingAt(s, c, r, run, script, 3);
    }
  }

  /** The whole way of a fresh run. */
  function Whole(run: Run, script: Script): (Run, bool) {
    var begun := Tried(run, Running, script.begin);
    if script.begin == Heard then Chosen(begun, script) else (begun, false)
  }

  lemma StartingAt(s: State, c: Id, r: Id, run: Run, script: Script)
    requires run.status == Pending && run.invocation == None
    ensures var (last, told) := Whole(run, script);
      Steps(At(s, c, r, run, Starting), ScriptOps(c, r, script)[1..]) == At(s, c, r, last, Told(told))
  {
    NextOp(At(s, c, r, run, Starting), c, r, script, 1);
    TransitionAt(s, c, r, run, Starting, Running, script.begin, Choosing, Told(false));
    if script.begin != Heard {
      ToldAt(s, c, r, Tried(run, Running, script.begin), script, false, 2);
    } else {
      ChoosingAt(s, c, r, Tried(run, Running, script.begin), script);
    }
  }

  lemma WholeIsPlayed(run: Run, script: Script)
    requires run.status == Pending && run.invocation == None && run.calls == 0 && run.marks == 0
    requires script.create == Heard
    ensures Played(Some(run), Some(Whole(run, script).0), script, Some(Whole(run, script).1))
  {
    var last := Whole(run, script).0;
    assert last.history == run.history + Path(script);
  }

  lemma AbsentStays(s: State, c: Id, r: Id, script: Script, i: nat)
    requires 1 <= i < 8 && c !in s.callers
    ensures Step(s, ScriptOps(c, r, script)[i]) == s
  {
    var op := ScriptOps(c, r, script)[i];
    assert !op.Create? && !op.Throw? && !op.Crash? && !op.Cancel? && op.c == c;
  }

  lemma {:induction false} AbsentAt(s: State, c: Id, r: Id, script: Script, i: nat)
    requires 1 <= i <= 8 && c !in s.callers
    ensures Steps(s, ScriptOps(c, r, script)[i..]) == s
    decreases 8 - i
  {
    if i < 8 {
      NextOp(s, c, r, script, i);
      AbsentStays(s, c, r, script, i);
      AbsentAt(s, c, r, script, i + 1);
    }
  }

  /** What caller c has been told. */
  function Answer(s: State, c: Id): Option<bool> {
    if c in s.callers && s.callers[c].pc.Told? then Some(s.callers[c].pc.completed) else None
  }

  lemma PendingIsFresh(s: State, r: Id)
    requires Inv(s) && r in s.runs && s.runs[r].status == Pending
    ensures s.runs[r].invocation == None && s.runs[r].calls == 0 && s.runs[r].marks == 0
  {
    assert RunOk(s.runs[r]);
  }

  lemma CreatedAt(s: State, c: Id, r: Id)
    requires c !in s.callers
    ensures var run := if r in s.runs then s.runs[r] else NEW_RUN;
      Step(s, Create(c, r, Heard)) ==
      At(s, c, r, run, if run.status == Pending then Starting else Told(run.status == Completed))
  {
    if r in s.runs {
      assert s.runs[r := s.runs[r]] == s.runs;
    }
  }

  /** A creation that was heard: the run as found or made, and the end of the script. */
  lemma HeardCaller(s: State, c: Id, r: Id, script: Script) returns (last: Run, told: bool)
    requires Inv(s) && c !in s.callers && script.create == Heard
    ensures Steps(s, ScriptOps(c, r, script)) == At(s, c, r, last, Told(told))
    ensures Played(Find(s.runs, r), Some(last), script, Some(told))
  {
    var run := if r in s.runs then s.runs[r] else NEW_RUN;
    assert ScriptOps(c, r, script)[0..] == ScriptOps(c, r, script);
    NextOp(s, c, r, script, 0);
    CreatedAt(s, c, r);
    if run.status == Pending {
      if r in s.runs {
        PendingIsFresh(s, r);
      }
      StartingAt(s, c, r, run, script);
      WholeIsPlayed(run, script);
      last, told := Whole(run, script).0, Whole(run, script).1;
    } else {
      ToldAt(s, c, r, run, script, run.status == Completed, 1);
      last, told := run, run.status == Completed;
    }
  }

  /** In any sound state a new caller gets what the script says, and no other run or caller is touched. */
  lemma ScriptedCaller(s: State, c: Id, r: Id, script: Script)
    requires Inv(s) && c !in s.callers
    ensures var s' := Steps(s, ScriptOps(c, r, script));
      && Played(Find(s.runs, r), Find(s'.runs, r), script, Answer(s', c))
      && (forall q :: q in s.runs && q != r ==> q in s'.runs && s'.runs[q] == s.runs[q])
      && (forall d :: d in s.callers ==> d in s'.callers && s'.callers[d] == s.callers[d])
  {
    if script.create == Heard {
      var last, told := HeardCaller(s, c, r, script);
    } else {
      assert ScriptOps(c, r, script)[0..] == ScriptOps(c, r, script);
      NextOp(s, c, r, script, 0);
      UnheardCaller(s, c, r, script);
      AbsentAt(Step(s, Create(c, r, script.create)), c, r, script, 1);
    }
  }

  lemma UnheardCaller(s: State, c: Id, r: Id, script: Script)
    requires Inv(s) && c !in s.callers && script.create != Heard
    ensures var s' := Step(s, Create(c, r, script.create));
      && s' == s.(runs := if script.create == Lost || r in s.runs then s.runs else s.runs[r := NEW_RUN])
      && Played(Find(s.runs, r), Find(s'.runs, r), script, None)
  {
    if r in s.runs && s.runs[r].status == Pending {
      PendingIsFresh(s, r);
      assert HistoryOk(s.runs[r]);
    }
  }

  // ----- COMPLETED can be reached

  predicate AllHeard(script: Script) {
    && script.create == Heard && script.begin == Heard && script.provider && script.allowed
    && script.insert == Heard && script.mark == Heard && script.complete == Heard
  }

  /**
   From every reachable state a new caller of a run that is absent or PENDING can be told COMPLETED,
   whatever the provider answers; the run then is COMPLETED with one recorded call.
   */
  lemma CompletedIsReachable(ops: seq<Op>, c: Id, r: Id, script: Script)
    requires c !in After(ops).callers && AllHeard(script)
    requires r in After(ops).runs ==> After(ops).runs[r].status == Pending
    ensures var s' := After(ops + ScriptOps(c, r, script));
      && Answer(s', c) == Some(true) && r in s'.runs && s'.runs[r].status == Completed
      && s'.runs[r].calls == 1 && s'.runs[r].marks == 1
  {
    ReachableStatesAreSound(ops);
    AfterSteps(ops, ScriptOps(c, r, script));
    ScriptedCaller(After(ops), c, r, script);
  }

  /** A run may be cancelled while its graph allows it; an owner may throw, anybody not yet told may crash. */
  lemma OutsideStepIsExact(s: State, op: Op)
    requires op.Cancel? || op.Throw? || op.Crash?
    ensures Step(s, op) == match op
      case Cancel(r) =>
        if r in s.runs && Edge(s.runs[r].status, Cancelled) then
          s.(runs := s.runs[r := s.runs[r].(status := Cancelled, history := s.runs[r].history + [Cancelled])])
        else s
      case Throw(c) =>
        if c in s.callers && s.callers[c].pc != Starting && !s.callers[c].pc.Told? then
          s.(callers := s.callers[c := Caller(s.callers[c].run, Failing)])
        else s
      case Crash(c) => if Answer(s, c) == None then s.(callers := s.callers - {c}) else s
  {
    if op.Cancel? && op.r in s.runs {
      TransitionIff(s.runs[op.r], Cancelled);
    }
  }
}
