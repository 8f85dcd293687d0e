/**
 How one gateway call ends, for every way its writes, the validations and the handler can turn out
 (src/tools/gateway.ts).
 */
module GatewayEffects {
  import opened Options
  import opened Keys
  import opened Gateway
  import W = WorkOrders

  datatype Answer = Denied | Threw | Answered(id: Uuid, status: Status)

  /** What the id generator, the writes, input validation, the handler and output validation turn out to do. */
  datatype Script = Script(id: Uuid, insert: Fate, valid: bool, good: bool, mark: Fate)

  /** The row a first call leaves: no handler run without valid input, no success without good output. */
  function RowLeft(script: Script): Invocation {
    var marked := script.insert == Heard && script.mark != Lost;
    Invocation(script.id,
      if !marked then Pending else if script.valid && script.good then Succeeded else Failed,
      if script.insert == Heard && script.valid then 1 else 0,
      if marked then 1 else 0)
  }

  /**
   Without authority nothing happens. A key with a row is only replayed. A first call inserts its row,
   unless the id is taken or the write is lost, and goes the way of the script.
   */
  ghost predicate Invoked(registry: Registry, work: W.State, rows: map<Key, Invocation>, rows': map<Key, Invocation>,
        k: Key, script: Script, answer: Answer) {
    if !MayRun(registry, work, k) then
      rows' == rows && answer == Denied
    else if k in rows then
      && rows' == rows
      && answer == if script.insert == Heard then Answered(rows[k].id, rows[k].status) else Threw
    else if script.insert == Lost || exists l :: l in rows && rows[l].id == script.id then
      rows' == rows && answer == Threw
    else
      && rows' == rows[k := RowLeft(script)]
      && answer == if script.insert == Heard && script.mark == Heard
        then Answered(script.id, if script.valid && script.good then Succeeded else Failed) else Threw
  }

  // ----- The state machine plays the script

  /** A call from its start to its answer with nothing in between. */
  function Played(registry: Registry, s: State, c: nat, k: Key, script: Script): State {
    var s1 := Step(registry, Step(registry, s, Start(c, k)), Verify(c));
    var s2 := Step(registry, Step(registry, s1, Insert(c, script.id, script.insert)), Replay(c));
    var s3 := Step(registry, Step(registry, s2, Validate(c, script.valid)), Execute(c, script.good));
    Step(registry, s3, Mark(c, script.mark))
  }

  function Place(s: State, c: nat, k: Key, pc: Pc): State {
    s.(calls := s.calls[c := Call(k, pc)])
  }

  function WithRow(s: State, c: nat, k: Key, row: Invocation, pc: Pc): State {
    State(s.work, s.invocations[k := row], s.calls[c := Call(k, pc)])
  }

  lemma Begun(registry: Registry, s: State, c: nat, k: Key)
    requires c !in s.calls
    ensures Step(registry, Step(registry, s, Start(c, k)), Verify(c))
         == Place(s, c, k, if MayRun(registry, s.work, k) then Verified else Raised)
  {
    AuthorisedIff(registry, s.work, k);
  }

  /** An answered or failed call does nothing more. */
  lemma OverIsOver(registry: Registry, s: State, c: nat, k: Key, script: Script)
    requires c in s.calls && (s.calls[c].pc.Returned? || s.calls[c].pc.Raised?)
    ensures Step(registry, s, Insert(c, script.id, script.insert)) == s
    ensures Step(registry, s, Replay(c)) == s && Step(registry, s, Validate(c, script.valid)) == s
    ensures Step(registry, s, Execute(c, script.good)) == s && Step(registry, s, Mark(c, script.mark)) == s
  {
  }

  lemma ReplayedRow(registry: Registry, s: State, c: nat, k: Key, script: Script)
    requires k in s.invocations
    ensures var s1 := Step(registry, Place(s, c, k, Verified), Insert(c, script.id, script.insert));
      Step(registry, s1, Replay(c)) == Place(s, c, k,
        if script.insert == Heard then Returned(s.invocations[k].id, s.invocations[k].status) else Raised)
  {
  }

  lemma InsertedRow(registry: Registry, s: State, c: nat, k: Key, script: Script)
    requires k !in s.invocations
    ensures var s1 := Step(registry, Place(s, c, k, Verified), Insert(c, script.id, script.insert));
      Step(registry, s1, Replay(c)) ==
      if script.insert == Lost || exists l :: l in s.invocations && s.invocations[l].id == script.id then
        Place(s, c, k, Raised)
      else
        WithRow(s, c, k, Invocation(script.id, Pending, 0, 0), if script.insert == Heard then Validating else Raised)
  {
  }

  lemma ExecutedRow(registry: Registry, s: State, c: nat, k: Key, script: Script)
    ensures var s1 := WithRow(s, c, k, Invocation(script.id, Pending, 0, 0), Validating);
      Step(registry, Step(registry, s1, Validate(c, script.valid)), Execute(c, script.good))
        == WithRow(s, c, k, Invocation(script.id, Pending, if script.valid then 1 else 0, 0),
             Marking(if script.valid && script.good then Succeeded else Failed))
  {
    var s1 := WithRow(s, c, k, Invocation(script.id, Pending, 0, 0), Validating);
    var runs := if script.valid then 1 else 0;
    assert s1.invocations[k := Invocation(script.id, Pending, runs, 0)]
        == s.invocations[k := Invocation(script.id, Pending, runs, 0)];
    forall pc, pc'
      ensures s1.calls[c := Call(k, pc)][c := Call(k, pc')] == s.calls[c := Call(k, pc')]
    {
    }
  }

  lemma MarkedRow(registry: Registry, s: State, c: nat, k: Key, row: Invocation, status: Status, fate: Fate)
    ensures Step(registry, WithRow(s, c, k, row, Marking(status)), Mark(c, fate))
         == WithRow(s, c, k, if fate == Lost then row else row.(status := status, leaves := row.leaves + 1),
              if fate == Heard then Returned(row.id, status) else Raised)
  {
    var s1 := WithRow(s, c, k, row, Marking(status));
    var row' := row.(status := status, leaves := row.leaves + 1);
    assert s1.invocations[k := row'] == s.invocations[k := row'];
    forall pc
      ensures s1.calls[c := Call(k, pc)] == s.calls[c := Call(k, pc)]
    {
    }
  }

  /** Where a call stands that is over. */
  function End(answer: Answer): Pc {
    if answer.Answered? then Returned(answer.id, answer.status) else Raised
  }

  /** The call ends with this answer, at most its own row is new, and nothing else has changed. */
  ghost predicate EndsAs(registry: Registry, s: State, s': State, c: nat, k: Key, script: Script, answer: Answer) {
    && Invoked(registry, s.work, s.invocations, s'.invocations, k, script, answer)
    && s'.work == s.work && s'.calls == s.calls[c := Call(k, End(answer))]
  }

  /** A first call whose row was written and heard. */
  lemma OwnRow(registry: Registry, s: State, c: nat, k: Key, script: Script)
    requires c !in s.calls && MayRun(registry, s.work, k) && k !in s.invocations && script.insert == Heard
    requires !exists l :: l in s.invocations && s.invocations[l].id == script.id
    ensures Played(registry, s, c, k, script) == WithRow(s, c, k, RowLeft(script), End(OwnAnswer(script)))
  {
    Begun(registry, s, c, k);
    InsertedRow(registry, s, c, k, script);
    ExecutedRow(registry, s, c, k, script);
    MarkedRow(registry, s, c, k, Invocation(script.id, Pending, if script.valid then 1 else 0, 0),
      if script.valid && script.good then Succeeded else Failed, script.mark);
  }

  function OwnAnswer(script: Script): Answer {
    if script.mark == Heard then Answered(script.id, if script.valid && script.good then Succeeded else Failed)
    else Threw
  }

  lemma OwnRowEnds(registry: Registry, s: State, c: nat, k: Key, script: Script)
    requires MayRun(registry, s.work, k) && k !in s.invocations && script.insert == Heard
    requires !exists l :: l in s.invocations && s.invocations[l].id == script.id
    ensures EndsAs(registry, s, WithRow(s, c, k, RowLeft(script), End(OwnAnswer(script))), c, k, script,
      OwnAnswer(script))
  {
  }

  /** A first call whose INSERT was lost, not heard, or failed on a taken id. */
  lemma UninsertedCall(registry: Registry, s: State, c: nat, k: Key, script: Script)
    requires c !in s.calls && MayRun(registry, s.work, k) && k !in s.invocations
    requires script.insert != Heard || exists l :: l in s.invocations && s.invocations[l].id == script.id
    ensures EndsAs(registry, s, Played(registry, s, c, k, script), c, k, script, Threw)
  {
    Begun(registry, s, c, k);
    InsertedRow(registry, s, c, k, script);
    OverIsOver(registry, Place(s, c, k, Raised), c, k, script);
    OverIsOver(registry, WithRow(s, c, k, Invocation(script.id, Pending, 0, 0), Raised), c, k, script);
  }

  lemma ReplayedCall(registry: Registry, s: State, c: nat, k: Key, script: Script) returns (answer: Answer)
    requires c !in s.calls && MayRun(registry, s.work, k) && k in s.invocations
    ensures EndsAs(registry, s, Played(registry, s, c, k, script), c, k, script, answer)
  {
    Begun(registry, s, c, k);
    ReplayedRow(registry, s, c, k, script);
    answer := if script.insert == Heard then Answered(s.invocations[k].id, s.invocations[k].status) else Threw;
    OverIsOver(registry, Place(s, c, k, End(answer)), c, k, script);
  }

  lemma DeniedCall(registry: Registry, s: State, c: nat, k: Key, script: Script)
    requires c !in s.calls && !MayRun(registry, s.work, k)
    ensures EndsAs(registry, s, Played(registry, s, c, k, script), c, k, script, Denied)
  {
    Begun(registry, s, c, k);
    OverIsOver(registry, Place(s, c, k, Raised), c, k, script);
  }

  /** In any state an undisturbed call ends as its script says, and touches no other call or row. */
  lemma ScriptedCall(registry: Registry, s: State, c: nat, k: Key, script: Script) returns (answer: Answer)
    requires c !in s.calls
    ensures EndsAs(registry, s, Played(registry, s, c, k, script), c, k, script, answer)
  {
    if !MayRun(registry, s.work, k) {
      DeniedCall(registry, s, c, k, script);
      answer := Denied;
    } else if k in s.invocations {
      answer := ReplayedCall(registry, s, c, k, script);
    } else if script.insert != Heard || exists l :: l in s.invocations && s.invocations[l].id == script.id {
      UninsertedCall(registry, s, c, k, script);
      answer := Threw;
    } else {
      OwnRow(registry, s, c, k, script);
      OwnRowEnds(registry, s, c, k, script);
      answer := OwnAnswer(script);
    }
  }

  /** A call may crash until it has returned; the WorkOrder machine moves by its own steps. */
  lemma OutsideStepIsExact(registry: Registry, s: State, op: Op)
    requires op.Crash? || op.WorkOp?
    ensures Step(registry, s, op) == match op
      case Crash(c) =>
        if c in s.calls && s.calls[c].pc.Returned? then s else State(s.work, s.invocations, s.calls - {c})
      case WorkOp(work) => State(W.Step(s.work, work), s.invocations, s.calls)
  {
  }
}
