/**
 One caller of runConversationalCognitiveRun from start to answer, on rows updated in place,
 with the fate of every write chosen from outside. Other callers may have come before.
 */
module CognitionStore {
  import opened Options
  import opened Cognition
  import opened CognitionEffects

  class Store {
    var runs: map<Id, Run>

    ghost predicate Valid()
      reads this
    {
      forall r :: r in runs ==> RunOk(runs[r])
    }

    constructor ()
      ensures Valid() && runs == map[]
    {
      runs := map[];
    }

    /** Insert or fetch; None when the caller hears a failure. */
    method CreateCognitiveRun(r: Id, fate: Fate) returns (status: Option<Status>)
      requires Valid()
      modifies this
      ensures Valid()
      ensures runs == if r in old(runs) || fate == Lost then old(runs) else old(runs)[r := NEW_RUN]
      ensures status == if fate == Heard then Some(runs[r].status) else None
    {
      if fate == Lost {
        return None;
      }
      if r !in runs {
        runs := runs[r := NEW_RUN];
      }
      status := if fate == Heard then Some(runs[r].status) else None;
    }

    /** Locks the row, checks the graph and the gate, updates, appends; true when heard as done. */
    method TransitionCognitiveRun(r: Id, to: Status, fate: Fate) returns (heard: bool)
      requires Valid() && r in runs
      modifies this
      ensures Valid() && r in runs && runs == old(runs)[r := runs[r]]
      ensures heard <==> fate == Heard && MayMove(old(runs)[r], to)
      ensures runs[r] == if MayMove(old(runs)[r], to) && fate != Lost
        then old(runs)[r].(status := to, history := old(runs)[r].history + [to]) else old(runs)[r]
    {
      var run := runs[r];
      TransitionIff(run, to);
      if Terminal(run.status) || to !in Next(run.status) {
        return false;
      }
      if to == Completed && (run.invocation == None || run.invocation == Some(Started)) {
        return false;
      }
      TransitionOk(run, to);
      if fate == Lost {
        return false;
      }
      runs := runs[r := run.(status := to)];
      runs := runs[r := runs[r].(history := runs[r].history + [to])];
      assert runs == old(runs)[r := Transition(run, to).value];
      heard := fate == Heard;
    }

    /** The provider call and its one terminal write, which may get lost. */
    method CallProvider(r: Id, answer: Invocation, mark: Fate)
      requires Valid() && r in runs && runs[r].status != Pending
      requires runs[r].invocation == Some(Started) && runs[r].calls == 0
      modifies this
      ensures Valid() && r in runs && runs == old(runs)[r := runs[r]]
      ensures runs[r].status == old(runs)[r].status && runs[r].history == old(runs)[r].history && runs[r].calls == 1
      ensures runs[r].marks == if mark == Lost then 0 else 1
      ensures runs[r].invocation ==
        Some(if mark == Lost then Started else if answer == Started then FailedCall else answer)
    {
      var run := runs[r].(calls := runs[r].calls + 1);
      if mark != Lost {
        run := MarkTerminal(run, if answer == Started then FailedCall else answer);
      }
      runs := runs[r := run];
    }

    /** The executor: whether an invocation id came back, so that a fallback may stand in for the answer. */
    method ExecuteModelOperation(r: Id, script: Script) returns (substantiable: bool)
      requires Valid() && r in runs && runs[r].status != Pending
      modifies this
      ensures Valid() && r in runs && runs == old(runs)[r := runs[r]]
      ensures runs[r].status == old(runs)[r].status && runs[r].history == old(runs)[r].history
      ensures substantiable <==> script.allowed && script.insert == Heard && old(runs)[r].invocation == None
      ensures runs[r].calls == old(runs)[r].calls + (if substantiable then 1 else 0)
      ensures runs[r].marks == old(runs)[r].marks + (if substantiable && script.mark != Lost then 1 else 0)
      ensures runs[r].invocation ==
        if old(runs)[r].invocation.Some? then old(runs)[r].invocation
        else if !script.allowed || script.insert == Lost then None
        else if script.insert == Unheard || script.mark == Lost then Some(Started)
        else Some(if script.answer == Started then FailedCall else script.answer)
    {
      if !script.allowed || script.insert == Lost || runs[r].invocation.Some? {
        return false;
      }
      runs := runs[r := runs[r].(invocation := Some(Started))];
      if script.insert == Unheard {
        return false;
      }
      CallProvider(r, script.answer, script.mark);
      substantiable := true;
    }

    /** failRun: the transition is tried, and its own failure swallowed. */
    method FailRun(r: Id, fate: Fate)
      requires Valid() && r in runs
      modifies this
      ensures Valid() && r in runs && runs == old(runs)[r := runs[r]]
      ensures runs[r] == if old(runs)[r].status == Running && fate != Lost
        then old(runs)[r].(status := Failed, history := old(runs)[r].history + [Failed]) else old(runs)[r]
    {
      var _ := TransitionCognitiveRun(r, Failed, fate);
    }

    /** The completion, or failRun when it throws. */
    method CompleteOrFail(r: Id, script: Script) returns (completed: bool)
      requires Valid() && r in runs
      modifies this
      ensures Valid() && r in runs && runs == old(runs)[r := runs[r]]
      ensures completed <==> MayMove(old(runs)[r], Completed) && script.complete == Heard
      ensures runs[r] ==
        if MayMove(old(runs)[r], Completed) && script.complete != Lost
        then old(runs)[r].(status := Completed, history := old(runs)[r].history + [Completed])
        else if old(runs)[r].status == Running && script.fail != Lost
        then old(runs)[r].(status := Failed, history := old(runs)[r].history + [Failed])
        else old(runs)[r]
    {
      completed := TransitionCognitiveRun(r, Completed, script.complete);
      if !completed {
        FailRun(r, script.fail);
      }
    }

    /** What the caller that moved the run to RUNNING does. */
    method Synthesize(r: Id, script: Script) returns (told: Option<bool>)
      requires Valid() && r in runs && runs[r].status == Running && runs[r].invocation == None
      requires script.create == Heard && script.begin == Heard
      modifies this
      ensures Valid() && r in runs && runs == old(runs)[r := runs[r]]
      ensures told == Some(Completes(script) && script.complete == Heard)
      ensures runs[r].history == old(runs)[r].history
        + (if Completes(script) then [Completed] else if Fails(script) then [Failed] else [])
      ensures runs[r].status == if Completes(script) then Completed else if Fails(script) then Failed else Running
      ensures runs[r].invocation == RowLeft(script)
      ensures runs[r].calls == if Called(script) then 1 else 0
      ensures runs[r].marks == if Called(script) && script.mark != Lost then 1 else 0
    {
      var substantiable := false;
      if script.provider {
        substantiable := ExecuteModelOperation(r, script);
      }
      if !substantiable {
        FailRun(r, script.fail);
        return Some(false);
      }
      var completed := CompleteOrFail(r, script);
      told := Some(completed);
    }

    /** A PENDING run, from the attempt to begin it to the answer. */
    method BeginAndSynthesize(r: Id, script: Script) returns (told: Option<bool>)
      requires Valid() && r in runs && runs[r].status == Pending && script.create == Heard
      modifies this
      ensures Valid() && r in runs && runs == old(runs)[r := runs[r]]
      ensures Played(Some(old(runs)[r]), Some(runs[r]), script, told)
    {
      assert RunOk(runs[r]);
      var begun := TransitionCognitiveRun(r, Running, script.begin);
      if !begun {
        return Some(false);
      }
      told := Synthesize(r, script);
    }

    /** The answer: None for an exception, Some(true) for COMPLETED, Some(false) for FAILED. */
    method RunConversationalCognitiveRun(r: Id, script: Script) returns (told: Option<bool>)
      requires Valid()
      modifies this
      ensures Valid()
      ensures Played(Find(old(runs), r), Find(runs, r), script, told)
      ensures forall q :: q in old(runs) && q != r ==> q in runs && runs[q] == old(runs)[q]
      ensures told == Some(true) ==> r in runs && runs[r].status == Completed && Substantiated(runs[r])
    {
      var status := CreateCognitiveRun(r, script.create);
      if status.None? {
        assert r in old(runs) && old(runs)[r].status == Pending ==> RunOk(runs[r]);
        return None;
      }
      if status.value != Pending {
        return Some(status.value == Completed);
      }
      told := BeginAndSynthesize(r, script);
    }
  }
}
