/** Runs of the firing protocol that show what its theorems do not promise. */
module TriggerWitnesses {
  import opened Options
  import opened Triggers
  import opened TriggerTiming
  import opened TriggerOrders

  ghost predicate CanFire(s: State, a: Id, t: Id, occurrence: Time) {
    && a !in s.used && StillDue(s.db, t, occurrence) && occurrence <= s.clock
    && ((t, occurrence) in s.locks ==> s.locks[(t, occurrence)].expiresAt <= s.clock)
  }

  /** Attempt a has taken the lock and re-read the row; nothing else happened. */
  ghost predicate Reread(s: State, s': State, a: Id, t: Id, occurrence: Time, newThread: Id) {
    && t in s.db.triggers && t in s'.db.triggers && s'.db.triggers[t].thread.Some?
    && s'.db.triggers[t] == s.db.triggers[t].(thread := s'.db.triggers[t].thread)
    && (s.db.triggers[t].thread.Some? ==> s'.db.triggers[t].thread == s.db.triggers[t].thread)
    && s'.db.threads <= s.db.threads + {newThread}
    && s'.db == s.db.(triggers := s.db.triggers[t := s'.db.triggers[t]], threads := s'.db.threads)
    && s' == s.(
      db := s'.db,
      used := s.used + {a},
      locks := s.locks[(t, occurrence) := Lock(a, s.clock + LOCK_TTL)],
      attempts := s.attempts[a := Attempt(t, occurrence, s.clock + LOCK_TTL,
        Prepared(s'.db.triggers[t].thread.value, s.db.triggers[t].content))])
  }

  lemma ThreeSteps(next: Schedule, s: State, a: Id, t: Id, occurrence: Time, newThread: Id, s1: State, s2: State)
    requires CanFire(s, a, t, occurrence) && newThread !in s.db.threads
    requires s1 == Step(next, s, Poll(a, t)) && s2 == Step(next, s1, Acquire(a))
    ensures Timely(s2, Prepare(a, true, newThread))
    ensures Reread(s, Step(next, s2, Prepare(a, true, newThread)), a, t, occurrence, newThread)
  {
    assert s1.attempts[a] == Attempt(t, occurrence, s.clock, Polled);
    assert s2.attempts == s.attempts[a := Attempt(t, occurrence, s.clock + LOCK_TTL, Locked)];
    var s3 := PrepareStep(s2, a, true, newThread);
    assert s3.db.triggers == s.db.triggers[t := s3.db.triggers[t]];
  }

  /** An attempt that meets no obstacle gets as far as the re-read. */
  lemma FirstHalf(next: Schedule, ops: seq<Op>, a: Id, t: Id, occurrence: Time, newThread: Id) returns (ops': seq<Op>)
    requires CanFire(After(next, ops), a, t, occurrence) && newThread !in After(next, ops).db.threads
    requires TimelyRun(next, ops)
    ensures TimelyRun(next, ops') && Reread(After(next, ops), After(next, ops'), a, t, occurrence, newThread)
  {
    var ops1 := ops + [Poll(a, t)];
    var ops2 := ops1 + [Acquire(a)];
    OneMoreTimely(next, ops, Poll(a, t));
    OneMoreTimely(next, ops1, Acquire(a));
    OneMoreTimely(next, ops2, Prepare(a, true, newThread));
    ThreeSteps(next, After(next, ops), a, t, occurrence, newThread, After(next, ops1), After(next, ops2));
    ops' := ops2 + [Prepare(a, true, newThread)];
  }

  /** Attempt a has its message and has created the WorkOrder; nothing else happened. */
  ghost predicate IngestedAs(s: State, s': State, a: Id, taskType: string)
    requires a in s.attempts
  {
    && s'.clock == s.clock && s'.used == s.used && s'.locks == s.locks
    && s'.db.triggers == s.db.triggers && s'.db.threads == s.db.threads
    && s'.attempts == s.attempts[a := s.attempts[a].(pc := Ingested)]
    && s'.classified == s.classified + {(s.attempts[a].trigger, s.attempts[a].occurrence, taskType)}
  }

  /** The attempt comes to its message, found or inserted. */
  ghost predicate SavedBy(s: State, s': State, a: Id)
    requires a in s.attempts
  {
    && s' == s.(db := s.db.(messages := s'.db.messages), attempts := s'.attempts)
    && a in s'.attempts && s'.attempts[a].pc.Saved?
    && s'.attempts == s.attempts[a := s.attempts[a].(pc := s'.attempts[a].pc)]
  }

  lemma SaveRun(next: Schedule, ops: seq<Op>, a: Id) returns (ops': seq<Op>)
    requires a in After(next, ops).attempts && After(next, ops).attempts[a].pc.Prepared?
    requires After(next, ops).clock < After(next, ops).attempts[a].deadline && TimelyRun(next, ops)
    ensures TimelyRun(next, ops') && SavedBy(After(next, ops), After(next, ops'), a)
  {
    OneMoreTimely(next, ops, Search(a));
    ops' := ops + [Search(a)];
    var s, s1 := After(next, ops), After(next, ops');
    assert s1 == SearchStep(s, a);
    if s1.attempts[a].pc.Unfound? {
      OneMoreTimely(next, ops', Insert(a));
      ops' := ops' + [Insert(a)];
      assert After(next, ops') == InsertStep(s1, a);
    }
  }

  lemma SecondHalf(next: Schedule, ops: seq<Op>, a: Id, taskType: string) returns (ops': seq<Op>)
    requires a in After(next, ops).attempts && After(next, ops).attempts[a].pc.Prepared?
    requires After(next, ops).clock < After(next, ops).attempts[a].deadline && TimelyRun(next, ops)
    ensures TimelyRun(next, ops') && IngestedAs(After(next, ops), After(next, ops'), a, taskType)
  {
    var ops1 := SaveRun(next, ops, a);
    OneMoreTimely(next, ops1, Classify(a, Some(taskType)));
    SavedThenClassified(After(next, ops), After(next, ops1), a, taskType);
    ops' := ops1 + [Classify(a, Some(taskType))];
  }

  lemma SavedThenClassified(s: State, s1: State, a: Id, taskType: string)
    requires a in s.attempts && SavedBy(s, s1, a)
    ensures IngestedAs(s, ClassifyStep(s1, a, Some(taskType)), a, taskType)
    ensures s.clock < s.attempts[a].deadline ==> Timely(s1, Classify(a, Some(taskType)))
  {
  }

  /** One recurring trigger, due now, and nothing else. */
  ghost predicate OnlyTrigger(s: State, row: Trigger) {
    && s.clock == 0 && s.db.triggers.Keys == {0} && s.db.triggers[0] == row && s.db.threads == {}
    && s.db.messages == [] && s.db.orders == {} && s.locks.Keys == {} && s.attempts.Keys == {}
    && s.used == {} && s.classified == {}
    && row.kind == Recurring && row.start == 0 && row.active && row.thread.None? && row.nextFireAt == Some(0)
    && row.fired == []
  }

  lemma NewRecurring(next: Schedule, content: string) returns (ops: seq<Op>)
    ensures TimelyRun(next, ops)
    ensures OnlyTrigger(After(next, ops), Trigger(Recurring, 0, true, content, None, Some(0), []))
  {
    ops := [] + [NewTrigger(0, Recurring, 0, content)];
    OneMoreTimely(next, [], NewTrigger(0, Recurring, 0, content));
  }

  /** Attempt a of trigger 0 is between its WorkOrder and the last UPDATE. */
  ghost predicate AboutToFinish(s: State, a: Id) {
    a in s.attempts && s.attempts[a].pc == Ingested && s.attempts[a].trigger == 0 && s.attempts[a].occurrence == 0
  }

  ghost predicate BothAboutToFinish(s: State, first: string, second: string) {
    && 0 in s.db.triggers && s.db.triggers[0].kind == Recurring && s.db.triggers[0].start == 0
    && s.db.triggers[0].fired == [] && s.db.triggers[0].nextFireAt == Some(0)
    && AboutToFinish(s, 1) && AboutToFinish(s, 2)
    && s.classified == {(0, 0, first), (0, 0, second)}
  }

  /** Two attempts for one occurrence: the second starts when the first one's lock has expired. */
  lemma TwoAttempts(next: Schedule, content: string, first: string, second: string) returns (ops: seq<Op>)
    ensures TimelyRun(next, ops) && BothAboutToFinish(After(next, ops), first, second)
  {
    ops := NewRecurring(next, content);
    ops := FirstHalf(next, ops, 1, 0, 0, 7);
    ops := SecondHalf(next, ops, 1, first);
    OneMoreTimely(next, ops, Tick(LOCK_TTL));
    ops := ops + [Tick(LOCK_TTL)];
    ops := FirstHalf(next, ops, 2, 0, 0, 8);
    ops := SecondHalf(next, ops, 2, second);
  }

  ghost predicate FiredTwice(next: Schedule, s: State) {
    && 0 in s.db.triggers && s.db.triggers[0].fired == [0, 0] && s.db.triggers[0].nextFireAt == Some(next(0, 0))
    && (next(0, 0) != 0 ==> !OnSchedule(next, 0, s.db.triggers[0]))
  }

  /** A live attempt that outlives its lock: two completed fires, one schedule step. */
  lemma SlowAttemptLosesAStep(next: Schedule) returns (ops: seq<Op>)
    ensures FiredTwice(next, After(next, ops))
  {
    ops := TwoAttempts(next, "", "", "");
    var s := After(next, ops);
    OneMoreTimely(next, ops, Finish(2));
    var s1 := After(next, ops + [Finish(2)]);
    assert s1 == Goto(s.(db := Advance(next, s.db, 0, 0)), 2, Leaving);
    OneMoreTimely(next, ops + [Finish(2)], Finish(1));
    ops := ops + [Finish(2)] + [Finish(1)];
    var row := After(next, ops).db.triggers[0];
    assert row.fired == [0, 0];
    assert Occurrence(next, 0, 0, 1) == next(0, 0);
    assert row.fired[1] == 0;
  }

  /**
   A task type that changes between attempts gives one occurrence two WorkOrders, even in a timely
   run: for this content the model path says "unknown" and the degraded path "planning".
   */
  lemma ChangedTypeGivesTwoOrders(next: Schedule) returns (ops: seq<Op>)
    ensures TimelyRun(next, ops) && |OrdersOf(After(next, ops), 0, 0)| == 2
  {
    ops := TwoAttempts(next, "planning", "unknown", "planning");
    var s := After(next, ops);
    OrdersCountTypes(next, ops, 0, 0);
    assert TypesOf(s, 0, 0) == {"unknown", "planning"} by {
      assert (0, 0, "unknown") in s.classified && (0, 0, "planning") in s.classified;
    }
    assert "unknown"[0] != "planning"[0];
  }

  /** Attempt 1 has searched in vain and its lock has expired. */
  ghost predicate SearchedInVain(s: State) {
    && StillDue(s.db, 0, 0) && s.db.messages == [] && s.db.threads <= {7} && s.used == {1} && s.clock == LOCK_TTL
    && ((0, 0) in s.locks ==> s.locks[(0, 0)].expiresAt <= s.clock)
    && s.attempts.Keys == {1} && s.attempts[1].trigger == 0 && s.attempts[1].occurrence == 0
      && s.attempts[1].pc.Unfound?
  }

  lemma SearchInVain(next: Schedule) returns (ops: seq<Op>)
    ensures TimelyRun(next, ops) && SearchedInVain(After(next, ops))
  {
    ops := NewRecurring(next, "");
    ops := FirstHalf(next, ops, 1, 0, 0, 7);
    var s := After(next, ops);
    OneMoreTimely(next, ops, Search(1));
    ops := ops + [Search(1)];
    assert After(next, ops) == SearchStep(s, 1);
    OneMoreTimely(next, ops, Tick(LOCK_TTL));
    ops := ops + [Tick(LOCK_TTL)];
  }

  /** A second attempt has saved its message in the meantime. */
  ghost predicate OvertakenBy(s: State) {
    && |s.db.messages| == 1 && s.db.messages[0].trigger == 0 && s.db.messages[0].occurrence == 0
    && 1 in s.attempts && s.attempts[1].trigger == 0 && s.attempts[1].occurrence == 0 && s.attempts[1].pc.Unfound?
  }

  lemma SaveFirstMessage(s: State, a: Id, s1: State)
    requires a in s.attempts && s.attempts[a].pc.Prepared? && s.db.messages == [] && s1 == SearchStep(s, a)
    ensures a in s1.attempts && s1.attempts[a].pc.Unfound?
    ensures var at := s.attempts[a];
      InsertStep(s1, a).db.messages == [Message(at.pc.thread, at.trigger, at.occurrence, at.pc.content)]
    ensures forall b :: b in s.attempts && b != a ==>
      b in InsertStep(s1, a).attempts && InsertStep(s1, a).attempts[b] == s.attempts[b]
  {
  }

  ghost predicate SecondReread(s: State) {
    && s.db.messages == []
    && 1 in s.attempts && s.attempts[1].trigger == 0 && s.attempts[1].occurrence == 0 && s.attempts[1].pc.Unfound?
    && 2 in s.attempts && s.attempts[2].trigger == 0 && s.attempts[2].occurrence == 0 && s.attempts[2].pc.Prepared?
  }

  lemma RereadAgain(next: Schedule) returns (ops: seq<Op>)
    ensures SecondReread(After(next, ops))
  {
    ops := SearchInVain(next);
    ops := FirstHalf(next, ops, 2, 0, 0, 8);
  }

  lemma Overtake(next: Schedule) returns (ops: seq<Op>)
    ensures OvertakenBy(After(next, ops))
  {
    ops := RereadAgain(next);
    var s, s1 := After(next, ops), Step(next, After(next, ops), Search(2));
    SaveFirstMessage(s, 2, s1);
    OneMoreTimely(next, ops, Search(2));
    OneMoreTimely(next, ops + [Search(2)], Insert(2));
    ops := ops + [Search(2)] + [Insert(2)];
    assert After(next, ops) == InsertStep(s1, 2);
  }

  /** A search that outlives its lock: the occurrence gets two messages. */
  lemma SlowSearchSavesTwice(next: Schedule) returns (ops: seq<Op>)
    ensures |After(next, ops).db.messages| == 2 && !UniqueMessages(After(next, ops).db)
  {
    ops := Overtake(next);
    var s := After(next, ops);
    OneMoreTimely(next, ops, Insert(1));
    ops := ops + [Insert(1)];
    assert After(next, ops) == InsertStep(s, 1);
    var m := After(next, ops).db.messages[1];
    assert After(next, ops).db == Append(s.db, m) && !NoMessage(s.db, m.trigger, m.occurrence);
    InsertStaysUniqueIff(s.db, m);
  }
}
