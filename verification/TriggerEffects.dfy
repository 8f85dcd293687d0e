/**
 What a firing attempt leaves behind, row by row, and what every stored message says
 (src/elora/triggers/fireDueTriggers.ts, src/elora/persistMessage.ts).
 */
module TriggerEffects {
  import opened Options
  import opened Triggers

  // ----- A completed fire

  predicate IsFor(m: Message, thread: Id, t: Id, occurrence: Time) {
    m.thread == thread && m.trigger == t && m.occurrence == occurrence
  }

  ghost predicate HasMessage(messages: seq<Message>, thread: Id, t: Id, occurrence: Time) {
    exists i :: 0 <= i < |messages| && IsFor(messages[i], thread, t, occurrence)
  }

  /** Message number m is the oldest one of the occurrence in its thread. */
  ghost predicate OldestFor(messages: seq<Message>, m: nat, thread: Id, t: Id, occurrence: Time) {
    && m < |messages| && IsFor(messages[m], thread, t, occurrence)
    && forall i :: 0 <= i < m ==> !IsFor(messages[i], thread, t, occurrence)
  }

  /** The trigger is active, this is its next occurrence, it may fire, and a first thread has a free id. */
  predicate CanFire(db: Db, t: Id, occurrence: Time, authorized: bool, newThread: Id) {
    && authorized && t in db.triggers && db.triggers[t].active && db.triggers[t].nextFireAt == Some(occurrence)
    && (db.triggers[t].thread == None ==> newThread !in db.threads)
  }

  /** A first fire takes the new thread, every other one the stored one. */
  function ThreadUsed(db: Db, t: Id, newThread: Id): Id
    requires t in db.triggers
  {
    if db.triggers[t].thread == None then newThread else db.triggers[t].thread.value
  }

  /**
   Everything a fire changes: the trigger's own row; the thread it may need; one message with the
   trigger's content unless the occurrence has one already; the WorkOrder of the decided type.
   */
  ghost predicate Completed(next: Schedule, db: Db, db': Db, t: Id, occurrence: Time, newThread: Id,
        taskType: Option<string>, order: Option<OrderKey>)
    requires t in db.triggers
  {
    var row, thread := db.triggers[t], ThreadUsed(db, t, newThread);
    && db'.triggers == db.triggers[t := Trigger(row.kind, row.start, row.active, row.content, Some(thread),
      if row.kind == Recurring then Some(next(t, occurrence)) else None, row.fired + [occurrence])]
    && db'.threads == db.threads + (if row.thread == None then {newThread} else {})
    && db'.messages == db.messages
      + (if HasMessage(db.messages, thread, t, occurrence) then [] else [Message(thread, t, occurrence, row.content)])
    && db'.orders == db.orders + (if order.Some? then {order.value} else {})
    && (order.Some? <==> taskType.Some?)
    && (order.Some? ==>
      && order.value.thread == thread && order.value.taskType == taskType.value
      && OldestFor(db'.messages, order.value.message, thread, t, occurrence))
  }

  /** The search finds the oldest message, or there is none. */
  lemma {:induction false} SearchFindsOldest(messages: seq<Message>, thread: Id, t: Id, occurrence: Time, from: nat)
    requires from <= |messages| && forall i :: 0 <= i < from ==> !IsFor(messages[i], thread, t, occurrence)
    ensures var found := FindMessage(messages, thread, t, occurrence, from);
      && (found.Some? <==> HasMessage(messages, thread, t, occurrence))
      && (found.Some? ==> OldestFor(messages, found.value, thread, t, occurrence))
    decreases |messages| - from
  {
    if from < |messages| && !Matches(messages[from], thread, t, occurrence) {
      SearchFindsOldest(messages, thread, t, occurrence, from + 1);
    }
  }

  lemma AppendedIsOldest(messages: seq<Message>, thread: Id, t: Id, occurrence: Time, content: string)
    requires !HasMessage(messages, thread, t, occurrence)
    ensures OldestFor(messages + [Message(thread, t, occurrence, content)], |messages|, thread, t, occurrence)
  {
    var all := messages + [Message(thread, t, occurrence, content)];
    forall i | 0 <= i < |messages|
      ensures !IsFor(all[i], thread, t, occurrence)
    {
      assert all[i] == messages[i];
    }
  }

  /** The message transaction: nothing new for an occurrence that has its message, one row otherwise. */
  lemma PersistIsExact(db: Db, thread: Id, t: Id, occurrence: Time, content: string)
    ensures var (db', m) := Persist(db, thread, t, occurrence, content);
      && db' == db.(messages := db.messages
        + (if HasMessage(db.messages, thread, t, occurrence) then [] else [Message(thread, t, occurrence, content)]))
      && OldestFor(db'.messages, m, thread, t, occurrence)
  {
    SearchFindsOldest(db.messages, thread, t, occurrence, 0);
    if !HasMessage(db.messages, thread, t, occurrence) {
      AppendedIsOldest(db.messages, thread, t, occurrence, content);
    }
  }

  // ----- The state machine makes the same change

  predicate Held(s: State, key: (Id, Time)) {
    key in s.locks && s.clock < s.locks[key].expiresAt
  }

  /** What follows the re-read, up to the release. */
  function Written(next: Schedule, s: State, a: Id, taskType: Option<string>): State {
    var s1 := Step(next, Step(next, s, Search(a)), Insert(a));
    Step(next, Step(next, s1, Classify(a, taskType)), Finish(a))
  }

  /** One attempt from its lock to its release with nothing in between. */
  function Attempted(next: Schedule, s: State, a: Id, authorized: bool, newThread: Id, taskType: Option<string>): State
  {
    var s1 := Step(next, Step(next, s, Acquire(a)), Prepare(a, authorized, newThread));
    Step(next, Written(next, s1, a, taskType), Release(a))
  }

  lemma LockLastsTwoMinutes(next: Schedule, s: State, a: Id)
    requires a in s.attempts && s.attempts[a].pc == Polled
    ensures var at := s.attempts[a]; var key := (at.trigger, at.occurrence);
      Step(next, s, Acquire(a)) ==
      if Held(s, key) then s.(attempts := s.attempts - {a})
      else s.(locks := s.locks[key := Lock(a, s.clock + 120_000)],
        attempts := s.attempts[a := Attempt(at.trigger, at.occurrence, s.clock + 120_000, Locked)])
  {
  }

  lemma SavedAtOnce(next: Schedule, s: State, a: Id, thread: Id, content: string)
    requires a in s.attempts && s.attempts[a].pc == Prepared(thread, content)
    ensures var at := s.attempts[a];
      var (db, m) := Persist(s.db, thread, at.trigger, at.occurrence, content);
      Step(next, Step(next, s, Search(a)), Insert(a)) ==
        s.(db := db, attempts := s.attempts[a := at.(pc := Saved(thread, m))])
  {
    var at := s.attempts[a];
    assert s.attempts[a := at.(pc := Unfound(thread, content))][a := at.(pc := Saved(thread, |s.db.messages|))]
        == s.attempts[a := at.(pc := Saved(thread, |s.db.messages|))];
  }

  /** From the re-read on: the message, the WorkOrder, the trigger's row, and on to the release. */
  lemma WrittenAtOnce(next: Schedule, s: State, a: Id, thread: Id, content: string, taskType: Option<string>)
      returns (order: Option<OrderKey>)
    requires a in s.attempts && s.attempts[a].pc == Prepared(thread, content) && s.attempts[a].trigger in s.db.triggers
    ensures var at, s' := s.attempts[a], Written(next, s, a, taskType);
      var (db, m) := Persist(s.db, thread, at.trigger, at.occurrence, content);
      && order == (if taskType.Some? then Some(OrderKey(thread, m, taskType.value)) else None)
      && s'.db == Advance(next, db.(orders := s.db.orders + if order.Some? then {order.value} else {}), at.trigger,
        at.occurrence)
      && s'.attempts == s.attempts[a := at.(pc := Leaving)]
      && s'.clock == s.clock && s'.used == s.used && s'.locks == s.locks
  {
    var at := s.attempts[a];
    SavedAtOnce(next, s, a, thread, content);
    var (db, m) := Persist(s.db, thread, at.trigger, at.occurrence, content);
    order := if taskType.Some? then Some(OrderKey(thread, m, taskType.value)) else None;
    var s1 := s.(db := db, attempts := s.attempts[a := at.(pc := Saved(thread, m))]);
    var s2 := Step(next, s1, Classify(a, taskType));
    assert s2.attempts == s.attempts[a := at.(pc := Ingested)];
    assert s2.db.orders == s.db.orders + if order.Some? then {order.value} else {};
  }

  /** A fire's rows, once the thread is there. */
  lemma WritesComplete(next: Schedule, db: Db, db1: Db, t: Id, occurrence: Time, newThread: Id,
        taskType: Option<string>, order: Option<OrderKey>)
    requires t in db.triggers && db1 == EnsureThread(db, t, newThread)
    requires var (db2, m) := Persist(db1, ThreadUsed(db, t, newThread), t, occurrence, db.triggers[t].content);
      order == if taskType.Some? then Some(OrderKey(ThreadUsed(db, t, newThread), m, taskType.value)) else None
    ensures var db2 := Persist(db1, ThreadUsed(db, t, newThread), t, occurrence, db.triggers[t].content).0;
      var db3 := db2.(orders := db.orders + if order.Some? then {order.value} else {});
      t in db3.triggers &&
      Completed(next, db, Advance(next, db3, t, occurrence), t, occurrence, newThread, taskType, order)
  {
    PersistIsExact(db1, ThreadUsed(db, t, newThread), t, occurrence, db.triggers[t].content);
  }

  lemma FiredAttempt(next: Schedule, s: State, a: Id, newThread: Id, taskType: Option<string>)
      returns (order: Option<OrderKey>)
    requires a in s.attempts && s.attempts[a].pc == Locked
    requires CanFire(s.db, s.attempts[a].trigger, s.attempts[a].occurrence, true, newThread)
    ensures var at := s.attempts[a];
      var s' := Written(next, Step(next, s, Prepare(a, true, newThread)), a, taskType);
      && s'.attempts == s.attempts[a := at.(pc := Leaving)]
      && s'.clock == s.clock && s'.used == s.used && s'.locks == s.locks
      && Completed(next, s.db, s'.db, at.trigger, at.occurrence, newThread, taskType, order)
  {
    var at := s.attempts[a];
    var s1 := Step(next, s, Prepare(a, true, newThread));
    var thread, content := ThreadUsed(s.db, at.trigger, newThread), s.db.triggers[at.trigger].content;
    assert s1.attempts == s.attempts[a := at.(pc := Prepared(thread, content))];
    order := WrittenAtOnce(next, s1, a, thread, content, taskType);
    WritesComplete(next, s.db, s1.db, at.trigger, at.occurrence, newThread, taskType, order);
  }

  lemma SkippedAttempt(next: Schedule, s: State, a: Id, authorized: bool, newThread: Id, taskType: Option<string>)
    requires a in s.attempts && s.attempts[a].pc == Locked
    requires !CanFire(s.db, s.attempts[a].trigger, s.attempts[a].occurrence, authorized, newThread)
    ensures Written(next, Step(next, s, Prepare(a, authorized, newThread)), a, taskType)
         == s.(attempts := s.attempts[a := s.attempts[a].(pc := Leaving)])
  {
  }

  /**
   An undisturbed attempt: without the lock, or when it may not fire, no row changes; otherwise the
   rows change as a completed fire says. It leaves no lock behind.
   */
  lemma UndisturbedAttempt(next: Schedule, s: State, a: Id, authorized: bool, newThread: Id, taskType: Option<string>)
      returns (order: Option<OrderKey>)
    requires a in s.attempts && s.attempts[a].pc == Polled
    ensures var at := s.attempts[a]; var key := (at.trigger, at.occurrence);
      var s' := Attempted(next, s, a, authorized, newThread, taskType);
      && s'.attempts == s.attempts - {a} && s'.clock == s.clock && s'.used == s.used
      && s'.locks == (if Held(s, key) then s.locks else s.locks - {key})
      && if !Held(s, key) && CanFire(s.db, at.trigger, at.occurrence, authorized, newThread)
        then Completed(next, s.db, s'.db, at.trigger, at.occurrence, newThread, taskType, order)
        else s'.db == s.db
  {
    var at := s.attempts[a];
    order := None;
    if Held(s, (at.trigger, at.occurrence)) {
      ContendedAttempt(next, s, a, authorized, newThread, taskType);
    } else {
      var s1 := s.(locks := s.locks[(at.trigger, at.occurrence) := Lock(a, s.clock + 120_000)],
        attempts := s.attempts[a := Attempt(at.trigger, at.occurrence, s.clock + 120_000, Locked)]);
      LockLastsTwoMinutes(next, s, a);
      if CanFire(s.db, at.trigger, at.occurrence, authorized, newThread) {
        order := FiredAttempt(next, s1, a, newThread, taskType);
      } else {
        SkippedAttempt(next, s1, a, authorized, newThread, taskType);
      }
      var s2 := Written(next, Step(next, s1, Prepare(a, authorized, newThread)), a, taskType);
      ReleaseIsExact(next, s2, a);
      assert s2.attempts - {a} == s.attempts - {a};
      assert s2.locks - {(at.trigger, at.occurrence)} == s.locks - {(at.trigger, at.occurrence)};
    }
  }

  lemma ContendedAttempt(next: Schedule, s: State, a: Id, authorized: bool, newThread: Id, taskType: Option<string>)
    requires a in s.attempts && s.attempts[a].pc == Polled
    requires Held(s, (s.attempts[a].trigger, s.attempts[a].occurrence))
    ensures Attempted(next, s, a, authorized, newThread, taskType) == s.(attempts := s.attempts - {a})
  {
    LockLastsTwoMinutes(next, s, a);
    NothingWritten(next, s.(attempts := s.attempts - {a}), a, authorized, newThread, taskType);
  }

  lemma NothingWritten(next: Schedule, s: State, a: Id, authorized: bool, newThread: Id, taskType: Option<string>)
    requires a !in s.attempts
    ensures Written(next, Step(next, s, Prepare(a, authorized, newThread)), a, taskType) == s
    ensures Step(next, s, Release(a)) == s
  {
  }

  // ----- What every stored message says

  /** After the first k steps of the run this was the trigger's next occurrence, and this its content. */
  ghost predicate WasDue(next: Schedule, ops: seq<Op>, k: nat, t: Id, occurrence: Time, content: string) {
    && k <= |ops|
    && var db := After(next, ops[..k]).db;
    && t in db.triggers && db.triggers[t].active && db.triggers[t].nextFireAt == Some(occurrence)
    && db.triggers[t].content == content
  }

  ghost predicate WasEverDue(next: Schedule, ops: seq<Op>, t: Id, occurrence: Time, content: string) {
    exists k: nat :: WasDue(next, ops, k, t, occurrence, content)
  }

  lemma StillWasDue(next: Schedule, ops: seq<Op>, op: Op, t: Id, occurrence: Time, content: string)
    requires WasEverDue(next, ops, t, occurrence, content)
    ensures WasEverDue(next, ops + [op], t, occurrence, content)
  {
    var k: nat :| WasDue(next, ops, k, t, occurrence, content);
    assert (ops + [op])[..k] == ops[..k];
    assert WasDue(next, ops + [op], k, t, occurrence, content);
  }

  lemma IsDueNow(next: Schedule, ops: seq<Op>, op: Op, t: Id, occurrence: Time)
    requires StillDue(After(next, ops).db, t, occurrence)
    ensures WasEverDue(next, ops + [op], t, occurrence, After(next, ops).db.triggers[t].content)
  {
    assert (ops + [op])[..|ops|] == ops;
    assert WasDue(next, ops + [op], |ops|, t, occurrence, After(next, ops).db.triggers[t].content);
  }

  ghost predicate Carries(next: Schedule, ops: seq<Op>, at: Attempt) {
    at.pc.Prepared? || at.pc.Unfound? ==> WasEverDue(next, ops, at.trigger, at.occurrence, at.pc.content)
  }

  ghost predicate AllWereDue(next: Schedule, ops: seq<Op>, s: State) {
    && (forall i :: 0 <= i < |s.db.messages| ==>
      WasEverDue(next, ops, s.db.messages[i].trigger, s.db.messages[i].occurrence, s.db.messages[i].content))
    && (forall a :: a in s.attempts ==> Carries(next, ops, s.attempts[a]))
  }

  lemma AttemptStillCarries(next: Schedule, ops: seq<Op>, op: Op, a: Id)
    requires AllWereDue(next, ops, After(next, ops)) && a in Step(next, After(next, ops), op).attempts
    ensures Carries(next, ops + [op], Step(next, After(next, ops), op).attempts[a])
  {
    var s, at := After(next, ops), Step(next, After(next, ops), op).attempts[a];
    if at.pc.Prepared? || at.pc.Unfound? {
      if op.Prepare? && op.a == a && s.attempts[a].pc.Locked? {
        IsDueNow(next, ops, op, at.trigger, at.occurrence);
      } else {
        CarriedFrom(next, s, op, a);
        assert Carries(next, ops, s.attempts[a]);
        StillWasDue(next, ops, op, at.trigger, at.occurrence, at.pc.content);
      }
    }
  }

  /** Only the re-read gives an attempt a content; the search hands it on. */
  lemma CarriedFrom(next: Schedule, s: State, op: Op, a: Id)
    requires a in Step(next, s, op).attempts
    requires Step(next, s, op).attempts[a].pc.Prepared? || Step(next, s, op).attempts[a].pc.Unfound?
    requires !(op.Prepare? && op.a == a && a in s.attempts && s.attempts[a].pc.Locked?)
    ensures a in s.attempts && (s.attempts[a].pc.Prepared? || s.attempts[a].pc.Unfound?)
    ensures var at, at' := s.attempts[a], Step(next, s, op).attempts[a];
      at'.trigger == at.trigger && at'.occurrence == at.occurrence && at'.pc.content == at.pc.content
  {
  }

  /** Only the INSERT of an attempt adds a message, with what the attempt carries. */
  lemma AddedMessage(next: Schedule, s: State, op: Op, i: nat)
    requires |s.db.messages| <= i < |Step(next, s, op).db.messages|
    ensures op.Insert? && op.a in s.attempts && s.attempts[op.a].pc.Unfound?
    ensures var at := s.attempts[op.a];
      Step(next, s, op).db.messages[i] == Message(at.pc.thread, at.trigger, at.occurrence, at.pc.content)
  {
  }

  lemma StepAllWereDue(next: Schedule, ops: seq<Op>, op: Op)
    requires AllWereDue(next, ops, After(next, ops))
    ensures AllWereDue(next, ops + [op], Step(next, After(next, ops), op))
  {
    var s := After(next, ops);
    var s' := Step(next, s, op);
    forall a | a in s'.attempts
      ensures Carries(next, ops + [op], s'.attempts[a])
    {
      AttemptStillCarries(next, ops, op, a);
    }
    StepKeepsRows(next, s, op);
    forall i: nat | i < |s'.db.messages|
      ensures WasEverDue(next, ops + [op], s'.db.messages[i].trigger, s'.db.messages[i].occurrence,
        s'.db.messages[i].content)
    {
      var m := s'.db.messages[i];
      if i >= |s.db.messages| {
        AddedMessage(next, s, op, i);
        assert Carries(next, ops, s.attempts[op.a]);
      } else {
        assert m == s.db.messages[i];
      }
      StillWasDue(next, ops, op, m.trigger, m.occurrence, m.content);
    }
  }

  /**
   In every run each stored message says what its trigger said at some earlier moment, when it was
   active and the message's occurrence was its next one.
   */
  lemma {:induction false} MessagesSayWhatWasDue(next: Schedule, ops: seq<Op>)
    ensures AllWereDue(next, ops, After(next, ops))
  {
    if ops != [] {
      var front, last := ops[..|ops| - 1], ops[|ops| - 1];
      MessagesSayWhatWasDue(next, front);
      StepAllWereDue(next, front, last);
      assert front + [last] == ops;
    }
  }

  // ----- Nothing is lost

  ghost predicate Kept(db: Db, db': Db) {
    && db.messages <= db'.messages && db.orders <= db'.orders && db.threads <= db'.threads
    && forall t :: t in db.triggers ==>
      && t in db'.triggers && db.triggers[t].fired <= db'.triggers[t].fired
      && (db.triggers[t].thread.Some? ==> db'.triggers[t].thread == db.triggers[t].thread)
  }

  lemma KeptTransitive(a: Db, b: Db, c: Db)
    requires Kept(a, b) && Kept(b, c)
    ensures Kept(a, c)
  {
    forall t | t in a.triggers
      ensures t in c.triggers && a.triggers[t].fired <= c.triggers[t].fired
      ensures a.triggers[t].thread.Some? ==> c.triggers[t].thread == a.triggers[t].thread
    {
      assert t in b.triggers;
    }
  }

  lemma StepKeepsRows(next: Schedule, s: State, op: Op)
    ensures Kept(s.db, Step(next, s, op).db)
  {
  }

  /** Over any continuation messages, WorkOrders, threads and completed fires stay. */
  lemma {:induction false} RowsAreKept(next: Schedule, ops: seq<Op>, more: seq<Op>)
    ensures Kept(After(next, ops).db, After(next, ops + more).db)
    decreases |more|
  {
    if more == [] {
      assert ops + more == ops;
    } else {
      var front, last := more[..|more| - 1], more[|more| - 1];
      RowsAreKept(next, ops, front);
      OneMore(next, ops + front, last);
      assert ops + front + [last] == ops + more;
      StepKeepsRows(next, After(next, ops + front), last);
      KeptTransitive(After(next, ops).db, After(next, ops + front).db, After(next, ops + more).db);
    }
  }

  /** A poll picks up an active trigger whose next occurrence has come, and only such. */
  lemma PollPicksDue(next: Schedule, s: State, a: Id, t: Id)
    requires a !in s.used && a !in s.attempts
    ensures var s' := Step(next, s, Poll(a, t));
      if t in s.db.triggers && s.db.triggers[t].active && s.db.triggers[t].nextFireAt.Some?
        && s.clock >= s.db.triggers[t].nextFireAt.value
      then s' == s.(used := s.used + {a},
        attempts := s.attempts[a := Attempt(t, s.db.triggers[t].nextFireAt.value, s.clock, Polled)])
      else s' == s
  {
  }

  /** Rows come and change from outside; an attempt past its poll may throw, and any may crash. */
  lemma OutsideStepIsExact(next: Schedule, s: State, op: Op)
    requires op.NewTrigger? || op.SetActive? || op.EditContent? || op.Tick? || op.Throw? || op.Crash?
    ensures Step(next, s, op) == match op
      case NewTrigger(t, kind, start, content) => WithTrigger(s, t,
        if t in s.db.triggers then s.db.triggers[t] else Trigger(kind, start, true, content, None, Some(start), []))
      case SetActive(t, active) =>
        if t in s.db.triggers then WithTrigger(s, t, s.db.triggers[t].(active := active)) else s
      case EditContent(t, content) =>
        if t in s.db.triggers then WithTrigger(s, t, s.db.triggers[t].(content := content)) else s
      case Tick(dt) => State(s.clock + dt, s.db, s.locks, s.attempts, s.used, s.classified)
      case Throw(a) =>
        if a in s.attempts && s.attempts[a].pc != Polled then
          s.(attempts := s.attempts[a := s.attempts[a].(pc := Leaving)])
        else s
      case Crash(a) => s.(attempts := s.attempts - {a})
  {
    if op.NewTrigger? && op.t in s.db.triggers {
      assert s.db.triggers[op.t := s.db.triggers[op.t]] == s.db.triggers;
    }
  }

  function WithTrigger(s: State, t: Id, row: Trigger): State {
    s.(db := s.db.(triggers := s.db.triggers[t := row]))
  }

  /** A release removes the lock while it is unexpired and the attempt's own, and ends the attempt. */
  lemma ReleaseIsExact(next: Schedule, s: State, a: Id)
    requires a in s.attempts && s.attempts[a].pc == Leaving
    ensures var key := (s.attempts[a].trigger, s.attempts[a].occurrence);
      Step(next, s, Release(a)) == s.(attempts := s.attempts - {a},
        locks := if Held(s, key) && s.locks[key].token == a then s.locks - {key} else s.locks)
  {
  }
}
