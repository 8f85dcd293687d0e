/**
 Firing under the time limit: live attempts write before their lock expires. What this buys, one
 schedule step and one message per occurrence, and exactly what goes wrong without it.
 */
module TriggerTiming {
  import opened Options
  import opened Triggers
  import Intervals = Schedule

  // ----- Runs in which live attempts write before their lock expires

  predicate Writes(op: Op) {
    op.Prepare? || op.Search? || op.Insert? || op.Classify? || op.Finish?
  }

  ghost predicate Timely(s: State, op: Op) {
    Writes(op) && op.a in s.attempts ==> s.clock < s.attempts[op.a].deadline
  }

  ghost predicate TimelyRun(next: Schedule, ops: seq<Op>) {
    ops == [] || (TimelyRun(next, ops[..|ops| - 1]) && Timely(After(next, ops[..|ops| - 1]), ops[|ops| - 1]))
  }

  /** The occurrence after n fires. */
  function Occurrence(next: Schedule, t: Id, start: Time, n: nat): Time {
    if n == 0 then start else next(t, Occurrence(next, t, start, n - 1))
  }

  /** One schedule step per completed fire; a one_off has none after its only fire. */
  ghost predicate OnSchedule(next: Schedule, t: Id, row: Trigger) {
    match row.kind
    case OneOff =>
      (row.fired == [] && row.nextFireAt == Some(row.start)) || (row.fired == [row.start] && row.nextFireAt == None)
    case Recurring =>
      && row.nextFireAt == Some(Occurrence(next, t, row.start, |row.fired|))
      && forall i: nat :: i < |row.fired| ==> row.fired[i] == Occurrence(next, t, row.start, i)
  }

  /** No two messages are for the same occurrence. */
  ghost predicate UniqueMessages(db: Db) {
    forall i, j :: 0 <= i < j < |db.messages| && db.messages[i].trigger == db.messages[j].trigger ==>
      db.messages[i].occurrence != db.messages[j].occurrence
  }

  ghost predicate NoMessage(db: Db, t: Id, occurrence: Time) {
    forall i :: 0 <= i < |db.messages| && db.messages[i].trigger == t ==> db.messages[i].occurrence != occurrence
  }

  /** Past the re-read and on its way to the last UPDATE. */
  predicate Writing(pc: Pc) {
    pc.Prepared? || pc.Unfound? || pc.Saved? || pc.Ingested?
  }

  /**
   A live attempt owns its lock. From the re-read on its occurrence is still the next one, and a
   search that found nothing is still right.
   */
  ghost predicate LiveOk(s: State, a: Id)
    requires a in s.attempts
  {
    var at := s.attempts[a];
    && ((at.pc.Locked? || Writing(at.pc)) && s.clock < at.deadline ==>
      (at.trigger, at.occurrence) in s.locks && s.locks[(at.trigger, at.occurrence)] == Lock(a, at.deadline))
    && (Writing(at.pc) && s.clock < at.deadline ==>
      at.trigger in s.db.triggers && s.db.triggers[at.trigger].nextFireAt == Some(at.occurrence))
    && (at.pc.Unfound? && s.clock < at.deadline ==> NoMessage(s.db, at.trigger, at.occurrence))
  }

  ghost predicate TimelyInv(next: Schedule, s: State) {
    && Inv(s) && UniqueMessages(s.db)
    && (forall a {:trigger LiveOk(s, a)} :: a in s.attempts ==> LiveOk(s, a) && a in s.used)
    && (forall t {:trigger OnSchedule(next, t, s.db.triggers[t])} :: t in s.db.triggers ==>
      OnSchedule(next, t, s.db.triggers[t]))
  }

  /** Two attempts that are both past the re-read and both live are not for the same trigger. */
  lemma LiveWriterIsAlone(next: Schedule, s: State, a: Id, b: Id)
    requires TimelyInv(next, s) && a in s.attempts && b in s.attempts && s.attempts[a].trigger == s.attempts[b].trigger
    requires Writing(s.attempts[a].pc) && Writing(s.attempts[b].pc)
    requires s.clock < s.attempts[a].deadline && s.clock < s.attempts[b].deadline
    ensures a == b
  {
    assert LiveOk(s, a) && LiveOk(s, b);
  }

  lemma AdvanceOnSchedule(next: Schedule, t: Id, row: Trigger, db: Db)
    requires OnSchedule(next, t, row) && row.nextFireAt.Some? && t in db.triggers && db.triggers[t] == row
    ensures OnSchedule(next, t, Advance(next, db, t, row.nextFireAt.value).triggers[t])
  {
  }

  lemma FinishKeepsTime(next: Schedule, s: State, a: Id)
    requires TimelyInv(next, s) && Timely(s, Finish(a)) && a in s.attempts && s.attempts[a].pc.Ingested?
    ensures TimelyInv(next, Step(next, s, Finish(a)))
  {
    var s', t := Step(next, s, Finish(a)), s.attempts[a].trigger;
    StepKeeps(next, s, Finish(a));
    assert LiveOk(s, a);
    AdvanceOnSchedule(next, t, s.db.triggers[t], s.db);
    forall u {:trigger OnSchedule(next, u, s'.db.triggers[u])} | u in s'.db.triggers
      ensures OnSchedule(next, u, s'.db.triggers[u])
    {
      if u != t {
        assert OnSchedule(next, u, s.db.triggers[u]);
      }
    }
    forall b {:trigger LiveOk(s', b)} | b in s'.attempts
      ensures LiveOk(s', b) && b in s'.used
    {
      assert LiveOk(s, b);
      var at := s.attempts[b];
      if b != a && at.trigger == t && Writing(at.pc) && s.clock < at.deadline {
        LiveWriterIsAlone(next, s, a, b);
      }
    }
  }

  ghost predicate SameSchedule(row: Trigger, row': Trigger) {
    row'.nextFireAt == row.nextFireAt && row'.fired == row.fired && row'.kind == row.kind && row'.start == row.start
  }

  /** Steps that move no schedule: each remaining attempt must still own its lock. */
  lemma StillKeepsTime(next: Schedule, s: State, s': State)
    requires TimelyInv(next, s) && s.used <= s'.used && Inv(s') && UniqueMessages(s'.db)
    requires forall t :: t in s.db.triggers ==> t in s'.db.triggers && SameSchedule(s.db.triggers[t], s'.db.triggers[t])
    requires forall t :: t in s'.db.triggers && t !in s.db.triggers ==>
      s'.db.triggers[t].fired == [] && s'.db.triggers[t].nextFireAt == Some(s'.db.triggers[t].start)
    requires forall a {:trigger LiveOk(s', a)} :: a in s'.attempts ==> LiveOk(s', a) && a in s'.used
    ensures TimelyInv(next, s')
  {
    forall u {:trigger OnSchedule(next, u, s'.db.triggers[u])} | u in s'.db.triggers
      ensures OnSchedule(next, u, s'.db.triggers[u])
    {
      if u in s.db.triggers {
        assert OnSchedule(next, u, s.db.triggers[u]);
      }
    }
  }

  lemma TableKeepsTime(next: Schedule, s: State, op: Op)
    requires TimelyInv(next, s) && (op.NewTrigger? || op.SetActive? || op.EditContent?)
    ensures TimelyInv(next, Step(next, s, op))
  {
    var s' := Step(next, s, op);
    OutsideKeeps(next, s, op);
    forall a {:trigger LiveOk(s', a)} | a in s'.attempts
      ensures LiveOk(s', a) && a in s'.used
    {
      assert LiveOk(s, a);
    }
    StillKeepsTime(next, s, s');
  }

  lemma OutsideKeepsTime(next: Schedule, s: State, op: Op)
    requires TimelyInv(next, s) && (op.Tick? || op.Poll? || op.Release? || op.Crash?)
    ensures TimelyInv(next, Step(next, s, op))
  {
    var s' := Step(next, s, op);
    OutsideKeeps(next, s, op);
    forall a {:trigger LiveOk(s', a)} | a in s'.attempts
      ensures LiveOk(s', a) && a in s'.used
    {
      if a in s.attempts {
        assert LiveOk(s, a);
      }
    }
    StillKeepsTime(next, s, s');
  }

  lemma AcquireKeepsTime(next: Schedule, s: State, a: Id)
    requires TimelyInv(next, s) && a in s.attempts && s.attempts[a].pc.Polled?
    ensures TimelyInv(next, AcquireStep(s, a))
  {
    var s' := AcquireStep(s, a);
    StepKeeps(next, s, Acquire(a));
    forall b {:trigger LiveOk(s', b)} | b in s'.attempts
      ensures LiveOk(s', b) && b in s'.used
    {
      assert LiveOk(s, b);
    }
    StillKeepsTime(next, s, s');
  }

  lemma PrepareKeepsTime(next: Schedule, s: State, a: Id, authorized: bool, newThread: Id)
    requires TimelyInv(next, s) && a in s.attempts && s.attempts[a].pc.Locked?
    ensures TimelyInv(next, PrepareStep(s, a, authorized, newThread))
  {
    var s' := PrepareStep(s, a, authorized, newThread);
    PrepareKeeps(s, a, authorized, newThread);
    forall b {:trigger LiveOk(s', b)} | b in s'.attempts
      ensures LiveOk(s', b) && b in s'.used
    {
      assert LiveOk(s, b);
    }
    StillKeepsTime(next, s, s');
  }

  lemma ClassifyKeepsTime(next: Schedule, s: State, a: Id, taskType: Option<string>)
    requires TimelyInv(next, s) && a in s.attempts && s.attempts[a].pc.Saved?
    ensures TimelyInv(next, ClassifyStep(s, a, taskType))
  {
    var s' := ClassifyStep(s, a, taskType);
    ClassifyKeeps(s, a, taskType);
    forall b {:trigger LiveOk(s', b)} | b in s'.attempts
      ensures LiveOk(s', b) && b in s'.used
    {
      assert LiveOk(s, b);
    }
    StillKeepsTime(next, s, s');
  }

  lemma LeaveKeepsTime(next: Schedule, s: State, a: Id)
    requires TimelyInv(next, s) && a in s.attempts
    ensures TimelyInv(next, Goto(s, a, Leaving))
  {
    var s' := Goto(s, a, Leaving);
    QuietStepKeeps(s, s');
    forall b {:trigger LiveOk(s', b)} | b in s'.attempts
      ensures LiveOk(s', b) && b in s'.used
    {
      assert LiveOk(s, b);
    }
    StillKeepsTime(next, s, s');
  }

  /** Messages of a trigger are all in its thread, so a search of the thread speaks for the occurrence. */
  lemma SearchKeepsTime(next: Schedule, s: State, a: Id)
    requires TimelyInv(next, s) && Timely(s, Search(a)) && a in s.attempts && s.attempts[a].pc.Prepared?
    ensures TimelyInv(next, SearchStep(s, a))
  {
    var s', at := SearchStep(s, a), s.attempts[a];
    SearchKeeps(s, a);
    assert AttemptOk(s.db, at);
    forall b {:trigger LiveOk(s', b)} | b in s'.attempts
      ensures LiveOk(s', b) && b in s'.used
    {
      assert LiveOk(s, b);
      if b == a && s'.attempts[a].pc.Unfound? {
        forall i | 0 <= i < |s.db.messages| && s.db.messages[i].trigger == at.trigger
          ensures s.db.messages[i].occurrence != at.occurrence
        {
          assert ThreadOk(s.db, s.db.messages[i].trigger, s.db.messages[i].thread);
          assert !Matches(s.db.messages[i], at.pc.thread, at.trigger, at.occurrence);
        }
      }
    }
    StillKeepsTime(next, s, s');
  }

  lemma InsertKeepsTime(next: Schedule, s: State, a: Id)
    requires TimelyInv(next, s) && Timely(s, Insert(a)) && a in s.attempts && s.attempts[a].pc.Unfound?
    ensures TimelyInv(next, InsertStep(s, a))
  {
    var s', at := InsertStep(s, a), s.attempts[a];
    InsertKeeps(s, a);
    assert LiveOk(s, a);
    InsertStaysUniqueIff(s.db, Message(at.pc.thread, at.trigger, at.occurrence, at.pc.content));
    forall b {:trigger LiveOk(s', b)} | b in s'.attempts
      ensures LiveOk(s', b) && b in s'.used
    {
      assert LiveOk(s, b);
      if b != a && s.attempts[b].pc.Unfound? && s.clock < s.attempts[b].deadline
        && s.attempts[b].trigger == at.trigger {
        LiveWriterIsAlone(next, s, a, b);
      }
    }
    StillKeepsTime(next, s, s');
  }

  /** Exactly when an INSERT keeps messages unique: if nothing was written since the search. */
  lemma InsertStaysUniqueIff(db: Db, m: Message)
    requires UniqueMessages(db)
    ensures UniqueMessages(Append(db, m)) <==> NoMessage(db, m.trigger, m.occurrence)
  {
    var all := Append(db, m).messages;
    assert all[|db.messages|] == m && forall i :: 0 <= i < |db.messages| ==> all[i] == db.messages[i];
    if i :| 0 <= i < |db.messages| && db.messages[i].trigger == m.trigger && db.messages[i].occurrence == m.occurrence {
      assert all[i].trigger == all[|db.messages|].trigger && all[i].occurrence == all[|db.messages|].occurrence;
    }
  }

  lemma StepKeepsTime(next: Schedule, s: State, op: Op)
    requires TimelyInv(next, s) && Timely(s, op)
    ensures TimelyInv(next, Step(next, s, op))
  {
    if op.NewTrigger? || op.SetActive? || op.EditContent? {
      TableKeepsTime(next, s, op);
    } else if Outside(op) {
      OutsideKeepsTime(next, s, op);
    } else if op.a in s.attempts {
      var pc := s.attempts[op.a].pc;
      match op {
        case Acquire(a) => if pc.Polled? { AcquireKeepsTime(next, s, a); }
        case Prepare(a, authorized, newThread) => if pc.Locked? { PrepareKeepsTime(next, s, a, authorized, newThread); }
        case Search(a) => if pc.Prepared? { SearchKeepsTime(next, s, a); }
        case Insert(a) => if pc.Unfound? { InsertKeepsTime(next, s, a); }
        case Classify(a, taskType) => if pc.Saved? { ClassifyKeepsTime(next, s, a, taskType); }
        case Finish(a) => if pc.Ingested? { FinishKeepsTime(next, s, a); }
        case Throw(a) => if !pc.Polled? { LeaveKeepsTime(next, s, a); }
      }
    }
  }

  /** Over every timely run, next_fire_at takes exactly one schedule step per completed fire. */
  lemma {:induction false} TimelyRunsStayOnSchedule(next: Schedule, ops: seq<Op>)
    requires TimelyRun(next, ops)
    ensures TimelyInv(next, After(next, ops))
  {
    if ops != [] {
      TimelyRunsStayOnSchedule(next, ops[..|ops| - 1]);
      StepKeepsTime(next, After(next, ops[..|ops| - 1]), ops[|ops| - 1]);
    }
  }

  /** In a timely run an occurrence has at most one user message. */
  lemma OneMessagePerOccurrence(next: Schedule, ops: seq<Op>, i: nat, j: nat)
    requires TimelyRun(next, ops) && i < j < |After(next, ops).db.messages|
    ensures var m, m' := After(next, ops).db.messages[i], After(next, ops).db.messages[j];
      (m.trigger, m.occurrence) != (m'.trigger, m'.occurrence)
  {
    TimelyRunsStayOnSchedule(next, ops);
  }

  /** The attempt is past the re-read and its lock has not expired. */
  ghost predicate LiveWriter(s: State, a: Id, t: Id) {
    a in s.attempts && s.attempts[a].trigger == t && Writing(s.attempts[a].pc) && s.clock < s.attempts[a].deadline
  }

  /** In a timely run a trigger has at most one of them at any time. */
  lemma OneLiveWriter(next: Schedule, ops: seq<Op>, t: Id, a: Id, b: Id)
    requires TimelyRun(next, ops) && LiveWriter(After(next, ops), a, t) && LiveWriter(After(next, ops), b, t)
    ensures a == b
  {
    TimelyRunsStayOnSchedule(next, ops);
    LiveWriterIsAlone(next, After(next, ops), a, b);
  }

  lemma OneOffFiresOnce(next: Schedule, ops: seq<Op>, t: Id)
    requires TimelyRun(next, ops) && t in After(next, ops).db.triggers && After(next, ops).db.triggers[t].kind == OneOff
    ensures |After(next, ops).db.triggers[t].fired| <= 1
  {
    TimelyRunsStayOnSchedule(next, ops);
    assert OnSchedule(next, t, After(next, ops).db.triggers[t]);
  }

  ghost predicate StrictlyLater(next: Schedule, t: Id) {
    forall x :: x < next(t, x)
  }

  function IntervalSchedule(d: Intervals.Duration): Schedule
    requires Intervals.Wellformed(d)
  {
    (_: Id, x: Time) => Intervals.Advance(x, d)
  }

  /** An interval trigger's schedule moves forward exactly if some whole component of it is positive. */
  lemma IntervalIsStrictlyLaterIff(d: Intervals.Duration, t: Id)
    requires Intervals.Wellformed(d)
    ensures StrictlyLater(IntervalSchedule(d), t) <==>
      d.years > 0 || d.months > 0 || d.days > 0 || d.hours > 0 || d.minutes > 0 || d.seconds >= 1.0
  {
    var next := IntervalSchedule(d);
    forall x: Time
      ensures next(t, x) == Intervals.Advance(x, d)
      ensures x < next(t, x) <==>
        d.years > 0 || d.months > 0 || d.days > 0 || d.hours > 0 || d.minutes > 0 || d.seconds >= 1.0
    {
      Intervals.LaterIffWholeComponent(x, d);
    }
    assert next(t, 0) == Intervals.Advance(0, d);
  }

  lemma {:induction false} OccurrencesIncrease(next: Schedule, t: Id, start: Time, i: nat, j: nat)
    requires StrictlyLater(next, t) && i < j
    ensures Occurrence(next, t, start, i) < Occurrence(next, t, start, j)
    decreases j
  {
    if i < j - 1 {
      OccurrencesIncrease(next, t, start, i, j - 1);
    }
  }

  /** With a schedule that moves forward, no occurrence completes two fires in a timely run. */
  lemma NoOccurrenceFiresTwice(next: Schedule, ops: seq<Op>, t: Id, i: nat, j: nat)
    requires TimelyRun(next, ops) && StrictlyLater(next, t) && t in After(next, ops).db.triggers
    requires i < j < |After(next, ops).db.triggers[t].fired|
    ensures After(next, ops).db.triggers[t].fired[i] < After(next, ops).db.triggers[t].fired[j]
  {
    TimelyRunsStayOnSchedule(next, ops);
    var row := After(next, ops).db.triggers[t];
    assert OnSchedule(next, t, row);
    OccurrencesIncrease(next, t, row.start, i, j);
  }

  // ----- Without the time limit

  /**
   Exactly when a finish keeps the row on schedule: if its occurrence is still the next one. The
   UPDATE does not ask; the lock has to see to it.
   */
  lemma FinishStaysOnScheduleIff(next: Schedule, db: Db, t: Id, occurrence: Time)
    requires t in db.triggers && OnSchedule(next, t, db.triggers[t])
    ensures OnSchedule(next, t, Advance(next, db, t, occurrence).triggers[t])
        <==> db.triggers[t].nextFireAt == Some(occurrence)
  {
    var row, row' := db.triggers[t], Advance(next, db, t, occurrence).triggers[t];
    if row.nextFireAt == Some(occurrence) {
      AdvanceOnSchedule(next, t, row, db);
    } else {
      assert row'.fired[|row.fired|] == occurrence;
    }
  }

  lemma OneMoreTimely(next: Schedule, ops: seq<Op>, op: Op)
    ensures After(next, ops + [op]) == Step(next, After(next, ops), op)
    ensures TimelyRun(next, ops) && Timely(After(next, ops), op) ==> TimelyRun(next, ops + [op])
  {
    assert (ops + [op])[..|ops|] == ops;
  }
}
