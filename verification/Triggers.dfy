/**
 The trigger firing protocol (src/elora/triggers/fireDueTriggers.ts, src/redis/triggerLock.ts,
 src/elora/persistMessage.ts, and the WorkOrder key of src/state/createWorkOrder.ts).

 Any number of pollers race. Each attempt polls, takes a lock that expires, re-reads the row in
 one transaction, saves the message in another, creates the WorkOrder in another, and advances
 the row in a last one; it may throw or crash between any two of them. Time passes between any
 two steps. Keys are modelled by the tuples they are built from; `KeysNameTheOccurrence` says
 why that is enough.
 */
module Triggers {
  import opened Options
  import Keys

  type Id = nat
  type Time = int

  const LOCK_TTL: int := 120_000

  // ----- Keys

  function LockKey(tenant: Keys.Uuid, t: Keys.Uuid, occ: string): string {
    Keys.Join(["trigger-firing-lock", tenant, t, occ])
  }

  /** The lock key and the correlation id end in a timestamp, the only part with colons. */
  lemma KeysNameTheOccurrence(tenant: Keys.Uuid, t: Keys.Uuid, t': Keys.Uuid, occ: string, occ': string)
    ensures Keys.Join([tenant, t, occ]) == Keys.Join([tenant, t', occ']) ==> t == t' && occ == occ'
    ensures LockKey(tenant, t, occ) == LockKey(tenant, t', occ') ==> t == t' && occ == occ'
  {
    var a, b := [tenant, t, occ], [tenant, t', occ'];
    if Keys.Join(a) == Keys.Join(b) {
      Keys.KeyDeterminesParts(a, b, 2);
      assert a[1] == b[1] && a[2] == b[2];
    }
    var c, d := ["trigger-firing-lock", tenant, t, occ], ["trigger-firing-lock", tenant, t', occ'];
    if Keys.Join(c) == Keys.Join(d) {
      Keys.KeyDeterminesParts(c, d, 3);
      assert c[2] == d[2] && c[3] == d[3];
    }
  }

  // ----- Rows

  datatype Kind = OneOff | Recurring

  /** `fired` logs the occurrence of every completed fire; the runtime keeps only the last one. */
  datatype Trigger = Trigger(kind: Kind, start: Time, active: bool, content: string, thread: Option<Id>,
    nextFireAt: Option<Time>, fired: seq<Time>)

  datatype Message = Message(thread: Id, trigger: Id, occurrence: Time, content: string)

  datatype OrderKey = OrderKey(thread: Id, message: nat, taskType: string)

  datatype Db = Db(triggers: map<Id, Trigger>, threads: set<Id>, messages: seq<Message>, orders: set<OrderKey>)

  /** computeNextFireAt: per trigger, the occurrence after a given one. */
  type Schedule = (Id, Time) -> Time

  // ----- The transactions

  /** ensureTriggerThread inside the re-reading transaction; the row is locked, so the guarded update always hits. */
  function EnsureThread(db: Db, t: Id, newThread: Id): Db
    requires t in db.triggers
  {
    if db.triggers[t].thread.Some? then db
    else db.(threads := db.threads + {newThread},
      triggers := db.triggers[t := db.triggers[t].(thread := Some(newThread))])
  }

  predicate StillDue(db: Db, t: Id, occurrence: Time) {
    t in db.triggers && db.triggers[t].active && db.triggers[t].nextFireAt == Some(occurrence)
  }

  /** A new thread needs an id that is not taken. */
  predicate ThreadAvailable(db: Db, t: Id, newThread: Id)
    requires t in db.triggers
  {
    db.triggers[t].thread.Some? || newThread !in db.threads
  }

  predicate Matches(m: Message, thread: Id, t: Id, occurrence: Time) {
    m.thread == thread && m.trigger == t && m.occurrence == occurrence
  }

  /** The oldest message with this correlation id in this thread. */
  function FindMessage(messages: seq<Message>, thread: Id, t: Id, occurrence: Time, from: nat): (found: Option<nat>)
    requires from <= |messages|
    ensures found.Some? ==> from <= found.value < |messages| && Matches(messages[found.value], thread, t, occurrence)
    ensures found.None? ==> forall i :: from <= i < |messages| ==> !Matches(messages[i], thread, t, occurrence)
    decreases |messages| - from
  {
    if from == |messages| then None
    else if Matches(messages[from], thread, t, occurrence) then Some(from)
    else FindMessage(messages, thread, t, occurrence, from + 1)
  }

  function Append(db: Db, m: Message): Db {
    db.(messages := db.messages + [m])
  }

  /** persistMessage without interruption: the stored message wins over what the caller brought. */
  function Persist(db: Db, thread: Id, t: Id, occurrence: Time, content: string): (Db, nat) {
    match FindMessage(db.messages, thread, t, occurrence, 0)
    case Some(m) => (db, m)
    case None => (Append(db, Message(thread, t, occurrence, content)), |db.messages|)
  }

  /** createWorkOrder, insert or fetch; the intent fingerprint is a function of the stored message. */
  function CreateOrder(db: Db, thread: Id, message: nat, taskType: string): Db {
    db.(orders := db.orders + {OrderKey(thread, message, taskType)})
  }

  /** The last UPDATE: no condition on the value it overwrites. */
  function Advance(next: Schedule, db: Db, t: Id, occurrence: Time): Db
    requires t in db.triggers
  {
    var row := db.triggers[t];
    db.(triggers := db.triggers[t := row.(
      nextFireAt := if row.kind == OneOff then None else Some(next(t, occurrence)),
      fired := row.fired + [occurrence])])
  }

  // ----- Attempts

  datatype Pc =
    | Polled
    | Locked
    | Prepared(thread: Id, content: string)
    | Unfound(thread: Id, content: string)      // searched, nothing there, the INSERT comes next
    | Saved(thread: Id, message: nat)
    | Ingested
    | Leaving

  datatype Attempt = Attempt(trigger: Id, occurrence: Time, deadline: Time, pc: Pc)

  datatype Lock = Lock(token: Id, expiresAt: Time)

  /** `classified` logs which task types were decided for which occurrence. */
  datatype State = State(
    clock: Time,
    db: Db,
    locks: map<(Id, Time), Lock>,
    attempts: map<Id, Attempt>,
    used: set<Id>,
    classified: set<(Id, Time, string)>)

  datatype Op =
    | NewTrigger(t: Id, kind: Kind, start: Time, content: string)
    | SetActive(t: Id, active: bool)
    | EditContent(t: Id, content: string)
    | Tick(dt: nat)
    | Poll(a: Id, t: Id)
    | Acquire(a: Id)
    | Prepare(a: Id, authorized: bool, newThread: Id)
    | Search(a: Id)
    | Insert(a: Id)
    | Classify(a: Id, taskType: Option<string>)
    | Finish(a: Id)
    | Throw(a: Id)
    | Release(a: Id)
    | Crash(a: Id)

  function Goto(s: State, a: Id, pc: Pc): State
    requires a in s.attempts
  {
    s.(attempts := s.attempts[a := s.attempts[a].(pc := pc)])
  }

  function AcquireStep(s: State, a: Id): State
    requires a in s.attempts
  {
    var at := s.attempts[a];
    var key := (at.trigger, at.occurrence);
    if key in s.locks && s.clock < s.locks[key].expiresAt then s.(attempts := s.attempts - {a})
    else s.(locks := s.locks[key := Lock(a, s.clock + LOCK_TTL)],
      attempts := s.attempts[a := at.(deadline := s.clock + LOCK_TTL, pc := Locked)])
  }

  function PrepareStep(s: State, a: Id, authorized: bool, newThread: Id): State
    requires a in s.attempts
  {
    var at := s.attempts[a];
    if !StillDue(s.db, at.trigger, at.occurrence) || !authorized || !ThreadAvailable(s.db, at.trigger, newThread)
      then Goto(s, a, Leaving)
    else
      var db := EnsureThread(s.db, at.trigger, newThread);
      Goto(s.(db := db), a, Prepared(db.triggers[at.trigger].thread.value, db.triggers[at.trigger].content))
  }

  /** The SELECT of persistMessage sees what is committed; no unique index backs it up. */
  function SearchStep(s: State, a: Id): State
    requires a in s.attempts && s.attempts[a].pc.Prepared?
  {
    var Attempt(t, occurrence, _, Prepared(thread, content)) := s.attempts[a];
    match FindMessage(s.db.messages, thread, t, occurrence, 0)
    case Some(m) => Goto(s, a, Saved(thread, m))
    case None => Goto(s, a, Unfound(thread, content))
  }

  function InsertStep(s: State, a: Id): State
    requires a in s.attempts && s.attempts[a].pc.Unfound?
  {
    var Attempt(t, occurrence, _, Unfound(thread, content)) := s.attempts[a];
    Goto(s.(db := Append(s.db, Message(thread, t, occurrence, content))), a, Saved(thread, |s.db.messages|))
  }

  function ClassifyStep(s: State, a: Id, taskType: Option<string>): State
    requires a in s.attempts && s.attempts[a].pc.Saved?
  {
    var Attempt(t, occurrence, _, Saved(thread, m)) := s.attempts[a];
    if taskType.None? then Goto(s, a, Ingested)
    else Goto(s.(db := CreateOrder(s.db, thread, m, taskType.value),
      classified := s.classified + {(t, occurrence, taskType.value)}), a, Ingested)
  }

  function ReleaseStep(s: State, a: Id): State
    requires a in s.attempts
  {
    var key := (s.attempts[a].trigger, s.attempts[a].occurrence);
    var held := key in s.locks && s.clock < s.locks[key].expiresAt && s.locks[key].token == a;
    s.(attempts := s.attempts - {a}, locks := if held then s.locks - {key} else s.locks)
  }

  function Step(next: Schedule, s: State, op: Op): State {
    match op
    case NewTrigger(t, kind, start, content) =>
      if t in s.db.triggers then s
      else s.(db := s.db.(triggers := s.db.triggers[t := Trigger(kind, start, true, content, None, Some(start), [])]))
    case SetActive(t, active) =>
      if t in s.db.triggers then s.(db := s.db.(triggers := s.db.triggers[t := s.db.triggers[t].(active := active)]))
        else s
    case EditContent(t, content) =>
      if t in s.db.triggers then s.(db := s.db.(triggers := s.db.triggers[t := s.db.triggers[t].(content := content)]))
        else s
    case Tick(dt) => s.(clock := s.clock + dt)
    case Poll(a, t) =>
      if a !in s.used && t in s.db.triggers && s.db.triggers[t].active && s.db.triggers[t].nextFireAt.Some?
        && s.db.triggers[t].nextFireAt.value <= s.clock
      then s.(used := s.used + {a}, attempts :=
        s.attempts[a := Attempt(t, s.db.triggers[t].nextFireAt.value, s.clock, Polled)])
      else s
    case Acquire(a) => if a in s.attempts && s.attempts[a].pc.Polled? then AcquireStep(s, a) else s
    case Prepare(a, authorized, newThread) =>
      if a in s.attempts && s.attempts[a].pc.Locked? then PrepareStep(s, a, authorized, newThread) else s
    case Search(a) => if a in s.attempts && s.attempts[a].pc.Prepared? then SearchStep(s, a) else s
    case Insert(a) => if a in s.attempts && s.attempts[a].pc.Unfound? then InsertStep(s, a) else s
    case Classify(a, taskType) => if a in s.attempts && s.attempts[a].pc.Saved? then ClassifyStep(s, a, taskType) else s
    case Finish(a) =>
      if a in s.attempts && s.attempts[a].pc.Ingested? && s.attempts[a].trigger in s.db.triggers
      then Goto(s.(db := Advance(next, s.db, s.attempts[a].trigger, s.attempts[a].occurrence)), a, Leaving) else s
    case Throw(a) => if a in s.attempts && !s.attempts[a].pc.Polled? then Goto(s, a, Leaving) else s
    case Release(a) => if a in s.attempts && s.attempts[a].pc.Leaving? then ReleaseStep(s, a) else s
    case Crash(a) => s.(attempts := s.attempts - {a})
  }

  const INITIAL := State(0, Db(map[], {}, [], {}), map[], map[], {}, {})

  function After(next: Schedule, ops: seq<Op>): State {
    if ops == [] then INITIAL else Step(next, After(next, ops[..|ops| - 1]), ops[|ops| - 1])
  }

  // ----- What holds on every run, however long attempts take

  ghost predicate ThreadOk(db: Db, t: Id, thread: Id) {
    t in db.triggers && db.triggers[t].thread == Some(thread)
  }

  /** The attempt carries its trigger's own thread and, once saved, the message of its occurrence. */
  ghost predicate AttemptOk(db: Db, at: Attempt) {
    && at.trigger in db.triggers
    && (at.pc.Prepared? || at.pc.Unfound? ==> ThreadOk(db, at.trigger, at.pc.thread))
    && (at.pc.Saved? ==>
      && ThreadOk(db, at.trigger, at.pc.thread)
      && at.pc.message < |db.messages| && Matches(db.messages[at.pc.message], at.pc.thread, at.trigger, at.occurrence))
  }

  ghost predicate MessagesOk(db: Db) {
    forall i :: 0 <= i < |db.messages| ==> ThreadOk(db, db.messages[i].trigger, db.messages[i].thread)
  }

  /** The WorkOrder's key names a message and its thread. */
  ghost predicate OrderOk(db: Db, k: OrderKey) {
    k.message < |db.messages| && k.thread == db.messages[k.message].thread
  }

  ghost predicate OrdersOk(s: State) {
    && (forall k :: k in s.db.orders ==> OrderOk(s.db, k))
    && (forall k :: k in s.db.orders && k.message < |s.db.messages| ==>
      (s.db.messages[k.message].trigger, s.db.messages[k.message].occurrence, k.taskType) in s.classified)
    && (forall c :: c in s.classified ==> HasOrder(s.db, c))
  }

  ghost predicate HasOrder(db: Db, c: (Id, Time, string)) {
    exists k ::
      k in db.orders && k.message < |db.messages| && db.messages[k.message].trigger == c.0
      && db.messages[k.message].occurrence == c.1 && k.taskType == c.2
  }

  ghost predicate Inv(s: State) {
    && MessagesOk(s.db)
    && OrdersOk(s)
    && (forall a :: a in s.attempts ==> AttemptOk(s.db, s.attempts[a]))
  }

  /** Everything the invariant reads only grows when rows get new times, contents or a first thread. */
  ghost predicate RowsKept(db: Db, db': Db) {
    && db'.messages == db.messages && db'.orders == db.orders
    && (forall t :: t in db.triggers ==>
      t in db'.triggers && (db.triggers[t].thread.Some? ==> db'.triggers[t].thread == db.triggers[t].thread))
  }

  lemma RowsKeptMessages(db: Db, db': Db)
    requires MessagesOk(db) && RowsKept(db, db')
    ensures MessagesOk(db')
  {
    forall i | 0 <= i < |db'.messages|
      ensures ThreadOk(db', db'.messages[i].trigger, db'.messages[i].thread)
    {
      assert ThreadOk(db, db.messages[i].trigger, db.messages[i].thread);
    }
  }

  lemma RowsKeptAttempt(db: Db, db': Db, at: Attempt)
    requires AttemptOk(db, at) && RowsKept(db, db')
    ensures AttemptOk(db', at)
  {
  }

  lemma RowsKeptOrders(s: State, s': State)
    requires OrdersOk(s) && RowsKept(s.db, s'.db) && s'.classified == s.classified
    ensures OrdersOk(s')
  {
    forall k | k in s'.db.orders
      ensures OrderOk(s'.db, k)
    {
      assert OrderOk(s.db, k);
    }
    forall c | c in s'.classified
      ensures HasOrder(s'.db, c)
    {
      assert HasOrder(s.db, c);
    }
  }

  /** Steps that add neither message nor order, and leave every attempt sound. */
  lemma QuietStepKeeps(s: State, s': State)
    requires Inv(s) && RowsKept(s.db, s'.db) && s'.classified == s.classified
    requires forall a :: a in s'.attempts ==>
      (a in s.attempts && s'.attempts[a] == s.attempts[a]) || AttemptOk(s'.db, s'.attempts[a])
    ensures Inv(s')
  {
    RowsKeptMessages(s.db, s'.db);
    RowsKeptOrders(s, s');
    forall a | a in s'.attempts
      ensures AttemptOk(s'.db, s'.attempts[a])
    {
      if a in s.attempts && s'.attempts[a] == s.attempts[a] {
        RowsKeptAttempt(s.db, s'.db, s.attempts[a]);
      }
    }
  }

  lemma SearchKeeps(s: State, a: Id)
    requires Inv(s) && a in s.attempts && s.attempts[a].pc.Prepared?
    ensures Inv(SearchStep(s, a))
  {
    assert AttemptOk(s.db, s.attempts[a]);
    QuietStepKeeps(s, SearchStep(s, a));
  }

  /** Search and insert with nothing in between. */
  function SaveStep(s: State, a: Id): State
    requires a in s.attempts && s.attempts[a].pc.Prepared?
  {
    var s1 := SearchStep(s, a);
    if s1.attempts[a].pc.Unfound? then InsertStep(s1, a) else s1
  }

  lemma PersistIsSearchThenInsert(s: State, a: Id, at: Attempt)
    requires a in s.attempts && s.attempts[a] == at && at.pc.Prepared?
    ensures SaveStep(s, a).db == Persist(s.db, at.pc.thread, at.trigger, at.occurrence, at.pc.content).0
    ensures a in SaveStep(s, a).attempts
    ensures SaveStep(s, a).attempts[a].pc ==
      Saved(at.pc.thread, Persist(s.db, at.pc.thread, at.trigger, at.occurrence, at.pc.content).1)
  {
  }

  lemma AppendKeepsMessages(db: Db, m: Message)
    requires MessagesOk(db) && ThreadOk(db, m.trigger, m.thread)
    ensures MessagesOk(Append(db, m)) && db.messages <= Append(db, m).messages
  {
    forall i | 0 <= i < |db.messages|
      ensures ThreadOk(Append(db, m), db.messages[i].trigger, db.messages[i].thread)
    {
      assert ThreadOk(db, db.messages[i].trigger, db.messages[i].thread);
    }
  }

  lemma AppendKeepsAttempt(db: Db, m: Message, at: Attempt)
    requires AttemptOk(db, at)
    ensures AttemptOk(Append(db, m), at)
  {
  }

  lemma InsertKeeps(s: State, a: Id)
    requires Inv(s) && a in s.attempts && s.attempts[a].pc.Unfound?
    ensures Inv(InsertStep(s, a))
  {
    var s', at := InsertStep(s, a), s.attempts[a];
    var m := Message(at.pc.thread, at.trigger, at.occurrence, at.pc.content);
    assert AttemptOk(s.db, at);
    AppendKeepsMessages(s.db, m);
    SaveKeepsOrders(s, s');
    forall b | b in s'.attempts
      ensures AttemptOk(s'.db, s'.attempts[b])
    {
      AppendKeepsAttempt(s.db, m, s.attempts[b]);
    }
  }

  lemma SaveKeepsOrders(s: State, s': State)
    requires OrdersOk(s) && s.db.messages <= s'.db.messages && s'.db.orders == s.db.orders
    requires s'.classified == s.classified
    ensures OrdersOk(s')
  {
    forall k | k in s'.db.orders
      ensures OrderOk(s'.db, k)
      ensures k.message < |s'.db.messages| ==>
        (s'.db.messages[k.message].trigger, s'.db.messages[k.message].occurrence, k.taskType) in s'.classified
    {
      assert OrderOk(s.db, k);
    }
    forall c | c in s'.classified
      ensures HasOrder(s'.db, c)
    {
      assert HasOrder(s.db, c);
      var k :| k in s.db.orders && k.message < |s.db.messages| && s.db.messages[k.message].trigger == c.0
        && s.db.messages[k.message].occurrence == c.1 && k.taskType == c.2;
      assert s'.db.messages[k.message] == s.db.messages[k.message];
    }
  }

  lemma ClassifyKeeps(s: State, a: Id, taskType: Option<string>)
    requires Inv(s) && a in s.attempts && s.attempts[a].pc.Saved?
    ensures Inv(ClassifyStep(s, a, taskType))
  {
    var at := s.attempts[a];
    assert AttemptOk(s.db, at);
    var s' := ClassifyStep(s, a, taskType);
    RowsKeptMessages(s.db, s'.db.(orders := s.db.orders));
    assert MessagesOk(s'.db);
    forall b | b in s'.attempts
      ensures AttemptOk(s'.db, s'.attempts[b])
    {
      assert AttemptOk(s.db, s.attempts[b]);
    }
    if taskType.Some? {
      var k := OrderKey(at.pc.thread, at.pc.message, taskType.value);
      assert k in s'.db.orders;
      forall c | c in s'.classified
        ensures HasOrder(s'.db, c)
      {
        if c in s.classified {
          assert HasOrder(s.db, c);
        }
      }
      forall j | j in s'.db.orders
        ensures OrderOk(s'.db, j)
      {
        assert j in s.db.orders ==> OrderOk(s.db, j);
      }
    } else {
      RowsKeptOrders(s, s');
    }
  }

  /** Steps of the outside world and steps that end an attempt. */
  predicate Outside(op: Op) {
    op.NewTrigger? || op.SetActive? || op.EditContent? || op.Tick? || op.Poll? || op.Release? || op.Crash?
  }

  lemma OutsideKeeps(next: Schedule, s: State, op: Op)
    requires Inv(s) && Outside(op)
    ensures Inv(Step(next, s, op))
  {
    QuietStepKeeps(s, Step(next, s, op));
  }

  lemma PrepareKeeps(s: State, a: Id, authorized: bool, newThread: Id)
    requires Inv(s) && a in s.attempts
    ensures Inv(PrepareStep(s, a, authorized, newThread))
  {
    QuietStepKeeps(s, PrepareStep(s, a, authorized, newThread));
  }

  lemma EndKeeps(next: Schedule, s: State, op: Op)
    requires Inv(s) && (op.Acquire? || op.Finish? || op.Throw?)
    ensures Inv(Step(next, s, op))
  {
    QuietStepKeeps(s, Step(next, s, op));
  }

  lemma StepKeeps(next: Schedule, s: State, op: Op)
    requires Inv(s)
    ensures Inv(Step(next, s, op))
  {
    if Outside(op) {
      OutsideKeeps(next, s, op);
    } else if op.Search? {
      if op.a in s.attempts && s.attempts[op.a].pc.Prepared? {
        SearchKeeps(s, op.a);
      }
    } else if op.Insert? {
      if op.a in s.attempts && s.attempts[op.a].pc.Unfound? {
        InsertKeeps(s, op.a);
      }
    } else if op.Classify? {
      if op.a in s.attempts && s.attempts[op.a].pc.Saved? {
        ClassifyKeeps(s, op.a, op.taskType);
      }
    } else if op.Prepare? {
      if op.a in s.attempts && s.attempts[op.a].pc.Locked? {
        PrepareKeeps(s, op.a, op.authorized, op.newThread);
      }
    } else {
      EndKeeps(next, s, op);
    }
  }

  lemma {:induction false} ReachableStatesAreSound(next: Schedule, ops: seq<Op>)
    ensures Inv(After(next, ops))
  {
    if ops != [] {
      ReachableStatesAreSound(next, ops[..|ops| - 1]);
      StepKeeps(next, After(next, ops[..|ops| - 1]), ops[|ops| - 1]);
    }
  }

  /** In every run all messages of a trigger, and all attempts that write for it, share one thread. */
  lemma OneThreadPerTrigger(next: Schedule, ops: seq<Op>, i: nat, j: nat)
    requires i < |After(next, ops).db.messages| && j < |After(next, ops).db.messages|
    requires After(next, ops).db.messages[i].trigger == After(next, ops).db.messages[j].trigger
    ensures After(next, ops).db.messages[i].thread == After(next, ops).db.messages[j].thread
  {
    var db := After(next, ops).db;
    ReachableStatesAreSound(next, ops);
    assert ThreadOk(db, db.messages[i].trigger, db.messages[i].thread);
    assert ThreadOk(db, db.messages[j].trigger, db.messages[j].thread);
  }

  // ----- The lock

  /** A lock that has not expired survives every step but the release of the attempt that took it. */
  lemma HeldLocksStay(next: Schedule, s: State, op: Op, key: (Id, Time))
    requires key in s.locks && s.clock < s.locks[key].expiresAt
    requires !(op.Release? && op.a == s.locks[key].token)
    ensures key in Step(next, s, op).locks && Step(next, s, op).locks[key] == s.locks[key]
  {
  }

  /** Only completed fires touch the schedule: not stale, contended, skipped, failed or crashed attempts. */
  lemma OnlyFinishMovesTheSchedule(next: Schedule, s: State, op: Op, t: Id)
    requires t in s.db.triggers && !op.Finish?
    ensures t in Step(next, s, op).db.triggers
    ensures Step(next, s, op).db.triggers[t].nextFireAt == s.db.triggers[t].nextFireAt
    ensures Step(next, s, op).db.triggers[t].fired == s.db.triggers[t].fired
  {
  }

  // ----- Runs, one step at a time

  lemma OneMore(next: Schedule, ops: seq<Op>, op: Op)
    ensures After(next, ops + [op]) == Step(next, After(next, ops), op)
  {
    assert (ops + [op])[..|ops|] == ops;
  }
}
