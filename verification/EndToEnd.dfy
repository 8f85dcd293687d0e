/**
 Trigger firing, WorkOrders and the tool gateway together: what one occurrence of a trigger can
 make the tools do.

 The three machines run side by side. They meet where an attempt ingests: its classification and
 the creation of the WorkOrder under the WorkOrder key are one transaction. A run of the product
 is the two runs of its components, so what is proved of them holds here as it is.
 */
module EndToEnd {
  import opened Options
  import opened Outcomes
  import opened Keys
  import Ordering
  import T = Triggers
  import L = TriggerTiming
  import O = TriggerOrders
  import W = WorkOrders
  import G = Gateway

  /** The WorkOrder key of a thread, a message and a task type; the fingerprint follows from the stored message. */
  type Naming = T.OrderKey -> string

  ghost predicate Injective(name: Naming) {
    forall k, l :: name(k) == name(l) ==> k == l
  }

  /** As text: with task types free of colons, as all of them are, the key names thread, message and type. */
  lemma KeyTextNamesTheOrder(tenant: Uuid, actor: Uuid, thread: Uuid, thread': Uuid, message: Uuid, message': Uuid,
        taskType: Uuid, taskType': Uuid, fingerprint: Uuid, fingerprint': Uuid)
    ensures Join([tenant, thread, message, actor, taskType, fingerprint])
         == Join([tenant, thread', message', actor, taskType', fingerprint'])
      ==> thread == thread' && message == message' && taskType == taskType'
  {
    var a := [tenant, thread, message, actor, taskType, fingerprint];
    var b := [tenant, thread', message', actor, taskType', fingerprint'];
    if Join(a) == Join(b) {
      PlainKeyDeterminesParts(a, b);
      assert a[1] == b[1] && a[2] == b[2] && a[4] == b[4];
    }
  }

  // ----- The product

  datatype System = System(next: T.Schedule, registry: G.Registry, tenant: Uuid, name: Naming)

  /** What has happened on either side so far. */
  datatype Run = Run(firing: seq<T.Op>, tools: seq<G.Op>)

  ghost function Firing(sys: System, run: Run): T.State {
    T.After(sys.next, run.firing)
  }

  ghost function Tools(sys: System, run: Run): G.State {
    G.After(sys.registry, sys.tenant, run.tools)
  }

  datatype Op =
    | Fire(firing: T.Op)
    | Ingest(a: nat, taskType: string, o: Uuid)
    | Tool(tools: G.Op)

  /** Some trigger's WorkOrder would have this key. */
  ghost predicate Named(name: Naming, key: string) {
    exists k :: name(k) == key
  }

  predicate Creates(op: T.Op) {
    op.Classify? && op.taskType.Some?
  }

  /** createWorkOrder for the attempt's message: both sides move, or the attempt throws. */
  ghost function IngestStep(sys: System, run: Run, a: nat, taskType: string, o: Uuid): Run {
    var s := Firing(sys, run);
    if a !in s.attempts || !s.attempts[a].pc.Saved? then run
    else
      var key := sys.name(T.OrderKey(s.attempts[a].pc.thread, s.attempts[a].pc.message, taskType));
      if W.Create(Tools(sys, run).work, o, key).1.Ok?
      then Run(run.firing + [T.Classify(a, Some(taskType))], run.tools + [G.WorkOp(W.CreateOp(o, key))])
      else run.(firing := run.firing + [T.Throw(a)])
  }

  /** WorkOrders of triggers are created by ingestion only; everything else interleaves freely. */
  ghost function Step(sys: System, run: Run, op: Op): Run {
    match op
    case Fire(firing) => if Creates(firing) then run else run.(firing := run.firing + [firing])
    case Ingest(a, taskType, o) => IngestStep(sys, run, a, taskType, o)
    case Tool(tools) =>
      if tools.WorkOp? && tools.op.CreateOp? && Named(sys.name, tools.op.key) then run
      else run.(tools := run.tools + [tools])
  }

  ghost function After(sys: System, ops: seq<Op>): Run {
    if ops == [] then Run([], []) else Step(sys, After(sys, ops[..|ops| - 1]), ops[|ops| - 1])
  }

  // ----- The two sides agree on the WorkOrders of triggers

  ghost predicate Agree(name: Naming, s: T.State, work: W.State) {
    forall k :: k in s.db.orders <==> name(k) in work.orderKeys
  }

  lemma FiringStep(sys: System, run: Run, op: T.Op)
    ensures Firing(sys, run.(firing := run.firing + [op])) == T.Step(sys.next, Firing(sys, run), op)
  {
    T.OneMore(sys.next, run.firing, op);
  }

  lemma ToolStep(sys: System, run: Run, op: G.Op)
    ensures Tools(sys, run.(tools := run.tools + [op])) == G.Step(sys.registry, Tools(sys, run), op)
  {
    assert (run.tools + [op])[..|run.tools|] == run.tools;
  }

  /** Only a classification adds an order key. */
  lemma OtherStepsKeepOrders(next: T.Schedule, s: T.State, op: T.Op)
    requires !Creates(op)
    ensures T.Step(next, s, op).db.orders == s.db.orders
  {
  }

  lemma ClassifyAddsOrder(next: T.Schedule, s: T.State, a: nat, taskType: string)
    requires a in s.attempts && s.attempts[a].pc.Saved?
    ensures T.Step(next, s, T.Classify(a, Some(taskType))).db.orders
         == s.db.orders + {T.OrderKey(s.attempts[a].pc.thread, s.attempts[a].pc.message, taskType)}
  {
  }

  /** Only a creation adds a WorkOrder key. */
  lemma TransitionsKeepKeys(work: W.State, q: W.Request)
    ensures W.Transition(work, q).0.orderKeys == work.orderKeys
  {
  }

  lemma ToolsKeepKeys(registry: G.Registry, s: G.State, op: G.Op)
    requires !(op.WorkOp? && op.op.CreateOp?)
    ensures G.Step(registry, s, op).work.orderKeys == s.work.orderKeys
  {
    if op.WorkOp? {
      TransitionsKeepKeys(s.work, op.op.request);
    }
  }

  lemma CreateAddsKey(registry: G.Registry, g: G.State, o: Uuid, key: string)
    requires W.Create(g.work, o, key).1.Ok?
    ensures G.Step(registry, g, G.WorkOp(W.CreateOp(o, key))).work.orderKeys.Keys == g.work.orderKeys.Keys + {key}
  {
  }

  lemma AgreeOnOneMore(name: Naming, s: T.State, work: W.State, s': T.State, work': W.State, k: T.OrderKey)
    requires Injective(name) && Agree(name, s, work)
    requires s'.db.orders == s.db.orders + {k} && work'.orderKeys.Keys == work.orderKeys.Keys + {name(k)}
    ensures Agree(name, s', work')
  {
  }

  lemma IngestCreates(sys: System, run: Run, a: nat, taskType: string, o: Uuid, k: T.OrderKey, run': Run)
    requires Injective(sys.name) && Agree(sys.name, Firing(sys, run), Tools(sys, run).work)
    requires a in Firing(sys, run).attempts && Firing(sys, run).attempts[a].pc.Saved?
    requires k == T.OrderKey(Firing(sys, run).attempts[a].pc.thread, Firing(sys, run).attempts[a].pc.message, taskType)
    requires W.Create(Tools(sys, run).work, o, sys.name(k)).1.Ok?
    requires run'.firing == run.firing + [T.Classify(a, Some(taskType))]
    requires run'.tools == run.tools + [G.WorkOp(W.CreateOp(o, sys.name(k)))]
    ensures Agree(sys.name, Firing(sys, run'), Tools(sys, run').work)
  {
    FiringStep(sys, run, T.Classify(a, Some(taskType)));
    ClassifyAddsOrder(sys.next, Firing(sys, run), a, taskType);
    ToolStep(sys, run, G.WorkOp(W.CreateOp(o, sys.name(k))));
    CreateAddsKey(sys.registry, Tools(sys, run), o, sys.name(k));
    AgreeOnOneMore(sys.name, Firing(sys, run), Tools(sys, run).work, Firing(sys, run'), Tools(sys, run').work, k);
  }

  lemma IngestAgrees(sys: System, run: Run, a: nat, taskType: string, o: Uuid)
    requires Injective(sys.name) && Agree(sys.name, Firing(sys, run), Tools(sys, run).work)
    ensures Agree(sys.name, Firing(sys, IngestStep(sys, run, a, taskType, o)),
      Tools(sys, IngestStep(sys, run, a, taskType, o)).work)
  {
    var s := Firing(sys, run);
    if a in s.attempts && s.attempts[a].pc.Saved? {
      var k := T.OrderKey(s.attempts[a].pc.thread, s.attempts[a].pc.message, taskType);
      if W.Create(Tools(sys, run).work, o, sys.name(k)).1.Ok? {
        IngestCreates(sys, run, a, taskType, o, k, IngestStep(sys, run, a, taskType, o));
      } else {
        FiringStep(sys, run, T.Throw(a));
        OtherStepsKeepOrders(sys.next, s, T.Throw(a));
      }
    }
  }

  lemma StepAgrees(sys: System, run: Run, op: Op)
    requires Injective(sys.name) && Agree(sys.name, Firing(sys, run), Tools(sys, run).work)
    ensures Agree(sys.name, Firing(sys, Step(sys, run, op)), Tools(sys, Step(sys, run, op)).work)
  {
    match op
    case Fire(firing) =>
      if !Creates(firing) {
        FiringStep(sys, run, firing);
        OtherStepsKeepOrders(sys.next, Firing(sys, run), firing);
      }
    case Ingest(a, taskType, o) => IngestAgrees(sys, run, a, taskType, o);
    case Tool(tools) => ToolAgrees(sys, run, tools);
  }

  lemma ToolAgrees(sys: System, run: Run, op: G.Op)
    requires Agree(sys.name, Firing(sys, run), Tools(sys, run).work)
    ensures Agree(sys.name, Firing(sys, Step(sys, run, Tool(op))), Tools(sys, Step(sys, run, Tool(op))).work)
  {
    var g := Tools(sys, run);
    ToolStep(sys, run, op);
    if op.WorkOp? && op.op.CreateOp? {
      assert forall key :: key in G.Step(sys.registry, g, op).work.orderKeys ==>
        key in g.work.orderKeys || key == op.op.key;
      assert forall key :: key in g.work.orderKeys ==> key in G.Step(sys.registry, g, op).work.orderKeys;
    } else {
      ToolsKeepKeys(sys.registry, g, op);
    }
  }

  lemma {:induction false} SidesAgree(sys: System, ops: seq<Op>)
    requires Injective(sys.name)
    ensures Agree(sys.name, Firing(sys, After(sys, ops)), Tools(sys, After(sys, ops)).work)
  {
    if ops != [] {
      SidesAgree(sys, ops[..|ops| - 1]);
      StepAgrees(sys, After(sys, ops[..|ops| - 1]), ops[|ops| - 1]);
    }
  }

  // ----- What an occurrence leads to

  /** WorkOrder o was created for this occurrence of trigger t. */
  ghost predicate CreatedFor(sys: System, run: Run, o: Uuid, t: nat, occurrence: int) {
    o in Tools(sys, run).work.orders &&
    exists k :: Tools(sys, run).work.orders[o].key == sys.name(k) && IsFor(Firing(sys, run), k, t, occurrence)
  }

  ghost predicate IsFor(s: T.State, k: T.OrderKey, t: nat, occurrence: int) {
    && k.message < |s.db.messages|
    && s.db.messages[k.message].trigger == t && s.db.messages[k.message].occurrence == occurrence
  }

  /** Live attempts write before their lock expires, and the task type is a function of the stored message. */
  ghost predicate Orderly(sys: System, f: O.Classifier, run: Run) {
    L.TimelyRun(sys.next, run.firing) && O.FixedRun(sys.next, f, run.firing)
  }

  lemma WorkIsReachable(sys: System, tools: seq<G.Op>)
    ensures W.Inv(G.After(sys.registry, sys.tenant, tools).work)
  {
    G.ReachableStatesAreSound(sys.registry, sys.tenant, tools);
  }

  /** The keys of WorkOrders created for an occurrence are among its order keys. */
  lemma CreatedForIsOrdered(sys: System, ops: seq<Op>, o: Uuid, t: nat, occurrence: int) returns (k: T.OrderKey)
    requires Injective(sys.name) && CreatedFor(sys, After(sys, ops), o, t, occurrence)
    ensures k in O.OrdersOf(Firing(sys, After(sys, ops)), t, occurrence)
    ensures Tools(sys, After(sys, ops)).work.orders[o].key == sys.name(k)
  {
    var run := After(sys, ops);
    SidesAgree(sys, ops);
    WorkIsReachable(sys, run.tools);
    k :| Tools(sys, run).work.orders[o].key == sys.name(k) && IsFor(Firing(sys, run), k, t, occurrence);
    assert W.OrderOk(Tools(sys, run).work, o);
  }

  /** In orderly runs an occurrence of a trigger has at most one WorkOrder. */
  lemma OneWorkOrderPerOccurrence(sys: System, f: O.Classifier, ops: seq<Op>, t: nat, occurrence: int, o: Uuid, p: Uuid)
    requires Injective(sys.name) && Orderly(sys, f, After(sys, ops))
    requires CreatedFor(sys, After(sys, ops), o, t, occurrence) && CreatedFor(sys, After(sys, ops), p, t, occurrence)
    ensures o == p
  {
    var run := After(sys, ops);
    var k := CreatedForIsOrdered(sys, ops, o, t, occurrence);
    var l := CreatedForIsOrdered(sys, ops, p, t, occurrence);
    O.FixedTypeGivesOneOrder(sys.next, f, run.firing, t, occurrence);
    AtMostOneMember(O.OrdersOf(Firing(sys, run), t, occurrence), k, l);
    WorkIsReachable(sys, run.tools);
    var work := Tools(sys, run).work;
    assert W.OrderOk(work, o) && W.OrderOk(work, p);
  }

  lemma AtMostOneMember(s: set<T.OrderKey>, k: T.OrderKey, l: T.OrderKey)
    requires |s| <= 1 && k in s && l in s
    ensures k == l
  {
    if k != l {
      assert {k, l} <= s && |{k, l}| == 2;
      Ordering.SubsetCount({k, l}, s);
    }
  }

  /**
   In orderly runs each occurrence of a trigger leads to at most one handler run per tool and
   version: two invocations for it are the same one, its handler ran at most once, and that under a
   decision of the occurrence's own WorkOrder that meets the tool's tier.
   */
  lemma OneHandlerRunPerOccurrence(sys: System, f: O.Classifier, ops: seq<Op>, t: nat, occurrence: int, k: G.Key,
        l: G.Key)
    requires Injective(sys.name) && Orderly(sys, f, After(sys, ops))
    requires k in Tools(sys, After(sys, ops)).invocations && CreatedFor(sys, After(sys, ops), k.order, t, occurrence)
    requires l in Tools(sys, After(sys, ops)).invocations && CreatedFor(sys, After(sys, ops), l.order, t, occurrence)
    requires k.tool == l.tool && k.version == l.version
    ensures k == l && Tools(sys, After(sys, ops)).invocations[k].runs <= 1
    ensures G.Authorised(sys.registry, Tools(sys, After(sys, ops)).work, k)
  {
    OneWorkOrderPerOccurrence(sys, f, ops, t, occurrence, k.order, l.order);
    G.AtMostOneRun(sys.registry, sys.tenant, After(sys, ops).tools, k);
  }
}
