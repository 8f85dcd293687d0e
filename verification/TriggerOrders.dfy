/**
 How many WorkOrders an occurrence of a trigger gets: the WorkOrder key holds the task type
 (src/state/createWorkOrder.ts), which is decided anew by every attempt.
 */
module TriggerOrders {
  import opened Options
  import opened Triggers
  import opened TriggerTiming

  // ----- WorkOrders per occurrence

  ghost function OrdersOf(s: State, t: Id, occurrence: Time): set<OrderKey> {
    set k | k in s.db.orders && k.message < |s.db.messages| && s.db.messages[k.message].trigger == t
      && s.db.messages[k.message].occurrence == occurrence
  }

  ghost function TypesOf(s: State, t: Id, occurrence: Time): set<string> {
    set c | c in s.classified && c.0 == t && c.1 == occurrence :: c.2
  }

  ghost predicate OneOrderPerType(orders: set<OrderKey>) {
    forall k, l :: k in orders && l in orders && k.taskType == l.taskType ==> k == l
  }

  lemma {:induction false} TypesCount(orders: set<OrderKey>)
    requires OneOrderPerType(orders)
    ensures |set k | k in orders :: k.taskType| == |orders|
  {
    if orders != {} {
      var k :| k in orders;
      TypesCount(orders - {k});
      var rest := set l | l in orders - {k} :: l.taskType;
      assert k.taskType !in rest;
      assert (set l | l in orders :: l.taskType) == rest + {k.taskType};
    }
  }

  /**
   In a timely run an occurrence has exactly as many WorkOrders as task types were decided for it. The task type
   is part of the key, so there is at most one WorkOrder if and only if the type never changed.
   */
  lemma OrdersCountTypes(next: Schedule, ops: seq<Op>, t: Id, occurrence: Time)
    requires TimelyRun(next, ops)
    ensures |OrdersOf(After(next, ops), t, occurrence)| == |TypesOf(After(next, ops), t, occurrence)|
    ensures |OrdersOf(After(next, ops), t, occurrence)| <= 1 <==> OneType(TypesOf(After(next, ops), t, occurrence))
  {
    TimelyRunsStayOnSchedule(next, ops);
    OrdersMatchTypes(After(next, ops), t, occurrence);
    TypesCount(OrdersOf(After(next, ops), t, occurrence));
    AtMostOne(TypesOf(After(next, ops), t, occurrence));
  }

  ghost predicate OneType(types: set<string>) {
    forall x, y :: x in types && y in types ==> x == y
  }

  /** With one message per occurrence the key of a WorkOrder is told apart by the type alone. */
  lemma OrdersMatchTypes(s: State, t: Id, occurrence: Time)
    requires Inv(s) && UniqueMessages(s.db)
    ensures OneOrderPerType(OrdersOf(s, t, occurrence))
    ensures (set k | k in OrdersOf(s, t, occurrence) :: k.taskType) == TypesOf(s, t, occurrence)
  {
    var orders, types := OrdersOf(s, t, occurrence), TypesOf(s, t, occurrence);
    forall k, l | k in orders && l in orders && k.taskType == l.taskType
      ensures k == l
    {
      assert OrderOk(s.db, k) && OrderOk(s.db, l);
    }
    assert (set k | k in orders :: k.taskType) == types by {
      forall x
        ensures x in types <==> exists k :: k in orders && k.taskType == x
      {
        if x in types {
          assert HasOrder(s.db, (t, occurrence, x));
        }
        if k :| k in orders && k.taskType == x {
          assert (t, occurrence, x) in s.classified;
        }
      }
    }
  }

  lemma AtMostOne(types: set<string>)
    ensures |types| <= 1 <==> OneType(types)
  {
    if types != {} {
      var x :| x in types;
      assert types == {x} + (types - {x});
      if types != {x} {
        var y :| y in types - {x};
        assert x in types && y in types && x != y;
        assert |types - {x}| >= 1;
      }
    }
  }

  // ----- A task type that is a function of the stored message

  type Classifier = string -> Option<string>

  /** Every classification of the run is what `f` says about the stored content. */
  ghost predicate Classifies(f: Classifier, s: State, op: Op) {
    op.Classify? && op.a in s.attempts && s.attempts[op.a].pc.Saved?
      && s.attempts[op.a].pc.message < |s.db.messages| ==>
      op.taskType == f(s.db.messages[s.attempts[op.a].pc.message].content)
  }

  ghost predicate FixedRun(next: Schedule, f: Classifier, ops: seq<Op>) {
    ops == [] || (FixedRun(next, f, ops[..|ops| - 1]) && Classifies(f, After(next, ops[..|ops| - 1]), ops[|ops| - 1]))
  }

  ghost predicate TypedBy(f: Classifier, db: Db) {
    forall k :: k in db.orders && k.message < |db.messages| ==> f(db.messages[k.message].content) == Some(k.taskType)
  }

  lemma StepKeepsTypes(next: Schedule, f: Classifier, s: State, op: Op)
    requires Inv(s) && TypedBy(f, s.db) && Classifies(f, s, op)
    ensures TypedBy(f, Step(next, s, op).db)
  {
    forall k | k in s.db.orders
      ensures k.message < |s.db.messages|
    {
      assert OrderOk(s.db, k);
    }
    if op.Classify? && op.a in s.attempts {
      assert AttemptOk(s.db, s.attempts[op.a]);
    }
  }

  lemma {:induction false} FixedRunsAreTyped(next: Schedule, f: Classifier, ops: seq<Op>)
    requires FixedRun(next, f, ops)
    ensures TypedBy(f, After(next, ops).db)
  {
    if ops != [] {
      FixedRunsAreTyped(next, f, ops[..|ops| - 1]);
      ReachableStatesAreSound(next, ops[..|ops| - 1]);
      StepKeepsTypes(next, f, After(next, ops[..|ops| - 1]), ops[|ops| - 1]);
    }
  }

  /** Timely runs with a fixed classification: at most one WorkOrder per occurrence. */
  lemma FixedTypeGivesOneOrder(next: Schedule, f: Classifier, ops: seq<Op>, t: Id, occurrence: Time)
    requires TimelyRun(next, ops) && FixedRun(next, f, ops)
    ensures |OrdersOf(After(next, ops), t, occurrence)| <= 1
  {
    var s := After(next, ops);
    TimelyRunsStayOnSchedule(next, ops);
    FixedRunsAreTyped(next, f, ops);
    OrdersMatchTypes(s, t, occurrence);
    forall x, y | x in TypesOf(s, t, occurrence) && y in TypesOf(s, t, occurrence)
      ensures x == y
    {
      var k :| k in OrdersOf(s, t, occurrence) && k.taskType == x;
      var l :| l in OrdersOf(s, t, occurrence) && l.taskType == y;
      assert k.message == l.message;
    }
    OrdersCountTypes(next, ops, t, occurrence);
  }
}
