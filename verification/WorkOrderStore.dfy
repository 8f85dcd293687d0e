/**
 createWorkOrder and transitionWorkOrder on tables updated in place, in the order of their
 statements. Every throw comes before the first write of its transaction.
 */
module WorkOrderStore {
  import opened Options
  import opened Keys
  import opened WorkOrderEffects
  import opened WorkOrders

  class Store {
    const tenant: Uuid
    var orders: map<Uuid, Order>
    var orderKeys: map<string, Uuid>
    var decisions: map<Uuid, Decision>
    var runKeys: set<string>
    var receiptKeys: set<string>

    ghost function View(): State
      reads this
    {
      State(tenant, orders, orderKeys, decisions, runKeys, receiptKeys)
    }

    ghost predicate Valid()
      reads this
    {
      Inv(View())
    }

    constructor (tenant: Uuid)
      ensures Valid() && View() == After(tenant, [])
    {
      this.tenant := tenant;
      orders, orderKeys, decisions, runKeys, receiptKeys := map[], map[], map[], {}, {};
    }

    method CreateWorkOrder(candidateId: Uuid, key: string) returns (r: Result<Uuid, Error>)
      requires Valid()
      modifies this
      ensures Valid() && (View(), r) == Create(old(View()), candidateId, key)
      ensures r == if key in old(orderKeys) then Ok(old(orderKeys)[key])
        else if candidateId in old(orders) then Err(DuplicateId) else Ok(candidateId)
      ensures key in old(orderKeys) || r.Err? ==> View() == old(View())
      ensures key !in old(orderKeys) && r.Ok? ==>
        && orders == old(orders)[candidateId := Order(key, Received, None, [Row(None, Received)], [], [], [])]
        && orderKeys == old(orderKeys)[key := candidateId]
    {
      CreateKeeps(View(), candidateId, key);
      if key !in orderKeys {
        if candidateId in orders {
          return Err(DuplicateId);
        }
        orders := orders[candidateId := Order(key, Received, None, [], [], [], [])];
        orderKeys := orderKeys[key := candidateId];
        orders := orders[candidateId := orders[candidateId].(history := [Row(None, Received)])];
        assert orders == old(orders)[candidateId := NewOrder(key)];
        return Ok(candidateId);
      }
      assert OrderOk(View(), orderKeys[key]);
      r := Ok(orderKeys[key]);
    }

    /** Checks the request and writes the rows that substantiate it; the status has not moved yet. */
    method WriteSubstantiation(q: Request) returns (error: Option<Error>)
      requires q.order in orders
      modifies this
      ensures orderKeys == old(orderKeys)
      ensures match Substantiate(old(View()), old(orders)[q.order], q)
        case Err(e) => error == Some(e) && View() == old(View())
        case Ok(c) =>
          error == None && decisions == c.decisions && runKeys == c.runKeys && receiptKeys == c.receiptKeys
          && orders == old(orders)[q.order := c.order]
      ensures error == None && q.next == AuthorityClassified && old(orders)[q.order].status == IntentParsed ==>
        && q.decision.Some? && orders[q.order].decision == Some(q.decisionId)
        && decisions == old(decisions)[q.decisionId := Decision(q.order, q.decision.value.outcome)]
    {
      var w := orders[q.order];
      if w.status == IntentParsed && q.next == AuthorityClassified {
        if q.decision.None? {
          return Some(DecisionRequired);
        }
        if !q.decision.value.actorKnown {
          return Some(ActorNotFound);
        }
        if q.decisionId in decisions {
          return Some(DuplicateId);
        }
        decisions := decisions[q.decisionId := Decision(q.order, q.decision.value.outcome)];
        orders := orders[q.order := w.(decision := Some(q.decisionId))];
      } else if w.status == AuthorityClassified && AuthorityBranch(q.next) {
        if w.decision.None? {
          return Some(NoDecisionLinked);
        }
        if w.decision.value !in decisions {
          return Some(DecisionMissing);
        }
        if ExpectedStatus(decisions[w.decision.value].outcome) != q.next {
          return Some(OutcomeMismatch);
        }
      } else if w.status == ReadyToAct && q.next == Executing {
        var key := RunKey(tenant, q.order);
        if key in runKeys {
          return Some(DuplicateRunKey);
        }
        runKeys := runKeys + {key};
        orders := orders[q.order := w.(runs := w.runs + [Run(key, Executing)])];
      } else if w.status == Executing && q.next == Validating {
        if w.runs == [] {
          return Some(NoRun);
        }
        orders := orders[q.order := w.(runs := w.runs[|w.runs| - 1 := w.runs[|w.runs| - 1].(status := Validating)])];
      } else if w.status == Validating && q.next == ReceiptWritten {
        if w.runs == [] {
          return Some(NoRun);
        }
        var key := ReceiptKey(tenant, q.order);
        if key in receiptKeys {
          return Some(DuplicateReceiptKey);
        }
        receiptKeys := receiptKeys + {key};
        orders := orders[q.order := w.(receipts :=
          w.receipts + [Receipt(key, |w.runs| - 1, w.decision, w.status, q.next)])];
      } else if w.status == ReceiptWritten && q.next == MemoryCandidatesCreated {
        if q.candidate.None? {
          return Some(CandidateRequired);
        }
        if w.receipts == [] {
          return Some(NoReceipt);
        }
        orders := orders[q.order := w.(candidates := w.candidates + [Candidate(|w.receipts| - 1, q.candidate.value)])];
      }
      assert orders == old(orders)[q.order := orders[q.order]];
      error := None;
    }

    method MoveStatus(o: Uuid, current: Status, next: Status)
      requires o in orders && orders[o].status == current
      modifies this`orders
      ensures orders == old(orders)[o := Moved(old(orders)[o], next)]
    {
      orders := orders[o := orders[o].(status := next)];
      orders := orders[o := orders[o].(history := orders[o].history + [Row(Some(current), next)])];
    }

    /** The statements of the transaction. */
    method RunTransition(q: Request) returns (error: Option<Error>)
      modifies this
      ensures (View(), error) == Transition(old(View()), q)
    {
      if q.order !in orders {
        return Some(NotFound);
      }
      var current := orders[q.order].status;
      if Terminal(current) {
        return Some(TerminalState);
      }
      if q.next !in Next(current) {
        return Some(InvalidTransition);
      }
      error := WriteSubstantiation(q);
      if error.Some? {
        return;
      }
      MoveStatus(q.order, current, q.next);
      assert orders == old(orders)[q.order := orders[q.order]];
    }

    method TransitionWorkOrder(q: Request) returns (error: Option<Error>)
      requires Valid()
      modifies this
      ensures Valid() && (View(), error) == Transition(old(View()), q)
      ensures Answered(old(View()), View(), q, error)
    {
      TransitionAnswers(View(), q);
      error := RunTransition(q);
    }
  }
}
