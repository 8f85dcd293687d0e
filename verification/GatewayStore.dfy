/** One gateway call from start to answer on rows updated in place, the fate of each write chosen from outside. */
module GatewayStore {
  import opened Options
  import opened Keys
  import opened Gateway
  import opened GatewayEffects
  import W = WorkOrders

  class Store {
    var invocations: map<Key, Invocation>

    constructor ()
      ensures invocations == map[]
    {
      invocations := map[];
    }

    method MarkInvocation(k: Key, status: Status, fate: Fate) returns (answer: Answer)
      requires k in invocations
      modifies this
      ensures invocations == if fate == Lost then old(invocations)
        else old(invocations)[k := old(invocations)[k].(status := status, leaves := old(invocations)[k].leaves + 1)]
      ensures answer == if fate == Heard then Answered(old(invocations)[k].id, status) else Threw
    {
      if fate == Lost {
        return Threw;
      }
      invocations := invocations[k := invocations[k].(status := status, leaves := invocations[k].leaves + 1)];
      answer := if fate == Heard then Answered(invocations[k].id, status) else Threw;
    }

    /** `valid` and `good` are what input validation, the handler and output validation turn out to say. */
    method InvokeRegisteredTool(registry: Registry, work: W.State, k: Key, candidateId: Uuid, valid: bool, good: bool,
          insert: Fate, mark: Fate) returns (answer: Answer)
      modifies this
      ensures Invoked(registry, work, old(invocations), invocations, k,
        Script(candidateId, insert, valid, good, mark), answer)
    {
      AuthorisedIff(registry, work, k);
      if !Authorised(registry, work, k) {
        return Denied;
      }
      if insert == Lost {
        return Threw;
      }
      if k in invocations {
        if insert == Unheard {
          return Threw;
        }
        return Answered(invocations[k].id, invocations[k].status);
      }
      if IdTaken(invocations, candidateId) {
        return Threw;
      }
      invocations := invocations[k := Invocation(candidateId, Pending, 0, 0)];
      if insert == Unheard {
        return Threw;
      }
      if !valid {
        answer := MarkInvocation(k, Failed, mark);
        return;
      }
      invocations := invocations[k := invocations[k].(runs := invocations[k].runs + 1)];
      answer := MarkInvocation(k, if good then Succeeded else Failed, mark);
    }
  }
}
