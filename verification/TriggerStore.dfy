/**
 One firing attempt on tables and locks updated in place, run without interruption. The pieces
 are the transactions of module Triggers, which lets attempts interleave, throw and crash.
 */
module TriggerStore {
  import opened Options
  import opened TriggerEffects
  import opened Triggers

  datatype Outcome = Fired(order: Option<OrderKey>) | Skipped | Stale | LockContended | Threw

  class Store {
    var triggers: map<Id, Trigger>
    var threads: set<Id>
    var messages: seq<Message>
    var orders: set<OrderKey>
    var locks: map<(Id, Time), Lock>

    ghost function View(): Db
      reads this
    {
      Db(triggers, threads, messages, orders)
    }

    constructor ()
      ensures View() == INITIAL.db && locks == map[]
    {
      triggers, threads, messages, orders, locks := map[], {}, [], {}, map[];
    }

    /** SET key token PX ttl NX */
    method AcquireTriggerFiringLock(key: (Id, Time), token: Id, now: Time) returns (acquired: bool)
      modifies this`locks
      ensures acquired <==> !(key in old(locks) && now < old(locks)[key].expiresAt)
      ensures locks == if acquired then old(locks)[key := Lock(token, now + 120_000)] else old(locks)
    {
      acquired := !(key in locks && now < locks[key].expiresAt);
      if acquired {
        locks := locks[key := Lock(token, now + LOCK_TTL)];
      }
    }

    /** Deletes the key only while it still holds this token. */
    method ReleaseTriggerFiringLock(key: (Id, Time), token: Id, now: Time)
      modifies this`locks
      ensures forall k :: k in old(locks) && old(locks)[k].token != token ==> k in locks && locks[k] == old(locks)[k]
      ensures locks == if key in old(locks) && now < old(locks)[key].expiresAt && old(locks)[key].token == token
        then old(locks) - {key} else old(locks)
    {
      if key in locks && now < locks[key].expiresAt && locks[key].token == token {
        locks := locks - {key};
      }
    }

    method EnsureTriggerThread(t: Id, newThread: Id) returns (thread: Id)
      requires t in triggers
      modifies this`triggers, this`threads
      ensures View() == EnsureThread(old(View()), t, newThread)
      ensures thread == ThreadUsed(old(View()), t, newThread)
      ensures triggers == old(triggers)[t := old(triggers)[t].(thread := Some(thread))]
      ensures threads == old(threads) + (if old(triggers)[t].thread == None then {newThread} else {})
    {
      if triggers[t].thread.Some? {
        assert triggers == triggers[t := triggers[t].(thread := triggers[t].thread)];
        return triggers[t].thread.value;
      }
      threads := threads + {newThread};
      // The row is locked since it was read, so the update guarded by "thread_id IS NULL" finds it.
      triggers := triggers[t := triggers[t].(thread := Some(newThread))];
      thread := newThread;
    }

    /** The search by correlation id, oldest first, then the insert. */
    method PersistMessage(thread: Id, t: Id, occurrence: Time, content: string) returns (m: nat)
      modifies this`messages
      ensures (View(), m) == Persist(old(View()), thread, t, occurrence, content)
      ensures messages == old(messages) + (if HasMessage(old(messages), thread, t, occurrence) then []
        else [Message(thread, t, occurrence, content)])
      ensures OldestFor(messages, m, thread, t, occurrence)
    {
      PersistIsExact(View(), thread, t, occurrence, content);
      for i := 0 to |messages|
        invariant messages == old(messages)
        invariant FindMessage(messages, thread, t, occurrence, 0) == FindMessage(messages, thread, t, occurrence, i)
      {
        if Matches(messages[i], thread, t, occurrence) {
          return i;
        }
      }
      m := |messages|;
      messages := messages + [Message(thread, t, occurrence, content)];
    }

    method AdvanceTrigger(next: Schedule, t: Id, occurrence: Time)
      requires t in triggers
      modifies this`triggers
      ensures View() == Advance(next, old(View()), t, occurrence)
      ensures triggers.Keys == old(triggers).Keys
      ensures forall u :: u in triggers && u != t ==> triggers[u] == old(triggers)[u]
      ensures triggers[t] == old(triggers)[t].(
        nextFireAt := if old(triggers)[t].kind == Recurring then Some(next(t, occurrence)) else None,
        fired := old(triggers)[t].fired + [occurrence])
    {
      var nextFireAt := if triggers[t].kind == OneOff then None else Some(next(t, occurrence));
      triggers := triggers[t := triggers[t].(nextFireAt := nextFireAt, fired := triggers[t].fired + [occurrence])];
    }

    /** The part of ingestion that matters here: the message, and a WorkOrder of the decided type, if any. */
    method IngestUserMessage(thread: Id, t: Id, occurrence: Time, content: string, taskType: Option<string>)
          returns (order: Option<OrderKey>)
      modifies this`messages, this`orders
      ensures messages == old(messages) + (if HasMessage(old(messages), thread, t, occurrence) then []
        else [Message(thread, t, occurrence, content)])
      ensures orders == old(orders) + (if order.Some? then {order.value} else {})
      ensures order.Some? <==> taskType.Some?
      ensures order.Some? ==>
        && order.value.thread == thread && order.value.taskType == taskType.value
        && OldestFor(messages, order.value.message, thread, t, occurrence)
    {
      var m := PersistMessage(thread, t, occurrence, content);
      order := None;
      if taskType.Some? {
        order := Some(OrderKey(thread, m, taskType.value));
        orders := orders + {order.value};
      }
    }

    /** Everything between taking the lock and giving it back; `taskType` is None when no WorkOrder is called for. */
    method FireLocked(next: Schedule, t: Id, occurrence: Time, authorized: bool, newThread: Id,
          taskType: Option<string>) returns (outcome: Outcome)
      modifies this`triggers, this`threads, this`messages, this`orders
      ensures outcome == Stale <==>
        (t !in old(triggers) || !old(triggers)[t].active || old(triggers)[t].nextFireAt != Some(occurrence))
      ensures outcome == Skipped <==> outcome != Stale && !authorized
      ensures outcome.Fired? <==> CanFire(old(View()), t, occurrence, authorized, newThread)
      ensures outcome == Threw <==> outcome != Stale && authorized && !outcome.Fired?
      ensures !outcome.Fired? ==> View() == old(View())
      ensures outcome.Fired? ==>
        Completed(next, old(View()), View(), t, occurrence, newThread, taskType, outcome.order)
    {
      if t !in triggers || !triggers[t].active || triggers[t].nextFireAt != Some(occurrence) {
        return Stale;
      }
      if !authorized {
        return Skipped;
      }
      if triggers[t].thread.None? && newThread in threads {
        return Threw;
      }
      var content := triggers[t].content;
      var thread := EnsureTriggerThread(t, newThread);
      var order := IngestUserMessage(thread, t, occurrence, content, taskType);
      AdvanceTrigger(next, t, occurrence);
      outcome := Fired(order);
    }

    method FireDueTrigger(next: Schedule, token: Id, t: Id, occurrence: Time, now: Time, later: Time, authorized: bool,
          newThread: Id, taskType: Option<string>)
        returns (outcome: Outcome)
      requires now <= later
      modifies this
      ensures outcome == LockContended <==>
        (t, occurrence) in old(locks) && now < old(locks)[(t, occurrence)].expiresAt
      ensures outcome.Fired? <==>
        outcome != LockContended && CanFire(old(View()), t, occurrence, authorized, newThread)
      ensures !outcome.Fired? ==> View() == old(View())
      ensures outcome.Fired? ==>
        Completed(next, old(View()), View(), t, occurrence, newThread, taskType, outcome.order)
      ensures locks ==
        if outcome == LockContended then old(locks)
        else if later < now + 120_000 then old(locks) - {(t, occurrence)}
        else old(locks)[(t, occurrence) := Lock(token, now + 120_000)]
    {
      var key := (t, occurrence);
      var acquired := AcquireTriggerFiringLock(key, token, now);
      if !acquired {
        return LockContended;
      }
      outcome := FireLocked(next, t, occurrence, authorized, newThread, taskType);
      ReleaseTriggerFiringLock(key, token, later);
    }
  }
}
