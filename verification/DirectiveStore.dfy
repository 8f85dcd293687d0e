/**
 The directive services on tables updated in place, in the order of their statements. A
 detection runs here from its lookup to its commit; what may happen in between is the
 interleaving of module Directives.
 */
module DirectiveStore {
  import opened Options
  import opened Keys
  import opened DirectiveEffects
  import opened Directives
  import W = WorkOrders

  class Store {
    var directives: map<Uuid, Directive>
    var keys: map<string, Uuid>
    var suppressions: seq<Suppression>

    ghost function View(): Ledger
      reads this
    {
      Ledger(directives, keys, suppressions, map[])
    }

    constructor ()
      ensures View() == Ledger(map[], map[], [], map[])
    {
      directives, keys, suppressions := map[], map[], [];
    }

    /** SELECT COALESCE(MAX(revision_number), 0) */
    method MaxRevisionNumber(id: Uuid) returns (m: nat)
      requires id in directives
      ensures m == MaxNumber(directives[id].revisions)
    {
      m := 0;
      var revisions := directives[id].revisions;
      for i := 0 to |revisions|
        invariant m == MaxNumber(revisions[..i])
      {
        assert revisions[..i + 1][..i] == revisions[..i];
        if revisions[i].number > m {
          m := revisions[i].number;
        }
      }
      assert revisions[..|revisions|] == revisions;
    }

    method InsertDirectiveRevisionRow(env: Env, id: Uuid, content: Content, author: Uuid) returns (error: Option<Error>)
      requires id in directives
      modifies this`directives
      ensures match AddRevision(env, old(directives)[id], content, author)
        case Err(e) => error == Some(e) && directives == old(directives)
        case Ok(d) => error == None && directives == old(directives)[id := d]
    {
      if content.title == "" {
        return Some(InvalidInput);
      }
      if author !in env.actors {
        return Some(ReferenceNotFound);
      }
      if content.proposedOwner.Some? && content.proposedOwner.value !in env.actors {
        return Some(ReferenceNotFound);
      }
      var max := MaxRevisionNumber(id);
      directives := directives[id := directives[id].(revisions :=
        directives[id].revisions + [Revision(max + 1, content)])];
      directives := directives[id := directives[id].(temporal := content.temporal)];
      error := None;
    }

    method InsertDirectiveProvenanceRow(env: Env, id: Uuid, source: Source) returns (error: Option<Error>)
      requires id in directives
      modifies this`directives
      ensures match AddProvenance(env, old(directives)[id], source)
        case Err(e) => error == Some(e) && directives == old(directives)
        case Ok(d) => error == None && directives == old(directives)[id := d]
    {
      error := SourceError(env, source);
      if error.Some? {
        return;
      }
      directives := directives[id := directives[id].(provenance := directives[id].provenance + [source])];
    }

    method ApplyDirectiveTransition(env: Env, id: Uuid, to: Status, actor: Uuid, mode: Option<Mode>, now: int)
          returns (error: Option<Error>)
      requires id in directives
      modifies this`directives
      ensures match Transition(env, old(directives)[id], to, actor, mode, now)
        case Err(e) => error == Some(e) && directives == old(directives)
        case Ok(d) => error == None && directives == old(directives)[id := d]
    {
      if actor !in env.actors {
        return Some(ReferenceNotFound);
      }
      var from := directives[id].status;
      if from == Superseded {
        return Some(TerminalState);
      }
      if to !in Next(from) {
        return Some(InvalidTransition);
      }
      if to == Completed {
        if mode == None {
          return Some(InvalidInput);
        }
        if mode == Some(SystemValidated) {
          var found := FindCompletedWorkOrder(env, id);
          if !found {
            return Some(Unsubstantiated);
          }
        }
      }
      var stamps := if Stamped(to) then directives[id].stamps[to := now] else directives[id].stamps;
      directives := directives[id := directives[id].(status := to, lastSeen := now, stamps := stamps)];
      var row := Row(Some(from), to, if to == Completed then mode else None);
      directives := directives[id := directives[id].(history := directives[id].history + [row])];
      error := None;
    }

    method FindCompletedWorkOrder(env: Env, id: Uuid) returns (found: bool)
      requires id in directives
      ensures found <==> Substantiated(env.work, directives[id])
    {
      var rows := directives[id].provenance;
      for i := 0 to |rows|
        invariant forall k :: 0 <= k < i ==> !CompletedSource(env.work, rows[k])
      {
        if CompletedSource(env.work, rows[i]) {
          return true;
        }
      }
      return false;
    }

    method InsertOptionalProvenance(env: Env, id: Uuid, source: Option<Source>) returns (error: Option<Error>)
      requires id in directives
      modifies this`directives
      ensures match AddOptionalProvenance(env, old(directives)[id], source)
        case Err(e) => error == Some(e) && directives == old(directives)
        case Ok(d) => error == None && directives == old(directives)[id := d]
    {
      error := None;
      if source.Some? {
        error := InsertDirectiveProvenanceRow(env, id, source.value);
      }
    }

    /** Adds the revision if the content differs from the latest one, and reopens a closed directive. */
    method ReviseAndReopen(env: Env, id: Uuid, input: Detection) returns (r: Result<Outcome, Error>)
      requires id in directives
      modifies this`directives
      ensures match Refresh(env, old(directives)[id], input)
        case Err(e) => r == Err(e)
        case Ok((d, outcome)) => r == Ok(outcome) && directives == old(directives)[id := d]
    {
      var status, change := directives[id].status, !SameAsLatest(directives[id], input.content);
      if change {
        var error := InsertDirectiveRevisionRow(env, id, input.content, input.issuer);
        if error.Some? {
          return Err(error.value);
        }
      }
      if Reopenable(status) {
        var error := ApplyDirectiveTransition(env, id, Open, input.issuer, None, input.now);
        if error.Some? {
          return Err(error.value);
        }
        return Ok(Reopened);
      }
      r := Ok(if change then Revised else Carried);
    }

    method MergeIntoExistingDirective(env: Env, id: Uuid, input: Detection) returns (r: Result<Outcome, Error>)
      requires id in directives
      modifies this`directives
      ensures match Merge(env, old(directives)[id], input)
        case Err(e) => r == Err(e)
        case Ok((d, outcome)) => r == Ok(outcome) && directives == old(directives)[id := d]
      ensures RevisionsOk(old(directives)[id]) ==>
        && (r.Ok? <==> MayMerge(env, old(directives)[id], input))
        && (r.Ok? ==> MergedAs(old(directives)[id], directives[id], input, r.value))
    {
      MergeWhenSound(env, directives[id], input);
      directives := directives[id := directives[id].(lastSeen := input.now)];
      var error := InsertOptionalProvenance(env, id, input.source);
      if error.Some? {
        return Err(error.value);
      }
      if directives[id].status == Superseded {
        return Ok(Carried);
      }
      r := ReviseAndReopen(env, id, input);
    }

    method InsertNewDirective(env: Env, input: Detection) returns (error: Option<Error>)
      requires input.id !in directives
      modifies this`directives, this`keys
      ensures keys == old(keys)[input.key := input.id]
      ensures match Creation(env, input)
        case Err(e) => error == Some(e)
        case Ok(d) => error == None && directives == old(directives)[input.id := d]
      ensures error == None <==> MayCreate(env, input)
      ensures error == None ==> directives == old(directives)[input.id := NewDirective(input)]
    {
      CreationIsExact(env, input);
      directives := directives[input.id := Directive(input.key, Proposed, input.content.temporal, input.now, map[], [],
        [], [])];
      keys := keys[input.key := input.id];
      error := InsertDirectiveRevisionRow(env, input.id, input.content, input.issuer);
      if error.Some? {
        return;
      }
      directives := directives[input.id := directives[input.id].(history := [Row(None, Proposed, None)])];
      error := InsertOptionalProvenance(env, input.id, input.source);
    }

    method IsSuppressed(key: string, now: int) returns (found: bool)
      ensures found <==> Suppressed(View(), key, now)
    {
      for i := 0 to |suppressions|
        invariant forall k :: 0 <= k < i ==> !(suppressions[k].key == key && suppressions[k].until > now)
      {
        if suppressions[i].key == key && suppressions[i].until > now {
          return true;
        }
      }
      return false;
    }

    /** The transaction: on a throw both tables are put back. */
    method CreateOrMergeDirective(env: Env, input: Detection) returns (r: Result<Option<Outcome>, Error>)
      requires Inv(State(env, View()))
      modifies this`directives, this`keys
      ensures Inv(State(env, View()))
      ensures Detected(env, old(View()), View(), input, r)
    {
      if input.key == "" || input.content.title == "" {
        return Err(InvalidInput);
      }
      if input.issuer !in env.actors || input.owner !in env.actors {
        return Err(ActorNotFound);
      }
      ghost var before := State(env, View());
      var suppressed := IsSuppressed(input.key, input.now);
      if suppressed {
        return Ok(None);
      }
      var savedDirectives, savedKeys := directives, keys;
      if input.key !in keys {
        if input.id in directives {
          return Err(DuplicateId);
        }
        var error := InsertNewDirective(env, input);
        if error.Some? {
          directives, keys := savedDirectives, savedKeys;
          return Err(error.value);
        }
        CreationIsExact(env, input);
        CreateStepKeeps(before, input);
        return Ok(Some(Created));
      }
      KeyedRowIsSound(before, input.key);
      MergeStepKeeps(before, input);
      var outcome := MergeIntoExistingDirective(env, keys[input.key], input);
      if outcome.Err? {
        directives := savedDirectives;
        return Err(outcome.error);
      }
      r := Ok(Some(outcome.value));
    }
  }
}
