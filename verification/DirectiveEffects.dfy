/**
 What the directive services need and do, field by field (src/directives/): transitions,
 revisions, provenance, and one detection from its lookup to its commit.
 */
module DirectiveEffects {
  import opened Options
  import opened Keys
  import opened Directives
  import W = WorkOrders

  // ----- Transitions

  /** The graph by where its edges lead. */
  predicate Edge(from: Status, to: Status) {
    match to
    case Proposed => false
    case Open => from in {Proposed, Deferred, Completed, Dismissed, Expired}
    case InProgress => from in {Open, Deferred}
    case Deferred => from in {Open, InProgress}
    case Completed => from in {Open, InProgress}
    case Dismissed => from in {Proposed, Open, InProgress, Deferred}
    case Expired => from in {Open, InProgress, Deferred}
    case Superseded => from in {Proposed, Open, InProgress, Deferred}
  }

  lemma EdgesByTarget(from: Status, to: Status)
    ensures to in Next(from) <==> Edge(from, to)
  {
  }

  /** Some provenance row names a WorkOrder that is COMPLETED. */
  ghost predicate HasCompletedOrder(work: W.State, d: Directive) {
    exists i :: 0 <= i < |d.provenance| && d.provenance[i].FromWorkOrder?
      && d.provenance[i].order in work.orders && work.orders[d.provenance[i].order].status == W.Completed
  }

  ghost predicate MayMove(env: Env, d: Directive, to: Status, actor: Uuid, mode: Option<Mode>) {
    && actor in env.actors && Edge(d.status, to)
    && (to == Completed ==>
      mode == Some(OperatorAsserted) || (mode == Some(SystemValidated) && HasCompletedOrder(env.work, d)))
  }

  /** State, last-seen time, the state's own time and one row; nothing else. */
  function MovedTo(d: Directive, to: Status, mode: Option<Mode>, now: int): Directive {
    Directive(d.key, to, d.temporal, now,
      if to in {Proposed, Expired, Superseded} then d.stamps else d.stamps[to := now],
      d.history + [Row(Some(d.status), to, if to == Completed then mode else None)], d.revisions, d.provenance)
  }

  lemma SubstantiatedIff(work: W.State, d: Directive)
    ensures Substantiated(work, d) <==> HasCompletedOrder(work, d)
  {
    forall i | 0 <= i < |d.provenance|
      ensures CompletedSource(work, d.provenance[i]) <==>
        (d.provenance[i].FromWorkOrder? && d.provenance[i].order in work.orders
        && work.orders[d.provenance[i].order].status == W.Completed)
    {
    }
  }

  function MoveError(env: Env, d: Directive, to: Status, actor: Uuid, mode: Option<Mode>): Error {
    if actor !in env.actors then ReferenceNotFound
    else if d.status == Superseded then TerminalState
    else if !Edge(d.status, to) then InvalidTransition
    else if mode == None then InvalidInput
    else Unsubstantiated
  }

  /** Exactly when a transition goes through, what it writes, and how it fails otherwise. */
  lemma TransitionIff(env: Env, d: Directive, to: Status, actor: Uuid, mode: Option<Mode>, now: int)
    ensures Transition(env, d, to, actor, mode, now) ==
      if MayMove(env, d, to, actor, mode) then Ok(MovedTo(d, to, mode, now))
      else Err(MoveError(env, d, to, actor, mode))
  {
    EdgesByTarget(d.status, to);
    SubstantiatedIff(env.work, d);
    assert mode == None || mode == Some(OperatorAsserted) || mode == Some(SystemValidated) by {
      if mode.Some? {
        assert mode.value.OperatorAsserted? || mode.value.SystemValidated?;
      }
    }
  }

  // ----- Revisions and provenance

  predicate MayRevise(env: Env, content: Content, author: Uuid) {
    && content.title != "" && author in env.actors
    && (content.proposedOwner.Some? ==> content.proposedOwner.value in env.actors)
  }

  /** The next number, and the temporal fields mirrored on the directive. */
  lemma RevisionIff(env: Env, d: Directive, content: Content, author: Uuid)
    requires forall i :: 0 <= i < |d.revisions| ==> d.revisions[i].number == i + 1
    ensures AddRevision(env, d, content, author) ==
      if MayRevise(env, content, author) then
        Ok(d.(revisions := d.revisions + [Revision(|d.revisions| + 1, content)], temporal := content.temporal))
      else Err(if content.title == "" then InvalidInput else ReferenceNotFound)
  {
    MaxIsLast(d.revisions);
  }

  predicate MayRefer(env: Env, source: Source) {
    match source
    case External(provider, identifier) => provider != "" && identifier != ""
    case FromWorkOrder(o) => o in env.work.orders
    case FromOther(r) => r in env.others
  }

  lemma ProvenanceIff(env: Env, d: Directive, source: Source)
    ensures AddProvenance(env, d, source) ==
      if MayRefer(env, source) then Ok(d.(provenance := d.provenance + [source]))
      else Err(if source.External? then InvalidInput else ReferenceNotFound)
  {
  }

  // ----- A merge

  function Latest(d: Directive): Content
    requires d.revisions != []
  {
    d.revisions[|d.revisions| - 1].content
  }

  predicate Closed(s: Status) {
    s == Completed || s == Dismissed || s == Expired
  }

  /** The evidence must exist; new content must be valid; reopening needs a known issuer. */
  predicate MayMerge(env: Env, d: Directive, input: Detection)
    requires d.revisions != []
  {
    && (input.source.Some? ==> MayRefer(env, input.source.value))
    && (d.status == Superseded
      || ((Latest(d) != input.content ==> MayRevise(env, input.content, input.issuer))
        && (Closed(d.status) ==> input.issuer in env.actors)))
  }

  function Cited(source: Option<Source>): seq<Source> {
    if source.Some? then [source.value] else []
  }

  /**
   What a detection makes of a directive. It is always seen and its evidence kept. Unless it is
   superseded, its latest revision then has the detected content, added only if it was different;
   a closed directive is open again and a live one stays where it was.
   */
  ghost predicate MergedAs(d: Directive, d': Directive, input: Detection, outcome: Outcome)
    requires d.revisions != []
  {
    && d'.key == d.key && d'.lastSeen == input.now && d'.provenance == d.provenance + Cited(input.source)
    && if d.status == Superseded then
        && d'.status == Superseded && d'.temporal == d.temporal && d'.stamps == d.stamps && d'.history == d.history
        && d'.revisions == d.revisions && outcome == Carried
      else
        && d'.revisions == d.revisions
          + (if Latest(d) == input.content then [] else [Revision(|d.revisions| + 1, input.content)])
        && Latest(d') == input.content && d'.temporal == input.content.temporal
        && d'.status == (if Closed(d.status) then Open else d.status)
        && d'.stamps == (if Closed(d.status) then d.stamps[Open := input.now] else d.stamps)
        && d'.history == d.history + (if Closed(d.status) then [Row(Some(d.status), Open, None)] else [])
        && outcome == (if Closed(d.status) then Reopened else if Latest(d) == input.content then Carried else Revised)
  }

  lemma RefreshIsExact(env: Env, d: Directive, seen: Directive, input: Detection)
    requires RevisionsOk(d) && d.status != Superseded
    requires seen == d.(lastSeen := input.now, provenance := d.provenance + Cited(input.source))
    ensures var r := Refresh(env, seen, input);
      && (r.Ok? <==>
        && (Latest(d) != input.content ==> MayRevise(env, input.content, input.issuer))
        && (Closed(d.status) ==> input.issuer in env.actors))
      && (r.Ok? ==> MergedAs(d, r.value.0, input, r.value.1))
  {
    RevisionIff(env, seen, input.content, input.issuer);
    TransitionIff(env, seen, Open, input.issuer, None, input.now);
    if MayRevise(env, input.content, input.issuer) {
      var revised := AddRevision(env, seen, input.content, input.issuer).value;
      TransitionIff(env, revised, Open, input.issuer, None, input.now);
    }
  }

  /** Exactly when a merge goes through, and everything it writes and says. */
  lemma MergeIsExact(env: Env, d: Directive, input: Detection)
    requires RevisionsOk(d)
    ensures Merge(env, d, input).Ok? <==> MayMerge(env, d, input)
    ensures MayMerge(env, d, input) ==> MergedAs(d, Merge(env, d, input).value.0, input, Merge(env, d, input).value.1)
  {
    var touched := d.(lastSeen := input.now);
    if input.source.Some? {
      ProvenanceIff(env, touched, input.source.value);
    }
    if (input.source.Some? ==> MayRefer(env, input.source.value)) && d.status != Superseded {
      RefreshIsExact(env, d, touched.(provenance := d.provenance + Cited(input.source)), input);
    }
  }

  ghost predicate MergedOrRefused(env: Env, d: Directive, input: Detection, r: Result<(Directive, Outcome), Error>)
    requires d.revisions != []
  {
    && (r.Ok? <==> MayMerge(env, d, input))
    && (r.Ok? ==> MergedAs(d, r.value.0, input, r.value.1))
  }

  lemma MergeWhenSound(env: Env, d: Directive, input: Detection)
    ensures RevisionsOk(d) ==> MergedOrRefused(env, d, input, Merge(env, d, input))
  {
    if RevisionsOk(d) {
      MergeIsExact(env, d, input);
    }
  }

  // ----- A first detection

  predicate MayCreate(env: Env, input: Detection) {
    MayRevise(env, input.content, input.issuer) && (input.source.Some? ==> MayRefer(env, input.source.value))
  }

  function NewDirective(input: Detection): Directive {
    Directive(input.key, Proposed, input.content.temporal, input.now, map[], [Row(None, Proposed, None)],
      [Revision(1, input.content)], Cited(input.source))
  }

  lemma CreationIsExact(env: Env, input: Detection)
    ensures Creation(env, input).Ok? <==> MayCreate(env, input)
    ensures MayCreate(env, input) ==> Creation(env, input) == Ok(NewDirective(input))
  {
    var row := Directive(input.key, Proposed, input.content.temporal, input.now, map[], [], [], []);
    RevisionIff(env, row, input.content, input.issuer);
    assert row.revisions + [Revision(1, input.content)] == [Revision(1, input.content)];
    if MayRevise(env, input.content, input.issuer) && input.source.Some? {
      assert row.provenance + [input.source.value] == Cited(input.source);
      var revised := AddRevision(env, row, input.content, input.issuer).value;
      ProvenanceIff(env, revised.(history := [Row(None, Proposed, None)]), input.source.value);
    }
  }

  // ----- A whole detection

  ghost predicate RunningSuppression(l: Ledger, key: string, now: int) {
    exists i :: 0 <= i < |l.suppressions| && l.suppressions[i].key == key && now < l.suppressions[i].until
  }

  /** The only directive that changes, or the only one that is new, is the one of the key. */
  ghost predicate Detected(env: Env, l: Ledger, l': Ledger, input: Detection, r: Result<Option<Outcome>, Error>)
  {
    && l'.suppressions == l.suppressions && l'.pending == l.pending
    && if input.key == "" || input.content.title == "" then
        r == Err(InvalidInput) && l' == l
      else if input.issuer !in env.actors || input.owner !in env.actors then
        r == Err(ActorNotFound) && l' == l
      else if RunningSuppression(l, input.key, input.now) then
        r == Ok(None) && l' == l
      else if input.key in l.keys then
        && l.keys[input.key] in l.directives && l.directives[l.keys[input.key]].revisions != []
        && MergedInto(env, l, l', input, r)
      else if input.id in l.directives then
        r == Err(DuplicateId) && l' == l
      else if MayCreate(env, input) then
        && r == Ok(Some(Created)) && l'.keys == l.keys[input.key := input.id]
        && l'.directives == l.directives[input.id := NewDirective(input)]
      else
        r.Err? && l' == l
  }

  ghost predicate MergedInto(env: Env, l: Ledger, l': Ledger, input: Detection, r: Result<Option<Outcome>, Error>)
    requires input.key in l.keys && l.keys[input.key] in l.directives
    requires l.directives[l.keys[input.key]].revisions != []
  {
    var id := l.keys[input.key];
    var d := l.directives[id];
    if MayMerge(env, d, input) then
      && r.Ok? && r.value.Some? && l'.keys == l.keys && id in l'.directives
      && l'.directives == l.directives[id := l'.directives[id]]
      && MergedAs(d, l'.directives[id], input, r.value.value)
    else r.Err? && l' == l
  }

  /** In a sound ledger the row of a key is there, with its revisions. */
  lemma KeyedRowIsSound(s: State, key: string)
    requires Inv(s) && key in s.ledger.keys
    ensures s.ledger.keys[key] in s.ledger.directives
    ensures RevisionsOk(s.ledger.directives[s.ledger.keys[key]])
  {
    assert RowOk(s, s.ledger.keys[key]);
  }

  lemma MergeStepMerges(s: State, input: Detection) returns (r: Result<Option<Outcome>, Error>)
    requires Inv(s) && input.key in s.ledger.keys
    ensures s.ledger.keys[input.key] in s.ledger.directives
    ensures s.ledger.directives[s.ledger.keys[input.key]].revisions != []
    ensures MergedInto(s.env, s.ledger, MergeStep(s.env, s.ledger, input), input, r)
    ensures MergeStep(s.env, s.ledger, input).suppressions == s.ledger.suppressions
    ensures MergeStep(s.env, s.ledger, input).pending == s.ledger.pending
  {
    KeyedRowIsSound(s, input.key);
    var d := s.ledger.directives[s.ledger.keys[input.key]];
    MergeIsExact(s.env, d, input);
    r := match Merge(s.env, d, input) case Ok((_, outcome)) => Ok(Some(outcome)) case Err(e) => Err(e);
  }

  lemma RefusedDetection(s: State, c: nat, input: Detection) returns (r: Result<Option<Outcome>, Error>)
    requires c !in s.ledger.pending
    requires !Acceptable(s.env, input) || Suppressed(s.ledger, input.key, input.now)
    ensures Step(Step(s, LookupOp(c, input)), InsertOp(c)) == s
    ensures Detected(s.env, s.ledger, s.ledger, input, r)
  {
    r := if input.key == "" || input.content.title == "" then Err(InvalidInput)
      else if input.issuer !in s.env.actors || input.owner !in s.env.actors then Err(ActorNotFound)
      else Ok(None);
  }

  lemma FirstDetection(s: State, c: nat, input: Detection) returns (r: Result<Option<Outcome>, Error>)
    requires Inv(s) && c !in s.ledger.pending && input.key !in s.ledger.keys
    requires Acceptable(s.env, input) && !Suppressed(s.ledger, input.key, input.now)
    ensures Step(Step(s, LookupOp(c, input)), InsertOp(c)).env == s.env
    ensures Detected(s.env, s.ledger, Step(Step(s, LookupOp(c, input)), InsertOp(c)).ledger, input, r)
  {
    CreationIsExact(s.env, input);
    assert s.ledger.pending[c := input] - {c} == s.ledger.pending;
    assert Step(Step(s, LookupOp(c, input)), InsertOp(c)) == s.(ledger := CreateStep(s.env, s.ledger, input));
    r := if input.id in s.ledger.directives then Err(DuplicateId)
      else match Creation(s.env, input) case Ok(_) => Ok(Some(Created)) case Err(e) => Err(e);
  }

  /** A detection whose lookup and INSERT nothing comes between. */
  lemma UndisturbedDetection(s: State, c: nat, input: Detection) returns (r: Result<Option<Outcome>, Error>)
    requires Inv(s) && c !in s.ledger.pending
    ensures Step(Step(s, LookupOp(c, input)), InsertOp(c)).env == s.env
    ensures Detected(s.env, s.ledger, Step(Step(s, LookupOp(c, input)), InsertOp(c)).ledger, input, r)
  {
    if !Acceptable(s.env, input) || Suppressed(s.ledger, input.key, input.now) {
      r := RefusedDetection(s, c, input);
    } else if input.key in s.ledger.keys {
      r := MergeStepMerges(s, input);
      assert Step(Step(s, LookupOp(c, input)), InsertOp(c)) == s.(ledger := MergeStep(s.env, s.ledger, input));
    } else {
      r := FirstDetection(s, c, input);
    }
  }

  /** A lookup that finds the row merges at once, under its lock. */
  lemma FoundRowMerges(s: State, c: nat, input: Detection) returns (r: Result<Option<Outcome>, Error>)
    requires Inv(s) && input.key in s.ledger.keys
    requires Acceptable(s.env, input) && !Suppressed(s.ledger, input.key, input.now)
    ensures Step(s, LookupOp(c, input)).env == s.env
    ensures Detected(s.env, s.ledger, Step(s, LookupOp(c, input)).ledger, input, r)
  {
    r := MergeStepMerges(s, input);
  }

  /** A detection that lost the race: by the time of its INSERT the key is taken, and it merges. */
  lemma LostRaceMerges(s: State, c: nat) returns (r: Result<Option<Outcome>, Error>)
    requires Inv(s) && c in s.ledger.pending && s.ledger.pending[c].key in s.ledger.keys
    ensures var input := s.ledger.pending[c];
      && s.ledger.keys[input.key] in s.ledger.directives
      && s.ledger.directives[s.ledger.keys[input.key]].revisions != []
      && MergedInto(s.env, s.ledger.(pending := s.ledger.pending - {c}), Step(s, InsertOp(c)).ledger, input, r)
  {
    PendingIrrelevant(s, s.ledger.pending - {c});
    r := MergeStepMerges(s.(ledger := s.ledger.(pending := s.ledger.pending - {c})), s.ledger.pending[c]);
  }

  /** A suppression stops every detection of its key until it runs out, whether there is a directive or not. */
  lemma SuppressionStopsDetection(s: State, key: string, until: int, c: nat, input: Detection)
    requires input.key == key && input.now < until
    ensures var s' := Step(s, SuppressOp(key, until)); Step(s', LookupOp(c, input)) == s'
  {
    var suppressions := Step(s, SuppressOp(key, until)).ledger.suppressions;
    assert suppressions[|suppressions| - 1] == Suppression(key, until);
  }

  // ----- Operators

  /** An operator's step changes the named directive, if it is there and the service accepts, and nothing else. */
  lemma OperatorStepIsExact(s: State, op: Op)
    requires Inv(s) && (op.TransitionOp? || op.ReviseOp? || op.ProvenanceOp?)
    ensures var (l, l') := (s.ledger, Step(s, op).ledger);
      && Step(s, op).env == s.env
      && (op.id !in l.directives ==> l' == l)
      && (op.id in l.directives ==>
        var d := l.directives[op.id];
        l' == match op
          case TransitionOp(id, to, actor, mode, now) =>
            if MayMove(s.env, d, to, actor, mode) then l.(directives := l.directives[id := MovedTo(d, to, mode, now)])
            else l
          case ReviseOp(id, content, author) =>
            if MayRevise(s.env, content, author) then
              l.(directives := l.directives[id := d.(temporal := content.temporal,
                revisions := d.revisions + [Revision(|d.revisions| + 1, content)])])
            else l
          case ProvenanceOp(id, source) =>
            if MayRefer(s.env, source) then
              l.(directives := l.directives[id := d.(provenance := d.provenance + [source])])
            else l)
  {
    if op.id in s.ledger.directives {
      assert RowOk(s, op.id);
      var d := s.ledger.directives[op.id];
      match op
      case TransitionOp(id, to, actor, mode, now) => TransitionIff(s.env, d, to, actor, mode, now);
      case ReviseOp(id, content, author) => RevisionIff(s.env, d, content, author);
      case ProvenanceOp(id, source) => ProvenanceIff(s.env, d, source);
    }
  }

  /** Suppressions, actors and references are added, WorkOrders move by their own steps, a detection may crash. */
  lemma OutsideStepIsExact(s: State, op: Op)
    requires op.SuppressOp? || op.WorkOp? || op.NewActorOp? || op.NewReferenceOp? || op.CrashOp?
    ensures var (env, l) := (s.env, s.ledger);
      Step(s, op) == match op
      case SuppressOp(key, until) => State(env, Ledger(l.directives, l.keys, l.suppressions + [Suppression(key, until)],
        l.pending))
      case WorkOp(work) => State(Env(env.actors, env.others, W.Step(env.work, work)), l)
      case NewActorOp(actor) => State(Env(env.actors + {actor}, env.others, env.work), l)
      case NewReferenceOp(reference) => State(Env(env.actors, env.others + {reference}, env.work), l)
      case CrashOp(c) => State(env, Ledger(l.directives, l.keys, l.suppressions, l.pending - {c}))
  {
  }
}
