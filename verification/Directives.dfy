/**
 The operator directive ledger (src/directives/): detections that create or merge, revisions,
 transitions and provenance, beside the WorkOrder machine whose rows provenance points to.

 Rows of one directive are kept with it, oldest first. The content hash is the canonical tuple
 it is computed from. A detection is two steps when it finds no row: the lookup, and the
 INSERT .. ON CONFLICT DO NOTHING, which may lose to another detection and then merges. A
 transaction that throws leaves everything unchanged.
 */
module Directives {
  import opened Options
  import opened Keys
  import W = WorkOrders

  // ----- The transition graph

  datatype Status = Proposed | Open | InProgress | Deferred | Completed | Dismissed | Expired | Superseded

  function Next(from: Status): set<Status> {
    match from
    case Proposed => {Open, Dismissed, Superseded}
    case Open => {InProgress, Deferred, Completed, Dismissed, Expired, Superseded}
    case InProgress => {Deferred, Completed, Dismissed, Expired, Superseded}
    case Deferred => {Open, InProgress, Dismissed, Expired, Superseded}
    case Completed => {Open}
    case Dismissed => {Open}
    case Expired => {Open}
    case Superseded => {}
  }

  predicate Reopenable(s: Status) { s in {Completed, Dismissed, Expired} }

  /** Closed states lead back to OPEN only, superseded ones nowhere, live ones always to SUPERSEDED. */
  lemma GraphShape(s: Status)
    ensures Reopenable(s) <==> Next(s) == {Open}
    ensures s == Superseded <==> Next(s) == {}
    ensures !Reopenable(s) && s != Superseded <==> Superseded in Next(s)
    ensures s !in Next(s)
  {
    assert Superseded in Next(Proposed) && Superseded in Next(Open) && Superseded in Next(InProgress);
    assert Superseded in Next(Deferred);
  }

  predicate Stamped(s: Status) { s in {Open, InProgress, Completed, Deferred, Dismissed} }

  // ----- Rows

  datatype Temporal = Temporal(dueAt: Option<int>, windowStartAt: Option<int>, windowEndAt: Option<int>,
    expiresAt: Option<int>)
  datatype Content = Content(title: string, body: Option<string>, whyNow: Option<string>, priority: Option<string>,
    proposedOwner: Option<Uuid>, temporal: Temporal)
  datatype Revision = Revision(number: nat, content: Content)
  datatype Mode = OperatorAsserted | SystemValidated
  datatype Row = Row(from: Option<Status>, to: Status, mode: Option<Mode>)
  datatype Source =
    | FromWorkOrder(order: Uuid)
    | FromOther(reference: Uuid)
    | External(provider: string, identifier: string)

  datatype Directive = Directive(
    key: string,
    status: Status,
    temporal: Temporal,
    lastSeen: int,
    stamps: map<Status, int>,
    history: seq<Row>,
    revisions: seq<Revision>,
    provenance: seq<Source>)

  /** The tables the ledger refers to. */
  datatype Env = Env(actors: set<Uuid>, others: set<Uuid>, work: W.State)

  datatype Error =
    | InvalidInput | ActorNotFound | ReferenceNotFound | DirectiveNotFound
    | TerminalState | InvalidTransition | Unsubstantiated | DuplicateId

  // ----- addDirectiveProvenance

  function SourceError(env: Env, source: Source): Option<Error> {
    match source
    case External(provider, identifier) => if provider == "" || identifier == "" then Some(InvalidInput) else None
    case FromWorkOrder(o) => if o in env.work.orders then None else Some(ReferenceNotFound)
    case FromOther(r) => if r in env.others then None else Some(ReferenceNotFound)
  }

  function AddProvenance(env: Env, d: Directive, source: Source): Result<Directive, Error> {
    match SourceError(env, source)
    case Some(e) => Err(e)
    case None => Ok(d.(provenance := d.provenance + [source]))
  }

  function AddOptionalProvenance(env: Env, d: Directive, source: Option<Source>): Result<Directive, Error> {
    if source.Some? then AddProvenance(env, d, source.value) else Ok(d)
  }

  // ----- appendDirectiveRevision

  /** COALESCE(MAX(revision_number), 0) */
  function MaxNumber(revisions: seq<Revision>): (m: nat)
    ensures forall i :: 0 <= i < |revisions| ==> revisions[i].number <= m
    ensures m > 0 ==> exists i :: 0 <= i < |revisions| && revisions[i].number == m
  {
    if revisions == [] then 0
    else
      var m := MaxNumber(revisions[..|revisions| - 1]);
      var last := revisions[|revisions| - 1].number;
      if last > m then last else m
  }

  function AddRevision(env: Env, d: Directive, content: Content, author: Uuid): Result<Directive, Error> {
    if content.title == "" then Err(InvalidInput)
    else if author !in env.actors then Err(ReferenceNotFound)
    else if content.proposedOwner.Some? && content.proposedOwner.value !in env.actors then Err(ReferenceNotFound)
    else Ok(d.(revisions := d.revisions + [Revision(MaxNumber(d.revisions) + 1, content)],
      temporal := content.temporal))
  }

  // ----- transitionDirective

  /** Some provenance row names a WorkOrder that is COMPLETED now. */
  predicate Substantiated(work: W.State, d: Directive) {
    exists i :: 0 <= i < |d.provenance| && CompletedSource(work, d.provenance[i])
  }

  predicate CompletedSource(work: W.State, source: Source) {
    source.FromWorkOrder? && source.order in work.orders && work.orders[source.order].status == W.Completed
  }

  function Move(d: Directive, to: Status, mode: Option<Mode>, now: int): Directive {
    d.(status := to, lastSeen := now,
       stamps := if Stamped(to) then d.stamps[to := now] else d.stamps,
       history := d.history + [Row(Some(d.status), to, if to == Completed then mode else None)])
  }

  function Transition(env: Env, d: Directive, to: Status, actor: Uuid, mode: Option<Mode>, now: int)
      : Result<Directive, Error> {
    if actor !in env.actors then Err(ReferenceNotFound)
    else if d.status == Superseded then Err(TerminalState)
    else if to !in Next(d.status) then Err(InvalidTransition)
    else if to == Completed && mode == None then Err(InvalidInput)
    else if to == Completed && mode == Some(SystemValidated) && !Substantiated(env.work, d) then Err(Unsubstantiated)
    else Ok(Move(d, to, mode, now))
  }

  // ----- createOrMergeDirective

  datatype Detection = Detection(key: string, id: Uuid, issuer: Uuid, owner: Uuid, content: Content,
    source: Option<Source>, now: int)
  datatype Outcome = Created | Revised | Carried | Reopened

  predicate SameAsLatest(d: Directive, content: Content) {
    d.revisions != [] && d.revisions[|d.revisions| - 1].content == content
  }

  /** A revision if the content is new, then the way back to OPEN for a closed directive. */
  function Refresh(env: Env, d: Directive, input: Detection): Result<(Directive, Outcome), Error> {
    match if SameAsLatest(d, input.content) then Ok(d) else AddRevision(env, d, input.content, input.issuer)
    case Err(e) => Err(e)
    case Ok(revised) =>
      if Reopenable(d.status) then
        match Transition(env, revised, Open, input.issuer, None, input.now)
        case Err(e) => Err(e)
        case Ok(again) => Ok((again, Reopened))
      else Ok((revised, if SameAsLatest(d, input.content) then Carried else Revised))
  }

  /** mergeIntoExistingDirective */
  function Merge(env: Env, d: Directive, input: Detection): Result<(Directive, Outcome), Error> {
    match AddOptionalProvenance(env, d.(lastSeen := input.now), input.source)
    case Err(e) => Err(e)
    case Ok(seen) => if d.status == Superseded then Ok((seen, Carried)) else Refresh(env, seen, input)
  }

  /** The rows of a first detection. */
  function Creation(env: Env, input: Detection): Result<Directive, Error> {
    var row := Directive(input.key, Proposed, input.content.temporal, input.now, map[], [], [], []);
    match AddRevision(env, row, input.content, input.issuer)
    case Err(e) => Err(e)
    case Ok(revised) => AddOptionalProvenance(env, revised.(history := [Row(None, Proposed, None)]), input.source)
  }

  // ----- The ledger and its steps

  datatype Suppression = Suppression(key: string, until: int)

  datatype Ledger = Ledger(directives: map<Uuid, Directive>, keys: map<string, Uuid>, suppressions: seq<Suppression>,
    pending: map<nat, Detection>)

  datatype State = State(env: Env, ledger: Ledger)

  predicate Suppressed(l: Ledger, key: string, now: int) {
    exists i :: 0 <= i < |l.suppressions| && l.suppressions[i].key == key && l.suppressions[i].until > now
  }

  function Put(l: Ledger, id: Uuid, d: Directive): Ledger {
    l.(directives := l.directives[id := d])
  }

  /** A detection that finds a row holds its lock from then on and merges in the same step. */
  function MergeStep(env: Env, l: Ledger, input: Detection): Ledger
    requires input.key in l.keys
  {
    if l.keys[input.key] !in l.directives then l
    else match Merge(env, l.directives[l.keys[input.key]], input)
      case Err(_) => l
      case Ok((d, _)) => Put(l, l.keys[input.key], d)
  }

  function CreateStep(env: Env, l: Ledger, input: Detection): Ledger {
    if input.id in l.directives then l
    else match Creation(env, input)
      case Err(_) => l
      case Ok(d) => Put(l, input.id, d).(keys := l.keys[input.key := input.id])
  }

  predicate Acceptable(env: Env, input: Detection) {
    input.key != "" && input.content.title != "" && input.issuer in env.actors && input.owner in env.actors
  }

  /** Client c looks the key up: refused, suppressed, merged, or on its way to the INSERT. */
  function Lookup(env: Env, l: Ledger, c: nat, input: Detection): Ledger {
    if !Acceptable(env, input) || Suppressed(l, input.key, input.now) then l
    else if input.key in l.keys then MergeStep(env, l, input)
    else l.(pending := l.pending[c := input])
  }

  /** Client c's INSERT wins, or finds the key taken and merges. */
  function Insert(env: Env, l: Ledger, c: nat): Ledger {
    if c !in l.pending then l
    else
      var input, l' := l.pending[c], l.(pending := l.pending - {c});
      if input.key in l.keys then MergeStep(env, l', input) else CreateStep(env, l', input)
  }

  function OnDirective(l: Ledger, id: Uuid, r: Result<Directive, Error>): Ledger {
    if id in l.directives && r.Ok? then Put(l, id, r.value) else l
  }

  datatype Op =
    | LookupOp(c: nat, input: Detection)
    | InsertOp(c: nat)
    | CrashOp(c: nat)
    | ReviseOp(id: Uuid, content: Content, author: Uuid)
    | TransitionOp(id: Uuid, to: Status, actor: Uuid, mode: Option<Mode>, now: int)
    | ProvenanceOp(id: Uuid, source: Source)
    | SuppressOp(key: string, until: int)
    | WorkOp(op: W.Op)
    | NewActorOp(actor: Uuid)
    | NewReferenceOp(reference: Uuid)

  function Step(s: State, op: Op): State {
    var State(env, l) := s;
    match op
    case LookupOp(c, input) => s.(ledger := Lookup(env, l, c, input))
    case InsertOp(c) => s.(ledger := Insert(env, l, c))
    case CrashOp(c) => s.(ledger := l.(pending := l.pending - {c}))
    case ReviseOp(id, content, author) =>
      if id in l.directives then s.(ledger := OnDirective(l, id, AddRevision(env, l.directives[id], content, author)))
        else s
    case TransitionOp(id, to, actor, mode, now) =>
      if id in l.directives then s.(ledger :=
        OnDirective(l, id, Transition(env, l.directives[id], to, actor, mode, now))) else s
    case ProvenanceOp(id, source) =>
      if id in l.directives then s.(ledger := OnDirective(l, id, AddProvenance(env, l.directives[id], source))) else s
    case SuppressOp(key, until) => s.(ledger := l.(suppressions := l.suppressions + [Suppression(key, until)]))
    case WorkOp(op) => s.(env := env.(work := W.Step(env.work, op)))
    case NewActorOp(actor) => s.(env := env.(actors := env.actors + {actor}))
    case NewReferenceOp(reference) => s.(env := env.(others := env.others + {reference}))
  }

  function Initial(tenant: Uuid): State {
    State(Env({}, {}, W.After(tenant, [])), Ledger(map[], map[], [], map[]))
  }

  // ----- The invariant

  /** One creation row, then a path of the graph that ends in the current state. */
  ghost predicate HistoryOk(d: Directive) {
    && |d.history| >= 1 && d.history[0] == Row(None, Proposed, None)
    && d.history[|d.history| - 1].to == d.status
    && forall i :: 1 <= i < |d.history| ==>
      d.history[i].from == Some(d.history[i - 1].to) && d.history[i].to in Next(d.history[i - 1].to)
  }

  /** Revisions are numbered 1..n and the parent mirrors the latest one. */
  ghost predicate RevisionsOk(d: Directive) {
    && |d.revisions| >= 1
    && (forall i :: 0 <= i < |d.revisions| ==> d.revisions[i].number == i + 1)
    && d.temporal == d.revisions[|d.revisions| - 1].content.temporal
  }

  /** A completion on record as system-validated has a completed WorkOrder among its evidence. */
  ghost predicate EvidenceOk(work: W.State, d: Directive) {
    forall i :: 0 <= i < |d.history| && d.history[i].mode == Some(SystemValidated) ==>
      d.history[i].to == Completed && Substantiated(work, d)
  }

  /** Completions, and only they, say how they were established. */
  ghost predicate ModesOk(d: Directive) {
    forall i :: 0 <= i < |d.history| ==> (d.history[i].mode.Some? <==> d.history[i].to == Completed)
  }

  /** Provenance never points to a WorkOrder that does not exist. */
  ghost predicate ReferencesOk(work: W.State, d: Directive) {
    forall i :: 0 <= i < |d.provenance| && d.provenance[i].FromWorkOrder? ==> d.provenance[i].order in work.orders
  }

  ghost predicate DirectiveOk(work: W.State, d: Directive) {
    HistoryOk(d) && RevisionsOk(d) && EvidenceOk(work, d) && ModesOk(d) && ReferencesOk(work, d)
  }

  ghost predicate RowOk(s: State, id: Uuid)
    requires id in s.ledger.directives
  {
    var d := s.ledger.directives[id];
    DirectiveOk(s.env.work, d) && d.key in s.ledger.keys && s.ledger.keys[d.key] == id
  }

  ghost predicate Inv(s: State) {
    && W.Inv(s.env.work)
    && (forall key :: key in s.ledger.keys ==>
      s.ledger.keys[key] in s.ledger.directives && s.ledger.directives[s.ledger.keys[key]].key == key)
    && (forall id {:trigger RowOk(s, id)} :: id in s.ledger.directives ==> RowOk(s, id))
  }

  lemma {:induction false} MaxIsLast(revisions: seq<Revision>)
    requires forall i :: 0 <= i < |revisions| ==> revisions[i].number == i + 1
    ensures MaxNumber(revisions) == |revisions|
  {
    if revisions != [] {
      MaxIsLast(revisions[..|revisions| - 1]);
    }
  }

  lemma EvidenceGrows(work: W.State, d: Directive, d': Directive)
    requires Substantiated(work, d) && d.provenance <= d'.provenance
    ensures Substantiated(work, d')
  {
    var i :| 0 <= i < |d.provenance| && CompletedSource(work, d.provenance[i]);
    assert d'.provenance[i] == d.provenance[i];
  }

  lemma AddRevisionOk(env: Env, d: Directive, content: Content, author: Uuid)
    requires DirectiveOk(env.work, d)
    ensures var r := AddRevision(env, d, content, author); r.Ok? ==> DirectiveOk(env.work, r.value)
  {
    MaxIsLast(d.revisions);
    if AddRevision(env, d, content, author).Ok? && Substantiated(env.work, d) {
      EvidenceGrows(env.work, d, AddRevision(env, d, content, author).value);
    }
  }

  lemma AddProvenanceOk(env: Env, d: Directive, source: Source)
    requires DirectiveOk(env.work, d)
    ensures var r := AddProvenance(env, d, source); r.Ok? ==> DirectiveOk(env.work, r.value)
  {
    if AddProvenance(env, d, source).Ok? && Substantiated(env.work, d) {
      EvidenceGrows(env.work, d, AddProvenance(env, d, source).value);
    }
  }

  lemma SeenOk(work: W.State, d: Directive, now: int)
    requires DirectiveOk(work, d)
    ensures DirectiveOk(work, d.(lastSeen := now))
  {
    if Substantiated(work, d) {
      EvidenceGrows(work, d, d.(lastSeen := now));
    }
  }

  lemma MoveOk(work: W.State, d: Directive, to: Status, mode: Option<Mode>, now: int)
    requires DirectiveOk(work, d) && to in Next(d.status)
    requires to == Completed ==> mode.Some? && (mode == Some(SystemValidated) ==> Substantiated(work, d))
    ensures DirectiveOk(work, Move(d, to, mode, now))
  {
    var d' := Move(d, to, mode, now);
    assert forall i :: 0 <= i < |d.history| ==> d'.history[i] == d.history[i];
    if Substantiated(work, d) {
      EvidenceGrows(work, d, d');
    }
  }

  lemma TransitionOk(env: Env, d: Directive, to: Status, actor: Uuid, mode: Option<Mode>, now: int)
    requires DirectiveOk(env.work, d)
    ensures var r := Transition(env, d, to, actor, mode, now); r.Ok? ==> DirectiveOk(env.work, r.value)
  {
    if Transition(env, d, to, actor, mode, now).Ok? {
      MoveOk(env.work, d, to, mode, now);
    }
  }

  lemma RefreshOk(env: Env, d: Directive, input: Detection)
    requires DirectiveOk(env.work, d)
    ensures var r := Refresh(env, d, input); r.Ok? ==> DirectiveOk(env.work, r.value.0) && r.value.0.key == d.key
  {
    AddRevisionOk(env, d, input.content, input.issuer);
    var revised := if SameAsLatest(d, input.content) then Ok(d) else AddRevision(env, d, input.content, input.issuer);
    if revised.Ok? && Reopenable(d.status) {
      TransitionOk(env, revised.value, Open, input.issuer, None, input.now);
    }
  }

  lemma MergeOk(env: Env, d: Directive, input: Detection)
    requires DirectiveOk(env.work, d)
    ensures var r := Merge(env, d, input); r.Ok? ==> DirectiveOk(env.work, r.value.0) && r.value.0.key == d.key
  {
    var seen := d.(lastSeen := input.now);
    SeenOk(env.work, d, input.now);
    if input.source.Some? {
      AddProvenanceOk(env, seen, input.source.value);
    }
    var r := AddOptionalProvenance(env, seen, input.source);
    if r.Ok? {
      RefreshOk(env, r.value, input);
    }
  }

  lemma CreationOk(env: Env, input: Detection)
    ensures var r := Creation(env, input); r.Ok? ==> DirectiveOk(env.work, r.value) && r.value.key == input.key
  {
    var row := Directive(input.key, Proposed, input.content.temporal, input.now, map[], [], [], []);
    var revised := AddRevision(env, row, input.content, input.issuer);
    if revised.Ok? {
      var d := revised.value.(history := [Row(None, Proposed, None)]);
      assert DirectiveOk(env.work, d);
      if input.source.Some? {
        AddProvenanceOk(env, d, input.source.value);
      }
    }
  }

  // ----- Every step keeps it

  lemma PutKeeps(s: State, id: Uuid, d: Directive)
    requires Inv(s) && id in s.ledger.directives && DirectiveOk(s.env.work, d) && d.key == s.ledger.directives[id].key
    ensures Inv(s.(ledger := Put(s.ledger, id, d)))
  {
    var s' := s.(ledger := Put(s.ledger, id, d));
    forall q {:trigger RowOk(s', q)} | q in s'.ledger.directives
      ensures RowOk(s', q)
    {
      assert RowOk(s, q);
    }
  }

  lemma MergeStepKeeps(s: State, input: Detection)
    requires Inv(s) && input.key in s.ledger.keys
    ensures Inv(s.(ledger := MergeStep(s.env, s.ledger, input)))
  {
    var id := s.ledger.keys[input.key];
    assert RowOk(s, id);
    var d := s.ledger.directives[id];
    MergeOk(s.env, d, input);
    var r := Merge(s.env, d, input);
    if r.Ok? {
      PutKeeps(s, id, r.value.0);
    } else {
      assert s.(ledger := s.ledger) == s;
    }
  }

  lemma CreateStepKeeps(s: State, input: Detection)
    requires Inv(s) && input.key !in s.ledger.keys
    ensures Inv(s.(ledger := CreateStep(s.env, s.ledger, input)))
  {
    var s' := s.(ledger := CreateStep(s.env, s.ledger, input));
    CreationOk(s.env, input);
    if s' != s {
      forall q {:trigger RowOk(s', q)} | q in s'.ledger.directives
        ensures RowOk(s', q)
      {
        if q != input.id {
          assert RowOk(s, q);
        }
      }
    }
  }

  /** Which detections are under way does not matter to the invariant. */
  lemma PendingIrrelevant(s: State, pending: map<nat, Detection>)
    requires Inv(s)
    ensures Inv(s.(ledger := s.ledger.(pending := pending)))
  {
    var s' := s.(ledger := s.ledger.(pending := pending));
    forall q {:trigger RowOk(s', q)} | q in s'.ledger.directives
      ensures RowOk(s', q)
    {
      assert RowOk(s, q);
    }
  }

  lemma DetectionKeeps(s: State, op: Op)
    requires Inv(s) && (op.LookupOp? || op.InsertOp? || op.CrashOp?)
    ensures Inv(Step(s, op))
  {
    match op
    case LookupOp(c, input) =>
      PendingIrrelevant(s, s.ledger.pending[c := input]);
      if input.key in s.ledger.keys {
        MergeStepKeeps(s, input);
      }
    case InsertOp(c) =>
      if c in s.ledger.pending {
        var s1 := s.(ledger := s.ledger.(pending := s.ledger.pending - {c}));
        PendingIrrelevant(s, s.ledger.pending - {c});
        var input := s.ledger.pending[c];
        if input.key in s.ledger.keys {
          MergeStepKeeps(s1, input);
        } else {
          CreateStepKeeps(s1, input);
        }
      }
    case CrashOp(c) => PendingIrrelevant(s, s.ledger.pending - {c});
  }

  lemma OnDirectiveKeeps(s: State, id: Uuid, r: Result<Directive, Error>)
    requires Inv(s) && id in s.ledger.directives
    requires r.Ok? ==> DirectiveOk(s.env.work, r.value) && r.value.key == s.ledger.directives[id].key
    ensures Inv(s.(ledger := OnDirective(s.ledger, id, r)))
  {
    if r.Ok? {
      PutKeeps(s, id, r.value);
    } else {
      assert s.(ledger := s.ledger) == s;
    }
  }

  lemma ReviseKeeps(s: State, id: Uuid, content: Content, author: Uuid)
    requires Inv(s) && id in s.ledger.directives
    ensures Inv(s.(ledger := OnDirective(s.ledger, id, AddRevision(s.env, s.ledger.directives[id], content, author))))
  {
    assert RowOk(s, id);
    AddRevisionOk(s.env, s.ledger.directives[id], content, author);
    OnDirectiveKeeps(s, id, AddRevision(s.env, s.ledger.directives[id], content, author));
  }

  lemma TransitionKeeps(s: State, id: Uuid, to: Status, actor: Uuid, mode: Option<Mode>, now: int)
    requires Inv(s) && id in s.ledger.directives
    ensures Inv(s.(ledger := OnDirective(s.ledger, id,
      Transition(s.env, s.ledger.directives[id], to, actor, mode, now))))
  {
    assert RowOk(s, id);
    TransitionOk(s.env, s.ledger.directives[id], to, actor, mode, now);
    OnDirectiveKeeps(s, id, Transition(s.env, s.ledger.directives[id], to, actor, mode, now));
  }

  lemma ProvenanceKeeps(s: State, id: Uuid, source: Source)
    requires Inv(s) && id in s.ledger.directives
    ensures Inv(s.(ledger := OnDirective(s.ledger, id, AddProvenance(s.env, s.ledger.directives[id], source))))
  {
    assert RowOk(s, id);
    AddProvenanceOk(s.env, s.ledger.directives[id], source);
    OnDirectiveKeeps(s, id, AddProvenance(s.env, s.ledger.directives[id], source));
  }

  lemma OperatorKeeps(s: State, op: Op)
    requires Inv(s) && (op.ReviseOp? || op.TransitionOp? || op.ProvenanceOp?)
    ensures Inv(Step(s, op))
  {
    if op.id in s.ledger.directives {
      match op
      case ReviseOp(id, content, author) => ReviseKeeps(s, id, content, author);
      case TransitionOp(id, to, actor, mode, now) => TransitionKeeps(s, id, to, actor, mode, now);
      case ProvenanceOp(id, source) => ProvenanceKeeps(s, id, source);
    }
  }

  /** COMPLETED has no outgoing edge, so a WorkOrder step never takes evidence away. */
  lemma EvidenceSurvives(work: W.State, work': W.State, d: Directive)
    requires W.Grows(work, work') && Substantiated(work, d)
    ensures Substantiated(work', d)
  {
    var i :| 0 <= i < |d.provenance| && CompletedSource(work, d.provenance[i]);
    var o := d.provenance[i].order;
    assert o in work'.orders && W.OrderGrows(work.orders[o], work'.orders[o]);
    assert CompletedSource(work', d.provenance[i]);
  }

  lemma EnvironmentKeeps(s: State, op: Op)
    requires Inv(s) && (op.SuppressOp? || op.WorkOp? || op.NewActorOp? || op.NewReferenceOp?)
    ensures Inv(Step(s, op))
  {
    var s' := Step(s, op);
    if op.WorkOp? {
      W.StepGrows(s.env.work, op.op);
      match op.op
      case CreateOp(o, key) => W.CreateKeeps(s.env.work, o, key);
      case TransitionOp(q) => W.TransitionKeeps(s.env.work, q);
    }
    forall q {:trigger RowOk(s', q)} | q in s'.ledger.directives
      ensures RowOk(s', q)
    {
      assert RowOk(s, q);
      var d := s.ledger.directives[q];
      if op.WorkOp? && Substantiated(s.env.work, d) {
        EvidenceSurvives(s.env.work, s'.env.work, d);
      }
    }
  }

  lemma StepKeeps(s: State, op: Op)
    requires Inv(s)
    ensures Inv(Step(s, op))
  {
    if op.LookupOp? || op.InsertOp? || op.CrashOp? {
      DetectionKeeps(s, op);
    } else if op.ReviseOp? || op.TransitionOp? || op.ProvenanceOp? {
      OperatorKeeps(s, op);
    } else {
      EnvironmentKeeps(s, op);
    }
  }

  // ----- Every run: any interleaving of detections, operators and WorkOrder steps, crashes included

  function After(tenant: Uuid, ops: seq<Op>): State {
    if ops == [] then Initial(tenant) else Step(After(tenant, ops[..|ops| - 1]), ops[|ops| - 1])
  }

  lemma {:induction false} ReachableStatesAreSound(tenant: Uuid, ops: seq<Op>)
    ensures Inv(After(tenant, ops))
  {
    if ops != [] {
      ReachableStatesAreSound(tenant, ops[..|ops| - 1]);
      StepKeeps(After(tenant, ops[..|ops| - 1]), ops[|ops| - 1]);
    }
  }

  /** However many detections of a key race, one directive comes of it, with one creation row. */
  lemma OneDirectivePerKey(tenant: Uuid, ops: seq<Op>, id: Uuid, id': Uuid)
    requires id in After(tenant, ops).ledger.directives && id' in After(tenant, ops).ledger.directives
    requires After(tenant, ops).ledger.directives[id].key == After(tenant, ops).ledger.directives[id'].key
    ensures id == id' && OneCreation(After(tenant, ops).ledger.directives[id].history)
  {
    var s := After(tenant, ops);
    ReachableStatesAreSound(tenant, ops);
    assert RowOk(s, id) && RowOk(s, id');
    OneCreationRow(s.ledger.directives[id]);
  }

  ghost predicate OneCreation(h: seq<Row>) {
    h != [] && forall i :: 0 <= i < |h| ==> (h[i].from == None <==> i == 0)
  }

  lemma OneCreationRow(d: Directive)
    requires HistoryOk(d)
    ensures OneCreation(d.history)
  {
    forall i | 0 <= i < |d.history|
      ensures d.history[i].from == None <==> i == 0
    {
      if i >= 1 {
        assert d.history[i].from == Some(d.history[i - 1].to);
      }
    }
  }

  /** A ledger row spelled out: its history, its revisions, its provenance. */
  ghost predicate SoundRow(work: W.State, d: Directive) {
    && d.history != [] && d.history[0] == Row(None, Proposed, None) && d.status == d.history[|d.history| - 1].to
    && (forall i :: 1 <= i < |d.history| ==>
          d.history[i].from == Some(d.history[i - 1].to) && d.history[i].to in Next(d.history[i - 1].to))
    && (forall i :: 0 <= i < |d.history| ==> (d.history[i].mode.Some? <==> d.history[i].to == Completed))
    && d.revisions != [] && (forall i :: 0 <= i < |d.revisions| ==> d.revisions[i].number == i + 1)
    && d.temporal == d.revisions[|d.revisions| - 1].content.temporal
    && (forall i :: 0 <= i < |d.provenance| && d.provenance[i].FromWorkOrder? ==> d.provenance[i].order in work.orders)
  }

  /** Every row of every run is sound. */
  lemma LedgerIsSound(tenant: Uuid, ops: seq<Op>, id: Uuid)
    requires id in After(tenant, ops).ledger.directives
    ensures SoundRow(After(tenant, ops).env.work, After(tenant, ops).ledger.directives[id])
  {
    ReachableStatesAreSound(tenant, ops);
    assert RowOk(After(tenant, ops), id);
  }

  // ----- What a detection may do to a directive

  /** How often it was deferred, as read from its transitions. */
  function DeferCount(h: seq<Row>): nat {
    if h == [] then 0 else DeferCount(h[..|h| - 1]) + (if h[|h| - 1].to == Deferred then 1 else 0)
  }

  ghost function Deferrals(h: seq<Row>): set<nat> {
    set i: nat | i < |h| && h[i].to == Deferred
  }

  lemma {:induction false} DeferCountCounts(h: seq<Row>)
    ensures DeferCount(h) == |Deferrals(h)|
  {
    if h != [] {
      var front, n := h[..|h| - 1], |h| - 1;
      DeferCountCounts(front);
      assert Deferrals(h) == Deferrals(front) + if h[n].to == Deferred then {n} else {};
    }
  }

  ghost predicate Redetected(d: Directive, d': Directive) {
    && d'.key == d.key && DeferCount(d'.history) == DeferCount(d.history)
    && (!Reopenable(d.status) ==> d'.status == d.status && d'.history == d.history && d'.stamps == d.stamps)
    && (Reopenable(d.status) ==> d'.status == Open && d'.history == d.history + [Row(Some(d.status), Open, None)])
    && d.provenance <= d'.provenance && d.revisions <= d'.revisions
  }

  lemma RefreshRedetects(env: Env, d: Directive, input: Detection)
    requires Refresh(env, d, input).Ok?
    ensures Redetected(d, Refresh(env, d, input).value.0)
  {
    var d' := Refresh(env, d, input).value.0;
    if Reopenable(d.status) {
      assert d'.history[..|d'.history| - 1] == d.history;
    }
  }

  lemma SeenThenRedetected(d: Directive, seen: Directive, d': Directive)
    requires seen == d.(lastSeen := seen.lastSeen, provenance := seen.provenance) && d.provenance <= seen.provenance
    requires Redetected(seen, d')
    ensures Redetected(d, d')
  {
    W.PrefixTransitive(d.provenance, seen.provenance, d'.provenance);
  }

  lemma MergeRedetects(env: Env, d: Directive, input: Detection)
    requires Merge(env, d, input).Ok?
    ensures Redetected(d, Merge(env, d, input).value.0)
  {
    var seen := AddOptionalProvenance(env, d.(lastSeen := input.now), input.source).value;
    var d' := Merge(env, d, input).value.0;
    assert d.provenance <= seen.provenance && seen == d.(lastSeen := seen.lastSeen, provenance := seen.provenance);
    assert Redetected(seen, d') by {
      if d.status != Superseded {
        RefreshRedetects(env, seen, input);
      }
    }
    SeenThenRedetected(d, seen, d');
  }

  ghost predicate SameOrRedetected(l: Ledger, l': Ledger, id: Uuid)
    requires id in l.directives
  {
    id in l'.directives && (l'.directives[id] == l.directives[id] || Redetected(l.directives[id], l'.directives[id]))
  }

  lemma MergeStepRedetects(env: Env, l: Ledger, input: Detection, id: Uuid)
    requires input.key in l.keys && id in l.directives
    ensures SameOrRedetected(l, MergeStep(env, l, input), id)
  {
    if id == l.keys[input.key] && Merge(env, l.directives[id], input).Ok? {
      MergeRedetects(env, l.directives[id], input);
    }
  }

  lemma LookupRedetects(env: Env, l: Ledger, c: nat, input: Detection, id: Uuid)
    requires id in l.directives
    ensures SameOrRedetected(l, Lookup(env, l, c, input), id)
  {
    if input.key in l.keys {
      MergeStepRedetects(env, l, input, id);
    }
  }

  lemma InsertRedetects(env: Env, l: Ledger, c: nat, id: Uuid)
    requires id in l.directives
    ensures SameOrRedetected(l, Insert(env, l, c), id)
  {
    if c in l.pending && l.pending[c].key in l.keys {
      MergeStepRedetects(env, l.(pending := l.pending - {c}), l.pending[c], id);
    }
  }

  /** No detection, winning or losing, changes a defer count or a live state. */
  lemma DetectionKeepsLiveStates(s: State, op: Op, id: Uuid)
    requires (op.LookupOp? || op.InsertOp?) && id in s.ledger.directives
    ensures SameOrRedetected(s.ledger, Step(s, op).ledger, id)
  {
    match op
    case LookupOp(c, input) => LookupRedetects(s.env, s.ledger, c, input, id);
    case InsertOp(c) => InsertRedetects(s.env, s.ledger, c, id);
  }

  /** A merge adds a revision exactly when the content is new and the directive is not superseded. */
  lemma RevisionIffNewContent(env: Env, d: Directive, input: Detection)
    requires DirectiveOk(env.work, d) && Merge(env, d, input).Ok?
    ensures var d' := Merge(env, d, input).value.0;
      d.revisions != [] &&
      d'.revisions == if d.status == Superseded || d.revisions[|d.revisions| - 1].content == input.content
        then d.revisions else d.revisions + [Revision(|d.revisions| + 1, input.content)]
  {
    MaxIsLast(d.revisions);
  }

  lemma CarriedWhenSame(env: Env, d: Directive, input: Detection)
    requires SameAsLatest(d, input.content) && !Reopenable(d.status) && Merge(env, d, input).Ok?
    ensures var (d', outcome) := Merge(env, d, input).value;
      outcome == Carried && d'.revisions == d.revisions && d'.status == d.status && d'.history == d.history
  {
  }

  lemma LatestAfterMerge(env: Env, d: Directive, input: Detection)
    requires DirectiveOk(env.work, d) && d.status != Superseded && Merge(env, d, input).Ok?
    ensures SameAsLatest(Merge(env, d, input).value.0, input.content)
  {
    RevisionIffNewContent(env, d, input);
    var revisions := Merge(env, d, input).value.0.revisions;
    assert revisions != [] && revisions[|revisions| - 1].content == input.content;
  }

  lemma LiveAfterMerge(env: Env, d: Directive, input: Detection)
    requires Merge(env, d, input).Ok?
    ensures !Reopenable(Merge(env, d, input).value.0.status)
  {
    var d' := Merge(env, d, input).value.0;
    MergeRedetects(env, d, input);
    assert Redetected(d, d');
  }

  /** Detecting the same content again adds no revision and changes no state. */
  lemma RepeatIsCarried(env: Env, d: Directive, first: Detection, second: Detection)
    requires DirectiveOk(env.work, d) && d.status != Superseded
    requires Merge(env, d, first).Ok? && second.content == first.content
    requires Merge(env, Merge(env, d, first).value.0, second).Ok?
    ensures var once := Merge(env, d, first).value.0;
      var twice := Merge(env, once, second).value;
      twice.1 == Carried && twice.0.revisions == once.revisions && twice.0.status == once.status
        && twice.0.history == once.history
  {
    LatestAfterMerge(env, d, first);
    LiveAfterMerge(env, d, first);
    CarriedWhenSame(env, Merge(env, d, first).value.0, second);
  }

  // ----- Evidence across both machines

  ghost predicate DirectiveGrows(d: Directive, d': Directive) {
    d'.key == d.key && d.history <= d'.history && d.provenance <= d'.provenance && |d.revisions| <= |d'.revisions|
  }

  ghost predicate Grows(s: State, s': State) {
    && W.Grows(s.env.work, s'.env.work)
    && LedgerGrows(s.ledger, s'.ledger)
  }

  ghost predicate LedgerGrows(l: Ledger, l': Ledger) {
    forall id {:trigger id in l.directives} {:trigger id in l'.directives} :: id in l.directives ==>
      id in l'.directives && DirectiveGrows(l.directives[id], l'.directives[id])
  }

  lemma DetectionGrows(s: State, op: Op)
    requires op.LookupOp? || op.InsertOp?
    ensures Grows(s, Step(s, op))
  {
    forall id | id in s.ledger.directives
      ensures id in Step(s, op).ledger.directives
      ensures DirectiveGrows(s.ledger.directives[id], Step(s, op).ledger.directives[id])
    {
      DetectionKeepsLiveStates(s, op, id);
    }
  }

  lemma OnDirectiveGrows(l: Ledger, id: Uuid, r: Result<Directive, Error>)
    requires id in l.directives && (r.Ok? ==> DirectiveGrows(l.directives[id], r.value))
    ensures LedgerGrows(l, OnDirective(l, id, r))
  {
  }

  lemma OperatorGrows(s: State, op: Op)
    requires op.ReviseOp? || op.TransitionOp? || op.ProvenanceOp?
    ensures Grows(s, Step(s, op))
  {
    if op.id in s.ledger.directives {
      var d := s.ledger.directives[op.id];
      match op
      case ReviseOp(id, content, author) => OnDirectiveGrows(s.ledger, id, AddRevision(s.env, d, content, author));
      case TransitionOp(id, to, actor, mode, now) =>
        OnDirectiveGrows(s.ledger, id, Transition(s.env, d, to, actor, mode, now));
      case ProvenanceOp(id, source) => OnDirectiveGrows(s.ledger, id, AddProvenance(s.env, d, source));
    }
  }

  lemma StepGrows(s: State, op: Op)
    requires Inv(s)
    ensures Grows(s, Step(s, op))
  {
    match op {
      case LookupOp(_, _) => DetectionGrows(s, op);
      case InsertOp(_) => DetectionGrows(s, op);
      case ReviseOp(_, _, _) => OperatorGrows(s, op);
      case TransitionOp(_, _, _, _, _) => OperatorGrows(s, op);
      case ProvenanceOp(_, _) => OperatorGrows(s, op);
      case WorkOp(work) => W.StepGrows(s.env.work, work);
      case _ =>
    }
  }

  lemma GrowsTransitive(a: State, b: State, c: State)
    requires Grows(a, b) && Grows(b, c)
    ensures Grows(a, c)
  {
    W.GrowsTransitive(a.env.work, b.env.work, c.env.work);
    forall id | id in a.ledger.directives
      ensures id in c.ledger.directives && DirectiveGrows(a.ledger.directives[id], c.ledger.directives[id])
    {
      assert id in b.ledger.directives;
      var x, y, z := a.ledger.directives[id], b.ledger.directives[id], c.ledger.directives[id];
      W.PrefixTransitive(x.history, y.history, z.history);
      W.PrefixTransitive(x.provenance, y.provenance, z.provenance);
    }
  }

  lemma OneMoreStepGrows(tenant: Uuid, ops: seq<Op>, op: Op)
    ensures Grows(After(tenant, ops), After(tenant, ops + [op]))
  {
    assert (ops + [op])[..|ops|] == ops;
    ReachableStatesAreSound(tenant, ops);
    StepGrows(After(tenant, ops), op);
  }

  lemma {:induction false} LaterStatesGrow(tenant: Uuid, ops: seq<Op>, more: seq<Op>)
    ensures Grows(After(tenant, ops), After(tenant, ops + more))
    decreases |more|
  {
    if more == [] {
      assert ops + more == ops;
    } else {
      var front, last := more[..|more| - 1], more[|more| - 1];
      LaterStatesGrow(tenant, ops, front);
      OneMoreStepGrows(tenant, ops + front, last);
      assert ops + front + [last] == ops + more;
      GrowsTransitive(After(tenant, ops), After(tenant, ops + front), After(tenant, ops + more));
    }
  }

  /** Transition i of the directive is a completion, and provenance row k, unchanged since s, proves it in s'. */
  ghost predicate StillValidated(s: State, s': State, id: Uuid, i: nat, k: nat)
    requires id in s.ledger.directives
  {
    var d := s.ledger.directives[id];
    && id in s'.ledger.directives
    && var d' := s'.ledger.directives[id];
    && i < |d.history| && i < |d'.history| && d'.history[i] == d.history[i] && d'.history[i].to == Completed
    && k < |d.provenance| && k < |d'.provenance| && d'.provenance[k] == d.provenance[k]
    && CompletedSource(s.env.work, d.provenance[k]) && CompletedSource(s'.env.work, d'.provenance[k])
  }

  /**
   A transition on record as system-validated keeps, in every later state of the whole system, a
   provenance row that names a COMPLETED WorkOrder: the same row it had when it was recorded.
   */
  lemma SystemValidatedForGood(tenant: Uuid, ops: seq<Op>, more: seq<Op>, id: Uuid, i: nat) returns (k: nat)
    requires id in After(tenant, ops).ledger.directives && i < |After(tenant, ops).ledger.directives[id].history|
    requires After(tenant, ops).ledger.directives[id].history[i].mode == Some(SystemValidated)
    ensures StillValidated(After(tenant, ops), After(tenant, ops + more), id, i, k)
  {
    var s, s' := After(tenant, ops), After(tenant, ops + more);
    ReachableStatesAreSound(tenant, ops);
    LaterStatesGrow(tenant, ops, more);
    assert RowOk(s, id);
    var d := s.ledger.directives[id];
    assert Substantiated(s.env.work, d);
    k :| 0 <= k < |d.provenance| && CompletedSource(s.env.work, d.provenance[k]);
    var o := d.provenance[k].order;
    assert o in s'.env.work.orders && W.OrderGrows(s.env.work.orders[o], s'.env.work.orders[o]);
  }
}
