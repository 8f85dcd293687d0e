/**
 What a new issue holds, spelled out on the rows: which of them it lists and where, what is new in
 it, and what each entry is carried from (src/briefing/collectCandidates.ts, src/briefing/issueBriefing.ts).
 */
module BriefingEffects {
  import opened Options
  import opened Briefing

  // ----- Which rows belong into an issue

  /** The last issue of the type opens the window; before the first one it reaches back a day. */
  ghost predicate OpensAt(issues: seq<Issue>, briefingType: string, now: Time, since: Time) {
    if exists i :: 0 <= i < |issues| && issues[i].key.briefingType == briefingType then
      && (exists i :: 0 <= i < |issues| && issues[i].key.briefingType == briefingType && issues[i].publishedAt == since)
      && (forall i :: 0 <= i < |issues| && issues[i].key.briefingType == briefingType ==>
        issues[i].publishedAt <= since)
    else since == now - 86_400_000
  }

  lemma SinceOpens(issues: seq<Issue>, briefingType: string, now: Time)
    ensures OpensAt(issues, briefingType, now, Since(issues, briefingType, now))
  {
    var last := LastPublished(issues, briefingType, |issues|);
    if last.Some? {
      var i :| 0 <= i < |issues| && issues[i].key.briefingType == briefingType && issues[i].publishedAt == last.value;
    }
  }

  /**
   Unresolved directives; WorkOrders at work, stuck, or completed within the window, each in its lane;
   skipped firings as blockers and other receipts but state_transitioned as evidence, both within the
   window; memory candidates still proposed.
   */
  ghost predicate Belongs(s: State, since: Time, source: Source, lane: Lane) {
    match source
    case FromDirective(k) => k < |s.directives| && s.directives[k] && lane == DirectiveLane
    case FromOrder(k) =>
      k < |s.orders| &&
      match s.orders[k].status {
        case Active => lane == ActionLane
        case Blocked => lane == BlockerLane
        case Completed => lane == CompletedLane && since <= s.orders[k].updatedAt
      }
    case FromReceipt(k) =>
      k < |s.receipts| && since <= s.receipts[k].createdAt &&
      match s.receipts[k].kind {
        case StateTransitioned => false
        case TriggerFireSkipped => lane == BlockerLane
        case OtherReceipt => lane == EvidenceLane
      }
    case FromCandidate(k) => k < |s.candidates| && s.candidates[k] && lane == EvidenceLane
  }

  lemma ListedIffBelongs(s: State, since: Time, d: Draft)
    ensures Listed(s, since, d) <==> Belongs(s, since, d.source, d.lane)
  {
  }

  // ----- What an entry says

  /** An active entry for the source. */
  ghost predicate Shows(issue: Issue, source: Source) {
    exists i :: 0 <= i < |issue.entries| && issue.entries[i].source == source && issue.entries[i].active
  }

  /** New if no issue shows the source; otherwise carried from the most recently published one that does. */
  ghost predicate CarriedAs(issues: seq<Issue>, e: Entry) {
    && e.active && (e.isNew <==> forall k :: 0 <= k < |issues| ==> !Shows(issues[k], e.source))
    && if e.isNew then e.carriedFrom == None
      else
        && e.carriedFrom.Some? && e.carriedFrom.value < |issues| && Shows(issues[e.carriedFrom.value], e.source)
        && forall k :: 0 <= k < |issues| && Shows(issues[k], e.source) ==>
          issues[k].publishedAt <= issues[e.carriedFrom.value].publishedAt
  }

  lemma NewEntryIsCarried(issues: seq<Issue>, draft: Draft)
    ensures var e := NewEntry(issues, draft);
      e.source == draft.source && e.lane == draft.lane && CarriedAs(issues, e)
  {
    forall k | 0 <= k < |issues|
      ensures HoldsActive(issues[k], draft.source) <==> Shows(issues[k], draft.source)
    {
    }
  }

  /** A whole issue: its key and time, no source twice, exactly the rows that belong, each new or carried. */
  ghost predicate Composed(s: State, issue: Issue, key: IssueKey, since: Time) {
    && issue.key == key && issue.publishedAt == s.clock && SourcesOnce(issue)
    && OpensAt(s.issues, key.briefingType, s.clock, since)
    && (forall source, lane :: HasEntry(issue, Draft(source, lane)) <==> Belongs(s, since, source, lane))
    && (forall i :: 0 <= i < |issue.entries| ==> CarriedAs(s.issues, issue.entries[i]))
  }

  lemma NewIssueIsComposed(s: State, key: IssueKey)
    ensures Composed(s, NewIssue(s, key), key, Since(s.issues, key.briefingType, s.clock))
  {
    var issue, since := NewIssue(s, key), Since(s.issues, key.briefingType, s.clock);
    var drafts := Collect(s, key.briefingType);
    NewIssueEntries(s, key);
    SinceOpens(s.issues, key.briefingType, s.clock);
    forall source, lane
      ensures HasEntry(issue, Draft(source, lane)) <==> Belongs(s, since, source, lane)
    {
      NewIssueLists(s, key, Draft(source, lane));
      ListedIffBelongs(s, since, Draft(source, lane));
    }
    forall i | 0 <= i < |issue.entries|
      ensures CarriedAs(s.issues, issue.entries[i])
    {
      EntryAt(s.issues, drafts, i);
      NewEntryIsCarried(s.issues, drafts[i]);
    }
  }

  /** A key that has an issue changes nothing; any other one adds one issue behind the ones there were. */
  ghost predicate IssuedOnce(s: State, s': State, key: IssueKey) {
    if exists i :: 0 <= i < |s.issues| && s.issues[i].key == key then s' == s
    else
      && s' == s.(issues := s'.issues) && |s'.issues| == |s.issues| + 1 && s.issues <= s'.issues
      && exists since :: Composed(s, s'.issues[|s.issues|], key, since)
  }

  lemma IssueStepIsExact(s: State, key: IssueKey)
    ensures IssuedOnce(s, IssueStep(s, key), key)
    ensures Step(s, IssueOp(key)) == IssueStep(s, key) && Step(s, FailedIssue(key)) == s
  {
    NewIssueIsComposed(s, key);
    if !Issued(s.issues, key) {
      assert IssueStep(s, key).issues[|s.issues|] == NewIssue(s, key);
    }
  }

  /** Rows are written with the time and the number of issues so far; a completed WorkOrder is not written again. */
  lemma WriteIsExact(s: State, op: Op)
    requires !op.IssueOp?
    ensures var s' := Step(s, op);
      && s'.clock == (if op.Tick? then s.clock + op.dt else s.clock)
      && s'.receipts == s.receipts + (if op.AddReceipt? then [Receipt(op.kind, s.clock, |s.issues|)] else [])
      && s'.orders == (match op
          case AddOrder => s.orders + [Order(Active, s.clock, |s.issues|)]
          case MoveOrder(k, status) =>
            if k < |s.orders| && s.orders[k].status in {Active, Blocked}
            then s.orders[k := Order(status, s.clock, |s.issues|)] else s.orders
          case _ => s.orders)
      && s'.directives == (match op
          case AddDirective => s.directives + [true]
          case SetDirective(k, unresolved) => if k < |s.directives| then s.directives[k := unresolved] else s.directives
          case _ => s.directives)
      && s'.candidates == (match op
          case AddCandidate => s.candidates + [true]
          case SetCandidate(k, proposed) => if k < |s.candidates| then s.candidates[k := proposed] else s.candidates
          case _ => s.candidates)
      && (!op.SetEntry? ==> s'.issues == s.issues)
  {
  }

  /** Marking an entry changes that entry's mark only. */
  lemma SetEntryIsExact(s: State, k: nat, i: nat, active: bool)
    requires k < |s.issues| && i < |s.issues[k].entries|
    ensures var e := s.issues[k].entries[i];
      Step(s, SetEntry(k, i, active)) == s.(issues := s.issues[k := Issue(s.issues[k].key, s.issues[k].publishedAt,
        s.issues[k].entries[i := Entry(e.source, e.lane, active, e.isNew, e.carriedFrom)])])
  {
  }
}
