/**
 Briefing issues (src/briefing/collectCandidates.ts, src/briefing/issueBriefing.ts) over a
 serial run with a clock that never goes back. Rows are numbered in the order they were
 inserted; the order in which a query returns them plays no part here.
 */
module Briefing {
  import opened Options
  import opened Keys

  type Time = int

  // ----- Tables

  datatype OrderStatus = Active | Blocked | Completed

  /** `after` logs how many issues existed when the row was last written. */
  datatype Order = Order(status: OrderStatus, updatedAt: Time, after: nat)
  datatype ReceiptType = StateTransitioned | TriggerFireSkipped | OtherReceipt
  datatype Receipt = Receipt(kind: ReceiptType, createdAt: Time, after: nat)

  datatype Source = FromDirective(id: nat) | FromOrder(id: nat) | FromReceipt(id: nat) | FromCandidate(id: nat)
  datatype Lane = DirectiveLane | ActionLane | BlockerLane | CompletedLane | EvidenceLane
  datatype Draft = Draft(source: Source, lane: Lane)
  datatype Entry = Entry(source: Source, lane: Lane, active: bool, isNew: bool, carriedFrom: Option<nat>)
  datatype IssueKey = IssueKey(briefingType: string, date: string, timezone: string)
  datatype Issue = Issue(key: IssueKey, publishedAt: Time, entries: seq<Entry>)

  datatype State = State(
    clock: Time,
    directives: seq<bool>,          // unresolved?
    orders: seq<Order>,
    receipts: seq<Receipt>,
    candidates: seq<bool>,          // still proposed?
    issues: seq<Issue>)

  function KeyText(tenant: Uuid, k: IssueKey): string {
    Join([tenant, k.briefingType, k.date, k.timezone])
  }

  /** A date is digits and dashes. If only types, or only timezones, hold colons, the key text names the issue. */
  lemma KeyTextNamesTheIssue(tenant: Uuid, k: IssueKey, l: IssueKey)
    requires ColonFree(k.date) && ColonFree(l.date)
    requires (ColonFree(k.briefingType) && ColonFree(l.briefingType))
      || (ColonFree(k.timezone) && ColonFree(l.timezone))
    ensures KeyText(tenant, k) == KeyText(tenant, l) ==> k == l
  {
    if KeyText(tenant, k) == KeyText(tenant, l) {
      var a, b := [tenant, k.briefingType, k.date, k.timezone], [tenant, l.briefingType, l.date, l.timezone];
      KeyDeterminesParts(a, b, if ColonFree(k.briefingType) && ColonFree(l.briefingType) then 3 else 1);
      assert a[1] == b[1] && a[2] == b[2] && a[3] == b[3];
    }
  }

  /** With colons in both, two issues can share a key, whatever the dates look like. */
  lemma KeyTextsCollide(tenant: Uuid, briefingType: string, date: string, timezone: string)
    ensures var k, l := IssueKey(briefingType, date, date + ":" + timezone),
      IssueKey(briefingType + ":" + date, date, timezone);
      k != l && KeyText(tenant, k) == KeyText(tenant, l)
  {
    var k, l := IssueKey(briefingType, date, date + ":" + timezone),
      IssueKey(briefingType + ":" + date, date, timezone);
    assert |k.briefingType| != |l.briefingType|;
    FourParts(tenant, k.briefingType, k.date, k.timezone);
    FourParts(tenant, l.briefingType, l.date, l.timezone);
  }

  lemma FourParts(a: string, b: string, c: string, d: string)
    ensures Join([a, b, c, d]) == a + ":" + b + ":" + c + ":" + d
  {
    assert [a, b, c, d][1..] == [b, c, d] && [b, c, d][1..] == [c, d] && [c, d][1..] == [d];
    assert Join([c, d]) == c + ":" + d;
    assert Join([b, c, d]) == b + ":" + Join([c, d]);
  }

  // ----- collectCandidates

  /** When the last issue of a type among the first n was published. */
  function LastPublished(issues: seq<Issue>, briefingType: string, n: nat): (t: Option<Time>)
    requires n <= |issues|
    ensures forall i :: 0 <= i < n && issues[i].key.briefingType == briefingType ==>
      t.Some? && issues[i].publishedAt <= t.value
    ensures t.Some? ==>
      exists i :: 0 <= i < n && issues[i].key.briefingType == briefingType && issues[i].publishedAt == t.value
  {
    if n == 0 then None
    else
      var before := LastPublished(issues, briefingType, n - 1);
      if issues[n - 1].key.briefingType != briefingType then before
      else if before.Some? && before.value > issues[n - 1].publishedAt then before
      else Some(issues[n - 1].publishedAt)
  }

  const DAY: Time := 24 * 60 * 60 * 1000

  function Since(issues: seq<Issue>, briefingType: string, now: Time): Time {
    match LastPublished(issues, briefingType, |issues|)
    case Some(t) => t
    case None => now - DAY
  }

  ghost predicate DistinctSources(drafts: seq<Draft>) {
    forall i, j :: 0 <= i < j < |drafts| ==> drafts[i].source != drafts[j].source
  }

  ghost predicate DirectiveDraft(directives: seq<bool>, d: Draft) {
    d.source.FromDirective? && d.source.id < |directives| && directives[d.source.id] && d.lane == DirectiveLane
  }

  function DirectiveDrafts(directives: seq<bool>, n: nat): (drafts: seq<Draft>)
    requires n <= |directives|
    ensures DistinctSources(drafts)
    ensures forall d :: d in drafts <==> DirectiveDraft(directives, d) && d.source.id < n
  {
    if n == 0 then []
    else if directives[n - 1] then DirectiveDrafts(directives, n - 1) + [Draft(FromDirective(n - 1), DirectiveLane)]
    else DirectiveDrafts(directives, n - 1)
  }

  function OrderLane(order: Order): Lane {
    match order.status case Blocked => BlockerLane case Completed => CompletedLane case Active => ActionLane
  }

  /** Everything open, and what was completed within the window. */
  ghost predicate OrderDraft(orders: seq<Order>, since: Time, d: Draft) {
    && d.source.FromOrder? && d.source.id < |orders| && d.lane == OrderLane(orders[d.source.id])
    && OrderListed(orders[d.source.id], since)
  }

  predicate OrderListed(order: Order, since: Time) {
    order.status != Completed || order.updatedAt >= since
  }

  function OrderDrafts(orders: seq<Order>, since: Time, n: nat): (drafts: seq<Draft>)
    requires n <= |orders|
    ensures DistinctSources(drafts)
    ensures forall d :: d in drafts <==> OrderDraft(orders, since, d) && d.source.id < n
  {
    if n == 0 then []
    else if OrderListed(orders[n - 1], since) then
      OrderDrafts(orders, since, n - 1) + [Draft(FromOrder(n - 1), OrderLane(orders[n - 1]))]
    else OrderDrafts(orders, since, n - 1)
  }

  predicate EvidenceListed(receipt: Receipt, since: Time) {
    receipt.createdAt >= since && receipt.kind != StateTransitioned && receipt.kind != TriggerFireSkipped
  }

  ghost predicate EvidenceDraft(receipts: seq<Receipt>, since: Time, d: Draft) {
    && d.source.FromReceipt? && d.source.id < |receipts| && d.lane == EvidenceLane
    && EvidenceListed(receipts[d.source.id], since)
  }

  function EvidenceDrafts(receipts: seq<Receipt>, since: Time, n: nat): (drafts: seq<Draft>)
    requires n <= |receipts|
    ensures DistinctSources(drafts)
    ensures forall d :: d in drafts <==> EvidenceDraft(receipts, since, d) && d.source.id < n
  {
    if n == 0 then []
    else if EvidenceListed(receipts[n - 1], since) then
      EvidenceDrafts(receipts, since, n - 1) + [Draft(FromReceipt(n - 1), EvidenceLane)]
    else EvidenceDrafts(receipts, since, n - 1)
  }

  ghost predicate CandidateDraft(candidates: seq<bool>, d: Draft) {
    d.source.FromCandidate? && d.source.id < |candidates| && candidates[d.source.id] && d.lane == EvidenceLane
  }

  function CandidateDrafts(candidates: seq<bool>, n: nat): (drafts: seq<Draft>)
    requires n <= |candidates|
    ensures DistinctSources(drafts)
    ensures forall d :: d in drafts <==> CandidateDraft(candidates, d) && d.source.id < n
  {
    if n == 0 then []
    else if candidates[n - 1] then CandidateDrafts(candidates, n - 1) + [Draft(FromCandidate(n - 1), EvidenceLane)]
    else CandidateDrafts(candidates, n - 1)
  }

  predicate SkipListed(receipt: Receipt, since: Time) {
    receipt.kind == TriggerFireSkipped && receipt.createdAt >= since
  }

  ghost predicate SkipDraft(receipts: seq<Receipt>, since: Time, d: Draft) {
    && d.source.FromReceipt? && d.source.id < |receipts| && d.lane == BlockerLane
    && SkipListed(receipts[d.source.id], since)
  }

  function SkipDrafts(receipts: seq<Receipt>, since: Time, n: nat): (drafts: seq<Draft>)
    requires n <= |receipts|
    ensures DistinctSources(drafts)
    ensures forall d :: d in drafts <==> SkipDraft(receipts, since, d) && d.source.id < n
  {
    if n == 0 then []
    else if SkipListed(receipts[n - 1], since) then
      SkipDrafts(receipts, since, n - 1) + [Draft(FromReceipt(n - 1), BlockerLane)]
    else SkipDrafts(receipts, since, n - 1)
  }

  lemma AppendDistinct(a: seq<Draft>, b: seq<Draft>)
    requires DistinctSources(a) && DistinctSources(b)
    requires forall d, e :: d in a && e in b ==> d.source != e.source
    ensures DistinctSources(a + b)
  {
    assert forall i :: 0 <= i < |a| ==> a[i] in a;
    assert forall i :: 0 <= i < |b| ==> b[i] in b;
  }

  /** The five collectors, one after the other. */
  function Collect(s: State, briefingType: string): seq<Draft> {
    var since := Since(s.issues, briefingType, s.clock);
    DirectiveDrafts(s.directives, |s.directives|)
    + OrderDrafts(s.orders, since, |s.orders|)
    + EvidenceDrafts(s.receipts, since, |s.receipts|)
    + CandidateDrafts(s.candidates, |s.candidates|)
    + SkipDrafts(s.receipts, since, |s.receipts|)
  }

  /** No source is collected twice: receipts come from two collectors with disjoint types. */
  lemma CollectedOnce(s: State, briefingType: string)
    ensures DistinctSources(Collect(s, briefingType))
  {
    var since := Since(s.issues, briefingType, s.clock);
    var d := DirectiveDrafts(s.directives, |s.directives|);
    var o := OrderDrafts(s.orders, since, |s.orders|);
    var e := EvidenceDrafts(s.receipts, since, |s.receipts|);
    var c := CandidateDrafts(s.candidates, |s.candidates|);
    var k := SkipDrafts(s.receipts, since, |s.receipts|);
    AppendDistinct(d, o);
    AppendDistinct(d + o, e);
    AppendDistinct(d + o + e, c);
    AppendDistinct(d + o + e + c, k);
  }

  /** Whether a row belongs into a briefing, and into which lane. */
  ghost predicate Listed(s: State, since: Time, d: Draft) {
    match d.source
    case FromDirective(k) => DirectiveDraft(s.directives, d)
    case FromOrder(k) => OrderDraft(s.orders, since, d)
    case FromReceipt(k) => EvidenceDraft(s.receipts, since, d) || SkipDraft(s.receipts, since, d)
    case FromCandidate(k) => CandidateDraft(s.candidates, d)
  }

  /** Exactly the rows that belong into a briefing are collected. */
  lemma CollectsExactly(s: State, briefingType: string, d: Draft)
    ensures d in Collect(s, briefingType) <==> Listed(s, Since(s.issues, briefingType, s.clock), d)
  {
  }

  // ----- issueBriefing

  predicate HoldsActive(issue: Issue, source: Source) {
    exists i :: 0 <= i < |issue.entries| && issue.entries[i].source == source && issue.entries[i].active
  }

  /** The most recently published of the first n issues that still holds an active entry for the source. */
  function CarriedFrom(issues: seq<Issue>, source: Source, n: nat): (from: Option<nat>)
    requires n <= |issues|
    ensures from.None? <==> forall i :: 0 <= i < n ==> !HoldsActive(issues[i], source)
    ensures from.Some? ==> from.value < n && HoldsActive(issues[from.value], source)
    ensures from.Some? ==> forall i :: 0 <= i < n && HoldsActive(issues[i], source) ==>
      issues[i].publishedAt <= issues[from.value].publishedAt
  {
    if n == 0 then None
    else
      var before := CarriedFrom(issues, source, n - 1);
      if !HoldsActive(issues[n - 1], source) then before
      else if before.Some? && issues[before.value].publishedAt > issues[n - 1].publishedAt then before
      else Some(n - 1)
  }

  function NewEntry(issues: seq<Issue>, draft: Draft): Entry {
    var from := CarriedFrom(issues, draft.source, |issues|);
    Entry(draft.source, draft.lane, true, from.None?, from)
  }

  function Entries(issues: seq<Issue>, drafts: seq<Draft>): (entries: seq<Entry>)
    ensures |entries| == |drafts|
  {
    if drafts == [] then []
    else Entries(issues, drafts[..|drafts| - 1]) + [NewEntry(issues, drafts[|drafts| - 1])]
  }

  lemma {:induction false} EntryAt(issues: seq<Issue>, drafts: seq<Draft>, i: nat)
    requires i < |drafts|
    ensures Entries(issues, drafts)[i] == NewEntry(issues, drafts[i])
  {
    if i < |drafts| - 1 {
      EntryAt(issues, drafts[..|drafts| - 1], i);
    }
  }

  predicate Issued(issues: seq<Issue>, key: IssueKey) {
    exists i :: 0 <= i < |issues| && issues[i].key == key
  }

  function NewIssue(s: State, key: IssueKey): Issue {
    Issue(key, s.clock, Entries(s.issues, Collect(s, key.briefingType)))
  }

  function IssueStep(s: State, key: IssueKey): State {
    if Issued(s.issues, key) then s else s.(issues := s.issues + [NewIssue(s, key)])
  }

  /** What a new issue holds: no source twice, and an entry is new exactly if no other issue holds an active one. */
  lemma NewIssueEntries(s: State, key: IssueKey)
    ensures SourcesOnce(NewIssue(s, key))
    ensures forall e :: e in NewIssue(s, key).entries ==>
      && e.active && (e.isNew <==> e.carriedFrom.None?)
      && (e.isNew <==> forall k :: 0 <= k < |s.issues| ==> !HoldsActive(s.issues[k], e.source))
  {
    var drafts := Collect(s, key.briefingType);
    CollectedOnce(s, key.briefingType);
    forall i | 0 <= i < |drafts|
      ensures NewIssue(s, key).entries[i] == NewEntry(s.issues, drafts[i])
    {
      EntryAt(s.issues, drafts, i);
    }
  }

  ghost predicate HasEntry(issue: Issue, d: Draft) {
    exists i :: 0 <= i < |issue.entries| && issue.entries[i].source == d.source && issue.entries[i].lane == d.lane
  }

  /** A new issue has an entry for exactly the rows that belong into it. */
  lemma NewIssueLists(s: State, key: IssueKey, d: Draft)
    ensures HasEntry(NewIssue(s, key), d) <==> Listed(s, Since(s.issues, key.briefingType, s.clock), d)
  {
    var drafts, entries := Collect(s, key.briefingType), NewIssue(s, key).entries;
    CollectsExactly(s, key.briefingType, d);
    forall i | 0 <= i < |drafts|
      ensures entries[i].source == drafts[i].source && entries[i].lane == drafts[i].lane
    {
      EntryAt(s.issues, drafts, i);
    }
    if d in drafts {
      var i :| 0 <= i < |drafts| && drafts[i] == d;
      assert entries[i].source == d.source;
    }
    if i :| 0 <= i < |entries| && entries[i].source == d.source && entries[i].lane == d.lane {
      assert drafts[i] == d;
    }
  }

  // ----- Runs

  datatype Op =
    | Tick(dt: nat)
    | AddDirective
    | SetDirective(id: nat, unresolved: bool)
    | AddOrder
    | MoveOrder(id: nat, status: OrderStatus)
    | AddReceipt(kind: ReceiptType)
    | AddCandidate
    | SetCandidate(id: nat, proposed: bool)
    | SetEntry(issue: nat, entry: nat, active: bool)
    | IssueOp(key: IssueKey)
    | FailedIssue(key: IssueKey)

  function WithEntry(issue: Issue, entry: nat, active: bool): Issue
    requires entry < |issue.entries|
  {
    issue.(entries := issue.entries[entry := issue.entries[entry].(active := active)])
  }

  function Step(s: State, op: Op): State {
    match op
    case Tick(dt) => s.(clock := s.clock + dt)
    case AddDirective => s.(directives := s.directives + [true])
    case SetDirective(id, unresolved) =>
      if id < |s.directives| then s.(directives := s.directives[id := unresolved]) else s
    case AddOrder => s.(orders := s.orders + [Order(Active, s.clock, |s.issues|)])
    case MoveOrder(id, status) =>
      // COMPLETED is terminal, so its updated_at is the time of completion.
      if id < |s.orders| && s.orders[id].status != Completed
      then s.(orders := s.orders[id := Order(status, s.clock, |s.issues|)]) else s
    case AddReceipt(kind) => s.(receipts := s.receipts + [Receipt(kind, s.clock, |s.issues|)])
    case AddCandidate => s.(candidates := s.candidates + [true])
    case SetCandidate(id, proposed) => if id < |s.candidates| then s.(candidates := s.candidates[id := proposed]) else s
    case SetEntry(issue, entry, active) =>
      if issue < |s.issues| && entry < |s.issues[issue].entries|
      then s.(issues := s.issues[issue := WithEntry(s.issues[issue], entry, active)]) else s
    case IssueOp(key) => IssueStep(s, key)
    case FailedIssue(key) => s
  }

  function After(start: Time, ops: seq<Op>): State {
    if ops == [] then State(start, [], [], [], [], []) else Step(After(start, ops[..|ops| - 1]), ops[|ops| - 1])
  }

  // ----- Which issues report an event

  ghost predicate OneIssuePerKey(issues: seq<Issue>) {
    forall i, j :: 0 <= i < j < |issues| ==> issues[i].key != issues[j].key
  }

  ghost predicate SourcesOnce(issue: Issue) {
    forall i, j :: 0 <= i < j < |issue.entries| ==> issue.entries[i].source != issue.entries[j].source
  }

  /** Some issue of the type has the entry. */
  ghost predicate Reported(issues: seq<Issue>, briefingType: string, d: Draft) {
    exists i :: 0 <= i < |issues| && issues[i].key.briefingType == briefingType && HasEntry(issues[i], d)
  }

  /** Some of the first n issues is of the type. */
  ghost predicate Earlier(issues: seq<Issue>, briefingType: string, n: nat) {
    exists i :: 0 <= i < n && i < |issues| && issues[i].key.briefingType == briefingType
  }

  /**
   What decides whether an event at time t, with `after` issues written before it, is reported: an
   issue of the type comes later, and either one came earlier or the later one is within a day.
   */
  ghost predicate Due(issues: seq<Issue>, briefingType: string, t: Time, after: nat) {
    exists j :: after <= j < |issues| && issues[j].key.briefingType == briefingType
      && (Earlier(issues, briefingType, after) || t >= issues[j].publishedAt - DAY)
  }

  /** Issues before the event are not published later, issues after it not earlier. */
  ghost predicate Timed(issues: seq<Issue>, t: Time, after: nat) {
    && after <= |issues|
    && (forall i :: 0 <= i < after ==> issues[i].publishedAt <= t)
    && (forall i :: after <= i < |issues| ==> t <= issues[i].publishedAt)
  }

  ghost predicate ReportedIffDue(issues: seq<Issue>, d: Draft, t: Time, after: nat) {
    forall briefingType ::
      Reported(issues, briefingType, d) <==> Due(issues, briefingType, t, after)
  }

  function ReceiptDraft(receipts: seq<Receipt>, k: nat): Draft
    requires k < |receipts|
  {
    Draft(FromReceipt(k), if receipts[k].kind == TriggerFireSkipped then BlockerLane else EvidenceLane)
  }

  ghost predicate ReceiptOk(s: State, k: nat)
    requires k < |s.receipts|
  {
    var r := s.receipts[k];
    && Timed(s.issues, r.createdAt, r.after) && r.createdAt <= s.clock
    && (r.kind != StateTransitioned ==> ReportedIffDue(s.issues, ReceiptDraft(s.receipts, k), r.createdAt, r.after))
  }

  ghost predicate OrderOk(s: State, k: nat)
    requires k < |s.orders|
  {
    var o := s.orders[k];
    && Timed(s.issues, o.updatedAt, o.after) && o.updatedAt <= s.clock
    && (o.status == Completed ==> ReportedIffDue(s.issues, Draft(FromOrder(k), CompletedLane), o.updatedAt, o.after))
  }

  /** An entry stands for a row that was there, and for a completion only if it is one. */
  ghost predicate EntryOk(s: State, source: Source, lane: Lane) {
    && (source.FromReceipt? ==> source.id < |s.receipts|)
    && (source.FromOrder? ==> source.id < |s.orders|)
    && (source.FromOrder? && lane == CompletedLane ==> s.orders[source.id].status == Completed)
  }

  ghost predicate IssueOk(s: State, issue: Issue) {
    && SourcesOnce(issue) && issue.publishedAt <= s.clock
    && forall i :: 0 <= i < |issue.entries| ==> EntryOk(s, issue.entries[i].source, issue.entries[i].lane)
  }

  ghost predicate Inv(s: State) {
    && OneIssuePerKey(s.issues)
    && (forall i :: 0 <= i < |s.issues| ==> IssueOk(s, s.issues[i]))
    && (forall k: nat {:trigger ReceiptOk(s, k)} :: k < |s.receipts| ==> ReceiptOk(s, k))
    && (forall k: nat {:trigger OrderOk(s, k)} :: k < |s.orders| ==> OrderOk(s, k))
  }

  // ----- A new issue

  /** The window of the next issue reaches back to the event exactly if the event becomes due with it. */
  lemma WindowReachesIffDue(s: State, key: IssueKey, t: Time, after: nat)
    requires Timed(s.issues, t, after) && t <= s.clock && forall i :: 0 <= i < |s.issues| ==>
      s.issues[i].publishedAt <= s.clock
    ensures var T := key.briefingType;
      Due(s.issues, T, t, after) || t >= Since(s.issues, T, s.clock) <==>
      Due(s.issues, T, t, after) || Earlier(s.issues, T, after) || t >= s.clock - DAY
  {
    var issues, T := s.issues, key.briefingType;
    var last := LastPublished(issues, T, |issues|);
    if last.Some? {
      var i :| 0 <= i < |issues| && issues[i].key.briefingType == T && issues[i].publishedAt == last.value;
      if i < after {
        assert Earlier(issues, T, after);
      } else if t >= last.value || Earlier(issues, T, after) || t >= s.clock - DAY {
        assert t >= issues[i].publishedAt - DAY || Earlier(issues, T, after);
        assert Due(issues, T, t, after);
      }
    }
  }

  lemma DueAfterAppend(issues: seq<Issue>, issue: Issue, briefingType: string, t: Time, after: nat)
    requires after <= |issues|
    ensures Due(issues + [issue], briefingType, t, after) <==>
      || Due(issues, briefingType, t, after)
      || (issue.key.briefingType == briefingType
        && (Earlier(issues, briefingType, after) || t >= issue.publishedAt - DAY))
  {
    var issues' := issues + [issue];
    assert issues'[|issues|] == issue && forall i :: 0 <= i < |issues| ==> issues'[i] == issues[i];
    assert Earlier(issues', briefingType, after) <==> Earlier(issues, briefingType, after) by {
      if i :| 0 <= i < after && i < |issues'| && issues'[i].key.briefingType == briefingType {
        assert issues[i].key.briefingType == briefingType;
      }
      if i :| 0 <= i < after && i < |issues| && issues[i].key.briefingType == briefingType {
        assert issues'[i].key.briefingType == briefingType;
      }
    }
    if Due(issues, briefingType, t, after) {
      var j :| after <= j < |issues| && issues[j].key.briefingType == briefingType
        && (Earlier(issues, briefingType, after) || t >= issues[j].publishedAt - DAY);
      assert issues'[j] == issues[j];
    }
    if Due(issues', briefingType, t, after) {
      var j :| after <= j < |issues'| && issues'[j].key.briefingType == briefingType
        && (Earlier(issues', briefingType, after) || t >= issues'[j].publishedAt - DAY);
      assert j < |issues| ==> issues[j].key.briefingType == briefingType;
    }
  }

  lemma ReportedAfterAppend(issues: seq<Issue>, issue: Issue, briefingType: string, d: Draft)
    ensures Reported(issues + [issue], briefingType, d) <==>
      Reported(issues, briefingType, d) || (issue.key.briefingType == briefingType && HasEntry(issue, d))
  {
    var issues' := issues + [issue];
    assert issues'[|issues|] == issue && forall i :: 0 <= i < |issues| ==> issues'[i] == issues[i];
    if i :| 0 <= i < |issues| && issues[i].key.briefingType == briefingType && HasEntry(issues[i], d) {
      assert issues'[i] == issues[i];
    }
    if i :| 0 <= i < |issues'| && issues'[i].key.briefingType == briefingType && HasEntry(issues'[i], d) {
      assert i < |issues| ==> issues[i].key.briefingType == briefingType && HasEntry(issues[i], d);
    }
  }

  /** An event listed from its time on: after the next issue it is still reported exactly if due. */
  lemma IssueReports(s: State, key: IssueKey, d: Draft, t: Time, after: nat)
    requires !Issued(s.issues, key) && Timed(s.issues, t, after) && t <= s.clock
    requires forall i :: 0 <= i < |s.issues| ==> s.issues[i].publishedAt <= s.clock
    requires ReportedIffDue(s.issues, d, t, after)
    requires Listed(s, Since(s.issues, key.briefingType, s.clock), d) <==>
      t >= Since(s.issues, key.briefingType, s.clock)
    ensures Timed(IssueStep(s, key).issues, t, after) && ReportedIffDue(IssueStep(s, key).issues, d, t, after)
  {
    var issues' := s.issues + [NewIssue(s, key)];
    forall briefingType
      ensures Reported(issues', briefingType, d) <==> Due(issues', briefingType, t, after)
    {
      TypeReports(s, key, d, t, after, briefingType);
    }
  }

  lemma TypeReports(s: State, key: IssueKey, d: Draft, t: Time, after: nat, briefingType: string)
    requires Timed(s.issues, t, after) && t <= s.clock
    requires forall i :: 0 <= i < |s.issues| ==> s.issues[i].publishedAt <= s.clock
    requires Reported(s.issues, briefingType, d) <==> Due(s.issues, briefingType, t, after)
    requires Listed(s, Since(s.issues, key.briefingType, s.clock), d) <==>
      t >= Since(s.issues, key.briefingType, s.clock)
    ensures var issues' := s.issues + [NewIssue(s, key)];
      Reported(issues', briefingType, d) <==> Due(issues', briefingType, t, after)
  {
    NewIssueLists(s, key, d);
    DueAfterAppend(s.issues, NewIssue(s, key), briefingType, t, after);
    ReportedAfterAppend(s.issues, NewIssue(s, key), briefingType, d);
    WindowReachesIffDue(s, key, t, after);
  }

  lemma IssueKeepsReceipt(s: State, key: IssueKey, k: nat)
    requires Inv(s) && !Issued(s.issues, key) && k < |s.receipts|
    ensures ReceiptOk(IssueStep(s, key), k)
  {
    var r := s.receipts[k];
    assert ReceiptOk(s, k);
    assert forall i :: 0 <= i < |s.issues| ==> IssueOk(s, s.issues[i]);
    if r.kind != StateTransitioned {
      IssueReports(s, key, ReceiptDraft(s.receipts, k), r.createdAt, r.after);
    }
  }

  lemma IssueKeepsOrder(s: State, key: IssueKey, k: nat)
    requires Inv(s) && !Issued(s.issues, key) && k < |s.orders|
    ensures OrderOk(IssueStep(s, key), k)
  {
    var o := s.orders[k];
    assert OrderOk(s, k);
    assert forall i :: 0 <= i < |s.issues| ==> IssueOk(s, s.issues[i]);
    if o.status == Completed {
      IssueReports(s, key, Draft(FromOrder(k), CompletedLane), o.updatedAt, o.after);
    }
  }

  lemma NewIssueOk(s: State, key: IssueKey)
    ensures IssueOk(s, NewIssue(s, key))
  {
    NewIssueEntries(s, key);
    var entries := NewIssue(s, key).entries;
    forall i | 0 <= i < |entries|
      ensures EntryOk(s, entries[i].source, entries[i].lane)
    {
      NewIssueLists(s, key, Draft(entries[i].source, entries[i].lane));
    }
  }

  lemma IssueKeeps(s: State, key: IssueKey)
    requires Inv(s) && !Issued(s.issues, key)
    ensures Inv(IssueStep(s, key))
  {
    var s' := IssueStep(s, key);
    NewIssueOk(s, key);
    forall i | 0 <= i < |s'.issues|
      ensures IssueOk(s', s'.issues[i])
    {
      assert i < |s.issues| ==> IssueOk(s, s.issues[i]);
    }
    forall k: nat {:trigger ReceiptOk(s', k)} | k < |s'.receipts|
      ensures ReceiptOk(s', k)
    {
      IssueKeepsReceipt(s, key, k);
    }
    forall k: nat {:trigger OrderOk(s', k)} | k < |s'.orders|
      ensures OrderOk(s', k)
    {
      IssueKeepsOrder(s, key, k);
    }
  }

  // ----- The other steps

  /** An event of this very moment: no entry names it yet, and no issue comes after it. */
  lemma FreshEvent(s: State, d: Draft)
    requires Inv(s) && !EntryOk(s, d.source, d.lane)
    ensures Timed(s.issues, s.clock, |s.issues|) && ReportedIffDue(s.issues, d, s.clock, |s.issues|)
  {
    forall i | 0 <= i < |s.issues|
      ensures s.issues[i].publishedAt <= s.clock && !HasEntry(s.issues[i], d)
    {
      assert IssueOk(s, s.issues[i]);
    }
  }

  /** Marking entries active or not keeps keys, times, sources and lanes. */
  ghost predicate SameIssue(issue: Issue, issue': Issue) {
    && issue'.key == issue.key && issue'.publishedAt == issue.publishedAt && |issue'.entries| == |issue.entries|
    && forall k :: 0 <= k < |issue.entries| ==>
      issue'.entries[k].source == issue.entries[k].source && issue'.entries[k].lane == issue.entries[k].lane
  }

  ghost predicate SameIssues(issues: seq<Issue>, issues': seq<Issue>) {
    |issues'| == |issues| && forall i :: 0 <= i < |issues| ==> SameIssue(issues[i], issues'[i])
  }

  lemma SameEntries(issue: Issue, issue': Issue, d: Draft)
    requires SameIssue(issue, issue')
    ensures HasEntry(issue', d) <==> HasEntry(issue, d)
  {
    if k :| 0 <= k < |issue.entries| && issue.entries[k].source == d.source && issue.entries[k].lane == d.lane {
      assert issue'.entries[k].source == d.source;
    }
    if k :| 0 <= k < |issue'.entries| && issue'.entries[k].source == d.source && issue'.entries[k].lane == d.lane {
      assert issue.entries[k].source == d.source;
    }
  }

  lemma SameIssuesAgree(issues: seq<Issue>, issues': seq<Issue>, d: Draft, t: Time, after: nat)
    requires SameIssues(issues, issues')
    ensures Timed(issues, t, after) ==> Timed(issues', t, after)
    ensures ReportedIffDue(issues, d, t, after) ==> ReportedIffDue(issues', d, t, after)
  {
    forall i | 0 <= i < |issues|
      ensures HasEntry(issues'[i], d) <==> HasEntry(issues[i], d)
      ensures issues'[i].key == issues[i].key && issues'[i].publishedAt == issues[i].publishedAt
    {
      assert SameIssue(issues[i], issues'[i]);
      SameEntries(issues[i], issues'[i], d);
    }
    forall T: string
      ensures Reported(issues', T, d) <==> Reported(issues, T, d)
      ensures Earlier(issues', T, after) <==> Earlier(issues, T, after)
      ensures Due(issues', T, t, after) <==> Due(issues, T, t, after)
    {
      SameByType(issues, issues', T, d, t, after);
    }
  }

  lemma SameByType(issues: seq<Issue>, issues': seq<Issue>, T: string, d: Draft, t: Time, after: nat)
    requires |issues'| == |issues|
    requires forall i :: 0 <= i < |issues| ==>
      && issues'[i].key == issues[i].key && issues'[i].publishedAt == issues[i].publishedAt
      && (HasEntry(issues'[i], d) <==> HasEntry(issues[i], d))
    ensures Reported(issues', T, d) <==> Reported(issues, T, d)
    ensures Earlier(issues', T, after) <==> Earlier(issues, T, after)
    ensures Due(issues', T, t, after) <==> Due(issues, T, t, after)
  {
    assert Earlier(issues', T, after) <==> Earlier(issues, T, after);
  }

  lemma SetEntryKeeps(s: State, issue: nat, entry: nat, active: bool)
    requires Inv(s)
    ensures Inv(Step(s, SetEntry(issue, entry, active)))
  {
    var s' := Step(s, SetEntry(issue, entry, active));
    forall i | 0 <= i < |s.issues|
      ensures SameIssue(s.issues[i], s'.issues[i]) && IssueOk(s', s'.issues[i])
    {
      assert IssueOk(s, s.issues[i]);
    }
    forall k: nat {:trigger ReceiptOk(s', k)} | k < |s'.receipts|
      ensures ReceiptOk(s', k)
    {
      assert ReceiptOk(s, k);
      SameIssuesAgree(s.issues, s'.issues, ReceiptDraft(s.receipts, k), s.receipts[k].createdAt, s.receipts[k].after);
    }
    forall k: nat {:trigger OrderOk(s', k)} | k < |s'.orders|
      ensures OrderOk(s', k)
    {
      assert OrderOk(s, k);
      SameIssuesAgree(s.issues, s'.issues, Draft(FromOrder(k), CompletedLane), s.orders[k].updatedAt,
        s.orders[k].after);
    }
  }

  lemma AddReceiptKeeps(s: State, kind: ReceiptType)
    requires Inv(s)
    ensures Inv(Step(s, AddReceipt(kind)))
  {
    var s' := Step(s, AddReceipt(kind));
    forall i | 0 <= i < |s'.issues|
      ensures IssueOk(s', s'.issues[i])
    {
      assert IssueOk(s, s.issues[i]);
    }
    forall k: nat {:trigger ReceiptOk(s', k)} | k < |s'.receipts|
      ensures ReceiptOk(s', k)
    {
      if k < |s.receipts| {
        assert ReceiptOk(s, k);
        assert ReceiptDraft(s'.receipts, k) == ReceiptDraft(s.receipts, k);
      } else {
        FreshEvent(s, ReceiptDraft(s'.receipts, k));
      }
    }
    forall k: nat {:trigger OrderOk(s', k)} | k < |s'.orders|
      ensures OrderOk(s', k)
    {
      assert OrderOk(s, k);
    }
  }

  lemma OrderWriteKeeps(s: State, op: Op)
    requires Inv(s) && (op.AddOrder? || op.MoveOrder?)
    ensures Inv(Step(s, op))
  {
    var s' := Step(s, op);
    forall i | 0 <= i < |s'.issues|
      ensures IssueOk(s', s'.issues[i])
    {
      assert IssueOk(s, s.issues[i]);
    }
    forall k: nat {:trigger ReceiptOk(s', k)} | k < |s'.receipts|
      ensures ReceiptOk(s', k)
    {
      assert ReceiptOk(s, k);
    }
    forall k: nat {:trigger OrderOk(s', k)} | k < |s'.orders|
      ensures OrderOk(s', k)
    {
      if k < |s.orders| && s'.orders[k] == s.orders[k] {
        assert OrderOk(s, k);
      } else {
        NewUpdate(s, s', k);
      }
    }
  }

  lemma NewUpdate(s: State, s': State, k: nat)
    requires Inv(s) && k < |s'.orders| && s'.issues == s.issues && s'.clock == s.clock
    requires s'.orders[k].updatedAt == s.clock && s'.orders[k].after == |s.issues|
    requires k < |s.orders| ==> s.orders[k].status != Completed
    ensures OrderOk(s', k)
  {
    FreshEvent(s, Draft(FromOrder(k), CompletedLane));
  }

  lemma QuietStepKeeps(s: State, s': State)
    requires Inv(s) && s.clock <= s'.clock && s'.issues == s.issues && s'.receipts == s.receipts
    requires s'.orders == s.orders
    ensures Inv(s')
  {
    forall i | 0 <= i < |s'.issues|
      ensures IssueOk(s', s'.issues[i])
    {
      assert IssueOk(s, s.issues[i]);
    }
    forall k: nat {:trigger ReceiptOk(s', k)} | k < |s'.receipts|
      ensures ReceiptOk(s', k)
    {
      assert ReceiptOk(s, k);
    }
    forall k: nat {:trigger OrderOk(s', k)} | k < |s'.orders|
      ensures OrderOk(s', k)
    {
      assert OrderOk(s, k);
    }
  }

  lemma StepKeeps(s: State, op: Op)
    requires Inv(s)
    ensures Inv(Step(s, op))
  {
    match op {
      case IssueOp(key) => if !Issued(s.issues, key) { IssueKeeps(s, key); }
      case SetEntry(issue, entry, active) => SetEntryKeeps(s, issue, entry, active);
      case AddReceipt(kind) => AddReceiptKeeps(s, kind);
      case AddOrder => OrderWriteKeeps(s, op);
      case MoveOrder(_, _) => OrderWriteKeeps(s, op);
      case _ => QuietStepKeeps(s, Step(s, op));
    }
  }

  lemma {:induction false} ReachableStatesAreSound(start: Time, ops: seq<Op>)
    ensures Inv(After(start, ops))
  {
    if ops != [] {
      ReachableStatesAreSound(start, ops[..|ops| - 1]);
      StepKeeps(After(start, ops[..|ops| - 1]), ops[|ops| - 1]);
    }
  }

  // ----- What readers of a briefing can rely on

  /** In every run a key has one issue, and no issue names a source twice. */
  lemma OneIssueOneEntry(start: Time, ops: seq<Op>)
    ensures OneIssuePerKey(After(start, ops).issues)
    ensures forall i :: 0 <= i < |After(start, ops).issues| ==> SourcesOnce(After(start, ops).issues[i])
  {
    ReachableStatesAreSound(start, ops);
    assert forall i :: 0 <= i < |After(start, ops).issues| ==> IssueOk(After(start, ops), After(start, ops).issues[i]);
  }

  /** Exactly which receipts, other than state_transitioned, some issue of a type reports. */
  lemma ReceiptReportedIff(start: Time, ops: seq<Op>, briefingType: string, k: nat)
    requires k < |After(start, ops).receipts| && After(start, ops).receipts[k].kind != StateTransitioned
    ensures var s := After(start, ops);
      Reported(s.issues, briefingType, ReceiptDraft(s.receipts, k)) <==>
      Due(s.issues, briefingType, s.receipts[k].createdAt, s.receipts[k].after)
  {
    ReachableStatesAreSound(start, ops);
    assert ReceiptOk(After(start, ops), k);
  }

  /** ... and which completions. */
  lemma CompletionReportedIff(start: Time, ops: seq<Op>, briefingType: string, k: nat)
    requires k < |After(start, ops).orders| && After(start, ops).orders[k].status == Completed
    ensures var s := After(start, ops);
      Reported(s.issues, briefingType, Draft(FromOrder(k), CompletedLane)) <==>
      Due(s.issues, briefingType, s.orders[k].updatedAt, s.orders[k].after)
  {
    ReachableStatesAreSound(start, ops);
    assert OrderOk(After(start, ops), k);
  }

  /** An issue of the type was published at t or before. */
  ghost predicate IssuedBy(issues: seq<Issue>, briefingType: string, t: Time) {
    exists i :: 0 <= i < |issues| && issues[i].key.briefingType == briefingType && issues[i].publishedAt <= t
  }

  ghost predicate IssuedAfter(issues: seq<Issue>, briefingType: string, after: nat) {
    exists j :: after <= j < |issues| && issues[j].key.briefingType == briefingType
  }

  lemma DueIffIssuedAfter(issues: seq<Issue>, briefingType: string, t: Time, after: nat)
    requires Timed(issues, t, after) && IssuedBy(issues, briefingType, t)
    ensures Due(issues, briefingType, t, after) <==> IssuedAfter(issues, briefingType, after)
  {
    var i :| 0 <= i < |issues| && issues[i].key.briefingType == briefingType && issues[i].publishedAt <= t;
    if i < after {
      assert Earlier(issues, briefingType, after);
    } else {
      assert t >= issues[i].publishedAt - DAY;
    }
  }

  /**
   Once a type has been issued, a receipt is reported in some issue of the type if and only if one
   is issued at a later step, in the same millisecond or not.
   */
  lemma ReceiptReportedIffIssuedAfter(start: Time, ops: seq<Op>, briefingType: string, k: nat)
    requires k < |After(start, ops).receipts| && After(start, ops).receipts[k].kind != StateTransitioned
    requires IssuedBy(After(start, ops).issues, briefingType, After(start, ops).receipts[k].createdAt)
    ensures var s := After(start, ops);
      Reported(s.issues, briefingType, ReceiptDraft(s.receipts, k)) <==>
      IssuedAfter(s.issues, briefingType, s.receipts[k].after)
  {
    var s := After(start, ops);
    ReceiptReportedIff(start, ops, briefingType, k);
    ReachableStatesAreSound(start, ops);
    assert ReceiptOk(s, k);
    DueIffIssuedAfter(s.issues, briefingType, s.receipts[k].createdAt, s.receipts[k].after);
  }

  lemma CompletionReportedIffIssuedAfter(start: Time, ops: seq<Op>, briefingType: string, k: nat)
    requires k < |After(start, ops).orders| && After(start, ops).orders[k].status == Completed
    requires IssuedBy(After(start, ops).issues, briefingType, After(start, ops).orders[k].updatedAt)
    ensures var s := After(start, ops);
      Reported(s.issues, briefingType, Draft(FromOrder(k), CompletedLane)) <==>
      IssuedAfter(s.issues, briefingType, s.orders[k].after)
  {
    var s := After(start, ops);
    CompletionReportedIff(start, ops, briefingType, k);
    ReachableStatesAreSound(start, ops);
    assert OrderOk(s, k);
    DueIffIssuedAfter(s.issues, briefingType, s.orders[k].updatedAt, s.orders[k].after);
  }

  /** Some issue of the type was published at or before t, and some strictly after it. */
  ghost predicate Between(issues: seq<Issue>, briefingType: string, t: Time) {
    && IssuedBy(issues, briefingType, t)
    && exists j :: 0 <= j < |issues| && issues[j].key.briefingType == briefingType && t < issues[j].publishedAt
  }

  /** By the clock alone: nothing falls between two issues of a type. */
  lemma NothingFallsBetweenIssues(start: Time, ops: seq<Op>, briefingType: string, k: nat)
    ensures var s := After(start, ops);
      && (k < |s.receipts| && s.receipts[k].kind != StateTransitioned
        && Between(s.issues, briefingType, s.receipts[k].createdAt)
        ==> Reported(s.issues, briefingType, ReceiptDraft(s.receipts, k)))
      && (k < |s.orders| && s.orders[k].status == Completed && Between(s.issues, briefingType, s.orders[k].updatedAt)
        ==> Reported(s.issues, briefingType, Draft(FromOrder(k), CompletedLane)))
  {
    var s := After(start, ops);
    ReachableStatesAreSound(start, ops);
    if k < |s.receipts| && s.receipts[k].kind != StateTransitioned
      && Between(s.issues, briefingType, s.receipts[k].createdAt) {
      assert ReceiptOk(s, k);
      ReceiptReportedIffIssuedAfter(start, ops, briefingType, k);
    }
    if k < |s.orders| && s.orders[k].status == Completed && Between(s.issues, briefingType, s.orders[k].updatedAt) {
      assert OrderOk(s, k);
      CompletionReportedIffIssuedAfter(start, ops, briefingType, k);
    }
  }

  lemma OneMore(start: Time, ops: seq<Op>, op: Op)
    ensures After(start, ops + [op]) == Step(After(start, ops), op)
  {
    assert (ops + [op])[..|ops|] == ops;
  }

  /** Two issues of the type and then a receipt, all in one millisecond. */
  ghost predicate OneMillisecond(s: State, briefingType: string) {
    && |s.issues| == 2 && s.issues[0].key.briefingType == s.issues[1].key.briefingType == briefingType
    && |s.receipts| == 1 && s.receipts[0].kind == OtherReceipt && s.receipts[0].after == 2
    && s.issues[0].publishedAt == s.receipts[0].createdAt == s.issues[1].publishedAt
  }

  /** The keys issued so far, all at the start of the clock, before any receipt. */
  ghost predicate JustIssued(s: State, keys: seq<IssueKey>) {
    && s.clock == 0 && s.receipts == [] && |s.issues| == |keys|
    && forall i :: 0 <= i < |keys| ==> s.issues[i].key == keys[i] && s.issues[i].publishedAt == 0
  }

  lemma NextIssued(s: State, keys: seq<IssueKey>, key: IssueKey)
    requires JustIssued(s, keys) && key !in keys
    ensures JustIssued(IssueStep(s, key), keys + [key])
  {
    var issues' := s.issues + [NewIssue(s, key)];
    assert forall i :: 0 <= i < |keys| ==> keys[i] in keys;
    assert IssueStep(s, key).issues == issues';
    assert issues'[|keys|].key == key && issues'[|keys|].publishedAt == 0;
  }

  lemma IssueNext(ops: seq<Op>, keys: seq<IssueKey>, key: IssueKey)
    requires JustIssued(After(0, ops), keys) && key !in keys
    ensures JustIssued(After(0, ops + [IssueOp(key)]), keys + [key])
  {
    OneMore(0, ops, IssueOp(key));
    NextIssued(After(0, ops), keys, key);
  }

  lemma IssueTwice(monday: IssueKey, tuesday: IssueKey) returns (ops: seq<Op>)
    requires monday != tuesday && monday.briefingType == tuesday.briefingType
    ensures OneMillisecond(After(0, ops), monday.briefingType)
  {
    IssueNext([], [], monday);
    IssueNext([] + [IssueOp(monday)], [] + [monday], tuesday);
    ops := [] + [IssueOp(monday)] + [IssueOp(tuesday)];
    OneMore(0, ops, AddReceipt(OtherReceipt));
    ops := ops + [AddReceipt(OtherReceipt)];
  }

  /** In the millisecond of the latest issue, after it: a receipt between two issues that none reports. */
  lemma SameMillisecondIsMissed() returns (ops: seq<Op>)
    ensures OneMillisecond(After(0, ops), "daily")
    ensures !Reported(After(0, ops).issues, "daily", ReceiptDraft(After(0, ops).receipts, 0))
  {
    var monday, tuesday := IssueKey("daily", "2024-01-01", "UTC"), IssueKey("daily", "2024-01-02", "UTC");
    assert monday.date[9] != tuesday.date[9];
    ops := IssueTwice(monday, tuesday);
    ReceiptReportedIff(0, ops, "daily", 0);
  }
}
