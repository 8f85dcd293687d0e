/**
 issueBriefing on rows updated in place: insert the issue, look up what each draft is carried from,
 push the entries, publish.
 */
module BriefingStore {
  import opened Options
  import opened Briefing
  import opened BriefingEffects

  class Store {
    var directives: seq<bool>
    var orders: seq<Order>
    var receipts: seq<Receipt>
    var candidates: seq<bool>
    var issues: seq<Issue>

    ghost function View(now: Time): State
      reads this
    {
      State(now, directives, orders, receipts, candidates, issues)
    }

    constructor ()
      ensures View(0) == After(0, [])
    {
      directives, orders, receipts, candidates, issues := [], [], [], [], [];
    }

    method FindIssue(key: IssueKey) returns (found: Option<nat>)
      ensures found.None? <==> !Issued(issues, key)
      ensures found.Some? ==> found.value < |issues| && issues[found.value].key == key
    {
      for i := 0 to |issues|
        invariant forall k :: 0 <= k < i ==> issues[k].key != key
      {
        if issues[i].key == key {
          return Some(i);
        }
      }
      return None;
    }

    /** The current issue is not among the issues searched. */
    method FindCarriedFromIssue(source: Source) returns (from: Option<nat>)
      ensures from == CarriedFrom(issues, source, |issues|)
    {
      from := None;
      for i := 0 to |issues|
        invariant from == CarriedFrom(issues, source, i)
      {
        if HoldsActive(issues[i], source) && (from.None? || issues[from.value].publishedAt <= issues[i].publishedAt) {
          from := Some(i);
        }
      }
    }

    method AssembleEntries(drafts: seq<Draft>) returns (entries: seq<Entry>)
      ensures entries == Entries(issues, drafts)
    {
      var carried: seq<Option<nat>> := [];
      for i := 0 to |drafts|
        invariant |carried| == i
        invariant forall k :: 0 <= k < i ==> carried[k] == CarriedFrom(issues, drafts[k].source, |issues|)
      {
        var from := FindCarriedFromIssue(drafts[i].source);
        carried := carried + [from];
      }
      entries := [];
      for i := 0 to |drafts|
        invariant entries == Entries(issues, drafts[..i])
      {
        assert drafts[..i + 1][..i] == drafts[..i];
        entries := entries + [Entry(drafts[i].source, drafts[i].lane, true, carried[i] == None, carried[i])];
      }
      assert drafts[..|drafts|] == drafts;
    }

    /** Issues once per key; a repeated call returns the stored issue and changes nothing. */
    method IssueBriefing(key: IssueKey, now: Time) returns (issue: nat, alreadyIssued: bool)
      requires Inv(View(now))
      modifies this`issues
      ensures View(now) == IssueStep(old(View(now)), key) && Inv(View(now))
      ensures IssuedOnce(old(View(now)), View(now), key)
      ensures alreadyIssued <==> exists i :: 0 <= i < |old(issues)| && old(issues)[i].key == key
      ensures issue < |issues| && issues[issue].key == key && (!alreadyIssued ==> issue == |old(issues)|)
    {
      IssueStepIsExact(View(now), key);
      var found := FindIssue(key);
      if found.Some? {
        return found.value, true;
      }
      IssueKeeps(View(now), key);
      var since := Since(issues, key.briefingType, now);
      var drafts := DirectiveDrafts(directives, |directives|)
        + OrderDrafts(orders, since, |orders|)
        + EvidenceDrafts(receipts, since, |receipts|)
        + CandidateDrafts(candidates, |candidates|)
        + SkipDrafts(receipts, since, |receipts|);
      var entries := AssembleEntries(drafts);
      issues := issues + [Issue(key, now, entries)];
      return |issues| - 1, false;
    }
  }
}
