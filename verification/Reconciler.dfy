/** `reconcile` and its final checks (scripts/fls_audit_issue_lib/reconcile.py, lines 379-552), and every history of
    runs that may stop anywhere. */
module Reconciler {
  import opened Strings
  import opened Json
  import opened AuditState
  import opened AuditItems
  import opened AuditMarks
  import opened AuditRender
  import opened AuditLog
  import opened GitHub
  import opened AuditStore
  import opened AuditTarget
  import opened CampaignIssue
  import opened Campaigns
  import opened AuditReports

  const VERIFICATIONS: nat := 3

  // ----- verify_reconciliation -----

  /** What has to be visible after a run. */
  datatype Expectation = Expectation(campaign: string, number: Option<nat>, state: Option<State>, title: string,
                                     prefix: string, tag: string, drift: bool)

  /** The issue shows the expected state, identity and status. */
  predicate Expected(i: Issue, e: Expectation, limits: Limits) {
    e.state.Some? && StateOf(i, limits) == e.state && HasIdentity(i, e.title, e.tag) && i.open == e.drift
  }

  /** No audit issue but those of the campaign is open, and the issue of the campaign is as expected. */
  predicate Verified(issues: seq<Issue>, e: Expectation, limits: Limits) {
    && (forall n | 0 <= n < |issues| && IsAudit(issues[n], e.prefix, limits) && issues[n].open ::
          Claims(issues[n], e.campaign, limits))
    && match e.number
       case None => forall n | 0 <= n < |issues| :: !Claims(issues[n], e.campaign, limits)
       case Some(number) => number < |issues| && Expected(issues[number], e, limits)
  }

  predicate Lingers(x: Listed, campaign: string) {
    x.issue.open && (x.state.None? || x.state.value.campaign != campaign)
  }

  predicate ExpectedEntry(x: Listed, e: Expectation) {
    e.number == Some(x.number) && e.state.Some? && x.state == e.state && HasIdentity(x.issue, e.title, e.tag) &&
    x.issue.open == e.drift
  }

  /** The checks on a listing. */
  predicate Passes(l: seq<Listed>, e: Expectation) {
    && (forall j | 0 <= j < |l| :: !Lingers(l[j], e.campaign))
    && match e.number
       case None => forall j | 0 <= j < |l| :: !Names(l[j], e.campaign)
       case Some(_) => exists j | 0 <= j < |l| :: ExpectedEntry(l[j], e)
  }

  /** Checking the listing is checking the store. */
  lemma PassesMeaning(l: seq<Listed>, issues: seq<Issue>, e: Expectation, limits: Limits)
    requires Lists(l, issues, e.prefix, limits)
    ensures Passes(l, e) <==> Verified(issues, e, limits)
  {
    hide StateOf;
    hide Eligible;
    if Passes(l, e) { PassesOnly(l, issues, e, limits); }
    if Verified(issues, e, limits) { VerifiedPasses(l, issues, e, limits); }
  }

  lemma PassesOnly(l: seq<Listed>, issues: seq<Issue>, e: Expectation, limits: Limits)
    requires Lists(l, issues, e.prefix, limits) && Passes(l, e)
    ensures Verified(issues, e, limits)
  {
    hide StateOf;
    hide Eligible;
    forall n | 0 <= n < |issues| && IsAudit(issues[n], e.prefix, limits)
      ensures issues[n].open ==> Claims(issues[n], e.campaign, limits)
      ensures e.number.None? ==> !Claims(issues[n], e.campaign, limits)
    {
      var j :| 0 <= j < |l| && l[j].number == n;
      assert IsEntry(l[j], issues, e.prefix, limits) && !Lingers(l[j], e.campaign);
    }
    if e.number.Some? {
      var j :| 0 <= j < |l| && ExpectedEntry(l[j], e);
      assert IsEntry(l[j], issues, e.prefix, limits);
    }
  }

  lemma VerifiedPasses(l: seq<Listed>, issues: seq<Issue>, e: Expectation, limits: Limits)
    requires Lists(l, issues, e.prefix, limits) && Verified(issues, e, limits)
    ensures Passes(l, e)
  {
    hide StateOf;
    hide Eligible;
    forall j | 0 <= j < |l| ensures !Lingers(l[j], e.campaign) && (e.number.None? ==> !Names(l[j], e.campaign)) {
      assert IsEntry(l[j], issues, e.prefix, limits);
    }
    if e.number.Some? {
      var n := e.number.value;
      assert IsAudit(issues[n], e.prefix, limits);
      var j :| 0 <= j < |l| && l[j].number == n;
      assert IsEntry(l[j], issues, e.prefix, limits) && ExpectedEntry(l[j], e);
    }
  }

  method VerifyOnce(c: Client, e: Expectation, limits: Limits) returns (r: Reply<()>)
    requires StoreInv(c.issues, limits)
    ensures r.Done? ==> Verified(c.issues, e, limits)
    ensures r.Raised? ==> r.error in {Unavailable, Unverified}
    ensures c.reliable && Verified(c.issues, e, limits) ==> r.Done?
  {
    hide StateOf;
    hide Sound;
    hide Verified;
    var read := c.Issues();
    if !read.Done? { return read.PropagateFailure(); }
    var listed := AuditIssues(read.value, e.prefix, limits);
    ListingLists(read.value, e.prefix, limits);
    FindsCampaign(listed.value, read.value, e.campaign, e.prefix, limits);
    PassesMeaning(listed.value, read.value, e, limits);
    var found := FindCampaign(listed.value, e.campaign);
    r := if found.Ok? && Passes(listed.value, e) then Done(()) else Raised(Unverified);
  }

  /** The comments of the expected issue are exactly the log of its state. */
  ghost predicate HistoryShown(i: Issue, s: State, limits: Limits) {
    CommentMarkersOf(i.comments, limits).Ok? &&
    exists log :: HistoryMatches(s, CommentMarkersOf(i.comments, limits).value, log)
  }

  ghost predicate ShowsHistory(issues: seq<Issue>, e: Expectation, limits: Limits)
    requires e.number.Some? ==> e.number.value < |issues| && e.state.Some?
  {
    e.number.Some? ==> HistoryShown(issues[e.number.value], e.state.value, limits)
  }

  method VerifyReconciliation(c: Client, e: Expectation, limits: Limits) returns (r: Reply<()>)
    requires StoreInv(c.issues, limits)
    requires e.number.Some? ==> e.number.value < |c.issues| && e.state.Some? && ValidState(e.state.value)
    ensures r.Done? ==> Verified(c.issues, e, limits)
    ensures r.Done? && e.number.Some? ==> HistoryShown(c.issues[e.number.value], e.state.value, limits)
    ensures Verified(c.issues, e, limits) && ShowsHistory(c.issues, e, limits) && r.Raised? ==>
      r.error in {Unavailable, Unverified}
    ensures c.reliable && Verified(c.issues, e, limits) && ShowsHistory(c.issues, e, limits) ==> r.Done?
  {
    hide StoreInv;
    hide Verified;
    hide ValidState;
    hide CommentMarkersOf;
    r := Raised(Unverified);
    var attempt := 0;
    while attempt < VERIFICATIONS && r.Raised?
      invariant attempt == 0 ==> r.Raised?
      invariant r.Done? ==> Verified(c.issues, e, limits)
      invariant r.Raised? ==> r.error in {Unavailable, Unverified}
      invariant attempt > 0 && c.reliable && Verified(c.issues, e, limits) ==> r.Done?
      decreases VERIFICATIONS - attempt
    {
      attempt := attempt + 1;
      r := VerifyOnce(c, e, limits);
    }
    if !r.Done? || e.number.None? { return; }
    r := Raised(Unverified);
    attempt := 0;
    while attempt < VERIFICATIONS && r.Raised?
      invariant attempt == 0 ==> r.Raised?
      invariant r.Done? ==> HistoryShown(c.issues[e.number.value], e.state.value, limits)
      invariant HistoryShown(c.issues[e.number.value], e.state.value, limits) && r.Raised? ==>
        r.error in {Unavailable, Unverified}
      invariant attempt > 0 && c.reliable && HistoryShown(c.issues[e.number.value], e.state.value, limits) ==> r.Done?
      decreases VERIFICATIONS - attempt
    {
      attempt := attempt + 1;
      var read := c.Comments(e.number.value);
      if read.Died? { return Died; }
      if read.Done? {
        var checked := VerifyCommentHistory(e.state.value, read.value, limits);
        r := AsReply(checked);
      } else {
        r := Raised(Unavailable);
      }
    }
  }

  // ----- The issue of the current campaign -----

  function NewState(campaign: string, current: Applied): State { State(campaign, 0, current.semanticDigest, current) }

  /** The issue with its state, as the run holds it. */
  datatype Held = Held(number: nat, issue: Issue, state: State)

  ghost predicate Holds(issues: seq<Issue>, h: Held, campaign: string, limits: Limits) {
    h.number < |issues| && issues[h.number] == h.issue && StateOf(h.issue, limits) == Some(h.state) &&
      h.state.campaign == campaign
  }

  /** Everything but the issues of the campaign is as it was; at most one issue was added, for the campaign. */
  ghost predicate TouchesOnly(before: seq<Issue>, after: seq<Issue>, campaign: string, limits: Limits) {
    && |before| <= |after| <= |before| + 1
    && (forall n :: 0 <= n < |before| && !Claims(before[n], campaign, limits) ==> after[n] == before[n])
    && (|after| > |before| ==> Claims(after[|before|], campaign, limits) && NobodyClaims(before, campaign, limits))
  }

  /** Lines 504-510: bring title and label up to date, and reopen the issue when there is drift again. */
  method RefreshCampaign(c: Client, h: Held, title: string, tag: string, drift: bool, limits: Limits)
    returns (r: Reply<(Issue, bool)>)
    requires StoreInv(c.issues, limits) && Holds(c.issues, h, h.state.campaign, limits)
    modifies c`issues
    ensures Kept(old(c.issues), c.issues, limits) && OnlyAt(old(c.issues), c.issues, h.number)
    ensures StateOf(c.issues[h.number], limits) == Some(h.state)
    ensures c.issues[h.number].(title := h.issue.title, labels := h.issue.labels, open := h.issue.open) == h.issue
    ensures h.issue.labels <= c.issues[h.number].labels <= h.issue.labels + {tag}
    ensures r.Done? ==> r.value.0 == c.issues[h.number] && HasIdentity(r.value.0, title, tag)
    ensures r.Done? ==> r.value.0.open == (h.issue.open || drift)
    ensures r.Done? && !r.value.1 ==> c.issues == old(c.issues)
    ensures HasIdentity(h.issue, title, tag) && (drift ==> h.issue.open) ==>
      c.issues == old(c.issues) && (r.Done? ==> !r.value.1)
    ensures r.Raised? ==> r.error == Unavailable
    ensures c.reliable ==> r.Done?
  {
    hide StoreInv;
    hide StateOf;
    hide StoreGrows;
    var refreshed := RefreshIdentity(c, h.number, h.issue, title, tag, h.state, limits);
    if !refreshed.Done? { return refreshed; }
    var issue, changed := refreshed.value.0, refreshed.value.1;
    if !issue.open && drift {
      ghost var between := c.issues;
      GrowsReflexive(c.issues, limits);
      IdentityStep(c.issues, h.number, h.state, Patch(None, None, None, Some(true)), limits);
      var reopened := c.PatchIssue(h.number, Patch(None, None, None, Some(true)));
      KeptTransitive(old(c.issues), between, c.issues, limits);
      if !reopened.Done? { return reopened.PropagateFailure(); }
      return Done((reopened.value, true));
    }
    return Done((issue, changed));
  }

  lemma FirstBody(texts: Texts, s: State, limits: Limits)
    requires CleanTexts(texts) && ValidState(s) && CleanApplied(s.applied)
    ensures var b := ManagedBody("", texts, s, limits);
            && (b.Err? ==> b.error == TooLarge)
            && (b.Ok? ==> Carries(b.value, s) && Utf8Size(b.value) <= limits.issueBody)
  {
    hide ManagedBody;
    hide CleanTexts;
    hide Carries;
    assert Renderable("");
    ManagedBodyFails("", texts, s, limits);
    RenderedSize("", texts, s, limits);
    if ManagedBody("", texts, s, limits).Ok? { ManagedBodyCarries("", texts, s, limits); }
  }

  /** Lines 511-517: open an issue for a campaign with drift that has none. */
  method CreateCampaign(c: Client, campaign: string, title: string, tag: string, prefix: string, texts: Texts,
                        current: Applied, limits: Limits)
    returns (r: Reply<Held>)
    requires StoreInv(c.issues, limits) && NobodyClaims(c.issues, campaign, limits)
    requires IsDigest(campaign) && CleanRun(texts, current)
    modifies c`issues
    ensures Kept(old(c.issues), c.issues, limits) && TouchesOnly(old(c.issues), c.issues, campaign, limits)
    ensures r.Done? ==> Holds(c.issues, r.value, campaign, limits) && r.value.state == NewState(campaign, current)
    ensures r.Done? ==> HasIdentity(r.value.issue, title, tag) && r.value.issue.open && r.value.issue.comments == []
    ensures r.Done? ==> ValidApplied(current)
    ensures r.Done? ==> ManagedBody("", texts, NewState(campaign, current), limits) == Ok(r.value.issue.body)
    ensures r.Raised? && r.error == TooLarge ==>
      c.issues == old(c.issues) && ManagedBody("", texts, NewState(campaign, current), limits).Err?
    ensures r.Raised? && r.error == Malformed ==> !ValidApplied(current)
    ensures r.Raised? ==> r.error in {TooLarge, Malformed, Unavailable}
    ensures c.reliable && r.Raised? ==> r.error != Unavailable
    ensures c.reliable ==> !r.Died?
  {
    hide StoreInv;
    hide StateOf;
    hide ManagedBody;
    hide CleanTexts;
    hide CleanApplied;
    hide ValidApplied;
    hide Carries;
    hide StoreGrows;
    GrowsReflexive(c.issues, limits);
    var made := MakeState(campaign, 0, current, "");
    if made.Err? { return Raised(made.error); }
    var state := made.value;
    assert state == NewState(campaign, current) && ValidState(state) by { ValidHasDigests(current); }
    FirstBody(texts, state, limits);
    var body := ManagedBody("", texts, state, limits);
    if body.Err? { return Raised(body.error); }
    ghost var newcomer := NewIssue(title, body.value, tag);
    NobodyMeans(c.issues, campaign, limits);
    CreateStep(c.issues, newcomer, state, limits);
    var created := CreateIssueSafely(c, title, body.value, tag, campaign, prefix, limits);
    if !created.Done? { return created.PropagateFailure(); }
    r := Done(Held(created.value.0, created.value.1, state));
  }

  lemma NobodyMeans(issues: seq<Issue>, campaign: string, limits: Limits)
    requires NobodyClaims(issues, campaign, limits)
    ensures forall n :: 0 <= n < |issues| && StateOf(issues[n], limits).Some? ==>
      StateOf(issues[n], limits).value.campaign != campaign
  {
    hide StateOf;
    forall n | 0 <= n < |issues| && StateOf(issues[n], limits).Some?
      ensures StateOf(issues[n], limits).value.campaign != campaign
    {
      assert !Claims(issues[n], campaign, limits);
    }
  }

  // ----- One issue brought up to date -----

  /** What has to be written for an issue of the campaign fits the limits. */
  ghost predicate IssueFits(i: Issue, texts: Texts, current: Applied, limits: Limits) {
    StateOf(i, limits).Some? ==>
      var s := StateOf(i, limits).value;
      forall log :: Logged(s, i.comments, limits, log) ==>
        s.sequence <= |log| && Fits(i, s, log, texts, current, limits)
  }

  lemma SameLog(s: State, comments: seq<Comment>, limits: Limits, a: seq<Applied>, b: seq<Applied>)
    requires History(s, comments, limits, a) && History(s, comments, limits, b)
    ensures a == b
  {
    hide CommentMarkersOf;
    LogUnique(s.campaign, s.origin, CommentMarkersOf(comments, limits).value, a, b);
  }

  /** On a settled issue a run has nothing to do. */
  lemma SettledIsAtTarget(i: Issue, s: State, log: seq<Applied>, campaign: string, run: Run, items: Items,
                          limits: Limits)
    requires Settled(i, campaign, run, items, limits) && StateOf(i, limits) == Some(s) &&
      History(s, i.comments, limits, log)
    ensures AtTarget(i, s, log, run.texts, MakeApplied(run, items), limits)
  {
    hide History;
    hide StateOf;
    hide Stable;
    hide Sha256Json;
    var other :| History(s, i.comments, limits, other) && |other| == s.sequence;
    SameLog(s, i.comments, limits, log, other);
    HistoryBound(s, i.comments, limits, log);
  }

  /** An issue at its target, with the right identity and status, is settled. */
  lemma TargetIsSettled(i: Issue, j: Issue, s: State, log: seq<Applied>, comments: seq<Comment>, campaign: string,
                        run: Run, items: Items, limits: Limits)
    requires AtTarget(i, s, log, run.texts, MakeApplied(run, items), limits)
    requires ValidState(s) && s.campaign == campaign && History(s, comments, limits, log)
    requires CleanApplied(MakeApplied(run, items))
    requires StateOf(j, limits) == StateOf(i, limits) && j.body == i.body && j.comments == i.comments
    requires HasIdentity(j, ExpectedTitle(run.prefix, campaign), run.tag) && (j.open <==> items != map[])
    ensures Settled(j, campaign, run, items, limits)
  {
    hide StateOf;
    hide Stable;
    hide Sha256Json;
    hide CleanApplied;
    hide CommentMarkersOf;
    hide LogOf;
    var current := MakeApplied(run, items);
    ReplayedHistory(s, comments, limits, log);
    var t := Target(s, log, current);
    assert History(t, j.comments, limits, TargetLog(s, log, current));
  }

  /** Lines 519-526: reconcile the issue of the campaign, and close it when there is no drift. */
  method UpdateCampaign(c: Client, h: Held, campaign: string, run: Run, items: Items, current: Applied, limits: Limits)
    returns (r: Reply<(Issue, State, bool)>)
    requires StoreInv(c.issues, limits) && Holds(c.issues, h, campaign, limits)
    requires current == MakeApplied(run, items) && CleanRun(run.texts, current)
    requires HasIdentity(h.issue, ExpectedTitle(run.prefix, campaign), run.tag) && (items != map[] ==> h.issue.open)
    modifies c`issues
    ensures Kept(old(c.issues), c.issues, limits) && OnlyAt(old(c.issues), c.issues, h.number)
    ensures StateOf(c.issues[h.number], limits).Some?
    ensures c.issues[h.number].title == h.issue.title && c.issues[h.number].labels == h.issue.labels
    ensures r.Done? ==> r.value.0 == c.issues[h.number] && StateOf(r.value.0, limits) == Some(r.value.1)
    ensures r.Done? ==> Settled(c.issues[h.number], campaign, run, items, limits)
    ensures r.Done? ==> r.value.1.applied == current || r.value.1 == h.state
    ensures r.Done? && !r.value.2 ==> c.issues == old(c.issues)
    ensures Settled(h.issue, campaign, run, items, limits) ==> c.issues == old(c.issues) && (r.Done? ==> !r.value.2)
    ensures r.Raised? && r.error == TooLarge ==>
      c.issues == old(c.issues) && !IssueFits(h.issue, run.texts, current, limits)
    ensures Settled(h.issue, campaign, run, items, limits) && r.Raised? ==> r.error == Unavailable
    ensures r.Raised? && r.error == Malformed ==> !ValidApplied(current)
    ensures r.Raised? ==> r.error in {TooLarge, Malformed, Unavailable}
    ensures c.reliable && r.Raised? ==> r.error != Unavailable
    ensures c.reliable ==> !r.Died?
  {
    hide StoreInv;
    hide StateOf;
    hide StoreGrows;
    hide History;
    hide AtTarget;
    hide Settled;
    hide CleanTexts;
    hide CleanApplied;
    hide ValidApplied;
    hide Fits;
    hide Sha256Json;
    ghost var log := SomeLog(c.issues, h.number, h.state, limits);
    LoggedCases(h.state, h.issue.comments, limits, log);
    StateIsValid(h.issue, limits);
    if Settled(h.issue, campaign, run, items, limits) {
      SettledReads(h.issue, campaign, run, items, limits);
      SettledIsAtTarget(h.issue, h.state, log, campaign, run, items, limits);
      SettledStatus(h.issue, campaign, run, items, limits);
      AtTargetState(h.issue, h.state, log, run.texts, current, limits);
      SettledFits(h.issue, campaign, run, items, limits);
      FitsAt(h.issue, h.state, log, run.texts, current, limits);
    }
    r := ReconcileCampaign(c, h.number, h.issue, h.state, log, run.texts, current, limits);
    if !r.Done? { return; }
    var issue, state, changed := r.value.0, r.value.1, r.value.2;
    TargetRecords(h.state, log, current);
    AtTargetState(issue, h.state, log, run.texts, current, limits);
    if items == map[] && issue.open {
      ghost var between := c.issues;
      GrowsReflexive(c.issues, limits);
      IdentityStep(c.issues, h.number, state, Patch(None, None, None, Some(false)), limits);
      var closed := c.PatchIssue(h.number, Patch(None, None, None, Some(false)));
      KeptTransitive(old(c.issues), between, c.issues, limits);
      if !closed.Done? { return closed.PropagateFailure(); }
      TargetIsSettled(issue, closed.value, h.state, log, h.issue.comments, campaign, run, items, limits);
      return Done((closed.value, state, true));
    }
    TargetIsSettled(issue, issue, h.state, log, h.issue.comments, campaign, run, items, limits);
    r := Done((issue, state, changed));
  }

  lemma SettledStatus(i: Issue, campaign: string, run: Run, items: Items, limits: Limits)
    requires Settled(i, campaign, run, items, limits)
    ensures HasIdentity(i, ExpectedTitle(run.prefix, campaign), run.tag) && (i.open <==> items != map[])
    ensures Claims(i, campaign, limits)
  {
    hide StateOf;
    hide Stable;
    hide History;
  }

  lemma FitsAt(i: Issue, s: State, log: seq<Applied>, texts: Texts, current: Applied, limits: Limits)
    requires IssueFits(i, texts, current, limits) && StateOf(i, limits) == Some(s) && Logged(s, i.comments, limits, log)
    ensures s.sequence <= |log| && Fits(i, s, log, texts, current, limits)
  {
    hide StateOf;
    hide Fits;
    hide Logged;
  }

  lemma SettledReads(i: Issue, campaign: string, run: Run, items: Items, limits: Limits)
    requires Settled(i, campaign, run, items, limits)
    ensures Readable(i.comments, limits)
  {
    hide StateOf;
    hide Stable;
    hide History;
    hide Sha256Json;
    var s := StateOf(i, limits).value;
    var log :| History(s, i.comments, limits, log) && |log| == s.sequence;
    HistoryReads(s, i.comments, limits, log);
  }

  lemma AtTargetState(i: Issue, s: State, log: seq<Applied>, texts: Texts, current: Applied, limits: Limits)
    requires AtTarget(i, s, log, texts, current, limits)
    ensures s.sequence <= |log| && StateOf(i, limits) == Some(Target(s, log, current))
  {
    hide StateOf;
    hide Stable;
    hide History;
  }

  // ----- reconcile -----

  ghost predicate NoDamage(issues: seq<Issue>, prefix: string, limits: Limits) {
    forall n :: 0 <= n < |issues| ==> !IsDamaged(issues[n], prefix, limits)
  }

  /** Everything the run has to write for its campaign is within the limits, and the comments that it has to read are.
      */
  ghost predicate RunFits(issues: seq<Issue>, campaign: string, run: Run, items: Items, limits: Limits) {
    && !OthersStuck(issues, campaign, limits)
    && (forall n :: 0 <= n < |issues| && Claims(issues[n], campaign, limits) ==>
          IssueFits(issues[n], run.texts, MakeApplied(run, items), limits))
    && (items != map[] && NobodyClaims(issues, campaign, limits) ==>
          ManagedBody("", run.texts, NewState(campaign, MakeApplied(run, items)), limits).Ok?)
  }

  /** Every announcement that this campaign supersedes another fits into a comment, or has been posted already. */
  ghost predicate Announceable(issues: seq<Issue>, campaign: string, texts: Texts, limits: Limits) {
    forall n :: 0 <= n < |issues| ==> !Oversized(issues[n], campaign, texts, limits)
  }

  /** Where only oversized announcements block comments and all were made, all comments stay readable if and only if
      every announcement fits or was there before. */
  lemma ReadableExactly(before: seq<Issue>, after: seq<Issue>, campaign: string, texts: Texts, limits: Limits)
    requires Moved(before, after, limits) && BlocksOnly(before, after, campaign, texts, limits)
    ensures Announceable(before, campaign, texts, limits) ==> Kept(before, after, limits)
    ensures AllAnnounced(before, after, campaign, texts, limits) && Kept(before, after, limits) ==>
      Announceable(before, campaign, texts, limits)
  {
    hide StateOf;
    hide StoreInv;
    hide Readable;
    hide Postable;
    if Announceable(before, campaign, texts, limits) {
      forall n | 0 <= n < |before| ensures IssueGrows(before[n], after[n], limits) {
        assert IssueMoves(before[n], after[n], limits);
        assert !Oversized(before[n], campaign, texts, limits);
      }
    }
    if AllAnnounced(before, after, campaign, texts, limits) && Kept(before, after, limits) {
      forall n | 0 <= n < |before| ensures !Oversized(before[n], campaign, texts, limits) {
        assert IssueGrows(before[n], after[n], limits);
      }
    }
  }

  lemma FitsCarriesOver(i: Issue, j: Issue, texts: Texts, current: Applied, limits: Limits)
    requires StateOf(i, limits) == StateOf(j, limits) && i.body == j.body && i.comments == j.comments
    ensures IssueFits(i, texts, current, limits) <==> IssueFits(j, texts, current, limits)
  {
    hide StateOf;
    hide Logged;
    hide Readable;
    hide ManagedBody;
    hide TransitionComment;
  }

  /** What fits a new issue fits it again when it is rendered onto. */
  lemma CreatedFits(i: Issue, campaign: string, texts: Texts, current: Applied, limits: Limits)
    requires StateOf(i, limits) == Some(NewState(campaign, current)) && i.comments == []
    requires CleanRun(texts, current) && ManagedBody("", texts, NewState(campaign, current), limits) == Ok(i.body)
    ensures IssueFits(i, texts, current, limits)
  {
    hide StateOf;
    hide ManagedBody;
    hide CleanTexts;
    hide CleanApplied;
    var s := NewState(campaign, current);
    StateIsValid(i, limits);
    ManagedBodyFixedPoint("", texts, s, limits);
    EmptyHistory(s, limits);
    HistoryReads(s, [], limits, []);
    hide History;
    hide Logged;
    hide Readable;
    forall log | Logged(s, i.comments, limits, log)
      ensures s.sequence <= |log| && Fits(i, s, log, texts, current, limits)
    {
      LoggedCases(s, [], limits, log);
      SameLog(s, [], limits, log, []);
    }
  }

  /** On a settled issue everything fits. */
  lemma SettledFits(i: Issue, campaign: string, run: Run, items: Items, limits: Limits)
    requires Settled(i, campaign, run, items, limits)
    ensures IssueFits(i, run.texts, MakeApplied(run, items), limits)
  {
    hide StateOf;
    hide ManagedBody;
    hide ComparableBody;
    hide Sha256Json;
    SettledReads(i, campaign, run, items, limits);
    hide Readable;
    hide Logged;
    hide Settled;
    hide History;
    var s := StateOf(i, limits).value;
    forall log | Logged(s, i.comments, limits, log)
      ensures s.sequence <= |log| && Fits(i, s, log, run.texts, MakeApplied(run, items), limits)
    {
      LoggedCases(s, i.comments, limits, log);
      SettledIsAtTarget(i, s, log, campaign, run, items, limits);
    }
  }

  lemma OnlyOneTouched(a: seq<Issue>, b: seq<Issue>, n: nat, campaign: string, limits: Limits)
    requires OnlyAt(a, b, n) && n < |a| && Claims(a[n], campaign, limits)
    ensures TouchesOnly(a, b, campaign, limits)
  {
    hide StateOf;
  }

  lemma TouchesThen(a: seq<Issue>, b: seq<Issue>, c: seq<Issue>, n: nat, campaign: string, limits: Limits)
    requires TouchesOnly(a, b, campaign, limits) && OnlyAt(b, c, n) && n < |b|
    requires Claims(b[n], campaign, limits) && Claims(c[n], campaign, limits)
    ensures TouchesOnly(a, c, campaign, limits)
  {
    hide StateOf;
  }

  lemma StaysClaimed(a: seq<Issue>, b: seq<Issue>, n: nat, campaign: string, limits: Limits)
    requires StoreMoves(a, b, limits) && n < |a|
    ensures Claims(a[n], campaign, limits) ==> Claims(b[n], campaign, limits)
    ensures ClaimsOther(a[n], campaign, limits) ==> ClaimsOther(b[n], campaign, limits)
    ensures StateOf(a[n], limits).None? ==> a[n] == b[n]
  {
    hide StateOf;
    assert IssueMoves(a[n], b[n], limits);
  }

  /** The issue that `find_campaign` found in the store. */
  ghost predicate Found(issues: seq<Issue>, found: Option<Listed>, campaign: string, limits: Limits) {
    match found
    case None => NobodyClaims(issues, campaign, limits)
    case Some(x) =>
      && x.number < |issues| && x.issue == issues[x.number] && x.state == StateOf(x.issue, limits)
      && Claims(x.issue, campaign, limits)
  }

  /** The state of the issue that was found, or that of a new issue. */
  predicate StartsFrom(h: Held, found: Option<Listed>, current: Applied) {
    match found
    case None => h.state.applied == current
    case Some(x) => h.number == x.number && x.state == Some(h.state)
  }

  /** The state is recorded for this report, or it is the one that was found. */
  predicate RecordedFrom(h: Held, found: Option<Listed>, current: Applied) {
    (h.state.applied == current || (found.Some? && found.value.state == Some(h.state))) &&
    (found.Some? ==> h.number == found.value.number)
  }

  /** Lines 504-517: refresh the issue of the campaign, or open one when there is drift. */
  method EnsureCampaign(c: Client, found: Option<Listed>, campaign: string, run: Run, items: Items, current: Applied,
                        limits: Limits)
    returns (r: Reply<(Option<Held>, bool)>)
    requires StoreInv(c.issues, limits) && Found(c.issues, found, campaign, limits)
    requires IsDigest(campaign) && current == MakeApplied(run, items) && CleanRun(run.texts, current)
    modifies c`issues
    ensures Kept(old(c.issues), c.issues, limits) && TouchesOnly(old(c.issues), c.issues, campaign, limits)
    ensures |c.issues| <= |old(c.issues)| + (if items == map[] then 0 else 1)
    ensures r.Done? && r.value.0.None? ==> found.None? && items == map[] && c.issues == old(c.issues) && !r.value.1
    ensures r.Done? && r.value.0.Some? ==>
      && Holds(c.issues, r.value.0.value, campaign, limits)
      && HasIdentity(r.value.0.value.issue, ExpectedTitle(run.prefix, campaign), run.tag)
      && StartsFrom(r.value.0.value, found, current)
      && (items != map[] ==> r.value.0.value.issue.open)
      && (RunFits(old(c.issues), campaign, run, items, limits) ==>
          IssueFits(r.value.0.value.issue, run.texts, current, limits))
    ensures r.Done? && !r.value.1 ==> c.issues == old(c.issues)
    ensures found.None? && items == map[] ==> c.issues == old(c.issues) && (r.Done? ==> !r.value.1)
    ensures found.Some? && Settled(found.value.issue, campaign, run, items, limits) ==>
      c.issues == old(c.issues) &&
        (r.Done? ==> !r.value.1 && r.value.0.Some? && r.value.0.value.issue == found.value.issue)
    ensures found.Some? && r.Raised? ==> r.error == Unavailable
    ensures found.None? && items == map[] ==> r.Done?
    ensures r.Raised? && r.error == TooLarge ==> !RunFits(old(c.issues), campaign, run, items, limits)
    ensures r.Raised? && r.error == Malformed ==> !ValidApplied(current)
    ensures r.Raised? ==> r.error in {TooLarge, Malformed, Unavailable}
    ensures c.reliable && r.Raised? ==> r.error != Unavailable
    ensures c.reliable ==> !r.Died?
  {
    hide StoreInv;
    hide StateOf;
    hide StoreGrows;
    hide IssueFits;
    hide Settled;
    hide CleanTexts;
    hide CleanApplied;
    hide ValidApplied;
    hide ManagedBody;
    hide Sha256Json;
    GrowsReflexive(c.issues, limits);
    var title := ExpectedTitle(run.prefix, campaign);
    if found.Some? {
      var x := found.value;
      var h := Held(x.number, x.issue, x.state.value);
      if Settled(x.issue, campaign, run, items, limits) { SettledStatus(x.issue, campaign, run, items, limits); }
      var refreshed := RefreshCampaign(c, h, title, run.tag, items != map[], limits);
      OnlyOneTouched(old(c.issues), c.issues, x.number, campaign, limits);
      if !refreshed.Done? { return refreshed.PropagateFailure(); }
      FitsCarriesOver(x.issue, refreshed.value.0, run.texts, current, limits);
      return Done((Some(h.(issue := refreshed.value.0)), refreshed.value.1));
    }
    if items == map[] { return Done((None, false)); }
    var created := CreateCampaign(c, campaign, title, run.tag, run.prefix, run.texts, current, limits);
    if !created.Done? { return created.PropagateFailure(); }
    CreatedFits(created.value.issue, campaign, run.texts, current, limits);
    r := Done((Some(created.value), true));
  }

  /** Lines 504-526. */
  method BringUpToDate(c: Client, found: Option<Listed>, campaign: string, run: Run, items: Items, current: Applied,
                       limits: Limits)
    returns (r: Reply<(Option<Held>, bool)>)
    requires StoreInv(c.issues, limits) && Found(c.issues, found, campaign, limits)
    requires IsDigest(campaign) && current == MakeApplied(run, items) && CleanRun(run.texts, current)
    modifies c`issues
    ensures Kept(old(c.issues), c.issues, limits) && TouchesOnly(old(c.issues), c.issues, campaign, limits)
    ensures |c.issues| <= |old(c.issues)| + (if items == map[] then 0 else 1)
    ensures r.Done? && r.value.0.None? ==> found.None? && items == map[] && c.issues == old(c.issues)
    ensures r.Done? && r.value.0.Some? ==>
      Holds(c.issues, r.value.0.value, campaign, limits) && Settled(r.value.0.value.issue, campaign, run, items, limits)
    ensures r.Done? && r.value.0.Some? ==> RecordedFrom(r.value.0.value, found, current)
    ensures r.Done? && !r.value.1 ==> c.issues == old(c.issues)
    ensures found.None? && items == map[] ==> c.issues == old(c.issues) && (r.Done? ==> !r.value.1)
    ensures found.Some? && Settled(found.value.issue, campaign, run, items, limits) ==>
      c.issues == old(c.issues) && (r.Done? ==> !r.value.1)
    ensures found.Some? && Settled(found.value.issue, campaign, run, items, limits) && r.Raised? ==>
      r.error == Unavailable
    ensures found.None? && items == map[] ==> !r.Raised?
    ensures r.Raised? && r.error == TooLarge ==> !RunFits(old(c.issues), campaign, run, items, limits)
    ensures r.Raised? && r.error == Malformed ==> !ValidApplied(current)
    ensures r.Raised? ==> r.error in {TooLarge, Malformed, Unavailable}
    ensures c.reliable && r.Raised? ==> r.error != Unavailable
    ensures c.reliable ==> !r.Died?
  {
    hide StoreInv;
    hide StateOf;
    hide StoreGrows;
    hide IssueFits;
    hide RunFits;
    hide Settled;
    hide CleanTexts;
    hide CleanApplied;
    hide ValidApplied;
    hide Sha256Json;
    hide TouchesOnly;
    hide StoreMoves;
    r := EnsureCampaign(c, found, campaign, run, items, current, limits);
    if !r.Done? || r.value.0.None? { return; }
    ghost var between := c.issues;
    var h, changed := r.value.0.value, r.value.1;
    var updated := UpdateCampaign(c, h, campaign, run, items, current, limits);
    KeptTransitive(old(c.issues), between, c.issues, limits);
    KeptIsMoved(between, c.issues, limits);
    StaysClaimed(between, c.issues, h.number, campaign, limits);
    TouchesThen(old(c.issues), between, c.issues, h.number, campaign, limits);
    if !updated.Done? { return updated.PropagateFailure(); }
    r := Done((Some(Held(h.number, updated.value.0, updated.value.1)), changed || updated.value.2));
  }

  lemma InitialListing(issues: seq<Issue>, l: seq<Listed>, campaign: string, run: Run, limits: Limits)
    requires StoreInv(issues, limits) && Listing(issues, run.prefix, limits) == Ok(l)
    ensures Lists(l, issues, run.prefix, limits) && FindCampaign(l, campaign).Ok?
    ensures Found(issues, FindCampaign(l, campaign).value, campaign, limits)
    ensures (exists j :: 0 <= j < |l| && l[j].state.None? && l[j].issue.open) <==> !NoDamage(issues, run.prefix, limits)
  {
    hide Sound;
    ListingLists(issues, run.prefix, limits);
    hide Listing;
    FindsCampaign(l, issues, campaign, run.prefix, limits);
    hide StateOf;
    hide FindCampaign;
    hide Eligible;
    forall j | 0 <= j < |l| ensures l[j].state.None? && l[j].issue.open ==> !NoDamage(issues, run.prefix, limits) {
      assert IsEntry(l[j], issues, run.prefix, limits);
      var n := l[j].number;
      assert issues[n] == l[j].issue;
    }
    forall n | 0 <= n < |issues| && IsDamaged(issues[n], run.prefix, limits)
      ensures exists j :: 0 <= j < |l| && l[j].state.None? && l[j].issue.open
    {
      var j :| 0 <= j < |l| && l[j].number == n;
      assert IsEntry(l[j], issues, run.prefix, limits);
    }
  }

  /** After its own campaign is up to date, a run still sees the other campaigns as it listed them. */
  lemma StillShows(l: seq<Listed>, listed: seq<Issue>, issues: seq<Issue>, prefix: string, campaign: string,
                   limits: Limits)
    requires Lists(l, listed, prefix, limits) && TouchesOnly(listed, issues, campaign, limits)
    requires StoreMoves(listed, issues, limits)
    ensures ShowsOthers(l, listed, issues, prefix, campaign, limits)
  {
    hide StateOf;
    hide Lists;
    hide StoreMoves;
    forall n | 0 <= n < |issues| && ClaimsOther(issues[n], campaign, limits)
      ensures n < |listed| && issues[n] == listed[n]
    {
      if n < |listed| { StaysClaimed(listed, issues, n, campaign, limits); }
    }
  }

  /** The other campaigns being closed, the issue of this campaign is as it was. */
  lemma StillHeld(a: seq<Issue>, b: seq<Issue>, n: nat, campaign: string, limits: Limits)
    requires SparesOthers(a, b, campaign, limits) && n < |a| && Claims(a[n], campaign, limits)
    ensures n < |b| && b[n] == a[n]
  {
    hide StateOf;
  }

  lemma StillNobody(a: seq<Issue>, b: seq<Issue>, campaign: string, limits: Limits)
    requires SparesOthers(a, b, campaign, limits) && StoreMoves(a, b, limits) && NobodyClaims(a, campaign, limits)
    ensures NobodyClaims(b, campaign, limits)
  {
    hide StateOf;
    hide StoreMoves;
    forall n | 0 <= n < |b| ensures !Claims(b[n], campaign, limits) {
      assert !Claims(a[n], campaign, limits);
      StaysClaimed(a, b, n, campaign, limits);
    }
  }

  lemma StillUndamaged(a: seq<Issue>, b: seq<Issue>, c: seq<Issue>, campaign: string, prefix: string, limits: Limits)
    requires NoDamage(a, prefix, limits) && StoreMoves(a, c, limits) && StoreMoves(b, c, limits)
    requires TouchesOnly(a, b, campaign, limits) && SparesOthers(b, c, campaign, limits)
    ensures NoDamage(c, prefix, limits)
  {
    hide StateOf;
    hide StoreMoves;
    forall n | 0 <= n < |c| ensures !IsDamaged(c[n], prefix, limits) {
      if n < |a| {
        assert !IsDamaged(a[n], prefix, limits);
        assert IssueMoves(a[n], c[n], limits) by { MovesAt(a, c, n, limits); }
      } else {
        StaysClaimed(b, c, n, campaign, limits);
      }
    }
  }

  lemma MovesAt(a: seq<Issue>, b: seq<Issue>, n: nat, limits: Limits)
    requires StoreMoves(a, b, limits) && n < |a|
    ensures n < |b| && IssueMoves(a[n], b[n], limits)
  {
    hide StateOf;
  }

  function ExpectationOf(campaign: string, run: Run, items: Items, held: Option<Held>): Expectation {
    Expectation(campaign, if held.Some? then Some(held.value.number) else None,
                if held.Some? then Some(held.value.state) else None, ExpectedTitle(run.prefix, campaign),
                run.prefix, run.tag, items != map[])
  }

  /** With its own issue settled and the other campaigns closed, a run has converged, and the final checks pass. */
  lemma Finished(issues: seq<Issue>, campaign: string, run: Run, items: Items, held: Option<Held>, limits: Limits)
    requires OnePerCampaign(issues, limits) && OthersClosed(issues, campaign, limits) &&
      NoDamage(issues, run.prefix, limits)
    requires held.None? ==> NobodyClaims(issues, campaign, limits) && items == map[]
    requires held.Some? ==>
      Holds(issues, held.value, campaign, limits) && Settled(held.value.issue, campaign, run, items, limits)
    ensures Converged(issues, campaign, run, items, limits)
    ensures Verified(issues, ExpectationOf(campaign, run, items, held), limits)
    ensures ShowsHistory(issues, ExpectationOf(campaign, run, items, held), limits)
  {
    hide StateOf;
    hide Stable;
    hide Sha256Json;
    hide CommentMarkersOf;
    var e := ExpectationOf(campaign, run, items, held);
    forall n | 0 <= n < |issues| && IsAudit(issues[n], run.prefix, limits) && issues[n].open
      ensures Claims(issues[n], campaign, limits)
    {
      assert !IsDamaged(issues[n], run.prefix, limits);
      assert !ClaimsOther(issues[n], campaign, limits);
    }
    if held.Some? {
      forall n | 0 <= n < |issues| && Claims(issues[n], campaign, limits)
        ensures Settled(issues[n], campaign, run, items, limits)
      {
        assert n == held.value.number;
      }
      SettledShows(held.value.issue, campaign, run, items, limits);
    }
  }

  lemma SettledShows(i: Issue, campaign: string, run: Run, items: Items, limits: Limits)
    requires Settled(i, campaign, run, items, limits)
    ensures HistoryShown(i, StateOf(i, limits).value, limits)
  {
    hide StateOf;
    hide Stable;
    hide Sha256Json;
    hide CommentMarkersOf;
    hide LogOf;
    hide BatchId;
    hide CleanApplied;
    var s := StateOf(i, limits).value;
    var log :| History(s, i.comments, limits, log) && |log| == s.sequence;
    assert HistoryMatches(s, CommentMarkersOf(i.comments, limits).value, log);
  }

  /** No issue is open whose campaign is about other documents. */
  ghost predicate OnlyTheseDocuments(issues: seq<Issue>, documents: Json, limits: Limits) {
    forall other, n | CampaignId(other).Ok? && other != documents && 0 <= n < |issues| ::
      Claims(issues[n], CampaignId(other).value, limits) ==> !issues[n].open
  }

  lemma OthersAreOtherDocuments(issues: seq<Issue>, run: Run, items: Items, limits: Limits)
    requires CampaignId(run.documents).Ok? && Converged(issues, CampaignId(run.documents).value, run, items, limits)
    ensures OnlyTheseDocuments(issues, run.documents, limits)
  {
    hide StateOf;
    hide Settled;
    hide CampaignId;
    forall other, n | CampaignId(other).Ok? && other != run.documents && 0 <= n < |issues| &&
                      Claims(issues[n], CampaignId(other).value, limits)
      ensures !issues[n].open
    {
      if CampaignId(other) == CampaignId(run.documents) { CampaignIdInjective(other, run.documents); }
      assert ClaimsOther(issues[n], CampaignId(run.documents).value, limits);
    }
  }

  datatype Summary = Summary(number: Option<nat>, changed: bool)

  /** The state in an issue says the report of this run and its commit, or it is the state that the issue had before. */
  ghost predicate Recorded(before: seq<Issue>, after: seq<Issue>, n: nat, run: Run, items: Items, limits: Limits)
    requires n < |after|
  {
    StateOf(after[n], limits).Some? &&
    (StateOf(after[n], limits).value.applied ==
       Applied(ItemsDigest(items), Sha256Json(run.content), run.commit, items) ||
     (n < |before| && StateOf(before[n], limits) == StateOf(after[n], limits)))
  }

  /** What a run that ended well leaves and names: no issue about other documents is open; it names the one issue of its
      campaign, if there is one; and that issue shows and records the report. */
  ghost predicate Leaves(before: seq<Issue>, after: seq<Issue>, campaign: string, run: Run, items: Items,
                         number: Option<nat>, limits: Limits) {
    && OnlyTheseDocuments(after, run.documents, limits)
    && (number.None? ==> NobodyClaims(after, campaign, limits) && items == map[])
    && (number.Some? ==>
          && number.value < |after| && Claims(after[number.value], campaign, limits)
          && ShowsReport(after[number.value].body, run.texts, StateOf(after[number.value], limits).value, limits)
          && Recorded(before, after, number.value, run, items, limits))
  }

  lemma SettledShowsReport(i: Issue, campaign: string, run: Run, items: Items, limits: Limits)
    requires Sound(i, limits) && Settled(i, campaign, run, items, limits) && CleanTexts(run.texts)
    ensures ShowsReport(i.body, run.texts, StateOf(i, limits).value, limits)
  {
    hide ParsedState;
    hide Logged;
    hide ManagedBody;
    hide ComparableBody;
    hide Carries;
    hide CleanTexts;
    hide CleanApplied;
    hide Sha256Json;
    hide CommentMarkersOf;
    var s := StateOf(i, limits).value;
    StableShows(i.body, run.texts, s, limits);
  }

  lemma HeldLeaves(before: seq<Issue>, after: seq<Issue>, campaign: string, run: Run, items: Items,
                   found: Option<Listed>, held: Option<Held>, limits: Limits)
    requires StoreInv(after, limits) && Converged(after, campaign, run, items, limits)
    requires CampaignId(run.documents) == Ok(campaign) && CleanTexts(run.texts)
    requires Found(before, found, campaign, limits)
    requires held.None? ==> NobodyClaims(after, campaign, limits) && items == map[]
    requires held.Some? ==>
      Holds(after, held.value, campaign, limits) && RecordedFrom(held.value, found, MakeApplied(run, items))
    ensures var number := if held.Some? then Some(held.value.number) else None;
            Leaves(before, after, campaign, run, items, number, limits)
  {
    hide StateOf;
    hide Sound;
    hide Settled;
    hide CampaignId;
    hide CleanTexts;
    hide ShowsReport;
    hide OnlyTheseDocuments;
    OthersAreOtherDocuments(after, run, items, limits);
    if held.Some? {
      var n := held.value.number;
      assert Claims(after[n], campaign, limits);
      assert Sound(after[n], limits) by { SoundAt(after, n, limits); }
      SettledShowsReport(after[n], campaign, run, items, limits);
    }
  }

  /** The campaign and the item map that a run is about. */
  function Subject(run: Run): Result<(string, Items)> {
    var campaign :- CampaignId(run.documents);
    var items :- Canonical(run.changes);
    Ok((campaign, items))
  }

  /** What a store that has converged means for another run of the same inputs. */
  lemma ConvergedMeaning(issues: seq<Issue>, campaign: string, run: Run, items: Items, found: Option<Listed>,
                         limits: Limits)
    requires Converged(issues, campaign, run, items, limits) && Found(issues, found, campaign, limits)
    ensures OthersClosed(issues, campaign, limits) && NoDamage(issues, run.prefix, limits)
    ensures RunFits(issues, campaign, run, items, limits)
    ensures match found
            case None => items == map[]
            case Some(x) => Settled(x.issue, campaign, run, items, limits)
  {
    hide StateOf;
    hide Settled;
    hide IssueFits;
    hide Readable;
    forall n | 0 <= n < |issues| && Claims(issues[n], campaign, limits)
      ensures IssueFits(issues[n], run.texts, MakeApplied(run, items), limits)
    {
      SettledFits(issues[n], campaign, run, items, limits);
    }
  }

  lemma OneEach(issues: seq<Issue>, limits: Limits)
    requires StoreInv(issues, limits)
    ensures OnePerCampaign(issues, limits)
  {
    hide StateOf;
    hide Sound;
  }

  /** Lines 504-548: everything a run writes, and the final checks. */
  method CarryOut(c: Client, run: Run, campaign: string, items: Items, l: seq<Listed>, found: Option<Listed>,
                  limits: Limits)
    returns (r: Reply<Summary>)
    requires StoreInv(c.issues, limits) && Lists(l, c.issues, run.prefix, limits)
    requires Found(c.issues, found, campaign, limits) && NoDamage(c.issues, run.prefix, limits)
    requires CampaignId(run.documents) == Ok(campaign) && IsDigest(campaign) &&
      CleanRun(run.texts, MakeApplied(run, items))
    modifies c`issues
    ensures Moved(old(c.issues), c.issues, limits)
    ensures BlocksOnly(old(c.issues), c.issues, campaign, run.texts, limits)
    ensures r.Done? ==> AllAnnounced(old(c.issues), c.issues, campaign, run.texts, limits)
    ensures |c.issues| <= |old(c.issues)| + (if items == map[] then 0 else 1)
    ensures r.Done? ==> Converged(c.issues, campaign, run, items, limits)
    ensures r.Done? ==> Leaves(old(c.issues), c.issues, campaign, run, items, r.value.number, limits)
    ensures r.Done? && !r.value.changed ==> c.issues == old(c.issues)
    ensures Converged(old(c.issues), campaign, run, items, limits) ==>
      c.issues == old(c.issues) && (r.Done? ==> !r.value.changed)
    ensures Converged(old(c.issues), campaign, run, items, limits) && r.Raised? ==> r.error in {Unavailable, Unverified}
    ensures r.Raised? && r.error == TooLarge ==> !RunFits(old(c.issues), campaign, run, items, limits)
    ensures r.Raised? && r.error == Malformed ==> !ValidApplied(MakeApplied(run, items))
    ensures r.Raised? ==> r.error in {TooLarge, Malformed, Unavailable, Unverified}
    ensures c.reliable && r.Raised? ==> r.error in {TooLarge, Malformed}
    ensures c.reliable ==> !r.Died?
  {
    hide StoreInv;
    hide StateOf;
    hide StoreGrows;
    hide RunFits;
    hide Settled;
    hide Converged;
    hide CleanApplied;
    hide ValidApplied;
    hide Sha256Json;
    hide TouchesOnly;
    hide NoDamage;
    hide StoreMoves;
    hide BlocksOnly;
    hide AllAnnounced;
    hide OthersStuck;
    hide CleanTexts;
    hide Lists;
    hide Verified;
    hide OthersClosed;
    hide ShowsOthers;
    hide SparesOthers;
    hide OnePerCampaign;
    hide Leaves;
    hide CampaignId;
    hide RecordedFrom;
    ghost var before := c.issues;
    if Converged(before, campaign, run, items, limits) {
      ConvergedMeaning(before, campaign, run, items, found, limits);
    }
    assert CommentFree(run.texts.event) by { EventIsClean(run.texts); }
    var updated := BringUpToDate(c, found, campaign, run, items, MakeApplied(run, items), limits);
    ghost var middle := c.issues;
    KeptIsMoved(before, middle, limits);
    GrowthBlocksNothing(before, middle, campaign, run.texts, limits);
    if !updated.Done? { return updated.PropagateFailure(); }
    var held := updated.value.0;
    StillShows(l, before, middle, run.prefix, campaign, limits);
    if held.Some? { HeldIsOwn(middle, held.value, campaign, limits); }
    var number := if held.Some? then Some(held.value.number) else None;
    var closed := CloseOldCampaigns(c, l, before, run.prefix, campaign, number, run.texts, limits);
    MovedTransitive(before, middle, c.issues, limits);
    OnlyOthersAnnounced(before, middle, c.issues, campaign, run.texts, limits);
    if OthersStuck(before, campaign, limits) { StuckNeverFits(before, campaign, run, items, limits); }
    ClosedKeepsCount(middle, c.issues, campaign, limits);
    if !closed.Done? { return closed.PropagateFailure(); }
    AfterClosing(before, middle, c.issues, campaign, run, items, held, limits);
    HeldLeaves(before, c.issues, campaign, run, items, found, held, limits);
    var verified := VerifyReconciliation(c, ExpectationOf(campaign, run, items, held), limits);
    if !verified.Done? { return verified.PropagateFailure(); }
    r := Done(Summary(number, updated.value.1 || closed.value));
  }

  lemma EventIsClean(texts: Texts)
    requires CleanTexts(texts)
    ensures CommentFree(texts.event)
  {
  }

  lemma StuckNeverFits(issues: seq<Issue>, campaign: string, run: Run, items: Items, limits: Limits)
    requires OthersStuck(issues, campaign, limits)
    ensures !RunFits(issues, campaign, run, items, limits)
  {
    hide OthersStuck;
    hide IssueFits;
    hide StateOf;
  }

  lemma GrowthBlocksNothing(before: seq<Issue>, after: seq<Issue>, campaign: string, texts: Texts, limits: Limits)
    requires StoreGrows(before, after, limits)
    ensures BlocksOnly(before, after, campaign, texts, limits)
  {
    hide StateOf;
    hide Readable;
    hide Oversized;
    hide IssueMoves;
    forall n | 0 <= n < |before| && !Readable(after[n].comments, limits) ensures !Readable(before[n].comments, limits) {
      assert IssueGrows(before[n], after[n], limits);
    }
  }

  /** Bringing the own campaign up to date first changes nothing about the others. */
  lemma OnlyOthersAnnounced(before: seq<Issue>, middle: seq<Issue>, after: seq<Issue>, campaign: string, texts: Texts,
                            limits: Limits)
    requires TouchesOnly(before, middle, campaign, limits) && StoreGrows(before, middle, limits)
    requires StoreMoves(before, middle, limits)
    requires BlocksOnly(middle, after, campaign, texts, limits)
    ensures BlocksOnly(before, after, campaign, texts, limits)
    ensures AllAnnounced(middle, after, campaign, texts, limits) ==>
      AllAnnounced(before, after, campaign, texts, limits)
    ensures OthersStuck(middle, campaign, limits) ==> OthersStuck(before, campaign, limits)
  {
    hide StateOf;
    hide Readable;
    hide Postable;
    hide IssueMoves;
    hide StoreMoves;
    forall n | 0 <= n < |middle| && NeedsEvent(middle[n], campaign, limits)
      ensures n < |before| && before[n] == middle[n]
    {
      if n < |before| { StaysClaimed(before, middle, n, campaign, limits); }
    }
    forall n | 0 <= n < |before| && NeedsEvent(before[n], campaign, limits) ensures before[n] == middle[n] {}
    forall n | 0 <= n < |after| && !Readable(after[n].comments, limits)
      ensures n < |before| && (!Readable(before[n].comments, limits) || Oversized(before[n], campaign, texts, limits))
    {
      if !Readable(middle[n].comments, limits) && n < |before| { assert IssueGrows(before[n], middle[n], limits); }
    }
  }

  lemma HeldIsOwn(issues: seq<Issue>, h: Held, campaign: string, limits: Limits)
    requires Holds(issues, h, campaign, limits)
    ensures !ClaimsOther(issues[h.number], campaign, limits) && ValidState(h.state)
  {
    hide ParsedState;
  }

  lemma ClosedKeepsCount(a: seq<Issue>, b: seq<Issue>, campaign: string, limits: Limits)
    requires SparesOthers(a, b, campaign, limits)
    ensures |a| == |b|
  {
    hide StateOf;
  }

  /** Once the other campaigns are closed the run has converged. */
  lemma AfterClosing(before: seq<Issue>, middle: seq<Issue>, after: seq<Issue>, campaign: string, run: Run,
                     items: Items, held: Option<Held>, limits: Limits)
    requires NoDamage(before, run.prefix, limits) && StoreMoves(before, after, limits) &&
      StoreMoves(middle, after, limits)
    requires TouchesOnly(before, middle, campaign, limits) && SparesOthers(middle, after, campaign, limits)
    requires StoreInv(after, limits) && OthersClosed(after, campaign, limits)
    requires held.None? ==> NobodyClaims(middle, campaign, limits) && items == map[]
    requires held.Some? ==>
      Holds(middle, held.value, campaign, limits) && Settled(held.value.issue, campaign, run, items, limits)
    ensures Converged(after, campaign, run, items, limits)
    ensures Verified(after, ExpectationOf(campaign, run, items, held), limits)
    ensures ShowsHistory(after, ExpectationOf(campaign, run, items, held), limits)
    ensures held.Some? ==> Holds(after, held.value, campaign, limits)
    ensures held.None? ==> NobodyClaims(after, campaign, limits)
  {
    hide StateOf;
    hide StoreMoves;
    hide StoreInv;
    hide Settled;
    hide TouchesOnly;
    hide NoDamage;
    hide SparesOthers;
    hide OthersClosed;
    hide OnePerCampaign;
    StillUndamaged(before, middle, after, campaign, run.prefix, limits);
    OneEach(after, limits);
    if held.Some? {
      StillHeld(middle, after, held.value.number, campaign, limits);
    } else {
      StillNobody(middle, after, campaign, limits);
    }
    Finished(after, campaign, run, items, held, limits);
  }

  /** `reconcile`. Whatever happens the invariant is kept; a run that ends well has converged; one that converged before
      changes nothing; and with a reliable client a run fails only for a reason that its inputs show. The comments of an
      issue become unreadable only where an announcement does not fit, and a run that ends well has kept all comments
      readable if and only if there was no such announcement to make. */
  method Reconcile(c: Client, run: Run, limits: Limits) returns (r: Reply<Summary>)
    requires StoreInv(c.issues, limits) && CleanTexts(run.texts)
    requires Subject(run).Ok? ==>
      CleanApplied(MakeApplied(run, Subject(run).value.1))
    modifies c`issues, c`repositoryLabels
    ensures Moved(old(c.issues), c.issues, limits)
    ensures Subject(run).Err? ==> c.issues == old(c.issues)
    ensures Subject(run).Ok? ==> BlocksOnly(old(c.issues), c.issues, Subject(run).value.0, run.texts, limits)
    ensures Subject(run).Ok? && Announceable(old(c.issues), Subject(run).value.0, run.texts, limits) ==>
      Kept(old(c.issues), c.issues, limits)
    ensures r.Done? ==> Subject(run).Ok?
    ensures r.Done? ==> AllAnnounced(old(c.issues), c.issues, Subject(run).value.0, run.texts, limits)
    ensures r.Done? ==>
      (Kept(old(c.issues), c.issues, limits) <==> Announceable(old(c.issues), Subject(run).value.0, run.texts, limits))
    ensures Subject(run).Ok? ==> |c.issues| <= |old(c.issues)| + (if Subject(run).value.1 == map[] then 0 else 1)
    ensures r.Done? ==> Subject(run).Ok? && run.tag in c.repositoryLabels
    ensures r.Done? ==> Converged(c.issues, Subject(run).value.0, run, Subject(run).value.1, limits)
    ensures r.Done? ==>
      Leaves(old(c.issues), c.issues, Subject(run).value.0, run, Subject(run).value.1, r.value.number, limits)
    ensures r.Done? && !r.value.changed ==> c.issues == old(c.issues)
    ensures Subject(run).Ok? && Converged(old(c.issues), Subject(run).value.0, run, Subject(run).value.1, limits) ==>
      c.issues == old(c.issues) && (r.Done? ==> !r.value.changed)
    ensures c.reliable && Subject(run).Ok? ==>
      Converged(old(c.issues), Subject(run).value.0, run, Subject(run).value.1, limits) ==> r.Done?
    ensures r.Raised? && r.error == BadReport ==> Subject(run).Err?
    ensures r.Raised? && r.error == Damaged ==> !NoDamage(old(c.issues), run.prefix, limits)
    ensures r.Raised? && r.error == TooLarge ==>
      Subject(run).Ok? && !RunFits(old(c.issues), Subject(run).value.0, run, Subject(run).value.1, limits)
    ensures r.Raised? && r.error == Malformed ==>
      Subject(run).Ok? && !ValidApplied(MakeApplied(run, Subject(run).value.1))
    ensures c.reliable && r.Raised? ==> r.error in {BadReport, Damaged, TooLarge, Malformed}
    ensures c.reliable ==> !r.Died?
  {
    hide StoreInv;
    hide StateOf;
    hide StoreGrows;
    hide RunFits;
    hide Converged;
    hide CleanTexts;
    hide CleanApplied;
    hide ValidApplied;
    hide Sha256Json;
    hide Listing;
    hide FindCampaign;
    hide NoDamage;
    hide Announceable;
    hide StoreMoves;
    hide BlocksOnly;
    hide AllAnnounced;
    hide Leaves;
    hide CampaignId;
    hide Canonical;
    hide Found;
    hide Lists;
    GrowsReflexive(c.issues, limits);
    var subject := CampaignId(run.documents);
    if subject.Err? { return Raised(subject.error); }
    var campaign := subject.value;
    var canonical := CanonicalItems(run.changes);
    if canonical.Err? { return Raised(canonical.error); }
    var items := canonical.value;
    assert Subject(run) == Ok((campaign, items));
    ghost var before := c.issues;
    GrowthBlocksNothing(before, before, campaign, run.texts, limits);
    var read := c.Issues();
    if !read.Done? { return read.PropagateFailure(); }
    var listing := AuditIssues(read.value, run.prefix, limits);
    ListingIsOk(before, run.prefix, limits);
    var l := listing.value;
    InitialListing(before, l, campaign, run, limits);
    var found := FindCampaign(l, campaign).value;
    if Converged(before, campaign, run, items, limits) {
      ConvergedMeaning(before, campaign, run, items, found, limits);
    }
    if exists j | 0 <= j < |l| :: l[j].state.None? && l[j].issue.open { return Raised(Damaged); }
    var labelled := c.EnsureLabel(run.tag);
    if !labelled.Done? { return labelled.PropagateFailure(); }
    r := CarryOut(c, run, campaign, items, l, found, limits);
    ReadableExactly(before, c.issues, campaign, run.texts, limits);
  }

  lemma ListingIsOk(issues: seq<Issue>, prefix: string, limits: Limits)
    requires StoreInv(issues, limits)
    ensures Listing(issues, prefix, limits).Ok?
  {
    hide Sound;
    ListingLists(issues, prefix, limits);
  }
}
