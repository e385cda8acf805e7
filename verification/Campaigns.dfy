/** Finding, creating, superseding and checking campaign issues
    (scripts/fls_audit_issue_lib/reconcile.py, lines 69-96 and 320-471). */
module Campaigns {
  import opened Strings
  import opened Json
  import opened AuditState
  import opened AuditMarks
  import opened AuditRender
  import opened AuditLog
  import opened GitHub
  import opened AuditStore
  import opened AuditTarget
  import opened CampaignIssue

  // ----- audit_issues -----

  datatype Listed = Listed(number: nat, issue: Issue, state: Option<State>)

  function Listing(issues: seq<Issue>, prefix: string, limits: Limits): Result<seq<Listed>> {
    if issues == [] then Ok([])
    else
      var n := |issues| - 1;
      var front :- Listing(issues[..n], prefix, limits);
      if !Eligible(issues[n]) then Ok(front)
      else
        var state :- ParsedState(issues[n], limits);
        Ok(if state.Some? || StartsWith(issues[n].title, prefix) then front + [Listed(n, issues[n], state)] else front)
  }

  lemma {:induction false} ListingRaisesEarly(issues: seq<Issue>, n: nat, prefix: string, limits: Limits)
    requires n <= |issues| && Listing(issues[..n], prefix, limits).Err?
    ensures Listing(issues, prefix, limits) == Listing(issues[..n], prefix, limits)
    decreases |issues|
  {
    hide ParsedState;
    if n < |issues| {
      var front := issues[..|issues| - 1];
      assert front[..n] == issues[..n];
      ListingRaisesEarly(front, n, prefix, limits);
    } else {
      assert issues[..n] == issues;
    }
  }

  method AuditIssues(issues: seq<Issue>, prefix: string, limits: Limits) returns (r: Result<seq<Listed>>)
    ensures r == Listing(issues, prefix, limits)
  {
    hide ParsedState;
    var result: seq<Listed> := [];
    for n := 0 to |issues|
      invariant Listing(issues[..n], prefix, limits) == Ok(result)
    {
      assert issues[..n + 1][..n] == issues[..n];
      if !Eligible(issues[n]) { continue; }
      var state := ParsedState(issues[n], limits);
      if state.Err? {
        ListingRaisesEarly(issues, n + 1, prefix, limits);
        return Err(state.error);
      }
      if state.value.Some? || StartsWith(issues[n].title, prefix) {
        result := result + [Listed(n, issues[n], state.value)];
      }
    }
    assert issues[..|issues|] == issues;
    return Ok(result);
  }

  /** The issue is one that `audit_issues` lists. */
  predicate IsAudit(i: Issue, prefix: string, limits: Limits) {
    StateOf(i, limits).Some? || (Eligible(i) && StartsWith(i.title, prefix))
  }

  predicate IsEntry(x: Listed, issues: seq<Issue>, prefix: string, limits: Limits) {
    && x.number < |issues| && x.issue == issues[x.number] && x.state == StateOf(x.issue, limits)
    && IsAudit(x.issue, prefix, limits)
  }

  /** The listing holds the audit issues with their states, in the order of their numbers. */
  ghost predicate Lists(l: seq<Listed>, issues: seq<Issue>, prefix: string, limits: Limits) {
    && (forall j :: 0 <= j < |l| ==> IsEntry(l[j], issues, prefix, limits))
    && (forall i, j :: 0 <= i < j < |l| ==> l[i].number < l[j].number)
    && (forall n :: 0 <= n < |issues| && IsAudit(issues[n], prefix, limits) ==>
        exists j :: 0 <= j < |l| && l[j].number == n)
  }

  /** In a sound store listing never raises. */
  lemma {:induction false} ListingLists(issues: seq<Issue>, prefix: string, limits: Limits)
    requires forall n :: 0 <= n < |issues| ==> Sound(issues[n], limits)
    ensures Listing(issues, prefix, limits).Ok?
    ensures Lists(Listing(issues, prefix, limits).value, issues, prefix, limits)
    decreases |issues|
  {
    if issues != [] {
      var n := |issues| - 1;
      var front := issues[..n];
      forall k | 0 <= k < n ensures Sound(front[k], limits) { assert front[k] == issues[k]; }
      ListingLists(front, prefix, limits);
      SoundParses(issues[n], limits);
      hide StateOf;
      hide ParsedState;
      hide Sound;
      hide Eligible;
      ListGrows(Listing(front, prefix, limits).value, front, issues, prefix, limits);
    }
  }

  lemma SoundParses(i: Issue, limits: Limits)
    requires Sound(i, limits)
    ensures Eligible(i) ==> ParsedState(i, limits) == Ok(StateOf(i, limits))
    ensures !Eligible(i) ==> StateOf(i, limits) == None
  {
    hide ParsedState;
    hide Tended;
  }

  function Extended(fl: seq<Listed>, issues: seq<Issue>, prefix: string, limits: Limits): seq<Listed>
    requires issues != []
  {
    var i := issues[|issues| - 1];
    if IsAudit(i, prefix, limits) then fl + [Listed(|issues| - 1, i, StateOf(i, limits))] else fl
  }

  lemma EntriesGrow(fl: seq<Listed>, front: seq<Issue>, issues: seq<Issue>, prefix: string, limits: Limits)
    requires issues != [] && front == issues[..|issues| - 1]
    requires forall j :: 0 <= j < |fl| ==> IsEntry(fl[j], front, prefix, limits)
    ensures var l := Extended(fl, issues, prefix, limits);
            forall j :: 0 <= j < |l| ==> IsEntry(l[j], issues, prefix, limits)
  {
    hide StateOf;
    hide IsAudit;
    var l := Extended(fl, issues, prefix, limits);
    forall j | 0 <= j < |l| ensures IsEntry(l[j], issues, prefix, limits) {
      if j < |fl| { assert IsEntry(fl[j], front, prefix, limits); }
    }
  }

  lemma CoverageGrows(fl: seq<Listed>, front: seq<Issue>, issues: seq<Issue>, prefix: string, limits: Limits, n: nat)
    requires issues != [] && front == issues[..|issues| - 1] && Lists(fl, front, prefix, limits)
    requires n < |issues| && IsAudit(issues[n], prefix, limits)
    ensures var l := Extended(fl, issues, prefix, limits); exists j :: 0 <= j < |l| && l[j].number == n
  {
    hide StateOf;
    hide IsAudit;
    hide IsEntry;
    var l := Extended(fl, issues, prefix, limits);
    if n < |front| {
      assert front[n] == issues[n];
      var j :| 0 <= j < |fl| && fl[j].number == n;
      assert l[j].number == n;
    } else {
      assert l[|fl|].number == n;
    }
  }

  lemma ListGrows(fl: seq<Listed>, front: seq<Issue>, issues: seq<Issue>, prefix: string, limits: Limits)
    requires issues != [] && front == issues[..|issues| - 1] && Lists(fl, front, prefix, limits)
    ensures Lists(Extended(fl, issues, prefix, limits), issues, prefix, limits)
  {
    hide StateOf;
    hide IsAudit;
    EntriesGrow(fl, front, issues, prefix, limits);
    var l := Extended(fl, issues, prefix, limits);
    forall i, j | 0 <= i < j < |l| ensures l[i].number < l[j].number {
      assert IsEntry(fl[i], front, prefix, limits);
    }
    forall n | 0 <= n < |issues| && IsAudit(issues[n], prefix, limits)
      ensures exists j :: 0 <= j < |l| && l[j].number == n
    {
      CoverageGrows(fl, front, issues, prefix, limits, n);
    }
  }

  // ----- find_campaign -----

  predicate Names(x: Listed, campaign: string) { x.state.Some? && x.state.value.campaign == campaign }

  function Matches(l: seq<Listed>, campaign: string): (r: seq<Listed>)
    ensures forall x :: x in r <==> x in l && Names(x, campaign)
    ensures |r| > 1 ==> exists i, j :: 0 <= i < j < |l| && Names(l[i], campaign) && Names(l[j], campaign)
  {
    if l == [] then []
    else
      var n := |l| - 1;
      var front := Matches(l[..n], campaign);
      assert l == l[..n] + [l[n]];
      if Names(l[n], campaign) then
        assert front != [] ==> exists i :: 0 <= i < n && Names(l[i], campaign) by {
          if front != [] { assert front[0] in l[..n]; }
        }
        front + [l[n]]
      else front
  }

  function FindCampaign(l: seq<Listed>, campaign: string): Result<Option<Listed>> {
    var matches := Matches(l, campaign);
    if |matches| > 1 then Err(Conflict) else Ok(if matches == [] then None else Some(matches[0]))
  }

  lemma NamedOnce(l: seq<Listed>, issues: seq<Issue>, campaign: string, prefix: string, limits: Limits)
    requires Lists(l, issues, prefix, limits) && OnePerCampaign(issues, limits)
    ensures forall i, j :: 0 <= i < j < |l| ==> !(Names(l[i], campaign) && Names(l[j], campaign))
  {
    hide StateOf;
    hide Eligible;
    forall i, j | 0 <= i < j < |l| ensures !(Names(l[i], campaign) && Names(l[j], campaign)) {
      assert IsEntry(l[i], issues, prefix, limits) && IsEntry(l[j], issues, prefix, limits);
    }
  }

  /** In a sound store at most one issue claims a campaign, and it is found. */
  lemma FindsCampaign(l: seq<Listed>, issues: seq<Issue>, campaign: string, prefix: string, limits: Limits)
    requires Lists(l, issues, prefix, limits) && OnePerCampaign(issues, limits)
    ensures FindCampaign(l, campaign).Ok?
    ensures FindCampaign(l, campaign).value.Some? ==>
      var x := FindCampaign(l, campaign).value.value;
      x in l && IsEntry(x, issues, prefix, limits) && Claims(x.issue, campaign, limits)
    ensures FindCampaign(l, campaign).value.None? ==>
      forall n :: 0 <= n < |issues| ==> !Claims(issues[n], campaign, limits)
  {
    hide StateOf;
    hide Eligible;
    var matches := Matches(l, campaign);
    NamedOnce(l, issues, campaign, prefix, limits);
    if matches == [] {
      forall n | 0 <= n < |issues| ensures !Claims(issues[n], campaign, limits) {
        if IsAudit(issues[n], prefix, limits) {
          var j :| 0 <= j < |l| && l[j].number == n;
          assert IsEntry(l[j], issues, prefix, limits) && l[j] in l && l[j] !in matches;
        }
      }
    } else {
      assert matches[0] in matches;
    }
  }

  // ----- create_issue_safely -----

  ghost predicate NobodyClaims(issues: seq<Issue>, campaign: string, limits: Limits) {
    forall n :: 0 <= n < |issues| ==> !Claims(issues[n], campaign, limits)
  }

  /** A creation that raised counts when a later read shows an issue of the campaign. */
  method CreateIssueSafely(c: Client, title: string, body: string, tag: string, campaign: string, prefix: string,
                           limits: Limits)
    returns (r: Reply<(nat, Issue)>)
    requires StoreInv(c.issues, limits) && NobodyClaims(c.issues, campaign, limits)
    requires StoreInv(c.issues + [NewIssue(title, body, tag)], limits)
    requires Claims(NewIssue(title, body, tag), campaign, limits)
    modifies c`issues
    ensures c.issues == old(c.issues) || c.issues == old(c.issues) + [NewIssue(title, body, tag)]
    ensures r.Done? ==> c.issues == old(c.issues) + [NewIssue(title, body, tag)]
    ensures r.Done? ==> r.value == (|old(c.issues)|, NewIssue(title, body, tag))
    ensures r.Raised? ==> r.error == Unavailable
    ensures c.steady && r.Raised? ==> c.issues == old(c.issues)
    ensures c.reliable ==> r.Done?
  {
    hide StateOf;
    hide Listing;
    hide FindCampaign;
    hide Sound;
    ghost var created := NewIssue(title, body, tag);
    var reply := c.CreateIssue(title, body, tag);
    if reply.Done? { return Done((reply.value, NewIssue(title, body, tag))); }
    if reply.Died? { return Died; }
    var attempt := 0;
    while attempt < CONFIRMATIONS
      modifies {}
      invariant attempt > 0 && c.steady ==> c.issues == old(c.issues)
    {
      attempt := attempt + 1;
      var found := ReadCampaign(c, campaign, prefix, limits);
      if found.Died? { return Died; }
      if c.issues != old(c.issues) { assert c.issues[|old(c.issues)|] == created; }
      if found.Done? && found.value.Some? { return Done((found.value.value.number, found.value.value.issue)); }
    }
    return Raised(reply.error);
  }

  /** One look for the issue of a campaign. */
  method ReadCampaign(c: Client, campaign: string, prefix: string, limits: Limits) returns (r: Reply<Option<Listed>>)
    requires StoreInv(c.issues, limits)
    ensures r.Done? ==>
      match r.value
      case None => NobodyClaims(c.issues, campaign, limits)
      case Some(x) => x.number < |c.issues| && c.issues[x.number] == x.issue && Claims(x.issue, campaign, limits)
    ensures r.Raised? ==> r.error == Unavailable
    ensures c.reliable || c.steady ==> r.Done?
  {
    hide StateOf;
    hide Listing;
    hide FindCampaign;
    hide Sound;
    var read := c.Issues();
    if !read.Done? { return read.PropagateFailure(); }
    var listed := AuditIssues(read.value, prefix, limits);
    ListingLists(read.value, prefix, limits);
    FindsCampaign(listed.value, read.value, campaign, prefix, limits);
    var found := FindCampaign(listed.value, campaign);
    r := Done(found.value);
  }

  // ----- close_old_campaigns -----

  /** The announcement that an issue of another campaign is superseded fits into a comment. */
  predicate EventFits(s: State, campaign: string, texts: Texts, limits: Limits) {
    Utf8Size(EventComment(texts, s.campaign, SupersededId(s.campaign, campaign))) <= limits.comment
  }

  lemma EventParses(s: State, campaign: string, texts: Texts, limits: Limits)
    requires ValidState(s) && CommentFree(texts.event) && EventFits(s, campaign, texts, limits)
    ensures var m := Marker(SupersededId(s.campaign, campaign), s.campaign, 0, None);
            && IsEvent(m, s.campaign)
            && ParseMarker(EventComment(texts, s.campaign, m.batchId), limits) == Ok(Some(m))
  {
    hide ParseMarker;
    hide ValidApplied;
    var m := Marker(SupersededId(s.campaign, campaign), s.campaign, 0, None);
    DigestIsDigest(SupersededJson(s.campaign, campaign));
    ParseComment(texts.event, m, limits);
  }

  /** An announcement that does not fit can be posted, and cannot be read. */
  lemma OversizedEventRaises(s: State, campaign: string, texts: Texts, limits: Limits)
    requires ValidState(s) && CommentFree(texts.event) && !EventFits(s, campaign, texts, limits)
    ensures ParseMarker(EventComment(texts, s.campaign, SupersededId(s.campaign, campaign)), limits) == Err(TooLarge)
  {
    hide ValidApplied;
    var m := Marker(SupersededId(s.campaign, campaign), s.campaign, 0, None);
    DigestIsDigest(SupersededJson(s.campaign, campaign));
    ParseComment(texts.event, m, limits);
  }

  /** The announcement fits, or it is on the issue already. */
  predicate Postable(i: Issue, s: State, campaign: string, texts: Texts, limits: Limits) {
    EventFits(s, campaign, texts, limits) || Shows(i.comments, SupersededId(s.campaign, campaign), limits)
  }

  /** How an issue is left behind by its announcement: it shows it, or its comments cannot be read any more. */
  predicate Announced(a: Issue, b: Issue, s: State, campaign: string, texts: Texts, limits: Limits) {
    && Readable(a.comments, limits)
    && if Postable(a, s, campaign, texts, limits) then Shows(b.comments, SupersededId(s.campaign, campaign), limits)
       else !Readable(b.comments, limits)
  }

  /** The comment of the announcement, posted on an issue that does not show it, keeps the invariant; the comments stay
      readable if it fits, and only then. */
  lemma EventStep(issues: seq<Issue>, number: nat, s: State, campaign: string, texts: Texts, limits: Limits)
    requires StoreInv(issues, limits) && number < |issues| && StateOf(issues[number], limits) == Some(s) &&
      ValidState(s)
    requires CommentFree(texts.event) && Readable(issues[number].comments, limits)
    requires !Shows(issues[number].comments, SupersededId(s.campaign, campaign), limits)
    ensures var i := WithComment(issues[number], EventComment(texts, s.campaign, SupersededId(s.campaign, campaign)));
            && StateOf(i, limits) == Some(s) && Moved(issues, issues[number := i], limits)
            && (EventFits(s, campaign, texts, limits) ==>
                  Kept(issues, issues[number := i], limits) &&
                    Shows(i.comments, SupersededId(s.campaign, campaign), limits))
            && (!EventFits(s, campaign, texts, limits) ==> !Readable(i.comments, limits))
  {
    hide StoreInv;
    hide StoreGrows;
    hide StoreMoves;
    hide StateOf;
    hide ParseMarker;
    hide EventFits;
    hide SupersededId;
    hide MarkersOf;
    hide HasDuplicates;
    hide History;
    hide Logged;
    var comments, text := issues[number].comments, EventComment(texts, s.campaign, SupersededId(s.campaign, campaign));
    var log := SomeLog(issues, number, s, limits);
    LoggedCases(s, comments, limits, log);
    if EventFits(s, campaign, texts, limits) {
      var m := Marker(SupersededId(s.campaign, campaign), s.campaign, 0, None);
      EventParses(s, campaign, texts, limits);
      EventKeepsHistory(s, comments, limits, log, text, m);
      FreshComment(comments, text, m, limits);
      HistoryIsLogged(s, comments + [Comment(text, true)], limits, log);
      HistoryReads(s, comments + [Comment(text, true)], limits, log);
      ShowsLast(comments, text, m, limits);
    } else {
      OversizedEventRaises(s, campaign, texts, limits);
      OversizedIsLogged(s, comments, limits, log, text);
    }
    CommentStep(issues, number, s, text, log, limits);
  }

  /** Lines 362-374: announce once that the campaign is superseded, then close its issue. */
  method Supersede(c: Client, number: nat, ghost issue: Issue, s: State, campaign: string, texts: Texts, limits: Limits)
    returns (r: Reply<()>)
    requires number < |c.issues| && c.issues[number] == issue
    requires StoreInv(c.issues, limits) && StateOf(issue, limits) == Some(s) && CommentFree(texts.event)
    modifies c`issues
    ensures Moved(old(c.issues), c.issues, limits) && OnlyAt(old(c.issues), c.issues, number)
    ensures Postable(issue, s, campaign, texts, limits) ==> Kept(old(c.issues), c.issues, limits)
    ensures StateOf(c.issues[number], limits) == Some(s)
    ensures c.issues[number].(comments := issue.comments, open := issue.open) == issue
    ensures r.Done? ==> !c.issues[number].open && Announced(issue, c.issues[number], s, campaign, texts, limits)
    ensures r.Done? ==>
      var value := SupersededId(s.campaign, campaign);
      c.issues[number].comments ==
        issue.comments + if Shows(issue.comments, value, limits) then []
                         else [Comment(EventComment(texts, s.campaign, value), true)]
    ensures !Readable(issue.comments, limits) ==> c.issues == old(c.issues)
    ensures r.Raised? ==> r.error == Unavailable || (r.error == TooLarge && !Readable(issue.comments, limits))
    ensures c.reliable ==> !r.Died? && (r.Done? <==> Readable(issue.comments, limits))
    ensures c.reliable && r.Raised? ==> r.error == TooLarge
  {
    hide StoreInv;
    hide StoreGrows;
    hide StoreMoves;
    hide StateOf;
    hide CommentMarkersOf;
    hide EventFits;
    hide SupersededId;
    hide EventComment;
    hide ValidState;
    hide Logged;
    hide Renderable;
    GrowsReflexive(c.issues, limits);
    StateIsValid(issue, limits);
    var value := SupersededId(s.campaign, campaign);
    var read := c.Comments(number);
    if !read.Done? { return read.PropagateFailure(); }
    var comments := read.value;
    var text := EventComment(texts, s.campaign, value);
    ghost var log := SomeLog(c.issues, number, s, limits);
    LoggedCases(s, comments, limits, log);
    if Readable(comments, limits) && !Shows(comments, value, limits) {
      EventStep(c.issues, number, s, campaign, texts, limits);
    }
    var posted := PostCommentOnce(c, number, text, value, comments, limits);
    if !posted.Done? { return posted; }
    ghost var between := c.issues;
    IdentityStep(c.issues, number, s, Patch(None, None, None, Some(false)), limits);
    var closed := c.PatchIssue(number, Patch(None, None, None, Some(false)));
    GrowsReflexive(between, limits);
    KeptIsMoved(between, c.issues, limits);
    MovedTransitive(old(c.issues), between, c.issues, limits);
    if Postable(issue, s, campaign, texts, limits) { KeptTransitive(old(c.issues), between, c.issues, limits); }
    r := if closed.Done? then Done(()) else closed.PropagateFailure();
  }

  lemma StateIsValid(i: Issue, limits: Limits)
    requires StateOf(i, limits).Some?
    ensures ValidState(StateOf(i, limits).value)
  {
  }

  lemma SomeLog(issues: seq<Issue>, n: nat, s: State, limits: Limits) returns (log: seq<Applied>)
    requires StoreInv(issues, limits) && n < |issues| && StateOf(issues[n], limits) == Some(s)
    ensures Logged(s, issues[n].comments, limits, log)
  {
    assert Sound(issues[n], limits);
    log :| Logged(s, issues[n].comments, limits, log);
  }

  /** An issue that still has to be closed for the given campaign. */
  predicate Obsolete(x: Listed, campaign: string) {
    x.state.Some? && x.state.value.campaign != campaign && x.issue.open
  }

  /** An open issue of another campaign: it gets an announcement. */
  predicate NeedsEvent(i: Issue, campaign: string, limits: Limits) { ClaimsOther(i, campaign, limits) && i.open }

  /** ... one that does not fit and is not there yet. */
  predicate Oversized(i: Issue, campaign: string, texts: Texts, limits: Limits) {
    NeedsEvent(i, campaign, limits) && !Postable(i, StateOf(i, limits).value, campaign, texts, limits)
  }

  /** Comments become unreadable only where an announcement does not fit. */
  ghost predicate BlocksOnly(before: seq<Issue>, after: seq<Issue>, campaign: string, texts: Texts, limits: Limits) {
    forall n :: 0 <= n < |after| && !Readable(after[n].comments, limits) ==>
      n < |before| && (!Readable(before[n].comments, limits) || Oversized(before[n], campaign, texts, limits))
  }

  /** Every open issue of another campaign got its announcement. */
  ghost predicate AllAnnounced(before: seq<Issue>, after: seq<Issue>, campaign: string, texts: Texts, limits: Limits) {
    && |before| <= |after|
    && forall n :: 0 <= n < |before| && NeedsEvent(before[n], campaign, limits) ==>
         Announced(before[n], after[n], StateOf(before[n], limits).value, campaign, texts, limits)
  }

  /** The comments of some open issue of another campaign cannot be read. */
  ghost predicate OthersStuck(issues: seq<Issue>, campaign: string, limits: Limits) {
    exists n :: 0 <= n < |issues| && NeedsEvent(issues[n], campaign, limits) && !Readable(issues[n].comments, limits)
  }

  /** Issues that do not claim another campaign are left alone. */
  ghost predicate SparesOthers(before: seq<Issue>, after: seq<Issue>, campaign: string, limits: Limits) {
    |before| == |after| &&
    forall n :: 0 <= n < |before| && !ClaimsOther(before[n], campaign, limits) ==> after[n] == before[n]
  }

  /** The listing shows every issue of another campaign as it still is. */
  ghost predicate ShowsOthers(l: seq<Listed>, listed: seq<Issue>, issues: seq<Issue>, prefix: string, campaign: string,
                              limits: Limits) {
    && Lists(l, listed, prefix, limits) && |listed| <= |issues|
    && (forall n :: 0 <= n < |listed| && ClaimsOther(listed[n], campaign, limits) ==> issues[n] == listed[n])
    && (forall n :: 0 <= n < |issues| && ClaimsOther(issues[n], campaign, limits) ==>
        n < |listed| && issues[n] == listed[n])
  }

  /** The state of the loop over the listing before its entry `i`. */
  ghost predicate Closing(l: seq<Listed>, i: nat, before: seq<Issue>, after: seq<Issue>, campaign: string,
                          changed: bool, limits: Limits) {
    && SparesOthers(before, after, campaign, limits)
    && (forall j :: i <= j < |l| && Obsolete(l[j], campaign) ==>
        l[j].number < |after| && after[l[j].number] == l[j].issue)
    && (forall j :: 0 <= j < i <= |l| && Obsolete(l[j], campaign) ==> l[j].number < |after| && !after[l[j].number].open)
    && (forall n :: 0 <= n < |before| && !before[n].open ==> after[n] == before[n])
    && (if changed then exists n :: 0 <= n < |before| && ClaimsOther(before[n], campaign, limits) && before[n].open
        else after == before)
  }

  lemma ClosingStarts(l: seq<Listed>, listed: seq<Issue>, issues: seq<Issue>, prefix: string, campaign: string,
                      limits: Limits)
    requires ShowsOthers(l, listed, issues, prefix, campaign, limits)
    ensures Closing(l, 0, issues, issues, campaign, false, limits)
  {
    hide StateOf;
    hide Eligible;
    forall j | 0 <= j < |l| && Obsolete(l[j], campaign)
      ensures l[j].number < |issues| && issues[l[j].number] == l[j].issue
    {
      assert IsEntry(l[j], listed, prefix, limits);
    }
  }

  lemma ClosingStep(l: seq<Listed>, i: nat, listed: seq<Issue>, before: seq<Issue>, middle: seq<Issue>,
                    after: seq<Issue>, prefix: string, campaign: string, changed: bool, limits: Limits)
    requires ShowsOthers(l, listed, before, prefix, campaign, limits) && i < |l| && Obsolete(l[i], campaign)
    requires Closing(l, i, before, middle, campaign, changed, limits)
    requires OnlyAt(middle, after, l[i].number) && !after[l[i].number].open
    ensures Closing(l, i + 1, before, after, campaign, true, limits)
  {
    hide StateOf;
    hide Eligible;
    assert IsEntry(l[i], listed, prefix, limits);
    var n := l[i].number;
    assert ClaimsOther(listed[n], campaign, limits) && before[n] == listed[n] && before[n].open;
    forall j | i + 1 <= j < |l| && Obsolete(l[j], campaign)
      ensures l[j].number < |after| && after[l[j].number] == l[j].issue
    {
      assert l[i].number < l[j].number;
    }
  }

  /** When the loop ends, no issue of another campaign is open, and nothing was done if none was. */
  lemma ClosingEnds(l: seq<Listed>, listed: seq<Issue>, before: seq<Issue>, after: seq<Issue>, prefix: string,
                    campaign: string, changed: bool, limits: Limits)
    requires ShowsOthers(l, listed, before, prefix, campaign, limits) && StoreMoves(before, after, limits)
    requires Closing(l, |l|, before, after, campaign, changed, limits)
    ensures forall n :: 0 <= n < |after| && ClaimsOther(after[n], campaign, limits) ==> !after[n].open
    ensures SparesOthers(before, after, campaign, limits)
    ensures !changed ==> after == before
    ensures OthersClosed(before, campaign, limits) ==> !changed
  {
    hide StateOf;
    hide Eligible;
    forall n | 0 <= n < |after| && ClaimsOther(after[n], campaign, limits) ensures !after[n].open {
      assert IssueMoves(before[n], after[n], limits);
      assert ClaimsOther(before[n], campaign, limits);
      var j :| 0 <= j < |l| && l[j].number == n;
      assert IsEntry(l[j], listed, prefix, limits);
      if !Obsolete(l[j], campaign) { assert !before[n].open && after[n] == before[n]; }
    }
  }

  predicate OthersClosed(issues: seq<Issue>, campaign: string, limits: Limits) {
    forall n | 0 <= n < |issues| && ClaimsOther(issues[n], campaign, limits) :: !issues[n].open
  }

  /** An entry that has to be closed is still as it was listed. */
  lemma ClosingEntry(l: seq<Listed>, i: nat, listed: seq<Issue>, before: seq<Issue>, middle: seq<Issue>,
                     prefix: string, campaign: string, changed: bool, limits: Limits)
    requires ShowsOthers(l, listed, before, prefix, campaign, limits) && i < |l| && Obsolete(l[i], campaign)
    requires Closing(l, i, before, middle, campaign, changed, limits)
    ensures l[i].number < |middle| && middle[l[i].number] == l[i].issue && StateOf(l[i].issue, limits) == l[i].state
    ensures l[i].number < |before| && before[l[i].number] == l[i].issue && NeedsEvent(l[i].issue, campaign, limits)
    ensures ClaimsOther(before[l[i].number], campaign, limits) && before[l[i].number].open
  {
    hide StateOf;
    hide Eligible;
    assert IsEntry(l[i], listed, prefix, limits);
  }

  /** An entry that needs no closing is passed over. */
  lemma ClosingSkip(l: seq<Listed>, i: nat, before: seq<Issue>, middle: seq<Issue>, campaign: string, changed: bool,
                    limits: Limits)
    requires Closing(l, i, before, middle, campaign, changed, limits) && i < |l| && !Obsolete(l[i], campaign)
    ensures Closing(l, i + 1, before, middle, campaign, changed, limits)
  {
    hide StateOf;
  }

  lemma ClosingStops(l: seq<Listed>, i: nat, before: seq<Issue>, middle: seq<Issue>, after: seq<Issue>, n: nat,
                     campaign: string, changed: bool, limits: Limits)
    requires Closing(l, i, before, middle, campaign, changed, limits) && OnlyAt(middle, after, n)
    requires n < |before| && ClaimsOther(before[n], campaign, limits) && before[n].open
    ensures SparesOthers(before, after, campaign, limits) && !OthersClosed(before, campaign, limits)
  {
    hide StateOf;
  }

  /** The announcements for the entries before `i` are made. */
  ghost predicate Announcing(l: seq<Listed>, i: nat, before: seq<Issue>, after: seq<Issue>, campaign: string,
                             texts: Texts, limits: Limits) {
    && |before| == |after| && BlocksOnly(before, after, campaign, texts, limits)
    && forall j :: 0 <= j < i <= |l| && Obsolete(l[j], campaign) ==>
         l[j].number < |before| &&
         Announced(before[l[j].number], after[l[j].number], l[j].state.value, campaign, texts, limits)
  }

  lemma AnnouncingStarts(l: seq<Listed>, issues: seq<Issue>, campaign: string, texts: Texts, limits: Limits)
    ensures Announcing(l, 0, issues, issues, campaign, texts, limits)
  {
    hide Readable;
    hide StateOf;
  }

  lemma AnnouncingSkip(l: seq<Listed>, i: nat, before: seq<Issue>, middle: seq<Issue>, campaign: string, texts: Texts,
                       limits: Limits)
    requires Announcing(l, i, before, middle, campaign, texts, limits) && i < |l| && !Obsolete(l[i], campaign)
    ensures Announcing(l, i + 1, before, middle, campaign, texts, limits)
  {
    hide Readable;
    hide StateOf;
    hide Announced;
    hide BlocksOnly;
  }

  /** A step at the entry `i` blocks its issue only if the announcement does not fit. */
  lemma BlocksOnlyStep(before: seq<Issue>, middle: seq<Issue>, after: seq<Issue>, n: nat, campaign: string,
                       texts: Texts, limits: Limits)
    requires BlocksOnly(before, middle, campaign, texts, limits) && |before| == |middle|
    requires OnlyAt(middle, after, n) && n < |before| && middle[n] == before[n] &&
      NeedsEvent(before[n], campaign, limits)
    requires Postable(before[n], StateOf(before[n], limits).value, campaign, texts, limits) ==>
      StoreGrows(middle, after, limits)
    ensures BlocksOnly(before, after, campaign, texts, limits)
  {
    hide Readable;
    hide StateOf;
    hide Postable;
    hide IssueMoves;
    forall k | 0 <= k < |after| && !Readable(after[k].comments, limits)
      ensures k < |before| && (!Readable(before[k].comments, limits) || Oversized(before[k], campaign, texts, limits))
    {
      if k == n {
        if Postable(before[n], StateOf(before[n], limits).value, campaign, texts, limits) {
          assert IssueGrows(middle[n], after[n], limits);
        }
      } else {
        assert middle[k] == after[k];
      }
    }
  }

  lemma AnnouncingStep(l: seq<Listed>, i: nat, listed: seq<Issue>, before: seq<Issue>, middle: seq<Issue>,
                       after: seq<Issue>, prefix: string, campaign: string, texts: Texts, limits: Limits)
    requires Announcing(l, i, before, middle, campaign, texts, limits) && i < |l| && Obsolete(l[i], campaign)
    requires ShowsOthers(l, listed, before, prefix, campaign, limits)
    requires BlocksOnly(before, after, campaign, texts, limits) && OnlyAt(middle, after, l[i].number)
    requires l[i].number < |before|
    requires Announced(before[l[i].number], after[l[i].number], l[i].state.value, campaign, texts, limits)
    ensures Announcing(l, i + 1, before, after, campaign, texts, limits)
  {
    hide Readable;
    hide StateOf;
    hide Announced;
    hide BlocksOnly;
    hide IsEntry;
    forall j | 0 <= j < i && Obsolete(l[j], campaign)
      ensures l[j].number < |before|
      ensures Announced(before[l[j].number], after[l[j].number], l[j].state.value, campaign, texts, limits)
    {
      assert l[j].number < l[i].number;
    }
  }

  lemma AnnouncingEnds(l: seq<Listed>, listed: seq<Issue>, before: seq<Issue>, after: seq<Issue>, prefix: string,
                       campaign: string, texts: Texts, limits: Limits)
    requires Announcing(l, |l|, before, after, campaign, texts, limits)
    requires ShowsOthers(l, listed, before, prefix, campaign, limits)
    ensures AllAnnounced(before, after, campaign, texts, limits) && BlocksOnly(before, after, campaign, texts, limits)
  {
    hide Readable;
    hide StateOf;
    hide Announced;
    hide BlocksOnly;
    hide Eligible;
    forall n | 0 <= n < |before| && NeedsEvent(before[n], campaign, limits)
      ensures Announced(before[n], after[n], StateOf(before[n], limits).value, campaign, texts, limits)
    {
      assert n < |listed| && before[n] == listed[n];
      assert IsAudit(listed[n], prefix, limits);
      var j :| 0 <= j < |l| && l[j].number == n;
      assert IsEntry(l[j], listed, prefix, limits);
      assert Obsolete(l[j], campaign);
    }
  }

  lemma StuckEntry(issues: seq<Issue>, n: nat, campaign: string, limits: Limits)
    requires n < |issues| && NeedsEvent(issues[n], campaign, limits) && !Readable(issues[n].comments, limits)
    ensures OthersStuck(issues, campaign, limits)
  {
  }

  /** Every open issue of another campaign is announced as superseded and closed. Where an announcement does not fit it
      is posted all the same, and the comments of that issue cannot be read any more; where they could not be read
      before, the run raises. */
  method CloseOldCampaigns(c: Client, l: seq<Listed>, ghost listed: seq<Issue>, prefix: string, campaign: string,
                           current: Option<nat>, texts: Texts, limits: Limits)
    returns (r: Reply<bool>)
    requires ShowsOthers(l, listed, c.issues, prefix, campaign, limits) && StoreInv(c.issues, limits)
    requires current.Some? ==> current.value < |c.issues| && !ClaimsOther(c.issues[current.value], campaign, limits)
    requires CommentFree(texts.event)
    modifies c`issues
    ensures Moved(old(c.issues), c.issues, limits) && SparesOthers(old(c.issues), c.issues, campaign, limits)
    ensures BlocksOnly(old(c.issues), c.issues, campaign, texts, limits)
    ensures r.Done? ==> OthersClosed(c.issues, campaign, limits)
    ensures r.Done? ==> AllAnnounced(old(c.issues), c.issues, campaign, texts, limits)
    ensures r.Done? && !r.value ==> c.issues == old(c.issues)
    ensures OthersClosed(old(c.issues), campaign, limits) ==> c.issues == old(c.issues) && (r.Done? ==> !r.value)
    ensures r.Raised? ==> r.error in {Unavailable, TooLarge}
    ensures r.Raised? && r.error == TooLarge ==> OthersStuck(old(c.issues), campaign, limits)
    ensures c.reliable && r.Raised? ==> r.error == TooLarge
    ensures c.reliable ==> !r.Died?
  {
    hide StoreInv;
    hide StateOf;
    hide EventFits;
    hide StoreGrows;
    hide StoreMoves;
    hide ShowsOthers;
    hide Closing;
    hide Announcing;
    hide BlocksOnly;
    hide Announced;
    hide Postable;
    hide Readable;
    hide SparesOthers;
    hide OnlyAt;
    hide OthersStuck;
    hide AllAnnounced;
    GrowsReflexive(c.issues, limits);
    ClosingStarts(l, listed, c.issues, prefix, campaign, limits);
    AnnouncingStarts(l, c.issues, campaign, texts, limits);
    var changed := false;
    for i := 0 to |l|
      invariant Moved(old(c.issues), c.issues, limits)
      invariant Closing(l, i, old(c.issues), c.issues, campaign, changed, limits)
      invariant Announcing(l, i, old(c.issues), c.issues, campaign, texts, limits)
    {
      var x := l[i];
      if Obsolete(x, campaign) {
        ClosingEntry(l, i, listed, old(c.issues), c.issues, prefix, campaign, changed, limits);
      }
      if x.state.None? || x.state.value.campaign == campaign || !x.issue.open || current == Some(x.number) {
        ClosingSkip(l, i, old(c.issues), c.issues, campaign, changed, limits);
        AnnouncingSkip(l, i, old(c.issues), c.issues, campaign, texts, limits);
        continue;
      }
      ghost var middle := c.issues;
      AnnouncingBlocks(l, i, old(c.issues), middle, campaign, texts, limits);
      var closed := Supersede(c, x.number, x.issue, x.state.value, campaign, texts, limits);
      MovedTransitive(old(c.issues), middle, c.issues, limits);
      BlocksOnlyStep(old(c.issues), middle, c.issues, x.number, campaign, texts, limits);
      if !closed.Done? {
        if !Readable(x.issue.comments, limits) { StuckEntry(old(c.issues), x.number, campaign, limits); }
        ClosingStops(l, i, old(c.issues), middle, c.issues, x.number, campaign, changed, limits);
        return closed.PropagateFailure();
      }
      ClosingStep(l, i, listed, old(c.issues), middle, c.issues, prefix, campaign, changed, limits);
      AnnouncingStep(l, i, listed, old(c.issues), middle, c.issues, prefix, campaign, texts, limits);
      changed := true;
    }
    ClosingEnds(l, listed, old(c.issues), c.issues, prefix, campaign, changed, limits);
    AnnouncingEnds(l, listed, old(c.issues), c.issues, prefix, campaign, texts, limits);
    return Done(changed);
  }

  lemma AnnouncingBlocks(l: seq<Listed>, i: nat, before: seq<Issue>, middle: seq<Issue>, campaign: string, texts: Texts,
                         limits: Limits)
    requires Announcing(l, i, before, middle, campaign, texts, limits)
    ensures |before| == |middle| && BlocksOnly(before, middle, campaign, texts, limits)
  {
    hide BlocksOnly;
    hide Announced;
  }
}
