/** What holds of all audit issues between any two requests, and how the store may grow. */
module AuditStore {
  import opened Strings
  import opened Json
  import opened AuditState
  import opened AuditMarks
  import opened AuditRender
  import opened AuditLog
  import opened GitHub

  predicate Eligible(i: Issue) { i.bot && !i.pullRequest }

  predicate ClosedMarkerless(i: Issue) {
    !i.open && !Contains(STATE_HINT, i.body) && !Contains(MANAGED_START, i.body) && !Contains(MANAGED_END, i.body)
  }

  /** What `audit_issues` parses from an issue of the bot. */
  function ParsedState(i: Issue, limits: Limits): (r: Result<Option<State>>)
    ensures r.Ok? && r.value.Some? ==> ValidState(r.value.value)
  {
    if ClosedMarkerless(i) then Ok(None) else ParseState(i.body, limits)
  }

  /** The state an issue carries, if it is an audit issue. */
  function StateOf(i: Issue, limits: Limits): (s: Option<State>)
    ensures s.Some? ==> ValidState(s.value) && Eligible(i)
  {
    if !Eligible(i) then None
    else
      match ParsedState(i, limits)
      case Ok(s) => s
      case Err(_) => None
  }

  // ----- The invariant -----

  /** A comment that announces that the campaign is superseded. */
  ghost predicate IsEvent(m: Marker, campaign: string) {
    m.transition.None? && exists successor :: m.batchId == SupersededId(campaign, successor)
  }

  /** `log` is the history of an issue whose body carries `s`: the transitions posted so far, of which the first
      `s.sequence` have reached the body. Every other marker is an event, and no batch id occurs twice. */
  ghost predicate History(s: State, comments: seq<Comment>, limits: Limits, log: seq<Applied>) {
    && CommentMarkersOf(comments, limits).Ok?
    && LogOf(s.campaign, s.origin, CommentMarkersOf(comments, limits).value, log)
    && (forall m :: m in CommentMarkersOf(comments, limits).value ==>
        IsTransition(m, s.campaign) || IsEvent(m, s.campaign))
    && s.sequence <= |log| && s.applied.semanticDigest == DigestAt(s.origin, log, s.sequence)
    && CleanApplied(s.applied) && forall i :: 0 <= i < |log| ==> CleanApplied(log[i])
  }

  /** The comments can be read, as recovery and every post do first. */
  predicate Readable(comments: seq<Comment>, limits: Limits) { CommentMarkersOf(comments, limits).Ok? }

  predicate HoldsMarker(body: string, limits: Limits) {
    ParseMarker(body, limits).Ok? && ParseMarker(body, limits).value.Some?
  }

  /** The comment of the bot at `k` is too large to be read, and none from there on holds a marker. */
  ghost predicate StuckAt(comments: seq<Comment>, k: nat, limits: Limits)
    requires k < |comments|
  {
    && comments[k].bot && ParseMarker(comments[k].body, limits) == Err(TooLarge)
    && forall j | k <= j < |comments| && comments[j].bot :: !HoldsMarker(comments[j].body, limits)
  }

  ghost predicate LoggedUpTo(s: State, comments: seq<Comment>, limits: Limits, log: seq<Applied>, k: nat)
    requires k <= |comments|
  {
    History(s, comments[..k], limits, log) && (k < |comments| ==> StuckAt(comments, k, limits))
  }

  /** `log` is the history that the comments tell, all of them or all before one that is too large to be read. */
  ghost predicate Logged(s: State, comments: seq<Comment>, limits: Limits, log: seq<Applied>) {
    exists k :: 0 <= k <= |comments| && LoggedUpTo(s, comments, limits, log, k)
  }

  /** The body is a rendering of `s` and the comments are a log that `s` may lag behind. */
  ghost predicate Tended(i: Issue, s: State, limits: Limits) {
    && Eligible(i) && Carries(i.body, s) && Utf8Size(i.body) <= limits.issueBody
    && exists log :: Logged(s, i.comments, limits, log)
  }

  ghost predicate Sound(i: Issue, limits: Limits) {
    Eligible(i) ==>
      ParsedState(i, limits).Ok? && (StateOf(i, limits).Some? ==> Tended(i, StateOf(i, limits).value, limits))
  }

  ghost predicate OnePerCampaign(issues: seq<Issue>, limits: Limits) {
    forall n, m :: 0 <= n < m < |issues| && StateOf(issues[n], limits).Some? && StateOf(issues[m], limits).Some? ==>
      StateOf(issues[n], limits).value.campaign != StateOf(issues[m], limits).value.campaign
  }

  ghost predicate StoreInv(issues: seq<Issue>, limits: Limits) {
    (forall n :: 0 <= n < |issues| ==> Sound(issues[n], limits)) && OnePerCampaign(issues, limits)
  }

  // ----- How the store may grow -----

  /** Comments are only added; a campaign keeps its identity and its origin, and its sequence never falls; issues that
      are not tended by the bot stay as they are. */
  ghost predicate IssueMoves(a: Issue, b: Issue, limits: Limits) {
    && a.bot == b.bot && a.pullRequest == b.pullRequest && a.comments <= b.comments
    && match StateOf(a, limits)
       case None => a == b
       case Some(s) =>
         && StateOf(b, limits).Some?
         && var t := StateOf(b, limits).value;
            t.campaign == s.campaign && t.origin == s.origin && s.sequence <= t.sequence
  }

  /** ... and comments that can be read stay so. */
  ghost predicate IssueGrows(a: Issue, b: Issue, limits: Limits) {
    IssueMoves(a, b, limits) && (Readable(a.comments, limits) ==> Readable(b.comments, limits))
  }

  ghost predicate StoreMoves(a: seq<Issue>, b: seq<Issue>, limits: Limits) {
    |a| <= |b| && forall n :: 0 <= n < |a| ==> IssueMoves(a[n], b[n], limits)
  }

  ghost predicate StoreGrows(a: seq<Issue>, b: seq<Issue>, limits: Limits) {
    && |a| <= |b| && (forall n :: 0 <= n < |a| ==> IssueGrows(a[n], b[n], limits))
    && forall n :: |a| <= n < |b| ==> Readable(b[n].comments, limits)
  }

  lemma GrowsReflexive(a: seq<Issue>, limits: Limits)
    ensures StoreGrows(a, a, limits) && StoreMoves(a, a, limits)
  {
    hide StateOf;
  }

  lemma GrowsMoves(a: seq<Issue>, b: seq<Issue>, limits: Limits)
    requires StoreGrows(a, b, limits)
    ensures StoreMoves(a, b, limits)
  {
    hide StateOf;
    hide Readable;
    forall n | 0 <= n < |a| ensures IssueMoves(a[n], b[n], limits) { assert IssueGrows(a[n], b[n], limits); }
  }

  lemma GrowsTransitive(a: seq<Issue>, b: seq<Issue>, c: seq<Issue>, limits: Limits)
    requires StoreGrows(a, b, limits) && StoreGrows(b, c, limits)
    ensures StoreGrows(a, c, limits)
  {
    hide StateOf;
    hide Readable;
    forall n | 0 <= n < |a| ensures IssueGrows(a[n], c[n], limits) {
      assert IssueGrows(a[n], b[n], limits) && IssueGrows(b[n], c[n], limits);
    }
    forall n | |a| <= n < |c| ensures Readable(c[n].comments, limits) {
      if n < |b| { assert IssueGrows(b[n], c[n], limits); }
    }
  }

  lemma MovesTransitive(a: seq<Issue>, b: seq<Issue>, c: seq<Issue>, limits: Limits)
    requires StoreMoves(a, b, limits) && StoreMoves(b, c, limits)
    ensures StoreMoves(a, c, limits)
  {
    hide StateOf;
    forall n | 0 <= n < |a| ensures IssueMoves(a[n], c[n], limits) {
      assert IssueMoves(a[n], b[n], limits) && IssueMoves(b[n], c[n], limits);
    }
  }

  // ----- Comments that cannot be read -----

  lemma HistoryIsLogged(s: State, comments: seq<Comment>, limits: Limits, log: seq<Applied>)
    requires History(s, comments, limits, log)
    ensures Logged(s, comments, limits, log)
  {
    hide History;
    assert comments[..|comments|] == comments;
    assert LoggedUpTo(s, comments, limits, log, |comments|);
  }

  /** A comment that raises makes all the comments raise. */
  lemma RaisesAt(comments: seq<Comment>, k: nat, limits: Limits)
    requires k < |comments| && MarkersOf(comments[..k], limits).Ok?
    requires comments[k].bot && ParseMarker(comments[k].body, limits).Err?
    ensures CommentMarkersOf(comments, limits) == Err(ParseMarker(comments[k].body, limits).error)
  {
    hide ParseMarker;
    assert comments[..k + 1][..k] == comments[..k];
    RaisesEarly(comments, k + 1, limits);
  }

  /** When the comments can be read they tell the history; otherwise one is too large. */
  lemma LoggedCases(s: State, comments: seq<Comment>, limits: Limits, log: seq<Applied>)
    requires Logged(s, comments, limits, log)
    ensures s.sequence <= |log|
    ensures Readable(comments, limits) ==> History(s, comments, limits, log)
    ensures !Readable(comments, limits) ==> CommentMarkersOf(comments, limits) == Err(TooLarge)
  {
    hide ParseMarker;
    hide History;
    hide MarkersOf;
    hide HasDuplicates;
    var k :| 0 <= k <= |comments| && LoggedUpTo(s, comments, limits, log, k);
    HistoryReads(s, comments[..k], limits, log);
    if k < |comments| { RaisesAt(comments, k, limits); } else { assert comments[..k] == comments; }
  }

  lemma HistoryReads(s: State, comments: seq<Comment>, limits: Limits, log: seq<Applied>)
    requires History(s, comments, limits, log)
    ensures s.sequence <= |log| && MarkersOf(comments, limits).Ok? && Readable(comments, limits)
  {
    hide ParseMarker;
    hide LogOf;
    hide CleanApplied;
  }

  /** Comments with a history, and one too large behind them. */
  lemma OversizedIsLogged(s: State, comments: seq<Comment>, limits: Limits, log: seq<Applied>, body: string)
    requires History(s, comments, limits, log) && ParseMarker(body, limits) == Err(TooLarge)
    ensures Logged(s, comments + [Comment(body, true)], limits, log)
    ensures !Readable(comments + [Comment(body, true)], limits)
  {
    hide ParseMarker;
    HistoryReads(s, comments, limits, log);
    hide History;
    hide MarkersOf;
    hide HasDuplicates;
    var next := comments + [Comment(body, true)];
    assert next[..|comments|] == comments;
    RaisesAt(next, |comments|, limits);
    assert LoggedUpTo(s, next, limits, log, |comments|);
  }

  // ----- Tended issues are recognised -----

  lemma CarriesStart(body: string, s: State)
    requires Carries(body, s)
    ensures Contains(MANAGED_START, body)
  {
    var pre, visible, post :| RenderedAs(body, pre, visible, Print(StateJson(s)), post);
    MarkersOnce(body, pre, visible, Print(StateJson(s)), post);
  }

  lemma TendedIsRecognised(i: Issue, s: State, limits: Limits)
    requires Eligible(i) && Carries(i.body, s) && Utf8Size(i.body) <= limits.issueBody
    ensures ParsedState(i, limits) == Ok(Some(s)) && StateOf(i, limits) == Some(s)
  {
    hide ParseState;
    hide Carries;
    CarriesStart(i.body, s);
    ParseCarried(i.body, s, limits);
  }

  // ----- Steps that keep the invariant -----

  lemma SoundWhenTended(i: Issue, s: State, limits: Limits)
    requires StateOf(i, limits) == Some(s) && ParsedState(i, limits) == Ok(Some(s))
    requires Carries(i.body, s) && Utf8Size(i.body) <= limits.issueBody &&
      exists log :: Logged(s, i.comments, limits, log)
    ensures Sound(i, limits)
  {
    hide Logged;
    hide Carries;
    hide ParsedState;
  }

  lemma ReplaceSound(issues: seq<Issue>, n: nat, s: State, i: Issue, t: State, limits: Limits)
    requires StoreInv(issues, limits) && n < |issues|
    requires StateOf(issues[n], limits) == Some(s) && StateOf(i, limits) == Some(t) && Sound(i, limits)
    requires issues[n].bot == i.bot && issues[n].pullRequest == i.pullRequest && issues[n].comments <= i.comments
    requires t.campaign == s.campaign && t.origin == s.origin && s.sequence <= t.sequence
    ensures StoreInv(issues[n := i], limits) && StoreMoves(issues, issues[n := i], limits)
    ensures (Readable(issues[n].comments, limits) ==> Readable(i.comments, limits)) ==>
      StoreGrows(issues, issues[n := i], limits)
  {
    hide StateOf;
    hide Sound;
    hide ValidState;
    hide Readable;
    var after := issues[n := i];
    forall k | 0 <= k < |after| ensures Sound(after[k], limits) { assert k != n ==> Sound(issues[k], limits); }
  }

  /** Replacing one tended issue by a tended successor. */
  lemma ReplaceTended(issues: seq<Issue>, n: nat, s: State, i: Issue, t: State, limits: Limits)
    requires StoreInv(issues, limits) && n < |issues| && StateOf(issues[n], limits) == Some(s)
    requires Tended(i, t, limits) && issues[n].comments <= i.comments
    requires t.campaign == s.campaign && t.origin == s.origin && s.sequence <= t.sequence
    ensures StateOf(i, limits) == Some(t)
    ensures StoreInv(issues[n := i], limits) && StoreMoves(issues, issues[n := i], limits)
    ensures (Readable(issues[n].comments, limits) ==> Readable(i.comments, limits)) ==>
      StoreGrows(issues, issues[n := i], limits)
  {
    hide StateOf;
    hide StoreInv;
    hide StoreGrows;
    hide StoreMoves;
    hide Carries;
    hide Logged;
    hide Readable;
    TendedIsRecognised(i, t, limits);
    StateIsEligible(issues[n], limits);
    SoundWhenTended(i, t, limits);
    ReplaceSound(issues, n, s, i, t, limits);
  }

  lemma StateIsEligible(i: Issue, limits: Limits)
    requires StateOf(i, limits).Some?
    ensures Eligible(i)
  {
    hide ParsedState;
  }

  /** Title, labels and open or closed do not matter to the invariant. */
  lemma IdentityStep(issues: seq<Issue>, n: nat, s: State, patch: Patch, limits: Limits)
    requires StoreInv(issues, limits) && n < |issues| && StateOf(issues[n], limits) == Some(s)
    requires patch.body == None
    ensures var i := Apply(issues[n], patch);
            && StateOf(i, limits) == Some(s)
            && StoreInv(issues[n := i], limits) && StoreGrows(issues, issues[n := i], limits)
  {
    var i := Apply(issues[n], patch);
    assert Sound(issues[n], limits);
    assert Tended(i, s, limits);
    ReplaceTended(issues, n, s, i, s, limits);
  }

  /** A body rendered for a later point of the log. */
  lemma BodyStep(issues: seq<Issue>, n: nat, s: State, body: string, t: State, log: seq<Applied>, limits: Limits)
    requires StoreInv(issues, limits) && n < |issues| && StateOf(issues[n], limits) == Some(s)
    requires Carries(body, t) && Utf8Size(body) <= limits.issueBody
    requires t.campaign == s.campaign && t.origin == s.origin && s.sequence <= t.sequence
    requires History(t, issues[n].comments, limits, log)
    ensures var i := Apply(issues[n], Patch(None, None, Some(body), None));
            && StateOf(i, limits) == Some(t)
            && StoreInv(issues[n := i], limits) && StoreGrows(issues, issues[n := i], limits)
  {
    hide History;
    hide Carries;
    var i := Apply(issues[n], Patch(None, None, Some(body), None));
    HistoryIsLogged(t, issues[n].comments, limits, log);
    StateIsEligible(issues[n], limits);
    assert Tended(i, t, limits);
    ReplaceTended(issues, n, s, i, t, limits);
  }

  lemma MarkersAppend(comments: seq<Comment>, c: Comment, limits: Limits)
    requires MarkersOf(comments, limits).Ok? && c.bot && ParseMarker(c.body, limits).Ok?
    requires ParseMarker(c.body, limits).value.Some?
    ensures MarkersOf(comments + [c], limits) ==
      Ok(MarkersOf(comments, limits).value + [ParseMarker(c.body, limits).value.value])
  {
    hide ParseMarker;
    assert (comments + [c])[..|comments|] == comments;
  }

  predicate HasBatch(ms: seq<Marker>, value: string) { exists i | 0 <= i < |ms| :: ms[i].batchId == value }

  /** A comment with a batch id of its own adds its marker. */
  lemma FreshComment(comments: seq<Comment>, body: string, m: Marker, limits: Limits)
    requires CommentMarkersOf(comments, limits).Ok? && ParseMarker(body, limits) == Ok(Some(m))
    requires !HasBatch(CommentMarkersOf(comments, limits).value, m.batchId)
    ensures CommentMarkersOf(comments + [Comment(body, true)], limits) ==
      Ok(CommentMarkersOf(comments, limits).value + [m])
  {
    hide ParseMarker;
    var ms := MarkersOf(comments, limits).value;
    MarkersAppend(comments, Comment(body, true), limits);
    DuplicatesGrow(ms + [m], |ms|);
    assert (ms + [m])[..|ms|] == ms && (ms + [m])[..|ms| + 1] == ms + [m];
    assert forall k :: 0 <= k < |ms| ==> (ms + [m])[k] == ms[k];
  }

  /** An event comment leaves the history as it is. */
  lemma EventKeepsHistory(s: State, comments: seq<Comment>, limits: Limits, log: seq<Applied>, body: string, m: Marker)
    requires History(s, comments, limits, log)
    requires ParseMarker(body, limits) == Ok(Some(m)) && IsEvent(m, s.campaign)
    requires !HasBatch(CommentMarkersOf(comments, limits).value, m.batchId)
    ensures History(s, comments + [Comment(body, true)], limits, log)
  {
    hide ParseMarker;
    hide CommentMarkersOf;
    hide BatchId;
    FreshComment(comments, body, m, limits);
    var ms := CommentMarkersOf(comments, limits).value;
    assert forall x :: x in ms + [m] <==> x in ms || x == m;
  }

  /** A transition comment extends the log. */
  lemma TransitionExtendsHistory(s: State, comments: seq<Comment>, limits: Limits, log: seq<Applied>, body: string,
                                 m: Marker, a: Applied)
    requires History(s, comments, limits, log) && CleanApplied(a)
    requires m == LogMarker(s.campaign, s.origin, log + [a], |log| + 1) && ParseMarker(body, limits) == Ok(Some(m))
    requires !HasBatch(CommentMarkersOf(comments, limits).value, m.batchId)
    ensures History(s, comments + [Comment(body, true)], limits, log + [a])
  {
    hide ParseMarker;
    hide CommentMarkersOf;
    hide BatchId;
    hide CleanApplied;
    FreshComment(comments, body, m, limits);
    var ms := CommentMarkersOf(comments, limits).value;
    assert forall x :: x in ms + [m] <==> x in ms || x == m;
    forall k | 1 <= k <= |log|
      ensures LogMarker(s.campaign, s.origin, log + [a], k) == LogMarker(s.campaign, s.origin, log, k)
    {}
  }

  /** Posting a comment that keeps the issue tended. */
  lemma CommentStep(issues: seq<Issue>, n: nat, s: State, body: string, log: seq<Applied>, limits: Limits)
    requires StoreInv(issues, limits) && n < |issues| && StateOf(issues[n], limits) == Some(s)
    requires Logged(s, issues[n].comments + [Comment(body, true)], limits, log)
    ensures var i := WithComment(issues[n], body);
            && StateOf(i, limits) == Some(s)
            && StoreInv(issues[n := i], limits) && StoreMoves(issues, issues[n := i], limits)
            && (Readable(i.comments, limits) ==> StoreGrows(issues, issues[n := i], limits))
  {
    hide Logged;
    hide Readable;
    var i := WithComment(issues[n], body);
    assert Sound(issues[n], limits);
    assert Tended(i, s, limits);
    ReplaceTended(issues, n, s, i, s, limits);
  }

  /** A new issue has no log yet. */
  lemma EmptyHistory(s: State, limits: Limits)
    requires s.sequence == 0 && ValidState(s) && CleanApplied(s.applied)
    ensures History(s, [], limits, [])
  {
    hide CleanApplied;
    assert MarkersOf([], limits) == Ok([]);
  }

  lemma AppendSound(issues: seq<Issue>, i: Issue, s: State, limits: Limits)
    requires StoreInv(issues, limits) && Sound(i, limits) && StateOf(i, limits) == Some(s) &&
      Readable(i.comments, limits)
    requires forall n :: 0 <= n < |issues| && StateOf(issues[n], limits).Some? ==>
      StateOf(issues[n], limits).value.campaign != s.campaign
    ensures StoreInv(issues + [i], limits) && StoreGrows(issues, issues + [i], limits)
  {
    hide StateOf;
    hide Sound;
    hide Readable;
    hide ValidState;
    var after := issues + [i];
    forall k | 0 <= k < |after| ensures Sound(after[k], limits) {
      if k < |issues| { assert Sound(issues[k], limits); }
    }
  }

  /** A new issue for a campaign that no issue claims. */
  lemma CreateStep(issues: seq<Issue>, i: Issue, s: State, limits: Limits)
    requires StoreInv(issues, limits) && Eligible(i) && i.comments == [] && s.sequence == 0
    requires Carries(i.body, s) && Utf8Size(i.body) <= limits.issueBody && CleanApplied(s.applied) && ValidState(s)
    requires forall n :: 0 <= n < |issues| && StateOf(issues[n], limits).Some? ==>
      StateOf(issues[n], limits).value.campaign != s.campaign
    ensures StateOf(i, limits) == Some(s)
    ensures StoreInv(issues + [i], limits) && StoreGrows(issues, issues + [i], limits)
  {
    hide *;
    TendedIsRecognised(i, s, limits);
    EmptyHistory(s, limits);
    HistoryIsLogged(s, [], limits, []);
    HistoryReads(s, [], limits, []);
    SoundWhenTended(i, s, limits);
    AppendSound(issues, i, s, limits);
  }
}
