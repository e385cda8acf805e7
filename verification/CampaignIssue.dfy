/** The reconciler of one campaign issue (scripts/fls_audit_issue_lib/reconcile.py, lines 103-317): every request may
    fail before or after it takes effect, and the run may die at any of them. */
module CampaignIssue {
  import opened Strings
  import opened Json
  import opened AuditState
  import opened AuditMarks
  import opened AuditRender
  import opened AuditLog
  import opened GitHub
  import opened AuditStore
  import opened AuditTarget

  const CONFIRMATIONS: nat := 5

  /** The invariant still holds and the store has only grown. */
  ghost predicate Kept(before: seq<Issue>, after: seq<Issue>, limits: Limits) {
    StoreInv(after, limits) && StoreGrows(before, after, limits)
  }

  /** The invariant still holds and the store has only grown, but for comments that can perhaps not be read any more. */
  ghost predicate Moved(before: seq<Issue>, after: seq<Issue>, limits: Limits) {
    StoreInv(after, limits) && StoreMoves(before, after, limits)
  }

  lemma KeptIsMoved(a: seq<Issue>, b: seq<Issue>, limits: Limits)
    requires Kept(a, b, limits)
    ensures Moved(a, b, limits)
  {
    GrowsMoves(a, b, limits);
  }

  lemma MovedTransitive(a: seq<Issue>, b: seq<Issue>, c: seq<Issue>, limits: Limits)
    requires Moved(a, b, limits) && Moved(b, c, limits)
    ensures Moved(a, c, limits)
  {
    MovesTransitive(a, b, c, limits);
  }

  lemma KeptTransitive(a: seq<Issue>, b: seq<Issue>, c: seq<Issue>, limits: Limits)
    requires Kept(a, b, limits) && Kept(b, c, limits)
    ensures Kept(a, c, limits)
  {
    GrowsTransitive(a, b, c, limits);
  }

  /** At most the issue with this number has changed. */
  predicate OnlyAt(before: seq<Issue>, after: seq<Issue>, number: nat) {
    |before| == |after| && forall n | 0 <= n < |before| && n != number :: after[n] == before[n]
  }

  // ----- refresh_issue_identity -----

  predicate HasIdentity(i: Issue, title: string, tag: string) { i.title == title && tag in i.labels }

  method RefreshIdentity(c: Client, number: nat, issue: Issue, title: string, tag: string, ghost s: State,
                         limits: Limits)
    returns (r: Reply<(Issue, bool)>)
    requires number < |c.issues| && c.issues[number] == issue
    requires StoreInv(c.issues, limits) && StateOf(issue, limits) == Some(s)
    modifies c`issues
    ensures Kept(old(c.issues), c.issues, limits) && OnlyAt(old(c.issues), c.issues, number)
    ensures StateOf(c.issues[number], limits) == Some(s)
    ensures c.issues[number] == issue || c.issues[number] == issue.(title := title, labels := issue.labels + {tag})
    ensures r.Done? ==> r.value.0 == c.issues[number] && HasIdentity(r.value.0, title, tag)
    ensures r.Done? ==> (r.value.1 <==> !HasIdentity(issue, title, tag))
    ensures HasIdentity(issue, title, tag) ==> c.issues == old(c.issues)
    ensures r.Raised? ==> r.error == Unavailable
    ensures c.reliable ==> r.Done?
  {
    hide StoreInv;
    hide StateOf;
    GrowsReflexive(c.issues, limits);
    var newTitle := if issue.title != title then Some(title) else None;
    var newLabels := if tag !in issue.labels then Some(issue.labels + {tag}) else None;
    if newTitle.None? && newLabels.None? {
      return Done((issue, false));
    }
    var patch := Patch(newTitle, newLabels, None, None);
    IdentityStep(c.issues, number, s, patch, limits);
    var reply := c.PatchIssue(number, patch);
    r := if reply.Done? then Done((reply.value, true)) else reply.PropagateFailure();
  }

  // ----- post_comment_once -----

  /** The comments hold a marker with this batch id. */
  predicate Shows(comments: seq<Comment>, value: string, limits: Limits) {
    CommentMarkersOf(comments, limits).Ok? && HasBatch(CommentMarkersOf(comments, limits).value, value)
  }

  /** Posts a comment unless its batch id is there already. A write that raised counts when a later read shows it. */
  method PostCommentOnce(c: Client, number: nat, body: string, value: string, comments: seq<Comment>, limits: Limits)
    returns (r: Reply<()>)
    requires number < |c.issues| && c.issues[number].comments == comments
    modifies c`issues
    ensures c.issues == old(c.issues) ||
            (CommentMarkersOf(comments, limits).Ok? && !Shows(comments, value, limits) &&
             c.issues == old(c.issues)[number := WithComment(old(c.issues)[number], body)])
    ensures r.Done? ==> CommentMarkersOf(comments, limits).Ok?
    ensures r.Done? ==> (Shows(comments, value, limits) <==> c.issues == old(c.issues))
    ensures CommentMarkersOf(comments, limits).Ok? && r.Raised? ==> r.error == Unavailable
    ensures CommentMarkersOf(comments, limits).Ok? && c.reliable ==> r.Done?
    ensures c.steady && r.Raised? && Shows(comments + [Comment(body, true)], value, limits) ==>
      c.issues == old(c.issues)
    ensures CommentMarkersOf(comments, limits).Err? ==>
      c.issues == old(c.issues) && r == Raised(CommentMarkersOf(comments, limits).error)
  {
    hide CommentMarkersOf;
    var markers := CommentMarkers(comments, limits);
    if markers.Err? { return Raised(markers.error); }
    if HasBatch(markers.value, value) { return Done(()); }
    var posted := c.PostComment(number, body);
    assert WithComment(old(c.issues)[number], body) != old(c.issues)[number] by {
      assert |WithComment(old(c.issues)[number], body).comments| != |comments|;
    }
    if !posted.Raised? { return posted; }
    var attempt := 0;
    ghost var posting := comments + [Comment(body, true)];
    while attempt < CONFIRMATIONS
      modifies {}
      invariant attempt > 0 && c.steady && Shows(posting, value, limits) ==> c.issues == old(c.issues)
    {
      attempt := attempt + 1;
      var reply := c.Comments(number);
      if reply.Died? { return Died; }
      if reply.Done? {
        var seen := CommentMarkers(reply.value, limits);
        if seen.Ok? && HasBatch(seen.value, value) { return Done(()); }
      }
    }
    return Raised(posted.error);
  }

  // ----- reconcile_campaign -----

  /** The parts of an issue that writing comments and bodies leaves alone. */
  predicate SameIdentity(a: Issue, b: Issue) {
    a.title == b.title && a.labels == b.labels && a.open == b.open && a.bot == b.bot && a.pullRequest == b.pullRequest
  }

  /** What the texts and the report of a run have to be free of. */
  ghost predicate CleanRun(texts: Texts, current: Applied) { CleanTexts(texts) && CleanApplied(current) }

  /** The comment of a transition parses back to its marker. */
  lemma TransitionParses(s: State, comments: seq<Comment>, log: seq<Applied>, texts: Texts, current: Applied,
                         limits: Limits)
    requires ValidState(s) && History(s, comments, limits, log)
    requires CleanRun(texts, current) && ValidApplied(current)
    ensures var m := NewMarker(s, log, current);
            && ValidMarker(m) && m == LogMarker(s.campaign, s.origin, log + [current], |log| + 1)
            && (TransitionComment(texts, m, limits).Ok? ==>
                  ParseMarker(TransitionComment(texts, m, limits).value, limits) == Ok(Some(m)))
  {
    hide CommentMarkersOf;
    hide LogOf;
    hide ParseMarker;
    hide CleanApplied;
    hide ValidApplied;
    ReplayedHistory(s, comments, limits, log);
    var m := NewMarker(s, log, current);
    var replayed := Replayed(s, log);
    DigestIsDigest(BatchJson(s.campaign, |log| + 1, replayed.applied.semanticDigest, current.semanticDigest));
    ReplayedDigest(s, log);
    assert IsDigest(replayed.applied.semanticDigest) by { ValidHasDigests(replayed.applied); }
    assert IsDigest(s.campaign) && s.campaign != "";
    ParseComment(texts.update, m, limits);
    ParseComment(texts.updateShort, m, limits);
  }

  lemma ValidHasDigests(a: Applied)
    requires ValidApplied(a)
    ensures IsDigest(a.semanticDigest) && IsDigest(a.bodyDigest)
  {
  }

  /** Lines 278-302: recover the log, and post the transition of this run when the report differs from its end. */
  method AdvanceLog(c: Client, number: nat, issue: Issue, state: State, ghost log: seq<Applied>, texts: Texts,
                    current: Applied, limits: Limits)
    returns (r: Reply<(State, bool, bool)>)
    requires number < |c.issues| && c.issues[number] == issue
    requires StoreInv(c.issues, limits) && StateOf(issue, limits) == Some(state)
    requires Logged(state, issue.comments, limits, log)
    requires CleanRun(texts, current)
    modifies c`issues
    ensures Kept(old(c.issues), c.issues, limits) && OnlyAt(old(c.issues), c.issues, number)
    ensures StateOf(c.issues[number], limits) == Some(state)
    ensures c.issues[number].(comments := issue.comments) == issue
    ensures r.Done? ==> Readable(issue.comments, limits)
    ensures r.Done? ==>
      && r.value == (Target(state, log, current), state.sequence < |log|, Transitions(state, log, current))
      && History(Replayed(state, log), c.issues[number].comments, limits, TargetLog(state, log, current))
      && (ValidApplied(current) || Target(state, log, current) == state)
      && c.issues[number].comments == issue.comments + PostedComments(state, log, texts, current, limits)
      && (Transitions(state, log, current) ==> ManagedBody(issue.body, texts, Target(state, log, current), limits).Ok?)
    ensures !Transitions(state, log, current) ==> c.issues == old(c.issues)
    ensures r.Raised? && r.error == TooLarge ==>
      c.issues == old(c.issues) && !Fits(issue, state, log, texts, current, limits)
    ensures r.Raised? && r.error == Malformed ==> !ValidApplied(current) && Target(state, log, current) != state
    ensures r.Raised? ==> r.error in {TooLarge, Malformed, Unavailable}
    ensures c.reliable && r.Raised? ==> r.error != Unavailable
    ensures c.steady && r.Raised? ==> c.issues == old(c.issues)
    ensures c.reliable ==> !r.Died?
  {
    hide StoreInv;
    hide StateOf;
    hide ValidApplied;
    hide CleanApplied;
    hide CommentMarkersOf;
    hide ManagedBody;
    hide TransitionComment;
    hide ParseMarker;
    hide BatchId;
    GrowsReflexive(c.issues, limits);
    LoggedCases(state, issue.comments, limits, log);
    var read := c.Comments(number);
    if !read.Done? { return read.PropagateFailure(); }
    var comments := read.value;
    if Readable(comments, limits) {
      RecoveryIsReplay(state, comments, limits, log);
      ReplayedHistory(state, comments, limits, log);
    }
    var recovery := RecoverFromComments(state, comments, limits);
    if recovery.Err? { return Raised(recovery.error); }
    var replayed, recovered := recovery.value.0, recovery.value.1;
    assert replayed == Replayed(state, log) && (recovered <==> state.sequence < |log|);
    var previous := replayed.applied;
    if previous.semanticDigest == current.semanticDigest {
      var next := replayed;
      if recovered || previous.bodyDigest != current.bodyDigest {
        var made := MakeState(replayed.campaign, replayed.sequence, current, replayed.origin);
        if made.Err? { return Raised(made.error); }
        next := made.value;
      }
      return Done((next, recovered, false));
    }
    r := PostTransition(c, number, issue, state, log, replayed, comments, texts, current, limits);
    if r.Done? { r := Done((r.value.0, recovered, true)); }
  }

  lemma ShowsLast(comments: seq<Comment>, text: string, m: Marker, limits: Limits)
    requires CommentMarkersOf(comments, limits).Ok?
    requires CommentMarkersOf(comments + [Comment(text, true)], limits) ==
      Ok(CommentMarkersOf(comments, limits).value + [m])
    ensures Shows(comments + [Comment(text, true)], m.batchId, limits)
  {
    hide CommentMarkersOf;
    var ms := CommentMarkersOf(comments, limits).value;
    assert (ms + [m])[|ms|] == m;
  }

  /** Posting the comment of a new transition extends the log. */
  lemma TransitionStep(issues: seq<Issue>, n: nat, s: State, log: seq<Applied>, texts: Texts, current: Applied,
                       limits: Limits)
    requires StoreInv(issues, limits) && n < |issues| && StateOf(issues[n], limits) == Some(s) && ValidState(s)
    requires History(s, issues[n].comments, limits, log) && CleanRun(texts, current) && ValidApplied(current)
    requires TransitionComment(texts, NewMarker(s, log, current), limits).Ok?
    ensures var m := NewMarker(s, log, current);
            var i := WithComment(issues[n], TransitionComment(texts, m, limits).value);
            && StateOf(i, limits) == Some(s) && Kept(issues, issues[n := i], limits)
            && History(Replayed(s, log), i.comments, limits, log + [current])
            && CommentMarkersOf(issues[n].comments, limits).Ok? && !Shows(issues[n].comments, m.batchId, limits)
            && Shows(i.comments, m.batchId, limits)
  {
    hide StoreInv;
    hide StoreGrows;
    hide StoreMoves;
    hide StateOf;
    hide ValidState;
    hide ValidApplied;
    hide ValidMarker;
    hide CleanRun;
    hide CommentMarkersOf;
    hide TransitionComment;
    hide ParseMarker;
    hide BatchId;
    hide Logged;
    var comments, m := issues[n].comments, NewMarker(s, log, current);
    var text := TransitionComment(texts, m, limits).value;
    HistoryReads(s, comments, limits, log);
    TransitionParses(s, comments, log, texts, current, limits);
    NewBatchIsFresh(s, comments, limits, log, current);
    ReplayedHistory(s, comments, limits, log);
    CleanRunHas(texts, current);
    hide History;
    hide LogMarker;
    hide NewMarker;
    FreshComment(comments, text, m, limits);
    ShowsLast(comments, text, m, limits);
    TransitionExtendsHistory(s, comments, limits, log, text, m, current);
    TransitionExtendsHistory(Replayed(s, log), comments, limits, log, text, m, current);
    HistoryIsLogged(s, comments + [Comment(text, true)], limits, log + [current]);
    HistoryReads(s, comments + [Comment(text, true)], limits, log + [current]);
    CommentStep(issues, n, s, text, log + [current], limits);
  }

  lemma CleanRunHas(texts: Texts, current: Applied)
    requires CleanRun(texts, current)
    ensures CleanApplied(current)
  {
  }

  /** Lines 287-302. Everything that can be too large is rendered before the comment is posted. */
  method PostTransition(c: Client, number: nat, issue: Issue, ghost state: State, ghost log: seq<Applied>,
                        replayed: State, comments: seq<Comment>, texts: Texts, current: Applied, limits: Limits)
    returns (r: Reply<(State, bool, bool)>)
    requires number < |c.issues| && c.issues[number] == issue && issue.comments == comments
    requires StoreInv(c.issues, limits) && StateOf(issue, limits) == Some(state)
    requires History(state, comments, limits, log) && replayed == Replayed(state, log)
    requires CleanRun(texts, current) && Transitions(state, log, current)
    modifies c`issues
    ensures Kept(old(c.issues), c.issues, limits) && OnlyAt(old(c.issues), c.issues, number)
    ensures StateOf(c.issues[number], limits) == Some(state)
    ensures c.issues[number].(comments := issue.comments) == issue
    ensures r.Done? ==>
      && r.value.0 == Target(state, log, current) && ValidApplied(current)
      && c.issues[number].comments == comments + PostedComments(state, log, texts, current, limits)
      && History(Replayed(state, log), c.issues[number].comments, limits, TargetLog(state, log, current))
      && ManagedBody(issue.body, texts, Target(state, log, current), limits).Ok?
    ensures r.Raised? && r.error == TooLarge ==>
      c.issues == old(c.issues) && !Fits(issue, state, log, texts, current, limits)
    ensures r.Raised? && r.error == Malformed ==> !ValidApplied(current) && Target(state, log, current) != state
    ensures r.Raised? ==> r.error in {TooLarge, Malformed, Unavailable}
    ensures c.reliable && r.Raised? ==> r.error != Unavailable
    ensures c.steady && r.Raised? ==> c.issues == old(c.issues)
    ensures c.reliable ==> !r.Died?
  {
    hide StoreInv;
    hide StateOf;
    hide ValidApplied;
    hide CleanApplied;
    hide CommentMarkersOf;
    hide ManagedBody;
    hide TransitionComment;
    hide ParseMarker;
    hide BatchId;
    hide LogOf;
    hide StoreGrows;
    hide StoreMoves;
    GrowsReflexive(c.issues, limits);
    ReplayedHistory(state, comments, limits, log);
    var sequence := replayed.sequence + 1;
    var marker := TransitionMarker(replayed.campaign, sequence, replayed.applied.semanticDigest, current);
    assert marker == NewMarker(state, log, current);
    var comment := TransitionComment(texts, marker, limits);
    if comment.Err? { return Raised(comment.error); }
    var made := MakeState(replayed.campaign, sequence, current, replayed.origin);
    if made.Err? { return Raised(made.error); }
    var next := made.value;
    assert next == Target(state, log, current);
    var body := ManagedBody(issue.body, texts, next, limits);
    if body.Err? {
      SoundAt(c.issues, number, limits);
      BodyFailsOnlyOnSize(issue, state, texts, next, limits);
      return Raised(body.error);
    }
    TransitionStep(c.issues, number, state, log, texts, current, limits);
    var posted := PostCommentOnce(c, number, comment.value, marker.batchId, comments, limits);
    r := if posted.Done? then Done((next, false, true)) else posted.PropagateFailure();
  }

  lemma SoundAt(issues: seq<Issue>, n: nat, limits: Limits)
    requires StoreInv(issues, limits) && n < |issues|
    ensures Sound(issues[n], limits)
  {
  }

  /** The body of a tended issue can always be rendered onto. */
  lemma BodyFailsOnlyOnSize(issue: Issue, s: State, texts: Texts, t: State, limits: Limits)
    requires Sound(issue, limits) && StateOf(issue, limits) == Some(s)
    ensures Renderable(issue.body)
    ensures ManagedBody(issue.body, texts, t, limits).Err? ==>
      ManagedBody(issue.body, texts, t, limits).error == TooLarge
  {
    hide ManagedBody;
    assert Carries(issue.body, s);
    ManagedBodyFails(issue.body, texts, t, limits);
  }

  /** The body that is written for the target carries it, and rendering it again changes nothing. */
  lemma TargetBody(issue: Issue, s: State, log: seq<Applied>, texts: Texts, current: Applied, limits: Limits)
    requires Sound(issue, limits) && StateOf(issue, limits) == Some(s) && History(s, issue.comments, limits, log)
    requires CleanRun(texts, current) && (ValidApplied(current) || Target(s, log, current) == s)
    ensures var t := Target(s, log, current);
            var rendered := ManagedBody(issue.body, texts, t, limits);
            && (rendered.Err? ==> rendered.error == TooLarge)
            && (rendered.Ok? ==>
                  && Carries(rendered.value, t) && Utf8Size(rendered.value) <= limits.issueBody
                  && ComparableBody(rendered.value).Ok?
                  && Stable(rendered.value, texts, t, limits))
  {
    hide ManagedBody;
    hide ComparableBody;
    hide Carries;
    hide CleanTexts;
    hide CommentMarkersOf;
    hide LogOf;
    hide ValidApplied;
    var t := Target(s, log, current);
    BodyFailsOnlyOnSize(issue, s, texts, t, limits);
    TargetValid(s, issue.comments, limits, log, current);
    assert CleanApplied(t.applied) by { TargetClean(s, issue.comments, limits, log, current); }
    if ManagedBody(issue.body, texts, t, limits).Ok? {
      var b := ManagedBody(issue.body, texts, t, limits).value;
      RenderedSize(issue.body, texts, t, limits);
      ManagedBodyCarries(issue.body, texts, t, limits);
      ManagedBodyFixedPoint(issue.body, texts, t, limits);
      CarriedCompares(b, t);
    }
  }

  lemma RenderedSize(body: string, texts: Texts, s: State, limits: Limits)
    ensures ManagedBody(body, texts, s, limits).Ok? ==>
      Utf8Size(ManagedBody(body, texts, s, limits).value) <= limits.issueBody
  {
  }

  lemma TargetClean(s: State, comments: seq<Comment>, limits: Limits, log: seq<Applied>, current: Applied)
    requires History(s, comments, limits, log) && CleanApplied(current)
    ensures CleanApplied(Target(s, log, current).applied)
  {
    hide CommentMarkersOf;
    hide LogOf;
    hide CleanApplied;
  }

  /** A body that carries a state has a managed region to compare. */
  lemma CarriedCompares(body: string, s: State)
    requires Carries(body, s)
    ensures ComparableBody(body).Ok?
  {
    var pre, visible, post :| RenderedAs(body, pre, visible, Print(StateJson(s)), post);
    SpanOfRendered(body, pre, visible, Print(StateJson(s)), post);
  }

  /** The issue carries the target of the run, its log is complete and its body would not change again. */
  ghost predicate AtTarget(i: Issue, s: State, log: seq<Applied>, texts: Texts, current: Applied, limits: Limits) {
    && s.sequence <= |log|
    && var t := Target(s, log, current);
       && StateOf(i, limits) == Some(t)
       && History(t, i.comments, limits, TargetLog(s, log, current)) && t.sequence == |TargetLog(s, log, current)|
       && Stable(i.body, texts, t, limits)
  }

  lemma HistoryBound(s: State, comments: seq<Comment>, limits: Limits, log: seq<Applied>)
    requires History(s, comments, limits, log)
    ensures s.sequence <= |log|
  {
  }

  lemma StableMeaning(body: string, texts: Texts, s: State, limits: Limits)
    ensures Stable(body, texts, s, limits) <==>
      && ManagedBody(body, texts, s, limits).Ok? && ComparableBody(body).Ok?
      && ComparableBody(body) == ComparableBody(ManagedBody(body, texts, s, limits).value)
  {
  }

  /** Lines 303-317: patch the body, unless nothing but volatile lines would change. */
  method WriteBody(c: Client, number: nat, ghost issue: Issue, starting: State, ghost log: seq<Applied>, target: State,
                   transitioned: bool, recovered: bool, texts: Texts, ghost current: Applied, limits: Limits)
    returns (r: Reply<(Issue, State, bool)>)
    requires number < |c.issues| && StoreInv(c.issues, limits) && StateOf(c.issues[number], limits) == Some(starting)
    requires c.issues[number].(comments := issue.comments) == issue && StateOf(issue, limits) == Some(starting)
    requires Sound(issue, limits) && History(starting, issue.comments, limits, log)
    requires CleanRun(texts, current) && target == Target(starting, log, current)
    requires ValidApplied(current) || target == starting
    requires History(Replayed(starting, log), c.issues[number].comments, limits, TargetLog(starting, log, current))
    requires transitioned == Transitions(starting, log, current) && recovered == (starting.sequence < |log|)
    requires transitioned ==> ManagedBody(issue.body, texts, target, limits).Ok?
    modifies c`issues
    ensures Kept(old(c.issues), c.issues, limits) && OnlyAt(old(c.issues), c.issues, number)
    ensures StateOf(c.issues[number], limits).Some?
    ensures SameIdentity(c.issues[number], issue) && c.issues[number].comments == old(c.issues[number].comments)
    ensures r.Done? ==> r.value.0 == c.issues[number] && r.value.1 == target &&
                        AtTarget(c.issues[number], starting, log, texts, current, limits)
    ensures r.Done? && !r.value.2 ==> c.issues == old(c.issues) && target == starting
    ensures !transitioned && !recovered && target == starting && Stable(issue.body, texts, target, limits) ==>
      c.issues == old(c.issues) && (r.Done? ==> !r.value.2)
    ensures r.Raised? && r.error == TooLarge ==> c.issues == old(c.issues)
    ensures r.Raised? && r.error == TooLarge ==> !transitioned && ManagedBody(issue.body, texts, target, limits).Err?
    ensures r.Raised? ==> r.error in {TooLarge, Unavailable}
    ensures c.reliable && r.Raised? ==> r.error == TooLarge
    ensures c.reliable ==> !r.Died?
  {
    hide StoreInv;
    hide StateOf;
    hide ParsedState;
    hide ValidApplied;
    hide CleanApplied;
    hide CommentMarkersOf;
    hide ManagedBody;
    hide ComparableBody;
    hide Carries;
    hide History;
    hide Stable;
    hide ParseState;
    hide Target;
    hide TargetLog;
    hide CleanTexts;
    GrowsReflexive(c.issues, limits);
    HistoryBound(starting, issue.comments, limits, log);
    TargetBody(issue, starting, log, texts, current, limits);
    TargetHistory(starting, issue.comments, c.issues[number].comments, limits, log, current);
    var read := c.ReadIssue(number);
    if !read.Done? { return read.PropagateFailure(); }
    var latest := read.value;
    RecognisedBody(c.issues, number, starting, limits);
    if !StillCurrent(latest.body, starting, target, limits) { return Raised(Conflict); }
    var rendered := ManagedBody(latest.body, texts, target, limits);
    if rendered.Err? { return Raised(rendered.error); }
    var body := rendered.value;
    if !transitioned && !recovered && starting == target {
      var before, after := ComparableBody(latest.body), ComparableBody(body);
      TendedCompares(c.issues, number, starting, limits);
      StableMeaning(latest.body, texts, target, limits);
      if before == after {
        return Done((latest, target, false));
      }
    }
    BodyStep(c.issues, number, starting, body, target, TargetLog(starting, log, current), limits);
    var reply := c.PatchIssue(number, Patch(None, None, Some(body), None));
    r := if reply.Done? then Done((reply.value, target, true)) else reply.PropagateFailure();
  }

  /** Lines 305-311: the body still carries the state that the run started from, or already the one it will write. */
  predicate StillCurrent(body: string, starting: State, target: State, limits: Limits) {
    match ParseState(body, limits)
    case Ok(Some(latest)) => latest.campaign == target.campaign && (latest == starting || latest == target)
    case _ => false
  }

  lemma RecognisedBody(issues: seq<Issue>, n: nat, s: State, limits: Limits)
    requires StoreInv(issues, limits) && n < |issues| && StateOf(issues[n], limits) == Some(s)
    ensures ParseState(issues[n].body, limits) == Ok(Some(s))
  {
    hide ParseState;
  }

  lemma TendedCompares(issues: seq<Issue>, n: nat, s: State, limits: Limits)
    requires StoreInv(issues, limits) && n < |issues| && StateOf(issues[n], limits) == Some(s)
    ensures ComparableBody(issues[n].body).Ok?
  {
    assert Sound(issues[n], limits);
    CarriedCompares(issues[n].body, s);
  }

  /** `reconcile_campaign`. */
  method ReconcileCampaign(c: Client, number: nat, issue: Issue, state: State, ghost log: seq<Applied>, texts: Texts,
                           current: Applied, limits: Limits)
    returns (r: Reply<(Issue, State, bool)>)
    requires number < |c.issues| && c.issues[number] == issue
    requires StoreInv(c.issues, limits) && StateOf(issue, limits) == Some(state)
    requires Logged(state, issue.comments, limits, log)
    requires CleanRun(texts, current)
    modifies c`issues
    ensures Kept(old(c.issues), c.issues, limits) && OnlyAt(old(c.issues), c.issues, number)
    ensures StateOf(c.issues[number], limits).Some? && SameIdentity(c.issues[number], issue)
    ensures r.Done? ==> Readable(issue.comments, limits)
    ensures r.Done? ==> r.value.0 == c.issues[number] && r.value.1 == Target(state, log, current) &&
                        AtTarget(c.issues[number], state, log, texts, current, limits)
    ensures r.Done? ==>
      c.issues[number].comments == issue.comments + PostedComments(state, log, texts, current, limits)
    ensures r.Done? && !r.value.2 ==> c.issues == old(c.issues)
    ensures AtTarget(issue, state, log, texts, current, limits) ==>
      c.issues == old(c.issues) && (r.Done? ==> !r.value.2)
    ensures r.Raised? && r.error == TooLarge ==>
      c.issues == old(c.issues) && !Fits(issue, state, log, texts, current, limits)
    ensures r.Raised? && r.error == Malformed ==> !ValidApplied(current) && Target(state, log, current) != state
    ensures r.Raised? ==> r.error in {TooLarge, Malformed, Unavailable}
    ensures c.reliable && r.Raised? ==> r.error != Unavailable
    ensures c.reliable ==> !r.Died?
  {
    hide StoreInv;
    hide StateOf;
    hide ValidApplied;
    hide CleanApplied;
    hide CommentMarkersOf;
    hide ManagedBody;
    hide ComparableBody;
    hide TransitionComment;
    SoundAt(c.issues, number, limits);
    LoggedCases(state, issue.comments, limits, log);
    var advanced := AdvanceLog(c, number, issue, state, log, texts, current, limits);
    if !advanced.Done? { return advanced.PropagateFailure(); }
    ghost var between := c.issues;
    var target, recovered, transitioned := advanced.value.0, advanced.value.1, advanced.value.2;
    r := WriteBody(c, number, issue, state, log, target, transitioned, recovered, texts, current, limits);
    KeptTransitive(old(c.issues), between, c.issues, limits);
  }
}
