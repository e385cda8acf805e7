/** Every history of the bot: runs for any report and any spec.lock that may stop at any request, and people who edit
    issues in between. */
module AuditRuns {
  import opened Strings
  import opened Json
  import opened AuditState
  import opened AuditItems
  import Drift = AuditDrift
  import opened AuditMarks
  import opened AuditRender
  import opened AuditLog
  import opened GitHub
  import opened AuditStore
  import opened AuditTarget
  import opened CampaignIssue
  import opened Campaigns
  import opened Reconciler

  // ----- The log only grows -----

  lemma HistoryExtends(s: State, a: seq<Comment>, la: seq<Applied>, t: State, b: seq<Comment>, lb: seq<Applied>,
                       limits: Limits)
    requires History(s, a, limits, la) && History(t, b, limits, lb)
    requires a <= b && s.campaign == t.campaign && s.origin == t.origin
    ensures la <= lb
  {
    hide ParseMarker;
    hide BatchId;
    hide CleanApplied;
    assert a + b[|a|..] == b;
    MarkersSplit(a, b[|a|..], limits);
    var ms, ns := MarkersOf(a, limits).value, MarkersOf(b, limits).value;
    if |la| > 0 {
      var m := LogMarker(s.campaign, s.origin, la, |la|);
      assert m in ms && m in ns && IsTransition(m, s.campaign);
    }
    forall i | 0 <= i < |la| ensures la[i] == lb[i] {
      var m := LogMarker(s.campaign, s.origin, la, i + 1);
      assert m in ms && m in ns && IsTransition(m, s.campaign);
    }
  }

  /** What can be read of the comments only becomes more. */
  lemma ReadsFurther(s: State, a: seq<Comment>, la: seq<Applied>, j: nat, t: State, b: seq<Comment>, lb: seq<Applied>,
                     k: nat, limits: Limits)
    requires j <= |a| && k <= |b| && LoggedUpTo(s, a, limits, la, j) && LoggedUpTo(t, b, limits, lb, k) && a <= b
    ensures a[..j] <= b[..k]
  {
    hide ParseMarker;
    HistoryReads(s, a[..j], limits, la);
    HistoryReads(t, b[..k], limits, lb);
    hide History;
    hide MarkersOf;
    if k < j {
      assert a[..j][..k] == b[..k] && a[..j][k] == b[k];
      RaisesAt(a[..j], k, limits);
      assert false;
    }
  }

  /** Later comments of the same campaign tell the same log, and perhaps more. */
  lemma LogGrows(s: State, a: seq<Comment>, la: seq<Applied>, t: State, b: seq<Comment>, lb: seq<Applied>,
                 limits: Limits)
    requires Logged(s, a, limits, la) && Logged(t, b, limits, lb)
    requires a <= b && s.campaign == t.campaign && s.origin == t.origin
    ensures la <= lb
  {
    hide LoggedUpTo;
    var j :| 0 <= j <= |a| && LoggedUpTo(s, a, limits, la, j);
    var k :| 0 <= k <= |b| && LoggedUpTo(t, b, limits, lb, k);
    ReadsFurther(s, a, la, j, t, b, lb, k, limits);
    UpToIsHistory(s, a, la, j, limits);
    UpToIsHistory(t, b, lb, k, limits);
    HistoryExtends(s, a[..j], la, t, b[..k], lb, limits);
  }

  lemma UpToIsHistory(s: State, comments: seq<Comment>, log: seq<Applied>, k: nat, limits: Limits)
    requires k <= |comments| && LoggedUpTo(s, comments, limits, log, k)
    ensures History(s, comments[..k], limits, log)
    ensures k < |comments| ==> StuckAt(comments, k, limits)
  {
    hide History;
  }

  /** A campaign issue keeps its campaign and its origin, its sequence never falls, and its log is only extended. */
  ghost predicate Progresses(a: Issue, b: Issue, limits: Limits) {
    StateOf(a, limits).Some? ==>
      && StateOf(b, limits).Some?
      && var s, t := StateOf(a, limits).value, StateOf(b, limits).value;
         && s.campaign == t.campaign && s.origin == t.origin && s.sequence <= t.sequence
         && a.comments <= b.comments
         && forall la, lb :: Logged(s, a.comments, limits, la) && Logged(t, b.comments, limits, lb) ==> la <= lb
  }

  ghost predicate Progress(a: seq<Issue>, b: seq<Issue>, limits: Limits) {
    |a| <= |b| && forall n :: 0 <= n < |a| ==> Progresses(a[n], b[n], limits)
  }

  lemma MovesAreProgress(a: seq<Issue>, b: seq<Issue>, limits: Limits)
    requires StoreMoves(a, b, limits)
    ensures Progress(a, b, limits)
  {
    hide StateOf;
    hide Logged;
    forall n | 0 <= n < |a| ensures Progresses(a[n], b[n], limits) {
      assert IssueMoves(a[n], b[n], limits);
      if StateOf(a[n], limits).Some? {
        var s, t := StateOf(a[n], limits).value, StateOf(b[n], limits).value;
        forall la, lb | Logged(s, a[n].comments, limits, la) && Logged(t, b[n].comments, limits, lb) ensures la <= lb {
          LogGrows(s, a[n].comments, la, t, b[n].comments, lb, limits);
        }
      }
    }
  }

  lemma ProgressTransitive(a: seq<Issue>, b: seq<Issue>, c: seq<Issue>, limits: Limits)
    requires Progress(a, b, limits) && Progress(b, c, limits) && StoreInv(b, limits)
    ensures Progress(a, c, limits)
  {
    hide StateOf;
    hide Logged;
    hide Sound;
    hide OnePerCampaign;
    forall n | 0 <= n < |a| ensures Progresses(a[n], c[n], limits) {
      assert Progresses(a[n], b[n], limits) && Progresses(b[n], c[n], limits);
      if StateOf(a[n], limits).Some? {
        var s, t, u := StateOf(a[n], limits).value, StateOf(b[n], limits).value, StateOf(c[n], limits).value;
        var lb := SomeLog(b, n, t, limits);
        forall la, lc | Logged(s, a[n].comments, limits, la) && Logged(u, c[n].comments, limits, lc) ensures la <= lc {
          assert la <= lb && lb <= lc;
        }
      }
    }
  }

  // ----- The reported changes add up -----

  /** The item maps that a campaign went through: its origin, and the items of every transition. */
  function ItemChain(origin: Items, log: seq<Applied>): (chain: seq<Items>)
    ensures |chain| == |log| + 1 && chain[0] == origin
    ensures forall k :: 0 < k <= |log| ==> chain[k] == log[k - 1].items
  {
    [origin] + seq(|log|, i requires 0 <= i < |log| => log[i].items)
  }

  lemma ValidHasItemsDigest(a: Applied)
    requires ValidApplied(a)
    ensures a.semanticDigest == ItemsDigest(a.items)
  {
  }

  /** An issue carries the items that its log has at its sequence, and at every point of the log there are as many as
      there were at the origin, plus what the transitions up to there report as new, minus what they report as
      resolved. */
  lemma LogAddsUp(s: State, comments: seq<Comment>, limits: Limits, log: seq<Applied>, origin: Items)
    requires Logged(s, comments, limits, log) && ValidState(s) && ItemsDigest(origin) == s.origin
    ensures s.sequence <= |log| && s.applied.items == ItemChain(origin, log)[s.sequence]
    ensures forall k :: 0 <= k <= |log| ==>
      |ItemChain(origin, log)[k]| == |origin| + Drift.NetChange(ItemChain(origin, log)[..k + 1])
  {
    hide History;
    hide ValidApplied;
    hide ItemsDigest;
    hide CommentMarkersOf;
    hide Drift.NetChange;
    var n :| 0 <= n <= |comments| && LoggedUpTo(s, comments, limits, log, n);
    UpToIsHistory(s, comments, log, n, limits);
    HistoryDigest(s, comments[..n], log, limits);
    LogIsValid(s, comments[..n], limits, log);
    ValidHasItemsDigest(s.applied);
    var chain := ItemChain(origin, log);
    if s.sequence > 0 { ValidHasItemsDigest(log[s.sequence - 1]); }
    ItemsDigestInjective(s.applied.items, chain[s.sequence]);
    ChainAddsUp(chain);
  }

  lemma ChainAddsUp(chain: seq<Items>)
    requires chain != []
    ensures forall k :: 0 <= k < |chain| ==> |chain[k]| == |chain[0]| + Drift.NetChange(chain[..k + 1])
  {
    forall k | 0 <= k < |chain| ensures |chain[k]| == |chain[0]| + Drift.NetChange(chain[..k + 1]) {
      Drift.ReportsAddUp(chain[..k + 1]);
    }
  }

  lemma HistoryDigest(s: State, comments: seq<Comment>, log: seq<Applied>, limits: Limits)
    requires History(s, comments, limits, log)
    ensures s.sequence <= |log| && s.applied.semanticDigest == DigestAt(s.origin, log, s.sequence)
  {
  }

  /** What a run leaves behind are the items of its report, and their number is accounted for by the whole log. */
  lemma SettledAddsUp(i: Issue, campaign: string, run: Run, items: Items, limits: Limits, origin: Items)
    returns (log: seq<Applied>)
    requires Settled(i, campaign, run, items, limits) && ItemsDigest(origin) == StateOf(i, limits).value.origin
    ensures History(StateOf(i, limits).value, i.comments, limits, log) && |log| == StateOf(i, limits).value.sequence
    ensures StateOf(i, limits).value.applied.items == items
    ensures |items| == |origin| + Drift.NetChange(ItemChain(origin, log))
  {
    hide StateOf;
    hide History;
    hide Stable;
    hide ItemsDigest;
    hide Sha256Json;
    hide ValidState;
    hide Drift.NetChange;
    var s := StateOf(i, limits).value;
    StateIsValid(i, limits);
    log :| History(s, i.comments, limits, log) && |log| == s.sequence;
    EndAddsUp(s, i.comments, limits, log, origin, items);
  }

  lemma EndAddsUp(s: State, comments: seq<Comment>, limits: Limits, log: seq<Applied>, origin: Items, items: Items)
    requires History(s, comments, limits, log) && ValidState(s) && |log| == s.sequence
    requires ItemsDigest(origin) == s.origin && ItemsDigest(items) == s.applied.semanticDigest
    ensures s.applied.items == items && |items| == |origin| + Drift.NetChange(ItemChain(origin, log))
  {
    hide History;
    hide Logged;
    hide ItemsDigest;
    hide ValidApplied;
    hide Drift.NetChange;
    HistoryIsLogged(s, comments, limits, log);
    LogAddsUp(s, comments, limits, log, origin);
    ValidHasItemsDigest(s.applied);
    ItemsDigestInjective(s.applied.items, items);
    assert ItemChain(origin, log)[..|log| + 1] == ItemChain(origin, log);
  }

  // ----- People -----

  /** The managed region is the same, and what stands around it holds none. */
  predicate KeepsRegion(a: string, b: string) {
    match (ManagedSpan(a), ManagedSpan(b))
    case (Ok(Some((p, q))), Ok(Some((x, y)))) =>
      p <= q <= |a| && x <= y <= |b| && a[p..q] == b[x..y] && BodyFree(b[..x]) && BodyFree(b[y..])
    case _ => false
  }

  /** A comment that is none of the audit: the account of the bot also posts guidance for reviewers. */
  predicate IsQuiet(c: Comment, limits: Limits) { c.bot ==> ParseMarker(c.body, limits) == Ok(None) }

  /** An issue that belongs to no campaign and that the audit can tell from one that does. */
  predicate IsForeign(i: Issue, limits: Limits) {
    StateOf(i, limits).None? && (Eligible(i) ==> ParsedState(i, limits).Ok?)
  }

  /** What people and other programs may do to an issue. On an issue of a campaign: anything but touching the managed
      region, removing comments, adding one that looks like one of the audit, or outgrowing the limit. On another issue:
      anything that does not make it look like an issue of a campaign. */
  predicate Respects(a: Issue, b: Issue, limits: Limits) {
    && a.bot == b.bot && a.pullRequest == b.pullRequest
    && a.comments <= b.comments && (forall k | |a.comments| <= k < |b.comments| :: IsQuiet(b.comments[k], limits))
    && if StateOf(a, limits).Some? then KeepsRegion(a.body, b.body) && Utf8Size(b.body) <= limits.issueBody
       else IsForeign(b, limits)
  }

  lemma RegionKeepsState(a: string, b: string, s: State)
    requires Carries(a, s) && KeepsRegion(a, b)
    ensures Carries(b, s)
  {
    hide KeepsRegion;
    hide RenderedAs;
    hide StateJson;
    hide ValidState;
    var pre, visible, post :| RenderedAs(a, pre, visible, Print(StateJson(s)), post);
    var before, after := RegionMoves(a, b, pre, visible, Print(StateJson(s)), post);
  }

  lemma MovedRegion(a: string, b: string, p: nat, q: nat) returns (x: nat, y: nat)
    requires KeepsRegion(a, b) && ManagedSpan(a) == Ok(Some((p, q)))
    ensures p <= q <= |a| && x <= y <= |b| && a[p..q] == b[x..y] && BodyFree(b[..x]) && BodyFree(b[y..])
  {
    hide ManagedSpan;
    hide OccursAt;
    x, y := ManagedSpan(b).value.value.0, ManagedSpan(b).value.value.1;
  }

  lemma RegionMoves(a: string, b: string, pre: string, visible: string, json: string, post: string)
    returns (before: string, after: string)
    requires RenderedAs(a, pre, visible, json, post) && KeepsRegion(a, b)
    ensures RenderedAs(b, before, visible, json, after)
  {
    hide ManagedSpan;
    hide KeepsRegion;
    hide Region;
    hide BodyFree;
    SpanOfRendered(a, pre, visible, json, post);
    var x, y := MovedRegion(a, b, |pre|, |a| - |post|);
    SliceRegion(a, pre, Region(visible, json), post);
    before, after := b[..x], b[y..];
    assert b == before + b[x..y] + after;
  }

  lemma SliceRegion(t: string, pre: string, region: string, post: string)
    requires t == pre + region + post
    ensures t[|pre|..|t| - |post|] == region
  {
  }

  /** Quiet comments hold no markers. */
  lemma {:induction false} QuietAddNoMarkers(more: seq<Comment>, limits: Limits)
    requires forall k :: 0 <= k < |more| ==> IsQuiet(more[k], limits)
    ensures MarkersOf(more, limits) == Ok([])
    decreases |more|
  {
    hide ParseMarker;
    if more != [] {
      assert IsQuiet(more[|more| - 1], limits);
      QuietAddNoMarkers(more[..|more| - 1], limits);
    }
  }

  lemma QuietKeepsHistory(s: State, a: seq<Comment>, b: seq<Comment>, limits: Limits, log: seq<Applied>)
    requires History(s, a, limits, log) && a <= b && forall k :: |a| <= k < |b| ==> IsQuiet(b[k], limits)
    ensures History(s, b, limits, log)
  {
    hide ParseMarker;
    hide BatchId;
    hide CleanApplied;
    hide LogOf;
    hide IsQuiet;
    var more := b[|a|..];
    assert a + more == b;
    forall k | 0 <= k < |more| ensures IsQuiet(more[k], limits) { assert more[k] == b[|a| + k]; }
    QuietAddNoMarkers(more, limits);
    MarkersSplit(a, more, limits);
    assert MarkersOf(a, limits).value + [] == MarkersOf(a, limits).value;
  }

  /** Quiet comments leave the log as it is. */
  lemma QuietKeepsLog(s: State, a: seq<Comment>, b: seq<Comment>, limits: Limits, log: seq<Applied>)
    requires Logged(s, a, limits, log) && a <= b && forall k :: |a| <= k < |b| ==> IsQuiet(b[k], limits)
    ensures Logged(s, b, limits, log)
  {
    hide History;
    hide ParseMarker;
    var k :| 0 <= k <= |a| && LoggedUpTo(s, a, limits, log, k);
    UpToIsHistory(s, a, log, k, limits);
    if k == |a| {
      assert a[..k] == a;
      QuietKeepsHistory(s, a, b, limits, log);
      HistoryIsLogged(s, b, limits, log);
    } else {
      assert b[..k] == a[..k];
      forall j | k <= j < |b| && b[j].bot ensures !HoldsMarker(b[j].body, limits) {
        if j >= |a| { assert IsQuiet(b[j], limits); } else { assert b[j] == a[j]; }
      }
      assert LoggedUpTo(s, b, limits, log, k);
    }
  }

  /** An edit that respects the bot keeps the invariant. */
  lemma EditStep(issues: seq<Issue>, n: nat, next: Issue, limits: Limits)
    requires StoreInv(issues, limits) && n < |issues| && Respects(issues[n], next, limits)
    ensures StoreInv(issues[n := next], limits) && Progress(issues, issues[n := next], limits)
  {
    hide ParsedState;
    hide Logged;
    hide IsQuiet;
    hide Carries;
    hide KeepsRegion;
    SoundAt(issues, n, limits);
    if StateOf(issues[n], limits).Some? {
      var s := StateOf(issues[n], limits).value;
      RegionKeepsState(issues[n].body, next.body, s);
      var log := SomeLog(issues, n, s, limits);
      QuietKeepsLog(s, issues[n].comments, next.comments, limits, log);
      ReplaceTended(issues, n, s, next, s, limits);
      MovesAreProgress(issues, issues[n := next], limits);
    } else {
      ReplaceUntended(issues, n, next, limits);
    }
  }

  lemma ReplaceUntended(issues: seq<Issue>, n: nat, next: Issue, limits: Limits)
    requires StoreInv(issues, limits) && n < |issues| && StateOf(issues[n], limits).None? && StateOf(next, limits).None?
    requires Sound(next, limits)
    ensures StoreInv(issues[n := next], limits) && Progress(issues, issues[n := next], limits)
  {
    hide StateOf;
    hide Sound;
    var after := issues[n := next];
    forall k | 0 <= k < |after| ensures Sound(after[k], limits) { assert k != n ==> Sound(issues[k], limits); }
    forall k | 0 <= k < |issues| ensures Progresses(issues[k], after[k], limits) {
      if k != n { Stays(issues[k], limits); }
    }
  }

  lemma Stays(i: Issue, limits: Limits)
    ensures Progresses(i, i, limits)
  {
    hide Logged;
    if StateOf(i, limits).Some? {
      var s := StateOf(i, limits).value;
      forall a, b | Logged(s, i.comments, limits, a) && Logged(s, i.comments, limits, b) ensures a <= b {
        LogGrows(s, i.comments, a, s, i.comments, b, limits);
      }
    }
  }

  /** Anybody may open issues that belong to no campaign. */
  lemma OpenStep(issues: seq<Issue>, i: Issue, limits: Limits)
    requires StoreInv(issues, limits) && IsForeign(i, limits)
    ensures StoreInv(issues + [i], limits) && Progress(issues, issues + [i], limits)
  {
    hide ParsedState;
    hide Tended;
    var after := issues + [i];
    forall k | 0 <= k < |after| ensures Sound(after[k], limits) { if k < |issues| { assert Sound(issues[k], limits); } }
    forall k | 0 <= k < |issues| ensures Progresses(issues[k], after[k], limits) { Stays(issues[k], limits); }
  }

  /** Histories start where no issue belongs to a campaign yet. */
  lemma StartsSound(issues: seq<Issue>, limits: Limits)
    requires forall n :: 0 <= n < |issues| ==> IsForeign(issues[n], limits)
    ensures StoreInv(issues, limits)
  {
    hide ParsedState;
    hide Tended;
    forall n | 0 <= n < |issues| ensures StateOf(issues[n], limits).None? && Sound(issues[n], limits) {
      assert IsForeign(issues[n], limits);
    }
  }

  // ----- Histories -----

  datatype Event =
    | Runs(run: Run)                    // the bot runs, perhaps not to the end
    | Opens(issue: Issue)               // somebody opens an issue
    | Edits(number: nat, next: Issue)   // somebody edits an issue

  /** The texts and the report of a run hold no marker. */
  ghost predicate CleanInput(run: Run) {
    CleanTexts(run.texts) && (Subject(run).Ok? ==> CleanApplied(MakeApplied(run, Subject(run).value.1)))
  }

  /** Over any history of runs that may raise or die at every request, and of people and programs that leave the managed
      regions alone, the invariant holds and no campaign ever loses a part of its log. */
  method Live(c: Client, events: seq<Event>, limits: Limits)
    requires StoreInv(c.issues, limits)
    requires forall e :: e in events && e.Runs? ==> CleanInput(e.run)
    modifies c
    ensures StoreInv(c.issues, limits) && Progress(old(c.issues), c.issues, limits)
  {
    hide StoreInv;
    hide StateOf;
    hide StoreGrows;
    hide StoreMoves;
    hide Progress;
    hide CleanTexts;
    hide CleanApplied;
    hide Announceable;
    hide AllAnnounced;
    hide Leaves;
    hide BlocksOnly;
    hide Respects;
    hide IsForeign;
    hide Converged;
    hide RunFits;
    hide NoDamage;
    hide Subject;
    GrowsReflexive(c.issues, limits);
    MovesAreProgress(c.issues, c.issues, limits);
    for i := 0 to |events|
      invariant StoreInv(c.issues, limits) && Progress(old(c.issues), c.issues, limits)
    {
      ghost var before := c.issues;
      var e := events[i];
      match e {
        case Runs(run) =>
          assert CleanInput(run);
          var outcome := Reconcile(c, run, limits);
          MovesAreProgress(before, c.issues, limits);
        case Opens(issue) =>
          if !IsForeign(issue, limits) { continue; }
          OpenStep(c.issues, issue, limits);
          c.issues := c.issues + [issue];
        case Edits(number, next) =>
          if number >= |c.issues| || !Respects(c.issues[number], next, limits) { continue; }
          EditStep(c.issues, number, next, limits);
          c.issues := c.issues[number := next];
      }
      ProgressTransitive(old(c.issues), before, c.issues, limits);
    }
  }

  // ----- A run that blocks an issue -----

  /** The bot's first issue. */
  lemma FirstIssue(title: string, tag: string, texts: Texts, s: State, limits: Limits) returns (i: Issue)
    requires CleanTexts(texts) && ValidState(s) && CleanApplied(s.applied) && s.sequence == 0
    requires ManagedBody("", texts, s, limits).Ok?
    ensures i == NewIssue(title, ManagedBody("", texts, s, limits).value, tag)
    ensures StoreInv([i], limits) && StateOf(i, limits) == Some(s) && Readable(i.comments, limits)
  {
    i := NewIssue(title, ManagedBody("", texts, s, limits).value, tag);
    FirstBody(texts, s, limits);
    hide ManagedBody;
    hide Carries;
    hide CleanApplied;
    hide CleanTexts;
    hide ValidState;
    assert StoreInv([], limits);
    CreateStep([], i, s, limits);
    assert [] + [i] == [i];
    EmptyHistory(s, limits);
    HistoryReads(s, [], limits, []);
  }

  lemma TextHasSize(text: string)
    requires text != ""
    ensures Utf8Size(text) > 0
  {
  }

  /** When no comment fits, an announcement is oversized on every open issue of another campaign without comments. */
  lemma NothingFits(i: Issue, s: State, campaign: string, texts: Texts, limits: Limits)
    requires limits.comment == 0 && i.comments == [] && i.open && StateOf(i, limits) == Some(s) &&
      s.campaign != campaign
    ensures Oversized(i, campaign, texts, limits)
  {
    hide StateOf;
    hide BatchMarker;
    var text := EventComment(texts, s.campaign, SupersededId(s.campaign, campaign));
    assert |text| > |texts.event|;
    TextHasSize(text);
    assert CommentMarkersOf([], limits) == Ok([]);
  }

  /** A store and a run whose announcement does not fit: with a reliable client nothing keeps the run from ending well
      (`Reconciler.Reconcile`), and then the comments of that issue cannot be read any more. */
  lemma BlockingRun() returns (issues: seq<Issue>, run: Run, limits: Limits)
    ensures StoreInv(issues, limits) && CleanInput(run) && Subject(run).Ok?
    ensures var campaign, items := Subject(run).value.0, Subject(run).value.1;
            && NoDamage(issues, run.prefix, limits) && RunFits(issues, campaign, run, items, limits)
            && ValidApplied(MakeApplied(run, items)) && !Announceable(issues, campaign, run.texts, limits)
  {
    var applied := Applied(ItemsDigest(map[]), Sha256Json(Null), "", map[]);
    var s, texts := NewState(Sha256Json(Null), applied), Texts("", "", "", "", "");
    run := Run(Arr([Null]), Changes([], [], [], [], []), Null, "", texts, "", "");
    limits := Limits(Utf8Size(ManagedText("", s)), 0);
    NoDrift(run);
    EmptyIsClean(s, texts);
    ReplaceEmpty(ManagedText("", s));
    assert ManagedBody("", texts, s, limits).Ok?;
    var i := FirstIssue("", "", texts, s, limits);
    issues := [i];
    if Subject(run).value.0 == s.campaign { DigestInjective(Arr([Null]), Null); }
    NothingFits(i, s, Subject(run).value.0, texts, limits);
    OneOther(i, s, Subject(run).value.0, run, limits);
  }

  lemma NoDrift(run: Run)
    requires run.documents == Arr([Null]) && run.changes == Changes([], [], [], [], [])
    ensures Subject(run) == Ok((Sha256Json(Arr([Null])), map[]))
  {
    assert AllKeyed(run.changes) == [];
  }

  lemma EmptyIsClean(s: State, texts: Texts)
    requires s == NewState(Sha256Json(Null), Applied(ItemsDigest(map[]), Sha256Json(Null), "", map[]))
    requires texts == Texts("", "", "", "", "")
    ensures ValidState(s) && CleanApplied(s.applied) && CleanTexts(texts)
  {
    DigestIsDigest(Null);
    DigestIsDigest(ItemsJson(map[]));
    NothingInEmpty(MANAGED_START);
    NothingInEmpty(MANAGED_END);
    NothingInEmpty(STATE_START);
    NothingInEmpty(BATCH_START);
  }

  lemma OneOther(i: Issue, s: State, campaign: string, run: Run, limits: Limits)
    requires StateOf(i, limits) == Some(s) && s.campaign != campaign && Readable(i.comments, limits)
    requires Oversized(i, campaign, run.texts, limits)
    ensures NoDamage([i], run.prefix, limits) && RunFits([i], campaign, run, map[], limits)
    ensures !Announceable([i], campaign, run.texts, limits)
  {
    hide StateOf;
    hide IssueFits;
    hide Postable;
    hide Readable;
    var issues := [i];
    assert issues[0] == i;
  }

  /** No batch is announced twice on an issue, and no campaign has two issues. */
  lemma AtMostOnce(issues: seq<Issue>, n: nat, s: State, i: nat, j: nat, a: Marker, b: Marker, limits: Limits)
    requires StoreInv(issues, limits) && n < |issues| && StateOf(issues[n], limits) == Some(s)
    requires i < j < |issues[n].comments| && issues[n].comments[i].bot && issues[n].comments[j].bot
    requires ParseMarker(issues[n].comments[i].body, limits) == Ok(Some(a))
    requires ParseMarker(issues[n].comments[j].body, limits) == Ok(Some(b))
    ensures a.batchId != b.batchId
    ensures forall m :: 0 <= m < |issues| && m != n && StateOf(issues[m], limits).Some? ==>
      StateOf(issues[m], limits).value.campaign != s.campaign
  {
    hide ParseMarker;
    hide ParsedState;
    hide History;
    var comments := issues[n].comments;
    var log := SomeLog(issues, n, s, limits);
    var k :| 0 <= k <= |comments| && LoggedUpTo(s, comments, limits, log, k);
    UpToIsHistory(s, comments, log, k, limits);
    HistoryReads(s, comments[..k], limits, log);
    assert HoldsMarker(comments[j].body, limits);
    TwoMarkers(comments[..k], i, j, a, b, limits);
    forall m | 0 <= m < |issues| && m != n && StateOf(issues[m], limits).Some?
      ensures StateOf(issues[m], limits).value.campaign != s.campaign
    {
      if m < n { assert StateOf(issues[m], limits).value.campaign != StateOf(issues[n], limits).value.campaign; }
    }
  }

  lemma TwoMarkers(comments: seq<Comment>, i: nat, j: nat, a: Marker, b: Marker, limits: Limits)
    requires CommentMarkersOf(comments, limits).Ok? && i < j < |comments| && comments[i].bot && comments[j].bot
    requires ParseMarker(comments[i].body, limits) == Ok(Some(a)) &&
      ParseMarker(comments[j].body, limits) == Ok(Some(b))
    ensures a.batchId != b.batchId
  {
    hide ParseMarker;
    var x, y := comments[..j], comments[j..];
    assert x + y == comments;
    MarkersSplit(x, y, limits);
    MarkerAmong(x, i, a, limits);
    MarkerAmong(y, 0, b, limits);
    var mx, my := MarkersOf(x, limits).value, MarkersOf(y, limits).value;
    var p :| 0 <= p < |mx| && mx[p] == a;
    var q :| 0 <= q < |my| && my[q] == b;
    var ms := mx + my;
    assert ms == CommentMarkersOf(comments, limits).value && !HasDuplicates(ms);
    assert ms[p] == a && ms[|mx| + q] == b;
  }

  lemma MarkerAmong(comments: seq<Comment>, i: nat, m: Marker, limits: Limits)
    requires MarkersOf(comments, limits).Ok? && i < |comments| && comments[i].bot
    requires ParseMarker(comments[i].body, limits) == Ok(Some(m))
    ensures m in MarkersOf(comments, limits).value
  {
    hide ParseMarker;
    var x, z := comments[..i], comments[i + 1..];
    assert x + [comments[i]] + z == comments;
    MarkersSplit(x + [comments[i]], z, limits);
    MarkersSplit(x, [comments[i]], limits);
    var one := [comments[i]];
    assert one[..|one| - 1] == [] && MarkersOf([], limits) == Ok([]);
    assert [] + [m] == [m];
    assert m in MarkersOf(one, limits).value;
  }
}
