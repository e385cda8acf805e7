/** What one run of the reconciler is given, and what it has to make of the store. */
module AuditTarget {
  import opened Strings
  import opened Json
  import opened AuditState
  import opened AuditItems
  import opened AuditMarks
  import opened AuditRender
  import opened AuditLog
  import opened GitHub
  import opened AuditStore

  /** The inputs of one run: the documents of spec.lock, the changes and the digested content of the report, the commit
      it was made for, the texts rendered from it, and the label and title prefix of audit issues. */
  datatype Run = Run(documents: Json, changes: Changes, content: Json, commit: string, texts: Texts,
                     tag: string, prefix: string)

  /** `make_applied`. */
  function MakeApplied(run: Run, items: Items): Applied {
    Applied(ItemsDigest(items), Sha256Json(run.content), run.commit, items)
  }

  const TITLE: string := " spec.lock drift ("

  /** `expected_title`: the first twelve digits of the campaign. */
  function ExpectedTitle(prefix: string, campaign: string): string {
    var digits := if StartsWith(campaign, DIGEST_PREFIX) then campaign[|DIGEST_PREFIX|..] else campaign;
    prefix + TITLE + (if |digits| > 12 then digits[..12] else digits) + ")"
  }

  /** The title starts with the prefix by which audit issues are listed, and tells campaigns apart whose first twelve
      digits differ. */
  lemma TitleNames(prefix: string, a: string, b: string)
    requires IsDigest(a) && IsDigest(b) && |a| >= |DIGEST_PREFIX| + 12 && |b| >= |DIGEST_PREFIX| + 12
    ensures StartsWith(ExpectedTitle(prefix, a), prefix)
    ensures ExpectedTitle(prefix, a) == ExpectedTitle(prefix, b) <==>
            a[|DIGEST_PREFIX|..|DIGEST_PREFIX| + 12] == b[|DIGEST_PREFIX|..|DIGEST_PREFIX| + 12]
  {
    var x, y := a[|DIGEST_PREFIX|..|DIGEST_PREFIX| + 12], b[|DIGEST_PREFIX|..|DIGEST_PREFIX| + 12];
    var front := prefix + TITLE;
    assert ExpectedTitle(prefix, a) == front + x + ")" && ExpectedTitle(prefix, b) == front + y + ")";
    if front + x + ")" == front + y + ")" {
      forall i | 0 <= i < 12 ensures x[i] == y[i] {
        assert (front + x + ")")[|front| + i] == x[i] && (front + y + ")")[|front| + i] == y[i];
      }
    }
  }

  // ----- The next state of a campaign -----

  function Replayed(s: State, log: seq<Applied>): State
    requires s.sequence <= |log|
  {
    Recovered(s, log[s.sequence..])
  }

  /** The report differs from the last transition of the log. */
  predicate Transitions(s: State, log: seq<Applied>, current: Applied)
    requires s.sequence <= |log|
  {
    Replayed(s, log).applied.semanticDigest != current.semanticDigest
  }

  /** The state that a run leaves behind, given the state in the body and the log in the comments. */
  function Target(s: State, log: seq<Applied>, current: Applied): State
    requires s.sequence <= |log|
  {
    var replayed := Replayed(s, log);
    if Transitions(s, log, current) then State(s.campaign, |log| + 1, s.origin, current)
    else if s.sequence < |log| || replayed.applied.bodyDigest != current.bodyDigest then replayed.(applied := current)
    else replayed
  }

  function TargetLog(s: State, log: seq<Applied>, current: Applied): seq<Applied>
    requires s.sequence <= |log|
  {
    if Transitions(s, log, current) then log + [current] else log
  }

  /** The marker of the transition that a run adds. */
  function NewMarker(s: State, log: seq<Applied>, current: Applied): Marker
    requires s.sequence <= |log|
  {
    TransitionMarker(s.campaign, |log| + 1, Replayed(s, log).applied.semanticDigest, current)
  }

  /** The comments of an issue can be read, and what the run has to write for it is within the limits. */
  predicate Fits(i: Issue, s: State, log: seq<Applied>, texts: Texts, current: Applied, limits: Limits)
    requires s.sequence <= |log|
  {
    && Readable(i.comments, limits)
    && ManagedBody(i.body, texts, Target(s, log, current), limits).Ok?
    && (Transitions(s, log, current) ==> TransitionComment(texts, NewMarker(s, log, current), limits).Ok?)
  }

  lemma ReplayedDigest(s: State, log: seq<Applied>)
    requires s.sequence <= |log| && s.applied.semanticDigest == DigestAt(s.origin, log, s.sequence)
    ensures Replayed(s, log).sequence == |log| && Replayed(s, log).campaign == s.campaign &&
      Replayed(s, log).origin == s.origin
    ensures Replayed(s, log).applied.semanticDigest == DigestAt(s.origin, log, |log|)
  {
  }

  /** Every applied state in the log of an issue was validated when its comment was parsed. */
  lemma LogIsValid(s: State, comments: seq<Comment>, limits: Limits, log: seq<Applied>)
    requires History(s, comments, limits, log)
    ensures forall i :: 0 <= i < |log| ==> ValidApplied(log[i])
  {
    hide CommentMarkersOf;
    hide BatchId;
    hide CleanApplied;
    forall i | 0 <= i < |log| ensures ValidApplied(log[i]) {
      var m := LogMarker(s.campaign, s.origin, log, i + 1);
      assert m in CommentMarkersOf(comments, limits).value;
      assert ValidMarker(m);
    }
  }

  /** The replayed state stands at the end of the log. */
  lemma ReplayedHistory(s: State, comments: seq<Comment>, limits: Limits, log: seq<Applied>)
    requires History(s, comments, limits, log) && ValidState(s)
    ensures var t := Replayed(s, log);
            && History(t, comments, limits, log) && t.sequence == |log| && ValidState(t) && CleanApplied(t.applied)
            && (s.sequence == |log| ==> t == s)
  {
    hide CommentMarkersOf;
    hide LogOf;
    hide BatchId;
    hide CleanApplied;
    hide ValidApplied;
    ReplayedDigest(s, log);
    LogIsValid(s, comments, limits, log);
  }

  /** On a sound issue recovery never raises and returns the end of the log. */
  lemma RecoveryIsReplay(s: State, comments: seq<Comment>, limits: Limits, log: seq<Applied>)
    requires History(s, comments, limits, log)
    ensures CommentMarkersOf(comments, limits).Ok?
    ensures ReplayOf(s, CommentMarkersOf(comments, limits).value, log[s.sequence..])
  {
    hide CommentMarkersOf;
    LogReplays(s, CommentMarkersOf(comments, limits).value, log);
  }

  /** The target stands at the end of the target's log, whichever comments hold that log. */
  lemma TargetHistory(s: State, before: seq<Comment>, after: seq<Comment>, limits: Limits, log: seq<Applied>,
                      current: Applied)
    requires History(s, before, limits, log) && ValidState(s) && CleanApplied(current)
    requires History(Replayed(s, log), after, limits, TargetLog(s, log, current))
    ensures var t := Target(s, log, current);
            && History(t, after, limits, TargetLog(s, log, current)) && t.sequence == |TargetLog(s, log, current)|
            && t.campaign == s.campaign && t.origin == s.origin && s.sequence <= t.sequence && CleanApplied(t.applied)
            && t.applied.semanticDigest == current.semanticDigest && t.applied.bodyDigest == current.bodyDigest
  {
    hide CommentMarkersOf;
    hide LogOf;
    hide CleanApplied;
    ReplayedHistory(s, before, limits, log);
  }

  lemma TargetValid(s: State, comments: seq<Comment>, limits: Limits, log: seq<Applied>, current: Applied)
    requires History(s, comments, limits, log) && ValidState(s)
    requires ValidApplied(current) || Target(s, log, current) == s
    ensures ValidState(Target(s, log, current))
  {
    hide CommentMarkersOf;
    hide LogOf;
    hide BatchId;
    hide CleanApplied;
    hide ValidApplied;
    ReplayedHistory(s, comments, limits, log);
  }

  /** The batch id of the new transition is not taken by any comment. */
  lemma NewBatchIsFresh(s: State, comments: seq<Comment>, limits: Limits, log: seq<Applied>, current: Applied)
    requires History(s, comments, limits, log)
    ensures !HasBatch(CommentMarkersOf(comments, limits).value, NewMarker(s, log, current).batchId)
  {
    hide CommentMarkersOf;
    hide CleanApplied;
    var ms := CommentMarkersOf(comments, limits).value;
    forall i | 0 <= i < |ms| ensures ms[i].batchId != NewMarker(s, log, current).batchId {
      assert ms[i] in ms;
      FreshAgainst(s, ms, log, current, ms[i]);
    }
  }

  lemma FreshAgainst(s: State, ms: seq<Marker>, log: seq<Applied>, current: Applied, m: Marker)
    requires s.sequence <= |log| && LogOf(s.campaign, s.origin, ms, log) && m in ms
    requires IsTransition(m, s.campaign) || IsEvent(m, s.campaign)
    ensures m.batchId != NewMarker(s, log, current).batchId
  {
    hide BatchId;
    hide SupersededId;
    var previous := Replayed(s, log).applied.semanticDigest;
    if IsTransition(m, s.campaign) {
      var p, t := DigestAt(s.origin, log, m.sequence - 1), log[m.sequence - 1].semanticDigest;
      assert m == LogMarker(s.campaign, s.origin, log, m.sequence);
      assert m.batchId == BatchId(s.campaign, m.sequence, p, t);
      if m.batchId == BatchId(s.campaign, |log| + 1, previous, current.semanticDigest) {
        BatchIdInjective(s.campaign, m.sequence, p, t, s.campaign, |log| + 1, previous, current.semanticDigest);
        assert false;
      }
    } else {
      var w :| m.batchId == SupersededId(s.campaign, w);
      BatchIdIsNotSuperseded(s.campaign, |log| + 1, previous, current.semanticDigest, s.campaign, w);
    }
  }

  // ----- What a successful run leaves behind -----

  /** What a run leaves is recorded for its own report, or it is the state that was there before. */
  lemma TargetRecords(s: State, log: seq<Applied>, current: Applied)
    requires s.sequence <= |log|
    ensures Target(s, log, current).applied == current || Target(s, log, current) == s
  {
  }

  /** The comment that a run adds to the issue of its campaign, if any. */
  function PostedComments(s: State, log: seq<Applied>, texts: Texts, current: Applied, limits: Limits): seq<Comment>
    requires s.sequence <= |log|
  {
    var comment := TransitionComment(texts, NewMarker(s, log, current), limits);
    if Transitions(s, log, current) && comment.Ok? then [Comment(comment.value, true)] else []
  }

  /** The issue of the current campaign after a run: identity, status and digests of the report, a body that says all
      of its log, and a managed region that rendering again would not change. */
  ghost predicate Settled(i: Issue, campaign: string, run: Run, items: Items, limits: Limits) {
    && StateOf(i, limits).Some?
    && var s := StateOf(i, limits).value;
       && s.campaign == campaign
       && i.title == ExpectedTitle(run.prefix, campaign) && run.tag in i.labels
       && (i.open <==> items != map[])
       && s.applied.semanticDigest == ItemsDigest(items) && s.applied.bodyDigest == Sha256Json(run.content)
       && (exists log :: History(s, i.comments, limits, log) && |log| == s.sequence)
       && Stable(i.body, run.texts, s, limits)
  }

  /** Rendering the body again gives a body that compares equal. */
  predicate Stable(body: string, texts: Texts, s: State, limits: Limits) {
    && ManagedBody(body, texts, s, limits).Ok?
    && ComparableBody(body).Ok?
    && ComparableBody(body) == ComparableBody(ManagedBody(body, texts, s, limits).value)
  }

  predicate ClaimsOther(i: Issue, campaign: string, limits: Limits) {
    StateOf(i, limits).Some? && StateOf(i, limits).value.campaign != campaign
  }

  predicate Claims(i: Issue, campaign: string, limits: Limits) {
    StateOf(i, limits).Some? && StateOf(i, limits).value.campaign == campaign
  }

  /** An open issue of the bot that looks like an audit issue but carries no state. */
  predicate IsDamaged(i: Issue, prefix: string, limits: Limits) {
    Eligible(i) && i.open && StartsWith(i.title, prefix) && StateOf(i, limits).None?
  }

  ghost predicate Converged(issues: seq<Issue>, campaign: string, run: Run, items: Items, limits: Limits) {
    && (forall n :: 0 <= n < |issues| && ClaimsOther(issues[n], campaign, limits) ==> !issues[n].open)
    && (forall n :: 0 <= n < |issues| && Claims(issues[n], campaign, limits) ==>
          Settled(issues[n], campaign, run, items, limits))
    && (items != map[] ==> exists n :: 0 <= n < |issues| && Claims(issues[n], campaign, limits))
    && (forall n :: 0 <= n < |issues| ==> !IsDamaged(issues[n], run.prefix, limits))
  }
}
