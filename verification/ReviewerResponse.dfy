/** Whose turn it is on an issue or a pull request, and whether it is done
    (scripts/reviewer_bot_core/reviewer_response_policy.py). */
module ReviewerResponse {
  import opened Strings
  import opened ReviewRecords
  import opened ReviewChannels
  import opened LiveReviews
  import opened ReviewAuthority

  datatype State =
    | Untracked
    | AwaitingReviewer
    | AwaitingContributor
    | AwaitingWriteApproval
    | IsDone
    | ProjectionFailed

  /** The decision, its reason, and the timestamp it is anchored at. */
  datatype Response = Response(state: State, reason: Option<string>, anchor: Option<string>)

  function TimeOf(r: Option<Record>): Option<string> { if r.Some? then r.value.timestamp else None }

  function FirstFilled(texts: seq<Option<string>>): Option<string> {
    if texts == [] then None
    else if texts[0].Some? && texts[0].value != "" then texts[0]
    else FirstFilled(texts[1..])
  }

  /** Where a cycle starts as long as the reviewer has not been heard. */
  function InitialAnchor(e: Entry): Option<string> {
    FirstFilled([e.activeCycleStartedAt, e.cycleStartedAt, e.assignedAt])
  }

  function AcceptedOn(e: Entry, name: ChannelName): Option<Record> { ChannelAt(e.cycle, name).accepted }

  /** `_record_for_current_reviewer`: a record of another reviewer does not count. */
  function OfReviewer(r: Option<Record>, reviewer: string): Option<Record> {
    if r.None? || Filled(r.value.actor).None? then r
    else if Lower(r.value.actor.value) != Lower(reviewer) then None
    else r
  }

  /** `_current_cycle_reviewer_handoff_record`: a feedback command of the tracked reviewer, in this cycle and on this
      head (an issue has none). */
  function CurrentHandoff(e: Entry, reviewer: string, head: Option<string>,
                          parse: string -> Option<nat>): Option<Record> {
    match e.cycle.handoff
    case None => None
    case Some(h) =>
      if h.command != Some("feedback") || h.actor.None? || Lower(h.actor.value) != Lower(reviewer) then None
      else if Filled(h.timestamp).None? || Filled(h.key).None? || parse(h.timestamp.value).None? then None
      else
        var start := InitialAnchor(e);
        var boundary := if start.Some? then parse(start.value) else None;
        if boundary.Some? && parse(h.timestamp.value).value < boundary.value then None
        else if h.head != head then None
        else Some(Record(h.key.value, h.timestamp, h.actor, h.head, 1))
  }

  function Later(a: Option<Record>, b: Option<Record>, parse: string -> Option<nat>): Option<Record> {
    if CompareRecords(a, b, parse) > 0 then a else b
  }

  // ----- Issues -----

  function DeriveIssue(e: Entry, parse: string -> Option<nat>): Response {
    if Filled(e.reviewer).None? then Response(Untracked, Some("no_current_reviewer"), None)
    else
      var reviewer := e.reviewer.value;
      var comment := OfReviewer(AcceptedOn(e, ReviewerComment), reviewer);
      var review := OfReviewer(AcceptedOn(e, ReviewerReview), reviewer);
      var contributor := AcceptedOn(e, ContributorComment);
      var spoken := Later(review, comment, parse);
      var stored := CurrentHandoff(e, reviewer, None, parse);
      var handoff := if CompareConversation(contributor, stored, parse) > 0 then None else stored;
      var latest := Later(handoff, spoken, parse);
      if handoff.Some? && CompareRecords(handoff, spoken, parse) > 0 then
        Response(AwaitingContributor, Some("completion_missing"), handoff.value.timestamp)
      else if e.completed || (e.completedAt.Some? && e.completedAt.value != "") then
        Response(IsDone, None, TimeOf(latest))
      else if latest.None? then Response(AwaitingReviewer, Some("no_reviewer_activity"), InitialAnchor(e))
      else if CompareConversation(contributor, latest, parse) > 0 then
        Response(AwaitingReviewer, Some("contributor_comment_newer"), TimeOf(contributor))
      else Response(AwaitingContributor, Some("completion_missing"), TimeOf(latest))
  }

  // ----- Pull requests -----

  /** `_contributor_revision_handoff_record`: a revision counts while the reviewer has not reviewed its head. */
  function RevisionHandoff(e: Entry, head: string, review: Option<Record>): Option<Record> {
    var revision := AcceptedOn(e, ContributorRevision);
    if revision.None? || revision.value.head != Some(head) then None
    else if review.Some? && review.value.head == Some(head) then None
    else revision
  }

  /** What the contributor said or pushed last. */
  function ContributorHandoff(e: Entry, head: string, review: Option<Record>,
                              parse: string -> Option<nat>): Option<Record> {
    Later(RevisionHandoff(e, head, review), AcceptedOn(e, ContributorComment), parse)
  }

  function HandoffReason(contributor: Option<Record>): string {
    if StartsWith(KeyOf(contributor), "pull_request_") then "contributor_revision_newer"
    else "contributor_comment_newer"
  }

  /** The decision once the reviewer has reviewed the current head and the contributor has not answered. */
  function FromApproval(a: Approval, latest: Option<Record>): Response {
    if !a.ok then Response(ProjectionFailed, Some("live_review_state_unknown"), None)
    else if !a.completed then Response(AwaitingContributor, Some("completion_missing"), TimeOf(latest))
    else
      match a.write
      case AwaitsContributor =>
        Response(AwaitingContributor, Some("assigned_reviewer_review_submitted"), TimeOf(latest))
      case NotReadable => Response(ProjectionFailed, Some("permission_unavailable"), None)
      case WriteApproved => Response(IsDone, Some("write_approval_present"), TimeOf(latest))
      case _ => Response(AwaitingWriteApproval, Some("write_approval_missing"), TimeOf(latest))
  }

  /** `derive_reviewer_response_state` for a pull request. */
  function DerivePullRequest(e: Entry, head: string, review: Option<Record>, stored: Option<Record>,
                             authors: seq<string>, a: Approval, parse: string -> Option<nat>): Response {
    if Filled(e.reviewer).None? then Response(Untracked, Some("no_current_reviewer"), None)
    else if IsBlank(head) then Response(ProjectionFailed, Some("pull_request_head_unavailable"), None)
    else
      var reviewer := e.reviewer.value;
      var contributor := ContributorHandoff(e, head, review, parse);
      var kept := CurrentHandoff(e, reviewer, Some(head), parse);
      var handoff := if CompareConversation(contributor, kept, parse) > 0 then None else kept;
      var latest := Later(handoff, review, parse);
      var anchor := if contributor.Some? then contributor.value.timestamp else InitialAnchor(e);
      if review.None? && handoff.None? && stored.None? then
        Response(AwaitingReviewer, Some("no_reviewer_activity"), InitialAnchor(e))
      else if CompareConversation(contributor, latest, parse) > 0 then
        Response(AwaitingReviewer, Some(HandoffReason(contributor)), TimeOf(contributor))
      else if handoff.Some? && CompareRecords(handoff, review, parse) > 0 then
        Response(AwaitingContributor, Some("reviewer_feedback_handoff"), handoff.value.timestamp)
      else if (exists x | x in authors :: !IsBlank(x) && Lower(x) == Lower(reviewer)) &&
              (stored.None? || stored.value.head != Some(head)) then
        Response(ProjectionFailed, Some("public_current_head_approval_contradiction"), anchor)
      else if review.None? || review.value.head != Some(head) then
        if handoff.Some? then Response(AwaitingContributor, Some("reviewer_feedback_handoff"), handoff.value.timestamp)
        else Response(AwaitingReviewer, Some("review_head_stale"), anchor)
      else FromApproval(a, latest)
  }

  /** The pull request as it was read: the reason why it was not, or the head it names. */
  datatype PullRequest = NotRead(reason: string) | Read(head: Option<string>)

  /** The current head and the reviews, or why they are not to be had. */
  datatype Live = NoLive(response: Response) | Live(head: string, reviews: seq<Review>)

  function LiveOf(pr: PullRequest, reviews: Option<seq<Review>>): Live {
    if pr.NotRead? then NoLive(Response(ProjectionFailed, Some(pr.reason), None))
    else if Filled(pr.head).None? then NoLive(Response(ProjectionFailed, Some("pull_request_head_unavailable"), None))
    else if reviews.None? then NoLive(Response(ProjectionFailed, Some("reviews_unavailable"), None))
    else Live(pr.head.value, reviews.value)
  }

  /** `compute_reviewer_response_state` for a pull request, with arbitrary approval authors. */
  function ComputePullRequest(e: Entry, pr: PullRequest, reviews: Option<seq<Review>>, authors: seq<string>,
                              host: Host): Response {
    match LiveOf(pr, reviews)
    case NoLive(response) => response
    case Live(head, live) =>
      var preferred := Preferred(e, head, live, host);
      var review := if preferred.Some? then LiveRecord(preferred.value, e.reviewer) else None;
      DerivePullRequest(e, head, review, AcceptedOn(e, ReviewerReview), authors, ApprovalOf(e, head, live, host),
                        host.parse)
  }

  // ----- Whose turn it is -----

  /** The tracked reviewer has said this on the issue. */
  predicate SaidOnIssue(e: Entry, r: Record, parse: string -> Option<nat>) {
    var reviewer := TextOf(e.reviewer);
    || OfReviewer(AcceptedOn(e, ReviewerComment), reviewer) == Some(r)
    || OfReviewer(AcceptedOn(e, ReviewerReview), reviewer) == Some(r)
    || CurrentHandoff(e, reviewer, None, parse) == Some(r)
  }

  predicate Complete(e: Entry) { e.completed || (e.completedAt.Some? && e.completedAt.value != "") }

  /** What the reviewer has said is older than the contributor's last comment. */
  ghost predicate ContributorIsNewer(e: Entry, parse: string -> Option<nat>) {
    forall r :: SaidOnIssue(e, r, parse) ==>
      Instant(r.timestamp, parse) < InstantOf(AcceptedOn(e, ContributorComment), parse)
  }

  /** The reviewer has said something after that comment. */
  ghost predicate ReviewerIsNewer(e: Entry, parse: string -> Option<nat>) {
    exists r :: SaidOnIssue(e, r, parse) &&
      Instant(r.timestamp, parse) > InstantOf(AcceptedOn(e, ContributorComment), parse)
  }

  /** As long as nobody has said anything, or the contributor spoke last, an incomplete issue waits for the reviewer;
      once the reviewer has spoken last it does not. */
  lemma IssueTurn(e: Entry, parse: string -> Option<nat>)
    requires Filled(e.reviewer).Some?
    ensures DeriveIssue(e, parse).state in {AwaitingReviewer, AwaitingContributor, IsDone}
    ensures DeriveIssue(e, parse).state.IsDone? ==> Complete(e)
    ensures (forall r :: !SaidOnIssue(e, r, parse)) ==>
      DeriveIssue(e, parse).state == if Complete(e) then IsDone else AwaitingReviewer
    ensures !Complete(e) && ContributorIsNewer(e, parse) ==> DeriveIssue(e, parse).state.AwaitingReviewer?
    ensures ReviewerIsNewer(e, parse) ==> !DeriveIssue(e, parse).state.AwaitingReviewer?
  {
    hide CurrentHandoff;
    hide OfReviewer;
    hide AcceptedOn;
    hide InitialAnchor;
    hide Instant;
    var reviewer := e.reviewer.value;
    var comment := OfReviewer(AcceptedOn(e, ReviewerComment), reviewer);
    var review := OfReviewer(AcceptedOn(e, ReviewerReview), reviewer);
    var handoff := CurrentHandoff(e, reviewer, None, parse);
    if comment.Some? { assert SaidOnIssue(e, comment.value, parse); }
    if review.Some? { assert SaidOnIssue(e, review.value, parse); }
    if handoff.Some? { assert SaidOnIssue(e, handoff.value, parse); }
  }

  /** A new cycle waits for the new reviewer, from its start. */
  lemma NewCycleAwaitsReviewer(e: Entry, now: string, parse: string -> Option<nat>)
    requires Filled(e.reviewer).Some? &&
      e == Entry(e.reviewer, Some(now), Some(now), Some(now), false, None, e.cycle) && now != ""
    requires e.cycle.handoff == None && forall name :: ChannelAt(e.cycle, name) == EMPTY_CHANNEL
    ensures DeriveIssue(e, parse) == Response(AwaitingReviewer, Some("no_reviewer_activity"), Some(now))
  {
    assert ChannelAt(e.cycle, ReviewerComment) == ChannelAt(e.cycle, ReviewerReview) == EMPTY_CHANNEL;
    assert ChannelAt(e.cycle, ContributorComment) == EMPTY_CHANNEL;
    assert InitialAnchor(e) == Some(now);
  }

  /** A comment of the contributor that is newer than all that was said passes the turn to the reviewer. */
  lemma CommentPassesTurn(e: Entry, ev: Event, parse: string -> Option<nat>)
    requires Filled(e.reviewer).Some? && !Complete(e)
    requires ev.channel.ContributorComment? && !ev.dismissalOnly && !Seen(e.cycle, ev) && parse(ev.timestamp).Some?
    requires forall r :: SaidOnIssue(e, r, parse) ==> Instant(r.timestamp, parse) < parse(ev.timestamp).value
    requires InstantOf(AcceptedOn(e, ContributorComment), parse) < parse(ev.timestamp).value
    ensures DeriveIssue(e.(cycle := Accept(e.cycle, ev, parse)), parse).state.AwaitingReviewer?
  {
    hide DeriveIssue;
    hide OfReviewer;
    var d := e.(cycle := Accept(e.cycle, ev, parse));
    var was := AcceptedOn(e, ContributorComment);
    assert AcceptedOn(d, ContributorComment) == Some(RecordOf(ev));
    assert AcceptedOn(d, ReviewerComment) == AcceptedOn(e, ReviewerComment);
    assert AcceptedOn(d, ReviewerReview) == AcceptedOn(e, ReviewerReview);
    assert Complete(d) == Complete(e);
    HandoffFrom(e, d, parse);
    hide CurrentHandoff;
    hide AcceptedOn;
    forall r | SaidOnIssue(d, r, parse) ensures SaidOnIssue(e, r, parse) {}
    IssueTurn(d, parse);
  }

  lemma HandoffFrom(e: Entry, d: Entry, parse: string -> Option<nat>)
    requires d.(cycle := e.cycle) == e && (d.cycle.handoff == e.cycle.handoff || d.cycle.handoff == None)
    ensures var reviewer := TextOf(e.reviewer);
            CurrentHandoff(d, reviewer, None, parse) in {None, CurrentHandoff(e, reviewer, None, parse)}
  {
    assert InitialAnchor(d) == InitialAnchor(e);
    hide InitialAnchor;
  }

  /** A comment of the tracked reviewer that is newer than all comments takes the turn from the reviewer. */
  lemma AnswerPassesTurn(e: Entry, ev: Event, parse: string -> Option<nat>)
    requires Filled(e.reviewer).Some? && SameLogin(ev.actor, e.reviewer)
    requires ev.channel.ReviewerComment? && !ev.dismissalOnly && !Seen(e.cycle, ev) && parse(ev.timestamp).Some?
    requires InstantOf(AcceptedOn(e, ReviewerComment), parse) < parse(ev.timestamp).value
    requires InstantOf(AcceptedOn(e, ContributorComment), parse) < parse(ev.timestamp).value
    ensures !DeriveIssue(e.(cycle := Accept(e.cycle, ev, parse)), parse).state.AwaitingReviewer?
  {
    hide DeriveIssue;
    hide CurrentHandoff;
    var d := e.(cycle := Accept(e.cycle, ev, parse));
    assert AcceptedOn(d, ReviewerComment) == Some(RecordOf(ev));
    assert AcceptedOn(d, ContributorComment) == AcceptedOn(e, ContributorComment);
    assert OfReviewer(Some(RecordOf(ev)), TextOf(e.reviewer)) == Some(RecordOf(ev));
    assert SaidOnIssue(d, RecordOf(ev), parse);
    IssueTurn(d, parse);
  }

  predicate IsOlder(r: Option<Record>, t: nat, parse: string -> Option<nat>) { r.Some? ==> InstantOf(r, parse) < t }

  /** On a pull request nobody but the reviewer is waited for until the reviewer has spoken last: with a review or a
      feedback command. */
  lemma PullRequestTurn(e: Entry, head: string, review: Option<Record>, stored: Option<Record>, authors: seq<string>,
                        a: Approval, parse: string -> Option<nat>)
    requires Filled(e.reviewer).Some? && !IsBlank(head)
    ensures var r := DerivePullRequest(e, head, review, stored, authors, a, parse);
            var t := InstantOf(ContributorHandoff(e, head, review, parse), parse);
            var handoff := CurrentHandoff(e, e.reviewer.value, Some(head), parse);
            && (review.None? && handoff.None? && stored.None? ==> r.state.AwaitingReviewer?)
            && (IsOlder(review, t, parse) && IsOlder(handoff, t, parse) && (review.Some? || handoff.Some?) ==>
                r.state.AwaitingReviewer?)
            && (r.state in {AwaitingContributor, AwaitingWriteApproval, IsDone} ==>
                  (review.Some? && InstantOf(review, parse) >= t) || (handoff.Some? && InstantOf(handoff, parse) >= t))
            && (r.state in {AwaitingWriteApproval, IsDone} ==> review.Some? && review.value.head == Some(head))
  {
    hide CurrentHandoff;
    hide ContributorHandoff;
    hide InitialAnchor;
    hide FromApproval;
    hide Instant;
    hide HandoffReason;
    FromApprovalStates(a, Later(CurrentHandoff(e, e.reviewer.value, Some(head), parse), review, parse));
  }

  lemma FromApprovalStates(a: Approval, latest: Option<Record>)
    ensures !FromApproval(a, latest).state.AwaitingReviewer? && !FromApproval(a, latest).state.Untracked?
  {
  }

  // ----- A pull request that is done is done -----

  /** The contributor does not beat a record of the reviewer. */
  predicate Answered(contributor: Option<Record>, reviewer: Option<Record>, parse: string -> Option<nat>) {
    CompareConversation(contributor, reviewer, parse) <= 0
  }

  lemma DerivedDone(e: Entry, head: string, review: Option<Record>, stored: Option<Record>, authors: seq<string>,
                    a: Approval, parse: string -> Option<nat>)
    requires DerivePullRequest(e, head, review, stored, authors, a, parse).state.IsDone?
    ensures Filled(e.reviewer).Some? && a == Approval(true, true, WriteApproved)
    ensures review.Some? && review.value.head == Some(head)
    ensures RevisionHandoff(e, head, review).None? && Answered(AcceptedOn(e, ContributorComment), review, parse)
  {
    hide Before;
    hide CurrentHandoff;
  }

  /** If a pull request is done, the greatest review of the tracked reviewer on the current head in this cycle is an
      approval; somebody who may push has approved this head in this cycle; the review is on this very head, so that no
      revision is unanswered; and no comment of the contributor beats the review. */
  lemma DoneIsSound(e: Entry, pr: PullRequest, reviews: Option<seq<Review>>, authors: seq<string>, host: Host)
    requires ComputePullRequest(e, pr, reviews, authors, host).state.IsDone?
    ensures pr.Read? && pr.head.Some? && reviews.Some?
    ensures exists r :: IsGreatestOwn(r, e, pr.head.value, reviews.value, host) && IsApproval(r, e, pr.head.value, host)
    ensures HasApproval(e, pr.head.value, reviews.value, host, Granted)
    ensures Preferred(e, pr.head.value, reviews.value, host).Some?
    ensures var record := LiveRecord(Preferred(e, pr.head.value, reviews.value, host).value, e.reviewer);
            && record.Some? && record.value.head == pr.head
            && RevisionHandoff(e, pr.head.value, record).None?
            && Answered(AcceptedOn(e, ContributorComment), record, host.parse)
  {
    hide Preferred;
    hide LiveRecord;
    hide ApprovalOf;
    hide DerivePullRequest;
    var head, live := pr.head.value, reviews.value;
    var preferred := Preferred(e, head, live, host);
    var review := if preferred.Some? then LiveRecord(preferred.value, e.reviewer) else None;
    DerivedDone(e, head, review, AcceptedOn(e, ReviewerReview), authors, ApprovalOf(e, head, live, host), host.parse);
    WriteApprovalIsSound(e, head, live, host);
  }

  /** The other way round: a review on this head that is not answered, an approved round, a known approval by somebody
      who may push and no unknown one make a pull request done, unless a feedback command or the stored records speak
      against it. */
  lemma DoneIsComplete(e: Entry, head: string, reviews: seq<Review>, authors: seq<string>, host: Host)
    requires Filled(e.reviewer).Some? && !IsBlank(head) && Preferred(e, head, reviews, host).Some? && PerAccount(host)
    requires var record := LiveRecord(Preferred(e, head, reviews, host).value, e.reviewer);
             record.Some? && record.value.head == Some(head) &&
               Answered(AcceptedOn(e, ContributorComment), record, host.parse)
    requires CurrentHandoff(e, e.reviewer.value, Some(head), host.parse) == None
    requires forall x :: x in authors ==> Lower(x) != Lower(e.reviewer.value)
    requires RoundApproved(e, head, reviews, host) && HasApproval(e, head, reviews, host, Granted)
    requires !HasApproval(e, head, reviews, host, Unavailable)
    ensures ComputePullRequest(e, Read(Some(head)), Some(reviews), authors, host).state.IsDone?
  {
    hide *;
    var record := LiveRecord(Preferred(e, head, reviews, host).value, e.reviewer);
    DecisionMeaning(e, head, reviews, host);
    ApprovedIsComplete(e, head, reviews, host);
    DerivesDone(e, head, record, AcceptedOn(e, ReviewerReview), authors, ApprovalOf(e, head, reviews, host),
                host.parse);
    ComputesFrom(e, head, reviews, authors, host);
  }

  lemma ComputesFrom(e: Entry, head: string, reviews: seq<Review>, authors: seq<string>, host: Host)
    requires !IsBlank(head) && Preferred(e, head, reviews, host).Some?
    ensures var record := LiveRecord(Preferred(e, head, reviews, host).value, e.reviewer);
            ComputePullRequest(e, Read(Some(head)), Some(reviews), authors, host) ==
            DerivePullRequest(e, head, record, AcceptedOn(e, ReviewerReview), authors,
                              ApprovalOf(e, head, reviews, host), host.parse)
  {
    hide Preferred;
    hide LiveRecord;
    hide ApprovalOf;
    hide DerivePullRequest;
    hide AcceptedOn;
    hide IsBlank;
  }

  lemma DerivesDone(e: Entry, head: string, review: Option<Record>, stored: Option<Record>, authors: seq<string>,
                    a: Approval, parse: string -> Option<nat>)
    requires Filled(e.reviewer).Some? && !IsBlank(head) && review.Some? && review.value.head == Some(head)
    requires Answered(AcceptedOn(e, ContributorComment), review, parse)
    requires CurrentHandoff(e, e.reviewer.value, Some(head), parse) == None
    requires forall x :: x in authors ==> Lower(x) != Lower(e.reviewer.value)
    requires a.ok && a.completed && a.write.WriteApproved?
    ensures DerivePullRequest(e, head, review, stored, authors, a, parse).state.IsDone?
  {
    hide CurrentHandoff;
    hide AcceptedOn;
    hide Lower;
    hide Before;
    hide Instant;
    hide IsBlank;
  }

  lemma ApprovedIsComplete(e: Entry, head: string, reviews: seq<Review>, host: Host)
    requires RoundApproved(e, head, reviews, host)
    ensures ApprovalOf(e, head, reviews, host).completed
    ensures ApprovalOf(e, head, reviews, host).ok <==> !ApprovalOf(e, head, reviews, host).write.NotReadable?
  {
    hide Visible;
    hide Assigned;
    hide Permissions;
    hide WriteDecision;
  }

  /** A pull request waits for write approval when the round is approved and nobody who approved it may push. */
  lemma AwaitsWriteApproval(e: Entry, pr: PullRequest, reviews: Option<seq<Review>>, authors: seq<string>, host: Host)
    requires ComputePullRequest(e, pr, reviews, authors, host).state.AwaitingWriteApproval? && PerAccount(host)
    ensures pr.Read? && pr.head.Some? && reviews.Some?
    ensures exists r :: IsGreatestOwn(r, e, pr.head.value, reviews.value, host) && IsApproval(r, e, pr.head.value, host)
    ensures !HasApproval(e, pr.head.value, reviews.value, host, Granted)
    ensures !HasApproval(e, pr.head.value, reviews.value, host, Unavailable)
  {
    hide Preferred;
    hide LiveRecord;
    hide ApprovalOf;
    hide DerivePullRequest;
    hide HasApproval;
    hide PerAccount;
    hide IsGreatestOwn;
    hide IsApproval;
    hide RoundApproved;
    var head, live := pr.head.value, reviews.value;
    var preferred := Preferred(e, head, live, host);
    var review := if preferred.Some? then LiveRecord(preferred.value, e.reviewer) else None;
    DerivedAwaits(e, head, review, AcceptedOn(e, ReviewerReview), authors, ApprovalOf(e, head, live, host), host.parse);
    WriteStateMeans(e, head, live, host);
    DecisionMeaning(e, head, live, host);
    RoundIsApproval(e, head, live, host);
  }

  lemma DerivedAwaits(e: Entry, head: string, review: Option<Record>, stored: Option<Record>, authors: seq<string>,
                      a: Approval, parse: string -> Option<nat>)
    requires DerivePullRequest(e, head, review, stored, authors, a, parse).state.AwaitingWriteApproval?
    ensures a.ok && a.completed && (a.write.AwaitsApproval? || a.write.AwaitsReviewer?)
  {
    hide Before;
    hide CurrentHandoff;
    hide ContributorHandoff;
  }

  lemma {:induction false} ScanStates(cs: seq<Classified>, m: map<string, Permission>, author: Option<string>)
    ensures ScanApprovals(cs, m, author) in {AwaitsApproval, NotReadable, WriteApproved}
    decreases |cs|
  {
    if cs != [] { ScanStates(cs[1..], m, author); }
  }

  /** A completed round that awaits approval is an approved one. */
  lemma WriteStateMeans(e: Entry, head: string, reviews: seq<Review>, host: Host)
    requires var a := ApprovalOf(e, head, reviews, host);
             a.completed && (a.write.AwaitsApproval? || a.write.AwaitsReviewer?)
    ensures RoundApproved(e, head, reviews, host) && ApprovalOf(e, head, reviews, host).write.AwaitsApproval?
  {
    hide Visible;
    hide Assigned;
    hide Permissions;
    hide ScanApprovals;
    var cs := VisibleOf(e, head, reviews, host);
    ScanStates(cs, Permissions(cs, host), Assigned(cs).value.author);
  }

  lemma RoundIsApproval(e: Entry, head: string, reviews: seq<Review>, host: Host)
    requires RoundApproved(e, head, reviews, host)
    ensures exists r :: IsGreatestOwn(r, e, head, reviews, host) && IsApproval(r, e, head, host)
  {
    hide VisibleOf;
    hide Assigned;
    hide InCycle;
    hide MatchesHead;
    hide ScopeOf;
    var r := OwnIsGreatest(e, head, reviews, host);
    OwnHasLogin(r, e, head, host);
  }

  /** The texts of the times are ordered like the times, as they are when all are written alike. */
  ghost predicate Uniform(reviews: seq<Review>, host: Host) {
    forall r, q :: r in reviews && q in reviews && r.submittedAt.Some? && q.submittedAt.Some? &&
                   host.parse(r.submittedAt.value).Some? && host.parse(q.submittedAt.value).Some? ==>
      (LexLt(r.submittedAt.value, q.submittedAt.value) <==>
       host.parse(r.submittedAt.value).value < host.parse(q.submittedAt.value).value)
  }

  /** The preferred review is chosen by time, the one that completes the round by the text of the time. When times are
      written alike they are one review: the review that answers the contributor is the approval. */
  lemma DoneReviewApproves(e: Entry, pr: PullRequest, reviews: Option<seq<Review>>, authors: seq<string>, host: Host)
    requires ComputePullRequest(e, pr, reviews, authors, host).state.IsDone? && reviews.Some?
    requires Uniform(reviews.value, host) && DistinctIds(reviews.value) &&
      Boundary(e, host.parse) == Boundary(e, host.parseIso)
    requires forall r :: r in reviews.value ==> r.id != NumberId(0)
    ensures pr.Read? && pr.head.Some? && Preferred(e, pr.head.value, reviews.value, host).Some?
    ensures IsApproval(Preferred(e, pr.head.value, reviews.value, host).value, e, pr.head.value, host)
  {
    hide Preferred;
    hide ApprovalOf;
    hide ComputePullRequest;
    hide IsApproval;
    hide IsGreatestOwn;
    hide RevisionHandoff;
    hide Answered;
    hide HasApproval;
    DoneIsSound(e, pr, reviews, authors, host);
    var head, live := pr.head.value, reviews.value;
    PreferredMeaning(e, head, live, host);
    var p := Preferred(e, head, live, host).value;
    var r :| IsGreatestOwn(r, e, head, live, host) && IsApproval(r, e, head, host);
    OneReview(e, head, live, host, p, r);
  }

  lemma OneReview(e: Entry, head: string, reviews: seq<Review>, host: Host, p: Review, r: Review)
    requires IsPreferred(p, ValidReviews(e, reviews, host), head, host.parse)
    requires HasSnapshot(p) && p.id != NumberId(0) && p.commit == Some(head) && Filled(p.submittedAt).Some?
    requires IsGreatestOwn(r, e, head, reviews, host) && IsApproval(r, e, head, host)
    requires Uniform(reviews, host) && DistinctIds(reviews) && Boundary(e, host.parse) == Boundary(e, host.parseIso)
    ensures p == r
  {
    var boundary := Boundary(e, host.parseIso);
    hide Boundary;
    hide Strip;
    assert p in reviews && IsValidReview(p, e.reviewer, boundary.value, host.parse);
    SameBlank(p.login.value, e.reviewer.value);
    assert IsOwn(p, e, head, host);
    assert r in ValidReviews(e, reviews, host);
    assert !LaterReview(r, p, host.parse) && !LaterByText(p, r);
    hide ValidReviews;
    LexTotal(p.submittedAt.value, r.submittedAt.value);
    LexTotal(IdText(p.id), IdText(r.id));
  }

  /** A pull request that is done is answered by the very approval that completed the round if and only if the tracked
      reviewer has no later review on this head. */
  lemma DoneByApprovalExactly(e: Entry, pr: PullRequest, reviews: Option<seq<Review>>, authors: seq<string>, host: Host,
                              r: Review)
    requires ComputePullRequest(e, pr, reviews, authors, host).state.IsDone? && DistinctIds(reviews.value)
    requires IsGreatestOwn(r, e, pr.head.value, reviews.value, host) && r in ValidReviews(e, reviews.value, host)
    ensures pr.Read? && pr.head.Some? && reviews.Some? && IsApproval(r, e, pr.head.value, host)
    ensures Preferred(e, pr.head.value, reviews.value, host).Some?
    ensures Preferred(e, pr.head.value, reviews.value, host).value == r <==>
      forall q :: q in ValidReviews(e, reviews.value, host) && MatchesHead(q.commit, pr.head.value) ==>
        !LaterReview(q, r, host.parse)
  {
    hide Preferred;
    hide ApprovalOf;
    hide ComputePullRequest;
    hide IsApproval;
    hide IsGreatestOwn;
    hide RevisionHandoff;
    hide Answered;
    hide HasApproval;
    hide IsValidReview;
    hide LaterReview;
    DoneIsSound(e, pr, reviews, authors, host);
    var head, live := pr.head.value, reviews.value;
    var approval :| IsGreatestOwn(approval, e, head, live, host) && IsApproval(approval, e, head, host);
    GreatestOwnIsOne(e, head, live, host, r, approval);
    PreferredMeaning(e, head, live, host);
    var p := Preferred(e, head, live, host).value;
    OwnIsOnHead(e, head, live, host, r);
    LaterTotal(p, r, r, host.parse);
    assert MatchesHead(p.commit, head);
  }

  lemma OwnIsOnHead(e: Entry, head: string, reviews: seq<Review>, host: Host, r: Review)
    requires IsGreatestOwn(r, e, head, reviews, host)
    ensures MatchesHead(r.commit, head)
  {
    hide Strip;
  }

  /** Two reviews of the tracked reviewer: one that approves and is the greatest by the text of its time, and one that
      does not approve and is later. */
  ghost predicate LaterRequest(e: Entry, head: string, approval: Review, request: Review, host: Host) {
    && DistinctIds([approval, request]) && !LaterByText(request, approval) && LaterReview(request, approval, host.parse)
    && IsOwn(approval, e, head, host) && IsApproval(approval, e, head, host) &&
       approval in ValidReviews(e, [approval, request], host)
    && IsOwn(request, e, head, host) && !IsApproval(request, e, head, host) &&
       request in ValidReviews(e, [approval, request], host)
  }

  lemma RequestIsPreferred(e: Entry, head: string, approval: Review, request: Review, host: Host)
    requires LaterRequest(e, head, approval, request, host)
    ensures Preferred(e, head, [approval, request], host) == Some(request)
  {
    hide Preferred;
    hide IsValidReview;
    hide LaterReview;
    hide HasSnapshot;
    hide InCycle;
    hide Strip;
    hide DistinctIds;
    PreferredMeaning(e, head, [approval, request], host);
    assert MatchesHead(request.commit, head);
  }

  lemma ApprovalCompletes(e: Entry, head: string, approval: Review, request: Review, host: Host)
    requires LaterRequest(e, head, approval, request, host)
    requires approval.login.Some? && host.permission(approval.login.value).Granted?
    requires Boundary(e, host.parseIso).Some? && Filled(approval.submittedAt).Some? && !IsBlank(head)
    ensures RoundApproved(e, head, [approval, request], host)
    ensures HasApproval(e, head, [approval, request], host, Granted)
    ensures !HasApproval(e, head, [approval, request], host, Unavailable)
  {
    hide RoundApproved;
    hide IsApproval;
    hide IsOwn;
    hide ValidReviews;
    hide DistinctIds;
    hide IsBlank;
    hide Boundary;
    hide LaterReview;
    assert IsGreatestOwn(approval, e, head, [approval, request], host) by {
      LexTotal(IdText(approval.id), IdText(approval.id));
    }
    ApprovedRound(e, head, [approval, request], host, approval);
    assert approval in [approval, request];
  }

  /** Where the two come apart: times in different notations, and the review that requests changes is the later one. The
      pull request is done, and the review that it is answered by does not approve. */
  lemma DoneDespiteLaterRequest()
    ensures var host, request := ExampleHost(), ReviewBy(2, "r", "CHANGES_REQUESTED", "a");
            var reviews := [ReviewBy(1, "r", "APPROVED", "b"), request];
            && ComputePullRequest(NewEntry(), Read(Some("h")), Some(reviews), [], host).state.IsDone?
            && Preferred(NewEntry(), "h", reviews, host) == Some(request)
            && !IsApproval(request, NewEntry(), "h", host)
  {
    var host := ExampleHost();
    var approval, request := ReviewBy(1, "r", "APPROVED", "b"), ReviewBy(2, "r", "CHANGES_REQUESTED", "a");
    ExampleRequest();
    ExamplePermissions();
    ExampleAnswers();
    hide *;
    RequestIsPreferred(NewEntry(), "h", approval, request, host);
    ApprovalCompletes(NewEntry(), "h", approval, request, host);
    DoneIsComplete(NewEntry(), "h", [approval, request], [], host);
  }

  lemma ExampleRequest()
    ensures LaterRequest(NewEntry(), "h", ReviewBy(1, "r", "APPROVED", "b"), ReviewBy(2, "r", "CHANGES_REQUESTED", "a"),
                         ExampleHost())
  {
    var host := ExampleHost();
    var approval, request := ReviewBy(1, "r", "APPROVED", "b"), ReviewBy(2, "r", "CHANGES_REQUESTED", "a");
    ExampleStands(approval, host, 1, "r", "APPROVED", "b");
    ExampleStands(request, host, 2, "r", "CHANGES_REQUESTED", "a");
    ExampleIds(approval, request);
    IsShort("r", 'r');
    IsShort("h", 'h');
    IsShort("a", 'a');
    IsShort("b", 'b');
    assert LexLe("a", "b");
  }

  lemma ExampleAnswers()
    ensures var e, host := NewEntry(), ExampleHost();
            var record := LiveRecord(ReviewBy(2, "r", "CHANGES_REQUESTED", "a"), e.reviewer);
            && Filled(e.reviewer).Some? && !IsBlank("h") &&
               CurrentHandoff(e, e.reviewer.value, Some("h"), host.parse) == None
            && record.Some? && record.value.head == Some("h") &&
               Answered(AcceptedOn(e, ContributorComment), record, host.parse)
    ensures Filled(ReviewBy(1, "r", "APPROVED", "b").submittedAt).Some?
    ensures ReviewBy(1, "r", "APPROVED", "b").login == Some("r")
  {
    IsShort("b", 'b');
    IsShort("r", 'r');
    IsShort("h", 'h');
    IsShort("a", 'a');
    var request := ReviewBy(2, "r", "CHANGES_REQUESTED", "a");
    ExampleStands(request, ExampleHost(), 2, "r", "CHANGES_REQUESTED", "a");
  }

  // ----- Orders that do not matter -----

  /** The review that is preferred, whatever the order: valid, on the current head if any is, and later than the others.
      */
  ghost predicate IsPreferred(r: Review, valid: seq<Review>, head: string, parse: string -> Option<nat>) {
    && r in valid
    && (forall x :: x in valid && MatchesHead(x.commit, head) ==>
        MatchesHead(r.commit, head) && !LaterReview(x, r, parse))
    && (!MatchesHead(r.commit, head) ==> forall x :: x in valid ==> !LaterReview(x, r, parse))
  }

  lemma PreferredMeaning(e: Entry, head: string, reviews: seq<Review>, host: Host)
    ensures var valid := ValidReviews(e, reviews, host);
            && (Preferred(e, head, reviews, host).None? <==> valid == [])
            && (valid != [] ==> IsPreferred(Preferred(e, head, reviews, host).value, valid, head, host.parse))
  {
    hide ValidReviews;
    hide MatchesHead;
    hide LaterReview;
    var valid := ValidReviews(e, reviews, host);
    if |valid| == 1 {
      forall x | x in valid ensures x == valid[0] && !LaterReview(x, x, host.parse) { LaterTotal(x, x, x, host.parse); }
    } else if valid != [] {
      var onHead := Filter(valid, (r: Review) => MatchesHead(r.commit, head));
      if onHead == [] {
        forall x | x in valid ensures !MatchesHead(x.commit, head) { assert x !in onHead; }
      }
    }
  }

  lemma PreferredSame(e: Entry, head: string, a: seq<Review>, b: seq<Review>, host: Host)
    requires SameReviews(a, b) && DistinctIds(a)
    ensures Preferred(e, head, a, host) == Preferred(e, head, b, host)
  {
    hide Preferred;
    hide LaterReview;
    hide MatchesHead;
    hide IsValidReview;
    PreferredMeaning(e, head, a, host);
    PreferredMeaning(e, head, b, host);
    var va, vb := ValidReviews(e, a, host), ValidReviews(e, b, host);
    assert forall x :: x in va <==> x in vb;
    if vb != [] { assert vb[0] in va; }
    if va != [] {
      assert va[0] in vb;
      var r, q := Preferred(e, head, a, host).value, Preferred(e, head, b, host).value;
      LaterTotal(r, q, q, host.parse);
      assert r in a && q in a;
    }
  }

  /** The answer about a pull request does not depend on the order in which its reviews are listed, unless one approval
      may write while the permission of another cannot be read. */
  lemma ListOrderDoesNotMatter(e: Entry, pr: PullRequest, a: seq<Review>, b: seq<Review>, authors: seq<string>,
                               host: Host)
    requires SameReviews(a, b) && DistinctIds(a) && PerAccount(host)
    requires pr.Read? && pr.head.Some? ==> !Contested(e, pr.head.value, a, host)
    ensures ComputePullRequest(e, pr, Some(a), authors, host) == ComputePullRequest(e, pr, Some(b), authors, host)
  {
    hide Preferred;
    hide LiveRecord;
    hide ApprovalOf;
    hide DerivePullRequest;
    hide Contested;
    hide PerAccount;
    hide DistinctIds;
    if pr.Read? && pr.head.Some? {
      PreferredSame(e, pr.head.value, a, b, host);
      UncontestedSame(e, pr.head.value, a, b, host);
    }
  }

  /** The answers about an issue and a pull request do not depend on the order in which events were delivered, nor on
      redeliveries. */
  lemma DeliveryOrderDoesNotMatter(e: Entry, a: seq<Event>, b: seq<Event>, pr: PullRequest,
                                   reviews: Option<seq<Review>>, authors: seq<string>, host: Host)
    requires Distinct(a) && forall x :: x in a <==> x in b
    ensures var d, f := e.(cycle := After(e.cycle, a, host.parse)), e.(cycle := After(e.cycle, b, host.parse));
            && DeriveIssue(d, host.parse) == DeriveIssue(f, host.parse)
            && ComputePullRequest(d, pr, reviews, authors, host) == ComputePullRequest(f, pr, reviews, authors, host)
  {
    OrderDoesNotMatter(e.cycle, a, b, host.parse);
    hide After;
    hide Before;
    hide ChannelAt;
    var d, f := e.(cycle := After(e.cycle, a, host.parse)), e.(cycle := After(e.cycle, b, host.parse));
    assert forall name :: AcceptedOn(d, name) == AcceptedOn(f, name);
    SameIssue(d, f, host.parse);
    SamePullRequest(d, f, pr, reviews, authors, host);
  }

  /** Entries that agree on what was accepted, on the handoff and on everything else but the keys seen. */
  ghost predicate Alike(d: Entry, f: Entry) {
    d.(cycle := f.cycle) == f && d.cycle.handoff == f.cycle.handoff &&
      forall name :: AcceptedOn(d, name) == AcceptedOn(f, name)
  }

  lemma SameIssue(d: Entry, f: Entry, parse: string -> Option<nat>)
    requires Alike(d, f)
    ensures DeriveIssue(d, parse) == DeriveIssue(f, parse)
  {
    hide AcceptedOn;
    hide CompareRecords;
    hide CompareConversation;
    hide OfReviewer;
    assert CurrentHandoff(d, TextOf(d.reviewer), None, parse) == CurrentHandoff(f, TextOf(d.reviewer), None, parse);
  }

  lemma SameLive(d: Entry, f: Entry, head: string, reviews: seq<Review>, host: Host)
    requires Alike(d, f)
    ensures Preferred(d, head, reviews, host) == Preferred(f, head, reviews, host)
    ensures ApprovalOf(d, head, reviews, host) == ApprovalOf(f, head, reviews, host)
  {
    hide Visible;
    hide Assigned;
    hide Permissions;
    hide LatestReview;
    hide WriteDecision;
    hide MatchesHead;
    hide IsValidReview;
    hide AcceptedOn;
    assert Boundary(d, host.parse) == Boundary(f, host.parse) &&
      Boundary(d, host.parseIso) == Boundary(f, host.parseIso);
    hide Boundary;
    assert ValidReviews(d, reviews, host) == ValidReviews(f, reviews, host);
    hide ValidReviews;
    hide Filter;
  }

  lemma SameDerived(d: Entry, f: Entry, head: string, review: Option<Record>, stored: Option<Record>,
                    authors: seq<string>, a: Approval, parse: string -> Option<nat>)
    requires Alike(d, f)
    ensures DerivePullRequest(d, head, review, stored, authors, a, parse) ==
      DerivePullRequest(f, head, review, stored, authors, a, parse)
  {
    hide AcceptedOn;
    hide CompareRecords;
    hide CompareConversation;
    assert CurrentHandoff(d, TextOf(d.reviewer), Some(head), parse) ==
      CurrentHandoff(f, TextOf(d.reviewer), Some(head), parse);
    hide CurrentHandoff;
    assert InitialAnchor(d) == InitialAnchor(f);
    hide InitialAnchor;
    hide FromApproval;
  }

  lemma SamePullRequest(d: Entry, f: Entry, pr: PullRequest, reviews: Option<seq<Review>>, authors: seq<string>,
                        host: Host)
    requires Alike(d, f)
    ensures ComputePullRequest(d, pr, reviews, authors, host) == ComputePullRequest(f, pr, reviews, authors, host)
  {
    hide AcceptedOn;
    hide Preferred;
    hide LiveRecord;
    hide ApprovalOf;
    hide DerivePullRequest;
    if LiveOf(pr, reviews).Live? {
      var head, live := pr.head.value, reviews.value;
      var preferred := Preferred(d, head, live, host);
      var review := if preferred.Some? then LiveRecord(preferred.value, d.reviewer) else None;
      SameLive(d, f, head, live, host);
      SameDerived(d, f, head, review, AcceptedOn(d, ReviewerReview), authors, ApprovalOf(d, head, live, host),
                  host.parse);
    }
  }
}
