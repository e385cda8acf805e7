/** What the reviewer bot answers in every situation of an issue or a pull request
    (scripts/reviewer_bot_core/reviewer_response_policy.py, lines 587-1107). */
module ReviewOutcomes {
  import opened Strings
  import opened ReviewRecords
  import opened ReviewChannels
  import opened LiveReviews
  import opened ReviewAuthority
  import opened ReviewerResponse

  // ----- What counts -----

  /** A cycle starts at the first of the three texts that is filled, and its boundary is the first that can be read. */
  lemma CycleStart(e: Entry, parse: string -> Option<nat>)
    ensures var a, b, c := e.activeCycleStartedAt, e.cycleStartedAt, e.assignedAt;
            && (TextOf(a) != "" ==> InitialAnchor(e) == a)
            && (TextOf(a) == "" && TextOf(b) != "" ==> InitialAnchor(e) == b)
            && (TextOf(a) == "" && TextOf(b) == "" && TextOf(c) != "" ==> InitialAnchor(e) == c)
            && (InitialAnchor(e).None? <==> TextOf(a) == "" && TextOf(b) == "" && TextOf(c) == "")
    ensures var a, b, c := Readable(e.activeCycleStartedAt, parse), Readable(e.cycleStartedAt, parse),
                           Readable(e.assignedAt, parse);
            Boundary(e, parse) == if a.Some? then a else if b.Some? then b else c
  {
    FirstOfThree(e.activeCycleStartedAt, e.cycleStartedAt, e.assignedAt, parse);
  }

  lemma FirstOfThree(a: Option<string>, b: Option<string>, c: Option<string>, parse: string -> Option<nat>)
    ensures FirstFilled([a, b, c]) ==
            if TextOf(a) != "" then a else if TextOf(b) != "" then b else if TextOf(c) != "" then c else None
    ensures FirstParsed([a, b, c], parse) ==
            if Readable(a, parse).Some? then Readable(a, parse)
            else if Readable(b, parse).Some? then Readable(b, parse) else Readable(c, parse)
  {
    var three, two, one := [a, b, c], [b, c], [c];
    assert three[1..] == two && two[1..] == one && one[1..] == [];
    assert FirstFilled(one) == if TextOf(c) != "" then c else None;
    assert FirstFilled(two) == if TextOf(b) != "" then b else FirstFilled(one);
    assert FirstParsed(one, parse) == Readable(c, parse);
    assert FirstParsed(two, parse) == if Readable(b, parse).Some? then Readable(b, parse) else FirstParsed(one, parse);
  }

  function Readable(text: Option<string>, parse: string -> Option<nat>): Option<nat> {
    if text.Some? then parse(text.value) else None
  }

  /** A stored feedback command counts exactly when it is one, is by the tracked reviewer, names its event, is on this
      head, and has a readable time that is not before the cycle; then it speaks for the reviewer at that time. */
  lemma CommandCounts(e: Entry, reviewer: string, head: Option<string>, parse: string -> Option<nat>, r: Record)
    ensures CurrentHandoff(e, reviewer, head, parse) == Some(r) <==>
      && e.cycle.handoff.Some?
      && var h := e.cycle.handoff.value;
         && h.command == Some("feedback") && SameLogin(h.actor, Some(reviewer)) && h.head == head
         && Filled(h.key).Some? && Filled(h.timestamp).Some? && Readable(h.timestamp, parse).Some?
         && (Readable(InitialAnchor(e), parse).Some? ==>
               Readable(InitialAnchor(e), parse).value <= Readable(h.timestamp, parse).value)
         && r == Record(h.key.value, h.timestamp, h.actor, head, 1)
  {
    hide InitialAnchor;
  }

  /** The record of a live review names the review, its time, its commit and the tracked reviewer. */
  lemma ReviewRecordIs(r: Review, actor: Option<string>)
    ensures LiveRecord(r, actor).Some? <==>
      && HasSnapshot(r) && Filled(r.submittedAt).Some? && Filled(r.commit).Some?
      && (Filled(actor).Some? || Filled(r.login).Some?)
    ensures LiveRecord(r, actor).Some? ==>
      var record := LiveRecord(r, actor).value;
      && (r.id.TextId? ==> record.key == "pull_request_review:" + r.id.text)
      && (r.id.NumberId? ==> record.key == "pull_request_review:" + Decimal(r.id.n))
      && record.timestamp == r.submittedAt
      && record.head == r.commit && record.precedence == 1
      && record.actor == if Filled(actor).Some? then actor else r.login
  {
    hide HasSnapshot;
  }

  /** What the contributor said last: a comment, or a revision that is the current head and that the reviewer has not
      reviewed; the revision only if it is strictly later. */
  lemma ContributorSaid(e: Entry, head: string, review: Option<Record>, parse: string -> Option<nat>)
    ensures var revision, comment := AcceptedOn(e, ContributorRevision), AcceptedOn(e, ContributorComment);
            var counts := revision.Some? && revision.value.head == Some(head) &&
                          !(review.Some? && review.value.head == Some(head));
            && (counts && comment.None? ==> ContributorHandoff(e, head, review, parse) == revision)
            && (counts && comment.Some? ==>
                  ContributorHandoff(e, head, review, parse) ==
                  if Before(comment.value, revision.value, parse) then revision else comment)
            && (!counts ==> ContributorHandoff(e, head, review, parse) == comment)
  {
    hide Before;
    if AcceptedOn(e, ContributorComment).Some? && AcceptedOn(e, ContributorRevision).Some? {
      BeforeTotal(AcceptedOn(e, ContributorComment).value, AcceptedOn(e, ContributorRevision).value, parse);
    }
  }

  /** One record beats another across the conversation: it is later, or as late with a key that is not smaller, and the
      two are not alike. */
  predicate Beats(contributor: Option<Record>, reviewer: Option<Record>, parse: string -> Option<nat>) {
    var s, t := InstantOf(contributor, parse), InstantOf(reviewer, parse);
    s > t || (s == t && KeyOf(contributor) != KeyOf(reviewer) && LexLe(KeyOf(reviewer), KeyOf(contributor)))
  }

  lemma BeatsExactly(contributor: Option<Record>, reviewer: Option<Record>, parse: string -> Option<nat>)
    ensures Beats(contributor, reviewer, parse) <==> CompareConversation(contributor, reviewer, parse) > 0
    ensures Beats(contributor, reviewer, parse) <==> !Answered(contributor, reviewer, parse)
  {
    hide Instant;
  }

  /** A record of the reviewer's is the later one: it is there, and the other is not or is before it. */
  predicate IsLaterRecord(a: Option<Record>, b: Option<Record>, parse: string -> Option<nat>) {
    a.Some? && (b.None? || Before(b.value, a.value, parse))
  }

  lemma LaterExactly(a: Option<Record>, b: Option<Record>, parse: string -> Option<nat>)
    ensures a.Some? ==> (IsLaterRecord(a, b, parse) <==> CompareRecords(a, b, parse) > 0)
    ensures Later(a, b, parse) == if IsLaterRecord(a, b, parse) then a else b
  {
    hide Before;
  }

  // ----- Issues -----

  /** The answers about an issue, with their reasons and anchors. A feedback command that the contributor has not
      answered and that is the reviewer's last word hands over to the contributor, even of a completed issue; otherwise
      a completed issue is done; otherwise it waits for whoever has not spoken last. */
  lemma IssueOutcome(e: Entry, parse: string -> Option<nat>)
    requires Filled(e.reviewer).Some?
    ensures var reviewer, contributor := e.reviewer.value, AcceptedOn(e, ContributorComment);
            var comment := OfReviewer(AcceptedOn(e, ReviewerComment), reviewer);
            var review := OfReviewer(AcceptedOn(e, ReviewerReview), reviewer);
            var spoken := if IsLaterRecord(review, comment, parse) then review else comment;
            var command := CurrentHandoff(e, reviewer, None, parse);
            var stands := command.Some? && !Beats(contributor, command, parse) && IsLaterRecord(command, spoken, parse);
            DeriveIssue(e, parse) ==
            if stands then Response(AwaitingContributor, Some("completion_missing"), TimeOf(command))
            else if Complete(e) then Response(IsDone, None, TimeOf(spoken))
            else if spoken.None? then Response(AwaitingReviewer, Some("no_reviewer_activity"), InitialAnchor(e))
            else if Beats(contributor, spoken, parse) then
              Response(AwaitingReviewer, Some("contributor_comment_newer"), TimeOf(contributor))
            else Response(AwaitingContributor, Some("completion_missing"), TimeOf(spoken))
  {
    var reviewer, contributor := e.reviewer.value, AcceptedOn(e, ContributorComment);
    var comment := OfReviewer(AcceptedOn(e, ReviewerComment), reviewer);
    var review := OfReviewer(AcceptedOn(e, ReviewerReview), reviewer);
    var spoken := if IsLaterRecord(review, comment, parse) then review else comment;
    var command := CurrentHandoff(e, reviewer, None, parse);
    LaterExactly(review, comment, parse);
    LaterExactly(command, spoken, parse);
    LaterExactly(None, spoken, parse);
    BeatsExactly(contributor, command, parse);
    BeatsExactly(contributor, spoken, parse);
    BeatsExactly(contributor, command, parse);
    hide CompareRecords;
    hide CompareConversation;
    hide OfReviewer;
    hide CurrentHandoff;
    hide AcceptedOn;
    hide InitialAnchor;
    hide IsLaterRecord;
    hide Beats;
    hide Later;
  }

  // ----- Pull requests, record by record -----

  /** The reviewer's login is among the approving authors, and the stored review is not on this head. */
  predicate Contradicts(reviewer: string, head: string, stored: Option<Record>, authors: seq<string>) {
    && (exists x | x in authors :: !IsBlank(x) && Lower(x) == Lower(reviewer))
    && (stored.Some? ==> stored.value.head != Some(head))
  }

  /** As long as nobody has reviewed or commanded, the reviewer is waited for. */
  lemma NothingSaid(e: Entry, head: string, authors: seq<string>, a: Approval, parse: string -> Option<nat>)
    requires Filled(e.reviewer).Some? && !IsBlank(head) &&
      CurrentHandoff(e, e.reviewer.value, Some(head), parse) == None
    ensures DerivePullRequest(e, head, None, None, authors, a, parse) ==
            Response(AwaitingReviewer, Some("no_reviewer_activity"), InitialAnchor(e))
  {
    hide CurrentHandoff;
    hide ContributorHandoff;
    hide InitialAnchor;
    hide CompareConversation;
    hide CompareRecords;
  }

  /** A contributor who beats the review and the command gets the reviewer's turn, for a revision or for a comment. */
  lemma ContributorBeats(e: Entry, head: string, review: Option<Record>, stored: Option<Record>, authors: seq<string>,
                         a: Approval, parse: string -> Option<nat>)
    requires Filled(e.reviewer).Some? && !IsBlank(head) && (review.Some? || stored.Some?)
    requires var c := ContributorHandoff(e, head, review, parse);
             Beats(c, review, parse) && Beats(c, CurrentHandoff(e, e.reviewer.value, Some(head), parse), parse)
    ensures var c := ContributorHandoff(e, head, review, parse);
            DerivePullRequest(e, head, review, stored, authors, a, parse) ==
            Response(AwaitingReviewer,
                     Some(if StartsWith(KeyOf(c), "pull_request_") then "contributor_revision_newer"
                          else "contributor_comment_newer"),
                     TimeOf(c))
  {
    var c, h := ContributorHandoff(e, head, review, parse), CurrentHandoff(e, e.reviewer.value, Some(head), parse);
    BeatsExactly(c, review, parse);
    BeatsExactly(c, h, parse);
    LaterExactly(None, review, parse);
    hide CurrentHandoff;
    hide ContributorHandoff;
    hide InitialAnchor;
    hide CompareConversation;
    hide CompareRecords;
    hide Later;
    hide Beats;
    hide FromApproval;
  }

  /** A command that the contributor does not beat and that is later than the review hands over to the contributor. */
  lemma CommandHandsOver(e: Entry, head: string, review: Option<Record>, stored: Option<Record>, authors: seq<string>,
                         a: Approval, parse: string -> Option<nat>)
    requires Filled(e.reviewer).Some? && !IsBlank(head)
    requires var command := CurrentHandoff(e, e.reviewer.value, Some(head), parse);
             && command.Some? && IsLaterRecord(command, review, parse)
             && !Beats(ContributorHandoff(e, head, review, parse), command, parse)
    ensures DerivePullRequest(e, head, review, stored, authors, a, parse) ==
            Response(AwaitingContributor, Some("reviewer_feedback_handoff"),
                     TimeOf(CurrentHandoff(e, e.reviewer.value, Some(head), parse)))
  {
    var c, h := ContributorHandoff(e, head, review, parse), CurrentHandoff(e, e.reviewer.value, Some(head), parse);
    BeatsExactly(c, h, parse);
    LaterExactly(h, review, parse);
    hide CurrentHandoff;
    hide ContributorHandoff;
    hide InitialAnchor;
    hide CompareConversation;
    hide CompareRecords;
    hide Later;
    hide IsLaterRecord;
    hide Beats;
    hide FromApproval;
  }

  /** The reviewer's last word is the review: no command counts, or the contributor has answered it, or it is not later.
      */
  ghost predicate ReviewStands(e: Entry, head: string, review: Option<Record>, parse: string -> Option<nat>) {
    var c, h := ContributorHandoff(e, head, review, parse), CurrentHandoff(e, TextOf(e.reviewer), Some(head), parse);
    && !Beats(c, review, parse)
    && (h.None? || Beats(c, h, parse) || !IsLaterRecord(h, review, parse))
  }

  /** An answered review that is not on this head: an approval that contradicts the stored review is an error, a command
      that still stands leaves the contributor waited for, and otherwise the reviewer has to look again. */
  lemma StaleReview(e: Entry, head: string, review: Option<Record>, stored: Option<Record>, authors: seq<string>,
                    a: Approval, parse: string -> Option<nat>)
    requires Filled(e.reviewer).Some? && !IsBlank(head) && (review.Some? || stored.Some?)
    requires ReviewStands(e, head, review, parse) && (review.Some? ==> review.value.head != Some(head))
    ensures var c, h := ContributorHandoff(e, head, review, parse),
      CurrentHandoff(e, e.reviewer.value, Some(head), parse);
            var anchor := if c.Some? then TimeOf(c) else InitialAnchor(e);
            DerivePullRequest(e, head, review, stored, authors, a, parse) ==
            if Contradicts(e.reviewer.value, head, stored, authors) then
              Response(ProjectionFailed, Some("public_current_head_approval_contradiction"), anchor)
            else if h.Some? && !Beats(c, h, parse) then
              Response(AwaitingContributor, Some("reviewer_feedback_handoff"), TimeOf(h))
            else Response(AwaitingReviewer, Some("review_head_stale"), anchor)
  {
    var c, h := ContributorHandoff(e, head, review, parse), CurrentHandoff(e, e.reviewer.value, Some(head), parse);
    BeatsExactly(c, h, parse);
    BeatsExactly(c, review, parse);
    LaterExactly(h, review, parse);
    LaterExactly(None, review, parse);
    hide CurrentHandoff;
    hide ContributorHandoff;
    hide InitialAnchor;
    hide CompareConversation;
    hide CompareRecords;
    hide Later;
    hide IsLaterRecord;
    hide Beats;
    hide FromApproval;
    hide Lower;
    hide IsBlank;
  }

  /** An answered review on this head: what the live reviews decide, unless an approval contradicts the stored review.
      */
  lemma CurrentReview(e: Entry, head: string, review: Record, stored: Option<Record>, authors: seq<string>, a: Approval,
                      parse: string -> Option<nat>)
    requires Filled(e.reviewer).Some? && !IsBlank(head) && review.head == Some(head)
    requires ReviewStands(e, head, Some(review), parse)
    ensures var c := ContributorHandoff(e, head, Some(review), parse);
            DerivePullRequest(e, head, Some(review), stored, authors, a, parse) ==
            if Contradicts(e.reviewer.value, head, stored, authors) then
              Response(ProjectionFailed, Some("public_current_head_approval_contradiction"),
                       if c.Some? then TimeOf(c) else InitialAnchor(e))
            else FromApproval(a, Some(review))
  {
    var c := ContributorHandoff(e, head, Some(review), parse);
    var h := CurrentHandoff(e, e.reviewer.value, Some(head), parse);
    BeatsExactly(c, h, parse);
    BeatsExactly(c, Some(review), parse);
    LaterExactly(h, Some(review), parse);
    LaterExactly(None, Some(review), parse);
    hide CurrentHandoff;
    hide ContributorHandoff;
    hide InitialAnchor;
    hide CompareConversation;
    hide CompareRecords;
    hide Later;
    hide IsLaterRecord;
    hide Beats;
    hide FromApproval;
    hide Lower;
    hide IsBlank;
  }

  // ----- Pull requests, by their live reviews -----

  /** A pull request that cannot be read, whose head is not known or whose reviews cannot be read, is not judged. */
  lemma UnreadPullRequest(e: Entry, pr: PullRequest, reviews: Option<seq<Review>>, authors: seq<string>, host: Host)
    ensures pr.NotRead? ==>
      ComputePullRequest(e, pr, reviews, authors, host) == Response(ProjectionFailed, Some(pr.reason), None)
    ensures pr.Read? && Filled(pr.head).None? ==>
      ComputePullRequest(e, pr, reviews, authors, host) ==
      Response(ProjectionFailed, Some("pull_request_head_unavailable"), None)
    ensures pr.Read? && Filled(pr.head).Some? && reviews.None? ==>
      ComputePullRequest(e, pr, reviews, authors, host) == Response(ProjectionFailed, Some("reviews_unavailable"), None)
    ensures Filled(e.reviewer).None? && pr.Read? && Filled(pr.head).Some? && reviews.Some? ==>
      ComputePullRequest(e, pr, reviews, authors, host) == Response(Untracked, Some("no_current_reviewer"), None)
  {
    hide Preferred;
    hide LiveRecord;
    hide ApprovalOf;
    hide IsBlank;
  }

  /** The preferred review is on this head and is the reviewer's last word, which nothing contradicts. */
  ghost predicate Reviewed(e: Entry, head: string, reviews: seq<Review>, authors: seq<string>, host: Host,
                           record: Record) {
    && Filled(e.reviewer).Some? && !IsBlank(head)
    && Preferred(e, head, reviews, host).Some?
    && LiveRecord(Preferred(e, head, reviews, host).value, e.reviewer) == Some(record)
    && record.head == Some(head) && ReviewStands(e, head, Some(record), host.parse)
    && !Contradicts(e.reviewer.value, head, AcceptedOn(e, ReviewerReview), authors)
  }

  /** On a reviewed head the live reviews decide. Without a submitted review of the tracked reviewer, or with one that
      does not approve, the contributor is waited for; an approval makes the pull request done if somebody who approved
      may push and every permission is known; it waits for write approval if nobody who approved may push. */
  lemma ReviewedOutcome(e: Entry, head: string, reviews: seq<Review>, authors: seq<string>, host: Host, record: Record)
    requires Reviewed(e, head, reviews, authors, host, record) && DistinctIds(reviews) && PerAccount(host)
    ensures var r := ComputePullRequest(e, Read(Some(head)), Some(reviews), authors, host);
            var submitted := exists q :: Submitted(q, e, head, reviews, host);
            var approved := exists q :: Submitted(q, e, head, reviews, host) && IsApproval(q, e, head, host);
            var granted, unknown := HasApproval(e, head, reviews, host, Granted),
                                    HasApproval(e, head, reviews, host, Unavailable);
            if Boundary(e, host.parseIso).None? then
              r == Response(ProjectionFailed, Some("live_review_state_unknown"), None)
            else if !submitted then r == Response(AwaitingContributor, Some("completion_missing"), record.timestamp)
            else if !approved then
              r == Response(AwaitingContributor, Some("assigned_reviewer_review_submitted"), record.timestamp)
            else if !granted && !unknown then
              r == Response(AwaitingWriteApproval, Some("write_approval_missing"), record.timestamp)
            else if !unknown then r == Response(IsDone, Some("write_approval_present"), record.timestamp)
            else if !granted then r == Response(ProjectionFailed, Some("live_review_state_unknown"), None)
            else r in {Response(IsDone, Some("write_approval_present"), record.timestamp),
                       Response(ProjectionFailed, Some("live_review_state_unknown"), None)}
  {
    ReviewedIs(e, head, reviews, authors, host, record);
    ApprovalTable(e, head, reviews, host);
    Answers(record);
    assert e.reviewer.Some?;
    hide *;
  }

  lemma ReviewedIs(e: Entry, head: string, reviews: seq<Review>, authors: seq<string>, host: Host, record: Record)
    requires Reviewed(e, head, reviews, authors, host, record)
    ensures ComputePullRequest(e, Read(Some(head)), Some(reviews), authors, host) ==
            FromApproval(ApprovalOf(e, head, reviews, host), Some(record))
    ensures !IsBlank(head)
  {
    var a := ApprovalOf(e, head, reviews, host);
    ComputesFrom(e, head, reviews, authors, host);
    CurrentReview(e, head, record, AcceptedOn(e, ReviewerReview), authors, a, host.parse);
    hide ApprovalOf;
    hide DerivePullRequest;
    hide ComputePullRequest;
    hide Preferred;
    hide LiveRecord;
    hide ReviewStands;
    hide Contradicts;
    hide IsBlank;
    hide AcceptedOn;
  }

  lemma Answers(record: Record)
    ensures FromApproval(Approval(false, false, AwaitsReviewer), Some(record)) ==
            Response(ProjectionFailed, Some("live_review_state_unknown"), None)
    ensures FromApproval(Approval(true, false, AwaitsReviewer), Some(record)) ==
            Response(AwaitingContributor, Some("completion_missing"), record.timestamp)
    ensures FromApproval(Approval(true, true, AwaitsContributor), Some(record)) ==
            Response(AwaitingContributor, Some("assigned_reviewer_review_submitted"), record.timestamp)
    ensures FromApproval(Approval(true, true, AwaitsApproval), Some(record)) ==
            Response(AwaitingWriteApproval, Some("write_approval_missing"), record.timestamp)
    ensures FromApproval(Approval(true, true, WriteApproved), Some(record)) ==
            Response(IsDone, Some("write_approval_present"), record.timestamp)
    ensures FromApproval(Approval(false, true, NotReadable), Some(record)) ==
            Response(ProjectionFailed, Some("live_review_state_unknown"), None)
  {
  }

  /** What the live reviews decide. */
  lemma ApprovalTable(e: Entry, head: string, reviews: seq<Review>, host: Host)
    requires !IsBlank(head) && DistinctIds(reviews) && PerAccount(host)
    ensures var a := ApprovalOf(e, head, reviews, host);
            var submitted := exists q :: Submitted(q, e, head, reviews, host);
            var approved := exists q :: Submitted(q, e, head, reviews, host) && IsApproval(q, e, head, host);
            var granted, unknown := HasApproval(e, head, reviews, host, Granted),
                                    HasApproval(e, head, reviews, host, Unavailable);
            if Boundary(e, host.parseIso).None? then a == Approval(false, false, AwaitsReviewer)
            else if !submitted then a == Approval(true, false, AwaitsReviewer)
            else if !approved then a == Approval(true, true, AwaitsContributor)
            else if !granted && !unknown then a == Approval(true, true, AwaitsApproval)
            else if !unknown then a == Approval(true, true, WriteApproved)
            else if !granted then a == Approval(false, true, NotReadable)
            else a in {Approval(true, true, WriteApproved), Approval(false, true, NotReadable)}
  {
    if Boundary(e, host.parseIso).None? { return; }
    RoundExactly(e, head, reviews, host);
    if RoundApproved(e, head, reviews, host) {
      DecisionMeaning(e, head, reviews, host);
      ApprovedIsComplete(e, head, reviews, host);
    }
    hide ApprovalOf;
    hide RoundApproved;
    hide Submitted;
    hide IsApproval;
    hide HasApproval;
    hide DistinctIds;
    hide PerAccount;
    hide Boundary;
    hide IsBlank;
  }

  /** A review on another head, and no command: the reviewer has to look again. */
  lemma StaleHeadAwaitsReviewer(e: Entry, head: string, reviews: seq<Review>, authors: seq<string>, host: Host)
    requires Filled(e.reviewer).Some? && !IsBlank(head) && Preferred(e, head, reviews, host).Some?
    requires var record := LiveRecord(Preferred(e, head, reviews, host).value, e.reviewer);
             record.Some? && record.value.head != Some(head)
    requires CurrentHandoff(e, e.reviewer.value, Some(head), host.parse) == None
    requires !Contradicts(e.reviewer.value, head, AcceptedOn(e, ReviewerReview), authors)
    ensures ComputePullRequest(e, Read(Some(head)), Some(reviews), authors, host).state.AwaitingReviewer?
  {
    var record := LiveRecord(Preferred(e, head, reviews, host).value, e.reviewer);
    var a, stored := ApprovalOf(e, head, reviews, host), AcceptedOn(e, ReviewerReview);
    var c := ContributorHandoff(e, head, record, host.parse);
    ComputesFrom(e, head, reviews, authors, host);
    if Beats(c, record, host.parse) {
      BeatsNothing(c, record, host.parse);
      ContributorBeats(e, head, record, stored, authors, a, host.parse);
    } else {
      StaleReview(e, head, record, stored, authors, a, host.parse);
    }
  }

  lemma BeatsNothing(contributor: Option<Record>, reviewer: Option<Record>, parse: string -> Option<nat>)
    requires Beats(contributor, reviewer, parse)
    ensures Beats(contributor, None, parse)
  {
    LexTotal("", KeyOf(reviewer));
  }
}
