/** Assigning and releasing reviewers (scripts/reviewer_bot_lib/assignment_flow.py): the tracked reviewer is only
    changed after the live assignees confirm it. */
module Assignment {
  import opened Strings

  // ----- Authority -----

  datatype Authority = LiveReadUnavailable | NoTrackedReviewer | ControlPlaneMismatch | TrackedReviewerConfirmed

  predicate Names(login: string, other: string) { Lower(login) == Lower(other) }

  predicate Among(login: string, logins: seq<string>) { exists i | 0 <= i < |logins| :: Names(login, logins[i]) }

  /** `derive_reviewer_authority_resolution` on a live read; None is a read that failed. */
  function Resolve(pullRequest: bool, tracked: Option<string>, live: Option<seq<string>>): Authority {
    if live.None? then LiveReadUnavailable
    else if tracked.None? || IsBlank(tracked.value) then NoTrackedReviewer
    else if pullRequest then
      if live.value != [] && !Among(tracked.value, live.value) then ControlPlaneMismatch else TrackedReviewerConfirmed
    else if |live.value| != 1 then ControlPlaneMismatch
    else if !Names(tracked.value, live.value[0]) then ControlPlaneMismatch
    else TrackedReviewerConfirmed
  }

  /** `require_reviewer_command_actor`: only the confirmed reviewer may give reviewer commands. */
  predicate MayCommand(pullRequest: bool, tracked: Option<string>, live: Option<seq<string>>, actor: string) {
    Resolve(pullRequest, tracked, live).TrackedReviewerConfirmed? && Names(tracked.value, actor)
  }

  /** Without a read nothing is known, without a tracked reviewer nobody resolves, and the case of logins does not
      matter. */
  lemma ResolvesWhenRead(pullRequest: bool, tracked: string, live: Option<seq<string>>)
    ensures live.None? <==> Resolve(pullRequest, Some(tracked), live) == LiveReadUnavailable
    ensures live.Some? ==> Resolve(pullRequest, None, live) == NoTrackedReviewer
    ensures live.Some? ==> (IsBlank(tracked) <==> Resolve(pullRequest, Some(tracked), live) == NoTrackedReviewer)
    ensures Resolve(pullRequest, Some(Upper(tracked)), live) == Resolve(pullRequest, Some(tracked), live)
  {
    CaseFolds(tracked);
    SameBlank(Upper(tracked), tracked);
    hide Lower;
    hide Upper;
    hide IsBlank;
  }

  // ----- What a read after the writes confirms -----

  datatype Attempt = Attempt(success: bool, status: Option<nat>)

  datatype WriteStatus =
    | AlreadyLiveAssigned
    | LiveReadBlocked
    | LiveAssignmentConfirmed
    | TrackedAfter422
    | TrackedWithoutRequest
    | FinalMismatch

  /** `derive_reviewer_assignment_confirmation`. */
  function Confirmation(pullRequest: bool, reviewer: string, before: seq<string>, after: Option<seq<string>>,
                        attempt: Option<Attempt>, noop: bool): WriteStatus {
    if noop || (Among(reviewer, before) && after.Some? && Among(reviewer, after.value)) then AlreadyLiveAssigned
    else if after.None? then LiveReadBlocked
    else if Among(reviewer, after.value) && |after.value| == 1 then LiveAssignmentConfirmed
    else if attempt.Some? && attempt.value.status == Some(422) && pullRequest then TrackedAfter422
    else if pullRequest && after.value == [] then TrackedWithoutRequest
    else FinalMismatch
  }

  predicate Tracks(w: WriteStatus) { !w.LiveReadBlocked? && !w.FinalMismatch? }

  // ----- Lists of logins -----

  /** Logins as GitHub lists them: filled, and each account once. */
  predicate AreLogins(live: seq<string>) {
    && (forall i | 0 <= i < |live| :: !IsBlank(live[i]))
    && (forall i, j | 0 <= i < j < |live| :: !Names(live[i], live[j]))
  }

  function Without(live: seq<string>, login: string): (r: seq<string>)
    ensures !Among(login, r)
    ensures forall x :: x in r <==> x in live && !Names(login, x)
  {
    if live == [] then []
    else
      var n := |live| - 1;
      assert live == live[..n] + [live[n]];
      var front := Without(live[..n], login);
      if Names(login, live[n]) then front else front + [live[n]]
  }

  lemma {:induction false} WithoutLogins(live: seq<string>, login: string)
    requires AreLogins(live)
    ensures AreLogins(Without(live, login))
    decreases |live|
  {
    hide Names;
    hide IsBlank;
    hide Among;
    if live != [] {
      var n := |live| - 1;
      WithoutLogins(live[..n], login);
      var front := Without(live[..n], login);
      forall i | 0 <= i < |front| ensures !Names(front[i], live[n]) {
        assert front[i] in live[..n];
        var k :| 0 <= k < n && live[k] == front[i];
      }
    }
  }

  function With(live: seq<string>, login: string): (r: seq<string>)
    ensures AreLogins(live) && !IsBlank(login) ==> AreLogins(r)
    ensures Among(login, r)
  {
    assert Names(login, (live + [login])[|live|]);
    if Among(login, live) then live else live + [login]
  }

  // ----- An issue or pull request with its reviewers -----

  datatype Reading = Logins(logins: seq<string>) | ReadFailed | ReadDenied

  /** Why a call is not confirmed. */
  datatype Reason =
    | Unavailable     // "assignees_unavailable"
    | SelfReview      // "self_review_not_allowed"
    | RemoveFailed    // "remove_failed"
    | FinalUnknown    // "final_assignees_unknown"
    | Mismatch        // "final_assignee_mismatch"

  /** One login is left, and nobody else is tracked. */
  predicate Consists(live: seq<string>, tracked: Option<string>) {
    |live| == 1 && (tracked.None? || Names(live[0], tracked.value))
  }

  datatype Outcome =
    | Confirmed
    | Unconfirmed(reason: Reason)
    | Raised            // permission was denied, which stops the bot

  /** GitHub's side, `live`, which only the bot writes, and the bot's side, `tracked`. On an item that is not reliable
      reads may fail, and so may writes, whether or not they have taken effect; but a reported success is real. */
  class Item {
    var live: seq<string>
    var tracked: Option<string>
    const pullRequest: bool
    const author: string
    const reliable: bool

    constructor (live: seq<string>, tracked: Option<string>, pullRequest: bool, author: string, reliable: bool)
      ensures this.live == live && this.tracked == tracked && this.pullRequest == pullRequest
      ensures this.author == author && this.reliable == reliable
    {
      this.live, this.tracked, this.pullRequest, this.author, this.reliable := live, tracked, pullRequest, author,
        reliable;
    }

    predicate IsAuthor(login: string) { author != "" && Names(login, author) }

    function Authority(): Authority
      reads this
    {
      Resolve(pullRequest, tracked, Some(live))
    }

    /** `_read_live_assignees`. */
    method ReadLive() returns (r: Reading)
      ensures r.Logins? ==> r.logins == live
      ensures reliable ==> r.Logins?
    {
      if reliable { return Logins(live); }
      var outcome: int := *;
      r := if outcome == 0 then Logins(live) else if outcome == 1 then ReadFailed else ReadDenied;
    }

    method RemoveLive(login: string) returns (a: Attempt)
      modifies `live
      ensures live == old(live) || live == Without(old(live), login)
      ensures a.success ==> live == Without(old(live), login)
      ensures AreLogins(old(live)) ==> AreLogins(live)
      ensures reliable ==> a.success
    {
      if AreLogins(live) { WithoutLogins(live, login); }
      var effect, success, status := *, *, *;
      if reliable || success {
        live := Without(live, login);
        return Attempt(true, Some(204));
      }
      if effect { live := Without(live, login); }
      a := Attempt(false, status);
    }

    method AddLive(login: string) returns (a: Attempt)
      modifies `live
      ensures live == old(live) || live == With(old(live), login)
      ensures a.success ==> live == With(old(live), login) && a.status == Some(201)
      ensures reliable ==> a.success
    {
      var effect, success, status := *, *, *;
      if reliable || success {
        live := With(live, login);
        return Attempt(true, Some(201));
      }
      if effect { live := With(live, login); }
      a := Attempt(false, status);
    }

    /** The removal of all that are listed but the reviewer. The list may be out of date. */
    method RemoveOthers(before: seq<string>, reviewer: string) returns (ok: bool)
      requires AreLogins(live)
      modifies `live
      ensures AreLogins(live) && forall x :: x in live ==> x in old(live)
      ensures ok ==> forall x :: x in live <==> x in old(live) && (Names(reviewer, x) || !Among(x, before))
      ensures reliable ==> ok
    {
      hide AreLogins;
      hide Among;
      hide Lower;
      NobodyAmong();
      for i := 0 to |before|
        invariant AreLogins(live)
        invariant forall x :: x in live <==> x in old(live) && (Names(reviewer, x) || !Among(x, before[..i]))
      {
        AmongNext(before, i);
        if Names(reviewer, before[i]) { continue; }
        var attempt := RemoveLive(before[i]);
        if !attempt.success { return false; }
      }
      assert before[..|before|] == before;
      return true;
    }

    /** `confirm_reviewer_assignment`; callers may hand in the assignees that they have seen. When those are the live
        ones, or when they are read here, a confirmed reviewer is the only one left. */
    method ConfirmAssignment(reviewer: string, given: Option<seq<string>>) returns (r: Outcome)
      requires AreLogins(live) && !IsBlank(reviewer)
      modifies `live, `tracked
      ensures AreLogins(live)
      ensures r.Confirmed? ==> tracked.Some? && Names(tracked.value, reviewer)
      ensures r.Confirmed? && Current(given, old(live)) ==> Authority().TrackedReviewerConfirmed?
      ensures r.Confirmed? && Current(given, old(live)) && !pullRequest ==> |live| == 1 && Names(reviewer, live[0])
      ensures r.Confirmed? && Current(given, old(live)) ==> forall x :: x in live ==> Names(reviewer, x)
      ensures r == Unconfirmed(Mismatch) ==> tracked == if pullRequest then old(tracked) else None
      ensures !r.Confirmed? && r != Unconfirmed(Mismatch) ==> tracked == old(tracked)
      ensures tracked == old(tracked) || tracked == None || (tracked == Some(reviewer) && !IsAuthor(reviewer))
      ensures IsAuthor(reviewer) ==> !r.Confirmed? && r != Unconfirmed(Mismatch) && live == old(live)
      ensures reliable ==>
        r.Confirmed? || r == Unconfirmed(if IsAuthor(reviewer) then SelfReview else Mismatch)
      ensures reliable && !IsAuthor(reviewer) && Current(given, old(live)) ==> r.Confirmed?
      ensures reliable && !IsAuthor(reviewer) ==>
        (r.Confirmed? && !Authority().TrackedReviewerConfirmed? <==>
         given.Some? && Misleads(pullRequest, reviewer, old(tracked), given.value, old(live)))
    {
      hide Lower;
      hide IsBlank;
      hide Without;
      hide AreLogins;
      hide Among;
      hide Current;
      hide Misleads;
      hide Resolve;
      hide Confirmation;
      var stored := tracked;
      ghost var initial := live;
      var before: seq<string>;
      if given.Some? {
        before := given.value;
      } else {
        var first := ReadLive();
        if first.ReadDenied? { return Raised; }
        if first.ReadFailed? { return Unconfirmed(Unavailable); }
        before := first.logins;
      }
      if author != "" && Names(reviewer, author) { return Unconfirmed(SelfReview); }
      if IsNoop(reviewer, stored, before) {
        NoopResolves(pullRequest, reviewer, stored, given, before, live);
        return Confirmed;
      }
      var removed := RemoveOthers(before, reviewer);
      if !removed {
        var final := ReadLive();
        return if final.ReadDenied? then Raised else Unconfirmed(RemoveFailed);
      }
      var attempt: Option<Attempt> := None;
      ghost var left := live;
      if !Among(reviewer, before) {
        var added := AddLive(reviewer);
        attempt := Some(added);
      }
      var final := ReadLive();
      if final.ReadDenied? { return Raised; }
      if final.ReadFailed? { return Unconfirmed(FinalUnknown); }
      var status := Confirmation(pullRequest, reviewer, before, Some(final.logins), attempt, false);
      ReadDecides(pullRequest, reviewer, before, final.logins, attempt);
      if Current(given, initial) { CurrentAgrees(pullRequest, reviewer, given, before, initial, left, live, attempt); }
      if reliable { ReliablyMisled(pullRequest, reviewer, stored, given, before, initial, left, live, attempt); }
      if Tracks(status) {
        tracked := Some(reviewer);
        return Confirmed;
      }
      if status.FinalMismatch? && !pullRequest { tracked := None; }
      return Unconfirmed(Mismatch);
    }

    /** `confirm_reviewer_release`. */
    method ConfirmRelease(reviewer: string) returns (r: Outcome)
      requires AreLogins(live)
      modifies `live, `tracked
      ensures AreLogins(live) && (live == old(live) || live == Without(old(live), reviewer))
      ensures r.Confirmed? ==> live == [] && tracked == None
      ensures r == Unconfirmed(Mismatch) ==> live != [] && tracked == if Consists(live, old(tracked)) then old(tracked)
        else None
      ensures !r.Confirmed? && r != Unconfirmed(Mismatch) ==> tracked == old(tracked)
      ensures reliable ==> (r.Confirmed? <==> Without(old(live), reviewer) == [])
      ensures reliable ==> r.Confirmed? || r == Unconfirmed(Mismatch)
    {
      hide AreLogins;
      hide Without;
      hide Among;
      hide Lower;
      var stored := tracked;
      var first := ReadLive();
      if first.ReadDenied? { return Raised; }
      if first.ReadFailed? { return Unconfirmed(Unavailable); }
      var before := first.logins;
      if Among(reviewer, before) {
        var attempt := RemoveLive(reviewer);
        if !attempt.success { return Unconfirmed(RemoveFailed); }
      } else {
        NothingToRemove(before, reviewer);
      }
      var final := ReadLive();
      if final.ReadDenied? { return Raised; }
      if final.ReadFailed? { return Unconfirmed(FinalUnknown); }
      if final.logins != [] {
        if |final.logins| != 1 || (stored.Some? && !Names(final.logins[0], stored.value)) { tracked := None; }
        return Unconfirmed(Mismatch);
      }
      tracked := None;
      return Confirmed;
    }

    /** Over any sequence of calls the author is never made the tracked reviewer. */
    method Live(calls: seq<Call>)
      requires AreLogins(live) && forall c :: c in calls && c.Assign? ==> !IsBlank(c.reviewer)
      modifies `live, `tracked
      ensures AreLogins(live)
      ensures tracked.Some? && IsAuthor(tracked.value) ==> tracked == old(tracked)
    {
      for i := 0 to |calls|
        invariant AreLogins(live)
        invariant tracked.Some? && IsAuthor(tracked.value) ==> tracked == old(tracked)
      {
        var c := calls[i];
        assert c in calls;
        if c.Assign? {
          var outcome := ConfirmAssignment(c.reviewer, c.given);
        } else {
          var outcome := ConfirmRelease(c.reviewer);
        }
      }
    }
  }

  datatype Call = Assign(reviewer: string, given: Option<seq<string>>) | Release(reviewer: string)

  // ----- Lemmas about lists -----

  lemma ReadDecides(pullRequest: bool, reviewer: string, before: seq<string>, after: seq<string>,
                    attempt: Option<Attempt>)
    ensures !Confirmation(pullRequest, reviewer, before, Some(after), attempt, false).LiveReadBlocked?
  {
  }

  lemma NobodyAmong()
    ensures forall x :: !Among(x, [])
  {
  }

  lemma AmongNext(before: seq<string>, i: nat)
    requires i < |before|
    ensures forall x :: Among(x, before[..i + 1]) <==> Among(x, before[..i]) || Names(before[i], x)
  {
    hide Lower;
    assert before[..i + 1] == before[..i] + [before[i]];
    forall x ensures Among(x, before[..i + 1]) <==> Among(x, before[..i]) || Names(before[i], x) {
      if j :| 0 <= j < i && Names(x, before[..i][j]) { assert before[..i + 1][j] == before[..i][j]; }
      if Names(before[i], x) { assert Names(x, before[..i + 1][i]); }
    }
  }

  lemma TwoDiffer(live: seq<string>, reviewer: string)
    requires AreLogins(live) && |live| > 1
    ensures exists x :: x in live && !Names(reviewer, x)
  {
    if Names(reviewer, live[0]) { assert live[1] in live; } else { assert live[0] in live; }
  }

  // ----- Assignees that a caller hands in -----

  predicate IsNoop(reviewer: string, stored: Option<string>, before: seq<string>) {
    stored.Some? && Names(stored.value, reviewer) && |before| == 1 && Names(before[0], reviewer)
  }

  ghost predicate SameAccounts(a: seq<string>, b: seq<string>) { forall x :: Among(x, a) <==> Among(x, b) }

  /** The assignees that were handed in, if any, are the live ones. */
  ghost predicate Current(given: Option<seq<string>>, live: seq<string>) {
    given.Some? ==> SameAccounts(given.value, live)
  }

  /** Somebody else is live and not listed. */
  ghost predicate Hides(reviewer: string, given: seq<string>, live: seq<string>) {
    exists x :: x in live && !Names(reviewer, x) && !Among(x, given)
  }

  /** Assignees that are out of date in such a way that the reviewer is confirmed who does not resolve. */
  ghost predicate Misleads(pullRequest: bool, reviewer: string, stored: Option<string>, given: seq<string>,
                           live: seq<string>) {
    if IsNoop(reviewer, stored, given) then
      if pullRequest then live != [] && !Among(reviewer, live) else |live| != 1 || !Among(reviewer, live)
    else !pullRequest && Among(reviewer, given) && Among(reviewer, live) && Hides(reviewer, given, live)
  }

  lemma SameNamesAmong(x: string, y: string, logins: seq<string>)
    requires Names(x, y)
    ensures Among(x, logins) <==> Among(y, logins)
  {
  }

  lemma InAmong(x: string, logins: seq<string>)
    requires x in logins
    ensures Among(x, logins)
  {
    hide Lower;
    var i :| 0 <= i < |logins| && logins[i] == x;
    assert Names(x, logins[i]);
  }

  lemma AmongIn(x: string, logins: seq<string>) returns (y: string)
    requires Among(x, logins)
    ensures y in logins && Names(x, y)
  {
    var i :| 0 <= i < |logins| && Names(x, logins[i]);
    y := logins[i];
  }

  /** Among logins, the reviewer is alone exactly when there is one login and nobody else. */
  lemma AloneMeans(reviewer: string, live: seq<string>)
    requires AreLogins(live)
    ensures Among(reviewer, live) && (forall x :: x in live ==> Names(reviewer, x)) <==>
            |live| == 1 && Names(reviewer, live[0])
    ensures Among(reviewer, live) && |live| != 1 ==> exists x :: x in live && !Names(reviewer, x)
    ensures |live| == 1 ==> (Among(reviewer, live) <==> Names(reviewer, live[0]))
  {
    hide Lower;
    if |live| > 1 { TwoDiffer(live, reviewer); }
    if |live| == 1 { assert Among(reviewer, live) <==> Names(reviewer, live[0]); }
  }

  /** A reviewer who was tracked and listed alone before resolves unless the list misleads. */
  lemma NoopResolves(pullRequest: bool, reviewer: string, stored: Option<string>, given: Option<seq<string>>,
                     before: seq<string>, live: seq<string>)
    requires IsNoop(reviewer, stored, before) && !IsBlank(reviewer) && AreLogins(live)
    requires before == if given.Some? then given.value else live
    ensures !Resolve(pullRequest, stored, Some(live)).TrackedReviewerConfirmed? <==>
            given.Some? && Misleads(pullRequest, reviewer, stored, given.value, live)
    ensures Current(given, live) ==>
      Resolve(pullRequest, stored, Some(live)).TrackedReviewerConfirmed? && |live| == 1 && Names(reviewer, live[0])
  {
    SameBlank(stored.value, reviewer);
    SameNamesAmong(stored.value, reviewer, live);
    AloneMeans(reviewer, live);
    if Current(given, live) {
      assert Among(reviewer, before) by { assert Names(reviewer, before[0]); }
      forall x | x in live ensures Names(reviewer, x) {
        InAmong(x, live);
        assert Among(x, before);
      }
    }
  }

  /** What is left when all that are listed but the reviewer were removed, and the reviewer was added if not listed. */
  ghost predicate Left(reviewer: string, before: seq<string>, initial: seq<string>, left: seq<string>,
                       live: seq<string>) {
    && (forall x :: x in left <==> x in initial && (Names(reviewer, x) || !Among(x, before)))
    && (live == left || (!Among(reviewer, before) && live == With(left, reviewer)))
  }

  /** With a current list nobody else is left, and tracking and resolving agree. */
  lemma CurrentAgrees(pullRequest: bool, reviewer: string, given: Option<seq<string>>, before: seq<string>,
                      initial: seq<string>, left: seq<string>, live: seq<string>, attempt: Option<Attempt>)
    requires Current(given, initial) && before == (if given.Some? then given.value else initial)
    requires Left(reviewer, before, initial, left, live) && AreLogins(live) && !IsBlank(reviewer)
    ensures Tracks(Confirmation(pullRequest, reviewer, before, Some(live), attempt, false)) <==>
            Resolve(pullRequest, Some(reviewer), Some(live)).TrackedReviewerConfirmed?
    ensures forall x :: x in live ==> Names(reviewer, x)
    ensures Among(reviewer, before) || Among(reviewer, live) ==> |live| == 1 && Names(reviewer, live[0])
    ensures !pullRequest && Resolve(pullRequest, Some(reviewer), Some(live)).TrackedReviewerConfirmed? ==>
      |live| == 1 && Names(reviewer, live[0])
  {
    hide Lower;
    hide IsBlank;
    hide Confirmation;
    forall x | x in left ensures Names(reviewer, x) {
      InAmong(x, initial);
    }
    ConfirmedAgrees(pullRequest, reviewer, before, live, attempt);
    AloneMeans(reviewer, live);
    if Among(reviewer, before) {
      var y := AmongIn(reviewer, initial);
      InAmong(y, live);
      SameNamesAmong(reviewer, y, live);
    }
  }

  /** On a reliable item the reviewer is tracked without resolving exactly when the list misleads. */
  lemma ReliablyMisled(pullRequest: bool, reviewer: string, stored: Option<string>, given: Option<seq<string>>,
                       before: seq<string>, initial: seq<string>, left: seq<string>, live: seq<string>,
                       attempt: Option<Attempt>)
    requires before == (if given.Some? then given.value else initial) && !IsNoop(reviewer, stored, before)
    requires Left(reviewer, before, initial, left, live) && AreLogins(left) && AreLogins(live) && !IsBlank(reviewer)
    requires live == if Among(reviewer, before) then left else With(left, reviewer)
    requires attempt == if Among(reviewer, before) then None else Some(Attempt(true, Some(201)))
    ensures Tracks(Confirmation(pullRequest, reviewer, before, Some(live), attempt, false)) &&
            !Resolve(pullRequest, Some(reviewer), Some(live)).TrackedReviewerConfirmed? <==>
            given.Some? && Misleads(pullRequest, reviewer, stored, given.value, initial)
    ensures Current(given, initial) ==> Tracks(Confirmation(pullRequest, reviewer, before, Some(live), attempt, false))
  {
    hide Lower;
    hide IsBlank;
    hide Confirmation;
    hide Resolve;
    hide AreLogins;
    hide Among;
    TrackingAgreesExactly(pullRequest, reviewer, before, live, attempt);
    if Current(given, initial) {
      CurrentAgrees(pullRequest, reviewer, given, before, initial, left, live, attempt);
      AloneResolves(pullRequest, reviewer, live);
    }
    if !pullRequest && Among(reviewer, before) { LeftHides(reviewer, before, initial, left); }
  }

  lemma AloneResolves(pullRequest: bool, reviewer: string, live: seq<string>)
    requires |live| == 1 && Names(reviewer, live[0]) && !IsBlank(reviewer)
    ensures Resolve(pullRequest, Some(reviewer), Some(live)).TrackedReviewerConfirmed?
  {
    assert Among(reviewer, live);
  }

  lemma LeftHides(reviewer: string, before: seq<string>, initial: seq<string>, left: seq<string>)
    requires AreLogins(left) && forall x :: x in left <==> x in initial && (Names(reviewer, x) || !Among(x, before))
    ensures Among(reviewer, left) <==> Among(reviewer, initial)
    ensures Among(reviewer, left) ==> (|left| != 1 <==> Hides(reviewer, before, initial))
  {
    hide Lower;
    if Among(reviewer, left) {
      var y := AmongIn(reviewer, left);
      InAmong(y, initial);
      SameNamesAmong(reviewer, y, initial);
    }
    if Among(reviewer, initial) {
      var y := AmongIn(reviewer, initial);
      InAmong(y, left);
      SameNamesAmong(reviewer, y, left);
    }
    AloneMeans(reviewer, left);
    if |left| == 1 {
      forall x | x in initial && !Names(reviewer, x) ensures Among(x, before) || !Among(reviewer, left) {
        assert x in left ==> x == left[0];
      }
    }
  }

  lemma {:induction false} NothingToRemove(live: seq<string>, login: string)
    requires !Among(login, live)
    ensures Without(live, login) == live
    decreases |live|
  {
    if live != [] {
      var n := |live| - 1;
      assert live == live[..n] + [live[n]];
      NothingToRemove(live[..n], login);
    }
  }

  // ----- The two sides agree -----

  /** When the reviewer is the tracked one and is confirmed, nobody else may give reviewer commands. */
  lemma OnlyReviewerCommands(pullRequest: bool, tracked: Option<string>, live: seq<string>, reviewer: string,
                             actor: string)
    requires tracked.Some? && Names(tracked.value, reviewer) &&
      Resolve(pullRequest, tracked, Some(live)).TrackedReviewerConfirmed?
    ensures MayCommand(pullRequest, tracked, Some(live), actor) <==> Names(actor, reviewer)
    ensures !pullRequest ==>
      |live| == 1 && (MayCommand(pullRequest, tracked, Some(live), actor) <==> Names(actor, live[0]))
  {
  }

  /** If nobody else is live, a reviewer is tracked exactly when the two sides then agree. */
  lemma ConfirmedAgrees(pullRequest: bool, reviewer: string, before: seq<string>, after: seq<string>,
                        attempt: Option<Attempt>)
    requires !IsBlank(reviewer) && AreLogins(after) && forall x :: x in after ==> Names(reviewer, x)
    ensures Tracks(Confirmation(pullRequest, reviewer, before, Some(after), attempt, false)) <==>
            Resolve(pullRequest, Some(reviewer), Some(after)).TrackedReviewerConfirmed?
  {
    if |after| > 1 { TwoDiffer(after, reviewer); }
    if |after| == 1 { assert after[0] in after; }
  }

  /** The request was refused with status 422, which on a pull request keeps the reviewer tracked. */
  predicate Refused(attempt: Option<Attempt>) { attempt.Some? && attempt.value.status == Some(422) }

  /** A reviewer is tracked who does not resolve: on a pull request with other reviewers, after a refused request; on an
      issue with other assignees, when the reviewer was and is one of them. */
  predicate TracksAmiss(pullRequest: bool, reviewer: string, before: seq<string>, after: seq<string>,
                        attempt: Option<Attempt>) {
    if pullRequest then after != [] && !Among(reviewer, after) && Refused(attempt)
    else Among(reviewer, before) && Among(reviewer, after) && |after| != 1
  }

  /** A reviewer resolves who is not tracked: one of several reviewers of a pull request who was not among them before.
      */
  predicate MissesReviewer(pullRequest: bool, reviewer: string, before: seq<string>, after: seq<string>,
                           attempt: Option<Attempt>) {
    pullRequest && Among(reviewer, after) && |after| != 1 && !Among(reviewer, before) && !Refused(attempt)
  }

  /** Whatever was listed before and after, tracking a reviewer and resolving to the reviewer differ in these cases and
      in no others. */
  lemma TrackingAgreesExactly(pullRequest: bool, reviewer: string, before: seq<string>, after: seq<string>,
                              attempt: Option<Attempt>)
    requires !IsBlank(reviewer)
    ensures var tracks := Tracks(Confirmation(pullRequest, reviewer, before, Some(after), attempt, false));
            var resolves := Resolve(pullRequest, Some(reviewer), Some(after)).TrackedReviewerConfirmed?;
            && ((tracks ==> resolves) <==> !TracksAmiss(pullRequest, reviewer, before, after, attempt))
            && ((resolves ==> tracks) <==> !MissesReviewer(pullRequest, reviewer, before, after, attempt))
  {
    if |after| == 1 { assert Among(reviewer, after) <==> Names(reviewer, after[0]); }
  }

  /** A reviewer who was and is one of two assignees of an issue is tracked and does not resolve. */
  lemma SecondAssigneeDisagrees(reviewer: string, other: string)
    requires !IsBlank(reviewer)
    ensures Tracks(Confirmation(false, reviewer, [reviewer, other], Some([reviewer, other]), None, false))
    ensures Resolve(false, Some(reviewer), Some([reviewer, other])).ControlPlaneMismatch?
  {
    var both := [reviewer, other];
    assert Names(reviewer, both[0]);
  }

  /** A reviewer whose request was refused is tracked on a pull request that has another reviewer, and does not resolve.
      */
  lemma RefusedRequestDisagrees(reviewer: string, other: string)
    requires !IsBlank(reviewer) && !Names(reviewer, other)
    ensures var refused := Some(Attempt(false, Some(422)));
            Tracks(Confirmation(true, reviewer, [other], Some([other]), refused, false))
    ensures Resolve(true, Some(reviewer), Some([other])).ControlPlaneMismatch?
  {
    assert !Among(reviewer, [other]);
  }

  /** A reviewer who joined another one on a pull request resolves and is not tracked. */
  lemma JoiningReviewerIsMissed(reviewer: string, other: string)
    requires !IsBlank(reviewer) && !Names(reviewer, other)
    ensures var joined := Some(Attempt(true, Some(201)));
            Confirmation(true, reviewer, [other], Some([reviewer, other]), joined, false).FinalMismatch?
    ensures Resolve(true, Some(reviewer), Some([reviewer, other])).TrackedReviewerConfirmed?
  {
    var both := [reviewer, other];
    assert Names(reviewer, both[0]) && !Among(reviewer, [other]);
  }
}
