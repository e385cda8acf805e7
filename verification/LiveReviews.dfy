/** The live reviews of a pull request: which of them count in the current cycle
    (scripts/reviewer_bot_core/live_review_support.py and reviewer_review_helpers.py), and what they say about
    completion and write approval (scripts/reviewer_bot_core/approval_policy.py). */
module LiveReviews {
  import opened Strings
  import opened ReviewRecords
  import opened ReviewChannels

  datatype ReviewId = NumberId(n: nat) | TextId(text: string) | NoId

  /** A review as GitHub reports it; None where a field is missing or no text. */
  datatype Review = Review(id: ReviewId, login: Option<string>, state: Option<string>, submittedAt: Option<string>,
                           commit: Option<string>)

  datatype Permission = Granted | Denied | Unavailable

  /** What the bot asks of its surroundings: instants of timestamps, in the two readings it uses, and push permissions.
      */
  datatype Host = Host(parse: string -> Option<nat>, parseIso: string -> Option<nat>, permission: string -> Permission)

  function IdText(id: ReviewId): string {
    match id
    case NumberId(n) => Decimal(n)
    case TextId(text) => text
    case NoId => ""
  }

  function Filled(text: Option<string>): Option<string> {
    if text.Some? && !IsBlank(text.value) then text else None
  }

  function FirstParsed(texts: seq<Option<string>>, parse: string -> Option<nat>): Option<nat> {
    if texts == [] then None
    else if texts[0].Some? && parse(texts[0].value).Some? then parse(texts[0].value)
    else FirstParsed(texts[1..], parse)
  }

  /** `get_current_cycle_boundary`. */
  function Boundary(e: Entry, parse: string -> Option<nat>): Option<nat> {
    FirstParsed([e.activeCycleStartedAt, e.cycleStartedAt, e.assignedAt], parse)
  }

  function Filter(xs: seq<Review>, keep: Review -> bool): (r: seq<Review>)
    ensures forall x :: x in r <==> x in xs && keep(x)
  {
    if xs == [] then []
    else
      var last := xs[|xs| - 1];
      assert xs == xs[..|xs| - 1] + [last];
      Filter(xs[..|xs| - 1], keep) + if keep(last) then [last] else []
  }

  // ----- The preferred review of the tracked reviewer -----

  predicate SameLogin(a: Option<string>, b: Option<string>) { a.Some? && b.Some? && Lower(a.value) == Lower(b.value) }

  predicate IsReviewState(state: Option<string>) {
    state.Some? && Upper(state.value) in {"APPROVED", "COMMENTED", "CHANGES_REQUESTED"}
  }

  predicate IsValidReview(r: Review, reviewer: Option<string>, boundary: nat, parse: string -> Option<nat>) {
    && SameLogin(r.login, reviewer) && IsReviewState(r.state)
    && r.submittedAt.Some? && parse(r.submittedAt.value).Some? && parse(r.submittedAt.value).value >= boundary
    && Filled(r.commit).Some?
  }

  function ValidReviews(e: Entry, reviews: seq<Review>, host: Host): seq<Review> {
    var boundary := Boundary(e, host.parseIso);
    if Filled(e.reviewer).None? || boundary.None? then []
    else Filter(reviews, (r: Review) => IsValidReview(r, e.reviewer, boundary.value, host.parse))
  }

  /** `get_valid_current_reviewer_reviews_for_cycle`. */
  method CollectValidReviews(e: Entry, reviews: seq<Review>, host: Host) returns (valid: seq<Review>)
    ensures valid == ValidReviews(e, reviews, host)
  {
    hide IsValidReview;
    valid := [];
    var boundary := Boundary(e, host.parseIso);
    if Filled(e.reviewer).None? || boundary.None? { return; }
    ghost var keep := (r: Review) => IsValidReview(r, e.reviewer, boundary.value, host.parse);
    for i := 0 to |reviews|
      invariant valid == Filter(reviews[..i], keep)
    {
      assert reviews[..i + 1][..i] == reviews[..i];
      var counts := Counts(reviews[i], e.reviewer.value, boundary.value, host.parse);
      if counts { valid := valid + [reviews[i]]; }
    }
    assert reviews[..|reviews|] == reviews;
  }

  /** The body of that loop. */
  method Counts(r: Review, reviewer: string, boundary: nat, parse: string -> Option<nat>) returns (counts: bool)
    ensures counts <==> IsValidReview(r, Some(reviewer), boundary, parse)
  {
    hide Lower;
    hide Upper;
    hide IsSpace;
    if r.login.None? || Lower(r.login.value) != Lower(reviewer) { return false; }
    if r.state.None? { return false; }
    var state := Upper(r.state.value);
    if state != "APPROVED" && state != "COMMENTED" && state != "CHANGES_REQUESTED" { return false; }
    var submittedAt := if r.submittedAt.Some? then parse(r.submittedAt.value) else None;
    if submittedAt.None? || submittedAt.value < boundary { return false; }
    if r.commit.None? || forall c | c in r.commit.value :: IsSpace(c) { return false; }
    return true;
  }

  /** `_review_matches_head`. */
  predicate MatchesHead(commit: Option<string>, head: string) { commit.Some? && Strip(commit.value) == Strip(head) }

  predicate LaterReview(a: Review, b: Review, parse: string -> Option<nat>) {
    var s, t := Instant(a.submittedAt, parse), Instant(b.submittedAt, parse);
    s > t || (s == t && LexLt(IdText(b.id), IdText(a.id)))
  }

  /** The first review that no other is later than. */
  function LatestReview(rs: seq<Review>, parse: string -> Option<nat>): (r: Review)
    requires rs != []
    ensures r in rs && forall x :: x in rs ==> !LaterReview(x, r, parse)
    decreases |rs|
  {
    var last := rs[|rs| - 1];
    assert rs == rs[..|rs| - 1] + [last];
    LaterTotal(last, last, last, parse);
    if |rs| == 1 then last
    else
      var best := LatestReview(rs[..|rs| - 1], parse);
      if LaterReview(last, best, parse) then
        assert forall x :: x in rs ==> !LaterReview(x, last, parse) by {
          forall x | x in rs ensures !LaterReview(x, last, parse) { LaterTotal(x, last, best, parse); }
        }
        last
      else best
  }

  lemma LaterTotal(x: Review, y: Review, z: Review, parse: string -> Option<nat>)
    ensures !LaterReview(x, x, parse)
    ensures LaterReview(y, z, parse) && !LaterReview(x, z, parse) ==> !LaterReview(x, y, parse)
    ensures !LaterReview(x, y, parse) && !LaterReview(y, x, parse) ==> IdText(x.id) == IdText(y.id)
  {
    LexTotal(IdText(x.id), IdText(y.id));
    LexTotal(IdText(x.id), IdText(z.id));
    LexTotal(IdText(y.id), IdText(z.id));
    if LexLe(IdText(z.id), IdText(y.id)) && LexLe(IdText(y.id), IdText(x.id)) {
      LexTransitive(IdText(z.id), IdText(y.id), IdText(x.id));
    }
  }

  /** `get_preferred_current_reviewer_review_for_cycle`. */
  function Preferred(e: Entry, head: string, reviews: seq<Review>, host: Host): Option<Review> {
    var valid := ValidReviews(e, reviews, host);
    if valid == [] then None
    else if |valid| == 1 then Some(valid[0])
    else
      var onHead := Filter(valid, (r: Review) => MatchesHead(r.commit, head));
      Some(LatestReview(if onHead == [] then valid else onHead, host.parse))
  }

  predicate HasSnapshot(r: Review) {
    !r.id.NoId? && !IsBlank(IdText(r.id)) && Filled(r.state).Some?
  }

  /** `build_reviewer_review_record_from_live_review`. */
  function LiveRecord(r: Review, actor: Option<string>): Option<Record> {
    var author := if Filled(actor).Some? then actor else Filled(r.login);
    if !HasSnapshot(r) || Filled(r.submittedAt).None? || Filled(r.commit).None? || author.None? then None
    else Some(Record("pull_request_review:" + IdText(r.id), r.submittedAt, author, r.commit, 1))
  }

  // ----- Classification -----

  datatype Scope = Malformed | Dismissed | BeforeCycle | StaleHead | AssignedReviewer | AlternateReviewer
    | UnknownAuthor

  datatype Classified = Classified(id: string, state: string, author: Option<string>, submittedAt: Option<string>,
                                   scope: Scope)

  predicate InCycle(r: Review, boundary: Option<nat>, parse: string -> Option<nat>) {
    boundary.None? ||
    (Filled(r.submittedAt).Some? && parse(r.submittedAt.value).Some? &&
     parse(r.submittedAt.value).value >= boundary.value)
  }

  /** `classify_review_freshness` on the snapshot of a review. */
  function ScopeOf(r: Review, head: string, boundary: Option<nat>, reviewer: Option<string>,
                   parse: string -> Option<nat>): Scope {
    if !HasSnapshot(r) || r.id == NumberId(0) then Malformed
    else if Upper(r.state.value) == "DISMISSED" then Dismissed
    else if !InCycle(r, boundary, parse) then BeforeCycle
    else if !MatchesHead(Filled(r.commit), head) then StaleHead
    else if SameLogin(Filled(r.login), reviewer) then AssignedReviewer
    else if Filled(r.login).Some? then AlternateReviewer
    else UnknownAuthor
  }

  /** `build_review_snapshot_record` makes a snapshot of a review that has an id and a state. */
  method Snapshot(r: Review) returns (complete: bool)
    ensures complete <==> HasSnapshot(r)
  {
    hide Decimal;
    if r.id.NoId? { return false; }
    if forall c | c in IdText(r.id) :: IsSpace(c) { return false; }
    return r.state.Some? && exists c | c in r.state.value :: !IsSpace(c);
  }

  /** `classify_review_freshness`, check by check. */
  method Freshness(r: Review, head: string, boundary: Option<nat>, reviewer: Option<string>,
                   parse: string -> Option<nat>)
    returns (scope: Scope)
    requires HasSnapshot(r)
    ensures scope == ScopeOf(r, head, boundary, reviewer, parse)
  {
    hide Lower;
    hide Upper;
    hide Strip;
    hide IsBlank;
    var submittedAt := if Filled(r.submittedAt).Some? then parse(r.submittedAt.value) else None;
    var author := if r.login.Some? && !IsBlank(r.login.value) then r.login else None;
    if r.id == NumberId(0) { return Malformed; }
    if Upper(r.state.value) == "DISMISSED" { return Dismissed; }
    if boundary.Some? && (submittedAt.None? || submittedAt.value < boundary.value) { return BeforeCycle; }
    if r.commit.None? || IsBlank(r.commit.value) || Strip(r.commit.value) != Strip(head) { return StaleHead; }
    if author.Some? && reviewer.Some? && Lower(author.value) == Lower(reviewer.value) { return AssignedReviewer; }
    if author.Some? { return AlternateReviewer; }
    return UnknownAuthor;
  }

  function Classify(r: Review, head: string, boundary: Option<nat>, reviewer: Option<string>,
                    parse: string -> Option<nat>): Classified
    requires HasSnapshot(r)
  {
    Classified(IdText(r.id), Upper(r.state.value), Filled(r.login), Filled(r.submittedAt),
               ScopeOf(r, head, boundary, reviewer, parse))
  }

  predicate IsVisible(s: Scope) { s.AssignedReviewer? || s.AlternateReviewer? }

  /** The classified reviews that are visible on the current head, in the order of the list. */
  function Visible(reviews: seq<Review>, head: string, boundary: Option<nat>, reviewer: Option<string>,
                   parse: string -> Option<nat>): (cs: seq<Classified>)
    ensures forall c :: c in cs <==>
      exists r :: r in reviews && HasSnapshot(r) && IsVisible(ScopeOf(r, head, boundary, reviewer, parse)) &&
                  c == Classify(r, head, boundary, reviewer, parse)
  {
    if reviews == [] then []
    else
      var last := reviews[|reviews| - 1];
      assert reviews == reviews[..|reviews| - 1] + [last];
      Visible(reviews[..|reviews| - 1], head, boundary, reviewer, parse) +
      if HasSnapshot(last) && IsVisible(ScopeOf(last, head, boundary, reviewer, parse))
      then [Classify(last, head, boundary, reviewer, parse)] else []
  }

  /** `build_current_review_context`, and the selection of what is visible on the current head. */
  method CollectVisible(reviews: seq<Review>, head: string, boundary: Option<nat>, reviewer: Option<string>,
                        parse: string -> Option<nat>)
    returns (visible: seq<Classified>)
    ensures visible == Visible(reviews, head, boundary, reviewer, parse)
  {
    hide ScopeOf;
    hide HasSnapshot;
    visible := [];
    for i := 0 to |reviews|
      invariant visible == Visible(reviews[..i], head, boundary, reviewer, parse)
    {
      assert reviews[..i + 1][..i] == reviews[..i];
      var complete := Snapshot(reviews[i]);
      if !complete { continue; }
      var scope := Freshness(reviews[i], head, boundary, reviewer, parse);
      if scope.AssignedReviewer? || scope.AlternateReviewer? {
        visible := visible + [Classify(reviews[i], head, boundary, reviewer, parse)];
      }
    }
    assert reviews[..|reviews|] == reviews;
  }

  // ----- Completion -----

  function TextOf(text: Option<string>): string { if text.Some? then text.value else "" }

  /** The order in which the assigned reviewer's reviews count: the text of the time, then the text of the id. */
  predicate AfterByText(a: Classified, b: Classified) {
    var s, t := TextOf(a.submittedAt), TextOf(b.submittedAt);
    LexLt(t, s) || (s == t && LexLt(b.id, a.id))
  }

  lemma AfterByTextOrder(x: Classified, y: Classified, z: Classified)
    ensures !AfterByText(x, x)
    ensures AfterByText(y, z) && !AfterByText(x, z) ==> !AfterByText(x, y)
    ensures !AfterByText(x, y) && !AfterByText(y, x) ==> x.id == y.id
  {
    var s, t, u := TextOf(x.submittedAt), TextOf(y.submittedAt), TextOf(z.submittedAt);
    LexTotal(s, t);
    LexTotal(s, u);
    LexTotal(t, u);
    LexTotal(x.id, y.id);
    LexTotal(x.id, z.id);
    LexTotal(y.id, z.id);
    if LexLe(u, t) && LexLe(t, s) { LexTransitive(u, t, s); }
    if LexLe(z.id, y.id) && LexLe(y.id, x.id) { LexTransitive(z.id, y.id, x.id); }
  }

  /** The first of the assigned reviewer's visible reviews that no other comes after. */
  function Assigned(cs: seq<Classified>): (c: Option<Classified>)
    ensures c.None? <==> forall x :: x in cs ==> !x.scope.AssignedReviewer?
    ensures c.Some? ==> c.value in cs && c.value.scope.AssignedReviewer? &&
                        forall x :: x in cs && x.scope.AssignedReviewer? ==> !AfterByText(x, c.value)
  {
    if cs == [] then None
    else
      var last := cs[|cs| - 1];
      assert cs == cs[..|cs| - 1] + [last];
      var best := Assigned(cs[..|cs| - 1]);
      AfterByTextOrder(last, last, last);
      if !last.scope.AssignedReviewer? then best
      else if best.None? then Some(last)
      else if AfterByText(last, best.value) then
        assert forall x :: x in cs && x.scope.AssignedReviewer? ==> !AfterByText(x, last) by {
          forall x | x in cs && x.scope.AssignedReviewer? ensures !AfterByText(x, last) {
            AfterByTextOrder(x, last, best.value);
          }
        }
        Some(last)
      else best
  }

  // ----- Write approval -----

  predicate Approves(c: Classified) { c.state == "APPROVED" && IsVisible(c.scope) }

  /** The permissions that are asked for: one for each account that approved, by its name in lower case. */
  function Permissions(cs: seq<Classified>, host: Host): (m: map<string, Permission>)
    ensures forall k :: k in m ==>
      exists c :: c in cs && Approves(c) && c.author.Some? && Lower(c.author.value) == k &&
        m[k] == host.permission(c.author.value)
    ensures forall c :: c in cs && Approves(c) && c.author.Some? ==> Lower(c.author.value) in m
  {
    if cs == [] then map[]
    else
      var last := cs[|cs| - 1];
      assert cs == cs[..|cs| - 1] + [last];
      var m := Permissions(cs[..|cs| - 1], host);
      if Approves(last) && last.author.Some? then m[Lower(last.author.value) := host.permission(last.author.value)]
      else m
  }

  method AskPermissions(cs: seq<Classified>, host: Host) returns (m: map<string, Permission>)
    requires forall c :: c in cs ==> IsVisible(c.scope)
    ensures m == Permissions(cs, host)
  {
    m := map[];
    for i := 0 to |cs|
      invariant m == Permissions(cs[..i], host)
    {
      assert cs[..i + 1][..i] == cs[..i];
      if cs[i].state != "APPROVED" || cs[i].author.None? { continue; }
      m := m[Lower(cs[i].author.value) := host.permission(cs[i].author.value)];
    }
    assert cs[..|cs|] == cs;
  }

  function PermissionOf(c: Classified, m: map<string, Permission>): Permission {
    var k := Lower(TextOf(c.author));
    if k in m then m[k] else Unavailable
  }

  datatype WriteState =
    | AwaitsReviewer      // no completed round
    | AwaitsContributor   // the round was completed without an approval
    | NotReadable         // a permission could not be read
    | WriteApproved
    | AwaitsApproval

  /** The scan over the visible reviews: the first approval whose permission is not denied decides. */
  function ScanApprovals(cs: seq<Classified>, m: map<string, Permission>, author: Option<string>): WriteState
    decreases |cs|
  {
    if cs == [] then AwaitsApproval
    else if !Approves(cs[0]) then ScanApprovals(cs[1..], m, author)
    else
      var permission := PermissionOf(cs[0], m);
      if permission.Unavailable? && m != map[] then NotReadable
      else if permission.Granted? || (cs[0].author == author && m == map[]) then WriteApproved
      else ScanApprovals(cs[1..], m, author)
  }

  /** `derive_write_approval_authority_decision` for a completed round. */
  function WriteDecision(own: Classified, cs: seq<Classified>, m: map<string, Permission>): WriteState {
    if own.state != "APPROVED" then AwaitsContributor else ScanApprovals(cs, m, own.author)
  }

  method DecideWriteApproval(own: Classified, cs: seq<Classified>, m: map<string, Permission>) returns (w: WriteState)
    ensures w == WriteDecision(own, cs, m)
  {
    if own.state != "APPROVED" { return AwaitsContributor; }
    for i := 0 to |cs|
      invariant ScanApprovals(cs, m, own.author) == ScanApprovals(cs[i..], m, own.author)
    {
      assert cs[i..][0] == cs[i] && cs[i..][1..] == cs[i + 1..];
      if !Approves(cs[i]) { continue; }
      var permission := PermissionOf(cs[i], m);
      if permission.Unavailable? && m != map[] { return NotReadable; }
      if permission.Granted? || (cs[i].author == own.author && m == map[]) { return WriteApproved; }
    }
    assert cs[|cs|..] == [];
    return AwaitsApproval;
  }

  /** What the live reviews say: whether they could be read, whether the round is complete, and the write approval. */
  datatype Approval = Approval(ok: bool, completed: bool, write: WriteState)

  /** `compute_pr_approval_state_result` once pull request and reviews have been read. */
  function ApprovalOf(e: Entry, head: string, reviews: seq<Review>, host: Host): Approval {
    if Boundary(e, host.parseIso).None? || IsBlank(head) then Approval(false, false, AwaitsReviewer)
    else
      var cs := Visible(reviews, head, Boundary(e, host.parse), e.reviewer, host.parse);
      var own := Assigned(cs);
      if own.None? || TextOf(own.value.submittedAt) == "" then Approval(true, false, AwaitsReviewer)
      else
        var w := WriteDecision(own.value, cs, Permissions(cs, host));
        Approval(!w.NotReadable?, true, w)
  }

  method ComputeApproval(e: Entry, head: string, reviews: seq<Review>, host: Host) returns (a: Approval)
    ensures a == ApprovalOf(e, head, reviews, host)
  {
    hide Visible;
    if Boundary(e, host.parseIso).None? || IsBlank(head) { return Approval(false, false, AwaitsReviewer); }
    var cs := CollectVisible(reviews, head, Boundary(e, host.parse), e.reviewer, host.parse);
    var own := Assigned(cs);
    if own.None? || TextOf(own.value.submittedAt) == "" { return Approval(true, false, AwaitsReviewer); }
    var m := AskPermissions(cs, host);
    var w := DecideWriteApproval(own.value, cs, m);
    return Approval(!w.NotReadable?, true, w);
  }
}
