/** What the live reviews decide: a write approval is sound, and the order in which the reviews are listed matters only
    when one approval may write and the permission of another cannot be read. */
module ReviewAuthority {
  import opened Strings
  import opened ReviewRecords
  import opened ReviewChannels
  import opened LiveReviews

  /** A review on the current head, in the current cycle, that was not dismissed. */
  predicate Stands(r: Review, e: Entry, head: string, host: Host) {
    && HasSnapshot(r) && r.id != NumberId(0) && Upper(r.state.value) != "DISMISSED"
    && InCycle(r, Boundary(e, host.parse), host.parse) && MatchesHead(Filled(r.commit), head)
  }

  /** ... by the tracked reviewer. */
  predicate IsOwn(r: Review, e: Entry, head: string, host: Host) {
    Stands(r, e, head, host) && SameLogin(Filled(r.login), e.reviewer)
  }

  /** ... that approves. */
  predicate IsApproval(r: Review, e: Entry, head: string, host: Host) {
    Stands(r, e, head, host) && Filled(r.login).Some? && Upper(r.state.value) == "APPROVED"
  }

  predicate LaterByText(a: Review, b: Review) {
    var s, t := TextOf(Filled(a.submittedAt)), TextOf(Filled(b.submittedAt));
    LexLt(t, s) || (s == t && LexLt(IdText(b.id), IdText(a.id)))
  }

  /** The greatest review of the tracked reviewer, by time and id. */
  ghost predicate IsGreatestOwn(r: Review, e: Entry, head: string, reviews: seq<Review>, host: Host) {
    && r in reviews && IsOwn(r, e, head, host)
    && forall q :: q in reviews && IsOwn(q, e, head, host) ==> !LaterByText(q, r)
  }

  ghost predicate HasApproval(e: Entry, head: string, reviews: seq<Review>, host: Host, p: Permission) {
    exists r :: r in reviews && IsApproval(r, e, head, host) && host.permission(r.login.value) == p
  }

  /** An account has one permission, however its name is spelled. */
  ghost predicate PerAccount(host: Host) {
    forall a, b :: Lower(a) == Lower(b) ==> host.permission(a) == host.permission(b)
  }

  ghost predicate DistinctIds(reviews: seq<Review>) {
    forall r, q :: r in reviews && q in reviews && IdText(r.id) == IdText(q.id) ==> r == q
  }

  function VisibleOf(e: Entry, head: string, reviews: seq<Review>, host: Host): seq<Classified> {
    Visible(reviews, head, Boundary(e, host.parse), e.reviewer, host.parse)
  }

  function ClassifiedAs(r: Review, e: Entry, head: string, host: Host): Classified
    requires HasSnapshot(r)
  {
    Classify(r, head, Boundary(e, host.parse), e.reviewer, host.parse)
  }

  /** The visible classifications are those of standing reviews with a known author. */
  lemma VisibleMeaning(e: Entry, head: string, reviews: seq<Review>, host: Host)
    ensures forall c :: c in VisibleOf(e, head, reviews, host) ==>
      exists r :: r in reviews && Stands(r, e, head, host) && Filled(r.login).Some? &&
        c == ClassifiedAs(r, e, head, host)
    ensures forall r ::
      r in reviews && Stands(r, e, head, host) && (Filled(r.login).Some? || IsOwn(r, e, head, host)) ==>
      ClassifiedAs(r, e, head, host) in VisibleOf(e, head, reviews, host)
  {
    hide Visible;
  }

  lemma ReviewOf(e: Entry, head: string, reviews: seq<Review>, host: Host, c: Classified) returns (r: Review)
    requires c in VisibleOf(e, head, reviews, host)
    ensures r in reviews && Stands(r, e, head, host) && Filled(r.login).Some? && HasSnapshot(r)
    ensures c == ClassifiedAs(r, e, head, host) && c.author == r.login
    ensures c.scope.AssignedReviewer? <==> IsOwn(r, e, head, host)
    ensures Approves(c) <==> IsApproval(r, e, head, host)
  {
    hide VisibleOf;
    hide ScopeOf;
    hide InCycle;
    hide MatchesHead;
    VisibleMeaning(e, head, reviews, host);
    r :| r in reviews && Stands(r, e, head, host) && Filled(r.login).Some? && c == ClassifiedAs(r, e, head, host);
    ScopeMeaning(r, e, head, host);
  }

  lemma IsListed(e: Entry, head: string, reviews: seq<Review>, host: Host, r: Review)
    requires r in reviews && Stands(r, e, head, host) && Filled(r.login).Some?
    ensures HasSnapshot(r) && ClassifiedAs(r, e, head, host) in VisibleOf(e, head, reviews, host)
  {
    hide VisibleOf;
    hide ScopeOf;
    hide InCycle;
    hide MatchesHead;
    VisibleMeaning(e, head, reviews, host);
  }

  lemma ScopeMeaning(r: Review, e: Entry, head: string, host: Host)
    requires Stands(r, e, head, host)
    ensures ClassifiedAs(r, e, head, host).scope.AssignedReviewer? <==> IsOwn(r, e, head, host)
    ensures Approves(ClassifiedAs(r, e, head, host)) <==> IsApproval(r, e, head, host)
  {
  }

  lemma {:induction false} ScanMeaning(cs: seq<Classified>, m: map<string, Permission>, author: Option<string>)
    requires m != map[]
    ensures ScanApprovals(cs, m, author) in {AwaitsApproval, NotReadable, WriteApproved}
    ensures ScanApprovals(cs, m, author) == WriteApproved ==>
      exists c :: c in cs && Approves(c) && PermissionOf(c, m).Granted?
    ensures ScanApprovals(cs, m, author) == NotReadable ==>
      exists c :: c in cs && Approves(c) && PermissionOf(c, m).Unavailable?
    ensures ScanApprovals(cs, m, author) == AwaitsApproval <==>
      forall c :: c in cs && Approves(c) ==> PermissionOf(c, m).Denied?
    decreases |cs|
  {
    hide PermissionOf;
    if cs != [] {
      assert cs == [cs[0]] + cs[1..];
      ScanMeaning(cs[1..], m, author);
    }
  }

  /** With one permission per account, the permission of an approval is that of its author. */
  lemma ApprovalPermission(r: Review, e: Entry, head: string, reviews: seq<Review>, host: Host)
    requires r in reviews && IsApproval(r, e, head, host)
    ensures Permissions(VisibleOf(e, head, reviews, host), host) != map[]
    ensures PerAccount(host) ==>
      PermissionOf(ClassifiedAs(r, e, head, host), Permissions(VisibleOf(e, head, reviews, host), host)) ==
      host.permission(r.login.value)
  {
    hide Visible;
    hide ScopeOf;
    VisibleMeaning(e, head, reviews, host);
    ScopeMeaning(r, e, head, host);
    var cs, c := VisibleOf(e, head, reviews, host), ClassifiedAs(r, e, head, host);
    assert c in cs && c.author == r.login;
    assert Lower(r.login.value) in Permissions(cs, host);
  }

  lemma OwnHasLogin(r: Review, e: Entry, head: string, host: Host)
    requires IsOwn(r, e, head, host)
    ensures Filled(r.login).Some?
  {
  }

  /** The classification that decides about completion is that of a greatest review of the tracked reviewer. */
  lemma OwnIsGreatest(e: Entry, head: string, reviews: seq<Review>, host: Host) returns (r: Review)
    requires Assigned(VisibleOf(e, head, reviews, host)).Some?
    ensures IsGreatestOwn(r, e, head, reviews, host) && HasSnapshot(r)
    ensures Assigned(VisibleOf(e, head, reviews, host)).value == ClassifiedAs(r, e, head, host)
  {
    hide Assigned;
    hide VisibleOf;
    hide ScopeOf;
    hide InCycle;
    hide MatchesHead;
    var own := Assigned(VisibleOf(e, head, reviews, host)).value;
    r := ReviewOf(e, head, reviews, host, own);
    forall q | q in reviews && IsOwn(q, e, head, host) ensures !LaterByText(q, r) {
      OwnHasLogin(q, e, head, host);
      IsListed(e, head, reviews, host, q);
      ScopeMeaning(q, e, head, host);
    }
  }

  /** When the live reviews amount to a write approval, the greatest review of the tracked reviewer is an approval, and
      somebody who may push has approved. */
  lemma WriteApprovalIsSound(e: Entry, head: string, reviews: seq<Review>, host: Host)
    requires ApprovalOf(e, head, reviews, host).write.WriteApproved?
    ensures exists r :: IsGreatestOwn(r, e, head, reviews, host) && IsApproval(r, e, head, host)
    ensures HasApproval(e, head, reviews, host, Granted)
  {
    hide Assigned;
    hide Visible;
    hide ScopeOf;
    hide ScanApprovals;
    hide Permissions;
    hide PermissionOf;
    var cs := VisibleOf(e, head, reviews, host);
    var r := OwnIsGreatest(e, head, reviews, host);
    OwnHasLogin(r, e, head, host);
    ScopeMeaning(r, e, head, host);
    ApprovalPermission(r, e, head, reviews, host);
    var m := Permissions(cs, host);
    ScanMeaning(cs, m, ClassifiedAs(r, e, head, host).author);
    var c :| c in cs && Approves(c) && PermissionOf(c, m).Granted?;
    GrantedApproval(e, head, reviews, host, c);
  }

  lemma GrantedApproval(e: Entry, head: string, reviews: seq<Review>, host: Host, c: Classified)
    requires var cs := VisibleOf(e, head, reviews, host);
             c in cs && Approves(c) && PermissionOf(c, Permissions(cs, host)).Granted?
    ensures HasApproval(e, head, reviews, host, Granted)
  {
    hide VisibleOf;
    hide Approves;
    hide IsApproval;
    hide ClassifiedAs;
    hide Permissions;
    var cs := VisibleOf(e, head, reviews, host);
    var k := Lower(TextOf(c.author));
    var d :| d in cs && Approves(d) && d.author.Some? && Lower(d.author.value) == k &&
      Permissions(cs, host)[k] == host.permission(d.author.value);
    var r := ReviewOf(e, head, reviews, host, d);
  }

  // ----- The order of the list -----

  ghost predicate SameReviews(a: seq<Review>, b: seq<Review>) { forall r :: r in a <==> r in b }

  lemma VisibleSame(e: Entry, head: string, a: seq<Review>, b: seq<Review>, host: Host)
    requires SameReviews(a, b)
    ensures forall c :: c in VisibleOf(e, head, a, host) <==> c in VisibleOf(e, head, b, host)
  {
    hide ScopeOf;
    hide HasSnapshot;
  }

  /** Which review decides about completion does not depend on the order. */
  lemma CompletionSame(e: Entry, head: string, a: seq<Review>, b: seq<Review>, host: Host)
    requires SameReviews(a, b) && DistinctIds(a)
    ensures Assigned(VisibleOf(e, head, a, host)) == Assigned(VisibleOf(e, head, b, host))
  {
    hide VisibleOf;
    hide ClassifiedAs;
    hide Stands;
    hide IsOwn;
    hide IsApproval;
    hide AfterByText;
    VisibleSame(e, head, a, b, host);
    var x, y := Assigned(VisibleOf(e, head, a, host)), Assigned(VisibleOf(e, head, b, host));
    if x.Some? && y.Some? {
      AfterByTextOrder(x.value, y.value, y.value);
      IdOfClassified(e, head, a, host, x.value, y.value);
    }
  }

  lemma IdOfClassified(e: Entry, head: string, reviews: seq<Review>, host: Host, c: Classified, d: Classified)
    requires DistinctIds(reviews) && c in VisibleOf(e, head, reviews, host) && d in VisibleOf(e, head, reviews, host)
    requires c.id == d.id
    ensures c == d
  {
    hide VisibleOf;
    hide ScopeOf;
    hide IsOwn;
    hide IsApproval;
    hide InCycle;
    hide MatchesHead;
    var r := ReviewOf(e, head, reviews, host, c);
    var q := ReviewOf(e, head, reviews, host, d);
    assert IdText(r.id) == IdText(q.id);
  }

  /** The tracked reviewer has completed the round with an approval. */
  ghost predicate RoundApproved(e: Entry, head: string, reviews: seq<Review>, host: Host) {
    && Boundary(e, host.parseIso).Some? && !IsBlank(head)
    && var own := Assigned(VisibleOf(e, head, reviews, host));
       own.Some? && TextOf(own.value.submittedAt) != "" && own.value.state == "APPROVED"
  }

  /** What an approved round amounts to depends on the permissions of those who approved. */
  lemma DecisionMeaning(e: Entry, head: string, reviews: seq<Review>, host: Host)
    requires RoundApproved(e, head, reviews, host) && PerAccount(host)
    ensures var w := ApprovalOf(e, head, reviews, host).write;
            && w in {WriteApproved, NotReadable, AwaitsApproval}
            && (w.WriteApproved? ==> HasApproval(e, head, reviews, host, Granted))
            && (w.NotReadable? ==> HasApproval(e, head, reviews, host, Unavailable))
            && (w.AwaitsApproval? <==>
                  !HasApproval(e, head, reviews, host, Granted) && !HasApproval(e, head, reviews, host, Unavailable))
  {
    hide Assigned;
    hide Visible;
    hide ScopeOf;
    hide ScanApprovals;
    hide Permissions;
    hide PermissionOf;
    hide PerAccount;
    hide InCycle;
    hide MatchesHead;
    var cs := VisibleOf(e, head, reviews, host);
    var r := OwnIsGreatest(e, head, reviews, host);
    OwnHasLogin(r, e, head, host);
    ScopeMeaning(r, e, head, host);
    ApprovalPermission(r, e, head, reviews, host);
    ScanMeaning(cs, Permissions(cs, host), ClassifiedAs(r, e, head, host).author);
    ApprovalsAnswer(e, head, reviews, host);
  }

  /** The classified approvals have the permissions of the approvals. */
  lemma ApprovalsAnswer(e: Entry, head: string, reviews: seq<Review>, host: Host)
    requires PerAccount(host)
    ensures forall p :: HasApproval(e, head, reviews, host, p) <==>
      exists c :: c in VisibleOf(e, head, reviews, host) && Approves(c) &&
                  PermissionOf(c, Permissions(VisibleOf(e, head, reviews, host), host)) == p
  {
    hide VisibleOf;
    hide Approves;
    hide ClassifiedAs;
    hide Permissions;
    hide PermissionOf;
    hide PerAccount;
    hide IsOwn;
    var cs := VisibleOf(e, head, reviews, host);
    var m := Permissions(cs, host);
    forall c | c in cs && Approves(c)
      ensures exists r ::
        r in reviews && IsApproval(r, e, head, host) && host.permission(r.login.value) == PermissionOf(c, m)
    {
      var r := ReviewOf(e, head, reviews, host, c);
      ApprovalPermission(r, e, head, reviews, host);
    }
    forall r | r in reviews && IsApproval(r, e, head, host)
      ensures exists c :: c in cs && Approves(c) && PermissionOf(c, m) == host.permission(r.login.value)
    {
      IsListed(e, head, reviews, host, r);
      ScopeMeaning(r, e, head, host);
      ApprovalPermission(r, e, head, reviews, host);
      assert ClassifiedAs(r, e, head, host) in cs;
    }
  }

  /** One approval may write, and the permission of another cannot be read. */
  ghost predicate Contested(e: Entry, head: string, reviews: seq<Review>, host: Host) {
    && RoundApproved(e, head, reviews, host)
    && HasApproval(e, head, reviews, host, Granted) && HasApproval(e, head, reviews, host, Unavailable)
  }

  /** Unless it is contested, the decision does not depend on the order of the reviews. */
  lemma UncontestedSame(e: Entry, head: string, a: seq<Review>, b: seq<Review>, host: Host)
    requires SameReviews(a, b) && DistinctIds(a) && PerAccount(host) && !Contested(e, head, a, host)
    ensures ApprovalOf(e, head, a, host) == ApprovalOf(e, head, b, host)
  {
    hide Assigned;
    hide Visible;
    hide IsApproval;
    hide PerAccount;
    hide ScanApprovals;
    hide Permissions;
    CompletionSame(e, head, a, b, host);
    forall p ensures HasApproval(e, head, a, host, p) <==> HasApproval(e, head, b, host, p) {}
    if RoundApproved(e, head, a, host) {
      DecisionMeaning(e, head, a, host);
      DecisionMeaning(e, head, b, host);
    }
  }

  lemma {:induction false} VisibleFirst(r: Review, rest: seq<Review>, head: string, boundary: Option<nat>,
                                        reviewer: Option<string>, parse: string -> Option<nat>)
    requires HasSnapshot(r) && IsVisible(ScopeOf(r, head, boundary, reviewer, parse))
    ensures Visible([r] + rest, head, boundary, reviewer, parse) ==
            [Classify(r, head, boundary, reviewer, parse)] + Visible(rest, head, boundary, reviewer, parse)
    decreases |rest|
  {
    hide ScopeOf;
    hide HasSnapshot;
    if rest == [] {
      assert ([r] + rest)[..0] == [];
    } else {
      var front := rest[..|rest| - 1];
      assert ([r] + rest)[..|rest|] == [r] + front;
      VisibleFirst(r, front, head, boundary, reviewer, parse);
    }
  }

  lemma ScanFirst(cs: seq<Classified>, m: map<string, Permission>, author: Option<string>)
    requires cs != [] && Approves(cs[0]) && m != map[] && !PermissionOf(cs[0], m).Denied?
    ensures ScanApprovals(cs, m, author) == if PermissionOf(cs[0], m).Granted? then WriteApproved else NotReadable
  {
  }

  lemma FirstVisible(e: Entry, head: string, rest: seq<Review>, host: Host, r: Review)
    requires IsApproval(r, e, head, host)
    ensures VisibleOf(e, head, [r] + rest, host) != []
    ensures VisibleOf(e, head, [r] + rest, host)[0] == ClassifiedAs(r, e, head, host)
    ensures Approves(ClassifiedAs(r, e, head, host))
  {
    hide InCycle;
    hide MatchesHead;
    ScopeMeaning(r, e, head, host);
    VisibleFirst(r, rest, head, Boundary(e, host.parse), e.reviewer, host.parse);
    hide Visible;
    hide ScopeOf;
  }

  lemma ApprovedWrite(e: Entry, head: string, reviews: seq<Review>, host: Host)
    requires RoundApproved(e, head, reviews, host)
    ensures Assigned(VisibleOf(e, head, reviews, host)).Some?
    ensures var cs := VisibleOf(e, head, reviews, host);
            ApprovalOf(e, head, reviews, host).write ==
              ScanApprovals(cs, Permissions(cs, host), Assigned(cs).value.author)
  {
    hide Visible;
    hide Assigned;
    hide Permissions;
    hide ScanApprovals;
  }

  /** The approval that comes first decides. */
  lemma FirstDecides(e: Entry, head: string, rest: seq<Review>, host: Host, r: Review)
    requires RoundApproved(e, head, [r] + rest, host) && PerAccount(host) && IsApproval(r, e, head, host) &&
      r.login.Some?
    requires !host.permission(r.login.value).Denied?
    ensures ApprovalOf(e, head, [r] + rest, host).write ==
            if host.permission(r.login.value).Granted? then WriteApproved else NotReadable
  {
    hide *;
    var reviews := [r] + rest;
    ApprovedWrite(e, head, reviews, host);
    ApprovalPermission(r, e, head, reviews, host);
    FirstVisible(e, head, rest, host, r);
    var cs := VisibleOf(e, head, reviews, host);
    ScanFirst(cs, Permissions(cs, host), Assigned(cs).value.author);
  }

  lemma ToFront(reviews: seq<Review>, r: Review) returns (rest: seq<Review>)
    requires r in reviews
    ensures multiset([r] + rest) == multiset(reviews) && SameReviews([r] + rest, reviews)
  {
    var i :| 0 <= i < |reviews| && reviews[i] == r;
    rest := reviews[..i] + reviews[i + 1..];
    assert reviews == reviews[..i] + [r] + reviews[i + 1..];
    forall x ensures x in [r] + rest <==> x in reviews {
      assert x in [r] + rest <==> x in multiset([r] + rest);
      assert x in reviews <==> x in multiset(reviews);
    }
  }

  lemma SomeApproval(e: Entry, head: string, reviews: seq<Review>, host: Host, p: Permission) returns (r: Review)
    requires HasApproval(e, head, reviews, host, p)
    ensures r in reviews && IsApproval(r, e, head, host) && r.login.Some? && host.permission(r.login.value) == p
  {
    r :| r in reviews && IsApproval(r, e, head, host) && host.permission(r.login.value) == p;
  }

  /** An approved round may be decided by any approval whose permission is not denied. */
  lemma DecidedBy(e: Entry, head: string, reviews: seq<Review>, host: Host, p: Permission) returns (a: seq<Review>)
    requires RoundApproved(e, head, reviews, host) && HasApproval(e, head, reviews, host, p) && !p.Denied?
    requires DistinctIds(reviews) && PerAccount(host)
    ensures multiset(a) == multiset(reviews)
    ensures ApprovalOf(e, head, a, host).write == if p.Granted? then WriteApproved else NotReadable
  {
    hide Assigned;
    hide VisibleOf;
    hide IsApproval;
    hide PerAccount;
    hide ApprovalOf;
    hide DistinctIds;
    hide HasApproval;
    var r := SomeApproval(e, head, reviews, host, p);
    var rest := ToFront(reviews, r);
    a := [r] + rest;
    CompletionSame(e, head, reviews, a, host);
    FirstDecides(e, head, rest, host, r);
  }

  /** A contested decision goes either way. */
  lemma ContestedEitherWay(e: Entry, head: string, reviews: seq<Review>, host: Host)
    returns (a: seq<Review>, b: seq<Review>)
    requires Contested(e, head, reviews, host) && DistinctIds(reviews) && PerAccount(host)
    ensures multiset(a) == multiset(reviews) && multiset(b) == multiset(reviews)
    ensures ApprovalOf(e, head, a, host).write == WriteApproved && ApprovalOf(e, head, b, host).write == NotReadable
  {
    hide RoundApproved;
    hide HasApproval;
    hide DistinctIds;
    hide PerAccount;
    hide ApprovalOf;
    a := DecidedBy(e, head, reviews, host, Granted);
    b := DecidedBy(e, head, reviews, host, Unavailable);
  }

  /** The order of the reviews does not matter if and only if the decision is not contested. */
  lemma OrderMattersExactly(e: Entry, head: string, reviews: seq<Review>, host: Host)
    requires DistinctIds(reviews) && PerAccount(host)
    ensures (forall a, b :: multiset(a) == multiset(reviews) && multiset(b) == multiset(reviews) ==>
               ApprovalOf(e, head, a, host) == ApprovalOf(e, head, b, host)) <==>
            !Contested(e, head, reviews, host)
  {
    hide ApprovalOf;
    hide Contested;
    hide PerAccount;
    hide DistinctIds;
    if Contested(e, head, reviews, host) {
      var a, b := ContestedEitherWay(e, head, reviews, host);
    } else {
      forall a, b | multiset(a) == multiset(reviews) && multiset(b) == multiset(reviews)
        ensures ApprovalOf(e, head, a, host) == ApprovalOf(e, head, b, host)
      {
        SameElements(reviews, a);
        SameElements(reviews, b);
        UncontestedSame(e, head, reviews, a, host);
        UncontestedSame(e, head, reviews, b, host);
      }
    }
  }

  lemma SameElements(a: seq<Review>, b: seq<Review>)
    requires multiset(a) == multiset(b)
    ensures SameReviews(a, b)
  {
    forall x ensures x in a <==> x in b { assert x in a <==> x in multiset(a); assert x in b <==> x in multiset(b); }
  }

  // ----- Inputs that show what may happen -----

  /** A review on the head "h". */
  function ReviewBy(n: nat, login: string, state: string, at: string): Review {
    Review(NumberId(n), Some(login), Some(state), Some(at), Some("h"))
  }

  /** A cycle of the reviewer "r" in which nothing was accepted yet. */
  function NewEntry(): Entry { Entry(Some("r"), Some("s"), None, None, false, None, Cycle(map[], None)) }

  /** The time "s" comes before "b", and "b" before "a". */
  function Time(text: string): Option<nat> { Some(if text == "a" then 2 else if text == "b" then 1 else 0) }

  lemma IsShort(text: string, c: char)
    requires text == [c] && !IsSpace(c)
    ensures !IsBlank(text)
  {
    assert c in text;
  }

  lemma ExampleStands(r: Review, host: Host, n: nat, login: string, state: string, at: string)
    requires r == ReviewBy(n, login, state, at) && r.login == Some(login) && 0 < n < 10 && |state| > 1 &&
      !IsSpace(state[0]) && at in {"a", "b"}
    requires Upper(state) == state != "DISMISSED" && login in {"r", "w"} && host.parse == Time
    ensures Stands(r, NewEntry(), "h", host) && Filled(r.login).Some? && Filled(r.submittedAt).Some?
    ensures IsOwn(r, NewEntry(), "h", host) <==> login == "r"
    ensures IsApproval(r, NewEntry(), "h", host) <==> state == "APPROVED"
  {
    var id := IdText(r.id);
    assert id[0] in id;
    assert state[0] in state;
    IsShort("r", 'r');
    IsShort("w", 'w');
    IsShort("h", 'h');
    IsShort("a", 'a');
    IsShort("b", 'b');
    assert Lower("r")[0] == 'r' && Lower("w")[0] == 'w';
  }

  /** Only "r" may push, and nobody else's permission can be read. */
  function ExampleHost(): Host {
    Host(Time, Time, (login: string) => if Lower(login) == Lower("r") then Granted else Unavailable)
  }

  lemma ExampleIds(r: Review, q: Review)
    requires r.id == NumberId(1) && q.id == NumberId(2)
    ensures DistinctIds([r, q])
  {
    assert Decimal(1)[0] != Decimal(2)[0];
  }

  /** Two approvals, one by somebody who may push and one by somebody whose permission cannot be read: which of them is
      listed first decides. */
  lemma ContestedExample()
    ensures var reviews := [ReviewBy(1, "r", "APPROVED", "a"), ReviewBy(2, "w", "APPROVED", "a")];
            && DistinctIds(reviews) && PerAccount(ExampleHost())
            && Contested(NewEntry(), "h", reviews, ExampleHost())
  {
    var host := ExampleHost();
    var own, other := ReviewBy(1, "r", "APPROVED", "a"), ReviewBy(2, "w", "APPROVED", "a");
    ExampleStands(own, host, 1, "r", "APPROVED", "a");
    ExampleStands(other, host, 2, "w", "APPROVED", "a");
    ExampleIds(own, other);
    ExamplePermissions();
    IsShort("h", 'h');
    hide *;
    ContestedBy(NewEntry(), "h", own, other, host);
  }

  lemma ContestedBy(e: Entry, head: string, own: Review, other: Review, host: Host)
    requires DistinctIds([own, other]) && IsOwn(own, e, head, host) && !IsOwn(other, e, head, host)
    requires IsApproval(own, e, head, host) && own.login.Some? && host.permission(own.login.value).Granted?
    requires IsApproval(other, e, head, host) && other.login.Some? && host.permission(other.login.value).Unavailable?
    requires Boundary(e, host.parseIso).Some? && Filled(own.submittedAt).Some? && !IsBlank(head)
    ensures Contested(e, head, [own, other], host)
  {
    hide Stands;
    hide IsApproval;
    hide IsOwn;
    hide DistinctIds;
    hide RoundApproved;
    hide IsBlank;
    hide Boundary;
    var reviews := [own, other];
    OnlyOneOwn(e, head, own, other, host);
    ApprovedRound(e, head, reviews, host, own);
    assert own in reviews && other in reviews;
  }

  lemma ExamplePermissions()
    ensures PerAccount(ExampleHost())
    ensures ExampleHost().permission("r").Granted? && ExampleHost().permission("w").Unavailable?
    ensures Boundary(NewEntry(), ExampleHost().parseIso).Some?
  {
    assert Lower("r")[0] == 'r' && Lower("w")[0] == 'w';
  }

  lemma OnlyOneOwn(e: Entry, head: string, own: Review, other: Review, host: Host)
    requires IsOwn(own, e, head, host) && !IsOwn(other, e, head, host)
    ensures IsGreatestOwn(own, e, head, [own, other], host)
  {
    hide IsOwn;
    LexTotal(IdText(own.id), IdText(own.id));
  }

  /** An approval that is the greatest review of the tracked reviewer completes the round. */
  lemma ApprovedRound(e: Entry, head: string, reviews: seq<Review>, host: Host, r: Review)
    requires DistinctIds(reviews) && IsGreatestOwn(r, e, head, reviews, host) && IsApproval(r, e, head, host)
    requires Boundary(e, host.parseIso).Some? && Filled(r.submittedAt).Some? && !IsBlank(head)
    ensures RoundApproved(e, head, reviews, host)
  {
    hide VisibleOf;
    hide Assigned;
    hide Stands;
    OwnHasLogin(r, e, head, host);
    IsListed(e, head, reviews, host, r);
    ScopeMeaning(r, e, head, host);
    var q := OwnIsGreatest(e, head, reviews, host);
    GreatestOwnIsOne(e, head, reviews, host, r, q);
  }

  /** The greatest review of the tracked reviewer says when it was submitted, and does or does not approve. */
  ghost predicate Submitted(r: Review, e: Entry, head: string, reviews: seq<Review>, host: Host) {
    IsGreatestOwn(r, e, head, reviews, host) && Filled(r.submittedAt).Some?
  }

  /** A round is complete exactly when the greatest review of the tracked reviewer has a time, and approved exactly when
      that review approves. */
  lemma RoundExactly(e: Entry, head: string, reviews: seq<Review>, host: Host)
    requires DistinctIds(reviews) && Boundary(e, host.parseIso).Some? && !IsBlank(head)
    ensures ApprovalOf(e, head, reviews, host).completed <==> exists r :: Submitted(r, e, head, reviews, host)
    ensures RoundApproved(e, head, reviews, host) <==>
      exists r :: Submitted(r, e, head, reviews, host) && IsApproval(r, e, head, host)
    ensures (exists r :: Submitted(r, e, head, reviews, host) && !IsApproval(r, e, head, host)) ==>
      ApprovalOf(e, head, reviews, host) == Approval(true, true, AwaitsContributor)
    ensures !ApprovalOf(e, head, reviews, host).completed ==>
      ApprovalOf(e, head, reviews, host) == Approval(true, false, AwaitsReviewer)
  {
    IsComputed(e, head, reviews, host);
    SubmittedExactly(e, head, reviews, host);
    RoundMeans(e, head, reviews, host);
    hide *;
  }

  lemma RoundMeans(e: Entry, head: string, reviews: seq<Review>, host: Host)
    requires Boundary(e, host.parseIso).Some? && !IsBlank(head)
    ensures var own := Assigned(VisibleOf(e, head, reviews, host));
            RoundApproved(e, head, reviews, host) <==>
            own.Some? && TextOf(own.value.submittedAt) != "" && own.value.state == "APPROVED"
  {
    hide VisibleOf;
    hide Assigned;
  }

  lemma SubmittedExactly(e: Entry, head: string, reviews: seq<Review>, host: Host)
    requires DistinctIds(reviews)
    ensures var own := Assigned(VisibleOf(e, head, reviews, host));
            && ((exists r :: Submitted(r, e, head, reviews, host)) <==>
                own.Some? && TextOf(own.value.submittedAt) != "")
            && (forall r :: Submitted(r, e, head, reviews, host) ==>
                  own.Some? && (IsApproval(r, e, head, host) <==> own.value.state == "APPROVED"))
  {
    hide DistinctIds;
    var own := Assigned(VisibleOf(e, head, reviews, host));
    if own.Some? {
      var q := OwnIsGreatest(e, head, reviews, host);
      OwnIsClassified(q, e, head, reviews, host);
      hide *;
      assert own.value == ClassifiedAs(q, e, head, host);
      SubmittedIs(q, e, head, reviews, host);
      forall r | Submitted(r, e, head, reviews, host) ensures r == q {
        SubmittedIs(r, e, head, reviews, host);
        GreatestOwnIsOne(e, head, reviews, host, r, q);
      }
    } else {
      hide *;
      forall r ensures !Submitted(r, e, head, reviews, host) {
        if Submitted(r, e, head, reviews, host) { SubmittedIsListed(r, e, head, reviews, host); }
      }
    }
  }

  lemma SubmittedIs(r: Review, e: Entry, head: string, reviews: seq<Review>, host: Host)
    ensures Submitted(r, e, head, reviews, host) <==>
            IsGreatestOwn(r, e, head, reviews, host) && Filled(r.submittedAt).Some?
  {
  }

  lemma OwnIsClassified(r: Review, e: Entry, head: string, reviews: seq<Review>, host: Host)
    requires IsGreatestOwn(r, e, head, reviews, host) && HasSnapshot(r)
    ensures TextOf(ClassifiedAs(r, e, head, host).submittedAt) != "" <==> Filled(r.submittedAt).Some?
    ensures ClassifiedAs(r, e, head, host).state == "APPROVED" <==> IsApproval(r, e, head, host)
  {
    hide InCycle;
    hide MatchesHead;
    OwnHasLogin(r, e, head, host);
    ScopeMeaning(r, e, head, host);
  }

  lemma SubmittedIsListed(r: Review, e: Entry, head: string, reviews: seq<Review>, host: Host)
    requires Submitted(r, e, head, reviews, host)
    ensures Assigned(VisibleOf(e, head, reviews, host)).Some?
  {
    hide VisibleOf;
    hide InCycle;
    hide MatchesHead;
    OwnHasLogin(r, e, head, host);
    IsListed(e, head, reviews, host, r);
    ScopeMeaning(r, e, head, host);
  }

  lemma IsComputed(e: Entry, head: string, reviews: seq<Review>, host: Host)
    requires Boundary(e, host.parseIso).Some? && !IsBlank(head)
    ensures var cs := VisibleOf(e, head, reviews, host);
            ApprovalOf(e, head, reviews, host) ==
            if Assigned(cs).None? || TextOf(Assigned(cs).value.submittedAt) == "" then
              Approval(true, false, AwaitsReviewer)
            else if Assigned(cs).value.state != "APPROVED" then Approval(true, true, AwaitsContributor)
            else
              var w := ScanApprovals(cs, Permissions(cs, host), Assigned(cs).value.author);
              Approval(!w.NotReadable?, true, w)
  {
    hide Visible;
    hide Assigned;
    hide Boundary;
    hide Permissions;
    hide ScanApprovals;
  }

  /** The greatest review of the tracked reviewer is one. */
  lemma GreatestOwnIsOne(e: Entry, head: string, reviews: seq<Review>, host: Host, r: Review, q: Review)
    requires DistinctIds(reviews)
    requires IsGreatestOwn(r, e, head, reviews, host) && IsGreatestOwn(q, e, head, reviews, host)
    ensures r == q
  {
    hide IsOwn;
    LexTotal(TextOf(Filled(r.submittedAt)), TextOf(Filled(q.submittedAt)));
    LexTotal(IdText(r.id), IdText(q.id));
  }
}
