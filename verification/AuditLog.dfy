/** The comments of an issue as a log, and how a state is recovered from it and checked against it
    (scripts/fls_audit_issue_lib/reconcile.py, lines 118-237). */
module AuditLog {
  import opened Strings
  import opened Json
  import opened AuditState

  datatype Comment = Comment(body: string, bot: bool)

  // ----- The markers of an issue's comments -----

  function MarkersOf(comments: seq<Comment>, limits: Limits): (r: Result<seq<Marker>>)
    ensures r.Ok? ==> forall m :: m in r.value ==> ValidMarker(m)
  {
    if comments == [] then Ok([])
    else
      var last := comments[|comments| - 1];
      var ms :- MarkersOf(comments[..|comments| - 1], limits);
      if !last.bot then Ok(ms)
      else
        var m :- ParseMarker(last.body, limits);
        Ok(if m.Some? then ms + [m.value] else ms)
  }

  predicate HasDuplicates(ms: seq<Marker>) {
    exists i, j | 0 <= i < j < |ms| :: ms[i].batchId == ms[j].batchId
  }

  function CommentMarkersOf(comments: seq<Comment>, limits: Limits): (r: Result<seq<Marker>>)
    ensures r.Ok? ==> forall m :: m in r.value ==> ValidMarker(m)
  {
    var ms :- MarkersOf(comments, limits);
    if HasDuplicates(ms) then Err(Conflict) else Ok(ms)
  }

  method ParseMarkers(comments: seq<Comment>, limits: Limits) returns (r: Result<seq<Marker>>)
    ensures r == MarkersOf(comments, limits)
  {
    var markers: seq<Marker> := [];
    for i := 0 to |comments|
      invariant MarkersOf(comments[..i], limits) == Ok(markers)
    {
      assert comments[..i + 1][..i] == comments[..i];
      if comments[i].bot {
        var parsed := ParseMarker(comments[i].body, limits);
        if parsed.Err? {
          RaisesEarly(comments, i + 1, limits);
          return Err(parsed.error);
        }
        if parsed.value.Some? { markers := markers + [parsed.value.value]; }
      }
    }
    assert comments[..|comments|] == comments;
    return Ok(markers);
  }

  lemma DuplicatesGrow(ms: seq<Marker>, i: nat)
    requires i < |ms|
    ensures HasDuplicates(ms[..i + 1]) <==>
      HasDuplicates(ms[..i]) || exists k :: 0 <= k < i && ms[k].batchId == ms[i].batchId
  {
    var front, next := ms[..i], ms[..i + 1];
    if HasDuplicates(front) {
      var a, b :| 0 <= a < b < |front| && front[a].batchId == front[b].batchId;
      assert next[a].batchId == next[b].batchId;
    }
    if k :| 0 <= k < i && ms[k].batchId == ms[i].batchId {
      assert next[k].batchId == next[i].batchId;
    }
    if HasDuplicates(next) {
      var a, b :| 0 <= a < b < |next| && next[a].batchId == next[b].batchId;
      if b < i { assert front[a].batchId == front[b].batchId; } else { assert ms[a].batchId == ms[i].batchId; }
    }
  }

  /** The loop over the markers that collects repeated batch ids. */
  method RepeatedIds(markers: seq<Marker>) returns (duplicates: set<string>)
    ensures duplicates == {} <==> !HasDuplicates(markers)
  {
    var seen: set<string> := {};
    duplicates := {};
    for i := 0 to |markers|
      invariant forall v :: v in seen <==> exists k :: 0 <= k < i && markers[k].batchId == v
      invariant duplicates == {} <==> !HasDuplicates(markers[..i])
    {
      DuplicatesGrow(markers, i);
      if markers[i].batchId in seen { duplicates := duplicates + {markers[i].batchId}; }
      seen := seen + {markers[i].batchId};
    }
    assert markers[..|markers|] == markers;
  }

  /** `comment_markers`: the bot's markers, unless one batch was posted twice. */
  method CommentMarkers(comments: seq<Comment>, limits: Limits) returns (r: Result<seq<Marker>>)
    ensures r == CommentMarkersOf(comments, limits)
  {
    r := ParseMarkers(comments, limits);
    if r.Err? { return; }
    var duplicates := RepeatedIds(r.value);
    if duplicates != {} { r := Err(Conflict); }
  }

  lemma {:induction false} RaisesEarly(comments: seq<Comment>, n: nat, limits: Limits)
    requires n <= |comments| && MarkersOf(comments[..n], limits).Err?
    ensures MarkersOf(comments, limits) == MarkersOf(comments[..n], limits)
    decreases |comments|
  {
    if n < |comments| {
      var front := comments[..|comments| - 1];
      assert front[..n] == comments[..n];
      RaisesEarly(front, n, limits);
    } else {
      assert comments[..n] == comments;
    }
  }

  // ----- The log -----

  predicate IsTransition(m: Marker, campaign: string) { m.campaign == campaign && m.transition.Some? }

  function Semantic(m: Marker): string
    requires m.transition.Some?
  {
    m.transition.value.applied.semanticDigest
  }

  /** The semantic digest after the first `k` transitions of a log. */
  function DigestAt(origin: string, log: seq<Applied>, k: nat): string
    requires k <= |log|
  {
    if k == 0 then origin else log[k - 1].semanticDigest
  }

  function TransitionMarker(campaign: string, sequence: nat, previous: string, applied: Applied): Marker {
    Marker(BatchId(campaign, sequence, previous, applied.semanticDigest), campaign, sequence,
           Some(Transition(previous, applied)))
  }

  /** The marker of the `k`-th transition, linked to the one before it. */
  function LogMarker(campaign: string, origin: string, log: seq<Applied>, k: nat): Marker
    requires 1 <= k <= |log|
  {
    TransitionMarker(campaign, k, DigestAt(origin, log, k - 1), log[k - 1])
  }

  /** The markers hold the transitions 1, 2, ... of the campaign, once each, and no other transition of it. */
  ghost predicate LogOf(campaign: string, origin: string, ms: seq<Marker>, log: seq<Applied>) {
    && (forall k :: 1 <= k <= |log| ==> LogMarker(campaign, origin, log, k) in ms)
    && (forall m :: m in ms && IsTransition(m, campaign) ==>
          1 <= m.sequence <= |log| && m == LogMarker(campaign, origin, log, m.sequence))
  }

  lemma {:induction false} LogUnique(campaign: string, origin: string, ms: seq<Marker>, a: seq<Applied>,
                                     b: seq<Applied>)
    requires LogOf(campaign, origin, ms, a) && LogOf(campaign, origin, ms, b)
    ensures a == b
  {
    if |a| > 0 { assert LogMarker(campaign, origin, a, |a|).sequence == |a|; }
    if |b| > 0 { assert LogMarker(campaign, origin, b, |b|).sequence == |b|; }
    forall i | 0 <= i < |a| ensures a[i] == b[i] {
      var m := LogMarker(campaign, origin, a, i + 1);
      assert m in ms && m == LogMarker(campaign, origin, b, i + 1);
    }
  }

  // ----- recover_from_comments -----

  /** The digest that the `i`-th transition after a state has to name as its predecessor. */
  function RunDigest(s: State, run: seq<Applied>, i: nat): string
    requires i <= |run|
  {
    if i == 0 then s.applied.semanticDigest else run[i - 1].semanticDigest
  }

  function RunMarker(s: State, run: seq<Applied>, i: nat): Marker
    requires i < |run|
  {
    TransitionMarker(s.campaign, s.sequence + i + 1, RunDigest(s, run, i), run[i])
  }

  ghost predicate OnePerSequence(s: State, ms: seq<Marker>) {
    forall a, b | a in ms && b in ms && IsTransition(a, s.campaign) && IsTransition(b, s.campaign) ::
      a.sequence == b.sequence ==> a == b
  }

  ghost predicate AgreesWithState(s: State, ms: seq<Marker>) {
    forall a :: a in ms && IsTransition(a, s.campaign) && a.sequence == s.sequence ==>
      Semantic(a) == s.applied.semanticDigest
  }

  /** Every transition of `run` was posted, each linked to the one before it. */
  ghost predicate Posted(s: State, ms: seq<Marker>, run: seq<Applied>) {
    forall i :: 0 <= i < |run| ==> RunMarker(s, run, i) in ms
  }

  /** `run` is the part of the log beyond the state. */
  ghost predicate ReplayOf(s: State, ms: seq<Marker>, run: seq<Applied>) {
    && OnePerSequence(s, ms) && AgreesWithState(s, ms) && Posted(s, ms, run)
    && forall a :: a in ms && IsTransition(a, s.campaign) ==> a.sequence <= s.sequence + |run|
  }

  /** The state after a replay. */
  function Recovered(s: State, run: seq<Applied>): State {
    if run == [] then s else State(s.campaign, s.sequence + |run|, s.origin, run[|run| - 1])
  }

  lemma {:induction false} PostedPrefix(s: State, ms: seq<Marker>, a: seq<Applied>, b: seq<Applied>)
    requires OnePerSequence(s, ms) && Posted(s, ms, a) && Posted(s, ms, b) && |a| <= |b|
    ensures a <= b
  {
    forall i | 0 <= i < |a| ensures a[i] == b[i] {
      var x, y := RunMarker(s, a, i), RunMarker(s, b, i);
      assert x in ms && y in ms && x.sequence == y.sequence;
    }
  }

  lemma ReplayUnique(s: State, ms: seq<Marker>, a: seq<Applied>, b: seq<Applied>)
    requires ReplayOf(s, ms, a) && ReplayOf(s, ms, b)
    ensures a == b
  {
    if |a| > 0 { assert RunMarker(s, a, |a| - 1) in ms; }
    if |b| > 0 { assert RunMarker(s, b, |b| - 1) in ms; }
    PostedPrefix(s, ms, a, b);
  }

  /** On a state that lags behind its log, recovery is the replay of the log. */
  lemma LogReplays(s: State, ms: seq<Marker>, log: seq<Applied>)
    requires LogOf(s.campaign, s.origin, ms, log)
    requires s.sequence <= |log| && s.applied.semanticDigest == DigestAt(s.origin, log, s.sequence)
    ensures ReplayOf(s, ms, log[s.sequence..])
  {
    var run := log[s.sequence..];
    forall i | 0 <= i < |run| ensures RunMarker(s, run, i) in ms {
      assert RunMarker(s, run, i) == LogMarker(s.campaign, s.origin, log, s.sequence + i + 1);
    }
  }

  predicate IsLeastNat(k: nat, keys: set<nat>) { k in keys && forall x | x in keys :: k <= x }

  lemma {:induction false} LeastNatExists(keys: set<nat>, x: nat)
    requires x in keys
    ensures exists k :: IsLeastNat(k, keys)
    decreases x
  {
    if y :| y in keys && y < x {
      LeastNatExists(keys, y);
    } else {
      assert IsLeastNat(x, keys);
    }
  }

  function LeastNat(keys: set<nat>): (k: nat)
    requires keys != {}
    ensures IsLeastNat(k, keys)
  {
    assert exists k :: IsLeastNat(k, keys) by {
      var x :| x in keys;
      LeastNatExists(keys, x);
    }
    var k :| k in keys && IsLeastNat(k, keys);
    k
  }

  /** The keys of a dictionary in the order of `sorted`. */
  function SortedNats(keys: set<nat>): (r: seq<nat>)
    ensures forall k :: k in r <==> k in keys
    ensures forall i, j :: 0 <= i < j < |r| ==> r[i] < r[j]
  {
    if keys == {} then []
    else
      var k := LeastNat(keys);
      var rest := SortedNats(keys - {k});
      assert forall j :: 0 <= j < |rest| ==> rest[j] in rest && k < rest[j];
      [k] + rest
  }

  /** The dictionary of transitions by sequence. */
  ghost predicate Grouped(table: map<nat, Marker>, campaign: string, ms: seq<Marker>) {
    && (forall k :: k in table ==> table[k] in ms && IsTransition(table[k], campaign) && table[k].sequence == k)
    && (forall m :: m in ms && IsTransition(m, campaign) ==> m.sequence in table && table[m.sequence] == m)
  }

  method GroupBySequence(s: State, ms: seq<Marker>) returns (r: Result<map<nat, Marker>>)
    ensures r.Ok? <==> OnePerSequence(s, ms)
    ensures r.Ok? ==> Grouped(r.value, s.campaign, ms)
  {
    var table: map<nat, Marker> := map[];
    for i := 0 to |ms|
      invariant Grouped(table, s.campaign, ms[..i])
    {
      var m := ms[i];
      assert forall x :: x in ms[..i + 1] <==> x in ms[..i] || x == m;
      if IsTransition(m, s.campaign) {
        if m.sequence in table && table[m.sequence] != m {
          assert table[m.sequence] in ms && m in ms;
          return Err(Conflict);
        }
        table := table[m.sequence := m];
      }
    }
    assert ms[..|ms|] == ms;
    return Ok(table);
  }

  /** The marker continues the chain after `previous`. */
  predicate Links(m: Marker, campaign: string, previous: string)
    requires m.transition.Some?
  {
    m.transition.value.previous == previous && m.batchId == BatchId(campaign, m.sequence, previous, Semantic(m))
  }

  /** The loop variables of the replay after the transitions of `run`. */
  ghost predicate Replaying(s: State, ms: seq<Marker>, run: seq<Applied>, previous: Applied, expected: nat,
                            recovered: bool) {
    && Posted(s, ms, run) && expected == s.sequence + 1 + |run| && (recovered <==> run != [])
    && previous == (if run == [] then s.applied else run[|run| - 1])
    && ValidApplied(previous)
  }

  lemma ReplayStep(s: State, ms: seq<Marker>, run: seq<Applied>, previous: Applied, expected: nat, recovered: bool,
                   m: Marker)
    requires Replaying(s, ms, run, previous, expected, recovered)
    requires m in ms && IsTransition(m, s.campaign) && m.sequence == expected && ValidMarker(m)
    requires Links(m, s.campaign, previous.semanticDigest)
    ensures var applied := m.transition.value.applied; Replaying(s, ms, run + [applied], applied, expected + 1, true)
  {
    hide BatchId;
    hide ValidApplied;
    var longer := run + [m.transition.value.applied];
    assert RunMarker(s, longer, |run|) == m;
    assert forall j :: 0 <= j < |run| ==> RunMarker(s, longer, j) == RunMarker(s, run, j);
  }

  /** In a replay, everything up to its highest transition is there. */
  lemma ReplayHas(s: State, ms: seq<Marker>, table: map<nat, Marker>, other: seq<Applied>, low: nat, high: nat)
    requires Grouped(table, s.campaign, ms) && ReplayOf(s, ms, other)
    requires high in table && s.sequence < low <= high
    ensures low in table
  {
    assert table[high] in ms;
    assert RunMarker(s, other, low - s.sequence - 1) in ms;
  }

  /** In a replay, every transition links to the one before it. */
  lemma ReplayLinks(s: State, ms: seq<Marker>, m: Marker, run: seq<Applied>, other: seq<Applied>)
    requires Posted(s, ms, run) && ReplayOf(s, ms, other)
    requires m in ms && IsTransition(m, s.campaign) && m.sequence == s.sequence + 1 + |run|
    ensures Links(m, s.campaign, RunDigest(s, run, |run|))
  {
    PostedPrefix(s, ms, run, other);
    assert RunDigest(s, other, |run|) == RunDigest(s, run, |run|);
    assert RunMarker(s, other, |run|) in ms;
  }

  lemma ReplayDone(s: State, ms: seq<Marker>, table: map<nat, Marker>, run: seq<Applied>)
    requires OnePerSequence(s, ms) && AgreesWithState(s, ms) && Grouped(table, s.campaign, ms) && Posted(s, ms, run)
    requires forall k :: k in table ==> k <= s.sequence + |run|
    ensures ReplayOf(s, ms, run) && forall other | ReplayOf(s, ms, other) :: other == run
  {
    forall other | ReplayOf(s, ms, other) ensures other == run { ReplayUnique(s, ms, run, other); }
  }

  lemma GapRefuses(s: State, ms: seq<Marker>, table: map<nat, Marker>, expected: nat, sequence: nat)
    requires Grouped(table, s.campaign, ms)
    requires s.sequence < expected < sequence && expected !in table && sequence in table
    ensures forall other :: !ReplayOf(s, ms, other)
  {
    forall other ensures !ReplayOf(s, ms, other) {
      if ReplayOf(s, ms, other) { ReplayHas(s, ms, table, other, expected, sequence); assert false; }
    }
  }

  lemma BreakRefuses(s: State, ms: seq<Marker>, m: Marker, run: seq<Applied>)
    requires Posted(s, ms, run)
    requires m in ms && IsTransition(m, s.campaign) && m.sequence == s.sequence + 1 + |run|
    requires !Links(m, s.campaign, RunDigest(s, run, |run|))
    ensures forall other :: !ReplayOf(s, ms, other)
  {
    forall other ensures !ReplayOf(s, ms, other) {
      if ReplayOf(s, ms, other) { ReplayLinks(s, ms, m, run, other); assert false; }
    }
  }

  /** The loop over the transitions in the order of their sequences. */
  method Replay(s: State, ghost ms: seq<Marker>, table: map<nat, Marker>) returns (r: Result<(State, bool)>)
    requires ValidState(s) && OnePerSequence(s, ms) && AgreesWithState(s, ms) && Grouped(table, s.campaign, ms)
    requires forall m :: m in ms ==> ValidMarker(m)
    ensures r.Ok? <==> exists run :: ReplayOf(s, ms, run)
    ensures r.Ok? ==> forall run | ReplayOf(s, ms, run) :: r.value == (Recovered(s, run), run != [])
  {
    hide ReplayOf;
    hide OnePerSequence;
    hide AgreesWithState;
    hide Links;
    hide BatchId;
    hide ValidApplied;
    var previous, expected: nat, recovered := s.applied, s.sequence + 1, false;
    var keys := SortedNats(table.Keys);
    ghost var run: seq<Applied> := [];
    for i := 0 to |keys|
      invariant Replaying(s, ms, run, previous, expected, recovered)
      invariant forall j :: 0 <= j < i ==> keys[j] < expected
    {
      var sequence := keys[i];
      assert sequence in table;
      if sequence < expected {
        continue;
      }
      if sequence != expected {
        MissingKey(keys, i, expected);
        GapRefuses(s, ms, table, expected, sequence);
        return Err(Conflict);
      }
      var marker := table[sequence];
      if !Links(marker, s.campaign, previous.semanticDigest) {
        BreakRefuses(s, ms, marker, run);
        return Err(Conflict);
      }
      ReplayStep(s, ms, run, previous, expected, recovered, marker);
      previous := marker.transition.value.applied;
      run := run + [previous];
      expected := expected + 1;
      recovered := true;
    }
    assert forall k :: k in table ==> k in keys;
    ReplayDone(s, ms, table, run);
    if recovered {
      var state := MakeState(s.campaign, expected - 1, previous, s.origin);
      return Ok((state.value, true));
    }
    return Ok((s, false));
  }

  /** What lies between two neighbours of a sorted list is not in it. */
  lemma MissingKey(keys: seq<nat>, i: nat, k: nat)
    requires i < |keys| && k < keys[i]
    requires forall x, y :: 0 <= x < y < |keys| ==> keys[x] < keys[y]
    requires forall j :: 0 <= j < i ==> keys[j] < k
    ensures k !in keys
  {
  }

  /** `recover_from_comments`: it succeeds exactly when some replay explains the comments, and then returns it. */
  method RecoverFromComments(s: State, comments: seq<Comment>, limits: Limits) returns (r: Result<(State, bool)>)
    requires ValidState(s)
    ensures CommentMarkersOf(comments, limits).Err? ==> r == Err(CommentMarkersOf(comments, limits).error)
    ensures CommentMarkersOf(comments, limits).Ok? ==>
      var ms := CommentMarkersOf(comments, limits).value;
      && (r.Ok? <==> exists run :: ReplayOf(s, ms, run))
      && (r.Ok? ==> forall run | ReplayOf(s, ms, run) :: r.value == (Recovered(s, run), run != []))
  {
    var markers := CommentMarkers(comments, limits);
    if markers.Err? { return Err(markers.error); }
    var grouped := GroupBySequence(s, markers.value);
    if grouped.Err? { return Err(Conflict); }
    var table := grouped.value;
    if s.sequence in table && Semantic(table[s.sequence]) != s.applied.semanticDigest {
      assert !AgreesWithState(s, markers.value);
      return Err(Conflict);
    }
    r := Replay(s, markers.value, table);
  }

  // ----- verify_comment_history -----

  /** The log is exactly as long as the state says and ends in its semantic digest. */
  ghost predicate HistoryMatches(s: State, ms: seq<Marker>, log: seq<Applied>) {
    && LogOf(s.campaign, s.origin, ms, log) && |log| == s.sequence
    && (log != [] ==> log[|log| - 1].semanticDigest == s.applied.semanticDigest)
  }

  method VerifyCommentHistory(s: State, comments: seq<Comment>, limits: Limits) returns (r: Result<()>)
    requires ValidState(s)
    ensures r.Ok? <==> CommentMarkersOf(comments, limits).Ok? &&
                       exists log :: HistoryMatches(s, CommentMarkersOf(comments, limits).value, log)
  {
    var markers := CommentMarkers(comments, limits);
    if markers.Err? { return Err(markers.error); }
    var ms := markers.value;
    var grouped := GroupStrictly(s, ms);
    if grouped.Err? {
      forall log ensures !HistoryMatches(s, ms, log) { StrictlyOne(s, ms, log); }
      return Err(Conflict);
    }
    r := VerifyChain(s, ms, grouped.value);
  }

  ghost predicate RepeatsSequence(s: State, ms: seq<Marker>) {
    exists i, j :: 0 <= i < j < |ms| && SameSequence(s, ms[i], ms[j])
  }

  ghost predicate SameSequence(s: State, a: Marker, b: Marker) {
    IsTransition(a, s.campaign) && IsTransition(b, s.campaign) && a.sequence == b.sequence
  }

  lemma RepeatsGrow(s: State, ms: seq<Marker>, i: nat)
    requires i < |ms|
    ensures RepeatsSequence(s, ms[..i + 1]) <==>
      RepeatsSequence(s, ms[..i]) || exists k :: 0 <= k < i && SameSequence(s, ms[k], ms[i])
  {
    var front, next := ms[..i], ms[..i + 1];
    if RepeatsSequence(s, front) {
      var a, b :| 0 <= a < b < |front| && SameSequence(s, front[a], front[b]);
      assert SameSequence(s, next[a], next[b]);
    }
    if k :| 0 <= k < i && SameSequence(s, ms[k], ms[i]) {
      assert SameSequence(s, next[k], next[i]);
    }
    if RepeatsSequence(s, next) {
      var a, b :| 0 <= a < b < |next| && SameSequence(s, next[a], next[b]);
      if b < i { assert SameSequence(s, front[a], front[b]); } else { assert SameSequence(s, ms[a], ms[i]); }
    }
  }

  lemma RepeatsEarly(s: State, ms: seq<Marker>, i: nat)
    requires i <= |ms| && RepeatsSequence(s, ms[..i])
    ensures RepeatsSequence(s, ms)
  {
    var a, b :| 0 <= a < b < i && SameSequence(s, ms[..i][a], ms[..i][b]);
    assert SameSequence(s, ms[a], ms[b]);
  }

  /** The loop that refuses a second transition at one sequence. */
  method GroupStrictly(s: State, ms: seq<Marker>) returns (r: Result<map<nat, Marker>>)
    ensures r.Ok? <==> !RepeatsSequence(s, ms)
    ensures r.Ok? ==> Grouped(r.value, s.campaign, ms)
  {
    var table: map<nat, Marker> := map[];
    for i := 0 to |ms|
      invariant Grouped(table, s.campaign, ms[..i])
      invariant !RepeatsSequence(s, ms[..i])
    {
      var m := ms[i];
      assert forall x :: x in ms[..i + 1] <==> x in ms[..i] || x == m;
      RepeatsGrow(s, ms, i);
      if IsTransition(m, s.campaign) {
        if m.sequence in table {
          assert table[m.sequence] in ms[..i];
          var k :| 0 <= k < i && ms[k] == table[m.sequence];
          assert SameSequence(s, ms[k], ms[i]);
          RepeatsEarly(s, ms, i + 1);
          return Err(Conflict);
        }
        table := table[m.sequence := m];
      }
      assert forall k :: 0 <= k < i ==> ms[k] in ms[..i];
    }
    assert ms[..|ms|] == ms;
    return Ok(table);
  }

  lemma StrictlyOne(s: State, ms: seq<Marker>, log: seq<Applied>)
    requires !HasDuplicates(ms) && RepeatsSequence(s, ms)
    ensures !HistoryMatches(s, ms, log)
  {
    var i, j :| 0 <= i < j < |ms| && SameSequence(s, ms[i], ms[j]);
    assert ms[i] in ms && ms[j] in ms && ms[i].batchId != ms[j].batchId;
  }

  function Upto(n: nat): (r: set<nat>)
    ensures forall k :: k in r <==> 1 <= k <= n
  {
    if n == 0 then {} else Upto(n - 1) + {n}
  }

  /** A matching log is what the dictionary holds. */
  lemma LogIsGrouped(s: State, ms: seq<Marker>, table: map<nat, Marker>, log: seq<Applied>)
    requires Grouped(table, s.campaign, ms) && HistoryMatches(s, ms, log)
    ensures table.Keys == Upto(s.sequence)
    ensures forall k :: 1 <= k <= s.sequence ==> table[k] == LogMarker(s.campaign, s.origin, log, k)
  {
    forall k | 1 <= k <= s.sequence ensures k in table && table[k] == LogMarker(s.campaign, s.origin, log, k) {
      assert LogMarker(s.campaign, s.origin, log, k) in ms;
    }
  }

  /** The digest that the dictionary gives for the state before transition `k`. */
  function PreviousIn(s: State, table: map<nat, Marker>, k: nat): string {
    if k > 1 && k - 1 in table && table[k - 1].transition.Some? then Semantic(table[k - 1]) else s.origin
  }

  /** In a matching history, every transition links to the one before it and the last one ends in the state. */
  lemma HistoryLinks(s: State, ms: seq<Marker>, table: map<nat, Marker>, log: seq<Applied>, k: nat)
    requires Grouped(table, s.campaign, ms) && HistoryMatches(s, ms, log) && 1 <= k <= s.sequence && k in table
    ensures Links(table[k], s.campaign, PreviousIn(s, table, k))
    ensures k == s.sequence ==> Semantic(table[k]) == s.applied.semanticDigest
  {
    LogIsGrouped(s, ms, table, log);
    assert table[k] == LogMarker(s.campaign, s.origin, log, k);
    if k > 1 { assert table[k - 1] == LogMarker(s.campaign, s.origin, log, k - 1); }
  }

  predicate LinkAt(s: State, table: map<nat, Marker>, k: nat)
    requires k in table && table[k].transition.Some?
  {
    Links(table[k], s.campaign, PreviousIn(s, table, k))
  }

  function TableLog(table: map<nat, Marker>, n: nat): (log: seq<Applied>)
    requires forall k :: 1 <= k <= n ==> k in table && table[k].transition.Some?
    ensures |log| == n && forall i :: 0 <= i < n ==> log[i] == table[i + 1].transition.value.applied
  {
    seq(n, i requires 0 <= i < n => table[i + 1].transition.value.applied)
  }

  lemma TableLogMarker(s: State, ms: seq<Marker>, table: map<nat, Marker>, k: nat)
    requires Grouped(table, s.campaign, ms) && table.Keys == Upto(s.sequence) && 1 <= k <= s.sequence
    requires LinkAt(s, table, k)
    ensures table[k] == LogMarker(s.campaign, s.origin, TableLog(table, s.sequence), k)
  {
    var log := TableLog(table, s.sequence);
    assert log[k - 1] == table[k].transition.value.applied;
    if k > 1 { assert k - 1 in table && log[k - 2] == table[k - 1].transition.value.applied; }
    assert PreviousIn(s, table, k) == DigestAt(s.origin, log, k - 1);
  }

  lemma ChainHas(s: State, ms: seq<Marker>, table: map<nat, Marker>, log: seq<Applied>)
    requires Grouped(table, s.campaign, ms) && table.Keys == Upto(s.sequence)
    requires forall k :: 1 <= k <= s.sequence ==> LinkAt(s, table, k)
    requires log == TableLog(table, s.sequence)
    ensures forall k :: 1 <= k <= |log| ==> LogMarker(s.campaign, s.origin, log, k) in ms
  {
    hide LinkAt;
    hide LogMarker;
    hide TableLog;
    hide IsTransition;
    forall k | 1 <= k <= |log| ensures LogMarker(s.campaign, s.origin, log, k) in ms {
      assert k in table.Keys;
      TableLogMarker(s, ms, table, k);
    }
  }

  lemma ChainOnly(s: State, ms: seq<Marker>, table: map<nat, Marker>, log: seq<Applied>)
    requires Grouped(table, s.campaign, ms) && table.Keys == Upto(s.sequence)
    requires forall k :: 1 <= k <= s.sequence ==> LinkAt(s, table, k)
    requires log == TableLog(table, s.sequence)
    ensures forall m :: m in ms && IsTransition(m, s.campaign) ==>
      1 <= m.sequence <= |log| && m == LogMarker(s.campaign, s.origin, log, m.sequence)
  {
    hide LinkAt;
    hide LogMarker;
    hide TableLog;
    hide IsTransition;
    forall m | m in ms && IsTransition(m, s.campaign)
      ensures 1 <= m.sequence <= |log| && m == LogMarker(s.campaign, s.origin, log, m.sequence)
    {
      assert m.sequence in table.Keys;
      TableLogMarker(s, ms, table, m.sequence);
    }
  }

  /** A dictionary whose chain holds is a matching history. */
  lemma ChainIsHistory(s: State, ms: seq<Marker>, table: map<nat, Marker>)
    requires Grouped(table, s.campaign, ms) && table.Keys == Upto(s.sequence)
    requires forall k :: 1 <= k <= s.sequence ==> LinkAt(s, table, k)
    requires s.sequence > 0 ==> Semantic(table[s.sequence]) == s.applied.semanticDigest
    ensures exists log :: HistoryMatches(s, ms, log)
  {
    hide LinkAt;
    hide LogMarker;
    hide IsTransition;
    hide Grouped;
    hide Upto;
    hide TableLog;
    ChainIsTyped(s, ms, table);
    var log := TableLog(table, s.sequence);
    ChainHas(s, ms, table, log);
    ChainOnly(s, ms, table, log);
    ChainEnds(s, table, log);
    assert HistoryMatches(s, ms, log);
  }

  lemma ChainIsTyped(s: State, ms: seq<Marker>, table: map<nat, Marker>)
    requires Grouped(table, s.campaign, ms) && table.Keys == Upto(s.sequence)
    ensures forall k :: 1 <= k <= s.sequence ==> k in table && table[k].transition.Some?
  {
    forall k | 1 <= k <= s.sequence ensures k in table && table[k].transition.Some? { assert k in table.Keys; }
  }

  lemma ChainEnds(s: State, table: map<nat, Marker>, log: seq<Applied>)
    requires forall k :: 1 <= k <= s.sequence ==> k in table && table[k].transition.Some?
    requires log == TableLog(table, s.sequence)
    requires s.sequence > 0 ==> Semantic(table[s.sequence]) == s.applied.semanticDigest
    ensures log != [] ==> log[|log| - 1].semanticDigest == s.applied.semanticDigest
  {
    if log != [] { assert log[s.sequence - 1] == table[s.sequence].transition.value.applied; }
  }

  /** The comparison of the digest chain, transition by transition. */
  method CheckLinks(s: State, table: map<nat, Marker>) returns (ok: bool)
    requires forall k :: 1 <= k <= s.sequence ==> k in table && table[k].transition.Some?
    ensures ok <==> forall k :: 1 <= k <= s.sequence ==> LinkAt(s, table, k)
  {
    hide Links;
    for k := 1 to s.sequence + 1
      invariant forall j :: 1 <= j < k ==> LinkAt(s, table, j)
    {
      var previous := if k == 1 then s.origin else Semantic(table[k - 1]);
      if !Links(table[k], s.campaign, previous) {
        assert !LinkAt(s, table, k);
        return false;
      }
    }
    return true;
  }

  lemma NotUptoRefuses(s: State, ms: seq<Marker>, table: map<nat, Marker>)
    requires Grouped(table, s.campaign, ms) && table.Keys != Upto(s.sequence)
    ensures forall log :: !HistoryMatches(s, ms, log)
  {
    forall log ensures !HistoryMatches(s, ms, log) {
      if HistoryMatches(s, ms, log) { LogIsGrouped(s, ms, table, log); assert false; }
    }
  }

  lemma BrokenLinkRefuses(s: State, ms: seq<Marker>, table: map<nat, Marker>, k: nat)
    requires Grouped(table, s.campaign, ms) && k in table && 1 <= k <= s.sequence
    requires !LinkAt(s, table, k) || (k == s.sequence && Semantic(table[k]) != s.applied.semanticDigest)
    ensures forall log :: !HistoryMatches(s, ms, log)
  {
    forall log ensures !HistoryMatches(s, ms, log) {
      if HistoryMatches(s, ms, log) { HistoryLinks(s, ms, table, log, k); assert false; }
    }
  }

  /** The comparison of the sequences and of the digest chain. */
  method VerifyChain(s: State, ghost ms: seq<Marker>, table: map<nat, Marker>) returns (r: Result<()>)
    requires Grouped(table, s.campaign, ms)
    ensures r.Ok? <==> exists log :: HistoryMatches(s, ms, log)
  {
    hide HistoryMatches;
    hide LinkAt;
    if table.Keys != Upto(s.sequence) {
      NotUptoRefuses(s, ms, table);
      return Err(Conflict);
    }
    if table == map[] {
      assert s.sequence > 0 ==> s.sequence in table.Keys;
      ChainIsHistory(s, ms, table);
      return Ok(());
    }
    EmptyTable(table, s.sequence);
    assert s.sequence in table.Keys;
    if Semantic(table[s.sequence]) != s.applied.semanticDigest {
      BrokenLinkRefuses(s, ms, table, s.sequence);
      return Err(Conflict);
    }
    assert forall k :: 1 <= k <= s.sequence ==> k in table.Keys;
    var ok := CheckLinks(s, table);
    if !ok {
      ghost var k :| 1 <= k <= s.sequence && !LinkAt(s, table, k);
      BrokenLinkRefuses(s, ms, table, k);
      return Err(Conflict);
    }
    ChainIsHistory(s, ms, table);
    return Ok(());
  }

  lemma EmptyTable(table: map<nat, Marker>, n: nat)
    requires table.Keys == Upto(n) && table != map[]
    ensures n > 0
  {
    var k :| k in table.Keys;
  }

  // ----- The order of the comments does not matter -----

  lemma RemoveOne<T>(a: seq<T>, i: nat)
    requires i < |a|
    ensures multiset(a[..i] + a[i + 1..]) == multiset(a) - multiset{a[i]}
  {
    assert a == a[..i] + [a[i]] + a[i + 1..];
  }

  /** Taking one comment out of the list takes out the markers of that comment. */
  lemma MarkersWithout(b: seq<Comment>, i: nat, limits: Limits)
    requires i < |b|
    ensures var rest := b[..i] + b[i + 1..];
            && (MarkersOf(b, limits).Ok? <==> MarkersOf(rest, limits).Ok? && MarkersOf([b[i]], limits).Ok?)
            && (MarkersOf(b, limits).Ok? ==>
                  multiset(MarkersOf(b, limits).value) ==
                  multiset(MarkersOf(rest, limits).value) + multiset(MarkersOf([b[i]], limits).value))
  {
    hide ParseMarker;
    var x, y, z := b[..i], [b[i]], b[i + 1..];
    assert (x + y) + z == b;
    MarkersSplit(x + y, z, limits);
    MarkersSplit(x, y, limits);
    MarkersSplit(x, z, limits);
  }

  /** The first element of one list stands somewhere in a permutation of it. */
  lemma FirstFound<T>(a: seq<T>, b: seq<T>) returns (i: nat)
    requires multiset(a) == multiset(b) && a != []
    ensures i < |b| && b[i] == a[0] && multiset(a[..0] + a[1..]) == multiset(b[..i] + b[i + 1..])
  {
    assert a[0] in multiset(b);
    i :| 0 <= i < |b| && b[i] == a[0];
    RemoveOne(a, 0);
    RemoveOne(b, i);
  }

  lemma SameSize<T>(a: seq<T>, b: seq<T>)
    requires multiset(a) == multiset(b)
    ensures |a| == |b|
  {
    assert |multiset(b)| == |b| && |multiset(a)| == |a|;
  }

  lemma {:induction false} MarkersPermute(a: seq<Comment>, b: seq<Comment>, limits: Limits)
    requires multiset(a) == multiset(b)
    ensures MarkersOf(a, limits).Ok? <==> MarkersOf(b, limits).Ok?
    ensures MarkersOf(a, limits).Ok? ==> multiset(MarkersOf(a, limits).value) == multiset(MarkersOf(b, limits).value)
    decreases |a|
  {
    hide ParseMarker;
    hide MarkersOf;
    hide ValidMarker;
    SameSize(a, b);
    if a != [] {
      var i := FirstFound(a, b);
      var ra, rb := a[..0] + a[1..], b[..i] + b[i + 1..];
      assert |ra| < |a|;
      MarkersPermute(ra, rb, limits);
      MarkersWithout(a, 0, limits);
      MarkersWithout(b, i, limits);
    } else {
      assert b == a;
    }
  }

  lemma {:induction false} MarkersSplit(a: seq<Comment>, b: seq<Comment>, limits: Limits)
    ensures MarkersOf(a + b, limits).Ok? <==> MarkersOf(a, limits).Ok? && MarkersOf(b, limits).Ok?
    ensures MarkersOf(a + b, limits).Ok? ==>
      MarkersOf(a + b, limits).value == MarkersOf(a, limits).value + MarkersOf(b, limits).value
    decreases |b|
  {
    if b == [] {
      assert a + b == a;
    } else {
      var front := b[..|b| - 1];
      assert (a + b)[..|a + b| - 1] == a + front;
      MarkersSplit(a, front, limits);
    }
  }

  /** Recovery and verification depend on which markers there are, not on their order. */
  lemma OrderDoesNotMatter(s: State, a: seq<Marker>, b: seq<Marker>)
    requires multiset(a) == multiset(b)
    ensures HasDuplicates(a) <==> HasDuplicates(b)
    ensures forall run :: ReplayOf(s, a, run) <==> ReplayOf(s, b, run)
    ensures forall log :: HistoryMatches(s, a, log) <==> HistoryMatches(s, b, log)
  {
    forall m ensures m in a <==> m in b { assert m in a <==> m in multiset(a); assert m in b <==> m in multiset(b); }
    if HasDuplicates(a) { DuplicatesPermute(a, b); }
    if HasDuplicates(b) { DuplicatesPermute(b, a); }
  }

  /** Listing the comments in another order changes neither what is recovered nor what is accepted. */
  lemma CommentOrderDoesNotMatter(s: State, a: seq<Comment>, b: seq<Comment>, limits: Limits)
    requires multiset(a) == multiset(b)
    ensures CommentMarkersOf(a, limits).Ok? <==> CommentMarkersOf(b, limits).Ok?
    ensures CommentMarkersOf(a, limits).Ok? ==>
      var ms, ns := CommentMarkersOf(a, limits).value, CommentMarkersOf(b, limits).value;
      && (forall run :: ReplayOf(s, ms, run) <==> ReplayOf(s, ns, run))
      && (forall log :: HistoryMatches(s, ms, log) <==> HistoryMatches(s, ns, log))
  {
    hide MarkersOf;
    hide HasDuplicates;
    hide ReplayOf;
    hide HistoryMatches;
    hide ValidMarker;
    MarkersPermute(a, b, limits);
    if MarkersOf(a, limits).Ok? { OrderDoesNotMatter(s, MarkersOf(a, limits).value, MarkersOf(b, limits).value); }
  }

  lemma DuplicatesPermute(a: seq<Marker>, b: seq<Marker>)
    requires multiset(a) == multiset(b) && HasDuplicates(a)
    ensures HasDuplicates(b)
  {
    var i, j :| 0 <= i < j < |a| && a[i].batchId == a[j].batchId;
    assert a[i] in multiset(b) && a[j] in multiset(b);
    if a[i] == a[j] {
      assert a == a[..j] + [a[j]] + a[j + 1..] && a[..j][i] == a[i];
      TwoPositions(b, a[i]);
    } else {
      var p, q :| 0 <= p < |b| && 0 <= q < |b| && b[p] == a[i] && b[q] == a[j];
      if p < q { assert b[p].batchId == b[q].batchId; } else { assert b[q].batchId == b[p].batchId; }
    }
  }

  lemma TwoPositions(b: seq<Marker>, x: Marker)
    requires multiset(b)[x] >= 2
    ensures exists i, j :: 0 <= i < j < |b| && b[i] == x && b[j] == x
  {
    var i :| 0 <= i < |b| && b[i] == x;
    var rest := b[..i] + b[i + 1..];
    assert b == b[..i] + [x] + b[i + 1..];
    assert multiset(rest)[x] >= 1;
    var k :| 0 <= k < |rest| && rest[k] == x;
    if k < i { assert b[k] == x; } else { assert b[k + 1] == x; }
  }
}
