/** Which bodies and comments the audit accepts at all (scripts/fls_audit_issue_lib/state.py, lines 200-235 and
    270-301). */
module AuditParsing {
  import opened Strings
  import opened Json
  import opened AuditState
  import opened AuditMarks
  import opened GitHub
  import opened AuditStore

  /** A marker counted once occurs once. */
  lemma CountedOnce(n: string, text: string)
    requires IsOpening(n)
    ensures Count(n, text, 0) == 1 <==> exists i: nat :: OccursOnlyAt(n, text, i)
    ensures Count(n, text, 0) == 1 ==> Find(n, text, 0).Some? && OccursOnlyAt(n, text, Find(n, text, 0).value)
  {
    hide OccursAt;
    if Count(n, text, 0) == 1 {
      var i := Find(n, text, 0).value;
      assert Count(n, text, i + |n|) == 0;
      forall j: nat | OccursAt(n, text, j) ensures j == i {
        if i < j < i + |n| {
          OccursAtChar(n, text, j, 0);
          assert GoesOn(n, j - i);
          OccursAtChar(n, text, i, j - i);
        }
      }
      assert OccursOnlyAt(n, text, i);
    }
    if i: nat :| OccursOnlyAt(n, text, i) { FoundOnce(n, text, i); }
  }

  lemma OnlyOnce(n: string, text: string, i: nat, j: nat)
    requires OccursOnlyAt(n, text, i) && OccursOnlyAt(n, text, j)
    ensures i == j
  {
    hide OccursAt;
  }

  /** The managed region reaches from its only start to its only end. */
  lemma SpanExactly(body: string, p: nat, q: nat)
    ensures ManagedSpan(body) == Ok(Some((p, q + |MANAGED_END|))) <==>
            OccursOnlyAt(MANAGED_START, body, p) && OccursOnlyAt(MANAGED_END, body, q) && p <= q
  {
    BoundariesOpen();
    CountedOnce(MANAGED_START, body);
    CountedOnce(MANAGED_END, body);
    hide Count;
    hide IsOpening;
    if OccursOnlyAt(MANAGED_START, body, p) && OccursOnlyAt(MANAGED_END, body, q) {
      OnlyOnce(MANAGED_START, body, p, Find(MANAGED_START, body, 0).value);
      OnlyOnce(MANAGED_END, body, q, Find(MANAGED_END, body, 0).value);
    }
  }

  /** There is none exactly when neither boundary occurs. */
  lemma NoSpanExactly(body: string)
    ensures ManagedSpan(body) == Ok(None) <==> Absent(MANAGED_START, body) && Absent(MANAGED_END, body)
    ensures ManagedSpan(body).Err? ==> ManagedSpan(body).error == Malformed
    ensures ManagedSpan(body).Ok? && ManagedSpan(body).value.Some? ==> ManagedSpan(body).value.value.1 >= |MANAGED_END|
  {
    assert Absent(MANAGED_START, body) <==> Count(MANAGED_START, body, 0) == 0;
    assert Absent(MANAGED_END, body) <==> Count(MANAGED_END, body, 0) == 0;
    hide Count;
    hide Absent;
  }

  lemma FirstIsOne(needle: string, text: string, from: nat, i: nat, j: nat)
    requires FirstAt(needle, text, from, i) && FirstAt(needle, text, from, j)
    ensures i == j
  {
    hide OccursAt;
  }

  /** The marker stands at `start`: it is the first opening with a brace, its JSON ends at the first brace that is
      followed by the closing, and no opening behind it is closed. */
  ghost predicate Sole(opening: string, body: string, start: nat, json: string) {
    var close := start + |opening| + |json| - 1;
    && json != "" && close >= 0
    && FirstAt(opening + "{", body, 0, start)
    && FirstAt(JSON_CLOSE, body, start + |opening| + 1, close)
    && start + |opening| + |json| <= |body| && body[start + |opening|..start + |opening| + |json|] == json
    && forall j: nat, k: nat ::
         close + 5 <= j && OccursAt(opening + "{", body, j) && j + |opening| + 1 <= k ==> !OccursAt(JSON_CLOSE, body, k)
  }

  lemma NoneBehind(opening: string, body: string, from: nat)
    ensures FindMarker(opening, body, from) == None <==>
      forall j: nat, k: nat ::
        from <= j && OccursAt(opening + "{", body, j) && j + |opening| + 1 <= k ==> !OccursAt(JSON_CLOSE, body, k)
  {
    hide OccursAt;
    match Find(opening + "{", body, from)
    case None =>
    case Some(p) =>
      match Find(JSON_CLOSE, body, p + |opening| + 1)
      case None =>
      case Some(q) => assert OccursAt(opening + "{", body, p) && OccursAt(JSON_CLOSE, body, q);
  }

  lemma FoundExactly(opening: string, body: string, m: Match)
    ensures FindMarker(opening, body, 0) == Some(m) && FindMarker(opening, body, m.end) == None <==>
            Sole(opening, body, m.start, m.json) && m.end == m.start + |opening| + |m.json| + 4
  {
    NoneBehind(opening, body, m.end);
    if FindMarker(opening, body, 0) == Some(m) && FindMarker(opening, body, m.end) == None {
      var q := Find(JSON_CLOSE, body, m.start + |opening| + 1).value;
      assert |m.json| == q + 1 - m.start - |opening|;
      hide OccursAt;
      hide FindMarker;
    }
    if Sole(opening, body, m.start, m.json) && m.end == m.start + |opening| + |m.json| + 4 {
      var from, q := m.start + |opening| + 1, m.start + |opening| + |m.json| - 1;
      hide OccursAt;
      assert Find(opening + "{", body, 0).Some? && Find(JSON_CLOSE, body, from).Some?;
      FirstIsOne(opening + "{", body, 0, m.start, Find(opening + "{", body, 0).value);
      FirstIsOne(JSON_CLOSE, body, from, q, Find(JSON_CLOSE, body, from).value);
    }
  }

  lemma HintIsThere(opening: string, hint: string, body: string, d: nat)
    requires d + |hint| <= |opening| && opening[d..d + |hint|] == hint
    ensures FindMarker(opening, body, 0).Some? ==> Contains(hint, body)
  {
    if FindMarker(opening, body, 0).Some? {
      var i := FindMarker(opening, body, 0).value.start;
      assert OccursAt(opening + "{", body, i);
      assert body[i + d..i + d + |hint|] == body[i..i + |opening| + 1][d..d + |hint|] == (opening + "{")[d..d + |hint|];
      assert OccursAt(hint, body, i + d);
    }
  }

  /** A body is too large, or it has no state exactly when it names neither a state nor a boundary, or it has the state
      that its only state marker says within its only managed region; anything else raises. */
  lemma ParseStateExactly(body: string, limits: Limits)
    ensures ParseState(body, limits) == Err(TooLarge) <==> Utf8Size(body) > limits.issueBody
    ensures ParseState(body, limits) == Ok(None) <==>
      && Utf8Size(body) <= limits.issueBody
      && Absent(STATE_HINT, body) && Absent(MANAGED_START, body) && Absent(MANAGED_END, body)
    ensures forall s :: ParseState(body, limits) == Ok(Some(s)) <==>
      Utf8Size(body) <= limits.issueBody && StatesOnce(body, s)
  {
    ParseErrors(body, limits);
    forall s
      ensures ParseState(body, limits) == Ok(Some(s)) <==> Utf8Size(body) <= limits.issueBody && StatesOnce(body, s)
    {
      if Utf8Size(body) <= limits.issueBody {
        if ParseState(body, limits) == Ok(Some(s)) { ParsedStatesOnce(body, s, limits); }
        if StatesOnce(body, s) { StatesOnceParses(body, s, limits); }
      }
    }
  }

  /** The body has one managed region, and in it one state marker, which says `s`. */
  ghost predicate StatesOnce(body: string, s: State) {
    exists p: nat, q: nat, start: nat, json ::
      && OccursOnlyAt(MANAGED_START, body, p) && OccursOnlyAt(MANAGED_END, body, q) && p <= q
      && Sole(STATE_OPEN, body, start, json)
      && p < start && start + |STATE_OPEN| + |json| + 4 < q + |MANAGED_END|
      && ReadState(json) == Ok(s)
  }

  lemma ParsedStatesOnce(body: string, s: State, limits: Limits)
    requires ParseState(body, limits) == Ok(Some(s))
    ensures StatesOnce(body, s)
  {
    hide *;
    ParsedParts(body, s, limits);
    var m, span := FindMarker(STATE_OPEN, body, 0).value, ManagedSpan(body).value.value;
    FoundExactly(STATE_OPEN, body, m);
    NoSpanExactly(body);
    var q: nat := span.1 - |MANAGED_END|;
    SpanExactly(body, span.0, q);
    Assemble(body, s, span.0, q, m.start, m.json);
  }

  lemma ParsedParts(body: string, s: State, limits: Limits)
    requires ParseState(body, limits) == Ok(Some(s))
    ensures FindMarker(STATE_OPEN, body, 0).Some? && ManagedSpan(body).Ok? && ManagedSpan(body).value.Some?
    ensures var m, span := FindMarker(STATE_OPEN, body, 0).value, ManagedSpan(body).value.value;
            && FindMarker(STATE_OPEN, body, m.end).None? && span.0 < m.start && m.end < span.1
            && ReadState(m.json) == Ok(s)
  {
    hide FindMarker;
    hide ManagedSpan;
    hide ReadState;
  }

  lemma Assemble(body: string, s: State, p: nat, q: nat, start: nat, json: string)
    requires OccursOnlyAt(MANAGED_START, body, p) && OccursOnlyAt(MANAGED_END, body, q) && p <= q
    requires Sole(STATE_OPEN, body, start, json)
    requires p < start && start + |STATE_OPEN| + |json| + 4 < q + |MANAGED_END| && ReadState(json) == Ok(s)
    ensures StatesOnce(body, s)
  {
    hide Sole;
    hide OccursOnlyAt;
    hide ReadState;
  }

  lemma StatesOnceParses(body: string, s: State, limits: Limits)
    requires StatesOnce(body, s) && Utf8Size(body) <= limits.issueBody
    ensures ParseState(body, limits) == Ok(Some(s))
  {
    hide Sole;
    hide OccursOnlyAt;
    hide FindMarker;
    hide ManagedSpan;
    hide ReadState;
    var p: nat, q: nat, start: nat, json :|
      && OccursOnlyAt(MANAGED_START, body, p) && OccursOnlyAt(MANAGED_END, body, q) && p <= q
      && Sole(STATE_OPEN, body, start, json)
      && p < start && start + |STATE_OPEN| + |json| + 4 < q + |MANAGED_END|
      && ReadState(json) == Ok(s);
    SpanExactly(body, p, q);
    FoundExactly(STATE_OPEN, body, Match(start, json, start + |STATE_OPEN| + |json| + 4));
  }

  lemma ParseErrors(body: string, limits: Limits)
    ensures ParseState(body, limits) == Err(TooLarge) <==> Utf8Size(body) > limits.issueBody
    ensures ParseState(body, limits) == Ok(None) <==>
      && Utf8Size(body) <= limits.issueBody
      && Absent(STATE_HINT, body) && Absent(MANAGED_START, body) && Absent(MANAGED_END, body)
  {
    NoSpanExactly(body);
    StateHint(body);
    ReadStateErrors();
    hide FindMarker;
    hide ManagedSpan;
    hide ReadState;
    hide Absent;
    hide STATE_HINT;
    hide STATE_OPEN;
    hide MANAGED_START;
    hide MANAGED_END;
  }

  lemma StateHint(body: string)
    ensures FindMarker(STATE_OPEN, body, 0).Some? ==> Contains(STATE_HINT, body)
  {
    assert STATE_OPEN[|LEAD|..|LEAD| + |STATE_HINT|] == STATE_HINT;
    hide FindMarker;
    HintIsThere(STATE_OPEN, STATE_HINT, body, |LEAD|);
  }

  lemma ReadStateErrors()
    ensures forall json :: ReadState(json).Err? ==> ReadState(json).error == Malformed
  {
    forall json | ReadState(json).Err? ensures ReadState(json).error == Malformed {}
  }

  /** A comment is too large, or it has no marker exactly when it names none, or it has the marker that its only one
      says; anything else raises. */
  lemma ParseMarkerExactly(body: string, limits: Limits)
    ensures ParseMarker(body, limits) == Err(TooLarge) <==> Utf8Size(body) > limits.comment
    ensures ParseMarker(body, limits) == Ok(None) <==> Utf8Size(body) <= limits.comment && Absent(BATCH_HINT, body)
    ensures forall m :: ParseMarker(body, limits) == Ok(Some(m)) <==>
      && Utf8Size(body) <= limits.comment
      && exists start: nat, json :: Sole(BATCH_OPEN, body, start, json) && ReadMarker(json) == Ok(m)
  {
    assert BATCH_OPEN[|LEAD|..|LEAD| + |BATCH_HINT|] == BATCH_HINT;
    HintIsThere(BATCH_OPEN, BATCH_HINT, body, |LEAD|);
    hide Sole;
    hide FindMarker;
    hide Absent;
    if FindMarker(BATCH_OPEN, body, 0).Some? { FoundExactly(BATCH_OPEN, body, FindMarker(BATCH_OPEN, body, 0).value); }
    ReadMarkerErrors();
    hide ReadMarker;
    forall m
      ensures ParseMarker(body, limits) == Ok(Some(m)) <==>
        && Utf8Size(body) <= limits.comment
        && exists start: nat, json :: Sole(BATCH_OPEN, body, start, json) && ReadMarker(json) == Ok(m)
    {
      if start: nat, json :| Sole(BATCH_OPEN, body, start, json) && ReadMarker(json) == Ok(m) {
        FoundExactly(BATCH_OPEN, body, Match(start, json, start + |BATCH_OPEN| + |json| + 4));
      }
    }
  }

  lemma ReadMarkerErrors()
    ensures forall json :: ReadMarker(json).Err? ==> ReadMarker(json).error == Malformed
  {
    forall json | ReadMarker(json).Err? ensures ReadMarker(json).error == Malformed {}
  }

  /** That closed issues without any mark are not parsed only matters for those that are too large. */
  lemma ClosedMattersExactly(i: Issue, limits: Limits)
    ensures ParsedState(i, limits) ==
      if !i.open && Utf8Size(i.body) > limits.issueBody && Absent(STATE_HINT, i.body) &&
         Absent(MANAGED_START, i.body) && Absent(MANAGED_END, i.body) then Ok(None)
      else ParseState(i.body, limits)
  {
    ParseStateExactly(i.body, limits);
    hide ParseState;
    hide Absent;
  }
}
