/** The state an audit issue carries in its body and the markers its comments carry
    (scripts/fls_audit_issue_lib/state.py). */
module AuditState {
  import opened Strings
  import opened Json

  /** Why a call raised `AuditIssueError`. */
  datatype AuditError =
    | TooLarge     // a body or comment exceeds its limit
    | Malformed    // a marker, its schema or its region is broken
    | Conflict     // comments and state, or two issues, contradict each other
    | BadReport    // the report or spec.lock cannot be used
    | Damaged      // an open bot issue has lost its state
    | Unverified   // the result does not show up when read back
    | Unavailable  // a request to GitHub failed

  datatype Result<+T> = Ok(value: T) | Err(error: AuditError) {
    predicate IsFailure() { Err? }

    function PropagateFailure<U>(): Result<U>
      requires Err?
    {
      Err(error)
    }

    function Extract(): T
      requires Ok?
    {
      value
    }
  }

  datatype Limits = Limits(issueBody: nat, comment: nat)

  type Items = map<string, Json>

  datatype Applied = Applied(semanticDigest: string, bodyDigest: string, commit: string, items: Items)

  datatype State = State(campaign: string, sequence: nat, origin: string, applied: Applied)

  /** What a transition comment adds to a plain event comment. */
  datatype Transition = Transition(previous: string, applied: Applied)

  datatype Marker = Marker(batchId: string, campaign: string, sequence: nat, transition: Option<Transition>)

  // ----- Values as JSON -----

  function ItemsJson(items: Items): Json { Obj(SortedFields(items)) }

  function ItemsDigest(items: Items): string { Sha256Json(ItemsJson(items)) }

  function AppliedJson(a: Applied): Json {
    Obj([Field("body_digest", Str(a.bodyDigest)), Field("current_commit", Str(a.commit)),
         Field("items", ItemsJson(a.items)), Field("semantic_digest", Str(a.semanticDigest))])
  }

  function StateJson(s: State): Json {
    Obj([Field("applied", AppliedJson(s.applied)), Field("campaign", Str(s.campaign)),
         Field("origin_semantic_digest", Str(s.origin)), Field("sequence", Int(s.sequence)),
         Field("version", Int(1))])
  }

  function MarkerJson(m: Marker): Json {
    match m.transition
    case None =>
      Obj([Field("batch_id", Str(m.batchId)), Field("campaign", Str(m.campaign)), Field("sequence", Int(m.sequence))])
    case Some(t) =>
      Obj([Field("applied", AppliedJson(t.applied)), Field("batch_id", Str(m.batchId)),
           Field("campaign", Str(m.campaign)), Field("previous_semantic_digest", Str(t.previous)),
           Field("sequence", Int(m.sequence))])
  }

  function BatchJson(campaign: string, sequence: nat, previous: string, target: string): Json {
    Obj([Field("campaign", Str(campaign)), Field("previous", Str(previous)),
         Field("sequence", Int(sequence)), Field("target", Str(target))])
  }

  function BatchId(campaign: string, sequence: nat, previous: string, target: string): string {
    Sha256Json(BatchJson(campaign, sequence, previous, target))
  }

  /** The identity of the comment that says one campaign replaced another. */
  function SupersededJson(replaced: string, successor: string): Json {
    Obj([Field("new", Str(successor)), Field("old", Str(replaced)), Field("type", Str("superseded"))])
  }

  function SupersededId(replaced: string, successor: string): string {
    Sha256Json(SupersededJson(replaced, successor))
  }

  // ----- Validation -----

  predicate IsCommit(c: string) {
    c == "" || (|c| == 40 && forall x | x in c :: IsHex(x))
  }

  predicate ValidItems(items: Items) {
    forall k | k in items :: items[k].Obj?
  }

  predicate ValidApplied(a: Applied) {
    && ValidItems(a.items)
    && IsDigest(a.semanticDigest) && IsDigest(a.bodyDigest)
    && a.semanticDigest == ItemsDigest(a.items)
    && IsCommit(a.commit)
  }

  predicate ValidState(s: State) {
    && IsDigest(s.campaign) && IsDigest(s.origin)
    && ValidApplied(s.applied)
    && (s.sequence == 0 ==> s.origin == s.applied.semanticDigest)
  }

  predicate ValidMarker(m: Marker) {
    && IsDigest(m.batchId) && m.campaign != ""
    && (m.transition.Some? ==> IsDigest(m.transition.value.previous) && ValidApplied(m.transition.value.applied))
  }

  /** `validate_applied` on a parsed value. */
  function DecodeApplied(j: Json): (r: Result<Applied>)
    ensures r.Ok? ==> ValidApplied(r.value)
  {
    if !j.Obj? then Err(Malformed)
    else
      var d := Dict(j.fields);
      if d.Keys != {"semantic_digest", "body_digest", "current_commit", "items"} then Err(Malformed)
      else if !d["items"].Obj? || !d["semantic_digest"].Str? || !d["body_digest"].Str? || !d["current_commit"].Str?
      then Err(Malformed)
      else
        var items, commit := Dict(d["items"].fields), d["current_commit"].text;
        var semantic, body := d["semantic_digest"].text, d["body_digest"].text;
        if exists k | k in items :: !items[k].Obj? then Err(Malformed)
        else if !IsDigest(semantic) || !IsDigest(body) then Err(Malformed)
        else if semantic != ItemsDigest(items) then Err(Malformed)
        else if commit != "" && (|commit| != 40 || exists x | x in commit :: !IsHex(x)) then Err(Malformed)
        else Ok(Applied(semantic, body, commit, items))
  }

  /** `validate_state` on a parsed dictionary. */
  function DecodeStateDict(d: map<string, Json>): (r: Result<State>)
    ensures r.Ok? ==> ValidState(r.value)
  {
    if d.Keys != {"version", "campaign", "sequence", "origin_semantic_digest", "applied"} then Err(Malformed)
    else if d["version"] != Int(1) || !d["campaign"].Str? || !d["origin_semantic_digest"].Str? then Err(Malformed)
    else if !d["sequence"].Int? || d["sequence"].n < 0 then Err(Malformed)
    else
      var campaign, sequence, origin := d["campaign"].text, d["sequence"].n, d["origin_semantic_digest"].text;
      if !IsDigest(campaign) || !IsDigest(origin) then Err(Malformed)
      else
        var applied :- DecodeApplied(d["applied"]);
        if sequence == 0 && origin != applied.semanticDigest then Err(Malformed)
        else Ok(State(campaign, sequence, origin, applied))
  }

  function DecodeState(j: Json): (r: Result<State>)
    ensures r.Ok? ==> ValidState(r.value)
  {
    if j.Obj? then DecodeStateDict(Dict(j.fields)) else Err(Malformed)
  }

  function DecodeEvent(d: map<string, Json>): (r: Result<Marker>)
    ensures r.Ok? ==> ValidMarker(r.value)
  {
    if d.Keys != {"batch_id", "campaign", "sequence"} then Err(Malformed)
    else if !d["batch_id"].Str? || !d["campaign"].Str? || !d["sequence"].Int? || d["sequence"].n < 0
    then Err(Malformed)
    else
      var value, campaign := d["batch_id"].text, d["campaign"].text;
      if !IsDigest(value) || campaign == "" then Err(Malformed)
      else Ok(Marker(value, campaign, d["sequence"].n, None))
  }

  function DecodeTransition(d: map<string, Json>): (r: Result<Marker>)
    ensures r.Ok? ==> ValidMarker(r.value)
  {
    if d.Keys != {"batch_id", "campaign", "sequence", "previous_semantic_digest", "applied"} then Err(Malformed)
    else if !d["batch_id"].Str? || !d["campaign"].Str? || !d["sequence"].Int? || d["sequence"].n < 0
    then Err(Malformed)
    else if !d["previous_semantic_digest"].Str? then Err(Malformed)
    else
      var value, campaign, previous := d["batch_id"].text, d["campaign"].text, d["previous_semantic_digest"].text;
      if !IsDigest(value) || campaign == "" || !IsDigest(previous) then Err(Malformed)
      else
        var applied :- DecodeApplied(d["applied"]);
        Ok(Marker(value, campaign, d["sequence"].n, Some(Transition(previous, applied))))
  }

  /** The schema checks of `parse_batch_marker` on a parsed value. */
  function DecodeMarker(j: Json): (r: Result<Marker>)
    ensures r.Ok? ==> ValidMarker(r.value)
  {
    if !j.Obj? then Err(Malformed)
    else
      var d := Dict(j.fields);
      if "applied" in d then DecodeTransition(d) else DecodeEvent(d)
  }

  lemma DictOfFour(a: Field, b: Field, c: Field, d: Field)
    requires a.key != b.key && a.key != c.key && a.key != d.key
    requires b.key != c.key && b.key != d.key && c.key != d.key
    ensures var m := Dict([a, b, c, d]);
            && m.Keys == {a.key, b.key, c.key, d.key}
            && m[a.key] == a.value && m[b.key] == b.value && m[c.key] == c.value && m[d.key] == d.value
  {
    var fs := [a, b, c, d];
    DictOfThree(b, c, d);
    assert fs[1..] == [b, c, d];
  }

  lemma DictOfThree(a: Field, b: Field, c: Field)
    requires a.key != b.key && a.key != c.key && b.key != c.key
    ensures var m := Dict([a, b, c]);
            && m.Keys == {a.key, b.key, c.key}
            && m[a.key] == a.value && m[b.key] == b.value && m[c.key] == c.value
  {
    assert [a, b, c][1..] == [b, c] && [b, c][1..] == [c] && [c][1..] == [];
    assert Dict([c]) == map[c.key := c.value];
  }

  lemma DictOfFive(a: Field, b: Field, c: Field, d: Field, e: Field)
    requires a.key !in {b.key, c.key, d.key, e.key}
    requires b.key != c.key && b.key != d.key && b.key != e.key
    requires c.key != d.key && c.key != e.key && d.key != e.key
    ensures var m := Dict([a, b, c, d, e]);
            && m.Keys == {a.key, b.key, c.key, d.key, e.key}
            && m[a.key] == a.value && m[b.key] == b.value && m[c.key] == c.value
            && m[d.key] == d.value && m[e.key] == e.value
  {
    DictOfFour(b, c, d, e);
    assert [a, b, c, d, e][1..] == [b, c, d, e];
  }

  lemma AppliedRoundTrip(a: Applied)
    requires ValidApplied(a)
    ensures DecodeApplied(AppliedJson(a)) == Ok(a)
  {
    var fs := AppliedJson(a).fields;
    assert |fs[0].key| == 11 && |fs[1].key| == 14 && |fs[2].key| == 5 && |fs[3].key| == 15;
    DictOfFour(fs[0], fs[1], fs[2], fs[3]);
    assert fs == [fs[0], fs[1], fs[2], fs[3]];
    DictOfSortedFields(a.items);
  }

  lemma StateDict(s: State)
    ensures var d := Dict(StateJson(s).fields);
            && d.Keys == {"applied", "campaign", "origin_semantic_digest", "sequence", "version"}
            && d["applied"] == AppliedJson(s.applied) && d["campaign"] == Str(s.campaign)
            && d["origin_semantic_digest"] == Str(s.origin) && d["sequence"] == Int(s.sequence)
            && d["version"] == Int(1)
  {
    var a, c, o, q, v := "applied", "campaign", "origin_semantic_digest", "sequence", "version";
    assert a[0] == 'a' && c[0] == 'c' && o[0] == 'o' && q[0] == 's' && v[0] == 'v';
    DictOfFive(Field(a, AppliedJson(s.applied)), Field(c, Str(s.campaign)), Field(o, Str(s.origin)),
               Field(q, Int(s.sequence)), Field(v, Int(1)));
  }

  lemma StateRoundTrip(s: State)
    requires ValidState(s)
    ensures DecodeState(StateJson(s)) == Ok(s)
  {
    StateDict(s);
    AppliedRoundTrip(s.applied);
  }

  /** The object has the fields of an applied state, in any order, and `a` is what they say. */
  predicate EncodesApplied(j: Json, a: Applied) {
    && j.Obj?
    && var d := Dict(j.fields);
       && d.Keys == {"semantic_digest", "body_digest", "current_commit", "items"}
       && d["semantic_digest"] == Str(a.semanticDigest) && d["body_digest"] == Str(a.bodyDigest)
       && d["current_commit"] == Str(a.commit) && d["items"].Obj? && Dict(d["items"].fields) == a.items
  }

  /** The object has the fields of a state, in any order, and `s` is what they say. */
  predicate EncodesState(j: Json, s: State) {
    && j.Obj?
    && var d := Dict(j.fields);
       && d.Keys == {"version", "campaign", "sequence", "origin_semantic_digest", "applied"}
       && d["version"] == Int(1) && d["campaign"] == Str(s.campaign) && d["sequence"] == Int(s.sequence)
       && d["origin_semantic_digest"] == Str(s.origin) && EncodesApplied(d["applied"], s.applied)
  }

  lemma DecodesAppliedExactly(j: Json, a: Applied)
    ensures DecodeApplied(j) == Ok(a) <==> EncodesApplied(j, a) && ValidApplied(a)
  {
    hide Dict;
    hide ItemsDigest;
    hide IsDigest;
  }

  /** Decoding accepts exactly the objects that say a valid state, and gives that state. */
  lemma DecodesStateExactly(j: Json, s: State)
    ensures DecodeState(j) == Ok(s) <==> EncodesState(j, s) && ValidState(s)
  {
    hide Dict;
    hide IsDigest;
    hide ValidApplied;
    hide DecodeApplied;
    hide EncodesApplied;
    if j.Obj? && "applied" in Dict(j.fields) {
      var applied := Dict(j.fields)["applied"];
      DecodesAppliedExactly(applied, s.applied);
      if DecodeApplied(applied).Ok? { DecodesAppliedExactly(applied, DecodeApplied(applied).value); }
    }
    ValidStateApplied(s);
  }

  /** The object has the fields of a marker, in any order, and `m` is what they say. */
  predicate EncodesMarker(j: Json, m: Marker) {
    && j.Obj?
    && var d := Dict(j.fields);
       && {"batch_id", "campaign", "sequence"} <= d.Keys
       && d["batch_id"] == Str(m.batchId) && d["campaign"] == Str(m.campaign) && d["sequence"] == Int(m.sequence)
       && match m.transition
          case None => d.Keys == {"batch_id", "campaign", "sequence"}
          case Some(t) =>
            && d.Keys == {"batch_id", "campaign", "sequence", "previous_semantic_digest", "applied"}
            && d["previous_semantic_digest"] == Str(t.previous) && EncodesApplied(d["applied"], t.applied)
  }

  /** Decoding accepts exactly the objects that say a valid marker, and gives that marker. */
  lemma DecodesMarkerExactly(j: Json, m: Marker)
    ensures DecodeMarker(j) == Ok(m) <==> EncodesMarker(j, m) && ValidMarker(m)
  {
    if j.Obj? {
      var d := Dict(j.fields);
      hide Dict;
      hide DecodeApplied;
      hide EncodesApplied;
      hide ValidApplied;
      if "applied" in d {
        if m.transition.Some? { DecodesAppliedExactly(d["applied"], m.transition.value.applied); }
        if DecodeApplied(d["applied"]).Ok? { DecodesAppliedExactly(d["applied"], DecodeApplied(d["applied"]).value); }
      }
    }
  }

  lemma ValidStateApplied(s: State)
    ensures ValidState(s) ==> ValidApplied(s.applied)
  {
  }

  lemma EventMarkerRoundTrip(m: Marker)
    requires ValidMarker(m) && m.transition.None?
    ensures DecodeMarker(MarkerJson(m)) == Ok(m)
  {
    var fs := MarkerJson(m).fields;
    assert fs[0].key[0] == 'b' && fs[1].key[0] == 'c' && fs[2].key[0] == 's' && "applied"[0] == 'a';
    DictOfThree(fs[0], fs[1], fs[2]);
    assert fs == [fs[0], fs[1], fs[2]];
    assert "applied" !in Dict(fs);
  }

  lemma TransitionDict(m: Marker)
    requires m.transition.Some?
    ensures var d := Dict(MarkerJson(m).fields);
            && d.Keys == {"applied", "batch_id", "campaign", "previous_semantic_digest", "sequence"}
            && d["applied"] == AppliedJson(m.transition.value.applied)
            && d["batch_id"] == Str(m.batchId) && d["campaign"] == Str(m.campaign)
            && d["previous_semantic_digest"] == Str(m.transition.value.previous)
            && d["sequence"] == Int(m.sequence)
  {
    var a, b, c := "applied", "batch_id", "campaign";
    var p, q := "previous_semantic_digest", "sequence";
    assert a[0] == 'a' && b[0] == 'b' && c[0] == 'c' && p[0] == 'p' && q[0] == 's';
    DictOfFive(Field(a, AppliedJson(m.transition.value.applied)), Field(b, Str(m.batchId)), Field(c, Str(m.campaign)),
               Field(p, Str(m.transition.value.previous)), Field(q, Int(m.sequence)));
  }

  lemma TransitionMarkerRoundTrip(m: Marker)
    requires ValidMarker(m) && m.transition.Some?
    ensures DecodeMarker(MarkerJson(m)) == Ok(m)
  {
    TransitionDict(m);
    AppliedRoundTrip(m.transition.value.applied);
  }

  lemma MarkerRoundTrip(m: Marker)
    requires ValidMarker(m)
    ensures DecodeMarker(MarkerJson(m)) == Ok(m)
  {
    if m.transition.None? { EventMarkerRoundTrip(m); } else { TransitionMarkerRoundTrip(m); }
  }

  lemma ItemsDigestInjective(a: Items, b: Items)
    requires ItemsDigest(a) == ItemsDigest(b)
    ensures a == b
  {
    DigestInjective(ItemsJson(a), ItemsJson(b));
    DictOfSortedFields(a);
    DictOfSortedFields(b);
  }

  /** A batch identity determines the transition it was made for. */
  lemma BatchIdInjective(c: string, n: nat, p: string, t: string, c': string, n': nat, p': string, t': string)
    requires BatchId(c, n, p, t) == BatchId(c', n', p', t')
    ensures c == c' && n == n' && p == p' && t == t'
  {
    var a := Obj([Field("campaign", Str(c)), Field("previous", Str(p)), Field("sequence", Int(n)),
                  Field("target", Str(t))]);
    var b := Obj([Field("campaign", Str(c')), Field("previous", Str(p')), Field("sequence", Int(n')),
                  Field("target", Str(t'))]);
    DigestInjective(a, b);
    assert a.fields[0] == b.fields[0] && a.fields[1] == b.fields[1];
    assert a.fields[2] == b.fields[2] && a.fields[3] == b.fields[3];
  }

  lemma SupersededIdInjective(o: string, n: string, o': string, n': string)
    requires SupersededId(o, n) == SupersededId(o', n')
    ensures o == o' && n == n'
  {
    var a := Obj([Field("new", Str(n)), Field("old", Str(o)), Field("type", Str("superseded"))]);
    var b := Obj([Field("new", Str(n')), Field("old", Str(o')), Field("type", Str("superseded"))]);
    DigestInjective(a, b);
    assert a.fields[0] == b.fields[0] && a.fields[1] == b.fields[1];
  }

  /** An event comment is never mistaken for a transition comment. */
  lemma BatchIdIsNotSuperseded(c: string, n: nat, p: string, t: string, o: string, w: string)
    ensures BatchId(c, n, p, t) != SupersededId(o, w)
  {
    var a := Obj([Field("campaign", Str(c)), Field("previous", Str(p)), Field("sequence", Int(n)),
                  Field("target", Str(t))]);
    var b := Obj([Field("new", Str(w)), Field("old", Str(o)), Field("type", Str("superseded"))]);
    assert |a.fields| != |b.fields|;
    if BatchId(c, n, p, t) == SupersededId(o, w) {
      DigestInjective(a, b);
      assert false;
    }
  }

  function ReadState(json: string): (r: Result<State>)
    ensures r.Ok? ==> ValidState(r.value)
  {
    match Loads(json)
    case None => Err(Malformed)
    case Some(j) => DecodeState(j)
  }

  function ReadMarker(json: string): (r: Result<Marker>)
    ensures r.Ok? ==> ValidMarker(r.value)
  {
    match Loads(json)
    case None => Err(Malformed)
    case Some(j) => DecodeMarker(j)
  }

  lemma ReadStateBack(s: State)
    requires ValidState(s)
    ensures ReadState(Print(StateJson(s))) == Ok(s)
  {
    LoadsPrint(StateJson(s));
    StateRoundTrip(s);
  }

  lemma ReadMarkerBack(m: Marker)
    requires ValidMarker(m)
    ensures ReadMarker(Print(MarkerJson(m))) == Ok(m)
  {
    LoadsPrint(MarkerJson(m));
    MarkerRoundTrip(m);
  }

  // ----- Marker texts -----

  /** Every marker text contains this mark, and ordinary text does not. */
  const MARK: string := "fls-audit:"
  const LEAD: string := "<!-- "
  const START_TAIL: string := "managed:start -->"
  const END_TAIL: string := "managed:end -->"
  const STATE_TAIL: string := "state:v1\n"
  const BATCH_TAIL: string := "batch:v1\n"

  const MANAGED_START: string := LEAD + MARK + START_TAIL
  const MANAGED_END: string := LEAD + MARK + END_TAIL
  const STATE_OPEN: string := LEAD + MARK + STATE_TAIL
  const STATE_HINT: string := MARK + "state:"
  const BATCH_OPEN: string := LEAD + MARK + BATCH_TAIL
  const BATCH_HINT: string := MARK + "batch:"
  const JSON_CLOSE: string := "}\n-->"

  function BatchMarker(m: Marker): string { BATCH_OPEN + Print(MarkerJson(m)) + "\n-->" }

  /** One match of `opening(\{.*?\})\n-->`. */
  datatype Match = Match(start: nat, json: string, end: nat)

  /** The next match at or after `from`: the first opening that is followed by a brace, then the first closing.
      When the closing is missing, no later opening can match either. */
  function FindMarker(opening: string, body: string, from: nat): (r: Option<Match>)
    ensures r.Some? ==> from <= r.value.start && r.value.start + |opening| < r.value.end <= |body|
  {
    match Find(opening + "{", body, from)
    case None => None
    case Some(p) =>
      match Find(JSON_CLOSE, body, p + |opening| + 1)
      case None => None
      case Some(q) => Some(Match(p, body[p + |opening|..q + 1], q + |JSON_CLOSE|))
  }

  /** Where the managed region starts and ends. */
  function ManagedSpan(body: string): (r: Result<Option<(nat, nat)>>)
    ensures r.Ok? && r.value.Some? ==>
      var (start, end) := r.value.value;
      start <= end <= |body| && OccursAt(MANAGED_START, body, start)
  {
    var starts := Count(MANAGED_START, body, 0);
    var ends := Count(MANAGED_END, body, 0);
    if starts == 0 && ends == 0 then Ok(None)
    else if starts != 1 || ends != 1 then Err(Malformed)
    else
      match (Find(MANAGED_START, body, 0), Find(MANAGED_END, body, 0))
      case (Some(start), Some(end)) =>
        if end < start then Err(Malformed) else Ok(Some((start, end + |MANAGED_END|)))
      case _ => Err(Malformed)
  }

  function ParseState(body: string, limits: Limits): (r: Result<Option<State>>)
    ensures r.Ok? && r.value.Some? ==> ValidState(r.value.value)
  {
    if Utf8Size(body) > limits.issueBody then Err(TooLarge)
    else
      match FindMarker(STATE_OPEN, body, 0)
      case None =>
        if Contains(STATE_HINT, body) then Err(Malformed)
        else
          var span :- ManagedSpan(body);
          if span.Some? then Err(Malformed) else Ok(None)
      case Some(found) =>
        if FindMarker(STATE_OPEN, body, found.end).Some? then Err(Malformed)
        else
          var span :- ManagedSpan(body);
          if span.None? || !(span.value.0 < found.start && found.end < span.value.1) then Err(Malformed)
          else
            var s :- ReadState(found.json);
            Ok(Some(s))
  }

  function ParseMarker(body: string, limits: Limits): (r: Result<Option<Marker>>)
    ensures r.Ok? && r.value.Some? ==> ValidMarker(r.value.value)
  {
    if Utf8Size(body) > limits.comment then Err(TooLarge)
    else
      match FindMarker(BATCH_OPEN, body, 0)
      case None => if Contains(BATCH_HINT, body) then Err(Malformed) else Ok(None)
      case Some(found) =>
        if FindMarker(BATCH_OPEN, body, found.end).Some? then Err(Malformed)
        else
          var m :- ReadMarker(found.json);
          Ok(Some(m))
  }

  // ----- Making states -----

  /** `make_state`: it validates what it wraps. The origin defaults to the digest of a new campaign's first state. */
  function MakeState(campaign: string, sequence: nat, applied: Applied, origin: string): (r: Result<State>)
    ensures r.Ok? <==> ValidApplied(applied)
    ensures r.Ok? ==> r.value.applied == applied && r.value.sequence == sequence && r.value.campaign == campaign
    ensures r.Ok? && origin != "" ==> r.value.origin == origin
    ensures r.Err? ==> r.error == Malformed
  {
    if ValidApplied(applied)
    then Ok(State(campaign, sequence, if origin == "" then applied.semanticDigest else origin, applied))
    else Err(Malformed)
  }

  /** What `make_state` makes reads back from an issue body if and only if campaign and origin are digests and a state
      at the start of its campaign has its own digest as the origin: `make_state` itself checks none of this. */
  lemma MadeStateReads(campaign: string, sequence: nat, applied: Applied, origin: string)
    requires MakeState(campaign, sequence, applied, origin).Ok?
    ensures var s := MakeState(campaign, sequence, applied, origin).value;
            ReadState(Print(StateJson(s))) == Ok(s) <==>
            && IsDigest(campaign) && (origin == "" || IsDigest(origin))
            && (sequence == 0 ==> origin in {"", applied.semanticDigest})
  {
    hide ReadState;
    hide IsDigest;
    var s := MakeState(campaign, sequence, applied, origin).value;
    if ValidState(s) { ReadStateBack(s); }
  }

  /** `campaign_id`: the digest of the documents that spec.lock pins. */
  function CampaignId(documents: Json): (r: Result<string>)
    ensures r.Ok? <==> documents.Arr? && documents.elements != []
    ensures r.Ok? ==> IsDigest(r.value)
    ensures r.Err? ==> r.error == BadReport
  {
    if !documents.Arr? || documents.elements == [] then Err(BadReport)
    else
      DigestIsDigest(documents);
      Ok(Sha256Json(documents))
  }

  /** A campaign is about all the documents of spec.lock: other documents make another campaign. */
  lemma CampaignIdInjective(a: Json, b: Json)
    requires CampaignId(a).Ok? && CampaignId(a) == CampaignId(b)
    ensures a == b
  {
    DigestInjective(a, b);
  }
}
