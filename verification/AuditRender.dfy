/** Rendering issue bodies and comments (scripts/fls_audit_issue_lib/render.py). The wording of a report is a
    parameter; what is modelled is where the markers stand and how a body is replaced. */
module AuditRender {
  import opened Strings
  import opened Json
  import opened AuditState
  import opened AuditMarks

  /** The texts one run renders: its full and compact report, its comment with and without text diffs, and the
      announcement that a campaign is superseded. */
  datatype Texts = Texts(visible: string, compact: string, update: string, updateShort: string, event: string)

  ghost predicate CleanTexts(texts: Texts) {
    && BodyFree(texts.visible) && BodyFree(texts.compact)
    && CommentFree(texts.update) && CommentFree(texts.updateShort) && CommentFree(texts.event)
  }

  // ----- Bodies -----

  function Intro(visible: string): string { MANAGED_START + ("\n" + visible + "\n\n") }

  const OUTRO: string := "\n" + MANAGED_END

  function Region(visible: string, json: string): string {
    Intro(visible) + (STATE_OPEN + json + "\n-->") + OUTRO
  }

  function ManagedText(visible: string, s: State): string { Region(visible, Print(StateJson(s))) }

  /** `replace_managed`: text outside the managed region is kept; a body without one gets it appended. */
  function ReplaceManaged(body: string, managed: string): Result<string> {
    match ManagedSpan(body)
    case Err(e) => Err(e)
    case Ok(None) => Ok(if body == "" then managed else RStrip(body) + "\n\n" + managed)
    case Ok(Some(span)) => Ok(body[..span.0] + managed + body[span.1..])
  }

  /** `managed_body`: the full report when it fits, the compact one when only that fits. */
  function ManagedBody(body: string, texts: Texts, s: State, limits: Limits): (r: Result<string>)
    ensures r.Ok? ==> Utf8Size(r.value) <= limits.issueBody
  {
    var full :- ReplaceManaged(body, ManagedText(texts.visible, s));
    if Utf8Size(full) <= limits.issueBody then Ok(full)
    else
      var compact :- ReplaceManaged(body, ManagedText(texts.compact, s));
      if Utf8Size(compact) <= limits.issueBody then Ok(compact) else Err(TooLarge)
  }

  const VOLATILE: seq<string> := ["- Generated at: ", "- Workflow run: ", "- Generated: ", "- Spec lock: ",
                                  "Complete workflow artifact: "]

  predicate IsVolatile(line: string) {
    exists i | 0 <= i < |VOLATILE| :: StartsWith(line, VOLATILE[i])
  }

  /** `STATE_RE.sub` with a constant replacement. */
  function WithoutState(text: string, from: nat): string
    requires from <= |text|
    decreases |text| - from
  {
    match FindMarker(STATE_OPEN, text, from)
    case None => text[from..]
    case Some(found) => text[from..found.start] + "<!-- fls-audit:state -->" + WithoutState(text, found.end)
  }

  predicate IsLineEnd(c: char) {
    c in "\n\r" || '\U{0B}' <= c <= '\U{0C}' || '\U{1C}' <= c <= '\U{1E}' || c == '\U{85}' ||
    '\U{2028}' <= c <= '\U{2029}'
  }

  /** `text.splitlines()`, given the line that has been read so far. */
  function SplitLines(text: string, line: string): seq<string> {
    if text == "" then (if line == "" then [] else [line])
    else if text[0] == '\r' && |text| > 1 && text[1] == '\n' then [line] + SplitLines(text[2..], "")
    else if IsLineEnd(text[0]) then [line] + SplitLines(text[1..], "")
    else SplitLines(text[1..], line + [text[0]])
  }

  function KeepStable(lines: seq<string>): seq<string> {
    if lines == [] then []
    else (if IsVolatile(lines[0]) then [] else [lines[0]]) + KeepStable(lines[1..])
  }

  /** `comparable_managed_body`: the lines of the managed region that matter when nothing else changed. */
  function ComparableBody(body: string): Result<seq<string>> {
    match ManagedSpan(body)
    case Err(e) => Err(e)
    case Ok(None) => Err(Malformed)
    case Ok(Some(span)) => Ok(KeepStable(SplitLines(WithoutState(body[span.0..span.1], 0), "")))
  }

  // ----- What a rendered body contains -----

  /** `body` is a managed region for a state printed as `json`, with some free text around it. */
  ghost predicate RenderedAs(body: string, pre: string, visible: string, json: string, post: string) {
    && body == pre + Region(visible, json) + post
    && BodyFree(pre) && BodyFree(visible) && RegionFree(json) && BodyFree(post)
    && Braced(json)
  }

  ghost predicate Carries(body: string, s: State) {
    ValidState(s) && exists pre, visible, post :: RenderedAs(body, pre, visible, Print(StateJson(s)), post)
  }

  lemma Regroup(a: string, b: string, c: string)
    ensures a + (b + c) == a + b + c
  {
  }

  /** A rendered body behind its start marker, and behind the opening of its state marker. */
  function BehindStart(visible: string, json: string, post: string): string {
    "\n" + (visible + ("\n\n" + (STATE_OPEN + BehindState(json, post))))
  }

  function BehindState(json: string, post: string): string { json + ("\n-->\n" + (MANAGED_END + post)) }

  /** A rendered body, cut at its markers. */
  lemma BodyInPieces(pre: string, visible: string, json: string, post: string)
    ensures pre + Region(visible, json) + post == pre + (MANAGED_START + BehindStart(visible, json, post))
  {
    var y := STATE_OPEN + BehindState(json, post);
    StatePiece(STATE_OPEN, json, MANAGED_END, post);
    StartPiece(MANAGED_START, visible, y);
    Regroup(Intro(visible), STATE_OPEN + json + "\n-->", OUTRO);
    Regroup(Intro(visible), (STATE_OPEN + json + "\n-->") + OUTRO, post);
    Regroup(pre, Region(visible, json), post);
  }

  lemma StatePiece(opening: string, json: string, end: string, post: string)
    ensures (opening + json + "\n-->") + ("\n" + end) + post == opening + (json + ("\n-->\n" + (end + post)))
  {
    Regroup(opening, json, "\n-->");
    assert "\n-->" + ("\n" + end) + post == "\n-->\n" + (end + post);
    Regroup(opening + json, "\n-->", "\n" + end);
    Regroup(opening + json, "\n-->" + ("\n" + end), post);
    Regroup(opening, json, "\n-->\n" + (end + post));
  }

  lemma StartPiece(opening: string, visible: string, y: string)
    ensures (opening + ("\n" + visible + "\n\n")) + y == opening + ("\n" + (visible + ("\n\n" + y)))
  {
    Regroup(opening, "\n" + visible + "\n\n", y);
    Regroup("\n" + visible, "\n\n", y);
    Regroup("\n", visible, "\n\n" + y);
  }

  /** The position of the state marker, and of the end of the region, in a rendered body. */
  function StateAt(pre: string, visible: string): nat { |pre| + |MANAGED_START| + 1 + |visible| + 2 }

  function EndAt(pre: string, visible: string, json: string): nat {
    StateAt(pre, visible) + |STATE_OPEN| + |json| + 5
  }

  lemma MarkersHaveOneBracket()
    ensures OneBracket(MANAGED_START) && OneBracket(STATE_OPEN) && OneBracket(MANAGED_END)
  {
    BoundariesOpen();
    StateOpens();
    hide IsOpening;
    assert MANAGED_START + "" == MANAGED_START && MANAGED_END + "" == MANAGED_END;
    hide OneBracket;
    HasOneBracket(MANAGED_START, "");
    HasOneBracket(MANAGED_END, "");
    HasOneBracket(STATE_OPEN, "{");
  }

  /** A marker occurs in a rendered body only where one of its markers starts. */
  lemma MarkerSpots(n: string, t: string, pre: string, visible: string, json: string, post: string, i: nat)
    requires RenderedAs(t, pre, visible, json, post) && OccursAt(n, t, i)
    requires n in {MANAGED_START, MANAGED_END, STATE_START}
    ensures i == |pre| || i == StateAt(pre, visible) || i == EndAt(pre, visible, json)
  {
    BoundariesOpen();
    StateOpens();
    MarkersHaveOneBracket();
    BodyInPieces(pre, visible, json, post);
    assert Absent(n, pre) && Absent(n, visible) && Absent(n, post);
    assert Absent(n, json) by { if n == STATE_START { CharAbsent(n, json, |n| - 2); } }
    hide OccursAt;
    hide Region;
    hide IsOpening;
    hide OneBracket;
    hide RenderedAs;
    hide BehindStart;
    if i != |pre| {
      RepelsMarker(MANAGED_START, BehindStart(visible, json, post));
      OccursBehind(n, pre, MANAGED_START + BehindStart(visible, json, post), i);
      PastMarker(n, MANAGED_START, BehindStart(visible, json, post), i - |pre|);
      SpotsBehind(n, visible, STATE_OPEN, json, MANAGED_END, post, i - |pre| - |MANAGED_START|);
    }
  }

  lemma RepelsMarker(m: string, rest: string)
    requires m in {MANAGED_START, MANAGED_END, STATE_OPEN}
    ensures Repels(m + rest)
  {
  }

  lemma SpotsBehind(n: string, visible: string, opening: string, json: string, end: string, post: string, i: nat)
    requires IsOpening(n) && Absent(n, visible) && Absent(n, json) && Absent(n, post)
    requires OneBracket(opening) && OneBracket(end)
    requires OccursAt(n, "\n" + (visible + ("\n\n" + (opening + (json + ("\n-->\n" + (end + post)))))), i)
    ensures i == 3 + |visible| || i == 3 + |visible| + |opening| + |json| + 5
  {
    hide OccursAt;
    hide IsOpening;
    hide OneBracket;
    var z := json + ("\n-->\n" + (end + post));
    OccursPast(n, "\n", visible + ("\n\n" + (opening + z)), i);
    OccursBehind(n, visible, "\n\n" + (opening + z), i - 1);
    OccursPast(n, "\n\n", opening + z, i - 1 - |visible|);
    if i != 3 + |visible| {
      var j: nat := i - 3 - |visible|;
      PastMarker(n, opening, z, j);
      OccursBehind(n, json, "\n-->\n" + (end + post), j - |opening|);
      OccursPast(n, "\n-->\n", end + post, j - |opening| - |json|);
      if j != |opening| + |json| + 5 {
        PastMarker(n, end, post, j - |opening| - |json| - 5);
        assert false;
      }
    }
  }

  lemma OccursLeft(needle: string, a: string, b: string, i: nat)
    requires OccursAt(needle, a, i)
    ensures OccursAt(needle, a + b, i)
  {
    assert (a + b)[i..i + |needle|] == a[i..i + |needle|];
  }

  lemma OccursRight(needle: string, a: string, b: string, i: nat)
    requires OccursAt(needle, b, i)
    ensures OccursAt(needle, a + b, |a| + i)
  {
    assert (a + b)[|a| + i..|a| + i + |needle|] == b[i..i + |needle|];
  }

  lemma OccursItself(needle: string)
    ensures OccursAt(needle, needle, 0)
  {
  }

  lemma StartPresent(t: string, pre: string, visible: string, json: string, post: string)
    requires t == pre + Region(visible, json) + post
    ensures OccursAt(MANAGED_START, t, |pre|)
  {
    var a, b := Intro(visible), (STATE_OPEN + json + "\n-->");
    OccursItself(MANAGED_START);
    OccursLeft(MANAGED_START, MANAGED_START, "\n" + visible + "\n\n", 0);
    hide OccursAt;
    OccursLeft(MANAGED_START, a, b, 0);
    OccursLeft(MANAGED_START, a + b, OUTRO, 0);
    InRegion(MANAGED_START, pre, a + b + OUTRO, post, 0);
  }

  lemma StatePresent(t: string, pre: string, visible: string, json: string, post: string)
    requires t == pre + Region(visible, json) + post && Braced(json)
    ensures OccursAt(STATE_START, t, StateAt(pre, visible))
  {
    var a, b := Intro(visible), STATE_OPEN + json + "\n-->";
    assert OccursAt(STATE_START, b, 0) by { assert b[..|STATE_START|] == STATE_START; }
    hide OccursAt;
    OccursRight(STATE_START, a, b, 0);
    OccursLeft(STATE_START, a + b, OUTRO, |a|);
    InRegion(STATE_START, pre, a + b + OUTRO, post, |a|);
  }

  lemma EndPlace(t: string, pre: string, visible: string, json: string, post: string)
    requires t == pre + Region(visible, json) + post
    ensures EndAt(pre, visible, json) + |MANAGED_END| + |post| == |t|
    ensures EndAt(pre, visible, json) == |pre| + (|Intro(visible) + (STATE_OPEN + json + "\n-->")| + 1)
  {
  }

  lemma EndPresent(t: string, pre: string, visible: string, json: string, post: string)
    requires t == pre + Region(visible, json) + post
    ensures EndAt(pre, visible, json) + |MANAGED_END| + |post| == |t|
    ensures OccursAt(MANAGED_END, t, EndAt(pre, visible, json))
  {
    EndPlace(t, pre, visible, json, post);
    var ab := Intro(visible) + (STATE_OPEN + json + "\n-->");
    OccursItself(MANAGED_END);
    OccursRight(MANAGED_END, "\n", MANAGED_END, 0);
    hide OccursAt;
    hide Intro;
    hide EndAt;
    OccursRight(MANAGED_END, ab, OUTRO, 1);
    InRegion(MANAGED_END, pre, ab + OUTRO, post, |ab| + 1);
  }

  lemma InRegion(needle: string, pre: string, m: string, post: string, i: nat)
    requires OccursAt(needle, m, i)
    ensures OccursAt(needle, pre + m + post, |pre| + i)
  {
    OccursRight(needle, pre, m, i);
    OccursLeft(needle, pre + m, post, |pre| + i);
  }

  /** A body's three markers. */
  ghost predicate ThreeMarkers(t: string, p: nat, q: nat, e: nat) {
    && OccursAt(MANAGED_START, t, p) && OccursAt(STATE_START, t, q) && OccursAt(MANAGED_END, t, e)
  }

  /** The three markers differ, so that each occurs in only one of the places. */
  lemma MarkersApart(t: string, p: nat, q: nat, e: nat)
    requires ThreeMarkers(t, p, q, e)
    ensures !OccursAt(MANAGED_START, t, q) && !OccursAt(MANAGED_START, t, e)
    ensures !OccursAt(STATE_START, t, p) && !OccursAt(STATE_START, t, e)
    ensures !OccursAt(MANAGED_END, t, p) && !OccursAt(MANAGED_END, t, q)
  {
    var d := |LEAD| + |MARK|;
    assert MANAGED_START[d] == 'm' && STATE_START[d] == 's' && MANAGED_END[d] == 'm';
    assert MANAGED_START[d + 8] == 's' && MANAGED_END[d + 8] == 'e';
    hide OccursAt;
    OccurApart(STATE_START, MANAGED_START, t, q, d);
    OccurApart(MANAGED_END, MANAGED_START, t, e, d + 8);
    OccurApart(MANAGED_START, STATE_START, t, p, d);
    OccurApart(MANAGED_END, STATE_START, t, e, d);
    OccurApart(MANAGED_START, MANAGED_END, t, p, d + 8);
    OccurApart(STATE_START, MANAGED_END, t, q, d);
  }

  /** A rendered body contains each of its markers once. */
  lemma MarkersOnce(t: string, pre: string, visible: string, json: string, post: string)
    requires RenderedAs(t, pre, visible, json, post)
    ensures OccursOnlyAt(MANAGED_START, t, |pre|)
    ensures OccursOnlyAt(STATE_START, t, StateAt(pre, visible))
    ensures OccursOnlyAt(MANAGED_END, t, EndAt(pre, visible, json))
    ensures EndAt(pre, visible, json) + |MANAGED_END| + |post| == |t|
  {
    StartPresent(t, pre, visible, json, post);
    StatePresent(t, pre, visible, json, post);
    EndPresent(t, pre, visible, json, post);
    hide OccursAt;
    hide RenderedAs;
    MarkersApart(t, |pre|, StateAt(pre, visible), EndAt(pre, visible, json));
    forall i: nat | OccursAt(MANAGED_START, t, i) ensures i == |pre| {
      MarkerSpots(MANAGED_START, t, pre, visible, json, post, i);
    }
    forall i: nat | OccursAt(STATE_START, t, i) ensures i == StateAt(pre, visible) {
      MarkerSpots(STATE_START, t, pre, visible, json, post, i);
    }
    forall i: nat | OccursAt(MANAGED_END, t, i) ensures i == EndAt(pre, visible, json) {
      MarkerSpots(MANAGED_END, t, pre, visible, json, post, i);
    }
  }

  lemma SpanOfRendered(t: string, pre: string, visible: string, json: string, post: string)
    requires RenderedAs(t, pre, visible, json, post)
    ensures ManagedSpan(t) == Ok(Some((|pre|, |t| - |post|)))
  {
    MarkersOnce(t, pre, visible, json, post);
    FoundOnce(MANAGED_START, t, |pre|);
    FoundOnce(MANAGED_END, t, EndAt(pre, visible, json));
  }

  lemma AroundState(pre: string, a: string, o: string, json: string, close: string, e: string, post: string)
    ensures pre + (a + (o + json + close) + e) + post == (pre + a) + o + json + (close + (e + post))
  {
    Regroup(o + json, close, e + post);
    Regroup(pre + a, o + json, close + (e + post));
    Regroup(pre + a, o, json);
    Regroup(pre, a, (o + json + close) + (e + post));
    Regroup(o + json + close, e, post);
    Regroup(a, o + json + close, e + post);
    Regroup(a + (o + json + close), e, post);
    Regroup(pre, a + (o + json + close) + e, post);
  }

  lemma StateFound(t: string, pre: string, visible: string, json: string, post: string)
    requires RenderedAs(t, pre, visible, json, post)
    ensures var start := StateAt(pre, visible);
            var end := start + |STATE_OPEN| + |json| + 4;
            && FindMarker(STATE_OPEN, t, 0) == Some(Match(start, json, end))
            && FindMarker(STATE_OPEN, t, end) == None
  {
    MarkersOnce(t, pre, visible, json, post);
    AroundState(pre, Intro(visible), STATE_OPEN, json, "\n-->", OUTRO, post);
    MarkerFound(t, pre + Intro(visible), STATE_OPEN, json, OUTRO + post);
  }

  lemma ParseFound(t: string, limits: Limits, found: Match, span: (nat, nat), s: State)
    requires Utf8Size(t) <= limits.issueBody
    requires FindMarker(STATE_OPEN, t, 0) == Some(found) && FindMarker(STATE_OPEN, t, found.end) == None
    requires ManagedSpan(t) == Ok(Some(span)) && span.0 < found.start && found.end < span.1
    requires ReadState(found.json) == Ok(s)
    ensures ParseState(t, limits) == Ok(Some(s))
  {
  }

  lemma ParseRendered(t: string, pre: string, visible: string, json: string, post: string, limits: Limits, s: State)
    requires RenderedAs(t, pre, visible, json, post) && Utf8Size(t) <= limits.issueBody
    requires ReadState(json) == Ok(s)
    ensures ParseState(t, limits) == Ok(Some(s))
  {
    hide ParseState;
    hide FindMarker;
    hide ManagedSpan;
    hide ReadState;
    hide OccursAt;
    StateFound(t, pre, visible, json, post);
    SpanOfRendered(t, pre, visible, json, post);
    MarkersOnce(t, pre, visible, json, post);
    var start := StateAt(pre, visible);
    ParseFound(t, limits, Match(start, json, start + |STATE_OPEN| + |json| + 4), (|pre|, |t| - |post|), s);
  }

  /** The parser reads back the state that was rendered. */
  lemma ParseCarried(body: string, s: State, limits: Limits)
    requires Carries(body, s) && Utf8Size(body) <= limits.issueBody
    ensures ParseState(body, limits) == Ok(Some(s))
  {
    var pre, visible, post :| RenderedAs(body, pre, visible, Print(StateJson(s)), post);
    ReadStateBack(s);
    ParseRendered(body, pre, visible, Print(StateJson(s)), post, limits, s);
  }

  // ----- Replacing the region -----

  /** Only the managed region changes; the text before and after it is kept. */
  lemma ReplaceRendered(t: string, pre: string, visible: string, json: string, post: string, managed: string)
    requires RenderedAs(t, pre, visible, json, post)
    ensures ReplaceManaged(t, managed) == Ok(pre + managed + post)
  {
    SpanOfRendered(t, pre, visible, json, post);
    var region := Region(visible, json);
    assert t[..|pre|] == pre;
    assert t[|t| - |post|..] == post;
  }

  lemma NothingInEmpty(n: string)
    requires n != ""
    ensures Absent(n, "")
  {
  }

  lemma ReplaceEmpty(managed: string)
    ensures ReplaceManaged("", managed) == Ok(managed)
  {
  }

  /** A body that may be rendered onto: empty, or one that carries a state. */
  ghost predicate Renderable(body: string) {
    body == "" || exists s :: Carries(body, s)
  }

  /** The free text that a rendering keeps around the managed region. */
  lemma Surroundings(body: string) returns (pre: string, post: string)
    requires Renderable(body)
    ensures BodyFree(pre) && BodyFree(post)
    ensures forall managed :: ReplaceManaged(body, managed) == Ok(pre + managed + post)
  {
    if body == "" {
      pre, post := "", "";
      NothingInEmpty(MANAGED_START);
      NothingInEmpty(MANAGED_END);
      NothingInEmpty(STATE_START);
      forall managed ensures ReplaceManaged(body, managed) == Ok(pre + managed + post) {
        ReplaceEmpty(managed);
        assert pre + managed + post == managed;
      }
    } else {
      var s :| Carries(body, s);
      var a, visible, b :| RenderedAs(body, a, visible, Print(StateJson(s)), b);
      forall managed ensures ReplaceManaged(body, managed) == Ok(a + managed + b) {
        ReplaceRendered(body, a, visible, Print(StateJson(s)), b, managed);
      }
      pre, post := a, b;
    }
  }

  /** No string in the items of a state holds a boundary of the managed region. */
  ghost predicate CleanApplied(a: Applied) {
    forall k :: k in a.items ==>
      RegionFree(k) && JsonFree(MANAGED_START, a.items[k]) && JsonFree(MANAGED_END, a.items[k])
  }

  lemma CarriedByRegion(pre: string, visible: string, s: State, post: string)
    requires BodyFree(pre) && BodyFree(visible) && BodyFree(post)
    requires ValidState(s) && CleanApplied(s.applied)
    ensures Carries(pre + ManagedText(visible, s) + post, s)
  {
    StateClean(s);
    ObjectIsBraced(StateJson(s).fields);
    assert RenderedAs(pre + ManagedText(visible, s) + post, pre, visible, Print(StateJson(s)), post);
  }

  /** A managed body carries the state it was rendered for. */
  lemma ManagedBodyCarries(body: string, texts: Texts, s: State, limits: Limits)
    requires Renderable(body) && CleanTexts(texts) && ValidState(s) && CleanApplied(s.applied)
    requires ManagedBody(body, texts, s, limits).Ok?
    ensures Carries(ManagedBody(body, texts, s, limits).value, s)
  {
    var pre, post := Surroundings(body);
    CarriedByRegion(pre, texts.visible, s, post);
    CarriedByRegion(pre, texts.compact, s, post);
  }

  /** The only way to fail is that even the compact report does not fit. */
  lemma ManagedBodyFails(body: string, texts: Texts, s: State, limits: Limits)
    requires Renderable(body)
    ensures ManagedBody(body, texts, s, limits).Err? ==> ManagedBody(body, texts, s, limits).error == TooLarge
  {
    var pre, post := Surroundings(body);
  }

  /** Rendering again changes nothing: the managed region is a fixed point. */
  lemma ManagedBodyFixedPoint(body: string, texts: Texts, s: State, limits: Limits)
    requires Renderable(body) && CleanTexts(texts) && ValidState(s) && CleanApplied(s.applied)
    requires ManagedBody(body, texts, s, limits).Ok?
    ensures var b := ManagedBody(body, texts, s, limits).value;
            ManagedBody(b, texts, s, limits) == Ok(b)
  {
    var pre, post := Surroundings(body);
    var b := ManagedBody(body, texts, s, limits).value;
    var full, compact := ManagedText(texts.visible, s), ManagedText(texts.compact, s);
    var chosen := if b == pre + full + post then texts.visible else texts.compact;
    CarriedByRegion(pre, chosen, s, post);
    StateClean(s);
    ObjectIsBraced(StateJson(s).fields);
    assert RenderedAs(b, pre, chosen, Print(StateJson(s)), post);
    ReplaceRendered(b, pre, chosen, Print(StateJson(s)), post, full);
    ReplaceRendered(b, pre, chosen, Print(StateJson(s)), post, compact);
  }

  // ----- Comments -----

  function Comment(lines: string, m: Marker): string { lines + "\n" + BatchMarker(m) }

  /** `transition_comment`: with text diffs when that fits, without them otherwise. */
  function TransitionComment(texts: Texts, m: Marker, limits: Limits): (r: Result<string>)
    ensures r.Ok? ==> Utf8Size(r.value) <= limits.comment
    ensures r.Ok? ==> r.value == Comment(texts.update, m) || r.value == Comment(texts.updateShort, m)
    ensures r.Err? ==> r.error == TooLarge
  {
    var full, short := Comment(texts.update, m), Comment(texts.updateShort, m);
    if Utf8Size(full) <= limits.comment then Ok(full)
    else if Utf8Size(short) <= limits.comment then Ok(short)
    else Err(TooLarge)
  }

  /** `event_comment`: nothing checks its size. */
  function EventComment(texts: Texts, campaign: string, value: string): string {
    Comment(texts.event, Marker(value, campaign, 0, None))
  }

  lemma ParseJsonComment(lines: string, json: string, m: Marker, limits: Limits)
    requires CommentFree(lines) && Braced(json) && ReadMarker(json) == Ok(m)
    requires Utf8Size(lines + "\n" + (BATCH_OPEN + json + "\n-->")) <= limits.comment
    ensures ParseMarker(lines + "\n" + (BATCH_OPEN + json + "\n-->"), limits) == Ok(Some(m))
  {
    var t := lines + "\n" + (BATCH_OPEN + json + "\n-->");
    CommentMark(lines, json);
    assert t == lines + "\n" + BATCH_OPEN + json + "\n-->";
    assert "\n-->" + "" == "\n-->";
    MarkerFound(t, lines + "\n", BATCH_OPEN, json, "");
  }

  /** The parser reads back the marker that a comment was written with, exactly when the comment fits. */
  lemma ParseComment(lines: string, m: Marker, limits: Limits)
    requires CommentFree(lines) && ValidMarker(m)
    ensures ParseMarker(Comment(lines, m), limits) ==
      if Utf8Size(Comment(lines, m)) <= limits.comment then Ok(Some(m)) else Err(TooLarge)
  {
    if Utf8Size(Comment(lines, m)) <= limits.comment {
      ObjectIsBraced(MarkerJson(m).fields);
      ReadMarkerBack(m);
      ParseJsonComment(lines, Print(MarkerJson(m)), m, limits);
    }
  }

  // ----- Printed states hold no boundary -----

  lemma DigestFree(n: string, s: string)
    requires IsOpening(n) && IsDigest(s)
    ensures Absent(n, s)
  {
    assert s == DIGEST_PREFIX + s[|DIGEST_PREFIX|..];
    NoBracketAbsent(n, s);
  }

  lemma FourFree(n: string, a: Field, b: Field, c: Field, d: Field)
    requires IsOpening(n) && '<' !in a.key && '<' !in b.key && '<' !in c.key && '<' !in d.key
    requires JsonFree(n, a.value) && JsonFree(n, b.value) && JsonFree(n, c.value) && JsonFree(n, d.value)
    ensures JsonFree(n, Obj([a, b, c, d]))
  {
    NoBracketAbsent(n, a.key);
    NoBracketAbsent(n, b.key);
    NoBracketAbsent(n, c.key);
    NoBracketAbsent(n, d.key);
  }

  lemma FiveFree(n: string, a: Field, b: Field, c: Field, d: Field, e: Field)
    requires IsOpening(n) && '<' !in a.key && '<' !in b.key && '<' !in c.key && '<' !in d.key && '<' !in e.key
    requires JsonFree(n, a.value) && JsonFree(n, b.value) && JsonFree(n, c.value) && JsonFree(n, d.value)
    requires JsonFree(n, e.value)
    ensures JsonFree(n, Obj([a, b, c, d, e]))
  {
    NoBracketAbsent(n, a.key);
    NoBracketAbsent(n, b.key);
    NoBracketAbsent(n, c.key);
    NoBracketAbsent(n, d.key);
    NoBracketAbsent(n, e.key);
  }

  lemma AppliedFree(n: string, a: Applied)
    requires IsOpening(n) && ValidApplied(a) && forall k :: k in a.items ==> Absent(n, k) && JsonFree(n, a.items[k])
    ensures JsonFree(n, AppliedJson(a))
  {
    DigestFree(n, a.semanticDigest);
    DigestFree(n, a.bodyDigest);
    NoBracketAbsent(n, a.commit);
    SortedFieldsFree(n, a.items);
    hide IsOpening;
    hide Absent;
    FourFree(n, Field("body_digest", Str(a.bodyDigest)), Field("current_commit", Str(a.commit)),
             Field("items", ItemsJson(a.items)), Field("semantic_digest", Str(a.semanticDigest)));
  }

  lemma StateFree(n: string, s: State)
    requires IsOpening(n) && ValidState(s)
    requires forall k :: k in s.applied.items ==> Absent(n, k) && JsonFree(n, s.applied.items[k])
    ensures JsonFree(n, StateJson(s))
  {
    hide IsOpening;
    hide AppliedJson;
    hide Absent;
    AppliedFree(n, s.applied);
    DigestFree(n, s.campaign);
    DigestFree(n, s.origin);
    FiveFree(n, Field("applied", AppliedJson(s.applied)), Field("campaign", Str(s.campaign)),
             Field("origin_semantic_digest", Str(s.origin)), Field("sequence", Int(s.sequence)),
               Field("version", Int(1)));
  }

  lemma StateClean(s: State)
    requires ValidState(s) && CleanApplied(s.applied)
    ensures RegionFree(Print(StateJson(s)))
  {
    hide ValidState;
    hide StateJson;
    AreBoundaries();
    StateFree(MANAGED_START, s);
    StateFree(MANAGED_END, s);
    PrintFree(MANAGED_START, StateJson(s));
    PrintFree(MANAGED_END, StateJson(s));
  }
}
