/** Which report an issue body shows, and which of its lines matter (scripts/fls_audit_issue_lib/render.py, lines 18-37
    and 96-113). */
module AuditReports {
  import opened Strings
  import opened Json
  import opened AuditState
  import opened AuditMarks
  import opened AuditRender
  import AuditParsing

  // ----- Lines -----

  /** The characters at which Python ends a line. */
  const LINE_ENDS: string :=
    "\n\r\U{000B}\U{000C}\U{001C}\U{001D}\U{001E}\U{0085}\U{2028}\U{2029}"

  lemma IsLineEndExactly(c: char)
    ensures IsLineEnd(c) <==> c in LINE_ENDS
  {
    if IsLineEnd(c) {
      var n := c as int;
      assert n in {0x0A, 0x0D, 0x0B, 0x0C, 0x1C, 0x1D, 0x1E, 0x85, 0x2028, 0x2029};
      assert c == n as char;
    }
  }

  predicate OneLine(line: string) { forall c | c in line :: !IsLineEnd(c) }

  /** No line holds a line end. */
  lemma {:induction false} LinesHoldNoEnd(text: string, line: string)
    requires OneLine(line)
    ensures forall l :: l in SplitLines(text, line) ==> OneLine(l)
    decreases |text|
  {
    if text != "" {
      if text[0] == '\r' && |text| > 1 && text[1] == '\n' {
        LinesHoldNoEnd(text[2..], "");
      } else if IsLineEnd(text[0]) {
        LinesHoldNoEnd(text[1..], "");
      } else {
        LinesHoldNoEnd(text[1..], line + [text[0]]);
      }
    }
  }

  lemma EndStep(c: char, rest: string, read: string)
    requires IsLineEnd(c) && !(c == '\r' && rest != "" && rest[0] == '\n')
    ensures SplitLines([c] + rest, read) == [read] + SplitLines(rest, "")
  {
    assert ([c] + rest)[1..] == rest;
  }

  lemma FeedStep(rest: string, read: string)
    ensures SplitLines("\r\n" + rest, read) == [read] + SplitLines(rest, "")
  {
    assert ("\r\n" + rest)[2..] == rest;
  }

  lemma CharStep(c: char, rest: string, read: string)
    requires !IsLineEnd(c)
    ensures SplitLines([c] + rest, read) == SplitLines(rest, read + [c])
  {
    assert ([c] + rest)[1..] == rest;
  }

  lemma {:induction false} ReadLine(line: string, rest: string, read: string)
    requires OneLine(line)
    ensures SplitLines(line + rest, read) == SplitLines(rest, read + line)
    decreases |line|
  {
    hide SplitLines;
    hide IsLineEnd;
    if line == "" {
      assert line + rest == rest && read + line == read;
    } else {
      var tail := line[1..];
      assert line[0] in line;
      CharStep(line[0], tail + rest, read);
      assert [line[0]] + (tail + rest) == line + rest;
      ReadLine(tail, rest, read + [line[0]]);
      assert read + [line[0]] + tail == read + line;
    }
  }

  /** A line is what stands before a line end, and a carriage return with a line feed is one end. */
  lemma LineEnds(line: string, rest: string)
    requires OneLine(line)
    ensures forall c :: c in LINE_ENDS && !(c == '\r' && rest != "" && rest[0] == '\n') ==>
      SplitLines(line + ([c] + rest), "") == [line] + SplitLines(rest, "")
    ensures SplitLines(line + ("\r\n" + rest), "") == [line] + SplitLines(rest, "")
    ensures SplitLines(line, "") == if line == "" then [] else [line]
  {
    assert "" + line == line;
    forall c | c in LINE_ENDS && !(c == '\r' && rest != "" && rest[0] == '\n')
      ensures SplitLines(line + ([c] + rest), "") == [line] + SplitLines(rest, "")
    {
      IsLineEndExactly(c);
      ReadLine(line, [c] + rest, "");
      EndStep(c, rest, line);
    }
    ReadLine(line, "\r\n" + rest, "");
    FeedStep(rest, line);
    ReadLine(line, "", "");
    assert line + "" == line;
  }

  /** Text behind a line feed is split by itself. */
  lemma {:induction false} SplitBehindFeed(x: string, y: string, read: string)
    requires x != "" && x[|x| - 1] == '\n'
    ensures SplitLines(x + y, read) == SplitLines(x, read) + SplitLines(y, "")
    decreases |x|
  {
    hide SplitLines;
    hide IsLineEnd;
    var c, t := x[0], x[1..];
    assert x == [c] + t && x + y == [c] + (t + y);
    if |x| == 1 {
      assert IsLineEnd('\n') by { IsLineEndExactly('\n'); }
      EndStep(c, y, read);
      EndStep(c, "", read);
      assert [c] + "" == x && t + y == y;
      assert SplitLines("", "") == [] by { LineEnds("", ""); }
    } else if c == '\r' && t[0] == '\n' {
      var u := t[1..];
      assert x == "\r\n" + u && x + y == "\r\n" + (u + y);
      FeedStep(u, read);
      FeedStep(u + y, read);
      if u != "" {
        SplitBehindFeed(u, y, "");
      } else {
        assert u + y == y;
        assert SplitLines("", "") == [] by { LineEnds("", ""); }
      }
    } else {
      assert (t + y)[0] == t[0];
      if IsLineEnd(c) {
        EndStep(c, t, read);
        EndStep(c, t + y, read);
        SplitBehindFeed(t, y, "");
      } else {
        CharStep(c, t, read);
        CharStep(c, t + y, read);
        SplitBehindFeed(t, y, read + [c]);
      }
    }
  }

  // ----- The lines that matter -----

  /** The lines that may change without a patch: those that say when and from what a report was generated. */
  lemma VolatileExactly(line: string)
    ensures IsVolatile(line) <==>
      exists rest ::
        || line == "- Generated at: " + rest || line == "- Workflow run: " + rest || line == "- Generated: " + rest
        || line == "- Spec lock: " + rest || line == "Complete workflow artifact: " + rest
  {
    if IsVolatile(line) {
      var i :| 0 <= i < |VOLATILE| && StartsWith(line, VOLATILE[i]);
      assert line == VOLATILE[i] + line[|VOLATILE[i]|..];
    }
    if rest :|
      || line == "- Generated at: " + rest || line == "- Workflow run: " + rest || line == "- Generated: " + rest
      || line == "- Spec lock: " + rest || line == "Complete workflow artifact: " + rest
    {
      assert StartsWith(line, VOLATILE[0]) || StartsWith(line, VOLATILE[1]) || StartsWith(line, VOLATILE[2])
          || StartsWith(line, VOLATILE[3]) || StartsWith(line, VOLATILE[4]);
    }
  }

  lemma {:induction false} StableConcat(a: seq<string>, b: seq<string>)
    ensures KeepStable(a + b) == KeepStable(a) + KeepStable(b)
    decreases |a|
  {
    hide IsVolatile;
    if a == [] {
      assert a + b == b;
    } else {
      assert (a + b)[1..] == a[1..] + b;
      StableConcat(a[1..], b);
    }
  }

  /** Changing one line goes unnoticed exactly when it is volatile before and after. */
  lemma LineMatters(before: seq<string>, x: string, y: string, after: seq<string>)
    ensures KeepStable(before + [x] + after) == KeepStable(before + [y] + after) <==>
            x == y || (IsVolatile(x) && IsVolatile(y))
  {
    hide IsVolatile;
    StableConcat(before + [x], after);
    StableConcat(before + [y], after);
    StableConcat(before, [x]);
    StableConcat(before, [y]);
    var p, q := KeepStable(before), KeepStable(after);
    var kx, ky := KeepStable([x]), KeepStable([y]);
    assert [x][1..] == [] && [y][1..] == [];
    assert kx == (if IsVolatile(x) then [] else [x]) && ky == (if IsVolatile(y) then [] else [y]);
    CancelAround(p, kx, ky, q);
  }

  lemma CancelAround<T>(p: seq<T>, x: seq<T>, y: seq<T>, q: seq<T>)
    ensures p + x + q == p + y + q <==> x == y
  {
    if p + x + q == p + y + q {
      assert |x| == |y|;
      forall i | 0 <= i < |x| ensures x[i] == y[i] {
        assert (p + x + q)[|p| + i] == x[i] && (p + y + q)[|p| + i] == y[i];
      }
    }
  }

  /** The lines of a report that matter. */
  function StableLines(visible: string): seq<string> { KeepStable(SplitLines(visible + "\n", "")) }

  // ----- What is compared of a body -----

  const STATE_PLACE: string := "<!-- fls-audit:state -->"

  function Core(visible: string): string { Intro(visible) + STATE_PLACE + OUTRO }

  lemma WithoutStateRendered(visible: string, json: string)
    requires RenderedAs(Region(visible, json), "", visible, json, "")
    ensures WithoutState(Region(visible, json), 0) == Core(visible)
  {
    var t, start := Region(visible, json), StateAt("", visible);
    StateFound(t, "", visible, json, "");
    hide FindMarker;
    hide RenderedAs;
    var end := start + |STATE_OPEN| + |json| + 4;
    assert t[0..start] == Intro(visible);
    assert t[end..] == OUTRO;
    assert WithoutState(t, end) == OUTRO;
  }

  lemma RegionAlone(t: string, pre: string, visible: string, json: string, post: string)
    requires RenderedAs(t, pre, visible, json, post)
    ensures RenderedAs(Region(visible, json), "", visible, json, "")
  {
    NothingInEmpty(MANAGED_START);
    NothingInEmpty(MANAGED_END);
    NothingInEmpty(STATE_START);
    hide Region;
    assert "" + Region(visible, json) + "" == Region(visible, json);
  }

  /** Of a rendered body, only the report is compared: neither the state nor the text around the region. */
  lemma ComparableOfRendered(t: string, pre: string, visible: string, json: string, post: string)
    requires RenderedAs(t, pre, visible, json, post)
    ensures ComparableBody(t) == Ok(KeepStable(SplitLines(Core(visible), "")))
  {
    SpanOfRendered(t, pre, visible, json, post);
    RegionAlone(t, pre, visible, json, post);
    WithoutStateRendered(visible, json);
    assert t[|pre|..|t| - |post|] == Region(visible, json);
    hide WithoutState;
    hide ManagedSpan;
    hide KeepStable;
    hide SplitLines;
  }

  lemma ThreeParts(x: string, y: string, z: string)
    requires x != "" && x[|x| - 1] == '\n' && y != "" && y[|y| - 1] == '\n'
    ensures KeepStable(SplitLines(x + (y + z), "")) ==
            KeepStable(SplitLines(x, "")) + KeepStable(SplitLines(y, "")) + KeepStable(SplitLines(z, ""))
  {
    hide SplitLines;
    hide KeepStable;
    SplitBehindFeed(x, y + z, "");
    SplitBehindFeed(y, z, "");
    StableConcat(SplitLines(x, ""), SplitLines(y + z, ""));
    StableConcat(SplitLines(y, ""), SplitLines(z, ""));
  }

  lemma CoreInParts(start: string, visible: string, place: string)
    ensures (start + ("\n" + visible + "\n\n")) + place == (start + "\n") + ((visible + "\n") + ("\n" + place))
  {
    Regroup("\n", visible + "\n", "\n" + place);
    assert "\n" + visible + "\n\n" == ("\n" + (visible + "\n")) + "\n";
    Regroup("\n" + (visible + "\n"), "\n", place);
    Regroup(start, "\n" + visible + "\n\n", place);
    Regroup(start, "\n", (visible + "\n") + ("\n" + place));
  }

  lemma CoreLines(visible: string)
    ensures KeepStable(SplitLines(Core(visible), "")) ==
            KeepStable(SplitLines(MANAGED_START + "\n", "")) + StableLines(visible) +
            KeepStable(SplitLines("\n" + (STATE_PLACE + OUTRO), ""))
  {
    hide SplitLines;
    hide KeepStable;
    CoreInParts(MANAGED_START, visible, STATE_PLACE + OUTRO);
    Regroup(Intro(visible), STATE_PLACE, OUTRO);
    ThreeParts(MANAGED_START + "\n", visible + "\n", "\n" + (STATE_PLACE + OUTRO));
  }

  /** Two rendered bodies compare equal exactly when their reports agree on the lines that matter. */
  lemma ComparesExactly(a: string, pa: string, v: string, ja: string, qa: string,
                        b: string, pb: string, w: string, jb: string, qb: string)
    requires RenderedAs(a, pa, v, ja, qa) && RenderedAs(b, pb, w, jb, qb)
    ensures ComparableBody(a).Ok? && ComparableBody(b).Ok?
    ensures ComparableBody(a) == ComparableBody(b) <==> StableLines(v) == StableLines(w)
  {
    ComparableOfRendered(a, pa, v, ja, qa);
    ComparableOfRendered(b, pb, w, jb, qb);
    CoreLines(v);
    CoreLines(w);
    hide SplitLines;
    hide KeepStable;
    hide StableLines;
    CancelAround(KeepStable(SplitLines(MANAGED_START + "\n", "")), StableLines(v), StableLines(w),
                 KeepStable(SplitLines("\n" + (STATE_PLACE + OUTRO), "")));
  }

  // ----- Which report is written -----

  /** The text that a body has around its managed region, if it has one. */
  ghost predicate Frames(body: string, pre: string, post: string) {
    || (body == "" && pre == "" && post == "")
    || exists visible, json :: RenderedAs(body, pre, visible, json, post)
  }

  lemma FramesReplaced(body: string, pre: string, post: string, managed: string)
    requires Frames(body, pre, post)
    ensures ReplaceManaged(body, managed) == Ok(pre + managed + post)
  {
    if body == "" && pre == "" && post == "" {
      ReplaceEmpty(managed);
      assert pre + managed + post == managed;
    } else {
      var visible, json :| RenderedAs(body, pre, visible, json, post);
      ReplaceRendered(body, pre, visible, json, post, managed);
    }
  }

  /** The full report is written if and only if it fits, the compact one if and only if only that fits, and otherwise
      rendering fails. */
  lemma ManagedBodyChooses(body: string, pre: string, post: string, texts: Texts, s: State, limits: Limits)
    requires Frames(body, pre, post)
    ensures var full, compact := pre + ManagedText(texts.visible, s) + post, pre + ManagedText(texts.compact, s) + post;
            && (Utf8Size(full) <= limits.issueBody ==> ManagedBody(body, texts, s, limits) == Ok(full))
            && (Utf8Size(compact) <= limits.issueBody < Utf8Size(full) ==>
                  ManagedBody(body, texts, s, limits) == Ok(compact))
            && (ManagedBody(body, texts, s, limits).Ok? <==>
                  Utf8Size(full) <= limits.issueBody || Utf8Size(compact) <= limits.issueBody)
  {
    FramesReplaced(body, pre, post, ManagedText(texts.visible, s));
    FramesReplaced(body, pre, post, ManagedText(texts.compact, s));
  }

  /** Onto a text without a region one is appended, and but for spaces at its end the text is kept. */
  lemma RegionIsAppended(body: string, visible: string, json: string)
    requires body != "" && BodyFree(body) && BodyFree(visible) && RegionFree(json) && Braced(json)
    ensures ReplaceManaged(body, Region(visible, json)).Ok?
    ensures RenderedAs(ReplaceManaged(body, Region(visible, json)).value, RStrip(body) + "\n\n", visible, json, "")
    ensures exists spaces :: body == RStrip(body) + spaces && forall c :: c in spaces ==> IsSpace(c)
  {
    AuditParsing.NoSpanExactly(body);
    BoundariesOpen();
    StateOpens();
    StrippedIs(body);
    NothingInEmpty(MANAGED_START);
    NothingInEmpty(MANAGED_END);
    NothingInEmpty(STATE_START);
    AppendedFree(MANAGED_START, body);
    AppendedFree(MANAGED_END, body);
    AppendedFree(STATE_START, body);
    hide Region;
    hide IsOpening;
    hide ManagedSpan;
    hide Absent;
    var t := RStrip(body) + "\n\n" + Region(visible, json);
    assert t + "" == t;
  }

  lemma AppendedFree(n: string, body: string)
    requires IsOpening(n) && Absent(n, body)
    ensures Absent(n, RStrip(body) + "\n\n")
  {
    var stripped := RStrip(body);
    var rest := body[|stripped|..];
    assert body == stripped + rest;
    NoBracketAbsent(n, "\n\n");
    hide OccursAt;
    hide RStrip;
    forall i: nat ensures !OccursAt(n, stripped, i) {
      if OccursAt(n, stripped, i) { OccursLeft(n, stripped, rest, i); }
    }
    forall i: nat ensures !OccursAt(n, stripped + "\n\n", i) {
      if OccursAt(n, stripped + "\n\n", i) { OccursBehind(n, stripped, "\n\n", i); }
    }
  }

  lemma {:induction false} StrippedIs(text: string)
    ensures exists spaces :: text == RStrip(text) + spaces && forall c :: c in spaces ==> IsSpace(c)
  {
    hide IsSpace;
    if text != "" && IsSpace(text[|text| - 1]) {
      StrippedIs(text[..|text| - 1]);
      var spaces :| text[..|text| - 1] == RStrip(text) + spaces && forall c :: c in spaces ==> IsSpace(c);
      assert text == RStrip(text) + (spaces + [text[|text| - 1]]);
    } else {
      assert text == RStrip(text) + "";
    }
  }

  /** Line ends are spaces, so that none is left at the end of a stripped text. */
  lemma LineEndsAreSpaces(c: char)
    requires c in LINE_ENDS
    ensures IsSpace(c)
  {
    IsLineEndExactly(c);
  }

  /** The report that a run shows between the given texts. */
  function Chosen(pre: string, texts: Texts, s: State, post: string, limits: Limits): string {
    if Utf8Size(pre + ManagedText(texts.visible, s) + post) <= limits.issueBody then texts.visible else texts.compact
  }

  /** The body carries the state and shows the report: the full one if it fits, the compact one otherwise, on all lines
      that matter. */
  ghost predicate ShowsReport(body: string, texts: Texts, s: State, limits: Limits) {
    exists pre, visible, post ::
      && RenderedAs(body, pre, visible, Print(StateJson(s)), post)
      && StableLines(visible) == StableLines(Chosen(pre, texts, s, post, limits))
  }

  /** A body that rendering again would not change shows the report. */
  lemma StableShows(body: string, texts: Texts, s: State, limits: Limits)
    requires Carries(body, s) && CleanTexts(texts) && CleanApplied(s.applied)
    requires ManagedBody(body, texts, s, limits).Ok?
    requires ComparableBody(body) == ComparableBody(ManagedBody(body, texts, s, limits).value)
    ensures ShowsReport(body, texts, s, limits)
  {
    var pre, visible, post :| RenderedAs(body, pre, visible, Print(StateJson(s)), post);
    var json, chosen := Print(StateJson(s)), Chosen(pre, texts, s, post, limits);
    ManagedBodyChooses(body, pre, post, texts, s, limits);
    StateClean(s);
    hide ManagedBody;
    hide ComparableBody;
    hide StateJson;
    hide Region;
    hide StableLines;
    var b := pre + ManagedText(chosen, s) + post;
    assert RenderedAs(b, pre, chosen, json, post);
    ComparesExactly(body, pre, visible, json, post, b, pre, chosen, json, post);
  }

  // ----- Which comment is posted -----

  /** A transition is announced with the text changes if and only if that fits, without them if only that fits. */
  lemma TransitionCommentChooses(texts: Texts, m: Marker, limits: Limits)
    ensures var full, short := Comment(texts.update, m), Comment(texts.updateShort, m);
            && (Utf8Size(full) <= limits.comment ==> TransitionComment(texts, m, limits) == Ok(full))
            && (Utf8Size(short) <= limits.comment < Utf8Size(full) ==> TransitionComment(texts, m, limits) == Ok(short))
            && (TransitionComment(texts, m, limits).Ok? <==>
                  Utf8Size(full) <= limits.comment || Utf8Size(short) <= limits.comment)
  {
  }
}
