/** Where the markers of the audit can occur in a rendered text, and what the parsers find there. */
module AuditMarks {
  import opened Strings
  import opened Json
  import opened AuditState

  /** What the expressions for the two JSON markers start with. */
  const STATE_START: string := STATE_OPEN + "{"
  const BATCH_START: string := BATCH_OPEN + "{"

  /** Text of a body outside its markers: it holds neither a boundary of the managed region nor the start of a state. */
  predicate BodyFree(text: string) {
    !Contains(MANAGED_START, text) && !Contains(MANAGED_END, text) && !Contains(STATE_START, text)
  }

  /** Text of a comment above its marker: it does not hold the start of another one. */
  predicate CommentFree(text: string) { !Contains(BATCH_START, text) }

  /** A text that may stand in JSON in a body: it does not hold a boundary of the managed region. */
  predicate RegionFree(text: string) { !Contains(MANAGED_START, text) && !Contains(MANAGED_END, text) }

  /** The character at `d` is no `<`, and no line feed but one before a brace. */
  predicate GoesOn(n: string, d: nat)
    requires d < |n|
  {
    n[d] != '<' && (n[d] == '\n' ==> d + 1 < |n| && n[d + 1] == '{')
  }

  /** A marker starts with `<`, which it does not repeat, and goes on behind a line feed only with a brace. */
  predicate IsOpening(n: string) { |n| > 1 && n[0] == '<' && forall d | 0 < d < |n| :: GoesOn(n, d) }

  lemma OpeningWith(tail: string)
    requires forall d :: 0 <= d < |tail| ==> GoesOn(tail, d)
    ensures IsOpening(LEAD + MARK + tail)
  {
    var head := LEAD + MARK;
    assert head[0] == '<' && forall d :: 0 < d < |head| ==> head[d] != '<' && head[d] != '\n';
    var n := head + tail;
    forall d | 0 < d < |n| ensures GoesOn(n, d) {
      if d >= |head| {
        assert GoesOn(tail, d - |head|);
      } else {
        assert n[d] == head[d];
      }
    }
  }

  lemma BoundariesOpen()
    ensures IsOpening(MANAGED_START) && IsOpening(MANAGED_END)
  {
    OpeningWith(START_TAIL);
    OpeningWith(END_TAIL);
    hide IsOpening;
  }

  lemma StateOpens()
    ensures IsOpening(STATE_START) && STATE_START[|STATE_START| - 2] == '\n'
  {
    OpeningWith(STATE_TAIL + "{");
    assert LEAD + MARK + (STATE_TAIL + "{") == STATE_START;
    hide IsOpening;
  }

  lemma BatchOpens()
    ensures IsOpening(BATCH_START) && BATCH_OPEN[|BATCH_OPEN| - 1] == '\n'
  {
    OpeningWith(BATCH_TAIL + "{");
    assert LEAD + MARK + (BATCH_TAIL + "{") == BATCH_START;
    hide IsOpening;
  }

  /** A text that a marker cannot run into from before. */
  predicate Repels(text: string) {
    text == "" || text[0] == '<' || (text[0] == '\n' && |text| > 1 && text[1] != '{')
  }

  /** Behind a text without the marker it can only occur in what follows. */
  lemma OccursBehind(n: string, a: string, b: string, i: nat)
    requires IsOpening(n) && Absent(n, a) && Repels(b) && OccursAt(n, a + b, i)
    ensures i >= |a| && OccursAt(n, b, i - |a|)
  {
    OccursInPart(n, a, b, i);
    if i < |a| {
      var k := |a| - i;
      OccursAtChar(n, a + b, i, k);
      assert GoesOn(n, k) && n[k] == b[0];
      OccursAtChar(n, a + b, i, k + 1);
    }
  }

  /** A text that holds no `<` but perhaps at its start, where the marker does not stand. */
  lemma OccursPast(n: string, a: string, b: string, i: nat)
    requires IsOpening(n) && OccursAt(n, a + b, i) && forall d :: 0 < d < |a| ==> a[d] != '<'
    requires i > 0 || a == "" || a[0] != '<'
    ensures i >= |a| && OccursAt(n, b, i - |a|)
  {
    OccursAtChar(n, a + b, i, 0);
    OccursInPart(n, a, b, i);
  }

  lemma NoBracketAbsent(n: string, text: string)
    requires IsOpening(n) && '<' !in text
    ensures Absent(n, text)
  {
    forall i: nat ensures !OccursAt(n, text, i) { if OccursAt(n, text, i) { OccursAtCharIn(n, text, i, 0); } }
  }

  lemma CharAbsent(n: string, text: string, d: nat)
    requires d < |n| && n[d] !in text
    ensures Absent(n, text)
  {
    forall i: nat ensures !OccursAt(n, text, i) { if OccursAt(n, text, i) { OccursAtCharIn(n, text, i, d); } }
  }

  /** Two texts that differ do not occur at one place. */
  lemma OccurApart(n: string, m: string, text: string, i: nat, d: nat)
    requires OccursAt(n, text, i) && d < |n| && d < |m| && n[d] != m[d]
    ensures !OccursAt(m, text, i)
  {
    OccursAtChar(n, text, i, d);
    if OccursAt(m, text, i) { OccursAtChar(m, text, i, d); assert false; }
  }

  ghost predicate OccursOnlyAt(needle: string, text: string, i: nat) {
    OccursAt(needle, text, i) && forall j: nat :: OccursAt(needle, text, j) ==> j == i
  }

  lemma FoundOnce(needle: string, text: string, i: nat)
    requires needle != "" && OccursOnlyAt(needle, text, i)
    ensures Find(needle, text, 0) == Some(i) && Count(needle, text, 0) == 1
  {
    var r := Find(needle, text, 0);
    assert r.Some?;
    assert Count(needle, text, 0) == 1 + Count(needle, text, i + |needle|);
  }

  /** The printed object of a marker: braces around printable characters. */
  ghost predicate Braced(json: string) {
    |json| >= 2 && json[0] == '{' && json[|json| - 1] == '}' && Printable(json)
  }

  lemma ObjectIsBraced(fs: seq<Field>)
    ensures Braced(Print(Obj(fs)))
  {
    PrintPrintable(Obj(fs));
    ObjectEnds(fs);
  }

  lemma {:induction false} FieldsEnd(fs: seq<Field>)
    ensures PrintFields(fs) != "" && PrintFields(fs)[|PrintFields(fs)| - 1] == '}'
  {
    if fs != [] { FieldsEnd(fs[1..]); }
  }

  lemma ObjectEnds(fs: seq<Field>)
    ensures PrintObject(fs) != "" && PrintObject(fs)[|PrintObject(fs)| - 1] == '}'
  {
    if fs != [] { FieldsEnd(fs[1..]); }
  }

  lemma FoundFirst(needle: string, text: string, from: nat, i: nat)
    requires from <= i && OccursAt(needle, text, i)
    requires forall j: nat :: from <= j < i ==> !OccursAt(needle, text, j)
    ensures Find(needle, text, from) == Some(i)
  {
    var r := Find(needle, text, from);
    assert r.Some?;
  }

  /** The first closing after an opening ends the JSON text, because that text has no raw newline. */
  lemma ClosingFound(t: string, head: string, json: string, y: string)
    requires t == head + json + "\n-->" + y
    requires Braced(json)
    ensures Find(JSON_CLOSE, t, |head| + 1) == Some(|head| + |json| - 1)
    ensures t[|head|..|head| + |json|] == json
  {
    var q := |head| + |json| - 1;
    assert t[q..q + |JSON_CLOSE|] == JSON_CLOSE;
    forall j: nat | |head| + 1 <= j < q ensures !OccursAt(JSON_CLOSE, t, j) {
      assert t[j + 1] == json[j + 1 - |head|] && json[j + 1 - |head|] in json;
      if OccursAt(JSON_CLOSE, t, j) { OccursAtChar(JSON_CLOSE, t, j, 1); }
    }
    FoundFirst(JSON_CLOSE, t, |head| + 1, q);
  }

  lemma MatchAt(opening: string, t: string, p: nat, q: nat)
    requires Find(opening + "{", t, 0) == Some(p)
    requires forall from: nat :: from > p ==> Find(opening + "{", t, from) == None
    requires Find(JSON_CLOSE, t, p + |opening| + 1) == Some(q)
    ensures FindMarker(opening, t, 0) == Some(Match(p, t[p + |opening|..q + 1], q + 5))
    ensures FindMarker(opening, t, q + 5) == None
  {
  }

  /** What the regular expression of a marker finds in a text that was rendered with one such marker. */
  lemma MarkerFound(t: string, x: string, opening: string, json: string, y: string)
    requires t == x + opening + json + ("\n-->" + y)
    requires Braced(json) && OccursOnlyAt(opening + "{", t, |x|)
    ensures var end := |x| + |opening| + |json| + 4;
            && FindMarker(opening, t, 0) == Some(Match(|x|, json, end))
            && FindMarker(opening, t, end) == None
  {
    hide OccursAt;
    FoundFirst(opening + "{", t, 0, |x|);
    assert t == (x + opening) + json + "\n-->" + y;
    ClosingFound(t, x + opening, json, y);
    MatchAt(opening, t, |x|, |x| + |opening| + |json| - 1);
  }

  lemma OpeningWithBrace(t: string, x: string, opening: string, json: string, y: string)
    requires t == x + opening + json + y && Braced(json)
    ensures OccursAt(opening + "{", t, |x|)
  {
    assert t[|x|..|x| + |opening| + 1] == opening + "{";
  }

  /** A text that holds no `<` but at its start. */
  predicate OneBracket(text: string) { text != "" && forall d | 0 < d < |text| :: text[d] != '<' }

  lemma HasOneBracket(opening: string, brace: string)
    requires IsOpening(opening + brace) && opening != ""
    ensures OneBracket(opening)
  {
    forall d | 0 < d < |opening| ensures opening[d] != '<' { assert GoesOn(opening + brace, d); }
  }

  lemma PastMarker(n: string, m: string, rest: string, i: nat)
    requires IsOpening(n) && OneBracket(m) && OccursAt(n, m + rest, i) && i > 0
    ensures i >= |m| && OccursAt(n, rest, i - |m|)
  {
    hide OccursAt;
    OccursPast(n, m, rest, i);
  }

  // ----- Texts with one marker: comments -----

  lemma CommentMark(lines: string, json: string)
    requires CommentFree(lines) && Braced(json)
    ensures OccursOnlyAt(BATCH_START, lines + "\n" + BATCH_OPEN + json + "\n-->", |lines| + 1)
  {
    BatchOpens();
    hide OccursAt;
    hide IsOpening;
    hide Absent;
    hide Braced;
    OneMark(BATCH_OPEN, lines, json);
  }

  lemma OneMark(opening: string, lines: string, json: string)
    requires IsOpening(opening + "{") && opening[|opening| - 1] == '\n'
    requires Absent(opening + "{", lines) && Braced(json)
    ensures OccursOnlyAt(opening + "{", lines + "\n" + opening + json + "\n-->", |lines| + 1)
  {
    var n, t := opening + "{", lines + "\n" + opening + json + "\n-->";
    assert t == lines + ("\n" + (opening + (json + "\n-->")));
    OpeningWithBrace(t, lines + "\n", opening, json, "\n-->");
    assert n[|opening| - 1] == '\n' && n[0] == opening[0];
    CharAbsent(n, json, |opening| - 1);
    HasOneBracket(opening, "{");
    hide OccursAt;
    forall i: nat | OccursAt(n, t, i) ensures i == |lines| + 1 { OneSpot(n, lines, opening, json, i); }
  }

  lemma OneSpot(n: string, lines: string, opening: string, json: string, i: nat)
    requires IsOpening(n) && OneBracket(opening) && opening[0] == '<' && Absent(n, lines) && Absent(n, json)
    requires OccursAt(n, lines + ("\n" + (opening + (json + "\n-->"))), i)
    ensures i == |lines| + 1
  {
    var rest := opening + (json + "\n-->");
    assert ("\n" + rest)[1] == rest[0] == opening[0];
    hide OccursAt;
    hide IsOpening;
    hide OneBracket;
    OccursBehind(n, lines, "\n" + rest, i);
    OccursPast(n, "\n", rest, i - |lines|);
    if i != |lines| + 1 {
      PastMarker(n, opening, json + "\n-->", i - |lines| - 1);
      NoBracketAbsent(n, "\n-->");
      OccursBehind(n, json, "\n-->", i - |lines| - 1 - |opening|);
    }
  }

  // ----- JSON that holds no boundary -----

  /** No string in the value holds the text. */
  ghost predicate JsonFree(n: string, j: Json) {
    match j
    case Str(text) => Absent(n, text)
    case Arr(es) => forall i | 0 <= i < |es| :: JsonFree(n, es[i])
    case Obj(fs) => FieldsFree(n, fs)
    case _ => true
  }

  ghost predicate FieldsFree(n: string, fs: seq<Field>) {
    forall i | 0 <= i < |fs| :: Absent(n, fs[i].key) && JsonFree(n, fs[i].value)
  }

  /** Only characters that JSON prints as they are and that structure no JSON. */
  predicate IsLiteral(text: string) {
    forall c | c in text :: c != '"' && c != '\\' && c != ',' && c != '[' && c != ']' && c != '{' && c != '}'
  }

  /** A boundary of the managed region, which JSON prints as it is. */
  predicate IsBoundary(n: string) { IsOpening(n) && IsLiteral(n) }

  lemma AreBoundaries()
    ensures IsBoundary(MANAGED_START) && IsBoundary(MANAGED_END)
  {
    BoundariesOpen();
    hide IsOpening;
    assert IsLiteral(LEAD) && IsLiteral(MARK) && IsLiteral(START_TAIL) && IsLiteral(END_TAIL);
  }

  lemma EscapedAlone(c: char)
    ensures Escape(c)[0] != '\\' || '<' in Escape(c) ==> Escape(c) == [c]
  {
  }

  /** Characters that stand for themselves are printed only where they stood. */
  lemma {:induction false} EscapePrefix(m: string, s: string)
    requires (forall c :: c in m ==> c != '\\') && m <= EscapeAll(s)
    ensures m <= s
  {
    if m != "" {
      EscapedAlone(s[0]);
      assert m[0] in m;
      assert m[0] == EscapeAll(s)[0] == Escape(s[0])[0];
      assert EscapeAll(s)[1..] == EscapeAll(s[1..]);
      forall c | c in m[1..] ensures c != '\\' { assert c in m; }
      EscapePrefix(m[1..], s[1..]);
      assert m == [m[0]] + m[1..] && s == [s[0]] + s[1..];
    }
  }

  lemma {:induction false} EscapeOccurs(n: string, s: string, i: nat)
    requires IsBoundary(n) && OccursAt(n, EscapeAll(s), i)
    ensures !Absent(n, s)
    decreases |s|
  {
    var first, rest := Escape(s[0]), EscapeAll(s[1..]);
    if i >= |first| {
      OccursInPart(n, first, rest, i);
      EscapeOccurs(n, s[1..], i - |first|);
      var k: nat :| OccursAt(n, s[1..], k);
      assert s[1..][k..k + |n|] == s[k + 1..k + 1 + |n|];
      assert OccursAt(n, s, k + 1);
    } else {
      OccursAtChar(n, first + rest, i, 0);
      EscapedAlone(s[0]);
      assert n <= EscapeAll(s);
      EscapePrefix(n, s);
      assert OccursAt(n, s, 0);
    }
  }

  lemma QuoteFree(n: string, s: string)
    requires IsBoundary(n) && Absent(n, s)
    ensures Absent(n, Quote(s))
  {
    forall i: nat ensures !OccursAt(n, EscapeAll(s), i) { if OccursAt(n, EscapeAll(s), i) { EscapeOccurs(n, s, i); } }
    NoBracketAbsent(n, "\"");
    FreeConcat(n, "\"", EscapeAll(s));
    FreeConcat(n, "\"" + EscapeAll(s), "\"");
  }

  /** Concatenation stays free when a character at the seam keeps the text from crossing it. */
  lemma FreeConcat(n: string, a: string, b: string)
    requires IsOpening(n) && Absent(n, a) && Absent(n, b)
    requires '<' !in a || b == "" || b[0] !in n || (a != "" && a[|a| - 1] !in n)
    ensures Absent(n, a + b)
  {
    forall i: nat ensures !OccursAt(n, a + b, i) {
      if OccursAt(n, a + b, i) {
        OccursInPart(n, a, b, i);
        if i < |a| < i + |n| {
          OccursAtChar(n, a + b, i, 0);
          OccursAtChar(n, a + b, i, |a| - i);
          OccursAtChar(n, a + b, i, |a| - 1 - i);
        }
      }
    }
  }

  /** Printing a value does not make a boundary that none of its strings holds. */
  lemma {:induction false} PrintFree(n: string, j: Json)
    requires IsBoundary(n) && JsonFree(n, j)
    ensures Absent(n, Print(j))
    decreases j, 1
  {
    match j
    case Str(text) => QuoteFree(n, text);
    case Arr(es) =>
      NoBracketAbsent(n, "[");
      NoBracketAbsent(n, "]");
      if es != [] {
        PrintFree(n, es[0]);
        PrintElementsFree(n, es[1..]);
        FreeConcat(n, Print(es[0]), PrintElements(es[1..]));
      }
      FreeConcat(n, "[", PrintArray(es));
    case Obj(fs) =>
      NoBracketAbsent(n, "{");
      NoBracketAbsent(n, "}");
      if fs != [] {
        PrintFieldFree(n, fs[0]);
        PrintFieldsFree(n, fs[1..]);
        FreeConcat(n, PrintField(fs[0]), PrintFields(fs[1..]));
      }
      FreeConcat(n, "{", PrintObject(fs));
    case Int(k) => NoBracketAbsent(n, Print(j));
    case _ => NoBracketAbsent(n, Print(j));
  }

  lemma {:induction false} PrintElementsFree(n: string, es: seq<Json>)
    requires IsBoundary(n) && forall i :: 0 <= i < |es| ==> JsonFree(n, es[i])
    ensures Absent(n, PrintElements(es)) && PrintElements(es) != "" && PrintElements(es)[0] !in n
    decreases es, 0
  {
    NoBracketAbsent(n, "]");
    NoBracketAbsent(n, ",");
    if es != [] {
      PrintFree(n, es[0]);
      PrintElementsFree(n, es[1..]);
      FreeConcat(n, ",", Print(es[0]));
      FreeConcat(n, "," + Print(es[0]), PrintElements(es[1..]));
    }
  }

  lemma {:induction false} PrintFieldFree(n: string, f: Field)
    requires IsBoundary(n) && Absent(n, f.key) && JsonFree(n, f.value)
    ensures Absent(n, PrintField(f))
    decreases f, 0
  {
    QuoteFree(n, f.key);
    PrintFree(n, f.value);
    NoBracketAbsent(n, ":");
    FreeConcat(n, ":", Print(f.value));
    FreeConcat(n, Quote(f.key), ":" + Print(f.value));
    assert Quote(f.key) + (":" + Print(f.value)) == PrintField(f);
  }

  lemma {:induction false} PrintFieldsFree(n: string, fs: seq<Field>)
    requires IsBoundary(n) && FieldsFree(n, fs)
    ensures Absent(n, PrintFields(fs)) && PrintFields(fs) != "" && PrintFields(fs)[0] !in n
    decreases fs, 0
  {
    NoBracketAbsent(n, "}");
    NoBracketAbsent(n, ",");
    if fs != [] {
      PrintFieldFree(n, fs[0]);
      PrintFieldsFree(n, fs[1..]);
      FreeConcat(n, ",", PrintField(fs[0]));
      FreeConcat(n, "," + PrintField(fs[0]), PrintFields(fs[1..]));
    }
  }

  lemma {:induction false} SortedFieldsFree(n: string, items: Items)
    requires forall k :: k in items ==> Absent(n, k) && JsonFree(n, items[k])
    ensures FieldsFree(n, SortedFields(items))
    decreases |items.Keys|
  {
    if items.Keys != {} {
      var k := Least(items.Keys);
      SortedFieldsFree(n, items - {k});
      assert SortedFields(items) == [Field(k, items[k])] + SortedFields(items - {k});
    }
  }
}
