/** The scan for the keyword `unsafe` in example code (exts/coding_guidelines/rust_examples.py, lines 260-371), against
    the lexical rules. */
module UnsafeScanner {
  import opened Strings
  import opened RustText
  import opened RustEdits

  // ----- Where the scan goes -----

  /** The scan gives up on a block comment at the last character. */
  function BlockStop(code: string, j: nat, depth: nat): (r: nat)
    requires j <= |code|
    ensures j <= r <= |code|
    decreases |code| - j
  {
    if depth == 0 || j + 1 >= |code| then j
    else if code[j] == '/' && code[j + 1] == '*' then BlockStop(code, j + 2, depth + 1)
    else if code[j] == '*' && code[j + 1] == '/' then BlockStop(code, j + 2, depth - 1)
    else BlockStop(code, j + 1, depth)
  }

  /** Where the scan resumes: in a character literal it looks for the closing mark right behind the backslash. */
  function ScanEnd(code: string, i: nat): (r: nat)
    requires i < |code|
    ensures i < r <= |code|
  {
    if OpensBlock(code, i) then BlockStop(code, i + 2, 1)
    else if OpensEscapedChar(code, i) then AfterFirst("'", code, i + 2)
    else LexEnd(code, i)
  }

  predicate IsScanned(code: string, i: nat, k: nat)
    requires i <= |code|
    decreases |code| - i
  {
    i < |code| && (i == k || IsScanned(code, ScanEnd(code, i), k))
  }

  predicate ScanFinds(code: string, alnum: char -> bool) {
    exists k | 0 <= k < |code| :: IsScanned(code, 0, k) && UnsafeAt(code, k, alnum)
  }

  // ----- When the scan sees the code -----

  /** A character literal starts at `k` and escapes a quote mark: `'\''`. */
  predicate EscapesQuote(code: string, k: nat) {
    k + 2 < |code| && code[k] == '\'' && code[k + 1] == '\\' && code[k + 2] == '\''
  }

  /** Character literals of the code escape no quote mark, but perhaps at the very end. */
  predicate NoEscapedQuote(code: string, i: nat)
    requires i <= |code|
  {
    forall m | 0 <= m < |code| && IsCode(code, i, m) && EscapesQuote(code, m) :: m + 4 >= |code|
  }

  lemma {:induction false} ScanBound(code: string, i: nat, k: nat)
    requires i <= |code| && IsScanned(code, i, k)
    ensures i <= k < |code|
    decreases |code| - i
  {
    if i != k { ScanBound(code, ScanEnd(code, i), k); }
  }

  lemma {:induction false} ScanThrough(code: string, i: nat, m: nat, k: nat)
    requires i <= |code| && m <= |code| && IsScanned(code, i, m) && IsScanned(code, m, k)
    ensures IsScanned(code, i, k)
    decreases |code| - i
  {
    ScanBound(code, i, m);
    if i != m { ScanThrough(code, ScanEnd(code, i), m, k); }
  }

  lemma {:induction false} BlockAgrees(code: string, j: nat, depth: nat)
    requires j <= |code|
    ensures BlockStop(code, j, depth) == BlockEnd(code, j, depth) ||
            (BlockStop(code, j, depth) + 1 >= |code| && BlockEnd(code, j, depth) == |code|)
    decreases |code| - j
  {
    if depth > 0 && j + 1 < |code| {
      if code[j] == '/' && code[j + 1] == '*' {
        BlockAgrees(code, j + 2, depth + 1);
      } else if code[j] == '*' && code[j + 1] == '/' {
        BlockAgrees(code, j + 2, depth - 1);
      } else {
        BlockAgrees(code, j + 1, depth);
      }
    }
  }

  lemma AfterFirstHere(needle: string, code: string, j: nat)
    requires j <= |code|
    ensures OccursAt(needle, code, j) ==> AfterFirst(needle, code, j) == j + |needle|
    ensures j < |code| && !OccursAt(needle, code, j) ==> AfterFirst(needle, code, j) == AfterFirst(needle, code, j + 1)
    ensures j == |code| ==> AfterFirst(needle, code, j) == |code|
  {
    hide OccursAt;
    if OccursAt(needle, code, j) {
      FirstIs(needle, code, j, j);
    } else if j < |code| && Find(needle, code, j + 1).Some? {
      FirstIs(needle, code, j, Find(needle, code, j + 1).value);
    }
  }

  lemma OneChar(c: char, code: string, j: nat)
    ensures OccursAt([c], code, j) <==> j < |code| && code[j] == c
  {
    if j < |code| { assert code[j..j + 1] == [code[j]]; }
  }

  /** Up to the last character the scan resumes where the token ends, unless the token escapes a quote mark. */
  lemma ScanAgrees(code: string, i: nat)
    requires i < |code|
    ensures !EscapesQuote(code, i) ==>
      ScanEnd(code, i) == LexEnd(code, i) || (ScanEnd(code, i) + 1 >= |code| && LexEnd(code, i) == |code|)
    ensures EscapesQuote(code, i) ==>
      ScanEnd(code, i) == i + 3 && (LexEnd(code, i) > i + 3 || LexEnd(code, i) == |code|)
  {
    hide LexEnd;
    hide AfterFirst;
    hide BlockEnd;
    hide BlockStop;
    hide OpensRaw;
    LexCases(code, i);
    if OpensBlock(code, i) {
      BlockAgrees(code, i + 2, 1);
    } else if OpensEscapedChar(code, i) {
      AfterFirstHere("'", code, i + 2);
      OneChar('\'', code, i + 2);
      if i + 2 < |code| { BeyondMark(code, i + 3); }
    }
  }

  lemma BeyondMark(code: string, j: nat)
    requires j <= |code|
    ensures AfterFirst("'", code, j) > j || AfterFirst("'", code, j) == |code|
  {
  }

  /** Without such a literal the scan sees the code, all of it and nothing else; the last character is too late for any
      keyword. */
  lemma {:induction false} ScansCode(code: string, i: nat, k: nat)
    requires i <= |code| && NoEscapedQuote(code, i) && k + 1 < |code|
    ensures IsScanned(code, i, k) <==> IsCode(code, i, k)
    decreases |code| - i
  {
    hide ScanEnd;
    hide LexEnd;
    hide EscapesQuote;
    if i < |code| && i != k {
      ScanAgrees(code, i);
      var s, e := ScanEnd(code, i), LexEnd(code, i);
      if s == e {
        StillNoEscape(code, i);
        ScansCode(code, e, k);
      } else {
        assert IsCode(code, i, i);
        if IsScanned(code, s, k) { ScanBound(code, s, k); }
        if IsCode(code, e, k) { CodeBound(code, e, k); }
      }
    }
  }

  lemma StillNoEscape(code: string, i: nat)
    requires i < |code| && NoEscapedQuote(code, i)
    ensures NoEscapedQuote(code, LexEnd(code, i))
  {
    hide LexEnd;
    hide EscapesQuote;
    forall m | 0 <= m < |code| && IsCode(code, LexEnd(code, i), m) && EscapesQuote(code, m) ensures m + 4 >= |code| {
      CodeStep(code, i, m);
    }
  }

  /** With one, the scan takes the closing mark of the literal for code. */
  lemma {:induction false} ScanStrays(code: string, i: nat, m: nat) returns (k: nat)
    requires i <= |code| && IsCode(code, i, m) && EscapesQuote(code, m) && m + 4 < |code|
    ensures i <= k && k + 1 < |code| && IsScanned(code, i, k) && !IsCode(code, i, k)
    decreases |code| - i
  {
    hide ScanEnd;
    hide LexEnd;
    CodeBound(code, i, m);
    ScanAgrees(code, i);
    if EscapesQuote(code, i) && i + 4 < |code| {
      k := i + 3;
      assert IsScanned(code, k, k);
      if IsCode(code, LexEnd(code, i), k) { CodeBound(code, LexEnd(code, i), k); }
    } else {
      assert IsCode(code, LexEnd(code, i), m);
      CodeBound(code, LexEnd(code, i), m);
      k := ScanStrays(code, LexEnd(code, i), m);
    }
  }

  /** The scan sees exactly the code if and only if no character literal in it escapes a quote mark. */
  lemma ScansCodeExactly(code: string)
    ensures (forall k :: 0 <= k < |code| - 1 ==> (IsScanned(code, 0, k) <==> IsCode(code, 0, k))) <==>
      NoEscapedQuote(code, 0)
  {
    hide EscapesQuote;
    if NoEscapedQuote(code, 0) {
      forall k | 0 <= k < |code| - 1 ensures IsScanned(code, 0, k) <==> IsCode(code, 0, k) { ScansCode(code, 0, k); }
    } else {
      var m :| 0 <= m < |code| && IsCode(code, 0, m) && EscapesQuote(code, m) && m + 4 < |code|;
      var k := ScanStrays(code, 0, m);
    }
  }

  lemma ScanAnswers(code: string, alnum: char -> bool)
    requires NoEscapedQuote(code, 0)
    ensures ScanFinds(code, alnum) <==> MentionsUnsafe(code, alnum)
  {
    hide IsScanned;
    hide IsCode;
    hide NoEscapedQuote;
    forall k | 0 <= k < |code| && UnsafeAt(code, k, alnum) ensures IsScanned(code, 0, k) <==> IsCode(code, 0, k) {
      ScansCode(code, 0, k);
    }
  }

  // ----- The scan -----

  method SkipLine(code: string, start: nat) returns (i: nat)
    requires OpensLine(code, start)
    ensures i == LineEnd(code, start + 2)
  {
    i := start;
    while i < |code| && code[i] != '\n'
      invariant start <= i <= |code|
      invariant forall q :: start <= q < i ==> code[q] != '\n'
    {
      i := i + 1;
    }
    if i == |code| { NoChar('\n', code, start + 2); } else { FirstChar('\n', code, start + 2, i); }
  }

  method SkipBlock(code: string, start: nat) returns (i: nat)
    requires OpensBlock(code, start)
    ensures i == BlockStop(code, start + 2, 1)
  {
    i := start + 2;
    var depth := 1;
    while i + 1 < |code| && depth > 0
      invariant start + 2 <= i <= |code| && BlockStop(code, i, depth) == BlockStop(code, start + 2, 1)
      decreases |code| - i
    {
      if code[i] == '/' && code[i + 1] == '*' {
        depth := depth + 1;
        i := i + 2;
      } else if code[i] == '*' && code[i + 1] == '/' {
        depth := depth - 1;
        i := i + 2;
      } else {
        i := i + 1;
      }
    }
  }

  method CountHashes(code: string, start: nat) returns (hashes: nat)
    requires start <= |code|
    ensures hashes == HashRun(code, start)
  {
    hashes := 0;
    var j := start;
    while j < |code| && code[j] == '#'
      invariant start <= j == start + hashes <= |code| && hashes + HashRun(code, j) == HashRun(code, start)
    {
      hashes := hashes + 1;
      j := j + 1;
    }
  }

  method SkipRaw(code: string, start: nat, hashes: nat) returns (j: nat)
    requires OpensRaw(code, start) && hashes == HashRun(code, start + 1)
    ensures j == AfterFirst(Closer(hashes), code, start + hashes + 2)
  {
    hide OccursAt;
    hide AfterFirst;
    hide Closer;
    j := start + hashes + 2;
    var closer := Closer(hashes);
    while j < |code|
      invariant start + hashes + 2 <= j <= |code|
      invariant AfterFirst(closer, code, j) == AfterFirst(closer, code, start + hashes + 2)
    {
      AfterFirstHere(closer, code, j);
      if OccursAt(closer, code, j) { return j + |closer|; }
      j := j + 1;
    }
    AfterFirstHere(closer, code, j);
  }

  method SkipString(code: string, start: nat) returns (i: nat)
    requires OpensString(code, start)
    ensures i == StringEnd(code, start + 1)
  {
    i := start + 1;
    while i < |code|
      invariant start < i <= |code| && StringEnd(code, i) == StringEnd(code, start + 1)
      decreases |code| - i
    {
      if code[i] == '\\' && i < |code| - 1 {
        i := i + 2;
      } else if code[i] == '"' {
        return i + 1;
      } else {
        i := i + 1;
      }
    }
  }

  method SkipEscapedChar(code: string, start: nat) returns (j: nat)
    requires OpensEscapedChar(code, start)
    ensures j == AfterFirst("'", code, start + 2)
  {
    hide AfterFirst;
    j := start + 2;
    while j < |code| && code[j] != '\''
      invariant start + 2 <= j <= |code| && AfterFirst("'", code, j) == AfterFirst("'", code, start + 2)
    {
      OneChar('\'', code, j);
      AfterFirstHere("'", code, j);
      j := j + 1;
    }
    OneChar('\'', code, j);
    AfterFirstHere("'", code, j);
    if j < |code| { j := j + 1; }
  }

  /** The word at a position where some token other than a single character starts is not `unsafe`. */
  lemma OnlyLetters(code: string, i: nat, alnum: char -> bool)
    requires UnsafeAt(code, i, alnum)
    ensures i < |code| && code[i] == 'u'
  {
    OccursAtChar("unsafe", code, i, 0);
  }

  ghost predicate Remains(code: string, i: nat, alnum: char -> bool)
    requires i <= |code|
  {
    exists k :: 0 <= k < |code| && IsScanned(code, i, k) && UnsafeAt(code, k, alnum)
  }

  lemma RemainsStep(code: string, i: nat, alnum: char -> bool)
    requires i < |code|
    ensures Remains(code, i, alnum) <==> UnsafeAt(code, i, alnum) || Remains(code, ScanEnd(code, i), alnum)
  {
    hide ScanEnd;
    hide UnsafeAt;
    if UnsafeAt(code, i, alnum) { assert IsScanned(code, i, i); }
    if Remains(code, ScanEnd(code, i), alnum) {
      var k :| 0 <= k < |code| && IsScanned(code, ScanEnd(code, i), k) && UnsafeAt(code, k, alnum);
      assert IsScanned(code, i, k);
    }
  }

  /** `contains_unsafe_keyword`. */
  method ContainsUnsafeKeyword(code: string, alnum: char -> bool) returns (found: bool)
    ensures found <==> ScanFinds(code, alnum)
    ensures NoEscapedQuote(code, 0) ==> (found <==> MentionsUnsafe(code, alnum))
  {
    hide UnsafeAt;
    hide IsScanned;
    hide NoEscapedQuote;
    hide MentionsUnsafe;
    hide AfterFirst;
    hide LineEnd;
    hide BlockEnd;
    hide BlockStop;
    hide StringEnd;
    if NoEscapedQuote(code, 0) { ScanAnswers(code, alnum); }
    assert Remains(code, 0, alnum) <==> ScanFinds(code, alnum);
    hide ScanFinds;
    hide Remains;
    var i := 0;
    while i < |code|
      invariant 0 <= i <= |code| && (Remains(code, i, alnum) <==> ScanFinds(code, alnum))
      decreases |code| - i
    {
      RemainsStep(code, i, alnum);
      if UnsafeAt(code, i, alnum) { OnlyLetters(code, i, alnum); }
      LexCases(code, i);
      if OpensLine(code, i) {
        i := SkipLine(code, i);
        continue;
      }
      if OpensBlock(code, i) {
        i := SkipBlock(code, i);
        continue;
      }
      if code[i] == 'r' && i < |code| - 1 {
        var hashes := CountHashes(code, i + 1);
        if i + 1 + hashes < |code| && code[i + 1 + hashes] == '"' {
          i := SkipRaw(code, i, hashes);
          continue;
        }
      }
      if code[i] == '"' {
        i := SkipString(code, i);
        continue;
      }
      if code[i] == '\'' && i < |code| - 1 {
        if code[i + 1] == '\\' {
          i := SkipEscapedChar(code, i);
          continue;
        } else if i + 2 < |code| && code[i + 2] == '\'' {
          i := i + 3;
          continue;
        }
      }
      if UnsafeAt(code, i, alnum) { return true; }
      i := i + 1;
    }
    NothingRemains(code, alnum);
    return false;
  }

  lemma NothingRemains(code: string, alnum: char -> bool)
    ensures !Remains(code, |code|, alnum)
  {
  }

  /** What a closed comment or literal says does not matter to the scan, as long as it stands in the code and no
      character literal escapes a quote mark. */
  lemma ScanIgnoresInside(pre: string, t: Token, u: Token, post: string, alnum: char -> bool)
    requires Closed(t) && Closed(u) && SameDelimiters(t, u)
    requires t.LineComment? ==> post == "" || post[0] == '\n'
    requires IsCode(pre + Written(t) + post, 0, |pre|) && IsCode(pre + Written(u) + post, 0, |pre|)
    requires NoEscapedQuote(pre + Written(t) + post, 0) && NoEscapedQuote(pre + Written(u) + post, 0)
    ensures ScanFinds(pre + Written(t) + post, alnum) <==> ScanFinds(pre + Written(u) + post, alnum)
  {
    hide *;
    ReplaceInside(pre, t, u, post, alnum);
    ScanAnswers(pre + Written(t) + post, alnum);
    ScanAnswers(pre + Written(u) + post, alnum);
  }

  // ----- What an escaped quote mark does -----

  lemma SingleEnds(code: string, i: nat)
    requires i < |code| && code[i] != '/' && code[i] != 'r' && code[i] != '"' && code[i] != '\''
    ensures LexEnd(code, i) == i + 1 && ScanEnd(code, i) == i + 1
  {
    LexCases(code, i);
  }

  lemma CharEnds(code: string, i: nat)
    requires OpensChar(code, i)
    ensures LexEnd(code, i) == i + 3 && ScanEnd(code, i) == i + 3
  {
    LexCases(code, i);
  }

  lemma EscapedEnds(code: string, i: nat)
    requires EscapesQuote(code, i) && i + 3 < |code| && code[i + 3] == '\''
    ensures LexEnd(code, i) == i + 4 && ScanEnd(code, i) == i + 3
  {
    LexCases(code, i);
    OneChar('\'', code, i + 2);
    OneChar('\'', code, i + 3);
    AfterFirstHere("'", code, i + 2);
    AfterFirstHere("'", code, i + 3);
  }

  lemma StringEnds(code: string, i: nat, e: nat)
    requires i < e < |code| && code[i] == '"' && code[e] == '"'
    requires forall q :: i < q < e ==> code[q] != '"' && code[q] != '\\'
    ensures LexEnd(code, i) == e + 1 && ScanEnd(code, i) == e + 1
  {
    LexCases(code, i);
    StringRuns(code, i + 1, e);
  }

  lemma StringNeverEnds(code: string, i: nat)
    requires i < |code| && code[i] == '"' && forall q :: i < q < |code| ==> code[q] != '"' && code[q] != '\\'
    ensures LexEnd(code, i) == |code| && ScanEnd(code, i) == |code|
  {
    LexCases(code, i);
    StringRuns(code, i + 1, |code|);
  }

  lemma {:induction false} StringRuns(code: string, j: nat, e: nat)
    requires j <= e <= |code| && forall q :: j <= q < e ==> code[q] != '"' && code[q] != '\\'
    ensures StringEnd(code, j) == StringEnd(code, e)
    ensures e < |code| && code[e] == '"' ==> StringEnd(code, e) == e + 1
    decreases e - j
  {
    if j < e { StringRuns(code, j + 1, e); }
  }

  /** A quote mark with a string literal behind it: what the string says decides whether the two make a character
      literal, and so whether the keyword is code. */
  lemma InsideMayMatter(alnum: char -> bool)
    requires !alnum(';')
    ensures var t, u := StringLiteral("a"), StringLiteral("'");
            var a, b := "'" + Written(t) + ";unsafe", "'" + Written(u) + ";unsafe";
            && Closed(t) && Closed(u) && SameDelimiters(t, u) && IsCode(a, 0, 1)
            && MentionsUnsafe(a, alnum) && ScanFinds(a, alnum) && !MentionsUnsafe(b, alnum) && !ScanFinds(b, alnum)
  {
    var a, b := "'\"a\";unsafe", "'\"'\";unsafe";
    assert "'" + Written(StringLiteral("a")) + ";unsafe" == a && "'" + Written(StringLiteral("'")) + ";unsafe" == b;
    KeywordBehindString(a, alnum);
    KeywordInString(b, alnum);
  }

  lemma KeywordBehindString(a: string, alnum: char -> bool)
    requires !alnum(';') && a == "'\"a\";unsafe"
    ensures IsCode(a, 0, 1) && MentionsUnsafe(a, alnum) && ScanFinds(a, alnum)
  {
    hide LexEnd;
    hide ScanEnd;
    LoneEnds(a, 0);
    StringEnds(a, 1, 3);
    SingleEnds(a, 4);
    assert a[5..11] == "unsafe";
    assert IsCode(a, 5, 5) && IsCode(a, 4, 5) && IsCode(a, 1, 5);
    assert IsScanned(a, 5, 5) && IsScanned(a, 4, 5) && IsScanned(a, 1, 5);
    assert UnsafeAt(a, 5, alnum);
    hide UnsafeAt;
    Mentioned(a, 5, alnum);
  }

  lemma KeywordInString(b: string, alnum: char -> bool)
    requires b == "'\"'\";unsafe"
    ensures !MentionsUnsafe(b, alnum) && !ScanFinds(b, alnum)
  {
    hide LexEnd;
    hide ScanEnd;
    assert |b| == 11;
    CharEnds(b, 0);
    StringNeverEnds(b, 3);
    forall k | 0 <= k < |b| && IsCode(b, 0, k) ensures k == 0 || k == 3 {
      assert k != 0 ==> IsCode(b, 3, k);
      assert !IsCode(b, 11, k);
    }
    forall k | 0 <= k < |b| && IsScanned(b, 0, k) ensures k == 0 || k == 3 {
      assert k != 0 ==> IsScanned(b, 3, k);
      assert !IsScanned(b, 11, k);
    }
    forall k | k == 0 || k == 3 ensures !UnsafeAt(b, k, alnum) {
      if UnsafeAt(b, k, alnum) { OnlyLetters(b, k, alnum); }
    }
  }

  lemma LoneEnds(code: string, i: nat)
    requires i + 2 < |code| && code[i] == '\'' && code[i + 1] != '\\' && code[i + 2] != '\''
    ensures LexEnd(code, i) == i + 1 && ScanEnd(code, i) == i + 1
  {
    LexCases(code, i);
  }

  /** The scan takes the double quote of a later character literal for the start of a string, and the keyword is lost in
      it. */
  lemma ScanMisses(alnum: char -> bool)
    requires !alnum(';')
    ensures var code := "'\\'','\"';unsafe"; MentionsUnsafe(code, alnum) && !ScanFinds(code, alnum)
  {
    hide LexEnd;
    hide ScanEnd;
    var code := "'\\'','\"';unsafe";
    assert |code| == 15;
    EscapedEnds(code, 0);
    SingleEnds(code, 4);
    CharEnds(code, 5);
    SingleEnds(code, 8);
    CharEnds(code, 3);
    StringNeverEnds(code, 6);
    assert IsCode(code, 9, 9) && IsCode(code, 8, 9) && IsCode(code, 5, 9) && IsCode(code, 4, 9);
    assert code[9..15] == "unsafe";
    Mentioned(code, 9, alnum);
    forall k | 0 <= k < |code| && IsScanned(code, 0, k) ensures !UnsafeAt(code, k, alnum) {
      assert k == 0 || k == 3 || k == 6;
      if UnsafeAt(code, k, alnum) { OnlyLetters(code, k, alnum); }
    }
  }

  /** The scan reads a string literal inside out, and finds the keyword that is only text. */
  lemma ScanInvents(alnum: char -> bool)
    requires !alnum('"')
    ensures var code := "'\\''\"'\"\"unsafe\""; !MentionsUnsafe(code, alnum) && ScanFinds(code, alnum)
  {
    hide LexEnd;
    hide ScanEnd;
    var code := "'\\''\"'\"\"unsafe\"";
    assert |code| == 15;
    EscapedEnds(code, 0);
    StringEnds(code, 4, 6);
    StringEnds(code, 7, 14);
    CharEnds(code, 3);
    StringEnds(code, 6, 7);
    assert code[8..14] == "unsafe";
    assert IsScanned(code, 8, 8) && IsScanned(code, 6, 8) && IsScanned(code, 3, 8);
    assert UnsafeAt(code, 8, alnum);
    forall k | 0 <= k < |code| && IsCode(code, 0, k) ensures !UnsafeAt(code, k, alnum) {
      assert k == 0 || k == 4 || k == 7;
      if UnsafeAt(code, k, alnum) { OnlyLetters(code, k, alnum); }
    }
  }
}
