/** Replacing what a comment or literal says, by other text closed in the same way, does not change which of the
    surrounding text is code, and so not the answer about `unsafe`. */
module RustEdits {
  import opened Strings
  import opened RustText

  // ----- Lexing looks only forward -----

  lemma FindShift(needle: string, x: string, post: string, k: nat)
    requires needle != ""
    ensures Find(needle, x + post, |x| + k) ==
            match Find(needle, post, k) case None => None case Some(p) => Some(|x| + p)
  {
    var all := x + post;
    forall q: nat ensures OccursAt(needle, all, |x| + q) <==> OccursAt(needle, post, q) {
      if q + |needle| <= |post| { assert all[|x| + q..|x| + q + |needle|] == post[q..q + |needle|]; }
    }
    hide OccursAt;
    match Find(needle, post, k)
    case None =>
      forall j: nat | |x| + k <= j ensures !OccursAt(needle, all, j) {
        var q: nat := j - |x|;
        assert OccursAt(needle, all, |x| + q) <==> OccursAt(needle, post, q);
      }
    case Some(p) =>
      forall j: nat | |x| + k <= j < |x| + p ensures !OccursAt(needle, all, j) {
        var q: nat := j - |x|;
        assert OccursAt(needle, all, |x| + q) <==> OccursAt(needle, post, q);
      }
      FirstIs(needle, all, |x| + k, |x| + p);
  }

  lemma {:induction false} HashShift(x: string, post: string, k: nat)
    requires k <= |post|
    ensures HashRun(x + post, |x| + k) == HashRun(post, k)
    decreases |post| - k
  {
    if k < |post| { HashShift(x, post, k + 1); }
  }

  lemma {:induction false} BlockShift(x: string, post: string, k: nat, depth: nat)
    requires k <= |post|
    ensures BlockEnd(x + post, |x| + k, depth) == |x| + BlockEnd(post, k, depth)
    decreases |post| - k
  {
    if depth > 0 && k + 1 < |post| {
      var all := x + post;
      assert all[|x| + k] == post[k] && all[|x| + k + 1] == post[k + 1];
      if post[k] == '/' && post[k + 1] == '*' {
        BlockShift(x, post, k + 2, depth + 1);
      } else if post[k] == '*' && post[k + 1] == '/' {
        BlockShift(x, post, k + 2, depth - 1);
      } else {
        BlockShift(x, post, k + 1, depth);
      }
    }
  }

  lemma {:induction false} StringShift(x: string, post: string, k: nat)
    requires k <= |post|
    ensures StringEnd(x + post, |x| + k) == |x| + StringEnd(post, k)
    decreases |post| - k
  {
    if k < |post| {
      assert (x + post)[|x| + k] == post[k];
      if post[k] == '\\' && k + 1 < |post| {
        StringShift(x, post, k + 2);
      } else if post[k] != '"' {
        StringShift(x, post, k + 1);
      }
    }
  }

  lemma OpeningsShift(x: string, post: string, k: nat, all: string, i: nat)
    requires k < |post| && all == x + post && i == |x| + k
    ensures OpensLine(all, i) <==> OpensLine(post, k)
    ensures OpensBlock(all, i) <==> OpensBlock(post, k)
    ensures OpensRaw(all, i) <==> OpensRaw(post, k)
    ensures OpensString(all, i) <==> OpensString(post, k)
    ensures OpensEscapedChar(all, i) <==> OpensEscapedChar(post, k)
    ensures OpensChar(all, i) <==> OpensChar(post, k)
  {
    assert forall d :: 0 <= d < |post| ==> all[|x| + d] == post[d];
    HashShift(x, post, k + 1);
    hide HashRun;
  }

  lemma AfterFirstShift(needle: string, x: string, post: string, k: nat)
    requires needle != "" && k <= |post|
    ensures AfterFirst(needle, x + post, |x| + k) == |x| + AfterFirst(needle, post, k)
  {
    hide Find;
    FindShift(needle, x, post, k);
  }

  lemma LineShift(x: string, post: string, k: nat)
    requires k <= |post|
    ensures LineEnd(x + post, |x| + k) == |x| + LineEnd(post, k)
  {
    hide Find;
    FindShift("\n", x, post, k);
  }

  lemma RawShift(x: string, post: string, k: nat, all: string, i: nat)
    requires OpensRaw(post, k) && OpensRaw(all, i) && all == x + post && i == |x| + k
    ensures LexEnd(all, i) == |x| + LexEnd(post, k)
  {
    hide LexEnd;
    hide HashRun;
    hide Closer;
    hide AfterFirst;
    var n := HashRun(post, k + 1);
    assert HashRun(all, i + 1) == n by { HashShift(x, post, k + 1); }
    assert LexEnd(post, k) == AfterFirst(Closer(n), post, k + n + 2) by { LexCases(post, k); }
    assert LexEnd(all, i) == AfterFirst(Closer(n), all, i + n + 2) by { LexCases(all, i); }
    CloserLength(n);
    AfterFirstShift(Closer(n), x, post, k + n + 2);
  }

  lemma LexShift(x: string, post: string, k: nat)
    requires k < |post|
    ensures LexEnd(x + post, |x| + k) == |x| + LexEnd(post, k)
  {
    hide LexEnd;
    hide BlockEnd;
    hide StringEnd;
    hide LineEnd;
    hide AfterFirst;
    hide OpensRaw;
    hide OpensChar;
    hide OpensString;
    var all, i := x + post, |x| + k;
    OpeningsShift(x, post, k, all, i);
    LexCases(post, k);
    LexCases(all, i);
    if OpensLine(post, k) {
      LineShift(x, post, k + 2);
    } else if OpensBlock(post, k) {
      BlockShift(x, post, k + 2, 1);
    } else if OpensRaw(post, k) {
      RawShift(x, post, k, all, i);
    } else if OpensString(post, k) {
      StringShift(x, post, k + 1);
    } else if OpensEscapedChar(post, k) {
      if k + 2 < |post| { AfterFirstShift("'", x, post, k + 3); }
    }
  }

  lemma CloserLength(n: nat)
    ensures |Closer(n)| == n + 1
  {
  }

  lemma {:induction false} CodeShift(x: string, post: string, k: nat, m: nat)
    requires k <= |post|
    ensures IsCode(x + post, |x| + k, |x| + m) <==> IsCode(post, k, m)
    decreases |post| - k
  {
    hide LexEnd;
    if k < |post| {
      LexShift(x, post, k);
      CodeShift(x, post, LexEnd(post, k), m);
    }
  }

  // ----- Lexing looks at most a little beyond what it reads -----

  /** Two texts that agree up to a token at `p`, and start it alike. */
  ghost predicate SameStart(a: string, b: string, p: nat) {
    && p + 1 < |a| && p + 1 < |b| && (forall k :: 0 <= k <= p ==> a[k] == b[k])
    && (a[p] == '/' || a[p] == 'r' || a[p] == '"' || a[p] == '\'')
  }

  lemma OccursLocal(needle: string, a: string, b: string, p: nat, q: nat)
    requires SameStart(a, b, p) && q + |needle| <= p
    ensures OccursAt(needle, a, q) <==> OccursAt(needle, b, q)
  {
    assert a[q..q + |needle|] == b[q..q + |needle|];
  }

  lemma AfterFirstLocal(needle: string, a: string, b: string, p: nat, j: nat)
    requires SameStart(a, b, p) && j <= p && AfterFirst(needle, a, j) <= p
    ensures AfterFirst(needle, b, j) == AfterFirst(needle, a, j)
  {
    hide OccursAt;
    var x := Find(needle, a, j).value;
    forall q: nat | j <= q <= x ensures OccursAt(needle, a, q) <==> OccursAt(needle, b, q) {
      OccursLocal(needle, a, b, p, q);
    }
    FirstIs(needle, b, j, x);
  }

  lemma LineLocal(a: string, b: string, p: nat, j: nat)
    requires SameStart(a, b, p) && j <= p && LineEnd(a, j) <= p
    ensures LineEnd(b, j) == LineEnd(a, j)
  {
    var x := Find("\n", a, j).value;
    OccursAtChar("\n", a, x, 0);
    hide OccursAt;
    forall q: nat | j <= q <= x ensures OccursAt("\n", a, q) <==> OccursAt("\n", b, q) {
      OccursLocal("\n", a, b, p, q);
    }
    FirstIs("\n", b, j, x);
  }

  lemma {:induction false} HashLocal(a: string, b: string, p: nat, j: nat)
    requires SameStart(a, b, p) && j <= p
    ensures HashRun(b, j) == HashRun(a, j) && j + HashRun(a, j) <= p
    decreases p - j
  {
    if a[j] == '#' { HashLocal(a, b, p, j + 1); }
  }

  lemma {:induction false} BlockLocal(a: string, b: string, p: nat, j: nat, depth: nat)
    requires SameStart(a, b, p) && j <= p && BlockEnd(a, j, depth) <= p
    ensures BlockEnd(b, j, depth) == BlockEnd(a, j, depth)
    decreases p - j
  {
    if depth > 0 && j < p {
      if a[j] == '/' && a[j + 1] == '*' {
        BlockLocal(a, b, p, j + 2, depth + 1);
      } else if a[j] == '*' && a[j + 1] == '/' {
        BlockLocal(a, b, p, j + 2, depth - 1);
      } else {
        BlockLocal(a, b, p, j + 1, depth);
      }
    }
  }

  lemma {:induction false} StringLocal(a: string, b: string, p: nat, j: nat)
    requires SameStart(a, b, p) && j <= p && StringEnd(a, j) <= p
    ensures StringEnd(b, j) == StringEnd(a, j)
    decreases p - j
  {
    if j < p {
      if a[j] == '\\' {
        StringLocal(a, b, p, j + 2);
      } else if a[j] != '"' {
        StringLocal(a, b, p, j + 1);
      }
    }
  }

  lemma OpeningsLocal(a: string, b: string, p: nat, i: nat)
    requires SameStart(a, b, p) && i < p && NextAlike(a, b, p, i)
    ensures OpensLine(b, i) <==> OpensLine(a, i)
    ensures OpensBlock(b, i) <==> OpensBlock(a, i)
    ensures OpensRaw(b, i) <==> OpensRaw(a, i)
    ensures OpensString(b, i) <==> OpensString(a, i)
    ensures OpensEscapedChar(b, i) <==> OpensEscapedChar(a, i)
    ensures OpensChar(b, i) <==> OpensChar(a, i)
  {
    HashLocal(a, b, p, i + 1);
    hide HashRun;
  }

  lemma RawLocal(a: string, b: string, p: nat, i: nat)
    requires SameStart(a, b, p) && i < p && OpensRaw(a, i) && OpensRaw(b, i) && LexEnd(a, i) <= p
    ensures LexEnd(b, i) == LexEnd(a, i)
  {
    hide LexEnd;
    hide HashRun;
    hide Closer;
    hide AfterFirst;
    hide SameStart;
    var n := HashRun(a, i + 1);
    assert HashRun(b, i + 1) == n by { HashLocal(a, b, p, i + 1); }
    assert LexEnd(a, i) == AfterFirst(Closer(n), a, i + n + 2) by { LexCases(a, i); }
    assert LexEnd(b, i) == AfterFirst(Closer(n), b, i + n + 2) by { LexCases(b, i); }
    AfterFirstLocal(Closer(n), a, b, p, i + n + 2);
  }

  /** A quote mark right before `p` is followed by a quote mark behind `p` in both texts or in neither. */
  predicate NextAlike(a: string, b: string, p: nat, i: nat)
    requires i < p && p + 1 < |a| && p + 1 < |b|
  {
    i + 1 == p && a[i] == '\'' ==> (a[p + 1] == '\'' <==> b[p + 1] == '\'')
  }

  /** What ends before the token at `p` ends there in either text. */
  lemma LexLocal(a: string, b: string, p: nat, i: nat)
    requires SameStart(a, b, p) && i < p && LexEnd(a, i) <= p && NextAlike(a, b, p, i)
    ensures LexEnd(b, i) == LexEnd(a, i)
  {
    hide LexEnd;
    hide BlockEnd;
    hide StringEnd;
    hide LineEnd;
    hide AfterFirst;
    hide OpensRaw;
    hide OpensChar;
    hide OpensString;
    OpeningsLocal(a, b, p, i);
    LexCases(a, i);
    LexCases(b, i);
    if OpensLine(a, i) {
      LineLocal(a, b, p, i + 2);
    } else if OpensBlock(a, i) {
      BlockLocal(a, b, p, i + 2, 1);
    } else if OpensRaw(a, i) {
      RawLocal(a, b, p, i);
    } else if OpensString(a, i) {
      StringLocal(a, b, p, i + 1);
    } else if OpensEscapedChar(a, i) {
      AfterFirstLocal("'", a, b, p, i + 3);
    }
  }

  lemma {:induction false} CodeLocal(a: string, b: string, p: nat, i: nat, k: nat)
    requires SameStart(a, b, p) && i <= p && IsCode(a, i, p) && k <= p
    requires p > 0 && IsCode(a, i, p - 1) ==> NextAlike(a, b, p, p - 1)
    ensures IsCode(a, i, k) <==> IsCode(b, i, k)
    decreases p - i
  {
    hide LexEnd;
    if i < p {
      CodeBound(a, LexEnd(a, i), p);
      LexLocal(a, b, p, i);
      CodeLocal(a, b, p, LexEnd(a, i), k);
    } else {
      if IsCode(a, i, k) { CodeBound(a, i, k); }
      if IsCode(b, i, k) { CodeBound(b, i, k); }
    }
  }

  lemma {:induction false} CodeBefore(a: string, b: string, p: nat, i: nat)
    requires SameStart(a, b, p) && i < p && IsCode(a, i, p - 1)
    ensures IsCode(b, i, p - 1)
    decreases p - i
  {
    hide LexEnd;
    if i < p - 1 {
      CodeBound(a, LexEnd(a, i), p - 1);
      LexLocal(a, b, p, i);
      CodeBefore(a, b, p, LexEnd(a, i));
    }
  }

  // ----- Replacing the inside of a token -----

  /** The same delimiters. */
  predicate SameDelimiters(t: Token, u: Token) {
    match (t, u)
    case (LineComment(_), LineComment(_)) => true
    case (BlockComment(_), BlockComment(_)) => true
    case (RawString(n, _), RawString(m, _)) => n == m
    case (StringLiteral(_), StringLiteral(_)) => true
    case (CharLiteral(_), CharLiteral(_)) => true
    case _ => false
  }

  /** A quote mark that is code, with a string literal behind it that starts with a quote mark: that is the character
      literal `'"'`. */
  predicate MakesChar(pre: string, t: Token, code: string) {
    && pre != "" && pre[|pre| - 1] == '\'' && |pre| <= |code| && IsCode(code, 0, |pre| - 1)
    && t.StringLiteral? && StartsWith(t.text, "'")
  }

  lemma WrittenEnds(t: Token)
    requires Closed(t)
    ensures var w := Written(t);
            && w[0] == (if t.LineComment? || t.BlockComment? then '/' else if t.RawString? then 'r'
                        else if t.StringLiteral? then '"' else '\'')
            && (w[1] == '\'' <==> t.StringLiteral? && StartsWith(t.text, "'"))
            && (t.BlockComment? ==> w[|w| - 1] == '/')
            && (t.RawString? ==> w[|w| - 1] == if t.hashes == 0 then '"' else '#')
            && (t.StringLiteral? ==> w[|w| - 1] == '"') && (t.CharLiteral? ==> w[|w| - 1] == '\'')
  {
    hide Nested;
    hide Escaped;
    match t
    case LineComment(text) =>
    case BlockComment(text) =>
    case RawString(n, text) => RawEnds(n, text);
    case StringLiteral(text) => assert StartsWith(text, "'") <==> text != "" && text[0] == '\'';
    case CharLiteral(text) =>
  }

  lemma RawEnds(n: nat, text: string)
    ensures var w := Written(RawString(n, text));
            w[0] == 'r' && w[1] != '\'' && w[|w| - 1] == if n == 0 then '"' else '#'
  {
    var opening, closer := "r" + Hashes(n) + "\"", Closer(n);
    assert opening[1] == (if n == 0 then '"' else '#') && closer[n] == if n == 0 then '"' else '#';
    var w := opening + text + closer;
    assert w[1] == opening[1] && w[|w| - 1] == closer[n];
  }

  lemma StartsAlike(pre: string, t: Token, u: Token, post: string, a: string, b: string)
    requires Closed(t) && Closed(u) && SameDelimiters(t, u)
    requires a == pre + Written(t) + post && b == pre + Written(u) + post
    ensures SameStart(a, b, |pre|)
    ensures a[|pre| + 1] == '\'' <==> t.StringLiteral? && StartsWith(t.text, "'")
    ensures b[|pre| + 1] == '\'' <==> u.StringLiteral? && StartsWith(u.text, "'")
    ensures t.StringLiteral? || u.StringLiteral? ==> a[|pre|] == b[|pre|] == '"'
  {
    hide Written;
    hide Closed;
    WrittenEnds(t);
    WrittenEnds(u);
    var v, w := Written(t), Written(u);
    assert a[|pre|] == v[0] && a[|pre| + 1] == v[1] && b[|pre|] == w[0] && b[|pre| + 1] == w[1];
  }

  /** A word before the token is the same word in both texts. */
  lemma WordBefore(a: string, b: string, p: nat, k: nat, alnum: char -> bool)
    requires SameStart(a, b, p) && k <= p && UnsafeAt(a, k, alnum)
    ensures k + 6 <= p && UnsafeAt(b, k, alnum)
  {
    var word := "unsafe";
    if p < k + 6 { OccursAtChar(word, a, k, p - k); }
    OccursLocal(word, a, b, p, k);
    hide OccursAt;
  }

  /** A word behind the token is the same word in both texts. */
  lemma WordBehind(x: string, y: string, post: string, a: string, b: string, k: nat, l: nat, alnum: char -> bool)
    requires x != "" && y != "" && a == x + post && b == y + post && k >= |x| && l >= |y| && k - |x| == l - |y|
    requires UnsafeAt(a, k, alnum)
    requires k == |x| ==> x[|x| - 1] == y[|y| - 1]
    ensures UnsafeAt(b, l, alnum)
  {
    var word, m := "unsafe", k - |x|;
    assert m + |word| <= |post|;
    assert a[k..k + |word|] == post[m..m + |word|] == b[l..l + |word|];
    hide OccursAt;
    assert m > 0 ==> a[k - 1] == b[l - 1] == post[m - 1];
    assert m + 6 < |post| ==> a[k + 6] == b[l + 6] == post[m + 6];
  }

  lemma CodeStep(code: string, i: nat, k: nat)
    requires i < |code| && IsCode(code, LexEnd(code, i), k)
    ensures IsCode(code, i, k)
  {
    hide LexEnd;
  }

  /** Code behind the token is code in both texts. */
  lemma CodeBehind(pre: string, t: Token, u: Token, post: string, x: string, y: string, a: string, b: string, k: nat)
    returns (l: nat)
    requires Closed(t) && Closed(u) && SameDelimiters(t, u)
    requires t.LineComment? ==> post == "" || post[0] == '\n'
    requires x == pre + Written(t) && y == pre + Written(u) && a == x + post && b == y + post
    requires IsCode(a, 0, |pre|) && IsCode(b, 0, |pre|) && IsCode(a, 0, k) && |pre| < k
    ensures k >= |x| && l >= |y| && k - |x| == l - |y| && IsCode(b, 0, l)
  {
    hide LexEnd;
    hide IsCode;
    hide Written;
    hide Closed;
    var p := |pre|;
    TokenLexes(pre, t, post, a);
    TokenLexes(pre, u, post, b);
    CodeAfter(a, 0, p, k);
    CodeBound(a, |x|, k);
    var m := k - |x|;
    l := |y| + m;
    CodeShift(x, post, 0, m);
    CodeShift(y, post, 0, m);
    CodeStep(b, p, l);
    CodeThrough(b, 0, p, l);
  }

  lemma Mentioned(code: string, k: nat, alnum: char -> bool)
    requires IsCode(code, 0, k) && UnsafeAt(code, k, alnum)
    ensures MentionsUnsafe(code, alnum)
  {
    hide UnsafeAt;
    CodeBound(code, 0, k);
  }

  lemma QuoteTurns(code: string, p: nat)
    requires 0 < p && p + 1 < |code| && code[p - 1] == '\'' && code[p] == '"'
    ensures IsCode(code, 0, p - 1) && IsCode(code, 0, p) ==> code[p + 1] != '\''
  {
    LexCases(code, p - 1);
    hide LexEnd;
    if IsCode(code, 0, p - 1) && IsCode(code, 0, p) {
      CodeAfter(code, 0, p - 1, p);
      CodeBound(code, LexEnd(code, p - 1), p);
    }
  }

  /** Where a token stands another one with the same delimiters stands as well, unless the other one is a string literal
      that completes a character literal. */
  lemma StaysCode(pre: string, t: Token, u: Token, post: string)
    requires Closed(t) && Closed(u) && SameDelimiters(t, u)
    requires IsCode(pre + Written(t) + post, 0, |pre|)
    ensures IsCode(pre + Written(u) + post, 0, |pre|) <==> !MakesChar(pre, u, pre + Written(t) + post)
  {
    hide LexEnd;
    hide IsCode;
    hide Written;
    hide Closed;
    hide SameDelimiters;
    var p, a, b := |pre|, pre + Written(t) + post, pre + Written(u) + post;
    CodeBound(a, 0, p);
    StartsAlike(pre, t, u, post, a, b);
    if p > 0 && pre[p - 1] == '\'' && IsCode(a, 0, p - 1) && u.StringLiteral? {
      QuoteTurns(a, p);
      QuoteTurns(b, p);
      CodeBefore(a, b, p, 0);
    }
    if !MakesChar(pre, u, a) {
      NoCharMade(pre, t, u, post, a, b);
      CodeLocal(a, b, p, 0, p);
    }
  }

  lemma NoCharMade(pre: string, t: Token, u: Token, post: string, a: string, b: string)
    requires Closed(t) && Closed(u) && SameDelimiters(t, u) && a == pre + Written(t) + post &&
      b == pre + Written(u) + post
    requires IsCode(a, 0, |pre|) && !MakesChar(pre, u, a)
    ensures SameStart(a, b, |pre|)
    ensures |pre| > 0 && IsCode(a, 0, |pre| - 1) ==> NextAlike(a, b, |pre|, |pre| - 1)
  {
    hide LexEnd;
    hide IsCode;
    hide Written;
    hide Closed;
    var p := |pre|;
    StartsAlike(pre, t, u, post, a, b);
    if p > 0 && IsCode(a, 0, p - 1) && pre[p - 1] == '\'' && t.StringLiteral? { QuoteTurns(a, p); }
  }

  lemma MentionCarries(pre: string, t: Token, u: Token, post: string, x: string, y: string, a: string, b: string,
                       k: nat, alnum: char -> bool)
    requires Closed(t) && Closed(u) && SameDelimiters(t, u)
    requires t.LineComment? ==> post == "" || post[0] == '\n'
    requires x == pre + Written(t) && y == pre + Written(u) && a == x + post && b == y + post
    requires IsCode(a, 0, |pre|) && IsCode(b, 0, |pre|)
    requires IsCode(a, 0, k) && UnsafeAt(a, k, alnum)
    ensures MentionsUnsafe(b, alnum)
  {
    hide *;
    var p := |pre|;
    StaysCode(pre, t, u, post);
    NoCharMade(pre, t, u, post, a, b);
    if k <= p {
      WordBefore(a, b, p, k, alnum);
      CodeLocal(a, b, p, 0, k);
      Mentioned(b, k, alnum);
    } else {
      var l := CodeBehind(pre, t, u, post, x, y, a, b, k);
      SameEnding(pre, t, u, post, x, y, a, k, alnum);
      WordBehind(x, y, post, a, b, k, l, alnum);
      Mentioned(b, l, alnum);
    }
  }

  lemma AnswerCarries(pre: string, t: Token, u: Token, post: string, a: string, b: string, alnum: char -> bool)
    requires Closed(t) && Closed(u) && SameDelimiters(t, u)
    requires t.LineComment? ==> post == "" || post[0] == '\n'
    requires a == pre + Written(t) + post && b == pre + Written(u) + post && IsCode(a, 0, |pre|) && IsCode(b, 0, |pre|)
    requires MentionsUnsafe(a, alnum)
    ensures MentionsUnsafe(b, alnum)
  {
    hide IsCode;
    hide UnsafeAt;
    hide Written;
    hide Closed;
    hide SameDelimiters;
    var k :| 0 <= k < |a| && IsCode(a, 0, k) && UnsafeAt(a, k, alnum);
    MentionCarries(pre, t, u, post, pre + Written(t), pre + Written(u), a, b, k, alnum);
  }

  /** A word right behind the token is preceded by the same character, as tokens with the same delimiters end alike. */
  lemma SameEnding(pre: string, t: Token, u: Token, post: string, x: string, y: string, a: string, k: nat,
                   alnum: char -> bool)
    requires Closed(t) && Closed(u) && SameDelimiters(t, u) && x == pre + Written(t) && y == pre + Written(u)
    requires t.LineComment? ==> post == "" || post[0] == '\n'
    requires a == x + post && UnsafeAt(a, k, alnum)
    ensures k == |x| ==> x[|x| - 1] == y[|y| - 1]
  {
    WrittenEnds(t);
    WrittenEnds(u);
    hide Written;
    hide Closed;
    OccursAtChar("unsafe", a, k, 0);
    hide OccursAt;
    assert x[|x| - 1] == Written(t)[|Written(t)| - 1] && y[|y| - 1] == Written(u)[|Written(u)| - 1];
    if k == |x| { assert a[k] == post[0]; }
  }

  /** What a closed comment or literal says does not matter to the answer, as long as it stands in the code in both
      texts (`StaysCode`). */
  lemma ReplaceInside(pre: string, t: Token, u: Token, post: string, alnum: char -> bool)
    requires Closed(t) && Closed(u) && SameDelimiters(t, u)
    requires t.LineComment? ==> post == "" || post[0] == '\n'
    requires IsCode(pre + Written(t) + post, 0, |pre|) && IsCode(pre + Written(u) + post, 0, |pre|)
    ensures MentionsUnsafe(pre + Written(t) + post, alnum) <==> MentionsUnsafe(pre + Written(u) + post, alnum)
  {
    hide MentionsUnsafe;
    hide Written;
    hide Closed;
    var a, b := pre + Written(t) + post, pre + Written(u) + post;
    if MentionsUnsafe(a, alnum) { AnswerCarries(pre, t, u, post, a, b, alnum); }
    if MentionsUnsafe(b, alnum) { AnswerCarries(pre, u, t, post, b, a, alnum); }
  }
}
