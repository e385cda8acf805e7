/** Where comments and literals of Rust source end, as its lexical rules say. */
module RustText {
  import opened Strings

  // ----- The end of each kind of comment and literal -----

  /** How many `#` stand in a row. */
  function HashRun(code: string, j: nat): (n: nat)
    requires j <= |code|
    ensures j + n <= |code| && (forall k :: j <= k < j + n ==> code[k] == '#')
    ensures j + n < |code| ==> code[j + n] != '#'
    decreases |code| - j
  {
    if j < |code| && code[j] == '#' then 1 + HashRun(code, j + 1) else 0
  }

  function Hashes(n: nat): (s: string)
    ensures |s| == n && forall k :: 0 <= k < n ==> s[k] == '#'
  {
    if n == 0 then "" else Hashes(n - 1) + "#"
  }

  /** What closes a raw string that was opened with `n` hashes. */
  function Closer(n: nat): string { "\"" + Hashes(n) }

  function AfterFirst(needle: string, code: string, j: nat): (r: nat)
    requires j <= |code|
    ensures j <= r <= |code|
  {
    match Find(needle, code, j)
    case None => |code|
    case Some(p) => p + |needle|
  }

  /** A line comment ends before the line feed. */
  function LineEnd(code: string, j: nat): (r: nat)
    requires j <= |code|
    ensures j <= r <= |code|
  {
    match Find("\n", code, j)
    case None => |code|
    case Some(p) => p
  }

  /** Block comments nest. */
  function BlockEnd(code: string, j: nat, depth: nat): (r: nat)
    requires j <= |code|
    ensures j <= r <= |code|
    decreases |code| - j
  {
    if depth == 0 then j
    else if j + 1 >= |code| then |code|
    else if code[j] == '/' && code[j + 1] == '*' then BlockEnd(code, j + 2, depth + 1)
    else if code[j] == '*' && code[j + 1] == '/' then BlockEnd(code, j + 2, depth - 1)
    else BlockEnd(code, j + 1, depth)
  }

  /** A backslash takes the character after it with it. */
  function StringEnd(code: string, j: nat): (r: nat)
    requires j <= |code|
    ensures j <= r <= |code|
    decreases |code| - j
  {
    if j == |code| then j
    else if code[j] == '\\' && j + 1 < |code| then StringEnd(code, j + 2)
    else if code[j] == '"' then j + 1
    else StringEnd(code, j + 1)
  }

  predicate OpensLine(code: string, i: nat) { i + 1 < |code| && code[i] == '/' && code[i + 1] == '/' }

  predicate OpensBlock(code: string, i: nat) { i + 1 < |code| && code[i] == '/' && code[i + 1] == '*' }

  predicate OpensRaw(code: string, i: nat) {
    i < |code| && code[i] == 'r' &&
    var q := i + 1 + HashRun(code, i + 1);
    q < |code| && code[q] == '"'
  }

  predicate OpensString(code: string, i: nat) { i < |code| && code[i] == '"' }

  predicate OpensEscapedChar(code: string, i: nat) { i + 1 < |code| && code[i] == '\'' && code[i + 1] == '\\' }

  predicate OpensChar(code: string, i: nat) {
    i + 2 < |code| && code[i] == '\'' && code[i + 1] != '\\' && code[i + 2] == '\''
  }

  /** The end of the comment, literal or single character that starts at `i`; a quote mark that opens no character
      literal belongs to a lifetime. What is not closed runs to the end of the text. */
  function LexEnd(code: string, i: nat): (r: nat)
    requires i < |code|
    ensures i < r <= |code|
  {
    if OpensLine(code, i) then LineEnd(code, i + 2)
    else if OpensBlock(code, i) then BlockEnd(code, i + 2, 1)
    else if OpensRaw(code, i) then
      var n := HashRun(code, i + 1);
      AfterFirst(Closer(n), code, i + n + 2)
    else if OpensString(code, i) then StringEnd(code, i + 1)
    else if OpensEscapedChar(code, i) then
      if i + 2 == |code| then |code| else AfterFirst("'", code, i + 3)
    else if OpensChar(code, i) then i + 3
    else i + 1
  }

  predicate OpensNothing(code: string, i: nat) {
    && !OpensLine(code, i) && !OpensBlock(code, i) && !OpensRaw(code, i) && !OpensString(code, i)
    && !OpensEscapedChar(code, i) && !OpensChar(code, i)
  }

  /** `LexEnd` case by case. */
  lemma LexCases(code: string, i: nat)
    requires i < |code|
    ensures OpensLine(code, i) ==> LexEnd(code, i) == LineEnd(code, i + 2)
    ensures OpensBlock(code, i) ==> LexEnd(code, i) == BlockEnd(code, i + 2, 1)
    ensures OpensRaw(code, i) ==>
      var n := HashRun(code, i + 1); LexEnd(code, i) == AfterFirst(Closer(n), code, i + n + 2)
    ensures OpensString(code, i) ==> LexEnd(code, i) == StringEnd(code, i + 1)
    ensures OpensEscapedChar(code, i) && i + 2 < |code| ==> LexEnd(code, i) == AfterFirst("'", code, i + 3)
    ensures OpensEscapedChar(code, i) && i + 2 == |code| ==> LexEnd(code, i) == |code|
    ensures OpensChar(code, i) ==> LexEnd(code, i) == i + 3
    ensures OpensNothing(code, i) ==> LexEnd(code, i) == i + 1
  {
    hide BlockEnd;
    hide StringEnd;
    hide AfterFirst;
    hide LineEnd;
    hide HashRun;
    hide Closer;
  }

  // ----- Code -----

  /** `k` is outside every comment and literal of the text from `i` on. */
  predicate IsCode(code: string, i: nat, k: nat)
    requires i <= |code|
    decreases |code| - i
  {
    i < |code| && (i == k || IsCode(code, LexEnd(code, i), k))
  }

  predicate IsWordChar(c: char, alnum: char -> bool) { alnum(c) || c == '_' }

  /** The whole word `unsafe` stands at `k`. */
  predicate UnsafeAt(code: string, k: nat, alnum: char -> bool) {
    && OccursAt("unsafe", code, k)
    && (k == 0 || !IsWordChar(code[k - 1], alnum))
    && (k + 6 >= |code| || !IsWordChar(code[k + 6], alnum))
  }

  /** Where the word that reaches to `k` ends. */
  function WordEnd(code: string, k: nat, alnum: char -> bool): (r: nat)
    requires k <= |code|
    ensures k <= r <= |code| && (forall j :: k <= j < r ==> IsWordChar(code[j], alnum))
    ensures r < |code| ==> !IsWordChar(code[r], alnum)
    decreases |code| - k
  {
    if k < |code| && IsWordChar(code[k], alnum) then WordEnd(code, k + 1, alnum) else k
  }

  /** A whole word is one that starts at `k` and of which all is `unsafe`: neither `unsafely` nor `not_unsafe`, as
      letters, digits and the underscore make words. */
  lemma WholeWord(code: string, k: nat, alnum: char -> bool)
    requires k <= |code| && forall c :: c in "unsafe" ==> alnum(c)
    ensures UnsafeAt(code, k, alnum) <==>
      (k > 0 ==> !IsWordChar(code[k - 1], alnum)) && code[k..WordEnd(code, k, alnum)] == "unsafe"
    ensures UnsafeAt(code, k, alnum) ==>
      forall i :: (i == k - 1 && i >= 0) || (i == k + 6 && i < |code|) ==> code[i] != '_' && !alnum(code[i])
  {
    var word, e := "unsafe", WordEnd(code, k, alnum);
    if OccursAt(word, code, k) {
      forall j | k <= j < k + 6 ensures IsWordChar(code[j], alnum) {
        OccursAtChar(word, code, k, j - k);
        assert word[j - k] in word;
      }
      assert e >= k + 6;
    }
    if code[k..e] == word { assert e == k + 6; }
  }

  /** Some code of the text is the word `unsafe`. */
  predicate MentionsUnsafe(code: string, alnum: char -> bool) {
    exists k | 0 <= k < |code| :: IsCode(code, 0, k) && UnsafeAt(code, k, alnum)
  }

  lemma {:induction false} CodeBound(code: string, i: nat, k: nat)
    requires i <= |code| && IsCode(code, i, k)
    ensures i <= k < |code|
    decreases |code| - i
  {
    if i != k { CodeBound(code, LexEnd(code, i), k); }
  }

  lemma {:induction false} CodeThrough(code: string, i: nat, m: nat, k: nat)
    requires i <= |code| && m <= |code| && IsCode(code, i, m) && IsCode(code, m, k)
    ensures IsCode(code, i, k)
    decreases |code| - i
  {
    CodeBound(code, i, m);
    if i != m { CodeThrough(code, LexEnd(code, i), m, k); }
  }

  /** The positions of code are passed one after the other. */
  lemma {:induction false} CodeAfter(code: string, i: nat, m: nat, k: nat)
    requires i <= |code| && IsCode(code, i, m) && IsCode(code, i, k) && m < k
    ensures m < |code| && IsCode(code, LexEnd(code, m), k)
    decreases |code| - i
  {
    CodeBound(code, i, m);
    if i != m { CodeAfter(code, LexEnd(code, i), m, k); }
  }

  // ----- Comments and literals as they are written -----

  datatype Token =
    | LineComment(text: string)
    | BlockComment(text: string)
    | RawString(hashes: nat, text: string)
    | StringLiteral(text: string)
    | CharLiteral(text: string)

  function Written(t: Token): (s: string)
    ensures |s| >= 2
  {
    match t
    case LineComment(text) => "//" + text
    case BlockComment(text) => "/*" + text + "*/"
    case RawString(n, text) => "r" + Hashes(n) + "\"" + text + Closer(n)
    case StringLiteral(text) => "\"" + text + "\""
    case CharLiteral(text) => "'" + text + "'"
  }

  /** Inside a block comment that is open `depth` times every opening has its closing; a last slash would make an
      opening of the closing. */
  predicate Nested(text: string, depth: nat) {
    if text == "" then depth == 1
    else if |text| > 1 && text[0] == '/' && text[1] == '*' then Nested(text[2..], depth + 1)
    else if |text| > 1 && text[0] == '*' && text[1] == '/' then depth > 1 && Nested(text[2..], depth - 1)
    else text != "/" && Nested(text[1..], depth)
  }

  /** Every quote mark is escaped, and so is every backslash. */
  predicate Escaped(text: string) {
    if text == "" then true
    else if text[0] == '\\' then |text| > 1 && Escaped(text[2..])
    else text[0] != '"' && Escaped(text[1..])
  }

  /** The text does not close its token early. */
  predicate Closed(t: Token) {
    match t
    case LineComment(text) => '\n' !in text
    case BlockComment(text) => Nested(text, 1)
    case RawString(n, text) => !Contains(Closer(n), text)
    case StringLiteral(text) => Escaped(text)
    case CharLiteral(text) =>
      if |text| > 1 then text[0] == '\\' && '\'' !in text[2..]
      else |text| == 1 && text[0] != '\\' && text[0] != '\''
  }

  lemma {:induction false} BlockCloses(code: string, j: nat, text: string, depth: nat)
    requires OccursAt(text + "*/", code, j) && Nested(text, depth) && depth > 0
    ensures BlockEnd(code, j, depth) == j + |text| + 2
    decreases |text|
  {
    var all := text + "*/";
    assert code[j..j + |all|] == all;
    assert forall d :: 0 <= d < |all| ==> code[j + d] == all[d];
    if text == "" {
    } else if |text| > 1 && text[0] == '/' && text[1] == '*' {
      assert text[2..] + "*/" == all[2..] == code[j + 2..j + |all|];
      BlockCloses(code, j + 2, text[2..], depth + 1);
    } else if |text| > 1 && text[0] == '*' && text[1] == '/' {
      assert text[2..] + "*/" == all[2..] == code[j + 2..j + |all|];
      BlockCloses(code, j + 2, text[2..], depth - 1);
    } else {
      assert text[1..] + "*/" == all[1..] == code[j + 1..j + |all|];
      assert |text| > 1 || text[0] != '/';
      assert |text| == 1 ==> all[1] == '*';
      BlockCloses(code, j + 1, text[1..], depth);
    }
  }

  lemma {:induction false} StringCloses(code: string, j: nat, text: string)
    requires OccursAt(text, code, j) && Escaped(text) && j + |text| < |code| && code[j + |text|] == '"'
    ensures StringEnd(code, j) == j + |text| + 1
    decreases |text|
  {
    if text != "" {
      assert code[j..j + |text|][0] == code[j];
      var step := if text[0] == '\\' then 2 else 1;
      assert text[step..] == code[j + step..j + |text|];
      StringCloses(code, j + step, text[step..]);
    }
  }

  lemma FirstIs(needle: string, code: string, j: nat, p: nat)
    requires FirstAt(needle, code, j, p)
    ensures Find(needle, code, j) == Some(p)
  {
  }

  lemma InnerSlice(s: string, i: nat, j: nat, a: nat, b: nat)
    requires i <= j <= |s| && a <= b <= j - i
    ensures s[i..j][a..b] == s[i + a..i + b]
  {
    forall k | 0 <= k < b - a ensures s[i..j][a..b][k] == s[i + a..i + b][k] {}
  }

  lemma Parts(a: string, b: string, c: string, code: string, p: nat)
    requires OccursAt(a + b + c, code, p)
    ensures OccursAt(a, code, p) && OccursAt(b, code, p + |a|) && OccursAt(c, code, p + |a| + |b|)
  {
    var w := a + b + c;
    assert w[0..|a|] == a && w[|a|..|a| + |b|] == b && w[|a| + |b|..|w|] == c;
    InnerSlice(code, p, p + |w|, 0, |a|);
    InnerSlice(code, p, p + |w|, |a|, |a| + |b|);
    InnerSlice(code, p, p + |w|, |a| + |b|, |w|);
  }

  lemma OccursWithin(needle: string, text: string, code: string, j: nat, q: nat)
    requires OccursAt(text, code, j) && OccursAt(needle, code, q) && j <= q && q + |needle| <= j + |text|
    ensures OccursAt(needle, text, q - j)
  {
    InnerSlice(code, j, j + |text|, q - j, q - j + |needle|);
  }

  lemma RawCloses(code: string, j: nat, text: string, n: nat)
    requires OccursAt(text, code, j) && OccursAt(Closer(n), code, j + |text|) && !Contains(Closer(n), text)
    ensures AfterFirst(Closer(n), code, j) == j + |text| + n + 1
  {
    var closer := Closer(n);
    var p := j + |text|;
    OccursAtChar(closer, code, p, 0);
    forall q: nat | j <= q < p ensures !OccursAt(closer, code, q) {
      if q + |closer| <= p {
        if OccursAt(closer, code, q) { OccursWithin(closer, text, code, j, q); }
      } else {
        assert closer[p - q] == '#' && code[p] == '"';
        if OccursAt(closer, code, q) { OccursAtChar(closer, code, q, p - q); }
      }
    }
    FirstIs(closer, code, j, p);
  }

  lemma FirstChar(c: char, code: string, j: nat, p: nat)
    requires j <= p < |code| && code[p] == c && forall q :: j <= q < p ==> code[q] != c
    ensures Find([c], code, j) == Some(p)
  {
    assert code[p..p + 1] == [c];
    forall q: nat | j <= q < p ensures !OccursAt([c], code, q) {
      assert q + 1 <= |code| ==> code[q..q + 1][0] == code[q];
    }
    FirstIs([c], code, j, p);
  }

  lemma NoChar(c: char, code: string, j: nat)
    requires forall q :: j <= q < |code| ==> code[q] != c
    ensures Find([c], code, j) == None
  {
    forall q: nat | j <= q ensures !OccursAt([c], code, q) { assert q + 1 <= |code| ==> code[q..q + 1][0] == code[q]; }
  }

  lemma {:induction false} HashRunIs(code: string, j: nat, n: nat)
    requires j + n < |code| && (forall k :: j <= k < j + n ==> code[k] == '#') && code[j + n] != '#'
    ensures HashRun(code, j) == n
    decreases n
  {
    if n > 0 { HashRunIs(code, j + 1, n - 1); }
  }

  lemma LineLexes(code: string, p: nat, text: string)
    requires OccursAt("//" + text, code, p) && '\n' !in text
    requires p + 2 + |text| == |code| || code[p + 2 + |text|] == '\n'
    ensures LexEnd(code, p) == p + 2 + |text|
  {
    var w := "//" + text;
    assert code[p..p + |w|] == w;
    assert forall q :: p <= q < p + |w| ==> code[q] == w[q - p];
    assert forall q :: p + 2 <= q < p + |w| ==> code[q] == text[q - p - 2];
    if p + |w| == |code| { NoChar('\n', code, p + 2); } else { FirstChar('\n', code, p + 2, p + |w|); }
  }

  lemma BlockLexes(code: string, p: nat, text: string)
    requires OccursAt("/*" + text + "*/", code, p) && Nested(text, 1)
    ensures LexEnd(code, p) == p + 4 + |text|
  {
    hide OccursAt;
    hide BlockEnd;
    hide Nested;
    Parts("/*", text, "*/", code, p);
    OccursAtChar("/*", code, p, 0);
    OccursAtChar("/*", code, p, 1);
    Joined(text, "*/", code, p + 2);
    BlockCloses(code, p + 2, text, 1);
  }

  lemma Joined(a: string, b: string, code: string, p: nat)
    requires OccursAt(a, code, p) && OccursAt(b, code, p + |a|)
    ensures OccursAt(a + b, code, p)
  {
    assert code[p..p + |a + b|] == code[p..p + |a|] + code[p + |a|..p + |a| + |b|];
  }

  lemma RawLexes(code: string, p: nat, text: string, n: nat)
    requires OccursAt("r" + Hashes(n) + "\"" + text + Closer(n), code, p) && !Contains(Closer(n), text)
    ensures LexEnd(code, p) == p + 3 + 2 * n + |text|
  {
    hide OccursAt;
    hide HashRun;
    hide Contains;
    var opening := "r" + Hashes(n) + "\"";
    Parts(opening, text, Closer(n), code, p);
    forall k | p <= k < p + n + 2 ensures code[k] == opening[k - p] { OccursAtChar(opening, code, p, k - p); }
    HashRunIs(code, p + 1, n);
    RawCloses(code, p + n + 2, text, n);
  }

  lemma StringLexes(code: string, p: nat, text: string)
    requires OccursAt("\"" + text + "\"", code, p) && Escaped(text)
    ensures LexEnd(code, p) == p + 2 + |text|
  {
    hide LexEnd;
    hide Escaped;
    hide OccursAt;
    var quote := "\"";
    assert OccursAt(quote + text + quote, code, p);
    Parts(quote, text, quote, code, p);
    OccursAtChar(quote, code, p, 0);
    OccursAtChar(quote, code, p + 1 + |text|, 0);
    QuotedLexes(code, p, text);
  }

  lemma QuotedLexes(code: string, p: nat, text: string)
    requires OccursAt(text, code, p + 1) && Escaped(text) && p + 1 + |text| < |code|
    requires code[p] == '"' && code[p + 1 + |text|] == '"'
    ensures LexEnd(code, p) == p + 2 + |text|
  {
    hide LexEnd;
    hide StringEnd;
    hide Escaped;
    StringCloses(code, p + 1, text);
    LexCases(code, p);
  }

  lemma CharLexes(code: string, p: nat, text: string)
    requires OccursAt("'" + text + "'", code, p) && Closed(CharLiteral(text))
    ensures LexEnd(code, p) == p + 2 + |text|
  {
    var w := "'" + text + "'";
    assert code[p..p + |w|] == w;
    assert code[p] == w[0] && code[p + 1] == w[1] && code[p + 1 + |text|] == w[1 + |text|];
    if |text| > 1 {
      assert forall q :: p <= q < p + |w| ==> code[q] == w[q - p];
      assert forall q :: p + 3 <= q < p + 1 + |text| ==> code[q] == text[2..][q - p - 3];
      FirstChar('\'', code, p + 3, p + 1 + |text|);
    }
  }

  /** Written out anywhere in a text, a closed token ends where it says. */
  lemma TokenLexes(pre: string, t: Token, post: string, code: string)
    requires Closed(t) && code == pre + Written(t) + post
    requires t.LineComment? ==> post == "" || post[0] == '\n'
    ensures |pre| < |code| && LexEnd(code, |pre|) == |pre| + |Written(t)|
  {
    hide LexEnd;
    hide Nested;
    hide Escaped;
    hide Contains;
    var p, w := |pre|, Written(t);
    assert code[p..p + |w|] == w;
    assert post != "" ==> code[p + |w|] == post[0];
    match t
    case LineComment(text) => LineLexes(code, p, text);
    case BlockComment(text) => BlockLexes(code, p, text);
    case RawString(n, text) => RawLexes(code, p, text, n);
    case StringLiteral(text) => StringLexes(code, p, text);
    case CharLiteral(text) => CharLexes(code, p, text);
  }
}
