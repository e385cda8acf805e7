/** Repairing citation keys (exts/coding_guidelines/bibliography_validator.py, lines 59-103, and citation_roles.py,
    lines 42-95): the repaired key is always a key. */
module CitationKeys {
  import opened Strings

  predicate IsUpper(c: char) { 'A' <= c <= 'Z' }

  predicate IsKeyChar(c: char) { IsUpper(c) || IsDigit(c) || c == '-' }

  /** The language of citation keys: `^[A-Z][A-Z0-9-]*[A-Z0-9]$` without a line feed at the end. */
  predicate IsKey(s: string) {
    && |s| >= 2 && (forall i | 0 <= i < |s| :: IsKeyChar(s[i]))
    && IsUpper(s[0]) && s[|s| - 1] != '-'
  }

  // ----- The steps of the repair -----

  predicate IsSeparator(c: char) { IsSpace(c) || c == '_' }

  function SkipSeparators(s: string): (r: string)
    ensures |r| <= |s|
    ensures r != "" ==> !IsSeparator(r[0])
  {
    if s != "" && IsSeparator(s[0]) then SkipSeparators(s[1..]) else s
  }

  /** Every run of spaces and underscores becomes a hyphen. */
  function Hyphenate(s: string): string
    decreases |s|
  {
    if s == "" then ""
    else if IsSeparator(s[0]) then "-" + Hyphenate(SkipSeparators(s[1..]))
    else [s[0]] + Hyphenate(s[1..])
  }

  function Keep(s: string): (r: string)
    ensures forall i :: 0 <= i < |r| ==> IsKeyChar(r[i])
  {
    if s == "" then "" else (if IsKeyChar(s[0]) then [s[0]] else "") + Keep(s[1..])
  }

  function TrimEnd(s: string): (r: string)
    ensures r <= s && (r != "" ==> r[|r| - 1] != '-')
  {
    if s != "" && s[|s| - 1] == '-' then TrimEnd(s[..|s| - 1]) else s
  }

  /** `s.strip("-")`. */
  function Trim(s: string): (r: string)
    ensures forall c :: c in r ==> c in s
    ensures r != "" ==> r[0] != '-' && r[|r| - 1] != '-'
  {
    if s != "" && s[0] == '-' then Trim(s[1..]) else TrimEnd(s)
  }

  /** Every run of hyphens becomes one. */
  function Collapse(s: string): (r: string)
    ensures forall c :: c in r ==> c in s
    ensures s != "" ==> r != "" && r[0] == s[0] && r[|r| - 1] == s[|s| - 1]
  {
    if |s| <= 1 then s
    else if s[0] == '-' && s[1] == '-' then Collapse(s[1..])
    else [s[0]] + Collapse(s[1..])
  }

  /** The steps that both repairs share; `upper` is Python's. */
  function Clean(key: string, upper: string -> string): string {
    Collapse(Trim(Keep(Hyphenate(upper(key)))))
  }

  /** `suggest_citation_key`. */
  function Suggest(key: string, upper: string -> string): string {
    var cleaned := Clean(key, upper);
    var named := if cleaned != "" && !IsUpper(cleaned[0]) then "REF-" + cleaned else cleaned;
    var ended := if named != "" && named[|named| - 1] == '-' then named[..|named| - 1] else named;
    if |ended| < 2 then "REF-CITATION" else ended
  }

  /** What `VALID_CITATION_KEY_PATTERN.match` accepts: the end of the pattern also matches before a last line feed. */
  predicate Matches(s: string) {
    IsKey(s) || (s != "" && s[|s| - 1] == '\n' && IsKey(s[..|s| - 1]))
  }

  /** `validate_citation_key`. */
  function Validate(key: string, upper: string -> string): (bool, string) {
    if key == "" then (false, "CITATION-KEY")
    else if Matches(key) then (true, key)
    else
      var cleaned := Clean(key, upper);
      if |cleaned| < 2 then (false, "CITATION-KEY")
      else if !IsUpper(cleaned[0]) then (false, "REF-" + cleaned)
      else (false, cleaned)
  }

  // ----- The result is a key -----

  /** No two hyphens in a row. */
  predicate Single(s: string) { forall i | 0 <= i < |s| - 1 :: !(s[i] == '-' && s[i + 1] == '-') }

  lemma {:induction false} CollapseIsSingle(s: string)
    ensures Single(Collapse(s))
  {
    if |s| > 1 {
      var rest := Collapse(s[1..]);
      CollapseIsSingle(s[1..]);
      if !(s[0] == '-' && s[1] == '-') {
        var r := [s[0]] + rest;
        forall i | 0 <= i < |r| - 1 ensures !(r[i] == '-' && r[i + 1] == '-') {
          if i > 0 { assert r[i] == rest[i - 1] && r[i + 1] == rest[i]; }
        }
      }
    }
  }

  lemma CleanIsClean(key: string, upper: string -> string)
    ensures var r := Clean(key, upper);
            && (forall i :: 0 <= i < |r| ==> IsKeyChar(r[i])) && Single(r)
            && (r != "" ==> r[0] != '-' && r[|r| - 1] != '-')
  {
    var kept := Keep(Hyphenate(upper(key)));
    var trimmed := Trim(kept);
    CollapseIsSingle(trimmed);
    var r := Collapse(trimmed);
    forall i | 0 <= i < |r| ensures IsKeyChar(r[i]) {
      assert r[i] in trimmed && r[i] in kept;
    }
  }

  lemma PrefixedIsKey(cleaned: string)
    requires cleaned != "" && (forall i :: 0 <= i < |cleaned| ==> IsKeyChar(cleaned[i])) && Single(cleaned)
    requires cleaned[0] != '-' && cleaned[|cleaned| - 1] != '-'
    ensures IsKey("REF-" + cleaned) && Single("REF-" + cleaned)
  {
    var prefix := "REF-";
    var r := prefix + cleaned;
    assert prefix[0] == 'R' && prefix[1] == 'E' && prefix[2] == 'F' && prefix[3] == '-';
    forall i | 0 <= i < |r| ensures IsKeyChar(r[i]) { assert i >= 4 ==> r[i] == cleaned[i - 4]; }
    forall i | 0 <= i < |r| - 1 ensures !(r[i] == '-' && r[i + 1] == '-') {
      assert i >= 3 ==> r[i + 1] == cleaned[i - 3];
      assert i >= 4 ==> r[i] == cleaned[i - 4];
    }
  }

  lemma DefaultsAreKeys()
    ensures IsKey("REF-CITATION") && Single("REF-CITATION") && IsKey("CITATION-KEY")
  {
  }

  /** Whatever the key was, the suggested one is a key, and has no two hyphens in a row. */
  lemma SuggestsKeys(key: string, upper: string -> string)
    ensures IsKey(Suggest(key, upper)) && Single(Suggest(key, upper))
  {
    hide Clean;
    CleanIsClean(key, upper);
    DefaultsAreKeys();
    var cleaned := Clean(key, upper);
    if cleaned != "" { PrefixedIsKey(cleaned); }
  }

  // ----- Repairing twice -----

  lemma {:induction false} HyphenateKeeps(s: string)
    requires forall i :: 0 <= i < |s| ==> IsKeyChar(s[i])
    ensures Hyphenate(s) == s && Keep(s) == s
  {
    if s != "" {
      HyphenateKeeps(s[1..]);
      assert s == [s[0]] + s[1..];
    }
  }

  lemma {:induction false} CollapseKeeps(s: string)
    requires Single(s)
    ensures Collapse(s) == s
  {
    if |s| > 1 {
      var t := s[1..];
      forall i | 0 <= i < |t| - 1 ensures !(t[i] == '-' && t[i + 1] == '-') {
        assert t[i] == s[i + 1] && t[i + 1] == s[i + 2];
      }
      CollapseKeeps(t);
      assert s == [s[0]] + t;
    }
  }

  /** Python's upper case leaves upper case letters, digits and hyphens alone. */
  ghost predicate Uppers(upper: string -> string) {
    forall s :: (forall i :: 0 <= i < |s| ==> IsKeyChar(s[i])) ==> upper(s) == s
  }

  lemma KeysAreKept(key: string, upper: string -> string)
    requires Uppers(upper) && IsKey(key) && Single(key)
    ensures Suggest(key, upper) == key
  {
    HyphenateKeeps(key);
    CollapseKeeps(key);
    hide Hyphenate;
    hide Keep;
    hide Collapse;
    assert TrimEnd(key) == key && Trim(key) == key;
    hide Trim;
    hide Single;
  }

  /** A key is suggested for itself exactly when it has no two hyphens in a row. */
  lemma SuggestFixes(key: string, upper: string -> string)
    requires Uppers(upper)
    ensures Suggest(key, upper) == key <==> IsKey(key) && Single(key)
  {
    hide *;
    if IsKey(key) && Single(key) { KeysAreKept(key, upper); }
    SuggestsKeys(key, upper);
  }

  /** A suggestion is not repaired again. */
  lemma SuggestTwice(key: string, upper: string -> string)
    requires Uppers(upper)
    ensures Suggest(Suggest(key, upper), upper) == Suggest(key, upper)
  {
    hide *;
    SuggestsKeys(key, upper);
    SuggestFixes(Suggest(key, upper), upper);
  }

  // ----- What a repair keeps -----

  /** The letters and digits of a text, without the rest. */
  function Letters(s: string): string {
    if s == "" then "" else (if IsUpper(s[0]) || IsDigit(s[0]) then [s[0]] else "") + Letters(s[1..])
  }

  lemma {:induction false} LettersConcat(a: string, b: string)
    ensures Letters(a + b) == Letters(a) + Letters(b)
    decreases |a|
  {
    hide IsUpper;
    hide IsDigit;
    if a == "" {
      assert a + b == b;
    } else {
      assert (a + b)[1..] == a[1..] + b;
      LettersConcat(a[1..], b);
    }
  }

  lemma {:induction false} SkippedLetters(s: string)
    ensures Letters(SkipSeparators(s)) == Letters(s)
  {
    if s != "" && IsSeparator(s[0]) { SkippedLetters(s[1..]); }
  }

  lemma {:induction false} HyphenatedLetters(s: string)
    ensures Letters(Hyphenate(s)) == Letters(s)
    decreases |s|
  {
    if s != "" {
      if IsSeparator(s[0]) {
        var rest := SkipSeparators(s[1..]);
        HyphenatedLetters(rest);
        SkippedLetters(s[1..]);
        assert ("-" + Hyphenate(rest))[1..] == Hyphenate(rest);
      } else {
        HyphenatedLetters(s[1..]);
        assert ([s[0]] + Hyphenate(s[1..]))[1..] == Hyphenate(s[1..]);
      }
    }
  }

  lemma {:induction false} KeptLetters(s: string)
    ensures Letters(Keep(s)) == Letters(s)
  {
    if s != "" {
      KeptLetters(s[1..]);
      if IsKeyChar(s[0]) {
        assert ([s[0]] + Keep(s[1..]))[1..] == Keep(s[1..]);
      } else {
        assert "" + Keep(s[1..]) == Keep(s[1..]);
      }
    }
  }

  lemma {:induction false} TrimmedEndLetters(s: string)
    ensures Letters(TrimEnd(s)) == Letters(s)
  {
    if s != "" && s[|s| - 1] == '-' {
      var front := s[..|s| - 1];
      TrimmedEndLetters(front);
      assert s == front + "-";
      LettersConcat(front, "-");
    }
  }

  lemma {:induction false} TrimmedLetters(s: string)
    ensures Letters(Trim(s)) == Letters(s)
  {
    if s != "" && s[0] == '-' { TrimmedLetters(s[1..]); } else { TrimmedEndLetters(s); }
  }

  lemma {:induction false} CollapsedLetters(s: string)
    ensures Letters(Collapse(s)) == Letters(s)
  {
    if |s| > 1 {
      CollapsedLetters(s[1..]);
      if !(s[0] == '-' && s[1] == '-') { assert ([s[0]] + Collapse(s[1..]))[1..] == Collapse(s[1..]); }
    }
  }

  /** What the repair is made of are the letters and digits of the key in upper case, in order: with `REF` before them
      if they do not start with a letter, and the default key if there are none or only one letter. */
  lemma RepairKeepsLetters(key: string, upper: string -> string)
    ensures
      var found := Letters(upper(key));
      if found == "" || (|found| == 1 && IsUpper(found[0])) then Suggest(key, upper) == "REF-CITATION"
      else Letters(Suggest(key, upper)) == if IsUpper(found[0]) then found else "REF" + found
  {
    LettersOfClean(key, upper);
    CleanIsClean(key, upper);
    var cleaned := Clean(key, upper);
    hide Clean;
    EndsAreLetters(cleaned);
    LettersConcat("REF-", cleaned);
    PrefixLetters();
    hide Letters;
  }

  lemma LettersOfClean(key: string, upper: string -> string)
    ensures Letters(Clean(key, upper)) == Letters(upper(key))
  {
    var a := upper(key);
    var b := Hyphenate(a);
    var c := Keep(b);
    var d := Trim(c);
    HyphenatedLetters(a);
    KeptLetters(b);
    TrimmedLetters(c);
    CollapsedLetters(d);
    hide Hyphenate;
    hide Keep;
    hide Trim;
    hide Collapse;
    hide Letters;
  }

  /** A text that starts and ends with a letter or digit has no letters only if it is empty, and one only if that is
      all. */
  lemma EndsAreLetters(s: string)
    requires forall i :: 0 <= i < |s| ==> IsKeyChar(s[i])
    requires s != "" ==> s[0] != '-' && s[|s| - 1] != '-'
    ensures |Letters(s)| <= |s| && (s != "" ==> Letters(s) != "" && Letters(s)[0] == s[0])
    ensures |Letters(s)| == 1 ==> |s| == 1
  {
    FewLetters(s);
    if |s| > 1 {
      var front, last := s[..|s| - 1], s[|s| - 1];
      assert s == front + [last] && front[0] == s[0];
      LettersConcat(front, [last]);
      LettersConcat([last], "");
      assert [last][1..] == "";
    }
  }

  lemma {:induction false} FewLetters(s: string)
    ensures |Letters(s)| <= |s|
  {
    if s != "" { FewLetters(s[1..]); }
  }

  lemma PrefixLetters()
    ensures Letters("REF-") == "REF"
  {
    var s := "REF-";
    assert s[1..] == "EF-" && s[1..][1..] == "F-" && s[1..][1..][1..] == "-";
    assert Letters("-") == "";
    assert Letters("F-") == "F";
    assert Letters("EF-") == "EF";
  }

  predicate IsWord(s: string) { s != "" && forall i | 0 <= i < |s| :: IsUpper(s[i]) || IsDigit(s[i]) }

  lemma {:induction false} HyphenatePrefix(a: string, rest: string)
    requires forall i :: 0 <= i < |a| ==> !IsSeparator(a[i])
    ensures Hyphenate(a + rest) == a + Hyphenate(rest)
  {
    if a == "" {
      assert a + rest == rest;
    } else {
      assert (a + rest)[1..] == a[1..] + rest;
      HyphenatePrefix(a[1..], rest);
      assert a == [a[0]] + a[1..];
    }
  }

  lemma {:induction false} SkipsAll(gap: string, b: string)
    requires (forall i :: 0 <= i < |gap| ==> IsSeparator(gap[i])) && b != "" && !IsSeparator(b[0])
    ensures SkipSeparators(gap + b) == b
  {
    if gap == "" {
      assert gap + b == b;
    } else {
      assert (gap + b)[1..] == gap[1..] + b;
      SkipsAll(gap[1..], b);
    }
  }

  lemma GapBecomesHyphen(a: string, gap: string, b: string)
    requires IsWord(a) && IsWord(b) && gap != "" && forall i :: 0 <= i < |gap| ==> IsSeparator(gap[i])
    ensures Hyphenate(a + gap + b) == a + "-" + b
  {
    assert a + gap + b == a + (gap + b) && (gap + b)[1..] == gap[1..] + b;
    forall i | 0 <= i < |a| ensures !IsSeparator(a[i]) {}
    HyphenatePrefix(a, gap + b);
    SkipsAll(gap[1..], b);
    HyphenateKeeps(b);
    assert a + ("-" + b) == a + "-" + b;
  }

  lemma ApartIsKey(a: string, b: string)
    requires IsWord(a) && IsUpper(a[0]) && IsWord(b)
    ensures IsKey(a + "-" + b) && Single(a + "-" + b)
  {
    var r := a + "-" + b;
    forall i | 0 <= i < |r| ensures IsKeyChar(r[i]) && (r[i] == '-' ==> i == |a|) {
      if i > |a| { assert r[i] == b[i - |a| - 1]; }
    }
  }

  /** Words that spaces or underscores keep apart are kept apart by one hyphen. */
  lemma WordsStayApart(a: string, gap: string, b: string, upper: string -> string)
    requires Uppers(upper) && upper(a + gap + b) == a + gap + b
    requires IsWord(a) && IsUpper(a[0]) && IsWord(b)
    requires gap != "" && forall i :: 0 <= i < |gap| ==> IsSpace(gap[i]) || gap[i] == '_'
    ensures Suggest(a + gap + b, upper) == a + "-" + b
  {
    AreSeparators(gap);
    GapBecomesHyphen(a, gap, b);
    ApartIsKey(a, b);
    HyphenatedKey(a + "-" + b, upper);
    hide *;
    SameHyphenation(a + gap + b, a + "-" + b, upper);
    KeysAreKept(a + "-" + b, upper);
  }

  lemma AreSeparators(gap: string)
    requires forall i :: 0 <= i < |gap| ==> IsSpace(gap[i]) || gap[i] == '_'
    ensures forall i :: 0 <= i < |gap| ==> IsSeparator(gap[i])
  {
    hide IsSpace;
  }

  lemma HyphenatedKey(key: string, upper: string -> string)
    requires Uppers(upper) && IsKey(key)
    ensures Hyphenate(upper(key)) == key
  {
    HyphenateKeeps(key);
  }

  lemma SameHyphenation(key: string, other: string, upper: string -> string)
    requires Hyphenate(upper(key)) == Hyphenate(upper(other))
    ensures Suggest(key, upper) == Suggest(other, upper)
  {
    hide Hyphenate;
    hide Keep;
    hide Trim;
    hide Collapse;
  }

  // ----- The other repair -----

  /** A key with a line feed behind it passes for valid, and is handed back as it is. */
  lemma LineFeedPasses(key: string, upper: string -> string)
    requires IsKey(key)
    ensures Validate(key + "\n", upper) == (true, key + "\n") && !IsKey(key + "\n")
  {
    var s := key + "\n";
    assert s[..|s| - 1] == key && s[|s| - 1] == '\n';
    assert !IsKeyChar(s[|s| - 1]);
  }

  predicate IsKeyWithLineFeed(s: string) { s != "" && s[|s| - 1] == '\n' && IsKey(s[..|s| - 1]) }

  /** The suggested key is a key if and only if the given one is not a key with a line feed behind it. */
  lemma ValidatesKeysExactly(key: string, upper: string -> string)
    ensures IsKey(Validate(key, upper).1) <==> !IsKeyWithLineFeed(key)
    ensures Validate(key, upper).0 <==> IsKey(key) || IsKeyWithLineFeed(key)
    ensures IsKey(key) ==> Validate(key, upper) == (true, key)
  {
    hide Clean;
    CleanIsClean(key, upper);
    DefaultsAreKeys();
    var cleaned := Clean(key, upper);
    if cleaned != "" { PrefixedIsKey(cleaned); }
    if IsKeyWithLineFeed(key) { assert !IsKeyChar(key[|key| - 1]); }
  }

  /** The two repairs agree on a key that needs one and has two letters or digits; on others the second has its own
      default. */
  lemma RepairsAgree(key: string, upper: string -> string)
    requires !Matches(key)
    ensures
      Validate(key, upper) ==
      (false, if key != "" && |Letters(upper(key))| >= 2 then Suggest(key, upper) else "CITATION-KEY")
  {
    LettersOfClean(key, upper);
    CleanIsClean(key, upper);
    var cleaned := Clean(key, upper);
    hide Clean;
    EndsAreLetters(cleaned);
    if cleaned != "" { PrefixedIsKey(cleaned); }
    hide Letters;
  }
}
