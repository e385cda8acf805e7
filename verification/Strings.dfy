/** Python string operations the audit bot relies on: searching, counting, the order used by `sorted`,
    `rstrip`, and sizes in UTF-8 bytes. */
module Strings {

  datatype Option<+T> = None | Some(value: T)

  /** `needle` stands in `text` at index `i`. */
  predicate OccursAt(needle: string, text: string, i: nat) {
    i + |needle| <= |text| && text[i..i + |needle|] == needle
  }

  ghost predicate Absent(needle: string, text: string) {
    forall i: nat :: !OccursAt(needle, text, i)
  }

  lemma OccursAtChar(needle: string, text: string, i: nat, d: nat)
    requires OccursAt(needle, text, i) && d < |needle|
    ensures i + d < |text| && text[i + d] == needle[d]
  {
    assert text[i..i + |needle|][d] == text[i + d];
  }

  lemma OccursAtCharIn(needle: string, text: string, i: nat, d: nat)
    requires OccursAt(needle, text, i) && d < |needle|
    ensures needle[d] in text
  {
    OccursAtChar(needle, text, i, d);
  }

  lemma OccursInPart(needle: string, a: string, b: string, i: nat)
    requires OccursAt(needle, a + b, i)
    ensures i + |needle| <= |a| ==> OccursAt(needle, a, i)
    ensures i >= |a| ==> OccursAt(needle, b, i - |a|)
  {
    if i + |needle| <= |a| {
      assert (a + b)[i..i + |needle|] == a[i..i + |needle|];
    }
    if i >= |a| {
      assert (a + b)[i..i + |needle|] == b[i - |a|..i - |a| + |needle|];
    }
  }

  predicate FirstAt(needle: string, text: string, from: nat, i: nat) {
    from <= i && OccursAt(needle, text, i) && forall j: nat | from <= j < i :: !OccursAt(needle, text, j)
  }

  lemma {:induction false} FirstExists(needle: string, text: string, from: nat, i: nat)
    requires from <= i && OccursAt(needle, text, i)
    ensures exists first :: from <= first <= i && FirstAt(needle, text, from, first)
    decreases i
  {
    if j: nat :| from <= j < i && OccursAt(needle, text, j) {
      FirstExists(needle, text, from, j);
    } else {
      assert FirstAt(needle, text, from, i);
    }
  }

  /** The first occurrence at or after `from`, as `str.find` with a start position. */
  function Find(needle: string, text: string, from: nat): (r: Option<nat>)
    ensures r.Some? ==> FirstAt(needle, text, from, r.value)
    ensures r.None? ==> forall j: nat :: from <= j ==> !OccursAt(needle, text, j)
  {
    if exists i: nat | from <= i <= |text| :: OccursAt(needle, text, i) then
      assert exists first :: from <= first <= |text| && FirstAt(needle, text, from, first) by {
        var i: nat :| from <= i <= |text| && OccursAt(needle, text, i);
        FirstExists(needle, text, from, i);
      }
      var first: nat :| from <= first <= |text| && FirstAt(needle, text, from, first);
      Some(first)
    else None
  }

  /** `needle in text`. */
  predicate Contains(needle: string, text: string)
    ensures Contains(needle, text) <==> !Absent(needle, text)
  {
    Find(needle, text, 0).Some?
  }

  /** `text.count(needle)`: occurrences that do not overlap, counted from the left. */
  function Count(needle: string, text: string, from: nat): (n: nat)
    requires needle != ""
    ensures n == 0 <==> forall j: nat :: from <= j ==> !OccursAt(needle, text, j)
    decreases |text| - from
  {
    match Find(needle, text, from)
    case None => 0
    case Some(i) => 1 + Count(needle, text, i + |needle|)
  }

  /** `value.startswith(prefix)`. */
  predicate StartsWith(value: string, prefix: string) {
    prefix <= value
  }

  /** `str.isspace` of one character. */
  predicate IsSpace(c: char) {
    var n := c as int;
    || 0x09 <= n <= 0x0D || 0x1C <= n <= 0x20 || n == 0x85 || n == 0xA0 || n == 0x1680 || 0x2000 <= n <= 0x200A
    || n == 0x2028 || n == 0x2029 || n == 0x202F || n == 0x205F || n == 0x3000
  }

  /** `text.rstrip()`. */
  function RStrip(text: string): (r: string)
    ensures r <= text
    ensures r != "" ==> !IsSpace(r[|r| - 1])
  {
    if text == "" then ""
    else if IsSpace(text[|text| - 1]) then RStrip(text[..|text| - 1])
    else text
  }

  /** How many bytes a character takes in UTF-8 (RFC 3629, section 3). */
  function CharBytes(c: char): nat {
    if c as int < 0x80 then 1
    else if c as int < 0x800 then 2
    else if c as int < 0x1_0000 then 3
    else 4
  }

  /** `len(text.encode("utf-8"))`. */
  function Utf8Size(text: string): nat {
    if text == "" then 0 else CharBytes(text[0]) + Utf8Size(text[1..])
  }

  /** `text.strip()`. */
  function Strip(text: string): (r: string)
    ensures r != "" ==> !IsSpace(r[0]) && !IsSpace(r[|r| - 1])
  {
    if text == "" then ""
    else if IsSpace(text[0]) then Strip(text[1..])
    else RStrip(text)
  }

  /** `not text.strip()`. */
  predicate IsBlank(text: string) { forall c | c in text :: IsSpace(c) }

  // ----- Letters, in ASCII -----

  function LowerChar(c: char): char { if 'A' <= c <= 'Z' then c - 'A' + 'a' else c }

  function UpperChar(c: char): char { if 'a' <= c <= 'z' then c - 'a' + 'A' else c }

  function Lower(s: string): string { seq(|s|, i requires 0 <= i < |s| => LowerChar(s[i])) }

  function Upper(s: string): string { seq(|s|, i requires 0 <= i < |s| => UpperChar(s[i])) }

  /** The case of a letter is all that these change, and each undoes the other. */
  lemma CaseFolds(s: string)
    ensures Lower(Upper(s)) == Lower(s) && Upper(Lower(s)) == Upper(s)
    ensures Lower(Lower(s)) == Lower(s) && Upper(Upper(s)) == Upper(s)
    ensures |Lower(s)| == |s| && forall i :: 0 <= i < |s| ==> Lower(s)[i] == s[i] || Upper(s)[i] == s[i]
  {
  }

  lemma SameBlank(a: string, b: string)
    requires Lower(a) == Lower(b)
    ensures IsBlank(a) <==> IsBlank(b)
  {
    forall i | 0 <= i < |a| ensures IsSpace(a[i]) <==> IsSpace(b[i]) {
      assert Lower(a)[i] == LowerChar(a[i]) && Lower(b)[i] == LowerChar(b[i]);
    }
  }

  // ----- Code point order, as `sorted` uses it -----

  predicate LexLe(a: string, b: string) {
    a == "" || (b != "" && (a[0] < b[0] || (a[0] == b[0] && LexLe(a[1..], b[1..]))))
  }

  predicate LexLt(a: string, b: string) {
    a != b && LexLe(a, b)
  }

  lemma {:induction false} LexTotal(a: string, b: string)
    ensures LexLe(a, b) || LexLe(b, a)
    ensures LexLe(a, b) && LexLe(b, a) ==> a == b
  {
    if a != "" && b != "" && a[0] == b[0] {
      LexTotal(a[1..], b[1..]);
      assert a == [a[0]] + a[1..] && b == [b[0]] + b[1..];
    }
  }

  lemma {:induction false} LexTransitive(a: string, b: string, c: string)
    requires LexLe(a, b) && LexLe(b, c)
    ensures LexLe(a, c)
  {
    if a != "" && a[0] == b[0] && b[0] == c[0] {
      LexTransitive(a[1..], b[1..], c[1..]);
    }
  }

  /** One text is before another exactly when it is a beginning of it, or at the first place where they differ it has
      the smaller character. */
  lemma {:induction false} LexMeaning(a: string, b: string)
    ensures LexLt(a, b) <==>
      exists i: nat | i <= |a| && i <= |b| && a[..i] == b[..i] :: i < |b| && (i == |a| || a[i] < b[i])
  {
    if a != "" && b != "" && a[0] == b[0] {
      LexMeaning(a[1..], b[1..]);
      assert a == [a[0]] + a[1..] && b == [b[0]] + b[1..];
      if LexLt(a, b) {
        var i: nat :| i < |a| && i < |b| && a[1..][..i] == b[1..][..i] && i + 1 < |b| &&
                      (i + 1 == |a| || a[1..][i] < b[1..][i]);
        assert a[..i + 1] == [a[0]] + a[1..][..i] && b[..i + 1] == [b[0]] + b[1..][..i];
      }
      forall i: nat | i <= |a| && i <= |b| && a[..i] == b[..i] && i < |b| && (i == |a| || a[i] < b[i])
        ensures LexLt(a, b)
      {
        if i > 0 {
          assert a[1..][..i - 1] == a[..i][1..] && b[1..][..i - 1] == b[..i][1..];
          assert i - 1 == |a[1..]| || a[1..][i - 1] < b[1..][i - 1];
        }
      }
    } else {
      assert a[..0] == b[..0];
      if a != "" && b != "" {
        forall i: nat | 0 < i <= |a| && i <= |b| ensures a[..i] != b[..i] {
          assert a[..i][0] == a[0] && b[..i][0] == b[0];
        }
      }
    }
  }

  predicate IsLeast(k: string, keys: set<string>) {
    k in keys && forall x | x in keys :: LexLe(k, x)
  }

  lemma LeastExists(keys: set<string>)
    requires keys != {}
    ensures exists k :: IsLeast(k, keys)
  {
    var x :| x in keys;
    if keys == {x} {
      LexTotal(x, x);
      assert IsLeast(x, keys);
    } else {
      var rest := keys - {x};
      LeastExists(rest);
      var k :| IsLeast(k, rest);
      LexTotal(x, k);
      LexTotal(x, x);
      if LexLe(k, x) {
        assert IsLeast(k, keys);
      } else {
        forall y | y in keys ensures LexLe(x, y) {
          if y != x { LexTransitive(x, k, y); }
        }
        assert IsLeast(x, keys);
      }
    }
  }

  lemma LeastUnique(k: string, l: string, keys: set<string>)
    requires IsLeast(k, keys) && IsLeast(l, keys)
    ensures k == l
  {
    LexTotal(k, l);
  }

  function Least(keys: set<string>): (k: string)
    requires keys != {}
    ensures IsLeast(k, keys)
  {
    LeastExists(keys);
    assert forall k, l :: IsLeast(k, keys) && IsLeast(l, keys) ==> k == l by {
      forall k, l | IsLeast(k, keys) && IsLeast(l, keys) ensures k == l { LeastUnique(k, l, keys); }
    }
    var k :| k in keys && IsLeast(k, keys);
    k
  }

  /** Ordered, no repeats. */
  ghost predicate Ascending(keys: seq<string>) {
    forall i, j :: 0 <= i < j < |keys| ==> LexLt(keys[i], keys[j])
  }

  /** `sorted(keys)`. */
  function Sorted(keys: set<string>): (r: seq<string>)
    ensures forall k :: k in r <==> k in keys
    ensures |r| == |keys|
    ensures Ascending(r)
  {
    if keys == {} then []
    else
      var k := Least(keys);
      var rest := Sorted(keys - {k});
      var r := [k] + rest;
      assert Ascending(r) by {
        forall i, j | 0 <= i < j < |r| ensures LexLt(r[i], r[j]) {
          assert r[j] in rest;
          if i > 0 { assert r[i] == rest[i - 1] && r[j] == rest[j - 1]; }
        }
      }
      r
  }

  // ----- Decimal numbers -----

  predicate IsDigit(c: char) { '0' <= c <= '9' }

  function DigitValue(c: char): (d: nat)
    requires IsDigit(c)
    ensures d < 10
  {
    c as int - '0' as int
  }

  function DigitChar(d: nat): (c: char)
    requires d < 10
    ensures IsDigit(c) && DigitValue(c) == d
  {
    ('0' as int + d) as char
  }

  /** The decimal text of a natural number. */
  function Decimal(n: nat): (r: string)
    ensures r != "" && forall c :: c in r ==> IsDigit(c)
    ensures n > 0 ==> r[0] != '0'
    ensures n == 0 ==> r == "0"
  {
    if n < 10 then [DigitChar(n)] else Decimal(n / 10) + [DigitChar(n % 10)]
  }
}
