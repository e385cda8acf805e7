/** The JSON texts of the audit markers: `compact_json` as a printer, `json.loads` as a reader, and the digest
    built on the printer. Objects keep their fields in printed order. */
module Json {
  import opened Strings

  datatype Json =
    | Null
    | Bool(b: bool)
    | Int(n: int)
    | Str(text: string)
    | Arr(elements: seq<Json>)
    | Obj(fields: seq<Field>)

  datatype Field = Field(key: string, value: Json)

  // ----- Printing -----

  predicate IsHex(c: char) { '0' <= c <= '9' || 'a' <= c <= 'f' }

  function HexDigit(d: nat): (c: char)
    requires d < 16
    ensures IsHex(c)
  {
    if d < 10 then ('0' as int + d) as char else ('a' as int + d - 10) as char
  }

  /** A UTF-16 code unit as four hexadecimal digits. */
  function Hex4(n: nat): string
    requires n < 0x1_0000
  {
    [HexDigit(n / 4096), HexDigit(n / 256 % 16), HexDigit(n / 16 % 16), HexDigit(n % 16)]
  }

  function UnicodeEscape(n: nat): string
    requires n < 0x1_0000
  {
    "\\u" + Hex4(n)
  }

  /** How one character is written with `ensure_ascii=True`: characters beyond U+FFFF become surrogate pairs
      (RFC 8259, section 7). */
  function Escape(c: char): (r: string)
    ensures r != "" && r[0] != '"'
  {
    if c == '"' then "\\\""
    else if c == '\\' then "\\\\"
    else if c == '\n' then "\\n"
    else if c == '\r' then "\\r"
    else if c == '\t' then "\\t"
    else if c == '\U{08}' then "\\b"
    else if c == '\U{0C}' then "\\f"
    else if ' ' <= c <= '~' then [c]
    else if c as int < 0x1_0000 then UnicodeEscape(c as int)
    else
      var n := c as int - 0x1_0000;
      UnicodeEscape(0xD800 + n / 1024) + UnicodeEscape(0xDC00 + n % 1024)
  }

  function EscapeAll(s: string): string {
    if s == "" then "" else Escape(s[0]) + EscapeAll(s[1..])
  }

  function Quote(s: string): string { "\"" + EscapeAll(s) + "\"" }

  function PrintInt(n: int): string { if n < 0 then "-" + Decimal(-n) else Decimal(n) }

  /** `json.dumps` with separators `,` and `:`. */
  function Print(j: Json): string
    decreases j, 2
  {
    match j
    case Null => "null"
    case Bool(b) => if b then "true" else "false"
    case Int(n) => PrintInt(n)
    case Str(s) => Quote(s)
    case Arr(es) => "[" + PrintArray(es)
    case Obj(fs) => "{" + PrintObject(fs)
  }

  function PrintArray(es: seq<Json>): string
    decreases es, 1
  {
    if es == [] then "]" else Print(es[0]) + PrintElements(es[1..])
  }

  function PrintObject(fs: seq<Field>): string
    decreases fs, 1
  {
    if fs == [] then "}" else PrintField(fs[0]) + PrintFields(fs[1..])
  }

  function PrintElements(es: seq<Json>): string
    decreases es, 0
  {
    if es == [] then "]" else "," + Print(es[0]) + PrintElements(es[1..])
  }

  function PrintField(f: Field): string
    decreases f, 0
  {
    Quote(f.key) + ":" + Print(f.value)
  }

  function PrintFields(fs: seq<Field>): string
    decreases fs, 0
  {
    if fs == [] then "}" else "," + PrintField(fs[0]) + PrintFields(fs[1..])
  }

  // ----- Reading -----

  function HexValue(c: char): Option<nat> {
    if '0' <= c <= '9' then Some(c as int - '0' as int)
    else if 'a' <= c <= 'f' then Some(c as int - 'a' as int + 10)
    else if 'A' <= c <= 'F' then Some(c as int - 'A' as int + 10)
    else None
  }

  function ReadHex4(s: string): (r: Option<nat>)
    ensures r.Some? ==> |s| >= 4 && r.value < 0x1_0000
  {
    if |s| < 4 then None
    else
      match (HexValue(s[0]), HexValue(s[1]), HexValue(s[2]), HexValue(s[3]))
      case (Some(a), Some(b), Some(c), Some(d)) =>
        if a < 16 && b < 16 && c < 16 && d < 16 then Some(a * 4096 + b * 256 + c * 16 + d) else None
      case _ => None
  }

  /** The low half of a surrogate pair, after the high half `n`. */
  function ReadLowSurrogate(n: nat, s: string): (r: Option<(char, string)>)
    requires 0xD800 <= n < 0xDC00
    ensures r.Some? ==> |r.value.1| < |s|
  {
    if |s| < 2 || s[0] != '\\' || s[1] != 'u' then None
    else
      match ReadHex4(s[2..])
      case Some(m) =>
        if 0xDC00 <= m < 0xE000
        then Some(((0x1_0000 + (n - 0xD800) * 1024 + (m - 0xDC00)) as char, s[6..]))
        else None
      case None => None
  }

  /** A `\u` escape, after its `u`. */
  function ReadUnicode(s: string): (r: Option<(char, string)>)
    ensures r.Some? ==> |r.value.1| < |s|
  {
    match ReadHex4(s)
    case None => None
    case Some(n) =>
      if n < 0xD800 || 0xE000 <= n then Some((n as char, s[4..]))
      else if n < 0xDC00 then ReadLowSurrogate(n, s[4..])
      else None
  }

  /** One escape, after its backslash. */
  function ReadEscape(s: string): (r: Option<(char, string)>)
    ensures r.Some? ==> |r.value.1| < |s|
  {
    if s == "" then None
    else if s[0] == '"' || s[0] == '\\' || s[0] == '/' then Some((s[0], s[1..]))
    else if s[0] == 'n' then Some(('\n', s[1..]))
    else if s[0] == 'r' then Some(('\r', s[1..]))
    else if s[0] == 't' then Some(('\t', s[1..]))
    else if s[0] == 'b' then Some(('\U{08}', s[1..]))
    else if s[0] == 'f' then Some(('\U{0C}', s[1..]))
    else if s[0] == 'u' then ReadUnicode(s[1..])
    else None
  }

  /** The rest of a string literal, after its opening quote. */
  function ReadString(s: string): (r: Option<(string, string)>)
    ensures r.Some? ==> |r.value.1| < |s|
    decreases |s|
  {
    if s == "" then None
    else if s[0] == '"' then Some(("", s[1..]))
    else if s[0] == '\\' then
      match ReadEscape(s[1..])
      case None => None
      case Some((c, rest)) =>
        (match ReadString(rest)
         case None => None
         case Some((text, tail)) => Some(([c] + text, tail)))
    else if s[0] < ' ' then None
    else
      match ReadString(s[1..])
      case None => None
      case Some((text, tail)) => Some(([s[0]] + text, tail))
  }

  function ReadDigits(s: string, n: nat): (r: (nat, string))
    ensures |r.1| <= |s|
    decreases |s|
  {
    if s != "" && IsDigit(s[0]) then ReadDigits(s[1..], n * 10 + DigitValue(s[0])) else (n, s)
  }

  /** A number may not start with a superfluous zero, so `0` is read alone. */
  function ReadNat(s: string): (r: Option<(nat, string)>)
    ensures r.Some? ==> |r.value.1| < |s|
  {
    if s == "" || !IsDigit(s[0]) then None
    else if s[0] == '0' then Some((0, s[1..]))
    else Some(ReadDigits(s[1..], DigitValue(s[0])))
  }

  function ReadWord(s: string): (r: Option<(Json, string)>)
    ensures r.Some? ==> |r.value.1| < |s|
  {
    if StartsWith(s, "null") then Some((Null, s[4..]))
    else if StartsWith(s, "true") then Some((Bool(true), s[4..]))
    else if StartsWith(s, "false") then Some((Bool(false), s[5..]))
    else None
  }

  function ReadInt(s: string): (r: Option<(Json, string)>)
    ensures r.Some? ==> |r.value.1| < |s|
  {
    if s != "" && s[0] == '-' then
      match ReadNat(s[1..])
      case None => None
      case Some((n, rest)) => Some((Int(0 - n), rest))
    else
      match ReadNat(s)
      case None => None
      case Some((n, rest)) => Some((Int(n), rest))
  }

  function ReadValue(s: string): (r: Option<(Json, string)>)
    ensures r.Some? ==> |r.value.1| < |s|
    decreases |s|, 2
  {
    if s == "" then None
    else if s[0] == '"' then
      match ReadString(s[1..])
      case None => None
      case Some((text, rest)) => Some((Str(text), rest))
    else if s[0] == '[' then ReadArray(s[1..])
    else if s[0] == '{' then ReadObject(s[1..])
    else if s[0] == '-' || IsDigit(s[0]) then ReadInt(s)
    else ReadWord(s)
  }

  /** The rest of an array, after its opening bracket. */
  function ReadArray(s: string): (r: Option<(Json, string)>)
    ensures r.Some? ==> |r.value.1| < |s|
    decreases |s|, 3
  {
    if s != "" && s[0] == ']' then Some((Arr([]), s[1..]))
    else
      match ReadValue(s)
      case None => None
      case Some((first, rest)) =>
        (match ReadElements(rest)
         case None => None
         case Some((others, tail)) => Some((Arr([first] + others), tail)))
  }

  /** The rest of an object, after its opening brace. */
  function ReadObject(s: string): (r: Option<(Json, string)>)
    ensures r.Some? ==> |r.value.1| < |s|
    decreases |s|, 3
  {
    if s != "" && s[0] == '}' then Some((Obj([]), s[1..]))
    else
      match ReadField(s)
      case None => None
      case Some((first, rest)) =>
        (match ReadFields(rest)
         case None => None
         case Some((others, tail)) => Some((Obj([first] + others), tail)))
  }

  function ReadElements(s: string): (r: Option<(seq<Json>, string)>)
    ensures r.Some? ==> |r.value.1| < |s|
    decreases |s|, 0
  {
    if s == "" then None
    else if s[0] == ']' then Some(([], s[1..]))
    else if s[0] != ',' then None
    else
      match ReadValue(s[1..])
      case None => None
      case Some((first, rest)) =>
        (match ReadElements(rest)
         case None => None
         case Some((others, tail)) => Some(([first] + others, tail)))
  }

  function ReadField(s: string): (r: Option<(Field, string)>)
    ensures r.Some? ==> |r.value.1| < |s|
    decreases |s|, 1
  {
    if s == "" || s[0] != '"' then None
    else
      match ReadString(s[1..])
      case None => None
      case Some((key, rest)) =>
        if rest == "" || rest[0] != ':' then None
        else
          (match ReadValue(rest[1..])
           case None => None
           case Some((value, tail)) => Some((Field(key, value), tail)))
  }

  function ReadFields(s: string): (r: Option<(seq<Field>, string)>)
    ensures r.Some? ==> |r.value.1| < |s|
    decreases |s|, 0
  {
    if s == "" then None
    else if s[0] == '}' then Some(([], s[1..]))
    else if s[0] != ',' then None
    else
      match ReadField(s[1..])
      case None => None
      case Some((first, rest)) =>
        (match ReadFields(rest)
         case None => None
         case Some((others, tail)) => Some(([first] + others, tail)))
  }

  /** `json.loads`, on texts without insignificant whitespace, fractions or exponents. */
  function Loads(s: string): Option<Json> {
    match ReadValue(s)
    case Some((j, rest)) => if rest == "" then Some(j) else None
    case None => None
  }

  // ----- The reader undoes the printer -----

  lemma FourDigits(n: nat)
    requires n < 0x1_0000
    ensures n / 4096 < 16
    ensures (n / 4096) * 4096 + (n / 256 % 16) * 256 + (n / 16 % 16) * 16 + n % 16 == n
  {
    assert n / 256 == n / 16 / 16 && n / 4096 == n / 256 / 16;
  }

  lemma HexRoundTrip(d: nat)
    requires d < 16
    ensures HexValue(HexDigit(d)) == Some(d)
  {
  }

  lemma Hex4RoundTrip(n: nat, rest: string)
    requires n < 0x1_0000
    ensures ReadHex4(Hex4(n) + rest) == Some(n)
  {
    HexRoundTrip(n / 4096);
    HexRoundTrip(n / 256 % 16);
    HexRoundTrip(n / 16 % 16);
    HexRoundTrip(n % 16);
    FourDigits(n);
    var s := Hex4(n) + rest;
    assert s[0] == Hex4(n)[0] && s[1] == Hex4(n)[1] && s[2] == Hex4(n)[2] && s[3] == Hex4(n)[3];
  }

  lemma UnicodeRoundTrip(c: char, rest: string)
    requires c as int < 0x1_0000
    ensures ReadEscape((UnicodeEscape(c as int) + rest)[1..]) == Some((c, rest))
  {
    var n := c as int;
    var s := UnicodeEscape(n) + rest;
    assert s[1..] == "u" + (Hex4(n) + rest);
    assert s[1..][1..] == Hex4(n) + rest;
    Hex4RoundTrip(n, rest);
    assert (Hex4(n) + rest)[4..] == rest;
  }

  lemma LowSurrogateRoundTrip(n: nat, rest: string)
    requires n < 0x10_0000
    ensures var s := UnicodeEscape(0xDC00 + n % 1024) + rest;
            ReadLowSurrogate(0xD800 + n / 1024, s) == Some(((0x1_0000 + n) as char, rest))
  {
    var low := 0xDC00 + n % 1024;
    var s := UnicodeEscape(low) + rest;
    assert s[2..] == Hex4(low) + rest;
    assert s[6..] == rest;
    Hex4RoundTrip(low, rest);
  }

  lemma SurrogateRoundTrip(c: char, rest: string)
    requires c as int >= 0x1_0000
    ensures ReadUnicode((Escape(c) + rest)[2..]) == Some((c, rest))
  {
    var n := c as int - 0x1_0000;
    var high := 0xD800 + n / 1024;
    var more := UnicodeEscape(0xDC00 + n % 1024) + rest;
    assert (Escape(c) + rest)[2..] == Hex4(high) + more;
    Hex4RoundTrip(high, more);
    LowSurrogateRoundTrip(n, rest);
    assert (Hex4(high) + more)[4..] == more;
  }

  lemma ShortRoundTrip(c: char, rest: string)
    requires |Escape(c)| == 2
    ensures (Escape(c) + rest)[0] == '\\' && ReadEscape((Escape(c) + rest)[1..]) == Some((c, rest))
  {
    hide ReadUnicode;
    var s := Escape(c) + rest;
    var t := s[1..];
    assert t == [Escape(c)[1]] + rest;
    assert t[1..] == rest;
  }

  lemma EscapeRoundTrip(c: char, rest: string)
    ensures var s := Escape(c) + rest;
            if ' ' <= c <= '~' && c != '"' && c != '\\' then Escape(c) == [c]
            else s[0] == '\\' && ReadEscape(s[1..]) == Some((c, rest))
  {
    var s := Escape(c) + rest;
    if ' ' <= c <= '~' && c != '"' && c != '\\' {
    } else if |Escape(c)| == 2 {
      ShortRoundTrip(c, rest);
    } else if c as int < 0x1_0000 {
      UnicodeRoundTrip(c, rest);
    } else {
      SurrogateRoundTrip(c, rest);
      assert s[1..][1..] == s[2..];
    }
  }

  lemma ReadCharacter(c: char, more: string)
    requires ReadString(more).Some?
    ensures ReadString(Escape(c) + more) == Some(([c] + ReadString(more).value.0, ReadString(more).value.1))
  {
    EscapeRoundTrip(c, more);
    hide ReadEscape;
    hide Escape;
    var s := Escape(c) + more;
    assert s[0] == Escape(c)[0];
    if Escape(c) == [c] && s[0] != '\\' {
      assert s[1..] == more;
    }
  }

  lemma {:induction false} StringRoundTrip(text: string, rest: string)
    ensures ReadString(EscapeAll(text) + "\"" + rest) == Some((text, rest))
  {
    if text == "" {
      assert (EscapeAll(text) + "\"" + rest)[1..] == rest;
    } else {
      StringRoundTrip(text[1..], rest);
      StringStep(text, rest);
    }
  }

  lemma StringStep(text: string, rest: string)
    requires text != "" && ReadString(EscapeAll(text[1..]) + "\"" + rest) == Some((text[1..], rest))
    ensures ReadString(EscapeAll(text) + "\"" + rest) == Some((text, rest))
  {
    hide ReadString;
    hide Escape;
    var more := EscapeAll(text[1..]) + "\"" + rest;
    ReadCharacter(text[0], more);
    assert EscapeAll(text) + "\"" + rest == Escape(text[0]) + more;
    assert text == [text[0]] + text[1..];
  }

  lemma QuoteRoundTrip(text: string, rest: string)
    ensures Quote(text) + rest != "" && (Quote(text) + rest)[0] == '"'
    ensures ReadString((Quote(text) + rest)[1..]) == Some((text, rest))
  {
    assert (Quote(text) + rest)[1..] == EscapeAll(text) + "\"" + rest;
    StringRoundTrip(text, rest);
    hide EscapeAll;
    hide ReadString;
  }

  lemma {:induction false} DigitsRoundTrip(n: nat, rest: string)
    requires n > 0
    ensures ReadDigits((Decimal(n) + rest)[1..], DigitValue(Decimal(n)[0])) == ReadDigits(rest, n)
  {
    if n < 10 {
      assert (Decimal(n) + rest)[1..] == rest;
    } else {
      var last := [DigitChar(n % 10)];
      DigitsRoundTrip(n / 10, last + rest);
      assert Decimal(n) + rest == Decimal(n / 10) + (last + rest);
      assert (last + rest)[1..] == rest;
    }
  }

  ghost predicate NoDigitFirst(s: string) { s == "" || !IsDigit(s[0]) }

  lemma NatRoundTrip(n: nat, rest: string)
    requires NoDigitFirst(rest)
    ensures ReadNat(Decimal(n) + rest) == Some((n, rest))
  {
    if n == 0 {
      assert (Decimal(n) + rest)[1..] == rest;
    } else {
      DigitsRoundTrip(n, rest);
      assert Decimal(n)[0] in Decimal(n);
      assert (Decimal(n) + rest)[0] == Decimal(n)[0];
    }
  }

  lemma IntRoundTrip(n: int, rest: string)
    requires NoDigitFirst(rest)
    ensures var s := PrintInt(n) + rest; s[0] == '-' || IsDigit(s[0])
    ensures ReadInt(PrintInt(n) + rest) == Some((Int(n), rest))
  {
    var s := PrintInt(n) + rest;
    if n < 0 {
      var t := Decimal(-n) + rest;
      NatRoundTrip(-n, rest);
      assert s == "-" + t;
      assert s[1..] == t;
    } else {
      NatRoundTrip(n, rest);
      assert s[0] == Decimal(n)[0] && Decimal(n)[0] in Decimal(n);
    }
  }

  lemma WordRoundTrip(j: Json, rest: string)
    requires j.Null? || j.Bool?
    ensures ReadValue(Print(j) + rest) == Some((j, rest))
  {
    var s := Print(j) + rest;
    assert s[..|Print(j)|] == Print(j) && s[|Print(j)|..] == rest;
    assert s[0] == Print(j)[0];
  }

  /** What is printed first tells the reader which branch to take. */
  lemma FirstChar(j: Json)
    ensures Print(j) != "" && Print(j)[0] != ']' && Print(j)[0] != '}'
  {
    match j
    case Int(n) => if n >= 0 { assert Decimal(n)[0] in Decimal(n); }
    case _ =>
  }

  lemma StrReadBack(text: string, rest: string)
    ensures ReadValue(Print(Str(text)) + rest) == Some((Str(text), rest))
  {
    hide EscapeAll;
    hide ReadString;
    var t := EscapeAll(text) + "\"" + rest;
    StringRoundTrip(text, rest);
    assert Print(Str(text)) + rest == "\"" + t;
    assert ("\"" + t)[1..] == t;
  }

  lemma OpenArray(es: seq<Json>, rest: string)
    ensures ReadValue(Print(Arr(es)) + rest) == ReadArray(PrintArray(es) + rest)
  {
    var t := PrintArray(es) + rest;
    assert Print(Arr(es)) + rest == "[" + t;
    assert ("[" + t)[1..] == t;
  }

  lemma OpenObject(fs: seq<Field>, rest: string)
    ensures ReadValue(Print(Obj(fs)) + rest) == ReadObject(PrintObject(fs) + rest)
  {
    var t := PrintObject(fs) + rest;
    assert Print(Obj(fs)) + rest == "{" + t;
    assert ("{" + t)[1..] == t;
  }

  lemma {:induction false} PrintReadBack(j: Json, rest: string)
    requires j.Int? ==> NoDigitFirst(rest)
    ensures ReadValue(Print(j) + rest) == Some((j, rest))
    decreases j, 1
  {
    match j
    case Null => WordRoundTrip(j, rest);
    case Bool(_) => WordRoundTrip(j, rest);
    case Int(n) => IntRoundTrip(n, rest);
    case Str(text) => StrReadBack(text, rest);
    case Arr(es) => ArrayReadBack(es, rest); OpenArray(es, rest);
    case Obj(fs) => ObjectReadBack(fs, rest); OpenObject(fs, rest);
  }

  lemma {:induction false} ArrayReadBack(es: seq<Json>, rest: string)
    ensures ReadArray(PrintArray(es) + rest) == Some((Arr(es), rest))
    decreases es, 1
  {
    var s := PrintArray(es) + rest;
    if es == [] {
      assert s[1..] == rest;
    } else {
      var more := PrintElements(es[1..]) + rest;
      assert s == Print(es[0]) + more;
      FirstChar(es[0]);
      ElementsReadBack(es[1..], rest);
      PrintReadBack(es[0], more);
      assert es == [es[0]] + es[1..];
    }
  }

  lemma {:induction false} ObjectReadBack(fs: seq<Field>, rest: string)
    ensures ReadObject(PrintObject(fs) + rest) == Some((Obj(fs), rest))
    decreases fs, 1
  {
    var s := PrintObject(fs) + rest;
    if fs == [] {
      assert s[1..] == rest;
    } else {
      var more := PrintFields(fs[1..]) + rest;
      assert s == PrintField(fs[0]) + more;
      FieldsReadBack(fs[1..], rest);
      FieldReadBack(fs[0], more);
      assert fs == [fs[0]] + fs[1..];
    }
  }

  lemma {:induction false} ElementsReadBack(es: seq<Json>, rest: string)
    ensures ReadElements(PrintElements(es) + rest) == Some((es, rest))
    ensures PrintElements(es) != "" && !IsDigit(PrintElements(es)[0])
    decreases es, 0
  {
    var s := PrintElements(es) + rest;
    if es == [] {
      assert s[1..] == rest;
    } else {
      var more := PrintElements(es[1..]) + rest;
      assert s[1..] == Print(es[0]) + more;
      ElementsReadBack(es[1..], rest);
      PrintReadBack(es[0], more);
      assert es == [es[0]] + es[1..];
    }
  }

  lemma {:induction false} FieldReadBack(f: Field, rest: string)
    requires NoDigitFirst(rest)
    ensures ReadField(PrintField(f) + rest) == Some((f, rest))
    ensures PrintField(f)[0] == '"'
    decreases f, 0
  {
    hide Quote;
    hide Print;
    hide ReadString;
    hide ReadValue;
    var tail := ":" + (Print(f.value) + rest);
    assert PrintField(f) + rest == Quote(f.key) + tail;
    QuoteRoundTrip(f.key, tail);
    assert tail[1..] == Print(f.value) + rest;
    PrintReadBack(f.value, rest);
  }

  lemma {:induction false} FieldsReadBack(fs: seq<Field>, rest: string)
    ensures ReadFields(PrintFields(fs) + rest) == Some((fs, rest))
    ensures PrintFields(fs) != "" && !IsDigit(PrintFields(fs)[0])
    decreases fs, 0
  {
    var s := PrintFields(fs) + rest;
    if fs == [] {
      assert s[1..] == rest;
    } else {
      hide PrintField;
      hide ReadField;
      var more := PrintFields(fs[1..]) + rest;
      assert s[1..] == PrintField(fs[0]) + more;
      FieldsReadBack(fs[1..], rest);
      FieldReadBack(fs[0], more);
      assert fs == [fs[0]] + fs[1..];
    }
  }

  lemma LoadsPrint(j: Json)
    ensures Loads(Print(j)) == Some(j)
  {
    PrintReadBack(j, "");
    assert Print(j) + "" == Print(j);
  }

  lemma PrintInjective(a: Json, b: Json)
    requires Print(a) == Print(b)
    ensures a == b
  {
    LoadsPrint(a);
    LoadsPrint(b);
  }

  // ----- The printer emits printable ASCII only, so no raw newline -----

  ghost predicate Printable(s: string) { forall c :: c in s ==> ' ' <= c <= '~' }

  lemma HexPrintable(n: nat)
    requires n < 0x1_0000
    ensures Printable(UnicodeEscape(n))
  {
  }

  /** No printable spelling of a character is shorter than the one that is written. */
  lemma EscapeIsShortest(c: char, text: string)
    requires Printable(text) && ReadString(text + "\"") == Some(([c], ""))
    ensures |Escape(c)| <= |text|
  {
    hide *;
    FirstRead(c, text);
    EscapeLength(c);
    if text[0] == '\\' {
      var rest := text[1..];
      assert (text + "\"")[1..] == rest + "\"";
      EscapeReads(c, rest);
    } else {
      PlainLength(c, text);
    }
  }

  lemma PlainLength(c: char, text: string)
    requires Printable(text) && text != "" && text[0] == c && c != '"' && c != '\\'
    ensures |Escape(c)| == 1
  {
    assert text[0] in text;
  }

  lemma FirstRead(c: char, text: string)
    requires ReadString(text + "\"").Some? && ReadString(text + "\"").value.0 == [c]
    ensures text != "" && text[0] != '"' && (text[0] != '\\' ==> text[0] == c)
    ensures
      text[0] == '\\' ==>
        var read := ReadEscape((text + "\"")[1..]);
        |text| > 1 && read.Some? && read.value.0 == c
  {
    if text == "\\" { assert (text + "\"")[1..] == "\""; }
    hide ReadUnicode;
  }

  predicate HasShortEscape(c: char) { c in "\"\\\n\r\t\U{08}\U{0C}" }

  lemma EscapeLength(c: char)
    ensures |Escape(c)| == if HasShortEscape(c) then 2 else if ' ' <= c <= '~' then 1 else if c as int < 0x1_0000 then 6
      else 12
  {
  }

  lemma EscapeReads(c: char, text: string)
    requires ReadEscape(text + "\"").Some? && ReadEscape(text + "\"").value.0 == c
    requires text != ""
    ensures HasShortEscape(c) || ' ' <= c <= '~' || |text| >= if c as int < 0x1_0000 then 5 else 11
  {
    if text[0] == 'u' {
      assert (text + "\"")[1..] == text[1..] + "\"";
      UnicodeIsLong(c, text[1..]);
    }
    hide ReadUnicode;
  }

  lemma UnicodeIsLong(c: char, text: string)
    requires ReadUnicode(text + "\"").Some? && ReadUnicode(text + "\"").value.0 == c
    ensures |text| >= 4 && (c as int >= 0x1_0000 ==> |text| >= 10)
  {
    HexInText(text);
    if c as int >= 0x1_0000 {
      assert (text + "\"")[4..] == text[4..] + "\"";
      assert (text + "\"")[4..][2..] == text[6..] + "\"";
      HexInText(text[6..]);
    }
  }

  lemma HexInText(text: string)
    requires ReadHex4(text + "\"").Some?
    ensures |text| >= 4
  {
    assert HexValue('"') == None;
    assert (text + "\"")[|text|] == '"';
  }

  lemma {:induction false} EscapePrintable(s: string)
    ensures Printable(EscapeAll(s))
  {
    if s != "" {
      EscapePrintable(s[1..]);
      var c := s[0];
      if c as int >= 0x1_0000 {
        HexPrintable(0xD800 + (c as int - 0x1_0000) / 1024);
        HexPrintable(0xDC00 + (c as int - 0x1_0000) % 1024);
      } else if |Escape(c)| > 2 {
        HexPrintable(c as int);
      }
      assert Printable(Escape(c));
    }
  }

  lemma {:induction false} PrintPrintable(j: Json)
    ensures Printable(Print(j))
    decreases j, 1
  {
    match j
    case Str(text) => EscapePrintable(text);
    case Arr(es) => if es != [] { PrintPrintable(es[0]); ElementsPrintable(es[1..]); }
    case Obj(fs) => if fs != [] { FieldPrintable(fs[0]); FieldsPrintable(fs[1..]); }
    case _ =>
  }

  lemma {:induction false} ElementsPrintable(es: seq<Json>)
    ensures Printable(PrintElements(es))
    decreases es, 0
  {
    if es != [] { PrintPrintable(es[0]); ElementsPrintable(es[1..]); }
  }

  lemma {:induction false} FieldPrintable(f: Field)
    ensures Printable(PrintField(f))
    decreases f, 0
  {
    EscapePrintable(f.key);
    PrintPrintable(f.value);
  }

  lemma {:induction false} FieldsPrintable(fs: seq<Field>)
    ensures Printable(PrintFields(fs))
    decreases fs, 0
  {
    if fs != [] { FieldPrintable(fs[0]); FieldsPrintable(fs[1..]); }
  }

  // ----- Objects read back as dictionaries -----

  /** The dictionary an object's fields stand for: of two fields with one key the later counts. */
  function Dict(fs: seq<Field>): map<string, Json> {
    if fs == [] then map[] else map[fs[0].key := fs[0].value] + Dict(fs[1..])
  }

  /** A dictionary's fields in `sort_keys` order. */
  function SortedFields(m: map<string, Json>): (fs: seq<Field>)
    decreases |m.Keys|
  {
    if m.Keys == {} then []
    else
      var k := Least(m.Keys);
      [Field(k, m[k])] + SortedFields(m - {k})
  }

  lemma {:induction false} DictOfSortedFields(m: map<string, Json>)
    ensures Dict(SortedFields(m)) == m
    decreases |m.Keys|
  {
    if m.Keys != {} {
      var k := Least(m.Keys);
      DictOfSortedFields(m - {k});
      assert SortedFields(m)[1..] == SortedFields(m - {k});
    }
  }

  // ----- Digests -----

  /** The lower-case hexadecimal text of a printable text, two digits a character. */
  function HexText(s: string): string {
    if s == "" then ""
    else [HexDigit(s[0] as int / 16 % 16), HexDigit(s[0] as int % 16)] + HexText(s[1..])
  }

  const DIGEST_PREFIX: string := "sha256:"

  /** `sha256_json`, with the hash replaced by a collision-free stand-in: the printed value in hexadecimal. */
  function Sha256Json(j: Json): string { DIGEST_PREFIX + HexText(Print(j)) }

  /** `DIGEST_RE`, without its length. */
  predicate IsDigest(s: string) {
    StartsWith(s, DIGEST_PREFIX) && forall c | c in s[|DIGEST_PREFIX|..] :: IsHex(c)
  }

  lemma {:induction false} HexTextChars(s: string)
    ensures forall c :: c in HexText(s) ==> IsHex(c)
  {
    if s != "" { HexTextChars(s[1..]); }
  }

  lemma {:induction false} HexTextInjective(a: string, b: string)
    requires Printable(a) && Printable(b) && HexText(a) == HexText(b)
    ensures a == b
  {
    if a != "" && b != "" {
      var x, y := HexText(a), HexText(b);
      assert x[2..] == HexText(a[1..]) && y[2..] == HexText(b[1..]);
      assert a[0] in a && b[0] in b;
      HexRoundTrip(a[0] as int / 16 % 16);
      HexRoundTrip(a[0] as int % 16);
      HexRoundTrip(b[0] as int / 16 % 16);
      HexRoundTrip(b[0] as int % 16);
      assert x[0] == HexDigit(a[0] as int / 16 % 16) && x[1] == HexDigit(a[0] as int % 16);
      assert y[0] == HexDigit(b[0] as int / 16 % 16) && y[1] == HexDigit(b[0] as int % 16);
      assert a[0] as int == b[0] as int;
      forall c | c in a[1..] ensures ' ' <= c <= '~' { assert c in a; }
      forall c | c in b[1..] ensures ' ' <= c <= '~' { assert c in b; }
      HexTextInjective(a[1..], b[1..]);
      assert a == [a[0]] + a[1..] && b == [b[0]] + b[1..];
    }
  }

  lemma DigestIsDigest(j: Json)
    ensures IsDigest(Sha256Json(j))
  {
    HexTextChars(Print(j));
    assert Sha256Json(j)[|DIGEST_PREFIX|..] == HexText(Print(j));
  }

  /** Distinct values have distinct digests. */
  lemma DigestInjective(a: Json, b: Json)
    requires Sha256Json(a) == Sha256Json(b)
    ensures a == b
  {
    assert Sha256Json(a)[|DIGEST_PREFIX|..] == HexText(Print(a));
    assert Sha256Json(b)[|DIGEST_PREFIX|..] == HexText(Print(b));
    PrintPrintable(a);
    PrintPrintable(b);
    HexTextInjective(Print(a), Print(b));
    PrintInjective(a, b);
  }
}
