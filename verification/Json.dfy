/**
 Python's `json.dumps` with its default `ensure_ascii=True`, in the three
 layouts the bot uses (default separators, `indent=4`, compact), and
 `json.loads` for the documents the bot reads back: one object whose values
 are `null`, booleans, integers or strings.
 */
module Json {
  import opened Maybe
  import opened Strings

  datatype Json =
    | JNull
    | JBool(b: bool)
    | JInt(i: int)
    | JStr(s: string)
    | JArr(items: seq<Json>)
    | JObj(members: seq<(string, Json)>)

  /** The separators and indentation `json.dumps` is called with. */
  datatype Layout = Layout(itemSep: string, keySep: string, indent: Option<nat>)

  /** `json.dumps(x)` */
  const DefaultLayout := Layout(", ", ": ", None)

  /** `json.dumps(x, indent=n)`: Python drops the space after `,` when indenting. */
  function Indented(n: nat): Layout {
    Layout(",", ": ", Some(n))
  }

  /** `json.dumps(x, separators=(",", ":"))` */
  const CompactLayout := Layout(",", ":", None)

  predicate IsScalar(j: Json) {
    j.JNull? || j.JBool? || j.JInt? || j.JStr?
  }

  /** An object whose values are all scalars: what `button_data` builds. */
  predicate IsFlat(members: seq<(string, Json)>) {
    forall k :: 0 <= k < |members| ==> IsScalar(members[k].1)
  }

  /** The characters `json.dumps` writes unescaped: printable ASCII. */
  predicate IsPrintableAscii(c: char) {
    ' ' <= c <= '~'
  }

  function HexChar(d: nat): (c: char)
    requires d < 16
    ensures IsPrintableAscii(c) && c != ' '
    ensures HexValue(c) == Some(d)
  {
    "0123456789abcdef"[d]
  }

  /** Four lower-case hex digits, as `'{0:04x}'.format(n)`. */
  function Hex4(n: nat): (r: string)
    requires n < 0x10000
    ensures |r| == 4
    ensures forall k :: 0 <= k < 4 ==> IsPrintableAscii(r[k]) && r[k] != ' '
  {
    [HexChar(n / 16 / 16 / 16), HexChar(n / 16 / 16 % 16), HexChar(n / 16 % 16), HexChar(n % 16)]
  }

  /** The letter of the two-character escape `json.dumps` uses for `c`, if it has one. */
  function ShortEscape(c: char): (r: Option<char>)
    ensures r.Some? ==> IsPrintableAscii(r.value) && r.value != ' '
  {
    if c == '"' then Some('"')
    else if c == '\\' then Some('\\')
    else if c == '\n' then Some('n')
    else if c == '\r' then Some('r')
    else if c == '\t' then Some('t')
    else if c as int == 8 then Some('b')
    else if c as int == 12 then Some('f')
    else None
  }

  /** `\uXXXX` for one UTF-16 code unit. */
  function UnitEscape(u: nat): (r: string)
    requires u < 0x10000
    ensures |r| == 6
    ensures forall k :: 0 <= k < |r| ==> IsPrintableAscii(r[k]) && r[k] != ' '
  {
    "\\u" + Hex4(u)
  }

  function HighSurrogate(c: char): nat
    requires c as int >= 0x10000
  {
    0xD800 + (c as int - 0x10000) / 0x400
  }

  function LowSurrogate(c: char): nat
    requires c as int >= 0x10000
  {
    0xDC00 + (c as int - 0x10000) % 0x400
  }

  /**
   How `json.dumps` writes one character inside a string literal: short
   escapes for quote, backslash and five control characters, printable
   ASCII as it is, every other BMP character as `\uXXXX` and characters
   beyond the BMP as a UTF-16 surrogate pair.
   */
  function EscapeChar(c: char): (r: string)
    ensures |r| > 0
    ensures forall k :: 0 <= k < |r| ==> IsPrintableAscii(r[k])
    ensures c != ' ' ==> ' ' !in r
    ensures c == ' ' ==> r == " "
  {
    match ShortEscape(c)
    case Some(e) => ['\\', e]
    case None =>
      if IsPrintableAscii(c) then [c]
      else if c as int < 0x10000 then UnitEscape(c as int)
      else UnitEscape(HighSurrogate(c)) + UnitEscape(LowSurrogate(c))
  }

  function Escape(s: string): (r: string)
    ensures forall k :: 0 <= k < |r| ==> IsPrintableAscii(r[k])
  {
    if |s| == 0 then "" else EscapeChar(s[0]) + Escape(s[1..])
  }

  function EncodeString(s: string): string {
    "\"" + Escape(s) + "\""
  }

  function Spaces(n: nat): string {
    seq(n, _ => ' ')
  }

  /** What `json.dumps` writes before an item (and before a closing bracket) at nesting `level`. */
  function Newline(layout: Layout, level: nat): string {
    match layout.indent
    case None => ""
    case Some(w) => "\n" + Spaces(w * level)
  }

  /** `json.dumps(j)` with the given layout, `level` the current nesting depth. */
  function Encode(j: Json, layout: Layout, level: nat): string
    decreases j
  {
    match j
    case JNull => "null"
    case JBool(b) => if b then "true" else "false"
    case JInt(i) => IntToString(i)
    case JStr(s) => EncodeString(s)
    case JArr(items) =>
      if |items| == 0 then "[]"
      else "[" + Newline(layout, level + 1) + EncodeItems(items, layout, level + 1) + Newline(layout, level) + "]"
    case JObj(members) =>
      if |members| == 0 then "{}"
      else "{" + Newline(layout, level + 1) + EncodeMembers(members, layout, level + 1) + Newline(layout, level) + "}"
  }

  function EncodeItems(items: seq<Json>, layout: Layout, level: nat): string
    requires |items| > 0
    decreases items
  {
    if |items| == 1 then Encode(items[0], layout, level)
    else Encode(items[0], layout, level) + layout.itemSep + Newline(layout, level) + EncodeItems(items[1..], layout, level)
  }

  function EncodeMembers(members: seq<(string, Json)>, layout: Layout, level: nat): string
    requires |members| > 0
    decreases members
  {
    var (key, value) := members[0];
    assert members[0] in members;
    assert members decreases to members[0];
    assert members[0] decreases to value;
    var head := EncodeString(key) + layout.keySep + Encode(value, layout, level);
    if |members| == 1 then head
    else head + layout.itemSep + Newline(layout, level) + EncodeMembers(members[1..], layout, level)
  }

  /** `json.dumps(j)` with the given layout: an object is written in braces, an array in brackets. */
  function Dumps(j: Json, layout: Layout): (r: string)
    ensures j.JObj? ==> |r| >= 2 && r[0] == '{' && r[|r| - 1] == '}'
    ensures j.JArr? ==> |r| >= 2 && r[0] == '[' && r[|r| - 1] == ']'
  {
    Encode(j, layout, 0)
  }

  // ---------------------------------------------------------------- decoding

  /** The whitespace `json.loads` skips between tokens. */
  predicate IsJsonSpace(c: char) {
    c == ' ' || c == '\t' || c == '\n' || c == '\r'
  }

  function SkipSpace(s: string): (r: string)
    ensures |r| <= |s|
    ensures s == [] || !IsJsonSpace(s[0]) ==> r == s
  {
    if |s| > 0 && IsJsonSpace(s[0]) then SkipSpace(s[1..]) else s
  }

  function HexValue(c: char): Option<nat> {
    if '0' <= c <= '9' then Some(c as int - '0' as int)
    else if 'a' <= c <= 'f' then Some(c as int - 'a' as int + 10)
    else if 'A' <= c <= 'F' then Some(c as int - 'A' as int + 10)
    else None
  }

  /** The value of the four hex digits that start `s`, if they are hex digits. */
  function ParseHex4(s: string): (r: Option<nat>)
    ensures r.Some? ==> |s| >= 4 && r.value < 0x10000
  {
    if |s| < 4 then None
    else match (HexValue(s[0]), HexValue(s[1]), HexValue(s[2]), HexValue(s[3]))
      case (Some(a), Some(b), Some(c), Some(d)) =>
        assert a < 16 && b < 16 && c < 16 && d < 16;
        Some(((a * 16 + b) * 16 + c) * 16 + d)
      case _ => None
  }

  predicate IsHighSurrogate(u: int) {
    0xD800 <= u <= 0xDBFF
  }

  predicate IsLowSurrogate(u: int) {
    0xDC00 <= u <= 0xDFFF
  }

  /**
   One escape sequence, `s` being what follows the backslash. A high
   surrogate must be followed by an escaped low surrogate; a lone surrogate,
   which Python would keep as a lone code unit, is rejected here.
   */
  function ParseEscape(s: string): (r: Option<(char, string)>)
    ensures r.Some? ==> |r.value.1| < |s|
  {
    if |s| == 0 then None
    else if s[0] == 'u' then ParseUnitEscape(s[1..])
    else match LetterEscape(s[0])
      case Some(c) => Some((c, s[1..]))
      case None => None
  }

  /** The character a backslash followed by the letter `e` stands for. */
  function LetterEscape(e: char): Option<char> {
    if e == '"' then Some('"')
    else if e == '\\' then Some('\\')
    else if e == '/' then Some('/')
    else if e == 'b' then Some(8 as char)
    else if e == 'f' then Some(12 as char)
    else if e == 'n' then Some('\n')
    else if e == 'r' then Some('\r')
    else if e == 't' then Some('\t')
    else None
  }

  /** `XXXX` after `\u`, with a following `\uXXXX` when the first is a high surrogate. */
  function ParseUnitEscape(s: string): (r: Option<(char, string)>)
    ensures r.Some? ==> |r.value.1| < |s|
  {
    match ParseHex4(s)
    case None => None
    case Some(u) =>
      if IsHighSurrogate(u) then ParseLowHalf(u, s[4..])
      else if IsLowSurrogate(u) then None
      else Some((u as char, s[4..]))
  }

  /** After a high surrogate `u`, the `\uXXXX` low surrogate that must follow it. */
  function ParseLowHalf(u: int, s: string): (r: Option<(char, string)>)
    requires IsHighSurrogate(u)
    ensures r.Some? ==> |r.value.1| < |s|
  {
    if |s| >= 2 && s[0] == '\\' && s[1] == 'u' then
      match ParseHex4(s[2..])
      case Some(v) =>
        if IsLowSurrogate(v) then Some((CombineSurrogates(u, v), s[6..]))
        else None
      case None => None
    else None
  }

  function CombineSurrogates(u: int, v: int): char
    requires IsHighSurrogate(u) && IsLowSurrogate(v)
  {
    (0x10000 + (u - 0xD800) * 0x400 + (v - 0xDC00)) as char
  }

  /**
   The rest of a string literal, `s` being what follows the opening quote:
   the decoded text and what follows the closing quote. Raw control
   characters are an error, as in Python's default strict mode.
   */
  function ParseStringBody(s: string): (r: Option<(string, string)>)
    ensures r.Some? ==> |r.value.1| < |s|
    decreases |s|
  {
    if |s| == 0 then None
    else if s[0] == '"' then Some(("", s[1..]))
    else if s[0] == '\\' then
      match ParseEscape(s[1..])
      case None => None
      case Some((c, rest)) => Prepend(c, ParseStringBody(rest))
    else if (s[0] as int) < 0x20 then None
    else Prepend(s[0], ParseStringBody(s[1..]))
  }

  function Prepend(c: char, r: Option<(string, string)>): Option<(string, string)> {
    match r
    case None => None
    case Some((t, rest)) => Some(([c] + t, rest))
  }

  /** The number of leading ASCII digits of `s`. */
  function DigitPrefix(s: string): (n: nat)
    ensures n <= |s|
    ensures forall k :: 0 <= k < n ==> IsDigit(s[k])
    ensures n < |s| ==> !IsDigit(s[n])
  {
    if |s| > 0 && IsDigit(s[0]) then 1 + DigitPrefix(s[1..]) else 0
  }

  /**
   A JSON integer: `-?(0|[1-9][0-9]*)`. A fraction or exponent (a float,
   which the model does not decode) gives `None`.
   */
  function ParseNumber(s: string): (r: Option<(int, string)>)
    ensures r.Some? ==> |r.value.1| < |s|
  {
    if |s| > 0 && s[0] == '-' then
      match ParseNatural(s[1..])
      case Some((v, rest)) => var m: int := v; Some((-m, rest))
      case None => None
    else
      match ParseNatural(s)
      case Some((v, rest)) => Some((v, rest))
      case None => None
  }

  /** The unsigned part of a JSON integer: `0`, or a digit run not starting with `0`. */
  function ParseNatural(t: string): (r: Option<(nat, string)>)
    ensures r.Some? ==> |r.value.1| < |t|
  {
    var len := if |t| > 0 && t[0] == '0' then 1 else DigitPrefix(t);
    if len == 0 then None
    else
      var rest := t[len..];
      if |rest| > 0 && (rest[0] == '.' || rest[0] == 'e' || rest[0] == 'E') then None
      else
        assert forall k :: 0 <= k < |t[..len]| ==> IsDigit(t[..len][k]);
        Some((DigitsValue(t[..len]), rest))
  }

  /** A scalar value, chosen by its first character as `json.loads`' scanner does. */
  function ParseScalar(s: string): (r: Option<(Json, string)>)
    ensures r.Some? ==> |r.value.1| < |s|
  {
    if |s| == 0 then None
    else if s[0] == 'n' then
      if |s| >= 4 && s[..4] == "null" then Some((JNull, s[4..])) else None
    else if s[0] == 't' then
      if |s| >= 4 && s[..4] == "true" then Some((JBool(true), s[4..])) else None
    else if s[0] == 'f' then
      if |s| >= 5 && s[..5] == "false" then Some((JBool(false), s[5..])) else None
    else if s[0] == '"' then
      match ParseStringBody(s[1..])
      case None => None
      case Some((t, rest)) => Some((JStr(t), rest))
    else
      match ParseNumber(s)
      case None => None
      case Some((i, rest)) => Some((JInt(i), rest))
  }

  /**
   The members of an object up to and including its closing brace, `s`
   starting at the first key: the members in document order and what
   follows the brace.
   */
  function ParseMembers(s: string): (r: Option<(seq<(string, Json)>, string)>)
    ensures r.Some? ==> |r.value.1| < |s|
    decreases |s|
  {
    if |s| == 0 || s[0] != '"' then None
    else match ParseStringBody(s[1..])
      case None => None
      case Some((key, r1)) =>
        var r2 := SkipSpace(r1);
        if |r2| == 0 || r2[0] != ':' then None
        else match ParseScalar(SkipSpace(r2[1..]))
          case None => None
          case Some((v, r3)) =>
            var r4 := SkipSpace(r3);
            if |r4| > 0 && r4[0] == ',' then
              match ParseMembers(SkipSpace(r4[1..]))
              case None => None
              case Some((more, r5)) => Some(([(key, v)] + more, r5))
            else if |r4| > 0 && r4[0] == '}' then Some(([(key, v)], r4[1..]))
            else None
  }

  /**
   `json.loads(s)` for a document holding one flat object; surrounding
   whitespace is allowed, anything after the object is an error (`None`,
   where Python raises).
   */
  function Loads(s: string): (r: Option<Json>)
    ensures r.Some? ==> r.value.JObj?
  {
    var t := SkipSpace(s);
    if |t| == 0 || t[0] != '{' then None
    else
      var u := SkipSpace(t[1..]);
      var parsed: Option<(seq<(string, Json)>, string)> :=
        if |u| > 0 && u[0] == '}' then Some(([], u[1..])) else ParseMembers(u);
      match parsed
      case None => None
      case Some((members, rest)) => if SkipSpace(rest) == [] then Some(JObj(members)) else None
  }

  /** `obj[key]` on a decoded object: the last member with that key wins, as in a Python dict. */
  function Lookup(members: seq<(string, Json)>, key: string): (r: Option<Json>)
    ensures r.Some? <==> exists k :: 0 <= k < |members| && members[k].0 == key
    ensures forall k :: 0 <= k < |members| && members[k].0 == key && (forall j :: k < j < |members| ==> members[j].0 != key)
              ==> r == Some(members[k].1)
  {
    if |members| == 0 then None
    else if members[|members| - 1].0 == key then Some(members[|members| - 1].1)
    else
      var r := Lookup(members[..|members| - 1], key);
      assert forall k :: 0 <= k < |members| - 1 ==> members[..|members| - 1][k] == members[k];
      r
  }

  // ------------------------------------------------------------- round trips

  /** The four base-16 digits of `n` recombine to `n`. */
  lemma Base16(n: nat)
    requires n < 0x10000
    ensures n / 16 / 16 / 16 < 16
    ensures n == ((n / 16 / 16 / 16 * 16 + n / 16 / 16 % 16) * 16 + n / 16 % 16) * 16 + n % 16
  {
    var q1 := n / 16;
    var q2 := q1 / 16;
    var q3 := q2 / 16;
    assert n == q1 * 16 + n % 16;
    assert q1 == q2 * 16 + q1 % 16;
    assert q2 == q3 * 16 + q2 % 16;
    assert q1 < 0x1000;
    assert q2 < 0x100;
  }

  lemma Hex4RoundTrip(n: nat, t: string)
    requires n < 0x10000
    ensures ParseHex4(Hex4(n) + t) == Some(n)
  {
    var s := Hex4(n) + t;
    assert s[..4] == Hex4(n);
    Base16(n);
  }

  lemma LetterEscapeInverse(c: char)
    requires ShortEscape(c).Some?
    ensures LetterEscape(ShortEscape(c).value) == Some(c)
  {
  }

  lemma ParseBmpEscape(c: char, t: string)
    requires c as int < 0x10000
    ensures ParseUnitEscape(Hex4(c as int) + t) == Some((c, t))
  {
    Hex4RoundTrip(c as int, t);
    assert (Hex4(c as int) + t)[4..] == t;
  }

  lemma SurrogatesCombine(c: char)
    requires c as int >= 0x10000
    ensures IsHighSurrogate(HighSurrogate(c)) && IsLowSurrogate(LowSurrogate(c))
    ensures CombineSurrogates(HighSurrogate(c), LowSurrogate(c)) == c
  {
    var n := c as int - 0x10000;
    assert n / 0x400 * 0x400 + n % 0x400 == n;
  }

  lemma ParseLowHalfOf(c: char, t: string)
    requires c as int >= 0x10000
    ensures ParseLowHalf(HighSurrogate(c), UnitEscape(LowSurrogate(c)) + t) == Some((c, t))
  {
    var lo := LowSurrogate(c);
    var u := UnitEscape(lo) + t;
    SurrogatesCombine(c);
    assert u[0] == '\\' && u[1] == 'u';
    assert u[2..] == Hex4(lo) + t;
    Hex4RoundTrip(lo, t);
    assert u[6..] == t;
  }

  lemma ParseAstralEscape(c: char, t: string)
    requires c as int >= 0x10000
    ensures ParseUnitEscape(Hex4(HighSurrogate(c)) + (UnitEscape(LowSurrogate(c)) + t)) == Some((c, t))
  {
    var hi := HighSurrogate(c);
    var rest := UnitEscape(LowSurrogate(c)) + t;
    var u := Hex4(hi) + rest;
    Hex4RoundTrip(hi, rest);
    assert u[4..] == rest;
    assert IsHighSurrogate(hi);
    ParseLowHalfOf(c, t);
  }

  /** A backslash-led escape decodes to `c` when `ParseEscape` reads `c` from what follows the backslash. */
  lemma ParseBackslash(c: char, s: string, t: string)
    requires |s| > 0 && s[0] == '\\'
    requires ParseEscape(s[1..]) == Some((c, t))
    ensures ParseStringBody(s) == Prepend(c, ParseStringBody(t))
  {
  }

  /** The same, for an escape `e` written in front of the rest `t`. */
  lemma ParseBackslashBefore(c: char, e: string, t: string)
    requires |e| > 0 && e[0] == '\\'
    requires ParseEscape(e[1..] + t) == Some((c, t))
    ensures ParseStringBody(e + t) == Prepend(c, ParseStringBody(t))
  {
    var s := e + t;
    TailOfConcat(e, t, s);
    ParseBackslash(c, s, t);
  }

  lemma TailOfConcat(e: string, t: string, s: string)
    requires |e| > 0 && s == e + t
    ensures s[0] == e[0] && s[1..] == e[1..] + t
  {
  }

  lemma ParseShortEscaped(c: char, t: string)
    requires ShortEscape(c).Some?
    ensures ParseStringBody(EscapeChar(c) + t) == Prepend(c, ParseStringBody(t))
  {
    var e := EscapeChar(c);
    LetterEscapeInverse(c);
    assert e == ['\\', ShortEscape(c).value];
    assert e[1..] + t == [ShortEscape(c).value] + t;
    assert ParseEscape(e[1..] + t) == Some((c, t));
    ParseBackslashBefore(c, e, t);
  }

  lemma ParsePlain(c: char, t: string)
    requires ShortEscape(c).None? && IsPrintableAscii(c)
    ensures ParseStringBody(EscapeChar(c) + t) == Prepend(c, ParseStringBody(t))
  {
    var e := EscapeChar(c);
    assert e == [c];
    assert (e + t)[0] == c;
    assert (e + t)[1..] == t;
  }

  lemma ParseBmpEscaped(c: char, t: string)
    requires ShortEscape(c).None? && !IsPrintableAscii(c) && c as int < 0x10000
    ensures ParseStringBody(EscapeChar(c) + t) == Prepend(c, ParseStringBody(t))
  {
    var e := EscapeChar(c);
    assert e == UnitEscape(c as int);
    ParseBmpEscape(c, t);
    assert e[1..] + t == "u" + (Hex4(c as int) + t);
    ParseBackslashBefore(c, e, t);
  }

  lemma ParseAstralEscaped(c: char, t: string)
    requires c as int >= 0x10000
    ensures ParseStringBody(EscapeChar(c) + t) == Prepend(c, ParseStringBody(t))
  {
    var e := EscapeChar(c);
    var high, low := Hex4(HighSurrogate(c)), UnitEscape(LowSurrogate(c));
    assert e == "\\u" + high + low;
    assert e[1..] + t == "u" + (high + (low + t));
    ParseAstralEscape(c, t);
    ParseBackslashBefore(c, e, t);
  }

  /** Decoding the escape of one character gives back that character and leaves the rest. */
  lemma ParseEscapedChar(c: char, t: string)
    ensures ParseStringBody(EscapeChar(c) + t) == Prepend(c, ParseStringBody(t))
  {
    if ShortEscape(c).Some? {
      ParseShortEscaped(c, t);
    } else if IsPrintableAscii(c) {
      ParsePlain(c, t);
    } else if c as int < 0x10000 {
      ParseBmpEscaped(c, t);
    } else {
      ParseAstralEscaped(c, t);
    }
  }

  /** A string literal written by `EncodeString` decodes to the original text. */
  lemma {:induction false} StringRoundTrip(x: string, t: string)
    ensures ParseStringBody(Escape(x) + "\"" + t) == Some((x, t))
    decreases |x|
  {
    if |x| == 0 {
      assert Escape(x) + "\"" + t == "\"" + t;
    } else {
      assert Escape(x) + "\"" + t == EscapeChar(x[0]) + (Escape(x[1..]) + "\"" + t);
      ParseEscapedChar(x[0], Escape(x[1..]) + "\"" + t);
      StringRoundTrip(x[1..], t);
      assert [x[0]] + x[1..] == x;
    }
  }

  lemma {:induction false} DigitPrefixOfDigits(d: string, t: string)
    requires forall k :: 0 <= k < |d| ==> IsDigit(d[k])
    requires t == [] || !IsDigit(t[0])
    ensures DigitPrefix(d + t) == |d|
    decreases |d|
  {
    if |d| > 0 {
      assert (d + t)[1..] == d[1..] + t;
      DigitPrefixOfDigits(d[1..], t);
    } else {
      assert d + t == t;
    }
  }

  /** What may follow a value in an object: a separator or the closing brace. */
  predicate FollowsValue(t: string) {
    |t| > 0 && (t[0] == ',' || t[0] == '}')
  }

  lemma NaturalRoundTrip(m: nat, t: string)
    requires FollowsValue(t)
    ensures ParseNatural(NatToString(m) + t) == Some((m, t))
  {
    var d := NatToString(m);
    var u := d + t;
    DigitPrefixOfDigits(d, t);
    assert u[..|d|] == d;
    assert u[|d|..] == t;
    assert u[0] == d[0];
    DigitsValueOfNat(m);
  }

  lemma NumberRoundTrip(i: int, t: string)
    requires FollowsValue(t)
    ensures ParseNumber(IntToString(i) + t) == Some((i, t))
  {
    if i < 0 {
      NegativeRoundTrip(-i, t);
    } else {
      NonNegativeRoundTrip(i, t);
    }
  }

  lemma NegativeRoundTrip(m: nat, t: string)
    requires m > 0 && FollowsValue(t)
    ensures ParseNumber(("-" + NatToString(m)) + t) == Some((-(m as int), t))
  {
    var s := ("-" + NatToString(m)) + t;
    MinusThenRest(NatToString(m), t, s);
    NaturalRoundTrip(m, t);
  }

  lemma MinusThenRest(d: string, t: string, s: string)
    requires s == ("-" + d) + t
    ensures |s| > 0 && s[0] == '-' && s[1..] == d + t
  {
    assert s == "-" + (d + t);
  }

  lemma NonNegativeRoundTrip(m: nat, t: string)
    requires FollowsValue(t)
    ensures ParseNumber(NatToString(m) + t) == Some((m as int, t))
  {
    var d := NatToString(m);
    assert (d + t)[0] == d[0];
    NaturalRoundTrip(m, t);
  }

  lemma StringScalarRoundTrip(x: string, t: string)
    ensures ParseScalar(EncodeString(x) + t) == Some((JStr(x), t))
  {
    var s := EncodeString(x) + t;
    assert s == "\"" + (Escape(x) + "\"" + t);
    assert s[0] == '"' && s[1..] == Escape(x) + "\"" + t;
    StringRoundTrip(x, t);
  }

  lemma IntScalarRoundTrip(i: int, t: string)
    requires FollowsValue(t)
    ensures ParseScalar(IntToString(i) + t) == Some((JInt(i), t))
  {
    var e := IntToString(i);
    assert e[0] == '-' || IsDigit(e[0]);
    assert (e + t)[0] == e[0];
    NumberRoundTrip(i, t);
  }

  lemma ScalarRoundTrip(v: Json, layout: Layout, t: string)
    requires IsScalar(v)
    requires FollowsValue(t)
    ensures ParseScalar(Encode(v, layout, 0) + t) == Some((v, t))
  {
    var s := Encode(v, layout, 0) + t;
    match v
    case JNull => assert s[..4] == "null";
    case JBool(b) =>
      if b { assert s[..4] == "true"; }
      else { assert s[..5] == "false"; }
    case JStr(x) => StringScalarRoundTrip(x, t);
    case JInt(i) => IntScalarRoundTrip(i, t);
  }

  /** A scalar's encoding never starts with JSON whitespace, so skipping whitespace before it is a no-op. */
  lemma ScalarStartsSolid(v: Json, layout: Layout, t: string)
    requires IsScalar(v)
    ensures SkipSpace(Encode(v, layout, 0) + t) == Encode(v, layout, 0) + t
  {
    var e := Encode(v, layout, 0);
    if v.JInt? {
      assert e[0] == '-' || IsDigit(e[0]);
    }
    assert (e + t)[0] == e[0];
  }

  /** A member's value at any depth encodes as at depth zero: scalars ignore the indentation level. */
  lemma ScalarLevel(v: Json, layout: Layout, level: nat)
    requires IsScalar(v)
    ensures Encode(v, layout, level) == Encode(v, layout, 0)
  {
  }

  /**
   `ParseMembers` on a key, a colon and a value it can read: what it does
   next depends only on the text after the value.
   */
  lemma ParseMemberUnfold(key: string, value: Json, s: string, r1: string, tail: string)
    requires |s| > 0 && s[0] == '"'
    requires ParseStringBody(s[1..]) == Some((key, r1))
    requires |r1| > 0 && r1[0] == ':'
    requires ParseScalar(SkipSpace(r1[1..])) == Some((value, tail))
    requires FollowsValue(tail)
    ensures ParseMembers(s) ==
        if tail[0] == '}' then Some(([(key, value)], tail[1..]))
        else match ParseMembers(SkipSpace(tail[1..]))
          case None => None
          case Some((more, r)) => Some(([(key, value)] + more, r))
  {
    assert SkipSpace(r1) == r1;
    assert SkipSpace(tail) == tail;
  }

  /** One `"key":value` pair followed by a separator or the closing brace. */
  lemma ParseMemberStep(key: string, value: Json, tail: string)
    requires IsScalar(value) && FollowsValue(tail)
    ensures var s := EncodeString(key) + (":" + (Encode(value, CompactLayout, 0) + tail));
      ParseMembers(s) ==
        if tail[0] == '}' then Some(([(key, value)], tail[1..]))
        else match ParseMembers(SkipSpace(tail[1..]))
          case None => None
          case Some((more, r)) => Some(([(key, value)] + more, r))
  {
    var r1 := ":" + (Encode(value, CompactLayout, 0) + tail);
    var s := EncodeString(key) + r1;
    KeyRoundTrip(key, r1);
    ValueAfterColon(value, tail);
    ParseMemberUnfold(key, value, s, r1, tail);
  }

  /** A key written by `json.dumps` reads back as itself, leaving what follows its closing quote. */
  lemma KeyRoundTrip(key: string, r1: string)
    ensures var s := EncodeString(key) + r1;
      |s| > 0 && s[0] == '"' && ParseStringBody(s[1..]) == Some((key, r1))
  {
    var s := EncodeString(key) + r1;
    QuotedThenRest(EncodeString(key), Escape(key), r1, s);
    StringRoundTrip(key, r1);
  }

  lemma QuotedThenRest(q: string, x: string, r1: string, s: string)
    requires q == "\"" + x + "\"" && s == q + r1
    ensures |s| > 0 && s[0] == '"' && s[1..] == x + "\"" + r1
  {
    assert s == "\"" + (x + "\"" + r1);
  }

  /** After the colon, a compactly written scalar reads back as itself. */
  lemma ValueAfterColon(value: Json, tail: string)
    requires IsScalar(value) && FollowsValue(tail)
    ensures var r1 := ":" + (Encode(value, CompactLayout, 0) + tail);
      |r1| > 0 && r1[0] == ':' && ParseScalar(SkipSpace(r1[1..])) == Some((value, tail))
  {
    var ev := Encode(value, CompactLayout, 0);
    var r1 := ":" + (ev + tail);
    assert r1[1..] == ev + tail;
    ScalarStartsSolid(value, CompactLayout, tail);
    ScalarRoundTrip(value, CompactLayout, tail);
  }

  /** The compact encoding of a member list, split at its first member. */
  lemma CompactMembersSplit(members: seq<(string, Json)>, level: nat, t: string)
    requires |members| > 0 && IsScalar(members[0].1)
    ensures var ev := Encode(members[0].1, CompactLayout, 0);
      var tail := if |members| == 1 then "}" + t
        else "," + (EncodeMembers(members[1..], CompactLayout, level) + "}" + t);
      EncodeMembers(members, CompactLayout, level) + "}" + t == EncodeString(members[0].0) + (":" + (ev + tail))
  {
    var ev := Encode(members[0].1, CompactLayout, 0);
    var more := if |members| == 1 then "" else "," + EncodeMembers(members[1..], CompactLayout, level);
    CompactMembersUnfold(members, level);
    Regroup(EncodeMembers(members, CompactLayout, level), EncodeString(members[0].0), ev, more, t);
  }

  lemma CompactMembersUnfold(members: seq<(string, Json)>, level: nat)
    requires |members| > 0 && IsScalar(members[0].1)
    ensures var ev := Encode(members[0].1, CompactLayout, 0);
      var more := if |members| == 1 then "" else "," + EncodeMembers(members[1..], CompactLayout, level);
      EncodeMembers(members, CompactLayout, level) == (EncodeString(members[0].0) + ":" + ev) + more
  {
    MembersUnfold(members, CompactLayout, level);
    ScalarLevel(members[0].1, CompactLayout, level);
  }

  lemma Regroup(whole: string, k: string, ev: string, more: string, t: string)
    requires whole == (k + ":" + ev) + more
    ensures whole + "}" + t == k + (":" + (ev + (more + "}" + t)))
  {
  }

  lemma FlatTail(members: seq<(string, Json)>)
    requires |members| > 0 && IsFlat(members)
    ensures IsScalar(members[0].1) && IsFlat(members[1..])
  {
    forall k | 0 <= k < |members[1..]| ensures IsScalar(members[1..][k].1) {
      assert members[1..][k] == members[k + 1];
    }
  }

  lemma {:induction false} MembersRoundTrip(members: seq<(string, Json)>, level: nat, t: string)
    requires |members| > 0 && IsFlat(members)
    ensures ParseMembers(EncodeMembers(members, CompactLayout, level) + "}" + t) == Some((members, t))
    decreases |members|
  {
    FlatTail(members);
    var (key, value) := members[0];
    CompactMembersSplit(members, level, t);
    if |members| == 1 {
      ParseMemberStep(key, value, "}" + t);
      assert ("}" + t)[1..] == t;
      assert [(key, value)] == members;
    } else {
      var rest := EncodeMembers(members[1..], CompactLayout, level) + "}" + t;
      var tail := "," + rest;
      ParseMemberStep(key, value, tail);
      assert tail[1..] == rest;
      assert SkipSpace(rest) == rest;
      MembersRoundTrip(members[1..], level, t);
      assert [(key, value)] + members[1..] == members;
    }
  }

  /** `json.loads` inverts the compact `json.dumps` on flat objects. */
  lemma LoadsCompact(members: seq<(string, Json)>)
    requires IsFlat(members)
    ensures Loads(Dumps(JObj(members), CompactLayout)) == Some(JObj(members))
  {
    var s := Dumps(JObj(members), CompactLayout);
    if |members| == 0 {
      assert s == "{}";
      assert SkipSpace(s) == s;
      assert s[1..] == "}";
    } else {
      var body := EncodeMembers(members, CompactLayout, 1) + "}";
      assert s == "{" + body;
      assert SkipSpace(s) == s;
      assert s[1..] == body;
      assert body[0] == '"';
      assert SkipSpace(body) == body;
      MembersRoundTrip(members, 1, "");
      assert body == EncodeMembers(members, CompactLayout, 1) + "}" + "";
    }
  }

  // ------------------------------------------------------- removing spaces

  /** A scalar with the spaces removed from its text, if it has any. */
  function UnspacedScalar(v: Json): Json {
    if v.JStr? then JStr(Remove(v.s, ' ')) else v
  }

  /** A flat object with the spaces removed from every key and every string value. */
  function UnspacedMembers(members: seq<(string, Json)>): (r: seq<(string, Json)>)
    ensures |r| == |members|
    ensures forall k :: 0 <= k < |r| ==> r[k] == (Remove(members[k].0, ' '), UnspacedScalar(members[k].1))
  {
    if |members| == 0 then []
    else [(Remove(members[0].0, ' '), UnspacedScalar(members[0].1))] + UnspacedMembers(members[1..])
  }

  /** Escaping never writes a space except for a space, so removing spaces commutes with escaping. */
  lemma {:induction false} RemoveSpacesEscape(x: string)
    ensures Remove(Escape(x), ' ') == Escape(Remove(x, ' '))
    decreases |x|
  {
    if |x| > 0 {
      var c := x[0];
      RemoveConcat(EscapeChar(c), Escape(x[1..]), ' ');
      RemoveSpacesEscape(x[1..]);
      var y := Remove(x[1..], ' ');
      if c != ' ' {
        assert Remove(x, ' ') == [c] + y;
        assert ([c] + y)[0] == c && ([c] + y)[1..] == y;
      } else {
        assert Remove(EscapeChar(c), ' ') == "";
        assert Remove(x, ' ') == y;
      }
    }
  }

  lemma RemoveSpacesString(x: string)
    ensures Remove(EncodeString(x), ' ') == EncodeString(Remove(x, ' '))
  {
    RemoveConcat("\"" + Escape(x), "\"", ' ');
    RemoveConcat("\"", Escape(x), ' ');
    RemoveSpacesEscape(x);
  }

  lemma RemoveSpacesScalar(v: Json, level: nat)
    requires IsScalar(v)
    ensures Remove(Encode(v, DefaultLayout, level), ' ') == Encode(UnspacedScalar(v), CompactLayout, 0)
  {
    match v
    case JStr(x) => RemoveSpacesString(x);
    case JInt(i) =>
      var e := IntToString(i);
      assert forall k :: 0 <= k < |e| ==> e[k] == '-' || IsDigit(e[k]);
      assert ' ' !in e;
    case _ =>
  }

  lemma RemoveSpacesMember(key: string, value: Json, level: nat)
    requires IsScalar(value)
    ensures Remove(EncodeString(key) + ": " + Encode(value, DefaultLayout, level), ' ')
         == EncodeString(Remove(key, ' ')) + ":" + Encode(UnspacedScalar(value), CompactLayout, level)
  {
    var ek := EncodeString(key);
    var ev := Encode(value, DefaultLayout, level);
    RemoveSpacesString(key);
    RemoveSpacesScalar(value, level);
    ScalarLevel(UnspacedScalar(value), CompactLayout, level);
    RemoveConcat(ek, ": ", ' ');
    RemoveConcat(ek + ": ", ev, ' ');
    SeparatorsUnspaced();
  }

  /** Removing spaces turns the default separators into the compact ones. */
  lemma SeparatorsUnspaced()
    ensures Remove(": ", ' ') == ":" && Remove(", ", ' ') == ","
  {
    assert ": "[1..] == " " && ", "[1..] == " ";
    assert " "[1..] == "";
  }

  lemma RemoveSpacesSeparated(head: string, rest: string)
    ensures Remove(head + ", " + rest, ' ') == Remove(head, ' ') + "," + Remove(rest, ' ')
  {
    RemoveConcat(head, ", ", ' ');
    RemoveConcat(head + ", ", rest, ' ');
    SeparatorsUnspaced();
  }

  /** The encoding of one member, `key` then the key separator then the value. */
  function MemberText(member: (string, Json), layout: Layout, level: nat): string {
    EncodeString(member.0) + layout.keySep + Encode(member.1, layout, level)
  }

  /** Without indentation, a member list is its first member, the item separator, and the rest. */
  lemma MembersUnfold(members: seq<(string, Json)>, layout: Layout, level: nat)
    requires |members| > 0 && layout.indent.None?
    ensures EncodeMembers(members, layout, level)
         == if |members| == 1 then MemberText(members[0], layout, level)
            else MemberText(members[0], layout, level) + layout.itemSep + EncodeMembers(members[1..], layout, level)
  {
    assert Newline(layout, level) == "";
  }

  lemma {:induction false} RemoveSpacesMembers(members: seq<(string, Json)>, level: nat)
    requires |members| > 0 && IsFlat(members)
    ensures Remove(EncodeMembers(members, DefaultLayout, level), ' ')
         == EncodeMembers(UnspacedMembers(members), CompactLayout, level)
    decreases |members|
  {
    FlatTail(members);
    var (key, value) := members[0];
    var u := UnspacedMembers(members);
    assert u[0] == (Remove(key, ' '), UnspacedScalar(value));
    var head := MemberText(members[0], DefaultLayout, level);
    var uhead := MemberText(u[0], CompactLayout, level);
    assert Remove(head, ' ') == uhead by {
      RemoveSpacesMember(key, value, level);
    }
    MembersUnfold(members, DefaultLayout, level);
    MembersUnfold(u, CompactLayout, level);
    if |members| > 1 {
      var rest := EncodeMembers(members[1..], DefaultLayout, level);
      RemoveSpacesSeparated(head, rest);
      RemoveSpacesMembers(members[1..], level);
      assert u[1..] == UnspacedMembers(members[1..]);
    }
  }

  /**
   Removing every space from `json.dumps(obj)` gives the compact dump of the
   object with the spaces removed from its keys and string values.
   */
  lemma RemoveSpacesDumps(members: seq<(string, Json)>)
    requires IsFlat(members)
    ensures Remove(Dumps(JObj(members), DefaultLayout), ' ') == Dumps(JObj(UnspacedMembers(members)), CompactLayout)
  {
    if |members| > 0 {
      var u := UnspacedMembers(members);
      var body := EncodeMembers(members, DefaultLayout, 1);
      DumpsObject(members, DefaultLayout);
      DumpsObject(u, CompactLayout);
      RemoveSpacesMembers(members, 1);
      RemoveAround(body);
    }
  }

  /** Without indentation, a non-empty object is its members between braces. */
  lemma DumpsObject(members: seq<(string, Json)>, layout: Layout)
    requires |members| > 0 && layout.indent.None?
    ensures Dumps(JObj(members), layout) == "{" + EncodeMembers(members, layout, 1) + "}"
  {
    assert Newline(layout, 0) == "" && Newline(layout, 1) == "";
  }

  lemma RemoveAround(body: string)
    ensures Remove("{" + body + "}", ' ') == "{" + Remove(body, ' ') + "}"
  {
    RemoveConcat("{", body, ' ');
    RemoveConcat("{" + body, "}", ' ');
    RemoveIdentity("{", ' ');
    RemoveIdentity("}", ' ');
  }

  /** The unspaced members of a flat object are flat. */
  lemma UnspacedFlat(members: seq<(string, Json)>)
    requires IsFlat(members)
    ensures IsFlat(UnspacedMembers(members))
  {
  }
}
