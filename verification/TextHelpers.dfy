/**
 The text helpers of `plugins/functions/etc.py`: markdown wrappers, the
 callback payload, the inter-bot data envelope, command-argument and reason
 extraction, and the link templates.
 */
module TextHelpers {
  import opened Maybe
  import opened Strings
  import opened Json

  // ------------------------------------------------------ markdown wrappers

  /** `text` between two copies of `fence`, or `""` when `text` is empty. */
  function Wrap(text: string, fence: string): (r: string)
    ensures text == "" <==> r == ""
    ensures text != "" ==>
      |r| == |text| + 2 * |fence| && r[..|fence|] == fence && r[|r| - |fence|..] == fence
      && r[|fence|..|r| - |fence|] == text
  {
    if text != "" then fence + text + fence else ""
  }

  /** Wrapping with the same fence never confuses two texts. */
  lemma WrapInjective(a: string, b: string, fence: string)
    requires Wrap(a, fence) == Wrap(b, fence)
    ensures a == b
  {
    if a != "" && b != "" {
      var r := Wrap(a, fence);
      assert a == r[|fence|..|r| - |fence|] == b;
    }
  }

  /** `bold(text)`: `**text**` */
  function Bold(text: string): (r: string)
    ensures text == "" ==> r == ""
    ensures text != "" ==> r == "**" + text + "**"
  {
    Wrap(text, "**")
  }

  /** `code(text)`: `` `text` `` */
  function Code(text: string): (r: string)
    ensures text == "" ==> r == ""
    ensures text != "" ==> r == "`" + text + "`"
  {
    Wrap(text, "`")
  }

  /** `code_block(text)`: ```` ```text``` ```` */
  function CodeBlock(text: string): (r: string)
    ensures text == "" ==> r == ""
    ensures text != "" ==> r == "```" + text + "```"
  {
    Wrap(text, "```")
  }

  // ------------------------------------------------------- callback payload

  /** The `data` argument of `button_data`: `Union[int, str]`, default `None`. */
  datatype Datum = NoDatum | IntDatum(n: int) | StrDatum(s: string)

  function DatumJson(d: Datum): (j: Json)
    ensures IsScalar(j)
  {
    match d
    case NoDatum => JNull
    case IntDatum(n) => JInt(n)
    case StrDatum(s) => JStr(s)
  }

  function OptionalText(t: Option<string>): (j: Json)
    ensures IsScalar(j)
  {
    match t
    case None => JNull
    case Some(s) => JStr(s)
  }

  /** The object `button_data` dumps: keys `a`, `t`, `d` in that order. */
  function ButtonObject(action: string, actionType: Option<string>, data: Datum): (r: seq<(string, Json)>)
    ensures IsFlat(r)
  {
    [("a", JStr(action)), ("t", OptionalText(actionType)), ("d", DatumJson(data))]
  }

  /** Every character is printable ASCII, so the UTF-8 encoding has one byte per character. */
  predicate Ascii(s: string) {
    forall c :: c in s ==> IsPrintableAscii(c)
  }

  /**
   `button_data(action, action_type, data)`: the JSON dump of the payload
   object with every space removed.
   */
  function ButtonData(action: string, actionType: Option<string>, data: Datum): (r: string)
    ensures ' ' !in r
    ensures Ascii(r)
  {
    var dumped := Dumps(JObj(ButtonObject(action, actionType, data)), DefaultLayout);
    FlatDumpsAscii(ButtonObject(action, actionType, data), DefaultLayout);
    Remove(dumped, ' ')
  }

  /** The dump of a flat object in a layout without indentation is printable ASCII. */
  lemma FlatDumpsAscii(members: seq<(string, Json)>, layout: Layout)
    requires IsFlat(members)
    requires layout.indent.None? && Ascii(layout.itemSep) && Ascii(layout.keySep)
    ensures Ascii(Dumps(JObj(members), layout))
  {
    if |members| > 0 {
      MembersAscii(members, layout, 1);
      assert Newline(layout, 0) == "" && Newline(layout, 1) == "";
    }
  }

  lemma StringAscii(s: string)
    ensures Ascii(EncodeString(s))
  {
    var e := Escape(s);
    forall c | c in e ensures IsPrintableAscii(c) {
      var k :| 0 <= k < |e| && e[k] == c;
    }
  }

  lemma ScalarAscii(v: Json, layout: Layout, level: nat)
    requires IsScalar(v)
    ensures Ascii(Encode(v, layout, level))
  {
    match v
    case JInt(i) =>
      var e := IntToString(i);
      var d := NatToString(if i < 0 then -i else i);
      forall c | c in d ensures IsPrintableAscii(c) {
        var k :| 0 <= k < |d| && d[k] == c;
      }
    case JStr(s) => StringAscii(s);
    case _ =>
  }

  lemma {:induction false} MembersAscii(members: seq<(string, Json)>, layout: Layout, level: nat)
    requires |members| > 0 && IsFlat(members)
    requires layout.indent.None? && Ascii(layout.itemSep) && Ascii(layout.keySep)
    ensures Ascii(EncodeMembers(members, layout, level))
    decreases |members|
  {
    FlatTail(members);
    ScalarAscii(members[0].1, layout, level);
    StringAscii(members[0].0);
    if |members| > 1 {
      MembersAscii(members[1..], layout, level);
      assert Newline(layout, level) == "";
    }
  }

  /**
   What `loads` reads back from a `button_data` payload: the same three
   keys, each text with its spaces removed.
   */
  lemma ButtonDataDecodes(action: string, actionType: Option<string>, data: Datum)
    ensures Loads(ButtonData(action, actionType, data))
         == Some(JObj(UnspacedMembers(ButtonObject(action, actionType, data))))
  {
    var members := ButtonObject(action, actionType, data);
    RemoveSpacesDumps(members);
    UnspacedFlat(members);
    LoadsCompact(UnspacedMembers(members));
  }

  predicate DatumHasSpace(d: Datum) {
    d.StrDatum? && ' ' in d.s
  }

  /**
   Decoding a `button_data` payload gives back exactly the object it was
   built from if and only if none of the three values contains a space.
   */
  lemma ButtonDataRoundTrip(action: string, actionType: Option<string>, data: Datum)
    ensures Loads(ButtonData(action, actionType, data)) == Some(JObj(ButtonObject(action, actionType, data)))
        <==> ' ' !in action && (actionType.Some? ==> ' ' !in actionType.value) && !DatumHasSpace(data)
  {
    var members := ButtonObject(action, actionType, data);
    var u := UnspacedMembers(members);
    ButtonDataDecodes(action, actionType, data);
    RemoveIdentity(action, ' ');
    RemoveIdentity("a", ' ');
    RemoveIdentity("t", ' ');
    RemoveIdentity("d", ' ');
    if actionType.Some? {
      RemoveIdentity(actionType.value, ' ');
    }
    if data.StrDatum? {
      RemoveIdentity(data.s, ' ');
    }
    assert u == members <==> u[0] == members[0] && u[1] == members[1] && u[2] == members[2];
  }

  // ------------------------------------------------------ data exchange

  /**
   `format_data(sender, receivers, action, action_type, data)`: the
   `indent=4` JSON dump of the envelope `from`/`to`/`action`/`type`/`data`,
   as a code block.
   */
  function FormatData(sender: string, receivers: seq<string>, action: string, actionType: string, data: Json): (r: string)
    ensures |r| > 6 && r[..3] == "```" && r[|r| - 3..] == "```"
    ensures r[3..|r| - 3] == Dumps(Envelope(sender, receivers, action, actionType, data), Indented(4))
    ensures r[3..8] == "{\n   "
  {
    var dumped := Dumps(Envelope(sender, receivers, action, actionType, data), Indented(4));
    assert dumped[..6] == "{\n    ";
    CodeBlock(dumped)
  }

  function Envelope(sender: string, receivers: seq<string>, action: string, actionType: string, data: Json): Json {
    JObj([
      ("from", JStr(sender)),
      ("to", JArr(seq(|receivers|, i requires 0 <= i < |receivers| => JStr(receivers[i])))),
      ("action", JStr(action)),
      ("type", JStr(actionType)),
      ("data", data)
    ])
  }

  // ------------------------------------------------------ message text

  /** Python truthiness of an optional string: present and non-empty. */
  predicate Truthy(s: Option<string>) {
    s.Some? && s.value != ""
  }

  /** `get_text(message)`: the text if it is truthy, else the caption if it is truthy, else `None`. */
  function GetText(text: Option<string>, caption: Option<string>): (r: Option<string>)
    ensures r.Some? ==> r.value != ""
    ensures r.None? <==> !Truthy(text) && !Truthy(caption)
    ensures Truthy(text) ==> r == text
    ensures !Truthy(text) && Truthy(caption) ==> r == caption
  {
    if Truthy(text) then text
    else if Truthy(caption) then caption
    else None
  }

  /** `text[start:]` with Python's clamping of an index past the end. */
  function From(text: string, start: nat): (r: string)
    ensures start <= |text| ==> r == text[start..]
    ensures start >= |text| ==> r == ""
  {
    if start <= |text| then text[start..] else ""
  }

  /**
   The index `get_command_context`'s loop stops at: the first non-empty
   piece at or after `from`, or the length when there is none.
   */
  function FirstFilled(parts: seq<string>, from: nat): (i: nat)
    requires from <= |parts|
    ensures from <= i <= |parts|
    ensures forall k :: from <= k < i ==> parts[k] == ""
    ensures i < |parts| ==> parts[i] != ""
    decreases |parts| - from
  {
    if from == |parts| || parts[from] != "" then from else FirstFilled(parts, from + 1)
  }

  /** More than two non-empty tokens means there is one after index 0, and a further one after that. */
  lemma {:induction false} ManyTokens(parts: seq<string>)
    requires |NonEmpty(parts)| > 2
    ensures var i := FirstFilled(parts, 1); i + 1 < |parts|
  {
    var i := FirstFilled(parts, 1);
    if i + 1 >= |parts| {
      // Only parts[0] and parts[i] can be non-empty.
      FewTokens(parts, i);
      assert false;
    }
  }

  /** If every piece other than those at 0 and `i` is empty, there are at most two tokens. */
  lemma FewTokens(parts: seq<string>, i: nat)
    requires 1 <= i <= |parts|
    requires forall k :: 1 <= k < i ==> parts[k] == ""
    requires i + 1 >= |parts|
    ensures |NonEmpty(parts)| <= 2
  {
    if |parts| > 0 {
      var tail := parts[1..];
      assert forall k :: 0 <= k < |tail| - 1 ==> tail[k] == "" by {
        forall k | 0 <= k < |tail| - 1 ensures tail[k] == "" {
          assert tail[k] == parts[k + 1];
        }
      }
      AtMostLast(tail);
    }
  }

  /** A list whose pieces are empty except possibly the last has at most one token. */
  lemma {:induction false} AtMostLast(xs: seq<string>)
    requires forall k :: 0 <= k < |xs| - 1 ==> xs[k] == ""
    ensures |NonEmpty(xs)| <= 1
    decreases |xs|
  {
    if |xs| > 1 {
      assert xs[0] == "";
      AtMostLast(xs[1..]);
    }
  }

  /**
   `get_command_context(message)` exactly as the source writes it: with
   more than two tokens, the text from offset
   `1 + len(parts[0]) + i + len(parts[1])`, stripped, where `i` is the
   index of the command type. The offset is right only when `i == 1`.
   */
  function CommandContextAsWritten(text: string): (r: string)
    ensures |NonEmpty(Split(text, ' '))| <= 2 ==> r == ""
    ensures Trimmed(r)
  {
    ContextAsWritten(text, Split(text, ' '))
  }

  function ContextAsWritten(text: string, parts: seq<string>): (r: string)
    requires |parts| >= 1
    ensures |NonEmpty(parts)| <= 2 ==> r == ""
    ensures Trimmed(r)
  {
    if |NonEmpty(parts)| > 2 then Strip(From(text, WrittenStart(parts))) else ""
  }

  /** The offset the source computes: `1 + len(parts[0]) + i + len(parts[1])`. */
  function WrittenStart(parts: seq<string>): nat
    requires |parts| >= 1
  {
    if |parts| >= 2 then 1 + |parts[0]| + FirstFilled(parts, 1) + |parts[1]| else 0
  }

  /**
   `get_command_context` as evidently intended: the text after the command
   type, stripped, however many spaces separate the tokens.
   */
  function CommandContext(text: string): (r: string)
    ensures |NonEmpty(Split(text, ' '))| <= 2 ==> r == ""
    ensures Trimmed(r)
  {
    Context(text, Split(text, ' '))
  }

  function Context(text: string, parts: seq<string>): (r: string)
    requires |parts| >= 1
    ensures |NonEmpty(parts)| <= 2 ==> r == ""
    ensures Trimmed(r)
  {
    if |NonEmpty(parts)| > 2 then Strip(From(text, IntendedStart(parts))) else ""
  }

  /** The offset just past the command type: `1 + len(parts[0]) + i + len(parts[i])`. */
  function IntendedStart(parts: seq<string>): nat
    requires |parts| >= 1
  {
    var i := FirstFilled(parts, 1);
    if i < |parts| then 1 + |parts[0]| + i + |parts[i]| else 0
  }

  /** `CommandContext` unfolded, for a text with more than two tokens. */
  lemma ContextUnfold(text: string, parts: seq<string>)
    requires parts == Split(text, ' ') && |NonEmpty(parts)| > 2
    ensures CommandContext(text) == Strip(From(text, IntendedStart(parts)))
  {
    assert CommandContext(text) == Context(text, parts);
  }

  /** `CommandContextAsWritten` unfolded, for a text with more than two tokens. */
  lemma ContextAsWrittenUnfold(text: string, parts: seq<string>)
    requires parts == Split(text, ' ') && |NonEmpty(parts)| > 2
    ensures CommandContextAsWritten(text) == Strip(From(text, WrittenStart(parts)))
  {
    assert CommandContextAsWritten(text) == ContextAsWritten(text, parts);
  }

  lemma IntendedStartAt(parts: seq<string>, i: nat)
    requires |NonEmpty(parts)| > 2 && i == FirstFilled(parts, 1)
    ensures i + 1 < |parts| && IntendedStart(parts) == 1 + |parts[0]| + i + |parts[i]|
  {
    ManyTokens(parts);
  }

  lemma RestAfterType(text: string, parts: seq<string>, i: nat)
    requires parts == Split(text, ' ') && |NonEmpty(parts)| > 2 && i == FirstFilled(parts, 1)
    ensures i + 1 < |parts| && From(text, IntendedStart(parts)) == Join(parts[i + 1..], ' ')
  {
    IntendedStartAt(parts, i);
    AfterCommandType(text, parts, i);
  }

  /**
   The corrected context is the stripped rest of the text after the
   command type `parts[i]`: the pieces after it, joined again.
   */
  lemma CommandContextIsRest(text: string, parts: seq<string>, i: nat)
    requires parts == Split(text, ' ') && |NonEmpty(parts)| > 2 && i == FirstFilled(parts, 1)
    ensures i + 1 < |parts| && CommandContext(text) == Strip(Join(parts[i + 1..], ' '))
  {
    ContextUnfold(text, parts);
    RestAfterType(text, parts, i);
  }

  /** The text after piece `i` of a split, when pieces 1 to `i - 1` are empty. */
  lemma AfterCommandType(text: string, parts: seq<string>, i: nat)
    requires parts == Split(text, ' ')
    requires 1 <= i && i + 1 < |parts|
    requires forall k :: 1 <= k < i ==> parts[k] == ""
    ensures From(text, 1 + |parts[0]| + i + |parts[i]|) == Join(parts[i + 1..], ' ')
  {
    var head := parts[..i + 1];
    var a, b := Join(head, ' '), Join(parts[i + 1..], ' ');
    assert text == (a + [' ']) + b by {
      JoinSplit(text, ' ');
      JoinAt(parts, ' ', i + 1);
    }
    assert |a| == |parts[0]| + i + |parts[i]| by {
      HeadLength(parts, i);
    }
  }

  lemma HeadLength(parts: seq<string>, i: nat)
    requires 1 <= i < |parts|
    requires forall k :: 1 <= k < i ==> parts[k] == ""
    ensures |Join(parts[..i + 1], ' ')| == |parts[0]| + i + |parts[i]|
  {
    var head := parts[..i + 1];
    JoinAt(head, ' ', 1);
    assert head[..1] == [parts[0]];
    var rest := head[1..];
    assert forall k :: 0 <= k < |rest| - 1 ==> rest[k] == "" by {
      forall k | 0 <= k < |rest| - 1 ensures rest[k] == "" {
        assert rest[k] == parts[k + 1];
      }
    }
    JoinEmptyThenLast(rest, ' ');
    assert rest[|rest| - 1] == parts[i];
  }

  /** Where no piece is empty, the command type is piece 1 and both offsets agree. */
  lemma StartsAgree(parts: seq<string>)
    requires |parts| >= 2 && parts[1] != ""
    ensures WrittenStart(parts) == IntendedStart(parts)
  {
  }

  /** With one space between tokens, the source's offset is the intended one. */
  lemma CommandContextSingleSpaced(text: string)
    requires forall piece :: piece in Split(text, ' ') ==> piece != ""
    ensures CommandContextAsWritten(text) == CommandContext(text)
  {
    var parts := Split(text, ' ');
    if |NonEmpty(parts)| > 2 {
      assert parts[1] in parts;
      StartsAgree(parts);
      ContextUnfold(text, parts);
      ContextAsWrittenUnfold(text, parts);
    }
  }

  /** The pieces of `/warn_config  limit 3`. */
  lemma DoubleSpaceSplit(text: string, parts: seq<string>)
    requires text == "/warn_config  limit 3" && parts == ["/warn_config", "", "limit", "3"]
    ensures Split(text, ' ') == parts
    ensures |NonEmpty(parts)| == 3 && FirstFilled(parts, 1) == 2
  {
    assert Join(parts[3..], ' ') == "3";
    assert Join(parts[2..], ' ') == "limit 3";
    assert Join(parts[1..], ' ') == " limit 3";
    assert Join(parts, ' ') == text;
    forall k | 0 <= k < |parts| ensures ' ' !in parts[k] {
    }
    SplitJoin(parts, ' ');
    assert NonEmpty(parts[3..]) == ["3"];
    assert NonEmpty(parts[2..]) == ["limit", "3"];
    assert NonEmpty(parts[1..]) == NonEmpty(parts[2..]);
  }

  /**
   `/warn_config  limit 3`, with two spaces after the command: as written,
   the context is read from inside the word `limit`.
   */
  lemma CommandContextDoubleSpace(text: string)
    requires text == "/warn_config  limit 3"
    ensures CommandContextAsWritten(text) == "imit 3"
  {
    var parts := ["/warn_config", "", "limit", "3"];
    DoubleSpaceSplit(text, parts);
    ContextAsWrittenUnfold(text, parts);
    DoubleSpaceWritten(text, parts);
  }

  lemma DoubleSpaceWritten(text: string, parts: seq<string>)
    requires text == "/warn_config  limit 3" && parts == ["/warn_config", "", "limit", "3"]
    requires FirstFilled(parts, 1) == 2
    ensures Strip(From(text, WrittenStart(parts))) == "imit 3"
  {
    assert WrittenStart(parts) == 15;
    var rest := "imit 3";
    assert text == "/warn_config  l" + rest;
    assert From(text, 15) == rest;
    StripUnpadded(rest);
  }

  /** The corrected reading of the same text gives the limit value. */
  lemma CommandContextDoubleSpaceFixed(text: string)
    requires text == "/warn_config  limit 3"
    ensures CommandContext(text) == "3"
  {
    var parts := ["/warn_config", "", "limit", "3"];
    DoubleSpaceSplit(text, parts);
    CommandContextIsRest(text, parts, 2);
    DoubleSpaceRest(parts);
  }

  lemma DoubleSpaceRest(parts: seq<string>)
    requires parts == ["/warn_config", "", "limit", "3"]
    ensures Strip(Join(parts[3..], ' ')) == "3"
  {
    assert parts[3..] == ["3"];
    StripUnpadded("3");
  }

  /**
   The remainder `get_reason` looks at: the text after the first
   `len(token)` characters, stripped, where `token` is the first non-empty
   space-separated token; `""` when there is no text or no token.
   */
  function ReasonOf(message: Option<string>): (r: string)
    ensures Trimmed(r)
  {
    match message
    case None => ""
    case Some(m) =>
      var tokens := NonEmpty(Split(m, ' '));
      if |tokens| == 0 then ""
      else
        assert tokens[0] in Split(m, ' ');
        Strip(m[|tokens[0]|..])
  }

  /** The line `get_reason` appends. */
  function ReasonLine(reason: string): string {
    "原因：" + Code(reason) + "\n"
  }

  /**
   `get_reason(message, text)`: `text`, followed by one reason line exactly
   when the message has a non-empty remainder after its first token. A
   message without text, or with no token, makes the source's `try` fall
   through with `text` unchanged.
   */
  function GetReason(message: Option<string>, text: string): (r: string)
    ensures |r| >= |text| && r[..|text|] == text
    ensures r == text <==> ReasonOf(message) == ""
    ensures r != text ==> r[|text|..] == "原因：`" + ReasonOf(message) + "`\n"
  {
    var reason := ReasonOf(message);
    if reason != "" then text + ReasonLine(reason) else text
  }

  // ------------------------------------------------------ links

  /** `general_link(text, link)`: a markdown link. */
  function GeneralLink(text: string, link: string): string {
    "[" + text + "](" + link + ")"
  }

  /** The label of a markdown link: what lies between `[` and the first `]`. */
  function LinkLabel(s: string): Option<string> {
    if |s| == 0 || s[0] != '[' then None else LabelUntilBracket(s[1..])
  }

  function LabelUntilBracket(s: string): Option<string> {
    if |s| == 0 then None
    else if s[0] == ']' then Some("")
    else match LabelUntilBracket(s[1..])
      case None => None
      case Some(t) => Some([s[0]] + t)
  }

  lemma {:induction false} LabelUntilBracketOf(t: string, rest: string)
    requires ']' !in t
    ensures LabelUntilBracket(t + "]" + rest) == Some(t)
    decreases |t|
  {
    if |t| == 0 {
      assert t + "]" + rest == "]" + rest;
    } else {
      assert (t + "]" + rest)[1..] == t[1..] + "]" + rest;
      assert ']' !in t[1..] by { assert forall c :: c in t[1..] ==> c in t; }
      LabelUntilBracketOf(t[1..], rest);
      assert [t[0]] + t[1..] == t;
    }
  }

  /** The label of a general link is its text, when that text has no `]`. */
  lemma GeneralLinkLabel(text: string, link: string)
    requires ']' !in text
    ensures LinkLabel(GeneralLink(text, link)) == Some(text)
  {
    var s := GeneralLink(text, link);
    assert s[1..] == text + "]" + ("(" + link + ")");
    LabelUntilBracketOf(text, "(" + link + ")");
  }

  /** `user_mention(uid)`: a link to the user's profile labelled with the id. */
  function UserMention(uid: int): (r: string)
    ensures LinkLabel(r) == Some(IntToString(uid))
  {
    var e := IntToString(uid);
    IdHasNoBracket(uid);
    GeneralLinkLabel(e, "tg://user?id=" + e);
    GeneralLink(e, "tg://user?id=" + e)
  }

  /** A printed integer holds no `]`, so it can label a link. */
  lemma IdHasNoBracket(n: int)
    ensures ']' !in IntToString(n)
  {
    var e := IntToString(n);
    assert forall k :: 0 <= k < |e| ==> e[k] == '-' || IsDigit(e[k]);
  }

  /** The label of a mention reads back as the user's id. */
  lemma UserMentionNamesUser(uid: int)
    ensures match LinkLabel(UserMention(uid))
      case Some(name) => ParseInt(name) == Some(uid)
      case None => false
  {
    ParseIntOfIntToString(uid);
  }

  /** `message_link(cid, mid)`: a link to a message, the chat id printed without its first four characters. */
  function MessageLink(cid: int, mid: int): (r: string)
    ensures LinkLabel(r) == Some(IntToString(mid))
  {
    var e := IntToString(mid);
    var link := "https://t.me/c/" + From(IntToString(cid), 4) + "/" + e;
    IdHasNoBracket(mid);
    GeneralLinkLabel(e, link);
    GeneralLink(e, link)
  }

  /**
   The Bot API id of a supergroup whose internal id is `c`: the negative of
   the number written `100` followed by the digits of `c`.
   */
  function SupergroupId(c: nat): int {
    var digits := "100" + NatToString(c);
    assert forall k :: 0 <= k < |digits| ==> IsDigit(digits[k]);
    -(DigitsValue(digits) as int)
  }

  /** The decimal form of a supergroup id: a minus sign, `100`, then the digits of `c`. */
  lemma SupergroupIdString(c: nat)
    ensures IntToString(SupergroupId(c)) == "-" + ("100" + NatToString(c))
  {
    var digits := "100" + NatToString(c);
    assert forall k :: 0 <= k < |digits| ==> IsDigit(digits[k]);
    NatToStringOfDigits(digits);
  }

  lemma DropSupergroupPrefix(d: string)
    ensures From("-" + ("100" + d), 4) == d
  {
    var p := "-100";
    assert "-" + ("100" + d) == p + d;
  }

  /** Dropping four characters from a supergroup id leaves exactly the internal id the link needs. */
  lemma MessageLinkOfSupergroup(c: nat, mid: int)
    ensures From(IntToString(SupergroupId(c)), 4) == NatToString(c)
    ensures MessageLink(SupergroupId(c), mid)
         == GeneralLink(IntToString(mid), "https://t.me/c/" + NatToString(c) + "/" + IntToString(mid))
  {
    SupergroupIdString(c);
    DropSupergroupPrefix(NatToString(c));
  }
}
