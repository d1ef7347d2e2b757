/**
  The JSON text Ruby's `to_json` writes for nested hashes, arrays, strings,
  booleans and nil, and a reader for that text. The text is compact (no
  whitespace between tokens), as the generator writes it; numbers never occur
  in the documents this program builds. The grammar and the string escapes are
  those of sections 2, 4, 5 and 7 of RFC 8259.
*/
module Json {
  import opened Basics

  datatype Json = JNull | JBool(b: bool) | JStr(s: string) | JArr(items: seq<Json>) | JObj(members: seq<Member>)

  /** One `"key":value` pair of an object, in the order the hash was built. */
  datatype Member = Member(key: string, value: Json)

  const HexDigits := "0123456789abcdef"

  /** How the generator writes one character inside a string literal: the quote,
      the backslash and the control characters are escaped, the short forms where
      section 7 of RFC 8259 has one, `\u00XX` otherwise. */
  function EscapeChar(c: char): (r: string)
    ensures |r| >= 1
    ensures r[0] == '\\' <==> (c == '"' || c == '\\' || (c as int) < 0x20)
    ensures r[0] != '\\' ==> r == [c]
  {
    if c == '"' then "\\\""
    else if c == '\\' then "\\\\"
    else if c as int == 0x08 then "\\b"
    else if c as int == 0x0C then "\\f"
    else if c == '\n' then "\\n"
    else if c == '\r' then "\\r"
    else if c == '\t' then "\\t"
    else if (c as int) < 0x20 then "\\u00" + [HexDigits[c as int / 16], HexDigits[c as int % 16]]
    else [c]
  }

  function Escape(s: string): string
  {
    if s == [] then [] else EscapeChar(s[0]) + Escape(s[1..])
  }

  /** A string literal: the escaped characters between double quotes. */
  function Quote(s: string): string
  {
    "\"" + Escape(s) + "\""
  }

  /** `JSON.generate`: compact text, array elements and object members separated by commas. */
  function Render(j: Json): string
  {
    match j
    case JNull => "null"
    case JBool(b) => if b then "true" else "false"
    case JStr(s) => Quote(s)
    case JArr(items) => "[" + RenderItems(items) + "]"
    case JObj(members) => "{" + RenderMembers(members) + "}"
  }

  function RenderItems(items: seq<Json>): string
  {
    if items == [] then ""
    else if |items| == 1 then Render(items[0])
    else Render(items[0]) + "," + RenderItems(items[1..])
  }

  function RenderMembers(ms: seq<Member>): string
  {
    if ms == [] then ""
    else if |ms| == 1 then RenderMember(ms[0])
    else RenderMember(ms[0]) + "," + RenderMembers(ms[1..])
  }

  function RenderMember(m: Member): string
  {
    Quote(m.key) + ":" + Render(m.value)
  }

  /** The value of a hexadecimal digit, either case. */
  function HexValue(c: char): (r: Option<nat>)
    ensures r.Some? ==> r.value < 16
  {
    if '0' <= c <= '9' then Some(c as int - '0' as int)
    else if 'a' <= c <= 'f' then Some(c as int - 'a' as int + 10)
    else if 'A' <= c <= 'F' then Some(c as int - 'A' as int + 10)
    else None
  }

  /** The character an escape sequence stands for, given the text after the
      backslash, and the text after the sequence. A `\u` escape that names half
      of a surrogate pair is not read. */
  function Unescape(t: string): (r: Option<(char, string)>)
    ensures r.Some? ==> |r.value.1| < |t|
  {
    if t == [] then None
    else if t[0] == '"' || t[0] == '\\' || t[0] == '/' then Some((t[0], t[1..]))
    else if t[0] == 'b' then Some((0x08 as char, t[1..]))
    else if t[0] == 'f' then Some((0x0C as char, t[1..]))
    else if t[0] == 'n' then Some(('\n', t[1..]))
    else if t[0] == 'r' then Some(('\r', t[1..]))
    else if t[0] == 't' then Some(('\t', t[1..]))
    else if t[0] == 'u' && |t| >= 5 then
      match (HexValue(t[1]), HexValue(t[2]), HexValue(t[3]), HexValue(t[4]))
      case (Some(a), Some(b), Some(c), Some(d)) =>
        var v := 4096 * a + 256 * b + 16 * c + d;
        if 0xD800 <= v < 0xE000 then None else Some((v as char, t[5..]))
      case _ => None
    else None
  }

  /** The body of a string literal, given the text after its opening quote,
      and the text after its closing quote. A raw control character is refused. */
  function ParseString(t: string): (r: Option<(string, string)>)
    ensures r.Some? ==> |r.value.1| < |t|
  {
    if t == [] then None
    else if t[0] == '"' then Some(([], t[1..]))
    else if t[0] == '\\' then
      match Unescape(t[1..])
      case None => None
      case Some((c, after)) =>
        match ParseString(after)
        case None => None
        case Some((s, rest)) => Some(([c] + s, rest))
    else if (t[0] as int) < 0x20 then None
    else
      match ParseString(t[1..])
      case None => None
      case Some((s, rest)) => Some(([t[0]] + s, rest))
  }

  /** One value at the front of `t`, and the text after it. */
  function ParseValue(t: string): (r: Option<(Json, string)>)
    ensures r.Some? ==> |r.value.1| < |t|
    decreases |t|, 0
  {
    if |t| >= 4 && t[..4] == "null" then Some((JNull, t[4..]))
    else if |t| >= 4 && t[..4] == "true" then Some((JBool(true), t[4..]))
    else if |t| >= 5 && t[..5] == "false" then Some((JBool(false), t[5..]))
    else if t == [] then None
    else if t[0] == '"' then
      match ParseString(t[1..])
      case None => None
      case Some((s, rest)) => Some((JStr(s), rest))
    else if t[0] == '[' then
      if |t| >= 2 && t[1] == ']' then Some((JArr([]), t[2..]))
      else
        match ParseItems(t[1..])
        case None => None
        case Some((items, rest)) => Some((JArr(items), rest))
    else if t[0] == '{' then
      if |t| >= 2 && t[1] == '}' then Some((JObj([]), t[2..]))
      else
        match ParseMembers(t[1..])
        case None => None
        case Some((ms, rest)) => Some((JObj(ms), rest))
    else None
  }

  /** The elements of a non-empty array up to and including its closing bracket. */
  function ParseItems(t: string): (r: Option<(seq<Json>, string)>)
    ensures r.Some? ==> |r.value.1| < |t|
    decreases |t|, 1
  {
    match ParseValue(t)
    case None => None
    case Some((v, rest)) =>
      if rest != [] && rest[0] == ']' then Some(([v], rest[1..]))
      else if rest != [] && rest[0] == ',' then
        match ParseItems(rest[1..])
        case None => None
        case Some((vs, after)) => Some(([v] + vs, after))
      else None
  }

  /** The members of a non-empty object up to and including its closing brace. */
  function ParseMembers(t: string): (r: Option<(seq<Member>, string)>)
    ensures r.Some? ==> |r.value.1| < |t|
    decreases |t|, 1
  {
    if t == [] || t[0] != '"' then None
    else
      match ParseString(t[1..])
      case None => None
      case Some((k, rest)) =>
        if rest == [] || rest[0] != ':' then None
        else
          match ParseValue(rest[1..])
          case None => None
          case Some((v, after)) =>
            if after != [] && after[0] == '}' then Some(([Member(k, v)], after[1..]))
            else if after != [] && after[0] == ',' then
              match ParseMembers(after[1..])
              case None => None
              case Some((ms, tail)) => Some(([Member(k, v)] + ms, tail))
            else None
  }

  /** `JSON.parse`: the document, when the whole text is exactly one value. */
  function Parse(t: string): Option<Json>
  {
    match ParseValue(t)
    case Some((j, rest)) => if rest == [] then Some(j) else None
    case None => None
  }

  /** `hash[key]` on a parsed object: the value of the last member with that key. */
  function Lookup(j: Json, key: string): (r: Option<Json>)
    ensures r.Some? ==> j.JObj? && exists i :: 0 <= i < |j.members| && j.members[i] == Member(key, r.value)
    ensures r.None? ==> !j.JObj? || forall m :: m in j.members ==> m.key != key
  {
    if j.JObj? then LastValue(j.members, key) else None
  }

  function LastValue(ms: seq<Member>, key: string): (r: Option<Json>)
    ensures r.Some? ==> exists i :: 0 <= i < |ms| && ms[i] == Member(key, r.value)
    ensures r.None? ==> forall m :: m in ms ==> m.key != key
  {
    if ms == [] then None
    else if ms[|ms| - 1].key == key then Some(ms[|ms| - 1].value)
    else LastValue(ms[..|ms| - 1], key)
  }

  lemma HexDigitValue(k: nat)
    requires k < 16
    ensures HexValue(HexDigits[k]) == Some(k)
  {
  }

  /** Reading back the escape the generator writes for `c` gives `c`. */
  lemma UnescapeEscapeChar(c: char, rest: string)
    requires EscapeChar(c)[0] == '\\'
    ensures Unescape(EscapeChar(c)[1..] + rest) == Some((c, rest))
  {
    var e := EscapeChar(c);
    var t := e[1..] + rest;
    if c != '"' && c != '\\' && c as int != 0x08 && c as int != 0x0C && c != '\n' && c != '\r' && c != '\t' {
      var n := c as int;
      HexDigitValue(n / 16);
      HexDigitValue(n % 16);
      assert t[0] == 'u' && t[1] == '0' && t[2] == '0';
      assert t[3] == HexDigits[n / 16] && t[4] == HexDigits[n % 16];
      assert t[5..] == rest;
    } else {
      assert t[1..] == rest;
    }
  }

  /** The string reader undoes the generator's escaping, whatever follows the closing quote. */
  lemma {:induction false} ParseStringEscape(s: string, rest: string)
    ensures ParseString(Escape(s) + "\"" + rest) == Some((s, rest))
  {
    var t := Escape(s) + "\"" + rest;
    if s == [] {
      assert t == "\"" + rest;
    } else {
      var tail := Escape(s[1..]) + "\"" + rest;
      assert t == EscapeChar(s[0]) + tail;
      ParseStringEscape(s[1..], rest);
      ParseStringStep(s[0], tail, s[1..], rest);
      assert [s[0]] + s[1..] == s;
    }
  }

  /** One escaped character in front of a string body is read back as that character. */
  lemma ParseStringStep(c: char, tail: string, s: string, rest: string)
    requires ParseString(tail) == Some((s, rest))
    ensures ParseString(EscapeChar(c) + tail) == Some(([c] + s, rest))
  {
    var e := EscapeChar(c);
    var t := e + tail;
    if e[0] == '\\' {
      assert t[0] == '\\' && t[1..] == e[1..] + tail;
      UnescapeEscapeChar(c, tail);
    } else {
      assert t[0] == c && t[1..] == tail;
    }
  }

  /** Every rendered value starts with a character that neither closes an array nor an object. */
  lemma RenderStart(j: Json)
    ensures |Render(j)| > 0 && Render(j)[0] in "ntf\"[{"
  {
  }

  /** Text that starts with neither `n`, `t` nor `f` is not read as a literal. */
  lemma NotLiteral(t: string)
    requires t != [] && t[0] != 'n' && t[0] != 't' && t[0] != 'f'
    ensures !(|t| >= 4 && t[..4] == "null") && !(|t| >= 4 && t[..4] == "true") && !(|t| >= 5 && t[..5] == "false")
  {
    if |t| >= 4 {
      assert t[..4][0] == t[0];
    }
    if |t| >= 5 {
      assert t[..5][0] == t[0];
    }
  }

  /** How the reader treats text that opens a non-empty array. */
  lemma ParseValueArray(t: string)
    requires |t| >= 2 && t[0] == '[' && t[1] != ']'
    ensures ParseValue(t) == match ParseItems(t[1..])
      case None => None
      case Some((items, rest)) => Some((JArr(items), rest))
  {
    NotLiteral(t);
  }

  /** How the reader treats text that opens a non-empty object. */
  lemma ParseValueObject(t: string)
    requires |t| >= 2 && t[0] == '{' && t[1] != '}'
    ensures ParseValue(t) == match ParseMembers(t[1..])
      case None => None
      case Some((ms, rest)) => Some((JObj(ms), rest))
  {
    NotLiteral(t);
  }

  /** Reading a rendered value gives it back, whatever text follows it. */
  lemma {:induction false} ParseRender(j: Json, rest: string)
    ensures ParseValue(Render(j) + rest) == Some((j, rest))
    decreases j, 2
  {
    var t := Render(j) + rest;
    match j
    case JNull =>
      assert t[..4] == "null" && t[4..] == rest;
    case JBool(b) =>
      if b {
        assert t[..4] == "true" && t[4..] == rest;
      } else {
        assert t[..4] == "fals";
        assert t[..5] == "false" && t[5..] == rest;
      }
    case JStr(s) =>
      assert t[0] == '"';
      NotLiteral(t);
      assert t[1..] == Escape(s) + "\"" + rest;
      ParseStringEscape(s, rest);
    case JArr(items) =>
      ParseRenderArray(items, rest);
    case JObj(ms) =>
      ParseRenderObject(ms, rest);
  }

  lemma {:induction false} ParseRenderArray(items: seq<Json>, rest: string)
    ensures ParseValue(Render(JArr(items)) + rest) == Some((JArr(items), rest))
    decreases items, 1
  {
    var t := Render(JArr(items)) + rest;
    if items == [] {
      assert t == "[]" + rest;
      NotLiteral(t);
      assert t[2..] == rest;
    } else {
      RenderStart(items[0]);
      assert t == "[" + (RenderItems(items) + "]" + rest);
      assert t[1] == Render(items[0])[0];
      ParseValueArray(t);
      ParseRenderItems(items, rest);
    }
  }

  lemma {:induction false} ParseRenderObject(ms: seq<Member>, rest: string)
    ensures ParseValue(Render(JObj(ms)) + rest) == Some((JObj(ms), rest))
    decreases ms, 5
  {
    var t := Render(JObj(ms)) + rest;
    if ms == [] {
      assert t == "{}" + rest;
      NotLiteral(t);
      assert t[2..] == rest;
    } else {
      assert t == "{" + (RenderMembers(ms) + "}" + rest);
      assert t[1] == '"';
      ParseValueObject(t);
      ParseRenderMembers(ms, rest);
    }
  }

  /** Reading one array element whose text is followed by `after`. */
  lemma ParseItemsHead(v: Json, after: string)
    requires after != [] && (after[0] == ']' || after[0] == ',')
    ensures ParseItems(Render(v) + after) ==
      if after[0] == ']' then Some(([v], after[1..]))
      else match ParseItems(after[1..])
        case None => None
        case Some((vs, tail)) => Some(([v] + vs, tail))
    decreases v, 3
  {
    ParseRender(v, after);
  }

  lemma {:induction false} ParseRenderItems(items: seq<Json>, rest: string)
    requires items != []
    ensures ParseItems(RenderItems(items) + "]" + rest) == Some((items, rest))
    decreases items, 0
  {
    if |items| == 1 {
      assert RenderItems(items) + "]" + rest == Render(items[0]) + ("]" + rest);
      ParseItemsHead(items[0], "]" + rest);
      assert ("]" + rest)[1..] == rest;
      assert [items[0]] == items;
    } else {
      var more := RenderItems(items[1..]) + "]" + rest;
      assert RenderItems(items) + "]" + rest == Render(items[0]) + ("," + more);
      ParseItemsHead(items[0], "," + more);
      assert ("," + more)[1..] == more;
      ParseRenderItems(items[1..], rest);
      assert [items[0]] + items[1..] == items;
    }
  }

  /** Reading one `"key":value` member whose value is followed by `after`. */
  lemma ParseMemberHead(m: Member, after: string)
    requires after != [] && (after[0] == '}' || after[0] == ',')
    ensures ParseMembers(RenderMember(m) + after) ==
      if after[0] == '}' then Some(([m], after[1..]))
      else match ParseMembers(after[1..])
        case None => None
        case Some((ms, tail)) => Some(([m] + ms, tail))
    decreases m, 4
  {
    var t := RenderMember(m) + after;
    var valueText := Render(m.value) + after;
    assert t[1..] == Escape(m.key) + "\"" + (":" + valueText);
    ParseStringEscape(m.key, ":" + valueText);
    assert (":" + valueText)[1..] == valueText;
    ParseRender(m.value, after);
  }

  /** The text of an object's members: the first, a comma, the rest. */
  lemma RenderMembersSplit(ms: seq<Member>, rest: string)
    requires |ms| >= 2
    ensures RenderMembers(ms) + "}" + rest == RenderMember(ms[0]) + ("," + (RenderMembers(ms[1..]) + "}" + rest))
  {
    var head, tail := RenderMember(ms[0]), RenderMembers(ms[1..]);
    RenderMembersCons(ms);
    Regroup(head, ",", tail, "}", rest);
  }

  lemma RenderMembersCons(ms: seq<Member>)
    requires |ms| >= 2
    ensures RenderMembers(ms) == RenderMember(ms[0]) + "," + RenderMembers(ms[1..])
  {
  }

  lemma Regroup(a: string, b: string, c: string, d: string, e: string)
    ensures a + b + c + d + e == a + (b + (c + d + e))
  {
  }

  /** An object with one member. */
  lemma ParseLastMember(ms: seq<Member>, rest: string)
    requires |ms| == 1
    ensures ParseMembers(RenderMembers(ms) + "}" + rest) == Some((ms, rest))
    decreases ms, 3
  {
    assert RenderMembers(ms) + "}" + rest == RenderMember(ms[0]) + ("}" + rest);
    ParseMemberHead(ms[0], "}" + rest);
    assert ("}" + rest)[1..] == rest;
    assert [ms[0]] == ms;
  }

  /** The first member, a comma, and the members after it. */
  lemma ParseNextMember(ms: seq<Member>, rest: string)
    requires |ms| >= 2
    requires ParseMembers(RenderMembers(ms[1..]) + "}" + rest) == Some((ms[1..], rest))
    ensures ParseMembers(RenderMembers(ms) + "}" + rest) == Some((ms, rest))
    decreases ms, 3
  {
    var more := RenderMembers(ms[1..]) + "}" + rest;
    RenderMembersSplit(ms, rest);
    ParseMemberHead(ms[0], "," + more);
    assert ("," + more)[1..] == more;
    assert [ms[0]] + ms[1..] == ms;
  }

  lemma {:induction false} ParseRenderMembers(ms: seq<Member>, rest: string)
    requires ms != []
    ensures ParseMembers(RenderMembers(ms) + "}" + rest) == Some((ms, rest))
    decreases ms, 4
  {
    if |ms| == 1 {
      ParseLastMember(ms, rest);
    } else {
      ParseRenderMembers(ms[1..], rest);
      ParseNextMember(ms, rest);
    }
  }

  /** `JSON.parse(JSON.generate(j)) == j` */
  lemma ParseGenerate(j: Json)
    ensures Parse(Render(j)) == Some(j)
  {
    ParseRender(j, "");
    assert Render(j) + "" == Render(j);
  }
}
