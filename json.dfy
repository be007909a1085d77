/** The JSON text format as the core uses it through `JSON.stringify` and
    `JSON.parse`: an encoder that escapes like `JSON.stringify` and a
    decoder that reads what `JSON.parse` reads, for values without numbers.
    The encoder's output never contains a line break, which is what lets a
    payload travel on one `data:` line of a server-sent-event frame. */
module Json {
  import opened Wrappers
  import Text

  /** A JSON value. Object members keep their order; numbers are not modelled. */
  datatype Value =
    | Null
    | Bool(b: bool)
    | Str(s: string)
    | Arr(items: seq<Value>)
    | Obj(members: seq<Member>)

  datatype Member = Member(key: string, value: Value)

  /** The value of `key` in a list of members: the last one wins, as in `JSON.parse`. */
  function Get(ms: seq<Member>, key: string): (r: Option<Value>)
  {
    if |ms| == 0 then None
    else if ms[|ms| - 1].key == key then Some(ms[|ms| - 1].value)
    else Get(ms[..|ms| - 1], key)
  }

  /** `Get` finds nothing exactly when no member has the key, and otherwise
      the value of the last member that has it. */
  lemma {:induction false} GetFound(ms: seq<Member>, key: string)
    ensures Get(ms, key).None? <==> forall i :: 0 <= i < |ms| ==> ms[i].key != key
    ensures Get(ms, key).Some? ==> exists i :: 0 <= i < |ms| && ms[i] == Member(key, Get(ms, key).value)
                                    && forall j :: i < j < |ms| ==> ms[j].key != key
    decreases |ms|
  {
    if |ms| > 0 && ms[|ms| - 1].key != key {
      var init := ms[..|ms| - 1];
      GetFound(init, key);
      if Get(ms, key).Some? {
        var i :| 0 <= i < |init| && init[i] == Member(key, Get(init, key).value)
                 && forall j :: i < j < |init| ==> init[j].key != key;
        assert ms[i] == init[i];
      }
    }
  }

  /** A member whose key does not recur later is the one `Get` finds. */
  lemma GetLast(ms: seq<Member>, i: int)
    requires 0 <= i < |ms|
    requires forall j :: i < j < |ms| ==> ms[j].key != ms[i].key
    ensures Get(ms, ms[i].key) == Some(ms[i].value)
    decreases |ms|
  {
    if i < |ms| - 1 {
      GetLast(ms[..|ms| - 1], i);
    }
  }

  /** `v[key]` for an object `v`; nothing for any other value. */
  function Field(v: Value, key: string): Option<Value>
  {
    if v.Obj? then Get(v.members, key) else None
  }

  // ---------------------------------------------------------------------
  // Encoding: JSON.stringify
  // ---------------------------------------------------------------------

  /** Lower-case hexadecimal digit. */
  function HexDigit(d: int): char
    requires 0 <= d < 16
  {
    if d < 10 then ('0' as int + d) as char else ('a' as int + d - 10) as char
  }

  /** How `JSON.stringify` writes one character inside a string literal. */
  function EscapeChar(c: char): string
  {
    if c == '"' then "\\\""
    else if c == '\\' then "\\\\"
    else if c as int == 0x08 then "\\b"
    else if c as int == 0x0C then "\\f"
    else if c == '\n' then "\\n"
    else if c == '\r' then "\\r"
    else if c == '\t' then "\\t"
    else if c as int < 0x20 then "\\u00" + [HexDigit(c as int / 16), HexDigit(c as int % 16)]
    else [c]
  }

  function Escape(s: string): string
  {
    if |s| == 0 then "" else EscapeChar(s[0]) + Escape(s[1..])
  }

  function Encode(v: Value): string
    decreases v, 1
  {
    match v
    case Null => "null"
    case Bool(b) => if b then "true" else "false"
    case Str(s) => "\"" + Escape(s) + "\""
    case Arr(items) => "[" + EncodeItems(items) + "]"
    case Obj(ms) => "{" + EncodeMembers(ms) + "}"
  }

  /** The array elements, separated by commas. */
  function EncodeItems(items: seq<Value>): string
    decreases items, 0
  {
    if |items| == 0 then ""
    else Encode(items[0]) + (if |items| == 1 then "" else "," + EncodeItems(items[1..]))
  }

  /** The object members as `"key":value`, separated by commas. */
  function EncodeMembers(ms: seq<Member>): string
    decreases ms, 0
  {
    if |ms| == 0 then ""
    else EncodeMember(ms[0]) + (if |ms| == 1 then "" else "," + EncodeMembers(ms[1..]))
  }

  // ---------------------------------------------------------------------
  // Decoding: JSON.parse
  // ---------------------------------------------------------------------

  /** JSON's insignificant whitespace. */
  predicate IsWs(c: char)
  {
    c == ' ' || c == '\t' || c == '\n' || c == '\r'
  }

  function SkipWs(s: string): (r: string)
    ensures |r| <= |s|
    decreases |s|
  {
    if |s| > 0 && IsWs(s[0]) then SkipWs(s[1..]) else s
  }

  function HexValue(c: char): Option<int>
  {
    if '0' <= c <= '9' then Some(c as int - '0' as int)
    else if 'a' <= c <= 'f' then Some(c as int - 'a' as int + 10)
    else if 'A' <= c <= 'F' then Some(c as int - 'A' as int + 10)
    else None
  }

  /** Four hexadecimal digits, as in a `\uXXXX` escape. */
  function ParseHex4(s: string): (r: Option<int>)
    requires |s| == 4
    ensures r.Some? ==> 0 <= r.value < 0x10000
  {
    match (HexValue(s[0]), HexValue(s[1]), HexValue(s[2]), HexValue(s[3]))
    case (Some(a), Some(b), Some(c), Some(d)) =>
      assert 0 <= a < 16 && 0 <= b < 16 && 0 <= c < 16 && 0 <= d < 16;
      Some(((a * 16 + b) * 16 + c) * 16 + d)
    case _ => None
  }

  /** The character a one-letter escape `\x` stands for. */
  function ShortEscape(x: char): Option<char>
  {
    if x == '"' then Some('"')
    else if x == '\\' then Some('\\')
    else if x == '/' then Some('/')
    else if x == 'b' then Some(0x08 as char)
    else if x == 'f' then Some(0x0C as char)
    else if x == 'n' then Some('\n')
    else if x == 'r' then Some('\r')
    else if x == 't' then Some('\t')
    else None
  }

  function PrependChar(c: char, r: Option<(string, string)>): Option<(string, string)>
  {
    match r
    case None => None
    case Some((text, rest)) => Some(([c] + text, rest))
  }

  /** The rest of a string literal after its opening quote: the decoded text
      and what follows the closing quote. */
  function ParseStringBody(s: string): (r: Option<(string, string)>)
    ensures r.Some? ==> |r.value.1| < |s|
    decreases |s|
  {
    if |s| == 0 then None
    else if s[0] == '"' then Some(("", s[1..]))
    else if s[0] == '\\' then
      if |s| < 2 then None
      else if s[1] == 'u' then
        if |s| < 6 then None
        else match ParseHex4(s[2..6])
          case None => None
          case Some(code) =>
            if 0xD800 <= code < 0xE000 then None
            else PrependChar(code as char, ParseStringBody(s[6..]))
      else match ShortEscape(s[1])
        case None => None
        case Some(c) => PrependChar(c, ParseStringBody(s[2..]))
    else if s[0] as int < 0x20 then None
    else PrependChar(s[0], ParseStringBody(s[1..]))
  }

  /** One value, after optional whitespace, and the text that follows it. */
  function ParseValue(s: string): (r: Option<(Value, string)>)
    ensures r.Some? ==> |r.value.1| < |s|
    decreases |s|, 0
  {
    var t := SkipWs(s);
    if Text.StartsWith(t, "null") then Some((Null, t[4..]))
    else if Text.StartsWith(t, "true") then Some((Bool(true), t[4..]))
    else if Text.StartsWith(t, "false") then Some((Bool(false), t[5..]))
    else if |t| > 0 && t[0] == '"' then
      match ParseStringBody(t[1..])
      case None => None
      case Some((text, rest)) => Some((Str(text), rest))
    else if |t| > 0 && t[0] == '[' then ParseArray(t[1..])
    else if |t| > 0 && t[0] == '{' then ParseObject(t[1..])
    else None
  }

  /** The rest of an array after its `[`. */
  function ParseArray(s: string): (r: Option<(Value, string)>)
    ensures r.Some? ==> |r.value.1| < |s|
    decreases |s|, 2
  {
    var t := SkipWs(s);
    if |t| > 0 && t[0] == ']' then Some((Arr([]), t[1..]))
    else match ParseElements(t)
      case None => None
      case Some((items, rest)) => Some((Arr(items), rest))
  }

  /** One or more comma-separated elements and the closing `]`. */
  function ParseElements(s: string): (r: Option<(seq<Value>, string)>)
    ensures r.Some? ==> |r.value.1| < |s|
    decreases |s|, 1
  {
    match ParseValue(s)
    case None => None
    case Some((v, rest)) =>
      var t := SkipWs(rest);
      if |t| > 0 && t[0] == ']' then Some(([v], t[1..]))
      else if |t| > 0 && t[0] == ',' then
        match ParseElements(t[1..])
        case None => None
        case Some((more, rest')) => Some(([v] + more, rest'))
      else None
  }

  /** The rest of an object after its `{`. */
  function ParseObject(s: string): (r: Option<(Value, string)>)
    ensures r.Some? ==> |r.value.1| < |s|
    decreases |s|, 2
  {
    var t := SkipWs(s);
    if |t| > 0 && t[0] == '}' then Some((Obj([]), t[1..]))
    else match ParseMembers(t)
      case None => None
      case Some((ms, rest)) => Some((Obj(ms), rest))
  }

  /** One or more comma-separated `"key": value` members and the closing `}`. */
  function ParseMembers(s: string): (r: Option<(seq<Member>, string)>)
    ensures r.Some? ==> |r.value.1| < |s|
    decreases |s|, 1
  {
    var t := SkipWs(s);
    if |t| == 0 || t[0] != '"' then None
    else match ParseStringBody(t[1..])
      case None => None
      case Some((key, afterKey)) =>
        var u := SkipWs(afterKey);
        if |u| == 0 || u[0] != ':' then None
        else match ParseValue(u[1..])
          case None => None
          case Some((v, rest)) =>
            var w := SkipWs(rest);
            if |w| > 0 && w[0] == '}' then Some(([Member(key, v)], w[1..]))
            else if |w| > 0 && w[0] == ',' then
              match ParseMembers(w[1..])
              case None => None
              case Some((more, rest')) => Some(([Member(key, v)] + more, rest'))
            else None
  }

  /** `JSON.parse(s)`: one value, surrounded by nothing but whitespace. */
  function Decode(s: string): Option<Value>
  {
    match ParseValue(s)
    case None => None
    case Some((v, rest)) => if |SkipWs(rest)| == 0 then Some(v) else None
  }

  // ---------------------------------------------------------------------
  // Round trip
  // ---------------------------------------------------------------------

  lemma HexDigitValue(d: int)
    requires 0 <= d < 16
    ensures HexValue(HexDigit(d)) == Some(d)
  {
  }

  /** One escaped character is read back as that character. */
  lemma ParseEscapedChar(c: char, tail: string)
    ensures ParseStringBody(EscapeChar(c) + tail) == PrependChar(c, ParseStringBody(tail))
  {
    var input := EscapeChar(c) + tail;
    if c == '"' || c == '\\' || c as int == 0x08 || c as int == 0x0C || c == '\n' || c == '\r' || c == '\t' {
      ParseShortEscape(c, tail);
    } else if c as int < 0x20 {
      ParseUnicodeEscape(c, tail);
    } else {
      assert input[0] == c && input[1..] == tail;
    }
  }

  lemma ParseShortEscape(c: char, tail: string)
    requires c == '"' || c == '\\' || c as int == 0x08 || c as int == 0x0C || c == '\n' || c == '\r' || c == '\t'
    ensures ParseStringBody(EscapeChar(c) + tail) == PrependChar(c, ParseStringBody(tail))
  {
    var input := EscapeChar(c) + tail;
    assert |EscapeChar(c)| == 2 && EscapeChar(c)[0] == '\\';
    assert input[0] == '\\' && input[1] == EscapeChar(c)[1] && input[2..] == tail;
    assert ShortEscape(input[1]) == Some(c);
  }

  lemma ParseUnicodeEscape(c: char, tail: string)
    requires c as int < 0x20
    requires c != '\n' && c != '\r' && c != '\t' && c as int != 0x08 && c as int != 0x0C
    ensures ParseStringBody(EscapeChar(c) + tail) == PrependChar(c, ParseStringBody(tail))
  {
    var hi, lo := c as int / 16, c as int % 16;
    var input := EscapeChar(c) + tail;
    assert EscapeChar(c) == "\\u00" + [HexDigit(hi), HexDigit(lo)];
    HexDigitValue(hi);
    HexDigitValue(lo);
    assert input[0] == '\\' && input[1] == 'u';
    assert input[2..6] == "00" + [HexDigit(hi), HexDigit(lo)];
    assert ParseHex4(input[2..6]) == Some(c as int);
    assert input[6..] == tail;
  }

  lemma {:induction false} ParseEscaped(s: string, rest: string)
    ensures ParseStringBody(Escape(s) + "\"" + rest) == Some((s, rest))
  {
    var input := Escape(s) + "\"" + rest;
    if |s| == 0 {
      assert input == "\"" + rest;
      assert input[1..] == rest;
    } else {
      var tail := Escape(s[1..]) + "\"" + rest;
      assert Escape(s) == EscapeChar(s[0]) + Escape(s[1..]);
      Regroup(EscapeChar(s[0]), Escape(s[1..]), "\"", rest);
      ParseEscapedChar(s[0], tail);
      ParseEscaped(s[1..], rest);
      assert [s[0]] + s[1..] == s;
    }
  }

  lemma NoLeadingWs(s: string)
    requires |s| > 0 && !IsWs(s[0])
    ensures SkipWs(s) == s
  {
  }

  /** What an encoding starts with. */
  lemma EncodeStart(v: Value)
    ensures |Encode(v)| > 0
    ensures Encode(v)[0] in {'n', 't', 'f', '"', '[', '{'}
  {
  }

  lemma {:induction false} ParseEncoded(v: Value, rest: string)
    ensures ParseValue(Encode(v) + rest) == Some((v, rest))
    decreases v, 1
  {
    match v
    case Null => ParseLiteral(v, rest);
    case Bool(_) => ParseLiteral(v, rest);
    case Str(s) => ParseEncodedString(s, rest);
    case Arr(items) => ParseEncodedArray(items, rest);
    case Obj(ms) => ParseEncodedObject(ms, rest);
  }

  lemma ParseLiteral(v: Value, rest: string)
    requires v.Null? || v.Bool?
    ensures ParseValue(Encode(v) + rest) == Some((v, rest))
  {
    var input := Encode(v) + rest;
    NoLeadingWs(input);
    var n := |Encode(v)|;
    assert input[..n] == Encode(v) && input[n..] == rest;
  }

  lemma ParseEncodedString(s: string, rest: string)
    ensures ParseValue(Encode(Str(s)) + rest) == Some((Str(s), rest))
  {
    var input := Encode(Str(s)) + rest;
    NoLeadingWs(input);
    assert input[0] == '"';
    assert !Text.StartsWith(input, "null") && !Text.StartsWith(input, "true") && !Text.StartsWith(input, "false");
    assert input[1..] == Escape(s) + "\"" + rest;
    ParseEscaped(s, rest);
  }

  lemma {:induction false} ParseEncodedArray(items: seq<Value>, rest: string)
    ensures ParseValue(Encode(Arr(items)) + rest) == Some((Arr(items), rest))
    decreases Arr(items), 0
  {
    var text := EncodeItems(items) + "]" + rest;
    Bracketed('[', EncodeItems(items), ']', rest);
    ParseValueOpen("[" + text);
    if |items| == 0 {
      assert text == "]" + rest;
      ParseArrayEmpty(rest);
    } else {
      EncodeStart(items[0]);
      SplitEncodedItems(items, rest);
      assert text[0] == Encode(items[0])[0];
      ParseEncodedItems(items, rest);
      ParseArrayOf(text, items, rest);
    }
  }

  lemma {:induction false} ParseEncodedObject(ms: seq<Member>, rest: string)
    ensures ParseValue(Encode(Obj(ms)) + rest) == Some((Obj(ms), rest))
    decreases Obj(ms), 0
  {
    var text := EncodeMembers(ms) + "}" + rest;
    Bracketed('{', EncodeMembers(ms), '}', rest);
    ParseValueOpen("{" + text);
    if |ms| == 0 {
      assert text == "}" + rest;
      ParseObjectEmpty(rest);
    } else {
      SplitEncodedMembers(ms, rest);
      assert text[0] == '"';
      ParseEncodedMembers(ms, rest);
      ParseObjectOf(text, ms, rest);
    }
  }

  /** An encoded container followed by more text: its opening bracket, then
      its contents, its closing bracket and the text. */
  lemma Bracketed(open: char, body: string, close: char, rest: string)
    ensures ([open] + body + [close]) + rest == [open] + (body + [close] + rest)
  {
  }

  /** A value starting with a bracket is the container after it. */
  lemma ParseValueOpen(s: string)
    requires |s| > 0 && (s[0] == '[' || s[0] == '{')
    ensures s[0] == '[' ==> ParseValue(s) == ParseArray(s[1..])
    ensures s[0] == '{' ==> ParseValue(s) == ParseObject(s[1..])
  {
    NoLeadingWs(s);
    assert !Text.StartsWith(s, "null") && !Text.StartsWith(s, "true") && !Text.StartsWith(s, "false");
  }

  lemma ParseArrayEmpty(rest: string)
    ensures ParseArray("]" + rest) == Some((Arr([]), rest))
  {
    NoLeadingWs("]" + rest);
    assert ("]" + rest)[1..] == rest;
  }

  lemma ParseObjectEmpty(rest: string)
    ensures ParseObject("}" + rest) == Some((Obj([]), rest))
  {
    NoLeadingWs("}" + rest);
    assert ("}" + rest)[1..] == rest;
  }

  /** A non-empty array's contents. */
  lemma ParseArrayOf(text: string, items: seq<Value>, rest: string)
    requires |text| > 0 && !IsWs(text[0]) && text[0] != ']'
    requires ParseElements(text) == Some((items, rest))
    ensures ParseArray(text) == Some((Arr(items), rest))
  {
    NoLeadingWs(text);
  }

  /** A non-empty object's contents. */
  lemma ParseObjectOf(text: string, ms: seq<Member>, rest: string)
    requires |text| > 0 && !IsWs(text[0]) && text[0] != '}'
    requires ParseMembers(text) == Some((ms, rest))
    ensures ParseObject(text) == Some((Obj(ms), rest))
  {
    NoLeadingWs(text);
  }

  lemma {:induction false} ParseEncodedItems(items: seq<Value>, rest: string)
    requires |items| > 0
    ensures ParseElements(EncodeItems(items) + "]" + rest) == Some((items, rest))
    decreases items, 0
  {
    var v := items[0];
    SplitEncodedItems(items, rest);
    if |items| == 1 {
      var after := "]" + rest;
      ParseEncodedItem(v, after);
      assert after[1..] == rest;
      assert [v] == items;
    } else {
      var after := "," + EncodeItems(items[1..]) + "]" + rest;
      assert ParseElements(after[1..]) == Some((items[1..], rest)) by {
        assert after[1..] == EncodeItems(items[1..]) + "]" + rest;
        ParseEncodedItems(items[1..], rest);
      }
      ParseEncodedItem(v, after);
      assert [v] + items[1..] == items;
    }
  }

  /** One encoded element is read back, and parsing goes on after it. */
  lemma {:induction false} ParseEncodedItem(v: Value, after: string)
    requires |after| > 0 && (after[0] == ',' || after[0] == ']')
    ensures ParseElements(Encode(v) + after)
            == if after[0] == ']' then Some(([v], after[1..]))
               else match ParseElements(after[1..])
                 case None => None
                 case Some((more, rest')) => Some(([v] + more, rest'))
    decreases v, 2
  {
    ParseEncoded(v, after);
    NoLeadingWs(after);
  }

  /** The elements' text is the first element's text followed by the rest. */
  lemma SplitEncodedItems(items: seq<Value>, rest: string)
    requires |items| > 0
    ensures |items| == 1 ==> EncodeItems(items) + "]" + rest == Encode(items[0]) + ("]" + rest)
    ensures |items| > 1 ==> EncodeItems(items) + "]" + rest
                            == Encode(items[0]) + ("," + EncodeItems(items[1..]) + "]" + rest)
  {
    var head := Encode(items[0]);
    if |items| == 1 {
      assert EncodeItems(items) == head;
    } else {
      var tail := "," + EncodeItems(items[1..]);
      assert EncodeItems(items) == head + tail;
      Regroup(head, tail, "]", rest);
    }
  }

  /** The text of one member, as `EncodeMembers` writes it. */
  function EncodeMember(m: Member): string
    decreases m, 2
  {
    "\"" + Escape(m.key) + "\":" + Encode(m.value)
  }

  /** One encoded member is read back, and parsing goes on after it. */
  lemma {:induction false} ParseEncodedMember(m: Member, after: string)
    requires |after| > 0 && (after[0] == ',' || after[0] == '}')
    ensures ParseMembers(EncodeMember(m) + after)
            == if after[0] == '}' then Some(([m], after[1..]))
               else match ParseMembers(after[1..])
                 case None => None
                 case Some((more, rest')) => Some(([m] + more, rest'))
    decreases m, 1
  {
    var afterKey := ":" + Encode(m.value) + after;
    var input := EncodeMember(m) + after;
    MemberShape(Escape(m.key), Encode(m.value), after);
    NoLeadingWs(input);
    ParseEscaped(m.key, afterKey);
    NoLeadingWs(afterKey);
    ParseEncoded(m.value, after);
    NoLeadingWs(after);
  }

  /** Where a member's text puts its key, its value and what follows. */
  lemma MemberShape(key: string, value: string, after: string)
    ensures var input := ("\"" + key + "\":" + value) + after;
            input[0] == '"' && input[1..] == key + "\"" + (":" + value + after)
    ensures (":" + value + after)[0] == ':' && (":" + value + after)[1..] == value + after
  {
  }

  /** The members' text is the first member's text followed by the rest. */
  lemma SplitEncodedMembers(ms: seq<Member>, rest: string)
    requires |ms| > 0
    ensures |ms| == 1 ==> EncodeMembers(ms) + "}" + rest == EncodeMember(ms[0]) + ("}" + rest)
    ensures |ms| > 1 ==> EncodeMembers(ms) + "}" + rest
                         == EncodeMember(ms[0]) + ("," + (EncodeMembers(ms[1..]) + "}" + rest))
  {
    var head := EncodeMember(ms[0]);
    if |ms| == 1 {
      assert EncodeMembers(ms) == head;
    } else {
      var more := EncodeMembers(ms[1..]);
      assert EncodeMembers(ms) == head + ("," + more);
      Regroup(head, "," + more, "}", rest);
      Regroup(",", more, "}", rest);
    }
  }

  lemma Regroup(a: string, b: string, c: string, d: string)
    ensures ((a + b) + c) + d == a + ((b + c) + d)
  {
  }

  lemma {:induction false} ParseEncodedMembers(ms: seq<Member>, rest: string)
    requires |ms| > 0
    ensures ParseMembers(EncodeMembers(ms) + "}" + rest) == Some((ms, rest))
    decreases ms, 0
  {
    SplitEncodedMembers(ms, rest);
    if |ms| == 1 {
      ParseLastMember(ms[0], rest);
      assert [ms[0]] == ms;
    } else {
      ParseEncodedMembers(ms[1..], rest);
      ParseMemberThenMore(ms[0], EncodeMembers(ms[1..]) + "}" + rest, ms[1..], rest);
      assert [ms[0]] + ms[1..] == ms;
    }
  }

  /** The last encoded member, followed by the closing brace. */
  lemma {:induction false} ParseLastMember(m: Member, rest: string)
    ensures ParseMembers(EncodeMember(m) + ("}" + rest)) == Some(([m], rest))
    decreases m, 2
  {
    var after := "}" + rest;
    ParseEncodedMember(m, after);
    assert after[1..] == rest;
  }

  /** An encoded member followed by a comma and the text of more members. */
  lemma {:induction false} ParseMemberThenMore(m: Member, text: string, more: seq<Member>, rest: string)
    requires ParseMembers(text) == Some((more, rest))
    ensures ParseMembers(EncodeMember(m) + ("," + text)) == Some(([m] + more, rest))
    decreases m, 2
  {
    var after := "," + text;
    assert after[1..] == text;
    ParseEncodedMember(m, after);
  }

  /** `JSON.parse(JSON.stringify(v))` gives `v` back. */
  lemma DecodeEncode(v: Value)
    ensures Decode(Encode(v)) == Some(v)
  {
    ParseEncoded(v, "");
    assert Encode(v) + "" == Encode(v);
  }

  // ---------------------------------------------------------------------
  // No line breaks in an encoding
  // ---------------------------------------------------------------------

  /** No control character (below U+0020), so in particular no `\n`. */
  predicate NoControl(s: string)
  {
    forall i | 0 <= i < |s| :: s[i] as int >= 0x20
  }

  lemma NoControlAppend(a: string, b: string)
    requires NoControl(a) && NoControl(b)
    ensures NoControl(a + b)
  {
    forall i | 0 <= i < |a + b|
      ensures (a + b)[i] as int >= 0x20
    {
      if i < |a| { assert (a + b)[i] == a[i]; } else { assert (a + b)[i] == b[i - |a|]; }
    }
  }

  lemma {:induction false} EscapeNoControl(s: string)
    ensures NoControl(Escape(s))
  {
    if |s| > 0 {
      var c := s[0];
      if c as int < 0x20 && c != '\n' && c != '\r' && c != '\t' && c as int != 0x08 && c as int != 0x0C {
        assert NoControl("\\u00" + [HexDigit(c as int / 16), HexDigit(c as int % 16)]);
      }
      assert NoControl(EscapeChar(c));
      EscapeNoControl(s[1..]);
      NoControlAppend(EscapeChar(c), Escape(s[1..]));
    }
  }

  lemma {:induction false} EncodeNoControl(v: Value)
    ensures NoControl(Encode(v))
    decreases v, 1
  {
    match v
    case Null =>
    case Bool(b) =>
    case Str(s) =>
      EscapeNoControl(s);
      NoControlAppend("\"", Escape(s));
      NoControlAppend("\"" + Escape(s), "\"");
    case Arr(items) =>
      EncodeItemsNoControl(items);
      NoControlAppend("[", EncodeItems(items));
      NoControlAppend("[" + EncodeItems(items), "]");
    case Obj(ms) =>
      EncodeMembersNoControl(ms);
      NoControlAppend("{", EncodeMembers(ms));
      NoControlAppend("{" + EncodeMembers(ms), "}");
  }

  lemma {:induction false} EncodeItemsNoControl(items: seq<Value>)
    ensures NoControl(EncodeItems(items))
    decreases items, 0
  {
    if |items| > 0 {
      EncodeNoControl(items[0]);
      if |items| > 1 {
        EncodeItemsNoControl(items[1..]);
        NoControlAppend(",", EncodeItems(items[1..]));
        NoControlAppend(Encode(items[0]), "," + EncodeItems(items[1..]));
      } else {
        assert EncodeItems(items) == Encode(items[0]) + "";
      }
    }
  }

  lemma {:induction false} EncodeMembersNoControl(ms: seq<Member>)
    ensures NoControl(EncodeMembers(ms))
    decreases ms, 0
  {
    if |ms| > 0 {
      var m := ms[0];
      EscapeNoControl(m.key);
      EncodeNoControl(m.value);
      var head := "\"" + Escape(m.key) + "\":" + Encode(m.value);
      NoControlAppend("\"", Escape(m.key));
      NoControlAppend("\"" + Escape(m.key), "\":");
      NoControlAppend("\"" + Escape(m.key) + "\":", Encode(m.value));
      if |ms| > 1 {
        EncodeMembersNoControl(ms[1..]);
        NoControlAppend(",", EncodeMembers(ms[1..]));
        NoControlAppend(head, "," + EncodeMembers(ms[1..]));
      } else {
        assert EncodeMembers(ms) == head + "";
      }
    }
  }
}
