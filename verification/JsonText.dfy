// JSON values, their printed text and a reader for it: sections 2 to 7 of
// RFC 8259. The printer takes the space that follows separators, because the
// serializer writes none and the database writes one.
module JsonTexts {
  import opened Wrappers
  import opened Texts
  import opened Decimals

  datatype Member<V> = Member(key: string, value: V)

  /** An object lists its members in the order they were inserted. A number is
      the text its library prints it as. */
  datatype Json =
    | Null
    | Bool(flag: bool)
    | Number(token: string)
    | Str(text: string)
    | Array(items: seq<Json>)
    | Object(members: seq<Member<Json>>)

  predicate NumberChar(c: char) {
    '0' <= c <= '9' || c == '-' || c == '+' || c == '.' || c == 'e' || c == 'E'
  }

  predicate NumberToken(t: string) {
    t != "" && ('0' <= t[0] <= '9' || t[0] == '-') && forall i :: 0 <= i < |t| ==> NumberChar(t[i])
  }

  predicate DistinctKeys<V>(members: seq<Member<V>>) {
    forall i, j :: 0 <= i < j < |members| ==> members[i].key != members[j].key
  }

  ghost predicate WellFormed(v: Json) {
    match v
    case Number(token) => NumberToken(token)
    case Array(items) => forall i :: 0 <= i < |items| ==> WellFormed(items[i])
    case Object(members) => DistinctKeys(members) && forall i :: 0 <= i < |members| ==> WellFormed(members[i].value)
    case _ => true
  }

  // ----------------------------------------------------------------- the printer

  function HexDigit(d: nat): (c: char)
    requires d < 16
  {
    "0123456789abcdef"[d]
  }

  const BACKSPACE: char := 8 as char
  const FORM_FEED: char := 12 as char

  function EscapeChar(c: char): string {
    if c == '"' then "\\\""
    else if c == '\\' then "\\\\"
    else if c == BACKSPACE then "\\b"
    else if c == FORM_FEED then "\\f"
    else if c == '\n' then "\\n"
    else if c == '\r' then "\\r"
    else if c == '\t' then "\\t"
    else if c < ' ' then "\\u00" + [HexDigit(c as int / 16), HexDigit(c as int % 16)]
    else [c]
  }

  function Escape(s: string): string {
    if s == "" then "" else EscapeChar(s[0]) + Escape(s[1..])
  }

  function Quoted(s: string): string {
    "\"" + Escape(s) + "\""
  }

  function MemberText(m: Member<string>, space: string): string {
    Quoted(m.key) + (":" + space) + m.value
  }

  /** Prints a value as it stands. */
  function Spaced(v: Json, space: string): string {
    match v
    case Null => "null"
    case Bool(flag) => if flag then "true" else "false"
    case Number(token) => token
    case Str(text) => Quoted(text)
    case Array(items) => "[" + Join(SpacedItems(items, space), "," + space) + "]"
    case Object(members) => "{" + Join(SpacedMembers(members, space), "," + space) + "}"
  }

  function SpacedItems(items: seq<Json>, space: string): (texts: seq<string>)
    ensures |texts| == |items|
    ensures forall i :: 0 <= i < |items| ==> texts[i] == Spaced(items[i], space)
  {
    seq(|items|, i requires 0 <= i < |items| => Spaced(items[i], space))
  }

  function SpacedMembers(members: seq<Member<Json>>, space: string): (texts: seq<string>)
    ensures |texts| == |members|
    ensures forall i :: 0 <= i < |members| ==> texts[i] == MemberText(Member(members[i].key, Spaced(members[i].value, space)), space)
  {
    seq(|members|, i requires 0 <= i < |members| => MemberText(Member(members[i].key, Spaced(members[i].value, space)), space))
  }

  // ------------------------------------------------------------------ the reader

  datatype Parsed<T> = Parsed(value: T, rest: string)

  predicate IsSpace(c: char) {
    c == ' ' || c == '\t' || c == '\n' || c == '\r'
  }

  function SkipSpace(s: string): (r: string)
    ensures |r| <= |s|
  {
    if s == "" || !IsSpace(s[0]) then s else SkipSpace(s[1..])
  }

  predicate IsHex(c: char) {
    '0' <= c <= '9' || 'a' <= c <= 'f'
  }

  function HexValue(c: char): (d: nat)
    requires IsHex(c)
    ensures d < 16
  {
    if c <= '9' then c as int - '0' as int else c as int - 'a' as int + 10
  }

  /** One character of a string, escaped or not. */
  function ParseChar(s: string): (r: Option<Parsed<char>>)
    requires s != ""
    ensures r.Some? ==> |r.value.rest| < |s|
  {
    if s[0] != '\\' then (if s[0] < ' ' then None else Some(Parsed(s[0], s[1..])))
    else if |s| < 2 then None
    else if s[1] == '"' then Some(Parsed('"', s[2..]))
    else if s[1] == '\\' then Some(Parsed('\\', s[2..]))
    else if s[1] == 'b' then Some(Parsed(BACKSPACE, s[2..]))
    else if s[1] == 'f' then Some(Parsed(FORM_FEED, s[2..]))
    else if s[1] == 'n' then Some(Parsed('\n', s[2..]))
    else if s[1] == 'r' then Some(Parsed('\r', s[2..]))
    else if s[1] == 't' then Some(Parsed('\t', s[2..]))
    else if s[1] == 'u' && |s| >= 6 && s[2] == '0' && s[3] == '0' && IsHex(s[4]) && IsHex(s[5]) then
      Some(Parsed((16 * HexValue(s[4]) + HexValue(s[5])) as char, s[6..]))
    else None
  }

  /** The rest of a string after its opening quote. */
  function ParseString(s: string): (r: Option<Parsed<string>>)
    ensures r.Some? ==> |r.value.rest| < |s|
    decreases |s|
  {
    if s == "" then None
    else if s[0] == '"' then Some(Parsed("", s[1..]))
    else
      match ParseChar(s)
      case None => None
      case Some(c) =>
        match ParseString(c.rest)
        case None => None
        case Some(tail) => Some(Parsed([c.value] + tail.value, tail.rest))
  }

  function NumberLength(s: string): (n: nat)
    ensures n <= |s|
  {
    if s == "" || !NumberChar(s[0]) then 0 else 1 + NumberLength(s[1..])
  }

  function ParseWord(s: string, word: string, v: Json): Option<Parsed<Json>> {
    if word <= s then Some(Parsed(v, s[|word|..])) else None
  }

  /** A value at the start of the text, and what follows it. */
  function ParseValue(s: string): (r: Option<Parsed<Json>>)
    ensures r.Some? ==> |r.value.rest| < |s|
    decreases |s|, 1
  {
    ParseTrimmed(SkipSpace(s))
  }

  function ParseTrimmed(s: string): (r: Option<Parsed<Json>>)
    ensures r.Some? ==> |r.value.rest| < |s|
    decreases |s|, 0
  {
    if s == "" then None
    else if s[0] == 'n' then ParseWord(s, "null", Null)
    else if s[0] == 't' then ParseWord(s, "true", Bool(true))
    else if s[0] == 'f' then ParseWord(s, "false", Bool(false))
    else if s[0] == '"' then
      (match ParseString(s[1..])
       case None => None
       case Some(text) => Some(Parsed(Str(text.value), text.rest)))
    else if s[0] == '[' then
      var inside := SkipSpace(s[1..]);
      if inside != "" && inside[0] == ']' then Some(Parsed(Array([]), inside[1..]))
      else
        (match ParseItems(inside)
         case None => None
         case Some(items) => Some(Parsed(Array(items.value), items.rest)))
    else if s[0] == '{' then
      var inside := SkipSpace(s[1..]);
      if inside != "" && inside[0] == '}' then Some(Parsed(Object([]), inside[1..]))
      else
        (match ParseMembers(inside)
         case None => None
         case Some(members) => Some(Parsed(Object(members.value), members.rest)))
    else if '0' <= s[0] <= '9' || s[0] == '-' then
      Some(Parsed(Number(s[..NumberLength(s)]), s[NumberLength(s)..]))
    else None
  }

  function ParseItems(s: string): (r: Option<Parsed<seq<Json>>>)
    ensures r.Some? ==> |r.value.rest| < |s|
    decreases |s|, 2
  {
    match ParseValue(s)
    case None => None
    case Some(first) =>
      var next := SkipSpace(first.rest);
      if next == "" then None
      else if next[0] == ']' then Some(Parsed([first.value], next[1..]))
      else if next[0] != ',' then None
      else
        match ParseItems(next[1..])
        case None => None
        case Some(others) => Some(Parsed([first.value] + others.value, others.rest))
  }

  function ParseMember(s: string): (r: Option<Parsed<Member<Json>>>)
    ensures r.Some? ==> |r.value.rest| < |s|
    decreases |s|, 2
  {
    var start := SkipSpace(s);
    if start == "" || start[0] != '"' then None
    else
      match ParseString(start[1..])
      case None => None
      case Some(key) =>
        var next := SkipSpace(key.rest);
        if next == "" || next[0] != ':' then None
        else
          match ParseValue(next[1..])
          case None => None
          case Some(value) => Some(Parsed(Member(key.value, value.value), value.rest))
  }

  function ParseMembers(s: string): (r: Option<Parsed<seq<Member<Json>>>>)
    ensures r.Some? ==> |r.value.rest| < |s|
    decreases |s|, 3
  {
    match ParseMember(s)
    case None => None
    case Some(first) =>
      var next := SkipSpace(first.rest);
      if next == "" then None
      else if next[0] == '}' then Some(Parsed([first.value], next[1..]))
      else if next[0] != ',' then None
      else
        match ParseMembers(next[1..])
        case None => None
        case Some(others) => Some(Parsed([first.value] + others.value, others.rest))
  }

  /** A whole text. */
  function Parse(s: string): Option<Json> {
    match ParseValue(s)
    case None => None
    case Some(v) => if SkipSpace(v.rest) == "" then Some(v.value) else None
  }

  // -------------------------------------------------------------- reading back

  lemma HexBack(d: nat)
    requires d < 16
    ensures IsHex(HexDigit(d)) && HexValue(HexDigit(d)) == d
  {
  }

  predicate Named(c: char) {
    c == '"' || c == '\\' || c == BACKSPACE || c == FORM_FEED || c == '\n' || c == '\r' || c == '\t'
  }

  /** A control character without a name of its own. */
  lemma ControlBack(c: char, rest: string)
    requires c < ' ' && !Named(c)
    ensures EscapeChar(c) != "" && EscapeChar(c)[0] == '\\'
    ensures ParseChar(EscapeChar(c) + rest) == Some(Parsed(c, rest))
  {
    hide HexDigit, HexValue, IsHex;
    var s := EscapeChar(c) + rest;
    HexBack(c as int / 16);
    HexBack(c as int % 16);
    assert EscapeChar(c) == "\\u00" + [HexDigit(c as int / 16), HexDigit(c as int % 16)];
    assert s[6..] == rest;
  }

  lemma CharBack(c: char, rest: string)
    ensures EscapeChar(c) != "" && EscapeChar(c)[0] != '"'
    ensures ParseChar(EscapeChar(c) + rest) == Some(Parsed(c, rest))
  {
    hide HexDigit, HexValue, IsHex;
    var s := EscapeChar(c) + rest;
    if c < ' ' && !Named(c) {
      ControlBack(c, rest);
    } else {
      assert s[|EscapeChar(c)|..] == rest;
    }
  }

  lemma {:induction false} StringBack(text: string, rest: string)
    ensures ParseString(Escape(text) + ("\"" + rest)) == Some(Parsed(text, rest))
  {
    hide ParseChar, EscapeChar;
    if text == "" {
      assert Escape(text) + ("\"" + rest) == "\"" + rest;
      assert ("\"" + rest)[1..] == rest;
    } else {
      var tail := Escape(text[1..]) + ("\"" + rest);
      assert Escape(text) + ("\"" + rest) == EscapeChar(text[0]) + tail;
      CharBack(text[0], tail);
      StringBack(text[1..], rest);
      assert text == [text[0]] + text[1..];
    }
  }

  /** What may follow a value: nothing that continues a number. */
  predicate Ends(rest: string) {
    rest == "" || !NumberChar(rest[0])
  }

  predicate Spaces(space: string) {
    forall i :: 0 <= i < |space| ==> IsSpace(space[i])
  }

  lemma {:induction false} SpacesSkipped(space: string, rest: string)
    requires Spaces(space) && (rest == "" || !IsSpace(rest[0]))
    ensures SkipSpace(space + rest) == rest
  {
    if space == "" {
      assert space + rest == rest;
    } else {
      assert (space + rest)[1..] == space[1..] + rest;
      SpacesSkipped(space[1..], rest);
    }
  }

  lemma {:induction false} NumberBack(token: string, rest: string)
    requires (forall i :: 0 <= i < |token| ==> NumberChar(token[i])) && Ends(rest)
    ensures NumberLength(token + rest) == |token|
  {
    if token == "" {
      assert token + rest == rest;
    } else {
      assert (token + rest)[1..] == token[1..] + rest;
      NumberBack(token[1..], rest);
    }
  }

  lemma SpacedStarts(v: Json, space: string)
    requires WellFormed(v)
    ensures Spaced(v, space) != "" && Spaced(v, space)[0] != ']' && Spaced(v, space)[0] != '}' && !IsSpace(Spaced(v, space)[0])
  {
  }

  /** A printed value is read back, whatever white space is before it and
      between its parts and whatever follows it. */
  lemma {:induction false} ValueBack(v: Json, space: string, before: string, rest: string)
    requires WellFormed(v) && Spaces(space) && Spaces(before) && Ends(rest)
    ensures ParseValue(before + Spaced(v, space) + rest) == Some(Parsed(v, rest))
    decreases v, 1
  {
    hide ParseTrimmed, Spaced, WellFormed;
    SpacedStarts(v, space);
    assert before + Spaced(v, space) + rest == before + (Spaced(v, space) + rest);
    SpacesSkipped(before, Spaced(v, space) + rest);
    TrimmedBack(v, space, rest);
  }

  lemma {:induction false} TrimmedBack(v: Json, space: string, rest: string)
    requires WellFormed(v) && Spaces(space) && Ends(rest)
    ensures ParseTrimmed(Spaced(v, space) + rest) == Some(Parsed(v, rest))
    decreases v, 0
  {
    hide ParseItems, ParseMembers, ParseString, Escape, NumberLength, Join, SkipSpace;
    var s := Spaced(v, space) + rest;
    match v
    case Null => assert s[4..] == rest;
    case Bool(flag) => assert s[|Spaced(v, space)|..] == rest;
    case Number(token) =>
      NumberBack(token, rest);
      assert s[..|token|] == token && s[|token|..] == rest;
    case Str(text) =>
      StringBack(text, rest);
      assert s[1..] == Escape(text) + ("\"" + rest);
    case Array(items) => ArrayBack(items, space, rest);
    case Object(members) => ObjectBack(members, space, rest);
  }

  lemma JoinStarts(parts: seq<string>, separator: string)
    requires parts != [] && parts[0] != ""
    ensures Join(parts, separator) != "" && Join(parts, separator)[0] == parts[0][0]
  {
  }

  lemma EmptyJoin(separator: string)
    ensures Join([], separator) == ""
  {
  }

  lemma {:induction false} ArrayBack(items: seq<Json>, space: string, rest: string)
    requires Spaces(space) && forall i :: 0 <= i < |items| ==> WellFormed(items[i])
    ensures ParseTrimmed(Spaced(Array(items), space) + rest) == Some(Parsed(Array(items), rest))
    decreases items, 3
  {
    hide ParseItems, ParseMembers, ParseString, Escape, Join, WellFormed;
    var s := Spaced(Array(items), space) + rest;
    var joined := Join(SpacedItems(items, space), "," + space);
    assert s[1..] == joined + ("]" + rest);
    if items == [] {
      EmptyJoin("," + space);
      assert s[1..] == "]" + rest;
      assert ("]" + rest)[1..] == rest;
    } else {
      SpacedStarts(items[0], space);
      JoinStarts(SpacedItems(items, space), "," + space);
      assert "" + joined + ("]" + rest) == joined + ("]" + rest);
      ItemsBack(items, space, "", rest);
    }
  }

  /** The items of an array, `before` being the white space in front of them. */
  lemma {:induction false} ItemsBack(items: seq<Json>, space: string, before: string, rest: string)
    requires items != [] && Spaces(space) && Spaces(before) && forall i :: 0 <= i < |items| ==> WellFormed(items[i])
    ensures ParseItems(before + Join(SpacedItems(items, space), "," + space) + ("]" + rest)) == Some(Parsed(items, rest))
    decreases items, 2
  {
    hide ParseValue, Spaced, WellFormed;
    var s := before + Join(SpacedItems(items, space), "," + space) + ("]" + rest);
    assert items == [items[0]] + items[1..];
    if |items| == 1 {
      assert s == before + Spaced(items[0], space) + ("]" + rest);
      ValueBack(items[0], space, before, "]" + rest);
      assert ("]" + rest)[1..] == rest && items == [items[0]];
    } else {
      var tail := space + Join(SpacedItems(items[1..], space), "," + space) + ("]" + rest);
      assert SpacedItems(items, space)[1..] == SpacedItems(items[1..], space);
      assert s == before + Spaced(items[0], space) + ("," + tail);
      ValueBack(items[0], space, before, "," + tail);
      assert ("," + tail)[1..] == tail;
      ItemsBack(items[1..], space, space, rest);
    }
  }

  lemma {:induction false} ObjectBack(members: seq<Member<Json>>, space: string, rest: string)
    requires Spaces(space) && forall i :: 0 <= i < |members| ==> WellFormed(members[i].value)
    ensures ParseTrimmed(Spaced(Object(members), space) + rest) == Some(Parsed(Object(members), rest))
    decreases members, 4
  {
    hide ParseItems, ParseMembers, ParseString, Escape, Join, WellFormed;
    var s := Spaced(Object(members), space) + rest;
    var joined := Join(SpacedMembers(members, space), "," + space);
    assert s[1..] == joined + ("}" + rest);
    if members == [] {
      EmptyJoin("," + space);
      assert s[1..] == "}" + rest;
      assert ("}" + rest)[1..] == rest;
    } else {
      JoinStarts(SpacedMembers(members, space), "," + space);
      assert joined[0] == '"';
      assert "" + joined + ("}" + rest) == joined + ("}" + rest);
      MembersBack(members, space, "", rest);
    }
  }

  function PrintedMember(m: Member<Json>, space: string): Member<string> {
    Member(m.key, Spaced(m.value, space))
  }

  lemma {:induction false} MemberBack(m: Member<Json>, space: string, before: string, rest: string)
    requires WellFormed(m.value) && Spaces(space) && Spaces(before) && Ends(rest)
    ensures ParseMember(before + MemberText(PrintedMember(m, space), space) + rest) == Some(Parsed(m, rest))
    decreases m, 2
  {
    hide ParseValue, ParseString, Spaced, Escape, WellFormed;
    var s := before + MemberText(PrintedMember(m, space), space) + rest;
    var value := space + Spaced(m.value, space) + rest;
    var trimmed := "\"" + (Escape(m.key) + ("\"" + (":" + value)));
    assert s == before + trimmed;
    SpacesSkipped(before, trimmed);
    assert trimmed[1..] == Escape(m.key) + ("\"" + (":" + value));
    StringBack(m.key, ":" + value);
    assert (":" + value)[1..] == value;
    ValueBack(m.value, space, space, rest);
  }

  lemma {:induction false} MembersBack(members: seq<Member<Json>>, space: string, before: string, rest: string)
    requires members != [] && Spaces(space) && Spaces(before) && forall i :: 0 <= i < |members| ==> WellFormed(members[i].value)
    ensures ParseMembers(before + Join(SpacedMembers(members, space), "," + space) + ("}" + rest)) == Some(Parsed(members, rest))
    decreases members, 3
  {
    hide ParseMember, Spaced, WellFormed, MemberText;
    var s := before + Join(SpacedMembers(members, space), "," + space) + ("}" + rest);
    assert members == [members[0]] + members[1..];
    if |members| == 1 {
      assert s == before + MemberText(PrintedMember(members[0], space), space) + ("}" + rest);
      MemberBack(members[0], space, before, "}" + rest);
      assert ("}" + rest)[1..] == rest && members == [members[0]];
    } else {
      var tail := space + Join(SpacedMembers(members[1..], space), "," + space) + ("}" + rest);
      assert SpacedMembers(members, space)[1..] == SpacedMembers(members[1..], space);
      assert s == before + MemberText(PrintedMember(members[0], space), space) + ("," + tail);
      MemberBack(members[0], space, before, "," + tail);
      assert ("," + tail)[1..] == tail;
      MembersBack(members[1..], space, space, rest);
    }
  }

  /** The reader inverts the printer, for either spacing. */
  lemma SpacedParses(v: Json, space: string)
    requires WellFormed(v) && Spaces(space)
    ensures Parse(Spaced(v, space)) == Some(v)
  {
    hide ParseValue, Spaced, WellFormed;
    ValueBack(v, space, "", "");
    assert "" + Spaced(v, space) + "" == Spaced(v, space);
  }

  // ----------------------------------------------------------- reading records

  /** The values an object has under a key, repetitions included. */
  function Values(members: seq<Member<Json>>, key: string): seq<Json> {
    if members == [] then []
    else (if members[0].key == key then [members[0].value] else []) + Values(members[1..], key)
  }

  /** A field that has to be there, once. */
  function Required(members: seq<Member<Json>>, key: string): Option<Json> {
    var values := Values(members, key);
    if |values| == 1 then Some(values[0]) else None
  }

  predicate OnlyKeys(members: seq<Member<Json>>, keys: seq<string>) {
    forall i :: 0 <= i < |members| ==> members[i].key in keys
  }

  /** A whole number without sign, fraction or leading zero, below `bound`. */
  function ReadNumber(v: Option<Json>, bound: nat): Option<nat> {
    if v.Some? && v.value.Number? && (forall i :: 0 <= i < |v.value.token| ==> IsDigit(v.value.token[i])) then
      var n := Value(v.value.token);
      if n < bound && Decimal(n) == v.value.token then Some(n) else None
    else None
  }

  function Count(n: nat): Json {
    Number(Decimal(n))
  }

  lemma CountBack(n: nat, bound: nat)
    requires n < bound
    ensures ReadNumber(Some(Count(n)), bound) == Some(n)
    ensures WellFormed(Count(n))
  {
    ValueOfDecimal(n);
  }

  /** With distinct keys a field is found wherever it stands. */
  lemma {:induction false} FieldFound(members: seq<Member<Json>>, key: string)
    requires DistinctKeys(members)
    ensures forall i :: 0 <= i < |members| && members[i].key == key ==> Values(members, key) == [members[i].value]
    ensures (forall i :: 0 <= i < |members| ==> members[i].key != key) ==> Values(members, key) == []
  {
    if members != [] {
      var rest := members[1..];
      assert forall i :: 0 <= i < |rest| ==> rest[i] == members[i + 1];
      FieldFound(rest, key);
      forall i | 0 <= i < |members| && members[i].key == key ensures Values(members, key) == [members[i].value] {
        if i > 0 {
          assert rest[i - 1].key == key;
          assert Values(rest, key) == [members[i].value];
        }
      }
    }
  }

  /** The object has this member, and no other under its key. */
  ghost predicate Alone(members: seq<Member<Json>>, m: Member<Json>) {
    exists i :: 0 <= i < |members| && members[i] == m && Others(members, i)
  }

  predicate Others(members: seq<Member<Json>>, i: nat)
    requires i < |members|
  {
    forall j :: 0 <= j < |members| && j != i ==> members[j].key != members[i].key
  }

  predicate Lacks(members: seq<Member<Json>>, key: string) {
    forall i :: 0 <= i < |members| ==> members[i].key != key
  }

  lemma {:induction false} NoValues(members: seq<Member<Json>>, key: string)
    ensures Values(members, key) == [] <==> Lacks(members, key)
  {
    if members != [] {
      NoValues(members[1..], key);
      assert forall i :: 0 < i < |members| ==> members[i] == members[1..][i - 1];
    }
  }

  lemma AloneFirst(members: seq<Member<Json>>, m: Member<Json>)
    requires members != [] && members[0].key == m.key
    ensures Alone(members, m) <==> members[0] == m && Lacks(members[1..], m.key)
  {
    var rest := members[1..];
    assert forall i :: 0 < i < |members| ==> members[i] == rest[i - 1];
    if i :| 0 <= i < |members| && members[i] == m && Others(members, i) {
      assert i == 0;
      assert forall j :: 0 <= j < |rest| ==> rest[j].key == members[j + 1].key;
    }
    if members[0] == m && Lacks(rest, m.key) {
      assert Others(members, 0);
    }
  }

  lemma AloneLater(members: seq<Member<Json>>, m: Member<Json>)
    requires members != [] && members[0].key != m.key
    ensures Alone(members, m) <==> Alone(members[1..], m)
  {
    var rest := members[1..];
    assert forall i :: 0 < i < |members| ==> members[i] == rest[i - 1];
    if i :| 0 <= i < |rest| && rest[i] == m && Others(rest, i) {
      assert members[i + 1] == m && Others(members, i + 1);
    }
    if i :| 0 <= i < |members| && members[i] == m && Others(members, i) {
      assert rest[i - 1] == m;
      assert forall j :: 0 <= j < |rest| ==> rest[j].key == members[j + 1].key;
      assert Others(rest, i - 1);
    }
  }

  lemma {:induction false} OneValue(members: seq<Member<Json>>, key: string, v: Json)
    ensures Values(members, key) == [v] <==> Alone(members, Member(key, v))
  {
    hide Alone, Lacks;
    if members == [] {
      NoneAlone(Member(key, v));
    } else {
      NoValues(members[1..], key);
      OneValue(members[1..], key, v);
      if members[0].key == key {
        AloneFirst(members, Member(key, v));
        assert Values(members, key) == [members[0].value] + Values(members[1..], key);
        assert Values(members[1..], key) == Values(members, key)[1..];
        if Values(members, key) == [v] {
          assert members[0].value == Values(members, key)[0] == v;
          assert members[0] == Member(key, v);
        }
      } else {
        AloneLater(members, Member(key, v));
      }
    }
  }

  lemma NoneAlone(m: Member<Json>)
    ensures !Alone([], m)
  {
  }

  /** A field is read exactly when it is there, once. */
  lemma RequiredMeans(members: seq<Member<Json>>, key: string, v: Json)
    ensures Required(members, key) == Some(v) <==> Alone(members, Member(key, v))
  {
    OneValue(members, key, v);
  }

  /** A number is read exactly from its decimal text, below the bound. */
  lemma NumberMeans(v: Option<Json>, bound: nat, n: nat)
    ensures ReadNumber(v, bound) == Some(n) <==> n < bound && v == Some(Number(Decimal(n)))
  {
    if n < bound {
      CountBack(n, bound);
    }
  }

  /** A text that goes on after its value is refused. */
  lemma TrailingIsRefused(v: Json, space: string, extra: string)
    requires WellFormed(v) && Spaces(space) && extra != "" && !NumberChar(extra[0]) && !IsSpace(extra[0])
    ensures Parse(Spaced(v, space) + extra) == None
  {
    hide ParseValue, Spaced, WellFormed;
    ValueBack(v, space, "", extra);
    assert "" + Spaced(v, space) + extra == Spaced(v, space) + extra;
  }

  // ------------------------------------------------------- texts without escapes

  predicate Unescaped(s: string) {
    forall i :: 0 <= i < |s| ==> s[i] >= ' ' && s[i] != '"' && s[i] != '\\'
  }

  lemma {:induction false} EscapesNothing(s: string)
    requires Unescaped(s)
    ensures Escape(s) == s
  {
    if s != "" {
      EscapesNothing(s[1..]);
      assert s == [s[0]] + s[1..];
    }
  }
}
