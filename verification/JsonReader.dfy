/**
 The recursive-descent parser of parson.c as functions on the unread text: each
 takes what is left at the cursor and gives the value read and what is left after it.
 */
module JsonReader {
  import opened Common
  import opened JsonText

  datatype Parsed = Parsed(value: Value, rest: string)

  datatype ParsedMember = ParsedMember(member: Member, rest: string)

  datatype Quoted = Quoted(str: CString, rest: string)

  // ---------------------------------------------------------------- strings

  /** What is left after the closing quote, or "" when the text ends first. */
  function SkipBody(s: string): (r: string)
    ensures |r| <= |s|
    ensures r != "" ==> |r| < |s|
  {
    if s == "" then ""
    else if s[0] == '\"' then s[1..]
    else if s[0] == '\\' then (if |s| == 1 then "" else SkipBody(s[2..]))
    else SkipBody(s[1..])
  }

  function HexValue(c: char): (v: nat)
    requires IsXDigit(c)
    ensures v < 16
  {
    if IsDigit(c) then c as int - '0' as int
    else if 'a' <= c <= 'f' then c as int - 'a' as int + 10
    else c as int - 'A' as int + 10
  }

  /** The four hexadecimal digits a text starts with, if it does. */
  function Hex4(s: string): (r: Option<nat>)
    ensures r.Some? ==> r.value < 0x10000 && |s| >= 4
  {
    if |s| >= 4 && IsXDigit(s[0]) && IsXDigit(s[1]) && IsXDigit(s[2]) && IsXDigit(s[3]) then
      Some(HexValue(s[0]) * 0x1000 + HexValue(s[1]) * 0x100 + HexValue(s[2]) * 0x10 + HexValue(s[3]))
    else None
  }

  function Utf8(cp: nat): string
    requires cp < 0x110000
  {
    if cp < 0x80 then [cp as char]
    else if cp < 0x800 then
      [(cp / 0x40 + 0xC0) as char, (cp % 0x40 + 0x80) as char]
    else if cp < 0x10000 then
      [(cp / 0x1000 + 0xE0) as char, (cp / 0x40 % 0x40 + 0x80) as char, (cp % 0x40 + 0x80) as char]
    else
      [(cp / 0x40000 + 0xF0) as char, (cp / 0x1000 % 0x40 + 0x80) as char,
       (cp / 0x40 % 0x40 + 0x80) as char, (cp % 0x40 + 0x80) as char]
  }

  datatype Escaped = Escaped(bytes: string, used: nat)

  /** The bytes for a text starting at the u of \uXXXX, and how many chars it spans. */
  function ParseUtf16(s: string): (r: Option<Escaped>)
    requires s != ""
    ensures r.Some? ==> 0 < r.value.used <= |s|
  {
    var cp := Hex4(s[1..]);
    if cp.None? then None
    else if cp.value < 0xD800 || cp.value > 0xDFFF then Some(Escaped(Utf8(cp.value), 5))
    else if cp.value <= 0xDBFF && |s| >= 7 && s[5] == '\\' && s[6] == 'u' then
      var trail := Hex4(s[7..]);
      if trail.Some? && 0xDC00 <= trail.value <= 0xDFFF then
        Some(Escaped(Utf8((cp.value - 0xD800) * 0x400 + (trail.value - 0xDC00) + 0x10000), 11))
      else None
    else None
  }

  function Unescape(c: char): (r: Option<char>) {
    match c
    case '\"' => Some('\"')
    case '\\' => Some('\\')
    case '/' => Some('/')
    case 'b' => Some(8 as char)
    case 'f' => Some(12 as char)
    case 'n' => Some('\n')
    case 'r' => Some('\r')
    case 't' => Some('\t')
    case _ => None
  }

  /** The bytes written for the first n chars of s; an escape may look beyond them. */
  function ProcessString(s: string, n: int): (r: Option<string>)
    decreases |s|
  {
    if s == "" || n <= 0 then Some("")
    else if s[0] == '\\' then
      if Head(s[1..]) == 'u' then
        var e := ParseUtf16(s[1..]);
        if e.None? then None
        else Prepend(e.value.bytes, ProcessString(s[1 + e.value.used..], n - 1 - e.value.used))
      else
        var u := Unescape(Head(s[1..]));
        if u.None? then None
        else Prepend([u.value], ProcessString(s[2..], n - 2))
    else if s[0] < 0x20 as char then None
    else Prepend([s[0]], ProcessString(s[1..], n - 1))
  }

  function Prepend(p: string, r: Option<string>): Option<string> {
    if r.None? then None else Some(p + r.value)
  }

  /** Any first char is taken for the opening quote; a text ending right after the closing one is refused. */
  function GetQuoted(s: string): (r: Option<Quoted>)
    requires s != ""
    ensures r.Some? ==> |r.value.rest| < |s|
  {
    var rest := SkipBody(s[1..]);
    if rest == "" then None
    else
      var bytes := ProcessString(s[1..], |s| - |rest| - 2);
      if bytes.None? then None else Some(Quoted(CStr(bytes.value), rest))
  }

  // ---------------------------------------------------------------- values

  predicate IsDecimal(s: string) {
    && !(|s| > 1 && s[0] == '0' && s[1] != '.')
    && !(|s| > 2 && s[0] == '-' && s[1] == '0' && s[2] != '.')
    && 'x' !in s && 'X' !in s
  }

  function ParseNumber(c: Libc, s: string): (r: Option<Parsed>)
    ensures r.Some? ==> |r.value.rest| <= |s|
  {
    var (num, end) := c.strtod(s);
    if IsDecimal(s[..end]) then Some(Parsed(Number(num), s[end..])) else None
  }

  function ParseWord(s: string, word: string, v: Value): (r: Option<Parsed>)
    ensures r.Some? ==> |r.value.rest| <= |s|
  {
    if word <= s then Some(Parsed(v, s[|word|..])) else None
  }

  function ParseBoolean(s: string): (r: Option<Parsed>)
    ensures r.Some? ==> |r.value.rest| <= |s|
  {
    if "true" <= s then Some(Parsed(Boolean(true), s[4..])) else ParseWord(s, "false", Boolean(false))
  }

  function ParseString(s: string): (r: Option<Parsed>)
    requires s != ""
    ensures r.Some? ==> |r.value.rest| <= |s|
  {
    var q := GetQuoted(s);
    if q.None? then None else Some(Parsed(String(q.value.str), q.value.rest))
  }

  function ParseValue(c: Libc, s: string, nesting: nat): (r: Option<Parsed>)
    ensures r.Some? ==> |r.value.rest| <= |s|
    decreases |s|, 2
  {
    if nesting > MAX_NESTING then None
    else
      var t := SkipSpaces(s);
      match Head(t)
      case '{' => ParseObject(c, t, nesting + 1)
      case '[' => ParseArray(c, t, nesting + 1)
      case '\"' => ParseString(t)
      case 'f' => ParseBoolean(t)
      case 't' => ParseBoolean(t)
      case 'n' => ParseWord(t, "null", Null)
      case h => if h == '-' || IsDigit(h) then ParseNumber(c, t) else None
  }

  function ParseObject(c: Libc, s: string, nesting: nat): (r: Option<Parsed>)
    requires s != ""
    ensures r.Some? ==> |r.value.rest| <= |s|
    decreases |s|, 1
  {
    var t := SkipSpaces(s[1..]);
    if Head(t) == '}' then Some(Parsed(Object([]), t[1..]))
    else ParseMembers(c, t, nesting, [])
  }

  /** One name, colon and value. */
  function ParseMember(c: Libc, s: string, nesting: nat): (r: Option<ParsedMember>)
    requires s != ""
    ensures r.Some? ==> |r.value.rest| < |s|
    decreases |s|, 3
  {
    var key := GetQuoted(s);
    if key.None? then None
    else
      var t := SkipSpaces(key.value.rest);
      if Head(t) != ':' then None
      else
        var v := ParseValue(c, t[1..], nesting);
        if v.None? then None else Some(ParsedMember(Member(key.value.str, v.value.value), v.value.rest))
  }

  /** The loop of parse_object_value, with the members added so far. */
  function ParseMembers(c: Libc, s: string, nesting: nat, acc: seq<Member>): (r: Option<Parsed>)
    ensures r.Some? ==> |r.value.rest| <= |s|
    decreases |s|, 4
  {
    if s == "" then None
    else
      var m := ParseMember(c, s, nesting);
      if m.None? || !CanAdd(acc, m.value.member.name) then None
      else
        var u := SkipSpaces(m.value.rest);
        if Head(u) == ',' then ParseMembers(c, SkipSpaces(u[1..]), nesting, acc + [m.value.member])
        else if Head(u) == '}' then Some(Parsed(Object(acc + [m.value.member]), u[1..]))
        else None
  }

  /** json_object_add on an object that was built by additions alone. */
  predicate CanAdd(acc: seq<Member>, name: string) {
    |acc| < OBJECT_MAX_CAPACITY && forall i :: 0 <= i < |acc| ==> acc[i].name != name
  }

  function ParseArray(c: Libc, s: string, nesting: nat): (r: Option<Parsed>)
    requires s != ""
    ensures r.Some? ==> |r.value.rest| <= |s|
    decreases |s|, 1
  {
    var t := SkipSpaces(s[1..]);
    if Head(t) == ']' then Some(Parsed(Array([]), t[1..]))
    else ParseItems(c, t, nesting, [])
  }

  /** The loop of parse_array_value, with the items added so far. */
  function ParseItems(c: Libc, s: string, nesting: nat, acc: seq<Value>): (r: Option<Parsed>)
    ensures r.Some? ==> |r.value.rest| <= |s|
    decreases |s|, 3
  {
    if s == "" then None
    else
      var v := ParseValue(c, s, nesting);
      if v.None? || |acc| >= ARRAY_MAX_CAPACITY then None
      else
        var acc' := acc + [v.value.value];
        var u := SkipSpaces(v.value.rest);
        if Head(u) == ',' then ParseItems(c, SkipSpaces(u[1..]), nesting, acc')
        else if Head(u) == ']' then Some(Parsed(Array(acc'), u[1..]))
        else None
  }

  /** json_parse_string: only an array or an object at the root, and what follows it is not looked at. */
  function JsonParse(c: Libc, text: string): Option<Value> {
    var t := SkipSpaces(text);
    if Head(t) != '{' && Head(t) != '[' then None
    else
      var r := ParseValue(c, t, 0);
      if r.None? then None else Some(r.value.value)
  }
}
