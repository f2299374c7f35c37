/**
 The JSON texts of parson.c as functions: what the printer writes for a value
 and what the recursive-descent parser reads from a text.

 A char stands for one byte of a C string; the end of a text plays the part of
 the terminating NUL, so the texts handled here hold no NUL of their own.
 The two C library calls the file relies on for floating point, strtod and
 printf("%f"), are parameters.
 */
module JsonText {
  import opened Common

  type CString = s: string | '\0' !in s

  datatype Value =
    | Null
    | Boolean(b: bool)
    | Number(num: real)
    | String(str: CString)
    | Array(items: seq<Value>)
    | Object(members: seq<Member>)

  datatype Member = Member(name: CString, value: Value)

  datatype LibcCalls = LibcCalls(strtod: string -> (real, nat), formatF: real -> string)

  /** strtod never reports an end beyond its input. */
  type Libc = c: LibcCalls | forall s :: c.strtod(s).1 <= |s|
    witness LibcCalls((s: string) => (0.0, 0), (r: real) => "")

  const MAX_NESTING := 19
  const OBJECT_MAX_CAPACITY := 960
  const ARRAY_MAX_CAPACITY := 122880

  const INT_MIN := -0x8000_0000
  const INT_MAX := 0x7FFF_FFFF

  // ---------------------------------------------------------------- characters

  function Head(s: string): char {
    if s == "" then '\0' else s[0]
  }

  predicate IsSpace(c: char) {
    c == ' ' || 9 as char <= c <= 13 as char
  }

  predicate IsDigit(c: char) {
    '0' <= c <= '9'
  }

  predicate IsXDigit(c: char) {
    IsDigit(c) || 'a' <= c <= 'f' || 'A' <= c <= 'F'
  }

  function SkipSpaces(s: string): (r: string)
    ensures |r| <= |s|
  {
    if s != "" && IsSpace(s[0]) then SkipSpaces(s[1..]) else s
  }

  /** The part of a byte string that C functions see: everything before the first NUL. */
  function CStr(s: string): (r: CString)
    ensures '\0' !in s ==> r == s
  {
    if s == "" || s[0] == '\0' then "" else [s[0]] + CStr(s[1..])
  }

  // ---------------------------------------------------------------- printer

  function Digits(n: nat): string {
    if n < 10 then [('0' as int + n) as char] else Digits(n / 10) + [('0' as int + n % 10) as char]
  }

  /** printf("%d") */
  function Decimal(n: int): string {
    if n < 0 then "-" + Digits(-n) else Digits(n)
  }

  predicate IsInt32(num: real) {
    num == num.Floor as real && INT_MIN <= num.Floor <= INT_MAX
  }

  function PrintNumber(c: Libc, num: real): string {
    if IsInt32(num) then Decimal(num.Floor) else c.formatF(num)
  }

  /** The letter that stands for ch after a backslash, for the chars the printer escapes. */
  function EscapeLetter(ch: char): Option<char> {
    if ch == '\"' || ch == '\\' || ch == '/' then Some(ch)
    else if ch == 8 as char then Some('b')
    else if ch == 12 as char then Some('f')
    else if ch == '\n' then Some('n')
    else if ch == '\r' then Some('r')
    else if ch == '\t' then Some('t')
    else None
  }

  function Escape(ch: char): string {
    match EscapeLetter(ch)
    case Some(letter) => ['\\', letter]
    case None => [ch]
  }

  function EscapeAll(s: string): string {
    if s == "" then "" else Escape(s[0]) + EscapeAll(s[1..])
  }

  function PrintString(s: string): string {
    "\"" + EscapeAll(s) + "\""
  }

  function Indent(level: nat): string {
    if level == 0 then "" else "    " + Indent(level - 1)
  }

  function When(b: bool, s: string): string {
    if b then s else ""
  }

  /** What the printer writes between one element and the next. */
  function Trail(last: bool, pretty: bool): string {
    When(!last, ",") + When(pretty, "\n")
  }

  /** The line, or part of one, that an element takes. */
  function Element(text: string, last: bool, level: nat, pretty: bool): string {
    When(pretty, Indent(level + 1)) + text + Trail(last, pretty)
  }

  function Pair(name: string, value: string, pretty: bool): string {
    PrintString(name) + ":" + (When(pretty, " ") + value)
  }

  /** The index of the first member called name, or the number of members if there is none. */
  function IndexOf(members: seq<Member>, name: string): (r: nat)
    ensures r <= |members|
    ensures r < |members| ==> members[r].name == name
    ensures forall k :: 0 <= k < r ==> members[k].name != name
  {
    if members == [] || members[0].name == name then 0
    else 1 + IndexOf(members[1..], name)
  }

  function PrintValue(c: Libc, v: Value, level: nat, pretty: bool): string
    decreases v, 1
  {
    match v
    case Null => "null"
    case Boolean(b) => if b then "true" else "false"
    case Number(num) => PrintNumber(c, num)
    case String(str) => PrintString(str)
    case Array(items) =>
      "[" + When(items != [] && pretty, "\n")
      + PrintItems(c, items, 0, level, pretty)
      + When(items != [] && pretty, Indent(level)) + "]"
    case Object(members) =>
      "{" + When(members != [] && pretty, "\n")
      + PrintMembers(c, members, 0, level, pretty)
      + When(members != [] && pretty, Indent(level)) + "}"
  }

  function PrintItems(c: Libc, items: seq<Value>, i: nat, level: nat, pretty: bool): string
    requires i <= |items|
    decreases items, 0, |items| - i
  {
    if i == |items| then ""
    else
      Element(PrintValue(c, items[i], level + 1, pretty), i == |items| - 1, level, pretty)
      + PrintItems(c, items, i + 1, level, pretty)
  }

  /** The printer looks each value up by its name, as json_serialize_to_buffer_r does. */
  function PrintMembers(c: Libc, members: seq<Member>, i: nat, level: nat, pretty: bool): string
    requires i <= |members|
    decreases members, 0, |members| - i
  {
    if i == |members| then ""
    else
      var value := members[IndexOf(members, members[i].name)].value;
      Element(Pair(members[i].name, PrintValue(c, value, level + 1, pretty), pretty), i == |members| - 1, level, pretty)
      + PrintMembers(c, members, i + 1, level, pretty)
  }
}
