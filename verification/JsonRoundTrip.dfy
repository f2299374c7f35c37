/**
 Parsing undoes printing: for every value the text format can carry, the parser
 reads back from the printed text, compact or pretty, exactly the value printed.
 */
module JsonRoundTrip {
  import opened Common
  import opened JsonText
  import opened JsonReader

  // ---------------------------------------------------------------- what can be carried

  predicate EndsNumber(rest: string) {
    rest == "" || !(IsDigit(rest[0]) || rest[0] in ".eExX")
  }

  /** What the C standard says of strtod on the decimal digits of an int. */
  ghost predicate ReadsDecimals(c: Libc) {
    forall n: int, rest: string | INT_MIN <= n <= INT_MAX && EndsNumber(rest) ::
      c.strtod(Decimal(n) + rest) == (n as real, |Decimal(n)|)
  }

  predicate PrintableChar(c: char) {
    c >= 0x20 as char || c in ['\n', '\r', '\t', 8 as char, 12 as char]
  }

  predicate PrintableString(s: string) {
    forall i :: 0 <= i < |s| ==> PrintableChar(s[i])
  }

  predicate DistinctNames(members: seq<Member>) {
    forall i, j :: 0 <= i < j < |members| ==> members[i].name != members[j].name
  }

  predicate Printable(v: Value, depth: nat) {
    && depth <= MAX_NESTING
    && match v
       case Null => true
       case Boolean(_) => true
       case Number(num) => IsInt32(num)
       case String(str) => PrintableString(str)
       case Array(items) =>
         && |items| <= ARRAY_MAX_CAPACITY
         && forall i :: 0 <= i < |items| ==> Printable(items[i], depth + 1)
       case Object(members) =>
         && |members| <= OBJECT_MAX_CAPACITY
         && DistinctNames(members)
         && forall i :: 0 <= i < |members| ==>
              PrintableString(members[i].name) && Printable(members[i].value, depth + 1)
  }

  // ---------------------------------------------------------------- strings

  /** Each printed char reads back as itself and never closes the string. */
  lemma EscapeStep(ch: char, tail: string, n: nat)
    requires PrintableChar(ch)
    ensures SkipBody(Escape(ch) + tail) == SkipBody(tail)
    ensures ProcessString(Escape(ch) + tail, |Escape(ch)| + n) == Prepend([ch], ProcessString(tail, n))
  {
    var s := Escape(ch) + tail;
    if |Escape(ch)| == 1 {
      assert s[0] == ch && s[1..] == tail;
    } else {
      assert s[0] == '\\' && s[1..][0] == Escape(ch)[1] && s[2..] == tail;
      assert Unescape(s[1..][0]) == Some(ch);
      assert s[1..][0] != 'u';
    }
  }

  lemma {:induction false} SkipEscaped(s: string, text: string, close: string)
    requires PrintableString(s) && text == EscapeAll(s) + close
    ensures SkipBody(text) == SkipBody(close)
  {
    hide SkipBody, Escape;
    if s == "" {
      assert text == close;
    } else {
      var tail := EscapeAll(s[1..]) + close;
      assert PrintableChar(s[0]);
      SkipEscaped(s[1..], tail, close);
      EscapeStep(s[0], tail, 0);
      assert text == Escape(s[0]) + tail;
    }
  }

  lemma ProcessNone(text: string)
    ensures ProcessString(text, 0) == Some("")
  {
  }

  lemma {:induction false} ProcessEscaped(s: string, text: string, close: string)
    requires PrintableString(s) && text == EscapeAll(s) + close
    ensures ProcessString(text, |EscapeAll(s)|) == Some(s)
  {
    hide ProcessString, Escape, PrintableChar;
    if s == "" {
      ProcessNone(text);
    } else {
      var tail := EscapeAll(s[1..]) + close;
      assert PrintableChar(s[0]);
      ProcessEscaped(s[1..], tail, close);
      EscapeStep(s[0], tail, |EscapeAll(s[1..])|);
      assert text == Escape(s[0]) + tail;
      assert [s[0]] + s[1..] == s;
    }
  }

  /** A printed string read back at the cursor. */
  lemma QuotedRoundTrip(s: CString, rest: string)
    requires PrintableString(s) && rest != ""
    ensures GetQuoted(PrintString(s) + rest) == Some(Quoted(s, rest))
  {
    var text := PrintString(s) + rest;
    var close := "\"" + rest;
    assert text[1..] == EscapeAll(s) + close;
    SkipEscaped(s, text[1..], close);
    ProcessEscaped(s, text[1..], close);
    assert close[1..] == rest;
  }

  // ---------------------------------------------------------------- white space and first characters

  lemma SkipOne(c: char, tail: string)
    requires IsSpace(c)
    ensures SkipSpaces([c] + tail) == SkipSpaces(tail)
  {
  }

  lemma NoSpace(s: string)
    requires !IsSpace(Head(s))
    ensures SkipSpaces(s) == s
  {
  }

  lemma {:induction false} SkipIndent(level: nat, rest: string)
    ensures SkipSpaces(Indent(level) + rest) == SkipSpaces(rest)
  {
    hide SkipSpaces;
    if level == 0 {
      assert Indent(level) + rest == rest;
    } else {
      SkipIndent(level - 1, rest);
      var tail := Indent(level - 1) + rest;
      assert Indent(level) + rest == [' '] + ([' '] + ([' '] + ([' '] + tail)));
      SkipOne(' ', tail);
      SkipOne(' ', [' '] + tail);
      SkipOne(' ', [' '] + ([' '] + tail));
      SkipOne(' ', [' '] + ([' '] + ([' '] + tail)));
    }
  }

  /** The line break and indentation the pretty printer may write are skipped. */
  lemma SkipLayout(newline: bool, indent: bool, level: nat, rest: string)
    ensures SkipSpaces(When(newline, "\n") + When(indent, Indent(level)) + rest) == SkipSpaces(rest)
  {
    hide SkipSpaces, Indent;
    var tail := When(indent, Indent(level)) + rest;
    SkipIndent(level, rest);
    assert SkipSpaces(tail) == SkipSpaces(rest) by {
      if !indent { assert tail == rest; }
    }
    assert When(newline, "\n") + When(indent, Indent(level)) + rest == When(newline, "\n") + tail;
    if newline {
      assert "\n" + tail == ['\n'] + tail;
      SkipOne('\n', tail);
    } else {
      assert "" + tail == tail;
    }
  }

  lemma {:induction false} DecimalStart(n: nat)
    ensures |Digits(n)| > 0
    ensures forall i :: 0 <= i < |Digits(n)| ==> IsDigit(Digits(n)[i])
    ensures n < 10 || Digits(n)[0] != '0'
  {
    if n >= 10 {
      DecimalStart(n / 10);
    }
  }

  /** What a printed value begins with, which is never white space. */
  lemma PrintedStart(c: Libc, v: Value, level: nat, pretty: bool, rest: string)
    requires v.Number? ==> IsInt32(v.num)
    ensures var p := PrintValue(c, v, level, pretty); p != "" && p[0] != ']' && p[0] != '}'
    ensures SkipSpaces(PrintValue(c, v, level, pretty) + rest) == PrintValue(c, v, level, pretty) + rest
  {
    if v.Number? {
      var n := v.num.Floor;
      DecimalStart(if n < 0 then -n else n);
    }
  }

  lemma NumberRoundTrip(c: Libc, num: real, rest: string)
    requires ReadsDecimals(c) && IsInt32(num) && EndsNumber(rest)
    ensures ParseNumber(c, PrintNumber(c, num) + rest) == Some(Parsed(Number(num), rest))
    ensures var h := Head(PrintNumber(c, num) + rest); h == '-' || IsDigit(h)
  {
    var n := num.Floor;
    var text := Decimal(n) + rest;
    DecimalStart(if n < 0 then -n else n);
    assert c.strtod(text) == (n as real, |Decimal(n)|);
    assert text[..|Decimal(n)|] == Decimal(n);
    assert text[|Decimal(n)|..] == rest;
  }

  // ---------------------------------------------------------------- one step of the printer and the parser

  lemma IndexOfDistinct(members: seq<Member>, i: nat)
    requires DistinctNames(members) && i < |members|
    ensures IndexOf(members, members[i].name) == i
  {
  }

  /** What stands between one element and the text of the ones after it. */
  function After(last: bool, pretty: bool, more: string): string {
    Trail(last, pretty) + more
  }

  /** What stands after the last element. */
  function Close(pretty: bool, level: nat, bracket: char, rest: string): string {
    When(pretty, Indent(level)) + [bracket] + rest
  }

  /** The layout around one element, whatever the element is. */
  lemma ElementLayout(pretty: bool, level: nat, part: string, last: bool, more: string, bracket: char, rest: string)
    requires SkipSpaces(part + After(last, pretty, more)) == part + After(last, pretty, more)
    requires last ==> more == Close(pretty, level, bracket, rest)
    requires bracket == ']' || bracket == '}'
    ensures SkipSpaces(Element(part, last, level, pretty) + more)
            == part + After(last, pretty, more)
    ensures var after := After(last, pretty, more);
            && after != "" && EndsNumber(after)
            && (last ==> SkipSpaces(after) == [bracket] + rest)
            && (!last ==>
                  SkipSpaces(after) == after && Head(after) == ',' && SkipSpaces(after[1..]) == SkipSpaces(more))
  {
    hide SkipSpaces, Indent;
    var after := After(last, pretty, more);
    var s := part + after;
    assert Element(part, last, level, pretty) + more
        == When(false, "\n") + When(pretty, Indent(level + 1)) + s;
    SkipLayout(false, pretty, level + 1, s);
    if last {
      var tail := [bracket] + rest;
      assert after == When(pretty, "\n") + When(pretty, Indent(level)) + tail;
      SkipLayout(pretty, pretty, level, tail);
      NoSpace(tail);
      if !pretty {
        assert after == tail;
      }
    } else {
      NoSpace(after);
      assert after[1..] == When(pretty, "\n") + When(false, Indent(0)) + more;
      SkipLayout(pretty, false, 0, more);
    }
  }

  lemma ItemsStep(c: Libc, s: string, depth: nat, items: seq<Value>, i: nat, after: string, rest: string)
    requires s != "" && i < |items| <= ARRAY_MAX_CAPACITY
    requires ParseValue(c, s, depth) == Some(Parsed(items[i], after))
    requires var u := SkipSpaces(after);
             if i == |items| - 1 then u == [']'] + rest
             else Head(u) == ',' &&
                  ParseItems(c, SkipSpaces(u[1..]), depth, items[..i + 1]) == Some(Parsed(Array(items), rest))
    ensures ParseItems(c, s, depth, items[..i]) == Some(Parsed(Array(items), rest))
  {
    hide SkipSpaces, ParseValue, SkipBody, ProcessString;
    assert items[..i] + [items[i]] == items[..i + 1];
    assert i == |items| - 1 ==> items[..i + 1] == items;
    assert ([']'] + rest)[1..] == rest;
  }

  lemma MembersStep(c: Libc, s: string, depth: nat, members: seq<Member>, i: nat, v: string, after: string,
                    rest: string)
    requires s != "" && i < |members| && CanAdd(members[..i], members[i].name)
    requires GetQuoted(s) == Some(Quoted(members[i].name, ":" + v))
    requires ParseValue(c, v, depth) == Some(Parsed(members[i].value, after))
    requires var u := SkipSpaces(after);
             if i == |members| - 1 then u == ['}'] + rest
             else Head(u) == ',' &&
                  ParseMembers(c, SkipSpaces(u[1..]), depth, members[..i + 1]) == Some(Parsed(Object(members), rest))
    ensures ParseMembers(c, s, depth, members[..i]) == Some(Parsed(Object(members), rest))
  {
    hide SkipSpaces, ParseValue, GetQuoted, CanAdd;
    NoSpace(":" + v);
    assert (":" + v)[1..] == v;
    assert ParseMember(c, s, depth) == Some(ParsedMember(members[i], after));
    assert members[..i] + [members[i]] == members[..i + 1];
    assert i == |members| - 1 ==> members[..i + 1] == members;
    assert (['}'] + rest)[1..] == rest;
  }

  /** Opening a bracketed value: the text of its elements is reached past the layout. */
  lemma OpenArray(c: Libc, newline: bool, body: string, depth: nat)
    requires depth <= MAX_NESTING
    ensures var t := SkipSpaces(body);
            ParseValue(c, ['['] + When(newline, "\n") + body, depth)
            == if Head(t) == ']' then Some(Parsed(Array([]), t[1..])) else ParseItems(c, t, depth + 1, [])
  {
    OpenLayout('[', newline, body);
  }

  lemma OpenObject(c: Libc, newline: bool, body: string, depth: nat)
    requires depth <= MAX_NESTING
    ensures var t := SkipSpaces(body);
            ParseValue(c, ['{'] + When(newline, "\n") + body, depth)
            == if Head(t) == '}' then Some(Parsed(Object([]), t[1..])) else ParseMembers(c, t, depth + 1, [])
  {
    OpenLayout('{', newline, body);
  }

  lemma OpenLayout(open: char, newline: bool, body: string)
    requires !IsSpace(open)
    ensures var text := [open] + When(newline, "\n") + body;
            SkipSpaces(text) == text && SkipSpaces(text[1..]) == SkipSpaces(body)
  {
  }

  lemma Regroup(open: string, newline: string, elements: string, indent: string, close: string, rest: string)
    ensures open + newline + elements + indent + close + rest
         == open + newline + (elements + (indent + close + rest))
  {
  }

  lemma ArrayText(c: Libc, items: seq<Value>, level: nat, pretty: bool, rest: string)
    ensures var inner := items != [] && pretty;
            PrintValue(c, Array(items), level, pretty) + rest
            == ['['] + When(inner, "\n") + (PrintItems(c, items, 0, level, pretty) + Close(inner, level, ']', rest))
  {
    hide PrintItems, PrintString, Indent;
    var inner := items != [] && pretty;
    Regroup("[", When(inner, "\n"), PrintItems(c, items, 0, level, pretty), When(inner, Indent(level)), "]", rest);
  }

  lemma ObjectText(c: Libc, members: seq<Member>, level: nat, pretty: bool, rest: string)
    ensures var inner := members != [] && pretty;
            PrintValue(c, Object(members), level, pretty) + rest
            == ['{'] + When(inner, "\n") + (PrintMembers(c, members, 0, level, pretty) + Close(inner, level, '}', rest))
  {
    hide PrintMembers, PrintString, Indent;
    var inner := members != [] && pretty;
    Regroup("{", When(inner, "\n"), PrintMembers(c, members, 0, level, pretty), When(inner, Indent(level)), "}", rest);
  }

  lemma ItemText(c: Libc, items: seq<Value>, i: nat, level: nat, pretty: bool, close: string)
    requires i < |items|
    ensures PrintItems(c, items, i, level, pretty) + close
            == Element(PrintValue(c, items[i], level + 1, pretty), i == |items| - 1, level, pretty)
               + (PrintItems(c, items, i + 1, level, pretty) + close)
  {
  }

  lemma MemberText(c: Libc, members: seq<Member>, i: nat, level: nat, pretty: bool, close: string)
    requires i < |members|
    ensures var k := IndexOf(members, members[i].name);
            PrintMembers(c, members, i, level, pretty) + close
            == Element(Pair(members[i].name, PrintValue(c, members[k].value, level + 1, pretty), pretty),
                       i == |members| - 1, level, pretty)
               + (PrintMembers(c, members, i + 1, level, pretty) + close)
  {
    hide PrintValue, Element, Pair;
  }

  // ---------------------------------------------------------------- values

  /**
   Reading a printed value at the cursor gives the value and leaves what followed it.
   Strings and numbers need something after them to end at.
   */
  lemma {:induction false} ParsePrinted(c: Libc, v: Value, level: nat, pretty: bool, depth: nat, rest: string)
    requires ReadsDecimals(c) && Printable(v, depth)
    requires v.Array? || v.Object? || (rest != "" && EndsNumber(rest))
    ensures ParseValue(c, PrintValue(c, v, level, pretty) + rest, depth) == Some(Parsed(v, rest))
    decreases v, 2
  {
    match v
    case Array(items) => ParsePrintedArray(c, items, level, pretty, depth, rest);
    case Object(members) => ParsePrintedObject(c, members, level, pretty, depth, rest);
    case _ => ParsePrintedLeaf(c, v, level, pretty, depth, rest);
  }

  lemma ParsePrintedLeaf(c: Libc, v: Value, level: nat, pretty: bool, depth: nat, rest: string)
    requires ReadsDecimals(c) && Printable(v, depth) && !v.Array? && !v.Object? && rest != "" && EndsNumber(rest)
    ensures ParseValue(c, PrintValue(c, v, level, pretty) + rest, depth) == Some(Parsed(v, rest))
  {
    match v
    case Null => WordsReadBack(c, depth, rest);
    case Boolean(b) => WordsReadBack(c, depth, rest);
    case Number(num) =>
      NumberRoundTrip(c, num, rest);
      PrintedStart(c, v, level, pretty, rest);
    case String(str) =>
      QuotedRoundTrip(str, rest);
      QuoteFirst(c, PrintString(str) + rest, depth);
  }

  lemma WordsReadBack(c: Libc, depth: nat, rest: string)
    requires depth <= MAX_NESTING
    ensures ParseValue(c, "null" + rest, depth) == Some(Parsed(Null, rest))
    ensures ParseValue(c, "true" + rest, depth) == Some(Parsed(Boolean(true), rest))
    ensures ParseValue(c, "false" + rest, depth) == Some(Parsed(Boolean(false), rest))
  {
    assert ("null" + rest)[4..] == rest && ("true" + rest)[4..] == rest && ("false" + rest)[5..] == rest;
    assert Head("null" + rest) == 'n' && Head("true" + rest) == 't' && Head("false" + rest) == 'f';
    assert !("true" <= "false" + rest) by { assert ("false" + rest)[0] == 'f'; }
  }

  lemma QuoteFirst(c: Libc, s: string, depth: nat)
    requires depth <= MAX_NESTING && s != "" && s[0] == '\"'
    ensures ParseValue(c, s, depth) == ParseString(s)
  {
  }

  lemma {:induction false} ParsePrintedArray(c: Libc, items: seq<Value>, level: nat, pretty: bool, depth: nat,
                                             rest: string)
    requires ReadsDecimals(c) && Printable(Array(items), depth)
    ensures ParseValue(c, PrintValue(c, Array(items), level, pretty) + rest, depth) == Some(Parsed(Array(items), rest))
    decreases items, 1, 0
  {
    hide PrintValue, PrintItems, PrintMembers, ParseValue, ParseItems, ParseMembers, SkipSpaces;
    var newline := items != [] && pretty;
    var close := Close(newline, level, ']', rest);
    ArrayText(c, items, level, pretty, rest);
    OpenArray(c, newline, PrintItems(c, items, 0, level, pretty) + close, depth);
    if items == [] {
      ItemsEnd(c, items, level, pretty, close);
      assert close == [']'] + rest && close[1..] == rest;
      NoSpace(close);
    } else {
      ParsePrintedItems(c, items, 0, level, pretty, depth + 1, rest);
    }
  }

  lemma PrintableNumber(v: Value, depth: nat)
    requires Printable(v, depth)
    ensures v.Number? ==> IsInt32(v.num)
  {
  }

  lemma ItemsEnd(c: Libc, items: seq<Value>, level: nat, pretty: bool, close: string)
    ensures PrintItems(c, items, |items|, level, pretty) + close == close
  {
  }

  lemma MembersEnd(c: Libc, members: seq<Member>, level: nat, pretty: bool, close: string)
    ensures PrintMembers(c, members, |members|, level, pretty) + close == close
  {
  }

  lemma NewName(members: seq<Member>, i: nat)
    requires DistinctNames(members) && i < |members| <= OBJECT_MAX_CAPACITY
    ensures CanAdd(members[..i], members[i].name)
  {
  }

  lemma PairFirst(name: string, value: string, pretty: bool, after: string)
    ensures Pair(name, value, pretty) + after == PrintString(name) + (":" + (When(pretty, " ") + value + after))
    ensures var s := Pair(name, value, pretty) + after; s != "" && s[0] == '\"' && SkipSpaces(s) == s
  {
  }

  /** The text at item i, past the layout, and what separates the item from the rest. */
  lemma ItemLayout(c: Libc, items: seq<Value>, i: nat, level: nat, pretty: bool, rest: string, more: string)
    requires i < |items| && (items[i].Number? ==> IsInt32(items[i].num))
    requires more == PrintItems(c, items, i + 1, level, pretty) + Close(pretty, level, ']', rest)
    ensures var v := PrintValue(c, items[i], level + 1, pretty); var last := i == |items| - 1;
            var after := After(last, pretty, more);
            && v != "" && v[0] != ']'
            && SkipSpaces(PrintItems(c, items, i, level, pretty) + Close(pretty, level, ']', rest)) == v + after
            && after != "" && EndsNumber(after)
            && (last ==> SkipSpaces(after) == [']'] + rest)
            && (!last ==>
                  SkipSpaces(after) == after && Head(after) == ',' && SkipSpaces(after[1..]) == SkipSpaces(more))
  {
    hide *;
    var last := i == |items| - 1;
    var v := PrintValue(c, items[i], level + 1, pretty);
    PrintedStart(c, items[i], level + 1, pretty, After(last, pretty, more));
    ItemsEnd(c, items, level, pretty, Close(pretty, level, ']', rest));
    ElementLayout(pretty, level, v, last, more, ']', rest);
    ItemText(c, items, i, level, pretty, Close(pretty, level, ']', rest));
  }

  lemma {:induction false} ParsePrintedItems(c: Libc, items: seq<Value>, i: nat, level: nat, pretty: bool, depth: nat,
                                             rest: string)
    requires ReadsDecimals(c) && i < |items| <= ARRAY_MAX_CAPACITY
    requires forall k :: 0 <= k < |items| ==> Printable(items[k], depth)
    ensures var s := SkipSpaces(PrintItems(c, items, i, level, pretty) + Close(pretty, level, ']', rest));
            s != "" && s[0] != ']' && ParseItems(c, s, depth, items[..i]) == Some(Parsed(Array(items), rest))
    decreases items, 0, |items| - i
  {
    hide *;
    var more := PrintItems(c, items, i + 1, level, pretty) + Close(pretty, level, ']', rest);
    var after := After(i == |items| - 1, pretty, more);
    var v := PrintValue(c, items[i], level + 1, pretty);
    if i < |items| - 1 {
      ParsePrintedItems(c, items, i + 1, level, pretty, depth, rest);
    }
    PrintableNumber(items[i], depth);
    ItemLayout(c, items, i, level, pretty, rest, more);
    ParsePrinted(c, items[i], level + 1, pretty, depth, after);
    ItemsStep(c, v + after, depth, items, i, after, rest);
  }

  lemma {:induction false} ParsePrintedObject(c: Libc, members: seq<Member>, level: nat, pretty: bool, depth: nat,
                                              rest: string)
    requires ReadsDecimals(c) && Printable(Object(members), depth)
    ensures ParseValue(c, PrintValue(c, Object(members), level, pretty) + rest, depth)
            == Some(Parsed(Object(members), rest))
    decreases members, 1, 0
  {
    hide PrintValue, PrintItems, PrintMembers, ParseValue, ParseItems, ParseMembers, SkipSpaces;
    var newline := members != [] && pretty;
    var close := Close(newline, level, '}', rest);
    ObjectText(c, members, level, pretty, rest);
    OpenObject(c, newline, PrintMembers(c, members, 0, level, pretty) + close, depth);
    if members == [] {
      MembersEnd(c, members, level, pretty, close);
      assert close == ['}'] + rest && close[1..] == rest;
      NoSpace(close);
    } else {
      ParsePrintedMembers(c, members, 0, level, pretty, depth + 1, rest);
    }
  }

  /** The text at member i, past the layout, and what separates the member from the rest. */
  lemma MemberLayout(c: Libc, members: seq<Member>, i: nat, level: nat, pretty: bool, rest: string, more: string)
    requires i < |members|
    requires more == PrintMembers(c, members, i + 1, level, pretty) + Close(pretty, level, '}', rest)
    ensures var v := PrintValue(c, members[IndexOf(members, members[i].name)].value, level + 1, pretty);
            var last := i == |members| - 1;
            var after := After(last, pretty, more); var name := members[i].name;
            && SkipSpaces(PrintMembers(c, members, i, level, pretty) + Close(pretty, level, '}', rest))
               == Pair(name, v, pretty) + after
            && Pair(name, v, pretty) + after == PrintString(name) + (":" + (When(pretty, " ") + v + after))
            && Head(Pair(name, v, pretty) + after) == '\"'
            && after != "" && EndsNumber(after)
            && (last ==> SkipSpaces(after) == ['}'] + rest)
            && (!last ==>
                  SkipSpaces(after) == after && Head(after) == ',' && SkipSpaces(after[1..]) == SkipSpaces(more))
  {
    hide *;
    var last := i == |members| - 1;
    var name := members[i].name;
    var v := PrintValue(c, members[IndexOf(members, name)].value, level + 1, pretty);
    var after := After(last, pretty, more);
    PairFirst(name, v, pretty, after);
    FirstChar(Pair(name, v, pretty) + after);
    MembersEnd(c, members, level, pretty, Close(pretty, level, '}', rest));
    ElementLayout(pretty, level, Pair(name, v, pretty), last, more, '}', rest);
    MemberText(c, members, i, level, pretty, Close(pretty, level, '}', rest));
  }

  lemma FirstChar(s: string)
    requires s != ""
    ensures Head(s) == s[0]
  {
  }

  lemma {:induction false} ParsePrintedMembers(c: Libc, members: seq<Member>, i: nat, level: nat, pretty: bool,
                                               depth: nat, rest: string)
    requires ReadsDecimals(c) && i < |members| <= OBJECT_MAX_CAPACITY && DistinctNames(members)
    requires forall k :: 0 <= k < |members| ==> PrintableString(members[k].name) && Printable(members[k].value, depth)
    ensures var s := SkipSpaces(PrintMembers(c, members, i, level, pretty) + Close(pretty, level, '}', rest));
            s != "" && s[0] == '\"' && ParseMembers(c, s, depth, members[..i]) == Some(Parsed(Object(members), rest))
    decreases members, 0, |members| - i
  {
    hide *;
    var m := members[i];
    var more := PrintMembers(c, members, i + 1, level, pretty) + Close(pretty, level, '}', rest);
    var after := After(i == |members| - 1, pretty, more);
    var v := PrintValue(c, m.value, level + 1, pretty);
    var text := When(pretty, " ") + v + after;
    if i < |members| - 1 {
      ParsePrintedMembers(c, members, i + 1, level, pretty, depth, rest);
    }
    NewName(members, i);
    IndexOfDistinct(members, i);
    MemberLayout(c, members, i, level, pretty, rest, more);
    FirstChar(Pair(m.name, v, pretty) + after);
    QuotedRoundTrip(m.name, ":" + text);
    MemberValue(c, m.value, level, pretty, depth, after);
    MembersStep(c, Pair(m.name, v, pretty) + after, depth, members, i, text, after, rest);
  }

  /** The value after a colon, which the pretty printer separates by a blank. */
  lemma {:induction false} MemberValue(c: Libc, v: Value, level: nat, pretty: bool, depth: nat, after: string)
    requires ReadsDecimals(c) && Printable(v, depth) && after != "" && EndsNumber(after)
    ensures ParseValue(c, When(pretty, " ") + PrintValue(c, v, level + 1, pretty) + after, depth)
            == Some(Parsed(v, after))
    decreases v, 3
  {
    hide *;
    ParsePrinted(c, v, level + 1, pretty, depth, after);
    BlankBefore(c, pretty, PrintValue(c, v, level + 1, pretty), after, depth);
  }

  lemma BlankBefore(c: Libc, blank: bool, v: string, after: string, depth: nat)
    ensures ParseValue(c, When(blank, " ") + v + after, depth) == ParseValue(c, v + after, depth)
  {
    var s := v + after;
    assert When(blank, " ") + v + after == When(blank, " ") + s;
    if blank {
      SkipOne(' ', s);
    } else {
      assert "" + s == s;
    }
  }

  /** json_parse_string after json_serialize_to_string, compact or pretty. */
  lemma RoundTrip(c: Libc, v: Value, pretty: bool)
    requires ReadsDecimals(c) && Printable(v, 0) && (v.Array? || v.Object?)
    ensures JsonParse(c, PrintValue(c, v, 0, pretty)) == Some(v)
  {
    var text := PrintValue(c, v, 0, pretty);
    assert text + "" == text;
    ParsePrinted(c, v, 0, pretty, 0, "");
    PrintedStart(c, v, 0, pretty, "");
  }
}
