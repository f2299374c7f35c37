/**
 The converse of the round trip: a value the format cannot carry is never read back.
 Together they say exactly which values survive printing and parsing. Numbers that are
 not 32-bit integers are printed through "%f" and stay outside this statement.
 */
module JsonExact {
  import opened Common
  import opened JsonText
  import opened JsonReader
  import opened JsonRoundTrip

  ghost predicate IntegersOnly(v: Value) {
    match v
    case Number(num) => IsInt32(num)
    case Array(items) => forall i :: 0 <= i < |items| ==> IntegersOnly(items[i])
    case Object(members) => forall i :: 0 <= i < |members| ==> IntegersOnly(members[i].value)
    case _ => true
  }

  // ---------------------------------------------------------------- strings

  /** A control char that has no escape letter is printed raw, and refused by the parser. */
  lemma {:induction false} UnprintableFails(s: CString, text: string, close: string)
    requires !PrintableString(s) && text == EscapeAll(s) + close
    ensures ProcessString(text, |EscapeAll(s)|) == None
  {
    hide ProcessString, Escape, PrintableChar;
    var tail := EscapeAll(s[1..]) + close;
    assert text == Escape(s[0]) + tail;
    if PrintableChar(s[0]) {
      forall i | 0 <= i < |s[1..]|
        ensures s[1..][i] == s[i + 1]
      {
      }
      EscapeStep(s[0], tail, |EscapeAll(s[1..])|);
      UnprintableFails(s[1..], tail, close);
    } else {
      RawCharFails(s[0], tail, |EscapeAll(s[1..])|);
    }
  }

  lemma RawCharFails(ch: char, tail: string, n: nat)
    requires !PrintableChar(ch) && ch != '\0'
    ensures ProcessString(Escape(ch) + tail, |Escape(ch)| + n) == None
  {
  }

  lemma {:induction false} SkipAnyEscaped(s: CString, text: string, close: string)
    requires text == EscapeAll(s) + close
    ensures SkipBody(text) == SkipBody(close)
  {
    hide SkipBody, Escape;
    if s == "" {
      assert text == close;
    } else {
      var tail := EscapeAll(s[1..]) + close;
      SkipAnyEscaped(s[1..], tail, close);
      SkipAnyChar(s[0], tail);
      assert text == Escape(s[0]) + tail;
    }
  }

  lemma SkipAnyChar(ch: char, tail: string)
    ensures SkipBody(Escape(ch) + tail) == SkipBody(tail)
  {
  }

  lemma QuotedFails(s: CString, rest: string)
    requires !PrintableString(s)
    ensures GetQuoted(PrintString(s) + rest) == None
  {
    var text := PrintString(s) + rest;
    var close := "\"" + rest;
    assert text[1..] == EscapeAll(s) + close;
    assert close[1..] == rest;
    SkipAnyEscaped(s, text[1..], close);
    UnprintableFails(s, text[1..], close);
  }

  // ---------------------------------------------------------------- values

  lemma {:induction false} UnprintableValue(c: Libc, v: Value, level: nat, pretty: bool, depth: nat, rest: string)
    requires ReadsDecimals(c) && IntegersOnly(v) && !Printable(v, depth)
    requires v.Array? || v.Object? || (rest != "" && EndsNumber(rest))
    ensures ParseValue(c, PrintValue(c, v, level, pretty) + rest, depth) == None
    decreases v, 2
  {
    if depth <= MAX_NESTING {
      match v
      case String(str) =>
        QuotedFails(str, rest);
        QuoteFirst(c, PrintString(str) + rest, depth);
      case Array(items) => UnprintableArray(c, items, level, pretty, depth, rest);
      case Object(members) => UnprintableObject(c, members, level, pretty, depth, rest);
      case _ =>
    } else {
      TooDeep(c, PrintValue(c, v, level, pretty) + rest, depth);
    }
  }

  lemma TooDeep(c: Libc, s: string, depth: nat)
    requires depth > MAX_NESTING
    ensures ParseValue(c, s, depth) == None
  {
  }

  lemma {:induction false} UnprintableArray(c: Libc, items: seq<Value>, level: nat, pretty: bool, depth: nat,
                                            rest: string)
    requires ReadsDecimals(c) && IntegersOnly(Array(items)) && depth <= MAX_NESTING && !Printable(Array(items), depth)
    ensures ParseValue(c, PrintValue(c, Array(items), level, pretty) + rest, depth) == None
    decreases items, 1, 0
  {
    hide PrintValue, PrintItems, ParseValue, ParseItems, SkipSpaces;
    ArrayText(c, items, level, pretty, rest);
    OpenArray(c, pretty, PrintItems(c, items, 0, level, pretty) + Close(pretty, level, ']', rest), depth);
    UnprintableItems(c, items, 0, level, pretty, depth + 1, rest);
  }

  ghost predicate BadItem(items: seq<Value>, i: nat, depth: nat) {
    |items| > ARRAY_MAX_CAPACITY || exists k :: i <= k < |items| && !Printable(items[k], depth)
  }

  lemma NextBadItem(items: seq<Value>, i: nat, depth: nat)
    requires i <= ARRAY_MAX_CAPACITY && BadItem(items, i, depth) && IntegersOnly(Array(items))
    ensures i < |items| && IntegersOnly(items[i]) && (items[i].Number? ==> IsInt32(items[i].num))
    ensures Printable(items[i], depth) && i < ARRAY_MAX_CAPACITY ==> i < |items| - 1 && BadItem(items, i + 1, depth)
  {
  }

  lemma {:induction false} UnprintableItems(c: Libc, items: seq<Value>, i: nat, level: nat, pretty: bool, depth: nat,
                                            rest: string)
    requires ReadsDecimals(c) && IntegersOnly(Array(items)) && i <= ARRAY_MAX_CAPACITY && BadItem(items, i, depth)
             && i < |items|
    ensures var s := SkipSpaces(PrintItems(c, items, i, level, pretty) + Close(pretty, level, ']', rest));
            s != "" && s[0] != ']' && ParseItems(c, s, depth, items[..i]) == None
    decreases items, 0, |items| - i
  {
    hide *;
    NextBadItem(items, i, depth);
    var more := PrintItems(c, items, i + 1, level, pretty) + Close(pretty, level, ']', rest);
    var after := After(i == |items| - 1, pretty, more);
    var v := PrintValue(c, items[i], level + 1, pretty);
    ItemLayout(c, items, i, level, pretty, rest, more);
    if !Printable(items[i], depth) {
      UnprintableValue(c, items[i], level + 1, pretty, depth, after);
      ItemFails(c, v + after, depth, items[..i]);
    } else if i == ARRAY_MAX_CAPACITY {
      ItemFails(c, v + after, depth, items[..i]);
    } else {
      ParsePrinted(c, items[i], level + 1, pretty, depth, after);
      UnprintableItems(c, items, i + 1, level, pretty, depth, rest);
      ItemThenFails(c, v + after, depth, items, i, after);
    }
  }

  lemma ItemFails(c: Libc, s: string, depth: nat, acc: seq<Value>)
    requires ParseValue(c, s, depth) == None || |acc| >= ARRAY_MAX_CAPACITY
    ensures ParseItems(c, s, depth, acc) == None
  {
  }

  lemma ItemThenFails(c: Libc, s: string, depth: nat, items: seq<Value>, i: nat, after: string)
    requires i < |items| && ParseValue(c, s, depth) == Some(Parsed(items[i], after))
    requires SkipSpaces(after) == after && Head(after) == ','
    requires ParseItems(c, SkipSpaces(after[1..]), depth, items[..i + 1]) == None
    ensures ParseItems(c, s, depth, items[..i]) == None
  {
    hide SkipSpaces, ParseValue;
    assert items[..i] + [items[i]] == items[..i + 1];
  }

  lemma {:induction false} UnprintableObject(c: Libc, members: seq<Member>, level: nat, pretty: bool, depth: nat,
                                             rest: string)
    requires ReadsDecimals(c) && IntegersOnly(Object(members)) && depth <= MAX_NESTING
             && !Printable(Object(members), depth)
    ensures ParseValue(c, PrintValue(c, Object(members), level, pretty) + rest, depth) == None
    decreases members, 1, 0
  {
    hide PrintValue, PrintMembers, ParseValue, ParseMembers, SkipSpaces;
    ObjectText(c, members, level, pretty, rest);
    OpenObject(c, pretty, PrintMembers(c, members, 0, level, pretty) + Close(pretty, level, '}', rest), depth);
    UnprintableHasBad(members, depth);
    UnprintableMembers(c, members, 0, level, pretty, depth + 1, rest);
  }

  /** Member k can be printed and added after the ones before it. */
  ghost predicate GoodMember(members: seq<Member>, k: nat, depth: nat)
    requires k < |members|
  {
    && PrintableString(members[k].name) && Printable(members[k].value, depth)
    && forall j :: 0 <= j < k ==> members[j].name != members[k].name
  }

  ghost predicate BadMember(members: seq<Member>, i: nat, depth: nat) {
    |members| > OBJECT_MAX_CAPACITY || exists k :: i <= k < |members| && !GoodMember(members, k, depth)
  }

  lemma UnprintableHasBad(members: seq<Member>, depth: nat)
    requires depth <= MAX_NESTING && !Printable(Object(members), depth)
    ensures members != [] && BadMember(members, 0, depth + 1)
  {
    if |members| <= OBJECT_MAX_CAPACITY && DistinctNames(members) {
      var k :| 0 <= k < |members| && !(PrintableString(members[k].name) && Printable(members[k].value, depth + 1));
      assert !GoodMember(members, k, depth + 1);
    } else if |members| <= OBJECT_MAX_CAPACITY {
      var j, k :| 0 <= j < k < |members| && members[j].name == members[k].name;
      assert !GoodMember(members, k, depth + 1);
    }
  }

  /** What stands in the way at member i, or that something does further on. */
  lemma NextBadMember(members: seq<Member>, i: nat, depth: nat)
    requires i <= OBJECT_MAX_CAPACITY && BadMember(members, i, depth) && IntegersOnly(Object(members)) && i < |members|
    ensures IntegersOnly(members[i].value)
    ensures i == OBJECT_MAX_CAPACITY || !GoodMember(members, i, depth)
            || (i < |members| - 1 && BadMember(members, i + 1, depth))
    ensures i < OBJECT_MAX_CAPACITY && GoodMember(members, i, depth) ==>
              PrintableString(members[i].name) && Printable(members[i].value, depth)
                && IndexOf(members, members[i].name) == i
    ensures !GoodMember(members, i, depth) && PrintableString(members[i].name)
            && CanAdd(members[..i], members[i].name) ==>
              !Printable(members[i].value, depth) && IndexOf(members, members[i].name) == i
    ensures i == OBJECT_MAX_CAPACITY ==> !CanAdd(members[..i], members[i].name)
  {
    forall j | 0 <= j < i
      ensures members[..i][j] == members[j]
    {
    }
  }

  lemma {:induction false} UnprintableMembers(c: Libc, members: seq<Member>, i: nat, level: nat, pretty: bool,
                                              depth: nat, rest: string)
    requires ReadsDecimals(c) && IntegersOnly(Object(members)) && i <= OBJECT_MAX_CAPACITY
             && BadMember(members, i, depth) && i < |members|
    ensures var s := SkipSpaces(PrintMembers(c, members, i, level, pretty) + Close(pretty, level, '}', rest));
            s != "" && s[0] == '\"' && ParseMembers(c, s, depth, members[..i]) == None
    decreases members, 0, |members| - i
  {
    hide *;
    NextBadMember(members, i, depth);
    var m := members[i];
    var more := PrintMembers(c, members, i + 1, level, pretty) + Close(pretty, level, '}', rest);
    var after := After(i == |members| - 1, pretty, more);
    var v := PrintValue(c, members[IndexOf(members, m.name)].value, level + 1, pretty);
    var text := When(pretty, " ") + v + after;
    var s := Pair(m.name, v, pretty) + after;
    MemberLayout(c, members, i, level, pretty, rest, more);
    FirstChar(s);
    if !PrintableString(m.name) {
      QuotedFails(m.name, ":" + text);
      MemberFails(c, s, depth, members[..i], m.name, text);
    } else {
      QuotedRoundTrip(m.name, ":" + text);
      if !CanAdd(members[..i], m.name) {
        MemberFails(c, s, depth, members[..i], m.name, text);
      } else if !GoodMember(members, i, depth) {
        BlankBefore(c, pretty, v, after, depth);
        UnprintableValue(c, m.value, level + 1, pretty, depth, after);
        MemberFails(c, s, depth, members[..i], m.name, text);
      } else {
        MemberValue(c, m.value, level, pretty, depth, after);
        UnprintableMembers(c, members, i + 1, level, pretty, depth, rest);
        MemberThenFails(c, s, depth, members, i, text, after);
      }
    }
  }

  lemma MemberFails(c: Libc, s: string, depth: nat, acc: seq<Member>, name: CString, text: string)
    requires s != ""
    requires GetQuoted(s) == None
             || (GetQuoted(s) == Some(Quoted(name, ":" + text))
                 && (!CanAdd(acc, name) || ParseValue(c, text, depth) == None))
    ensures ParseMembers(c, s, depth, acc) == None
  {
    hide SkipSpaces, ParseValue, GetQuoted, CanAdd;
    NoSpace(":" + text);
    assert (":" + text)[1..] == text;
  }

  lemma MemberThenFails(c: Libc, s: string, depth: nat, members: seq<Member>, i: nat, text: string, after: string)
    requires s != "" && i < |members| && GetQuoted(s) == Some(Quoted(members[i].name, ":" + text))
    requires ParseValue(c, text, depth) == Some(Parsed(members[i].value, after))
    requires SkipSpaces(after) == after && Head(after) == ','
    requires ParseMembers(c, SkipSpaces(after[1..]), depth, members[..i + 1]) == None
    ensures ParseMembers(c, s, depth, members[..i]) == None
  {
    hide SkipSpaces, ParseValue, GetQuoted, CanAdd;
    NoSpace(":" + text);
    assert (":" + text)[1..] == text;
    assert ParseMember(c, s, depth) == Some(ParsedMember(members[i], after));
    assert members[..i] + [members[i]] == members[..i + 1];
  }

  // ---------------------------------------------------------------- what else is read

  /** Whatever char a name or string starts with, it is passed over as the opening quote. */
  lemma AnyOpeningQuote(x: char, s: string)
    ensures GetQuoted([x] + s) == GetQuoted("\"" + s)
  {
    assert ([x] + s)[1..] == s == ("\"" + s)[1..];
  }

  /** An object is read alike whichever char its first name starts with, white space and the closing brace excepted. */
  lemma AnyFirstName(c: Libc, x: char, s: string, depth: nat)
    requires !IsSpace(x) && x != '}' && x != '\0'
    ensures ParseValue(c, "{" + ([x] + s), depth) == ParseValue(c, "{" + ("\"" + s), depth)
  {
    hide ParseMembers, ParseObject, SkipSpaces;
    if depth <= MAX_NESTING {
      AfterBrace(c, x, s, depth);
      AfterBrace(c, '\"', s, depth);
      SameMembers(c, x, s, depth + 1, []);
    }
  }

  /** And so is every later name, after whose comma even a closing brace passes for a quote. */
  lemma SameMembers(c: Libc, x: char, s: string, depth: nat, acc: seq<Member>)
    ensures ParseMembers(c, [x] + s, depth, acc) == ParseMembers(c, "\"" + s, depth, acc)
  {
    hide GetQuoted, ParseValue, SkipSpaces;
    AnyOpeningQuote(x, s);
    assert ParseMember(c, [x] + s, depth) == ParseMember(c, "\"" + s, depth);
  }

  lemma AfterBrace(c: Libc, x: char, s: string, depth: nat)
    requires !IsSpace(x) && x != '}' && depth <= MAX_NESTING
    ensures ParseValue(c, "{" + ([x] + s), depth) == ParseMembers(c, [x] + s, depth + 1, [])
  {
    hide ParseMembers;
    var t := "{" + ([x] + s);
    assert t[1..] == [x] + s;
    assert SkipSpaces(t) == t;
  }

  // ---------------------------------------------------------------- exactly

  /**
   An array or object of integers, strings, booleans and nulls survives printing and parsing if and
   only if it is printable.
   */
  lemma RoundTripExactly(c: Libc, v: Value, pretty: bool)
    requires ReadsDecimals(c) && IntegersOnly(v) && (v.Array? || v.Object?)
    ensures JsonParse(c, PrintValue(c, v, 0, pretty)) == Some(v) <==> Printable(v, 0)
  {
    var text := PrintValue(c, v, 0, pretty);
    if Printable(v, 0) {
      RoundTrip(c, v, pretty);
    } else {
      assert text + "" == text;
      UnprintableValue(c, v, 0, pretty, 0, "");
      PrintedStart(c, v, 0, pretty, "");
    }
  }
}
