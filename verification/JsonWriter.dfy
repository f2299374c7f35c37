/**
 The serializer of parson.c: one routine that measures when it is given no buffer
 and writes when it is given one. Both passes are shown to count the same bytes, and
 the writing pass to leave exactly the printed text and its terminator in the buffer.
 */
module JsonWriter {
  import opened JsonText

  /** After writing text at an index, all that may also have changed is the byte after it. */
  predicate Wrote(before: string, after: string, at: nat, text: string) {
    && at + |text| < |before| == |after|
    && after[..at + |text|] == before[..at] + text
    && after[at + |text| + 1..] == before[at + |text| + 1..]
  }

  lemma WroteBoth(b0: string, b1: string, b2: string, at: nat, x: string, y: string)
    requires Wrote(b0, b1, at, x) && Wrote(b1, b2, at + |x|, y)
    ensures Wrote(b0, b2, at, x + y)
  {
  }

  function Bytes(buf: array?<char>): string
    reads if buf == null then {} else {buf}
  {
    if buf == null then "" else buf[..]
  }

  /** There is room for the text and a terminator, if anything is to be written at all. */
  predicate Room(buf: array?<char>, at: nat, size: nat) {
    buf != null ==> at + size < buf.Length
  }

  /** append_string: sprintf("%s"), or the length alone. */
  method AppendString(buf: array?<char>, at: nat, str: string) returns (written: nat)
    requires Room(buf, at, |str|)
    modifies if buf == null then {} else {buf}
    ensures written == |str|
    ensures buf != null ==> Wrote(old(Bytes(buf)), Bytes(buf), at, str) && buf[at + |str|] == '\0'
  {
    if buf == null {
      return |str|;
    }
    ghost var b := buf[..];
    for i := 0 to |str|
      invariant buf[..] == b[..at] + str[..i] + b[at + i..]
    {
      buf[at + i] := str[i];
    }
    buf[at + |str|] := '\0';
    assert buf[..] == b[..at] + str + "\0" + b[at + |str| + 1..];
    written := |str|;
  }

  /** What one pass has written since it began: text, starting at index start. */
  ghost predicate Progress(buf: array?<char>, before: string, start: nat, text: string)
    reads if buf == null then {} else {buf}
  {
    buf != null ==> Wrote(before, buf[..], start, text)
  }

  /** APPEND_STRING: the piece goes after the text written so far, and the count grows by its length. */
  method Append(buf: array?<char>, start: nat, total: nat, str: string, ghost before: string, ghost text: string)
    returns (total': nat)
    requires total == |text| && Progress(buf, before, start, text) && Room(buf, start, |text| + |str|)
    modifies if buf == null then {} else {buf}
    ensures total' == |text + str| && Progress(buf, before, start, text + str)
    ensures buf != null ==> buf[start + total'] == '\0'
  {
    ghost var b := Bytes(buf);
    var written := AppendString(buf, start + total, str);
    if buf != null {
      WroteBoth(before, b, buf[..], start, text, str);
    }
    total' := total + written;
  }

  method AppendFirst(buf: array?<char>, start: nat, str: string) returns (written: nat)
    requires Room(buf, start, |str|)
    modifies if buf == null then {} else {buf}
    ensures written == |str| && Progress(buf, old(Bytes(buf)), start, str)
    ensures buf != null ==> buf[start + written] == '\0'
  {
    assert "" + str == str;
    written := Append(buf, start, 0, str, Bytes(buf), "");
  }

  /** append_indent */
  method AppendIndent(buf: array?<char>, start: nat, total: nat, level: nat, ghost before: string, ghost text: string)
    returns (total': nat)
    requires total == |text| && Progress(buf, before, start, text) && Room(buf, start, |text| + |Indent(level)|)
    modifies if buf == null then {} else {buf}
    ensures total' == |text + Indent(level)| && Progress(buf, before, start, text + Indent(level))
  {
    total' := total;
    IndentNext(level);
    assert text + "" == text;
    for i := 0 to level
      invariant total' == |text + Indent(i)| && Progress(buf, before, start, text + Indent(i))
    {
      IndentNext(i);
      assert (text + Indent(i)) + "    " == text + Indent(i + 1);
      IndentFits(i, level);
      total' := Append(buf, start, total', "    ", before, text + Indent(i));
    }
  }

  lemma {:induction false} IndentNext(level: nat)
    ensures Indent(level) + "    " == Indent(level + 1)
    ensures |Indent(level)| == 4 * level
  {
    if level > 0 {
      IndentNext(level - 1);
    }
  }

  lemma IndentFits(i: nat, level: nat)
    requires i < level
    ensures |Indent(i)| + 4 <= |Indent(level)|
  {
  }

  /** A plain char is stored without a terminator. */
  method AppendChar(buf: array?<char>, start: nat, total: nat, ch: char, ghost before: string, ghost text: string)
    returns (total': nat)
    requires total == |text| && Progress(buf, before, start, text) && Room(buf, start, |text| + 1)
    modifies if buf == null then {} else {buf}
    ensures total' == |text + [ch]| && Progress(buf, before, start, text + [ch])
  {
    if buf != null {
      ghost var b := buf[..];
      buf[start + total] := ch;
      assert buf[..start + total + 1] == b[..start + total] + [ch];
      assert buf[start + total + 2..] == b[start + total + 1..][1..];
      WroteBoth(before, b, buf[..], start, text, [ch]);
    }
    total' := total + 1;
  }

  lemma EscapeNext(str: string, i: nat, text: string)
    requires i < |str|
    ensures text + EscapeAll(str[i..]) == text + Escape(str[i]) + EscapeAll(str[i + 1..])
  {
  }

  /** json_serialize_string */
  method SerializeString(str: CString, buf: array?<char>, start: nat) returns (written: nat)
    requires Room(buf, start, |PrintString(str)|)
    modifies if buf == null then {} else {buf}
    ensures written == |PrintString(str)|
    ensures Progress(buf, old(Bytes(buf)), start, PrintString(str))
    ensures buf != null ==> buf[start + written] == '\0'
  {
    hide EscapeAll, Progress;
    ghost var before, text := Bytes(buf), "\"";
    written := AppendFirst(buf, start, "\"");
    assert str[0..] == str;
    for i := 0 to |str|
      invariant written == |text| && Progress(buf, before, start, text)
      invariant text + EscapeAll(str[i..]) == "\"" + EscapeAll(str)
    {
      EscapeNext(str, i, text);
      match EscapeLetter(str[i]) {
        case Some(letter) => written := Append(buf, start, written, ['\\', letter], before, text);
        case None => written := AppendChar(buf, start, written, str[i], before, text);
      }
      text := text + Escape(str[i]);
    }
    NothingLeft(str);
    assert text + "" == text;
    written := Append(buf, start, written, "\"", before, text);
  }

  lemma NothingLeft(str: string)
    ensures EscapeAll(str[|str|..]) == ""
  {
  }

  /**
   json_serialize_to_buffer_r: the same count with and without a buffer, and in a
   buffer exactly the printed text, its terminator, and nothing else changed.
   */
  method Serialize(c: Libc, v: Value, buf: array?<char>, start: nat, level: nat, pretty: bool) returns (written: nat)
    requires Room(buf, start, |PrintValue(c, v, level, pretty)|)
    modifies if buf == null then {} else {buf}
    ensures written == |PrintValue(c, v, level, pretty)|
    ensures Progress(buf, old(Bytes(buf)), start, PrintValue(c, v, level, pretty))
    ensures buf != null ==> buf[start + written] == '\0'
    decreases v, 1
  {
    hide PrintItems, PrintMembers, PrintString, Indent, Progress;
    match v
    case Array(items) => written := SerializeArray(c, items, buf, start, level, pretty);
    case Object(members) => written := SerializeObject(c, members, buf, start, level, pretty);
    case String(str) => written := SerializeString(str, buf, start);
    case Boolean(b) => written := AppendFirst(buf, start, if b then "true" else "false");
    case Number(num) =>
      var text := if IsInt32(num) then Decimal(num.Floor) else c.formatF(num);
      written := AppendFirst(buf, start, text);
    case Null => written := AppendFirst(buf, start, "null");
  }

  /** One serialized element appended to the text so far. */
  method SerializeNext(c: Libc, v: Value, buf: array?<char>, start: nat, total: nat, level: nat, pretty: bool,
                       ghost before: string, ghost text: string)
    returns (total': nat)
    requires total == |text| && Progress(buf, before, start, text)
    requires Room(buf, start, |text| + |PrintValue(c, v, level, pretty)|)
    modifies if buf == null then {} else {buf}
    ensures total' == |text + PrintValue(c, v, level, pretty)|
    ensures Progress(buf, before, start, text + PrintValue(c, v, level, pretty))
    decreases v, 2
  {
    ghost var b := Bytes(buf);
    var written := Serialize(c, v, buf, start + total, level, pretty);
    if buf != null {
      WroteBoth(before, b, buf[..], start, text, PrintValue(c, v, level, pretty));
    }
    total' := total + written;
  }

  /** A piece that only one layout, or only some elements, have. */
  method AppendWhen(cond: bool, buf: array?<char>, start: nat, total: nat, str: string, ghost before: string,
                    ghost text: string) returns (total': nat)
    requires total == |text| && Progress(buf, before, start, text) && Room(buf, start, |text| + |When(cond, str)|)
    modifies if buf == null then {} else {buf}
    ensures total' == |text + When(cond, str)| && Progress(buf, before, start, text + When(cond, str))
  {
    total' := total;
    if cond {
      total' := Append(buf, start, total, str, before, text);
    } else {
      assert text + "" == text;
    }
  }

  method IndentWhen(cond: bool, buf: array?<char>, start: nat, total: nat, level: nat, ghost before: string,
                    ghost text: string) returns (total': nat)
    requires total == |text| && Progress(buf, before, start, text)
             && Room(buf, start, |text| + |When(cond, Indent(level))|)
    modifies if buf == null then {} else {buf}
    ensures total' == |text + When(cond, Indent(level))|
            && Progress(buf, before, start, text + When(cond, Indent(level)))
  {
    total' := total;
    if cond {
      total' := AppendIndent(buf, start, total, level, before, text);
    } else {
      assert text + "" == text;
    }
  }

  /** What follows an element. */
  method AppendTrail(last: bool, pretty: bool, buf: array?<char>, start: nat, total: nat, ghost before: string,
                     ghost text: string) returns (total': nat)
    requires total == |text| && Progress(buf, before, start, text) && Room(buf, start, |text| + |Trail(last, pretty)|)
    modifies if buf == null then {} else {buf}
    ensures total' == |text + Trail(last, pretty)| && Progress(buf, before, start, text + Trail(last, pretty))
  {
    total' := AppendWhen(!last, buf, start, total, ",", before, text);
    total' := AppendWhen(pretty, buf, start, total', "\n", before, text + When(!last, ","));
    assert text + When(!last, ",") + When(pretty, "\n") == text + Trail(last, pretty);
  }

  /** One iteration of the array loop. */
  method SerializeItem(c: Libc, v: Value, last: bool, buf: array?<char>, start: nat, total: nat, level: nat,
                       pretty: bool,
                       ghost before: string, ghost text: string)
    returns (total': nat)
    requires total == |text| && Progress(buf, before, start, text)
    requires Room(buf, start, |text| + |Element(PrintValue(c, v, level + 1, pretty), last, level, pretty)|)
    modifies if buf == null then {} else {buf}
    ensures total' == |text + Element(PrintValue(c, v, level + 1, pretty), last, level, pretty)|
    ensures Progress(buf, before, start, text + Element(PrintValue(c, v, level + 1, pretty), last, level, pretty))
    decreases v, 3
  {
    hide PrintValue, Trail, Indent, Progress;
    ghost var lead, body := When(pretty, Indent(level + 1)), PrintValue(c, v, level + 1, pretty);
    total' := IndentWhen(pretty, buf, start, total, level + 1, before, text);
    total' := SerializeNext(c, v, buf, start, total', level + 1, pretty, before, text + lead);
    total' := AppendTrail(last, pretty, buf, start, total', before, text + lead + body);
    assert text + lead + body + Trail(last, pretty) == text + Element(body, last, level, pretty);
  }

  /** One iteration of the object loop. */
  method SerializeMember(c: Libc, name: CString, v: Value, last: bool, buf: array?<char>, start: nat, total: nat,
                         level: nat, pretty: bool,
                         ghost before: string, ghost text: string)
    returns (total': nat)
    requires total == |text| && Progress(buf, before, start, text)
    requires Room(buf, start,
                  |text| + |Element(Pair(name, PrintValue(c, v, level + 1, pretty), pretty), last, level, pretty)|)
    modifies if buf == null then {} else {buf}
    ensures total' == |text + Element(Pair(name, PrintValue(c, v, level + 1, pretty), pretty), last, level, pretty)|
    ensures Progress(buf, before, start,
                     text + Element(Pair(name, PrintValue(c, v, level + 1, pretty), pretty), last, level, pretty))
    decreases v, 4
  {
    hide PrintValue, Trail, Indent, Pair, Progress;
    ghost var lead, body := When(pretty, Indent(level + 1)), Pair(name, PrintValue(c, v, level + 1, pretty), pretty);
    total' := IndentWhen(pretty, buf, start, total, level + 1, before, text);
    total' := SerializePair(c, name, v, buf, start, total', level, pretty, before, text + lead);
    total' := AppendTrail(last, pretty, buf, start, total', before, text + lead + body);
    assert text + lead + body + Trail(last, pretty) == text + Element(body, last, level, pretty);
  }

  /** A name, a colon and a value appended to the text so far. */
  method SerializePair(c: Libc, name: CString, value: Value, buf: array?<char>, start: nat, total: nat, level: nat,
                       pretty: bool,
                       ghost before: string, ghost text: string)
    returns (total': nat)
    requires total == |text| && Progress(buf, before, start, text)
    requires Room(buf, start, |text| + |Pair(name, PrintValue(c, value, level + 1, pretty), pretty)|)
    modifies if buf == null then {} else {buf}
    ensures total' == |text + Pair(name, PrintValue(c, value, level + 1, pretty), pretty)|
    ensures Progress(buf, before, start, text + Pair(name, PrintValue(c, value, level + 1, pretty), pretty))
    decreases value, 3
  {
    hide PrintValue, PrintString, Progress;
    total' := SerializeName(name, buf, start, total, before, text);
    ghost var t := text + PrintString(name);
    total' := Append(buf, start, total', ":", before, t);
    total' := AppendWhen(pretty, buf, start, total', " ", before, t + ":");
    t := t + ":" + When(pretty, " ");
    total' := SerializeNext(c, value, buf, start, total', level + 1, pretty, before, t);
    assert t + PrintValue(c, value, level + 1, pretty)
           == text + Pair(name, PrintValue(c, value, level + 1, pretty), pretty);
  }

  // The text of an array or object, taken apart as the loops write it.

  lemma Regroup(text: string, done: string, element: string, more: string)
    ensures done + (element + more) == done + element + more
    ensures text + done + element == text + (done + element)
  {
  }

  lemma ArrayPieces(c: Libc, items: seq<Value>, level: nat, pretty: bool)
    ensures var inner := items != [] && pretty;
            PrintValue(c, Array(items), level, pretty)
            == "[" + When(inner, "\n") + PrintItems(c, items, 0, level, pretty) + When(inner, Indent(level)) + "]"
  {
    hide PrintItems, PrintString, Indent;
  }

  lemma ItemPieces(c: Libc, items: seq<Value>, i: nat, level: nat, pretty: bool)
    requires i <= |items|
    ensures PrintItems(c, items, i, level, pretty) ==
            if i == |items| then ""
            else
              Element(PrintValue(c, items[i], level + 1, pretty), i == |items| - 1, level, pretty)
              + PrintItems(c, items, i + 1, level, pretty)
  {
  }

  /** The loop over the items. */
  method SerializeItems(c: Libc, items: seq<Value>, buf: array?<char>, start: nat, total: nat, level: nat,
                        pretty: bool, ghost before: string, ghost text: string)
    returns (total': nat)
    requires total == |text| && Progress(buf, before, start, text)
    requires Room(buf, start, |text| + |PrintItems(c, items, 0, level, pretty)|)
    modifies if buf == null then {} else {buf}
    ensures total' == |text + PrintItems(c, items, 0, level, pretty)|
    ensures Progress(buf, before, start, text + PrintItems(c, items, 0, level, pretty))
    decreases items, 0
  {
    hide PrintValue, PrintItems, Element, Pair, Indent, Progress;
    total' := total;
    ghost var all, done := PrintItems(c, items, 0, level, pretty), "";
    assert text + "" == text;
    var i := 0;
    while i < |items|
      invariant i <= |items|
      invariant total' == |text + done| && Progress(buf, before, start, text + done)
      invariant all == done + PrintItems(c, items, i, level, pretty)
    {
      ghost var element := Element(PrintValue(c, items[i], level + 1, pretty), i == |items| - 1, level, pretty);
      ItemPieces(c, items, i, level, pretty);
      Regroup(text, done, element, PrintItems(c, items, i + 1, level, pretty));
      total' := SerializeItem(c, items[i], i == |items| - 1, buf, start, total', level, pretty, before, text + done);
      done := done + element;
      i := i + 1;
    }
    ItemPieces(c, items, i, level, pretty);
    assert all == done;
  }

  method SerializeArray(c: Libc, items: seq<Value>, buf: array?<char>, start: nat, level: nat, pretty: bool)
    returns (written: nat)
    requires Room(buf, start, |PrintValue(c, Array(items), level, pretty)|)
    modifies if buf == null then {} else {buf}
    ensures written == |PrintValue(c, Array(items), level, pretty)|
    ensures Progress(buf, old(Bytes(buf)), start, PrintValue(c, Array(items), level, pretty))
    ensures buf != null ==> buf[start + written] == '\0'
    decreases items, 1
  {
    hide PrintValue, PrintItems, Indent, When, Progress;
    var inner := items != [] && pretty;
    ghost var before, text := Bytes(buf), "[" + When(inner, "\n");
    ghost var indent := When(inner, Indent(level));
    ArrayPieces(c, items, level, pretty);
    NothingYet(buf, start);
    written := Append(buf, start, 0, "[", before, "");
    written := AppendWhen(inner, buf, start, written, "\n", before, "[");
    written := SerializeItems(c, items, buf, start, written, level, pretty, before, text);
    text := text + PrintItems(c, items, 0, level, pretty);
    written := IndentWhen(inner, buf, start, written, level, before, text);
    written := Append(buf, start, written, "]", before, text + indent);
  }

  lemma ObjectPieces(c: Libc, members: seq<Member>, level: nat, pretty: bool)
    ensures var inner := members != [] && pretty;
            PrintValue(c, Object(members), level, pretty)
            == "{" + When(inner, "\n") + PrintMembers(c, members, 0, level, pretty) + When(inner, Indent(level)) + "}"
  {
  }

  lemma MemberPieces(c: Libc, members: seq<Member>, i: nat, level: nat, pretty: bool)
    requires i <= |members|
    ensures PrintMembers(c, members, i, level, pretty) ==
            if i == |members| then ""
            else
              var value := members[IndexOf(members, members[i].name)].value;
              Element(Pair(members[i].name, PrintValue(c, value, level + 1, pretty), pretty),
                      i == |members| - 1, level, pretty)
              + PrintMembers(c, members, i + 1, level, pretty)
  {
  }

  /** The loop over the members. */
  method SerializeMembers(c: Libc, members: seq<Member>, buf: array?<char>, start: nat, total: nat, level: nat,
                          pretty: bool, ghost before: string, ghost text: string)
    returns (total': nat)
    requires total == |text| && Progress(buf, before, start, text)
    requires Room(buf, start, |text| + |PrintMembers(c, members, 0, level, pretty)|)
    modifies if buf == null then {} else {buf}
    ensures total' == |text + PrintMembers(c, members, 0, level, pretty)|
    ensures Progress(buf, before, start, text + PrintMembers(c, members, 0, level, pretty))
    decreases members, 0
  {
    hide PrintValue, PrintMembers, Element, Pair, Indent, Progress;
    total' := total;
    ghost var all, done := PrintMembers(c, members, 0, level, pretty), "";
    assert text + "" == text;
    var i := 0;
    while i < |members|
      invariant i <= |members|
      invariant total' == |text + done| && Progress(buf, before, start, text + done)
      invariant all == done + PrintMembers(c, members, i, level, pretty)
    {
      var key := members[i].name;
      var value := members[IndexOf(members, key)].value;
      ghost var element := Element(Pair(key, PrintValue(c, value, level + 1, pretty), pretty),
                                   i == |members| - 1, level, pretty);
      MemberPieces(c, members, i, level, pretty);
      Regroup(text, done, element, PrintMembers(c, members, i + 1, level, pretty));
      total' := SerializeMember(c, key, value, i == |members| - 1, buf, start, total', level, pretty,
                                before, text + done);
      done := done + element;
      i := i + 1;
    }
    MemberPieces(c, members, i, level, pretty);
    assert all == done;
  }

  method SerializeObject(c: Libc, members: seq<Member>, buf: array?<char>, start: nat, level: nat, pretty: bool)
    returns (written: nat)
    requires Room(buf, start, |PrintValue(c, Object(members), level, pretty)|)
    modifies if buf == null then {} else {buf}
    ensures written == |PrintValue(c, Object(members), level, pretty)|
    ensures Progress(buf, old(Bytes(buf)), start, PrintValue(c, Object(members), level, pretty))
    ensures buf != null ==> buf[start + written] == '\0'
    decreases members, 1
  {
    hide PrintValue, PrintMembers, Indent, When, Progress;
    var inner := members != [] && pretty;
    ghost var before, text := Bytes(buf), "{" + When(inner, "\n");
    ghost var indent := When(inner, Indent(level));
    ObjectPieces(c, members, level, pretty);
    NothingYet(buf, start);
    written := Append(buf, start, 0, "{", before, "");
    written := AppendWhen(inner, buf, start, written, "\n", before, "{");
    written := SerializeMembers(c, members, buf, start, written, level, pretty, before, text);
    text := text + PrintMembers(c, members, 0, level, pretty);
    written := IndentWhen(inner, buf, start, written, level, before, text);
    written := Append(buf, start, written, "}", before, text + indent);
  }

  lemma NothingYet(buf: array?<char>, start: nat)
    requires buf != null ==> start < buf.Length
    ensures Progress(buf, Bytes(buf), start, "")
    ensures "" + "[" == "[" && "" + "{" == "{"
  {
  }

  method SerializeName(name: CString, buf: array?<char>, start: nat, total: nat, ghost before: string,
                       ghost text: string) returns (total': nat)
    requires total == |text| && Progress(buf, before, start, text) && Room(buf, start, |text| + |PrintString(name)|)
    modifies if buf == null then {} else {buf}
    ensures total' == |text + PrintString(name)| && Progress(buf, before, start, text + PrintString(name))
  {
    ghost var b := Bytes(buf);
    var written := SerializeString(name, buf, start + total);
    if buf != null {
      WroteBoth(before, b, buf[..], start, text, PrintString(name));
    }
    total' := total + written;
  }

  // ---------------------------------------------------------------- the API

  /** json_serialization_size and json_serialization_size_pretty */
  method SerializationSize(c: Libc, v: Value, pretty: bool) returns (size: nat)
    ensures size == |PrintValue(c, v, 0, pretty)| + 1
  {
    var res := Serialize(c, v, null, 0, 0, pretty);
    size := res + 1;
  }

  lemma FullBuffer(before: string, after: string, text: string)
    requires Wrote(before, after, 0, text) && after[|text|] == '\0'
    ensures after == text + "\0" + before[|text| + 1..]
  {
  }

  /** json_serialize_to_buffer: nothing is written unless the text and its terminator fit. */
  method SerializeToBuffer(c: Libc, v: Value, buf: array<char>, size: nat, pretty: bool) returns (ok: bool)
    requires size <= buf.Length
    modifies buf
    ensures ok <==> |PrintValue(c, v, 0, pretty)| < size
    ensures ok ==> var text := PrintValue(c, v, 0, pretty);
                   buf[..] == text + "\0" + old(buf[..])[|text| + 1..]
    ensures !ok ==> buf[..] == old(buf[..])
  {
    hide PrintValue;
    var needed := SerializationSize(c, v, pretty);
    if size < needed {
      return false;
    }
    var written := Serialize(c, v, buf, 0, 0, pretty);
    ghost var text := PrintValue(c, v, 0, pretty);
    FullBuffer(old(buf[..]), buf[..], text);
    ok := true;
  }

  /** json_serialize_to_string: the buffer it sizes is filled to the last byte. */
  method SerializeToString(c: Libc, v: Value, pretty: bool) returns (buf: array<char>)
    ensures fresh(buf) && buf[..] == PrintValue(c, v, 0, pretty) + "\0"
  {
    var size := SerializationSize(c, v, pretty);
    buf := new char[size];
    var ok := SerializeToBuffer(c, v, buf, size, pretty);
  }
}
