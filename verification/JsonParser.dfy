/**
 The parser of parson.c in its own form: recursive methods that advance one shared
 cursor, write string bytes through an output pointer, and build objects and arrays
 in place. Each is proved to read what the corresponding JsonReader function reads.
 */
module JsonParser {
  import opened Common
  import opened JsonText
  import opened JsonReader
  import opened JsonSlots
  import opened JsonStore

  lemma StepRest(text: string, pos: nat, n: nat)
    requires pos + n <= |text|
    ensures text[pos..][n..] == text[pos + n..]
  {
  }

  // ---------------------------------------------------------------- strings

  function CharAt(text: string, i: nat): (c: char)
    ensures i <= |text| ==> c == Head(text[i..])
  {
    if i < |text| then text[i] else '\0'
  }

  /** What parse_utf_16 may assume: the bytes of the escape fit the output. */
  predicate Fits(e: Option<Escaped>, o: nat, size: nat) {
    e.Some? ==> o + |e.value.bytes| <= size
  }

  /** is_utf16_hex and sscanf("%4x") at an index. */
  method ReadHex4(text: string, i: nat) returns (cp: Option<nat>)
    requires i <= |text|
    ensures cp == Hex4(text[i..])
  {
    if IsXDigit(CharAt(text, i)) && IsXDigit(CharAt(text, i + 1)) && IsXDigit(CharAt(text, i + 2))
       && IsXDigit(CharAt(text, i + 3)) {
      cp := Some(((HexValue(text[i]) * 16 + HexValue(text[i + 1])) * 16 + HexValue(text[i + 2])) * 16
                 + HexValue(text[i + 3]));
    } else {
      cp := None;
    }
  }

  /** parse_utf_16: both pointers are left on the last char read and the last byte written. */
  method ParseUtf16At(text: string, u: nat, output: array<char>, o: nat) returns (ok: bool, u': nat, o': nat)
    requires u < |text| && o <= output.Length && Fits(ParseUtf16(text[u..]), o, output.Length)
    modifies output
    ensures ok == ParseUtf16(text[u..]).Some?
    ensures ok ==> var e := ParseUtf16(text[u..]).value;
                   u' + 1 == u + e.used && o' + 1 == o + |e.bytes| && output[..o' + 1] == old(output[..o]) + e.bytes
  {
    ok, u', o' := false, u, o;
    StepRest(text, u, 1);
    var read := ReadHex4(text, u + 1);
    if read.None? {
      return;
    }
    var cp := read.value;
    var p := u + 4;
    if 0xD800 <= cp <= 0xDFFF {
      if cp > 0xDBFF || CharAt(text, p + 1) != '\\' || CharAt(text, p + 2) != 'u' {
        return;
      }
      StepRest(text, u, 7);
      var trail := ReadHex4(text, p + 3);
      if trail.None? || trail.value < 0xDC00 || trail.value > 0xDFFF {
        return;
      }
      cp := (cp - 0xD800) * 0x400 + (trail.value - 0xDC00) + 0x10000;
      p := p + 6;
    }
    assert ParseUtf16(text[u..]) == Some(Escaped(Utf8(cp), p - u + 1));
    ok, u' := true, p;
    o' := WriteUtf8(cp, output, o);
  }

  /** The bytes of a code point; the pointer is left on the last one. */
  method WriteUtf8(cp: nat, output: array<char>, o: nat) returns (o': nat)
    requires cp < 0x110000 && o + |Utf8(cp)| <= output.Length
    modifies output
    ensures o' + 1 == o + |Utf8(cp)| && output[..o' + 1] == old(output[..o]) + Utf8(cp)
  {
    o' := o;
    if cp < 0x80 {
      output[o'] := cp as char;
    } else if cp < 0x800 {
      output[o'] := (cp / 0x40 + 0xC0) as char;
      o' := o' + 1;
      output[o'] := (cp % 0x40 + 0x80) as char;
    } else if cp < 0x10000 {
      output[o'] := (cp / 0x1000 + 0xE0) as char;
      output[o' + 1] := (cp / 0x40 % 0x40 + 0x80) as char;
      o' := o' + 2;
      output[o'] := (cp % 0x40 + 0x80) as char;
    } else {
      output[o'] := (cp / 0x40000 + 0xF0) as char;
      output[o' + 1] := (cp / 0x1000 % 0x40 + 0x80) as char;
      output[o' + 2] := (cp / 0x40 % 0x40 + 0x80) as char;
      o' := o' + 3;
      output[o'] := (cp % 0x40 + 0x80) as char;
    }
    assert output[..o] == old(output[..o]);
  }

  /** The closing quote of the string being read is at index e. */
  ghost predicate ClosesAt(text: string, i: nat, e: nat)
    requires i <= |text|
  {
    e + 1 < |text| && SkipBody(text[i..]) == text[e + 1..]
  }

  /** Reading a char or an escape sequence never passes the closing quote. */
  lemma StaysInside(text: string, i: nat, e: nat)
    requires i < |text| && ClosesAt(text, i, e)
    ensures i <= e && (i < e <==> text[i] != '\"')
    ensures text[i] == '\\' ==> i + 2 <= e && ClosesAt(text, i + 2, e)
    ensures i < e && text[i] != '\\' ==> ClosesAt(text, i + 1, e)
  {
  }

  lemma HexInside(text: string, i: nat, e: nat)
    requires i < |text| && ClosesAt(text, i, e) && Hex4(text[i..]).Some?
    ensures i + 4 <= e && ClosesAt(text, i + 4, e)
  {
    StaysInside(text, i, e);
    StaysInside(text, i + 1, e);
    StaysInside(text, i + 2, e);
    StaysInside(text, i + 3, e);
  }

  lemma Utf16Inside(text: string, i: nat, e: nat)
    requires i + 1 < |text| && text[i] == '\\' && text[i + 1] == 'u' && ClosesAt(text, i, e)
    requires ParseUtf16(text[i + 1..]).Some?
    ensures var esc := ParseUtf16(text[i + 1..]).value;
            i + 1 + esc.used <= e && ClosesAt(text, i + 1 + esc.used, e) && |esc.bytes| < esc.used
  {
    StaysInside(text, i, e);
    StepRest(text, i + 1, 1);
    HexInside(text, i + 2, e);
    var used := ParseUtf16(text[i + 1..]).value.used;
    if used == 11 {
      StaysInside(text, i + 6, e);
      StepRest(text, i + 1, 7);
      HexInside(text, i + 8, e);
    }
  }

  /** What the function does at index i of a string that closes at e. */
  lemma ProcessStep(text: string, i: nat, e: nat)
    requires i < e < |text| && ClosesAt(text, i, e)
    ensures text[i] == '\\' && text[i + 1] == 'u' ==>
              var esc := ParseUtf16(text[i + 1..]);
              ProcessString(text[i..], e - i) ==
              if esc.None? then None
              else Prepend(esc.value.bytes, ProcessString(text[i + 1 + esc.value.used..], e - (i + 1 + esc.value.used)))
    ensures text[i] == '\\' && text[i + 1] != 'u' ==>
              var c := Unescape(text[i + 1]);
              ProcessString(text[i..], e - i) ==
              if c.None? then None else Prepend([c.value], ProcessString(text[i + 2..], e - (i + 2)))
    ensures text[i] != '\\' ==>
              ProcessString(text[i..], e - i) ==
              if text[i] < 0x20 as char then None else Prepend([text[i]], ProcessString(text[i + 1..], e - (i + 1)))
  {
  }

  lemma PrependTwice(a: string, b: string, r: Option<string>)
    ensures Prepend(a, Prepend(b, r)) == Prepend(a + b, r)
    ensures Prepend("", r) == r
  {
    if r.Some? {
      assert a + (b + r.value) == a + b + r.value;
      assert "" + r.value == r.value;
    }
  }

  /** process_string: len + 1 bytes of output are always enough. */
  method ProcessStringAt(text: CString, start: nat, len: nat) returns (r: Option<string>)
    requires start <= |text| && ClosesAt(text, start, start + len)
    ensures r == ProcessString(text[start..], len)
  {
    hide ProcessString, SkipBody, ParseUtf16, Hex4, Utf8;
    var output := new char[len + 1];
    var i, o := start, 0;
    ghost var e := start + len;
    ghost var all := ProcessString(text[start..], len);
    PrependTwice("", "", all);
    while CharAt(text, i) != '\0' && i - start < len
      invariant start <= i <= e && o <= i - start && ClosesAt(text, i, e)
      invariant all == Prepend(output[..o], ProcessString(text[i..], e - i))
      decreases e - i
    {
      StaysInside(text, i, e);
      ProcessStep(text, i, e);
      ghost var done, bytes := output[..o], [text[i]];
      if text[i] == '\\' {
        i := i + 1;
        if CharAt(text, i) == 'u' {
          ghost var esc := ParseUtf16(text[i..]);
          if esc.Some? {
            Utf16Inside(text, i - 1, e);
            bytes := esc.value.bytes;
          }
          var ok;
          ok, i, o := ParseUtf16At(text, i, output, o);
          if !ok {
            return None;
          }
        } else {
          var c := Unescape(CharAt(text, i));
          if c.None? {
            return None;
          }
          output[o] := c.value;
          bytes := [c.value];
        }
      } else if text[i] < 0x20 as char {
        return None;
      } else {
        output[o] := text[i];
      }
      o := o + 1;
      i := i + 1;
      assert output[..o] == done + bytes;
      PrependTwice(done, bytes, ProcessString(text[i..], e - i));
    }
    ProcessEnd(text, i);
    output[o] := '\0';
    r := Some(output[..o]);
  }

  lemma ProcessEnd(text: string, i: nat)
    requires i <= |text|
    ensures forall a: string :: Prepend(a, ProcessString(text[i..], 0)) == Some(a)
  {
    assert forall a: string :: a + "" == a;
  }

  lemma SkipStep(text: string, i: nat)
    requires i <= |text|
    ensures SkipBody(text[i..]) ==
            if i == |text| then text[i..]
            else if text[i] == '\"' then text[i + 1..]
            else if text[i] != '\\' then SkipBody(text[i + 1..])
            else if i + 1 == |text| then text[i + 1..] else SkipBody(text[i + 2..])
  {
  }

  // ---------------------------------------------------------------- the cursor

  class Cursor {
    const text: CString
    var pos: nat

    ghost predicate Valid()
      reads this
    {
      pos <= |text|
    }

    /** What is left to read. */
    ghost function Rest(): string
      requires Valid()
      reads this
    {
      text[pos..]
    }

    constructor (text: CString)
      ensures Valid() && pos == 0 && this.text == text
    {
      this.text := text;
      pos := 0;
    }

    /** The char at an index; the terminating NUL at the end. */
    function At(i: nat): (c: char)
      requires i <= |text|
      ensures c == Head(text[i..])
    {
      if i < |text| then text[i] else '\0'
    }

    method SkipWhitespaces()
      requires Valid()
      modifies this
      ensures Valid() && Rest() == SkipSpaces(old(Rest())) && old(pos) <= pos
    {
      while IsSpace(At(pos))
        invariant Valid() && old(pos) <= pos
        invariant SkipSpaces(Rest()) == SkipSpaces(old(Rest()))
        decreases |text| - pos
      {
        StepRest(text, pos, 1);
        pos := pos + 1;
      }
    }

    method SkipQuotes()
      requires Valid() && pos < |text|
      modifies this
      ensures Valid() && Rest() == SkipBody(old(Rest())[1..]) && old(pos) < pos
    {
      hide SkipBody;
      StepRest(text, pos, 1);
      pos := pos + 1;
      while At(pos) != '\"'
        invariant Valid() && old(pos) < pos
        invariant SkipBody(Rest()) == SkipBody(old(Rest())[1..])
        decreases |text| - pos
      {
        SkipStep(text, pos);
        if At(pos) == '\0' {
          return;
        }
        if At(pos) == '\\' {
          pos := pos + 1;
          if At(pos) == '\0' {
            return;
          }
        }
        pos := pos + 1;
      }
      SkipStep(text, pos);
      pos := pos + 1;
    }

    method GetQuotedString() returns (r: Option<CString>)
      requires Valid() && pos < |text|
      modifies this
      ensures Valid() && old(pos) <= pos
      ensures var q := GetQuoted(old(Rest()));
              if q.None? then r.None? else r == Some(q.value.str) && Rest() == q.value.rest && old(pos) < pos
    {
      var start := pos;
      StepRest(text, start, 1);
      SkipQuotes();
      if At(pos) == '\0' {
        return None;
      }
      ClosingQuote(text, start + 1, pos);
      var bytes := ProcessStringAt(text, start + 1, pos - start - 2);
      r := if bytes.None? then None else Some(CStr(bytes.value));
    }

    method ParseNumberValue(c: Libc) returns (r: Option<Value>)
      requires Valid()
      modifies this
      ensures Agrees(r, ParseNumber(c, old(Rest())))
      ensures Valid() && old(pos) <= pos
    {
      var (num, end) := c.strtod(text[pos..]);
      if !IsDecimal(text[pos..][..end]) {
        return None;
      }
      StepRest(text, pos, end);
      pos := pos + end;
      r := Some(Number(num));
    }

    /** A method's result against the function's: same value, and the cursor on the same text. */
    ghost predicate Agrees(r: Option<Value>, spec: Option<Parsed>)
      reads this
    {
      && Valid()
      && (r.Some? <==> spec.Some?)
      && (r.Some? ==> spec.value == Parsed(r.value, Rest()))
    }

    /** strncmp with a keyword, and the step over it. */
    method Accept(word: string) returns (ok: bool)
      requires Valid()
      modifies this
      ensures Valid() && ok == (word <= old(Rest()))
      ensures if ok then Rest() == old(Rest())[|word|..] && pos == old(pos) + |word| else pos == old(pos)
    {
      ok := word <= text[pos..];
      if ok {
        StepRest(text, pos, |word|);
        pos := pos + |word|;
      }
    }

    method ParseStringValue() returns (r: Option<Value>)
      requires Valid() && pos < |text|
      modifies this
      ensures Agrees(r, ParseString(old(Rest())))
      ensures old(pos) <= pos
    {
      var str := GetQuotedString();
      r := if str.None? then None else Some(String(str.value));
    }

    method ParseBooleanValue() returns (r: Option<Value>)
      requires Valid()
      modifies this
      ensures Agrees(r, ParseBoolean(old(Rest())))
      ensures old(pos) <= pos
    {
      var ok := Accept("true");
      if ok {
        return Some(Boolean(true));
      }
      ok := Accept("false");
      r := if ok then Some(Boolean(false)) else None;
    }

    method ParseNullValue() returns (r: Option<Value>)
      requires Valid()
      modifies this
      ensures Agrees(r, ParseWord(old(Rest()), "null", Null))
      ensures old(pos) <= pos
    {
      var ok := Accept("null");
      r := if ok then Some(Null) else None;
    }

    method ParseAnyValue(c: Libc, nesting: nat) returns (r: Option<Value>)
      requires Valid()
      modifies this
      ensures Agrees(r, ParseValue(c, old(Rest()), nesting))
      ensures old(pos) <= pos
      decreases |text| - pos, 2
    {
      if nesting > MAX_NESTING {
        return None;
      }
      SkipWhitespaces();
      match At(pos)
      case '{' => r := ParseObjectValue(c, nesting + 1);
      case '[' => r := ParseArrayValue(c, nesting + 1);
      case '\"' => r := ParseStringValue();
      case 'f' => r := ParseBooleanValue();
      case 't' => r := ParseBooleanValue();
      case 'n' => r := ParseNullValue();
      case h =>
        if h == '-' || IsDigit(h) {
          r := ParseNumberValue(c);
        } else {
          r := None;
        }
    }

    /** The step over one char. */
    method SkipChar()
      requires Valid() && pos < |text|
      modifies this
      ensures Valid() && pos == old(pos) + 1 && Rest() == old(Rest())[1..]
    {
      StepRest(text, pos, 1);
      pos := pos + 1;
    }

    /** The part of parse_object_value's loop that reads one name and value. */
    method ParsePair(c: Libc, nesting: nat) returns (r: Option<Member>)
      requires Valid() && pos < |text|
      modifies this
      ensures Valid() && old(pos) <= pos
      ensures var m := ParseMember(c, old(Rest()), nesting);
              if m.None? then r.None? else r == Some(m.value.member) && Rest() == m.value.rest && old(pos) < pos
      decreases |text| - pos, 3
    {
      var key := GetQuotedString();
      if key.None? {
        return None;
      }
      SkipWhitespaces();
      if At(pos) != ':' {
        return None;
      }
      SkipChar();
      var v := ParseAnyValue(c, nesting);
      r := if v.None? then None else Some(Member(key.value, v.value));
    }

    /** The part of parse_object_value's loop that reads one pair and adds it to the object. */
    method ParseInto(c: Libc, nesting: nat, obj: JsonObject<Value>) returns (ok: bool)
      requires Valid() && pos < |text| && obj.Valid() && Grows(obj.Slots())
      modifies this, obj, obj.names, obj.values
      ensures Valid() && old(pos) <= pos && obj.Valid()
      ensures obj.names == old(obj.names) || fresh(obj.names)
      ensures obj.values == old(obj.values) || fresh(obj.values)
      ensures var m := ParseMember(c, old(Rest()), nesting); var acc := old(Members(obj.Slots()));
              && ok == (m.Some? && CanAdd(acc, m.value.member.name))
              && (ok ==> Grows(obj.Slots()) && Members(obj.Slots()) == acc + [m.value.member])
              && (ok ==> Rest() == m.value.rest && old(pos) < pos)
      decreases |text| - pos, 4
    {
      hide *;
      ghost var slots := obj.Slots();
      var m := ParsePair(c, nesting);
      if m.None? {
        return false;
      }
      assert obj.Slots() == slots;
      AddMember(slots, m.value.name, m.value.value);
      ok := obj.Add(m.value.name, m.value.value);
    }

    method ParseObjectValue(c: Libc, nesting: nat) returns (r: Option<Value>)
      requires Valid() && pos < |text|
      modifies this
      ensures Agrees(r, ParseObject(c, old(Rest()), nesting))
      ensures old(pos) <= pos
      decreases |text| - pos, 1
    {
      hide ParseMember, SkipSpaces, CanAdd, Grows, Members, WellFormed;
      EmptyObject();
      var obj := new JsonObject<Value>();
      ghost var spec := ParseObject(c, Rest(), nesting);
      SkipChar();
      SkipWhitespaces();
      if At(pos) == '}' {
        SkipChar();
        return Some(Object([]));
      }
      while At(pos) != '\0'
        invariant Valid() && old(pos) < pos
        invariant obj.Valid() && fresh(obj) && fresh(obj.names) && fresh(obj.values)
        invariant Grows(obj.Slots())
        invariant spec == ParseMembers(c, Rest(), nesting, Members(obj.Slots()))
        decreases |text| - pos
      {
        var ok := ParseInto(c, nesting, obj);
        if !ok {
          return None;
        }
        SkipWhitespaces();
        if At(pos) != ',' {
          r := CloseObject(obj);
          return;
        }
        SkipChar();
        SkipWhitespaces();
      }
      r := None;
    }

    /** Past the loop: the closing brace, and the arrays trimmed to the members. */
    method CloseObject(obj: JsonObject<Value>) returns (r: Option<Value>)
      requires Valid() && obj.Valid()
      modifies this, obj
      ensures Valid() && old(pos) <= pos
      ensures r == if Head(old(Rest())) == '}' then Some(Object(old(Members(obj.Slots())))) else None
      ensures r.Some? ==> Rest() == old(Rest())[1..]
      ensures obj.Valid() && obj.Slots().names == old(obj.Slots().names)
              && obj.Slots().values == old(obj.Slots().values)
      ensures r.Some? && old(obj.count) > 0 ==> obj.Slots().capacity == old(obj.count)
    {
      if At(pos) != '}' {
        return None;
      }
      ghost var members := Members(obj.Slots());
      var ok := obj.Resize(obj.count);
      SkipChar();
      assert Members(obj.Slots()) == members;
      r := Some(Object(Members(obj.Slots())));
    }

    /** The part of parse_array_value's loop that reads one value and adds it to the array. */
    method ParseItem(c: Libc, nesting: nat, arr: JsonArray<Value>) returns (ok: bool)
      requires Valid() && pos < |text| && arr.Valid() && Doubled(arr.count, arr.capacity, ARRAY_MAX_CAPACITY)
      modifies this, arr, arr.items
      ensures Valid() && old(pos) <= pos && arr.Valid()
      ensures arr.items == old(arr.items) || fresh(arr.items)
      ensures var v := ParseValue(c, old(Rest()), nesting);
              && ok == (v.Some? && |old(arr.Contents())| < ARRAY_MAX_CAPACITY)
              && (ok ==> Doubled(arr.count, arr.capacity, ARRAY_MAX_CAPACITY))
              && (ok ==> arr.Contents() == old(arr.Contents()) + [v.value.value] && Rest() == v.value.rest)
      decreases |text| - pos, 3
    {
      hide ParseValue, IsDoubling;
      var v := ParseAnyValue(c, nesting);
      if v.None? {
        return false;
      }
      DoublingArray();
      DoubledStep(arr.count, arr.capacity, ARRAY_MAX_CAPACITY);
      ok := arr.Add(v.value);
    }

    method ParseArrayValue(c: Libc, nesting: nat) returns (r: Option<Value>)
      requires Valid() && pos < |text|
      modifies this
      ensures Agrees(r, ParseArray(c, old(Rest()), nesting))
      ensures old(pos) <= pos
      decreases |text| - pos, 1
    {
      hide ParseValue, SkipSpaces, Doubled;
      DoublingArray();
      var arr := new JsonArray<Value>();
      ghost var spec := ParseArray(c, Rest(), nesting);
      SkipChar();
      SkipWhitespaces();
      if At(pos) == ']' {
        SkipChar();
        return Some(Array([]));
      }
      while At(pos) != '\0'
        invariant Valid() && old(pos) < pos
        invariant arr.Valid() && fresh(arr) && fresh(arr.items)
        invariant Doubled(arr.count, arr.capacity, ARRAY_MAX_CAPACITY)
        invariant spec == ParseItems(c, Rest(), nesting, arr.Contents())
        decreases |text| - pos
      {
        var ok := ParseItem(c, nesting, arr);
        if !ok {
          return None;
        }
        SkipWhitespaces();
        if At(pos) != ',' {
          r := CloseArray(arr);
          return;
        }
        SkipChar();
        SkipWhitespaces();
      }
      r := None;
    }

    method CloseArray(arr: JsonArray<Value>) returns (r: Option<Value>)
      requires Valid() && arr.Valid()
      modifies this, arr
      ensures Valid() && old(pos) <= pos
      ensures r == if Head(old(Rest())) == ']' then Some(Array(old(arr.Contents()))) else None
      ensures r.Some? ==> Rest() == old(Rest())[1..]
    {
      if At(pos) != ']' {
        return None;
      }
      var ok := arr.Resize(arr.count);
      SkipChar();
      r := Some(Array(arr.Contents()));
    }
  }

  /** skip_quotes stopped right after a closing quote. */
  lemma ClosingQuote(text: string, start: nat, end: nat)
    requires start <= end < |text| && SkipBody(text[start..]) == text[end..]
    ensures start < end && ClosesAt(text, start, end - 1)
  {
  }

  function Members(s: Slots<Value>): seq<Member>
    requires WellFormed(s)
  {
    seq(|s.names|, i requires 0 <= i < |s.names| => Member(s.names[i], s.values[i]))
  }

  /** The capacities reached from an empty object or array by additions alone. */
  predicate Doubled(count: nat, capacity: nat, max: nat) {
    count <= capacity <= max && (capacity == 0 || IsDoubling(capacity, max))
  }

  predicate IsDoubling(capacity: nat, max: nat)
    decreases max - capacity
  {
    capacity == max || (STARTING_CAPACITY <= capacity && 2 * capacity <= max && IsDoubling(2 * capacity, max))
  }

  lemma DoublingObject()
    ensures IsDoubling(15, OBJECT_MAX_CAPACITY)
  {
  }

  lemma DoublingArray()
    ensures IsDoubling(15, ARRAY_MAX_CAPACITY) && Doubled(0, 0, ARRAY_MAX_CAPACITY)
  {
  }

  lemma DoubledStep(count: nat, capacity: nat, max: nat)
    requires Doubled(count, capacity, max) && IsDoubling(STARTING_CAPACITY, max) && max >= STARTING_CAPACITY
    ensures (count < capacity || Grown(capacity) <= max) <==> count < max
    ensures count < max ==> Doubled(count + 1, if count == capacity then Grown(capacity) else capacity, max)
  {
  }

  predicate Grows(s: Slots<Value>) {
    Doubled(|s.names|, s.capacity, OBJECT_MAX_CAPACITY)
  }

  lemma EmptyObject()
    ensures Grows(Slots.Slots([], [], 0)) && Members(Slots.Slots([], [], 0)) == []
  {
  }

  /** On an object built by additions alone, adding fails only for a known name or at the maximum. */
  lemma AddMember(s: Slots<Value>, name: CString, v: Value)
    requires WellFormed(s) && Grows(s)
    ensures var (t, ok) := JsonSlots.Add(s, name, v);
            && ok == CanAdd(Members(s), name)
            && (ok ==> WellFormed(t) && Grows(t) && Members(t) == Members(s) + [Member(name, v)])
  {
    DoublingObject();
    DoubledStep(|s.names|, s.capacity, OBJECT_MAX_CAPACITY);
    var (t, ok) := JsonSlots.Add(s, name, v);
    if name in s.names {
      var k := Find(s.names, name);
      assert Members(s)[k].name == name;
    } else if ok {
      assert Members(t) == Members(s) + [Member(name, v)];
    }
  }

  /** json_parse_string */
  method ParseJson(c: Libc, text: CString) returns (r: Option<Value>)
    ensures r == JsonParse(c, text)
  {
    var cursor := new Cursor(text);
    cursor.SkipWhitespaces();
    if cursor.At(cursor.pos) != '{' && cursor.At(cursor.pos) != '[' {
      return None;
    }
    r := cursor.ParseAnyValue(c, 0);
  }
}
