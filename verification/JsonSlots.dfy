/**
 The abstract value of a JSON_Object, two parallel sequences and a capacity, with
 its operations, which are shown to act on the map the sequences stand for.
 */
module JsonSlots {
  import opened Common
  import opened JsonText

  const STARTING_CAPACITY := 15

  datatype Slots<V> = Slots(names: seq<CString>, values: seq<V>, capacity: nat)

  predicate Distinct(names: seq<string>) {
    forall i, j :: 0 <= i < j < |names| ==> names[i] != names[j]
  }

  predicate WellFormed<V>(s: Slots<V>) {
    |s.names| == |s.values| <= s.capacity <= OBJECT_MAX_CAPACITY && Distinct(s.names)
  }

  /** The first index of name, or the length when it is absent. */
  function Find(names: seq<string>, name: string): (r: nat)
    ensures r <= |names|
    ensures r < |names| ==> names[r] == name
    ensures forall k :: 0 <= k < r ==> names[k] != name
  {
    if names == [] || names[0] == name then 0 else 1 + Find(names[1..], name)
  }

  function Grown(capacity: nat): nat {
    if 2 * capacity > STARTING_CAPACITY then 2 * capacity else STARTING_CAPACITY
  }

  /** Whether an addition finds room, growing the arrays if they are full. */
  predicate HasRoom(count: nat, capacity: nat) {
    count < capacity || Grown(capacity) <= OBJECT_MAX_CAPACITY
  }

  function Reserved<V>(s: Slots<V>): Slots<V> {
    if |s.names| >= s.capacity then s.(capacity := Grown(s.capacity)) else s
  }

  function Add<V>(s: Slots<V>, name: CString, v: V): (r: (Slots<V>, bool)) {
    if !HasRoom(|s.names|, s.capacity) then (s, false)
    else
      var t := Reserved(s);
      if name in s.names then (t, false)
      else (Slots(t.names + [name], t.values + [v], t.capacity), true)
  }

  function Set<V>(s: Slots<V>, name: CString, v: V): (r: (Slots<V>, bool))
    requires WellFormed(s)
  {
    var i := Find(s.names, name);
    if i < |s.names| then (s.(values := s.values[i := v]), true) else Add(s, name, v)
  }

  /** The last pair takes the place of the removed one. */
  function Remove<V>(s: Slots<V>, name: CString): (r: (Slots<V>, bool))
    requires WellFormed(s)
  {
    var i := Find(s.names, name);
    var last := |s.names| - 1;
    if i > last then (s, false)
    else (Slots(s.names[i := s.names[last]][..last], s.values[i := s.values[last]][..last], s.capacity), true)
  }

  function Get<V>(s: Slots<V>, name: string): Option<V>
    requires WellFormed(s)
  {
    var i := Find(s.names, name);
    if i < |s.names| then Some(s.values[i]) else None
  }

  lemma {:induction false} FindAppended(names: seq<string>, name: string, other: string)
    ensures Find(names + [name], other) ==
            if Find(names, other) < |names| || other == name then Find(names, other) else |names| + 1
  {
    if names != [] && names[0] != other {
      assert (names + [name])[1..] == names[1..] + [name];
      FindAppended(names[1..], name, other);
    }
  }

  /** What an addition does to the lookup of any name. */
  lemma AddLookup<V>(s: Slots<V>, name: CString, v: V, other: string)
    requires WellFormed(s)
    ensures var (t, ok) := Add(s, name, v);
            && WellFormed(t)
            && (ok <==> Get(s, name).None? && HasRoom(|s.names|, s.capacity))
            && Get(t, other) == if ok && other == name then Some(v) else Get(s, other)
  {
    FindAppended(s.names, name, other);
    assert name in s.names <==> Find(s.names, name) < |s.names|;
  }

  /** What setting does to the lookup of any name. */
  lemma SetLookup<V>(s: Slots<V>, name: CString, v: V, other: string)
    requires WellFormed(s)
    ensures var (t, ok) := Set(s, name, v);
            && WellFormed(t)
            && (ok <==> Get(s, name).Some? || HasRoom(|s.names|, s.capacity))
            && Get(t, other) == if ok && other == name then Some(v) else Get(s, other)
  {
    AddLookup(s, name, v, other);
  }

  /** Arrays cut to the members they hold can take one more exactly up to 480 of them. */
  lemma TrimmedAdds<V>(s: Slots<V>, name: CString, v: V)
    requires WellFormed(s) && s.capacity == |s.names| > 0
    ensures Add(s, name, v).1 <==> name !in s.names && |s.names| <= 480
  {
  }

  // ---------------------------------------------------------------- objects are maps

  /** The map an object stands for. */
  ghost predicate Represents<V>(s: Slots<V>, m: map<CString, V>) {
    && (forall i :: 0 <= i < |s.names| && i < |s.values| ==> s.names[i] in m && m[s.names[i]] == s.values[i])
    && (forall name :: name in m ==> name in s.names)
  }

  lemma GetIsLookup<V>(s: Slots<V>, m: map<CString, V>, name: CString)
    requires WellFormed(s) && Represents(s, m)
    ensures Get(s, name) == if name in m then Some(m[name]) else None
  {
  }

  /** Adding succeeds exactly for a new name when there is room, and otherwise changes no lookup. */
  lemma AddExtends<V>(s: Slots<V>, m: map<CString, V>, name: CString, v: V)
    requires WellFormed(s) && Represents(s, m)
    ensures var (t, ok) := Add(s, name, v);
            && WellFormed(t)
            && (ok <==> name !in m && HasRoom(|s.names|, s.capacity))
            && Represents(t, if ok then m[name := v] else m)
  {
  }

  /** Setting succeeds exactly for a known name or when there is room. */
  lemma SetUpdates<V>(s: Slots<V>, m: map<CString, V>, name: CString, v: V)
    requires WellFormed(s) && Represents(s, m)
    ensures var (t, ok) := Set(s, name, v);
            && WellFormed(t)
            && (ok <==> name in m || HasRoom(|s.names|, s.capacity))
            && Represents(t, if ok then m[name := v] else m)
  {
    AddExtends(s, m, name, v);
    var i := Find(s.names, name);
    if i < |s.names| {
      var t := Set(s, name, v).0;
      assert forall k :: 0 <= k < |s.names| && k != i ==> t.values[k] == s.values[k] && s.names[k] != name;
    }
  }

  lemma RemovedPairs<V>(s: Slots<V>, name: CString)
    requires WellFormed(s) && name in s.names
    ensures var t := Remove(s, name).0; var i := Find(s.names, name); var last := |s.names| - 1;
            && |t.names| == |t.values| == last
            && (forall k :: 0 <= k < last ==> t.names[k] == s.names[if k == i then last else k])
            && (forall k :: 0 <= k < last ==> t.values[k] == s.values[if k == i then last else k])
  {
  }

  lemma RemovedWellFormed<V>(s: Slots<V>, name: CString)
    requires WellFormed(s)
    ensures WellFormed(Remove(s, name).0)
  {
  }

  /** Removing succeeds exactly for a known name, and no other name is lost. */
  lemma RemoveDeletes<V>(s: Slots<V>, m: map<CString, V>, name: CString)
    requires WellFormed(s) && Represents(s, m)
    ensures var (t, ok) := Remove(s, name);
            && WellFormed(t)
            && (ok <==> name in m)
            && Represents(t, m - {name})
            && |t.names| == |s.names| - (if ok then 1 else 0)
  {
    RemovedWellFormed(s, name);
    if name in s.names {
      RemovedPairs(s, name);
      RemovedKeepsOthers(s, m, name);
    } else {
      assert m - {name} == m;
    }
  }

  lemma RemovedKeepsOthers<V>(s: Slots<V>, m: map<CString, V>, name: CString)
    requires WellFormed(s) && Represents(s, m) && name in s.names
    ensures forall other :: other in m - {name} ==> other in Remove(s, name).0.names
  {
    var t := Remove(s, name).0;
    var i := Find(s.names, name);
    RemovedPairs(s, name);
    forall other | other in m - {name}
      ensures other in t.names
    {
      var k := Find(s.names, other);
      assert t.names[if k == |s.names| - 1 then i else k] == other;
    }
  }
}
