/**
 JSON_Object and JSON_Array: growable arrays updated in place. An object keeps its
 names and values in two parallel arrays.
 */
module JsonStore {
  import opened Common
  import opened JsonText
  import opened JsonSlots

  // ---------------------------------------------------------------- the array-backed object

  class JsonObject<V(0)> {
    var names: array<CString>
    var values: array<V>
    var count: nat
    var capacity: nat

    ghost predicate Valid()
      reads this, names, values
    {
      && names.Length == values.Length == capacity <= OBJECT_MAX_CAPACITY
      && count <= capacity
      && Distinct(names[..count])
      && (names as object) != (values as object)
    }

    function Slots(): (s: Slots<V>)
      requires Valid()
      reads this, names, values
      ensures WellFormed(s)
    {
      JsonSlots.Slots.Slots(names[..count], values[..count], capacity)
    }

    constructor ()
      ensures Valid() && fresh(names) && fresh(values)
      ensures Slots() == JsonSlots.Slots.Slots([], [], 0)
    {
      names := new CString[0];
      values := new V[0];
      count, capacity := 0, 0;
    }

    /** json_object_resize: the pairs move to new arrays of the given size. */
    method Resize(newCapacity: nat) returns (ok: bool)
      requires Valid() && count <= newCapacity <= OBJECT_MAX_CAPACITY
      modifies this
      ensures Valid() && ok == (newCapacity > 0)
      ensures Slots() == old(Slots()).(capacity := if ok then newCapacity else old(capacity))
      ensures if ok then fresh(names) && fresh(values) else names == old(names) && values == old(values)
    {
      if newCapacity == 0 {
        return false;
      }
      var newNames := new CString[newCapacity];
      var newValues := new V[newCapacity];
      for i := 0 to count
        modifies newNames, newValues
        invariant newNames[..i] == names[..i] && newValues[..i] == values[..i]
      {
        newNames[i], newValues[i] := names[i], values[i];
      }
      names, values, capacity := newNames, newValues, newCapacity;
      ok := true;
    }

    /** json_object_nget_value on a whole name: the index found, or count. */
    method FindIndex(name: CString) returns (i: nat)
      requires Valid()
      ensures i == Find(Slots().names, name)
    {
      ghost var all := names[..count];
      i := 0;
      while i < count
        invariant i <= count
        invariant Find(all, name) == i + Find(all[i..], name)
      {
        if names[i] == name {
          return;
        }
        i := i + 1;
      }
    }

    method Add(name: CString, v: V) returns (ok: bool)
      requires Valid()
      modifies this, names, values
      ensures Valid()
      ensures (Slots(), ok) == JsonSlots.Add(old(Slots()), name, v)
      ensures names == old(names) || fresh(names)
      ensures values == old(values) || fresh(values)
    {
      if count >= capacity {
        var newCapacity := if 2 * capacity > STARTING_CAPACITY then 2 * capacity else STARTING_CAPACITY;
        if newCapacity > OBJECT_MAX_CAPACITY {
          return false;
        }
        var resized := Resize(newCapacity);
      }
      var i := FindIndex(name);
      if i < count {
        return false;
      }
      Append(name, v);
      ok := true;
    }

    method Append(name: CString, v: V)
      requires Valid() && count < capacity && name !in Slots().names
      modifies this, names, values
      ensures Valid() && names == old(names) && values == old(values)
      ensures Slots() == JsonSlots.Slots.Slots(old(Slots()).names + [name], old(Slots()).values + [v], old(capacity))
    {
      names[count], values[count] := name, v;
      count := count + 1;
      assert names[..count] == old(names[..count]) + [name];
      assert values[..count] == old(values[..count]) + [v];
    }

    method Set(name: CString, v: V) returns (ok: bool)
      requires Valid()
      modifies this, names, values
      ensures Valid()
      ensures (Slots(), ok) == JsonSlots.Set(old(Slots()), name, v)
    {
      var i := FindIndex(name);
      if i < count {
        values[i] := v;
        return true;
      }
      ok := Add(name, v);
    }

    method Remove(name: CString) returns (ok: bool)
      requires Valid()
      modifies this, names, values
      ensures Valid()
      ensures (Slots(), ok) == JsonSlots.Remove(old(Slots()), name)
    {
      var i := FindIndex(name);
      if i >= count {
        return false;
      }
      var last := count - 1;
      if i != last {
        names[i], values[i] := names[last], values[last];
      }
      count := last;
      assert names[..count] == JsonSlots.Remove(old(Slots()), name).0.names;
      assert values[..count] == JsonSlots.Remove(old(Slots()), name).0.values;
      RemovedWellFormed(old(Slots()), name);
      ok := true;
    }
  }

  // ---------------------------------------------------------------- the growable array

  class JsonArray<V(0)> {
    var items: array<V>
    var count: nat
    var capacity: nat

    ghost predicate Valid()
      reads this, items
    {
      items.Length == capacity <= ARRAY_MAX_CAPACITY && count <= capacity
    }

    function Contents(): seq<V>
      requires Valid()
      reads this, items
    {
      items[..count]
    }

    constructor ()
      ensures Valid() && fresh(items) && Contents() == [] && capacity == 0
    {
      items := new V[0];
      count, capacity := 0, 0;
    }

    method Resize(newCapacity: nat) returns (ok: bool)
      requires Valid() && count <= newCapacity <= ARRAY_MAX_CAPACITY
      modifies this
      ensures Valid() && ok == (newCapacity > 0) && Contents() == old(Contents())
      ensures capacity == if ok then newCapacity else old(capacity)
      ensures if ok then fresh(items) else items == old(items)
    {
      if newCapacity == 0 {
        return false;
      }
      var newItems := new V[newCapacity];
      for i := 0 to count
        modifies newItems
        invariant newItems[..i] == items[..i]
      {
        newItems[i] := items[i];
      }
      items, capacity := newItems, newCapacity;
      ok := true;
    }

    method Add(v: V) returns (ok: bool)
      requires Valid()
      modifies this, items
      ensures Valid()
      ensures ok <==> old(count) < old(capacity) || Grown(old(capacity)) <= ARRAY_MAX_CAPACITY
      ensures Contents() == if ok then old(Contents()) + [v] else old(Contents())
      ensures capacity == if ok && old(count) == old(capacity) then Grown(old(capacity)) else old(capacity)
      ensures items == old(items) || fresh(items)
    {
      if count >= capacity {
        var newCapacity := if 2 * capacity > STARTING_CAPACITY then 2 * capacity else STARTING_CAPACITY;
        if newCapacity > ARRAY_MAX_CAPACITY {
          return false;
        }
        var resized := Resize(newCapacity);
      }
      ghost var before := Contents();
      items[count] := v;
      count := count + 1;
      assert items[..count] == before + [v];
      ok := true;
    }
  }
}
