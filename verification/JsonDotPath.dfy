/**
 Dotted names into nested objects: json_object_dotget_value and json_object_dotset_value
 on trees whose inner nodes are the Slots of an object and whose leaves are values of
 any other kind.
 */
module JsonDotPath {
  import opened Common
  import opened JsonText
  import opened JsonSlots

  datatype Tree<L> = Leaf(leaf: L) | Branch(slots: Slots<Tree<L>>)

  ghost predicate TreeWellFormed<L>(o: Slots<Tree<L>>)
    decreases o.values
  {
    && WellFormed(o)
    && forall i :: 0 <= i < |o.values| && o.values[i].Branch? ==> TreeWellFormed(o.values[i].slots)
  }

  /** The index of the first dot, or the length. */
  function DotPos(name: string): (d: nat)
    ensures d <= |name|
    ensures d < |name| ==> name[d] == '.'
    ensures '.' !in name[..d]
  {
    if name == "" || name[0] == '.' then 0
    else
      assert name[..1 + DotPos(name[1..])] == [name[0]] + name[1..][..DotPos(name[1..])];
      1 + DotPos(name[1..])
  }

  predicate Dotted(name: string) {
    DotPos(name) < |name|
  }

  function First(name: CString): (r: CString)
    ensures !Dotted(name) ==> r == name
  {
    name[..DotPos(name)]
  }

  function Rest(name: CString): (r: CString)
    requires Dotted(name)
    ensures |r| < |name|
  {
    name[DotPos(name) + 1..]
  }

  /** json_object_get_object: the nested object under a plain name, if there is one. */
  function GetObject<L>(o: Slots<Tree<L>>, name: CString): (r: Option<Slots<Tree<L>>>)
    requires TreeWellFormed(o)
    ensures r.Some? ==> TreeWellFormed(r.value)
  {
    var v: Option<Tree<L>> := Get(o, name);
    if v.Some? && v.value.Branch? then Some(v.value.slots) else None
  }

  function DotGet<L>(o: Slots<Tree<L>>, name: CString): Option<Tree<L>>
    requires TreeWellFormed(o)
    decreases |name|
  {
    if !Dotted(name) then Get(o, name)
    else
      match GetObject(o, First(name))
      case Some(s) => DotGet(s, Rest(name))
      case None => None
  }

  function Empty<L>(): Slots<Tree<L>> {
    Slots([], [], 0)
  }

  /** json_object_dotset_value: missing objects on the way are created. */
  function DotSet<L>(o: Slots<Tree<L>>, name: CString, v: Tree<L>): (r: (Slots<Tree<L>>, bool))
    requires TreeWellFormed(o) && (v.Branch? ==> TreeWellFormed(v.slots))
    ensures TreeWellFormed(r.0)
    decreases |name|
  {
    if !Dotted(name) then
      PutKeeps(o, name, v);
      Set(o, name, v)
    else
      var within := Open(o, First(name));
      if !within.1 then within
      else
        var (inner, ok) := DotSet(GetObject(within.0, First(name)).value, Rest(name), v);
        PutKeeps(within.0, First(name), Branch(inner));
        (Set(within.0, First(name), Branch(inner)).0, ok)
  }

  /** The object with a nested object under name, created if there is no pair of that name. */
  function Open<L>(o: Slots<Tree<L>>, name: CString): (r: (Slots<Tree<L>>, bool))
    requires TreeWellFormed(o)
    ensures TreeWellFormed(r.0) && (r.1 ==> GetObject(r.0, name).Some?)
  {
    if GetObject(o, name).Some? then (o, true)
    else
      PutKeeps(o, name, Branch(Empty()));
      Add(o, name, Branch(Empty()))
  }

  /** Setting or adding one pair keeps the tree well formed and every other lookup. */
  lemma PutKeeps<L>(o: Slots<Tree<L>>, name: CString, v: Tree<L>)
    requires TreeWellFormed(o) && (v.Branch? ==> TreeWellFormed(v.slots))
    ensures TreeWellFormed(Set(o, name, v).0) && TreeWellFormed(Add(o, name, v).0)
    ensures Get(Set(o, name, v).0, name) == if Set(o, name, v).1 then Some(v) else Get(o, name)
    ensures Get(Add(o, name, v).0, name) == if Add(o, name, v).1 then Some(v) else Get(o, name)
    ensures Add(o, name, v).1 <==> Get(o, name).None? && HasRoom(|o.names|, o.capacity)
    ensures Set(o, name, v).1 <==> Get(o, name).Some? || HasRoom(|o.names|, o.capacity)
    ensures forall other: string | other != name ::
              Get(Set(o, name, v).0, other) == Get(o, other) && Get(Add(o, name, v).0, other) == Get(o, other)
  {
    hide Set, Add, Get, HasRoom;
    PutWellFormed(o, name, v);
    AddLookup(o, name, v, name);
    SetLookup(o, name, v, name);
    forall other: string
      ensures Get(Set(o, name, v).0, other) == if Set(o, name, v).1 && other == name then Some(v) else Get(o, other)
      ensures Get(Add(o, name, v).0, other) == if Add(o, name, v).1 && other == name then Some(v) else Get(o, other)
    {
      AddLookup(o, name, v, other);
      SetLookup(o, name, v, other);
    }
  }

  lemma PutWellFormed<L>(o: Slots<Tree<L>>, name: CString, v: Tree<L>)
    requires TreeWellFormed(o) && (v.Branch? ==> TreeWellFormed(v.slots))
    ensures TreeWellFormed(Set(o, name, v).0) && TreeWellFormed(Add(o, name, v).0)
  {
    AddLookup(o, name, v, name);
    SetLookup(o, name, v, name);
  }

  // ---------------------------------------------------------------- what dotted names promise

  /** q is p itself or a path below it. */
  predicate Below(q: string, p: string) {
    p <= q && (|q| == |p| || q[|p|] == '.')
  }

  lemma {:induction false} DotPosSplit(a: string, b: string)
    requires '.' !in a
    ensures DotPos(a + "." + b) == |a|
  {
    if a != "" {
      assert (a + "." + b)[1..] == a[1..] + "." + b;
      DotPosSplit(a[1..], b);
    }
  }

  /** A path below another starts with its first component. */
  lemma BelowParts(q: CString, p: CString)
    ensures First(q) == First(p) && !Dotted(p) ==> Below(q, p)
    ensures First(q) == First(p) && Dotted(p) && Dotted(q) ==> (Below(q, p) <==> Below(Rest(q), Rest(p)))
  {
  }

  lemma EmptyHasNothing<L>(q: CString)
    ensures DotGet(Empty<L>(), q) == None
  {
  }

  /** A stored value is found again under the same dotted name. */
  lemma {:induction false} GetAfterSet<L>(o: Slots<Tree<L>>, p: CString, v: Tree<L>)
    requires TreeWellFormed(o) && (v.Branch? ==> TreeWellFormed(v.slots))
    requires DotSet(o, p, v).1
    ensures DotGet(DotSet(o, p, v).0, p) == Some(v)
    decreases |p|
  {
    if !Dotted(p) {
      PutKeeps(o, p, v);
    } else {
      var within := Open(o, First(p)).0;
      var s := GetObject(within, First(p)).value;
      GetAfterSet(s, Rest(p), v);
      PutKeeps(within, First(p), Branch(DotSet(s, Rest(p), v).0));
    }
  }

  /** Opening a component adds at most one empty object, which no dotted name can see into. */
  lemma OpenKeeps<L>(o: Slots<Tree<L>>, name: CString, q: CString)
    requires TreeWellFormed(o) && (First(q) != name || Dotted(q) || !Open(o, name).1)
    ensures DotGet(Open(o, name).0, q) == DotGet(o, q)
    ensures Open(o, name).1 && First(q) == name && Dotted(q) ==>
              DotGet(o, q) == DotGet(GetObject(Open(o, name).0, name).value, Rest(q))
  {
    PutKeeps(o, name, Branch(Empty()));
    if Dotted(q) {
      EmptyHasNothing<L>(Rest(q));
    }
  }

  /** Setting p changes no lookup of a path that is neither above nor below p. */
  lemma {:induction false} SetKeepsOthers<L>(o: Slots<Tree<L>>, p: CString, v: Tree<L>, q: CString)
    requires TreeWellFormed(o) && (v.Branch? ==> TreeWellFormed(v.slots))
    requires !Below(p, q) && !Below(q, p)
    ensures DotGet(DotSet(o, p, v).0, q) == DotGet(o, q)
    decreases |p|
  {
    BelowParts(p, q);
    BelowParts(q, p);
    if !Dotted(p) {
      PutKeeps(o, p, v);
    } else {
      OpenKeeps(o, First(p), q);
      var (within, ok) := Open(o, First(p));
      if ok {
        var s := GetObject(within, First(p)).value;
        PutKeeps(within, First(p), Branch(DotSet(s, Rest(p), v).0));
        if First(q) == First(p) {
          SetKeepsOthers(s, Rest(p), v, Rest(q));
        }
      }
    }
  }

  /** Where a dotted name ends: the object holding its last component. */
  predicate Settable<L>(o: Slots<Tree<L>>, p: CString)
    requires TreeWellFormed(o)
    decreases |p|
  {
    if GetObject(o, First(p)).Some? && Dotted(p) then Settable(GetObject(o, First(p)).value, Rest(p))
    else if Dotted(p) then Get(o, First(p)).None? && HasRoom(|o.names|, o.capacity)
    else Get(o, p).Some? || HasRoom(|o.names|, o.capacity)
  }

  lemma EmptyIsSettable<L>(p: CString)
    ensures Settable(Empty<L>(), p)
  {
  }

  /**
   Setting succeeds exactly when no component but the last names a value that is not an
   object, and the one object that gets a new pair has room for it.
   */
  lemma {:induction false} SetSucceeds<L>(o: Slots<Tree<L>>, p: CString, v: Tree<L>)
    requires TreeWellFormed(o) && (v.Branch? ==> TreeWellFormed(v.slots))
    ensures DotSet(o, p, v).1 <==> Settable(o, p)
    decreases |p|
  {
    if !Dotted(p) {
      PutKeeps(o, p, v);
    } else {
      PutKeeps(o, First(p), Branch(Empty()));
      var (within, ok) := Open(o, First(p));
      if ok {
        SetSucceeds(GetObject(within, First(p)).value, Rest(p), v);
        EmptyIsSettable<L>(Rest(p));
      }
    }
  }

  // ---------------------------------------------------------------- what a failure leaves

  /** The same tree, but for the capacities of its objects. */
  predicate SameTree<L(==)>(a: Tree<L>, b: Tree<L>)
    decreases a
  {
    match a
    case Leaf(_) => a == b
    case Branch(s) =>
      && b.Branch?
      && s.names == b.slots.names
      && |s.values| == |b.slots.values|
      && forall i :: 0 <= i < |s.values| ==> SameTree(s.values[i], b.slots.values[i])
  }

  /** The same answer: the same value, none in both, or objects that differ in their capacities alone. */
  predicate SameAnswer<L(==)>(a: Option<Tree<L>>, b: Option<Tree<L>>) {
    a.Some? == b.Some? && (a.Some? ==> SameTree(a.value, b.value))
  }

  lemma {:induction false} SameAsItself<L>(a: Tree<L>)
    ensures SameTree(a, a)
    decreases a
  {
    if a.Branch? {
      forall i | 0 <= i < |a.slots.values|
        ensures SameTree(a.slots.values[i], a.slots.values[i])
      {
        SameAsItself(a.slots.values[i]);
      }
    }
  }

  /** Trees that are the same but for capacities answer every dotted name alike. */
  lemma {:induction false} SameAnswers<L>(a: Slots<Tree<L>>, b: Slots<Tree<L>>, q: CString)
    requires TreeWellFormed(a) && TreeWellFormed(b) && SameTree(Branch(a), Branch(b))
    ensures SameAnswer(DotGet(a, q), DotGet(b, q))
    decreases |q|
  {
    if Dotted(q) && GetObject(a, First(q)).Some? {
      SameAnswers(GetObject(a, First(q)).value, GetObject(b, First(q)).value, Rest(q));
    }
  }

  /** A dotset that fails leaves the tree as it was, but for capacities, and with it every answer. */
  lemma {:induction false} FailedSetKeepsAll<L>(o: Slots<Tree<L>>, p: CString, v: Tree<L>)
    requires TreeWellFormed(o) && (v.Branch? ==> TreeWellFormed(v.slots))
    requires !DotSet(o, p, v).1
    ensures SameTree(Branch(DotSet(o, p, v).0), Branch(o))
    ensures forall q: CString :: SameAnswer(DotGet(DotSet(o, p, v).0, q), DotGet(o, q))
    decreases |p|
  {
    hide HasRoom;
    if !Dotted(p) {
      FailedPut(o, p, v);
    } else if GetObject(o, First(p)).None? {
      EmptySucceeds(Rest(p), v);
      PutKeeps(o, First(p), Branch(Empty()));
      FailedPut(o, First(p), Branch(Empty()));
    } else {
      var s := GetObject(o, First(p)).value;
      FailedSetKeepsAll(s, Rest(p), v);
      ReplacedBySame(o, First(p), DotSet(s, Rest(p), v).0);
    }
    forall q: CString
      ensures SameAnswer(DotGet(DotSet(o, p, v).0, q), DotGet(o, q))
    {
      SameAnswers(DotSet(o, p, v).0, o, q);
    }
  }

  lemma FailedPut<L>(o: Slots<Tree<L>>, name: CString, v: Tree<L>)
    requires TreeWellFormed(o)
    ensures !Add(o, name, v).1 ==> SameTree(Branch(Add(o, name, v).0), Branch(o))
    ensures !Set(o, name, v).1 ==> SameTree(Branch(Set(o, name, v).0), Branch(o))
  {
    hide HasRoom;
    SameAsItself(Branch(o));
  }

  lemma ReplacedBySame<L>(o: Slots<Tree<L>>, name: CString, inner: Slots<Tree<L>>)
    requires TreeWellFormed(o) && GetObject(o, name).Some?
    requires SameTree(Branch(inner), Branch(GetObject(o, name).value))
    ensures SameTree(Branch(Set(o, name, Branch(inner)).0), Branch(o))
  {
    SameAsItself(Branch(o));
  }

  lemma EmptySucceeds<L>(p: CString, v: Tree<L>)
    requires v.Branch? ==> TreeWellFormed(v.slots)
    ensures DotSet(Empty<L>(), p, v).1
  {
    SetSucceeds(Empty<L>(), p, v);
    EmptyIsSettable<L>(p);
  }
}
