/**
 The flow table of IPv6.c: a doubly linked list, reached from any of its nodes, that maps a
 device and message type to a pair of addresses.
 */
module FlowTable {
  import opened Common

  type Byte = x: int | 0 <= x < 256
  type Eui = s: seq<Byte> | |s| == 8 witness [0, 0, 0, 0, 0, 0, 0, 0]
  type Address = s: seq<Byte> | |s| == 16 witness [0, 0, 0, 0, 0, 0, 0, 0, 0, 0, 0, 0, 0, 0, 0, 0]

  // ---------------------------------------------------------------- the table as a value

  datatype Entry = Entry(eui: Eui, kind: int, src: Address, dst: Address)

  predicate Matches(e: Entry, eui: Eui, kind: int) {
    e.eui == eui && e.kind == kind
  }

  /** The index of the first entry for the key, or the length. */
  function Find(table: seq<Entry>, eui: Eui, kind: int): (i: nat)
    ensures i <= |table| && (i < |table| ==> Matches(table[i], eui, kind))
    ensures forall k :: 0 <= k < i ==> !Matches(table[k], eui, kind)
  {
    if table == [] || Matches(table[0], eui, kind) then 0 else 1 + Find(table[1..], eui, kind)
  }

  /** input_addr: the pair is replaced where it stands, or a new entry goes at the end. */
  function Put(table: seq<Entry>, e: Entry): seq<Entry> {
    var i := Find(table, e.eui, e.kind);
    if i < |table| then table[i := e] else table + [e]
  }

  /** output_addr */
  function Get(table: seq<Entry>, eui: Eui, kind: int): Option<Entry> {
    var i := Find(table, eui, kind);
    if i < |table| then Some(table[i]) else None
  }

  predicate KeysUnique(table: seq<Entry>) {
    forall i, j :: 0 <= i < j < |table| ==> !Matches(table[i], table[j].eui, table[j].kind)
  }

  lemma PutKeepsUnique(table: seq<Entry>, e: Entry)
    requires KeysUnique(table)
    ensures KeysUnique(Put(table, e))
  {
  }

  /** The first entry for a key is where a search finds it. */
  lemma FindIs(table: seq<Entry>, eui: Eui, kind: int, i: nat)
    requires i <= |table| && (i < |table| ==> Matches(table[i], eui, kind))
    requires forall k :: 0 <= k < i ==> !Matches(table[k], eui, kind)
    ensures Find(table, eui, kind) == i
  {
  }

  /** Storing a pair changes the answer for its own key and for no other. */
  lemma PutThenGet(table: seq<Entry>, e: Entry, eui: Eui, kind: int)
    ensures Get(Put(table, e), eui, kind) == if Matches(e, eui, kind) then Some(e) else Get(table, eui, kind)
  {
    var after, i := Put(table, e), Find(table, e.eui, e.kind);
    if Matches(e, eui, kind) {
      FindIs(after, eui, kind, i);
    } else {
      var j := Find(table, eui, kind);
      if j < |table| {
        FindIs(after, eui, kind, j);
      } else {
        FindIs(after, eui, kind, |after|);
      }
    }
  }

  function PutAll(entries: seq<Entry>): seq<Entry> {
    if entries == [] then [] else Put(PutAll(entries[..|entries| - 1]), entries[|entries| - 1])
  }

  /** The last entry stored for a key. */
  function LastStored(entries: seq<Entry>, eui: Eui, kind: int): Option<Entry> {
    if entries == [] then None
    else if Matches(entries[|entries| - 1], eui, kind) then Some(entries[|entries| - 1])
    else LastStored(entries[..|entries| - 1], eui, kind)
  }

  /** After any sequence of stores the table answers with the last pair stored for the key. */
  lemma {:induction false} TableIsMap(entries: seq<Entry>, eui: Eui, kind: int)
    ensures KeysUnique(PutAll(entries)) && Get(PutAll(entries), eui, kind) == LastStored(entries, eui, kind)
  {
    if entries != [] {
      var init := entries[..|entries| - 1];
      TableIsMap(init, eui, kind);
      PutKeepsUnique(PutAll(init), entries[|entries| - 1]);
      PutThenGet(PutAll(init), entries[|entries| - 1], eui, kind);
    }
  }

  // ---------------------------------------------------------------- the list

  /** Saved_addr */
  class Node {
    var eui: Eui
    var kind: int
    var src: Address
    var dst: Address
    var next: Node?
    var back: Node?

    constructor (e: Entry)
      ensures Content() == e && next == null && back == null
    {
      eui, kind, src, dst := e.eui, e.kind, e.src, e.dst;
      next, back := null, null;
    }

    function Content(): Entry
      reads this
    {
      Entry(eui, kind, src, dst)
    }
  }

  function At(list: seq<Node>, i: int): Node? {
    if 0 <= i < |list| then list[i] else null
  }

  /** Linked both ways, in order, ending at both ends, no node twice. */
  ghost predicate Linked(list: seq<Node>)
    reads list
  {
    && (forall i {:trigger list[i].next} :: 0 <= i < |list| ==> list[i].next == At(list, i + 1))
    && (forall i {:trigger list[i].back} :: 0 <= i < |list| ==> list[i].back == At(list, i - 1))
    && (forall i, j :: 0 <= i < j < |list| ==> list[i] != list[j])
  }

  ghost function Contents(list: seq<Node>): (table: seq<Entry>)
    reads list
    ensures |table| == |list| && forall i :: 0 <= i < |list| ==> table[i] == list[i].Content()
  {
    if list == [] then [] else Contents(list[..|list| - 1]) + [list[|list| - 1].Content()]
  }

  /** A handle on the list: null for the empty list, otherwise any of its nodes. */
  ghost predicate Handle(h: Node?, list: seq<Node>) {
    if list == [] then h == null else h in list
  }

  /** check_head_Saved_addr: back to the head from wherever the handle is. */
  method CheckHead(h: Node?, ghost list: seq<Node>) returns (head: Node?)
    requires Linked(list) && Handle(h, list)
    ensures head == At(list, 0)
  {
    head := h;
    if head != null {
      ghost var i :| 0 <= i < |list| && list[i] == h;
      while head.back != null
        invariant 0 <= i < |list| && head == list[i]
        decreases i
      {
        head := head.back;
        i := i - 1;
      }
    }
  }

  /** output_addr */
  method OutputAddr(eui: Eui, h: Node?, kind: int, ghost list: seq<Node>) returns (found: Node?)
    requires Linked(list) && Handle(h, list)
    ensures (if found == null then None else Some(found.Content())) == Get(Contents(list), eui, kind)
    ensures found != null ==> found in list
  {
    found := CheckHead(h, list);
    ghost var i := 0;
    while found != null
      invariant 0 <= i <= |list| && found == At(list, i)
      invariant forall k :: 0 <= k < i ==> !Matches(list[k].Content(), eui, kind)
      decreases |list| - i
    {
      if eui == found.eui && found.kind == kind {
        FindIs(Contents(list), eui, kind, i);
        return;
      }
      found := found.next;
      i := i + 1;
    }
    FindIs(Contents(list), eui, kind, |list|);
  }

  /**
   input_addr. The handle returned is the node of the pair, or the node before it when it
   was appended to a list.
   */
  method InputAddr(e: Entry, h: Node?, ghost list: seq<Node>) returns (r: Node, ghost after: seq<Node>)
    requires Linked(list) && Handle(h, list)
    modifies list
    ensures Linked(after) && Handle(r, after)
    ensures Contents(after) == Put(old(Contents(list)), e)
    ensures after == list || (|after| == |list| + 1 && after[..|list|] == list && fresh(after[|list|]))
  {
    hide Find, Contents;
    if h == null {
      r := new Node(e);
      after := [r];
      FindIs([], e.eui, e.kind, 0);
      assert Contents(after) == [e];
      return;
    }
    var aux := CheckHead(h, list);
    ghost var i := 0;
    while true
      invariant 0 <= i < |list| && aux == list[i]
      invariant forall k :: 0 <= k < i ==> !Matches(list[k].Content(), e.eui, e.kind)
      decreases |list| - i
    {
      if e.eui == aux.eui && aux.kind == e.kind {
        FindIs(Contents(list), e.eui, e.kind, i);
        Overwrite(aux, e, list, i);
        return aux, list;
      }
      if aux.next == null {
        break;
      }
      aux := aux.next;
      i := i + 1;
    }
    FindIs(Contents(list), e.eui, e.kind, |list|);
    after := Append(aux, e, list);
    r := aux;
  }

  /** The two addresses of a node, in place. */
  method Overwrite(aux: Node, e: Entry, ghost list: seq<Node>, ghost i: nat)
    requires Linked(list) && i < |list| && aux == list[i] && Matches(aux.Content(), e.eui, e.kind)
    modifies aux
    ensures Linked(list) && Contents(list) == old(Contents(list))[i := e]
  {
    aux.src := e.src;
    aux.dst := e.dst;
    assert forall k :: 0 <= k < |list| && k != i ==> list[k].Content() == old(list[k].Content());
  }

  /** A new node after the last one. */
  method Append(aux: Node, e: Entry, ghost list: seq<Node>) returns (ghost after: seq<Node>)
    requires Linked(list) && list != [] && aux == list[|list| - 1]
    modifies aux
    ensures |after| == |list| + 1 && after[..|list|] == list && fresh(after[|list|])
    ensures Linked(after) && Contents(after) == old(Contents(list)) + [e]
  {
    hide Contents;
    var node := new Node(e);
    aux.next := node;
    node.back := aux;
    after := list + [node];
    assert forall k :: 0 <= k < |list| ==> after[k] == list[k] && list[k].Content() == old(list[k].Content());
    assert after[|list|].Content() == e;
  }
}
