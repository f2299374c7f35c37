/**
 The concentrator's register file behind its page selector, and lgw_reg_w and lgw_reg_r on
 it. The device is a memory of bytes, four pages of 128; addresses 33 to 124 are paged, the
 others are the same on every page. Byte 0 holds the page and the reset bit.
 */
module Registers {
  import opened Common
  import opened RegisterTable
  import opened RegisterBits

  const SIZE := 512

  /** Contents of the device; bytes are ordinary memory, none changes by itself. */
  type Cells = s: seq<bv8> | |s| == 512 witness Blank(512)

  function Blank(n: nat): (s: seq<bv8>)
    ensures |s| == n
  {
    if n == 0 then [] else Blank(n - 1) + [0]
  }

  function Cell(page: int, addr: int): (k: int)
    requires 0 <= page < 4 && 0 <= addr < 128
    ensures 0 <= k < SIZE
  {
    if 33 <= addr < 125 then page * 128 + addr else addr
  }

  function PageBits(b: bv8): (page: int)
    ensures 0 <= page < 4
  {
    if b & 3 == 0 then 0 else if b & 3 == 1 then 1 else if b & 3 == 2 then 2 else 3
  }

  function PageByte(page: int): bv8 {
    if page == 0 then 0 else if page == 1 then 1 else if page == 2 then 2 else 3
  }

  /** The page the device has selected. */
  function Page(cells: Cells): (page: int)
    ensures 0 <= page < 4
  {
    PageBits(cells[0])
  }

  function B8(n: int): bv8 {
    if n <= 0 then 0 else if n == 1 then 1 else if n == 2 then 2 else if n == 3 then 3 else if n == 4 then 4
    else if n == 5 then 5 else if n == 6 then 6 else if n == 7 then 7 else 8
  }

  function B32(n: int): (b: bv32)
    ensures 1 <= b <= 32
  {
    if n <= 8 then Small32(n)
    else if n <= 16 then Small32(n - 8) + 8
    else if n <= 24 then Small32(n - 16) + 16
    else Small32(n - 24) + 24
  }

  function Small32(n: int): (b: bv32)
    ensures 1 <= b <= 8
  {
    if n <= 1 then 1 else if n == 2 then 2 else if n == 3 then 3 else if n == 4 then 4
    else if n == 5 then 5 else if n == 6 then 6 else if n == 7 then 7 else 8
  }

  lemma FieldFits(r: Reg)
    requires Placed(r) && InByte(r)
    ensures Fits(B8(r.offs), B8(r.leng))
  {
  }

  // ---------------------------------------------------------------- one register

  /** The first byte of a register, on its page. */
  function Place(r: Reg): (k: int)
    requires Placed(r)
    ensures 0 <= k && k + Bytes(r) <= SIZE
  {
    Cell(if r.page == -1 then 0 else r.page, r.addr)
  }

  function ReadAt(cells: Cells, r: Reg): bv32
    requires Placed(r)
  {
    var k := Place(r);
    if InByte(r) then
      FieldFits(r);
      GetField(cells[k], B8(r.offs), B8(r.leng), r.sign)
    else GetWord(Join(cells[k..k + Bytes(r)]), B32(r.leng), r.sign)
  }

  function WriteAt(cells: Cells, r: Reg, v: bv32): Cells
    requires Placed(r)
  {
    var k := Place(r);
    if InByte(r) then
      FieldFits(r);
      cells[k := PutField(cells[k], v, B8(r.offs), B8(r.leng))]
    else cells[..k] + Split(v, Bytes(r)) + cells[k + Bytes(r)..]
  }

  /** The value has no more bits than the register. */
  predicate FitsRegister(v: bv32, r: Reg) {
    Representable(v, B32(r.leng), r.sign)
  }

  lemma SameLength(n: int)
    requires 1 <= n <= 8
    ensures B8(n) as bv32 == B32(n)
  {
  }

  lemma WordLength(n: int, bytes: int)
    requires 9 <= n <= 32 && bytes == (n + 7) / 8
    ensures 2 <= bytes <= 4 && B32(n) <= if bytes == 2 then 16 else if bytes == 3 then 24 else 32
  {
  }

  /** A value that fits is read back, sign included. */
  lemma ReadBack(cells: Cells, r: Reg, v: bv32)
    requires Placed(r) && FitsRegister(v, r)
    ensures ReadAt(WriteAt(cells, r, v), r) == v
  {
    hide B8, B32, GetField, PutField, GetWord, Representable, Split, Join, Fits, Place;
    var k := Place(r);
    if InByte(r) {
      FieldFits(r);
      SameLength(r.leng);
      FieldReadBack(cells[k], v, B8(r.offs), B8(r.leng), r.sign);
    } else {
      assert WriteAt(cells, r, v)[k..k + Bytes(r)] == Split(v, Bytes(r));
      WordLength(r.leng, Bytes(r));
      JoinSplit(v, Bytes(r));
      WordReadBack(v, Bytes(r), B32(r.leng), r.sign);
    }
  }

  /** One register ends before the other begins, in the order of the table. */
  predicate Apart(r: Reg, q: Reg) {
    End(r) <= Key(q) || End(q) <= Key(r)
  }

  /** Registers apart lie in different bytes, or in different bits of one byte. */
  lemma PlacesApart(r: Reg, q: Reg)
    requires Placed(r) && Placed(q) && Apart(r, q)
    ensures || Place(r) + Bytes(r) <= Place(q) || Place(q) + Bytes(q) <= Place(r)
            || (InByte(r) && InByte(q) && Place(r) == Place(q)
                && (r.offs + r.leng <= q.offs || q.offs + q.leng <= r.offs))
  {
  }

  lemma FieldsApart(r: Reg, q: Reg)
    requires Placed(r) && Placed(q) && InByte(r) && InByte(q)
             && (r.offs + r.leng <= q.offs || q.offs + q.leng <= r.offs)
    ensures Fits(B8(r.offs), B8(r.leng)) && Fits(B8(q.offs), B8(q.leng))
    ensures Mask(B8(r.offs), B8(r.leng)) & Mask(B8(q.offs), B8(q.leng)) == 0
  {
    FieldFits(r);
    FieldFits(q);
    hide B8, Fits, Mask;
    if r.offs + r.leng <= q.offs {
      Below(r, q);
      MasksApart(B8(r.offs), B8(r.leng), B8(q.offs), B8(q.leng));
    } else {
      Below(q, r);
      MasksApart(B8(q.offs), B8(q.leng), B8(r.offs), B8(r.leng));
      AndCommutes(Mask(B8(r.offs), B8(r.leng)), Mask(B8(q.offs), B8(q.leng)));
    }
  }

  lemma AndCommutes(a: bv8, b: bv8)
    ensures a & b == b & a
  {
  }

  lemma Below(r: Reg, q: Reg)
    requires Placed(r) && Placed(q) && InByte(r) && InByte(q) && r.offs + r.leng <= q.offs
    ensures B8(r.offs) + B8(r.leng) <= B8(q.offs)
  {
  }

  /** Bits outside a mask are kept, so a field outside it is. */
  lemma OtherField(old8: bv8, new8: bv8, mask: bv8, other: bv8)
    requires (new8 ^ old8) & !mask == 0 && mask & other == 0
    ensures (new8 ^ old8) & other == 0
  {
  }

  lemma WriteTouches(cells: Cells, r: Reg, v: bv32)
    requires Placed(r)
    ensures forall i :: 0 <= i < SIZE && !(Place(r) <= i < Place(r) + Bytes(r)) ==> WriteAt(cells, r, v)[i] == cells[i]
  {
  }

  lemma ReadDepends(a: Cells, b: Cells, q: Reg)
    requires Placed(q) && forall i :: Place(q) <= i < Place(q) + Bytes(q) ==> a[i] == b[i]
    ensures ReadAt(a, q) == ReadAt(b, q)
  {
    hide B8, B32, GetField, GetWord, Join, Fits, Place;
    assert a[Place(q)..Place(q) + Bytes(q)] == b[Place(q)..Place(q) + Bytes(q)];
  }

  lemma SharedByteApart(cells: Cells, r: Reg, v: bv32, q: Reg)
    requires Placed(r) && Placed(q) && InByte(r) && InByte(q) && Place(r) == Place(q)
    requires r.offs + r.leng <= q.offs || q.offs + q.leng <= r.offs
    ensures ReadAt(WriteAt(cells, r, v), q) == ReadAt(cells, q)
  {
    FieldsApart(r, q);
    hide B8, GetField, PutField, Fits, Place, Mask, Placed, InByte;
    FieldKept(cells[Place(r)], v, B8(r.offs), B8(r.leng), B8(q.offs), B8(q.leng), q.sign);
  }

  /** A field is kept when another field of the byte, its mask apart, is written. */
  lemma FieldKept(old8: bv8, v: bv32, offs: bv8, leng: bv8, offs': bv8, leng': bv8, sign: bool)
    requires Fits(offs, leng) && Fits(offs', leng') && Mask(offs, leng) & Mask(offs', leng') == 0
    ensures GetField(PutField(old8, v, offs, leng), offs', leng', sign) == GetField(old8, offs', leng', sign)
  {
    hide GetField, PutField, Fits, Mask;
    FieldKeepsOthers(old8, v, offs, leng);
    OtherField(old8, PutField(old8, v, offs, leng), Mask(offs, leng), Mask(offs', leng'));
    FieldOnly(PutField(old8, v, offs, leng), old8, offs', leng', sign);
  }

  /** Writing a register leaves every register apart from it as it was. */
  lemma WriteApart(cells: Cells, r: Reg, v: bv32, q: Reg)
    requires Placed(r) && Placed(q) && Apart(r, q)
    ensures ReadAt(WriteAt(cells, r, v), q) == ReadAt(cells, q)
  {
    PlacesApart(r, q);
    hide ReadAt, WriteAt, Place, Apart, Placed;
    if Place(r) + Bytes(r) <= Place(q) || Place(q) + Bytes(q) <= Place(r) {
      WriteTouches(cells, r, v);
      ReadDepends(WriteAt(cells, r, v), cells, q);
    } else {
      SharedByteApart(cells, r, v, q);
    }
  }

  // ---------------------------------------------------------------- named access

  /** The driver's idea of the selected page, -1 while unconnected, and the device. */
  datatype Host = Host(regpage: int, cells: Cells)

  /** page_switch */
  function PageSwitch(h: Host, target: bv8): Host {
    Host(PageBits(target), h.cells[0 := target & 3])
  }

  /** The page of the register is selected if it has one and another is thought to be. */
  function Select(h: Host, r: Reg): Host {
    if r.page != -1 && r.page != h.regpage then PageSwitch(h, PageByte(r.page)) else h
  }

  /** Where the device finds a paged register: it goes by its own page. */
  function OnPage(cells: Cells, r: Reg): (q: Reg)
    requires Placed(r)
    ensures Placed(q) && (r.page == Page(cells) || r.page == -1 ==> q == r)
  {
    if r.page == -1 then r else r.(page := Page(cells))
  }

  /** lgw_reg_w; reset is what the device holds after a reset. */
  function RegW(h: Host, reset: Cells, id: nat, v: bv32): (Host, bool) {
    if id >= LGW_TOTALREGS || h.regpage < 0 then (h, false)
    else if id == LGW_PAGE_REG then (PageSwitch(h, Low(v)), true)
    else if id == LGW_SOFT_RESET then (if v & 1 != 0 then Host(0, reset) else h, true)
    else if Loregs(id).rdon then (h, false)
    else
      RegisterPlaced(id);
      var h1 := Select(h, Loregs(id));
      (h1.(cells := WriteAt(h1.cells, OnPage(h1.cells, Loregs(id)), v)), true)
  }

  /** lgw_reg_r */
  function RegR(h: Host, id: nat): (Host, Option<bv32>) {
    if id >= LGW_TOTALREGS || h.regpage < 0 then (h, None)
    else
      RegisterPlaced(id);
      var h1 := Select(h, Loregs(id));
      (h1, Some(ReadAt(h1.cells, OnPage(h1.cells, Loregs(id)))))
  }

  // ---------------------------------------------------------------- the page

  /** The driver's page is the device's. */
  predicate Coherent(h: Host) {
    h.regpage == Page(h.cells)
  }

  lemma SwitchCoherent(h: Host, target: bv8)
    ensures Coherent(PageSwitch(h, target)) && PageSwitch(h, target).regpage == PageBits(target)
    ensures forall i :: 1 <= i < SIZE ==> PageSwitch(h, target).cells[i] == h.cells[i]
  {
  }

  lemma MaskedPage(b: bv8)
    ensures PageBits(b & 3) == PageBits(b)
  {
  }

  /** Only the first two registers lie in byte 0. */
  lemma NotByteZero(id: nat)
    requires 2 <= id < LGW_TOTALREGS
    ensures Placed(Loregs(id)) && Place(Loregs(id)) >= 1
  {
    RegisterPlaced(id);
    if id < LGW_TX_TRIG_ALL {
      InOrder(1, id);
      hide Loregs;
      SecondRegister();
    } else {
      LastRegister();
    }
  }

  lemma SecondRegister()
    ensures End(Loregs(1)) == -1024 + 8
  {
  }

  lemma LastRegister()
    ensures Loregs(LGW_TX_TRIG_ALL) == Reg(1, 33, 0, false, 8, false)
  {
  }

  lemma SelectRight(h: Host, r: Reg)
    requires Coherent(h) && Placed(r)
    ensures var h1 := Select(h, r);
            && Coherent(h1) && OnPage(h1.cells, r) == r
            && forall i :: 1 <= i < SIZE ==> h1.cells[i] == h.cells[i]
  {
  }

  /** Reading and writing registers, PAGE_REG and SOFT_RESET among them, keep the pages equal. */
  lemma WriteKeepsCoherent(h: Host, reset: Cells, id: nat, v: bv32)
    requires Coherent(h) && Page(reset) == 0
    ensures Coherent(RegW(h, reset, id, v).0)
  {
    hide PageSwitch, PageBits, WriteAt, Select, Loregs, PageByte;
    if id == LGW_PAGE_REG {
      SwitchCoherent(h, Low(v));
    } else if 2 <= id < LGW_TOTALREGS {
      NotByteZero(id);
      SelectRight(h, Loregs(id));
      WriteTouches(Select(h, Loregs(id)).cells, Loregs(id), v);
    }
  }

  lemma ReadKeepsCoherent(h: Host, id: nat)
    requires Coherent(h)
    ensures Coherent(RegR(h, id).0)
  {
    if id < LGW_TOTALREGS {
      RegisterPlaced(id);
      SelectRight(h, Loregs(id));
    }
    hide Select, Loregs, Page;
  }

  // ---------------------------------------------------------------- a map from names to values

  /** The value a named register holds. */
  function Value(cells: Cells, id: nat): bv32
    requires id < LGW_TOTALREGS
  {
    RegisterPlaced(id);
    ReadAt(cells, Loregs(id))
  }

  /** The one pair of names for the same bits: TX_TRIG_ALL and the three triggers in its byte. */
  predicate Aliases(id: nat, j: nat) {
    (id == LGW_TX_TRIG_ALL && 180 <= j <= 182) || (j == LGW_TX_TRIG_ALL && 180 <= id <= 182)
  }

  lemma TriggersInOrder()
    ensures Key(Loregs(180)) == 1288 && End(Loregs(182)) == 1291 && Key(Loregs(183)) == 1296
    ensures Key(Loregs(LGW_TX_TRIG_ALL)) == 1288 && End(Loregs(LGW_TX_TRIG_ALL)) == 1296
  {
  }

  lemma RegistersApart(id: nat, j: nat)
    requires id < LGW_TOTALREGS && j < LGW_TOTALREGS && id != j && !Aliases(id, j)
    ensures Placed(Loregs(id)) && Placed(Loregs(j)) && Apart(Loregs(id), Loregs(j))
  {
    hide Loregs, Placed, Key, End;
    RegisterPlaced(id);
    RegisterPlaced(j);
    if id < j {
      Earlier(id, j);
    } else {
      Earlier(j, id);
    }
  }

  lemma Earlier(id: nat, j: nat)
    requires id < j < LGW_TOTALREGS && !Aliases(id, j)
    ensures Apart(Loregs(id), Loregs(j))
  {
    hide Loregs, Key, End;
    if j < LGW_TX_TRIG_ALL {
      InOrder(id, j);
    } else {
      TriggersInOrder();
      if id < 180 {
        InOrder(id, 180);
      } else if id > 183 {
        InOrder(183, id);
        InOrder(182, 183);
        RegisterPlaced(183);
        KeyBeforeEnd(Loregs(183));
      }
    }
  }

  /** A writable register holds a written value that fits it; all others but its aliases hold what they held. */
  lemma WriteIsUpdate(h: Host, reset: Cells, id: nat, v: bv32, j: nat)
    requires Coherent(h) && h.regpage >= 0 && 2 <= id < LGW_TOTALREGS && !Loregs(id).rdon && j < LGW_TOTALREGS
    ensures var (h1, ok) := RegW(h, reset, id, v);
            && ok
            && (j == id ==> (RegisterPlaced(id); FitsRegister(v, Loregs(id))) ==> Value(h1.cells, j) == v)
            && (2 <= j && j != id && !Aliases(id, j) ==> Value(h1.cells, j) == Value(h.cells, j))
  {
    hide Loregs, ReadAt, WriteAt, Select, PageByte, Page, FitsRegister, Placed;
    NotByteZero(id);
    var r, h0 := Loregs(id), Select(h, Loregs(id));
    SelectRight(h, r);
    if j == id {
      if FitsRegister(v, r) {
        ReadBack(h0.cells, r, v);
      }
    } else if 2 <= j && !Aliases(id, j) {
      NotByteZero(j);
      RegistersApart(id, j);
      WriteApart(h0.cells, r, v, Loregs(j));
      ReadDepends(h0.cells, h.cells, Loregs(j));
    }
  }

  /** Reading returns what the register holds and changes the value of none but PAGE_REG. */
  lemma ReadIsLookup(h: Host, id: nat, j: nat)
    requires Coherent(h) && h.regpage >= 0 && 2 <= id < LGW_TOTALREGS && 2 <= j < LGW_TOTALREGS
    ensures var (h1, v) := RegR(h, id);
            v == Some(Value(h.cells, id)) && Value(h1.cells, j) == Value(h.cells, j)
  {
    hide Loregs, ReadAt, Select, PageByte, Page, Placed;
    NotByteZero(id);
    NotByteZero(j);
    SelectRight(h, Loregs(id));
    ReadDepends(Select(h, Loregs(id)).cells, h.cells, Loregs(id));
    ReadDepends(Select(h, Loregs(id)).cells, h.cells, Loregs(j));
  }

  /** A read-only register refuses to be written, and nothing changes. */
  lemma ReadOnlyRefused(h: Host, reset: Cells, id: nat, v: bv32)
    requires 2 <= id < LGW_TOTALREGS && Loregs(id).rdon
    ensures RegW(h, reset, id, v) == (h, false)
  {
    hide Loregs;
  }

  /** PAGE_REG reads back the page written; every other register keeps its value. */
  lemma PageRegister(h: Host, reset: Cells, v: bv32, j: nat)
    requires Coherent(h) && h.regpage >= 0 && 2 <= j < LGW_TOTALREGS
    ensures var h1 := RegW(h, reset, LGW_PAGE_REG, v).0;
            && h1.regpage == PageBits(Low(v)) && RegR(h1, LGW_PAGE_REG) == (h1, Some(v & 3))
            && Value(h1.cells, j) == Value(h.cells, j)
  {
    var h1 := RegW(h, reset, LGW_PAGE_REG, v).0;
    PageReadBack(v);
    FirstRegister();
    SwitchCoherent(h, Low(v));
    NotByteZero(j);
    hide Loregs, PageSwitch, GetField, Placed, PageBits;
    assert h1.cells[0] == Low(v) & 3 by {
      ByteZero(h, Low(v));
    }
    ReadDepends(h1.cells, h.cells, Loregs(j));
  }

  lemma ByteZero(h: Host, target: bv8)
    ensures PageSwitch(h, target).cells[0] == target & 3
  {
  }

  lemma FirstRegister()
    ensures Loregs(LGW_PAGE_REG) == Reg(-1, 0, 0, false, 2, false)
  {
  }

  lemma PageReadBack(v: bv32)
    ensures GetField(Low(v) & 3, 0, 2, false) == v & 3
  {
  }

  // ---------------------------------------------------------------- runs

  datatype Op = Write(id: nat, v: bv32) | Read(id: nat)

  function Step(h: Host, reset: Cells, op: Op): Host {
    match op
    case Write(id, v) => RegW(h, reset, id, v).0
    case Read(id) => RegR(h, id).0
  }

  function Run(h: Host, reset: Cells, ops: seq<Op>): Host {
    if ops == [] then h else Step(Run(h, reset, ops[..|ops| - 1]), reset, ops[|ops| - 1])
  }

  /** Over any run of reads and writes by name the driver's page stays the device's. */
  lemma {:induction false} AlwaysCoherent(h: Host, reset: Cells, ops: seq<Op>)
    requires Coherent(h) && Page(reset) == 0
    ensures Coherent(Run(h, reset, ops)) && Run(h, reset, ops).regpage >= 0
  {
    if ops != [] {
      hide RegW, RegR, Page;
      var before, op := Run(h, reset, ops[..|ops| - 1]), ops[|ops| - 1];
      AlwaysCoherent(h, reset, ops[..|ops| - 1]);
      if op.Write? {
        WriteKeepsCoherent(before, reset, op.id, op.v);
      } else {
        ReadKeepsCoherent(before, op.id);
      }
      PageNotNegative(Run(h, reset, ops));
    } else {
      PageNotNegative(h);
    }
  }

  lemma PageNotNegative(h: Host)
    requires Coherent(h)
    ensures h.regpage >= 0
  {
  }

  /** The last value written to a register, or the one it began with. */
  function LastWritten(start: bv32, ops: seq<Op>, j: nat): bv32 {
    if ops == [] then start
    else
      var op := ops[|ops| - 1];
      if op.Write? && op.id == j then op.v else LastWritten(start, ops[..|ops| - 1], j)
  }

  /** No reset, nothing written through an alias, and what is written to the register fits it. */
  predicate Tame(ops: seq<Op>, j: nat)
    requires j < LGW_TOTALREGS
  {
    forall i :: 0 <= i < |ops| && ops[i].Write? ==>
      && !(ops[i].id == LGW_SOFT_RESET && ops[i].v & 1 != 0)
      && !Aliases(ops[i].id, j)
      && (ops[i].id == j ==> FitsRegister(ops[i].v, Loregs(j)))
  }

  /** A writable register is a variable: over any run it holds the last value written to it. */
  lemma {:induction false} RunIsMap(h: Host, reset: Cells, ops: seq<Op>, j: nat)
    requires Coherent(h) && Page(reset) == 0 && 2 <= j < LGW_TOTALREGS && !Loregs(j).rdon && Tame(ops, j)
    ensures Value(Run(h, reset, ops).cells, j) == LastWritten(Value(h.cells, j), ops, j)
  {
    hide RegW, RegR, Page, Loregs, Value, FitsRegister, Coherent;
    if ops != [] {
      var init, op := ops[..|ops| - 1], ops[|ops| - 1];
      RunIsMap(h, reset, init, j);
      AlwaysCoherent(h, reset, init);
      StepIsUpdate(Run(h, reset, init), reset, op, j);
    }
  }

  lemma StepIsUpdate(h: Host, reset: Cells, op: Op, j: nat)
    requires Coherent(h) && h.regpage >= 0 && 2 <= j < LGW_TOTALREGS && !Loregs(j).rdon && Tame([op], j)
    ensures Value(Step(h, reset, op).cells, j) == if op.Write? && op.id == j then op.v else Value(h.cells, j)
  {
    assert [op][0] == op;
    NotByteZero(j);
    hide Loregs, Value, FitsRegister, Coherent, Placed;
    match op
    case Write(id, v) =>
      if id >= LGW_TOTALREGS {
      } else if id == LGW_PAGE_REG {
        PageRegister(h, reset, v, j);
      } else if id >= 2 {
        if Loregs(id).rdon {
          ReadOnlyRefused(h, reset, id, v);
        } else {
          hide RegW;
          WriteIsUpdate(h, reset, id, v, j);
        }
      }
    case Read(id) =>
      if id < LGW_TOTALREGS {
        if id >= 2 {
          ReadIsLookup(h, id, j);
        } else {
          UnpagedRead(h, id, j);
        }
      }
  }

  lemma UnpagedRead(h: Host, id: nat, j: nat)
    requires id < 2 && h.regpage >= 0
    ensures RegR(h, id).0 == h
  {
    FirstRegister();
    hide ReadAt;
  }
}
