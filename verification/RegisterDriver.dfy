/**
 loragw_reg.c on a device behind SPI: byte buffers filled and shifted in loops, the cached
 page, and the memory of the device changed in place. SPI transfers succeed.
 */
module RegisterDriver {
  import opened Common
  import opened RegisterTable
  import opened RegisterBits
  import opened Registers

  class Concentrator {
    /** lgw_regpage; -1 while the concentrator is not connected. */
    var regpage: int
    /** The device. */
    const cells: array<bv8>
    /** What it holds after a reset. */
    const reset: Cells

    ghost predicate Valid()
      reads this, cells
    {
      cells.Length == SIZE && Page(reset) == 0
    }

    ghost function State(): Host
      requires Valid()
      reads this, cells
    {
      Host(regpage, cells[..])
    }

    /** A device just reset, and the driver connected to it. */
    constructor (content: Cells)
      requires Page(content) == 0
      ensures Valid() && fresh(cells) && State() == Host(0, content) && reset == content
    {
      regpage := 0;
      cells := new bv8[512](i requires 0 <= i < 512 => content[i]);
      reset := content;
    }

    /** lgw_spi_w at an address other than 0. */
    method SpiW(addr: int, data: bv8)
      requires Valid() && 1 <= addr < 128
      modifies cells
      ensures cells[..] == old(cells[..])[Cell(Page(old(cells[..])), addr) := data]
    {
      cells[Cell(PageBits(cells[0]), addr)] := data;
    }

    /** lgw_spi_r */
    method SpiR(addr: int) returns (data: bv8)
      requires Valid() && 0 <= addr < 128
      ensures data == cells[Cell(Page(cells[..]), addr)]
    {
      data := cells[Cell(PageBits(cells[0]), addr)];
    }

    /** lgw_spi_wb: a burst to successive addresses. */
    method SpiWb(addr: int, data: array<bv8>, size: nat)
      requires Valid() && 1 <= addr && 0 < size && addr + size <= 128 && size <= data.Length && data != cells
      requires addr + size <= 33 || (33 <= addr && addr + size <= 125) || 125 <= addr
      modifies cells
      ensures var k := Cell(Page(old(cells[..])), addr);
              k + size <= SIZE && cells[..] == old(cells[..k]) + data[..size] + old(cells[k + size..])
    {
      hide PageBits;
      var page := PageBits(cells[0]);
      assert page == Page(old(cells[..]));
      for i := 0 to size
        invariant cells[0] == old(cells[0])
        invariant forall k :: 0 <= k < SIZE ==>
                    cells[k] == if Cell(page, addr) <= k < Cell(page, addr) + i then data[k - Cell(page, addr)]
                                else old(cells[k])
      {
        var b := data[i];
        SpiW(addr + i, b);
      }
    }

    /** lgw_spi_rb */
    method SpiRb(addr: int, data: array<bv8>, size: nat)
      requires Valid() && 0 <= addr && 0 < size && addr + size <= 128 && size <= data.Length && data != cells
      requires addr + size <= 33 || (33 <= addr && addr + size <= 125) || 125 <= addr
      modifies data
      ensures var k := Cell(Page(cells[..]), addr);
              k + size <= SIZE && data[..size] == cells[k..k + size]
    {
      hide PageBits;
      for i := 0 to size
        invariant forall j :: 0 <= j < i ==> data[j] == cells[Cell(Page(cells[..]), addr) + j]
      {
        data[i] := SpiR(addr + i);
      }
    }

    /** page_switch */
    method SwitchPage(target: bv8)
      requires Valid()
      modifies this, cells
      ensures Valid() && State() == PageSwitch(old(State()), target)
    {
      MaskedPage(target);
      regpage := PageBits(target & 3);
      cells[0] := target & 3;
      assert cells[..] == old(cells[..])[0 := target & 3];
    }

    /** lgw_soft_reset */
    method SoftReset()
      requires Valid()
      modifies this, cells
      ensures Valid() && State() == if old(regpage) < 0 then old(State()) else Host(0, reset)
    {
      if regpage >= 0 {
        ResetDevice();
        regpage := 0;
      }
    }

    /** The device's answer to its reset bit. */
    method ResetDevice()
      requires Valid()
      modifies cells
      ensures cells[..] == reset
    {
      forall i | 0 <= i < SIZE { cells[i] := reset[i]; }
    }

    /**
     reg_w_align32. A field is mixed with the bits around it; several bytes go out in one burst.
     A register of no bits has its byte written back as it was.
     */
    method RegWAlign32(r: Reg, value: bv32) returns (ok: bool)
      requires Valid() && Described(r) && r.addr >= 1
      modifies cells
      ensures ok == Supported(r)
      ensures ok && r.leng > 0 ==> cells[..] == WriteAt(old(cells[..]), OnPage(old(cells[..]), r), value)
      ensures !ok || r.leng == 0 ==> cells[..] == old(cells[..])
    {
      hide B8, Low, Page, PageBits, Fits, Split, PutField;
      ok := true;
      if r.leng == 8 && r.offs == 0 {
        WholeByte(cells[Cell(Page(cells[..]), r.addr)], value);
        SpiW(r.addr, Low(value));
      } else if r.offs + r.leng <= 8 {
        MixByte(r, value);
      } else if r.offs == 0 && 0 < r.leng <= 32 {
        var size := (r.leng + 7) / 8;
        var buf := SplitLoop(value, size);
        SpiWb(r.addr, buf, size);
      } else {
        ok := false;
      }
    }

    /** The read-modify-write of one byte. */
    method MixByte(r: Reg, value: bv32)
      requires Valid() && Described(r) && r.addr >= 1 && r.offs + r.leng <= 8 && !(r.leng == 8 && r.offs == 0)
      modifies cells
      ensures r.leng > 0 ==> cells[..] == WriteAt(old(cells[..]), OnPage(old(cells[..]), r), value)
      ensures r.leng == 0 ==> cells[..] == old(cells[..])
    {
      hide B8, Mask, Low, Page, PageBits, Fits, MixField, PutField;
      var b := SpiR(r.addr);
      MaskParts(b, value, r);
      var mask := if r.leng == 0 then 0 else Mask(B8(r.offs), B8(r.leng));
      SpiW(r.addr, MixField(b, mask, value, B8(r.offs)));
    }

    /** The loop that cuts a value into bytes. */
    method SplitLoop(value: bv32, size: nat) returns (buf: array<bv8>)
      requires size <= 4
      ensures fresh(buf) && buf.Length == 4 && buf[..size] == Split(value, size)
    {
      hide Low, NextByte, Split;
      buf := new bv8[4](_ => 0);
      var v := value;
      ghost var done := [];
      NothingSplit(value);
      for i := 0 to size
        invariant done == buf[..i] && done + Split(v, size - i) == Split(value, size)
      {
        SplitStep(v, size - i, done);
        buf[i] := Low(v);
        done := done + [Low(v)];
        v := NextByte(v);
      }
      NothingSplit(v);
    }

    /** reg_r_align32. A register of no bits reads as zero, or if signed as the bit below its place, spread out. */
    method RegRAlign32(r: Reg) returns (ok: bool, value: bv32)
      requires Valid() && Described(r)
      ensures ok == Supported(r)
      ensures ok && r.leng > 0 ==> value == ReadAt(cells[..], OnPage(cells[..], r))
      ensures ok && r.leng == 0 ==> value == NoField(cells[Cell(Page(cells[..]), r.addr)], B8(r.offs), r.sign)
    {
      hide B8, B32, Page, PageBits, Fits, Join, GetField, GetWord, NoField;
      ok, value := true, 0;
      if r.offs + r.leng <= 8 {
        var b := SpiR(r.addr);
        if r.leng == 0 {
          SmallOffset(r.offs);
          value := NoField(b, B8(r.offs), r.sign);
        } else {
          FieldFits(r);
          value := GetField(b, B8(r.offs), B8(r.leng), r.sign);
        }
      } else if r.offs == 0 && 0 < r.leng <= 32 {
        var size := (r.leng + 7) / 8;
        var buf := new bv8[4](_ => 0);
        SpiRb(r.addr, buf, size);
        var u := JoinLoop(buf, size);
        value := GetWord(u, B32(r.leng), r.sign);
      } else {
        ok := false;
      }
    }

    /** The loop that puts bytes together, the last one first. */
    method JoinLoop(buf: array<bv8>, size: nat) returns (u: bv32)
      requires size <= buf.Length
      ensures u == Join(buf[..size])
    {
      hide Push;
      u := 0;
      var i := size;
      while i > 0
        invariant 0 <= i <= size && u == Join(buf[i..size])
      {
        i := i - 1;
        assert buf[i..size][1..] == buf[i + 1..size];
        u := Push(u, buf[i]);
      }
    }

    /** lgw_reg_w */
    method RegWrite(id: nat, value: bv32) returns (ok: bool)
      requires Valid()
      modifies this, cells
      ensures Valid() && (State(), ok) == RegW(old(State()), reset, id, value)
    {
      hide Loregs, PageBits, Low, WriteAt, Placed;
      if id >= LGW_TOTALREGS || regpage < 0 {
        return false;
      }
      if id == LGW_PAGE_REG {
        SwitchPage(Low(value));
        return true;
      }
      if id == LGW_SOFT_RESET {
        if value & 1 != 0 {
          SoftReset();
        }
        return true;
      }
      var r := Loregs(id);
      if r.rdon {
        return false;
      }
      AddressNotZero(id);
      if r.page != -1 && r.page != regpage {
        SwitchPage(PageByte(r.page));
      }
      ok := RegWAlign32(r, value);
    }

    /** lgw_reg_r */
    method RegRead(id: nat) returns (value: Option<bv32>)
      requires Valid()
      modifies this, cells
      ensures Valid() && (State(), value) == RegR(old(State()), id)
    {
      hide Loregs, PageBits, ReadAt, Placed;
      if id >= LGW_TOTALREGS || regpage < 0 {
        return None;
      }
      var r := Loregs(id);
      AddressInRange(id);
      if r.page != -1 && r.page != regpage {
        SwitchPage(PageByte(r.page));
      }
      var ok, v := RegRAlign32(r);
      value := Some(v);
    }
  }

  /** The sizes reg_w_align32 and reg_r_align32 handle. */
  predicate Supported(r: Reg) {
    r.offs + r.leng <= 8 || (r.offs == 0 && r.leng <= 32)
  }

  /** Sizes and offsets are unsigned, the address has seven bits, and a register handled lies on its page. */
  predicate Described(r: Reg) {
    r.offs >= 0 && r.leng >= 0 && 0 <= r.addr < 128 && (Supported(r) && r.leng > 0 ==> Placed(r))
  }

  /** What reading makes of no bits at all. */
  function NoField(b: bv8, offs: bv8, sign: bool): bv32
    requires offs <= 8
  {
    var left := b << (8 - offs);
    if sign then WidenSigned(Asr8(left, 8)) else Widen(left >> 8)
  }

  lemma SmallOffset(n: int)
    requires 0 <= n <= 8
    ensures B8(n) <= 8
  {
  }

  function MixField(b: bv8, mask: bv8, value: bv32, offs: bv8): bv8
    requires offs <= 8
  {
    (!mask & b) | (mask & (Low(value) << offs))
  }

  lemma PutParts(b: bv8, value: bv32, r: Reg)
    requires Placed(r) && InByte(r) && !(r.leng == 8 && r.offs == 0)
    ensures Fits(B8(r.offs), B8(r.leng)) && B8(r.offs) <= 8
    ensures PutField(b, value, B8(r.offs), B8(r.leng)) == MixField(b, Mask(B8(r.offs), B8(r.leng)), value, B8(r.offs))
  {
    FieldFits(r);
    hide Mask, Low;
  }

  /** The byte mixed: the register's bits put in, or for a register of no bits the byte as it was. */
  lemma MaskParts(b: bv8, value: bv32, r: Reg)
    requires Described(r) && r.offs + r.leng <= 8 && !(r.leng == 8 && r.offs == 0)
    ensures B8(r.offs) <= 8
    ensures r.leng == 0 ==> MixField(b, 0, value, B8(r.offs)) == b
    ensures r.leng > 0 ==>
              && Fits(B8(r.offs), B8(r.leng))
              && PutField(b, value, B8(r.offs), B8(r.leng))
                 == MixField(b, Mask(B8(r.offs), B8(r.leng)), value, B8(r.offs))
  {
    SmallOffset(r.offs);
    if r.leng == 0 {
      MixNothing(b, value, B8(r.offs));
    } else {
      PutParts(b, value, r);
    }
  }

  lemma MixNothing(b: bv8, value: bv32, offs: bv8)
    requires offs <= 8
    ensures MixField(b, 0, value, offs) == b
  {
  }

  lemma NothingSplit(v: bv32)
    ensures Split(v, 0) == [] && forall s: seq<bv8> :: s + [] == s && [] + s == s
  {
  }

  lemma WholeByte(b: bv8, value: bv32)
    ensures Fits(B8(0), B8(8)) && PutField(b, value, B8(0), B8(8)) == Low(value)
  {
  }

  lemma SplitStep(v: bv32, n: nat, done: seq<bv8>)
    requires n > 0
    ensures done + Split(v, n) == (done + [Low(v)]) + Split(NextByte(v), n - 1)
  {
  }

  lemma AddressInRange(id: nat)
    requires id < LGW_TOTALREGS
    ensures Placed(Loregs(id)) && Described(Loregs(id)) && Supported(Loregs(id)) && Loregs(id).leng > 0
  {
    RegisterPlaced(id);
    hide Loregs;
  }

  lemma AddressNotZero(id: nat)
    requires 2 <= id < LGW_TOTALREGS
    ensures Placed(Loregs(id)) && Described(Loregs(id)) && Supported(Loregs(id)) && Loregs(id).leng > 0
            && Loregs(id).addr >= 1
  {
    NotByteZero(id);
    hide Loregs;
  }
}
