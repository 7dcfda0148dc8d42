/**
 PCI configuration space behind the ports 0xCF8 and 0xCFC (section 3.2.2.3.2 of the PCI
 Local Bus Specification 3.0) and the writes of kernel/src/acpi/handler.rs.
 */
module PciConfig {

  /** What port 0xCF8 latches. */
  datatype Address = Address(word: bv32)

  /** The doublewords of configuration space by latched address; one not listed reads all ones,
      as when no device answers. */
  type Space = map<Address, bv32>

  const NO_DEVICE: bv32 := 0xFFFF_FFFF

  function Dword(s: Space, a: bv32): bv32 {
    if Address(a) in s then s[Address(a)] else NO_DEVICE
  }

  function Store(s: Space, a: bv32, v: bv32): Space {
    s[Address(a) := v]
  }

  lemma {:induction false} DwordAfterStore(s: Space, a: bv32, v: bv32, x: bv32)
    ensures Dword(Store(s, a, v), x) == if x == a then v else Dword(s, x)
  {
  }

  function ConfigAddress(bus: bv8, dev: bv8, func: bv8, offset: bv16): bv32 {
    0x8000_0000 | ((bus as bv32) << 16) | ((dev as bv32) << 11) | ((func as bv32) << 8) | ((offset as bv32) & 0xFC)
  }

  /** The ranges `PciAddress` admits. */
  predicate ValidFunction(dev: bv8, func: bv8) {
    dev < 32 && func < 8
  }

  lemma {:induction false} Widened(d: bv8, f: bv8, o: bv16) returns (dev: bv32, func: bv32, low: bv32)
    requires ValidFunction(d, f)
    ensures dev == d as bv32 && func == f as bv32 && low == (o as bv32) & 0xFC
    ensures dev as int == d as int && func as int == f as int && low as int == (o & 0xFC) as int
    ensures dev < 32 && func < 8 && low < 0x100
  {
    dev, func, low := d as bv32, f as bv32, (o as bv32) & 0xFC;
  }

  lemma {:induction false} LowPart(dev: bv32, func: bv32, low: bv32) returns (y: bv32)
    requires dev < 32 && func < 8 && low < 0x100
    ensures y == (dev << 11) | (func << 8) | low && y < 0x1_0000
    ensures y as int == dev as int * 0x800 + func as int * 0x100 + low as int
  {
    y := (dev << 11) | ((func << 8) | low);
  }

  lemma {:induction false} HighPart(b: bv8, y: bv32)
    requires y < 0x1_0000
    ensures (0x8000_0000 | ((b as bv32) << 16) | y) as int == 0x8000_0000 + b as int * 0x1_0000 + y as int
  {
  }

  lemma {:induction false} HighAndLow(b: bv8, d: bv8, f: bv8, o: bv16) returns (y: bv32)
    requires ValidFunction(d, f)
    ensures y as int == d as int * 0x800 + f as int * 0x100 + (o & 0xFC) as int
    ensures y < 0x1_0000 && ConfigAddress(b, d, f, o) == 0x8000_0000 | ((b as bv32) << 16) | y
  {
    var dev, func, low := Widened(d, f, o);
    y := LowPart(dev, func, low);
  }

  /** The word as a number: the enable bit, then bus, device, function and doubleword. */
  lemma {:induction false} AddressWord(b: bv8, d: bv8, f: bv8, o: bv16)
    requires ValidFunction(d, f)
    ensures ConfigAddress(b, d, f, o) as int ==
      0x8000_0000 + b as int * 0x1_0000 + d as int * 0x800 + f as int * 0x100 + (o & 0xFC) as int
  {
    var y := HighAndLow(b, d, f, o);
    HighPart(b, y);
  }

  /** Every field can be read back from the address word. */
  lemma {:induction false} AddressFields(b: bv8, d: bv8, f: bv8, o: bv16)
    requires ValidFunction(d, f)
    ensures var a := ConfigAddress(b, d, f, o);
      && (a >> 16) & 0xFF == b as bv32 && (a >> 11) & 0x1F == d as bv32
      && (a >> 8) & 7 == f as bv32 && a & 0xFC == (o & 0xFC) as bv32
  {
  }

  /** Two addresses are equal exactly when bus, device, function and doubleword are. */
  lemma {:induction false} AddressesNeverAlias(b: bv8, d: bv8, f: bv8, o: bv16, b': bv8, d': bv8, f': bv8, o': bv16)
    requires ValidFunction(d, f) && ValidFunction(d', f')
    ensures ConfigAddress(b, d, f, o) == ConfigAddress(b', d', f', o') <==>
      b == b' && d == d' && f == f' && o & 0xFC == o' & 0xFC
  {
    if ConfigAddress(b, d, f, o) == ConfigAddress(b', d', f', o') {
      AddressFields(b, d, f, o);
      AddressFields(b', d', f', o');
      FieldsDecide(b, d, f, o & 0xFC, b', d', f', o' & 0xFC);
    }
    if o & 0xFC == o' & 0xFC {
      SameDword(b, d, f, o, o');
    }
  }

  lemma {:induction false} FieldsDecide(b: bv8, d: bv8, f: bv8, o: bv16, b': bv8, d': bv8, f': bv8, o': bv16)
    requires b as bv32 == b' as bv32 && d as bv32 == d' as bv32 && f as bv32 == f' as bv32 && o as bv32 == o' as bv32
    ensures b == b' && d == d' && f == f' && o == o'
  {
  }

  lemma {:induction false} SameDword(b: bv8, d: bv8, f: bv8, o: bv16, o': bv16)
    requires o & 0xFC == o' & 0xFC
    ensures ConfigAddress(b, d, f, o) == ConfigAddress(b, d, f, o')
  {
    assert (o as bv32) & 0xFC == (o' as bv32) & 0xFC;
  }

  // ---------------------------------------------------------------------
  // Bytes of a doubleword
  // ---------------------------------------------------------------------

  /** Byte `k` of a little-endian doubleword. */
  function Lane(dword: bv32, k: nat): bv8
    requires k < 4
  {
    if k == 0 then (dword & 0xFF) as bv8
    else if k == 1 then ((dword >> 8) & 0xFF) as bv8
    else if k == 2 then ((dword >> 16) & 0xFF) as bv8
    else (dword >> 24) as bv8
  }

  /** The place of an offset within its doubleword. */
  function LaneOf(offset: bv16): (k: nat)
    ensures k < 4
  {
    if offset & 3 == 0 then 0 else if offset & 3 == 1 then 1 else if offset & 3 == 2 then 2 else 3
  }

  function LowByte(v: bv16): bv8 { (v & 0xFF) as bv8 }
  function HighByte(v: bv16): bv8 { (v >> 8) as bv8 }

  function ByteShift(offset: bv16): (shift: bv32)
    ensures shift <= 24
  {
    ((offset & 3) * 8) as bv32
  }

  function HalfShift(offset: bv16): (shift: bv32)
    ensures shift <= 16
  {
    ((offset & 2) * 8) as bv32
  }

  /** The doubleword with the bits of `ones << shift` replaced by `value << shift`. */
  function Insert(dword: bv32, ones: bv32, shift: bv32, value: bv32): bv32
    requires shift <= 24
  {
    (dword & !(ones << shift)) | (value << shift)
  }

  /** `write_pci_u8`: the doubleword with one byte replaced. */
  function MergeByte(dword: bv32, offset: bv16, value: bv8): bv32 {
    Insert(dword, 0xFF, ByteShift(offset), value as bv32)
  }

  /** `write_pci_u16`: the doubleword with one aligned half replaced. */
  function MergeHalf(dword: bv32, offset: bv16, value: bv16): bv32 {
    Insert(dword, 0xFFFF, HalfShift(offset), value as bv32)
  }

  lemma {:induction false} ShiftsAreLanes(offset: bv16)
    ensures ByteShift(offset) == [0, 8, 16, 24][LaneOf(offset)]
    ensures HalfShift(offset) == [0, 16][LaneOf(offset) / 2]
  {
  }

  lemma {:induction false} InsertByte0(dword: bv32, v: bv8, k: nat)
    requires k < 4
    ensures Lane(Insert(dword, 0xFF, 0, v as bv32), k) == if k == 0 then v else Lane(dword, k)
  {
  }

  lemma {:induction false} InsertByte1(dword: bv32, v: bv8, k: nat)
    requires k < 4
    ensures Lane(Insert(dword, 0xFF, 8, v as bv32), k) == if k == 1 then v else Lane(dword, k)
  {
  }

  lemma {:induction false} InsertByte2(dword: bv32, v: bv8, k: nat)
    requires k < 4
    ensures Lane(Insert(dword, 0xFF, 16, v as bv32), k) == if k == 2 then v else Lane(dword, k)
  {
  }

  lemma {:induction false} InsertByte3(dword: bv32, v: bv8, k: nat)
    requires k < 4
    ensures Lane(Insert(dword, 0xFF, 24, v as bv32), k) == if k == 3 then v else Lane(dword, k)
  {
  }

  lemma {:induction false} InsertLowHalf(dword: bv32, v: bv16, k: nat)
    requires k < 4
    ensures Lane(Insert(dword, 0xFFFF, 0, v as bv32), k) ==
      if k == 0 then LowByte(v) else if k == 1 then HighByte(v) else Lane(dword, k)
  {
  }

  lemma {:induction false} InsertHighHalf(dword: bv32, v: bv16, k: nat)
    requires k < 4
    ensures Lane(Insert(dword, 0xFFFF, 16, v as bv32), k) ==
      if k == 2 then LowByte(v) else if k == 3 then HighByte(v) else Lane(dword, k)
  {
  }

  lemma {:induction false} MergeByteLanes(dword: bv32, offset: bv16, value: bv8, k: nat)
    requires k < 4
    ensures Lane(MergeByte(dword, offset, value), k) == if k == LaneOf(offset) then value else Lane(dword, k)
  {
    ShiftsAreLanes(offset);
    match LaneOf(offset) {
      case 0 => InsertByte0(dword, value, k);
      case 1 => InsertByte1(dword, value, k);
      case 2 => InsertByte2(dword, value, k);
      case _ => InsertByte3(dword, value, k);
    }
  }

  lemma {:induction false} MergeHalfLanes(dword: bv32, offset: bv16, value: bv16, k: nat)
    requires k < 4
    ensures Lane(MergeHalf(dword, offset, value), k) ==
      if k / 2 != LaneOf(offset) / 2 then Lane(dword, k)
      else if k % 2 == 0 then LowByte(value) else HighByte(value)
  {
    ShiftsAreLanes(offset);
    if LaneOf(offset) / 2 == 0 {
      InsertLowHalf(dword, value, k);
    } else {
      InsertHighHalf(dword, value, k);
    }
  }

  /** A doubleword is its four bytes, lowest first. */
  lemma {:induction false} DwordIsItsBytes(dword: bv32)
    ensures dword == (Lane(dword, 0) as bv32) | ((Lane(dword, 1) as bv32) << 8)
                   | ((Lane(dword, 2) as bv32) << 16) | ((Lane(dword, 3) as bv32) << 24)
  {
  }

  // ---------------------------------------------------------------------
  // Writes as seen byte by byte
  // ---------------------------------------------------------------------

  datatype Function = Function(bus: bv8, dev: bv8, func: bv8)

  datatype Write =
    | Write8(at: Function, offset: bv16, byte: bv8)
    | Write16(at: Function, offset: bv16, half: bv16)
    | Write32(at: Function, offset: bv16, dword: bv32)

  predicate Valid(f: Function) {
    ValidFunction(f.dev, f.func)
  }

  function AddressOf(f: Function, offset: bv16): bv32 {
    ConfigAddress(f.bus, f.dev, f.func, offset)
  }

  /** What one write makes of configuration space. */
  function Written(s: Space, w: Write): Space {
    var a := AddressOf(w.at, w.offset);
    match w
    case Write8(_, offset, v) => Store(s, a, MergeByte(Dword(s, a), offset, v))
    case Write16(_, offset, v) => Store(s, a, MergeHalf(Dword(s, a), offset, v))
    case Write32(_, _, v) => Store(s, a, v)
  }

  /** The byte at `offset` of `f`, as a doubleword read shows it. */
  function ByteAt(s: Space, f: Function, offset: bv16): bv8 {
    Lane(Dword(s, AddressOf(f, offset)), LaneOf(offset))
  }

  /** The byte at `offset` of `f` after the write, in a plain array of bytes: a byte write sets the
      byte at the low eight bits of its offset, a half write the two bytes of the aligned half, a
      doubleword write the four bytes of the aligned doubleword. */
  function ByteAfter(w: Write, f: Function, offset: bv16, before: bv8): bv8 {
    match w
    case Write8(at, o, v) => if f == at && offset == o & 0xFF then v else before
    case Write16(at, o, v) =>
      if f == at && offset & 0xFE == o & 0xFE then (if offset & 1 == 0 then LowByte(v) else HighByte(v)) else before
    case Write32(at, o, v) =>
      if f == at && offset & 0xFC == o & 0xFC then Lane(v, LaneOf(offset)) else before
  }

  lemma {:induction false} OffsetParts(o: bv16, p: bv16)
    requires o < 256
    ensures o == p & 0xFF <==> o & 0xFC == p & 0xFC && LaneOf(o) == LaneOf(p)
    ensures o & 0xFE == p & 0xFE <==> o & 0xFC == p & 0xFC && LaneOf(o) / 2 == LaneOf(p) / 2
    ensures o & 1 == 0 <==> LaneOf(o) % 2 == 0
  {
  }

  lemma {:induction false} SameDwordIff(f: Function, o: bv16, g: Function, p: bv16)
    requires Valid(f) && Valid(g)
    ensures AddressOf(f, o) == AddressOf(g, p) <==> f == g && o & 0xFC == p & 0xFC
  {
    AddressesNeverAlias(f.bus, f.dev, f.func, o, g.bus, g.dev, g.func, p);
  }

  /** Storing a doubleword at `o` of `at` changes the bytes of that doubleword only. */
  lemma {:induction false} BytesAfterStore(s: Space, at: Function, o: bv16, v: bv32, f: Function, offset: bv16)
    requires Valid(at) && Valid(f)
    ensures ByteAt(Store(s, AddressOf(at, o), v), f, offset) ==
      if f == at && offset & 0xFC == o & 0xFC then Lane(v, LaneOf(offset)) else ByteAt(s, f, offset)
    ensures f == at && offset & 0xFC == o & 0xFC ==> AddressOf(f, offset) == AddressOf(at, o)
  {
    SameDwordIff(f, offset, at, o);
    DwordAfterStore(s, AddressOf(at, o), v, AddressOf(f, offset));
  }

  lemma {:induction false} ByteWriteChanges(s: Space, at: Function, o: bv16, v: bv8, f: Function, offset: bv16)
    requires Valid(at) && Valid(f) && offset < 256
    ensures ByteAt(Written(s, Write8(at, o, v)), f, offset) ==
      if f == at && offset == o & 0xFF then v else ByteAt(s, f, offset)
  {
    var before := Dword(s, AddressOf(at, o));
    BytesAfterStore(s, at, o, MergeByte(before, o, v), f, offset);
    MergeByteLanes(before, o, v, LaneOf(offset));
    OffsetParts(offset, o);
  }

  lemma {:induction false} HalfWriteChanges(s: Space, at: Function, o: bv16, v: bv16, f: Function, offset: bv16)
    requires Valid(at) && Valid(f) && offset < 256
    ensures ByteAt(Written(s, Write16(at, o, v)), f, offset) ==
      if f == at && offset & 0xFE == o & 0xFE then (if offset & 1 == 0 then LowByte(v) else HighByte(v))
      else ByteAt(s, f, offset)
  {
    var before := Dword(s, AddressOf(at, o));
    BytesAfterStore(s, at, o, MergeHalf(before, o, v), f, offset);
    MergeHalfLanes(before, o, v, LaneOf(offset));
    OffsetParts(offset, o);
  }

  /** One write changes exactly the bytes it names, of exactly the function it names. */
  lemma {:induction false} WriteIsByteWrite(s: Space, w: Write, f: Function, offset: bv16)
    requires Valid(w.at) && Valid(f) && offset < 256
    ensures ByteAt(Written(s, w), f, offset) == ByteAfter(w, f, offset, ByteAt(s, f, offset))
  {
    match w {
      case Write8(at, o, v) => ByteWriteChanges(s, at, o, v, f, offset);
      case Write16(at, o, v) => HalfWriteChanges(s, at, o, v, f, offset);
      case Write32(at, o, v) => BytesAfterStore(s, at, o, v, f, offset);
    }
  }

  function WrittenAll(s: Space, ws: seq<Write>): Space {
    if ws == [] then s else Written(WrittenAll(s, ws[..|ws| - 1]), ws[|ws| - 1])
  }

  function ByteAfterAll(ws: seq<Write>, f: Function, offset: bv16, before: bv8): bv8 {
    if ws == [] then before
    else ByteAfter(ws[|ws| - 1], f, offset, ByteAfterAll(ws[..|ws| - 1], f, offset, before))
  }

  /** Any sequence of byte, half and doubleword writes leaves configuration space looking like a
      little-endian byte array under the same writes. */
  lemma {:induction false} WritesRefineByteArray(s: Space, ws: seq<Write>, f: Function, offset: bv16)
    requires forall w | w in ws :: Valid(w.at)
    requires Valid(f) && offset < 256
    ensures ByteAt(WrittenAll(s, ws), f, offset) == ByteAfterAll(ws, f, offset, ByteAt(s, f, offset))
  {
    if ws != [] {
      WritesRefineByteArray(s, ws[..|ws| - 1], f, offset);
      WriteIsByteWrite(WrittenAll(s, ws[..|ws| - 1]), ws[|ws| - 1], f, offset);
    }
  }

  /** What `read_pci_u8` returns. */
  function ReadByte(s: Space, f: Function, offset: bv16): bv8 {
    Lane(Dword(s, AddressOf(f, offset)), 0)
  }

  lemma {:induction false} DwordStart(f: Function, offset: bv16)
    ensures AddressOf(f, offset & 0xFC) == AddressOf(f, offset) == AddressOf(f, (offset & 0xFC) | 1)
    ensures LaneOf(offset & 0xFC) == 0 && LaneOf((offset & 0xFC) | 1) == 1
  {
    SameDword(f.bus, f.dev, f.func, offset, offset & 0xFC);
    SameDword(f.bus, f.dev, f.func, offset, (offset & 0xFC) | 1);
  }

  /** `read_pci_u8` gives the lowest byte of the containing doubleword whatever the offset, so a
      byte just written is read back only at a doubleword boundary or by coincidence. */
  lemma {:induction false} ByteReadBack(s: Space, f: Function, offset: bv16, v: bv8)
    requires Valid(f)
    ensures ReadByte(s, f, offset) == ByteAt(s, f, offset & 0xFC)
    ensures ReadByte(Written(s, Write8(f, offset, v)), f, offset) == v <==>
      LaneOf(offset) == 0 || ReadByte(s, f, offset) == v
  {
    var a := AddressOf(f, offset);
    DwordStart(f, offset);
    MergeByteLanes(Dword(s, a), offset, v, 0);
    DwordAfterStore(s, a, MergeByte(Dword(s, a), offset, v), a);
  }

  /** What `read_pci_u16` returns. */
  function ReadHalf(s: Space, f: Function, offset: bv16): bv16 {
    LowHalf(Dword(s, AddressOf(f, offset)))
  }

  function LowHalf(dword: bv32): bv16 {
    (dword & 0xFFFF) as bv16
  }

  lemma {:induction false} HalfIsItsBytes(dword: bv32, v: bv16)
    ensures LowHalf(dword) == v <==> Lane(dword, 0) == LowByte(v) && Lane(dword, 1) == HighByte(v)
  {
  }

  lemma {:induction false} MergeHalfReads(dword: bv32, offset: bv16, v: bv16)
    ensures LowHalf(MergeHalf(dword, offset, v)) == if LaneOf(offset) < 2 then v else LowHalf(dword)
  {
    MergeHalfLanes(dword, offset, v, 0);
    MergeHalfLanes(dword, offset, v, 1);
    HalfIsItsBytes(MergeHalf(dword, offset, v), if LaneOf(offset) < 2 then v else LowHalf(dword));
    HalfIsItsBytes(dword, LowHalf(dword));
  }

  /** Likewise `read_pci_u16` gives the lower half, so a half just written is read back only in the
      lower half of its doubleword or by coincidence. */
  lemma {:induction false} HalfReadBack(s: Space, f: Function, offset: bv16, v: bv16)
    requires Valid(f)
    ensures LowByte(ReadHalf(s, f, offset)) == ByteAt(s, f, offset & 0xFC)
    ensures HighByte(ReadHalf(s, f, offset)) == ByteAt(s, f, (offset & 0xFC) | 1)
    ensures ReadHalf(Written(s, Write16(f, offset, v)), f, offset) == v <==>
      LaneOf(offset) < 2 || ReadHalf(s, f, offset) == v
  {
    var a := AddressOf(f, offset);
    DwordStart(f, offset);
    HalfIsItsBytes(Dword(s, a), ReadHalf(s, f, offset));
    MergeHalfReads(Dword(s, a), offset, v);
    DwordAfterStore(s, a, MergeHalf(Dword(s, a), offset, v), a);
  }

  // ---------------------------------------------------------------------
  // The ports
  // ---------------------------------------------------------------------

  class ConfigPorts {
    var latch: bv32
    var space: Space

    constructor (space: Space)
      ensures this.space == space
    {
      latch := 0;
      this.space := space;
    }

    method OutAddress(address: bv32)
      modifies this`latch
      ensures latch == address
    {
      latch := address;
    }

    method InData() returns (v: bv32)
      ensures v == Dword(space, latch)
    {
      v := Dword(space, latch);
    }

    method OutData(v: bv32)
      modifies this`space
      ensures space == Store(old(space), latch, v)
    {
      space := Store(space, latch, v);
    }

    method ReadU32(f: Function, offset: bv16) returns (v: bv32)
      modifies this`latch
      ensures latch == AddressOf(f, offset)
      ensures v == Dword(space, AddressOf(f, offset))
    {
      OutAddress(AddressOf(f, offset));
      v := InData();
    }

    method WriteU32(f: Function, offset: bv16, v: bv32)
      modifies this
      ensures latch == AddressOf(f, offset)
      ensures space == Written(old(space), Write32(f, offset, v))
    {
      OutAddress(AddressOf(f, offset));
      OutData(v);
    }

    method WriteU16(f: Function, offset: bv16, v: bv16)
      modifies this
      ensures latch == AddressOf(f, offset)
      ensures space == Written(old(space), Write16(f, offset, v))
    {
      var before := ReadU32(f, offset);
      WriteU32(f, offset, MergeHalf(before, offset, v));
    }

    method WriteU8(f: Function, offset: bv16, v: bv8)
      modifies this
      ensures latch == AddressOf(f, offset)
      ensures space == Written(old(space), Write8(f, offset, v))
    {
      var before := ReadU32(f, offset);
      WriteU32(f, offset, MergeByte(before, offset, v));
    }

    method ReadU8(f: Function, offset: bv16) returns (v: bv8)
      modifies this`latch
      ensures latch == AddressOf(f, offset)
      ensures v == ReadByte(space, f, offset)
    {
      var d := ReadU32(f, offset);
      v := (d & 0xFF) as bv8;
    }

    method ReadU16(f: Function, offset: bv16) returns (v: bv16)
      modifies this`latch
      ensures latch == AddressOf(f, offset)
      ensures v == ReadHalf(space, f, offset)
    {
      var d := ReadU32(f, offset);
      v := (d & 0xFFFF) as bv16;
    }
  }
}
