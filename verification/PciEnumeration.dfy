/** The bus scan of kernel/src/pcie.rs over an arbitrary configuration space. */
module PciEnumeration {
  import opened PciConfig

  datatype Report = Report(
    bus: nat, device: nat, func: nat,
    vendor: bv16, deviceId: bv16, classCode: bv8, subclass: bv8, progIf: bv8)

  function At(b: nat, d: nat, f: nat): Function
    requires b < 256 && d < 32 && f < 8
  {
    Function(b as bv8, d as bv8, f as bv8)
  }

  function Register(s: Space, b: nat, d: nat, f: nat, offset: bv16): bv32
    requires b < 256 && d < 32 && f < 8
  {
    Dword(s, AddressOf(At(b, d, f), offset))
  }

  function Byte(v: bv32, shift: nat): bv8
    requires shift <= 24
  {
    ((v >> shift) & 0xFF) as bv8
  }

  /** A function answers unless its vendor and device read as all ones. */
  predicate Present(s: Space, b: nat, d: nat, f: nat)
    requires b < 256 && d < 32 && f < 8
  {
    Register(s, b, d, f, 0x00) != 0xFFFF_FFFF
  }

  predicate MultiFunction(s: Space, b: nat, d: nat)
    requires b < 256 && d < 32
  {
    Byte(Register(s, b, d, 0, 0x0C), 16) & 0x80 != 0
  }

  /** The functions the scan is meant to find. */
  predicate Reported(s: Space, b: nat, d: nat, f: nat)
    requires b < 256 && d < 32 && f < 8
  {
    Present(s, b, d, f) && (f == 0 || !Present(s, b, d, 0) || MultiFunction(s, b, d))
  }

  /** What the vendor and class registers say of a function. */
  function Fields(b: nat, d: nat, f: nat, id: bv32, class_: bv32): Report {
    Report(b, d, f, (id & 0xFFFF) as bv16, ((id >> 16) & 0xFFFF) as bv16,
           Byte(class_, 24), Byte(class_, 16), Byte(class_, 8))
  }

  function Describe(s: Space, b: nat, d: nat, f: nat): Report
    requires b < 256 && d < 32 && f < 8
  {
    Fields(b, d, f, Register(s, b, d, f, 0x00), Register(s, b, d, f, 0x08))
  }

  /** The place of a function in the scan. */
  function Place(b: nat, d: nat, f: nat): nat {
    b * 256 + d * 8 + f
  }

  ghost predicate EntryOk(s: Space, r: Report, limit: nat) {
    && r.bus < 256 && r.device < 32 && r.func < 8
    && Place(r.bus, r.device, r.func) < limit
    && Reported(s, r.bus, r.device, r.func)
    && r == Describe(s, r.bus, r.device, r.func)
  }

  ghost predicate InOrder(log: seq<Report>, i: int, j: int) {
    0 <= i < j < |log| ==>
      Place(log[i].bus, log[i].device, log[i].func) < Place(log[j].bus, log[j].device, log[j].func)
  }

  ghost predicate Found(s: Space, log: seq<Report>, limit: nat, b: nat, d: nat, f: nat) {
    b < 256 && d < 32 && f < 8 && Place(b, d, f) < limit && Reported(s, b, d, f) ==> Describe(s, b, d, f) in log
  }

  /** The log lists exactly the functions to be found before `limit`, each once, in order. */
  ghost predicate Complete(s: Space, log: seq<Report>, limit: nat) {
    && (forall r | r in log :: EntryOk(s, r, limit))
    && (forall i, j {:trigger InOrder(log, i, j)} :: InOrder(log, i, j))
    && (forall b: nat, d: nat, f: nat {:trigger Found(s, log, limit, b, d, f)} :: Found(s, log, limit, b, d, f))
  }

  lemma {:induction false} PlacesDiffer(b: nat, d: nat, f: nat, b': nat, d': nat, f': nat)
    requires b < 256 && d < 32 && f < 8 && b' < 256 && d' < 32 && f' < 8
    ensures Place(b, d, f) == Place(b', d', f') ==> b == b' && d == d' && f == f'
  {
  }

  lemma {:induction false} FoundBefore(s: Space, log: seq<Report>, b: nat, d: nat, f: nat, b': nat, d': nat, f': nat)
    requires b < 256 && d < 32 && f < 8 && Found(s, log, Place(b, d, f), b', d', f')
    ensures Found(s, log, Place(b, d, f + 1), b', d', f') || (b' == b && d' == d && f' == f && Reported(s, b, d, f))
  {
    if b' < 256 && d' < 32 && f' < 8 {
      PlacesDiffer(b, d, f, b', d', f');
    }
  }

  /** The scan moves past a function it does not report. */
  lemma {:induction false} PassesOver(s: Space, log: seq<Report>, b: nat, d: nat, f: nat)
    requires b < 256 && d < 32 && f < 8 && Complete(s, log, Place(b, d, f)) && !Reported(s, b, d, f)
    ensures Complete(s, log, Place(b, d, f + 1))
  {
    var limit := Place(b, d, f + 1);
    forall b': nat, d': nat, f': nat
      ensures Found(s, log, limit, b', d', f')
    {
      FoundBefore(s, log, b, d, f, b', d', f');
    }
  }

  /** The scan moves past a function it reports. */
  lemma {:induction false} Appends(s: Space, log: seq<Report>, b: nat, d: nat, f: nat)
    requires b < 256 && d < 32 && f < 8 && Complete(s, log, Place(b, d, f)) && Reported(s, b, d, f)
    ensures Complete(s, log + [Describe(s, b, d, f)], Place(b, d, f + 1))
  {
    var log', limit := log + [Describe(s, b, d, f)], Place(b, d, f + 1);
    forall b': nat, d': nat, f': nat
      ensures Found(s, log', limit, b', d', f')
    {
      assert Found(s, log, Place(b, d, f), b', d', f');
      FoundBefore(s, log, b, d, f, b', d', f');
      assert Describe(s, b, d, f) == log'[|log|];
    }
    forall i, j
      ensures InOrder(log', i, j)
    {
      assert InOrder(log, i, j);
      if 0 <= i < |log| {
        assert log'[i] == log[i] && log[i] in log;
      }
    }
  }

  /** The scan moves past the rest of a device that answers as a single function. */
  lemma {:induction false} SkipsRest(s: Space, log: seq<Report>, b: nat, d: nat)
    requires b < 256 && d < 32 && Present(s, b, d, 0) && !MultiFunction(s, b, d)
    requires Complete(s, log, Place(b, d, 1))
    ensures Complete(s, log, Place(b, d + 1, 0))
  {
    var limit := Place(b, d + 1, 0);
    forall b': nat, d': nat, f': nat
      ensures Found(s, log, limit, b', d', f')
    {
      assert Found(s, log, Place(b, d, 1), b', d', f');
      if b' < 256 && d' < 32 && f' < 8 && Place(b, d, 1) <= Place(b', d', f') < Place(b, d + 1, 0) {
        assert b' == b && d' == d && f' >= 1;
      }
    }
  }

  /** A function that answers is reported, the rest of its device being scanned only when function
      0 allows it. */
  lemma {:induction false} ReportsOne(s: Space, log: seq<Report>, b: nat, d: nat, f: nat, id: bv32, class_: bv32)
    requires b < 256 && d < 32 && f < 8 && Complete(s, log, Place(b, d, f)) && Present(s, b, d, f)
    requires id == Register(s, b, d, f, 0x00) && class_ == Register(s, b, d, f, 0x08)
    requires f > 0 && Present(s, b, d, 0) ==> MultiFunction(s, b, d)
    ensures Complete(s, log + [Fields(b, d, f, id, class_)], Place(b, d, f + 1))
  {
    Appends(s, log, b, d, f);
  }

  lemma {:induction false} NothingYet(s: Space, limit: nat)
    requires limit == 0
    ensures Complete(s, [], limit)
  {
    forall b: nat, d: nat, f: nat
      ensures Found(s, [], limit, b, d, f)
    {
      NothingBefore(s, limit, b, d, f);
    }
  }

  lemma {:induction false} NothingBefore(s: Space, limit: nat, b: nat, d: nat, f: nat)
    requires limit == 0
    ensures Found(s, [], limit, b, d, f)
  {
    assert !(Place(b, d, f) < limit);
  }

  /** The three nested loops: the log holds exactly the functions to be found, each once, in
      bus, device, function order, with the fields their registers hold. */
  method EnumeratePci(ports: ConfigPorts) returns (log: seq<Report>)
    modifies ports`latch
    ensures Complete(ports.space, log, Place(256, 0, 0))
  {
    ghost var s := ports.space;
    NothingYet(s, Place(0, 0, 0));
    log := [];
    for bus := 0 to 256
      invariant ports.space == s && Complete(s, log, Place(bus, 0, 0))
    {
      log := ScanBus(ports, bus, log);
    }
  }

  method ScanBus(ports: ConfigPorts, bus: nat, before: seq<Report>) returns (log: seq<Report>)
    requires bus < 256 && Complete(ports.space, before, Place(bus, 0, 0))
    modifies ports`latch
    ensures Complete(ports.space, log, Place(bus + 1, 0, 0))
  {
    ghost var s := ports.space;
    log := before;
    for device := 0 to 32
      invariant ports.space == s && Complete(s, log, Place(bus, device, 0))
    {
      log := ScanDevice(ports, bus, device, log);
    }
    assert Place(bus, 32, 0) == Place(bus + 1, 0, 0);
  }

  method ScanDevice(ports: ConfigPorts, bus: nat, device: nat, before: seq<Report>) returns (log: seq<Report>)
    requires bus < 256 && device < 32 && Complete(ports.space, before, Place(bus, device, 0))
    modifies ports`latch
    ensures Complete(ports.space, log, Place(bus, device + 1, 0))
  {
    ghost var s := ports.space;
    log := before;
    var func := 0;
    while func < 8
      invariant 0 <= func <= 8 && Complete(s, log, Place(bus, device, func))
      invariant func > 0 && Present(s, bus, device, 0) ==> MultiFunction(s, bus, device)
    {
      var at := At(bus, device, func);
      var vendorDevice := ports.ReadU32(at, 0x00);
      if vendorDevice == 0xFFFF_FFFF {
        PassesOver(s, log, bus, device, func);
        func := func + 1;
        continue;
      }
      var vendorId := (vendorDevice & 0xFFFF) as bv16;
      var deviceId := ((vendorDevice >> 16) & 0xFFFF) as bv16;

      var classReg := ports.ReadU32(at, 0x08);
      var classCode := Byte(classReg, 24);
      var subclass := Byte(classReg, 16);
      var progIf := Byte(classReg, 8);

      var headerTypeReg := ports.ReadU32(at, 0x0C);
      var headerType := Byte(headerTypeReg, 16);

      var report := Report(bus, device, func, vendorId, deviceId, classCode, subclass, progIf);
      ReportsOne(s, log, bus, device, func, vendorDevice, classReg);
      log := log + [report];

      if func == 0 && headerType & 0x80 == 0 {
        SkipsRest(s, log, bus, device);
        return;
      }
      func := func + 1;
    }
    assert Place(bus, device, 8) == Place(bus, device + 1, 0);
  }

  // ---------------------------------------------------------------------
  // The scan in terms of the bytes of configuration space
  // ---------------------------------------------------------------------

  /** No function is there: its first four bytes read as all ones. */
  predicate Absent(s: Space, at: Function) {
    ByteAt(s, at, 0) == 0xFF && ByteAt(s, at, 1) == 0xFF && ByteAt(s, at, 2) == 0xFF && ByteAt(s, at, 3) == 0xFF
  }

  /** The fields of an entry are the bytes of the function it names. */
  predicate SaysBytes(s: Space, r: Report)
    requires r.bus < 256 && r.device < 32 && r.func < 8
  {
    var at := Function(r.bus as bv8, r.device as bv8, r.func as bv8);
    && LowByte(r.vendor) == ByteAt(s, at, 0) && HighByte(r.vendor) == ByteAt(s, at, 1)
    && LowByte(r.deviceId) == ByteAt(s, at, 2) && HighByte(r.deviceId) == ByteAt(s, at, 3)
    && r.progIf == ByteAt(s, at, 9) && r.subclass == ByteAt(s, at, 10) && r.classCode == ByteAt(s, at, 11)
  }

  lemma {:induction false} BytesOf(s: Space, at: Function)
    ensures var d := Dword(s, AddressOf(at, 0x00));
      && ByteAt(s, at, 0) == Lane(d, 0) && ByteAt(s, at, 1) == Lane(d, 1)
      && ByteAt(s, at, 2) == Lane(d, 2) && ByteAt(s, at, 3) == Lane(d, 3)
    ensures var d := Dword(s, AddressOf(at, 0x08));
      ByteAt(s, at, 9) == Lane(d, 1) && ByteAt(s, at, 10) == Lane(d, 2) && ByteAt(s, at, 11) == Lane(d, 3)
    ensures ByteAt(s, at, 14) == Lane(Dword(s, AddressOf(at, 0x0C)), 2)
  {
    SameDword(at.bus, at.dev, at.func, 0, 1);
    SameDword(at.bus, at.dev, at.func, 0, 2);
    SameDword(at.bus, at.dev, at.func, 0, 3);
    SameDword(at.bus, at.dev, at.func, 8, 9);
    SameDword(at.bus, at.dev, at.func, 8, 10);
    SameDword(at.bus, at.dev, at.func, 8, 11);
    SameDword(at.bus, at.dev, at.func, 12, 14);
  }

  lemma {:induction false} IdLanes(id: bv32)
    ensures id == 0xFFFF_FFFF <==>
      Lane(id, 0) == 0xFF && Lane(id, 1) == 0xFF && Lane(id, 2) == 0xFF && Lane(id, 3) == 0xFF
    ensures LowByte((id & 0xFFFF) as bv16) == Lane(id, 0) && HighByte((id & 0xFFFF) as bv16) == Lane(id, 1)
    ensures LowByte(((id >> 16) & 0xFFFF) as bv16) == Lane(id, 2)
    ensures HighByte(((id >> 16) & 0xFFFF) as bv16) == Lane(id, 3)
  {
  }

  lemma {:induction false} ByteIsLane(v: bv32)
    ensures Byte(v, 8) == Lane(v, 1) && Byte(v, 16) == Lane(v, 2) && Byte(v, 24) == Lane(v, 3)
  {
  }

  predicate SaysLanes(r: Report, id: bv32, class_: bv32) {
    && LowByte(r.vendor) == Lane(id, 0) && HighByte(r.vendor) == Lane(id, 1)
    && LowByte(r.deviceId) == Lane(id, 2) && HighByte(r.deviceId) == Lane(id, 3)
    && r.progIf == Lane(class_, 1) && r.subclass == Lane(class_, 2) && r.classCode == Lane(class_, 3)
  }

  lemma {:induction false} FieldsSayLanes(b: nat, d: nat, f: nat, id: bv32, class_: bv32)
    ensures SaysLanes(Fields(b, d, f, id, class_), id, class_)
  {
    IdLanes(id);
    ByteIsLane(class_);
  }

  lemma {:induction false} LanesAreBytes(s: Space, r: Report)
    requires r.bus < 256 && r.device < 32 && r.func < 8
    requires var at := At(r.bus, r.device, r.func);
      SaysLanes(r, Dword(s, AddressOf(at, 0x00)), Dword(s, AddressOf(at, 0x08)))
    ensures SaysBytes(s, r)
  {
    BytesOf(s, At(r.bus, r.device, r.func));
  }

  lemma {:induction false} DescribeSaysBytes(s: Space, b: nat, d: nat, f: nat)
    requires b < 256 && d < 32 && f < 8
    ensures SaysBytes(s, Describe(s, b, d, f))
  {
    FieldsSayLanes(b, d, f, Register(s, b, d, f, 0x00), Register(s, b, d, f, 0x08));
    LanesAreBytes(s, Describe(s, b, d, f));
  }

  lemma {:induction false} PresentInBytes(s: Space, b: nat, d: nat, f: nat)
    requires b < 256 && d < 32 && f < 8
    ensures Present(s, b, d, f) <==> !Absent(s, Function(b as bv8, d as bv8, f as bv8))
    ensures Address(AddressOf(At(b, d, f), 0)) !in s ==> !Present(s, b, d, f)
  {
    BytesOf(s, At(b, d, f));
    IdLanes(Register(s, b, d, f, 0x00));
  }

  lemma {:induction false} MultiFunctionInBytes(s: Space, b: nat, d: nat)
    requires b < 256 && d < 32
    ensures MultiFunction(s, b, d) <==> ByteAt(s, Function(b as bv8, d as bv8, 0), 14) & 0x80 != 0
  {
    BytesOf(s, At(b, d, 0));
    ByteIsLane(Register(s, b, d, 0, 0x0C));
  }

  /** A function is to be found if it is there, and is function 0 or its device is not one with a
      function 0 that says it is alone. */
  predicate ToBeFound(s: Space, b: nat, d: nat, f: nat)
    requires b < 256 && d < 32 && f < 8
  {
    var zero := Function(b as bv8, d as bv8, 0);
    && !Absent(s, Function(b as bv8, d as bv8, f as bv8))
    && (f == 0 || Absent(s, zero) || ByteAt(s, zero, 14) & 0x80 != 0)
  }

  lemma {:induction false} ReportedInBytes(s: Space, b: nat, d: nat, f: nat)
    requires b < 256 && d < 32 && f < 8
    ensures Reported(s, b, d, f) <==> ToBeFound(s, b, d, f)
  {
    PresentInBytes(s, b, d, f);
    PresentInBytes(s, b, d, 0);
    MultiFunctionInBytes(s, b, d);
  }

  /** What a complete scan means, function by function, in bytes of configuration space. */
  lemma {:induction false} ScanFindsExactlyThem(s: Space, log: seq<Report>)
    requires Complete(s, log, Place(256, 0, 0))
    ensures forall b: nat, d: nat, f: nat | b < 256 && d < 32 && f < 8 ::
      (exists r :: r in log && r.bus == b && r.device == d && r.func == f) <==> ToBeFound(s, b, d, f)
    ensures forall r | r in log :: r.bus < 256 && r.device < 32 && r.func < 8 && SaysBytes(s, r)
    ensures forall i, j | 0 <= i < j < |log| :: log[i] != log[j]
    ensures forall i, j | 0 <= i < j < |log| :: LexBefore(log[i], log[j])
  {
    forall b: nat, d: nat, f: nat | b < 256 && d < 32 && f < 8
      ensures (exists r :: r in log && r.bus == b && r.device == d && r.func == f) <==> ToBeFound(s, b, d, f)
    {
      ReportedInBytes(s, b, d, f);
      assert Found(s, log, Place(256, 0, 0), b, d, f);
      assert Reported(s, b, d, f) ==> Describe(s, b, d, f) in log;
    }
    forall r | r in log
      ensures r.bus < 256 && r.device < 32 && r.func < 8 && SaysBytes(s, r)
    {
      assert EntryOk(s, r, Place(256, 0, 0));
      DescribeSaysBytes(s, r.bus, r.device, r.func);
    }
    forall i, j | 0 <= i < j < |log|
      ensures log[i] != log[j] && LexBefore(log[i], log[j])
    {
      assert InOrder(log, i, j);
      assert log[i] in log && log[j] in log;
      PlaceIsLexicographic(log[i], log[j]);
    }
  }

  predicate LexBefore(x: Report, y: Report) {
    x.bus < y.bus || (x.bus == y.bus && (x.device < y.device || (x.device == y.device && x.func < y.func)))
  }

  lemma {:induction false} PlaceIsLexicographic(x: Report, y: Report)
    requires x.device < 32 && x.func < 8 && y.device < 32 && y.func < 8
    ensures Place(x.bus, x.device, x.func) < Place(y.bus, y.device, y.func) <==> LexBefore(x, y)
  {
  }
}
