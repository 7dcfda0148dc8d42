/**
 Four-level page tables (section 4.5 of volume 3A of the Intel SDM): the software walk of
 kernel/src/memory/mod.rs and the effect of the crate's `map_to`, which
 kernel/src/memory/heap_allocator.rs relies on.
 */
module Paging {
  import opened Arithmetic
  import opened Frames

  const ENTRIES := 512

  type Index = i: nat | i < ENTRIES

  /** What `entry.frame()` distinguishes; an unused entry is all zero. */
  datatype Entry = Unused | Huge | Points(frame: Frame)

  /** The 512 entries of a table; one not listed is unused. */
  type Table = map<Index, Entry>

  const ZEROED: Table := map[]

  /** Physical memory seen as page tables; a frame not listed holds zeroes. */
  type Physical = map<Frame, Table>

  function TableAt(m: Physical, f: Frame): Table {
    if f in m then m[f] else ZEROED
  }

  function EntryAt(m: Physical, f: Frame, i: Index): Entry {
    if i in TableAt(m, f) then TableAt(m, f)[i] else Unused
  }

  // ---------------------------------------------------------------------
  // Addresses
  // ---------------------------------------------------------------------

  function P4(a: nat): Index { a / 0x80_0000_0000 % ENTRIES }
  function P3(a: nat): Index { a / 0x4000_0000 % ENTRIES }
  function P2(a: nat): Index { a / 0x20_0000 % ENTRIES }
  function P1(a: nat): Index { a / 0x1000 % ENTRIES }
  function PageOffset(a: nat): nat { a % PAGE_SIZE }

  function Path(a: nat): (p: seq<Index>)
    ensures |p| == 4
  {
    [P4(a), P3(a), P2(a), P1(a)]
  }

  lemma {:induction false} SplitIndex(a: nat, unit: nat)
    requires unit > 0
    ensures a / unit == ENTRIES * (a / (unit * ENTRIES)) + a / unit % ENTRIES
  {
    DivDiv(a, unit, ENTRIES);
  }

  /** The four indices and the page offset rebuild the low 48 bits of the address. */
  lemma {:induction false} IndicesRebuildAddress(a: nat)
    ensures P4(a) * 0x80_0000_0000 + P3(a) * 0x4000_0000 + P2(a) * 0x20_0000 + P1(a) * 0x1000 + PageOffset(a)
         == a % 0x1_0000_0000_0000
  {
    SplitIndex(a, 0x1000);
    SplitIndex(a, 0x20_0000);
    SplitIndex(a, 0x4000_0000);
    SplitIndex(a, 0x80_0000_0000);
  }

  lemma {:induction false} PageNumber(a: nat)
    ensures a % 0x1_0000_0000_0000 / PAGE_SIZE == P4(a) * 0x800_0000 + P3(a) * 0x4_0000 + P2(a) * 0x200 + P1(a)
  {
    IndicesRebuildAddress(a);
    DivModUnique(a % 0x1_0000_0000_0000, PAGE_SIZE,
                 P4(a) * 0x800_0000 + P3(a) * 0x4_0000 + P2(a) * 0x200 + P1(a), PageOffset(a));
  }

  /** Two addresses share all four indices exactly when they share the page of the low 48 bits. */
  lemma {:induction false} SamePageSamePath(a: nat, b: nat)
    ensures Path(a) == Path(b) <==>
      a % 0x1_0000_0000_0000 / PAGE_SIZE == b % 0x1_0000_0000_0000 / PAGE_SIZE
  {
    PageNumber(a);
    PageNumber(b);
    RadixUnique(P4(a), P3(a), P2(a), P1(a), P4(b), P3(b), P2(b), P1(b));
    assert Path(a) == Path(b) ==>
      (Path(a)[0] == Path(b)[0] && Path(a)[1] == Path(b)[1] && Path(a)[2] == Path(b)[2] && Path(a)[3] == Path(b)[3]);
  }

  /** The inverse: an address built from four indices and an offset is walked by those indices,
      highest level first. */
  lemma {:induction false} BuiltAddressPath(i4: Index, i3: Index, i2: Index, i1: Index, off: nat)
    requires off < PAGE_SIZE
    ensures var a := i4 * 0x80_0000_0000 + i3 * 0x4000_0000 + i2 * 0x20_0000 + i1 * 0x1000 + off;
      Path(a) == [i4, i3, i2, i1] && PageOffset(a) == off
  {
    var a := i4 * 0x80_0000_0000 + i3 * 0x4000_0000 + i2 * 0x20_0000 + i1 * 0x1000 + off;
    var page := i4 * 0x800_0000 + i3 * 0x4_0000 + i2 * 0x200 + i1;
    DivModUnique(a, 0x1_0000_0000_0000, 0, a);
    DivModUnique(a, PAGE_SIZE, page, off);
    PageNumber(a);
    RadixUnique(P4(a), P3(a), P2(a), P1(a), i4, i3, i2, i1);
  }

  /** The lowest address with this path. */
  function AddressFor(path: seq<Index>): nat
    requires |path| == 4
  {
    var i4: nat, i3: nat, i2: nat, i1: nat := path[0], path[1], path[2], path[3];
    i4 * 0x80_0000_0000 + i3 * 0x4000_0000 + i2 * 0x20_0000 + i1 * 0x1000
  }

  lemma {:induction false} AddressForPath(path: seq<Index>)
    requires |path| == 4
    ensures Path(AddressFor(path)) == path && PageOffset(AddressFor(path)) == 0
  {
    BuiltAddressPath(path[0], path[1], path[2], path[3], 0);
  }

  lemma {:induction false} RadixUnique(
      a4: Index, a3: Index, a2: Index, a1: Index, b4: Index, b3: Index, b2: Index, b1: Index)
    ensures a4 * 0x800_0000 + a3 * 0x4_0000 + a2 * 0x200 + a1 == b4 * 0x800_0000 + b3 * 0x4_0000 + b2 * 0x200 + b1
      ==> a4 == b4 && a3 == b3 && a2 == b2 && a1 == b1
  {
  }

  // ---------------------------------------------------------------------
  // The walk
  // ---------------------------------------------------------------------

  datatype Walk = Mapped(address: nat) | NotMapped | HugePanic

  function Next(m: Physical, f: Frame, i: Index): (w: Walk)
    ensures w.Mapped? ==> w.address % PAGE_SIZE == 0
  {
    match EntryAt(m, f, i)
    case Unused => NotMapped
    case Huge => HugePanic
    case Points(g) => Mapped(g)
  }

  /** Radix lookup: one index per level. */
  function Follow(m: Physical, f: Frame, path: seq<Index>): (w: Walk)
    decreases |path|
    ensures w.Mapped? ==> w.address % PAGE_SIZE == 0
  {
    if path == [] then Mapped(f)
    else
      var w := Next(m, f, path[0]);
      if w.Mapped? then Follow(m, w.address, path[1..]) else w
  }

  function Translate(m: Physical, root: Frame, a: nat): Walk {
    var w := Follow(m, root, Path(a));
    if w.Mapped? then Mapped(w.address + PageOffset(a)) else w
  }

  /** The loop of the source; a huge entry is its panic. */
  method VirtualToPhysical(m: Physical, root: Frame, a: nat) returns (w: Walk)
    ensures w == Translate(m, root, a)
  {
    var tableIndexes := Path(a);
    var frame := root;
    var k := 0;
    assert tableIndexes[0..] == tableIndexes;
    while k < |tableIndexes|
      invariant 0 <= k <= |tableIndexes|
      invariant Follow(m, root, tableIndexes) == Follow(m, frame, tableIndexes[k..])
    {
      assert tableIndexes[k..][1..] == tableIndexes[k + 1..];
      var entry := EntryAt(m, frame, tableIndexes[k]);
      match entry {
        case Points(f) => frame := f;
        case Unused => return NotMapped;
        case Huge => return HugePanic;
      }
      k := k + 1;
    }
    return Mapped(frame + PageOffset(a));
  }

  /** Following one more index. */
  lemma {:induction false} FollowSnoc(m: Physical, f: Frame, path: seq<Index>, i: Index)
    ensures Follow(m, f, path + [i]) ==
      var w := Follow(m, f, path);
      if w.Mapped? then Next(m, w.address, i) else w
    decreases |path|
  {
    if path == [] {
      assert [i][1..] == [];
      assert [] + [i] == [i];
    } else {
      assert (path + [i])[1..] == path[1..] + [i];
      var w := Next(m, f, path[0]);
      if w.Mapped? {
        FollowSnoc(m, w.address, path[1..], i);
      }
    }
  }

  lemma {:induction false} FollowLast(m: Physical, f: Frame, path: seq<Index>)
    requires path != []
    ensures Follow(m, f, path) ==
      var w := Follow(m, f, path[..|path| - 1]);
      if w.Mapped? then Next(m, w.address, path[|path| - 1]) else w
  {
    assert path == path[..|path| - 1] + [path[|path| - 1]];
    FollowSnoc(m, f, path[..|path| - 1], path[|path| - 1]);
  }

  /** A walk goes on from where a first part of it led. */
  lemma {:induction false} FollowAppend(m: Physical, f: Frame, a: seq<Index>, b: seq<Index>)
    requires Follow(m, f, a).Mapped?
    ensures Follow(m, f, a + b) == Follow(m, Follow(m, f, a).address, b)
    decreases |a|
  {
    if a == [] {
      assert a + b == b;
    } else {
      assert (a + b)[1..] == a[1..] + b;
      FollowAppend(m, Next(m, f, a[0]).address, a[1..], b);
    }
  }

  /** A walk that stops early gives what it stopped with. */
  lemma {:induction false} FollowStops(m: Physical, f: Frame, path: seq<Index>, k: nat)
    requires k <= |path| && !Follow(m, f, path[..k]).Mapped?
    ensures Follow(m, f, path) == Follow(m, f, path[..k])
    decreases |path| - k
  {
    if k < |path| {
      assert path[..k + 1] == path[..k] + [path[k]];
      FollowSnoc(m, f, path[..k], path[k]);
      FollowStops(m, f, path, k + 1);
    } else {
      assert path[..k] == path;
    }
  }

  /** The walk gives nothing exactly when the table of some level has no entry for its index. */
  lemma {:induction false} NotMappedIffLevelMissing(m: Physical, f: Frame, path: seq<Index>)
    ensures Follow(m, f, path) == NotMapped <==>
      exists k :: 0 <= k < |path| && MissingAt(m, f, path, k)
    decreases |path|
  {
    if path != [] {
      var n := |path| - 1;
      var init := path[..n];
      FollowLast(m, f, path);
      NotMappedIffLevelMissing(m, f, init);
      assert forall k | 0 <= k < n :: init[..k] == path[..k];
      assert forall k | 0 <= k < n :: MissingAt(m, f, init, k) <==> MissingAt(m, f, path, k);
      if Follow(m, f, path) == NotMapped && Follow(m, f, init).Mapped? {
        assert MissingAt(m, f, path, n);
      }
    }
  }

  ghost predicate MissingAt(m: Physical, f: Frame, path: seq<Index>, k: nat)
    requires k < |path|
  {
    var w := Follow(m, f, path[..k]);
    w.Mapped? && EntryAt(m, w.address, path[k]) == Unused
  }

  /** A translation keeps the page offset, and addresses of one page go to one frame. */
  lemma {:induction false} TranslateKeepsOffset(m: Physical, root: Frame, a: nat, b: nat)
    requires Translate(m, root, a).Mapped?
    requires a % 0x1_0000_0000_0000 / PAGE_SIZE == b % 0x1_0000_0000_0000 / PAGE_SIZE
    ensures Translate(m, root, a).address % PAGE_SIZE == a % PAGE_SIZE
    ensures Translate(m, root, b).Mapped?
    ensures Translate(m, root, b).address - PageOffset(b) == Translate(m, root, a).address - PageOffset(a)
  {
    SamePageSamePath(a, b);
    FrameOffset(Follow(m, root, Path(a)).address, PageOffset(a));
  }

  lemma {:induction false} FrameOffset(f: Frame, off: nat)
    requires off < PAGE_SIZE
    ensures (f + off) % PAGE_SIZE == off
  {
  }
}
