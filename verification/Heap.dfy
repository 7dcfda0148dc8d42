/** Mapping the kernel heap: kernel/src/memory/heap_allocator.rs over the tables of `Paging`. */
module Heap {
  import opened Common
  import opened Arithmetic
  import opened Frames
  import opened Paging
  import opened Mapping
  import opened PageMapper

  const HEAP_START := 0xffff_a000_0000_0000
  const HEAP_SIZE := 0x200_0000
  const HEAP_PAGES := 8192

  // ---------------------------------------------------------------------
  // The heap pages
  // ---------------------------------------------------------------------

  function PagePath(k: nat): (p: seq<Index>)
    ensures |p| == 4
  {
    Path(HEAP_START + PAGE_SIZE * k)
  }

  /** An address of the heap has the path of its own page and of no other heap page. */
  lemma {:induction false} HeapPaths(off: nat, k: nat)
    requires off < HEAP_SIZE && k < HEAP_PAGES
    ensures Path(HEAP_START + off) == PagePath(k) <==> k == off / PAGE_SIZE
  {
    SamePageSamePath(HEAP_START + off, HEAP_START + PAGE_SIZE * k);
    HeapPageNumber(off);
    HeapPageNumber(PAGE_SIZE * k);
  }

  lemma {:induction false} HeapPageNumber(off: nat)
    requires off < HEAP_SIZE
    ensures (HEAP_START + off) % 0x1_0000_0000_0000 / PAGE_SIZE == 0xa_0000_0000 + off / PAGE_SIZE
  {
    DivModUnique(HEAP_START + off, 0x1_0000_0000_0000, 0xffff, 0xa000_0000_0000 + off);
    DivModUnique(0xa000_0000_0000 + off, PAGE_SIZE, 0xa_0000_0000 + off / PAGE_SIZE, off % PAGE_SIZE);
  }

  /** The 8192 heap pages have pairwise different paths. */
  lemma {:induction false} PagePathsDiffer(j: nat, k: nat)
    requires j < HEAP_PAGES && k < HEAP_PAGES && j != k
    ensures PagePath(j) != PagePath(k)
  {
    HeapPaths(PAGE_SIZE * j, k);
  }

  /** All of them go through one level-3 and one level-2 table and share sixteen level-1 tables. */
  lemma {:induction false} PagePathIs(k: nat)
    requires k < HEAP_PAGES
    ensures PagePath(k) == [320, 0, k / 512, k % 512]
  {
    var a := AddressFor([320, 0, k / 512, k % 512]);
    AddressForPath([320, 0, k / 512, k % 512]);
    assert a == 0xa000_0000_0000 + PAGE_SIZE * k;
    DivModUnique(a, 0x1_0000_0000_0000, 0, a);
    DivModUnique(a, PAGE_SIZE, 0xa_0000_0000 + k, 0);
    HeapPageNumber(PAGE_SIZE * k);
    SamePageSamePath(HEAP_START + PAGE_SIZE * k, a);
  }

  /** The address lies in one of the first `n` heap pages, as far as the low 48 bits say. */
  ghost predicate InHeap(a: nat, n: nat) {
    0xa_0000_0000 <= a % 0x1_0000_0000_0000 / PAGE_SIZE < 0xa_0000_0000 + n
  }

  lemma {:induction false} InHeapHasPagePath(a: nat, n: nat)
    requires n <= HEAP_PAGES
    ensures InHeap(a, n) <==> exists j: nat | j < n :: Path(a) == PagePath(j)
  {
    forall j: nat | j < n
      ensures Path(a) == PagePath(j) <==> a % 0x1_0000_0000_0000 / PAGE_SIZE == 0xa_0000_0000 + j
    {
      SamePageSamePath(a, HEAP_START + PAGE_SIZE * j);
      HeapPageNumber(PAGE_SIZE * j);
    }
    if InHeap(a, n) {
      var j: nat := a % 0x1_0000_0000_0000 / PAGE_SIZE - 0xa_0000_0000;
      assert Path(a) == PagePath(j);
    }
  }

  // ---------------------------------------------------------------------
  // Where the mapping loop stands
  // ---------------------------------------------------------------------

  /** The ways to the first `n` heap pages are clear. */
  ghost predicate ClearHeap(m: Physical, root: Frame, n: nat) {
    forall k: nat {:trigger WayClear(m, root, n, k)} :: WayClear(m, root, n, k)
  }

  ghost predicate WayClear(m: Physical, root: Frame, n: nat, k: nat) {
    k < n ==> ClearWay(m, root, PagePath(k))
  }

  /** No table on the way to a heap page is also used as one of a higher level. */
  ghost predicate LowHeap(m: Physical, root: Frame) {
    forall k: nat {:trigger LowPage(m, root, k)} :: LowPage(m, root, k)
  }

  ghost predicate LowPage(m: Physical, root: Frame, k: nat) {
    k < HEAP_PAGES ==> LowWay(m, root, PagePath(k))
  }

  /** The tables on the way to the heap pages are used on their own level only. */
  ghost predicate LevelHeap(m: Physical, root: Frame) {
    forall k: nat {:trigger LevelPage(m, root, k)} :: LevelPage(m, root, k)
  }

  ghost predicate LevelPage(m: Physical, root: Frame, k: nat) {
    k < HEAP_PAGES ==> LevelWay(m, root, PagePath(k))
  }

  lemma {:induction false} LowHeapStays(m: Physical, m': Physical, root: Frame, drawn: seq<Frame>)
    requires LowHeap(m, root) && Grew(m, m', root, drawn)
    ensures LowHeap(m', root)
  {
    forall k: nat
      ensures LowPage(m', root, k)
    {
      assert LowPage(m, root, k) && StaysLow(m, m', root, PagePath(k));
    }
  }

  lemma {:induction false} LevelHeapStays(m: Physical, m': Physical, root: Frame, n: nat, to: Option<Frame>)
    requires LevelHeap(m, root) && n < HEAP_PAGES && OnlyMaps(m, m', root, PagePath(n), to)
    ensures LevelHeap(m', root)
  {
    assert LevelPage(m, root, n);
    forall k: nat
      ensures LevelPage(m', root, k)
    {
      assert LevelPage(m, root, k) && StaysLevel(m, m', root, PagePath(k));
    }
  }

  /** Page `j` was free and now goes to its own frame, which is no table. */
  ghost predicate PageMapped(m0: Physical, m: Physical, root: Frame, frames: seq<Frame>, j: nat) {
    j < |frames| ==>
      && Follow(m0, root, PagePath(j)) == NotMapped
      && Follow(m, root, PagePath(j)) == Mapped(frames[j]) && !IsTable(m, root, frames[j])
  }

  /** A page that is none of the first `n` heap pages is translated as before. */
  ghost predicate OtherLeaf(m: Physical, m': Physical, root: Frame, n: nat, q: seq<Index>) {
    |q| == 4 && (forall j: nat | j < n :: q != PagePath(j)) ==> Follow(m', root, q) == Follow(m, root, q)
  }

  ghost predicate OthersKept(m0: Physical, m: Physical, root: Frame, n: nat) {
    forall q: seq<Index> {:trigger OtherLeaf(m0, m, root, n, q)} :: OtherLeaf(m0, m, root, n, q)
  }

  ghost predicate KeptIfClear(m0: Physical, m: Physical, root: Frame, n: nat) {
    ClearHeap(m0, root, n) ==> OthersKept(m0, m, root, n)
  }

  ghost predicate WaysKept(m0: Physical, m: Physical, root: Frame) {
    forall w: seq<Index> {:trigger StaysClear(m0, m, root, w)} :: StaysClear(m0, m, root, w)
  }

  ghost predicate ComesFrom(fs: seq<Frame>, rest0: seq<Frame>, f: Frame) {
    f in fs ==> f in rest0
  }

  /** The frames in use and the frames still to come are all different and come from `rest0`. */
  ghost predicate Dealt(rest0: seq<Frame>, frames: seq<Frame>, rest: seq<Frame>) {
    && Distinct(frames + rest)
    && (forall f: Frame {:trigger ComesFrom(frames + rest, rest0, f)} :: ComesFrom(frames + rest, rest0, f))
  }

  /** Exactly the pages of `frames` have been mapped, the tables and frames drawn from `rest0`,
      with `rest` still to come. */
  ghost predicate PrefixDone(m0: Physical, rest0: seq<Frame>, m: Physical, rest: seq<Frame>, root: Frame,
                             frames: seq<Frame>) {
    && LowHeap(m0, root) && LowHeap(m, root) && Available(m, root, rest)
    && |frames| <= HEAP_PAGES && Dealt(rest0, frames, rest)
    && (forall q: seq<Index> {:trigger Keeps(m0, m, root, q)} :: Keeps(m0, m, root, q))
    && (forall j: nat {:trigger PageMapped(m0, m, root, frames, j)} :: PageMapped(m0, m, root, frames, j))
    && (LevelHeap(m0, root) || |frames| == HEAP_PAGES ==> KeptIfClear(m0, m, root, |frames|))
  }

  /** The same while the loop still goes on. */
  ghost predicate StillMapping(m0: Physical, rest0: seq<Frame>, m: Physical, rest: seq<Frame>, root: Frame,
                               frames: seq<Frame>) {
    && PrefixDone(m0, rest0, m, rest, root, frames)
    && (LevelHeap(m0, root) ==> LevelHeap(m, root))
    && KeptIfClear(m0, m, root, |frames|) && (ClearHeap(m0, root, |frames|) ==> WaysKept(m0, m, root))
  }

  lemma {:induction false} HeapBegins(m: Physical, rest: seq<Frame>, root: Frame)
    requires LowHeap(m, root) && Available(m, root, rest)
    ensures StillMapping(m, rest, m, rest, root, [])
  {
    assert [] + rest == rest;
  }

  lemma {:induction false} ClearFewer(m: Physical, root: Frame, n: nat, n': nat)
    requires n <= n' && ClearHeap(m, root, n')
    ensures ClearHeap(m, root, n)
  {
    forall k: nat
      ensures WayClear(m, root, n, k)
    {
      assert WayClear(m, root, n', k);
    }
  }

  lemma {:induction false} DealtDrops(rest0: seq<Frame>, a: seq<Frame>, f: Frame, drawn: seq<Frame>, rest: seq<Frame>)
    requires Dealt(rest0, a, [f] + (drawn + rest))
    ensures Dealt(rest0, a + [f], rest) && Dealt(rest0, a, rest)
    ensures f !in drawn && forall g | g in a :: g !in drawn
  {
    DistinctAppend(a, [f] + (drawn + rest));
    DistinctAppend([f], drawn + rest);
    DistinctAppend(drawn, rest);
    DistinctAppend(a, [f]);
    DistinctAppend(a + [f], rest);
    DistinctAppend(a, rest);
    assert forall g :: g in [f] + (drawn + rest) <==> g == f || g in drawn || g in rest;
    assert forall g :: g in drawn + rest <==> g in drawn || g in rest;
    forall g: Frame
      ensures ComesFrom((a + [f]) + rest, rest0, g) && ComesFrom(a + rest, rest0, g)
    {
      assert ComesFrom(a + ([f] + (drawn + rest)), rest0, g);
    }
  }

  lemma {:induction false} KeepsChain(m0: Physical, m: Physical, m': Physical, root: Frame, drawn: seq<Frame>)
    requires forall q: seq<Index> {:trigger Keeps(m0, m, root, q)} :: Keeps(m0, m, root, q)
    requires Grew(m, m', root, drawn)
    ensures forall q: seq<Index> {:trigger Keeps(m0, m', root, q)} :: Keeps(m0, m', root, q)
  {
    forall q: seq<Index>
      ensures Keeps(m0, m', root, q)
    {
      assert Keeps(m0, m, root, q) && Keeps(m, m', root, q);
    }
  }

  /** The pages mapped before stay mapped to frames that are no tables. */
  lemma {:induction false} PagesStay(m0: Physical, m: Physical, m': Physical, root: Frame, frames: seq<Frame>,
                                     drawn: seq<Frame>, j: nat)
    requires PageMapped(m0, m, root, frames, j) && Grew(m, m', root, drawn)
    requires forall g | g in frames :: g !in drawn
    ensures PageMapped(m0, m', root, frames, j)
  {
    if j < |frames| {
      assert Keeps(m, m', root, PagePath(j));
      assert TableFrom(m, m', root, drawn, frames[j]) && frames[j] in frames;
    }
  }

  lemma {:induction false} FreshFrame(m: Physical, m': Physical, root: Frame, f: Frame, drawn: seq<Frame>,
                                      rest': seq<Frame>)
    requires Available(m, root, [f] + (drawn + rest')) && Grew(m, m', root, drawn) && f !in drawn
    ensures !IsTable(m', root, f)
  {
    assert f in [f] + (drawn + rest');
    assert NoTable(m, root, [f] + (drawn + rest'), f) && TableFrom(m, m', root, drawn, f);
  }

  lemma {:induction false} PageGoesOn(m0: Physical, m: Physical, m': Physical, root: Frame, frames: seq<Frame>,
                                      f: Frame, drawn: seq<Frame>)
    requires forall j: nat {:trigger PageMapped(m0, m, root, frames, j)} :: PageMapped(m0, m, root, frames, j)
    requires forall q: seq<Index> {:trigger Keeps(m0, m, root, q)} :: Keeps(m0, m, root, q)
    requires Grew(m, m', root, drawn) && !IsTable(m', root, f)
    requires Follow(m, root, PagePath(|frames|)) == NotMapped
    requires Follow(m', root, PagePath(|frames|)) == Mapped(f)
    requires forall g | g in frames :: g !in drawn
    ensures forall j: nat {:trigger PageMapped(m0, m', root, frames + [f], j)} ::
      PageMapped(m0, m', root, frames + [f], j)
  {
    assert Keeps(m0, m, root, PagePath(|frames|));
    forall j: nat
      ensures PageMapped(m0, m', root, frames + [f], j)
    {
      assert PageMapped(m0, m, root, frames, j);
      PagesStay(m0, m, m', root, frames, drawn, j);
    }
  }

  /** One more page on a clear way: all other pages stay as they were. */
  lemma {:induction false} OthersGoOn(m0: Physical, m: Physical, m': Physical, root: Frame, n: nat, n': nat, f: Frame)
    requires n' == n + 1 && ClearHeap(m0, root, n')
    requires OthersKept(m0, m, root, n) && WaysKept(m0, m, root)
    requires OnlyMaps(m, m', root, PagePath(n), Some(f))
    ensures OthersKept(m0, m', root, n') && WaysKept(m0, m', root)
  {
    assert WayClear(m0, root, n', n);
    assert StaysClear(m0, m, root, PagePath(n));
    forall q: seq<Index>
      ensures OtherLeaf(m0, m', root, n', q) && StaysClear(m0, m', root, q)
    {
      assert OtherLeaf(m0, m, root, n, q) && LeafIs(m, m', root, PagePath(n), Some(f), q);
      assert StaysClear(m0, m, root, q) && StaysClear(m, m', root, q);
    }
  }

  lemma {:induction false} KeptGoesOn(m0: Physical, rest0: seq<Frame>, m: Physical, rest: seq<Frame>, root: Frame,
                                       frames: seq<Frame>, f: Frame, m': Physical)
    requires StillMapping(m0, rest0, m, rest, root, frames) && |frames| < HEAP_PAGES
    requires OnlyMaps(m, m', root, PagePath(|frames|), Some(f))
    ensures LevelHeap(m0, root) ==> LevelHeap(m', root)
    ensures ClearHeap(m0, root, |frames + [f]|) ==> OthersKept(m0, m', root, |frames + [f]|) && WaysKept(m0, m', root)
  {
    if LevelHeap(m0, root) {
      LevelHeapStays(m, m', root, |frames|, Some(f));
    }
    if ClearHeap(m0, root, |frames + [f]|) {
      ClearFewer(m0, root, |frames|, |frames + [f]|);
      OthersGoOn(m0, m, m', root, |frames|, |frames + [f]|, f);
    }
  }

  /** One more page has been mapped to `f`, drawing `drawn` for new tables. */
  lemma {:induction false} HeapGoesOn(m0: Physical, rest0: seq<Frame>, m: Physical, root: Frame, frames: seq<Frame>,
                                       f: Frame, drawn: seq<Frame>, m': Physical, rest': seq<Frame>)
    requires Grew(m, m', root, drawn) && OnlyMaps(m, m', root, PagePath(|frames|), Some(f))
    requires Follow(m, root, PagePath(|frames|)) == NotMapped
    requires Follow(m', root, PagePath(|frames|)) == Mapped(f)
    ensures StillMapping(m0, rest0, m, [f] + (drawn + rest'), root, frames)
      && |frames| < HEAP_PAGES && Available(m', root, rest')
      ==> StillMapping(m0, rest0, m', rest', root, frames + [f])
  {
    if StillMapping(m0, rest0, m, [f] + (drawn + rest'), root, frames)
      && |frames| < HEAP_PAGES && Available(m', root, rest') {
      DealtDrops(rest0, frames, f, drawn, rest');
      KeepsChain(m0, m, m', root, drawn);
      FreshFrame(m, m', root, f, drawn, rest');
      PageGoesOn(m0, m, m', root, frames, f, drawn);
      LowHeapStays(m, m', root, drawn);
      KeptGoesOn(m0, rest0, m, [f] + (drawn + rest'), root, frames, f, m');
    }
  }

  /** The next page could not be mapped; new tables alone change no translation. */
  lemma {:induction false} HeapStops(m0: Physical, rest0: seq<Frame>, m: Physical, root: Frame, frames: seq<Frame>,
                                      f: Frame, drawn: seq<Frame>, m': Physical, rest': seq<Frame>)
    requires StillMapping(m0, rest0, m, [f] + (drawn + rest'), root, frames) && |frames| < HEAP_PAGES
    requires Grew(m, m', root, drawn) && Available(m', root, rest')
    requires OnlyMaps(m, m', root, PagePath(|frames|), None)
    ensures PrefixDone(m0, rest0, m', rest', root, frames)
  {
    DealtDrops(rest0, frames, f, drawn, rest');
    KeepsChain(m0, m, m', root, drawn);
    forall j: nat
      ensures PageMapped(m0, m', root, frames, j)
    {
      assert PageMapped(m0, m, root, frames, j);
      PagesStay(m0, m, m', root, frames, drawn, j);
    }
    LowHeapStays(m, m', root, drawn);
    if LevelHeap(m0, root) && ClearHeap(m0, root, |frames|) {
      assert LevelPage(m, root, |frames|);
      forall q: seq<Index>
        ensures OtherLeaf(m0, m', root, |frames|, q)
      {
        assert OtherLeaf(m0, m, root, |frames|, q);
        assert LeafIs(m, m', root, PagePath(|frames|), None, q);
      }
    }
  }

  // ---------------------------------------------------------------------
  // What this means for addresses
  // ---------------------------------------------------------------------

  /** Every address of the mapped prefix goes to its page's frame plus its offset. */
  lemma {:induction false} PrefixTranslates(m0: Physical, rest0: seq<Frame>, m: Physical, rest: seq<Frame>,
                                         root: Frame, frames: seq<Frame>, off: nat)
    requires PrefixDone(m0, rest0, m, rest, root, frames) && off < PAGE_SIZE * |frames|
    ensures Translate(m, root, HEAP_START + off) == Mapped(frames[off / PAGE_SIZE] + off % PAGE_SIZE)
  {
    HeapPaths(off, off / PAGE_SIZE);
    assert PageMapped(m0, m, root, frames, off / PAGE_SIZE);
    DivModUnique(HEAP_START + off, PAGE_SIZE, 0xf_fffa_0000_0000 + off / PAGE_SIZE, off % PAGE_SIZE);
  }

  ghost predicate OtherAddressesKept(m0: Physical, m: Physical, root: Frame, n: nat) {
    forall a: nat | !InHeap(a, n) :: Translate(m, root, a) == Translate(m0, root, a)
  }

  /** A second way, of the same length, to a table on the way to heap page `k` is a page outside the
      heap that has been mapped along with it. */
  lemma {:induction false} SecondWayMapsOther(m0: Physical, rest0: seq<Frame>, m: Physical, rest: seq<Frame>,
                                         root: Frame, frames: seq<Frame>,
                                              k: nat, j: nat, q: seq<Index>)
    requires PrefixDone(m0, rest0, m, rest, root, frames) && k < |frames| && j <= 3
    requires SameTable(m0, root, PagePath(k)[..j], q) && q != PagePath(k)[..j] && |q| == j
    ensures !OtherAddressesKept(m0, m, root, |frames|)
  {
    var other := q + PagePath(k)[j..];
    assert PageMapped(m0, m, root, frames, k);
    assert Keeps(m0, m, root, PagePath(k)[..j]) && Keeps(m0, m, root, q);
    SecondWayWalk(m0, root, PagePath(k), j, q);
    SecondWayWalk(m, root, PagePath(k), j, q);
    var a := AddressFor(other);
    AddressForPath(other);
    if InHeap(a, |frames|) {
      OtherIsNoHeapPage(m0, rest0, m, rest, root, frames, k, a);
    }
    assert Translate(m, root, a) != Translate(m0, root, a);
  }

  /** A longer way to such a table, where no further table was, is a page outside the heap through
      which a new table is now seen. */
  lemma {:induction false} LowerWaySeesTable(m0: Physical, rest0: seq<Frame>, m: Physical, rest: seq<Frame>,
                                         root: Frame, frames: seq<Frame>,
                                             k: nat, j: nat, q: seq<Index>)
    requires PrefixDone(m0, rest0, m, rest, root, frames) && k < |frames| && j < |q| <= 3
    requires SameTable(m0, root, PagePath(k)[..j], q) && !Follow(m0, root, PagePath(k)[..j + 1]).Mapped?
    ensures !OtherAddressesKept(m0, m, root, |frames|)
  {
    var path, e := PagePath(k), j + 4 - |q|;
    var other := q + path[j..e];
    assert PageMapped(m0, m, root, frames, k);
    assert Keeps(m0, m, root, path[..j]) && Keeps(m0, m, root, q);
    LowerWalkBefore(m0, root, path, j, q);
    LowerWalkAfter(m, root, path, j, q);
    var a := AddressFor(other);
    AddressForPath(other);
    if InHeap(a, |frames|) {
      LeadsToTable(m0, rest0, m, rest, root, frames, path[..e], a);
    }
    assert Translate(m, root, a) != Translate(m0, root, a);
  }

  lemma {:induction false} LowerWalk(m: Physical, root: Frame, path: seq<Index>, j: nat, q: seq<Index>)
    requires |path| == 4 && j < |q| <= 3
    requires Follow(m, root, path[..j]).Mapped? && Follow(m, root, q) == Follow(m, root, path[..j])
    ensures |q + path[j..j + 4 - |q|]| == 4
    ensures Follow(m, root, q + path[j..j + 4 - |q|]) == Follow(m, root, path[..j + 4 - |q|])
  {
    var e := j + 4 - |q|;
    assert path[..e] == path[..j] + path[j..e];
    FollowAppend(m, root, path[..j], path[j..e]);
    FollowAppend(m, root, q, path[j..e]);
  }

  lemma {:induction false} LowerWalkBefore(m: Physical, root: Frame, path: seq<Index>, j: nat, q: seq<Index>)
    requires |path| == 4 && j < |q| <= 3
    requires Follow(m, root, path[..j]).Mapped? && Follow(m, root, q) == Follow(m, root, path[..j])
    requires !Follow(m, root, path[..j + 1]).Mapped?
    ensures |q + path[j..j + 4 - |q|]| == 4 && !Follow(m, root, q + path[j..j + 4 - |q|]).Mapped?
  {
    var e := j + 4 - |q|;
    LowerWalk(m, root, path, j, q);
    assert path[..e][..j + 1] == path[..j + 1];
    FollowStops(m, root, path[..e], j + 1);
  }

  lemma {:induction false} LowerWalkAfter(m: Physical, root: Frame, path: seq<Index>, j: nat, q: seq<Index>)
    requires |path| == 4 && j < |q| <= 3
    requires Follow(m, root, path[..j]).Mapped? && Follow(m, root, q) == Follow(m, root, path[..j])
    requires Follow(m, root, path).Mapped?
    ensures var w := Follow(m, root, path[..j + 4 - |q|]);
      w.Mapped? && |q + path[j..j + 4 - |q|]| == 4 && Follow(m, root, q + path[j..j + 4 - |q|]) == w
  {
    LowerWalk(m, root, path, j, q);
    assert path[..4] == path;
    PrefixMapped(m, root, path, j + 4 - |q|, 4);
  }

  /** A heap page does not lead to a table. */
  lemma {:induction false} LeadsToTable(m0: Physical, rest0: seq<Frame>, m: Physical, rest: seq<Frame>, root: Frame,
                                        frames: seq<Frame>,
                                        p: seq<Index>, a: nat)
    requires PrefixDone(m0, rest0, m, rest, root, frames) && |p| <= 3
    requires Follow(m, root, p).Mapped? && Follow(m, root, Path(a)) == Follow(m, root, p)
    ensures !InHeap(a, |frames|)
  {
    InHeapHasPagePath(a, |frames|);
    TablesAreTables(m, root, p);
    forall i: nat | i < |frames|
      ensures Path(a) != PagePath(i)
    {
      assert PageMapped(m0, m, root, frames, i);
    }
  }

  lemma {:induction false} SecondWayWalk(m: Physical, root: Frame, path: seq<Index>, j: nat, q: seq<Index>)
    requires |path| == 4 && j <= 3 && |q| == j && q != path[..j]
    requires Follow(m, root, path[..j]).Mapped? && Follow(m, root, q) == Follow(m, root, path[..j])
    ensures |q + path[j..]| == 4 && q + path[j..] != path
    ensures Follow(m, root, q + path[j..]) == Follow(m, root, path)
  {
    assert path == path[..j] + path[j..];
    assert (q + path[j..])[..j] == q;
    FollowAppend(m, root, path[..j], path[j..]);
    FollowAppend(m, root, q, path[j..]);
  }

  /** Different heap pages have different frames, so a page that shares the frame of heap page `k`
      under another path is outside the heap. */
  lemma {:induction false} OtherIsNoHeapPage(m0: Physical, rest0: seq<Frame>, m: Physical, rest: seq<Frame>,
                                         root: Frame, frames: seq<Frame>,
                                             k: nat, a: nat)
    requires PrefixDone(m0, rest0, m, rest, root, frames) && k < |frames|
    requires Path(a) != PagePath(k) && Follow(m, root, Path(a)) == Mapped(frames[k])
    ensures !InHeap(a, |frames|)
  {
    InHeapHasPagePath(a, |frames|);
    DistinctAppend(frames, rest);
    forall i: nat | i < |frames|
      ensures Path(a) != PagePath(i)
    {
      assert PageMapped(m0, m, root, frames, i);
      assert Differ(frames, i, k) && Differ(frames, k, i);
    }
  }

  /** Every address outside the mapped prefix is translated as before if and only if the ways to the
      mapped pages were clear: whenever all pages have been mapped, or else the tables on the way were
      used on their own level only. */
  lemma {:induction false} OthersKeptIffClear(m0: Physical, rest0: seq<Frame>, m: Physical, rest: seq<Frame>,
                                         root: Frame, frames: seq<Frame>)
    requires PrefixDone(m0, rest0, m, rest, root, frames)
    ensures |frames| == HEAP_PAGES || LevelHeap(m0, root) ==>
      (OtherAddressesKept(m0, m, root, |frames|) <==> ClearHeap(m0, root, |frames|))
  {
    if ClearHeap(m0, root, |frames|) {
      if KeptIfClear(m0, m, root, |frames|) {
        forall a: nat | !InHeap(a, |frames|)
          ensures Translate(m, root, a) == Translate(m0, root, a)
        {
          InHeapHasPagePath(a, |frames|);
          assert OtherLeaf(m0, m, root, |frames|, Path(a));
        }
      }
    } else {
      var k: nat :| !WayClear(m0, root, |frames|, k);
      UnclearShows(m0, rest0, m, rest, root, frames, k);
    }
  }

  lemma {:induction false} UnclearShows(m0: Physical, rest0: seq<Frame>, m: Physical, rest: seq<Frame>, root: Frame,
                                        frames: seq<Frame>, k: nat)
    requires PrefixDone(m0, rest0, m, rest, root, frames) && !WayClear(m0, root, |frames|, k)
    ensures !OtherAddressesKept(m0, m, root, |frames|)
  {
    var j: nat :| !ClearAt(m0, root, PagePath(k), j);
    var q: seq<Index> :| SameTable(m0, root, PagePath(k)[..j], q) && q != PagePath(k)[..j]
      && (|q| <= j || !Follow(m0, root, PagePath(k)[..j + 1]).Mapped?);
    assert LowPage(m0, root, k) && LowAt(m0, root, PagePath(k), j);
    if |q| == j {
      SecondWayMapsOther(m0, rest0, m, rest, root, frames, k, j, q);
    } else {
      LowerWaySeesTable(m0, rest0, m, rest, root, frames, k, j, q);
    }
  }

  /** The top-level entry of the heap is unused, and the root is not also a table of a lower level. */
  ghost predicate FreeEntry(m: Physical, root: Frame) {
    EntryAt(m, root, 320) == Unused && AtLevel(m, root, [])
  }

  /** With a free entry the ways to the heap pages are clear, whatever the other tables are. */
  lemma {:induction false} FreeEntryIsClear(m: Physical, root: Frame)
    requires FreeEntry(m, root)
    ensures ClearHeap(m, root, HEAP_PAGES) && LevelHeap(m, root) && LowHeap(m, root)
    ensures forall k: nat | k < HEAP_PAGES :: Follow(m, root, PagePath(k)) == NotMapped
  {
    forall k: nat | k < HEAP_PAGES
      ensures Follow(m, root, PagePath(k)) == NotMapped
    {
      FreeEntryWay(m, root, k);
    }
    forall k: nat
      ensures WayClear(m, root, HEAP_PAGES, k) && LevelPage(m, root, k) && LowPage(m, root, k)
    {
      if k < HEAP_PAGES {
        FreeEntryWay(m, root, k);
      }
    }
  }

  lemma {:induction false} FreeEntryWay(m: Physical, root: Frame, k: nat)
    requires FreeEntry(m, root) && k < HEAP_PAGES
    ensures ClearWay(m, root, PagePath(k)) && LevelWay(m, root, PagePath(k)) && LowWay(m, root, PagePath(k))
    ensures Follow(m, root, PagePath(k)) == NotMapped
  {
    PagePathIs(k);
    var path := PagePath(k);
    assert path[..1] == [] + [320];
    FollowSnoc(m, root, [], 320);
    FollowStops(m, root, path, 1);
    forall j: nat
      ensures ClearAt(m, root, path, j) && LevelAt(m, root, path, j) && LowAt(m, root, path, j)
    {
      if 1 <= j <= 3 && Follow(m, root, path[..j]).Mapped? {
        PrefixMapped(m, root, path, 1, j);
      }
    }
  }

  // ---------------------------------------------------------------------
  // How many frames the heap takes
  // ---------------------------------------------------------------------

  /** The tables below a free top-level entry after `n` heap pages: one of level 3, one of level 2
      and one of level 1 for each 512 pages begun. */
  function TablesFor(n: nat): nat {
    if n == 0 then 0 else 2 + (n + 511) / 512
  }

  ghost predicate LevelOneThere(m: Physical, root: Frame, n: nat, j: Index) {
    j < 16 ==> (Follow(m, root, [320, 0, j]).Mapped? <==> j < (n + 511) / 512)
  }

  /** Exactly those tables are there. */
  ghost predicate HeapTables(m: Physical, root: Frame, n: nat) {
    && (n == 0 ==> !Follow(m, root, [320]).Mapped?)
    && (forall j: Index {:trigger LevelOneThere(m, root, n, j)} :: LevelOneThere(m, root, n, j))
  }

  lemma {:induction false} HeapPrefixes(k: nat)
    requires k < HEAP_PAGES
    ensures PagePath(k)[..1] == [320] && PagePath(k)[..2] == [320, 0] && PagePath(k)[..3] == [320, 0, k / 512]
  {
    PagePathIs(k);
  }

  lemma {:induction false} MissingForPage(m: Physical, root: Frame, n: nat)
    requires n < HEAP_PAGES && HeapTables(m, root, n)
    ensures Missing(m, root, PagePath(n)) == TablesFor(n + 1) - TablesFor(n)
  {
    HeapPrefixes(n);
    var path := PagePath(n);
    if n == 0 {
      assert !Follow(m, root, path[..1]).Mapped?;
    } else {
      assert LevelOneThere(m, root, n, 0) && LevelOneThere(m, root, n, n / 512);
      HeapPrefixes(0);
      PrefixMapped(m, root, PagePath(0), 1, 3);
      PrefixMapped(m, root, PagePath(0), 2, 3);
    }
  }

  /** Mapping page `n` puts its level-1 table there and no other. */
  lemma {:induction false} TablesGoOn(m: Physical, m': Physical, root: Frame, n: nat, f: Frame, drawn: seq<Frame>)
    requires n < HEAP_PAGES && HeapTables(m, root, n) && ClearWay(m, root, PagePath(n))
    requires OnlyMaps(m, m', root, PagePath(n), Some(f)) && Grew(m, m', root, drawn)
    requires Follow(m', root, PagePath(n)) == Mapped(f)
    ensures HeapTables(m', root, n + 1)
  {
    HeapPrefixes(n);
    assert PagePath(n)[..4] == PagePath(n);
    PrefixMapped(m', root, PagePath(n), 3, 4);
    var n' := n + 1;
    forall j: Index
      ensures LevelOneThere(m', root, n', j)
    {
      assert LevelOneThere(m, root, n, j);
      if j < 16 && j != n / 512 {
        assert [320, 0, j] != PagePath(n)[..3];
        assert Beside(m, m', root, PagePath(n), [320, 0, j]);
      }
    }
  }

  /** Nothing but want of frames can stop the mapping below a free entry; and the frames drawn
      so far are one for each page and one for each table. */
  ghost predicate Counted(m0: Physical, rest0: seq<Frame>, m: Physical, rest: seq<Frame>, root: Frame, n: nat) {
    FreeEntry(m0, root) ==>
      HeapTables(m, root, n) && |rest0| == n + TablesFor(n) + |rest|
  }

  datatype HeapResult = Ok | Err(reason: MapOutcome)

  /** Why the mapping ended after `n` pages. */
  ghost predicate Explained(m0: Physical, rest0: seq<Frame>, m: Physical, rest: seq<Frame>, root: Frame, n: nat,
                            r: HeapResult)
  {
    && (FreeEntry(m0, root) ==> (r == Ok <==> |rest0| >= HEAP_PAGES + 18))
    && (r == Err(FrameAllocationFailed) ==> rest == [])
    && r != Err(Done) && (r.Err? && r.reason != FrameAllocationFailed ==> Follow(m, root, PagePath(n)) != NotMapped)
    && (r == Err(ParentEntryHugePage) ==> Follow(m, root, PagePath(n)[..3]) == HugePanic)
    && (r == Err(PageAlreadyMapped) ==> Follow(m, root, PagePath(n)[..3]).Mapped?)
  }

  lemma {:induction false} TooFewFrames(m0: Physical, rest0: seq<Frame>, m: Physical, rest: seq<Frame>, root: Frame,
                                        n: nat)
    requires Counted(m0, rest0, m, rest, root, n) && n < HEAP_PAGES && rest == []
    ensures Explained(m0, rest0, m, rest, root, n, Err(FrameAllocationFailed))
  {
  }

  lemma {:induction false} EnoughFrames(m0: Physical, rest0: seq<Frame>, m: Physical, rest: seq<Frame>, root: Frame,
                                        n: nat)
    requires Counted(m0, rest0, m, rest, root, n) && n == HEAP_PAGES
    ensures Explained(m0, rest0, m, rest, root, n, Ok)
  {
  }

  lemma {:induction false} CountBegins(m: Physical, rest: seq<Frame>, root: Frame)
    ensures Counted(m, rest, m, rest, root, 0)
  {
    if EntryAt(m, root, 320) == Unused {
      FollowSnoc(m, root, [], 320);
      assert [] + [320] == [320];
      forall j: Index
        ensures LevelOneThere(m, root, 0, j)
      {
        assert [320, 0, j][..1] == [320];
        FollowStops(m, root, [320, 0, j], 1);
      }
    }
  }

  /** Below a free entry page `n` is still free and its way sole when its turn comes. */
  lemma {:induction false} PageStillFree(m0: Physical, rest0: seq<Frame>, m: Physical, rest: seq<Frame>, root: Frame,
                                         frames: seq<Frame>)
    requires StillMapping(m0, rest0, m, rest, root, frames) && |frames| < HEAP_PAGES
    requires FreeEntry(m0, root)
    ensures Follow(m, root, PagePath(|frames|)) == NotMapped && ClearWay(m, root, PagePath(|frames|))
  {
    FreeEntryIsClear(m0, root);
    ClearFewer(m0, root, |frames|, HEAP_PAGES);
    forall j: nat | j < |frames|
      ensures PagePath(|frames|) != PagePath(j)
    {
      PagePathsDiffer(|frames|, j);
    }
    assert OtherLeaf(m0, m, root, |frames|, PagePath(|frames|));
    assert WayClear(m0, root, HEAP_PAGES, |frames|) && StaysClear(m0, m, root, PagePath(|frames|));
  }

  // ---------------------------------------------------------------------
  // heap_allocator::init
  // ---------------------------------------------------------------------

  /** Maps the heap page by page, drawing the page frames and the table frames from the same
      allocator. `frames` lists the frames of the pages mapped, all of them on Ok. */
  method HeapInit(mapper: Mapper, alloc: AbyssFrameAllocator) returns (r: HeapResult, ghost frames: seq<Frame>)
    requires LowHeap(mapper.memory, mapper.root)
    requires Available(mapper.memory, mapper.root, alloc.Remaining())
    modifies mapper`memory, alloc`next
    ensures |frames| <= 8192 && (r == Ok <==> |frames| == 8192)
    ensures r == Ok ==> forall off: nat | off < 32 * 1024 * 1024 ::
      Translate(mapper.memory, mapper.root, 0xffff_a000_0000_0000 + off) == Mapped(frames[off / 4096] + off % 4096)
    ensures forall off: nat | off < PAGE_SIZE * |frames| ::
      Translate(mapper.memory, mapper.root, HEAP_START + off) == Mapped(frames[off / PAGE_SIZE] + off % PAGE_SIZE)
    ensures forall i, j | 0 <= i < j < |frames| :: frames[i] != frames[j]
    ensures forall f | f in frames :: f in old(alloc.Remaining()) && !IsTable(mapper.memory, mapper.root, f)
    ensures r == Ok || LevelHeap(old(mapper.memory), mapper.root) ==>
      (OtherAddressesKept(old(mapper.memory), mapper.memory, mapper.root, |frames|) <==>
       ClearHeap(old(mapper.memory), mapper.root, |frames|))
    ensures FreeEntry(old(mapper.memory), mapper.root) ==>
      && OtherAddressesKept(old(mapper.memory), mapper.memory, mapper.root, |frames|)
      && (r == Ok <==> |old(alloc.Remaining())| >= 8192 + 18)
    ensures Available(mapper.memory, mapper.root, alloc.Remaining())
    ensures forall f | f in alloc.Remaining() :: f in old(alloc.Remaining()) && f !in frames
    ensures r == Err(FrameAllocationFailed) ==> alloc.Remaining() == []
    ensures r.Err? && r.reason != FrameAllocationFailed ==>
      Translate(mapper.memory, mapper.root, HEAP_START + PAGE_SIZE * |frames|) != NotMapped
    ensures r != Err(Done)
    ensures r == Err(ParentEntryHugePage) ==> Follow(mapper.memory, mapper.root, PagePath(|frames|)[..3]) == HugePanic
    ensures r == Err(PageAlreadyMapped) ==> Follow(mapper.memory, mapper.root, PagePath(|frames|)[..3]).Mapped?
  {
    r, frames := MapHeap(mapper, alloc);
    HeapIsMapped(old(mapper.memory), old(alloc.Remaining()), mapper.memory, alloc.Remaining(), mapper.root, frames);
    if FreeEntry(old(mapper.memory), mapper.root) {
      FreeEntryIsClear(old(mapper.memory), mapper.root);
      ClearFewer(old(mapper.memory), mapper.root, |frames|, HEAP_PAGES);
    }
  }

  /** The loop, with what it keeps. */
  method MapHeap(mapper: Mapper, alloc: AbyssFrameAllocator) returns (r: HeapResult, ghost frames: seq<Frame>)
    requires LowHeap(mapper.memory, mapper.root)
    requires Available(mapper.memory, mapper.root, alloc.Remaining())
    modifies mapper`memory, alloc`next
    ensures r == Ok <==> |frames| == HEAP_PAGES
    ensures PrefixDone(old(mapper.memory), old(alloc.Remaining()), mapper.memory, alloc.Remaining(),
                       mapper.root, frames)
    ensures Explained(old(mapper.memory), old(alloc.Remaining()), mapper.memory, alloc.Remaining(),
                      mapper.root, |frames|, r)
  {
    var root := mapper.root;
    ghost var m0, rest0 := mapper.memory, alloc.Remaining();
    frames := [];
    HeapBegins(m0, rest0, root);
    CountBegins(m0, rest0, root);
    var page := HEAP_START - HEAP_START % PAGE_SIZE;
    var lastPage := HEAP_START + HEAP_SIZE - 1 - (HEAP_START + HEAP_SIZE - 1) % PAGE_SIZE;
    while page <= lastPage
      invariant page == HEAP_START + PAGE_SIZE * |frames| && |frames| <= HEAP_PAGES
      invariant StillMapping(m0, rest0, mapper.memory, alloc.Remaining(), root, frames)
      invariant Counted(m0, rest0, mapper.memory, alloc.Remaining(), root, |frames|)
      decreases lastPage - page
    {
      var outcome;
      outcome, frames := NextHeapPage(mapper, alloc, page, m0, rest0, frames);
      if outcome != Done {
        return Err(outcome), frames;
      }
      page := page + PAGE_SIZE;
    }
    EnoughFrames(m0, rest0, mapper.memory, alloc.Remaining(), root, |frames|);
    r := Ok;
  }

  /** The body of the loop: a frame for the page is drawn first, then the tables it needs. */
  method NextHeapPage(mapper: Mapper, alloc: AbyssFrameAllocator, page: nat,
                      ghost m0: Physical, ghost rest0: seq<Frame>, ghost frames: seq<Frame>)
      returns (outcome: MapOutcome, ghost frames': seq<Frame>)
    requires |frames| < HEAP_PAGES && page == HEAP_START + PAGE_SIZE * |frames|
    requires StillMapping(m0, rest0, mapper.memory, alloc.Remaining(), mapper.root, frames)
    requires Counted(m0, rest0, mapper.memory, alloc.Remaining(), mapper.root, |frames|)
    modifies mapper`memory, alloc`next
    ensures outcome == Done ==>
      && StillMapping(m0, rest0, mapper.memory, alloc.Remaining(), mapper.root, frames')
      && Counted(m0, rest0, mapper.memory, alloc.Remaining(), mapper.root, |frames'|) && |frames'| == |frames| + 1
    ensures outcome != Done ==>
      && frames' == frames && PrefixDone(m0, rest0, mapper.memory, alloc.Remaining(), mapper.root, frames)
      && Explained(m0, rest0, mapper.memory, alloc.Remaining(), mapper.root, |frames|, Err(outcome))
  {
    var frame := alloc.AllocateFrame();
    if frame == None {
      TooFewFrames(m0, rest0, mapper.memory, alloc.Remaining(), mapper.root, |frames|);
      return FrameAllocationFailed, frames;
    }
    var path := PageIndices(page, |frames|);
    outcome, frames' := MapHeapPage(mapper, alloc, path, frame.value, m0, rest0, frames);
  }

  /** The four indices of the page that starts at `page`. */
  method PageIndices(page: nat, ghost k: nat) returns (path: seq<Index>)
    requires page == HEAP_START + PAGE_SIZE * k
    ensures path == PagePath(k)
  {
    path := Path(page);
  }

  /** The rest of the body. */
  method MapHeapPage(mapper: Mapper, alloc: AbyssFrameAllocator, path: seq<Index>, frame: Frame,
                     ghost m0: Physical, ghost rest0: seq<Frame>, ghost frames: seq<Frame>)
      returns (outcome: MapOutcome, ghost frames': seq<Frame>)
    requires |frames| < HEAP_PAGES && path == PagePath(|frames|)
    requires StillMapping(m0, rest0, mapper.memory, [frame] + alloc.Remaining(), mapper.root, frames)
    requires Counted(m0, rest0, mapper.memory, [frame] + alloc.Remaining(), mapper.root, |frames|)
    modifies mapper`memory, alloc`next
    ensures outcome == Done ==>
      && StillMapping(m0, rest0, mapper.memory, alloc.Remaining(), mapper.root, frames')
      && Counted(m0, rest0, mapper.memory, alloc.Remaining(), mapper.root, |frames'|) && |frames'| == |frames| + 1
    ensures outcome != Done ==>
      && frames' == frames && PrefixDone(m0, rest0, mapper.memory, alloc.Remaining(), mapper.root, frames)
      && Explained(m0, rest0, mapper.memory, alloc.Remaining(), mapper.root, |frames|, Err(outcome))
  {
    ghost var before, rest := mapper.memory, alloc.Remaining();
    PageMayBeMapped(m0, rest0, before, mapper.root, frame, rest, frames);
    ghost var drawn;
    outcome, drawn := mapper.MapTo(path, frame, alloc);
    frames' := if outcome == Done then frames + [frame] else frames;
    AfterPage(m0, rest0, before, [frame] + rest, mapper.memory, alloc.Remaining(), mapper.root,
              frames, frame, drawn, outcome);
  }

  /** The count of frames goes on with the page, or they were too few. */
  lemma {:induction false} CountGoesOn(m0: Physical, rest0: seq<Frame>, m: Physical, rest: seq<Frame>, m': Physical,
                                       rest': seq<Frame>,
                                       root: Frame, frames: seq<Frame>, f: Frame, drawn: seq<Frame>, done: bool)
    requires StillMapping(m0, rest0, m, rest, root, frames) && |frames| < HEAP_PAGES
    requires Counted(m0, rest0, m, rest, root, |frames|) && rest == [f] + (drawn + rest')
    requires done <==> Follow(m, root, PagePath(|frames|)) == NotMapped && |rest| > Missing(m, root, PagePath(|frames|))
    requires done ==> |drawn| == Missing(m, root, PagePath(|frames|))
    requires done ==> Follow(m', root, PagePath(|frames|)) == Mapped(f)
    requires OnlyMaps(m, m', root, PagePath(|frames|), if done then Some(f) else None) && Grew(m, m', root, drawn)
    ensures done ==> Counted(m0, rest0, m', rest', root, |frames| + 1)
    ensures !done && FreeEntry(m0, root) ==> |rest0| < HEAP_PAGES + 18
  {
    if FreeEntry(m0, root) {
      PageStillFree(m0, rest0, m, rest, root, frames);
      MissingForPage(m, root, |frames|);
      if done {
        TablesGoOn(m, m', root, |frames|, f, drawn);
      }
    }
  }

  /** What `MapTo` promises of its attempt to map page `n` to `f`. */
  ghost predicate Tried(m: Physical, rest: seq<Frame>, m': Physical, rest': seq<Frame>,
                        root: Frame, n: nat, f: Frame, drawn: seq<Frame>, outcome: MapOutcome) {
    && Grew(m, m', root, drawn) && Available(m', root, rest')
    && OnlyMaps(m, m', root, PagePath(n), if outcome == Done then Some(f) else None)
    && (outcome == Done <==> Follow(m, root, PagePath(n)) == NotMapped && |rest| > Missing(m, root, PagePath(n)))
    && (outcome == Done ==> Follow(m', root, PagePath(n)) == Mapped(f) && |drawn| == Missing(m, root, PagePath(n)))
    && (outcome == FrameAllocationFailed ==> rest' == [])
    && (outcome !in {Done, FrameAllocationFailed} ==> Follow(m, root, PagePath(n)) != NotMapped)
    && (outcome == ParentEntryHugePage ==> Follow(m, root, PagePath(n)[..3]) == HugePanic)
    && (outcome == PageAlreadyMapped ==> Follow(m, root, PagePath(n)[..3]).Mapped?)
  }

  /** Either the loop's invariant holds with one more page, or the loop stops for a reason. */
  lemma {:induction false} AfterPage(m0: Physical, rest0: seq<Frame>, m: Physical, rest: seq<Frame>, m': Physical,
                                     rest': seq<Frame>,
                                     root: Frame, frames: seq<Frame>, f: Frame, drawn: seq<Frame>, outcome: MapOutcome)
    requires |frames| < HEAP_PAGES && rest == [f] + (drawn + rest')
    requires Tried(m, rest, m', rest', root, |frames|, f, drawn, outcome)
    ensures StillMapping(m0, rest0, m, rest, root, frames) && Counted(m0, rest0, m, rest, root, |frames|) ==>
      if outcome == Done then
        && StillMapping(m0, rest0, m', rest', root, frames + [f])
        && Counted(m0, rest0, m', rest', root, |frames + [f]|)
      else
        && PrefixDone(m0, rest0, m', rest', root, frames)
        && Explained(m0, rest0, m', rest', root, |frames|, Err(outcome))
  {
    if StillMapping(m0, rest0, m, rest, root, frames) && Counted(m0, rest0, m, rest, root, |frames|) {
      CountGoesOn(m0, rest0, m, rest, m', rest', root, frames, f, drawn, outcome == Done);
      if outcome == Done {
        HeapGoesOn(m0, rest0, m, root, frames, f, drawn, m', rest');
      } else {
        HeapStops(m0, rest0, m, root, frames, f, drawn, m', rest');
        assert LeafIs(m, m', root, PagePath(|frames|), None, PagePath(|frames|));
        assert Keeps(m, m', root, PagePath(|frames|)[..3]);
      }
    }
  }

  lemma {:induction false} PageMayBeMapped(m0: Physical, rest0: seq<Frame>, m: Physical, root: Frame, f: Frame,
                                            rest: seq<Frame>, frames: seq<Frame>)
    requires StillMapping(m0, rest0, m, [f] + rest, root, frames) && |frames| < HEAP_PAGES
    ensures LowWay(m, root, PagePath(|frames|)) && Available(m, root, rest)
  {
    assert LowPage(m, root, |frames|);
    RestAvailable(m, root, f, rest);
  }

  lemma {:induction false} RestAvailable(m: Physical, root: Frame, f: Frame, rest: seq<Frame>)
    requires Available(m, root, [f] + rest)
    ensures Available(m, root, rest)
  {
    DistinctAppend([f], rest);
    forall g: Frame
      ensures NoTable(m, root, rest, g)
    {
      assert NoTable(m, root, [f] + rest, g);
    }
  }

  /** What the loop's invariant means for addresses: the mapped prefix translates to its pages'
      frames plus the offset; the frames differ, were drawn from the allocator, are no tables and
      are not handed out again; all other addresses translate as before exactly when the ways to the
      mapped pages were clear. */
  lemma {:induction false} HeapIsMapped(m0: Physical, rest0: seq<Frame>, m: Physical, rest: seq<Frame>, root: Frame,
                                        frames: seq<Frame>)
    requires PrefixDone(m0, rest0, m, rest, root, frames)
    ensures forall off: nat | off < PAGE_SIZE * |frames| ::
      Translate(m, root, HEAP_START + off) == Mapped(frames[off / PAGE_SIZE] + off % PAGE_SIZE)
    ensures forall i, j | 0 <= i < j < |frames| :: frames[i] != frames[j]
    ensures forall f | f in frames :: f in rest0 && !IsTable(m, root, f)
    ensures forall f | f in rest :: f in rest0 && f !in frames
    ensures |frames| == HEAP_PAGES || LevelHeap(m0, root) ==>
      (OtherAddressesKept(m0, m, root, |frames|) <==> ClearHeap(m0, root, |frames|))
  {
    forall off: nat | off < PAGE_SIZE * |frames|
      ensures Translate(m, root, HEAP_START + off) == Mapped(frames[off / PAGE_SIZE] + off % PAGE_SIZE)
    {
      PrefixTranslates(m0, rest0, m, rest, root, frames, off);
    }
    DistinctAppend(frames, rest);
    forall i, j | 0 <= i < j < |frames|
      ensures frames[i] != frames[j]
    {
      assert Differ(frames, i, j);
    }
    forall f | f in frames
      ensures f in rest0 && !IsTable(m, root, f)
    {
      assert ComesFrom(frames + rest, rest0, f) && f in frames + rest;
      var j: nat :| j < |frames| && frames[j] == f;
      assert PageMapped(m0, m, root, frames, j);
    }
    forall f | f in rest
      ensures f in rest0 && f !in frames
    {
      assert ComesFrom(frames + rest, rest0, f) && f in frames + rest;
    }
    OthersKeptIffClear(m0, rest0, m, rest, root, frames);
  }

  /** With the memory map the loader promises, the hypotheses of `HeapInit` on the allocator hold
      as long as no usable frame holds one of the boot page tables. */
  lemma {:induction false} BootFramesAvailable(rs: seq<Region>, m: Physical, root: Frame)
    requires StartsAligned(rs) && UsableDisjoint(rs)
    requires forall f | f in UsableFrames(rs) :: !IsTable(m, root, f)
    ensures Available(m, root, UsableFrames(rs))
  {
    AlignedNeverTwice(rs);
    forall f: Frame
      ensures NoTable(m, root, UsableFrames(rs), f)
    {
    }
  }

  // ---------------------------------------------------------------------
  // A shared table
  // ---------------------------------------------------------------------

  const SHARED_ROOT: Frame := 0x1000

  /** Entries 0 and 320 of the root point at one empty level-3 table. */
  function SharedGraph(): Physical {
    map[SHARED_ROOT := map[0 := Points(0x2000), 320 := Points(0x2000)]]
  }

  lemma {:induction false} SharedWalk(p: seq<Index>)
    requires p != [] && |p| <= 4
    ensures Follow(SharedGraph(), SHARED_ROOT, p) ==
      if p == [0] || p == [320] then Mapped(0x2000) else NotMapped
  {
    var m := SharedGraph();
    FollowLast(m, SHARED_ROOT, p[..1]);
    assert p[..1][..0] == [] && p[..1] == [p[0]];
    if |p| == 1 {
      assert p == [p[0]];
    } else {
      FollowLast(m, SHARED_ROOT, p[..2]);
      assert p[..2][..1] == p[..1];
      FollowStops(m, SHARED_ROOT, p, 2);
    }
  }

  /** Such tables meet all that `HeapInit` asks of them, but the ways to the heap pages are not clear. */
  lemma {:induction false} SharedGraphIsUnclear()
    ensures LowHeap(SharedGraph(), SHARED_ROOT) && LevelHeap(SharedGraph(), SHARED_ROOT)
    ensures !ClearHeap(SharedGraph(), SHARED_ROOT, 1)
    ensures Follow(SharedGraph(), SHARED_ROOT, PagePath(0)) == NotMapped
    ensures Missing(SharedGraph(), SHARED_ROOT, PagePath(0)) == 2
    ensures Translate(SharedGraph(), SHARED_ROOT, 0) == NotMapped
  {
    var m := SharedGraph();
    SharedLevels();
    HeapPrefixes(0);
    SharedWalk([320]);
    SharedWalk([0]);
    SharedWalk([320, 0]);
    SharedWalk(PagePath(0));
    SharedWalk(Path(0));
    assert SameTable(m, SHARED_ROOT, PagePath(0)[..1], [0]);
    assert !ClearAt(m, SHARED_ROOT, PagePath(0), 1);
    assert !WayClear(m, SHARED_ROOT, 1, 0);
  }

  lemma {:induction false} SharedLevels()
    ensures LowHeap(SharedGraph(), SHARED_ROOT) && LevelHeap(SharedGraph(), SHARED_ROOT)
  {
    var m := SharedGraph();
    forall p: seq<Index>, q: seq<Index> | SameTable(m, SHARED_ROOT, p, q)
      ensures |q| == |p|
    {
      if p != [] {
        SharedWalk(p);
      }
      if q != [] {
        SharedWalk(q);
      }
    }
    forall k: nat, j: nat
      ensures LowAt(m, SHARED_ROOT, PagePath(k), j) && LevelAt(m, SHARED_ROOT, PagePath(k), j)
    {
    }
    forall k: nat
      ensures LowPage(m, SHARED_ROOT, k) && LevelPage(m, SHARED_ROOT, k)
    {
    }
  }

  lemma {:induction false} ZeroIsSecondWay(m: Physical, m': Physical, drawn: seq<Frame>)
    requires m == SharedGraph() && Grew(m, m', SHARED_ROOT, drawn)
    ensures Follow(m', SHARED_ROOT, Path(0)) == Follow(m', SHARED_ROOT, PagePath(0))
  {
    SharedWalk([0]);
    SharedWalk([320]);
    assert Keeps(m, m', SHARED_ROOT, [0]) && Keeps(m, m', SHARED_ROOT, [320]);
    HeapPrefixes(0);
    PagePathIs(0);
    SecondWayWalk(m', SHARED_ROOT, PagePath(0), 1, [0]);
    assert Path(0) == [0] + PagePath(0)[1..];
  }

  /** There, mapping the first heap page also maps address 0, which nobody asked for. */
  method SharedTableMapsTwice(mapper: Mapper, alloc: AbyssFrameAllocator, data: Frame) returns (outcome: MapOutcome)
    requires mapper.root == SHARED_ROOT && mapper.memory == SharedGraph()
    requires Available(mapper.memory, mapper.root, alloc.Remaining()) && |alloc.Remaining()| >= 2
    modifies mapper`memory, alloc`next
    ensures outcome == Done
    ensures Translate(old(mapper.memory), SHARED_ROOT, 0) == NotMapped
    ensures Translate(mapper.memory, SHARED_ROOT, HEAP_START) == Mapped(data)
    ensures Translate(mapper.memory, SHARED_ROOT, 0) == Mapped(data)
  {
    SharedGraphIsUnclear();
    assert LowPage(mapper.memory, SHARED_ROOT, 0);
    ghost var drawn;
    outcome, drawn := mapper.MapTo(Path(HEAP_START), data, alloc);
    ZeroIsSecondWay(old(mapper.memory), mapper.memory, drawn);
  }

  // ---------------------------------------------------------------------
  // A recursive root
  // ---------------------------------------------------------------------

  /** Entry 511 of the root points at the root itself. */
  function RecursiveGraph(): Physical {
    map[SHARED_ROOT := map[511 := Points(SHARED_ROOT)]]
  }

  /** The page through which entry 320 of the root is seen. */
  const SEEN_THROUGH: seq<Index> := [511, 511, 511, 320]

  lemma {:induction false} RecursiveWalk(n: nat)
    requires n <= 3
    ensures Follow(RecursiveGraph(), SHARED_ROOT, SEEN_THROUGH[..n]) == Mapped(SHARED_ROOT)
  {
    if n > 0 {
      RecursiveWalk(n - 1);
      assert SEEN_THROUGH[..n][..n - 1] == SEEN_THROUGH[..n - 1];
      FollowLast(RecursiveGraph(), SHARED_ROOT, SEEN_THROUGH[..n]);
    }
  }

  /** Such a root meets the demands of `HeapInit` too, but although entry 320 is unused the way to
      the first heap page is not clear. */
  lemma {:induction false} RecursiveGraphIsUnclear()
    ensures LowHeap(RecursiveGraph(), SHARED_ROOT) && EntryAt(RecursiveGraph(), SHARED_ROOT, 320) == Unused
    ensures !ClearHeap(RecursiveGraph(), SHARED_ROOT, 1)
    ensures Follow(RecursiveGraph(), SHARED_ROOT, PagePath(0)) == NotMapped
    ensures Missing(RecursiveGraph(), SHARED_ROOT, PagePath(0)) == 3
    ensures Follow(RecursiveGraph(), SHARED_ROOT, SEEN_THROUGH) == NotMapped
  {
    var m := RecursiveGraph();
    RecursiveWalk(1);
    RecursiveWalk(3);
    FollowLast(m, SHARED_ROOT, SEEN_THROUGH);
    assert PagePath(0)[..0] == [] && SEEN_THROUGH[..1] == [511];
    FreeRootEntry(m, SHARED_ROOT, 0);
    assert SameTable(m, SHARED_ROOT, PagePath(0)[..0], [511]);
    assert !ClearAt(m, SHARED_ROOT, PagePath(0), 0);
    assert !WayClear(m, SHARED_ROOT, 1, 0);
    forall k: nat
      ensures LowPage(m, SHARED_ROOT, k)
    {
      if k < HEAP_PAGES {
        FreeRootEntry(m, SHARED_ROOT, k);
      }
    }
  }

  lemma {:induction false} FreeRootEntry(m: Physical, root: Frame, k: nat)
    requires EntryAt(m, root, 320) == Unused && k < HEAP_PAGES
    ensures LowWay(m, root, PagePath(k)) && Follow(m, root, PagePath(k)) == NotMapped
    ensures !Follow(m, root, PagePath(k)[..1]).Mapped?
  {
    HeapPrefixes(k);
    var path := PagePath(k);
    assert path[..1] == [] + [320];
    FollowSnoc(m, root, [], 320);
    FollowStops(m, root, path, 1);
    forall j: nat
      ensures LowAt(m, root, path, j)
    {
      if 1 <= j <= 3 && Follow(m, root, path[..j]).Mapped? {
        PrefixMapped(m, root, path, 1, j);
      }
    }
  }

  lemma {:induction false} SeenThroughRoot(m: Physical, m': Physical, drawn: seq<Frame>)
    requires m == RecursiveGraph() && Grew(m, m', SHARED_ROOT, drawn) && Follow(m', SHARED_ROOT, PagePath(0)).Mapped?
    ensures Follow(m', SHARED_ROOT, SEEN_THROUGH).Mapped?
  {
    RecursiveWalk(3);
    assert Keeps(m, m', SHARED_ROOT, SEEN_THROUGH[..3]);
    HeapPrefixes(0);
    assert PagePath(0)[..4] == PagePath(0);
    PrefixMapped(m', SHARED_ROOT, PagePath(0), 1, 4);
    assert SEEN_THROUGH == SEEN_THROUGH[..3] + [320];
    FollowAppend(m', SHARED_ROOT, SEEN_THROUGH[..3], [320]);
  }

  /** There, mapping the first heap page succeeds, and its level-3 table is now seen
      through an address that was not mapped. */
  method RecursiveRootShowsTable(mapper: Mapper, alloc: AbyssFrameAllocator, data: Frame) returns (outcome: MapOutcome)
    requires mapper.root == SHARED_ROOT && mapper.memory == RecursiveGraph()
    requires Available(mapper.memory, mapper.root, alloc.Remaining()) && |alloc.Remaining()| >= 3
    modifies mapper`memory, alloc`next
    ensures outcome == Done && Translate(mapper.memory, SHARED_ROOT, HEAP_START) == Mapped(data)
    ensures Translate(old(mapper.memory), SHARED_ROOT, AddressFor(SEEN_THROUGH)) == NotMapped
    ensures Translate(mapper.memory, SHARED_ROOT, AddressFor(SEEN_THROUGH)).Mapped?
  {
    RecursiveGraphIsUnclear();
    assert LowPage(mapper.memory, SHARED_ROOT, 0);
    ghost var drawn;
    outcome, drawn := mapper.MapTo(Path(HEAP_START), data, alloc);
    SeenThroughRoot(old(mapper.memory), mapper.memory, drawn);
    AddressForPath(SEEN_THROUGH);
  }
}
