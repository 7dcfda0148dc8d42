/**
 The boot-time frame allocator of kernel/src/memory/page_allocator.rs: a cursor over the
 list of usable frames, which is recomputed on every call.
 */
module Frames {
  import opened Common

  const PAGE_SIZE := 4096
  const MIN_USABLE := 0x10_0000

  /** A frame is named by its start address. */
  type Frame = f: nat | f % PAGE_SIZE == 0

  /** Every kind of region but Usable is one kind here: the allocator treats them alike. */
  datatype Kind = Usable | Reserved

  datatype Region = Region(start: nat, end: nat, kind: Kind)

  function AlignDown(a: nat): (f: Frame)
    ensures f <= a < f + PAGE_SIZE
  {
    a - a % PAGE_SIZE
  }

  /** `(lo..hi).step_by(4096)`. */
  function StepBy(lo: nat, hi: nat): seq<nat>
    decreases hi - lo
  {
    if lo >= hi then [] else [lo] + StepBy(lo + PAGE_SIZE, hi)
  }

  function FlatRanges(rs: seq<Region>): seq<nat> {
    if rs == [] then []
    else (if rs[0].kind == Usable then StepBy(rs[0].start, rs[0].end) else []) + FlatRanges(rs[1..])
  }

  function AboveMin(addrs: seq<nat>): seq<nat> {
    if addrs == [] then []
    else (if addrs[0] >= MIN_USABLE then [addrs[0]] else []) + AboveMin(addrs[1..])
  }

  function ToFrames(addrs: seq<nat>): (fs: seq<Frame>)
    ensures |fs| == |addrs|
    ensures forall i | 0 <= i < |addrs| :: fs[i] == AlignDown(addrs[i])
  {
    if addrs == [] then [] else [AlignDown(addrs[0])] + ToFrames(addrs[1..])
  }

  function UsableFrames(rs: seq<Region>): seq<Frame> {
    ToFrames(AboveMin(FlatRanges(rs)))
  }

  function Nth(fs: seq<Frame>, k: nat): Option<Frame> {
    if k < |fs| then Some(fs[k]) else None
  }

  class AbyssFrameAllocator {
    const regions: seq<Region>
    var next: nat

    constructor (memoryMap: seq<Region>)
      ensures regions == memoryMap && next == 0
    {
      regions, next := memoryMap, 0;
    }

    /** The frames no call has reached yet. */
    function Remaining(): seq<Frame>
      reads this
    {
      var fs := UsableFrames(regions);
      if next <= |fs| then fs[next..] else []
    }

    /** The cursor moves on whether or not a frame was found. */
    method AllocateFrame() returns (f: Option<Frame>)
      modifies this`next
      ensures next == old(next) + 1
      ensures f == Nth(UsableFrames(regions), old(next))
      ensures f == KthFrame(regions, old(next))
      ensures f.Some? <==> old(Remaining()) != []
      ensures f.Some? ==> old(Remaining()) == [f.value] + Remaining()
      ensures f == None ==> Remaining() == []
    {
      f := Nth(UsableFrames(regions), next);
      KthCallIsClosedForm(regions, next);
      next := next + 1;
    }
  }

  // ---------------------------------------------------------------------
  // The closed form
  // ---------------------------------------------------------------------

  /** The first address of the region's grid at or above 1 MiB. */
  function First(r: Region): nat {
    if r.start >= MIN_USABLE then r.start
    else r.start + PAGE_SIZE * ((MIN_USABLE - r.start + PAGE_SIZE - 1) / PAGE_SIZE)
  }

  /** How many frames the region contributes. */
  function Count(r: Region): nat {
    if r.kind != Usable || First(r) >= r.end then 0
    else (r.end - First(r) + PAGE_SIZE - 1) / PAGE_SIZE
  }

  function Base(r: Region): Frame {
    AlignDown(First(r))
  }

  function Limit(r: Region): Frame {
    Base(r) + PAGE_SIZE * Count(r)
  }

  /** `n` consecutive frames from `base` up. */
  function Consecutive(base: Frame, n: nat): (fs: seq<Frame>)
    decreases n
    ensures |fs| == n && forall k | 0 <= k < n :: fs[k] == base + PAGE_SIZE * k
  {
    if n == 0 then [] else [base] + Consecutive(base + PAGE_SIZE, n - 1)
  }

  function RegionFrames(r: Region): seq<Frame> {
    Consecutive(Base(r), Count(r))
  }

  /** The k-th usable frame, found by skipping whole regions. */
  function KthFrame(rs: seq<Region>, k: nat): Option<Frame> {
    if rs == [] then None
    else if k < Count(rs[0]) then Some(Base(rs[0]) + PAGE_SIZE * k)
    else KthFrame(rs[1..], k - Count(rs[0]))
  }

  lemma {:induction false} AboveMinAppends(a: seq<nat>, b: seq<nat>)
    ensures AboveMin(a + b) == AboveMin(a) + AboveMin(b)
  {
    if a == [] {
      assert a + b == b;
    } else {
      var head := if a[0] >= MIN_USABLE then [a[0]] else [];
      AboveMinAppends(a[1..], b);
      assert (a + b)[1..] == a[1..] + b;
      assert AboveMin(a + b) == head + (AboveMin(a[1..]) + AboveMin(b));
      assert AboveMin(a) == head + AboveMin(a[1..]);
    }
  }

  lemma {:induction false} FirstSkips(r: Region)
    requires r.start < MIN_USABLE
    ensures First(r) == First(Region(r.start + PAGE_SIZE, r.end, r.kind))
    ensures First(r) >= r.start + PAGE_SIZE
  {
    if r.start + PAGE_SIZE < MIN_USABLE {
      var x := MIN_USABLE - r.start + PAGE_SIZE - 1;
      assert x / PAGE_SIZE == (x - PAGE_SIZE) / PAGE_SIZE + 1;
    }
  }

  /** One usable region, stepped and filtered, is its closed form. */
  lemma {:induction false} RegionIsClosedForm(r: Region)
    requires r.kind == Usable
    ensures ToFrames(AboveMin(StepBy(r.start, r.end))) == RegionFrames(r)
    decreases r.end - r.start
  {
    if r.start >= r.end {
      assert First(r) >= r.end;
    } else {
      var rest := Region(r.start + PAGE_SIZE, r.end, Usable);
      RegionIsClosedForm(rest);
      StepOnce(r.start, r.end);
      FramesOnce(r.start, AboveMin(StepBy(rest.start, r.end)));
      RegionOnce(r);
    }
  }

  lemma {:induction false} RegionOnce(r: Region)
    requires r.kind == Usable && r.start < r.end
    ensures RegionFrames(r) ==
      (if r.start >= MIN_USABLE then [AlignDown(r.start)] else [])
      + RegionFrames(Region(r.start + PAGE_SIZE, r.end, Usable))
  {
    var rest := Region(r.start + PAGE_SIZE, r.end, Usable);
    if r.start < MIN_USABLE {
      FirstSkips(r);
      assert Base(r) == Base(rest) && Count(r) == Count(rest);
    } else {
      StepCounts(r, rest);
      assert RegionFrames(r)[1..] == RegionFrames(rest);
    }
  }

  lemma {:induction false} StepOnce(lo: nat, hi: nat)
    requires lo < hi
    ensures AboveMin(StepBy(lo, hi)) ==
      (if lo >= MIN_USABLE then [lo] else []) + AboveMin(StepBy(lo + PAGE_SIZE, hi))
  {
    assert StepBy(lo, hi)[1..] == StepBy(lo + PAGE_SIZE, hi);
  }

  lemma {:induction false} FramesOnce(a: nat, addrs: seq<nat>)
    ensures ToFrames([a] + addrs) == [AlignDown(a)] + ToFrames(addrs)
  {
    assert ([a] + addrs)[1..] == addrs;
  }

  lemma {:induction false} FramesAppend(a: seq<nat>, b: seq<nat>)
    ensures ToFrames(a + b) == ToFrames(a) + ToFrames(b)
  {
  }

  lemma {:induction false} StepCounts(r: Region, rest: Region)
    requires r.kind == Usable && MIN_USABLE <= r.start < r.end
    requires rest == Region(r.start + PAGE_SIZE, r.end, Usable)
    ensures Count(r) == 1 + Count(rest) && Base(rest) == Base(r) + PAGE_SIZE
  {
  }

  lemma {:induction false} UsableFramesSplit(rs: seq<Region>)
    requires rs != []
    ensures UsableFrames(rs) == RegionFrames(rs[0]) + UsableFrames(rs[1..])
  {
    var head := if rs[0].kind == Usable then StepBy(rs[0].start, rs[0].end) else [];
    AboveMinAppends(head, FlatRanges(rs[1..]));
    FramesAppend(AboveMin(head), AboveMin(FlatRanges(rs[1..])));
    if rs[0].kind == Usable {
      RegionIsClosedForm(rs[0]);
    }
  }

  /** The k-th call is answered by the closed form from the regions' counts. */
  lemma {:induction false} KthCallIsClosedForm(rs: seq<Region>, k: nat)
    ensures Nth(UsableFrames(rs), k) == KthFrame(rs, k)
    decreases |rs|
  {
    if rs != [] {
      UsableFramesSplit(rs);
      if k >= Count(rs[0]) {
        KthCallIsClosedForm(rs[1..], k - Count(rs[0]));
      }
    }
  }

  /** Calls succeed as many times as there are usable frames and never again. */
  lemma {:induction false} NoneIsForever(rs: seq<Region>, i: nat, j: nat)
    requires i <= j && KthFrame(rs, i) == None
    ensures KthFrame(rs, j) == None
  {
    KthCallIsClosedForm(rs, i);
    KthCallIsClosedForm(rs, j);
  }

  // ---------------------------------------------------------------------
  // Which frames there are
  // ---------------------------------------------------------------------

  predicate InSpan(f: nat, r: Region) {
    f % PAGE_SIZE == 0 && Base(r) <= f < Limit(r)
  }

  lemma {:induction false} SpanIsRegionFrames(f: nat, r: Region)
    ensures f in RegionFrames(r) <==> InSpan(f, r)
  {
    if InSpan(f, r) {
      var k := (f - Base(r)) / PAGE_SIZE;
      assert f - Base(r) == PAGE_SIZE * k;
      assert RegionFrames(r)[k] == f;
    }
  }

  lemma {:induction false} UsableFramesAreSpans(rs: seq<Region>, f: nat)
    ensures f in UsableFrames(rs) <==> exists i :: 0 <= i < |rs| && InSpan(f, rs[i])
    decreases |rs|
  {
    if rs != [] {
      UsableFramesSplit(rs);
      SpanIsRegionFrames(f, rs[0]);
      UsableFramesAreSpans(rs[1..], f);
      if i :| 0 <= i < |rs| && InSpan(f, rs[i]) {
        if i > 0 {
          assert rs[1..][i - 1] == rs[i];
        }
      }
    }
  }

  lemma {:induction false} BaseAboveMin(r: Region)
    ensures Base(r) >= MIN_USABLE
  {
    assert First(r) >= MIN_USABLE;
  }

  /** Whatever the memory map, no frame below 1 MiB is handed out. */
  lemma {:induction false} FramesAboveOneMiB(rs: seq<Region>, k: nat)
    requires k < |UsableFrames(rs)|
    ensures UsableFrames(rs)[k] >= 0x10_0000 && UsableFrames(rs)[k] % 4096 == 0
  {
    var f := UsableFrames(rs)[k];
    UsableFramesAreSpans(rs, f);
    var i :| 0 <= i < |rs| && InSpan(f, rs[i]);
    BaseAboveMin(rs[i]);
  }

  // ---------------------------------------------------------------------
  // No frame twice
  // ---------------------------------------------------------------------

  ghost predicate Differ(fs: seq<Frame>, i: int, j: int) {
    0 <= i < j < |fs| ==> fs[i] != fs[j]
  }

  ghost predicate Distinct(fs: seq<Frame>) {
    forall i, j {:trigger Differ(fs, i, j)} :: Differ(fs, i, j)
  }

  predicate SpansApart(a: Region, b: Region) {
    Count(a) == 0 || Count(b) == 0 || Limit(a) <= Base(b) || Limit(b) <= Base(a)
  }

  ghost predicate SpansDisjoint(rs: seq<Region>) {
    forall i, j | 0 <= i < j < |rs| :: SpansApart(rs[i], rs[j])
  }

  lemma {:induction false} Overlap(a: Region, b: Region) returns (f: nat)
    requires !SpansApart(a, b)
    ensures InSpan(f, a) && InSpan(f, b)
  {
    f := if Base(a) <= Base(b) then Base(b) else Base(a);
  }

  lemma {:induction false} ApartSpans(a: Region, b: Region, f: nat)
    requires SpansApart(a, b) && InSpan(f, a)
    ensures !InSpan(f, b)
  {
  }

  /** Over all calls no frame is handed out twice if and only if the frame spans of the
      regions do not overlap: a test on the memory map alone. */
  lemma {:induction false} NeverTwice(rs: seq<Region>)
    ensures Distinct(UsableFrames(rs)) <==> SpansDisjoint(rs)
    decreases |rs|
  {
    if rs != [] {
      UsableFramesSplit(rs);
      NeverTwice(rs[1..]);
      HeadApart(rs);
      TailApart(rs);
      DistinctAppend(RegionFrames(rs[0]), UsableFrames(rs[1..]));
    }
  }

  lemma {:induction false} DistinctAppend(a: seq<Frame>, b: seq<Frame>)
    ensures Distinct(a + b) <==> Distinct(a) && Distinct(b) && forall f | f in a :: f !in b
  {
    if Distinct(a + b) {
      forall i, j
        ensures Differ(a, i, j) && Differ(b, i, j)
      {
        assert Differ(a + b, i, j) && Differ(a + b, |a| + i, |a| + j);
      }
      forall f | f in a
        ensures f !in b
      {
        var i :| 0 <= i < |a| && a[i] == f;
        forall j | 0 <= j < |b|
          ensures b[j] != f
        {
          assert Differ(a + b, i, |a| + j);
        }
      }
    } else if Distinct(a) && Distinct(b) {
      var i, j :| !Differ(a + b, i, j);
      assert Differ(a, i, j) && Differ(b, i - |a|, j - |a|);
      assert i < |a| <= j;
      assert a[i] in a && b[j - |a|] in b && a[i] == b[j - |a|];
    }
  }

  lemma {:induction false} TailApart(rs: seq<Region>)
    requires rs != []
    ensures SpansDisjoint(rs) <==>
      SpansDisjoint(rs[1..]) && forall j | 0 < j < |rs| :: SpansApart(rs[0], rs[j])
  {
    if SpansDisjoint(rs[1..]) && forall j | 0 < j < |rs| :: SpansApart(rs[0], rs[j]) {
      forall i, j | 0 <= i < j < |rs|
        ensures SpansApart(rs[i], rs[j])
      {
        if i > 0 {
          assert rs[1..][i - 1] == rs[i] && rs[1..][j - 1] == rs[j];
        }
      }
    }
  }

  lemma {:induction false} HeadApart(rs: seq<Region>)
    requires rs != []
    ensures (forall f | f in RegionFrames(rs[0]) :: f !in UsableFrames(rs[1..]))
      <==> forall j | 0 < j < |rs| :: SpansApart(rs[0], rs[j])
  {
    if j :| 0 < j < |rs| && !SpansApart(rs[0], rs[j]) {
      var f := Overlap(rs[0], rs[j]);
      SpanIsRegionFrames(f, rs[0]);
      assert InSpan(f, rs[1..][j - 1]);
      UsableFramesAreSpans(rs[1..], f);
    } else {
      forall f | f in RegionFrames(rs[0])
        ensures f !in UsableFrames(rs[1..])
      {
        SpanIsRegionFrames(f, rs[0]);
        UsableFramesAreSpans(rs[1..], f);
        forall i | 0 <= i < |rs[1..]|
          ensures !InSpan(f, rs[1..][i])
        {
          ApartSpans(rs[0], rs[i + 1], f);
        }
      }
    }
  }

  // ---------------------------------------------------------------------
  // Well-formed memory maps
  // ---------------------------------------------------------------------

  ghost predicate StartsAligned(rs: seq<Region>) {
    forall i | 0 <= i < |rs| && rs[i].kind == Usable :: rs[i].start % PAGE_SIZE == 0
  }

  ghost predicate EndsAligned(rs: seq<Region>) {
    forall i | 0 <= i < |rs| && rs[i].kind == Usable :: rs[i].end % PAGE_SIZE == 0
  }

  ghost predicate UsableDisjoint(rs: seq<Region>) {
    forall i, j | 0 <= i < j < |rs| && rs[i].kind == Usable && rs[j].kind == Usable ::
      rs[i].end <= rs[i].start || rs[j].end <= rs[j].start
      || rs[i].end <= rs[j].start || rs[j].end <= rs[i].start
  }

  /** For a page-aligned region the span is what lies in it at or above 1 MiB. */
  lemma {:induction false} AlignedSpan(r: Region)
    requires r.kind == Usable && r.start % PAGE_SIZE == 0
    ensures Count(r) > 0 ==>
      Base(r) == (if r.start >= MIN_USABLE then r.start else MIN_USABLE)
      && Base(r) < r.end && r.end <= Limit(r) < r.end + PAGE_SIZE
    ensures Count(r) == 0 <==> r.end <= (if r.start >= MIN_USABLE then r.start else MIN_USABLE)
  {
    if r.start < MIN_USABLE {
      assert (MIN_USABLE - r.start) % PAGE_SIZE == 0;
    }
    assert First(r) == if r.start >= MIN_USABLE then r.start else MIN_USABLE;
  }

  /** Disjoint usable regions with aligned starts never give a frame twice. */
  lemma {:induction false} AlignedNeverTwice(rs: seq<Region>)
    requires StartsAligned(rs) && UsableDisjoint(rs)
    ensures Distinct(UsableFrames(rs))
  {
    forall i, j | 0 <= i < j < |rs|
      ensures SpansApart(rs[i], rs[j])
    {
      if Count(rs[i]) > 0 && Count(rs[j]) > 0 {
        AlignedApart(rs[i], rs[j]);
      }
    }
    NeverTwice(rs);
  }

  lemma {:induction false} AlignedApart(a: Region, b: Region)
    requires a.kind == Usable && b.kind == Usable && Count(a) > 0 && Count(b) > 0
    requires a.start % PAGE_SIZE == 0 && b.start % PAGE_SIZE == 0
    requires a.end <= b.start || b.end <= a.start
    ensures SpansApart(a, b)
  {
    AlignedSpan(a);
    AlignedSpan(b);
    if a.end <= b.start {
      MultipleBelow(Limit(a), Base(b));
    } else {
      MultipleBelow(Limit(b), Base(a));
    }
  }

  lemma {:induction false} MultipleBelow(x: nat, y: nat)
    requires x % PAGE_SIZE == 0 && y % PAGE_SIZE == 0 && x < y + PAGE_SIZE
    ensures x <= y
  {
  }

  ghost predicate HoldsFrame(r: Region, f: nat) {
    r.kind == Usable && r.start <= f && f + 4096 <= r.end
  }

  /** With aligned ends too, the calls enumerate exactly the frames that lie wholly in a usable
      region at or above 1 MiB. */
  lemma {:induction false} ExactlyTheUsableFrames(rs: seq<Region>, f: nat)
    requires StartsAligned(rs) && EndsAligned(rs)
    ensures f in UsableFrames(rs) <==>
      f % 4096 == 0 && f >= 0x10_0000 && exists i :: 0 <= i < |rs| && HoldsFrame(rs[i], f)
  {
    UsableFramesAreSpans(rs, f);
    forall i | 0 <= i < |rs|
      ensures InSpan(f, rs[i]) <==> f % PAGE_SIZE == 0 && f >= MIN_USABLE && HoldsFrame(rs[i], f)
    {
      if rs[i].kind == Usable {
        AlignedHolds(rs[i], f);
      }
    }
  }

  lemma {:induction false} AlignedHolds(r: Region, f: nat)
    requires r.kind == Usable && r.start % PAGE_SIZE == 0 && r.end % PAGE_SIZE == 0
    ensures InSpan(f, r) <==> f % PAGE_SIZE == 0 && f >= MIN_USABLE && HoldsFrame(r, f)
  {
    AlignedSpan(r);
    if f % PAGE_SIZE == 0 && f < r.end {
      MultipleBelow(f + PAGE_SIZE, r.end);
    }
    if Count(r) > 0 {
      MultipleBelow(Limit(r), r.end);
    }
  }

  /** On a well-formed memory map the successful calls enumerate every usable frame at or above
      1 MiB exactly once. */
  lemma {:induction false} EachUsableFrameOnce(rs: seq<Region>, f: Frame)
    requires StartsAligned(rs) && EndsAligned(rs) && UsableDisjoint(rs)
    ensures (exists k :: KthFrame(rs, k) == Some(f)) <==>
      f >= 0x10_0000 && exists i :: 0 <= i < |rs| && HoldsFrame(rs[i], f)
    ensures forall j, k | KthFrame(rs, j) == Some(f) && KthFrame(rs, k) == Some(f) :: j == k
  {
    ExactlyTheUsableFrames(rs, f);
    SomeCallGives(rs, f);
    AlignedNeverTwice(rs);
    forall j: nat, k: nat | KthFrame(rs, j) == Some(f) && KthFrame(rs, k) == Some(f)
      ensures j == k
    {
      KthCallIsClosedForm(rs, j);
      KthCallIsClosedForm(rs, k);
      assert Differ(UsableFrames(rs), j, k) && Differ(UsableFrames(rs), k, j);
    }
  }

  lemma {:induction false} SpansInMapOrder(rs: seq<Region>, j: nat, k: nat) returns (a: nat, b: nat)
    requires j < k < |UsableFrames(rs)|
    ensures a <= b < |rs| && InSpan(UsableFrames(rs)[j], rs[a]) && InSpan(UsableFrames(rs)[k], rs[b])
    ensures a == b ==> UsableFrames(rs)[j] < UsableFrames(rs)[k]
    decreases |rs|
  {
    UsableFramesSplit(rs);
    var n, tail := Count(rs[0]), UsableFrames(rs[1..]);
    if k < n {
      a, b := 0, 0;
    } else if j >= n {
      a, b := SpansInMapOrder(rs[1..], j - n, k - n);
      a, b := a + 1, b + 1;
    } else {
      assert UsableFrames(rs)[j] == RegionFrames(rs[0])[j];
      b := SpanAt(rs[1..], k - n);
      a, b := 0, b + 1;
    }
  }

  lemma {:induction false} SpanAt(rs: seq<Region>, k: nat) returns (i: nat)
    requires k < |UsableFrames(rs)|
    ensures i < |rs| && InSpan(UsableFrames(rs)[k], rs[i])
  {
    UsableFramesAreSpans(rs, UsableFrames(rs)[k]);
    i :| i < |rs| && InSpan(UsableFrames(rs)[k], rs[i]);
  }

  /** The calls go through the memory map from its start, and through each region upwards. */
  lemma {:induction false} GivenInMapOrder(rs: seq<Region>, j: nat, k: nat) returns (a: nat, b: nat)
    requires StartsAligned(rs) && EndsAligned(rs) && j < k < |UsableFrames(rs)|
    ensures KthFrame(rs, j) == Some(UsableFrames(rs)[j]) && KthFrame(rs, k) == Some(UsableFrames(rs)[k])
    ensures a <= b < |rs| && HoldsFrame(rs[a], UsableFrames(rs)[j]) && HoldsFrame(rs[b], UsableFrames(rs)[k])
    ensures a == b ==> UsableFrames(rs)[j] < UsableFrames(rs)[k]
  {
    a, b := SpansInMapOrder(rs, j, k);
    SpanHolds(rs[a], UsableFrames(rs)[j]);
    SpanHolds(rs[b], UsableFrames(rs)[k]);
    KthCallIsClosedForm(rs, j);
    KthCallIsClosedForm(rs, k);
  }

  lemma {:induction false} SpanHolds(r: Region, f: nat)
    requires InSpan(f, r) && (r.kind == Usable ==> r.start % PAGE_SIZE == 0 && r.end % PAGE_SIZE == 0)
    ensures HoldsFrame(r, f)
  {
    if r.kind == Usable {
      AlignedHolds(r, f);
    }
  }

  lemma {:induction false} SomeCallGives(rs: seq<Region>, f: Frame)
    ensures (exists k :: KthFrame(rs, k) == Some(f)) <==> f in UsableFrames(rs)
  {
    if f in UsableFrames(rs) {
      var k: nat :| k < |UsableFrames(rs)| && UsableFrames(rs)[k] == f;
      KthCallIsClosedForm(rs, k);
      assert KthFrame(rs, k) == Some(f);
    }
    if k: nat :| KthFrame(rs, k) == Some(f) {
      KthCallIsClosedForm(rs, k);
    }
  }

  /** For any one region, aligned or not, all its frames lie wholly inside it if and only if
      the two ends of its span do. */
  lemma {:induction false} SpanInsideRegion(r: Region)
    requires Count(r) > 0
    ensures (forall f: Frame | InSpan(f, r) :: HoldsFrame(r, f)) <==> r.start <= Base(r) && Limit(r) <= r.end
  {
    var last: Frame := Limit(r) - PAGE_SIZE;
    assert InSpan(Base(r), r) && InSpan(last, r);
    forall f: Frame | InSpan(f, r)
      ensures f <= last
    {
      MultipleBelow(f + PAGE_SIZE, Limit(r));
    }
  }

  /** A frame of the region's span holds an address of the region. */
  lemma {:induction false} GridAddress(f: Frame, r: Region) returns (g: nat)
    requires InSpan(f, r)
    ensures r.kind == Usable && f <= g < f + PAGE_SIZE && r.start <= g < r.end
  {
    g := First(r) + (f - Base(r));
    MultipleBelow(f + PAGE_SIZE, Limit(r));
  }

  ghost predicate HeldBySome(rs: seq<Region>, f: Frame) {
    exists i :: 0 <= i < |rs| && HoldsFrame(rs[i], f)
  }

  ghost predicate SpanInside(r: Region) {
    Count(r) > 0 ==> r.start <= Base(r) && Limit(r) <= r.end
  }

  /** Of disjoint regions only the one a frame was computed from can hold it wholly. */
  lemma {:induction false} OwnRegionHolds(rs: seq<Region>, i: nat, f: Frame)
    requires UsableDisjoint(rs) && i < |rs| && InSpan(f, rs[i]) && HeldBySome(rs, f)
    ensures HoldsFrame(rs[i], f)
  {
    var g := GridAddress(f, rs[i]);
    var j :| 0 <= j < |rs| && HoldsFrame(rs[j], f);
  }

  /** For any disjoint memory map, aligned or not, every frame the calls give lies wholly in a
      usable region if and only if the two ends of each region's span lie in that region. */
  lemma {:induction false} FramesInsideRegions(rs: seq<Region>)
    requires UsableDisjoint(rs)
    ensures (forall f | f in UsableFrames(rs) :: HeldBySome(rs, f)) <==>
      forall i | 0 <= i < |rs| :: SpanInside(rs[i])
  {
    if forall f | f in UsableFrames(rs) :: HeldBySome(rs, f) {
      forall i | 0 <= i < |rs|
        ensures SpanInside(rs[i])
      {
        if Count(rs[i]) > 0 {
          forall f: Frame | InSpan(f, rs[i])
            ensures HoldsFrame(rs[i], f)
          {
            UsableFramesAreSpans(rs, f);
            OwnRegionHolds(rs, i, f);
          }
          SpanInsideRegion(rs[i]);
        }
      }
    }
    if forall i | 0 <= i < |rs| :: SpanInside(rs[i]) {
      forall f | f in UsableFrames(rs)
        ensures HeldBySome(rs, f)
      {
        UsableFramesAreSpans(rs, f);
        var i :| 0 <= i < |rs| && InSpan(f, rs[i]);
        SpanInsideRegion(rs[i]);
      }
    }
  }

  /** Without alignment the promise fails: two disjoint usable regions inside one page give
      the same frame twice, and that frame does not lie in either. */
  lemma {:induction false} UnalignedGivesTwice()
    ensures var rs := [Region(0x10_0100, 0x10_0200, Usable), Region(0x10_0200, 0x10_0300, Usable)];
      && UsableDisjoint(rs)
      && KthFrame(rs, 0) == Some(0x10_0000) && KthFrame(rs, 1) == Some(0x10_0000)
      && !HoldsFrame(rs[0], 0x10_0000) && !HoldsFrame(rs[1], 0x10_0000)
  {
    var rs := [Region(0x10_0100, 0x10_0200, Usable), Region(0x10_0200, 0x10_0300, Usable)];
    assert rs[1..] == [Region(0x10_0200, 0x10_0300, Usable)];
    assert Count(rs[0]) == 1 && Count(rs[1]) == 1;
  }
}
