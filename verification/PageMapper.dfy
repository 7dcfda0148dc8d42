/** The effect of the crate's `map_to` on whole page-table graphs, with its frame allocator. */
module PageMapper {
  import opened Common
  import opened Frames
  import opened Paging
  import opened Mapping

  // ---------------------------------------------------------------------
  // Page-table growth
  // ---------------------------------------------------------------------

  /** The frames still to come are distinct and none of them is a table. */
  ghost predicate Available(m: Physical, root: Frame, rest: seq<Frame>) {
    Distinct(rest) && forall f: Frame {:trigger NoTable(m, root, rest, f)} :: NoTable(m, root, rest, f)
  }

  ghost predicate NoTable(m: Physical, root: Frame, rest: seq<Frame>, f: Frame) {
    f in rest ==> !IsTable(m, root, f)
  }

  ghost predicate Keeps(m: Physical, m': Physical, root: Frame, q: seq<Index>) {
    |q| <= 4 && Follow(m, root, q) != NotMapped ==> Follow(m', root, q) == Follow(m, root, q)
  }

  ghost predicate TableFrom(m: Physical, m': Physical, root: Frame, drawn: seq<Frame>, f: Frame) {
    IsTable(m', root, f) ==> IsTable(m, root, f) || f in drawn
  }

  ghost predicate StaysLow(m: Physical, m': Physical, root: Frame, way: seq<Index>) {
    LowWay(m, root, way) ==> LowWay(m', root, way)
  }

  ghost predicate StaysLevel(m: Physical, m': Physical, root: Frame, way: seq<Index>) {
    LevelWay(m, root, way) ==> LevelWay(m', root, way)
  }

  /** Walks that led somewhere still lead there, and new tables come from `drawn`. */
  ghost predicate Grew(m: Physical, m': Physical, root: Frame, drawn: seq<Frame>) {
    && (forall q: seq<Index> {:trigger Keeps(m, m', root, q)} :: Keeps(m, m', root, q))
    && (forall f: Frame {:trigger TableFrom(m, m', root, drawn, f)} :: TableFrom(m, m', root, drawn, f))
    && (forall w: seq<Index> {:trigger StaysLow(m, m', root, w)} :: StaysLow(m, m', root, w))
  }

  /** The page `q` is translated as before, except that `path` goes to `to`, when given. */
  ghost predicate LeafIs(m: Physical, m': Physical, root: Frame, path: seq<Index>, to: Option<Frame>, q: seq<Index>) {
    |q| == 4 ==> Follow(m', root, q) == if q == path && to.Some? then Mapped(to.value) else Follow(m, root, q)
  }

  /** No table is found where there was none, except on the way down `path`. */
  ghost predicate Beside(m: Physical, m': Physical, root: Frame, path: seq<Index>, q: seq<Index>) {
    |q| <= 3 && !(q <= path) ==> Follow(m', root, q) == Follow(m, root, q)
  }

  ghost predicate StaysClear(m: Physical, m': Physical, root: Frame, way: seq<Index>) {
    |way| == 4 && ClearWay(m, root, way) ==> ClearWay(m', root, way)
  }

  ghost predicate ChangesOnly(m: Physical, m': Physical, root: Frame, path: seq<Index>, to: Option<Frame>) {
    && (forall q: seq<Index> {:trigger LeafIs(m, m', root, path, to, q)} :: LeafIs(m, m', root, path, to, q))
    && (forall q: seq<Index> {:trigger Beside(m, m', root, path, q)} :: Beside(m, m', root, path, q))
    && (forall w: seq<Index> {:trigger StaysClear(m, m', root, w)} :: StaysClear(m, m', root, w))
  }

  /** New tables alone change no translation, and levels stay apart. */
  ghost predicate OnlyLevels(m: Physical, m': Physical, root: Frame, path: seq<Index>, to: Option<Frame>) {
    && (forall w: seq<Index> {:trigger StaysLevel(m, m', root, w)} :: StaysLevel(m, m', root, w))
    && (to == None ==>
      forall q: seq<Index> {:trigger LeafIs(m, m', root, path, to, q)} :: LeafIs(m, m', root, path, to, q))
  }

  /** New tables do not change where `path` leads. If those on the way down are used on their own
      level only, they change no translation at all; if that way was clear, the page at `path` is the
      only one whose translation may have changed. */
  ghost predicate OnlyMaps(m: Physical, m': Physical, root: Frame, path: seq<Index>, to: Option<Frame>) {
    && (to == None ==> LeafIs(m, m', root, path, to, path))
    && (LevelWay(m, root, path) ==> OnlyLevels(m, m', root, path, to))
    && (ClearWay(m, root, path) ==> ChangesOnly(m, m', root, path, to))
  }

  /** What going down `path` from the tables `start` has done so far. */
  ghost predicate Descent(start: Physical, m: Physical, root: Frame, path: seq<Index>, drawn: seq<Frame>) {
    Grew(start, m, root, drawn) && OnlyMaps(start, m, root, path, None) && LowWay(m, root, path)
  }

  lemma {:induction false} GrewChains(a: Physical, b: Physical, c: Physical, root: Frame, d: seq<Frame>, e: seq<Frame>)
    requires Grew(a, b, root, d) && Grew(b, c, root, e)
    ensures Grew(a, c, root, d + e)
  {
    forall q: seq<Index>
      ensures Keeps(a, c, root, q) && StaysLow(a, c, root, q)
    {
      assert Keeps(a, b, root, q) && Keeps(b, c, root, q);
      assert StaysLow(a, b, root, q) && StaysLow(b, c, root, q);
    }
    forall f: Frame
      ensures TableFrom(a, c, root, d + e, f)
    {
      assert TableFrom(a, b, root, d, f) && TableFrom(b, c, root, e, f);
    }
  }

  lemma {:induction false} LevelsChain(a: Physical, b: Physical, c: Physical, root: Frame, path: seq<Index>,
                                       to: Option<Frame>)
    requires OnlyLevels(a, b, root, path, None) && OnlyLevels(b, c, root, path, to)
    ensures OnlyLevels(a, c, root, path, to)
  {
    forall q: seq<Index>
      ensures StaysLevel(a, c, root, q) && (to == None ==> LeafIs(a, c, root, path, to, q))
    {
      assert StaysLevel(a, b, root, q) && StaysLevel(b, c, root, q);
      assert LeafIs(a, b, root, path, None, q) && (to == None ==> LeafIs(b, c, root, path, to, q));
    }
  }

  lemma {:induction false} ChangesChain(a: Physical, b: Physical, c: Physical, root: Frame, path: seq<Index>,
                                        to: Option<Frame>)
    requires ChangesOnly(a, b, root, path, None) && ChangesOnly(b, c, root, path, to)
    ensures ChangesOnly(a, c, root, path, to)
  {
    forall q: seq<Index>
      ensures LeafIs(a, c, root, path, to, q) && Beside(a, c, root, path, q) && StaysClear(a, c, root, q)
    {
      assert LeafIs(a, b, root, path, None, q) && LeafIs(b, c, root, path, to, q);
      assert Beside(a, b, root, path, q) && Beside(b, c, root, path, q);
      assert StaysClear(a, b, root, q) && StaysClear(b, c, root, q);
    }
  }

  lemma {:induction false} OnlyMapsChains(a: Physical, b: Physical, c: Physical, root: Frame, path: seq<Index>,
                                         to: Option<Frame>)
    requires OnlyMaps(a, b, root, path, None) && OnlyMaps(b, c, root, path, to) && |path| == 4
    ensures OnlyMaps(a, c, root, path, to)
  {
    if LevelWay(a, root, path) {
      assert StaysLevel(a, b, root, path);
      LevelsChain(a, b, c, root, path, to);
    }
    if ClearWay(a, root, path) {
      assert StaysClear(a, b, root, path);
      ChangesChain(a, b, c, root, path, to);
    }
  }

  lemma {:induction false} StillAvailable(m: Physical, m': Physical, root: Frame, drawn: seq<Frame>, rest: seq<Frame>)
    requires Available(m, root, drawn + rest) && Grew(m, m', root, drawn)
    ensures Available(m', root, rest)
  {
    DistinctAppend(drawn, rest);
    forall f: Frame
      ensures NoTable(m', root, rest, f)
    {
      assert f in rest ==> f in drawn + rest;
      assert NoTable(m, root, drawn + rest, f);
      assert TableFrom(m, m', root, drawn, f);
    }
  }

  lemma {:induction false} DescentGoesOn(start: Physical, before: Physical, m: Physical, root: Frame,
                                          path: seq<Index>, drawn: seq<Frame>, taken: seq<Frame>, rest: seq<Frame>)
    requires Descent(start, before, root, path, drawn) && |path| == 4
    requires Grew(before, m, root, taken) && OnlyMaps(before, m, root, path, None)
    requires Available(before, root, taken + rest)
    ensures Descent(start, m, root, path, drawn + taken) && Available(m, root, rest)
    ensures drawn + (taken + rest) == (drawn + taken) + rest
  {
    GrewChains(start, before, m, root, drawn, taken);
    OnlyMapsChains(start, before, m, root, path, None);
    StillAvailable(before, m, root, taken, rest);
    assert StaysLow(before, m, root, path);
  }

  lemma {:induction false} PrefixGrows(m: Physical, root: Frame, path: seq<Index>, k: nat)
    requires k < |path|
    ensures path[..k + 1] == path[..k] + [path[k]]
    ensures !Follow(m, root, path[..k] + [path[k]]).Mapped? ==>
      Follow(m, root, path) == Follow(m, root, path[..k] + [path[k]])
  {
    assert path[..k + 1] == path[..k] + [path[k]];
    if !Follow(m, root, path[..k + 1]).Mapped? {
      FollowStops(m, root, path, k + 1);
    }
  }

  // ---------------------------------------------------------------------
  // Missing tables
  // ---------------------------------------------------------------------

  /** How many tables must be created before the page at `path` can be mapped. */
  function Missing(m: Physical, root: Frame, path: seq<Index>): nat
    requires |path| == 4
  {
    if !Follow(m, root, path[..1]).Mapped? then 3
    else if !Follow(m, root, path[..2]).Mapped? then 2
    else if !Follow(m, root, path[..3]).Mapped? then 1
    else 0
  }

  lemma {:induction false} PrefixMapped(m: Physical, root: Frame, path: seq<Index>, j: nat, k: nat)
    requires j <= k <= |path| && Follow(m, root, path[..k]).Mapped?
    ensures Follow(m, root, path[..j]).Mapped?
  {
    if !Follow(m, root, path[..j]).Mapped? {
      assert path[..k][..j] == path[..j];
      FollowStops(m, root, path[..k], j);
    }
  }

  lemma {:induction false} MissingFrom(m: Physical, root: Frame, path: seq<Index>, k: nat)
    requires |path| == 4 && k <= 3 && Follow(m, root, path[..k]).Mapped?
    requires k < 3 ==> !Follow(m, root, path[..k + 1]).Mapped?
    ensures Missing(m, root, path) == 3 - k
  {
    forall j: nat | j <= k
      ensures Follow(m, root, path[..j]).Mapped?
    {
      PrefixMapped(m, root, path, j, k);
    }
  }

  // ---------------------------------------------------------------------
  // One link
  // ---------------------------------------------------------------------

  lemma {:induction false} NewTableGrows(m: Physical, root: Frame, path: seq<Index>, k: nat, t: Frame, g: Frame)
    requires |path| == 4 && k < 3 && Linkable(m, root, path[..k], t, path[k], g, true) && LowWay(m, root, path)
    ensures var m' := Link(m, t, path[k], g, true);
      && Grew(m, m', root, [g]) && OnlyMaps(m, m', root, path, None)
      && Follow(m', root, path[..k + 1]) == Mapped(g)
      && Missing(m, root, path) == Missing(m', root, path) + 1
  {
    var p, i := path[..k], path[k];
    assert path[..k + 1] == p + [i];
    assert LowAt(m, root, path, k);
    LinkReaches(m, root, p, t, i, g, true);
    LinkGrows(m, root, p, t, i, g, true);
    if LevelWay(m, root, path) {
      NewTableLevels(m, root, path, k, t, g);
    }
    if ClearWay(m, root, path) {
      ClearLink(m, root, path, k, t, g, true);
    }
    NewTableMissing(m, root, path, k, t, g);
    NewTableOnWay(m, root, path, k, t, g);
  }

  lemma {:induction false} LinkGrows(m: Physical, root: Frame, p: seq<Index>, t: Frame, i: Index, g: Frame,
                                     newTable: bool)
    requires Linkable(m, root, p, t, i, g, newTable) && NotHigher(m, root, p)
    ensures Grew(m, Link(m, t, i, g, newTable), root, if newTable then [g] else [])
  {
    var m' := Link(m, t, i, g, newTable);
    var drawn := if newTable then [g] else [];
    forall q: seq<Index>
      ensures Keeps(m, m', root, q) && StaysLow(m, m', root, q)
    {
      if |q| <= 4 && Follow(m, root, q) != NotMapped {
        LinkKeeps(m, root, p, t, i, g, newTable, q);
      }
      if LowWay(m, root, q) {
        LinkKeepsLow(m, root, p, t, i, g, newTable, q);
      }
    }
    forall f: Frame
      ensures TableFrom(m, m', root, drawn, f)
    {
      if q: seq<Index> :| |q| <= 3 && Follow(m', root, q) == Mapped(f) {
        LinkTables(m, root, p, t, i, g, newTable, q);
      }
    }
  }

  /** A new table does not change where its own way leads. */
  lemma {:induction false} NewTableOnWay(m: Physical, root: Frame, path: seq<Index>, k: nat, t: Frame, g: Frame)
    requires |path| == 4 && k < 3 && Linkable(m, root, path[..k], t, path[k], g, true)
    ensures Follow(Link(m, t, path[k], g, true), root, path) == Follow(m, root, path) == NotMapped
  {
    var m' := Link(m, t, path[k], g, true);
    assert path[..k + 1] == path[..k] + [path[k]];
    FollowSnoc(m, root, path[..k], path[k]);
    FollowStops(m, root, path, k + 1);
    NewTableIsEmpty(m, root, path[..k], t, path[k], g, path);
    if Follow(m, root, path[..3]).Mapped? {
      PrefixMapped(m, root, path, k + 1, 3);
    }
  }

  /** On a way whose tables are used on their own level only, a new table changes no translation. */
  lemma {:induction false} NewTableLevels(m: Physical, root: Frame, path: seq<Index>, k: nat, t: Frame, g: Frame)
    requires |path| == 4 && k < 3 && Linkable(m, root, path[..k], t, path[k], g, true) && LevelWay(m, root, path)
    ensures OnlyLevels(m, Link(m, t, path[k], g, true), root, path, None)
  {
    var p, i := path[..k], path[k];
    var m' := Link(m, t, i, g, true);
    assert LevelAt(m, root, path, k);
    forall q: seq<Index>
      ensures LeafIs(m, m', root, path, None, q) && StaysLevel(m, m', root, q)
    {
      if |q| == 4 {
        NewTableIsEmpty(m, root, p, t, i, g, q);
        assert Through(m, root, p, i, q) ==> SameTable(m, root, p, q[..3]);
      }
      if LevelWay(m, root, q) {
        LinkKeepsLevel(m, root, p, t, i, g, true, q);
      }
    }
  }

  lemma {:induction false} NewTableMissing(m: Physical, root: Frame, path: seq<Index>, k: nat, t: Frame, g: Frame)
    requires |path| == 4 && k < 3 && Linkable(m, root, path[..k], t, path[k], g, true)
    ensures Missing(m, root, path) == Missing(Link(m, t, path[k], g, true), root, path) + 1
  {
    var p, i := path[..k], path[k];
    var m' := Link(m, t, i, g, true);
    assert path[..k + 1] == p + [i];
    FollowSnoc(m, root, p, i);
    MissingFrom(m, root, path, k);
    LinkReaches(m, root, p, t, i, g, true);
    if k + 1 < 3 {
      assert path[..k + 2] == path[..k + 1] + [path[k + 1]];
      FollowSnoc(m', root, path[..k + 1], path[k + 1]);
    }
    MissingFrom(m', root, path, k + 1);
  }

  /** A link on a clear way changes nothing beside that way. */
  lemma {:induction false} ClearLink(m: Physical, root: Frame, path: seq<Index>, k: nat, t: Frame, g: Frame,
                                     newTable: bool)
    requires |path| == 4 && k <= 3 && (newTable <==> k < 3)
    requires Linkable(m, root, path[..k], t, path[k], g, newTable) && ClearWay(m, root, path)
    ensures ChangesOnly(m, Link(m, t, path[k], g, newTable), root, path, if newTable then None else Some(g))
  {
    var p, i, to := path[..k], path[k], if newTable then None else Some(g);
    var m' := Link(m, t, i, g, newTable);
    assert path[..k + 1] == p + [i] && path[..4] == path;
    assert ClearAt(m, root, path, k);
    ClearIsSole(m, root, path, k, t, g, newTable);
    forall q: seq<Index>
      ensures LeafIs(m, m', root, path, to, q) && Beside(m, m', root, path, q) && StaysClear(m, m', root, q)
    {
      if |q| <= 4 {
        SoleLinkChangesOne(m, root, p, t, i, g, newTable, q);
      }
      if |q| == 4 && ClearWay(m, root, q) {
        LinkKeepsClearWay(m, root, p, t, i, g, newTable, q);
      }
    }
  }

  lemma {:induction false} PageGrows(m: Physical, root: Frame, path: seq<Index>, t: Frame, g: Frame)
    requires |path| == 4 && Linkable(m, root, path[..3], t, path[3], g, false) && LowWay(m, root, path)
    ensures var m' := Link(m, t, path[3], g, false);
      && Grew(m, m', root, []) && OnlyMaps(m, m', root, path, Some(g))
      && Follow(m', root, path) == Mapped(g)
  {
    var p, i := path[..3], path[3];
    var m' := Link(m, t, i, g, false);
    assert path == p + [i];
    assert LowAt(m, root, path, 3);
    LinkReaches(m, root, p, t, i, g, false);
    LinkGrows(m, root, p, t, i, g, false);
    if LevelWay(m, root, path) {
      assert LevelAt(m, root, path, 3);
      forall q: seq<Index>
        ensures StaysLevel(m, m', root, q)
      {
        if LevelWay(m, root, q) {
          LinkKeepsLevel(m, root, p, t, i, g, false, q);
        }
      }
    }
    if ClearWay(m, root, path) {
      ClearLink(m, root, path, 3, t, g, false);
    }
  }

  lemma {:induction false} ParentIsHuge(m: Physical, root: Frame, path: seq<Index>, k: nat)
    requires |path| == 4 && k < 3 && Follow(m, root, path[..k] + [path[k]]) == HugePanic
    ensures Follow(m, root, path[..3]) == HugePanic
  {
    assert path[..3][..k + 1] == path[..k] + [path[k]];
    FollowStops(m, root, path[..3], k + 1);
  }

  lemma {:induction false} PathStops(m: Physical, root: Frame, path: seq<Index>)
    requires |path| == 4
    ensures !Follow(m, root, path[..3]).Mapped? ==> Follow(m, root, path) == Follow(m, root, path[..3])
  {
    if !Follow(m, root, path[..3]).Mapped? {
      FollowStops(m, root, path, 3);
    }
  }

  lemma {:induction false} LastIndex(m: Physical, root: Frame, path: seq<Index>, table: Frame)
    requires |path| == 4 && Follow(m, root, path[..3]) == Mapped(table)
    ensures Follow(m, root, path) == Next(m, table, path[3])
  {
    assert path == path[..3] + [path[3]];
    FollowSnoc(m, root, path[..3], path[3]);
  }

  /** The last link of a descent maps the page. */
  lemma {:induction false} LastLink(start: Physical, m: Physical, root: Frame, path: seq<Index>, table: Frame,
                                    data: Frame, drawn: seq<Frame>, rest: seq<Frame>)
    requires |path| == 4 && Follow(m, root, path[..3]) == Mapped(table) && EntryAt(m, table, path[3]) == Unused
    requires Descent(start, m, root, path, drawn) && Available(m, root, rest)
    ensures var m' := Link(m, table, path[3], data, false);
      && Grew(start, m', root, drawn) && OnlyMaps(start, m', root, path, Some(data))
      && Available(m', root, rest) && Follow(m', root, path) == Mapped(data)
  {
    var m' := Link(m, table, path[3], data, false);
    PageGrows(m, root, path, table, data);
    GrewChains(start, m, m', root, drawn, []);
    OnlyMapsChains(start, m, m', root, path, Some(data));
    assert [] + rest == rest && drawn + [] == drawn;
    StillAvailable(m, m', root, [], rest);
  }

  lemma {:induction false} NothingGrows(m: Physical, root: Frame, path: seq<Index>)
    ensures Grew(m, m, root, []) && OnlyMaps(m, m, root, path, None)
  {
  }

  // ---------------------------------------------------------------------
  // map_to
  // ---------------------------------------------------------------------

  datatype MapOutcome = Done | FrameAllocationFailed | ParentEntryHugePage | PageAlreadyMapped

  class Mapper {
    const root: Frame
    var memory: Physical

    constructor (root: Frame, memory: Physical)
      ensures this.root == root && this.memory == memory
    {
      this.root, this.memory := root, memory;
    }

    /** The table below entry `i` of `table`, created from a new zeroed frame if the entry is
        unused; `table` is reached by the first `k` indices of `path`, and `i` is the next one. */
    method CreateNextTable(table: Frame, i: Index, alloc: AbyssFrameAllocator, ghost path: seq<Index>, ghost k: nat)
        returns (outcome: MapOutcome, next: Frame, ghost drawn: seq<Frame>)
      requires |path| == 4 && k < 3 && path[k] == i && Follow(memory, root, path[..k]) == Mapped(table)
      requires LowWay(memory, root, path) && Available(memory, root, alloc.Remaining())
      modifies this`memory, alloc`next
      ensures old(alloc.Remaining()) == drawn + alloc.Remaining()
      ensures Grew(old(memory), memory, root, drawn) && OnlyMaps(old(memory), memory, root, path, None)
      ensures outcome == Done ==> Follow(memory, root, path[..k + 1]) == Mapped(next)
      ensures outcome in {Done, FrameAllocationFailed, ParentEntryHugePage}
      ensures Missing(old(memory), root, path) == |drawn| + Missing(memory, root, path)
      ensures outcome == FrameAllocationFailed ==>
        alloc.Remaining() == [] && Missing(memory, root, path) > 0 && Follow(memory, root, path) == NotMapped
      ensures outcome == ParentEntryHugePage ==> Follow(memory, root, path[..3]) == HugePanic
    {
      drawn, next := [], table;
      FollowSnoc(memory, root, path[..k], i);
      PrefixGrows(memory, root, path, k);
      NothingGrows(memory, root, path);
      match EntryAt(memory, table, i) {
        case Huge =>
          outcome := ParentEntryHugePage;
          ParentIsHuge(memory, root, path, k);
        case Points(f) =>
          outcome, next := Done, f;
        case Unused =>
          var frame := alloc.AllocateFrame();
          if frame == None {
            outcome := FrameAllocationFailed;
            MissingFrom(memory, root, path, k);
          } else {
            outcome, next, drawn := Done, frame.value, [frame.value];
            assert next in old(alloc.Remaining());
            assert NoTable(memory, root, old(alloc.Remaining()), next);
            NewTableGrows(memory, root, path, k, table, next);
            memory := memory[table := TableAt(memory, table)[i := Points(next)]];
            memory := memory[next := ZEROED];
          }
      }
    }

    /** One level of the way down to the table of `path`, as part of a descent from `start`. */
    method StepDown(path: seq<Index>, k: nat, table: Frame, alloc: AbyssFrameAllocator, ghost start: Physical,
                    ghost drawn: seq<Frame>)
        returns (outcome: MapOutcome, next: Frame, ghost drawn': seq<Frame>)
      requires |path| == 4 && k < 3 && Follow(memory, root, path[..k]) == Mapped(table)
      requires Descent(start, memory, root, path, drawn) && Available(memory, root, alloc.Remaining())
      modifies this`memory, alloc`next
      ensures drawn + old(alloc.Remaining()) == drawn' + alloc.Remaining()
      ensures Descent(start, memory, root, path, drawn') && Available(memory, root, alloc.Remaining())
      ensures outcome == Done ==> Follow(memory, root, path[..k + 1]) == Mapped(next)
      ensures outcome in {Done, FrameAllocationFailed, ParentEntryHugePage}
      ensures Missing(old(memory), root, path) + |drawn| == Missing(memory, root, path) + |drawn'|
      ensures outcome == FrameAllocationFailed ==>
        alloc.Remaining() == [] && Missing(memory, root, path) > 0 && Follow(memory, root, path) == NotMapped
      ensures outcome == ParentEntryHugePage ==> Follow(memory, root, path[..3]) == HugePanic
    {
      ghost var before := memory;
      ghost var taken;
      outcome, next, taken := CreateNextTable(table, path[k], alloc, path, k);
      drawn' := drawn + taken;
      DescentGoesOn(start, before, memory, root, path, drawn, taken, alloc.Remaining());
    }

    /** Goes down to the level-1 table of `path`, creating the missing tables on the way. */
    method LevelOneTable(path: seq<Index>, alloc: AbyssFrameAllocator)
        returns (outcome: MapOutcome, table: Frame, ghost drawn: seq<Frame>)
      requires |path| == 4
      requires LowWay(memory, root, path) && Available(memory, root, alloc.Remaining())
      modifies this`memory, alloc`next
      ensures old(alloc.Remaining()) == drawn + alloc.Remaining()
      ensures Descent(old(memory), memory, root, path, drawn) && Available(memory, root, alloc.Remaining())
      ensures outcome == Done ==> Follow(memory, root, path[..3]) == Mapped(table)
      ensures outcome in {Done, FrameAllocationFailed, ParentEntryHugePage}
      ensures Missing(old(memory), root, path) == |drawn| + Missing(memory, root, path)
      ensures outcome == Done ==> Missing(memory, root, path) == 0
      ensures outcome == FrameAllocationFailed ==>
        alloc.Remaining() == [] && Missing(memory, root, path) > 0 && Follow(memory, root, path) == NotMapped
      ensures outcome == ParentEntryHugePage ==> Follow(memory, root, path[..3]) == HugePanic
    {
      ghost var start, rest := memory, alloc.Remaining();
      drawn, table, outcome := [], root, Done;
      NothingGrows(memory, root, path);
      var k := 0;
      while k < 3
        invariant 0 <= k <= 3
        invariant rest == drawn + alloc.Remaining()
        invariant Descent(start, memory, root, path, drawn) && Available(memory, root, alloc.Remaining())
        invariant Follow(memory, root, path[..k]) == Mapped(table)
        invariant Missing(start, root, path) == |drawn| + Missing(memory, root, path)
      {
        outcome, table, drawn := StepDown(path, k, table, alloc, start, drawn);
        if outcome != Done {
          return;
        }
        k := k + 1;
      }
      outcome := Done;
      MissingFrom(memory, root, path, 3);
    }

    /** Maps the page whose indices are `path` to `data`: done exactly when the page was free and
        the allocator had a frame for every missing table. */
    method MapTo(path: seq<Index>, data: Frame, alloc: AbyssFrameAllocator)
        returns (outcome: MapOutcome, ghost drawn: seq<Frame>)
      requires |path| == 4
      requires LowWay(memory, root, path) && Available(memory, root, alloc.Remaining())
      modifies this`memory, alloc`next
      ensures old(alloc.Remaining()) == drawn + alloc.Remaining()
      ensures Grew(old(memory), memory, root, drawn) && Available(memory, root, alloc.Remaining())
      ensures OnlyMaps(old(memory), memory, root, path, if outcome == Done then Some(data) else None)
      ensures outcome == Done <==>
        Follow(old(memory), root, path) == NotMapped && |old(alloc.Remaining())| >= Missing(old(memory), root, path)
      ensures outcome == Done ==>
        Follow(memory, root, path) == Mapped(data) && |drawn| == Missing(old(memory), root, path)
      ensures outcome == FrameAllocationFailed <==>
        Follow(old(memory), root, path) == NotMapped && |old(alloc.Remaining())| < Missing(old(memory), root, path)
      ensures outcome == FrameAllocationFailed ==> alloc.Remaining() == []
      ensures outcome == ParentEntryHugePage <==> Follow(old(memory), root, path[..3]) == HugePanic
      ensures outcome == PageAlreadyMapped <==>
        Follow(old(memory), root, path[..3]).Mapped? && Follow(old(memory), root, path) != NotMapped
    {
      var table;
      outcome, table, drawn := LevelOneTable(path, alloc);
      PathStops(old(memory), root, path);
      PathStops(memory, root, path);
      assert LeafIs(old(memory), memory, root, path, None, path);
      assert Keeps(old(memory), memory, root, path[..3]);
      if outcome != Done {
        return;
      }
      LastIndex(memory, root, path, table);
      if EntryAt(memory, table, path[3]) != Unused {
        return PageAlreadyMapped, drawn;
      }
      LastLink(old(memory), memory, root, path, table, data, drawn, alloc.Remaining());
      memory := memory[table := TableAt(memory, table)[path[3] := Points(data)]];
    }
  }
}
