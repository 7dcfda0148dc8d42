/**
 What `map_to` does to the tables: it links a frame into an unused entry, first new zeroed
 tables on the way down, then the page's own frame.
 */
module Mapping {
  import opened Frames
  import opened Paging

  /** The entry `i` of table `t` set to point at `g`; a new table is also cleared. */
  function Link(m: Physical, t: Frame, i: Index, g: Frame, newTable: bool): Physical {
    var m' := m[t := TableAt(m, t)[i := Points(g)]];
    if newTable then m'[g := ZEROED] else m'
  }

  /** `f` is reached as a table from the root. */
  ghost predicate IsTable(m: Physical, root: Frame, f: Frame) {
    exists p: seq<Index> :: |p| <= 3 && Follow(m, root, p) == Mapped(f)
  }

  /** The paths `p` and `q` lead to the same table. */
  ghost predicate SameTable(m: Physical, root: Frame, p: seq<Index>, q: seq<Index>) {
    |p| <= 3 && |q| <= 3 && Follow(m, root, p).Mapped? && Follow(m, root, q) == Follow(m, root, p)
  }

  /** The table at the end of `p`, if there is one, is reached at no level above that of `p`. */
  ghost predicate NotHigher(m: Physical, root: Frame, p: seq<Index>) {
    forall q: seq<Index> {:trigger SameTable(m, root, p, q)} :: SameTable(m, root, p, q) ==> |q| >= |p|
  }

  ghost predicate LowAt(m: Physical, root: Frame, path: seq<Index>, k: nat) {
    k <= 3 && k <= |path| ==> NotHigher(m, root, path[..k])
  }

  /** No table on the way down `path` is also used as one of a higher level. */
  ghost predicate LowWay(m: Physical, root: Frame, path: seq<Index>) {
    forall k: nat {:trigger LowAt(m, root, path, k)} :: LowAt(m, root, path, k)
  }

  /** It is reached at the level of `p` only. */
  ghost predicate AtLevel(m: Physical, root: Frame, p: seq<Index>) {
    forall q: seq<Index> {:trigger SameTable(m, root, p, q)} :: SameTable(m, root, p, q) ==> |q| == |p|
  }

  ghost predicate LevelAt(m: Physical, root: Frame, path: seq<Index>, k: nat) {
    k <= 3 && k <= |path| ==> AtLevel(m, root, path[..k])
  }

  /** Every table on the way down `path` is a table of its own level only. */
  ghost predicate LevelWay(m: Physical, root: Frame, path: seq<Index>) {
    forall k: nat {:trigger LevelAt(m, root, path, k)} :: LevelAt(m, root, path, k)
  }

  /** The table at the end of `p`, if there is one, is reached by `p` only. */
  ghost predicate Sole(m: Physical, root: Frame, p: seq<Index>) {
    forall q: seq<Index> {:trigger SameTable(m, root, p, q)} :: SameTable(m, root, p, q) ==> q == p
  }

  /** Level `k` of `path` is reached in no other way, except perhaps from a lower level, where one
      more level of `path` is there already. */
  ghost predicate ClearAt(m: Physical, root: Frame, path: seq<Index>, k: nat) {
    k <= 3 && k < |path| ==>
      forall q: seq<Index> {:trigger SameTable(m, root, path[..k], q)} :: SameTable(m, root, path[..k], q) ==>
        q == path[..k] || (|q| > k && Follow(m, root, path[..k + 1]).Mapped?)
  }

  /** A page mapped at `path`, with the tables it still needs, will be seen nowhere else. */
  ghost predicate ClearWay(m: Physical, root: Frame, path: seq<Index>) {
    forall k: nat {:trigger ClearAt(m, root, path, k)} :: ClearAt(m, root, path, k)
  }

  /** Linking `g` at index `i` of the table at the end of `p` is what `map_to` does: the entry is
      free, and either `g` is no table yet and becomes a cleared one, or `p` is a full table path. */
  ghost predicate Linkable(m: Physical, root: Frame, p: seq<Index>, t: Frame, i: Index, g: Frame, newTable: bool) {
    && Follow(m, root, p) == Mapped(t) && EntryAt(m, t, i) == Unused
    && (if newTable then |p| <= 2 && !IsTable(m, root, g) else |p| == 3)
  }

  lemma {:induction false} TablesAreTables(m: Physical, root: Frame, p: seq<Index>)
    requires |p| <= 3 && Follow(m, root, p).Mapped?
    ensures IsTable(m, root, Follow(m, root, p).address)
  {
  }

  lemma {:induction false} LinkEntry(m: Physical, t: Frame, i: Index, g: Frame, newTable: bool, f: Frame, x: Index)
    requires newTable ==> f != g
    ensures EntryAt(Link(m, t, i, g, newTable), f, x) == if f == t && x == i then Points(g) else EntryAt(m, f, x)
  {
  }

  /** A link never changes a walk that already led somewhere. */
  lemma {:induction false} LinkKeeps(m: Physical, root: Frame, p: seq<Index>, t: Frame, i: Index, g: Frame,
                                     newTable: bool, q: seq<Index>)
    requires Linkable(m, root, p, t, i, g, newTable)
    requires |q| <= 4 && Follow(m, root, q) != NotMapped
    ensures Follow(Link(m, t, i, g, newTable), root, q) == Follow(m, root, q)
    decreases |q|
  {
    if q != [] {
      var m' := Link(m, t, i, g, newTable);
      var init, x := q[..|q| - 1], q[|q| - 1];
      FollowLast(m, root, q);
      FollowLast(m', root, q);
      LinkKeeps(m, root, p, t, i, g, newTable, init);
      var w := Follow(m, root, init);
      if w.Mapped? {
        TablesAreTables(m, root, init);
        LinkEntry(m, t, i, g, newTable, w.address, x);
      }
    }
  }

  /** The linked frame is reached. */
  lemma {:induction false} LinkReaches(m: Physical, root: Frame, p: seq<Index>, t: Frame, i: Index, g: Frame,
                                       newTable: bool)
    requires Linkable(m, root, p, t, i, g, newTable)
    ensures Follow(Link(m, t, i, g, newTable), root, p + [i]) == Mapped(g)
  {
    LinkKeeps(m, root, p, t, i, g, newTable, p);
    FollowSnoc(Link(m, t, i, g, newTable), root, p, i);
    TablesAreTables(m, root, p);
    LinkEntry(m, t, i, g, newTable, t, i);
  }

  /** `q` goes to the linked table and on through the new entry. */
  ghost predicate Through(m: Physical, root: Frame, p: seq<Index>, i: Index, q: seq<Index>) {
    q != [] && q[|q| - 1] == i && Follow(m, root, q[..|q| - 1]) == Follow(m, root, p)
  }

  /** A new table, shared or not, changes no walk but those that end at it: below it nothing is
      mapped yet. */
  lemma {:induction false} NewTableIsEmpty(m: Physical, root: Frame, p: seq<Index>, t: Frame, i: Index, g: Frame,
                                         q: seq<Index>)
    requires Linkable(m, root, p, t, i, g, true) && |q| <= 4
    ensures var w := Follow(Link(m, t, i, g, true), root, q);
      || w == Follow(m, root, q)
      || (Through(m, root, p, i, q) && Follow(m, root, q) == NotMapped && w == Mapped(g))
    decreases |q|
  {
    if q != [] {
      var m' := Link(m, t, i, g, true);
      var init, x := q[..|q| - 1], q[|q| - 1];
      FollowLast(m, root, q);
      FollowLast(m', root, q);
      NewTableIsEmpty(m, root, p, t, i, g, init);
      var w := Follow(m', root, init);
      if w == Follow(m, root, init) && w.Mapped? {
        TablesAreTables(m, root, init);
        LinkEntry(m, t, i, g, true, w.address, x);
      }
    }
  }

  /** The only table a link can add is `g`, below `t`. */
  lemma {:induction false} LinkTables(m: Physical, root: Frame, p: seq<Index>, t: Frame, i: Index, g: Frame,
                                      newTable: bool, q: seq<Index>)
    requires Linkable(m, root, p, t, i, g, newTable) && NotHigher(m, root, p)
    requires |q| <= 3 && Follow(Link(m, t, i, g, newTable), root, q).Mapped?
    ensures var w := Follow(Link(m, t, i, g, newTable), root, q);
      w == Follow(m, root, q) || (newTable && w == Mapped(g) && Through(m, root, p, i, q))
    decreases |q|
  {
    if newTable {
      NewTableIsEmpty(m, root, p, t, i, g, q);
    } else if q != [] {
      var m' := Link(m, t, i, g, newTable);
      var init, x := q[..|q| - 1], q[|q| - 1];
      FollowLast(m, root, q);
      FollowLast(m', root, q);
      LinkTables(m, root, p, t, i, g, newTable, init);
      var w := Follow(m', root, init);
      if w == Follow(m, root, init) && w.Mapped? {
        TablesAreTables(m, root, init);
        LinkEntry(m, t, i, g, newTable, w.address, x);
        assert w.address == t ==> SameTable(m, root, p, init);
      }
    }
  }

  /** Links leave the ways of a low way low. */
  lemma {:induction false} LinkKeepsLow(m: Physical, root: Frame, p: seq<Index>, t: Frame, i: Index, g: Frame,
                                        newTable: bool, path: seq<Index>)
    requires Linkable(m, root, p, t, i, g, newTable) && NotHigher(m, root, p) && LowWay(m, root, path)
    ensures LowWay(Link(m, t, i, g, newTable), root, path)
  {
    var m' := Link(m, t, i, g, newTable);
    forall k: nat
      ensures LowAt(m', root, path, k)
    {
      if k <= 3 && k <= |path| {
        forall q: seq<Index> | SameTable(m', root, path[..k], q)
          ensures |q| >= k
        {
          LinkTables(m, root, p, t, i, g, newTable, path[..k]);
          LinkTables(m, root, p, t, i, g, newTable, q);
          assert LowAt(m, root, path, k);
          if Follow(m', root, q) == Follow(m, root, q) && Follow(m', root, path[..k]) == Follow(m, root, path[..k]) {
            assert SameTable(m, root, path[..k], q);
          } else {
            BothThrough(m, root, p, t, i, g, newTable, path, k, q);
          }
        }
      }
    }
  }

  /** Two ways to a new table go through the linked one, and neither is shorter than it should be. */
  lemma {:induction false} BothThrough(m: Physical, root: Frame, p: seq<Index>, t: Frame, i: Index, g: Frame,
                                       newTable: bool,
                                       path: seq<Index>, k: nat, q: seq<Index>)
    requires Linkable(m, root, p, t, i, g, newTable) && NotHigher(m, root, p) && LowWay(m, root, path)
    requires k <= 3 && k <= |path| && SameTable(Link(m, t, i, g, newTable), root, path[..k], q)
    requires Follow(Link(m, t, i, g, newTable), root, q) != Follow(m, root, q)
      || Follow(Link(m, t, i, g, newTable), root, path[..k]) != Follow(m, root, path[..k])
    ensures k - 1 <= |p| <= |q| - 1
  {
    LinkTables(m, root, p, t, i, g, newTable, path[..k]);
    LinkTables(m, root, p, t, i, g, newTable, q);
    assert Follow(m, root, q) != Mapped(g) && Follow(m, root, path[..k]) != Mapped(g);
    assert Through(m, root, p, i, q) && Through(m, root, p, i, path[..k]);
    assert path[..k][..k - 1] == path[..k - 1];
    assert SameTable(m, root, p, q[..|q| - 1]) && SameTable(m, root, path[..k - 1], p);
    assert LowAt(m, root, path, k - 1);
  }

  lemma {:induction false} LinkKeepsLevel(m: Physical, root: Frame, p: seq<Index>, t: Frame, i: Index, g: Frame,
                                         newTable: bool, path: seq<Index>)
    requires Linkable(m, root, p, t, i, g, newTable) && AtLevel(m, root, p) && LevelWay(m, root, path)
    ensures LevelWay(Link(m, t, i, g, newTable), root, path)
  {
    var m' := Link(m, t, i, g, newTable);
    forall k: nat
      ensures LevelAt(m', root, path, k)
    {
      if k <= 3 && k <= |path| {
        forall q: seq<Index> | SameTable(m', root, path[..k], q)
          ensures |q| == k
        {
          LinkTables(m, root, p, t, i, g, newTable, path[..k]);
          LinkTables(m, root, p, t, i, g, newTable, q);
          assert LevelAt(m, root, path, k);
          if Follow(m', root, q) == Follow(m, root, q) && Follow(m', root, path[..k]) == Follow(m, root, path[..k]) {
            assert SameTable(m, root, path[..k], q);
          } else {
            assert Follow(m, root, q) != Mapped(g) && Follow(m, root, path[..k]) != Mapped(g);
            assert SameTable(m, root, p, q[..|q| - 1]) && SameTable(m, root, p, path[..k][..k - 1]);
          }
        }
      }
    }
  }

  /** When `p` is the only way to the linked table, a link changes the walk through the new entry
      only: below a new table nothing is mapped yet. */
  lemma {:induction false} SoleLinkChangesOne(m: Physical, root: Frame, p: seq<Index>, t: Frame, i: Index, g: Frame,
                                         newTable: bool, q: seq<Index>)
    requires Linkable(m, root, p, t, i, g, newTable) && Sole(m, root, p) && |q| <= 4
    ensures Follow(Link(m, t, i, g, newTable), root, q) ==
      if q == p + [i] then Mapped(g) else Follow(m, root, q)
    decreases |q|
  {
    if q == p + [i] {
      LinkReaches(m, root, p, t, i, g, newTable);
    } else if q != [] {
      var m' := Link(m, t, i, g, newTable);
      var init, x := q[..|q| - 1], q[|q| - 1];
      FollowLast(m, root, q);
      FollowLast(m', root, q);
      SoleLinkChangesOne(m, root, p, t, i, g, newTable, init);
      if init == p + [i] {
        FollowSnoc(m, root, p, i);
      } else {
        var w := Follow(m, root, init);
        if w.Mapped? {
          TablesAreTables(m, root, init);
          LinkEntry(m, t, i, g, newTable, w.address, x);
          if w.address == t {
            assert SameTable(m, root, p, init);
            assert q == p + [x];
          }
        }
      }
    }
  }

  /** A second way to the linked table is a second way to the linked frame. */
  lemma {:induction false} SharedLinkChangesTwo(m: Physical, root: Frame, p: seq<Index>, t: Frame, i: Index, g: Frame,
                                         newTable: bool, q: seq<Index>)
    requires Linkable(m, root, p, t, i, g, newTable) && SameTable(m, root, p, q)
    ensures Follow(m, root, q + [i]) == NotMapped
    ensures Follow(Link(m, t, i, g, newTable), root, q + [i]) == Mapped(g)
  {
    LinkKeeps(m, root, p, t, i, g, newTable, q);
    FollowSnoc(m, root, q, i);
    FollowSnoc(Link(m, t, i, g, newTable), root, q, i);
    TablesAreTables(m, root, p);
    LinkEntry(m, t, i, g, newTable, t, i);
  }

  /** A link changes the walk through the new entry and no other if and only if the table it is
      made in is reached in one way only. */
  lemma {:induction false} LinkExact(m: Physical, root: Frame, p: seq<Index>, t: Frame, i: Index, g: Frame,
                                     newTable: bool)
    requires Linkable(m, root, p, t, i, g, newTable)
    ensures (forall q: seq<Index> | |q| <= 4 ::
        Follow(Link(m, t, i, g, newTable), root, q) == if q == p + [i] then Mapped(g) else Follow(m, root, q))
      <==> Sole(m, root, p)
  {
    if Sole(m, root, p) {
      forall q: seq<Index> | |q| <= 4
        ensures Follow(Link(m, t, i, g, newTable), root, q) == if q == p + [i] then Mapped(g) else Follow(m, root, q)
      {
        SoleLinkChangesOne(m, root, p, t, i, g, newTable, q);
      }
    } else {
      var q: seq<Index> :| SameTable(m, root, p, q) && q != p;
      SharedLinkChangesTwo(m, root, p, t, i, g, newTable, q);
      assert (q + [i])[..|q|] == q && (p + [i])[..|p|] == p;
    }
  }

  /** Where a link is to be made a clear way is sole. */
  lemma {:induction false} ClearIsSole(m: Physical, root: Frame, path: seq<Index>, k: nat, t: Frame, g: Frame,
                                       newTable: bool)
    requires |path| == 4 && k <= 3 && Linkable(m, root, path[..k], t, path[k], g, newTable) && ClearAt(m, root, path, k)
    ensures Sole(m, root, path[..k])
  {
    assert path[..k + 1] == path[..k] + [path[k]];
    FollowSnoc(m, root, path[..k], path[k]);
  }

  /** A link made in a table reached in one way only leaves clear every way that was. */
  lemma {:induction false} LinkKeepsClear(m: Physical, root: Frame, p: seq<Index>, t: Frame, i: Index, g: Frame,
                                         newTable: bool,
                                          path: seq<Index>, k: nat)
    requires Linkable(m, root, p, t, i, g, newTable) && Sole(m, root, p) && ClearAt(m, root, path, k) && |path| <= 4
    ensures ClearAt(Link(m, t, i, g, newTable), root, path, k)
  {
    var m' := Link(m, t, i, g, newTable);
    if k <= 3 && k < |path| {
      forall q: seq<Index> | SameTable(m', root, path[..k], q)
        ensures q == path[..k] || (|q| > k && Follow(m', root, path[..k + 1]).Mapped?)
      {
        SoleLinkChangesOne(m, root, p, t, i, g, newTable, path[..k]);
        SoleLinkChangesOne(m, root, p, t, i, g, newTable, q);
        if path[..k] != p + [i] && q != p + [i] {
          assert SameTable(m, root, path[..k], q);
          if Follow(m, root, path[..k + 1]).Mapped? {
            LinkKeeps(m, root, p, t, i, g, newTable, path[..k + 1]);
          }
        } else {
          assert newTable ==> Follow(m, root, path[..k]) != Mapped(g) && Follow(m, root, q) != Mapped(g);
        }
      }
    }
  }

  lemma {:induction false} LinkKeepsClearWay(m: Physical, root: Frame, p: seq<Index>, t: Frame, i: Index, g: Frame,
                                         newTable: bool,
                                             path: seq<Index>)
    requires Linkable(m, root, p, t, i, g, newTable) && Sole(m, root, p) && ClearWay(m, root, path) && |path| <= 4
    ensures ClearWay(Link(m, t, i, g, newTable), root, path)
  {
    forall k: nat
      ensures ClearAt(Link(m, t, i, g, newTable), root, path, k)
    {
      assert ClearAt(m, root, path, k);
      LinkKeepsClear(m, root, p, t, i, g, newTable, path, k);
    }
  }
}
