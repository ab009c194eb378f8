/**
Adding an entry through any inode that lists a directory, `.` and `..` included
(src/fs/tempfs.c:46-64): what the counted walk does, and exactly when it is right.
*/
module TempFsThrough {
  import opened Bytes
  import opened CStrings
  import opened TempFsModel
  import opened TempFsSteps
  import opened TempFsContents
  import opened TempFsTree

  // ----- the counted walk -----------------------------------------------------------

  /** Where following `n` links from the entry `p` leads; null once past the end. */
  function Walk(f: Fs, p: Ptr, n: nat): Ptr {
    if n == 0 then p else
      var q := Walk(f, p, n - 1);
      if q in f.entries then f.entries[q].next else 0
  }

  lemma {:induction false} WalkAt(f: Fs, h: Ptr, n: nat)
    requires FsOk(f) && h in f.dirs && n <= |f.dirs[h].list|
    ensures Walk(f, h, n) == if n < |f.dirs[h].list| then f.dirs[h].list[n] else 0
  {
    hide FsOk;
    Shape(f, h);
    if n > 0 {
      WalkAt(f, h, n - 1);
      SlotParts(f, h, n - 1);
      hide KindOk;
      assert SlotOk(f, h, n - 1);
    }
  }

  /** The walk from a directory's own inode ends on its last entry; and any other count would not. */
  lemma CountedWalkEndsOnTail(f: Fs, h: Ptr, n: nat)
    requires FsOk(f) && h in f.dirs && n <= |f.dirs[h].list|
    ensures f.dirs[h].inode in f.inodes
    ensures (Walk(f, h, n) in f.entries && f.entries[Walk(f, h, n)].next == 0) <==> n == f.inodes[f.dirs[h].inode].count
  {
    WalkAt(f, h, n);
    Tail(f, h);
    NoNullEntry(f);
    hide FsOk, KindOk;
    if n < |f.dirs[h].list| {
      SlotParts(f, h, n);
      assert SlotOk(f, h, n);
      if n + 1 < |f.dirs[h].list| {
        SlotParts(f, h, n + 1);
      }
    }
  }

  lemma NoNullEntry(f: Fs)
    requires FsOk(f)
    ensures 0 !in f.entries
  {
    BoundedOf(f);
    assert 0 !in f.entries.Keys;
  }

  // ----- counts ---------------------------------------------------------------------

  /** The inode of `.` always counts two entries and that of `..` none, whatever the directories hold. */
  lemma DotCounts(f: Fs, h: Ptr)
    requires FsOk(f) && h in f.dirs
    ensures var dot := Lookup(f, h, [46]); dot in f.inodes && f.inodes[dot].first == h && f.inodes[dot].count == 2
    ensures var up := Lookup(f, h, [46, 46]); up in f.inodes && f.inodes[up].first == f.dirs[h].parent && f.inodes[up].count == 0
  {
    hide FsOk;
    Shape(f, h);
    SlotParts(f, h, 0);
    SlotParts(f, h, 1);
    hide DirOk, NamesDiffer;
    SlotIs(f, h, 0);
    SlotIs(f, h, 1);
  }

  /** A directory inode lists a directory: as its own inode, or as the `.` or `..` of one. */
  ghost predicate Placed(f: Fs, d: Ptr)
    requires d in f.inodes
  {
    f.inodes[d].isDir ==> f.inodes[d].first in f.dirs && (f.dirs[f.inodes[d].first].inode == d || IsDot(f, d))
  }

  ghost predicate IsDot(f: Fs, d: Ptr) {
    d in f.home && f.home[d].i < 2 && f.home[d].owner in f.dirs && At(f, f.home[d].owner, f.home[d].i) == d
  }

  ghost predicate AllPlaced(f: Fs) {
    forall d {:trigger Placed(f, d)} :: d in f.inodes ==> Placed(f, d)
  }

  // ----- the step -------------------------------------------------------------------

  /** The walk through `d` does not run past the end of the list. */
  predicate WalkEnds(f: Fs, d: Ptr) {
    Lists(f, d) && Walk(f, f.inodes[d].first, f.inodes[d].count) in f.entries
  }

  /** What `tempfs_mkfile` through `d` leaves in memory. */
  function Through(f: Fs, d: Ptr, name: seq<byte>): Fs
    requires WalkEnds(f, d) && NameFits(name)
  {
    var c, e, w := f.brk, f.brk + 1, Walk(f, f.inodes[d].first, f.inodes[d].count);
    f.(inodes := f.inodes[c := NewInode(name, false)][d := f.inodes[d].(count := f.inodes[d].count + 1)],
       entries := f.entries[e := Entry(false, c, 0)][w := f.entries[w].(next := e)], brk := f.brk + 2)
  }

  predicate SameMemory(f: Fs, g: Fs) {
    f.inodes == g.inodes && f.entries == g.entries && f.nodes == g.nodes && f.brk == g.brk
  }

  ghost predicate DirsStay(f: Fs, g: Fs) {
    forall k {:trigger k in g.dirs} :: k in f.dirs ==>
      k in g.dirs && g.dirs[k].inode == f.dirs[k].inode && g.dirs[k].parent == f.dirs[k].parent && f.dirs[k].list <= g.dirs[k].list
  }

  /** The memory after adding through `d` is still that of well-shaped directories, the ones there were among them with all their entries. */
  ghost predicate KeepsShape(f: Fs, d: Ptr, name: seq<byte>)
    requires NameFits(name)
  {
    WalkEnds(f, d) && exists g :: SameMemory(Through(f, d, name), g) && DirsStay(f, g) && FsOk(g)
  }

  lemma {:induction false} PastTheEnd(f: Fs, p: Ptr, n: nat, m: nat)
    requires 0 !in f.entries && Walk(f, p, n) == 0 && n <= m
    ensures Walk(f, p, m) == 0
  {
    if n < m {
      PastTheEnd(f, p, n, m - 1);
    }
  }

  /** A walk that ends on an entry ends inside the list. */
  lemma EndsInside(f: Fs, d: Ptr)
    requires FsOk(f) && WalkEnds(f, d)
    ensures f.inodes[d].count < |f.dirs[f.inodes[d].first].list|
  {
    var h := f.inodes[d].first;
    var n := |f.dirs[h].list|;
    NoNullEntry(f);
    hide FsOk;
    if f.inodes[d].count >= n {
      WalkAt(f, h, n);
      PastTheEnd(f, h, n, f.inodes[d].count);
    }
  }

  /** The list that the links make afterwards: the entries the walk passed, and the new one; what came after them is cut off. */
  lemma {:induction false} ThroughCuts(f: Fs, d: Ptr, name: seq<byte>, i: nat)
    requires FsOk(f) && WalkEnds(f, d) && NameFits(name) && i <= f.inodes[d].count + 2
    ensures var h, n := f.inodes[d].first, f.inodes[d].count;
      n < |f.dirs[h].list| && Walk(Through(f, d, name), h, i) == if i <= n then f.dirs[h].list[i] else if i == n + 1 then f.brk + 1 else 0
  {
    var h, n, l := f.inodes[d].first, f.inodes[d].count, f.dirs[f.inodes[d].first].list;
    var x := Through(f, d, name);
    hide FsOk, SlotOk, NewInode;
    BoundedOf(f);
    EndsInside(f, d);
    WalkAt(f, h, 0);
    WalkAt(f, h, n);
    SlotParts(f, h, n);
    if i > 0 {
      ThroughCuts(f, d, name, i - 1);
      if i <= n {
        LinkBefore(f, h, i - 1, n);
        assert x.entries[l[i - 1]].next == l[i];
      } else if i == n + 1 {
        assert x.entries[l[n]].next == f.brk + 1;
      } else {
        assert x.entries[f.brk + 1].next == 0;
      }
    }
  }

  /** A link before the last one the walk passed. */
  lemma LinkBefore(f: Fs, h: Ptr, i: nat, n: nat)
    requires FsOk(f) && h in f.dirs && i < n < |f.dirs[h].list|
    ensures f.dirs[h].list[i] in f.entries && f.entries[f.dirs[h].list[i]].next == f.dirs[h].list[i + 1]
    ensures 0 < f.dirs[h].list[i] < f.brk && f.dirs[h].list[i] != f.dirs[h].list[n]
  {
    hide FsOk;
    SlotParts(f, h, i);
    ListLinked(f, h, i);
    if f.dirs[h].list[i] == f.dirs[h].list[n] {
      SlotsApart(f, h, i, h, n);
    }
  }

  lemma ListLinked(f: Fs, h: Ptr, i: nat)
    requires h in f.dirs && SlotOk(f, h, i)
    ensures f.dirs[h].list[i] in f.entries && f.entries[f.dirs[h].list[i]].next == NextIn(f.dirs[h].list, i)
  {
    hide KindOk;
  }

  // ----- exactly when it is right ---------------------------------------------------

  lemma OwnKeepsShape(f: Fs, d: Ptr, name: seq<byte>)
    requires FsOk(f) && Canonical(f, d) && NameFits(name) && Lookup(f, f.inodes[d].first, name) == 0
    ensures KeepsShape(f, d, name)
  {
    var h := f.inodes[d].first;
    hide FsOk, Lookup;
    Tail(f, h);
    WalkAt(f, h, f.inodes[d].count);
    var g := WithFile(f, h, name, 0, 0);
    assert WalkEnds(f, d);
    BoundedOf(f);
    ThroughOwn(f, d, name);
    WithFileOk(f, h, name, 0, 0, g);
    hide WithFile, Through, SameMemory, NameFits;
    forall k | k in f.dirs
      ensures k in g.dirs && g.dirs[k].inode == f.dirs[k].inode && g.dirs[k].parent == f.dirs[k].parent && f.dirs[k].list <= g.dirs[k].list
    {
      assert ListKept(f, g, h, f.brk + 1, k);
    }
  }

  /** The walk through a directory's own inode ends on its last entry. */
  lemma OwnWalkEnds(f: Fs, d: Ptr)
    requires FsOk(f) && Canonical(f, d)
    ensures WalkEnds(f, d)
  {
    var h := f.inodes[d].first;
    hide FsOk;
    Tail(f, h);
    WalkAt(f, h, f.inodes[d].count);
  }

  lemma ThroughOwn(f: Fs, d: Ptr, name: seq<byte>)
    requires WalkEnds(f, d) && Canonical(f, d) && NameFits(name) && HasTail(f, f.inodes[d].first)
    requires Walk(f, f.inodes[d].first, f.inodes[d].count) == f.dirs[f.inodes[d].first].list[|f.dirs[f.inodes[d].first].list| - 1]
    ensures SameMemory(Through(f, d, name), WithFile(f, f.inodes[d].first, name, 0, 0))
  {
    assert NewInode(name, false).(kind := 0, ops := 0) == NewInode(name, false);
  }

  /** Through `.` its count becomes three. */
  lemma DotBreaks(f: Fs, d: Ptr, name: seq<byte>, k: Ptr, g: Fs)
    requires FsOk(f) && WalkEnds(f, d) && NameFits(name) && k in f.dirs && At(f, k, 0) == d
    requires SameMemory(Through(f, d, name), g) && DirsStay(f, g)
    ensures !FsOk(g)
  {
    SlotParts(f, k, 0);
    Shape(f, k);
    if FsOk(g) {
      Shape(g, k);
      SlotParts(g, k, 0);
      hide FsOk, DirOk, NamesDiffer;
      DotAfter(f, d, name, k, g);
    }
  }

  lemma DotAfter(f: Fs, d: Ptr, name: seq<byte>, k: Ptr, g: Fs)
    requires FsOk(f) && WalkEnds(f, d) && NameFits(name) && k in f.dirs && SlotOk(f, k, 0) && At(f, k, 0) == d && f.dirs[k].list[0] == k
    requires SameMemory(Through(f, d, name), g) && k in g.dirs && |g.dirs[k].list| > 0 && g.dirs[k].list[0] == k
    ensures At(g, k, 0) == d && d in g.inodes && g.inodes[d].count == 3
  {
    BoundedOf(f);
    assert d in f.inodes.Keys && k in f.entries.Keys;
    hide FsOk;
  }

  /** Through `..` its count becomes one; through that of the root, the new entry takes its place. */
  lemma DotDotBreaks(f: Fs, d: Ptr, name: seq<byte>, k: Ptr, g: Fs)
    requires FsOk(f) && WalkEnds(f, d) && NameFits(name) && k in f.dirs && At(f, k, 1) == d
    requires SameMemory(Through(f, d, name), g) && DirsStay(f, g)
    ensures !FsOk(g)
  {
    Shape(f, k);
    SlotParts(f, k, 0);
    SlotParts(f, k, 1);
    if FsOk(g) {
      Shape(g, k);
      SlotParts(g, k, 0);
      SlotParts(g, k, 1);
      hide FsOk, DirOk, NamesDiffer;
      DotDotAfter(f, d, name, k, g);
    }
  }

  lemma DotDotAfter(f: Fs, d: Ptr, name: seq<byte>, k: Ptr, g: Fs)
    requires FsOk(f) && WalkEnds(f, d) && NameFits(name) && k in f.dirs && |f.dirs[k].list| >= 2 && SlotOk(f, k, 0) && SlotOk(f, k, 1) && At(f, k, 1) == d && f.dirs[k].list[0] == k
    requires SameMemory(Through(f, d, name), g) && k in g.dirs && |g.dirs[k].list| >= 2 && g.dirs[k].list[0] == k
    requires k in g.entries && g.entries[k].next == g.dirs[k].list[1]
    ensures At(g, k, 1) in g.inodes
    ensures g.inodes[At(g, k, 1)].count == 1 || !g.inodes[At(g, k, 1)].isDir
  {
    BoundedOf(f);
    assert d in f.inodes.Keys && k in f.entries.Keys && f.dirs[k].list[1] in f.entries.Keys;
    hide FsOk;
    assert At(g, k, 1) == if f.inodes[d].first == k then f.brk else d;
  }

  /** Adding a file through an inode keeps the shape if and only if it is the directory's own: not its `.`, nor anybody's `..`. */
  lemma KeepsShapeIffOwn(f: Fs, d: Ptr, name: seq<byte>)
    requires FsOk(f) && AllPlaced(f) && Lists(f, d) && NameFits(name) && Lookup(f, f.inodes[d].first, name) == 0
    ensures KeepsShape(f, d, name) <==> Canonical(f, d)
  {
    hide FsOk, Lookup, Through, NameFits, WalkEnds;
    if Canonical(f, d) {
      OwnKeepsShape(f, d, name);
    } else if KeepsShape(f, d, name) {
      var g :| SameMemory(Through(f, d, name), g) && DirsStay(f, g) && FsOk(g);
      assert Placed(f, d);
      if f.home[d].i == 0 {
        DotBreaks(f, d, name, f.home[d].owner, g);
      } else {
        DotDotBreaks(f, d, name, f.home[d].owner, g);
      }
    }
  }

  // ----- every directory inode is placed --------------------------------------------

  lemma PlacedKept(f: Fs, g: Fs, h: Ptr, e: Ptr, d: Ptr)
    requires FsOk(f) && Grew(f, g, h, e) && e > 0 && d in f.inodes && Placed(f, d)
    ensures d in g.inodes && Placed(g, d)
  {
    hide FsOk;
    assert InodeKept(f, g, h, d);
    if f.inodes[d].isDir {
      assert ListKept(f, g, h, e, f.inodes[d].first);
      if IsDot(f, d) {
        var k, i := f.home[d].owner, f.home[d].i;
        Tail(f, k);
        assert HomeKept(f, g, d) && ListKept(f, g, h, e, k);
        SlotKept(f, g, h, e, k, i);
      }
    }
  }

  lemma FilePlaces(f: Fs, h: Ptr, name: seq<byte>, kind: byte, ops: nat, g: Fs)
    requires CanAppend(f, h, name) && g == WithFile(f, h, name, kind, ops) && AllPlaced(f)
    ensures AllPlaced(g)
  {
    hide FsOk, Placed, Lookup, Grew, SlotOk, NewInode;
    WithFileOk(f, h, name, kind, ops, g);
    forall d {:trigger Placed(g, d)} | d in g.inodes
      ensures Placed(g, d)
    {
      if d in f.inodes {
        assert Placed(f, d);
        PlacedKept(f, g, h, f.brk + 1, d);
      } else {
        FileIsPlaced(g, d);
      }
    }
  }

  lemma FileIsPlaced(g: Fs, d: Ptr)
    requires d in g.inodes && !g.inodes[d].isDir
    ensures Placed(g, d)
  {
  }

  lemma DirPlaces(f: Fs, h: Ptr, name: seq<byte>, g: Fs)
    requires CanAppend(f, h, name) && g == WithDir(f, h, name) && AllPlaced(f)
    ensures AllPlaced(g)
  {
    WithDirOk(f, h, name, g);
    NewDirPlaced(f, h, name, g);
    hide FsOk, Placed, Lookup, Grew, SlotOk, NewInode, NameFits, HasTail;
    forall d {:trigger Placed(g, d)} | d in g.inodes
      ensures Placed(g, d)
    {
      if d in f.inodes {
        assert Placed(f, d);
        PlacedKept(f, g, h, f.brk + 1, d);
      }
    }
  }

  lemma NewDirPlaced(f: Fs, h: Ptr, name: seq<byte>, g: Fs)
    requires FsOk(f) && HasTail(f, h) && NameFits(name) && g == WithDir(f, h, name)
    ensures forall d {:trigger Placed(g, d)} :: d in g.inodes && d !in f.inodes ==> Placed(g, d)
  {
    BoundedOf(f);
    hide FsOk, NewInode, Bounded;
    NewDirInodes(f, h, name, g);
    NewDirLinks(f, h, name, g);
    hide WithDir, HasTail, NameFits;
    assert IsDot(g, f.brk + 3) && IsDot(g, f.brk + 4);
    assert Placed(g, f.brk) && Placed(g, f.brk + 3) && Placed(g, f.brk + 4);
  }

  lemma NewDirInodes(f: Fs, h: Ptr, name: seq<byte>, g: Fs)
    requires Bounded(f) && HasTail(f, h) && NameFits(name) && g == WithDir(f, h, name)
    ensures g.inodes.Keys == f.inodes.Keys + {f.brk, f.brk + 3, f.brk + 4}
    ensures g.inodes[f.brk].first == f.brk + 2 && g.inodes[f.brk + 3].first == f.brk + 2 && g.inodes[f.brk + 4].first == h
  {
    assert f.dirs[h].inode in f.inodes.Keys;
    hide NewInode;
  }

  lemma NewDirLinks(f: Fs, h: Ptr, name: seq<byte>, g: Fs)
    requires Bounded(f) && HasTail(f, h) && NameFits(name) && g == WithDir(f, h, name)
    ensures h in g.dirs && f.brk + 2 in g.dirs && g.dirs[f.brk + 2].inode == f.brk
    ensures At(g, f.brk + 2, 0) == f.brk + 3 && At(g, f.brk + 2, 1) == f.brk + 4
    ensures f.brk + 3 in g.home && g.home[f.brk + 3] == Place(f.brk + 2, 0) && f.brk + 4 in g.home && g.home[f.brk + 4] == Place(f.brk + 2, 1)
  {
    assert f.brk + 2 !in f.entries.Keys && f.dirs[h].list[|f.dirs[h].list| - 1] in f.entries.Keys;
    hide NewInode, Bounded;
    assert g.dirs[f.brk + 2].list == [f.brk + 2, f.brk + 5];
    assert g.entries[f.brk + 2].inode == f.brk + 3 && g.entries[f.brk + 5].inode == f.brk + 4;
  }

  lemma RootPlaces(f: Fs, g: Fs)
    requires FsOk(f) && g == WithRoot(f) && AllPlaced(f)
    ensures AllPlaced(g)
  {
    WithRootOk(f, g);
    NewRootPlaced(f, g);
    hide FsOk, Placed, Grew, SlotOk, NewInode, IsRoot;
    forall d {:trigger Placed(g, d)} | d in g.inodes
      ensures Placed(g, d)
    {
      if d in f.inodes {
        assert Placed(f, d);
        PlacedKept(f, g, f.brk + 1, f.brk + 1, d);
      }
    }
  }

  lemma NewRootPlaced(f: Fs, g: Fs)
    requires FsOk(f) && g == WithRoot(f)
    ensures forall d {:trigger Placed(g, d)} :: d in g.inodes && d !in f.inodes ==> Placed(g, d)
  {
    BoundedOf(f);
    hide FsOk, NewInode;
    var h: Ptr := f.brk + 1;
    assert g.dirs[h] == Dir(f.brk, h, [h, f.brk + 4]) && g.entries[h].inode == f.brk + 2 && g.entries[f.brk + 4].inode == f.brk + 3;
    assert At(g, h, 0) == f.brk + 2 && At(g, h, 1) == f.brk + 3;
    assert Placed(g, f.brk) && Placed(g, f.brk + 2) && Placed(g, f.brk + 3);
  }

  lemma WritePlaces(f: Fs, g: Fs, c: Ptr, data: seq<byte>)
    requires Wrote(f, g, c, data) && AllPlaced(f)
    ensures AllPlaced(g)
  {
    hide NodesKept, Contents;
    forall d {:trigger Placed(g, d)} | d in g.inodes
      ensures Placed(g, d)
    {
      assert Placed(f, d);
    }
  }

  // ----- what is still found --------------------------------------------------------

  ghost predicate LinkedAt(f: Fs, l: seq<Ptr>, i: nat) {
    i < |l| && 0 < l[i] < f.brk && l[i] in f.entries && f.entries[l[i]].next == NextIn(l, i)
  }

  /** The links in memory make the list `l`. */
  ghost predicate Chained(f: Fs, l: seq<Ptr>) {
    && |l| > 0 && 0 !in f.entries
    && (forall i {:trigger LinkedAt(f, l, i)} :: 0 <= i < |l| ==> LinkedAt(f, l, i))
    && (forall i, j :: 0 <= i < j < |l| ==> l[i] != l[j])
  }

  lemma ListChained(f: Fs, h: Ptr)
    requires FsOk(f) && h in f.dirs
    ensures Chained(f, f.dirs[h].list) && f.dirs[h].list[0] == h
  {
    var l := f.dirs[h].list;
    NoNullEntry(f);
    Shape(f, h);
    hide FsOk, DirOk, NamesDiffer;
    forall i | 0 <= i < |l|
      ensures LinkedAt(f, l, i)
    {
      SlotParts(f, h, i);
      ListLinked(f, h, i);
    }
    forall i, j | 0 <= i < j < |l|
      ensures l[i] != l[j]
    {
      if l[i] == l[j] {
        SlotsApart(f, h, i, h, j);
      }
    }
  }

  lemma {:induction false} ChainWalk(f: Fs, l: seq<Ptr>, n: nat)
    requires Chained(f, l)
    ensures Walk(f, l[0], n) == if n < |l| then l[n] else 0
  {
    if n > 0 {
      ChainWalk(f, l, n - 1);
      assert n - 1 < |l| ==> LinkedAt(f, l, n - 1);
    }
  }

  /** Entry `p` is found by following the links from `h`. */
  ghost predicate Reached(f: Fs, h: Ptr, p: Ptr) {
    exists n: nat :: Walk(f, h, n) == p
  }

  lemma ReachedInChain(f: Fs, l: seq<Ptr>, p: Ptr)
    requires Chained(f, l) && p != 0
    ensures Reached(f, l[0], p) <==> p in l
  {
    if n: nat :| Walk(f, l[0], n) == p {
      ChainWalk(f, l, n);
    }
    if p in l {
      var i :| 0 <= i < |l| && l[i] == p;
      ChainWalk(f, l, i);
    }
  }

  /** Adding through any inode that lists the directory. */
  lemma ChainThrough(f: Fs, l: seq<Ptr>, d: Ptr, name: seq<byte>)
    requires Chained(f, l) && WalkEnds(f, d) && f.inodes[d].first == l[0] && NameFits(name)
    ensures f.inodes[d].count < |l|
    ensures Chained(Through(f, d, name), l[..f.inodes[d].count + 1] + [f.brk + 1])
  {
    var n := f.inodes[d].count;
    ChainWalk(f, l, n);
    assert LinkedAt(f, l, n);
    var x, m := Through(f, d, name), l[..n + 1] + [f.brk + 1];
    hide NewInode;
    forall i | 0 <= i < |m|
      ensures LinkedAt(x, m, i)
    {
      assert i <= n ==> LinkedAt(f, l, i);
    }
    forall i, j | 0 <= i < j < |m|
      ensures m[i] != m[j]
    {
      assert LinkedAt(f, l, i);
    }
  }

  /** Entry `p` holds the same inode under the same name. */
  ghost predicate SameName(f: Fs, g: Fs, p: Ptr) {
    && p in f.entries && p in g.entries && g.entries[p].inode == f.entries[p].inode
    && var c := f.entries[p].inode; c in f.inodes ==> c in g.inodes && g.inodes[c].name == f.inodes[c].name
  }

  /** Every entry found in `f` is found in `g`, under its name. */
  ghost predicate LosesNone(f: Fs, g: Fs, h: Ptr) {
    forall p {:trigger Reached(g, h, p)} :: p != 0 && Reached(f, h, p) ==> Reached(g, h, p) && SameName(f, g, p)
  }

  lemma ThroughNames(f: Fs, d: Ptr, name: seq<byte>)
    requires Bounded(f) && WalkEnds(f, d) && NameFits(name)
    ensures Bounded(Through(f, d, name))
    ensures forall p :: p in f.entries ==> SameName(f, Through(f, d, name), p)
  {
    var x := Through(f, d, name);
    assert f.brk !in f.inodes.Keys && f.brk + 1 !in f.entries.Keys && d in f.inodes.Keys;
    assert x.inodes.Keys == f.inodes.Keys + {f.brk} && x.entries.Keys == f.entries.Keys + {f.brk + 1};
  }

  /** Adding through `d`, and then through the directory's own inode `own`, loses no entry. */
  ghost predicate AddsLoseNone(f: Fs, d: Ptr, own: Ptr, name: seq<byte>, next: seq<byte>)
    requires NameFits(name) && NameFits(next)
  {
    && WalkEnds(f, d) && LosesNone(f, Through(f, d, name), f.inodes[d].first)
    && WalkEnds(Through(f, d, name), own) && LosesNone(Through(f, d, name), Through(Through(f, d, name), own, next), f.inodes[d].first)
  }

  /** Nothing is lost by an add, and by the next one, if and only if the first goes through the directory's own inode. */
  lemma LosesNoneIffOwn(f: Fs, d: Ptr, name: seq<byte>, next: seq<byte>)
    requires FsOk(f) && Lists(f, d) && NameFits(name) && NameFits(next)
    ensures AddsLoseNone(f, d, f.dirs[f.inodes[d].first].inode, name, next) <==> Canonical(f, d)
  {
    var h := f.inodes[d].first;
    var l := f.dirs[h].list;
    ListChained(f, h);
    Tail(f, h);
    BoundedOf(f);
    assert d in f.inodes.Keys && f.dirs[h].inode in f.inodes.Keys;
    hide FsOk, Chained, NameFits, Through, LosesNone, HasTail;
    if WalkEnds(f, d) {
      FirstAdd(f, l, d, name);
      OwnAfter(f, d, name);
      if f.inodes[d].count + 1 == |l| {
        SecondAdd(f, l, d, name, next);
      }
    } else if d == f.dirs[h].inode {
      hide WalkEnds;
      OwnWalkEnds(f, d);
    }
  }

  /** The first add loses none if and only if the count reaches the last entry. */
  lemma FirstAdd(f: Fs, l: seq<Ptr>, d: Ptr, name: seq<byte>)
    requires Bounded(f) && Chained(f, l) && WalkEnds(f, d) && f.inodes[d].first == l[0] && NameFits(name)
    ensures f.inodes[d].count < |l|
    ensures LosesNone(f, Through(f, d, name), l[0]) <==> f.inodes[d].count + 1 == |l|
  {
    ChainThrough(f, l, d, name);
    ThroughNames(f, d, name);
    var n, x := f.inodes[d].count, Through(f, d, name);
    var m := l[..n + 1] + [f.brk + 1];
    assert LinkedAt(f, l, |l| - 1);
    hide Through, Reached, NameFits, WalkEnds, SameName, Bounded;
    forall p | p != 0
      ensures Reached(f, l[0], p) <==> p in l
      ensures Reached(x, l[0], p) <==> p in m
    {
      ReachedInChain(f, l, p);
      assert m[0] == l[0];
      ReachedInChain(x, m, p);
    }
    if n + 1 == |l| {
      assert forall i :: 0 <= i < |l| ==> m[i] == l[i];
      forall p | p in l
        ensures p in f.entries
      {
        var i :| 0 <= i < |l| && l[i] == p;
        assert LinkedAt(f, l, i);
      }
    } else {
      var p := l[|l| - 1];
      assert p in l && p !in m;
      assert Reached(f, l[0], p) && !Reached(x, l[0], p);
    }
  }

  lemma OwnAfter(f: Fs, d: Ptr, name: seq<byte>)
    requires FsOk(f) && WalkEnds(f, d) && NameFits(name) && f.dirs[f.inodes[d].first].inode in f.inodes
    ensures var x, own := Through(f, d, name), f.dirs[f.inodes[d].first].inode;
      own in x.inodes && x.inodes[own].first == f.inodes[own].first && x.inodes[own].isDir == f.inodes[own].isDir && x.dirs == f.dirs
      && x.inodes[own].count == f.inodes[own].count + if own == d then 1 else 0
    ensures Through(f, d, name).brk == f.brk + 2
  {
    BoundedOf(f);
    assert f.dirs[f.inodes[d].first].inode in f.inodes.Keys && d in f.inodes.Keys;
  }

  /** When the first add went to the end, the second does too if and only if the first was counted by the directory's own inode. */
  lemma SecondAdd(f: Fs, l: seq<Ptr>, d: Ptr, name: seq<byte>, next: seq<byte>)
    requires FsOk(f) && Chained(f, l) && WalkEnds(f, d) && f.inodes[d].first == l[0] && NameFits(name) && NameFits(next)
    requires f.inodes[d].count + 1 == |l| && Canonical(f, f.dirs[l[0]].inode) && f.inodes[f.dirs[l[0]].inode].first == l[0]
    requires f.inodes[f.dirs[l[0]].inode].count + 1 == |l|
    ensures var x, own := Through(f, d, name), f.dirs[l[0]].inode;
      WalkEnds(x, own) && (LosesNone(x, Through(x, own, next), l[0]) <==> d == own)
  {
    var x, own := Through(f, d, name), f.dirs[l[0]].inode;
    ChainThrough(f, l, d, name);
    OwnAfter(f, d, name);
    BoundedOf(f);
    ThroughNames(f, d, name);
    hide Through, NameFits, FsOk, Bounded, SameName;
    var m := l[..f.inodes[d].count + 1] + [f.brk + 1];
    assert m[0] == l[0];
    ChainWalk(x, m, x.inodes[own].count);
    assert LinkedAt(x, m, x.inodes[own].count);
    FirstAdd(x, m, own, next);
  }
}
