/**
The tree of paths that the directories form: what the shared entries `.` and `..` mean,
and what each operation does to every path (src/fs/tempfs.c:27-113).
*/
module TempFsTree {
  import opened Bytes
  import opened CStrings
  import opened TempFsModel
  import opened TempFsSteps
  import opened TempFsContents

  type Path = seq<seq<byte>>

  predicate Plain(n: seq<byte>) {
    n != [DOT] && n != [DOT, DOT]
  }

  predicate PlainPath(p: Path) {
    forall i :: 0 <= i < |p| ==> Plain(p[i])
  }

  /** A directory inode, its own or a `.` or `..` that shares its entries. */
  predicate Lists(f: Fs, d: Ptr) {
    d in f.inodes && f.inodes[d].isDir && f.inodes[d].first in f.dirs
  }

  /** The inode that a directory's entries count. */
  predicate Canonical(f: Fs, d: Ptr) {
    Lists(f, d) && f.dirs[f.inodes[d].first].inode == d
  }

  lemma NoNull(f: Fs)
    requires FsOk(f)
    ensures 0 !in f.inodes
  {
    BoundedOf(f);
    assert 0 !in f.inodes.Keys;
  }

  // ----- `.` and `..` ---------------------------------------------------------------

  /** `.` shares its directory's entries, and `..` those of the parent. */
  lemma DotEntries(f: Fs, h: Ptr)
    requires FsOk(f) && h in f.dirs
    ensures var dot := Lookup(f, h, [DOT]); Lists(f, dot) && f.inodes[dot].first == h
    ensures var up := Lookup(f, h, [DOT, DOT]); Lists(f, up) && f.inodes[up].first == f.dirs[h].parent
  {
    hide FsOk;
    Shape(f, h);
    SlotParts(f, h, 0);
    SlotParts(f, h, 1);
    hide DirOk, NamesDiffer;
    SlotIs(f, h, 0);
    SlotIs(f, h, 1);
  }

  /** What is found from a directory depends on its entries only. */
  lemma {:induction false} SharedList(f: Fs, d: Ptr, e: Ptr, q: Path)
    requires Lists(f, d) && Lists(f, e) && f.inodes[d].first == f.inodes[e].first && q != []
    ensures Resolve(f, d, q) == Resolve(f, e, q)
  {
    if |q| > 1 {
      SharedList(f, d, e, q[..|q| - 1]);
    }
  }

  lemma {:induction false} ResolveAppend(f: Fs, d: Ptr, p: Path, q: Path)
    ensures Resolve(f, d, p + q) == Resolve(f, Resolve(f, d, p), q)
  {
    if q == [] {
      assert p + q == p;
    } else {
      ResolveAppend(f, d, p, q[..|q| - 1]);
      assert (p + q)[..|p + q| - 1] == p + q[..|q| - 1];
    }
  }

  /** A path through `.` leads where the path without it leads. */
  lemma DotIsHere(f: Fs, d: Ptr, p: Path, q: Path)
    requires FsOk(f) && Lists(f, Resolve(f, d, p)) && q != []
    ensures Resolve(f, d, p + [[46]] + q) == Resolve(f, d, p + q)
  {
    var x := Resolve(f, d, p);
    hide FsOk;
    DotEntries(f, f.inodes[x].first);
    ResolveAppend(f, d, p, q);
    ResolveAppend(f, d, p, [[DOT]]);
    ResolveAppend(f, d, p + [[DOT]], q);
    OneStep(f, x, [DOT]);
    SharedList(f, Resolve(f, d, p + [[DOT]]), x, q);
  }

  lemma OneStep(f: Fs, d: Ptr, n: seq<byte>)
    ensures Resolve(f, d, [n]) == Child(f, d, n)
  {
    assert [n][..0] == [];
  }

  /** Into a subdirectory and back out by `..` leads where the path without the two leads. */
  lemma DotDotUndoes(f: Fs, d: Ptr, p: Path, n: seq<byte>, q: Path)
    requires FsOk(f) && Lists(f, Resolve(f, d, p)) && Lists(f, Resolve(f, d, p + [n])) && Plain(n) && q != []
    ensures Resolve(f, d, p + [n] + [[46, 46]] + q) == Resolve(f, d, p + q)
  {
    var x := Resolve(f, d, p);
    var c := Resolve(f, d, p + [n]);
    hide FsOk;
    NoNull(f);
    ResolveAppend(f, d, p, [n]);
    OneStep(f, x, n);
    PlainChild(f, f.inodes[x].first, n);
    DotEntries(f, f.inodes[c].first);
    ResolveAppend(f, d, p + [n], [[DOT, DOT]]);
    OneStep(f, c, [DOT, DOT]);
    ResolveAppend(f, d, p + [n] + [[DOT, DOT]], q);
    ResolveAppend(f, d, p, q);
    SharedList(f, Resolve(f, d, p + [n] + [[DOT, DOT]]), x, q);
  }

  /** The root is its own parent. */
  lemma DotDotAtRoot(f: Fs, root: Ptr, q: Path)
    requires FsOk(f) && IsRoot(f, root) && q != []
    ensures Resolve(f, root, [[46, 46]] + q) == Resolve(f, root, q)
  {
    hide FsOk;
    DotEntries(f, f.inodes[root].first);
    ResolveAppend(f, root, [[DOT, DOT]], q);
    OneStep(f, root, [DOT, DOT]);
    SharedList(f, Resolve(f, root, [[DOT, DOT]]), root, q);
  }

  // ----- plain paths are a tree -----------------------------------------------------

  /** What a directory has under a plain name: a file, or a subdirectory that has it as parent; in one place only. */
  lemma PlainChild(f: Fs, h: Ptr, n: seq<byte>)
    requires FsOk(f) && h in f.dirs && Plain(n)
    ensures var c := Lookup(f, h, n);
      c != 0 ==> c in f.inodes && c in f.home && f.home[c].owner == h && NameOf(f, c) == n
                 && (if f.inodes[c].isDir then Canonical(f, c) && f.dirs[f.inodes[c].first].parent == h else c in f.chains)
  {
    hide FsOk;
    Found(f, h, n);
  }

  /** Where a plain path leads: to the inode of a file or to a directory's own inode, whose place tells the path's last step. */
  lemma {:induction false} PlainPathLeads(f: Fs, root: Ptr, p: Path)
    requires FsOk(f) && IsRoot(f, root) && PlainPath(p) && Resolve(f, root, p) != 0
    ensures var c := Resolve(f, root, p);
      && c in f.inodes && (if f.inodes[c].isDir then Canonical(f, c) else c in f.chains)
      && if p == [] then c == root else
         var d := Resolve(f, root, p[..|p| - 1]);
         Canonical(f, d) && c in f.home && f.home[c].owner == f.inodes[d].first && NameOf(f, c) == p[|p| - 1]
  {
    hide FsOk;
    NoNull(f);
    if p != [] {
      var q := p[..|p| - 1];
      PlainPathLeads(f, root, q);
      PlainChild(f, f.inodes[Resolve(f, root, q)].first, p[|p| - 1]);
    }
  }

  /** No two plain paths lead to the same inode. */
  lemma {:induction false} PathsUnique(f: Fs, root: Ptr, p: Path, other: Ptr, q: Path)
    requires FsOk(f) && IsRoot(f, root) && IsRoot(f, other) && PlainPath(p) && PlainPath(q)
    requires Resolve(f, root, p) == Resolve(f, other, q) != 0
    ensures root == other && p == q
  {
    hide FsOk;
    NoNull(f);
    PlainPathLeads(f, root, p);
    PlainPathLeads(f, other, q);
    if p != [] && q != [] {
      PathsUnique(f, root, p[..|p| - 1], other, q[..|q| - 1]);
      assert p == p[..|p| - 1] + [p[|p| - 1]];
      assert q == q[..|q| - 1] + [q[|q| - 1]];
    }
  }

  // ----- what an operation does to every path ---------------------------------------

  /** `g` has the inode `c` under `name` in the directory at `h`, which had no such name, and all else as `f`; when there is no directory at `h`, only all else. */
  ghost predicate Grows(f: Fs, g: Fs, h: Ptr, name: seq<byte>, c: Ptr) {
    && FsOk(f) && FsOk(g) && Grew(f, g, h, f.brk + 1)
    && (h in f.dirs ==> Added(f, g, h, name, c) && c > 0 && Lookup(f, h, name) == 0)
  }

  /** The same names in the same places. */
  ghost predicate SameSlot(f: Fs, g: Fs, k: Ptr, i: nat) {
    At(g, k, i) == At(f, k, i) && NameOf(g, At(g, k, i)) == NameOf(f, At(f, k, i))
  }

  lemma GrowsParts(f: Fs, g: Fs, h: Ptr, name: seq<byte>, c: Ptr, k: Ptr)
    requires Grows(f, g, h, name, c) && k in f.dirs
    ensures k in g.dirs && DirOk(g, k) && |g.dirs[k].list| == |f.dirs[k].list| + if k == h then 1 else 0
    ensures forall i {:trigger SameSlot(f, g, k, i)} :: 0 <= i < |f.dirs[k].list| ==> SameSlot(f, g, k, i)
    ensures k == h ==> At(g, k, |f.dirs[k].list|) == c && NameOf(g, c) == name && Lookup(f, k, name) == 0 && c > 0
  {
    hide FsOk, DirOk, SlotOk, Lookup;
    assert ListKept(f, g, h, f.brk + 1, k);
    BoundedOf(f);
    Shape(g, k);
    forall i | 0 <= i < |f.dirs[k].list|
      ensures SameSlot(f, g, k, i)
    {
      SlotKept(f, g, h, f.brk + 1, k, i);
    }
  }

  /** Exactly one lookup changes. */
  lemma LookupAfter(f: Fs, g: Fs, h: Ptr, name: seq<byte>, c: Ptr, k: Ptr, n: seq<byte>)
    requires Grows(f, g, h, name, c) && k in f.dirs
    ensures k in g.dirs && Lookup(g, k, n) == if k == h && n == name then c else Lookup(f, k, n)
  {
    GrowsParts(f, g, h, name, c, k);
    hide Grows, DirOk;
    var l := |f.dirs[k].list|;
    var i, j := Slot(f, k, n), Slot(g, k, n);
    assert j < l ==> SameSlot(f, g, k, j);
    if k == h && n == name {
      SlotIs(g, k, l);
    } else if i < l {
      assert SameSlot(f, g, k, i);
      SlotIs(g, k, i);
    } else {
      NoSlot(f, k, i);
      NoSlot(g, k, j);
    }
  }

  lemma NoSlot(f: Fs, k: Ptr, i: nat)
    requires k in f.dirs && i >= |f.dirs[k].list|
    ensures At(f, k, i) == 0
  {
  }

  lemma LookupSame(f: Fs, g: Fs, k: Ptr, n: seq<byte>)
    requires k in f.dirs && k in g.dirs && DirOk(g, k) && |g.dirs[k].list| == |f.dirs[k].list|
    requires forall i {:trigger SameSlot(f, g, k, i)} :: 0 <= i < |f.dirs[k].list| ==> SameSlot(f, g, k, i)
    ensures Lookup(g, k, n) == Lookup(f, k, n)
  {
    hide DirOk;
    var i, j := Slot(f, k, n), Slot(g, k, n);
    assert j < |f.dirs[k].list| ==> SameSlot(f, g, k, j);
    if i < |f.dirs[k].list| {
      assert SameSlot(f, g, k, i);
      SlotIs(g, k, i);
    }
  }

  /** Every path that leads somewhere, through `.` and `..` too, still leads there after a creation. */
  lemma {:induction false} ResolveKept(f: Fs, g: Fs, h: Ptr, name: seq<byte>, c: Ptr, d: Ptr, p: Path)
    requires Grows(f, g, h, name, c) && Resolve(f, d, p) != 0
    ensures Resolve(g, d, p) == Resolve(f, d, p)
  {
    hide FsOk, Lookup, Added;
    NoNull(f);
    if p != [] {
      var x := Resolve(f, d, p[..|p| - 1]);
      ResolveKept(f, g, h, name, c, d, p[..|p| - 1]);
      var k := f.inodes[x].first;
      assert InodeKept(f, g, h, x);
      LookupAfter(f, g, h, name, c, k, p[|p| - 1]);
    }
  }

  /** A new file, or a new directory with nothing but `.` and `..`. */
  ghost predicate Bare(f: Fs, g: Fs, c: Ptr) {
    c in g.inodes && (g.inodes[c].isDir ==> g.inodes[c].first in g.dirs && |g.dirs[g.inodes[c].first].list| == 2)
  }

  lemma BareHasNothing(f: Fs, g: Fs, c: Ptr, n: seq<byte>)
    requires FsOk(g) && Bare(f, g, c) && Plain(n)
    ensures Child(g, c, n) == 0
  {
    if g.inodes[c].isDir {
      hide FsOk;
      var h := g.inodes[c].first;
      Found(g, h, n);
    }
  }

  /**
  Creating `name` in the directory that a plain path leads to makes exactly one new plain
  path, in any file system of the store, and every other plain path leads where it did.
  */
  lemma {:induction false} ResolveAfter(f: Fs, g: Fs, h: Ptr, name: seq<byte>, c: Ptr, root: Ptr, p: Path, other: Ptr, q: Path)
    requires Grows(f, g, h, name, c) && Bare(f, g, c) && IsRoot(f, root) && IsRoot(f, other)
    requires PlainPath(p) && PlainPath(q) && Plain(name)
    requires h in f.dirs && Resolve(f, root, p) == f.dirs[h].inode && Lists(f, Resolve(f, root, p)) && f.inodes[Resolve(f, root, p)].first == h
    ensures Resolve(g, other, q) == if other == root && q == p + [name] then c else Resolve(f, other, q)
  {
    hide FsOk, Grew, Added, Lookup, Bare, IsRoot, Grows, Child;
    if q != [] {
      var init, n := q[..|q| - 1], q[|q| - 1];
      ResolveAfter(f, g, h, name, c, root, p, other, init);
      assert q == init + [n];
      LastStep(f, g, h, name, c, root, p, other, init, n);
    }
  }

  lemma LastStep(f: Fs, g: Fs, h: Ptr, name: seq<byte>, c: Ptr, root: Ptr, p: Path, other: Ptr, init: Path, n: seq<byte>)
    requires Grows(f, g, h, name, c) && Bare(f, g, c) && IsRoot(f, root) && IsRoot(f, other)
    requires PlainPath(p) && PlainPath(init) && Plain(name) && Plain(n)
    requires h in f.dirs && Resolve(f, root, p) == f.dirs[h].inode && Lists(f, Resolve(f, root, p)) && f.inodes[Resolve(f, root, p)].first == h
    requires Resolve(g, other, init) == if other == root && init == p + [name] then c else Resolve(f, other, init)
    ensures Child(g, Resolve(g, other, init), n) == if other == root && init + [n] == p + [name] then c else Child(f, Resolve(f, other, init), n)
  {
    assert init + [n] == p + [name] ==> init == p && n == name by {
      if init + [n] == p + [name] {
        assert (init + [n])[..|init|] == (p + [name])[..|init|];
        assert (init + [n])[|init|] == (p + [name])[|init|];
      }
    }
    hide FsOk, Grew, Added, Lookup, Bare, IsRoot, Resolve;
    NoNull(f);
    NoNull(g);
    var d := Resolve(f, other, init);
    if other == root && init == p + [name] {
      BareHasNothing(f, g, c, n);
      NotThereYet(f, h, name, root, p);
    } else if d != 0 {
      PlainPathLeads(f, other, init);
      Step(f, g, h, name, c, d, n);
      if f.inodes[d].isDir && f.inodes[d].first == h {
        PathsUnique(f, other, init, root, p);
      }
    }
  }

  lemma NotThereYet(f: Fs, h: Ptr, name: seq<byte>, root: Ptr, p: Path)
    requires h in f.dirs && Lists(f, Resolve(f, root, p)) && f.inodes[Resolve(f, root, p)].first == h && Lookup(f, h, name) == 0
    ensures Resolve(f, root, p + [name]) == 0
  {
    assert (p + [name])[..|p|] == p;
  }

  /** One step of a path from a directory's own inode. */
  lemma Step(f: Fs, g: Fs, h: Ptr, name: seq<byte>, c: Ptr, d: Ptr, n: seq<byte>)
    requires Grows(f, g, h, name, c) && d in f.inodes && (f.inodes[d].isDir ==> Canonical(f, d))
    ensures Child(g, d, n) == if f.inodes[d].isDir && f.inodes[d].first == h && n == name then c else Child(f, d, n)
  {
    hide FsOk, Lookup, Added;
    assert InodeKept(f, g, h, d);
    if f.inodes[d].isDir {
      LookupAfter(f, g, h, name, c, f.inodes[d].first, n);
    }
  }

  /** Writing to a file changes no path. */
  lemma {:induction false} ResolveWritten(f: Fs, g: Fs, c: Ptr, data: seq<byte>, d: Ptr, p: Path)
    requires FsOk(f) && FsOk(g) && Wrote(f, g, c, data)
    ensures Resolve(g, d, p) == Resolve(f, d, p)
  {
    hide FsOk, Lookup;
    if p != [] {
      var x := Resolve(f, d, p[..|p| - 1]);
      ResolveWritten(f, g, c, data, d, p[..|p| - 1]);
      if x in f.inodes && f.inodes[x].isDir && f.inodes[x].first in f.dirs {
        var k := f.inodes[x].first;
        forall i | 0 <= i < |f.dirs[k].list|
          ensures SameSlot(f, g, k, i)
        {
          SlotParts(f, k, i);
          SlotSame(f, g, c, |data|, g.chains[c], k, i);
        }
        Shape(g, k);
        LookupSame(f, g, k, p[|p| - 1]);
      }
    }
  }

  // ----- what stays true of roots and files -----------------------------------------

  lemma RootStays(f: Fs, g: Fs, h: Ptr, name: seq<byte>, c: Ptr, root: Ptr)
    requires Grows(f, g, h, name, c) && IsRoot(f, root)
    requires forall p :: p in g.home && p !in f.home ==> p >= f.brk
    ensures IsRoot(g, root)
  {
    BoundedOf(f);
    assert root in f.inodes.Keys;
    hide FsOk, Added, Lookup;
    assert InodeKept(f, g, h, root) && ListKept(f, g, h, f.brk + 1, f.inodes[root].first);
  }
}
