/**
The state of a walk along a path (src/fs/vfs.c:188-222, 55-83), and what each of its steps does.
*/
module VfsWalk {
  import opened Bytes
  import opened TempFsModel
  import opened TempFsSteps
  import opened TempFsTree
  import opened VfsPaths

  /** `k` names are walked, from the store `f`; the store is now `g`, and `cur` is where the walk is. Until a name was missing, nothing has changed. */
  ghost predicate WalkState(f: Fs, g: Fs, root: Ptr, names: Path, k: nat, cur: Ptr) {
    && FsOk(f) && k <= |names| && IsRoot(f, root) && cur != 0
    && Resolve(g, root, names[..k]) == cur && Lists(g, cur) && Preserved(f, g)
    && (Resolve(f, root, names[..k]) != 0 ==> g == f)
    && (Resolve(f, root, names[..k]) == 0 ==> Canonical(g, cur) && Bare(f, g, cur) && f.brk <= cur)
    && (PlainPath(names) ==> TreeGrown(f, g, root, names[..k]))
  }

  lemma WalkStart(f: Fs, root: Ptr, names: Path)
    requires FsOk(f) && IsRoot(f, root)
    ensures WalkState(f, f, root, names, 0, root)
  {
    NoNull(f);
    PreservedSelf(f);
    assert names[..0] == [];
    TreeSelf(f, root, []);
    hide FsOk, Preserved, TreeGrown;
  }

  lemma NextPath(names: Path, k: nat)
    requires k < |names|
    ensures names[..k + 1] == names[..k] + [names[k]] && names[..k + 1][..k] == names[..k]
  {
  }

  lemma NextResolves(f: Fs, d: Ptr, names: Path, k: nat)
    requires k < |names|
    ensures Resolve(f, d, names[..k + 1]) == Child(f, Resolve(f, d, names[..k]), names[k])
  {
    NextPath(names, k);
  }

  lemma NothingAtNull(f: Fs, n: seq<byte>)
    requires FsOk(f)
    ensures Child(f, 0, n) == 0
  {
    NoNull(f);
  }

  /** What is found in a directory is an inode; a directory among them lists entries. */
  lemma ChildThere(f: Fs, d: Ptr, n: seq<byte>)
    requires FsOk(f) && Lists(f, d)
    ensures Child(f, d, n) == Lookup(f, f.inodes[d].first, n)
    ensures Child(f, d, n) != 0 ==> Child(f, d, n) in f.inodes && (f.inodes[Child(f, d, n)].isDir ==> Lists(f, Child(f, d, n))) && (!f.inodes[Child(f, d, n)].isDir ==> Child(f, d, n) in f.chains)
  {
    hide FsOk;
    var h := f.inodes[d].first;
    Found(f, h, n);
    Shape(f, h);
  }

  /** A missing name under a plain name is missing from a directory's own inode. */
  lemma CanonicalHere(f: Fs, g: Fs, root: Ptr, names: Path, k: nat, cur: Ptr)
    requires WalkState(f, g, root, names, k, cur) && k < |names| && Creatable(f, root, names, k) && Child(g, cur, names[k]) == 0
    ensures Plain(names[k]) && NameFits(names[k]) && Canonical(g, cur) && Resolve(f, root, names[..k + 1]) == 0
  {
    hide FsOk, TreeGrown, RootsKept, FilesKept, Child, Resolve, IsRoot, NameFits;
    NextResolves(f, root, names, k);
    if Resolve(f, root, names[..k]) != 0 {
      if k == 0 {
        assert names[..0] == [];
        RootCanonical(f, root);
      } else {
        NextResolves(f, root, names, k - 1);
        ParentLists(f, Resolve(f, root, names[..k - 1]), names[k - 1]);
      }
    } else {
      NothingAtNull(f, names[k]);
    }
  }

  lemma RootCanonical(f: Fs, root: Ptr)
    requires IsRoot(f, root)
    ensures Resolve(f, root, []) == root && Canonical(f, root)
  {
  }

  /** A directory reached by a plain name is its own inode. */
  lemma ParentLists(f: Fs, d: Ptr, n: seq<byte>)
    requires FsOk(f) && Plain(n) && Child(f, d, n) != 0
    ensures Lists(f, Child(f, d, n)) ==> Canonical(f, Child(f, d, n))
  {
    hide FsOk;
    PlainChild(f, f.inodes[d].first, n);
  }

  /** A name that is there. */
  lemma WalkFound(f: Fs, g: Fs, root: Ptr, names: Path, k: nat, cur: Ptr)
    requires WalkState(f, g, root, names, k, cur) && k < |names| && Child(g, cur, names[k]) != 0
    requires Resolve(f, root, names[..k]) == 0 ==> Plain(names[k])
    ensures g == f && Resolve(f, root, names[..k + 1]) == Child(g, cur, names[k])
    ensures DirOrNone(f, Resolve(f, root, names[..k + 1])) ==> WalkState(f, g, root, names, k + 1, Child(g, cur, names[k]))
  {
    hide FsOk, TreeGrown, RootsKept, FilesKept, PathsKept, Child, Resolve, IsRoot, Bare;
    NextResolves(f, root, names, k);
    if Resolve(f, root, names[..k]) == 0 {
      BareHasNothing(f, g, cur, names[k]);
    }
    ChildThere(f, cur, names[k]);
    TreeSelf(f, root, names[..k + 1]);
  }

  /** After a name is made. */
  lemma WalkMade(f: Fs, g: Fs, x: Fs, root: Ptr, names: Path, k: nat, cur: Ptr)
    requires WalkState(f, g, root, names, k, cur) && k < |names| && Creatable(f, root, names, k) && Child(g, cur, names[k]) == 0
    requires Grows(g, x, g.inodes[cur].first, names[k], g.brk) && Bare(g, x, g.brk) && g.brk <= x.brk
    requires forall p :: p in x.home && p !in g.home ==> p >= g.brk
    ensures Lists(x, cur) && Child(x, cur, names[k]) == g.brk && f.brk <= g.brk
    ensures Preserved(f, x) && Resolve(x, root, names[..k + 1]) == g.brk > 0 && Resolve(f, root, names[..k + 1]) == 0
    ensures PlainPath(names) ==> TreeGrown(f, x, root, names[..k + 1])
  {
    hide FsOk, TreeGrown, RootsKept, FilesKept, PathsKept, Child, Resolve, IsRoot, Bare, Grows, NameFits;
    CanonicalHere(f, g, root, names, k, cur);
    var h := g.inodes[cur].first;
    GrowsPreserves(g, x, h, names[k], g.brk);
    PreservedTrans(f, g, x);
    MadeResolves(g, x, root, names, k, cur);
    NextPath(names, k);
    if PlainPath(names) {
      PlainPrefix(names, k);
      TreeStep(f, g, x, root, names[..k], h, names[k]);
    }
  }

  lemma PlainPrefix(names: Path, k: nat)
    requires PlainPath(names) && k < |names|
    ensures PlainPath(names[..k]) && PlainPath(names[..k] + [names[k]])
  {
  }

  lemma MadeResolves(g: Fs, x: Fs, root: Ptr, names: Path, k: nat, cur: Ptr)
    requires k < |names| && Lists(g, cur) && cur != 0 && Resolve(g, root, names[..k]) == cur
    requires Grows(g, x, g.inodes[cur].first, names[k], g.brk) && PathsKept(g, x)
    ensures Resolve(x, root, names[..k + 1]) == g.brk > 0 && Lists(x, cur) && Child(x, cur, names[k]) == g.brk
  {
    var h := g.inodes[cur].first;
    hide FsOk, Lookup, Added, Resolve;
    BoundedOf(g);
    NextResolves(x, root, names, k);
    assert Resolve(x, root, names[..k]) == cur;
    LookupAfter(g, x, h, names[k], g.brk, h, names[k]);
    assert InodeKept(g, x, h, cur);
  }

  /** After a directory is made, the walk is in it. */
  lemma WalkMadeDir(f: Fs, g: Fs, x: Fs, root: Ptr, names: Path, k: nat, cur: Ptr)
    requires WalkState(f, g, root, names, k, cur) && k < |names| && Creatable(f, root, names, k) && Child(g, cur, names[k]) == 0
    requires CanAppend(g, g.inodes[cur].first, names[k]) && x == WithDir(g, g.inodes[cur].first, names[k])
    ensures WalkState(f, x, root, names, k + 1, g.brk) && Lists(x, cur) && Child(x, cur, names[k]) == g.brk && x.inodes[g.brk].isDir
  {
    var h := g.inodes[cur].first;
    hide FsOk, TreeGrown, Child, Resolve, IsRoot, NameFits, WithDir, HasTail, Lookup, Grew, RootsKept, FilesKept, PathsKept;
    DirGrows(g, h, names[k], x);
    WalkMade(f, g, x, root, names, k, cur);
  }

  lemma DirGrows(g: Fs, h: Ptr, name: seq<byte>, x: Fs)
    requires CanAppend(g, h, name) && x == WithDir(g, h, name)
    ensures Grows(g, x, h, name, g.brk) && Bare(g, x, g.brk) && g.brk <= x.brk
    ensures Lists(x, g.brk) && Canonical(x, g.brk) && x.inodes[g.brk].isDir
    ensures forall p :: p in x.home && p !in g.home ==> p >= g.brk
  {
    WithDirOk(g, h, name, x);
    BoundedOf(g);
    DirHomes(g, h, name, x);
    hide FsOk, WithDir, Lookup, Grew, Added, NameFits;
    NewDirCanonical(g, h, name, x);
  }

  lemma DirHomes(g: Fs, h: Ptr, name: seq<byte>, x: Fs)
    requires HasTail(g, h) && NameFits(name) && x == WithDir(g, h, name)
    ensures forall p :: p in x.home && p !in g.home ==> p >= g.brk
  {
  }

  lemma NewDirCanonical(g: Fs, h: Ptr, name: seq<byte>, x: Fs)
    requires FsOk(g) && FsOk(x) && Added(g, x, h, name, g.brk) && NewDir(g, x, h, g.brk, g.brk + 2) && h in g.dirs
    ensures Canonical(x, g.brk)
  {
    Tail(g, h);
    hide FsOk;
    SlotParts(x, h, |g.dirs[h].list|);
  }

  lemma FileGrows(g: Fs, h: Ptr, name: seq<byte>, kind: byte, ops: nat, x: Fs)
    requires CanAppend(g, h, name) && x == WithFile(g, h, name, kind, ops)
    ensures Grows(g, x, h, name, g.brk) && Bare(g, x, g.brk) && g.brk <= x.brk && NewFile(x, g.brk, kind)
    ensures forall p :: p in x.home && p !in g.home ==> p >= g.brk
  {
    WithFileOk(g, h, name, kind, ops, x);
    BoundedOf(g);
    hide FsOk, Lookup, Grew, Added, NameFits;
  }
}
