/**
Paths as the VFS reads them (src/fs/vfs.c:157-231): a drive letter, names between
slashes, and what a walk along them may create.
*/
module VfsPaths {
  import opened Bytes
  import opened CStrings
  import opened TempFsModel
  import opened TempFsSteps
  import opened TempFsContents
  import opened TempFsTree

  // ----- names ----------------------------------------------------------------------

  /** The number of bytes before the first slash. */
  function FirstSlash(p: seq<byte>): (n: nat)
    ensures n <= |p| && (forall i :: 0 <= i < n ==> p[i] != SLASH) && (n < |p| ==> p[n] == SLASH)
  {
    if p == [] || p[0] == SLASH then 0 else 1 + FirstSlash(p[1..])
  }

  lemma FirstSlashIs(p: seq<byte>, n: nat)
    requires n <= |p| && (forall i :: 0 <= i < n ==> p[i] != SLASH) && (n < |p| ==> p[n] == SLASH)
    ensures FirstSlash(p) == n
  {
  }

  /** The names of a path; nothing after a final slash is no name. */
  function Names(p: seq<byte>): Path {
    if p == [] then []
    else if FirstSlash(p) == |p| then [p]
    else [p[..FirstSlash(p)]] + Names(p[FirstSlash(p) + 1..])
  }

  /** Whether the last name of a path is a file's: no slash follows it. */
  predicate EndsInFile(p: seq<byte>) {
    p != [] && p[|p| - 1] != SLASH
  }

  /** A path with these names. */
  function Join(names: Path): seq<byte> {
    if names == [] then []
    else if |names| == 1 then names[0]
    else names[0] + [SLASH] + Join(names[1..])
  }

  predicate NoSlash(n: seq<byte>) {
    forall i :: 0 <= i < |n| ==> n[i] != SLASH
  }

  /** Joined names are read back, when none has a slash and the last is not empty. */
  lemma {:induction false} NamesOfJoin(names: Path)
    requires forall i :: 0 <= i < |names| ==> NoSlash(names[i])
    requires names != [] ==> names[|names| - 1] != []
    ensures Names(Join(names)) == names && (names != [] ==> EndsInFile(Join(names)))
  {
    if |names| == 1 {
      FirstSlashIs(names[0], |names[0]|);
    } else if |names| > 1 {
      var p := Join(names);
      NamesOfJoin(names[1..]);
      FirstSlashIs(p, |names[0]|);
      assert p[|names[0]| + 1..] == Join(names[1..]);
      assert p[..|names[0]|] == names[0];
      assert p[|p| - 1] == Join(names[1..])[|Join(names[1..])| - 1];
    }
  }

  /** The drive-qualified path: a path from the root of the current drive, or from the current directory, is completed. */
  function Absolute(path: seq<byte>, cd: seq<byte>): seq<byte>
    requires |path| > 0 && |cd| > 0
  {
    if |path| >= 3 && path[1] == COLON && path[2] == SLASH then path
    else if path[0] == SLASH then [cd[0], COLON] + path
    else cd + path
  }

  /** A name that a slash follows. */
  lemma DirNameFirst(p: seq<byte>, n: nat)
    requires n == FirstSlash(p) < |p|
    ensures Names(p) == [p[..n]] + Names(p[n + 1..])
  {
  }

  /** The first name of a path that ends in a slash is that of the path with more behind it. */
  lemma FirstInRow(a: seq<byte>, b: seq<byte>)
    requires a != [] && a[|a| - 1] == SLASH
    ensures var n := FirstSlash(a);
      && n < |a| && FirstSlash(a + b) == n && (a + b)[..n] == a[..n] && (a + b)[n + 1..] == a[n + 1..] + b
      && (a[n + 1..] == [] || a[n + 1..][|a[n + 1..]| - 1] == SLASH)
  {
    var n := FirstSlash(a);
    hide FirstSlash;
    assert n < |a|;
    FirstSlashIs(a + b, n);
  }

  lemma RowOfNames(first: seq<byte>, x: Path, y: Path)
    ensures [first] + (x + y) == ([first] + x) + y
  {
  }

  lemma NoNames()
    ensures Names([]) == []
  {
  }

  lemma Nothing(b: seq<byte>)
    ensures [] + b == b
  {
  }

  /** The names of two paths in a row, when a slash ends the first. */
  lemma {:induction false} NamesInRow(a: seq<byte>, b: seq<byte>)
    requires a == [] || a[|a| - 1] == SLASH
    ensures Names(a + b) == Names(a) + Names(b)
  {
    hide Names, FirstSlash;
    if a == [] {
      Nothing(b);
      NoNames();
    } else {
      FirstInRow(a, b);
      var n := FirstSlash(a);
      var rest, both := a[n + 1..], a + b;
      NamesInRow(rest, b);
      DirNameFirst(a, n);
      DirNameFirst(both, n);
      RowOfNames(a[..n], Names(rest), Names(b));
    }
  }

  /** Joined names and a final slash, as in the path of a directory, are read back too. */
  lemma NamesOfDirectory(names: Path)
    requires names != [] && names[|names| - 1] != [] && forall i :: 0 <= i < |names| ==> NoSlash(names[i])
    ensures Names(Join(names) + [SLASH]) == names && !EndsInFile(Join(names) + [SLASH])
  {
    DirectoryNames(names);
  }

  lemma {:induction false} DirectoryNames(names: Path)
    requires names != [] && forall i :: 0 <= i < |names| ==> NoSlash(names[i])
    ensures Names(Join(names) + [SLASH]) == names
  {
    var p := Join(names) + [SLASH];
    FirstSlashIs(p, |names[0]|);
    assert p[..|names[0]|] == names[0];
    if |names| == 1 {
      assert p[|names[0]| + 1..] == [];
    } else {
      assert p[|names[0]| + 1..] == Join(names[1..]) + [SLASH];
      DirectoryNames(names[1..]);
    }
  }

  // ----- what a walk may do ---------------------------------------------------------

  /** Where creation can happen: under the plain name of a directory reached by its plain name. */
  ghost predicate Creatable(f: Fs, root: Ptr, names: Path, k: nat)
    requires k < |names|
  {
    Resolve(f, root, names[..k + 1]) == 0 ==> Plain(names[k]) && NameFits(names[k]) && (k > 0 ==> Plain(names[k - 1]))
  }

  /** Every name but a last file name stands for a directory, if for anything. */
  ghost predicate Walkable(f: Fs, root: Ptr, names: Path, dirs: nat)
    requires dirs <= |names|
  {
    forall k {:trigger DirOrNone(f, Resolve(f, root, names[..k + 1]))} :: 0 <= k < dirs ==> DirOrNone(f, Resolve(f, root, names[..k + 1]))
  }

  ghost predicate DirOrNone(f: Fs, c: Ptr) {
    c != 0 ==> c in f.inodes && f.inodes[c].isDir
  }

  // ----- what stays -----------------------------------------------------------------

  ghost predicate SameFile(f: Fs, g: Fs, c: Ptr) {
    c in g.chains && c in f.chains && g.chains[c] == f.chains[c] && Contents(g, c) == Contents(f, c)
  }

  ghost predicate SameKind(f: Fs, g: Fs, c: Ptr)
    requires c in f.inodes
  {
    c in g.inodes && g.inodes[c].kind == f.inodes[c].kind && g.inodes[c].isDir == f.inodes[c].isDir && g.inodes[c].ops == f.inodes[c].ops
  }

  ghost predicate KindsKept(f: Fs, g: Fs) {
    forall c {:trigger SameKind(f, g, c)} :: c in f.inodes ==> SameKind(f, g, c)
  }

  ghost predicate RootsKept(f: Fs, g: Fs) {
    forall r {:trigger IsRoot(g, r)} :: IsRoot(f, r) ==> IsRoot(g, r)
  }

  ghost predicate PathsKept(f: Fs, g: Fs) {
    forall d, p {:trigger Resolve(g, d, p)} :: Resolve(f, d, p) != 0 ==> Resolve(g, d, p) == Resolve(f, d, p)
  }

  ghost predicate FilesKept(f: Fs, g: Fs) {
    forall c {:trigger SameFile(f, g, c)} :: c in f.chains ==> SameFile(f, g, c)
  }

  /** Nothing that was there is lost: roots, every path that led somewhere, every inode's kind, every file's contents. */
  ghost predicate Preserved(f: Fs, g: Fs) {
    FsOk(g) && f.brk <= g.brk && RootsKept(f, g) && PathsKept(f, g) && FilesKept(f, g) && KindsKept(f, g)
  }

  lemma PreservedSelf(f: Fs)
    requires FsOk(f)
    ensures Preserved(f, f)
  {
    hide FsOk, Resolve, Contents;
  }

  lemma PreservedTrans(f: Fs, g: Fs, x: Fs)
    requires Preserved(f, g) && Preserved(g, x)
    ensures Preserved(f, x)
  {
    hide FsOk, Resolve, Contents, IsRoot;
    forall c {:trigger SameFile(f, x, c)} | c in f.chains
      ensures SameFile(f, x, c)
    {
      assert SameFile(f, g, c) && SameFile(g, x, c);
    }
    forall c {:trigger SameKind(f, x, c)} | c in f.inodes
      ensures SameKind(f, x, c)
    {
      assert SameKind(f, g, c) && SameKind(g, x, c);
    }
    forall d, p {:trigger Resolve(x, d, p)} | Resolve(f, d, p) != 0
      ensures Resolve(x, d, p) == Resolve(f, d, p)
    {
      assert Resolve(g, d, p) == Resolve(f, d, p);
    }
    forall r {:trigger IsRoot(x, r)} | IsRoot(f, r)
      ensures IsRoot(x, r)
    {
      assert IsRoot(g, r);
    }
  }

  /** A creation loses nothing. */
  lemma GrowsPreserves(f: Fs, g: Fs, h: Ptr, name: seq<byte>, c: Ptr)
    requires Grows(f, g, h, name, c) && f.brk <= g.brk
    requires forall p :: p in g.home && p !in f.home ==> p >= f.brk
    ensures Preserved(f, g)
  {
    hide FsOk, Resolve, Contents, IsRoot, Added, Lookup;
    forall r {:trigger IsRoot(g, r)} | IsRoot(f, r)
      ensures IsRoot(g, r)
    {
      RootStays(f, g, h, name, c, r);
    }
    forall d, p {:trigger Resolve(g, d, p)} | Resolve(f, d, p) != 0
      ensures Resolve(g, d, p) == Resolve(f, d, p)
    {
      ResolveKept(f, g, h, name, c, d, p);
    }
    forall x {:trigger SameFile(f, g, x)} | x in f.chains
      ensures SameFile(f, g, x)
    {
      GrewKeepsContents(f, g, h, f.brk + 1, x);
    }
    forall x {:trigger SameKind(f, g, x)} | x in f.inodes
      ensures SameKind(f, g, x)
    {
      assert InodeKept(f, g, h, x);
    }
  }

  /** Exactly the prefixes of `done` are new plain paths, and lead to new inodes. */
  ghost predicate TreeGrown(f: Fs, g: Fs, root: Ptr, done: Path) {
    forall other, q {:trigger Resolve(g, other, q)} :: IsRoot(f, other) && PlainPath(q) && Resolve(f, other, q) == 0 ==>
      if other == root && q <= done then Resolve(g, other, q) >= f.brk else Resolve(g, other, q) == 0
  }

  lemma {:induction false} PrefixResolves(f: Fs, d: Ptr, p: Path, k: nat)
    requires FsOk(f) && Resolve(f, d, p) != 0 && k <= |p|
    ensures Resolve(f, d, p[..k]) != 0
  {
    hide FsOk;
    if k == |p| {
      assert p[..k] == p;
    } else {
      NoNull(f);
      PrefixResolves(f, d, p[..|p| - 1], k);
      assert p[..|p| - 1][..k] == p[..k];
    }
  }

  lemma PrefixThere(f: Fs, d: Ptr, q: Path, p: Path)
    requires FsOk(f) && q <= p && Resolve(f, d, p) != 0
    ensures Resolve(f, d, q) != 0
  {
    hide FsOk, Resolve;
    PrefixResolves(f, d, p, |q|);
    assert p[..|q|] == q;
  }

  lemma TreeSelf(f: Fs, root: Ptr, done: Path)
    requires FsOk(f) && Resolve(f, root, done) != 0
    ensures TreeGrown(f, f, root, done)
  {
    hide FsOk, IsRoot, Resolve;
    forall other, q {:trigger Resolve(f, other, q)} | IsRoot(f, other) && PlainPath(q) && Resolve(f, other, q) == 0
      ensures !(other == root && q <= done)
    {
      if other == root && q <= done {
        PrefixThere(f, root, q, done);
      }
    }
  }

  /** One more name. */
  lemma TreeStep(f: Fs, g: Fs, x: Fs, root: Ptr, done: Path, h: Ptr, name: seq<byte>)
    requires Preserved(f, g) && TreeGrown(f, g, root, done) && IsRoot(f, root)
    requires Grows(g, x, h, name, g.brk) && Bare(g, x, g.brk) && PlainPath(done + [name])
    requires h in g.dirs && Resolve(g, root, done) == g.dirs[h].inode && Lists(g, Resolve(g, root, done)) && g.inodes[Resolve(g, root, done)].first == h
    ensures TreeGrown(f, x, root, done + [name])
  {
    hide FsOk, IsRoot, Resolve, Bare, Grows, Lists, FilesKept;
    assert PlainPath(done) && Plain(name) by {
      assert (done + [name])[|done|] == name;
      forall i | 0 <= i < |done| ensures Plain(done[i]) { assert (done + [name])[i] == done[i]; }
    }
    forall other, q {:trigger Resolve(x, other, q)} | IsRoot(f, other) && PlainPath(q) && Resolve(f, other, q) == 0
      ensures if other == root && q <= done + [name] then Resolve(x, other, q) >= f.brk else Resolve(x, other, q) == 0
    {
      assert IsRoot(g, other) && IsRoot(g, root);
      assert Resolve(g, other, q) == Resolve(g, other, q);
      ResolveAfter(g, x, h, name, g.brk, root, done, other, q);
      LastOrBefore(q, done, name);
    }
  }

  lemma LastOrBefore(q: Path, done: Path, name: seq<byte>)
    ensures q <= done + [name] <==> q <= done || q == done + [name]
  {
    if q <= done + [name] && |q| <= |done| {
      assert forall i :: 0 <= i < |q| ==> q[i] == (done + [name])[i] == done[i];
    }
  }
}
