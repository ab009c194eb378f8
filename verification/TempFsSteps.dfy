/**
What the TempFS operations do to the whole store (src/fs/tempfs.c), and that each keeps its shape.
*/
module TempFsSteps {
  import opened Bytes
  import opened CStrings
  import opened TempFsModel

  function NameBuffer(s: seq<byte>): (b: seq<byte>)
    requires NameFits(s)
    ensures |b| == NAME_SIZE && Terminated(b) && Str(b) == s
  {
    StrOf(s, Zeros(NAME_SIZE - |s|));
    s + Zeros(NAME_SIZE - |s|)
  }

  function NewInode(name: seq<byte>, isDir: bool): (x: Inode)
    requires NameFits(name)
    ensures Str(x.name) == name && x.isDir == isDir && x.first == x.count == x.length == 0 && x.kind != DEVICE && InodeOk(x)
  {
    Inode(NameBuffer(name), 0, isDir, 0, 0, 0, 0)
  }

  /** There is a directory at `h`, with a last entry. */
  predicate HasTail(f: Fs, h: Ptr) {
    h in f.dirs && |f.dirs[h].list| > 0 && f.dirs[h].list[|f.dirs[h].list| - 1] in f.entries && f.dirs[h].inode in f.inodes
  }

  predicate NameFits(name: seq<byte>) {
    |name| < NAME_SIZE && forall i :: 0 <= i < |name| ==> name[i] != 0
  }

  /** The directory at `h` with entry `e` for the inode `c` after its last. */
  function Appended(f: Fs, h: Ptr, c: Ptr, e: Ptr, x: Inode): Fs
    requires HasTail(f, h)
  {
    var D := f.dirs[h];
    var last := D.list[|D.list| - 1];
    f.(inodes := f.inodes[c := x][D.inode := f.inodes[D.inode].(count := f.inodes[D.inode].count + 1)],
       entries := f.entries[e := Entry(false, c, 0)][last := f.entries[last].(next := e)],
       dirs := f.dirs[h := D.(list := D.list + [e])],
       home := f.home[c := Place(h, |D.list|)])
  }

  ghost predicate CanAppend(f: Fs, h: Ptr, name: seq<byte>) {
    FsOk(f) && HasTail(f, h) && NameFits(name) && Lookup(f, h, name) == 0
  }

  /** Where an entry can be appended. */
  lemma Tail(f: Fs, h: Ptr)
    requires FsOk(f) && h in f.dirs
    ensures HasTail(f, h) && HeadOk(f, h)
  {
    hide FileOk, NamesDiffer, SlotOk;
    assert DirOk(f, h) && SlotOk(f, h, |f.dirs[h].list| - 1);
    EntryThere(f, h, |f.dirs[h].list| - 1);
  }

  lemma EntryThere(f: Fs, h: Ptr, i: nat)
    requires h in f.dirs && SlotOk(f, h, i)
    ensures i < |f.dirs[h].list| && f.dirs[h].list[i] in f.entries
  {
    hide KindOk;
  }

  /** The inode pointer of every slot of a directory is in use: nothing stored at a new address interferes. */
  lemma SlotParts(f: Fs, h: Ptr, i: nat)
    requires FsOk(f) && h in f.dirs && i < |f.dirs[h].list|
    ensures SlotOk(f, h, i) && 0 < f.dirs[h].list[i] < f.brk && 0 < At(f, h, i) < f.brk && At(f, h, i) in f.inodes
  {
    hide FileOk, NamesDiffer, KindOk, HeadOk;
    assert DirOk(f, h) && SlotOk(f, h, i);
  }

  /** A regular file or device with no contents. */
  function WithFile(f: Fs, h: Ptr, name: seq<byte>, kind: byte, ops: nat): Fs
    requires HasTail(f, h) && NameFits(name)
  {
    var c, e := f.brk, f.brk + 1;
    Appended(f, h, c, e, NewInode(name, false).(kind := kind, ops := ops)).(chains := f.chains[c := []], brk := f.brk + 2)
  }

  /** An empty directory: its `.` shares its first entry, its `..` that of the directory it is made in. */
  function WithDir(f: Fs, h: Ptr, name: seq<byte>): Fs
    requires HasTail(f, h) && NameFits(name)
  {
    var c, e, h2, dot, up, e2 := f.brk, f.brk + 1, f.brk + 2, f.brk + 3, f.brk + 4, f.brk + 5;
    var g := Appended(f, h, c, e, NewInode(name, true).(first := h2, count := 1));
    g.(inodes := g.inodes[dot := NewInode([DOT], true).(first := h2, count := 2)][up := NewInode([DOT, DOT], true).(first := h)],
       entries := g.entries[h2 := Entry(true, dot, e2)][e2 := Entry(false, up, 0)],
       dirs := g.dirs[h2 := Dir(c, h, [h2, e2])],
       home := g.home[dot := Place(h2, 0)][up := Place(h2, 1)],
       brk := f.brk + 6)
  }

  /** A new file system: a root directory whose `.` and `..` both stand for itself. */
  function WithRoot(f: Fs): Fs {
    var c, h, dot, up, e2 := f.brk, f.brk + 1, f.brk + 2, f.brk + 3, f.brk + 4;
    f.(inodes := f.inodes[c := Inode(Zeros(NAME_SIZE), 0, true, 0, 0, h, 1)][dot := NewInode([DOT], true).(first := h, count := 2)][up := NewInode([DOT, DOT], true).(first := h)],
       entries := f.entries[h := Entry(true, dot, e2)][e2 := Entry(false, up, 0)],
       dirs := f.dirs[h := Dir(c, h, [h, e2])],
       home := f.home[dot := Place(h, 0)][up := Place(h, 1)],
       brk := f.brk + 5)
  }

  // ----- what a creation leaves alone -----------------------------------------------

  /** `g` has everything `f` has, except that the directory at `h` may have the entry `e` after its last. */
  ghost predicate Grew(f: Fs, g: Fs, h: Ptr, e: Ptr) {
    && (forall p {:trigger InodeKept(f, g, h, p)} :: p in f.inodes ==> InodeKept(f, g, h, p))
    && (forall p {:trigger EntryKept(f, g, h, e, p)} :: p in f.entries ==> EntryKept(f, g, h, e, p))
    && (forall k {:trigger ListKept(f, g, h, e, k)} :: k in f.dirs ==> ListKept(f, g, h, e, k))
    && (forall p {:trigger HomeKept(f, g, p)} :: p in f.home ==> HomeKept(f, g, p))
    && (forall c {:trigger ChainKept(f, g, c)} :: c in f.chains ==> ChainKept(f, g, c))
    && (forall p {:trigger p in g.home} :: p in g.home && p !in f.home ==> p >= f.brk)
    && g.nodes == f.nodes && g.owner == f.owner
  }

  predicate InodeKept(f: Fs, g: Fs, h: Ptr, p: Ptr)
    requires p in f.inodes
  {
    p in g.inodes && g.inodes[p] == if Owns(f, h, p) then f.inodes[p].(count := f.inodes[p].count + 1) else f.inodes[p]
  }

  predicate EntryKept(f: Fs, g: Fs, h: Ptr, e: Ptr, p: Ptr)
    requires p in f.entries
  {
    p in g.entries && g.entries[p].inode == f.entries[p].inode && g.entries[p].next == if Last(f, h, p) then e else f.entries[p].next
  }

  predicate ListKept(f: Fs, g: Fs, h: Ptr, e: Ptr, k: Ptr)
    requires k in f.dirs
  {
    k in g.dirs && g.dirs[k] == if k == h then f.dirs[k].(list := f.dirs[k].list + [e]) else f.dirs[k]
  }

  predicate HomeKept(f: Fs, g: Fs, p: Ptr)
    requires p in f.home
  {
    p in g.home && g.home[p] == f.home[p]
  }

  predicate ChainKept(f: Fs, g: Fs, c: Ptr)
    requires c in f.chains
  {
    c in g.chains && g.chains[c] == f.chains[c]
  }

  predicate Owns(f: Fs, h: Ptr, p: Ptr) {
    h in f.dirs && f.dirs[h].inode == p
  }

  predicate Last(f: Fs, h: Ptr, p: Ptr) {
    h in f.dirs && |f.dirs[h].list| > 0 && f.dirs[h].list[|f.dirs[h].list| - 1] == p
  }

  /** Two slots are the same entry only when they are the same slot. */
  lemma SlotsApart(f: Fs, h: Ptr, i: nat, k: Ptr, j: nat)
    requires FsOk(f) && h in f.dirs && k in f.dirs && i < |f.dirs[h].list| && j < |f.dirs[k].list|
    requires f.dirs[h].list[i] == f.dirs[k].list[j]
    ensures h == k && i == j
  {
    SlotParts(f, h, i);
    SlotParts(f, k, j);
    hide FsOk;
  }

  lemma SlotKept(f: Fs, g: Fs, h: Ptr, e: Ptr, k: Ptr, i: nat)
    requires FsOk(f) && Grew(f, g, h, e) && k in f.dirs && i < |f.dirs[k].list| && e > 0
    ensures k in g.dirs && i < |g.dirs[k].list| && SlotOk(g, k, i) && At(g, k, i) == At(f, k, i) && NameOf(g, At(g, k, i)) == NameOf(f, At(f, k, i))
  {
    hide FsOk, KindOk, InodeOk;
    SlotParts(f, k, i);
    var p := f.dirs[k].list[i];
    var c := At(f, k, i);
    if Last(f, h, p) {
      SlotsApart(f, k, i, h, |f.dirs[h].list| - 1);
    }
    assert ListKept(f, g, h, e, k);
    assert SlotOk(f, k, i);
    assert EntryKept(f, g, h, e, p) && InodeKept(f, g, h, c) && HomeKept(f, g, c);
    assert g.dirs[k].list[i] == p;
    assert At(g, k, i) == c;
    if Owns(f, h, c) {
      Shape(f, h);
    }
    KindKept(f, g, h, e, k, i, c);
  }

  lemma KindKept(f: Fs, g: Fs, h: Ptr, e: Ptr, k: Ptr, i: nat, c: Ptr)
    requires Grew(f, g, h, e) && k in f.dirs && c in f.inodes && KindOk(f, k, i, c) && InodeOk(f.inodes[c])
    requires i < 2 ==> !Owns(f, h, c)
    ensures k in g.dirs && c in g.inodes && KindOk(g, k, i, c) && InodeOk(g.inodes[c])
  {
    var x := f.inodes[c];
    assert InodeKept(f, g, h, c) && ListKept(f, g, h, e, k);
    if i >= 2 {
      if x.isDir {
        assert ListKept(f, g, h, e, x.first);
      } else {
        assert ChainKept(f, g, c);
      }
    }
  }

  /** A directory that gets no entry keeps its shape. */
  lemma OtherDirKept(f: Fs, g: Fs, h: Ptr, e: Ptr, k: Ptr)
    requires FsOk(f) && Grew(f, g, h, e) && k in f.dirs && k != h && e > 0
    ensures k in g.dirs && DirOk(g, k)
  {
    hide SlotOk, FsOk, KindOk, NamesDiffer;
    Shape(f, k);
    assert ListKept(f, g, h, e, k);
    forall i | 0 <= i < |f.dirs[k].list|
      ensures SlotOk(g, k, i) && NameOf(g, At(g, k, i)) == NameOf(f, At(f, k, i))
    {
      SlotKept(f, g, h, e, k, i);
    }
    if h in f.dirs && f.dirs[h].inode == f.dirs[k].inode {
      SameInode(f, h, k);
    }
    HeadKept(f, g, h, e, k);
    NamesKept(f, g, k);
  }

  lemma HeadKept(f: Fs, g: Fs, h: Ptr, e: Ptr, k: Ptr)
    requires Grew(f, g, h, e) && k in f.dirs && HeadOk(f, k) && (k == h || !Owns(f, h, f.dirs[k].inode)) && f.dirs[k].inode < f.brk
    ensures k in g.dirs && HeadOk(g, k)
  {
    var d := f.dirs[k].inode;
    assert ListKept(f, g, h, e, k) && InodeKept(f, g, h, d) && ListKept(f, g, h, e, f.dirs[k].parent);
    assert d in f.home ==> HomeKept(f, g, d);
  }

  lemma NamesKept(f: Fs, g: Fs, k: Ptr)
    requires k in f.dirs && k in g.dirs && |g.dirs[k].list| == |f.dirs[k].list| && NamesDiffer(f, k)
    requires forall i :: 0 <= i < |f.dirs[k].list| ==> NameOf(g, At(g, k, i)) == NameOf(f, At(f, k, i))
    ensures NamesDiffer(g, k)
  {
    hide NameOf, At;
  }

  /** One name more, different from all the others. */
  lemma NamesGrown(f: Fs, g: Fs, k: Ptr)
    requires k in f.dirs && k in g.dirs && |g.dirs[k].list| == |f.dirs[k].list| + 1 && NamesDiffer(f, k)
    requires forall i :: 0 <= i < |f.dirs[k].list| ==> NameOf(g, At(g, k, i)) == NameOf(f, At(f, k, i))
    requires forall i :: 0 <= i < |f.dirs[k].list| ==> NameOf(f, At(f, k, i)) != NameOf(g, At(g, k, |f.dirs[k].list|))
    ensures NamesDiffer(g, k)
  {
    hide NameOf, At;
  }

  /** The parts of a directory's shape. */
  lemma Shape(f: Fs, k: Ptr)
    requires FsOk(f) && k in f.dirs
    ensures HeadOk(f, k) && NamesDiffer(f, k) && DirOk(f, k)
    ensures f.dirs[k].inode < f.brk
  {
    hide SlotOk, NamesDiffer, FileOk;
    assert DirOk(f, k);
    assert f.dirs[k].inode in f.inodes.Keys;
  }

  lemma SameInode(f: Fs, h: Ptr, k: Ptr)
    requires FsOk(f) && h in f.dirs && k in f.dirs && f.dirs[h].inode == f.dirs[k].inode
    ensures h == k
  {
    assert DirOk(f, h) && DirOk(f, k);
  }

  /** The directory that gets the entry keeps its shape when the name is new. */
  lemma GrownDirKept(f: Fs, g: Fs, h: Ptr, e: Ptr)
    requires FsOk(f) && h in f.dirs && Grew(f, g, h, e) && e > 0
    requires h in g.dirs && SlotOk(g, h, |f.dirs[h].list|)
    requires Lookup(f, h, NameOf(g, At(g, h, |f.dirs[h].list|))) == 0
    ensures DirOk(g, h)
  {
    hide SlotOk, FsOk, KindOk, NamesDiffer;
    Shape(f, h);
    assert ListKept(f, g, h, e, h);
    var n := |f.dirs[h].list|;
    var name := NameOf(g, At(g, h, n));
    Found(f, h, name);
    forall i | 0 <= i < n
      ensures SlotOk(g, h, i) && NameOf(g, At(g, h, i)) == NameOf(f, At(f, h, i)) && NameOf(f, At(f, h, i)) != name
    {
      SlotKept(f, g, h, e, h, i);
    }
    HeadKept(f, g, h, e, h);
    NamesGrown(f, g, h);
  }

  lemma FileKept(f: Fs, g: Fs, h: Ptr, e: Ptr, c: Ptr)
    requires FsOk(f) && Grew(f, g, h, e) && c in f.chains
    ensures c in g.chains && FileOk(g, c)
  {
    hide DirOk, Bounded, NodeOk;
    assert FileOk(f, c);
    if h in f.dirs {
      Tail(f, h);
    }
    hide FsOk;
    assert ChainKept(f, g, c) && InodeKept(f, g, h, c);
    forall i | 0 <= i < |f.chains[c]|
      ensures NodeOk(g, c, i)
    {
      assert NodeOk(f, c, i);
      NodeKept(f, g, c, i);
    }
  }

  lemma NodeKept(f: Fs, g: Fs, c: Ptr, i: nat)
    requires c in f.chains && c in g.chains && g.chains[c] == f.chains[c] && g.nodes == f.nodes && g.owner == f.owner && NodeOk(f, c, i)
    ensures NodeOk(g, c, i)
  {
  }

  /** Everything that was there keeps its shape. */
  lemma AllKept(f: Fs, g: Fs, h: Ptr, e: Ptr)
    requires FsOk(f) && Grew(f, g, h, e) && e > 0
    requires h in f.dirs ==> h in g.dirs && SlotOk(g, h, |f.dirs[h].list|) && Lookup(f, h, NameOf(g, At(g, h, |f.dirs[h].list|))) == 0
    ensures forall k :: k in f.dirs ==> k in g.dirs && DirOk(g, k)
    ensures forall c :: c in f.chains ==> c in g.chains && FileOk(g, c)
  {
    hide FsOk, Grew, DirOk, FileOk, SlotOk;
    forall k | k in f.dirs
      ensures k in g.dirs && DirOk(g, k)
    {
      if k == h { GrownDirKept(f, g, h, e); } else { OtherDirKept(f, g, h, e, k); }
    }
    forall c | c in f.chains
      ensures c in g.chains && FileOk(g, c)
    {
      FileKept(f, g, h, e, c);
    }
  }

  lemma BoundedOf(f: Fs)
    requires FsOk(f)
    ensures Bounded(f) && f.brk > 0
  {
    hide DirOk, FileOk;
  }

  lemma Assemble(g: Fs)
    requires Bounded(g)
    requires forall k :: k in g.dirs.Keys ==> k in g.dirs && DirOk(g, k)
    requires forall c :: c in g.chains.Keys ==> c in g.chains && FileOk(g, c)
    ensures FsOk(g)
  {
    hide Bounded, DirOk, FileOk;
  }

  // ----- every creation keeps the shape ---------------------------------------------

  lemma FileInodes(f: Fs, h: Ptr, name: seq<byte>, kind: byte, ops: nat, g: Fs)
    requires Bounded(f) && HasTail(f, h) && NameFits(name) && g == WithFile(f, h, name, kind, ops)
    ensures forall p :: p in f.inodes ==> InodeKept(f, g, h, p)
    ensures forall p :: p in f.entries ==> EntryKept(f, g, h, f.brk + 1, p)
  {
  }

  lemma FileMaps(f: Fs, h: Ptr, name: seq<byte>, kind: byte, ops: nat, g: Fs)
    requires Bounded(f) && HasTail(f, h) && NameFits(name) && g == WithFile(f, h, name, kind, ops)
    ensures forall p :: p in f.home ==> HomeKept(f, g, p)
    ensures forall p {:trigger p in g.home} :: p in g.home && p !in f.home ==> p >= f.brk
    ensures forall c :: c in f.chains ==> ChainKept(f, g, c)
    ensures forall k :: k in f.dirs ==> ListKept(f, g, h, f.brk + 1, k)
    ensures g.nodes == f.nodes && g.owner == f.owner && g.brk == f.brk + 2
    ensures g.dirs.Keys == f.dirs.Keys && g.chains.Keys == f.chains.Keys + {f.brk}
  {
  }

  lemma FileBounds(f: Fs, h: Ptr, name: seq<byte>, kind: byte, ops: nat, g: Fs)
    requires Bounded(f) && HasTail(f, h) && NameFits(name) && g == WithFile(f, h, name, kind, ops)
    ensures Bounded(g)
  {
  }

  lemma WithFileGrew(f: Fs, h: Ptr, name: seq<byte>, kind: byte, ops: nat, g: Fs)
    requires Bounded(f) && HasTail(f, h) && NameFits(name) && g == WithFile(f, h, name, kind, ops)
    ensures Grew(f, g, h, f.brk + 1) && Bounded(g)
  {
    FileInodes(f, h, name, kind, ops, g);
    FileMaps(f, h, name, kind, ops, g);
    FileBounds(f, h, name, kind, ops, g);
    hide Bounded, WithFile;
  }

  /** `c` is the only inode `g` has more than `f` under the name `name`, in the directory at `h`. */
  ghost predicate Added(f: Fs, g: Fs, h: Ptr, name: seq<byte>, c: Ptr) {
    && h in f.dirs && h in g.dirs && |g.dirs[h].list| == |f.dirs[h].list| + 1
    && At(g, h, |f.dirs[h].list|) == c && NameOf(g, c) == name && c in g.inodes && c !in f.inodes
  }

  ghost predicate NewFile(g: Fs, c: Ptr, kind: byte) {
    c in g.inodes && !g.inodes[c].isDir && g.inodes[c].kind == kind && g.inodes[c].length == 0 && c in g.chains && g.chains[c] == []
  }

  ghost predicate NewDir(f: Fs, g: Fs, h: Ptr, c: Ptr, h2: Ptr) {
    && c in g.inodes && g.inodes[c].isDir && g.inodes[c].first == h2
    && h2 !in f.dirs && g.dirs.Keys == f.dirs.Keys + {h2} && |g.dirs[h2].list| == 2 && g.dirs[h2].parent == h
  }

  lemma FileSlot(f: Fs, h: Ptr, name: seq<byte>, kind: byte, ops: nat, g: Fs)
    requires Bounded(f) && HasTail(f, h) && NameFits(name) && g == WithFile(f, h, name, kind, ops)
    requires |f.dirs[h].list| >= 2
    ensures Added(f, g, h, name, f.brk) && h in g.dirs && At(g, h, |f.dirs[h].list|) == f.brk
    ensures SlotOk(g, h, |f.dirs[h].list|)
    ensures NewFile(g, f.brk, kind) && FileOk(g, f.brk)
  {
    assert f.brk !in f.inodes.Keys && f.brk + 1 !in f.entries.Keys;
    hide Bounded, NewInode, InodeOk;
    var n := |f.dirs[h].list|;
    assert g.dirs[h].list[n] == f.brk + 1;
    assert g.entries[f.brk + 1] == Entry(false, f.brk, 0);
    assert Str(g.inodes[f.brk].name) == name;
  }

  /** Creating a file or device keeps the shape: the counted walk still ends on the last entry, and names stay unique. */
  lemma WithFileOk(f: Fs, h: Ptr, name: seq<byte>, kind: byte, ops: nat, g: Fs)
    requires CanAppend(f, h, name) && g == WithFile(f, h, name, kind, ops)
    ensures FsOk(g) && g.dirs.Keys == f.dirs.Keys && Grew(f, g, h, f.brk + 1) && g.brk > f.brk
    ensures Added(f, g, h, name, f.brk)
    ensures NewFile(g, f.brk, kind)
  {
    hide FsOk, DirOk, FileOk, Grew, SlotOk, WithFile, Bounded, NameFits, At, NameOf, Lookup;
    BoundedOf(f);
    Tail(f, h);
    WithFileGrew(f, h, name, kind, ops, g);
    FileMaps(f, h, name, kind, ops, g);
    FileSlot(f, h, name, kind, ops, g);
    AllKept(f, g, h, f.brk + 1);
    Assemble(g);
  }

  // ----- a new directory ------------------------------------------------------------

  lemma DirInodes(f: Fs, h: Ptr, name: seq<byte>, g: Fs)
    requires Bounded(f) && HasTail(f, h) && NameFits(name) && g == WithDir(f, h, name)
    ensures forall p :: p in f.inodes ==> InodeKept(f, g, h, p)
    ensures forall p :: p in f.entries ==> EntryKept(f, g, h, f.brk + 1, p)
  {
  }

  lemma DirMaps(f: Fs, h: Ptr, name: seq<byte>, g: Fs)
    requires Bounded(f) && HasTail(f, h) && NameFits(name) && g == WithDir(f, h, name)
    ensures forall p :: p in f.home ==> HomeKept(f, g, p)
    ensures forall p {:trigger p in g.home} :: p in g.home && p !in f.home ==> p >= f.brk
    ensures forall c :: c in f.chains ==> ChainKept(f, g, c)
    ensures forall k :: k in f.dirs ==> ListKept(f, g, h, f.brk + 1, k)
    ensures g.nodes == f.nodes && g.owner == f.owner && g.brk == f.brk + 6
    ensures g.dirs.Keys == f.dirs.Keys + {f.brk + 2} && g.chains.Keys == f.chains.Keys
  {
  }

  lemma DirBounds(f: Fs, h: Ptr, name: seq<byte>, g: Fs)
    requires Bounded(f) && HasTail(f, h) && NameFits(name) && g == WithDir(f, h, name)
    ensures Bounded(g)
  {
  }

  lemma WithDirGrew(f: Fs, h: Ptr, name: seq<byte>, g: Fs)
    requires Bounded(f) && HasTail(f, h) && NameFits(name) && g == WithDir(f, h, name)
    ensures Grew(f, g, h, f.brk + 1) && Bounded(g)
  {
    DirInodes(f, h, name, g);
    DirMaps(f, h, name, g);
    DirBounds(f, h, name, g);
    hide Bounded, WithDir;
  }

  /** The new directory's own entry, and its `.` and `..`. */
  lemma DirSlots(f: Fs, h: Ptr, name: seq<byte>, g: Fs)
    requires Bounded(f) && HasTail(f, h) && NameFits(name) && g == WithDir(f, h, name)
    requires |f.dirs[h].list| >= 2
    ensures Added(f, g, h, name, f.brk) && h in g.dirs && At(g, h, |f.dirs[h].list|) == f.brk
    ensures SlotOk(g, h, |f.dirs[h].list|)
    ensures NewDir(f, g, h, f.brk, f.brk + 2)
  {
    DirMaps(f, h, name, g);
    assert f.brk !in f.inodes.Keys && f.brk + 1 !in f.entries.Keys && f.brk + 2 !in f.dirs.Keys && f.brk + 2 != h;
    assert f.dirs[h].list[|f.dirs[h].list| - 1] in f.entries.Keys && f.dirs[h].inode in f.inodes.Keys;
    hide Bounded, NewInode, InodeOk;
    var n := |f.dirs[h].list|;
    assert g.dirs[h].list[n] == f.brk + 1;
    assert g.entries[f.brk + 1] == Entry(false, f.brk, 0);
    assert Str(g.inodes[f.brk].name) == name;
  }

  lemma DotSlots(f: Fs, h: Ptr, name: seq<byte>, g: Fs)
    requires Bounded(f) && HasTail(f, h) && NameFits(name) && g == WithDir(f, h, name)
    requires |f.dirs[h].list| >= 2
    ensures f.brk + 2 in g.dirs && DirOk(g, f.brk + 2)
  {
    var h2: Ptr := f.brk + 2;
    assert f.brk !in f.inodes.Keys && h2 !in f.dirs.Keys && h2 !in f.entries.Keys && h2 != h;
    assert f.dirs[h].list[|f.dirs[h].list| - 1] in f.entries.Keys && f.dirs[h].inode in f.inodes.Keys;
    hide Bounded, NewInode, InodeOk;
    assert g.dirs[h2] == Dir(f.brk, h, [h2, f.brk + 5]) && g.entries[h2] == Entry(true, f.brk + 3, f.brk + 5) && g.entries[f.brk + 5] == Entry(false, f.brk + 4, 0);
    assert Str(g.inodes[f.brk + 3].name) == [DOT] && Str(g.inodes[f.brk + 4].name) == [DOT, DOT];
    assert At(g, h2, 0) == f.brk + 3 && At(g, h2, 1) == f.brk + 4;
    assert SlotOk(g, h2, 0) && SlotOk(g, h2, 1);
    assert g.home[f.brk] == Place(h, |f.dirs[h].list|);
    hide SlotOk;
    assert |NameOf(g, At(g, h2, 0))| == 1 && |NameOf(g, At(g, h2, 1))| == 2;
  }

  /** Making a directory keeps the shape. */
  lemma WithDirOk(f: Fs, h: Ptr, name: seq<byte>, g: Fs)
    requires CanAppend(f, h, name) && g == WithDir(f, h, name)
    ensures FsOk(g) && Grew(f, g, h, f.brk + 1) && g.brk > f.brk
    ensures Added(f, g, h, name, f.brk) && NewDir(f, g, h, f.brk, f.brk + 2)
  {
    hide FsOk, DirOk, FileOk, Grew, SlotOk, WithDir, Bounded, NameFits, At, NameOf, Lookup;
    BoundedOf(f);
    Tail(f, h);
    WithDirGrew(f, h, name, g);
    DirMaps(f, h, name, g);
    DirSlots(f, h, name, g);
    DotSlots(f, h, name, g);
    AllKept(f, g, h, f.brk + 1);
    Assemble(g);
  }

  // ----- a new file system ----------------------------------------------------------

  lemma RootMaps(f: Fs, g: Fs)
    requires Bounded(f) && g == WithRoot(f)
    ensures Grew(f, g, f.brk + 1, f.brk + 1) && g.chains.Keys == f.chains.Keys
    ensures g.dirs.Keys == f.dirs.Keys + {f.brk + 1} && f.brk + 1 !in f.dirs && g.brk == f.brk + 5
  {
  }

  lemma RootBounds(f: Fs, g: Fs)
    requires Bounded(f) && g == WithRoot(f)
    ensures Bounded(g)
  {
  }

  lemma RootSlots(f: Fs, g: Fs)
    requires Bounded(f) && g == WithRoot(f)
    ensures f.brk + 1 in g.dirs && DirOk(g, f.brk + 1)
  {
    var h: Ptr := f.brk + 1;
    hide Bounded, NewInode, InodeOk;
    assert g.dirs[h] == Dir(f.brk, h, [h, f.brk + 4]) && g.entries[h] == Entry(true, f.brk + 2, f.brk + 4) && g.entries[f.brk + 4] == Entry(false, f.brk + 3, 0);
    assert Str(g.inodes[f.brk + 2].name) == [DOT] && Str(g.inodes[f.brk + 3].name) == [DOT, DOT];
    assert At(g, h, 0) == f.brk + 2 && At(g, h, 1) == f.brk + 3;
    assert SlotOk(g, h, 0) && SlotOk(g, h, 1);
    hide SlotOk;
    assert |NameOf(g, At(g, h, 0))| == 1 && |NameOf(g, At(g, h, 1))| == 2;
  }

  /** The root directory inode `c` is nobody's entry, and its directory starts with itself as parent. */
  ghost predicate IsRoot(f: Fs, c: Ptr) {
    && c in f.inodes && f.inodes[c].isDir && f.inodes[c].first in f.dirs
    && f.dirs[f.inodes[c].first].inode == c && f.dirs[f.inodes[c].first].parent == f.inodes[c].first && c !in f.home
  }

  /** A new file system is well shaped, and leaves the others alone. */
  lemma WithRootOk(f: Fs, g: Fs)
    requires FsOk(f) && g == WithRoot(f)
    ensures FsOk(g) && Grew(f, g, f.brk + 1, f.brk + 1) && g.brk > f.brk
    ensures IsRoot(g, f.brk) && f.brk + 1 in g.dirs && |g.dirs[f.brk + 1].list| == 2 && g.inodes[f.brk].first == f.brk + 1
  {
    BoundedOf(f);
    RootMaps(f, g);
    RootBounds(f, g);
    RootSlots(f, g);
    assert f.brk !in f.home.Keys;
    hide FsOk, DirOk, FileOk, Grew, SlotOk, Bounded;
    AllKept(f, g, f.brk + 1, f.brk + 1);
    Assemble(g);
  }

  lemma EmptyOk()
    ensures FsOk(EMPTY)
  {
  }
}
