/**
The TempFS as the kernel keeps it: inodes, directory entries and file nodes at
addresses, linked by address (src/fs/include/tempfs.h), with the lists and chains they form.
*/
module TempFsModel {
  import opened Bytes
  import opened CStrings

  /** An address; 0 is the null pointer. */
  type Ptr = nat

  const CHUNK: nat := 4088
  const NAME_SIZE: nat := 20
  const DEVICE: byte := 1

  /** `first` is the first entry of a directory or the first node of a file: they share their place. */
  datatype Inode = Inode(name: seq<byte>, length: nat, isDir: bool, kind: byte, ops: nat, first: Ptr, count: nat)

  datatype Entry = Entry(isDir: bool, inode: Ptr, next: Ptr)

  datatype FileNode = FileNode(data: seq<byte>, next: Ptr)

  /** The `i`-th element of a list or chain. */
  datatype Place = Place(owner: Ptr, i: nat)

  /** A directory, found by the address of its first entry: its inode, its parent's first entry and its entries in order. */
  datatype Dir = Dir(inode: Ptr, parent: Ptr, list: seq<Ptr>)

  /** Everything stored, the next address `malloc` hands out, and what the links amount to. */
  datatype Fs = Fs(
    inodes: map<Ptr, Inode>, entries: map<Ptr, Entry>, nodes: map<Ptr, FileNode>, brk: Ptr,
    dirs: map<Ptr, Dir>, home: map<Ptr, Place>, chains: map<Ptr, seq<Ptr>>, owner: map<Ptr, Place>)

  const EMPTY: Fs := Fs(map[], map[], map[], 1, map[], map[], map[], map[])

  // ----- the shape ------------------------------------------------------------------

  /** The link that element `i` of a list holds. */
  function NextIn(l: seq<Ptr>, i: nat): Ptr {
    if i + 1 < |l| then l[i + 1] else 0
  }

  /** The inode of entry `i` of the directory at `h`. */
  function At(f: Fs, h: Ptr, i: nat): Ptr {
    if h in f.dirs && i < |f.dirs[h].list| && f.dirs[h].list[i] in f.entries then f.entries[f.dirs[h].list[i]].inode else 0
  }

  function NameOf(f: Fs, c: Ptr): (s: seq<byte>)
    ensures NoZero(s)
  {
    if c in f.inodes then Str(f.inodes[c].name) else []
  }

  /** Entry 0 is `.` and entry 1 is `..`: they are inodes of their own that share the first entry of the directory they stand for, and whose counts never change. */
  ghost predicate KindOk(f: Fs, h: Ptr, i: nat, c: Ptr)
    requires h in f.dirs && c in f.inodes
  {
    var x := f.inodes[c];
    if i == 0 then x.isDir && x.first == h && Str(x.name) == [DOT] && x.count == 2
    else if i == 1 then x.isDir && x.first == f.dirs[h].parent && Str(x.name) == [DOT, DOT] && x.count == 0
    else if x.isDir then x.first in f.dirs && f.dirs[x.first].inode == c && f.dirs[x.first].parent == h
    else c in f.chains
  }

  ghost predicate SlotOk(f: Fs, h: Ptr, i: nat)
    requires h in f.dirs
  {
    var l := f.dirs[h].list;
    && i < |l| && l[i] in f.entries && f.entries[l[i]].next == NextIn(l, i)
    && At(f, h, i) in f.inodes && InodeOk(f.inodes[At(f, h, i)])
    && At(f, h, i) in f.home && f.home[At(f, h, i)] == Place(h, i)
    && KindOk(f, h, i, At(f, h, i))
  }

  ghost predicate InodeOk(x: Inode) {
    |x.name| == NAME_SIZE && Terminated(x.name)
  }

  /** The directory's own inode heads its list, counts it, and is no `.` or `..`. */
  ghost predicate HeadOk(f: Fs, h: Ptr)
    requires h in f.dirs
  {
    var D := f.dirs[h];
    && |D.list| >= 2 && D.list[0] == h && D.parent in f.dirs
    && D.inode in f.inodes && f.inodes[D.inode].isDir && f.inodes[D.inode].first == h
    && f.inodes[D.inode].count + 1 == |D.list|
    && (D.inode in f.home ==> f.home[D.inode].i >= 2)
  }

  ghost predicate NamesDiffer(f: Fs, h: Ptr)
    requires h in f.dirs
  {
    forall i, j :: 0 <= i < j < |f.dirs[h].list| ==> NameOf(f, At(f, h, i)) != NameOf(f, At(f, h, j))
  }

  /** The list of a directory has exactly one node more than its inode counts, and no name twice. */
  ghost predicate DirOk(f: Fs, h: Ptr)
    requires h in f.dirs
  {
    && HeadOk(f, h)
    && (forall i {:trigger SlotOk(f, h, i)} :: 0 <= i < |f.dirs[h].list| ==> SlotOk(f, h, i))
    && NamesDiffer(f, h)
  }

  ghost predicate NodeOk(f: Fs, c: Ptr, i: nat)
    requires c in f.chains
  {
    var l := f.chains[c];
    && i < |l| && l[i] in f.nodes && f.nodes[l[i]].next == NextIn(l, i) && |f.nodes[l[i]].data| == CHUNK
    && l[i] in f.owner && f.owner[l[i]] == Place(c, i)
  }

  /** A file's chain has room for its length and one node more, and no node of another file's chain. */
  ghost predicate FileOk(f: Fs, c: Ptr)
    requires c in f.chains
  {
    && c in f.inodes && !f.inodes[c].isDir
    && f.inodes[c].first == (if f.chains[c] == [] then 0 else f.chains[c][0])
    && (f.inodes[c].kind == DEVICE ==> f.chains[c] == [])
    && (f.inodes[c].length > 0 ==> f.inodes[c].length + CHUNK <= CHUNK * |f.chains[c]|)
    && (forall i {:trigger NodeOk(f, c, i)} :: 0 <= i < |f.chains[c]| ==> NodeOk(f, c, i))
  }

  /** Every address in use was handed out. */
  ghost predicate Bounded(f: Fs) {
    && f.brk > 0
    && Below(f.inodes.Keys, f.brk) && Below(f.entries.Keys, f.brk) && Below(f.nodes.Keys, f.brk)
    && Below(f.dirs.Keys, f.brk) && Below(f.home.Keys, f.brk) && Below(f.chains.Keys, f.brk)
  }

  ghost predicate Below(s: set<Ptr>, n: nat) {
    forall p :: p in s ==> 0 < p < n
  }

  ghost predicate FsOk(f: Fs) {
    && Bounded(f)
    && (forall h {:trigger DirOk(f, h)} :: h in f.dirs ==> DirOk(f, h))
    && (forall c {:trigger FileOk(f, c)} :: c in f.chains ==> FileOk(f, c))
  }

  // ----- looking up a name ----------------------------------------------------------

  /** The entry with a name, or the number of entries. */
  ghost function Slot(f: Fs, h: Ptr, name: seq<byte>): (i: nat)
    requires h in f.dirs
    ensures i <= |f.dirs[h].list|
    ensures i < |f.dirs[h].list| ==> NameOf(f, At(f, h, i)) == name
    ensures i == |f.dirs[h].list| ==> forall j :: 0 <= j < |f.dirs[h].list| ==> NameOf(f, At(f, h, j)) != name
  {
    if j: nat :| j < |f.dirs[h].list| && NameOf(f, At(f, h, j)) == name then j else |f.dirs[h].list|
  }

  /** The inode that a directory has under a name; 0 when it has none. */
  ghost function Lookup(f: Fs, h: Ptr, name: seq<byte>): Ptr
    requires h in f.dirs
  {
    At(f, h, Slot(f, h, name))
  }

  lemma SlotIs(f: Fs, h: Ptr, i: nat)
    requires h in f.dirs && DirOk(f, h) && i < |f.dirs[h].list|
    ensures Slot(f, h, NameOf(f, At(f, h, i))) == i
  {
    hide SlotOk, HeadOk;
    var j := Slot(f, h, NameOf(f, At(f, h, i)));
    assert i < j || j < i || i == j;
  }

  /** What a lookup finds: an inode of that name, in exactly one place. */
  lemma Found(f: Fs, h: Ptr, name: seq<byte>)
    requires FsOk(f) && h in f.dirs
    ensures var i := Slot(f, h, name); var c := Lookup(f, h, name);
      if i < |f.dirs[h].list| then c > 0 && SlotOk(f, h, i) && c == At(f, h, i) && NameOf(f, c) == name else c == 0
  {
    hide SlotOk, NamesDiffer, HeadOk, FileOk;
    var i := Slot(f, h, name);
    if i < |f.dirs[h].list| {
      assert DirOk(f, h) && SlotOk(f, h, i);
      InodeThere(f, h, i);
    }
  }

  lemma InodeThere(f: Fs, h: Ptr, i: nat)
    requires FsOk(f) && h in f.dirs && SlotOk(f, h, i)
    ensures 0 < At(f, h, i) < f.brk && At(f, h, i) in f.inodes
  {
    hide DirOk, FileOk;
  }

  /** One component of a path, from the directory inode `d`: 0 when it is not there. */
  ghost function Child(f: Fs, d: Ptr, name: seq<byte>): Ptr {
    if d in f.inodes && f.inodes[d].isDir && f.inodes[d].first in f.dirs then Lookup(f, f.inodes[d].first, name) else 0
  }

  /** The inode at the end of a path, from the directory inode `d`. */
  ghost function Resolve(f: Fs, d: Ptr, path: seq<seq<byte>>): Ptr {
    if path == [] then d else Child(f, Resolve(f, d, path[..|path| - 1]), path[|path| - 1])
  }
}
