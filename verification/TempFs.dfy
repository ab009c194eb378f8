/**
The TempFS operations, on linked structures in place (src/fs/tempfs.c).
*/
module TempFs {
  import opened Bytes
  import opened CStrings
  import opened TempFsModel
  import opened TempFsSteps
  import opened TempFsContents
  import opened TempFsTree
  import opened TempFsThrough

  const UP_NAME: seq<byte> := [DOT, DOT, 0]

  /** A file operation is done here, or handed to the device's own operations. */
  datatype Outcome = Done | Device(ops: nat)

  /** Entry `i` of a list leads to the next one of it. */
  ghost predicate EntryLink(entries: map<Ptr, Entry>, brk: Ptr, l: seq<Ptr>, i: nat) {
    i < |l| && 0 < l[i] < brk && l[i] in entries && (i + 1 < |l| ==> entries[l[i]].next == l[i + 1])
  }

  /** The inodes after an entry for the inode `c` was added to the directory inode `dir` with list `l`. */
  function AddedInodes(inodes: map<Ptr, Inode>, dir: Ptr, c: Ptr, x: Inode, l: seq<Ptr>): map<Ptr, Inode>
    requires dir in inodes
  {
    inodes[c := x][dir := inodes[dir].(first := if l == [] then c + 1 else inodes[dir].first, count := inodes[dir].count + 1)]
  }

  /** The entries after it: the last one leads to the new one. */
  function AddedEntries(entries: map<Ptr, Entry>, c: Ptr, l: seq<Ptr>): map<Ptr, Entry> {
    if l != [] && l[|l| - 1] in entries then entries[c + 1 := Entry(false, c, 0)][l[|l| - 1] := entries[l[|l| - 1]].(next := c + 1)]
    else entries[c + 1 := Entry(false, c, 0)]
  }

  lemma EntriesAdded(e0: map<Ptr, Entry>, e1: map<Ptr, Entry>, c: Ptr, l: seq<Ptr>)
    requires l != [] ==> l[|l| - 1] in e0 && l[|l| - 1] <= c
    requires l == [] ==> e1 == e0[c + 1 := Entry(false, 0, 0)][c + 1 := Entry(false, c, 0)]
    requires l != [] ==> e1 == e0[c + 1 := Entry(false, 0, 0)][l[|l| - 1] := e0[l[|l| - 1]].(next := c + 1)][c + 1 := Entry(false, c, 0)]
    ensures e1 == AddedEntries(e0, c, l)
  {
  }

  lemma InodesAdded(i0: map<Ptr, Inode>, i1: map<Ptr, Inode>, dir: Ptr, c: Ptr, name: seq<byte>, isDir: bool, l: seq<Ptr>)
    requires dir in i0 && dir != c && NameFits(name)
    requires var z := Inode(Zeros(NAME_SIZE), 0, false, 0, 0, 0, 0);
      var d := i0[dir].(first := if l == [] then c + 1 else i0[dir].first);
      var n := name + Zeros(NAME_SIZE)[|name|..];
      i1 == (if l == [] then i0[c := z][dir := d] else i0[c := z])[c := z.(name := n)][c := z.(name := n, isDir := isDir)][dir := d.(count := d.count + 1)]
    ensures i1 == AddedInodes(i0, dir, c, NewInode(name, isDir), l)
  {
    assert Zeros(NAME_SIZE)[|name|..] == Zeros(NAME_SIZE - |name|);
  }

  lemma LinksStay(e0: map<Ptr, Entry>, e1: map<Ptr, Entry>, brk: Ptr, brk1: Ptr, l: seq<Ptr>)
    requires brk1 == brk + 2 && e1 == e0[brk + 1 := Entry(false, 0, 0)]
    requires forall i {:trigger EntryLink(e0, brk, l, i)} :: 0 <= i < |l| ==> EntryLink(e0, brk, l, i)
    ensures forall i {:trigger EntryLink(e1, brk1, l, i)} :: 0 <= i < |l| ==> EntryLink(e1, brk1, l, i)
  {
    forall i {:trigger EntryLink(e1, brk1, l, i)} | 0 <= i < |l|
      ensures EntryLink(e1, brk1, l, i)
    {
      assert EntryLink(e0, brk, l, i);
    }
  }

  lemma DirInodesBuilt(f: Fs, h: Ptr, name: seq<byte>, i1: map<Ptr, Inode>, i3: map<Ptr, Inode>)
    requires Bounded(f) && HasTail(f, h) && NameFits(name) && f.inodes[f.dirs[h].inode].first == h
    requires var c, h2, dot, up := f.brk, f.brk + 2, f.brk + 3, f.brk + 4;
      && i1 == AddedInodes(f.inodes, f.dirs[h].inode, c, NewInode(name, true), f.dirs[h].list)
      && var i2 := i1[c := i1[c].(first := h2)][dot := NewInode([DOT], true).(first := h2, count := 2)];
      && i3 == AddedInodes(i2, c, up, NewInode([DOT, DOT], true).(first := h), [h2])
    ensures i3 == WithDir(f, h, name).inodes
  {
    assert f.dirs[h].inode in f.inodes.Keys;
    hide NewInode, Bounded;
  }

  lemma DirEntriesBuilt(f: Fs, h: Ptr, name: seq<byte>, e1: map<Ptr, Entry>, e3: map<Ptr, Entry>)
    requires Bounded(f) && HasTail(f, h) && NameFits(name)
    requires var c, h2, dot, up := f.brk, f.brk + 2, f.brk + 3, f.brk + 4;
      && e1 == AddedEntries(f.entries, c, f.dirs[h].list)
      && e3 == AddedEntries(e1[h2 := Entry(true, dot, 0)], up, [h2])
    ensures e3 == WithDir(f, h, name).entries
  {
    assert f.dirs[h].list[|f.dirs[h].list| - 1] in f.entries.Keys;
    hide NewInode, Bounded;
  }

  /** `g` is `f` with a directory, when its inodes and entries are. */
  lemma DirBuilt(f: Fs, h: Ptr, name: seq<byte>, g: Fs)
    requires HasTail(f, h) && NameFits(name)
    requires var c, h2, dot, up := f.brk, f.brk + 2, f.brk + 3, f.brk + 4;
      var l := f.dirs[h].list;
      && g.dirs == f.dirs[h := f.dirs[h].(list := l + [c + 1])][h2 := Dir(c, h, [h2, up + 1])]
      && g.home == f.home[c := Place(h, |l|)][dot := Place(h2, 0)][up := Place(h2, 1)]
    requires g.nodes == f.nodes && g.chains == f.chains && g.owner == f.owner && g.brk == f.brk + 6
    requires g.inodes == WithDir(f, h, name).inodes && g.entries == WithDir(f, h, name).entries
    ensures g == WithDir(f, h, name)
  {
  }

  lemma FileBuilt(f: Fs, h: Ptr, name: seq<byte>, kind: byte, ops: nat, i1: map<Ptr, Inode>, g: Fs)
    requires Bounded(f) && HasTail(f, h) && NameFits(name) && f.inodes[f.dirs[h].inode].first == h
    requires var c := f.brk;
      var l := f.dirs[h].list;
      && i1 == AddedInodes(f.inodes, f.dirs[h].inode, c, NewInode(name, false), l)
      && g.inodes == i1[c := i1[c].(kind := kind, ops := ops)]
      && g.entries == AddedEntries(f.entries, c, l)
      && g.dirs == f.dirs[h := f.dirs[h].(list := l + [c + 1])]
      && g.home == f.home[c := Place(h, |l|)]
      && g.chains == f.chains[c := []]
    requires g.nodes == f.nodes && g.owner == f.owner && g.brk == f.brk + 2
    ensures g == WithFile(f, h, name, kind, ops)
  {
    assert f.dirs[h].inode in f.inodes.Keys;
    hide NewInode, Bounded;
    assert g.inodes == WithFile(f, h, name, kind, ops).inodes;
  }

  lemma PlainFile(f: Fs, h: Ptr, name: seq<byte>, i1: map<Ptr, Inode>)
    requires HasTail(f, h) && NameFits(name) && i1 == AddedInodes(f.inodes, f.dirs[h].inode, f.brk, NewInode(name, false), f.dirs[h].list) && f.dirs[h].inode < f.brk
    ensures f.brk in i1 && i1 == i1[f.brk := i1[f.brk].(kind := 0, ops := 0)]
  {
    assert i1[f.brk] == NewInode(name, false);
  }

  lemma RootBuilt(f: Fs, g: Fs)
    requires Bounded(f)
    requires var root, h, dot, up := f.brk, f.brk + 1, f.brk + 2, f.brk + 3;
      var i2 := f.inodes[root := Inode(Zeros(NAME_SIZE), 0, false, 0, 0, h, 0)][dot := NewInode([DOT], true).(first := h, count := 2)];
      var i3 := AddedInodes(i2, root, up, NewInode([DOT, DOT], true).(first := h), [h]);
      && g.inodes == i3[root := i3[root].(isDir := true)]
      && g.entries == AddedEntries(f.entries[h := Entry(true, dot, 0)], up, [h])
      && g.dirs == f.dirs[h := Dir(root, h, [h, up + 1])]
      && g.home == f.home[dot := Place(h, 0)][up := Place(h, 1)]
    requires g.nodes == f.nodes && g.chains == f.chains && g.owner == f.owner && g.brk == f.brk + 5
    ensures g == WithRoot(f)
  {
    hide NewInode, Bounded;
    assert g.inodes == WithRoot(f).inodes;
    assert g.entries == WithRoot(f).entries;
  }

  lemma NewThere(inodes: map<Ptr, Inode>, dir: Ptr, c: Ptr, x: Inode, l: seq<Ptr>)
    requires dir in inodes && dir != c
    ensures var i1 := AddedInodes(inodes, dir, c, x, l); c in i1 && i1[c] == x && dir in i1 && (l != [] ==> i1[dir].first == inodes[dir].first)
  {
  }

  /** The entries that a walk of `n` links passes. */
  lemma PassedLinks(f: Fs, h: Ptr, n: nat)
    requires FsOk(f) && h in f.dirs && n < |f.dirs[h].list|
    ensures forall i {:trigger EntryLink(f.entries, f.brk, f.dirs[h].list[..n + 1], i)} :: 0 <= i < n + 1 ==> EntryLink(f.entries, f.brk, f.dirs[h].list[..n + 1], i)
    ensures Walk(f, h, n) == f.dirs[h].list[n] && f.dirs[h].list[n] in f.entries
  {
    WalkAt(f, h, n);
    ListLinks(f, h);
    hide FsOk;
    forall i {:trigger EntryLink(f.entries, f.brk, f.dirs[h].list[..n + 1], i)} | 0 <= i < n + 1
      ensures EntryLink(f.entries, f.brk, f.dirs[h].list[..n + 1], i)
    {
      assert EntryLink(f.entries, f.brk, f.dirs[h].list, i);
    }
    assert EntryLink(f.entries, f.brk, f.dirs[h].list, n);
  }

  lemma DirBelow(f: Fs, d: Ptr)
    requires Bounded(f) && d in f.inodes
    ensures d < f.brk
  {
    assert d in f.inodes.Keys;
  }

  lemma ThroughIs(f: Fs, d: Ptr, name: seq<byte>, i1: map<Ptr, Inode>, e1: map<Ptr, Entry>)
    requires WalkEnds(f, d) && NameFits(name) && f.inodes[d].count < |f.dirs[f.inodes[d].first].list|
    requires var l := f.dirs[f.inodes[d].first].list; var n := f.inodes[d].count;
      && Walk(f, f.inodes[d].first, n) == l[n]
      && i1 == AddedInodes(f.inodes, d, f.brk, NewInode(name, false), l[..n + 1]) && e1 == AddedEntries(f.entries, f.brk, l[..n + 1])
    ensures Through(f, d, name) == f.(inodes := i1, entries := e1, brk := f.brk + 2)
  {
    hide NewInode, Walk;
    var l, n := f.dirs[f.inodes[d].first].list, f.inodes[d].count;
    var m := l[..n + 1];
    assert |m| == n + 1 && m[|m| - 1] == l[n];
  }

  lemma LinkParts(entries: map<Ptr, Entry>, brk: Ptr, l: seq<Ptr>)
    requires forall i {:trigger EntryLink(entries, brk, l, i)} :: 0 <= i < |l| ==> EntryLink(entries, brk, l, i)
    ensures l != [] ==> l[0] > 0 && l[|l| - 1] in entries && l[|l| - 1] < brk
  {
    assert l != [] ==> EntryLink(entries, brk, l, 0) && EntryLink(entries, brk, l, |l| - 1);
  }

  lemma OneLink(entries: map<Ptr, Entry>, brk: Ptr, h: Ptr)
    requires 0 < h < brk && h in entries && entries[h].next == 0
    ensures EntryLink(entries, brk, [h], 0)
  {
  }

  lemma LinkNext(entries: map<Ptr, Entry>, brk: Ptr, l: seq<Ptr>, k: nat)
    requires forall i {:trigger EntryLink(entries, brk, l, i)} :: 0 <= i < |l| ==> EntryLink(entries, brk, l, i)
    requires k + 1 < |l|
    ensures l[k] in entries && l[k] < brk && entries[l[k]].next == l[k + 1]
  {
    assert EntryLink(entries, brk, l, k);
  }

  class FileSystem {
    var inodes: map<Ptr, Inode>
    var entries: map<Ptr, Entry>
    var nodes: map<Ptr, FileNode>
    var brk: Ptr
    ghost var dirs: map<Ptr, Dir>
    ghost var home: map<Ptr, Place>
    ghost var chains: map<Ptr, seq<Ptr>>
    ghost var owner: map<Ptr, Place>

    ghost function Now(): Fs
      reads this
    {
      Fs(inodes, entries, nodes, brk, dirs, home, chains, owner)
    }

    constructor ()
      ensures Now() == EMPTY
    {
      inodes, entries, nodes, brk := map[], map[], map[], 1;
      dirs, home, chains, owner := map[], map[], map[], map[];
    }

    /** The next address; what is stored there first is zero. */
    method Malloc() returns (p: Ptr)
      modifies `brk
      ensures p == old(brk) && brk == old(brk) + 1
    {
      p := brk;
      brk := brk + 1;
    }

    ghost predicate IsFile(c: Ptr)
      reads this
    {
      c in inodes && c in chains
    }

    // ----- directories --------------------------------------------------------------

    /** `tempfs_addentry`: `l` are the entries that the walk of `num_entries` links passes; the new one goes after the last of them. */
    method AddEntry(dir: Ptr, dirname: seq<byte>, isDir: bool, ghost l: seq<Ptr>) returns (c: Ptr)
      requires dir in inodes && dir < brk
      requires inodes[dir].first == if l == [] then 0 else l[0]
      requires l != [] ==> inodes[dir].count + 1 == |l|
      requires forall i {:trigger EntryLink(entries, brk, l, i)} :: 0 <= i < |l| ==> EntryLink(entries, brk, l, i)
      requires Terminated(dirname) && NameFits(Str(dirname))
      modifies `inodes, `entries, `brk
      ensures c == old(brk) && brk == c + 2
      ensures inodes == AddedInodes(old(inodes), dir, c, NewInode(Str(dirname), isDir), l)
      ensures entries == AddedEntries(old(entries), c, l)
    {
      hide AddedInodes, AddedEntries, NewInode, EntryLink, Terminated;
      ghost var inodes0, entries0 := inodes, entries;
      LinkParts(entries, brk, l);
      c := Malloc();
      var e := Malloc();
      entries := entries[e := Entry(false, 0, 0)];
      inodes := inodes[c := Inode(Zeros(NAME_SIZE), 0, false, 0, 0, 0, 0)];
      LinksStay(entries0, entries, c, brk, l);
      LinkLast(dir, e, l);
      var n := StrLen(dirname);
      assert n == |Str(dirname)| && n < NAME_SIZE;
      inodes := inodes[c := inodes[c].(name := dirname[..n] + Zeros(NAME_SIZE)[n..])];
      inodes := inodes[c := inodes[c].(isDir := isDir)];
      entries := entries[e := entries[e].(inode := c)];
      inodes := inodes[dir := inodes[dir].(count := inodes[dir].count + 1)];
      EntriesAdded(entries0, entries, c, l);
      InodesAdded(inodes0, inodes, dir, c, Str(dirname), isDir, l);
    }

    /** The walk of `tempfs_addentry` to the last entry of `l`, and the link put there. */
    method LinkLast(dir: Ptr, e: Ptr, ghost l: seq<Ptr>)
      requires dir in inodes && inodes[dir].first == if l == [] then 0 else l[0]
      requires l != [] ==> inodes[dir].count + 1 == |l|
      requires forall i {:trigger EntryLink(entries, brk, l, i)} :: 0 <= i < |l| ==> EntryLink(entries, brk, l, i)
      modifies `inodes, `entries
      ensures l != [] ==> l[|l| - 1] in old(entries) && inodes == old(inodes) && entries == old(entries)[l[|l| - 1] := old(entries)[l[|l| - 1]].(next := e)]
      ensures l == [] ==> entries == old(entries) && inodes == old(inodes)[dir := old(inodes)[dir].(first := e)]
    {
      hide EntryLink;
      LinkParts(entries, brk, l);
      var thisEntry := inodes[dir].first;
      if thisEntry != 0 {
        var k := 0;
        while k < inodes[dir].count
          invariant inodes == old(inodes) && entries == old(entries)
          invariant 0 <= k <= inodes[dir].count && thisEntry == l[k]
        {
          LinkNext(entries, brk, l, k);
          thisEntry := entries[thisEntry].next;
          k := k + 1;
        }
        entries := entries[thisEntry := entries[thisEntry].(next := e)];
      } else {
        inodes := inodes[dir := inodes[dir].(first := e)];
      }
    }

    /** `tempfs_mkdir_nonlinear`: a directory entry that shares the list of `first`. */
    method MkdirNonlinear(dir: Ptr, dirname: seq<byte>, first: Ptr, ghost l: seq<Ptr>) returns (c: Ptr)
      requires dir in inodes && dir < brk && l != []
      requires inodes[dir].first == l[0] && inodes[dir].count + 1 == |l|
      requires forall i {:trigger EntryLink(entries, brk, l, i)} :: 0 <= i < |l| ==> EntryLink(entries, brk, l, i)
      requires Terminated(dirname) && NameFits(Str(dirname))
      modifies `inodes, `entries, `brk
      ensures c == old(brk) && brk == c + 2
      ensures inodes == AddedInodes(old(inodes), dir, c, NewInode(Str(dirname), true).(first := first), l)
      ensures entries == AddedEntries(old(entries), c, l)
    {
      c := AddEntry(dir, dirname, true, l);
      inodes := inodes[c := inodes[c].(first := first)];
    }

    /** `tempfs_new`: a file system of its own, beside the ones there are. */
    method New() returns (root: Ptr)
      requires FsOk(Now())
      modifies this
      ensures Now() == WithRoot(old(Now())) && FsOk(Now()) && root == old(brk) && IsRoot(Now(), root)
    {
      hide FsOk, Bounded, AddedInodes, AddedEntries, WithRoot, NewInode;
      ghost var f := Now();
      BoundedOf(f);
      root := Malloc();
      var h := Malloc();
      var dot := Malloc();
      inodes := inodes[root := Inode(Zeros(NAME_SIZE), 0, false, 0, 0, h, 0)];
      entries := entries[h := Entry(true, dot, 0)];
      inodes := inodes[dot := NewInode([DOT], true).(first := h, count := 2)];
      UpName();
      assert EntryLink(entries, brk, [h], 0);
      var up := MkdirNonlinear(root, UP_NAME, h, [h]);
      NewThere(f.inodes[root := Inode(Zeros(NAME_SIZE), 0, false, 0, 0, h, 0)][dot := NewInode([DOT], true).(first := h, count := 2)], root, up, NewInode([DOT, DOT], true).(first := h), [h]);
      inodes := inodes[root := inodes[root].(isDir := true)];
      dirs := dirs[h := Dir(root, h, [h, up + 1])];
      home := home[dot := Place(h, 0)][up := Place(h, 1)];
      RootBuilt(f, Now());
      WithRootOk(f, Now());
    }

    /** `tempfs_mkdir`. */
    method Mkdir(dir: Ptr, dirname: seq<byte>)
      requires FsOk(Now()) && Canonical(Now(), dir) && Terminated(dirname) && NameFits(Str(dirname))
      requires Lookup(Now(), inodes[dir].first, Str(dirname)) == 0
      modifies this
      ensures HasTail(old(Now()), old(inodes[dir]).first)
      ensures Now() == WithDir(old(Now()), old(inodes[dir]).first, Str(dirname)) && FsOk(Now())
    {
      hide FsOk, Bounded, AddedInodes, AddedEntries, WithDir, NewInode, NameFits, HasTail, Terminated, Lookup, EntryLink, Str, UP_NAME;
      ghost var f := Now();
      ghost var h := inodes[dir].first;
      ghost var l := dirs[h].list;
      BoundedOf(f);
      ListLinks(f, h);
      UpName();
      var c := AddEntry(dir, dirname, true, l);
      ghost var inodes1, entries1 := inodes, entries;
      NewThere(f.inodes, dir, c, NewInode(Str(dirname), true), l);
      var h2 := Malloc();
      var dot := Malloc();
      inodes := inodes[c := inodes[c].(first := h2)];
      entries := entries[h2 := Entry(true, dot, 0)];
      inodes := inodes[dot := NewInode([DOT], true).(first := h2, count := 2)];
      OneLink(entries, brk, h2);
      var up := MkdirNonlinear(c, UP_NAME, inodes[dir].first, [h2]);
      dirs := dirs[h := dirs[h].(list := l + [c + 1])][h2 := Dir(c, h, [h2, up + 1])];
      home := home[c := Place(h, |l|)][dot := Place(h2, 0)][up := Place(h2, 1)];
      DirInodesBuilt(f, h, Str(dirname), inodes1, inodes);
      DirEntriesBuilt(f, h, Str(dirname), entries1, entries);
      DirBuilt(f, h, Str(dirname), Now());
      WithDirOk(f, h, Str(dirname), Now());
    }

    /** `tempfs_mkfile`, through any inode that lists a directory and whose count does not lead past the end of its list. */
    method Mkfile(dir: Ptr, filename: seq<byte>)
      requires FsOk(Now()) && WalkEnds(Now(), dir) && Terminated(filename) && NameFits(Str(filename))
      modifies this
      ensures Canonical(old(Now()), dir) && Lookup(old(Now()), old(inodes[dir]).first, Str(filename)) == 0 ==>
        HasTail(old(Now()), old(inodes[dir]).first) && Now() == WithFile(old(Now()), old(inodes[dir]).first, Str(filename), 0, 0) && FsOk(Now())
      ensures !(Canonical(old(Now()), dir) && Lookup(old(Now()), old(inodes[dir]).first, Str(filename)) == 0) ==> Now() == Through(old(Now()), dir, Str(filename))
    {
      hide FsOk, Bounded, AddedInodes, AddedEntries, WithFile, NewInode, NameFits, HasTail, Terminated, Lookup, Through;
      ghost var f := Now();
      ghost var h := inodes[dir].first;
      ghost var n := inodes[dir].count;
      ghost var l := dirs[h].list;
      BoundedOf(f);
      EndsInside(f, dir);
      ListLinks(f, h);
      PassedLinks(f, h, n);
      assert dir in f.inodes.Keys;
      DirBelow(f, dir);
      var c := AddEntry(dir, filename, false, l[..n + 1]);
      ThroughIs(f, dir, Str(filename), inodes, entries);
      assert Now() == Through(f, dir, Str(filename));
      if Canonical(f, dir) && Lookup(f, h, Str(filename)) == 0 {
        assert l[..n + 1] == l;
        dirs := dirs[h := dirs[h].(list := l + [c + 1])];
        home := home[c := Place(h, |l|)];
        chains := chains[c := []];
        PlainFile(f, h, Str(filename), inodes);
        FileBuilt(f, h, Str(filename), 0, 0, inodes, Now());
        WithFileOk(f, h, Str(filename), 0, 0, Now());
      }
    }

    /** `tempfs_create_device`. */
    method CreateDevice(dir: Ptr, devname: seq<byte>, ops: nat)
      requires FsOk(Now()) && Canonical(Now(), dir) && Terminated(devname) && NameFits(Str(devname))
      requires Lookup(Now(), inodes[dir].first, Str(devname)) == 0
      modifies this
      ensures HasTail(old(Now()), old(inodes[dir]).first)
      ensures Now() == WithFile(old(Now()), old(inodes[dir]).first, Str(devname), DEVICE, ops) && FsOk(Now())
    {
      hide FsOk, Bounded, AddedInodes, AddedEntries, WithFile, NewInode, NameFits, HasTail, Terminated;
      ghost var f := Now();
      ghost var h := inodes[dir].first;
      ghost var l := dirs[h].list;
      BoundedOf(f);
      ListLinks(f, h);
      var c := AddEntry(dir, devname, false, l);
      ghost var inodes1 := inodes;
      NewThere(f.inodes, dir, c, NewInode(Str(devname), false), l);
      inodes := inodes[c := inodes[c].(kind := DEVICE, ops := ops)];
      dirs := dirs[h := dirs[h].(list := l + [c + 1])];
      home := home[c := Place(h, |l|)];
      chains := chains[c := []];
      FileBuilt(f, h, Str(devname), DEVICE, ops, inodes1, Now());
      WithFileOk(f, h, Str(devname), DEVICE, ops, Now());
    }

    /** `tempfs_find`: the inode under that name, or null when the directory has none. */
    method Find(dir: Ptr, dirname: seq<byte>) returns (c: Ptr)
      requires FsOk(Now()) && Lists(Now(), dir) && Terminated(dirname)
      ensures c == Lookup(Now(), inodes[dir].first, Str(dirname))
    {
      ghost var f := Now();
      ghost var h := inodes[dir].first;
      ghost var l := dirs[h].list;
      ghost var k := 0;
      var thisEntry := inodes[dir].first;
      ListLinks(f, h);
      SlotParts(f, h, 0);
      var thisInode := entries[thisEntry].inode;
      assert EntryLink(entries, brk, l, 0);
      while thisEntry != 0
        invariant 0 <= k <= |l| && thisEntry == (if k < |l| then l[k] else 0)
        invariant k < |l| ==> thisEntry > 0 && thisInode == At(f, h, k)
        invariant forall i :: 0 <= i < k ==> NameOf(f, At(f, h, i)) != Str(dirname)
        decreases |l| - k
      {
        hide FsOk;
        SlotParts(f, h, k);
        SlotName(f, h, k);
        var same := StrCmp(inodes[thisInode].name, dirname);
        if same {
          Shape(f, h);
          SlotIs(f, h, k);
          return entries[thisEntry].inode;
        }
        assert entries[thisEntry].next == NextIn(l, k);
        if k + 1 < |l| {
          SlotParts(f, h, k + 1);
        }
        thisEntry := entries[thisEntry].next;
        k := k + 1;
        if thisEntry != 0 {
          SlotParts(f, h, k);
          thisInode := entries[thisEntry].inode;
        }
      }
      return thisEntry;
    }

    // ----- files --------------------------------------------------------------------

    /** What a fresh file node holds before it is written: nothing is known about it. */
    method Stale() returns (d: seq<byte>)
      ensures |d| == CHUNK
    {
      d := Zeros(CHUNK);
    }

    /** Links a new node after the last of a file's chain. */
    method AddNode(ghost file: Ptr, last: Ptr) returns (d: seq<byte>)
      requires file in chains && |chains[file]| > 0 && last == chains[file][|chains[file]| - 1] && last in nodes
      modifies this
      ensures |d| == CHUNK && Now() == Extended(old(Now()), file, d)
    {
      d := Stale();
      var p := Malloc();
      nodes := nodes[last := nodes[last].(next := p)];
      nodes := nodes[p := FileNode(d, 0)];
      owner := owner[p := Place(file, |chains[file]|)];
      chains := chains[file := chains[file] + [p]];
    }

    /** Copies bytes to the start of node `k` of a file's chain. */
    method CopyIn(ghost file: Ptr, node: Ptr, ghost k: nat, bytes: seq<byte>)
      requires file in chains && k < |chains[file]| && node == chains[file][k] && node in nodes && |bytes| <= |nodes[node].data|
      modifies this
      ensures Now() == Filled(old(Now()), file, k, bytes)
    {
      nodes := nodes[node := nodes[node].(data := bytes + nodes[node].data[|bytes|..])];
    }

    /** The start of `tempfs_write`: the length, and a first node when there is none. */
    method SetLength(file: Ptr, len: nat) returns (d: seq<byte>)
      requires file in inodes
      modifies this
      ensures |d| == CHUNK && Now() == Started(old(Now()), file, len, d)
    {
      d := Stale();
      inodes := inodes[file := inodes[file].(length := len)];
      if inodes[file].first == 0 {
        var p := Malloc();
        nodes := nodes[p := FileNode(d, 0)];
        inodes := inodes[file := inodes[file].(first := p)];
        chains := chains[file := [p]];
        owner := owner[p := Place(file, 0)];
      }
    }

    /** One pass of the loop of `tempfs_write`: a node is added when this is the last one, and the next share is copied. */
    method WriteShare(ghost f: Fs, ghost file: Ptr, node: Ptr, data: seq<byte>, len: nat, i: nat, lenLeft: int, ghost k: nat) returns (next: Ptr)
      requires len <= |data| && i == 4088 * k < len && lenLeft == len - i
      requires Writing(f, Now(), file, data[..len], k, k)
      requires file in chains && k < |chains[file]| && node == chains[file][k]
      modifies this
      ensures Writing(f, Now(), file, data[..len], k + 1, k + 1)
      ensures file in chains && k + 1 < |chains[file]| && next == chains[file][k + 1]
    {
      hide Writing, LinkOk, Extended, Filled, Amount, Chunks;
      ghost var bytes := data[..len];
      LinkThere(f, Now(), file, bytes, k, k, k);
      Share(data, len, k);
      ChainEnd(f, Now(), file, bytes, k);
      if nodes[node].next == 0 {
        ghost var g := Now();
        var d := AddNode(file, node);
        ExtendStep(f, g, file, bytes, k, d, Now());
      }
      LinkThere(f, Now(), file, bytes, k, k + 1, k);
      ghost var g := Now();
      var amountToCopy := if lenLeft > CHUNK then CHUNK else lenLeft;
      assert amountToCopy == Amount(len, k);
      CopyIn(file, node, k, data[i..i + amountToCopy]);
      FillStep(f, g, file, bytes, k, Now());
      LinkThere(f, Now(), file, bytes, k + 1, k + 1, k);
      next := nodes[node].next;
    }

    /** `tempfs_write`. */
    method Write(file: Ptr, data: seq<byte>, len: nat) returns (r: Outcome)
      requires FsOk(Now()) && IsFile(file) && len <= |data|
      modifies this
      ensures old(inodes[file]).kind == DEVICE ==> r == Device(old(inodes[file]).ops) && Now() == old(Now())
      ensures old(inodes[file]).kind != DEVICE ==> r == Done && FsOk(Now()) && Wrote(old(Now()), Now(), file, data[..len])
    {
      hide FsOk, Writing, Wrote, LinkOk, Extended, Filled, Amount, Chunks, Started;
      if inodes[file].kind == DEVICE { return Device(inodes[file].ops); }
      ghost var f := Now();
      ghost var bytes := data[..len];
      ChainStart(f, file);
      var d := SetLength(file, len);
      StartWrite(f, file, bytes, d, Now());
      var thisNode := inodes[file].first;
      var lenLeft: int := len;
      ghost var k := 0;
      var i := 0;
      while i < len
        invariant i == 4088 * k && lenLeft == len - i && k <= Chunks(len)
        invariant Writing(f, Now(), file, bytes, k, k)
        invariant file in chains && k < |chains[file]| && thisNode == chains[file][k]
      {
        Share(data, len, k);
        thisNode := WriteShare(f, file, thisNode, data, len, i, lenLeft, k);
        lenLeft := lenLeft - CHUNK;
        k := k + 1;
        i := i + CHUNK;
      }
      Finished(len, k);
      FinishWrite(f, Now(), file, bytes);
      return Done;
    }

    /** `tempfs_read`: it stops at the end of the chain. */
    method Read(file: Ptr, buffer: array<byte>, maxLen: nat) returns (r: Outcome)
      requires FsOk(Now()) && IsFile(file) && maxLen <= buffer.Length
      modifies buffer
      ensures inodes[file].kind == DEVICE ==> r == Device(inodes[file].ops) && buffer[..] == old(buffer[..])
      ensures inodes[file].kind != DEVICE ==> r == Done && buffer[..] == ReadInto(old(buffer[..]), nodes, chains[file], maxLen)
    {
      hide FsOk, ReadInto, FullNode, Amount;
      if inodes[file].kind == DEVICE { return Device(inodes[file].ops); }
      ghost var f := Now();
      ghost var b := buffer[..];
      ghost var l := chains[file];
      ghost var k := 0;
      FirstNode(f, file);
      ReadNothing(b, nodes, l, maxLen);
      var thisNode := inodes[file].first;
      var lenLeft: int := maxLen;
      var i := 0;
      while i < maxLen && thisNode != 0
        invariant i == 4088 * k && lenLeft == maxLen - i && k <= |l| && |Data(nodes, l[..k])| == i
        invariant thisNode == if k < |l| then l[k] else 0
        invariant buffer[..] == ReadInto(b, nodes, l[..k], maxLen)
        decreases |l| - k
      {
        FileNodeOf(f, file, k);
        NodeData(nodes, l[k]);
        ReadStep(b, nodes, l, maxLen, k);
        var amountToCopy := if lenLeft > CHUNK then CHUNK else lenLeft;
        MemCpy(buffer, i, nodes[thisNode].data[..amountToCopy]);
        thisNode := nodes[thisNode].next;
        lenLeft := lenLeft - CHUNK;
        i := i + CHUNK;
        k := k + 1;
      }
      if k < |l| {
        FileNodeOf(f, file, k);
        ReadEnough(b, nodes, l, maxLen, k);
      } else {
        assert l[..k] == l;
      }
      return Done;
    }

    /** `tempfs_length`. */
    method Length(file: Ptr) returns (n: nat)
      requires FsOk(Now()) && IsFile(file)
      ensures n == |Contents(Now(), file)|
    {
      ContentsLength(Now(), file);
      n := inodes[file].length;
    }

    /** `tempfs_open_dir`: null for what is not a directory. */
    method OpenDir(dir: Ptr) returns (d: Ptr)
      requires dir in inodes
      ensures d == if inodes[dir].isDir then dir else 0
    {
      if inodes[dir].isDir { d := dir; } else { d := 0; }
    }

    /** `tempfs_open_file`: null for a directory; a device is told. */
    method OpenFile(file: Ptr) returns (c: Ptr, r: Outcome)
      requires file in inodes
      ensures c == if inodes[file].kind == DEVICE || !inodes[file].isDir then file else 0
      ensures r == if inodes[file].kind == DEVICE then Device(inodes[file].ops) else Done
    {
      if inodes[file].kind == DEVICE { return file, Device(inodes[file].ops); }
      if !inodes[file].isDir { return file, Done; } else { return 0, Done; }
    }
  }

  lemma FirstNode(f: Fs, c: Ptr)
    requires FsOk(f) && c in f.chains
    ensures c in f.inodes && f.inodes[c].first == if f.chains[c] == [] then 0 else f.chains[c][0]
  {
    ChainStart(f, c);
  }

  lemma NodeData(nodes: map<Ptr, FileNode>, p: Ptr)
    requires FullNode(nodes, p)
    ensures p in nodes && |nodes[p].data| == CHUNK
  {
  }

  lemma ReadNothing(buffer: seq<byte>, nodes: map<Ptr, FileNode>, l: seq<Ptr>, n: nat)
    ensures l[..0] == [] && Data(nodes, l[..0]) == [] && ReadInto(buffer, nodes, l[..0], n) == buffer
  {
  }

  lemma Finished(n: nat, k: nat)
    requires k <= Chunks(n) && n <= 4088 * k
    ensures k == Chunks(n)
  {
  }

  lemma UpName()
    ensures Terminated(UP_NAME) && Str(UP_NAME) == [DOT, DOT] && NameFits([DOT]) && NameFits([DOT, DOT])
  {
    assert UP_NAME == [DOT, DOT] + [0];
    StrOf([DOT, DOT], [0]);
  }

  lemma SlotName(f: Fs, h: Ptr, i: nat)
    requires h in f.dirs && SlotOk(f, h, i)
    ensures At(f, h, i) in f.inodes && Terminated(f.inodes[At(f, h, i)].name)
    ensures f.dirs[h].list[i] in f.entries && f.entries[f.dirs[h].list[i]].next == NextIn(f.dirs[h].list, i)
  {
    hide KindOk;
  }

  /** The list of a directory, link by link. */
  lemma ListLinks(f: Fs, h: Ptr)
    requires FsOk(f) && h in f.dirs
    ensures HasTail(f, h) && f.inodes[f.dirs[h].inode].first == h == f.dirs[h].list[0] && f.inodes[f.dirs[h].inode].count + 1 == |f.dirs[h].list|
    ensures |f.dirs[h].list| >= 2 && 0 < f.dirs[h].inode < f.brk
    ensures forall i {:trigger EntryLink(f.entries, f.brk, f.dirs[h].list, i)} :: 0 <= i < |f.dirs[h].list| ==> EntryLink(f.entries, f.brk, f.dirs[h].list, i)
  {
    Tail(f, h);
    BoundedOf(f);
    assert f.dirs[h].inode in f.inodes.Keys;
    hide FsOk;
    forall i | 0 <= i < |f.dirs[h].list|
      ensures EntryLink(f.entries, f.brk, f.dirs[h].list, i)
    {
      SlotParts(f, h, i);
      hide KindOk;
      assert SlotOk(f, h, i);
    }
  }
}
