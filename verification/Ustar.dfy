/**
Unpacking the initial ramdisk (src/fs/ustar.c).
*/
module Ustar {
  import opened Bytes
  import opened CStrings
  import opened TempFsModel
  import opened TempFsSteps
  import opened TempFsContents
  import opened TempFsTree
  import opened VfsPaths
  import opened VfsWalk
  import opened Vfs
  import opened UstarModel

  const O_CREATALL: nat := 2

  function MemberPath(drive: byte, name: seq<byte>): seq<byte> {
    [drive, COLON, SLASH] + name
  }

  lemma PathOfMember(drive: byte, name: seq<byte>, cd: seq<byte>)
    requires NoZero(name) && |cd| > 0 && drive != 0
    ensures var p := MemberPath(drive, name); |p| >= 3 && NoZero(p) && p[0] == drive && p[3..] == name && Absolute(p, cd) == p
  {
  }

  /** What the loop reads in a member's header. */
  lemma MemberReads(archive: seq<byte>, addr: nat, ms: seq<Member>, i: nat, tail: seq<byte>)
    requires addr <= |archive| && Reads(archive[addr..], ms, i, tail) && i < |ms| && MemberOk(ms[i])
    ensures addr + 512 + |ms[i].body| <= |archive| && addr + |Block(ms[i])| <= |archive|
    ensures archive[addr + 257..addr + 262] == MAGIC && archive[addr + 156] == ms[i].header[156]
    ensures Int32(Octal(archive[addr + 124..addr + 135])) == |ms[i].body|
    ensures archive[addr + 512..][..|ms[i].body|] == ms[i].body
    ensures Terminated(archive[addr..]) && Str(archive[addr..]) == NameOfMember(ms[i])
    ensures Reads(archive[addr + |Block(ms[i])|..], ms, i + 1, tail)
    ensures |Block(ms[i])| == ((|ms[i].body| + 511) / 512 + 1) * 512
  {
    var a, m := archive[addr..], ms[i];
    ReadsNext(a, ms, i, tail);
    hide Reads;
    HeaderReads(a, m);
    NameReads(a, m);
    SizeFieldReads(|m.body|);
    hide MemberOk, Block, Octal;
    assert a[257..262] == archive[addr + 257..addr + 262];
    assert a[124..135] == archive[addr + 124..addr + 135];
    assert a[512..512 + |m.body|] == archive[addr + 512..][..|m.body|];
    assert a[|Block(m)|..] == archive[addr + |Block(m)|..];
  }

  /** Where the loop stops. */
  lemma EndRead(archive: seq<byte>, addr: nat, ms: seq<Member>, tail: seq<byte>)
    requires addr <= |archive| && Reads(archive[addr..], ms, |ms|, tail) && EndsArchive(tail)
    ensures addr + 262 <= |archive| && archive[addr + 257..addr + 262] != MAGIC
  {
    EndReads(archive[addr..], ms, tail);
    assert archive[addr..][257..262] == archive[addr + 257..addr + 262];
  }

  /** What opening a member's path gives. */
  lemma MemberOpened(drives: seq<Drive>, g: Fs, g1: Fs, p: seq<byte>, names: Path, mode: nat, r: Opened)
    requires FsOk(g) && Reach(drives, p) && OpenSpec(drives, g, g1, p, O_CREATALL, mode, r) && ForFile(p) && names == NamesOf(p)
    requires Resolve(g, RootOf(drives, p), names) != 0 ==> Regular(g, Resolve(g, RootOf(drives, p), names))
    requires PlainPath(names)
    ensures var c := Resolve(g1, RootOf(drives, p), names);
      && c != 0 && r == Handle(File(p[0], mode, c)) && Regular(g1, c) && Preserved(g, g1)
      && (TreeGrown(g, g1, RootOf(drives, p), names) || g1 == g)
      && (Resolve(g, RootOf(drives, p), names) != 0 ==> g1 == g)
  {
    PreservedSelf(g);
    FirstAddress(g);
    hide FsOk, Resolve, Preserved, TreeGrown, Contents, NamesOf, ForFile, PlainPath;
    assert CreatAll(O_CREATALL);
  }

  lemma RootsWritten(f: Fs, g: Fs, c: Ptr, data: seq<byte>)
    requires Wrote(f, g, c, data)
    ensures RootsKept(f, g)
  {
    hide NodesKept, Contents;
  }

  lemma RegularParts(g: Fs, c: Ptr)
    requires Regular(g, c)
    ensures c in g.inodes && c in g.chains && g.inodes[c].kind != DEVICE
  {
  }

  lemma NamesArePlain(f: Fs, root: Ptr, ms: seq<Member>, i: nat)
    requires Unpackable(f, root, ms) && i < |ms|
    ensures MemberOk(ms[i]) && |ms[i].header| == 512 && (!IsDirectory(ms[i]) ==> PlainPath(NamesOfMember(ms[i])))
    ensures IsDirectory(ms[i]) <==> ms[i].header[156] == DIRECTORY
  {
    hide RoomFor, NoClash;
    assert MemberOk(ms[i]);
  }

  /**
  `unpack_ustar`: it visits exactly the headers of the members, stops at the first block
  without the magic, and leaves every file path leading to the contents of its last entry.
  */
  method Unpack(v: Vfs, drive: byte, archive: seq<byte>, ghost ms: seq<Member>, ghost tail: seq<byte>) returns (ok: bool, ghost visited: seq<nat>)
    requires v.Valid() && DriveLetter(drive) && v.drives[drive - 65].present
    requires archive == Archive(ms) + tail && EndsArchive(tail)
    requires Unpackable(v.fs.Now(), v.drives[drive - 65].root, ms)
    modifies v.fs
    ensures ok && v.Valid() && TreeIs(old(v.fs.Now()), v.fs.Now(), v.drives[drive - 65].root, ms, |ms|)
    ensures Visits(visited, ms, |ms|)
  {
    hide FsOk, IsRoot, TreeIs, Unpackable, Reads, EndsArchive, MemberOk, Octal, OpenSpec, Wrote, Regular, Preserved, RootsKept, Resolve, TreeGrown, Absolute, Openable, NamesOfMember, NameOfMember, Block, MemberPath, PlainPath, Offset, Visits, Int32;
    ghost var f := v.fs.Now();
    ghost var root := v.drives[drive - 65].root;
    ghost var m := 0;
    visited := [];
    VisitNone(ms);
    var addr: nat := 0;
    ReadsAll(archive, ms, tail);
    TreeStart(f, root, ms);
    EndOrHeader(f, root, archive, addr, ms, m, tail);
    var more := MemCmp(archive, addr + 257, MAGIC, 5);
    while more
      invariant m <= |ms| && addr <= |archive| && Reads(archive[addr..], ms, m, tail) && addr == Offset(ms, m)
      invariant more == (m < |ms|)
      invariant v.Valid() && FsOk(f) && IsRoot(f, root) && IsRoot(v.fs.Now(), root) && TreeIs(f, v.fs.Now(), root, ms, m)
      invariant Visits(visited, ms, m)
      decreases |ms| - m
    {
      NamesArePlain(f, root, ms, m);
      MemberReads(archive, addr, ms, m, tail);
      VisitNext(visited, ms, m);
      visited := visited + [addr];
      var filesize := Oct2Bin(archive, addr + 0x7C, 11);
      var kind := archive[addr + 156];
      if kind != DIRECTORY {
        ok := UnpackFile(v, drive, archive, addr, filesize, f, ms, m);
        if !ok { return; }
      } else {
        TreeSkips(f, v.fs.Now(), root, ms, m);
      }
      addr := addr + ((filesize + 511) / 512 + 1) * 512;
      m := m + 1;
      EndOrHeader(f, root, archive, addr, ms, m, tail);
      more := MemCmp(archive, addr + 257, MAGIC, 5);
    }
    ok := true;
  }

  /** The addresses are those of the first `m` headers, in order. */
  ghost predicate Visits(visited: seq<nat>, ms: seq<Member>, m: nat) {
    m <= |ms| && |visited| == m && forall i :: 0 <= i < m ==> visited[i] == Offset(ms, i)
  }

  lemma VisitNone(ms: seq<Member>)
    ensures Visits([], ms, 0) && Offset(ms, 0) == 0
  {
  }

  lemma VisitNext(visited: seq<nat>, ms: seq<Member>, m: nat)
    requires Visits(visited, ms, m) && m < |ms|
    ensures Visits(visited + [Offset(ms, m)], ms, m + 1) && Offset(ms, m + 1) == Offset(ms, m) + |Block(ms[m])|
  {
  }

  lemma ReadsAll(archive: seq<byte>, ms: seq<Member>, tail: seq<byte>)
    requires archive == Archive(ms) + tail
    ensures Reads(archive[0..], ms, 0, tail)
  {
    assert ms[0..] == ms;
    assert archive[0..] == archive;
  }

  /** The magic tells a member from the end. */
  lemma EndOrHeader(f: Fs, root: Ptr, archive: seq<byte>, addr: nat, ms: seq<Member>, m: nat, tail: seq<byte>)
    requires m <= |ms| && addr <= |archive| && Reads(archive[addr..], ms, m, tail) && EndsArchive(tail) && Unpackable(f, root, ms)
    ensures addr + 262 <= |archive| && (archive[addr + 257..addr + 262] == MAGIC[..5] <==> m < |ms|)
  {
    hide Reads, EndsArchive, Unpackable;
    assert MAGIC[..5] == MAGIC;
    if m < |ms| {
      NamesArePlain(f, root, ms, m);
      MemberReads(archive, addr, ms, m, tail);
    } else {
      EndRead(archive, addr, ms, tail);
    }
  }

  /** One member that is not a directory. */
  method UnpackFile(v: Vfs, drive: byte, archive: seq<byte>, addr: nat, filesize: nat, ghost f: Fs, ghost ms: seq<Member>, ghost m: nat) returns (ok: bool)
    requires v.Valid() && DriveLetter(drive) && v.drives[drive - 65].present
    requires m < |ms| && !IsDirectory(ms[m]) && Unpackable(f, v.drives[drive - 65].root, ms)
    requires FsOk(f) && IsRoot(f, v.drives[drive - 65].root) && IsRoot(v.fs.Now(), v.drives[drive - 65].root)
    requires TreeIs(f, v.fs.Now(), v.drives[drive - 65].root, ms, m)
    requires addr + 512 + filesize <= |archive| && filesize == |ms[m].body| && archive[addr + 512..][..filesize] == ms[m].body
    requires Terminated(archive[addr..]) && Str(archive[addr..]) == NameOfMember(ms[m])
    modifies v.fs
    ensures ok && v.Valid() && IsRoot(v.fs.Now(), v.drives[drive - 65].root)
    ensures TreeIs(f, v.fs.Now(), v.drives[drive - 65].root, ms, m + 1)
  {
    hide FsOk, IsRoot, TreeIs, Unpackable, OpenSpec, Wrote, Regular, Preserved, Resolve, TreeGrown, Absolute, Openable, NamesOfMember, NameOfMember, MemberPath, PlainPath, ForFile, NamesOf;
    ghost var root := v.drives[drive - 65].root;
    ghost var g := v.fs.Now();
    NamesArePlain(f, root, ms, m);
    var n := StrLen(archive[addr..]);
    var newName := MemberPath(drive, archive[addr..][..n]);
    PathOfMember(drive, archive[addr..][..n], v.currentDir);
    MemberOpens(f, g, root, ms, m, newName);
    var h, freed := v.Open(newName, O_CREATALL, MODE_WRITEONLY);
    ghost var g1 := v.fs.Now();
    MemberOpened(v.drives, g, g1, newName, NamesOfMember(ms[m]), MODE_WRITEONLY, h);
    if h.NoFile? { return false; }
    ghost var c := h.file.inode;
    RegularParts(g1, c);
    RootsStayed(g, g1, root);
    var status, out := v.Write(h.file, archive[addr + 512..], filesize);
    if status != 0 { return false; }
    RootsWritten(g1, v.fs.Now(), c, ms[m].body);
    TreeWrites(f, g, g1, v.fs.Now(), root, ms, m, c);
    return true;
  }

  lemma RootsStayed(g: Fs, g1: Fs, root: Ptr)
    requires Preserved(g, g1) && IsRoot(g, root)
    ensures IsRoot(g1, root)
  {
    hide FsOk, IsRoot, PathsKept, FilesKept, KindsKept;
  }

  // ----- the whole ramdisk ----------------------------------------------------------

  /** The contents of the last entry of a path are those of the entry that no later one repeats. */
  lemma {:induction false} LastBodyIs(ms: seq<Member>, m: nat, i: nat)
    requires i < m <= |ms| && !IsDirectory(ms[i])
    requires forall j :: i < j < m ==> !FileAt(ms, j, NamesOfMember(ms[i]))
    ensures LastBody(ms, m, NamesOfMember(ms[i])) == ms[i].body && HasFile(ms, m, NamesOfMember(ms[i]))
  {
    hide NamesOfMember;
    assert FileAt(ms, i, NamesOfMember(ms[i]));
    if i < m - 1 {
      LastBodyIs(ms, m - 1, i);
    }
  }

  /**
  The round trip: after unpacking, opening a file's path gives a file that holds the
  contents of its last entry in the archive.
  */
  lemma ReadsBack(drives: seq<Drive>, f: Fs, g: Fs, g1: Fs, root: Ptr, ms: seq<Member>, i: nat, p: seq<byte>, mode: nat, r: Opened)
    requires TreeIs(f, g, root, ms, |ms|) && FsOk(g) && i < |ms| && !IsDirectory(ms[i]) && NamesOk(ms[i])
    requires Reach(drives, p) && root == RootOf(drives, p) && p[3..] == NameOfMember(ms[i])
    requires forall j :: i < j < |ms| ==> !FileAt(ms, j, NamesOfMember(ms[i]))
    requires OpenSpec(drives, g, g1, p, 0, mode, r)
    ensures g1 == g && r.Handle? && Regular(g, r.file.inode) && Contents(g, r.file.inode) == ms[i].body
  {
    LastBodyIs(ms, |ms|, i);
    NoNull(g);
    hide FsOk, Resolve, Contents, NameFits, Names, LastBody, HasFile, Preserved, TreeGrown;
    assert Expected(f, g, root, ms, |ms|, NamesOfMember(ms[i]));
  }

  /** A new file system has room for every member. */
  lemma NewHasRoom(f: Fs, root: Ptr, m: Member)
    requires FsOk(f) && IsRoot(f, root) && |f.dirs[f.inodes[root].first].list| == 2 && PlainPath(NamesOfMember(m)) && NamesOfMember(m) != []
    ensures RoomFor(f, root, m)
  {
    hide FsOk, NamesOfMember;
    forall q {:trigger Resolve(f, root, q)} | q <= NamesOfMember(m) && Resolve(f, root, q) != 0
      ensures q == []
    {
      PlainLeaves(q, NamesOfMember(m));
      OnlyRoot(f, root, q);
    }
  }

  lemma PlainLeaves(q: Path, p: Path)
    requires q <= p && PlainPath(p)
    ensures PlainPath(q)
  {
    forall i | 0 <= i < |q| ensures Plain(q[i]) { assert q[i] == p[i]; }
  }

  lemma {:induction false} OnlyRoot(f: Fs, root: Ptr, q: Path)
    requires FsOk(f) && IsRoot(f, root) && |f.dirs[f.inodes[root].first].list| == 2 && PlainPath(q)
    ensures Resolve(f, root, q) == if q == [] then root else 0
  {
    hide FsOk;
    if q != [] {
      OnlyRoot(f, root, q[..|q| - 1]);
      if |q| == 1 {
        BareHasNothing(f, f, root, q[0]);
      } else {
        NothingAtNull(f, q[|q| - 1]);
      }
    }
  }

  lemma AllRoom(f: Fs, root: Ptr, ms: seq<Member>)
    requires FsOk(f) && IsRoot(f, root) && |f.dirs[f.inodes[root].first].list| == 2
    requires forall i {:trigger ms[i]} :: 0 <= i < |ms| ==> MemberOk(ms[i]) && (!IsDirectory(ms[i]) ==> NamesOk(ms[i]))
    requires NoClash(ms)
    ensures Unpackable(f, root, ms)
  {
    hide FsOk, IsRoot, NoClash, MemberOk, Names, RoomFor;
    forall i {:trigger ms[i]} | 0 <= i < |ms| && !IsDirectory(ms[i])
      ensures RoomFor(f, root, ms[i])
    {
      FileHasName(NameOfMember(ms[i]));
      NewHasRoom(f, root, ms[i]);
    }
  }

  /** `setup_initrd`: a new file system on drive R, with the archive's files and nothing else. */
  method SetupInitrd(v: Vfs, archive: seq<byte>, ghost ms: seq<Member>, ghost tail: seq<byte>) returns (ok: bool, root: Ptr)
    requires v.Valid()
    requires archive == Archive(ms) + tail && EndsArchive(tail) && NoClash(ms)
    requires forall i {:trigger ms[i]} :: 0 <= i < |ms| ==> MemberOk(ms[i]) && (!IsDirectory(ms[i]) ==> NamesOk(ms[i]))
    modifies v, v.fs
    ensures ok && v.Valid() && v.drives[17] == Drive(true, 0, root)
    ensures forall q {:trigger Resolve(v.fs.Now(), root, q)} :: PlainPath(q) && q != [] ==>
      var c := Resolve(v.fs.Now(), root, q);
      if HasFile(ms, |ms|, q) then Regular(v.fs.Now(), c) && Contents(v.fs.Now(), c) == LastBody(ms, |ms|, q)
      else if Under(ms, |ms|, q) then c in v.fs.Now().inodes && v.fs.Now().inodes[c].isDir
      else c == 0
  {
    hide FsOk, IsRoot, WithRoot, MemberOk, NamesOk, NoClash, EndsArchive, Unpackable, TreeIs, Resolve, HasFile, Under, Regular, Contents, LastBody, Grew;
    ghost var f := v.fs.Now();
    root := v.fs.New();
    ghost var g := v.fs.Now();
    RootMade(f, g);
    var mounted := v.Mount(82, root);
    AllRoom(g, root, ms);
    ghost var visited;
    ok, visited := Unpack(v, 82, archive, ms, tail);
    forall q {:trigger Resolve(v.fs.Now(), root, q)} | PlainPath(q) && q != []
      ensures var c := Resolve(v.fs.Now(), root, q);
        if HasFile(ms, |ms|, q) then Regular(v.fs.Now(), c) && Contents(v.fs.Now(), c) == LastBody(ms, |ms|, q)
        else if Under(ms, |ms|, q) then c in v.fs.Now().inodes && v.fs.Now().inodes[c].isDir
        else c == 0
    {
      OnlyRoot(g, root, q);
      PathExpected(g, v.fs.Now(), root, ms, q);
    }
  }

  lemma PathExpected(f: Fs, g: Fs, root: Ptr, ms: seq<Member>, q: Path)
    requires TreeIs(f, g, root, ms, |ms|) && PlainPath(q)
    ensures Expected(f, g, root, ms, |ms|, q)
  {
  }

  /** A new file system keeps the roots there are. */
  lemma RootMade(f: Fs, g: Fs)
    requires FsOk(f) && g == WithRoot(f)
    ensures RootsKept(f, g) && IsRoot(g, f.brk) && |g.dirs[g.inodes[f.brk].first].list| == 2
  {
    WithRootOk(f, g);
    BoundedOf(f);
    RootHomes(f, g);
    assert f.brk + 1 !in f.dirs.Keys;
    hide FsOk, WithRoot, Grew;
    forall r {:trigger IsRoot(g, r)} | IsRoot(f, r)
      ensures IsRoot(g, r)
    {
      RootStays(f, g, f.brk + 1, [], f.brk, r);
    }
  }

  lemma RootHomes(f: Fs, g: Fs)
    requires g == WithRoot(f)
    ensures forall p :: p in g.home && p !in f.home ==> p >= f.brk
  {
  }
}
