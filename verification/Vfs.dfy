/**
The virtual file system: drives, and files opened by path (src/fs/vfs.c).
*/
module Vfs {
  import opened Bytes
  import opened CStrings
  import opened TempFsModel
  import opened TempFsSteps
  import opened TempFsContents
  import opened TempFsTree
  import opened TempFsThrough
  import opened VfsPaths
  import opened VfsWalk
  import TempFs

  const MODE_READONLY: nat := 1
  const MODE_WRITEONLY: nat := 2

  /** A drive letter's file system; `root` is the `mem_offset` of a TempFS. */
  datatype Drive = Drive(present: bool, fsId: nat, root: Ptr)

  datatype File = File(drive: byte, mode: nat, inode: Ptr)

  datatype Opened = NoFile | Handle(file: File)

  /** `O_CREAT` and `O_CREATALL`. */
  predicate Creat(flags: nat) {
    flags % 2 == 1
  }

  predicate CreatAll(flags: nat) {
    flags / 2 % 2 == 1
  }

  predicate DriveLetter(c: byte) {
    65 <= c <= 90
  }

  predicate Reach(drives: seq<Drive>, p: seq<byte>) {
    |drives| == 26 && |p| >= 3 && DriveLetter(p[0]) && drives[p[0] - 65].present
  }

  function RootOf(drives: seq<Drive>, p: seq<byte>): Ptr {
    if Reach(drives, p) then drives[p[0] - 65].root else 0
  }

  function NamesOf(p: seq<byte>): Path {
    if |p| >= 3 then Names(p[3..]) else []
  }

  /** Whether the path, after its drive, ends in a file's name. */
  predicate ForFile(p: seq<byte>) {
    |p| >= 3 && EndsInFile(p[3..])
  }

  lemma {:induction false} FileHasName(p: seq<byte>)
    requires EndsInFile(p)
    ensures Names(p) != []
  {
  }

  /** How many of the names stand for directories. */
  function Dirs(p: seq<byte>): (n: nat)
    ensures n <= |NamesOf(p)|
  {
    if ForFile(p) && |NamesOf(p)| > 0 then |NamesOf(p)| - 1 else |NamesOf(p)|
  }

  /** When a missing path is created. */
  ghost predicate MayCreate(f: Fs, root: Ptr, p: seq<byte>, flags: nat) {
    CreatAll(flags) || (Creat(flags) && ForFile(p) && Resolve(f, root, NamesOf(p)[..Dirs(p)]) != 0)
  }

  /** What a handle refers to: a directory is not opened as a file. */
  function Handled(f: Fs, c: Ptr, asFile: bool): Ptr {
    if asFile && c in f.inodes && f.inodes[c].isDir && f.inodes[c].kind != DEVICE then 0 else c
  }

  /** An empty regular file. */
  ghost predicate EmptyFile(g: Fs, c: Ptr) {
    c in g.inodes && !g.inodes[c].isDir && g.inodes[c].kind == 0 && c in g.chains && Contents(g, c) == []
  }

  /** What the callers of `open` keep to on the store `f`: only the last name may be a file's, and nothing is created under or after `.` and `..`, or with a name that does not fit. */
  ghost predicate Openable(f: Fs, root: Ptr, p: seq<byte>, flags: nat) {
    && Walkable(f, root, NamesOf(p), Dirs(p))
    && (CreatAll(flags) ==> forall k {:trigger Creatable(f, root, NamesOf(p), k)} :: 0 <= k < |NamesOf(p)| ==> Creatable(f, root, NamesOf(p), k))
    && (Creat(flags) ==> forall k {:trigger Creatable(f, root, NamesOf(p), k)} :: Dirs(p) <= k < |NamesOf(p)| ==> Creatable(f, root, NamesOf(p), k))
  }

  /** Looked up, or created: the outcome of `open` for a path that leads to a drive. */
  ghost predicate LookedUpOrCreated(f: Fs, g: Fs, root: Ptr, p: seq<byte>, flags: nat, mode: nat, r: Opened) {
    var names := NamesOf(p);
    var c := Resolve(g, root, names);
    if Resolve(f, root, names) != 0 then
      g == f && |p| > 0 && r == Handle(File(p[0], mode, Handled(g, c, ForFile(p))))
    else if MayCreate(f, root, p, flags) then
      && Preserved(f, g) && f.brk <= c && (ForFile(p) ==> EmptyFile(g, c))
      && |p| > 0 && r == Handle(File(p[0], mode, c))
      && (PlainPath(names) ==> TreeGrown(f, g, root, names))
    else g == f && r == NoFile
  }

  ghost predicate OpenSpec(drives: seq<Drive>, f: Fs, g: Fs, p: seq<byte>, flags: nat, mode: nat, r: Opened) {
    if Reach(drives, p) then LookedUpOrCreated(f, g, RootOf(drives, p), p, flags, mode, r) else g == f && r == NoFile
  }

  // ----- what a path stands for -----------------------------------------------------

  /** What opening `names` on the drive with the given letter does; `file` when no slash ends the path. */
  ghost predicate Opens(drives: seq<Drive>, f: Fs, g: Fs, drive: byte, names: Path, file: bool, flags: nat, mode: nat, r: Opened) {
    if |drives| != 26 || drive < 65 || drive > 90 || !drives[drive - 65].present then g == f && r == NoFile
    else
      var root := drives[drive - 65].root;
      var c, d := Resolve(f, root, names), Resolve(g, root, names);
      if c != 0 then
        g == f && r == Handle(File(drive, mode, if file && c in f.inodes && f.inodes[c].isDir && f.inodes[c].kind != 1 then 0 else c))
      else if flags / 2 % 2 == 1 || (flags % 2 == 1 && file && names != [] && Resolve(f, root, names[..|names| - 1]) != 0) then
        && r == Handle(File(drive, mode, d)) && f.brk <= d && Preserved(f, g) && (PlainPath(names) ==> TreeGrown(f, g, root, names))
        && (file ==> d in g.inodes && !g.inodes[d].isDir && g.inodes[d].kind == 0 && Contents(g, d) == [])
      else g == f && r == NoFile
  }

  /** What making a device at `names` on that drive does. */
  ghost predicate MakesDevice(drives: seq<Drive>, f: Fs, g: Fs, drive: byte, names: Path, file: bool, ops: nat, r: nat) {
    if |drives| != 26 || drive < 65 || drive > 90 then g == f && r == 4
    else if drives[drive - 65].fsId != 0 then g == f && r == 5
    else if !drives[drive - 65].present then g == f && r == 3
    else
      var root := drives[drive - 65].root;
      var d := Resolve(g, root, names);
      if Resolve(f, root, if file && names != [] then names[..|names| - 1] else names) == 0 then g == f && r == 2
      else if !file then g == f && r == 0
      else if Resolve(f, root, names) != 0 then g == f && r == 1
      else
        && r == 0 && f.brk <= d && Preserved(f, g) && (PlainPath(names) ==> TreeGrown(f, g, root, names))
        && d in g.inodes && !g.inodes[d].isDir && g.inodes[d].kind == 1 && g.inodes[d].ops == ops
  }

  lemma OpenedAs(drives: seq<Drive>, f: Fs, g: Fs, p: seq<byte>, flags: nat, mode: nat, r: Opened)
    requires |drives| == 26 && |p| >= 3 && OpenSpec(drives, f, g, p, flags, mode, r)
    ensures Opens(drives, f, g, p[0], Names(p[3..]), |p| > 3 && p[|p| - 1] != 47, flags, mode, r)
  {
    hide Resolve, Preserved, TreeGrown, Contents, Names, PlainPath;
    if ForFile(p) {
      FileHasName(p[3..]);
    }
  }

  lemma DeviceMadeAs(drives: seq<Drive>, f: Fs, g: Fs, p: seq<byte>, ops: nat, r: nat)
    requires |drives| == 26 && |p| >= 3 && forall i {:trigger drives[i]} :: 0 <= i < 26 && drives[i].present ==> drives[i].fsId == 0
    requires if Reach(drives, p) then DeviceMade(f, g, RootOf(drives, p), p, ops, r)
      else g == f && r == if !DriveLetter(p[0]) then 4 else if drives[p[0] - 65].fsId != 0 then 5 else 3
    ensures MakesDevice(drives, f, g, p[0], Names(p[3..]), |p| > 3 && p[|p| - 1] != 47, ops, r)
  {
    hide Resolve, Preserved, TreeGrown, Names, PlainPath;
    if ForFile(p) {
      FileHasName(p[3..]);
    } else {
      assert NamesOf(p)[..Dirs(p)] == Names(p[3..]);
    }
  }

  /** What completing a path makes of it. */
  lemma PathIs(path: seq<byte>, cd: seq<byte>)
    requires |path| > 0 && |cd| >= 3 && cd[1] == COLON && cd[2] == SLASH
    ensures var p := Absolute(path, cd);
      && |p| >= 3 && (|p| > 3 && p[|p| - 1] != 47 <==> if |path| >= 3 && path[1] == 58 && path[2] == 47 then |path| > 3 && path[|path| - 1] != 47 else path[|path| - 1] != 47)
      && (|path| >= 3 && path[1] == 58 && path[2] == 47 ==> p[0] == path[0] && p[3..] == path[3..])
      && (!(|path| >= 3 && path[1] == 58 && path[2] == 47) ==> p[0] == cd[0] && p[3..] == if path[0] == 47 then path[1..] else cd[3..] + path)
  {
  }

  /** A relative path leads where its names lead from the current directory, when that is written with a slash at its end. */
  lemma RelativePath(f: Fs, root: Ptr, cd: seq<byte>, path: seq<byte>)
    requires |cd| >= 3 && cd[|cd| - 1] == SLASH
    ensures Resolve(f, root, Names(cd[3..] + path)) == Resolve(f, Resolve(f, root, Names(cd[3..])), Names(path))
  {
    hide Resolve, Names;
    assert cd[3..] == [] || cd[3..][|cd[3..]| - 1] == SLASH;
    NamesInRow(cd[3..], path);
    ResolveAppend(f, root, Names(cd[3..]), Names(path));
  }

  // ----- the path buffer ------------------------------------------------------------

  lemma SameEnd(p: seq<byte>, n: nat)
    requires n < |p| && p[n] == SLASH
    ensures EndsInFile(p) == EndsInFile(p[n + 1..])
  {
    var q := p[n + 1..];
    if q != [] {
      assert q[|q| - 1] == p[|p| - 1];
    }
  }

  /** The last name, of a file. */
  lemma FileNameLast(p: seq<byte>)
    requires p != [] && FirstSlash(p) == |p|
    ensures Names(p) == [p] && EndsInFile(p)
  {
  }

  /** The loop that finds the end of a name in the copied path, and the zero byte put there. */
  method NextName(buf: array<byte>, at: nat, ghost rest: seq<byte>) returns (thisLen: nat, isDir: bool)
    requires NoZero(rest) && at + |rest| + 1 == buf.Length && buf[at..] == rest + [0]
    modifies buf
    ensures thisLen == FirstSlash(rest) && (isDir <==> thisLen < |rest|)
    ensures at + thisLen < buf.Length && Terminated(buf[at..]) && Str(buf[at..]) == rest[..thisLen]
    ensures isDir ==> buf[at + thisLen + 1..] == rest[thisLen + 1..] + [0]
  {
    hide FirstSlash;
    assert forall i :: 0 <= i <= |rest| ==> buf[at + i] == buf[at..][i];
    thisLen := 0;
    while buf[at + thisLen] != SLASH && buf[at + thisLen] != 0
      invariant thisLen <= |rest| && NoSlash(rest[..thisLen])
      decreases |rest| - thisLen
    {
      thisLen := thisLen + 1;
    }
    FirstSlashIs(rest, thisLen);
    isDir := buf[at + thisLen] == SLASH;
    ghost var before := buf[..];
    assert before[at..] == buf[at..];
    buf[at + thisLen] := 0;
    assert buf[..] == before[at + thisLen := 0];
    NameEnds(before, buf[..], at, thisLen, rest);
    assert buf[at..] == buf[..][at..] && buf[at + thisLen + 1..] == buf[..][at + thisLen + 1..];
  }

  /** A zero byte put behind the first `n` bytes of `rest` ends the name there and leaves what follows. */
  lemma NameEnds(b: seq<byte>, c: seq<byte>, at: nat, n: nat, rest: seq<byte>)
    requires NoZero(rest) && n <= |rest| && at + |rest| + 1 == |b| && b[at..] == rest + [0] && c == b[at + n := 0]
    ensures Terminated(c[at..]) && Str(c[at..]) == rest[..n]
    ensures n < |rest| ==> c[at + n + 1..] == rest[n + 1..] + [0]
  {
    var tail := b[at + n + 1..];
    NameSplit(b, c, at, n, rest);
    hide Terminated, Str, NoZero;
    NoZeroBefore(rest, n);
    StrOf(rest[..n], [0] + tail);
  }

  lemma NoZeroBefore(rest: seq<byte>, n: nat)
    requires NoZero(rest) && n <= |rest|
    ensures NoZero(rest[..n])
  {
  }

  lemma NameSplit(b: seq<byte>, c: seq<byte>, at: nat, n: nat, rest: seq<byte>)
    requires n <= |rest| && at + |rest| + 1 == |b| && b[at..] == rest + [0] && c == b[at + n := 0]
    ensures c[at..] == rest[..n] + ([0] + b[at + n + 1..])
    ensures n < |rest| ==> c[at + n + 1..] == rest[n + 1..] + [0]
  {
    var tail := b[at + n + 1..];
    assert tail == b[at..][n + 1..];
    assert c[at..] == b[at..][n := 0];
    assert c[at..] == rest[..n] + ([0] + tail);
    assert c[at + n + 1..] == tail;
  }

  lemma CanMake(g: Fs, cur: Ptr, name: seq<byte>)
    requires FsOk(g) && Canonical(g, cur) && Child(g, cur, name) == 0 && NameFits(name)
    ensures CanAppend(g, g.inodes[cur].first, name)
  {
    Tail(g, g.inodes[cur].first);
    hide FsOk, HasTail;
  }

  /** A path that a missing name cuts short leads nowhere. */
  lemma CutShort(f: Fs, root: Ptr, names: Path, k: nat)
    requires FsOk(f) && k < |names| && Resolve(f, root, names[..k + 1]) == 0
    ensures Resolve(f, root, names) == 0 && forall j :: k < j <= |names| ==> Resolve(f, root, names[..j]) == 0
  {
    hide FsOk, Resolve;
    assert names[..|names|] == names;
    forall j | k < j <= |names|
      ensures Resolve(f, root, names[..j]) == 0
    {
      if Resolve(f, root, names[..j]) != 0 {
        PrefixThere(f, root, names[..k + 1], names[..j]);
      }
    }
  }

  lemma MadeFile(f: Fs, g: Fs, x: Fs, root: Ptr, names: Path, k: nat, cur: Ptr, kind: byte, ops: nat)
    requires WalkState(f, g, root, names, k, cur) && k + 1 == |names| && Creatable(f, root, names, k) && Child(g, cur, names[k]) == 0
    requires CanAppend(g, g.inodes[cur].first, names[k]) && x == WithFile(g, g.inodes[cur].first, names[k], kind, ops)
    ensures Resolve(f, root, names) == 0 && Preserved(f, x) && Resolve(x, root, names) == g.brk && f.brk <= g.brk
    ensures (PlainPath(names) ==> TreeGrown(f, x, root, names)) && NewFile(x, g.brk, kind)
    ensures Lists(x, cur) && Child(x, cur, names[k]) == g.brk
  {
    hide FsOk, Child, Resolve, IsRoot, NameFits, TreeGrown, PathsKept, FilesKept, RootsKept, WithFile, Lookup, Grew, HasTail;
    FileGrows(g, g.inodes[cur].first, names[k], kind, ops, x);
    WalkMade(f, g, x, root, names, k, cur);
    assert names[..k + 1] == names;
  }

  lemma NewFileIsEmpty(x: Fs, c: Ptr)
    requires NewFile(x, c, 0)
    ensures EmptyFile(x, c)
  {
  }

  // ----- opening again --------------------------------------------------------------

  /**
  What was opened, or created, is what a later plain `open` of the path finds, whatever
  was created or written in between; and that later `open` changes nothing.
  */
  lemma OpensTheSame(drives: seq<Drive>, f: Fs, g: Fs, p: seq<byte>, flags: nat, mode: nat, r: Opened, g1: Fs, g2: Fs, mode1: nat, again: Opened)
    requires FsOk(f) && OpenSpec(drives, f, g, p, flags, mode, r) && r.Handle? && IsRoot(f, RootOf(drives, p))
    requires PathsKept(g, g1) && KindsKept(g, g1)
    requires OpenSpec(drives, g1, g2, p, 0, mode1, again)
    ensures g2 == g1 && again == Handle(File(p[0], mode1, r.file.inode))
  {
    var root, names := RootOf(drives, p), NamesOf(p);
    var c := Resolve(g, root, names);
    hide FsOk, Resolve, FilesKept, RootsKept, TreeGrown, NamesOf, ForFile, IsRoot;
    if Resolve(f, root, names) == 0 {
      assert MayCreate(f, root, p, flags);
      FirstAddress(f);
    }
    assert c != 0;
    assert Resolve(g1, root, names) == c;
    if Resolve(f, root, names) != 0 {
      RootLists(f, root);
      ResolveThere(f, root, names);
    }
    assert c in g.inodes ==> SameKind(g, g1, c);
  }

  lemma {:induction false} ResolveThere(f: Fs, d: Ptr, p: Path)
    requires FsOk(f) && d in f.inodes && Resolve(f, d, p) != 0
    ensures Resolve(f, d, p) in f.inodes
  {
    hide FsOk;
    NoNull(f);
    if p != [] {
      ChildThere(f, Resolve(f, d, p[..|p| - 1]), p[|p| - 1]);
    }
  }

  lemma FirstAddress(f: Fs)
    requires FsOk(f)
    ensures f.brk > 0
  {
    BoundedOf(f);
  }

  // ----- devices --------------------------------------------------------------------

  ghost predicate DeviceAt(g: Fs, c: Ptr, ops: nat) {
    c in g.inodes && !g.inodes[c].isDir && g.inodes[c].kind == DEVICE && g.inodes[c].ops == ops
  }

  /** The outcome of `create_device`: 2 for a missing directory, 1 for a name that is taken; a path that ends in a slash makes nothing. */
  ghost predicate DeviceMade(f: Fs, g: Fs, root: Ptr, p: seq<byte>, ops: nat, r: nat) {
    var names := NamesOf(p);
    if Resolve(f, root, names[..Dirs(p)]) == 0 then r == 2 && g == f
    else if !ForFile(p) then r == 0 && g == f
    else if Resolve(f, root, names) != 0 then r == 1 && g == f
    else
      && r == 0 && Preserved(f, g) && f.brk <= Resolve(g, root, names) && DeviceAt(g, Resolve(g, root, names), ops)
      && (PlainPath(names) ==> TreeGrown(f, g, root, names))
  }

  lemma WalkUnchanged(f: Fs, g: Fs, root: Ptr, names: Path, k: nat, cur: Ptr)
    requires WalkState(f, g, root, names, k, cur) && Resolve(f, root, names[..k]) != 0
    ensures g == f && FsOk(f) && Lists(f, cur) && Resolve(f, root, names[..k]) == cur
  {
    hide FsOk, Resolve, Preserved, TreeGrown;
  }

  lemma DeviceDirMissing(f: Fs, root: Ptr, p: seq<byte>, ops: nat, k: nat)
    requires FsOk(f) && k < Dirs(p) && Resolve(f, root, NamesOf(p)[..k + 1]) == 0
    ensures DeviceMade(f, f, root, p, ops, 2)
  {
    hide FsOk, Resolve;
    CutShort(f, root, NamesOf(p), k);
  }

  lemma DeviceExists(f: Fs, root: Ptr, p: seq<byte>, ops: nat, k: nat)
    requires k == Dirs(p) && ForFile(p) && Resolve(f, root, NamesOf(p)[..k]) != 0 && Resolve(f, root, NamesOf(p)) != 0
    ensures DeviceMade(f, f, root, p, ops, 1)
  {
    hide Resolve;
  }

  lemma DeviceNowhere(f: Fs, root: Ptr, p: seq<byte>, ops: nat)
    requires !ForFile(p) && Resolve(f, root, NamesOf(p)) != 0
    ensures DeviceMade(f, f, root, p, ops, 0)
  {
    hide Resolve;
    assert NamesOf(p)[..Dirs(p)] == NamesOf(p);
  }

  lemma DeviceThere(g: Fs, h: Ptr, name: seq<byte>, ops: nat, x: Fs)
    requires HasTail(g, h) && NameFits(name) && g.dirs[h].inode != g.brk && x == WithFile(g, h, name, DEVICE, ops)
    ensures DeviceAt(x, g.brk, ops)
  {
  }

  lemma DeviceIs(f: Fs, x: Fs, root: Ptr, p: seq<byte>, ops: nat, k: nat, c: Ptr)
    requires k == Dirs(p) && ForFile(p) && Resolve(f, root, NamesOf(p)[..k]) != 0 && Resolve(f, root, NamesOf(p)) == 0
    requires Preserved(f, x) && c == Resolve(x, root, NamesOf(p)) && f.brk <= c && DeviceAt(x, c, ops)
    requires PlainPath(NamesOf(p)) ==> TreeGrown(f, x, root, NamesOf(p))
    ensures DeviceMade(f, x, root, p, ops, 0)
  {
    hide Resolve, Preserved, TreeGrown, DeviceAt;
  }

  lemma DeviceDrivesKept(f: Fs, g: Fs, root: Ptr, p: seq<byte>, ops: nat, r: nat)
    requires FsOk(f) && DeviceMade(f, g, root, p, ops, r)
    ensures FsOk(g) && RootsKept(f, g)
  {
    hide FsOk, Resolve, IsRoot, FilesKept, PathsKept, KindsKept, TreeGrown, NamesOf, ForFile;
  }

  // ----- the loop over the path -----------------------------------------------------

  lemma CompleteOk(path: seq<byte>, cd: seq<byte>)
    requires |path| > 0 && NoZero(path) && |cd| >= 3 && cd[1] == COLON && cd[2] == SLASH && NoZero(cd)
    ensures NoZero(Absolute(path, cd)) && |Absolute(path, cd)| >= 3
  {
  }

  lemma RootLists(f: Fs, root: Ptr)
    requires IsRoot(f, root)
    ensures root in f.inodes && f.inodes[root].isDir
  {
  }

  /** `i` bytes of the path are read, which hold `k` names. */
  ghost predicate Walking(f: Fs, g: Fs, root: Ptr, p: seq<byte>, k: nat, i: nat, cur: Ptr, all: bool) {
    && 3 <= i <= |p| && k <= |NamesOf(p)| && Names(p[i..]) == NamesOf(p)[k..] && EndsInFile(p[i..]) == ForFile(p)
    && WalkState(f, g, root, NamesOf(p), k, cur)
    && (!all ==> Resolve(f, root, NamesOf(p)[..k]) != 0)
  }

  lemma WalkingStart(f: Fs, root: Ptr, p: seq<byte>, all: bool)
    requires FsOk(f) && IsRoot(f, root) && |p| >= 3
    ensures Walking(f, f, root, p, 0, 3, root, all)
  {
    WalkStart(f, root, NamesOf(p));
    NoNull(f);
    hide FsOk, WalkState;
    assert NamesOf(p)[..0] == [];
    assert NamesOf(p)[0..] == NamesOf(p);
  }

  lemma DirMissing(f: Fs, root: Ptr, p: seq<byte>, flags: nat, mode: nat, k: nat)
    requires FsOk(f) && k < Dirs(p) && !CreatAll(flags) && Resolve(f, root, NamesOf(p)[..k + 1]) == 0
    ensures LookedUpOrCreated(f, f, root, p, flags, mode, NoFile)
  {
    hide FsOk, Resolve;
    CutShort(f, root, NamesOf(p), k);
  }

  lemma LastOutcome(f: Fs, g: Fs, root: Ptr, p: seq<byte>, flags: nat, mode: nat, k: nat, found: bool, c: Ptr)
    requires FsOk(f) && |p| > 0 && k + 1 == |NamesOf(p)| && ForFile(p) && k == Dirs(p)
    requires CreatAll(flags) || Resolve(f, root, NamesOf(p)[..k]) != 0
    requires Resolve(f, root, NamesOf(p)) != 0 ==> found && g == f && c == Handled(f, Resolve(f, root, NamesOf(p)), true)
    requires Resolve(f, root, NamesOf(p)) == 0 && !(Creat(flags) || CreatAll(flags)) ==> !found && g == f
    requires Resolve(f, root, NamesOf(p)) == 0 && (Creat(flags) || CreatAll(flags)) ==>
      && found && c == Resolve(g, root, NamesOf(p)) && f.brk <= c && Preserved(f, g) && EmptyFile(g, c)
      && (PlainPath(NamesOf(p)) ==> TreeGrown(f, g, root, NamesOf(p)))
    ensures LookedUpOrCreated(f, g, root, p, flags, mode, if found then Handle(File(p[0], mode, c)) else NoFile)
  {
    hide FsOk, Resolve, Preserved, TreeGrown, EmptyFile, NamesOf, ForFile, Dirs, CreatAll, Creat;
  }

  lemma DirOutcome(f: Fs, g: Fs, root: Ptr, p: seq<byte>, flags: nat, mode: nat, cur: Ptr)
    requires cur == Resolve(g, root, NamesOf(p)) && !ForFile(p) && |p| > 0
    requires Resolve(f, root, NamesOf(p)) != 0 ==> g == f
    requires Resolve(f, root, NamesOf(p)) == 0 ==> CreatAll(flags) && Preserved(f, g) && f.brk <= cur && (PlainPath(NamesOf(p)) ==> TreeGrown(f, g, root, NamesOf(p)))
    ensures LookedUpOrCreated(f, g, root, p, flags, mode, Handle(File(p[0], mode, cur)))
  {
    hide Resolve, Preserved, TreeGrown, EmptyFile, NamesOf, ForFile, CreatAll, Creat;
  }

  /** Opening a file keeps every drive's file system, and its root. */
  lemma DrivesKept(drives: seq<Drive>, f: Fs, g: Fs, root: Ptr, p: seq<byte>, flags: nat, mode: nat, r: Opened)
    requires FsOk(f) && LookedUpOrCreated(f, g, root, p, flags, mode, r)
    ensures FsOk(g) && RootsKept(f, g)
  {
    hide FsOk, Resolve, IsRoot, FilesKept, PathsKept, TreeGrown, EmptyFile, NamesOf, ForFile, CreatAll, Creat;
  }

  lemma WalkingName(f: Fs, g: Fs, root: Ptr, p: seq<byte>, k: nat, i: nat, cur: Ptr, all: bool, n: nat)
    requires Walking(f, g, root, p, k, i, cur, all) && i < |p| && n == FirstSlash(p[i..])
    ensures k < |NamesOf(p)| && NamesOf(p)[k] == p[i..][..n]
    ensures n < |p[i..]| ==> k < Dirs(p)
    ensures n == |p[i..]| ==> k + 1 == |NamesOf(p)| && ForFile(p) && k == Dirs(p)
  {
    hide WalkState, Resolve;
    var rest := p[i..];
    if n < |rest| {
      DirNameFirst(rest, n);
      SameEnd(rest, n);
      if ForFile(p) {
        FileHasName(rest[n + 1..]);
      }
    } else {
      FileNameLast(rest);
    }
    assert NamesOf(p)[k] == NamesOf(p)[k..][0];
  }

  lemma WalkingParts(f: Fs, g: Fs, root: Ptr, p: seq<byte>, k: nat, i: nat, cur: Ptr, all: bool)
    requires Walking(f, g, root, p, k, i, cur, all)
    ensures WalkState(f, g, root, NamesOf(p), k, cur) && (!all ==> Resolve(f, root, NamesOf(p)[..k]) != 0)
  {
    hide WalkState, Resolve;
  }

  lemma WalkingNext(f: Fs, g: Fs, x: Fs, root: Ptr, p: seq<byte>, k: nat, i: nat, cur: Ptr, next: Ptr, all: bool, n: nat)
    requires Walking(f, g, root, p, k, i, cur, all) && i < |p| && n == FirstSlash(p[i..]) < |p[i..]| && k < |NamesOf(p)|
    requires WalkState(f, x, root, NamesOf(p), k + 1, next) && (!all ==> Resolve(f, root, NamesOf(p)[..k + 1]) != 0)
    ensures Walking(f, x, root, p, k + 1, i + n + 1, next, all)
  {
    hide WalkState, Resolve;
    var rest := p[i..];
    DirNameFirst(rest, n);
    SameEnd(rest, n);
    assert rest[n + 1..] == p[i + n + 1..];
    assert NamesOf(p)[k + 1..] == NamesOf(p)[k..][1..];
  }

  /** The path ended in a slash, or had no name: the walk is where it leads. */
  lemma WalkingDone(f: Fs, g: Fs, root: Ptr, p: seq<byte>, k: nat, i: nat, cur: Ptr, all: bool)
    requires Walking(f, g, root, p, k, i, cur, all) && i == |p|
    ensures cur == Resolve(g, root, NamesOf(p)) && !ForFile(p)
    ensures Resolve(f, root, NamesOf(p)) != 0 ==> g == f
    ensures Resolve(f, root, NamesOf(p)) == 0 ==> all && Preserved(f, g) && f.brk <= cur && (PlainPath(NamesOf(p)) ==> TreeGrown(f, g, root, NamesOf(p)))
  {
    hide Resolve, Preserved, TreeGrown;
    assert p[i..] == [];
    assert NamesOf(p)[..k] == NamesOf(p);
  }

  lemma OpenableHere(f: Fs, root: Ptr, p: seq<byte>, flags: nat, k: nat)
    requires Openable(f, root, p, flags) && k < |NamesOf(p)|
    ensures k < Dirs(p) ==> DirOrNone(f, Resolve(f, root, NamesOf(p)[..k + 1]))
    ensures CreatAll(flags) || (Creat(flags) && k >= Dirs(p)) ==> Creatable(f, root, NamesOf(p), k)
  {
    hide Creatable, Resolve;
  }

  class Vfs {
    const fs: TempFs.FileSystem
    var drives: seq<Drive>
    var currentDir: seq<byte>

    /** Drives that are present hold the root of a TempFS, and the current directory is a path with a drive. */
    ghost predicate Valid()
      reads this, fs
    {
      && FsOk(fs.Now()) && |drives| == 26
      && (forall i {:trigger drives[i]} :: 0 <= i < 26 && drives[i].present ==> drives[i].fsId == 0 && IsRoot(fs.Now(), drives[i].root))
      && |currentDir| >= 3 && currentDir[1] == COLON && currentDir[2] == SLASH && NoZero(currentDir)
    }

    /** `init_vfs`. */
    constructor (fs: TempFs.FileSystem, cd: seq<byte>)
      requires FsOk(fs.Now()) && |cd| >= 3 && cd[1] == COLON && cd[2] == SLASH && NoZero(cd)
      ensures Valid() && this.fs == fs && currentDir == cd && drives == seq(26, _ => Drive(false, 0, 0))
    {
      this.fs := fs;
      drives := seq(26, _ => Drive(false, 0, 0));
      currentDir := cd;
    }

    /** `mount` of a TempFS in memory: a lower-case letter is taken as its upper-case one. */
    method Mount(drive: byte, root: Ptr) returns (r: nat)
      requires Valid() && IsRoot(fs.Now(), root)
      modifies `drives
      ensures Valid() && (r == 0 || r == 1)
      ensures r == 0 <==> DriveLetter(drive) || 97 <= drive <= 122
      ensures r == 0 ==> drives == old(drives)[(if drive >= 97 then drive - 97 else drive - 65) := Drive(true, 0, root)]
      ensures r == 1 ==> drives == old(drives)
    {
      var c := if drive >= 97 && drive <= 122 then drive - 32 else drive;
      if c < 65 || c > 90 { return 1; }
      drives := drives[c - 65 := Drive(true, 0, root)];
      return 0;
    }

    /** Completes a path without a drive. */
    method Complete(path: seq<byte>) returns (p: seq<byte>)
      requires |path| > 0 && |currentDir| >= 3
      ensures p == Absolute(path, currentDir)
    {
      p := path;
      if !(|path| >= 3 && path[1] == COLON && path[2] == SLASH) {
        if path[0] == SLASH {
          p := [currentDir[0], COLON] + path;
        } else {
          p := currentDir + path;
        }
      }
    }

    /** The walk into one directory, which is made when it is missing and `all` are to be made; null when it is not there. */
    method EnterDir(ghost f: Fs, ghost root: Ptr, ghost names: Path, ghost k: nat, cur: Ptr, name: seq<byte>, all: bool) returns (next: Ptr)
      requires k < |names| && WalkState(f, fs.Now(), root, names, k, cur) && Terminated(name) && Str(name) == names[k]
      requires DirOrNone(f, Resolve(f, root, names[..k + 1]))
      requires if all then Creatable(f, root, names, k) else Resolve(f, root, names[..k]) != 0
      modifies fs
      ensures next == 0 ==> !all && Resolve(f, root, names[..k + 1]) == 0 && fs.Now() == old(fs.Now()) == f
      ensures next != 0 ==> WalkState(f, fs.Now(), root, names, k + 1, next) && (!all ==> Resolve(f, root, names[..k + 1]) != 0)
    {
      hide FsOk, Child, Resolve, IsRoot, Terminated, NameFits, TreeGrown, PathsKept, FilesKept, RootsKept, Bare, WithDir;
      ghost var g := fs.Now();
      NextResolves(f, root, names, k);
      ChildThere(g, cur, names[k]);
      if Resolve(f, root, names[..k]) == 0 {
        NothingAtNull(f, names[k]);
      }
      var thisDir := fs.Find(cur, name);
      if thisDir == 0 {
        if all {
          CanonicalHere(f, g, root, names, k, cur);
          CanMake(g, cur, names[k]);
          fs.Mkdir(cur, name);
          WalkMadeDir(f, g, fs.Now(), root, names, k, cur);
          ChildThere(fs.Now(), cur, names[k]);
          thisDir := fs.Find(cur, name);
        } else {
          return 0;
        }
      } else {
        WalkFound(f, g, root, names, k, cur);
      }
      next := fs.OpenDir(thisDir);
    }
  
    /** The last step of `open`: the file, which is made when it is missing and `create` says so. */
    method OpenLast(ghost f: Fs, ghost root: Ptr, ghost names: Path, ghost k: nat, cur: Ptr, name: seq<byte>, create: bool) returns (found: bool, c: Ptr)
      requires k + 1 == |names| && WalkState(f, fs.Now(), root, names, k, cur) && Terminated(name) && Str(name) == names[k]
      requires if create then Creatable(f, root, names, k) else Resolve(f, root, names[..k]) != 0
      modifies fs
      ensures Resolve(f, root, names) != 0 ==> found && fs.Now() == f && c == Handled(f, Resolve(f, root, names), true)
      ensures Resolve(f, root, names) == 0 && !create ==> !found && fs.Now() == f
      ensures Resolve(f, root, names) == 0 && create ==>
        && found && c == Resolve(fs.Now(), root, names) && f.brk <= c && Preserved(f, fs.Now()) && EmptyFile(fs.Now(), c)
        && (PlainPath(names) ==> TreeGrown(f, fs.Now(), root, names))
    {
      hide FsOk, Child, Resolve, IsRoot, Terminated, NameFits, TreeGrown, PathsKept, FilesKept, RootsKept, Bare, WithFile;
      ghost var g := fs.Now();
      NextResolves(f, root, names, k);
      assert names[..k + 1] == names;
      ChildThere(g, cur, names[k]);
      if Resolve(f, root, names[..k]) == 0 {
        NothingAtNull(f, names[k]);
      }
      var thisFile := fs.Find(cur, name);
      if thisFile == 0 {
        if create {
          CanonicalHere(f, g, root, names, k, cur);
          CanMake(g, cur, names[k]);
          OwnWalkEnds(g, cur);
          fs.Mkfile(cur, name);
          MadeFile(f, g, fs.Now(), root, names, k, cur, 0, 0);
          NewFileIsEmpty(fs.Now(), g.brk);
          ChildThere(fs.Now(), cur, names[k]);
          thisFile := fs.Find(cur, name);
        } else {
          return false, 0;
        }
      } else {
        WalkFound(f, g, root, names, k, cur);
      }
      var outcome;
      c, outcome := fs.OpenFile(thisFile);
      return true, c;
    }

    /** The walk of `open` along the copied path `buf` of `p`, from the root of a drive. */
    method Walk(p: seq<byte>, buf: array<byte>, root: Ptr, flags: nat, mode: nat) returns (r: Opened, freed: int)
      requires FsOk(fs.Now()) && IsRoot(fs.Now(), root) && |p| >= 3 && NoZero(p) && buf[..] == p + [0]
      requires Openable(fs.Now(), root, p, flags)
      modifies fs, buf
      ensures LookedUpOrCreated(old(fs.Now()), fs.Now(), root, p, flags, mode, r)
      ensures r.Handle? ==> freed == 0
    {
      hide FsOk, Resolve, IsRoot, Terminated, TreeGrown, PathsKept, FilesKept, RootsKept, Creatable, WalkState, Names, EmptyFile, Walkable, Preserved, Walking, LookedUpOrCreated, Openable, Dirs;
      freed := -1;
      ghost var f := fs.Now();
      var newPath := 3;
      var i := 3;
      ghost var names := NamesOf(p);
      RootLists(f, root);
      var cur := fs.OpenDir(root);
      ghost var k := 0;
      WalkingStart(f, root, p, CreatAll(flags));
      assert buf[3..] == p[3..] + [0];
      while i < |p|
        invariant Walking(f, fs.Now(), root, p, k, i, cur, CreatAll(flags))
        invariant newPath == i <= |p| && buf.Length == |p| + 1 && buf[i..] == p[i..] + [0]
        decreases |p| - i
      {
        ghost var g := fs.Now();
        WalkingParts(f, g, root, p, k, i, cur, CreatAll(flags));
        var thisLen, isDir := NextName(buf, newPath, p[i..]);
        WalkingName(f, g, root, p, k, i, cur, CreatAll(flags), thisLen);
        OpenableHere(f, root, p, flags, k);
        if isDir {
          var next := EnterDir(f, root, names, k, cur, buf[newPath..], CreatAll(flags));
          if next == 0 {
            DirMissing(f, root, p, flags, mode, k);
            return NoFile, freed;
          }
          WalkingNext(f, g, fs.Now(), root, p, k, i, cur, next, CreatAll(flags), thisLen);
          cur := next;
          newPath := newPath + thisLen + 1;
          i := i + thisLen + 1;
          k := k + 1;
        } else {
          var found, c := OpenLast(f, root, names, k, cur, buf[newPath..], Creat(flags) || CreatAll(flags));
          LastOutcome(f, fs.Now(), root, p, flags, mode, k, found, c);
          if !found { return NoFile, freed; }
          freed := newPath - i;
          return Handle(File(p[0], mode, c)), freed;
        }
      }
      WalkingDone(f, fs.Now(), root, p, k, i, cur, CreatAll(flags));
      DirOutcome(f, fs.Now(), root, p, flags, mode, cur);
      freed := newPath - i;
      return Handle(File(p[0], mode, cur)), freed;
    }

    /**
    `open`. `freed` is what line 223 frees, counted from where the copy of the path begins.
    */
    method Open(path: seq<byte>, flags: nat, mode: nat) returns (r: Opened, freed: int)
      requires Valid() && |path| > 0 && NoZero(path)
      requires var p := Absolute(path, currentDir); Reach(drives, p) ==> Openable(fs.Now(), RootOf(drives, p), p, flags)
      modifies fs
      ensures Valid() && OpenSpec(drives, old(fs.Now()), fs.Now(), Absolute(path, currentDir), flags, mode, r)
      ensures |path| >= 3 && path[1] == 58 && path[2] == 47 ==>
        Opens(drives, old(fs.Now()), fs.Now(), path[0], Names(path[3..]), |path| > 3 && path[|path| - 1] != 47, flags, mode, r)
      ensures !(|path| >= 3 && path[1] == 58 && path[2] == 47) && path[0] == 47 ==>
        Opens(drives, old(fs.Now()), fs.Now(), currentDir[0], Names(path[1..]), path[|path| - 1] != 47, flags, mode, r)
      ensures !(|path| >= 3 && path[1] == 58 && path[2] == 47) && path[0] != 47 ==>
        Opens(drives, old(fs.Now()), fs.Now(), currentDir[0], Names(currentDir[3..] + path), path[|path| - 1] != 47, flags, mode, r)
      ensures r.Handle? ==> freed == 0
    {
      hide FsOk, Resolve, IsRoot, LookedUpOrCreated, OpenSpec, Reach, Openable, Opens, Absolute;
      var p := Complete(path);
      CompleteOk(path, currentDir);
      r, freed := OpenAt(p, flags, mode);
      OpenedAs(drives, old(fs.Now()), fs.Now(), p, flags, mode, r);
      PathIs(path, currentDir);
    }

    /** The part of `open` after the path is completed. */
    method OpenAt(p: seq<byte>, flags: nat, mode: nat) returns (r: Opened, freed: int)
      requires Valid() && |p| >= 3 && NoZero(p)
      requires Reach(drives, p) ==> Openable(fs.Now(), RootOf(drives, p), p, flags)
      modifies fs
      ensures Valid() && OpenSpec(drives, old(fs.Now()), fs.Now(), p, flags, mode, r)
      ensures r.Handle? ==> freed == 0
    {
      hide FsOk, Resolve, IsRoot, LookedUpOrCreated, Openable;
      if p[0] < 65 || p[0] > 90 { return NoFile, -1; }
      var buf := new byte[|p| + 1](i => if 0 <= i < |p| then p[i] else 0);
      assert buf[..] == p + [0];
      if !drives[p[0] - 65].present { return NoFile, -1; }
      var root := drives[p[0] - 65].root;
      ghost var f := fs.Now();
      r, freed := Walk(p, buf, root, flags, mode);
      DrivesKept(drives, f, fs.Now(), root, p, flags, mode, r);
    }

    /** The last step of `create_device`: the name is new, or 1. */
    method LastDevice(ghost f: Fs, ghost root: Ptr, ghost p: seq<byte>, ghost k: nat, cur: Ptr, name: seq<byte>, ops: nat) returns (r: nat)
      requires k + 1 == |NamesOf(p)| && k == Dirs(p) && ForFile(p) && WalkState(f, fs.Now(), root, NamesOf(p), k, cur)
      requires Terminated(name) && Str(name) == NamesOf(p)[k]
      requires Creatable(f, root, NamesOf(p), k) && Resolve(f, root, NamesOf(p)[..k]) != 0
      modifies fs
      ensures (r == 0 || r == 1) && DeviceMade(f, fs.Now(), root, p, ops, r)
    {
      hide FsOk, Resolve, IsRoot, Terminated, TreeGrown, PathsKept, FilesKept, RootsKept, KindsKept, Creatable, WalkState, Names, Preserved, DeviceMade, Dirs, WithFile, Child, NameFits;
      ghost var g := fs.Now();
      ghost var names := NamesOf(p);
      WalkUnchanged(f, g, root, names, k, cur);
      NextResolves(f, root, names, k);
      assert names[..k + 1] == names;
      ChildThere(f, cur, names[k]);
      var thisFile := fs.Find(cur, name);
      if thisFile != 0 {
        DeviceExists(f, root, p, ops, k);
        return 1;
      }
      CanonicalHere(f, g, root, names, k, cur);
      CanMake(g, cur, names[k]);
      fs.CreateDevice(cur, name, ops);
      MadeFile(f, g, fs.Now(), root, names, k, cur, DEVICE, ops);
      DeviceThere(g, g.inodes[cur].first, names[k], ops, fs.Now());
      DeviceIs(f, fs.Now(), root, p, ops, k, g.brk);
      return 0;
    }

    /** The walk of `create_device`. */
    method WalkToDevice(p: seq<byte>, buf: array<byte>, root: Ptr, ops: nat) returns (r: nat, freed: int)
      requires FsOk(fs.Now()) && IsRoot(fs.Now(), root) && |p| >= 3 && NoZero(p) && buf[..] == p + [0]
      requires Openable(fs.Now(), root, p, 1)
      modifies fs, buf
      ensures DeviceMade(old(fs.Now()), fs.Now(), root, p, ops, r)
      ensures r == 0 ==> freed == 0
    {
      hide FsOk, Resolve, IsRoot, Terminated, TreeGrown, PathsKept, FilesKept, RootsKept, KindsKept, Creatable, WalkState, Names, Walkable, Preserved, Walking, DeviceMade, Openable, Dirs, WithFile, Child, NameFits;
      freed := -1;
      ghost var f := fs.Now();
      var newPath := 3;
      var i := 3;
      ghost var names := NamesOf(p);
      RootLists(f, root);
      var cur := fs.OpenDir(root);
      ghost var k := 0;
      WalkingStart(f, root, p, false);
      assert buf[3..] == p[3..] + [0];
      while i < |p|
        invariant Walking(f, fs.Now(), root, p, k, i, cur, false)
        invariant newPath == i <= |p| && buf.Length == |p| + 1 && buf[i..] == p[i..] + [0]
        decreases |p| - i
      {
        ghost var g := fs.Now();
        WalkingParts(f, g, root, p, k, i, cur, false);
        var thisLen, isDir := NextName(buf, newPath, p[i..]);
        WalkingName(f, g, root, p, k, i, cur, false, thisLen);
        OpenableHere(f, root, p, 1, k);
        if isDir {
          var next := EnterDir(f, root, names, k, cur, buf[newPath..], false);
          if next == 0 {
            DeviceDirMissing(f, root, p, ops, k);
            return 2, freed;
          }
          WalkingNext(f, g, fs.Now(), root, p, k, i, cur, next, false, thisLen);
          cur := next;
          newPath := newPath + thisLen + 1;
          i := i + thisLen + 1;
          k := k + 1;
        } else {
          r := LastDevice(f, root, p, k, cur, buf[newPath..], ops);
          if r == 0 {
            freed := newPath - i;
          }
          return r, freed;
        }
      }
      WalkingDone(f, fs.Now(), root, p, k, i, cur, false);
      DeviceNowhere(f, root, p, ops);
      freed := newPath - i;
      return 0, freed;
    }

    /** `create_device`. */
    method CreateDevice(path: seq<byte>, ops: nat) returns (r: nat, freed: int)
      requires Valid() && |path| > 0 && NoZero(path)
      requires var p := Absolute(path, currentDir); Reach(drives, p) ==> Openable(fs.Now(), RootOf(drives, p), p, 1)
      modifies fs
      ensures Valid()
      ensures var p := Absolute(path, currentDir);
        if Reach(drives, p) then DeviceMade(old(fs.Now()), fs.Now(), RootOf(drives, p), p, ops, r)
        else fs.Now() == old(fs.Now()) && r == if !DriveLetter(p[0]) then 4 else if drives[p[0] - 65].fsId != 0 then 5 else 3
      ensures |path| >= 3 && path[1] == 58 && path[2] == 47 ==>
        MakesDevice(drives, old(fs.Now()), fs.Now(), path[0], Names(path[3..]), |path| > 3 && path[|path| - 1] != 47, ops, r)
      ensures !(|path| >= 3 && path[1] == 58 && path[2] == 47) && path[0] == 47 ==>
        MakesDevice(drives, old(fs.Now()), fs.Now(), currentDir[0], Names(path[1..]), path[|path| - 1] != 47, ops, r)
      ensures !(|path| >= 3 && path[1] == 58 && path[2] == 47) && path[0] != 47 ==>
        MakesDevice(drives, old(fs.Now()), fs.Now(), currentDir[0], Names(currentDir[3..] + path), path[|path| - 1] != 47, ops, r)
    {
      hide FsOk, Resolve, IsRoot, DeviceMade, MakesDevice, Openable, Absolute;
      var p := Complete(path);
      CompleteOk(path, currentDir);
      r, freed := CreateDeviceAt(p, ops);
      DeviceMadeAs(drives, old(fs.Now()), fs.Now(), p, ops, r);
      PathIs(path, currentDir);
    }

    /** The part of `create_device` after the path is completed. */
    method CreateDeviceAt(p: seq<byte>, ops: nat) returns (r: nat, freed: int)
      requires Valid() && |p| >= 3 && NoZero(p)
      requires Reach(drives, p) ==> Openable(fs.Now(), RootOf(drives, p), p, 1)
      modifies fs
      ensures Valid()
      ensures if Reach(drives, p) then DeviceMade(old(fs.Now()), fs.Now(), RootOf(drives, p), p, ops, r)
        else fs.Now() == old(fs.Now()) && r == if !DriveLetter(p[0]) then 4 else if drives[p[0] - 65].fsId != 0 then 5 else 3
    {
      hide FsOk, Resolve, IsRoot, DeviceMade, Openable;
      if p[0] < 65 || p[0] > 90 { return 4, -1; }
      var buf := new byte[|p| + 1](i => if 0 <= i < |p| then p[i] else 0);
      assert buf[..] == p + [0];
      if drives[p[0] - 65].fsId != 0 { return 5, -1; }
      if !drives[p[0] - 65].present { return 3, -1; }
      var root := drives[p[0] - 65].root;
      ghost var f := fs.Now();
      r, freed := WalkToDevice(p, buf, root, ops);
      DeviceDrivesKept(f, fs.Now(), root, p, ops, r);
    }

    // ----- open files ---------------------------------------------------------------

    /** `write`: 1 for a file that was opened read-only; for a device the result is the device's own. */
    method Write(f: File, data: seq<byte>, size: nat) returns (r: nat, out: TempFs.Outcome)
      requires FsOk(fs.Now()) && fs.IsFile(f.inode) && size <= |data|
      modifies fs
      ensures f.mode == 1 ==> r == 1 && out == TempFs.Done && fs.Now() == old(fs.Now())
      ensures f.mode != 1 && old(fs.inodes[f.inode]).kind != DEVICE ==> r == 0 && out == TempFs.Done
      ensures f.mode != 1 && old(fs.inodes[f.inode]).kind == DEVICE ==> out == TempFs.Device(old(fs.inodes[f.inode]).ops) && fs.Now() == old(fs.Now())
      ensures f.mode != 1 && old(fs.inodes[f.inode]).kind != DEVICE ==> FsOk(fs.Now()) && Wrote(old(fs.Now()), fs.Now(), f.inode, data[..size])
    {
      hide FsOk, Wrote;
      if f.mode == MODE_READONLY { return 1, TempFs.Done; }
      out := fs.Write(f.inode, data, size);
      return 0, out;
    }

    /** `read`: 1 for a file that was opened write-only; for a device the result is the device's own. */
    method Read(f: File, buffer: array<byte>, maxLen: nat) returns (r: nat, out: TempFs.Outcome)
      requires FsOk(fs.Now()) && fs.IsFile(f.inode) && maxLen <= buffer.Length
      modifies buffer
      ensures f.mode == 2 || fs.inodes[f.inode].kind == DEVICE ==> buffer[..] == old(buffer[..])
      ensures f.mode == 2 ==> r == 1 && out == TempFs.Done
      ensures f.mode != 2 && fs.inodes[f.inode].kind == DEVICE ==> out == TempFs.Device(fs.inodes[f.inode].ops)
      ensures f.mode != 2 && fs.inodes[f.inode].kind != DEVICE ==> r == 0 && out == TempFs.Done
      ensures f.mode != 2 && fs.inodes[f.inode].kind != DEVICE ==> buffer[..] == ReadInto(old(buffer[..]), fs.nodes, fs.chains[f.inode], maxLen)
    {
      hide FsOk, ReadInto;
      if f.mode == MODE_WRITEONLY { return 1, TempFs.Done; }
      out := fs.Read(f.inode, buffer, maxLen);
      return 0, out;
    }
  }
}
