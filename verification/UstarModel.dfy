/**
Archives as `unpack_ustar` reads them (src/fs/ustar.c:12-40), and the tree of files that
unpacking one makes.
*/
module UstarModel {
  import opened Bytes
  import opened CStrings
  import opened TempFsModel
  import opened TempFsSteps
  import opened TempFsContents
  import opened TempFsTree
  import opened VfsPaths
  import opened Vfs

  /** `ustar` */
  const MAGIC: seq<byte> := [117, 115, 116, 97, 114]

  /** The type of a directory entry, `5`. */
  const DIRECTORY: byte := 53

  /** A header block, the contents, and what fills the last block. */
  datatype Member = Member(header: seq<byte>, body: seq<byte>, pad: seq<byte>)

  ghost predicate MemberOk(m: Member) {
    && |m.header| == 512 && m.header[257..262] == MAGIC
    && |m.body| < 0x8000_0000 && m.header[124..135] == OctalDigits(|m.body|, 11)
    && |m.body| + |m.pad| == (|m.body| + 511) / 512 * 512
    && Len(m.header) < 100
  }

  predicate IsDirectory(m: Member) {
    |m.header| > 156 && m.header[156] == DIRECTORY
  }

  function NameOfMember(m: Member): seq<byte> {
    Str(m.header)
  }

  function NamesOfMember(m: Member): Path {
    Names(NameOfMember(m))
  }

  function Block(m: Member): seq<byte> {
    m.header + m.body + m.pad
  }

  function Archive(ms: seq<Member>): seq<byte> {
    if ms == [] then [] else Block(ms[0]) + Archive(ms[1..])
  }

  /** Where the header of member `i` is. */
  function Offset(ms: seq<Member>, i: nat): nat
    requires i <= |ms|
  {
    if i == 0 then 0 else Offset(ms, i - 1) + |Block(ms[i - 1])|
  }

  /** What ends an archive: a block without the magic. */
  ghost predicate EndsArchive(tail: seq<byte>) {
    |tail| >= 262 && tail[257..262] != MAGIC
  }

  /** The bytes `a` are the members from `i` on and the end. */
  ghost predicate Reads(a: seq<byte>, ms: seq<Member>, i: nat, tail: seq<byte>) {
    i <= |ms| && a == Archive(ms[i..]) + tail
  }

  lemma ReadsNext(a: seq<byte>, ms: seq<Member>, i: nat, tail: seq<byte>)
    requires Reads(a, ms, i, tail) && i < |ms|
    ensures |a| >= |Block(ms[i])| && a[..|Block(ms[i])|] == Block(ms[i]) && Reads(a[|Block(ms[i])|..], ms, i + 1, tail)
  {
    assert ms[i..][1..] == ms[i + 1..];
    assert a == Block(ms[i]) + (Archive(ms[i + 1..]) + tail);
  }

  /** The header that is there is the member's. */
  lemma HeaderReads(a: seq<byte>, m: Member)
    requires MemberOk(m) && |a| >= |Block(m)| && a[..|Block(m)|] == Block(m)
    ensures |a| >= 512 + |m.body| && a[257..262] == MAGIC == [117, 115, 116, 97, 114] && a[156] == m.header[156] && (IsDirectory(m) <==> a[156] == 53)
    ensures a[124..135] == OctalDigits(|m.body|, 11) && a[512..512 + |m.body|] == m.body
    ensures |Block(m)| == ((|m.body| + 511) / 512 + 1) * 512
  {
    var b := Block(m);
    assert forall j :: 0 <= j < |b| ==> a[j] == a[..|b|][j];
    assert forall j :: 0 <= j < 512 ==> b[j] == m.header[j];
    assert a[257..262] == m.header[257..262];
    assert a[124..135] == m.header[124..135];
    assert forall j :: 0 <= j < |m.body| ==> b[512 + j] == m.body[j];
    assert a[512..512 + |m.body|] == m.body;
  }

  lemma NameReads(a: seq<byte>, m: Member)
    requires MemberOk(m) && |a| >= |Block(m)| && a[..|Block(m)|] == Block(m)
    ensures Terminated(a) && Str(a) == NameOfMember(m)
  {
    var b, n := Block(m), Len(m.header);
    assert forall j :: 0 <= j < 512 ==> a[j] == a[..|b|][j] == m.header[j];
    assert a[..n] == m.header[..n];
    LenIs(a, n);
  }

  lemma EndReads(a: seq<byte>, ms: seq<Member>, tail: seq<byte>)
    requires Reads(a, ms, |ms|, tail)
    ensures a == tail
  {
  }

  // ----- the tree that unpacking makes ----------------------------------------------

  /** Member `i` is a file with these names. */
  predicate FileAt(ms: seq<Member>, i: nat, q: Path) {
    i < |ms| && !IsDirectory(ms[i]) && NamesOfMember(ms[i]) == q
  }

  predicate HasFile(ms: seq<Member>, m: nat, q: Path) {
    exists i :: 0 <= i < m && FileAt(ms, i, q)
  }

  /** A file among the first `m` members is at or below the path `q`. */
  predicate Under(ms: seq<Member>, m: nat, q: Path) {
    exists i :: 0 <= i < m && Below(ms, i, q)
  }

  predicate Below(ms: seq<Member>, i: nat, q: Path) {
    i < |ms| && !IsDirectory(ms[i]) && q <= NamesOfMember(ms[i])
  }

  /** The contents of the last file with these names among the first `m` members. */
  function LastBody(ms: seq<Member>, m: nat, q: Path): seq<byte>
    requires m <= |ms|
  {
    if m == 0 then [] else if FileAt(ms, m - 1, q) then ms[m - 1].body else LastBody(ms, m - 1, q)
  }

  ghost predicate Regular(g: Fs, c: Ptr) {
    c in g.inodes && !g.inodes[c].isDir && g.inodes[c].kind != DEVICE && c in g.chains
  }

  /** What the path `q` leads to in `g`, when the first `m` members are unpacked in `f`. */
  ghost predicate Expected(f: Fs, g: Fs, root: Ptr, ms: seq<Member>, m: nat, q: Path)
    requires m <= |ms|
  {
    var c := Resolve(g, root, q);
    if HasFile(ms, m, q) then Regular(g, c) && Contents(g, c) == LastBody(ms, m, q)
    else if Resolve(f, root, q) != 0 then
      && c == Resolve(f, root, q) && c in f.inodes && SameKind(f, g, c)
      && (c in f.chains ==> c in g.chains && Contents(g, c) == Contents(f, c))
    else if Under(ms, m, q) then c != 0 && c in g.inodes && g.inodes[c].isDir
    else c == 0
  }

  ghost predicate TreeIs(f: Fs, g: Fs, root: Ptr, ms: seq<Member>, m: nat)
    requires m <= |ms|
  {
    forall q {:trigger Expected(f, g, root, ms, m, q)} :: PlainPath(q) ==> Expected(f, g, root, ms, m, q)
  }

  /** A file's names are plain and fit, and the path does not end in a slash. */
  ghost predicate NamesOk(m: Member) {
    && PlainPath(NamesOfMember(m)) && EndsInFile(NameOfMember(m))
    && forall k :: 0 <= k < |NamesOfMember(m)| ==> NameFits(NamesOfMember(m)[k])
  }

  /** No file of the archive is a directory of another. */
  ghost predicate NoClash(ms: seq<Member>) {
    forall i, j {:trigger ms[i], ms[j]} :: 0 <= i < |ms| && 0 <= j < |ms| && !IsDirectory(ms[i]) && !IsDirectory(ms[j]) ==> !(NamesOfMember(ms[i]) < NamesOfMember(ms[j]))
  }

  /** Nothing in the file system is in the way of the member: directories are where it needs them, and no directory or device where its file goes. */
  ghost predicate RoomFor(f: Fs, root: Ptr, m: Member) {
    forall q {:trigger Resolve(f, root, q)} :: q <= NamesOfMember(m) && Resolve(f, root, q) != 0 ==>
      if q == NamesOfMember(m) then Regular(f, Resolve(f, root, q)) else Resolve(f, root, q) in f.inodes && f.inodes[Resolve(f, root, q)].isDir
  }

  ghost predicate Unpackable(f: Fs, root: Ptr, ms: seq<Member>) {
    && (forall i {:trigger ms[i]} :: 0 <= i < |ms| ==> MemberOk(ms[i]) && (!IsDirectory(ms[i]) ==> NamesOk(ms[i]) && RoomFor(f, root, ms[i])))
    && NoClash(ms)
  }

  // ----- one member -----------------------------------------------------------------

  lemma TreeStart(f: Fs, root: Ptr, ms: seq<Member>)
    requires FsOk(f) && IsRoot(f, root)
    ensures TreeIs(f, f, root, ms, 0)
  {
    hide FsOk, Contents;
    forall q {:trigger Expected(f, f, root, ms, 0, q)} | PlainPath(q)
      ensures Expected(f, f, root, ms, 0, q)
    {
      if Resolve(f, root, q) != 0 {
        ResolveThere(f, root, q);
      }
    }
  }

  /** A directory entry of the archive makes nothing. */
  lemma TreeSkips(f: Fs, g: Fs, root: Ptr, ms: seq<Member>, m: nat)
    requires m < |ms| && TreeIs(f, g, root, ms, m) && IsDirectory(ms[m])
    ensures TreeIs(f, g, root, ms, m + 1)
  {
    hide Resolve, Contents;
    forall q {:trigger Expected(f, g, root, ms, m + 1, q)} | PlainPath(q)
      ensures Expected(f, g, root, ms, m + 1, q)
    {
      assert Expected(f, g, root, ms, m, q);
      OneMore(ms, m, q);
    }
  }

  lemma OneMore(ms: seq<Member>, m: nat, q: Path)
    requires m < |ms|
    ensures HasFile(ms, m + 1, q) <==> HasFile(ms, m, q) || FileAt(ms, m, q)
    ensures Under(ms, m + 1, q) <==> Under(ms, m, q) || Below(ms, m, q)
    ensures LastBody(ms, m + 1, q) == if FileAt(ms, m, q) then ms[m].body else LastBody(ms, m, q)
  {
    hide FileAt, Below;
  }

  /** A name on the way to something is a directory's. */
  lemma ProperPrefixLists(f: Fs, d: Ptr, q: Path, p: Path)
    requires FsOk(f) && q < p && Resolve(f, d, p) != 0
    ensures Lists(f, Resolve(f, d, q))
  {
    var next := p[..|q| + 1];
    hide FsOk;
    PrefixThere(f, d, next, p);
    assert next[..|q|] == q;
  }

  /** The path of a member can be opened for creation. */
  lemma MemberOpens(f: Fs, g: Fs, root: Ptr, ms: seq<Member>, m: nat, p: seq<byte>)
    requires m < |ms| && TreeIs(f, g, root, ms, m) && Unpackable(f, root, ms) && !IsDirectory(ms[m])
    requires |p| >= 3 && p[3..] == NameOfMember(ms[m])
    ensures Openable(g, root, p, 2) && ForFile(p) && NamesOf(p) == NamesOfMember(ms[m])
    ensures Resolve(g, root, NamesOf(p)) != 0 ==> Regular(g, Resolve(g, root, NamesOf(p)))
  {
    var names := NamesOfMember(ms[m]);
    hide Resolve, Contents, MemberOk, NameFits, Names;
    assert NamesOk(ms[m]) && RoomFor(f, root, ms[m]);
    forall k {:trigger DirOrNone(g, Resolve(g, root, names[..k + 1]))} | 0 <= k < Dirs(p)
      ensures DirOrNone(g, Resolve(g, root, names[..k + 1]))
    {
      OnTheWay(f, g, root, ms, m, names[..k + 1]);
    }
    forall k {:trigger Creatable(g, root, names, k)} | 0 <= k < |names|
      ensures Creatable(g, root, names, k)
    {
    }
    AtTheEnd(f, g, root, ms, m);
  }

  lemma OnTheWay(f: Fs, g: Fs, root: Ptr, ms: seq<Member>, m: nat, q: Path)
    requires m < |ms| && TreeIs(f, g, root, ms, m) && NoClash(ms) && !IsDirectory(ms[m])
    requires NamesOk(ms[m]) && RoomFor(f, root, ms[m]) && q < NamesOfMember(ms[m])
    ensures DirOrNone(g, Resolve(g, root, q))
  {
    hide Resolve, Contents, NameFits, Names;
    var names := NamesOfMember(ms[m]);
    assert PlainPath(q) by {
      forall i | 0 <= i < |q| ensures Plain(q[i]) { assert q[i] == names[i]; }
    }
    assert Expected(f, g, root, ms, m, q);
    NoFileAbove(ms, m, q);
  }

  lemma NoFileAbove(ms: seq<Member>, m: nat, q: Path)
    requires m < |ms| && NoClash(ms) && !IsDirectory(ms[m]) && q < NamesOfMember(ms[m])
    ensures !HasFile(ms, m, q)
  {
    forall i | 0 <= i < m
      ensures !FileAt(ms, i, q)
    {
      assert IsDirectory(ms[i]) || !(NamesOfMember(ms[i]) < NamesOfMember(ms[m]));
    }
  }

  lemma NoFileBelow(ms: seq<Member>, m: nat)
    requires m < |ms| && NoClash(ms) && !IsDirectory(ms[m])
    ensures Under(ms, m, NamesOfMember(ms[m])) ==> HasFile(ms, m, NamesOfMember(ms[m]))
  {
    var q := NamesOfMember(ms[m]);
    if i :| 0 <= i < m && Below(ms, i, q) {
      assert !(NamesOfMember(ms[m]) < NamesOfMember(ms[i]));
      assert FileAt(ms, i, q);
    }
  }

  lemma AtTheEnd(f: Fs, g: Fs, root: Ptr, ms: seq<Member>, m: nat)
    requires m < |ms| && TreeIs(f, g, root, ms, m) && NoClash(ms) && !IsDirectory(ms[m])
    requires NamesOk(ms[m]) && RoomFor(f, root, ms[m])
    ensures var c := Resolve(g, root, NamesOfMember(ms[m])); c != 0 ==> Regular(g, c)
  {
    hide Resolve, Contents, NameFits, Names;
    var q := NamesOfMember(ms[m]);
    assert Expected(f, g, root, ms, m, q);
    NoFileBelow(ms, m);
  }

  /** A path other than the member's: opening the member's path only makes the directories on the way. */
  lemma OtherPathOpened(f: Fs, g: Fs, g1: Fs, root: Ptr, ms: seq<Member>, m: nat, q: Path)
    requires m < |ms| && !IsDirectory(ms[m]) && FsOk(g) && FsOk(g1) && IsRoot(f, root) && IsRoot(g, root) && FsOk(f)
    requires PlainPath(q) && q != NamesOfMember(ms[m]) && Expected(f, g, root, ms, m, q)
    requires Preserved(g, g1) && Resolve(g1, root, NamesOfMember(ms[m])) != 0
    requires TreeGrown(g, g1, root, NamesOfMember(ms[m])) || g1 == g
    requires Resolve(g, root, NamesOfMember(ms[m])) != 0 ==> g1 == g
    ensures Expected(f, g1, root, ms, m + 1, q)
  {
    var names := NamesOfMember(ms[m]);
    hide FsOk, Contents, IsRoot, NamesOfMember, FileAt, Below, HasFile, Under, LastBody;
    OneMore(ms, m, q);
    NotThisFile(ms, m, q);
    var c := Resolve(g, root, q);
    if c != 0 {
      assert Resolve(g1, root, q) == c;
      RootThere(g, root);
      ResolveThere(g, root, q);
      assert SameKind(g, g1, c);
      assert c in g.chains ==> SameFile(g, g1, c);
    } else if q <= names {
      ProperPrefixLists(g1, root, q, names);
    } else {
      assert Resolve(g1, root, q) == 0;
    }
  }

  lemma RootThere(g: Fs, root: Ptr)
    requires IsRoot(g, root)
    ensures root in g.inodes
  {
  }

  lemma NotThisFile(ms: seq<Member>, m: nat, q: Path)
    requires m < |ms| && !IsDirectory(ms[m]) && q != NamesOfMember(ms[m])
    ensures !FileAt(ms, m, q) && (Below(ms, m, q) <==> q < NamesOfMember(ms[m]))
  {
  }

  /** The same path after the file is written. */
  lemma OtherPathWritten(f: Fs, g1: Fs, g2: Fs, root: Ptr, ms: seq<Member>, m: nat, q: Path, c: Ptr, data: seq<byte>)
    requires m <= |ms| && FsOk(g1) && FsOk(g2) && Wrote(g1, g2, c, data) && Expected(f, g1, root, ms, m, q) && Resolve(g1, root, q) != c
    ensures Expected(f, g2, root, ms, m, q)
  {
    hide FsOk, Contents, Resolve, HasFile, Under, LastBody;
    ResolveWritten(g1, g2, c, data, root, q);
    var d := Resolve(g1, root, q);
    if d in g1.chains {
      WroteKeepsOthers(g1, g2, c, data, d);
    }
  }

  /** The member's own path after the file is written. */
  lemma OwnPathWritten(f: Fs, g1: Fs, g2: Fs, root: Ptr, ms: seq<Member>, m: nat, c: Ptr)
    requires m < |ms| && !IsDirectory(ms[m]) && FsOk(g1) && FsOk(g2) && Wrote(g1, g2, c, ms[m].body)
    requires c == Resolve(g1, root, NamesOfMember(ms[m])) && Regular(g1, c)
    ensures Expected(f, g2, root, ms, m + 1, NamesOfMember(ms[m]))
  {
    var q := NamesOfMember(ms[m]);
    hide FsOk, Contents, Resolve, HasFile, Under, LastBody;
    ResolveWritten(g1, g2, c, ms[m].body, root, q);
    OneMore(ms, m, q);
    assert FileAt(ms, m, q);
  }

  /** Opening a file member's path and writing its contents there gives the tree with one member more. */
  lemma TreeWrites(f: Fs, g: Fs, g1: Fs, g2: Fs, root: Ptr, ms: seq<Member>, m: nat, c: Ptr)
    requires m < |ms| && !IsDirectory(ms[m]) && FsOk(f) && FsOk(g) && FsOk(g1) && FsOk(g2)
    requires IsRoot(f, root) && IsRoot(g, root) && IsRoot(g1, root) && TreeIs(f, g, root, ms, m)
    requires Preserved(g, g1) && PlainPath(NamesOfMember(ms[m]))
    requires TreeGrown(g, g1, root, NamesOfMember(ms[m])) || g1 == g
    requires Resolve(g, root, NamesOfMember(ms[m])) != 0 ==> g1 == g
    requires c == Resolve(g1, root, NamesOfMember(ms[m])) != 0 && Regular(g1, c) && Wrote(g1, g2, c, ms[m].body)
    ensures TreeIs(f, g2, root, ms, m + 1)
  {
    hide FsOk, Contents, Resolve, HasFile, Under, LastBody, IsRoot, NamesOfMember, Preserved, TreeGrown, Wrote, Regular;
    var names := NamesOfMember(ms[m]);
    forall q {:trigger Expected(f, g2, root, ms, m + 1, q)} | PlainPath(q)
      ensures Expected(f, g2, root, ms, m + 1, q)
    {
      if q == names {
        OwnPathWritten(f, g1, g2, root, ms, m, c);
      } else {
        assert Expected(f, g, root, ms, m, q);
        OtherPathOpened(f, g, g1, root, ms, m, q);
        if Resolve(g1, root, q) == c {
          PathsUnique(g1, root, q, root, names);
        }
        OtherPathWritten(f, g1, g2, root, ms, m + 1, q, c, ms[m].body);
      }
    }
  }
}
