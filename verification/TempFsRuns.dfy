/**
Every run of TempFS operations, from nothing stored: file systems made, directories, files
and devices made in any directory, and files written, in any order.
*/
module TempFsRuns {
  import opened Bytes
  import opened TempFsModel
  import opened TempFsSteps
  import opened TempFsContents
  import opened TempFsTree
  import opened TempFsThrough

  datatype Event = NewFs | Mkdir(h: Ptr, name: seq<byte>) | Mkfile(h: Ptr, name: seq<byte>, kind: byte, ops: nat) | Write(file: Ptr, data: seq<byte>)

  /** What the methods of `TempFs.FileSystem` promise, one call each. */
  ghost predicate Step(f: Fs, e: Event, g: Fs) {
    FsOk(f) &&
    match e
    case NewFs => g == WithRoot(f)
    case Mkdir(h, name) => CanAppend(f, h, name) && g == WithDir(f, h, name)
    case Mkfile(h, name, kind, ops) => CanAppend(f, h, name) && g == WithFile(f, h, name, kind, ops)
    case Write(c, data) => FsOk(g) && Wrote(f, g, c, data)
  }

  ghost predicate Run(ss: seq<Fs>, es: seq<Event>) {
    && |ss| == |es| + 1 && ss[0] == EMPTY
    && forall k {:trigger es[k]} :: 0 <= k < |es| ==> Step(ss[k], es[k], ss[k + 1])
  }

  /** A creation adds one name in one directory, or a directory of its own. */
  lemma StepGrows(f: Fs, e: Event, g: Fs) returns (h: Ptr, name: seq<byte>)
    requires Step(f, e, g) && !e.Write?
    ensures Grows(f, g, h, name, f.brk)
  {
    hide FsOk, DirOk, SlotOk, FileOk, Grew, Added, WithDir, WithFile, WithRoot, NewFile, NewDir, IsRoot;
    BoundedOf(f);
    match e {
      case NewFs =>
        h, name := f.brk + 1, [];
        WithRootOk(f, g);
        assert h !in f.dirs.Keys;
      case Mkdir(k, n) =>
        h, name := k, n;
        WithDirOk(f, h, name, g);
      case Mkfile(k, n, kind, ops) =>
        h, name := k, n;
        WithFileOk(f, h, name, kind, ops, g);
    }
  }

  /** In every state of every run the counted walk of a directory ends on its last entry, sibling names differ, `.` and `..` share the entries they should, and chains are long enough and apart. */
  lemma {:induction false} RunOk(ss: seq<Fs>, es: seq<Event>, k: nat)
    requires Run(ss, es) && k <= |es|
    ensures FsOk(ss[k])
  {
    if k == 0 {
      EmptyOk();
    } else {
      assert Step(ss[k - 1], es[k - 1], ss[k]);
      hide FsOk;
      if !es[k - 1].Write? {
        var h, name := StepGrows(ss[k - 1], es[k - 1], ss[k]);
      }
    }
  }

  // ----- directories ----------------------------------------------------------------

  /** Every entry of a directory stays where it is. */
  lemma StepKeepsList(f: Fs, e: Event, g: Fs, h: Ptr)
    requires Step(f, e, g) && h in f.dirs
    ensures h in g.dirs && g.dirs[h].inode == f.dirs[h].inode && f.dirs[h].list <= g.dirs[h].list
  {
    hide FsOk, WithDir, WithFile, WithRoot, CanAppend, Lookup, Added, Contents, NodesKept;
    if !e.Write? {
      var k, name := StepGrows(f, e, g);
      assert ListKept(f, g, k, f.brk + 1, h);
    }
  }

  lemma StepKeepsPath(f: Fs, e: Event, g: Fs, d: Ptr, p: Path)
    requires Step(f, e, g) && Resolve(f, d, p) != 0
    ensures Resolve(g, d, p) == Resolve(f, d, p)
  {
    hide FsOk, Resolve;
    if e.Write? {
      ResolveWritten(f, g, e.file, e.data, d, p);
    } else {
      var h, name := StepGrows(f, e, g);
      ResolveKept(f, g, h, name, f.brk, d, p);
    }
  }

  /** The head of a directory's list never changes, and entries only come after the ones there are. */
  lemma {:induction false} HeadNeverChanges(ss: seq<Fs>, es: seq<Event>, i: nat, j: nat, h: Ptr)
    requires Run(ss, es) && i <= j <= |es| && h in ss[i].dirs
    ensures h in ss[j].dirs && ss[j].dirs[h].inode == ss[i].dirs[h].inode && ss[i].dirs[h].list <= ss[j].dirs[h].list
    decreases j
  {
    hide Step;
    if i < j {
      HeadNeverChanges(ss, es, i, j - 1, h);
      assert Step(ss[j - 1], es[j - 1], ss[j]);
      StepKeepsList(ss[j - 1], es[j - 1], ss[j], h);
    }
  }

  /** A path that leads somewhere leads there for ever. */
  lemma {:induction false} PathsStay(ss: seq<Fs>, es: seq<Event>, i: nat, j: nat, d: Ptr, p: Path)
    requires Run(ss, es) && i <= j <= |es| && Resolve(ss[i], d, p) != 0
    ensures Resolve(ss[j], d, p) == Resolve(ss[i], d, p)
    decreases j
  {
    hide Step, Resolve;
    if i < j {
      PathsStay(ss, es, i, j - 1, d, p);
      assert Step(ss[j - 1], es[j - 1], ss[j]);
      StepKeepsPath(ss[j - 1], es[j - 1], ss[j], d, p);
    }
  }

  // ----- contents -------------------------------------------------------------------

  /** A step changes the contents of the file it writes, if any, and of no other. */
  lemma StepContents(f: Fs, e: Event, g: Fs, c: Ptr)
    requires Step(f, e, g) && c in f.chains
    ensures c in g.chains && f.chains[c] <= g.chains[c]
    ensures if e.Write? && e.file == c then Contents(g, c) == e.data && |g.chains[c]| > Chunks(|e.data|) else Contents(g, c) == Contents(f, c)
  {
    hide FsOk, Contents, NodesKept, WithDir, WithFile, WithRoot, CanAppend, Lookup, Added, Grew;
    if e.Write? {
      if e.file != c {
        WroteKeepsOthers(f, g, e.file, e.data, c);
      }
    } else {
      var h, name := StepGrows(f, e, g);
      GrewKeepsContents(f, g, h, f.brk + 1, c);
    }
  }

  /** A chain never shrinks, and keeps its nodes. */
  lemma {:induction false} ChainNeverShrinks(ss: seq<Fs>, es: seq<Event>, i: nat, j: nat, c: Ptr)
    requires Run(ss, es) && i <= j <= |es| && c in ss[i].chains
    ensures c in ss[j].chains && ss[i].chains[c] <= ss[j].chains[c]
    decreases j
  {
    hide Step;
    if i < j {
      ChainNeverShrinks(ss, es, i, j - 1, c);
      assert Step(ss[j - 1], es[j - 1], ss[j]);
      StepContents(ss[j - 1], es[j - 1], ss[j], c);
    }
  }

  /**
  After any sequence of writes, long or short, to any files, a file holds its last write,
  and its chain has room for it and one node more.
  */
  lemma {:induction false} LastWriteStays(ss: seq<Fs>, es: seq<Event>, i: nat, j: nat, c: Ptr, data: seq<byte>)
    requires Run(ss, es) && i < j <= |es| && es[i] == Write(c, data)
    requires forall k :: i < k < j ==> !(es[k].Write? && es[k].file == c)
    ensures c in ss[j].chains && Contents(ss[j], c) == data && |ss[j].chains[c]| > Chunks(|data|)
    decreases j
  {
    hide Step, Contents;
    if i + 1 < j {
      LastWriteStays(ss, es, i, j - 1, c, data);
    } else {
      WrittenFileThere(ss[i], es[i], ss[j]);
    }
    assert Step(ss[j - 1], es[j - 1], ss[j]);
    StepContents(ss[j - 1], es[j - 1], ss[j], c);
  }

  lemma WrittenFileThere(f: Fs, e: Event, g: Fs)
    requires Step(f, e, g) && e.Write?
    ensures e.file in f.chains
  {
    hide FsOk;
  }

  /** Reading back: any number of bytes up to the length of the last write. */
  lemma ReadsLastWrite(ss: seq<Fs>, es: seq<Event>, i: nat, j: nat, c: Ptr, data: seq<byte>, buffer: seq<byte>, n: nat)
    requires Run(ss, es) && i < j <= |es| && es[i] == Write(c, data)
    requires forall k :: i < k < j ==> !(es[k].Write? && es[k].file == c)
    requires n <= |data| && n <= |buffer|
    ensures c in ss[j].chains && |ReadInto(buffer, ss[j].nodes, ss[j].chains[c], n)| == |buffer|
    ensures ReadInto(buffer, ss[j].nodes, ss[j].chains[c], n)[..n] == data[..n]
  {
    LastWriteStays(ss, es, i, j, c, data);
    RunOk(ss, es, j);
    hide FsOk, Run, Contents, ReadInto;
    ContentsLength(ss[j], c);
    ReadGives(ss[j], c, buffer, n);
  }

  /** Chains of different files share no node, in every state of every run. */
  lemma RunChainsApart(ss: seq<Fs>, es: seq<Event>, k: nat, c: Ptr, i: nat, d: Ptr, j: nat)
    requires Run(ss, es) && k <= |es| && c in ss[k].chains && d in ss[k].chains && c != d
    requires i < |ss[k].chains[c]| && j < |ss[k].chains[d]|
    ensures ss[k].chains[c][i] != ss[k].chains[d][j]
  {
    RunOk(ss, es, k);
    hide FsOk, Run;
    if ss[k].chains[c][i] == ss[k].chains[d][j] {
      ChainsApart(ss[k], c, i, d, j);
    }
  }

  // ----- adding through any inode ---------------------------------------------------

  /** In every state of every run a directory inode is a directory's own, or its `.` or somebody's `..`. */
  lemma {:induction false} RunPlaced(ss: seq<Fs>, es: seq<Event>, k: nat)
    requires Run(ss, es) && k <= |es|
    ensures AllPlaced(ss[k])
  {
    if k > 0 {
      RunPlaced(ss, es, k - 1);
      assert Step(ss[k - 1], es[k - 1], ss[k]);
      hide Run;
      StepPlaces(ss[k - 1], es[k - 1], ss[k]);
    }
  }

  lemma StepPlaces(f: Fs, e: Event, g: Fs)
    requires Step(f, e, g) && AllPlaced(f)
    ensures AllPlaced(g)
  {
    hide FsOk, AllPlaced, CanAppend, WithDir, WithFile, WithRoot, Wrote, HasTail, NameFits;
    match e
    case NewFs => RootPlaces(f, g);
    case Mkdir(h, name) => DirPlaces(f, h, name, g);
    case Mkfile(h, name, kind, ops) => FilePlaces(f, h, name, kind, ops, g);
    case Write(c, data) => WritePlaces(f, g, c, data);
  }

  /** Over every run: a file can be added through an inode without harm if and only if it is the directory's own. */
  lemma RunAddsThroughOwn(ss: seq<Fs>, es: seq<Event>, k: nat, d: Ptr, name: seq<byte>, next: seq<byte>)
    requires Run(ss, es) && k <= |es| && Lists(ss[k], d) && NameFits(name) && Lookup(ss[k], ss[k].inodes[d].first, name) == 0
    requires NameFits(next)
    ensures KeepsShape(ss[k], d, name) <==> Canonical(ss[k], d)
    ensures FsOk(ss[k])
    ensures AddsLoseNone(ss[k], d, ss[k].dirs[ss[k].inodes[d].first].inode, name, next) <==> Canonical(ss[k], d)
  {
    RunOk(ss, es, k);
    RunPlaced(ss, es, k);
    hide Run, FsOk, AllPlaced, KeepsShape, AddsLoseNone;
    KeepsShapeIffOwn(ss[k], d, name);
    LosesNoneIffOwn(ss[k], d, name, next);
  }
}
