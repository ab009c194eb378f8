/**
What a file holds: the data of its nodes in order, cut at its length; and what writing
one file does to the store (src/fs/tempfs.c:123-156).
*/
module TempFsContents {
  import opened Bytes
  import opened TempFsModel
  import opened TempFsSteps

  /** How many nodes hold `n` bytes. */
  function Chunks(n: nat): nat {
    (n + 4087) / 4088
  }

  /** How many of the first `n` bytes node `j` holds. */
  function Amount(n: nat, j: nat): nat {
    if n <= j * 4088 then 0 else if n - j * 4088 > 4088 then 4088 else n - j * 4088
  }

  /** The bytes of the nodes in order. */
  function Data(nodes: map<Ptr, FileNode>, l: seq<Ptr>): seq<byte> {
    if l == [] then []
    else Data(nodes, l[..|l| - 1]) + if l[|l| - 1] in nodes then nodes[l[|l| - 1]].data else []
  }

  ghost predicate FullNode(nodes: map<Ptr, FileNode>, p: Ptr) {
    p in nodes && |nodes[p].data| == CHUNK
  }

  lemma {:induction false} DataLength(nodes: map<Ptr, FileNode>, l: seq<Ptr>)
    requires forall j :: 0 <= j < |l| ==> FullNode(nodes, l[j])
    ensures |Data(nodes, l)| == CHUNK * |l|
  {
    if l != [] {
      DataLength(nodes, l[..|l| - 1]);
      assert FullNode(nodes, l[|l| - 1]);
    }
  }

  lemma {:induction false} DataPrefix(nodes: map<Ptr, FileNode>, l: seq<Ptr>, k: nat)
    requires k <= |l|
    ensures Data(nodes, l[..k]) <= Data(nodes, l)
  {
    if k < |l| {
      DataPrefix(nodes, l[..|l| - 1], k);
      assert l[..|l| - 1][..k] == l[..k];
    } else {
      assert l[..k] == l;
    }
  }

  lemma {:induction false} DataSame(nodes: map<Ptr, FileNode>, other: map<Ptr, FileNode>, l: seq<Ptr>)
    requires forall j :: 0 <= j < |l| ==> l[j] in nodes && l[j] in other && nodes[l[j]].data == other[l[j]].data
    ensures Data(nodes, l) == Data(other, l)
  {
    if l != [] {
      DataSame(nodes, other, l[..|l| - 1]);
    }
  }

  /** Node `j` of a chain holds its share of `data`. */
  ghost predicate Holds(nodes: map<Ptr, FileNode>, l: seq<Ptr>, data: seq<byte>, j: nat) {
    && j < |l| && FullNode(nodes, l[j]) && j * 4088 + Amount(|data|, j) <= |data|
    && nodes[l[j]].data[..Amount(|data|, j)] == data[j * 4088..j * 4088 + Amount(|data|, j)]
  }

  /** When every node holds its share, the chain starts with the data. */
  lemma {:induction false} SharesMakeData(nodes: map<Ptr, FileNode>, l: seq<Ptr>, data: seq<byte>, k: nat)
    requires k <= |l| && k <= Chunks(|data|)
    requires forall j :: 0 <= j < k ==> Holds(nodes, l, data, j)
    ensures |Data(nodes, l[..k])| == 4088 * k
    ensures 4088 * k <= |data| ==> Data(nodes, l[..k]) == data[..4088 * k]
    ensures 4088 * k > |data| ==> Data(nodes, l[..k])[..|data|] == data
  {
    if k > 0 {
      SharesMakeData(nodes, l, data, k - 1);
      assert Holds(nodes, l, data, k - 1);
      assert l[..k][..k - 1] == l[..k - 1];
      var before, a := Data(nodes, l[..k - 1]), Amount(|data|, k - 1);
      var last := nodes[l[k - 1]].data;
      assert Data(nodes, l[..k]) == before + last;
      assert before == data[..4088 * (k - 1)];
      assert last[..a] == data[4088 * (k - 1)..4088 * (k - 1) + a];
      assert (before + last)[..4088 * (k - 1) + a] == before + last[..a];
      assert data[..4088 * (k - 1) + a] == before + data[4088 * (k - 1)..4088 * (k - 1) + a];
    }
  }

  /** What reading a whole file gives. */
  function Contents(f: Fs, c: Ptr): seq<byte> {
    if c in f.chains && c in f.inodes && f.inodes[c].length <= |Data(f.nodes, f.chains[c])|
    then Data(f.nodes, f.chains[c])[..f.inodes[c].length] else []
  }

  /** A node that stays where it is, and that no write to a file other than its own changes. */
  ghost predicate NodeSame(f: Fs, g: Fs, c: Ptr, p: Ptr)
    requires p in f.nodes
  {
    && p in g.nodes
    && (p in f.owner ==> p in g.owner && g.owner[p] == f.owner[p] && (f.owner[p].owner != c ==> g.nodes[p] == f.nodes[p]))
  }

  ghost predicate NodesKept(f: Fs, g: Fs, c: Ptr) {
    forall p {:trigger NodeSame(f, g, c, p)} :: p in f.nodes ==> NodeSame(f, g, c, p)
  }

  /** A node of the chain `l` of the file `c`. */
  ghost predicate LinkOk(g: Fs, c: Ptr, l: seq<Ptr>, i: nat) {
    && i < |l| && l[i] in g.nodes && g.nodes[l[i]].next == NextIn(l, i) && |g.nodes[l[i]].data| == CHUNK
    && l[i] in g.owner && g.owner[l[i]] == Place(c, i)
  }

  /** The inodes and links that a write to `c` leaves, with `l` the file's chain after it. */
  ghost predicate OnlyFile(f: Fs, g: Fs, c: Ptr, n: nat, l: seq<Ptr>) {
    && c in f.chains && c in f.inodes && f.inodes[c].kind != DEVICE && !f.inodes[c].isDir
    && g.entries == f.entries && g.dirs == f.dirs && g.home == f.home
    && |l| > 0 && f.chains[c] <= l
    && g.inodes == f.inodes[c := f.inodes[c].(length := n, first := l[0])]
    && g.chains == f.chains[c := l]
  }

  /** Writing `data` to the file `c`: its chain keeps its nodes and ends with one node more than the data needs, or more. */
  ghost predicate Wrote(f: Fs, g: Fs, c: Ptr, data: seq<byte>) {
    && c in g.chains && OnlyFile(f, g, c, |data|, g.chains[c]) && NodesKept(f, g, c)
    && |g.chains[c]| == (if |f.chains[c]| > Chunks(|data|) then |f.chains[c]| else Chunks(|data|) + 1)
    && Contents(g, c) == data
  }

  // ----- a write keeps the shape ----------------------------------------------------

  lemma DirsKept(f: Fs, g: Fs, c: Ptr, n: nat, l: seq<Ptr>, h: Ptr)
    requires FsOk(f) && OnlyFile(f, g, c, n, l) && h in f.dirs
    ensures h in g.dirs && DirOk(g, h)
  {
    Shape(f, h);
    forall i | 0 <= i < |f.dirs[h].list|
      ensures SlotOk(g, h, i) && NameOf(g, At(g, h, i)) == NameOf(f, At(f, h, i))
    {
      SlotParts(f, h, i);
      SlotSame(f, g, c, n, l, h, i);
    }
    hide SlotOk, NamesDiffer, FsOk;
    NamesKept(f, g, h);
  }

  lemma SlotSame(f: Fs, g: Fs, c: Ptr, n: nat, l: seq<Ptr>, h: Ptr, i: nat)
    requires OnlyFile(f, g, c, n, l) && h in f.dirs && SlotOk(f, h, i)
    ensures h in g.dirs && SlotOk(g, h, i) && NameOf(g, At(g, h, i)) == NameOf(f, At(f, h, i))
  {
  }

  lemma OtherFileKept(f: Fs, g: Fs, c: Ptr, n: nat, l: seq<Ptr>, d: Ptr)
    requires FsOk(f) && OnlyFile(f, g, c, n, l) && NodesKept(f, g, c) && d in f.chains && d != c
    ensures d in g.chains && FileOk(g, d) && Contents(g, d) == Contents(f, d)
  {
    hide FsOk, DirOk, NodeOk, InodeOk;
    FileShape(f, d);
    forall i | 0 <= i < |f.chains[d]|
      ensures NodeOk(g, d, i) && f.chains[d][i] in f.nodes && f.chains[d][i] in g.nodes && g.nodes[f.chains[d][i]].data == f.nodes[f.chains[d][i]].data
    {
      assert NodeOk(f, d, i);
      OtherNode(f, g, c, d, i);
    }
    DataSame(f.nodes, g.nodes, f.chains[d]);
  }

  lemma FileShape(f: Fs, d: Ptr)
    requires FsOk(f) && d in f.chains
    ensures FileOk(f, d)
  {
    hide DirOk, FileOk;
    assert FileOk(f, d);
  }

  lemma OtherNode(f: Fs, g: Fs, c: Ptr, d: Ptr, i: nat)
    requires NodesKept(f, g, c) && d in f.chains && d in g.chains && g.chains[d] == f.chains[d] && d != c && NodeOk(f, d, i)
    ensures NodeOk(g, d, i) && f.chains[d][i] in f.nodes && f.chains[d][i] in g.nodes && g.nodes[f.chains[d][i]] == f.nodes[f.chains[d][i]]
  {
    assert NodeSame(f, g, c, f.chains[d][i]);
  }

  lemma OwnFileOk(g: Fs, c: Ptr)
    requires c in g.chains && c in g.inodes && !g.inodes[c].isDir && g.inodes[c].kind != DEVICE
    requires |g.chains[c]| > Chunks(g.inodes[c].length) && g.inodes[c].first == g.chains[c][0]
    requires forall i {:trigger LinkOk(g, c, g.chains[c], i)} :: 0 <= i < |g.chains[c]| ==> LinkOk(g, c, g.chains[c], i)
    ensures FileOk(g, c)
  {
    forall i | 0 <= i < |g.chains[c]|
      ensures NodeOk(g, c, i)
    {
      assert LinkOk(g, c, g.chains[c], i);
    }
  }

  /** Writing a file keeps the shape, and every other file's contents. */
  lemma WroteOk(f: Fs, g: Fs, c: Ptr, data: seq<byte>)
    requires FsOk(f) && Wrote(f, g, c, data) && Bounded(g)
    requires forall i {:trigger LinkOk(g, c, g.chains[c], i)} :: 0 <= i < |g.chains[c]| ==> LinkOk(g, c, g.chains[c], i)
    ensures FsOk(g)
  {
    var l := g.chains[c];
    OwnFileOk(g, c);
    hide FsOk, DirOk, FileOk, LinkOk, NodesKept, Bounded;
    forall h | h in g.dirs
      ensures DirOk(g, h)
    {
      DirsKept(f, g, c, |data|, l, h);
    }
    forall d | d in g.chains
      ensures FileOk(g, d)
    {
      if d != c { OtherFileKept(f, g, c, |data|, l, d); }
    }
    Assemble(g);
  }

  /** A write changes no other file. */
  lemma WroteKeepsOthers(f: Fs, g: Fs, c: Ptr, data: seq<byte>, d: Ptr)
    requires FsOk(f) && Wrote(f, g, c, data) && d in f.chains && d != c
    ensures d in g.chains && g.chains[d] == f.chains[d] && Contents(g, d) == Contents(f, d)
  {
    hide FsOk;
    OtherFileKept(f, g, c, |data|, g.chains[c], d);
  }

  /** Creating something changes no file. */
  lemma GrewKeepsContents(f: Fs, g: Fs, h: Ptr, e: Ptr, d: Ptr)
    requires FsOk(f) && Grew(f, g, h, e) && d in f.chains
    ensures d in g.chains && g.chains[d] == f.chains[d] && Contents(g, d) == Contents(f, d)
  {
    hide FsOk, DirOk;
    FileShape(f, d);
    if h in f.dirs {
      Tail(f, h);
    }
    assert ChainKept(f, g, d) && InodeKept(f, g, h, d);
  }

  /** The nodes of two files' chains are all different. */
  lemma ChainsApart(f: Fs, c: Ptr, i: nat, d: Ptr, j: nat)
    requires FsOk(f) && c in f.chains && d in f.chains && i < |f.chains[c]| && j < |f.chains[d]|
    requires f.chains[c][i] == f.chains[d][j]
    ensures c == d && i == j
  {
    FileShape(f, c);
    FileShape(f, d);
    hide FsOk;
    assert NodeOk(f, c, i) && NodeOk(f, d, j);
  }

  // ----- the steps of a write -------------------------------------------------------

  /** A write to `c` of which `k` nodes are done, its chain long enough for `m + 1` nodes. */
  ghost predicate Writing(f: Fs, g: Fs, c: Ptr, data: seq<byte>, k: nat, m: nat) {
    && c in g.chains && OnlyFile(f, g, c, |data|, g.chains[c]) && NodesKept(f, g, c) && Bounded(g)
    && |g.chains[c]| == (if |f.chains[c]| > m then |f.chains[c]| else m + 1)
    && (forall i {:trigger LinkOk(g, c, g.chains[c], i)} :: 0 <= i < |g.chains[c]| ==> LinkOk(g, c, g.chains[c], i))
    && (forall j {:trigger Holds(g.nodes, g.chains[c], data, j)} :: 0 <= j < k ==> Holds(g.nodes, g.chains[c], data, j))
  }

  /** The store with a node after the last of the chain of `c`. */
  function Extended(g: Fs, c: Ptr, stale: seq<byte>): Fs
    requires c in g.chains && |g.chains[c]| > 0 && g.chains[c][|g.chains[c]| - 1] in g.nodes
  {
    var l := g.chains[c];
    var last := l[|l| - 1];
    g.(nodes := g.nodes[last := g.nodes[last].(next := g.brk)][g.brk := FileNode(stale, 0)],
       chains := g.chains[c := l + [g.brk]], owner := g.owner[g.brk := Place(c, |l|)], brk := g.brk + 1)
  }

  /** The store with `bytes` at the start of node `k` of the chain of `c`. */
  function Filled(g: Fs, c: Ptr, k: nat, bytes: seq<byte>): Fs
    requires c in g.chains && k < |g.chains[c]| && g.chains[c][k] in g.nodes && |bytes| <= |g.nodes[g.chains[c][k]].data|
  {
    var p := g.chains[c][k];
    g.(nodes := g.nodes[p := g.nodes[p].(data := bytes + g.nodes[p].data[|bytes|..])])
  }

  /** The share of node `k` is the same bytes of the caller's buffer, of which `len` are written. */
  lemma Share(data: seq<byte>, len: nat, k: nat)
    requires len <= |data| && k * 4088 < len
    ensures 0 < Amount(len, k) <= 4088 && k * 4088 + Amount(len, k) <= len && k + 1 <= Chunks(len)
    ensures data[k * 4088..k * 4088 + Amount(len, k)] == data[..len][k * 4088..k * 4088 + Amount(len, k)]
    ensures k * 4088 + 4088 < len ==> Amount(len, k) == 4088
    ensures k * 4088 + 4088 >= len ==> Amount(len, k) == len - k * 4088 && k + 1 == Chunks(len)
  {
  }

  lemma LinkThere(f: Fs, g: Fs, c: Ptr, data: seq<byte>, k: nat, m: nat, i: nat)
    requires Writing(f, g, c, data, k, m) && i < |g.chains[c]|
    ensures LinkOk(g, c, g.chains[c], i) && 0 < g.chains[c][i] < g.brk && g.chains[c][i] in g.nodes
    ensures g.nodes[g.chains[c][i]].next == NextIn(g.chains[c], i) && |g.nodes[g.chains[c][i]].data| == CHUNK
  {
    hide Holds, NodesKept, OnlyFile;
    assert LinkOk(g, c, g.chains[c], i);
  }

  /** Growing a chain by a fresh node. */
  lemma ExtendStep(f: Fs, g: Fs, c: Ptr, data: seq<byte>, k: nat, stale: seq<byte>, x: Fs)
    requires Writing(f, g, c, data, k, k) && |g.chains[c]| == k + 1 && |stale| == CHUNK
    requires g.chains[c][k] in g.nodes && x == Extended(g, c, stale)
    ensures Writing(f, x, c, data, k, k + 1) && c in x.chains && x.chains[c] == g.chains[c] + [g.brk]
  {
    var l := g.chains[c];
    LinkThere(f, g, c, data, k, k, k);
    assert g.brk !in g.nodes.Keys;
    forall i {:trigger LinkOk(x, c, x.chains[c], i)} | 0 <= i < |x.chains[c]|
      ensures LinkOk(x, c, x.chains[c], i)
    {
      if i < |l| {
        LinkThere(f, g, c, data, k, k, i);
        LinkExtended(g, c, stale, x, i, k);
      }
    }
    forall j {:trigger Holds(x.nodes, x.chains[c], data, j)} | 0 <= j < k
      ensures Holds(x.nodes, x.chains[c], data, j)
    {
      assert Holds(g.nodes, g.chains[c], data, j);
      LinkThere(f, g, c, data, k, k, j);
    }
    hide Holds, LinkOk;
    NodesExtended(f, g, c, k, stale, x);
    BoundsExtended(g, c, stale, x);
  }

  lemma LinkExtended(g: Fs, c: Ptr, stale: seq<byte>, x: Fs, i: nat, k: nat)
    requires c in g.chains && |g.chains[c]| == k + 1 && g.chains[c][k] in g.nodes && x == Extended(g, c, stale)
    requires LinkOk(g, c, g.chains[c], i) && LinkOk(g, c, g.chains[c], k) && g.brk !in g.nodes
    ensures LinkOk(x, c, x.chains[c], i)
  {
    assert x.chains[c][i] == g.chains[c][i];
  }

  lemma NodesExtended(f: Fs, g: Fs, c: Ptr, k: nat, stale: seq<byte>, x: Fs)
    requires c in g.chains && |g.chains[c]| == k + 1 && g.chains[c][k] in g.nodes && x == Extended(g, c, stale)
    requires NodesKept(f, g, c) && LinkOk(g, c, g.chains[c], k) && g.brk !in g.nodes
    ensures NodesKept(f, x, c)
  {
    forall p {:trigger NodeSame(f, x, c, p)} | p in f.nodes
      ensures NodeSame(f, x, c, p)
    {
      assert NodeSame(f, g, c, p);
    }
  }

  lemma BoundsExtended(g: Fs, c: Ptr, stale: seq<byte>, x: Fs)
    requires c in g.chains && |g.chains[c]| > 0 && g.chains[c][|g.chains[c]| - 1] in g.nodes && x == Extended(g, c, stale) && Bounded(g)
    ensures Bounded(x)
  {
  }

  /** Copying the next share of the data into its node. */
  lemma FillStep(f: Fs, g: Fs, c: Ptr, data: seq<byte>, k: nat, x: Fs)
    requires Writing(f, g, c, data, k, k + 1) && k * 4088 + Amount(|data|, k) <= |data|
    requires c in g.chains && k < |g.chains[c]| && g.chains[c][k] in g.nodes && |g.nodes[g.chains[c][k]].data| == CHUNK
    requires x == Filled(g, c, k, data[k * 4088..k * 4088 + Amount(|data|, k)])
    ensures Writing(f, x, c, data, k + 1, k + 1) && x.chains == g.chains && k + 1 < |x.chains[c]|
  {
    var l := g.chains[c];
    LinkThere(f, g, c, data, k, k + 1, k);
    forall i {:trigger LinkOk(x, c, x.chains[c], i)} | 0 <= i < |l|
      ensures LinkOk(x, c, x.chains[c], i)
    {
      LinkThere(f, g, c, data, k, k + 1, i);
    }
    forall j {:trigger Holds(x.nodes, x.chains[c], data, j)} | 0 <= j < k + 1
      ensures Holds(x.nodes, x.chains[c], data, j)
    {
      if j < k {
        assert Holds(g.nodes, g.chains[c], data, j);
        LinkThere(f, g, c, data, k, k + 1, j);
      }
    }
    hide Holds, Amount;
    forall p {:trigger NodeSame(f, x, c, p)} | p in f.nodes
      ensures NodeSame(f, x, c, p)
    {
      assert NodeSame(f, g, c, p);
    }
    assert x.nodes.Keys == g.nodes.Keys;
  }

  /** When every share is copied, the file reads as the data. */
  lemma FinishWrite(f: Fs, g: Fs, c: Ptr, data: seq<byte>)
    requires FsOk(f) && Writing(f, g, c, data, Chunks(|data|), Chunks(|data|))
    ensures Wrote(f, g, c, data) && FsOk(g)
  {
    var l, k := g.chains[c], Chunks(|data|);
    SharesMakeData(g.nodes, l, data, k);
    DataPrefix(g.nodes, l, k);
    hide FsOk, LinkOk, Holds, NodesKept, Bounded;
    var d := Data(g.nodes, l);
    assert |data| <= |d| && d[..|data|] == data;
    WroteOk(f, g, c, data);
  }

  /** The store when a write begins: the length is set, and there is a first node. */
  function Started(f: Fs, c: Ptr, n: nat, stale: seq<byte>): Fs
    requires c in f.inodes
  {
    var g := f.(inodes := f.inodes[c := f.inodes[c].(length := n)]);
    if g.inodes[c].first == 0 then
      g.(inodes := g.inodes[c := g.inodes[c].(first := g.brk)], nodes := g.nodes[g.brk := FileNode(stale, 0)],
         chains := g.chains[c := [g.brk]], owner := g.owner[g.brk := Place(c, 0)], brk := g.brk + 1)
    else g
  }

  /** The first node of a file's chain. */
  lemma ChainStart(f: Fs, c: Ptr)
    requires FsOk(f) && c in f.chains
    ensures c in f.inodes && c < f.brk && !f.inodes[c].isDir && f.brk !in f.nodes
    ensures f.inodes[c].first == 0 ==> f.chains[c] == []
    ensures f.inodes[c].first != 0 ==> |f.chains[c]| > 0 && f.chains[c][0] == f.inodes[c].first
    ensures forall i {:trigger LinkOk(f, c, f.chains[c], i)} :: 0 <= i < |f.chains[c]| ==> LinkOk(f, c, f.chains[c], i)
  {
    FileShape(f, c);
    BoundedOf(f);
    assert c in f.chains.Keys && f.brk !in f.nodes.Keys;
    hide FsOk;
    forall i {:trigger LinkOk(f, c, f.chains[c], i)} | 0 <= i < |f.chains[c]|
      ensures LinkOk(f, c, f.chains[c], i) && f.chains[c][i] in f.nodes.Keys
    {
      assert NodeOk(f, c, i);
    }
    assert |f.chains[c]| > 0 ==> LinkOk(f, c, f.chains[c], 0) && f.chains[c][0] in f.nodes.Keys;
  }

  lemma StartWrite(f: Fs, c: Ptr, data: seq<byte>, stale: seq<byte>, g: Fs)
    requires FsOk(f) && c in f.chains && c in f.inodes && f.inodes[c].kind != DEVICE && |stale| == CHUNK
    requires g == Started(f, c, |data|, stale)
    ensures Writing(f, g, c, data, 0, 0) && c in g.chains && |g.chains[c]| > 0 && c in g.inodes && g.inodes[c].first == g.chains[c][0]
  {
    ChainStart(f, c);
    BoundedOf(f);
    hide FsOk, LinkOk;
    LinksStarted(f, c, |data|, stale, g);
    BoundsStarted(f, c, |data|, stale, g);
    assert f.chains[c] <= g.chains[c];
    assert g.inodes == f.inodes[c := f.inodes[c].(length := |data|, first := g.chains[c][0])];
    assert g.chains == f.chains[c := g.chains[c]];
    forall p {:trigger NodeSame(f, g, c, p)} | p in f.nodes
      ensures NodeSame(f, g, c, p)
    {
    }
  }

  lemma LinksStarted(f: Fs, c: Ptr, n: nat, stale: seq<byte>, g: Fs)
    requires c in f.inodes && c in f.chains && |stale| == CHUNK && g == Started(f, c, n, stale)
    requires f.inodes[c].first == 0 ==> f.chains[c] == []
    requires forall i {:trigger LinkOk(f, c, f.chains[c], i)} :: 0 <= i < |f.chains[c]| ==> LinkOk(f, c, f.chains[c], i)
    ensures c in g.chains
    ensures forall i {:trigger LinkOk(g, c, g.chains[c], i)} :: 0 <= i < |g.chains[c]| ==> LinkOk(g, c, g.chains[c], i)
  {
    forall i {:trigger LinkOk(g, c, g.chains[c], i)} | 0 <= i < |g.chains[c]|
      ensures LinkOk(g, c, g.chains[c], i)
    {
      if f.inodes[c].first != 0 {
        assert LinkOk(f, c, f.chains[c], i);
      }
    }
  }

  lemma BoundsStarted(f: Fs, c: Ptr, n: nat, stale: seq<byte>, g: Fs)
    requires Bounded(f) && c in f.inodes && c in f.chains && g == Started(f, c, n, stale)
    ensures Bounded(g)
  {
    assert c in f.inodes.Keys;
  }

  /** A node without a next one is the last of its chain, which then was not longer before the write. */
  lemma ChainEnd(f: Fs, g: Fs, c: Ptr, data: seq<byte>, k: nat)
    requires Writing(f, g, c, data, k, k) && k < |g.chains[c]| && g.chains[c][k] in g.nodes
    ensures g.nodes[g.chains[c][k]].next == 0 ==> |g.chains[c]| == k + 1
    ensures g.nodes[g.chains[c][k]].next != 0 ==> Writing(f, g, c, data, k, k + 1)
  {
    LinkThere(f, g, c, data, k, k, k);
    if k + 1 < |g.chains[c]| {
      LinkThere(f, g, c, data, k, k, k + 1);
    }
    hide OnlyFile, NodesKept, Bounded, Holds;
    assert LinkOk(g, c, g.chains[c], k);
  }

  // ----- reading --------------------------------------------------------------------

  /** The bytes that reading at most `n` bytes of a chain copies. */
  function ReadBytes(nodes: map<Ptr, FileNode>, l: seq<Ptr>, n: nat): seq<byte> {
    var d := Data(nodes, l);
    if n < |d| then d[..n] else d
  }

  /** A caller's buffer after reading. */
  function ReadInto(buffer: seq<byte>, nodes: map<Ptr, FileNode>, l: seq<Ptr>, n: nat): seq<byte> {
    var d := ReadBytes(nodes, l, n);
    if |d| <= |buffer| then Splice(buffer, 0, d) else buffer
  }

  /** A read within the length gives that prefix of what the file holds, and leaves the rest of the buffer. */
  lemma ReadGives(f: Fs, c: Ptr, buffer: seq<byte>, n: nat)
    requires FsOk(f) && c in f.chains && c in f.inodes && n <= |buffer|
    requires n <= f.inodes[c].length
    ensures n <= |Contents(f, c)| && |ReadInto(buffer, f.nodes, f.chains[c], n)| == |buffer|
    ensures ReadInto(buffer, f.nodes, f.chains[c], n)[..n] == Contents(f, c)[..n]
    ensures ReadInto(buffer, f.nodes, f.chains[c], n)[n..] == buffer[n..]
  {
    ContentsLength(f, c);
  }

  lemma ContentsLength(f: Fs, c: Ptr)
    requires FsOk(f) && c in f.chains
    ensures c in f.inodes && |Contents(f, c)| == f.inodes[c].length && |Data(f.nodes, f.chains[c])| == CHUNK * |f.chains[c]|
    ensures f.inodes[c].length <= |Data(f.nodes, f.chains[c])|
  {
    FileShape(f, c);
    hide FsOk;
    forall j | 0 <= j < |f.chains[c]|
      ensures FullNode(f.nodes, f.chains[c][j])
    {
      assert NodeOk(f, c, j);
    }
    DataLength(f.nodes, f.chains[c]);
  }

  lemma ReadStep(buffer: seq<byte>, nodes: map<Ptr, FileNode>, l: seq<Ptr>, n: nat, k: nat)
    requires k < |l| && k * 4088 < n && n <= |buffer| && FullNode(nodes, l[k]) && |Data(nodes, l[..k])| == 4088 * k
    ensures Amount(n, k) <= 4088 && k * 4088 + Amount(n, k) <= n && |nodes[l[k]].data| == 4088 && |Data(nodes, l[..k + 1])| == 4088 * (k + 1)
    ensures |ReadInto(buffer, nodes, l[..k], n)| == |buffer|
    ensures ReadInto(buffer, nodes, l[..k + 1], n) == Splice(ReadInto(buffer, nodes, l[..k], n), k * 4088, nodes[l[k]].data[..Amount(n, k)])
    ensures Amount(n, k) == if n - k * 4088 > 4088 then 4088 else n - k * 4088
  {
    assert l[..k + 1][..k] == l[..k];
    var d := Data(nodes, l[..k]);
    assert Data(nodes, l[..k + 1]) == d + nodes[l[k]].data;
    assert ReadBytes(nodes, l[..k], n) == d;
    var a := Amount(n, k);
    assert ReadBytes(nodes, l[..k + 1], n) == d + nodes[l[k]].data[..a];
    SpliceTwice(buffer, d, nodes[l[k]].data[..a]);
  }

  lemma SpliceTwice(buffer: seq<byte>, d: seq<byte>, e: seq<byte>)
    requires |d| + |e| <= |buffer|
    ensures Splice(buffer, 0, d + e) == Splice(Splice(buffer, 0, d), |d|, e)
  {
  }

  /** Once `n` bytes are read, the rest of the chain does not matter. */
  lemma ReadEnough(buffer: seq<byte>, nodes: map<Ptr, FileNode>, l: seq<Ptr>, n: nat, k: nat)
    requires k <= |l| && n <= |Data(nodes, l[..k])|
    ensures ReadInto(buffer, nodes, l[..k], n) == ReadInto(buffer, nodes, l, n)
  {
    DataPrefix(nodes, l, k);
  }

  lemma FileNodeOf(f: Fs, c: Ptr, k: nat)
    requires FsOk(f) && c in f.chains && k < |f.chains[c]|
    ensures 0 < f.chains[c][k] && FullNode(f.nodes, f.chains[c][k]) && f.nodes[f.chains[c][k]].next == NextIn(f.chains[c], k)
  {
    FileShape(f, c);
    BoundedOf(f);
    hide FsOk;
    assert NodeOk(f, c, k);
    assert f.chains[c][k] in f.nodes.Keys;
  }
}
