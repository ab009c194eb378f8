/**
`virt_to_phys`, `map_pages` and `alloc_pages` (src/mem/paging.c) on the
page tables in physical memory.
*/
module Paging {
  import opened Bytes
  import opened KernelState
  import opened PageTree
  import opened Mapping
  import Pmm

  /** One page tree: the frame of its PML4, and where its tables lie. */
  class AddressSpace {
    const root: nat
    ghost var tables: Tables

    constructor (root: nat)
      ensures this.root == root && tables == map[ROOT := root]
    {
      this.root := root;
      tables := map[ROOT := root];
    }
  }

  ghost function Now(k: Kernel, sp: AddressSpace): Snap
    reads k, k.mem, sp
  {
    Snap(k.mem[..], k.used, sp.tables)
  }

  ghost predicate Valid(k: Kernel, sp: AddressSpace)
    reads k, k.mem, sp
  {
    Pmm.Ready(k) && Inv(k.sections, sp.root, Now(k, sp))
  }

  /** The virtual page of an address: the top 16 bits are dropped. */
  function Vpn(virt: nat): (v: nat)
    ensures v < VPAGES
  {
    virt % 0x1_0000_0000_0000 / 4096
  }

  /** `flags | PRESENT | WRITE | USER`. */
  function WithAccess(flags: nat): (r: nat)
    ensures r % 8 == 7 && r - flags < 8
    ensures flags < 4096 ==> r < 4096
  {
    flags / 8 * 8 + 7
  }

  /** The entry that links the table in frame `f`. */
  function TableEntry(f: nat, flags: nat): (e: nat)
    requires flags < 4096 && f * 4096 + 4096 <= TWO64
    ensures e / 4096 == f && e % 8 == 7 && e < TWO64
  {
    f * 4096 + WithAccess(flags)
  }

  datatype Lookup = Found(frame: nat) | OutOfFrames

  lemma StoreTwice(m: seq<byte>, a: nat, u: nat, v: nat)
    requires a + 8 <= |m|
    ensures Store64(Store64(m, a, u), a, v) == Store64(m, a, v)
  {
    var r := Store64(m, a, u);
    PutLELength(v, m[a..a + 8], r[a..a + 8]);
  }

  lemma {:induction false} PutLELength(v: nat, s: seq<byte>, r: seq<byte>)
    requires |s| == |r|
    ensures PutLE(v, s) == PutLE(v, r)
  {
    if s != [] {
      PutLELength(v / 256, s[1..], r[1..]);
    }
  }

  /** Clearing a frame that is already clear changes nothing. */
  lemma ClearAgain(m: seq<byte>, f: nat, i: nat, u: nat, child: nat)
    requires HasFrame(m, f) && HasFrame(m, child) && f != child && i < 512
    requires ZeroFrame(m, child)
    ensures Splice(SetEntry(m, f, i, u), child * 4096, Zeros(4096)) == SetEntry(m, f, i, u)
  {
    var r := SetEntry(m, f, i, u);
    forall x | 0 <= x < |r|
      ensures Splice(r, child * 4096, Zeros(4096))[x] == r[x]
    {
      assert child * 4096 <= x < (child + 1) * 4096 ==> !(f * 4096 + i * 8 <= x < f * 4096 + i * 8 + 8);
    }
  }

  /** Linking a new table: its address, the clearing of the table, then the flags. On a clear frame this is one store. */
  method LinkTable(k: Kernel, f: nat, i: nat, child: nat, flags: nat)
    requires HasFrame(k.mem[..], f) && HasFrame(k.mem[..], child) && f != child && i < 512 && flags < 4096
    requires ZeroFrame(k.mem[..], child) && child * 4096 + 4096 <= TWO64
    modifies k.mem
    ensures k.mem[..] == SetEntry(old(k.mem[..]), f, i, TableEntry(child, flags))
  {
    hide Entry, Zeros, PutLE, ZeroFrame, Splice;
    ghost var m := k.mem[..];
    StoreWord(k.mem, f * 4096 + i * 8, child * 4096);
    ClearAgain(m, f, i, child * 4096, child);
    MemZero(k.mem, child * 4096, 4096);
    StoreWord(k.mem, f * 4096 + i * 8, child * 4096 + WithAccess(flags));
    StoreTwice(m, f * 4096 + i * 8, child * 4096, child * 4096 + WithAccess(flags));
  }

  lemma ProgressParts(secs: seq<Section>, root: nat, s0: Snap, s: Snap, vpn: nat, w: seq<nat>, pages: set<nat>)
    requires Progress(secs, root, s0, s, vpn, w, pages)
    ensures Inv(secs, root, s) && Pmm.PmmInv(s.m, secs, s.used)
    ensures ROOT in s.t && s.t[ROOT] == root
  {
  }

  lemma TakenFrame(secs: seq<Section>, root: nat, s0: Snap, s: Snap, s1: Snap, vpn: nat, w: seq<nat>, pages: set<nat>, f: nat)
    requires Progress(secs, root, s0, s, vpn, w, pages) && s1.t == s.t
    requires Pmm.Grants(s.m, s.used, secs, s1.m, s1.used, f, 1) && Pmm.Packed(secs, s.used, f)
    ensures Progress(secs, root, s0, s1, vpn, w, pages + {f}) && f !in pages
    ensures HasFrame(s1.m, f) && ZeroFrame(s1.m, f) && f * 4096 + 4096 <= 0x10_0000_0000_0000
    ensures forall n :: n in s1.t ==> HasFrame(s1.m, s1.t[n]) && s1.t[n] != f
  {
    GrantStep(secs, root, s0, s, vpn, w, pages, s1.m, s1.used, f);
  }

  /** `kmalloc(1)` in the middle of a call: the frame is clear and holds no table. */
  method TakeFrame(k: Kernel, sp: AddressSpace, ghost s0: Snap, ghost vpn: nat, ghost w: seq<nat>, ghost pages: set<nat>) returns (r: Lookup)
    requires Pmm.Ready(k) && Progress(k.sections, sp.root, s0, Now(k, sp), vpn, w, pages)
    modifies k`totalMemoryAllocated, k`used, k.mem
    ensures Pmm.Ready(k)
    ensures r.OutOfFrames? ==> Pmm.NoRun(k.sections, k.used, 1) && Now(k, sp) == old(Now(k, sp))
    ensures r.Found? ==> r.frame !in pages && Progress(k.sections, sp.root, s0, Now(k, sp), vpn, w, pages + {r.frame})
    ensures r.Found? ==> HasFrame(k.mem[..], r.frame) && ZeroFrame(k.mem[..], r.frame) && r.frame * 4096 + 4096 <= 0x10_0000_0000_0000
    ensures r.Found? ==> forall n :: n in sp.tables ==> HasFrame(k.mem[..], sp.tables[n]) && sp.tables[n] != r.frame
  {
    hide Progress, Pmm.PmmInv, Pmm.Grants, ZeroFrame, Pmm.BlockAtFirstRun, Pmm.Packed;
    ghost var s := Now(k, sp);
    var g := Pmm.Kmalloc(k, 1);
    if g.Halt? { return OutOfFrames; }
    Pmm.FirstIsPacked(k.sections, s.used, g.addr);
    TakenFrame(k.sections, sp.root, s0, s, Now(k, sp), vpn, w, pages, g.addr / 4096);
    return Found(g.addr / 4096);
  }

  /** The empty-slot branch: takes a frame and links it as table `On(l-1, v)`. */
  method NewTable(k: Kernel, sp: AddressSpace, f: nat, i: nat, flags: nat,
                  ghost l: nat, ghost s0: Snap, ghost vpn: nat, ghost w: seq<nat>, ghost pages: set<nat>) returns (r: Lookup)
    requires Pmm.Ready(k) && Progress(k.sections, sp.root, s0, Now(k, sp), vpn, w, pages)
    requires vpn + |w| < VPAGES && 2 <= l <= 4 && flags < 4096
    requires On(l, vpn + |w|) in sp.tables && sp.tables[On(l, vpn + |w|)] == f && i == Index(l, vpn + |w|)
    requires On(l - 1, vpn + |w|) !in sp.tables
    modifies k`totalMemoryAllocated, k`used, k.mem, sp`tables
    ensures Pmm.Ready(k) && Progress(k.sections, sp.root, s0, Now(k, sp), vpn, w, pages)
    ensures r.Found? ==> sp.tables == old(sp.tables)[On(l - 1, vpn + |w|) := r.frame]
    ensures r.OutOfFrames? ==> sp.tables == old(sp.tables) && Pmm.NoRun(k.sections, k.used, 1)
  {
    hide Progress, Pmm.PmmInv, ZeroFrame, Entry, SetEntry, Up, TableEntry;
    r := TakeFrame(k, sp, s0, vpn, w, pages);
    if r.OutOfFrames? { return; }
    ghost var s1 := Now(k, sp);
    LinkTable(k, f, i, r.frame, flags);
    ghost var e := TableEntry(r.frame, flags);
    LinkStep(k.sections, sp.root, s0, s1, vpn, w, pages, l, r.frame, e);
    sp.tables := sp.tables[On(l - 1, vpn + |w|) := r.frame];
    assert Now(k, sp) == Linked(s1, On(l, vpn + |w|), i, r.frame, e);
    ProgressParts(k.sections, sp.root, s0, Now(k, sp), vpn, w, pages);
  }

  lemma SlotTells(secs: seq<Section>, root: nat, s: Snap, l: nat, v: nat)
    requires Inv(secs, root, s) && 2 <= l <= 4 && On(l, v) in s.t
    ensures HasFrame(s.m, s.t[On(l, v)])
    ensures On(l - 1, v) in s.t <==> Entry(s.m, s.t[On(l, v)], Index(l, v)) != 0
    ensures On(l - 1, v) in s.t ==> s.t[On(l - 1, v)] == Entry(s.m, s.t[On(l, v)], Index(l, v)) / 4096
  {
    PathStep(l, v);
    assert Link(s.m, s.t, On(l, v), Index(l, v));
  }

  /** Some table on the path of page `v` does not exist. */
  predicate PathMissing(t: Tables, v: nat) {
    On(1, v) !in t || On(2, v) !in t || On(3, v) !in t
  }

  /** The table below slot `i` of the table in frame `f`; an empty slot gets a fresh, cleared one. */
  method EnsureTable(k: Kernel, sp: AddressSpace, f: nat, i: nat, flags: nat,
                     ghost l: nat, ghost s0: Snap, ghost vpn: nat, ghost w: seq<nat>, ghost pages: set<nat>) returns (r: Lookup)
    requires Pmm.Ready(k) && Progress(k.sections, sp.root, s0, Now(k, sp), vpn, w, pages)
    requires vpn + |w| < VPAGES && 2 <= l <= 4 && flags < 4096
    requires On(l, vpn + |w|) in sp.tables && sp.tables[On(l, vpn + |w|)] == f && i == Index(l, vpn + |w|)
    modifies k`totalMemoryAllocated, k`used, k.mem, sp`tables
    ensures Pmm.Ready(k) && Progress(k.sections, sp.root, s0, Now(k, sp), vpn, w, pages)
    ensures forall n :: n in old(sp.tables) ==> n in sp.tables && sp.tables[n] == old(sp.tables)[n]
    ensures r.Found? ==> On(l - 1, vpn + |w|) in sp.tables && sp.tables[On(l - 1, vpn + |w|)] == r.frame
    ensures r.OutOfFrames? ==> Pmm.NoRun(k.sections, k.used, 1) && PathMissing(sp.tables, vpn + |w|)
  {
    hide Progress, Pmm.PmmInv, TreeOk;
    ProgressParts(k.sections, sp.root, s0, Now(k, sp), vpn, w, pages);
    SlotTells(k.sections, sp.root, Now(k, sp), l, vpn + |w|);
    var e := LoadWord(k.mem, f * 4096 + i * 8);
    if e == 0 {
      r := NewTable(k, sp, f, i, flags, l, s0, vpn, w, pages);
    } else {
      return Found(e / 4096);
    }
  }

  /** Stores leaf entry `e` in slot `i` of the level-1 table in frame `f`. */
  method WriteLeaf(k: Kernel, sp: AddressSpace, f: nat, i: nat, e: nat,
                   ghost s0: Snap, ghost vpn: nat, ghost w: seq<nat>, ghost pages: set<nat>)
    requires Pmm.Ready(k) && Progress(k.sections, sp.root, s0, Now(k, sp), vpn, w, pages)
    requires vpn + |w| < VPAGES && e < TWO64
    requires On(3, vpn + |w|) in sp.tables && On(2, vpn + |w|) in sp.tables
    requires On(1, vpn + |w|) in sp.tables && sp.tables[On(1, vpn + |w|)] == f && i == Index(1, vpn + |w|)
    modifies k.mem
    ensures Pmm.Ready(k) && Progress(k.sections, sp.root, s0, Now(k, sp), vpn, w + [e], pages)
    ensures Grown(s0, Now(k, sp), vpn, vpn + |w|)
    ensures Now(k, sp) == Written(old(Now(k, sp)), vpn + |w|, e)
  {
    ghost var s := Now(k, sp);
    ProgressParts(k.sections, sp.root, s0, s, vpn, w, pages);
    assert HasFrame(s.m, f);
    hide Progress, Pmm.PmmInv, TreeOk, Grown;
    StoreWord(k.mem, f * 4096 + i * 8, e);
    WriteStep(k.sections, sp.root, s0, s, vpn, w, pages, e);
    assert Now(k, sp) == Written(s, vpn + |w|, e);
    ProgressParts(k.sections, sp.root, s0, Now(k, sp), vpn, w + [e], pages);
  }

  /** The odometer: four base-512 digits that make up `pos`. */
  predicate Digits(pos: nat, d4: nat, d3: nat, d2: nat, d1: nat) {
    pos == ((d4 * 512 + d3) * 512 + d2) * 512 + d1
  }

  lemma DigitsPath(pos: nat, d4: nat, d3: nat, d2: nat, d1: nat)
    requires Digits(pos, d4, d3, d2, d1) && d4 < 512 && d3 < 512 && d2 < 512 && d1 < 512
    ensures On(4, pos) == ROOT && Index(4, pos) == d4
    ensures On(3, pos) == Node(3, d4) && Index(3, pos) == d3
    ensures On(2, pos) == Node(2, d4 * 512 + d3) && Index(2, pos) == d2
    ensures On(1, pos) == Node(1, (d4 * 512 + d3) * 512 + d2) && Index(1, pos) == d1
    ensures pos < VPAGES
  {
    assert Up(1, pos) == (d4 * 512 + d3) * 512 + d2;
    assert Up(2, pos) == d4 * 512 + d3;
    assert Up(3, pos) == d4;
    assert Up(4, pos) == 0;
  }

  /** The digits `map_pages` computes from an address are those of its virtual page. */
  lemma AddressDigits(virt: nat)
    ensures Digits(Vpn(virt), Vpn(virt) / 134217728, Vpn(virt) / 262144 % 512, Vpn(virt) / 512 % 512, Vpn(virt) % 512)
    ensures Vpn(virt) / 134217728 < 512
    ensures virt % 0x1_0000_0000_0000 / 0x1000 % 512 == Vpn(virt) % 512
    ensures virt % 0x1_0000_0000_0000 / 0x20_0000 % 512 == Vpn(virt) / 512 % 512
    ensures virt % 0x1_0000_0000_0000 / 0x4000_0000 % 512 == Vpn(virt) / 262144 % 512
    ensures virt % 0x1_0000_0000_0000 / 0x80_0000_0000 % 512 == Vpn(virt) / 134217728
  {
    var a := virt % 0x1_0000_0000_0000;
    assert a / 0x20_0000 == a / 0x1000 / 512;
    assert a / 0x4000_0000 == a / 0x1000 / 262144;
    assert a / 0x80_0000_0000 == a / 0x1000 / 134217728;
    var v := a / 0x1000;
    assert v / 262144 == v / 512 / 512;
    assert v / 134217728 == v / 512 / 512 / 512;
  }

  // ----- the shared loops of `map_pages` and `alloc_pages` --------------------------

  /**
  The variables of one call. `map_pages` and `alloc_pages` run the same four loops and
  differ in the leaf they write: the next physical page, or a fresh clear one.
  */
  class Job {
    const takes: bool
    const flags: nat
    var num: nat
    var phys: nat
    ghost const total: nat
    ghost const start: Snap
    ghost const vpn: nat
    ghost const base: nat
    ghost var w: seq<nat>
    ghost var pages: set<nat>

    constructor (takes: bool, flags: nat, num: nat, phys: nat, ghost start: Snap, ghost vpn: nat)
      ensures this.takes == takes && this.flags == flags && this.num == num && this.phys == phys
      ensures total == num && this.start == start && this.vpn == vpn && base == phys && w == [] && pages == {}
    {
      this.takes, this.flags, this.num, this.phys := takes, flags, num, phys;
      this.total, this.start, this.vpn, this.base := num, start, vpn, phys;
      this.w, this.pages := [], {};
    }
  }

  /** `x | y` on numbers of `w` bits. */
  function Or(x: nat, y: nat, w: nat): nat {
    if w == 0 then 0 else (if x % 2 == 1 || y % 2 == 1 then 1 else 0) + 2 * Or(x / 2, y / 2, w - 1)
  }

  /** The low 12 bits of `phys | flags`: the offset of `phys` in its page shows among them. */
  function Low(phys: nat, flags: nat): nat {
    Or(phys % 4096, flags, 12)
  }

  lemma {:induction false} OrBounds(x: nat, y: nat, w: nat)
    requires x < Pmm.Pow2(w) && y < Pmm.Pow2(w)
    ensures y <= Or(x, y, w) < Pmm.Pow2(w)
    ensures x == 0 ==> Or(x, y, w) == y
  {
    if w > 0 {
      OrBounds(x / 2, y / 2, w - 1);
    }
  }

  lemma LowBounds(phys: nat, flags: nat)
    requires 0 < flags < 4096
    ensures 0 < Low(phys, flags) < 4096
    ensures phys % 4096 == 0 ==> Low(phys, flags) == flags
  {
    assert Pmm.Pow2(6) == 64;
    assert Pmm.Pow2(12) == 64 * Pmm.Pow2(6);
    OrBounds(phys % 4096, flags, 12);
  }

  /** A right is granted by the low bits when the flags grant it, or the offset has that bit by chance. */
  lemma LowGrants(phys: nat, flags: nat, r: Right)
    ensures PageTree.Grants(Low(phys, flags), r) <==> PageTree.Grants(phys % 4096, r) || PageTree.Grants(flags, r)
  {
    var x, y := phys % 4096, flags;
    OrStep(x, y, 12);
    OrStep(x / 2, y / 2, 11);
    OrStep(x / 2 / 2, y / 2 / 2, 10);
    assert x / 4 == x / 2 / 2 && y / 4 == y / 2 / 2 && Or(x, y, 12) / 4 == Or(x, y, 12) / 2 / 2;
  }

  /** The low bits are those of the address and of the flags, bit for bit. */
  lemma {:induction false} OrBits(x: nat, y: nat, w: nat, k: nat)
    requires k < w
    ensures Pmm.Bit(Or(x, y, w), k) <==> Pmm.Bit(x, k) || Pmm.Bit(y, k)
  {
    OrStep(x, y, w);
    if k > 0 {
      OrBits(x / 2, y / 2, w - 1, k - 1);
    }
  }

  lemma LowBitsOf(phys: nat, flags: nat, k: nat)
    requires k < 12
    ensures Pmm.Bit(Low(phys, flags), k) <==> Pmm.Bit(phys % 4096, k) || Pmm.Bit(flags, k)
  {
    OrBits(phys % 4096, flags, 12, k);
  }

  /** A link to a table has the flags of the call, and present, write and user. */
  lemma AccessBits(flags: nat, k: nat)
    ensures Pmm.Bit(WithAccess(flags), k) <==> k < 3 || Pmm.Bit(flags, k)
  {
    var x, y := WithAccess(flags), flags;
    assert x / 2 / 2 / 2 == y / 2 / 2 / 2;
    HigherBits(x, y, k);
  }

  lemma HigherBits(x: nat, y: nat, k: nat)
    requires x / 2 / 2 / 2 == y / 2 / 2 / 2 && x % 8 == 7
    ensures Pmm.Bit(x, k) <==> k < 3 || Pmm.Bit(y, k)
  {
    if k >= 3 {
      assert Pmm.Bit(x, k) == Pmm.Bit(x / 2, k - 1) == Pmm.Bit(x / 2 / 2, k - 2) == Pmm.Bit(x / 2 / 2 / 2, k - 3);
      assert Pmm.Bit(y, k) == Pmm.Bit(y / 2, k - 1) == Pmm.Bit(y / 2 / 2, k - 2) == Pmm.Bit(y / 2 / 2 / 2, k - 3);
    } else {
      assert Pmm.Bit(x, 0) && Pmm.Bit(x, 1) == Pmm.Bit(x / 2, 0) && Pmm.Bit(x, 2) == Pmm.Bit(x / 2, 1) == Pmm.Bit(x / 2 / 2, 0);
    }
  }

  lemma OrStep(x: nat, y: nat, w: nat)
    requires w > 0
    ensures Or(x, y, w) % 2 == (if x % 2 == 1 || y % 2 == 1 then 1 else 0) && Or(x, y, w) / 2 == Or(x / 2, y / 2, w - 1)
  {
    var b, r := if x % 2 == 1 || y % 2 == 1 then 1 else 0, Or(x / 2, y / 2, w - 1);
    assert Or(x, y, w) == b + 2 * r;
    hide Or;
    LowestBit(b, r);
  }

  lemma LowestBit(b: nat, r: nat)
    requires b < 2
    ensures (b + 2 * r) % 2 == b && (b + 2 * r) / 2 == r
  {
  }

  /** The leaf entries of `n` consecutive pages from `phys` on. */
  ghost function Linear(phys: nat, flags: nat, n: nat): (w: seq<nat>)
    ensures |w| == n && forall j :: 0 <= j < n ==> w[j] == phys + 4096 * j + flags
  {
    seq(n, j => phys + 4096 * j + flags)
  }

  /** The leaf entries `w` point, with the given flags, to pairwise distinct frames that are exactly `pages`. */
  ghost predicate Backed(w: seq<nat>, flags: nat, pages: set<nat>) {
    && |pages| == |w|
    && (forall j :: 0 <= j < |w| ==> w[j] / 4096 in pages && w[j] % 4096 == flags)
    && (forall i, j :: 0 <= i < j < |w| ==> w[i] / 4096 != w[j] / 4096)
  }

  ghost predicate LeavesFrom(job: Job)
    reads job
  {
    if job.takes then Backed(job.w, job.flags, job.pages)
    else job.w == Linear(job.base / 4096 * 4096, Low(job.base, job.flags), |job.w|) && job.pages == {} && job.phys == job.base + 4096 * |job.w|
  }

  /** How many pages a 64-bit count stands for: zero is decremented before it is tested. */
  function PageCount(n: nat): nat {
    if n == 0 then TWO64 else n
  }

  /** The state of a call between two leaves. */
  ghost predicate Kept(k: Kernel, sp: AddressSpace, job: Job)
    reads k, k.mem, sp, job
  {
    && Pmm.Ready(k) && Progress(k.sections, sp.root, job.start, Now(k, sp), job.vpn, job.w, job.pages)
    && LeavesFrom(job)
    && 0 < job.flags < 4096 && job.base <= TWO64 - 0x1_0000_0000_0000
  }

  ghost predicate Going(k: Kernel, sp: AddressSpace, job: Job)
    reads k, k.mem, sp, job
  {
    && Kept(k, sp, job)
    && |job.w| < PageCount(job.total)
    && job.num == (if |job.w| == 0 then job.total else PageCount(job.total) - |job.w|)
  }

  datatype Status = More | Finished | Starved

  /** How a loop ended: all pages written, no frame left, or not done yet. */
  ghost predicate Ended(k: Kernel, sp: AddressSpace, job: Job, st: Status)
    reads k, k.mem, sp, job
  {
    match st
    case More => Going(k, sp, job)
    case Finished =>
      && Kept(k, sp, job) && |job.w| == job.total && job.total > 0
      && job.vpn + job.total <= VPAGES
      && Grown(job.start, Now(k, sp), job.vpn, job.vpn + job.total - 1)
    case Starved => Kept(k, sp, job) && Pmm.NoRun(k.sections, k.used, 1) && (job.takes || PathMissing(sp.tables, job.vpn + |job.w|))
  }

  ghost predicate At(t: Tables, n: Node, f: nat) { n in t && t[n] == f }

  ghost predicate Extends(t: Tables, u: Tables) {
    forall n :: n in t ==> n in u && u[n] == t[n]
  }

  lemma BackedNext(w: seq<nat>, flags: nat, pages: set<nat>, f: nat)
    requires Backed(w, flags, pages) && f !in pages && flags < 4096
    ensures Backed(w + [f * 4096 + flags], flags, pages + {f})
  {
  }

  lemma LinearNext(phys: nat, flags: nat, n: nat)
    ensures Linear(phys, flags, 0) == []
    ensures Linear(phys, flags, n + 1) == Linear(phys, flags, n) + [phys + 4096 * n + flags]
  {
  }

  lemma NextPhys(base: nat, n: nat, flags: nat)
    ensures (base + 4096 * n) / 4096 * 4096 == base / 4096 * 4096 + 4096 * n
    ensures Low(base + 4096 * n, flags) == Low(base, flags)
  {
    assert (base + 4096 * n) % 4096 == base % 4096;
  }

  /** The leaf entry for the next page; `alloc_pages` takes a page for it and clears it. */
  method NextLeaf(k: Kernel, sp: AddressSpace, job: Job) returns (ok: bool, e: nat)
    requires Going(k, sp, job) && job.vpn + |job.w| < VPAGES
    modifies k`totalMemoryAllocated, k`used, k.mem, job`pages
    ensures Pmm.Ready(k)
    ensures Progress(k.sections, sp.root, job.start, Now(k, sp), job.vpn, job.w, job.pages)
    ensures !ok ==> job.takes && job.pages == old(job.pages) && Pmm.NoRun(k.sections, k.used, 1)
    ensures ok ==> e < TWO64
    ensures ok && job.takes ==> Backed(job.w + [e], job.flags, job.pages)
    ensures ok && !job.takes ==> job.pages == {} && e == job.phys / 4096 * 4096 + Low(job.phys, job.flags)
  {
    hide Progress, Pmm.PmmInv, Pmm.Grants, ZeroFrame, Linear, Backed, Low;
    if !job.takes {
      LowBounds(job.phys, job.flags);
      return true, job.phys / 4096 * 4096 + Low(job.phys, job.flags);
    }
    var r := TakeFrame(k, sp, job.start, job.vpn, job.w, job.pages);
    if r.OutOfFrames? { return false, 0; }
    ghost var s1 := Now(k, sp);
    ClearIsClear(s1.m, r.frame);
    MemZero(k.mem, r.frame * 4096, 4096);
    BackedNext(job.w, job.flags, job.pages, r.frame);
    job.pages := job.pages + {r.frame};
    assert Now(k, sp) == s1;
    ProgressParts(k.sections, sp.root, job.start, s1, job.vpn, job.w, job.pages);
    return true, r.frame * 4096 + job.flags;
  }

  lemma ClearIsClear(m: seq<byte>, f: nat)
    requires HasFrame(m, f) && ZeroFrame(m, f)
    ensures Splice(m, f * 4096, Zeros(4096)) == m
  {
  }

  /** Virtual page number reached so far. */
  ghost function Pos(job: Job): nat
    reads job
  {
    job.vpn + |job.w|
  }

  /** The three tables of the path lie in the given frames. */
  ghost predicate PathAt(t: Tables, d4: nat, d3: nat, d2: nat, f: nat) {
    At(t, Node(1, (d4 * 512 + d3) * 512 + d2), f) && Node(2, d4 * 512 + d3) in t && Node(3, d4) in t
  }

  lemma LeafPath(t: Tables, pos: nat, d4: nat, d3: nat, d2: nat, d1: nat, f: nat)
    requires Digits(pos, d4, d3, d2, d1) && d4 < 512 && d3 < 512 && d2 < 512 && d1 < 512 && PathAt(t, d4, d3, d2, f)
    ensures On(3, pos) in t && On(2, pos) in t && On(1, pos) in t && t[On(1, pos)] == f && Index(1, pos) == d1 && pos < VPAGES
  {
    DigitsPath(pos, d4, d3, d2, d1);
  }

  /** One pass of the innermost loop: writes the next leaf and counts it. */
  method StepLeaf(k: Kernel, sp: AddressSpace, job: Job, f: nat, d1: nat, ghost d4: nat, ghost d3: nat, ghost d2: nat) returns (st: Status)
    requires Going(k, sp, job) && Digits(Pos(job), d4, d3, d2, d1)
    requires d4 < 512 && d3 < 512 && d2 < 512 && d1 < 512 && PathAt(sp.tables, d4, d3, d2, f)
    modifies k`totalMemoryAllocated, k`used, k.mem, job`num, job`phys, job`w, job`pages
    ensures Ended(k, sp, job, st)
    ensures !st.Starved? ==> |job.w| == old(|job.w|) + 1
    ensures st.Starved? ==> job.w == old(job.w) && |job.w| < PageCount(job.total)
  {
    hide Progress, Pmm.PmmInv, TreeOk, TablesUsed, Grown, On, Index, PathAt, Digits, Linear, Backed, Pmm.NoRun, Low, PathMissing;
    LeafPath(sp.tables, Pos(job), d4, d3, d2, d1, f);
    var ok, e := NextLeaf(k, sp, job);
    if !ok { return Starved; }
    WriteLeaf(k, sp, f, d1, e, job.start, job.vpn, job.w, job.pages);
    st := CountLeaf(k, sp, job, e);
  }

  /** `num_pages--`, the next physical page, and the test for the end. */
  method CountLeaf(k: Kernel, sp: AddressSpace, job: Job, ghost e: nat) returns (st: Status)
    requires Pmm.Ready(k) && Progress(k.sections, sp.root, job.start, Now(k, sp), job.vpn, job.w + [e], job.pages)
    requires Grown(job.start, Now(k, sp), job.vpn, Pos(job)) && Pos(job) < VPAGES
    requires 0 < job.flags < 4096 && job.base <= TWO64 - 0x1_0000_0000_0000
    requires |job.w| < PageCount(job.total) && job.num == (if |job.w| == 0 then job.total else PageCount(job.total) - |job.w|)
    requires if job.takes then Backed(job.w + [e], job.flags, job.pages)
      else LeavesFrom(job) && e == job.phys / 4096 * 4096 + Low(job.phys, job.flags)
    modifies job`num, job`phys, job`w
    ensures Ended(k, sp, job, st) && !st.Starved? && job.w == old(job.w) + [e]
  {
    hide Progress, Pmm.PmmInv, TreeOk, TablesUsed, Grown, Linear, Backed, Pmm.NoRun, Low, PathMissing;
    LinearNext(job.base / 4096 * 4096, Low(job.base, job.flags), |job.w|);
    NextPhys(job.base, |job.w|, job.flags);
    job.w := job.w + [e];
    job.num := if job.num == 0 then TWO64 - 1 else job.num - 1;
    job.phys := job.phys + 4096;
    if job.num == 0 { return Finished; }
    return More;
  }

  /** The `pml1` loop. */
  method FillLeaves(k: Kernel, sp: AddressSpace, job: Job, f: nat, from: nat, ghost d4: nat, ghost d3: nat, ghost d2: nat) returns (st: Status)
    requires Going(k, sp, job) && Digits(Pos(job), d4, d3, d2, from)
    requires d4 < 512 && d3 < 512 && d2 < 512 && from < 512 && PathAt(sp.tables, d4, d3, d2, f)
    modifies k`totalMemoryAllocated, k`used, k.mem, job`num, job`phys, job`w, job`pages
    ensures Ended(k, sp, job, st)
    ensures st.More? ==> Digits(Pos(job), d4, d3, d2 + 1, 0)
    ensures st.Starved? ==> |job.w| < PageCount(job.total) && Pos(job) < VPAGES
  {
    hide Progress, Pmm.PmmInv, Linear, Backed, Pmm.NoRun, Grown, Up, Vpn, PathMissing;
    var d1 := from;
    while d1 < 512
      invariant d1 <= 512 && Going(k, sp, job) && Digits(Pos(job), d4, d3, d2, d1)
    {
      st := StepLeaf(k, sp, job, f, d1, d4, d3, d2);
      if !st.More? { return; }
      d1 := d1 + 1;
    }
    return More;
  }

  /** The `pml2` loop. */
  method FillLevel2(k: Kernel, sp: AddressSpace, job: Job, f: nat, from: nat, leaf: nat, ghost d4: nat, ghost d3: nat) returns (st: Status)
    requires Going(k, sp, job) && Digits(Pos(job), d4, d3, from, leaf)
    requires d4 < 512 && d3 < 512 && from < 512 && leaf < 512
    requires At(sp.tables, Node(2, d4 * 512 + d3), f) && Node(3, d4) in sp.tables
    modifies k`totalMemoryAllocated, k`used, k.mem, sp`tables, job`num, job`phys, job`w, job`pages
    ensures Ended(k, sp, job, st) && Extends(old(sp.tables), sp.tables)
    ensures st.More? ==> Digits(Pos(job), d4, d3 + 1, 0, 0)
    ensures st.Starved? ==> |job.w| < PageCount(job.total) && Pos(job) < VPAGES
  {
    hide Progress, Pmm.PmmInv, Linear, Backed, Pmm.NoRun, Grown, Up, Vpn, PathMissing;
    var d2, d1 := from, leaf;
    while d2 < 512
      invariant d2 <= 512 && d1 < 512 && (d2 == 512 ==> d1 == 0)
      invariant Going(k, sp, job) && Digits(Pos(job), d4, d3, d2, d1) && Extends(old(sp.tables), sp.tables)
    {
      DigitsPath(Pos(job), d4, d3, d2, d1);
      var t1 := EnsureTable(k, sp, f, d2, job.flags, 2, job.start, job.vpn, job.w, job.pages);
      if t1.OutOfFrames? { return Starved; }
      st := FillLeaves(k, sp, job, t1.frame, d1, d4, d3, d2);
      if !st.More? { return; }
      d1 := 0;
      d2 := d2 + 1;
    }
    return More;
  }

  /** The `pml3` loop. */
  method FillLevel3(k: Kernel, sp: AddressSpace, job: Job, f: nat, from: nat, mid: nat, leaf: nat, ghost d4: nat) returns (st: Status)
    requires Going(k, sp, job) && Digits(Pos(job), d4, from, mid, leaf)
    requires d4 < 512 && from < 512 && mid < 512 && leaf < 512 && At(sp.tables, Node(3, d4), f)
    modifies k`totalMemoryAllocated, k`used, k.mem, sp`tables, job`num, job`phys, job`w, job`pages
    ensures Ended(k, sp, job, st)
    ensures st.More? ==> Digits(Pos(job), d4 + 1, 0, 0, 0)
    ensures st.Starved? ==> |job.w| < PageCount(job.total) && Pos(job) < VPAGES
  {
    hide Progress, Pmm.PmmInv, Linear, Backed, Pmm.NoRun, Grown, Up, Vpn, PathMissing;
    var d3, d2, d1 := from, mid, leaf;
    while d3 < 512
      invariant d3 <= 512 && d2 < 512 && d1 < 512 && (d3 == 512 ==> d2 == d1 == 0)
      invariant Going(k, sp, job) && Digits(Pos(job), d4, d3, d2, d1) && At(sp.tables, Node(3, d4), f)
    {
      DigitsPath(Pos(job), d4, d3, d2, d1);
      var t2 := EnsureTable(k, sp, f, d3, job.flags, 3, job.start, job.vpn, job.w, job.pages);
      if t2.OutOfFrames? { return Starved; }
      st := FillLevel2(k, sp, job, t2.frame, d2, d1, d4, d3);
      if !st.More? { return; }
      d2, d1, d3 := 0, 0, d3 + 1;
    }
    return More;
  }

  /** The `pml4` loop; `More` at the end means that the virtual address space is exhausted. */
  method FillTree(k: Kernel, sp: AddressSpace, job: Job, virt: nat) returns (st: Status)
    requires Going(k, sp, job) && job.w == [] && job.vpn == Vpn(virt)
    modifies k`totalMemoryAllocated, k`used, k.mem, sp`tables, job`num, job`phys, job`w, job`pages
    ensures Ended(k, sp, job, st)
    ensures st.More? ==> Pos(job) == VPAGES
    ensures st.Starved? ==> |job.w| < PageCount(job.total) && Pos(job) < VPAGES
  {
    hide Progress, Pmm.PmmInv, Linear, Backed, Pmm.NoRun, Grown, Up, Vpn, PathMissing;
    AddressDigits(virt);
    var a := virt % 0x1_0000_0000_0000;
    var d1, d2, d3, d4 := a / 0x1000 % 512, a / 0x20_0000 % 512, a / 0x4000_0000 % 512, a / 0x80_0000_0000 % 512;
    while d4 < 512
      invariant 0 <= d4 <= 512 && 0 <= d3 < 512 && 0 <= d2 < 512 && 0 <= d1 < 512 && (d4 == 512 ==> d3 == d2 == d1 == 0)
      invariant Going(k, sp, job) && Digits(Pos(job), d4, d3, d2, d1)
    {
      DigitsPath(Pos(job), d4, d3, d2, d1);
      ProgressParts(k.sections, sp.root, job.start, Now(k, sp), job.vpn, job.w, job.pages);
      var t3 := EnsureTable(k, sp, sp.root, d4, job.flags, 4, job.start, job.vpn, job.w, job.pages);
      if t3.OutOfFrames? { return Starved; }
      st := FillLevel3(k, sp, job, t3.frame, d3, d2, d1, d4);
      if !st.More? { return; }
      d3, d2, d1 := 0, 0, 0;
      d4 := d4 + 1;
    }
    return More;
  }

  // ----- the calls ------------------------------------------------------------------

  datatype Outcome = Done | NoFrames | NoVirtual

  /** How a call ends: normally with all `n` pages written, or by halting with `done` of them written. */
  ghost predicate Ends(k: Kernel, sp: AddressSpace, r: Outcome, s0: Snap, vpn: nat, n: nat, done: nat)
    reads k, k.mem, sp
  {
    match r
    case Done => n > 0 && done == n && vpn + n <= VPAGES && Grown(s0, Now(k, sp), vpn, vpn + n - 1)
    case NoVirtual => vpn + done == VPAGES && done < PageCount(n)
    case NoFrames => vpn + done < VPAGES && done < PageCount(n) && Pmm.NoRun(k.sections, k.used, 1)
  }

  /**
  `map_pages`: the pages from that of `virt` on are mapped to consecutive physical pages
  from that of `phys` on, with the low bits of `phys | flags`; `done` says of how many the
  entries were written.
  */
  method MapPages(k: Kernel, sp: AddressSpace, virt: nat, phys: nat, n: nat, flags: nat) returns (r: Outcome, ghost done: nat)
    requires Valid(k, sp) && 0 < flags < 4096 && n < TWO64
    requires phys <= TWO64 - 0x1_0000_0000_0000
    modifies k`totalMemoryAllocated, k`used, k.mem, sp`tables
    ensures Valid(k, sp) && Ends(k, sp, r, old(Now(k, sp)), Vpn(virt), n, done)
    ensures Progress(k.sections, sp.root, old(Now(k, sp)), Now(k, sp), Vpn(virt), Linear(phys / 4096 * 4096, Low(phys, flags), done), {})
    ensures r == NoFrames ==> PathMissing(sp.tables, Vpn(virt) + done)
    ensures phys % 4096 == 0 ==> Progress(k.sections, sp.root, old(Now(k, sp)), Now(k, sp), Vpn(virt), Linear(phys, flags, done), {})
  {
    StartProgress(k.sections, sp.root, Now(k, sp), Vpn(virt));
    LinearNext(phys / 4096 * 4096, Low(phys, flags), 0);
    LowBounds(phys, flags);
    hide Progress, Grown, Pmm.PmmInv, TreeOk, TablesUsed, Linear, Vpn, PathMissing, Low;
    var job := new Job(false, flags, n, phys, Now(k, sp), Vpn(virt));
    assert Now(k, sp) == old(Now(k, sp));
    var st := FillTree(k, sp, job, virt);
    done := |job.w|;
    ProgressParts(k.sections, sp.root, job.start, Now(k, sp), job.vpn, job.w, job.pages);
    r := match st case Finished => Done case Starved => NoFrames case More => NoVirtual;
  }

  /**
  `alloc_pages`: the pages from that of `virt` on are mapped to frames `pages` taken for
  them; `w` are the leaf entries written.
  */
  method AllocPages(k: Kernel, sp: AddressSpace, virt: nat, n: nat, flags: nat) returns (r: Outcome, ghost w: seq<nat>, ghost pages: set<nat>)
    requires Valid(k, sp) && 0 < flags < 4096 && n < TWO64
    modifies k`totalMemoryAllocated, k`used, k.mem, sp`tables
    ensures Valid(k, sp) && Ends(k, sp, r, old(Now(k, sp)), Vpn(virt), n, |w|)
    ensures Progress(k.sections, sp.root, old(Now(k, sp)), Now(k, sp), Vpn(virt), w, pages)
    ensures Backed(w, flags, pages)
  {
    StartProgress(k.sections, sp.root, Now(k, sp), Vpn(virt));
    hide Progress, Grown, Pmm.PmmInv, TreeOk, TablesUsed, Linear, Vpn, PathMissing;
    var job := new Job(true, flags, n, 0, Now(k, sp), Vpn(virt));
    assert Now(k, sp) == old(Now(k, sp));
    var st := FillTree(k, sp, job, virt);
    w, pages := job.w, job.pages;
    ProgressParts(k.sections, sp.root, job.start, Now(k, sp), job.vpn, job.w, job.pages);
    r := match st case Finished => Done case Starved => NoFrames case More => NoVirtual;
  }

  // ----- reading the tree back ------------------------------------------------------

  /** The physical address a virtual address translates to in the tree with root frame `root`, if any. */
  datatype Translation = Unmapped | To(phys: nat)

  ghost function Translate(m: seq<byte>, root: nat, virt: nat): Translation {
    var e := Walk(m, root, 4, Vpn(virt));
    if e == 0 then Unmapped else To(e / 4096 * 4096 + virt % 4096)
  }

  /** `virt_to_phys`. Each of its loops returns in its first pass. */
  method VirtToPhys(k: Kernel, sp: AddressSpace, virt: nat) returns (r: nat)
    requires Inv(k.sections, sp.root, Now(k, sp))
    ensures r == match Translate(k.mem[..], sp.root, virt) case Unmapped => 0xDEAD case To(p) => p
  {
    hide Vpn, Up, Entry, Index, Walk, TreeOk, Pmm.PmmInv;
    ghost var v := Vpn(virt);
    WalkPath(k.sections, sp.root, Now(k, sp), virt);
    OffsetKept(virt);
    var a := virt % 0x1_0000_0000_0000;
    var e4 := ReadEntry(k, sp.root, a / 0x80_0000_0000 % 512);
    if e4 == 0 { return 0xDEAD; }
    var e3 := ReadEntry(k, e4 / 4096, a / 0x4000_0000 % 512);
    if e3 == 0 { return 0xDEAD; }
    var e2 := ReadEntry(k, e3 / 4096, a / 0x20_0000 % 512);
    if e2 == 0 { return 0xDEAD; }
    var e1 := ReadEntry(k, e2 / 4096, a / 0x1000 % 512);
    if e1 == 0 { return 0xDEAD; }
    return e1 / 4096 * 4096 + (a - a / 4096 * 4096);
  }

  /** The four entries of a walk, read one after the other. */
  lemma WalkPath(secs: seq<Section>, root: nat, s: Snap, virt: nat)
    requires Inv(secs, root, s)
    ensures var a := virt % 0x1_0000_0000_0000;
      HasFrame(s.m, root) &&
      var e4 := Entry(s.m, root, a / 0x80_0000_0000 % 512);
      if e4 == 0 then Walk(s.m, root, 4, Vpn(virt)) == 0 else
      HasFrame(s.m, e4 / 4096) &&
      var e3 := Entry(s.m, e4 / 4096, a / 0x4000_0000 % 512);
      if e3 == 0 then Walk(s.m, root, 4, Vpn(virt)) == 0 else
      HasFrame(s.m, e3 / 4096) &&
      var e2 := Entry(s.m, e3 / 4096, a / 0x20_0000 % 512);
      if e2 == 0 then Walk(s.m, root, 4, Vpn(virt)) == 0 else
      HasFrame(s.m, e2 / 4096) && Walk(s.m, root, 4, Vpn(virt)) == Entry(s.m, e2 / 4096, a / 0x1000 % 512)
  {
    hide Up, Entry, TreeOk, Pmm.PmmInv, Vpn;
    var v := Vpn(virt);
    AddressDigits(virt);
    DigitsPath(v, v / 134217728, v / 262144 % 512, v / 512 % 512, v % 512);
    ProgressRoot(secs, root, s);
    SlotTells(secs, root, s, 4, v);
    if On(3, v) in s.t {
      SlotTells(secs, root, s, 3, v);
      if On(2, v) in s.t {
        SlotTells(secs, root, s, 2, v);
        if On(1, v) in s.t {
          TablesHaveFrames(secs, root, s);
        }
      }
    }
  }

  /** Dropping the top 16 bits keeps the offset in the page. */
  lemma OffsetKept(virt: nat)
    ensures virt % 0x1_0000_0000_0000 % 4096 == virt % 4096
  {
    var q, a := virt / 0x1_0000_0000_0000, virt % 0x1_0000_0000_0000;
    ModOf(q * 0x10_0000_0000 + a / 4096, a % 4096);
    assert virt == 4096 * (q * 0x10_0000_0000 + a / 4096) + a % 4096;
  }

  lemma ModOf(c: nat, r: nat)
    requires r < 4096
    ensures (4096 * c + r) % 4096 == r
  {
  }

  lemma ProgressRoot(secs: seq<Section>, root: nat, s: Snap)
    requires Inv(secs, root, s)
    ensures ROOT in s.t && s.t[ROOT] == root
  {
  }

  method ReadEntry(k: Kernel, f: nat, i: nat) returns (e: nat)
    requires HasFrame(k.mem[..], f) && i < 512
    ensures e == Entry(k.mem[..], f, i)
  {
    e := LoadWord(k.mem, f * 4096 + i * 8);
  }
}
