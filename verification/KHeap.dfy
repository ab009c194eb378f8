/**
`init_kheap`, `malloc` and `free` (src/mem/kheap.c:31-75) on the headers in memory.
*/
module KHeap {
  import opened Bytes
  import opened KernelState
  import opened HeapModel
  import opened HeapSteps
  import Pmm
  import PmmRuns

  /** What the headers in memory represent. */
  class Heap {
    ghost var pools: seq<Pool>
    ghost var regions: seq<Region>

    constructor ()
      ensures pools == [] && regions == []
    {
      pools, regions := [], [];
    }
  }

  ghost function State(k: Kernel, h: Heap): HeapState
    reads k, k.mem, h
  {
    HeapState(k.mem[..], k.used, h.pools, h.regions)
  }

  ghost predicate Ready(k: Kernel, h: Heap)
    reads k, k.mem, h
  {
    Pmm.Ready(k) && HeapInv(k.sections, k.hhdm, State(k, h)) && k.kheapStart == h.pools[0].addr + k.hhdm
  }

  // ----- what a call of malloc does -------------------------------------------------

  /** The block at `addr` was found first-fit: by reuse, by a split, or in a new region when nothing fits. */
  ghost predicate Placed(s: HeapState, t: HeapState, n: nat, addr: nat) {
    var i := FirstFit(s.pools, n);
    if i < |s.pools| then
      && t.used == s.used && t.regions == s.regions
      && if Reusable(s.pools[i], n)
         then t.pools == Reused(s.pools, i, n) && addr == s.pools[i].Data()
         else t.pools == Split(s.pools, i, n) && addr == Slack(s.pools[i], n).Data()
    else exists f: nat :: Grew(s, t, n, f) && addr == f * 4096 + HEADER
  }

  ghost predicate Grew(s: HeapState, t: HeapState, n: nat, f: nat) {
    && t.pools == s.pools + [NewPool(f, n, |s.regions|)]
    && t.regions == s.regions + [Region(f, GrowPages(n))]
    && t.used == s.used + Pmm.Frames(f, GrowPages(n)) && s.used !! Pmm.Frames(f, GrowPages(n))
  }

  datatype Branch = Reuse | SplitOff | Grow

  /** The walk of `malloc` along the list: the first pool that fits, or the last pool when none does. */
  method FindPool(k: Kernel, h: Heap, n: nat) returns (p: nat, b: Branch, ghost i: nat)
    requires Ready(k, h) && n < 0x8000_0000_0000_0000
    ensures i < |h.pools| && i == if b.Grow? then |h.pools| - 1 else FirstFit(h.pools, n)
    ensures b.Grow? <==> FirstFit(h.pools, n) == |h.pools|
    ensures !b.Grow? ==> (b.Reuse? <==> Reusable(h.pools[i], n))
    ensures p == h.pools[i].addr
    ensures b.Reuse? ==> h.pools[i].free && h.pools[i].size > n + 26
    ensures b.SplitOff? ==> !(h.pools[i].free && h.pools[i].size > n + 26) && h.pools[i].size > h.pools[i].required + n + 26
    ensures b.Grow? <==> NoneServes(h.pools, n)
  {
    hide HeapInv, Pmm.PmmInv, Next, Load64, NoneServes;
    NoneServesIff(h.pools, n);
    HeapPmm(k.sections, k.hhdm, State(k, h));
    p := k.kheapStart - k.hhdm;
    i := 0;
    while true
      invariant i < |h.pools| && p == h.pools[i].addr
      invariant forall j :: 0 <= j < i ==> !Fits(h.pools[j], n)
      decreases |h.pools| - i
    {
      PoolFields(k.sections, k.hhdm, State(k, h), i);
      var free := k.mem[p + 25];
      var size := LoadWord(k.mem, p + 1);
      if free != 0 && size > n + HEADER {
        return p, Reuse, i;
      }
      var required := LoadWord(k.mem, p + 9);
      if size > required + n + HEADER {
        return p, SplitOff, i;
      }
      var next := LoadWord(k.mem, p + 17);
      if next == 0 {
        return p, Grow, i;
      }
      p := next - k.hhdm;
      i := i + 1;
    }
  }

  /** The reuse branch. */
  method ReusePool(k: Kernel, h: Heap, p: nat, n: nat, ghost i: nat) returns (addr: nat)
    requires Ready(k, h) && i < |h.pools| && p == h.pools[i].addr && Reusable(h.pools[i], n) && n < 0x8000_0000_0000_0000
    modifies k.mem, h
    ensures Ready(k, h) && LiveKept(old(State(k, h)), k.mem[..])
    ensures h.pools == Reused(old(h.pools), i, n) && h.regions == old(h.regions) && addr == p + HEADER + k.hhdm
  {
    hide HeapInv, LiveKept, Pmm.PmmInv, HeaderAt, PutLE, Splice;
    ghost var s := State(k, h);
    ReuseStep(k.sections, k.hhdm, s, i, n);
    k.mem[p + 25] := 0;
    assert k.mem[..] == Splice(s.m, p + 25, [0]);
    StoreWord(k.mem, p + 9, n + HEADER);
    h.pools := Reused(h.pools, i, n);
    assert State(k, h) == HeapState(ReuseMemory(s.m, s.pools[i], n), s.used, Reused(s.pools, i, n), s.regions);
    HeapPmm(k.sections, k.hhdm, State(k, h));
    return p + HEADER + k.hhdm;
  }

  /** The fields a walk reads from the header of pool `i`. */
  lemma PoolFields(secs: seq<Section>, hhdm: nat, s: HeapState, i: nat)
    requires HeapInv(secs, hhdm, s) && i < |s.pools|
    ensures var p := s.pools[i];
      && p.addr + HEADER <= |s.m| && p.End() <= |s.m| && PoolOk(p)
      && s.m[p.addr] == VERIFY && Load64(s.m, p.addr + 1) == p.size && Load64(s.m, p.addr + 9) == p.required
      && Load64(s.m, p.addr + 17) == Next(s.pools, i, hhdm) && (p.free <==> s.m[p.addr + 25] != 0)
    ensures Next(s.pools, i, hhdm) == if i + 1 < |s.pools| then s.pools[i + 1].addr + hhdm else 0
    ensures Next(s.pools, i, hhdm) == 0 <==> i + 1 == |s.pools|
  {
    PoolHeader(secs, hhdm, s, i);
    NextFits(secs, hhdm, s, i);
    PoolInside(secs, hhdm, s, i, s.pools[i].End() - 1);
  }

  lemma HeapPmm(secs: seq<Section>, hhdm: nat, s: HeapState)
    requires HeapInv(secs, hhdm, s)
    ensures Pmm.PmmInv(s.m, secs, s.used) && |s.m| <= 0x10_0000_0000_0000 && hhdm + |s.m| <= TWO64 && |s.pools| > 0
  {
  }

  lemma SplitHead(pools: seq<Pool>, i: nat, n: nat)
    requires i < |pools| && HasSlack(pools[i], n)
    ensures Split(pools, i, n)[0].addr == pools[0].addr
  {
  }

  /** `split_pool`. */
  method SplitPool(k: Kernel, h: Heap, p: nat, n: nat, ghost i: nat) returns (addr: nat)
    requires Ready(k, h) && i < |h.pools| && p == h.pools[i].addr && HasSlack(h.pools[i], n)
    modifies k.mem, h
    ensures Ready(k, h) && LiveKept(old(State(k, h)), k.mem[..])
    ensures h.pools == Split(old(h.pools), i, n) && h.regions == old(h.regions)
    ensures addr == Slack(old(h.pools)[i], n).Data() + k.hhdm
  {
    hide HeapInv, LiveKept, HeaderBytes, Pmm.PmmInv, HeaderAt, PutLE, Splice, Load64, Next, Split;
    ghost var s := State(k, h);
    SplitStep(k.sections, k.hhdm, s, i, n);
    PoolFields(k.sections, k.hhdm, s, i);
    var size := LoadWord(k.mem, p + 1);
    var required := LoadWord(k.mem, p + 9);
    var next := LoadWord(k.mem, p + 17);
    var q := p + required + 1;
    MemCpy(k.mem, q, HeaderBytes(size - required, n + HEADER, next, false));
    StoreWord(k.mem, p + 1, required);
    StoreWord(k.mem, p + 17, q + k.hhdm);
    h.pools := Split(h.pools, i, n);
    SplitHead(s.pools, i, n);
    assert State(k, h) == HeapState(SplitMemory(s.m, s.pools[i], Next(s.pools, i, k.hhdm), k.hhdm, n), s.used, Split(s.pools, i, n), s.regions);
    HeapPmm(k.sections, k.hhdm, State(k, h));
    return q + HEADER + k.hhdm;
  }

  /** The grow branch: a new region behind the last pool. */
  method GrowHeap(k: Kernel, h: Heap, p: nat, n: nat) returns (r: Pmm.Grant)
    requires Ready(k, h) && p == h.pools[|h.pools| - 1].addr && n < 0x8000_0000_0000_0000
    modifies k`totalMemoryAllocated, k`used, k.mem, h
    ensures Ready(k, h)
    ensures r.Halt? ==> State(k, h) == old(State(k, h))
    ensures r.Halt? <==> Pmm.NoRun(k.sections, old(k.used), GrowPages(n))
    ensures r.Block? ==> LiveKept(old(State(k, h)), k.mem[..])
    ensures r.Block? ==> r.addr >= k.hhdm && exists f: nat :: Grew(old(State(k, h)), State(k, h), n, f) && r.addr == f * 4096 + HEADER + k.hhdm
  {
    hide HeapInv, LiveKept, HeaderBytes, Pmm.PmmInv, Pmm.Grants, Pmm.NoRun, HeaderAt, PutLE, Splice;
    ghost var s := State(k, h);
    HeapPmm(k.sections, k.hhdm, s);
    var bytes := (n + HEADER + 4095) / 4096 * 4096;
    assert bytes == GrowPages(n) * 4096 && bytes / 4096 == GrowPages(n) && bytes < TWO64;
    hide GrowPages, Load64;
    var g := Pmm.Kmalloc(k, bytes / 4096);
    if g.Halt? {
      assert State(k, h) == s;
      return g;
    }
    var f := g.addr / 4096;
    assert g.addr == f * 4096;
    AttachRegion(k, h, p, n, f, bytes, s);
    return Pmm.Block(g.addr + HEADER + k.hhdm);
  }

  /** The pages just granted at frame `f` become a region with one pool, behind the last pool. */
  method AttachRegion(k: Kernel, h: Heap, p: nat, n: nat, f: nat, bytes: nat, ghost s: HeapState)
    requires HeapInv(k.sections, k.hhdm, s) && s.pools == h.pools && s.regions == h.regions && p == h.pools[|h.pools| - 1].addr
    requires k.lastFreedPage == -1 && k.totalMemoryAllocated == 4096 * |k.used| && k.kheapStart == h.pools[0].addr + k.hhdm
    requires n < 0x8000_0000_0000_0000 && bytes == GrowPages(n) * 4096 && bytes < TWO64
    requires Pmm.Grants(s.m, s.used, k.sections, k.mem[..], k.used, f, GrowPages(n))
    modifies k.mem, h
    ensures Ready(k, h) && LiveKept(s, k.mem[..]) && Grew(s, State(k, h), n, f)
  {
    hide HeapInv, LiveKept, HeaderBytes, Pmm.PmmInv, Pmm.Grants, HeaderAt, PutLE, Splice, GrowPages, Load64;
    ghost var m', used' := k.mem[..], k.used;
    HeapPmm(k.sections, k.hhdm, s);
    GrowStep(k.sections, k.hhdm, s, m', used', f, n);
    GrantedSet(s.m, s.used, k.sections, m', used', f, GrowPages(n));
    StoreWord(k.mem, p + 17, f * 4096 + k.hhdm);
    MemCpy(k.mem, f * 4096, HeaderBytes(bytes, n + HEADER, 0, false));
    h.pools, h.regions := h.pools + [NewPool(f, n, |h.regions|)], h.regions + [Region(f, GrowPages(n))];
    ghost var t := HeapState(GrowMemory(m', s.pools[|s.pools| - 1], f, k.hhdm, n), used',
                             s.pools + [NewPool(f, n, |s.regions|)], s.regions + [Region(f, GrowPages(n))]);
    assert k.mem[..] == t.m;
    assert State(k, h) == t;
    HeapPmm(k.sections, k.hhdm, t);
  }

  lemma GrantedSet(m: seq<byte>, used: set<nat>, secs: seq<Section>, m': seq<byte>, used': set<nat>, f: nat, n: nat)
    requires Pmm.Grants(m, used, secs, m', used', f, n)
    ensures used' == used + Pmm.Frames(f, n) && used !! Pmm.Frames(f, n)
  {
  }

  /** `malloc`: first fit; the pointer returned is `hhdm` past the block's physical address. */
  method Malloc(k: Kernel, h: Heap, n: nat) returns (r: Pmm.Grant)
    requires Ready(k, h) && n < 0x8000_0000_0000_0000
    modifies k`totalMemoryAllocated, k`used, k.mem, h
    ensures Ready(k, h)
    ensures r.Halt? ==> State(k, h) == old(State(k, h)) && FirstFit(h.pools, n) == |h.pools| && Pmm.NoRun(k.sections, k.used, GrowPages(n))
    ensures r.Halt? <==> NoneServes(old(h.pools), n) && Pmm.NoRun(k.sections, old(k.used), (n + 26 + 4095) / 4096)
    ensures r.Block? ==> |h.regions| == |old(h.regions)| + if NoneServes(old(h.pools), n) then 1 else 0
    ensures r.Block? ==> LiveKept(old(State(k, h)), k.mem[..])
    ensures r.Block? ==> r.addr >= k.hhdm && Placed(old(State(k, h)), State(k, h), n, r.addr - k.hhdm)
  {
    hide HeapInv, LiveKept, Pmm.PmmInv, Pmm.NoRun, NoneServes;
    NoneServesIff(h.pools, n);
    var p, b;
    ghost var i;
    p, b, i := FindPool(k, h, n);
    if b.Reuse? {
      var addr := ReusePool(k, h, p, n, i);
      return Pmm.Block(addr);
    } else if b.SplitOff? {
      var addr := SplitPool(k, h, p, n, i);
      return Pmm.Block(addr);
    }
    r := GrowHeap(k, h, p, n);
  }

  /** `free` of a pointer `malloc` returned: it lands on that block's header. */
  method Free(k: Kernel, h: Heap, addr: nat, ghost i: nat) returns (ok: bool)
    requires Ready(k, h) && i < |h.pools| && addr == h.pools[i].Data() + k.hhdm
    modifies k.mem, h
    ensures ok && Ready(k, h) && LiveKept(old(State(k, h)), k.mem[..])
    ensures h.pools == Freed(old(h.pools), i) && h.regions == old(h.regions)
    ensures h.pools[i].free && h.pools[i].required == 26 && h.pools[i].size == old(h.pools)[i].size
    ensures forall j :: 0 <= j < |h.pools| && j != i ==> h.pools[j] == old(h.pools)[j]
  {
    hide HeapInv, LiveKept;
    ghost var s := State(k, h);
    PoolHeader(k.sections, k.hhdm, s, i);
    FreeStep(k.sections, k.hhdm, s, i);
    var p := addr - HEADER - k.hhdm;
    if k.mem[p] != VERIFY { return false; }
    k.mem[p + 25] := 1;
    assert k.mem[..] == Splice(s.m, p + 25, [1]);
    StoreWord(k.mem, p + 9, HEADER);
    h.pools := Freed(h.pools, i);
    assert State(k, h) == HeapState(FreeMemory(s.m, s.pools[i]), s.used, Freed(s.pools, i), s.regions);
    HeapPmm(k.sections, k.hhdm, State(k, h));
    return true;
  }

  // ----- the start ------------------------------------------------------------------

  /** A granted two-page region with one free pool in it is a consistent heap. */
  lemma FirstPool(secs: seq<Section>, hhdm: nat, m: seq<byte>, used: set<nat>, m': seq<byte>, used': set<nat>, f: nat)
    requires Pmm.PmmInv(m, secs, used) && Pmm.Grants(m, used, secs, m', used', f, 2)
    requires |m| <= 0x10_0000_0000_0000 && 0 < hhdm && hhdm + |m| <= TWO64
    ensures f * 4096 + HEADER <= |m'|
    ensures HeapInv(secs, hhdm, HeapState(Splice(m', f * 4096, HeaderBytes(8192, HEADER, 0, true)), used',
                      [Pool(f * 4096, 8191, HEADER, true, 0)], [Region(f, 2)]))
  {
    hide PutLE, HeaderBytes;
    var r := Splice(m', f * 4096, HeaderBytes(8192, HEADER, 0, true));
    HeaderReads(m', f * 4096, 8192, HEADER, 0, true, 0);
    forall x | 0 <= x < |m'| && Pmm.BitmapFrame(secs, x / 4096)
      ensures r[x] == m'[x]
    {
      RegionNotBitmap(secs, m', used', f, 2, used, m, x);
    }
    PmmKeptOutside(secs, m', r, used');
    assert f in Pmm.Frames(f, 2) && f + 1 in Pmm.Frames(f, 2);
  }

  lemma PmmKeptOutside(secs: seq<Section>, m: seq<byte>, r: seq<byte>, used: set<nat>)
    requires Pmm.PmmInv(m, secs, used) && |r| == |m|
    requires forall x :: 0 <= x < |m| && Pmm.BitmapFrame(secs, x / 4096) ==> r[x] == m[x]
    ensures Pmm.PmmInv(r, secs, used)
  {
    PmmRuns.KeepBitmaps(m, r, secs, used);
  }

  /** `init_kheap`. */
  method InitKheap(k: Kernel, h: Heap) returns (ok: bool)
    requires Pmm.Ready(k) && k.mem.Length <= 0x10_0000_0000_0000 && 0 < k.hhdm && k.hhdm + k.mem.Length <= TWO64
    modifies k`totalMemoryAllocated, k`used, k.mem, k`kheapStart, h
    ensures ok <==> !Pmm.NoRun(k.sections, old(k.used), 2)
    ensures ok ==> Ready(k, h) && |h.pools| == 1 && h.pools[0].free && h.pools[0].size == 8191 && h.pools[0].required == 26 && k.used > old(k.used)
    ensures !ok ==> k.mem[..] == old(k.mem[..]) && k.used == old(k.used)
  {
    hide HeapInv, HeaderBytes, Pmm.PmmInv, Pmm.Grants, Pmm.NoRun;
    ghost var m, used := k.mem[..], k.used;
    var g := Pmm.Kmalloc(k, 2);
    if g.Halt? { return false; }
    var f := g.addr / 4096;
    GrantedSet(m, used, k.sections, k.mem[..], k.used, f, 2);
    assert f in Pmm.Frames(f, 2);
    FirstPool(k.sections, k.hhdm, m, used, k.mem[..], k.used, f);
    ghost var m' := k.mem[..];
    k.kheapStart := g.addr + k.hhdm;
    assert k.mem[..] == m';
    MemCpy(k.mem, f * 4096, HeaderBytes(8192, HEADER, 0, true));
    h.pools, h.regions := [Pool(f * 4096, 8191, HEADER, true, 0)], [Region(f, 2)];
    assert State(k, h) == HeapState(Splice(m', f * 4096, HeaderBytes(8192, HEADER, 0, true)), k.used, h.pools, h.regions);
    HeapPmm(k.sections, k.hhdm, State(k, h));
    return true;
  }
}
