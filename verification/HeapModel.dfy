/**
The kernel heap as it lies in memory (src/mem/kheap.c:12-29): a list of pools whose
packed 26-byte headers sit in the very bytes they manage, and what makes it consistent.
*/
module HeapModel {
  import opened Bytes
  import opened KernelState
  import Pmm

  /** `sizeof(Pool)`: verify byte, size, required size, next pointer, free byte, packed. */
  const HEADER: nat := 26
  const VERIFY: byte := 69

  /** A pool at physical address `addr`; the size field is one less than the bytes it occupies. */
  datatype Pool = Pool(addr: nat, size: nat, required: nat, free: bool, region: nat) {
    function End(): nat { addr + size + 1 }
    function Data(): nat { addr + HEADER }
    /** One past the last byte the client may use. */
    function DataEnd(): nat { addr + required }
  }

  /** A stretch of pages the heap obtained from the page allocator. */
  datatype Region = Region(frame: nat, pages: nat) {
    function Start(): nat { frame * 4096 }
    function End(): nat { (frame + pages) * 4096 }
  }

  datatype HeapState = HeapState(m: seq<byte>, used: set<nat>, pools: seq<Pool>, regions: seq<Region>)

  // ----- headers in memory ----------------------------------------------------------

  /** The 26 bytes at `p.addr` decode to the fields of `p` and the pointer `next`. */
  ghost predicate HeaderAt(m: seq<byte>, p: Pool, next: nat) {
    && p.addr + HEADER <= |m|
    && m[p.addr] == VERIFY
    && Load64(m, p.addr + 1) == p.size
    && Load64(m, p.addr + 9) == p.required
    && Load64(m, p.addr + 17) == next
    && m[p.addr + 25] == if p.free then 1 else 0
  }

  /** `create_pool`: the packed header of a pool that occupies `total` bytes. */
  function HeaderBytes(total: nat, required: nat, next: nat, free: bool): (r: seq<byte>)
    requires total > 0
    ensures |r| == HEADER
  {
    [VERIFY] + PutLE(total - 1, Zeros(8)) + PutLE(required, Zeros(8)) + PutLE(next, Zeros(8)) + [if free then 1 else 0]
  }

  /** Writing a header and reading its fields back. */
  lemma HeaderReads(m: seq<byte>, a: nat, total: nat, required: nat, next: nat, free: bool, region: nat)
    requires 0 < total < TWO64 && required < TWO64 && next < TWO64 && a + HEADER <= |m|
    ensures HeaderAt(Splice(m, a, HeaderBytes(total, required, next, free)), Pool(a, total - 1, required, free, region), next)
    ensures Splice(m, a, HeaderBytes(total, required, next, free))[a] == 69
  {
    hide PutLE, FromLE, Zeros;
    var h := HeaderBytes(total, required, next, free);
    var r := Splice(m, a, h);
    EightBytes();
    GetPutLE(total - 1, Zeros(8));
    GetPutLE(required, Zeros(8));
    GetPutLE(next, Zeros(8));
    assert r[a + 1..a + 9] == PutLE(total - 1, Zeros(8));
    assert r[a + 9..a + 17] == PutLE(required, Zeros(8));
    assert r[a + 17..a + 25] == PutLE(next, Zeros(8));
    assert r[a] == h[0] && r[a + 25] == h[25];
  }

  /** A header depends only on its own 26 bytes. */
  lemma HeaderKept(m: seq<byte>, r: seq<byte>, p: Pool, next: nat)
    requires HeaderAt(m, p, next) && Same(m, r, p.addr, HEADER)
    ensures HeaderAt(r, p, next)
  {
    LoadSame(m, r, p.addr + 1);
    LoadSame(m, r, p.addr + 9);
    LoadSame(m, r, p.addr + 17);
  }

  lemma SetSize(m: seq<byte>, p: Pool, next: nat, v: nat)
    requires HeaderAt(m, p, next) && v < TWO64
    ensures HeaderAt(Store64(m, p.addr + 1, v), p.(size := v), next)
  {
    LoadStore(m, p.addr + 1, v, p.addr + 1);
    LoadStore(m, p.addr + 1, v, p.addr + 9);
    LoadStore(m, p.addr + 1, v, p.addr + 17);
  }

  lemma SetRequired(m: seq<byte>, p: Pool, next: nat, v: nat)
    requires HeaderAt(m, p, next) && v < TWO64
    ensures HeaderAt(Store64(m, p.addr + 9, v), p.(required := v), next)
  {
    LoadStore(m, p.addr + 9, v, p.addr + 1);
    LoadStore(m, p.addr + 9, v, p.addr + 9);
    LoadStore(m, p.addr + 9, v, p.addr + 17);
  }

  lemma SetNext(m: seq<byte>, p: Pool, next: nat, v: nat)
    requires HeaderAt(m, p, next) && v < TWO64
    ensures HeaderAt(Store64(m, p.addr + 17, v), p, v)
  {
    LoadStore(m, p.addr + 17, v, p.addr + 1);
    LoadStore(m, p.addr + 17, v, p.addr + 9);
    LoadStore(m, p.addr + 17, v, p.addr + 17);
  }

  lemma SetFree(m: seq<byte>, p: Pool, next: nat, b: bool)
    requires HeaderAt(m, p, next)
    ensures HeaderAt(Splice(m, p.addr + 25, [if b then 1 else 0]), p.(free := b), next)
  {
    var r := Splice(m, p.addr + 25, [if b then 1 else 0]);
    LoadSame(m, r, p.addr + 1);
    LoadSame(m, r, p.addr + 9);
    LoadSame(m, r, p.addr + 17);
  }

  // ----- the layout of the pools ----------------------------------------------------

  ghost predicate InRegion(p: Pool, regions: seq<Region>) {
    p.region < |regions| && regions[p.region].Start() <= p.addr && p.End() <= regions[p.region].End()
  }

  /** Pool `i+1` begins where pool `i` ends, or starts the next region when pool `i` ends its own. */
  ghost predicate Adjacent(pools: seq<Pool>, regions: seq<Region>, i: nat)
    requires i + 1 < |pools| && InRegion(pools[i], regions) && InRegion(pools[i + 1], regions)
  {
    var p, q := pools[i], pools[i + 1];
    if q.region == p.region then q.addr == p.End()
    else q.region == p.region + 1 && p.End() == regions[p.region].End() && q.addr == regions[q.region].Start()
  }

  /** The pools fill the regions exactly, in order, without gap or overlap. */
  ghost predicate Tiled(pools: seq<Pool>, regions: seq<Region>) {
    && |pools| > 0 && |regions| > 0
    && (forall i :: 0 <= i < |pools| ==> InRegion(pools[i], regions))
    && (forall i {:trigger Adjacent(pools, regions, i)} :: 0 <= i < |pools| - 1 ==> Adjacent(pools, regions, i))
    && pools[0].region == 0 && pools[0].addr == regions[0].Start()
    && (var last := pools[|pools| - 1]; last.region == |regions| - 1 && last.End() == regions[last.region].End())
  }

  /** A pool has room for its header and for what was requested of it. */
  predicate PoolOk(p: Pool) {
    HEADER <= p.required <= p.size + 1
  }

  predicate ApartRegions(r: Region, s: Region) {
    r.frame + r.pages <= s.frame || s.frame + s.pages <= r.frame
  }

  ghost predicate RegionsOk(regions: seq<Region>, used: set<nat>, size: nat) {
    && (forall a :: 0 <= a < |regions| ==> RegionHeld(regions[a], used, size))
    && (forall a, b {:trigger ApartRegions(regions[a], regions[b])} :: 0 <= a < b < |regions| ==> ApartRegions(regions[a], regions[b]))
  }

  ghost predicate RegionHeld(r: Region, used: set<nat>, size: nat) {
    r.pages > 0 && r.End() <= size && forall f :: r.frame <= f < r.frame + r.pages ==> f in used
  }

  /** The pointer stored in pool `i`. */
  function Next(pools: seq<Pool>, i: nat, hhdm: nat): nat
    requires i < |pools|
  {
    if i + 1 < |pools| then pools[i + 1].addr + hhdm else 0
  }

  ghost predicate HeadersOk(m: seq<byte>, pools: seq<Pool>, hhdm: nat) {
    forall i {:trigger pools[i]} :: 0 <= i < |pools| ==> HeaderAt(m, pools[i], Next(pools, i, hhdm))
  }

  /** The heap is consistent: headers decode to the list, and the list tiles the regions. */
  ghost predicate HeapInv(secs: seq<Section>, hhdm: nat, s: HeapState) {
    && Pmm.PmmInv(s.m, secs, s.used) && |s.m| <= 0x10_0000_0000_0000 && 0 < hhdm && hhdm + |s.m| <= TWO64
    && RegionsOk(s.regions, s.used, |s.m|)
    && |s.pools| > 0 && Tiled(s.pools, s.regions)
    && (forall i :: 0 <= i < |s.pools| ==> PoolOk(s.pools[i]))
    && HeadersOk(s.m, s.pools, hhdm)
  }

  /** Earlier pools of the list lie in earlier regions, or before in the same region. */
  lemma {:induction false} Ordered(pools: seq<Pool>, regions: seq<Region>, i: nat, j: nat)
    requires Tiled(pools, regions) && i < j < |pools|
    ensures pools[i].region <= pools[j].region
    ensures pools[i].region == pools[j].region ==> pools[i].End() <= pools[j].addr
    decreases j
  {
    assert Adjacent(pools, regions, j - 1);
    if i < j - 1 {
      Ordered(pools, regions, i, j - 1);
    }
  }

  /** Different pools occupy disjoint bytes. */
  lemma PoolsDisjoint(pools: seq<Pool>, regions: seq<Region>, used: set<nat>, size: nat, i: nat, j: nat)
    requires Tiled(pools, regions) && RegionsOk(regions, used, size) && i < |pools| && j < |pools| && i != j
    ensures pools[i].End() <= pools[j].addr || pools[j].End() <= pools[i].addr
  {
    var a, b := if i < j then i else j, if i < j then j else i;
    Ordered(pools, regions, a, b);
    if pools[a].region != pools[b].region {
      assert ApartRegions(regions[pools[a].region], regions[pools[b].region]);
    }
  }

  // ----- conservation ---------------------------------------------------------------

  /** Bytes the first `i` pools occupy. */
  ghost function Occupied(pools: seq<Pool>, i: nat): nat
    requires i <= |pools|
  {
    if i == 0 then 0 else Occupied(pools, i - 1) + pools[i - 1].size + 1
  }

  /** Bytes in the first `a` regions. */
  ghost function Obtained(regions: seq<Region>, a: nat): nat
    requires a <= |regions|
  {
    if a == 0 then 0 else Obtained(regions, a - 1) + regions[a - 1].pages * 4096
  }

  lemma {:induction false} OccupiedSoFar(pools: seq<Pool>, regions: seq<Region>, i: nat)
    requires Tiled(pools, regions) && 0 < i <= |pools|
    ensures InRegion(pools[i - 1], regions)
    ensures Occupied(pools, i) == Obtained(regions, pools[i - 1].region) + pools[i - 1].End() - regions[pools[i - 1].region].Start()
    decreases i
  {
    if i > 1 {
      OccupiedSoFar(pools, regions, i - 1);
      assert Adjacent(pools, regions, i - 2);
    }
  }

  /** The pools together occupy exactly the pages obtained: the sum of `size + 1` is 4096 times their number. */
  lemma Conservation(pools: seq<Pool>, regions: seq<Region>)
    requires Tiled(pools, regions)
    ensures Occupied(pools, |pools|) == Obtained(regions, |regions|)
  {
    OccupiedSoFar(pools, regions, |pools|);
  }

  // ----- first fit ------------------------------------------------------------------

  predicate Reusable(p: Pool, n: nat) { p.free && p.size > n + HEADER }
  predicate HasSlack(p: Pool, n: nat) { p.size > p.required + n + HEADER }
  predicate Fits(p: Pool, n: nat) { Reusable(p, n) || HasSlack(p, n) }

  /** The earliest pool in list order that fits a request of `n` bytes, or the length of the list. */
  function FirstFit(pools: seq<Pool>, n: nat): (i: nat)
    ensures i <= |pools|
    ensures i < |pools| ==> Fits(pools[i], n)
    ensures forall j :: 0 <= j < i ==> !Fits(pools[j], n)
  {
    if pools == [] then 0
    else if Fits(pools[0], n) then 0
    else
      var i := FirstFit(pools[1..], n);
      assert forall j :: 0 < j < i + 1 ==> pools[j] == pools[1..][j - 1];
      i + 1
  }

  /** A pool serves a request of `n` bytes when it is free and larger than the request and its header, or in use and larger by that than what was requested of it. */
  ghost predicate NoneServes(pools: seq<Pool>, n: nat) {
    forall i :: 0 <= i < |pools| ==> !(pools[i].free && pools[i].size > n + 26) && !(pools[i].size > pools[i].required + n + 26)
  }

  /** First fit passes over no pool that serves the request, and stops at one that does. */
  lemma FirstFitServes(pools: seq<Pool>, n: nat)
    ensures forall i {:trigger pools[i]} :: 0 <= i < |pools| && ((pools[i].free && pools[i].size > n + 26) || pools[i].size > pools[i].required + n + 26) ==> FirstFit(pools, n) <= i
    ensures var i := FirstFit(pools, n); i < |pools| ==> (pools[i].free && pools[i].size > n + 26) || pools[i].size > pools[i].required + n + 26
    ensures FirstFit(pools, n) == |pools| <==> NoneServes(pools, n)
  {
    var i := FirstFit(pools, n);
    assert i < |pools| ==> Fits(pools[i], n);
    forall j | 0 <= j < |pools| && ((pools[j].free && pools[j].size > n + 26) || pools[j].size > pools[j].required + n + 26)
      ensures i <= j
    {
      assert Fits(pools[j], n);
    }
  }

  lemma NoneServesIff(pools: seq<Pool>, n: nat)
    ensures FirstFit(pools, n) == |pools| <==> NoneServes(pools, n)
  {
    FirstFitServes(pools, n);
  }

  /** A free pool with slack can also be reused, so a free pool is never split. */
  lemma FreePoolNotSplit(p: Pool, n: nat)
    requires PoolOk(p)
    ensures p.free && HasSlack(p, n) ==> Reusable(p, n)
  {
  }

  /** The list after reusing pool `i`. */
  function Reused(pools: seq<Pool>, i: nat, n: nat): (r: seq<Pool>)
    requires i < |pools|
    ensures |r| == |pools|
  {
    pools[i := pools[i].(free := false, required := n + HEADER)]
  }

  /** The list after splitting the slack off pool `i`. */
  function Split(pools: seq<Pool>, i: nat, n: nat): (r: seq<Pool>)
    requires i < |pools| && HasSlack(pools[i], n)
    ensures |r| == |pools| + 1
  {
    pools[..i] + [pools[i].(size := pools[i].required), Slack(pools[i], n)] + pools[i + 1..]
  }

  function Slack(p: Pool, n: nat): Pool
    requires HasSlack(p, n)
  {
    Pool(p.addr + p.required + 1, p.size - p.required - 1, n + HEADER, false, p.region)
  }

  /** The pages a new region takes for a request of `n` bytes. */
  function GrowPages(n: nat): nat { (n + HEADER + 4095) / 4096 }

  /** The pool that fills a new region at frame `f`. */
  function NewPool(f: nat, n: nat, region: nat): Pool {
    Pool(f * 4096, GrowPages(n) * 4096 - 1, n + HEADER, false, region)
  }

  /** The list after freeing pool `i`. */
  function Freed(pools: seq<Pool>, i: nat): (r: seq<Pool>)
    requires i < |pools|
    ensures |r| == |pools|
  {
    pools[i := pools[i].(free := true, required := HEADER)]
  }

  // ----- each change keeps the tiling -----------------------------------------------

  /** Changing only `free` and `required` of one pool keeps the tiling. */
  lemma MarkKeepsTiling(pools: seq<Pool>, regions: seq<Region>, i: nat, q: Pool)
    requires Tiled(pools, regions) && i < |pools|
    requires q.addr == pools[i].addr && q.size == pools[i].size && q.region == pools[i].region
    ensures Tiled(pools[i := q], regions)
  {
    var r := pools[i := q];
    forall j | 0 <= j < |r|
      ensures InRegion(r[j], regions)
    {
      assert InRegion(pools[j], regions);
    }
    forall j | 0 <= j < |r| - 1
      ensures Adjacent(r, regions, j)
    {
      assert Adjacent(pools, regions, j);
    }
  }

  lemma SplitKeepsTiling(pools: seq<Pool>, regions: seq<Region>, i: nat, n: nat)
    requires Tiled(pools, regions) && i < |pools| && HasSlack(pools[i], n)
    ensures Tiled(Split(pools, i, n), regions)
  {
    var r := Split(pools, i, n);
    forall j | 0 <= j < |r|
      ensures InRegion(r[j], regions)
    {
      assert InRegion(pools[if j <= i then j else j - 1], regions);
    }
    forall j | 0 <= j < |r| - 1
      ensures Adjacent(r, regions, j)
    {
      if j < i {
        assert Adjacent(pools, regions, j);
      } else if j > i {
        assert Adjacent(pools, regions, j - 1);
      }
    }
  }

  lemma GrowKeepsTiling(pools: seq<Pool>, regions: seq<Region>, f: nat, n: nat)
    requires Tiled(pools, regions)
    ensures Tiled(pools + [NewPool(f, n, |regions|)], regions + [Region(f, GrowPages(n))])
  {
    var r := pools + [NewPool(f, n, |regions|)];
    var rs := regions + [Region(f, GrowPages(n))];
    forall j | 0 <= j < |r|
      ensures InRegion(r[j], rs)
    {
      assert j < |pools| ==> InRegion(pools[j], regions);
    }
    forall j | 0 <= j < |r| - 1
      ensures Adjacent(r, rs, j)
    {
      assert j < |pools| - 1 ==> Adjacent(pools, regions, j);
    }
  }
}
