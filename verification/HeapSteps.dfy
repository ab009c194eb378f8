/**
Every change the heap makes to memory keeps its consistency and leaves the bytes of all
live blocks alone.
*/
module HeapSteps {
  import opened Bytes
  import opened KernelState
  import opened HeapModel
  import Pmm
  import PmmRuns
  import Mapping

  /** Memory changed at most in `[lo, hi)`. */
  ghost predicate OnlyIn(m: seq<byte>, r: seq<byte>, lo: nat, hi: nat) {
    |r| == |m| && forall x {:trigger r[x]} :: 0 <= x < |m| && !(lo <= x < hi) ==> r[x] == m[x]
  }

  /** The bytes the client of pool `p` may use are unchanged. */
  ghost predicate PayloadSame(m: seq<byte>, r: seq<byte>, p: Pool) {
    |r| == |m| && forall x {:trigger r[x]} :: p.Data() <= x < p.DataEnd() && x < |m| ==> r[x] == m[x]
  }

  /** The payloads of all live pools are unchanged. */
  ghost predicate LiveKept(s: HeapState, r: seq<byte>) {
    forall j {:trigger s.pools[j]} :: 0 <= j < |s.pools| && !s.pools[j].free ==> PayloadSame(s.m, r, s.pools[j])
  }

  lemma PoolInside(secs: seq<Section>, hhdm: nat, s: HeapState, i: nat, x: nat)
    requires HeapInv(secs, hhdm, s) && i < |s.pools| && s.pools[i].addr <= x < s.pools[i].End()
    ensures x < |s.m| && x / 4096 in s.used
  {
    var p := s.pools[i];
    assert InRegion(p, s.regions);
    var r := s.regions[p.region];
    assert RegionHeld(r, s.used, |s.m|);
    assert r.frame <= x / 4096 < r.frame + r.pages;
  }

  /** Writing inside a pool keeps the page allocator's bitmaps. */
  lemma PoolWriteKeepsPmm(secs: seq<Section>, hhdm: nat, s: HeapState, r: seq<byte>, i: nat)
    requires HeapInv(secs, hhdm, s) && i < |s.pools| && OnlyIn(s.m, r, s.pools[i].addr, s.pools[i].End())
    ensures Pmm.PmmInv(r, secs, s.used)
  {
    forall x | 0 <= x < |s.m| && Pmm.BitmapFrame(secs, x / 4096)
      ensures r[x] == s.m[x]
    {
      if s.pools[i].addr <= x < s.pools[i].End() {
        PoolInside(secs, hhdm, s, i, x);
        assert Pmm.Trackable(secs, x / 4096);
        PmmRuns.TrackableNotBitmap(secs, |s.m|, x / 4096);
        assert false;
      }
    }
    PmmRuns.KeepBitmaps(s.m, r, secs, s.used);
  }

  /** Writing inside pool `i` keeps the header and the payload of every other pool. */
  lemma PoolWriteKeepsOther(secs: seq<Section>, hhdm: nat, s: HeapState, r: seq<byte>, i: nat, j: nat)
    requires HeapInv(secs, hhdm, s) && i < |s.pools| && j < |s.pools| && i != j
    requires OnlyIn(s.m, r, s.pools[i].addr, s.pools[i].End())
    ensures HeaderAt(r, s.pools[j], Next(s.pools, j, hhdm)) && PayloadSame(s.m, r, s.pools[j])
  {
    hide HeapInv, HeaderAt;
    PoolsApart(secs, hhdm, s, i, j);
    PoolHeader(secs, hhdm, s, j);
    HeaderKept(s.m, r, s.pools[j], Next(s.pools, j, hhdm));
  }

  // ----- reuse and free: one header changes -----------------------------------------

  /** Rewriting the header of pool `i`, keeping its place and size, keeps the heap consistent and every payload. */
  lemma HeaderChange(secs: seq<Section>, hhdm: nat, s: HeapState, r: seq<byte>, i: nat, q: Pool)
    requires HeapInv(secs, hhdm, s) && i < |s.pools|
    requires OnlyIn(s.m, r, s.pools[i].addr, s.pools[i].Data())
    requires q.addr == s.pools[i].addr && q.size == s.pools[i].size && q.region == s.pools[i].region && PoolOk(q)
    requires HeaderAt(r, q, Next(s.pools, i, hhdm))
    ensures HeapInv(secs, hhdm, HeapState(r, s.used, s.pools[i := q], s.regions))
    ensures LiveKept(s, r)
  {
    hide HeaderAt, Pmm.PmmInv, Tiled, RegionsOk;
    var p := s.pools[i];
    assert PoolOk(p);
    assert OnlyIn(s.m, r, p.addr, p.End()) && PayloadSame(s.m, r, p);
    PoolWriteKeepsPmm(secs, hhdm, s, r, i);
    MarkKeepsTiling(s.pools, s.regions, i, q);
    var ps := s.pools[i := q];
    forall j | 0 <= j < |ps|
      ensures HeaderAt(r, ps[j], Next(ps, j, hhdm)) && PoolOk(ps[j])
      ensures PayloadSame(s.m, r, s.pools[j])
    {
      assert Next(ps, j, hhdm) == Next(s.pools, j, hhdm);
      if j != i {
        PoolWriteKeepsOther(secs, hhdm, s, r, i, j);
      }
    }
  }

  /** Memory after the reuse branch of `malloc`. */
  ghost function ReuseMemory(m: seq<byte>, p: Pool, n: nat): (r: seq<byte>)
    requires p.addr + HEADER <= |m|
    ensures |r| == |m|
  {
    Store64(Splice(m, p.addr + 25, [0]), p.addr + 9, n + HEADER)
  }

  lemma ReuseHeader(m: seq<byte>, p: Pool, next: nat, n: nat)
    requires HeaderAt(m, p, next) && n + HEADER < TWO64
    ensures HeaderAt(ReuseMemory(m, p, n), p.(free := false, required := n + HEADER), next)
    ensures OnlyIn(m, ReuseMemory(m, p, n), p.addr, p.Data())
  {
    hide PutLE;
    SetFree(m, p, next, false);
    SetRequired(Splice(m, p.addr + 25, [0]), p.(free := false), next, n + HEADER);
    hide HeaderAt;
  }

  lemma ReuseStep(secs: seq<Section>, hhdm: nat, s: HeapState, i: nat, n: nat)
    requires HeapInv(secs, hhdm, s) && i < |s.pools| && Reusable(s.pools[i], n) && n + HEADER < TWO64
    ensures s.pools[i].addr + HEADER <= |s.m|
    ensures HeapInv(secs, hhdm, HeapState(ReuseMemory(s.m, s.pools[i], n), s.used, Reused(s.pools, i, n), s.regions))
    ensures LiveKept(s, ReuseMemory(s.m, s.pools[i], n))
  {
    var p := s.pools[i];
    PoolHeader(secs, hhdm, s, i);
    hide HeapInv, ReuseMemory, HeaderAt;
    ReuseHeader(s.m, p, Next(s.pools, i, hhdm), n);
    HeaderChange(secs, hhdm, s, ReuseMemory(s.m, p, n), i, p.(free := false, required := n + HEADER));
  }

  lemma PoolsApart(secs: seq<Section>, hhdm: nat, s: HeapState, i: nat, j: nat)
    requires HeapInv(secs, hhdm, s) && i < |s.pools| && j < |s.pools| && i != j
    ensures s.pools[i].End() <= s.pools[j].addr || s.pools[j].End() <= s.pools[i].addr
  {
    PoolsDisjoint(s.pools, s.regions, s.used, |s.m|, i, j);
  }

  lemma PoolHeader(secs: seq<Section>, hhdm: nat, s: HeapState, i: nat)
    requires HeapInv(secs, hhdm, s) && i < |s.pools|
    ensures HeaderAt(s.m, s.pools[i], Next(s.pools, i, hhdm)) && PoolOk(s.pools[i]) && s.pools[i].addr + HEADER <= |s.m|
  {
  }

  /** Memory after `free`. */
  ghost function FreeMemory(m: seq<byte>, p: Pool): (r: seq<byte>)
    requires p.addr + HEADER <= |m|
    ensures |r| == |m|
  {
    Store64(Splice(m, p.addr + 25, [1]), p.addr + 9, HEADER)
  }

  lemma FreeHeader(m: seq<byte>, p: Pool, next: nat)
    requires HeaderAt(m, p, next)
    ensures HeaderAt(FreeMemory(m, p), p.(free := true, required := HEADER), next)
    ensures OnlyIn(m, FreeMemory(m, p), p.addr, p.Data())
  {
    hide PutLE;
    SetFree(m, p, next, true);
    SetRequired(Splice(m, p.addr + 25, [1]), p.(free := true), next, HEADER);
    hide HeaderAt;
  }

  lemma FreeStep(secs: seq<Section>, hhdm: nat, s: HeapState, i: nat)
    requires HeapInv(secs, hhdm, s) && i < |s.pools|
    ensures s.pools[i].addr + HEADER <= |s.m|
    ensures HeapInv(secs, hhdm, HeapState(FreeMemory(s.m, s.pools[i]), s.used, Freed(s.pools, i), s.regions))
    ensures LiveKept(s, FreeMemory(s.m, s.pools[i]))
  {
    var p := s.pools[i];
    PoolHeader(secs, hhdm, s, i);
    hide HeapInv, FreeMemory, HeaderAt;
    FreeHeader(s.m, p, Next(s.pools, i, hhdm));
    HeaderChange(secs, hhdm, s, FreeMemory(s.m, p), i, p.(free := true, required := HEADER));
  }

  // ----- split ----------------------------------------------------------------------

  /** `split_pool`, first the header of the new pool, */
  ghost function WithNewHeader(m: seq<byte>, p: Pool, next: nat, n: nat): (r: seq<byte>)
    requires HasSlack(p, n) && PoolOk(p) && p.End() <= |m|
    ensures |r| == |m|
  {
    Splice(m, Slack(p, n).addr, HeaderBytes(p.size - p.required, n + HEADER, next, false))
  }

  /** then the size of the old one, */
  ghost function WithOldSize(m: seq<byte>, p: Pool): (r: seq<byte>)
    requires PoolOk(p) && p.End() <= |m| && p.addr + HEADER <= |m|
    ensures |r| == |m|
  {
    Store64(m, p.addr + 1, p.required)
  }

  /** then its next pointer. */
  ghost function SplitMemory(m: seq<byte>, p: Pool, next: nat, hhdm: nat, n: nat): (r: seq<byte>)
    requires HasSlack(p, n) && PoolOk(p) && p.End() <= |m|
    ensures |r| == |m|
  {
    Store64(WithOldSize(WithNewHeader(m, p, next, n), p), p.addr + 17, Slack(p, n).addr + hhdm)
  }

  lemma NewHeader(m: seq<byte>, p: Pool, next: nat, n: nat)
    requires HeaderAt(m, p, next) && HasSlack(p, n) && PoolOk(p) && p.End() <= |m| <= 0x10_0000_0000_0000 && next < TWO64
    ensures HeaderAt(WithNewHeader(m, p, next, n), p, next) && HeaderAt(WithNewHeader(m, p, next, n), Slack(p, n), next)
    ensures OnlyIn(m, WithNewHeader(m, p, next, n), p.DataEnd(), p.End())
  {
    hide PutLE, HeaderBytes;
    HeaderReads(m, Slack(p, n).addr, p.size - p.required, n + HEADER, next, false, p.region);
    HeaderKept(m, WithNewHeader(m, p, next, n), p, next);
    hide HeaderAt;
  }

  lemma OldSize(m: seq<byte>, p: Pool, q: Pool, next: nat)
    requires HeaderAt(m, p, next) && HeaderAt(m, q, next) && PoolOk(p) && p.End() <= |m| <= 0x10_0000_0000_0000
    requires q.addr >= p.DataEnd()
    ensures HeaderAt(WithOldSize(m, p), p.(size := p.required), next) && HeaderAt(WithOldSize(m, p), q, next)
    ensures OnlyIn(m, WithOldSize(m, p), p.addr, p.Data())
  {
    hide PutLE;
    SetSize(m, p, next, p.required);
    HeaderKept(m, WithOldSize(m, p), q, next);
    hide HeaderAt;
  }

  lemma OldNext(m: seq<byte>, p: Pool, q: Pool, next: nat, v: nat)
    requires HeaderAt(m, p, next) && HeaderAt(m, q, next) && v < TWO64 && q.addr >= p.Data()
    ensures HeaderAt(Store64(m, p.addr + 17, v), p, v) && HeaderAt(Store64(m, p.addr + 17, v), q, next)
    ensures OnlyIn(m, Store64(m, p.addr + 17, v), p.addr, p.Data())
  {
    hide PutLE;
    SetNext(m, p, next, v);
    HeaderKept(m, Store64(m, p.addr + 17, v), q, next);
    hide HeaderAt;
  }

  lemma SplitHeaders(m: seq<byte>, p: Pool, next: nat, hhdm: nat, n: nat)
    requires HeaderAt(m, p, next) && HasSlack(p, n) && PoolOk(p) && p.End() <= |m| <= 0x10_0000_0000_0000
    requires next < TWO64 && hhdm + |m| <= TWO64
    ensures HeaderAt(SplitMemory(m, p, next, hhdm, n), p.(size := p.required), Slack(p, n).addr + hhdm)
    ensures HeaderAt(SplitMemory(m, p, next, hhdm, n), Slack(p, n), next)
    ensures OnlyIn(m, SplitMemory(m, p, next, hhdm, n), p.addr, p.End())
    ensures PayloadSame(m, SplitMemory(m, p, next, hhdm, n), p)
  {
    hide HeaderAt, WithNewHeader, WithOldSize, Store64;
    var m1 := WithNewHeader(m, p, next, n);
    NewHeader(m, p, next, n);
    OldSize(m1, p, Slack(p, n), next);
    OldNext(WithOldSize(m1, p), p.(size := p.required), Slack(p, n), next, Slack(p, n).addr + hhdm);
  }

  lemma SplitStep(secs: seq<Section>, hhdm: nat, s: HeapState, i: nat, n: nat)
    requires HeapInv(secs, hhdm, s) && i < |s.pools| && HasSlack(s.pools[i], n)
    ensures PoolOk(s.pools[i]) && s.pools[i].End() <= |s.m|
    ensures HeapInv(secs, hhdm, HeapState(SplitMemory(s.m, s.pools[i], Next(s.pools, i, hhdm), hhdm, n), s.used, Split(s.pools, i, n), s.regions))
    ensures LiveKept(s, SplitMemory(s.m, s.pools[i], Next(s.pools, i, hhdm), hhdm, n))
  {
    hide HeaderAt, Tiled, RegionsOk, Pmm.PmmInv, SplitMemory, Split, OnlyIn, PayloadSame;
    var p := s.pools[i];
    var next := Next(s.pools, i, hhdm);
    PoolInside(secs, hhdm, s, i, p.End() - 1);
    NextFits(secs, hhdm, s, i);
    assert HeaderAt(s.m, p, next) && PoolOk(p);
    var r := SplitMemory(s.m, p, next, hhdm, n);
    SplitHeaders(s.m, p, next, hhdm, n);
    PoolWriteKeepsPmm(secs, hhdm, s, r, i);
    SplitKeepsTiling(s.pools, s.regions, i, n);
    var ps := Split(s.pools, i, n);
    forall j | 0 <= j < |s.pools| && j != i
      ensures HeaderAt(r, s.pools[j], Next(s.pools, j, hhdm)) && PayloadSame(s.m, r, s.pools[j])
    {
      PoolWriteKeepsOther(secs, hhdm, s, r, i, j);
    }
    SplitListHeaders(r, s.pools, hhdm, i, n);
  }

  lemma NextFits(secs: seq<Section>, hhdm: nat, s: HeapState, i: nat)
    requires HeapInv(secs, hhdm, s) && i < |s.pools|
    ensures Next(s.pools, i, hhdm) < TWO64
    ensures s.pools[i].addr + hhdm < TWO64
    ensures Next(s.pools, i, hhdm) == 0 <==> i == |s.pools| - 1
  {
    PoolInside(secs, hhdm, s, i, s.pools[i].addr);
    if i + 1 < |s.pools| {
      PoolInside(secs, hhdm, s, i + 1, s.pools[i + 1].addr);
    }
    hide Pmm.PmmInv, RegionsOk, Tiled, HeadersOk;
  }

  /** The headers of the split list, from those of the pools that were not touched. */
  lemma SplitListHeaders(r: seq<byte>, pools: seq<Pool>, hhdm: nat, i: nat, n: nat)
    requires i < |pools| && HasSlack(pools[i], n) && forall j :: 0 <= j < |pools| ==> PoolOk(pools[j])
    requires HeaderAt(r, pools[i].(size := pools[i].required), Slack(pools[i], n).addr + hhdm)
    requires HeaderAt(r, Slack(pools[i], n), Next(pools, i, hhdm))
    requires forall j :: 0 <= j < |pools| && j != i ==> HeaderAt(r, pools[j], Next(pools, j, hhdm))
    ensures HeadersOk(r, Split(pools, i, n), hhdm)
    ensures forall j :: 0 <= j < |Split(pools, i, n)| ==> PoolOk(Split(pools, i, n)[j])
  {
    hide HeaderAt;
    var ps := Split(pools, i, n);
    forall j | 0 <= j < |ps|
      ensures HeaderAt(r, ps[j], Next(ps, j, hhdm)) && PoolOk(ps[j])
    {
      if j < i {
        assert ps[j] == pools[j] && HeaderAt(r, pools[j], Next(pools, j, hhdm));
        assert Next(ps, j, hhdm) == Next(pools, j, hhdm);
      } else if j > i + 1 {
        assert ps[j] == pools[j - 1] && HeaderAt(r, pools[j - 1], Next(pools, j - 1, hhdm));
        assert Next(ps, j, hhdm) == Next(pools, j - 1, hhdm);
      }
    }
  }

  // ----- grow -----------------------------------------------------------------------

  /** A grant to the heap leaves every byte of every frame in use alone. */
  lemma GrantKeepsBytes(secs: seq<Section>, m: seq<byte>, used: set<nat>, m': seq<byte>, used': set<nat>, f: nat, g: nat, x: nat)
    requires Pmm.PmmInv(m, secs, used) && Pmm.Grants(m, used, secs, m', used', f, g) && x < |m| && x / 4096 in used
    ensures m'[x] == m[x] && !(f * 4096 <= x < (f + g) * 4096)
  {
    Mapping.GrantKeepsUsed(secs, m, used, m', used', f, g, x / 4096);
    assert x / 4096 !in Pmm.Frames(f, g);
  }

  lemma GrantKeepsPool(secs: seq<Section>, hhdm: nat, s: HeapState, m': seq<byte>, used': set<nat>, f: nat, g: nat, i: nat)
    requires HeapInv(secs, hhdm, s) && Pmm.Grants(s.m, s.used, secs, m', used', f, g) && i < |s.pools| && g > 0
    ensures HeaderAt(m', s.pools[i], Next(s.pools, i, hhdm)) && PayloadSame(s.m, m', s.pools[i])
    ensures s.pools[i].End() <= f * 4096 || (f + g) * 4096 <= s.pools[i].addr
  {
    var p := s.pools[i];
    PoolHeader(secs, hhdm, s, i);
    Pmm.GrantsParts(s.m, s.used, secs, m', used', f, g);
    forall x | p.addr <= x < p.End()
      ensures x < |s.m| && m'[x] == s.m[x]
    {
      PoolInside(secs, hhdm, s, i, x);
      GrantKeepsBytes(secs, s.m, s.used, m', used', f, g, x);
    }
    PoolInside(secs, hhdm, s, i, p.addr);
    GrantKeepsBytes(secs, s.m, s.used, m', used', f, g, p.addr);
    if p.addr <= f * 4096 < p.End() {
      PoolInside(secs, hhdm, s, i, f * 4096);
      GrantKeepsBytes(secs, s.m, s.used, m', used', f, g, f * 4096);
    }
    hide HeaderAt, HeapInv, Pmm.Grants;
    HeaderKept(s.m, m', p, Next(s.pools, i, hhdm));
  }

  /** Memory after the grow branch of `malloc`: the last pool points to the new region, which holds one new header. */
  ghost function GrowMemory(m: seq<byte>, last: Pool, f: nat, hhdm: nat, n: nat): (r: seq<byte>)
    requires last.addr + HEADER <= |m| && (f + GrowPages(n)) * 4096 <= |m|
    ensures |r| == |m|
  {
    Splice(Store64(m, last.addr + 17, f * 4096 + hhdm), f * 4096, HeaderBytes(GrowPages(n) * 4096, n + HEADER, 0, false))
  }

  lemma GrowHeaders(m: seq<byte>, last: Pool, f: nat, hhdm: nat, n: nat, region: nat)
    requires HeaderAt(m, last, 0) && (f + GrowPages(n)) * 4096 <= |m| <= 0x10_0000_0000_0000 && n + HEADER < TWO64
    requires hhdm + |m| <= TWO64
    requires last.Data() <= f * 4096 || (f + GrowPages(n)) * 4096 <= last.addr
    ensures HeaderAt(GrowMemory(m, last, f, hhdm, n), last, f * 4096 + hhdm)
    ensures HeaderAt(GrowMemory(m, last, f, hhdm, n), NewPool(f, n, region), 0)
  {
    hide PutLE, HeaderBytes, HeaderAt;
    LastHeaderFits(m, last);
    var m1 := Store64(m, last.addr + 17, f * 4096 + hhdm);
    SetNext(m, last, 0, f * 4096 + hhdm);
    HeaderReads(m1, f * 4096, GrowPages(n) * 4096, n + HEADER, 0, false, region);
    HeaderKept(m1, GrowMemory(m, last, f, hhdm, n), last, f * 4096 + hhdm);
  }

  lemma LastHeaderFits(m: seq<byte>, p: Pool)
    ensures forall next: nat :: HeaderAt(m, p, next) ==> p.addr + HEADER <= |m|
  {
  }

  /** The grow branch touches only the header of the last pool and the start of the new region. */
  lemma GrowTouches(m: seq<byte>, last: Pool, f: nat, hhdm: nat, n: nat, x: nat)
    requires last.addr + HEADER <= |m| && (f + GrowPages(n)) * 4096 <= |m| && x < |m|
    requires !(last.addr <= x < last.Data()) && !(f * 4096 <= x < (f + GrowPages(n)) * 4096)
    ensures GrowMemory(m, last, f, hhdm, n)[x] == m[x]
  {
    hide PutLE, HeaderBytes;
  }

  lemma GrowKeepsPmm(secs: seq<Section>, hhdm: nat, s: HeapState, m': seq<byte>, used': set<nat>, f: nat, n: nat)
    requires HeapInv(secs, hhdm, s) && Pmm.Grants(s.m, s.used, secs, m', used', f, GrowPages(n))
    ensures s.pools[|s.pools| - 1].addr + HEADER <= |m'| && (f + GrowPages(n)) * 4096 <= |m'|
    ensures Pmm.PmmInv(GrowMemory(m', s.pools[|s.pools| - 1], f, hhdm, n), secs, used')
  {
    var last := s.pools[|s.pools| - 1];
    PoolHeader(secs, hhdm, s, |s.pools| - 1);
    hide HeapInv, GrowMemory, Pmm.BitmapFrame;
    var r := GrowMemory(m', last, f, hhdm, n);
    forall x | 0 <= x < |m'| && Pmm.BitmapFrame(secs, x / 4096)
      ensures r[x] == m'[x]
    {
      LastPoolNotBitmap(secs, hhdm, s, x);
      RegionNotBitmap(secs, m', used', f, GrowPages(n), s.used, s.m, x);
      GrowTouches(m', last, f, hhdm, n, x);
    }
    PmmRuns.KeepBitmaps(m', r, secs, used');
  }

  lemma LastPoolNotBitmap(secs: seq<Section>, hhdm: nat, s: HeapState, x: nat)
    requires HeapInv(secs, hhdm, s) && Pmm.BitmapFrame(secs, x / 4096)
    ensures !(s.pools[|s.pools| - 1].addr <= x < s.pools[|s.pools| - 1].Data())
  {
    var last := s.pools[|s.pools| - 1];
    PoolHeader(secs, hhdm, s, |s.pools| - 1);
    if last.addr <= x < last.Data() {
      PoolInside(secs, hhdm, s, |s.pools| - 1, x);
      UsedNotBitmap(secs, s.m, s.used, x / 4096);
      assert false;
    }
  }

  lemma RegionNotBitmap(secs: seq<Section>, m': seq<byte>, used': set<nat>, f: nat, g: nat, used: set<nat>, m: seq<byte>, x: nat)
    requires Pmm.Grants(m, used, secs, m', used', f, g) && Pmm.BitmapFrame(secs, x / 4096)
    ensures !(f * 4096 <= x < (f + g) * 4096)
  {
    if f * 4096 <= x < (f + g) * 4096 {
      assert x / 4096 in Pmm.Frames(f, g);
      UsedNotBitmap(secs, m', used', x / 4096);
      assert false;
    }
  }

  lemma UsedNotBitmap(secs: seq<Section>, m: seq<byte>, used: set<nat>, f: nat)
    requires Pmm.PmmInv(m, secs, used) && f in used
    ensures !Pmm.BitmapFrame(secs, f)
  {
    assert Pmm.Trackable(secs, f);
    PmmRuns.TrackableNotBitmap(secs, |m|, f);
  }

  lemma GrowKeepsRegions(secs: seq<Section>, hhdm: nat, s: HeapState, m': seq<byte>, used': set<nat>, f: nat, g: nat)
    requires HeapInv(secs, hhdm, s) && Pmm.Grants(s.m, s.used, secs, m', used', f, g) && g > 0
    ensures RegionsOk(s.regions + [Region(f, g)], used', |m'|)
  {
    var rs := s.regions + [Region(f, g)];
    forall a | 0 <= a < |rs|
      ensures RegionHeld(rs[a], used', |m'|)
    {
      if a < |s.regions| {
        assert RegionHeld(s.regions[a], s.used, |s.m|);
      } else {
        forall x | f <= x < f + g
          ensures x in used'
        {
          assert x in Pmm.Frames(f, g);
        }
      }
    }
    forall a, b | 0 <= a < b < |rs|
      ensures ApartRegions(rs[a], rs[b])
    {
      if b < |s.regions| {
        assert ApartRegions(s.regions[a], s.regions[b]);
      } else {
        OldRegionApart(s.regions[a], s.used, |s.m|, f, g);
      }
    }
  }

  lemma OldRegionApart(r: Region, used: set<nat>, size: nat, f: nat, g: nat)
    requires RegionHeld(r, used, size) && used !! Pmm.Frames(f, g) && g > 0
    ensures ApartRegions(r, Region(f, g))
  {
    assert f in Pmm.Frames(f, g);
    assert r.frame in Pmm.Frames(f, g) <==> f <= r.frame < f + g;
  }

  lemma GrowStep(secs: seq<Section>, hhdm: nat, s: HeapState, m': seq<byte>, used': set<nat>, f: nat, n: nat)
    requires HeapInv(secs, hhdm, s) && n + HEADER < TWO64
    requires Pmm.Grants(s.m, s.used, secs, m', used', f, GrowPages(n))
    ensures s.pools[|s.pools| - 1].addr + HEADER <= |m'| && (f + GrowPages(n)) * 4096 <= |m'|
    ensures HeapInv(secs, hhdm, HeapState(GrowMemory(m', s.pools[|s.pools| - 1], f, hhdm, n), used',
                      s.pools + [NewPool(f, n, |s.regions|)], s.regions + [Region(f, GrowPages(n))]))
    ensures LiveKept(s, GrowMemory(m', s.pools[|s.pools| - 1], f, hhdm, n))
  {
    hide HeaderAt, Pmm.Grants, Tiled, RegionsOk, Pmm.PmmInv, GrowMemory;
    var k := |s.pools| - 1;
    var last := s.pools[k];
    Pmm.GrantsParts(s.m, s.used, secs, m', used', f, GrowPages(n));
    GrowKeepsPmm(secs, hhdm, s, m', used', f, n);
    GrowKeepsRegions(secs, hhdm, s, m', used', f, GrowPages(n));
    GrowKeepsTiling(s.pools, s.regions, f, n);
    GrantKeepsPool(secs, hhdm, s, m', used', f, GrowPages(n), k);
    PoolHeader(secs, hhdm, s, k);
    GrowHeaders(m', last, f, hhdm, n, |s.regions|);
    forall j | 0 <= j < k
      ensures HeaderAt(GrowMemory(m', last, f, hhdm, n), s.pools[j], Next(s.pools, j, hhdm))
      ensures PayloadSame(s.m, GrowMemory(m', last, f, hhdm, n), s.pools[j])
    {
      GrowKeepsPool(secs, hhdm, s, m', used', f, n, j);
    }
    GrowKeepsLastPayload(secs, hhdm, s, m', used', f, n);
    GrowListHeaders(GrowMemory(m', last, f, hhdm, n), s.pools, NewPool(f, n, |s.regions|), hhdm);
  }

  lemma GrowKeepsLastPayload(secs: seq<Section>, hhdm: nat, s: HeapState, m': seq<byte>, used': set<nat>, f: nat, n: nat)
    requires HeapInv(secs, hhdm, s) && Pmm.Grants(s.m, s.used, secs, m', used', f, GrowPages(n))
    requires s.pools[|s.pools| - 1].addr + HEADER <= |m'| && (f + GrowPages(n)) * 4096 <= |m'|
    ensures PayloadSame(s.m, GrowMemory(m', s.pools[|s.pools| - 1], f, hhdm, n), s.pools[|s.pools| - 1])
  {
    assert |s.pools| > 0;
    hide HeaderAt, HeapInv, Pmm.Grants, GrowMemory;
    var last := s.pools[|s.pools| - 1];
    GrantKeepsPool(secs, hhdm, s, m', used', f, GrowPages(n), |s.pools| - 1);
    PoolHeader(secs, hhdm, s, |s.pools| - 1);
    forall x | last.Data() <= x < last.DataEnd() && x < |m'|
      ensures GrowMemory(m', last, f, hhdm, n)[x] == s.m[x]
    {
      GrowTouches(m', last, f, hhdm, n, x);
      assert m'[x] == s.m[x];
    }
  }

  lemma GrowKeepsPool(secs: seq<Section>, hhdm: nat, s: HeapState, m': seq<byte>, used': set<nat>, f: nat, n: nat, j: nat)
    requires HeapInv(secs, hhdm, s) && Pmm.Grants(s.m, s.used, secs, m', used', f, GrowPages(n)) && j < |s.pools| - 1
    requires s.pools[|s.pools| - 1].addr + HEADER <= |m'| && (f + GrowPages(n)) * 4096 <= |m'|
    ensures HeaderAt(GrowMemory(m', s.pools[|s.pools| - 1], f, hhdm, n), s.pools[j], Next(s.pools, j, hhdm))
    ensures PayloadSame(s.m, GrowMemory(m', s.pools[|s.pools| - 1], f, hhdm, n), s.pools[j])
  {
    hide HeaderAt, HeapInv, Pmm.Grants, GrowMemory;
    var p := s.pools[j];
    var last := s.pools[|s.pools| - 1];
    GrantKeepsPool(secs, hhdm, s, m', used', f, GrowPages(n), j);
    PoolsApart(secs, hhdm, s, j, |s.pools| - 1);
    PoolHeader(secs, hhdm, s, j);
    PoolHeader(secs, hhdm, s, |s.pools| - 1);
    var r := GrowMemory(m', last, f, hhdm, n);
    forall x | p.addr <= x < p.End() && x < |m'|
      ensures r[x] == m'[x]
    {
      GrowTouches(m', last, f, hhdm, n, x);
    }
    HeaderKept(m', r, p, Next(s.pools, j, hhdm));
  }

  lemma GrowListHeaders(r: seq<byte>, pools: seq<Pool>, q: Pool, hhdm: nat)
    requires |pools| > 0 && HeaderAt(r, q, 0) && HeaderAt(r, pools[|pools| - 1], q.addr + hhdm) && PoolOk(q)
    requires forall j :: 0 <= j < |pools| - 1 ==> HeaderAt(r, pools[j], Next(pools, j, hhdm))
    requires forall j :: 0 <= j < |pools| ==> PoolOk(pools[j])
    ensures HeadersOk(r, pools + [q], hhdm)
    ensures forall j :: 0 <= j < |pools| + 1 ==> PoolOk((pools + [q])[j])
  {
    hide HeaderAt;
    var ps := pools + [q];
    forall j | 0 <= j < |ps|
      ensures HeaderAt(r, ps[j], Next(ps, j, hhdm))
    {
      if j < |pools| - 1 {
        assert Next(ps, j, hhdm) == Next(pools, j, hhdm);
      }
    }
  }

  // ----- clients --------------------------------------------------------------------

  /** A client writing inside the payload of its own live block keeps the heap consistent and every other payload. */
  lemma ClientStep(secs: seq<Section>, hhdm: nat, s: HeapState, r: seq<byte>, i: nat)
    requires HeapInv(secs, hhdm, s) && i < |s.pools| && OnlyIn(s.m, r, s.pools[i].Data(), s.pools[i].DataEnd())
    ensures HeapInv(secs, hhdm, HeapState(r, s.used, s.pools, s.regions))
    ensures forall j :: 0 <= j < |s.pools| && j != i ==> PayloadSame(s.m, r, s.pools[j])
  {
    hide HeaderAt, Tiled, RegionsOk, Pmm.PmmInv, PayloadSame;
    assert PoolOk(s.pools[i]);
    BlockStep(secs, hhdm, s, r, i);
  }

  /** So does a write anywhere in the pool past its header. */
  lemma BlockStep(secs: seq<Section>, hhdm: nat, s: HeapState, r: seq<byte>, i: nat)
    requires HeapInv(secs, hhdm, s) && i < |s.pools| && OnlyIn(s.m, r, s.pools[i].Data(), s.pools[i].End())
    ensures HeapInv(secs, hhdm, HeapState(r, s.used, s.pools, s.regions))
    ensures forall j :: 0 <= j < |s.pools| && j != i ==> PayloadSame(s.m, r, s.pools[j])
  {
    hide HeaderAt, Tiled, RegionsOk, Pmm.PmmInv;
    var p := s.pools[i];
    PoolHeader(secs, hhdm, s, i);
    assert OnlyIn(s.m, r, p.addr, p.End());
    PoolWriteKeepsPmm(secs, hhdm, s, r, i);
    HeaderKept(s.m, r, p, Next(s.pools, i, hhdm));
    forall j | 0 <= j < |s.pools| && j != i
      ensures HeaderAt(r, s.pools[j], Next(s.pools, j, hhdm)) && PayloadSame(s.m, r, s.pools[j])
    {
      PoolWriteKeepsOther(secs, hhdm, s, r, i, j);
    }
  }

  // ----- the rest of the kernel -----------------------------------------------------

  /** Address `x` lies in a region of the heap. */
  ghost predicate InHeap(regions: seq<Region>, x: nat) {
    exists a :: 0 <= a < |regions| && regions[a].Start() <= x < regions[a].End()
  }

  ghost predicate HeapUntouched(s: HeapState, r: seq<byte>) {
    |r| == |s.m| && forall x {:trigger r[x]} :: 0 <= x < |s.m| && InHeap(s.regions, x) ==> r[x] == s.m[x]
  }

  lemma PoolUntouched(secs: seq<Section>, hhdm: nat, s: HeapState, r: seq<byte>, i: nat)
    requires HeapInv(secs, hhdm, s) && i < |s.pools| && HeapUntouched(s, r)
    ensures HeaderAt(r, s.pools[i], Next(s.pools, i, hhdm)) && PayloadSame(s.m, r, s.pools[i])
  {
    var p := s.pools[i];
    forall x | p.addr <= x < p.End()
      ensures x < |s.m| && r[x] == s.m[x]
    {
      PoolInside(secs, hhdm, s, i, x);
      assert InRegion(p, s.regions);
      assert s.regions[p.region].Start() <= x < s.regions[p.region].End();
    }
    PoolHeader(secs, hhdm, s, i);
    hide HeapInv, HeapUntouched;
    HeaderKept(s.m, r, p, Next(s.pools, i, hhdm));
  }

  /** Other code that takes frames, and writes outside the heap's regions, keeps the heap consistent and every payload. */
  lemma ElsewhereStep(secs: seq<Section>, hhdm: nat, s: HeapState, r: seq<byte>, used': set<nat>)
    requires HeapInv(secs, hhdm, s) && HeapUntouched(s, r) && s.used <= used' && Pmm.PmmInv(r, secs, used')
    ensures HeapInv(secs, hhdm, HeapState(r, used', s.pools, s.regions))
    ensures forall j :: 0 <= j < |s.pools| ==> PayloadSame(s.m, r, s.pools[j])
  {
    RegionsStay(s.regions, s.used, used', |s.m|);
    hide HeaderAt, Tiled, RegionsOk, Pmm.PmmInv, HeapUntouched, PayloadSame;
    forall j | 0 <= j < |s.pools|
      ensures HeaderAt(r, s.pools[j], Next(s.pools, j, hhdm)) && PayloadSame(s.m, r, s.pools[j])
    {
      PoolUntouched(secs, hhdm, s, r, j);
    }
    UntouchedSize(s, r);
  }

  lemma UntouchedSize(s: HeapState, r: seq<byte>)
    requires HeapUntouched(s, r)
    ensures |r| == |s.m|
  {
  }

  lemma RegionsStay(regions: seq<Region>, used: set<nat>, used': set<nat>, size: nat)
    ensures RegionsOk(regions, used, size) && used <= used' ==> RegionsOk(regions, used', size)
  {
    if RegionsOk(regions, used, size) && used <= used' {
      forall a | 0 <= a < |regions|
        ensures RegionHeld(regions[a], used', size)
      {
        assert RegionHeld(regions[a], used, size);
      }
    }
  }
}
