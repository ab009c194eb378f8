/**
What holds over whole runs of the heap: any mix of `malloc`, `free` of live pointers and
writes of clients inside their own blocks.
*/
module HeapRuns {
  import opened Bytes
  import opened KernelState
  import opened HeapModel
  import opened HeapSteps
  import opened KHeap
  import opened PageTree
  import opened KernelMap
  import Mapping
  import Pmm

  /** Block `addr` (physical address of its data) is live, and its client asked for `n` bytes. */
  ghost predicate Live(s: HeapState, addr: nat, n: nat) {
    exists i :: 0 <= i < |s.pools| && IsBlock(s.pools[i], addr, n)
  }

  predicate IsBlock(p: Pool, addr: nat, n: nat) {
    !p.free && p.Data() == addr && p.required == n + HEADER
  }

  datatype Event =
    | Allocate(n: nat, addr: nat)
    | Release(addr: nat)
    | Store(addr: nat, n: nat, offset: nat, data: seq<byte>)
    | Elsewhere

  /** One step of a run, as the contracts of `Malloc` and `Free` describe it, a client's write inside its block, or anything other code does outside the heap: take frames, and write there. */
  ghost predicate Step(secs: seq<Section>, hhdm: nat, s: HeapState, e: Event, t: HeapState) {
    HeapInv(secs, hhdm, s) && |t.m| == |s.m| &&
    match e
    case Allocate(n, addr) => HeapInv(secs, hhdm, t) && LiveKept(s, t.m) && Placed(s, t, n, addr)
    case Release(addr) => HeapInv(secs, hhdm, t) && LiveKept(s, t.m) && exists i: nat :: Releases(s, t, addr, i)
    case Store(addr, n, offset, data) =>
      && Live(s, addr, n) && offset + |data| <= n && addr + n <= |s.m|
      && t == s.(m := Splice(s.m, addr + offset, data))
    case Elsewhere =>
      && HeapUntouched(s, t.m) && s.used <= t.used && Pmm.PmmInv(t.m, secs, t.used)
      && t.pools == s.pools && t.regions == s.regions
  }

  ghost predicate Releases(s: HeapState, t: HeapState, addr: nat, i: nat) {
    && i < |s.pools| && !s.pools[i].free && s.pools[i].Data() == addr
    && t.used == s.used && t.pools == Freed(s.pools, i) && t.regions == s.regions
  }

  ghost predicate Run(secs: seq<Section>, hhdm: nat, ss: seq<HeapState>, es: seq<Event>) {
    && |ss| == |es| + 1
    && HeapInv(secs, hhdm, ss[0])
    && forall i {:trigger es[i]} :: 0 <= i < |es| ==> Step(secs, hhdm, ss[i], es[i], ss[i + 1])
  }

  /** The bytes of a block. */
  ghost function Payload(s: HeapState, addr: nat, n: nat): seq<byte>
    requires addr + n <= |s.m|
  {
    s.m[addr..addr + n]
  }

  lemma LiveInside(secs: seq<Section>, hhdm: nat, s: HeapState, addr: nat, n: nat)
    requires HeapInv(secs, hhdm, s) && Live(s, addr, n)
    ensures addr + n <= |s.m|
  {
    var i :| 0 <= i < |s.pools| && IsBlock(s.pools[i], addr, n);
    PoolFields(secs, hhdm, s, i);
  }

  /** Live blocks are pairwise disjoint. */
  lemma LiveDisjoint(secs: seq<Section>, hhdm: nat, s: HeapState, a: nat, n: nat, b: nat, c: nat)
    requires HeapInv(secs, hhdm, s) && Live(s, a, n) && Live(s, b, c) && a != b
    ensures a + n <= b || b + c <= a
  {
    hide HeapInv;
    var i :| 0 <= i < |s.pools| && IsBlock(s.pools[i], a, n);
    var j :| 0 <= j < |s.pools| && IsBlock(s.pools[j], b, c);
    PoolFields(secs, hhdm, s, i);
    PoolFields(secs, hhdm, s, j);
    PoolsApart(secs, hhdm, s, i, j);
  }

  /** A block's size is determined by its address. */
  lemma LiveUnique(secs: seq<Section>, hhdm: nat, s: HeapState, a: nat, n: nat, c: nat)
    requires HeapInv(secs, hhdm, s) && Live(s, a, n) && Live(s, a, c)
    ensures n == c
  {
    hide HeapInv;
    var i :| 0 <= i < |s.pools| && IsBlock(s.pools[i], a, n);
    var j :| 0 <= j < |s.pools| && IsBlock(s.pools[j], a, c);
    PoolFields(secs, hhdm, s, i);
    PoolFields(secs, hhdm, s, j);
    if i != j {
      PoolsApart(secs, hhdm, s, i, j);
    }
  }

  /** Where pool `i` of the old list is found in the list after a placement. */
  function Moved(s: HeapState, n: nat, i: nat): nat {
    var f := FirstFit(s.pools, n);
    if f < |s.pools| && !Reusable(s.pools[f], n) && i > f then i + 1 else i
  }

  lemma PlacedKeepsBlock(s: HeapState, t: HeapState, n: nat, addr: nat, i: nat, a: nat, c: nat)
    requires Placed(s, t, n, addr) && i < |s.pools| && IsBlock(s.pools[i], a, c)
    ensures Moved(s, n, i) < |t.pools| && IsBlock(t.pools[Moved(s, n, i)], a, c)
  {
    var f := FirstFit(s.pools, n);
    hide FirstFit;
    if f == |s.pools| {
      var fr: nat :| Grew(s, t, n, fr) && addr == fr * 4096 + HEADER;
      assert t.pools[i] == s.pools[i];
    }
  }

  /** The block `malloc` returns is live with the size asked for; every block that was live still is, and does not overlap it. */
  lemma MallocReturnsBlock(secs: seq<Section>, hhdm: nat, s: HeapState, t: HeapState, n: nat, addr: nat, b: nat, c: nat)
    requires HeapInv(secs, hhdm, s) && HeapInv(secs, hhdm, t) && Placed(s, t, n, addr) && Live(s, b, c)
    ensures Live(t, addr, n) && Live(t, b, c)
    ensures addr + n <= b || b + c <= addr
    ensures b != addr
  {
    hide HeapInv, Placed;
    PlacedIsLive(s, t, n, addr);
    var i :| 0 <= i < |s.pools| && IsBlock(s.pools[i], b, c);
    PlacedKeepsBlock(s, t, n, addr, i, b, c);
    PlacedElsewhere(secs, hhdm, s, t, n, addr, i);
    LiveDisjoint(secs, hhdm, t, addr, n, b, c);
  }

  lemma PlacedIsLive(s: HeapState, t: HeapState, n: nat, addr: nat)
    requires Placed(s, t, n, addr)
    ensures Live(t, addr, n)
  {
    var f := FirstFit(s.pools, n);
    hide FirstFit;
    if f < |s.pools| {
      if Reusable(s.pools[f], n) {
        assert IsBlock(t.pools[f], addr, n);
      } else {
        assert t.pools[f + 1] == Slack(s.pools[f], n);
        assert IsBlock(t.pools[f + 1], addr, n);
      }
    } else {
      var fr: nat :| Grew(s, t, n, fr) && addr == fr * 4096 + HEADER;
      assert IsBlock(t.pools[|s.pools|], addr, n);
    }
  }

  /** The new block does not start where an old live one does. */
  lemma PlacedElsewhere(secs: seq<Section>, hhdm: nat, s: HeapState, t: HeapState, n: nat, addr: nat, i: nat)
    requires HeapInv(secs, hhdm, s) && HeapInv(secs, hhdm, t) && Placed(s, t, n, addr) && i < |s.pools| && !s.pools[i].free
    ensures s.pools[i].Data() != addr
  {
    hide HeapInv, FirstFit;
    var f := FirstFit(s.pools, n);
    PoolFields(secs, hhdm, s, i);
    if f < |s.pools| {
      PoolFields(secs, hhdm, s, f);
      if i != f {
        PoolsApart(secs, hhdm, s, i, f);
      }
    } else {
      assert t.pools[i] == s.pools[i] && t.pools[|s.pools|].Data() == addr;
      PoolsApart(secs, hhdm, t, i, |s.pools|);
      PoolFields(secs, hhdm, t, i);
      PoolFields(secs, hhdm, t, |s.pools|);
    }
  }

  /** One step keeps every live block that it does not release: same address, same size; and its bytes, unless its own client writes them. */
  lemma StepKeepsBlock(secs: seq<Section>, hhdm: nat, s: HeapState, e: Event, t: HeapState, a: nat, n: nat)
    requires Step(secs, hhdm, s, e, t) && Live(s, a, n) && e != Release(a)
    ensures HeapInv(secs, hhdm, t) && Live(t, a, n) && a + n <= |s.m|
    ensures !(e.Store? && e.addr == a) ==> Payload(t, a, n) == Payload(s, a, n)
  {
    hide HeapInv, Placed;
    LiveInside(secs, hhdm, s, a, n);
    var i :| 0 <= i < |s.pools| && IsBlock(s.pools[i], a, n);
    match e
    case Allocate(c, addr) =>
      PlacedKeepsBlock(s, t, c, addr, i, a, n);
      assert PayloadSame(s.m, t.m, s.pools[i]);
    case Release(addr) =>
      var j: nat :| Releases(s, t, addr, j);
      assert IsBlock(t.pools[i], a, n);
      assert PayloadSame(s.m, t.m, s.pools[i]);
    case Store(addr, c, offset, data) =>
      var j :| 0 <= j < |s.pools| && IsBlock(s.pools[j], addr, c);
      ClientStep(secs, hhdm, s, t.m, j);
      assert t.pools == s.pools;
      if addr != a {
        assert PayloadSame(s.m, t.m, s.pools[i]);
      }
    case Elsewhere =>
      ElsewhereStep(secs, hhdm, s, t.m, t.used);
      assert PayloadSame(s.m, t.m, s.pools[i]) && t == HeapState(t.m, t.used, s.pools, s.regions);
  }

  /** A call that leaves all memory in use alone is such a step: `kmalloc`, a new page tree, a new process. */
  lemma CallIsElsewhere(secs: seq<Section>, hhdm: nat, s: HeapState, m: seq<byte>, used: set<nat>)
    requires HeapInv(secs, hhdm, s) && UsedKept(s.m, s.used, m) && |m| == |s.m| && s.used <= used && Pmm.PmmInv(m, secs, used)
    ensures Step(secs, hhdm, s, Elsewhere, HeapState(m, used, s.pools, s.regions))
  {
    hide Pmm.PmmInv, Tiled, HeadersOk;
    forall x | 0 <= x < |s.m| && InHeap(s.regions, x)
      ensures m[x] == s.m[x]
    {
      var a :| 0 <= a < |s.regions| && s.regions[a].Start() <= x < s.regions[a].End();
      assert RegionHeld(s.regions[a], s.used, |s.m|);
      assert x / 4096 in s.used;
      assert Same(s.m, m, x / 4096 * 4096, 4096);
    }
  }

  /** So is a call on a tree none of whose tables lie in the heap. */
  lemma TreeCallIsElsewhere(secs: seq<Section>, hhdm: nat, s: HeapState, t0: Tables, t: Mapping.Snap)
    requires HeapInv(secs, hhdm, s) && Mapping.Evolved(Mapping.Snap(s.m, s.used, t0), t) && Pmm.PmmInv(t.m, secs, t.used)
    requires forall x :: 0 <= x < |s.m| && InHeap(s.regions, x) ==> !Mapping.IsTable(t0, x / 4096)
    ensures Step(secs, hhdm, s, Elsewhere, HeapState(t.m, t.used, s.pools, s.regions))
  {
    hide Pmm.PmmInv, Tiled, HeadersOk, Mapping.IsTable;
    forall x | 0 <= x < |s.m| && InHeap(s.regions, x)
      ensures t.m[x] == s.m[x]
    {
      var a :| 0 <= a < |s.regions| && s.regions[a].Start() <= x < s.regions[a].End();
      assert RegionHeld(s.regions[a], s.used, |s.m|);
      assert x / 4096 in s.used;
      assert Mapping.Untouched(Mapping.Snap(s.m, s.used, t0), t, x / 4096);
    }
  }

  /** A store changes the block it is made to exactly as written. */
  lemma StoreReadsBack(secs: seq<Section>, hhdm: nat, s: HeapState, t: HeapState, a: nat, n: nat, offset: nat, data: seq<byte>)
    requires Step(secs, hhdm, s, Store(a, n, offset, data), t)
    ensures a + n <= |s.m| && |t.m| == |s.m| && offset + |data| <= n
    ensures Payload(t, a, n) == Splice(Payload(s, a, n), offset, data)
  {
    hide HeapInv, Live;
  }

  lemma StepKeepsInv(secs: seq<Section>, hhdm: nat, s: HeapState, e: Event, t: HeapState)
    requires Step(secs, hhdm, s, e, t)
    ensures HeapInv(secs, hhdm, t)
  {
    if e.Store? {
      var j :| 0 <= j < |s.pools| && IsBlock(s.pools[j], e.addr, e.n);
      ClientStep(secs, hhdm, s, t.m, j);
    } else if e.Elsewhere? {
      ElsewhereStep(secs, hhdm, s, t.m, t.used);
      assert t == HeapState(t.m, t.used, s.pools, s.regions);
    }
  }

  lemma {:induction false} RunKeepsInv(secs: seq<Section>, hhdm: nat, ss: seq<HeapState>, es: seq<Event>, i: nat)
    requires Run(secs, hhdm, ss, es) && i <= |es|
    ensures HeapInv(secs, hhdm, ss[i])
  {
    hide HeapInv, Step;
    if i > 0 {
      assert Step(secs, hhdm, ss[i - 1], es[i - 1], ss[i]);
      StepKeepsInv(secs, hhdm, ss[i - 1], es[i - 1], ss[i]);
    }
  }

  /** The bytes a block's own client left in it: its initial bytes with its own stores applied. */
  ghost function Written(es: seq<Event>, a: nat, d: seq<byte>): (r: seq<byte>)
    ensures |r| == |d|
  {
    if es == [] then d
    else
      After(es[|es| - 1], a, Written(es[..|es| - 1], a, d))
  }

  /** The bytes of the block at `a` after one step, when they were `w`. */
  ghost function After(e: Event, a: nat, w: seq<byte>): (r: seq<byte>)
    ensures |r| == |w|
  {
    if e.Store? && e.addr == a && e.offset + |e.data| <= |w| then Splice(w, e.offset, e.data) else w
  }

  /** A run without its last step. */
  lemma RunFront(secs: seq<Section>, hhdm: nat, ss: seq<HeapState>, es: seq<Event>)
    requires Run(secs, hhdm, ss, es) && |es| > 0
    ensures Run(secs, hhdm, ss[..|es|], es[..|es| - 1]) && Step(secs, hhdm, ss[|es| - 1], es[|es| - 1], ss[|es|])
  {
    hide HeapInv, Step;
    var k := |es| - 1;
    assert Step(secs, hhdm, ss[k], es[k], ss[k + 1]);
    forall i {:trigger es[..k][i]} | 0 <= i < k
      ensures Step(secs, hhdm, ss[..k + 1][i], es[..k][i], ss[..k + 1][i + 1])
    {
      assert es[i] == es[..k][i];
    }
  }

  /**
  Non-interference: over every run, a live block that is not released keeps its address
  and size, and holds exactly what its own client wrote to it, whatever is allocated,
  freed or written elsewhere in between; and every header still decodes to the list.
  */
  lemma {:induction false} RunKeepsBlock(secs: seq<Section>, hhdm: nat, ss: seq<HeapState>, es: seq<Event>, a: nat, n: nat)
    requires Run(secs, hhdm, ss, es) && Live(ss[0], a, n)
    requires forall i :: 0 <= i < |es| ==> es[i] != Release(a)
    ensures HeapInv(secs, hhdm, ss[|es|]) && Live(ss[|es|], a, n)
    ensures a + n <= |ss[0].m| && a + n <= |ss[|es|].m|
    ensures Payload(ss[|es|], a, n) == Written(es, a, Payload(ss[0], a, n))
    decreases |es|
  {
    hide HeapInv, Live, Step;
    LiveInside(secs, hhdm, ss[0], a, n);
    var k := |es|;
    if k > 0 {
      RunFront(secs, hhdm, ss, es);
      RunKeepsBlock(secs, hhdm, ss[..k], es[..k - 1], a, n);
      LastStep(secs, hhdm, ss[k - 1], es[k - 1], ss[k], a, n);
    }
  }

  lemma LastStep(secs: seq<Section>, hhdm: nat, s: HeapState, e: Event, t: HeapState, a: nat, n: nat)
    requires Step(secs, hhdm, s, e, t) && Live(s, a, n) && e != Release(a)
    ensures HeapInv(secs, hhdm, t) && Live(t, a, n) && a + n <= |s.m| && a + n <= |t.m|
    ensures Payload(t, a, n) == After(e, a, Payload(s, a, n))
  {
    hide HeapInv, Live, Step, Splice;
    StepKeepsBlock(secs, hhdm, s, e, t, a, n);
    SameMemorySize(secs, hhdm, s, e, t);
    if e.Store? && e.addr == a {
      OwnStore(secs, hhdm, s, e, t, n);
    }
  }

  lemma SameMemorySize(secs: seq<Section>, hhdm: nat, s: HeapState, e: Event, t: HeapState)
    requires Step(secs, hhdm, s, e, t)
    ensures |t.m| == |s.m|
  {
    hide HeapInv, Live, Placed, HeapUntouched, LiveKept, Releases;
  }

  lemma OwnStore(secs: seq<Section>, hhdm: nat, s: HeapState, e: Event, t: HeapState, n: nat)
    requires e.Store? && Step(secs, hhdm, s, e, t) && Live(s, e.addr, n)
    ensures e.addr + n <= |s.m| && |t.m| == |s.m| && e.offset + |e.data| <= n
    ensures Payload(t, e.addr, n) == Splice(Payload(s, e.addr, n), e.offset, e.data)
  {
    hide HeapInv, Live;
    LiveUnique(secs, hhdm, s, e.addr, n, e.n);
    StoreReadsBack(secs, hhdm, s, t, e.addr, n, e.offset, e.data);
  }

  /** In every state of a heap, `malloc` never splits a free pool: it splits only one that is in use. */
  lemma SplitsOnlyUsed(secs: seq<Section>, hhdm: nat, s: HeapState, t: HeapState, n: nat, addr: nat)
    requires HeapInv(secs, hhdm, s) && Placed(s, t, n, addr) && |t.pools| == |s.pools| + 1 && t.regions == s.regions
    ensures FirstFit(s.pools, n) < |s.pools| && !s.pools[FirstFit(s.pools, n)].free
  {
    var i := FirstFit(s.pools, n);
    hide HeapInv, FirstFit;
    if i < |s.pools| {
      PoolFields(secs, hhdm, s, i);
      FreePoolNotSplit(s.pools[i], n);
    }
  }

  // ----- one byte more --------------------------------------------------------------

  /** The byte just past what a client asked for belongs to its own pool. */
  ghost predicate RoomForOneMore(s: HeapState, addr: nat, n: nat) {
    exists i :: 0 <= i < |s.pools| && IsBlock(s.pools[i], addr, n) && addr + n < s.pools[i].End()
  }

  /** It does if and only if the block did not come from a new region whose pages the request filled to the last byte. */
  lemma RoomForTerminator(secs: seq<Section>, hhdm: nat, s: HeapState, t: HeapState, n: nat, addr: nat)
    requires HeapInv(secs, hhdm, s) && HeapInv(secs, hhdm, t) && Placed(s, t, n, addr)
    ensures RoomForOneMore(t, addr, n) <==> FirstFit(s.pools, n) < |s.pools| || (n + HEADER) % 4096 != 0
  {
    hide HeapInv, FirstFit;
    var f := FirstFit(s.pools, n);
    if f < |s.pools| {
      if Reusable(s.pools[f], n) {
        assert IsBlock(t.pools[f], addr, n);
      } else {
        assert t.pools[f + 1] == Slack(s.pools[f], n) && IsBlock(t.pools[f + 1], addr, n);
      }
    } else {
      var fr: nat :| Grew(s, t, n, fr) && addr == fr * 4096 + HEADER;
      assert IsBlock(t.pools[|s.pools|], addr, n);
      forall i | 0 <= i < |t.pools| && IsBlock(t.pools[i], addr, n)
        ensures i == |s.pools|
      {
        PoolFields(secs, hhdm, t, i);
        PoolFields(secs, hhdm, t, |s.pools|);
        if i != |s.pools| {
          PoolsApart(secs, hhdm, t, i, |s.pools|);
        }
      }
      LastByteOfPages(n);
    }
  }

  lemma LastByteOfPages(n: nat)
    ensures n + HEADER < GrowPages(n) * 4096 <==> (n + HEADER) % 4096 != 0
    ensures n + HEADER <= GrowPages(n) * 4096
  {
  }

  /** Then a write there keeps the heap consistent, and every other payload. */
  lemma TerminatorIsHarmless(secs: seq<Section>, hhdm: nat, s: HeapState, r: seq<byte>, i: nat)
    requires HeapInv(secs, hhdm, s) && i < |s.pools| && s.pools[i].DataEnd() < s.pools[i].End()
    requires OnlyIn(s.m, r, s.pools[i].Data(), s.pools[i].DataEnd() + 1)
    ensures HeapInv(secs, hhdm, HeapState(r, s.used, s.pools, s.regions))
    ensures forall j :: 0 <= j < |s.pools| && j != i ==> PayloadSame(s.m, r, s.pools[j])
  {
    PoolFields(secs, hhdm, s, i);
    hide HeapInv;
    BlockStep(secs, hhdm, s, r, i);
  }

  // ----- reuse after free -----------------------------------------------------------

  /** Right after a pool was freed, a request with `n + 26` below its size field is served without growing the heap. */
  lemma NoGrowthAfterFree(pools: seq<Pool>, i: nat, n: nat)
    requires i < |pools| && n + HEADER < pools[i].size
    ensures FirstFit(Freed(pools, i), n) <= i < |pools|
  {
    assert Fits(Freed(pools, i)[i], n);
  }

  /** Over every run the pools occupy exactly the pages the heap obtained. */
  lemma RunConserves(secs: seq<Section>, hhdm: nat, ss: seq<HeapState>, es: seq<Event>, i: nat)
    requires Run(secs, hhdm, ss, es) && i <= |es|
    ensures Occupied(ss[i].pools, |ss[i].pools|) == Obtained(ss[i].regions, |ss[i].regions|)
  {
    RunKeepsInv(secs, hhdm, ss, es, i);
    Conservation(ss[i].pools, ss[i].regions);
  }
}
