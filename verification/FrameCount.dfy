/**
How many frames a series of calls on a page tree takes: the tables missing on the paths
of its pages, and the pages it asks for. It goes through if and only if so many are free.
*/
module FrameCount {
  import opened Bytes
  import opened KernelState
  import opened PageTree
  import opened Mapping
  import opened Paging
  import opened PagingTheorems
  import Pmm
  import PmmRuns

  /** A state before there is a tree. */
  ghost function Bare(m: seq<byte>, used: set<nat>): Snap {
    Snap(m, used, map[])
  }

  /** From `s0` to `s` the tables became those of `nodes` too, and frames were taken for them and for `pages` pages. */
  ghost predicate Counted(s0: Snap, s: Snap, nodes: set<Node>, pages: nat) {
    s.t.Keys == s0.t.Keys + nodes && |s.used| == |s0.used| + |s.t| - |s0.t| + pages
  }

  ghost function Missing(s: Snap, nodes: set<Node>): set<Node> {
    nodes - s.t.Keys
  }

  /** The frames free in `s` are not enough for the tables of `nodes` that are missing and for `pages` pages. */
  ghost predicate Short(secs: seq<Section>, s: Snap, nodes: set<Node>, pages: nat) {
    |PmmRuns.Capacity(secs)| < |s.used| + |Missing(s, nodes)| + pages
  }

  /** Every frame taken since was the first free one. */
  ghost predicate NewPacked(secs: seq<Section>, used0: set<nat>, used: set<nat>) {
    used0 <= used && forall f {:trigger Pmm.Packed(secs, used, f)} :: f in used && f !in used0 ==> Pmm.Packed(secs, used, f)
  }

  // ----- sets of nodes --------------------------------------------------------------

  lemma SizeApart(a: set<Node>, b: set<Node>)
    ensures |a + b| == |a| + |b - a|
  {
    assert a + b == a + (b - a);
  }

  lemma MissingThen(k: set<Node>, a: set<Node>, b: set<Node>)
    ensures |(a + b) - k| == |a - k| + |b - (k + a)|
  {
    assert (a + b) - k == (a - k) + (b - (k + a));
  }

  lemma SmallerRest(a: set<Node>, b: set<Node>, k: set<Node>)
    requires a <= b
    ensures |a - k| <= |b - k|
  {
    SubsetSize(a - k, b - k);
  }

  // ----- one call -------------------------------------------------------------------

  /** A call that ended normally. */
  lemma CallCounted(secs: seq<Section>, root: nat, s0: Snap, s: Snap, vpn: nat, w: seq<nat>, pages: set<nat>)
    requires Progress(secs, root, s0, s, vpn, w, pages) && |w| > 0 && Grown(s0, s, vpn, vpn + |w| - 1)
    ensures Counted(s0, s, AllTouched(vpn, |w|), |pages|)
  {
    TablesExact(secs, root, s0, s, vpn, w, pages);
    hide Inv, Grown, OthersKept, LeavesAre, PathsThere, CleanPages, TakenFirst;
  }

  /** A call that found no frame: there were not enough for it from the start. */
  lemma CallShort(secs: seq<Section>, root: nat, s0: Snap, s: Snap, vpn: nat, w: seq<nat>, pages: set<nat>, n: nat, p: nat)
    requires Progress(secs, root, s0, s, vpn, w, pages) && |w| < n && Pmm.NoRun(secs, s.used, 1)
    requires |pages| < p || (|pages| == p && PathMissing(s.t, vpn + |w|))
    ensures Short(secs, s0, AllTouched(vpn, n), p)
  {
    hide Inv, OthersKept, LeavesAre, PathsThere, CleanPages, TakenFirst, Grown, PmmRuns.Capacity, Pmm.NoRun, AllTouched, PathMissing, On;
    NoneLeft(secs, root, s);
    var all := AllTouched(vpn, n);
    OnlyMissing(s0, s, vpn, |w|, n);
    MadeSoFar(s0.t.Keys, s.t.Keys, all);
    if PathMissing(s.t, vpn + |w|) {
      var x := MissingNode(s.t, vpn, |w|, n);
      MadeNotAll(s0.t.Keys, s.t.Keys, all, x);
    }
  }

  lemma NoneLeft(secs: seq<Section>, root: nat, s: Snap)
    requires Inv(secs, root, s) && Pmm.NoRun(secs, s.used, 1)
    ensures s.used == PmmRuns.Capacity(secs)
  {
    PmmRuns.FullWhenNoRun(s.m, secs, s.used);
  }

  lemma OnlyMissing(s0: Snap, s: Snap, vpn: nat, c: nat, n: nat)
    requires Grown(s0, s, vpn, vpn + c) && c < n
    ensures s0.t.Keys <= s.t.Keys <= s0.t.Keys + AllTouched(vpn, n)
  {
    hide Touched, Up;
    NewKeys(s0, s, vpn, c);
    MoreTouched(vpn, c, n);
  }

  lemma MoreTouched(vpn: nat, c: nat, n: nat)
    requires c < n
    ensures AllTouched(vpn, c + 1) <= AllTouched(vpn, n)
  {
    hide AllTouched, Up;
    forall x | x in AllTouched(vpn, c + 1)
      ensures x in AllTouched(vpn, n)
    {
      UpMonotone(x.level, vpn + c, vpn + n - 1);
      assert OnRange(x, vpn, vpn + (c + 1) - 1);
      assert OnRange(x, vpn, vpn + n - 1);
    }
  }

  lemma MissingNode(t: Tables, vpn: nat, c: nat, n: nat) returns (x: Node)
    requires PathMissing(t, vpn + c) && c < n
    ensures x in AllTouched(vpn, n) && x !in t
  {
    hide AllTouched, Up;
    var l := if On(1, vpn + c) !in t then 1 else if On(2, vpn + c) !in t then 2 else 3;
    x := On(l, vpn + c);
    UpMonotone(l, vpn, vpn + c);
    UpMonotone(l, vpn + c, vpn + n - 1);
    assert OnRange(x, vpn, vpn + n - 1);
  }

  lemma MadeSoFar(k0: set<Node>, k: set<Node>, all: set<Node>)
    requires k0 <= k <= k0 + all
    ensures |k| - |k0| <= |all - k0|
  {
    SizeApart(k0, k);
    assert k0 + k == k;
    SubsetSize(k - k0, all - k0);
  }

  lemma MadeNotAll(k0: set<Node>, k: set<Node>, all: set<Node>, x: Node)
    requires k0 <= k <= k0 + all && x in all && x !in k
    ensures |k| - |k0| < |all - k0|
  {
    MadeSoFar(k0, k + {x}, all);
  }

  /** Both at once: where the virtual address space has room, `map_pages` of `n` pages has gone through if and only if enough frames were free. */
  lemma MapPagesNeeds(k: Kernel, sp: AddressSpace, r: Outcome, s0: Snap, vpn: nat, w: seq<nat>, n: nat)
    requires Valid(k, sp) && n > 0 && vpn + n <= VPAGES && Ends(k, sp, r, s0, vpn, n, |w|)
    requires Progress(k.sections, sp.root, s0, Now(k, sp), vpn, w, {})
    requires r == NoFrames ==> PathMissing(sp.tables, vpn + |w|)
    ensures r == Done <==> !Short(k.sections, s0, AllTouched(vpn, n), 0)
    ensures r == Done ==> Counted(s0, Now(k, sp), AllTouched(vpn, n), 0)
    ensures r == Done || r == NoFrames
  {
    hide Progress, Short, Counted, Inv, AllTouched, Pmm.NoRun, PathMissing, Grown;
    if r == Done {
      CallCounted(k.sections, sp.root, s0, Now(k, sp), vpn, w, {});
      EnoughWere(k.sections, s0, Now(k, sp), AllTouched(vpn, n), 0);
    } else {
      CallShort(k.sections, sp.root, s0, Now(k, sp), vpn, w, {}, n, 0);
    }
  }

  /** And `alloc_pages`, which needs the pages as well. */
  lemma AllocPagesNeeds(k: Kernel, sp: AddressSpace, r: Outcome, s0: Snap, vpn: nat, w: seq<nat>, n: nat, flags: nat, pages: set<nat>)
    requires Valid(k, sp) && n > 0 && vpn + n <= VPAGES && Ends(k, sp, r, s0, vpn, n, |w|)
    requires Progress(k.sections, sp.root, s0, Now(k, sp), vpn, w, pages) && Backed(w, flags, pages)
    ensures r == Done <==> !Short(k.sections, s0, AllTouched(vpn, n), n)
    ensures r == Done ==> Counted(s0, Now(k, sp), AllTouched(vpn, n), n)
    ensures r == Done || r == NoFrames
  {
    hide Progress, Short, Counted, Inv, AllTouched, Pmm.NoRun, PathMissing, Grown;
    if r == Done {
      CallCounted(k.sections, sp.root, s0, Now(k, sp), vpn, w, pages);
      EnoughWere(k.sections, s0, Now(k, sp), AllTouched(vpn, n), n);
    } else {
      CallShort(k.sections, sp.root, s0, Now(k, sp), vpn, w, pages, n, n);
    }
  }

  // ----- several calls --------------------------------------------------------------

  lemma CountedNothing(s: Snap)
    ensures Counted(s, s, {}, 0)
  {
  }

  lemma CountedThen(a: Snap, b: Snap, c: Snap, n: set<Node>, p: nat, n': set<Node>, p': nat)
    requires Counted(a, b, n, p) && Counted(b, c, n', p')
    ensures Counted(a, c, n + n', p + p')
  {
    assert (a.t.Keys + n) + n' == a.t.Keys + (n + n');
  }

  /** What was short after some calls was short for all of them before. */
  lemma ShortThen(secs: seq<Section>, a: Snap, b: Snap, n: set<Node>, p: nat, n': set<Node>, p': nat)
    requires Counted(a, b, n, p) && Short(secs, b, n', p')
    ensures Short(secs, a, n + n', p + p')
  {
    hide PmmRuns.Capacity;
    SizeApart(a.t.Keys, n);
    MissingThen(a.t.Keys, n, n');
  }

  lemma ShortMore(secs: seq<Section>, s: Snap, n: set<Node>, p: nat, n': set<Node>, p': nat)
    requires Short(secs, s, n, p) && n <= n' && p <= p'
    ensures Short(secs, s, n', p')
  {
    hide PmmRuns.Capacity;
    SmallerRest(n, n', s.t.Keys);
  }

  /** What was taken was there. */
  lemma EnoughWere(secs: seq<Section>, s0: Snap, s: Snap, nodes: set<Node>, pages: nat)
    requires Counted(s0, s, nodes, pages) && Pmm.PmmInv(s.m, secs, s.used)
    ensures !Short(secs, s0, nodes, pages)
  {
    hide Pmm.NoRun, Pmm.PmmInv, PmmRuns.Capacity;
    PmmRuns.FullWhenNoRun(s.m, secs, s.used);
    SubsetSize(s.used, PmmRuns.Capacity(secs));
    SizeApart(s0.t.Keys, nodes);
  }

  // ----- first-fit order ------------------------------------------------------------

  lemma CallPacked(secs: seq<Section>, root: nat, s0: Snap, s: Snap, vpn: nat, w: seq<nat>, pages: set<nat>)
    requires Progress(secs, root, s0, s, vpn, w, pages)
    ensures NewPacked(secs, s0.used, s.used)
  {
    hide Inv, OthersKept, LeavesAre, PathsThere, CleanPages, Pmm.Packed;
    forall f {:trigger Pmm.Packed(secs, s.used, f)} | f in s.used && f !in s0.used
      ensures Pmm.Packed(secs, s.used, f)
    {
      assert TakenFor(secs, s0, s, pages, f);
    }
  }

  lemma NewPackedThen(secs: seq<Section>, a: set<nat>, b: set<nat>, c: set<nat>)
    requires NewPacked(secs, a, b) && NewPacked(secs, b, c)
    ensures NewPacked(secs, a, c)
  {
    hide Pmm.Packed;
    forall f {:trigger Pmm.Packed(secs, c, f)} | f in c && f !in a
      ensures Pmm.Packed(secs, c, f)
    {
      if f in b {
        Pmm.PackedStays(secs, b, c, f);
      }
    }
  }

  lemma NewPackedOne(secs: seq<Section>, used: set<nat>, f: nat)
    requires Pmm.BlockAtFirstRun(secs, used, 1, f * 4096)
    ensures NewPacked(secs, used, used + {f})
  {
    hide Pmm.Packed, Pmm.BlockAtFirstRun;
    Pmm.FirstIsPacked(secs, used, f * 4096);
    Pmm.PackedStays(secs, used, used + {f}, f);
  }

  // ----- calls in a row -------------------------------------------------------------

  /** What any number of calls leave: earlier tables and all other memory in use, and frames taken in first-fit order. */
  ghost predicate Since(secs: seq<Section>, s0: Snap, s: Snap) {
    Evolved(s0, s) && NewPacked(secs, s0.used, s.used)
  }

  /** The calls from `s0` to `s` went through, and took so much. */
  ghost predicate Reached(secs: seq<Section>, s0: Snap, s: Snap, nodes: set<Node>, pages: nat) {
    Since(secs, s0, s) && Counted(s0, s, nodes, pages)
  }

  lemma SinceThen(secs: seq<Section>, a: Snap, b: Snap, c: Snap)
    requires Since(secs, a, b) && Since(secs, b, c) && TablesUsed(a)
    ensures Since(secs, a, c)
  {
    hide Evolved, TablesUsed, NewPacked;
    EvolvedTrans(a, b, c);
    NewPackedThen(secs, a.used, b.used, c.used);
  }

  lemma SinceStart(secs: seq<Section>, root: nat, s: Snap)
    requires Inv(secs, root, s)
    ensures Since(secs, s, s) && Reached(secs, s, s, {}, 0) && TablesUsed(s)
  {
    EvolvedRefl(secs, root, s);
    hide Evolved, TreeOk, Pmm.PmmInv;
    CountedNothing(s);
  }

  lemma CallSince(secs: seq<Section>, root: nat, s0: Snap, s: Snap, vpn: nat, w: seq<nat>, pages: set<nat>)
    requires Progress(secs, root, s0, s, vpn, w, pages)
    ensures Since(secs, s0, s) && TablesUsed(s0)
  {
    ProgressEvolved(secs, root, s0, s, vpn, w, pages);
    hide Progress;
    CallPacked(secs, root, s0, s, vpn, w, pages);
  }

  /** How a series of calls ends: normally, with all that it needs taken; or there was not enough from the start; or one of them can never end, unless `ok`. */
  ghost predicate Settled(secs: seq<Section>, ok: bool, r: Outcome, s0: Snap, s: Snap, nodes: set<Node>, pages: nat) {
    && Since(secs, s0, s)
    && (r == Done ==> ok && Counted(s0, s, nodes, pages))
    && (r == NoFrames ==> Pmm.NoRun(secs, s.used, 1) && (ok ==> Short(secs, s0, nodes, pages)))
    && (r == NoVirtual ==> !ok)
  }

  /** Settled calls went through if and only if there were enough frames. */
  lemma SettledIff(secs: seq<Section>, ok: bool, r: Outcome, s0: Snap, s: Snap, nodes: set<Node>, pages: nat)
    requires Settled(secs, ok, r, s0, s, nodes, pages) && Pmm.PmmInv(s.m, secs, s.used)
    ensures r == Done <==> ok && !Short(secs, s0, nodes, pages)
  {
    hide Short, Counted, Since, Pmm.NoRun, Pmm.PmmInv;
    if r == Done {
      EnoughWere(secs, s0, s, nodes, pages);
    }
  }

  lemma SettledThen(secs: seq<Section>, ok: bool, r: Outcome, a: Snap, b: Snap, c: Snap, n: set<Node>, p: nat, n': set<Node>, p': nat)
    requires Reached(secs, a, b, n, p) && Settled(secs, ok, r, b, c, n', p') && TablesUsed(a)
    ensures Settled(secs, ok, r, a, c, n + n', p + p')
  {
    hide Since, Counted, Short, Pmm.NoRun, TablesUsed;
    SinceThen(secs, a, b, c);
    if r == Done {
      CountedThen(a, b, c, n, p, n', p');
    } else if r == NoFrames && ok {
      ShortThen(secs, a, b, n, p, n', p');
    }
  }

  /** Where a series stops early, what would have followed does not matter. */
  lemma SettledMore(secs: seq<Section>, ok: bool, ok': bool, r: Outcome, a: Snap, s: Snap, n: set<Node>, p: nat, n': set<Node>, p': nat)
    requires Settled(secs, ok, r, a, s, n, p) && r != Done && (ok' ==> ok) && n <= n' && p <= p'
    ensures Settled(secs, ok', r, a, s, n', p')
  {
    hide Since, Counted, Pmm.NoRun, Short;
    if r == NoFrames && ok {
      ShortMore(secs, a, n, p, n', p');
    }
  }

  lemma SettledDone(secs: seq<Section>, ok: bool, a: Snap, s: Snap, n: set<Node>, p: nat)
    requires Settled(secs, ok, Done, a, s, n, p)
    ensures Reached(secs, a, s, n, p) && ok
  {
  }

  lemma SettledSince(secs: seq<Section>, ok: bool, r: Outcome, a: Snap, s: Snap, n: set<Node>, p: nat)
    requires Settled(secs, ok, r, a, s, n, p)
    ensures Since(secs, a, s) && (r == NoFrames ==> Pmm.NoRun(secs, s.used, 1)) && (r == NoVirtual ==> !ok)
  {
  }

  lemma SettledUsed(secs: seq<Section>, ok: bool, r: Outcome, a: Snap, s: Snap, n: set<Node>, p: nat)
    requires Settled(secs, ok, r, a, s, n, p)
    ensures a.used <= s.used
  {
  }

  lemma MapSettles(k: Kernel, sp: AddressSpace, r: Outcome, s0: Snap, vpn: nat, w: seq<nat>, n: nat)
    requires Valid(k, sp) && n > 0 && vpn + n <= VPAGES && Ends(k, sp, r, s0, vpn, n, |w|)
    requires Progress(k.sections, sp.root, s0, Now(k, sp), vpn, w, {})
    requires r == NoFrames ==> PathMissing(sp.tables, vpn + |w|)
    ensures Settled(k.sections, true, r, s0, Now(k, sp), AllTouched(vpn, n), 0)
  {
    hide Progress, Short, Counted, Since, Inv, AllTouched, Pmm.NoRun, PathMissing, Grown;
    MapPagesNeeds(k, sp, r, s0, vpn, w, n);
    CallSince(k.sections, sp.root, s0, Now(k, sp), vpn, w, {});
  }

  lemma AllocSettles(k: Kernel, sp: AddressSpace, r: Outcome, s0: Snap, vpn: nat, w: seq<nat>, n: nat, flags: nat, pages: set<nat>)
    requires Valid(k, sp) && n > 0 && vpn + n <= VPAGES && Ends(k, sp, r, s0, vpn, n, |w|)
    requires Progress(k.sections, sp.root, s0, Now(k, sp), vpn, w, pages) && Backed(w, flags, pages)
    ensures Settled(k.sections, true, r, s0, Now(k, sp), AllTouched(vpn, n), n)
  {
    hide Progress, Short, Counted, Since, Inv, AllTouched, Pmm.NoRun, PathMissing, Grown, Backed;
    AllocPagesNeeds(k, sp, r, s0, vpn, w, n, flags, pages);
    CallSince(k.sections, sp.root, s0, Now(k, sp), vpn, w, pages);
  }
}
