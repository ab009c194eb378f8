/**
What a reader of the page tree observes after `map_pages` and `alloc_pages`: the
translation of every 48-bit virtual address, the rights of every page, and the exact
set of tables and number of frames a call takes.
*/
module PagingTheorems {
  import opened Bytes
  import opened KernelState
  import opened PageTree
  import opened Mapping
  import opened Paging
  import Pmm
  import PmmRuns

  lemma ProgressLeaf(secs: seq<Section>, root: nat, s0: Snap, s: Snap, vpn: nat, w: seq<nat>, pages: set<nat>, v: nat)
    requires Progress(secs, root, s0, s, vpn, w, pages) && v < VPAGES
    ensures Walk(s.m, root, 4, v) == if vpn <= v < vpn + |w| then w[v - vpn] else Walk(s0.m, root, 4, v)
  {
    WalkFindsLeaf(s.m, root, s.t, v);
    WalkFindsLeaf(s0.m, root, s0.t, v);
    assert Leaf(s.m, s.t, v) == if vpn <= v < vpn + |w| then w[v - vpn] else Leaf(s0.m, s0.t, v);
  }

  /** After `map_pages(v, p, n, f)` the mapped pages translate to the consecutive physical pages, and every other address translates as before. */
  lemma MapPagesTranslates(secs: seq<Section>, root: nat, s0: Snap, s: Snap, vpn: nat, phys: nat, flags: nat, n: nat, virt: nat)
    requires Progress(secs, root, s0, s, vpn, Linear(phys, flags, n), {})
    requires phys % 4096 == 0 && 0 < flags < 4096
    ensures Translate(s.m, root, virt) ==
      if vpn <= Vpn(virt) < vpn + n then To(phys + 4096 * (Vpn(virt) - vpn) + virt % 4096) else Translate(s0.m, root, virt)
  {
    ProgressLeaf(secs, root, s0, s, vpn, Linear(phys, flags, n), {}, Vpn(virt));
    hide Progress, Walk, Vpn;
    if vpn <= Vpn(virt) < vpn + n {
      var j := Vpn(virt) - vpn;
      DivOf(phys / 4096 + j, flags);
      assert Linear(phys, flags, n)[j] == 4096 * (phys / 4096 + j) + flags;
    }
  }

  lemma DivOf(c: nat, r: nat)
    requires r < 4096
    ensures (4096 * c + r) / 4096 == c
  {
  }

  /** The rights of a mapped page are exactly the flags it was mapped with; those of every other page are unchanged. */
  lemma MapPagesRights(secs: seq<Section>, root: nat, s0: Snap, s: Snap, vpn: nat, phys: nat, flags: nat, n: nat, v: nat, r: Right)
    requires Progress(secs, root, s0, s, vpn, Linear(phys, flags, n), {})
    requires phys % 4096 == 0 && 0 < flags < 4096 && v < VPAGES
    ensures WalkGrants(s.m, root, 4, v, r) <==>
      if vpn <= v < vpn + n then PageTree.Grants(flags, r) else WalkGrants(s0.m, root, 4, v, r)
  {
    RightsAreLeafFlags(s.m, root, s.t, v, r);
    RightsAreLeafFlags(s0.m, root, s0.t, v, r);
    assert Leaf(s.m, s.t, v) == if vpn <= v < vpn + n then Linear(phys, flags, n)[v - vpn] else Leaf(s0.m, s0.t, v);
    hide Progress, WalkGrants;
    if vpn <= v < vpn + n {
      AlignedKeepsFlags(phys / 4096 + (v - vpn), flags, r);
    }
  }

  lemma AlignedKeepsFlags(f: nat, flags: nat, r: Right)
    ensures PageTree.Grants(f * 4096 + flags, r) <==> PageTree.Grants(flags, r)
  {
    assert (f * 4096 + flags) / 2 == f * 2048 + flags / 2;
    assert (f * 4096 + flags) / 4 == f * 1024 + flags / 4;
  }

  /** The value 0xDEAD from `virt_to_phys` is ambiguous for exactly one mapped physical address: byte 0xEAD of frame 0xD. */
  lemma DeadIsAmbiguous(m: seq<byte>, root: nat, virt: nat)
    ensures (match Translate(m, root, virt) case Unmapped => 0xDEAD case To(p) => p) == 0xDEAD <==>
      Translate(m, root, virt) == Unmapped || (Walk(m, root, 4, Vpn(virt)) / 4096 == 0xD && virt % 4096 == 0xEAD)
  {
    hide Walk, Vpn;
    var e := Walk(m, root, 4, Vpn(virt));
    assert e / 4096 * 4096 + virt % 4096 == 0xDEAD <==> e / 4096 == 0xD && virt % 4096 == 0xEAD;
  }

  /** After `alloc_pages` every page of the range translates to its own clear frame, fresh with respect to everything in use before, and with the given flags. */
  lemma AllocPagesTranslates(secs: seq<Section>, root: nat, s0: Snap, s: Snap, vpn: nat, w: seq<nat>, flags: nat, pages: set<nat>, v: nat, u: nat)
    requires Progress(secs, root, s0, s, vpn, w, pages) && Backed(w, flags, pages) && vpn + |w| <= VPAGES
    requires vpn <= v < vpn + |w| && vpn <= u < vpn + |w|
    ensures CleanPage(s0, s, Walk(s.m, root, 4, v) / 4096) && Walk(s.m, root, 4, v) % 4096 == flags
    ensures v != u ==> Walk(s.m, root, 4, v) / 4096 != Walk(s.m, root, 4, u) / 4096
  {
    ProgressLeaf(secs, root, s0, s, vpn, w, pages, v);
    ProgressLeaf(secs, root, s0, s, vpn, w, pages, u);
    assert w[v - vpn] / 4096 in pages;
  }

  // ----- the tables a call creates --------------------------------------------------

  /** The `c` nodes of level `l` from prefix `lo` on. */
  ghost function LevelNodes(l: nat, lo: nat, c: nat): (r: set<Node>)
    ensures |r| == c
    ensures forall n :: n in r <==> n.level == l && lo <= n.prefix < lo + c
  {
    if c == 0 then {} else LevelNodes(l, lo, c - 1) + {Node(l, lo + c - 1)}
  }

  ghost function Touched(l: nat, vpn: nat, n: nat): (r: set<Node>)
    requires n > 0
  {
    UpMonotone(l, vpn, vpn + n - 1);
    LevelNodes(l, Up(l, vpn), Up(l, vpn + n - 1) - Up(l, vpn) + 1)
  }

  lemma {:induction false} PageUnder(l: nat, p: nat, lo: nat, hi: nat) returns (v: nat)
    requires lo <= hi && Up(l, lo) <= p <= Up(l, hi)
    ensures lo <= v <= hi && Up(l, v) == p
  {
    if l == 0 {
      v := p;
    } else {
      UpMonotone(l - 1, lo, hi);
      var q := if Up(l - 1, lo) <= p * 512 then p * 512 else Up(l - 1, lo);
      v := PageUnder(l - 1, q, lo, hi);
    }
  }

  /** All nodes below the root on the paths of the `n` pages from `vpn` on. */
  ghost function AllTouched(vpn: nat, n: nat): (r: set<Node>)
    requires n > 0
    ensures forall x :: x in r <==> OnRange(x, vpn, vpn + n - 1)
  {
    Touched(1, vpn, n) + Touched(2, vpn, n) + Touched(3, vpn, n)
  }

  lemma {:induction false} AllTouchedSize(vpn: nat, n: nat)
    requires n > 0
    ensures |AllTouched(vpn, n)| <= Up(1, n - 1) + 2 + Up(2, n - 1) + 2 + Up(3, n - 1) + 2
  {
    UpSum(1, vpn, n - 1);
    UpSum(2, vpn, n - 1);
    UpSum(3, vpn, n - 1);
    assert |Touched(1, vpn, n)| <= Up(1, n - 1) + 2;
    assert |Touched(2, vpn, n)| <= Up(2, n - 1) + 2;
    assert |Touched(3, vpn, n)| <= Up(3, n - 1) + 2;
    hide Touched;
  }

  /** A finished call creates exactly the tables on its range that were missing. */
  lemma TablesExact(secs: seq<Section>, root: nat, s0: Snap, s: Snap, vpn: nat, w: seq<nat>, pages: set<nat>)
    requires Progress(secs, root, s0, s, vpn, w, pages) && |w| > 0 && Grown(s0, s, vpn, vpn + |w| - 1)
    ensures s.t.Keys == s0.t.Keys + AllTouched(vpn, |w|)
  {
    forall n | OnRange(n, vpn, vpn + |w| - 1)
      ensures n in s.t
    {
      var v := PageUnder(n.level, n.prefix, vpn, vpn + |w| - 1);
      assert On(n.level, v) == n;
    }
    forall n
      ensures n in s.t <==> n in s0.t || OnRange(n, vpn, vpn + |w| - 1)
    {
    }
    hide *;
  }

  lemma {:induction false} UpSum(l: nat, a: nat, b: nat)
    ensures Up(l, a + b) <= Up(l, a) + Up(l, b) + 1
  {
    if l > 0 {
      UpSum(l - 1, a, b);
    }
  }

  /** A finished call takes one frame for each new table, at most `(n-1)/512^l + 2` of level `l`, plus one for each page in `pages`. */
  lemma FramesTaken(secs: seq<Section>, root: nat, s0: Snap, s: Snap, vpn: nat, w: seq<nat>, pages: set<nat>)
    requires Progress(secs, root, s0, s, vpn, w, pages) && |w| > 0 && Grown(s0, s, vpn, vpn + |w| - 1)
    ensures |s.used| - |s0.used| == |s.t.Keys - s0.t.Keys| + |pages|
    ensures |s.t.Keys - s0.t.Keys| <= Up(1, |w| - 1) + 2 + Up(2, |w| - 1) + 2 + Up(3, |w| - 1) + 2
  {
    TablesExact(secs, root, s0, s, vpn, w, pages);
    AllTouchedSize(vpn, |w|);
    DifferenceSize(s0.t.Keys, s.t.Keys, AllTouched(vpn, |w|));
  }

  /** The most tables a call for `n` pages can make. */
  function TableBound(n: nat): nat
    requires n > 0
  {
    Up(1, n - 1) + 2 + Up(2, n - 1) + 2 + Up(3, n - 1) + 2
  }

  /**
  With one free frame more than the tables and pages a call can take, frames never run
  out: wherever a call for `n` pages has come to, there is one left.
  */
  lemma EnoughFrames(secs: seq<Section>, root: nat, s0: Snap, s: Snap, vpn: nat, w: seq<nat>, pages: set<nat>, n: nat)
    requires Progress(secs, root, s0, s, vpn, w, pages) && |w| < n
    requires |s0.used| + TableBound(n) + |pages| < |PmmRuns.Capacity(secs)|
    ensures !Pmm.NoRun(secs, s.used, 1)
  {
    hide Pmm.NoRun, PmmRuns.Capacity, Up, TreeOk, TablesUsed, Pmm.PmmInv, Grown, OthersKept, LeavesAre, PathsThere, CleanPages;
    PmmRuns.FullWhenNoRun(s.m, secs, s.used);
    NewTables(secs, root, s0, s, vpn, w, pages);
    UpMonotone(1, |w|, n - 1);
    UpMonotone(2, |w|, n - 1);
    UpMonotone(3, |w|, n - 1);
  }

  /** The tables made so far lie on the range so far and the next page's path. */
  lemma NewTables(secs: seq<Section>, root: nat, s0: Snap, s: Snap, vpn: nat, w: seq<nat>, pages: set<nat>)
    requires Progress(secs, root, s0, s, vpn, w, pages)
    ensures |s.t| - |s0.t| <= TableBound(|w| + 1)
  {
    hide Inv, Grown, OthersKept, LeavesAre, PathsThere, CleanPages, AllTouched, Up;
    AllTouchedSize(vpn, |w| + 1);
    NewKeys(s0, s, vpn, |w|);
    SubsetSize(s.t.Keys - s0.t.Keys, AllTouched(vpn, |w| + 1));
    assert s.t.Keys == s0.t.Keys + (s.t.Keys - s0.t.Keys);
  }

  lemma NewKeys(s0: Snap, s: Snap, vpn: nat, c: nat)
    requires Grown(s0, s, vpn, vpn + c)
    ensures s0.t.Keys <= s.t.Keys && s.t.Keys - s0.t.Keys <= AllTouched(vpn, c + 1)
  {
  }

  // ----- every call can end ---------------------------------------------------------

  function MissingLevels(t: Tables, v: nat): nat {
    if On(3, v) !in t then 3 else if On(2, v) !in t then 2 else if On(1, v) !in t then 1 else 0
  }

  /** While a frame is free, a call that has pages left can make the next missing table or write the next page. */
  lemma CallAdvances(secs: seq<Section>, root: nat, s0: Snap, s: Snap, vpn: nat, w: seq<nat>, pages: set<nat>, flags: nat) returns (t: Snap, w': seq<nat>, pages': set<nat>)
    requires Progress(secs, root, s0, s, vpn, w, pages) && Backed(w, flags, pages)
    requires vpn + |w| < VPAGES && 0 < flags < 4096 && !Pmm.NoRun(secs, s.used, 1)
    ensures Progress(secs, root, s0, t, vpn, w', pages') && Backed(w', flags, pages')
    ensures (|w'| == |w| + 1 && Grown(s0, t, vpn, vpn + |w|)) || (w' == w && MissingLevels(t.t, vpn + |w|) < MissingLevels(s.t, vpn + |w|))
  {
    hide Progress, Backed, Pmm.NoRun, MissingLevels, Grown;
    var s1, f := FrameTaken(secs, root, s0, s, vpn, w, pages);
    if MissingLevels(s.t, vpn + |w|) == 0 {
      FrameEntry(s1.m, f, flags);
      t := NextPage(secs, root, s0, s1, vpn, w, pages + {f}, f * 4096 + flags);
      BackedNext(w, flags, pages, f);
      return t, w + [f * 4096 + flags], pages + {f};
    }
    t := NextTable(secs, root, s0, s1, vpn, w, pages, f, flags);
    return t, w, pages;
  }

  lemma FrameTaken(secs: seq<Section>, root: nat, s0: Snap, s: Snap, vpn: nat, w: seq<nat>, pages: set<nat>) returns (s1: Snap, f: nat)
    requires Progress(secs, root, s0, s, vpn, w, pages) && !Pmm.NoRun(secs, s.used, 1)
    ensures Progress(secs, root, s0, s1, vpn, w, pages + {f}) && f !in pages && s1.t == s.t
    ensures f * 4096 + 4096 <= 0x10_0000_0000_0000
  {
    hide Progress, Pmm.NoRun, Pmm.Grants, Pmm.PmmInv, ZeroFrame, Pmm.BlockAtFirstRun, Pmm.Packed;
    ProgressParts(secs, root, s0, s, vpn, w, pages);
    var m', used';
    m', used', f := Pmm.CanGrant(s.m, secs, s.used);
    s1 := Snap(m', used', s.t);
    Pmm.FirstIsPacked(secs, s.used, f * 4096);
    TakenFrame(secs, root, s0, s, s1, vpn, w, pages, f);
  }

  lemma NextPage(secs: seq<Section>, root: nat, s0: Snap, s: Snap, vpn: nat, w: seq<nat>, pages: set<nat>, e: nat) returns (t: Snap)
    requires Progress(secs, root, s0, s, vpn, w, pages) && vpn + |w| < VPAGES && e < TWO64 && MissingLevels(s.t, vpn + |w|) == 0
    ensures Progress(secs, root, s0, t, vpn, w + [e], pages) && Grown(s0, t, vpn, vpn + |w|)
  {
    hide Progress, Up, Grown;
    ProgressParts(secs, root, s0, s, vpn, w, pages);
    TablesHaveFrames(secs, root, s);
    WriteStep(secs, root, s0, s, vpn, w, pages, e);
    t := Written(s, vpn + |w|, e);
  }

  lemma NextTable(secs: seq<Section>, root: nat, s0: Snap, s: Snap, vpn: nat, w: seq<nat>, pages: set<nat>, f: nat, flags: nat) returns (t: Snap)
    requires Progress(secs, root, s0, s, vpn, w, pages + {f}) && f !in pages && vpn + |w| < VPAGES && MissingLevels(s.t, vpn + |w|) > 0
    requires flags < 4096 && f * 4096 + 4096 <= 0x10_0000_0000_0000
    ensures Progress(secs, root, s0, t, vpn, w, pages) && MissingLevels(t.t, vpn + |w|) < MissingLevels(s.t, vpn + |w|)
  {
    var v := vpn + |w|;
    var l := MissingLevels(s.t, v) + 1;
    PathTop(v);
    ProgressParts(secs, root, s0, s, vpn, w, pages + {f});
    hide Progress, TableEntry, Up;
    LinkStep(secs, root, s0, s, vpn, w, pages, l, f, TableEntry(f, flags));
    t := Linked(s, On(l, v), Index(l, v), f, TableEntry(f, flags));
    assert t.t == s.t[On(l - 1, v) := f];
  }

  /** From wherever a call of `alloc_pages` has come to, there is a way on to its end: all pages mapped with no table off their paths, or no frame left. */
  lemma {:induction false} CallEnds(secs: seq<Section>, root: nat, s0: Snap, s: Snap, vpn: nat, w: seq<nat>, pages: set<nat>, flags: nat, n: nat) returns (t: Snap, w': seq<nat>, pages': set<nat>)
    requires Progress(secs, root, s0, s, vpn, w, pages) && Backed(w, flags, pages)
    requires |w| <= n && vpn + n <= VPAGES && 0 < flags < 4096
    ensures Progress(secs, root, s0, t, vpn, w', pages') && Backed(w', flags, pages') && |w'| <= n
    ensures |w'| < n ==> Pmm.NoRun(secs, t.used, 1)
    ensures if |w| == n then t == s else |w'| == n ==> Grown(s0, t, vpn, vpn + n - 1)
    decreases n - |w|, MissingLevels(s.t, vpn + |w|)
  {
    hide Progress, Backed, Pmm.NoRun, MissingLevels, Grown;
    if |w| == n || Pmm.NoRun(secs, s.used, 1) {
      return s, w, pages;
    }
    t, w', pages' := CallAdvances(secs, root, s0, s, vpn, w, pages, flags);
    t, w', pages' := CallEnds(secs, root, s0, t, vpn, w', pages', flags, n);
  }

  lemma CallStarts(secs: seq<Section>, root: nat, s: Snap, vpn: nat, flags: nat)
    requires Inv(secs, root, s)
    ensures Progress(secs, root, s, s, vpn, [], {}) && Backed([], flags, {})
  {
    StartProgress(secs, root, s, vpn);
  }

  lemma FrameEntry(m: seq<byte>, f: nat, flags: nat)
    requires f * 4096 + 4096 <= 0x10_0000_0000_0000 && flags < 4096
    ensures f * 4096 + flags < TWO64
  {
  }

  lemma DifferenceSize(a: set<Node>, b: set<Node>, c: set<Node>)
    requires b == a + c
    ensures |b| - |a| == |b - a| <= |c|
  {
    assert b == a + (b - a);
    SubsetSize(b - a, c);
  }

  lemma {:induction false} SubsetSize<T>(a: set<T>, b: set<T>)
    requires a <= b
    ensures |a| <= |b|
    decreases a
  {
    if a != {} {
      var x :| x in a;
      SubsetSize(a - {x}, b - {x});
    }
  }
}
