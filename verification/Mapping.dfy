/**
The facts about a whole call of `map_pages` or `alloc_pages`, as relations between the
memory before and the memory after some of its steps.
*/
module Mapping {
  import opened Bytes
  import opened KernelState
  import opened PageTree
  import Pmm
  import PmmRuns

  /** Memory, the frames in use, and where the tables of one tree lie. */
  datatype Snap = Snap(m: seq<byte>, used: set<nat>, t: Tables)

  ghost predicate Inv(secs: seq<Section>, root: nat, s: Snap) {
    && Pmm.PmmInv(s.m, secs, s.used)
    && TreeOk(s.m, root, s.t)
    && TablesUsed(s)
    && |s.m| <= 0x10_0000_0000_0000
  }

  ghost predicate TablesUsed(s: Snap) {
    forall n :: n in s.t ==> s.t[n] in s.used
  }

  ghost predicate IsTable(t: Tables, f: nat) {
    exists n :: n in t && t[n] == f
  }

  /** Node `n` lies on the path of one of the pages `[vpn, last]`. */
  predicate OnRange(n: Node, vpn: nat, last: nat) {
    1 <= n.level <= 3 && Up(n.level, vpn) <= n.prefix <= Up(n.level, last)
  }

  /** The tables only grow: new ones lie on the range, in frames that were free. */
  ghost predicate Grown(s0: Snap, s: Snap, vpn: nat, last: nat) {
    && |s.m| == |s0.m| && s0.used <= s.used
    && (forall n :: n in s0.t ==> n in s.t && s.t[n] == s0.t[n])
    && (forall n :: n in s.t && n !in s0.t ==> OnRange(n, vpn, last) && s.t[n] !in s0.used)
  }

  /** Frames in use before that hold no table of this tree keep their contents: other trees, data, anything. */
  ghost predicate OthersKept(s0: Snap, s: Snap) {
    forall f {:trigger Untouched(s0, s, f)} :: f in s0.used && !IsTable(s0.t, f) ==> Untouched(s0, s, f)
  }

  ghost predicate Untouched(s0: Snap, s: Snap, f: nat) {
    Same(s0.m, s.m, f * 4096, 4096)
  }

  /** The leaf entries `w` were written for the pages from `vpn` on, and no other leaf entry changed. */
  ghost predicate LeavesAre(s0: Snap, s: Snap, vpn: nat, w: seq<nat>)
    requires forall n :: n in s0.t ==> HasFrame(s0.m, s0.t[n])
    requires forall n :: n in s.t ==> HasFrame(s.m, s.t[n])
  {
    forall v {:trigger Leaf(s.m, s.t, v)} :: 0 <= v < VPAGES ==>
      Leaf(s.m, s.t, v) == if vpn <= v < vpn + |w| then w[v - vpn] else Leaf(s0.m, s0.t, v)
  }

  /** Every table on the paths of the first `k` pages from `vpn` on exists. */
  ghost predicate PathsThere(t: Tables, vpn: nat, k: nat) {
    forall v, l {:trigger On(l, v)} :: vpn <= v < vpn + k && 1 <= l <= 3 ==> On(l, v) in t
  }

  /** Frame `f` was taken since `s0`, holds no table of this tree, and is still clear. */
  ghost predicate CleanPage(s0: Snap, s: Snap, f: nat) {
    f in s.used && f !in s0.used && !IsTable(s.t, f) && HasFrame(s.m, f) && ZeroFrame(s.m, f)
  }

  ghost predicate CleanPages(s0: Snap, s: Snap, pages: set<nat>) {
    forall f {:trigger CleanPage(s0, s, f)} :: f in pages ==> CleanPage(s0, s, f)
  }

  /** Frame `f` was in use before; or it was the first free frame when it was taken, for a table or a page. */
  ghost predicate TakenFor(secs: seq<Section>, s0: Snap, s: Snap, pages: set<nat>, f: nat) {
    f in s0.used || (Pmm.Packed(secs, s.used, f) && (f in pages || IsTable(s.t, f)))
  }

  ghost predicate TakenFirst(secs: seq<Section>, s0: Snap, s: Snap, pages: set<nat>) {
    forall f {:trigger TakenFor(secs, s0, s, pages, f)} :: f in s.used ==> TakenFor(secs, s0, s, pages, f)
  }

  /** How far a call has come: `w` are the leaf entries written so far, `pages` the frames it took that are not tables. */
  ghost predicate Progress(secs: seq<Section>, root: nat, s0: Snap, s: Snap, vpn: nat, w: seq<nat>, pages: set<nat>) {
    && Inv(secs, root, s0) && Inv(secs, root, s)
    && Grown(s0, s, vpn, vpn + |w|)
    && OthersKept(s0, s)
    && LeavesAre(s0, s, vpn, w)
    && PathsThere(s.t, vpn, |w|)
    && CleanPages(s0, s, pages)
    && TakenFirst(secs, s0, s, pages)
    && |s.used| == |s0.used| + |s.t| - |s0.t| + |pages|
  }

  // ----- what one granted frame leaves alone ----------------------------------------

  lemma GrantKeepsUsed(secs: seq<Section>, m: seq<byte>, used: set<nat>, m': seq<byte>, used': set<nat>, f: nat, n: nat, g: nat)
    requires Pmm.PmmInv(m, secs, used) && Pmm.Grants(m, used, secs, m', used', f, n) && g in used
    ensures Same(m, m', g * 4096, 4096)
  {
    assert Pmm.Trackable(secs, g);
    PmmRuns.TrackableNotBitmap(secs, |m|, g);
    assert !(f <= g < f + n) by {
      assert g in used && g !in Pmm.Frames(f, n);
    }
    forall x | g * 4096 <= x < g * 4096 + 4096
      ensures m[x] == m'[x]
    {
      assert x / 4096 == g;
    }
  }

  lemma GrantKeepsTree(secs: seq<Section>, root: nat, s: Snap, m': seq<byte>, used': set<nat>, f: nat, n: nat)
    requires Inv(secs, root, s) && Pmm.Grants(s.m, s.used, secs, m', used', f, n)
    ensures Inv(secs, root, Snap(m', used', s.t))
    ensures LeavesAre(s, Snap(m', used', s.t), 0, [])
  {
    forall x | x in s.t
      ensures HasFrame(s.m, s.t[x]) && Same(s.m, m', s.t[x] * 4096, 4096)
    {
      GrantKeepsUsed(secs, s.m, s.used, m', used', f, n, s.t[x]);
    }
    KeepTree(s.m, m', root, s.t);
  }

  /** Writing to a used frame leaves the bitmaps alone. */
  lemma SetEntryKeepsPmm(secs: seq<Section>, m: seq<byte>, used: set<nat>, g: nat, i: nat, e: nat)
    requires Pmm.PmmInv(m, secs, used) && g in used && HasFrame(m, g) && i < 512
    ensures Pmm.PmmInv(SetEntry(m, g, i, e), secs, used)
  {
    assert Pmm.Trackable(secs, g);
    PmmRuns.TrackableNotBitmap(secs, |m|, g);
    var r := SetEntry(m, g, i, e);
    forall x | 0 <= x < |m| && Pmm.BitmapFrame(secs, x / 4096)
      ensures r[x] == m[x]
    {
      assert x / 4096 != g;
    }
    PmmRuns.KeepBitmaps(m, r, secs, used);
  }

  lemma SetEntryElsewhere(m: seq<byte>, g: nat, i: nat, e: nat, f: nat)
    requires HasFrame(m, g) && i < 512 && f != g && HasFrame(m, f)
    ensures Same(m, SetEntry(m, g, i, e), f * 4096, 4096)
  {
  }

  // ----- the steps ------------------------------------------------------------------

  lemma StartProgress(secs: seq<Section>, root: nat, s: Snap, vpn: nat)
    requires Inv(secs, root, s)
    ensures Progress(secs, root, s, s, vpn, [], {})
  {
    forall f | f in s.used
      ensures Untouched(s, s, f)
    {
      assert Pmm.Trackable(secs, f);
      PmmRuns.TrackableNotBitmap(secs, |s.m|, f);
    }
  }

  lemma UsedHasFrame(secs: seq<Section>, m: seq<byte>, used: set<nat>, f: nat)
    requires Pmm.PmmInv(m, secs, used) && f in used
    ensures HasFrame(m, f) && f >= 1
  {
    assert Pmm.Trackable(secs, f);
    PmmRuns.TrackableNotBitmap(secs, |m|, f);
  }

  /** A granted frame counts as a page until it is linked; nothing else changes. */
  lemma GrantStep(secs: seq<Section>, root: nat, s0: Snap, s: Snap, vpn: nat, w: seq<nat>, pages: set<nat>,
                  m': seq<byte>, used': set<nat>, f: nat)
    requires Progress(secs, root, s0, s, vpn, w, pages)
    requires Pmm.Grants(s.m, s.used, secs, m', used', f, 1) && Pmm.Packed(secs, s.used, f)
    ensures Progress(secs, root, s0, Snap(m', used', s.t), vpn, w, pages + {f})
    ensures f !in s.used && f !in pages && CleanPage(s, Snap(m', used', s.t), f)
  {
    hide Pmm.Grants, TreeOk, Pmm.PmmInv, ZeroFrame;
    GrantKeepsTree(secs, root, s, m', used', f, 1);
    Pmm.GrantsParts(s.m, s.used, secs, m', used', f, 1);
    GrantKeepsOthers(secs, root, s0, s, m', used', f, 1);
    GrantedIsClean(secs, root, s, m', used', f);
    GrantTakesFirst(secs, s0, s, pages, m', used', f);
    forall g | g in pages + {f}
      ensures CleanPage(s0, Snap(m', used', s.t), g)
    {
      if g != f {
        assert CleanPage(s0, s, g);
        GrantKeepsUsed(secs, s.m, s.used, m', used', f, 1, g);
        ZeroSame(s.m, m', g);
      }
    }
    assert f !in pages by {
      assert f in pages ==> CleanPage(s0, s, f);
    }
  }

  lemma GrantTakesFirst(secs: seq<Section>, s0: Snap, s: Snap, pages: set<nat>, m': seq<byte>, used': set<nat>, f: nat)
    requires TakenFirst(secs, s0, s, pages) && Pmm.Packed(secs, s.used, f) && Pmm.Grants(s.m, s.used, secs, m', used', f, 1)
    ensures TakenFirst(secs, s0, Snap(m', used', s.t), pages + {f})
  {
    assert used' == s.used + {f};
    hide Pmm.Grants, Pmm.Packed, IsTable;
    forall g | g in used'
      ensures TakenFor(secs, s0, Snap(m', used', s.t), pages + {f}, g)
    {
      Pmm.PackedStays(secs, s.used, used', f);
      if g != f {
        assert TakenFor(secs, s0, s, pages, g);
        if g !in s0.used {
          Pmm.PackedStays(secs, s.used, used', g);
        }
      }
    }
  }

  lemma LinkTakesFirst(secs: seq<Section>, s0: Snap, s: Snap, s2: Snap, pages: set<nat>, n: Node, f: nat)
    requires TakenFirst(secs, s0, s, pages + {f}) && s2.used == s.used && s2.t == s.t[n := f] && n !in s.t
    ensures TakenFirst(secs, s0, s2, pages)
  {
    hide Pmm.Packed;
    assert s2.t[n] == f;
    forall g | g in s2.used
      ensures TakenFor(secs, s0, s2, pages, g)
    {
      assert TakenFor(secs, s0, s, pages + {f}, g);
      if IsTable(s.t, g) {
        var x :| x in s.t && s.t[x] == g;
        assert x in s2.t && s2.t[x] == g;
      }
    }
  }

  lemma SameTakesFirst(secs: seq<Section>, s0: Snap, s: Snap, s2: Snap, pages: set<nat>)
    requires TakenFirst(secs, s0, s, pages) && s2.used == s.used && s2.t == s.t
    ensures TakenFirst(secs, s0, s2, pages)
  {
    hide Pmm.Packed, IsTable;
    forall g | g in s2.used
      ensures TakenFor(secs, s0, s2, pages, g)
    {
      assert TakenFor(secs, s0, s, pages, g);
    }
  }

  lemma ZeroSame(m: seq<byte>, m': seq<byte>, g: nat)
    requires HasFrame(m, g) && Same(m, m', g * 4096, 4096) && ZeroFrame(m, g)
    ensures HasFrame(m', g) && ZeroFrame(m', g)
  {
  }

  lemma GrantedIsClean(secs: seq<Section>, root: nat, s: Snap, m': seq<byte>, used': set<nat>, f: nat)
    requires Inv(secs, root, s)
    requires Pmm.Grants(s.m, s.used, secs, m', used', f, 1)
    ensures f !in s.used && CleanPage(s, Snap(m', used', s.t), f)
  {
    assert f in Pmm.Frames(f, 1);
  }

  lemma GrantKeepsOthers(secs: seq<Section>, root: nat, s0: Snap, s: Snap, m': seq<byte>, used': set<nat>, f: nat, n: nat)
    requires Inv(secs, root, s) && OthersKept(s0, s) && s0.used <= s.used
    requires Pmm.Grants(s.m, s.used, secs, m', used', f, n)
    ensures OthersKept(s0, Snap(m', used', s.t))
  {
    forall g | g in s0.used && !IsTable(s0.t, g)
      ensures Untouched(s0, Snap(m', used', s.t), g)
    {
      assert Untouched(s0, s, g);
      GrantKeepsUsed(secs, s.m, s.used, m', used', f, n, g);
    }
  }

  /** The snapshot after storing entry `e` in slot `i` of table `n`, which makes frame `f` the table below it. */
  ghost function Linked(s: Snap, n: Node, i: nat, f: nat, e: nat): Snap
    requires n in s.t && n.level > 0 && HasFrame(s.m, s.t[n]) && i < 512
  {
    Snap(SetEntry(s.m, s.t[n], i, e), s.used, s.t[n.Child(i) := f])
  }

  lemma LinkKeepsInv(secs: seq<Section>, root: nat, s: Snap, n: Node, i: nat, f: nat, e: nat)
    requires Inv(secs, root, s) && n in s.t && 2 <= n.level && i < 512 && n.Child(i) !in s.t
    requires f in s.used && Fresh(s.m, s.t, f)
    requires e / 4096 == f && e % 8 == 7 && e < TWO64
    ensures Inv(secs, root, Linked(s, n, i, f, e))
    ensures LeavesAre(s, Linked(s, n, i, f, e), 0, [])
  {
    AddTable(s.m, root, s.t, n, i, f, e);
    SetEntryKeepsPmm(secs, s.m, s.used, s.t[n], i, e);
  }

  /** Every table lies inside memory. */
  lemma TablesHaveFrames(secs: seq<Section>, root: nat, s: Snap)
    requires Inv(secs, root, s)
    ensures forall n :: n in s.t ==> HasFrame(s.m, s.t[n])
  {
  }

  /** Linking one of the taken pages as a table on the range. */
  lemma LinkAt(secs: seq<Section>, root: nat, s0: Snap, s: Snap, vpn: nat, w: seq<nat>, pages: set<nat>, n: Node, i: nat, f: nat, e: nat)
    requires Progress(secs, root, s0, s, vpn, w, pages + {f}) && f !in pages
    requires n in s.t && 2 <= n.level && i < 512 && n.Child(i) !in s.t && OnRange(n.Child(i), vpn, vpn + |w|)
    requires e / 4096 == f && e % 8 == 7 && e < TWO64
    ensures HasFrame(s.m, s.t[n])
    ensures Progress(secs, root, s0, Linked(s, n, i, f, e), vpn, w, pages)
  {
    hide TreeOk, Pmm.PmmInv, ZeroFrame, Entry, SetEntry, Up, OnRange;
    TablesHaveFrames(secs, root, s);
    assert CleanPage(s0, s, f);
    var s2 := Linked(s, n, i, f, e);
    LinkKeepsInv(secs, root, s, n, i, f, e);
    LinkTakesFirst(secs, s0, s, s2, pages, n.Child(i), f);
    EntryStoreKeepsOthers(secs, root, s0, s, s2, n, i, e);
    EntryStoreKeepsPages(secs, root, s0, s, s2, n, i, e, pages + {f}, pages);
    assert |s2.t| == |s.t| + 1 && |pages + {f}| == |pages| + 1;
  }

  lemma LinkStep(secs: seq<Section>, root: nat, s0: Snap, s: Snap, vpn: nat, w: seq<nat>, pages: set<nat>, l: nat, f: nat, e: nat)
    requires Progress(secs, root, s0, s, vpn, w, pages + {f}) && f !in pages && vpn + |w| < VPAGES
    requires 2 <= l <= 4 && On(l, vpn + |w|) in s.t && On(l - 1, vpn + |w|) !in s.t
    requires e / 4096 == f && e % 8 == 7 && e < TWO64
    ensures HasFrame(s.m, s.t[On(l, vpn + |w|)])
    ensures Progress(secs, root, s0, Linked(s, On(l, vpn + |w|), Index(l, vpn + |w|), f, e), vpn, w, pages)
    ensures Linked(s, On(l, vpn + |w|), Index(l, vpn + |w|), f, e).t == s.t[On(l - 1, vpn + |w|) := f]
  {
    hide Progress;
    PathStep(l, vpn + |w|);
    UpMonotone(l - 1, vpn, vpn + |w|);
    LinkAt(secs, root, s0, s, vpn, w, pages, On(l, vpn + |w|), Index(l, vpn + |w|), f, e);
  }

  /** A store into a table leaves every page that is not a table clear. */
  lemma EntryStoreKeepsPages(secs: seq<Section>, root: nat, s0: Snap, s: Snap, s2: Snap, n: Node, i: nat, e: nat, pages: set<nat>, rest: set<nat>)
    requires Inv(secs, root, s) && CleanPages(s0, s, pages) && rest <= pages
    requires n in s.t && i < 512 && s2.m == SetEntry(s.m, s.t[n], i, e) && s2.used == s.used
    requires forall x :: x in s2.t ==> (x in s.t && s2.t[x] == s.t[x]) || s2.t[x] !in rest
    ensures CleanPages(s0, s2, rest)
  {
    forall g | g in rest
      ensures CleanPage(s0, s2, g)
    {
      assert CleanPage(s0, s, g);
      SetEntryElsewhere(s.m, s.t[n], i, e, g);
      ZeroSame(s.m, s2.m, g);
    }
  }

  lemma EntryStoreKeepsOthers(secs: seq<Section>, root: nat, s0: Snap, s: Snap, s2: Snap, n: Node, i: nat, e: nat)
    requires Inv(secs, root, s0) && Inv(secs, root, s) && OthersKept(s0, s)
    requires n in s.t && i < 512 && s2.m == SetEntry(s.m, s.t[n], i, e)
    requires n in s0.t ==> s0.t[n] == s.t[n]
    requires n !in s0.t ==> s.t[n] !in s0.used
    requires s0.used <= s.used
    ensures OthersKept(s0, s2)
  {
    forall g | g in s0.used && !IsTable(s0.t, g)
      ensures Untouched(s0, s2, g)
    {
      assert Untouched(s0, s, g);
      assert g != s.t[n];
      UsedHasFrame(secs, s.m, s.used, g);
      SetEntryElsewhere(s.m, s.t[n], i, e, g);
    }
  }

  lemma {:induction false} UpMonotone(l: nat, a: nat, b: nat)
    requires a <= b
    ensures Up(l, a) <= Up(l, b)
  {
    if l > 0 {
      UpMonotone(l - 1, a, b);
    }
  }

  /** The snapshot after writing leaf entry `e` for page `v`. */
  ghost function Written(s: Snap, v: nat, e: nat): Snap
    requires On(1, v) in s.t && HasFrame(s.m, s.t[On(1, v)])
  {
    Snap(SetEntry(s.m, s.t[On(1, v)], Index(1, v), e), s.used, s.t)
  }

  lemma WriteKeepsInv(secs: seq<Section>, root: nat, s: Snap, v: nat, e: nat)
    requires Inv(secs, root, s) && v < VPAGES && e < TWO64 && On(1, v) in s.t
    ensures Inv(secs, root, Written(s, v, e))
    ensures LeavesAre(s, Written(s, v, e), v, [e])
  {
    PathTop(v);
    SetLeaf(s.m, root, s.t, On(1, v), Index(1, v), e);
    SetEntryKeepsPmm(secs, s.m, s.used, s.t[On(1, v)], Index(1, v), e);
  }

  lemma WriteStep(secs: seq<Section>, root: nat, s0: Snap, s: Snap, vpn: nat, w: seq<nat>, pages: set<nat>, e: nat)
    requires Progress(secs, root, s0, s, vpn, w, pages) && vpn + |w| < VPAGES && e < TWO64
    requires On(1, vpn + |w|) in s.t && On(2, vpn + |w|) in s.t && On(3, vpn + |w|) in s.t
    ensures Progress(secs, root, s0, Written(s, vpn + |w|, e), vpn, w + [e], pages)
    ensures Grown(s0, Written(s, vpn + |w|, e), vpn, vpn + |w|)
  {
    var v := vpn + |w|;
    var s2 := Written(s, v, e);
    WriteKeepsInv(secs, root, s, v, e);
    SameTakesFirst(secs, s0, s, s2, pages);
    EntryStoreKeepsOthers(secs, root, s0, s, s2, On(1, v), Index(1, v), e);
    EntryStoreKeepsPages(secs, root, s0, s, s2, On(1, v), Index(1, v), e, pages, pages);
    forall x | x in s.t && x !in s0.t
      ensures OnRange(x, vpn, v + 1)
    {
      UpMonotone(x.level, v, v + 1);
    }
    forall x, l | vpn <= x < v + 1 && 1 <= l <= 3
      ensures On(l, x) in s.t
    {
      assert x == v ==> l == 1 || l == 2 || l == 3;
    }
  }

  // ----- several calls in a row -----------------------------------------------------

  /** What any number of calls on one tree keeps: earlier tables stay, new ones sit in new frames, and every other frame in use keeps its contents. */
  ghost predicate Evolved(s0: Snap, s: Snap) {
    && |s.m| == |s0.m| && s0.used <= s.used
    && (forall n :: n in s0.t ==> n in s.t && s.t[n] == s0.t[n])
    && (forall n :: n in s.t && n !in s0.t ==> s.t[n] !in s0.used)
    && OthersKept(s0, s)
  }

  lemma ProgressEvolved(secs: seq<Section>, root: nat, s0: Snap, s: Snap, vpn: nat, w: seq<nat>, pages: set<nat>)
    requires Progress(secs, root, s0, s, vpn, w, pages)
    ensures Evolved(s0, s) && TablesUsed(s0) && TablesUsed(s)
  {
  }

  lemma EvolvedTrans(a: Snap, b: Snap, c: Snap)
    requires Evolved(a, b) && Evolved(b, c) && TablesUsed(a)
    ensures Evolved(a, c)
  {
    forall f | f in a.used && !IsTable(a.t, f)
      ensures Untouched(a, c, f)
    {
      assert Untouched(a, b, f);
      assert !IsTable(b.t, f);
      assert Untouched(b, c, f);
    }
  }

  lemma EvolvedRefl(secs: seq<Section>, root: nat, s: Snap)
    requires Inv(secs, root, s)
    ensures Evolved(s, s)
  {
    StartProgress(secs, root, s, 0);
  }
}
