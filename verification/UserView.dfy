/**
What a tree shows to user code: which pages are the user's, whether one of them shows a
table of the tree itself, and where the tables lie among the frames in use.
*/
module UserView {
  import opened Bytes
  import opened KernelState
  import opened PageTree
  import opened Mapping
  import opened Paging
  import opened PagingTheorems
  import opened FrameCount
  import Pmm

  /** The first page of the upper half of the address space. */
  const HALF: nat := 0x8_0000_0000

  /** The place of the table under which the arguments of a process are mapped, and nothing else in the lower half. */
  const ARG_TABLE: Node := Node(3, 224)

  // ----- the kernel's part ----------------------------------------------------------

  /** Every table was the first free frame when it was taken. */
  ghost predicate TablesPacked(secs: seq<Section>, s: Snap) {
    forall n {:trigger s.t[n]} :: n in s.t ==> Pmm.Packed(secs, s.used, s.t[n])
  }

  /** No page is the user's. */
  ghost predicate NoUserLeaf(m: seq<byte>, root: nat) {
    forall v {:trigger Walk(m, root, 4, v)} :: 0 <= v < VPAGES ==> !PageTree.Grants(Walk(m, root, 4, v), User)
  }

  /** A tree with the kernel's mappings only. */
  ghost predicate Clean(secs: seq<Section>, root: nat, s: Snap) {
    TablesPacked(secs, s) && ARG_TABLE !in s.t && NoUserLeaf(s.m, root)
  }

  lemma ProgressPacked(secs: seq<Section>, root: nat, s0: Snap, s: Snap, vpn: nat, w: seq<nat>, pages: set<nat>)
    requires Progress(secs, root, s0, s, vpn, w, pages) && TablesPacked(secs, s0)
    ensures TablesPacked(secs, s)
  {
    hide TreeOk, Pmm.PmmInv, OthersKept, LeavesAre, PathsThere, CleanPages, Pmm.Packed;
    forall n {:trigger s.t[n]} | n in s.t
      ensures Pmm.Packed(secs, s.used, s.t[n])
    {
      if n in s0.t {
        assert s.t[n] == s0.t[n];
        Pmm.PackedStays(secs, s0.used, s.used, s0.t[n]);
      } else {
        assert s.t[n] in s.used;
        assert TakenFor(secs, s0, s, pages, s.t[n]);
      }
    }
  }

  /** Calls that stay below the arguments, or in the upper half, do not make their table. */
  lemma GrownMisses(s0: Snap, s: Snap, vpn: nat, last: nat)
    requires Grown(s0, s, vpn, last) && ARG_TABLE !in s0.t && (last < 0x7_0000_0000 || vpn >= HALF)
    ensures ARG_TABLE !in s.t
  {
    UpThree(vpn);
    UpThree(last);
    assert ARG_TABLE in s.t ==> OnRange(ARG_TABLE, vpn, last);
  }

  lemma UpThree(v: nat)
    ensures Up(3, v) == v / 0x800_0000
  {
    assert Up(1, v) == v / 512;
    assert Up(2, v) == v / 512 / 512;
    assert Up(3, v) == v / 512 / 512 / 512;
  }

  ghost predicate NoUserEntry(w: seq<nat>) {
    forall j :: 0 <= j < |w| ==> !PageTree.Grants(w[j], User)
  }

  lemma ProgressNoUser(secs: seq<Section>, root: nat, s0: Snap, s: Snap, vpn: nat, w: seq<nat>, pages: set<nat>)
    requires Progress(secs, root, s0, s, vpn, w, pages) && NoUserLeaf(s0.m, root) && NoUserEntry(w)
    ensures NoUserLeaf(s.m, root)
  {
    hide Progress, Walk;
    forall v | 0 <= v < VPAGES
      ensures !PageTree.Grants(Walk(s.m, root, 4, v), User)
    {
      ProgressLeaf(secs, root, s0, s, vpn, w, pages, v);
    }
  }

  lemma ProgressClean(secs: seq<Section>, root: nat, s0: Snap, s: Snap, vpn: nat, w: seq<nat>, pages: set<nat>)
    requires Progress(secs, root, s0, s, vpn, w, pages) && Clean(secs, root, s0) && NoUserEntry(w) && vpn >= HALF
    ensures Clean(secs, root, s)
  {
    hide Progress, TablesPacked, NoUserLeaf, Grown, NoUserEntry;
    ProgressPacked(secs, root, s0, s, vpn, w, pages);
    ProgressNoUser(secs, root, s0, s, vpn, w, pages);
    ProgressGrown(secs, root, s0, s, vpn, w, pages);
    GrownMisses(s0, s, vpn, vpn + |w|);
  }

  lemma ProgressGrown(secs: seq<Section>, root: nat, s0: Snap, s: Snap, vpn: nat, w: seq<nat>, pages: set<nat>)
    requires Progress(secs, root, s0, s, vpn, w, pages)
    ensures Grown(s0, s, vpn, vpn + |w|)
  {
    hide Inv, Grown, OthersKept, LeavesAre, PathsThere, CleanPages, TakenFirst;
  }

  lemma LinearNoUser(phys: nat, flags: nat, n: nat)
    requires phys % 4096 == 0 && !PageTree.Grants(flags, User)
    ensures NoUserEntry(Linear(phys, flags, n))
  {
    forall j | 0 <= j < n
      ensures !PageTree.Grants(Linear(phys, flags, n)[j], User)
    {
      AlignedKeepsFlags(phys / 4096 + j, flags, User);
      assert Linear(phys, flags, n)[j] == (phys / 4096 + j) * 4096 + flags;
    }
  }

  lemma BackedNoUser(w: seq<nat>, flags: nat, pages: set<nat>)
    requires Backed(w, flags, pages) && !PageTree.Grants(flags, User)
    ensures NoUserEntry(w)
  {
    forall j | 0 <= j < |w|
      ensures !PageTree.Grants(w[j], User)
    {
      AlignedKeepsFlags(w[j] / 4096, flags, User);
      assert w[j] == w[j] / 4096 * 4096 + flags;
    }
  }

  // ----- the user's part ------------------------------------------------------------

  /** Frame `f` holds no table and never will. */
  ghost predicate FrameSafe(secs: seq<Section>, s: Snap, f: nat) {
    !IsTable(s.t, f) && (f in s.used || !Pmm.Trackable(secs, f))
  }

  /** Every page of the user shows such a frame. */
  ghost predicate SafeUser(secs: seq<Section>, root: nat, s: Snap) {
    forall v {:trigger Walk(s.m, root, 4, v)} :: 0 <= v < VPAGES && PageTree.Grants(Walk(s.m, root, 4, v), User) ==> FrameSafe(secs, s, Walk(s.m, root, 4, v) / 4096)
  }

  /** Some page that user code can reach shows a table of the tree. */
  ghost predicate UserSeesTable(root: nat, s: Snap) {
    exists v :: UserTablePage(root, s, v)
  }

  ghost predicate UserTablePage(root: nat, s: Snap, v: nat) {
    v < VPAGES && WalkGrants(s.m, root, 4, v, Present) && WalkGrants(s.m, root, 4, v, User) && IsTable(s.t, Walk(s.m, root, 4, v) / 4096)
  }

  lemma SafeStays(secs: seq<Section>, root: nat, s0: Snap, s: Snap, f: nat)
    requires Inv(secs, root, s) && Evolved(s0, s) && FrameSafe(secs, s0, f)
    ensures FrameSafe(secs, s, f)
  {
    hide TreeOk, OthersKept;
    forall n | n in s.t
      ensures s.t[n] != f
    {
      assert s.t[n] in s.used;
      assert Pmm.Trackable(secs, s.t[n]);
      assert n in s0.t ==> s0.t[n] == s.t[n] && IsTable(s0.t, s0.t[n]);
    }
  }

  ghost predicate SafeEntries(secs: seq<Section>, s: Snap, w: seq<nat>) {
    forall j :: 0 <= j < |w| && PageTree.Grants(w[j], User) ==> FrameSafe(secs, s, w[j] / 4096)
  }

  lemma ProgressSafe(secs: seq<Section>, root: nat, s0: Snap, s: Snap, vpn: nat, w: seq<nat>, pages: set<nat>)
    requires Progress(secs, root, s0, s, vpn, w, pages) && SafeUser(secs, root, s0) && SafeEntries(secs, s, w)
    ensures SafeUser(secs, root, s)
  {
    ProgressEvolved(secs, root, s0, s, vpn, w, pages);
    ProgressParts(secs, root, s0, s, vpn, w, pages);
    hide Progress, Walk, Evolved, Inv, FrameSafe;
    forall v | 0 <= v < VPAGES && PageTree.Grants(Walk(s.m, root, 4, v), User)
      ensures FrameSafe(secs, s, Walk(s.m, root, 4, v) / 4096)
    {
      ProgressLeaf(secs, root, s0, s, vpn, w, pages, v);
      if !(vpn <= v < vpn + |w|) {
        SafeStays(secs, root, s0, s, Walk(s0.m, root, 4, v) / 4096);
      }
    }
  }

  /** A page taken by the call itself. */
  lemma BackedSafe(secs: seq<Section>, root: nat, s0: Snap, s: Snap, vpn: nat, w: seq<nat>, pages: set<nat>, flags: nat)
    requires Progress(secs, root, s0, s, vpn, w, pages) && Backed(w, flags, pages)
    ensures SafeEntries(secs, s, w)
  {
    hide Inv, Grown, OthersKept, LeavesAre, PathsThere, TakenFirst, ZeroFrame, IsTable;
    forall j | 0 <= j < |w|
      ensures FrameSafe(secs, s, w[j] / 4096)
    {
      assert CleanPage(s0, s, w[j] / 4096);
    }
  }

  lemma SafeSeesNoTable(secs: seq<Section>, root: nat, s: Snap)
    requires Inv(secs, root, s) && SafeUser(secs, root, s)
    ensures !UserSeesTable(root, s)
  {
    forall v: nat
      ensures !UserTablePage(root, s, v)
    {
      if v < VPAGES {
        RightsAreLeafFlags(s.m, root, s.t, v, User);
        WalkFindsLeaf(s.m, root, s.t, v);
      }
    }
  }

  // ----- the frame after the first free one -----------------------------------------

  /** Frame `f` is free and one that the allocator hands out. */
  ghost predicate FreeFrame(secs: seq<Section>, used: set<nat>, f: nat) {
    Pmm.Trackable(secs, f) && f !in used
  }

  /** A frame that can be handed out, right after one that can, is the next page of the same section. */
  lemma NextPageOfSection(secs: seq<Section>, size: nat, i: nat, p: nat, j: nat, q: nat)
    requires Pmm.MapOk(secs, size) && i < |secs| && j < |secs| && secs[i].kind == Usable && secs[j].kind == Usable
    requires p < Pmm.Tracked(secs[i]) && q < Pmm.Tracked(secs[j]) && Pmm.FrameOf(secs[j], q) == Pmm.FrameOf(secs[i], p) + 1
    ensures i == j && q == p + 1
  {
    assert Pmm.SectionOk(secs[i], size) && Pmm.SectionOk(secs[j], size);
    if i != j {
      Pmm.OtherSection(secs, size, i, j);
    }
  }

  /** The frame after the first free one is not one that was taken first-fit: it would have been passed over. */
  lemma NextNotPacked(secs: seq<Section>, size: nat, used: set<nat>, a: nat)
    requires Pmm.MapOk(secs, size) && Pmm.BlockAtFirstRun(secs, used, 1, a * 4096)
    ensures !Pmm.Packed(secs, used, a + 1)
  {
    var i: nat, p: nat :| Pmm.FirstRun(secs, used, 1, i, p) && a * 4096 == Pmm.FrameOf(secs[i], p) * 4096;
    assert Pmm.FreeRun(secs[i], used, p, 1);
    forall j: nat, q: nat | Pmm.PackedAt(secs, used, j, q)
      ensures Pmm.FrameOf(secs[j], q) != a + 1
    {
      if Pmm.FrameOf(secs[j], q) == a + 1 {
        NextPageOfSection(secs, size, i, p, j, q);
      }
    }
  }

  /** Once it is free, it is the first frame of the next ones taken: if any is taken first-fit, it is. */
  lemma NextIsTaken(secs: seq<Section>, size: nat, used: set<nat>, used': set<nat>, a: nat, g: nat)
    requires Pmm.MapOk(secs, size) && Pmm.BlockAtFirstRun(secs, used, 1, a * 4096) && FreeFrame(secs, used, a + 1)
    requires used + {a} <= used' && Pmm.Packed(secs, used', g) && g in used' && g !in used + {a}
    ensures a + 1 in used'
  {
    var i, p := NextRun(secs, size, used, a);
    if a + 1 !in used' {
      OvertakenRun(secs, used, used', i, p, g);
    }
  }

  lemma NextRun(secs: seq<Section>, size: nat, used: set<nat>, a: nat) returns (i: nat, p: nat)
    requires Pmm.MapOk(secs, size) && Pmm.BlockAtFirstRun(secs, used, 1, a * 4096) && FreeFrame(secs, used, a + 1)
    ensures Pmm.FirstRun(secs, used, 1, i, p) && a == Pmm.FrameOf(secs[i], p) && p + 1 < Pmm.Tracked(secs[i])
  {
    i, p :| Pmm.FirstRun(secs, used, 1, i, p) && a * 4096 == Pmm.FrameOf(secs[i], p) * 4096;
    var k :| 0 <= k < |secs| && Pmm.InSection(secs[k], a + 1);
    NextPageOfSection(secs, size, i, p, k, a + 1 - Pmm.FrameOf(secs[k], 0));
  }

  /** A frame taken first-fit, past the first free one, means that the page after that one is taken. */
  lemma OvertakenRun(secs: seq<Section>, used: set<nat>, used': set<nat>, i: nat, p: nat, g: nat)
    requires Pmm.FirstRun(secs, used, 1, i, p) && p + 1 < Pmm.Tracked(secs[i]) && used <= used'
    requires Pmm.Packed(secs, used', g) && g in used' && g !in used && g != Pmm.FrameOf(secs[i], p)
    ensures Pmm.FrameOf(secs[i], p + 1) in used'
  {
    var j: nat, q: nat :| Pmm.PackedAt(secs, used', j, q) && g == Pmm.FrameOf(secs[j], q);
    assert Pmm.FreeRun(secs[j], used, q, 1);
    assert Pmm.FrameOf(secs[i], p + 1) !in used' ==> Pmm.FreeRun(secs[i], used', p + 1, 1);
  }

  /** Where a run of pages was taken first, for which the first free page of all was too far from the others: that run does not start right after this page. */
  lemma RunNotAfter(secs: seq<Section>, size: nat, used0: set<nat>, n: nat, f: nat, used: set<nat>, a: nat)
    requires Pmm.MapOk(secs, size) && n > 0 && Pmm.BlockAtFirstRun(secs, used0, n, f * 4096)
    requires used0 + Pmm.Frames(f, n) <= used && Pmm.BlockAtFirstRun(secs, used, 1, a * 4096)
    ensures a + 1 !in Pmm.Frames(f, n)
  {
    var i: nat, p: nat :| Pmm.FirstRun(secs, used, 1, i, p) && a * 4096 == Pmm.FrameOf(secs[i], p) * 4096;
    var j: nat, q: nat :| Pmm.FirstRun(secs, used0, n, j, q) && f * 4096 == Pmm.FrameOf(secs[j], q) * 4096;
    assert Pmm.FreeRun(secs[i], used, p, 1) && Pmm.FreeRun(secs[j], used0, q, n);
    assert Pmm.FrameOf(secs[i], p) !in used;
    if a + 1 in Pmm.Frames(f, n) {
      assert a !in Pmm.Frames(f, n);
      NextPageOfSection(secs, size, i, p, j, q);
      assert forall x :: p < x < p + n ==> Pmm.FrameOf(secs[i], x) !in used0;
      assert Pmm.FreeRun(secs[j], used0, p, n);
    }
  }

  /** So the frame after the first free one is free now if and only if it was before that run and other first-fit frames were taken. */
  lemma SpillWasFree(secs: seq<Section>, size: nat, used0: set<nat>, n: nat, f: nat, used: set<nat>, a: nat)
    requires Pmm.MapOk(secs, size) && n > 0 && Pmm.BlockAtFirstRun(secs, used0, n, f * 4096)
    requires NewPacked(secs, used0 + Pmm.Frames(f, n), used) && Pmm.BlockAtFirstRun(secs, used, 1, a * 4096)
    ensures FreeFrame(secs, used, a + 1) <==> FreeFrame(secs, used0, a + 1)
  {
    hide Pmm.BlockAtFirstRun, Pmm.Packed, Pmm.Trackable, Pmm.MapOk;
    RunNotAfter(secs, size, used0, n, f, used, a);
    NextNotPacked(secs, size, used, a);
  }

  /**
  Where the frames in use are the first ones of a section, and the earlier sections are
  full: a frame taken first-fit has a free frame after it, of those free before, as long as
  the section has more free frames than are taken.
  */
  lemma PrefixSpills(secs: seq<Section>, used0: set<nat>, used: set<nat>, i: nat, u: nat, a: nat)
    requires i < |secs| && secs[i].kind == Usable && secs[i].length >= 4096
    requires forall j, q: nat :: 0 <= j < i ==> !Pmm.FreeRun(secs[j], used0, q, 1)
    requires forall q: nat :: q < Pmm.Tracked(secs[i]) ==> (Pmm.FrameOf(secs[i], q) in used0 <==> q < u)
    requires used0 <= used && |used| - |used0| + u < Pmm.Tracked(secs[i])
    requires Pmm.Packed(secs, used, a) && a in used && a !in used0
    ensures FreeFrame(secs, used0, a + 1)
  {
    var j: nat, q: nat :| Pmm.PackedAt(secs, used, j, q) && a == Pmm.FrameOf(secs[j], q);
    if j < i {
      assert Pmm.FreeRun(secs[j], used0, q, 1);
    } else {
      SubsetSize(used0, used);
      assert j == i ==> Pmm.FrameOf(secs[i], q) !in used0;
      var c := if j == i then q + 1 else Pmm.Tracked(secs[i]);
      forall x: nat | u <= x < c
        ensures Pmm.FrameOf(secs[i], x) in used
      {
        if Pmm.FrameOf(secs[i], x) !in used {
          assert Pmm.FreeRun(secs[i], used, x, 1);
        }
      }
      TakenPages(secs[i], used0, used, u, c);
      assert Pmm.FrameOf(secs[i], q + 1) !in used0;
      assert Pmm.InSection(secs[i], a + 1);
    }
  }

  lemma TakenPages(s: Section, used0: set<nat>, used: set<nat>, u: nat, c: nat)
    requires u <= c && used0 <= used
    requires forall x: nat :: u <= x < c ==> Pmm.FrameOf(s, x) in used && Pmm.FrameOf(s, x) !in used0
    ensures c - u <= |used| - |used0|
  {
    var taken := Pmm.Frames(Pmm.FrameOf(s, u), c - u);
    forall f | f in taken
      ensures f in used - used0
    {
      assert f == Pmm.FrameOf(s, f - Pmm.FrameOf(s, 0));
    }
    SubsetSize(taken, used - used0);
    assert used == used0 + (used - used0);
  }
}
