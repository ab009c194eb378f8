/**
Building a new process's memory (the part of `spawn` from the image copy on, and
`map_apic_into_task`): what the process sees at the addresses of its segments, its stack
and its arguments (src/tasks/spawn.c:117-147, src/drivers/apic.c:152-155).
*/
module Spawn {
  import opened Bytes
  import opened KernelState
  import opened PageTree
  import opened Mapping
  import opened Paging
  import opened PagingTheorems
  import opened FrameCount
  import opened SectionMap
  import opened KernelMap
  import opened UserView
  import opened Elf
  import Pmm
  import PmmRuns

  const USER := 4
  const USER_FLAGS := 7

  // ----- what later steps leave alone -----------------------------------------------

  /** Frames `[f, f+n)` are in use and hold no table of this tree. */
  ghost predicate Owned(s: Snap, f: nat, n: nat) {
    forall g {:trigger IsTable(s.t, g)} {:trigger g in s.used} :: f <= g < f + n ==> g in s.used && !IsTable(s.t, g)
  }

  /** `n` pages from `vpn` on are mapped to the frames from `f` on. */
  ghost predicate MapsTo(m: seq<byte>, root: nat, vpn: nat, f: nat, n: nat, flags: nat) {
    forall v {:trigger Walk(m, root, 4, v)} :: vpn <= v < vpn + n ==> Walk(m, root, 4, v) == (f + (v - vpn)) * 4096 + flags
  }

  /** The walks of pages `[vpn, vpn+n)` are unchanged. */
  ghost predicate WalksSame(m0: seq<byte>, m: seq<byte>, root: nat, vpn: nat, n: nat) {
    forall v {:trigger Walk(m, root, 4, v)} :: vpn <= v < vpn + n ==> Walk(m, root, 4, v) == Walk(m0, root, 4, v)
  }

  ghost predicate RegionSame(m0: seq<byte>, m: seq<byte>, f: nat, n: nat) {
    |m| == |m0| && forall x {:trigger m[x]} :: f * 4096 <= x < (f + n) * 4096 && x < |m| ==> m[x] == m0[x]
  }

  /** Every page but the `c` from `vpn` on is translated as before. */
  ghost predicate ElseSame(m0: seq<byte>, m: seq<byte>, root: nat, vpn: nat, c: nat) {
    forall v {:trigger Walk(m, root, 4, v)} :: 0 <= v < VPAGES && !(vpn <= v < vpn + c) ==> Walk(m, root, 4, v) == Walk(m0, root, 4, v)
  }

  lemma CallElse(secs: seq<Section>, root: nat, s0: Snap, s: Snap, vpn: nat, w: seq<nat>, pages: set<nat>)
    requires Progress(secs, root, s0, s, vpn, w, pages)
    ensures ElseSame(s0.m, s.m, root, vpn, |w|)
  {
    hide Progress, Walk;
    forall v | 0 <= v < VPAGES && !(vpn <= v < vpn + |w|)
      ensures Walk(s.m, root, 4, v) == Walk(s0.m, root, 4, v)
    {
      ProgressLeaf(secs, root, s0, s, vpn, w, pages, v);
    }
  }

  /** One step of building the process, seen from regions and pages it does not concern. */
  ghost predicate Leaves(root: nat, s0: Snap, s: Snap, f: nat, n: nat, vpn: nat, c: nat) {
    && RegionSame(s0.m, s.m, f, n) && (Owned(s0, f, n) ==> Owned(s, f, n))
    && WalksSame(s0.m, s.m, root, vpn, c) && s0.used <= s.used
  }

  lemma CallLeaves(secs: seq<Section>, root: nat, s0: Snap, s: Snap, at: nat, w: seq<nat>, pages: set<nat>, f: nat, n: nat, vpn: nat, c: nat)
    requires Progress(secs, root, s0, s, at, w, pages) && Owned(s0, f, n)
    requires vpn + c <= VPAGES && (vpn + c <= at || at + |w| <= vpn)
    ensures Leaves(root, s0, s, f, n, vpn, c) && Owned(s, f, n)
  {
    ProgressEvolved(secs, root, s0, s, at, w, pages);
    forall v | vpn <= v < vpn + c
      ensures Walk(s.m, root, 4, v) == Walk(s0.m, root, 4, v)
    {
      ProgressLeaf(secs, root, s0, s, at, w, pages, v);
    }
    hide Progress, Walk, TablesUsed;
    EvolvedLeavesRegion(s0, s, f, n);
  }

  lemma EvolvedLeavesRegion(s0: Snap, s: Snap, f: nat, n: nat)
    requires Evolved(s0, s) && Owned(s0, f, n)
    ensures RegionSame(s0.m, s.m, f, n) && Owned(s, f, n) && s0.used <= s.used
  {
    forall g | f <= g < f + n
      ensures Untouched(s0, s, g) && g in s.used && !IsTable(s.t, g)
    {
      assert g in s0.used && !IsTable(s0.t, g);
    }
    forall x | f * 4096 <= x < (f + n) * 4096 && x < |s.m|
      ensures s.m[x] == s0.m[x]
    {
      assert Untouched(s0, s, x / 4096);
    }
  }

  /** Taking a frame for something else leaves the tree and everything owned alone. */
  lemma GrantLeaves(secs: seq<Section>, root: nat, s0: Snap, m: seq<byte>, used: set<nat>, a: nat, f: nat, n: nat)
    requires Inv(secs, root, s0) && Pmm.Grants(s0.m, s0.used, secs, m, used, a, 1) && Pmm.Packed(secs, s0.used, a) && Owned(s0, f, n)
    ensures Inv(secs, root, Snap(m, used, s0.t))
    ensures Leaves(root, s0, Snap(m, used, s0.t), f, n, 0, VPAGES) && Owned(Snap(m, used, s0.t), f, n)
    ensures Owned(Snap(m, used, s0.t), a, 1) && !(f <= a < f + n)
  {
    var s := Snap(m, used, s0.t);
    StartProgress(secs, root, s0, 0);
    GrantStep(secs, root, s0, s0, 0, [], {}, m, used, a);
    CallLeaves(secs, root, s0, s, 0, [], {} + {a}, f, n, 0, VPAGES);
    hide Progress, Pmm.Grants, TreeOk;
    assert a !in s0.used;
    ProgressParts(secs, root, s0, s, 0, [], {} + {a});
  }

  /** Writing into an owned frame leaves the tree and the other owned frames alone. */
  lemma WriteLeaves(secs: seq<Section>, root: nat, s0: Snap, m: seq<byte>, a: nat, f: nat, n: nat)
    requires Inv(secs, root, s0) && OutsideSame(s0.m, m, a, 1) && Owned(s0, a, 1) && Owned(s0, f, n) && !(f <= a < f + n)
    ensures Inv(secs, root, Snap(m, s0.used, s0.t))
    ensures Leaves(root, s0, Snap(m, s0.used, s0.t), f, n, 0, VPAGES)
  {
    assert a in s0.used && !IsTable(s0.t, a);
    forall x | x in s0.t
      ensures HasFrame(s0.m, s0.t[x]) && Same(s0.m, m, s0.t[x] * 4096, 4096)
    {
      assert s0.t[x] != a;
    }
    KeepTree(s0.m, m, root, s0.t);
    assert Pmm.Trackable(secs, a);
    assert Held(secs, s0.used, a, 1);
    HeldWritesKeepPmm(secs, s0.m, m, s0.used, a, 1);
    forall v | 0 <= v < VPAGES
      ensures Walk(m, root, 4, v) == Walk(s0.m, root, 4, v)
    {
      WalkFindsLeaf(m, root, s0.t, v);
      WalkFindsLeaf(s0.m, root, s0.t, v);
    }
  }

  // ----- what a step leaves to everybody else ---------------------------------------

  /** A step below the upper half: frames in use keep their contents, and the upper half its mappings. */
  ghost predicate Below(root: nat, s0: Snap, s: Snap) {
    Evolved(s0, s) && WalksSame(s0.m, s.m, root, HALF, HALF)
  }

  lemma BelowTrans(root: nat, a: Snap, b: Snap, c: Snap)
    requires Below(root, a, b) && Below(root, b, c) && TablesUsed(a)
    ensures Below(root, a, c)
  {
    EvolvedTrans(a, b, c);
    hide Evolved, Walk;
    forall v | HALF <= v < HALF + HALF
      ensures Walk(c.m, root, 4, v) == Walk(a.m, root, 4, v)
    {
      assert Walk(b.m, root, 4, v) == Walk(a.m, root, 4, v);
    }
  }

  lemma CallBelow(secs: seq<Section>, root: nat, s0: Snap, s: Snap, at: nat, w: seq<nat>, pages: set<nat>)
    requires Progress(secs, root, s0, s, at, w, pages) && at + |w| <= HALF
    ensures Below(root, s0, s) && TablesUsed(s0)
  {
    ProgressEvolved(secs, root, s0, s, at, w, pages);
    hide Evolved, TablesUsed, Walk;
    forall v | HALF <= v < HALF + HALF
      ensures Walk(s.m, root, 4, v) == Walk(s0.m, root, 4, v)
    {
      ProgressLeaf(secs, root, s0, s, at, w, pages, v);
    }
  }

  lemma GrantBelow(secs: seq<Section>, root: nat, s0: Snap, m: seq<byte>, used: set<nat>, a: nat)
    requires Inv(secs, root, s0) && Pmm.Grants(s0.m, s0.used, secs, m, used, a, 1) && Pmm.Packed(secs, s0.used, a)
    ensures Below(root, s0, Snap(m, used, s0.t)) && TablesUsed(s0) && a !in s0.used
  {
    StartProgress(secs, root, s0, 0);
    GrantStep(secs, root, s0, s0, 0, [], {}, m, used, a);
    CallBelow(secs, root, s0, Snap(m, used, s0.t), 0, [], {} + {a});
  }

  /** Writing into a frame that was taken since `s0`. */
  lemma WriteBelow(secs: seq<Section>, root: nat, s0: Snap, s: Snap, m: seq<byte>, a: nat)
    requires Below(root, s0, s) && a !in s0.used && OutsideSame(s.m, m, a, 1)
    requires Leaves(root, s, Snap(m, s.used, s.t), a + 1, 0, 0, VPAGES)
    ensures Below(root, s0, Snap(m, s.used, s.t))
  {
    hide Walk;
    forall g | g in s0.used && !IsTable(s0.t, g)
      ensures Untouched(s0, Snap(m, s.used, s.t), g)
    {
      assert Untouched(s0, s, g);
    }
    forall v | HALF <= v < HALF + HALF
      ensures Walk(m, root, 4, v) == Walk(s0.m, root, 4, v)
    {
      assert Walk(s.m, root, 4, v) == Walk(s0.m, root, 4, v);
    }
  }

  /** Frames in use before the tree was made keep their contents through every later step on it. */
  lemma EvolvedKeepsUsed(m0: seq<byte>, used0: set<nat>, s: Snap, t: Snap)
    requires UsedKept(m0, used0, s.m) && used0 <= s.used && TablesAreNew(s.t, used0) && Evolved(s, t)
    ensures UsedKept(m0, used0, t.m) && used0 <= t.used
  {
    forall g | g in used0
      ensures Same(m0, t.m, g * 4096, 4096)
    {
      assert Same(m0, s.m, g * 4096, 4096);
      assert !IsTable(s.t, g);
      assert Untouched(s, t, g);
    }
  }

  lemma UsedKeptTrans(m0: seq<byte>, used0: set<nat>, m1: seq<byte>, used1: set<nat>, m2: seq<byte>)
    requires UsedKept(m0, used0, m1) && used0 <= used1 && UsedKept(m1, used1, m2)
    ensures UsedKept(m0, used0, m2)
  {
    forall g | g in used0
      ensures Same(m0, m2, g * 4096, 4096)
    {
      assert Same(m0, m1, g * 4096, 4096) && Same(m1, m2, g * 4096, 4096);
    }
  }

  // ----- the parts of the process ---------------------------------------------------

  /** The image lies in frames `[f, f+n)` and is mapped, for the user, from address `v0` on. */
  ghost predicate ImageReady(s: Snap, root: nat, f: nat, n: nat, v0: nat, ph: seq<ProgramHeader>, file: seq<byte>)
    requires FitsFile(ph, file)
  {
    && (f + n) * 4096 <= |s.m|
    && Owned(s, f, n) && Loaded(s.m, f, n, ph, file, |ph|, v0)
    && MapsTo(s.m, root, v0 / 4096, f, n, USER_FLAGS)
  }

  lemma ImageStays(root: nat, s0: Snap, s: Snap, f: nat, n: nat, v0: nat, ph: seq<ProgramHeader>, file: seq<byte>, vpn: nat, c: nat)
    requires FitsFile(ph, file) && ImageReady(s0, root, f, n, v0, ph, file)
    requires Leaves(root, s0, s, f, n, vpn, c) && vpn <= v0 / 4096 && v0 / 4096 + n <= vpn + c
    ensures ImageReady(s, root, f, n, v0, ph, file)
  {
    hide Walk, FitsFile, ImageByte;
    forall x | f * 4096 <= x < (f + n) * 4096
      ensures s.m[x] == ImageByte(ph, file, |ph|, x - f * 4096 + v0)
    {
      assert s.m[x] == s0.m[x];
    }
    forall v | v0 / 4096 <= v < v0 / 4096 + n
      ensures Walk(s.m, root, 4, v) == (f + (v - v0 / 4096)) * 4096 + USER_FLAGS
    {
      assert Walk(s.m, root, 4, v) == Walk(s0.m, root, 4, v);
    }
  }

  /** The two stack pages stay mapped while other pages are mapped. */
  lemma StackStays(root: nat, s0: Snap, s: Snap, at: nat, flags: nat, vpn: nat, c: nat)
    requires StackMapped(s0.m, root, s0.used, at, flags) && s0.used <= s.used
    requires WalksSame(s0.m, s.m, root, vpn, c) && vpn <= at && at + 2 <= vpn + c
    ensures StackMapped(s.m, root, s.used, at, flags)
  {
    hide Walk;
    assert Walk(s.m, root, 4, at) == Walk(s0.m, root, 4, at);
    assert Walk(s.m, root, 4, at + 1) == Walk(s0.m, root, 4, at + 1);
  }

  /** The strings of the arguments, each with its terminator. */
  function ArgBlock(args: seq<seq<byte>>): seq<byte> {
    if args == [] then [] else ArgBlock(args[..|args| - 1]) + args[|args| - 1] + [0]
  }

  lemma {:induction false} ArgBlockPrefix(args: seq<seq<byte>>, i: nat)
    requires i <= |args|
    ensures |ArgBlock(args[..i])| <= |ArgBlock(args)|
    decreases |args|
  {
    if i < |args| {
      assert args[..|args| - 1][..i] == args[..i];
      ArgBlockPrefix(args[..|args| - 1], i);
    } else {
      assert args[..i] == args;
    }
  }

  /** Memory `m` holds the first `i` argument strings at address `a`. */
  ghost predicate Holds(m: seq<byte>, a: nat, args: seq<seq<byte>>, i: nat)
    requires i <= |args|
  {
    a + |ArgBlock(args[..i])| <= |m| && m[a..a + |ArgBlock(args[..i])|] == ArgBlock(args[..i])
  }

  lemma StringStep(m0: seq<byte>, m: seq<byte>, a: nat, args: seq<seq<byte>>, i: nat)
    requires i < |args| && Holds(m, a * 4096, args, i) && |ArgBlock(args)| <= 4096 && HasFrame(m, a) && OutsideSame(m0, m, a, 1)
    ensures |ArgBlock(args[..i + 1])| == |ArgBlock(args[..i])| + |args[i]| + 1 <= 4096
    ensures Holds(Splice(m, a * 4096 + |ArgBlock(args[..i])|, args[i] + [0]), a * 4096, args, i + 1)
    ensures OutsideSame(m0, Splice(m, a * 4096 + |ArgBlock(args[..i])|, args[i] + [0]), a, 1)
  {
    ArgBlockPrefix(args, i + 1);
    assert args[..i + 1][..i] == args[..i];
    var b := ArgBlock(args[..i]);
    var d := args[i] + [0];
    assert ArgBlock(args[..i + 1]) == b + d;
    hide ArgBlock;
    var r := Splice(m, a * 4096 + |b|, d);
    assert r[a * 4096..a * 4096 + |b| + |d|] == b + d;
  }

  lemma NoStrings(m: seq<byte>, a: nat, args: seq<seq<byte>>)
    requires a <= |m|
    ensures Holds(m, a, args, 0) && |ArgBlock(args[..0])| == 0
  {
  }

  /** Copies the argument strings to the argument page in frame `a`. */
  method WriteStrings(k: Kernel, a: nat, args: seq<seq<byte>>) returns (argSize: nat)
    requires HasFrame(k.mem[..], a) && |ArgBlock(args)| <= 4096
    modifies k.mem
    ensures OutsideSame(old(k.mem[..]), k.mem[..], a, 1)
    ensures argSize == |ArgBlock(args)| && Holds(k.mem[..], a * 4096, args, |args|)
  {
    hide ArgBlock, Holds;
    ghost var m0 := k.mem[..];
    NoStrings(m0, a * 4096, args);
    argSize := 0;
    var i := 0;
    while i < |args|
      invariant 0 <= i <= |args| && argSize == |ArgBlock(args[..i])|
      invariant OutsideSame(m0, k.mem[..], a, 1) && Holds(k.mem[..], a * 4096, args, i)
    {
      StringStep(m0, k.mem[..], a, args, i);
      MemCpy(k.mem, a * 4096 + argSize, args[i] + [0]);
      argSize := argSize + |args[i]| + 1;
      i := i + 1;
    }
    assert args[..i] == args;
  }

  lemma PointerStep(m0: seq<byte>, m: seq<byte>, a: nat, args: seq<seq<byte>>, at: nat, v: nat)
    requires Holds(m, a * 4096, args, |args|) && OutsideSame(m0, m, a, 1) && HasFrame(m, a)
    requires a * 4096 + |ArgBlock(args)| <= at && at + 8 <= (a + 1) * 4096
    ensures Holds(Store64(m, at, v), a * 4096, args, |args|) && OutsideSame(m0, Store64(m, at, v), a, 1)
  {
    assert args[..|args|] == args;
    hide ArgBlock;
    var r := Store64(m, at, v);
    assert r[a * 4096..a * 4096 + |ArgBlock(args)|] == m[a * 4096..a * 4096 + |ArgBlock(args)|];
  }

  /** Where argument `i` starts, what is there, and where the next one starts. */
  lemma ArgIsThere(args: seq<seq<byte>>, i: nat)
    requires i < |args|
    ensures var o := |ArgBlock(args[..i])|;
      && (i == 0 ==> o == 0) && |ArgBlock(args[..i + 1])| == o + |args[i]| + 1 <= |ArgBlock(args)|
      && ArgBlock(args)[o..o + |args[i]|] == args[i] && ArgBlock(args)[o + |args[i]|] == 0
  {
    ArgStart(args, i);
    ArgBlockStarts(args, i + 1);
    assert args[..i + 1][..i] == args[..i];
    var b, c := ArgBlock(args[..i + 1]), ArgBlock(args);
    assert b == ArgBlock(args[..i]) + args[i] + [0];
    hide ArgBlock;
    assert b == c[..|b|];
    assert b[|b| - 1] == 0;
    assert forall j :: 0 <= j < |b| ==> c[j] == b[j];
  }

  lemma {:induction false} ArgBlockStarts(args: seq<seq<byte>>, i: nat)
    requires i <= |args|
    ensures ArgBlock(args[..i]) <= ArgBlock(args)
    decreases |args|
  {
    if i < |args| {
      assert args[..|args| - 1][..i] == args[..i];
      ArgBlockStarts(args[..|args| - 1], i);
    } else {
      assert args[..i] == args;
    }
  }

  lemma ArgStart(args: seq<seq<byte>>, i: nat)
    requires i < |args|
    ensures |ArgBlock(args[..i + 1])| == |ArgBlock(args[..i])| + |args[i]| + 1 <= |ArgBlock(args)|
    ensures i == 0 ==> |ArgBlock(args[..i])| == 0
  {
    assert args[..i + 1][..i] == args[..i];
    ArgBlockPrefix(args, i + 1);
  }

  /** Word `j` behind the strings is the kernel's pointer to string `j`. */
  ghost predicate PointerAt(m: seq<byte>, a: nat, hhdm: nat, args: seq<seq<byte>>, j: nat)
    requires j <= |args|
  {
    var at := a * 4096 + |ArgBlock(args)| + j * 8;
    at + 8 <= |m| && Load64(m, at) == a * 4096 + hhdm + |ArgBlock(args[..j])|
  }

  ghost predicate ArgPointers(m: seq<byte>, a: nat, hhdm: nat, args: seq<seq<byte>>, i: nat)
    requires i <= |args|
  {
    forall j {:trigger PointerAt(m, a, hhdm, args, j)} :: 0 <= j < i ==> PointerAt(m, a, hhdm, args, j)
  }

  lemma NoPointers(m: seq<byte>, a: nat, hhdm: nat, args: seq<seq<byte>>)
    ensures ArgPointers(m, a, hhdm, args, 0) && |ArgBlock(args[..0])| == 0
  {
  }

  lemma NextPointer(m: seq<byte>, a: nat, hhdm: nat, args: seq<seq<byte>>, i: nat)
    requires i < |args| && ArgPointers(m, a, hhdm, args, i) && hhdm + |m| <= TWO64 && HasFrame(m, a) && |ArgBlock(args)| + 8 * |args| <= 4096
    ensures ArgPointers(Store64(m, a * 4096 + |ArgBlock(args)| + i * 8, a * 4096 + hhdm + |ArgBlock(args[..i])|), a, hhdm, args, i + 1)
  {
    ArgStart(args, i);
    hide ArgBlock, Load64, Store64;
    var at, v := a * 4096 + |ArgBlock(args)| + i * 8, a * 4096 + hhdm + |ArgBlock(args[..i])|;
    LoadStore(m, at, v, at);
    forall j: nat | j <= i
      ensures PointerAt(Store64(m, at, v), a, hhdm, args, j)
    {
      if j < i {
        assert PointerAt(m, a, hhdm, args, j);
        LoadStore(m, at, v, a * 4096 + |ArgBlock(args)| + j * 8);
      }
    }
  }

  /** The pointers depend on the argument frame only. */
  lemma PointersStay(s: Snap, t: Snap, a: nat, hhdm: nat, args: seq<seq<byte>>)
    requires ArgPointers(s.m, a, hhdm, args, |args|) && Owned(s, a, 1) && Evolved(s, t) && |ArgBlock(args)| + 8 * |args| <= 4096
    ensures ArgPointers(t.m, a, hhdm, args, |args|)
  {
    assert a in s.used && !IsTable(s.t, a);
    assert Untouched(s, t, a);
    hide ArgBlock, Load64;
    forall j: nat | j < |args|
      ensures PointerAt(t.m, a, hhdm, args, j)
    {
      assert PointerAt(s.m, a, hhdm, args, j);
      LoadSame(s.m, t.m, a * 4096 + |ArgBlock(args)| + j * 8);
    }
  }

  /** Writes the argument strings and after them one pointer to each. */
  method WriteArgs(k: Kernel, a: nat, args: seq<seq<byte>>)
    requires HasFrame(k.mem[..], a) && |ArgBlock(args)| + 8 * |args| <= 4096
    modifies k.mem
    ensures OutsideSame(old(k.mem[..]), k.mem[..], a, 1)
    ensures Holds(k.mem[..], a * 4096, args, |args|)
    ensures k.hhdm + k.mem.Length <= TWO64 ==> ArgPointers(k.mem[..], a, k.hhdm, args, |args|)
  {
    hide ArgBlock, Holds, ArgPointers;
    ghost var m0 := k.mem[..];
    var argSize := WriteStrings(k, a, args);
    var hitherto: nat := 0;
    var i := 0;
    NoPointers(k.mem[..], a, k.hhdm, args);
    while i < |args|
      invariant 0 <= i <= |args| && hitherto == |ArgBlock(args[..i])|
      invariant OutsideSame(m0, k.mem[..], a, 1) && Holds(k.mem[..], a * 4096, args, |args|)
      invariant k.hhdm + k.mem.Length <= TWO64 ==> ArgPointers(k.mem[..], a, k.hhdm, args, i)
    {
      if k.hhdm + k.mem.Length <= TWO64 {
        NextPointer(k.mem[..], a, k.hhdm, args, i);
      }
      ArgStart(args, i);
      PointerStep(m0, k.mem[..], a, args, a * 4096 + argSize + i * 8, a * 4096 + k.hhdm + hitherto);
      StoreWord(k.mem, a * 4096 + argSize + i * 8, a * 4096 + k.hhdm + hitherto);
      hitherto := hitherto + |args[i]| + 1;
      i := i + 1;
    }
  }

  // ----- the process ----------------------------------------------------------------

  /** The interrupt controllers every process has mapped: a physical and a virtual address. */
  datatype Devices = Devices(ioapic: nat, lapic: nat)

  /** The controllers are page-aligned and are mapped in the upper half of the address space. */
  predicate DevicesFit(d: Devices, hhdm: nat) {
    && d.ioapic % 4096 == 0 && d.ioapic <= 0x10_0000_0000_0000 && Vpn(d.ioapic + hhdm) >= HALF
    && hhdm <= d.lapic <= hhdm + 0x10_0000_0000_0000 && (d.lapic - hhdm) % 4096 == 0 && Vpn(d.lapic) >= HALF
  }

  /** The finished memory of a process: image, stack, and the argument page with the strings in it. */
  ghost predicate ProcessReady(s: Snap, root: nat, f: nat, n: nat, v0: nat, ph: seq<ProgramHeader>, file: seq<byte>, a: nat, args: seq<seq<byte>>)
    requires FitsFile(ph, file)
  {
    && ImageReady(s, root, f, n, v0, ph, file)
    && StackMapped(s.m, root, s.used, Vpn(USER_STACK_ADDR), USER_FLAGS)
    && ArgPages(s.m, root, a)
    && Holds(s.m, a * 4096, args, |args|)
  }

  /** The two argument pages show frame `a` and the one after it. */
  ghost predicate ArgPages(m: seq<byte>, root: nat, a: nat) {
    && Walk(m, root, 4, Vpn(ARGV_DATA_ADDR)) == a * 4096 + USER_FLAGS
    && Walk(m, root, 4, Vpn(ARGV_DATA_ADDR) + 1) == (a + 1) * 4096 + USER_FLAGS
  }

  /** Where the fixed parts of a process lie. */
  lemma Layout()
    ensures Vpn(USER_STACK_ADDR) == 0x6_FFFF_FFFE && Vpn(ARGV_DATA_ADDR) == 0x7_0000_0001
  {
  }

  /** Maps the image: the pages of `v0` on now show its frames. */
  lemma ImageBecomesReady(secs: seq<Section>, root: nat, s0: Snap, s: Snap, f: nat, n: nat, v0: nat, ph: seq<ProgramHeader>, file: seq<byte>)
    requires FitsFile(ph, file) && Owned(s0, f, n) && (f + n) * 4096 <= |s0.m| && Loaded(s0.m, f, n, ph, file, |ph|, v0)
    requires Progress(secs, root, s0, s, v0 / 4096, Linear(f * 4096, USER_FLAGS, n), {}) && v0 / 4096 + n <= VPAGES
    ensures ImageReady(s, root, f, n, v0, ph, file)
  {
    hide Walk, FitsFile, ImageByte;
    CallLeaves(secs, root, s0, s, v0 / 4096, Linear(f * 4096, USER_FLAGS, n), {}, f, n, 0, 0);
    forall v | v0 / 4096 <= v < v0 / 4096 + n
      ensures Walk(s.m, root, 4, v) == (f + (v - v0 / 4096)) * 4096 + USER_FLAGS
    {
      ProgressLeaf(secs, root, s0, s, v0 / 4096, Linear(f * 4096, USER_FLAGS, n), {}, v);
    }
    hide Progress;
    forall x | f * 4096 <= x < (f + n) * 4096
      ensures s.m[x] == ImageByte(ph, file, |ph|, x - f * 4096 + v0)
    {
      assert s.m[x] == s0.m[x];
    }
  }

  /** What a process under construction has besides its image once it has a stack. */
  ghost predicate StackReady(s: Snap, root: nat) {
    StackMapped(s.m, root, s.used, Vpn(USER_STACK_ADDR), USER_FLAGS)
  }

  lemma StackStep(secs: seq<Section>, root: nat, s0: Snap, s: Snap, w: seq<nat>, pages: set<nat>,
                  f: nat, n: nat, v0: nat, ph: seq<ProgramHeader>, file: seq<byte>)
    requires FitsFile(ph, file) && ImageReady(s0, root, f, n, v0, ph, file) && v0 / 4096 + n <= Vpn(USER_STACK_ADDR)
    requires Progress(secs, root, s0, s, Vpn(USER_STACK_ADDR), w, pages) && Backed(w, USER_FLAGS, pages) && |w| == 2
    ensures ImageReady(s, root, f, n, v0, ph, file) && StackReady(s, root)
  {
    hide Walk, FitsFile, Progress, Backed, Loaded, MapsTo;
    Layout();
    CallLeaves(secs, root, s0, s, Vpn(USER_STACK_ADDR), w, pages, f, n, 0, Vpn(USER_STACK_ADDR));
    ImageStays(root, s0, s, f, n, v0, ph, file, 0, Vpn(USER_STACK_ADDR));
    StackPagesMapped(secs, root, s0, s, Vpn(USER_STACK_ADDR), w, pages, USER_FLAGS);
  }

  lemma ArgFrameStep(secs: seq<Section>, root: nat, s0: Snap, m: seq<byte>, used: set<nat>, a: nat,
                     f: nat, n: nat, v0: nat, ph: seq<ProgramHeader>, file: seq<byte>)
    requires FitsFile(ph, file) && ImageReady(s0, root, f, n, v0, ph, file) && v0 / 4096 + n <= Vpn(USER_STACK_ADDR)
    requires Inv(secs, root, s0) && StackReady(s0, root) && Pmm.Grants(s0.m, s0.used, secs, m, used, a, 1) && Pmm.Packed(secs, s0.used, a)
    ensures Inv(secs, root, Snap(m, used, s0.t))
    ensures ImageReady(Snap(m, used, s0.t), root, f, n, v0, ph, file) && StackReady(Snap(m, used, s0.t), root)
    ensures Owned(Snap(m, used, s0.t), a, 1) && !(f <= a < f + n) && HasFrame(m, a) && a * 4096 <= 0x10_0000_0000_0000
  {
    hide Walk, FitsFile, Loaded, MapsTo;
    Layout();
    GrantLeaves(secs, root, s0, m, used, a, f, n);
    ImageStays(root, s0, Snap(m, used, s0.t), f, n, v0, ph, file, 0, VPAGES);
    StackStays(root, s0, Snap(m, used, s0.t), Vpn(USER_STACK_ADDR), USER_FLAGS, 0, VPAGES);
  }

  lemma ArgMapStep(secs: seq<Section>, root: nat, s0: Snap, s: Snap, a: nat,
                   f: nat, n: nat, v0: nat, ph: seq<ProgramHeader>, file: seq<byte>)
    requires FitsFile(ph, file) && ImageReady(s0, root, f, n, v0, ph, file) && v0 / 4096 + n <= Vpn(USER_STACK_ADDR)
    requires StackReady(s0, root) && Owned(s0, a, 1) && HasFrame(s0.m, a)
    requires Progress(secs, root, s0, s, Vpn(ARGV_DATA_ADDR), Linear(a * 4096, USER_FLAGS, 2), {})
    ensures ImageReady(s, root, f, n, v0, ph, file) && StackReady(s, root) && Owned(s, a, 1) && HasFrame(s.m, a)
    ensures ArgPages(s.m, root, a)
  {
    hide Walk, FitsFile, Progress, Loaded, MapsTo;
    Layout();
    var c := Vpn(ARGV_DATA_ADDR);
    CallLeaves(secs, root, s0, s, c, Linear(a * 4096, USER_FLAGS, 2), {}, f, n, 0, c);
    CallLeaves(secs, root, s0, s, c, Linear(a * 4096, USER_FLAGS, 2), {}, a, 1, 0, c);
    ImageStays(root, s0, s, f, n, v0, ph, file, 0, c);
    StackStays(root, s0, s, Vpn(USER_STACK_ADDR), USER_FLAGS, 0, c);
    ProgressLeaf(secs, root, s0, s, c, Linear(a * 4096, USER_FLAGS, 2), {}, c);
    ProgressLeaf(secs, root, s0, s, c, Linear(a * 4096, USER_FLAGS, 2), {}, c + 1);
  }

  lemma ArgWriteStep(secs: seq<Section>, root: nat, s0: Snap, m: seq<byte>, a: nat, args: seq<seq<byte>>,
                     f: nat, n: nat, v0: nat, ph: seq<ProgramHeader>, file: seq<byte>)
    requires FitsFile(ph, file) && ImageReady(s0, root, f, n, v0, ph, file) && v0 / 4096 + n <= Vpn(USER_STACK_ADDR)
    requires Inv(secs, root, s0) && StackReady(s0, root) && Owned(s0, a, 1) && !(f <= a < f + n)
    requires ArgPages(s0.m, root, a)
    requires OutsideSame(s0.m, m, a, 1) && Holds(m, a * 4096, args, |args|)
    ensures Inv(secs, root, Snap(m, s0.used, s0.t))
    ensures ProcessReady(Snap(m, s0.used, s0.t), root, f, n, v0, ph, file, a, args)
  {
    hide Walk, FitsFile, Inv, Loaded, MapsTo, Holds;
    Layout();
    var s := Snap(m, s0.used, s0.t);
    WriteLeaves(secs, root, s0, m, a, f, n);
    ImageStays(root, s0, s, f, n, v0, ph, file, 0, VPAGES);
    StackStays(root, s0, s, Vpn(USER_STACK_ADDR), USER_FLAGS, 0, VPAGES);
    assert Walk(m, root, 4, Vpn(ARGV_DATA_ADDR)) == Walk(s0.m, root, 4, Vpn(ARGV_DATA_ADDR));
    assert Walk(m, root, 4, Vpn(ARGV_DATA_ADDR) + 1) == Walk(s0.m, root, 4, Vpn(ARGV_DATA_ADDR) + 1);
  }

  lemma ApicStep(secs: seq<Section>, root: nat, s0: Snap, s: Snap, at: nat, w: seq<nat>, a: nat, args: seq<seq<byte>>,
                 f: nat, n: nat, v0: nat, ph: seq<ProgramHeader>, file: seq<byte>)
    requires FitsFile(ph, file) && ProcessReady(s0, root, f, n, v0, ph, file, a, args) && v0 / 4096 + n <= Vpn(USER_STACK_ADDR)
    requires Owned(s0, a, 1) && |ArgBlock(args)| <= 4096
    requires Progress(secs, root, s0, s, at, w, {}) && at >= HALF
    ensures ProcessReady(s, root, f, n, v0, ph, file, a, args) && Owned(s, a, 1)
  {
    hide Walk, FitsFile, Progress, Loaded, MapsTo, ArgBlock;
    Layout();
    CallLeaves(secs, root, s0, s, at, w, {}, f, n, 0, HALF);
    CallLeaves(secs, root, s0, s, at, w, {}, a, 1, 0, HALF);
    ImageStays(root, s0, s, f, n, v0, ph, file, 0, HALF);
    StackStays(root, s0, s, Vpn(USER_STACK_ADDR), USER_FLAGS, 0, HALF);
    assert Walk(s.m, root, 4, Vpn(ARGV_DATA_ADDR)) == Walk(s0.m, root, 4, Vpn(ARGV_DATA_ADDR));
    assert Walk(s.m, root, 4, Vpn(ARGV_DATA_ADDR) + 1) == Walk(s0.m, root, 4, Vpn(ARGV_DATA_ADDR) + 1);
    assert args[..|args|] == args;
    assert s.m[a * 4096..a * 4096 + |ArgBlock(args)|] == s0.m[a * 4096..a * 4096 + |ArgBlock(args)|];
  }

  // ----- the kernel's part of the tree ----------------------------------------------

  /** The kernel's image, and memory shifted by `hhdm`, lie in the upper half. */
  predicate KernelHigh(hhdm: nat, im: KernelImage) {
    Vpn(hhdm) >= HALF && Vpn(im.start) >= HALF
  }

  /** The device at physical address `p` is mapped at `hhdm + p`, on no page of the kernel's image or stack. */
  ghost predicate DeviceApart(p: nat, hhdm: nat, im: KernelImage)
    requires ImageFits(im)
  {
    hhdm % 0x1_0000_0000_0000 + p < 0x1_0000_0000_0000 && !KernelPage(im, Vpn(p + hhdm))
  }

  /** Both interrupt controllers are. */
  ghost predicate DevicesApart(d: Devices, hhdm: nat, im: KernelImage)
    requires ImageFits(im) && hhdm <= d.lapic
  {
    DeviceApart(d.ioapic, hhdm, im) && DeviceApart(d.lapic - hhdm, hhdm, im)
  }

  /** The kernel's pages are translated as before. */
  ghost predicate KernelPagesSame(m0: seq<byte>, m: seq<byte>, root: nat, im: KernelImage)
    requires ImageFits(im)
  {
    forall v {:trigger KernelPage(im, v)} :: KernelPage(im, v) ==> Walk(m, root, 4, v) == Walk(m0, root, 4, v)
  }

  lemma KernelPagesKept(m0: seq<byte>, used0: set<nat>, m: seq<byte>, used: set<nat>, root: nat, im: KernelImage)
    requires ImageFits(im) && KernelPagesSame(m0, m, root, im) && used0 <= used
    requires ImageMapped(m0, root, im) && StackMapped(m0, root, used0, Vpn(KERNEL_STACK_ADDR), PRESENT + WRITE)
    ensures ImageMapped(m, root, im) && StackMapped(m, root, used, Vpn(KERNEL_STACK_ADDR), PRESENT + WRITE)
  {
    hide Walk, Vpn;
    assert KernelPage(im, Vpn(KERNEL_STACK_ADDR)) && KernelPage(im, Vpn(KERNEL_STACK_ADDR) + 1);
    forall j | 0 <= j < im.Pages()
      ensures Walk(m, root, 4, Vpn(im.start) + j) == im.Entry(j)
    {
      assert KernelPage(im, Vpn(im.start) + j);
      assert Walk(m0, root, 4, Vpn(im.start) + j) == im.Entry(j);
    }
  }

  lemma BaseStaysBelow(root: nat, s0: Snap, s: Snap, frames: set<nat>, secs: seq<Section>, hhdm: nat, im: KernelImage)
    requires Below(root, s0, s) && KernelHigh(hhdm, im) && SectionsFit(secs, hhdm) && ImageFits(im)
    requires BaseMapped(s0.m, root, frames, secs, hhdm, im)
    ensures BaseMapped(s.m, root, frames, secs, hhdm, im)
  {
    ImageLayout(im);
    forall v: nat | KernelPage(im, v)
      ensures Walk(s.m, root, 4, v) == Walk(s0.m, root, 4, v)
    {
      assert HALF <= v < HALF + HALF;
    }
    hide Walk, Vpn, ImageFits, OthersKept, ImageApart, ImageMapped, StackMapped, KernelPage;
    forall f | InMapped(secs, f)
      ensures SelfMapped(s.m, root, hhdm, secs, f)
    {
      MappedPage(secs, hhdm, f);
      assert SelfMapped(s0.m, root, hhdm, secs, f);
    }
    if ImageApart(im, secs, hhdm) {
      KernelPagesKept(s0.m, frames, s.m, frames, root, im);
    }
  }

  /** Mapping a device page where memory is shifted to agrees with the self-map, should the two meet. */
  lemma BaseStaysDevice(secs: seq<Section>, root: nat, s0: Snap, s: Snap, frames: set<nat>, hhdm: nat, im: KernelImage, p: nat)
    requires Progress(secs, root, s0, s, Vpn(p + hhdm), Linear(p, PRESENT + WRITE, 1), {}) && p % 4096 == 0
    requires SectionsFit(secs, hhdm) && ImageFits(im) && DeviceApart(p, hhdm, im)
    requires BaseMapped(s0.m, root, frames, secs, hhdm, im)
    ensures BaseMapped(s.m, root, frames, secs, hhdm, im)
  {
    ProgressEvolved(secs, root, s0, s, Vpn(p + hhdm), Linear(p, PRESENT + WRITE, 1), {});
    ImageLayout(im);
    hide Walk, Vpn, ImageFits, OthersKept, ImageApart, ImageMapped, StackMapped, Progress, TablesUsed;
    forall v: nat | KernelPage(im, v)
      ensures Walk(s.m, root, 4, v) == Walk(s0.m, root, 4, v)
    {
      ProgressLeaf(secs, root, s0, s, Vpn(p + hhdm), Linear(p, PRESENT + WRITE, 1), {}, v);
    }
    hide KernelPage;
    DeviceSelfMaps(secs, root, s0, s, hhdm, p);
    if ImageApart(im, secs, hhdm) {
      KernelPagesKept(s0.m, frames, s.m, frames, root, im);
    }
  }

  lemma DeviceSelfMaps(secs: seq<Section>, root: nat, s0: Snap, s: Snap, hhdm: nat, p: nat)
    requires Progress(secs, root, s0, s, Vpn(p + hhdm), Linear(p, PRESENT + WRITE, 1), {}) && p % 4096 == 0
    requires SectionsFit(secs, hhdm) && hhdm % 0x1_0000_0000_0000 + p < 0x1_0000_0000_0000
    requires AllSelfMapped(s0.m, root, hhdm, secs)
    ensures AllSelfMapped(s.m, root, hhdm, secs)
  {
    hide Walk, Vpn, Progress;
    ShiftedVpn(hhdm, p);
    forall f | InMapped(secs, f)
      ensures SelfMapped(s.m, root, hhdm, secs, f)
    {
      MappedPage(secs, hhdm, f);
      assert SelfMapped(s0.m, root, hhdm, secs, f);
      ProgressLeaf(secs, root, s0, s, Vpn(p + hhdm), Linear(p, PRESENT + WRITE, 1), {}, Vpn(hhdm) + f);
    }
  }

  // ----- what the user can reach ----------------------------------------------------

  /** A process under construction, before its arguments are mapped. */
  ghost predicate UserPart(secs: seq<Section>, root: nat, s: Snap) {
    SafeUser(secs, root, s) && TablesPacked(secs, s) && ARG_TABLE !in s.t
  }

  lemma ImageUser(secs: seq<Section>, root: nat, s0: Snap, s: Snap, at: nat, f: nat, n: nat)
    requires Clean(secs, root, s0) && 0 < n && at + n <= Vpn(USER_STACK_ADDR) && Owned(s, f, n)
    requires Progress(secs, root, s0, s, at, Linear(f * 4096, USER_FLAGS, n), {}) && Grown(s0, s, at, at + n - 1)
    ensures UserPart(secs, root, s)
  {
    Layout();
    hide Progress, Grown, Vpn, TablesPacked, SafeUser, NoUserLeaf, Owned, Linear, SafeEntries;
    ProgressPacked(secs, root, s0, s, at, Linear(f * 4096, USER_FLAGS, n), {});
    GrownMisses(s0, s, at, at + n - 1);
    NoUserIsSafe(secs, root, s0);
    ImageEntriesSafe(secs, s, f, n);
    ProgressSafe(secs, root, s0, s, at, Linear(f * 4096, USER_FLAGS, n), {});
  }

  lemma NoUserIsSafe(secs: seq<Section>, root: nat, s: Snap)
    requires NoUserLeaf(s.m, root)
    ensures SafeUser(secs, root, s)
  {
    hide Walk, FrameSafe;
  }

  lemma ImageEntriesSafe(secs: seq<Section>, s: Snap, f: nat, n: nat)
    requires Owned(s, f, n)
    ensures SafeEntries(secs, s, Linear(f * 4096, USER_FLAGS, n))
  {
    hide IsTable;
    forall j | 0 <= j < n
      ensures FrameSafe(secs, s, Linear(f * 4096, USER_FLAGS, n)[j] / 4096)
    {
      DivOf(f + j, USER_FLAGS);
      assert Linear(f * 4096, USER_FLAGS, n)[j] == 4096 * (f + j) + USER_FLAGS;
      assert IsTable(s.t, f + j) || !IsTable(s.t, f + j);
    }
  }

  lemma StackUser(secs: seq<Section>, root: nat, s0: Snap, s: Snap, w: seq<nat>, pages: set<nat>)
    requires UserPart(secs, root, s0) && Backed(w, USER_FLAGS, pages)
    requires Progress(secs, root, s0, s, Vpn(USER_STACK_ADDR), w, pages) && Grown(s0, s, Vpn(USER_STACK_ADDR), Vpn(USER_STACK_ADDR) + 1)
    ensures UserPart(secs, root, s)
  {
    Layout();
    ProgressPacked(secs, root, s0, s, Vpn(USER_STACK_ADDR), w, pages);
    GrownMisses(s0, s, Vpn(USER_STACK_ADDR), Vpn(USER_STACK_ADDR) + 1);
    hide Progress, Grown, Vpn, TablesPacked, SafeUser, Backed, SafeEntries;
    BackedSafe(secs, root, s0, s, Vpn(USER_STACK_ADDR), w, pages, USER_FLAGS);
    ProgressSafe(secs, root, s0, s, Vpn(USER_STACK_ADDR), w, pages);
  }

  /** The frame after the argument frame, when it is free, becomes a table: mapping the two argument pages needs one, and takes the first free frame. */
  lemma SpillBecomesTable(secs: seq<Section>, root: nat, s1: Snap, s2: Snap, s3: Snap, a: nat)
    requires ARG_TABLE !in s2.t && Pmm.BlockAtFirstRun(secs, s1.used, 1, a * 4096) && s2.used == s1.used + {a}
    requires Progress(secs, root, s2, s3, Vpn(ARGV_DATA_ADDR), Linear(a * 4096, USER_FLAGS, 2), {})
    requires FreeFrame(secs, s1.used, a + 1)
    ensures IsTable(s3.t, a + 1)
  {
    Layout();
    UpThree(Vpn(ARGV_DATA_ADDR));
    assert On(3, Vpn(ARGV_DATA_ADDR)) == ARG_TABLE;
    hide TreeOk, Linear, OthersKept, LeavesAre, CleanPages, Pmm.Packed, Pmm.BlockAtFirstRun, FreeFrame, Pmm.Represents;
    assert ARG_TABLE in s3.t && s3.t[ARG_TABLE] !in s2.used && s3.t[ARG_TABLE] in s3.used;
    assert TakenFor(secs, s2, s3, {}, s3.t[ARG_TABLE]);
    NextIsTaken(secs, |s3.m|, s1.used, s3.used, a, s3.t[ARG_TABLE]);
    assert TakenFor(secs, s2, s3, {}, a + 1);
    NotTaken(secs, s1.used, a);
  }

  lemma NotTaken(secs: seq<Section>, used: set<nat>, a: nat)
    requires FreeFrame(secs, used, a + 1)
    ensures a + 1 !in used + {a}
  {
  }

  /** Otherwise it holds no table and never will. */
  lemma NoSpillIsSafe(secs: seq<Section>, root: nat, s1: Snap, s3: Snap, a: nat)
    requires TablesPacked(secs, s1) && Pmm.BlockAtFirstRun(secs, s1.used, 1, a * 4096) && Inv(secs, root, s3) && Evolved(s1, s3)
    requires !FreeFrame(secs, s1.used, a + 1)
    ensures FrameSafe(secs, s3, a + 1)
  {
    if Pmm.Trackable(secs, a + 1) {
      NextNotPacked(secs, |s3.m|, s1.used, a);
      forall n | n in s1.t
        ensures s1.t[n] != a + 1
      {
        assert Pmm.Packed(secs, s1.used, s1.t[n]);
      }
      hide TablesPacked, Pmm.BlockAtFirstRun, Pmm.Packed, Inv, Evolved, Pmm.Trackable;
      SafeStays(secs, root, s1, s3, a + 1);
    } else {
      hide TreeOk, OthersKept, Pmm.BlockAtFirstRun, TablesPacked, Pmm.Represents;
      forall n | n in s3.t
        ensures s3.t[n] != a + 1
      {
        assert s3.t[n] in s3.used;
        assert Pmm.Trackable(secs, s3.t[n]);
      }
    }
  }

  lemma ArgsUser(secs: seq<Section>, root: nat, s1: Snap, s2: Snap, s3: Snap, a: nat)
    requires UserPart(secs, root, s1) && Inv(secs, root, s1) && Pmm.BlockAtFirstRun(secs, s1.used, 1, a * 4096) && s2.t == s1.t
    requires Pmm.Grants(s1.m, s1.used, secs, s2.m, s2.used, a, 1) && Pmm.Packed(secs, s1.used, a)
    requires Progress(secs, root, s2, s3, Vpn(ARGV_DATA_ADDR), Linear(a * 4096, USER_FLAGS, 2), {}) && Owned(s3, a, 1)
    requires Evolved(s1, s3)
    ensures if FreeFrame(secs, s1.used, a + 1) then IsTable(s3.t, a + 1) else SafeUser(secs, root, s3)
  {
    hide Progress, Walk, Vpn, TablesPacked, SafeUser, Pmm.BlockAtFirstRun, FreeFrame, Pmm.Packed, Pmm.PmmInv, TreeOk, IsTable, Evolved, FrameSafe, TablesUsed;
    GrantedOne(secs, s1.m, s1.used, s2.m, s2.used, a);
    if FreeFrame(secs, s1.used, a + 1) {
      SpillBecomesTable(secs, root, s1, s2, s3, a);
    } else {
      StartProgress(secs, root, s1, 0);
      GrantStep(secs, root, s1, s1, 0, [], {}, s2.m, s2.used, a);
      assert Snap(s2.m, s2.used, s1.t) == s2;
      ProgressSafe(secs, root, s1, s2, 0, [], {} + {a});
      ProgressParts(secs, root, s2, s3, Vpn(ARGV_DATA_ADDR), Linear(a * 4096, USER_FLAGS, 2), {});
      NoSpillIsSafe(secs, root, s1, s3, a);
      ArgEntriesSafe(secs, s3, a);
      ProgressSafe(secs, root, s2, s3, Vpn(ARGV_DATA_ADDR), Linear(a * 4096, USER_FLAGS, 2), {});
    }
  }

  lemma GrantedOne(secs: seq<Section>, m: seq<byte>, used: set<nat>, m': seq<byte>, used': set<nat>, a: nat)
    requires Pmm.Grants(m, used, secs, m', used', a, 1)
    ensures used' == used + {a}
  {
    assert used' == used + Pmm.Frames(a, 1);
    assert Pmm.Frames(a, 1) == {a};
  }

  lemma ArgEntriesSafe(secs: seq<Section>, s: Snap, a: nat)
    requires Owned(s, a, 1) && FrameSafe(secs, s, a + 1)
    ensures SafeEntries(secs, s, Linear(a * 4096, USER_FLAGS, 2))
  {
    DivOf(a, USER_FLAGS);
    DivOf(a + 1, USER_FLAGS);
    assert a in s.used && !IsTable(s.t, a);
    assert Linear(a * 4096, USER_FLAGS, 2)[0] == 4096 * a + USER_FLAGS && Linear(a * 4096, USER_FLAGS, 2)[1] == 4096 * (a + 1) + USER_FLAGS;
  }

  lemma WriteUser(secs: seq<Section>, root: nat, s: Snap, m: seq<byte>, a: nat)
    requires Inv(secs, root, s) && OutsideSame(s.m, m, a, 1) && Owned(s, a, 1)
    ensures SafeUser(secs, root, s) ==> SafeUser(secs, root, Snap(m, s.used, s.t))
  {
    hide Walk, Inv, OutsideSame;
    assert Owned(s, a + 1, 0);
    WriteLeaves(secs, root, s, m, a, a + 1, 0);
    var t := Snap(m, s.used, s.t);
    if SafeUser(secs, root, s) {
      forall v | 0 <= v < VPAGES && PageTree.Grants(Walk(t.m, root, 4, v), User)
        ensures FrameSafe(secs, t, Walk(t.m, root, 4, v) / 4096)
      {
        assert Walk(t.m, root, 4, v) == Walk(s.m, root, 4, v);
        assert FrameSafe(secs, s, Walk(s.m, root, 4, v) / 4096);
      }
    }
  }

  /** A device page is not the user's. */
  lemma DeviceUser(secs: seq<Section>, root: nat, s0: Snap, s: Snap, at: nat, p: nat)
    requires Progress(secs, root, s0, s, at, Linear(p, PRESENT + WRITE, 1), {}) && p % 4096 == 0
    ensures SafeUser(secs, root, s0) ==> SafeUser(secs, root, s)
  {
    hide Progress, SafeUser;
    LinearNoUser(p, PRESENT + WRITE, 1);
    if SafeUser(secs, root, s0) {
      ProgressSafe(secs, root, s0, s, at, Linear(p, PRESENT + WRITE, 1), {});
    }
  }

  /** When it is a table, user code can write it. */
  lemma SpillIsSeen(secs: seq<Section>, root: nat, s: Snap, a: nat)
    requires Inv(secs, root, s) && ArgPages(s.m, root, a) && IsTable(s.t, a + 1)
    ensures UserTablePage(root, s, Vpn(ARGV_DATA_ADDR) + 1) && WalkGrants(s.m, root, 4, Vpn(ARGV_DATA_ADDR) + 1, Right.Write)
  {
    Layout();
    hide Vpn, TreeOk, TablesUsed, Pmm.PmmInv, WalkGrants, Walk, IsTable;
    DivOf(a + 1, USER_FLAGS);
    UserRights(s.m, root, s.t, Vpn(ARGV_DATA_ADDR) + 1, a + 1);
  }

  lemma UserRights(m: seq<byte>, root: nat, t: Tables, v: nat, f: nat)
    requires TreeOk(m, root, t) && v < VPAGES && Walk(m, root, 4, v) == f * 4096 + USER_FLAGS
    ensures WalkGrants(m, root, 4, v, Present) && WalkGrants(m, root, 4, v, User) && WalkGrants(m, root, 4, v, Right.Write)
  {
    hide TreeOk, WalkGrants, Walk, Leaf;
    WalkFindsLeaf(m, root, t, v);
    RightsAreLeafFlags(m, root, t, v, Present);
    RightsAreLeafFlags(m, root, t, v, User);
    RightsAreLeafFlags(m, root, t, v, Right.Write);
    AlignedKeepsFlags(f, USER_FLAGS, Present);
    AlignedKeepsFlags(f, USER_FLAGS, User);
    AlignedKeepsFlags(f, USER_FLAGS, Right.Write);
  }

  // ----- what a process takes -------------------------------------------------------

  /** The tables below the root on the paths of the image. */
  ghost function LoadNodes(v0: nat, n: nat): set<Node> {
    if n == 0 then {} else AllTouched(v0 / 4096, n)
  }

  ghost function StackNodes(): set<Node> {
    AllTouched(Vpn(USER_STACK_ADDR), KERNEL_STACK_PAGES)
  }

  ghost function ArgNodes(): set<Node> {
    AllTouched(Vpn(ARGV_DATA_ADDR), 2)
  }

  ghost function DeviceNodes(d: Devices, hhdm: nat): set<Node> {
    AllTouched(Vpn(d.ioapic + hhdm), 1) + AllTouched(Vpn(d.lapic), 1)
  }

  /** All tables of a new tree with an image of `n` pages from address `v0` on. */
  ghost function ImageTreeNodes(secs: seq<Section>, hhdm: nat, im: KernelImage, v0: nat, n: nat): set<Node>
    requires ImageFits(im)
  {
    NewTreeNodes(secs, hhdm, im) + LoadNodes(v0, n)
  }

  /** All tables of a process when it has its stack, and when it has its arguments. */
  ghost function StackTreeNodes(secs: seq<Section>, hhdm: nat, im: KernelImage, v0: nat, n: nat): set<Node>
    requires ImageFits(im)
  {
    ImageTreeNodes(secs, hhdm, im, v0, n) + StackNodes()
  }

  ghost function ArgTreeNodes(secs: seq<Section>, hhdm: nat, im: KernelImage, v0: nat, n: nat): set<Node>
    requires ImageFits(im)
  {
    StackTreeNodes(secs, hhdm, im, v0, n) + ArgNodes()
  }

  /** All tables of a process. */
  ghost function ProcessNodes(secs: seq<Section>, hhdm: nat, im: KernelImage, d: Devices, v0: nat, n: nat): set<Node>
    requires ImageFits(im)
  {
    ArgTreeNodes(secs, hhdm, im, v0, n) + DeviceNodes(d, hhdm)
  }

  /** The pages of a process besides its image: the kernel's stack, its own, and one for the arguments. */
  const PROCESS_PAGES := 2 * KERNEL_STACK_PAGES + 1

  /** The image can be had in a row, no mapped section is shorter than a page, and enough frames are free for image, tables and pages. */
  ghost predicate SpawnFits(secs: seq<Section>, hhdm: nat, im: KernelImage, d: Devices, v0: nat, n: nat, used: set<nat>)
    requires ImageFits(im)
  {
    && 0 < n && !Pmm.NoRun(secs, used, n) && AllPaged(secs)
    && |used| + n + |ProcessNodes(secs, hhdm, im, d, v0, n)| + PROCESS_PAGES <= |PmmRuns.Capacity(secs)|
  }

  /** A process was not started: a mapped section is shorter than a page, or frames ran out, and were too few from the start. */
  ghost predicate Failed(secs: seq<Section>, s0: Snap, used: set<nat>, nodes: set<Node>, pages: nat) {
    AllPaged(secs) ==> Pmm.NoRun(secs, used, 1) && Short(secs, s0, nodes, pages)
  }

  /** One more part of a process: it is added, or there was not enough for all. */
  lemma PartAdded(secs: seq<Section>, r: Outcome, a: Snap, b: Snap, c: Snap, n: set<Node>, p: nat, n': set<Node>, p': nat, all: set<Node>, pages: nat)
    requires Reached(secs, a, b, n, p) && Settled(secs, true, r, b, c, n', p') && TablesUsed(a)
    requires n + n' <= all && p + p' <= pages
    ensures if r == Done then Reached(secs, a, c, n + n', p + p') else Since(secs, a, c) && Failed(secs, a, c.used, all, pages)
  {
    hide Reached, Settled, Pmm.NoRun, TablesUsed, Short, Since, AllPaged;
    SettledThen(secs, true, r, a, b, c, n, p, n', p');
    if r == Done {
      SettledDone(secs, true, a, c, n + n', p + p');
    } else {
      SettledMore(secs, true, true, r, a, c, n + n', p + p', all, pages);
      SettledFailed(secs, r, a, c, all, pages);
    }
  }

  lemma SettledFailed(secs: seq<Section>, r: Outcome, a: Snap, c: Snap, all: set<Node>, pages: nat)
    requires Settled(secs, true, r, a, c, all, pages) && r != Done
    ensures Since(secs, a, c) && Failed(secs, a, c.used, all, pages)
  {
    hide Since, Short, Pmm.NoRun, AllPaged;
  }

  /** The first part of a process: a new tree with the image mapped. */
  method MapImage(k: Kernel, im: KernelImage, f: nat, n: nat, v0: nat, ghost ph: seq<ProgramHeader>, ghost file: seq<byte>) returns (r: Outcome, sp: AddressSpace)
    requires Pmm.Ready(k) && ImageFits(im) && SectionsFit(k.sections, k.hhdm) && k.mem.Length <= 0x10_0000_0000_0000
    requires FitsFile(ph, file) && Held(k.sections, k.used, f, n) && (f + n) * 4096 <= k.mem.Length
    requires Loaded(k.mem[..], f, n, ph, file, |ph|, v0) && 0 < n && v0 / 4096 + n <= Vpn(USER_STACK_ADDR)
    modifies k`totalMemoryAllocated, k`used, k.mem
    ensures Pmm.Ready(k) && fresh(sp)
    ensures r == Done ==> Valid(k, sp) && ImageReady(Now(k, sp), sp.root, f, n, v0, ph, file)
    ensures UsedKept(old(k.mem[..]), old(k.used), k.mem[..]) && old(k.used) <= k.used
    ensures r == Done ==> Reached(k.sections, Bare(old(k.mem[..]), old(k.used)), Now(k, sp), ImageTreeNodes(k.sections, k.hhdm, im, v0, n), KERNEL_STACK_PAGES)
    ensures r == Done ==> AllPaged(k.sections) && TablesAreNew(sp.tables, old(k.used))
    ensures r != Done ==> Failed(k.sections, Bare(old(k.mem[..]), old(k.used)), k.used, ImageTreeNodes(k.sections, k.hhdm, im, v0, n), KERNEL_STACK_PAGES)
    ensures r == Done && KernelHigh(k.hhdm, im) ==> BaseMapped(k.mem[..], sp.root, k.used - old(k.used), k.sections, k.hhdm, im)
    ensures r == Done ==> BaseAndImage(k.mem[..], sp.root, k.sections, k.hhdm, im, v0 / 4096, n)
    ensures r == Done && Private(k.sections, k.hhdm, im) ==> UserWithin(k.mem[..], sp.root, v0 / 4096, n)
    ensures r == Done && Private(k.sections, k.hhdm, im) ==> UserPart(k.sections, sp.root, Now(k, sp))
  {
    hide Walk, FitsFile, Inv, Pmm.PmmInv, Progress, Loaded, BaseMapped, ImageFits, SectionsFit, Held, Owned, Linear, Pmm.NoRun, Grown, UsedKept, TablesAreNew, Below, Evolved, KernelHigh, Clean, UserPart, Private, SectionLeaves, AllPaged, Short, Reached, Settled, NewTreeNodes, PathMissing, AllTouched, BaseOnly, BaseAndImage, UserWithin, NoUserLeaf;
    Layout();
    ghost var m0, used0 := k.mem[..], k.used;
    r, sp := InitPagingTask(k, im);
    if r != Done {
      NoTree(k.sections, m0, used0, k.used, r, k.hhdm, im, v0, n);
      return;
    }
    ghost var s0 := Now(k, sp);
    HeldRegion(k.sections, m0, used0, s0, f, n, ph, file, v0);
    LowVpn(v0);
    ModOf(f, 0);
    hide Low, Vpn;
    ghost var done;
    r, done := MapPages(k, sp, v0, f * 4096, n, USER_FLAGS);
    MapSettles(k, sp, r, s0, v0 / 4096, Linear(f * 4096, USER_FLAGS, done), n);
    ImagePart(k.sections, r, m0, used0, s0, Now(k, sp), k.hhdm, im, v0, n);
    if r != Done { return; }
    ImageBecomesReady(k.sections, sp.root, s0, Now(k, sp), f, n, v0, ph, file);
    ImageBelow(k.sections, sp.root, m0, used0, s0, Now(k, sp), v0 / 4096, Linear(f * 4096, USER_FLAGS, n));
    ImageOwned(Now(k, sp), sp.root, f, n, v0, ph, file);
    if Private(k.sections, k.hhdm, im) {
      ImageUser(k.sections, sp.root, s0, Now(k, sp), v0 / 4096, f, n);
      CleanNoUser(k.sections, sp.root, s0);
    }
    if KernelHigh(k.hhdm, im) {
      UsedGrows(k.sections, sp.root, s0, Now(k, sp), v0 / 4096, Linear(f * 4096, USER_FLAGS, n));
      BaseStaysBelow(sp.root, s0, Now(k, sp), s0.used - used0, k.sections, k.hhdm, im);
      BaseMore(k.mem[..], sp.root, s0.used - used0, k.used - used0, k.sections, k.hhdm, im);
    }
    ImageOnly(k.sections, sp.root, s0, Now(k, sp), k.hhdm, im, v0 / 4096, f, n);
  }

  /** Nothing but what every tree starts with and `n` pages from `at` on is mapped. */
  ghost predicate BaseAndImage(m: seq<byte>, root: nat, secs: seq<Section>, hhdm: nat, im: KernelImage, at: nat, n: nat)
    requires ImageFits(im)
  {
    forall v {:trigger Walk(m, root, 4, v)} :: 0 <= v < VPAGES && Walk(m, root, 4, v) != 0 ==> at <= v < at + n || KernelPage(im, v) || Shifted(secs, hhdm, v)
  }

  /** No page but those `n` is the user's. */
  ghost predicate UserWithin(m: seq<byte>, root: nat, at: nat, n: nat) {
    forall v {:trigger Walk(m, root, 4, v)} :: 0 <= v < VPAGES && PageTree.Grants(Walk(m, root, 4, v), User) ==> at <= v < at + n
  }

  lemma ImageOnly(secs: seq<Section>, root: nat, s0: Snap, s: Snap, hhdm: nat, im: KernelImage, at: nat, f: nat, n: nat)
    requires ImageFits(im) && BaseOnly(s0.m, root, secs, hhdm, im)
    requires Progress(secs, root, s0, s, at, Linear(f * 4096, USER_FLAGS, n), {})
    ensures BaseAndImage(s.m, root, secs, hhdm, im, at, n)
    ensures NoUserLeaf(s0.m, root) ==> UserWithin(s.m, root, at, n)
  {
    hide Progress, Walk, ImageFits, KernelPage, Shifted;
    forall v | 0 <= v < VPAGES && !(at <= v < at + n)
      ensures Walk(s.m, root, 4, v) == Walk(s0.m, root, 4, v)
    {
      ProgressLeaf(secs, root, s0, s, at, Linear(f * 4096, USER_FLAGS, n), {}, v);
    }
  }

  lemma CleanNoUser(secs: seq<Section>, root: nat, s: Snap)
    requires Clean(secs, root, s)
    ensures NoUserLeaf(s.m, root)
  {
  }

  lemma NoTree(secs: seq<Section>, m0: seq<byte>, used0: set<nat>, used: set<nat>, r: Outcome, hhdm: nat, im: KernelImage, v0: nat, n: nat)
    requires ImageFits(im) && (r == NoFrames ==> Pmm.NoRun(secs, used, 1)) && (r == NoVirtual ==> !AllPaged(secs)) && r != Done
    requires AllPaged(secs) ==> Short(secs, Bare(m0, used0), NewTreeNodes(secs, hhdm, im), KERNEL_STACK_PAGES)
    ensures Failed(secs, Bare(m0, used0), used, ImageTreeNodes(secs, hhdm, im, v0, n), KERNEL_STACK_PAGES)
  {
    hide Pmm.NoRun, AllPaged, Short, NewTreeNodes, ImageFits, LoadNodes;
    if AllPaged(secs) {
      ShortMore(secs, Bare(m0, used0), NewTreeNodes(secs, hhdm, im), KERNEL_STACK_PAGES, ImageTreeNodes(secs, hhdm, im, v0, n), KERNEL_STACK_PAGES);
    }
  }

  lemma ImagePart(secs: seq<Section>, r: Outcome, m0: seq<byte>, used0: set<nat>, s0: Snap, s: Snap, hhdm: nat, im: KernelImage, v0: nat, n: nat)
    requires ImageFits(im) && n > 0 && Reached(secs, Bare(m0, used0), s0, NewTreeNodes(secs, hhdm, im), KERNEL_STACK_PAGES)
    requires Settled(secs, true, r, s0, s, AllTouched(v0 / 4096, n), 0)
    ensures UsedKept(m0, used0, s.m) && used0 <= s.used
    ensures if r == Done then Reached(secs, Bare(m0, used0), s, ImageTreeNodes(secs, hhdm, im, v0, n), KERNEL_STACK_PAGES)
      else Failed(secs, Bare(m0, used0), s.used, ImageTreeNodes(secs, hhdm, im, v0, n), KERNEL_STACK_PAGES)
  {
    hide Reached, Settled, NewTreeNodes, ImageFits, AllTouched, UsedKept, Failed, Since;
    var all := ImageTreeNodes(secs, hhdm, im, v0, n);
    PartAdded(secs, r, Bare(m0, used0), s0, s, NewTreeNodes(secs, hhdm, im), KERNEL_STACK_PAGES, AllTouched(v0 / 4096, n), 0, all, KERNEL_STACK_PAGES);
    if r == Done {
      ReachedSince(secs, Bare(m0, used0), s, all, KERNEL_STACK_PAGES);
    }
    SinceBare(secs, m0, used0, s);
  }

  lemma ReachedSince(secs: seq<Section>, a: Snap, s: Snap, nodes: set<Node>, pages: nat)
    requires Reached(secs, a, s, nodes, pages)
    ensures Since(secs, a, s)
  {
  }

  lemma ImageOwned(s: Snap, root: nat, f: nat, n: nat, v0: nat, ph: seq<ProgramHeader>, file: seq<byte>)
    requires FitsFile(ph, file) && ImageReady(s, root, f, n, v0, ph, file)
    ensures Owned(s, f, n)
  {
    hide FitsFile, Owned, Loaded, MapsTo;
  }

  lemma ImageBelow(secs: seq<Section>, root: nat, m0: seq<byte>, used0: set<nat>, s0: Snap, s: Snap, at: nat, w: seq<nat>)
    requires Progress(secs, root, s0, s, at, w, {}) && at + |w| <= HALF
    requires UsedKept(m0, used0, s0.m) && used0 <= s0.used && TablesAreNew(s0.t, used0)
    ensures Below(root, s0, s) && UsedKept(m0, used0, s.m) && used0 <= s.used && TablesAreNew(s.t, used0)
  {
    CallBelow(secs, root, s0, s, at, w, {});
    hide Progress;
    EvolvedKeepsUsed(m0, used0, s0, s);
    hide OthersKept;
  }

  lemma LowVpn(a: nat)
    ensures a / 4096 < VPAGES ==> Vpn(a) == a / 4096
  {
  }

  lemma HeldRegion(secs: seq<Section>, m0: seq<byte>, used0: set<nat>, s: Snap, f: nat, n: nat, ph: seq<ProgramHeader>, file: seq<byte>, v0: nat)
    requires Held(secs, used0, f, n) && UsedKept(m0, used0, s.m) && used0 <= s.used && TablesAreNew(s.t, used0)
    requires FitsFile(ph, file) && (f + n) * 4096 <= |m0| && Loaded(m0, f, n, ph, file, |ph|, v0) && n > 0
    ensures Owned(s, f, n) && (f + n) * 4096 <= |s.m| && Loaded(s.m, f, n, ph, file, |ph|, v0)
  {
    hide ImageByte, FitsFile;
    assert Same(m0, s.m, f * 4096, 4096);
    forall x | f * 4096 <= x < (f + n) * 4096
      ensures s.m[x] == ImageByte(ph, file, |ph|, x - f * 4096 + v0)
    {
      assert Same(m0, s.m, x / 4096 * 4096, 4096);
      assert m0[x] == ImageByte(ph, file, |ph|, x - f * 4096 + v0);
    }
  }

  /** The two pages of the user stack show clear frames that hold no table. */
  ghost predicate StackClear(s0: Snap, s: Snap, root: nat) {
    && CleanPage(s0, s, Walk(s.m, root, 4, Vpn(USER_STACK_ADDR)) / 4096)
    && CleanPage(s0, s, Walk(s.m, root, 4, Vpn(USER_STACK_ADDR) + 1) / 4096)
  }

  lemma StackIsClear(secs: seq<Section>, root: nat, s0: Snap, s: Snap, w: seq<nat>, pages: set<nat>)
    requires Progress(secs, root, s0, s, Vpn(USER_STACK_ADDR), w, pages) && Backed(w, USER_FLAGS, pages) && |w| == 2
    ensures StackClear(s0, s, root)
  {
    Layout();
    hide Progress, Backed, Walk, ZeroFrame, IsTable, Vpn;
    var at := Vpn(USER_STACK_ADDR);
    AllocPagesTranslates(secs, root, s0, s, at, w, USER_FLAGS, pages, at, at + 1);
    AllocPagesTranslates(secs, root, s0, s, at, w, USER_FLAGS, pages, at + 1, at);
  }

  /** Later steps on the tree that translate the stack as before leave it so. */
  lemma StackStaysClear(root: nat, s0: Snap, s: Snap, t: Snap)
    requires StackClear(s0, s, root) && Evolved(s, t)
    requires Walk(t.m, root, 4, Vpn(USER_STACK_ADDR)) == Walk(s.m, root, 4, Vpn(USER_STACK_ADDR))
    requires Walk(t.m, root, 4, Vpn(USER_STACK_ADDR) + 1) == Walk(s.m, root, 4, Vpn(USER_STACK_ADDR) + 1)
    ensures StackClear(s0, t, root)
  {
    hide Walk, Vpn;
    ClearStays(s0, s, t, Walk(s.m, root, 4, Vpn(USER_STACK_ADDR)) / 4096);
    ClearStays(s0, s, t, Walk(s.m, root, 4, Vpn(USER_STACK_ADDR) + 1) / 4096);
  }

  lemma ClearStays(s0: Snap, s: Snap, t: Snap, f: nat)
    requires CleanPage(s0, s, f) && Evolved(s, t)
    ensures CleanPage(s0, t, f)
  {
    assert Untouched(s, t, f);
  }

  /** The user stack. */
  method AddStack(k: Kernel, sp: AddressSpace, ghost f: nat, ghost n: nat, ghost v0: nat, ghost ph: seq<ProgramHeader>, ghost file: seq<byte>) returns (r: Outcome)
    requires Valid(k, sp) && FitsFile(ph, file) && ImageReady(Now(k, sp), sp.root, f, n, v0, ph, file)
    requires v0 / 4096 + n <= Vpn(USER_STACK_ADDR)
    modifies k`totalMemoryAllocated, k`used, k.mem, sp`tables
    ensures Valid(k, sp)
    ensures Settled(k.sections, true, r, old(Now(k, sp)), Now(k, sp), StackNodes(), KERNEL_STACK_PAGES)
    ensures r == Done ==> ImageReady(Now(k, sp), sp.root, f, n, v0, ph, file) && StackReady(Now(k, sp), sp.root)
    ensures r == Done ==> StackMapped(k.mem[..], sp.root, k.used - old(k.used), Vpn(USER_STACK_ADDR), USER_FLAGS)
    ensures r == Done ==> StackClear(old(Now(k, sp)), Now(k, sp), sp.root) && ElseSame(old(k.mem[..]), k.mem[..], sp.root, Vpn(USER_STACK_ADDR), 2)
    ensures r == Done ==> Below(sp.root, old(Now(k, sp)), Now(k, sp))
    ensures r == Done && UserPart(k.sections, sp.root, old(Now(k, sp))) ==> UserPart(k.sections, sp.root, Now(k, sp))
  {
    hide Walk, FitsFile, Pmm.PmmInv, TreeOk, TablesUsed, Progress, Backed, ImageReady, StackReady, Pmm.NoRun, Grown, Below, UserPart, Settled, AllTouched, StackMapped, StackClear, ElseSame;
    Layout();
    ghost var s0 := Now(k, sp);
    ghost var w, pages;
    r, w, pages := AllocPages(k, sp, USER_STACK_ADDR, KERNEL_STACK_PAGES, USER_FLAGS);
    AllocSettles(k, sp, r, s0, Vpn(USER_STACK_ADDR), w, KERNEL_STACK_PAGES, USER_FLAGS, pages);
    assert r != NoVirtual;
    if r != Done { return; }
    StackStep(k.sections, sp.root, s0, Now(k, sp), w, pages, f, n, v0, ph, file);
    StackPagesNew(k.sections, sp.root, s0, Now(k, sp), Vpn(USER_STACK_ADDR), w, pages, USER_FLAGS);
    StackIsClear(k.sections, sp.root, s0, Now(k, sp), w, pages);
    CallElse(k.sections, sp.root, s0, Now(k, sp), Vpn(USER_STACK_ADDR), w, pages);
    CallBelow(k.sections, sp.root, s0, Now(k, sp), Vpn(USER_STACK_ADDR), w, pages);
    if UserPart(k.sections, sp.root, s0) {
      StackUser(k.sections, sp.root, s0, Now(k, sp), w, pages);
    }
  }

  /** The argument page. */
  method AddArgs(k: Kernel, sp: AddressSpace, args: seq<seq<byte>>,
                 ghost f: nat, ghost n: nat, ghost v0: nat, ghost ph: seq<ProgramHeader>, ghost file: seq<byte>) returns (r: Outcome, a: nat)
    requires Valid(k, sp) && FitsFile(ph, file) && ImageReady(Now(k, sp), sp.root, f, n, v0, ph, file) && StackReady(Now(k, sp), sp.root)
    requires v0 / 4096 + n <= Vpn(USER_STACK_ADDR) && |ArgBlock(args)| + 8 * |args| <= 4096
    modifies k`totalMemoryAllocated, k`used, k.mem, sp`tables
    ensures Pmm.Ready(k)
    ensures Settled(k.sections, true, r, old(Now(k, sp)), Now(k, sp), ArgNodes(), 1)
    ensures r == Done ==> Valid(k, sp) && ProcessReady(Now(k, sp), sp.root, f, n, v0, ph, file, a, args) && Owned(Now(k, sp), a, 1)
    ensures r == Done ==> Pmm.BlockAtFirstRun(k.sections, old(k.used), 1, a * 4096)
    ensures r == Done && UserPart(k.sections, sp.root, old(Now(k, sp))) ==>
      if FreeFrame(k.sections, old(k.used), a + 1) then IsTable(sp.tables, a + 1) else SafeUser(k.sections, sp.root, Now(k, sp))
    ensures r == Done ==> a !in old(k.used) && Below(sp.root, old(Now(k, sp)), Now(k, sp))
    ensures r == Done ==> ElseSame(old(k.mem[..]), k.mem[..], sp.root, Vpn(ARGV_DATA_ADDR), 2)
    ensures r == Done && k.hhdm + k.mem.Length <= TWO64 ==> ArgPointers(k.mem[..], a, k.hhdm, args, |args|)
  {
    hide Walk, FitsFile, Inv, Pmm.PmmInv, Progress, ImageReady, StackReady, ProcessReady, Owned, Linear, Pmm.NoRun, Pmm.Grants, Pmm.BlockAtFirstRun, Pmm.Packed, Grown, ArgBlock, Holds, HasFrame, OutsideSame;
    hide TreeOk, TablesUsed, Vpn, IsTable, StackMapped, Below, Leaves, ArgPages, UserPart, SafeUser, FreeFrame, Evolved, Settled, Reached, AllTouched, PathMissing, ElseSame, ArgPointers;
    Layout();
    ghost var s1 := Now(k, sp);
    var g := Pmm.Kmalloc(k, 1);
    if g.Halt? {
      NoArgFrame(k.sections, sp.root, s1);
      return NoFrames, 0;
    }
    a := g.addr / 4096;
    Pmm.BlockAligned(k.sections, s1.used, 1, g.addr);
    ghost var s2 := Now(k, sp);
    Pmm.FirstIsPacked(k.sections, s1.used, g.addr);
    ArgFrameStep(k.sections, sp.root, s1, s2.m, s2.used, a, f, n, v0, ph, file);
    GrantBelow(k.sections, sp.root, s1, s2.m, s2.used, a);
    GrantElse(k.sections, sp.root, s1, s2.m, s2.used, a);
    ghost var done;
    ArgFrameTaken(k.sections, sp.root, s1, s2, a);
    r, done := MapPages(k, sp, ARGV_DATA_ADDR, a * 4096, 2, USER_FLAGS);
    ghost var s3 := Now(k, sp);
    MapSettles(k, sp, r, s2, Vpn(ARGV_DATA_ADDR), Linear(a * 4096, USER_FLAGS, done), 2);
    SettledThen(k.sections, true, r, s1, s2, s3, {}, 1, ArgNodes(), 0);
    NoNodes(ArgNodes());
    if r != Done { return; }
    ArgMapStep(k.sections, sp.root, s2, s3, a, f, n, v0, ph, file);
    CallBelow(k.sections, sp.root, s2, s3, Vpn(ARGV_DATA_ADDR), Linear(a * 4096, USER_FLAGS, 2), {});
    CallElse(k.sections, sp.root, s2, s3, Vpn(ARGV_DATA_ADDR), Linear(a * 4096, USER_FLAGS, 2), {});
    BelowTrans(sp.root, s1, s2, s3);
    BelowEvolved(sp.root, s1, s3);
    if UserPart(k.sections, sp.root, s1) {
      ArgsUser(k.sections, sp.root, s1, s2, s3, a);
    }
    WriteArgs(k, a, args);
    ghost var s4 := Now(k, sp);
    ArgWriteStep(k.sections, sp.root, s3, s4.m, a, args, f, n, v0, ph, file);
    ArgWriteBelow(k.sections, sp.root, s1, s3, s4.m, a);
    WriteUser(k.sections, sp.root, s3, s4.m, a);
    WriteElse(k.sections, sp.root, s3, s4.m, a);
    ElseInRow(sp.root, s1.m, s2.m, s3.m, s4.m, Vpn(ARGV_DATA_ADDR), 2);
    BelowEvolved(sp.root, s1, s4);
    SettledWrite(k.sections, s1, s3, s4, ArgNodes(), 1);
    InvPmm(k.sections, sp.root, s4);
    OwnedSame(s3, s4, a);
  }

  lemma GrantElse(secs: seq<Section>, root: nat, s0: Snap, m: seq<byte>, used: set<nat>, a: nat)
    requires Inv(secs, root, s0) && Pmm.Grants(s0.m, s0.used, secs, m, used, a, 1) && Pmm.Packed(secs, s0.used, a)
    ensures ElseSame(s0.m, m, root, 0, 0)
  {
    hide Pmm.Grants, Inv, Walk, Pmm.Packed;
    assert Owned(s0, 0, 0);
    GrantLeaves(secs, root, s0, m, used, a, 0, 0);
  }

  lemma WriteElse(secs: seq<Section>, root: nat, s: Snap, m: seq<byte>, a: nat)
    requires Inv(secs, root, s) && OutsideSame(s.m, m, a, 1) && Owned(s, a, 1)
    ensures ElseSame(s.m, m, root, 0, 0)
  {
    hide Inv, Walk, OutsideSame;
    assert Owned(s, a + 1, 0);
    WriteLeaves(secs, root, s, m, a, a + 1, 0);
  }

  lemma ElseInRow(root: nat, m1: seq<byte>, m2: seq<byte>, m3: seq<byte>, m4: seq<byte>, vpn: nat, c: nat)
    requires ElseSame(m1, m2, root, 0, 0) && ElseSame(m2, m3, root, vpn, c) && ElseSame(m3, m4, root, 0, 0)
    ensures ElseSame(m1, m4, root, vpn, c)
  {
    hide Walk;
    forall v | 0 <= v < VPAGES && !(vpn <= v < vpn + c)
      ensures Walk(m4, root, 4, v) == Walk(m1, root, 4, v)
    {
      assert Walk(m4, root, 4, v) == Walk(m3, root, 4, v);
      assert Walk(m3, root, 4, v) == Walk(m2, root, 4, v);
    }
  }

  lemma NoArgFrame(secs: seq<Section>, root: nat, s: Snap)
    requires Inv(secs, root, s) && Pmm.NoRun(secs, s.used, 1)
    ensures Settled(secs, true, NoFrames, s, s, ArgNodes(), 1)
  {
    hide Pmm.NoRun, AllTouched, Evolved, NewPacked, PmmRuns.Capacity, Inv;
    SinceStart(secs, root, s);
    NoneLeft(secs, root, s);
  }

  lemma ArgFrameTaken(secs: seq<Section>, root: nat, s1: Snap, s2: Snap, a: nat)
    requires Inv(secs, root, s1) && Pmm.Grants(s1.m, s1.used, secs, s2.m, s2.used, a, 1) && s2.t == s1.t
    requires Pmm.BlockAtFirstRun(secs, s1.used, 1, a * 4096) && Below(root, s1, s2)
    ensures Reached(secs, s1, s2, {}, 1) && TablesUsed(s1)
  {
    BelowEvolved(root, s1, s2);
    GrantedOne(secs, s1.m, s1.used, s2.m, s2.used, a);
    assert a in Pmm.Frames(a, 1);
    NewPackedOne(secs, s1.used, a);
    hide Evolved, NewPacked, TreeOk, Pmm.PmmInv;
  }

  lemma NoNodes(n: set<Node>)
    ensures {} + n == n
  {
  }

  /** A write into a frame taken since changes neither tables nor frames in use. */
  lemma SettledWrite(secs: seq<Section>, s0: Snap, s: Snap, t: Snap, nodes: set<Node>, pages: nat)
    requires Settled(secs, true, Done, s0, s, nodes, pages) && Evolved(s0, t) && t.used == s.used && t.t == s.t
    ensures Settled(secs, true, Done, s0, t, nodes, pages)
  {
    hide Evolved, NewPacked;
  }

  lemma BelowEvolved(root: nat, s0: Snap, s: Snap)
    requires Below(root, s0, s)
    ensures Evolved(s0, s)
  {
    hide Evolved, WalksSame;
  }

  lemma ArgWriteBelow(secs: seq<Section>, root: nat, s0: Snap, s: Snap, m: seq<byte>, a: nat)
    requires Inv(secs, root, s) && Below(root, s0, s) && a !in s0.used && OutsideSame(s.m, m, a, 1) && Owned(s, a, 1)
    ensures Below(root, s0, Snap(m, s.used, s.t))
  {
    hide Below, Walk, Inv, OutsideSame;
    assert Owned(s, a + 1, 0);
    WriteLeaves(secs, root, s, m, a, a + 1, 0);
    WriteBelow(secs, root, s0, s, m, a);
  }

  lemma InvPmm(secs: seq<Section>, root: nat, s: Snap)
    requires Inv(secs, root, s)
    ensures Pmm.PmmInv(s.m, secs, s.used)
  {
  }

  lemma OwnedSame(s0: Snap, s: Snap, a: nat)
    requires s.used == s0.used && s.t == s0.t && Owned(s0, a, 1)
    ensures Owned(s, a, 1)
  {
    assert a in s0.used && !IsTable(s0.t, a);
  }

  /** `map_apic_into_task`. */
  method MapApicIntoTask(k: Kernel, sp: AddressSpace, d: Devices, ghost a: nat, ghost args: seq<seq<byte>>,
                         ghost f: nat, ghost n: nat, ghost v0: nat, ghost ph: seq<ProgramHeader>, ghost file: seq<byte>, ghost im: KernelImage, ghost frames: set<nat>) returns (r: Outcome)
    requires Valid(k, sp) && FitsFile(ph, file) && DevicesFit(d, k.hhdm) && SectionsFit(k.sections, k.hhdm) && ImageFits(im)
    requires ProcessReady(Now(k, sp), sp.root, f, n, v0, ph, file, a, args) && Owned(Now(k, sp), a, 1)
    requires v0 / 4096 + n <= Vpn(USER_STACK_ADDR) && |ArgBlock(args)| <= 4096
    modifies k`totalMemoryAllocated, k`used, k.mem, sp`tables
    ensures Valid(k, sp)
    ensures r == Done ==> ProcessReady(Now(k, sp), sp.root, f, n, v0, ph, file, a, args)
    ensures Settled(k.sections, true, r, old(Now(k, sp)), Now(k, sp), DeviceNodes(d, k.hhdm), 0)
    ensures r == Done ==> DevicesMapped(k.mem[..], sp.root, d, k.hhdm)
    ensures r == Done && SafeUser(k.sections, sp.root, old(Now(k, sp))) ==> SafeUser(k.sections, sp.root, Now(k, sp))
    ensures r == Done && DevicesApart(d, k.hhdm, im) && BaseMapped(old(k.mem[..]), sp.root, frames, k.sections, k.hhdm, im)
      ==> BaseMapped(k.mem[..], sp.root, frames, k.sections, k.hhdm, im)
    ensures r == Done ==> DevicesElseSame(old(k.mem[..]), k.mem[..], sp.root, d, k.hhdm)
  {
    hide DevicesElseSame, Walk, Vpn, FitsFile, Pmm.PmmInv, TreeOk, TablesUsed, Progress, ProcessReady, Owned, Linear, Pmm.NoRun, Grown, ArgBlock, Evolved, BaseMapped, SectionsFit, ImageFits, DeviceApart, SafeUser, Settled, Reached, AllTouched, PathMissing;
    ghost var s0 := Now(k, sp);
    SinceStart(k.sections, sp.root, s0);
    ghost var done;
    VpnBelow(d.ioapic + k.hhdm);
    VpnBelow(d.lapic);
    r, done := MapPages(k, sp, d.ioapic + k.hhdm, d.ioapic, 1, PRESENT + WRITE);
    ghost var s1 := Now(k, sp);
    MapSettles(k, sp, r, s0, Vpn(d.ioapic + k.hhdm), Linear(d.ioapic, PRESENT + WRITE, done), 1);
    FirstDevice(k.sections, r, s0, s1, d, k.hhdm);
    if r != Done { return; }
    ApicStep(k.sections, sp.root, s0, s1, Vpn(d.ioapic + k.hhdm), Linear(d.ioapic, PRESENT + WRITE, 1), a, args, f, n, v0, ph, file);
    r, done := MapPages(k, sp, d.lapic, d.lapic - k.hhdm, 1, PRESENT + WRITE);
    MapSettles(k, sp, r, s1, Vpn(d.lapic), Linear(d.lapic - k.hhdm, PRESENT + WRITE, done), 1);
    SettledThen(k.sections, true, r, s0, s1, Now(k, sp), AllTouched(Vpn(d.ioapic + k.hhdm), 1), 0, AllTouched(Vpn(d.lapic), 1), 0);
    if r != Done { return; }
    ApicStep(k.sections, sp.root, s1, Now(k, sp), Vpn(d.lapic), Linear(d.lapic - k.hhdm, PRESENT + WRITE, 1), a, args, f, n, v0, ph, file);
    DevicesShown(k.sections, sp.root, s0, s1, Now(k, sp), d, k.hhdm);
    DeviceUser(k.sections, sp.root, s0, s1, Vpn(d.ioapic + k.hhdm), d.ioapic);
    DeviceUser(k.sections, sp.root, s1, Now(k, sp), Vpn(d.lapic), d.lapic - k.hhdm);
    if DevicesApart(d, k.hhdm, im) && BaseMapped(s0.m, sp.root, frames, k.sections, k.hhdm, im) {
      BaseStaysDevice(k.sections, sp.root, s0, s1, frames, k.hhdm, im, d.ioapic);
      BaseStaysDevice(k.sections, sp.root, s1, Now(k, sp), frames, k.hhdm, im, d.lapic - k.hhdm);
    }
  }

  /** The page of the local APIC shows it, present and writable for the kernel only; so does that of the I/O APIC, unless it is the same page. */
  ghost predicate DevicesMapped(m: seq<byte>, root: nat, d: Devices, hhdm: nat) {
    && Walk(m, root, 4, Vpn(d.lapic)) == d.lapic - hhdm + 3
    && (Vpn(d.ioapic + hhdm) != Vpn(d.lapic) ==> Walk(m, root, 4, Vpn(d.ioapic + hhdm)) == d.ioapic + 3)
  }

  ghost predicate DevicePage(d: Devices, hhdm: nat, v: nat) {
    v == Vpn(d.ioapic + hhdm) || v == Vpn(d.lapic)
  }

  ghost predicate DevicesElseSame(m0: seq<byte>, m: seq<byte>, root: nat, d: Devices, hhdm: nat) {
    forall v {:trigger Walk(m, root, 4, v)} :: 0 <= v < VPAGES && !DevicePage(d, hhdm, v) ==> Walk(m, root, 4, v) == Walk(m0, root, 4, v)
  }

  lemma DevicesShown(secs: seq<Section>, root: nat, s0: Snap, s1: Snap, s: Snap, d: Devices, hhdm: nat)
    requires DevicesFit(d, hhdm)
    requires Progress(secs, root, s0, s1, Vpn(d.ioapic + hhdm), Linear(d.ioapic, PRESENT + WRITE, 1), {})
    requires Progress(secs, root, s1, s, Vpn(d.lapic), Linear(d.lapic - hhdm, PRESENT + WRITE, 1), {})
    ensures DevicesMapped(s.m, root, d, hhdm) && DevicesElseSame(s0.m, s.m, root, d, hhdm)
  {
    hide Progress, Walk, Vpn;
    CallElse(secs, root, s0, s1, Vpn(d.ioapic + hhdm), Linear(d.ioapic, PRESENT + WRITE, 1), {});
    CallElse(secs, root, s1, s, Vpn(d.lapic), Linear(d.lapic - hhdm, PRESENT + WRITE, 1), {});
    VpnBelow(d.ioapic + hhdm);
    VpnBelow(d.lapic);
    ProgressLeaf(secs, root, s0, s1, Vpn(d.ioapic + hhdm), Linear(d.ioapic, PRESENT + WRITE, 1), {}, Vpn(d.ioapic + hhdm));
    ProgressLeaf(secs, root, s1, s, Vpn(d.lapic), Linear(d.lapic - hhdm, PRESENT + WRITE, 1), {}, Vpn(d.ioapic + hhdm));
    ProgressLeaf(secs, root, s1, s, Vpn(d.lapic), Linear(d.lapic - hhdm, PRESENT + WRITE, 1), {}, Vpn(d.lapic));
  }

  lemma FirstDevice(secs: seq<Section>, r: Outcome, s0: Snap, s1: Snap, d: Devices, hhdm: nat)
    requires Settled(secs, true, r, s0, s1, AllTouched(Vpn(d.ioapic + hhdm), 1), 0)
    ensures if r == Done then Reached(secs, s0, s1, AllTouched(Vpn(d.ioapic + hhdm), 1), 0)
      else Settled(secs, true, r, s0, s1, DeviceNodes(d, hhdm), 0)
  {
    hide Vpn, AllTouched, Settled;
    if r == Done {
      SettledDone(secs, true, s0, s1, AllTouched(Vpn(d.ioapic + hhdm), 1), 0);
    } else {
      SettledMore(secs, true, true, r, s0, s1, AllTouched(Vpn(d.ioapic + hhdm), 1), 0, DeviceNodes(d, hhdm), 0);
    }
  }

  lemma VpnBelow(a: nat)
    ensures Vpn(a) < VPAGES
  {
  }

  datatype Result = Started(frame: nat, pages: nat, start: nat, argFrame: nat) | Halted

  /** The image takes `n` pages, which are not to be had: none are asked for, or no section has that many in a row. */
  ghost predicate ImageTooLarge(ph: seq<ProgramHeader>, v0: nat, n: nat, secs: seq<Section>, used: set<nat>) {
    ImageSpan(ph, v0, n) && (n == 0 || Pmm.NoRun(secs, used, n))
  }

  /** `spawn` from the program headers on: image, tree, stack, arguments, devices. */
  method SpawnProcess(k: Kernel, ph: seq<ProgramHeader>, file: seq<byte>, args: seq<seq<byte>>, im: KernelImage, d: Devices) returns (r: Result, sp: AddressSpace)
    requires Pmm.Ready(k) && ElfOk(ph, file) && FitsFile(ph, file) && |ArgBlock(args)| + 8 * |args| <= 4096
    requires ImageFits(im) && SectionsFit(k.sections, k.hhdm) && DevicesFit(d, k.hhdm) && k.mem.Length <= 0x10_0000_0000_0000
    modifies k`totalMemoryAllocated, k`used, k.mem
    ensures Pmm.Ready(k)
    ensures forall v0, n :: ImageSpan(ph, v0, n) ==> (r.Started? <==> SpawnFits(k.sections, k.hhdm, im, d, v0, n, old(k.used)))
    ensures UsedKept(old(k.mem[..]), old(k.used), k.mem[..]) && old(k.used) <= k.used
    ensures r.Halted? && AllPaged(k.sections) ==> Pmm.NoRun(k.sections, k.used, 1) || exists v0, n :: ImageTooLarge(ph, v0, n, k.sections, k.used)
    ensures r.Started? ==> Valid(k, sp) && ImageSpan(ph, r.start, r.pages)
    ensures r.Started? ==> ProcessReady(Now(k, sp), sp.root, r.frame, r.pages, r.start, ph, file, r.argFrame, args)
    ensures r.Started? ==> r.argFrame in k.used && r.argFrame !in old(k.used) && Pmm.Packed(k.sections, k.used, r.argFrame)
    ensures r.Started? ==> |k.used| == |old(k.used)| + r.pages + |ProcessNodes(k.sections, k.hhdm, im, d, r.start, r.pages)| + PROCESS_PAGES
    ensures r.Started? ==> Walk(k.mem[..], sp.root, 4, Vpn(d.lapic)) == d.lapic - k.hhdm + 3
    ensures r.Started? && Vpn(d.ioapic + k.hhdm) != Vpn(d.lapic) ==> Walk(k.mem[..], sp.root, 4, Vpn(d.ioapic + k.hhdm)) == d.ioapic + 3
    ensures r.Started? && Private(k.sections, k.hhdm, im) ==> (UserSeesTable(sp.root, Now(k, sp)) <==> FreeFrame(k.sections, old(k.used), r.argFrame + 1))
    ensures r.Started? && KernelHigh(k.hhdm, im) && DevicesApart(d, k.hhdm, im) ==> BaseMapped(k.mem[..], sp.root, k.used - old(k.used), k.sections, k.hhdm, im)
    ensures r.Started? ==> forall g :: r.frame <= g < r.frame + r.pages ==> g !in old(k.used)
    ensures r.Started? && k.hhdm + k.mem.Length <= TWO64 ==> ArgPointers(k.mem[..], r.argFrame, k.hhdm, args, |args|)
    ensures r.Started? ==> OwnStack(old(k.mem[..]), old(k.used), Now(k, sp), sp.root)
    ensures r.Started? ==> OnlyMapped(k.mem[..], sp.root, k.sections, k.hhdm, im, d, r.start / 4096, r.pages)
    ensures r.Started? && Private(k.sections, k.hhdm, im) ==> OnlyUser(k.mem[..], sp.root, r.start / 4096, r.pages)
  {
    hide OwnStack, OnlyMapped, OnlyUser, DevicesMapped, ArgPointers, Walk, FitsFile, ElfOk, Inv, Pmm.PmmInv, ProcessReady, ImageFits, SectionsFit, Pmm.NoRun, Held, Loaded, ArgBlock, ImageSpan, SegmentsWithin, DevicesFit;
    hide UsedKept, BaseMapped, KernelHigh, DeviceApart, FreeFrame, UserSeesTable, Private, Pmm.BlockAtFirstRun, Pmm.Packed, SpawnFits, ProcessNodes, AllPaged, Built;
    Layout();
    ghost var m0, used0 := k.mem[..], k.used;
    var v0, n := MeasureImage(ph, file);
    OneSpan(ph, v0, n);
    var img := LoadImage(k, ph, file, v0, n);
    if img.NoMemory? {
      sp := new AddressSpace(0);
      NothingTouched(k.sections, m0, used0);
      NoImage(k.sections, k.hhdm, im, d, v0, n, used0);
      assert ImageTooLarge(ph, v0, n, k.sections, k.used);
      return Halted, sp;
    }
    r, sp := BuildProcess(k, ph, file, args, im, d, img.frame, n, v0, m0, used0);
    if r.Started? {
      BuiltParts(k.sections, k.hhdm, sp.root, Now(k, sp), im, d, ph, file, args, img.frame, n, v0, r.argFrame, m0, used0);
      FramesNew(k.sections, used0, img.frame, n);
    }
  }

  lemma FramesNew(secs: seq<Section>, used0: set<nat>, f: nat, n: nat)
    requires used0 !! Pmm.Frames(f, n)
    ensures forall g :: f <= g < f + n ==> g !in used0
  {
    forall g | f <= g < f + n
      ensures g !in used0
    {
      assert g in Pmm.Frames(f, n);
    }
  }

  /** What a process that was started has: its memory, and a tree that maps exactly that. */
  ghost predicate Built(secs: seq<Section>, hhdm: nat, root: nat, s: Snap, im: KernelImage, d: Devices, ph: seq<ProgramHeader>, file: seq<byte>, args: seq<seq<byte>>,
                        f: nat, n: nat, v0: nat, a: nat, m0: seq<byte>, used0: set<nat>)
    requires ImageFits(im) && FitsFile(ph, file) && DevicesFit(d, hhdm)
  {
    && ProcessReady(s, root, f, n, v0, ph, file, a, args)
    && a in s.used && a !in used0 && Pmm.Packed(secs, s.used, a)
    && |s.used| == |used0| + n + |ProcessNodes(secs, hhdm, im, d, v0, n)| + PROCESS_PAGES
    && DevicesMapped(s.m, root, d, hhdm) && OwnStack(m0, used0, s, root)
    && (hhdm + |s.m| <= TWO64 ==> ArgPointers(s.m, a, hhdm, args, |args|))
    && OnlyMapped(s.m, root, secs, hhdm, im, d, v0 / 4096, n)
    && (Private(secs, hhdm, im) ==> OnlyUser(s.m, root, v0 / 4096, n) && (UserSeesTable(root, s) <==> FreeFrame(secs, used0, a + 1)))
    && (KernelHigh(hhdm, im) && DevicesApart(d, hhdm, im) ==> BaseMapped(s.m, root, s.used - used0, secs, hhdm, im))
  }

  lemma BuiltParts(secs: seq<Section>, hhdm: nat, root: nat, s: Snap, im: KernelImage, d: Devices, ph: seq<ProgramHeader>, file: seq<byte>, args: seq<seq<byte>>,
                   f: nat, n: nat, v0: nat, a: nat, m0: seq<byte>, used0: set<nat>)
    requires ImageFits(im) && FitsFile(ph, file) && DevicesFit(d, hhdm) && Built(secs, hhdm, root, s, im, d, ph, file, args, f, n, v0, a, m0, used0)
    ensures ProcessReady(s, root, f, n, v0, ph, file, a, args)
    ensures a in s.used && a !in used0 && Pmm.Packed(secs, s.used, a)
    ensures |s.used| == |used0| + n + |ProcessNodes(secs, hhdm, im, d, v0, n)| + PROCESS_PAGES
    ensures Walk(s.m, root, 4, Vpn(d.lapic)) == d.lapic - hhdm + 3
    ensures Vpn(d.ioapic + hhdm) != Vpn(d.lapic) ==> Walk(s.m, root, 4, Vpn(d.ioapic + hhdm)) == d.ioapic + 3
    ensures OwnStack(m0, used0, s, root) && OnlyMapped(s.m, root, secs, hhdm, im, d, v0 / 4096, n)
    ensures hhdm + |s.m| <= TWO64 ==> ArgPointers(s.m, a, hhdm, args, |args|)
    ensures Private(secs, hhdm, im) ==> OnlyUser(s.m, root, v0 / 4096, n) && (UserSeesTable(root, s) <==> FreeFrame(secs, used0, a + 1))
    ensures KernelHigh(hhdm, im) && DevicesApart(d, hhdm, im) ==> BaseMapped(s.m, root, s.used - used0, secs, hhdm, im)
  {
    hide Walk, Vpn, FitsFile, ProcessReady, ImageFits, BaseMapped, DeviceApart, OwnStack, OnlyMapped, OnlyUser, ArgPointers, UserSeesTable, FreeFrame, ProcessNodes, Pmm.Packed, Private, KernelHigh;
  }

  /** `spawn` from the new tree on. */
  method BuildProcess(k: Kernel, ph: seq<ProgramHeader>, file: seq<byte>, args: seq<seq<byte>>, im: KernelImage, d: Devices,
                      f: nat, n: nat, v0: nat, ghost m0: seq<byte>, ghost used0: set<nat>) returns (r: Result, sp: AddressSpace)
    requires Pmm.Ready(k) && FitsFile(ph, file) && |ArgBlock(args)| + 8 * |args| <= 4096
    requires ImageFits(im) && SectionsFit(k.sections, k.hhdm) && DevicesFit(d, k.hhdm) && k.mem.Length <= 0x10_0000_0000_0000
    requires Held(k.sections, k.used, f, n) && (f + n) * 4096 <= k.mem.Length && v0 / 4096 + n <= Vpn(USER_STACK_ADDR)
    requires Loaded(k.mem[..], f, n, ph, file, |ph|, v0) && ImageTaken(k.sections, used0, f, n, k.used) && UsedKept(m0, used0, k.mem[..])
    modifies k`totalMemoryAllocated, k`used, k.mem
    ensures Pmm.Ready(k) && (r.Started? <==> SpawnFits(k.sections, k.hhdm, im, d, v0, n, used0))
    ensures UsedKept(m0, used0, k.mem[..]) && used0 <= k.used
    ensures r.Halted? && AllPaged(k.sections) ==> Pmm.NoRun(k.sections, k.used, 1)
    ensures r.Started? ==> r.frame == f && r.pages == n && r.start == v0 && Valid(k, sp)
    ensures r.Started? ==> Built(k.sections, k.hhdm, sp.root, Now(k, sp), im, d, ph, file, args, f, n, v0, r.argFrame, m0, used0)
  {
    hide OwnStack, OnlyMapped, OnlyUser, ArgPointers, BaseAndImage, UserWithin, ElseSame, StackMapped, StackClear, DevicesElseSame, DevicesMapped;
    hide Walk, FitsFile, Inv, Pmm.PmmInv, ProcessReady, ImageReady, StackReady, Owned, ImageFits, SectionsFit, Pmm.NoRun, Held, Loaded, ArgBlock, DevicesFit;
    hide UsedKept, TablesAreNew, Below, BaseMapped, KernelHigh, DeviceApart, UserPart, SafeUser, FreeFrame, IsTable, UserSeesTable, Private, Pmm.BlockAtFirstRun, Pmm.Packed;
    hide Reached, Settled, Failed, SpawnFits, ProcessNodes, StackTreeNodes, ArgTreeNodes, ImageTreeNodes, StackNodes, ArgNodes, DeviceNodes, AllPaged, TablesUsed, Evolved, Since;
    Layout();
    var out;
    ghost var m1, used1 := k.mem[..], k.used;
    out, sp := MapImage(k, im, f, n, v0, ph, file);
    ghost var s1 := Now(k, sp);
    UsedKeptTrans(m0, used0, m1, used1, s1.m);
    if out != Done {
      TreeFailed(k.sections, k.hhdm, im, d, v0, n, used0, m1, used1, f, k.used);
      return Halted, sp;
    }
    out := AddStack(k, sp, f, n, v0, ph, file);
    ghost var s2 := Now(k, sp);
    StackPart(k.sections, out, m1, used1, s1, s2, k.hhdm, im, d, v0, n);
    if out != Done {
      PartFailed(k.sections, k.hhdm, im, d, v0, n, m0, used0, m1, used1, f, s2);
      return Halted, sp;
    }
    var a;
    out, a := AddArgs(k, sp, args, f, n, v0, ph, file);
    ghost var s3 := Now(k, sp);
    ArgPart(k.sections, out, m1, used1, s2, s3, k.hhdm, im, d, v0, n);
    if out != Done {
      PartFailed(k.sections, k.hhdm, im, d, v0, n, m0, used0, m1, used1, f, s3);
      return Halted, sp;
    }
    InvTablesUsed(k.sections, sp.root, s1);
    BelowTrans(sp.root, s1, s2, s3);
    if KernelHigh(k.hhdm, im) {
      BaseStaysBelow(sp.root, s1, s3, s1.used - used1, k.sections, k.hhdm, im);
    }
    out := MapApicIntoTask(k, sp, d, a, args, f, n, v0, ph, file, im, s1.used - used1);
    ghost var s4 := Now(k, sp);
    DevicePart(k.sections, out, m1, used1, s3, s4, k.hhdm, im, d, v0, n);
    if out != Done {
      PartFailed(k.sections, k.hhdm, im, d, v0, n, m0, used0, m1, used1, f, s4);
      return Halted, sp;
    }
    PartsDone(k.sections, k.hhdm, im, d, v0, n, m0, used0, m1, used1, f, s4);
    ArgFrameWas(k.sections, used0, m1, used1, n, f, s2, s3, s4, a, StackTreeNodes(k.sections, k.hhdm, im, v0, n), 2 * KERNEL_STACK_PAGES);
    InvTablesUsed(k.sections, sp.root, s2);
    if ArgPointers(s3.m, a, k.hhdm, args, |args|) {
      PointersStay(s3, s4, a, k.hhdm, args);
    }
    FinishedTree(k.sections, sp.root, m0, used0, used1, s1, s2, s3, s4, k.hhdm, im, d, v0 / 4096, f, n);
    if BaseMapped(k.mem[..], sp.root, s1.used - used1, k.sections, k.hhdm, im) {
      BaseMore(k.mem[..], sp.root, s1.used - used1, k.used - used0, k.sections, k.hhdm, im);
    }
    FinalView(k.sections, sp.root, s2, s3, s4, f, n, v0, ph, file, a, args, Private(k.sections, k.hhdm, im));
    return Started(f, n, v0, a), sp;
  }

  /** Nothing is mapped but image, user stack, arguments, devices, and what every tree starts with. */
  ghost predicate OnlyMapped(m: seq<byte>, root: nat, secs: seq<Section>, hhdm: nat, im: KernelImage, d: Devices, at: nat, n: nat)
    requires ImageFits(im)
  {
    forall v {:trigger Walk(m, root, 4, v)} :: 0 <= v < VPAGES && Walk(m, root, 4, v) != 0 ==> UserPage(at, n, v) || DevicePage(d, hhdm, v) || KernelPage(im, v) || Shifted(secs, hhdm, v)
  }

  /** Page `v` is one of image, stack or arguments. */
  ghost predicate UserPage(at: nat, n: nat, v: nat) {
    at <= v < at + n || Vpn(USER_STACK_ADDR) <= v < Vpn(USER_STACK_ADDR) + 2 || Vpn(ARGV_DATA_ADDR) <= v < Vpn(ARGV_DATA_ADDR) + 2
  }

  ghost predicate OnlyUser(m: seq<byte>, root: nat, at: nat, n: nat) {
    forall v {:trigger Walk(m, root, 4, v)} :: 0 <= v < VPAGES && PageTree.Grants(Walk(m, root, 4, v), User) ==> UserPage(at, n, v)
  }

  /** The user stack has two clear frames of its own, which were not in use. */
  ghost predicate OwnStack(m0: seq<byte>, used0: set<nat>, s: Snap, root: nat) {
    StackMapped(s.m, root, s.used - used0, Vpn(USER_STACK_ADDR), USER_FLAGS) && StackClear(Bare(m0, used0), s, root)
  }

  lemma FinishedTree(secs: seq<Section>, root: nat, m0: seq<byte>, used0: set<nat>, used1: set<nat>, s1: Snap, s2: Snap, s3: Snap, s4: Snap, hhdm: nat, im: KernelImage, d: Devices, at: nat, f: nat, n: nat)
    requires ImageFits(im) && DevicesFit(d, hhdm) && BaseAndImage(s1.m, root, secs, hhdm, im, at, n)
    requires ElseSame(s1.m, s2.m, root, Vpn(USER_STACK_ADDR), 2) && ElseSame(s2.m, s3.m, root, Vpn(ARGV_DATA_ADDR), 2)
    requires DevicesElseSame(s3.m, s4.m, root, d, hhdm) && DevicesMapped(s4.m, root, d, hhdm)
    requires StackMapped(s2.m, root, s2.used - s1.used, Vpn(USER_STACK_ADDR), USER_FLAGS) && StackClear(s1, s2, root)
    requires Below(root, s2, s3) && Evolved(s3, s4) && TablesUsed(s2) && used0 <= used1 <= s1.used && Below(root, s1, s2)
    ensures s1.used - used1 <= s4.used - used0
    ensures OwnStack(m0, used0, s4, root) && OnlyMapped(s4.m, root, secs, hhdm, im, d, at, n)
    ensures UserWithin(s1.m, root, at, n) ==> OnlyUser(s4.m, root, at, n)
  {
    FinishedPages(secs, root, s1, s2, s3, s4, hhdm, im, d, at, n);
    BelowEvolved(root, s1, s2);
    BelowEvolved(root, s2, s3);
    FinishedStack(root, m0, used0, s1, s2, s3, s4, hhdm, d);
    hide OthersKept, ElseSame, DevicesElseSame, BaseAndImage, StackMapped, TablesUsed;
  }

  lemma FinishedPages(secs: seq<Section>, root: nat, s1: Snap, s2: Snap, s3: Snap, s4: Snap, hhdm: nat, im: KernelImage, d: Devices, at: nat, n: nat)
    requires ImageFits(im) && DevicesFit(d, hhdm) && BaseAndImage(s1.m, root, secs, hhdm, im, at, n)
    requires ElseSame(s1.m, s2.m, root, Vpn(USER_STACK_ADDR), 2) && ElseSame(s2.m, s3.m, root, Vpn(ARGV_DATA_ADDR), 2)
    requires DevicesElseSame(s3.m, s4.m, root, d, hhdm) && DevicesMapped(s4.m, root, d, hhdm)
    ensures OnlyMapped(s4.m, root, secs, hhdm, im, d, at, n)
    ensures UserWithin(s1.m, root, at, n) ==> OnlyUser(s4.m, root, at, n)
  {
    hide Walk, Vpn, ImageFits, KernelPage, Shifted;
    forall v | 0 <= v < VPAGES && !UserPage(at, n, v) && !DevicePage(d, hhdm, v)
      ensures Walk(s4.m, root, 4, v) == Walk(s1.m, root, 4, v)
    {
      assert Walk(s4.m, root, 4, v) == Walk(s3.m, root, 4, v);
      assert Walk(s3.m, root, 4, v) == Walk(s2.m, root, 4, v);
    }
    DeviceNotUser(s4.m, root, d, hhdm);
  }

  lemma DeviceNotUser(m: seq<byte>, root: nat, d: Devices, hhdm: nat)
    requires DevicesFit(d, hhdm) && DevicesMapped(m, root, d, hhdm)
    ensures forall v {:trigger DevicePage(d, hhdm, v)} :: DevicePage(d, hhdm, v) ==> !PageTree.Grants(Walk(m, root, 4, v), User)
  {
    hide Walk, Vpn;
    AlignedKeepsFlags((d.lapic - hhdm) / 4096, 3, User);
    AlignedKeepsFlags(d.ioapic / 4096, 3, User);
    assert d.lapic - hhdm + 3 == (d.lapic - hhdm) / 4096 * 4096 + 3 && d.ioapic + 3 == d.ioapic / 4096 * 4096 + 3;
  }

  lemma FinishedStack(root: nat, m0: seq<byte>, used0: set<nat>, s1: Snap, s2: Snap, s3: Snap, s4: Snap, hhdm: nat, d: Devices)
    requires DevicesFit(d, hhdm) && ElseSame(s2.m, s3.m, root, Vpn(ARGV_DATA_ADDR), 2) && DevicesElseSame(s3.m, s4.m, root, d, hhdm)
    requires StackMapped(s2.m, root, s2.used - s1.used, Vpn(USER_STACK_ADDR), USER_FLAGS) && StackClear(s1, s2, root)
    requires Evolved(s2, s3) && Evolved(s3, s4) && TablesUsed(s2) && used0 <= s1.used
    ensures OwnStack(m0, used0, s4, root)
  {
    hide Walk, Vpn, OthersKept, TablesUsed, Evolved, StackMapped, StackClear, CleanPage, IsTable;
    Layout();
    EvolvedTrans(s2, s3, s4);
    EvolvedMore(s2, s4);
    forall v | Vpn(USER_STACK_ADDR) <= v < Vpn(USER_STACK_ADDR) + 2
      ensures Walk(s4.m, root, 4, v) == Walk(s2.m, root, 4, v)
    {
      assert !DevicePage(d, hhdm, v);
      assert Walk(s3.m, root, 4, v) == Walk(s2.m, root, 4, v);
    }
    assert Walk(s4.m, root, 4, Vpn(USER_STACK_ADDR)) == Walk(s2.m, root, 4, Vpn(USER_STACK_ADDR));
    assert Walk(s4.m, root, 4, Vpn(USER_STACK_ADDR) + 1) == Walk(s2.m, root, 4, Vpn(USER_STACK_ADDR) + 1);
    StackStaysClear(root, s1, s2, s4);
    ClearSince(root, s1, Bare(m0, used0), s4);
    StackAsBefore(s2.m, s4.m, root, s2.used - s1.used, s4.used - used0);
  }

  lemma EvolvedMore(s: Snap, t: Snap)
    requires Evolved(s, t)
    ensures s.used <= t.used
  {
    hide OthersKept;
  }

  lemma ClearSince(root: nat, s0: Snap, b: Snap, s: Snap)
    requires StackClear(s0, s, root) && b.used <= s0.used
    ensures StackClear(b, s, root)
  {
    hide Walk, Vpn, ZeroFrame, IsTable, HasFrame;
  }

  lemma StackAsBefore(m0: seq<byte>, m: seq<byte>, root: nat, used0: set<nat>, used: set<nat>)
    requires StackMapped(m0, root, used0, Vpn(USER_STACK_ADDR), USER_FLAGS) && used0 <= used
    requires Walk(m, root, 4, Vpn(USER_STACK_ADDR)) == Walk(m0, root, 4, Vpn(USER_STACK_ADDR))
    requires Walk(m, root, 4, Vpn(USER_STACK_ADDR) + 1) == Walk(m0, root, 4, Vpn(USER_STACK_ADDR) + 1)
    ensures StackMapped(m, root, used, Vpn(USER_STACK_ADDR), USER_FLAGS)
  {
    hide Walk, Vpn;
  }

  /** Some page of the user shows a frame that was in use before the call. */
  ghost predicate UserSeesOld(m: seq<byte>, root: nat, used0: set<nat>) {
    exists v :: OldUserPage(m, root, used0, v)
  }

  ghost predicate OldUserPage(m: seq<byte>, root: nat, used0: set<nat>, v: nat) {
    v < VPAGES && PageTree.Grants(Walk(m, root, 4, v), User) && Walk(m, root, 4, v) / 4096 in used0
  }

  /** Processes are kept apart, and from everything else in use, if and only if the frame after the argument frame was not in use. */
  lemma ProcessIsolated(s: Snap, root: nat, f: nat, n: nat, v0: nat, ph: seq<ProgramHeader>, file: seq<byte>, a: nat, args: seq<seq<byte>>, m0: seq<byte>, used0: set<nat>)
    requires FitsFile(ph, file) && ProcessReady(s, root, f, n, v0, ph, file, a, args) && OwnStack(m0, used0, s, root) && OnlyUser(s.m, root, v0 / 4096, n)
    requires a !in used0 && forall g :: f <= g < f + n ==> g !in used0
    ensures UserSeesOld(s.m, root, used0) <==> a + 1 in used0
  {
    Layout();
    hide Walk, Vpn, FitsFile, Loaded, Holds, ArgBlock;
    DivOf(a, USER_FLAGS);
    DivOf(a + 1, USER_FLAGS);
    AlignedKeepsFlags(a + 1, USER_FLAGS, User);
    if a + 1 in used0 {
      assert OldUserPage(s.m, root, used0, Vpn(ARGV_DATA_ADDR) + 1);
    }
    forall v: nat | OldUserPage(s.m, root, used0, v)
      ensures a + 1 in used0
    {
      assert UserPage(v0 / 4096, n, v);
      if v0 / 4096 <= v < v0 / 4096 + n {
        DivOf(f + (v - v0 / 4096), USER_FLAGS);
        assert Walk(s.m, root, 4, v) / 4096 == f + (v - v0 / 4096);
      }
    }
  }

  /** The pointers to the arguments are no use to the process: they lead to the kernel's half, where no page is the user's. */
  lemma ArgPointersAreKernels(m: seq<byte>, root: nat, at: nat, n: nat, p: nat)
    requires OnlyUser(m, root, at, n) && at + n <= Vpn(USER_STACK_ADDR) && Vpn(p) >= HALF
    ensures !PageTree.Grants(Walk(m, root, 4, Vpn(p)), User)
  {
    Layout();
    hide Walk;
    assert !UserPage(at, n, Vpn(p));
  }

  /** The headers determine where the image starts and how many pages it takes. */
  lemma OneSpan(ph: seq<ProgramHeader>, v0: nat, n: nat)
    requires ImageSpan(ph, v0, n)
    ensures forall v, c :: ImageSpan(ph, v, c) ==> v == v0 && c == n
  {
    var first: nat, last: nat :| SpanOf(ph, first, last, v0, n);
    forall v, c | ImageSpan(ph, v, c)
      ensures v == v0 && c == n
    {
      var first1: nat, last1: nat :| SpanOf(ph, first1, last1, v, c);
      OneFirst(ph, first, first1);
      OneLast(ph, last, last1);
    }
  }

  lemma OneFirst(ph: seq<ProgramHeader>, i: nat, j: nat)
    requires IsFirst(ph, i) && IsFirst(ph, j)
    ensures i == j
  {
  }

  lemma OneLast(ph: seq<ProgramHeader>, i: nat, j: nat)
    requires IsLast(ph, i) && IsLast(ph, j)
    ensures i == j
  {
  }

  lemma NoImage(secs: seq<Section>, hhdm: nat, im: KernelImage, d: Devices, v0: nat, n: nat, used: set<nat>)
    requires ImageFits(im) && (n == 0 || Pmm.NoRun(secs, used, n))
    ensures !SpawnFits(secs, hhdm, im, d, v0, n, used)
  {
    hide Pmm.NoRun, ImageFits, ProcessNodes, PmmRuns.Capacity, AllPaged;
  }

  /** What was short after the image was taken. */
  lemma FailedFits(secs: seq<Section>, hhdm: nat, im: KernelImage, d: Devices, v0: nat, n: nat, used0: set<nat>, m1: seq<byte>, used1: set<nat>, f: nat, used: set<nat>)
    requires ImageFits(im) && ImageTaken(secs, used0, f, n, used1)
    requires Failed(secs, Bare(m1, used1), used, ProcessNodes(secs, hhdm, im, d, v0, n), PROCESS_PAGES)
    ensures !SpawnFits(secs, hhdm, im, d, v0, n, used0) && (AllPaged(secs) ==> Pmm.NoRun(secs, used, 1))
  {
    hide Pmm.NoRun, Pmm.BlockAtFirstRun, ImageFits, ProcessNodes, PmmRuns.Capacity, AllPaged;
    NothingMissing(m1, used1, ProcessNodes(secs, hhdm, im, d, v0, n));
  }

  lemma NothingMissing(m: seq<byte>, used: set<nat>, nodes: set<Node>)
    ensures Missing(Bare(m, used), nodes) == nodes
  {
  }

  /** What the user sees of the finished tree. */
  lemma FinalView(secs: seq<Section>, root: nat, s2: Snap, s3: Snap, s: Snap, f: nat, n: nat, v0: nat, ph: seq<ProgramHeader>, file: seq<byte>, a: nat, args: seq<seq<byte>>, private: bool)
    requires FitsFile(ph, file) && ProcessReady(s, root, f, n, v0, ph, file, a, args) && Inv(secs, root, s) && Evolved(s3, s)
    requires private ==> if FreeFrame(secs, s2.used, a + 1) then IsTable(s3.t, a + 1) else SafeUser(secs, root, s)
    ensures private ==> (UserSeesTable(root, s) <==> FreeFrame(secs, s2.used, a + 1))
  {
    hide FitsFile, ImageReady, StackMapped, Holds, Inv, OthersKept, ArgPages, SafeUser, FreeFrame, UserTablePage;
    if private {
      if FreeFrame(secs, s2.used, a + 1) {
        assert IsTable(s.t, a + 1);
        SpillIsSeen(secs, root, s, a);
      } else {
        SafeSeesNoTable(secs, root, s);
      }
    }
  }

  lemma StackPart(secs: seq<Section>, r: Outcome, m1: seq<byte>, used1: set<nat>, s1: Snap, s2: Snap, hhdm: nat, im: KernelImage, d: Devices, v0: nat, n: nat)
    requires ImageFits(im) && Reached(secs, Bare(m1, used1), s1, ImageTreeNodes(secs, hhdm, im, v0, n), KERNEL_STACK_PAGES)
    requires Settled(secs, true, r, s1, s2, StackNodes(), KERNEL_STACK_PAGES)
    ensures if r == Done then Reached(secs, Bare(m1, used1), s2, StackTreeNodes(secs, hhdm, im, v0, n), 2 * KERNEL_STACK_PAGES)
      else Since(secs, Bare(m1, used1), s2) && Failed(secs, Bare(m1, used1), s2.used, ProcessNodes(secs, hhdm, im, d, v0, n), PROCESS_PAGES)
  {
    hide Reached, Settled, Since, Failed, ImageTreeNodes, StackNodes, ArgNodes, DeviceNodes, ImageFits;
    PartAdded(secs, r, Bare(m1, used1), s1, s2, ImageTreeNodes(secs, hhdm, im, v0, n), KERNEL_STACK_PAGES, StackNodes(), KERNEL_STACK_PAGES,
      ProcessNodes(secs, hhdm, im, d, v0, n), PROCESS_PAGES);
  }

  lemma ArgPart(secs: seq<Section>, r: Outcome, m1: seq<byte>, used1: set<nat>, s2: Snap, s3: Snap, hhdm: nat, im: KernelImage, d: Devices, v0: nat, n: nat)
    requires ImageFits(im) && Reached(secs, Bare(m1, used1), s2, StackTreeNodes(secs, hhdm, im, v0, n), 2 * KERNEL_STACK_PAGES)
    requires Settled(secs, true, r, s2, s3, ArgNodes(), 1)
    ensures s2.used <= s3.used
    ensures if r == Done then Reached(secs, Bare(m1, used1), s3, ArgTreeNodes(secs, hhdm, im, v0, n), PROCESS_PAGES)
      else Since(secs, Bare(m1, used1), s3) && Failed(secs, Bare(m1, used1), s3.used, ProcessNodes(secs, hhdm, im, d, v0, n), PROCESS_PAGES)
  {
    hide Reached, Settled, Since, Failed, ImageTreeNodes, StackNodes, ArgNodes, DeviceNodes, ImageFits;
    SettledUsed(secs, true, r, s2, s3, ArgNodes(), 1);
    PartAdded(secs, r, Bare(m1, used1), s2, s3, StackTreeNodes(secs, hhdm, im, v0, n), 2 * KERNEL_STACK_PAGES, ArgNodes(), 1,
      ProcessNodes(secs, hhdm, im, d, v0, n), PROCESS_PAGES);
  }

  lemma DevicePart(secs: seq<Section>, r: Outcome, m1: seq<byte>, used1: set<nat>, s3: Snap, s4: Snap, hhdm: nat, im: KernelImage, d: Devices, v0: nat, n: nat)
    requires ImageFits(im) && Reached(secs, Bare(m1, used1), s3, ArgTreeNodes(secs, hhdm, im, v0, n), PROCESS_PAGES)
    requires Settled(secs, true, r, s3, s4, DeviceNodes(d, hhdm), 0)
    ensures Since(secs, s3, s4)
    ensures if r == Done then Reached(secs, Bare(m1, used1), s4, ProcessNodes(secs, hhdm, im, d, v0, n), PROCESS_PAGES)
      else Since(secs, Bare(m1, used1), s4) && Failed(secs, Bare(m1, used1), s4.used, ProcessNodes(secs, hhdm, im, d, v0, n), PROCESS_PAGES)
  {
    hide Reached, Settled, Since, Failed, ImageTreeNodes, StackNodes, ArgNodes, DeviceNodes, ImageFits;
    SettledSince(secs, true, r, s3, s4, DeviceNodes(d, hhdm), 0);
    PartAdded(secs, r, Bare(m1, used1), s3, s4, ArgTreeNodes(secs, hhdm, im, v0, n), PROCESS_PAGES, DeviceNodes(d, hhdm), 0,
      ProcessNodes(secs, hhdm, im, d, v0, n), PROCESS_PAGES);
  }

  /** The image's frames were taken from those free before. */
  ghost predicate ImageTaken(secs: seq<Section>, used0: set<nat>, f: nat, n: nat, used1: set<nat>) {
    && 0 < n && Pmm.BlockAtFirstRun(secs, used0, n, f * 4096)
    && used1 == used0 + Pmm.Frames(f, n) && used0 !! Pmm.Frames(f, n)
  }

  lemma TreeFailed(secs: seq<Section>, hhdm: nat, im: KernelImage, d: Devices, v0: nat, n: nat, used0: set<nat>, m1: seq<byte>, used1: set<nat>, f: nat, used: set<nat>)
    requires ImageFits(im) && ImageTaken(secs, used0, f, n, used1)
    requires Failed(secs, Bare(m1, used1), used, ImageTreeNodes(secs, hhdm, im, v0, n), KERNEL_STACK_PAGES)
    ensures !SpawnFits(secs, hhdm, im, d, v0, n, used0) && (AllPaged(secs) ==> Pmm.NoRun(secs, used, 1))
  {
    hide Pmm.NoRun, ImageFits, AllPaged, Short, ImageTreeNodes, StackNodes, ArgNodes, DeviceNodes, SpawnFits;
    if AllPaged(secs) {
      ShortMore(secs, Bare(m1, used1), ImageTreeNodes(secs, hhdm, im, v0, n), KERNEL_STACK_PAGES, ProcessNodes(secs, hhdm, im, d, v0, n), PROCESS_PAGES);
    }
    FailedFits(secs, hhdm, im, d, v0, n, used0, m1, used1, f, used);
  }

  lemma PartFailed(secs: seq<Section>, hhdm: nat, im: KernelImage, d: Devices, v0: nat, n: nat, m0: seq<byte>, used0: set<nat>, m1: seq<byte>, used1: set<nat>, f: nat, s: Snap)
    requires ImageFits(im) && ImageTaken(secs, used0, f, n, used1) && UsedKept(m0, used0, m1) && Since(secs, Bare(m1, used1), s)
    requires Failed(secs, Bare(m1, used1), s.used, ProcessNodes(secs, hhdm, im, d, v0, n), PROCESS_PAGES)
    ensures !SpawnFits(secs, hhdm, im, d, v0, n, used0) && (AllPaged(secs) ==> Pmm.NoRun(secs, s.used, 1))
    ensures UsedKept(m0, used0, s.m) && used0 <= s.used
  {
    hide ImageFits, Failed, SpawnFits, Since, UsedKept;
    FailedFits(secs, hhdm, im, d, v0, n, used0, m1, used1, f, s.used);
    SinceBare(secs, m1, used1, s);
    UsedKeptTrans(m0, used0, m1, used1, s.m);
  }

  lemma PartsDone(secs: seq<Section>, hhdm: nat, im: KernelImage, d: Devices, v0: nat, n: nat, m0: seq<byte>, used0: set<nat>, m1: seq<byte>, used1: set<nat>, f: nat, s: Snap)
    requires ImageFits(im) && ImageTaken(secs, used0, f, n, used1) && UsedKept(m0, used0, m1) && AllPaged(secs)
    requires Reached(secs, Bare(m1, used1), s, ProcessNodes(secs, hhdm, im, d, v0, n), PROCESS_PAGES) && Pmm.PmmInv(s.m, secs, s.used)
    ensures SpawnFits(secs, hhdm, im, d, v0, n, used0)
    ensures UsedKept(m0, used0, s.m) && used0 <= s.used
    ensures |s.used| == |used0| + n + |ProcessNodes(secs, hhdm, im, d, v0, n)| + PROCESS_PAGES
  {
    hide ImageFits, Since, UsedKept, Pmm.PmmInv, Pmm.NoRun, Pmm.BlockAtFirstRun, PmmRuns.Capacity, AllPaged, ProcessNodes;
    var all := ProcessNodes(secs, hhdm, im, d, v0, n);
    SinceBare(secs, m1, used1, s);
    UsedKeptTrans(m0, used0, m1, used1, s.m);
    Pmm.RunWasThere(secs, used0, n, f * 4096);
    EnoughWere(secs, Bare(m1, used1), s, all, PROCESS_PAGES);
    NothingMissing(m1, used1, all);
    assert s.t.Keys == {} + all == all;
  }

  /** The frame after the argument frame was free before the call if and only if it was when the argument frame was taken. */
  lemma ArgFrameWas(secs: seq<Section>, used0: set<nat>, m1: seq<byte>, used1: set<nat>, n: nat, f: nat, s2: Snap, s3: Snap, s4: Snap, a: nat, nodes: set<Node>, pages: nat)
    requires ImageTaken(secs, used0, f, n, used1) && Reached(secs, Bare(m1, used1), s2, nodes, pages) && Pmm.PmmInv(s2.m, secs, s2.used)
    requires Pmm.BlockAtFirstRun(secs, s2.used, 1, a * 4096) && a !in s2.used && s2.used <= s3.used && Since(secs, s3, s4) && Owned(s3, a, 1)
    ensures FreeFrame(secs, s2.used, a + 1) <==> FreeFrame(secs, used0, a + 1)
    ensures a in s4.used && a !in used0 && Pmm.Packed(secs, s4.used, a) && Evolved(s3, s4)
  {
    hide Pmm.BlockAtFirstRun, Pmm.Packed, FreeFrame, Pmm.Represents, OthersKept, Counted;
    assert NewPacked(secs, used1, s2.used);
    SpillWasFree(secs, |s2.m|, used0, n, f, s2.used, a);
    Pmm.FirstIsPacked(secs, s2.used, a * 4096);
    Pmm.PackedStays(secs, s2.used, s4.used, a);
    assert a in s3.used;
  }

  // ----- what the process sees ------------------------------------------------------

  /** Address `a` of the image is translated to the image's memory, shifted by the offset of the image's start in its page. */
  lemma ImageTranslates(s: Snap, root: nat, f: nat, n: nat, v0: nat, ph: seq<ProgramHeader>, file: seq<byte>, a: nat)
    requires FitsFile(ph, file) && ImageReady(s, root, f, n, v0, ph, file)
    requires v0 <= a && a / 4096 < v0 / 4096 + n && v0 / 4096 + n <= VPAGES
    ensures Translate(s.m, root, a) == To(f * 4096 + (a - v0) + v0 % 4096)
  {
    hide Walk, Loaded, FitsFile, Vpn;
    LowVpn(a);
    var j := a / 4096 - v0 / 4096;
    assert Walk(s.m, root, 4, v0 / 4096 + j) == (f + j) * 4096 + USER_FLAGS;
    DivOf(f + j, USER_FLAGS);
  }

  /** So the process finds each byte where the loader put it exactly when the lowest segment starts on a page boundary. */
  lemma LoaderNeedsAlignedStart(s: Snap, root: nat, f: nat, n: nat, v0: nat, ph: seq<ProgramHeader>, file: seq<byte>, a: nat)
    requires FitsFile(ph, file) && ImageReady(s, root, f, n, v0, ph, file)
    requires v0 <= a && a / 4096 < v0 / 4096 + n && v0 / 4096 + n <= VPAGES
    ensures Translate(s.m, root, a) == To(f * 4096 + (a - v0)) <==> v0 % 4096 == 0
  {
    ImageTranslates(s, root, f, n, v0, ph, file, a);
  }

  /** Loader correctness: at every address of every segment the process reads the byte of the file, and zero past the file's part. */
  lemma ProcessSeesSegment(secs: seq<Section>, s: Snap, root: nat, f: nat, n: nat, v0: nat, ph: seq<ProgramHeader>, file: seq<byte>,
                           a: nat, args: seq<seq<byte>>, i: nat, j: nat)
    requires ElfOk(ph, file) && FitsFile(ph, file) && ImageSpan(ph, v0, n) && v0 % 4096 == 0
    requires ProcessReady(s, root, f, n, v0, ph, file, a, args)
    requires i < |ph| && ph[i].Loadable() && j < ph[i].sizeInMemory
    ensures Translate(s.m, root, ph[i].vaddr + j) == To(f * 4096 + (ph[i].vaddr + j - v0))
    ensures f * 4096 + (ph[i].vaddr + j - v0) < |s.m|
    ensures s.m[f * 4096 + (ph[i].vaddr + j - v0)] == if j < ph[i].sizeInFile then file[ph[i].offset + j] else 0
  {
    hide Walk, ElfOk, FitsFile, ImageByte, ImageSpan, ImageReady, StackMapped, ArgBlock, Vpn;
    SegmentInSpan(ph, file, v0, n, i);
    SegmentContents(ph, file, i, j);
    ImageTranslates(s, root, f, n, v0, ph, file, ph[i].vaddr + j);
    ImageHolds(s, root, f, n, v0, ph, file, ph[i].vaddr + j);
  }

  lemma ImageHolds(s: Snap, root: nat, f: nat, n: nat, v0: nat, ph: seq<ProgramHeader>, file: seq<byte>, a: nat)
    requires FitsFile(ph, file) && ImageReady(s, root, f, n, v0, ph, file) && v0 <= a < v0 + n * 4096
    ensures f * 4096 + (a - v0) < |s.m| && s.m[f * 4096 + (a - v0)] == ImageByte(ph, file, |ph|, a)
  {
    hide Walk, ImageByte, FitsFile;
    var x := f * 4096 + (a - v0);
    assert s.m[x] == ImageByte(ph, file, |ph|, x - f * 4096 + v0);
  }

  lemma SegmentInSpan(ph: seq<ProgramHeader>, file: seq<byte>, v0: nat, n: nat, i: nat)
    requires ElfOk(ph, file) && ImageSpan(ph, v0, n) && i < |ph| && ph[i].Loadable()
    ensures v0 <= ph[i].vaddr && ph[i].End() <= v0 + n * 4096 && v0 / 4096 + n <= VPAGES
  {
    var first: nat, last: nat :| SpanOf(ph, first, last, v0, n);
    SegmentsInside(ph, file, first, last, i);
    SegmentsInside(ph, file, first, last, last);
    assert SegmentOk(ph[last], file);
  }

  lemma ArgAddress(j: nat)
    requires j < 4096
    ensures Vpn(ARGV_DATA_ADDR + j) == Vpn(ARGV_DATA_ADDR) && (ARGV_DATA_ADDR + j) % 4096 == j
  {
    Layout();
    LowVpn(0x7000_0000_1000 + j);
  }

  /** At the argument address the process reads the argument strings. */
  lemma ProcessSeesArgs(s: Snap, root: nat, f: nat, n: nat, v0: nat, ph: seq<ProgramHeader>, file: seq<byte>, a: nat, args: seq<seq<byte>>, j: nat)
    requires FitsFile(ph, file) && ProcessReady(s, root, f, n, v0, ph, file, a, args) && j < |ArgBlock(args)| <= 4096
    ensures Translate(s.m, root, ARGV_DATA_ADDR + j) == To(a * 4096 + j)
    ensures a * 4096 + j < |s.m| && s.m[a * 4096 + j] == ArgBlock(args)[j]
  {
    hide Walk, FitsFile, ImageReady, StackMapped, ArgBlock, Vpn;
    ArgAddress(j);
    DivOf(a, USER_FLAGS);
    assert args[..|args|] == args;
    assert s.m[a * 4096 + j] == s.m[a * 4096..a * 4096 + |ArgBlock(args)|][j];
  }

  /** The page after the argument page shows the frame after the argument frame, which the call never asked for. */
  lemma SecondArgPage(s: Snap, root: nat, f: nat, n: nat, v0: nat, ph: seq<ProgramHeader>, file: seq<byte>, a: nat, args: seq<seq<byte>>, j: nat)
    requires FitsFile(ph, file) && ProcessReady(s, root, f, n, v0, ph, file, a, args) && j < 4096
    ensures Translate(s.m, root, ARGV_DATA_ADDR + 4096 + j) == To((a + 1) * 4096 + j)
  {
    hide Walk, FitsFile, ImageReady, StackMapped, Holds;
    Layout();
    LowVpn(ARGV_DATA_ADDR + 4096 + j);
    DivOf(a + 1, USER_FLAGS);
  }
}
