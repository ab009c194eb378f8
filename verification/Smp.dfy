/**
Bringing up the other processors (src/processors/smp.c, src/processors/spinlock.c): every
interleaving of the boot processor and the others. The boot processor takes the lock
before it launches a processor; that processor releases it when it is set up.
*/
module Smp {
  import opened KernelState
  import opened PageTree
  import opened Mapping
  import opened Paging
  import opened SectionMap
  import opened KernelMap
  import opened Spawn
  import PagingTheorems
  import Pmm
  import PmmRuns

  /** What the processors share and does not change: the memory map, the kernel's page tree and the processor ids. */
  datatype Machine = Machine(secs: seq<Section>, root: nat, ids: seq<nat>)

  /** Where the boot processor is: acquiring the lock for processor `i` (or for the last time), storing its entry address, or past the final acquire. */
  datatype Boot = Acquiring(i: nat) | Launching(i: nat) | Through

  /** Where another processor is: not launched, in `ap_entry` before and after its `alloc_pages`, halted after its release, or halted for lack of memory. */
  datatype Other = Parked | Entered | Allocated | Released | Stuck

  datatype State = State(boot: Boot, others: seq<Other>, launched: seq<bool>, lock: bool, snap: Snap)

  /** The first of the two stack pages of the processor with the given id. */
  function StackPage(id: nat): int {
    Vpn(KERNEL_STACK_ADDR) - KERNEL_STACK_PAGES * id
  }

  /** The ids of the other processors are distinct, and their stacks lie in the address space. */
  ghost predicate IdsOk(ids: seq<nat>) {
    && |ids| >= 1
    && (forall i :: 1 <= i < |ids| ==> StackPage(ids[i]) >= 0)
    && (forall i, j :: 1 <= i < j < |ids| ==> ids[i] != ids[j])
  }

  lemma StackPages()
    ensures Vpn(KERNEL_STACK_ADDR) == 0xF_FFFF_FFFD
  {
  }

  /** That page is where the code puts the stack: below the boot processor's, two pages for each id. */
  lemma StackAddress(id: nat)
    requires 0x1000 * 2 * id <= 0xFFFF_FFFF_D000
    ensures StackPage(id) == Vpn(0xFFFF_FFFF_FFFF_D000 - 0x1000 * 2 * id)
  {
    var a := 0xFFFF_FFFF_D000 - 0x1000 * 2 * id;
    ModBig(0xFFFF, a);
    assert 0xFFFF_FFFF_FFFF_D000 - 0x1000 * 2 * id == 0xFFFF * 0x1_0000_0000_0000 + a;
    assert a / 0x1000 == 0xF_FFFF_FFFD - 2 * id;
  }

  ghost predicate Apart(p: int, q: int) {
    p + KERNEL_STACK_PAGES <= q || q + KERNEL_STACK_PAGES <= p
  }

  /** The two-page stacks of different processors are disjoint; the boot processor's, mapped at the stack of id 0 whatever its own id, is apart from all others but one with id 0. */
  lemma StacksDisjoint(ids: seq<nat>, i: nat, j: nat)
    requires IdsOk(ids) && 1 <= i < |ids| && 1 <= j < |ids| && i != j
    ensures Apart(StackPage(ids[i]), StackPage(ids[j]))
    ensures Apart(StackPage(0), StackPage(ids[i])) <==> ids[i] != 0
  {
    StackPages();
  }

  // ----- the steps ------------------------------------------------------------------

  ghost predicate Initial(m: Machine, s: State) {
    && IdsOk(m.ids) && Inv(m.secs, m.root, s.snap)
    && s.boot == Acquiring(1) && !s.lock
    && |s.others| == |m.ids| && |s.launched| == |m.ids|
    && (forall i :: 1 <= i < |m.ids| ==> s.others[i] == Parked && !s.launched[i])
  }

  /** `spinlock_aquire`: an atomic test-and-set; a taken lock means another pass of the loop. */
  ghost predicate AcquireStep(m: Machine, s: State, t: State) {
    s.boot.Acquiring? &&
    if s.lock then t == s
    else t == s.(lock := true, boot := if s.boot.i < |m.ids| then Launching(s.boot.i) else Through)
  }

  /** Storing `goto_address`, then on to the next pass of the loop. */
  ghost predicate LaunchStep(m: Machine, s: State, t: State) {
    && s.boot.Launching? && s.boot.i < |s.launched|
    && t == s.(launched := s.launched[s.boot.i := true], boot := Acquiring(s.boot.i + 1))
  }

  /** A parked processor polls its entry address. */
  ghost predicate EnterStep(s: State, i: nat, t: State)
    requires i < |s.others| && i < |s.launched|
  {
    s.others[i] == Parked && if s.launched[i] then t == s.(others := s.others[i := Entered]) else t == s
  }

  /** `alloc_pages` for the processor's own stack: it succeeds, or halts the processor when frames run out. */
  ghost predicate AllocStep(m: Machine, s: State, i: nat, t: State, w: seq<nat>, pages: set<nat>)
    requires i < |s.others| && i < |m.ids| && StackPage(m.ids[i]) >= 0
  {
    && s.others[i] == Entered
    && Progress(m.secs, m.root, s.snap, t.snap, StackPage(m.ids[i]), w, pages) && Backed(w, PRESENT + WRITE, pages)
    && |w| <= KERNEL_STACK_PAGES && (|w| < KERNEL_STACK_PAGES ==> Pmm.NoRun(m.secs, t.snap.used, 1))
    && (|w| == KERNEL_STACK_PAGES ==> Grown(s.snap, t.snap, StackPage(m.ids[i]), StackPage(m.ids[i]) + KERNEL_STACK_PAGES - 1))
    && t == s.(snap := t.snap, others := s.others[i := if |w| == KERNEL_STACK_PAGES then Allocated else Stuck])
  }

  /** `spinlock_release`, then the processor halts. */
  ghost predicate ReleaseStep(s: State, i: nat, t: State)
    requires i < |s.others|
  {
    s.others[i] == Allocated && t == s.(lock := false, others := s.others[i := Released])
  }

  /** Some step of processor `p`; 0 is the boot processor. */
  ghost predicate Moves(m: Machine, s: State, p: nat, t: State) {
    && p < |m.ids| == |s.others| == |s.launched| && IdsOk(m.ids)
    && if p == 0 then AcquireStep(m, s, t) || LaunchStep(m, s, t)
       else EnterStep(s, p, t) || ReleaseStep(s, p, t) || exists w, pages :: AllocStep(m, s, p, t, w, pages)
  }

  ghost predicate Run(m: Machine, ss: seq<State>, ps: seq<nat>) {
    && |ss| == |ps| + 1 && Initial(m, ss[0])
    && forall k {:trigger ps[k]} :: 0 <= k < |ps| ==> Moves(m, ss[k], ps[k], ss[k + 1])
  }

  // ----- the invariant --------------------------------------------------------------

  /** Processor `i` was launched and has not released the lock. */
  predicate Inside(s: State, i: nat)
    requires i < |s.others| && i < |s.launched|
  {
    s.launched[i] && s.others[i] != Released
  }

  ghost predicate Good(m: Machine, s: State) {
    && IdsOk(m.ids) && |s.others| == |m.ids| == |s.launched| && Inv(m.secs, m.root, s.snap)
    && (forall i :: 1 <= i < |m.ids| ==> OtherOk(m, s, i))
    && AtMostOneInside(m, s)
    && BootOk(m, s)
  }

  ghost predicate AtMostOneInside(m: Machine, s: State)
    requires |s.others| == |m.ids| == |s.launched|
  {
    forall i, j :: 1 <= i < |m.ids| && 1 <= j < |m.ids| && Inside(s, i) && Inside(s, j) ==> i == j
  }

  /** A processor that has its stack has it mapped; one that is stuck found no free frame; one that was not launched is parked. */
  ghost predicate OtherOk(m: Machine, s: State, i: nat)
    requires i < |m.ids| && i < |s.others| && i < |s.launched| && StackPage(m.ids[i]) >= 0
  {
    && (!s.launched[i] ==> s.others[i] == Parked)
    && (s.others[i] == Allocated || s.others[i] == Released ==> HasStack(m, s, i))
    && (s.others[i] == Stuck ==> Pmm.NoRun(m.secs, s.snap.used, 1))
    && (Inside(s, i) ==> s.lock)
  }

  ghost predicate HasStack(m: Machine, s: State, i: nat)
    requires i < |m.ids| && StackPage(m.ids[i]) >= 0
  {
    StackMapped(s.snap.m, m.root, s.snap.used, StackPage(m.ids[i]), PRESENT + WRITE)
  }

  ghost predicate LaunchedBelow(s: State, i: nat) {
    forall j :: 1 <= j < |s.launched| ==> (s.launched[j] <==> j < i)
  }

  ghost predicate NoneInside(s: State)
    requires |s.others| == |s.launched|
  {
    forall j :: 1 <= j < |s.others| ==> !Inside(s, j)
  }

  ghost predicate BootOk(m: Machine, s: State)
    requires |s.others| == |m.ids| == |s.launched|
  {
    match s.boot
    case Acquiring(i) => 1 <= i && (1 < |m.ids| ==> i <= |m.ids|) && LaunchedBelow(s, i)
    case Launching(i) => 1 <= i < |m.ids| && s.lock && LaunchedBelow(s, i) && NoneInside(s)
    case Through => s.lock && LaunchedBelow(s, |m.ids|) && NoneInside(s)
  }

  lemma InitialGood(m: Machine, s: State)
    requires Initial(m, s)
    ensures Good(m, s)
  {
  }

  /** Allocating one processor's stack keeps every other processor's stack pages mapped as they are. */
  lemma AllocKeepsStacks(m: Machine, s: State, i: nat, t: State, w: seq<nat>, pages: set<nat>, j: nat)
    requires Good(m, s) && 1 <= i < |m.ids| && AllocStep(m, s, i, t, w, pages)
    requires 1 <= j < |m.ids| && j != i
    ensures WalksSame(s.snap.m, t.snap.m, m.root, StackPage(m.ids[j]), 2) && s.snap.used <= t.snap.used
  {
    hide Progress, Walk, Vpn, Backed, Inv;
    StackPages();
    StacksDisjoint(m.ids, i, j);
    var at := StackPage(m.ids[j]);
    OtherWalks(m.secs, m.root, s.snap, t.snap, StackPage(m.ids[i]), w, pages, at);
  }

  lemma OtherWalks(secs: seq<Section>, root: nat, s0: Snap, s: Snap, vpn: nat, w: seq<nat>, pages: set<nat>, at: nat)
    requires Progress(secs, root, s0, s, vpn, w, pages) && |w| <= 2 && at + 2 <= VPAGES
    requires at + 2 <= vpn || vpn + 2 <= at
    ensures WalksSame(s0.m, s.m, root, at, 2) && s0.used <= s.used
  {
    forall v | at <= v < at + 2
      ensures Walk(s.m, root, 4, v) == Walk(s0.m, root, 4, v)
    {
      PagingTheorems.ProgressLeaf(secs, root, s0, s, vpn, w, pages, v);
    }
  }

  lemma AllocGood(m: Machine, s: State, i: nat, t: State, w: seq<nat>, pages: set<nat>)
    requires Good(m, s) && 1 <= i < |m.ids| && AllocStep(m, s, i, t, w, pages)
    ensures Good(m, t)
  {
    assert OtherOk(m, s, i) && Inside(s, i);
    ProgressParts(m.secs, m.root, s.snap, t.snap, StackPage(m.ids[i]), w, pages);
    hide Progress, Walk, Vpn, Backed, Inv, StackMapped;
    StackPages();
    forall j | 1 <= j < |m.ids|
      ensures OtherOk(m, t, j)
    {
      assert OtherOk(m, s, j) && (j != i ==> !Inside(s, j));
      if j != i {
        AllocKeepsStacks(m, s, i, t, w, pages, j);
        if HasStack(m, s, j) {
          StackStays(m.root, s.snap, t.snap, StackPage(m.ids[j]), PRESENT + WRITE, StackPage(m.ids[j]), 2);
        }
      } else if |w| == 2 {
        StackPagesMapped(m.secs, m.root, s.snap, t.snap, StackPage(m.ids[i]), w, pages, PRESENT + WRITE);
      }
    }
    SameInside(m, s, t);
  }

  /** A step that keeps who is inside, who was launched, the lock and the boot processor keeps their relation. */
  lemma SameInside(m: Machine, s: State, t: State)
    requires |s.others| == |m.ids| == |s.launched| == |t.others| && t.launched == s.launched && t.boot == s.boot && t.lock == s.lock
    requires forall j :: 1 <= j < |m.ids| ==> (Inside(t, j) <==> Inside(s, j))
    requires AtMostOneInside(m, s) && BootOk(m, s)
    ensures AtMostOneInside(m, t) && BootOk(m, t)
  {
  }

  lemma EnterGood(m: Machine, s: State, p: nat, t: State)
    requires Good(m, s) && 1 <= p < |m.ids| && EnterStep(s, p, t)
    ensures Good(m, t)
  {
    hide Inv, StackMapped, Vpn;
    forall j | 1 <= j < |m.ids|
      ensures OtherOk(m, t, j)
    {
      assert OtherOk(m, s, j);
    }
    SameInside(m, s, t);
  }

  /** The release comes from the one processor inside, so afterwards none is. */
  lemma ReleaseGood(m: Machine, s: State, p: nat, t: State)
    requires Good(m, s) && 1 <= p < |m.ids| && ReleaseStep(s, p, t)
    ensures Good(m, t)
  {
    hide Inv, StackMapped, Vpn;
    assert OtherOk(m, s, p) && Inside(s, p);
    forall j | 1 <= j < |m.ids|
      ensures OtherOk(m, t, j) && !Inside(t, j)
    {
      assert OtherOk(m, s, j) && (Inside(s, j) ==> j == p);
    }
  }

  lemma AcquireGood(m: Machine, s: State, t: State)
    requires Good(m, s) && AcquireStep(m, s, t)
    ensures Good(m, t)
  {
    hide Inv, StackMapped, Vpn;
    if !s.lock {
      forall j | 1 <= j < |m.ids|
        ensures OtherOk(m, t, j) && !Inside(t, j)
      {
        assert OtherOk(m, s, j);
      }
    }
  }

  lemma LaunchGood(m: Machine, s: State, t: State)
    requires Good(m, s) && LaunchStep(m, s, t)
    ensures Good(m, t)
  {
    hide Inv, StackMapped, Vpn;
    forall j | 1 <= j < |m.ids|
      ensures OtherOk(m, t, j) && (Inside(t, j) ==> j == s.boot.i)
    {
      assert OtherOk(m, s, j) && !Inside(s, j);
    }
  }

  /** Every step keeps the invariant. */
  lemma StepGood(m: Machine, s: State, p: nat, t: State)
    requires Good(m, s) && Moves(m, s, p, t)
    ensures Good(m, t)
  {
    hide Good;
    if p == 0 {
      if AcquireStep(m, s, t) {
        AcquireGood(m, s, t);
      } else {
        LaunchGood(m, s, t);
      }
    } else if EnterStep(s, p, t) {
      EnterGood(m, s, p, t);
    } else if ReleaseStep(s, p, t) {
      ReleaseGood(m, s, p, t);
    } else {
      var w, pages :| AllocStep(m, s, p, t, w, pages);
      AllocGood(m, s, p, t, w, pages);
    }
  }

  lemma {:induction false} RunGood(m: Machine, ss: seq<State>, ps: seq<nat>, k: nat)
    requires Run(m, ss, ps) && k <= |ps|
    ensures Good(m, ss[k])
  {
    hide Good, Moves, Initial;
    if k == 0 {
      InitialGood(m, ss[0]);
    } else {
      RunGood(m, ss, ps, k - 1);
      assert Moves(m, ss[k - 1], ps[k - 1], ss[k]);
      StepGood(m, ss[k - 1], ps[k - 1], ss[k]);
    }
  }

  // ----- safety ---------------------------------------------------------------------

  /** In every interleaving at most one processor is between its launch and its release of the lock. */
  lemma MutualExclusion(m: Machine, ss: seq<State>, ps: seq<nat>, k: nat, i: nat, j: nat)
    requires Run(m, ss, ps) && k <= |ps| && 1 <= i < |m.ids| && 1 <= j < |m.ids|
    ensures |ss[k].others| == |m.ids| == |ss[k].launched|
    ensures Inside(ss[k], i) && Inside(ss[k], j) ==> i == j
  {
    RunGood(m, ss, ps, k);
  }

  /** The boot processor passes its final acquire only after every other processor has released the lock, and each then has its stack mapped. */
  lemma BootWaitsForAll(m: Machine, ss: seq<State>, ps: seq<nat>, k: nat, i: nat)
    requires Run(m, ss, ps) && k <= |ps| && ss[k].boot == Through && 1 <= i < |m.ids|
    ensures |ss[k].others| == |m.ids| && StackPage(m.ids[i]) >= 0
    ensures ss[k].others[i] == Released && HasStack(m, ss[k], i)
  {
    RunGood(m, ss, ps, k);
    assert OtherOk(m, ss[k], i) && !Inside(ss[k], i) && ss[k].launched[i];
  }

  /** While a processor is inside, no other processor's step changes memory or takes the lock. */
  lemma InsideIsAlone(m: Machine, s: State, p: nat, t: State, i: nat)
    requires Good(m, s) && Moves(m, s, p, t) && 1 <= i < |m.ids| && Inside(s, i) && p != i
    ensures t.snap == s.snap && t.lock == s.lock && t.boot == s.boot
  {
    hide Inv, HasStack;
    assert OtherOk(m, s, i);
    if p == 0 {
      assert !s.boot.Launching?;
    } else {
      assert OtherOk(m, s, p) && !Inside(s, p);
    }
  }

  /** The entries of a processor's two stack pages, once allocated, are the same in every later state of the run. */
  lemma {:induction false} StackSurvives(m: Machine, ss: seq<State>, ps: seq<nat>, i: nat, k: nat, l: nat)
    requires Run(m, ss, ps) && k <= l <= |ps| && 1 <= i < |m.ids|
    requires |ss[k].others| == |m.ids| && (ss[k].others[i] == Allocated || ss[k].others[i] == Released)
    ensures |ss[l].others| == |m.ids| && (ss[l].others[i] == Allocated || ss[l].others[i] == Released)
    ensures StackPage(m.ids[i]) >= 0 && WalksSame(ss[k].snap.m, ss[l].snap.m, m.root, StackPage(m.ids[i]), 2)
    decreases l
  {
    hide Walk, Good, Vpn;
    RunGood(m, ss, ps, l);
    GoodShape(m, ss[l]);
    if k < l {
      StackSurvives(m, ss, ps, i, k, l - 1);
      RunGood(m, ss, ps, l - 1);
      assert Moves(m, ss[l - 1], ps[l - 1], ss[l]);
      StackStep(m, ss[l - 1], ps[l - 1], ss[l], i);
    }
  }

  lemma GoodShape(m: Machine, s: State)
    requires Good(m, s)
    ensures IdsOk(m.ids) && |s.others| == |m.ids| == |s.launched|
  {
  }

  lemma StackStep(m: Machine, s: State, p: nat, t: State, i: nat)
    requires Good(m, s) && Moves(m, s, p, t) && 1 <= i < |m.ids|
    requires |s.others| == |m.ids| && (s.others[i] == Allocated || s.others[i] == Released)
    ensures |t.others| == |m.ids| && (t.others[i] == Allocated || t.others[i] == Released)
    ensures StackPage(m.ids[i]) >= 0 && WalksSame(s.snap.m, t.snap.m, m.root, StackPage(m.ids[i]), 2)
  {
    hide Walk, Good, Vpn, Progress, Backed;
    if p != 0 && !EnterStep(s, p, t) && !ReleaseStep(s, p, t) {
      var w, pages :| AllocStep(m, s, p, t, w, pages);
      AllocKeepsStacks(m, s, p, t, w, pages, i);
    }
  }

  // ----- the boot processor's stack -------------------------------------------------

  predicate HasOwnStack(s: State, i: nat) {
    i < |s.others| && (s.others[i] == Allocated || s.others[i] == Released)
  }

  /** Another processor's stack takes no page of the boot processor's, unless that processor's id is 0. */
  lemma BootStackStep(m: Machine, s: State, p: nat, t: State)
    requires Good(m, s) && Moves(m, s, p, t)
    ensures s.snap.used <= t.snap.used
    ensures (p >= 1 ==> m.ids[p] != 0) ==> WalksSame(s.snap.m, t.snap.m, m.root, StackPage(0), 2)
  {
    hide Walk, Good, Vpn, Progress, Backed, Grown;
    if p != 0 && !EnterStep(s, p, t) && !ReleaseStep(s, p, t) {
      var w, pages :| AllocStep(m, s, p, t, w, pages);
      StackPages();
      var at := if m.ids[p] != 0 then StackPage(0) else StackPage(0) - 2;
      OtherWalks(m.secs, m.root, s.snap, t.snap, StackPage(m.ids[p]), w, pages, at);
    }
  }

  lemma {:induction false} BootStackStays(m: Machine, ss: seq<State>, ps: seq<nat>, k: nat)
    requires Run(m, ss, ps) && k <= |ps|
    ensures ss[0].snap.used <= ss[k].snap.used
    ensures (forall i :: 1 <= i < |m.ids| ==> m.ids[i] != 0) ==> WalksSame(ss[0].snap.m, ss[k].snap.m, m.root, StackPage(0), 2)
  {
    hide Walk, Good, Vpn, Initial, Moves;
    if k > 0 {
      BootStackStays(m, ss, ps, k - 1);
      RunGood(m, ss, ps, k - 1);
      GoodShape(m, ss[k - 1]);
      assert Moves(m, ss[k - 1], ps[k - 1], ss[k]);
      MoverIsProcessor(m, ss[k - 1], ps[k - 1], ss[k]);
      BootStackStep(m, ss[k - 1], ps[k - 1], ss[k]);
    }
  }

  lemma MoverIsProcessor(m: Machine, s: State, p: nat, t: State)
    requires Moves(m, s, p, t)
    ensures p < |m.ids|
  {
  }

  /** The first entry of a processor's stack shows a frame that was free when the stack was made. */
  lemma StackIsNew(m: Machine, s: State, i: nat, t: State, w: seq<nat>, pages: set<nat>)
    requires Good(m, s) && 1 <= i < |m.ids| && AllocStep(m, s, i, t, w, pages) && |w| == 2
    ensures Walk(t.snap.m, m.root, 4, StackPage(m.ids[i])) / 4096 !in s.snap.used
  {
    hide Walk, Vpn, Progress, Backed, Grown;
    StackPages();
    var at := StackPage(m.ids[i]);
    PagingTheorems.AllocPagesTranslates(m.secs, m.root, s.snap, t.snap, at, w, PRESENT + WRITE, pages, at, at + 1);
  }

  lemma StackMade(m: Machine, s: State, p: nat, t: State, i: nat)
    requires Good(m, s) && Moves(m, s, p, t) && 1 <= i < |m.ids| && HasOwnStack(t, i) && !HasOwnStack(s, i)
    ensures Walk(t.snap.m, m.root, 4, StackPage(m.ids[i])) / 4096 !in s.snap.used
  {
    hide Walk, Vpn, Progress, Backed, Grown, Inv;
    var w, pages :| AllocStep(m, s, p, t, w, pages);
    hide Good;
    StackIsNew(m, s, i, t, w, pages);
  }

  lemma {:induction false} StackStaysNew(m: Machine, ss: seq<State>, ps: seq<nat>, i: nat, k: nat)
    requires Run(m, ss, ps) && k <= |ps| && 1 <= i < |m.ids| && HasOwnStack(ss[k], i)
    ensures StackPage(m.ids[i]) >= 0 && Walk(ss[k].snap.m, m.root, 4, StackPage(m.ids[i])) / 4096 !in ss[0].snap.used
  {
    hide Walk, Good, Vpn, Moves;
    RunGood(m, ss, ps, k);
    GoodShape(m, ss[k]);
    if k > 0 {
      RunGood(m, ss, ps, k - 1);
      assert Moves(m, ss[k - 1], ps[k - 1], ss[k]);
      BootStackStays(m, ss, ps, k - 1);
      if HasOwnStack(ss[k - 1], i) {
        StackStaysNew(m, ss, ps, i, k - 1);
        GoodShape(m, ss[k - 1]);
        StackStep(m, ss[k - 1], ps[k - 1], ss[k], i);
      } else {
        StackMade(m, ss[k - 1], ps[k - 1], ss[k], i);
      }
    }
  }

  /** When all processors are up, the boot processor's stack still shows its own frames if and only if no other processor has id 0. */
  lemma BootStackKept(m: Machine, ss: seq<State>, ps: seq<nat>, k: nat)
    requires Run(m, ss, ps) && k <= |ps| && ss[k].boot == Through
    requires StackMapped(ss[0].snap.m, m.root, ss[0].snap.used, StackPage(0), PRESENT + WRITE)
    ensures WalksSame(ss[0].snap.m, ss[k].snap.m, m.root, StackPage(0), 2) <==> forall i :: 1 <= i < |m.ids| ==> m.ids[i] != 0
  {
    hide Walk, Vpn, Moves, Initial, Inv;
    BootStackStays(m, ss, ps, k);
    if i :| 1 <= i < |m.ids| && m.ids[i] == 0 {
      BootWaitsForAll(m, ss, ps, k, i);
      StackStaysNew(m, ss, ps, i, k);
      assert Walk(ss[k].snap.m, m.root, 4, StackPage(0)) != Walk(ss[0].snap.m, m.root, 4, StackPage(0));
    }
  }

  // ----- progress -------------------------------------------------------------------

  /** Processor `p` can do something other than spin. */
  predicate CanAct(s: State, p: nat)
    requires p < |s.others| == |s.launched|
  {
    if p == 0 then s.boot.Launching? || (s.boot.Acquiring? && !s.lock)
    else s.others[p] == Entered || s.others[p] == Allocated || (s.others[p] == Parked && s.launched[p])
  }

  /** A processor that can act has a step, and it is not spinning. */
  lemma ActorHasStep(m: Machine, s: State, p: nat) returns (t: State)
    requires Good(m, s) && p < |m.ids| && CanAct(s, p)
    ensures Moves(m, s, p, t) && t != s
  {
    hide Inv, HasStack, Progress, Backed;
    if p == 0 {
      t := if s.boot.Launching? then s.(launched := s.launched[s.boot.i := true], boot := Acquiring(s.boot.i + 1))
           else s.(lock := true, boot := if s.boot.i < |m.ids| then Launching(s.boot.i) else Through);
      assert if s.boot.Launching? then LaunchStep(m, s, t) else AcquireStep(m, s, t);
    } else if s.others[p] == Parked {
      t := s.(others := s.others[p := Entered]);
      assert EnterStep(s, p, t) && t.others[p] == Entered;
    } else if s.others[p] == Allocated {
      t := s.(lock := false, others := s.others[p := Released]);
      assert ReleaseStep(s, p, t) && t.others[p] == Released;
    } else {
      t := AllocHappens(m, s, p);
    }
  }

  /** The step of a processor in `ap_entry`: there is always a way for its `alloc_pages` to end. */
  lemma AllocHappens(m: Machine, s: State, p: nat) returns (t: State)
    requires Good(m, s) && 1 <= p < |m.ids| && s.others[p] == Entered
    ensures Moves(m, s, p, t) && t != s
  {
    hide HasStack, Progress, Pmm.NoRun;
    StackPages();
    var at := StackPage(m.ids[p]);
    PagingTheorems.CallStarts(m.secs, m.root, s.snap, at, PRESENT + WRITE);
    var u, w, pages := PagingTheorems.CallEnds(m.secs, m.root, s.snap, s.snap, at, [], {}, PRESENT + WRITE, KERNEL_STACK_PAGES);
    t := s.(snap := u, others := s.others[p := if |w| == KERNEL_STACK_PAGES then Allocated else Stuck]);
    assert AllocStep(m, s, p, t, w, pages);
    assert t.others[p] != s.others[p];
  }

  /** A processor gets stuck only when every frame is in use. */
  lemma StuckWithoutFrames(m: Machine, ss: seq<State>, ps: seq<nat>, k: nat, i: nat)
    requires Run(m, ss, ps) && k <= |ps| && 1 <= i < |m.ids|
    ensures |ss[k].others| == |m.ids|
    ensures ss[k].others[i] == Stuck ==> Pmm.NoRun(m.secs, ss[k].snap.used, 1)
  {
    RunGood(m, ss, ps, k);
    hide Inv, HasStack;
    assert OtherOk(m, ss[k], i);
  }

  /** Until the boot processor is through, someone can act if and only if nobody is stuck. */
  lemma SomeoneCanAct(m: Machine, ss: seq<State>, ps: seq<nat>, k: nat)
    requires Run(m, ss, ps) && k <= |ps| && ss[k].boot != Through
    ensures |m.ids| == |ss[k].others| == |ss[k].launched|
    ensures (exists p: nat :: p < |m.ids| && CanAct(ss[k], p)) <==> forall i :: 1 <= i < |m.ids| ==> ss[k].others[i] != Stuck
  {
    RunGood(m, ss, ps, k);
    GoodShape(m, ss[k]);
    hide Good, Run, CanAct;
    var s := ss[k];
    if i :| 1 <= i < |m.ids| && s.others[i] == Stuck {
      forall p: nat | p < |m.ids|
        ensures !CanAct(s, p)
      {
        StuckBlocks(m, s, i, p);
      }
    } else {
      var p := Actor(m, ss, ps, k);
    }
  }

  /** A stuck processor holds the lock for ever: nobody does anything but spin. */
  lemma StuckBlocks(m: Machine, s: State, i: nat, p: nat)
    requires Good(m, s) && s.boot != Through && 1 <= i < |m.ids| && s.others[i] == Stuck && p < |m.ids|
    ensures !CanAct(s, p)
  {
    hide Inv, HasStack;
    assert OtherOk(m, s, i) && Inside(s, i);
    assert p > 0 ==> OtherOk(m, s, p) && (Inside(s, p) ==> p == i);
  }

  lemma Actor(m: Machine, ss: seq<State>, ps: seq<nat>, k: nat) returns (p: nat)
    requires Run(m, ss, ps) && k <= |ps| && ss[k].boot != Through
    requires forall i :: 1 <= i < |ss[k].others| ==> ss[k].others[i] != Stuck
    ensures p < |m.ids| == |ss[k].others| == |ss[k].launched| && CanAct(ss[k], p)
  {
    RunGood(m, ss, ps, k);
    LockHolder(m, ss, ps, k);
    var s := ss[k];
    if s.boot.Acquiring? && s.lock {
      p :| 1 <= p < |m.ids| && Inside(s, p);
    } else {
      p := 0;
    }
  }

  /** A taken lock is held by the boot processor or by a processor inside. */
  lemma {:induction false} LockHolder(m: Machine, ss: seq<State>, ps: seq<nat>, k: nat)
    requires Run(m, ss, ps) && k <= |ps|
    ensures |ss[k].others| == |m.ids| == |ss[k].launched|
    ensures ss[k].lock && ss[k].boot.Acquiring? ==> exists i :: 1 <= i < |m.ids| && Inside(ss[k], i)
  {
    RunGood(m, ss, ps, k);
    if k > 0 {
      LockHolder(m, ss, ps, k - 1);
      RunGood(m, ss, ps, k - 1);
      assert Moves(m, ss[k - 1], ps[k - 1], ss[k]);
      HolderStep(m, ss[k - 1], ps[k - 1], ss[k]);
    }
  }

  lemma HolderStep(m: Machine, s: State, p: nat, t: State)
    requires Good(m, s) && Good(m, t) && Moves(m, s, p, t)
    requires s.lock && s.boot.Acquiring? ==> exists i :: 1 <= i < |m.ids| && Inside(s, i)
    ensures t.lock && t.boot.Acquiring? ==> exists i :: 1 <= i < |m.ids| && Inside(t, i)
  {
    hide Inv, HasStack, Progress, Backed;
    assert s.boot.Launching? ==> OtherOk(m, s, s.boot.i) && !s.launched[s.boot.i];
    if t.lock && t.boot.Acquiring? {
      if s.boot.Launching? {
        assert Inside(t, s.boot.i);
      } else {
        var i :| 1 <= i < |m.ids| && Inside(s, i);
        assert OtherOk(m, s, i);
        assert Inside(t, i);
      }
    }
  }

  /** How many more steps that are not spinning a processor can take. */
  function Left(o: Other): nat {
    match o
    case Parked => 3 case Entered => 2 case Allocated => 1 case Released => 0 case Stuck => 0
  }

  function LeftAll(os: seq<Other>): nat {
    if os == [] then 0 else LeftAll(os[..|os| - 1]) + Left(os[|os| - 1])
  }

  function BootLeft(b: Boot, n: nat): nat {
    match b
    case Acquiring(i) => if i <= n then 2 * (n - i) + 1 else 1
    case Launching(i) => if i <= n then 2 * (n - i) else 0
    case Through => 0
  }

  function Measure(m: Machine, s: State): nat {
    BootLeft(s.boot, |m.ids|) + LeftAll(s.others)
  }

  lemma {:induction false} LeftAllUpdate(os: seq<Other>, i: nat, o: Other)
    requires i < |os|
    ensures LeftAll(os[i := o]) + Left(os[i]) == LeftAll(os) + Left(o)
    decreases |os|
  {
    var n := |os| - 1;
    if i < n {
      assert os[i := o][..n] == os[..n][i := o];
      LeftAllUpdate(os[..n], i, o);
    } else {
      assert os[i := o][..n] == os[..n];
    }
  }

  /** Every step that is not spinning brings the end closer: it decreases the measure; spinning changes nothing. */
  lemma ActingDecreases(m: Machine, s: State, p: nat, t: State)
    requires Good(m, s) && Moves(m, s, p, t)
    ensures CanAct(s, p) ==> Measure(m, t) < Measure(m, s)
    ensures !CanAct(s, p) ==> t == s
  {
    hide Inv, HasStack, Progress, Backed, LeftAll;
    if p > 0 && CanAct(s, p) {
      LeftAllUpdate(s.others, p, t.others[p]);
    }
  }

  // ----- how much memory the stacks take --------------------------------------------

  /** The processors other than the boot processor. */
  ghost function Others(m: Machine): set<nat>
    requires |m.ids| >= 1
  {
    Pmm.Frames(1, |m.ids| - 1)
  }

  ghost function WithStack(m: Machine, s: State): (r: set<nat>)
    requires |m.ids| >= 1
  {
    set i | i in Others(m) && HasOwnStack(s, i)
  }

  /** All tables below the root on the paths of the stacks of the processors in `some`. */
  ghost function StackTables(ids: seq<nat>, some: set<nat>): (r: set<Node>)
    requires IdsOk(ids)
  {
    set i, x | i in some && 1 <= i < |ids| && x in PagingTheorems.AllTouched(StackPage(ids[i]), KERNEL_STACK_PAGES) :: x
  }

  ghost function MissingTables(m: Machine, s: State): set<Node>
    requires IdsOk(m.ids)
  {
    StackTables(m.ids, Others(m)) - s.snap.t.Keys
  }

  /** The frames that all stacks take from `s` on: their pages, and the tables on their paths that are missing. */
  ghost function StackNeed(m: Machine, s: State): nat
    requires IdsOk(m.ids)
  {
    KERNEL_STACK_PAGES * (|m.ids| - 1) + |MissingTables(m, s)|
  }

  ghost predicate Enough(m: Machine, s: State)
    requires IdsOk(m.ids)
  {
    |s.snap.used| + StackNeed(m, s) <= |PmmRuns.Capacity(m.secs)|
  }

  predicate NoneStuck(s: State) {
    forall i :: 1 <= i < |s.others| ==> s.others[i] != Stuck
  }

  /** While nobody is stuck, exactly the pages and tables of the stacks made so far were taken. */
  ghost predicate Tally(m: Machine, s0: State, s: State)
    requires IdsOk(m.ids)
  {
    && s.snap.t.Keys == s0.snap.t.Keys + StackTables(m.ids, WithStack(m, s))
    && |s.snap.used| == |s0.snap.used| + |s.snap.t| - |s0.snap.t| + KERNEL_STACK_PAGES * |WithStack(m, s)|
  }

  lemma TallyStarts(m: Machine, s: State)
    requires Initial(m, s)
    ensures NoneStuck(s) && Tally(m, s, s)
  {
    assert WithStack(m, s) == {};
  }

  lemma OneMore(m: Machine, s: State, t: State, i: nat)
    requires IdsOk(m.ids) && 1 <= i < |m.ids| && StackPage(m.ids[i]) >= 0 && WithStack(m, t) == WithStack(m, s) + {i}
    ensures StackTables(m.ids, WithStack(m, t)) == StackTables(m.ids, WithStack(m, s)) + PagingTheorems.AllTouched(StackPage(m.ids[i]), KERNEL_STACK_PAGES)
  {
    hide PagingTheorems.AllTouched, Vpn;
  }

  /** A finished allocation takes two pages and the missing tables on their paths. */
  lemma StackTaken(m: Machine, s: State, i: nat, t: State, w: seq<nat>, pages: set<nat>)
    requires Good(m, s) && 1 <= i < |m.ids| && AllocStep(m, s, i, t, w, pages) && |w| == KERNEL_STACK_PAGES
    ensures t.snap.t.Keys == s.snap.t.Keys + PagingTheorems.AllTouched(StackPage(m.ids[i]), KERNEL_STACK_PAGES)
    ensures |t.snap.used| == |s.snap.used| + |t.snap.t| - |s.snap.t| + KERNEL_STACK_PAGES
    ensures WithStack(m, t) == WithStack(m, s) + {i} && i !in WithStack(m, s)
  {
    hide Vpn, Good, Backed, Progress, Grown, PagingTheorems.AllTouched, WithStack, Pmm.NoRun;
    GoodShape(m, s);
    PagingTheorems.TablesExact(m.secs, m.root, s.snap, t.snap, StackPage(m.ids[i]), w, pages);
    ProgressCount(m.secs, m.root, s.snap, t.snap, StackPage(m.ids[i]), w, pages, PRESENT + WRITE);
    StackAdded(m, s, t, i);
  }

  lemma ProgressCount(secs: seq<Section>, root: nat, s0: Snap, s: Snap, vpn: nat, w: seq<nat>, pages: set<nat>, flags: nat)
    requires Progress(secs, root, s0, s, vpn, w, pages) && Backed(w, flags, pages)
    ensures |s.used| == |s0.used| + |s.t| - |s0.t| + |w| && Inv(secs, root, s)
    ensures Grown(s0, s, vpn, vpn + |w|)
  {
    hide Inv, Grown, OthersKept, LeavesAre, PathsThere, CleanPages, TakenFirst;
  }

  lemma StackAdded(m: Machine, s: State, t: State, i: nat)
    requires 1 <= i < |m.ids| == |s.others| && s.others[i] == Entered && t.others == s.others[i := Allocated]
    ensures WithStack(m, t) == WithStack(m, s) + {i} && i !in WithStack(m, s)
  {
  }

  /** A starved allocation took at most one page, and no table but those on the paths of its stack; then all frames were in use. */
  lemma StackStarved(m: Machine, s: State, i: nat, t: State, w: seq<nat>, pages: set<nat>)
    requires Good(m, s) && 1 <= i < |m.ids| && AllocStep(m, s, i, t, w, pages) && |w| < KERNEL_STACK_PAGES
    ensures t.snap.t.Keys - s.snap.t.Keys <= PagingTheorems.AllTouched(StackPage(m.ids[i]), KERNEL_STACK_PAGES)
    ensures s.snap.t.Keys <= t.snap.t.Keys
    ensures |t.snap.used| <= |s.snap.used| + |t.snap.t| - |s.snap.t| + 1
    ensures |t.snap.used| == |PmmRuns.Capacity(m.secs)|
    ensures i !in WithStack(m, s)
  {
    hide Vpn, Good, Grown, Backed, Progress, PmmRuns.Capacity, Pmm.NoRun, Pmm.PmmInv, TreeOk, TablesUsed, PagingTheorems.AllTouched;
    GoodShape(m, s);
    var at := StackPage(m.ids[i]);
    ProgressCount(m.secs, m.root, s.snap, t.snap, at, w, pages, PRESENT + WRITE);
    PmmRuns.FullWhenNoRun(t.snap.m, m.secs, t.snap.used);
    GrownFurther(s.snap, t.snap, at, at + |w|, at + 1);
    PagingTheorems.NewKeys(s.snap, t.snap, at, 1);
  }

  lemma GrownFurther(s0: Snap, s: Snap, vpn: nat, last: nat, further: nat)
    requires Grown(s0, s, vpn, last) && last <= further
    ensures Grown(s0, s, vpn, further)
  {
    forall n | n in s.t && n !in s0.t
      ensures OnRange(n, vpn, further)
    {
      UpMonotone(n.level, last, further);
    }
  }

  /** The tally is kept; a processor can only get stuck when there was not enough at the start. */
  lemma TallyStep(m: Machine, s0: State, s: State, p: nat, t: State)
    requires Good(m, s) && Moves(m, s, p, t) && NoneStuck(s) && Tally(m, s0, s) && s0.snap.t.Keys <= s.snap.t.Keys
    ensures NoneStuck(t) ==> Tally(m, s0, t)
    ensures Enough(m, s0) ==> NoneStuck(t)
  {
    hide Vpn, Good, Progress, Backed, Grown, Pmm.NoRun, StackTables, WithStack, PagingTheorems.AllTouched, Enough;
    GoodShape(m, s);
    if p != 0 && !EnterStep(s, p, t) && !ReleaseStep(s, p, t) {
      var w, pages :| AllocStep(m, s, p, t, w, pages);
      if |w| == KERNEL_STACK_PAGES {
        TakenTally(m, s0, s, p, t, w, pages);
      } else {
        assert t.others[p] == Stuck;
        StarvedNeed(m, s0, s, p, t, w, pages);
      }
    } else {
      SameStacks(m, s, p, t);
    }
  }

  lemma SameStacks(m: Machine, s: State, p: nat, t: State)
    requires Moves(m, s, p, t) && (p == 0 || EnterStep(s, p, t) || ReleaseStep(s, p, t))
    ensures WithStack(m, t) == WithStack(m, s) && t.snap == s.snap && (NoneStuck(s) ==> NoneStuck(t))
  {
  }

  lemma TakenTally(m: Machine, s0: State, s: State, i: nat, t: State, w: seq<nat>, pages: set<nat>)
    requires Good(m, s) && 1 <= i < |m.ids| && AllocStep(m, s, i, t, w, pages) && |w| == KERNEL_STACK_PAGES
    requires NoneStuck(s) && Tally(m, s0, s)
    ensures NoneStuck(t) && Tally(m, s0, t)
  {
    hide Vpn, StackPage, Good, AllocStep, StackTables, WithStack, PagingTheorems.AllTouched;
    GoodShape(m, s);
    StackTaken(m, s, i, t, w, pages);
    OneMore(m, s, t, i);
    UnionStep(s0.snap.t.Keys, StackTables(m.ids, WithStack(m, s)), PagingTheorems.AllTouched(StackPage(m.ids[i]), KERNEL_STACK_PAGES));
    SizeOneMore(WithStack(m, s), i);
    StillNoneStuck(m, s, i, t, w, pages);
  }

  lemma UnionStep(a: set<Node>, b: set<Node>, c: set<Node>)
    ensures (a + b) + c == a + (b + c)
  {
  }

  lemma SizeOneMore(a: set<nat>, i: nat)
    requires i !in a
    ensures |a + {i}| == |a| + 1
  {
  }

  lemma StillNoneStuck(m: Machine, s: State, i: nat, t: State, w: seq<nat>, pages: set<nat>)
    requires i < |s.others| && i < |m.ids| && StackPage(m.ids[i]) >= 0
    requires AllocStep(m, s, i, t, w, pages) && |w| == KERNEL_STACK_PAGES && NoneStuck(s)
    ensures NoneStuck(t)
  {
    hide Vpn, StackPage, Progress, Backed, Grown, Pmm.NoRun;
  }

  lemma StarvedNeed(m: Machine, s0: State, s: State, i: nat, t: State, w: seq<nat>, pages: set<nat>)
    requires Good(m, s) && 1 <= i < |m.ids| && AllocStep(m, s, i, t, w, pages) && |w| < KERNEL_STACK_PAGES
    requires Tally(m, s0, s)
    ensures !Enough(m, s0)
  {
    StackStarved(m, s, i, t, w, pages);
    GoodShape(m, s);
    hide Vpn, StackPage, Good, AllocStep, PmmRuns.Capacity, PagingTheorems.AllTouched, WithStack, StackTables, Others, MissingTables;
    WithStackSize(m, s, i);
    MadeWasMissing(m, s0, s, i, t);
  }

  lemma MadeWasMissing(m: Machine, s0: State, s: State, i: nat, t: State)
    requires IdsOk(m.ids) && 1 <= i < |m.ids| && s.snap.t.Keys <= t.snap.t.Keys
    requires s.snap.t.Keys == s0.snap.t.Keys + StackTables(m.ids, WithStack(m, s))
    requires t.snap.t.Keys - s.snap.t.Keys <= PagingTheorems.AllTouched(StackPage(m.ids[i]), KERNEL_STACK_PAGES)
    ensures |t.snap.t| <= |s0.snap.t| + |MissingTables(m, s0)|
  {
    hide Vpn, StackPage, PagingTheorems.AllTouched, WithStack, StackTables, Others;
    TablesWithin(m, s, i);
    SizeWithin(s0.snap.t.Keys, t.snap.t.Keys, MissingTables(m, s0));
  }

  lemma SizeWithin(a: set<Node>, b: set<Node>, c: set<Node>)
    requires a <= b <= a + c
    ensures |b| <= |a| + |c|
  {
    assert b == a + (b - a);
    PagingTheorems.SubsetSize(b - a, c);
  }

  lemma WithStackSize(m: Machine, s: State, i: nat)
    requires 1 <= i < |m.ids| && i !in WithStack(m, s)
    ensures |WithStack(m, s)| + 1 <= |m.ids| - 1
  {
    PagingTheorems.SubsetSize(WithStack(m, s) + {i}, Others(m));
  }

  lemma TablesWithin(m: Machine, s: State, i: nat)
    requires IdsOk(m.ids) && 1 <= i < |m.ids|
    ensures StackTables(m.ids, WithStack(m, s)) <= StackTables(m.ids, Others(m))
    ensures PagingTheorems.AllTouched(StackPage(m.ids[i]), KERNEL_STACK_PAGES) <= StackTables(m.ids, Others(m))
  {
    hide PagingTheorems.AllTouched, Vpn;
    assert i in Others(m);
  }

  /** Nobody ever gets unstuck. */
  lemma StuckStays(m: Machine, s: State, p: nat, t: State)
    requires Moves(m, s, p, t) && NoneStuck(t)
    ensures NoneStuck(s)
  {
    hide Vpn, Progress, Backed, Grown, Pmm.NoRun;
    if i :| 1 <= i < |s.others| && s.others[i] == Stuck {
      assert t.others[i] == Stuck;
    }
  }

  lemma {:induction false} RunTally(m: Machine, ss: seq<State>, ps: seq<nat>, k: nat)
    requires Run(m, ss, ps) && k <= |ps|
    ensures IdsOk(m.ids)
    ensures NoneStuck(ss[k]) ==> Tally(m, ss[0], ss[k])
    ensures Enough(m, ss[0]) ==> NoneStuck(ss[k])
  {
    hide Good, Vpn, Moves, Initial, Tally, NoneStuck, Enough;
    RunGood(m, ss, ps, k);
    GoodShape(m, ss[k]);
    if k == 0 {
      TallyStarts(m, ss[0]);
    } else {
      RunTally(m, ss, ps, k - 1);
      RunGood(m, ss, ps, k - 1);
      assert Moves(m, ss[k - 1], ps[k - 1], ss[k]);
      if NoneStuck(ss[k - 1]) {
        TallyKeys(m, ss[0], ss[k - 1]);
        TallyStep(m, ss[0], ss[k - 1], ps[k - 1], ss[k]);
      } else if NoneStuck(ss[k]) {
        StuckStays(m, ss[k - 1], ps[k - 1], ss[k]);
      }
    }
  }

  lemma TallyKeys(m: Machine, s0: State, s: State)
    requires IdsOk(m.ids) && Tally(m, s0, s)
    ensures s0.snap.t.Keys <= s.snap.t.Keys
  {
  }

  /** When the boot processor is through, exactly the frames of all stacks were taken. */
  lemma ThroughTakes(m: Machine, ss: seq<State>, ps: seq<nat>, k: nat)
    requires Run(m, ss, ps) && k <= |ps| && ss[k].boot == Through
    ensures IdsOk(m.ids) && |ss[k].snap.used| == |ss[0].snap.used| + StackNeed(m, ss[0])
    ensures Enough(m, ss[0])
  {
    RunTally(m, ss, ps, k);
    RunGood(m, ss, ps, k);
    hide Run, Vpn, Inv, HasStack, StackTables, PmmRuns.Capacity;
    var s0, s := ss[0], ss[k];
    forall i | 1 <= i < |m.ids|
      ensures HasOwnStack(s, i) && s.others[i] != Stuck
    {
      assert OtherOk(m, s, i) && !Inside(s, i) && s.launched[i];
    }
    assert WithStack(m, s) == Others(m);
    assert s.snap.t.Keys == s0.snap.t.Keys + MissingTables(m, s0);
    InUseFit(m, s);
  }

  lemma InUseFit(m: Machine, s: State)
    requires Good(m, s)
    ensures |s.snap.used| <= |PmmRuns.Capacity(m.secs)|
  {
    PmmRuns.FullWhenNoRun(s.snap.m, m.secs, s.snap.used);
    PagingTheorems.SubsetSize(s.snap.used, PmmRuns.Capacity(m.secs));
  }

  /** With enough frames at the start nobody gets stuck in any interleaving, and until the boot processor is through somebody can act. */
  lemma EnoughForAll(m: Machine, ss: seq<State>, ps: seq<nat>, k: nat)
    requires Run(m, ss, ps) && k <= |ps| && Enough(m, ss[0])
    ensures NoneStuck(ss[k])
    ensures ss[k].boot != Through ==> exists p: nat :: p < |m.ids| == |ss[k].others| == |ss[k].launched| && CanAct(ss[k], p)
  {
    RunTally(m, ss, ps, k);
    hide Run, CanAct, Enough;
    if ss[k].boot != Through {
      SomeoneCanAct(m, ss, ps, k);
    }
  }

  /** A run in which nobody can act any more has brought up all processors if and only if there were enough frames at the start. */
  lemma EndsThroughIff(m: Machine, ss: seq<State>, ps: seq<nat>)
    requires Run(m, ss, ps)
    requires |m.ids| == |ss[|ps|].others| == |ss[|ps|].launched| && forall p: nat :: p < |m.ids| ==> !CanAct(ss[|ps|], p)
    ensures ss[|ps|].boot == Through <==> Enough(m, ss[0])
  {
    hide CanAct, Enough;
    if Enough(m, ss[0]) {
      EnoughForAll(m, ss, ps, |ps|);
    } else if ss[|ps|].boot == Through {
      ThroughTakes(m, ss, ps, |ps|);
    }
  }

  /** Six tables for each stack at most. */
  lemma {:induction false} StackTablesSize(m: Machine, n: nat)
    requires IdsOk(m.ids) && 1 <= n <= |m.ids|
    ensures |StackTables(m.ids, Pmm.Frames(1, n - 1))| <= 6 * (n - 1)
  {
    hide Vpn, PagingTheorems.AllTouched;
    if n == 1 {
      assert StackTables(m.ids, Pmm.Frames(1, 0)) == {};
    } else {
      StackTablesSize(m, n - 1);
      var rest, last := StackTables(m.ids, Pmm.Frames(1, n - 2)), PagingTheorems.AllTouched(StackPage(m.ids[n - 1]), KERNEL_STACK_PAGES);
      assert StackTables(m.ids, Pmm.Frames(1, n - 1)) == rest + last;
      PagingTheorems.AllTouchedSize(StackPage(m.ids[n - 1]), KERNEL_STACK_PAGES);
      SizeOfUnion(rest, last);
    }
  }

  lemma SizeOfUnion(a: set<Node>, b: set<Node>)
    ensures |a + b| <= |a| + |b|
  {
    assert a + b == a + (b - a);
    PagingTheorems.SubsetSize(b - a, b);
  }

  lemma SizeOfRest(a: set<Node>, b: set<Node>)
    ensures |a - b| <= |a|
  {
    PagingTheorems.SubsetSize(a - b, a);
  }

  lemma AllStacksSize(m: Machine)
    requires IdsOk(m.ids)
    ensures |StackTables(m.ids, Others(m))| <= 6 * (|m.ids| - 1)
  {
    hide StackTables, Vpn, StackPage;
    StackTablesSize(m, |m.ids|);
  }

  lemma MissingSize(m: Machine, s: State)
    requires IdsOk(m.ids)
    ensures |MissingTables(m, s)| <= 6 * (|m.ids| - 1)
  {
    hide StackTables, Vpn, StackPage, IdsOk, Others;
    AllStacksSize(m);
    SizeOfRest(StackTables(m.ids, Others(m)), s.snap.t.Keys);
  }

  /** Eight free frames for each other processor are always enough. */
  lemma EightEach(m: Machine, s: State)
    requires IdsOk(m.ids) && |s.snap.used| + 8 * (|m.ids| - 1) <= |PmmRuns.Capacity(m.secs)|
    ensures Enough(m, s)
  {
    hide MissingTables, Vpn, StackPage, PmmRuns.Capacity;
    MissingSize(m, s);
  }
}
