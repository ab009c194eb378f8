/**
Physical memory shifted by `hhdm`, as `map_sections` maps it (src/mem/map.c:16-30), and
the closure of this self-map: the kernel reaches every frame of its allocator through it.
*/
module SectionMap {
  import opened Bytes
  import opened KernelState
  import opened PageTree
  import opened Mapping
  import opened Paging
  import opened PagingTheorems
  import opened FrameCount
  import opened UserView
  import Pmm
  import PmmRuns

  const PRESENT := 1
  const WRITE := 2

  /** The section kinds `map_sections` maps. */
  predicate Mapped(kind: SectionKind) {
    kind == Usable || kind == BootloaderReclaimable || kind == Framebuffer ||
    kind == KernelAndModules || kind == AcpiNvs || kind == AcpiReclaimable
  }

  /** Mapped sections have room above `hhdm` in the virtual address space. */
  ghost predicate SectionsFit(secs: seq<Section>, hhdm: nat) {
    && hhdm % 4096 == 0
    && forall i :: 0 <= i < |secs| && Mapped(secs[i].kind) ==> SectionFits(secs[i], hhdm)
  }

  predicate SectionFits(s: Section, hhdm: nat) {
    hhdm % 0x1_0000_0000_0000 + s.base + s.length <= 0x1_0000_0000_0000
  }

  /** A section that is mapped has at least one whole page; the page count of a shorter one is zero, which `map_pages` takes for 2^64. */
  predicate Paged(s: Section) {
    Mapped(s.kind) ==> s.length >= 4096
  }

  ghost predicate AllPaged(secs: seq<Section>) {
    forall i :: 0 <= i < |secs| ==> Paged(secs[i])
  }

  /** Frame `f` lies in a section that is mapped. */
  ghost predicate InMapped(secs: seq<Section>, f: nat) {
    exists i :: 0 <= i < |secs| && HoldsFrame(secs[i], f)
  }

  predicate HoldsFrame(s: Section, f: nat) {
    Mapped(s.kind) && s.base / 4096 <= f < s.base / 4096 + s.length / 4096
  }

  /** The entry that mapping section `s` writes for frame `f`: present and writable, with the offset of `s.base` in its page among the low bits. */
  function SectionEntry(s: Section, f: nat): nat {
    f * 4096 + Low(s.base, PRESENT + WRITE)
  }

  /** The entry that is left when all sections are mapped: the last section that holds the frame decides. */
  ghost function LeafOf(secs: seq<Section>, f: nat): nat {
    if secs == [] then 0
    else if HoldsFrame(secs[|secs| - 1], f) then SectionEntry(secs[|secs| - 1], f)
    else LeafOf(secs[..|secs| - 1], f)
  }

  ghost predicate HasLeaf(m: seq<byte>, root: nat, hhdm: nat, secs: seq<Section>, f: nat) {
    Walk(m, root, 4, Vpn(hhdm) + f) == LeafOf(secs, f)
  }

  /** The page `hhdm` plus frame `f` has that entry, for all frames of mapped sections. */
  ghost predicate SectionLeaves(m: seq<byte>, root: nat, hhdm: nat, secs: seq<Section>) {
    forall f {:trigger HasLeaf(m, root, hhdm, secs, f)} :: InMapped(secs, f) ==> HasLeaf(m, root, hhdm, secs, f)
  }

  /** Entry `e` shows frame `f` with the flags of a device page, or as one of the sections has it. */
  ghost predicate ShiftedEntry(secs: seq<Section>, f: nat, e: nat) {
    e == f * 4096 + 3 || exists i :: 0 <= i < |secs| && HoldsFrame(secs[i], f) && e == SectionEntry(secs[i], f)
  }

  /** The page `hhdm` plus frame `f` is mapped to frame `f`. */
  ghost predicate SelfMapped(m: seq<byte>, root: nat, hhdm: nat, secs: seq<Section>, f: nat) {
    ShiftedEntry(secs, f, Walk(m, root, 4, Vpn(hhdm) + f))
  }

  ghost predicate AllSelfMapped(m: seq<byte>, root: nat, hhdm: nat, secs: seq<Section>) {
    forall f {:trigger SelfMapped(m, root, hhdm, secs, f)} :: InMapped(secs, f) ==> SelfMapped(m, root, hhdm, secs, f)
  }

  lemma {:induction false} LeafOfSome(secs: seq<Section>, f: nat)
    requires InMapped(secs, f)
    ensures exists i :: 0 <= i < |secs| && HoldsFrame(secs[i], f) && LeafOf(secs, f) == SectionEntry(secs[i], f)
  {
    var n := |secs| - 1;
    var j :| 0 <= j < |secs| && HoldsFrame(secs[j], f);
    if !HoldsFrame(secs[n], f) {
      assert secs[..n][j] == secs[j];
      LeafOfSome(secs[..n], f);
      var i :| 0 <= i < n && HoldsFrame(secs[..n][i], f) && LeafOf(secs[..n], f) == SectionEntry(secs[..n][i], f);
      assert HoldsFrame(secs[i], f);
    }
  }

  lemma LeavesSelfMap(m: seq<byte>, root: nat, hhdm: nat, secs: seq<Section>)
    requires SectionLeaves(m, root, hhdm, secs)
    ensures AllSelfMapped(m, root, hhdm, secs)
  {
    hide Walk, Vpn, LeafOf, Low;
    forall f | InMapped(secs, f)
      ensures SelfMapped(m, root, hhdm, secs, f)
    {
      assert HasLeaf(m, root, hhdm, secs, f);
      LeafOfSome(secs, f);
    }
  }

  /** Where all bases are page-aligned every frame is shown present and writable, for the kernel only. */
  lemma AlignedSelfMap(m: seq<byte>, root: nat, hhdm: nat, secs: seq<Section>, f: nat)
    requires AllSelfMapped(m, root, hhdm, secs) && InMapped(secs, f)
    requires forall i :: 0 <= i < |secs| && Mapped(secs[i].kind) ==> secs[i].base % 4096 == 0
    ensures Walk(m, root, 4, Vpn(hhdm) + f) == f * 4096 + PRESENT + WRITE
  {
    hide Walk, Vpn, Low;
    assert SelfMapped(m, root, hhdm, secs, f);
    var e := Walk(m, root, 4, Vpn(hhdm) + f);
    if e != f * 4096 + 3 {
      var i :| 0 <= i < |secs| && HoldsFrame(secs[i], f) && e == SectionEntry(secs[i], f);
      LowBounds(secs[i].base, 3);
    }
  }

  /** Pages that are not the shifted image of a mapped frame are translated as before. */
  ghost predicate OthersSame(m0: seq<byte>, m: seq<byte>, root: nat, hhdm: nat, secs: seq<Section>) {
    forall v {:trigger Walk(m, root, 4, v)} :: 0 <= v < VPAGES && !Shifted(secs, hhdm, v) ==> Walk(m, root, 4, v) == Walk(m0, root, 4, v)
  }

  ghost predicate Shifted(secs: seq<Section>, hhdm: nat, v: nat) {
    v >= Vpn(hhdm) && InMapped(secs, v - Vpn(hhdm))
  }

  lemma ShiftedVpn(hhdm: nat, a: nat)
    requires hhdm % 4096 == 0 && hhdm % 0x1_0000_0000_0000 + a < 0x1_0000_0000_0000
    ensures Vpn(a + hhdm) == Vpn(hhdm) + a / 4096
  {
    var q, h := hhdm / 0x1_0000_0000_0000, hhdm % 0x1_0000_0000_0000;
    ModBig(q, h + a);
    OffsetKept(hhdm);
    assert a + hhdm == q * 0x1_0000_0000_0000 + (h + a);
    assert h % 4096 == 0;
  }

  lemma ModBig(q: nat, r: nat)
    requires r < 0x1_0000_0000_0000
    ensures (q * 0x1_0000_0000_0000 + r) % 0x1_0000_0000_0000 == r
  {
  }

  lemma VpnRoom(hhdm: nat, s: Section, f: nat)
    requires hhdm % 4096 == 0 && SectionFits(s, hhdm) && HoldsFrame(s, f)
    ensures Vpn(hhdm) + f < VPAGES
  {
  }

  // ----- one section ----------------------------------------------------------------

  /** The pages of a section lie in a row above `hhdm`. */
  lemma SectionPages(s: Section, hhdm: nat)
    requires hhdm % 4096 == 0 && SectionFits(s, hhdm)
    ensures s.base <= TWO64 - 0x1_0000_0000_0000 && s.length / 4096 < TWO64
    ensures s.length >= 4096 ==> Vpn(s.base + hhdm) == Vpn(hhdm) + s.base / 4096 && Vpn(s.base + hhdm) + s.length / 4096 <= VPAGES
  {
    if s.length >= 4096 {
      ShiftedVpn(hhdm, s.base);
      hide Vpn;
      VpnRoom(hhdm, s.(kind := Usable), s.base / 4096 + s.length / 4096 - 1);
    }
  }

  /** What the call for section `s` writes. */
  ghost function SectionWrites(s: Section, n: nat): seq<nat> {
    Linear(s.base / 4096 * 4096, Low(s.base, PRESENT + WRITE), n)
  }

  lemma SectionLeaf(secs: seq<Section>, root: nat, s0: Snap, s: Snap, hhdm: nat, x: Section, v: nat)
    requires hhdm % 4096 == 0 && SectionFits(x, hhdm) && Mapped(x.kind) && x.length >= 4096 && v < VPAGES
    requires Progress(secs, root, s0, s, Vpn(x.base + hhdm), SectionWrites(x, x.length / 4096), {})
    ensures Walk(s.m, root, 4, v) == if v >= Vpn(hhdm) && HoldsFrame(x, v - Vpn(hhdm)) then SectionEntry(x, v - Vpn(hhdm)) else Walk(s0.m, root, 4, v)
  {
    hide Vpn, Walk, Progress, Low;
    SectionPages(x, hhdm);
    ProgressLeaf(secs, root, s0, s, Vpn(x.base + hhdm), SectionWrites(x, x.length / 4096), {}, v);
  }

  /** Mapping one more section: where it overlaps an earlier one its own entries are left. */
  lemma SectionStep(secs: seq<Section>, root: nat, s0: Snap, s: Snap, hhdm: nat, i: nat, m0: seq<byte>)
    requires i < |secs| && Mapped(secs[i].kind) && SectionsFit(secs, hhdm) && secs[i].length >= 4096
    requires Progress(secs, root, s0, s, Vpn(secs[i].base + hhdm), SectionWrites(secs[i], secs[i].length / 4096), {})
    requires SectionLeaves(s0.m, root, hhdm, secs[..i]) && OthersSame(m0, s0.m, root, hhdm, secs)
    ensures SectionLeaves(s.m, root, hhdm, secs[..i + 1]) && OthersSame(m0, s.m, root, hhdm, secs)
  {
    hide Vpn, Walk, Progress, SectionWrites, SectionEntry;
    assert secs[..i + 1][..i] == secs[..i];
    var all := secs[..i + 1];
    forall f: nat | InMapped(all, f)
      ensures HasLeaf(s.m, root, hhdm, all, f)
    {
      var j :| 0 <= j < i + 1 && HoldsFrame(all[j], f);
      VpnRoom(hhdm, secs[j], f);
      SectionLeaf(secs, root, s0, s, hhdm, secs[i], Vpn(hhdm) + f);
      if !HoldsFrame(secs[i], f) {
        assert HoldsFrame(secs[..i][j], f);
        assert HasLeaf(s0.m, root, hhdm, secs[..i], f);
      }
    }
    forall v | 0 <= v < VPAGES && !Shifted(secs, hhdm, v)
      ensures Walk(s.m, root, 4, v) == Walk(m0, root, 4, v)
    {
      SectionLeaf(secs, root, s0, s, hhdm, secs[i], v);
      assert v >= Vpn(hhdm) ==> !HoldsFrame(secs[i], v - Vpn(hhdm));
      assert Walk(s0.m, root, 4, v) == Walk(m0, root, 4, v);
    }
  }

  /** A section that is not mapped asks for nothing. */
  lemma SkipLeaves(m: seq<byte>, root: nat, hhdm: nat, secs: seq<Section>, i: nat)
    requires i < |secs| && !Mapped(secs[i].kind) && SectionLeaves(m, root, hhdm, secs[..i])
    ensures SectionLeaves(m, root, hhdm, secs[..i + 1])
  {
    hide Walk, Vpn, SectionEntry;
    assert secs[..i + 1][..i] == secs[..i];
    var all := secs[..i + 1];
    forall f | InMapped(all, f)
      ensures HasLeaf(m, root, hhdm, all, f)
    {
      var j :| 0 <= j < i + 1 && HoldsFrame(all[j], f);
      assert HoldsFrame(secs[..i][j], f);
      assert HasLeaf(m, root, hhdm, secs[..i], f);
    }
  }

  /** The page `hhdm` plus frame `f` shows frame `f`. */
  ghost predicate Shown(m: seq<byte>, root: nat, hhdm: nat, f: nat) {
    Walk(m, root, 4, Vpn(hhdm) + f) != 0 && Walk(m, root, 4, Vpn(hhdm) + f) / 4096 == f
  }

  /** So with every frame of every section of the six kinds that hold memory worth reaching. */
  lemma KindsShown(m: seq<byte>, root: nat, hhdm: nat, secs: seq<Section>)
    requires SectionLeaves(m, root, hhdm, secs)
    ensures forall i: nat, f: nat {:trigger secs[i], Shown(m, root, hhdm, f)} :: (i < |secs| &&
      secs[i].kind in {Usable, BootloaderReclaimable, Framebuffer, KernelAndModules, AcpiNvs, AcpiReclaimable} &&
      secs[i].base / 4096 <= f < secs[i].base / 4096 + secs[i].length / 4096) ==> Shown(m, root, hhdm, f)
  {
    forall i: nat, f: nat {:trigger secs[i], Shown(m, root, hhdm, f)} | (i < |secs| &&
      secs[i].kind in {Usable, BootloaderReclaimable, Framebuffer, KernelAndModules, AcpiNvs, AcpiReclaimable} &&
      secs[i].base / 4096 <= f < secs[i].base / 4096 + secs[i].length / 4096)
      ensures Shown(m, root, hhdm, f)
    {
      assert HoldsFrame(secs[i], f);
      LeafShown(m, root, hhdm, secs, f);
    }
  }

  lemma LeafShown(m: seq<byte>, root: nat, hhdm: nat, secs: seq<Section>, f: nat)
    requires SectionLeaves(m, root, hhdm, secs) && InMapped(secs, f)
    ensures Shown(m, root, hhdm, f)
  {
    hide Walk, Vpn, Low, LeafOf;
    assert HasLeaf(m, root, hhdm, secs, f);
    LeafOfSome(secs, f);
    var i :| 0 <= i < |secs| && HoldsFrame(secs[i], f) && LeafOf(secs, f) == SectionEntry(secs[i], f);
    LowBounds(secs[i].base, 3);
    DivOf(f, Low(secs[i].base, 3));
  }

  /** Page `v` is over no frame of section `s`. */
  predicate AwayFrom(s: Section, hhdm: nat, v: nat) {
    v < Vpn(hhdm) + s.base / 4096 || Vpn(hhdm) + s.base / 4096 + s.length / 4096 <= v
  }

  /** Page `v` is over no frame of a section of one of the six kinds. */
  ghost predicate OffSections(secs: seq<Section>, hhdm: nat, v: nat) {
    forall i :: 0 <= i < |secs| && secs[i].kind in {Usable, BootloaderReclaimable, Framebuffer, KernelAndModules, AcpiNvs, AcpiReclaimable} ==> AwayFrom(secs[i], hhdm, v)
  }

  /** Such a page is translated as before. */
  lemma KindsOnly(m0: seq<byte>, m: seq<byte>, root: nat, hhdm: nat, secs: seq<Section>)
    requires OthersSame(m0, m, root, hhdm, secs)
    ensures forall v {:trigger Walk(m, root, 4, v)} :: 0 <= v < VPAGES && OffSections(secs, hhdm, v) ==> Walk(m, root, 4, v) == Walk(m0, root, 4, v)
  {
    hide Walk, Vpn;
    forall v {:trigger Walk(m, root, 4, v)} | 0 <= v < VPAGES && OffSections(secs, hhdm, v)
      ensures Walk(m, root, 4, v) == Walk(m0, root, 4, v)
    {
      assert !Shifted(secs, hhdm, v);
    }
  }

  // ----- what the sections take -----------------------------------------------------

  ghost function NodesOf(s: Section, hhdm: nat): set<Node> {
    if Mapped(s.kind) && s.length >= 4096 then AllTouched(Vpn(s.base + hhdm), s.length / 4096) else {}
  }

  /** All tables below the root on the paths of the shifted sections. */
  ghost function SectionNodes(secs: seq<Section>, hhdm: nat): set<Node> {
    if secs == [] then {} else SectionNodes(secs[..|secs| - 1], hhdm) + NodesOf(secs[|secs| - 1], hhdm)
  }

  lemma {:induction false} SectionNodesUpTo(secs: seq<Section>, hhdm: nat, i: nat)
    requires i <= |secs|
    ensures SectionNodes(secs[..i], hhdm) <= SectionNodes(secs, hhdm)
    decreases |secs|
  {
    hide NodesOf;
    if i < |secs| {
      assert secs[..|secs| - 1][..i] == secs[..i];
      SectionNodesUpTo(secs[..|secs| - 1], hhdm, i);
    } else {
      assert secs[..i] == secs;
    }
  }

  /** No section's offset in its page looks like the user flag. */
  ghost predicate SectionsPrivate(secs: seq<Section>) {
    forall i :: 0 <= i < |secs| && Mapped(secs[i].kind) ==> !PageTree.Grants(secs[i].base % 4096, User)
  }

  lemma OffsetNoUser(phys: nat, n: nat)
    requires !PageTree.Grants(phys % 4096, User)
    ensures NoUserEntry(Linear(phys / 4096 * 4096, Low(phys, PRESENT + WRITE), n))
  {
    hide Low, Linear;
    LowGrants(phys, PRESENT + WRITE, User);
    LinearNoUser(phys / 4096 * 4096, Low(phys, PRESENT + WRITE), n);
  }

  /** What mapping sections in the upper half gives the user: nothing. */
  ghost predicate CleanStill(secs: seq<Section>, root: nat, hhdm: nat, s0: Snap, s: Snap) {
    Vpn(hhdm) >= HALF && SectionsPrivate(secs) && Clean(secs, root, s0) ==> Clean(secs, root, s)
  }

  /** The first `i` sections are mapped. */
  ghost predicate SectionsDone(secs: seq<Section>, root: nat, hhdm: nat, s0: Snap, s: Snap, i: nat) {
    && i <= |secs| && AllPaged(secs[..i])
    && SectionLeaves(s.m, root, hhdm, secs[..i]) && OthersSame(s0.m, s.m, root, hhdm, secs)
    && CleanStill(secs, root, hhdm, s0, s)
  }

  lemma NoSectionYet(secs: seq<Section>, root: nat, hhdm: nat, s: Snap)
    ensures SectionsDone(secs, root, hhdm, s, s, 0)
  {
    hide Walk, Clean, Vpn, HasLeaf;
  }

  lemma SkipSection(secs: seq<Section>, root: nat, hhdm: nat, s0: Snap, s: Snap, i: nat)
    requires i < |secs| && !Mapped(secs[i].kind) && SectionsDone(secs, root, hhdm, s0, s, i)
    ensures SectionsDone(secs, root, hhdm, s0, s, i + 1)
  {
    SkipLeaves(s.m, root, hhdm, secs, i);
    hide SectionLeaves, OthersSame, CleanStill;
    assert forall j :: 0 <= j < i ==> secs[..i + 1][j] == secs[..i][j];
  }

  lemma OneSectionMore(secs: seq<Section>, hhdm: nat, i: nat)
    requires i < |secs|
    ensures SectionNodes(secs[..i + 1], hhdm) == SectionNodes(secs[..i], hhdm) + NodesOf(secs[i], hhdm)
    ensures !Mapped(secs[i].kind) ==> SectionNodes(secs[..i + 1], hhdm) == SectionNodes(secs[..i], hhdm)
  {
    assert secs[..i + 1][..i] == secs[..i];
  }

  lemma SectionClean(secs: seq<Section>, root: nat, hhdm: nat, s0: Snap, s: Snap, i: nat, n: nat)
    requires i < |secs| && Mapped(secs[i].kind) && SectionsFit(secs, hhdm) && secs[i].length >= 4096
    requires Progress(secs, root, s0, s, Vpn(secs[i].base + hhdm), SectionWrites(secs[i], n), {})
    ensures CleanStill(secs, root, hhdm, s0, s)
  {
    hide Vpn, Progress, Clean;
    SectionPages(secs[i], hhdm);
    if Vpn(hhdm) >= HALF && SectionsPrivate(secs) && Clean(secs, root, s0) {
      OffsetNoUser(secs[i].base, n);
      ProgressClean(secs, root, s0, s, Vpn(secs[i].base + hhdm), SectionWrites(secs[i], n), {});
    }
  }

  lemma SectionAdded(secs: seq<Section>, root: nat, first: Snap, s0: Snap, s: Snap, hhdm: nat, i: nat)
    requires i < |secs| && Mapped(secs[i].kind) && SectionsFit(secs, hhdm) && secs[i].length >= 4096
    requires Progress(secs, root, s0, s, Vpn(secs[i].base + hhdm), SectionWrites(secs[i], secs[i].length / 4096), {})
    requires SectionsDone(secs, root, hhdm, first, s0, i)
    ensures SectionsDone(secs, root, hhdm, first, s, i + 1)
  {
    SectionStep(secs, root, s0, s, hhdm, i, first.m);
    SectionClean(secs, root, hhdm, s0, s, i, secs[i].length / 4096);
    hide SectionLeaves, OthersSame, Progress, SectionsPrivate, Clean, SectionWrites;
    assert forall j :: 0 <= j < i ==> secs[..i + 1][j] == secs[..i][j];
  }

  /** For a direct map in the higher half, where memory fits above `hhdm` it fits in the 48-bit space, in its upper half. */
  lemma HigherHalf(hhdm: nat, size: nat)
    requires 0xFFFF_8000_0000_0000 <= hhdm && hhdm + size <= TWO64 && size > 0
    ensures hhdm % 0x1_0000_0000_0000 + size <= 0x1_0000_0000_0000 && Vpn(hhdm) >= HALF
  {
    var r := hhdm - 0xFFFF_0000_0000_0000;
    ModBig(0xFFFF, r);
  }

  // ----- the loop -------------------------------------------------------------------

  /** The call for one section. */
  method MapSection(k: Kernel, sp: AddressSpace, i: nat, ghost first: Snap) returns (r: Outcome)
    requires Valid(k, sp) && SectionsFit(k.sections, k.hhdm) && i < |k.sections| && Mapped(k.sections[i].kind)
    requires SectionsDone(k.sections, sp.root, k.hhdm, first, Now(k, sp), i)
    modifies k`totalMemoryAllocated, k`used, k.mem, sp`tables
    ensures Valid(k, sp)
    ensures r == Done ==> SectionsDone(k.sections, sp.root, k.hhdm, first, Now(k, sp), i + 1)
    ensures Settled(k.sections, Paged(k.sections[i]), r, old(Now(k, sp)), Now(k, sp), NodesOf(k.sections[i], k.hhdm), 0)
  {
    hide Vpn, Progress, Inv, Linear, Grown, Pmm.PmmInv, Pmm.NoRun, SectionsDone, Since, SectionFits, PathMissing, Low, AllTouched, Short, Counted;
    ghost var before := Now(k, sp);
    var s := k.sections[i];
    assert SectionFits(s, k.hhdm);
    SectionPages(s, k.hhdm);
    ghost var done;
    r, done := MapPages(k, sp, s.base + k.hhdm, s.base, s.length / 4096, PRESENT + WRITE);
    if s.length >= 4096 {
      MapSettles(k, sp, r, before, Vpn(s.base + k.hhdm), SectionWrites(s, done), s.length / 4096);
    } else {
      CallSince(k.sections, sp.root, before, Now(k, sp), Vpn(s.base + k.hhdm), SectionWrites(s, done), {});
    }
    if r == Done {
      SectionAdded(k.sections, sp.root, first, before, Now(k, sp), k.hhdm, i);
    }
  }

  lemma SectionsGoOn(secs: seq<Section>, hhdm: nat, r: Outcome, first: Snap, s0: Snap, s: Snap, i: nat)
    requires i < |secs| && Reached(secs, first, s0, SectionNodes(secs[..i], hhdm), 0) && AllPaged(secs[..i]) && TablesUsed(first)
    requires Settled(secs, Paged(secs[i]), r, s0, s, NodesOf(secs[i], hhdm), 0)
    ensures Settled(secs, AllPaged(secs[..i + 1]), r, first, s, SectionNodes(secs[..i + 1], hhdm), 0)
  {
    hide Reached, Settled, TablesUsed, NodesOf, SectionNodes;
    OneSectionMore(secs, hhdm, i);
    SettledThen(secs, Paged(secs[i]), r, first, s0, s, SectionNodes(secs[..i], hhdm), 0, NodesOf(secs[i], hhdm), 0);
    assert secs[..i + 1][i] == secs[i];
    assert forall j :: 0 <= j < i ==> secs[..i + 1][j] == secs[..i][j];
  }

  /** Where the loop stops early, the sections that are left do not matter. */
  lemma SectionsStop(secs: seq<Section>, hhdm: nat, r: Outcome, first: Snap, s: Snap, i: nat)
    requires i <= |secs| && Settled(secs, AllPaged(secs[..i]), r, first, s, SectionNodes(secs[..i], hhdm), 0) && r != Done
    ensures Settled(secs, AllPaged(secs), r, first, s, SectionNodes(secs, hhdm), 0)
  {
    hide Settled, SectionNodes;
    SectionNodesUpTo(secs, hhdm, i);
    assert forall j :: 0 <= j < i ==> secs[..i][j] == secs[j];
    SettledMore(secs, AllPaged(secs[..i]), AllPaged(secs), r, first, s, SectionNodes(secs[..i], hhdm), 0, SectionNodes(secs, hhdm), 0);
  }

  /** `map_sections`. */
  method MapSections(k: Kernel, sp: AddressSpace) returns (r: Outcome)
    requires Valid(k, sp) && SectionsFit(k.sections, k.hhdm)
    modifies k`totalMemoryAllocated, k`used, k.mem, sp`tables
    ensures Valid(k, sp)
    ensures r == Done ==> SectionLeaves(k.mem[..], sp.root, k.hhdm, k.sections)
    ensures r == Done ==> OthersSame(old(k.mem[..]), k.mem[..], sp.root, k.hhdm, k.sections)
    ensures r == Done ==> forall i: nat, f: nat {:trigger k.sections[i], Shown(k.mem[..], sp.root, k.hhdm, f)} :: (i < |k.sections| &&
      k.sections[i].kind in {Usable, BootloaderReclaimable, Framebuffer, KernelAndModules, AcpiNvs, AcpiReclaimable} &&
      k.sections[i].base / 4096 <= f < k.sections[i].base / 4096 + k.sections[i].length / 4096) ==> Shown(k.mem[..], sp.root, k.hhdm, f)
    ensures r == Done ==> forall v {:trigger Walk(k.mem[..], sp.root, 4, v)} :: 0 <= v < VPAGES && OffSections(k.sections, k.hhdm, v) ==> Walk(k.mem[..], sp.root, 4, v) == Walk(old(k.mem[..]), sp.root, 4, v)
    ensures r == Done ==> CleanStill(k.sections, sp.root, k.hhdm, old(Now(k, sp)), Now(k, sp))
    ensures Settled(k.sections, AllPaged(k.sections), r, old(Now(k, sp)), Now(k, sp), SectionNodes(k.sections, k.hhdm), 0)
  {
    hide Vpn, Walk, Shown, OffSections, Inv, Pmm.NoRun, SectionLeaves, OthersSame, CleanStill, SectionFits, Since, Counted, Short, Mapped, NodesOf, TablesUsed;
    ghost var first := Now(k, sp);
    NoSectionYet(k.sections, sp.root, k.hhdm, first);
    SinceStart(k.sections, sp.root, first);
    var i := 0;
    while i < |k.sections|
      invariant 0 <= i <= |k.sections| && Valid(k, sp)
      invariant SectionsDone(k.sections, sp.root, k.hhdm, first, Now(k, sp), i)
      invariant Reached(k.sections, first, Now(k, sp), SectionNodes(k.sections[..i], k.hhdm), 0)
    {
      if Mapped(k.sections[i].kind) {
        ghost var before := Now(k, sp);
        r := MapSection(k, sp, i, first);
        SectionsGoOn(k.sections, k.hhdm, r, first, before, Now(k, sp), i);
        if r != Done {
          SectionsStop(k.sections, k.hhdm, r, first, Now(k, sp), i + 1);
          return;
        }
      } else {
        SkipSection(k.sections, sp.root, k.hhdm, first, Now(k, sp), i);
        OneSectionMore(k.sections, k.hhdm, i);
      }
      i := i + 1;
    }
    assert k.sections[..i] == k.sections;
    KindsShown(k.mem[..], sp.root, k.hhdm, k.sections);
    KindsOnly(first.m, k.mem[..], sp.root, k.hhdm, k.sections);
    return Done;
  }

  // ----- the closure of the self-map ------------------------------------------------

  /** A frame the allocator can hand out lies in a usable section, which is mapped. */
  lemma TrackableMapped(secs: seq<Section>, size: nat, f: nat)
    requires Pmm.MapOk(secs, size) && Pmm.Trackable(secs, f)
    ensures InMapped(secs, f)
  {
    var i :| 0 <= i < |secs| && Pmm.InSection(secs[i], f);
    assert Pmm.SectionOk(secs[i], size);
    assert HoldsFrame(secs[i], f);
  }

  /** The entry shows frame `f`, for reading and writing. */
  predicate Shows(e: nat, f: nat) {
    e / 4096 == f && PageTree.Grants(e, Present) && PageTree.Grants(e, Write)
  }

  /** The page `hhdm` plus frame `f` shows frame `f`. */
  ghost predicate ReadBack(m: seq<byte>, root: nat, hhdm: nat, f: nat) {
    Shows(Walk(m, root, 4, Vpn(hhdm) + f), f)
  }

  /** Closure: so does that of every frame the allocator can ever hand out. */
  ghost predicate AllReadBack(m: seq<byte>, root: nat, hhdm: nat, secs: seq<Section>) {
    forall f {:trigger ReadBack(m, root, hhdm, f)} :: Pmm.Trackable(secs, f) ==> ReadBack(m, root, hhdm, f)
  }

  /** The mappings of `map_sections` are closed in this sense. */
  lemma SelfMapCloses(secs: seq<Section>, m: seq<byte>, root: nat, hhdm: nat)
    requires Pmm.MapOk(secs, |m|) && AllSelfMapped(m, root, hhdm, secs)
    ensures AllReadBack(m, root, hhdm, secs)
  {
    hide Walk, Vpn;
    forall f | Pmm.Trackable(secs, f)
      ensures ReadBack(m, root, hhdm, f)
    {
      TrackableMapped(secs, |m|, f);
      assert SelfMapped(m, root, hhdm, secs, f);
      ShiftedShows(secs, f, Walk(m, root, 4, Vpn(hhdm) + f));
    }
  }

  lemma ShiftedShows(secs: seq<Section>, f: nat, e: nat)
    requires ShiftedEntry(secs, f, e)
    ensures Shows(e, f)
  {
    AlignedShows(f, 3);
    if e != f * 4096 + 3 {
      var i :| 0 <= i < |secs| && HoldsFrame(secs[i], f) && e == SectionEntry(secs[i], f);
      hide Low;
      LowBounds(secs[i].base, 3);
      LowGrants(secs[i].base, 3, Present);
      LowGrants(secs[i].base, 3, Write);
      AlignedShows(f, Low(secs[i].base, 3));
    }
  }

  lemma AlignedShows(f: nat, flags: nat)
    requires flags < 4096
    ensures (f * 4096 + flags) / 4096 == f
    ensures Shows(f * 4096 + flags, f) <==> PageTree.Grants(flags, Present) && PageTree.Grants(flags, Write)
  {
    DivOf(f, flags);
    AlignedKeepsFlags(f, flags, Present);
    AlignedKeepsFlags(f, flags, Write);
    assert (f * 4096 + flags) % 2 == flags % 2;
  }

  /** Every address in a frame the allocator can ever hand out is read back, through the tree, at itself plus `hhdm`. */
  lemma SelfMapClosed(secs: seq<Section>, root: nat, s: Snap, hhdm: nat, f: nat, a: nat)
    requires Inv(secs, root, s) && SectionsFit(secs, hhdm) && AllReadBack(s.m, root, hhdm, secs)
    requires Pmm.Trackable(secs, f) && a / 4096 == f
    ensures Translate(s.m, root, a + hhdm) == To(a)
  {
    TrackableMapped(secs, |s.m|, f);
    PmmRuns.TrackableNotBitmap(secs, |s.m|, f);
    assert ReadBack(s.m, root, hhdm, f);
    FrameFits(secs, hhdm, f);
    ReadBackTranslates(s.m, root, hhdm, f, a);
  }

  lemma ReadBackTranslates(m: seq<byte>, root: nat, hhdm: nat, f: nat, a: nat)
    requires ReadBack(m, root, hhdm, f) && a / 4096 == f && f > 0 && hhdm % 4096 == 0
    requires hhdm % 0x1_0000_0000_0000 + f * 4096 + 4096 <= 0x1_0000_0000_0000
    ensures Translate(m, root, a + hhdm) == To(a)
  {
    hide Walk, Vpn;
    ShiftedVpn(hhdm, a);
    OffsetOfSum(hhdm, a);
  }

  lemma OffsetOfSum(h: nat, a: nat)
    requires h % 4096 == 0
    ensures (a + h) % 4096 == a % 4096
  {
    ModOf(h / 4096 + a / 4096, a % 4096);
    assert a + h == 4096 * (h / 4096 + a / 4096) + a % 4096;
  }

  lemma FrameFits(secs: seq<Section>, hhdm: nat, f: nat)
    requires SectionsFit(secs, hhdm) && InMapped(secs, f)
    ensures hhdm % 0x1_0000_0000_0000 + f * 4096 + 4096 <= 0x1_0000_0000_0000
  {
    var i :| 0 <= i < |secs| && HoldsFrame(secs[i], f);
    assert SectionFits(secs[i], hhdm);
  }

  /** So after the switch to the new tree, a walk through `hhdm` pointers reads the very tables it reads before: every table of every tree the kernel can build. */
  lemma WalkSurvivesSwitch(secs: seq<Section>, root: nat, s: Snap, hhdm: nat, t: Tables, n: Node, i: nat)
    requires Inv(secs, root, s) && SectionsFit(secs, hhdm) && AllReadBack(s.m, root, hhdm, secs)
    requires n in t && t[n] in s.used && i < 512
    ensures Translate(s.m, root, t[n] * 4096 + i * 8 + hhdm) == To(t[n] * 4096 + i * 8)
  {
    assert Pmm.Trackable(secs, t[n]);
    SelfMapClosed(secs, root, s, hhdm, t[n], t[n] * 4096 + i * 8);
  }

  /** The closure survives every later call that maps no shifted frame of the allocator elsewhere. */
  lemma SelfMapStays(secs: seq<Section>, root: nat, s0: Snap, s: Snap, hhdm: nat, vpn: nat, w: seq<nat>, pages: set<nat>)
    requires Progress(secs, root, s0, s, vpn, w, pages) && SectionsFit(secs, hhdm)
    requires AllReadBack(s0.m, root, hhdm, secs)
    requires forall f {:trigger Pmm.Trackable(secs, f)} :: Pmm.Trackable(secs, f) && vpn <= Vpn(hhdm) + f < vpn + |w| ==> Shows(w[Vpn(hhdm) + f - vpn], f)
    ensures AllReadBack(s.m, root, hhdm, secs)
  {
    hide Vpn, Walk, TreeOk, TablesUsed, Grown, OthersKept, LeavesAre, PathsThere, CleanPages;
    forall f | Pmm.Trackable(secs, f)
      ensures ReadBack(s.m, root, hhdm, f)
    {
      TrackableMapped(secs, |s0.m|, f);
      MappedPage(secs, hhdm, f);
      assert ReadBack(s0.m, root, hhdm, f);
      ProgressLeaf(secs, root, s0, s, vpn, w, pages, Vpn(hhdm) + f);
    }
  }

  lemma MappedPage(secs: seq<Section>, hhdm: nat, f: nat)
    requires SectionsFit(secs, hhdm) && InMapped(secs, f)
    ensures Vpn(hhdm) + f < VPAGES
  {
    var i :| 0 <= i < |secs| && HoldsFrame(secs[i], f);
    VpnRoom(hhdm, secs[i], f);
  }

  /** So it survives the kernel's own calls that map `hhdm + p` to `p`, writable, or for pages the allocator does not hand out. */
  lemma SelfMapStaysShifted(secs: seq<Section>, root: nat, s0: Snap, s: Snap, hhdm: nat, p: nat, n: nat, flags: nat)
    requires p % 4096 == 0 && 0 < flags < 4096 && hhdm % 0x1_0000_0000_0000 + p < 0x1_0000_0000_0000
    requires Progress(secs, root, s0, s, Vpn(p + hhdm), Linear(p, flags, n), {}) && SectionsFit(secs, hhdm)
    requires AllReadBack(s0.m, root, hhdm, secs)
    requires (PageTree.Grants(flags, Present) && PageTree.Grants(flags, Write)) || forall f {:trigger Pmm.Trackable(secs, f)} :: p / 4096 <= f < p / 4096 + n ==> !Pmm.Trackable(secs, f)
    ensures AllReadBack(s.m, root, hhdm, secs)
  {
    hide Walk, Progress, AllReadBack;
    ShiftedVpn(hhdm, p);
    hide Vpn;
    forall f: nat | Pmm.Trackable(secs, f) && Vpn(p + hhdm) <= Vpn(hhdm) + f < Vpn(p + hhdm) + n
      ensures Shows(Linear(p, flags, n)[Vpn(hhdm) + f - Vpn(p + hhdm)], f)
    {
      assert p + 4096 * (f - p / 4096) == f * 4096;
      AlignedShows(f, flags);
    }
    SelfMapStays(secs, root, s0, s, hhdm, Vpn(p + hhdm), Linear(p, flags, n), {});
  }

  /** The self-map survives every later call that maps no page of the shifted memory. */
  lemma SelfMapUntouched(secs: seq<Section>, root: nat, s0: Snap, s: Snap, hhdm: nat, vpn: nat, w: seq<nat>, pages: set<nat>)
    requires Progress(secs, root, s0, s, vpn, w, pages) && SectionsFit(secs, hhdm)
    requires AllSelfMapped(s0.m, root, hhdm, secs)
    requires forall v {:trigger Shifted(secs, hhdm, v)} :: vpn <= v < vpn + |w| ==> !Shifted(secs, hhdm, v)
    ensures AllSelfMapped(s.m, root, hhdm, secs)
  {
    hide Vpn, Walk, Progress;
    forall f: nat | InMapped(secs, f)
      ensures SelfMapped(s.m, root, hhdm, secs, f)
    {
      var i :| 0 <= i < |secs| && HoldsFrame(secs[i], f);
      VpnRoom(hhdm, secs[i], f);
      assert Shifted(secs, hhdm, Vpn(hhdm) + f);
      assert SelfMapped(s0.m, root, hhdm, secs, f);
      ProgressLeaf(secs, root, s0, s, vpn, w, pages, Vpn(hhdm) + f);
    }
  }
}
