/**
The mappings every page tree starts with (src/mem/map.c), and `init_paging`: the kernel
image, its stack, and all of physical memory shifted by `hhdm`.
*/
module KernelMap {
  import opened Bytes
  import opened KernelState
  import opened PageTree
  import opened Mapping
  import opened Paging
  import opened PagingTheorems
  import opened FrameCount
  import opened SectionMap
  import opened UserView
  import Pmm
  import PmmRuns

  const KERNEL_STACK_PAGES := 2
  const KERNEL_STACK_ADDR := 0xFFFF_FFFF_FFFF_D000

  // ----- the kernel image and its stack ---------------------------------------------

  /** The linker symbols of the kernel image and where the bootloader put it. */
  datatype KernelImage = KernelImage(start: nat, writable: nat, end: nat, physBase: nat, virtBase: nat) {
    /** The physical address of a virtual address inside the image. */
    function Phys(virt: nat): nat
      requires virtBase <= virt
    {
      physBase + (virt - virtBase)
    }

    /** Number of pages from `start` to `writable`, and from `writable` to `end`. */
    function TextPages(): nat
      requires start <= writable
    {
      (writable - start + 4095) / 4096
    }

    function DataPages(): nat
      requires writable <= end
    {
      (end - writable + 4095) / 4096
    }

    /** The page that `writable` lies in, counted from that of `start`. */
    function DataIndex(): nat
      requires start <= writable
    {
      (writable - start) / 4096
    }

    function Pages(): nat
      requires start <= writable <= end
    {
      DataIndex() + DataPages()
    }

    /** The entry of page `j`: present before the page of `writable`; present and writable from there on, with the offset of `writable` in its page among the low bits. */
    function Entry(j: nat): nat
      requires virtBase <= start <= writable
    {
      Phys(start) + 4096 * j + if j < DataIndex() then PRESENT else Low(Phys(writable), PRESENT + WRITE)
    }
  }

  /** What `map_kernel` needs of the image: it starts on a page, its parts are in order, and it ends below the kernel stack. */
  ghost predicate ImageFits(im: KernelImage) {
    && im.virtBase <= im.start < im.writable < im.end < TWO64
    && im.start % 4096 == 0 && im.Phys(im.start) % 4096 == 0
    && im.Phys(im.end) <= 0x10_0000_0000_0000
    && im.start % 0x1_0000_0000_0000 + im.Pages() * 4096 <= KERNEL_STACK_ADDR % 0x1_0000_0000_0000
  }

  /** Every page of the image is mapped to its physical page, read-only before the page of `writable`. */
  ghost predicate ImageMapped(m: seq<byte>, root: nat, im: KernelImage)
    requires ImageFits(im)
  {
    forall j {:trigger im.Entry(j)} :: 0 <= j < im.Pages() ==>
      Walk(m, root, 4, Vpn(im.start) + j) == im.Entry(j)
  }

  /** The two stack pages are mapped, writable, to two different frames in use. */
  ghost predicate StackMapped(m: seq<byte>, root: nat, used: set<nat>, vpn: nat, flags: nat) {
    var a, b := Walk(m, root, 4, vpn), Walk(m, root, 4, vpn + 1);
    a % 4096 == flags && b % 4096 == flags && a / 4096 in used && b / 4096 in used && a / 4096 != b / 4096
  }

  /** Page `v` is one of the kernel's image or stack. */
  ghost predicate KernelPage(im: KernelImage, v: nat)
    requires ImageFits(im)
  {
    || Vpn(im.start) <= v < Vpn(im.start) + im.Pages()
    || Vpn(KERNEL_STACK_ADDR) <= v < Vpn(KERNEL_STACK_ADDR) + 2
  }

  /** Every page but those of the kernel's image and stack is translated as before. */
  ghost predicate KernelElseSame(m0: seq<byte>, m: seq<byte>, root: nat, im: KernelImage)
    requires ImageFits(im)
  {
    forall v {:trigger Walk(m, root, 4, v)} :: 0 <= v < VPAGES && !KernelPage(im, v) ==> Walk(m, root, 4, v) == Walk(m0, root, 4, v)
  }

  lemma ImageLayout(im: KernelImage)
    requires ImageFits(im)
    ensures Vpn(im.writable / 4096 * 4096) == Vpn(im.writable) == Vpn(im.start) + im.DataIndex()
    ensures im.Phys(im.writable) / 4096 * 4096 == im.Phys(im.start) + im.DataIndex() * 4096
    ensures im.DataIndex() <= im.TextPages() <= im.Pages()
    ensures Vpn(im.start) + im.Pages() <= Vpn(KERNEL_STACK_ADDR)
    ensures Vpn(KERNEL_STACK_ADDR) + 3 == VPAGES
  {
    hide Vpn;
    KernelStackPage();
    var i, d := im.DataIndex(), im.DataPages();
    DataPage(im.start, im.writable, i);
    DataPage(im.Phys(im.start), im.Phys(im.writable), i);
    DataVpn(im.start, im.writable, i);
    PagesBelow(im.start, i, d);
  }

  /** Every address of the image, up to the end of the writable part's pages, is translated to its place in the image's physical memory; the pages before that of `writable` are read-only. */
  lemma ImageReads(m: seq<byte>, root: nat, im: KernelImage, a: nat)
    requires ImageFits(im) && ImageMapped(m, root, im)
    requires im.start <= a < im.writable / 4096 * 4096 + (im.end - im.writable + 4095) / 4096 * 4096
    ensures Translate(m, root, a) == To(im.physBase + (a - im.virtBase))
    ensures a < im.writable / 4096 * 4096 ==> Walk(m, root, 4, Vpn(a)) % 4096 == 1
  {
    hide Vpn, Walk, Low;
    ImageLayout(im);
    DataPage(im.start, im.writable, im.DataIndex());
    var j := (a - im.start) / 4096;
    assert im.start + im.Pages() * 4096 == im.writable / 4096 * 4096 + im.DataPages() * 4096;
    assert j < im.Pages();
    assert im.Entry(j) == Walk(m, root, 4, Vpn(im.start) + j);
    ShiftedVpn(im.start, a - im.start);
    assert a == im.start + (a - im.start);
    LowBounds(im.Phys(im.writable), 3);
    var low := if j < im.DataIndex() then 1 else Low(im.Phys(im.writable), 3);
    ImageByteAt(im, a, j, low);
  }

  /** As many pages are mapped for each part as its bytes take, and no more. */
  lemma PartsReach(im: KernelImage)
    requires ImageFits(im)
    ensures im.writable - im.start <= im.TextPages() * 4096 < im.writable - im.start + 4096
    ensures im.end - im.writable <= im.DataPages() * 4096 < im.end - im.writable + 4096
  {
  }

  lemma ImageByteAt(im: KernelImage, a: nat, j: nat, low: nat)
    requires ImageFits(im) && im.start <= a && j == (a - im.start) / 4096 && 0 < low < 4096
    ensures (im.Phys(im.start) + 4096 * j + low) / 4096 * 4096 + a % 4096 == im.physBase + (a - im.virtBase)
    ensures (im.Phys(im.start) + 4096 * j + low) % 4096 == low
  {
    var c := im.Phys(im.start) / 4096 + j;
    DivOf(c, low);
    ModOf(c, low);
    assert im.Phys(im.start) + 4096 * j + low == 4096 * c + low;
    assert a % 4096 == (a - im.start) % 4096;
  }

  lemma KernelStackPage()
    ensures Vpn(KERNEL_STACK_ADDR) == 0xF_FFFF_FFFD
  {
  }

  lemma DataVpn(a: nat, b: nat, i: nat)
    requires a <= b && a % 4096 == 0 && i == (b - a) / 4096 && b / 4096 * 4096 == a + i * 4096
    requires a % 0x1_0000_0000_0000 + (b - a) < 0x1_0000_0000_0000
    ensures Vpn(b / 4096 * 4096) == Vpn(b) == Vpn(a) + i
  {
    hide Vpn;
    ShiftedVpn(a, b - a);
    ShiftedVpn(a, i * 4096);
    assert a + (b - a) == b;
  }

  /** Rounding down to the page of an address `b` past the aligned `a`. */
  lemma DataPage(a: nat, b: nat, i: nat)
    requires a <= b && a % 4096 == 0 && i == (b - a) / 4096
    ensures b / 4096 * 4096 == a + i * 4096 && i <= (b - a + 4095) / 4096 <= i + 1
  {
    assert b == 4096 * (a / 4096 + i) + (b - a) % 4096;
    DivOf(a / 4096 + i, (b - a) % 4096);
  }

  lemma PagesBelow(start: nat, t: nat, d: nat)
    requires start % 4096 == 0 && start % 0x1_0000_0000_0000 + t * 4096 + d * 4096 <= 0xFFFF_FFFF_D000
    ensures Vpn(start) + t + d <= 0xF_FFFF_FFFD
  {
    var a := start % 0x1_0000_0000_0000;
    OffsetKept(start);
    assert a == 4096 * Vpn(start) + a % 4096;
  }

  /** A data page is present and writable; its flags are just those, and it is the kernel's alone, exactly as far as the offset of `writable` in its page has no further bits. */
  lemma DataRights(im: KernelImage, j: nat)
    requires ImageFits(im) && im.DataIndex() <= j < im.Pages()
    ensures PageTree.Grants(im.Entry(j), Present) && PageTree.Grants(im.Entry(j), Right.Write)
    ensures PageTree.Grants(im.Entry(j), User) <==> PageTree.Grants(im.Phys(im.writable) % 4096, User)
    ensures im.Entry(j) % 4096 == PRESENT + WRITE <==> im.Phys(im.writable) % 4096 < 4
  {
    var p := im.Phys(im.writable);
    var f := im.Phys(im.start) / 4096 + j;
    LowBounds(p, 3);
    LowGrants(p, 3, Present);
    LowGrants(p, 3, Right.Write);
    LowGrants(p, 3, User);
    assert im.Entry(j) == f * 4096 + Low(p, 3);
    AlignedKeepsFlags(f, Low(p, 3), Present);
    AlignedKeepsFlags(f, Low(p, 3), Right.Write);
    AlignedKeepsFlags(f, Low(p, 3), User);
    ModOf(f, Low(p, 3));
    OrThree(p % 4096);
  }

  lemma {:induction false} OrNothing(x: nat, w: nat)
    requires x < Pmm.Pow2(w)
    ensures Or(x, 0, w) == x
  {
    if w > 0 {
      OrNothing(x / 2, w - 1);
    }
  }

  lemma OrThree(x: nat)
    requires x < 4096
    ensures Or(x, 3, 12) == 3 <==> x < 4
  {
    OrStep(x, 3, 12);
    OrStep(x / 2, 1, 11);
    assert Pmm.Pow2(5) == 32;
    assert Pmm.Pow2(10) == 32 * Pmm.Pow2(5);
    OrNothing(x / 2 / 2, 10);
  }

  /** The mapped pages reach the end of the image if and only if it is not the page of `writable` that makes one page more. */
  lemma DataCovered(im: KernelImage)
    requires ImageFits(im)
    ensures im.end <= im.start + im.Pages() * 4096 <==> im.writable % 4096 + (im.end - im.writable) <= im.DataPages() * 4096
  {
    DataPage(im.start, im.writable, im.DataIndex());
  }

  /** What `map_kernel` writes for the two parts of the image. */
  ghost function TextWrites(im: KernelImage): seq<nat>
    requires ImageFits(im)
  {
    Linear(im.Phys(im.start), PRESENT, im.TextPages())
  }

  ghost function DataWrites(im: KernelImage): seq<nat>
    requires ImageFits(im)
  {
    Linear(im.Phys(im.writable) / 4096 * 4096, Low(im.Phys(im.writable), PRESENT + WRITE), im.DataPages())
  }

  lemma KernelMapped(secs: seq<Section>, root: nat, im: KernelImage, s0: Snap, s1: Snap, s2: Snap, s3: Snap, w: seq<nat>, pages: set<nat>)
    requires ImageFits(im)
    requires Progress(secs, root, s0, s1, Vpn(im.start), TextWrites(im), {})
    requires Progress(secs, root, s1, s2, Vpn(im.writable), DataWrites(im), {})
    requires Progress(secs, root, s2, s3, Vpn(KERNEL_STACK_ADDR), w, pages) && Backed(w, PRESENT + WRITE, pages) && |w| == 2
    ensures ImageMapped(s3.m, root, im) && KernelElseSame(s0.m, s3.m, root, im)
    ensures StackMapped(s3.m, root, s3.used - s0.used, Vpn(KERNEL_STACK_ADDR), PRESENT + WRITE)
  {
    hide Vpn, Walk, Progress, StackMapped, Backed;
    ImageLayout(im);
    KernelOthers(secs, root, im, s0, s1, s2, s3, w, pages);
    StackPagesNew(secs, root, s2, s3, Vpn(KERNEL_STACK_ADDR), w, pages, PRESENT + WRITE);
    UsedGrows(secs, root, s0, s1, Vpn(im.start), TextWrites(im));
    UsedGrows(secs, root, s1, s2, Vpn(im.writable), DataWrites(im));
    StackMore(s3.m, root, s3.used - s2.used, s3.used - s0.used, Vpn(KERNEL_STACK_ADDR), PRESENT + WRITE);
    forall j | 0 <= j < im.Pages()
      ensures Walk(s3.m, root, 4, Vpn(im.start) + j) == im.Entry(j)
    {
      ImagePageMapped(secs, root, im, s0, s1, s2, s3, w, pages, j);
    }
  }

  lemma KernelOthers(secs: seq<Section>, root: nat, im: KernelImage, s0: Snap, s1: Snap, s2: Snap, s3: Snap, w: seq<nat>, pages: set<nat>)
    requires ImageFits(im) && |w| == 2
    requires Progress(secs, root, s0, s1, Vpn(im.start), TextWrites(im), {})
    requires Progress(secs, root, s1, s2, Vpn(im.writable), DataWrites(im), {})
    requires Progress(secs, root, s2, s3, Vpn(KERNEL_STACK_ADDR), w, pages)
    ensures KernelElseSame(s0.m, s3.m, root, im)
  {
    hide Vpn, Walk, Progress;
    ImageLayout(im);
    forall v | 0 <= v < VPAGES && !KernelPage(im, v)
      ensures Walk(s3.m, root, 4, v) == Walk(s0.m, root, 4, v)
    {
      ProgressLeaf(secs, root, s0, s1, Vpn(im.start), TextWrites(im), {}, v);
      ProgressLeaf(secs, root, s1, s2, Vpn(im.writable), DataWrites(im), {}, v);
      ProgressLeaf(secs, root, s2, s3, Vpn(KERNEL_STACK_ADDR), w, pages, v);
    }
  }

  lemma ImagePageMapped(secs: seq<Section>, root: nat, im: KernelImage, s0: Snap, s1: Snap, s2: Snap, s3: Snap, w: seq<nat>, pages: set<nat>, j: nat)
    requires ImageFits(im) && j < im.Pages()
    requires Progress(secs, root, s0, s1, Vpn(im.start), TextWrites(im), {})
    requires Progress(secs, root, s1, s2, Vpn(im.writable), DataWrites(im), {})
    requires Progress(secs, root, s2, s3, Vpn(KERNEL_STACK_ADDR), w, pages)
    ensures Walk(s3.m, root, 4, Vpn(im.start) + j) == im.Entry(j)
  {
    hide Vpn, Walk, Progress;
    ImageLayout(im);
    var v := Vpn(im.start) + j;
    ProgressLeaf(secs, root, s0, s1, Vpn(im.start), TextWrites(im), {}, v);
    ProgressLeaf(secs, root, s1, s2, Vpn(im.writable), DataWrites(im), {}, v);
    ProgressLeaf(secs, root, s2, s3, Vpn(KERNEL_STACK_ADDR), w, pages, v);
  }

  /** The pages of a stack show frames that were not in use. */
  lemma StackPagesNew(secs: seq<Section>, root: nat, s0: Snap, s: Snap, vpn: nat, w: seq<nat>, pages: set<nat>, flags: nat)
    requires Progress(secs, root, s0, s, vpn, w, pages) && Backed(w, flags, pages) && |w| == 2 && vpn + 2 <= VPAGES
    ensures StackMapped(s.m, root, s.used - s0.used, vpn, flags)
  {
    hide Progress, Backed, Walk, ZeroFrame, IsTable;
    AllocPagesTranslates(secs, root, s0, s, vpn, w, flags, pages, vpn, vpn + 1);
    AllocPagesTranslates(secs, root, s0, s, vpn, w, flags, pages, vpn + 1, vpn);
  }

  lemma StackMore(m: seq<byte>, root: nat, used: set<nat>, used': set<nat>, vpn: nat, flags: nat)
    requires StackMapped(m, root, used, vpn, flags) && used <= used'
    ensures StackMapped(m, root, used', vpn, flags)
  {
    hide Walk;
  }

  lemma UsedGrows(secs: seq<Section>, root: nat, s0: Snap, s: Snap, vpn: nat, w: seq<nat>)
    requires Progress(secs, root, s0, s, vpn, w, {})
    ensures s0.used <= s.used
  {
    hide Inv, OthersKept, LeavesAre, PathsThere, CleanPages, TakenFirst;
  }

  lemma StackPagesMapped(secs: seq<Section>, root: nat, s0: Snap, s: Snap, vpn: nat, w: seq<nat>, pages: set<nat>, flags: nat)
    requires Progress(secs, root, s0, s, vpn, w, pages) && Backed(w, flags, pages) && |w| == 2 && vpn + 2 <= VPAGES
    ensures StackMapped(s.m, root, s.used, vpn, flags)
  {
    hide Progress, Backed, Walk, ZeroFrame, IsTable;
    AllocPagesTranslates(secs, root, s0, s, vpn, w, flags, pages, vpn, vpn + 1);
    AllocPagesTranslates(secs, root, s0, s, vpn, w, flags, pages, vpn + 1, vpn);
  }

  /** The kernel's image and the shifted memory lie in the upper half, and no offset in a page, of `writable` or of a section, looks like the user flag. */
  ghost predicate Private(secs: seq<Section>, hhdm: nat, im: KernelImage) {
    SectionsPrivate(secs) && im.virtBase <= im.writable && Vpn(hhdm) >= HALF && Vpn(im.start) >= HALF && !PageTree.Grants(im.Phys(im.writable) % 4096, User)
  }

  lemma KernelClean(secs: seq<Section>, root: nat, im: KernelImage, hhdm: nat, s0: Snap, s1: Snap, s2: Snap, s3: Snap, w: seq<nat>, pages: set<nat>)
    requires ImageFits(im) && Private(secs, hhdm, im) && Clean(secs, root, s0)
    requires Progress(secs, root, s0, s1, Vpn(im.start), TextWrites(im), {})
    requires Progress(secs, root, s1, s2, Vpn(im.writable), DataWrites(im), {})
    requires Progress(secs, root, s2, s3, Vpn(KERNEL_STACK_ADDR), w, pages) && Backed(w, PRESENT + WRITE, pages)
    ensures Clean(secs, root, s3)
  {
    hide Vpn, Progress, Clean, Backed, TextWrites, DataWrites, NoUserEntry, Private, ImageFits;
    PrivateParts(secs, hhdm, im);
    BackedNoUser(w, PRESENT + WRITE, pages);
    ThreeCallsClean(secs, root, s0, s1, s2, s3, Vpn(im.start), TextWrites(im), Vpn(im.writable), DataWrites(im), Vpn(KERNEL_STACK_ADDR), w, pages);
  }

  lemma PrivateParts(secs: seq<Section>, hhdm: nat, im: KernelImage)
    requires ImageFits(im) && Private(secs, hhdm, im)
    ensures Vpn(im.start) >= HALF && Vpn(im.writable) >= HALF && Vpn(KERNEL_STACK_ADDR) >= HALF
    ensures NoUserEntry(TextWrites(im)) && NoUserEntry(DataWrites(im))
  {
    hide Vpn, NoUserEntry, Linear, Low;
    ImageLayout(im);
    KernelStackPage();
    OffsetNoUser(im.Phys(im.writable), im.DataPages());
    LinearNoUser(im.Phys(im.start), PRESENT, im.TextPages());
  }

  lemma ThreeCallsClean(secs: seq<Section>, root: nat, s0: Snap, s1: Snap, s2: Snap, s3: Snap, v1: nat, w1: seq<nat>, v2: nat, w2: seq<nat>, v3: nat, w3: seq<nat>, pages: set<nat>)
    requires Clean(secs, root, s0) && NoUserEntry(w1) && NoUserEntry(w2) && NoUserEntry(w3) && v1 >= HALF && v2 >= HALF && v3 >= HALF
    requires Progress(secs, root, s0, s1, v1, w1, {}) && Progress(secs, root, s1, s2, v2, w2, {}) && Progress(secs, root, s2, s3, v3, w3, pages)
    ensures Clean(secs, root, s3)
  {
    hide Progress, Clean, NoUserEntry;
    ProgressClean(secs, root, s0, s1, v1, w1, {});
    ProgressClean(secs, root, s1, s2, v2, w2, {});
    ProgressClean(secs, root, s2, s3, v3, w3, pages);
  }

  /** All tables below the root on the paths of the image and the stack. */
  ghost function KernelNodes(im: KernelImage): set<Node>
    requires ImageFits(im)
  {
    ImageNodes(im) + AllTouched(Vpn(KERNEL_STACK_ADDR), KERNEL_STACK_PAGES)
  }

  /** `map_kernel`. */
  method MapKernel(k: Kernel, sp: AddressSpace, im: KernelImage) returns (r: Outcome)
    requires Valid(k, sp) && ImageFits(im)
    modifies k`totalMemoryAllocated, k`used, k.mem, sp`tables
    ensures Valid(k, sp)
    ensures Settled(k.sections, true, r, old(Now(k, sp)), Now(k, sp), KernelNodes(im), KERNEL_STACK_PAGES)
    ensures r == Done ==> ImageMapped(k.mem[..], sp.root, im) && KernelElseSame(old(k.mem[..]), k.mem[..], sp.root, im)
    ensures r == Done ==> StackMapped(k.mem[..], sp.root, k.used - old(k.used), Vpn(KERNEL_STACK_ADDR), PRESENT + WRITE)
    ensures r == Done && Private(k.sections, k.hhdm, im) && Clean(k.sections, sp.root, old(Now(k, sp))) ==> Clean(k.sections, sp.root, Now(k, sp))
  {
    hide Vpn, Walk, Progress, Inv, Linear, Grown, Pmm.NoRun, Backed, Clean, Private, Low, PathMissing, AllTouched, Settled, Reached, TablesUsed;
    ImageLayout(im);
    ghost var s0 := Now(k, sp);
    SinceStart(k.sections, sp.root, s0);
    ghost var done;
    r, done := MapPages(k, sp, im.start, im.Phys(im.start), im.TextPages(), PRESENT);
    ghost var s1 := Now(k, sp);
    ghost var w1 := Linear(im.Phys(im.start), PRESENT, done);
    MapSettles(k, sp, r, s0, Vpn(im.start), w1, im.TextPages());
    FirstPart(k.sections, r, s0, s1, im);
    if r != Done { return; }
    r, done := MapPages(k, sp, im.writable / 4096 * 4096, im.Phys(im.writable), im.DataPages(), PRESENT + WRITE);
    ghost var s2 := Now(k, sp);
    ghost var w2 := Linear(im.Phys(im.writable) / 4096 * 4096, Low(im.Phys(im.writable), PRESENT + WRITE), done);
    MapSettles(k, sp, r, s1, Vpn(im.writable), w2, im.DataPages());
    SecondPart(k.sections, r, s0, s1, s2, im);
    if r != Done { return; }
    ghost var w, pages;
    r, w, pages := AllocPages(k, sp, KERNEL_STACK_ADDR, KERNEL_STACK_PAGES, PRESENT + WRITE);
    AllocSettles(k, sp, r, s2, Vpn(KERNEL_STACK_ADDR), w, KERNEL_STACK_PAGES, PRESENT + WRITE, pages);
    ThirdPart(k.sections, r, s0, s2, Now(k, sp), im);
    if r != Done { return; }
    KernelMapped(k.sections, sp.root, im, s0, s1, s2, Now(k, sp), w, pages);
    if Private(k.sections, k.hhdm, im) && Clean(k.sections, sp.root, s0) {
      KernelClean(k.sections, sp.root, im, k.hhdm, s0, s1, s2, Now(k, sp), w, pages);
    }
  }

  ghost function TextNodes(im: KernelImage): set<Node>
    requires ImageFits(im)
  {
    AllTouched(Vpn(im.start), im.TextPages())
  }

  ghost function ImageNodes(im: KernelImage): set<Node>
    requires ImageFits(im)
  {
    TextNodes(im) + AllTouched(Vpn(im.writable), im.DataPages())
  }

  lemma FirstPart(secs: seq<Section>, r: Outcome, s0: Snap, s1: Snap, im: KernelImage)
    requires ImageFits(im) && Settled(secs, true, r, s0, s1, TextNodes(im), 0)
    ensures if r == Done then Reached(secs, s0, s1, TextNodes(im), 0) else Settled(secs, true, r, s0, s1, KernelNodes(im), KERNEL_STACK_PAGES)
  {
    hide Vpn, AllTouched, Settled;
    if r == Done {
      SettledDone(secs, true, s0, s1, TextNodes(im), 0);
    } else {
      SettledMore(secs, true, true, r, s0, s1, TextNodes(im), 0, KernelNodes(im), KERNEL_STACK_PAGES);
    }
  }

  lemma SecondPart(secs: seq<Section>, r: Outcome, s0: Snap, s1: Snap, s2: Snap, im: KernelImage)
    requires ImageFits(im) && Reached(secs, s0, s1, TextNodes(im), 0) && TablesUsed(s0)
    requires Settled(secs, true, r, s1, s2, AllTouched(Vpn(im.writable), im.DataPages()), 0)
    ensures if r == Done then Reached(secs, s0, s2, ImageNodes(im), 0) else Settled(secs, true, r, s0, s2, KernelNodes(im), KERNEL_STACK_PAGES)
  {
    hide Vpn, AllTouched, Settled, Reached, TablesUsed;
    SettledThen(secs, true, r, s0, s1, s2, TextNodes(im), 0, AllTouched(Vpn(im.writable), im.DataPages()), 0);
    if r == Done {
      SettledDone(secs, true, s0, s2, ImageNodes(im), 0);
    } else {
      SettledMore(secs, true, true, r, s0, s2, ImageNodes(im), 0, KernelNodes(im), KERNEL_STACK_PAGES);
    }
  }

  lemma ThirdPart(secs: seq<Section>, r: Outcome, s0: Snap, s2: Snap, s3: Snap, im: KernelImage)
    requires ImageFits(im) && Reached(secs, s0, s2, ImageNodes(im), 0) && TablesUsed(s0)
    requires Settled(secs, true, r, s2, s3, AllTouched(Vpn(KERNEL_STACK_ADDR), KERNEL_STACK_PAGES), KERNEL_STACK_PAGES)
    ensures Settled(secs, true, r, s0, s3, KernelNodes(im), KERNEL_STACK_PAGES)
  {
    hide Vpn, AllTouched, Settled, Reached, TablesUsed;
    SettledThen(secs, true, r, s0, s2, s3, ImageNodes(im), 0, AllTouched(Vpn(KERNEL_STACK_ADDR), KERNEL_STACK_PAGES), KERNEL_STACK_PAGES);
  }

  // ----- whole trees ----------------------------------------------------------------

  /** No page of the image or of the kernel stack is the shifted image of a mapped frame. */
  ghost predicate ImageApart(im: KernelImage, secs: seq<Section>, hhdm: nat)
    requires ImageFits(im)
  {
    && (forall v {:trigger Shifted(secs, hhdm, v)} :: Vpn(im.start) <= v < Vpn(im.start) + im.Pages() ==> !Shifted(secs, hhdm, v))
    && !Shifted(secs, hhdm, Vpn(KERNEL_STACK_ADDR)) && !Shifted(secs, hhdm, Vpn(KERNEL_STACK_ADDR) + 1)
  }

  /** What `map_all` makes of a tree: memory shifted by `hhdm`, and, where that does not cover them, the kernel image and its stack. */
  ghost predicate BaseMapped(m: seq<byte>, root: nat, used: set<nat>, secs: seq<Section>, hhdm: nat, im: KernelImage)
    requires ImageFits(im)
  {
    && AllSelfMapped(m, root, hhdm, secs)
    && (ImageApart(im, secs, hhdm) ==> ImageMapped(m, root, im) && StackMapped(m, root, used, Vpn(KERNEL_STACK_ADDR), PRESENT + WRITE))
  }

  /** Every page but those of image, stack and shifted memory is translated as before. */
  ghost predicate BaseElseSame(m0: seq<byte>, m: seq<byte>, root: nat, secs: seq<Section>, hhdm: nat, im: KernelImage)
    requires ImageFits(im)
  {
    forall v {:trigger Walk(m, root, 4, v)} :: 0 <= v < VPAGES && !KernelPage(im, v) && !Shifted(secs, hhdm, v) ==> Walk(m, root, 4, v) == Walk(m0, root, 4, v)
  }

  lemma BaseOthers(m0: seq<byte>, m1: seq<byte>, m2: seq<byte>, root: nat, secs: seq<Section>, hhdm: nat, im: KernelImage)
    requires ImageFits(im) && KernelElseSame(m0, m1, root, im) && OthersSame(m1, m2, root, hhdm, secs)
    ensures BaseElseSame(m0, m2, root, secs, hhdm, im)
  {
    hide Walk, KernelPage, Shifted, ImageFits;
    forall v | 0 <= v < VPAGES && !KernelPage(im, v) && !Shifted(secs, hhdm, v)
      ensures Walk(m2, root, 4, v) == Walk(m0, root, 4, v)
    {
      assert Walk(m2, root, 4, v) == Walk(m1, root, 4, v);
    }
  }

  lemma BaseMore(m: seq<byte>, root: nat, used: set<nat>, used': set<nat>, secs: seq<Section>, hhdm: nat, im: KernelImage)
    requires ImageFits(im) && BaseMapped(m, root, used, secs, hhdm, im) && used <= used'
    ensures BaseMapped(m, root, used', secs, hhdm, im)
  {
    hide Walk, Vpn, ImageFits, AllSelfMapped, ImageMapped, ImageApart;
  }

  /** Nothing but image, stack and shifted memory is mapped. */
  ghost predicate BaseOnly(m: seq<byte>, root: nat, secs: seq<Section>, hhdm: nat, im: KernelImage)
    requires ImageFits(im)
  {
    forall v {:trigger Walk(m, root, 4, v)} :: 0 <= v < VPAGES && Walk(m, root, 4, v) != 0 ==> KernelPage(im, v) || Shifted(secs, hhdm, v)
  }

  lemma BaseOnlyFrom(m0: seq<byte>, m: seq<byte>, root: nat, secs: seq<Section>, hhdm: nat, im: KernelImage)
    requires ImageFits(im) && BaseElseSame(m0, m, root, secs, hhdm, im)
    requires forall v :: 0 <= v < VPAGES ==> Walk(m0, root, 4, v) == 0
    ensures BaseOnly(m, root, secs, hhdm, im)
  {
    hide Walk, KernelPage, Shifted, ImageFits;
  }

  lemma BaseStep(m0: seq<byte>, used0: set<nat>, m: seq<byte>, used: set<nat>, root: nat, secs: seq<Section>, hhdm: nat, im: KernelImage)
    requires ImageFits(im) && used0 <= used
    requires ImageMapped(m0, root, im) && StackMapped(m0, root, used0, Vpn(KERNEL_STACK_ADDR), PRESENT + WRITE)
    requires SectionLeaves(m, root, hhdm, secs) && OthersSame(m0, m, root, hhdm, secs)
    ensures BaseMapped(m, root, used, secs, hhdm, im)
  {
    hide Vpn, Walk, Shifted, SectionLeaves, AllSelfMapped;
    LeavesSelfMap(m, root, hhdm, secs);
    if ImageApart(im, secs, hhdm) {
      ImageLayout(im);
      forall j | 0 <= j < im.Pages()
        ensures Walk(m, root, 4, Vpn(im.start) + j) == im.Entry(j)
      {
        assert !Shifted(secs, hhdm, Vpn(im.start) + j);
        assert Walk(m0, root, 4, Vpn(im.start) + j) == im.Entry(j);
        assert Walk(m, root, 4, Vpn(im.start) + j) == Walk(m0, root, 4, Vpn(im.start) + j);
      }
    }
  }

  /** All tables below the root that every tree starts with. */
  ghost function BaseNodes(secs: seq<Section>, hhdm: nat, im: KernelImage): set<Node>
    requires ImageFits(im)
  {
    KernelNodes(im) + SectionNodes(secs, hhdm)
  }

  /** `map_all`. */
  method MapAll(k: Kernel, sp: AddressSpace, im: KernelImage) returns (r: Outcome)
    requires Valid(k, sp) && ImageFits(im) && SectionsFit(k.sections, k.hhdm)
    modifies k`totalMemoryAllocated, k`used, k.mem, sp`tables
    ensures Valid(k, sp)
    ensures Settled(k.sections, AllPaged(k.sections), r, old(Now(k, sp)), Now(k, sp), BaseNodes(k.sections, k.hhdm, im), KERNEL_STACK_PAGES)
    ensures r == Done ==> BaseMapped(k.mem[..], sp.root, k.used - old(k.used), k.sections, k.hhdm, im)
    ensures r == Done ==> SectionLeaves(k.mem[..], sp.root, k.hhdm, k.sections)
    ensures r == Done ==> BaseElseSame(old(k.mem[..]), k.mem[..], sp.root, k.sections, k.hhdm, im)
    ensures r == Done && Private(k.sections, k.hhdm, im) && Clean(k.sections, sp.root, old(Now(k, sp))) ==> Clean(k.sections, sp.root, Now(k, sp))
  {
    hide Vpn, Walk, Inv, Pmm.NoRun, ImageFits, SectionsFit, ImageMapped, StackMapped, BaseMapped, SectionLeaves, AllPaged, OthersSame, Clean, Settled, Reached, TablesUsed, KernelNodes, SectionNodes, SectionsPrivate, KernelElseSame, BaseElseSame;
    ghost var s0 := Now(k, sp);
    SinceStart(k.sections, sp.root, s0);
    r := MapKernel(k, sp, im);
    ghost var s1 := Now(k, sp);
    KernelPart(k.sections, r, s0, s1, k.hhdm, im);
    if r != Done { return; }
    r := MapSections(k, sp);
    ghost var s2 := Now(k, sp);
    SectionsPart(k.sections, r, s0, s1, s2, k.hhdm, im);
    if r != Done { return; }
    BaseOthers(s0.m, s1.m, s2.m, sp.root, k.sections, k.hhdm, im);
    BaseStep(s1.m, s1.used - s0.used, s2.m, s2.used - s0.used, sp.root, k.sections, k.hhdm, im);
  }

  lemma KernelPart(secs: seq<Section>, r: Outcome, s0: Snap, s1: Snap, hhdm: nat, im: KernelImage)
    requires ImageFits(im) && Settled(secs, true, r, s0, s1, KernelNodes(im), KERNEL_STACK_PAGES)
    ensures if r == Done then Reached(secs, s0, s1, KernelNodes(im), KERNEL_STACK_PAGES)
      else Settled(secs, AllPaged(secs), r, s0, s1, BaseNodes(secs, hhdm, im), KERNEL_STACK_PAGES)
  {
    hide KernelNodes, SectionNodes, Settled, ImageFits;
    if r == Done {
      SettledDone(secs, true, s0, s1, KernelNodes(im), KERNEL_STACK_PAGES);
    } else {
      SettledMore(secs, true, AllPaged(secs), r, s0, s1, KernelNodes(im), KERNEL_STACK_PAGES, BaseNodes(secs, hhdm, im), KERNEL_STACK_PAGES);
    }
  }

  lemma SectionsPart(secs: seq<Section>, r: Outcome, s0: Snap, s1: Snap, s2: Snap, hhdm: nat, im: KernelImage)
    requires ImageFits(im) && Reached(secs, s0, s1, KernelNodes(im), KERNEL_STACK_PAGES) && TablesUsed(s0)
    requires Settled(secs, AllPaged(secs), r, s1, s2, SectionNodes(secs, hhdm), 0)
    ensures Settled(secs, AllPaged(secs), r, s0, s2, BaseNodes(secs, hhdm, im), KERNEL_STACK_PAGES)
    ensures s1.used <= s2.used
  {
    hide KernelNodes, SectionNodes, Settled, Reached, ImageFits, TablesUsed, AllPaged;
    SettledUsed(secs, AllPaged(secs), r, s1, s2, SectionNodes(secs, hhdm), 0);
    SettledThen(secs, AllPaged(secs), r, s0, s1, s2, KernelNodes(im), KERNEL_STACK_PAGES, SectionNodes(secs, hhdm), 0);
  }

  lemma InvTablesUsed(secs: seq<Section>, root: nat, s: Snap)
    requires Inv(secs, root, s)
    ensures TablesUsed(s)
  {
  }

  /** A clear frame is an empty page tree. */
  lemma EmptyTree(secs: seq<Section>, m: seq<byte>, used: set<nat>, f: nat)
    requires Pmm.PmmInv(m, secs, used) && f in used && HasFrame(m, f) && ZeroFrame(m, f) && |m| <= 0x10_0000_0000_0000
    ensures Inv(secs, f, Snap(m, used, map[ROOT := f]))
    ensures forall v :: 0 <= v < VPAGES ==> Walk(m, f, 4, v) == 0
  {
    var t: Tables := map[ROOT := f];
    forall n, i | n in t && n.level > 1 && 0 <= i < 512
      ensures Link(m, t, n, i)
    {
      LoadZero(m, f * 4096 + i * 8);
    }
    forall v | 0 <= v < VPAGES
      ensures Walk(m, f, 4, v) == 0
    {
      WalkFindsLeaf(m, f, t, v);
    }
  }

  /** Frames in use keep their contents. */
  ghost predicate UsedKept(m0: seq<byte>, used0: set<nat>, m: seq<byte>) {
    forall f {:trigger Same(m0, m, f * 4096, 4096)} :: f in used0 ==> Same(m0, m, f * 4096, 4096)
  }

  /** A new tree with nothing mapped in a granted frame: one table taken, and everything else as it was. */
  lemma NewRoot(secs: seq<Section>, m0: seq<byte>, used0: set<nat>, m: seq<byte>, used: set<nat>, f: nat)
    requires Pmm.PmmInv(m0, secs, used0) && Pmm.Grants(m0, used0, secs, m, used, f, 1) && Pmm.BlockAtFirstRun(secs, used0, 1, f * 4096)
    ensures Reached(secs, Bare(m0, used0), Snap(m, used, map[ROOT := f]), {ROOT}, 0) && TablesUsed(Bare(m0, used0))
  {
    var a, s := Bare(m0, used0), Snap(m, used, map[ROOT := f]);
    NewPackedOne(secs, used0, f);
    assert Pmm.Frames(f, 1) == {f};
    forall g | g in used0
      ensures Untouched(a, s, g)
    {
      GrantKeepsUsed(secs, m0, used0, m, used, f, 1, g);
    }
    hide Pmm.PmmInv, NewPacked, Pmm.BlockAtFirstRun;
    assert s.t.Keys == {ROOT};
  }

  /** Seen from before there was a tree: memory in use is untouched, and no table lies in it. */
  lemma SinceBare(secs: seq<Section>, m0: seq<byte>, used0: set<nat>, s: Snap)
    requires Since(secs, Bare(m0, used0), s)
    ensures UsedKept(m0, used0, s.m) && used0 <= s.used && TablesAreNew(s.t, used0)
  {
    hide NewPacked;
    forall g | g in used0
      ensures Same(m0, s.m, g * 4096, 4096)
    {
      assert !IsTable(Bare(m0, used0).t, g);
      assert Untouched(Bare(m0, used0), s, g);
    }
  }

  /** All tables of a new tree. */
  ghost function NewTreeNodes(secs: seq<Section>, hhdm: nat, im: KernelImage): set<Node>
    requires ImageFits(im)
  {
    {ROOT} + BaseNodes(secs, hhdm, im)
  }

  lemma NoRoot(secs: seq<Section>, m: seq<byte>, used: set<nat>, hhdm: nat, im: KernelImage)
    requires ImageFits(im) && Pmm.PmmInv(m, secs, used) && Pmm.NoRun(secs, used, 1)
    ensures Short(secs, Bare(m, used), NewTreeNodes(secs, hhdm, im), KERNEL_STACK_PAGES)
  {
    hide BaseNodes, ImageFits, Pmm.PmmInv, Pmm.NoRun, PmmRuns.Capacity;
    PmmRuns.FullWhenNoRun(m, secs, used);
  }

  /** `init_paging_task`: a new page tree with the mappings every tree starts with. */
  method InitPagingTask(k: Kernel, im: KernelImage) returns (r: Outcome, sp: AddressSpace)
    requires Pmm.Ready(k) && ImageFits(im) && SectionsFit(k.sections, k.hhdm) && k.mem.Length <= 0x10_0000_0000_0000
    modifies k`totalMemoryAllocated, k`used, k.mem
    ensures Pmm.Ready(k) && fresh(sp)
    ensures UsedKept(old(k.mem[..]), old(k.used), k.mem[..]) && old(k.used) <= k.used
    ensures r == Done <==> AllPaged(k.sections) && !Short(k.sections, Bare(old(k.mem[..]), old(k.used)), NewTreeNodes(k.sections, k.hhdm, im), KERNEL_STACK_PAGES)
    ensures (r == NoFrames ==> Pmm.NoRun(k.sections, k.used, 1)) && (r == NoVirtual ==> !AllPaged(k.sections))
    ensures r == Done ==> Valid(k, sp) && BaseMapped(k.mem[..], sp.root, k.used - old(k.used), k.sections, k.hhdm, im)
    ensures r == Done ==> SectionLeaves(k.mem[..], sp.root, k.hhdm, k.sections)
    ensures r == Done ==> BaseOnly(k.mem[..], sp.root, k.sections, k.hhdm, im)
    ensures r == Done ==> Reached(k.sections, Bare(old(k.mem[..]), old(k.used)), Now(k, sp), NewTreeNodes(k.sections, k.hhdm, im), KERNEL_STACK_PAGES)
    ensures r == Done ==> TablesAreNew(sp.tables, old(k.used))
    ensures r == Done && Private(k.sections, k.hhdm, im) ==> Clean(k.sections, sp.root, Now(k, sp))
  {
    hide Vpn, Walk, Pmm.PmmInv, Inv, Pmm.NoRun, ImageFits, SectionsFit, SectionLeaves, AllPaged, BaseMapped, Pmm.Grants, UsedKept, ZeroFrame, TablesAreNew, Clean, Private, Pmm.BlockAtFirstRun;
    hide Settled, Reached, Since, Short, TablesUsed, BaseNodes, BaseElseSame, BaseOnly;
    ghost var m0, used0 := k.mem[..], k.used;
    var g := Pmm.Kmalloc(k, 1);
    if g.Halt? {
      sp := new AddressSpace(0);
      NoRoot(k.sections, m0, used0, k.hhdm, im);
      NothingTouched(k.sections, m0, used0);
      return NoFrames, sp;
    }
    var f := g.addr / 4096;
    ghost var m1 := k.mem[..];
    Pmm.BlockAligned(k.sections, used0, 1, g.addr);
    GrantedFrame(k.sections, m0, used0, m1, k.used, f);
    ClearIsClear(m1, f);
    MemZero(k.mem, g.addr, 4096);
    assert k.mem[..] == m1;
    sp := new AddressSpace(f);
    EmptyTree(k.sections, m1, k.used, f);
    assert k.mem[..] == m1;
    ghost var s1 := Now(k, sp);
    NewRoot(k.sections, m0, used0, m1, k.used, f);
    EmptyClean(k.sections, m0, used0, s1, f);
    r := MapAll(k, sp, im);
    TreeSettles(k, sp, r, m0, used0, s1, im);
    if r == Done {
      BaseMore(k.mem[..], f, k.used - s1.used, k.used - used0, k.sections, k.hhdm, im);
      BaseOnlyFrom(s1.m, k.mem[..], f, k.sections, k.hhdm, im);
    }
  }

  lemma NothingTouched(secs: seq<Section>, m: seq<byte>, used: set<nat>)
    requires Pmm.PmmInv(m, secs, used)
    ensures UsedKept(m, used, m)
  {
    forall f | f in used
      ensures Same(m, m, f * 4096, 4096)
    {
      UsedHasFrame(secs, m, used, f);
    }
  }

  lemma TreeSettles(k: Kernel, sp: AddressSpace, r: Outcome, m0: seq<byte>, used0: set<nat>, s1: Snap, im: KernelImage)
    requires Valid(k, sp) && ImageFits(im) && TablesUsed(Bare(m0, used0)) && Reached(k.sections, Bare(m0, used0), s1, {ROOT}, 0)
    requires Settled(k.sections, AllPaged(k.sections), r, s1, Now(k, sp), BaseNodes(k.sections, k.hhdm, im), KERNEL_STACK_PAGES)
    ensures UsedKept(m0, used0, k.mem[..]) && used0 <= k.used && TablesAreNew(sp.tables, used0)
    ensures r == Done <==> AllPaged(k.sections) && !Short(k.sections, Bare(m0, used0), NewTreeNodes(k.sections, k.hhdm, im), KERNEL_STACK_PAGES)
    ensures (r == NoFrames ==> Pmm.NoRun(k.sections, k.used, 1)) && (r == NoVirtual ==> !AllPaged(k.sections))
    ensures r == Done ==> Reached(k.sections, Bare(m0, used0), Now(k, sp), NewTreeNodes(k.sections, k.hhdm, im), KERNEL_STACK_PAGES)
  {
    hide Inv, Pmm.NoRun, Short, Reached, Settled, TablesUsed, BaseNodes, ImageFits, AllPaged;
    var a, s := Bare(m0, used0), Now(k, sp);
    SettledThen(k.sections, AllPaged(k.sections), r, a, s1, s, {ROOT}, 0, BaseNodes(k.sections, k.hhdm, im), KERNEL_STACK_PAGES);
    SettledIff(k.sections, AllPaged(k.sections), r, a, s, NewTreeNodes(k.sections, k.hhdm, im), KERNEL_STACK_PAGES);
    SettledSince(k.sections, AllPaged(k.sections), r, a, s, NewTreeNodes(k.sections, k.hhdm, im), KERNEL_STACK_PAGES);
    SinceBare(k.sections, m0, used0, s);
    if r == Done {
      SettledDone(k.sections, AllPaged(k.sections), a, s, NewTreeNodes(k.sections, k.hhdm, im), KERNEL_STACK_PAGES);
    }
  }

  lemma EmptyClean(secs: seq<Section>, m0: seq<byte>, used0: set<nat>, s: Snap, f: nat)
    requires s.t == map[ROOT := f] && Pmm.BlockAtFirstRun(secs, used0, 1, f * 4096) && used0 <= s.used
    requires forall v :: 0 <= v < VPAGES ==> Walk(s.m, f, 4, v) == 0
    ensures Clean(secs, f, s)
  {
    hide Walk, Pmm.BlockAtFirstRun;
    Pmm.FirstIsPacked(secs, used0, f * 4096);
    Pmm.PackedStays(secs, used0, s.used, f);
  }

  /** No table lies in a frame that was in use before. */
  ghost predicate TablesAreNew(t: Tables, used0: set<nat>) {
    forall n :: n in t ==> t[n] !in used0
  }

  lemma GrantedFrame(secs: seq<Section>, m0: seq<byte>, used0: set<nat>, m: seq<byte>, used: set<nat>, f: nat)
    requires Pmm.Grants(m0, used0, secs, m, used, f, 1)
    ensures f in used && HasFrame(m, f) && ZeroFrame(m, f) && Pmm.PmmInv(m, secs, used) && used0 <= used
  {
    assert f in Pmm.Frames(f, 1);
  }

  /** `init_paging`: builds the kernel's own tree and makes it the current one. */
  method InitPaging(k: Kernel, im: KernelImage) returns (r: Outcome, sp: AddressSpace)
    requires Pmm.Ready(k) && ImageFits(im) && SectionsFit(k.sections, k.hhdm) && k.mem.Length <= 0x10_0000_0000_0000
    modifies k`totalMemoryAllocated, k`used, k.mem, k`cr3
    ensures Pmm.Ready(k)
    ensures UsedKept(old(k.mem[..]), old(k.used), k.mem[..]) && old(k.used) <= k.used
    ensures r == Done <==> AllPaged(k.sections) && !Short(k.sections, Bare(old(k.mem[..]), old(k.used)), NewTreeNodes(k.sections, k.hhdm, im), KERNEL_STACK_PAGES)
    ensures r != Done ==> k.cr3 == old(k.cr3)
    ensures (r == NoFrames ==> Pmm.NoRun(k.sections, k.used, 1)) && (r == NoVirtual ==> !AllPaged(k.sections))
    ensures r == Done ==> fresh(sp) && Valid(k, sp) && k.cr3 == sp.root * 4096
    ensures r == Done ==> BaseMapped(k.mem[..], sp.root, k.used - old(k.used), k.sections, k.hhdm, im)
    ensures r == Done ==> SectionLeaves(k.mem[..], sp.root, k.hhdm, k.sections)
    ensures r == Done ==> forall i: nat, f: nat {:trigger k.sections[i], Shown(k.mem[..], sp.root, k.hhdm, f)} :: (i < |k.sections| &&
      k.sections[i].kind in {Usable, BootloaderReclaimable, Framebuffer, KernelAndModules, AcpiNvs, AcpiReclaimable} &&
      k.sections[i].base / 4096 <= f < k.sections[i].base / 4096 + k.sections[i].length / 4096) ==> Shown(k.mem[..], sp.root, k.hhdm, f)
    ensures r == Done ==> BaseOnly(k.mem[..], sp.root, k.sections, k.hhdm, im)
    ensures r == Done ==> TablesAreNew(sp.tables, old(k.used))
  {
    hide BaseMapped, BaseOnly, Shown, Walk, Vpn, SectionLeaves, Pmm.PmmInv, TreeOk, TablesUsed, UsedKept, Pmm.NoRun, TablesAreNew, AllPaged, Short, Reached, SectionsFit, ImageFits, Clean, Private, NewTreeNodes;
    r, sp := InitPagingTask(k, im);
    if r == Done {
      ghost var s := Now(k, sp);
      k.cr3 := sp.root * 4096;
      assert Now(k, sp) == s;
      KindsShown(k.mem[..], sp.root, k.hhdm, k.sections);
    }
  }
}
