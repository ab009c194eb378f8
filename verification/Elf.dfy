/**
The ELF image: the choice of the first and last loadable segment, the contents its
program headers describe, and the copy of the file into memory (src/tasks/spawn.c:67-126).
*/
module Elf {
  import opened Bytes
  import opened KernelState
  import opened Mapping
  import opened KernelMap
  import Pmm
  import PmmRuns

  const USER_STACK_ADDR := 0x6FFF_FFFF_E000
  const ARGV_DATA_ADDR := 0x7000_0000_1000

  datatype ProgramHeader = ProgramHeader(kind: nat, offset: nat, vaddr: nat, sizeInFile: nat, sizeInMemory: nat) {
    predicate Loadable() { kind == 1 }
    function End(): nat { vaddr + sizeInMemory }
    /** Address `a` holds a byte of the file. */
    predicate Covers(a: nat) { Loadable() && vaddr <= a < vaddr + sizeInFile }
  }

  // ----- first and last segment -----------------------------------------------------

  predicate NoneLoadable(ph: seq<ProgramHeader>) {
    forall i :: 0 <= i < |ph| ==> !ph[i].Loadable()
  }

  /** `i` is the earliest loadable segment of least address, or 0 when none is loadable. */
  ghost predicate IsFirst(ph: seq<ProgramHeader>, i: nat) {
    if NoneLoadable(ph) then i == 0
    else
      && i < |ph| && ph[i].Loadable()
      && (forall j :: 0 <= j < |ph| && ph[j].Loadable() ==> ph[i].vaddr <= ph[j].vaddr)
      && (forall j :: 0 <= j < i && ph[j].Loadable() ==> ph[i].vaddr < ph[j].vaddr)
  }

  method FirstLoadableSegment(ph: seq<ProgramHeader>) returns (smallest: nat)
    ensures IsFirst(ph, smallest)
  {
    smallest := 0;
    var smallestAddr := 0;
    var isFirst := true;
    var i := 0;
    while i < |ph|
      invariant 0 <= i <= |ph|
      invariant isFirst <==> NoneLoadable(ph[..i])
      invariant isFirst ==> smallest == 0
      invariant !isFirst ==> smallest < i && ph[smallest].Loadable() && ph[smallest].vaddr == smallestAddr
      invariant !isFirst ==> forall j :: 0 <= j < i && ph[j].Loadable() ==> smallestAddr <= ph[j].vaddr
      invariant !isFirst ==> forall j :: 0 <= j < smallest && ph[j].Loadable() ==> smallestAddr < ph[j].vaddr
    {
      assert ph[..i + 1][..i] == ph[..i] && ph[..i + 1][i] == ph[i];
      if ph[i].Loadable() {
        if ph[i].vaddr < smallestAddr || isFirst {
          smallest := i;
          smallestAddr := ph[i].vaddr;
          isFirst := false;
        }
      }
      i := i + 1;
    }
    assert ph[..i] == ph;
  }

  predicate NoneAboveZero(ph: seq<ProgramHeader>) {
    forall i :: 0 <= i < |ph| && ph[i].Loadable() ==> ph[i].vaddr == 0
  }

  /** `i` is the earliest loadable segment of greatest address, or 0 when no loadable one lies above address zero. */
  ghost predicate IsLast(ph: seq<ProgramHeader>, i: nat) {
    if NoneAboveZero(ph) then i == 0
    else
      && i < |ph| && ph[i].Loadable()
      && (forall j :: 0 <= j < |ph| && ph[j].Loadable() ==> ph[j].vaddr <= ph[i].vaddr)
      && (forall j :: 0 <= j < i && ph[j].Loadable() ==> ph[j].vaddr < ph[i].vaddr)
  }

  method LastLoadableSegment(ph: seq<ProgramHeader>) returns (largest: nat)
    ensures IsLast(ph, largest)
  {
    largest := 0;
    var largestAddr := 0;
    var i := 0;
    while i < |ph|
      invariant 0 <= i <= |ph|
      invariant largestAddr == 0 <==> NoneAboveZero(ph[..i])
      invariant largestAddr == 0 ==> largest == 0
      invariant largestAddr > 0 ==> largest < i && ph[largest].Loadable() && ph[largest].vaddr == largestAddr
      invariant forall j :: 0 <= j < i && ph[j].Loadable() ==> ph[j].vaddr <= largestAddr
      invariant forall j :: 0 <= j < largest && ph[j].Loadable() ==> ph[j].vaddr < largestAddr
    {
      assert ph[..i + 1][..i] == ph[..i] && ph[..i + 1][i] == ph[i];
      if ph[i].Loadable() {
        if ph[i].vaddr > largestAddr {
          largest := i;
          largestAddr := ph[i].vaddr;
        }
      }
      i := i + 1;
    }
    assert ph[..i] == ph;
  }

  /** The last segment found is a loadable one of greatest address exactly when some loadable segment lies above zero or header 0 is loadable. */
  lemma LastIsLoadable(ph: seq<ProgramHeader>, i: nat)
    requires IsLast(ph, i) && !NoneLoadable(ph)
    ensures (i < |ph| && ph[i].Loadable() && forall j :: 0 <= j < |ph| && ph[j].Loadable() ==> ph[j].vaddr <= ph[i].vaddr)
      <==> !NoneAboveZero(ph) || ph[0].Loadable()
  {
    assert |ph| > 0;
  }

  // ----- the contents of the image --------------------------------------------------

  /** What the loader needs of a file: segments, empty ones included, that reach above zero, lie in the file and below the user stack, and do not overlap; and an end it finds. */
  ghost predicate ElfOk(ph: seq<ProgramHeader>, file: seq<byte>) {
    ElfShape(ph, file) && EndFound(ph)
  }

  ghost predicate ElfShape(ph: seq<ProgramHeader>, file: seq<byte>) {
    && !NoneAboveZero(ph)
    && (forall i {:trigger SegmentOk(ph[i], file)} :: 0 <= i < |ph| && ph[i].Loadable() ==> SegmentOk(ph[i], file))
    && (forall i, j {:trigger Disjoint(ph[i], ph[j])} ::
          0 <= i < |ph| && 0 <= j < |ph| && i != j && ph[i].Loadable() && ph[j].Loadable() ==> Disjoint(ph[i], ph[j]))
  }

  predicate SegmentOk(p: ProgramHeader, file: seq<byte>) {
    p.sizeInFile <= p.sizeInMemory && p.offset + p.sizeInFile <= |file| && p.End() <= USER_STACK_ADDR
  }

  /** No byte is in both. */
  predicate Disjoint(p: ProgramHeader, q: ProgramHeader) {
    p.sizeInMemory == 0 || q.sizeInMemory == 0 || p.End() <= q.vaddr || q.End() <= p.vaddr
  }

  /** The last segment is not empty, or its address lies in no other segment. */
  ghost predicate EndFound(ph: seq<ProgramHeader>) {
    forall l :: 0 <= l < |ph| && IsLast(ph, l) ==> EndsImage(ph, l)
  }

  predicate EndsImage(ph: seq<ProgramHeader>, l: nat)
    requires l < |ph|
  {
    ph[l].sizeInMemory > 0 || forall i :: 0 <= i < |ph| && ph[i].Loadable() ==> !(ph[i].vaddr <= ph[l].vaddr < ph[i].End())
  }

  /** The end of the last segment is the end of the image if and only if that segment is not empty or lies in no other. */
  lemma EndIsReached(ph: seq<ProgramHeader>, file: seq<byte>, l: nat)
    requires ElfShape(ph, file) && IsLast(ph, l)
    ensures l < |ph| && ph[l].Loadable()
    ensures (forall i :: 0 <= i < |ph| && ph[i].Loadable() ==> ph[i].End() <= ph[l].End()) <==> EndsImage(ph, l)
  {
    assert SegmentOk(ph[l], file);
    forall i | 0 <= i < |ph| && ph[i].Loadable() && i != l
      ensures ph[i].vaddr <= ph[l].vaddr && Disjoint(ph[i], ph[l])
    {
    }
  }

  predicate FitsFile(ph: seq<ProgramHeader>, file: seq<byte>) {
    forall i :: 0 <= i < |ph| && ph[i].Loadable() ==> ph[i].offset + ph[i].sizeInFile <= |file|
  }

  /** The byte the first `i` headers put at address `a`; later segments overwrite earlier ones. */
  ghost function ImageByte(ph: seq<ProgramHeader>, file: seq<byte>, i: nat, a: nat): byte
    requires i <= |ph| && FitsFile(ph, file)
  {
    if i == 0 then 0
    else if ph[i - 1].Covers(a) then file[ph[i - 1].offset + (a - ph[i - 1].vaddr)]
    else ImageByte(ph, file, i - 1, a)
  }

  lemma {:induction false} ImageByteUncovered(ph: seq<ProgramHeader>, file: seq<byte>, i: nat, a: nat)
    requires i <= |ph| && FitsFile(ph, file)
    requires forall j :: 0 <= j < i ==> !ph[j].Covers(a)
    ensures ImageByte(ph, file, i, a) == 0
  {
    if i > 0 {
      ImageByteUncovered(ph, file, i - 1, a);
    }
  }

  lemma {:induction false} ImageByteCovered(ph: seq<ProgramHeader>, file: seq<byte>, i: nat, s: nat, a: nat)
    requires s < i <= |ph| && FitsFile(ph, file) && ph[s].Covers(a)
    requires forall j :: s < j < i ==> !ph[j].Covers(a)
    ensures ImageByte(ph, file, i, a) == file[ph[s].offset + (a - ph[s].vaddr)]
  {
    if i - 1 > s {
      ImageByteCovered(ph, file, i - 1, s, a);
    }
  }

  /** The System V gABI's reading of a PT_LOAD entry: file bytes first, then zeros up to the size in memory. */
  lemma SegmentContents(ph: seq<ProgramHeader>, file: seq<byte>, s: nat, j: nat)
    requires ElfOk(ph, file) && FitsFile(ph, file) && s < |ph| && ph[s].Loadable() && j < ph[s].sizeInMemory
    ensures ImageByte(ph, file, |ph|, ph[s].vaddr + j) == if j < ph[s].sizeInFile then file[ph[s].offset + j] else 0
  {
    var a := ph[s].vaddr + j;
    forall t | 0 <= t < |ph| && t != s
      ensures !ph[t].Covers(a)
    {
      assert ph[t].Loadable() ==> SegmentOk(ph[t], file) && Disjoint(ph[s], ph[t]);
    }
    if j < ph[s].sizeInFile {
      ImageByteCovered(ph, file, |ph|, s, a);
    } else {
      ImageByteUncovered(ph, file, |ph|, a);
    }
  }

  /** The number of pages the image takes. */
  function PagesToMap(first: ProgramHeader, last: ProgramHeader): nat
    requires first.vaddr <= last.End()
  {
    (last.End() - first.vaddr + 4095) / 4096
  }

  /** The pages reach the end of the last segment and no further than its page. */
  lemma PagesReach(first: ProgramHeader, last: ProgramHeader)
    requires first.vaddr <= last.vaddr + last.sizeInMemory
    ensures var bytes, n := last.vaddr + last.sizeInMemory - first.vaddr, PagesToMap(first, last);
      bytes <= n * 4096 < bytes + 4096
  {
  }

  /** Every segment lies between the first address and the end of the last page. */
  lemma SegmentsInside(ph: seq<ProgramHeader>, file: seq<byte>, first: nat, last: nat, s: nat)
    requires ElfOk(ph, file) && IsFirst(ph, first) && IsLast(ph, last) && s < |ph| && ph[s].Loadable()
    ensures ph[first].vaddr <= ph[s].vaddr && ph[s].End() <= ph[last].End()
    ensures ph[s].End() <= ph[first].vaddr + PagesToMap(ph[first], ph[last]) * 4096
  {
    EndIsReached(ph, file, last);
    assert SegmentOk(ph[s], file);
  }

  // ----- copying the file -----------------------------------------------------------

  /** Frames `[f, f+n)` hold the image from address `v0` on, as far as the first `i` headers describe it. */
  ghost predicate Loaded(m: seq<byte>, f: nat, n: nat, ph: seq<ProgramHeader>, file: seq<byte>, i: nat, v0: nat)
    requires (f + n) * 4096 <= |m| && i <= |ph| && FitsFile(ph, file)
  {
    forall x {:trigger m[x]} :: f * 4096 <= x < (f + n) * 4096 ==> m[x] == ImageByte(ph, file, i, x - f * 4096 + v0)
  }

  /** Everything outside frames `[f, f+n)` is unchanged. */
  ghost predicate OutsideSame(m0: seq<byte>, m: seq<byte>, f: nat, n: nat) {
    |m| == |m0| && forall x :: 0 <= x < |m| && !(f * 4096 <= x < (f + n) * 4096) ==> m[x] == m0[x]
  }

  lemma CopyStep(m0: seq<byte>, m: seq<byte>, f: nat, n: nat, ph: seq<ProgramHeader>, file: seq<byte>, i: nat, v0: nat)
    requires (f + n) * 4096 <= |m| && i < |ph| && FitsFile(ph, file) && ph[i].Loadable()
    requires v0 <= ph[i].vaddr && ph[i].vaddr + ph[i].sizeInFile <= v0 + n * 4096
    requires Loaded(m, f, n, ph, file, i, v0) && OutsideSame(m0, m, f, n)
    ensures Loaded(CopySegment(m, f, ph, file, i, v0), f, n, ph, file, i + 1, v0)
    ensures OutsideSame(m0, CopySegment(m, f, ph, file, i, v0), f, n)
  {
    var r := CopySegment(m, f, ph, file, i, v0);
    forall x | f * 4096 <= x < (f + n) * 4096
      ensures r[x] == ImageByte(ph, file, i + 1, x - f * 4096 + v0)
    {
      assert m[x] == ImageByte(ph, file, i, x - f * 4096 + v0);
    }
  }

  /** Memory after copying segment `i`. */
  ghost function CopySegment(m: seq<byte>, f: nat, ph: seq<ProgramHeader>, file: seq<byte>, i: nat, v0: nat): (r: seq<byte>)
    requires i < |ph| && FitsFile(ph, file) && ph[i].Loadable() && v0 <= ph[i].vaddr
    requires f * 4096 + (ph[i].vaddr - v0) + ph[i].sizeInFile <= |m|
    ensures |r| == |m|
  {
    Splice(m, f * 4096 + (ph[i].vaddr - v0), file[ph[i].offset..ph[i].offset + ph[i].sizeInFile])
  }

  /** The copy loop of `spawn`. */
  method CopySegments(k: Kernel, ph: seq<ProgramHeader>, file: seq<byte>, f: nat, n: nat, v0: nat)
    requires (f + n) * 4096 <= k.mem.Length && FitsFile(ph, file)
    requires forall i :: 0 <= i < |ph| && ph[i].Loadable() ==> v0 <= ph[i].vaddr && ph[i].vaddr + ph[i].sizeInFile <= v0 + n * 4096
    requires forall x :: f * 4096 <= x < (f + n) * 4096 ==> k.mem[..][x] == 0
    modifies k.mem
    ensures Loaded(k.mem[..], f, n, ph, file, |ph|, v0)
    ensures OutsideSame(old(k.mem[..]), k.mem[..], f, n)
  {
    ghost var m0 := k.mem[..];
    var s := 0;
    while s < |ph|
      invariant 0 <= s <= |ph|
      invariant Loaded(k.mem[..], f, n, ph, file, s, v0) && OutsideSame(m0, k.mem[..], f, n)
    {
      if ph[s].Loadable() {
        CopyStep(m0, k.mem[..], f, n, ph, file, s, v0);
        MemCpy(k.mem, f * 4096 + (ph[s].vaddr - v0), file[ph[s].offset..ph[s].offset + ph[s].sizeInFile]);
      }
      s := s + 1;
    }
  }

  /** Frames `[f, f+n)` belong to someone: they are in use and not bitmap pages. */
  ghost predicate Held(secs: seq<Section>, used: set<nat>, f: nat, n: nat) {
    forall g :: f <= g < f + n ==> g in used && Pmm.Trackable(secs, g)
  }

  /** Writing only into frames that are in use keeps the bitmaps. */
  lemma HeldWritesKeepPmm(secs: seq<Section>, m0: seq<byte>, m: seq<byte>, used: set<nat>, f: nat, n: nat)
    requires Pmm.PmmInv(m0, secs, used) && Held(secs, used, f, n) && OutsideSame(m0, m, f, n)
    ensures Pmm.PmmInv(m, secs, used)
  {
    forall x | 0 <= x < |m| && Pmm.BitmapFrame(secs, x / 4096)
      ensures m[x] == m0[x]
    {
      if f <= x / 4096 < f + n {
        PmmRuns.TrackableNotBitmap(secs, |m|, x / 4096);
        assert false;
      }
    }
    PmmRuns.KeepBitmaps(m0, m, secs, used);
  }

  lemma GrantHeld(secs: seq<Section>, m0: seq<byte>, used0: set<nat>, m: seq<byte>, used: set<nat>, f: nat, n: nat)
    requires Pmm.Grants(m0, used0, secs, m, used, f, n)
    ensures Held(secs, used, f, n)
  {
    forall g | f <= g < f + n
      ensures g in used && Pmm.Trackable(secs, g)
    {
      assert g in Pmm.Frames(f, n);
    }
  }

  lemma GrantThenWriteKeeps(secs: seq<Section>, m0: seq<byte>, used0: set<nat>, m1: seq<byte>, used: set<nat>, m: seq<byte>, f: nat, n: nat)
    requires Pmm.PmmInv(m0, secs, used0) && Pmm.Grants(m0, used0, secs, m1, used, f, n) && OutsideSame(m1, m, f, n)
    ensures UsedKept(m0, used0, m)
  {
    forall g | g in used0
      ensures Same(m0, m, g * 4096, 4096)
    {
      GrantKeepsUsed(secs, m0, used0, m1, used, f, n, g);
      assert g !in Pmm.Frames(f, n);
    }
  }

  /** The image starts at `v0` and takes `n` pages. */
  ghost predicate ImageSpan(ph: seq<ProgramHeader>, v0: nat, n: nat) {
    exists first: nat, last: nat :: SpanOf(ph, first, last, v0, n)
  }

  ghost predicate SpanOf(ph: seq<ProgramHeader>, first: nat, last: nat, v0: nat, n: nat) {
    && IsFirst(ph, first) && IsLast(ph, last) && first < |ph| && last < |ph|
    && ph[first].vaddr <= ph[last].End() && v0 == ph[first].vaddr && n == PagesToMap(ph[first], ph[last])
  }

  ghost predicate SegmentsWithin(ph: seq<ProgramHeader>, v0: nat, n: nat) {
    forall i :: 0 <= i < |ph| && ph[i].Loadable() ==> v0 <= ph[i].vaddr && ph[i].vaddr + ph[i].sizeInFile <= v0 + n * 4096
  }

  /** The first address of the image and the number of its pages; every segment lies inside, below the user stack. */
  method MeasureImage(ph: seq<ProgramHeader>, file: seq<byte>) returns (v0: nat, n: nat)
    requires ElfOk(ph, file)
    ensures ImageSpan(ph, v0, n) && SegmentsWithin(ph, v0, n)
    ensures v0 + n * 4096 < USER_STACK_ADDR + 4096
  {
    var first := FirstLoadableSegment(ph);
    var last := LastLoadableSegment(ph);
    SegmentsInside(ph, file, first, last, last);
    forall i | 0 <= i < |ph| && ph[i].Loadable()
      ensures ph[first].vaddr <= ph[i].vaddr && ph[i].vaddr + ph[i].sizeInFile <= ph[first].vaddr + PagesToMap(ph[first], ph[last]) * 4096
    {
      SegmentsInside(ph, file, first, last, i);
      assert SegmentOk(ph[i], file);
    }
    v0 := ph[first].vaddr;
    n := PagesToMap(ph[first], ph[last]);
    assert SegmentOk(ph[last], file) && SpanOf(ph, first, last, v0, n);
  }

  datatype Image = NoMemory | Image(frame: nat)

  /** `kmalloc` of the image's pages, which halts for an image without bytes, and the copy of its segments. */
  method LoadImage(k: Kernel, ph: seq<ProgramHeader>, file: seq<byte>, v0: nat, n: nat) returns (r: Image)
    requires Pmm.Ready(k) && FitsFile(ph, file) && SegmentsWithin(ph, v0, n) && n < TWO64
    modifies k`totalMemoryAllocated, k`used, k.mem
    ensures Pmm.Ready(k)
    ensures r.NoMemory? <==> n == 0 || Pmm.NoRun(k.sections, old(k.used), n)
    ensures r.NoMemory? ==> k.mem[..] == old(k.mem[..]) && k.used == old(k.used)
    ensures r.Image? ==> Pmm.BlockAtFirstRun(k.sections, old(k.used), n, r.frame * 4096) && k.used == old(k.used) + Pmm.Frames(r.frame, n)
    ensures r.Image? ==> old(k.used) !! Pmm.Frames(r.frame, n)
    ensures r.Image? ==> 0 < n && Held(k.sections, k.used, r.frame, n) && (r.frame + n) * 4096 <= k.mem.Length
    ensures r.Image? ==> Loaded(k.mem[..], r.frame, n, ph, file, |ph|, v0)
    ensures r.Image? ==> UsedKept(old(k.mem[..]), old(k.used), k.mem[..]) && old(k.used) <= k.used
  {
    hide Pmm.PmmInv, Pmm.NoRun, Pmm.Grants, Pmm.BlockAtFirstRun, FitsFile, UsedKept, Held, Loaded;
    ghost var m0, used0 := k.mem[..], k.used;
    var g := Pmm.Kmalloc(k, n);
    if g.Halt? { return NoMemory; }
    var f := g.addr / 4096;
    Pmm.BlockAligned(k.sections, used0, n, g.addr);
    Pmm.RunWasThere(k.sections, used0, n, g.addr);
    ghost var m1 := k.mem[..];
    GrantHeld(k.sections, m0, used0, m1, k.used, f, n);
    Pmm.GrantsParts(m0, used0, k.sections, m1, k.used, f, n);
    Pmm.GrantsFrames(m0, used0, k.sections, m1, k.used, f, n);
    GrantRegion(k.sections, m0, used0, m1, k.used, f, n);
    CopySegments(k, ph, file, f, n, v0);
    HeldWritesKeepPmm(k.sections, m1, k.mem[..], k.used, f, n);
    GrantThenWriteKeeps(k.sections, m0, used0, m1, k.used, k.mem[..], f, n);
    return Image(f);
  }

  lemma GrantRegion(secs: seq<Section>, m0: seq<byte>, used0: set<nat>, m: seq<byte>, used: set<nat>, f: nat, n: nat)
    requires Pmm.Grants(m0, used0, secs, m, used, f, n)
    ensures (f + n) * 4096 <= |m|
    ensures forall x :: f * 4096 <= x < (f + n) * 4096 ==> m[x] == 0
  {
  }
}
