/**
The physical page allocator (src/mem/pmm.c): one bitmap in the first page of every
usable section of the memory map, searched first-fit.
*/
module Pmm {
  import opened Bytes
  import opened KernelState

  // ----- bits of a byte -------------------------------------------------------------

  /** `(x >> k) & 1`, one shift at a time. */
  predicate Bit(x: nat, k: nat)
  {
    if k == 0 then x % 2 == 1 else Bit(x / 2, k - 1)
  }

  /** `x | (1 << k)`, one shift at a time. */
  function OrBit(x: byte, k: nat): (r: byte)
    requires k < 8
  {
    OrBitUnder(x, k, 8)
  }

  /** Setting bit `k` of a `w`-bit number leaves a `w`-bit number. */
  function OrBitUnder(x: nat, k: nat, w: nat): (r: nat)
    requires k < w <= 8 && x < Pow2(w)
    ensures r < Pow2(w)
  {
    if k == 0 then x / 2 * 2 + 1 else x % 2 + 2 * OrBitUnder(x / 2, k - 1, w - 1)
  }

  function Pow2(k: nat): nat {
    if k == 0 then 1 else 2 * Pow2(k - 1)
  }

  /** Setting one bit of a byte sets that bit and leaves the others alone. */
  lemma {:induction false} OrBitSets(x: nat, k: nat, w: nat, j: nat)
    requires k < w <= 8 && x < Pow2(w) <= 256
    ensures OrBitUnder(x, k, w) < 256
    ensures Bit(OrBitUnder(x, k, w), j) <==> j == k || Bit(x, j)
  {
    if k > 0 && j > 0 {
      OrBitSets(x / 2, k - 1, w - 1, j - 1);
      assert OrBitUnder(x, k, w) / 2 == OrBitUnder(x / 2, k - 1, w - 1);
    }
  }

  // ----- the size of a bitmap -------------------------------------------------------

  /** One pass of the loop of `get_bitmap_reserved`: `n` stays 1, so a pass that does not exit changes nothing. */
  function ReservedPass(length: nat): (r: int)
    requires length < TWO64
  {
    // `length / 4096 - 1` on 64-bit unsigned numbers
    var room := if length / 4096 >= 1 then length / 4096 - 1 else TWO64 - 1;
    if 32768 > room then 4096 else -1
  }

  /** The result after at most `passes` passes of the loop, or -1 while it is still running. */
  function BitmapReserved(length: nat, passes: nat): (r: int)
    requires length < TWO64
  {
    if passes == 0 then -1
    else if ReservedPass(length) >= 0 then ReservedPass(length)
    else BitmapReserved(length, passes - 1)
  }

  /** The loop ends, and then with one page, exactly for sections of 1 to 32768 pages. */
  lemma {:induction false} ReservedEnds(length: nat)
    requires length < TWO64
    ensures (exists passes :: BitmapReserved(length, passes) >= 0) <==> 1 <= length / 4096 <= 32768
    ensures forall passes :: BitmapReserved(length, passes) >= 0 ==> BitmapReserved(length, passes) == 4096
  {
    if 1 <= length / 4096 <= 32768 {
      assert BitmapReserved(length, 1) >= 0;
    }
    forall passes: nat
      ensures BitmapReserved(length, passes) >= 0 ==> 1 <= length / 4096 <= 32768
      ensures BitmapReserved(length, passes) >= 0 ==> BitmapReserved(length, passes) == 4096
    {
      ReservedRun(length, passes);
    }
  }

  lemma {:induction false} ReservedRun(length: nat, passes: nat)
    requires length < TWO64
    ensures BitmapReserved(length, passes) == if passes > 0 && 1 <= length / 4096 <= 32768 then 4096 else -1
  {
    if passes > 0 {
      ReservedRun(length, passes - 1);
    }
  }

  // ----- memory map and bitmaps -----------------------------------------------------

  /** What the allocator needs of a usable section: page aligned, inside memory, and small enough for one bitmap page. */
  predicate SectionOk(s: Section, size: nat) {
    && s.base % 4096 == 0 && s.length % 4096 == 0
    && 1 <= s.length / 4096 <= 32768
    && s.base + s.length <= size
  }

  predicate Apart(s: Section, r: Section) {
    s.base + s.length <= r.base || r.base + r.length <= s.base
  }

  ghost predicate MapOk(secs: seq<Section>, size: nat) {
    && (forall i :: 0 <= i < |secs| && secs[i].kind == Usable ==> SectionOk(secs[i], size))
    && (forall i, j {:trigger Apart(secs[i], secs[j])} ::
        0 <= i < |secs| && 0 <= j < |secs| && i != j && secs[i].kind == Usable && secs[j].kind == Usable ==> Apart(secs[i], secs[j]))
  }

  /** The number of pages of a section that its bitmap keeps track of. */
  function Tracked(s: Section): (n: nat)
    requires s.length >= 4096
    ensures n * 4096 <= s.length - 4096 && n % 8 == 0
  {
    (s.length - 4096) / 4096 / 8 * 8
  }

  /** Which pages are tracked: whole groups of eight that fit behind the bitmap page. */
  lemma TrackedPages(s: Section, p: nat)
    requires s.length >= 4096
    ensures p < Tracked(s) <==> (p / 8 + 1) * 8 * 4096 <= s.length - 4096
  {
    var pages := (s.length - 4096) / 4096;
    assert p < pages / 8 * 8 <==> p / 8 < pages / 8;
    assert p / 8 < pages / 8 <==> (p / 8 + 1) * 8 <= pages;
  }

  /** The pages `[p, p+n)` behind the bitmap page of a section at `base` lie in groups of eight that fit in it, and are free. */
  ghost predicate FreePages(base: nat, length: nat, used: set<nat>, p: nat, n: nat) {
    && length >= 4096 && (n > 0 ==> ((p + n - 1) / 8 + 1) * 8 * 4096 <= length - 4096)
    && forall f :: base / 4096 + 1 + p <= f < base / 4096 + 1 + p + n ==> f !in used
  }

  /** That is what a free run is. */
  lemma FreeRunIs(s: Section, used: set<nat>, p: nat, n: nat)
    requires n > 0
    ensures FreeRun(s, used, p, n) <==> s.kind == Usable && FreePages(s.base, s.length, used, p, n)
  {
    if s.length >= 4096 {
      TrackedPages(s, p + n - 1);
    }
    var b := s.base / 4096 + 1;
    if FreeRun(s, used, p, n) {
      forall f | b + p <= f < b + p + n
        ensures f !in used
      {
        assert FrameOf(s, f - b) !in used;
      }
    }
  }

  lemma NoRunMeans(secs: seq<Section>, used: set<nat>, n: nat)
    requires NoRun(secs, used, n) && n > 0
    ensures forall i, p: nat :: 0 <= i < |secs| && secs[i].kind == Usable ==> !FreePages(secs[i].base, secs[i].length, used, p, n)
  {
    forall i, p: nat | 0 <= i < |secs| && secs[i].kind == Usable
      ensures !FreePages(secs[i].base, secs[i].length, used, p, n)
    {
      FreeRunIs(secs[i], used, p, n);
    }
  }

  /** The block a call returns: the first free pages, in the order of sections and addresses. */
  ghost predicate FirstPages(secs: seq<Section>, used: set<nat>, n: nat, addr: nat, i: nat, p: nat) {
    && i < |secs| && secs[i].kind == Usable && FreePages(secs[i].base, secs[i].length, used, p, n)
    && addr == secs[i].base / 4096 * 4096 + 4096 * (1 + p)
    && (forall j, q: nat :: 0 <= j < i && secs[j].kind == Usable ==> !FreePages(secs[j].base, secs[j].length, used, q, n))
    && (forall q: nat :: q < p ==> !FreePages(secs[i].base, secs[i].length, used, q, n))
  }

  lemma BlockMeans(secs: seq<Section>, used: set<nat>, n: nat, addr: nat)
    requires BlockAtFirstRun(secs, used, n, addr) && n > 0
    ensures exists i, p :: FirstPages(secs, used, n, addr, i, p)
  {
    var i: nat, p: nat :| FirstRun(secs, used, n, i, p) && addr == FrameOf(secs[i], p) * 4096;
    FreeRunIs(secs[i], used, p, n);
    forall j, q: nat | 0 <= j < i && secs[j].kind == Usable
      ensures !FreePages(secs[j].base, secs[j].length, used, q, n)
    {
      FreeRunIs(secs[j], used, q, n);
    }
    forall q: nat | q < p
      ensures !FreePages(secs[i].base, secs[i].length, used, q, n)
    {
      FreeRunIs(secs[i], used, q, n);
    }
    hide FreePages, FreeRun;
    assert FirstPages(secs, used, n, addr, i, p);
  }

  /** The frame number of page `p` of a section: the first page holds the bitmap. */
  function FrameOf(s: Section, p: nat): nat {
    s.base / 4096 + 1 + p
  }

  ghost predicate Taken(m: seq<byte>, s: Section, p: nat)
    requires SectionOk(s, |m|) && p < Tracked(s)
  {
    Bit(m[s.base + p / 8], p % 8)
  }

  /** Frame `f` is one the allocator may hand out. */
  ghost predicate Trackable(secs: seq<Section>, f: nat) {
    exists i :: 0 <= i < |secs| && InSection(secs[i], f)
  }

  predicate InSection(s: Section, f: nat) {
    s.kind == Usable && s.length >= 4096 && FrameOf(s, 0) <= f < FrameOf(s, Tracked(s))
  }

  /** Frame `f` holds the bitmap of some usable section. */
  ghost predicate BitmapFrame(secs: seq<Section>, f: nat) {
    exists i :: 0 <= i < |secs| && secs[i].kind == Usable && secs[i].base / 4096 == f
  }

  /** The bitmaps in memory represent exactly the set `used`. */
  ghost predicate PmmInv(m: seq<byte>, secs: seq<Section>, used: set<nat>) {
    && MapOk(secs, |m|)
    && (forall f {:trigger Trackable(secs, f)} :: f in used ==> Trackable(secs, f))
    && (forall i {:trigger Represents(m, secs[i], used)} :: 0 <= i < |secs| && secs[i].kind == Usable ==> Represents(m, secs[i], used))
  }

  ghost predicate Represents(m: seq<byte>, s: Section, used: set<nat>)
    requires SectionOk(s, |m|)
  {
    forall p :: 0 <= p < Tracked(s) ==> (Taken(m, s, p) <==> FrameOf(s, p) in used)
  }

  ghost predicate Ready(k: Kernel)
    reads k, k.mem
  {
    && PmmInv(k.mem[..], k.sections, k.used)
    && k.lastFreedPage == -1
    && k.totalMemoryAllocated == 4096 * |k.used|
  }

  /** The frame numbers `f .. f+n-1`. */
  ghost function Frames(f: nat, n: nat): (r: set<nat>)
    ensures forall x :: x in r <==> f <= x < f + n
    ensures |r| == n
  {
    if n == 0 then {} else Frames(f, n - 1) + {f + n - 1}
  }

  /** Pages `[p, p+n)` of section `s` are all tracked and free. */
  ghost predicate FreeRun(s: Section, used: set<nat>, p: nat, n: nat) {
    && s.kind == Usable && s.length >= 4096
    && p + n <= Tracked(s)
    && forall q :: p <= q < p + n ==> FrameOf(s, q) !in used
  }

  /** `(i, p)` is the first run of `n` free pages, in the order section then page. */
  ghost predicate FirstRun(secs: seq<Section>, used: set<nat>, n: nat, i: nat, p: nat) {
    && i < |secs| && FreeRun(secs[i], used, p, n)
    && (forall j, q: nat :: 0 <= j < i ==> !FreeRun(secs[j], used, q, n))
    && (forall q: nat :: q < p ==> !FreeRun(secs[i], used, q, n))
  }

  ghost predicate NoRun(secs: seq<Section>, used: set<nat>, n: nat) {
    forall j, q: nat :: 0 <= j < |secs| ==> !FreeRun(secs[j], used, q, n)
  }

  /** What one successful `kmalloc(n)` does to memory and to the set of used frames. */
  ghost predicate Grants(m: seq<byte>, used: set<nat>, secs: seq<Section>, m': seq<byte>, used': set<nat>, f: nat, n: nat) {
    && |m'| == |m|
    && (f + n) * 4096 <= |m|
    && used' == used + Frames(f, n)
    && used !! Frames(f, n)
    && PmmInv(m', secs, used')
    && Zeroed(m', f, n)
    && OnlyTouches(m, m', secs, f, n)
    && (forall i {:trigger SpareKept(m, m', secs[i])} :: 0 <= i < |secs| && secs[i].kind == Usable ==> SpareKept(m, m', secs[i]))
  }

  /** The bytes of a section's bitmap page past its last tracked page are unchanged. */
  ghost predicate SpareKept(m: seq<byte>, m': seq<byte>, s: Section)
    requires |m'| == |m|
  {
    s.length >= 4096 && forall x :: s.base + Tracked(s) / 8 <= x < s.base + 4096 && x < |m| ==> m'[x] == m[x]
  }

  ghost predicate Zeroed(m: seq<byte>, f: nat, n: nat)
    requires (f + n) * 4096 <= |m|
  {
    forall x :: f * 4096 <= x < (f + n) * 4096 ==> m[x] == 0
  }

  /** Bytes outside the bitmap pages and outside frames `[f, f+n)` are unchanged. */
  ghost predicate OnlyTouches(m: seq<byte>, m': seq<byte>, secs: seq<Section>, f: nat, n: nat)
    requires |m'| == |m|
  {
    forall x :: 0 <= x < |m| && !BitmapFrame(secs, x / 4096) && !(f <= x / 4096 < f + n) ==> m'[x] == m[x]
  }

  // ----- the allocator --------------------------------------------------------------

  /** Memory `m` after marking page `p` of section `s`. */
  ghost function Mark(m: seq<byte>, s: Section, p: nat): (r: seq<byte>)
    requires SectionOk(s, |m|) && p < Tracked(s)
    ensures |r| == |m|
  {
    Splice(m, s.base + p / 8, [OrBit(m[s.base + p / 8], p % 8)])
  }

  lemma MarkTakes(m: seq<byte>, s: Section, p: nat, q: nat)
    requires SectionOk(s, |m|) && p < Tracked(s) && q < Tracked(s)
    ensures Taken(Mark(m, s, p), s, q) <==> q == p || Taken(m, s, q)
  {
    OrBitSets(m[s.base + p / 8], p % 8, 8, q % 8);
    if q / 8 != p / 8 {
      assert s.base + q / 8 != s.base + p / 8;
    }
  }

  /** Exactly the pages `[p, p+n)` of section `s` were added to its bitmap, and no byte outside the tracked bits changed. */
  ghost predicate Marked(m: seq<byte>, r: seq<byte>, s: Section, p: nat, n: nat)
    requires SectionOk(s, |m|)
  {
    && |r| == |m|
    && (forall q :: 0 <= q < Tracked(s) ==> (Taken(r, s, q) <==> p <= q < p + n || Taken(m, s, q)))
    && (forall x :: 0 <= x < |m| && !(s.base <= x < s.base + Tracked(s) / 8) ==> r[x] == m[x])
  }

  /** Bit `b` of a byte is set, and the others are as they were. */
  predicate SetsBit(x: byte, y: byte, b: nat) {
    forall c :: 0 <= c < 8 ==> (Bit(y, c) <==> c == b || Bit(x, c))
  }

  lemma SetBit(x: byte, b: nat)
    requires b < 8
    ensures SetsBit(x, OrBit(x, b), b)
  {
    forall c: nat | c < 8
      ensures Bit(OrBit(x, b), c) <==> c == b || Bit(x, c)
    {
      OrBitSets(x, b, 8, c);
    }
  }

  method AllocatePage(k: Kernel, i: nat, p: nat)
    requires i < |k.sections| && SectionOk(k.sections[i], k.mem.Length) && p < Tracked(k.sections[i])
    modifies k.mem
    ensures k.mem[..] == Mark(old(k.mem[..]), k.sections[i], p)
    ensures SetsBit(old(k.mem[..])[k.sections[i].base + p / 8], k.mem[k.sections[i].base + p / 8], p % 8)
  {
    SetBit(k.mem[k.sections[i].base + p / 8], p % 8);
    var a := k.sections[i].base + p / 8;
    k.mem[a] := OrBit(k.mem[a], p % 8);
  }

  method AllocatePages(k: Kernel, i: nat, p: nat, n: nat)
    requires i < |k.sections| && SectionOk(k.sections[i], k.mem.Length) && p + n <= Tracked(k.sections[i])
    modifies k.mem
    ensures Marked(old(k.mem[..]), k.mem[..], k.sections[i], p, n)
  {
    ghost var s := k.sections[i];
    ghost var m := k.mem[..];
    var j := 0;
    while j < n
      invariant 0 <= j <= n
      invariant Marked(m, k.mem[..], s, p, j)
    {
      ghost var before := k.mem[..];
      AllocatePage(k, i, p + j);
      forall q | 0 <= q < Tracked(s)
        ensures Taken(k.mem[..], s, q) <==> p <= q < p + j + 1 || Taken(m, s, q)
      {
        MarkTakes(before, s, p + j, q);
      }
      j := j + 1;
    }
  }

  /** True exactly when pages `[p, p+n)` of section `i` are all tracked and free, for every 64-bit `n`: the sum in the bound check may wrap. */
  method CheckPagesAvailable(k: Kernel, i: nat, p: nat, n: nat, ghost used: set<nat>) returns (ok: bool)
    requires i < |k.sections| && PmmInv(k.mem[..], k.sections, used)
    requires k.sections[i].kind == Usable && p < Tracked(k.sections[i]) && n < TWO64
    ensures ok <==> FreeRun(k.sections[i], used, p, n)
  {
    var s := k.sections[i];
    assert SectionOk(s, k.mem.Length);
    var pages := Tracked(s);
    var top := (p + n) % 0x1_0000_0000_0000_0000;
    if top > pages { return false; }
    if s.kind != Usable { return false; }
    if pages < n { return false; }
    var q := p;
    while q < top
      invariant p <= q && (q <= top || n == 0)
      invariant forall x :: p <= x < q ==> FrameOf(s, x) !in used
    {
      assert Represents(k.mem[..], s, used);
      assert Taken(k.mem[..], s, q) <==> FrameOf(s, q) in used;
      if Bit(k.mem[s.base + q / 8], q % 8) { return false; }
      q := q + 1;
    }
    return true;
  }

  /** The search of `kmalloc` over sections, bitmap bytes and bits. */
  method Search(k: Kernel, n: nat, ghost used: set<nat>) returns (found: bool, i: nat, p: nat)
    requires PmmInv(k.mem[..], k.sections, used) && 1 <= n < TWO64
    ensures found ==> FirstRun(k.sections, used, n, i, p)
    ensures !found ==> NoRun(k.sections, used, n)
  {
    i := 0;
    while i < |k.sections|
      invariant 0 <= i <= |k.sections|
      invariant forall j, q: nat :: 0 <= j < i ==> !FreeRun(k.sections[j], used, q, n)
    {
      if k.sections[i].kind == Usable {
        var s := k.sections[i];
        assert SectionOk(s, k.mem.Length);
        ReservedEnds(s.length);
        var maxBytes := (s.length - 4096) / 4096 / 8;
        var byteIndex := 0;
        while byteIndex < maxBytes
          invariant 0 <= byteIndex <= maxBytes
          invariant forall q: nat :: q < byteIndex * 8 ==> !FreeRun(s, used, q, n)
        {
          var bit := 0;
          while bit < 8
            invariant 0 <= bit <= 8
            invariant forall q: nat :: q < byteIndex * 8 + bit ==> !FreeRun(s, used, q, n)
          {
            p := bit + byteIndex * 8;
            var ok := CheckPagesAvailable(k, i, p, n, used);
            if ok {
              return true, i, p;
            }
            bit := bit + 1;
          }
          byteIndex := byteIndex + 1;
        }
        assert forall q: nat :: !FreeRun(s, used, q, n);
      }
      i := i + 1;
    }
    return false, 0, 0;
  }

  datatype Grant = Halt | Block(addr: nat)

  /** `kmalloc`: the least free run of `n` pages, marked, zeroed and counted; the device halts exactly when there is none. */
  method Kmalloc(k: Kernel, n: nat) returns (r: Grant)
    requires Ready(k) && n < TWO64
    modifies k`totalMemoryAllocated, k`used, k.mem
    ensures Ready(k)
    ensures r.Halt? <==> n == 0 || NoRun(k.sections, old(k.used), n)
    ensures r.Halt? ==> k.mem[..] == old(k.mem[..]) && k.used == old(k.used)
    ensures r.Halt? && n > 0 ==>
      forall i, p: nat :: 0 <= i < |k.sections| && k.sections[i].kind == Usable ==> !FreePages(k.sections[i].base, k.sections[i].length, k.used, p, n)
    ensures r.Block? ==> exists i, p :: FirstPages(k.sections, old(k.used), n, r.addr, i, p)
    ensures r.Block? ==> BlockAtFirstRun(k.sections, old(k.used), n, r.addr)
    ensures r.Block? ==> Grants(old(k.mem[..]), old(k.used), k.sections, k.mem[..], k.used, r.addr / 4096, n)
  {
    hide Grants, PmmInv, FreePages, FirstPages;
    if n < 1 { return Halt; }
    if n < k.lastFreedNumPages && k.lastFreedPage != -1 {
      assert false;  // nothing ever sets these fields
    }
    var found, i, p := Search(k, n, k.used);
    if !found {
      NoRunMeans(k.sections, k.used, n);
      return Halt;
    }
    var addr := Take(k, i, p, n);
    BlockMeans(k.sections, old(k.used), n, addr);
    return Block(addr);
  }

  /** The success branch of `kmalloc`: the pages of a free run are marked, zeroed and counted. */
  method Take(k: Kernel, i: nat, p: nat, n: nat) returns (addr: nat)
    requires Ready(k) && i < |k.sections| && n >= 1 && FreeRun(k.sections[i], k.used, p, n)
    modifies k`totalMemoryAllocated, k`used, k.mem
    ensures Ready(k) && addr == FrameOf(k.sections[i], p) * 4096
    ensures Grants(old(k.mem[..]), old(k.used), k.sections, k.mem[..], k.used, FrameOf(k.sections[i], p), n)
  {
    hide Grants;
    ghost var used := k.used;
    ghost var f := FrameOf(k.sections[i], p);
    addr := MarkAndZero(k, i, p, n, used);
    ghost var z := k.mem[..];
    GrantsParts(old(k.mem[..]), used, k.sections, z, used + Frames(f, n), f, n);
    k.totalMemoryAllocated := k.totalMemoryAllocated + n * 4096;
    k.used := used + Frames(f, n);
    assert k.mem[..] == z;
  }

  method MarkAndZero(k: Kernel, i: nat, p: nat, n: nat, ghost used: set<nat>) returns (addr: nat)
    requires PmmInv(k.mem[..], k.sections, used)
    requires i < |k.sections| && n >= 1 && FreeRun(k.sections[i], used, p, n)
    modifies k.mem
    ensures addr == FrameOf(k.sections[i], p) * 4096
    ensures Grants(old(k.mem[..]), used, k.sections, k.mem[..], used + Frames(FrameOf(k.sections[i], p), n), FrameOf(k.sections[i], p), n)
  {
    ghost var m := k.mem[..];
    assert SectionOk(k.sections[i], k.mem.Length);
    hide Grants, FreeRun, PmmInv;
    AllocatePages(k, i, p, n);
    ghost var marked := k.mem[..];
    addr := k.sections[i].base + p * 4096 + 4096;
    assert addr == FrameOf(k.sections[i], p) * 4096;
    MemZero(k.mem, addr, n * 4096);
    MarkedGrants(m, marked, k.mem[..], k.sections, used, i, p, n);
  }

  lemma GrantsParts(m: seq<byte>, used: set<nat>, secs: seq<Section>, m': seq<byte>, used': set<nat>, f: nat, n: nat)
    requires Grants(m, used, secs, m', used', f, n)
    ensures PmmInv(m', secs, used') && |used'| == |used| + n
    ensures |m'| == |m| && used <= used'
  {
  }

  lemma GrantsFrames(m: seq<byte>, used: set<nat>, secs: seq<Section>, m': seq<byte>, used': set<nat>, f: nat, n: nat)
    requires Grants(m, used, secs, m', used', f, n)
    ensures used' == used + Frames(f, n) && used !! Frames(f, n)
  {
  }

  ghost predicate BlockAtFirstRun(secs: seq<Section>, used: set<nat>, n: nat, addr: nat) {
    exists i: nat, p: nat :: FirstRun(secs, used, n, i, p) && addr == FrameOf(secs[i], p) * 4096
  }

  // ----- first-fit order ------------------------------------------------------------

  /** No page before page `p` of section `i` is free. */
  ghost predicate PackedAt(secs: seq<Section>, used: set<nat>, i: nat, p: nat) {
    && i < |secs| && secs[i].kind == Usable && secs[i].length >= 4096 && p < Tracked(secs[i])
    && (forall j, q: nat :: 0 <= j < i ==> !FreeRun(secs[j], used, q, 1))
    && (forall q: nat :: q < p ==> !FreeRun(secs[i], used, q, 1))
  }

  /** Every page that comes before frame `f`, in the order the allocator looks, is in use. */
  ghost predicate Packed(secs: seq<Section>, used: set<nat>, f: nat) {
    exists i: nat, p: nat :: PackedAt(secs, used, i, p) && f == FrameOf(secs[i], p)
  }

  lemma RunWasThere(secs: seq<Section>, used: set<nat>, n: nat, addr: nat)
    requires BlockAtFirstRun(secs, used, n, addr)
    ensures !NoRun(secs, used, n)
  {
  }

  lemma BlockAligned(secs: seq<Section>, used: set<nat>, n: nat, addr: nat)
    requires BlockAtFirstRun(secs, used, n, addr)
    ensures addr % 4096 == 0 && addr == addr / 4096 * 4096
  {
  }

  lemma PackedStays(secs: seq<Section>, used: set<nat>, used': set<nat>, f: nat)
    requires Packed(secs, used, f) && used <= used'
    ensures Packed(secs, used', f)
  {
    var i: nat, p: nat :| PackedAt(secs, used, i, p) && f == FrameOf(secs[i], p);
    forall j: nat, q: nat | j < |secs| && FreeRun(secs[j], used', q, 1)
      ensures FreeRun(secs[j], used, q, 1)
    {
    }
    hide FreeRun;
    assert PackedAt(secs, used', i, p);
  }

  /** A page that `kmalloc(1)` finds is. */
  lemma FirstIsPacked(secs: seq<Section>, used: set<nat>, addr: nat)
    requires BlockAtFirstRun(secs, used, 1, addr)
    ensures Packed(secs, used, addr / 4096)
  {
    var i: nat, p: nat :| FirstRun(secs, used, 1, i, p) && addr == FrameOf(secs[i], p) * 4096;
    assert PackedAt(secs, used, i, p);
  }

  lemma OtherSection(secs: seq<Section>, size: nat, i: nat, j: nat)
    requires MapOk(secs, size) && i < |secs| && j < |secs| && i != j
    requires secs[i].kind == Usable && secs[j].kind == Usable
    ensures Apart(secs[i], secs[j])
  {
    assert Apart(secs[i], secs[j]);
  }

  lemma MarkedGrants(m: seq<byte>, marked: seq<byte>, z: seq<byte>, secs: seq<Section>, used: set<nat>, i: nat, p: nat, n: nat)
    requires PmmInv(m, secs, used) && i < |secs| && FreeRun(secs[i], used, p, n)
    requires Marked(m, marked, secs[i], p, n) && n >= 1
    requires z == Splice(marked, FrameOf(secs[i], p) * 4096, Zeros(n * 4096))
    ensures Grants(m, used, secs, z, used + Frames(FrameOf(secs[i], p), n), FrameOf(secs[i], p), n)
  {
    var f := FrameOf(secs[i], p);
    assert z[f * 4096..(f + n) * 4096] == Zeros(n * 4096);
    assert Zeroed(z, f, n);
    RunIsFree(secs, used, i, p, n);
    forall j | 0 <= j < |secs| && secs[j].kind == Usable
      ensures Represents(z, secs[j], used + Frames(FrameOf(secs[i], p), n))
    {
      SectionRepresents(m, marked, z, secs, used, i, p, n, j);
    }
    ElsewhereKept(m, marked, z, secs, i, p, n);
    forall j {:trigger SpareKept(m, z, secs[j])} | 0 <= j < |secs| && secs[j].kind == Usable
      ensures SpareKept(m, z, secs[j])
    {
      SpareStays(m, marked, z, secs, i, p, n, j);
    }
  }

  lemma SpareStays(m: seq<byte>, marked: seq<byte>, z: seq<byte>, secs: seq<Section>, i: nat, p: nat, n: nat, j: nat)
    requires MapOk(secs, |m|) && i < |secs| && secs[i].kind == Usable && p + n <= Tracked(secs[i])
    requires Marked(m, marked, secs[i], p, n) && n >= 1
    requires z == Splice(marked, FrameOf(secs[i], p) * 4096, Zeros(n * 4096))
    requires j < |secs| && secs[j].kind == Usable
    ensures SpareKept(m, z, secs[j])
  {
    var s, t := secs[i], secs[j];
    assert SectionOk(s, |m|) && SectionOk(t, |m|);
    if j != i {
      OtherSection(secs, |m|, i, j);
    }
    forall x | t.base + Tracked(t) / 8 <= x < t.base + 4096 && x < |m|
      ensures z[x] == m[x]
    {
      assert z[x] == marked[x];
    }
  }

  /** Among the free runs there is a first one. */
  lemma LeastRun(secs: seq<Section>, used: set<nat>, n: nat, i0: nat, p0: nat) returns (i: nat, p: nat)
    requires i0 < |secs| && FreeRun(secs[i0], used, p0, n)
    ensures FirstRun(secs, used, n, i, p)
    decreases i0, p0
  {
    if j, q: nat :| 0 <= j < i0 && FreeRun(secs[j], used, q, n) {
      i, p := LeastRun(secs, used, n, j, q);
    } else if q: nat :| q < p0 && FreeRun(secs[i0], used, q, n) {
      i, p := LeastRun(secs, used, n, i0, q);
    } else {
      return i0, p0;
    }
  }

  /** While there is a free frame, `kmalloc(1)` can grant the first one. */
  lemma CanGrant(m: seq<byte>, secs: seq<Section>, used: set<nat>) returns (m': seq<byte>, used': set<nat>, f: nat)
    requires PmmInv(m, secs, used) && !NoRun(secs, used, 1)
    ensures Grants(m, used, secs, m', used', f, 1) && BlockAtFirstRun(secs, used, 1, f * 4096)
  {
    var i: nat, p: nat :| i < |secs| && FreeRun(secs[i], used, p, 1);
    i, p := LeastRun(secs, used, 1, i, p);
    assert FirstRun(secs, used, 1, i, p);
    var s := secs[i];
    assert SectionOk(s, |m|);
    var marked := Mark(m, s, p);
    hide PmmInv, FreeRun;
    forall q | 0 <= q < Tracked(s)
      ensures Taken(marked, s, q) <==> p <= q < p + 1 || Taken(m, s, q)
    {
      MarkTakes(m, s, p, q);
    }
    f := FrameOf(s, p);
    m', used' := Splice(marked, f * 4096, Zeros(1 * 4096)), used + Frames(f, 1);
    hide Mark, Taken;
    MarkedGrants(m, marked, m', secs, used, i, p, 1);
  }

  lemma ElsewhereKept(m: seq<byte>, marked: seq<byte>, z: seq<byte>, secs: seq<Section>, i: nat, p: nat, n: nat)
    requires MapOk(secs, |m|) && i < |secs| && secs[i].kind == Usable && p + n <= Tracked(secs[i])
    requires Marked(m, marked, secs[i], p, n) && n >= 1
    requires z == Splice(marked, FrameOf(secs[i], p) * 4096, Zeros(n * 4096))
    ensures OnlyTouches(m, z, secs, FrameOf(secs[i], p), n)
  {
    var f := FrameOf(secs[i], p);
    assert BitmapFrame(secs, secs[i].base / 4096);
    forall x | 0 <= x < |m| && !BitmapFrame(secs, x / 4096) && !(f <= x / 4096 < f + n)
      ensures z[x] == m[x]
    {
      assert !(secs[i].base <= x < secs[i].base + 4096);
      assert z[x] == marked[x];
    }
  }

  lemma RunIsFree(secs: seq<Section>, used: set<nat>, i: nat, p: nat, n: nat)
    requires i < |secs| && FreeRun(secs[i], used, p, n)
    ensures used !! Frames(FrameOf(secs[i], p), n)
    ensures forall x :: x in Frames(FrameOf(secs[i], p), n) ==> Trackable(secs, x)
  {
    forall x | x in Frames(FrameOf(secs[i], p), n)
      ensures x !in used && Trackable(secs, x)
    {
      assert FrameOf(secs[i], x - FrameOf(secs[i], 0)) == x;
      assert InSection(secs[i], x);
    }
  }

  lemma SectionRepresents(m: seq<byte>, marked: seq<byte>, z: seq<byte>, secs: seq<Section>, used: set<nat>, i: nat, p: nat, n: nat, j: nat)
    requires PmmInv(m, secs, used) && i < |secs| && FreeRun(secs[i], used, p, n)
    requires Marked(m, marked, secs[i], p, n) && n >= 1
    requires z == Splice(marked, FrameOf(secs[i], p) * 4096, Zeros(n * 4096))
    requires j < |secs| && secs[j].kind == Usable
    ensures Represents(z, secs[j], used + Frames(FrameOf(secs[i], p), n))
  {
    var s := secs[i];
    var t := secs[j];
    if j != i {
      OtherSection(secs, |m|, i, j);
    }
    forall q | 0 <= q < Tracked(t)
      ensures Taken(z, t, q) <==> FrameOf(t, q) in used + Frames(FrameOf(s, p), n)
    {
      var x := t.base + q / 8;
      assert t.base <= x < t.base + 4096;
      assert z[x] == marked[x];
      assert Represents(m, t, used);
      assert Taken(m, t, q) <==> FrameOf(t, q) in used;
      if j == i {
        assert Taken(marked, s, q) <==> p <= q < p + n || Taken(m, s, q);
      } else {
        assert marked[x] == m[x];
      }
    }
  }
}
