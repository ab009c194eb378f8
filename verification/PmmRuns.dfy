/**
What holds over whole runs of the page allocator, from `init_PMM` on.
*/
module PmmRuns {
  import opened Bytes
  import opened KernelState
  import opened Pmm

  // ----- the start ------------------------------------------------------------------

  ghost predicate ZeroSection(m: seq<byte>, s: Section)
    requires s.base + s.length <= |m|
  {
    forall x :: s.base <= x < s.base + s.length ==> m[x] == 0
  }

  /** `init_PMM`: every usable section is zeroed, so no page is used. */
  method InitPmm(k: Kernel)
    requires MapOk(k.sections, k.mem.Length) && k.totalMemoryAllocated == 0
    modifies k`lastFreedPage, k`lastFreedSection, k`used, k.mem
    ensures Ready(k) && k.used == {}
  {
    var i := 0;
    while i < |k.sections|
      modifies k.mem
      invariant 0 <= i <= |k.sections|
      invariant forall j :: 0 <= j < i && k.sections[j].kind == Usable ==>
        SectionOk(k.sections[j], k.mem.Length) && ZeroSection(k.mem[..], k.sections[j])
    {
      if k.sections[i].kind == Usable {
        assert SectionOk(k.sections[i], k.mem.Length);
        ghost var before := k.mem[..];
        MemZero(k.mem, k.sections[i].base, k.sections[i].length);
        forall j | 0 <= j < i && k.sections[j].kind == Usable
          ensures ZeroSection(k.mem[..], k.sections[j])
        {
          assert ZeroSection(before, k.sections[j]);
        }
      }
      i := i + 1;
    }
    k.lastFreedSection := -1;
    k.lastFreedPage := -1;
    k.used := {};
    forall j | 0 <= j < |k.sections| && k.sections[j].kind == Usable
      ensures Represents(k.mem[..], k.sections[j], {})
    {
      assert ZeroSection(k.mem[..], k.sections[j]);
      forall p | 0 <= p < Tracked(k.sections[j])
        ensures !Taken(k.mem[..], k.sections[j], p)
      {
        ZeroBit(p % 8);
      }
    }
  }

  lemma {:induction false} ZeroBit(k: nat)
    ensures !Bit(0, k)
  {
    if k > 0 {
      ZeroBit(k - 1);
    }
  }

  // ----- accounting -----------------------------------------------------------------

  /** The number of set bits among the first `p` bits of a section's bitmap. */
  ghost function CountBits(m: seq<byte>, s: Section, p: nat): nat
    requires SectionOk(s, |m|) && p <= Tracked(s)
  {
    if p == 0 then 0 else CountBits(m, s, p - 1) + if Taken(m, s, p - 1) then 1 else 0
  }

  /** The number of set bits in the bitmaps of the first `i` sections. */
  ghost function CountAll(m: seq<byte>, secs: seq<Section>, i: nat): nat
    requires MapOk(secs, |m|) && i <= |secs|
  {
    if i == 0 then 0
    else CountAll(m, secs, i - 1) + if secs[i - 1].kind == Usable then CountBits(m, secs[i - 1], Tracked(secs[i - 1])) else 0
  }

  ghost predicate InFirst(secs: seq<Section>, i: nat, f: nat)
    requires i <= |secs|
  {
    exists j :: 0 <= j < i && InSection(secs[j], f)
  }

  lemma MeetOneMore(a: set<nat>, b: set<nat>, x: nat)
    requires x !in b
    ensures |a * (b + {x})| == |a * b| + if x in a then 1 else 0
  {
    assert a * (b + {x}) == if x in a then a * b + {x} else a * b;
  }

  lemma DisjointUnionSize(a: set<nat>, b: set<nat>, c: set<nat>)
    requires forall x :: x in a <==> x in b || x in c
    requires forall x :: !(x in b && x in c)
    ensures |a| == |b| + |c|
  {
    assert a == b + c && b * c == {};
  }

  lemma BitIsUse(m: seq<byte>, s: Section, used: set<nat>, p: nat)
    requires SectionOk(s, |m|) && Represents(m, s, used) && p < Tracked(s)
    ensures Taken(m, s, p) <==> FrameOf(s, p) in used
  {
  }

  lemma {:induction false} CountSection(m: seq<byte>, s: Section, used: set<nat>, p: nat)
    requires SectionOk(s, |m|) && p <= Tracked(s) && Represents(m, s, used)
    ensures |used * Frames(FrameOf(s, 0), p)| == CountBits(m, s, p)
  {
    hide Taken, SectionOk;
    if p == 0 {
      assert used * Frames(FrameOf(s, 0), p) == {};
    } else {
      CountSection(m, s, used, p - 1);
      BitIsUse(m, s, used, p - 1);
      hide Represents;
      MeetOneMore(used, Frames(FrameOf(s, 0), p - 1), FrameOf(s, p - 1));
    }
  }

  /** The used frames that lie in the first `i` sections. */
  ghost function UsedFirst(secs: seq<Section>, used: set<nat>, i: nat): set<nat>
    requires i <= |secs|
  {
    set f | f in used && InFirst(secs, i, f)
  }

  lemma UsedFirstStep(secs: seq<Section>, size: nat, used: set<nat>, i: nat)
    requires MapOk(secs, size) && 0 < i <= |secs|
    ensures |UsedFirst(secs, used, i)| == |UsedFirst(secs, used, i - 1)| +
      if secs[i - 1].kind == Usable then |used * Frames(FrameOf(secs[i - 1], 0), Tracked(secs[i - 1]))| else 0
  {
    var s := secs[i - 1];
    var c := if s.kind == Usable then used * Frames(FrameOf(s, 0), Tracked(s)) else {};
    forall f
      ensures f in UsedFirst(secs, used, i) <==> f in UsedFirst(secs, used, i - 1) || f in c
      ensures !(f in UsedFirst(secs, used, i - 1) && f in c)
    {
      SplitFirst(secs, size, i, f);
    }
    DisjointUnionSize(UsedFirst(secs, used, i), UsedFirst(secs, used, i - 1), c);
  }

  lemma {:induction false} CountSections(m: seq<byte>, secs: seq<Section>, used: set<nat>, i: nat)
    requires PmmInv(m, secs, used) && i <= |secs|
    ensures |UsedFirst(secs, used, i)| == CountAll(m, secs, i)
  {
    if i == 0 {
      assert UsedFirst(secs, used, 0) == {};
    } else {
      CountSections(m, secs, used, i - 1);
      UsedFirstStep(secs, |m|, used, i);
      if secs[i - 1].kind == Usable {
        assert Represents(m, secs[i - 1], used);
        CountSection(m, secs[i - 1], used, Tracked(secs[i - 1]));
      }
    }
  }

  lemma SplitFirst(secs: seq<Section>, size: nat, i: nat, f: nat)
    requires MapOk(secs, size) && 0 < i <= |secs|
    ensures InFirst(secs, i, f) <==> InFirst(secs, i - 1, f) || InSection(secs[i - 1], f)
    ensures !(InFirst(secs, i - 1, f) && InSection(secs[i - 1], f))
  {
    if InFirst(secs, i - 1, f) && InSection(secs[i - 1], f) {
      var j :| 0 <= j < i - 1 && InSection(secs[j], f);
      OtherSection(secs, size, j, i - 1);
      assert false;
    }
  }

  /** The bitmaps have exactly one set bit for every frame in use, so `total_memory_allocated` is 4096 times the number of set bits. */
  lemma Accounting(m: seq<byte>, secs: seq<Section>, used: set<nat>)
    requires PmmInv(m, secs, used)
    ensures |used| == CountAll(m, secs, |secs|)
  {
    CountSections(m, secs, used, |secs|);
    forall f | f in used
      ensures InFirst(secs, |secs|, f)
    {
      assert Trackable(secs, f);
    }
    assert UsedFirst(secs, used, |secs|) == used;
  }

  // ----- how much there is ----------------------------------------------------------

  /** The frames the allocator can hand out from the first `i` sections. */
  ghost function FramesOfFirst(secs: seq<Section>, i: nat): set<nat>
    requires i <= |secs|
  {
    if i == 0 then {} else FramesOfFirst(secs, i - 1) + SectionFrames(secs[i - 1])
  }

  ghost function SectionFrames(s: Section): (r: set<nat>)
    ensures forall f :: f in r <==> InSection(s, f)
  {
    if s.kind == Usable && s.length >= 4096 then Frames(FrameOf(s, 0), Tracked(s)) else {}
  }

  lemma {:induction false} InFramesOfFirst(secs: seq<Section>, i: nat, f: nat)
    requires i <= |secs|
    ensures f in FramesOfFirst(secs, i) <==> InFirst(secs, i, f)
  {
    hide InSection, SectionFrames;
    if i > 0 {
      InFramesOfFirst(secs, i - 1, f);
      assert InFirst(secs, i, f) <==> InFirst(secs, i - 1, f) || InSection(secs[i - 1], f);
    }
  }

  /** All of them. */
  ghost function Capacity(secs: seq<Section>): set<nat> {
    FramesOfFirst(secs, |secs|)
  }

  /** A frame is free exactly when it is a free run of one page. */
  lemma FreeFrameIsRun(secs: seq<Section>, used: set<nat>, f: nat)
    requires Trackable(secs, f) && f !in used
    ensures !NoRun(secs, used, 1)
  {
    var i :| 0 <= i < |secs| && InSection(secs[i], f);
    assert FreeRun(secs[i], used, f - FrameOf(secs[i], 0), 1);
  }

  lemma RunHasFreeFrame(secs: seq<Section>, used: set<nat>) returns (f: nat)
    requires !NoRun(secs, used, 1)
    ensures Trackable(secs, f) && f !in used
  {
    var i: nat, p: nat :| i < |secs| && FreeRun(secs[i], used, p, 1);
    f := FrameOf(secs[i], p);
    assert InSection(secs[i], f);
  }

  /** `kmalloc(1)` finds nothing exactly when every frame it can hand out is in use. */
  lemma FullWhenNoRun(m: seq<byte>, secs: seq<Section>, used: set<nat>)
    requires PmmInv(m, secs, used)
    ensures NoRun(secs, used, 1) <==> used == Capacity(secs)
    ensures used <= Capacity(secs)
  {
    CapacityIs(secs);
    UsedIsTrackable(m, secs, used);
    hide NoRun, PmmInv, Trackable, Capacity;
    if NoRun(secs, used, 1) {
      forall f | f in Capacity(secs)
        ensures f in used
      {
        if f !in used {
          FreeFrameIsRun(secs, used, f);
        }
      }
    } else {
      var f := RunHasFreeFrame(secs, used);
    }
  }

  lemma CapacityIs(secs: seq<Section>)
    ensures forall f :: f in Capacity(secs) <==> Trackable(secs, f)
  {
    forall f: nat
      ensures f in Capacity(secs) <==> Trackable(secs, f)
    {
      InFramesOfFirst(secs, |secs|, f);
    }
  }

  lemma UsedIsTrackable(m: seq<byte>, secs: seq<Section>, used: set<nat>)
    requires PmmInv(m, secs, used)
    ensures forall f :: f in used ==> Trackable(secs, f)
  {
    hide Trackable;
  }

  // ----- runs -----------------------------------------------------------------------

  /** An event of a run: a granted request, or a write by some client outside the bitmap pages. */
  datatype Event = Alloc(f: nat, n: nat) | Write(x: nat, b: byte)

  datatype State = State(m: seq<byte>, used: set<nat>)

  ghost predicate Step(secs: seq<Section>, s: State, e: Event, t: State) {
    match e
    case Alloc(f, n) => n >= 1 && Grants(s.m, s.used, secs, t.m, t.used, f, n)
    case Write(x, b) => x < |s.m| && !BitmapFrame(secs, x / 4096) && t == State(s.m[x := b], s.used)
  }

  ghost predicate Run(secs: seq<Section>, ss: seq<State>, es: seq<Event>) {
    && |ss| == |es| + 1
    && PmmInv(ss[0].m, secs, ss[0].used)
    && forall i :: 0 <= i < |es| ==> Step(secs, ss[i], es[i], ss[i + 1])
  }

  lemma WriteKeepsBitmaps(m: seq<byte>, secs: seq<Section>, used: set<nat>, x: nat, b: byte)
    requires PmmInv(m, secs, used) && x < |m| && !BitmapFrame(secs, x / 4096)
    ensures PmmInv(m[x := b], secs, used)
  {
    KeepBitmaps(m, m[x := b], secs, used);
  }

  /** The allocator's invariant depends only on the bitmap pages. */
  lemma KeepBitmaps(m: seq<byte>, m': seq<byte>, secs: seq<Section>, used: set<nat>)
    requires PmmInv(m, secs, used) && |m'| == |m|
    requires forall x :: 0 <= x < |m| && BitmapFrame(secs, x / 4096) ==> m'[x] == m[x]
    ensures PmmInv(m', secs, used)
  {
    forall i | 0 <= i < |secs| && secs[i].kind == Usable
      ensures Represents(m', secs[i], used)
    {
      assert Represents(m, secs[i], used);
      forall p | 0 <= p < Tracked(secs[i])
        ensures Taken(m', secs[i], p) <==> FrameOf(secs[i], p) in used
      {
        var x := secs[i].base + p / 8;
        assert x / 4096 == secs[i].base / 4096;
        assert BitmapFrame(secs, x / 4096);
        assert Taken(m, secs[i], p) <==> FrameOf(secs[i], p) in used;
      }
    }
  }

  /** A frame the allocator may hand out is never a bitmap page. */
  lemma TrackableNotBitmap(secs: seq<Section>, size: nat, f: nat)
    requires MapOk(secs, size) && Trackable(secs, f)
    ensures !BitmapFrame(secs, f) && (f + 1) * 4096 <= size && f >= 1
  {
    var i :| 0 <= i < |secs| && InSection(secs[i], f);
    assert SectionOk(secs[i], size);
    if BitmapFrame(secs, f) {
      var j :| 0 <= j < |secs| && secs[j].kind == Usable && secs[j].base / 4096 == f;
      assert SectionOk(secs[j], size);
      if i != j {
        OtherSection(secs, size, i, j);
      }
      assert false;
    }
  }

  lemma {:induction false} RunKeeps(secs: seq<Section>, ss: seq<State>, es: seq<Event>, i: nat, j: nat)
    requires Run(secs, ss, es) && i <= j <= |es|
    ensures PmmInv(ss[j].m, secs, ss[j].used) && ss[i].used <= ss[j].used
    decreases j
  {
    if j > 0 {
      RunKeeps(secs, ss, es, if i < j then i else j - 1, j - 1);
      assert Step(secs, ss[j - 1], es[j - 1], ss[j]);
      if es[j - 1].Write? {
        WriteKeepsBitmaps(ss[j - 1].m, secs, ss[j - 1].used, es[j - 1].x, es[j - 1].b);
      }
    }
  }

  ghost predicate DisjointBlocks(e: Event, d: Event)
    requires e.Alloc? && d.Alloc?
  {
    e.f + e.n <= d.f || d.f + d.n <= e.f
  }

  /** Over every run, blocks granted by different calls are disjoint. */
  lemma BlocksDisjoint(secs: seq<Section>, ss: seq<State>, es: seq<Event>, i: nat, j: nat)
    requires Run(secs, ss, es) && i < j < |es| && es[i].Alloc? && es[j].Alloc?
    ensures DisjointBlocks(es[i], es[j])
  {
    RunKeeps(secs, ss, es, i + 1, j);
    assert Step(secs, ss[i], es[i], ss[i + 1]) && Step(secs, ss[j], es[j], ss[j + 1]);
    assert es[i].f in Frames(es[i].f, es[i].n) && es[j].f in Frames(es[j].f, es[j].n);
  }

  /** Over every run, every frame of a granted block lies in a usable section, past its bitmap page, and inside memory. */
  lemma BlocksUsable(secs: seq<Section>, ss: seq<State>, es: seq<Event>, i: nat, f: nat)
    requires Run(secs, ss, es) && i < |es| && es[i].Alloc? && es[i].f <= f < es[i].f + es[i].n
    ensures Trackable(secs, f) && !BitmapFrame(secs, f) && (f + 1) * 4096 <= |ss[0].m|
  {
    RunKeeps(secs, ss, es, 0, i + 1);
    RunSize(secs, ss, es, i + 1);
    assert Step(secs, ss[i], es[i], ss[i + 1]);
    assert f in Frames(es[i].f, es[i].n);
    assert Trackable(secs, f);
    TrackableNotBitmap(secs, |ss[0].m|, f);
  }

  lemma {:induction false} RunSize(secs: seq<Section>, ss: seq<State>, es: seq<Event>, j: nat)
    requires Run(secs, ss, es) && j <= |es|
    ensures |ss[j].m| == |ss[0].m|
  {
    if j > 0 {
      RunSize(secs, ss, es, j - 1);
      assert Step(secs, ss[j - 1], es[j - 1], ss[j]);
    }
  }

  function PagesGranted(es: seq<Event>): nat {
    if es == [] then 0
    else PagesGranted(es[..|es| - 1]) + if es[|es| - 1].Alloc? then es[|es| - 1].n else 0
  }

  /** Over every run, exactly the granted pages are in use, and the bitmaps show it: conservation. */
  lemma {:induction false} RunConserves(secs: seq<Section>, ss: seq<State>, es: seq<Event>)
    requires Run(secs, ss, es)
    ensures |ss[|es|].used| == |ss[0].used| + PagesGranted(es)
    ensures PmmInv(ss[|es|].m, secs, ss[|es|].used)
    ensures CountAll(ss[|es|].m, secs, |secs|) == |ss[0].used| + PagesGranted(es)
    decreases |es|
  {
    var n := |es|;
    RunKeeps(secs, ss, es, 0, n);
    Accounting(ss[n].m, secs, ss[n].used);
    hide PmmInv, CountAll, Grants;
    if n > 0 {
      var init := es[..n - 1];
      forall i | 0 <= i < n - 1
        ensures Step(secs, ss[..n][i], init[i], ss[..n][i + 1])
      {
        assert Step(secs, ss[i], es[i], ss[i + 1]);
      }
      RunConserves(secs, ss[..n], init);
      assert Step(secs, ss[n - 1], es[n - 1], ss[n]);
      if es[n - 1].Alloc? {
        GrantsParts(ss[n - 1].m, ss[n - 1].used, secs, ss[n].m, ss[n].used, es[n - 1].f, es[n - 1].n);
      }
    }
  }
}
