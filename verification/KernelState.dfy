/**
The global `kernel` record (src/kernel/kernel.h) as far as the memory subsystem uses
it, together with the physical memory it manages. Physical address `p` is reached by
the kernel through the pointer `p + hhdm`, so `mem[p]` stands for `*(p + hhdm)`.
*/
module KernelState {
  import opened Bytes

  /** The entry types of the bootloader's memory map (src/limine.h:423-430). */
  datatype SectionKind =
    | Usable | Reserved | AcpiReclaimable | AcpiNvs | BadMemory
    | BootloaderReclaimable | KernelAndModules | Framebuffer

  datatype Section = Section(base: nat, length: nat, kind: SectionKind)

  class Kernel {
    const mem: array<byte>
    const hhdm: nat
    const sections: seq<Section>
    var totalMemoryAllocated: nat
    var lastFreedPage: int
    var lastFreedSection: int
    var lastFreedNumPages: nat
    var kheapStart: nat
    var cr3: nat
    /** The frames handed out so far; the bitmaps in `mem` represent this set. */
    ghost var used: set<nat>

    constructor (mem: array<byte>, hhdm: nat, sections: seq<Section>)
      ensures this.mem == mem && this.hhdm == hhdm && this.sections == sections
      ensures totalMemoryAllocated == 0 && lastFreedPage == 0 && lastFreedNumPages == 0
    {
      this.mem := mem;
      this.hhdm := hhdm;
      this.sections := sections;
      totalMemoryAllocated := 0;
      lastFreedPage := 0;
      lastFreedSection := 0;
      lastFreedNumPages := 0;
      kheapStart := 0;
      cr3 := 0;
      used := {};
    }
  }
}
