/**
The hugepage-backed DMA pool and its virtual-to-physical lookup. The page map is read once from
the kernel; every lookup afterwards is address arithmetic on that copy.
*/
module DmaBuf {
  import opened Common
  import opened Numeric

  const PAGE_SIZE: nat := 4096
  const PHYS_ERROR: nat := 0xffff_ffff_ffff_ffff
  const PRESENT_BIT: nat := 0x8000_0000_0000_0000
  const PFN_LIMIT: nat := 0x80_0000_0000_0000      // page frame numbers use bits 0 to 54
  const U64_LIMIT: nat := 0x1_0000_0000_0000_0000

  /** The pool; pagemap is None until the page map has been read. */
  datatype Pool = Pool(base: nat, size: nat, pagemap: Option<seq<nat>>)

  predicate WellFormed(p: Pool)
  {
    && p.base % PAGE_SIZE == 0 && p.size % PAGE_SIZE == 0
    && (p.pagemap.Some? ==> |p.pagemap.value| == p.size / PAGE_SIZE)
  }

  predicate InPool(p: Pool, va: nat)
  {
    p.base <= va < p.base + p.size
  }

  function PageIndex(p: Pool, va: nat): (i: nat)
    requires WellFormed(p) && InPool(p, va)
    ensures p.pagemap.Some? ==> i < |p.pagemap.value|
  {
    (va - p.base) / PAGE_SIZE
  }

  predicate Present(entry: nat)
  {
    (entry / PRESENT_BIT) % 2 == 1
  }

  function Frame(entry: nat): nat
  {
    entry % PFN_LIMIT
  }

  /** The physical address of a pool address, or PHYS_ERROR. The 64-bit product may wrap around. */
  function VirtToPhys(p: Pool, va: nat): nat
    requires WellFormed(p)
  {
    if p.pagemap.None? || !InPool(p, va) then PHYS_ERROR else
    var entry := p.pagemap.value[PageIndex(p, va)];
    if !Present(entry) then PHYS_ERROR else
    (Frame(entry) * PAGE_SIZE + va % PAGE_SIZE) % U64_LIMIT
  }

  /**
  What the kernel gives for a MAP_HUGETLB | MAP_POPULATE mapping: all pages present at
  addresses that fit in 64 bits, and consecutive page frames inside each hugepage.
  */
  ghost predicate HugepageBacked(p: Pool, hps: nat)
  {
    && WellFormed(p) && p.pagemap.Some?
    && 0 < hps && hps % PAGE_SIZE == 0
    && (forall i :: 0 <= i < |p.pagemap.value| ==> Present(p.pagemap.value[i]) && FrameAt(p, i) < 0xf_ffff_ffff_ffff)
    && (forall i :: 0 < i < |p.pagemap.value| && SameHugepage(PageAddress(p, i - 1), PageAddress(p, i), hps)
          ==> FrameAt(p, i) == FrameAt(p, i - 1) + 1)
  }

  function FrameAt(p: Pool, i: nat): nat
    requires p.pagemap.Some? && i < |p.pagemap.value|
  {
    Frame(p.pagemap.value[i])
  }

  function PageAddress(p: Pool, i: nat): nat
  {
    p.base + i * PAGE_SIZE
  }

  /** In such a pool the lookup fails exactly outside of it, and keeps the offset in the page. */
  lemma VirtToPhysInPool(p: Pool, hps: nat, va: nat)
    requires HugepageBacked(p, hps) && InPool(p, va)
    ensures VirtToPhys(p, va) == FrameAt(p, PageIndex(p, va)) * PAGE_SIZE + va % PAGE_SIZE
    ensures VirtToPhys(p, va) != PHYS_ERROR
    ensures VirtToPhys(p, va) % PAGE_SIZE == va % PAGE_SIZE
  {
    assert Present(p.pagemap.value[PageIndex(p, va)]);
  }

  /** The lookup reports an error exactly when there is no page map, no such address or no page. */
  lemma VirtToPhysErrors(p: Pool, va: nat)
    requires WellFormed(p)
    requires p.pagemap.Some? && InPool(p, va) ==> Frame(p.pagemap.value[PageIndex(p, va)]) < 0xf_ffff_ffff_ffff
    ensures VirtToPhys(p, va) == PHYS_ERROR
       <==> p.pagemap.None? || !InPool(p, va) || !Present(p.pagemap.value[PageIndex(p, va)])
  {
  }

  /** An address and its offset from the page start. */
  lemma PageSplit(p: Pool, va: nat)
    requires WellFormed(p) && InPool(p, va)
    ensures va == PageAddress(p, PageIndex(p, va)) + va % PAGE_SIZE
  {
  }

  /** No hugepage starts in (a, b]. */
  ghost predicate SameHugepage(a: nat, b: nat, hps: nat)
    requires 0 < hps
  {
    Quot(a, hps) == Quot(b, hps)
  }

  lemma SameHugepageBetween(a: nat, x: nat, b: nat, hps: nat)
    requires 0 < hps && a <= x <= b && SameHugepage(a, b, hps)
    ensures SameHugepage(a, x, hps) && SameHugepage(x, b, hps)
  {
    QuotMonotone(a, x, hps);
    QuotMonotone(x, b, hps);
  }

  /** A hugepage never starts in the middle of a page. */
  lemma SamePageSameHugepage(start: nat, a: nat, hps: nat)
    requires 0 < hps && hps % PAGE_SIZE == 0 && start % PAGE_SIZE == 0 && start <= a < start + PAGE_SIZE
    ensures SameHugepage(start, a, hps)
  {
    hide Quot;
    var q, c, d := Quot(a, hps), hps / PAGE_SIZE, start / PAGE_SIZE;
    assert hps * q == PAGE_SIZE * (c * q);
    assert c * q <= d;
    QuotIs(start, hps, q);
  }

  /** Page frames run consecutively from one page to a later one of the same hugepage. */
  lemma {:induction false} FramesConsecutive(p: Pool, hps: nat, i: nat, j: nat)
    requires HugepageBacked(p, hps) && i <= j < |p.pagemap.value|
    requires SameHugepage(PageAddress(p, i), PageAddress(p, j), hps)
    ensures FrameAt(p, j) == FrameAt(p, i) + (j - i)
    decreases j - i
  {
    if i < j {
      SameHugepageBetween(PageAddress(p, i), PageAddress(p, j - 1), PageAddress(p, j), hps);
      FramesConsecutive(p, hps, i, j - 1);
    }
  }

  /** Within one hugepage, physical addresses run in step with virtual ones. */
  lemma PhysicallyContiguous(p: Pool, hps: nat, a: nat, b: nat)
    requires HugepageBacked(p, hps) && InPool(p, a) && InPool(p, b) && a <= b
    requires SameHugepage(a, b, hps)
    ensures VirtToPhys(p, b) == VirtToPhys(p, a) + (b - a)
  {
    SamePageStarts(p, hps, a, b);
    hide HugepageBacked, VirtToPhys, SameHugepage;
    VirtToPhysInPool(p, hps, a);
    VirtToPhysInPool(p, hps, b);
    FramesConsecutive(p, hps, PageIndex(p, a), PageIndex(p, b));
    PageSplit(p, a);
    PageSplit(p, b);
  }

  /** The start of an address's page. */
  lemma PageStart(p: Pool, va: nat)
    requires WellFormed(p) && InPool(p, va)
    ensures var start := PageAddress(p, PageIndex(p, va));
            start % PAGE_SIZE == 0 && start <= va < start + PAGE_SIZE
  {
    PageSplit(p, va);
  }

  lemma PageIndexMonotone(p: Pool, a: nat, b: nat)
    requires WellFormed(p) && InPool(p, a) && InPool(p, b) && a <= b
    ensures PageIndex(p, a) <= PageIndex(p, b)
  {
  }

  lemma SamePageStarts(p: Pool, hps: nat, a: nat, b: nat)
    requires WellFormed(p) && InPool(p, a) && InPool(p, b) && a <= b
    requires 0 < hps && hps % PAGE_SIZE == 0 && SameHugepage(a, b, hps)
    ensures PageIndex(p, a) <= PageIndex(p, b)
    ensures SameHugepage(PageAddress(p, PageIndex(p, a)), PageAddress(p, PageIndex(p, b)), hps)
  {
    hide Quot, PageIndex, PageAddress, WellFormed;
    PageIndexMonotone(p, a, b);
    PageStart(p, a);
    PageStart(p, b);
    SamePageSameHugepage(PageAddress(p, PageIndex(p, a)), a, hps);
    SamePageSameHugepage(PageAddress(p, PageIndex(p, b)), b, hps);
  }
}
