/**
Data pointers of an NVMe command: PRP entries (section 4.3 of the NVM Express Base Specification
1.4) and SGL descriptors (section 4.4). Each builder is the driver's code. Each is judged by a
decoder that follows the specification and knows nothing about the builder.
*/
module NvmeDataPointer {
  import opened Common
  import opened DmaBuf
  import opened Numeric

  /** The addresses of n consecutive bytes. */
  function Bytes(a: nat, n: nat): (bs: seq<nat>)
    ensures |bs| == n
    ensures forall k :: 0 <= k < n ==> bs[k] == a + k
  {
    seq(n, k requires 0 <= k < n => a + k)
  }

  lemma BytesSplit(a: nat, m: nat, n: nat)
    ensures Bytes(a, m) + Bytes(a + m, n) == Bytes(a, m + n)
  {
  }

  /** The physical addresses of n consecutive pool bytes, looked up one by one. */
  function PhysBytes(p: Pool, va: nat, n: nat): (bs: seq<nat>)
    requires WellFormed(p)
    ensures |bs| == n
    ensures forall k :: 0 <= k < n ==> bs[k] == VirtToPhys(p, va + k)
  {
    seq<nat>(n, k requires 0 <= k < n => VirtToPhys(p, va + k))
  }

  // ---- PRP ----

  const MAX_PRPS: nat := PAGE_SIZE / 8

  datatype Error = EINVAL | EFAULT

  function FirstPageLen(addr: nat, len: nat): nat
  {
    var room := PAGE_SIZE - addr % PAGE_SIZE;
    if room > len then len else room
  }

  /** What a controller reads from a PRP list: page after page, the last one cut to the length. */
  function DecodeList(list: seq<nat>, len: nat): Option<seq<nat>>
  {
    if len == 0 then Some([])
    else if list == [] || list[0] % PAGE_SIZE != 0 then None
    else if len <= PAGE_SIZE then Some(Bytes(list[0], len))
    else match DecodeList(list[1..], len - PAGE_SIZE)
         case None => None
         case Some(rest) => Some(Bytes(list[0], PAGE_SIZE) + rest)
  }

  /**
  The bytes a PRP pair addresses. PRP1 may have an offset; a transfer that crosses one page
  boundary has its second page in PRP2; a longer one has a list page at PRP2, which holds at most
  512 entries before it would have to chain to another list page.
  */
  function DecodePrp(prp1: nat, prp2: nat, listAddr: nat, list: seq<nat>, len: nat): Option<seq<nat>>
  {
    var first := FirstPageLen(prp1, len);
    var rest := len - first;
    if rest == 0 then Some(Bytes(prp1, first))
    else if rest <= PAGE_SIZE then
      if prp2 % PAGE_SIZE == 0 then Some(Bytes(prp1, first) + Bytes(prp2, rest)) else None
    else if prp2 != listAddr || rest > MAX_PRPS * PAGE_SIZE then None
    else match DecodeList(list, rest)
         case None => None
         case Some(bs) => Some(Bytes(prp1, first) + bs)
  }

  /** The list page holds consecutive page addresses from a on, as far as len bytes need them. */
  ghost predicate SequentialPages(list: seq<nat>, a: nat, len: nat)
  {
    forall i :: 0 <= i < |list| && i * PAGE_SIZE < len ==> list[i] == a + i * PAGE_SIZE
  }

  lemma {:induction false} DecodeSequential(list: seq<nat>, a: nat, len: nat)
    requires a % PAGE_SIZE == 0 && len <= |list| * PAGE_SIZE && SequentialPages(list, a, len)
    ensures DecodeList(list, len) == Some(Bytes(a, len))
  {
    if len > 0 {
      assert list[0] == a + 0 * PAGE_SIZE;
      if len > PAGE_SIZE {
        forall i | 0 <= i < |list[1..]| && i * PAGE_SIZE < len - PAGE_SIZE
          ensures list[1..][i] == a + PAGE_SIZE + i * PAGE_SIZE
        {
          assert list[i + 1] == a + (i + 1) * PAGE_SIZE;
        }
        DecodeSequential(list[1..], a + PAGE_SIZE, len - PAGE_SIZE);
        BytesSplit(a, PAGE_SIZE, len - PAGE_SIZE);
      }
    }
  }

  /** A non-empty buffer inside a hugepage-backed pool. */
  ghost predicate MappedRange(p: Pool, hps: nat, va: nat, len: nat)
  {
    && WellFormed(p) && HugepageBacked(p, hps) && 0 < len
    && p.base <= va && va + len <= p.base + p.size
  }

  /** Bytes of one page have consecutive physical addresses. */
  lemma SamePage(p: Pool, hps: nat, va: nat, k: nat)
    requires HugepageBacked(p, hps) && InPool(p, va) && va % PAGE_SIZE + k < PAGE_SIZE
    ensures InPool(p, va + k) && VirtToPhys(p, va + k) == VirtToPhys(p, va) + k
  {
    SamePageIndex(p, va, k);
    VirtToPhysInPool(p, hps, va);
    VirtToPhysInPool(p, hps, va + k);
  }

  lemma SamePageIndex(p: Pool, va: nat, k: nat)
    requires WellFormed(p) && InPool(p, va) && va % PAGE_SIZE + k < PAGE_SIZE
    ensures InPool(p, va + k) && PageIndex(p, va + k) == PageIndex(p, va)
    ensures (va + k) % PAGE_SIZE == va % PAGE_SIZE + k
  {
  }

  /** The first part of a buffer ends with its page or with the buffer. */
  lemma FirstPart(va: nat, len: nat)
    ensures FirstPageLen(va, len) <= len && va % PAGE_SIZE + FirstPageLen(va, len) <= PAGE_SIZE
    ensures FirstPageLen(va, len) < len ==> (va + FirstPageLen(va, len)) % PAGE_SIZE == 0
  {
  }

  /** A buffer on at most two pages, translated page by page. */
  lemma TwoPages(p: Pool, hps: nat, va: nat, len: nat)
    requires MappedRange(p, hps, va, len)
    ensures var first := FirstPageLen(va, len);
            len - first <= PAGE_SIZE ==>
              PhysBytes(p, va, len)
              == Bytes(VirtToPhys(p, va), first) + Bytes(VirtToPhys(p, va + first), len - first)
  {
    hide HugepageBacked, VirtToPhys, FirstPageLen;
    var first := FirstPageLen(va, len);
    FirstPart(va, len);
    if len - first <= PAGE_SIZE {
      var parts := Bytes(VirtToPhys(p, va), first) + Bytes(VirtToPhys(p, va + first), len - first);
      forall k | 0 <= k < len ensures PhysBytes(p, va, len)[k] == parts[k] {
        if k < first {
          SamePage(p, hps, va, k);
        } else {
          SamePage(p, hps, va + first, k - first);
          assert va + k == va + first + (k - first);
        }
      }
    }
  }

  /** The first hugepage boundary after an address. */
  function HugepageBoundary(va: nat, hps: nat): (b: nat)
    requires 0 < hps
    ensures va < b <= va + hps
  {
    (Quot(va, hps) + 1) * hps
  }

  /** Everything before the next boundary is in the same hugepage; the next hugepage starts at it. */
  lemma AroundBoundary(va: nat, x: nat, hps: nat)
    requires 0 < hps && va <= x < HugepageBoundary(va, hps) + hps
    ensures x < HugepageBoundary(va, hps) ==> SameHugepage(va, x, hps)
    ensures x >= HugepageBoundary(va, hps) ==>
      SameHugepage(HugepageBoundary(va, hps), x, hps) && !SameHugepage(va, x, hps)
  {
    hide Quot;
    var q, b := Quot(va, hps), HugepageBoundary(va, hps);
    assert b == hps * q + hps == hps * (q + 1);
    if x < b {
      QuotIs(x, hps, q);
    } else {
      QuotIs(x, hps, q + 1);
      QuotIs(b, hps, q + 1);
    }
  }

  /** A buffer no longer than a hugepage, translated hugepage by hugepage. */
  lemma TwoHugepages(p: Pool, hps: nat, va: nat, len: nat)
    requires MappedRange(p, hps, va, len) && len <= hps
    ensures var b := HugepageBoundary(va, hps);
            PhysBytes(p, va, len) ==
              if va + len <= b then Bytes(VirtToPhys(p, va), len)
              else Bytes(VirtToPhys(p, va), b - va) + Bytes(VirtToPhys(p, b), len - (b - va))
  {
    hide HugepageBacked, VirtToPhys, HugepageBoundary;
    var b := HugepageBoundary(va, hps);
    var parts := if va + len <= b then Bytes(VirtToPhys(p, va), len)
                 else Bytes(VirtToPhys(p, va), b - va) + Bytes(VirtToPhys(p, b), len - (b - va));
    forall k | 0 <= k < len ensures PhysBytes(p, va, len)[k] == parts[k] {
      AroundBoundary(va, va + k, hps);
      if va + k < b {
        PhysicallyContiguous(p, hps, va, va + k);
      } else {
        PhysicallyContiguous(p, hps, b, va + k);
      }
    }
  }

  /**
  Without an IOMMU, a PRP list of sequential pages addresses the right bytes exactly when the
  buffer stays inside one hugepage or the next hugepage happens to be physically adjacent.
  */
  lemma LongPrpWithoutIommu(p: Pool, hps: nat, va: nat, len: nat)
    requires MappedRange(p, hps, va, len) && len <= hps
    ensures Bytes(VirtToPhys(p, va), len) == PhysBytes(p, va, len)
       <==> (var b := HugepageBoundary(va, hps);
             va + len <= b || VirtToPhys(p, b) == VirtToPhys(p, va) + (b - va))
  {
    TwoHugepages(p, hps, va, len);
    var b := HugepageBoundary(va, hps);
    if b < va + len {
      assert PhysBytes(p, va, len)[b - va] == VirtToPhys(p, b);
      BytesSplit(VirtToPhys(p, va), b - va, len - (b - va));
      assert Bytes(VirtToPhys(p, va), len)[b - va] == VirtToPhys(p, va) + (b - va);
    }
  }

  /** A hugepage starts at this address. */
  predicate HugepageStart(b: nat, hps: nat)
    requires 0 < hps
  {
    b == hps * Quot(b, hps)
  }

  /** Every hugepage that starts inside the buffer follows physically on what is before it. */
  ghost predicate HugepagesFollow(p: Pool, hps: nat, va: nat, len: nat)
    requires WellFormed(p) && 0 < hps
  {
    forall b :: va < b < va + len && HugepageStart(b, hps) ==> VirtToPhys(p, b) == VirtToPhys(p, va) + (b - va)
  }

  /** The hugepage an address lies in. */
  lemma OwnHugepage(x: nat, hps: nat) returns (b: nat)
    requires 0 < hps
    ensures b <= x && HugepageStart(b, hps) && SameHugepage(b, x, hps)
    ensures forall a :: b <= a <= x ==> SameHugepage(a, x, hps)
  {
    hide Quot;
    var q := Quot(x, hps);
    b := hps * q;
    QuotIs(b, hps, q);
    forall a | b <= a <= x ensures SameHugepage(a, x, hps) {
      QuotIs(a, hps, q);
    }
  }

  lemma MappedIsBacked(p: Pool, hps: nat, va: nat, len: nat, k: nat)
    requires MappedRange(p, hps, va, len) && k < len
    ensures HugepageBacked(p, hps) && InPool(p, va) && InPool(p, va + k)
  {
  }

  /** If the hugepages follow, every byte is where the first byte's address says. */
  lemma FollowsAt(p: Pool, hps: nat, va: nat, len: nat, k: nat)
    requires MappedRange(p, hps, va, len) && HugepagesFollow(p, hps, va, len) && k < len
    ensures VirtToPhys(p, va + k) == VirtToPhys(p, va) + k
  {
    hide VirtToPhys, HugepageBacked, SameHugepage, Quot, MappedRange;
    MappedIsBacked(p, hps, va, len, k);
    var b := OwnHugepage(va + k, hps);
    if b <= va {
      PhysicallyContiguous(p, hps, va, va + k);
    } else {
      MappedIsBacked(p, hps, va, len, b - va);
      PhysicallyContiguous(p, hps, b, va + k);
      assert VirtToPhys(p, b) == VirtToPhys(p, va) + (b - va);
    }
  }

  /** Addressing a buffer of any length by its first byte alone is right exactly when all its hugepages follow. */
  lemma ContiguousIff(p: Pool, hps: nat, va: nat, len: nat)
    requires MappedRange(p, hps, va, len)
    ensures Bytes(VirtToPhys(p, va), len) == PhysBytes(p, va, len) <==> HugepagesFollow(p, hps, va, len)
  {
    hide VirtToPhys, HugepageBacked, Quot;
    MappedIsBacked(p, hps, va, len, 0);
    assert 0 < hps by { BackedSize(p, hps); }
    if HugepagesFollow(p, hps, va, len) {
      forall k | 0 <= k < len ensures Bytes(VirtToPhys(p, va), len)[k] == PhysBytes(p, va, len)[k] {
        FollowsAt(p, hps, va, len, k);
      }
    } else {
      var b :| va < b < va + len && HugepageStart(b, hps) && VirtToPhys(p, b) != VirtToPhys(p, va) + (b - va);
      assert PhysBytes(p, va, len)[b - va] == VirtToPhys(p, va + (b - va));
      assert Bytes(VirtToPhys(p, va), len)[b - va] == VirtToPhys(p, va) + (b - va);
    }
  }

  lemma BackedSize(p: Pool, hps: nat)
    requires HugepageBacked(p, hps)
    ensures 0 < hps
  {
  }

  // ---- hugepages that do not follow each other ----

  /** n pages, the first 2 MiB of them apart from the rest. */
  function SplitPool(n: nat): Pool
  {
    Pool(0, n * PAGE_SIZE, Some(seq<nat>(n, i requires 0 <= i < n => PRESENT_BIT + SplitFrame(i))))
  }

  function SplitFrame(i: nat): nat
  {
    if i < 512 then 1024 + i else 8192 + i
  }

  lemma SplitPoolBacked(n: nat)
    requires n <= 0x100_0000
    ensures HugepageBacked(SplitPool(n), 0x20_0000)
    ensures forall va :: 0 <= va < n * PAGE_SIZE ==>
      VirtToPhys(SplitPool(n), va) == va + (if va < 0x20_0000 then 1024 else 8192) * PAGE_SIZE
  {
    var p := SplitPool(n);
    forall i | 0 <= i < n ensures Present(p.pagemap.value[i]) && FrameAt(p, i) == SplitFrame(i) {
      assert p.pagemap.value[i] == PRESENT_BIT + SplitFrame(i);
    }
    assert WellFormed(p);
    forall i | 0 < i < n && SameHugepage(PageAddress(p, i - 1), PageAddress(p, i), 0x20_0000)
      ensures FrameAt(p, i) == FrameAt(p, i - 1) + 1
    {
      assert i != 512;
    }
    assert HugepageBacked(p, 0x20_0000);
    hide HugepageBacked;
    forall va | 0 <= va < n * PAGE_SIZE
      ensures VirtToPhys(p, va) == va + (if va < 0x20_0000 then 1024 else 8192) * PAGE_SIZE
    {
      VirtToPhysInPool(p, 0x20_0000, va);
      hide VirtToPhys;
      var i := PageIndex(p, va);
      assert va == i * PAGE_SIZE + va % PAGE_SIZE;
    }
  }

  /** Whether len bytes at this address need more than one list page. */
  predicate PrpOverflows(addr: nat, len: nat)
  {
    addr % PAGE_SIZE + len > (MAX_PRPS + 1) * PAGE_SIZE
  }

  /** Fill the list page with sequential pages until the transfer is covered or the page is full. */
  method FillPrpList(prpList: array<nat>, iova: nat, remaining: nat) returns (ok: bool)
    requires prpList.Length == MAX_PRPS && iova % PAGE_SIZE == 0
    modifies prpList
    ensures ok <==> remaining <= MAX_PRPS * PAGE_SIZE
    ensures ok ==> DecodeList(prpList[..], remaining) == Some(Bytes(iova, remaining))
  {
    var prpIdx, prpAddr, left := 0, iova, remaining;
    while left > 0 && prpIdx < MAX_PRPS
      invariant 0 <= prpIdx <= MAX_PRPS
      invariant prpAddr == iova + prpIdx * PAGE_SIZE
      invariant left == if remaining > prpIdx * PAGE_SIZE then remaining - prpIdx * PAGE_SIZE else 0
      invariant forall i :: 0 <= i < prpIdx ==> prpList[i] == iova + i * PAGE_SIZE
    {
      prpList[prpIdx] := prpAddr;
      prpIdx := prpIdx + 1;
      prpAddr := prpAddr + PAGE_SIZE;
      left := if left > PAGE_SIZE then left - PAGE_SIZE else 0;
    }
    ok := left == 0;
    if ok {
      DecodeSequential(prpList[..], iova, remaining);
    }
  }

  /** The page after the first part of a buffer. */
  function SecondPage(ioBuf: nat, addr: nat, len: nat): nat
  {
    var va := ioBuf + FirstPageLen(addr, len);
    va - va % PAGE_SIZE
  }

  /** Whether a second page has to be looked up and is not there. */
  predicate SecondPageMissing(p: Pool, ioBuf: nat, addr: nat, len: nat)
    requires WellFormed(p)
  {
    0 < len - FirstPageLen(addr, len) <= PAGE_SIZE && VirtToPhys(p, SecondPage(ioBuf, addr, len)) == PHYS_ERROR
  }

  /** A mapped buffer on two pages has its second page at a page start, and the bytes of both. */
  lemma PrpParts(p: Pool, hps: nat, va: nat, len: nat)
    requires MappedRange(p, hps, va, len)
    ensures var addr := VirtToPhys(p, va);
            var first := FirstPageLen(addr, len);
            && (len - first <= PAGE_SIZE ==> !SecondPageMissing(p, va, addr, len))
            && (len == first ==> PhysBytes(p, va, len) == Bytes(addr, first))
            && (0 < len - first <= PAGE_SIZE ==>
                  && VirtToPhys(p, SecondPage(va, addr, len)) % PAGE_SIZE == 0
                  && PhysBytes(p, va, len)
                     == Bytes(addr, first) + Bytes(VirtToPhys(p, SecondPage(va, addr, len)), len - first))
  {
    hide HugepageBacked, VirtToPhys, FirstPageLen, SecondPage;
    VirtToPhysInPool(p, hps, va);
    TwoPages(p, hps, va, len);
    SecondPageStart(va, VirtToPhys(p, va), len);
    var first := FirstPageLen(va, len);
    if first < len {
      VirtToPhysInPool(p, hps, va + first);
    } else {
      BytesSplit(VirtToPhys(p, va), first, 0);
      assert Bytes(VirtToPhys(p, va + first), 0) == Bytes(VirtToPhys(p, va) + first, 0);
    }
  }

  /** An address and its translation have the same offset, so the second page starts where the first part ends. */
  lemma SecondPageStart(va: nat, addr: nat, len: nat)
    requires addr % PAGE_SIZE == va % PAGE_SIZE
    ensures FirstPageLen(addr, len) == FirstPageLen(va, len) <= len
    ensures FirstPageLen(va, len) < len ==>
      (va + FirstPageLen(va, len)) % PAGE_SIZE == 0 && SecondPage(va, addr, len) == va + FirstPageLen(va, len)
  {
  }

  /**
  Build the PRP entries of a command. With an IOMMU the buffer has one contiguous address range.
  Without one, the second of two pages is looked up, and a longer transfer takes the physical
  pages to be sequential; LongPrpWithoutIommu says when they are.
  */
  method SetupPrps(pool: Pool, useIommu: bool, prpList: array<nat>, prpListIova: nat,
                   ioBuf: nat, iova0: nat, len: nat, ghost hps: nat)
    returns (ret: Option<Error>, prp1: nat, prp2: nat)
    requires prpList.Length == MAX_PRPS && WellFormed(pool)
    modifies prpList
    ensures ret.None? <==> !PrpOverflows(iova0, len) && (useIommu || !SecondPageMissing(pool, ioBuf, iova0, len))
    ensures ret.Some? ==> ret.value == EINVAL
    ensures useIommu && len <= 0x20_0000 ==> ret.None?
    ensures ret.None? && (useIommu || len - FirstPageLen(iova0, len) > PAGE_SIZE) ==>
      DecodePrp(prp1, prp2, prpListIova, prpList[..], len) == Some(Bytes(iova0, len))
    ensures !useIommu && MappedRange(pool, hps, ioBuf, len) && iova0 == VirtToPhys(pool, ioBuf)
            && len - FirstPageLen(iova0, len) <= PAGE_SIZE ==>
      ret.None? && DecodePrp(prp1, prp2, prpListIova, prpList[..], len) == Some(PhysBytes(pool, ioBuf, len))
  {
    hide HugepageBacked, VirtToPhys, DecodeList, MappedRange;
    if !useIommu && MappedRange(pool, hps, ioBuf, len) && iova0 == VirtToPhys(pool, ioBuf) {
      PrpParts(pool, hps, ioBuf, len);
    }
    ret, prp2 := None, 0;
    prp1 := iova0;
    var remaining := len;
    var firstPageLen := PAGE_SIZE - iova0 % PAGE_SIZE;
    if firstPageLen > remaining {
      firstPageLen := remaining;
    }
    remaining := remaining - firstPageLen;
    var iova := iova0 + firstPageLen;
    BytesSplit(iova0, firstPageLen, remaining);

    if remaining == 0 {
      prp2 := 0;
    } else if remaining <= PAGE_SIZE {
      if !useIommu {
        var page2 := ioBuf + firstPageLen - (ioBuf + firstPageLen) % PAGE_SIZE;
        var paddr2 := VirtToPhys(pool, page2);
        if paddr2 == PHYS_ERROR {
          return Some(EINVAL), prp1, prp2;
        }
        prp2 := paddr2;
      } else {
        prp2 := iova;
      }
    } else {
      prp2 := prpListIova;
      var ok := FillPrpList(prpList, iova, remaining);
      if !ok {
        return Some(EINVAL), prp1, prp2;
      }
    }
  }

  // ---- SGL ----

  const DESC_SIZE: nat := 16

  datatype DescType = DataBlock | LastSegment

  datatype Descriptor = Descriptor(addr: nat, length: nat, kind: DescType)

  function DecodeBlocks(ds: seq<Descriptor>): Option<seq<nat>>
  {
    if ds == [] then Some([])
    else if ds[0].kind != DataBlock then None
    else match DecodeBlocks(ds[1..])
         case None => None
         case Some(rest) => Some(Bytes(ds[0].addr, ds[0].length) + rest)
  }

  /** The bytes the descriptor embedded in the command addresses; it may point to one list. */
  function DecodeSgl(dptr: Descriptor, listAddr: nat, list: seq<Descriptor>): Option<seq<nat>>
  {
    match dptr.kind
    case DataBlock => Some(Bytes(dptr.addr, dptr.length))
    case LastSegment =>
      if dptr.addr == listAddr && dptr.length % DESC_SIZE == 0 && dptr.length / DESC_SIZE <= |list|
      then DecodeBlocks(list[..dptr.length / DESC_SIZE])
      else None
  }

  /** The 32-bit length field of a descriptor. */
  function U32(x: nat): nat
  {
    x % 0x1_0000_0000
  }

  /** The driver's test for a buffer that needs a second segment. */
  predicate NeedsTwoSegments(useIommu: bool, ioBuf: nat, len: nat, hps: nat)
    requires 0 < len
  {
    !useIommu && hps > 0 && Quot(ioBuf, hps) != Quot(ioBuf + len - 1, hps)
  }

  /** Comparing hugepage numbers finds exactly the buffers that reach past the next boundary. */
  lemma SegmentTest(ioBuf: nat, len: nat, hps: nat)
    requires 0 < len <= hps
    ensures NeedsTwoSegments(false, ioBuf, len, hps) <==> HugepageBoundary(ioBuf, hps) < ioBuf + len
  {
    AroundBoundary(ioBuf, ioBuf + len - 1, hps);
  }

  /** Build the SGL of a command: one embedded block, or a list of two split at the hugepage. */
  method SetupSgl(pool: Pool, useIommu: bool, sglList: array<Descriptor>, listIova: nat,
                  ioBuf: nat, iova: nat, len: nat, hps: nat)
    returns (ret: Option<Error>, dptr: Descriptor)
    requires sglList.Length == PAGE_SIZE / DESC_SIZE && WellFormed(pool)
    requires 0 < len <= 0x20_0000
    requires !useIommu ==> len <= hps
    modifies sglList
    ensures ret.Some? <==> NeedsTwoSegments(useIommu, ioBuf, len, hps)
                           && VirtToPhys(pool, HugepageBoundary(ioBuf, hps)) == PHYS_ERROR
    ensures ret.Some? ==> ret.value == EFAULT
    ensures useIommu ==> DecodeSgl(dptr, listIova, sglList[..]) == Some(Bytes(iova, len))
    ensures !useIommu && MappedRange(pool, hps, ioBuf, len) && iova == VirtToPhys(pool, ioBuf) ==>
      ret.None? && DecodeSgl(dptr, listIova, sglList[..]) == Some(PhysBytes(pool, ioBuf, len))
    ensures ret.None? ==> (dptr.kind.LastSegment? <==> NeedsTwoSegments(useIommu, ioBuf, len, hps))
  {
    hide HugepageBacked, VirtToPhys, HugepageBoundary, DecodeBlocks, NeedsTwoSegments, MappedRange;
    ret, dptr := None, Descriptor(0, 0, DataBlock);
    var needTwoSegments := NeedsTwoSegments(useIommu, ioBuf, len, hps);
    SglParts(pool, useIommu, ioBuf, len, hps);

    if !needTwoSegments {
      dptr := Descriptor(iova, U32(len), DataBlock);
    } else {
      var boundary := HugepageBoundary(ioBuf, hps);
      var seg1Len := boundary - ioBuf;
      var seg2Len := len - seg1Len;
      var seg2Phys := VirtToPhys(pool, boundary);
      if seg2Phys == PHYS_ERROR {
        return Some(EFAULT), dptr;
      }
      sglList[0] := Descriptor(iova, U32(seg1Len), DataBlock);
      sglList[1] := Descriptor(seg2Phys, U32(seg2Len), DataBlock);
      dptr := Descriptor(listIova, U32(2 * DESC_SIZE), LastSegment);
      DecodeTwo(sglList[..], iova, seg1Len, seg2Phys, seg2Len);
    }
  }

  /** What the segment test decides about a buffer. */
  lemma SglParts(p: Pool, useIommu: bool, va: nat, len: nat, hps: nat)
    requires WellFormed(p) && 0 < len && (!useIommu ==> len <= hps)
    ensures useIommu ==> !NeedsTwoSegments(useIommu, va, len, hps)
    ensures NeedsTwoSegments(useIommu, va, len, hps) ==> 0 < hps && HugepageBoundary(va, hps) < va + len
    ensures !useIommu && MappedRange(p, hps, va, len) ==>
      var b := HugepageBoundary(va, hps);
      if NeedsTwoSegments(useIommu, va, len, hps)
      then VirtToPhys(p, b) != PHYS_ERROR
           && PhysBytes(p, va, len) == Bytes(VirtToPhys(p, va), b - va) + Bytes(VirtToPhys(p, b), len - (b - va))
      else PhysBytes(p, va, len) == Bytes(VirtToPhys(p, va), len)
  {
    hide HugepageBacked, VirtToPhys, HugepageBoundary;
    if !useIommu {
      SegmentTest(va, len, hps);
      if MappedRange(p, hps, va, len) {
        TwoHugepages(p, hps, va, len);
        if NeedsTwoSegments(useIommu, va, len, hps) {
          VirtToPhysInPool(p, hps, HugepageBoundary(va, hps));
        }
      }
    }
  }

  lemma DecodeTwo(list: seq<Descriptor>, a: nat, m: nat, b: nat, n: nat)
    requires 2 <= |list| && list[0] == Descriptor(a, m, DataBlock) && list[1] == Descriptor(b, n, DataBlock)
    ensures DecodeBlocks(list[..2]) == Some(Bytes(a, m) + Bytes(b, n))
  {
    assert list[..2] == [list[0], list[1]];
    assert DecodeBlocks([list[1]]) == Some(Bytes(b, n) + []);
    assert [list[0], list[1]][1..] == [list[1]];
    assert Bytes(b, n) + [] == Bytes(b, n);
  }
}
