/**
The layout of the DMA pool: one region for submission and completion rings handed out by a bump
allocator, then one PRP page and one I/O buffer for every queue and tag, then the identify page.
*/
module NvmePool {
  import opened Common
  import opened Numeric
  import opened DmaBuf
  import opened NvmeDataPointer

  const ADMIN_Q_SIZE: nat := 64
  const SQE_SIZE: nat := 64
  const CQE_SIZE: nat := 16
  const FIRST_IOVA: nat := 0x1_0000_0000
  const INT_MAX: nat := 0x7fff_ffff

  /** mqes is the largest number of entries a queue of the controller may have. */
  datatype Config = Config(nrQueues: nat, depth: nat, ioBufSize: nat, hps: nat, mqes: nat)

  predicate PowerOfTwo(x: nat)
  {
    x == 1 || (x > 1 && x % 2 == 0 && PowerOfTwo(x / 2))
  }

  /** The configurations the target accepts. */
  predicate Accepted(c: Config)
  {
    && 1 <= c.nrQueues <= 64
    && 1 <= c.depth <= 4096
    && PAGE_SIZE <= c.ioBufSize <= 0x20_0000 && c.ioBufSize <= c.hps && PowerOfTwo(c.ioBufSize)
    && c.depth <= c.mqes
  }

  predicate Aligned(x: nat)
  {
    x % PAGE_SIZE == 0
  }

  function PageAlign(size: nat): (a: nat)
    ensures Aligned(a) && size <= a < size + PAGE_SIZE
  {
    (size + PAGE_SIZE - 1) / PAGE_SIZE * PAGE_SIZE
  }

  function SqSize(entries: nat): (n: nat)
    ensures Aligned(n)
  {
    PageAlign(entries * SQE_SIZE)
  }

  function CqSize(entries: nat): (n: nat)
    ensures Aligned(n)
  {
    PageAlign(entries * CQE_SIZE)
  }

  function AdminSize(): nat { SqSize(ADMIN_Q_SIZE) + CqSize(ADMIN_Q_SIZE) }

  function PairSize(c: Config): nat { SqSize(c.depth + 1) + CqSize(c.depth + 1) }

  function QueueRegion(c: Config): nat { AdminSize() + c.nrQueues * PairSize(c) }

  function PrpRegion(c: Config): nat { c.nrQueues * c.depth * PAGE_SIZE }

  function IoBufRegion(c: Config): nat { c.nrQueues * c.depth * c.ioBufSize }

  function IdentifyOffset(c: Config): nat { QueueRegion(c) + PrpRegion(c) + IoBufRegion(c) }

  /** Everything the pool is carved into. */
  datatype Block =
    | AdminSq
    | AdminCq
    | IoSq(qid: nat)
    | IoCq(qid: nat)
    | PrpPage(qid: nat, tag: nat)
    | IoBuf(qid: nat, tag: nat)
    | Identify

  predicate Exists(c: Config, b: Block)
  {
    match b
    case AdminSq | AdminCq | Identify => true
    case IoSq(q) => q < c.nrQueues
    case IoCq(q) => q < c.nrQueues
    case PrpPage(q, t) => q < c.nrQueues && t < c.depth
    case IoBuf(q, t) => q < c.nrQueues && t < c.depth
  }

  /** The number of a tag counted over all queues. */
  function TagIndex(c: Config, qid: nat, tag: nat): nat
  {
    qid * c.depth + tag
  }

  function Offset(c: Config, b: Block): nat
  {
    match b
    case AdminSq => 0
    case AdminCq => SqSize(ADMIN_Q_SIZE)
    case IoSq(q) => AdminSize() + q * PairSize(c)
    case IoCq(q) => AdminSize() + q * PairSize(c) + SqSize(c.depth + 1)
    case PrpPage(q, t) => QueueRegion(c) + TagIndex(c, q, t) * PAGE_SIZE
    case IoBuf(q, t) => QueueRegion(c) + PrpRegion(c) + TagIndex(c, q, t) * c.ioBufSize
    case Identify => IdentifyOffset(c)
  }

  function Size(c: Config, b: Block): nat
  {
    match b
    case AdminSq => SqSize(ADMIN_Q_SIZE)
    case AdminCq => CqSize(ADMIN_Q_SIZE)
    case IoSq(_) => SqSize(c.depth + 1)
    case IoCq(_) => CqSize(c.depth + 1)
    case PrpPage(_, _) => PAGE_SIZE
    case IoBuf(_, _) => c.ioBufSize
    case Identify => PAGE_SIZE
  }

  /** The i-th of n equal parts ends before the j-th starts and inside the whole. */
  lemma Parts(i: nat, j: nat, n: nat, k: nat)
    requires i < j <= n
    ensures i * k + k <= j * k <= n * k
  {
    assert (i + 1) * k == i * k + k;
    MulMonotone(i + 1, j, k);
    MulMonotone(j, n, k);
  }

  lemma MulMonotone(i: nat, j: nat, k: nat)
    requires i <= j
    ensures i * k <= j * k
  {
    assert j * k == i * k + (j - i) * k;
  }

  /** Tag numbers are below the total and never shared. */
  lemma TagIndexBounds(c: Config, q: nat, t: nat)
    requires q < c.nrQueues && t < c.depth
    ensures TagIndex(c, q, t) < c.nrQueues * c.depth
  {
    Parts(q, c.nrQueues, c.nrQueues, c.depth);
  }

  lemma TagIndexOrdered(c: Config, q: nat, t: nat, q': nat, t': nat)
    requires t < c.depth && t' < c.depth && (q < q' || (q == q' && t < t'))
    ensures TagIndex(c, q, t) < TagIndex(c, q', t')
  {
    if q < q' {
      Parts(q, q', q', c.depth);
    }
  }

  /** The region of a block, in address order. */
  function Region(b: Block): (r: nat)
    ensures r < 5
  {
    match b
    case AdminSq | AdminCq => 0
    case IoSq(_) => 1
    case IoCq(_) => 1
    case PrpPage(_, _) => 2
    case IoBuf(_, _) => 3
    case Identify => 4
  }

  /** Where region r starts, which is where region r - 1 ends. */
  function RegionStart(c: Config, r: nat): nat
  {
    match r
    case 0 => 0
    case 1 => AdminSize()
    case 2 => QueueRegion(c)
    case 3 => QueueRegion(c) + PrpRegion(c)
    case 4 => IdentifyOffset(c)
    case _ => TotalSize(c)
  }

  lemma InRegion(c: Config, b: Block)
    requires Exists(c, b)
    ensures RegionStart(c, Region(b)) <= Offset(c, b)
    ensures Offset(c, b) + Size(c, b) <= RegionStart(c, Region(b) + 1)
  {
    hide SqSize, CqSize, Aligned;
    match b
    case IoSq(q) => Parts(q, c.nrQueues, c.nrQueues, PairSize(c));
    case IoCq(q) => Parts(q, c.nrQueues, c.nrQueues, PairSize(c));
    case PrpPage(q, t) => TagPart(c, q, t, PAGE_SIZE);
    case IoBuf(q, t) => TagPart(c, q, t, c.ioBufSize);
    case _ =>
  }

  /** The piece of a tag, when every tag of every queue has one of the same size. */
  lemma TagPart(c: Config, q: nat, t: nat, size: nat)
    requires q < c.nrQueues && t < c.depth
    ensures TagIndex(c, q, t) * size + size <= c.nrQueues * c.depth * size
  {
    TagIndexBounds(c, q, t);
    hide TagIndex;
    Parts(TagIndex(c, q, t), c.nrQueues * c.depth, c.nrQueues * c.depth, size);
  }

  lemma RegionsOrdered(c: Config, r: nat, r': nat)
    requires r <= r' <= 5
    ensures RegionStart(c, r) <= RegionStart(c, r')
  {
    hide SqSize, CqSize, PairSize, AdminSize, PrpRegion, IoBufRegion;
  }

  ghost predicate Disjoint(c: Config, a: Block, b: Block)
  {
    Offset(c, a) + Size(c, a) <= Offset(c, b) || Offset(c, b) + Size(c, b) <= Offset(c, a)
  }

  /** The total the pool is created with, before rounding to hugepages. */
  function TotalSize(c: Config): nat
  {
    IdentifyOffset(c) + PAGE_SIZE
  }

  lemma TagBlocksDisjoint(c: Config, q: nat, t: nat, q': nat, t': nat)
    requires t < c.depth && t' < c.depth && (q < q' || (q == q' && t < t'))
    ensures Disjoint(c, PrpPage(q, t), PrpPage(q', t')) && Disjoint(c, IoBuf(q, t), IoBuf(q', t'))
  {
    TagIndexOrdered(c, q, t, q', t');
    var i, j := TagIndex(c, q, t), TagIndex(c, q', t');
    Parts(i, j, j, PAGE_SIZE);
    Parts(i, j, j, c.ioBufSize);
  }

  /** Any two blocks of the pool are disjoint, and all lie inside it. */
  lemma BlocksDisjoint(c: Config, a: Block, b: Block)
    requires Exists(c, a) && Exists(c, b) && a != b
    ensures Disjoint(c, a, b)
    ensures Offset(c, a) + Size(c, a) <= TotalSize(c)
  {
    InRegion(c, a);
    InRegion(c, b);
    RegionsOrdered(c, Region(a) + 1, 5);
    if Region(a) == Region(b) {
      SameRegionDisjoint(c, a, b);
    } else if Region(a) < Region(b) {
      RegionsOrdered(c, Region(a) + 1, Region(b));
    } else {
      RegionsOrdered(c, Region(b) + 1, Region(a));
    }
  }

  lemma SameRegionDisjoint(c: Config, a: Block, b: Block)
    requires Exists(c, a) && Exists(c, b) && a != b && Region(a) == Region(b)
    ensures Disjoint(c, a, b)
  {
    hide Offset, Size;
    match a
    case AdminSq => AdminDisjoint(c);
    case AdminCq => AdminDisjoint(c);
    case IoSq(q) => RingDisjoint(c, q, b);
    case IoCq(q) => RingDisjoint(c, q, b);
    case PrpPage(q, t) =>
      if q < b.qid || (q == b.qid && t < b.tag) { TagBlocksDisjoint(c, q, t, b.qid, b.tag); }
      else { TagBlocksDisjoint(c, b.qid, b.tag, q, t); }
    case IoBuf(q, t) =>
      if q < b.qid || (q == b.qid && t < b.tag) { TagBlocksDisjoint(c, q, t, b.qid, b.tag); }
      else { TagBlocksDisjoint(c, b.qid, b.tag, q, t); }
    case Identify =>
  }

  /** The rings of queue q against a ring b. */
  lemma RingDisjoint(c: Config, q: nat, b: Block)
    requires q < c.nrQueues && Exists(c, b) && (b.IoSq? || b.IoCq?)
    ensures b != IoSq(q) ==> Disjoint(c, IoSq(q), b)
    ensures b != IoCq(q) ==> Disjoint(c, IoCq(q), b)
  {
    hide SqSize, CqSize;
    if q < b.qid {
      Parts(q, b.qid, b.qid, PairSize(c));
    } else if b.qid < q {
      Parts(b.qid, q, q, PairSize(c));
    }
  }

  lemma AdminDisjoint(c: Config)
    ensures Disjoint(c, AdminSq, AdminCq)
  {
  }

  lemma {:induction false} PowerOfTwoAligned(x: nat, k: nat)
    requires PowerOfTwo(x) && PowerOfTwo(k) && k <= x
    ensures x % k == 0
  {
    if k > 1 {
      PowerOfTwoAligned(x / 2, k / 2);
      var h, g := x / 2, k / 2;
      var d := h / g;
      assert h == g * d;
      assert x == k * d;
      assert x == d * k;
      QuotIs(x, k, d);
      assert x % k == x - k * (x / k);
    }
  }

  lemma AlignedConstants()
    ensures Aligned(0) && Aligned(PAGE_SIZE)
  {
  }

  lemma AlignedSum(x: nat, y: nat)
    requires Aligned(x) && Aligned(y)
    ensures Aligned(x + y)
  {
  }

  lemma AlignedMultiple(i: nat, k: nat)
    requires Aligned(k)
    ensures Aligned(i * k)
  {
    var m := k / PAGE_SIZE;
    assert i * k == PAGE_SIZE * (i * m);
  }

  lemma AlignedAt(start: nat, i: nat, k: nat)
    requires Aligned(start) && Aligned(k)
    ensures Aligned(start + i * k)
  {
    hide Aligned;
    AlignedMultiple(i, k);
    AlignedSum(start, i * k);
  }

  lemma RegionsAligned(c: Config)
    requires Accepted(c)
    ensures Aligned(AdminSize()) && Aligned(PairSize(c)) && Aligned(QueueRegion(c))
    ensures Aligned(PrpRegion(c)) && Aligned(c.ioBufSize) && Aligned(IoBufRegion(c))
  {
    hide Aligned, SqSize, CqSize, PowerOfTwo;
    IoBufAligned(c);
    AlignedConstants();
    AlignedSum(SqSize(ADMIN_Q_SIZE), CqSize(ADMIN_Q_SIZE));
    AlignedSum(SqSize(c.depth + 1), CqSize(c.depth + 1));
    hide AdminSize, PairSize;
    AlignedAt(AdminSize(), c.nrQueues, PairSize(c));
    AlignedMultiple(c.nrQueues * c.depth, PAGE_SIZE);
    AlignedMultiple(c.nrQueues * c.depth, c.ioBufSize);
  }

  /** Every block starts on a page, so ring and list addresses are page addresses. */
  lemma BlocksPageAligned(c: Config, b: Block)
    requires Accepted(c) && Exists(c, b)
    ensures Aligned(Offset(c, b))
  {
    hide PowerOfTwo, Aligned, SqSize, CqSize, AdminSize, PairSize, QueueRegion, PrpRegion, IoBufRegion, TagIndex;
    RegionsAligned(c);
    AlignedConstants();
    AlignedSum(QueueRegion(c), PrpRegion(c));
    match b
    case IoSq(q) => AlignedAt(AdminSize(), q, PairSize(c));
    case IoCq(q) =>
      AlignedAt(AdminSize(), q, PairSize(c));
      AlignedSum(AdminSize() + q * PairSize(c), SqSize(c.depth + 1));
    case PrpPage(q, t) => AlignedAt(QueueRegion(c), TagIndex(c, q, t), PAGE_SIZE);
    case IoBuf(q, t) => AlignedAt(QueueRegion(c) + PrpRegion(c), TagIndex(c, q, t), c.ioBufSize);
    case Identify => AlignedSum(QueueRegion(c) + PrpRegion(c), IoBufRegion(c));
    case _ =>
  }

  lemma IoBufAligned(c: Config)
    requires Accepted(c)
    ensures Aligned(c.ioBufSize)
  {
    assert PowerOfTwo(8) && PowerOfTwo(64) && PowerOfTwo(512) && PowerOfTwo(PAGE_SIZE);
    PowerOfTwoAligned(c.ioBufSize, PAGE_SIZE);
  }

  /** The products computed in 32-bit int arithmetic stay below its maximum. */
  lemma IntProductsFit(c: Config, q: nat, t: nat)
    requires Accepted(c) && q < c.nrQueues && t < c.depth
    ensures (c.depth + 1) * SQE_SIZE + PAGE_SIZE <= INT_MAX
    ensures TagIndex(c, q, t) * PAGE_SIZE < c.nrQueues * c.depth * PAGE_SIZE <= INT_MAX
  {
    TagIndexBounds(c, q, t);
    MulMonotone(c.nrQueues, 64, c.depth);
    assert c.nrQueues * c.depth <= 64 * 4096;
  }

  /** The controller refuses to create a queue of more entries than it supports. */
  predicate ControllerAccepts(c: Config, entries: nat)
  {
    entries <= c.mqes
  }

  /**
  The address a device uses without an IOMMU, 0 if there is none. The lookup is that of the first byte
  only.
  */
  function PhysIova(pool: Pool, off: nat): nat
    requires WellFormed(pool)
  {
    var phys := VirtToPhys(pool, pool.base + off);
    if phys == PHYS_ERROR then 0 else phys
  }

  /** A range of I/O virtual addresses that has been mapped. */
  datatype Mapping = Mapping(iova: nat, size: nat)

  /** The allocation state of the target: how much of the ring region and of the IOVA space is taken. */
  class Allocator {
    const c: Config
    const useIommu: bool
    const pool: Pool
    var queueAllocOff: nat
    var nextIova: nat
    ghost var mappings: seq<Mapping>    // IOVA ranges handed out, in order

    ghost predicate IovaValid()
      reads this
    {
      && WellFormed(pool)
      && FIRST_IOVA <= nextIova && Aligned(nextIova)
      && (forall i :: 0 <= i < |mappings| ==> Aligned(mappings[i].iova) && FIRST_IOVA <= mappings[i].iova)
      && (forall i :: 0 <= i < |mappings| ==> mappings[i].iova + mappings[i].size <= nextIova)
      && (forall i, j :: 0 <= i < j < |mappings| ==> mappings[i].iova + mappings[i].size <= mappings[j].iova)
    }

    constructor (c: Config, useIommu: bool, pool: Pool)
      requires WellFormed(pool)
      ensures this.c == c && this.useIommu == useIommu && this.pool == pool
      ensures IovaValid() && queueAllocOff == 0 && mappings == []
    {
      this.c, this.useIommu, this.pool := c, useIommu, pool;
      queueAllocOff := 0;
      nextIova := FIRST_IOVA;
      mappings := [];
    }

    /** Take an aligned piece of the ring region, or fail when it is exhausted. */
    method AllocQueueBuf(size: nat) returns (off: Option<nat>)
      modifies this`queueAllocOff
      ensures off.None? <==> old(queueAllocOff) + PageAlign(size) > QueueRegion(c)
      ensures off.Some? ==> off.value == old(queueAllocOff) && queueAllocOff == old(queueAllocOff) + PageAlign(size)
      ensures off.None? ==> queueAllocOff == old(queueAllocOff)
    {
      var alignedSize := PageAlign(size);
      if queueAllocOff + alignedSize > QueueRegion(c) {
        return None;
      }
      off := Some(queueAllocOff);
      queueAllocOff := queueAllocOff + alignedSize;
    }

    /**
    The device address of a piece of the pool: a fresh IOVA range, disjoint from every range handed out
    before, or without an IOMMU the physical address.
    */
    method GetIova(off: nat, size: nat) returns (iova: nat)
      requires IovaValid()
      modifies this`nextIova, this`mappings
      ensures IovaValid()
      ensures useIommu ==> mappings == old(mappings) + [Mapping(iova, size)] && iova >= FIRST_IOVA
      ensures !useIommu ==> mappings == old(mappings) && iova == PhysIova(pool, off)
    {
      if !useIommu {
        var phys := VirtToPhys(pool, pool.base + off);
        return if phys == PHYS_ERROR then 0 else phys;
      }
      AlignedSum(nextIova, PageAlign(size));
      hide Aligned, PageAlign;
      iova := nextIova;
      nextIova := nextIova + PageAlign(size);
      mappings := mappings + [Mapping(iova, size)];
    }

    /** A piece at this offset gets a device address. */
    predicate Mappable(off: nat)
      requires WellFormed(pool)
    {
      useIommu || PhysIova(pool, off) != 0
    }

    /** Allocate and map the two rings of one queue pair. */
    method QueueInit(entries: nat) returns (ok: bool, sq: nat, cq: nat)
      requires IovaValid()
      modifies this`queueAllocOff, this`nextIova, this`mappings
      ensures IovaValid() && old(mappings) <= mappings
      ensures ok <==> && old(queueAllocOff) + SqSize(entries) + CqSize(entries) <= QueueRegion(c)
                      && Mappable(old(queueAllocOff)) && Mappable(old(queueAllocOff) + SqSize(entries))
      ensures ok ==> && sq == old(queueAllocOff) && cq == old(queueAllocOff) + SqSize(entries)
                     && queueAllocOff == old(queueAllocOff) + SqSize(entries) + CqSize(entries)
                     && |mappings| == |old(mappings)| + (if useIommu then 2 else 0)
    {
      hide Aligned, PageAlign, PhysIova, SqSize, CqSize, QueueRegion;
      ok, sq, cq := false, 0, 0;
      var sqSize, cqSize := PageAlign(entries * SQE_SIZE), PageAlign(entries * CQE_SIZE);
      RingBytes(entries);
      var sqOff := AllocQueueBuf(sqSize);
      if sqOff.None? {
        return;
      }
      var cqOff := AllocQueueBuf(cqSize);
      if cqOff.None? {
        return;
      }
      sq, cq := sqOff.value, cqOff.value;
      var sqIova := GetIova(sq, sqSize);
      var cqIova := GetIova(cq, cqSize);
      ok := sqIova != 0 && cqIova != 0;
    }

    lemma PoolOk()
      requires IovaValid()
      ensures WellFormed(pool)
    {
    }

    /** Every ring of the layout gets a device address. */
    ghost predicate RingsMappable()
      requires WellFormed(pool)
    {
      && Mappable(Offset(c, AdminSq)) && Mappable(Offset(c, AdminCq))
      && forall q :: 0 <= q < c.nrQueues ==> Mappable(Offset(c, IoSq(q))) && Mappable(Offset(c, IoCq(q)))
    }

    /**
    Create the admin queue pair and every I/O queue pair. The region is neither exhausted nor wasted:
    each ring gets exactly the block the layout reserves for it, and nothing is left. But the rings have
    one entry more than the depth that was accepted, so with addresses for all of them this succeeds
    exactly when the depth is less than the controller's maximum.
    */
    method CreateQueues() returns (ok: bool, sqs: seq<nat>, cqs: seq<nat>)
      requires Accepted(c) && queueAllocOff == 0 && mappings == [] && IovaValid()
      modifies this`queueAllocOff, this`nextIova, this`mappings
      ensures ok <==> RingsMappable() && c.depth < c.mqes
      ensures ok ==> |sqs| == |cqs| == c.nrQueues && queueAllocOff == QueueRegion(c)
      ensures ok ==> forall q :: 0 <= q < c.nrQueues ==> sqs[q] == Offset(c, IoSq(q)) && cqs[q] == Offset(c, IoCq(q))
      ensures IovaValid() && (ok && useIommu ==> |mappings| == 2 * (c.nrQueues + 1))
    {
      PoolOk();
      hide SqSize, CqSize, Aligned, PhysIova, Offset, QueueRegion, IovaValid, WellFormed, Mappable, AdminSize;
      AdminSpace(c);
      sqs, cqs := [], [];
      var sq, cq;
      ok, sq, cq := QueueInit(ADMIN_Q_SIZE);
      if !ok {
        return;
      }
      for i := 0 to c.nrQueues
        invariant ok && |sqs| == |cqs| == i && (i > 0 ==> c.depth < c.mqes)
        invariant queueAllocOff == AdminSize() + i * PairSize(c)
        invariant forall q :: 0 <= q < i ==> sqs[q] == Offset(c, IoSq(q)) && cqs[q] == Offset(c, IoCq(q))
        invariant forall q :: 0 <= q < i ==> Mappable(Offset(c, IoSq(q))) && Mappable(Offset(c, IoCq(q)))
        invariant IovaValid() && (useIommu ==> |mappings| == 2 * (i + 1))
      {
        PairSpace(c, i);
        ok, sq, cq := CreateIoQueue(c.depth + 1);
        if !ok {
          return;
        }
        sqs, cqs := sqs + [sq], cqs + [cq];
      }
    }

    /** One I/O pair: the rings, then the two commands that tell the controller about them, of the same size. */
    method CreateIoQueue(entries: nat) returns (ok: bool, sq: nat, cq: nat)
      requires IovaValid()
      modifies this`queueAllocOff, this`nextIova, this`mappings
      ensures IovaValid() && old(mappings) <= mappings
      ensures ok <==> && old(queueAllocOff) + SqSize(entries) + CqSize(entries) <= QueueRegion(c)
                      && Mappable(old(queueAllocOff)) && Mappable(old(queueAllocOff) + SqSize(entries))
                      && ControllerAccepts(c, entries)
      ensures ok ==> && sq == old(queueAllocOff) && cq == old(queueAllocOff) + SqSize(entries)
                     && queueAllocOff == old(queueAllocOff) + SqSize(entries) + CqSize(entries)
                     && |mappings| == |old(mappings)| + (if useIommu then 2 else 0)
    {
      ok, sq, cq := QueueInit(entries);
      if !ok {
        return;
      }
      ok := ControllerAccepts(c, entries);
    }
  }

  /** The largest depth that passes the checks is refused by the controller. */
  lemma DepthAtMaximumRefused()
    ensures var c := Config(1, 64, 4096, 0x20_0000, 64); Accepted(c) && !ControllerAccepts(c, c.depth + 1)
  {
    PowersOfTwo();
  }

  lemma PowersOfTwo()
    ensures PowerOfTwo(4096) && PowerOfTwo(0x20_0000)
  {
    assert PowerOfTwo(64) by { assert PowerOfTwo(8); }
    assert PowerOfTwo(512) by { assert PowerOfTwo(64); }
    assert PowerOfTwo(0x8000) by { assert PowerOfTwo(4096); }
    assert PowerOfTwo(0x4_0000) by { assert PowerOfTwo(0x8000); }
    assert PowerOfTwo(0x20_0000) by { assert PowerOfTwo(0x4_0000); }
  }

  /** Rounding a ring's size again, as the allocator does, changes nothing. */
  lemma RingBytes(entries: nat)
    ensures PageAlign(PageAlign(entries * SQE_SIZE)) == SqSize(entries)
    ensures PageAlign(PageAlign(entries * CQE_SIZE)) == CqSize(entries)
  {
    AlignedTwice(entries * SQE_SIZE);
    AlignedTwice(entries * CQE_SIZE);
  }

  lemma AdminSpace(c: Config)
    ensures AdminSize() == SqSize(ADMIN_Q_SIZE) + CqSize(ADMIN_Q_SIZE) <= QueueRegion(c)
    ensures QueueRegion(c) == AdminSize() + c.nrQueues * PairSize(c)
    ensures Offset(c, AdminSq) == 0 && Offset(c, AdminCq) == SqSize(ADMIN_Q_SIZE)
  {
    RegionsOrdered(c, 1, 2);
  }

  /** Where the rings of queue i are, and that the region has room for them. */
  lemma PairSpace(c: Config, i: nat)
    requires i < c.nrQueues
    ensures var at := AdminSize() + i * PairSize(c);
            && Offset(c, IoSq(i)) == at && Offset(c, IoCq(i)) == at + SqSize(c.depth + 1)
            && at + SqSize(c.depth + 1) + CqSize(c.depth + 1) == AdminSize() + (i + 1) * PairSize(c) <= QueueRegion(c)
  {
    hide SqSize, CqSize, Aligned;
    Parts(i, c.nrQueues, c.nrQueues, PairSize(c));
    assert (i + 1) * PairSize(c) == i * PairSize(c) + PairSize(c);
  }

  /** In a hugepage-backed pool that does not use page frame 0, every piece has a device address. */
  lemma BackedPoolMaps(pool: Pool, hps: nat, off: nat)
    requires HugepageBacked(pool, hps) && off < pool.size
    requires forall i :: 0 <= i < |pool.pagemap.value| ==> FrameAt(pool, i) > 0
    ensures PhysIova(pool, off) != 0
  {
    hide VirtToPhys;
    VirtToPhysInPool(pool, hps, pool.base + off);
  }

  // ---- without an IOMMU ----

  /**
  A ring is given to the controller as one contiguous piece. Without an IOMMU it is one exactly when every
  hugepage that starts inside it follows physically on what is before.
  */
  lemma RingContiguousWithoutIommu(c: Config, pool: Pool, b: Block)
    requires Exists(c, b) && (b.IoSq? || b.IoCq?)
    requires MappedRange(pool, c.hps, pool.base + Offset(c, b), Size(c, b))
    ensures var va := pool.base + Offset(c, b);
            Bytes(PhysIova(pool, Offset(c, b)), Size(c, b)) == PhysBytes(pool, va, Size(c, b))
            <==> HugepagesFollow(pool, c.hps, va, Size(c, b))
  {
    hide VirtToPhys, HugepageBacked, Offset, Size, HugepagesFollow;
    var va := pool.base + Offset(c, b);
    MappedIsBacked(pool, c.hps, va, Size(c, b), 0);
    VirtToPhysInPool(pool, c.hps, va);
    ContiguousIff(pool, c.hps, va, Size(c, b));
  }

  /** Seven queues of the largest accepted depth, with 2 MiB hugepages and the smallest buffers. */
  const DEEP := Config(7, 4096, 4096, 0x20_0000, 4097)
  /** The pool they get, in whole hugepages. */
  const DEEP_PAGES: nat := 58368

  lemma DeepLayout()
    ensures Accepted(DEEP) && Exists(DEEP, IoSq(6))
    ensures Offset(DEEP, IoSq(6)) == 2023424 && Size(DEEP, IoSq(6)) == 266240
    ensures TotalSize(DEEP) <= DEEP_PAGES * PAGE_SIZE < TotalSize(DEEP) + 0x20_0000
  {
    hide SqSize, CqSize, PageAlign, PowerOfTwo;
    PowersOfTwo();
    SomeRingSizes();
    assert PairSize(DEEP) == 335872 && AdminSize() == 8192;
  }

  lemma SomeRingSizes()
    ensures SqSize(4097) == 266240 && CqSize(4097) == 69632
    ensures SqSize(64) == 4096 && CqSize(64) == 4096 && SqSize(2) == 4096 && CqSize(2) == 4096
  {
  }

  /** A submission ring lies across a boundary, and from there on its address is wrong. */
  lemma RingAcrossHugepages()
    ensures var p := SplitPool(DEEP_PAGES);
            && Accepted(DEEP) && HugepageBacked(p, DEEP.hps) && Size(DEEP, IoSq(6)) > 73728
            && Bytes(PhysIova(p, Offset(DEEP, IoSq(6))), Size(DEEP, IoSq(6)))[73728] == 1536 * PAGE_SIZE
            && PhysBytes(p, Offset(DEEP, IoSq(6)), Size(DEEP, IoSq(6)))[73728] == 8704 * PAGE_SIZE
  {
    DeepLayout();
    SplitPoolBacked(DEEP_PAGES);
    hide VirtToPhys, HugepageBacked, Offset, Size, SplitPool, Accepted;
    SplitPoolSize(DEEP_PAGES);
    SplitAt(DEEP_PAGES, 2023424);
    SplitAt(DEEP_PAGES, 2023424 + 73728);
  }

  /** One queue of depth 1 with buffers of 2 MiB. */
  const SINGLE := Config(1, 1, 0x20_0000, 0x20_0000, 2)

  lemma SingleLayout()
    ensures Accepted(SINGLE) && Offset(SINGLE, IoBuf(0, 0)) == 20480 && Size(SINGLE, IoBuf(0, 0)) == 0x20_0000
    ensures TotalSize(SINGLE) <= 1024 * PAGE_SIZE < TotalSize(SINGLE) + 0x20_0000
  {
    hide SqSize, CqSize, PageAlign, PowerOfTwo;
    PowersOfTwo();
    SomeRingSizes();
  }

  lemma SinglePool()
    ensures var p := SplitPool(1024);
            && MappedRange(p, 0x20_0000, 20480, 0x20_0000) && HugepageBacked(p, 0x20_0000) && WellFormed(p)
            && VirtToPhys(p, 20480) == 1024 * PAGE_SIZE + 20480
            && VirtToPhys(p, 0x20_0000) == 8704 * PAGE_SIZE
  {
    SplitPoolBacked(1024);
    hide VirtToPhys, HugepageBacked, SplitPool;
    SplitPoolSize(1024);
    SplitAt(1024, 20480);
    SplitAt(1024, 0x20_0000);
  }

  /** The PRP entries of a full buffer are built without an error and address wrong bytes from the boundary on. */
  method PrpsAcrossHugepages(prpList: array<nat>, prpListIova: nat)
    returns (ret: Option<Error>, prp1: nat, prp2: nat)
    requires prpList.Length == MAX_PRPS
    modifies prpList
    ensures Accepted(SINGLE) && HugepageBacked(SplitPool(1024), SINGLE.hps) && ret.None?
    ensures var bs := DecodePrp(prp1, prp2, prpListIova, prpList[..], 0x20_0000);
            bs.Some? && |bs.value| == 0x20_0000 && bs.value[0x20_0000 - 20480] == 1536 * PAGE_SIZE
    ensures PhysBytes(SplitPool(1024), Offset(SINGLE, IoBuf(0, 0)), 0x20_0000)[0x20_0000 - 20480] == 8704 * PAGE_SIZE
  {
    hide VirtToPhys, HugepageBacked, Offset, Size, SplitPool, Accepted, DecodePrp, MappedRange, WellFormed;
    SingleLayout();
    SinglePool();
    ret, prp1, prp2 :=
      SetupPrps(SplitPool(1024), false, prpList, prpListIova, 20480, 1024 * PAGE_SIZE + 20480, 0x20_0000, 0x20_0000);
  }

  lemma SplitPoolSize(n: nat)
    ensures SplitPool(n).base == 0 && SplitPool(n).size == n * PAGE_SIZE && WellFormed(SplitPool(n))
  {
  }

  /** One address of the pool. */
  lemma SplitAt(n: nat, va: nat)
    requires n <= 0x100_0000 && va < n * PAGE_SIZE
    ensures WellFormed(SplitPool(n))
    ensures VirtToPhys(SplitPool(n), va) == va + (if va < 0x20_0000 then 1024 else 8192) * PAGE_SIZE
    ensures VirtToPhys(SplitPool(n), va) != PHYS_ERROR
  {
    SplitPoolBacked(n);
    hide VirtToPhys, SplitPool;
  }

  lemma AlignedTwice(size: nat)
    ensures PageAlign(PageAlign(size)) == PageAlign(size)
  {
  }
}
