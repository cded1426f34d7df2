/** The elements of the commit buffers in batch mode, and how the buffers are sized. */
module BatchLayout {
  import opened Numeric
  import Io = IoProtocol

  /** How data reaches the target, as far as batch elements depend on it. */
  datatype Mode = Mode(zeroCopy: bool, userCopy: bool, autoZc: bool)

  const MAX_DEPTH := 4096
  const HEADER_BYTES := 8
  const ADDR_BYTES := 8

  predicate UseBuf(m: Mode)
  {
    !(m.userCopy || m.zeroCopy)
  }

  function ElemBytes(m: Mode): nat
  {
    if m.zeroCopy || m.userCopy || m.autoZc then 8 else 16
  }

  /** What follows the tag and the result in an element. */
  datatype Extra = Nothing | Index(index: nat) | Addr(addr: nat)

  function ExtraOf(m: Mode, addrs: seq<nat>, tag: nat): Extra
    requires tag < |addrs|
  {
    if m.autoZc then Index(tag) else if UseBuf(m) then Addr(addrs[tag]) else Nothing
  }

  /** The bytes an element takes as the code stores it: the index lies inside the header. */
  function StoredBytes(e: Extra): nat
  {
    HEADER_BYTES + if e.Addr? then ADDR_BYTES else 0
  }

  /** The bytes an element takes as the command's flags announce it to the driver. */
  function AnnouncedBytes(m: Mode): nat
  {
    HEADER_BYTES + if UseBuf(m) then ADDR_BYTES else 0
  }

  /** Storing an element fills its own bytes and no other, in every mode. */
  lemma ElementFitsItsBytes(m: Mode, addrs: seq<nat>, tag: nat)
    requires tag < |addrs|
    ensures StoredBytes(ExtraOf(m, addrs, tag)) == ElemBytes(m)
  {
  }

  /** The flags announce the size used, except with automatic buffer registration on its own. */
  lemma AnnouncedSizeAgrees(m: Mode)
    ensures AnnouncedBytes(m) == ElemBytes(m) <==> !(m.autoZc && !m.zeroCopy && !m.userCopy)
  {
  }

  /** The least multiple of page not below x. */
  function RoundUp(x: nat, page: nat): (r: nat)
    requires 0 < page
    ensures x <= r < x + page && exists k :: r == Pages(k, page)
  {
    Pages(Quot(x + page - 1, page), page)
  }

  function Pages(n: nat, page: nat): nat
  {
    page * n
  }

  function Capacity(m: Mode, depth: nat, page: nat): nat
    requires 0 < page
  {
    Quot(RoundUp(ElemBytes(m) * depth, page), ElemBytes(m))
  }

  /** Each commit buffer has room for a result of every tag, and the counts fit their 16-bit fields. */
  lemma CapacityCoversDepth(m: Mode, depth: nat, page: nat)
    requires 0 < page <= 0x10000 && depth <= MAX_DEPTH
    ensures depth <= Capacity(m, depth, page) < 0x10000
    ensures depth <= Quot(RoundUp(2 * depth, page), 2) < 0x10000
  {
    hide Quot, RoundUp;
    var b := ElemBytes(m);
    assert b == 8 || b == 16;
  }

  /** An element: the result of a tag, and what the driver needs for the tag's next request. */
  datatype Elem = Elem(tag: nat, result: int, extra: Extra)

  function Dones(es: seq<Elem>): seq<Io.Done>
  {
    seq(|es|, i requires 0 <= i < |es| => Io.Done(es[i].tag, es[i].result))
  }

  /** These elements carry these results, each with what its tag needs. */
  ghost predicate Carry(es: seq<Elem>, ds: seq<Io.Done>, m: Mode, addrs: seq<nat>)
  {
    && Dones(es) == ds
    && forall i :: 0 <= i < |es| ==> es[i].tag < |addrs| && es[i].extra == ExtraOf(m, addrs, es[i].tag)
  }

  lemma CarryConcat(es: seq<Elem>, ds: seq<Io.Done>, fs: seq<Elem>, gs: seq<Io.Done>, m: Mode, addrs: seq<nat>)
    requires Carry(es, ds, m, addrs) && Carry(fs, gs, m, addrs)
    ensures Carry(es + fs, ds + gs, m, addrs)
  {
    assert Dones(es + fs) == Dones(es) + Dones(fs);
  }

  lemma CarryLength(es: seq<Elem>, ds: seq<Io.Done>, m: Mode, addrs: seq<nat>)
    requires Carry(es, ds, m, addrs)
    ensures |es| == |ds| && forall i :: 0 <= i < |es| ==> es[i].tag == ds[i].tag && es[i].result == ds[i].result
  {
  }

  // ---- two buffers ----

  /** A commit command not yet submitted: which buffer, and how many elements of it. */
  datatype Commit = Commit(buf: nat, nrElem: nat)

  predicate InBuffers(bufs: seq<seq<Elem>>, sq: seq<Commit>)
  {
    forall i :: 0 <= i < |sq| ==> sq[i].buf < |bufs| && 0 < sq[i].nrElem <= |bufs[sq[i].buf]|
  }

  /** What the driver will read when the commands are submitted. */
  function Staged(bufs: seq<seq<Elem>>, sq: seq<Commit>): seq<Elem>
    requires InBuffers(bufs, sq)
  {
    if sq == [] then [] else
    var last := sq[|sq| - 1];
    Staged(bufs, sq[..|sq| - 1]) + bufs[last.buf][..last.nrElem]
  }

  lemma StagedAppend(bufs: seq<seq<Elem>>, sq: seq<Commit>, c: Commit)
    requires InBuffers(bufs, sq) && c.buf < |bufs| && 0 < c.nrElem <= |bufs[c.buf]|
    ensures InBuffers(bufs, sq + [c]) && Staged(bufs, sq + [c]) == Staged(bufs, sq) + bufs[c.buf][..c.nrElem]
  {
    assert (sq + [c])[..|sq|] == sq;
  }

  /** A change of a buffer no command names is not seen by the driver. */
  lemma {:induction false} StagedUntouched(bufs: seq<seq<Elem>>, sq: seq<Commit>, b: nat, buf: seq<Elem>)
    requires InBuffers(bufs, sq) && b < |bufs| && |buf| == |bufs[b]|
    requires forall i :: 0 <= i < |sq| ==> sq[i].buf != b
    ensures InBuffers(bufs[b := buf], sq) && Staged(bufs[b := buf], sq) == Staged(bufs, sq)
  {
    if sq != [] {
      StagedUntouched(bufs, sq[..|sq| - 1], b, buf);
    }
  }

  /** A change of the first element of the first command's buffer is. */
  lemma StagedTouched(bufs: seq<seq<Elem>>, sq: seq<Commit>, e: Elem)
    requires InBuffers(bufs, sq) && |sq| == 2 && sq[0].buf != sq[1].buf
    ensures |bufs[sq[0].buf]| > 0
    ensures var bufs' := bufs[sq[0].buf := bufs[sq[0].buf][0 := e]];
            && InBuffers(bufs', sq) && Staged(bufs, sq) != [] && Staged(bufs', sq) != []
            && Staged(bufs, sq)[0] == bufs[sq[0].buf][0] && Staged(bufs', sq)[0] == e
  {
    assert sq[..1][..0] == [];
    var bufs' := bufs[sq[0].buf := bufs[sq[0].buf][0 := e]];
    assert Staged(bufs, sq[..1]) == bufs[sq[0].buf][..sq[0].nrElem];
    assert Staged(bufs', sq[..1]) == bufs'[sq[0].buf][..sq[0].nrElem];
  }
}
