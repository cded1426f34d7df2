/**
The buffer behind the multishot fetch. The driver fills it with two-byte tags, one run of bytes for
each CQE, each run starting where the one before it ended; the queue keeps its own offset and is told
only the length of each run. Here are the buffer, the CQEs on their way, and the history of every tag
the driver has ever stored, over all the times the buffer was given to it.
*/
module BatchFetch {

  /** The k-th tag of the buffer, low byte first. */
  function TagAt(bytes: seq<nat>, k: nat): nat
    requires 2 * k + 1 < |bytes|
  {
    bytes[2 * k] + 256 * bytes[2 * k + 1]
  }

  /** The buffer with a tag stored at place k. */
  function PutTag(bytes: seq<nat>, k: nat, tag: nat): seq<nat>
    requires 2 * k + 1 < |bytes|
  {
    bytes[2 * k := tag % 256][2 * k + 1 := tag / 256]
  }

  /** A stored tag is read back, and every other place reads as before. */
  lemma PutThenRead(bytes: seq<nat>, k: nat, tag: nat, j: nat)
    requires 2 * k + 1 < |bytes| && 2 * j + 1 < |bytes|
    ensures TagAt(PutTag(bytes, k, tag), j) == if j == k then tag else TagAt(bytes, j)
  {
  }

  /** The tags that name a request of this queue, in order. */
  function InRange(tags: seq<nat>, depth: nat): seq<nat>
  {
    if tags == [] then [] else
    var last := tags[|tags| - 1];
    InRange(tags[..|tags| - 1], depth) + (if last < depth then [last] else [])
  }

  lemma InRangeNext(tags: seq<nat>, k: nat, depth: nat)
    requires k < |tags|
    ensures InRange(tags[..k + 1], depth) == InRange(tags[..k], depth) + (if tags[k] < depth then [tags[k]] else [])
  {
    assert tags[..k + 1][..k] == tags[..k];
  }

  /** A CQE of the fetch: a run of tags, perhaps the last one, or the end of the fetch. */
  datatype Cqe = Tags(count: nat, more: bool) | NoBuffer | Failed

  predicate Ends(c: Cqe)
  {
    !(c.Tags? && c.more)
  }

  /** The tags announced by CQEs that are still to be handled. */
  function Announced(cqes: seq<Cqe>): nat
  {
    if cqes == [] then 0 else (if cqes[0].Tags? then cqes[0].count else 0) + Announced(cqes[1..])
  }

  datatype Fetch = Fetch(
    bytes: seq<nat>,
    off: nat,               // fetch_buf_off, in bytes
    driverAt: nat,          // where the driver stores the next tag
    stored: seq<nat>,       // every tag the driver ever stored
    base: nat,              // how many of them before it was last given the buffer
    taken: nat,             // how many have been handled
    cqes: seq<Cqe>,         // posted and not handled
    open: nat)              // stored since the last CQE

  /** The driver may go on: its last CQE did not end the fetch. */
  predicate Running(f: Fetch)
  {
    f.cqes == [] || !Ends(f.cqes[|f.cqes| - 1])
  }

  /**
  The runs tile the buffer from its start, and what is in it is what the driver stored. Nothing follows
  the CQE that ends the fetch.
  */
  ghost predicate FetchOk(f: Fetch, armed: bool)
  {
    && f.base <= f.taken <= |f.stored|
    && f.off == 2 * (f.taken - f.base) && f.driverAt == |f.stored| - f.base && 2 * f.driverAt <= |f.bytes|
    && (forall k :: 0 <= k < f.driverAt ==> TagAt(f.bytes, k) == f.stored[f.base + k])
    && f.taken + Announced(f.cqes) + f.open == |f.stored|
    && (forall i :: 0 <= i < |f.cqes| - 1 ==> !Ends(f.cqes[i]))
    && (!Running(f) ==> f.open == 0)
    && (!armed ==> f.cqes == [] && f.open == 0)
  }

  lemma NewFetch(size: nat)
    ensures FetchOk(Fetch(seq(size, _ => 0), 0, 0, [], 0, 0, [], 0), true)
  {
  }

  function StoreTag(f: Fetch, tag: nat): Fetch
    requires 2 * f.driverAt + 1 < |f.bytes|
  {
    f.(bytes := PutTag(f.bytes, f.driverAt, tag), driverAt := f.driverAt + 1, stored := f.stored + [tag],
       open := f.open + 1)
  }

  lemma StoreTagKeeps(f: Fetch, tag: nat)
    requires FetchOk(f, true) && Running(f) && 2 * f.driverAt + 1 < |f.bytes|
    ensures FetchOk(StoreTag(f, tag), true)
  {
    var f' := StoreTag(f, tag);
    forall k | 0 <= k < f'.driverAt ensures TagAt(f'.bytes, k) == f'.stored[f'.base + k] {
      PutThenRead(f.bytes, f.driverAt, tag, k);
    }
  }

  /** Post a CQE; one with tags announces all that were stored since the one before it. */
  function PostCqe(f: Fetch, c: Cqe): Fetch
  {
    f.(cqes := f.cqes + [c], open := if c.Tags? then 0 else f.open)
  }

  lemma {:induction false} AnnouncedAppend(cqes: seq<Cqe>, c: Cqe)
    ensures Announced(cqes + [c]) == Announced(cqes) + (if c.Tags? then c.count else 0)
  {
    if cqes == [] {
      assert [] + [c] == [c];
    } else {
      assert (cqes + [c])[1..] == cqes[1..] + [c];
      AnnouncedAppend(cqes[1..], c);
    }
  }

  lemma PostCqeKeeps(f: Fetch, c: Cqe)
    requires FetchOk(f, true) && Running(f) && (if c.Tags? then c.count == f.open else f.open == 0)
    ensures FetchOk(PostCqe(f, c), true)
  {
    AnnouncedAppend(f.cqes, c);
  }

  /** The tags of the CQE next in line. */
  function Front(f: Fetch): nat
  {
    if f.cqes != [] && f.cqes[0].Tags? then f.cqes[0].count else 0
  }

  /** The CQE next in line has been handled. */
  function HandleFront(f: Fetch): Fetch
    requires f.cqes != []
  {
    f.(off := f.off + 2 * Front(f), taken := f.taken + Front(f), cqes := f.cqes[1..])
  }

  /** The run is in the buffer where the offset says, and a CQE that ends the fetch leaves nothing behind. */
  lemma HandleFrontKeeps(f: Fetch)
    requires FetchOk(f, true) && f.cqes != []
    ensures FetchOk(HandleFront(f), true)
    ensures f.taken + Front(f) <= |f.stored| && f.off + 2 * Front(f) <= |f.bytes|
    ensures Ends(f.cqes[0]) ==> HandleFront(f).taken == |f.stored| && FetchOk(HandleFront(f), false)
  {
    var f' := HandleFront(f);
    assert forall i :: 0 <= i < |f'.cqes| ==> f'.cqes[i] == f.cqes[i + 1];
    if Ends(f.cqes[0]) {
      assert |f.cqes| == 1;
    }
  }

  lemma TagOfRun(f: Fetch, k: nat)
    requires FetchOk(f, true) && f.cqes != [] && k < Front(f)
    ensures f.off + 2 * k + 1 < |f.bytes| && f.taken + k < |f.stored|
    ensures f.bytes[f.off + 2 * k] + 256 * f.bytes[f.off + 2 * k + 1] == f.stored[f.taken + k]
  {
    HandleFrontKeeps(f);
    assert TagAt(f.bytes, f.taken - f.base + k) == f.stored[f.taken + k];
  }

  /** Give the buffer to the driver again. */
  function Rearm(f: Fetch): Fetch
  {
    f.(off := 0, driverAt := 0, base := |f.stored|)
  }

  lemma RearmKeeps(f: Fetch)
    requires FetchOk(f, false) && f.taken == |f.stored|
    ensures FetchOk(Rearm(f), true)
  {
  }
}
