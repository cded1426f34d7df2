/** The queue in batch mode, on the buffers it keeps; every method is a step of BatchProtocol. */
module BatchQueue {
  import opened Common
  import opened Numeric
  import opened BatchLayout
  import opened BatchProtocol
  import Io = IoProtocol
  import BF = BatchFetch

  const ENOBUFS := -105

  /** Tags on their way from the driver are tags it owns, none twice; others name no request. */
  ghost predicate Arriving(owners: seq<Io.Owner>, tags: seq<nat>)
  {
    && (forall i :: 0 <= i < |tags| && tags[i] < |owners| ==> owners[tags[i]] == Io.Driver)
    && (forall i, j :: 0 <= i < j < |tags| && tags[i] < |owners| ==> tags[i] != tags[j])
  }

  /** What handling one tag of a run means; now is the result if the target finishes the request at once. */
  function Handling(tag: nat, now: Option<int>, depth: nat): seq<Event>
  {
    if tag >= depth then [] else [Deliver(tag)] + if now.Some? then [Complete(tag, now.value)] else []
  }

  function HandlingAll(tags: seq<nat>, now: seq<Option<int>>, depth: nat): seq<Event>
    requires |now| == |tags|
  {
    if tags == [] then [] else
    var k := |tags| - 1;
    HandlingAll(tags[..k], now[..k], depth) + Handling(tags[k], now[k], depth)
  }

  class Queue {
    const depth: nat
    const mode: Mode
    const addrs: seq<nat>           // the I/O buffer of each tag
    const capacity: nat             // elements in a commit buffer
    var bufs: seq<seq<Elem>>        // the two commit buffers
    var done: seq<nat>              // elements added to each
    var cur: nat
    var sq: seq<Commit>             // commit commands prepared
    var cmdInflight: int
    var stopping: bool
    var bytes: seq<nat>             // the fetch buffer
    var off: nat
    var driverAt: nat               // where the driver stores the next tag

    ghost var fetch: BF.Fetch
    ghost var s: State
    ghost var trace: seq<Event>

    /** The commit side. */
    ghost predicate Core()
      reads this`bufs, this`done, this`cur, this`sq, this`cmdInflight, this`stopping, this`s, this`trace
    {
      && |addrs| == depth == |s.owners| && depth <= capacity
      && |bufs| == |done| == 2 && |bufs[0]| == |bufs[1]| == capacity
      && cur < 2 && done[cur] <= capacity
      && Carry(bufs[cur][..done[cur]], s.current, mode, addrs)
      && |sq| <= 2 && InBuffers(bufs, sq)
      && (sq != [] ==> sq[|sq| - 1].buf == 1 - cur)
      && (|sq| == 2 ==> sq[0].buf == cur && done[cur] == 0)
      && Carry(Staged(bufs, sq), s.prepared, mode, addrs)
      && cmdInflight == s.cmdInflight && stopping == s.stopping
      && Run(depth, trace) == Some(s)
      && Inv(s)
    }

    /** The fetch side: of all tags ever stored, those handled so far reached the target once each, in order. */
    ghost predicate FetchSide()
      reads this
    {
      && bytes == fetch.bytes && off == fetch.off && driverAt == fetch.driverAt
      && BF.FetchOk(fetch, s.fetchOut)
      && fetch.taken <= |fetch.stored|
      && s.delivered == BF.InRange(fetch.stored[..fetch.taken], depth)
      && Arriving(s.owners, fetch.stored[fetch.taken..])
    }

    ghost predicate Valid()
      reads this
    {
      Core() && FetchSide()
    }

    /** Start the queue: the prep command finds every tag in the first buffer, and a fetch follows. */
    constructor (mode: Mode, addrs: seq<nat>, page: nat)
      requires |addrs| <= MAX_DEPTH && 0 < page <= 0x10000
      ensures Valid() && depth == |addrs| && this.mode == mode && this.addrs == addrs && trace == [] && sq == []
      ensures capacity == Capacity(mode, depth, page) < 0x10000 && |bytes| == RoundUp(2 * depth, page)
      ensures cmdInflight == 2 && cur == 0 && s == Init(depth)
      ensures forall i :: 0 <= i < depth ==> bufs[0][i] == Elem(i, 0, ExtraOf(mode, addrs, i))
    {
      hide RoundUp, Quot, Capacity, Run, Inv, BF.FetchOk;
      var n := Capacity(mode, |addrs|, page);
      CapacityCoversDepth(mode, |addrs|, page);
      var blank := seq(n, _ => Elem(0, 0, Nothing));
      var buf := blank;
      for i := 0 to |addrs|
        invariant |buf| == n
        invariant forall j :: 0 <= j < i ==> buf[j] == Elem(j, 0, ExtraOf(mode, addrs, j))
      {
        buf := buf[i := Elem(i, 0, ExtraOf(mode, addrs, i))];
      }
      this.depth, this.mode, this.addrs, this.capacity := |addrs|, mode, addrs, n;
      bufs, done, cur := [buf, blank], [0, 0], 0;
      sq, cmdInflight, stopping := [], 2, false;
      bytes, off, driverAt := seq(RoundUp(2 * |addrs|, page), _ => 0), 0, 0;
      fetch := BF.Fetch(seq(RoundUp(2 * |addrs|, page), _ => 0), 0, 0, [], 0, 0, [], 0);
      s, trace := Init(|addrs|), [];
      new;
      StartOfRun(depth);
      BF.NewFetch(RoundUp(2 * |addrs|, page));
      assert Carry(bufs[cur][..0], [], mode, addrs);
      assert Carry(Staged(bufs, sq), [], mode, addrs);
    }

    ghost method Record(e: Event)
      requires Run(depth, trace) == Some(s) && Inv(s) && Step(s, e).Some?
      modifies this`s, this`trace
      ensures trace == old(trace) + [e] && s == Step(old(s), e).value
      ensures Run(depth, trace) == Some(s) && Inv(s) && |s.owners| == |old(s).owners|
    {
      hide Inv, Step;
      RunExtend(depth, trace, s, e);
      StepKeepsInv(s, e);
      trace := trace + [e];
      s := Step(s, e).value;
    }

    // ---- commits ----

    /**
    The target reports a result: it goes to the next free element of the current buffer. What the driver
    is about to read stays as it was exactly when at most one commit is waiting to be submitted; with two,
    both buffers are spoken for and the new result falls into the older one.
    */
    method AddComplete(tag: nat, result: int)
      requires Core() && tag < depth && s.owners[tag] == Io.Target
      modifies this`bufs, this`done, this`s, this`trace
      ensures trace == old(trace) + [Complete(tag, result)] && s == Step(old(s), Complete(tag, result)).value
      ensures InBuffers(bufs, sq) && (Staged(bufs, sq) == old(Staged(bufs, sq)) <==> |sq| <= 1)
      ensures |sq| <= 1 ==> Core()
      ensures old(FetchSide()) ==> FetchSide()
    {
      hide Inv, Run, Carry, Staged, InBuffers, Arriving, BF.FetchOk, BF.InRange;
      var n := done[cur];
      CarryLength(bufs[cur][..n], s.current, mode, addrs);
      CompleteFits(s, depth, trace, tag, result);
      Record(Complete(tag, result));
      KeepsArriving(old(s).owners, fetch.stored[if fetch.taken <= |fetch.stored| then fetch.taken else 0..], tag,
                    Io.Finished(result));
      var elem := Elem(tag, result, ExtraOf(mode, addrs, tag));
      OneMore(bufs[cur], n, s.current[..|s.current| - 1], elem, mode, addrs);
      if |sq| == 2 {
        Overwritten(bufs, sq, old(s), elem, mode, addrs);
      } else {
        OtherBuffer(sq, cur);
        StagedUntouched(bufs, sq, cur, bufs[cur][n := elem]);
      }
      bufs := bufs[cur := bufs[cur][n := elem]];
      done := done[cur := n + 1];
    }

    /** Prepare a commit of the current buffer and turn to the other one. */
    method SubmitCommit(sqe: bool)
      requires Core()
      modifies this`sq, this`cur, this`done, this`cmdInflight, this`s, this`trace
      ensures Core() && (old(FetchSide()) ==> FetchSide())
      ensures trace == old(trace) + [BatchProtocol.SubmitCommit(sqe)]
      ensures sq == old(sq) + (if sqe && old(done[cur]) > 0 then [Commit(old(cur), old(done[cur]))] else [])
      ensures cur == (if sqe && old(done[cur]) > 0 then 1 - old(cur) else old(cur))
      ensures s == Step(old(s), BatchProtocol.SubmitCommit(sqe)).value
    {
      hide Inv, Run, Carry, Staged, InBuffers, Arriving, BF.FetchOk, BF.InRange;
      CarryLength(bufs[cur][..done[cur]], s.current, mode, addrs);
      Record(BatchProtocol.SubmitCommit(sqe));
      var nrElem := done[cur];
      if nrElem == 0 || !sqe {
        return;
      }
      StagedAppend(bufs, sq, Commit(cur, nrElem));
      CarryConcat(Staged(bufs, sq), old(s).prepared, bufs[cur][..nrElem], old(s).current, mode, addrs);
      CarryNothing(bufs[1 - cur], mode, addrs);
      sq := sq + [Commit(cur, nrElem)];
      cmdInflight := cmdInflight + 1;
      cur := 1 - cur;
      done := done[cur := 0];
    }

    /** io_uring_submit: the driver reads the elements of the prepared commits from their buffers. */
    method SubmitRing() returns (read: seq<Elem>)
      requires Valid()
      modifies this`sq, this`s, this`trace
      ensures Valid() && sq == [] && trace == old(trace) + [Submit] && s == Step(old(s), Submit).value
      ensures s.received == old(s.received) + Dones(read)
      ensures forall i :: 0 <= i < |read| ==>
                read[i].tag < depth && read[i].extra == ExtraOf(mode, addrs, read[i].tag)
    {
      hide Inv, Run, InBuffers, Arriving, BF.FetchOk, BF.InRange, TakenBack;
      read := Staged(bufs, sq);
      ReadKeepsArriving(s.owners, s.prepared, fetch.stored[fetch.taken..]);
      Record(Submit);
      NothingStaged(bufs, mode, addrs);
      sq := [];
    }

    /** The commit and the submission with which a round of the queue loop starts. */
    method StartRound(sqe: bool) returns (read: seq<Elem>)
      requires Valid()
      modifies this`sq, this`cur, this`done, this`cmdInflight, this`s, this`trace
      ensures Valid() && sq == []
      ensures sqe ==> s.received == s.finished && s.current == []
      ensures !sqe ==> s.received == old(s.received + s.prepared) && s.current == old(s.current)
    {
      hide Inv, Run, Carry, Staged, InBuffers, Arriving, BF.FetchOk, BF.InRange, TakenBack;
      SubmitCommit(sqe);
      read := SubmitRing();
      CommitsKeepOrder(depth, trace);
    }

    // ---- fetches ----

    /** The driver stores one more tag in the fetch buffer, of a request it has for this queue or of none. */
    method DriverStore(tag: nat)
      requires Valid() && s.fetchOut && BF.Running(fetch) && 2 * driverAt + 1 < |bytes|
      requires tag < depth ==> s.owners[tag] == Io.Driver && tag !in fetch.stored[fetch.taken..]
      modifies this`bytes, this`driverAt, this`fetch
      ensures Valid() && fetch.stored == old(fetch.stored) + [tag] && fetch.taken == old(fetch.taken)
      ensures BF.Running(fetch) && |bytes| == old(|bytes|)
    {
      hide Core, BF.FetchOk, BF.InRange, Arriving;
      OwnersOfQueue();
      BF.StoreTagKeeps(fetch, tag);
      var k := driverAt;
      AppendArriving(s.owners, fetch.stored[fetch.taken..], tag);
      assert (fetch.stored + [tag])[fetch.taken..] == fetch.stored[fetch.taken..] + [tag];
      assert (fetch.stored + [tag])[..fetch.taken] == fetch.stored[..fetch.taken];
      bytes := BF.PutTag(bytes, k, tag);
      driverAt := k + 1;
      fetch := BF.StoreTag(fetch, tag);
    }

    lemma FillIsCurrent()
      requires Core()
      ensures done[cur] == |s.current|
    {
      CarryLength(bufs[cur][..done[cur]], s.current, mode, addrs);
    }

    lemma StagedIsPrepared()
      requires Core()
      ensures Dones(Staged(bufs, sq)) == s.prepared && |Staged(bufs, sq)| == |s.prepared|
    {
      CarryLength(Staged(bufs, sq), s.prepared, mode, addrs);
    }

    lemma OwnersOfQueue()
      requires Core()
      ensures |s.owners| == depth
    {
    }

    /** The driver posts a CQE: for the tags stored since the last one, or for the end of the fetch. */
    ghost method DriverPost(c: BF.Cqe)
      requires Valid() && s.fetchOut && BF.Running(fetch)
      requires if c.Tags? then c.count == fetch.open else fetch.open == 0
      modifies this`fetch
      ensures Valid() && fetch == BF.PostCqe(old(fetch), c)
    {
      hide Core, BF.FetchOk, BF.InRange, Arriving;
      BF.PostCqeKeeps(fetch, c);
      fetch := BF.PostCqe(fetch, c);
    }

    /** Pass one tag to the target, which may finish it on the spot. */
    method HandleTag(tag: nat, now: Option<int>)
      requires Core() && (|sq| <= 1 || now.None?) && tag < depth && s.owners[tag] == Io.Driver && s.fetchOut
      modifies this`bufs, this`done, this`s, this`trace
      ensures Core() && trace == old(trace) + Handling(tag, now, depth)
      ensures s.fetchOut && s.delivered == old(s.delivered) + [tag]
      ensures forall t :: 0 <= t < depth && t != tag ==> s.owners[t] == old(s.owners)[t]
      ensures s.owners[tag] == if now.None? then Io.Target else Io.Finished(now.value)
      ensures s.current == old(s.current) + if now.None? then [] else [Io.Done(tag, now.value)]
    {
      hide Inv, Run, Carry, Staged, InBuffers;
      Record(Deliver(tag));
      if now.Some? {
        AddComplete(tag, now.value);
      }
      assert trace == old(trace) + Handling(tag, now, depth);
    }

    /** Two commits are not waiting while the target reports results on the spot. */
    predicate Safe(now: seq<Option<int>>)
      reads this`sq
    {
      |sq| <= 1 || forall i :: 0 <= i < |now| ==> now[i].None?
    }

    /** The tag at place k of all that were stored; it is skipped if it names no request. */
    method HandleNext(tag: nat, now: Option<int>, ghost stored: seq<nat>, ghost k: nat)
      requires Core() && (|sq| <= 1 || now.None?) && s.fetchOut && k < |stored| && tag == stored[k]
      requires s.delivered == BF.InRange(stored[..k], depth) && Arriving(s.owners, stored[k..])
      modifies this`bufs, this`done, this`s, this`trace
      ensures Core() && s.fetchOut && trace == old(trace) + Handling(tag, now, depth)
      ensures s.delivered == BF.InRange(stored[..k + 1], depth) && Arriving(s.owners, stored[k + 1..])
    {
      hide Inv, Run, Carry, Staged, InBuffers, BF.InRange, Handling, Arriving;
      BF.InRangeNext(stored, k, depth);
      NextArriving(s.owners, stored, k);
      if tag < depth {
        ghost var was := s.owners;
        HandleTag(tag, now);
        OthersArriving(was, s.owners, tag, stored[k + 1..]);
      } else {
        NoHandling(tag, now, depth);
      }
    }

    /** Every tag of the run next in line, in order. */
    method HandleTags(res: nat, now: seq<Option<int>>)
      requires Valid() && Safe(now) && s.fetchOut
      requires fetch.cqes != [] && fetch.cqes[0].Tags? && res == 2 * fetch.cqes[0].count && |now| == fetch.cqes[0].count
      modifies this`bufs, this`done, this`s, this`trace, this`off, this`fetch
      ensures Core() && FetchSide() && s.fetchOut && fetch == BF.HandleFront(old(fetch))
      ensures old(fetch.taken) <= fetch.taken <= |fetch.stored|
           && |now| == |fetch.stored[old(fetch.taken)..fetch.taken]|
      ensures trace == old(trace) + HandlingAll(fetch.stored[old(fetch.taken)..fetch.taken], now, depth)
    {
      hide Core, BF.FetchOk, BF.InRange, HandlingAll, Handling, Arriving;
      BF.HandleFrontKeeps(fetch);
      ghost var f := fetch;
      ghost var run := f.stored[f.taken..f.taken + |now|];
      var start, end := off, off + res;
      var i := start;
      var k := 0;                     // which decision of the target is next
      HandlingNone(run, now, depth);
      while i < end
        modifies this`bufs, this`done, this`s, this`trace
        invariant 0 <= k <= |now| && i == start + 2 * k
        invariant Core() && s.fetchOut && Safe(now)
        invariant s.delivered == BF.InRange(f.stored[..f.taken + k], depth)
        invariant Arriving(s.owners, f.stored[f.taken + k..])
        invariant trace == old(trace) + HandlingAll(run[..k], now[..k], depth)
      {
        BF.TagOfRun(f, k);
        HandlingNext(run, now, k, depth);
        HandleNext(bytes[i] + 256 * bytes[i + 1], now[k], f.stored, f.taken + k);
        i, k := i + 2, k + 1;
      }
      off := end;
      fetch := BF.HandleFront(f);
      assert run[..k] == run && now[..k] == now;
    }

    /** The fetch has ended; queue it again on an empty buffer if there is a submission entry. */
    method QueueFetch(sqe: bool)
      requires BF.FetchOk(fetch, false) && fetch.taken == |fetch.stored|
      requires bytes == fetch.bytes && off == fetch.off && driverAt == fetch.driverAt
      modifies this`cmdInflight, this`off, this`driverAt, this`fetch
      ensures BF.FetchOk(fetch, sqe) && bytes == fetch.bytes && off == fetch.off && driverAt == fetch.driverAt
      ensures fetch == if sqe then BF.Rearm(old(fetch)) else old(fetch)
      ensures cmdInflight == old(cmdInflight) + (if sqe then 1 else 0)
    {
      hide BF.FetchOk;
      if !sqe {
        return;
      }
      BF.RearmKeeps(fetch);
      cmdInflight := cmdInflight + 1;
      off := 0;
      driverAt := 0;
      fetch := BF.Rearm(fetch);
    }

    /** The fetch CQE next in line, if it is one with tags. */
    method HandleRun(res: nat, more: bool, sqe: bool, now: seq<Option<int>>)
      requires Valid() && Safe(now) && s.fetchOut
      requires fetch.cqes != [] && fetch.cqes[0] == BF.Tags(|now|, more) && res == 2 * |now|
      modifies this`bufs, this`done, this`cmdInflight, this`s, this`trace, this`off, this`driverAt, this`fetch
      ensures Valid() && fetch.stored == old(fetch.stored) && fetch.cqes == old(fetch.cqes)[1..]
      ensures fetch.taken == old(fetch.taken) + |now| <= |fetch.stored|
      ensures trace == old(trace) + HandlingAll(fetch.stored[old(fetch.taken)..fetch.taken], now, depth)
                       + [FetchCqe(more, sqe)]
      ensures !more && sqe ==> off == driverAt == 0
    {
      hide Core, HandlingAll, BF.FetchOk, BF.InRange, Arriving;
      BF.HandleFrontKeeps(fetch);
      HandleTags(res, now);
      EndRun(more, sqe);
    }

    /** The end of a CQE with tags: if it was the last of the fetch, queue the fetch again. */
    method EndRun(more: bool, sqe: bool)
      requires Valid() && s.fetchOut
      requires !more ==> fetch.taken == |fetch.stored| && BF.FetchOk(fetch, false)
      modifies this`cmdInflight, this`s, this`trace, this`off, this`driverAt, this`fetch
      ensures Valid() && trace == old(trace) + [FetchCqe(more, sqe)]
      ensures fetch == if !more && sqe then BF.Rearm(old(fetch)) else old(fetch)
    {
      hide Inv, Run, Carry, Staged, InBuffers, BF.FetchOk, BF.InRange, Arriving;
      Record(FetchCqe(more, sqe));
      if !more {
        cmdInflight := cmdInflight - 1;
        QueueFetch(sqe);
      }
    }

    /** The fetch CQE next in line, if it has no tags: the buffer was full, or the command failed. */
    method HandleFetchError(res: int, sqe: bool)
      requires Valid() && s.fetchOut && res < 0
      requires fetch.cqes != [] && fetch.cqes[0] == if res == ENOBUFS then BF.NoBuffer else BF.Failed
      modifies this`cmdInflight, this`stopping, this`s, this`trace, this`off, this`driverAt, this`fetch
      ensures Valid() && fetch.stored == old(fetch.stored) && fetch.cqes == old(fetch.cqes)[1..]
      ensures fetch.taken == old(fetch.taken) == |fetch.stored|
      ensures trace == old(trace) + [if res == ENOBUFS then FetchNoBuffer(sqe) else FetchFailed]
      ensures stopping == (old(stopping) || res != ENOBUFS)
      ensures res == ENOBUFS && sqe ==> off == driverAt == 0
    {
      hide Inv, Run, Carry, Staged, InBuffers, BF.FetchOk, BF.InRange, Arriving;
      BF.HandleFrontKeeps(fetch);
      fetch := BF.HandleFront(fetch);
      if res != ENOBUFS {
        Record(FetchFailed);
        cmdInflight := cmdInflight - 1;
        stopping := true;
      } else {
        Record(FetchNoBuffer(sqe));
        cmdInflight := cmdInflight - 1;
        QueueFetch(sqe);
      }
    }

    /** The one CQE of a prep or a commit command. */
    method HandleCommitCqe(prep: bool)
      requires Valid() && (if prep then s.prepOut else s.commitsOut > 0)
      modifies this`cmdInflight, this`s, this`trace
      ensures Valid() && trace == old(trace) + [if prep then PrepCqe else CommitCqe]
    {
      hide Inv, Run, Carry, Staged, InBuffers, BF.FetchOk, BF.InRange, Arriving;
      Record(if prep then PrepCqe else CommitCqe);
      cmdInflight := cmdInflight - 1;
    }

    /** others is the number of the target's entries on the submission ring. */
    method QueueIsDone(others: nat) returns (isDone: bool)
      requires Valid()
      ensures isDone <==> stopping && |sq| + others == 0 && cmdInflight == 0
      ensures isDone ==> IsDone(s) && !s.prepOut && !s.fetchOut && s.commitsOut == 0
      ensures isDone ==> s.delivered == BF.InRange(fetch.stored, depth)
    {
      isDone := stopping && |sq| + others == 0 && cmdInflight == 0;
      if isDone {
        DoneMeansNothingOutstanding(depth, trace);
        assert fetch.stored[..fetch.taken] == fetch.stored;
      }
    }
  }

  /** Three requests with the target, of which it has finished one. */
  method OneResultOfThree() returns (q: Queue)
    ensures fresh(q) && q.Core() && q.depth == 3 == |q.s.owners| && q.sq == []
    ensures q.s.owners[1] == q.s.owners[2] == Io.Target && |q.s.current| == 1
  {
    hide Inv, Run, Carry, Staged, InBuffers, Capacity, RoundUp, Arriving, BF.FetchOk, BF.InRange;
    q := new Queue(Mode(false, false, false), [0, 0, 0], 4096);
    q.HandleTag(1, None);
    q.HandleTag(2, None);
    q.HandleTag(0, Some(512));
  }

  /** A commit is prepared and not submitted, and the target finishes the second. */
  method OneCommitWaiting() returns (q: Queue)
    ensures fresh(q) && q.Core() && q.depth == 3 == |q.s.owners| && |q.sq| == 1
    ensures q.s.owners[2] == Io.Target && |q.s.current| == 1
  {
    q := OneResultOfThree();
    hide Inv, Run, Carry, Staged, InBuffers, Arriving, BF.FetchOk, BF.InRange;
    q.FillIsCurrent();
    q.SubmitCommit(true);
    q.AddComplete(1, 512);
  }

  /** With two commits waiting, the third result changes what the driver is about to read. */
  method TwoCommitsWaiting() returns (q: Queue, ghost before: seq<Elem>)
    ensures InBuffers(q.bufs, q.sq) && |q.sq| == 2 && Staged(q.bufs, q.sq) != before
    ensures Dones(before) == q.s.prepared
  {
    q := OneCommitWaiting();
    hide Inv, Run, Carry, Staged, InBuffers, Arriving, BF.FetchOk, BF.InRange;
    q.FillIsCurrent();
    q.SubmitCommit(true);
    before := Staged(q.bufs, q.sq);
    q.StagedIsPrepared();
    q.AddComplete(2, 512);
  }

  lemma CarryNothing(buf: seq<Elem>, m: Mode, addrs: seq<nat>)
    ensures Carry(buf[..0], [], m, addrs)
  {
  }

  lemma NothingStaged(bufs: seq<seq<Elem>>, m: Mode, addrs: seq<nat>)
    ensures InBuffers(bufs, []) && Carry(Staged(bufs, []), [], m, addrs)
  {
  }

  /** What the driver owns it still owns after reading results. */
  lemma {:induction false} ReadKeepsDriver(owners: seq<Io.Owner>, ds: seq<Io.Done>, t: nat)
    requires t < |owners| && owners[t] == Io.Driver
    ensures TakenBack(owners, ds)[t] == Io.Driver
  {
    if ds != [] {
      ReadKeepsDriver(owners, ds[..|ds| - 1], t);
    }
  }

  lemma ReadKeepsArriving(owners: seq<Io.Owner>, ds: seq<Io.Done>, tags: seq<nat>)
    requires Arriving(owners, tags)
    ensures Arriving(TakenBack(owners, ds), tags)
  {
    hide TakenBack;
    forall i | 0 <= i < |tags| && tags[i] < |owners| ensures TakenBack(owners, ds)[tags[i]] == Io.Driver {
      ReadKeepsDriver(owners, ds, tags[i]);
    }
  }

  lemma NextArriving(owners: seq<Io.Owner>, stored: seq<nat>, k: nat)
    requires k < |stored| && Arriving(owners, stored[k..])
    ensures Arriving(owners, stored[k + 1..])
    ensures stored[k] < |owners| ==> owners[stored[k]] == Io.Driver && stored[k] !in stored[k + 1..]
  {
    var tags := stored[k..];
    assert tags[0] == stored[k] && stored[k + 1..] == tags[1..];
  }

  lemma AppendArriving(owners: seq<Io.Owner>, tags: seq<nat>, tag: nat)
    requires Arriving(owners, tags) && (tag < |owners| ==> owners[tag] == Io.Driver && tag !in tags)
    ensures Arriving(owners, tags + [tag])
  {
  }

  lemma OthersArriving(was: seq<Io.Owner>, owners: seq<Io.Owner>, tag: nat, tags: seq<nat>)
    requires Arriving(was, tags) && |was| == |owners| && tag !in tags
    requires forall t :: 0 <= t < |owners| && t != tag ==> owners[t] == was[t]
    ensures Arriving(owners, tags)
  {
  }

  lemma HandlingNone(tags: seq<nat>, now: seq<Option<int>>, depth: nat)
    ensures HandlingAll(tags[..0], now[..0], depth) == []
  {
  }

  lemma HandlingNext(tags: seq<nat>, now: seq<Option<int>>, k: nat, depth: nat)
    requires k < |tags| == |now|
    ensures HandlingAll(tags[..k + 1], now[..k + 1], depth)
         == HandlingAll(tags[..k], now[..k], depth) + Handling(tags[k], now[k], depth)
  {
    assert tags[..k + 1][..k] == tags[..k] && now[..k + 1][..k] == now[..k];
  }

  lemma NoHandling(tag: nat, now: Option<int>, depth: nat)
    requires tag >= depth
    ensures Handling(tag, now, depth) == []
  {
  }

  /** There is room for one more result. */
  lemma CompleteFits(s: State, depth: nat, trace: seq<Event>, tag: nat, result: int)
    requires Run(depth, trace) == Some(s) && tag < |s.owners| == depth && s.owners[tag] == Io.Target
    ensures |s.current| < depth
  {
    RunExtend(depth, trace, s, Complete(tag, result));
    BuffersNeverOverrun(depth, trace + [Complete(tag, result)]);
  }

  lemma OneMore(buf: seq<Elem>, n: nat, was: seq<Io.Done>, e: Elem, m: Mode, addrs: seq<nat>)
    requires n < |buf| && Carry(buf[..n], was, m, addrs)
    requires e.tag < |addrs| && e.extra == ExtraOf(m, addrs, e.tag)
    ensures Carry(buf[n := e][..n + 1], was + [Io.Done(e.tag, e.result)], m, addrs)
  {
    assert Carry([e], [Io.Done(e.tag, e.result)], m, addrs);
    CarryConcat(buf[..n], was, [e], [Io.Done(e.tag, e.result)], m, addrs);
    assert buf[n := e][..n + 1] == buf[..n] + [e];
  }

  /** With two commits waiting, the new element takes the place of the first result the driver would read. */
  lemma Overwritten(bufs: seq<seq<Elem>>, sq: seq<Commit>, s: State, e: Elem, m: Mode, addrs: seq<nat>)
    requires InBuffers(bufs, sq) && |sq| == 2 && sq[0].buf != sq[1].buf
    requires Carry(Staged(bufs, sq), s.prepared, m, addrs) && Inv(s)
    requires e.tag < |s.owners| && s.owners[e.tag] == Io.Target
    ensures |bufs[sq[0].buf]| > 0
    ensures var bufs' := bufs[sq[0].buf := bufs[sq[0].buf][0 := e]];
            InBuffers(bufs', sq) && Staged(bufs', sq) != Staged(bufs, sq)
  {
    hide Staged, InBuffers;
    StagedTouched(bufs, sq, e);
    CarryLength(Staged(bufs, sq), s.prepared, m, addrs);
    assert Waiting(s)[0] == s.prepared[0];
  }

  lemma OtherBuffer(sq: seq<Commit>, cur: nat)
    requires |sq| <= 1 && cur < 2 && (sq != [] ==> sq[|sq| - 1].buf == 1 - cur)
    ensures forall i :: 0 <= i < |sq| ==> sq[i].buf != cur
  {
  }

  /** A tag the driver does not own is not on its way. */
  lemma KeepsArriving(owners: seq<Io.Owner>, tags: seq<nat>, t: nat, o: Io.Owner)
    requires t < |owners| && owners[t] != Io.Driver
    ensures Arriving(owners, tags) ==> Arriving(owners[t := o], tags)
  {
  }

  lemma StartOfRun(depth: nat)
    ensures Run(depth, []) == Some(Init(depth)) && Inv(Init(depth))
  {
    InitInv(depth);
  }
}
