/**
An NVMe submission/completion queue pair as an abstract protocol between the driver and the
controller. Nothing here wraps around: the state holds whole histories and absolute counts. The
ring buffers, doorbells and phase bits of the driver are in NvmeQueuePair, which refines this.

The controller fetches commands in order, completes a fetched command once, in any order, and is
never told by the driver how far its submission ring may be overwritten.
*/
module NvmeProtocol {
  import opened Common
  import opened Numeric

  /** At most this many commands are written before the doorbell is rung. */
  const DOORBELL_BATCH := 32

  /** A command carries the ublk tag as its command identifier; the rest of it is opaque here. */
  datatype Command = Command(cid: nat, body: nat)

  datatype Completion = Completion(cid: nat, code: nat)

  datatype State = State(
    depth: nat,
    submitted: seq<Command>,    // written to the submission ring, oldest first
    announced: nat,             // how many of them the doorbell has announced
    fetched: nat,               // how many of them the controller has read
    executing: multiset<nat>,   // identifiers of commands fetched and not completed
    posted: seq<Completion>,    // written to the completion ring, oldest first
    consumed: nat)              // how many of them the driver has handled

  datatype Event =
    | Submit(cmd: Command)
    | Flush
    | Fetch
    | Post(cpl: Completion)
    | Consume

  function CommandIds(cs: seq<Command>): (ids: seq<nat>)
  {
    seq(|cs|, i requires 0 <= i < |cs| => cs[i].cid)
  }

  function CompletionIds(cs: seq<Completion>): (ids: seq<nat>)
  {
    seq(|cs|, i requires 0 <= i < |cs| => cs[i].cid)
  }

  ghost predicate Ordered(s: State)
  {
    s.fetched <= s.announced <= |s.submitted| && s.consumed <= |s.posted|
  }

  /** The identifiers a new command must not use: every command not yet handled to the end. */
  ghost function Busy(s: State): (b: multiset<nat>)
    requires Ordered(s)
  {
    multiset(CommandIds(s.submitted[s.fetched..])) + s.executing
    + multiset(CompletionIds(s.posted[s.consumed..]))
  }

  /** Both rings have one slot more than there are tags. */
  function RingSize(s: State): (size: nat)
    ensures 0 < size
  {
    s.depth + 1
  }

  /** Commands written and not announced. */
  function Pending(s: State): int
  {
    |s.submitted| - s.announced
  }

  /** The doorbell is rung when a batch is full or when one more command would fill the ring. */
  predicate MustFlush(pending: int, depth: nat)
  {
    pending >= DOORBELL_BATCH || pending == depth
  }

  function Init(depth: nat): State
  {
    State(depth, [], 0, 0, multiset{}, [], 0)
  }

  function AfterSubmit(s: State, cmd: Command): State
  {
    var s1 := s.(submitted := s.submitted + [cmd]);
    if MustFlush(Pending(s1), s.depth) then s1.(announced := |s1.submitted|) else s1
  }

  function AfterFetch(s: State): State
    requires s.fetched < |s.submitted|
  {
    s.(fetched := s.fetched + 1, executing := s.executing + multiset{s.submitted[s.fetched].cid})
  }

  function AfterPost(s: State, cpl: Completion): State
  {
    s.(executing := s.executing - multiset{cpl.cid}, posted := s.posted + [cpl])
  }

  /** What each side may do. The guard of Submit is what the ublk driver promises about a tag. */
  ghost function Step(s: State, e: Event): (r: Option<State>)
  {
    if !Ordered(s) then None else
    match e
    case Submit(cmd) =>
      if cmd.cid < s.depth && cmd.cid !in Busy(s) then Some(AfterSubmit(s, cmd)) else None
    case Flush =>
      Some(s.(announced := |s.submitted|))
    case Fetch =>
      if s.fetched < s.announced then Some(AfterFetch(s)) else None
    case Post(cpl) =>
      if cpl.cid in s.executing then Some(AfterPost(s, cpl)) else None
    case Consume =>
      if s.consumed < |s.posted| then Some(s.(consumed := s.consumed + 1)) else None
  }

  /** The state after a whole run, if every event of it was enabled. */
  ghost function Run(depth: nat, es: seq<Event>): (r: Option<State>)
  {
    if es == [] then Some(Init(depth)) else
    match Run(depth, es[..|es| - 1])
    case None => None
    case Some(s) => Step(s, es[|es| - 1])
  }

  ghost predicate Inv(s: State)
  {
    && 1 <= s.depth
    && Ordered(s)
    && multiset(CommandIds(s.submitted[..s.fetched])) == s.executing + multiset(CompletionIds(s.posted))
    && DistinctBelow(Busy(s), s.depth)
    && Pending(s) <= DOORBELL_BATCH - 1
    && Pending(s) <= s.depth - 1
  }

  lemma SubmitKeepsInv(s: State, cmd: Command)
    requires Inv(s) && cmd.cid < s.depth && cmd.cid !in Busy(s)
    ensures Step(s, Submit(cmd)) == Some(AfterSubmit(s, cmd))
    ensures Inv(AfterSubmit(s, cmd))
    ensures Busy(AfterSubmit(s, cmd)) == Busy(s) + multiset{cmd.cid}
  {
    var s' := AfterSubmit(s, cmd);
    assert s'.submitted[..s.fetched] == s.submitted[..s.fetched];
    assert CommandIds(s'.submitted[s.fetched..]) == CommandIds(s.submitted[s.fetched..]) + [cmd.cid];
    assert Busy(s') == Busy(s) + multiset{cmd.cid};
  }

  lemma FetchKeepsInv(s: State)
    requires Inv(s) && s.fetched < s.announced
    ensures Step(s, Fetch) == Some(AfterFetch(s))
    ensures Inv(AfterFetch(s)) && Busy(AfterFetch(s)) == Busy(s)
  {
    hide DistinctBelow;
    var cid := s.submitted[s.fetched].cid;
    assert CommandIds(s.submitted[s.fetched..]) == [cid] + CommandIds(s.submitted[s.fetched + 1..]);
    assert CommandIds(s.submitted[..s.fetched + 1]) == CommandIds(s.submitted[..s.fetched]) + [cid];
    assert Busy(AfterFetch(s)) == Busy(s);
  }

  lemma PostKeepsInv(s: State, cpl: Completion)
    requires Inv(s) && cpl.cid in s.executing
    ensures Step(s, Post(cpl)) == Some(AfterPost(s, cpl))
    ensures Inv(AfterPost(s, cpl)) && Busy(AfterPost(s, cpl)) == Busy(s)
  {
    hide DistinctBelow;
    var s' := AfterPost(s, cpl);
    assert CompletionIds(s'.posted) == CompletionIds(s.posted) + [cpl.cid];
    assert CompletionIds(s'.posted[s.consumed..]) == CompletionIds(s.posted[s.consumed..]) + [cpl.cid];
    assert s.executing == s'.executing + multiset{cpl.cid};
    assert Busy(s') == Busy(s);
  }

  lemma ConsumeKeepsInv(s: State)
    requires Inv(s) && s.consumed < |s.posted|
    ensures Step(s, Consume) == Some(s.(consumed := s.consumed + 1))
    ensures Inv(s.(consumed := s.consumed + 1))
    ensures Busy(s) == Busy(s.(consumed := s.consumed + 1)) + multiset{s.posted[s.consumed].cid}
  {
    hide DistinctBelow;
    var cid := s.posted[s.consumed].cid;
    assert CompletionIds(s.posted[s.consumed..]) == [cid] + CompletionIds(s.posted[s.consumed + 1..]);
    assert Busy(s) == Busy(s.(consumed := s.consumed + 1)) + multiset{cid};
    DistinctBelowPart(Busy(s.(consumed := s.consumed + 1)), multiset{cid}, s.depth);
  }

  lemma FlushKeepsInv(s: State)
    requires Inv(s)
    ensures Step(s, Flush) == Some(s.(announced := |s.submitted|))
    ensures Inv(s.(announced := |s.submitted|))
  {
    assert Busy(s.(announced := |s.submitted|)) == Busy(s);
  }

  lemma StepKeepsInv(s: State, e: Event)
    requires Inv(s) && Step(s, e).Some?
    ensures Inv(Step(s, e).value) && Step(s, e).value.depth == s.depth
  {
    match e
    case Submit(cmd) => SubmitKeepsInv(s, cmd);
    case Flush => FlushKeepsInv(s);
    case Fetch => FetchKeepsInv(s);
    case Post(cpl) => PostKeepsInv(s, cpl);
    case Consume => ConsumeKeepsInv(s);
  }

  /** The driver never leaves a full batch, or a full ring, unannounced. */
  lemma PendingBound(s: State)
    requires Inv(s)
    ensures 0 <= Pending(s) <= DOORBELL_BATCH - 1 && Pending(s) <= s.depth - 1
  {
  }

  lemma InitInv(depth: nat)
    requires 1 <= depth
    ensures Inv(Init(depth))
  {
    assert Busy(Init(depth)) == multiset{};
  }

  /** The invariant holds after every run of driver and controller. */
  lemma {:induction false} RunKeepsInv(depth: nat, es: seq<Event>)
    requires 1 <= depth && Run(depth, es).Some?
    ensures Inv(Run(depth, es).value) && Run(depth, es).value.depth == depth
  {
    hide Inv, Step;
    if es == [] {
      InitInv(depth);
    } else {
      RunKeepsInv(depth, es[..|es| - 1]);
      StepKeepsInv(Run(depth, es[..|es| - 1]).value, es[|es| - 1]);
    }
  }

  /** The number of commands not handled to the end, counted from either end of the pipeline. */
  lemma OutstandingCount(s: State)
    requires Inv(s)
    ensures |Busy(s)| == |s.submitted| - s.consumed <= s.depth
  {
    assert |multiset(CommandIds(s.submitted[..s.fetched]))| == s.fetched;
    Pigeonhole(Busy(s), s.depth);
  }

  /** Whatever the driver has handled, the controller has fetched. */
  lemma FetchedCoversConsumed(s: State)
    requires Inv(s)
    ensures s.consumed <= |s.posted| <= s.fetched <= |s.submitted|
  {
    assert |multiset(CommandIds(s.submitted[..s.fetched]))| == s.fetched;
  }

  /** With a free tag to submit, the ring of depth + 1 slots has room for one more command. */
  lemma RoomForSubmit(s: State, cmd: Command)
    requires Inv(s) && cmd.cid < s.depth && cmd.cid !in Busy(s)
    ensures |s.submitted| + 1 - s.fetched <= s.depth
    ensures forall i :: s.fetched <= i < |s.submitted| ==>
      Slot(i, RingSize(s)) != Slot(|s.submitted|, RingSize(s))
  {
    SubmitKeepsInv(s, cmd);
    OutstandingCount(AfterSubmit(s, cmd));
    FetchedCoversConsumed(s);
    forall i | s.fetched <= i < |s.submitted|
      ensures Slot(i, RingSize(s)) != Slot(|s.submitted|, RingSize(s))
    {
      SlotDistinct(i, |s.submitted|, RingSize(s));
    }
  }

  /**
  In every run a command about to be written goes to a slot that holds no unfetched command, although
  the driver never learns the controller's position.
  */
  lemma SubmitNeverOverwrites(depth: nat, es: seq<Event>, cmd: Command)
    requires 1 <= depth && Run(depth, es).Some? && Step(Run(depth, es).value, Submit(cmd)).Some?
    ensures var s := Run(depth, es).value;
            forall i :: s.fetched <= i < |s.submitted| ==> Slot(i, RingSize(s)) != Slot(|s.submitted|, RingSize(s))
  {
    RunKeepsInv(depth, es);
    RoomForSubmit(Run(depth, es).value, cmd);
  }

  /**
  In every run a completion about to be posted goes to a slot that holds no unconsumed completion,
  although the controller does not look at the driver's position.
  */
  lemma PostNeverOverwrites(depth: nat, es: seq<Event>, cpl: Completion)
    requires 1 <= depth && Run(depth, es).Some? && Step(Run(depth, es).value, Post(cpl)).Some?
    ensures var s := Run(depth, es).value;
            forall i :: s.consumed <= i < |s.posted| ==> Slot(i, RingSize(s)) != Slot(|s.posted|, RingSize(s))
  {
    RunKeepsInv(depth, es);
    var s := Run(depth, es).value;
    PostKeepsInv(s, cpl);
    OutstandingCount(AfterPost(s, cpl));
    FetchedCoversConsumed(AfterPost(s, cpl));
    forall i | s.consumed <= i < |s.posted| ensures Slot(i, RingSize(s)) != Slot(|s.posted|, RingSize(s)) {
      SlotDistinct(i, |s.posted|, RingSize(s));
    }
  }

  /** No tag is lost or answered twice: submissions exceed handled completions by one or not at all. */
  lemma EveryTagAnsweredOnce(depth: nat, es: seq<Event>, t: nat)
    requires 1 <= depth && Run(depth, es).Some?
    ensures var s := Run(depth, es).value;
            var sent := multiset(CommandIds(s.submitted))[t];
            var answered := multiset(CompletionIds(s.posted[..s.consumed]))[t];
            && answered <= sent <= answered + 1
            && (sent == answered + 1 <==> t in Busy(s))
  {
    RunKeepsInv(depth, es);
    TagBalance(Run(depth, es).value, t);
  }

  lemma TagBalance(s: State, t: nat)
    requires Inv(s)
    ensures multiset(CommandIds(s.submitted))[t]
         == multiset(CompletionIds(s.posted[..s.consumed]))[t] + Busy(s)[t]
    ensures Busy(s)[t] <= 1
  {
    assert CommandIds(s.submitted) == CommandIds(s.submitted[..s.fetched]) + CommandIds(s.submitted[s.fetched..]);
    assert CompletionIds(s.posted) == CompletionIds(s.posted[..s.consumed]) + CompletionIds(s.posted[s.consumed..]);
  }
}
