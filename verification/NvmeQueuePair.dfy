/**
The queue pair as the driver keeps it: two rings in shared memory, wrap-around indices, a lazily
written doorbell, and a phase bit as the only sign of a new completion. The controller's side of
the shared memory is modelled by the registers the NVM Express Base Specification 1.4 gives it
(section 4.1.2 for an empty submission queue, section 4.6 for the phase tag).

Valid() couples this memory with the histories of NvmeProtocol. It holds after every method, so
the driver and the controller may be interleaved in any order.
*/
module NvmeQueuePair {
  import opened Common
  import opened Numeric
  import opened NvmeProtocol

  /** A completion ring entry. Bit 0 of the status field is the phase, the rest is the code. */
  datatype Cqe = Cqe(commandId: nat, status: nat)

  /** The phase of the i-th completion ever posted: 1 on the first lap, inverted on each lap. */
  ghost function PhaseAt(i: nat, size: nat): (p: nat)
    requires 0 < size
    ensures p < 2
  {
    if EvenLap(i, size) then 1 else 0
  }

  function Encode(cpl: Completion, phase: nat): Cqe
  {
    Cqe(cpl.cid, 2 * cpl.code + phase)
  }

  /** The submission ring memory, the registers of both sides, and what the controller has read. */
  datatype SqView = SqView(buf: seq<Command>, tail: nat, last: nat, head: nat, seen: seq<Command>)

  /** The completion ring memory, the registers of both sides, and what the driver has handled. */
  datatype CqView = CqView(buf: seq<Cqe>, head: nat, phase: nat, tail: nat, ctrlPhase: nat, handled: seq<Completion>)

  /** The submission ring holds every unfetched command of the history in its own slot. */
  ghost predicate SqOk(v: SqView, submitted: seq<Command>, announced: nat, fetched: nat)
  {
    var size := |v.buf|;
    && fetched <= announced <= |submitted| < fetched + size
    && v.tail == Slot(|submitted|, size)
    && v.last == Slot(announced, size)
    && v.head == Slot(fetched, size)
    && (forall i :: fetched <= i < |submitted| ==> v.buf[Slot(i, size)] == submitted[i])
    && v.seen == submitted[..fetched]
  }

  /** The completion ring: unread entries carry the current phase, every other slot the opposite. */
  ghost predicate CqOk(v: CqView, posted: seq<Completion>, consumed: nat)
  {
    var size := |v.buf|;
    && consumed <= |posted| < consumed + size
    && v.head == Slot(consumed, size) && v.phase == PhaseAt(consumed, size)
    && v.tail == Slot(|posted|, size) && v.ctrlPhase == PhaseAt(|posted|, size)
    && (forall i :: consumed <= i < |posted| ==> v.buf[Slot(i, size)] == Encode(posted[i], PhaseAt(i, size)))
    && (forall i :: |posted| <= i < consumed + size ==> Stale(v.buf[Slot(i, size)], PhaseAt(i, size)))
    && v.handled == posted[..consumed]
  }

  /** The entry was not written on the lap whose phase is given. */
  predicate Stale(cqe: Cqe, phase: nat)
  {
    cqe.status % 2 != phase
  }

  lemma SqSubmit(v: SqView, submitted: seq<Command>, announced: nat, fetched: nat, cmd: Command)
    requires SqOk(v, submitted, announced, fetched)
    requires |submitted| + 1 < fetched + |v.buf|
    ensures v.tail < |v.buf|
    ensures SqOk(v.(buf := v.buf[v.tail := cmd], tail := NextIndex(v.tail, |v.buf|)),
                 submitted + [cmd], announced, fetched)
  {
    var n, size := |submitted|, |v.buf|;
    SlotStep(n, size);
    hide Slot;
    var buf := v.buf[v.tail := cmd];
    forall i | fetched <= i < n + 1 ensures buf[Slot(i, size)] == (submitted + [cmd])[i] {
      if i < n {
        SlotDistinct(i, n, size);
      }
    }
    assert (submitted + [cmd])[..fetched] == submitted[..fetched];
  }

  /** The two flush tests of the driver, read off wrap-around indices, say what they should. */
  lemma SqFlushTests(v: SqView, submitted: seq<Command>, announced: nat, fetched: nat)
    requires SqOk(v, submitted, announced, fetched)
    ensures (v.tail + |v.buf| - v.last) % |v.buf| == |submitted| - announced
    ensures NextIndex(v.tail, |v.buf|) == v.last <==> |submitted| - announced == |v.buf| - 1
    ensures v.tail != v.last <==> announced < |submitted|
  {
    var n, size := |submitted|, |v.buf|;
    SlotDistance(announced, n, size);
    SlotDifference(announced, n, size);
    SlotStep(n, size);
    if n + 1 < announced + size {
      SlotDistinct(announced, n + 1, size);
    } else {
      assert Slot(announced + size, size) == Slot(announced, size);
    }
  }

  /** Ringing the doorbell moves the announced position to the tail. */
  lemma SqAnnounce(v: SqView, submitted: seq<Command>, announced: nat, fetched: nat)
    requires SqOk(v, submitted, announced, fetched)
    ensures SqOk(v.(last := v.tail), submitted, |submitted|, fetched)
  {
  }

  lemma SqFetch(v: SqView, submitted: seq<Command>, announced: nat, fetched: nat)
    requires SqOk(v, submitted, announced, fetched)
    ensures v.head < |v.buf|
    ensures v.head != v.last <==> fetched < announced
    ensures fetched < announced ==>
      SqOk(v.(head := NextIndex(v.head, |v.buf|), seen := v.seen + [v.buf[v.head]]), submitted, announced, fetched + 1)
  {
    var size := |v.buf|;
    if fetched < announced {
      SlotDistinct(fetched, announced, size);
      SlotStep(fetched, size);
      assert v.buf[Slot(fetched, size)] == submitted[fetched];
    }
  }

  lemma CqPending(v: CqView, posted: seq<Completion>, consumed: nat)
    requires CqOk(v, posted, consumed)
    ensures v.head < |v.buf| && v.phase < 2
    ensures v.buf[v.head].status % 2 == v.phase <==> consumed < |posted|
    ensures consumed < |posted| ==> v.buf[v.head] == Encode(posted[consumed], v.phase)
  {
    assert v.head == Slot(consumed, |v.buf|);
  }

  lemma CqConsume(v: CqView, posted: seq<Completion>, consumed: nat)
    requires CqOk(v, posted, consumed) && consumed < |posted|
    ensures CqOk(v.(head := NextIndex(v.head, |v.buf|),
                    phase := if v.head + 1 == |v.buf| then 1 - v.phase else v.phase,
                    handled := v.handled + [posted[consumed]]), posted, consumed + 1)
  {
    var size := |v.buf|;
    SlotStep(consumed, size);
    assert Slot(consumed + size, size) == Slot(consumed, size);
    assert v.buf[Slot(consumed, size)] == Encode(posted[consumed], v.phase);
    assert Stale(v.buf[Slot(consumed + size, size)], PhaseAt(consumed + size, size));
  }

  lemma CqPost(v: CqView, posted: seq<Completion>, consumed: nat, cpl: Completion)
    requires CqOk(v, posted, consumed) && |posted| + 1 < consumed + |v.buf|
    ensures v.tail < |v.buf| && v.ctrlPhase < 2
    ensures CqOk(v.(buf := v.buf[v.tail := Encode(cpl, v.ctrlPhase)],
                    tail := NextIndex(v.tail, |v.buf|),
                    ctrlPhase := if v.tail + 1 == |v.buf| then 1 - v.ctrlPhase else v.ctrlPhase),
                 posted + [cpl], consumed)
  {
    var n, size := |posted|, |v.buf|;
    SlotStep(n, size);
    hide Slot, EvenLap;
    forall i | consumed <= i < consumed + size && i != n ensures Slot(i, size) != v.tail {
      if i < n {
        SlotDistinct(i, n, size);
      } else {
        SlotDistinct(n, i, size);
      }
    }
  }

  class QueuePair {
    const qsize: nat
    const sqBuffer: array<Command>
    const cqBuffer: array<Cqe>

    // the driver's registers
    var sqTail: nat
    var lastSqTail: nat
    var cqHead: nat
    var cqPhase: nat
    var handled: seq<Completion>    // passed on to ublksrv_complete_io, in order

    // the doorbells, as last written
    var sqDoorbell: nat
    var cqDoorbell: nat

    // the controller's registers
    var ctrlSqHead: nat
    var ctrlCqTail: nat
    var ctrlPhase: nat
    var ctrlExecuting: multiset<nat>
    var seen: seq<Command>          // read from the submission ring, in order

    ghost var s: State
    ghost var trace: seq<Event>

    ghost function Sq(): SqView
      reads this, sqBuffer
    {
      SqView(sqBuffer[..], sqTail, lastSqTail, ctrlSqHead, seen)
    }

    ghost function Cq(): CqView
      reads this, cqBuffer
    {
      CqView(cqBuffer[..], cqHead, cqPhase, ctrlCqTail, ctrlPhase, handled)
    }

    ghost predicate Valid()
      reads this, sqBuffer, cqBuffer
    {
      && sqBuffer as object != cqBuffer
      && 2 <= qsize == sqBuffer.Length == cqBuffer.Length
      && Run(qsize - 1, trace) == Some(s)
      && Inv(s) && s.depth == qsize - 1
      && sqDoorbell == lastSqTail
      && ctrlExecuting == s.executing
      && SqOk(Sq(), s.submitted, s.announced, s.fetched)
      && CqOk(Cq(), s.posted, s.consumed)
    }

    constructor (qsize: nat)
      requires 2 <= qsize
      ensures Valid() && fresh(sqBuffer) && fresh(cqBuffer)
      ensures this.qsize == qsize && trace == []
    {
      this.qsize := qsize;
      sqBuffer := new Command[qsize](_ => Command(0, 0));
      cqBuffer := new Cqe[qsize](_ => Cqe(0, 0));
      sqTail, lastSqTail, cqHead, cqPhase := 0, 0, 0, 1;
      sqDoorbell, cqDoorbell := 0, 0;
      ctrlSqHead, ctrlCqTail, ctrlPhase := 0, 0, 1;
      ctrlExecuting, handled, seen := multiset{}, [], [];
      s := Init(qsize - 1);
      trace := [];
    }

    /** Append one event to the history and move the abstract state along. */
    ghost method Record(e: Event, next: State)
      requires 1 <= qsize && Run(qsize - 1, trace) == Some(s) && Step(s, e) == Some(next)
      modifies this`trace, this`s
      ensures trace == old(trace) + [e] && s == next
      ensures Run(qsize - 1, trace) == Some(s)
    {
      trace := trace + [e];
      assert trace[..|trace| - 1] == old(trace);
      s := next;
    }

    /** Write one command to the ring and ring the doorbell if a batch is complete. */
    method SubmitCmd(cmd: Command)
      requires Valid()
      requires cmd.cid < qsize - 1 && cmd.cid !in Busy(s)
      modifies this`sqTail, this`lastSqTail, this`sqDoorbell, this`s, this`trace, sqBuffer
      ensures Valid()
      ensures trace == old(trace) + [Submit(cmd)]
      ensures Pending(s) <= 31 && Pending(s) <= qsize - 2
    {
      hide Inv, Busy, Step, Run, SqOk, CqOk, Slot;
      RoomForSubmit(s, cmd);
      SubmitKeepsInv(s, cmd);
      SqSubmit(Sq(), s.submitted, s.announced, s.fetched, cmd);

      sqBuffer[sqTail] := cmd;
      assert sqBuffer[..] == old(sqBuffer[..])[sqTail := cmd];
      sqTail := sqTail + 1;
      if sqTail == qsize {
        sqTail := 0;
      }
      SqFlushTests(Sq(), s.submitted + [cmd], s.announced, s.fetched);
      SqAnnounce(Sq(), s.submitted + [cmd], s.announced, s.fetched);
      Record(Submit(cmd), AfterSubmit(s, cmd));
      PendingBound(s);

      var pending := (sqTail + qsize - lastSqTail) % qsize;
      var nextTail := sqTail + 1;
      if nextTail == qsize {
        nextTail := 0;
      }
      if pending >= DOORBELL_BATCH || nextTail == lastSqTail {
        if sqTail != lastSqTail {
          sqDoorbell := sqTail;
          lastSqTail := sqTail;
        }
      }
    }

    /** Announce everything written so far. */
    method FlushSq()
      requires Valid()
      modifies this`lastSqTail, this`sqDoorbell, this`s, this`trace
      ensures Valid()
      ensures trace == old(trace) + [Flush]
      ensures s == old(s).(announced := |old(s).submitted|)
    {
      hide Inv, Busy, Step, Run, SqOk, CqOk, Slot;
      SqFlushTests(Sq(), s.submitted, s.announced, s.fetched);
      SqAnnounce(Sq(), s.submitted, s.announced, s.fetched);
      FlushKeepsInv(s);
      if sqTail != lastSqTail {
        sqDoorbell := sqTail;
        lastSqTail := sqTail;
      }
      Record(Flush, s.(announced := |s.submitted|));
    }

    /** The phase bit alone tells exactly whether a completion is waiting. */
    method CqePending() returns (pending: bool)
      requires Valid()
      ensures pending <==> s.consumed < |s.posted|
    {
      hide Inv, Busy, Step, Run, SqOk, CqOk, Slot;
      CqPending(Cq(), s.posted, s.consumed);
      pending := cqBuffer[cqHead].status % 2 == cqPhase;
    }

    /** Hand the waiting completion on and advance head and phase. */
    method ConsumeCqe()
      requires Valid() && s.consumed < |s.posted|
      modifies this`cqHead, this`cqPhase, this`handled, this`s, this`trace
      ensures Valid()
      ensures trace == old(trace) + [Consume]
      ensures s == old(s).(consumed := old(s).consumed + 1)
      ensures handled == old(handled) + [old(s).posted[old(s).consumed]]
    {
      hide Inv, Busy, Step, Run, SqOk, CqOk, Slot;
      CqPending(Cq(), s.posted, s.consumed);
      CqConsume(Cq(), s.posted, s.consumed);
      ConsumeKeepsInv(s);
      var cqe := cqBuffer[cqHead];
      handled := handled + [Completion(cqe.commandId, cqe.status / 2)];
      Record(Consume, s.(consumed := s.consumed + 1));
      var tmp := cqHead + 1;
      if tmp == qsize {
        cqHead := 0;
        cqPhase := 1 - cqPhase;
      } else {
        cqHead := tmp;
      }
    }

    /** The controller reads its next command if the doorbell says there is one. */
    method ControllerFetch() returns (progress: bool)
      requires Valid()
      modifies this`ctrlSqHead, this`ctrlExecuting, this`seen, this`s, this`trace
      ensures Valid()
      ensures progress <==> old(s.fetched) < old(s.announced)
      ensures trace == if progress then old(trace) + [Fetch] else old(trace)
      ensures progress ==> old(s.fetched) < |old(s.submitted)| && s == AfterFetch(old(s))
      ensures progress ==> seen == old(seen) + [old(s).submitted[old(s).fetched]]
      ensures !progress ==> s == old(s) && seen == old(seen)
    {
      hide Inv, Busy, Step, Run, SqOk, CqOk, Slot;
      SqFetch(Sq(), s.submitted, s.announced, s.fetched);
      progress := ctrlSqHead != sqDoorbell;
      if progress {
        FetchKeepsInv(s);
        seen := seen + [sqBuffer[ctrlSqHead]];
        ctrlExecuting := ctrlExecuting + multiset{sqBuffer[ctrlSqHead].cid};
        Record(Fetch, AfterFetch(s));
        ctrlSqHead := if ctrlSqHead + 1 == qsize then 0 else ctrlSqHead + 1;
      }
    }

    /** The controller completes a command it has fetched, without looking at the driver's head. */
    method ControllerPost(cpl: Completion)
      requires Valid() && cpl.cid in s.executing
      modifies this`ctrlCqTail, this`ctrlPhase, this`ctrlExecuting, this`s, this`trace, cqBuffer
      ensures Valid()
      ensures trace == old(trace) + [Post(cpl)]
      ensures s == AfterPost(old(s), cpl)
    {
      hide Inv, Busy, Step, Run, SqOk, CqOk, Slot;
      PostKeepsInv(s, cpl);
      OutstandingCount(AfterPost(s, cpl));
      FetchedCoversConsumed(AfterPost(s, cpl));
      CqPost(Cq(), s.posted, s.consumed, cpl);
      cqBuffer[ctrlCqTail] := Encode(cpl, ctrlPhase);
      assert cqBuffer[..] == old(cqBuffer[..])[ctrlCqTail := Encode(cpl, ctrlPhase)];
      ctrlExecuting := ctrlExecuting - multiset{cpl.cid};
      Record(Post(cpl), AfterPost(s, cpl));
      if ctrlCqTail + 1 == qsize {
        ctrlCqTail := 0;
        ctrlPhase := 1 - ctrlPhase;
      } else {
        ctrlCqTail := ctrlCqTail + 1;
      }
    }

    /** Any number of controller steps: what may happen between two instructions of the driver. */
    method ControllerTurn()
      requires Valid()
      modifies this`ctrlSqHead, this`ctrlExecuting, this`seen, this`ctrlCqTail, this`ctrlPhase
      modifies this`s, this`trace, cqBuffer
      ensures Valid()
      ensures s.submitted == old(s.submitted) && s.announced == old(s.announced)
      ensures s.consumed == old(s.consumed) && old(s.posted) <= s.posted
    {
      hide Inv, Busy, Step, Run, SqOk, CqOk, Slot;
      var steps: nat := *;
      while steps > 0
        invariant Valid()
        invariant s.submitted == old(s.submitted) && s.announced == old(s.announced)
        invariant s.consumed == old(s.consumed) && old(s.posted) <= s.posted
      {
        var cpl: Completion := *;
        if cpl.cid in ctrlExecuting {
          ControllerPost(cpl);
        } else {
          var progress := ControllerFetch();
        }
        steps := steps - 1;
      }
    }

    /**
    Consume completions until the next slot shows the old phase. The controller keeps posting
    while the driver polls; the loop still ends, because every turn of it retires a command.
    */
    method PollCq() returns (found: bool)
      requires Valid()
      modifies this, cqBuffer
      ensures Valid() && sqBuffer[..] == old(sqBuffer[..])
      ensures s.submitted == old(s.submitted) && s.announced == old(s.announced)
      ensures old(s.posted) <= s.posted && s.consumed <= |s.posted| && handled == s.posted[..s.consumed]
      ensures found <==> old(s.consumed) < s.consumed
      ensures found ==> cqDoorbell == cqHead
      ensures s.consumed == |s.posted|
    {
      hide Inv, Busy, Step, Run, SqOk, CqOk, Slot;
      found := false;
      var pending := CqePending();
      while pending
        invariant Valid() && sqBuffer[..] == old(sqBuffer[..])
        invariant s.submitted == old(s.submitted) && s.announced == old(s.announced)
        invariant old(s.posted) <= s.posted
        invariant old(s.consumed) <= s.consumed && (found <==> old(s.consumed) < s.consumed)
        invariant pending <==> s.consumed < |s.posted|
        decreases |s.submitted| - s.consumed
      {
        Outstanding(s);
        found := true;
        ConsumeCqe();
        ControllerTurn();
        pending := CqePending();
        Outstanding(s);
      }
      HandledIsPrefix(Cq(), s.posted, s.consumed);
      if found {
        cqDoorbell := cqHead;
      }
    }

    /** The background callback: announce everything, then poll until a whole pass finds nothing. */
    method HandleIoBackground()
      requires Valid()
      modifies this, cqBuffer
      ensures Valid()
      ensures s.announced == |s.submitted| && s.submitted == old(s.submitted)
      ensures s.consumed == |s.posted| && handled == s.posted && old(s.posted) <= s.posted
    {
      hide Inv, Busy, Step, Run, SqOk, CqOk, Slot;
      FlushSq();
      ControllerTurn();
      var found := PollCq();
      while found
        invariant Valid()
        invariant s.announced == |s.submitted| && s.submitted == old(s.submitted)
        invariant s.consumed == |s.posted| && handled == s.posted[..s.consumed] && old(s.posted) <= s.posted
        decreases found, |s.submitted| - s.consumed
      {
        Outstanding(s);
        HandledIsPrefix(Cq(), s.posted, s.consumed);
        ControllerTurn();
        found := PollCq();
        Outstanding(s);
      }
    }
  }

  lemma Outstanding(s: State)
    requires Inv(s)
    ensures s.consumed <= |s.posted| <= |s.submitted|
  {
    FetchedCoversConsumed(s);
  }

  /** What the driver has handed on is exactly the posted history up to its absolute position. */
  lemma HandledIsPrefix(v: CqView, posted: seq<Completion>, consumed: nat)
    requires CqOk(v, posted, consumed)
    ensures consumed <= |posted| && v.handled == posted[..consumed]
  {
  }
}
