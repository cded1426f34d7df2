/**
The NBD queue on the fields the code keeps: two counters, three flags, the deferred requests, the last
send and the submission ring. Where each request is follows from the run, and is ghost here; every
callback is an event of NbdProtocol, so what holds of all its runs holds of the queue.
*/
module NbdQueue {
  import opened Common
  import opened NbdProtocol

  class Queue {
    const depth: nat
    var isRead: seq<bool>           // from the descriptor of each tag
    var nextChain: seq<nat>
    var chained: nat
    var active: bool
    var inFlight: nat
    var lastSend: Option<nat>
    var recvStarted: bool
    var needHandle: bool
    var wait: Wait                  // where the receive coroutine is suspended
    var sq: seq<Sqe>

    ghost var s: State
    ghost var trace: seq<Event>

    /** The fields are those of the abstract state, and the descriptors those of the requests under way. */
    ghost predicate Match()
      reads this
    {
      && nextChain == s.nextChain && chained == s.chained && active == s.active && lastSend == s.lastSend
      && inFlight == s.inFlight && recvStarted == s.recvStarted && needHandle == s.needHandle && wait == s.wait
      && sq == s.sq && |isRead| == |s.reqs|
      && forall t :: 0 <= t < |isRead| && !s.reqs[t].Idle? ==> isRead[t] == s.reqs[t].isRead
    }

    ghost predicate Valid()
      reads this
    {
      Match() && Run(depth, trace) == Some(s) && Inv(s) && |s.reqs| == depth
    }

    constructor (depth: nat)
      ensures Valid() && this.depth == depth && trace == []
    {
      hide Inv, Run;
      this.depth := depth;
      isRead := seq(depth, _ => false);
      nextChain, chained, active, inFlight, lastSend := [], 0, false, 0, None;
      recvStarted, needHandle, wait, sq := false, false, Reply, [];
      s, trace := Init(depth), [];
      new;
      StartOfRun(depth);
    }

    /** The step just taken belongs to the run. */
    ghost method Record(e: Event, was: State)
      requires Run(depth, trace) == Some(was) && Inv(was) && Step(was, e) == Some(s) && |was.reqs| == depth
      modifies this`trace
      ensures Run(depth, trace) == Some(s) && Inv(s) && |s.reqs| == depth && trace == old(trace) + [e]
    {
      hide Inv, Step;
      RunExtend(depth, trace, was, e);
      StepKeepsInv(was, e);
      trace := trace + [e];
    }

    /** Start the coroutine of a request, up to the point where it waits for its reply. */
    method StartIo(tag: nat)
      requires Match() && tag < |isRead|
      modifies this`inFlight, this`sq, this`lastSend, this`chained, this`s
      ensures Match() && s == Start(old(s), tag, isRead[tag])
    {
      inFlight := inFlight + 1;
      lastSend := Some(|sq|);
      sq := sq + [Send(tag, true)];
      chained := chained + 1;
      s := Start(s, tag, isRead[tag]);
    }

    method StartOrDefer(tag: nat)
      requires Match() && tag < |isRead| && s.reqs[tag] == Idle
      modifies this`inFlight, this`sq, this`lastSend, this`chained, this`nextChain, this`s
      ensures Match() && s == NbdProtocol.HandleIoAsync(old(s), tag, isRead[tag])
    {
      s := s.(arrivals := s.arrivals + [tag]);
      if chained > 0 && active {
        nextChain := nextChain + [tag];
        s := s.(nextChain := nextChain, reqs := s.reqs[tag := Deferred(isRead[tag])]);
      } else {
        StartIo(tag);
      }
    }

    /** A request has arrived, and its descriptor with it. Until it is sent it is certain to wait for a chain. */
    method HandleIoAsync(tag: nat, read: bool)
      requires Valid() && s.reaping && tag < depth && s.reqs[tag] == Idle
      modifies this`isRead, this`inFlight, this`sq, this`lastSend, this`chained, this`nextChain, this`s, this`trace
      ensures Valid() && trace == old(trace) + [Arrive(tag, read)]
      ensures tag in nextChain ==> s.sendsOut > 0
      ensures tag !in nextChain ==> sq == old(sq) + [Send(tag, true)] && old(s).sendsOut == 0
    {
      hide Inv, Run, NbdProtocol.HandleIoAsync;
      ghost var was := s;
      isRead := isRead[tag := read];
      ArrivalOutcome(s, tag, read);
      StartOrDefer(tag);
      Record(Arrive(tag, read), was);
    }

    /** The CQE of a send; a zero-copy notification is not one. */
    method SendReqDone(notif: bool)
      requires Valid() && s.reaping && (!notif ==> s.sendsOut > 0)
      modifies this`chained, this`active, this`s, this`trace
      ensures Valid() && trace == old(trace) + (if notif then [] else [SendCqe])
      ensures s.sendsOut == 0 ==> !active
    {
      hide Inv, Run, SendDone;
      if notif {
        IdleWithoutSends(s);
        return;
      }
      SomeChained(s);
      ghost var was := s;
      CountDown();
      Record(SendCqe, was);
      IdleWithoutSends(s);
    }

    method CountDown()
      requires Match() && chained > 0 && s.sendsOut > 0
      modifies this`chained, this`active, this`s
      ensures Match() && s == SendDone(old(s)) && s.reaping == old(s).reaping
    {
      chained := chained - 1;
      if chained == 0 {
        active := false;
      }
      s := SendDone(s);
    }

    /** The CQE of the receive command; what to do with it is left to the background call. */
    method RecvDone()
      requires Valid() && s.reaping && s.recvOut
      modifies this`needHandle, this`s, this`trace
      ensures Valid() && trace == old(trace) + [RecvCqe] && !old(needHandle)
    {
      RecvSlotIsFree(depth, trace);
      hide Inv, Run;
      ghost var was := s;
      needHandle := true;
      s := s.(recvOut := false, needHandle := true);
      Record(RecvCqe, was);
    }

    /** Start everything deferred, in order. */
    method StartDeferred()
      requires Match() && ChainOk(s.reqs, nextChain)
      modifies this`inFlight, this`sq, this`lastSend, this`chained, this`nextChain, this`s
      ensures Match() && s == StartAll(old(s), old(nextChain)).(nextChain := [])
    {
      hide Start, StartAll;
      ghost var was := s;
      StartAllNone(s, nextChain);
      for i := 0 to |nextChain|
        invariant nextChain == was.nextChain
        invariant Match() && s == StartAll(was, nextChain[..i]) && |s.reqs| == |was.reqs|
        invariant forall j :: i <= j < |nextChain| ==>
          nextChain[j] < |s.reqs| && s.reqs[nextChain[j]] == was.reqs[nextChain[j]]
      {
        StartAllNext(was, nextChain, i);
        StartIo(nextChain[i]);
      }
      assert nextChain[..|nextChain|] == nextChain;
      nextChain := [];
      s := s.(nextChain := []);
    }

    /** Start what is deferred if no chain is at the kernel, and end the chain being built. */
    method HandleSendBg()
      requires Match() && ChainOk(s.reqs, nextChain)
      modifies this`inFlight, this`sq, this`lastSend, this`chained, this`nextChain, this`s
      ensures Match() && s == SendBg(old(s))
    {
      hide StartAll, ChainOk, Unlink;
      if !(chained > 0 && active) {
        StartDeferred();
      }
      EndChain();
    }

    /** The last send of the chain is not linked to what follows it. */
    method EndChain()
      requires Match()
      modifies this`sq, this`lastSend, this`s
      ensures Match() && s == Unlink(old(s))
    {
      if lastSend.Some? {
        var i := lastSend.value;
        if i < |sq| && sq[i].Send? {
          sq := sq[i := sq[i].(linked := false)];
        }
        lastSend := None;
      }
      s := Unlink(s);
    }

    /** A request is resumed with its result. */
    method FinishIo(tag: nat)
      requires Match() && tag < |isRead| && inFlight > 0
      modifies this`sq, this`inFlight, this`s
      ensures Match() && s == Finish(old(s), tag)
    {
      sq := sq + [Commit(tag)];
      inFlight := inFlight - 1;
      s := Finish(s, tag);
    }

    /** One thing received. */
    method HandleUnit(u: Unit)
      requires Match() && OneUnit(s, u).Some?
      modifies this`sq, this`inFlight, this`recvStarted, this`wait, this`s
      ensures Match() && Some(s) == OneUnit(old(s), u)
    {
      match u {
        case Again =>
        case Bad =>
          recvStarted := false;
          s := s.(recvStarted := false, broke := true);
        case GotReply(tag) =>
          if isRead[tag] {
            wait := Data(tag);
            s := s.(wait := wait);
          } else {
            FinishIo(tag);
          }
        case GotData =>
          FinishIo(wait.tag);
          wait := Reply;
          s := s.(wait := Reply);
      }
    }

    /** The receive coroutine, from where it starts or resumes to where it ends or waits again. */
    method HandleRecv(units: seq<Unit>)
      requires Match() && RecvLoop(s, units).Some?
      modifies this`sq, this`inFlight, this`recvStarted, this`wait, this`s
      ensures Match() && Some(s) == RecvLoop(old(s), units)
    {
      hide OneUnit;
      ghost var was := s;
      assert units[..0] == [];
      for i := 0 to |units|
        invariant Match() && Units(was, units[..i]) == Some(s)
      {
        PrefixRuns(was, units, i + 1);
        assert units[..i + 1][..i] == units[..i];
        HandleUnit(units[i]);
      }
      assert units[..|units|] == units;
      if recvStarted {
        if wait == Reply && inFlight == 0 {
          recvStarted := false;
        } else {
          sq := sq + [Recv];
        }
      }
      s := Pause(s);
    }

    method HandleRecvBg(started: seq<Unit>, resumed: seq<Unit>)
      requires Match() && RecvBg(s, started, resumed).Some?
      modifies this`sq, this`inFlight, this`recvStarted, this`needHandle, this`wait, this`s
      ensures Match() && Some(s) == RecvBg(old(s), started, resumed)
    {
      hide RecvLoop;
      if inFlight > 0 && !recvStarted {
        recvStarted, wait := true, Reply;
        s := s.(recvStarted := true, wait := Reply);
        HandleRecv(started);
      }
      if needHandle {
        needHandle := false;
        s := s.(needHandle := false);
        HandleRecv(resumed);
      }
    }

    /**
    The background call. Afterwards what is deferred waits for a chain whose CQEs are still to come, and
    without an error the receive coroutine runs exactly while requests are in flight.
    */
    method HandleIoBg(started: seq<Unit>, resumed: seq<Unit>)
      requires Valid() && Step(s, Background(started, resumed)).Some?
      modifies this
      ensures Valid() && trace == old(trace) + [Background(started, resumed)]
      ensures nextChain != [] ==> active && s.sendsOut > 0
      ensures Bad !in started && Bad !in resumed ==> (recvStarted <==> inFlight > 0)
    {
      hide Inv, Run, ChainOk, Step;
      ghost var was := s;
      StepIsCallback(was, started, resumed);
      BothHalves(was, started, resumed);
      hide NbdProtocol.HandleIoBg;
      RunBackground(started, resumed);
      Record(Background(started, resumed), was);
      BackgroundKeepsInv(was, started, resumed);
      AfterBg(s);
    }

    method RunBackground(started: seq<Unit>, resumed: seq<Unit>)
      requires Match() && ChainOk(s.reqs, nextChain)
      requires RecvBg(SendBg(s.(broke := false)), started, resumed).Some?
      requires var m := RecvBg(SendBg(s.(broke := false)), started, resumed).value; ChainOk(m.reqs, m.nextChain)
      modifies this`inFlight, this`sq, this`lastSend, this`chained, this`nextChain
      modifies this`recvStarted, this`needHandle, this`wait, this`active, this`s
      ensures Match() && Some(s) == NbdProtocol.HandleIoBg(old(s), started, resumed)
    {
      hide SendBg, RecvBg, ChainOk, SecondSendBg;
      s := s.(broke := false);
      HandleSendBg();
      HandleRecvBg(started, resumed);
      StartAgain();
      Activate();
    }

    /** Requests answered by now may have left none in flight; try again to start what is deferred. */
    method StartAgain()
      requires Match() && ChainOk(s.reqs, nextChain)
      modifies this`inFlight, this`sq, this`lastSend, this`chained, this`nextChain, this`s
      ensures Match() && s == SecondSendBg(old(s))
    {
      hide SendBg, ChainOk;
      if inFlight == 0 {
        if nextChain != [] {
          HandleSendBg();
        }
      }
    }

    /** Whatever sends there are go to the kernel next. */
    method Activate()
      requires Match()
      modifies this`active, this`s
      ensures Match() && s == old(s).(active := old(s).active || old(s).chained > 0, reaping := false)
    {
      if chained > 0 {
        active := true;
      }
      s := s.(active := s.active || s.chained > 0, reaping := false);
    }

    /** io_uring_submit: what goes to the kernel fits the ring, and its sends are one chain with none before it. */
    method SubmitSq() returns (sqes: seq<Sqe>)
      requires Valid() && !s.reaping
      modifies this`sq, this`s, this`trace
      ensures Valid() && trace == old(trace) + [Submit] && sq == []
      ensures sqes == old(sq) && OneChain(sqes) && |sqes| <= depth + 1
      ensures NumSends(sqes) > 0 ==> old(s).sendsOut == 0
    {
      ghost var was := s;
      AfterBg(was);
      RingNeverFills(depth, trace);
      hide Inv, Run, NumSends, OneChain;
      sqes := sq;
      sq := [];
      s := SubmitRing(s);
      Record(Submit, was);
    }
  }

  lemma {:induction false} PrefixRuns(s: State, us: seq<Unit>, k: nat)
    requires Units(s, us).Some? && k <= |us|
    ensures Units(s, us[..k]).Some?
    decreases |us|
  {
    if k == |us| {
      assert us[..k] == us;
    } else {
      var n := |us| - 1;
      assert us[..n][..k] == us[..k];
      PrefixRuns(s, us[..n], k);
    }
  }

  lemma StartOfRun(depth: nat)
    ensures Run(depth, []) == Some(Init(depth)) && Inv(Init(depth))
  {
    InitInv(depth);
  }

  lemma StartAllNext(s: State, ts: seq<nat>, i: nat)
    requires i < |ts| && ts[i] < |StartAll(s, ts[..i]).reqs| && StartAll(s, ts[..i]).reqs[ts[i]].Deferred?
    ensures var m := StartAll(s, ts[..i]);
            && StartAll(s, ts[..i + 1]) == Start(m, ts[i], m.reqs[ts[i]].isRead)
            && StartAll(s, ts[..i + 1]).reqs == m.reqs[ts[i] := Sent(m.reqs[ts[i]].isRead)]
  {
    assert ts[..i + 1][..i] == ts[..i];
  }

  lemma StartAllNone(s: State, ts: seq<nat>)
    ensures StartAll(s, ts[..0]) == s
  {
  }

  lemma StepIsCallback(s: State, started: seq<Unit>, resumed: seq<Unit>)
    requires Step(s, Background(started, resumed)).Some?
    ensures s.reaping && Step(s, Background(started, resumed)) == NbdProtocol.HandleIoBg(s, started, resumed)
  {
    hide NbdProtocol.HandleIoBg;
  }

  /** The lists the two halves of the background call work on are in order. */
  lemma BothHalves(s: State, started: seq<Unit>, resumed: seq<Unit>)
    requires Inv(s) && s.reaping && RecvBg(SendBg(s.(broke := false)), started, resumed).Some?
    ensures ChainOk(s.reqs, s.nextChain)
    ensures var m := RecvBg(SendBg(s.(broke := false)), started, resumed).value; ChainOk(m.reqs, m.nextChain)
  {
    assert ChainOk(s.reqs, s.nextChain);
    hide Inv, Ready, SendBg, RecvBg, Received, BgOk, ChainOk;
    SendBgReady(s);
    RecvBgKeeps(SendBg(s.(broke := false)), started, resumed);
    ReceivedParts(RecvBg(SendBg(s.(broke := false)), started, resumed).value);
  }

  lemma SomeChained(s: State)
    requires Inv(s) && s.sendsOut > 0
    ensures s.chained > 0
  {
  }

  /** While completions are reaped, no chain counts as active once its CQEs have all come. */
  lemma IdleWithoutSends(s: State)
    requires Inv(s) && s.reaping
    ensures s.sendsOut == 0 ==> !s.active
  {
    NumSendsBound(s.sq);
  }

  /** What becomes of a request that arrives. */
  lemma ArrivalOutcome(s: State, t: nat, isRead: bool)
    requires Inv(s) && s.reaping && t < |s.reqs| && s.reqs[t] == Idle
    ensures var s' := NbdProtocol.HandleIoAsync(s, t, isRead);
            && s'.sendsOut == s.sendsOut && s'.reaping
            && (t in s'.nextChain ==> s.sendsOut > 0)
            && (t !in s'.nextChain ==> s'.sq == s.sq + [Send(t, true)] && s.sendsOut == 0)
  {
    NumSendsBound(s.sq);
    assert t !in s.nextChain;
  }

  lemma AfterBg(s: State)
    requires Inv(s) && !s.reaping
    ensures OneChain(s.sq) && (NumSends(s.sq) > 0 ==> s.sendsOut == 0)
    ensures s.nextChain != [] ==> s.active && s.sendsOut > 0
    ensures !s.broke ==> (s.recvStarted <==> s.inFlight > 0)
  {
  }
}
