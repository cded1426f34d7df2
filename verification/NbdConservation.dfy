/** Over a whole run of NbdProtocol, every request that arrives is sent once and completed once. */
module NbdConservation {
  import opened Common
  import opened NbdProtocol

  function SendsOf(sq: seq<Sqe>, t: nat): nat
  {
    if sq == [] then 0 else
    var e := sq[|sq| - 1];
    SendsOf(sq[..|sq| - 1], t) + (if e.Send? && e.tag == t then 1 else 0)
  }

  function CommitsOf(sq: seq<Sqe>, t: nat): nat
  {
    if sq == [] then 0 else
    CommitsOf(sq[..|sq| - 1], t) + (if sq[|sq| - 1] == Commit(t) then 1 else 0)
  }

  function ArrivalsOf(ts: seq<nat>, t: nat): nat
  {
    if ts == [] then 0 else ArrivalsOf(ts[..|ts| - 1], t) + (if ts[|ts| - 1] == t then 1 else 0)
  }

  lemma {:induction false} OfConcat(a: seq<Sqe>, b: seq<Sqe>, t: nat)
    ensures SendsOf(a + b, t) == SendsOf(a, t) + SendsOf(b, t)
    ensures CommitsOf(a + b, t) == CommitsOf(a, t) + CommitsOf(b, t)
  {
    if b == [] {
      assert a + b == a;
    } else {
      var k := |b| - 1;
      assert (a + b)[..|a| + k] == a + b[..k];
      OfConcat(a, b[..k], t);
    }
  }

  lemma OfAppend(a: seq<Sqe>, e: Sqe, t: nat)
    ensures SendsOf(a + [e], t) == SendsOf(a, t) + (if e.Send? && e.tag == t then 1 else 0)
    ensures CommitsOf(a + [e], t) == CommitsOf(a, t) + (if e == Commit(t) then 1 else 0)
  {
    assert (a + [e])[..|a|] == a;
  }

  /** Of n requests all but a deferred one are sent, and all but the one with the target answered. */
  predicate Balanced(p: Phase, n: nat, sends: nat, commits: nat)
  {
    n == sends + (if p.Deferred? then 1 else 0) && n == commits + (if p.Idle? then 0 else 1)
  }

  predicate Conserved(s: State, t: nat)
  {
    && t < |s.reqs|
    && Balanced(s.reqs[t], ArrivalsOf(s.arrivals, t), SendsOf(s.log, t) + SendsOf(s.sq, t),
                CommitsOf(s.log, t) + CommitsOf(s.sq, t))
  }

  /** The balance of a tag depends on nothing else. */
  lemma ConservedSame(s: State, m: State, t: nat)
    requires Conserved(s, t) && |m.reqs| == |s.reqs| && m.reqs[t] == s.reqs[t]
    requires m.arrivals == s.arrivals && m.log == s.log
    requires SendsOf(m.sq, t) == SendsOf(s.sq, t) && CommitsOf(m.sq, t) == CommitsOf(s.sq, t)
    ensures Conserved(m, t)
  {
  }

  lemma StartConserves(s: State, t: nat, isRead: bool, u: nat)
    requires t < |s.reqs| && Conserved(s, u) && s.reqs[t].Deferred?
    ensures Conserved(Start(s, t, isRead), u)
  {
    hide SendsOf, CommitsOf, ArrivalsOf;
    OfAppend(s.sq, Send(t, true), u);
  }

  lemma {:induction false} StartAllConserves(s: State, ts: seq<nat>, u: nat)
    requires Conserved(s, u)
    ensures Conserved(StartAll(s, ts), u)
  {
    hide Conserved, Start;
    if ts != [] {
      var k := |ts| - 1;
      StartAllConserves(s, ts[..k], u);
      var m := StartAll(s, ts[..k]);
      if ts[k] < |m.reqs| && m.reqs[ts[k]].Deferred? {
        StartConserves(m, ts[k], m.reqs[ts[k]].isRead, u);
      }
    }
  }

  lemma {:induction false} OfUnlinked(a: seq<Sqe>, i: nat, t: nat)
    requires i < |a| && a[i].Send?
    ensures SendsOf(a[i := a[i].(linked := false)], t) == SendsOf(a, t)
    ensures CommitsOf(a[i := a[i].(linked := false)], t) == CommitsOf(a, t)
  {
    var k := |a| - 1;
    var b := a[i := a[i].(linked := false)];
    if i < k {
      assert b[..k] == a[..k][i := a[i].(linked := false)];
      OfUnlinked(a[..k], i, t);
    } else {
      assert b[..k] == a[..k];
    }
  }

  lemma UnlinkConserves(m: State, u: nat)
    requires Conserved(m, u)
    ensures Conserved(Unlink(m), u)
  {
    hide Conserved, SendsOf, CommitsOf, ArrivalsOf;
    InRange(m, u);
    if m.lastSend.Some? {
      var i := m.lastSend.value;
      if i < |m.sq| && m.sq[i].Send? {
        var sq' := m.sq[i := m.sq[i].(linked := false)];
        OfUnlinked(m.sq, i, u);
        ConservedSame(m, m.(sq := sq', lastSend := None), u);
      } else {
        ConservedSame(m, m.(lastSend := None), u);
      }
    }
  }

  lemma InRange(s: State, u: nat)
    requires Conserved(s, u)
    ensures u < |s.reqs|
  {
  }

  lemma SendBgConserves(s: State, u: nat)
    requires Conserved(s, u)
    ensures Conserved(SendBg(s), u)
  {
    hide Conserved, StartAll, Unlink;
    if Busy(s) {
      UnlinkConserves(s, u);
    } else {
      StartAllConserves(s, s.nextChain, u);
      var m := StartAll(s, s.nextChain);
      InRange(m, u);
      ConservedSame(m, m.(nextChain := []), u);
      UnlinkConserves(m.(nextChain := []), u);
    }
  }

  lemma FinishConserves(s: State, t: nat, u: nat)
    requires Conserved(s, u) && Answerable(s, t)
    ensures Conserved(Finish(s, t), u)
  {
    hide SendsOf, CommitsOf, ArrivalsOf;
    OfAppend(s.sq, Commit(t), u);
  }

  lemma OneUnitConserves(s: State, x: Unit, u: nat)
    requires Conserved(s, u) && OneUnit(s, x).Some?
    ensures Conserved(OneUnit(s, x).value, u)
  {
    hide Conserved, Finish;
    InRange(s, u);
    match x
    case Again =>
    case Bad => ConservedSame(s, OneUnit(s, x).value, u);
    case GotReply(t) =>
      if s.reqs[t].isRead {
        ConservedSame(s, OneUnit(s, x).value, u);
      } else {
        FinishConserves(s, t, u);
      }
    case GotData =>
      var f := Finish(s, s.wait.tag);
      FinishConserves(s, s.wait.tag, u);
      InRange(f, u);
      ConservedSame(f, f.(wait := Reply), u);
  }

  lemma {:induction false} UnitsConserve(s: State, us: seq<Unit>, u: nat)
    requires Conserved(s, u) && Units(s, us).Some?
    ensures Conserved(Units(s, us).value, u)
  {
    hide OneUnit, Conserved;
    if us != [] {
      var k := |us| - 1;
      UnitsConserve(s, us[..k], u);
      OneUnitConserves(Units(s, us[..k]).value, us[k], u);
    }
  }

  lemma RecvLoopConserves(s: State, us: seq<Unit>, u: nat)
    requires Conserved(s, u) && RecvLoop(s, us).Some?
    ensures Conserved(RecvLoop(s, us).value, u)
  {
    hide Units, Conserved, SendsOf, CommitsOf, ArrivalsOf;
    UnitsConserve(s, us, u);
    var m := Units(s, us).value;
    InRange(m, u);
    OfAppend(m.sq, Recv, u);
    ConservedSame(m, Pause(m), u);
  }

  lemma RecvBgConserves(s: State, started: seq<Unit>, resumed: seq<Unit>, u: nat)
    requires Conserved(s, u) && RecvBg(s, started, resumed).Some?
    ensures Conserved(RecvBg(s, started, resumed).value, u)
  {
    hide RecvLoop, Conserved;
    InRange(s, u);
    var m := s;
    if s.inFlight > 0 && !s.recvStarted {
      ConservedSame(s, s.(recvStarted := true, wait := Reply), u);
      RecvLoopConserves(s.(recvStarted := true, wait := Reply), started, u);
      m := RecvLoop(s.(recvStarted := true, wait := Reply), started).value;
      InRange(m, u);
    }
    if m.needHandle {
      ConservedSame(m, m.(needHandle := false), u);
      RecvLoopConserves(m.(needHandle := false), resumed, u);
    }
  }

  lemma BackgroundConserves(s: State, started: seq<Unit>, resumed: seq<Unit>, u: nat)
    requires Conserved(s, u) && HandleIoBg(s, started, resumed).Some?
    ensures Conserved(HandleIoBg(s, started, resumed).value, u)
  {
    hide SendBg, RecvBg, Conserved;
    InRange(s, u);
    ConservedSame(s, s.(broke := false), u);
    SendBgConserves(s.(broke := false), u);
    var m0 := SendBg(s.(broke := false));
    RecvBgConserves(m0, started, resumed, u);
    var m := RecvBg(m0, started, resumed).value;
    SendBgConserves(m, u);
    var m1 := SecondSendBg(m);
    InRange(m1, u);
    ConservedSame(m1, HandleIoBg(s, started, resumed).value, u);
  }

  lemma ArriveConserves(s: State, t: nat, isRead: bool, u: nat)
    requires Conserved(s, u) && t < |s.reqs| && s.reqs[t] == Idle
    ensures Conserved(HandleIoAsync(s, t, isRead), u)
  {
    hide SendsOf, CommitsOf, ArrivalsOf;
    ArrivalsAppend(s.arrivals, t, u);
    if !Busy(s) {
      OfAppend(s.sq, Send(t, true), u);
    }
  }

  lemma ArrivalsAppend(ts: seq<nat>, t: nat, u: nat)
    ensures ArrivalsOf(ts + [t], u) == ArrivalsOf(ts, u) + (if t == u then 1 else 0)
  {
    assert (ts + [t])[..|ts|] == ts;
  }

  lemma SubmitConserves(s: State, u: nat)
    requires Conserved(s, u)
    ensures Conserved(SubmitRing(s), u)
  {
    hide SendsOf, CommitsOf, ArrivalsOf, NumSends;
    OfConcat(s.log, s.sq, u);
    NoneOf(u);
  }

  lemma NoneOf(u: nat)
    ensures SendsOf([], u) == CommitsOf([], u) == ArrivalsOf([], u) == 0
  {
  }

  lemma StepConserves(s: State, e: Event, u: nat)
    requires Conserved(s, u) && Step(s, e).Some?
    ensures Conserved(Step(s, e).value, u)
  {
    hide HandleIoBg, Conserved, HandleIoAsync, SubmitRing;
    InRange(s, u);
    match e
    case Submit => SubmitConserves(s, u);
    case Arrive(t, isRead) => ArriveConserves(s, t, isRead, u);
    case Background(started, resumed) => BackgroundConserves(s, started, resumed, u);
    case _ => ConservedSame(s, Step(s, e).value, u);
  }

  /**
  In every run, every tag: each request that arrived has been sent once or is deferred, and each has
  been completed once or is the one still with the target. Nothing is sent or completed twice.
  */
  lemma EachSentAndCompletedOnce(depth: nat, es: seq<Event>, t: nat)
    requires Run(depth, es).Some? && t < depth
    ensures var s := Run(depth, es).value;
            && t < |s.reqs|
            && ArrivalsOf(s.arrivals, t) == SendsOf(s.log + s.sq, t) + (if s.reqs[t].Deferred? then 1 else 0)
            && ArrivalsOf(s.arrivals, t) == CommitsOf(s.log + s.sq, t) + (if s.reqs[t].Idle? then 0 else 1)
  {
    RunConserves(depth, es, t);
    OfConcat(Run(depth, es).value.log, Run(depth, es).value.sq, t);
  }

  lemma {:induction false} RunConserves(depth: nat, es: seq<Event>, t: nat)
    requires Run(depth, es).Some? && t < depth
    ensures Conserved(Run(depth, es).value, t)
  {
    hide Step, Conserved;
    if es == [] {
      InitConserved(depth, t);
    } else {
      RunConserves(depth, es[..|es| - 1], t);
      StepConserves(Run(depth, es[..|es| - 1]).value, es[|es| - 1], t);
    }
  }

  lemma InitConserved(depth: nat, t: nat)
    requires t < depth
    ensures Conserved(Init(depth), t)
  {
    NoneOf(t);
  }
}
