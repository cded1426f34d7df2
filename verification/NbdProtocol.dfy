/**
The NBD transmission engine: requests go out as chains of linked sends on one stream socket, one
receive coroutine reads the replies, and a request that arrives while a chain is at the kernel waits
for the next chain. One round is a submission, the completions reaped after it, and the background
call; the functions here are the callbacks on values, and NbdQueue runs them on the queue's fields.
*/
module NbdProtocol {
  import opened Common
  import opened Numeric

  /** Where a request is: with the driver, in next_chain, or sent (or about to be) and not answered. */
  datatype Phase = Idle | Deferred(isRead: bool) | Sent(isRead: bool)

  datatype Sqe = Send(tag: nat, linked: bool) | Recv | Commit(tag: nat)

  /** What the receive coroutine reads next: a reply, or the data of a read. */
  datatype Wait = Reply | Data(tag: nat)

  /** A submission, and how many sends of earlier ones were still without their CQE. */
  datatype Batch = Batch(sqes: seq<Sqe>, sendsBefore: nat)

  datatype State = State(
    reqs: seq<Phase>,
    nextChain: seq<nat>,
    chained: nat,              // chained_send_ios
    active: bool,              // chain_active
    inFlight: nat,             // in_flight_ios
    lastSend: Option<nat>,     // last_send_sqe, as an index into sq
    recvStarted: bool,
    needHandle: bool,          // need_handle_recv
    wait: Wait,
    broke: bool,               // the last background call left the receive loop by an error
    sq: seq<Sqe>,              // prepared and not submitted
    reaping: bool,             // between a submission and the background call
    sendsOut: nat,             // at the kernel, CQE to come
    recvOut: bool,
    submitted: seq<Batch>,
    arrivals: seq<nat>,        // tags of the requests received, in order
    log: seq<Sqe>)             // everything submitted, in order

  /** What the receive coroutine gets: by a receive command first if it was suspended, then without blocking. */
  datatype Unit =
    | GotReply(tag: nat)       // a good reply
    | GotData                  // the data of the read replied to, or an error in its place
    | Again                    // -EAGAIN
    | Bad                      // anything else

  datatype Event =
    | Submit
    | Arrive(tag: nat, isRead: bool)
    | SendCqe
    | RecvCqe
    | Background(started: seq<Unit>, resumed: seq<Unit>)

  function Init(depth: nat): State
  {
    State(seq(depth, _ => Idle), [], 0, false, 0, None, false, false, Reply, false, [], true, 0, false, [], [], [])
  }

  predicate Busy(s: State)
  {
    s.chained > 0 && s.active
  }

  /** Start a request: queue its send, linked to whatever follows. */
  function Start(s: State, t: nat, isRead: bool): State
    requires t < |s.reqs|
  {
    s.(reqs := s.reqs[t := Sent(isRead)], inFlight := s.inFlight + 1, sq := s.sq + [Send(t, true)],
       lastSend := Some(|s.sq|), chained := s.chained + 1)
  }

  function HandleIoAsync(s0: State, t: nat, isRead: bool): State
    requires t < |s0.reqs|
  {
    var s := s0.(arrivals := s0.arrivals + [t]);
    if Busy(s) then s.(nextChain := s.nextChain + [t], reqs := s.reqs[t := Deferred(isRead)])
    else Start(s, t, isRead)
  }

  function SendDone(s: State): State
    requires s.chained > 0 && s.sendsOut > 0
  {
    s.(sendsOut := s.sendsOut - 1, chained := s.chained - 1, active := s.active && s.chained > 1)
  }

  function StartAll(s: State, ts: seq<nat>): State
  {
    if ts == [] then s else
    var m, t := StartAll(s, ts[..|ts| - 1]), ts[|ts| - 1];
    if t < |m.reqs| && m.reqs[t].Deferred? then Start(m, t, m.reqs[t].isRead) else m
  }

  function Unlink(s: State): State
  {
    match s.lastSend
    case None => s
    case Some(i) =>
      if i < |s.sq| && s.sq[i].Send? then s.(sq := s.sq[i := s.sq[i].(linked := false)], lastSend := None)
      else s.(lastSend := None)
  }

  function SendBg(s: State): State
  {
    Unlink(if Busy(s) then s else StartAll(s, s.nextChain).(nextChain := []))
  }

  /** A request is answered: its result goes to the driver with the next command for its tag. */
  function Finish(s: State, t: nat): State
    requires t < |s.reqs| && s.inFlight > 0
  {
    s.(reqs := s.reqs[t := Idle], sq := s.sq + [Commit(t)], inFlight := s.inFlight - 1)
  }

  /** The server answers requests it has been sent. */
  predicate Answerable(s: State, t: nat)
  {
    && t < |s.reqs| && s.reqs[t].Sent? && s.inFlight > 0
    && forall i :: 0 <= i < |s.sq| && s.sq[i].Send? ==> s.sq[i].tag != t
  }

  function OneUnit(s: State, u: Unit): Option<State>
  {
    if !s.recvStarted then None else
    match u
    case Again => Some(s)
    case Bad => if s.wait == Reply then Some(s.(recvStarted := false, broke := true)) else None
    case GotReply(t) =>
      if s.wait != Reply || !Answerable(s, t) then None
      else if s.reqs[t].isRead then Some(s.(wait := Data(t)))
      else Some(Finish(s, t))
    case GotData =>
      if !s.wait.Data? || !Answerable(s, s.wait.tag) then None
      else Some(Finish(s, s.wait.tag).(wait := Reply))
  }

  function Units(s: State, us: seq<Unit>): Option<State>
  {
    if us == [] then Some(s) else
    match Units(s, us[..|us| - 1])
    case None => None
    case Some(m) => OneUnit(m, us[|us| - 1])
  }

  /** With nothing more to read the coroutine ends, or queues a receive command and waits. */
  function Pause(s: State): State
  {
    if !s.recvStarted then s
    else if s.wait == Reply && s.inFlight == 0 then s.(recvStarted := false)
    else s.(sq := s.sq + [Recv])
  }

  function RecvLoop(s: State, us: seq<Unit>): Option<State>
  {
    match Units(s, us)
    case None => None
    case Some(m) => Some(Pause(m))
  }

  function RecvBg(s: State, started: seq<Unit>, resumed: seq<Unit>): Option<State>
  {
    var s1 := if s.inFlight > 0 && !s.recvStarted then RecvLoop(s.(recvStarted := true, wait := Reply), started)
              else Some(s);
    match s1
    case None => None
    case Some(m) => if !m.needHandle then s1 else RecvLoop(m.(needHandle := false), resumed)
  }

  function SecondSendBg(s: State): State
  {
    if s.inFlight == 0 && s.nextChain != [] then SendBg(s) else s
  }

  function HandleIoBg(s: State, started: seq<Unit>, resumed: seq<Unit>): Option<State>
  {
    match RecvBg(SendBg(s.(broke := false)), started, resumed)
    case None => None
    case Some(m) =>
      var m1 := SecondSendBg(m);
      Some(m1.(active := m1.active || m1.chained > 0, reaping := false))
  }

  function NumSends(sq: seq<Sqe>): nat
  {
    if sq == [] then 0 else NumSends(sq[..|sq| - 1]) + (if sq[|sq| - 1].Send? then 1 else 0)
  }

  function SubmitRing(s: State): State
  {
    s.(sq := [], reaping := true, sendsOut := s.sendsOut + NumSends(s.sq), recvOut := s.recvOut || Recv in s.sq,
       submitted := s.submitted + [Batch(s.sq, s.sendsOut)], log := s.log + s.sq)
  }

  function Step(s: State, e: Event): Option<State>
  {
    match e
    case Submit => if s.reaping then None else Some(SubmitRing(s))
    case Arrive(t, isRead) =>
      if s.reaping && t < |s.reqs| && s.reqs[t] == Idle then Some(HandleIoAsync(s, t, isRead)) else None
    case SendCqe => if s.reaping && s.sendsOut > 0 && s.chained > 0 then Some(SendDone(s)) else None
    case RecvCqe => if s.reaping && s.recvOut then Some(s.(recvOut := false, needHandle := true)) else None
    case Background(started, resumed) => if s.reaping then HandleIoBg(s, started, resumed) else None
  }

  function Run(depth: nat, es: seq<Event>): Option<State>
  {
    if es == [] then Some(Init(depth)) else
    match Run(depth, es[..|es| - 1])
    case None => None
    case Some(s) => Step(s, es[|es| - 1])
  }

  // ---- the invariant ----

  function CountSent(reqs: seq<Phase>): nat
  {
    if reqs == [] then 0 else CountSent(reqs[..|reqs| - 1]) + (if reqs[|reqs| - 1].Sent? then 1 else 0)
  }

  /** next_chain holds the deferred requests, each once. */
  ghost predicate ChainOk(reqs: seq<Phase>, chain: seq<nat>)
  {
    && (forall i :: 0 <= i < |chain| ==> chain[i] < |reqs| && reqs[chain[i]].Deferred?)
    && (forall i, j :: 0 <= i < j < |chain| ==> chain[i] != chain[j])
    && (forall t :: 0 <= t < |reqs| && reqs[t].Deferred? ==> t in chain)
  }

  /** Prepared sends are of requests in flight, prepared commits of finished ones, each tag once. */
  ghost predicate SqOk(reqs: seq<Phase>, sq: seq<Sqe>)
  {
    && (forall i :: 0 <= i < |sq| && sq[i].Send? ==> sq[i].tag < |reqs| && reqs[sq[i].tag].Sent?)
    && (forall i :: 0 <= i < |sq| && sq[i].Commit? ==> sq[i].tag < |reqs| && reqs[sq[i].tag].Idle?)
    && (forall i, j :: 0 <= i < j < |sq| && !sq[i].Recv? && !sq[j].Recv? ==> sq[i].tag != sq[j].tag)
  }

  /** The sends are one run at the front. */
  ghost predicate SendsFirst(sq: seq<Sqe>)
  {
    forall i :: 0 <= i < |sq| ==> (sq[i].Send? <==> i < NumSends(sq))
  }

  /** The sends are one run at the front, linked on all but the last: the kernel runs them in order. */
  ghost predicate OneChain(sq: seq<Sqe>)
  {
    && SendsFirst(sq)
    && forall i :: 0 <= i < NumSends(sq) && i < |sq| ==> sq[i].Send? && (sq[i].linked <==> i + 1 < NumSends(sq))
  }

  ghost predicate BatchOk(b: Batch)
  {
    OneChain(b.sqes) && (NumSends(b.sqes) > 0 ==> b.sendsBefore == 0)
  }

  ghost predicate Core(s: State)
  {
    && ChainOk(s.reqs, s.nextChain) && SqOk(s.reqs, s.sq)
    && s.inFlight == CountSent(s.reqs)
    && s.chained == s.sendsOut + NumSends(s.sq)
    && (s.active ==> s.chained > 0)
    && (!s.active ==> s.sendsOut == 0)
    && forall i :: 0 <= i < |s.submitted| ==> BatchOk(s.submitted[i])
  }

  /** Only sends so far, all linked, and the last one known. */
  ghost predicate SendsLinked(s: State)
  {
    && (forall i :: 0 <= i < |s.sq| ==> s.sq[i].Send? && s.sq[i].linked)
    && s.lastSend == (if s.sq == [] then None else Some(|s.sq| - 1))
  }

  /** Between a submission and the background call. */
  ghost predicate ReapOk(s: State)
  {
    SendsLinked(s) && (s.active ==> s.sq == [])
  }

  /** From the first half of the background call to the submission. */
  ghost predicate BgOk(s: State)
  {
    && s.lastSend.None? && OneChain(s.sq)
    && (NumSends(s.sq) > 0 ==> s.sendsOut == 0)
    && (s.nextChain != [] ==> s.active && NumSends(s.sq) == 0)
  }

  function CountRecv(sq: seq<Sqe>): nat
  {
    if sq == [] then 0 else CountRecv(sq[..|sq| - 1]) + (if sq[|sq| - 1].Recv? then 1 else 0)
  }

  /** The places a receive command can be; n of them at once. */
  predicate RecvPlaces(s: State, n: nat)
  {
    (if s.needHandle then 1 else 0) + (if s.recvOut then 1 else 0) + CountRecv(s.sq) == n
  }

  /** What the receive coroutine is in the middle of. */
  predicate WaitOk(s: State)
  {
    s.recvStarted ==> s.inFlight > 0 && (s.wait.Data? ==> Answerable(s, s.wait.tag) && s.reqs[s.wait.tag].isRead)
  }

  ghost predicate Inv(s: State)
  {
    && Core(s) && WaitOk(s)
    && RecvPlaces(s, if s.recvStarted then 1 else 0)
    && (if s.reaping then ReapOk(s)
        else BgOk(s) && (s.chained > 0 ==> s.active) && !s.needHandle
             && (!s.broke ==> (s.recvStarted <==> s.inFlight > 0)))
  }

  lemma InitInv(depth: nat)
    ensures Inv(Init(depth))
  {
    NoneSent(Init(depth).reqs);
  }

  lemma {:induction false} NoneSent(reqs: seq<Phase>)
    requires forall t :: 0 <= t < |reqs| ==> reqs[t] == Idle
    ensures CountSent(reqs) == 0
  {
    if reqs != [] {
      NoneSent(reqs[..|reqs| - 1]);
    }
  }

  lemma {:induction false} CountSentUpdate(reqs: seq<Phase>, t: nat, p: Phase)
    requires t < |reqs|
    ensures CountSent(reqs[t := p])
         == CountSent(reqs) - (if reqs[t].Sent? then 1 else 0) + (if p.Sent? then 1 else 0)
  {
    var k := |reqs| - 1;
    if t < k {
      assert reqs[t := p][..k] == reqs[..k][t := p];
      CountSentUpdate(reqs[..k], t, p);
    } else {
      assert reqs[t := p][..k] == reqs[..k];
    }
  }

  lemma SqAppend(sq: seq<Sqe>, e: Sqe)
    ensures NumSends(sq + [e]) == NumSends(sq) + (if e.Send? then 1 else 0)
    ensures CountRecv(sq + [e]) == CountRecv(sq) + (if e.Recv? then 1 else 0)
  {
    assert (sq + [e])[..|sq|] == sq;
  }

  lemma {:induction false} NumSendsBound(sq: seq<Sqe>)
    ensures NumSends(sq) <= |sq|
    ensures (forall i :: 0 <= i < |sq| ==> sq[i].Send?) ==> NumSends(sq) == |sq| && CountRecv(sq) == 0
    ensures CountRecv(sq) == 0 <==> Recv !in sq
  {
    if sq != [] {
      NumSendsBound(sq[..|sq| - 1]);
      assert sq == sq[..|sq| - 1] + [sq[|sq| - 1]];
    }
  }

  // ---- starting requests ----

  ghost predicate Counts(s: State)
  {
    s.inFlight == CountSent(s.reqs) && s.chained == s.sendsOut + NumSends(s.sq)
  }

  lemma StartKeeps(s: State, t: nat, isRead: bool)
    requires t < |s.reqs| && !s.reqs[t].Sent? && SqOk(s.reqs, s.sq) && SendsLinked(s) && Counts(s)
    ensures var s' := Start(s, t, isRead); SqOk(s'.reqs, s'.sq) && SendsLinked(s') && Counts(s')
    ensures CountRecv(Start(s, t, isRead).sq) == CountRecv(s.sq)
  {
    CountSentUpdate(s.reqs, t, Sent(isRead));
    SqAppend(s.sq, Send(t, true));
  }

  /** Another request joins the chain and the receive coroutine's own request stays answerable. */
  lemma StartKeepsWait(s: State, t: nat, isRead: bool, u: nat)
    requires t < |s.reqs| && !s.reqs[t].Sent? && Answerable(s, u)
    ensures Answerable(Start(s, t, isRead), u) && Start(s, t, isRead).reqs[u] == s.reqs[u]
  {
  }

  lemma DeferKeepsInv(s: State, t: nat, isRead: bool)
    requires Inv(s) && s.reaping && t < |s.reqs| && s.reqs[t] == Idle && Busy(s)
    ensures Inv(HandleIoAsync(s, t, isRead))
  {
    hide NumSends, CountSent, CountRecv, BatchOk;
    CountSentUpdate(s.reqs, t, Deferred(isRead));
    assert t !in s.nextChain;
    assert ChainOk(s.reqs[t := Deferred(isRead)], s.nextChain + [t]);
  }

  lemma ImmediateKeepsInv(s: State, t: nat, isRead: bool)
    requires Inv(s) && s.reaping && t < |s.reqs| && s.reqs[t] == Idle && !Busy(s)
    ensures Inv(HandleIoAsync(s, t, isRead))
  {
    hide NumSends, CountSent, CountRecv, BatchOk;
    StartKeeps(s, t, isRead);
    if s.recvStarted && s.wait.Data? {
      StartKeepsWait(s, t, isRead, s.wait.tag);
    }
    hide SqOk, SendsLinked, Answerable;
    assert ChainOk(s.reqs[t := Sent(isRead)], s.nextChain);
  }

  // ---- completions ----

  lemma SendDoneKeepsInv(s: State)
    requires Inv(s) && Step(s, SendCqe).Some?
    ensures Inv(Step(s, SendCqe).value)
  {
    hide CountSent, CountRecv, BatchOk, ChainOk, SqOk;
    NumSendsBound(s.sq);
  }

  lemma RecvCqeKeepsInv(s: State)
    requires Inv(s) && Step(s, RecvCqe).Some?
    ensures Inv(Step(s, RecvCqe).value)
  {
    hide NumSends, CountSent, CountRecv, BatchOk, ChainOk, SqOk;
  }

  lemma SubmitKeepsInv(s: State)
    requires Inv(s) && Step(s, Submit).Some?
    ensures Inv(Step(s, Submit).value)
  {
    hide CountSent, ChainOk;
    NumSendsBound(s.sq);
    assert BatchOk(Batch(s.sq, s.sendsOut));
  }

  // ---- the background call ----

  /** While a chain is being started: what is left of it, and what has been queued. */
  ghost predicate Starting(s: State, rest: seq<nat>)
  {
    && ChainOk(s.reqs, rest) && SqOk(s.reqs, s.sq) && SendsLinked(s) && Counts(s) && CountRecv(s.sq) == 0
    && (s.recvStarted && s.wait.Data? ==> Answerable(s, s.wait.tag) && s.reqs[s.wait.tag].isRead)
  }

  lemma StartNext(s: State, rest: seq<nat>)
    requires rest != [] && Starting(s, rest)
    ensures rest[0] < |s.reqs| && s.reqs[rest[0]].Deferred?
    ensures Starting(Start(s, rest[0], s.reqs[rest[0]].isRead), rest[1..])
  {
    hide NumSends, CountSent, CountRecv;
    var t := rest[0];
    var isRead := s.reqs[t].isRead;
    StartKeeps(s, t, isRead);
    if s.recvStarted && s.wait.Data? {
      StartKeepsWait(s, t, isRead, s.wait.tag);
    }
    hide SqOk, SendsLinked, Answerable;
    ChainOkRest(s.reqs, rest, Sent(isRead));
  }

  lemma ChainOkRest(reqs: seq<Phase>, chain: seq<nat>, p: Phase)
    requires chain != [] && ChainOk(reqs, chain) && !p.Deferred?
    ensures ChainOk(reqs[chain[0] := p], chain[1..])
  {
    var reqs' := reqs[chain[0] := p];
    forall t | 0 <= t < |reqs'| && reqs'[t].Deferred? ensures t in chain[1..] {
      var i :| 0 <= i < |chain| && chain[i] == t;
      assert chain[1..][i - 1] == t;
    }
  }

  /** What starting requests leaves alone. */
  predicate SameElse(s: State, m: State)
  {
    && |m.reqs| == |s.reqs|
    && m == s.(reqs := m.reqs, inFlight := m.inFlight, sq := m.sq, lastSend := m.lastSend, chained := m.chained)
    && s.inFlight <= m.inFlight
  }

  lemma {:induction false} StartAllKeeps(s: State, chain: seq<nat>, k: nat)
    requires Starting(s, chain) && k <= |chain|
    ensures Starting(StartAll(s, chain[..k]), chain[k..]) && SameElse(s, StartAll(s, chain[..k]))
  {
    hide Starting;
    if k == 0 {
      assert chain[..0] == [] && chain[0..] == chain;
    } else {
      StartAllKeeps(s, chain, k - 1);
      var m := StartAll(s, chain[..k - 1]);
      assert chain[..k][..k - 1] == chain[..k - 1];
      assert chain[k - 1..][0] == chain[k - 1] && chain[k - 1..][1..] == chain[k..];
      StartNext(m, chain[k - 1..]);
    }
  }

  /** Taking the link off the last send makes the queued sends one chain. */
  lemma UnlinkMakesOneChain(s: State)
    requires SendsLinked(s) && SqOk(s.reqs, s.sq) && Counts(s)
    ensures var u := Unlink(s);
            && u == s.(sq := u.sq, lastSend := None) && OneChain(u.sq) && SqOk(u.reqs, u.sq) && Counts(u)
            && |u.sq| == |s.sq| && (forall i :: 0 <= i < |u.sq| ==> u.sq[i].Send? && u.sq[i].tag == s.sq[i].tag)
            && CountRecv(u.sq) == CountRecv(s.sq) == 0 && NumSends(u.sq) == |u.sq|
  {
    NumSendsBound(s.sq);
    NumSendsBound(Unlink(s).sq);
  }

  /** After the first half of the background call. */
  ghost predicate Mid(s: State)
  {
    && Core(s) && BgOk(s) && CountRecv(s.sq) == 0
    && (s.recvStarted && s.wait.Data? ==> Answerable(s, s.wait.tag) && s.reqs[s.wait.tag].isRead)
  }

  lemma SendBgBusy(s: State)
    requires Inv(s) && s.reaping && Busy(s)
    ensures Mid(SendBg(s)) && SendBg(s) == s
  {
    hide CountSent, BatchOk, ChainOk, SqOk;
    NumSendsBound(s.sq);
  }

  ghost predicate BatchesOk(s: State)
  {
    forall i :: 0 <= i < |s.submitted| ==> BatchOk(s.submitted[i])
  }

  lemma IdleStarting(s: State)
    requires Inv(s) && s.reaping && !Busy(s)
    ensures Starting(s, s.nextChain) && !s.active && s.sendsOut == 0 && BatchesOk(s)
  {
    hide CountSent, BatchOk, ChainOk, SqOk, NumSends;
    NumSendsBound(s.sq);
  }

  lemma UnlinkStarted(m: State)
    requires Starting(m, []) && m.nextChain == [] && !m.active && m.sendsOut == 0 && BatchesOk(m)
    ensures Mid(Unlink(m)) && Unlink(m) == m.(sq := Unlink(m).sq, lastSend := None)
  {
    hide CountSent, BatchOk, ChainOk, SqOk, NumSends, CountRecv, Answerable, OneChain, Unlink;
    UnlinkMakesOneChain(m);
    if m.recvStarted && m.wait.Data? {
      AnswerableUnlinked(m, Unlink(m), m.wait.tag);
    }
  }

  lemma StartingSame(m: State, m1: State, rest: seq<nat>)
    requires Starting(m, rest) && m1 == m.(nextChain := m1.nextChain)
    ensures Starting(m1, rest)
  {
    hide CountSent, ChainOk, SqOk, NumSends, CountRecv;
  }

  lemma SendBgIdle(s: State)
    requires Inv(s) && s.reaping && !Busy(s)
    ensures Mid(SendBg(s)) && SendBg(s).nextChain == []
    ensures SameElse(s.(nextChain := []), SendBg(s))
  {
    IdleStarting(s);
    hide Inv, Starting, Mid, StartAll, Unlink, BatchOk;
    var k := |s.nextChain|;
    StartAllKeeps(s, s.nextChain, k);
    assert s.nextChain[..k] == s.nextChain && s.nextChain[k..] == [];
    var m := StartAll(s, s.nextChain);
    var m1 := m.(nextChain := []);
    StartingSame(m, m1, []);
    UnlinkStarted(m1);
  }

  lemma AnswerableUnlinked(m: State, u: State, t: nat)
    requires u == m.(sq := u.sq, lastSend := None) && |u.sq| == |m.sq| && Answerable(m, t)
    requires forall i :: 0 <= i < |u.sq| ==> u.sq[i].Send? && m.sq[i].Send? && u.sq[i].tag == m.sq[i].tag
    ensures Answerable(u, t)
  {
  }

  // ---- the receive loop ----

  /** Inside the receive loop: no receive command anywhere. */
  ghost predicate LoopOk(s: State)
  {
    && Mid(s) && !s.needHandle && !s.recvOut && s.reaping
    && (!s.recvStarted ==> s.broke)
  }

  lemma AppendKeepsOneChain(sq: seq<Sqe>, e: Sqe)
    requires OneChain(sq) && !e.Send?
    ensures OneChain(sq + [e]) && NumSends(sq + [e]) == NumSends(sq)
  {
    SqAppend(sq, e);
    NumSendsBound(sq);
  }

  lemma FinishKeeps(s: State, t: nat)
    requires Core(s) && BgOk(s) && Answerable(s, t)
    ensures Core(Finish(s, t)) && BgOk(Finish(s, t)) && CountRecv(Finish(s, t).sq) == CountRecv(s.sq)
  {
    hide CountSent, NumSends, BatchOk, CountRecv, OneChain;
    AppendKeepsOneChain(s.sq, Commit(t));
    SqAppend(s.sq, Commit(t));
    CountSentUpdate(s.reqs, t, Idle);
    FinishKeepsSq(s.reqs, s.sq, t);
    hide SqOk;
    assert ChainOk(s.reqs[t := Idle], s.nextChain);
  }

  lemma FinishKeepsSq(reqs: seq<Phase>, sq: seq<Sqe>, t: nat)
    requires SqOk(reqs, sq) && t < |reqs| && reqs[t].Sent?
    requires forall i :: 0 <= i < |sq| && sq[i].Send? ==> sq[i].tag != t
    ensures SqOk(reqs[t := Idle], sq + [Commit(t)])
  {
  }

  lemma OneUnitKeeps(s: State, u: Unit)
    requires LoopOk(s) && OneUnit(s, u).Some?
    ensures LoopOk(OneUnit(s, u).value)
    ensures |OneUnit(s, u).value.reqs| == |s.reqs|
    ensures s.broke ==> OneUnit(s, u).value.broke
    ensures !u.Bad? ==> OneUnit(s, u).value.broke == s.broke
    ensures OneUnit(s, u).value.nextChain == s.nextChain
  {
    hide Core, BgOk, CountRecv;
    match u
    case Again =>
    case Bad => BackgroundFlags(s, OneUnit(s, u).value);
    case GotReply(t) =>
      if s.reqs[t].isRead {
        BackgroundFlags(s, OneUnit(s, u).value);
      } else {
        FinishKeeps(s, t);
      }
    case GotData =>
      var f := Finish(s, s.wait.tag);
      FinishKeeps(s, s.wait.tag);
      BackgroundFlags(f, f.(wait := Reply));
  }

  /** The flags of the receive side have no part in the send side's invariant. */
  lemma BackgroundFlags(s: State, m: State)
    requires m == s.(recvStarted := m.recvStarted, needHandle := m.needHandle, wait := m.wait, broke := m.broke,
                     recvOut := m.recvOut, reaping := m.reaping)
    ensures Core(s) ==> Core(m)
    ensures BgOk(s) ==> BgOk(m)
    ensures forall t :: Answerable(s, t) <==> Answerable(m, t)
  {
    hide CountSent, NumSends, BatchOk, CountRecv, OneChain, SqOk, ChainOk;
  }

  lemma {:induction false} UnitsKeep(s: State, us: seq<Unit>)
    requires LoopOk(s) && Units(s, us).Some?
    ensures LoopOk(Units(s, us).value) && |Units(s, us).value.reqs| == |s.reqs|
    ensures Units(s, us).value.nextChain == s.nextChain
    ensures Bad !in us ==> Units(s, us).value.broke == s.broke
  {
    hide LoopOk, OneUnit;
    if us != [] {
      var k := |us| - 1;
      UnitsKeep(s, us[..k]);
      OneUnitKeeps(Units(s, us[..k]).value, us[k]);
      assert us[k] in us;
      assert forall u :: u in us[..k] ==> u in us;
    }
  }

  /** Once the receive loop has paused or ended. */
  ghost predicate Received(s: State)
  {
    && Core(s) && BgOk(s) && WaitOk(s) && s.reaping && !s.needHandle
    && RecvPlaces(s, if s.recvStarted then 1 else 0)
    && (!s.broke ==> (s.recvStarted <==> s.inFlight > 0))
  }

  lemma PauseKeeps(s: State)
    requires LoopOk(s)
    ensures Received(Pause(s)) && Pause(s).broke == s.broke && |Pause(s).reqs| == |s.reqs|
    ensures Pause(s).nextChain == s.nextChain
  {
    hide CountSent, NumSends, BatchOk, CountRecv, OneChain, ChainOk;
    if s.recvStarted && !(s.wait == Reply && s.inFlight == 0) {
      AppendKeepsOneChain(s.sq, Recv);
      SqAppend(s.sq, Recv);
    }
  }

  lemma RecvLoopKeeps(s: State, us: seq<Unit>)
    requires LoopOk(s) && RecvLoop(s, us).Some?
    ensures var m := RecvLoop(s, us).value;
            && Received(m) && |m.reqs| == |s.reqs| && m.nextChain == s.nextChain
            && (Bad !in us ==> m.broke == s.broke)
  {
    hide LoopOk, Units, Pause, Received;
    UnitsKeep(s, us);
    PauseKeeps(Units(s, us).value);
  }

  /** Before the second half of the background call. */
  ghost predicate Ready(s: State)
  {
    && Mid(s) && s.reaping && !s.broke
    && (s.recvStarted ==> s.inFlight > 0)
    && (if s.needHandle then 1 else 0) + (if s.recvOut then 1 else 0) == (if s.recvStarted then 1 else 0)
  }

  lemma RecvBgKeeps(s: State, started: seq<Unit>, resumed: seq<Unit>)
    requires Ready(s) && RecvBg(s, started, resumed).Some?
    ensures var m := RecvBg(s, started, resumed).value;
            && Received(m) && |m.reqs| == |s.reqs| && m.nextChain == s.nextChain
            && (Bad !in started && Bad !in resumed ==> !m.broke)
  {
    hide Core, BgOk, CountRecv, RecvLoop, Answerable;
    if s.inFlight > 0 && !s.recvStarted {
      var m := s.(recvStarted := true, wait := Reply);
      BackgroundFlags(s, m);
      RecvLoopKeeps(m, started);
    } else if s.needHandle {
      var m := s.(needHandle := false);
      BackgroundFlags(s, m);
      RecvLoopKeeps(m, resumed);
    }
  }

  /** The second attempt to start deferred requests starts none: they wait for a chain at the kernel. */
  lemma SecondSendBgIsNoOp(s: State)
    requires Core(s) && BgOk(s)
    ensures SecondSendBg(s) == s
  {
  }

  lemma SendBgReady(s: State)
    requires Inv(s) && s.reaping
    ensures Ready(SendBg(s.(broke := false))) && |SendBg(s.(broke := false)).reqs| == |s.reqs|
  {
    hide Core, BgOk, CountRecv, Mid, ReapOk, SendBg, Answerable;
    var m := s.(broke := false);
    BrokeIrrelevant(s, m);
    hide Inv;
    RecvSide(m);
    if Busy(m) {
      SendBgBusy(m);
    } else {
      SendBgIdle(m);
    }
  }

  lemma BrokeIrrelevant(s: State, m: State)
    requires Inv(s) && s.reaping && m == s.(broke := false)
    ensures Inv(m)
  {
    hide CountSent, NumSends, BatchOk, CountRecv, SqOk, ChainOk;
  }

  lemma RecvSide(s: State)
    requires Inv(s) && s.reaping
    ensures s.recvStarted ==> s.inFlight > 0
    ensures (if s.needHandle then 1 else 0) + (if s.recvOut then 1 else 0) == (if s.recvStarted then 1 else 0)
  {
    hide Core;
    NumSendsBound(s.sq);
  }

  lemma BackgroundKeepsInv(s: State, started: seq<Unit>, resumed: seq<Unit>)
    requires Inv(s) && s.reaping && HandleIoBg(s, started, resumed).Some?
    ensures var m := HandleIoBg(s, started, resumed).value;
            && Inv(m) && |m.reqs| == |s.reqs|
            && (Bad !in started && Bad !in resumed ==> !m.broke)
  {
    hide Inv, Ready, SendBg, RecvBg, Received, Core, BgOk;
    var m0 := SendBg(s.(broke := false));
    SendBgReady(s);
    RecvBgKeeps(m0, started, resumed);
    var m := RecvBg(m0, started, resumed).value;
    ReceivedParts(m);
    SecondSendBgIsNoOp(m);
    ActivateKeeps(m);
  }

  lemma ReceivedParts(s: State)
    requires Received(s)
    ensures Core(s) && BgOk(s)
  {
  }

  lemma ActivateKeeps(m: State)
    requires Received(m)
    ensures Inv(m.(active := m.active || m.chained > 0, reaping := false))
  {
    hide CountSent, NumSends, BatchOk, CountRecv, SqOk, ChainOk, OneChain;
  }

  lemma StepKeepsInv(s: State, e: Event)
    requires Inv(s) && Step(s, e).Some?
    ensures Inv(Step(s, e).value) && |Step(s, e).value.reqs| == |s.reqs|
  {
    hide Inv, HandleIoBg;
    match e
    case Submit => SubmitKeepsInv(s);
    case Arrive(t, isRead) =>
      if Busy(s) {
        DeferKeepsInv(s, t, isRead);
      } else {
        ImmediateKeepsInv(s, t, isRead);
      }
    case SendCqe => SendDoneKeepsInv(s);
    case RecvCqe => RecvCqeKeepsInv(s);
    case Background(started, resumed) => BackgroundKeepsInv(s, started, resumed);
  }

  lemma {:induction false} RunKeepsInv(depth: nat, es: seq<Event>)
    requires Run(depth, es).Some?
    ensures Inv(Run(depth, es).value) && |Run(depth, es).value.reqs| == depth
  {
    hide Inv, Step;
    if es == [] {
      InitInv(depth);
    } else {
      RunKeepsInv(depth, es[..|es| - 1]);
      StepKeepsInv(Run(depth, es[..|es| - 1]).value, es[|es| - 1]);
    }
  }

  lemma RunExtend(depth: nat, es: seq<Event>, s: State, e: Event)
    requires Run(depth, es) == Some(s)
    ensures Run(depth, es + [e]) == Step(s, e)
  {
    assert (es + [e])[..|es|] == es;
  }

  // ---- results ----

  /**
  Sends never interleave on the stream socket: in every submission of every run they are one run of
  entries with nothing between them, linked on all but the last, and no send of an earlier
  submission is still without its CQE.
  */
  lemma SendsNeverInterleave(depth: nat, es: seq<Event>, k: nat)
    requires Run(depth, es).Some? && k < |Run(depth, es).value.submitted|
    ensures var b := Run(depth, es).value.submitted[k];
            && (forall i :: 0 <= i < |b.sqes| ==> (b.sqes[i].Send? <==> i < NumSends(b.sqes)))
            && (forall i :: 0 <= i < |b.sqes| && b.sqes[i].Send? ==> (b.sqes[i].linked <==> i + 1 < NumSends(b.sqes)))
            && (NumSends(b.sqes) > 0 ==> b.sendsBefore == 0)
  {
    RunKeepsInv(depth, es);
    assert BatchOk(Run(depth, es).value.submitted[k]);
  }

  function Tagged(sq: seq<Sqe>): seq<nat>
  {
    if sq == [] then [] else
    Tagged(sq[..|sq| - 1]) + (if sq[|sq| - 1].Recv? then [] else [sq[|sq| - 1].tag])
  }

  lemma {:induction false} TaggedFacts(reqs: seq<Phase>, sq: seq<Sqe>)
    requires SqOk(reqs, sq)
    ensures |sq| == |Tagged(sq)| + CountRecv(sq)
    ensures forall t :: t in Tagged(sq) ==> exists i :: 0 <= i < |sq| && !sq[i].Recv? && sq[i].tag == t
    ensures DistinctBelow(multiset(Tagged(sq)), |reqs|)
  {
    if sq != [] {
      var front, e := sq[..|sq| - 1], sq[|sq| - 1];
      TaggedFacts(reqs, front);
      if !e.Recv? {
        assert e.tag !in Tagged(front);
        assert multiset(Tagged(sq)) == multiset(Tagged(front)) + multiset{e.tag};
      }
      forall t | t in Tagged(sq) ensures exists i :: 0 <= i < |sq| && !sq[i].Recv? && sq[i].tag == t {
        if t in Tagged(front) {
          var i :| 0 <= i < |front| && !front[i].Recv? && front[i].tag == t;
          assert sq[i] == front[i];
        } else {
          assert sq[|sq| - 1].tag == t;
        }
      }
    }
  }

  /** A ring of depth + 1 entries never fills up, so no allocation ever submits half a chain. */
  lemma RingNeverFills(depth: nat, es: seq<Event>)
    requires Run(depth, es).Some?
    ensures |Run(depth, es).value.sq| <= depth + 1
  {
    RunKeepsInv(depth, es);
    var s := Run(depth, es).value;
    TaggedFacts(s.reqs, s.sq);
    Pigeonhole(multiset(Tagged(s.sq)), depth);
  }

  /**
  No deferred request is stranded: after every background call, if a request is deferred then it is in
  next_chain, the chain at the kernel is active, and at least one of its CQEs is still to come.
  */
  lemma DeferredWaitForChain(depth: nat, es: seq<Event>, t: nat)
    requires Run(depth, es).Some? && !Run(depth, es).value.reaping && t < depth
    ensures |Run(depth, es).value.reqs| == depth
    ensures var s := Run(depth, es).value;
            s.reqs[t].Deferred? ==> t in s.nextChain && Busy(s) && s.sendsOut > 0
  {
    RunKeepsInv(depth, es);
  }

  /** Once the last of those CQEs has been reaped, the next background call starts every deferred request. */
  lemma DeferredStartWhenChainIsDone(depth: nat, es: seq<Event>, started: seq<Unit>, resumed: seq<Unit>, t: nat)
    requires Run(depth, es).Some? && Run(depth, es).value.sendsOut == 0 && t < depth
    requires Step(Run(depth, es).value, Background(started, resumed)).Some?
    ensures var s' := Step(Run(depth, es).value, Background(started, resumed)).value;
            |s'.reqs| == depth && s'.nextChain == [] && !s'.reqs[t].Deferred?
  {
    RunKeepsInv(depth, es);
    var s := Run(depth, es).value;
    var s' := Step(s, Background(started, resumed)).value;
    BackgroundKeepsInv(s, started, resumed);
    BackgroundNextChain(s, started, resumed);
  }

  lemma BackgroundNextChain(s: State, started: seq<Unit>, resumed: seq<Unit>)
    requires Inv(s) && s.reaping && s.sendsOut == 0 && HandleIoBg(s, started, resumed).Some?
    ensures HandleIoBg(s, started, resumed).value.nextChain == []
  {
    var m := s.(broke := false);
    BrokeIrrelevant(s, m);
    NotBusy(m);
    SendBgIdle(m);
    SendBgReady(s);
    hide Inv, Ready, SendBg, RecvBg, Received, Core, BgOk, Mid;
    RecvBgKeeps(SendBg(m), started, resumed);
  }

  lemma NotBusy(s: State)
    requires Inv(s) && s.reaping && s.sendsOut == 0
    ensures !Busy(s)
  {
  }

  /**
  In every background call of every run, the second attempt to start deferred requests changes
  nothing, and the warning about a possible hang is never reached.
  */
  lemma HangRiskUnreachable(depth: nat, es: seq<Event>, started: seq<Unit>, resumed: seq<Unit>)
    requires Run(depth, es).Some? && Run(depth, es).value.reaping
    requires RecvBg(SendBg(Run(depth, es).value.(broke := false)), started, resumed).Some?
    ensures var m := RecvBg(SendBg(Run(depth, es).value.(broke := false)), started, resumed).value;
            SecondSendBg(m) == m && !(!m.recvStarted && !Busy(m) && m.nextChain != [])
  {
    hide Run, Ready, SendBg, RecvBg, Received;
    RunKeepsInv(depth, es);
    var s := Run(depth, es).value;
    hide Inv;
    SendBgReady(s);
    var m0 := SendBg(s.(broke := false));
    RecvBgKeeps(m0, started, resumed);
    var m := RecvBg(m0, started, resumed).value;
    ReceivedParts(m);
    SecondSendBgIsNoOp(m);
    NoHang(m);
  }

  lemma NoHang(s: State)
    requires Core(s) && BgOk(s)
    ensures !(!Busy(s) && s.nextChain != [])
  {
  }

  /** A receive completion never finds the one slot for it taken, and the coroutine to resume is there. */
  lemma RecvSlotIsFree(depth: nat, es: seq<Event>)
    requires Run(depth, es).Some?
    ensures var s := Run(depth, es).value; s.recvOut ==> !s.needHandle && s.recvStarted
  {
    RunKeepsInv(depth, es);
  }

  /** The receive coroutine runs exactly while requests are in flight, unless it has just left by an error. */
  lemma RecvRunsWhileInFlight(depth: nat, es: seq<Event>)
    requires Run(depth, es).Some? && !Run(depth, es).value.reaping && !Run(depth, es).value.broke
    ensures var s := Run(depth, es).value; s.recvStarted <==> exists t :: 0 <= t < |s.reqs| && s.reqs[t].Sent?
  {
    RunKeepsInv(depth, es);
    SentSomewhere(Run(depth, es).value.reqs);
  }

  lemma {:induction false} SentSomewhere(reqs: seq<Phase>)
    ensures CountSent(reqs) > 0 <==> exists t :: 0 <= t < |reqs| && reqs[t].Sent?
  {
    if reqs != [] {
      var k := |reqs| - 1;
      SentSomewhere(reqs[..k]);
      if t :| 0 <= t < |reqs| && reqs[t].Sent? {
        assert t < k ==> reqs[..k][t].Sent?;
      }
    }
  }

  /** A background call without a bad reply leaves the receive loop in order. */
  lemma GoodRepliesKeepLoop(depth: nat, es: seq<Event>, started: seq<Unit>, resumed: seq<Unit>)
    requires Run(depth, es + [Background(started, resumed)]).Some? && Bad !in started && Bad !in resumed
    ensures !Run(depth, es + [Background(started, resumed)]).value.broke
  {
    assert (es + [Background(started, resumed)])[..|es|] == es;
    RunKeepsInv(depth, es);
    BackgroundKeepsInv(Run(depth, es).value, started, resumed);
  }

  /** The run goes on with an enabled event. */
  lemma Extended(depth: nat, es: seq<Event>, e: Event) returns (s: State)
    requires Run(depth, es).Some? && Step(Run(depth, es).value, e).Some?
    ensures Run(depth, es + [e]) == Some(s) == Step(Run(depth, es).value, e)
  {
    RunExtend(depth, es, Run(depth, es).value, e);
    s := Step(Run(depth, es).value, e).value;
  }

  /** One send of a queue of two: queued, prepared with a receive command behind it, at the kernel. */
  predicate OneQueued(s: State)
  {
    && |s.reqs| == 2 && s.reqs[1] == Idle && s.nextChain == [] && s.reaping && s.sendsOut == 0
    && s.chained == 1 && !s.active && s.inFlight == 1 && s.sq == [Send(0, true)] && s.lastSend == Some(0)
    && !s.recvStarted && !s.needHandle
  }

  predicate OnePrepared(s: State)
  {
    && |s.reqs| == 2 && s.reqs[1] == Idle && s.nextChain == [] && !s.reaping && s.sendsOut == 0
    && s.chained == 1 && s.active && s.sq == [Send(0, false), Recv]
  }

  predicate OneAtKernel(s: State)
  {
    && |s.reqs| == 2 && s.reqs[1] == Idle && s.nextChain == [] && s.reaping && s.sendsOut == 1
    && s.chained == 1 && s.active
  }

  lemma QueueOne()
    ensures Step(Init(2), Arrive(0, false)).Some? && OneQueued(Step(Init(2), Arrive(0, false)).value)
  {
  }

  lemma PrepareOne(s: State)
    requires OneQueued(s)
    ensures Step(s, Background([], [])).Some? && OnePrepared(Step(s, Background([], [])).value)
  {
    var m := SendBg(s.(broke := false));
    assert m.sq == [Send(0, false)] && m.inFlight == 1 && !m.recvStarted;
    assert m.sq + [Recv] == [Send(0, false), Recv];
    assert RecvBg(m, [], []) == Some(m.(recvStarted := true, wait := Reply, sq := m.sq + [Recv]));
  }

  lemma SubmitOne(s: State)
    requires OnePrepared(s)
    ensures Step(s, Submit).Some? && OneAtKernel(Step(s, Submit).value)
  {
    SqAppend([Send(0, false)], Recv);
    SqAppend([], Send(0, false));
    assert [Send(0, false)] + [Recv] == s.sq && [] + [Send(0, false)] == [Send(0, false)];
  }

  lemma DeferOne(s: State)
    requires OneAtKernel(s)
    ensures Step(s, Arrive(1, true)).Some?
    ensures var s' := Step(s, Arrive(1, true)).value; s'.reaping && s'.nextChain == [1] && s'.sendsOut == 1
  {
  }

  /** Deferral happens: in this run a request arrives while a send is at the kernel. */
  lemma DeferralHappens() returns (es: seq<Event>)
    ensures Run(2, es).Some? && Run(2, es).value.reaping
    ensures Run(2, es).value.nextChain == [1] && Run(2, es).value.sendsOut == 1
  {
    hide Step, OneQueued, OnePrepared, OneAtKernel;
    es := [];
    QueueOne();
    var s := Extended(2, es, Arrive(0, false));
    es := es + [Arrive(0, false)];
    PrepareOne(s);
    s := Extended(2, es, Background([], []));
    es := es + [Background([], [])];
    SubmitOne(s);
    s := Extended(2, es, Submit);
    es := es + [Submit];
    DeferOne(s);
    s := Extended(2, es, Arrive(1, true));
    es := es + [Arrive(1, true)];
  }
}
