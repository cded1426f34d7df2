/**
Offloading requests from the queue threads to one worker thread, as atomic steps of all of them.
Each access to a shared list under its lock, each read or write of an eventfd, and each decision
between two of these is one step, so every interleaving of the threads is a run here.

A queue thread notes the context in a small batch while it reaps completions and writes the
worker's eventfd afterwards, once per context. The worker drains, resets its eventfd, looks again,
and only then blocks.
*/
module AioProtocol {
  import opened Common

  /** A request of queue qid; serial tells apart the uses of one tag. */
  datatype Req = Req(qid: nat, tag: nat, serial: nat)

  /** A completion handed to ublksrv_complete_io of queue qid. */
  datatype Finish = Finish(qid: nat, tag: nat, req: Req)

  /** The batch holds at most this many contexts; further ones are written to at once. */
  const CTX_BATCH: nat := 3

  /** The context modelled here. Other contexts only take up slots of the batch. */
  const CTX: nat := 0

  datatype Phase = Background | Reaping | Flushing(next: nat)

  datatype Queue = Queue(
    phase: Phase,
    ctxs: seq<nat>,         // contexts noted for a batched write; cleared only when reaping starts
    adding: bool,           // a request is on the submit list, its wakeup not yet arranged
    complete: seq<Req>,     // this queue's completion list
    events: nat,            // this queue's eventfd
    handler: seq<Req>,      // taken off the completion list by the event handler
    armed: bool,            // a poll on the eventfd is at the kernel
    stopping: bool)

  datatype WorkerPc =
    | Wait | Splice | Drain | Recheck | Reap | Complete | SendEvent(qid: nat)

  datatype State = State(
    submit: seq<Req>,           // the shared submit list
    efd: nat,                   // the worker's eventfd
    pc: WorkerPc,
    local: seq<Req>,            // spliced off the submit list, not yet submitted
    inflight: multiset<Req>,    // submitted asynchronously
    done: seq<Req>,             // finished, not yet on a completion list
    queues: seq<Queue>,
    accepted: seq<Req>,         // every request ever put on the submit list
    finished: seq<Finish>)      // every completion ever reported

  datatype Event =
    | BeginReap(q: nat)
    | AddToList(q: nat, req: Req)
    | Register(q: nat)
    | RegisterOther(q: nat, ctx: nat)
    | HandleEvent(q: nat, sqe: bool)     // the poll fires; sqe says whether an entry can be had for the next
    | FinishOne(q: nat)
    | EndReap(q: nat)
    | FlushOne(q: nat)
    | EndFlush(q: nat)
    | Stop(q: nat)
    | Poke(q: nat)                       // the queue's eventfd is written for some other reason
    | Wake
    | SpliceList
    | DrainOne(isDone: bool)
    | ReadEfd
    | LookAgain
    | AsyncDone(req: Req)
    | StartComplete
    | CompleteQueue
    | Notify
    | Block

  function Init(nq: nat): State
  {
    State([], 0, Splice, [], multiset{}, [], seq(nq, _ => Queue(Background, [], false, [], 0, [], true, false)), [], [])
  }

  /** The requests of queue q, in order. */
  function OfQueue(rs: seq<Req>, q: nat): seq<Req>
  {
    if rs == [] then [] else
    (if rs[0].qid == q then [rs[0]] else []) + OfQueue(rs[1..], q)
  }

  /** The requests of all other queues, in order. */
  function OfOthers(rs: seq<Req>, q: nat): seq<Req>
  {
    if rs == [] then [] else
    (if rs[0].qid != q then [rs[0]] else []) + OfOthers(rs[1..], q)
  }

  /** How ublksrv_aio_submit_req arranges the wakeup of the context. */
  function AfterRegister(s: State, q: nat): State
    requires q < |s.queues|
  {
    var qu := s.queues[q];
    if CTX in qu.ctxs then s.(queues := s.queues[q := qu.(adding := false)])
    else if |qu.ctxs| < CTX_BATCH then s.(queues := s.queues[q := qu.(adding := false, ctxs := qu.ctxs + [CTX])])
    else s.(efd := s.efd + 1, queues := s.queues[q := qu.(adding := false)])
  }

  function QueueStep(s: State, e: Event): Option<State>
    requires e.BeginReap? || e.AddToList? || e.Register? || e.RegisterOther? || e.HandleEvent? || e.FinishOne?
          || e.EndReap? || e.FlushOne? || e.EndFlush? || e.Stop? || e.Poke?
  {
    if e.q >= |s.queues| then None else
    var qu := s.queues[e.q];
    match e
    case BeginReap(q) =>
      if qu.phase == Background then Some(s.(queues := s.queues[q := qu.(phase := Reaping, ctxs := [])])) else None
    case AddToList(q, req) =>
      if qu.phase == Reaping && !qu.adding && req.qid == q
      then Some(s.(submit := s.submit + [req], accepted := s.accepted + [req],
                   queues := s.queues[q := qu.(adding := true)]))
      else None
    case Register(q) =>
      if qu.adding then Some(AfterRegister(s, q)) else None
    case RegisterOther(q, ctx) =>
      if qu.phase == Reaping && !qu.adding && ctx != CTX && ctx !in qu.ctxs && |qu.ctxs| < CTX_BATCH
      then Some(s.(queues := s.queues[q := qu.(ctxs := qu.ctxs + [ctx])]))
      else None
    case HandleEvent(q, sqe) =>
      if qu.phase == Reaping && !qu.adding && qu.armed && qu.events > 0 && qu.handler == []
      then Some(s.(queues := s.queues[q := qu.(handler := qu.complete, complete := [], events := 0,
                                               armed := sqe && !qu.stopping)]))
      else None
    case FinishOne(q) =>
      if qu.handler != []
      then Some(s.(finished := s.finished + [Finish(q, qu.handler[0].tag, qu.handler[0])],
                   queues := s.queues[q := qu.(handler := qu.handler[1..])]))
      else None
    case EndReap(q) =>
      if qu.phase == Reaping && !qu.adding && qu.handler == []
      then Some(s.(queues := s.queues[q := qu.(phase := Flushing(0))]))
      else None
    case FlushOne(q) =>
      if qu.phase.Flushing? && qu.phase.next < |qu.ctxs|
      then Some(s.(efd := if qu.ctxs[qu.phase.next] == CTX then s.efd + 1 else s.efd,
                   queues := s.queues[q := qu.(phase := Flushing(qu.phase.next + 1))]))
      else None
    case EndFlush(q) =>
      if qu.phase.Flushing? && qu.phase.next >= |qu.ctxs|
      then Some(s.(queues := s.queues[q := qu.(phase := Background)]))
      else None
    case Stop(q) =>
      if qu.phase == Reaping then Some(s.(queues := s.queues[q := qu.(stopping := true)])) else None
    case Poke(q) => Some(s.(queues := s.queues[q := qu.(events := qu.events + 1)]))
  }

  function WorkerStep(s: State, e: Event): Option<State>
    requires e.Wake? || e.SpliceList? || e.DrainOne? || e.ReadEfd? || e.LookAgain? || e.AsyncDone?
          || e.StartComplete? || e.CompleteQueue? || e.Notify? || e.Block?
  {
    match e
    case Wake => if s.pc == Wait then Some(s.(pc := Splice)) else None
    case SpliceList =>
      if s.pc == Splice then Some(s.(local := s.local + s.submit, submit := [], pc := Drain)) else None
    case DrainOne(isDone) =>
      if s.pc != Drain || s.local == [] then None
      else if isDone then Some(s.(local := s.local[1..], done := s.done + [s.local[0]]))
      else Some(s.(local := s.local[1..], inflight := s.inflight + multiset{s.local[0]}))
    case ReadEfd => if s.pc == Drain && s.local == [] then Some(s.(efd := 0, pc := Recheck)) else None
    case LookAgain =>
      if s.pc == Recheck then Some(s.(pc := if s.submit != [] then Splice else Reap)) else None
    case AsyncDone(req) =>
      if s.pc == Reap && req in s.inflight
      then Some(s.(inflight := s.inflight - multiset{req}, done := s.done + [req]))
      else None
    case StartComplete => if s.pc == Reap then Some(s.(pc := Complete)) else None
    case CompleteQueue =>
      if s.pc != Complete || s.done == [] || s.done[0].qid >= |s.queues| then None else
      var q := s.done[0].qid;
      var qu := s.queues[q];
      Some(s.(done := OfOthers(s.done, q), pc := SendEvent(q),
              queues := s.queues[q := qu.(complete := qu.complete + OfQueue(s.done, q))]))
    case Notify =>
      if !s.pc.SendEvent? || s.pc.qid >= |s.queues| then None else
      var qu := s.queues[s.pc.qid];
      Some(s.(pc := Complete, queues := s.queues[s.pc.qid := qu.(events := qu.events + 1)]))
    case Block => if s.pc == Complete && s.done == [] then Some(s.(pc := Wait)) else None
  }

  predicate ByWorker(e: Event)
  {
    e.Wake? || e.SpliceList? || e.DrainOne? || e.ReadEfd? || e.LookAgain? || e.AsyncDone?
    || e.StartComplete? || e.CompleteQueue? || e.Notify? || e.Block?
  }

  function Step(s: State, e: Event): Option<State>
  {
    if ByWorker(e) then WorkerStep(s, e) else QueueStep(s, e)
  }

  function Run(nq: nat, es: seq<Event>): Option<State>
  {
    if es == [] then Some(Init(nq)) else
    match Run(nq, es[..|es| - 1])
    case None => None
    case Some(s) => Step(s, es[|es| - 1])
  }

  // ---- no lost wakeup ----

  /** The queue thread will still write the worker's eventfd. */
  predicate Owes(qu: Queue)
  {
    || qu.adding
    || (qu.phase.Reaping? && CTX in qu.ctxs)
    || (qu.phase.Flushing? && qu.phase.next <= |qu.ctxs| && CTX in qu.ctxs[qu.phase.next..])
  }

  predicate SomeoneOwes(s: State)
  {
    exists q :: 0 <= q < |s.queues| && Owes(s.queues[q])
  }

  /** The worker will look at the submit list again before it can block. */
  predicate WillLook(pc: WorkerPc)
  {
    pc == Splice || pc == Drain || pc == Recheck
  }

  predicate QueueOk(qu: Queue)
  {
    && (qu.adding ==> qu.phase == Reaping)
    && (qu.phase.Flushing? ==> qu.phase.next <= |qu.ctxs|)
  }

  predicate WakeInv(s: State)
  {
    && (forall q :: 0 <= q < |s.queues| ==> QueueOk(s.queues[q]))
    && (s.submit != [] ==> WillLook(s.pc) || s.efd > 0 || SomeoneOwes(s))
  }

  /** A thread that owed a wakeup still owes it, or has written it. */
  lemma OwesKept(s: State, s': State, q: nat)
    requires |s'.queues| == |s.queues| && q < |s.queues|
    requires forall i :: 0 <= i < |s.queues| && i != q ==> s'.queues[i] == s.queues[i]
    requires Owes(s.queues[q]) ==> Owes(s'.queues[q]) || s'.efd > 0
    requires SomeoneOwes(s)
    ensures SomeoneOwes(s') || s'.efd > 0
  {
    var i :| 0 <= i < |s.queues| && Owes(s.queues[i]);
    assert Owes(s'.queues[i]) || s'.efd > 0;
  }

  /** One step of a queue thread, seen from its own state. */
  lemma QueueStepOwes(s: State, e: Event)
    requires !ByWorker(e) && QueueStep(s, e).Some? && QueueOk(s.queues[e.q])
    ensures var s' := QueueStep(s, e).value;
            && |s'.queues| == |s.queues| && s'.pc == s.pc && s.efd <= s'.efd
            && (forall i :: 0 <= i < |s.queues| && i != e.q ==> s'.queues[i] == s.queues[i])
            && QueueOk(s'.queues[e.q])
            && (Owes(s.queues[e.q]) ==> Owes(s'.queues[e.q]) || s'.efd > 0)
            && (s'.submit != s.submit ==> Owes(s'.queues[e.q]))
  {
    var s' := QueueStep(s, e).value;
    var qu, qu' := s.queues[e.q], s'.queues[e.q];
    if e.FlushOne? {
      var i := qu.phase.next;
      assert qu.ctxs[i..] == [qu.ctxs[i]] + qu.ctxs[i + 1..];
    } else if e.EndReap? {
      assert qu.ctxs[0..] == qu.ctxs;
    }
  }

  /** One step of the worker changes what no queue thread owes. */
  lemma WorkerStepOwes(s: State, e: Event)
    requires ByWorker(e) && WorkerStep(s, e).Some?
    ensures var s' := WorkerStep(s, e).value;
            && |s'.queues| == |s.queues|
            && (forall i :: 0 <= i < |s.queues| ==>
                  Owes(s'.queues[i]) == Owes(s.queues[i]) && QueueOk(s'.queues[i]) == QueueOk(s.queues[i]))
            && (s'.submit == s.submit || s'.submit == [])
            && (s'.efd == s.efd || s'.pc == Recheck)
            && (WillLook(s.pc) && !WillLook(s'.pc) ==> s'.submit == [])
  {
  }

  lemma StepKeepsWakeInv(s: State, e: Event)
    requires WakeInv(s) && Step(s, e).Some?
    ensures WakeInv(Step(s, e).value)
  {
    hide WorkerStep, QueueStep, Owes, QueueOk;
    var s' := Step(s, e).value;
    if ByWorker(e) {
      WorkerStepOwes(s, e);
      if SomeoneOwes(s) {
        var i :| 0 <= i < |s.queues| && Owes(s.queues[i]);
        assert Owes(s'.queues[i]);
      }
    } else {
      QueueInRange(s, e);
      QueueStepOwes(s, e);
      if SomeoneOwes(s) {
        OwesKept(s, s', e.q);
      }
    }
  }

  lemma QueueInRange(s: State, e: Event)
    requires !ByWorker(e) && QueueStep(s, e).Some?
    ensures e.q < |s.queues|
  {
  }

  // ---- no lost completion ----

  /** A request on a completion list has an event pending for it, or the worker is about to send one. */
  predicate EventInv(s: State)
  {
    forall q :: 0 <= q < |s.queues| && s.queues[q].complete != [] ==>
      s.queues[q].events > 0 || s.pc == SendEvent(q)
  }

  lemma StepKeepsEventInv(s: State, e: Event)
    requires EventInv(s) && Step(s, e).Some?
    ensures EventInv(Step(s, e).value)
  {
    hide WorkerStep, QueueStep;
    if ByWorker(e) {
      WorkerKeepsEventInv(s, e);
    } else {
      QueueKeepsEventInv(s, e);
    }
  }

  lemma WorkerKeepsEventInv(s: State, e: Event)
    requires EventInv(s) && ByWorker(e) && WorkerStep(s, e).Some?
    ensures EventInv(WorkerStep(s, e).value)
  {
    hide OfQueue, OfOthers;
  }

  lemma QueueKeepsEventInv(s: State, e: Event)
    requires EventInv(s) && !ByWorker(e) && QueueStep(s, e).Some?
    ensures EventInv(QueueStep(s, e).value)
  {
  }

  predicate AllOf(rs: seq<Req>, q: nat)
  {
    forall r :: r in rs ==> r.qid == q
  }

  predicate FinishedWhereItBelongs(fs: seq<Finish>)
  {
    forall f :: f in fs ==> f.qid == f.req.qid && f.tag == f.req.tag
  }

  predicate RouteInv(s: State)
  {
    && (forall q :: 0 <= q < |s.queues| ==> AllOf(s.queues[q].complete, q) && AllOf(s.queues[q].handler, q))
    && FinishedWhereItBelongs(s.finished)
  }

  lemma {:induction false} OfQueueIsOfQueue(rs: seq<Req>, q: nat)
    ensures AllOf(OfQueue(rs, q), q)
  {
    if rs != [] {
      OfQueueIsOfQueue(rs[1..], q);
    }
  }

  lemma StepKeepsRouteInv(s: State, e: Event)
    requires RouteInv(s) && Step(s, e).Some?
    ensures RouteInv(Step(s, e).value)
  {
    hide QueueStep, WorkerStep;
    if ByWorker(e) {
      WorkerKeepsRouteInv(s, e);
    } else {
      QueueKeepsRouteInv(s, e);
    }
  }

  lemma WorkerKeepsRouteInv(s: State, e: Event)
    requires RouteInv(s) && ByWorker(e) && WorkerStep(s, e).Some?
    ensures RouteInv(WorkerStep(s, e).value)
  {
    hide OfQueue, OfOthers;
    if e.CompleteQueue? {
      OfQueueIsOfQueue(s.done, s.done[0].qid);
    }
  }

  lemma QueueKeepsRouteInv(s: State, e: Event)
    requires RouteInv(s) && !ByWorker(e) && QueueStep(s, e).Some?
    ensures RouteInv(QueueStep(s, e).value)
  {
    hide AllOf, FinishedWhereItBelongs;
    QueueInRange(s, e);
    var s' := QueueStep(s, e).value;
    var qu := s.queues[e.q];
    assert AllOf(qu.complete, e.q) && AllOf(qu.handler, e.q);
    AllOfParts(qu.handler, e.q);
    if e.FinishOne? {
      FinishBelongs(s.finished, qu.handler[0], e.q);
    }
    assert AllOf(s'.queues[e.q].complete, e.q) && AllOf(s'.queues[e.q].handler, e.q);
  }

  lemma AllOfParts(rs: seq<Req>, q: nat)
    requires AllOf(rs, q)
    ensures AllOf([], q)
    ensures rs != [] ==> AllOf(rs[1..], q) && rs[0].qid == q
  {
  }

  lemma FinishBelongs(fs: seq<Finish>, r: Req, q: nat)
    requires FinishedWhereItBelongs(fs) && r.qid == q
    ensures FinishedWhereItBelongs(fs + [Finish(q, r.tag, r)])
  {
  }

  // ---- conservation ----

  /** How often a request occurs on a list. */
  function Count(rs: seq<Req>, r: Req): nat
  {
    multiset(rs)[r]
  }

  function Own(qu: Queue, r: Req): nat
  {
    Count(qu.complete, r) + Count(qu.handler, r)
  }

  function Held(qs: seq<Queue>, r: Req): nat
  {
    if qs == [] then 0 else Own(qs[0], r) + Held(qs[1..], r)
  }

  function Reported(fs: seq<Finish>): seq<Req>
  {
    seq(|fs|, i requires 0 <= i < |fs| => fs[i].req)
  }

  /** How often a request occurs, counted over every place it can be in. */
  function Places(s: State, r: Req): nat
  {
    Count(s.submit, r) + Count(s.local, r) + s.inflight[r] + Count(s.done, r) + Held(s.queues, r)
    + Count(Reported(s.finished), r)
  }

  lemma {:induction false} HeldUpdate(qs: seq<Queue>, i: nat, qu: Queue, r: Req)
    requires i < |qs|
    ensures Held(qs[i := qu], r) + Own(qs[i], r) == Held(qs, r) + Own(qu, r)
  {
    hide Own;
    if i > 0 {
      HeldUpdate(qs[1..], i - 1, qu, r);
      assert qs[i := qu][1..] == qs[1..][i - 1 := qu];
    } else {
      assert qs[i := qu][1..] == qs[1..];
    }
  }

  lemma CountAppend(rs: seq<Req>, x: Req, r: Req)
    ensures Count(rs + [x], r) == Count(rs, r) + Count([x], r)
  {
  }

  lemma CountEmpty(r: Req)
    ensures Count([], r) == 0
  {
  }

  lemma CountInto(m: multiset<Req>, x: Req, r: Req)
    ensures (m + multiset{x})[r] == m[r] + Count([x], r)
  {
  }

  lemma CountConcat(rs: seq<Req>, ts: seq<Req>, r: Req)
    ensures Count(rs + ts, r) == Count(rs, r) + Count(ts, r)
  {
  }

  lemma CountTail(rs: seq<Req>, r: Req)
    requires rs != []
    ensures Count(rs, r) == Count([rs[0]], r) + Count(rs[1..], r)
  {
    assert rs == [rs[0]] + rs[1..];
  }

  /** The partition pass loses and invents nothing. */
  lemma {:induction false} Partition(rs: seq<Req>, q: nat, r: Req)
    ensures Count(OfQueue(rs, q), r) + Count(OfOthers(rs, q), r) == Count(rs, r)
  {
    if rs != [] {
      Partition(rs[1..], q, r);
      CountTail(rs, r);
      CountConcat(if rs[0].qid == q then [rs[0]] else [], OfQueue(rs[1..], q), r);
      CountConcat(if rs[0].qid != q then [rs[0]] else [], OfOthers(rs[1..], q), r);
    }
  }

  lemma QueueStepConserves(s: State, e: Event, r: Req)
    requires !ByWorker(e) && QueueStep(s, e).Some?
    ensures var s' := QueueStep(s, e).value;
            Places(s', r) - Places(s, r) == Count(s'.accepted, r) - Count(s.accepted, r)
  {
    hide Count;
    QueueInRange(s, e);
    var s' := QueueStep(s, e).value;
    var q := e.q;
    HeldUpdate(s.queues, q, s'.queues[q], r);
    assert s'.queues == s.queues[q := s'.queues[q]];
    hide Held;
    if e.FinishOne? {
      var h := s.queues[q].handler;
      CountTail(h, r);
      assert Reported(s'.finished) == Reported(s.finished) + [h[0]];
      CountAppend(Reported(s.finished), h[0], r);
    } else if e.AddToList? {
      CountAppend(s.submit, e.req, r);
      CountAppend(s.accepted, e.req, r);
    } else if e.HandleEvent? {
      CountEmpty(r);
    }
  }

  lemma CompleteStepConserves(s: State, e: Event, r: Req)
    requires (e.CompleteQueue? || e.Notify?) && WorkerStep(s, e).Some?
    ensures Places(WorkerStep(s, e).value, r) == Places(s, r)
  {
    hide Count, Held, Reported, OfQueue, OfOthers;
    var s' := WorkerStep(s, e).value;
    if e.CompleteQueue? {
      var q := s.done[0].qid;
      HeldUpdate(s.queues, q, s'.queues[q], r);
      Partition(s.done, q, r);
      CountConcat(s.queues[q].complete, OfQueue(s.done, q), r);
    } else {
      HeldUpdate(s.queues, s.pc.qid, s'.queues[s.pc.qid], r);
    }
  }

  lemma DrainStepConserves(s: State, e: Event, r: Req)
    requires (e.DrainOne? || e.AsyncDone?) && WorkerStep(s, e).Some?
    ensures Places(WorkerStep(s, e).value, r) == Places(s, r)
  {
    hide Count, Held, Reported;
    var s' := WorkerStep(s, e).value;
    if e.DrainOne? {
      CountTail(s.local, r);
      CountAppend(s.done, s.local[0], r);
      CountInto(s.inflight, s.local[0], r);
    } else {
      CountAppend(s.done, e.req, r);
      CountInto(s'.inflight, e.req, r);
      assert s.inflight == s'.inflight + multiset{e.req};
    }
  }

  lemma WorkerStepConserves(s: State, e: Event, r: Req)
    requires ByWorker(e) && WorkerStep(s, e).Some?
    ensures Places(WorkerStep(s, e).value, r) == Places(s, r)
    ensures WorkerStep(s, e).value.accepted == s.accepted
  {
    if e.CompleteQueue? || e.Notify? {
      CompleteStepConserves(s, e, r);
      hide Places;
    } else if e.DrainOne? || e.AsyncDone? {
      DrainStepConserves(s, e, r);
      hide Places;
    } else {
      hide Count, Held, Reported;
      CountEmpty(r);
      CountConcat(s.local, s.submit, r);
    }
  }

  /** Every request ever accepted is in exactly one place, as often as it was accepted. */
  ghost predicate Conserved(s: State)
  {
    forall r :: Count(s.accepted, r) == Places(s, r)
  }

  lemma StepConserves(s: State, e: Event)
    requires Conserved(s) && Step(s, e).Some?
    ensures Conserved(Step(s, e).value)
  {
    hide Places, Count, WorkerStep, QueueStep;
    forall r ensures Count(Step(s, e).value.accepted, r) == Places(Step(s, e).value, r) {
      if ByWorker(e) {
        WorkerStepConserves(s, e, r);
      } else {
        QueueStepConserves(s, e, r);
      }
    }
  }

  ghost predicate Inv(s: State)
  {
    WakeInv(s) && EventInv(s) && RouteInv(s) && Conserved(s)
  }

  lemma StepKeepsInv(s: State, e: Event)
    requires Inv(s) && Step(s, e).Some?
    ensures Inv(Step(s, e).value) && |Step(s, e).value.queues| == |s.queues|
  {
    hide WakeInv, EventInv, RouteInv, Conserved, WorkerStep, QueueStep, Owes, QueueOk;
    StepKeepsWakeInv(s, e);
    StepKeepsEventInv(s, e);
    StepKeepsRouteInv(s, e);
    StepConserves(s, e);
    if ByWorker(e) {
      WorkerStepOwes(s, e);
    } else {
      SameQueues(s, e);
    }
  }

  lemma SameQueues(s: State, e: Event)
    requires !ByWorker(e) && QueueStep(s, e).Some?
    ensures |QueueStep(s, e).value.queues| == |s.queues|
  {
  }

  lemma {:induction false} HeldEmpty(qs: seq<Queue>, r: Req)
    requires forall q :: 0 <= q < |qs| ==> qs[q].complete == [] && qs[q].handler == []
    ensures Held(qs, r) == 0
  {
    if qs != [] {
      HeldEmpty(qs[1..], r);
    }
  }

  lemma InitInv(nq: nat)
    ensures Inv(Init(nq))
  {
    forall r ensures Count(Init(nq).accepted, r) == Places(Init(nq), r) {
      HeldEmpty(Init(nq).queues, r);
    }
  }

  /** In every interleaving of the queue threads and the worker, all of the above holds. */
  lemma {:induction false} RunKeepsInv(nq: nat, es: seq<Event>)
    requires Run(nq, es).Some?
    ensures Inv(Run(nq, es).value) && |Run(nq, es).value.queues| == nq
  {
    hide Inv, Step;
    if es == [] {
      InitInv(nq);
    } else {
      RunKeepsInv(nq, es[..|es| - 1]);
      StepKeepsInv(Run(nq, es[..|es| - 1]).value, es[|es| - 1]);
    }
  }

  /** The worker never blocks on a silent eventfd while a request waits for it unannounced. */
  lemma NoLostWakeup(nq: nat, es: seq<Event>)
    requires Run(nq, es).Some?
    ensures var s := Run(nq, es).value;
            s.pc == Wait && s.submit != [] && s.efd == 0 ==> SomeoneOwes(s)
  {
    RunKeepsInv(nq, es);
  }

  /** All threads at rest: nothing to wake them and nothing they still have to do. */
  predicate AtRest(s: State)
  {
    && s.pc == Wait && s.efd == 0
    && forall q :: 0 <= q < |s.queues| ==>
         && s.queues[q].phase == Background && s.queues[q].handler == []
         && !(s.queues[q].armed && s.queues[q].events > 0)
  }

  /** The worker has nothing of its own left when it blocks. */
  predicate IdleWorker(s: State)
  {
    && (s.pc != Drain ==> s.local == [])
    && (s.pc == Wait ==> s.done == [])
  }

  lemma {:induction false} RunKeepsIdleWorker(nq: nat, es: seq<Event>)
    requires Run(nq, es).Some?
    ensures IdleWorker(Run(nq, es).value)
  {
    hide Step;
    if es != [] {
      RunKeepsIdleWorker(nq, es[..|es| - 1]);
      StepKeepsIdleWorker(Run(nq, es[..|es| - 1]).value, es[|es| - 1]);
    }
  }

  lemma StepKeepsIdleWorker(s: State, e: Event)
    requires IdleWorker(s) && Step(s, e).Some?
    ensures IdleWorker(Step(s, e).value)
  {
    hide WorkerStep, QueueStep;
    if ByWorker(e) {
      WorkerKeepsIdle(s, e);
    } else {
      QueueKeepsWorker(s, e);
    }
  }

  lemma WorkerKeepsIdle(s: State, e: Event)
    requires IdleWorker(s) && ByWorker(e) && WorkerStep(s, e).Some?
    ensures IdleWorker(WorkerStep(s, e).value)
  {
    hide OfQueue, OfOthers;
  }

  lemma QueueKeepsWorker(s: State, e: Event)
    requires !ByWorker(e) && QueueStep(s, e).Some?
    ensures var s' := QueueStep(s, e).value; s'.pc == s.pc && s'.local == s.local && s'.done == s.done
  {
  }

  /** The requests of queue q are all reported, or still with the submitter. */
  ghost predicate AllReported(s: State, q: nat)
  {
    forall r: Req :: r.qid == q ==> Count(s.accepted, r) == Count(Reported(s.finished), r) + s.inflight[r]
  }

  /**
  Whenever all threads are at rest, every request reported was reported on its own queue under its own
  tag. A queue has had all its requests reported exactly when the poll on its eventfd is armed or its
  completion list is empty: the poll is not armed again by a queue that is stopping or finds no
  submission entry, and nobody looks at the list without it.
  */
  lemma NothingStranded(nq: nat, es: seq<Event>, q: nat)
    requires Run(nq, es).Some? && AtRest(Run(nq, es).value) && q < nq
    ensures var s := Run(nq, es).value;
            && q < |s.queues| && FinishedWhereItBelongs(s.finished)
            && (AllReported(s, q) <==> s.queues[q].armed || s.queues[q].complete == [])
  {
    RunKeepsInv(nq, es);
    RunKeepsIdleWorker(nq, es);
    var s := Run(nq, es).value;
    hide Run, WakeInv, RouteInv, Count, Held, EventInv;
    NobodyOwes(s);
    RouteImplies(s);
    if s.queues[q].armed {
      ArmedIsEmpty(s, q);
    }
    forall r: Req | r.qid == q
      ensures Count(s.accepted, r) == Count(Reported(s.finished), r) + s.inflight[r] + Count(s.queues[q].complete, r)
    {
      HeldByOwnQueue(s, r);
      assert Count(s.accepted, r) == Places(s, r);
      CountEmpty(r);
    }
    if s.queues[q].complete == [] {
      forall r: Req | r.qid == q ensures Count(s.queues[q].complete, r) == 0 {
        CountEmpty(r);
      }
    } else {
      var r := s.queues[q].complete[0];
      OnItsOwnList(s, q);
      CountTail(s.queues[q].complete, r);
      CountSelf(r);
    }
  }

  lemma CountSelf(r: Req)
    ensures Count([r], r) == 1
  {
  }

  lemma OnItsOwnList(s: State, q: nat)
    requires RouteInv(s) && q < |s.queues| && s.queues[q].complete != []
    ensures s.queues[q].complete[0].qid == q
  {
  }

  lemma ArmedIsEmpty(s: State, q: nat)
    requires EventInv(s) && AtRest(s) && q < |s.queues| && s.queues[q].armed
    ensures s.queues[q].complete == []
  {
  }

  /** With no handler running, a request is on no completion list but its own queue's. */
  lemma HeldByOwnQueue(s: State, r: Req)
    requires RouteInv(s) && AtRest(s) && r.qid < |s.queues|
    ensures Held(s.queues, r) == Count(s.queues[r.qid].complete, r)
  {
    var q := r.qid;
    var empty := s.queues[q].(complete := []);
    HeldUpdate(s.queues, q, empty, r);
    var qs := s.queues[q := empty];
    forall p | 0 <= p < |qs| ensures Own(qs[p], r) == 0 {
      if p != q {
        assert AllOf(s.queues[p].complete, p);
      }
    }
    NothingHeld(qs, r);
  }

  lemma {:induction false} NothingHeld(qs: seq<Queue>, r: Req)
    requires forall p :: 0 <= p < |qs| ==> Own(qs[p], r) == 0
    ensures Held(qs, r) == 0
  {
    if qs != [] {
      assert forall p :: 0 <= p < |qs[1..]| ==> qs[1..][p] == qs[p + 1];
      NothingHeld(qs[1..], r);
    }
  }

  lemma RouteImplies(s: State)
    requires RouteInv(s)
    ensures FinishedWhereItBelongs(s.finished)
  {
  }

  lemma NobodyOwes(s: State)
    requires AtRest(s) && WakeInv(s)
    ensures s.submit == []
  {
    forall q | 0 <= q < |s.queues| ensures !Owes(s.queues[q]) {
      assert QueueOk(s.queues[q]);
    }
  }

  // ---- the poll on a queue's eventfd ----

  lemma StepKeepsPollLost(s: State, e: Event, q: nat)
    requires Step(s, e).Some? && q < |s.queues| && !s.queues[q].armed
    ensures var s' := Step(s, e).value;
            |s'.queues| == |s.queues| && !s'.queues[q].armed && s.queues[q].complete <= s'.queues[q].complete
  {
    hide OfQueue, OfOthers;
  }

  /** Once the poll is lost it stays lost, and what is on the completion list stays on it, whatever follows. */
  lemma {:induction false} PollLostIsFinal(nq: nat, es: seq<Event>, fs: seq<Event>, q: nat)
    requires Run(nq, es).Some? && Run(nq, es + fs).Some? && q < |Run(nq, es).value.queues|
    requires !Run(nq, es).value.queues[q].armed
    ensures var s, s' := Run(nq, es).value, Run(nq, es + fs).value;
            && |s'.queues| == |s.queues| && !s'.queues[q].armed && s.queues[q].complete <= s'.queues[q].complete
  {
    hide Step;
    if fs == [] {
      assert es + fs == es;
    } else {
      var k := |fs| - 1;
      assert (es + fs)[..|es| + k] == es + fs[..k];
      PollLostIsFinal(nq, es, fs[..k], q);
      StepKeepsPollLost(Run(nq, es + fs[..k]).value, fs[k], q);
    }
  }

  // ---- a submission outside the reap window ----

  /** A queue thread that runs the submission code while it is not reaping. */
  function SubmitInBackground(s: State, q: nat, req: Req): State
    requires q < |s.queues|
  {
    AfterRegister(s.(submit := s.submit + [req], accepted := s.accepted + [req],
                     queues := s.queues[q := s.queues[q].(adding := true)]), q)
  }

  /**
  The batch is written right after reaping and cleared when reaping starts again, so a request submitted in
  between is announced, at once or later by this thread, exactly when its context finds the batch full
  without it. Whatever the other threads do meanwhile makes no difference.
  */
  lemma BackgroundSubmitIsAnnounced(s: State, q: nat, req: Req)
    requires q < |s.queues| && s.queues[q].phase == Background && QueueOk(s.queues[q])
    ensures var s' := SubmitInBackground(s, q, req);
            && |s'.queues| == |s.queues|
            && (s'.efd > s.efd || Owes(s'.queues[q])
                <==> CTX !in s.queues[q].ctxs && |s.queues[q].ctxs| >= CTX_BATCH)
  {
  }

  /** When the thread next reaps, it has forgotten the context and owes nothing. */
  lemma ReapingForgetsBatch(s: State, q: nat, req: Req)
    requires q < |s.queues| && s.queues[q].phase == Background && QueueOk(s.queues[q])
    ensures var s1 := SubmitInBackground(s, q, req);
            && Step(s1, BeginReap(q)).Some?
            && var s' := Step(s1, BeginReap(q)).value;
               |s'.queues| == |s.queues| && s'.efd == s1.efd && !Owes(s'.queues[q]) && s'.queues[q].ctxs == []
  {
  }

  /** The worker sleeps on a silent eventfd and no thread is going to write it. */
  predicate Unnoticed(s: State)
  {
    && s.pc == Wait && s.efd == 0
    && forall q :: 0 <= q < |s.queues| ==> QueueOk(s.queues[q]) && !Owes(s.queues[q])
  }

  /** The only events that can bring it to the worker's notice: a further request, or a wakeup for another reason. */
  predicate Rouses(e: Event)
  {
    e.AddToList? || e.Wake?
  }

  lemma StepKeepsUnnoticed(s: State, e: Event)
    requires Unnoticed(s) && Step(s, e).Some? && !Rouses(e)
    ensures Unnoticed(Step(s, e).value) && Step(s, e).value.submit == s.submit
  {
    if !ByWorker(e) {
      var qu := s.queues[e.q];
      assert QueueOk(qu) && !Owes(qu);
      if e.FlushOne? {
        var i := qu.phase.next;
        assert qu.ctxs[i..] == [qu.ctxs[i]] + qu.ctxs[i + 1..];
      } else if e.EndReap? {
        assert qu.ctxs[0..] == qu.ctxs;
      }
    }
  }

  function Steps(s: State, es: seq<Event>): Option<State>
  {
    if es == [] then Some(s) else
    match Steps(s, es[..|es| - 1])
    case None => None
    case Some(m) => Step(m, es[|es| - 1])
  }

  /** Until one of those events, it stays unnoticed whatever happens. */
  lemma {:induction false} StaysUnnoticed(s: State, es: seq<Event>)
    requires Unnoticed(s) && Steps(s, es).Some? && forall i :: 0 <= i < |es| ==> !Rouses(es[i])
    ensures Unnoticed(Steps(s, es).value) && Steps(s, es).value.submit == s.submit
  {
    hide Step, Unnoticed;
    if es != [] {
      var k := |es| - 1;
      StaysUnnoticed(s, es[..k]);
      StepKeepsUnnoticed(Steps(s, es[..k]).value, es[k]);
    }
  }

  /**
  A run after which a submission in the background is lost, the first one a fresh queue makes: in no
  continuation is it noticed before another request comes or the worker wakes for another reason.
  */
  lemma BackgroundSubmitLost(req: Req, es: seq<Event>)
    requires req.qid == 0
    ensures Run(1, [SpliceList, ReadEfd, LookAgain, StartComplete, Block]) == Some(Init(1).(pc := Wait))
    ensures var s' := SubmitInBackground(Init(1).(pc := Wait), 0, req);
            && s'.submit == [req]
            && (Steps(s', es).Some? && (forall i :: 0 <= i < |es| ==> !Rouses(es[i])) ==>
                  Unnoticed(Steps(s', es).value) && Steps(s', es).value.submit == [req])
  {
    WorkerBlocks(1);
    hide Run;
    var s' := SubmitInBackground(Init(1).(pc := Wait), 0, req);
    assert s'.submit == [req];
    assert Unnoticed(s');
    hide Steps;
    if Steps(s', es).Some? && forall i :: 0 <= i < |es| ==> !Rouses(es[i]) {
      StaysUnnoticed(s', es);
    }
  }

  /** A pass of the worker that finds nothing to do. */
  lemma IdlePass(s: State)
    requires s.pc == Splice && s.submit == [] && s.local == [] && s.done == []
    ensures Step(s, SpliceList) == Some(s.(pc := Drain))
    ensures Step(s.(pc := Drain), ReadEfd) == Some(s.(efd := 0, pc := Recheck))
    ensures Step(s.(efd := 0, pc := Recheck), LookAgain) == Some(s.(efd := 0, pc := Reap))
    ensures Step(s.(efd := 0, pc := Reap), StartComplete) == Some(s.(efd := 0, pc := Complete))
    ensures Step(s.(efd := 0, pc := Complete), Block) == Some(s.(efd := 0, pc := Wait))
  {
    assert s.local + s.submit == [];
  }

  /** Left alone, the worker goes straight to its first wait. */
  lemma WorkerBlocks(nq: nat)
    ensures Run(nq, [SpliceList, ReadEfd, LookAgain, StartComplete, Block]) == Some(Init(nq).(pc := Wait))
  {
    hide Step;
    var s := Init(nq);
    assert Run(nq, []) == Some(s);
    hide Run;
    IdlePass(s);
    var e0: seq<Event> := [];
    var e1 := e0 + [SpliceList];
    var e2 := e1 + [ReadEfd];
    var e3 := e2 + [LookAgain];
    var e4 := e3 + [StartComplete];
    RunExtend(nq, e0, s, SpliceList, s.(pc := Drain));
    RunExtend(nq, e1, s.(pc := Drain), ReadEfd, s.(efd := 0, pc := Recheck));
    RunExtend(nq, e2, s.(efd := 0, pc := Recheck), LookAgain, s.(efd := 0, pc := Reap));
    RunExtend(nq, e3, s.(efd := 0, pc := Reap), StartComplete, s.(efd := 0, pc := Complete));
    RunExtend(nq, e4, s.(efd := 0, pc := Complete), Block, s.(efd := 0, pc := Wait));
    assert s.(efd := 0, pc := Wait) == s.(pc := Wait);
    assert e4 + [Block] == [SpliceList, ReadEfd, LookAgain, StartComplete, Block];
  }

  lemma RunExtend(nq: nat, es: seq<Event>, s: State, e: Event, s': State)
    requires Run(nq, es) == Some(s) && Step(s, e) == Some(s')
    ensures Run(nq, es + [e]) == Some(s')
  {
    assert (es + [e])[..|es|] == es;
  }
}
