/**
Batch command mode: completions are collected in a buffer and handed to the driver by one commit
command, requests arrive as runs of tags under one multishot fetch command. As in IoProtocol a tag
is with the driver, with the target, or finished; here the results of finished tags wait in the
current buffer, then in a prepared commit, until the driver reads them at submission.
*/
module BatchProtocol {
  import opened Common
  import opened Numeric
  import Io = IoProtocol

  datatype State = State(
    owners: seq<Io.Owner>,
    delivered: seq<nat>,         // passed to handle_io_async, in order
    finished: seq<Io.Done>,      // passed to ublksrv_complete_io, in order
    current: seq<Io.Done>,       // the commit buffer being filled
    prepared: seq<Io.Done>,      // in commit commands not yet submitted
    received: seq<Io.Done>,      // read by the driver, in order
    cmdInflight: int,
    stopping: bool,
    prepOut: bool,               // commands whose last CQE is still to come
    fetchOut: bool,
    commitsOut: nat,
    meaning: seq<Io.Event>)      // the run so far, in terms of IoProtocol

  /** sqe says whether a submission entry can be had. */
  datatype Event =
    | Deliver(tag: nat)                       // one tag of a fetch CQE
    | FetchCqe(more: bool, sqe: bool)         // the end of a fetch CQE with tags
    | FetchNoBuffer(sqe: bool)                // a fetch CQE with -ENOBUFS
    | FetchFailed                             // a fetch CQE with any other error
    | Complete(tag: nat, result: int)
    | SubmitCommit(sqe: bool)
    | Submit                                  // the driver reads what is prepared
    | PrepCqe
    | CommitCqe

  /** After the prep command and the multishot fetch have been queued. */
  function Init(depth: nat): State
  {
    State(seq(depth, _ => Io.Driver), [], [], [], [], [], 2, false, true, true, 0, [])
  }

  function CommitAll(ds: seq<Io.Done>): seq<Io.Event>
  {
    if ds == [] then [] else CommitAll(ds[..|ds| - 1]) + [Io.Commit(ds[|ds| - 1].tag)]
  }

  /** The owners once the driver has read these results. */
  function TakenBack(owners: seq<Io.Owner>, ds: seq<Io.Done>): (r: seq<Io.Owner>)
    ensures |r| == |owners|
  {
    if ds == [] then owners else
    var r, t := TakenBack(owners, ds[..|ds| - 1]), ds[|ds| - 1].tag;
    if t < |r| then r[t := Io.Driver] else r
  }

  /** Queue the fetch again after it ended; without a submission entry it stays ended. */
  function Rearm(s: State, sqe: bool): State
  {
    s.(cmdInflight := s.cmdInflight - 1 + (if sqe then 1 else 0), fetchOut := sqe)
  }

  function Step(s: State, e: Event): Option<State>
  {
    match e
    case Deliver(t) =>
      if s.fetchOut && t < |s.owners| && s.owners[t] == Io.Driver then
        Some(s.(owners := s.owners[t := Io.Target], delivered := s.delivered + [t],
                meaning := s.meaning + [Io.Deliver(t)]))
      else None
    case FetchCqe(more, sqe) => if !s.fetchOut then None else Some(if more then s else Rearm(s, sqe))
    case FetchNoBuffer(sqe) => if !s.fetchOut then None else Some(Rearm(s, sqe))
    case FetchFailed =>
      if !s.fetchOut then None else
      Some(s.(cmdInflight := s.cmdInflight - 1, fetchOut := false, stopping := true))
    case Complete(t, r) =>
      if t < |s.owners| && s.owners[t] == Io.Target then
        Some(s.(owners := s.owners[t := Io.Finished(r)], current := s.current + [Io.Done(t, r)],
                finished := s.finished + [Io.Done(t, r)], meaning := s.meaning + [Io.Finish(t, r)]))
      else None
    case SubmitCommit(sqe) =>
      if s.current == [] || !sqe then Some(s) else
      Some(s.(prepared := s.prepared + s.current, current := [], cmdInflight := s.cmdInflight + 1,
              commitsOut := s.commitsOut + 1))
    case Submit =>
      Some(s.(owners := TakenBack(s.owners, s.prepared), received := s.received + s.prepared, prepared := [],
              meaning := s.meaning + CommitAll(s.prepared)))
    case PrepCqe => if !s.prepOut then None else Some(s.(prepOut := false, cmdInflight := s.cmdInflight - 1))
    case CommitCqe =>
      if s.commitsOut == 0 then None else
      Some(s.(commitsOut := s.commitsOut - 1, cmdInflight := s.cmdInflight - 1))
  }

  function Run(depth: nat, es: seq<Event>): Option<State>
  {
    if es == [] then Some(Init(depth)) else
    match Run(depth, es[..|es| - 1])
    case None => None
    case Some(s) => Step(s, es[|es| - 1])
  }

  lemma RunExtend(depth: nat, es: seq<Event>, s: State, e: Event)
    requires Run(depth, es) == Some(s)
    ensures Run(depth, es + [e]) == Step(s, e)
  {
    assert (es + [e])[..|es|] == es;
  }

  // ---- the invariant ----

  /** Finished and not yet seen by the driver, in order. */
  function Waiting(s: State): seq<Io.Done>
  {
    s.prepared + s.current
  }

  /** Waiting results are those of finished tags, no tag twice. */
  ghost predicate WaitingOk(owners: seq<Io.Owner>, w: seq<Io.Done>)
  {
    && (forall i :: 0 <= i < |w| ==> w[i].tag < |owners| && owners[w[i].tag] == Io.Finished(w[i].result))
    && (forall i, j :: 0 <= i < j < |w| ==> w[i].tag != w[j].tag)
  }

  predicate Counted(s: State)
  {
    s.cmdInflight == (if s.prepOut then 1 else 0) + (if s.fetchOut then 1 else 0) + s.commitsOut
  }

  /** The state of IoProtocol this one stands for is where the run so far leads. */
  predicate Meaningful(s: State)
  {
    Io.Steps(Io.Init(|s.owners|), s.meaning) == Some(Io.State(s.owners, s.delivered, s.finished, s.received))
  }

  ghost predicate Inv(s: State)
  {
    && s.finished == s.received + Waiting(s)
    && WaitingOk(s.owners, Waiting(s))
    && Counted(s)
    && Meaningful(s)
  }

  /** One step of IoProtocol at the end of a run of it. */
  lemma MeaningStep(s: State, s': State, e: Io.Event)
    requires Meaningful(s) && |s'.owners| == |s.owners| && s'.meaning == s.meaning + [e]
    requires Io.Step(Io.State(s.owners, s.delivered, s.finished, s.received), e)
          == Some(Io.State(s'.owners, s'.delivered, s'.finished, s'.received))
    ensures Meaningful(s')
  {
    assert s'.meaning[..|s.meaning|] == s.meaning;
  }

  lemma DeliverKeepsInv(s: State, t: nat)
    requires Inv(s) && Step(s, Deliver(t)).Some?
    ensures Inv(Step(s, Deliver(t)).value)
  {
    var s' := Step(s, Deliver(t)).value;
    MeaningStep(s, s', Io.Deliver(t));
    assert Waiting(s') == Waiting(s);
  }

  lemma CompleteKeepsInv(s: State, t: nat, r: int)
    requires Inv(s) && Step(s, Complete(t, r)).Some?
    ensures Inv(Step(s, Complete(t, r)).value)
  {
    var s' := Step(s, Complete(t, r)).value;
    MeaningStep(s, s', Io.Finish(t, r));
    assert Waiting(s') == Waiting(s) + [Io.Done(t, r)];
    assert s'.finished == s'.received + Waiting(s');
  }

  lemma WaitingSplit(owners: seq<Io.Owner>, ds: seq<Io.Done>, es: seq<Io.Done>)
    requires WaitingOk(owners, ds + es)
    ensures WaitingOk(owners, ds) && WaitingOk(owners, es)
    ensures forall i, j :: 0 <= i < |ds| && 0 <= j < |es| ==> ds[i].tag != es[j].tag
  {
    var w := ds + es;
    assert forall i :: 0 <= i < |ds| ==> ds[i] == w[i];
    assert forall i :: 0 <= i < |es| ==> es[i] == w[|ds| + i];
  }

  /** Tags without a result among those read keep their owner. */
  lemma {:induction false} TakenBackOthers(owners: seq<Io.Owner>, ds: seq<Io.Done>, t: nat)
    requires t < |owners| && forall i :: 0 <= i < |ds| ==> ds[i].tag != t
    ensures TakenBack(owners, ds)[t] == owners[t]
  {
    if ds != [] {
      TakenBackOthers(owners, ds[..|ds| - 1], t);
    }
  }

  /** The state once the driver has read some results. */
  function Read(s: State, ds: seq<Io.Done>): State
  {
    s.(owners := TakenBack(s.owners, ds), received := s.received + ds, meaning := s.meaning + CommitAll(ds))
  }

  lemma ReadLast(s: State, front: seq<Io.Done>, d: Io.Done)
    requires d.tag < |s.owners|
    ensures var s1 := Read(s, front);
            Read(s, front + [d]) == s1.(owners := s1.owners[d.tag := Io.Driver], received := s1.received + [d],
                                        meaning := s1.meaning + [Io.Commit(d.tag)])
  {
    assert (front + [d])[..|front|] == front;
  }

  /** Reading waiting results is committing them one after the other. */
  lemma {:induction false} ReadMeans(s: State, ds: seq<Io.Done>)
    requires Meaningful(s) && WaitingOk(s.owners, ds)
    ensures Meaningful(Read(s, ds))
  {
    if ds == [] {
      assert Read(s, ds) == s;
    } else {
      var front, d := ds[..|ds| - 1], ds[|ds| - 1];
      assert ds == front + [d];
      WaitingSplit(s.owners, front, [d]);
      ReadMeans(s, front);
      TakenBackOthers(s.owners, front, d.tag);
      ReadLast(s, front, d);
      hide Meaningful, WaitingOk, Read;
      ReadStep(s, Read(s, front), d);
    }
  }

  lemma ReadStep(s: State, s1: State, d: Io.Done)
    requires Meaningful(s1) && d.tag < |s1.owners| && s1.owners[d.tag] == Io.Finished(d.result)
    ensures Meaningful(s1.(owners := s1.owners[d.tag := Io.Driver], received := s1.received + [d],
                           meaning := s1.meaning + [Io.Commit(d.tag)]))
  {
    hide Meaningful;
    MeaningStep(s1, s1.(owners := s1.owners[d.tag := Io.Driver], received := s1.received + [d],
                        meaning := s1.meaning + [Io.Commit(d.tag)]), Io.Commit(d.tag));
  }

  /** What still waits is untouched by the driver reading what came before it. */
  lemma RestKeepsWaiting(owners: seq<Io.Owner>, ds: seq<Io.Done>, es: seq<Io.Done>)
    requires WaitingOk(owners, ds + es)
    ensures WaitingOk(owners, ds) && WaitingOk(TakenBack(owners, ds), es)
  {
    WaitingSplit(owners, ds, es);
    hide TakenBack;
    forall i | 0 <= i < |es| ensures TakenBack(owners, ds)[es[i].tag] == owners[es[i].tag] {
      TakenBackOthers(owners, ds, es[i].tag);
    }
  }

  lemma SubmitKeepsInv(s: State)
    requires Inv(s)
    ensures Inv(Step(s, Submit).value)
  {
    hide Meaningful, TakenBack, CommitAll, WaitingOk;
    var s' := Step(s, Submit).value;
    RestKeepsWaiting(s.owners, s.prepared, s.current);
    ReadMeans(s, s.prepared);
    MeaningIgnores(Read(s, s.prepared), s');
    assert Waiting(s') == s.current;
    assert s'.finished == s'.received + Waiting(s');
  }

  lemma MeaningIgnores(s: State, s': State)
    requires Meaningful(s) && s' == s.(prepared := s'.prepared)
    ensures Meaningful(s')
  {
  }

  lemma StepKeepsInv(s: State, e: Event)
    requires Inv(s) && Step(s, e).Some?
    ensures Inv(Step(s, e).value) && |Step(s, e).value.owners| == |s.owners|
  {
    match e
    case Deliver(t) => DeliverKeepsInv(s, t);
    case Complete(t, r) => CompleteKeepsInv(s, t, r);
    case Submit => SubmitKeepsInv(s);
    case SubmitCommit(sqe) =>
      assert Waiting(Step(s, e).value) == Waiting(s);
    case _ =>
  }

  lemma {:induction false} RunKeepsInv(depth: nat, es: seq<Event>)
    requires Run(depth, es).Some?
    ensures Inv(Run(depth, es).value) && |Run(depth, es).value.owners| == depth
  {
    hide Inv, Step;
    if es == [] {
      InitInv(depth);
    } else {
      RunKeepsInv(depth, es[..|es| - 1]);
      StepKeepsInv(Run(depth, es[..|es| - 1]).value, es[|es| - 1]);
    }
  }

  lemma InitInv(depth: nat)
    ensures Inv(Init(depth))
  {
  }

  // ---- results ----

  /**
  No result is lost, repeated or reordered on its way to the driver. The driver gets what is prepared here
  when each commit is submitted before the one after next is prepared; BatchQueue.AddComplete says what
  becomes of the buffers otherwise.
  */
  lemma CommitsKeepOrder(depth: nat, es: seq<Event>)
    requires Run(depth, es).Some?
    ensures var s := Run(depth, es).value;
            && s.received + s.prepared + s.current == s.finished
            && s.received <= s.finished
  {
    RunKeepsInv(depth, es);
    var s := Run(depth, es).value;
    assert s.received + s.prepared + s.current == s.received + Waiting(s);
  }

  function Tags(ds: seq<Io.Done>): seq<nat>
  {
    if ds == [] then [] else Tags(ds[..|ds| - 1]) + [ds[|ds| - 1].tag]
  }

  lemma {:induction false} WaitingTagsDistinct(owners: seq<Io.Owner>, w: seq<Io.Done>)
    requires WaitingOk(owners, w)
    ensures |Tags(w)| == |w| && forall i :: 0 <= i < |w| ==> Tags(w)[i] == w[i].tag
    ensures DistinctBelow(multiset(Tags(w)), |owners|)
  {
    if w != [] {
      var front, t := w[..|w| - 1], w[|w| - 1].tag;
      WaitingTagsDistinct(owners, front);
      assert t !in Tags(front);
      assert multiset(Tags(w)) == multiset(Tags(front)) + multiset{t};
    }
  }

  /** However long the driver is kept waiting, the buffers never hold more than one result for each tag. */
  lemma BuffersNeverOverrun(depth: nat, es: seq<Event>)
    requires Run(depth, es).Some?
    ensures |Run(depth, es).value.prepared| + |Run(depth, es).value.current| <= depth
  {
    RunKeepsInv(depth, es);
    var s := Run(depth, es).value;
    WaitingTagsDistinct(s.owners, Waiting(s));
    Pigeonhole(multiset(Tags(Waiting(s))), depth);
  }

  /** The run refines IoProtocol, so every result committed is one the target gave, once and in order. */
  lemma RefinesIoProtocol(depth: nat, es: seq<Event>, t: nat)
    requires Run(depth, es).Some? && t < depth
    ensures var s := Run(depth, es).value;
            && Io.Steps(Io.Init(depth), s.meaning) == Some(Io.State(s.owners, s.delivered, s.finished, s.received))
            && Io.Results(s.received, t) <= Io.Results(s.finished, t)
            && |Io.Results(s.finished, t)| <= |Io.Results(s.received, t)| + 1
            && |Io.Results(s.finished, t)| <= Io.Times(s.delivered, t) <= |Io.Results(s.finished, t)| + 1
  {
    RunKeepsInv(depth, es);
    Io.CommitsAreFinishes(depth, Run(depth, es).value.meaning, t);
  }

  /** The queue loop ends when this holds: the submission ring is empty as well. */
  predicate IsDone(s: State)
  {
    s.stopping && s.prepared == [] && s.cmdInflight == 0
  }

  /**
  When the loop ends the driver has no command of any kind. Every result has reached it exactly when
  the current buffer is empty: the test comes before the last commit would be submitted.
  */
  lemma DoneMeansNothingOutstanding(depth: nat, es: seq<Event>)
    requires Run(depth, es).Some? && IsDone(Run(depth, es).value)
    ensures var s := Run(depth, es).value;
            && !s.prepOut && !s.fetchOut && s.commitsOut == 0
            && (s.received == s.finished <==> s.current == [])
  {
    CommitsKeepOrder(depth, es);
    RunKeepsInv(depth, es);
  }

  /** A result given after the last command has come back stays in the buffer when the loop ends. */
  lemma DoneWithResultInBuffer() returns (es: seq<Event>)
    ensures Run(1, es).Some? && IsDone(Run(1, es).value)
    ensures Run(1, es).value.current == [Io.Done(0, 512)] && Run(1, es).value.received == []
  {
    var e0, e1, e2, e3 := PrepCqe, Deliver(0), FetchFailed, Complete(0, 512);
    var s0 := Init(1);
    var s1 := Step(s0, e0).value;
    var s2 := Step(s1, e1).value;
    var s3 := Step(s2, e2).value;
    RunExtend(1, [], s0, e0);
    RunExtend(1, [] + [e0], s1, e1);
    RunExtend(1, [] + [e0] + [e1], s2, e2);
    RunExtend(1, [] + [e0] + [e1] + [e2], s3, e3);
    es := [] + [e0] + [e1] + [e2] + [e3];
  }

  lemma StepKeepsFetchEnded(s: State, e: Event)
    requires !s.fetchOut && Step(s, e).Some?
    ensures var s' := Step(s, e).value; !s'.fetchOut && s'.delivered == s.delivered && s'.stopping == s.stopping
  {
  }

  /**
  Once the fetch has ended without being queued again, no request ever arrives, and the queue stops
  if and only if it was stopping already. So when a rearm finds no submission entry the loop never ends.
  */
  lemma {:induction false} EndedFetchIsFinal(depth: nat, es: seq<Event>, fs: seq<Event>)
    requires Run(depth, es).Some? && !Run(depth, es).value.fetchOut && Run(depth, es + fs).Some?
    ensures var s, s' := Run(depth, es).value, Run(depth, es + fs).value;
            && !s'.fetchOut && s'.delivered == s.delivered && s'.stopping == s.stopping
            && (!s.stopping ==> !IsDone(s'))
  {
    hide Step;
    if fs == [] {
      assert es + fs == es;
    } else {
      var k := |fs| - 1;
      assert (es + fs)[..|es| + k] == es + fs[..k];
      EndedFetchIsFinal(depth, es, fs[..k]);
      StepKeepsFetchEnded(Run(depth, es + fs[..k]).value, fs[k]);
    }
  }

  /** The fetch is outstanding as long as it has neither failed nor missed its submission entry. */
  lemma FetchStaysArmed(s: State, e: Event)
    requires s.fetchOut && Step(s, e).Some?
    ensures Step(s, e).value.fetchOut <==>
      !(e.FetchFailed? || (e.FetchNoBuffer? && !e.sqe) || (e.FetchCqe? && !e.more && !e.sqe))
  {
  }

  // ---- whether the queue can still end ----

  /** n commit commands come back. */
  function CommitCqes(n: nat): seq<Event>
  {
    if n == 0 then [] else CommitCqes(n - 1) + [CommitCqe]
  }

  lemma {:induction false} CommitsComeBack(depth: nat, es: seq<Event>, n: nat)
    requires Run(depth, es).Some? && n <= Run(depth, es).value.commitsOut
    ensures var s := Run(depth, es).value;
            Run(depth, es + CommitCqes(n))
            == Some(s.(commitsOut := s.commitsOut - n, cmdInflight := s.cmdInflight - n))
  {
    hide Run;
    if n == 0 {
      assert es + CommitCqes(0) == es;
    } else {
      CommitsComeBack(depth, es, n - 1);
      assert es + CommitCqes(n) == es + CommitCqes(n - 1) + [CommitCqe];
      RunExtend(depth, es + CommitCqes(n - 1), Run(depth, es + CommitCqes(n - 1)).value, CommitCqe);
    }
  }

  /** How a queue with its fetch outstanding ends: the fetch fails and every command comes back. */
  function Ending(s: State): seq<Event>
  {
    [Submit, FetchFailed] + (if s.prepOut then [PrepCqe] else []) + CommitCqes(s.commitsOut)
  }

  lemma CanEnd(depth: nat, es: seq<Event>)
    requires Run(depth, es).Some? && Run(depth, es).value.fetchOut
    ensures Run(depth, es + Ending(Run(depth, es).value)).Some?
    ensures IsDone(Run(depth, es + Ending(Run(depth, es).value)).value)
  {
    hide Run;
    var s := Run(depth, es).value;
    RunKeepsInv(depth, es);
    var e1 := es + [Submit];
    RunExtend(depth, es, s, Submit);
    var s1 := Step(s, Submit).value;
    var e2 := e1 + [FetchFailed];
    RunExtend(depth, e1, s1, FetchFailed);
    var s2 := Step(s1, FetchFailed).value;
    var e3, s3 := e2, s2;
    if s.prepOut {
      RunExtend(depth, e2, s2, PrepCqe);
      e3, s3 := e2 + [PrepCqe], Step(s2, PrepCqe).value;
    }
    CommitsComeBack(depth, e3, s.commitsOut);
    assert es + Ending(s) == e3 + CommitCqes(s.commitsOut);
  }

  /** A queue that is not stopping can still end exactly when its fetch is outstanding. */
  lemma CanEndIffFetchOutstanding(depth: nat, es: seq<Event>)
    requires Run(depth, es).Some? && !Run(depth, es).value.stopping
    ensures Run(depth, es).value.fetchOut <==>
      exists fs :: Run(depth, es + fs).Some? && IsDone(Run(depth, es + fs).value)
  {
    if Run(depth, es).value.fetchOut {
      CanEnd(depth, es);
    } else {
      forall fs | Run(depth, es + fs).Some? ensures !IsDone(Run(depth, es + fs).value) {
        EndedFetchIsFinal(depth, es, fs);
      }
    }
  }

  /** The shortest way to lose the fetch: its first CQE is its last, and there is no entry to queue it again. */
  lemma FetchLost()
    ensures Run(1, [FetchCqe(false, false)]).Some?
    ensures var s := Run(1, [FetchCqe(false, false)]).value; !s.fetchOut && !s.stopping
  {
    RunExtend(1, [], Init(1), FetchCqe(false, false));
    assert [] + [FetchCqe(false, false)] == [FetchCqe(false, false)];
  }
}
