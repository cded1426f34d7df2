/**
A run of AioProtocol that strands a request: a queue finds no submission entry when it should arm the poll
on its eventfd again, submits a request, and never learns that it is done.
*/
module AioStranded {
  import opened Common
  import opened AioProtocol

  /** A state with one queue, given by what the run below changes. */
  predicate Is(s: State, submit: seq<Req>, efd: nat, pc: WorkerPc, local: seq<Req>, done: seq<Req>, qu: Queue)
  {
    && s.submit == submit && s.efd == efd && s.pc == pc && s.local == local && s.done == done && s.finished == []
    && |s.queues| == 1 && s.queues[0] == qu
  }

  /** A queue with its poll lost. */
  function Deaf(phase: Phase, ctxs: seq<nat>, adding: bool, complete: seq<Req>, events: nat): Queue
  {
    Queue(phase, ctxs, adding, complete, events, [], false, false)
  }

  /** A series of events that is enabled from a state on. */
  lemma {:induction false} StepsExtend(s: State, es: seq<Event>, fs: seq<Event>)
    requires Steps(s, es).Some?
    ensures Steps(s, es + fs) == Steps(Steps(s, es).value, fs)
  {
    hide Step;
    if fs == [] {
      assert es + fs == es;
    } else {
      var k := |fs| - 1;
      assert (es + fs)[..|es| + k] == es + fs[..k];
      StepsExtend(s, es, fs[..k]);
    }
  }

  lemma OneStep(s: State, e: Event)
    ensures Steps(s, [e]) == Step(s, e)
  {
    hide Step;
    assert [e][..0] == [];
  }

  /** One more enabled event. */
  lemma Then(s: State, es: seq<Event>, e: Event) returns (fs: seq<Event>)
    requires Steps(s, es).Some? && Step(Steps(s, es).value, e).Some?
    ensures fs == es + [e] && Steps(s, fs) == Step(Steps(s, es).value, e)
  {
    hide Step;
    StepsExtend(s, es, [e]);
    OneStep(Steps(s, es).value, e);
    fs := es + [e];
  }

  lemma {:induction false} StepsAreRun(nq: nat, es: seq<Event>)
    ensures Run(nq, es) == Steps(Init(nq), es)
  {
    hide Step;
    if es != [] {
      StepsAreRun(nq, es[..|es| - 1]);
    }
  }

  lemma PokeStep(s: State, qu: Queue)
    requires Is(s, [], 0, Splice, [], [], qu)
    ensures Step(s, Poke(0)).Some? && Is(Step(s, Poke(0)).value, [], 0, Splice, [], [], qu.(events := qu.events + 1))
  {
  }

  lemma BeginStep(s: State, qu: Queue)
    requires Is(s, [], 0, Splice, [], [], qu) && qu.phase == Background
    ensures Step(s, BeginReap(0)).Some?
    ensures Is(Step(s, BeginReap(0)).value, [], 0, Splice, [], [], qu.(phase := Reaping, ctxs := []))
  {
  }

  /** The event is handled, and there is no entry to arm the poll again. */
  lemma LosePollStep(s: State, qu: Queue)
    requires Is(s, [], 0, Splice, [], [], qu) && qu == Queue(Reaping, [], false, [], 1, [], true, false)
    ensures Step(s, HandleEvent(0, false)).Some?
    ensures Is(Step(s, HandleEvent(0, false)).value, [], 0, Splice, [], [], Deaf(Reaping, [], false, [], 0))
  {
  }

  lemma AddStep(s: State, r: Req)
    requires Is(s, [], 0, Splice, [], [], Deaf(Reaping, [], false, [], 0)) && r.qid == 0
    ensures Step(s, AddToList(0, r)).Some?
    ensures Is(Step(s, AddToList(0, r)).value, [r], 0, Splice, [], [], Deaf(Reaping, [], true, [], 0))
  {
  }

  lemma RegisterStep(s: State, r: Req)
    requires Is(s, [r], 0, Splice, [], [], Deaf(Reaping, [], true, [], 0))
    ensures Step(s, Register(0)).Some?
    ensures Is(Step(s, Register(0)).value, [r], 0, Splice, [], [], Deaf(Reaping, [CTX], false, [], 0))
  {
  }

  lemma EndReapStep(s: State, r: Req)
    requires Is(s, [r], 0, Splice, [], [], Deaf(Reaping, [CTX], false, [], 0))
    ensures Step(s, EndReap(0)).Some?
    ensures Is(Step(s, EndReap(0)).value, [r], 0, Splice, [], [], Deaf(Flushing(0), [CTX], false, [], 0))
  {
  }

  lemma FlushStep(s: State, r: Req)
    requires Is(s, [r], 0, Splice, [], [], Deaf(Flushing(0), [CTX], false, [], 0))
    ensures Step(s, FlushOne(0)).Some?
    ensures Is(Step(s, FlushOne(0)).value, [r], 1, Splice, [], [], Deaf(Flushing(1), [CTX], false, [], 0))
  {
  }

  lemma EndFlushStep(s: State, r: Req)
    requires Is(s, [r], 1, Splice, [], [], Deaf(Flushing(1), [CTX], false, [], 0))
    ensures Step(s, EndFlush(0)).Some?
    ensures Is(Step(s, EndFlush(0)).value, [r], 1, Splice, [], [], Deaf(Background, [CTX], false, [], 0))
  {
  }

  lemma SpliceStep(s: State, r: Req, qu: Queue)
    requires Is(s, [r], 1, Splice, [], [], qu)
    ensures Step(s, SpliceList).Some? && Is(Step(s, SpliceList).value, [], 1, Drain, [r], [], qu)
  {
    assert [] + [r] == [r];
  }

  lemma DrainStep(s: State, r: Req, qu: Queue)
    requires Is(s, [], 1, Drain, [r], [], qu)
    ensures Step(s, DrainOne(true)).Some? && Is(Step(s, DrainOne(true)).value, [], 1, Drain, [], [r], qu)
  {
    assert [] + [r] == [r] && [r][1..] == [];
  }

  lemma ReadStep(s: State, r: Req, qu: Queue)
    requires Is(s, [], 1, Drain, [], [r], qu)
    ensures Step(s, ReadEfd).Some? && Is(Step(s, ReadEfd).value, [], 0, Recheck, [], [r], qu)
  {
  }

  lemma LookStep(s: State, r: Req, qu: Queue)
    requires Is(s, [], 0, Recheck, [], [r], qu)
    ensures Step(s, LookAgain).Some? && Is(Step(s, LookAgain).value, [], 0, Reap, [], [r], qu)
  {
  }

  lemma StartStep(s: State, r: Req, qu: Queue)
    requires Is(s, [], 0, Reap, [], [r], qu)
    ensures Step(s, StartComplete).Some? && Is(Step(s, StartComplete).value, [], 0, Complete, [], [r], qu)
  {
  }

  lemma CompleteStep(s: State, r: Req)
    requires Is(s, [], 0, Complete, [], [r], Deaf(Background, [CTX], false, [], 0)) && r.qid == 0
    ensures Step(s, CompleteQueue).Some?
    ensures Is(Step(s, CompleteQueue).value, [], 0, SendEvent(0), [], [], Deaf(Background, [CTX], false, [r], 0))
  {
    SingleList(r);
    assert [] + [r] == [r];
  }

  lemma SingleList(r: Req)
    requires r.qid == 0
    ensures OfQueue([r], 0) == [r] && OfOthers([r], 0) == []
  {
    assert [r][1..] == [];
    assert OfQueue([r], 0) == [r] + OfQueue([], 0);
    var none: seq<Req> := [];
    assert OfOthers([r], 0) == none + OfOthers(none, 0);
  }

  lemma NotifyStep(s: State, r: Req)
    requires Is(s, [], 0, SendEvent(0), [], [], Deaf(Background, [CTX], false, [r], 0))
    ensures Step(s, Notify).Some?
    ensures Is(Step(s, Notify).value, [], 0, Complete, [], [], Deaf(Background, [CTX], false, [r], 1))
  {
  }

  lemma BlockStep(s: State, r: Req)
    requires Is(s, [], 0, Complete, [], [], Deaf(Background, [CTX], false, [r], 1))
    ensures Step(s, Block).Some?
    ensures Is(Step(s, Block).value, [], 0, Wait, [], [], Deaf(Background, [CTX], false, [r], 1))
  {
  }

  /** The queue loses its poll, submits a request and announces it. */
  lemma SubmitDeaf(r: Req) returns (es: seq<Event>)
    requires r.qid == 0
    ensures Steps(Init(1), es).Some?
    ensures Is(Steps(Init(1), es).value, [r], 1, Splice, [], [], Deaf(Background, [CTX], false, [], 0))
  {
    var s := Init(1);
    var qu := Queue(Background, [], false, [], 0, [], true, false);
    assert Is(s, [], 0, Splice, [], [], qu) && Steps(s, []) == Some(s);
    hide Steps, Step, Is;
    PokeStep(s, qu);
    es := Then(s, [], Poke(0));
    BeginStep(Steps(s, es).value, qu.(events := 1));
    es := Then(s, es, BeginReap(0));
    LosePollStep(Steps(s, es).value, qu.(events := 1, phase := Reaping));
    es := Then(s, es, HandleEvent(0, false));
    AddStep(Steps(s, es).value, r);
    es := Then(s, es, AddToList(0, r));
    RegisterStep(Steps(s, es).value, r);
    es := Then(s, es, Register(0));
    EndReapStep(Steps(s, es).value, r);
    es := Then(s, es, EndReap(0));
    FlushStep(Steps(s, es).value, r);
    es := Then(s, es, FlushOne(0));
    EndFlushStep(Steps(s, es).value, r);
    es := Then(s, es, EndFlush(0));
  }

  /** The worker has it done and writes the queue's eventfd. */
  lemma WorkDeaf(r: Req) returns (es: seq<Event>)
    requires r.qid == 0
    ensures Steps(Init(1), es).Some?
    ensures Is(Steps(Init(1), es).value, [], 0, Wait, [], [], Deaf(Background, [CTX], false, [r], 1))
  {
    hide Steps, Step, Is;
    var s := Init(1);
    var qu := Deaf(Background, [CTX], false, [], 0);
    es := SubmitDeaf(r);
    SpliceStep(Steps(s, es).value, r, qu);
    es := Then(s, es, SpliceList);
    DrainStep(Steps(s, es).value, r, qu);
    es := Then(s, es, DrainOne(true));
    ReadStep(Steps(s, es).value, r, qu);
    es := Then(s, es, ReadEfd);
    LookStep(Steps(s, es).value, r, qu);
    es := Then(s, es, LookAgain);
    StartStep(Steps(s, es).value, r, qu);
    es := Then(s, es, StartComplete);
    CompleteStep(Steps(s, es).value, r);
    es := Then(s, es, CompleteQueue);
    NotifyStep(Steps(s, es).value, r);
    es := Then(s, es, Notify);
    BlockStep(Steps(s, es).value, r);
    es := Then(s, es, Block);
  }

  /** And the request is stranded: all threads at rest, its event written, and nobody to read it. */
  lemma RequestStranded(r: Req) returns (es: seq<Event>)
    requires r.qid == 0
    ensures Run(1, es).Some? && AtRest(Run(1, es).value)
    ensures var s := Run(1, es).value;
            |s.queues| == 1 && s.queues[0].complete == [r] && !s.queues[0].armed && s.finished == []
  {
    hide Steps, Run;
    es := WorkDeaf(r);
    StepsAreRun(1, es);
  }
}
