/**
What a ublk queue is for, with neither commands nor buffers: the driver delivers the request of a
tag, the target finishes it with a result, the result is committed back to the driver, and the
tag may be delivered again. The per-tag mode and the batch mode both refine this.
*/
module IoProtocol {
  import opened Common

  datatype Owner = Driver | Target | Finished(result: int)

  /** A request finished with a result. */
  datatype Done = Done(tag: nat, result: int)

  datatype State = State(
    owners: seq<Owner>,
    delivered: seq<nat>,      // tags, in order of delivery
    finished: seq<Done>,      // in order of completion by the target
    committed: seq<Done>)     // in order of commit to the driver

  datatype Event = Deliver(tag: nat) | Finish(tag: nat, result: int) | Commit(tag: nat)

  function Init(depth: nat): State
  {
    State(seq(depth, _ => Driver), [], [], [])
  }

  function Step(s: State, e: Event): Option<State>
  {
    if e.tag >= |s.owners| then None else
    match e
    case Deliver(t) =>
      if s.owners[t] == Driver then Some(s.(owners := s.owners[t := Target], delivered := s.delivered + [t])) else None
    case Finish(t, r) =>
      if s.owners[t] == Target
      then Some(s.(owners := s.owners[t := Finished(r)], finished := s.finished + [Done(t, r)]))
      else None
    case Commit(t) =>
      if s.owners[t].Finished?
      then Some(s.(owners := s.owners[t := Driver], committed := s.committed + [Done(t, s.owners[t].result)]))
      else None
  }

  function Steps(s: State, es: seq<Event>): Option<State>
  {
    if es == [] then Some(s) else
    match Steps(s, es[..|es| - 1])
    case None => None
    case Some(m) => Step(m, es[|es| - 1])
  }

  /** The results recorded for one tag, in order. */
  function Results(ds: seq<Done>, t: nat): seq<int>
  {
    if ds == [] then [] else
    var last := ds[|ds| - 1];
    Results(ds[..|ds| - 1], t) + (if last.tag == t then [last.result] else [])
  }

  function Times(ts: seq<nat>, t: nat): nat
  {
    multiset(ts)[t]
  }

  lemma ResultsAppend(ds: seq<Done>, d: Done, t: nat)
    ensures Results(ds + [d], t) == Results(ds, t) + (if d.tag == t then [d.result] else [])
  {
    assert (ds + [d])[..|ds|] == ds;
  }

  /** What holds of one tag, whatever the others do. */
  predicate TagInv(s: State, t: nat)
    requires t < |s.owners|
  {
    var fin, com := Results(s.finished, t), Results(s.committed, t);
    match s.owners[t]
    case Driver => fin == com && Times(s.delivered, t) == |fin|
    case Target => fin == com && Times(s.delivered, t) == |fin| + 1
    case Finished(r) => fin == com + [r] && Times(s.delivered, t) == |fin|
  }

  lemma StepKeepsTagInv(s: State, e: Event, t: nat)
    requires t < |s.owners| && TagInv(s, t) && Step(s, e).Some?
    ensures |Step(s, e).value.owners| == |s.owners| && TagInv(Step(s, e).value, t)
  {
    hide Results;
    match e
    case Deliver(u) =>
    case Finish(u, r) => ResultsAppend(s.finished, Done(u, r), t);
    case Commit(u) => ResultsAppend(s.committed, Done(u, s.owners[u].result), t);
  }

  /**
  In every run, every tag: the results committed are the results the target gave, each once and in
  order, at most one of them still uncommitted, and there was one delivery for each.
  */
  lemma {:induction false} CommitsAreFinishes(depth: nat, es: seq<Event>, t: nat)
    requires Steps(Init(depth), es).Some? && t < depth
    ensures var s := Steps(Init(depth), es).value;
            && |s.owners| == depth && TagInv(s, t)
            && Results(s.committed, t) <= Results(s.finished, t)
            && |Results(s.finished, t)| <= |Results(s.committed, t)| + 1
            && |Results(s.finished, t)| <= Times(s.delivered, t) <= |Results(s.finished, t)| + 1
  {
    if es != [] {
      CommitsAreFinishes(depth, es[..|es| - 1], t);
      StepKeepsTagInv(Steps(Init(depth), es[..|es| - 1]).value, es[|es| - 1], t);
    }
  }
}
