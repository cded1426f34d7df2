/**
The NVMe target on a queue in per-tag mode: TagProtocol and NvmeProtocol run together. A request that is
delivered becomes a command with the tag as its identifier, or is failed at once; a completion that is
consumed finishes the request of its identifier. What each machine assumes of the other then follows.
*/
module NvmeTags {
  import opened Common
  import T = TagProtocol
  import N = NvmeProtocol

  datatype State = State(tags: T.State, dev: N.State)

  datatype Event =
    | Kick(tag: nat, sqe: bool)
    | Answer(tag: nat, res: T.Res, sqe: bool)               // anything but a request
    | Start(tag: nat, body: nat)                            // a request, made into a command
    | Reject(tag: nat, result: int, sqe: bool)              // a request, failed at once
    | Flush
    | Fetch
    | Post(cpl: N.Completion)
    | Finish(result: int, sqe: bool)                        // the oldest completion is consumed

  function Init(depth: nat): State
  {
    State(T.Init(depth), N.Init(depth))
  }

  /** Both machines take their step, or there is none. */
  ghost function Both(tags: Option<T.State>, dev: Option<N.State>): Option<State>
  {
    if tags.Some? && dev.Some? then Some(State(tags.value, dev.value)) else None
  }

  ghost function Step(s: State, e: Event): Option<State>
  {
    match e
    case Kick(t, sqe) => Both(T.Step(s.tags, T.Kick(t, sqe)), Some(s.dev))
    case Answer(t, res, sqe) => if res == T.Ok then None else Both(T.Step(s.tags, T.Cqe(t, res, sqe)), Some(s.dev))
    case Start(t, body) =>
      Both(T.Step(s.tags, T.Cqe(t, T.Ok, true)), N.Step(s.dev, N.Submit(N.Command(t, body))))
    case Reject(t, result, sqe) =>
      (match T.Step(s.tags, T.Cqe(t, T.Ok, true))
       case None => None
       case Some(m) => Both(T.Step(m, T.Complete(t, result, sqe)), Some(s.dev)))
    case Flush => Both(Some(s.tags), N.Step(s.dev, N.Flush))
    case Fetch => Both(Some(s.tags), N.Step(s.dev, N.Fetch))
    case Post(cpl) => Both(Some(s.tags), N.Step(s.dev, N.Post(cpl)))
    case Finish(result, sqe) =>
      if s.dev.consumed >= |s.dev.posted| then None else
      Both(T.Step(s.tags, T.Complete(s.dev.posted[s.dev.consumed].cid, result, sqe)), N.Step(s.dev, N.Consume))
  }

  ghost function Run(depth: nat, es: seq<Event>): Option<State>
  {
    if es == [] then Some(Init(depth)) else
    match Run(depth, es[..|es| - 1])
    case None => None
    case Some(s) => Step(s, es[|es| - 1])
  }

  // ---- the invariant ----

  /** A command is under way exactly for the tags whose request the target has. */
  ghost predicate Agree(tags: seq<T.Tag>, busy: multiset<nat>)
  {
    forall t :: 0 <= t < |tags| ==> (t in busy <==> tags[t].held)
  }

  ghost predicate Inv(s: State)
  {
    T.Inv(s.tags) && N.Inv(s.dev) && s.dev.depth == |s.tags.tags| && Agree(s.tags.tags, N.Busy(s.dev))
  }

  lemma InitInv(depth: nat)
    requires 1 <= depth
    ensures Inv(Init(depth))
  {
    T.InitInv(depth);
    N.InitInv(depth);
    hide T.Inv;
    assert N.Busy(N.Init(depth)) == multiset{};
  }

  /** What a step of the tags does to who has which request. */
  lemma KickHeld(s: T.State, t: nat, sqe: bool)
    requires T.Step(s, T.Kick(t, sqe)).Some?
    ensures var s' := T.Step(s, T.Kick(t, sqe)).value;
            |s'.tags| == |s.tags| && forall u :: 0 <= u < |s.tags| ==> s'.tags[u].held == s.tags[u].held
  {
  }

  lemma AnswerHeld(s: T.State, t: nat, res: T.Res, sqe: bool)
    requires T.Step(s, T.Cqe(t, res, sqe)).Some?
    ensures var s' := T.Step(s, T.Cqe(t, res, sqe)).value;
            && |s'.tags| == |s.tags|
            && forall u :: 0 <= u < |s.tags| ==> s'.tags[u].held == (s.tags[u].held || (u == t && res == T.Ok))
  {
  }

  lemma CompleteHeld(s: T.State, t: nat, result: int, sqe: bool)
    requires T.Step(s, T.Complete(t, result, sqe)).Some?
    ensures var s' := T.Step(s, T.Complete(t, result, sqe)).value;
            && |s'.tags| == |s.tags| && t < |s.tags|
            && forall u :: 0 <= u < |s.tags| ==> s'.tags[u].held == (s.tags[u].held && u != t)
  {
  }

  /** A command at the driver means the target does not have the tag's request. */
  lemma OutIsNotHeld(s: T.State, t: nat)
    requires T.Inv(s) && t < |s.tags| && s.tags[t].out.Some?
    ensures !s.tags[t].held
  {
    hide T.Meaningful, T.CountOut, T.PhaseOf;
    assert T.TagOk(s.tags[t]);
  }

  /** So a request that is delivered finds its identifier free. */
  lemma IdentifierIsFree(s: State, t: nat)
    requires Inv(s) && T.Step(s.tags, T.Cqe(t, T.Ok, true)).Some?
    ensures t < s.dev.depth && t !in N.Busy(s.dev)
  {
    hide T.Inv, N.Inv, N.Busy;
    OutIsNotHeld(s.tags, t);
  }

  lemma BusyBelow(s: N.State, t: nat)
    requires N.Inv(s) && t in N.Busy(s)
    ensures t < s.depth && N.Busy(s)[t] == 1
  {
  }

  /** And a completion that is waiting is of a request the target has. */
  lemma CompletionIsHeld(s: State)
    requires Inv(s) && s.dev.consumed < |s.dev.posted|
    ensures var t := s.dev.posted[s.dev.consumed].cid;
            t < |s.tags.tags| && s.tags.tags[t].held && N.Busy(s.dev)[t] == 1
  {
    hide T.Inv, N.Inv;
    var t := s.dev.posted[s.dev.consumed].cid;
    ConsumeFacts(s.dev);
    BusyBelow(s.dev, t);
  }

  lemma ConsumeFacts(s: N.State)
    requires N.Inv(s) && s.consumed < |s.posted|
    ensures N.Step(s, N.Consume) == Some(s.(consumed := s.consumed + 1)) && N.Inv(s.(consumed := s.consumed + 1))
    ensures N.Busy(s) == N.Busy(s.(consumed := s.consumed + 1)) + multiset{s.posted[s.consumed].cid}
    ensures s.posted[s.consumed].cid in N.Busy(s)
  {
    N.ConsumeKeepsInv(s);
  }

  /** The device's own steps leave its busy identifiers as they are. */
  lemma DeviceStep(s: N.State, e: N.Event)
    requires N.Inv(s) && N.Step(s, e).Some? && !e.Submit? && !e.Consume?
    ensures N.Inv(N.Step(s, e).value) && N.Step(s, e).value.depth == s.depth
    ensures N.Busy(N.Step(s, e).value) == N.Busy(s)
  {
    match e
    case Flush => N.FlushKeepsInv(s);
    case Fetch => N.FetchKeepsInv(s);
    case Post(cpl) => N.PostKeepsInv(s, cpl);
  }

  lemma StartKeepsInv(s: State, t: nat, body: nat)
    requires Inv(s) && T.Step(s.tags, T.Cqe(t, T.Ok, true)).Some?
    ensures Step(s, Start(t, body)).Some? && Inv(Step(s, Start(t, body)).value)
  {
    hide T.Inv, N.Inv, N.Busy, T.Step, N.Step;
    IdentifierIsFree(s, t);
    N.SubmitKeepsInv(s.dev, N.Command(t, body));
    T.StepKeepsInv(s.tags, T.Cqe(t, T.Ok, true));
    AnswerHeld(s.tags, t, T.Ok, true);
    AfterSubmitDepth(s.dev, N.Command(t, body));
  }

  lemma AfterSubmitDepth(s: N.State, cmd: N.Command)
    ensures N.AfterSubmit(s, cmd).depth == s.depth
  {
  }

  lemma FinishKeepsInv(s: State, result: int, sqe: bool)
    requires Inv(s) && s.dev.consumed < |s.dev.posted|
    ensures Step(s, Finish(result, sqe)).Some? && Inv(Step(s, Finish(result, sqe)).value)
  {
    hide T.Inv, N.Inv, N.Busy, T.Step, N.Step;
    var t := s.dev.posted[s.dev.consumed].cid;
    CompletionIsHeld(s);
    ConsumeFacts(s.dev);
    HeldCanComplete(s.tags, t, result, sqe);
    T.StepKeepsInv(s.tags, T.Complete(t, result, sqe));
    CompleteHeld(s.tags, t, result, sqe);
  }

  lemma HeldCanComplete(s: T.State, t: nat, result: int, sqe: bool)
    requires t < |s.tags| && s.tags[t].held
    ensures T.Step(s, T.Complete(t, result, sqe)).Some?
  {
  }

  lemma RejectKeepsInv(s: State, t: nat, result: int, sqe: bool)
    requires Inv(s) && Step(s, Reject(t, result, sqe)).Some?
    ensures Inv(Step(s, Reject(t, result, sqe)).value)
  {
    hide T.Inv, N.Inv, N.Busy, T.Step, N.Step;
    IdentifierIsFree(s, t);
    T.StepKeepsInv(s.tags, T.Cqe(t, T.Ok, true));
    AnswerHeld(s.tags, t, T.Ok, true);
    var m := T.Step(s.tags, T.Cqe(t, T.Ok, true)).value;
    T.StepKeepsInv(m, T.Complete(t, result, sqe));
    CompleteHeld(m, t, result, sqe);
  }

  lemma StepKeepsInv(s: State, e: Event)
    requires Inv(s) && Step(s, e).Some?
    ensures Inv(Step(s, e).value) && |Step(s, e).value.tags.tags| == |s.tags.tags|
  {
    hide T.Inv, N.Inv, N.Busy, T.Step, N.Step;
    match e
    case Kick(t, sqe) =>
      T.StepKeepsInv(s.tags, T.Kick(t, sqe));
      KickHeld(s.tags, t, sqe);
    case Answer(t, res, sqe) =>
      T.StepKeepsInv(s.tags, T.Cqe(t, res, sqe));
      AnswerHeld(s.tags, t, res, sqe);
    case Start(t, body) =>
      StartKeepsInv(s, t, body);
      AnswerHeld(s.tags, t, T.Ok, true);
    case Reject(t, result, sqe) =>
      RejectKeepsInv(s, t, result, sqe);
      AnswerHeld(s.tags, t, T.Ok, true);
      CompleteHeld(T.Step(s.tags, T.Cqe(t, T.Ok, true)).value, t, result, sqe);
    case Flush => DeviceStep(s.dev, N.Flush);
    case Fetch => DeviceStep(s.dev, N.Fetch);
    case Post(cpl) => DeviceStep(s.dev, N.Post(cpl));
    case Finish(result, sqe) =>
      FinishKeepsInv(s, result, sqe);
      CompleteHeld(s.tags, s.dev.posted[s.dev.consumed].cid, result, sqe);
  }

  lemma {:induction false} RunKeepsInv(depth: nat, es: seq<Event>)
    requires 1 <= depth && Run(depth, es).Some?
    ensures Inv(Run(depth, es).value) && |Run(depth, es).value.tags.tags| == depth
  {
    hide Inv, Step;
    if es == [] {
      InitInv(depth);
      assert |T.Init(depth).tags| == depth;
    } else {
      RunKeepsInv(depth, es[..|es| - 1]);
      StepKeepsInv(Run(depth, es[..|es| - 1]).value, es[|es| - 1]);
    }
  }

  // ---- results ----

  /** In every run a command is under way exactly for the tags whose request the target has. */
  lemma BusyIffHeld(depth: nat, es: seq<Event>, t: nat)
    requires 1 <= depth && Run(depth, es).Some? && t < depth
    ensures var s := Run(depth, es).value;
            && |s.tags.tags| == depth && N.Ordered(s.dev)
            && (t in N.Busy(s.dev) <==> s.tags.tags[t].held)
  {
    RunKeepsInv(depth, es);
  }

  /** In every run a request that is delivered can be submitted: what NvmeProtocol asks of a submission holds. */
  lemma DeliveredCanBeSubmitted(depth: nat, es: seq<Event>, t: nat, body: nat)
    requires 1 <= depth && Run(depth, es).Some? && T.Step(Run(depth, es).value.tags, T.Cqe(t, T.Ok, true)).Some?
    ensures N.Step(Run(depth, es).value.dev, N.Submit(N.Command(t, body))).Some?
    ensures Step(Run(depth, es).value, Start(t, body)).Some?
  {
    hide Inv, Run;
    RunKeepsInv(depth, es);
    StartKeepsInv(Run(depth, es).value, t, body);
  }

  /** In every run a completion that is waiting can be finished: the target has the request of its identifier. */
  lemma CompletedCanBeFinished(depth: nat, es: seq<Event>, result: int, sqe: bool)
    requires 1 <= depth && Run(depth, es).Some? && Run(depth, es).value.dev.consumed < |Run(depth, es).value.dev.posted|
    ensures Step(Run(depth, es).value, Finish(result, sqe)).Some?
  {
    hide Inv, Run;
    RunKeepsInv(depth, es);
    FinishKeepsInv(Run(depth, es).value, result, sqe);
  }
}
