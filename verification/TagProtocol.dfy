/**
Per-tag command mode: four flag bits for each tag, an in-flight counter and a stopping state decide
which command goes to the driver and when the queue loop may end. The functions here are the code
on values; TagQueue runs them on the queue's own fields.
*/
module TagProtocol {
  import opened Common
  import Io = IoProtocol

  datatype Flags = Flags(needFetch: bool, needCommit: bool, ioFree: bool, needGetData: bool)

  const NO_FLAGS := Flags(false, false, false, false)
  const FRESH := Flags(true, false, true, false)
  const FREE := Flags(false, false, true, false)

  datatype Command = FetchReq | CommitAndFetch(result: int) | NeedGetData

  /** The driver's answer; every error code but ABORT is an Other. */
  datatype Res = Ok | GetData | Abort | Other

  /** A command at the driver, and whether the queue was already stopping when it was issued. */
  datatype Issued = Issued(cmd: Command, afterStop: bool)

  datatype Entry = Issue(cmd: Command) | Answer(res: Res) | Finish(result: int)

  datatype Tag = Tag(
    flags: Flags,
    result: int,
    out: Option<Issued>,    // the command the driver has
    held: bool,             // delivered to the target and not finished
    log: seq<Entry>)

  datatype State = State(
    tags: seq<Tag>,
    cmdInflight: int,
    stopping: bool,
    meaning: seq<Io.Event>)   // the run so far, in terms of IoProtocol

  /** One call from outside. sqe says whether a submission entry can be had. */
  datatype Event =
    | Kick(tag: nat, sqe: bool)
    | Cqe(tag: nat, res: Res, sqe: bool)
    | Complete(tag: nat, result: int, sqe: bool)

  function Init(depth: nat): State
  {
    State(seq(depth, _ => Tag(FRESH, 0, None, false, [])), 0, false, [])
  }

  /** The command the flags ask for, if any. */
  function Wanted(io: Tag): Option<Command>
  {
    if !io.flags.ioFree then None
    else if io.flags.needGetData then Some(NeedGetData)
    else if io.flags.needCommit then Some(CommitAndFetch(io.result))
    else if io.flags.needFetch then Some(FetchReq)
    else None
  }

  function QueueIoCmd(s: State, t: nat, sqe: bool): State
    requires t < |s.tags|
  {
    var io := s.tags[t];
    if Wanted(io).None? || !sqe then s else
    var cmd := Wanted(io).value;
    State(s.tags[t := io.(flags := NO_FLAGS, out := Some(Issued(cmd, s.stopping)), log := io.log + [Issue(cmd)])],
          s.cmdInflight + 1,
          s.stopping,
          if cmd.CommitAndFetch? then s.meaning + [Io.Commit(t)] else s.meaning)
  }

  function HandleCqe(s: State, t: nat, res: Res, sqe: bool): State
    requires t < |s.tags|
  {
    var io := s.tags[t].(out := None, log := s.tags[t].log + [Answer(res)]);
    var stop := s.stopping || res == Abort;
    var io1 := if stop then io.(flags := io.flags.(needFetch := false)) else io;
    match res
    case Ok => State(s.tags[t := io1.(held := true)], s.cmdInflight - 1, stop, s.meaning + [Io.Deliver(t)])
    case GetData =>
      QueueIoCmd(State(s.tags[t := io1.(flags := io1.flags.(needGetData := true, ioFree := true))],
                       s.cmdInflight - 1, stop, s.meaning), t, sqe)
    case _ => State(s.tags[t := io1.(flags := FREE)], s.cmdInflight - 1, stop, s.meaning)
  }

  function CompleteIo(s: State, t: nat, result: int, sqe: bool): State
    requires t < |s.tags|
  {
    var io := s.tags[t];
    QueueIoCmd(s.(tags := s.tags[t := io.(held := false, result := result, log := io.log + [Finish(result)],
                                          flags := io.flags.(needCommit := true, ioFree := true))],
                  meaning := s.meaning + [Io.Finish(t, result)]), t, sqe)
  }

  /**
  The driver answers only a command it has, and not a commit or fetch twice; the target finishes
  only what it holds. Both are promises of the other side.
  */
  function Step(s: State, e: Event): Option<State>
  {
    if e.tag >= |s.tags| then None else
    match e
    case Kick(t, sqe) => Some(QueueIoCmd(s, t, sqe))
    case Cqe(t, res, sqe) => if s.tags[t].out.Some? then Some(HandleCqe(s, t, res, sqe)) else None
    case Complete(t, r, sqe) => if s.tags[t].held then Some(CompleteIo(s, t, r, sqe)) else None
  }

  function Run(depth: nat, es: seq<Event>): Option<State>
  {
    if es == [] then Some(Init(depth)) else
    match Run(depth, es[..|es| - 1])
    case None => None
    case Some(s) => Step(s, es[|es| - 1])
  }

  // ---- the discipline of one tag ----

  /** Where a tag is, told from its log alone. */
  datatype Phase = Fresh | AtDriver | AtTarget | WantData | WantCommit(result: int) | Retired

  /** The exchange the driver expects of a tag. Anything not listed is a protocol violation. */
  function Next(p: Phase, e: Entry): Option<Phase>
  {
    match (p, e)
    case (Fresh, Issue(FetchReq)) => Some(AtDriver)
    case (AtDriver, Answer(Ok)) => Some(AtTarget)
    case (AtDriver, Answer(GetData)) => Some(WantData)
    case (AtDriver, Answer(_)) => Some(Retired)
    case (WantData, Issue(NeedGetData)) => Some(AtDriver)
    case (AtTarget, Finish(r)) => Some(WantCommit(r))
    case (WantCommit(r), Issue(CommitAndFetch(x))) => if r == x then Some(AtDriver) else None
    case _ => None
  }

  function PhaseOf(log: seq<Entry>): Option<Phase>
  {
    if log == [] then Some(Fresh) else
    match PhaseOf(log[..|log| - 1])
    case None => None
    case Some(p) => Next(p, log[|log| - 1])
  }

  lemma PhaseAppend(log: seq<Entry>, e: Entry)
    ensures PhaseOf(log + [e]) == (match PhaseOf(log) case None => None case Some(p) => Next(p, e))
  {
    assert (log + [e])[..|log|] == log;
  }

  /** The fields of a tag say the same as its log. */
  predicate TagOk(io: Tag)
  {
    match PhaseOf(io.log)
    case None => false
    case Some(Fresh) => io.flags == FRESH && io.out.None? && !io.held
    case Some(AtDriver) => io.flags == NO_FLAGS && io.out.Some? && !io.held
    case Some(AtTarget) => io.flags == NO_FLAGS && io.out.None? && io.held
    case Some(WantData) => io.flags == FREE.(needGetData := true) && io.out.None? && !io.held
    case Some(WantCommit(r)) =>
      io.flags == FREE.(needCommit := true) && io.out.None? && !io.held && io.result == r
    case Some(Retired) => io.flags == FREE && io.out.None? && !io.held
  }

  function OwnerOf(io: Tag): Io.Owner
  {
    if io.held then Io.Target
    else if io.flags.needCommit then Io.Finished(io.result)
    else Io.Driver
  }

  function Owners(tags: seq<Tag>): (os: seq<Io.Owner>)
    ensures |os| == |tags|
    ensures forall t :: 0 <= t < |tags| ==> os[t] == OwnerOf(tags[t])
  {
    seq(|tags|, t requires 0 <= t < |tags| => OwnerOf(tags[t]))
  }

  /** The run means something in IoProtocol, and the tags are where it says. */
  predicate Meaningful(s: State)
  {
    var m := Io.Steps(Io.Init(|s.tags|), s.meaning);
    m.Some? && m.value.owners == Owners(s.tags)
  }

  function CountOut(tags: seq<Tag>): nat
  {
    if tags == [] then 0 else (if tags[0].out.Some? then 1 else 0) + CountOut(tags[1..])
  }

  lemma {:induction false} CountOutUpdate(tags: seq<Tag>, t: nat, io: Tag)
    requires t < |tags|
    ensures CountOut(tags[t := io]) - CountOut(tags)
         == (if io.out.Some? then 1 else 0) - (if tags[t].out.Some? then 1 else 0)
  {
    if t == 0 {
      assert tags[t := io][1..] == tags[1..];
    } else {
      CountOutUpdate(tags[1..], t - 1, io);
      assert tags[t := io][1..] == tags[1..][t - 1 := io];
    }
  }

  predicate Inv(s: State)
  {
    && (forall t :: 0 <= t < |s.tags| ==> TagOk(s.tags[t]))
    && s.cmdInflight == CountOut(s.tags)
    && Meaningful(s)
  }

  /** One tag moves and the meaning of the run with it. */
  lemma MeaningStep(s: State, s': State, t: nat, e: Io.Event)
    requires Meaningful(s) && t < |s.tags| == |s'.tags| && e.tag == t
    requires s'.meaning == s.meaning + [e] && s'.tags == s.tags[t := s'.tags[t]]
    requires match e
             case Deliver(_) => OwnerOf(s.tags[t]) == Io.Driver && OwnerOf(s'.tags[t]) == Io.Target
             case Finish(_, r) => OwnerOf(s.tags[t]) == Io.Target && OwnerOf(s'.tags[t]) == Io.Finished(r)
             case Commit(_) => OwnerOf(s.tags[t]).Finished? && OwnerOf(s'.tags[t]) == Io.Driver
    ensures Meaningful(s')
  {
    hide OwnerOf;
    assert s'.meaning[..|s'.meaning| - 1] == s.meaning;
    assert Owners(s'.tags) == Owners(s.tags)[t := OwnerOf(s'.tags[t])];
  }

  lemma MeaningSame(s: State, s': State, t: nat)
    requires Meaningful(s) && t < |s.tags| == |s'.tags|
    requires s'.meaning == s.meaning && s'.tags == s.tags[t := s'.tags[t]]
    requires OwnerOf(s'.tags[t]) == OwnerOf(s.tags[t])
    ensures Meaningful(s')
  {
    hide OwnerOf;
    assert Owners(s'.tags) == Owners(s.tags);
  }

  /** A step that changes one tag keeps the invariant if it does so for that tag. */
  lemma OneTagKeepsInv(s: State, s': State, t: nat)
    requires Inv(s) && t < |s.tags| == |s'.tags| && s'.tags == s.tags[t := s'.tags[t]]
    requires TagOk(s'.tags[t]) && Meaningful(s')
    requires s'.cmdInflight - s.cmdInflight
          == (if s'.tags[t].out.Some? then 1 else 0) - (if s.tags[t].out.Some? then 1 else 0)
    ensures Inv(s')
  {
    hide TagOk, Meaningful;
    CountOutUpdate(s.tags, t, s'.tags[t]);
    hide CountOut;
  }

  lemma IssueKeepsTagOk(io: Tag, afterStop: bool)
    requires TagOk(io) && Wanted(io).Some?
    ensures var cmd := Wanted(io).value;
            var io' := io.(flags := NO_FLAGS, out := Some(Issued(cmd, afterStop)), log := io.log + [Issue(cmd)]);
            && TagOk(io') && io.out.None?
            && OwnerOf(io') == Io.Driver
            && (if cmd.CommitAndFetch? then OwnerOf(io).Finished? else OwnerOf(io) == Io.Driver)
  {
    PhaseAppend(io.log, Issue(Wanted(io).value));
  }

  lemma QueueIoCmdKeepsInv(s: State, t: nat, sqe: bool)
    requires Inv(s) && t < |s.tags|
    ensures Inv(QueueIoCmd(s, t, sqe))
  {
    var s' := QueueIoCmd(s, t, sqe);
    if Wanted(s.tags[t]).Some? && sqe {
      IssueKeepsTagOk(s.tags[t], s.stopping);
      hide TagOk, Meaningful, OwnerOf, CountOut;
      if Wanted(s.tags[t]).value.CommitAndFetch? {
        MeaningStep(s, s', t, Io.Commit(t));
      } else {
        MeaningSame(s, s', t);
      }
      OneTagKeepsInv(s, s', t);
    }
  }

  /** While the driver or the target has a tag, none of its flags is set. */
  lemma FlagsClear(s: State, t: nat)
    requires Inv(s) && t < |s.tags| && (s.tags[t].out.Some? || s.tags[t].held)
    ensures s.tags[t].flags == NO_FLAGS
  {
    assert TagOk(s.tags[t]);
  }

  /** The fields of the queue after an answer. */
  lemma HandleCqeFields(s: State, t: nat, res: Res, sqe: bool)
    requires t < |s.tags| && s.tags[t].flags == NO_FLAGS
    ensures var s' := HandleCqe(s, t, res, sqe);
            && |s'.tags| == |s.tags| && (forall u :: 0 <= u < |s.tags| && u != t ==> s'.tags[u] == s.tags[u])
            && s'.tags[t].result == s.tags[t].result
            && s'.tags[t].flags == (match res
                                    case Ok => NO_FLAGS
                                    case GetData => if sqe then NO_FLAGS else FREE.(needGetData := true)
                                    case _ => FREE)
            && s'.cmdInflight == (if res == GetData && sqe then s.cmdInflight else s.cmdInflight - 1)
            && s'.stopping == (s.stopping || res == Abort)
  {
  }

  /** The fields of the queue after a completion by the target. */
  lemma CompleteIoFields(s: State, t: nat, r: int, sqe: bool)
    requires t < |s.tags| && s.tags[t].flags == NO_FLAGS
    ensures var s' := CompleteIo(s, t, r, sqe);
            && |s'.tags| == |s.tags| && (forall u :: 0 <= u < |s.tags| && u != t ==> s'.tags[u] == s.tags[u])
            && s'.tags[t].result == r
            && s'.tags[t].flags == (if sqe then NO_FLAGS else FREE.(needCommit := true))
            && s'.cmdInflight == (if sqe then s.cmdInflight + 1 else s.cmdInflight)
            && s'.stopping == s.stopping
  {
  }

  /** The tag after its answer has been noted, before any new command is issued. */
  function Answered(s: State, t: nat, res: Res): State
    requires t < |s.tags|
  {
    HandleCqe(s, t, res, false)
  }

  lemma AnswerKeepsInv(s: State, t: nat, res: Res)
    requires Inv(s) && t < |s.tags| && s.tags[t].out.Some?
    ensures Inv(Answered(s, t, res))
  {
    var s' := Answered(s, t, res);
    AnswerKeepsTagOk(s.tags[t], res, s.stopping || res == Abort);
    hide TagOk, Meaningful, OwnerOf, CountOut;
    if res == Ok {
      MeaningStep(s, s', t, Io.Deliver(t));
    } else {
      MeaningSame(s, s', t);
    }
    OneTagKeepsInv(s, s', t);
  }

  lemma AnswerKeepsTagOk(io: Tag, res: Res, stop: bool)
    requires TagOk(io) && io.out.Some?
    ensures var io1 := io.(out := None, log := io.log + [Answer(res)]);
            var io2 := if stop then io1.(flags := io1.flags.(needFetch := false)) else io1;
            && OwnerOf(io) == Io.Driver
            && (match res
                case Ok => TagOk(io2.(held := true)) && OwnerOf(io2.(held := true)) == Io.Target
                case GetData =>
                  var io3 := io2.(flags := io2.flags.(needGetData := true, ioFree := true));
                  TagOk(io3) && OwnerOf(io3) == Io.Driver
                case _ => TagOk(io2.(flags := FREE)) && OwnerOf(io2.(flags := FREE)) == Io.Driver)
  {
    PhaseAppend(io.log, Answer(res));
  }

  lemma FinishKeepsInv(s: State, t: nat, result: int)
    requires Inv(s) && t < |s.tags| && s.tags[t].held
    ensures Inv(CompleteIo(s, t, result, false))
  {
    var s' := CompleteIo(s, t, result, false);
    PhaseAppend(s.tags[t].log, Finish(result));
    assert TagOk(s'.tags[t]) && TagOk(s.tags[t]);
    hide TagOk, Meaningful, CountOut;
    MeaningStep(s, s', t, Io.Finish(t, result));
    OneTagKeepsInv(s, s', t);
  }

  lemma StepKeepsInv(s: State, e: Event)
    requires Inv(s) && Step(s, e).Some?
    ensures Inv(Step(s, e).value) && |Step(s, e).value.tags| == |s.tags|
  {
    hide Inv;
    match e
    case Kick(t, sqe) => QueueIoCmdKeepsInv(s, t, sqe);
    case Cqe(t, res, sqe) =>
      AnswerKeepsInv(s, t, res);
      QueueIoCmdKeepsInv(Answered(s, t, res), t, sqe);
    case Complete(t, r, sqe) =>
      FinishKeepsInv(s, t, r);
      QueueIoCmdKeepsInv(CompleteIo(s, t, r, false), t, sqe);
  }

  lemma {:induction false} RunKeepsInv(depth: nat, es: seq<Event>)
    requires Run(depth, es).Some?
    ensures Inv(Run(depth, es).value) && |Run(depth, es).value.tags| == depth
  {
    hide Inv, Step;
    if es == [] {
      InitInv(depth);
    } else {
      RunKeepsInv(depth, es[..|es| - 1]);
      StepKeepsInv(Run(depth, es[..|es| - 1]).value, es[|es| - 1]);
    }
  }

  lemma InitInv(depth: nat)
    ensures Inv(Init(depth))
  {
    NoneOut(Init(depth).tags);
  }

  lemma {:induction false} NoneOut(tags: seq<Tag>)
    requires forall t :: 0 <= t < |tags| ==> tags[t].out.None?
    ensures CountOut(tags) == 0
  {
    if tags != [] {
      NoneOut(tags[1..]);
    }
  }

  // ---- what a legal exchange looks like ----

  function Commands(log: seq<Entry>): seq<Command>
  {
    if log == [] then [] else
    var last := log[|log| - 1];
    Commands(log[..|log| - 1]) + (if last.Issue? then [last.cmd] else [])
  }

  /** The results the target gave, in order. */
  function Finishes(log: seq<Entry>): seq<int>
  {
    if log == [] then [] else
    var last := log[|log| - 1];
    Finishes(log[..|log| - 1]) + (if last.Finish? then [last.result] else [])
  }

  /** The results committed, in order. */
  function Commits(log: seq<Entry>): seq<int>
  {
    if log == [] then [] else
    var last := log[|log| - 1];
    Commits(log[..|log| - 1]) + (if last.Issue? && last.cmd.CommitAndFetch? then [last.cmd.result] else [])
  }

  function Answers(log: seq<Entry>): nat
  {
    if log == [] then 0 else Answers(log[..|log| - 1]) + (if log[|log| - 1].Answer? then 1 else 0)
  }

  function Deliveries(log: seq<Entry>): nat
  {
    if log == [] then 0 else Deliveries(log[..|log| - 1]) + (if log[|log| - 1] == Answer(Ok) then 1 else 0)
  }

  /** One fetch first, never again; afterwards only commits, each possibly preceded by get-data. */
  predicate FetchedOnce(cs: seq<Command>)
  {
    forall i :: 0 <= i < |cs| ==> (cs[i] == FetchReq <==> i == 0)
  }

  /** What is true of the commands, answers, results and deliveries of a legal exchange. */
  predicate Balanced(log: seq<Entry>, p: Phase)
  {
    && FetchedOnce(Commands(log))
    && |Commands(log)| == Answers(log) + (if p == AtDriver then 1 else 0)
    && Finishes(log) == Commits(log) + (match p case WantCommit(r) => [r] case _ => [])
    && Deliveries(log) == |Finishes(log)| + (if p == AtTarget then 1 else 0)
    && (Commands(log) == [] <==> p == Fresh)
  }

  lemma BalancedNext(log: seq<Entry>, p: Phase, e: Entry)
    requires Balanced(log, p) && Next(p, e).Some?
    ensures Balanced(log + [e], Next(p, e).value)
  {
    hide Commands, Answers, Finishes, Commits, Deliveries;
    OneMoreEntry(log, e);
  }

  /**
  A legal exchange has one command outstanding at most; what it commits is what the target gave,
  each result once and in order; and every result answers one delivery.
  */
  lemma {:induction false} LegalExchange(log: seq<Entry>)
    requires PhaseOf(log).Some?
    ensures FetchedOnce(Commands(log))
    ensures |Commands(log)| == Answers(log) + (if PhaseOf(log).value == AtDriver then 1 else 0)
    ensures Finishes(log) == Commits(log) + (match PhaseOf(log).value case WantCommit(r) => [r] case _ => [])
    ensures Deliveries(log) == |Finishes(log)| + (if PhaseOf(log).value == AtTarget then 1 else 0)
    ensures Commands(log) == [] <==> PhaseOf(log).value == Fresh
  {
    LegalIsBalanced(log);
  }

  lemma {:induction false} LegalIsBalanced(log: seq<Entry>)
    requires PhaseOf(log).Some?
    ensures Balanced(log, PhaseOf(log).value)
  {
    if log != [] {
      hide Balanced;
      var front, e := log[..|log| - 1], log[|log| - 1];
      assert log == front + [e];
      LegalIsBalanced(front);
      BalancedNext(front, PhaseOf(front).value, e);
    }
  }

  lemma OneMoreEntry(log: seq<Entry>, e: Entry)
    ensures Commands(log + [e]) == Commands(log) + (if e.Issue? then [e.cmd] else [])
    ensures Answers(log + [e]) == Answers(log) + (if e.Answer? then 1 else 0)
    ensures Finishes(log + [e]) == Finishes(log) + (if e.Finish? then [e.result] else [])
    ensures Commits(log + [e]) == Commits(log) + (if e.Issue? && e.cmd.CommitAndFetch? then [e.cmd.result] else [])
    ensures Deliveries(log + [e]) == Deliveries(log) + (if e == Answer(Ok) then 1 else 0)
  {
    assert (log + [e])[..|log|] == log;
  }

  /** Nothing may follow once a tag has been retired. */
  lemma {:induction false} RetiredIsFinal(log: seq<Entry>, more: seq<Entry>)
    requires PhaseOf(log) == Some(Retired) && PhaseOf(log + more).Some?
    ensures more == []
  {
    if more != [] {
      var k := |more| - 1;
      assert (log + more)[..|log| + k] == log + more[..k];
      RetiredIsFinal(log, more[..k]);
    }
  }

  /** Logs only grow. */
  lemma StepExtendsLog(s: State, e: Event, t: nat)
    requires Step(s, e).Some? && t < |s.tags|
    ensures |Step(s, e).value.tags| == |s.tags| && s.tags[t].log <= Step(s, e).value.tags[t].log
    ensures s.stopping ==> Step(s, e).value.stopping
  {
  }

  /** In every run, every tag keeps to a legal exchange. */
  lemma TagDiscipline(depth: nat, es: seq<Event>, t: nat)
    requires Run(depth, es).Some? && t < depth
    ensures |Run(depth, es).value.tags| == depth
    ensures var io := Run(depth, es).value.tags[t];
            && PhaseOf(io.log).Some?
            && FetchedOnce(Commands(io.log))
            && (|Commands(io.log)| == Answers(io.log) + (if io.out.Some? then 1 else 0))
            && Commits(io.log) <= Finishes(io.log) && |Finishes(io.log)| <= Deliveries(io.log)
  {
    RunKeepsInv(depth, es);
    assert TagOk(Run(depth, es).value.tags[t]);
    LegalExchange(Run(depth, es).value.tags[t].log);
  }

  /** A tag the driver has retired gets no further command, whatever happens afterwards. */
  lemma {:induction false} RetiredNeverReissued(depth: nat, es: seq<Event>, fs: seq<Event>, t: nat)
    requires Run(depth, es).Some? && Run(depth, es + fs).Some? && t < depth
    ensures |Run(depth, es).value.tags| == |Run(depth, es + fs).value.tags| == depth
    ensures PhaseOf(Run(depth, es).value.tags[t].log) == Some(Retired) ==>
      Run(depth, es + fs).value.tags[t].log == Run(depth, es).value.tags[t].log
  {
    hide Inv, Step, PhaseOf;
    RunKeepsInv(depth, es);
    if fs == [] {
      assert es + fs == es;
    } else {
      var k := |fs| - 1;
      assert (es + fs)[..|es| + k] == es + fs[..k];
      RetiredNeverReissued(depth, es, fs[..k], t);
      RunKeepsInv(depth, es + fs[..k]);
      RunKeepsInv(depth, es + fs);
      if PhaseOf(Run(depth, es).value.tags[t].log) == Some(Retired) {
        RetiredStays(Run(depth, es + fs[..k]).value, fs[k], t);
      }
    }
  }

  lemma RetiredStays(s: State, e: Event, t: nat)
    requires Inv(s) && Step(s, e).Some? && Inv(Step(s, e).value) && t < |s.tags| == |Step(s, e).value.tags|
    requires PhaseOf(s.tags[t].log) == Some(Retired)
    ensures Step(s, e).value.tags[t].log == s.tags[t].log
  {
    hide Step, Inv;
    var s' := Step(s, e).value;
    StepExtendsLog(s, e, t);
    HasPhase(s', t);
    hide PhaseOf;
    var log, log' := s.tags[t].log, s'.tags[t].log;
    assert log' == log + log'[|log|..];
    RetiredIsFinal(log, log'[|log|..]);
  }

  lemma HasPhase(s: State, t: nat)
    requires Inv(s) && t < |s.tags|
    ensures PhaseOf(s.tags[t].log).Some?
  {
    hide CountOut, Meaningful;
    assert TagOk(s.tags[t]);
  }

  /** The events of one tag in a run of IoProtocol. */
  function EventsOf(es: seq<Io.Event>, t: nat): seq<Io.Event>
  {
    if es == [] then [] else
    var last := es[|es| - 1];
    EventsOf(es[..|es| - 1], t) + (if last.tag == t then [last] else [])
  }

  /** What the exchange of a tag means in IoProtocol. */
  function MeaningOf(log: seq<Entry>, t: nat): seq<Io.Event>
  {
    if log == [] then [] else
    MeaningOf(log[..|log| - 1], t) + EntryMeaning(log[|log| - 1], t)
  }

  function EntryMeaning(e: Entry, t: nat): seq<Io.Event>
  {
    match e
    case Answer(Ok) => [Io.Deliver(t)]
    case Finish(r) => [Io.Finish(t, r)]
    case Issue(CommitAndFetch(_)) => [Io.Commit(t)]
    case _ => []
  }

  predicate Projected(s: State, t: nat)
  {
    t < |s.tags| && EventsOf(s.meaning, t) == MeaningOf(s.tags[t].log, t)
  }

  /** An entry in the log of u, with its meaning, changes the view of u alone. */
  lemma EntryKeepsProjected(s: State, s': State, u: nat, e: Entry, t: nat)
    requires Projected(s, t) && u < |s.tags| == |s'.tags|
    requires s'.tags[u].log == s.tags[u].log + [e] && s'.meaning == s.meaning + EntryMeaning(e, u)
    requires t != u ==> s'.tags[t] == s.tags[t]
    ensures Projected(s', t)
  {
    assert s'.tags[u].log[..|s.tags[u].log|] == s.tags[u].log;
    if EntryMeaning(e, u) == [] {
      assert s'.meaning == s.meaning;
    } else {
      assert s'.meaning[..|s.meaning|] == s.meaning;
    }
  }

  lemma QueueIoCmdKeepsProjected(s: State, u: nat, sqe: bool, t: nat)
    requires Projected(s, t) && u < |s.tags|
    ensures Projected(QueueIoCmd(s, u, sqe), t)
  {
    hide Projected;
    if Wanted(s.tags[u]).Some? && sqe {
      var cmd := Wanted(s.tags[u]).value;
      InProjection(s, t);
      EntryKeepsProjected(s, QueueIoCmd(s, u, sqe), u, Issue(cmd), t);
    }
  }

  lemma InProjection(s: State, t: nat)
    requires Projected(s, t)
    ensures t < |s.tags|
  {
  }

  lemma AnsweredEntry(s: State, u: nat, res: Res, sqe: bool)
    requires u < |s.tags|
    ensures var m := Answered(s, u, res);
            && |m.tags| == |s.tags| && m.tags[u].log == s.tags[u].log + [Answer(res)]
            && m.meaning == s.meaning + EntryMeaning(Answer(res), u)
            && (forall t :: 0 <= t < |s.tags| && t != u ==> m.tags[t] == s.tags[t])
            && HandleCqe(s, u, res, sqe) == if res == GetData then QueueIoCmd(m, u, sqe) else m
  {
  }

  lemma StepKeepsProjected(s: State, e: Event, t: nat)
    requires Projected(s, t) && Step(s, e).Some?
    ensures Projected(Step(s, e).value, t)
  {
    hide Projected, QueueIoCmd;
    InProjection(s, t);
    match e
    case Kick(u, sqe) => QueueIoCmdKeepsProjected(s, u, sqe, t);
    case Cqe(u, res, sqe) =>
      var m := Answered(s, u, res);
      AnsweredEntry(s, u, res, sqe);
      EntryKeepsProjected(s, m, u, Answer(res), t);
      QueueIoCmdKeepsProjected(m, u, sqe, t);
    case Complete(u, r, sqe) =>
      var io := s.tags[u];
      var m := s.(tags := s.tags[u := io.(held := false, result := r, log := io.log + [Finish(r)],
                                          flags := io.flags.(needCommit := true, ioFree := true))],
                  meaning := s.meaning + [Io.Finish(u, r)]);
      EntryKeepsProjected(s, m, u, Finish(r), t);
      QueueIoCmdKeepsProjected(m, u, sqe, t);
  }

  lemma {:induction false} RunKeepsProjected(depth: nat, es: seq<Event>, t: nat)
    requires Run(depth, es).Some? && t < depth
    ensures Projected(Run(depth, es).value, t)
  {
    hide Step;
    if es != [] {
      hide Projected;
      RunKeepsProjected(depth, es[..|es| - 1], t);
      StepKeepsProjected(Run(depth, es[..|es| - 1]).value, es[|es| - 1], t);
    }
  }

  /**
  The run refines IoProtocol: what it means there is a run, whose events for each tag are exactly what
  that tag's exchange means, and which leaves every tag with the owner its flags say. So
  CommitsAreFinishes holds of it.
  */
  lemma RefinesIoProtocol(depth: nat, es: seq<Event>, t: nat)
    requires Run(depth, es).Some? && t < depth
    ensures var s := Run(depth, es).value;
            var m := Io.Steps(Io.Init(depth), s.meaning);
            && |s.tags| == depth && m.Some? && m.value.owners == Owners(s.tags)
            && EventsOf(s.meaning, t) == MeaningOf(s.tags[t].log, t)
            && Io.Results(m.value.committed, t) <= Io.Results(m.value.finished, t)
  {
    RunKeepsInv(depth, es);
    RunKeepsProjected(depth, es, t);
    Io.CommitsAreFinishes(depth, Run(depth, es).value.meaning, t);
  }

  // ---- shutdown ----

  /** The queue loop ends when this holds; ready counts the entries on the submission ring, the target's too. */
  predicate IsDone(s: State, ready: nat)
  {
    s.stopping && ready == 0 && s.cmdInflight == 0
  }

  /**
  When the loop ends the driver has no command. Whether the results of a tag are all committed, and
  whether its requests are all finished, can be read off two of its flags.
  */
  lemma DoneMeansNothingOutstanding(depth: nat, es: seq<Event>, ready: nat, t: nat)
    requires Run(depth, es).Some? && IsDone(Run(depth, es).value, ready) && t < depth
    ensures |Run(depth, es).value.tags| == depth
    ensures var io := Run(depth, es).value.tags[t];
            && io.out.None?
            && (Commits(io.log) == Finishes(io.log) <==> !io.flags.needCommit)
            && (|Finishes(io.log)| == Deliveries(io.log) <==> io.flags.ioFree)
  {
    RunKeepsInv(depth, es);
    var s := Run(depth, es).value;
    NoneOutFromCount(s.tags, t);
    assert TagOk(s.tags[t]);
    LegalExchange(s.tags[t].log);
  }

  lemma {:induction false} NoneOutFromCount(tags: seq<Tag>, t: nat)
    requires CountOut(tags) == 0 && t < |tags|
    ensures tags[t].out.None?
  {
    if t > 0 {
      NoneOutFromCount(tags[1..], t - 1);
    }
  }

  /** How many more events a tag can cause once the queue is stopping. */
  function Weight(io: Tag): nat
  {
    (match io.out case None => 0 case Some(i) => if i.afterStop then 1 else 3) + (if io.held then 2 else 0)
  }

  function Work(tags: seq<Tag>): nat
  {
    if tags == [] then 0 else Weight(tags[0]) + Work(tags[1..])
  }

  lemma {:induction false} WorkUpdate(tags: seq<Tag>, t: nat, io: Tag)
    requires t < |tags|
    ensures Work(tags[t := io]) + Weight(tags[t]) == Work(tags) + Weight(io)
  {
    hide Weight;
    if t == 0 {
      assert tags[t := io][1..] == tags[1..];
    } else {
      WorkUpdate(tags[1..], t - 1, io);
      assert tags[t := io][1..] == tags[1..][t - 1 := io];
    }
  }

  /**
  An event of a stopping queue: an answer or a completion, with a submission entry at hand. The
  driver answers what was issued after the stop by an error.
  */
  predicate ShutdownEvent(s: State, e: Event)
  {
    && s.stopping && e.tag < |s.tags| && !e.Kick? && e.sqe
    && (e.Cqe? && s.tags[e.tag].out.Some? && s.tags[e.tag].out.value.afterStop ==> e.res == Abort || e.res == Other)
  }

  lemma ShutdownStep(s: State, e: Event)
    requires Inv(s) && ShutdownEvent(s, e) && Step(s, e).Some?
    ensures var s' := Step(s, e).value;
            Work(s'.tags) < Work(s.tags) && s'.stopping
  {
    var s', t := Step(s, e).value, e.tag;
    assert TagOk(s.tags[t]);
    WorkUpdate(s.tags, t, s'.tags[t]);
    hide Work, PhaseOf, Inv;
    assert s'.tags == s.tags[t := s'.tags[t]];
  }

  /** A run that continues from s with shutdown events only. */
  function ShutdownRun(s: State, es: seq<Event>): Option<State>
  {
    if es == [] then Some(s) else
    match ShutdownRun(s, es[..|es| - 1])
    case None => None
    case Some(m) => if ShutdownEvent(m, es[|es| - 1]) then Step(m, es[|es| - 1]) else None
  }

  /** Shutdown ends: at most Work events remain after the stop, three for each tag at the most. */
  lemma {:induction false} ShutdownTerminates(s: State, es: seq<Event>)
    requires Inv(s) && s.stopping && ShutdownRun(s, es).Some?
    ensures var s' := ShutdownRun(s, es).value;
            && Inv(s') && s'.stopping
            && |es| + Work(s'.tags) <= Work(s.tags) <= 3 * |s.tags|
  {
    WorkBound(s.tags);
    if es != [] {
      ShutdownTerminates(s, es[..|es| - 1]);
      var m, e := ShutdownRun(s, es[..|es| - 1]).value, es[|es| - 1];
      hide Inv, Step, Work;
      ShutdownStep(m, e);
      StepKeepsInv(m, e);
    }
  }

  lemma {:induction false} WorkBound(tags: seq<Tag>)
    requires forall t :: 0 <= t < |tags| ==> TagOk(tags[t])
    ensures Work(tags) <= 3 * |tags|
  {
    if tags != [] {
      assert TagOk(tags[0]);
      WorkBound(tags[1..]);
    }
  }

  /** With no work left the loop condition holds and the target has everything behind it. */
  lemma NoWorkMeansDone(s: State, t: nat)
    requires Inv(s) && s.stopping && Work(s.tags) == 0 && t < |s.tags|
    ensures IsDone(s, 0) && !s.tags[t].held
  {
    NoWorkNoneOut(s.tags, t);
    forall u | 0 <= u < |s.tags| ensures s.tags[u].out.None? {
      NoWorkNoneOut(s.tags, u);
    }
    NoneOut(s.tags);
  }

  lemma {:induction false} NoWorkNoneOut(tags: seq<Tag>, t: nat)
    requires Work(tags) == 0 && t < |tags|
    ensures tags[t].out.None? && !tags[t].held
  {
    if t > 0 {
      NoWorkNoneOut(tags[1..], t - 1);
    }
  }

  /**
  The loop condition counts commands, not requests: here it holds while the target still has a
  delivered request that it has not finished, and whose result has no loop left to commit it.
  */
  lemma DoneWhileTargetHolds()
    ensures var es := [Kick(0, true), Kick(1, true), Cqe(0, Ok, true), Cqe(1, Abort, true)];
            && Run(2, es).Some? && IsDone(Run(2, es).value, 0)
            && |Run(2, es).value.tags| == 2 && !Run(2, es).value.tags[0].flags.ioFree
            && Finishes(Run(2, es).value.tags[0].log) == [] && Deliveries(Run(2, es).value.tags[0].log) == 1
  {
    hide Finishes, Deliveries;
    var e0: seq<Event> := [];
    var e1 := e0 + [Kick(0, true)];
    var e2 := e1 + [Kick(1, true)];
    var e3 := e2 + [Cqe(0, Ok, true)];
    var e4 := e3 + [Cqe(1, Abort, true)];
    var s0 := Init(2);
    var s1 := QueueIoCmd(s0, 0, true);
    var s2 := QueueIoCmd(s1, 1, true);
    var s3 := HandleCqe(s2, 0, Ok, true);
    assert Run(2, e0) == Some(s0);
    hide Run;
    RunExtend(2, e0, s0, Kick(0, true));
    RunExtend(2, e1, s1, Kick(1, true));
    RunExtend(2, e2, s2, Cqe(0, Ok, true));
    RunExtend(2, e3, s3, Cqe(1, Abort, true));
    assert e4 == [Kick(0, true), Kick(1, true), Cqe(0, Ok, true), Cqe(1, Abort, true)];
    assert HandleCqe(s3, 1, Abort, true).tags[0].log == [Issue(FetchReq), Answer(Ok)];
    OneDelivery();
  }

  // ---- whether the queue can still end ----

  predicate TagRetired(s: State, t: nat)
    requires t < |s.tags|
  {
    PhaseOf(s.tags[t].log) == Some(Retired)
  }

  /** A tag that is not retired has a command at the driver after at most one more event. */
  lemma ReachesDriver(s: State, t: nat) returns (e: Event)
    requires Inv(s) && t < |s.tags| && !TagRetired(s, t) && s.tags[t].out.None?
    ensures Step(s, e).Some?
    ensures |Step(s, e).value.tags| == |s.tags| && Step(s, e).value.tags[t].out.Some?
  {
    assert TagOk(s.tags[t]);
    hide Meaningful, CountOut, PhaseOf;
    e := if s.tags[t].held then Complete(t, 0, true) else Kick(t, true);
  }

  /** ABORT takes the command back, stops the queue and has nothing issued in its place. */
  lemma AbortStep(s: State, t: nat)
    requires Inv(s) && t < |s.tags| && s.tags[t].out.Some?
    ensures Step(s, Cqe(t, Abort, true)).Some?
    ensures var s' := Step(s, Cqe(t, Abort, true)).value; s'.stopping && s'.cmdInflight == s.cmdInflight - 1
  {
    hide Meaningful, CountOut, TagOk;
  }

  lemma {:induction false} SomeOut(tags: seq<Tag>) returns (t: nat)
    requires CountOut(tags) > 0
    ensures t < |tags| && tags[t].out.Some?
  {
    if tags[0].out.Some? {
      t := 0;
    } else {
      var u := SomeOut(tags[1..]);
      t := u + 1;
    }
  }

  /** A stopping queue ends once the driver has aborted every command it has. */
  lemma {:induction false} AbortAll(depth: nat, es: seq<Event>, n: nat) returns (fs: seq<Event>)
    requires Run(depth, es).Some? && Run(depth, es).value.stopping && Run(depth, es).value.cmdInflight == n
    ensures Run(depth, es + fs).Some? && IsDone(Run(depth, es + fs).value, 0)
    decreases n
  {
    hide Run, Step, CountOut, TagOk, Meaningful;
    var s := Run(depth, es).value;
    RunKeepsInv(depth, es);
    if n == 0 {
      fs := [];
      assert es + fs == es;
    } else {
      var t := SomeOut(s.tags);
      AbortStep(s, t);
      var e := Cqe(t, Abort, true);
      RunExtend(depth, es, s, e);
      var gs := AbortAll(depth, es + [e], n - 1);
      fs := [e] + gs;
      assert es + fs == es + [e] + gs;
    }
  }

  /** From a state with a command out, a run that ends. */
  lemma EndsFrom(depth: nat, es: seq<Event>, t: nat) returns (fs: seq<Event>)
    requires Run(depth, es).Some? && t < |Run(depth, es).value.tags| && Run(depth, es).value.tags[t].out.Some?
    ensures Run(depth, es + fs).Some? && IsDone(Run(depth, es + fs).value, 0)
  {
    hide Run, Step, Inv;
    var s := Run(depth, es).value;
    RunKeepsInv(depth, es);
    AbortStep(s, t);
    var e := Cqe(t, Abort, true);
    RunExtend(depth, es, s, e);
    RunKeepsInv(depth, es + [e]);
    InflightIsCount(Run(depth, es + [e]).value);
    var gs := AbortAll(depth, es + [e], Run(depth, es + [e]).value.cmdInflight);
    fs := [e] + gs;
    assert es + fs == es + [e] + gs;
  }

  lemma InflightIsCount(s: State)
    requires Inv(s)
    ensures s.cmdInflight >= 0
  {
  }

  lemma CanEnd(depth: nat, es: seq<Event>, t: nat) returns (fs: seq<Event>)
    requires Run(depth, es).Some? && t < |Run(depth, es).value.tags| && !TagRetired(Run(depth, es).value, t)
    ensures Run(depth, es + fs).Some? && IsDone(Run(depth, es + fs).value, 0)
  {
    hide Run, Step, Inv, TagRetired;
    var s := Run(depth, es).value;
    if s.tags[t].out.Some? {
      fs := EndsFrom(depth, es, t);
    } else {
      RunKeepsInv(depth, es);
      var e := ReachesDriver(s, t);
      RunExtend(depth, es, s, e);
      var gs := EndsFrom(depth, es + [e], t);
      fs := [e] + gs;
      assert es + fs == es + [e] + gs;
    }
  }

  /** With every tag retired nothing is left that changes the queue. */
  lemma AllRetiredStep(s: State, e: Event)
    requires Inv(s) && Step(s, e).Some? && forall t :: 0 <= t < |s.tags| ==> TagRetired(s, t)
    ensures Step(s, e).value == s
  {
    var t := e.tag;
    assert TagOk(s.tags[t]) && TagRetired(s, t);
    hide Meaningful, CountOut, PhaseOf;
    assert s.tags[t].flags == FREE && s.tags[t].out.None? && !s.tags[t].held;
  }

  lemma {:induction false} AllRetiredIsFinal(depth: nat, es: seq<Event>, fs: seq<Event>)
    requires Run(depth, es).Some? && Run(depth, es + fs).Some?
    requires var s := Run(depth, es).value; forall t :: 0 <= t < |s.tags| ==> TagRetired(s, t)
    ensures Run(depth, es + fs) == Run(depth, es)
  {
    hide Step, Inv, TagRetired;
    if fs == [] {
      assert es + fs == es;
    } else {
      var k := |fs| - 1;
      assert (es + fs)[..|es| + k] == es + fs[..k];
      AllRetiredIsFinal(depth, es, fs[..k]);
      RunKeepsInv(depth, es);
      AllRetiredStep(Run(depth, es).value, fs[k]);
    }
  }

  /**
  A queue that is not stopping can still end exactly when some tag is not retired: any error answer retires
  its tag, but only ABORT stops the queue.
  */
  lemma CanEndIffTagLive(depth: nat, es: seq<Event>)
    requires Run(depth, es).Some? && !Run(depth, es).value.stopping
    ensures var s := Run(depth, es).value;
            (exists t :: 0 <= t < |s.tags| && !TagRetired(s, t))
            <==> exists fs :: Run(depth, es + fs).Some? && IsDone(Run(depth, es + fs).value, 0)
  {
    hide TagRetired;
    var s := Run(depth, es).value;
    if t :| 0 <= t < |s.tags| && !TagRetired(s, t) {
      var fs := CanEnd(depth, es, t);
    } else {
      forall fs | Run(depth, es + fs).Some? ensures !IsDone(Run(depth, es + fs).value, 0) {
        AllRetiredIsFinal(depth, es, fs);
      }
    }
  }

  /** The only tag of a queue retired by another error: the queue neither stops nor ever ends. */
  lemma AllTagsLost()
    ensures var es := [Kick(0, true), Cqe(0, Other, true)];
            && Run(1, es).Some? && !Run(1, es).value.stopping
            && |Run(1, es).value.tags| == 1 && TagRetired(Run(1, es).value, 0)
            && forall fs :: Run(1, es + fs).Some? ==> !IsDone(Run(1, es + fs).value, 0)
  {
    var s0 := Init(1);
    var s1 := QueueIoCmd(s0, 0, true);
    var e1: seq<Event> := [] + [Kick(0, true)];
    assert Run(1, []) == Some(s0);
    RunExtend(1, [], s0, Kick(0, true));
    RunExtend(1, e1, s1, Cqe(0, Other, true));
    assert e1 + [Cqe(0, Other, true)] == [Kick(0, true), Cqe(0, Other, true)];
    var s2 := HandleCqe(s1, 0, Other, true);
    assert s2.tags[0].log == [Issue(FetchReq), Answer(Other)];
    PhaseAppend([], Issue(FetchReq));
    PhaseAppend([Issue(FetchReq)], Answer(Other));
    assert [] + [Issue(FetchReq)] == [Issue(FetchReq)];
    assert [Issue(FetchReq)] + [Answer(Other)] == [Issue(FetchReq), Answer(Other)];
    CanEndIffTagLive(1, [Kick(0, true), Cqe(0, Other, true)]);
  }

  lemma OneDelivery()
    ensures var log := [Issue(FetchReq), Answer(Ok)]; Finishes(log) == [] && Deliveries(log) == 1
  {
    var log := [Issue(FetchReq), Answer(Ok)];
    assert log[..1] == [Issue(FetchReq)] && log[..1][..0] == [];
  }

  lemma RunExtend(depth: nat, es: seq<Event>, s: State, e: Event)
    requires Run(depth, es) == Some(s)
    ensures Run(depth, es + [e]) == Step(s, e)
  {
    assert (es + [e])[..|es|] == es;
  }
}
