/** The queue in per-tag mode, on the fields it keeps; every method is one function of TagProtocol. */
module TagQueue {
  import opened Common
  import opened TagProtocol

  /** A submission entry for the driver. */
  datatype Sqe = Sqe(tag: nat, cmd: Command)

  class Queue {
    const depth: nat
    var flags: seq<Flags>
    var results: seq<int>
    var cmdInflight: int
    var stopping: bool
    var sqes: seq<Sqe>              // commands prepared, in order
    var delivered: seq<nat>         // tags passed to handle_io_async, in order

    ghost var s: State
    ghost var trace: seq<Event>

    ghost predicate Valid()
      reads this
    {
      && |flags| == |results| == depth == |s.tags|
      && (forall t :: 0 <= t < depth ==> flags[t] == s.tags[t].flags && results[t] == s.tags[t].result)
      && cmdInflight == s.cmdInflight && stopping == s.stopping
      && Run(depth, trace) == Some(s)
      && Inv(s)
    }

    constructor (depth: nat)
      ensures Valid() && this.depth == depth && trace == []
    {
      this.depth := depth;
      flags := seq(depth, _ => FRESH);
      results := seq(depth, _ => 0);
      cmdInflight, stopping, sqes, delivered := 0, false, [], [];
      s, trace := Init(depth), [];
      new;
      InitInv(depth);
    }

    /** Issue the command the flags of a tag ask for, if there is one and an entry for it. */
    method QueueIoCmd(tag: nat, sqe: bool) returns (ret: int)
      requires tag < |flags| == |results|
      modifies this`cmdInflight, this`sqes, this`flags
      ensures var f := old(flags)[tag];
              var wanted := f.ioFree && (f.needFetch || f.needCommit || f.needGetData);
              && ret == (if !wanted then 0 else if !sqe then -1 else 1)
              && flags == (if ret == 1 then old(flags)[tag := NO_FLAGS] else old(flags))
              && cmdInflight == old(cmdInflight) + (if ret == 1 then 1 else 0)
              && sqes == old(sqes) + (if ret != 1 then []
                                      else [Sqe(tag, if f.needGetData then NeedGetData
                                                     else if f.needCommit then CommitAndFetch(results[tag])
                                                     else FetchReq)])
    {
      if !flags[tag].ioFree {
        return 0;
      }
      if !(flags[tag].needFetch || flags[tag].needGetData || flags[tag].needCommit) {
        return 0;
      }
      var cmdOp := FetchReq;
      if flags[tag].needGetData {
        cmdOp := NeedGetData;
      } else if flags[tag].needCommit {
        cmdOp := CommitAndFetch(results[tag]);
      }
      if !sqe {
        return -1;
      }
      sqes := sqes + [Sqe(tag, cmdOp)];
      flags := flags[tag := NO_FLAGS];
      cmdInflight := cmdInflight + 1;
      ret := 1;
    }

    ghost method Record(e: Event)
      requires Run(depth, trace) == Some(s) && Inv(s) && Step(s, e).Some?
      modifies this`s, this`trace
      ensures trace == old(trace) + [e] && s == Step(old(s), e).value
      ensures Run(depth, trace) == Some(s) && Inv(s) && |s.tags| == |old(s).tags|
    {
      RunExtend(depth, trace, s, e);
      StepKeepsInv(s, e);
      trace := trace + [e];
      s := Step(s, e).value;
    }

    /** The target reports a result; it is committed with the next fetch at once. */
    method CompleteIo(tag: nat, res: int, sqe: bool) returns (ret: int)
      requires Valid() && tag < depth && s.tags[tag].held
      modifies this`cmdInflight, this`sqes, this`s, this`trace, this`flags, this`results
      ensures Valid() && trace == old(trace) + [Complete(tag, res, sqe)]
      ensures ret == (if sqe then 1 else -1)
      ensures sqe ==> sqes == old(sqes) + [Sqe(tag, CommitAndFetch(res))]
    {
      hide Inv, Run, TagProtocol.CompleteIo, TagProtocol.QueueIoCmd;
      FlagsClear(s, tag);
      CompleteIoFields(s, tag, res, sqe);
      Record(Complete(tag, res, sqe));
      flags := flags[tag := flags[tag].(needCommit := true, ioFree := true)];
      results := results[tag := res];
      ret := QueueIoCmd(tag, sqe);
    }

    /** One completion of a driver command. */
    method HandleCqe(tag: nat, res: Res, sqe: bool)
      requires Valid() && tag < depth && s.tags[tag].out.Some?
      modifies this`cmdInflight, this`stopping, this`sqes, this`delivered, this`s, this`trace, this`flags
      ensures Valid() && trace == old(trace) + [Cqe(tag, res, sqe)]
      ensures stopping == (old(stopping) || res == Abort)
      ensures delivered == old(delivered) + (if res == Ok then [tag] else [])
      ensures res != GetData || !sqe ==> sqes == old(sqes)
      ensures res == GetData && sqe ==> sqes == old(sqes) + [Sqe(tag, NeedGetData)]
    {
      hide Inv, Run, TagProtocol.HandleCqe, TagProtocol.QueueIoCmd;
      FlagsClear(s, tag);
      Record(Cqe(tag, res, sqe));
      HandleCqeFields(old(s), tag, res, sqe);
      var fetch := res != Abort && !stopping;
      cmdInflight := cmdInflight - 1;
      if !fetch {
        stopping := true;
        flags := flags[tag := flags[tag].(needFetch := false)];
      }
      if res == Ok {
        delivered := delivered + [tag];
      } else if res == GetData {
        flags := flags[tag := flags[tag].(needGetData := true, ioFree := true)];
        var ret := QueueIoCmd(tag, sqe);
      } else {
        flags := flags[tag := FREE];
      }
    }

    /** Start every tag; with an entry for each, all of them end up with a fetch at the driver. */
    method SubmitFetchCommands()
      requires Valid() && trace == []
      modifies this`cmdInflight, this`sqes, this`s, this`trace, this`flags
      ensures Valid() && cmdInflight == depth
      ensures forall t :: 0 <= t < depth ==> s.tags[t].out == Some(Issued(FetchReq, false))
    {
      hide Inv;
      for i := 0 to depth
        invariant Valid() && cmdInflight == i && !stopping
        invariant forall t :: 0 <= t < i ==> s.tags[t].out == Some(Issued(FetchReq, false))
        invariant forall t :: i <= t < depth ==> flags[t] == FRESH
      {
        Record(Kick(i, true));
        var ret := QueueIoCmd(i, true);
      }
    }

    /** ready is the number of entries on the submission ring. */
    method QueueIsDone(ready: nat) returns (done: bool)
      requires Valid()
      ensures done <==> IsDone(s, ready)
      ensures done ==> forall t :: 0 <= t < depth ==>
        s.tags[t].out.None? && (flags[t].ioFree <==> |Finishes(s.tags[t].log)| == Deliveries(s.tags[t].log))
    {
      done := stopping && ready == 0 && cmdInflight == 0;
      hide Inv, Run;
      if done {
        forall t | 0 <= t < depth
          ensures s.tags[t].out.None?
          ensures flags[t].ioFree <==> |Finishes(s.tags[t].log)| == Deliveries(s.tags[t].log)
        {
          DoneMeansNothingOutstanding(depth, trace, ready, t);
        }
      }
    }
  }
}
