/**
The worker's passes over its lists as it runs them: the drain/re-check loop, the partition of
completed requests by queue, and the small batch of contexts a queue thread fills while reaping.
Lists are sequences here; AioList proves that the intrusive lists behave as such.
*/
module AioWorker {
  import opened AioProtocol

  /** Splitting off one queue leaves the requests of every other queue as they were. */
  lemma {:induction false} OthersKeepOrder(rs: seq<Req>, q: nat, p: nat)
    ensures OfQueue(OfOthers(rs, q), p) == if p == q then [] else OfQueue(rs, p)
  {
    if rs != [] {
      OthersKeepOrder(rs[1..], q, p);
      var rest := OfOthers(rs[1..], q);
      if rs[0].qid != q {
        assert ([rs[0]] + rest)[1..] == rest;
      } else {
        assert [] + rest == rest;
      }
    }
  }

  lemma {:induction false} OthersAreFewer(rs: seq<Req>, q: nat)
    ensures |OfQueue(rs, q)| + |OfOthers(rs, q)| == |rs|
    ensures rs != [] && rs[0].qid == q ==> OfQueue(rs, q) != []
  {
    if rs != [] {
      OthersAreFewer(rs[1..], q);
    }
  }

  lemma {:induction false} OthersAreMembers(rs: seq<Req>, q: nat)
    ensures forall r :: r in OfOthers(rs, q) ==> r in rs
  {
    if rs != [] {
      OthersAreMembers(rs[1..], q);
    }
  }

  lemma {:induction false} OnlyOneQueue(rs: seq<Req>, q: nat, p: nat)
    requires AllOf(rs, q)
    ensures OfQueue(rs, p) == if p == q then rs else []
  {
    if rs != [] {
      OnlyOneQueue(rs[1..], q, p);
      assert rs == [rs[0]] + rs[1..];
    }
  }

  /** The requests of a list that a submit function does not leave in flight, in order. */
  function Settled(rs: seq<Req>, fn: Req -> int): seq<Req>
  {
    if rs == [] then [] else
    Settled(rs[..|rs| - 1], fn) + (if fn(rs[|rs| - 1]) != 0 then [rs[|rs| - 1]] else [])
  }

  /**
  What the queue threads do during one round of the worker: requests they add and eventfd writes they
  make between its splice and its read of the eventfd, and between that read and its look at the list.
  */
  datatype Round = Round(early: seq<Req>, earlyWrites: nat, late: seq<Req>, lateWrites: nat)

  /** Everything added during some rounds, in order. */
  function Added(rs: seq<Round>): seq<Req>
  {
    if rs == [] then [] else Added(rs[..|rs| - 1]) + rs[|rs| - 1].early + rs[|rs| - 1].late
  }

  lemma {:induction false} SettledConcat(rs: seq<Req>, ts: seq<Req>, fn: Req -> int)
    ensures Settled(rs + ts, fn) == Settled(rs, fn) + Settled(ts, fn)
  {
    if ts == [] {
      assert rs + ts == rs;
    } else {
      var k := |ts| - 1;
      SettledConcat(rs, ts[..k], fn);
      assert (rs + ts)[..|rs| + k] == rs + ts[..k];
    }
  }

  lemma EmptyLists(rs: seq<Req>, fn: Req -> int, done: seq<Req>)
    ensures rs + Added([]) == rs && done + Settled([], fn) == done
  {
  }

  lemma AddedNext(rs: seq<Req>, env: seq<Round>, k: nat)
    requires k < |env|
    ensures rs + Added(env[..k + 1]) == rs + Added(env[..k]) + ([] + env[k].early + env[k].late)
  {
    assert env[..k + 1][..k] == env[..k];
  }

  /** Pop every request and submit it; the ones that are not left in flight go to done. */
  method DrainList(sl0: seq<Req>, fn: Req -> int, done: seq<Req>) returns (total: nat, done': seq<Req>)
    ensures total == |sl0| && done' == done + Settled(sl0, fn)
  {
    var sl := sl0;
    total, done' := 0, done;
    while sl != []
      invariant total <= |sl0| && sl == sl0[total..]
      invariant done' == done + Settled(sl0[..total], fn)
      decreases |sl|
    {
      var req := sl[0];
      sl := sl[1..];
      var ret := fn(req);
      assert sl0[..total + 1][..total] == sl0[..total];
      total := total + 1;
      if ret != 0 {
        done' := done' + [req];
      }
    }
    assert sl0[..total] == sl0;
  }

  class Context {
    const queueWide: bool
    var submit: seq<Req>
    var efd: nat
    var complete: seq<seq<Req>>     // one completion list for each queue
    var events: seq<nat>            // the eventfd of each queue
    var armed: seq<bool>            // whether a poll on it is at the kernel

    constructor (nq: nat, queueWide: bool)
      ensures submit == [] && efd == 0 && |complete| == |events| == |armed| == nq && this.queueWide == queueWide
      ensures complete == seq(nq, _ => []) && events == seq(nq, _ => 0)
    {
      submit, efd, this.queueWide := [], 0, queueWide;
      complete, events, armed := seq(nq, _ => []), seq(nq, _ => 0), seq(nq, _ => true);
    }

    /**
    Submit until the list is found empty after a read of the eventfd. The queue threads go on adding
    requests and writing the eventfd all the time; env says what they do in each round. On return
    everything added so far has been submitted, and the eventfd holds what was written since the read.
    */
    method SubmitWorker(fn: Req -> int, done: seq<Req>, env: seq<Round>)
      returns (total: nat, done': seq<Req>, ghost rounds: nat)
      modifies this`submit, this`efd
      ensures rounds <= |env| && submit == []
      ensures efd == if rounds < |env| then env[rounds].lateWrites else 0
      ensures rounds < |env| ==> env[rounds].early == env[rounds].late == []
      ensures var seen := old(submit) + Added(env[..rounds]);
              total == |seen| && done' == done + Settled(seen, fn)
    {
      hide Settled, Added;
      EmptyLists(submit, fn, done);
      total, done', rounds := 0, done, 0;
      ghost var seen: seq<Req> := [];
      var more := true;
      var round := 0;
      assert env[..0] == [];
      while more
        invariant round == rounds <= |env|
        invariant seen + submit == old(submit) + Added(env[..rounds])
        invariant !more ==> submit == [] && efd == (if rounds < |env| then env[rounds].lateWrites else 0)
        invariant !more && rounds < |env| ==> env[rounds].early == env[rounds].late == []
        invariant total == |seen| && done' == done + Settled(seen, fn)
        decreases more, |env| - rounds
      {
        var now := if round < |env| then env[round] else Round([], 0, [], 0);
        var sl := submit;
        submit := [];
        var n;
        n, done' := DrainList(sl, fn, done');
        total := total + n;
        SettledConcat(seen, sl, fn);
        seen := seen + sl;
        submit, efd := submit + now.early, efd + now.earlyWrites;
        efd := 0;
        submit, efd := submit + now.late, efd + now.lateWrites;
        more := submit != [];
        if more {
          AddedNext(old(submit), env, round);
          round := round + 1;
          rounds := rounds + 1;
        }
      }
      assert seen + submit == seen;
    }

    /** What the completion pass makes of the list of a queue and of its eventfd. */
    ghost predicate Delivered(q: nat, was: seq<Req>, count: nat, completed: seq<Req>)
      reads this
      requires q < |complete| == |events|
    {
      && complete[q] == was + OfQueue(completed, q)
      && events[q] == count + (if OfQueue(completed, q) != [] then 1 else 0)
    }

    /** Every queue has got its own requests and, if there are any, one event. */
    ghost predicate AllDelivered(was: seq<seq<Req>>, counts: seq<nat>, completed: seq<Req>)
      reads this
      requires |was| == |counts| == |complete| == |events|
    {
      forall q :: 0 <= q < |complete| ==> Delivered(q, was[q], counts[q], completed)
    }

    /**
    Hand completed requests to their queues: a stable partition, one event for each queue that
    got something. A context bound to one queue skips the partition and trusts the first request;
    that delivers rightly exactly when all requests are of one queue.
    */
    method CompleteWorker(completed: seq<Req>)
      requires |complete| == |events|
      requires forall r :: r in completed ==> r.qid < |complete|
      modifies this`complete, this`events
      ensures |complete| == |events| == old(|complete|)
      ensures AllDelivered(old(complete), old(events), completed)
         <==> (queueWide && completed != [] ==> AllOf(completed, completed[0].qid))
      ensures queueWide && completed != [] ==>
        var q := completed[0].qid;
        complete == old(complete)[q := old(complete)[q] + completed] && events == old(events)[q := old(events)[q] + 1]
    {
      if completed == [] {
        return;
      }
      hide OfQueue, Delivered;
      if queueWide {
        var q := completed[0].qid;
        complete := complete[q := complete[q] + completed];
        events := events[q := events[q] + 1];
        ShortcutDelivers(old(complete), old(events), completed);
      } else {
        CompleteByQueue(completed);
      }
    }

    lemma ShortcutDelivers(was: seq<seq<Req>>, counts: seq<nat>, completed: seq<Req>)
      requires completed != [] && completed[0].qid < |was| == |counts|
      requires complete == was[completed[0].qid := was[completed[0].qid] + completed]
      requires events == counts[completed[0].qid := counts[completed[0].qid] + 1]
      ensures AllDelivered(was, counts, completed) <==> AllOf(completed, completed[0].qid)
    {
      hide AllOf, OfQueue;
      var q := completed[0].qid;
      QueueWideShortcut(completed);
      if AllOf(completed, q) {
        forall p | 0 <= p < |complete| ensures Delivered(p, was[p], counts[p], completed) {
          OnlyOneQueue(completed, q, p);
        }
      } else if AllDelivered(was, counts, completed) {
        assert Delivered(q, was[q], counts[q], completed);
        Cancel(was[q], completed, OfQueue(completed, q));
        assert false;
      }
    }

    method CompleteByQueue(completed0: seq<Req>)
      requires |complete| == |events|
      requires forall r :: r in completed0 ==> r.qid < |complete|
      modifies this`complete, this`events
      ensures |complete| == |events| == old(|complete|)
      ensures AllDelivered(old(complete), old(events), completed0)
    {
      var completed := completed0;
      while completed != []
        invariant |complete| == |events| == old(|complete|)
        invariant forall r :: r in completed ==> r.qid < |complete|
        invariant forall q :: 0 <= q < |complete| ==>
          || (Delivered(q, old(complete)[q], old(events)[q], completed0) && OfQueue(completed, q) == [])
          || (&& complete[q] == old(complete)[q] && events[q] == old(events)[q]
              && OfQueue(completed, q) == OfQueue(completed0, q))
        decreases |completed|
      {
        var thisQ := completed[0].qid;
        var this_, others := SplitQueue(completed, thisQ);
        OthersAreFewer(completed, thisQ);
        OthersAreMembers(completed, thisQ);
        forall p | 0 <= p < |complete|
          ensures OfQueue(others, p) == if p == thisQ then [] else OfQueue(completed, p)
        {
          OthersKeepOrder(completed, thisQ, p);
        }
        complete := complete[thisQ := complete[thisQ] + this_];
        events := events[thisQ := events[thisQ] + 1];
        completed := others;
      }
    }

    /**
    The handler of a queue's event, called when the poll fires: take the list, silence the event, arm the
    poll again unless the queue is stopping or there is no entry, and complete each request in order.
    */
    method HandleEvent(q: nat, stopping: bool, sqe: bool) returns (completed: seq<nat>)
      requires q < |complete| == |events| == |armed|
      modifies this`complete, this`events, this`armed
      ensures complete == old(complete)[q := []] && events == old(events)[q := 0]
      ensures armed == old(armed)[q := sqe && !stopping]
      ensures |completed| == |old(complete)[q]|
      ensures forall i :: 0 <= i < |completed| ==> completed[i] == old(complete)[q][i].tag
    {
      var al := complete[q];
      complete := complete[q := []];
      events := events[q := 0];
      armed := armed[q := false];
      if !stopping && sqe {
        armed := armed[q := true];
      }
      completed := [];
      while al != []
        modifies {}
        invariant |completed| + |al| == |old(complete)[q]| && al == old(complete)[q][|completed|..]
        invariant forall i :: 0 <= i < |completed| ==> completed[i] == old(complete)[q][i].tag
        decreases |al|
      {
        completed := completed + [al[0].tag];
        al := al[1..];
      }
    }
  }

  /** A queue-wide context that gets requests of two queues: the first queue has both, the second none. */
  method TwoQueuesInOne() returns (ctx: Context)
    ensures ctx.complete == [[Req(0, 0, 0), Req(1, 0, 0)], []] && ctx.events == [1, 0]
    ensures !ctx.AllDelivered([[], []], [0, 0], [Req(0, 0, 0), Req(1, 0, 0)])
  {
    hide OfQueue;
    ctx := new Context(2, true);
    var completed := [Req(0, 0, 0), Req(1, 0, 0)];
    assert completed[1].qid == 1 && completed[1] in completed && !AllOf(completed, 0);
    assert ctx.complete == [[], []] && ctx.events == [0, 0];
    ghost var was, counts := ctx.complete, ctx.events;
    ctx.CompleteWorker(completed);
    assert was[0] + completed == completed;
    assert was[0 := completed] == [completed, []] && counts[0 := counts[0] + 1] == [1, 0];
  }

  lemma Cancel(xs: seq<Req>, ys: seq<Req>, zs: seq<Req>)
    requires xs + ys == xs + zs
    ensures ys == zs
  {
    assert ys == (xs + ys)[|xs|..] && zs == (xs + zs)[|xs|..];
  }

  /** Pop the whole list, sorting each request to the queue's own list or to the rest. */
  method SplitQueue(completed0: seq<Req>, q: nat) returns (mine: seq<Req>, others: seq<Req>)
    ensures mine == OfQueue(completed0, q) && others == OfOthers(completed0, q)
  {
    mine, others := [], [];
    var completed := completed0;
    while completed != []
      invariant mine + OfQueue(completed, q) == OfQueue(completed0, q)
      invariant others + OfOthers(completed, q) == OfOthers(completed0, q)
      decreases |completed|
    {
      var req := completed[0];
      completed := completed[1..];
      if req.qid == q {
        mine := mine + [req];
      } else {
        others := others + [req];
      }
    }
  }

  /**
  A context bound to one queue that meets a request of another delivers wrongly: the partition
  and its shortcut agree exactly when all requests are of the first one's queue.
  */
  lemma QueueWideShortcut(completed: seq<Req>)
    requires completed != []
    ensures OfQueue(completed, completed[0].qid) == completed <==> AllOf(completed, completed[0].qid)
  {
    var q := completed[0].qid;
    OfQueueIsOfQueue(completed, q);
    if AllOf(completed, q) {
      OnlyOneQueue(completed, q, q);
    }
  }

  /** Note the context for a batched write; false means it has to be written at once. */
  method AddCtxForSubmit(ctxs: seq<nat>, ctx: nat) returns (ctxs': seq<nat>, noted: bool)
    ensures noted <==> ctx in ctxs || |ctxs| < CTX_BATCH
    ensures ctxs' == if ctx in ctxs || |ctxs| >= CTX_BATCH then ctxs else ctxs + [ctx]
  {
    ctxs' := ctxs;
    for i := 0 to |ctxs|
      invariant ctx !in ctxs[..i]
    {
      if ctxs[i] == ctx {
        return ctxs, true;
      }
    }
    if |ctxs| < CTX_BATCH {
      return ctxs + [ctx], true;
    }
    noted := false;
  }
}
