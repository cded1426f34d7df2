/**
Which request an NBD reply answers, and how the reply stream is read. A request's handle packs a
32-bit cookie, counted up each time the tag is used, the queue number and the tag, 16 bits each; the
fields do not overlap, so shifting and or-ing them is written as a sum here.
*/
module NbdReply {
  import opened Common

  const COOKIES := 0x1_0000_0000
  const HALF := 0x1_0000

  predicate Fits(cookie: nat, hwq: nat, tag: nat)
  {
    cookie < COOKIES && hwq < HALF && tag < HALF
  }

  function UniqueTag(hwq: nat, tag: nat): nat
  {
    hwq * HALF + tag
  }

  function Handle(cookie: nat, hwq: nat, tag: nat): nat
  {
    cookie * COOKIES + UniqueTag(hwq, tag)
  }

  function ToCookie(handle: nat): nat
  {
    handle / COOKIES
  }

  function ToHwq(handle: nat): nat
  {
    handle % COOKIES / HALF
  }

  function ToTag(handle: nat): nat
  {
    handle % COOKIES % HALF
  }

  lemma HandleExact(cookie: nat, hwq: nat, tag: nat)
    requires Fits(cookie, hwq, tag)
    ensures var h := Handle(cookie, hwq, tag); ToCookie(h) == cookie && ToHwq(h) == hwq && ToTag(h) == tag
  {
    assert UniqueTag(hwq, tag) < COOKIES;
  }

  // ---- cookies ----

  /** What a tag's cookie becomes when the tag is used: a 32-bit count that wraps. */
  function NextCookie(c: nat): nat
  {
    if c + 1 == COOKIES then 0 else c + 1
  }

  /** The cookies of a queue after requests with these tags were started; nothing sets them at first. */
  function Cookies(init: seq<nat>, starts: seq<nat>): (r: seq<nat>)
    ensures |r| == |init|
  {
    if starts == [] then init else
    var r, t := Cookies(init, starts[..|starts| - 1]), starts[|starts| - 1];
    if t < |r| then r[t := NextCookie(r[t])] else r
  }

  function Uses(starts: seq<nat>, t: nat): nat
  {
    if starts == [] then 0 else Uses(starts[..|starts| - 1], t) + (if starts[|starts| - 1] == t then 1 else 0)
  }

  lemma {:induction false} CookieCountsUses(init: seq<nat>, starts: seq<nat>, t: nat)
    requires t < |init| && init[t] < COOKIES
    ensures Cookies(init, starts)[t] == (init[t] + Uses(starts, t)) % COOKIES
  {
    if starts != [] {
      CookieCountsUses(init, starts[..|starts| - 1], t);
    }
  }

  lemma {:induction false} UsesConcat(a: seq<nat>, b: seq<nat>, t: nat)
    ensures Uses(a + b, t) == Uses(a, t) + Uses(b, t)
  {
    if b == [] {
      assert a + b == a;
    } else {
      var k := |b| - 1;
      assert (a + b)[..|a| + k] == a + b[..k];
      UsesConcat(a, b[..k], t);
    }
  }

  // ---- checking a reply ----

  const REPLY_MAGIC := 0x67446698
  const REPLY_BYTES := 16
  const EIO := 5
  const EINVAL := 22
  const EPROTO := 71

  datatype Op = Read | Write | Other
  datatype Request = Request(op: Op, sectors: nat)
  datatype Reply = Reply(magic: nat, error: nat, handle: nat)

  datatype Queue = Queue(qid: nat, depth: nat, cookies: seq<nat>, requests: seq<Request>)

  predicate QueueOk(q: Queue)
  {
    && |q.cookies| == |q.requests| == q.depth <= HALF && q.qid < HALF
    && forall t :: 0 <= t < q.depth ==> q.cookies[t] < COOKIES
  }

  /** What becomes of a reply: refused, followed by the data of a read, or the end of a request. */
  datatype Verdict = Refused(err: int) | ReadNext(tag: nat) | Finished(tag: nat, res: int)

  /** The checks in the order they are made; res is that of the receive, negative for an error. */
  function Check(q: Queue, res: int, reply: Reply): Verdict
    requires QueueOk(q)
  {
    var tag := ToTag(reply.handle);
    if res < 0 then Refused(res)
    else if reply.magic != REPLY_MAGIC then Refused(-EPROTO)
    else if tag >= q.depth then Refused(-EINVAL)
    else if ToHwq(reply.handle) != q.qid then Refused(-EINVAL)
    else if q.cookies[tag] != ToCookie(reply.handle) then Refused(-EINVAL)
    else if q.requests[tag].op == Read then ReadNext(tag)
    else Finished(tag, if reply.error != 0 then -EIO
                       else if q.requests[tag].op == Write then q.requests[tag].sectors * 512 else 0)
  }

  /** A reply passes exactly when it is the handle of the current use of one of this queue's tags. */
  lemma PassesIffCurrent(q: Queue, reply: Reply)
    requires QueueOk(q) && reply.handle < COOKIES * COOKIES
    ensures !Check(q, 0, reply).Refused? <==>
      reply.magic == REPLY_MAGIC
      && exists t :: 0 <= t < q.depth && reply.handle == Handle(q.cookies[t], q.qid, t)
  {
    var h := reply.handle;
    var t := ToTag(h);
    assert h == Handle(ToCookie(h), ToHwq(h), t);
    if u :| 0 <= u < q.depth && h == Handle(q.cookies[u], q.qid, u) {
      HandleExact(q.cookies[u], q.qid, u);
    }
  }

  /**
  Over any run of requests: the reply to a request, arriving after others were started, passes exactly
  when its tag has since been used a multiple of 2^32 times. With fewer than 2^32 later uses that
  means not at all, so the answer to an earlier use never ends a later one.
  */
  lemma StaleReplyRefused(q: Queue, init: seq<nat>, before: seq<nat>, t: nat, after: seq<nat>, reply: Reply)
    requires QueueOk(q) && t < q.depth && |init| == q.depth && init[t] < COOKIES
    requires q.cookies == Cookies(init, before + [t] + after)
    requires reply.magic == REPLY_MAGIC && reply.handle == Handle(Cookies(init, before + [t])[t], q.qid, t)
    ensures !Check(q, 0, reply).Refused? <==> Uses(after, t) % COOKIES == 0
    ensures Uses(after, t) < COOKIES ==> (!Check(q, 0, reply).Refused? <==> t !in after)
  {
    hide Uses, Cookies, ToTag, ToHwq, ToCookie, Handle;
    CookieCountsUses(init, before + [t], t);
    CookieCountsUses(init, before + [t] + after, t);
    UsesConcat(before + [t], after, t);
    UsesNone(after, t);
    SameRemainder(init[t] + Uses(before + [t], t), Uses(after, t));
    HandleExact(Cookies(init, before + [t])[t], q.qid, t);
  }

  lemma SameRemainder(a: nat, d: nat)
    ensures (a + d) % COOKIES == a % COOKIES <==> d % COOKIES == 0
    ensures d < COOKIES ==> (d % COOKIES == 0 <==> d == 0)
  {
  }

  lemma {:induction false} UsesNone(ts: seq<nat>, t: nat)
    ensures Uses(ts, t) == 0 <==> t !in ts
  {
    if ts != [] {
      UsesNone(ts[..|ts| - 1], t);
      assert ts == ts[..|ts| - 1] + [ts[|ts| - 1]];
    }
  }

  // ---- receiving ----

  /** A receive that is still to be done: where in the buffer, and how many bytes. */
  datatype Rest = Rest(at: nat, count: nat)

  /**
  Receive len bytes: up to 16 or 32 attempts that do not block, and a receive command for what is left.
  attempts says how many bytes each attempt finds, 0 for none or an error. What is in the buffer,
  followed by what the command brings, is the next len bytes of the stream.
  */
  method DoRecv(stream: seq<nat>, len: nat, attempts: seq<nat>) returns (buf: seq<nat>, rest: Option<Rest>)
    requires len <= |stream| && 32 <= |attempts|
    ensures |buf| <= len && buf == stream[..|buf|]
    ensures rest == if |buf| == len then None else Some(Rest(|buf|, len - |buf|))
    ensures rest.Some? ==> buf + stream[rest.value.at..rest.value.at + rest.value.count] == stream[..len]
    ensures len > 0 && attempts[0] == 0 ==> buf == []
    ensures len > 0 && attempts[0] >= len ==> rest.None?
  {
    var i, done := 0, 0;
    var loops := if len < 512 then 16 else 32;
    buf := [];
    while i < loops && done < len
      invariant 0 <= i <= loops && done == |buf| <= len && buf == stream[..done]
      invariant i == 0 ==> done == 0
      invariant i > 0 && len > 0 ==> attempts[0] != 0 && (attempts[0] >= len ==> done == len)
    {
      var ret := if attempts[i] <= len - done then attempts[i] else len - done;
      if ret > 0 {
        buf := buf + stream[done..done + ret];
        done := done + ret;
      }
      i := i + 1;
      if done == 0 {
        break;
      }
    }
    if done == len {
      rest := None;
    } else {
      rest := Some(Rest(done, len - done));
    }
  }
}
