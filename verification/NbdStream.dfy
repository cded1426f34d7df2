/**
The receive coroutine on the bytes the server sends: sixteen bytes for a reply, the request it is for
found through its handle, and, for a read, as many bytes as the request asked for. Whether a reply
reports an error makes no difference to how many bytes are read.
*/
module NbdStream {
  import opened Common
  import opened NbdReply
  import P = NbdProtocol

  // ---- replies as bytes ----

  function Be32(b: seq<nat>): nat
    requires |b| == 4
  {
    b[0] * 0x100_0000 + b[1] * 0x1_0000 + b[2] * 0x100 + b[3]
  }

  function Be32Bytes(n: nat): (b: seq<nat>)
    ensures |b| == 4
  {
    [n / 0x100_0000, n / 0x1_0000 % 0x100, n / 0x100 % 0x100, n % 0x100]
  }

  function Le32(b: seq<nat>): nat
    requires |b| == 4
  {
    b[0] + b[1] * 0x100 + b[2] * 0x1_0000 + b[3] * 0x100_0000
  }

  function Le32Bytes(n: nat): (b: seq<nat>)
    ensures |b| == 4
  {
    [n % 0x100, n / 0x100 % 0x100, n / 0x1_0000 % 0x100, n / 0x100_0000]
  }

  lemma WordsRoundTrip(n: nat)
    ensures Be32(Be32Bytes(n)) == n && Le32(Le32Bytes(n)) == n
  {
    var a := n / 0x100;
    var b := a / 0x100;
    assert n / 0x1_0000 == b;
    assert n / 0x100_0000 == b / 0x100;
    assert n == a * 0x100 + n % 0x100 && a == b * 0x100 + a % 0x100 && b == b / 0x100 * 0x100 + b % 0x100;
  }

  /** Magic and error in network order; the handle comes back as the host wrote it. */
  function Decode(b: seq<nat>): Reply
    requires |b| == REPLY_BYTES
  {
    Reply(Be32(b[..4]), Be32(b[4..8]), Le32(b[8..12]) + Le32(b[12..16]) * COOKIES)
  }

  function Encode(r: Reply): (b: seq<nat>)
    ensures |b| == REPLY_BYTES
  {
    Be32Bytes(r.magic) + Be32Bytes(r.error) + Le32Bytes(r.handle % COOKIES) + Le32Bytes(r.handle / COOKIES)
  }

  lemma DecodeInvertsEncode(r: Reply)
    requires r.magic < COOKIES && r.error < COOKIES && r.handle < COOKIES * COOKIES
    ensures Decode(Encode(r)) == r
  {
    hide Be32, Be32Bytes, Le32, Le32Bytes;
    WordsRoundTrip(r.magic);
    WordsRoundTrip(r.error);
    WordsRoundTrip(r.handle % COOKIES);
    WordsRoundTrip(r.handle / COOKIES);
    var b := Encode(r);
    assert b[..4] == Be32Bytes(r.magic) && b[4..8] == Be32Bytes(r.error);
    assert b[8..12] == Le32Bytes(r.handle % COOKIES) && b[12..16] == Le32Bytes(r.handle / COOKIES);
  }

  // ---- the coroutine ----

  /** What the coroutine makes of a turn: a request ended with a result and its data, or the loop left. */
  datatype Outcome = Ended(tag: nat, res: int, data: seq<nat>) | Left(err: int)

  /** A turn, and how many bytes it took. */
  datatype Turn = Turn(outcome: Outcome, took: nat)

  /** One turn of the loop, None while the bytes for it have not all come. */
  function OneTurn(q: Queue, stream: seq<nat>): Option<Turn>
    requires QueueOk(q)
  {
    if |stream| < REPLY_BYTES then None else
    match Check(q, 0, Decode(stream[..REPLY_BYTES]))
    case Refused(err) => Some(Turn(Left(err), REPLY_BYTES))
    case Finished(tag, res) => Some(Turn(Ended(tag, res, []), REPLY_BYTES))
    case ReadNext(tag) =>
      var len := q.requests[tag].sectors * 512;
      if |stream| < REPLY_BYTES + len then None
      else Some(Turn(Ended(tag, len, stream[REPLY_BYTES..REPLY_BYTES + len]), REPLY_BYTES + len))
  }

  /**
  The loop over a stream. Requests come and go between two turns, so each turn has its own state of
  the queue.
  */
  function Receive(qs: seq<Queue>, stream: seq<nat>): seq<Outcome>
    requires forall i :: 0 <= i < |qs| ==> QueueOk(qs[i])
  {
    if qs == [] then [] else
    match OneTurn(qs[0], stream)
    case None => []
    case Some(turn) =>
      if turn.outcome.Left? then [turn.outcome]
      else [turn.outcome] + Receive(qs[1..], stream[turn.took..])
  }

  // ---- the server ----

  /** The answer to the request of a tag, and the data it comes with. */
  datatype Answer = Answer(tag: nat, error: nat, data: seq<nat>)

  /** A simple reply carries the data of a read that succeeded, and no data otherwise. */
  predicate AnswerOk(q: Queue, a: Answer)
  {
    && QueueOk(q) && a.tag < q.depth && a.error < COOKIES
    && |a.data| == if q.requests[a.tag].op == Read && a.error == 0 then q.requests[a.tag].sectors * 512 else 0
  }

  ghost predicate AnswersOk(qs: seq<Queue>, answers: seq<Answer>)
  {
    |qs| == |answers| && forall i :: 0 <= i < |qs| ==> QueueOk(qs[i]) && AnswerOk(qs[i], answers[i])
  }

  function ReplyTo(q: Queue, a: Answer): Reply
    requires AnswerOk(q, a)
  {
    Reply(REPLY_MAGIC, a.error, Handle(q.cookies[a.tag], q.qid, a.tag))
  }

  function WireOf(q: Queue, a: Answer): seq<nat>
    requires AnswerOk(q, a)
  {
    Encode(ReplyTo(q, a)) + a.data
  }

  function Wire(qs: seq<Queue>, answers: seq<Answer>): seq<nat>
    requires AnswersOk(qs, answers)
  {
    if qs == [] then [] else WireOf(qs[0], answers[0]) + Wire(qs[1..], answers[1..])
  }

  /** What the answer means for its request. */
  function Meant(q: Queue, a: Answer): Outcome
    requires AnswerOk(q, a)
  {
    var r := q.requests[a.tag];
    Ended(a.tag, if a.error != 0 then -EIO else if r.op == Other then 0 else r.sectors * 512, a.data)
  }

  function MeantAll(qs: seq<Queue>, answers: seq<Answer>): seq<Outcome>
    requires AnswersOk(qs, answers)
  {
    if qs == [] then [] else [Meant(qs[0], answers[0])] + MeantAll(qs[1..], answers[1..])
  }

  /** A read answered with an error. */
  predicate ReadError(q: Queue, a: Answer)
    requires AnswerOk(q, a)
  {
    q.requests[a.tag].op == Read && a.error != 0
  }

  // ---- what the coroutine makes of what the server sends ----

  lemma HandleFits(q: Queue, a: Answer)
    requires AnswerOk(q, a)
    ensures var h := ReplyTo(q, a).handle;
            h < COOKIES * COOKIES && ToTag(h) == a.tag && ToHwq(h) == q.qid && ToCookie(h) == q.cookies[a.tag]
  {
    HandleExact(q.cookies[a.tag], q.qid, a.tag);
  }

  /** The reply at the front of the stream is found to be for its request. */
  lemma FrontReply(q: Queue, a: Answer, rest: seq<nat>)
    requires AnswerOk(q, a)
    ensures var stream := WireOf(q, a) + rest;
            && |stream| >= REPLY_BYTES && Decode(stream[..REPLY_BYTES]) == ReplyTo(q, a)
            && stream[REPLY_BYTES..] == a.data + rest
            && Check(q, 0, ReplyTo(q, a))
               == if q.requests[a.tag].op == Read then ReadNext(a.tag) else Finished(a.tag, Meant(q, a).res)
  {
    hide Decode, Encode;
    HandleFits(q, a);
    DecodeInvertsEncode(ReplyTo(q, a));
    var stream := WireOf(q, a) + rest;
    assert stream[..REPLY_BYTES] == Encode(ReplyTo(q, a));
  }

  /** A turn on an answer in order takes exactly the answer and ends its request as meant. */
  lemma TurnTakesAnswer(q: Queue, a: Answer, rest: seq<nat>)
    requires AnswerOk(q, a) && !ReadError(q, a)
    ensures OneTurn(q, WireOf(q, a) + rest) == Some(Turn(Meant(q, a), |WireOf(q, a)|))
    ensures (WireOf(q, a) + rest)[|WireOf(q, a)|..] == rest
  {
    hide Decode, Encode, Check;
    FrontReply(q, a, rest);
    var stream := WireOf(q, a) + rest;
    var n := REPLY_BYTES + |a.data|;
    assert stream[REPLY_BYTES..n] == stream[REPLY_BYTES..][..|a.data|] == a.data;
  }

  /** A turn on a read answered with an error waits, or ends the request as if it had succeeded. */
  lemma TurnOnReadError(q: Queue, a: Answer, rest: seq<nat>)
    requires AnswerOk(q, a) && ReadError(q, a)
    ensures var len := q.requests[a.tag].sectors * 512;
            OneTurn(q, WireOf(q, a) + rest)
            == if |rest| < len then None else Some(Turn(Ended(a.tag, len, rest[..len]), REPLY_BYTES + len))
  {
    hide Decode, Encode, Check;
    FrontReply(q, a, rest);
    var stream := WireOf(q, a) + rest;
    assert a.data + rest == rest;
    var len := q.requests[a.tag].sectors * 512;
    if len <= |rest| {
      assert stream[REPLY_BYTES..REPLY_BYTES + len] == stream[REPLY_BYTES..][..len];
    }
  }

  /** The first turn of a run over the stream. */
  lemma {:induction false} FirstTurn(qs: seq<Queue>, stream: seq<nat>)
    requires qs != [] && forall i :: 0 <= i < |qs| ==> QueueOk(qs[i])
    ensures Receive(qs, stream) == match OneTurn(qs[0], stream)
                                   case None => []
                                   case Some(turn) => if turn.outcome.Left? then [turn.outcome]
                                                      else [turn.outcome] + Receive(qs[1..], stream[turn.took..])
  {
  }

  lemma {:induction false} WireSplit(qs: seq<Queue>, answers: seq<Answer>)
    requires AnswersOk(qs, answers) && qs != []
    ensures AnswersOk(qs[1..], answers[1..])
    ensures Wire(qs, answers) == WireOf(qs[0], answers[0]) + Wire(qs[1..], answers[1..])
  {
  }

  lemma {:induction false} TakesFirst(qs: seq<Queue>, answers: seq<Answer>)
    requires AnswersOk(qs, answers) && qs != [] && !ReadError(qs[0], answers[0])
    ensures AnswersOk(qs[1..], answers[1..])
    ensures Receive(qs, Wire(qs, answers))
         == [Meant(qs[0], answers[0])] + Receive(qs[1..], Wire(qs[1..], answers[1..]))
  {
    hide OneTurn, WireOf, Receive, Wire;
    WireSplit(qs, answers);
    var rest := Wire(qs[1..], answers[1..]);
    TurnTakesAnswer(qs[0], answers[0], rest);
    FirstTurn(qs, WireOf(qs[0], answers[0]) + rest);
  }

  lemma {:induction false} MissesFirst(qs: seq<Queue>, answers: seq<Answer>)
    requires AnswersOk(qs, answers) && qs != [] && ReadError(qs[0], answers[0])
    ensures Receive(qs, Wire(qs, answers)) == []
         || Receive(qs, Wire(qs, answers))[0] != Meant(qs[0], answers[0])
  {
    hide OneTurn, WireOf, Meant, Receive, Wire;
    WireSplit(qs, answers);
    var rest := Wire(qs[1..], answers[1..]);
    TurnOnReadError(qs[0], answers[0], rest);
    FirstTurn(qs, WireOf(qs[0], answers[0]) + rest);
    MeantError(qs[0], answers[0]);
  }

  /**
  Over any series of answers: the coroutine ends every request, in order, with the result and the data
  the server sent for it, exactly when no read is answered with an error.
  */
  lemma {:induction false} ReceivesAsMeantIff(qs: seq<Queue>, answers: seq<Answer>)
    requires AnswersOk(qs, answers)
    ensures Receive(qs, Wire(qs, answers)) == MeantAll(qs, answers)
       <==> forall i :: 0 <= i < |qs| ==> !ReadError(qs[i], answers[i])
  {
    if qs != [] {
      hide Receive, Wire, Meant;
      assert |MeantAll(qs, answers)| >= 1 && MeantAll(qs, answers)[0] == Meant(qs[0], answers[0]);
      if ReadError(qs[0], answers[0]) {
        MissesFirst(qs, answers);
      } else {
        TakesFirst(qs, answers);
        ReceivesAsMeantIff(qs[1..], answers[1..]);
        SameTail(Meant(qs[0], answers[0]), Receive(qs[1..], Wire(qs[1..], answers[1..])),
                 MeantAll(qs[1..], answers[1..]));
        ErrorsInTail(qs, answers);
      }
    }
  }

  lemma SameTail(o: Outcome, xs: seq<Outcome>, ys: seq<Outcome>)
    ensures [o] + xs == [o] + ys <==> xs == ys
  {
    assert ([o] + xs)[1..] == xs && ([o] + ys)[1..] == ys;
  }

  lemma MeantError(q: Queue, a: Answer)
    requires AnswerOk(q, a) && ReadError(q, a)
    ensures Meant(q, a) == Ended(a.tag, -EIO, [])
  {
  }

  lemma {:induction false} ErrorsInTail(qs: seq<Queue>, answers: seq<Answer>)
    requires AnswersOk(qs, answers) && qs != [] && !ReadError(qs[0], answers[0])
    ensures (forall i :: 0 <= i < |qs| ==> !ReadError(qs[i], answers[i]))
       <==> (forall i :: 0 <= i < |qs[1..]| ==> !ReadError(qs[1..][i], answers[1..][i]))
  {
    if forall i :: 0 <= i < |qs[1..]| ==> !ReadError(qs[1..][i], answers[1..][i]) {
      forall i | 0 <= i < |qs| ensures !ReadError(qs[i], answers[i]) {
        if i > 0 {
          assert !ReadError(qs[1..][i - 1], answers[1..][i - 1]);
        }
      }
    }
  }

  // ---- out of step ----

  /**
  After a read answered with an error, the reply to the next request is taken for data of the first, and
  what is left of that answer for the next reply: the rest of its data, if it has any.
  */
  lemma OutOfStep(q: Queue, a: Answer, r: Queue, b: Answer, rest: seq<nat>)
    requires AnswerOk(q, a) && ReadError(q, a) && q.requests[a.tag].sectors > 0 && AnswerOk(r, b)
    requires q.requests[a.tag].sectors * 512 <= |WireOf(r, b) + rest|
    ensures var len := q.requests[a.tag].sectors * 512;
            var stream := WireOf(q, a) + WireOf(r, b) + rest;
            var taken := (WireOf(r, b) + rest)[..len];
            && OneTurn(q, stream) == Some(Turn(Ended(a.tag, len, taken), REPLY_BYTES + len))
            && taken[..REPLY_BYTES] == Encode(ReplyTo(r, b))
            && stream[REPLY_BYTES + len..]
               == (if len <= REPLY_BYTES + |b.data| then b.data[len - REPLY_BYTES..] + rest
                   else rest[len - REPLY_BYTES - |b.data|..])
  {
    hide Encode, OneTurn;
    var len := q.requests[a.tag].sectors * 512;
    var tail := WireOf(r, b) + rest;
    TurnOnReadError(q, a, tail);
    assert WireOf(q, a) + WireOf(r, b) + rest == WireOf(q, a) + tail;
    assert tail[..len][..REPLY_BYTES] == Encode(ReplyTo(r, b));
    assert |WireOf(q, a)| == REPLY_BYTES;
    assert (WireOf(q, a) + tail)[REPLY_BYTES + len..] == tail[len..];
    if len <= REPLY_BYTES + |b.data| {
      assert tail[len..] == b.data[len - REPLY_BYTES..] + rest;
    } else {
      assert tail[len..] == rest[len - REPLY_BYTES - |b.data|..];
    }
  }

  function Zeros(n: nat): seq<nat>
  {
    seq(n, _ => 0)
  }

  const TWO_READS := Queue(0, 2, [1, 1], [Request(Read, 1), Request(Read, 1)])
  const FAILED := Answer(0, EIO, [])
  const ZEROS := Answer(1, 0, Zeros(512))

  lemma TwoReadsWire()
    ensures AnswerOk(TWO_READS, FAILED) && AnswerOk(TWO_READS, ZEROS)
    ensures AnswersOk([TWO_READS, TWO_READS], [FAILED, ZEROS])
    ensures Wire([TWO_READS, TWO_READS], [FAILED, ZEROS]) == WireOf(TWO_READS, FAILED) + WireOf(TWO_READS, ZEROS) + []
  {
    var qs, answers := [TWO_READS, TWO_READS], [FAILED, ZEROS];
    assert AnswersOk(qs, answers);
    hide WireOf;
    assert qs[1..] == [TWO_READS] && answers[1..] == [ZEROS];
    assert [TWO_READS][1..] == [] && [ZEROS][1..] == [];
    WireSplit(qs, answers);
    WireSplit([TWO_READS], [ZEROS]);
  }

  lemma ZerosAreNoReply()
    ensures OneTurn(TWO_READS, Zeros(16)) == Some(Turn(Left(-EPROTO), 16))
    ensures QueueOk(TWO_READS) && Receive([TWO_READS], Zeros(16)) == [Left(-EPROTO)]
  {
    assert Zeros(16)[..16] == Zeros(16);
    assert OneTurn(TWO_READS, Zeros(16)) == Some(Turn(Left(-EPROTO), 16));
    hide OneTurn, Receive;
    FirstTurn([TWO_READS], Zeros(16));
  }

  /** A sector of zeros after such an error: the first read succeeds with wrong data and the loop is left. */
  lemma ReadErrorExample()
    ensures AnswersOk([TWO_READS, TWO_READS], [FAILED, ZEROS])
    ensures Receive([TWO_READS, TWO_READS], Wire([TWO_READS, TWO_READS], [FAILED, ZEROS]))
         == [Ended(0, 512, Encode(ReplyTo(TWO_READS, ZEROS)) + Zeros(496)), Left(-EPROTO)]
  {
    hide OneTurn, Encode, Receive, Wire;
    var q, b := TWO_READS, ZEROS;
    TwoReadsWire();
    var stream := Wire([q, q], [FAILED, b]);
    OutOfStep(q, FAILED, q, b, []);
    assert (WireOf(q, b) + [])[..512] == Encode(ReplyTo(q, b)) + Zeros(496);
    assert stream[528..] == Zeros(16);
    FirstTurn([q, q], stream);
    ZerosAreNoReply();
    assert [q, q][1..] == [q];
  }

  // ---- the stream and the receive loop ----

  /** What an outcome is to the receive loop of NbdProtocol. */
  function UnitsOf(q: Queue, o: Outcome): seq<P.Unit>
  {
    match o
    case Left(_) => [P.Bad]
    case Ended(tag, _, _) =>
      if tag < |q.requests| && q.requests[tag].op == Read then [P.GotReply(tag), P.GotData] else [P.GotReply(tag)]
  }

  function UnitsOfAll(qs: seq<Queue>, os: seq<Outcome>): seq<P.Unit>
  {
    if qs == [] || os == [] then [] else UnitsOf(qs[0], os[0]) + UnitsOfAll(qs[1..], os[1..])
  }

  function CommitsFor(answers: seq<Answer>): seq<P.Sqe>
  {
    if answers == [] then [] else [P.Commit(answers[0].tag)] + CommitsFor(answers[1..])
  }

  /** The loop is reading a reply, and the answers are to different requests the server has been sent. */
  ghost predicate Expecting(s: P.State, qs: seq<Queue>, answers: seq<Answer>)
  {
    && AnswersOk(qs, answers) && P.LoopOk(s) && s.recvStarted && s.wait == P.Reply
    && (forall i :: 0 <= i < |answers| ==>
          && P.Answerable(s, answers[i].tag)
          && (s.reqs[answers[i].tag].isRead <==> qs[i].requests[answers[i].tag].op == Read))
    && (forall i, j :: 0 <= i < j < |answers| ==> answers[i].tag != answers[j].tag)
  }

  lemma {:induction false} UnitsConcat(s: P.State, us: seq<P.Unit>, vs: seq<P.Unit>)
    requires P.Units(s, us).Some?
    ensures P.Units(s, us + vs) == P.Units(P.Units(s, us).value, vs)
  {
    hide P.OneUnit;
    if vs == [] {
      assert us + vs == us;
    } else {
      var k := |vs| - 1;
      assert (us + vs)[..|us| + k] == us + vs[..k];
      UnitsConcat(s, us, vs[..k]);
    }
  }

  /** One answer finishes its request. */
  lemma AnswerFinishes(s: P.State, q: Queue, a: Answer)
    requires AnswerOk(q, a) && P.Answerable(s, a.tag) && s.recvStarted && s.wait == P.Reply
    requires s.reqs[a.tag].isRead <==> q.requests[a.tag].op == Read
    ensures P.Units(s, UnitsOf(q, Meant(q, a))) == Some(P.Finish(s, a.tag))
  {
    if s.reqs[a.tag].isRead {
      var us := [P.GotReply(a.tag), P.GotData];
      assert us[..1] == [P.GotReply(a.tag)] && us[..1][..0] == [];
      var m := s.(wait := P.Data(a.tag));
      assert P.Units(s, us[..1]) == Some(m);
      assert P.Answerable(m, a.tag);
      assert P.OneUnit(m, P.GotData) == Some(P.Finish(m, a.tag).(wait := P.Reply));
      assert P.Finish(m, a.tag).(wait := P.Reply) == P.Finish(s, a.tag);
    } else {
      assert [P.GotReply(a.tag)][..0] == [];
    }
  }

  /** A request still to be answered keeps being so when another is finished. */
  lemma FinishKeepsExpecting(s: P.State, qs: seq<Queue>, answers: seq<Answer>)
    requires answers != [] && Expecting(s, qs, answers)
    ensures Expecting(P.Finish(s, answers[0].tag), qs[1..], answers[1..])
  {
    hide P.LoopOk, AnswerOk;
    var t := answers[0].tag;
    var m := P.Finish(s, t);
    StillInLoop(s, t);
    forall i | 0 <= i < |answers[1..]|
      ensures P.Answerable(m, answers[1..][i].tag)
      ensures m.reqs[answers[1..][i].tag] == s.reqs[answers[1..][i].tag]
    {
      assert answers[1..][i] == answers[i + 1];
      StaysAnswerable(s, t, answers[i + 1].tag);
    }
    forall i | 0 <= i < |qs[1..]| ensures QueueOk(qs[1..][i]) && AnswerOk(qs[1..][i], answers[1..][i]) {
      assert qs[1..][i] == qs[i + 1] && answers[1..][i] == answers[i + 1];
    }
  }

  lemma StillInLoop(s: P.State, t: nat)
    requires P.LoopOk(s) && P.Answerable(s, t)
    ensures P.LoopOk(P.Finish(s, t).(wait := P.Reply))
  {
    hide P.Core, P.BgOk, P.CountRecv;
    P.FinishKeeps(s, t);
    P.BackgroundFlags(P.Finish(s, t), P.Finish(s, t).(wait := P.Reply));
  }

  lemma StaysAnswerable(s: P.State, t: nat, u: nat)
    requires P.LoopOk(s) && P.Answerable(s, t) && P.Answerable(s, u) && t != u
    ensures P.Answerable(P.Finish(s, t), u)
  {
    var m := P.Finish(s, t);
    P.CountSentUpdate(s.reqs, t, P.Idle);
    assert m.reqs[u].Sent?;
    P.SentSomewhere(m.reqs);
  }

  /** The receive loop has finished the requests answered, in order, and is reading replies again. */
  ghost predicate Driven(s: P.State, answers: seq<Answer>, m: Option<P.State>)
  {
    && m.Some? && Expecting(m.value, [], [])
    && m.value.sq == s.sq + CommitsFor(answers) && m.value.inFlight == s.inFlight - |answers|
  }

  lemma DrivenNext(s: P.State, answers: seq<Answer>, m: Option<P.State>)
    requires answers != [] && answers[0].tag < |s.reqs| && s.inFlight > 0
    requires Driven(P.Finish(s, answers[0].tag), answers[1..], m)
    ensures Driven(s, answers, m)
  {
    hide P.Finish, Expecting;
    FinishFields(s, answers[0].tag);
    assert s.sq + [P.Commit(answers[0].tag)] + CommitsFor(answers[1..]) == s.sq + CommitsFor(answers);
  }

  /**
  The receive loop of NbdProtocol, driven by the bytes of a series of answers of which no read reports an
  error, finishes exactly the requests answered, in the order of the answers, and goes on reading replies.
  */
  lemma {:induction false} StreamDrivesLoop(s: P.State, qs: seq<Queue>, answers: seq<Answer>)
    requires Expecting(s, qs, answers)
    requires forall i :: 0 <= i < |qs| ==> !ReadError(qs[i], answers[i])
    ensures Driven(s, answers, P.Units(s, UnitsOfAll(qs, Receive(qs, Wire(qs, answers)))))
    decreases |answers|
  {
    hide Receive, Wire, Meant, P.Finish, P.Units, UnitsOfAll, MeantAll, Expecting, ReadError, AnswerOk, QueueOk, Driven;
    AnswersOf(s, qs, answers);
    ReceivesAsMeantIff(qs, answers);
    if answers == [] {
      NoAnswers(s);
    } else {
      FinishKeepsExpecting(s, qs, answers);
      ErrorsInTail(qs, answers);
      StreamDrivesLoop(P.Finish(s, answers[0].tag), qs[1..], answers[1..]);
      ReceivesAsMeantIff(qs[1..], answers[1..]);
      FirstUnits(s, qs, answers);
      DrivenNext(s, answers, P.Units(s, UnitsOfAll(qs, MeantAll(qs, answers))));
    }
  }

  lemma AnswersOf(s: P.State, qs: seq<Queue>, answers: seq<Answer>)
    requires Expecting(s, qs, answers)
    ensures AnswersOk(qs, answers)
    ensures answers != [] ==> answers[0].tag < |s.reqs| && s.inFlight > 0
  {
    assert answers != [] ==> P.Answerable(s, answers[0].tag);
  }

  lemma NoAnswers(s: P.State)
    requires Expecting(s, [], [])
    ensures Driven(s, [], P.Units(s, UnitsOfAll([], MeantAll([], []))))
  {
    assert s.sq + CommitsFor([]) == s.sq;
  }

  /** The first answer's part of the loop. */
  lemma {:induction false} FirstUnits(s: P.State, qs: seq<Queue>, answers: seq<Answer>)
    requires Expecting(s, qs, answers) && answers != [] && AnswersOk(qs[1..], answers[1..])
    ensures answers[0].tag < |s.reqs| && s.inFlight > 0
    ensures P.Units(s, UnitsOfAll(qs, MeantAll(qs, answers)))
         == P.Units(P.Finish(s, answers[0].tag), UnitsOfAll(qs[1..], MeantAll(qs[1..], answers[1..])))
  {
    hide Meant, P.LoopOk, P.OneUnit, UnitsOf, P.Finish, P.Units, UnitsOfAll, MeantAll;
    var q, a := qs[0], answers[0];
    assert P.Answerable(s, a.tag);
    AnswerFinishes(s, q, a);
    MeantUnits(qs, answers);
    UnitsConcat(s, UnitsOf(q, Meant(q, a)), UnitsOfAll(qs[1..], MeantAll(qs[1..], answers[1..])));
  }

  lemma FinishFields(s: P.State, t: nat)
    requires t < |s.reqs| && s.inFlight > 0
    ensures P.Finish(s, t).sq == s.sq + [P.Commit(t)] && P.Finish(s, t).inFlight == s.inFlight - 1
  {
  }

  lemma {:induction false} MeantUnits(qs: seq<Queue>, answers: seq<Answer>)
    requires AnswersOk(qs, answers) && qs != []
    ensures AnswersOk(qs[1..], answers[1..])
    ensures UnitsOfAll(qs, MeantAll(qs, answers))
         == UnitsOf(qs[0], Meant(qs[0], answers[0])) + UnitsOfAll(qs[1..], MeantAll(qs[1..], answers[1..]))
  {
    hide UnitsOf, Meant;
    assert MeantAll(qs, answers)[1..] == MeantAll(qs[1..], answers[1..]);
  }
}
