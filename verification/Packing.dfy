/**
The words that carry an identity through the kernel and back: the user_data of a submission, the id
of an asynchronous request and the file position of a request's buffer. NbdReply has the NBD handle.
*/
module Packing {

  // ---- user_data ----

  function BuildUserData(tag: bv64, op: bv64, tgtData: bv64, isTarget: bool): bv64
  {
    tag | (op << 16) | (tgtData << 24) | ((if isTarget then 1 else 0) << 63)
  }

  function BuildInternalData(op: bv64): bv64
  {
    (op << 16) | (0x3 << 62)
  }

  function ToTag(u: bv64): bv64
  {
    u & 0xffff
  }

  function ToOp(u: bv64): bv64
  {
    (u >> 16) & 0xff
  }

  function ToTgtData(u: bv64): bv64
  {
    (u >> 24) & 0xffff
  }

  predicate IsInternal(u: bv64)
  {
    u & (1 << 62) != 0
  }

  predicate IsTarget(u: bv64)
  {
    u & (1 << 63) != 0
  }

  /** What a submission was made for. In batch mode the tag of a driver command is a buffer index. */
  datatype Origin =
    | Driver(tag: bv64, op: bv64, data: bv64)
    | Target(tag: bv64, op: bv64, data: bv64)
    | Internal(op: bv64)

  /** The ranges that building a word asserts. */
  predicate Fits(o: Origin)
  {
    o.op < 0x100 && (!o.Internal? ==> o.tag < 0x1_0000 && o.data < 0x1_0000)
  }

  function UserData(o: Origin): bv64
  {
    match o
    case Driver(tag, op, data) => BuildUserData(tag, op, data, false)
    case Target(tag, op, data) => BuildUserData(tag, op, data, true)
    case Internal(op) => BuildInternalData(op)
  }

  /** How a completion finds its handler: the target bit first, then the internal bit. */
  function Route(u: bv64): Origin
  {
    if IsTarget(u) then
      if IsInternal(u) then Internal(ToOp(u)) else Target(ToTag(u), ToOp(u), ToTgtData(u))
    else Driver(ToTag(u), ToOp(u), ToTgtData(u))
  }

  lemma UserDataFields(tag: bv64, op: bv64, data: bv64, isTarget: bool)
    requires tag < 0x1_0000 && op < 0x100 && data < 0x1_0000
    ensures var u := BuildUserData(tag, op, data, isTarget);
            ToTag(u) == tag && ToOp(u) == op && ToTgtData(u) == data
  {
  }

  lemma UserDataClass(tag: bv64, op: bv64, data: bv64, isTarget: bool)
    requires tag < 0x1_0000 && op < 0x100 && data < 0x1_0000
    ensures IsTarget(BuildUserData(tag, op, data, isTarget)) == isTarget
    ensures !IsInternal(BuildUserData(tag, op, data, isTarget))
  {
  }

  lemma InternalFields(op: bv64)
    requires op < 0x100
    ensures var u := BuildInternalData(op); IsTarget(u) && IsInternal(u) && ToOp(u) == op
  {
  }

  /** Every completion is routed to what it was submitted for. */
  lemma RouteInvertsUserData(o: Origin)
    requires Fits(o)
    ensures Route(UserData(o)) == o
  {
    hide BuildUserData, BuildInternalData, ToTag, ToOp, ToTgtData, IsTarget, IsInternal;
    match o
    case Internal(op) => InternalFields(op);
    case Driver(tag, op, data) =>
      UserDataFields(tag, op, data, false);
      UserDataClass(tag, op, data, false);
    case Target(tag, op, data) =>
      UserDataFields(tag, op, data, true);
      UserDataClass(tag, op, data, true);
  }

  /** So words of different origins never collide, whatever class they are of. */
  lemma UserDataInjective(o: Origin, p: Origin)
    requires Fits(o) && Fits(p) && UserData(o) == UserData(p)
    ensures o == p
  {
    hide UserData, Route;
    RouteInvertsUserData(o);
    RouteInvertsUserData(p);
  }

  // ---- asynchronous request ids ----

  function AioId(qid: bv32, tag: bv32): bv32
  {
    tag | (qid << 13)
  }

  function AioQid(id: bv32): bv32
  {
    (id >> 13) & 0x7ff
  }

  function AioTag(id: bv32): bv32
  {
    id & 0x1fff
  }

  /** An id names its queue and tag exactly when they fit 11 and 13 bits, which nothing asserts. */
  lemma AioIdExact(qid: bv32, tag: bv32)
    ensures AioQid(AioId(qid, tag)) == qid && AioTag(AioId(qid, tag)) == tag <==> qid < 0x800 && tag < 0x2000
  {
  }

  /** The driver numbers queues with 12 bits: two of its queues can share every id. */
  lemma AioIdsOfTwoQueues(tag: bv32)
    requires tag < 0x2000
    ensures AioQid(AioId(0x800, tag)) == AioQid(AioId(0, tag))
    ensures AioTag(AioId(0x800, tag)) == AioTag(AioId(0, tag)) == tag
  {
  }

  // ---- buffer positions ----

  const BUF_OFFSET: bv64 := 0x8000_0000

  function Pos(qid: bv64, tag: bv64, offset: bv64): bv64
  {
    BUF_OFFSET + ((qid << 41) | (tag << 25) | offset)
  }

  /** Where a position points, with the driver's field widths. */
  function PosQid(pos: bv64): bv64
  {
    ((pos - BUF_OFFSET) >> 41) & 0xfff
  }

  function PosTag(pos: bv64): bv64
  {
    ((pos - BUF_OFFSET) >> 25) & 0xffff
  }

  function PosOffset(pos: bv64): bv64
  {
    (pos - BUF_OFFSET) & 0x1ff_ffff
  }

  /** A position names its queue, tag and offset exactly when the queue number fits the driver's 12 bits. */
  lemma PosExact(qid: bv64, tag: bv64, offset: bv64)
    requires qid < 0x1_0000 && tag < 0x1_0000 && offset < 0x200_0000
    ensures PosTag(Pos(qid, tag, offset)) == tag && PosOffset(Pos(qid, tag, offset)) == offset
    ensures PosQid(Pos(qid, tag, offset)) == qid <==> qid < 0x1000
    ensures BUF_OFFSET <= Pos(qid, tag, offset)
  {
  }
}
