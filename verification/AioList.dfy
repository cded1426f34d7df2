/**
The intrusive singly linked list the aio contexts are built from, at heap level. A list owns a
chain of nodes through their next fields; contents is the sequence it stands for.
*/
module AioList {

  class Aio {
    const id: nat
    var res: int
    var next: Aio?

    constructor (id: nat)
      ensures this.id == id && next == null
    {
      this.id, res, next := id, 0, null;
    }
  }

  /** What the next field of the i-th node of a chain holds. */
  ghost function After(xs: seq<Aio>, i: nat): Aio?
  {
    if i + 1 < |xs| then xs[i + 1] else null
  }

  /** The nodes are linked in this order, without repetition, and the last one ends the chain. */
  ghost predicate Chain(xs: seq<Aio>)
    reads xs
  {
    && (forall i :: 0 <= i < |xs| ==> xs[i].next == After(xs, i))
    && (forall i, j :: 0 <= i < j < |xs| ==> xs[i] != xs[j])
  }

  /** Two chains become one when the last node of the first points to the second. */
  lemma ChainConcat(xs: seq<Aio>, ys: seq<Aio>)
    requires ys != [] && Chain(ys) && (forall x :: x in xs ==> x !in ys)
    requires forall i :: 0 <= i < |xs| ==> xs[i].next == After(xs + ys[..1], i)
    requires forall i, j :: 0 <= i < j < |xs| ==> xs[i] != xs[j]
    ensures Chain(xs + ys)
  {
    forall i | 0 <= i < |xs + ys| ensures (xs + ys)[i].next == After(xs + ys, i) {
      if i < |xs| {
        assert xs[i].next == After(xs + ys[..1], i);
      } else {
        assert ys[i - |xs|].next == After(ys, i - |xs|);
      }
    }
    forall i, j | 0 <= i < j < |xs + ys| ensures (xs + ys)[i] != (xs + ys)[j] {
      if i < |xs| <= j {
        assert xs[i] in xs && ys[j - |xs|] in ys;
      }
    }
  }

  class List {
    var head: Aio?
    var tail: Aio?
    ghost var contents: seq<Aio>

    ghost function First(): set<Aio>
      reads this
    {
      if head == null then {} else {head}
    }

    ghost function Last(): set<Aio>
      reads this
    {
      if tail == null then {} else {tail}
    }

    /** Acyclic, null-terminated, and head and tail are the ends of it. */
    ghost predicate Valid()
      reads this, contents
    {
      && (contents == [] ==> head == null && tail == null)
      && (contents != [] ==> head == contents[0] && tail == contents[|contents| - 1])
      && Chain(contents)
    }

    constructor ()
      ensures Valid() && contents == []
    {
      head, tail, contents := null, null, [];
    }

    method Init()
      modifies this
      ensures Valid() && contents == []
    {
      head, tail, contents := null, null, [];
    }

    /** Append one node that is on no list of ours. */
    method Add(io: Aio)
      requires Valid() && io !in contents
      modifies this, io`next, Last()`next
      ensures Valid() && contents == old(contents) + [io]
    {
      io.next := null;
      if tail != null {
        tail.next := io;
      } else {
        head := io;
      }
      tail := io;
      contents := contents + [io];
    }

    /** Move everything from n to the end of this list. */
    method Splice(n: List)
      requires n != this && Valid() && n.Valid()
      requires forall x :: x in contents ==> x !in n.contents
      modifies this, n, Last()`next
      ensures Valid() && contents == old(contents) + old(n.contents)
      ensures n.Valid() && n.contents == []
    {
      hide Chain;
      if n.head == null {
        assert contents + n.contents == contents;
        return;
      }
      if tail != null {
        LinkTail(n.head, n.contents);
      } else {
        head := n.head;
        assert contents + n.contents == n.contents;
      }
      tail := n.tail;
      contents := contents + n.contents;
      n.Init();
    }

    /** Point the last node of this list at the first of another chain. */
    method LinkTail(first: Aio, ghost back: seq<Aio>)
      requires Valid() && tail != null
      requires back != [] && first == back[0] && Chain(back)
      requires forall x :: x in contents ==> x !in back
      modifies Last()`next
      ensures Chain(contents + back)
    {
      assert tail in contents && tail !in back;
      tail.next := first;
      assert forall i :: 0 <= i < |back| ==> back[i] in back && back[i].next == After(back, i);
      forall i | 0 <= i < |contents| ensures contents[i].next == After(contents + back[..1], i) {
        assert old(contents[i].next) == After(contents, i);
        assert i < |contents| - 1 ==> contents[i] != contents[|contents| - 1];
      }
      ChainConcat(contents, back);
    }

    method Empty() returns (empty: bool)
      requires Valid()
      ensures empty <==> contents == []
    {
      empty := head == null;
    }

    /** Take the first node off, unlinked; null when there is none. */
    method Pop() returns (io: Aio?)
      requires Valid()
      modifies this, First()`next
      ensures Valid()
      ensures old(contents) == [] ==> io == null && contents == []
      ensures old(contents) != [] ==> io == old(contents)[0] && contents == old(contents)[1..] && io.next == null
    {
      io := head;
      assert contents != [] ==> contents[0].next == After(contents, 0);
      if io != null {
        head := io.next;
        if head == null {
          tail := null;
        }
        io.next := null;
        ghost var was := contents;
        contents := contents[1..];
        assert forall i :: 0 <= i < |contents| ==> contents[i] == was[i + 1];
      }
    }
  }
}
