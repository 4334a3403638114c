/** The circular queue of include/queue.h: a ring through the head, whose address the macros use as
    the end marker.  The head's cqh_first and cqh_last are the `next` and `prev` of its node. */
module CircleQueue {
  import opened TailQueue

  class Node {
    var next: Node
    var prev: Node

    /** A node by itself; CIRCLEQ_INIT makes a head of it. */
    constructor ()
      ensures next == prev == this
    {
      next, prev := this, this;
    }
  }

  /** The i-th node of the ring around `h`; the head stands at both ends. */
  ghost function At(h: Node, s: seq<Node>, i: int): Node {
    if 0 <= i < |s| then s[i] else h
  }

  /** `h` is the head of a ring whose elements, in order, are exactly `s`. */
  ghost predicate IsRing(h: Node, s: seq<Node>)
    reads h, s
  {
    && h !in s && NoDup(s)
    && h.next == (if |s| == 0 then h else s[0])
    && h.prev == (if |s| == 0 then h else s[|s| - 1])
    && (forall i {:trigger s[i].next} :: 0 <= i < |s| ==> s[i].next == if i + 1 < |s| then s[i + 1] else h)
    && (forall i {:trigger s[i].prev} :: 0 <= i < |s| ==> s[i].prev == if i > 0 then s[i - 1] else h)
  }

  /** A ring has one content only. */
  lemma {:induction false} ContentIsUnique(h: Node, s: seq<Node>, t: seq<Node>)
    requires IsRing(h, s) && IsRing(h, t)
    ensures s == t
  {
    var n := if |s| < |t| then |s| else |t|;
    PrefixAgrees(h, s, t, n);
    if n > 0 {
      assert s[n - 1].next == t[n - 1].next;
    }
  }

  lemma {:induction false} PrefixAgrees(h: Node, s: seq<Node>, t: seq<Node>, n: nat)
    requires IsRing(h, s) && IsRing(h, t) && n <= |s| && n <= |t|
    ensures forall i :: 0 <= i < n ==> s[i] == t[i]
  {
    if n > 1 {
      PrefixAgrees(h, s, t, n - 1);
      assert s[n - 2].next == t[n - 2].next;
    }
  }

  // ---------------------------------------------------------------- update macros

  method Init(h: Node)
    modifies h
    ensures IsRing(h, [])
  {
    h.next := h;
    h.prev := h;
  }

  method InsertAfter(h: Node, listelm: Node, e: Node, ghost s: seq<Node>, ghost k: nat)
    requires IsRing(h, s) && e != h && e !in s && k < |s| && s[k] == listelm
    modifies {e, listelm}`next, {e, At(h, s, k + 1)}`prev
    ensures IsRing(h, s[..k + 1] + [e] + s[k + 1..])
  {
    assert listelm.next == At(h, s, k + 1);
    e.next := listelm.next;
    e.prev := listelm;
    if listelm.next == h {
      h.prev := e;
    } else {
      listelm.next.prev := e;
    }
    listelm.next := e;
  }

  method InsertBefore(h: Node, listelm: Node, e: Node, ghost s: seq<Node>, ghost k: nat)
    requires IsRing(h, s) && e != h && e !in s && k < |s| && s[k] == listelm
    modifies {e, At(h, s, k - 1)}`next, {e, listelm}`prev
    ensures IsRing(h, s[..k] + [e] + s[k..])
  {
    assert listelm.prev == At(h, s, k - 1);
    e.next := listelm;
    e.prev := listelm.prev;
    if listelm.prev == h {
      h.next := e;
    } else {
      listelm.prev.next := e;
    }
    listelm.prev := e;
  }

  method InsertHead(h: Node, e: Node, ghost s: seq<Node>)
    requires IsRing(h, s) && e != h && e !in s
    modifies {e, h}`next, {e, At(h, s, 0)}`prev
    ensures IsRing(h, [e] + s)
  {
    e.next := h.next;
    e.prev := h;
    if h.prev == h {
      h.prev := e;
    } else {
      h.next.prev := e;
    }
    h.next := e;
  }

  method InsertTail(h: Node, e: Node, ghost s: seq<Node>)
    requires IsRing(h, s) && e != h && e !in s
    modifies {e, At(h, s, |s| - 1)}`next, {e, h}`prev
    ensures IsRing(h, s + [e])
  {
    e.next := h;
    e.prev := h.prev;
    if h.next == h {
      h.next := e;
    } else {
      h.prev.next := e;
    }
    h.prev := e;
  }

  method Remove(h: Node, e: Node, ghost s: seq<Node>, ghost k: nat)
    requires IsRing(h, s) && k < |s| && s[k] == e
    modifies {At(h, s, k - 1)}`next, {At(h, s, k + 1)}`prev
    ensures IsRing(h, s[..k] + s[k + 1..])
  {
    assert e.next == At(h, s, k + 1) && e.prev == At(h, s, k - 1);
    ghost var t := s[..k] + s[k + 1..];
    assert forall i {:trigger t[i]} :: 0 <= i < |t| ==> t[i] == if i < k then s[i] else s[i + 1];
    if e.next == h {
      h.prev := e.prev;
    } else {
      e.next.prev := e.prev;
    }
    if e.prev == h {
      h.next := e.next;
    } else {
      e.prev.next := e.next;
    }
  }

  // ---------------------------------------------------------------- access macros

  method IsEmpty(h: Node, ghost s: seq<Node>) returns (empty: bool)
    requires IsRing(h, s)
    ensures empty <==> s == []
  {
    empty := h.next == h;
  }

  method ForEach(h: Node, ghost s: seq<Node>) returns (visited: seq<Node>)
    requires IsRing(h, s)
    ensures visited == s
  {
    visited := [];
    var v := h.next;
    while v != h
      invariant |visited| <= |s| && visited == s[..|visited|]
      invariant v == At(h, s, |visited|)
      decreases |s| - |visited|
    {
      visited := visited + [v];
      v := v.next;
    }
  }

  method ForEachReverse(h: Node, ghost s: seq<Node>) returns (visited: seq<Node>)
    requires IsRing(h, s)
    ensures visited == Reversed(s)
  {
    visited := [];
    var v := h.prev;
    while v != h
      invariant |visited| <= |s|
      invariant forall i :: 0 <= i < |visited| ==> visited[i] == s[|s| - 1 - i]
      invariant v == At(h, s, |s| - 1 - |visited|)
      decreases |s| - |visited|
    {
      assert v == s[|s| - 1 - |visited|];
      visited := visited + [v];
      v := v.prev;
    }
  }
}
