/** The intrusive tail queue of include/queue.h, pointer for pointer.

    A C tail queue stores no pointer to a predecessor: `tqe_prev` and `tqh_last` hold the
    ADDRESS of the "next" cell that points here.  A queue head {tqh_first, tqh_last} and an
    embedded entry {tqe_next, tqe_prev} have the same layout, which is what TAILQ_LAST and
    TAILQ_PREV rely on when they cast one to the other.  One class, `Link`, models both:

      head :  nxt = tqh_first   bck = the link that owns the cell tqh_last points to
      entry:  nxt = tqe_next    bck = the link that owns the cell tqe_prev points to

    so `*x->tqe_prev = y` is `x.bck.nxt := y`, and `&x->field.tqe_next` is `x` itself. */
module TailQueue {

  class Link {
    var nxt: Link?
    var bck: Link?
    const owner: int        // the structure the link is embedded in
    ghost var home: int     // bookkeeping for containers of several queues; no macro reads it
    ghost const stamp: int  // identity of the owner, never reused

    // Queue entries live inside task blocks that come from calloc.
    constructor (owner: int, ghost stamp: int)
      ensures nxt == null && bck == null && this.owner == owner && this.stamp == stamp
    {
      nxt, bck := null, null;
      this.owner, this.stamp := owner, stamp;
    }
  }

  ghost predicate NoDup<T>(s: seq<T>) {
    forall i, j :: 0 <= i < j < |s| ==> s[i] != s[j]
  }

  /** `h` heads a well-formed queue whose elements, in order, are exactly `s`. */
  ghost predicate IsQueue(h: Link, s: seq<Link>)
    reads h, s
  {
    && h !in s
    && NoDup(s)
    && h.nxt == (if |s| == 0 then null else s[0])
    && h.bck == (if |s| == 0 then h else s[|s| - 1])
    && (forall i {:trigger s[i].nxt} :: 0 <= i < |s| ==> s[i].nxt == if i + 1 < |s| then s[i + 1] else null)
    && (forall i {:trigger s[i].bck} :: 0 <= i < |s| ==> s[i].bck == if i > 0 then s[i - 1] else h)
  }

  /** A head has one content only: the pointers determine the sequence. */
  lemma {:induction false} ContentIsUnique(h: Link, s: seq<Link>, t: seq<Link>)
    requires IsQueue(h, s) && IsQueue(h, t)
    ensures s == t
  {
    var n := if |s| < |t| then |s| else |t|;
    PrefixAgrees(h, s, t, n);
    if n > 0 {
      assert s[n - 1].nxt == t[n - 1].nxt;
    }
  }

  lemma {:induction false} PrefixAgrees(h: Link, s: seq<Link>, t: seq<Link>, n: nat)
    requires IsQueue(h, s) && IsQueue(h, t) && n <= |s| && n <= |t|
    ensures forall i :: 0 <= i < n ==> s[i] == t[i]
  {
    if n > 1 {
      PrefixAgrees(h, s, t, n - 1);
      assert s[n - 2].nxt == t[n - 2].nxt;
    }
  }

  // ---------------------------------------------------------------- update macros

  /** The owners of the two cells an update next to position `k` must rewrite: the "next" cell in
      front of it and the back pointer behind it. */
  ghost function Before(h: Link, s: seq<Link>, k: int): Link {
    if 0 < k <= |s| then s[k - 1] else h
  }

  ghost function After(h: Link, s: seq<Link>, k: int): Link {
    if 0 <= k + 1 < |s| then s[k + 1] else h
  }

  method Init(h: Link)
    modifies h`nxt, h`bck
    ensures IsQueue(h, [])
  {
    h.nxt := null;
    h.bck := h;
  }

  method InsertHead(h: Link, e: Link, ghost s: seq<Link>)
    requires IsQueue(h, s) && e != h && e !in s
    modifies {h, e}`nxt, {e, After(h, s, -1)}`bck
    ensures IsQueue(h, [e] + s)
  {
    assert |s| > 0 ==> s[0].bck == h;
    e.nxt := h.nxt;
    if e.nxt != null {
      h.nxt.bck := e;
    } else {
      h.bck := e;
    }
    h.nxt := e;
    e.bck := h;
  }

  method InsertTail(h: Link, e: Link, ghost s: seq<Link>)
    requires IsQueue(h, s) && e != h && e !in s
    modifies {e, Before(h, s, |s|)}`nxt, {e, h}`bck
    ensures IsQueue(h, s + [e])
  {
    assert |s| > 0 ==> s[|s| - 1].nxt == null;
    e.nxt := null;
    e.bck := h.bck;
    h.bck.nxt := e;
    h.bck := e;
  }

  method InsertAfter(h: Link, listelm: Link, e: Link, ghost s: seq<Link>, ghost k: nat)
    requires IsQueue(h, s) && e != h && e !in s && k < |s| && s[k] == listelm
    modifies {e, listelm}`nxt, {e, After(h, s, k)}`bck
    ensures IsQueue(h, s[..k + 1] + [e] + s[k + 1..])
  {
    assert listelm.nxt == if k + 1 < |s| then s[k + 1] else null;
    e.nxt := listelm.nxt;
    if e.nxt != null {
      e.nxt.bck := e;
    } else {
      h.bck := e;
    }
    listelm.nxt := e;
    e.bck := listelm;
  }

  // TAILQ_INSERT_BEFORE is not given the head; it reaches it, if it must, through tqe_prev.
  method InsertBefore(listelm: Link, e: Link, ghost h: Link, ghost s: seq<Link>, ghost k: nat)
    requires IsQueue(h, s) && e != h && e !in s && k < |s| && s[k] == listelm
    modifies {e, Before(h, s, k)}`nxt, {e, listelm}`bck
    ensures IsQueue(h, s[..k] + [e] + s[k..])
  {
    assert listelm.bck == if k > 0 then s[k - 1] else h;
    e.bck := listelm.bck;
    e.nxt := listelm;
    listelm.bck.nxt := e;
    listelm.bck := e;
  }

  /** The link whose back pointer TAILQ_REMOVE rewrites. */
  function Successor(h: Link, e: Link): Link
    reads e
  {
    if e.nxt != null then e.nxt else h
  }

  /** TAILQ_REMOVE as the macro runs it, whether or not `e` is still a member: two pointer
      writes, through whatever `e` happens to hold. */
  method Unlink(h: Link, e: Link)
    requires e.bck != null && e.bck != e && e != h && e.nxt != e
    modifies Successor(h, e)`bck, e.bck`nxt
    ensures Successor(h, e).bck == e.bck
    ensures e.bck.nxt == e.nxt
  {
    if e.nxt != null {
      e.nxt.bck := e.bck;
    } else {
      h.bck := e.bck;
    }
    e.bck.nxt := e.nxt;
  }

  method Remove(h: Link, e: Link, ghost s: seq<Link>, ghost k: nat)
    requires IsQueue(h, s) && k < |s| && s[k] == e
    modifies Before(h, s, k)`nxt, After(h, s, k)`bck
    ensures IsQueue(h, s[..k] + s[k + 1..])
    // The removed entry is left as it was: its links are stale, not cleared.
    ensures e.nxt == (if k + 1 < |s| then s[k + 1] else null)
    ensures e.bck == (if k > 0 then s[k - 1] else h)
  {
    assert e.nxt == if k + 1 < |s| then s[k + 1] else null;
    assert e.bck == if k > 0 then s[k - 1] else h;
    Unlink(h, e);
  }

  /** TAILQ_REMOVE of the first element. */
  method RemoveFirst(h: Link, e: Link, ghost s: seq<Link>)
    requires IsQueue(h, s) && |s| > 0 && s[0] == e
    modifies h`nxt, After(h, s, 0)`bck
    ensures IsQueue(h, s[1..])
    ensures e.nxt == (if |s| > 1 then s[1] else null) && e.bck == h
  {
    assert s[..0] + s[1..] == s[1..];
    hide IsQueue;
    Remove(h, e, s, 0);
  }

  method Replace(h: Link, e: Link, e2: Link, ghost s: seq<Link>, ghost k: nat)
    requires IsQueue(h, s) && e2 != h && e2 !in s && k < |s| && s[k] == e
    modifies {e2, Before(h, s, k)}`nxt, {e2, After(h, s, k)}`bck
    ensures IsQueue(h, s[k := e2])
  {
    assert e.nxt == if k + 1 < |s| then s[k + 1] else null;
    assert e.bck == if k > 0 then s[k - 1] else h;
    e2.nxt := e.nxt;
    if e2.nxt != null {
      e2.nxt.bck := e2;
    } else {
      h.bck := e2;
    }
    e2.bck := e.bck;
    e2.bck.nxt := e2;
  }

  // ---------------------------------------------------------------- access macros

  method First(h: Link, ghost s: seq<Link>) returns (r: Link?)
    requires IsQueue(h, s)
    ensures r == if |s| == 0 then null else s[0]
  {
    r := h.nxt;
  }

  /** TAILQ_LAST: *(((struct headname *)head->tqh_last)->tqh_last). */
  method Last(h: Link, ghost s: seq<Link>) returns (r: Link?)
    requires IsQueue(h, s)
    ensures r == if |s| == 0 then null else s[|s| - 1]
  {
    r := h.bck.bck.nxt;
  }

  /** TAILQ_PREV: the same cast, from an entry.  For the first element it runs off the front:
      through the head to the last cell, whose next is NULL. */
  method Prev(e: Link, ghost h: Link, ghost s: seq<Link>, ghost k: nat) returns (r: Link?)
    requires IsQueue(h, s) && k < |s| && s[k] == e
    ensures r == if k > 0 then s[k - 1] else null
  {
    r := e.bck.bck.nxt;
  }

  function Reversed<T>(s: seq<T>): (r: seq<T>)
    ensures |r| == |s|
    ensures forall i :: 0 <= i < |s| ==> r[i] == s[|s| - 1 - i]
  {
    if |s| == 0 then [] else [s[|s| - 1]] + Reversed(s[..|s| - 1])
  }

  method ForEach(h: Link, ghost s: seq<Link>) returns (visited: seq<Link>)
    requires IsQueue(h, s)
    ensures visited == s
  {
    visited := [];
    var v := h.nxt;
    while v != null
      invariant |visited| <= |s| && visited == s[..|visited|]
      invariant v == if |visited| < |s| then s[|visited|] else null
      decreases |s| - |visited|
    {
      visited := visited + [v];
      v := v.nxt;
    }
  }

  method ForEachReverse(h: Link, ghost s: seq<Link>) returns (visited: seq<Link>)
    requires IsQueue(h, s)
    ensures visited == Reversed(s)
  {
    visited := [];
    var v := Last(h, s);
    while v != null
      invariant |visited| <= |s|
      invariant forall i :: 0 <= i < |visited| ==> visited[i] == s[|s| - 1 - i]
      invariant v == if |visited| < |s| then s[|s| - 1 - |visited|] else null
      decreases |s| - |visited|
    {
      ghost var k := |s| - 1 - |visited|;
      visited := visited + [v];
      v := Prev(v, h, s, k);
    }
  }
}
