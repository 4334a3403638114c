/** `struct epoll_t.block_queue[]` of include/coroutine.h: one tail queue per descriptor, all of
    them sharing the single `block_entry` of each task.  The methods are the queue operations the
    runtime performs: initialise, append the current task, take the first waiter, and the
    TAILQ_REMOVE that exit cleanup applies to a task that was dequeued long ago. */
module BlockQueues {
  import opened TailQueue

  /** When the cleanup of a finished task leaves the queues alone.  `home` is the queue the task
      was last taken from and `succ` the waiter that stood behind it at that moment. */
  ghost predicate StaleIsHarmless(lists: seq<seq<Link>>, fds: seq<int>, home: int, succ: Link?) {
    |fds| == 0 ||
    (0 <= home < |lists| &&
     if succ == null then |lists[home]| == 0 && (forall fd :: fd in fds ==> fd == home)
     else |lists[home]| > 0 && lists[home][0] == succ)
  }

  predicate InArray(fds: seq<int>, n: nat) {
    forall k :: 0 <= k < |fds| ==> 0 <= fds[k] < n
  }

  class BlockQueues {
    const heads: seq<Link>
    ghost var lists: seq<seq<Link>>

    ghost var links: set<Link>

    ghost predicate Valid()
      reads this, heads, links
    {
      && |lists| == |heads|
      // Members carry the number of their queue and heads a number of their own, so distinct
      // queues share no link.
      && (forall f :: 0 <= f < |heads| ==> heads[f].home == -1 - f && heads[f].stamp == -1)
      && (forall f, i :: 0 <= f < |lists| && 0 <= i < |lists[f]| ==>
            lists[f][i] in links && lists[f][i].home == f)
      && (forall f :: 0 <= f < |heads| ==> IsQueue(heads[f], lists[f]))
    }

    /** The initialisation loop of co_get_thread_env. */
    constructor (n: nat)
      ensures Valid() && |heads| == n && lists == seq(n, _ => [])
      ensures forall l :: l in heads ==> fresh(l)
    {
      var hs: seq<Link> := [];
      for i := 0 to n
        invariant |hs| == i
        invariant forall k :: 0 <= k < i ==> fresh(hs[k]) && hs[k].home == -1 - k && hs[k].stamp == -1
        invariant forall k :: 0 <= k < i ==> IsQueue(hs[k], [])
      {
        var h := new Link(-1, -1);
        Init(h);
        h.home := -1 - i;
        hs := hs + [h];
      }
      heads := hs;
      lists := seq(n, _ => []);
      links := {};
    }

    method InsertTail(fd: int, e: Link)
      requires Valid() && 0 <= fd < |heads|
      requires e !in heads && forall f :: 0 <= f < |lists| ==> e !in lists[f]
      modifies this`lists, this`links, {e, Before(heads[fd], lists[fd], |lists[fd]|)}`nxt, {e, heads[fd]}`bck, e`home
      ensures Valid()
      ensures lists == old(lists)[fd := old(lists)[fd] + [e]]
    {
      hide IsQueue;
      ghost var q := lists[fd];
      e.home := fd;
      TailQueue.InsertTail(heads[fd], e, q);
      forall f | 0 <= f < |heads| && f != fd
        ensures IsQueue(heads[f], lists[f])
      {
        assert old(IsQueue(heads[f], lists[f]));
      }
      lists, links := lists[fd := q + [e]], links + {e};
    }

    /** TAILQ_FIRST followed by TAILQ_REMOVE, as the event loop does for each reported event. */
    method TakeFirst(fd: int) returns (e: Link)
      requires Valid() && 0 <= fd < |heads| && |lists[fd]| > 0
      modifies this`lists, {heads[fd]}`nxt, {After(heads[fd], lists[fd], 0)}`bck
      ensures Valid()
      ensures e == old(lists)[fd][0]
      ensures lists == old(lists)[fd := old(lists)[fd][1..]]
      ensures e.bck == heads[fd]
      ensures e.nxt == if |old(lists)[fd]| > 1 then old(lists)[fd][1] else null
    {
      ghost var q := lists[fd];
      e := heads[fd].nxt;
      RemoveFirst(heads[fd], e, q);
      forall f | 0 <= f < |heads| && f != fd
        ensures IsQueue(heads[f], lists[f])
      {
        assert old(IsQueue(heads[f], lists[f]));
      }
      lists := lists[fd := q[1..]];
    }

    /** What the pointers look like after stale removals for the descriptors in `done`. */
    ghost predicate Damaged(done: seq<int>, e: Link, home: int)
      requires 0 <= home < |heads| && InArray(done, |heads|)
      reads e, heads
    {
      |done| > 0 ==>
        && heads[home].nxt == e.nxt
        && (e.nxt == null ==> forall k :: 0 <= k < |done| ==> heads[done[k]].bck == heads[home])
    }

    /** One stale TAILQ_REMOVE. */
    method UnlinkStale(fd: int, e: Link, ghost home: int, ghost done: seq<int>)
      requires 0 <= fd < |heads| && 0 <= home < |heads| && NoDup(heads)
      requires e !in heads && e.bck == heads[home] && e.nxt != e
      requires e.nxt != null ==> e.nxt !in heads
      requires InArray(done, |heads|) && Damaged(done, e, home)
      modifies heads`nxt, heads`bck, (if e.nxt != null then {e.nxt} else {})`bck
      ensures e.nxt == old(e.nxt) && e.bck == old(e.bck)
      ensures Damaged([fd] + done, e, home)
      ensures old(Valid()) && StaleIsHarmless(lists, [fd], home, e.nxt) ==>
                Valid() && unchanged(heads) && (e.nxt != null ==> unchanged(e.nxt))
    {
      assert fd in [fd] && (Valid() ==> IsQueue(heads[home], lists[home]));
      Unlink(heads[fd], e);
    }

    /** Damage shows: the queues survive only if the stale removals were harmless. */
    lemma {:induction false} DamageShows(fds: seq<int>, e: Link, home: int)
      requires |fds| > 0 && 0 <= home < |heads|
      requires InArray(fds, |heads|) && e !in heads && Damaged(fds, e, home) && Valid()
      ensures StaleIsHarmless(lists, fds, home, e.nxt)
    {
      assert IsQueue(heads[home], lists[home]);
      if e.nxt == null {
        forall k | 0 <= k < |fds|
          ensures fds[k] == home
        {
          assert IsQueue(heads[fds[k]], lists[fds[k]]);
          assert heads[fds[k]].bck == heads[home] && heads[home] !in lists[fds[k]];
        }
      }
    }
  }
}
