/** What a finishing task does to the queues and to the interest set: when its cleanup faults, and
    whose registrations it deletes. */
module ExitCleanup {
  import opened Runtime
  import opened Invariants
  import opened Runs
  import opened Waiters
  import opened Masks

  /** How a finish can fault: cleanup dereferences NULL if and only if the task registered something
      but was never queued (all its calls were refused), and wrecks a queue if and only if it was
      queued and its stale links do harm. */
  lemma {:induction false} FinishFaultsIff(s: State)
    requires Inv(s) && Ready(s, DoFinish)
    ensures Finish(s) == Fault(NullDereference) <==> |Cur(s).fds| > 0 && Cur(s).entry == Fresh
    ensures Finish(s) == Fault(WreckedQueue) <==>
              |Cur(s).fds| > 0 && Cur(s).entry.Stale? && !CleanupIsHarmless(s, Cur(s))
    ensures Finish(s).Next? <==> CleanupIsHarmless(s, Cur(s))
  {
    CurrentIsOut(s);
  }

  lemma {:induction false} CurrentNotQueued(s: State, f: int)
    requires Inv(s) && s.running && 0 <= f < MAX_FD
    ensures forall k :: 0 <= k < |s.queues[f]| ==> s.queues[f][k] != s.current
  {
    hide TaskOK;
    CurrentIsOut(s);
    forall k | 0 <= k < |s.queues[f]|
      ensures s.queues[f][k] != s.current
    {
      assert WaitsAt(Get(s, s.queues[f][k]), f);
    }
  }

  lemma {:induction false} OwnQueueIsEmpty(s: State, f: int)
    requires Inv(s) && s.running && Agree(s) && Tidy(s) && 0 <= f < MAX_FD && OwnedBy(s, f, s.current)
    ensures |s.queues[f]| == 0
  {
    hide TaskOK, Tidy;
    CurrentNotQueued(s, f);
    OneWaiterPerQueue(s, f);
  }

  /** In a disciplined run a coroutine can finish without wrecking a queue if and only if it has
      used at most one descriptor: the stale TAILQ_REMOVE is repeated for every descriptor it
      registered, but its entry points into one queue only. */
  lemma {:induction false} FinishIsCleanIff(s: State)
    requires Inv(s) && Agree(s) && Tidy(s) && Ready(s, DoFinish)
    ensures Finish(s).Next? <==> |Cur(s).fds| <= 1
  {
    var t := Cur(s);
    assert TaskOK(t) && TidyTask(t);
    CurrentIsOut(s);
    if |t.fds| > 0 {
      var home := t.entry.home;
      assert OwnedBy(s, home, s.current);
      OwnQueueIsEmpty(s, home);
      if |t.fds| > 1 {
        assert t.fds[0] in t.fds && t.fds[1] in t.fds;
      }
    }
  }

  /** Finishing takes exactly the finisher's descriptors out of the interest set and changes no other
      task and no queue.  Whether another task was registered for the same descriptor is not asked:
      see OthersSurviveIff. */
  lemma {:induction false} FinishReleasesExactly(s: State)
    requires Inv(s) && Ready(s, DoFinish) && Finish(s).Next?
    ensures var s' := Finish(s).state;
            && (forall fd :: fd != 0 ==> (fd in s'.kernel <==> fd in s.kernel && !OwnedBy(s, fd, s.current)))
            && (forall fd :: fd in s'.kernel ==> s'.kernel[fd] == s.kernel[fd])
            && s'.queues == s.queues && (forall f :: 0 <= f < MAX_FD ==> s.current !in s'.queues[f])
            && (forall i :: 0 <= i < NR_TASKS && i != s.current ==> s'.tasks[i] == s.tasks[i])
            && Cur(s').status == EXIT && Cur(s').fds == []
  {
    var t := Cur(s);
    assert TaskOK(t);
    forall fd | fd != 0
      ensures fd in t.fds <==> OwnedBy(s, fd, s.current)
    {
    }
    FinishKeeps(s);
    ExitedIsOut(Finish(s).state, s.current);
  }

  /** The other registrations of a descriptor of the finisher are deleted with it: the entry of every
      other task survives if and only if nobody else is registered, in the interest set, for a
      descriptor of the finisher. */
  lemma {:induction false} OthersSurviveIff(s: State)
    requires Inv(s) && Ready(s, DoFinish) && Finish(s).Next?
    ensures (forall fd, j :: j != s.current && OwnedBy(s, fd, j) && fd in s.kernel ==> fd in Finish(s).state.kernel)
            <==> (forall fd, j :: j != s.current && OwnedBy(s, fd, j) && fd in s.kernel ==> !OwnedBy(s, fd, s.current))
  {
    hide Inv, Ready, Finish;
    FinishReleasesExactly(s);
    assert forall fd, j :: OwnedBy(s, fd, j) ==> fd != 0;
  }

  /** In agreement nobody shares a descriptor, so every other task keeps its entry. */
  lemma {:induction false} AgreedEntriesSurvive(s: State, fd: int, j: int)
    requires Inv(s) && Agree(s) && Ready(s, DoFinish) && Finish(s).Next? && j != s.current && OwnedBy(s, fd, j)
    ensures OwnedBy(Finish(s).state, fd, j)
    ensures fd in Finish(s).state.kernel && fd in s.kernel && Finish(s).state.kernel[fd] == s.kernel[fd]
  {
    FinishReleasesExactly(s);
    assert !OwnedBy(s, fd, s.current);
  }

  /** How a descriptor comes to be shared: the first call on a descriptor of another task is refused
      but recorded, and the second one goes into the queue without a word to epoll. */
  lemma {:induction false} RefusedThenAccepted(s: State, fd: int)
    requires Inv(s) && Ready(s, DoBlock(fd, EPOLLIN)) && 0 < fd && fd in s.kernel
    requires Cur(s).events[fd].fd == 0 && |Cur(s).fds| < MAX_FD
    ensures AddQueue(s, fd, EPOLLIN).Refused? && Block(s, fd, EPOLLIN).Next?
    ensures var s1 := Block(s, fd, EPOLLIN).state;
            && Sized(s1) && Ready(s1, DoBlock(fd, EPOLLIN)) && AddQueue(s1, fd, EPOLLIN).Added?
            && Block(s1, fd, EPOLLIN).Next?
            && Block(s1, fd, EPOLLIN).state.kernel == s.kernel
            && OwnedBy(Block(s1, fd, EPOLLIN).state, fd, s.current)
  {
    BlockEffect(s, fd, EPOLLIN);
    var s1 := Block(s, fd, EPOLLIN).state;
    BlockEffect(s1, fd, EPOLLIN);
  }
}
