/** What a whole run guarantees when the coroutines keep the calling discipline (a descriptor is first
    used for reading or accepting, by one task at a time, and is not 0) and the event loop is told
    of distinct descriptors with the bits that are waited for. */
module DisciplinedRuns {
  import opened Runtime
  import opened Scheduler
  import opened Invariants
  import opened Runs
  import opened Waiters
  import opened Masks

  /** Every reported event carries the bit that the first waiter of its queue tests for. */
  ghost predicate Carries(s: State, a: Action)
    requires Sized(s)
  {
    a.DoLoop? ==>
      && InRange(a.evs) && DistinctFds(a.evs)
      && forall k :: 0 <= k < |a.evs| && |s.queues[a.evs[k].fd]| > 0 ==>
           CarriesTo(Get(s, s.queues[a.evs[k].fd][0]), a.evs[k])
  }

  predicate CarriesTo(t: Task, ev: Event) {
    t.pc.InWait? ==> Meets(ev.events, t.pc.bit)
  }

  ghost predicate ExecutingRuns(s: State)
    requires Live(s, s.current)
  {
    s.running ==> Cur(s).status == RUNNING
  }

  /** No call is refused, so the executing task keeps status RUNNING. */
  lemma {:induction false} ExecutingStays(s: State, a: Action)
    requires Inv(s) && Agree(s) && Tidy(s) && ExecutingRuns(s) && Ready(s, a) && Strict(s, a) && Step(s, a).Next?
    ensures Live(Step(s, a).state, Step(s, a).state.current) && ExecutingRuns(Step(s, a).state)
  {
    hide Agree, Tidy, TaskOK, QueuesOK, SerialsOK;
    StepKeeps(s, a);
    match a
    case DoBlock(fd, bit) =>
      BlockTidy(s, fd, bit);
      AcceptedCallSuspends(s, fd, bit);
    case DoDispatch(sweeps) => PickIsFirst(Sweeps(s.tasks, sweeps), s.current);
    case DoJoin(cid) => JoinTestSpares(s, cid, Get(s, cid).serial);
    case DoResume =>
      if Cur(s).pc.InJoin? {
        JoinTestSpares(s, Cur(s).pc.cid, Cur(s).pc.target);
      }
    case _ =>
  }

  lemma {:induction false} DisciplineIsCareful(s: State, a: Action)
    requires Inv(s) && Agree(s) && Tidy(s) && NoneLost(s) && ExecutingRuns(s)
    requires Ready(s, a) && Step(s, a).Next? && Carries(s, a)
    ensures Careful(s, a)
  {
    if a.DoLoop? {
      BatchDelivers(s, a.evs);
    }
  }

  lemma {:induction false} BatchDelivers(s: State, evs: seq<Event>)
    requires Inv(s) && Agree(s) && Tidy(s) && s.running && InRange(evs) && Events(s, evs).Next?
    requires Carries(s, DoLoop(evs))
    ensures AllDeliver(s, evs)
  {
    hide Inv, Agree, Tidy, Events, Delivers, AllDeliver, Meets;
    QueuesPart(s);
    BatchIsExact(s, evs);
    DistinctBatchDelivers(s, evs);
    forall k | 0 <= k < |evs|
      ensures Delivers(s, evs[k])
    {
      DeliversIff(s, evs[k]);
    }
  }

  /** From the start of the thread: interest set and records agree, nobody is lost, and whoever
      executes is RUNNING, at every state. */
  lemma {:induction false} AllIsWell(ss: seq<State>, acts: seq<Action>, n: nat)
    requires Run(ss, acts) && n < |ss| && ss[0] == Init()
    requires forall k :: 0 <= k < n ==> Strict(ss[k], acts[k]) && Carries(ss[k], acts[k])
    ensures Agree(ss[n]) && Tidy(ss[n]) && NoneLost(ss[n]) && ExecutingRuns(ss[n])
  {
    hide Step, Ready, Inv, Agree, Tidy, NoneLost, Strict, Carries, Careful, ExecutingRuns;
    RunKeeps(ss, acts, n);
    if n > 0 {
      AllIsWell(ss, acts, n - 1);
      StrictKeeps(ss[n - 1], acts[n - 1]);
      ExecutingStays(ss[n - 1], acts[n - 1]);
      DisciplineIsCareful(ss[n - 1], acts[n - 1]);
      LosesIff(ss[n - 1], acts[n - 1]);
    } else {
      InitAgrees();
      InitRuns();
    }
  }

  lemma InitRuns()
    ensures Live(Init(), 0) && ExecutingRuns(Init())
  {
  }

  /** So, at every point of such a run, a task that is not executing has status WAIT if and only if
      it stands in a queue; the queue is that of the descriptor it awaits, and epoll is asked for the
      awaited bit. */
  lemma {:induction false} EveryWaiterIsServed(ss: seq<State>, acts: seq<Action>, n: nat, i: int)
    requires Run(ss, acts) && n < |ss| && ss[0] == Init()
    requires forall k :: 0 <= k < n ==> Strict(ss[k], acts[k]) && Carries(ss[k], acts[k])
    requires Live(ss[n], i) && !(ss[n].running && ss[n].current == i)
    ensures Get(ss[n], i).status == WAIT <==> exists f :: 0 <= f < MAX_FD && i in ss[n].queues[f]
    ensures Get(ss[n], i).status == WAIT ==> Served(ss[n], i)
  {
    hide Step, Ready, Inv, Agree, Tidy, NoneLost, Strict, Carries, ExecutingRuns, Served;
    RunKeeps(ss, acts, n);
    AllIsWell(ss, acts, n);
    QueuedIff(ss[n], i);
    if Get(ss[n], i).status == WAIT {
      WaiterIsServed(ss[n], i);
    }
  }

  ghost predicate Served(s: State, i: int)
    requires Sized(s) && Live(s, i)
  {
    var pc := Get(s, i).pc;
    && pc.InWait? && 0 < pc.fd < MAX_FD && i in s.queues[pc.fd]
    && pc.fd in s.kernel && Meets(s.kernel[pc.fd], pc.bit) && Meets(s.kernel[pc.fd], EPOLLIN)
  }

  lemma {:induction false} WaiterIsServed(s: State, i: int)
    requires Inv(s) && Agree(s) && Tidy(s) && NoneLost(s) && Live(s, i) && Get(s, i).status == WAIT
    requires !(s.running && s.current == i)
    ensures Served(s, i)
  {
    hide Meets;
    var t := Get(s, i);
    QueuedIff(s, i);
    assert TaskOK(t) && TidyTask(t);
    assert OwnedBy(s, t.pc.fd, i);
    ExpectedBits(t);
  }

  lemma ExpectedBits(t: Task)
    requires t.pc.InWait? && (t.pc.bit == EPOLLIN || t.pc.bit == EPOLLOUT)
    ensures Meets(Expected(t, t.pc.fd), t.pc.bit) && Meets(Expected(t, t.pc.fd), EPOLLIN)
  {
  }
}
