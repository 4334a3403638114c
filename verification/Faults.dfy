/** Exactly when a step faults, and how: a condition on the state and the action for each of them. */
module Faults {
  import opened Runtime
  import opened Scheduler
  import opened Invariants
  import opened Runs
  import opened Waiters
  import opened Registrations
  import opened Masks
  import opened ExitCleanup

  /** Every event of a batch, repeated descriptors included, finds a waiter of its own. */
  ghost predicate EnoughWaiters(s: State, evs: seq<Event>)
    requires Sized(s)
  {
    forall f :: 0 <= f < MAX_FD ==> CountFor(evs, f) <= |s.queues[f]|
  }

  /** What a caller of each step can check before it. */
  ghost predicate Safe(s: State, a: Action)
    requires Sized(s)
  {
    match a
    case DoBlock(fd, _) =>
      !(0 <= fd < MAX_FD && Cur(s).events[fd].fd <= 0 && Zeros(Cur(s).fds) + |Listed(Cur(s).events)| == MAX_FD)
    case DoLoop(evs) => EnoughWaiters(s, evs)
    case DoFinish => CleanupIsHarmless(s, Cur(s))
    case DoJoin(cid) => Live(s, cid)
    case DoResume => Cur(s).pc.InJoin? ==> Live(s, Cur(s).pc.cid)
    case _ => true
  }

  /** How an unsafe step faults. */
  function ReasonFor(s: State, a: Action): Reason
    requires Sized(s)
  {
    match a
    case DoBlock(_, _) => Overrun
    case DoFinish => if Cur(s).entry == Fresh then NullDereference else WreckedQueue
    case _ => NullDereference
  }

  lemma {:induction false} BatchFaultsIff(s: State, evs: seq<Event>)
    requires Sized(s) && InRange(evs)
    ensures Events(s, evs).Next? <==> EnoughWaiters(s, evs)
    ensures Events(s, evs).Fault? ==> Events(s, evs) == Fault(NullDereference)
  {
    if |evs| > 0 {
      var earlier, ev := evs[..|evs| - 1], evs[|evs| - 1];
      BatchFaultsIff(s, earlier);
      assert forall f :: CountFor(evs, f) == CountFor(earlier, f) + (if ev.fd == f then 1 else 0);
      if Events(s, earlier).Next? {
        EventsTakeTheFront(s, earlier, ev.fd);
      }
    }
  }

  /** A step faults if and only if it is unsafe, and for that reason. */
  lemma {:induction false} FaultsIff(s: State, a: Action)
    requires Inv(s) && Ready(s, a)
    ensures Step(s, a).Next? <==> Safe(s, a)
    ensures !Safe(s, a) ==> Step(s, a) == Fault(ReasonFor(s, a))
  {
    hide Registered, QueuesOK, SerialsOK;
    match a
    case DoBlock(fd, bit) => OverrunsIff(s, fd, bit);
    case DoLoop(evs) => BatchFaultsIff(s, evs);
    case DoFinish => FinishFaultsIff(s);
    case DoJoin(cid) =>
    case DoResume =>
    case DoCreate =>
    case DoSleep(_, _) =>
    case DoDispatch(_) =>
  }

  /** So a run goes on exactly as long as its steps are safe. */
  lemma {:induction false} RunGoesOnIff(ss: seq<State>, acts: seq<Action>, a: Action)
    requires Run(ss, acts) && Ready(ss[|acts|], a)
    ensures Safe(ss[|acts|], a) <==> exists s' :: Run(ss + [s'], acts + [a])
  {
    var s := ss[|acts|];
    RunKeeps(ss, acts, |acts|);
    FaultsIff(s, a);
    hide Step, Ready, Inv, Safe;
    if Step(s, a).Next? {
      RunAppend(ss, acts, a);
    }
    if s' :| Run(ss + [s'], acts + [a]) {
      LastStep(ss, acts, s', a);
    }
  }

  lemma LastStep(ss: seq<State>, acts: seq<Action>, s': State, a: Action)
    requires |ss| == |acts| + 1 && Run(ss + [s'], acts + [a])
    ensures Sized(ss[|acts|]) && Ready(ss[|acts|], a) && Step(ss[|acts|], a) == Next(s')
  {
    assert (acts + [a])[|acts|] == a && (ss + [s'])[|acts|] == ss[|acts|] && (ss + [s'])[|acts| + 1] == s';
  }

  /** In disciplined runs a blocking call never faults, a batch on distinct descriptors faults only on
      a descriptor nobody waits for, and a finish only after using several descriptors. */
  lemma {:induction false} DisciplinedFaultsIff(s: State, a: Action)
    requires Inv(s) && Agree(s) && Tidy(s) && Ready(s, a) && Strict(s, a)
    ensures a.DoBlock? ==> Step(s, a).Next?
    ensures a.DoLoop? && DistinctFds(a.evs) ==>
              (Step(s, a).Next? <==> forall k :: 0 <= k < |a.evs| ==> |s.queues[a.evs[k].fd]| == 1)
    ensures a.DoFinish? ==> (Step(s, a).Next? <==> |Cur(s).fds| <= 1)
  {
    hide Agree, Tidy, TaskOK, QueuesOK, SerialsOK, TidyTask;
    match a
    case DoBlock(fd, bit) => BlockAccepted(s, fd, bit);
    case DoLoop(evs) =>
      if DistinctFds(evs) {
        BatchIsExact(s, evs);
        forall k | 0 <= k < |evs|
          ensures |s.queues[evs[k].fd]| <= 1
        {
          OneWaiterPerQueue(s, evs[k].fd);
        }
      }
    case DoFinish => FinishIsCleanIff(s);
    case _ =>
  }
}
