/** Blocking calls on descriptor 0, which the runtime never sees as registered: how the registration
    list grows on runs, and runs that end with a write past it. */
module ZeroDescriptor {
  import opened Runtime
  import opened Invariants
  import opened Runs
  import opened Registrations
  import opened Masks
  import opened Scenes

  /** Descriptor 0 is never seen as registered, since `data.fd <= 0` is taken for "never": each call
      on it, accepted or refused, lists it once more; no other step of the task does. */
  lemma {:induction false} ZerosStep(s: State, a: Action, i: int)
    requires Inv(s) && Ready(s, a) && Step(s, a).Next? && Live(s, i) && !Frees(s, a, i)
    requires Live(Step(s, a).state, i) && Get(Step(s, a).state, i).pc != Done
    ensures Zeros(Get(Step(s, a).state, i).fds) == Zeros(Get(s, i).fds) + ZeroCall(s, a, i)
  {
    if s.running && s.current == i {
      CallerLists(s, a);
    } else {
      OthersArePassive(s, a, i);
    }
  }

  /** 1 if this step is a blocking call of task i on descriptor 0. */
  function ZeroCall(s: State, a: Action, i: int): nat {
    if s.running && s.current == i && a.DoBlock? && a.fd == 0 then 1 else 0
  }

  lemma {:induction false} CallerLists(s: State, a: Action)
    requires Inv(s) && s.running && Ready(s, a) && Step(s, a).Next? && !a.DoFinish?
    ensures var s', t := Step(s, a).state, Cur(s);
            && Live(s', s.current)
            && Get(s', s.current).fds ==
                 if a.DoBlock? && t.events[a.fd].fd <= 0 then t.fds + [a.fd] else t.fds
    ensures a.DoBlock? && a.fd == 0 ==> Cur(s).events[0].fd <= 0
  {
    if a.DoBlock? {
      BlockEffect(s, a.fd, a.bit);
    } else {
      hide Inv, Step, Ready;
      CallerKeepsItsList(s, a);
    }
    assert TaskOK(Cur(s));
  }

  lemma {:induction false} CallerKeepsItsList(s: State, a: Action)
    requires Inv(s) && s.running && Ready(s, a) && Step(s, a).Next? && !a.DoFinish? && !a.DoBlock?
    ensures var s' := Step(s, a).state;
            Live(s', s.current) && Get(s', s.current).fds == Cur(s).fds
  {
    hide Meets, Registered, QueuesOK, SerialsOK;
    match a
    case DoLoop(evs) => EventsArePassive(s, evs, s.current);
    case DoJoin(cid) => JoinTestSpares(s, cid, Get(s, cid).serial);
    case DoResume =>
      if Cur(s).pc.InJoin? {
        JoinTestSpares(s, Cur(s).pc.cid, Cur(s).pc.target);
      }
    case DoCreate =>
    case DoSleep(_, _) =>
  }

  ghost function ZeroCalls(ss: seq<State>, acts: seq<Action>, i: int, n: nat): nat
    requires |ss| == |acts| + 1 && n <= |acts|
  {
    if n == 0 then 0 else ZeroCalls(ss, acts, i, n - 1) + ZeroCall(ss[n - 1], acts[n - 1], i)
  }

  lemma {:induction false} ZeroIsListedEachTime(ss: seq<State>, acts: seq<Action>, i: int, n: nat)
    requires Run(ss, acts) && n < |ss| && Live(ss[0], i)
    requires forall k :: 0 <= k < n ==> !Frees(ss[k], acts[k], i)
    requires Live(ss[n], i) && Get(ss[n], i).pc != Done
    ensures Zeros(Get(ss[n], i).fds) == Zeros(Get(ss[0], i).fds) + ZeroCalls(ss, acts, i, n)
  {
    hide Step, Ready, Inv;
    if n > 0 {
      RunKeeps(ss, acts, n);
      SlotIsStable(ss, acts, i, n - 1);
      NotYetDone(ss[n - 1], acts[n - 1], i);
      ZeroIsListedEachTime(ss, acts, i, n - 1);
      ZerosStep(ss[n - 1], acts[n - 1], i);
    }
  }

  lemma {:induction false} NotYetDone(s: State, a: Action, i: int)
    requires Inv(s) && Ready(s, a) && Step(s, a).Next? && Live(s, i) && !Frees(s, a, i)
    requires Live(Step(s, a).state, i) && Get(Step(s, a).state, i).pc != Done
    ensures Get(s, i).pc != Done
  {
    assert TaskOK(Get(s, i));
    hide Step, Ready;
    if Get(s, i).pc == Done {
      ExitedIsOut(s, i);
      ExitedStays(s, a, i);
    }
  }

  /** On runs: a task that began with an empty list writes past fds[] with its next call if and only
      if that is on a descriptor it has not registered and its calls on descriptor 0, accepted or
      refused, and its registered descriptors add up to MAX_FD. */
  lemma {:induction false} ZeroOverrunsTheList(ss: seq<State>, acts: seq<Action>, n: nat, fd: int, bit: bv32)
    requires Run(ss, acts) && n < |ss| && Ready(ss[n], DoBlock(fd, bit))
    requires Live(ss[0], ss[n].current) && Get(ss[0], ss[n].current).fds == []
    requires forall k :: 0 <= k < n ==> !Frees(ss[k], acts[k], ss[n].current)
    ensures Block(ss[n], fd, bit).Fault? <==>
              Cur(ss[n]).events[fd].fd <= 0
              && ZeroCalls(ss, acts, ss[n].current, n) + |Listed(Cur(ss[n]).events)| == MAX_FD
  {
    hide Step, Inv, Block;
    RunKeeps(ss, acts, n);
    ZeroIsListedEachTime(ss, acts, ss[n].current, n);
    OverrunsIff(ss[n], fd, bit);
  }

  /** There are such runs: with descriptor 0 in the interest set each call on it is refused at once,
      and one call finds the list full. */
  lemma {:induction false} RefusedCalls(s: State, bit: bv32, n: nat) returns (ss: seq<State>, acts: seq<Action>)
    requires Inv(s) && Ready(s, DoBlock(0, bit)) && 0 in s.kernel && |Cur(s).fds| + n <= MAX_FD
    ensures Run(ss, acts) && ss[0] == s && |acts| == n && forall k :: 0 <= k < n ==> acts[k] == DoBlock(0, bit)
    ensures ss[n].current == s.current && Ready(ss[n], DoBlock(0, bit)) && 0 in ss[n].kernel
    ensures |Cur(ss[n]).fds| == |Cur(s).fds| + n
  {
    hide Step, Inv, Ready;
    if n == 0 {
      ss, acts := [s], [];
      RunStarts(s);
    } else {
      ss, acts := RefusedCalls(s, bit, n - 1);
      RunKeeps(ss, acts, n - 1);
      RefusedOnce(ss[n - 1], bit);
      RunAppend(ss, acts, DoBlock(0, bit));
      ss, acts := ss + [Step(ss[n - 1], DoBlock(0, bit)).state], acts + [DoBlock(0, bit)];
    }
  }

  lemma {:induction false} RefusedOnce(s: State, bit: bv32)
    requires Inv(s) && Ready(s, DoBlock(0, bit)) && 0 in s.kernel && |Cur(s).fds| < MAX_FD
    ensures Step(s, DoBlock(0, bit)).Next?
    ensures var s' := Step(s, DoBlock(0, bit)).state;
            && Sized(s') && s'.current == s.current && 0 in s'.kernel && Ready(s', DoBlock(0, bit))
            && |Cur(s').fds| == |Cur(s).fds| + 1
  {
    assert TaskOK(Cur(s));
    AddQueueForm(s, 0, bit);
    BlockEffect(s, 0, bit);
  }

  lemma FullListOverruns(s: State, bit: bv32)
    requires Inv(s) && Ready(s, DoBlock(0, bit)) && |Cur(s).fds| == MAX_FD
    ensures Block(s, 0, bit) == Fault(Overrun)
  {
    assert TaskOK(Cur(s));
  }

  lemma {:induction false} ZeroIsShared() returns (ss: seq<State>, acts: seq<Action>)
    ensures Run(ss, acts) && ss[0] == Init()
    ensures Ready(ss[|acts|], DoBlock(0, EPOLLIN)) && 0 in ss[|acts|].kernel && Cur(ss[|acts|]).fds == []
  {
    hide Run, Init;
    ss, acts := HandOver(0);
    LastKeeps(ss, acts);
  }

  /** From the start of the thread: the main coroutine reads from descriptor 0, and then another one
      tries to, MAX_FD times; its next call writes past fds[]. */
  lemma {:induction false} ZeroOverrunExample() returns (ss: seq<State>, acts: seq<Action>)
    ensures Run(ss, acts) && ss[0] == Init()
    ensures Ready(ss[|acts|], DoBlock(0, EPOLLIN)) && Block(ss[|acts|], 0, EPOLLIN) == Fault(Overrun)
  {
    hide Step, Inv, Ready, Block;
    var head, prefix := ZeroIsShared();
    RunKeeps(head, prefix, |prefix|);
    var tail, calls := RefusedCalls(head[|prefix|], EPOLLIN, MAX_FD);
    ss, acts := RunJoin(head, prefix, tail, calls);
    RunKeeps(ss, acts, |acts|);
    FullListOverruns(ss[|acts|], EPOLLIN);
  }
}
