/** Properties of whole runs, for every run from every state the invariant admits. */
module Runs {
  import opened Runtime
  import opened Scheduler
  import opened Invariants

  /** ss[0] -acts[0]-> ss[1] -acts[1]-> ... */
  ghost predicate Run(ss: seq<State>, acts: seq<Action>) {
    && |ss| == |acts| + 1
    && Inv(ss[0])
    && (forall k :: 0 <= k < |ss| ==> Sized(ss[k]))
    && (forall k {:trigger acts[k]} :: 0 <= k < |acts| ==>
          Ready(ss[k], acts[k]) && Step(ss[k], acts[k]) == Next(ss[k + 1]))
  }

  lemma {:induction false} RunKeeps(ss: seq<State>, acts: seq<Action>, n: nat)
    requires Run(ss, acts) && n < |ss|
    ensures forall k :: 0 <= k <= n ==> Inv(ss[k])
  {
    hide Step, Ready, Inv;
    if n > 0 {
      RunKeeps(ss, acts, n - 1);
      StepKeeps(ss[n - 1], acts[n - 1]);
    }
  }

  lemma {:induction false} RunTail(ss: seq<State>, acts: seq<Action>)
    requires Run(ss, acts) && |acts| > 0
    ensures Run(ss[1..], acts[1..])
  {
    hide Step, Ready, Inv;
    StepKeeps(ss[0], acts[0]);
  }

  lemma RunStarts(s: State)
    requires Inv(s)
    ensures Run([s], [])
  {
  }

  lemma {:induction false} RunAppend(ss: seq<State>, acts: seq<Action>, a: Action)
    requires Run(ss, acts) && Ready(ss[|acts|], a) && Step(ss[|acts|], a).Next?
    ensures Run(ss + [Step(ss[|acts|], a).state], acts + [a])
  {
    hide Step, Ready, Inv;
    var n := |acts|;
    RunKeeps(ss, acts, n);
    StepKeeps(ss[n], a);
    InvSized(Step(ss[n], a).state);
    var ss', acts' := ss + [Step(ss[n], a).state], acts + [a];
    forall k {:trigger acts'[k]} | 0 <= k < |acts'|
      ensures Ready(ss'[k], acts'[k]) && Step(ss'[k], acts'[k]) == Next(ss'[k + 1])
    {
      if k < n {
        assert acts'[k] == acts[k];
      }
    }
  }

  lemma InvSized(s: State)
    requires Inv(s)
    ensures Sized(s)
  {
  }

  lemma {:induction false} RunJoin(ss: seq<State>, acts: seq<Action>, ss2: seq<State>, acts2: seq<Action>)
    returns (ss': seq<State>, acts': seq<Action>)
    requires Run(ss, acts) && Run(ss2, acts2) && ss[|acts|] == ss2[0]
    ensures Run(ss', acts') && ss'[0] == ss[0] && |acts'| == |acts| + |acts2| && ss'[|acts'|] == ss2[|acts2|]
  {
    hide Step, Ready, Inv;
    ss', acts' := ss + ss2[1..], acts + acts2;
    forall k {:trigger acts'[k]} | 0 <= k < |acts'|
      ensures Ready(ss'[k], acts'[k]) && Step(ss'[k], acts'[k]) == Next(ss'[k + 1])
    {
      if k < |acts| {
        assert acts'[k] == acts[k] && ss'[k] == ss[k] && ss'[k + 1] == ss[k + 1];
      } else {
        assert acts'[k] == acts2[k - |acts|] && ss'[k] == ss2[k - |acts|] && ss'[k + 1] == ss2[k - |acts| + 1];
      }
    }
  }

  // ---------------------------------------------------------------- what others can do to a task

  /** All that can happen to a task while it does nothing itself: it may be taken from its queue,
      and it may be made RUNNING, but only out of a queue or, by a sweep of pick, from SLEEP. */
  ghost predicate Passive(t: Task, t': Task, swept: bool) {
    && t'.serial == t.serial && t'.pc == t.pc && t'.wakeuptime == t.wakeuptime
    && t'.fds == t.fds && t'.events == t.events
    && (t'.status == t.status || (t'.status == RUNNING && ((swept && t.status == SLEEP) || t.entry == Queued)))
    && (t.entry != Queued ==> t'.entry == t.entry && t'.revents == t.revents)
  }

  lemma {:induction false} EventsArePassive(s: State, evs: seq<Event>, i: int)
    requires Inv(s) && s.running && InRange(evs) && Events(s, evs).Next? && Live(s, i)
    ensures var s' := Events(s, evs).state;
            Live(s', i) && Passive(Get(s, i), Get(s', i), false) && s'.kernel == s.kernel
  {
    if |evs| > 0 {
      var earlier := evs[..|evs| - 1];
      EventsArePassive(s, earlier, i);
      EventsKeep(s, earlier);
      var s1 := Events(s, earlier).state;
      var ev := evs[|evs| - 1];
      assert WaitsAt(Get(s1, s1.queues[ev.fd][0]), ev.fd);
    }
  }

  ghost predicate Frees(s: State, a: Action, i: int)
    requires Live(s, s.current)
  {
    && Live(s, i) && Get(s, i).status == EXIT && i != s.current && s.running
    && (a == DoJoin(i) || (a == DoResume && Cur(s).pc.InJoin? && Cur(s).pc.cid == i))
  }

  /** A step never touches a task other than the current one, except passively, or to free it once
      it is EXIT and the current task joins its slot. */
  lemma {:induction false} OthersArePassive(s: State, a: Action, i: int)
    requires Inv(s) && Ready(s, a) && Step(s, a).Next? && Live(s, i)
    requires !(s.running && s.current == i)
    ensures var s' := Step(s, a).state;
            if Frees(s, a, i) then s'.tasks[i] == None
            else Live(s', i) && Passive(Get(s, i), Get(s', i), a.DoDispatch?)
  {
    hide TaskOK, QueuesOK, SerialsOK, Block, JoinTest, Events, Resume, Sweeps;
    match a {
      case DoLoop(evs) =>
        EventsArePassive(s, evs, i);
      case DoDispatch(sweeps) =>
        SweepsWake(s.tasks, sweeps);
        assert WokenBy(s.tasks[i], Dispatch(s, sweeps).tasks[i], sweeps, i);
      case DoBlock(fd, bit) =>
        BlockForm(s, fd, bit);
      case DoJoin(cid) =>
        JoinTestFreesOnly(s, cid, Get(s, cid).serial, i);
      case DoResume =>
        ResumeFreesOnly(s, i);
      case _ =>
    }
  }

  lemma {:induction false} JoinTestFreesOnly(s: State, cid: int, target: nat, i: int)
    requires Live(s, s.current) && 0 <= cid < |s.tasks| && JoinTest(s, cid, target).Next?
    requires Live(s, i) && i != s.current
    ensures var s' := JoinTest(s, cid, target).state;
            |s'.tasks| == |s.tasks|
            && s'.tasks[i] == if i == cid && Get(s, i).status == EXIT then None else s.tasks[i]
  {
  }

  lemma {:induction false} ResumeFreesOnly(s: State, i: int)
    requires Sized(s) && Ready(s, DoResume) && Resume(s).Next? && Live(s, i) && i != s.current
    ensures var s' := Resume(s).state;
            |s'.tasks| == |s.tasks|
            && s'.tasks[i] == if Cur(s).pc.InJoin? && Cur(s).pc.cid == i && Get(s, i).status == EXIT
                              then None else s.tasks[i]
  {
    if Cur(s).pc.InJoin? {
      JoinTestFreesOnly(s, Cur(s).pc.cid, Cur(s).pc.target, i);
    }
  }

  /** A blocking call rewrites the caller's slot and no other. */
  lemma {:induction false} BlockForm(s: State, fd: int, bit: bv32)
    requires Sized(s) && 0 <= fd < MAX_FD && Block(s, fd, bit).Next?
    ensures var s' := Block(s, fd, bit).state;
            && s'.current == s.current
            && |s'.tasks| == |s.tasks|
            && Live(s', s'.current) && Cur(s').serial == Cur(s).serial
            && forall i :: 0 <= i < |s.tasks| && i != s.current ==> s'.tasks[i] == s.tasks[i]
  {
    AddQueueForm(s, fd, bit);
    if AddQueue(s, fd, bit).Added? {
      AcceptedCallSuspends(s, fd, bit);
    }
  }

  lemma {:induction false} JoinTestSpares(s: State, cid: int, target: nat)
    requires Inv(s) && s.running && Cur(s).pc != Done && Live(s, cid) && JoinTest(s, cid, target).Next?
    ensures var s' := JoinTest(s, cid, target).state;
            && s'.current == s.current && Live(s', s.current)
            && (Cur(s') == Cur(s).(pc := User) || Cur(s') == Cur(s).(pc := InJoin(cid, target)))
  {
    assert TaskOK(Cur(s));
  }

  /** The current task keeps its slot and its identity through its own steps. */
  lemma {:induction false} CurrentStays(s: State, a: Action)
    requires Inv(s) && Ready(s, a) && Step(s, a).Next? && s.running
    ensures var s' := Step(s, a).state;
            && s'.current == s.current && Live(s', s.current)
            && Cur(s').serial == Cur(s).serial
  {
    match a {
      case DoLoop(evs) =>
        EventsArePassive(s, evs, s.current);
      case DoBlock(fd, bit) =>
        BlockForm(s, fd, bit);
      case DoJoin(cid) =>
        JoinTestSpares(s, cid, Get(s, cid).serial);
      case DoResume =>
        if Cur(s).pc.InJoin? {
          JoinTestSpares(s, Cur(s).pc.cid, Cur(s).pc.target);
        }
      case _ =>
    }
  }

  /** Whoever executes is RUNNING, unless a refused call has left it at WAIT in its own code. */
  lemma ModeKept(s: State)
    requires Inv(s)
    ensures Live(s, s.current)
    ensures s.running && Cur(s).pc != User ==> Cur(s).status == RUNNING
  {
  }

  /** An empty slot stays empty, or gets a new task from co_create. */
  lemma {:induction false} EmptySlotStays(s: State, a: Action, i: int)
    requires Inv(s) && Ready(s, a) && Step(s, a).Next? && 0 <= i < NR_TASKS && s.tasks[i].None?
    ensures var s' := Step(s, a).state;
            |s'.tasks| == NR_TASKS && (s'.tasks[i].None? || (a.DoCreate? && s'.tasks[i] == Some(ZeroTask(s.births))))
  {
    hide TaskOK, QueuesOK, SerialsOK, Block, Events, Sweeps, AddQueue;
    match a {
      case DoLoop(evs) =>
        EventsFillNoSlot(s, evs, i);
      case DoDispatch(sweeps) =>
        SweepsWake(s.tasks, sweeps);
        assert WokenBy(s.tasks[i], Dispatch(s, sweeps).tasks[i], sweeps, i);
      case DoBlock(fd, bit) =>
        BlockForm(s, fd, bit);
      case _ =>
    }
  }

  lemma {:induction false} EventsFillNoSlot(s: State, evs: seq<Event>, i: int)
    requires Sized(s) && InRange(evs) && Events(s, evs).Next? && 0 <= i < NR_TASKS && s.tasks[i].None?
    ensures Events(s, evs).state.tasks[i].None?
  {
    if |evs| > 0 {
      EventsFillNoSlot(s, evs[..|evs| - 1], i);
    }
  }

  // ---------------------------------------------------------------- EXIT is final

  /** Once start has set EXIT, the task block never changes again and its task is never the one
      executing, up to the end of the run or the join that frees it, whichever comes first. */
  lemma {:induction false} ExitIsFinal(ss: seq<State>, acts: seq<Action>, i: int, n: nat)
    requires Run(ss, acts) && n < |ss| && Live(ss[0], i) && Get(ss[0], i).status == EXIT
    requires forall k :: 0 <= k < n ==> !Frees(ss[k], acts[k], i)
    ensures forall k :: 0 <= k <= n ==>
              && ss[k].tasks[i] == ss[0].tasks[i]
              && !(ss[k].running && ss[k].current == i)
              && forall f :: 0 <= f < MAX_FD ==> i !in ss[k].queues[f]
  {
    hide Step, Ready, Inv;
    RunKeeps(ss, acts, n);
    if n > 0 {
      ExitIsFinal(ss, acts, i, n - 1);
      ExitedStays(ss[n - 1], acts[n - 1], i);
    }
    ExitedIsOut(ss[n], i);
  }

  lemma {:induction false} ExitedStays(s: State, a: Action, i: int)
    requires Inv(s) && Ready(s, a) && Step(s, a).Next? && Live(s, i) && Get(s, i).status == EXIT
    requires !(s.running && s.current == i) && !Frees(s, a, i)
    ensures i < |Step(s, a).state.tasks| && Step(s, a).state.tasks[i] == s.tasks[i]
  {
    OthersArePassive(s, a, i);
    assert TaskOK(Get(s, i));
  }

  lemma {:induction false} ExitedIsOut(s: State, i: int)
    requires Inv(s) && Live(s, i) && Get(s, i).status == EXIT
    ensures !(s.running && s.current == i)
    ensures forall f :: 0 <= f < MAX_FD ==> i !in s.queues[f]
  {
    hide Registered;
    assert TaskOK(Get(s, i));
    forall f, k | 0 <= f < MAX_FD && 0 <= k < |s.queues[f]|
      ensures s.queues[f][k] != i
    {
      assert WaitsAt(Get(s, s.queues[f][k]), f);
    }
  }

  // ---------------------------------------------------------------- handles

  /** A slot holds the same task from the moment it is filled until a task that joins it finds it
      EXIT and frees it. */
  lemma {:induction false} SlotIsStable(ss: seq<State>, acts: seq<Action>, i: int, n: nat)
    requires Run(ss, acts) && n < |ss| && Live(ss[0], i)
    requires forall k :: 0 <= k < n ==> !Frees(ss[k], acts[k], i)
    ensures Live(ss[n], i) && Get(ss[n], i).serial == Get(ss[0], i).serial
  {
    hide Step, Ready, Inv;
    RunKeeps(ss, acts, n);
    if n > 0 {
      SlotIsStable(ss, acts, i, n - 1);
      var s, a := ss[n - 1], acts[n - 1];
      if s.running && s.current == i {
        CurrentStays(s, a);
      } else {
        OthersArePassive(s, a, i);
      }
    }
  }

  /** What slot `i` holds, if anything, was created after `births` tasks had been. */
  ghost predicate NewerThan(s: State, i: int, births: nat) {
    && births <= s.births && 0 <= i < |s.tasks|
    && (s.tasks[i].Some? ==> s.tasks[i].value.serial >= births)
  }

  lemma {:induction false} StaysNewer(s: State, a: Action, i: int, births: nat)
    requires Inv(s) && Ready(s, a) && Step(s, a).Next? && NewerThan(s, i, births)
    ensures NewerThan(Step(s, a).state, i, births)
  {
    BirthsGrow(s, a);
    InvSized(s);
    hide Step, Ready, Inv;
    StepKeeps(s, a);
    InvSized(Step(s, a).state);
    if s.tasks[i].None? {
      EmptySlotStays(s, a, i);
    } else if s.running && s.current == i {
      CurrentStays(s, a);
    } else {
      OthersArePassive(s, a, i);
    }
  }

  lemma {:induction false} BirthsGrow(s: State, a: Action)
    requires Inv(s) && Ready(s, a) && Step(s, a).Next?
    ensures Step(s, a).state.births >= s.births
  {
    hide Resume, Block;
    InvSized(s);
    match a
    case DoLoop(evs) => EventsBearNobody(s, evs);
    case DoBlock(fd, bit) => BlockBearsNobody(s, fd, bit);
    case DoResume => ResumeBearsNobody(s);
    case _ =>
  }

  lemma BlockBearsNobody(s: State, fd: int, bit: bv32)
    requires Sized(s) && 0 <= fd < MAX_FD && Block(s, fd, bit).Next?
    ensures Block(s, fd, bit).state.births == s.births
  {
    hide AddQueue, Waited;
    AddQueueBearsNobody(s, fd, bit);
  }

  lemma AddQueueBearsNobody(s: State, fd: int, bit: bv32)
    requires Sized(s) && 0 <= fd < MAX_FD && !AddQueue(s, fd, bit).FdsOverrun?
    ensures AddQueue(s, fd, bit).state.births == s.births
  {
    hide Asked;
  }

  lemma ResumeBearsNobody(s: State)
    requires Sized(s) && Ready(s, DoResume) && Resume(s).Next?
    ensures Resume(s).state.births == s.births
  {
  }

  lemma {:induction false} EventsBearNobody(s: State, evs: seq<Event>)
    requires Sized(s) && InRange(evs) && Events(s, evs).Next?
    ensures Events(s, evs).state.births == s.births
  {
    if |evs| > 0 {
      EventsBearNobody(s, evs[..|evs| - 1]);
    }
  }

  lemma {:induction false} FreedIsEmpty(s: State, a: Action, i: int)
    requires Inv(s) && Ready(s, a) && Step(s, a).Next? && Frees(s, a, i)
    ensures var s' := Step(s, a).state;
            0 <= i < |s'.tasks| && s'.tasks[i] == None && NewerThan(s', i, s.births)
  {
    BirthsGrow(s, a);
    InvSized(s);
    OthersArePassive(s, a, i);
    hide Step, Ready, Inv;
    StepKeeps(s, a);
    InvSized(Step(s, a).state);
  }

  /** A freed slot never holds an old task again. */
  lemma {:induction false} FreedIsGone(ss: seq<State>, acts: seq<Action>, i: int, k: nat, n: nat)
    requires Run(ss, acts) && k < n < |ss| && Frees(ss[k], acts[k], i)
    ensures NewerThan(ss[n], i, ss[k].births)
  {
    hide Step, Ready, Inv, Frees, NewerThan;
    RunKeeps(ss, acts, n);
    if n == k + 1 {
      FreedIsEmpty(ss[k], acts[k], i);
    } else {
      FreedIsGone(ss, acts, i, k, n - 1);
      StaysNewer(ss[n - 1], acts[n - 1], i, ss[k].births);
    }
  }

  lemma {:induction false} SerialIsOlder(s: State, i: int)
    requires Inv(s) && Live(s, i)
    ensures Get(s, i).serial < s.births
  {
  }

  /** A handle is good exactly as long as nobody has joined and freed its slot: the slot still holds
      the same task if and only if no step has freed it. */
  lemma {:induction false} SameTaskIff(ss: seq<State>, acts: seq<Action>, i: int, n: nat)
    requires Run(ss, acts) && n < |ss| && Live(ss[0], i)
    ensures Live(ss[n], i) && Get(ss[n], i).serial == Get(ss[0], i).serial
            <==> forall k :: 0 <= k < n ==> !Frees(ss[k], acts[k], i)
  {
    hide Step, Ready, Inv, Frees;
    RunKeeps(ss, acts, n);
    if k :| 0 <= k < n && Frees(ss[k], acts[k], i) {
      var first := FirstFree(ss, acts, i, k);
      SlotIsStable(ss, acts, i, first);
      SerialIsOlder(ss[first], i);
      FreedIsGone(ss, acts, i, first, n);
    } else {
      SlotIsStable(ss, acts, i, n);
    }
  }

  lemma {:induction false} FirstFree(ss: seq<State>, acts: seq<Action>, i: int, k: nat) returns (first: nat)
    requires Run(ss, acts) && k < |acts| && Frees(ss[k], acts[k], i)
    ensures first <= k && Frees(ss[first], acts[first], i)
    ensures forall j :: 0 <= j < first ==> !Frees(ss[j], acts[j], i)
  {
    hide Step, Ready, Inv, Frees;
    if j :| 0 <= j < k && Frees(ss[j], acts[j], i) {
      first := FirstFree(ss, acts, i, j);
    } else {
      first := k;
    }
  }

  /** With one joiner per id: if nobody else frees slot `cid` while a task waits to join it, the
      join ends by freeing the very task it was asked to join, and that task had exited. */
  lemma {:induction false} JoinFreesItsTarget(ss: seq<State>, acts: seq<Action>, i: int, cid: int, target: nat, n: nat)
    requires Run(ss, acts) && n < |acts|
    requires Live(ss[0], cid) && Get(ss[0], cid).serial == target
    requires forall k :: 0 <= k < n ==> !Frees(ss[k], acts[k], cid)
    requires Ready(ss[n], acts[n]) && ss[n].current == i && Cur(ss[n]).pc == InJoin(cid, target) && acts[n] == DoResume
    requires Cur(ss[n + 1]).pc == User
    ensures Frees(ss[n], acts[n], cid)
    ensures Get(ss[n], cid).serial == target && Get(ss[n], cid).status == EXIT
    ensures ss[n + 1].tasks[cid] == None && ss[n + 1].count == ss[n].count - 1
  {
    hide Step, Ready, Inv;
    RunKeeps(ss, acts, n);
    SlotIsStable(ss, acts, cid, n);
    JoinReturns(ss[n], cid, target);
  }

  /** Two joiners: a join that returns frees whatever exited task it finds in its slot, and that is the
      task it was asked to join if and only if no other step has freed the slot meanwhile. */
  lemma {:induction false} JoinFreesItsTargetIff(ss: seq<State>, acts: seq<Action>, cid: int, target: nat, n: nat)
    requires Run(ss, acts) && n < |acts|
    requires Live(ss[0], cid) && Get(ss[0], cid).serial == target
    requires acts[n] == DoResume && Cur(ss[n]).pc == InJoin(cid, target) && Cur(ss[n + 1]).pc == User
    ensures Frees(ss[n], acts[n], cid)
    ensures Get(ss[n], cid).serial == target <==> forall k :: 0 <= k < n ==> !Frees(ss[k], acts[k], cid)
  {
    hide Step, Ready, Inv;
    RunKeeps(ss, acts, n);
    assert Ready(ss[n], acts[n]) && Step(ss[n], acts[n]) == Next(ss[n + 1]);
    SlotIsThere(ss[n], cid, target);
    JoinReturns(ss[n], cid, target);
    SameTaskIff(ss, acts, cid, n);
  }

  lemma {:induction false} SlotIsThere(s: State, cid: int, target: nat)
    requires Sized(s) && Ready(s, DoResume) && Cur(s).pc == InJoin(cid, target) && Step(s, DoResume).Next?
    ensures Live(s, cid)
  {
  }

  lemma {:induction false} JoinReturns(s: State, cid: int, target: nat)
    requires Inv(s) && Ready(s, DoResume) && Cur(s).pc == InJoin(cid, target) && Live(s, cid)
    requires Step(s, DoResume).Next? && Live(Step(s, DoResume).state, Step(s, DoResume).state.current)
    requires Cur(Step(s, DoResume).state).pc == User
    ensures Frees(s, DoResume, cid)
    ensures var s' := Step(s, DoResume).state;
            |s'.tasks| == |s.tasks| && s'.tasks[cid] == None && s'.count == s.count - 1
  {
    hide Registered;
    assert TaskOK(Get(s, cid));
  }

  // ---------------------------------------------------------------- fairness

  function Dispatches(acts: seq<Action>): nat {
    if |acts| == 0 then 0 else (if acts[0].DoDispatch? then 1 else 0) + Dispatches(acts[1..])
  }

  /** One step of the wait: whatever the others do, j stays RUNNING, and a dispatch either reaches
      j or strictly shortens the way to it. */
  lemma {:induction false} StepTowards(s: State, a: Action, j: int)
    requires Inv(s) && Ready(s, a) && Step(s, a).Next?
    requires IsRunning(s.tasks, j) && !(s.running && s.current == j)
    ensures var s' := Step(s, a).state;
            && IsRunning(s'.tasks, j)
            && (if a.DoDispatch?
                then s'.running && (s'.current == j || Distance(s'.current, j) < Distance(s.current, j))
                else s'.current == s.current && s.current != j)
  {
    OthersArePassive(s, a, j);
    if a.DoDispatch? {
      PickIsFirst(Step(s, a).state.tasks, s.current);
    } else {
      CurrentStays(s, a);
    }
  }

  /** Bounded waiting: a RUNNING task that is not executing becomes the current one within as many
      calls of schedule() as it is slots away from the current task, whatever all other tasks do. */
  lemma {:induction false} BoundedWait(ss: seq<State>, acts: seq<Action>, j: int) returns (k: nat)
    requires Run(ss, acts) && IsRunning(ss[0].tasks, j)
    requires !(ss[0].running && ss[0].current == j)
    requires Dispatches(acts) >= Distance(ss[0].current, j)
    ensures k < |acts| && acts[k].DoDispatch? && ss[k + 1].current == j && ss[k + 1].running
    ensures Dispatches(acts[..k + 1]) <= Distance(ss[0].current, j)
    decreases |acts|
  {
    hide Step, Ready, Inv;
    SlotsAndDistances(ss[0].current, j);
    RunTail(ss, acts);
    StepTowards(ss[0], acts[0], j);
    if acts[0].DoDispatch? && ss[1].current == j {
      k := 0;
      assert acts[..1][1..] == [];
    } else {
      var m := BoundedWait(ss[1..], acts[1..], j);
      k := m + 1;
      assert acts[..k + 1][1..] == acts[1..][..m + 1];
    }
  }

  // ---------------------------------------------------------------- lost waiters

  /** A suspended task with status WAIT that stands in no queue. */
  ghost predicate Lost(t: Task) {
    t.status == WAIT && t.entry != Queued && t.pc != User
  }

  /** Nothing can ever reach a lost task: it is as it was for the rest of every run. */
  lemma {:induction false} LostForever(ss: seq<State>, acts: seq<Action>, i: int, n: nat)
    requires Run(ss, acts) && n < |ss| && Live(ss[0], i) && Lost(Get(ss[0], i))
    ensures forall k :: 0 <= k <= n ==>
              ss[k].tasks[i] == ss[0].tasks[i] && !(ss[k].running && ss[k].current == i)
  {
    hide Step, Ready, Inv;
    RunKeeps(ss, acts, n);
    if n > 0 {
      LostForever(ss, acts, i, n - 1);
      OthersArePassive(ss[n - 1], acts[n - 1], i);
    }
    ModeKept(ss[n]);
  }

  /** The schedule() of the event loop returns after one sweep, whatever the clock shows: the task
      that runs the loop is itself RUNNING, unless it came to the loop with the status a refused
      call left behind. */
  lemma {:induction false} LoopIsNotStuck(s: State, evs: seq<Event>, times: seq<int>)
    requires Inv(s) && Ready(s, DoLoop(evs)) && Loop(s, evs).Next? && |times| == NR_TASKS
    requires Cur(s).pc == InLoop || Cur(s).status == RUNNING
    ensures Ready(Loop(s, evs).state, DoDispatch([times]))
  {
    var s' := Loop(s, evs).state;
    ModeKept(s);
    EventsArePassive(s, evs, s.current);
    LoopKeeps(s, evs);
    assert IsRunning(s'.tasks, s.current);
    OneSweepSuffices(s'.tasks, times);
  }

  /** A task in a wait loop, out of its queue, that has not been told of the bit it waits for.  It may
      have been woken for another bit and not have noticed yet. */
  ghost predicate Untold(t: Task) {
    && t.pc.InWait? && t.entry != Queued
    && 0 <= t.pc.fd < |t.revents| && !Meets(t.revents[t.pc.fd], t.pc.bit)
  }

  lemma {:induction false} UntoldStays(s: State, a: Action, i: int)
    requires Inv(s) && Ready(s, a) && Step(s, a).Next? && Live(s, i) && Untold(Get(s, i))
    ensures var s' := Step(s, a).state;
            Live(s', i) && Untold(Get(s', i)) && Get(s', i).pc == Get(s, i).pc && Get(s', i).serial == Get(s, i).serial
  {
    hide Registered, Meets;
    assert TaskOK(Get(s, i));
    if s.running && s.current == i {
      assert a == DoResume;
    } else {
      hide Step, Ready;
      OthersArePassive(s, a, i);
    }
  }

  /** It looks once more, and is WAIT again, in no queue. */
  lemma {:induction false} UntoldIsLostNext(s: State)
    requires Inv(s) && Ready(s, DoResume) && Untold(Cur(s))
    ensures Step(s, DoResume).Next?
    ensures var s' := Step(s, DoResume).state;
            && s'.current == s.current && !s'.running && Live(s', s.current)
            && Lost(Cur(s')) && Cur(s') == Cur(s).(status := WAIT)
  {
    hide Registered, Meets, QueuesOK, SerialsOK;
  }

  /** Such a task never gets out of its call: on every run it stays in the wait loop, untold. */
  lemma {:induction false} UntoldForever(ss: seq<State>, acts: seq<Action>, i: int, n: nat)
    requires Run(ss, acts) && n < |ss| && Live(ss[0], i) && Untold(Get(ss[0], i))
    ensures Live(ss[n], i) && Get(ss[n], i).serial == Get(ss[0], i).serial
    ensures Untold(Get(ss[n], i)) && Get(ss[n], i).pc == Get(ss[0], i).pc
  {
    hide Step, Ready, Inv, Untold;
    if n > 0 {
      RunKeeps(ss, acts, n);
      UntoldForever(ss, acts, i, n - 1);
      UntoldStays(ss[n - 1], acts[n - 1], i);
    }
  }
}
