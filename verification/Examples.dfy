/** Runs from the start of the thread on which the runtime fails its intent: the failing side of the
    conditions proved elsewhere. */
module Examples {
  import opened Runtime
  import opened Invariants
  import opened Runs
  import opened Waiters
  import opened Masks
  import opened Scenes
  import opened Effects
  import Scheduler
  import Calls

  const EPOLLERR: bv32 := 8

  /** Main waits to read from descriptor 5, and epoll reports an error on it, as it always may: main is
      taken from the queue and not woken. */
  lemma {:induction false} LostWaiterExample() returns (ss: seq<State>, acts: seq<Action>)
    ensures Run(ss, acts) && ss[0] == Init() && |acts| == 4 && acts[3] == DoLoop([Event(5, EPOLLERR)])
    ensures AllStrict(ss, acts)
    ensures Live(ss[4], 0) && Lost(Get(ss[4], 0)) && !Reachable(Get(ss[4], 0))
  {
    ss, acts := LostScene();
  }

  lemma {:induction false} LostScene() returns (ss: seq<State>, acts: seq<Action>)
    ensures Can(HandedOver(5), Hears(EPOLLERR)) && Reached(ss, acts, After(HandedOver(5), Hears(EPOLLERR)))
    ensures |acts| == 4 && acts[3] == DoLoop([Event(5, EPOLLERR)]) && AllStrict(ss, acts)
  {
    hide Reached, AllStrict;
    ss, acts := HandOver(5);
    ss, acts := Then(ss, acts, HandedOver(5), Hears(EPOLLERR));
  }

  /** epoll reports the error again, since nobody has taken note of it; now the queue is empty, and the
      loop dereferences NULL. */
  lemma {:induction false} NobodyWaitsExample() returns (ss: seq<State>, acts: seq<Action>)
    ensures Run(ss, acts) && ss[0] == Init() && AllStrict(ss, acts)
    ensures Ready(ss[|acts|], DoLoop([Event(5, EPOLLERR)]))
    ensures Step(ss[|acts|], DoLoop([Event(5, EPOLLERR)])) == Fault(NullDereference)
  {
    hide Reached, AllStrict;
    ss, acts := LostScene();
    var v := After(HandedOver(5), Hears(EPOLLERR));
    ss, acts := Then(ss, acts, v, Goes(1));
    FindsNobody(ss, acts, After(v, Goes(1)), 5, EPOLLERR);
  }

  lemma {:induction false} FindsNobody(ss: seq<State>, acts: seq<Action>, v: Scene, f: int, bits: bv32)
    requires Reached(ss, acts, v) && HasTask(v, v.current) && v.running && v.queue == [] && 0 <= f < MAX_FD
    requires Actor(v).pc == User || Actor(v).pc == InLoop
    ensures Run(ss, acts) && ss[0] == Init() && Ready(ss[|acts|], DoLoop([Event(f, bits)]))
    ensures Step(ss[|acts|], DoLoop([Event(f, bits)])) == Fault(NullDereference)
  {
    hide Run, Init, Inv;
    var evs := [Event(f, bits)];
    LastKeeps(ss, acts);
    assert evs[..0] == [] && Events(ss[|acts|], []) == Next(ss[|acts|]);
  }

  /** A first use for writing: epoll is asked for EPOLLOUT, the task records EPOLLIN. */
  lemma {:induction false} FirstWriteExample()
    ensures Agree(Init()) && Ready(Init(), DoBlock(5, EPOLLOUT)) && Block(Init(), 5, EPOLLOUT).Next?
    ensures !Agree(Block(Init(), 5, EPOLLOUT).state)
  {
    hide Agree;
    InitAgrees();
    NewcomerAsks(Init(), 5, EPOLLOUT);
  }

  /** A coroutine whose only call was refused finishes: its entry was never queued. */
  lemma {:induction false} NeverQueuedExample() returns (ss: seq<State>, acts: seq<Action>)
    ensures Run(ss, acts) && ss[0] == Init()
    ensures Ready(ss[|acts|], DoFinish) && Step(ss[|acts|], DoFinish) == Fault(NullDereference)
  {
    ss, acts := HandOver(5);
    ss, acts := Then(ss, acts, HandedOver(5), Asks(5));
    LastKeeps(ss, acts);
  }

  // ---------------------------------------------------------------- two descriptors

  /** Main runs the event loop, the coroutine in slot 1 executes, and nobody waits. */
  predicate Serving(v: Scene) {
    && HasTask(v, 0) && TaskIn(v, 0).pc == InLoop && TaskIn(v, 0).status == RUNNING
    && HasTask(v, 1) && TaskIn(v, 1).pc == User && TaskIn(v, 1).status == RUNNING && v.slots[2] == None
    && v.current == 1 && v.running && v.queue == [] && 0 <= v.fd < MAX_FD
  }

  /** A task that has waited once to read from `fd`, alone. */
  function HasRead(t: Task, fd: int): Task
    requires |t.events| == |t.revents| == MAX_FD && 0 <= fd < MAX_FD
  {
    Notified(Queueing(t, fd), Event(fd, EPOLLIN), None).(pc := User)
  }

  lemma {:induction false} HasReadIs(t: Task, fd: int)
    requires |t.events| == |t.revents| == MAX_FD && 0 <= fd < MAX_FD && t.events[fd].fd <= 0
    ensures var r := HasRead(t, fd);
            && r.status == RUNNING && r.fds == t.fds + [fd] && r.entry == Stale(fd, None)
            && r.events == t.events[fd := Interest(fd, EPOLLIN)]
            && |r.revents| == MAX_FD && Meets(r.revents[fd], EPOLLIN)
            && Queueing(t, fd).status == WAIT && Queueing(t, fd).pc == InWait(fd, EPOLLIN)
            && Notified(Queueing(t, fd), Event(fd, EPOLLIN), None).pc == InWait(fd, EPOLLIN)
  {
  }

  /** Such a task, and the loop, take these turns. */
  lemma {:induction false} ReadsOnce(ss: seq<State>, acts: seq<Action>, v: Scene, fd: int)
    returns (ss': seq<State>, acts': seq<Action>, v': Scene)
    requires Reached(ss, acts, v) && AllStrict(ss, acts) && Serving(v) && 0 < fd < MAX_FD && fd !in v.kernel
    requires TaskIn(v, 1).events[fd].fd <= 0 && |TaskIn(v, 1).fds| < MAX_FD
    ensures Reached(ss', acts', v') && AllStrict(ss', acts') && Serving(v')
    ensures TaskIn(v', 1) == HasRead(TaskIn(v, 1), fd) && v'.kernel == v.kernel[fd := EPOLLIN]
  {
    hide Reached, AllStrict, Asked, Notified, Meets;
    HasReadIs(TaskIn(v, 1), fd);
    ss', acts' := Then(ss, acts, v, Reads(fd));
    var v1 := After(v, Reads(fd));
    ss', acts' := Then(ss', acts', v1, Goes(0));
    var v2 := After(v1, Goes(0));
    ss', acts' := Then(ss', acts', v2, Hears(EPOLLIN));
    var v3 := After(v2, Hears(EPOLLIN));
    ss', acts' := Then(ss', acts', v3, Goes(1));
    var v4 := After(v3, Goes(1));
    ss', acts' := Then(ss', acts', v4, Returns);
    v' := After(v4, Returns);
  }

  lemma {:induction false} StartServing() returns (ss: seq<State>, acts: seq<Action>, v: Scene)
    ensures Reached(ss, acts, v) && AllStrict(ss, acts) && Serving(v)
    ensures TaskIn(v, 1) == ZeroTask(1) && v.kernel == map[]
  {
    hide Reached, AllStrict;
    ss, acts := Open();
    ss, acts := Then(ss, acts, Opening(), Creates(1));
    var v1 := After(Opening(), Creates(1));
    ss, acts := Then(ss, acts, v1, Idles);
    var v2 := After(v1, Idles);
    ss, acts := Then(ss, acts, v2, Goes(1));
    v := After(v2, Goes(1));
  }

  /** A disciplined coroutine reads from two descriptors, one after the other, and finishes: the second
      TAILQ_REMOVE writes the queue of the other descriptor into this one. */
  lemma {:induction false} WreckedQueueExample() returns (ss: seq<State>, acts: seq<Action>)
    ensures Run(ss, acts) && ss[0] == Init() && AllStrict(ss, acts)
    ensures Ready(ss[|acts|], DoFinish) && Step(ss[|acts|], DoFinish) == Fault(WreckedQueue)
  {
    var v;
    ss, acts, v := StartServing();
    HasReadIs(ZeroTask(1), 5);
    HasReadIs(HasRead(ZeroTask(1), 5), 6);
    ss, acts, v := ReadsOnce(ss, acts, v, 5);
    ss, acts, v := ReadsOnce(ss, acts, v, 6);
    hide HasRead;
    assert 5 in TaskIn(v, 1).fds;
    LastKeeps(ss, acts);
    TwoIsTooMany(ss[|acts|], v);
  }

  lemma {:induction false} TwoIsTooMany(s: State, v: Scene)
    requires Sized(s) && Shows(s, v) && Serving(v)
    requires TaskIn(v, 1).entry == Stale(6, None) && 5 in TaskIn(v, 1).fds
    ensures Ready(s, DoFinish) && Step(s, DoFinish) == Fault(WreckedQueue)
  {
  }

  // ---------------------------------------------------------------- two joiners

  /** Main and the coroutine in slot 1 have joined the one in slot 2; it has finished, and main's
      co_join has freed it. */
  lemma {:induction false} FirstJoiner() returns (ss: seq<State>, acts: seq<Action>, v: Scene)
    ensures Reached(ss, acts, v) && AllStrict(ss, acts) && AfterJoin(v) && v.slots[2] == None && v.births == 3
  {
    hide Reached, AllStrict;
    ss, acts := Open();
    ss, acts := Then(ss, acts, Opening(), Creates(1));
    var v1 := After(Opening(), Creates(1));
    ss, acts := Then(ss, acts, v1, Creates(2));
    var v2 := After(v1, Creates(2));
    ss, acts := Then(ss, acts, v2, Joins(2));
    var v3 := After(v2, Joins(2));
    ss, acts := Then(ss, acts, v3, Goes(1));
    var v4 := After(v3, Goes(1));
    ss, acts := Then(ss, acts, v4, Joins(2));
    ss, acts, v := JoinedFinishes(ss, acts, After(v4, Joins(2)));
  }

  predicate AfterJoin(v: Scene) {
    && |v.slots| == 3 && v.slots == [Some(ZeroTask(0)), Some(ZeroTask(1).(pc := InJoin(2, 2))), v.slots[2]]
    && v.current == 0 && v.running && 0 <= v.fd < MAX_FD
  }

  lemma {:induction false} JoinedFinishes(ss: seq<State>, acts: seq<Action>, v: Scene)
    returns (ss': seq<State>, acts': seq<Action>, v': Scene)
    requires Reached(ss, acts, v) && AllStrict(ss, acts)
    requires v.births == 3 && v.current == 1 && !v.running && 0 <= v.fd < MAX_FD
    requires v.slots == [Some(ZeroTask(0).(pc := InJoin(2, 2))), Some(ZeroTask(1).(pc := InJoin(2, 2))),
                         Some(ZeroTask(2))]
    ensures Reached(ss', acts', v') && AllStrict(ss', acts') && AfterJoin(v') && v'.slots[2] == None && v'.births == 3
  {
    hide Reached, AllStrict;
    ss', acts' := Then(ss, acts, v, Goes(2));
    var v1 := After(v, Goes(2));
    ss', acts' := Then(ss', acts', v1, Finishes);
    var v2 := After(v1, Finishes);
    ss', acts' := Then(ss', acts', v2, Goes(0));
    var v3 := After(v2, Goes(0));
    ss', acts' := Then(ss', acts', v3, Reaps(2));
    v' := After(v3, Reaps(2));
  }

  /** The second joiner finds the slot empty, and dereferences NULL. */
  lemma {:induction false} SecondJoinerExample() returns (ss: seq<State>, acts: seq<Action>)
    ensures Run(ss, acts) && ss[0] == Init() && AllStrict(ss, acts)
    ensures Ready(ss[|acts|], DoResume) && Cur(ss[|acts|]).pc == InJoin(2, 2)
    ensures Step(ss[|acts|], DoResume) == Fault(NullDereference)
  {
    var v;
    ss, acts, v := FirstJoiner();
    ss, acts := Then(ss, acts, v, Idles);
    var v1 := After(v, Idles);
    ss, acts := Then(ss, acts, v1, Goes(1));
    LastKeeps(ss, acts);
  }

  /** Or, if main has created another coroutine meanwhile, it waits for that one, and frees it. */
  lemma {:induction false} StrangerFreedExample() returns (ss: seq<State>, acts: seq<Action>)
    ensures Run(ss, acts) && ss[0] == Init() && AllStrict(ss, acts)
    ensures var s := ss[|acts|];
            && Ready(s, DoResume) && Cur(s).pc == InJoin(2, 2) && Live(s, 2) && Get(s, 2).serial == 3
            && Frees(s, DoResume, 2)
  {
    var v;
    ss, acts, v := StrangerJoined();
    LastKeeps(ss, acts);
    FreesStranger(ss[|acts|], v);
  }

  predicate JoinsStranger(v: Scene) {
    && HasTask(v, 1) && HasTask(v, 2) && v.current == 1 && v.running
    && TaskIn(v, 1).pc == InJoin(2, 2) && TaskIn(v, 2).serial == 3 && TaskIn(v, 2).status == EXIT
  }

  lemma FreesStranger(s: State, v: Scene)
    requires Sized(s) && Shows(s, v) && JoinsStranger(v)
    ensures Ready(s, DoResume) && Cur(s).pc == InJoin(2, 2) && Live(s, 2) && Get(s, 2).serial == 3
    ensures Frees(s, DoResume, 2)
  {
  }

  lemma {:induction false} StrangerJoined() returns (ss: seq<State>, acts: seq<Action>, v: Scene)
    ensures Reached(ss, acts, v) && AllStrict(ss, acts) && JoinsStranger(v)
  {
    hide Reached, AllStrict;
    ss, acts, v := FirstJoiner();
    ss, acts := Then(ss, acts, v, Creates(2));
    var v1 := After(v, Creates(2));
    ss, acts := Then(ss, acts, v1, Idles);
    var v2 := After(v1, Idles);
    ss, acts := Then(ss, acts, v2, Goes(1));
    ss, acts, v := StrangerFinishes(ss, acts, After(v2, Goes(1)));
  }

  lemma {:induction false} StrangerFinishes(ss: seq<State>, acts: seq<Action>, v: Scene)
    returns (ss': seq<State>, acts': seq<Action>, v': Scene)
    requires Reached(ss, acts, v) && AllStrict(ss, acts) && v.current == 1 && v.running && 0 <= v.fd < MAX_FD
    requires v.slots == [Some(ZeroTask(0).(pc := InLoop)), Some(ZeroTask(1).(pc := InJoin(2, 2))), Some(ZeroTask(3))]
    ensures Reached(ss', acts', v') && AllStrict(ss', acts') && JoinsStranger(v')
  {
    hide Reached, AllStrict;
    ss', acts' := Then(ss, acts, v, Joins(2));
    var v1 := After(v, Joins(2));
    ss', acts' := Then(ss', acts', v1, Goes(2));
    var v2 := After(v1, Goes(2));
    ss', acts' := Then(ss', acts', v2, Finishes);
    var v3 := After(v2, Finishes);
    ss', acts' := Then(ss', acts', v3, Goes(0));
    var v4 := After(v3, Goes(0));
    ss', acts' := Then(ss', acts', v4, Idles);
    var v5 := After(v4, Idles);
    ss', acts' := Then(ss', acts', v5, Goes(1));
    v' := After(v5, Goes(1));
  }

  // ---------------------------------------------------------------- a shared descriptor

  /** Two coroutines read from descriptor 5, the second one on a second try.  Both are served; the first
      then joins the second.  When that one finishes, the interest in 5 is deleted for both. */
  lemma {:induction false} SharedEntryExample() returns (ss: seq<State>, acts: seq<Action>)
    ensures Run(ss, acts) && ss[0] == Init()
    ensures var s := ss[|acts|];
            && Ready(s, DoFinish) && OwnedBy(s, 5, 1) && 5 in s.kernel && Finish(s).Next?
            && OwnedBy(Finish(s).state, 5, 1) && 5 !in Finish(s).state.kernel
  {
    var v;
    ss, acts, v := BothQueued();
    ss, acts, v := BothServed(ss, acts, v);
    LastKeeps(ss, acts);
    TakesTheEntry(ss[|acts|], v);
  }

  function FirstReader(): Task {
    Queueing(ZeroTask(1), 5)
  }

  function SecondReader(): Task {
    Queueing(Asked(ZeroTask(2), 5, EPOLLIN), 5)
  }

  predicate BothWait(v: Scene) {
    && HasTask(v, 0) && TaskIn(v, 0).pc == InLoop && TaskIn(v, 0).status == RUNNING
    && v.slots == [v.slots[0], Some(FirstReader()), Some(SecondReader())]
    && v.current == 2 && !v.running && v.fd == 5 && v.queue == [1, 2] && v.kernel == map[5 := EPOLLIN]
  }

  lemma {:induction false} ReadersAre()
    ensures var t := FirstReader();
            t.status == WAIT && t.serial == 1 && |t.events| == |t.revents| == MAX_FD
    ensures var t := SecondReader();
            t.status == WAIT && t.serial == 2 && |t.events| == |t.revents| == MAX_FD
    ensures var a := Asked(ZeroTask(2), 5, EPOLLIN);
            a.pc == User && a.events[5] == Interest(5, EPOLLIN) && a.status == WAIT
  {
  }

  lemma {:induction false} BothQueued() returns (ss: seq<State>, acts: seq<Action>, v: Scene)
    ensures Reached(ss, acts, v) && BothWait(v)
  {
    hide Reached, AllStrict, Asked;
    ReadersAre();
    ss, acts := Open();
    ss, acts := Then(ss, acts, Opening(), Creates(1));
    var v1 := After(Opening(), Creates(1));
    ss, acts := Then(ss, acts, v1, Creates(2));
    var v2 := After(v1, Creates(2));
    ss, acts := Then(ss, acts, v2, Idles);
    var v3 := After(v2, Idles);
    ss, acts := Then(ss, acts, v3, Goes(1));
    ss, acts, v := BothAsk(ss, acts, After(v3, Goes(1)));
  }

  lemma {:induction false} BothAsk(ss: seq<State>, acts: seq<Action>, v: Scene)
    returns (ss': seq<State>, acts': seq<Action>, v': Scene)
    requires Reached(ss, acts, v)
    requires HasTask(v, 0) && TaskIn(v, 0).pc == InLoop && TaskIn(v, 0).status == RUNNING
    requires v.slots == [v.slots[0], Some(ZeroTask(1)), Some(ZeroTask(2))]
    requires v.current == 1 && v.running && 0 <= v.fd < MAX_FD && v.queue == [] && v.kernel == map[]
    ensures Reached(ss', acts', v') && BothWait(v')
  {
    hide Reached, AllStrict, Asked;
    ReadersAre();
    ss', acts' := Then(ss, acts, v, Reads(5));
    var v1 := After(v, Reads(5));
    ss', acts' := Then(ss', acts', v1, Goes(2));
    var v2 := After(v1, Goes(2));
    ss', acts' := Then(ss', acts', v2, Asks(5));
    var v3 := After(v2, Asks(5));
    ss', acts' := Then(ss', acts', v3, ReadsAgain(5));
    v' := After(v3, ReadsAgain(5));
  }

  function FirstServed(): Task {
    Notified(FirstReader(), Event(5, EPOLLIN), Some(2))
  }

  function SecondServed(): Task {
    Notified(SecondReader(), Event(5, EPOLLIN), None)
  }

  lemma {:induction false} ServedAre()
    ensures var t := FirstServed();
            && t.status == RUNNING && t.pc == InWait(5, EPOLLIN) && Meets(t.revents[5], EPOLLIN)
            && t.events[5] == Interest(5, EPOLLIN) && |t.events| == |t.revents| == MAX_FD
    ensures var t := SecondServed();
            && t.status == RUNNING && t.pc == InWait(5, EPOLLIN) && Meets(t.revents[5], EPOLLIN)
            && t.fds == [5] && t.entry == Stale(5, None) && t.serial == 2 && |t.events| == |t.revents| == MAX_FD
  {
  }

  predicate AboutToFinish(v: Scene) {
    && HasTask(v, 0) && HasTask(v, 1) && HasTask(v, 2)
    && TaskIn(v, 1) == FirstServed().(pc := InJoin(2, 2)) && TaskIn(v, 2) == SecondServed().(pc := User)
    && v.current == 2 && v.running && v.queue == [] && v.kernel == map[5 := EPOLLIN]
  }

  lemma {:induction false} BothServed(ss: seq<State>, acts: seq<Action>, v: Scene)
    returns (ss': seq<State>, acts': seq<Action>, v': Scene)
    requires Reached(ss, acts, v) && BothWait(v)
    ensures Reached(ss', acts', v') && AboutToFinish(v')
  {
    hide Reached, AllStrict, Asked, Notified, Meets, Queueing;
    ReadersAre();
    ServedAre();
    ss', acts' := Then(ss, acts, v, Goes(0));
    var v1 := After(v, Goes(0));
    ss', acts' := Then(ss', acts', v1, Hears(EPOLLIN));
    var v2 := After(v1, Hears(EPOLLIN));
    ss', acts' := Then(ss', acts', v2, Goes(1));
    var v3 := After(v2, Goes(1));
    ss', acts' := Then(ss', acts', v3, Returns);
    var v4 := After(v3, Returns);
    ss', acts' := Then(ss', acts', v4, Joins(2));
    ss', acts', v' := SecondIsServed(ss', acts', After(v4, Joins(2)));
  }

  lemma {:induction false} SecondIsServed(ss: seq<State>, acts: seq<Action>, v: Scene)
    returns (ss': seq<State>, acts': seq<Action>, v': Scene)
    requires Reached(ss, acts, v)
    requires HasTask(v, 0) && TaskIn(v, 0).pc == InLoop && TaskIn(v, 0).status == RUNNING
    requires v.slots == [v.slots[0], Some(FirstServed().(pc := InJoin(2, 2))), Some(SecondReader())]
    requires v.current == 1 && !v.running && v.fd == 5 && v.queue == [2] && v.kernel == map[5 := EPOLLIN]
    ensures Reached(ss', acts', v') && AboutToFinish(v')
  {
    hide Reached, AllStrict, Asked, Notified, Meets, Queueing;
    ReadersAre();
    ServedAre();
    ss', acts' := Then(ss, acts, v, Goes(0));
    var v1 := After(v, Goes(0));
    ss', acts' := Then(ss', acts', v1, Hears(EPOLLIN));
    var v2 := After(v1, Hears(EPOLLIN));
    ss', acts' := Then(ss', acts', v2, Goes(1));
    var v3 := After(v2, Goes(1));
    ss', acts' := Then(ss', acts', v3, Joins(2));
    var v4 := After(v3, Joins(2));
    ss', acts' := Then(ss', acts', v4, Goes(2));
    var v5 := After(v4, Goes(2));
    ss', acts' := Then(ss', acts', v5, Returns);
    v' := After(v5, Returns);
  }

  lemma {:induction false} TakesTheEntry(s: State, v: Scene)
    requires Inv(s) && Sized(s) && Shows(s, v) && AboutToFinish(v)
    ensures Ready(s, DoFinish) && OwnedBy(s, 5, 1) && 5 in s.kernel && Finish(s).Next?
    ensures OwnedBy(Finish(s).state, 5, 1) && 5 !in Finish(s).state.kernel
  {
    hide Inv, FirstServed, SecondServed;
    ServedAre();
    assert [5][0] == 5;
  }

  // ---------------------------------------------------------------- runs told by their effects

  lemma {:induction false} Go(ss: seq<State>, acts: seq<Action>, a: Action)
    returns (ss': seq<State>, acts': seq<Action>)
    requires Run(ss, acts) && Ready(ss[|acts|], a) && Step(ss[|acts|], a).Next?
    ensures |ss| == |acts| + 1 && ss' == ss + [Step(ss[|acts|], a).state] && acts' == acts + [a] && Run(ss', acts')
    ensures |ss'| == |acts'| + 1 && Inv(ss'[|acts'|])
  {
    hide Step, Ready, Inv;
    RunAppend(ss, acts, a);
    ss', acts' := ss + [Step(ss[|acts|], a).state], acts + [a];
    LastKeeps(ss', acts');
  }

  function Readings(now: int): seq<int> {
    seq(NR_TASKS, _ => now)
  }

  /** Main sleeps for a second, alone: a reading of 1000 does not wake it, one of 1001 does, and it returns. */
  lemma {:induction false} SleepExample() returns (ss: seq<State>, acts: seq<Action>)
    ensures Run(ss, acts) && ss[0] == Init()
    ensures acts == [DoSleep(0, 1), DoDispatch([Readings(1000), Readings(1001)]), DoResume]
    ensures |ss| == 4 && Live(ss[3], 0) && ss[3].current == 0 && ss[3].running && Cur(ss[3]).pc == User
  {
    hide Step, Ready, Inv, Run;
    StartEffect();
    InvInit();
    RunStarts(Init());
    ss, acts := [Init()], [];
    var sweeps := [Readings(1000), Readings(1001)];
    CanSleep(Init());
    SleepEffect(Init(), 0, 1);
    ss, acts := Go(ss, acts, DoSleep(0, 1));
    WakesUp(ss[1], sweeps);
    ss, acts := Go(ss, acts, DoDispatch(sweeps));
    WhatCanCome(ss[2], []);
    SleepReturns(ss[2]);
    ss, acts := Go(ss, acts, DoResume);
  }

  lemma CanSleep(s: State)
    requires Inv(s) && s.running && Live(s, s.current) && Cur(s).pc == User
    ensures Ready(s, DoSleep(0, 1))
  {
  }

  lemma {:induction false} WakesUp(s: State, sweeps: seq<seq<int>>)
    requires Inv(s) && !s.running && s.current == 0 && |s.tasks| == NR_TASKS && s.tasks[0].Some?
    requires s.tasks[0].value.status == SLEEP && s.tasks[0].value.wakeuptime == 1000
    requires forall i :: 0 < i < NR_TASKS ==> s.tasks[i].None?
    requires sweeps == [Readings(1000), Readings(1001)]
    ensures Ready(s, DoDispatch(sweeps)) && Step(s, DoDispatch(sweeps)).Next?
    ensures var s' := Step(s, DoDispatch(sweeps)).state;
            s'.running && s'.current == 0 && Live(s', 0) && Get(s', 0) == Get(s, 0).(status := RUNNING)
  {
    hide Inv, Sweeps, Step, Scan;
    Scheduler.SweepsWake(s.tasks, sweeps);
    Scheduler.SweepsWake(s.tasks, sweeps[..1]);
    var once, twice := Sweeps(s.tasks, sweeps[..1]), Sweeps(s.tasks, sweeps);
    forall i | 0 <= i < NR_TASKS
      ensures !IsRunning(once, i) && (i > 0 ==> !IsRunning(twice, i))
    {
      assert Scheduler.WokenBy(s.tasks[i], once[i], sweeps[..1], i);
      assert Scheduler.WokenBy(s.tasks[i], twice[i], sweeps, i);
    }
    assert Scheduler.WokenBy(s.tasks[0], twice[0], sweeps, 0) && sweeps[1][0] == 1001;
    assert IsRunning(twice, 0);
    var d := DispatchEffect(s, sweeps);
    assert Passed(s.tasks[0], sweeps, 0);
  }

  /** The first call on descriptor 5 is a co_write; epoll reports that it can write, and it is lost. */
  lemma {:induction false} FirstWriteLostExample() returns (ss: seq<State>, acts: seq<Action>)
    ensures Run(ss, acts) && ss[0] == Init() && |ss| == 5
    ensures acts == [DoCreate, DoBlock(5, EPOLLOUT), DoDispatch([Readings(0)]), DoLoop([Event(5, EPOLLOUT)])]
    ensures Live(ss[4], 0) && Lost(Get(ss[4], 0))
  {
    hide Step, Ready, Inv, Run;
    StartEffect();
    InvInit();
    RunStarts(Init());
    ss, acts := [Init()], [];
    WhatCanCome(Init(), []);
    CreateEffect(Init(), 1);
    ss, acts := Go(ss, acts, DoCreate);
    WhatCanCome(ss[1], []);
    FirstCallEffect(ss[1], 5, EPOLLOUT);
    ss, acts := Go(ss, acts, DoBlock(5, EPOLLOUT));
    OnlyOther(ss[2]);
    ss, acts := Go(ss, acts, DoDispatch([Readings(0)]));
    WhatCanCome(ss[3], [Event(5, EPOLLOUT)]);
    WhatCanCome(ss[3], []);
    IdleEffect(ss[3]);
    assert [] + [Event(5, EPOLLOUT)] == [Event(5, EPOLLOUT)];
    EventEffect(ss[3], [], Event(5, EPOLLOUT));
    ss, acts := Go(ss, acts, DoLoop([Event(5, EPOLLOUT)]));
    Calls.FirstWriteIsLost(ss, acts, 1, 3);
  }

  lemma {:induction false} OnlyOther(s: State)
    requires Inv(s) && !s.running && s.current == 0 && |s.tasks| == NR_TASKS && s.tasks[0].Some? && s.tasks[1].Some?
    requires s.tasks[0].value.status == WAIT && s.tasks[1].value.status == RUNNING
    requires forall i :: 1 < i < NR_TASKS ==> s.tasks[i].None?
    ensures Ready(s, DoDispatch([Readings(0)])) && Step(s, DoDispatch([Readings(0)])).Next?
    ensures Step(s, DoDispatch([Readings(0)])).state == s.(current := 1, running := true)
  {
    hide Inv, Sweeps, Step, Scan, AnyRunning;
    InvSized(s);
    assert IsRunning(s.tasks, 1);
    Scheduler.OneSweepSuffices(s.tasks, Readings(0));
    var d := DispatchEffect(s, [Readings(0)]);
    var s' := Step(s, DoDispatch([Readings(0)])).state;
    assert s'.tasks == s.tasks;
    assert Later(0, 1) == 1;
  }
}
