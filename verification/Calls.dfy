/** Calls over whole runs, from the step that suspends the caller to the one that resumes it. */
module Calls {
  import opened Runtime
  import opened Invariants
  import opened Runs
  import opened Waiters
  import opened Effects

  /** Task i does not execute at the states from `from` to `n`. */
  ghost predicate Away(ss: seq<State>, i: int, from: nat, n: nat) {
    forall k :: from <= k <= n && k < |ss| ==> !(ss[k].running && ss[k].current == i)
  }

  // ---------------------------------------------------------------- co_sleep

  /** A suspended co_sleep: only the status may have changed since the call. */
  ghost predicate Dozes(s: State, i: int, t: Task, now: int, seconds: int) {
    && Live(s, i) && Get(s, i) == t.(status := Get(s, i).status, pc := InSleep(now + 1000 * seconds),
                                     wakeuptime := (now + 1000 * seconds) % 0x1_0000_0000)
    && t.entry != Queued && (Get(s, i).status == SLEEP || Get(s, i).status == RUNNING)
  }

  lemma {:induction false} FallsToDoze(s: State, now: int, seconds: int)
    requires Inv(s) && Ready(s, DoSleep(now, seconds))
    ensures Step(s, DoSleep(now, seconds)).Next?
    ensures Live(s, s.current) && Dozes(Step(s, DoSleep(now, seconds)).state, s.current, Cur(s), now, seconds)
  {
    CallerIsFree(s);
    hide Inv, Step, Ready;
    SleepEffect(s, now, seconds);
  }

  lemma CallerIsFree(s: State)
    requires Inv(s) && s.running
    ensures Live(s, s.current) && Cur(s).entry != Queued
  {
  }

  lemma {:induction false} DozesOn(s: State, a: Action, i: int, t: Task, now: int, seconds: int)
    requires Inv(s) && Ready(s, a) && Step(s, a).Next? && Dozes(s, i, t, now, seconds) && !(s.running && s.current == i)
    ensures Dozes(Step(s, a).state, i, t, now, seconds)
  {
    hide Inv, Step, Ready;
    OthersArePassive(s, a, i);
  }

  lemma {:induction false} DozesAlong(ss: seq<State>, acts: seq<Action>, i: int, from: nat, n: nat)
    requires Run(ss, acts) && from < n < |ss| && acts[from].DoSleep?
    requires ss[from].current == i && Away(ss, i, from + 1, n - 1)
    ensures Live(ss[from], i) && Dozes(ss[n], i, Get(ss[from], i), acts[from].now, acts[from].seconds)
  {
    hide Step, Ready, Inv, Dozes;
    RunKeeps(ss, acts, n - 1);
    assert Ready(ss[n - 1], acts[n - 1]) && Step(ss[n - 1], acts[n - 1]) == Next(ss[n]);
    if from + 1 == n {
      FallsToDoze(ss[from], acts[from].now, acts[from].seconds);
    } else {
      DozesAlong(ss, acts, i, from, n - 1);
      DozesOn(ss[n - 1], acts[n - 1], i, Get(ss[from], i), acts[from].now, acts[from].seconds);
    }
  }

  /** co_sleep is over the first time its caller executes again, and all it has done to the caller is to
      set the deadline: nothing else of the task block differs from what it was at the call. */
  lemma {:induction false} SleepIsOver(ss: seq<State>, acts: seq<Action>, from: nat, n: nat)
    requires Run(ss, acts) && from < n < |acts| && acts[from].DoSleep?
    requires ss[n].running && ss[n].current == ss[from].current && Away(ss, ss[from].current, from + 1, n - 1)
    ensures acts[n] == DoResume && ss[n + 1].running && ss[n + 1].current == ss[from].current
    ensures Live(ss[from], ss[from].current) && Live(ss[n + 1], ss[from].current)
    ensures Cur(ss[n + 1]) == Cur(ss[from]).(status := RUNNING, pc := User,
                                wakeuptime := (acts[from].now + 1000 * acts[from].seconds) % 0x1_0000_0000)
  {
    hide Step, Ready, Inv;
    DozesAlong(ss, acts, ss[from].current, from, n);
    RunKeeps(ss, acts, n);
    assert Ready(ss[n], acts[n]) && Step(ss[n], acts[n]) == Next(ss[n + 1]);
    ModeKept(ss[n]);
    WasInUser(ss, acts, from);
    WhatComesNext(ss[n], acts[n]);
    SleepReturns(ss[n]);
  }

  lemma {:induction false} WasInUser(ss: seq<State>, acts: seq<Action>, k: nat)
    requires Run(ss, acts) && k < |acts| && acts[k].DoSleep?
    ensures Live(ss[k], ss[k].current) && Cur(ss[k]).pc == User
  {
    hide Step, Inv;
    RunKeeps(ss, acts, k);
    InvSized(ss[k]);
    assert Ready(ss[k], acts[k]);
  }

  // ---------------------------------------------------------------- the blocking calls

  /** What a batch does to a waiter: nothing, or one of its events takes it. */
  ghost predicate LeftOrTaken(t: Task, evs: seq<Event>, t': Task) {
    t.pc.InWait? && (t' == t || exists k :: 0 <= k < |evs| && TakenBy(t, evs[k], t'))
  }

  ghost predicate TakenBy(t: Task, ev: Event, t': Task) {
    t.pc.InWait? && ev.fd == t.pc.fd && Told(t, ev, t') && t'.entry.Stale?
  }

  lemma {:induction false} EventTakesOrNot(s: State, ev: Event, i: int)
    requires Inv(s) && s.running && 0 <= ev.fd < MAX_FD && EventStep(s, ev).Next?
    requires Live(s, i) && Get(s, i).entry == Queued
    ensures var s' := EventStep(s, ev).state;
            Live(s', i) && Get(s, i).pc.InWait? && (Get(s', i) == Get(s, i) || TakenBy(Get(s, i), ev, Get(s', i)))
  {
    hide Notified, Registered, Told;
    var q := s.queues[ev.fd];
    assert WaitsAt(s.tasks[q[0]].value, ev.fd);
    NotifiedIsTold(Get(s, q[0]), ev, Second(s, ev.fd));
  }

  lemma {:induction false} StaleStays(s: State, ev: Event, i: int)
    requires Inv(s) && s.running && 0 <= ev.fd < MAX_FD && EventStep(s, ev).Next?
    requires Live(s, i) && Get(s, i).entry != Queued
    ensures EventStep(s, ev).state.tasks[i] == s.tasks[i]
  {
    var q := s.queues[ev.fd];
    assert WaitsAt(s.tasks[q[0]].value, ev.fd);
  }

  lemma {:induction false} BatchTakesOrNot(s: State, evs: seq<Event>, i: int)
    requires Inv(s) && s.running && InRange(evs) && Events(s, evs).Next? && Live(s, i) && Get(s, i).entry == Queued
    ensures var s' := Events(s, evs).state; Live(s', i) && LeftOrTaken(Get(s, i), evs, Get(s', i))
  {
    hide Inv, EventStep, TakenBy;
    if |evs| == 0 {
      EntryIsWaiting(s, i);
    } else {
      var earlier, ev := evs[..|evs| - 1], evs[|evs| - 1];
      BatchTakesOrNot(s, earlier, i);
      InvSized(s);
      EventsKeep(s, earlier);
      var s1 := Events(s, earlier).state;
      if Get(s1, i) == Get(s, i) {
        EventTakesOrNot(s1, ev, i);
      } else {
        var k :| 0 <= k < |earlier| && TakenBy(Get(s, i), earlier[k], Get(s1, i));
        TakenIsStale(Get(s, i), earlier[k], Get(s1, i));
        StaleStays(s1, ev, i);
        assert evs[k] == earlier[k];
      }
    }
  }

  lemma TakenIsStale(t: Task, ev: Event, t': Task)
    requires TakenBy(t, ev, t')
    ensures t'.entry.Stale?
  {
  }

  lemma EntryIsWaiting(s: State, i: int)
    requires Inv(s) && Live(s, i) && Get(s, i).entry == Queued
    ensures Get(s, i).pc.InWait? && Get(s, i).status == WAIT && !(s.running && s.current == i)
  {
    var f := Get(s, i).pc.fd;
    var k :| 0 <= k < |s.queues[f]| && s.queues[f][k] == i;
    assert WaitsAt(s.tasks[s.queues[f][k]].value, f);
  }

  /** A step of others leaves a waiter in its queue as it is, or takes it by an event. */
  lemma {:induction false} WaiterStep(s: State, a: Action, i: int)
    requires Inv(s) && Ready(s, a) && Step(s, a).Next? && Live(s, i) && Get(s, i).entry == Queued
    ensures var s' := Step(s, a).state;
            && Live(s', i) && Get(s, i).pc.InWait?
            && LeftOrTaken(Get(s, i), if a.DoLoop? then a.evs else [], Get(s', i))
  {
    hide TaskOK, QueuesOK, SerialsOK, Block, JoinTest, Events, Resume, Sweeps, Inv, TakenBy;
    InvSized(s);
    EntryIsWaiting(s, i);
    match a {
      case DoLoop(evs) =>
        BatchTakesOrNot(s, evs, i);
      case DoDispatch(sweeps) =>
        Scheduler.SweepsWake(s.tasks, sweeps);
        assert Scheduler.WokenBy(s.tasks[i], Dispatch(s, sweeps).tasks[i], sweeps, i);
      case DoBlock(fd, bit) =>
        BlockForm(s, fd, bit);
      case DoJoin(cid) =>
        JoinTestFreesOnly(s, cid, Get(s, cid).serial, i);
      case DoResume =>
        ResumeFreesOnly(s, i);
      case _ =>
    }
  }

  /** Since step `from`: still waiting, or taken by event j of step k and not touched again. */
  ghost predicate Heard(acts: seq<Action>, from: nat, n: nat, t: Task, t': Task) {
    t' == t || exists k, j :: TakenAt(acts, from, n, t, t', k, j)
  }

  ghost predicate TakenAt(acts: seq<Action>, from: nat, n: nat, t: Task, t': Task, k: int, j: int) {
    from <= k < n && k < |acts| && acts[k].DoLoop? && 0 <= j < |acts[k].evs| && TakenBy(t, acts[k].evs[j], t')
  }

  lemma {:induction false} TakenStays(s: State, a: Action, i: int, t: Task, ev: Event)
    requires Inv(s) && Ready(s, a) && Step(s, a).Next? && Live(s, i) && !(s.running && s.current == i)
    requires t.status == WAIT && TakenBy(t, ev, Get(s, i))
    ensures Live(Step(s, a).state, i) && Get(Step(s, a).state, i) == Get(s, i)
  {
    hide Inv, Step, Ready;
    OthersArePassive(s, a, i);
  }

  lemma {:induction false} HeardAlong(ss: seq<State>, acts: seq<Action>, i: int, from: nat, n: nat)
    requires Run(ss, acts) && from <= n < |ss| && Live(ss[from], i) && Get(ss[from], i).entry == Queued
    requires forall k :: from <= k < n ==> !(ss[k].running && ss[k].current == i)
    ensures Live(ss[n], i) && Get(ss[from], i).status == WAIT && Heard(acts, from, n, Get(ss[from], i), Get(ss[n], i))
  {
    hide Step, Ready, Inv, TakenBy;
    RunKeeps(ss, acts, n);
    if from == n {
      EntryIsWaiting(ss[n], i);
    } else {
      HeardAlong(ss, acts, i, from, n - 1);
      RunKeeps(ss, acts, n - 1);
      assert Ready(ss[n - 1], acts[n - 1]) && Step(ss[n - 1], acts[n - 1]) == Next(ss[n]);
      var t, a := Get(ss[from], i), acts[n - 1];
      if Get(ss[n - 1], i) == t {
        WaiterStep(ss[n - 1], a, i);
        if Get(ss[n], i) != t {
          var j :| 0 <= j < |a.evs| && TakenBy(t, a.evs[j], Get(ss[n], i));
          assert TakenAt(acts, from, n, t, Get(ss[n], i), n - 1, j);
        }
      } else {
        var k, j :| TakenAt(acts, from, n - 1, t, Get(ss[n - 1], i), k, j);
        TakenStays(ss[n - 1], a, i, t, acts[k].evs[j]);
        assert TakenAt(acts, from, n, t, Get(ss[n], i), k, j);
      }
    }
  }

  /** A blocking call whose caller executes again was taken from its queue by an event that met the mask
      recorded at the call.  It then returns if and only if this event carries the bit the call waits for;
      otherwise its caller is lost. */
  lemma {:induction false} BlockingCallReturnsIff(ss: seq<State>, acts: seq<Action>, from: nat, n: nat)
    returns (k: nat, j: nat)
    requires Run(ss, acts) && from < n < |acts| && acts[from].DoBlock? && !ss[from + 1].running
    requires ss[n].running && ss[n].current == ss[from].current && Away(ss, ss[from].current, from + 1, n - 1)
    ensures from < k < n && acts[k].DoLoop? && j < |acts[k].evs| && acts[k].evs[j].fd == acts[from].fd
    ensures var fd, i, ev := acts[from].fd, ss[from].current, acts[k].evs[j];
            && Live(ss[from + 1], i) && 0 <= fd < |Get(ss[from + 1], i).events| && Live(ss[n + 1], i)
            && Meets(Get(ss[from + 1], i).events[fd].mask, ev.events)
            && (Meets(ev.events, acts[from].bit) ==> Get(ss[n + 1], i).pc == User && ss[n + 1].running)
            && (!Meets(ev.events, acts[from].bit) ==> Lost(Get(ss[n + 1], i)) && !ss[n + 1].running)
    ensures acts[n] == DoResume && ss[n + 1].current == ss[from].current
  {
    hide Step, Ready, Inv, TakenAt;
    var fd, bit, i := acts[from].fd, acts[from].bit, ss[from].current;
    RunKeeps(ss, acts, n);
    RunKeeps(ss, acts, from);
    assert Ready(ss[from], acts[from]) && Step(ss[from], acts[from]) == Next(ss[from + 1]);
    assert Ready(ss[n], acts[n]) && Step(ss[n], acts[n]) == Next(ss[n + 1]);
    AcceptedCallQueues(ss[from], fd, bit);
    HeardAlong(ss, acts, i, from + 1, n);
    EntryIsWaiting(ss[from + 1], i);
    k, j := WokenAt(acts, from + 1, n, ss[n], Get(ss[from + 1], i), i, fd, bit);
    WhatComesNext(ss[n], acts[n]);
    ToldResumes(ss[n], fd, bit, acts[k].evs[j].events);
  }

  lemma {:induction false} AcceptedCallQueues(s: State, fd: int, bit: bv32)
    requires Inv(s) && Ready(s, DoBlock(fd, bit)) && Step(s, DoBlock(fd, bit)).Next?
    requires !Step(s, DoBlock(fd, bit)).state.running
    ensures var s' := Step(s, DoBlock(fd, bit)).state;
            && Inv(s') && Live(s', s.current) && s'.current == s.current
            && 0 <= fd < MAX_FD == |Get(s', s.current).events|
            && Get(s', s.current).pc == InWait(fd, bit) && Get(s', s.current).entry == Queued
  {
    StepKeeps(s, DoBlock(fd, bit));
    hide Inv, Step;
    CallEffect(s, fd, bit);
    InvSized(Step(s, DoBlock(fd, bit)).state);
  }

  /** Who executes in a wait loop has been woken. */
  lemma {:induction false} WokenAt(acts: seq<Action>, from: nat, n: nat, s: State, t: Task, i: int, fd: int, bit: bv32)
    returns (k: nat, j: nat)
    requires Inv(s) && s.running && s.current == i && Live(s, i) && Heard(acts, from, n, t, Get(s, i))
    requires t.status == WAIT && t.pc == InWait(fd, bit)
    ensures TakenAt(acts, from, n, t, Get(s, i), k, j) && from <= k < n && k < |acts| && acts[k].DoLoop?
    ensures j < |acts[k].evs| && acts[k].evs[j].fd == fd && Told(t, acts[k].evs[j], Get(s, i))
    ensures Meets(t.events[fd].mask, acts[k].evs[j].events) && Get(s, i).pc == t.pc && Get(s, i).entry != Queued
    ensures |Get(s, i).revents| > fd >= 0 && Get(s, i).revents[fd] == acts[k].evs[j].events
  {
    ModeKept(s);
    hide Inv, Meets;
    k, j :| TakenAt(acts, from, n, t, Get(s, i), k, j);
  }

  lemma {:induction false} ToldResumes(s: State, fd: int, bit: bv32, events: bv32)
    requires Inv(s) && Ready(s, DoResume) && Step(s, DoResume).Next? && Cur(s).pc == InWait(fd, bit)
    requires 0 <= fd < |Cur(s).revents| && Cur(s).revents[fd] == events && Cur(s).entry != Queued
    ensures var s', i := Step(s, DoResume).state, s.current;
            && s'.current == i && Live(s', i)
            && (Meets(events, bit) ==> Get(s', i).pc == User && s'.running)
            && (!Meets(events, bit) ==> Lost(Get(s', i)) && !s'.running)
  {
    BitIsOne(s);
    hide Inv, Step, Ready;
    WaitEffect(s);
  }

  lemma BitIsOne(s: State)
    requires Inv(s)
    ensures Live(s, s.current) && (Cur(s).pc.InWait? ==> Cur(s).pc.bit == EPOLLIN || Cur(s).pc.bit == EPOLLOUT)
  {
    hide QueuesOK, SerialsOK, Registered;
  }

  // ---------------------------------------------------------------- a first co_write

  lemma {:induction false} FirstCallRecords(ss: seq<State>, acts: seq<Action>, from: nat)
    requires Run(ss, acts) && from < |acts| && acts[from].DoBlock?
    requires Live(ss[from], ss[from].current) && 0 <= acts[from].fd < |Cur(ss[from]).events|
    requires Cur(ss[from]).events[acts[from].fd].fd <= 0
    ensures Live(ss[from + 1], ss[from].current) && acts[from].fd < |Get(ss[from + 1], ss[from].current).events|
    ensures Get(ss[from + 1], ss[from].current).events[acts[from].fd] == Interest(acts[from].fd, EPOLLIN)
  {
    hide Step, Ready, Inv;
    RunKeeps(ss, acts, from);
    assert Ready(ss[from], acts[from]) && Step(ss[from], acts[from]) == Next(ss[from + 1]);
    FirstCallEffect(ss[from], acts[from].fd, acts[from].bit);
  }

  /** A co_write that is the first call on its descriptor waits for EPOLLIN and EPOLLOUT in one event. */
  lemma {:induction false} FirstWriteReturnsIff(ss: seq<State>, acts: seq<Action>, from: nat, n: nat)
    returns (k: nat, j: nat)
    requires Run(ss, acts) && from < n < |acts| && acts[from].DoBlock? && !ss[from + 1].running
    requires Live(ss[from], ss[from].current) && 0 <= acts[from].fd < |Cur(ss[from]).events|
    requires Cur(ss[from]).events[acts[from].fd].fd <= 0 && acts[from].bit == EPOLLOUT
    requires ss[n].running && ss[n].current == ss[from].current && Away(ss, ss[from].current, from + 1, n - 1)
    ensures from < k < n && acts[k].DoLoop? && j < |acts[k].evs| && acts[k].evs[j].fd == acts[from].fd
    ensures Meets(EPOLLIN, acts[k].evs[j].events) && Live(ss[n + 1], ss[from].current)
    ensures Meets(acts[k].evs[j].events, EPOLLOUT) <==> Get(ss[n + 1], ss[from].current).pc == User
  {
    hide Step, Ready, Inv, Run, Meets;
    FirstCallRecords(ss, acts, from);
    k, j := BlockingCallReturnsIff(ss, acts, from, n);
  }

  /** So EPOLLOUT, reported alone, takes it from its queue for good. */
  lemma {:induction false} FirstWriteIsLost(ss: seq<State>, acts: seq<Action>, from: nat, n: nat)
    requires Run(ss, acts) && from < n < |acts| && acts[from].DoBlock? && !ss[from + 1].running
    requires Live(ss[from], ss[from].current) && 0 <= acts[from].fd < |Cur(ss[from]).events|
    requires Cur(ss[from]).events[acts[from].fd].fd <= 0 && acts[from].bit == EPOLLOUT
    requires Away(ss, ss[from].current, from + 1, n) && acts[n] == DoLoop([Event(acts[from].fd, EPOLLOUT)])
    requires acts[from].fd < |ss[n].queues| && |ss[n].queues[acts[from].fd]| > 0
    requires ss[n].queues[acts[from].fd][0] == ss[from].current
    ensures Live(ss[n + 1], ss[from].current) && Lost(Get(ss[n + 1], ss[from].current))
  {
    hide Step, Ready, Inv, TakenBy;
    var fd, i := acts[from].fd, ss[from].current;
    RunKeeps(ss, acts, from);
    RunKeeps(ss, acts, n);
    assert Ready(ss[from], acts[from]) && Step(ss[from], acts[from]) == Next(ss[from + 1]);
    assert Ready(ss[n], acts[n]) && Step(ss[n], acts[n]) == Next(ss[n + 1]);
    AcceptedCallQueues(ss[from], fd, EPOLLOUT);
    FirstCallRecords(ss, acts, from);
    HeardAlong(ss, acts, i, from + 1, n);
    FrontIsQueued(ss[n], fd);
    if Get(ss[n], i) != Get(ss[from + 1], i) {
      var k, j :| TakenAt(acts, from + 1, n, Get(ss[from + 1], i), Get(ss[n], i), k, j);
      TakenIsStale(Get(ss[from + 1], i), acts[k].evs[j], Get(ss[n], i));
      assert false;
    }
    NotMet(ss[n], fd, Event(fd, EPOLLOUT));
  }

  lemma FrontIsQueued(s: State, fd: int)
    requires Inv(s) && 0 <= fd < |s.queues| && |s.queues[fd]| > 0
    ensures Live(s, s.queues[fd][0]) && Get(s, s.queues[fd][0]).entry == Queued
    ensures Get(s, s.queues[fd][0]).status == WAIT && Get(s, s.queues[fd][0]).pc.InWait?
  {
    assert WaitsAt(s.tasks[s.queues[fd][0]].value, fd);
  }

  /** An event that does not meet the mask of the first waiter takes it from the queue for good. */
  lemma {:induction false} NotMet(s: State, fd: int, ev: Event)
    requires Inv(s) && 0 <= fd < MAX_FD == |s.queues| && |s.queues[fd]| > 0 && Live(s, s.queues[fd][0]) && ev.fd == fd
    requires fd < |Get(s, s.queues[fd][0]).events| && !Meets(Get(s, s.queues[fd][0]).events[fd].mask, ev.events)
    requires Ready(s, DoLoop([ev])) && Step(s, DoLoop([ev])).Next?
    ensures var s', i := Step(s, DoLoop([ev])).state, s.queues[fd][0];
            Live(s', i) && Lost(Get(s', i)) && Get(s', i).status == WAIT && Get(s', i).revents == Get(s, i).revents
  {
    FrontIsQueued(s, fd);
    EntryIsWaiting(s, s.queues[fd][0]);
    LoopIsReady(s, [ev]);
    hide Inv, Step, Ready, Meets;
    IdleEffect(s);
    assert [] + [ev] == [ev];
    EventEffect(s, [], ev);
  }

  lemma LoopIsReady(s: State, evs: seq<Event>)
    requires Inv(s) && Ready(s, DoLoop(evs))
    ensures s.running && Ready(s, DoLoop([]))
  {
  }
}
