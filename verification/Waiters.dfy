/** The event loop and the waiters: what a batch of events does, in which order waiters leave, and
    exactly when a waiter is lost. */
module Waiters {
  import opened Runtime
  import opened Scheduler
  import opened Invariants
  import opened Runs

  // ---------------------------------------------------------------- a batch of distinct events

  ghost predicate DistinctFds(evs: seq<Event>) {
    forall j, k :: 0 <= j < k < |evs| ==> evs[j].fd != evs[k].fd
  }

  function EventFor(evs: seq<Event>, f: int): Option<Event> {
    if |evs| == 0 then None
    else if evs[|evs| - 1].fd == f then Some(evs[|evs| - 1])
    else EventFor(evs[..|evs| - 1], f)
  }

  lemma {:induction false} NoEventFor(evs: seq<Event>, f: int)
    ensures EventFor(evs, f).None? <==> forall k :: 0 <= k < |evs| ==> evs[k].fd != f
    ensures EventFor(evs, f).Some? ==> EventFor(evs, f).value.fd == f && EventFor(evs, f).value in evs
  {
    if |evs| > 0 {
      NoEventFor(evs[..|evs| - 1], f);
    }
  }

  predicate FirstWaiter(s: State, i: int)
    requires |s.queues| == MAX_FD && 0 <= i < |s.tasks|
  {
    s.tasks[i].Some? && s.tasks[i].value.entry == Queued && s.tasks[i].value.pc.InWait? &&
    var f := s.tasks[i].value.pc.fd;
    0 <= f < MAX_FD && |s.queues[f]| > 0 && s.queues[f][0] == i
  }

  function TaskAfter(s: State, evs: seq<Event>, i: int): Option<Task>
    requires Sized(s) && 0 <= i < NR_TASKS
  {
    if FirstWaiter(s, i) && EventFor(evs, s.tasks[i].value.pc.fd).Some?
    then (var t, f := s.tasks[i].value, s.tasks[i].value.pc.fd;
          var out := t.(entry := Stale(f, if |s.queues[f]| > 1 then Some(Get(s, s.queues[f][1]).serial) else None));
          if !Meets(t.events[f].mask, EventFor(evs, f).value.events) then Some(out)
          else Some(out.(status := RUNNING, revents := t.revents[f := EventFor(evs, f).value.events])))
    else s.tasks[i]
  }

  function QueueAfter(s: State, evs: seq<Event>, f: int): seq<int>
    requires Sized(s) && 0 <= f < MAX_FD
  {
    if EventFor(evs, f).Some? && |s.queues[f]| > 0 then s.queues[f][1..] else s.queues[f]
  }

  ghost predicate BatchEffect(s: State, evs: seq<Event>, s': State)
    requires Sized(s) && Sized(s')
  {
    && s'.(tasks := s.tasks, queues := s.queues) == s
    && (forall f :: 0 <= f < MAX_FD ==> s'.queues[f] == QueueAfter(s, evs, f))
    && (forall i :: 0 <= i < NR_TASKS ==> s'.tasks[i] == TaskAfter(s, evs, i))
  }

  /** A batch of events on distinct descriptors takes exactly the first waiter of each reported
      queue, tells and wakes it if its recorded mask meets the event, and changes nothing else; it
      dereferences NULL if and only if some reported queue is empty. */
  lemma {:induction false} BatchIsExact(s: State, evs: seq<Event>)
    requires Inv(s) && s.running && InRange(evs) && DistinctFds(evs)
    ensures Events(s, evs).Next? <==> forall k :: 0 <= k < |evs| ==> |s.queues[evs[k].fd]| > 0
    ensures Events(s, evs).Next? ==> BatchEffect(s, evs, Events(s, evs).state)
  {
    hide Inv, BatchEffect, EventStep, QueuesOK;
    QueuesPart(s);
    if |evs| > 0 {
      var earlier, ev := evs[..|evs| - 1], evs[|evs| - 1];
      BatchIsExact(s, earlier);
      NoEventFor(earlier, ev.fd);
      if Events(s, earlier).Next? {
        BatchGrows(s, evs, Events(s, earlier).state);
      }
    } else {
      NothingReported(s);
    }
  }

  lemma QueuesPart(s: State)
    requires Inv(s)
    ensures Sized(s) && QueuesOK(s)
  {
  }

  lemma NothingReported(s: State)
    requires Sized(s)
    ensures BatchEffect(s, [], s)
  {
  }

  lemma {:induction false} BatchGrows(s: State, evs: seq<Event>, s1: State)
    requires Sized(s) && QueuesOK(s) && Sized(s1) && |evs| > 0 && InRange(evs)
    requires EventFor(evs[..|evs| - 1], evs[|evs| - 1].fd).None?
    requires BatchEffect(s, evs[..|evs| - 1], s1)
    ensures var ev := evs[|evs| - 1];
            if |s.queues[ev.fd]| == 0 then EventStep(s1, ev).Fault?
            else EventStep(s1, ev).Next? && Sized(EventStep(s1, ev).state)
                 && BatchEffect(s, evs, EventStep(s1, ev).state)
  {
    var earlier, ev := evs[..|evs| - 1], evs[|evs| - 1];
    assert s1.queues[ev.fd] == QueueAfter(s, earlier, ev.fd);
    if |s.queues[ev.fd]| > 0 {
      FrontIsUntouched(s, earlier, ev.fd, s1);
      hide QueuesOK, BatchEffect;
      TakesTheFront(s, evs, s1);
    }
  }

  lemma {:induction false} FrontIsUntouched(s: State, evs: seq<Event>, fd: int, s1: State)
    requires Sized(s) && QueuesOK(s) && Sized(s1) && BatchEffect(s, evs, s1)
    requires 0 <= fd < MAX_FD && EventFor(evs, fd).None? && |s.queues[fd]| > 0
    ensures var q := s.queues[fd];
            && s1.queues[fd] == q && Live(s1, q[0]) && Live(s, q[0]) && Get(s1, q[0]) == Get(s, q[0])
            && Second(s1, fd) == Second(s, fd) && FirstWaiter(s, q[0]) && Get(s, q[0]).pc.fd == fd
  {
    var q := s.queues[fd];
    assert q == QueueAfter(s, evs, fd) == s1.queues[fd];
    assert WaitsAt(Get(s, q[0]), fd);
    assert s1.tasks[q[0]] == TaskAfter(s, evs, q[0]);
    if |q| > 1 {
      assert WaitsAt(Get(s, q[1]), fd);
      assert s1.tasks[q[1]] == TaskAfter(s, evs, q[1]);
    }
  }

  lemma {:induction false} TakesTheFront(s: State, evs: seq<Event>, s1: State)
    requires Sized(s) && Sized(s1) && |evs| > 0 && InRange(evs) && BatchEffect(s, evs[..|evs| - 1], s1)
    requires var fd := evs[|evs| - 1].fd;
             && |s.queues[fd]| > 0 && s1.queues[fd] == s.queues[fd] && var i := s.queues[fd][0];
             && Live(s1, i) && Live(s, i) && Get(s1, i) == Get(s, i)
             && Second(s1, fd) == Second(s, fd) && FirstWaiter(s, i) && Get(s, i).pc.fd == fd
    ensures var ev := evs[|evs| - 1];
            EventStep(s1, ev).Next? && Sized(EventStep(s1, ev).state) && BatchEffect(s, evs, EventStep(s1, ev).state)
  {
    hide Notified, Second, TaskAfter, QueueAfter, EventFor;
    var earlier, ev := evs[..|evs| - 1], evs[|evs| - 1];
    forall i | 0 <= i < NR_TASKS
      ensures EventStep(s1, ev).state.tasks[i] == TaskAfter(s, evs, i)
    {
      assert s1.tasks[i] == TaskAfter(s, earlier, i);
      TaskAfterOneMore(s, evs, i);
    }
    forall f | 0 <= f < MAX_FD
      ensures EventStep(s1, ev).state.queues[f] == QueueAfter(s, evs, f)
    {
      assert s1.queues[f] == QueueAfter(s, earlier, f);
      QueueAfterOneMore(s, evs, f);
    }
  }

  lemma {:induction false} TaskAfterOneMore(s: State, evs: seq<Event>, i: int)
    requires Sized(s) && |evs| > 0 && InRange(evs) && 0 <= i < NR_TASKS
    requires var fd := evs[|evs| - 1].fd;
             |s.queues[fd]| > 0 && Live(s, s.queues[fd][0]) && FirstWaiter(s, s.queues[fd][0])
             && Get(s, s.queues[fd][0]).pc.fd == fd
    ensures var ev := evs[|evs| - 1];
            TaskAfter(s, evs, i) ==
              if i == s.queues[ev.fd][0] then Some(Notified(Get(s, i), ev, Second(s, ev.fd)))
              else TaskAfter(s, evs[..|evs| - 1], i)
  {
    hide Meets;
  }

  lemma {:induction false} QueueAfterOneMore(s: State, evs: seq<Event>, f: int)
    requires Sized(s) && |evs| > 0 && 0 <= f < MAX_FD
    ensures f != evs[|evs| - 1].fd ==> QueueAfter(s, evs, f) == QueueAfter(s, evs[..|evs| - 1], f)
    ensures f == evs[|evs| - 1].fd && |s.queues[f]| > 0 ==> QueueAfter(s, evs, f) == s.queues[f][1..]
  {
  }

  // ---------------------------------------------------------------- first in, first out

  function CountFor(evs: seq<Event>, f: int): nat {
    if |evs| == 0 then 0 else CountFor(evs[..|evs| - 1], f) + (if evs[|evs| - 1].fd == f then 1 else 0)
  }

  /** A batch takes waiters off the front of a queue, one per event on it. */
  lemma {:induction false} EventsTakeTheFront(s: State, evs: seq<Event>, f: int)
    requires Sized(s) && InRange(evs) && 0 <= f < MAX_FD && Events(s, evs).Next?
    ensures CountFor(evs, f) <= |s.queues[f]|
    ensures Events(s, evs).state.queues[f] == s.queues[f][CountFor(evs, f)..]
  {
    if |evs| > 0 {
      var earlier, ev := evs[..|evs| - 1], evs[|evs| - 1];
      EventsTakeTheFront(s, earlier, f);
    }
  }

  /** The waiter a step adds to queue `f`, and the ones it takes. */
  ghost function Arrival(s: State, a: Action, f: int): seq<int>
    requires Sized(s) && Ready(s, a)
  {
    if a.DoBlock? && a.fd == f && AddQueue(s, a.fd, a.bit).Added? then [s.current] else []
  }

  ghost function Departures(s: State, a: Action, f: int): seq<int>
    requires Sized(s) && Ready(s, a) && Step(s, a).Next? && 0 <= f < MAX_FD
  {
    if a.DoLoop? then EventsTakeTheFront(s, a.evs, f); s.queues[f][..CountFor(a.evs, f)] else []
  }

  lemma {:induction false} StepConserves(s: State, a: Action, f: int)
    requires Inv(s) && Ready(s, a) && Step(s, a).Next? && 0 <= f < MAX_FD
    ensures Sized(Step(s, a).state)
    ensures s.queues[f] + Arrival(s, a, f) == Departures(s, a, f) + Step(s, a).state.queues[f]
  {
    hide Inv, TaskOK;
    QueuesPart(s);
    StepKeeps(s, a);
    QueuesPart(Step(s, a).state);
    match a {
      case DoLoop(evs) =>
        LoopConserves(s, evs, f);
      case DoBlock(fd, bit) =>
        BlockConserves(s, fd, bit, f);
      case DoResume =>
        ResumeConserves(s);
      case _ =>
    }
  }

  lemma {:induction false} LoopConserves(s: State, evs: seq<Event>, f: int)
    requires Sized(s) && Ready(s, DoLoop(evs)) && Loop(s, evs).Next? && 0 <= f < MAX_FD
    ensures |Loop(s, evs).state.queues| == MAX_FD
    ensures s.queues[f] == Departures(s, DoLoop(evs), f) + Loop(s, evs).state.queues[f]
  {
    EventsTakeTheFront(s, evs, f);
  }

  lemma {:induction false} BlockConserves(s: State, fd: int, bit: bv32, f: int)
    requires Inv(s) && Ready(s, DoBlock(fd, bit)) && Block(s, fd, bit).Next? && 0 <= f < MAX_FD
    ensures |Block(s, fd, bit).state.queues| == MAX_FD
    ensures Block(s, fd, bit).state.queues[f] == s.queues[f] + Arrival(s, DoBlock(fd, bit), f)
  {
    hide Inv, TaskOK;
    QueuesPart(s);
    AddQueueForm(s, fd, bit);
    if AddQueue(s, fd, bit).Added? {
      AcceptedCallSuspends(s, fd, bit);
    }
  }

  lemma {:induction false} ResumeConserves(s: State)
    requires Sized(s) && Ready(s, DoResume) && Resume(s).Next?
    ensures Resume(s).state.queues == s.queues
  {
  }

  ghost function Arrivals(ss: seq<State>, acts: seq<Action>, f: int, n: nat): seq<int>
    requires Run(ss, acts) && n <= |acts|
  {
    if n == 0 then [] else Arrivals(ss, acts, f, n - 1) + Arrival(ss[n - 1], acts[n - 1], f)
  }

  ghost function AllDepartures(ss: seq<State>, acts: seq<Action>, f: int, n: nat): seq<int>
    requires Run(ss, acts) && n <= |acts| && 0 <= f < MAX_FD
  {
    if n == 0 then [] else AllDepartures(ss, acts, f, n - 1) + Departures(ss[n - 1], acts[n - 1], f)
  }

  /** First in, first out, over any run: those who left queue `f`, in the order they left, followed
      by those still in it, are those who were in it followed by those who joined, in order. */
  lemma {:induction false} FirstInFirstOut(ss: seq<State>, acts: seq<Action>, f: int, n: nat)
    requires Run(ss, acts) && n <= |acts| && 0 <= f < MAX_FD
    ensures ss[0].queues[f] + Arrivals(ss, acts, f, n) == AllDepartures(ss, acts, f, n) + ss[n].queues[f]
  {
    hide Step, Ready, Inv, Arrival, Departures;
    if n > 0 {
      RunKeeps(ss, acts, n);
      FirstInFirstOut(ss, acts, f, n - 1);
      StepConserves(ss[n - 1], acts[n - 1], f);
      var q, came, left := ss[0].queues[f], Arrivals(ss, acts, f, n - 1), AllDepartures(ss, acts, f, n - 1);
      var arrival, departures := Arrival(ss[n - 1], acts[n - 1], f), Departures(ss[n - 1], acts[n - 1], f);
      calc {
        q + (came + arrival);
        (q + came) + arrival;
        left + (ss[n - 1].queues[f] + arrival);
        left + (departures + ss[n].queues[f]);
        (left + departures) + ss[n].queues[f];
      }
    }
  }

  // ---------------------------------------------------------------- lost waiters

  /** No suspended task is stuck: whoever has status WAIT stands in a queue, and whoever was woken
      in a wait loop was told the event it waits for. */
  ghost predicate Reachable(t: Task) {
    && (t.pc != User && t.status == WAIT ==> t.entry == Queued)
    && (t.pc.InWait? && t.entry != Queued && 0 <= t.pc.fd < |t.revents| ==> Meets(t.revents[t.pc.fd], t.pc.bit))
  }

  /** Who is not reachable is lost already, or will be when it looks at its revents. */
  lemma UnreachableIff(t: Task)
    requires TaskOK(t)
    ensures !Reachable(t) <==> Lost(t) || Untold(t)
  {
  }

  /** And stays so: a task that a step has lost is in the same call, and unreachable, for the rest of
      every run. */
  lemma {:induction false} StuckForever(ss: seq<State>, acts: seq<Action>, i: int, n: nat)
    requires Run(ss, acts) && n < |ss| && Live(ss[0], i) && !Reachable(Get(ss[0], i))
    ensures Live(ss[n], i) && Get(ss[n], i).serial == Get(ss[0], i).serial
    ensures !Reachable(Get(ss[n], i)) && Get(ss[n], i).pc == Get(ss[0], i).pc
  {
    hide Step, Ready, Inv, Reachable, Lost, Untold;
    RunKeeps(ss, acts, n);
    TaskIsOK(ss[0], i);
    UnreachableIff(Get(ss[0], i));
    if Lost(Get(ss[0], i)) {
      LostForever(ss, acts, i, n);
    } else {
      UntoldForever(ss, acts, i, n);
      TaskIsOK(ss[n], i);
      UnreachableIff(Get(ss[n], i));
    }
  }

  lemma TaskIsOK(s: State, i: int)
    requires Inv(s) && Live(s, i)
    ensures TaskOK(Get(s, i))
  {
  }

  ghost predicate NoneLost(s: State) {
    forall i :: 0 <= i < |s.tasks| && s.tasks[i].Some? ==> Reachable(s.tasks[i].value)
  }

  /** The event reaches the first waiter: its recorded mask lets it through, and it is the one the
      waiter's loop tests for. */
  ghost predicate Delivers(s: State, ev: Event)
    requires Sized(s) && 0 <= ev.fd < MAX_FD
  {
    |s.queues[ev.fd]| > 0 &&
    var t := Get(s, s.queues[ev.fd][0]);
    t.pc.InWait? && Meets(t.events[ev.fd].mask, ev.events) && Meets(ev.events, t.pc.bit)
  }

  ghost predicate AllDeliver(s: State, evs: seq<Event>)
    requires Sized(s) && InRange(evs)
  {
    |evs| == 0 ||
    (AllDeliver(s, evs[..|evs| - 1]) &&
     Events(s, evs[..|evs| - 1]).Next? &&
     Delivers(Events(s, evs[..|evs| - 1]).state, evs[|evs| - 1]))
  }

  lemma {:induction false} EventLosesIff(s: State, ev: Event)
    requires Inv(s) && NoneLost(s) && 0 <= ev.fd < MAX_FD && EventStep(s, ev).Next?
    ensures NoneLost(EventStep(s, ev).state) <==> Delivers(s, ev)
  {
    hide TaskOK;
    var h := s.queues[ev.fd][0];
    var s' := EventStep(s, ev).state;
    assert WaitsAt(Get(s, h), ev.fd);
    assert Reachable(s'.tasks[h].value) <==> Delivers(s, ev);
  }

  lemma {:induction false} BatchLosesIff(s: State, evs: seq<Event>)
    requires Inv(s) && s.running && NoneLost(s) && InRange(evs) && Events(s, evs).Next?
    ensures NoneLost(Events(s, evs).state) <==> AllDeliver(s, evs)
  {
    hide Inv, EventStep, Delivers;
    QueuesPart(s);
    if |evs| > 0 {
      var earlier, ev := evs[..|evs| - 1], evs[|evs| - 1];
      var s1 := Events(s, earlier).state;
      BatchLosesIff(s, earlier);
      EventsKeep(s, earlier);
      if NoneLost(s1) {
        EventLosesIff(s1, ev);
      } else {
        var i :| 0 <= i < |s1.tasks| && s1.tasks[i].Some? && !Reachable(s1.tasks[i].value);
        StuckStays(s1, ev, i);
      }
    }
  }

  /** For distinct descriptors the condition can be read off before the batch: every event reaches
      the waiter that stands first in its queue now. */
  lemma {:induction false} DistinctBatchDelivers(s: State, evs: seq<Event>)
    requires Inv(s) && s.running && InRange(evs) && DistinctFds(evs)
    ensures AllDeliver(s, evs) <==> forall k :: 0 <= k < |evs| ==> Delivers(s, evs[k])
  {
    hide Inv, BatchEffect, Delivers, Events;
    QueuesPart(s);
    if |evs| > 0 {
      var earlier, ev := evs[..|evs| - 1], evs[|evs| - 1];
      DistinctBatchDelivers(s, earlier);
      BatchIsExact(s, earlier);
      if AllDeliver(s, earlier) {
        DeliversHasWaiters(s, earlier);
        SameFirstWaiter(s, earlier, Events(s, earlier).state, ev);
      }
      assert (forall k :: 0 <= k < |evs| ==> Delivers(s, evs[k])) <==>
        (forall k :: 0 <= k < |earlier| ==> Delivers(s, earlier[k])) && Delivers(s, ev);
    }
  }

  lemma DeliversHasWaiters(s: State, evs: seq<Event>)
    requires Sized(s) && InRange(evs) && forall k :: 0 <= k < |evs| ==> Delivers(s, evs[k])
    ensures forall k :: 0 <= k < |evs| ==> |s.queues[evs[k].fd]| > 0
  {
  }

  lemma {:induction false} SameFirstWaiter(s: State, evs: seq<Event>, s1: State, ev: Event)
    requires Sized(s) && QueuesOK(s) && Sized(s1) && BatchEffect(s, evs, s1) && 0 <= ev.fd < MAX_FD
    requires forall k :: 0 <= k < |evs| ==> evs[k].fd != ev.fd
    ensures Delivers(s1, ev) <==> Delivers(s, ev)
  {
    NoEventFor(evs, ev.fd);
    assert s1.queues[ev.fd] == QueueAfter(s, evs, ev.fd);
    if |s.queues[ev.fd]| > 0 {
      var h := s.queues[ev.fd][0];
      assert WaitsAt(Get(s, h), ev.fd) && s1.tasks[h] == TaskAfter(s, evs, h);
    }
  }

  lemma {:induction false} StuckStays(s: State, ev: Event, i: int)
    requires Inv(s) && s.running && 0 <= ev.fd < MAX_FD && EventStep(s, ev).Next?
    requires Live(s, i) && !Reachable(Get(s, i))
    ensures !NoneLost(EventStep(s, ev).state)
  {
    hide TaskOK;
    var h := s.queues[ev.fd][0];
    assert WaitsAt(Get(s, h), ev.fd);
    assert EventStep(s, ev).state.tasks[i] == s.tasks[i];
  }

  /** What a step must respect for nobody to be lost. */
  ghost predicate Careful(s: State, a: Action)
    requires Sized(s)
  {
    match a
    case DoLoop(evs) => InRange(evs) && AllDeliver(s, evs) && Cur(s).status != WAIT
    // a caller whose last blocking call was refused still has status WAIT
    case DoJoin(cid) => Cur(s).status != WAIT || (Live(s, cid) && Get(s, cid).status == EXIT)
    case _ => true
  }

  /** Exactly which steps lose somebody: a batch with an event that does not reach the first waiter
      of its queue, and entering co_join or co_eventloop with the status a refused blocking call
      left behind.  No other step does. */
  lemma {:induction false} LosesIff(s: State, a: Action)
    requires Inv(s) && NoneLost(s) && Ready(s, a) && Step(s, a).Next?
    ensures NoneLost(Step(s, a).state) <==> Careful(s, a)
  {
    match a
    case DoCreate =>
    case DoSleep(_, _) =>
    case DoBlock(fd, bit) => BlockLosesNobody(s, fd, bit);
    case DoLoop(evs) => LoopLosesIff(s, evs);
    case DoFinish =>
    case DoJoin(cid) => JoinLosesIff(s, cid);
    case DoResume => ResumeLosesNobody(s);
    case DoDispatch(sweeps) => DispatchLosesNobody(s, sweeps);
  }

  /** So a careless step loses somebody for good. */
  lemma {:induction false} CarelessIsForGood(ss: seq<State>, acts: seq<Action>) returns (i: int)
    requires Run(ss, acts) && |acts| > 0 && NoneLost(ss[0]) && !Careful(ss[0], acts[0])
    ensures Live(ss[1], i)
    ensures forall n :: 1 <= n < |ss| ==>
              Live(ss[n], i) && !Reachable(Get(ss[n], i)) && Get(ss[n], i).pc == Get(ss[1], i).pc
  {
    hide Step, Ready, Inv, Careful, Reachable;
    LosesIff(ss[0], acts[0]);
    i :| 0 <= i < |ss[1].tasks| && ss[1].tasks[i].Some? && !Reachable(ss[1].tasks[i].value);
    RunTail(ss, acts);
    forall n | 1 <= n < |ss|
      ensures Live(ss[n], i) && !Reachable(Get(ss[n], i)) && Get(ss[n], i).pc == Get(ss[1], i).pc
    {
      StuckForever(ss[1..], acts[1..], i, n - 1);
    }
  }

  lemma {:induction false} BlockLosesNobody(s: State, fd: int, bit: bv32)
    requires Inv(s) && NoneLost(s) && Ready(s, DoBlock(fd, bit)) && Block(s, fd, bit).Next?
    ensures NoneLost(Block(s, fd, bit).state)
  {
    hide Inv;
    QueuesPart(s);
    AddQueueForm(s, fd, bit);
    if AddQueue(s, fd, bit).Added? {
      AcceptedCallSuspends(s, fd, bit);
    }
  }

  lemma {:induction false} LoopLosesIff(s: State, evs: seq<Event>)
    requires Inv(s) && NoneLost(s) && Ready(s, DoLoop(evs)) && Loop(s, evs).Next?
    ensures NoneLost(Loop(s, evs).state) <==> Careful(s, DoLoop(evs))
  {
    hide Inv, EventStep;
    QueuesPart(s);
    var s1 := Events(s, evs).state;
    var s' := Loop(s, evs).state;
    EventsKeep(s, evs);
    BatchLosesIff(s, evs);
    EventsArePassive(s, evs, s.current);
    ModeKept(s);
    CurrentIsOut(s1);
    CurrentIsOut(s);
    if NoneLost(s') {
      assert Reachable(s'.tasks[s'.current].value);
      forall i | 0 <= i < |s1.tasks| && s1.tasks[i].Some?
        ensures Reachable(s1.tasks[i].value)
      {
        assert i != s1.current ==> s'.tasks[i] == s1.tasks[i];
      }
    }
  }

  lemma {:induction false} CurrentIsOut(s: State)
    requires Inv(s) && s.running
    ensures Cur(s).entry != Queued
  {
  }

  lemma {:induction false} JoinLosesIff(s: State, cid: int)
    requires Inv(s) && NoneLost(s) && Ready(s, DoJoin(cid)) && Join(s, cid).Next?
    ensures NoneLost(Join(s, cid).state) <==> Careful(s, DoJoin(cid))
  {
    CurrentIsOut(s);
    var s' := Join(s, cid).state;
    assert s'.tasks[s.current].Some? ==> (Reachable(s'.tasks[s.current].value) <==> Careful(s, DoJoin(cid)));
  }

  lemma {:induction false} ResumeLosesNobody(s: State)
    requires Inv(s) && NoneLost(s) && Ready(s, DoResume) && Resume(s).Next?
    ensures NoneLost(Resume(s).state)
  {
    CurrentIsOut(s);
    assert Reachable(Cur(s));
  }

  lemma {:induction false} DispatchLosesNobody(s: State, sweeps: seq<seq<int>>)
    requires Inv(s) && NoneLost(s) && Ready(s, DoDispatch(sweeps))
    ensures NoneLost(Dispatch(s, sweeps))
  {
    SweepsWake(s.tasks, sweeps);
    forall i | 0 <= i < NR_TASKS && Dispatch(s, sweeps).tasks[i].Some?
      ensures Reachable(Dispatch(s, sweeps).tasks[i].value)
    {
      assert WokenBy(s.tasks[i], Dispatch(s, sweeps).tasks[i], sweeps, i);
      assert TaskOK(s.tasks[i].value);
    }
  }

  /** As long as every step is careful, a task that is not executing has status WAIT if and only if
      it stands in a queue; that queue is then the one of the descriptor it waits for, and no
      other: one block_entry per task is enough. */
  lemma {:induction false} WaitIffQueued(ss: seq<State>, acts: seq<Action>, n: nat, i: int)
    requires Run(ss, acts) && NoneLost(ss[0]) && n < |ss|
    requires forall k :: 0 <= k < n ==> Careful(ss[k], acts[k])
    requires Live(ss[n], i) && !(ss[n].running && ss[n].current == i)
    ensures Get(ss[n], i).status == WAIT <==> exists f :: 0 <= f < MAX_FD && i in ss[n].queues[f]
    ensures forall f :: 0 <= f < MAX_FD && i in ss[n].queues[f] ==> Get(ss[n], i).pc.InWait? && Get(ss[n], i).pc.fd == f
  {
    hide Step, Ready, Inv, Careful;
    RunKeeps(ss, acts, n);
    NobodyIsLost(ss, acts, n);
    QueuedIff(ss[n], i);
  }

  lemma {:induction false} NobodyIsLost(ss: seq<State>, acts: seq<Action>, n: nat)
    requires Run(ss, acts) && NoneLost(ss[0]) && n < |ss|
    requires forall k :: 0 <= k < n ==> Careful(ss[k], acts[k])
    ensures NoneLost(ss[n])
  {
    hide Step, Ready, Inv, Careful, NoneLost;
    if n > 0 {
      NobodyIsLost(ss, acts, n - 1);
      RunKeeps(ss, acts, n);
      LosesIff(ss[n - 1], acts[n - 1]);
    }
  }

  lemma {:induction false} QueuedIff(s: State, i: int)
    requires Inv(s) && NoneLost(s) && Live(s, i) && !(s.running && s.current == i)
    ensures Get(s, i).status == WAIT <==> exists f :: 0 <= f < MAX_FD && i in s.queues[f]
    ensures forall f :: 0 <= f < MAX_FD && i in s.queues[f] ==> Get(s, i).pc.InWait? && Get(s, i).pc.fd == f
  {
    hide TaskOK;
    assert Reachable(Get(s, i));
    forall f, k | 0 <= f < MAX_FD && 0 <= k < |s.queues[f]| && s.queues[f][k] == i
      ensures WaitsAt(Get(s, i), f)
    {
    }
  }
}
