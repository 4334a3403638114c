/** Small runs from the start of the thread, move by move: up to three coroutines, in slots 0 (main),
    1 and 2, of which at most one descriptor has waiters. */
module Scenes {
  import opened Runtime
  import opened Scheduler
  import opened Invariants
  import opened Runs
  import opened Waiters
  import opened Masks

  datatype Scene = Scene(
    slots: seq<Option<Task>>, current: int, fd: int, queue: seq<int>, kernel: map<int, bv32>, running: bool,
    births: nat)

  /** The scene is all there is to the state. */
  ghost predicate Shows(s: State, v: Scene) {
    && |s.tasks| == NR_TASKS && |s.queues| == MAX_FD && |v.slots| == 3 && 0 <= v.current < 3 && 0 <= v.fd < MAX_FD
    && (forall i :: 0 <= i < NR_TASKS ==> s.tasks[i] == if i < 3 then v.slots[i] else None)
    && (forall f :: 0 <= f < MAX_FD ==> s.queues[f] == if f == v.fd then v.queue else [])
    && s.current == v.current && s.kernel == v.kernel && s.running == v.running && s.births == v.births
  }

  datatype Move =
    | Creates(slot: int)                      // co_create, which finds `slot`
    | Goes(next: int)                         // schedule, with nobody asleep
    | Reads(fd: int)                          // a first, accepted co_read
    | Asks(fd: int)                           // a first co_read, refused
    | ReadsAgain(fd: int)                     // a further co_read
    | Idles                                   // a turn of the event loop without events
    | Hears(bits: bv32)                       // a turn with one event, for the first waiter
    | Returns                                 // from co_read
    | Joins(cid: int)                         // co_join of a task that has not exited, or a later test
    | Reaps(cid: int)                         // the test of co_join that finds the task exited
    | Finishes                                // of a coroutine with no descriptors

  predicate HasTask(v: Scene, i: int) {
    && |v.slots| == 3 && 0 <= i < 3 && v.slots[i].Some?
    && |v.slots[i].value.events| == |v.slots[i].value.revents| == MAX_FD
  }

  function TaskIn(v: Scene, i: int): Task
    requires HasTask(v, i)
  {
    v.slots[i].value
  }

  function Actor(v: Scene): Task
    requires HasTask(v, v.current)
  {
    TaskIn(v, v.current)
  }

  predicate NobodySleeps(v: Scene) {
    forall i :: 0 <= i < |v.slots| && v.slots[i].Some? ==> v.slots[i].value.status != SLEEP
  }

  predicate IsUp(v: Scene, i: int) {
    HasTask(v, i) && TaskIn(v, i).status == RUNNING
  }

  /** The slot a dispatch goes to when nobody sleeps. */
  predicate IsNext(v: Scene, next: int) {
    IsUp(v, next) && forall i :: 0 <= i < 3 && IsUp(v, i) ==> Distance(v.current, next) <= Distance(v.current, i)
  }

  /** The moves that a scene allows. */
  predicate Can(v: Scene, move: Move) {
    && HasTask(v, v.current) && 0 <= v.fd < MAX_FD && v.running == !move.Goes?
    && var t := Actor(v);
       match move
       case Creates(i) =>
         t.pc == User && 0 <= i < 3 && v.slots[i].None? && forall j :: 0 <= j < i ==> v.slots[j].Some?
       case Goes(next) => NobodySleeps(v) && IsNext(v, next)
       case Reads(fd) =>
         && t.pc == User && 0 <= fd < MAX_FD && v.queue == [] && fd !in v.kernel
         && t.events[fd].fd <= 0 && |t.fds| < MAX_FD
       case Asks(fd) =>
         t.pc == User && 0 <= fd < MAX_FD && fd in v.kernel && t.events[fd].fd <= 0 && |t.fds| < MAX_FD
       case ReadsAgain(fd) =>
         t.pc == User && fd == v.fd && t.events[fd].fd > 0 && t.events[fd].mask == EPOLLIN
       case Idles => t.pc == User || t.pc == InLoop
       case Hears(_) =>
         && (t.pc == User || t.pc == InLoop) && |v.queue| > 0 && v.queue[0] != v.current && HasTask(v, v.queue[0])
         && (|v.queue| > 1 ==> HasTask(v, v.queue[1]))
       case Returns =>
         t.pc.InWait? && t.pc.bit == EPOLLIN && 0 <= t.pc.fd < MAX_FD && Meets(t.revents[t.pc.fd], EPOLLIN)
       case Joins(cid) =>
         HasTask(v, cid) && TaskIn(v, cid).status != EXIT && (t.pc == User || (t.pc.InJoin? && t.pc.cid == cid))
       case Reaps(cid) =>
         HasTask(v, cid) && TaskIn(v, cid).status == EXIT && cid != v.current && t.pc.InJoin? && t.pc.cid == cid
       case Finishes => t.pc == User && t.fds == [] && v.current != 0
  }

  function ActionOf(v: Scene, move: Move): Action
    requires Can(v, move)
  {
    match move
    case Creates(_) => DoCreate
    case Goes(_) => DoDispatch([Midnight()])
    case Reads(fd) => DoBlock(fd, EPOLLIN)
    case Asks(fd) => DoBlock(fd, EPOLLIN)
    case ReadsAgain(fd) => DoBlock(fd, EPOLLIN)
    case Idles => DoLoop([])
    case Hears(bits) => DoLoop([Event(v.fd, bits)])
    case Returns => DoResume
    case Joins(cid) => if Actor(v).pc == User then DoJoin(cid) else DoResume
    case Reaps(_) => DoResume
    case Finishes => DoFinish
  }

  function Midnight(): seq<int> {
    seq(NR_TASKS, _ => 0)
  }

  /** The current task becomes t. */
  function Becomes(v: Scene, t: Task): Scene
    requires HasTask(v, v.current)
  {
    v.(slots := v.slots[v.current := Some(t)])
  }

  /** The caller of an accepted co_read. */
  function Queueing(t: Task, fd: int): Task
    requires |t.events| == |t.revents| == MAX_FD && 0 <= fd < MAX_FD
  {
    Asked(t, fd, EPOLLIN).(pc := InWait(fd, EPOLLIN), entry := Queued)
  }

  /** Who stands second in the queue. */
  function Behind(v: Scene): Option<nat>
    requires |v.queue| > 1 ==> HasTask(v, v.queue[1])
  {
    if |v.queue| > 1 then Some(TaskIn(v, v.queue[1]).serial) else None
  }

  function After(v: Scene, move: Move): Scene
    requires Can(v, move)
  {
    var t := Actor(v);
    match move
    case Creates(i) => v.(slots := v.slots[i := Some(ZeroTask(v.births))], births := v.births + 1)
    case Goes(next) => v.(current := next, running := true)
    case Reads(fd) =>
      Becomes(v, Queueing(t, fd)).(fd := fd, queue := [v.current], kernel := v.kernel[fd := EPOLLIN], running := false)
    case Asks(fd) => Becomes(v, Asked(t, fd, EPOLLIN))
    case ReadsAgain(fd) => Becomes(v, Queueing(t, fd)).(queue := v.queue + [v.current], running := false)
    case Idles => Becomes(v, t.(pc := InLoop)).(running := false)
    case Hears(bits) =>
      var w := v.queue[0];
      var told := Notified(TaskIn(v, w), Event(v.fd, bits), Behind(v));
      Scene(v.slots[v.current := Some(t.(pc := InLoop))][w := Some(told)],
            v.current, v.fd, v.queue[1..], v.kernel, false, v.births)
    case Returns => Becomes(v, t.(pc := User))
    case Joins(cid) =>
      var target := if t.pc == User then TaskIn(v, cid).serial else t.pc.target;
      Becomes(v, t.(pc := InJoin(cid, target))).(running := false)
    case Reaps(cid) => v.(slots := v.slots[v.current := Some(t.(pc := User))][cid := None])
    case Finishes => Becomes(v, t.(status := EXIT, pc := Done)).(running := false)
  }

  // ---------------------------------------------------------------- moves are steps

  /** What each move has to show. */
  ghost predicate Works(s: State, v: Scene, move: Move) {
    && Sized(s) && Can(v, move) && Ready(s, ActionOf(v, move)) && Step(s, ActionOf(v, move)).Next?
    && Shows(Step(s, ActionOf(v, move)).state, After(v, move))
  }

  lemma {:induction false} CreatesWorks(s: State, v: Scene, i: int)
    requires Inv(s) && Shows(s, v) && Can(v, Creates(i))
    ensures Works(s, v, Creates(i))
  {
    hide Inv, ZeroTask;
    InvSized(s);
    FirstFreeSlot(s.tasks, 0, i);
  }

  lemma {:induction false} FirstFreeSlot(tasks: seq<Option<Task>>, id: nat, i: nat)
    requires id <= i < |tasks| && tasks[i].None? && forall j :: id <= j < i ==> tasks[j].Some?
    ensures FreeSlot(tasks, id) == i
    decreases i - id
  {
    if id < i {
      FirstFreeSlot(tasks, id + 1, i);
    }
  }

  lemma {:induction false} NobodyWakes(tasks: seq<Option<Task>>, times: seq<int>)
    requires |times| == |tasks| && forall i :: 0 <= i < |tasks| && tasks[i].Some? ==> tasks[i].value.status != SLEEP
    ensures Sweeps(tasks, [times]) == tasks
  {
    SweepsWake(tasks, [times]);
    forall i | 0 <= i < |tasks|
      ensures Sweeps(tasks, [times])[i] == tasks[i]
    {
      assert WokenBy(tasks[i], Sweeps(tasks, [times])[i], [times], i);
    }
  }

  lemma {:induction false} NextIsPicked(s: State, v: Scene, next: int)
    requires Sized(s) && Shows(s, v) && IsNext(v, next)
    ensures AnyRunning(s.tasks) && Scan(s.tasks, s.current, 1) == next
  {
    hide Distance, Scan;
    assert IsRunning(s.tasks, next);
    PickIsFirst(s.tasks, s.current);
    var j := Scan(s.tasks, s.current, 1);
    assert IsRunning(s.tasks, j) && IsUp(v, j);
    SlotsAndDistances(s.current, j);
    SlotsAndDistances(s.current, next);
  }

  lemma {:induction false} GoesWorks(s: State, v: Scene, next: int)
    requires Inv(s) && Shows(s, v) && Can(v, Goes(next))
    ensures Works(s, v, Goes(next))
  {
    hide Inv, IsNext, Scan, Sweeps, AnyRunning;
    InvSized(s);
    NobodyWakes(s.tasks, Midnight());
    NextIsPicked(s, v, next);
    OneSweepSuffices(s.tasks, Midnight());
    hide Shows;
    OtherCurrent(s, v, Dispatch(s, [Midnight()]), next);
  }

  lemma OtherCurrent(s: State, v: Scene, s': State, next: int)
    requires Shows(s, v) && s' == s.(current := next, running := true) && IsNext(v, next)
    ensures Shows(s', v.(current := next, running := true))
  {
  }

  lemma {:induction false} AcceptedScene(s: State, v: Scene, fd: int)
    requires Sized(s) && Shows(s, v) && HasTask(v, v.current) && v.running && Actor(v).pc == User && 0 <= fd < MAX_FD
    requires (v.queue == [] || v.fd == fd) && AddQueue(s, fd, EPOLLIN).Added?
    ensures Block(s, fd, EPOLLIN).Next?
    ensures Shows(Block(s, fd, EPOLLIN).state,
                  Becomes(v, Queueing(Actor(v), fd)).(
                    fd := fd, queue := v.queue + [v.current], kernel := AddQueue(s, fd, EPOLLIN).state.kernel,
                    running := false))
  {
    hide Asked, With, Without, Meets, AddQueue;
    AddQueueForm(s, fd, EPOLLIN);
    AcceptedCallSuspends(s, fd, EPOLLIN);
  }

  lemma {:induction false} ReadsWorks(s: State, v: Scene, fd: int)
    requires Inv(s) && Shows(s, v) && Can(v, Reads(fd))
    ensures Works(s, v, Reads(fd))
  {
    hide Inv, Asked;
    InvSized(s);
    AcceptedScene(s, v, fd);
  }

  lemma {:induction false} AsksWorks(s: State, v: Scene, fd: int)
    requires Inv(s) && Shows(s, v) && Can(v, Asks(fd))
    ensures Works(s, v, Asks(fd))
  {
    hide Inv, Asked;
    InvSized(s);
    AddQueueForm(s, fd, EPOLLIN);
  }

  lemma {:induction false} ReadsAgainWorks(s: State, v: Scene, fd: int)
    requires Inv(s) && Shows(s, v) && Can(v, ReadsAgain(fd))
    ensures Works(s, v, ReadsAgain(fd))
  {
    hide Inv, Asked;
    InvSized(s);
    AcceptedScene(s, v, fd);
  }

  lemma {:induction false} IdlesWorks(s: State, v: Scene)
    requires Inv(s) && Shows(s, v) && Can(v, Idles)
    ensures Works(s, v, Idles)
  {
    hide Inv;
    InvSized(s);
  }

  lemma {:induction false} HearsWorks(s: State, v: Scene, bits: bv32)
    requires Inv(s) && Shows(s, v) && Can(v, Hears(bits))
    ensures Works(s, v, Hears(bits))
  {
    hide Inv, Notified;
    InvSized(s);
    var evs := [Event(v.fd, bits)];
    assert evs[..0] == [] && Events(s, []) == Next(s);
    assert Events(s, evs) == EventStep(s, evs[0]);
  }

  lemma {:induction false} ReturnsWorks(s: State, v: Scene)
    requires Inv(s) && Shows(s, v) && Can(v, Returns)
    ensures Works(s, v, Returns)
  {
    hide Inv, Meets;
    InvSized(s);
  }

  lemma {:induction false} JoinsWorks(s: State, v: Scene, cid: int)
    requires Inv(s) && Shows(s, v) && Can(v, Joins(cid))
    ensures Works(s, v, Joins(cid))
  {
    hide Inv;
    InvSized(s);
  }

  lemma {:induction false} ReapsWorks(s: State, v: Scene, cid: int)
    requires Inv(s) && Shows(s, v) && Can(v, Reaps(cid))
    ensures Works(s, v, Reaps(cid))
  {
    hide Inv;
    InvSized(s);
  }

  lemma {:induction false} FinishesWorks(s: State, v: Scene)
    requires Inv(s) && Shows(s, v) && Can(v, Finishes)
    ensures Works(s, v, Finishes)
  {
    hide Inv;
    InvSized(s);
    assert FdSet([]) == {} && s.kernel - {} == s.kernel;
  }

  lemma {:induction false} MoveWorks(s: State, v: Scene, move: Move)
    requires Inv(s) && Shows(s, v) && Can(v, move)
    ensures Works(s, v, move)
  {
    hide Inv, Shows, Can, Works;
    match move
    case Creates(i) => CreatesWorks(s, v, i);
    case Goes(next) => GoesWorks(s, v, next);
    case Reads(fd) => ReadsWorks(s, v, fd);
    case Asks(fd) => AsksWorks(s, v, fd);
    case ReadsAgain(fd) => ReadsAgainWorks(s, v, fd);
    case Idles => IdlesWorks(s, v);
    case Hears(bits) => HearsWorks(s, v, bits);
    case Returns => ReturnsWorks(s, v);
    case Joins(cid) => JoinsWorks(s, v, cid);
    case Reaps(cid) => ReapsWorks(s, v, cid);
    case Finishes => FinishesWorks(s, v);
  }

  // ---------------------------------------------------------------- runs

  /** A run from the start of the thread that ends in the scene. */
  ghost predicate Reached(ss: seq<State>, acts: seq<Action>, v: Scene) {
    Run(ss, acts) && ss[0] == Init() && Shows(ss[|acts|], v)
  }

  ghost predicate AllStrict(ss: seq<State>, acts: seq<Action>) {
    |acts| < |ss| && forall k {:trigger acts[k]} :: 0 <= k < |acts| ==> Sized(ss[k]) && Strict(ss[k], acts[k])
  }

  function Opening(): Scene {
    Scene([Some(ZeroTask(0)), None, None], 0, 0, [], map[], true, 1)
  }

  lemma {:induction false} Open() returns (ss: seq<State>, acts: seq<Action>)
    ensures Reached(ss, acts, Opening()) && acts == [] && AllStrict(ss, acts)
  {
    hide Inv;
    InvInit();
    RunStarts(Init());
    ss, acts := [Init()], [];
  }

  lemma {:induction false} Then(ss: seq<State>, acts: seq<Action>, v: Scene, move: Move)
    returns (ss': seq<State>, acts': seq<Action>)
    requires Reached(ss, acts, v) && Can(v, move)
    ensures Reached(ss', acts', After(v, move)) && acts' == acts + [ActionOf(v, move)]
    ensures AllStrict(ss, acts) && (move.Reads? ==> move.fd != 0) && !move.Asks? && !move.ReadsAgain? ==>
              AllStrict(ss', acts')
  {
    hide Step, Ready, Inv, Shows, Init, Can, After, ActionOf;
    LastKeeps(ss, acts);
    MoveWorks(ss[|acts|], v, move);
    RunAppend(ss, acts, ActionOf(v, move));
    ss', acts' := ss + [Step(ss[|acts|], ActionOf(v, move)).state], acts + [ActionOf(v, move)];
    if AllStrict(ss, acts) && (move.Reads? ==> move.fd != 0) && !move.Asks? && !move.ReadsAgain? {
      MoveIsStrict(ss[|acts|], v, move);
      forall k {:trigger acts'[k]} | 0 <= k < |acts'|
        ensures Sized(ss'[k]) && Strict(ss'[k], acts'[k])
      {
        assert k < |acts| ==> acts'[k] == acts[k];
      }
    }
  }

  lemma {:induction false} MoveIsStrict(s: State, v: Scene, move: Move)
    requires Sized(s) && Shows(s, v) && Can(v, move)
    requires (move.Reads? ==> move.fd != 0) && !move.Asks? && !move.ReadsAgain?
    ensures Strict(s, ActionOf(v, move))
  {
  }

  lemma {:induction false} LastKeeps(ss: seq<State>, acts: seq<Action>)
    requires Run(ss, acts)
    ensures |ss| == |acts| + 1 && Inv(ss[|acts|]) && Sized(ss[|acts|])
  {
    hide Step, Ready, Inv;
    RunKeeps(ss, acts, |acts|);
  }

  /** Main has created a coroutine and waits for `fd`; the coroutine has just started. */
  function HandedOver(fd: int): Scene
    requires 0 <= fd < MAX_FD
  {
    Scene([Some(Queueing(ZeroTask(0), fd)), Some(ZeroTask(1)), None], 1, fd, [0], map[fd := EPOLLIN], true, 2)
  }

  lemma {:induction false} HandOver(fd: int) returns (ss: seq<State>, acts: seq<Action>)
    requires 0 <= fd < MAX_FD
    ensures Reached(ss, acts, HandedOver(fd)) && |acts| == 3 && (fd != 0 ==> AllStrict(ss, acts))
  {
    hide Reached, AllStrict, Without;
    ss, acts := Open();
    ss, acts := Then(ss, acts, Opening(), Creates(1));
    var v1 := After(Opening(), Creates(1));
    assert v1.slots == [Some(ZeroTask(0)), Some(ZeroTask(1)), None];
    ss, acts := Then(ss, acts, v1, Reads(fd));
    var v2 := After(v1, Reads(fd));
    assert v2.slots == HandedOver(fd).slots;
    ss, acts := Then(ss, acts, v2, Goes(1));
    assert After(v2, Goes(1)) == HandedOver(fd);
  }
}
