/** Every run of the state machine has a processor run beside it: what JointRuns proves of a joint run
    holds of some execution for every run. */
module JointExists {
  import opened Runtime
  import opened Invariants
  import opened Runs
  import opened JointRuns
  import X = ContextSwitch
  import C = ContextRuns

  // ---------------------------------------------------------------- memory

  /** Task blocks with their stacks, one after the other; the first two words are for the fields. */
  function AreaOf(i: nat): C.Area {
    var block := i * (X.STACK_SIZE + 2);
    C.Area(block, block + 2, block + 2 + X.STACK_SIZE)
  }

  function Areas(n: nat): (areas: seq<C.Area>)
    ensures |areas| == n && forall i :: 0 <= i < n ==> areas[i] == AreaOf(i)
  {
    seq(n, i requires 0 <= i < n => AreaOf(i))
  }

  lemma {:induction false} AreasAreDisjoint(n: nat)
    ensures C.Disjoint(Areas(n))
  {
    hide AreaOf;
    var areas := Areas(n);
    forall i, j | 0 <= i < j < n
      ensures areas[i].block < areas[j].block
      ensures forall a :: C.InStack(areas[i], a) ==> !C.InStack(areas[j], a)
    {
      OneAfterTheOther(i, j);
    }
    forall i, j | 0 <= i < n && 0 <= j < n
      ensures !C.InStack(areas[i], X.EspOf(areas[j].block))
      ensures !C.InStack(areas[i], areas[j].block) && areas[j].block != areas[i].block + 1
    {
      if i < j {
        OneAfterTheOther(i, j);
      } else if j < i {
        OneAfterTheOther(j, i);
      } else {
        OneAfterTheOther(i, i + 1);
      }
    }
  }

  lemma OneAfterTheOther(i: nat, j: nat)
    requires i < j
    ensures AreaOf(i).block + 2 == AreaOf(i).lo < AreaOf(i).hi && AreaOf(i).hi <= AreaOf(j).block < AreaOf(j).lo - 1
  {
  }

  /** The word at address `a` of the frame of `c`. */
  function Word(c: X.Cpu, a: int): int
    requires c.rsp - 17 <= a < c.rsp
  {
    [c.r15, c.r14, c.r13, c.r12, c.r11, c.r10, c.r9, c.r8, c.flags, c.rax, c.rcx, c.rdx, c.rbx, c.rsi, c.rdi, c.rbp,
     c.rip][a - c.rsp + 17]
  }

  /** Memory with the frame of `c` below its stack pointer. */
  function Laid(mem: X.Memory, c: X.Cpu): X.Memory {
    mem + map a | c.rsp - 17 <= a < c.rsp :: Word(c, a)
  }

  lemma LaidIsThere(mem: X.Memory, c: X.Cpu)
    ensures X.FrameAt(Laid(mem, c), c.rsp - 17) == c && X.Load(Laid(mem, c), c.rsp - 1) == c.rip
    ensures forall a :: !(c.rsp - 17 <= a < c.rsp) ==> X.Load(Laid(mem, c), a) == X.Load(mem, a)
  {
  }

  /** A word outside the frame does not matter to it. */
  lemma FrameStays(mem: X.Memory, sp: int, a: int, v: int)
    requires !(sp <= a < sp + 17)
    ensures X.FrameAt(mem[a := v], sp) == X.FrameAt(mem, sp)
  {
  }

  // ---------------------------------------------------------------- steps of the processor

  function AfterMake(area: C.Area, c: C.State, start: int): C.State {
    var first := X.FirstContext(area.block, start, area.lo);
    var mem := Laid(c.mem, first)[first.rsp := 100];
    c.(mem := mem[X.EspOf(area.block) := first.rsp - 17])
  }

  function AfterSwitch(c: C.State, next: nat, ret: int): C.State {
    var sp := c.cpu.rsp - 17;
    var mem := Laid(c.mem, c.cpu.(rip := ret))[X.EspOf(c.cpu.rdi) := sp];
    C.State(X.FrameAt(mem, X.Load(mem, X.EspOf(c.cpu.rsi))), mem, next)
  }

  /** The registers when the runtime calls switch_to. */
  function Calling(cpu: X.Cpu, area: C.Area, next: C.Area): X.Cpu {
    cpu.(rdi := area.block, rsi := next.block, rsp := area.hi)
  }

  lemma MakeIsPossible(areas: seq<C.Area>, c: C.State, id: nat, start: int)
    requires C.Disjoint(areas) && id < |areas| && id != c.current && areas[id].hi == areas[id].lo + X.STACK_SIZE
    ensures C.Steps(areas, c, C.Make(id, start), AfterMake(areas[id], c, start))
  {
    hide Laid, X.FrameAt;
    var area := areas[id];
    var first := X.FirstContext(area.block, start, area.lo);
    LaidIsThere(c.mem, first);
    FrameStays(Laid(c.mem, first), first.rsp - 17, first.rsp, 100);
    assert !C.InStack(area, X.EspOf(area.block));
    FrameStays(Laid(c.mem, first)[first.rsp := 100], first.rsp - 17, X.EspOf(area.block), first.rsp - 17);
  }

  lemma SwitchIsPossible(areas: seq<C.Area>, c: C.State, next: nat, ret: int)
    requires C.Disjoint(areas) && c.current < |areas| && next < |areas| && next != c.current
    requires areas[c.current].hi == areas[c.current].lo + X.STACK_SIZE
    requires c.cpu == Calling(c.cpu, areas[c.current], areas[next])
    ensures C.Steps(areas, c, C.Switch(next, ret), AfterSwitch(c, next, ret))
  {
    hide Laid, X.FrameAt;
    var area, frame := areas[c.current], c.cpu.(rip := ret);
    LaidIsThere(c.mem, frame);
    assert !C.InStack(area, X.EspOf(area.block));
    FrameStays(Laid(c.mem, frame), frame.rsp - 17, X.EspOf(area.block), frame.rsp - 17);
    assert X.Caller(c.cpu.(rsp := frame.rsp - 1), c.mem[frame.rsp - 1 := ret]) == frame;
    var mem, mem' := c.mem[frame.rsp - 1 := ret], AfterSwitch(c, next, ret).mem;
    forall a | !(frame.rsp - 17 <= a < frame.rsp - 1) && a != X.EspOf(area.block)
      ensures X.Load(mem', a) == X.Load(mem, a)
    {
      assert X.Load(mem', a) == X.Load(Laid(c.mem, frame), a);
    }
    assert X.FrameAt(mem', frame.rsp - 17) == frame;
  }

  // ---------------------------------------------------------------- a processor run beside a run

  lemma {:induction false} BirthsBound(ss: seq<State>, acts: seq<Action>, k: nat, n: nat)
    requires Run(ss, acts) && k <= n < |ss|
    ensures ss[k].births <= ss[n].births
  {
    hide Step, Ready, Inv;
    if k < n {
      BirthsBound(ss, acts, k, n - 1);
      RunKeeps(ss, acts, n - 1);
      assert Ready(ss[n - 1], acts[n - 1]) && Step(ss[n - 1], acts[n - 1]) == Next(ss[n]);
      BirthsGrow(ss[n - 1], acts[n - 1]);
    }
  }

  ghost predicate AllLive(ss: seq<State>, n: nat) {
    forall k :: 0 <= k < |ss| ==> Live(ss[k], ss[k].current) && Cur(ss[k]).serial < n
  }

  lemma {:induction false} ExecutingAreLive(ss: seq<State>, acts: seq<Action>)
    requires Run(ss, acts)
    ensures AllLive(ss, ss[|acts|].births)
  {
    hide Step, Ready, Inv;
    forall k | 0 <= k < |ss|
      ensures Live(ss[k], ss[k].current) && Cur(ss[k]).serial < ss[|acts|].births
    {
      RunKeeps(ss, acts, k);
      CurrentIsLive(ss[k]);
      BirthsBound(ss, acts, k, |acts|);
      SerialIsOlder(ss[k], ss[k].current);
    }
  }

  /** The image of step k of a run. */
  function ImageOf(ss: seq<State>, acts: seq<Action>, args: seq<int>, k: nat): C.Action
    requires k < |acts| == |args| && k + 1 < |ss| && Live(ss[k], ss[k].current) && Live(ss[k + 1], ss[k + 1].current)
  {
    Image(ss[k], acts[k], ss[k + 1], args[k])
  }

  /** The processor executes the task that the table says, and if a switch comes next, its arguments are
      in the registers. */
  ghost predicate Armed(areas: seq<C.Area>, ss: seq<State>, acts: seq<Action>, args: seq<int>, c: C.State, k: nat)
    requires |ss| == |acts| + 1 && |args| == |acts| && AllLive(ss, |areas|) && k < |ss|
  {
    && c.current == Cur(ss[k]).serial
    && (k < |acts| && ImageOf(ss, acts, args, k).Switch? ==>
          c.cpu == Calling(c.cpu, areas[c.current], areas[ImageOf(ss, acts, args, k).next]))
  }

  /** Own code loads the arguments of switch_to, if that is what comes. */
  function ArmedFor(areas: seq<C.Area>, ss: seq<State>, acts: seq<Action>, args: seq<int>, c: C.State, k: nat): C.State
    requires |ss| == |acts| + 1 && |args| == |acts| && AllLive(ss, |areas|) && k < |ss| && c.current < |areas|
    requires k < |acts| && ImageOf(ss, acts, args, k).Switch? ==> ImageOf(ss, acts, args, k).next < |areas|
  {
    if k < |acts| && ImageOf(ss, acts, args, k).Switch?
    then c.(cpu := Calling(c.cpu, areas[c.current], areas[ImageOf(ss, acts, args, k).next]))
    else c
  }

  lemma {:induction false} ImageFacts(s: State, a: Action, s': State, arg: int)
    requires Inv(s) && Inv(s') && Ready(s, a) && Step(s, a) == Next(s')
    ensures Live(s, s.current) && Live(s', s'.current)
    ensures var image := Image(s, a, s', arg);
            && (image.Make? ==> s'.running && image.id == s.births < s'.births && Cur(s).serial < s.births)
            && (image.Switch? ==> !s.running && s'.running && image.next == Cur(s').serial != Cur(s).serial)
  {
    CurrentIsLive(s);
    CurrentIsLive(s');
    SerialIsOlder(s, s.current);
    hide Inv;
    if a.DoDispatch? && s'.current != s.current {
      DispatchKeepsTask(s, a, s.current);
      OwnSerial(s', s.current, s'.current);
    }
  }

  lemma {:induction false} ImageOfRun(ss: seq<State>, acts: seq<Action>, args: seq<int>, k: nat)
    requires Run(ss, acts) && k < |acts| == |args| && AllLive(ss, ss[|acts|].births)
    ensures Inv(ss[k]) && Inv(ss[k + 1]) && Ready(ss[k], acts[k]) && Step(ss[k], acts[k]) == Next(ss[k + 1])
    ensures var image := ImageOf(ss, acts, args, k);
            && (image.Make? ==> ss[k + 1].running && Cur(ss[k]).serial != image.id < ss[|acts|].births)
            && (image.Switch? ==> !ss[k].running && ss[k + 1].running && image.next < ss[|acts|].births
                                  && image.next != Cur(ss[k]).serial)
  {
    hide Step, Ready, Inv, Image;
    RunKeeps(ss, acts, k + 1);
    BirthsBound(ss, acts, k + 1, |acts|);
    assert Ready(ss[k], acts[k]) && Step(ss[k], acts[k]) == Next(ss[k + 1]);
    ImageFacts(ss[k], acts[k], ss[k + 1], args[k]);
  }

  /** A step of the processor for step k of the run. */
  lemma {:induction false} OneMoreStep(ss: seq<State>, acts: seq<Action>, args: seq<int>, c: C.State, k: nat)
    returns (c': C.State)
    requires Run(ss, acts) && |ss| == |acts| + 1 && |args| == |acts| && k < |acts| && AllLive(ss, ss[|acts|].births)
    requires Armed(Areas(ss[|acts|].births), ss, acts, args, c, k)
    ensures C.Steps(Areas(ss[|acts|].births), c, ImageOf(ss, acts, args, k), c')
    ensures Armed(Areas(ss[|acts|].births), ss, acts, args, c', k + 1)
  {
    hide Step, Ready, Inv, Image, X.Switched, X.FrameBuilt, X.FrameAt, AfterMake, AfterSwitch, Run, C.Disjoint;
    var areas := Areas(ss[|acts|].births);
    AreasAreDisjoint(|areas|);
    ImageOfRun(ss, acts, args, k);
    if k + 1 < |acts| {
      ImageOfRun(ss, acts, args, k + 1);
    }
    match ImageOf(ss, acts, args, k) {
      case Execute =>
        c' := ArmedFor(areas, ss, acts, args, c, k + 1);
      case Make(id, start) =>
        MakeIsPossible(areas, c, id, start);
        c' := AfterMake(areas[id], c, start);
      case Switch(next, ret) =>
        SwitchIsPossible(areas, c, next, ret);
        c' := AfterSwitch(c, next, ret);
    }
    ImageKeeps(areas, ss[k], acts[k], ss[k + 1], args[k], c, c');
  }

  /** The first steps of the processor. */
  ghost predicate Begun(areas: seq<C.Area>, ss: seq<State>, acts: seq<Action>, args: seq<int>,
                        cs: seq<C.State>, cacts: seq<C.Action>)
    requires |ss| == |acts| + 1 && |args| == |acts| && AllLive(ss, |areas|)
  {
    && |cs| == |cacts| + 1 <= |ss| && cs[0].current == Cur(ss[0]).serial
    && forall k {:trigger cacts[k]} :: 0 <= k < |cacts| ==>
         cacts[k] == ImageOf(ss, acts, args, k) && C.Steps(areas, cs[k], cacts[k], cs[k + 1])
  }

  lemma {:induction false} Begins(ss: seq<State>, acts: seq<Action>, args: seq<int>) returns (c: C.State)
    requires Run(ss, acts) && |ss| == |acts| + 1 && |args| == |acts| && AllLive(ss, ss[|acts|].births)
    ensures Begun(Areas(ss[|acts|].births), ss, acts, args, [c], [])
    ensures Armed(Areas(ss[|acts|].births), ss, acts, args, c, 0)
  {
    hide Run, Image, C.Steps, Step, Ready, Inv;
    if |acts| > 0 {
      ImageOfRun(ss, acts, args, 0);
    }
    var areas := Areas(ss[|acts|].births);
    c := ArmedFor(areas, ss, acts, args, C.State(X.FrameAt(map[], 0), map[], Cur(ss[0]).serial), 0);
  }

  lemma {:induction false} GoesOn(areas: seq<C.Area>, ss: seq<State>, acts: seq<Action>, args: seq<int>,
                                  cs: seq<C.State>, cacts: seq<C.Action>, c: C.State)
    requires |ss| == |acts| + 1 && |args| == |acts| && AllLive(ss, |areas|) && Begun(areas, ss, acts, args, cs, cacts)
    requires |cacts| < |acts| && C.Steps(areas, cs[|cacts|], ImageOf(ss, acts, args, |cacts|), c)
    ensures Begun(areas, ss, acts, args, cs + [c], cacts + [ImageOf(ss, acts, args, |cacts|)])
  {
    hide Image, C.Steps, AllLive;
  }

  lemma {:induction false} FirstSteps(ss: seq<State>, acts: seq<Action>, args: seq<int>, n: nat)
    returns (cs: seq<C.State>, cacts: seq<C.Action>)
    requires Run(ss, acts) && |ss| == |acts| + 1 && |args| == |acts| && n <= |acts| && AllLive(ss, ss[|acts|].births)
    ensures |cacts| == n && Begun(Areas(ss[|acts|].births), ss, acts, args, cs, cacts)
    ensures |cs| == n + 1 && Armed(Areas(ss[|acts|].births), ss, acts, args, cs[n], n)
  {
    hide Run, Image, C.Steps, Armed;
    if n == 0 {
      var c := Begins(ss, acts, args);
      cs, cacts := [c], [];
    } else {
      cs, cacts := FirstSteps(ss, acts, args, n - 1);
      var c := OneMoreStep(ss, acts, args, cs[n - 1], n - 1);
      GoesOn(Areas(ss[|acts|].births), ss, acts, args, cs, cacts, c);
      cs, cacts := cs + [c], cacts + [ImageOf(ss, acts, args, n - 1)];
    }
  }

  /** Every run of the state machine is the table's side of a joint run, whatever the functions of the
      coroutines and the places of the calls. */
  lemma {:induction false} EveryRunIsJoint(ss: seq<State>, acts: seq<Action>, args: seq<int>) returns (t: Trace)
    requires Run(ss, acts) && |args| == |acts|
    ensures Joint(t) && t.ss == ss && t.acts == acts && t.args == args
  {
    hide Step, Ready, Inv, Image, C.Steps, C.Disjoint;
    ExecutingAreLive(ss, acts);
    var cs, cacts := FirstSteps(ss, acts, args, |acts|);
    AreasAreDisjoint(ss[|acts|].births);
    t := Trace(ss, acts, Areas(ss[|acts|].births), cs, cacts, args);
  }
}
