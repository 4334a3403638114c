/** Whole runs of coroutines that execute their own code, create others and switch: a resumed
    coroutine finds the registers and the stack it had when it was suspended.

    Every coroutine has a task block, whose `esp` word only switch_to and co_create write, and a
    stack of its own.  The stack of the main coroutine is the process stack. */
module ContextRuns {
  import opened ContextSwitch

  datatype Area = Area(block: int, lo: int, hi: int)   // the stack is [lo, hi)

  datatype State = State(cpu: Cpu, mem: Memory, current: nat)

  datatype Action =
    | Execute                                          // the current coroutine's own code
    | Make(id: nat, start: int)                        // co_create
    | Switch(next: nat, ret: int)                      // call switch_to, returning to `ret`

  predicate InStack(area: Area, a: int) {
    area.lo <= a < area.hi
  }

  /** Stacks and the first two words of blocks, `esp` the second, do not overlap. */
  ghost predicate Disjoint(areas: seq<Area>) {
    && (forall i, j, a :: 0 <= i < j < |areas| && InStack(areas[i], a) ==> !InStack(areas[j], a))
    && (forall i, j :: 0 <= i < j < |areas| ==> areas[i].block != areas[j].block)
    && (forall i, j :: 0 <= i < |areas| && 0 <= j < |areas| ==> !InStack(areas[i], EspOf(areas[j].block)))
    && (forall i, j :: 0 <= i < |areas| && 0 <= j < |areas| ==>
          !InStack(areas[i], areas[j].block) && areas[j].block != areas[i].block + 1)
  }

  /** Own code may change the registers at will, and memory except other stacks and `esp` words. */
  ghost predicate Executes(areas: seq<Area>, s: State, s': State) {
    && s'.current == s.current
    && (forall j, a :: 0 <= j < |areas| && j != s.current && InStack(areas[j], a) ==> Load(s'.mem, a) == Load(s.mem, a))
    && (forall j :: 0 <= j < |areas| ==> Load(s'.mem, EspOf(areas[j].block)) == Load(s.mem, EspOf(areas[j].block)))
  }

  ghost predicate Makes(areas: seq<Area>, s: State, id: nat, start: int, s': State) {
    && id < |areas| && id != s.current && areas[id].hi == areas[id].lo + STACK_SIZE
    && FrameBuilt(s.mem, areas[id].block, start, areas[id].lo, s'.mem)
    && s'.cpu == s.cpu && s'.current == s.current
  }

  /** The call of switch_to in co_switch_to: the arguments are in rdi and rsi, and the stack has room
      for the return address and the frame. */
  ghost predicate Switches(areas: seq<Area>, s: State, next: nat, ret: int, s': State) {
    var c := s.cpu;
    && s.current < |areas| && next < |areas| && next != s.current
    && c.rdi == areas[s.current].block && c.rsi == areas[next].block
    && areas[s.current].lo + 17 <= c.rsp <= areas[s.current].hi
    && Switched(c.(rsp := c.rsp - 1), s.mem[c.rsp - 1 := ret], s'.cpu, s'.mem)
    && s'.current == next
  }

  ghost predicate Steps(areas: seq<Area>, s: State, a: Action, s': State) {
    match a
    case Execute => Executes(areas, s, s')
    case Make(id, start) => Makes(areas, s, id, start, s')
    case Switch(next, ret) => Switches(areas, s, next, ret, s')
  }

  ghost predicate Run(areas: seq<Area>, ss: seq<State>, acts: seq<Action>) {
    && Disjoint(areas)
    && |ss| == |acts| + 1
    && forall k {:trigger acts[k]} :: 0 <= k < |acts| ==> Steps(areas, ss[k], acts[k], ss[k + 1])
  }

  /** The context a switch interrupts: the caller's registers, about to continue at `ret`. */
  function Interrupted(s: State, ret: int): Cpu {
    s.cpu.(rip := ret)
  }

  /** Coroutine i sleeps in context `ctx`, with the stack it had in memory `before`. */
  ghost predicate Frozen(areas: seq<Area>, s: State, i: nat, ctx: Cpu, before: Memory) {
    && i < |areas| && i != s.current
    && areas[i].lo <= ctx.rsp - 17 && ctx.rsp <= areas[i].hi
    && Load(s.mem, EspOf(areas[i].block)) == ctx.rsp - 17
    && FrameAt(s.mem, ctx.rsp - 17) == ctx
    && SameStack(areas[i], ctx.rsp, before, s.mem)
  }

  ghost predicate SameStack(area: Area, rsp: int, before: Memory, mem: Memory) {
    forall a :: InStack(area, a) && rsp <= a ==> Load(mem, a) == Load(before, a)
  }

  ghost predicate Untouched(area: Area, mem: Memory, mem': Memory) {
    && (forall a :: InStack(area, a) ==> Load(mem', a) == Load(mem, a))
    && Load(mem', EspOf(area.block)) == Load(mem, EspOf(area.block))
  }

  predicate Disturbs(a: Action, i: nat) {
    (a.Make? && a.id == i) || (a.Switch? && a.next == i)
  }

  /** Other coroutines, and switches among them, do not touch a sleeping one. */
  lemma {:induction false} StepIsApart(areas: seq<Area>, s: State, a: Action, s': State, i: nat)
    requires Disjoint(areas) && Steps(areas, s, a, s') && i < |areas| && i != s.current && !Disturbs(a, i)
    ensures Untouched(areas[i], s.mem, s'.mem) && i != s'.current
  {
    match a
    case Execute =>
    case Make(id, start) => MakeIsApart(areas, s, id, start, s', i);
    case Switch(next, ret) => SwitchIsApart(areas, s, next, ret, s', i);
  }

  lemma {:induction false} MakeIsApart(areas: seq<Area>, s: State, id: nat, start: int, s': State, i: nat)
    requires Disjoint(areas) && Makes(areas, s, id, start, s') && i < |areas| && i != id
    ensures Untouched(areas[i], s.mem, s'.mem)
  {
    hide FrameAt, Load;
    forall a | InStack(areas[i], a)
      ensures Load(s'.mem, a) == Load(s.mem, a)
    {
      assert !InStack(areas[id], a) && a != EspOf(areas[id].block);
    }
    assert !InStack(areas[id], EspOf(areas[i].block));
  }

  lemma {:induction false} SwitchIsApart(areas: seq<Area>, s: State, next: nat, ret: int, s': State, i: nat)
    requires Disjoint(areas) && Switches(areas, s, next, ret, s') && i < |areas| && i != s.current
    ensures Untouched(areas[i], s.mem, s'.mem)
  {
    hide FrameAt;
    forall a | InStack(areas[i], a)
      ensures Load(s'.mem, a) == Load(s.mem, a)
    {
      assert !InStack(areas[s.current], a) && a != EspOf(areas[s.current].block);
    }
    assert !InStack(areas[s.current], EspOf(areas[i].block));
  }

  lemma {:induction false} FrozenStays(areas: seq<Area>, s: State, s': State, i: nat, ctx: Cpu, before: Memory)
    requires Frozen(areas, s, i, ctx, before) && Untouched(areas[i], s.mem, s'.mem) && i != s'.current
    ensures Frozen(areas, s', i, ctx, before)
  {
    hide Load;
  }

  /** A switch freezes the coroutine it leaves, in the context it was called in. */
  lemma {:induction false} SwitchFreezes(areas: seq<Area>, s: State, next: nat, ret: int, s': State)
    requires Disjoint(areas) && Switches(areas, s, next, ret, s')
    ensures Frozen(areas, s', s.current, Interrupted(s, ret), s.mem)
  {
    hide FrameAt;
    var area := areas[s.current];
    forall a | InStack(area, a) && s.cpu.rsp <= a
      ensures Load(s'.mem, a) == Load(s.mem, a)
    {
      assert a != EspOf(area.block);
    }
  }

  lemma {:induction false} MakeFreezes(areas: seq<Area>, s: State, id: nat, start: int, s': State)
    requires Makes(areas, s, id, start, s')
    ensures Frozen(areas, s', id, FirstContext(areas[id].block, start, areas[id].lo), s'.mem)
  {
    hide FrameAt, Load;
  }

  /** A switch to a sleeping coroutine puts its context back. */
  lemma {:induction false} SwitchThaws(areas: seq<Area>, s: State, next: nat, ret: int, s': State, ctx: Cpu,
                                       before: Memory)
    requires Disjoint(areas) && Frozen(areas, s, next, ctx, before) && Switches(areas, s, next, ret, s')
    ensures s'.cpu == ctx && SameStack(areas[next], ctx.rsp, before, s'.mem)
  {
    hide Load;
    SwitchIsApart(areas, s, next, ret, s', next);
    forall a | ctx.rsp - 17 <= a < ctx.rsp
      ensures Load(s'.mem, a) == Load(s.mem, a)
    {
      assert InStack(areas[next], a);
    }
  }

  lemma {:induction false} SleepsOn(areas: seq<Area>, ss: seq<State>, acts: seq<Action>, i: nat, ctx: Cpu,
                                    before: Memory, n: nat, m: nat)
    requires Run(areas, ss, acts) && n <= m < |ss|
    requires Frozen(areas, ss[n], i, ctx, before)
    requires forall k :: n <= k < m ==> !Disturbs(acts[k], i)
    ensures Frozen(areas, ss[m], i, ctx, before)
  {
    hide Frozen, Steps, Untouched;
    if n < m {
      SleepsOn(areas, ss, acts, i, ctx, before, n, m - 1);
      FrozenIsOther(areas, ss[m - 1], i, ctx, before);
      assert Steps(areas, ss[m - 1], acts[m - 1], ss[m]);
      StepIsApart(areas, ss[m - 1], acts[m - 1], ss[m], i);
      FrozenStays(areas, ss[m - 1], ss[m], i, ctx, before);
    }
  }

  lemma FrozenIsOther(areas: seq<Area>, s: State, i: nat, ctx: Cpu, before: Memory)
    requires Frozen(areas, s, i, ctx, before)
    ensures i < |areas| && i != s.current
  {
  }

  /** Context isolation: a coroutine suspended by step n and next resumed by step m continues with
      exactly the registers it had, at the return address of its call, and with its stack intact,
      whatever the others did in between. */
  lemma {:induction false} ContextIsolation(areas: seq<Area>, ss: seq<State>, acts: seq<Action>, n: nat, m: nat)
    requires Run(areas, ss, acts) && n < m < |acts| && acts[n].Switch?
    requires acts[m].Switch? && acts[m].next == ss[n].current
    requires forall k :: n < k < m ==> !Disturbs(acts[k], ss[n].current)
    ensures ss[m + 1].current == ss[n].current
    ensures ss[m + 1].cpu == ss[n].cpu.(rip := acts[n].ret)
    ensures SameStack(areas[ss[n].current], ss[n].cpu.rsp, ss[n].mem, ss[m + 1].mem)
  {
    var i, ctx := ss[n].current, Interrupted(ss[n], acts[n].ret);
    hide Frozen, Switched;
    assert Steps(areas, ss[n], acts[n], ss[n + 1]) && Steps(areas, ss[m], acts[m], ss[m + 1]);
    SwitchFreezes(areas, ss[n], acts[n].next, acts[n].ret, ss[n + 1]);
    SleepsOn(areas, ss, acts, i, ctx, ss[n].mem, n + 1, m);
    SwitchThaws(areas, ss[m], i, acts[m].ret, ss[m + 1], ctx, ss[n].mem);
  }

  /** First dispatch: a new coroutine enters `start` with its task block as first argument and its
      stack pointer at the last word of its stack, which holds the dummy return address. */
  lemma {:induction false} FirstDispatch(areas: seq<Area>, ss: seq<State>, acts: seq<Action>, n: nat, m: nat)
    requires Run(areas, ss, acts) && n < m < |acts| && acts[n].Make?
    requires acts[m].Switch? && acts[m].next == acts[n].id
    requires forall k :: n < k < m ==> !Disturbs(acts[k], acts[n].id)
    ensures acts[n].id < |areas|
    ensures var c, area := ss[m + 1].cpu, areas[acts[n].id];
            c.rip == acts[n].start && c.rdi == area.block && c.rsp == area.hi - 1 && Load(ss[m + 1].mem, c.rsp) == 100
  {
    var i := acts[n].id;
    hide Frozen, Switched, FrameAt, Load;
    assert Steps(areas, ss[n], acts[n], ss[n + 1]) && Steps(areas, ss[m], acts[m], ss[m + 1]);
    var ctx := FirstContext(areas[i].block, acts[n].start, areas[i].lo);
    MakeFreezes(areas, ss[n], i, acts[n].start, ss[n + 1]);
    SleepsOn(areas, ss, acts, i, ctx, ss[n + 1].mem, n + 1, m);
    SwitchThaws(areas, ss[m], i, acts[m].ret, ss[m + 1], ctx, ss[n + 1].mem);
    assert InStack(areas[i], ctx.rsp);
  }

  /** A switch or a creation writes stack words and second words of blocks, and nothing else. */
  lemma {:induction false} StepWrites(areas: seq<Area>, s: State, a: Action, s': State, w: int)
    requires Disjoint(areas) && Steps(areas, s, a, s') && !a.Execute?
    requires forall j :: 0 <= j < |areas| ==> !InStack(areas[j], w) && w != areas[j].block + 1
    ensures Load(s'.mem, w) == Load(s.mem, w)
  {
    hide FrameAt, Load, EspOf;
    match a
    case Make(id, start) =>
      FrameByWords(s.mem, areas[id].block, start, areas[id].lo, s'.mem);
    case Switch(next, ret) =>
      SwitchByWords(s.cpu.(rsp := s.cpu.rsp - 1), s.mem[s.cpu.rsp - 1 := ret], s'.cpu, s'.mem);
      assert InStack(areas[s.current], s.cpu.rsp - 1);
      StoreLoad(s.mem, s.cpu.rsp - 1, ret);
  }

  /** The first word of a block, where `id` and `wakeuptime` are, is changed on a run by nobody but the
      coroutines' own code. */
  lemma {:induction false} FirstWordStays(areas: seq<Area>, ss: seq<State>, acts: seq<Action>, i: nat, n: nat, m: nat)
    requires Run(areas, ss, acts) && n <= m < |ss| && i < |areas|
    requires forall k :: n <= k < m && acts[k].Execute? ==>
               Load(ss[k + 1].mem, areas[i].block) == Load(ss[k].mem, areas[i].block)
    ensures Load(ss[m].mem, areas[i].block) == Load(ss[n].mem, areas[i].block)
  {
    hide Steps, Load;
    if n < m {
      FirstWordStays(areas, ss, acts, i, n, m - 1);
      assert Steps(areas, ss[m - 1], acts[m - 1], ss[m]);
      if !acts[m - 1].Execute? {
        StepWrites(areas, ss[m - 1], acts[m - 1], ss[m], areas[i].block);
      }
    }
  }
}
