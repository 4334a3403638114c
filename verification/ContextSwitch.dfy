/** The x86-64 `switch_to` of src/switch.S and the first frame that co_create builds for it.

    Memory is counted in 64-bit words: the C offset 8 of `esp` in a task block is word 1, and a
    push lowers the stack pointer by one. */
module ContextSwitch {
  type Memory = map<int, int>

  const STACK_SIZE: int := 1024 * 128

  datatype Cpu = Cpu(
    rax: int, rbx: int, rcx: int, rdx: int, rsi: int, rdi: int, rbp: int, rsp: int,
    r8: int, r9: int, r10: int, r11: int, r12: int, r13: int, r14: int, r15: int,
    flags: int, rip: int)

  function Load(mem: Memory, a: int): int {
    if a in mem then mem[a] else 0
  }

  /** The context that a saved frame at `sp` stands for: what the registers are after the sixteen
      pops and the ret. */
  function FrameAt(mem: Memory, sp: int): Cpu {
    Cpu(
      r15 := Load(mem, sp), r14 := Load(mem, sp + 1), r13 := Load(mem, sp + 2), r12 := Load(mem, sp + 3),
      r11 := Load(mem, sp + 4), r10 := Load(mem, sp + 5), r9 := Load(mem, sp + 6), r8 := Load(mem, sp + 7),
      flags := Load(mem, sp + 8), rax := Load(mem, sp + 9), rcx := Load(mem, sp + 10), rdx := Load(mem, sp + 11),
      rbx := Load(mem, sp + 12), rsi := Load(mem, sp + 13), rdi := Load(mem, sp + 14), rbp := Load(mem, sp + 15),
      rip := Load(mem, sp + 16), rsp := sp + 17)
  }

  /** The context a caller of switch_to expects to get back: its registers, with the return address
      popped off the stack. */
  function Caller(c: Cpu, mem: Memory): Cpu {
    c.(rip := Load(mem, c.rsp), rsp := c.rsp + 1)
  }

  /** The word that holds `esp` in a task block. */
  function EspOf(block: int): int {
    block + 1
  }

  /** What switch_to does, told by its effect: the caller's context lies as a frame under the old
      stack pointer, its address is in the caller's block, nothing else in memory has changed, and
      the registers are those of the other block's frame. */
  ghost predicate Switched(c: Cpu, mem: Memory, c': Cpu, mem': Memory) {
    var sp := c.rsp - 16;
    && FrameAt(mem', sp) == Caller(c, mem)
    && Load(mem', EspOf(c.rdi)) == sp
    && (forall a :: !(sp <= a < c.rsp) && a != EspOf(c.rdi) ==> Load(mem', a) == Load(mem, a))
    && c' == FrameAt(mem', Load(mem', EspOf(c.rsi)))
  }

  /** The words co_create writes into a new block whose stack starts at `stack`. */
  function FirstContext(tsk: int, start: int, stack: int): Cpu {
    Cpu(
      r15 := 15, r14 := 14, r13 := 13, r12 := 12, r11 := 11, r10 := 10, r9 := 9, r8 := 8,
      flags := 7, rax := 6, rcx := 5, rdx := 4, rbx := 3, rsi := 2, rdi := tsk, rbp := 0,
      rip := start, rsp := stack + STACK_SIZE - 1)
  }

  ghost predicate FrameBuilt(mem: Memory, tsk: int, start: int, stack: int, mem': Memory) {
    var sp := stack + STACK_SIZE - 18;
    && FrameAt(mem', sp) == FirstContext(tsk, start, stack)
    && Load(mem', sp + 17) == 100
    && Load(mem', EspOf(tsk)) == sp
    && (forall a :: !(sp <= a < sp + 18) && a != EspOf(tsk) ==> Load(mem', a) == Load(mem, a))
  }

  /** The same word by word: where switch_to puts what, for a caller with stack pointer `sp`, what it loads,
      and that it writes nothing else.  In particular the first word of a block, `id` and `wakeuptime`,
      stays. */
  lemma {:induction false} SwitchByWords(c: Cpu, mem: Memory, c': Cpu, mem': Memory)
    requires Switched(c, mem, c', mem')
    ensures var sp := c.rsp;
            && Load(mem', sp - 1) == c.rbp && Load(mem', sp - 2) == c.rdi && Load(mem', sp - 3) == c.rsi
            && Load(mem', sp - 4) == c.rbx && Load(mem', sp - 5) == c.rdx && Load(mem', sp - 6) == c.rcx
            && Load(mem', sp - 7) == c.rax && Load(mem', sp - 8) == c.flags && Load(mem', sp - 9) == c.r8
            && Load(mem', sp - 10) == c.r9 && Load(mem', sp - 11) == c.r10 && Load(mem', sp - 12) == c.r11
            && Load(mem', sp - 13) == c.r12 && Load(mem', sp - 14) == c.r13 && Load(mem', sp - 15) == c.r14
            && Load(mem', sp - 16) == c.r15
            && Load(mem', c.rdi + 1) == sp - 16
            && forall a :: !(sp - 16 <= a < sp) && a != c.rdi + 1 ==> Load(mem', a) == Load(mem, a)
    ensures var sp := Load(mem', c.rsi + 1);
            && c'.r15 == Load(mem', sp) && c'.r14 == Load(mem', sp + 1) && c'.r13 == Load(mem', sp + 2)
            && c'.r12 == Load(mem', sp + 3) && c'.r11 == Load(mem', sp + 4) && c'.r10 == Load(mem', sp + 5)
            && c'.r9 == Load(mem', sp + 6) && c'.r8 == Load(mem', sp + 7) && c'.flags == Load(mem', sp + 8)
            && c'.rax == Load(mem', sp + 9) && c'.rcx == Load(mem', sp + 10) && c'.rdx == Load(mem', sp + 11)
            && c'.rbx == Load(mem', sp + 12) && c'.rsi == Load(mem', sp + 13) && c'.rdi == Load(mem', sp + 14)
            && c'.rbp == Load(mem', sp + 15) && c'.rip == Load(mem', sp + 16) && c'.rsp == sp + 17
    ensures !(c.rsp - 16 <= c.rdi < c.rsp) ==> Load(mem', c.rdi) == Load(mem, c.rdi)
    ensures c.rsi != c.rdi + 1 && !(c.rsp - 16 <= c.rsi < c.rsp) ==> Load(mem', c.rsi) == Load(mem, c.rsi)
  {
    hide Load;
    var frame := FrameAt(mem', c.rsp - 16);
    assert frame.r15 == c.r15 && frame.rbp == c.rbp;
  }

  /** And where co_create puts what, on a stack of 131072 words that ends at `top`. */
  lemma {:induction false} FrameByWords(mem: Memory, tsk: int, start: int, stack: int, mem': Memory)
    requires FrameBuilt(mem, tsk, start, stack, mem')
    ensures var top := stack + 131072;
            && Load(mem', top - 18) == 15 && Load(mem', top - 17) == 14 && Load(mem', top - 16) == 13
            && Load(mem', top - 15) == 12 && Load(mem', top - 14) == 11 && Load(mem', top - 13) == 10
            && Load(mem', top - 12) == 9 && Load(mem', top - 11) == 8 && Load(mem', top - 10) == 7
            && Load(mem', top - 9) == 6 && Load(mem', top - 8) == 5 && Load(mem', top - 7) == 4
            && Load(mem', top - 6) == 3 && Load(mem', top - 5) == 2 && Load(mem', top - 4) == tsk
            && Load(mem', top - 3) == 0 && Load(mem', top - 2) == start && Load(mem', top - 1) == 100
            && Load(mem', tsk + 1) == top - 18
            && forall a :: !(top - 18 <= a < top) && a != tsk + 1 ==> Load(mem', a) == Load(mem, a)
    ensures !(stack <= tsk < stack + STACK_SIZE) ==> Load(mem', tsk) == Load(mem, tsk)
  {
    hide Load;
    var frame := FrameAt(mem', stack + STACK_SIZE - 18);
    assert frame.r15 == 15 && frame.rbp == 0;
  }

  datatype Reg = RAX | RBX | RCX | RDX | RSI | RDI | RBP | R8 | R9 | R10 | R11 | R12 | R13 | R14 | R15 | FLAGS | RIP

  function Get(c: Cpu, r: Reg): int {
    match r
    case RAX => c.rax
    case RBX => c.rbx
    case RCX => c.rcx
    case RDX => c.rdx
    case RSI => c.rsi
    case RDI => c.rdi
    case RBP => c.rbp
    case R8 => c.r8
    case R9 => c.r9
    case R10 => c.r10
    case R11 => c.r11
    case R12 => c.r12
    case R13 => c.r13
    case R14 => c.r14
    case R15 => c.r15
    case FLAGS => c.flags
    case RIP => c.rip
  }

  function Set(c: Cpu, r: Reg, v: int): Cpu {
    match r
    case RAX => c.(rax := v)
    case RBX => c.(rbx := v)
    case RCX => c.(rcx := v)
    case RDX => c.(rdx := v)
    case RSI => c.(rsi := v)
    case RDI => c.(rdi := v)
    case RBP => c.(rbp := v)
    case R8 => c.(r8 := v)
    case R9 => c.(r9 := v)
    case R10 => c.(r10 := v)
    case R11 => c.(r11 := v)
    case R12 => c.(r12 := v)
    case R13 => c.(r13 := v)
    case R14 => c.(r14 := v)
    case R15 => c.(r15 := v)
    case FLAGS => c.(flags := v)
    case RIP => c.(rip := v)
  }

  /** Where in a frame a register lies; the return address is on top. */
  function Slot(r: Reg): int {
    match r
    case R15 => 0
    case R14 => 1
    case R13 => 2
    case R12 => 3
    case R11 => 4
    case R10 => 5
    case R9 => 6
    case R8 => 7
    case FLAGS => 8
    case RAX => 9
    case RCX => 10
    case RDX => 11
    case RBX => 12
    case RSI => 13
    case RDI => 14
    case RBP => 15
    case RIP => 16
  }

  /** The registers whose slots of the frame at `sp` the stack pointer has passed are restored. */
  ghost predicate Restored(sp: int, mem: Memory, c: Cpu) {
    forall r :: sp + Slot(r) < c.rsp ==> Get(c, r) == Load(mem, sp + Slot(r))
  }

  function Popped(c: Cpu, mem: Memory, r: Reg): Cpu {
    Set(c, r, Load(mem, c.rsp)).(rsp := c.rsp + 1)
  }

  lemma NothingRestored(mem: Memory, c: Cpu)
    ensures Restored(c.rsp, mem, c)
  {
  }

  lemma AllRestored(sp: int, mem: Memory, c: Cpu)
    requires Restored(sp, mem, c) && c.rsp == sp + 17
    ensures c == FrameAt(mem, sp)
  {
    forall r: Reg
      ensures Get(c, r) == Get(FrameAt(mem, sp), r)
    {
    }
    SameRegisters(c, FrameAt(mem, sp));
  }

  lemma SameRegisters(c: Cpu, d: Cpu)
    requires c.rsp == d.rsp && forall r :: Get(c, r) == Get(d, r)
    ensures c == d
  {
    assert Get(c, RAX) == Get(d, RAX) && Get(c, RBX) == Get(d, RBX) && Get(c, RCX) == Get(d, RCX);
    assert Get(c, RDX) == Get(d, RDX) && Get(c, RSI) == Get(d, RSI) && Get(c, RDI) == Get(d, RDI);
    assert Get(c, RBP) == Get(d, RBP) && Get(c, R8) == Get(d, R8) && Get(c, R9) == Get(d, R9);
    assert Get(c, R10) == Get(d, R10) && Get(c, R11) == Get(d, R11) && Get(c, R12) == Get(d, R12);
    assert Get(c, R13) == Get(d, R13) && Get(c, R14) == Get(d, R14) && Get(c, R15) == Get(d, R15);
    assert Get(c, FLAGS) == Get(d, FLAGS) && Get(c, RIP) == Get(d, RIP);
  }

  /** Pushing the frame of context `d`: the registers whose slots lie above the stack pointer are
      saved, the others still hold their values, and the rest of memory is as `before`. */
  ghost predicate Saved(d: Cpu, before: Memory, mem: Memory, c: Cpu) {
    var sp := d.rsp - 17;
    && (forall r :: sp + Slot(r) >= c.rsp ==> Load(mem, sp + Slot(r)) == Get(d, r))
    && (forall r :: r != RBP && r != RIP ==> Get(c, r) == Get(d, r))
    && (forall a :: !(c.rsp <= a < sp + 16) ==> Load(mem, a) == Load(before, a))
  }

  /** Register r is the next to push. */
  predicate CanSave(d: Cpu, c: Cpu, r: Reg) {
    c.rsp == d.rsp - 16 + Slot(r) && r != RIP && (r == RBP ==> c.rbp == d.rbp)
  }

  lemma PushSaves(d: Cpu, before: Memory, mem: Memory, c: Cpu, r: Reg)
    requires Saved(d, before, mem, c) && CanSave(d, c, r)
    ensures Saved(d, before, mem[c.rsp - 1 := Get(c, r)], c.(rsp := c.rsp - 1))
  {
  }

  lemma RbpIsSaved(d: Cpu, before: Memory, mem: Memory, c: Cpu, rbp: int)
    requires Saved(d, before, mem, c)
    ensures Saved(d, before, mem, c.(rbp := rbp))
  {
  }

  lemma NothingSaved(c: Cpu, mem: Memory)
    ensures Saved(Caller(c, mem), mem, mem, c)
  {
  }

  lemma AllSaved(d: Cpu, before: Memory, mem: Memory, c: Cpu)
    requires Saved(d, before, mem, c) && c.rsp == d.rsp - 17
    ensures FrameAt(mem, c.rsp) == d && c.rdi == d.rdi && c.rsi == d.rsi
    ensures forall a :: !(c.rsp <= a < c.rsp + 16) ==> Load(mem, a) == Load(before, a)
  {
    forall r: Reg
      ensures Get(FrameAt(mem, c.rsp), r) == Get(d, r)
    {
      assert Load(mem, c.rsp + Slot(r)) == Get(d, r);
    }
    SameRegisters(FrameAt(mem, c.rsp), d);
    assert Get(c, RDI) == Get(d, RDI) && Get(c, RSI) == Get(d, RSI);
  }

  lemma StoreApart(mem: Memory, a: int, v: int, sp: int)
    requires !(sp <= a < sp + 17)
    ensures FrameAt(mem[a := v], sp) == FrameAt(mem, sp)
  {
  }

  /** The new frame of context `d` at `sp`, built up to address `top`. */
  ghost predicate Built(d: Cpu, before: Memory, mem: Memory, sp: int, top: int) {
    && (forall r :: sp + Slot(r) < top ==> Load(mem, sp + Slot(r)) == Get(d, r))
    && (forall a :: !(sp <= a < top) ==> Load(mem, a) == Load(before, a))
  }

  lemma NothingBuilt(d: Cpu, mem: Memory, sp: int)
    ensures Built(d, mem, mem, sp, sp)
  {
  }

  lemma StoreLoad(mem: Memory, a: int, v: int)
    ensures Load(mem[a := v], a) == v && forall b :: b != a ==> Load(mem[a := v], b) == Load(mem, b)
  {
  }

  lemma AllBuilt(d: Cpu, before: Memory, mem: Memory, sp: int)
    requires Built(d, before, mem, sp, sp + 17) && d.rsp == sp + 17
    ensures FrameAt(mem, sp) == d && forall a :: !(sp <= a < sp + 17) ==> Load(mem, a) == Load(before, a)
  {
    forall r: Reg
      ensures Get(FrameAt(mem, sp), r) == Get(d, r)
    {
      assert Load(mem, sp + Slot(r)) == Get(d, r);
    }
    SameRegisters(FrameAt(mem, sp), d);
  }

  class Machine {
    var cpu: Cpu
    var mem: Memory

    method Push(r: Reg)
      modifies `cpu, `mem
      ensures mem == old(mem)[cpu.rsp := Get(old(cpu), r)] && cpu == old(cpu).(rsp := old(cpu).rsp - 1)
      ensures forall d, before ::
                Saved(d, before, old(mem), old(cpu)) && CanSave(d, old(cpu), r) ==> Saved(d, before, mem, cpu)
    {
      cpu := cpu.(rsp := cpu.rsp - 1);
      mem := mem[cpu.rsp := Get(cpu, r)];
      forall d, before | Saved(d, before, old(mem), old(cpu)) && CanSave(d, old(cpu), r)
        ensures Saved(d, before, mem, cpu)
      {
        PushSaves(d, before, old(mem), old(cpu), r);
      }
    }

    method Pop(r: Reg)
      modifies `cpu
      ensures cpu == Popped(old(cpu), mem, r) && cpu.rsp == old(cpu).rsp + 1
      ensures forall sp :: Restored(sp, mem, old(cpu)) && old(cpu).rsp == sp + Slot(r) ==> Restored(sp, mem, cpu)
    {
      cpu := Popped(cpu, mem, r);
    }

    // the pops of switch_to, in four groups
    method PopR15ToR12(ghost sp: int)
      requires Restored(sp, mem, cpu) && cpu.rsp == sp + Slot(R15)
      modifies `cpu
      ensures Restored(sp, mem, cpu) && cpu.rsp == old(cpu).rsp + 4
    {
      hide Load, Restored, Get, Popped;
      Pop(R15);
      Pop(R14);
      Pop(R13);
      Pop(R12);
    }

    method PopR11ToR8(ghost sp: int)
      requires Restored(sp, mem, cpu) && cpu.rsp == sp + Slot(R11)
      modifies `cpu
      ensures Restored(sp, mem, cpu) && cpu.rsp == old(cpu).rsp + 4
    {
      hide Load, Restored, Get, Popped;
      Pop(R11);
      Pop(R10);
      Pop(R9);
      Pop(R8);
    }

    method PopFlagsToRdx(ghost sp: int)
      requires Restored(sp, mem, cpu) && cpu.rsp == sp + Slot(FLAGS)
      modifies `cpu
      ensures Restored(sp, mem, cpu) && cpu.rsp == old(cpu).rsp + 4
    {
      hide Load, Restored, Get, Popped;
      Pop(FLAGS);
      Pop(RAX);
      Pop(RCX);
      Pop(RDX);
    }

    method PopRbxToRet(ghost sp: int)
      requires Restored(sp, mem, cpu) && cpu.rsp == sp + Slot(RBX)
      modifies `cpu
      ensures Restored(sp, mem, cpu) && cpu.rsp == old(cpu).rsp + 5
    {
      hide Load, Restored, Get, Popped;
      Pop(RBX);
      Pop(RSI);
      Pop(RDI);
      Pop(RBP);
      Pop(RIP);
    }

    /** The sixteen pops and the ret. */
    method Restore()
      modifies `cpu
      ensures cpu == FrameAt(mem, old(cpu).rsp)
    {
      hide Load, Restored, FrameAt;
      ghost var sp := cpu.rsp;
      NothingRestored(mem, cpu);
      PopR15ToR12(sp);
      PopR11ToR8(sp);
      PopFlagsToRdx(sp);
      PopRbxToRet(sp);
      AllRestored(sp, mem, cpu);
    }

    // the pushes of switch_to, in four groups
    method PushRbpToRbx(ghost d: Cpu, ghost before: Memory)
      requires Saved(d, before, mem, cpu) && cpu.rsp == d.rsp - 16 + Slot(RBP) && cpu.rbp == d.rbp
      modifies `cpu, `mem
      ensures Saved(d, before, mem, cpu) && cpu.rsp == old(cpu).rsp - 4
    {
      hide Load, Saved, Get;
      Push(RBP);
      RbpIsSaved(d, before, mem, cpu, cpu.rsp);
      cpu := cpu.(rbp := cpu.rsp);
      Push(RDI);
      Push(RSI);
      Push(RBX);
    }

    method PushRdxToFlags(ghost d: Cpu, ghost before: Memory)
      requires Saved(d, before, mem, cpu) && cpu.rsp == d.rsp - 16 + Slot(RDX)
      modifies `cpu, `mem
      ensures Saved(d, before, mem, cpu) && cpu.rsp == old(cpu).rsp - 4
    {
      hide Load, Saved, Get;
      Push(RDX);
      Push(RCX);
      Push(RAX);
      Push(FLAGS);
    }

    method PushR8ToR11(ghost d: Cpu, ghost before: Memory)
      requires Saved(d, before, mem, cpu) && cpu.rsp == d.rsp - 16 + Slot(R8)
      modifies `cpu, `mem
      ensures Saved(d, before, mem, cpu) && cpu.rsp == old(cpu).rsp - 4
    {
      hide Load, Saved, Get;
      Push(R8);
      Push(R9);
      Push(R10);
      Push(R11);
    }

    method PushR12ToR15(ghost d: Cpu, ghost before: Memory)
      requires Saved(d, before, mem, cpu) && cpu.rsp == d.rsp - 16 + Slot(R12)
      modifies `cpu, `mem
      ensures Saved(d, before, mem, cpu) && cpu.rsp == old(cpu).rsp - 4
    {
      hide Load, Saved, Get;
      Push(R12);
      Push(R13);
      Push(R14);
      Push(R15);
    }

    /** The sixteen pushes. */
    method Save()
      modifies `cpu, `mem
      ensures cpu.rsp == old(cpu).rsp - 16 && cpu.rdi == old(cpu).rdi && cpu.rsi == old(cpu).rsi
      ensures FrameAt(mem, cpu.rsp) == Caller(old(cpu), old(mem))
      ensures forall a :: !(cpu.rsp <= a < old(cpu).rsp) ==> Load(mem, a) == Load(old(mem), a)
    {
      hide Load, Saved, FrameAt;
      ghost var d, before := Caller(cpu, mem), mem;
      NothingSaved(cpu, mem);
      PushRbpToRbx(d, before);
      PushRdxToFlags(d, before);
      PushR8ToR11(d, before);
      PushR12ToR15(d, before);
      AllSaved(d, before, mem, cpu);
    }

    /** switch_to, entered by a call.  The frame must not overlap the block's own `esp`. */
    method SwitchTo()
      requires !(cpu.rsp - 16 <= EspOf(cpu.rdi) <= cpu.rsp)
      modifies this
      ensures Switched(old(cpu), old(mem), cpu, mem)
      ensures Load(mem, old(cpu).rdi + 1) == old(cpu).rsp - 16
      ensures forall a :: !(old(cpu).rsp - 16 <= a < old(cpu).rsp) && a != old(cpu).rdi + 1 ==>
                Load(mem, a) == Load(old(mem), a)
    {
      hide Load, FrameAt;
      Save();
      StoreApart(mem, EspOf(cpu.rdi), cpu.rsp, cpu.rsp);
      StoreLoad(mem, EspOf(cpu.rdi), cpu.rsp);
      cpu := cpu.(rax := cpu.rdi);
      mem := mem[cpu.rax + 1 := cpu.rsp];
      cpu := cpu.(rax := cpu.rsi);
      cpu := cpu.(rsp := Load(mem, cpu.rax + 1));
      Restore();
    }

    method Store(a: int, v: int, ghost r: Reg)
      modifies `mem
      ensures mem == old(mem)[a := v]
      ensures forall d, before, sp ::
                Built(d, before, old(mem), sp, a) && a == sp + Slot(r) && v == Get(d, r) ==>
                  Built(d, before, mem, sp, a + 1)
    {
      mem := mem[a := v];
    }

    // co_create's assignments to the new stack, in four groups
    method StoreR15ToR12(ghost before: Memory, tsk: int, start: int, stack: int)
      requires Built(FirstContext(tsk, start, stack), before, mem, stack + STACK_SIZE - 18, stack + STACK_SIZE - 18)
      modifies `mem
      ensures Built(FirstContext(tsk, start, stack), before, mem, stack + STACK_SIZE - 18, stack + STACK_SIZE - 14)
    {
      hide Load, Built;
      Store(stack + STACK_SIZE - 18, 15, R15);
      Store(stack + STACK_SIZE - 17, 14, R14);
      Store(stack + STACK_SIZE - 16, 13, R13);
      Store(stack + STACK_SIZE - 15, 12, R12);
    }

    method StoreR11ToR8(ghost before: Memory, tsk: int, start: int, stack: int)
      requires Built(FirstContext(tsk, start, stack), before, mem, stack + STACK_SIZE - 18, stack + STACK_SIZE - 14)
      modifies `mem
      ensures Built(FirstContext(tsk, start, stack), before, mem, stack + STACK_SIZE - 18, stack + STACK_SIZE - 10)
    {
      hide Load, Built;
      Store(stack + STACK_SIZE - 14, 11, R11);
      Store(stack + STACK_SIZE - 13, 10, R10);
      Store(stack + STACK_SIZE - 12, 9, R9);
      Store(stack + STACK_SIZE - 11, 8, R8);
    }

    method StoreFlagsToRdx(ghost before: Memory, tsk: int, start: int, stack: int)
      requires Built(FirstContext(tsk, start, stack), before, mem, stack + STACK_SIZE - 18, stack + STACK_SIZE - 10)
      modifies `mem
      ensures Built(FirstContext(tsk, start, stack), before, mem, stack + STACK_SIZE - 18, stack + STACK_SIZE - 6)
    {
      hide Load, Built;
      Store(stack + STACK_SIZE - 10, 7, FLAGS);
      Store(stack + STACK_SIZE - 9, 6, RAX);
      Store(stack + STACK_SIZE - 8, 5, RCX);
      Store(stack + STACK_SIZE - 7, 4, RDX);
    }

    method StoreRbxToRet(ghost before: Memory, tsk: int, start: int, stack: int)
      requires Built(FirstContext(tsk, start, stack), before, mem, stack + STACK_SIZE - 18, stack + STACK_SIZE - 6)
      modifies `mem
      ensures Built(FirstContext(tsk, start, stack), before, mem, stack + STACK_SIZE - 18, stack + STACK_SIZE - 1)
    {
      hide Load, Built;
      Store(stack + STACK_SIZE - 6, 3, RBX);
      Store(stack + STACK_SIZE - 5, 2, RSI);
      Store(stack + STACK_SIZE - 4, tsk, RDI);
      Store(stack + STACK_SIZE - 3, 0, RBP);
      Store(stack + STACK_SIZE - 2, start, RIP);
    }

    /** co_create's assignments to `esp` and to the top of the new stack. */
    method BuildFrame(tsk: int, start: int, stack: int)
      requires !(stack + STACK_SIZE - 18 <= EspOf(tsk) < stack + STACK_SIZE)
      modifies `mem
      ensures FrameBuilt(old(mem), tsk, start, stack, mem)
      ensures Load(mem, tsk + 1) == stack + STACK_SIZE - 18
      ensures forall a :: !(stack + STACK_SIZE - 18 <= a < stack + STACK_SIZE) && a != tsk + 1 ==>
                Load(mem, a) == Load(old(mem), a)
    {
      hide Load, Built, FrameAt;
      ghost var sp := stack + STACK_SIZE - 18;
      StoreLoad(mem, EspOf(tsk), sp);
      mem := mem[tsk + 1 := stack + STACK_SIZE - 18];
      ghost var before := mem;
      NothingBuilt(FirstContext(tsk, start, stack), mem, sp);
      StoreR15ToR12(before, tsk, start, stack);
      StoreR11ToR8(before, tsk, start, stack);
      StoreFlagsToRdx(before, tsk, start, stack);
      StoreRbxToRet(before, tsk, start, stack);
      AllBuilt(FirstContext(tsk, start, stack), before, mem, sp);
      StoreApart(mem, sp + 17, 100, sp);
      StoreLoad(mem, sp + 17, 100);
      mem := mem[stack + STACK_SIZE - 1 := 100];
    }
  }
}
