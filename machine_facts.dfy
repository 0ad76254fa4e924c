/** Properties of the virtual machine's semantics (src/virtual_machine.rs): the exact stack
    and heap effect of each kind of instruction, the call/return protocol, jumps, and the
    hand-assembled Fibonacci program of the source's test. */
module MachineProperties {
  import opened Base
  import opened Machine

  /** `s` is about to execute `op` from compiled code. */
  predicate Executing(functions: seq<Function>, s: MachineState, op: Operation) {
    && !Halted(s)
    && s.functionId < |functions|
    && functions[s.functionId].implementation.Code?
    && s.programCounter < |functions[s.functionId].implementation.operations|
    && functions[s.functionId].implementation.operations[s.programCounter] == op
  }

  /** `Get(d)` pushes a copy of the word at depth d; every existing word stays where it was. */
  lemma GetCopiesWordAtDepth(s: MachineState, d: u32)
    requires d < |s.stack|
    ensures var t := Execute(Get(d), s);
      && |t.stack| == |s.stack| + 1
      && t.stack[|t.stack| - 1] == s.stack[|s.stack| - 1 - d]
      && (forall i :: 0 <= i < |s.stack| ==> t.stack[i] == s.stack[i])
      && t.heap == s.heap && t.functionId == s.functionId && t.programCounter == s.programCounter
  {
  }

  /** `Put(d)` pops v and writes it at depth d of the shortened stack; nothing else changes. */
  lemma PutOverwritesWordAtDepth(s: MachineState, d: u32)
    requires d + 1 < |s.stack|
    ensures var t := Execute(Put(d), s);
      && |t.stack| == |s.stack| - 1
      && t.stack[|t.stack| - 1 - d] == s.stack[|s.stack| - 1]
      && (forall i :: 0 <= i < |t.stack| && i != |t.stack| - 1 - d ==> t.stack[i] == s.stack[i])
      && t.heap == s.heap && t.functionId == s.functionId && t.programCounter == s.programCounter
  {
  }

  /** `Pop` discards the top word, and does nothing at all on an empty stack. */
  lemma PopDiscardsTop(s: MachineState)
    ensures var t := Execute(Pop, s);
      && (s.stack == [] ==> t == s)
      && (s.stack != [] ==> t.stack == s.stack[..|s.stack| - 1] && t.heap == s.heap)
  {
  }

  /** Two-operand arithmetic replaces the top two words a (below) and b (top) by one result
      and leaves the words under them alone. */
  lemma BinaryArithmeticEffect(s: MachineState, op: Operation)
    requires op.IsBinary() && 2 <= |s.stack|
    ensures var n, t := |s.stack|, Execute(op, s);
      && |t.stack| == n - 1 && t.stack[..n - 2] == s.stack[..n - 2] && t.heap == s.heap
      && t.stack[n - 2] == Arithmetic(op, s.stack[n - 2], s.stack[n - 1])
  {
  }

  /** The result of a op b: +, - and * agree with the mathematical result modulo 2^32. */
  lemma ArithmeticWraps(op: Operation, a: u32, b: u32)
    requires op.Add? || op.Sub? || op.Mul?
    ensures var r := Arithmetic(op, a, b);
      && (op.Add? ==> (r - (a + b)) % WORD_MODULUS == 0)
      && (op.Sub? ==> (r - (a - b)) % WORD_MODULUS == 0)
      && (op.Mul? ==> (r - a * b) % WORD_MODULUS == 0)
  {
  }

  /** Division truncates, the remainder is what division leaves, and a zero divisor makes
      both 0 instead of panicking. */
  lemma ArithmeticDivides(op: Operation, a: u32, b: u32)
    requires op.Div? || op.Mod?
    ensures var r := Arithmetic(op, a, b);
      && (b == 0 ==> r == 0)
      && (op.Div? && b != 0 ==> r * b <= a < r * b + b)
      && (op.Mod? && b != 0 ==> r < b && r + Quotient(a, b) * b == a)
  {
  }

  /** The immediate forms compute b op i from the popped b, with these source quirks:
      `SubImmediateBy` is the same as `SubImmediate`; `DivImmediateBy` tests b but divides
      by i, so it is defined exactly when b is 0 or i is not; `ModImmediateBy` computes i % b. */
  lemma ImmediateForms(i: u32, b: u32)
    ensures Immediate(SubImmediateBy(i), b) == Immediate(SubImmediate(i), b)
    ensures ImmediateDefined(DivImmediateBy(i), b) <==> (b == 0 || i != 0)
    ensures b == 0 ==> Immediate(DivImmediateBy(i), b) == 0
    ensures i == 0 ==> Immediate(DivImmediate(i), b) == 0 && Immediate(ModImmediate(i), b) == 0
    ensures b == 0 ==> Immediate(ModImmediateBy(i), b) == 0
    ensures b != 0 ==> Immediate(ModImmediateBy(i), b) < b
    ensures i != 0 ==> Immediate(DivImmediate(i), b) * i <= b < Immediate(DivImmediate(i), b) * i + i
  {
  }

  /** A call saves the caller's cursor on the stack (id on top) and enters the callee at its
      first instruction; a `Return` that finds that saved cursor on top of the stack resumes
      the caller at the instruction after the call, with the caller's id restored. */
  lemma CallThenReturn(functions: seq<Function>, s: MachineState, callee: u32, t: MachineState, below: seq<u32>)
    requires Executing(functions, s, Call(callee))
    requires Executing(functions, t, Return)
    requires t.stack == below + [s.programCounter, s.functionId]
    ensures var entry := Next(functions, s);
      && entry.functionId == callee && entry.programCounter == 0
      && entry.stack == s.stack + [s.programCounter, s.functionId] && entry.heap == s.heap
    ensures var back := Next(functions, t);
      && back.functionId == s.functionId && back.programCounter == WrappingAdd(s.programCounter, 1)
      && back.stack == below && back.heap == t.heap
  {
    WrappingSubAddOne(0);
  }

  /** `CallFnPointer` takes the callee from the top of the stack and is otherwise a `Call`. */
  lemma CallFnPointerIsCall(functions: seq<Function>, s: MachineState)
    requires Executing(functions, s, CallFnPointer) && |s.stack| >= 1
    ensures var n := |s.stack|; var entry := Next(functions, s);
      && entry.functionId == s.stack[n - 1] && entry.programCounter == 0
      && entry.stack == s.stack[..n - 1] + [s.programCounter, s.functionId]
  {
  }

  /** A taken jump makes its location the next instruction executed, for every location
      (0 included); a conditional jump consumes its condition whether or not it jumps. */
  lemma JumpLandsOnTarget(functions: seq<Function>, s: MachineState, op: Operation)
    requires op.Jump? || op.JumpIf? || op.JumpIfNot?
    requires Executing(functions, s, op) && CanExecute(op, s)
    ensures var t := Next(functions, s);
      var taken := op.Jump? || (op.JumpIf? && s.stack[|s.stack| - 1] != 0)
                   || (op.JumpIfNot? && s.stack[|s.stack| - 1] == 0);
      && t.functionId == s.functionId
      && t.programCounter == (if taken then op.location else WrappingAdd(s.programCounter, 1))
      && t.stack == (if op.Jump? then s.stack else s.stack[..|s.stack| - 1])
  {
    WrappingSubAddOne(op.location);
  }

  /** The `Goto` forms pop their target first (then, for the conditional ones, the condition)
      and otherwise behave like the jumps. */
  lemma GotoLandsOnTarget(functions: seq<Function>, s: MachineState, op: Operation)
    requires op.Goto? || op.GotoIf? || op.GotoIfNot?
    requires Executing(functions, s, op) && CanExecute(op, s)
    ensures var n, t := |s.stack|, Next(functions, s);
      var target := s.stack[n - 1];
      var taken := op.Goto? || (op.GotoIf? && s.stack[n - 2] != 0) || (op.GotoIfNot? && s.stack[n - 2] == 0);
      && t.functionId == s.functionId
      && t.programCounter == (if taken then target else WrappingAdd(s.programCounter, 1))
      && t.stack == (if op.Goto? then s.stack[..n - 1] else s.stack[..n - 2])
  {
    WrappingSubAddOne(s.stack[|s.stack| - 1]);
  }

  /** Two allocations in a row push addresses h and h + m, where h is the heap's length and
      m the first size, and extend the heap by zeros. */
  lemma AllocateTwice(s: MachineState, m: u32, k: u32)
    requires |s.heap| + m < WORD_MODULUS
    ensures var t := Execute(Allocate(k), Execute(Allocate(m), s));
      && t.stack == s.stack + [|s.heap| as u32, (|s.heap| + m) as u32]
      && |t.heap| == |s.heap| + m + k
      && t.heap[..|s.heap|] == s.heap
      && (forall i :: |s.heap| <= i < |t.heap| ==> t.heap[i] == 0)
  {
  }

  /** Storing the top word at an address and then loading that address pushes the word back:
      the stack is as before and the heap holds the word there and is unchanged elsewhere. */
  lemma StoreThenLoad(s: MachineState, address: u32)
    requires 1 <= |s.stack| && address < |s.heap|
    ensures var t := Execute(Load(address), Execute(Store(address), s));
      && t.stack == s.stack
      && t.heap[address] == s.stack[|s.stack| - 1]
      && |t.heap| == |s.heap|
      && (forall i :: 0 <= i < |s.heap| && i != address ==> t.heap[i] == s.heap[i])
  {
  }

  /** `Free` pops its word and reclaims nothing. */
  lemma FreeKeepsHeap(s: MachineState, address: u32)
    requires 1 <= |s.stack|
    ensures var t := Execute(Free(address), s);
      t.heap == s.heap && t.stack == s.stack[..|s.stack| - 1]
  {
  }

  /** One safe iteration of `run`'s loop takes `s` to `t`. */
  predicate StepsTo(functions: seq<Function>, s: MachineState, t: MachineState) {
    CanStep(functions, s) && Next(functions, s) == t
  }

  /** `s` with the program counter advanced past the current instruction and a new stack. */
  function Advanced(s: MachineState, stack: seq<u32>): MachineState {
    MachineState(s.functionId, WrappingAdd(s.programCounter, 1), stack, s.heap)
  }

  /** A safe step followed by `fuel` more is `fuel + 1` steps of `run`. */
  lemma StepThenRun(functions: seq<Function>, s: MachineState, t: MachineState, fuel: nat)
    requires StepsTo(functions, s, t) && RunsSafely(functions, t, fuel)
    ensures RunsSafely(functions, s, fuel + 1)
    ensures Exec(functions, s, fuel + 1) == Exec(functions, t, fuel)
  {
  }

  // One step of compiled code, instruction by instruction: the state that follows.

  lemma StepPush(functions: seq<Function>, s: MachineState, v: u32)
    requires Executing(functions, s, Push(v))
    ensures StepsTo(functions, s, Advanced(s, s.stack + [v]))
  {
  }

  lemma StepPop(functions: seq<Function>, s: MachineState)
    requires Executing(functions, s, Pop) && 1 <= |s.stack|
    ensures StepsTo(functions, s, Advanced(s, s.stack[..|s.stack| - 1]))
  {
  }

  lemma StepGet(functions: seq<Function>, s: MachineState, d: u32)
    requires Executing(functions, s, Get(d)) && d < |s.stack|
    ensures StepsTo(functions, s, Advanced(s, s.stack + [s.stack[|s.stack| - 1 - d]]))
  {
  }

  lemma StepPut(functions: seq<Function>, s: MachineState, d: u32)
    requires Executing(functions, s, Put(d)) && d + 1 < |s.stack|
    ensures var n := |s.stack|;
      StepsTo(functions, s, Advanced(s, s.stack[..n - 1][n - 2 - d := s.stack[n - 1]]))
  {
  }

  lemma StepBinary(functions: seq<Function>, s: MachineState, op: Operation)
    requires Executing(functions, s, op) && op.IsBinary() && 2 <= |s.stack|
    ensures var n := |s.stack|;
      StepsTo(functions, s, Advanced(s, s.stack[..n - 2] + [Arithmetic(op, s.stack[n - 2], s.stack[n - 1])]))
  {
  }

  lemma StepImmediate(functions: seq<Function>, s: MachineState, op: Operation)
    requires Executing(functions, s, op) && op.IsImmediate() && 1 <= |s.stack|
    requires ImmediateDefined(op, s.stack[|s.stack| - 1])
    ensures var n := |s.stack|;
      StepsTo(functions, s, Advanced(s, s.stack[..n - 1] + [Immediate(op, s.stack[n - 1])]))
  {
  }

  lemma StepJump(functions: seq<Function>, s: MachineState, l: u32)
    requires Executing(functions, s, Jump(l))
    ensures StepsTo(functions, s, s.(programCounter := l))
  {
    WrappingSubAddOne(l);
  }

  lemma StepJumpIfNot(functions: seq<Function>, s: MachineState, l: u32)
    requires Executing(functions, s, JumpIfNot(l)) && 1 <= |s.stack|
    ensures var n := |s.stack|;
      var t := Advanced(s, s.stack[..n - 1]);
      StepsTo(functions, s, if s.stack[n - 1] == 0 then t.(programCounter := l) else t)
  {
    WrappingSubAddOne(l);
  }

  lemma StepCall(functions: seq<Function>, s: MachineState, callee: u32)
    requires Executing(functions, s, Call(callee))
    ensures StepsTo(functions, s, MachineState(callee, 0, s.stack + [s.programCounter, s.functionId], s.heap))
  {
    WrappingSubAddOne(0);
  }

  lemma StepReturn(functions: seq<Function>, s: MachineState)
    requires Executing(functions, s, Return) && 2 <= |s.stack|
    ensures var n := |s.stack|;
      StepsTo(functions, s, MachineState(s.stack[n - 1], WrappingAdd(s.stack[n - 2], 1), s.stack[..n - 2], s.heap))
  {
  }

  /** Running m steps and then n more is running m + n steps. */
  lemma {:induction false} ExecCompose(functions: seq<Function>, s: MachineState, m: nat, n: nat)
    requires RunsSafely(functions, s, m) && RunsSafely(functions, Exec(functions, s, m), n)
    ensures RunsSafely(functions, s, m + n)
    ensures Exec(functions, s, m + n) == Exec(functions, Exec(functions, s, m), n)
    decreases m
  {
    if Halted(s) {
    } else if m == 0 {
    } else {
      ExecCompose(functions, Next(functions, s), m - 1, n);
    }
  }

  /** Once halted, the machine stays where it is. */
  lemma {:induction false} HaltedIsFinal(functions: seq<Function>, s: MachineState, fuel: nat)
    requires Halted(s)
    ensures RunsSafely(functions, s, fuel) && Exec(functions, s, fuel) == s
  {
  }
  /** Whatever runs safely from `t` for `rest` iterations runs safely from `s` for `fuel`
      iterations and ends in the same state. */
  predicate LeadsTo(functions: seq<Function>, s: MachineState, fuel: nat, t: MachineState, rest: nat) {
    RunsSafely(functions, t, rest) ==>
      RunsSafely(functions, s, fuel) && Exec(functions, s, fuel) == Exec(functions, t, rest)
  }

  /** Leading to is transitive. */
  lemma LeadsToTrans(functions: seq<Function>, s: MachineState, f: nat, t: MachineState, g: nat, u: MachineState, h: nat)
    requires LeadsTo(functions, s, f, t, g) && LeadsTo(functions, t, g, u, h)
    ensures LeadsTo(functions, s, f, u, h)
  {
  }

  /** Leading to a state that runs safely to `u` runs safely to `u`. */
  lemma LeadsToRun(functions: seq<Function>, s: MachineState, f: nat, t: MachineState, g: nat, u: MachineState)
    requires LeadsTo(functions, s, f, t, g) && RunsSafely(functions, t, g) && Exec(functions, t, g) == u
    ensures RunsSafely(functions, s, f) && Exec(functions, s, f) == u
  {
  }

  /** A safe step to `t` costs one iteration of the available fuel. */
  lemma StepLeadsTo(functions: seq<Function>, s: MachineState, t: MachineState, total: nat, rest: nat)
    requires StepsTo(functions, s, t) && rest + 1 == total
    ensures LeadsTo(functions, s, total, t, rest)
  {
    if RunsSafely(functions, t, rest) {
      StepThenRun(functions, s, t, rest);
    }
  }

  // The control-flow instructions, each as one iteration leading to the state it names.

  lemma JumpLeadsTo(functions: seq<Function>, s: MachineState, l: u32, t: MachineState, total: nat, rest: nat)
    requires Executing(functions, s, Jump(l)) && rest + 1 == total
    requires t == s.(programCounter := l)
    ensures LeadsTo(functions, s, total, t, rest)
  {
    StepJump(functions, s, l);
    StepLeadsTo(functions, s, t, total, rest);
  }

  lemma JumpIfNotLeadsTo(functions: seq<Function>, s: MachineState, l: u32, t: MachineState, total: nat, rest: nat)
    requires Executing(functions, s, JumpIfNot(l)) && 1 <= |s.stack| && rest + 1 == total
    requires var n := |s.stack|;
      t == MachineState(s.functionId, if s.stack[n - 1] == 0 then l else WrappingAdd(s.programCounter, 1),
                        s.stack[..n - 1], s.heap)
    ensures LeadsTo(functions, s, total, t, rest)
  {
    StepJumpIfNot(functions, s, l);
    StepLeadsTo(functions, s, t, total, rest);
  }

  lemma ImmediateLeadsTo(functions: seq<Function>, s: MachineState, op: Operation, t: MachineState, total: nat, rest: nat)
    requires Executing(functions, s, op) && op.IsImmediate() && 1 <= |s.stack| && rest + 1 == total
    requires ImmediateDefined(op, s.stack[|s.stack| - 1])
    requires var n := |s.stack|; t == Advanced(s, s.stack[..n - 1] + [Immediate(op, s.stack[n - 1])])
    ensures LeadsTo(functions, s, total, t, rest)
  {
    StepImmediate(functions, s, op);
    StepLeadsTo(functions, s, t, total, rest);
  }

  lemma CallLeadsTo(functions: seq<Function>, s: MachineState, callee: u32, t: MachineState, total: nat, rest: nat)
    requires Executing(functions, s, Call(callee)) && rest + 1 == total
    requires t == MachineState(callee, 0, s.stack + [s.programCounter, s.functionId], s.heap)
    ensures LeadsTo(functions, s, total, t, rest)
  {
    StepCall(functions, s, callee);
    StepLeadsTo(functions, s, t, total, rest);
  }

  lemma ReturnLeadsTo(functions: seq<Function>, s: MachineState, t: MachineState, total: nat, rest: nat)
    requires Executing(functions, s, Return) && 2 <= |s.stack| && rest + 1 == total
    requires var n := |s.stack|;
      t == MachineState(s.stack[n - 1], WrappingAdd(s.stack[n - 2], 1), s.stack[..n - 2], s.heap)
    ensures LeadsTo(functions, s, total, t, rest)
  {
    StepReturn(functions, s);
    StepLeadsTo(functions, s, t, total, rest);
  }
}

/** The straight-line part of the instruction set (pushes, pops, depth access and binary
    arithmetic: everything the compiler emits except calls and returns) seen as functions on
    the operand stack alone, and the fact that a block of such instructions runs on the
    machine exactly as that stack function says. */
module StraightLine {
  import opened Base
  import opened Machine
  import opened MachineProperties

  /** Instructions that touch only the operand stack and always fall through. */
  predicate Straight(op: Operation) {
    op.Push? || op.Pop? || op.Get? || op.Put? || op.IsBinary()
  }

  /** The stack after `op`, or `None` where the machine would panic. */
  function StackStep(op: Operation, stack: seq<u32>): Option<seq<u32>>
    requires Straight(op)
  {
    var n := |stack|;
    match op
    case Push(v) => Some(stack + [v])
    case Pop => Some(if n == 0 then [] else stack[..n - 1])
    case Get(d) => if d < n then Some(stack + [stack[n - 1 - d]]) else None
    case Put(d) => if d + 1 < n then Some(stack[..n - 1][n - 2 - d := stack[n - 1]]) else None
    case _ => if 2 <= n then Some(stack[..n - 2] + [Arithmetic(op, stack[n - 2], stack[n - 1])]) else None
  }

  /** The stack after a block of straight-line instructions, or `None` if one would panic or
      is not straight-line. */
  function RunStraight(code: seq<Operation>, stack: seq<u32>): Option<seq<u32>>
    decreases |code|
  {
    if code == [] then Some(stack)
    else if !Straight(code[0]) then None
    else match StackStep(code[0], stack)
      case None => None
      case Some(next) => RunStraight(code[1..], next)
  }

  /** Running two blocks one after the other is running their concatenation. */
  lemma {:induction false} RunStraightAppend(a: seq<Operation>, b: seq<Operation>, stack: seq<u32>)
    requires RunStraight(a, stack).Some?
    ensures RunStraight(a + b, stack) == RunStraight(b, RunStraight(a, stack).value)
    decreases |a|
  {
    if a == [] {
      assert a + b == b;
    } else {
      assert (a + b)[0] == a[0] && (a + b)[1..] == a[1..] + b;
      RunStraightAppend(a[1..], b, StackStep(a[0], stack).value);
    }
  }

  /** `s` is about to execute `code`, in full, from its current function. */
  predicate ExecutingBlock(functions: seq<Function>, s: MachineState, code: seq<Operation>) {
    && !Halted(s)
    && s.functionId < |functions|
    && functions[s.functionId].implementation.Code?
    && var ops := functions[s.functionId].implementation.operations;
    && s.programCounter + |code| <= |ops|
    && s.programCounter + |code| < WORD_MODULUS
    && ops[s.programCounter..s.programCounter + |code|] == code
  }

  /** One straight-line instruction on the machine does what `StackStep` says to the stack,
      advances the program counter and changes nothing else. */
  lemma StraightStep(functions: seq<Function>, s: MachineState, op: Operation)
    requires Executing(functions, s, op) && Straight(op) && StackStep(op, s.stack).Some?
    requires s.programCounter + 1 < WORD_MODULUS
    ensures StepsTo(functions, s, MachineState(s.functionId, s.programCounter + 1, StackStep(op, s.stack).value, s.heap))
  {
    match op
    case Push(v) => StepPush(functions, s, v);
    case Pop =>
      if s.stack == [] {
        assert Execute(Pop, s) == s;
      } else {
        StepPop(functions, s);
      }
    case Get(d) => StepGet(functions, s, d);
    case Put(d) => StepPut(functions, s, d);
    case _ => StepBinary(functions, s, op);
  }

  /** Executing a block is executing its first instruction, then the rest of the block from
      the next program counter. */
  lemma BlockHead(functions: seq<Function>, s: MachineState, code: seq<Operation>, next: seq<u32>)
    requires ExecutingBlock(functions, s, code) && code != []
    ensures Executing(functions, s, code[0])
    ensures ExecutingBlock(functions, MachineState(s.functionId, s.programCounter + 1, next, s.heap), code[1..])
  {
    var ops := functions[s.functionId].implementation.operations;
    var pc := s.programCounter;
    assert ops[pc] == ops[pc..pc + |code|][0];
    assert ops[pc + 1..pc + 1 + |code[1..]|] == ops[pc..pc + |code|][1..];
  }

  /** The first instruction of a straight-line block: one safe step to the state that
      executes the rest of the block, on the stack after that instruction. */
  lemma BlockStep(functions: seq<Function>, s: MachineState, code: seq<Operation>) returns (s1: MachineState)
    requires ExecutingBlock(functions, s, code) && RunStraight(code, s.stack).Some? && code != []
    ensures StepsTo(functions, s, s1)
    ensures ExecutingBlock(functions, s1, code[1..])
    ensures RunStraight(code[1..], s1.stack) == RunStraight(code, s.stack)
    ensures s1.functionId == s.functionId && s1.programCounter == s.programCounter + 1 && s1.heap == s.heap
  {
    var next := StackStep(code[0], s.stack).value;
    s1 := MachineState(s.functionId, s.programCounter + 1, next, s.heap);
    BlockHead(functions, s, code, next);
    StraightStep(functions, s, code[0]);
  }

  /** A block of straight-line instructions runs on the machine, one iteration per
      instruction, to the state `t` whose stack `RunStraight` computes and whose program
      counter is past the block; what follows the block then runs from there. */
  lemma {:induction false} RunsStraight(functions: seq<Function>, s: MachineState, code: seq<Operation>, t: MachineState, total: nat, rest: nat)
    requires ExecutingBlock(functions, s, code) && RunStraight(code, s.stack).Some? && rest + |code| == total
    requires t == MachineState(s.functionId, s.programCounter + |code|, RunStraight(code, s.stack).value, s.heap)
    ensures LeadsTo(functions, s, total, t, rest)
    decreases |code|
  {
    if code != [] {
      var s1 := BlockStep(functions, s, code);
      var next := total - 1;
      StepLeadsTo(functions, s, s1, total, next);
      RunsStraight(functions, s1, code[1..], t, next, rest);
      LeadsToTrans(functions, s, total, s1, next, t, rest);
    }
  }

}

/** The iterative Fibonacci program of the virtual machine's test, proved to compute the
    reference function for every input. */
module FibonacciTest {
  import opened Base
  import opened Machine
  import opened MachineProperties
  import opened StraightLine

  /** The reference loop of the test: (a, b) := (b, a + b), n times, from (a, b). */
  function FibIterate(a: u32, b: u32, n: nat): (u32, u32)
    decreases n
  {
    if n == 0 then (a, b) else FibIterate(b, WrappingAdd(a, b), n - 1)
  }

  /** `fib(n)` of the test: start from (0, 1) and return b. fib(0) = fib(1) = 1. */
  function Fib(n: nat): u32 {
    FibIterate(0, 1, n).1
  }

  /** The test's hand-assembled program for input i. */
  function FibonacciProgram(i: u32): seq<Operation> {
    [ Push(0), Push(1), Push(i),
      Get(0), JumpIfNot(13),
      Get(2), Get(2), Add, Get(2), Put(3), Put(1), SubImmediate(1), Jump(3),
      Pop, Put(3), Pop, Return ]
  }

  function FibonacciFunctions(i: u32): seq<Function> {
    [Function("main", Code(FibonacciProgram(i)))]
  }

  /** `functions` is the table of the test: one function whose code is the program for i. */
  predicate LoadsFibonacci(functions: seq<Function>, i: u32) {
    |functions| == 1 && functions[0].implementation == Code(FibonacciProgram(i))
  }

  /** The instructions and blocks of the loaded program that the proofs below step through. */
  lemma FibonacciCode(functions: seq<Function>, i: u32)
    requires LoadsFibonacci(functions, i)
    ensures var ops := functions[0].implementation.operations;
      && |ops| == 17
      && ops[0..3] == [Push(0), Push(1), Push(i)]
      && ops[3] == Get(0) && ops[4] == JumpIfNot(13)
      && ops[5..8] == [Get(2), Get(2), Add] && ops[8..11] == [Get(2), Put(3), Put(1)]
      && ops[11] == SubImmediate(1) && ops[12] == Jump(3)
      && ops[13..16] == [Pop, Put(3), Pop]
      && ops[16] == Return
  {
    var ops := functions[0].implementation.operations;
    assert ops == FibonacciProgram(i);
    assert ops[0..3] == [Push(0), Push(1), Push(i)];
    assert ops[5..8] == [Get(2), Get(2), Add];
    assert ops[8..11] == [Get(2), Put(3), Put(1)];
    assert ops[13..16] == [Pop, Put(3), Pop];
  }

  /** Fibonacci state at the loop head: a, b and the remaining count k above the frame. */
  function LoopHead(a: u32, b: u32, k: u32): MachineState {
    MachineState(0, 3, [0, 0, U32_MAX, a, b, k], [])
  }

  /** The state `main`'s return leaves: halted, with `r` as the only word. */
  function Finished(r: u32): MachineState {
    MachineState(U32_MAX, 1, [r], [])
  }

  // The stacks the program's straight-line blocks compute, one instruction at a time.

  lemma PrologueStack(i: u32)
    ensures RunStraight([Push(0), Push(1), Push(i)], [0, 0, U32_MAX]) == Some([0, 0, U32_MAX, 0, 1, i])
  {
    var r := Some([0, 0, U32_MAX, 0, 1, i]);
    assert RunStraight([], [0, 0, U32_MAX, 0, 1, i]) == r;
    assert [Push(i)][1..] == [] && [0, 0, U32_MAX, 0, 1] + [i] == [0, 0, U32_MAX, 0, 1, i];
    assert RunStraight([Push(i)], [0, 0, U32_MAX, 0, 1]) == r;
    assert [Push(1), Push(i)][1..] == [Push(i)] && [0, 0, U32_MAX, 0] + [1] == [0, 0, U32_MAX, 0, 1];
    assert RunStraight([Push(1), Push(i)], [0, 0, U32_MAX, 0]) == r;
    assert [Push(0), Push(1), Push(i)][1..] == [Push(1), Push(i)] && [0, 0, U32_MAX] + [0] == [0, 0, U32_MAX, 0];
  }

  lemma SumStack(a: u32, b: u32, k: u32)
    ensures RunStraight([Get(2), Get(2), Add], [0, 0, U32_MAX, a, b, k]) == Some([0, 0, U32_MAX, a, b, k, WrappingAdd(a, b)])
  {
    var r := Some([0, 0, U32_MAX, a, b, k, WrappingAdd(a, b)]);
    assert RunStraight([], [0, 0, U32_MAX, a, b, k, WrappingAdd(a, b)]) == r;
    assert [Add][1..] == [] && [0, 0, U32_MAX, a, b, k, a, b][..6] + [WrappingAdd(a, b)] == [0, 0, U32_MAX, a, b, k, WrappingAdd(a, b)];
    assert RunStraight([Add], [0, 0, U32_MAX, a, b, k, a, b]) == r;
    assert [Get(2), Add][1..] == [Add] && [0, 0, U32_MAX, a, b, k, a] + [b] == [0, 0, U32_MAX, a, b, k, a, b];
    assert RunStraight([Get(2), Add], [0, 0, U32_MAX, a, b, k, a]) == r;
    assert [Get(2), Get(2), Add][1..] == [Get(2), Add] && [0, 0, U32_MAX, a, b, k] + [a] == [0, 0, U32_MAX, a, b, k, a];
  }

  lemma ShiftStack(a: u32, b: u32, k: u32, c: u32)
    ensures RunStraight([Get(2), Put(3), Put(1)], [0, 0, U32_MAX, a, b, k, c]) == Some([0, 0, U32_MAX, b, c, k])
  {
    var r := Some([0, 0, U32_MAX, b, c, k]);
    assert RunStraight([], [0, 0, U32_MAX, b, c, k]) == r;
    assert [Put(1)][1..] == [] && [0, 0, U32_MAX, b, b, k, c][..6][4 := c] == [0, 0, U32_MAX, b, c, k];
    assert RunStraight([Put(1)], [0, 0, U32_MAX, b, b, k, c]) == r;
    assert [Put(3), Put(1)][1..] == [Put(1)] && [0, 0, U32_MAX, a, b, k, c, b][..7][3 := b] == [0, 0, U32_MAX, b, b, k, c];
    assert RunStraight([Put(3), Put(1)], [0, 0, U32_MAX, a, b, k, c, b]) == r;
    assert [Get(2), Put(3), Put(1)][1..] == [Put(3), Put(1)] && [0, 0, U32_MAX, a, b, k, c] + [b] == [0, 0, U32_MAX, a, b, k, c, b];
  }

  lemma ExitStack(a: u32, b: u32)
    ensures RunStraight([Pop, Put(3), Pop], [0, 0, U32_MAX, a, b, 0]) == Some([b, 0, U32_MAX])
  {
    var r := Some([b, 0, U32_MAX]);
    assert RunStraight([], [b, 0, U32_MAX]) == r;
    assert [Pop][1..] == [] && [b, 0, U32_MAX, a][..3] == [b, 0, U32_MAX];
    assert RunStraight([Pop], [b, 0, U32_MAX, a]) == r;
    assert [Put(3), Pop][1..] == [Pop] && [0, 0, U32_MAX, a, b][..4][0 := b] == [b, 0, U32_MAX, a];
    assert RunStraight([Put(3), Pop], [0, 0, U32_MAX, a, b]) == r;
    assert [Pop, Put(3), Pop][1..] == [Put(3), Pop] && [0, 0, U32_MAX, a, b, 0][..5] == [0, 0, U32_MAX, a, b];
  }

  /** The loop test: Get(0) and JumpIfNot(13) pop a copy of the count k and fall through
      to the body when k is not 0, or jump to the epilogue when it is. */
  lemma FibonacciLoopTest(fs: seq<Function>, i: u32, a: u32, b: u32, k: u32, total: nat, rest: nat)
    requires LoadsFibonacci(fs, i) && rest + 2 == total
    ensures LeadsTo(fs, LoopHead(a, b, k), total, MachineState(0, if k == 0 then 13 else 5, [0, 0, U32_MAX, a, b, k], []), rest)
  {
    FibonacciCode(fs, i);
    var s0 := LoopHead(a, b, k);
    var s1 := MachineState(0, 4, [0, 0, U32_MAX, a, b, k, k], []);
    var s2 := MachineState(0, if k == 0 then 13 else 5, [0, 0, U32_MAX, a, b, k], []);
    var next := rest + 1;
    RunsStraight(fs, s0, [Get(0)], s1, total, next);
    JumpIfNotLeadsTo(fs, s1, 13, s2, next, rest);
    LeadsToTrans(fs, s0, total, s1, next, s2, rest);
  }

  /** The epilogue: Pop, Put(3), Pop and Return leave b as `main`'s only word and halt. */
  lemma FibonacciEpilogue(fs: seq<Function>, i: u32, a: u32, b: u32)
    requires LoadsFibonacci(fs, i)
    ensures LeadsTo(fs, MachineState(0, 13, [0, 0, U32_MAX, a, b, 0], []), 4, Finished(b), 0)
  {
    FibonacciCode(fs, i);
    var s2 := MachineState(0, 13, [0, 0, U32_MAX, a, b, 0], []);
    var s3 := MachineState(0, 16, [b, 0, U32_MAX], []);
    ExitStack(a, b);
    RunsStraight(fs, s2, [Pop, Put(3), Pop], s3, 4, 1);
    ReturnLeadsTo(fs, s3, Finished(b), 1, 0);
    LeadsToTrans(fs, s2, 4, s3, 1, Finished(b), 0);
  }

  /** The body of the loop: Get(2), Get(2) and Add push c = a + b; Get(2), Put(3) and
      Put(1) shift (a, b) to (b, c). */
  lemma FibonacciBody(fs: seq<Function>, i: u32, a: u32, b: u32, k: u32, total: nat, rest: nat)
    requires LoadsFibonacci(fs, i) && rest + 6 == total
    ensures LeadsTo(fs, MachineState(0, 5, [0, 0, U32_MAX, a, b, k], []), total,
                    MachineState(0, 11, [0, 0, U32_MAX, b, WrappingAdd(a, b), k], []), rest)
  {
    FibonacciCode(fs, i);
    var c := WrappingAdd(a, b);
    var s2 := MachineState(0, 5, [0, 0, U32_MAX, a, b, k], []);
    var s3 := MachineState(0, 8, [0, 0, U32_MAX, a, b, k, c], []);
    var s4 := MachineState(0, 11, [0, 0, U32_MAX, b, c, k], []);
    var middle := rest + 3;
    SumStack(a, b, k);
    RunsStraight(fs, s2, [Get(2), Get(2), Add], s3, total, middle);
    ShiftStack(a, b, k, c);
    RunsStraight(fs, s3, [Get(2), Put(3), Put(1)], s4, middle, rest);
    LeadsToTrans(fs, s2, total, s3, middle, s4, rest);
  }

  /** The end of a round: SubImmediate(1) decrements the count and Jump(3) returns to the
      loop head. */
  lemma FibonacciBack(fs: seq<Function>, i: u32, a: u32, b: u32, k: u32, total: nat, rest: nat)
    requires LoadsFibonacci(fs, i) && k != 0 && rest + 2 == total
    ensures LeadsTo(fs, MachineState(0, 11, [0, 0, U32_MAX, a, b, k], []), total, LoopHead(a, b, k - 1), rest)
  {
    FibonacciCode(fs, i);
    var s4 := MachineState(0, 11, [0, 0, U32_MAX, a, b, k], []);
    var s5 := MachineState(0, 12, [0, 0, U32_MAX, a, b, k - 1], []);
    var next := rest + 1;
    ImmediateLeadsTo(fs, s4, SubImmediate(1), s5, total, next);
    JumpLeadsTo(fs, s5, 3, LoopHead(a, b, k - 1), next, rest);
    LeadsToTrans(fs, s4, total, s5, next, LoopHead(a, b, k - 1), rest);
  }

  /** One round of the loop, from its head back to its head: (a, b, k) becomes
      (b, a + b, k - 1) in ten iterations. */
  lemma FibonacciRound(fs: seq<Function>, i: u32, a: u32, b: u32, k: u32, total: nat, rest: nat)
    requires LoadsFibonacci(fs, i) && k != 0 && rest + 10 == total
    ensures LeadsTo(fs, LoopHead(a, b, k), total, LoopHead(b, WrappingAdd(a, b), k - 1), rest)
  {
    var c := WrappingAdd(a, b);
    var s2 := MachineState(0, 5, [0, 0, U32_MAX, a, b, k], []);
    var s4 := MachineState(0, 11, [0, 0, U32_MAX, b, c, k], []);
    var f2, f8 := rest + 8, rest + 2;
    FibonacciLoopTest(fs, i, a, b, k, total, f2);
    FibonacciBody(fs, i, a, b, k, f2, f8);
    LeadsToTrans(fs, LoopHead(a, b, k), total, s2, f2, s4, f8);
    FibonacciBack(fs, i, b, c, k, f8, rest);
    LeadsToTrans(fs, LoopHead(a, b, k), total, s4, f8, LoopHead(b, c, k - 1), rest);
  }

  /** From the loop head with a, b and the remaining count k on the stack, 10 k + 6 iterations
      halt the machine with the k-th iterate's b as its only word. */
  predicate LoopFinishes(fs: seq<Function>, a: u32, b: u32, k: u32) {
    RunsSafely(fs, LoopHead(a, b, k), 10 * k + 6) && Exec(fs, LoopHead(a, b, k), 10 * k + 6) == Finished(FibIterate(a, b, k).1)
  }

  /** Leaving the loop from its head with count 0 halts the machine in six iterations. */
  lemma FibonacciExit(fs: seq<Function>, i: u32, a: u32, b: u32)
    requires LoadsFibonacci(fs, i)
    ensures LoopFinishes(fs, a, b, 0)
  {
    var s2 := MachineState(0, 13, [0, 0, U32_MAX, a, b, 0], []);
    FibonacciLoopTest(fs, i, a, b, 0, 6, 4);
    FibonacciEpilogue(fs, i, a, b);
    LeadsToTrans(fs, LoopHead(a, b, 0), 6, s2, 4, Finished(b), 0);
    HaltedIsFinal(fs, Finished(b), 0);
    LeadsToRun(fs, LoopHead(a, b, 0), 6, Finished(b), 0, Finished(b));
  }

  /** One round and then the remaining k - 1 rounds from the next loop head. */
  lemma FibonacciLoopStep(fs: seq<Function>, i: u32, a: u32, b: u32, k: u32)
    requires k != 0
    requires LoadsFibonacci(fs, i) && LoopFinishes(fs, b, WrappingAdd(a, b), k - 1)
    ensures LoopFinishes(fs, a, b, k)
  {
    var total, rest := 10 * k + 6, 10 * (k - 1) + 6;
    var t := LoopHead(b, WrappingAdd(a, b), k - 1);
    FibonacciRound(fs, i, a, b, k, total, rest);
    LeadsToRun(fs, LoopHead(a, b, k), total, t, rest, Finished(FibIterate(a, b, k).1));
  }

  /** The loop computes the k-th iterate from every loop head. */
  lemma {:induction false} FibonacciLoop(fs: seq<Function>, i: u32, a: u32, b: u32, k: u32)
    requires LoadsFibonacci(fs, i)
    ensures LoopFinishes(fs, a, b, k)
    decreases k
  {
    if k == 0 {
      FibonacciExit(fs, i, a, b);
    } else {
      FibonacciLoop(fs, i, b, WrappingAdd(a, b), k - 1);
      FibonacciLoopStep(fs, i, a, b, k);
    }
  }

  /** The prologue: Push(0), Push(1) and Push(i) reach the loop head with (a, b, k) = (0, 1, i). */
  lemma FibonacciPrologue(fs: seq<Function>, i: u32, total: nat, rest: nat)
    requires LoadsFibonacci(fs, i) && rest + 3 == total
    ensures LeadsTo(fs, MachineState(0, 0, [0, 0, U32_MAX], []), total, LoopHead(0, 1, i), rest)
  {
    FibonacciCode(fs, i);
    PrologueStack(i);
    RunsStraight(fs, MachineState(0, 0, [0, 0, U32_MAX], []), [Push(0), Push(1), Push(i)], LoopHead(0, 1, i), total, rest);
  }

  /** From `main`'s first instruction, 10 i + 9 iterations halt the machine with fib(i). */
  lemma FibonacciRuns(fs: seq<Function>, i: u32)
    requires LoadsFibonacci(fs, i)
    ensures RunsSafely(fs, MachineState(0, 0, [0, 0, U32_MAX], []), 10 * i + 9)
    ensures Exec(fs, MachineState(0, 0, [0, 0, U32_MAX], []), 10 * i + 9) == Finished(Fib(i))
  {
    var total, rest := 10 * i + 9, 10 * i + 6;
    FibonacciPrologue(fs, i, total, rest);
    FibonacciLoop(fs, i, 0, 1, i);
    LeadsToRun(fs, MachineState(0, 0, [0, 0, U32_MAX], []), total, LoopHead(0, 1, i), rest, Finished(Fib(i)));
  }

  /** The source's test: the program returns fib(i), for every input i (the test checks
      i < 30, where the reference never wraps). */
  lemma FibonacciProgramComputesFib(i: u32)
    ensures var fs := FibonacciFunctions(i);
      && RunsSafely(fs, Initial(fs), 10 * i + 9)
      && Halted(Exec(fs, Initial(fs), 10 * i + 9))
      && ExitCode(Exec(fs, Initial(fs), 10 * i + 9).stack) == Fib(i)
  {
    var fs := FibonacciFunctions(i);
    assert Names(fs) == ["main"];
    assert Initial(fs) == MachineState(0, 0, [0, 0, U32_MAX], []);
    FibonacciRuns(fs, i);
  }
}
