/** The stack virtual machine of src/virtual_machine.rs: its instruction set, the state it
    runs on, the effect of each instruction as a function on that state, and the machine
    itself as a class whose `Step` and `Run` are proved against those functions. */
module Machine {
  import opened Base

  /** The instruction set. Immediates and depths are 32-bit words. */
  datatype Operation =
    // stack operations
    | Push(value: u32)
    | Pop
    | Get(depth: u32)
    | Put(depth: u32)
    // heap operations
    | Store(address: u32)
    | Load(address: u32)
    | Allocate(size: u32)
    | Free(address: u32)
    // function operations
    | Call(callee: u32)
    | CallFnPointer
    | Return
    // arithmetic operations
    | AddImmediate(imm: u32)
    | Add
    | SubImmediate(imm: u32)
    | SubImmediateBy(imm: u32)
    | Sub
    | MulImmediate(imm: u32)
    | Mul
    | DivImmediate(imm: u32)
    | DivImmediateBy(imm: u32)
    | Div
    | ModImmediate(imm: u32)
    | ModImmediateBy(imm: u32)
    | Mod
    // control flow
    | Jump(location: u32)
    | JumpIf(location: u32)
    | JumpIfNot(location: u32)
    | Goto
    | GotoIf
    | GotoIfNot
  {
    /** The two-operand arithmetic instructions: pop b, pop a, push a op b. */
    predicate IsBinary() {
      Add? || Sub? || Mul? || Div? || Mod?
    }

    /** The arithmetic instructions with an immediate operand: pop b, push b op i (or i op b). */
    predicate IsImmediate() {
      AddImmediate? || SubImmediate? || SubImmediateBy? || MulImmediate? || DivImmediate?
      || DivImmediateBy? || ModImmediate? || ModImmediateBy?
    }
  }

  /** What a host routine can leave behind: a new stack and a new heap. */
  type HostRoutine = (seq<u32>, seq<u32>) -> (seq<u32>, seq<u32>)

  /** A function body: compiled operations, or a routine supplied by the host. */
  datatype FunctionData = Code(operations: seq<Operation>) | Builtin(routine: HostRoutine)

  datatype Function = Function(name: string, implementation: FunctionData)

  /** The machine's mutable state: the cursor (function id, program counter), the operand
      stack (last element on top) and the bump heap. */
  datatype MachineState = MachineState(functionId: u32, programCounter: u32, stack: seq<u32>, heap: seq<u32>)

  function Names(functions: seq<Function>): (names: seq<string>)
    ensures |names| == |functions|
    ensures forall i :: 0 <= i < |functions| ==> names[i] == functions[i].name
  {
    seq(|functions|, i requires 0 <= i < |functions| => functions[i].name)
  }

  /** The function a machine starts in: the first function named "main", or 0 when there is
      none (the position is cast to u32). */
  function MainIndex(functions: seq<Function>): (r: u32)
    ensures (forall i :: 0 <= i < |functions| ==> functions[i].name != "main") ==> r == 0
    ensures forall i :: (0 <= i < |functions| && functions[i].name == "main"
              && forall j :: 0 <= j < i ==> functions[j].name != "main") ==> r == Truncate(i)
  {
    match FirstIndex(Names(functions), "main")
    case Some(i) => Truncate(i)
    case None => 0
  }

  /** `from_functions`: start in main at instruction 0, with one placeholder word below a
      saved program counter 0 and the sentinel caller id, and an empty heap. */
  function Initial(functions: seq<Function>): MachineState {
    MachineState(MainIndex(functions), 0, [0, 0, U32_MAX], [])
  }

  /** `n` zero words. */
  function Zeros(n: nat): (z: seq<u32>)
    ensures |z| == n && forall i :: 0 <= i < n ==> z[i] == 0
  {
    seq(n, _ => 0)
  }

  /** The value a two-operand arithmetic instruction pushes for operands a (below) and b (top). */
  function Arithmetic(op: Operation, a: u32, b: u32): u32
    requires op.IsBinary()
  {
    match op
    case Add => WrappingAdd(a, b)
    case Sub => WrappingSub(a, b)
    case Mul => WrappingMul(a, b)
    case Div => if b != 0 then Quotient(a, b) else 0
    case Mod => if b != 0 then Remainder(a, b) else 0
    case _ => 0
  }

  /** The immediate operand-dependent instructions that cannot execute: `DivImmediateBy(0)`
      on a non-zero operand divides by zero (it tests the operand but divides by the immediate). */
  predicate ImmediateDefined(op: Operation, b: u32)
    requires op.IsImmediate()
  {
    op.DivImmediateBy? ==> (b != 0 ==> op.imm != 0)
  }

  /** The value an immediate instruction pushes when it pops b. */
  function Immediate(op: Operation, b: u32): u32
    requires op.IsImmediate() && ImmediateDefined(op, b)
  {
    match op
    case AddImmediate(i) => WrappingAdd(b, i)
    case SubImmediate(i) => WrappingSub(b, i)
    case SubImmediateBy(i) => WrappingSub(b, i)
    case MulImmediate(i) => WrappingMul(b, i)
    case DivImmediate(i) => if i != 0 then Quotient(b, i) else 0
    case DivImmediateBy(i) => if b != 0 then Quotient(b, i) else 0
    case ModImmediate(i) => if i != 0 then Remainder(b, i) else 0
    case ModImmediateBy(i) => if b != 0 then Remainder(i, b) else 0
    case _ => 0
  }

  /** `op` executes on `s` without panicking: every `unwrap` finds a word, every index is in
      range, and no division by zero happens. */
  predicate CanExecute(op: Operation, s: MachineState) {
    var n := |s.stack|;
    match op
    case Push(_) | Pop | Allocate(_) | Call(_) | Jump(_) => true
    case Get(d) => d < n
    case Put(d) => d + 1 < n
    case Store(a) => 1 <= n && a < |s.heap|
    case Load(a) => a < |s.heap|
    case Free(_) | CallFnPointer | JumpIf(_) | JumpIfNot(_) | Goto => 1 <= n
    case Return | GotoIf | GotoIfNot => 2 <= n
    case Add | Sub | Mul | Div | Mod => 2 <= n
    case AddImmediate(_) | SubImmediate(_) | SubImmediateBy(_) | MulImmediate(_) | DivImmediate(_)
      | DivImmediateBy(_) | ModImmediate(_) | ModImmediateBy(_) =>
      1 <= n && ImmediateDefined(op, s.stack[n - 1])
  }

  /** The effect of one operation, before the loop's uniform program-counter increment. */
  function Execute(op: Operation, s: MachineState): MachineState
    requires CanExecute(op, s)
  {
    var st, n := s.stack, |s.stack|;
    match op
    case Push(v) => s.(stack := st + [v])
    case Pop => if n == 0 then s else s.(stack := st[..n - 1])
    case Get(d) => s.(stack := st + [st[n - 1 - d]])
    case Put(d) => s.(stack := st[..n - 1][n - 2 - d := st[n - 1]])
    case Store(a) => s.(stack := st[..n - 1], heap := s.heap[a := st[n - 1]])
    case Load(a) => s.(stack := st + [s.heap[a]])
    case Allocate(size) => s.(stack := st + [Truncate(|s.heap|)], heap := s.heap + Zeros(size))
    case Free(_) => s.(stack := st[..n - 1])
    case Call(f) => MachineState(f, U32_MAX, st + [s.programCounter, s.functionId], s.heap)
    case CallFnPointer => MachineState(st[n - 1], U32_MAX, st[..n - 1] + [s.programCounter, s.functionId], s.heap)
    case Return => s.(functionId := st[n - 1], programCounter := st[n - 2], stack := st[..n - 2])
    case Add | Sub | Mul | Div | Mod => s.(stack := st[..n - 2] + [Arithmetic(op, st[n - 2], st[n - 1])])
    case AddImmediate(_) | SubImmediate(_) | SubImmediateBy(_) | MulImmediate(_) | DivImmediate(_)
      | DivImmediateBy(_) | ModImmediate(_) | ModImmediateBy(_) =>
      s.(stack := st[..n - 1] + [Immediate(op, st[n - 1])])
    case Jump(l) => s.(programCounter := WrappingSub(l, 1))
    case JumpIf(l) =>
      var t := s.(stack := st[..n - 1]);
      if st[n - 1] != 0 then t.(programCounter := WrappingSub(l, 1)) else t
    case JumpIfNot(l) =>
      var t := s.(stack := st[..n - 1]);
      if st[n - 1] == 0 then t.(programCounter := WrappingSub(l, 1)) else t
    case Goto => s.(stack := st[..n - 1], programCounter := WrappingSub(st[n - 1], 1))
    case GotoIf =>
      var t := s.(stack := st[..n - 2]);
      if st[n - 2] != 0 then t.(programCounter := WrappingSub(st[n - 1], 1)) else t
    case GotoIfNot =>
      var t := s.(stack := st[..n - 2]);
      if st[n - 2] == 0 then t.(programCounter := WrappingSub(st[n - 1], 1)) else t
  }

  /** The machine has stopped: the current function id is the sentinel. */
  predicate Halted(s: MachineState) {
    s.functionId == U32_MAX
  }

  /** One iteration of `run`'s loop can execute on `s` without panicking. */
  predicate CanStep(functions: seq<Function>, s: MachineState) {
    && !Halted(s)
    && s.functionId < |functions|
    && match functions[s.functionId].implementation
       case Code(ops) => s.programCounter < |ops| && CanExecute(ops[s.programCounter], s)
       case Builtin(routine) => |routine(s.stack, s.heap).0| >= 2
  }

  /** One iteration of `run`'s loop: run the host routine and pop the saved cursor, or
      execute the current operation; then advance the program counter by one (wrapping). */
  function Next(functions: seq<Function>, s: MachineState): MachineState
    requires CanStep(functions, s)
  {
    var t := match functions[s.functionId].implementation
      case Code(ops) => Execute(ops[s.programCounter], s)
      case Builtin(routine) =>
        var st := routine(s.stack, s.heap).0;
        MachineState(st[|st| - 1], st[|st| - 2], st[..|st| - 2], routine(s.stack, s.heap).1);
    t.(programCounter := WrappingAdd(t.programCounter, 1))
  }

  /** The first `fuel` iterations of `run` (fewer if the machine halts) do not panic. */
  predicate RunsSafely(functions: seq<Function>, s: MachineState, fuel: nat)
    decreases fuel
  {
    Halted(s) || fuel == 0 || (CanStep(functions, s) && RunsSafely(functions, Next(functions, s), fuel - 1))
  }

  /** The state after at most `fuel` iterations of `run`'s loop. */
  function Exec(functions: seq<Function>, s: MachineState, fuel: nat): MachineState
    requires RunsSafely(functions, s, fuel)
    decreases fuel
  {
    if Halted(s) || fuel == 0 then s else Exec(functions, Next(functions, s), fuel - 1)
  }

  /** What `run` returns once halted: the top of the stack, or the sentinel if it is empty. */
  function ExitCode(stack: seq<u32>): u32 {
    if stack == [] then U32_MAX else stack[|stack| - 1]
  }

  /** `VirtualMachine`: the function table is fixed at construction; the cursor, the stack
      and the heap change as the machine runs. */
  class VirtualMachine {
    const functions: seq<Function>
    var functionId: u32
    var programCounter: u32
    var stack: seq<u32>
    var heap: seq<u32>

    function State(): MachineState
      reads this
    {
      MachineState(functionId, programCounter, stack, heap)
    }

    /** `from_functions`. */
    constructor FromFunctions(functions: seq<Function>)
      ensures this.functions == functions
      ensures State() == Initial(functions)
    {
      this.functions := functions;
      functionId := MainIndex(functions);
      programCounter := 0;
      stack := [0, 0, U32_MAX];
      heap := [];
    }

    method PushWord(v: u32)
      modifies this`stack
      ensures stack == old(stack) + [v]
    {
      stack := stack + [v];
    }

    /** `stack.pop().unwrap()`. */
    method PopWord() returns (v: u32)
      requires stack != []
      modifies this`stack
      ensures v == old(stack)[|old(stack)| - 1]
      ensures stack == old(stack)[..|old(stack)| - 1]
    {
      v := stack[|stack| - 1];
      stack := stack[..|stack| - 1];
    }

    /** One iteration of the body of `run`'s loop. */
    method Step()
      requires CanStep(functions, State())
      modifies this
      ensures State() == Next(functions, old(State()))
    {
      match functions[functionId].implementation {
        case Builtin(routine) =>
          var result := routine(stack, heap);
          stack, heap := result.0, result.1;
          functionId := PopWord();
          programCounter := PopWord();
        case Code(operations) =>
          var op := operations[programCounter];
          if op.Push? || op.Pop? || op.Get? || op.Put? {
            ExecuteStackOperation(op);
          } else if op.Store? || op.Load? || op.Allocate? || op.Free? {
            ExecuteHeapOperation(op);
          } else if op.Call? || op.CallFnPointer? || op.Return? {
            ExecuteCallOperation(op);
          } else if op.IsBinary() || op.IsImmediate() {
            ExecuteArithmetic(op);
          } else {
            ExecuteControlFlow(op);
          }
      }
      programCounter := WrappingAdd(programCounter, 1);
    }

    method ExecuteStackOperation(op: Operation)
      requires op.Push? || op.Pop? || op.Get? || op.Put?
      requires CanExecute(op, State())
      modifies this
      ensures State() == Execute(op, old(State()))
    {
      match op {
        case Push(n) =>
          PushWord(n);
        case Pop =>
          if stack != [] {
            var discarded := PopWord();
          }
        case Get(depth) =>
          var n := stack[|stack| - 1 - depth];
          PushWord(n);
        case Put(depth) =>
          var v := PopWord();
          var index := |stack| - 1 - depth;
          stack := stack[index := v];
      }
    }

    method ExecuteHeapOperation(op: Operation)
      requires op.Store? || op.Load? || op.Allocate? || op.Free?
      requires CanExecute(op, State())
      modifies this
      ensures State() == Execute(op, old(State()))
    {
      match op {
        case Store(address) =>
          var v := PopWord();
          heap := heap[address := v];
        case Load(address) =>
          PushWord(heap[address]);
        case Allocate(size) =>
          PushWord(Truncate(|heap|));
          heap := heap + Zeros(size);
        case Free(_) =>
          // The bump allocator cannot reclaim anything: the address is only popped.
          var discarded := PopWord();
      }
    }

    method ExecuteCallOperation(op: Operation)
      requires op.Call? || op.CallFnPointer? || op.Return?
      requires CanExecute(op, State())
      modifies this
      ensures State() == Execute(op, old(State()))
    {
      match op {
        case Call(callee) =>
          PushWord(programCounter);
          PushWord(functionId);
          functionId := callee;
          programCounter := U32_MAX;
        case CallFnPointer =>
          var callee := PopWord();
          PushWord(programCounter);
          PushWord(functionId);
          functionId := callee;
          programCounter := U32_MAX;
        case Return =>
          functionId := PopWord();
          programCounter := PopWord();
      }
    }

    method ExecuteArithmetic(op: Operation)
      requires op.IsBinary() || op.IsImmediate()
      requires CanExecute(op, State())
      modifies this
      ensures State() == Execute(op, old(State()))
    {
      if op.IsBinary() {
        var b := PopWord();
        var a := PopWord();
        match op {
          case Add => PushWord(WrappingAdd(a, b));
          case Sub => PushWord(WrappingSub(a, b));
          case Mul => PushWord(WrappingMul(a, b));
          case Div => PushWord(if b != 0 then Quotient(a, b) else 0);
          case Mod => PushWord(if b != 0 then Remainder(a, b) else 0);
        }
      } else {
        var b := PopWord();
        match op {
          case AddImmediate(i) => PushWord(WrappingAdd(b, i));
          case SubImmediate(i) => PushWord(WrappingSub(b, i));
          case SubImmediateBy(i) => PushWord(WrappingSub(b, i));
          case MulImmediate(i) => PushWord(WrappingMul(b, i));
          case DivImmediate(i) => PushWord(if i != 0 then Quotient(b, i) else 0);
          case DivImmediateBy(i) => PushWord(if b != 0 then Quotient(b, i) else 0);
          case ModImmediate(i) => PushWord(if i != 0 then Remainder(b, i) else 0);
          case ModImmediateBy(i) => PushWord(if b != 0 then Remainder(i, b) else 0);
        }
      }
    }

    method ExecuteControlFlow(op: Operation)
      requires op.Jump? || op.JumpIf? || op.JumpIfNot? || op.Goto? || op.GotoIf? || op.GotoIfNot?
      requires CanExecute(op, State())
      modifies this
      ensures State() == Execute(op, old(State()))
    {
      match op {
        case Jump(location) =>
          programCounter := WrappingSub(location, 1);
        case JumpIf(location) =>
          var c := PopWord();
          if c != 0 {
            programCounter := WrappingSub(location, 1);
          }
        case JumpIfNot(location) =>
          var c := PopWord();
          if c == 0 {
            programCounter := WrappingSub(location, 1);
          }
        case Goto =>
          var location := PopWord();
          programCounter := WrappingSub(location, 1);
        case GotoIf =>
          var location := PopWord();
          var c := PopWord();
          if c != 0 {
            programCounter := WrappingSub(location, 1);
          }
        case GotoIfNot =>
          var location := PopWord();
          var c := PopWord();
          if c == 0 {
            programCounter := WrappingSub(location, 1);
          }
      }
    }

    /** `run`, bounded by `fuel` loop iterations: loop while the function id is not the
        sentinel; once halted, yield the top of the stack (or the sentinel if it is empty). */
    method Run(fuel: nat) returns (exitCode: Option<u32>)
      requires RunsSafely(functions, State(), fuel)
      modifies this
      ensures State() == Exec(functions, old(State()), fuel)
      ensures exitCode == if Halted(State()) then Some(ExitCode(stack)) else None
    {
      var remaining := fuel;
      while functionId != U32_MAX && remaining > 0
        invariant RunsSafely(functions, State(), remaining)
        invariant Exec(functions, State(), remaining) == Exec(functions, old(State()), fuel)
        decreases remaining
      {
        Step();
        remaining := remaining - 1;
      }
      if functionId != U32_MAX {
        exitCode := None;
      } else if stack == [] {
        exitCode := Some(U32_MAX);
      } else {
        exitCode := Some(stack[|stack| - 1]);
      }
    }
  }
}
