/** What the code of src/compiler.rs computes on the machine of src/virtual_machine.rs, for
    functions without calls: the frame a function runs in, the names its slots bind, a
    reference evaluator for expressions and bodies, and the theorems that the emitted code
    leaves the evaluator's value on the stack. */
module CompilerCorrectness {
  import opened Base
  import A = Ast
  import opened Machine
  import opened Compiler
  import opened StraightLine
  import opened CompilerProperties

  /** The stack of a running function: what lies below its arguments, the argument words,
      the caller's saved program counter and function id, and the words above them. */
  function Frame(below: seq<u32>, argumentValues: seq<u32>, pc: u32, fid: u32, locals: seq<u32>): seq<u32> {
    below + argumentValues + [pc, fid] + locals
  }

  /** The parameters bound to their words, in order; a later parameter with the same name
      replaces an earlier one. */
  function ParameterBindings(arguments: seq<A.Parameter>, argumentValues: seq<u32>): map<string, u32>
    requires |argumentValues| == |arguments|
    decreases |arguments|
  {
    if arguments == [] then map[]
    else
      var n := |arguments|;
      ParameterBindings(arguments[..n - 1], argumentValues[..n - 1])[arguments[n - 1].name := argumentValues[n - 1]]
  }

  /** `env` extended, bottom to top, with each named slot bound to its word. */
  function LocalBindings(env: map<string, u32>, slots: Slots, locals: seq<u32>): map<string, u32>
    requires |locals| == |slots|
    decreases |slots|
  {
    if slots == [] then env
    else
      var n := |slots|;
      var inner := LocalBindings(env, slots[..n - 1], locals[..n - 1]);
      if slots[n - 1].Some? then inner[slots[n - 1].value := locals[n - 1]] else inner
  }

  /** The names a function body sees and their values: parameters, then let-bound slots. */
  function Bindings(arguments: seq<A.Parameter>, argumentValues: seq<u32>, slots: Slots, locals: seq<u32>): map<string, u32>
    requires |argumentValues| == |arguments| && |locals| == |slots|
  {
    LocalBindings(ParameterBindings(arguments, argumentValues), slots, locals)
  }

  lemma {:induction false} LocalLookup(env: map<string, u32>, slots: Slots, locals: seq<u32>, name: string)
    requires |locals| == |slots|
    ensures var b := LocalBindings(env, slots, locals);
      && (Some(name) in slots ==> name in b && b[name] == locals[|slots| - 1 - LastDistance(slots, Some(name)).value])
      && (Some(name) !in slots ==> (name in b <==> name in env) && (name in env ==> b[name] == env[name]))
    decreases |slots|
  {
    if slots != [] {
      var n := |slots|;
      LocalLookup(env, slots[..n - 1], locals[..n - 1], name);
      assert slots == slots[..n - 1] + [slots[n - 1]];
      if slots[n - 1] != Some(name) {
        assert Some(name) in slots <==> Some(name) in slots[..n - 1];
      }
    }
  }

  lemma {:induction false} ParameterLookup(arguments: seq<A.Parameter>, argumentValues: seq<u32>, name: string)
    requires |argumentValues| == |arguments|
    ensures var b, names := ParameterBindings(arguments, argumentValues), ParameterNames(arguments);
      && (name in b <==> name in names)
      && (name in names ==> b[name] == argumentValues[|arguments| - 1 - LastDistance(names, name).value])
    decreases |arguments|
  {
    if arguments != [] {
      var n := |arguments|;
      var names := ParameterNames(arguments);
      ParameterLookup(arguments[..n - 1], argumentValues[..n - 1], name);
      assert ParameterNames(arguments[..n - 1]) == names[..n - 1];
      assert names == names[..n - 1] + [names[n - 1]];
    }
  }

  /** A variable's depth reads its binding: the compiler finds a depth exactly for the names
      the frame binds, and the word at that depth is the value bound to the name. */
  lemma VariableDepthReadsBinding(arguments: seq<A.Parameter>, argumentValues: seq<u32>, slots: Slots, locals: seq<u32>,
                                  below: seq<u32>, pc: u32, fid: u32, name: string)
    requires |argumentValues| == |arguments| && |locals| == |slots|
    ensures var env, stack := Bindings(arguments, argumentValues, slots, locals), Frame(below, argumentValues, pc, fid, locals);
      && (VariableDepth(slots, arguments, name).Some? <==> name in env)
      && (name in env ==>
            var d := VariableDepth(slots, arguments, name).value;
            d < |stack| && stack[|stack| - 1 - d] == env[name])
  {
    LocalLookup(ParameterBindings(arguments, argumentValues), slots, locals, name);
    ParameterLookup(arguments, argumentValues, name);
  }

  /** The value of a call-free expression under `env`: `None` for an unbound name; arithmetic
      wraps modulo 2^32, and division and remainder by zero give 0. */
  function Eval(e: A.Expression, env: map<string, u32>): Option<u32>
    requires CallFree(e)
    decreases e
  {
    match e
    case Variable(x) => if x in env then Some(env[x]) else None
    case NumLiteral(n) => Some(n)
    case Add(a, b) => (match (Eval(a, env), Eval(b, env))
                       case (Some(x), Some(y)) => Some(WrappingAdd(x, y))
                       case _ => None)
    case Sub(a, b) => (match (Eval(a, env), Eval(b, env))
                       case (Some(x), Some(y)) => Some(WrappingSub(x, y))
                       case _ => None)
    case Mul(a, b) => (match (Eval(a, env), Eval(b, env))
                       case (Some(x), Some(y)) => Some(WrappingMul(x, y))
                       case _ => None)
    case Div(a, b) => (match (Eval(a, env), Eval(b, env))
                       case (Some(x), Some(y)) => Some(if y == 0 then 0 else Quotient(x, y))
                       case _ => None)
    case Mod(a, b) => (match (Eval(a, env), Eval(b, env))
                       case (Some(x), Some(y)) => Some(if y == 0 then 0 else Remainder(x, y))
                       case _ => None)
  }

  /** The most words evaluating `e` holds on the stack at once. */
  function Height(e: A.Expression): nat
    decreases e
  {
    match e
    case Call(_, _) => 1
    case Variable(_) => 1
    case NumLiteral(_) => 1
    case Add(a, b) => Max(Height(a), 1 + Height(b))
    case Sub(a, b) => Max(Height(a), 1 + Height(b))
    case Mul(a, b) => Max(Height(a), 1 + Height(b))
    case Div(a, b) => Max(Height(a), 1 + Height(b))
    case Mod(a, b) => Max(Height(a), 1 + Height(b))
  }

  function Max(a: nat, b: nat): nat {
    if a < b then b else a
  }

  /** The machine instruction of a binary expression computes what `Eval` says. */
  lemma BinaryOperationComputes(e: A.Expression, env: map<string, u32>)
    requires e.IsBinary() && CallFree(e) && Eval(e.left, env).Some? && Eval(e.right, env).Some?
    ensures Eval(e, env) == Some(Arithmetic(BinaryOperation(e), Eval(e.left, env).value, Eval(e.right, env).value))
  {
  }

  /** The compiler is correct on call-free expressions: in a frame whose slots mirror its
      words, the expression's code pushes exactly the expression's value, and its one slot is
      unnamed. The value exists: a name the compiler resolves is bound. */
  lemma {:induction false} ExpressionComputesValue(e: A.Expression, arguments: seq<A.Parameter>, argumentValues: seq<u32>,
                                                   slots: Slots, locals: seq<u32>, below: seq<u32>, pc: u32, fid: u32,
                                                   functionNames: seq<string>)
    requires CallFree(e) && |argumentValues| == |arguments| && |locals| == |slots|
    requires |Frame(below, argumentValues, pc, fid, locals)| + Height(e) <= WORD_MODULUS
    requires LowerExpression(e, slots, arguments, functionNames).Some?
    ensures var env, stack := Bindings(arguments, argumentValues, slots, locals), Frame(below, argumentValues, pc, fid, locals);
      var l := LowerExpression(e, slots, arguments, functionNames).value;
      && Eval(e, env).Some?
      && l.slots == slots + [None]
      && RunStraight(l.code, stack) == Some(stack + [Eval(e, env).value])
    decreases e
  {
    var env, stack := Bindings(arguments, argumentValues, slots, locals), Frame(below, argumentValues, pc, fid, locals);
    var l := LowerExpression(e, slots, arguments, functionNames).value;
    match e
    case Variable(name) =>
      VariableDepthReadsBinding(arguments, argumentValues, slots, locals, below, pc, fid, name);
      var d := VariableDepth(slots, arguments, name).value;
      assert Truncate(d) == d;
      assert l.code[1..] == [];
      assert RunStraight([], stack + [env[name]]) == Some(stack + [env[name]]);
    case NumLiteral(n) =>
      assert l.code[1..] == [];
      assert RunStraight([], stack + [n]) == Some(stack + [n]);
    case Add(_, _) => BinaryComputesValue(e, arguments, argumentValues, slots, locals, below, pc, fid, functionNames);
    case Sub(_, _) => BinaryComputesValue(e, arguments, argumentValues, slots, locals, below, pc, fid, functionNames);
    case Mul(_, _) => BinaryComputesValue(e, arguments, argumentValues, slots, locals, below, pc, fid, functionNames);
    case Div(_, _) => BinaryComputesValue(e, arguments, argumentValues, slots, locals, below, pc, fid, functionNames);
    case Mod(_, _) => BinaryComputesValue(e, arguments, argumentValues, slots, locals, below, pc, fid, functionNames);
  }

  lemma {:induction false} BinaryComputesValue(e: A.Expression, arguments: seq<A.Parameter>, argumentValues: seq<u32>,
                                               slots: Slots, locals: seq<u32>, below: seq<u32>, pc: u32, fid: u32,
                                               functionNames: seq<string>)
    requires e.IsBinary() && CallFree(e) && |argumentValues| == |arguments| && |locals| == |slots|
    requires |Frame(below, argumentValues, pc, fid, locals)| + Height(e) <= WORD_MODULUS
    requires LowerBinary(e, slots, arguments, functionNames).Some?
    ensures var env, stack := Bindings(arguments, argumentValues, slots, locals), Frame(below, argumentValues, pc, fid, locals);
      var l := LowerBinary(e, slots, arguments, functionNames).value;
      && Eval(e, env).Some?
      && l.slots == slots + [None]
      && RunStraight(l.code, stack) == Some(stack + [Eval(e, env).value])
    decreases e, 0
  {
    var env, stack := Bindings(arguments, argumentValues, slots, locals), Frame(below, argumentValues, pc, fid, locals);
    var left := LowerExpression(e.left, slots, arguments, functionNames).value;
    ExpressionComputesValue(e.left, arguments, argumentValues, slots, locals, below, pc, fid, functionNames);
    var x := Eval(e.left, env).value;
    var right := LowerExpression(e.right, left.slots, arguments, functionNames).value;
    assert Bindings(arguments, argumentValues, slots + [None], locals + [x]) == env by {
      assert (slots + [None])[..|slots|] == slots && (locals + [x])[..|locals|] == locals;
    }
    assert Frame(below, argumentValues, pc, fid, locals + [x]) == stack + [x];
    ExpressionComputesValue(e.right, arguments, argumentValues, slots + [None], locals + [x], below, pc, fid, functionNames);
    var y := Eval(e.right, env).value;
    BinaryOperationComputes(e, env);
    RunBinaryCode(e, left.code, right.code, stack, x, y);
    assert slots + [None] + [None] == slots + [None, None];
  }

  /** The code of the left operand, then the right's, then the instruction. */
  lemma RunBinaryCode(e: A.Expression, leftCode: seq<Operation>, rightCode: seq<Operation>, stack: seq<u32>, x: u32, y: u32)
    requires e.IsBinary()
    requires RunStraight(leftCode, stack) == Some(stack + [x])
    requires RunStraight(rightCode, stack + [x]) == Some(stack + [x] + [y])
    ensures RunStraight(leftCode + rightCode + [BinaryOperation(e)], stack) == Some(stack + [Arithmetic(BinaryOperation(e), x, y)])
  {
    var op := BinaryOperation(e);
    RunStraightAppend(leftCode, rightCode, stack);
    RunStraightAppend(leftCode + rightCode, [op], stack);
    BinaryStep(e, stack, x, y);
  }

  /** The instruction of a binary expression, run alone, replaces the two words on top by
      its result. */
  lemma BinaryStep(e: A.Expression, stack: seq<u32>, x: u32, y: u32)
    requires e.IsBinary()
    ensures var op := BinaryOperation(e);
      RunStraight([op], stack + [x] + [y]) == Some(stack + [Arithmetic(op, x, y)])
  {
    var op, top := BinaryOperation(e), stack + [x] + [y];
    assert top[..|top| - 2] == stack && top[|top| - 2] == x && top[|top| - 1] == y;
    assert [op][1..] == [];
  }

  // ---------------------------------------------------------------------------------------
  // Statements and bodies, with `let` lowered as intended: the initializer against the slots
  // as they are, then its value's slot named. The compiler as written names the slot before
  // lowering the initializer; `CompilerFindings` shows what that breaks.

  /** The intended `let`: lower the initializer, which leaves its value in the top slot, then
      give that slot the binding's name. */
  function LowerLetIntended(name: string, declared: Option<A.Type>, initializer: A.Expression, slots: Slots,
                            arguments: seq<A.Parameter>, functionNames: seq<string>): (r: Option<Lowering>)
    ensures r.Some? ==> r.value.slots != [] && r.value.slots[|r.value.slots| - 1] == Some(name)
  {
    if declared.None? then None
    else
      match LowerExpression(initializer, slots, arguments, functionNames)
      case None => None
      case Some(l) => Some(Lowering(l.code, PopSlot(l.slots) + [Some(name)]))
  }

  /** `compile_statement` with the intended `let`. */
  function LowerStatementIntended(s: A.Statement, slots: Slots, arguments: seq<A.Parameter>, functionNames: seq<string>): Option<Lowering> {
    match s
    case Let(name, declared, initializer) => LowerLetIntended(name, declared, initializer, slots, arguments, functionNames)
    case _ => LowerStatement(s, slots, arguments, functionNames)
  }

  /** A body lowered statement by statement with the intended `let`. */
  function LowerBodyIntended(body: seq<A.Statement>, slots: Slots, arguments: seq<A.Parameter>, functionNames: seq<string>): Option<Lowering>
    decreases |body|
  {
    if body == [] then Some(Lowering([], slots))
    else
      match LowerStatementIntended(body[0], slots, arguments, functionNames)
      case None => None
      case Some(l) => Prepend(l.code, LowerBodyIntended(body[1..], l.slots, arguments, functionNames))
  }

  /** Every statement of `body` is call-free. */
  predicate CallFreeBody(body: seq<A.Statement>)
    decreases |body|
  {
    body == [] || (CallFree(StatementExpression(body[0])) && CallFreeBody(body[1..]))
  }

  /** A body that returns at its last statement and nowhere before. */
  predicate ReturnsAtEnd(body: seq<A.Statement>)
    decreases |body|
  {
    body != [] && if body[0].Return? then |body| == 1 else ReturnsAtEnd(body[1..])
  }

  /** The reference semantics of a call-free body under `env`: a `let` binds its
      initializer's value for the statements after it, an expression statement is evaluated
      and dropped, and `return` gives its expression's value. `None` for an unbound name or a
      body that ends without returning. */
  function Interpret(body: seq<A.Statement>, env: map<string, u32>): Option<u32>
    requires CallFreeBody(body)
    decreases |body|
  {
    if body == [] then None
    else
      match Eval(StatementExpression(body[0]), env)
      case None => None
      case Some(v) =>
        match body[0]
        case Let(name, _, _) => Interpret(body[1..], env[name := v])
        case Expr(_) => Interpret(body[1..], env)
        case Return(_) => Some(v)
  }

  /** The most words a body's statements hold above the starting frame at once. */
  function Room(body: seq<A.Statement>): nat
    decreases |body|
  {
    if body == [] then 0
    else Max(Height(StatementExpression(body[0])), (if body[0].Let? then 1 else 0) + Room(body[1..]))
  }

  /** `ws` with its last word replaced by `v`. */
  function ReplaceLast(ws: seq<u32>, v: u32): (r: seq<u32>)
    requires ws != []
    ensures |r| == |ws| && r[..|ws| - 1] == ws[..|ws| - 1] && r[|ws| - 1] == v
  {
    ws[..|ws| - 1] + [v]
  }

  lemma {:induction false} RunPops(stack: seq<u32>, top: seq<u32>)
    ensures RunStraight(Pops(|top|), stack + top) == Some(stack)
    decreases |top|
  {
    if top == [] {
      assert Pops(0) == [] && stack + top == stack;
    } else {
      var n := |top|;
      assert Pops(n)[0] == Pop && Pops(n)[1..] == Pops(n - 1);
      assert (stack + top)[..|stack + top| - 1] == stack + top[..n - 1];
      RunPops(stack, top[..n - 1]);
    }
  }

  /** The return sequence of a frame with `|locals|` words above its control words: `Put`
      moves the result over the word just below the saved program counter and the pops clear
      the locals, leaving the saved program counter and function id on top for `Return`. */
  lemma ReturnEpilogue(ws: seq<u32>, pc: u32, fid: u32, locals: seq<u32>, v: u32)
    requires ws != [] && |locals| + 2 < WORD_MODULUS
    ensures RunStraight([Put(WrappingAdd(Truncate(|locals|), 2))] + Pops(|locals|), ws + [pc, fid] + locals + [v])
            == Some(ReplaceLast(ws, v) + [pc, fid])
  {
    var d := |locals| + 2;
    assert WrappingAdd(Truncate(|locals|), 2) == d;
    var stack := ws + [pc, fid] + locals + [v];
    var n := |stack|;
    var after := stack[..n - 1][n - 2 - d := v];
    assert after == ReplaceLast(ws, v) + [pc, fid] + locals;
    assert StackStep(Put(d), stack) == Some(after);
    assert ([Put(d)] + Pops(|locals|))[0] == Put(d) && ([Put(d)] + Pops(|locals|))[1..] == Pops(|locals|);
    RunPops(ReplaceLast(ws, v) + [pc, fid], locals);
  }

  /** The intended `let` pushes its initializer's value and binds the name to it for the
      statements that follow; the slots still mirror the frame's words. */
  lemma LetIntendedBindsValue(name: string, declared: Option<A.Type>, initializer: A.Expression,
                              arguments: seq<A.Parameter>, argumentValues: seq<u32>, slots: Slots, locals: seq<u32>,
                              below: seq<u32>, pc: u32, fid: u32, functionNames: seq<string>)
    requires CallFree(initializer) && |argumentValues| == |arguments| && |locals| == |slots|
    requires |Frame(below, argumentValues, pc, fid, locals)| + Height(initializer) <= WORD_MODULUS
    requires LowerLetIntended(name, declared, initializer, slots, arguments, functionNames).Some?
    ensures var env, stack := Bindings(arguments, argumentValues, slots, locals), Frame(below, argumentValues, pc, fid, locals);
      var l := LowerLetIntended(name, declared, initializer, slots, arguments, functionNames).value;
      && Eval(initializer, env).Some?
      && var v := Eval(initializer, env).value;
      && l.slots == slots + [Some(name)]
      && RunStraight(l.code, stack) == Some(stack + [v])
      && Frame(below, argumentValues, pc, fid, locals + [v]) == stack + [v]
      && Bindings(arguments, argumentValues, l.slots, locals + [v]) == env[name := v]
  {
    ExpressionComputesValue(initializer, arguments, argumentValues, slots, locals, below, pc, fid, functionNames);
    var v := Eval(initializer, Bindings(arguments, argumentValues, slots, locals)).value;
    assert (slots + [Some(name)])[..|slots|] == slots && (locals + [v])[..|locals|] == locals;
  }

  /** An expression statement leaves the frame as it found it. */
  lemma ExprStatementDrops(e: A.Expression, arguments: seq<A.Parameter>, argumentValues: seq<u32>, slots: Slots,
                           locals: seq<u32>, below: seq<u32>, pc: u32, fid: u32, functionNames: seq<string>)
    requires CallFree(e) && |argumentValues| == |arguments| && |locals| == |slots|
    requires |Frame(below, argumentValues, pc, fid, locals)| + Height(e) <= WORD_MODULUS
    requires LowerStatement(A.Expr(e), slots, arguments, functionNames).Some?
    ensures var env, stack := Bindings(arguments, argumentValues, slots, locals), Frame(below, argumentValues, pc, fid, locals);
      var l := LowerStatement(A.Expr(e), slots, arguments, functionNames).value;
      && Eval(e, env).Some?
      && l.slots == slots
      && RunStraight(l.code, stack) == Some(stack)
  {
    var stack := Frame(below, argumentValues, pc, fid, locals);
    ExpressionComputesValue(e, arguments, argumentValues, slots, locals, below, pc, fid, functionNames);
    var l := LowerExpression(e, slots, arguments, functionNames).value;
    var v := Eval(e, Bindings(arguments, argumentValues, slots, locals)).value;
    RunStraightAppend(l.code, [Pop], stack);
    assert (stack + [v])[..|stack|] == stack;
    assert [Pop][1..] == [];
    assert RunStraight([], stack) == Some(stack);
  }

  /** `return e` in a frame: the code before its final `Return` leaves the caller's words
      with the word below the saved program counter replaced by `e`'s value. */
  lemma ReturnStatementComputes(e: A.Expression, arguments: seq<A.Parameter>, argumentValues: seq<u32>, slots: Slots,
                                locals: seq<u32>, below: seq<u32>, pc: u32, fid: u32, functionNames: seq<string>)
    requires CallFree(e) && |argumentValues| == |arguments| && |locals| == |slots| && |below| + |argumentValues| >= 1
    requires |Frame(below, argumentValues, pc, fid, locals)| + Height(e) <= WORD_MODULUS
    requires LowerStatement(A.Return(e), slots, arguments, functionNames).Some?
    ensures var env, stack := Bindings(arguments, argumentValues, slots, locals), Frame(below, argumentValues, pc, fid, locals);
      var code := LowerStatement(A.Return(e), slots, arguments, functionNames).value.code;
      && Eval(e, env).Some?
      && code != [] && code[|code| - 1] == Return
      && RunStraight(code[..|code| - 1], stack) == Some(ReplaceLast(below + argumentValues, Eval(e, env).value) + [pc, fid])
  {
    var env, stack := Bindings(arguments, argumentValues, slots, locals), Frame(below, argumentValues, pc, fid, locals);
    ExpressionComputesValue(e, arguments, argumentValues, slots, locals, below, pc, fid, functionNames);
    var l := LowerExpression(e, slots, arguments, functionNames).value;
    var v := Eval(e, env).value;
    var epilogue := [Put(WrappingAdd(Truncate(|locals|), 2))] + Pops(|locals|);
    assert PopSlot(l.slots) == slots;
    ReturnCodeShape(e, slots, arguments, functionNames, l);
    RunStraightAppend(l.code, epilogue, stack);
    assert below + argumentValues + [pc, fid] + locals + [v] == stack + [v];
    ReturnEpilogue(below + argumentValues, pc, fid, locals, v);
  }

  /** The code of `return e`: `e`'s code, the epilogue that puts the value over the result
      word and pops the slots, then `Return`. */
  lemma ReturnCodeShape(e: A.Expression, slots: Slots, arguments: seq<A.Parameter>, functionNames: seq<string>, l: Lowering)
    requires LowerExpression(e, slots, arguments, functionNames) == Some(l) && PopSlot(l.slots) == slots
    ensures LowerStatement(A.Return(e), slots, arguments, functionNames).Some?
    ensures var code := LowerStatement(A.Return(e), slots, arguments, functionNames).value.code;
      && code != [] && code[|code| - 1] == Return
      && code[..|code| - 1] == l.code + ([Put(WrappingAdd(Truncate(|slots|), 2))] + Pops(|slots|))
  {
    var epilogue := [Put(WrappingAdd(Truncate(|slots|), 2))] + Pops(|slots|);
    var code := LowerStatement(A.Return(e), slots, arguments, functionNames).value.code;
    assert code == l.code + epilogue + [Return];
  }

  /** A statement's code followed by a block ending in `Return`. */
  lemma ThenReturning(head: seq<Operation>, tail: seq<Operation>, stack: seq<u32>, middle: seq<u32>, result: seq<u32>)
    requires RunStraight(head, stack) == Some(middle)
    requires tail != [] && tail[|tail| - 1] == Return && RunStraight(tail[..|tail| - 1], middle) == Some(result)
    ensures var code := head + tail;
      code[|code| - 1] == Return && RunStraight(code[..|code| - 1], stack) == Some(result)
  {
    assert (head + tail)[..|head + tail| - 1] == head + tail[..|tail| - 1];
    RunStraightAppend(head, tail[..|tail| - 1], stack);
  }

  /** The conditions under which a body is run: call-free and returning at its end, a frame
      whose slots mirror its words, a caller word to receive the result, room for every
      word the body pushes, and a lowering that succeeds. */
  predicate BodyInFrame(body: seq<A.Statement>, arguments: seq<A.Parameter>, argumentValues: seq<u32>,
                        slots: Slots, locals: seq<u32>, below: seq<u32>, pc: u32, fid: u32, functionNames: seq<string>)
  {
    && CallFreeBody(body) && ReturnsAtEnd(body)
    && |argumentValues| == |arguments| && |locals| == |slots| && |below| + |argumentValues| >= 1
    && |Frame(below, argumentValues, pc, fid, locals)| + Room(body) <= WORD_MODULUS
    && LowerBodyIntended(body, slots, arguments, functionNames).Some?
  }

  /** The body's code ends in `Return`, and the code before it takes the frame to the
      caller's words with the word just below the saved program counter replaced by the value
      `Interpret` gives, and the saved program counter and function id on top. */
  predicate ReturnsInterpreted(body: seq<A.Statement>, arguments: seq<A.Parameter>, argumentValues: seq<u32>,
                               slots: Slots, locals: seq<u32>, below: seq<u32>, pc: u32, fid: u32, functionNames: seq<string>)
  {
    && CallFreeBody(body) && |argumentValues| == |arguments| && |locals| == |slots| && below + argumentValues != []
    && ReturnsWith(LowerBodyIntended(body, slots, arguments, functionNames), Interpret(body, Bindings(arguments, argumentValues, slots, locals)),
                   Frame(below, argumentValues, pc, fid, locals), below + argumentValues, pc, fid)
  }

  /** A lowering and a value: the code ends in `Return`, and what comes before it takes
      `stack` to the caller's `words`, the last one replaced by the value, and the two saved
      control words. */
  predicate ReturnsWith(lowered: Option<Lowering>, result: Option<u32>, stack: seq<u32>, words: seq<u32>, pc: u32, fid: u32) {
    && lowered.Some? && result.Some? && words != []
    && var code := lowered.value.code;
    && code != [] && code[|code| - 1] == Return
    && RunStraight(code[..|code| - 1], stack) == Some(ReplaceLast(words, result.value) + [pc, fid])
  }

  /** Straight-line code in front of returning code returns the same value. */
  lemma ReturnsWithCons(head: Lowering, lowered: Option<Lowering>, tail: Option<Lowering>, result: Option<u32>,
                        stack: seq<u32>, middle: seq<u32>, words: seq<u32>, pc: u32, fid: u32)
    requires tail.Some? && lowered.Some? && lowered.value.code == head.code + tail.value.code
    requires RunStraight(head.code, stack) == Some(middle)
    requires ReturnsWith(tail, result, middle, words, pc, fid)
    ensures ReturnsWith(lowered, result, stack, words, pc, fid)
  {
    ThenReturning(head.code, tail.value.code, stack, middle, ReplaceLast(words, result.value) + [pc, fid]);
  }

  /** The compiler, with the intended `let`, is correct on call-free bodies that return at
      their end: run in a frame, the code up to the final `Return` leaves exactly the value
      the reference semantics `Interpret` gives in the caller's result word. */
  lemma {:induction false} BodyComputesResult(body: seq<A.Statement>, arguments: seq<A.Parameter>, argumentValues: seq<u32>,
                                              slots: Slots, locals: seq<u32>, below: seq<u32>, pc: u32, fid: u32,
                                              functionNames: seq<string>)
    requires BodyInFrame(body, arguments, argumentValues, slots, locals, below, pc, fid, functionNames)
    ensures ReturnsInterpreted(body, arguments, argumentValues, slots, locals, below, pc, fid, functionNames)
    decreases |body|
  {
    match body[0]
    case Return(e) =>
      ReturnBody(body, arguments, argumentValues, slots, locals, below, pc, fid, functionNames);
    case Let(name, _, _) =>
      var v := LetStep(body, arguments, argumentValues, slots, locals, below, pc, fid, functionNames);
      BodyComputesResult(body[1..], arguments, argumentValues, slots + [Some(name)], locals + [v], below, pc, fid, functionNames);
      LetThenBody(body, arguments, argumentValues, slots, locals, below, pc, fid, functionNames, v);
    case Expr(e) =>
      ExprStep(body, arguments, argumentValues, slots, locals, below, pc, fid, functionNames);
      BodyComputesResult(body[1..], arguments, argumentValues, slots, locals, below, pc, fid, functionNames);
      ExprThenBody(body, arguments, argumentValues, slots, locals, below, pc, fid, functionNames);
  }

  /** A body that is a single `return`. */
  lemma ReturnBody(body: seq<A.Statement>, arguments: seq<A.Parameter>, argumentValues: seq<u32>,
                   slots: Slots, locals: seq<u32>, below: seq<u32>, pc: u32, fid: u32, functionNames: seq<string>)
    requires BodyInFrame(body, arguments, argumentValues, slots, locals, below, pc, fid, functionNames) && body[0].Return?
    ensures ReturnsInterpreted(body, arguments, argumentValues, slots, locals, below, pc, fid, functionNames)
  {
    var e := body[0].expression;
    var head := LowerStatementIntended(body[0], slots, arguments, functionNames).value;
    assert |body| == 1 && LowerBodyIntended(body[1..], head.slots, arguments, functionNames) == Some(Lowering([], head.slots));
    assert head.code + [] == head.code;
    ReturnStatementComputes(e, arguments, argumentValues, slots, locals, below, pc, fid, functionNames);
  }

  /** A body starting with a `let`: the rest runs in the frame grown by the bound value. */
  lemma LetStep(body: seq<A.Statement>, arguments: seq<A.Parameter>, argumentValues: seq<u32>,
                slots: Slots, locals: seq<u32>, below: seq<u32>, pc: u32, fid: u32, functionNames: seq<string>)
    returns (v: u32)
    requires BodyInFrame(body, arguments, argumentValues, slots, locals, below, pc, fid, functionNames) && body[0].Let?
    ensures Eval(body[0].initializer, Bindings(arguments, argumentValues, slots, locals)) == Some(v)
    ensures BodyInFrame(body[1..], arguments, argumentValues, slots + [Some(body[0].name)], locals + [v], below, pc, fid, functionNames)
  {
    var s := body[0];
    LetIntendedBindsValue(s.name, s.declared, s.initializer, arguments, argumentValues, slots, locals, below, pc, fid, functionNames);
    v := Eval(s.initializer, Bindings(arguments, argumentValues, slots, locals)).value;
  }

  lemma LetThenBody(body: seq<A.Statement>, arguments: seq<A.Parameter>, argumentValues: seq<u32>,
                    slots: Slots, locals: seq<u32>, below: seq<u32>, pc: u32, fid: u32, functionNames: seq<string>, v: u32)
    requires BodyInFrame(body, arguments, argumentValues, slots, locals, below, pc, fid, functionNames) && body[0].Let?
    requires Eval(body[0].initializer, Bindings(arguments, argumentValues, slots, locals)) == Some(v)
    requires ReturnsInterpreted(body[1..], arguments, argumentValues, slots + [Some(body[0].name)], locals + [v], below, pc, fid, functionNames)
    ensures ReturnsInterpreted(body, arguments, argumentValues, slots, locals, below, pc, fid, functionNames)
  {
    var s := body[0];
    var env := Bindings(arguments, argumentValues, slots, locals);
    LetIntendedBindsValue(s.name, s.declared, s.initializer, arguments, argumentValues, slots, locals, below, pc, fid, functionNames);
    var head := BodyLoweringCons(body, slots, arguments, functionNames);
    InterpretLet(body, env, v);
    ReturnsWithCons(head, LowerBodyIntended(body, slots, arguments, functionNames), LowerBodyIntended(body[1..], head.slots, arguments, functionNames),
                    Interpret(body, env), Frame(below, argumentValues, pc, fid, locals), Frame(below, argumentValues, pc, fid, locals + [v]),
                    below + argumentValues, pc, fid);
  }

  /** The intended lowering of a body is its first statement's code followed by the rest's. */
  lemma BodyLoweringCons(body: seq<A.Statement>, slots: Slots, arguments: seq<A.Parameter>, functionNames: seq<string>)
    returns (head: Lowering)
    requires body != [] && LowerBodyIntended(body, slots, arguments, functionNames).Some?
    ensures LowerStatementIntended(body[0], slots, arguments, functionNames) == Some(head)
    ensures LowerBodyIntended(body[1..], head.slots, arguments, functionNames).Some?
    ensures LowerBodyIntended(body, slots, arguments, functionNames).value.code
            == head.code + LowerBodyIntended(body[1..], head.slots, arguments, functionNames).value.code
  {
    head := LowerStatementIntended(body[0], slots, arguments, functionNames).value;
  }

  lemma InterpretLet(body: seq<A.Statement>, env: map<string, u32>, v: u32)
    requires CallFreeBody(body) && body != [] && body[0].Let? && Eval(body[0].initializer, env) == Some(v)
    ensures CallFreeBody(body[1..]) && Interpret(body, env) == Interpret(body[1..], env[body[0].name := v])
  {
  }

  /** A body starting with an expression statement: the rest runs in the same frame. */
  lemma ExprStep(body: seq<A.Statement>, arguments: seq<A.Parameter>, argumentValues: seq<u32>,
                 slots: Slots, locals: seq<u32>, below: seq<u32>, pc: u32, fid: u32, functionNames: seq<string>)
    requires BodyInFrame(body, arguments, argumentValues, slots, locals, below, pc, fid, functionNames) && body[0].Expr?
    ensures Eval(body[0].expression, Bindings(arguments, argumentValues, slots, locals)).Some?
    ensures BodyInFrame(body[1..], arguments, argumentValues, slots, locals, below, pc, fid, functionNames)
  {
    ExprStatementDrops(body[0].expression, arguments, argumentValues, slots, locals, below, pc, fid, functionNames);
  }

  lemma ExprThenBody(body: seq<A.Statement>, arguments: seq<A.Parameter>, argumentValues: seq<u32>,
                     slots: Slots, locals: seq<u32>, below: seq<u32>, pc: u32, fid: u32, functionNames: seq<string>)
    requires BodyInFrame(body, arguments, argumentValues, slots, locals, below, pc, fid, functionNames) && body[0].Expr?
    requires ReturnsInterpreted(body[1..], arguments, argumentValues, slots, locals, below, pc, fid, functionNames)
    ensures ReturnsInterpreted(body, arguments, argumentValues, slots, locals, below, pc, fid, functionNames)
  {
    var env := Bindings(arguments, argumentValues, slots, locals);
    ExprStatementDrops(body[0].expression, arguments, argumentValues, slots, locals, below, pc, fid, functionNames);
    var head := BodyLoweringCons(body, slots, arguments, functionNames);
    InterpretExpr(body, env);
    ReturnsWithCons(head, LowerBodyIntended(body, slots, arguments, functionNames), LowerBodyIntended(body[1..], slots, arguments, functionNames),
                    Interpret(body, env), Frame(below, argumentValues, pc, fid, locals), Frame(below, argumentValues, pc, fid, locals),
                    below + argumentValues, pc, fid);
  }

  lemma InterpretExpr(body: seq<A.Statement>, env: map<string, u32>)
    requires CallFreeBody(body) && body != [] && body[0].Expr? && Eval(body[0].expression, env).Some?
    ensures CallFreeBody(body[1..]) && Interpret(body, env) == Interpret(body[1..], env)
  {
  }
}
