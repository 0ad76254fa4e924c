/** The slot bookkeeping of src/compiler.rs against the code it emits: every lowering changes
    the length of `local_vars` by the net number of words its code leaves on the stack, and
    the slots it adds are unnamed, except the one a `let` names. */
module CompilerProperties {
  import opened Base
  import A = Ast
  import opened Machine
  import opened Compiler

  /** The number of words an instruction leaves on its frame's operand stack, for the
      instructions the compiler emits. A `Call` counts 0: the callee's return sequence writes
      its result into the word of the last argument (into the caller's top word when there is
      no argument) and removes its own two control words. A `Return` removes the frame's two
      control words. The heap, immediate and control-flow instructions are never emitted by
      the compiler and count 0. */
  function Effect(op: Operation): int {
    match op
    case Push(_) => 1
    case Get(_) => 1
    case Pop => -1
    case Put(_) => -1
    case Add | Sub | Mul | Div | Mod => -1
    case Return => -2
    case _ => 0
  }

  /** The net number of words a block of code leaves on the stack. */
  function StackEffect(code: seq<Operation>): int
    decreases |code|
  {
    if code == [] then 0 else Effect(code[0]) + StackEffect(code[1..])
  }

  lemma {:induction false} StackEffectAppend(a: seq<Operation>, b: seq<Operation>)
    ensures StackEffect(a + b) == StackEffect(a) + StackEffect(b)
    decreases |a|
  {
    if a == [] {
      assert a + b == b;
    } else {
      assert (a + b)[0] == a[0] && (a + b)[1..] == a[1..] + b;
      StackEffectAppend(a[1..], b);
    }
  }

  lemma {:induction false} StackEffectPops(n: nat)
    ensures StackEffect(Pops(n)) == -(n as int)
    decreases n
  {
    if n > 0 {
      assert Pops(n) == [Pop] + Pops(n - 1);
      StackEffectPops(n - 1);
    }
  }

  /** The number of calls in `e` that pass no argument. */
  function EmptyCalls(e: A.Expression): nat
    decreases e, 1
  {
    if e.Call? then (if e.arguments == [] then 1 else 0) + EmptyCallsOfArguments(e, 0)
    else if e.IsBinary() then EmptyCalls(e.left) + EmptyCalls(e.right)
    else 0
  }

  function EmptyCallsOfArguments(call: A.Expression, i: nat): nat
    requires call.Call? && i <= |call.arguments|
    decreases call, 0, |call.arguments| - i
  {
    if i == |call.arguments| then 0 else EmptyCalls(call.arguments[i]) + EmptyCallsOfArguments(call, i + 1)
  }

  /** Every call in `e` passes at least one argument. */
  predicate CallsHaveArguments(e: A.Expression) {
    EmptyCalls(e) == 0
  }

  /** The number of calls in `e`. */
  function Calls(e: A.Expression): nat
    decreases e, 1
  {
    if e.Call? then 1 + CallsOfArguments(e, 0)
    else if e.IsBinary() then Calls(e.left) + Calls(e.right)
    else 0
  }

  function CallsOfArguments(call: A.Expression, i: nat): nat
    requires call.Call? && i <= |call.arguments|
    decreases call, 0, |call.arguments| - i
  {
    if i == |call.arguments| then 0 else Calls(call.arguments[i]) + CallsOfArguments(call, i + 1)
  }

  /** `e` contains no call. */
  predicate CallFree(e: A.Expression) {
    Calls(e) == 0
  }

  /** The number of words evaluating `e` leaves on the stack: one for a literal or a
      variable, one less than its operands together for arithmetic, and for a call what its
      arguments leave (the result takes the place of the last one). */
  function Net(e: A.Expression): int
    decreases e, 1
  {
    match e
    case Call(_, _) => NetOfArguments(e, 0)
    case Variable(_) => 1
    case NumLiteral(_) => 1
    case Add(a, b) => Net(a) + Net(b) - 1
    case Sub(a, b) => Net(a) + Net(b) - 1
    case Mul(a, b) => Net(a) + Net(b) - 1
    case Div(a, b) => Net(a) + Net(b) - 1
    case Mod(a, b) => Net(a) + Net(b) - 1
  }

  /** What the arguments `i..` of `call` leave on the stack together. */
  function NetOfArguments(call: A.Expression, i: nat): int
    requires call.Call? && i <= |call.arguments|
    decreases call, 0, |call.arguments| - i
  {
    if i == |call.arguments| then 0 else Net(call.arguments[i]) + NetOfArguments(call, i + 1)
  }

  lemma UnnamedAppend(m: nat, n: nat)
    ensures Unnamed(m) + Unnamed(n) == Unnamed(m + n)
  {
    assert forall i | 0 <= i < m + n :: (Unnamed(m) + Unnamed(n))[i] == None;
  }

  lemma PopUnnamed(slots: Slots, n: nat)
    requires n >= 1
    ensures PopSlot(slots + Unnamed(n)) == slots + Unnamed(n - 1)
  {
    UnnamedAppend(n - 1, 1);
    assert slots + Unnamed(n) == slots + Unnamed(n - 1) + Unnamed(1);
  }

  /** A call-free expression leaves exactly one word. */
  lemma {:induction false} CallFreeLeavesOne(e: A.Expression)
    requires CallFree(e)
    ensures CallsHaveArguments(e) && Net(e) == 1
    decreases e
  {
    match e
    case Variable(_) =>
    case NumLiteral(_) =>
    case Add(a, b) => CallFreeLeavesOne(a); CallFreeLeavesOne(b);
    case Sub(a, b) => CallFreeLeavesOne(a); CallFreeLeavesOne(b);
    case Mul(a, b) => CallFreeLeavesOne(a); CallFreeLeavesOne(b);
    case Div(a, b) => CallFreeLeavesOne(a); CallFreeLeavesOne(b);
    case Mod(a, b) => CallFreeLeavesOne(a); CallFreeLeavesOne(b);
  }

  /** The core bookkeeping theorem for expressions: when every call passes an argument, the
      lowering appends exactly `Net(e)` unnamed slots, at least one, and its code leaves
      exactly that many words on the stack; the slots below are untouched. */
  lemma {:induction false} ExpressionSlots(e: A.Expression, slots: Slots, arguments: seq<A.Parameter>, functionNames: seq<string>)
    requires CallsHaveArguments(e) && LowerExpression(e, slots, arguments, functionNames).Some?
    ensures var l := LowerExpression(e, slots, arguments, functionNames).value;
      && Net(e) >= 1
      && l.slots == slots + Unnamed(Net(e))
      && StackEffect(l.code) == Net(e)
    decreases e, 1
  {
    match e
    case Call(f, es) =>
      ArgumentsSlots(e, 0, slots, arguments, functionNames);
      var l := LowerArguments(e, 0, slots, arguments, functionNames).value;
      var k := FirstIndex(functionNames, f).value;
      StackEffectAppend(l.code, [Call(Truncate(k))]);
    case Variable(_) =>
      var l := LowerExpression(e, slots, arguments, functionNames).value;
      assert StackEffect(l.code[1..]) == 0;
    case NumLiteral(_) =>
      var l := LowerExpression(e, slots, arguments, functionNames).value;
      assert StackEffect(l.code[1..]) == 0;
    case Add(_, _) => BinarySlots(e, slots, arguments, functionNames);
    case Sub(_, _) => BinarySlots(e, slots, arguments, functionNames);
    case Mul(_, _) => BinarySlots(e, slots, arguments, functionNames);
    case Div(_, _) => BinarySlots(e, slots, arguments, functionNames);
    case Mod(_, _) => BinarySlots(e, slots, arguments, functionNames);
  }

  /** The binary case: left code, right code, the instruction, and one slot popped. */
  lemma {:induction false} BinarySlots(e: A.Expression, slots: Slots, arguments: seq<A.Parameter>, functionNames: seq<string>)
    requires e.IsBinary() && CallsHaveArguments(e) && LowerBinary(e, slots, arguments, functionNames).Some?
    ensures var l := LowerBinary(e, slots, arguments, functionNames).value;
      && Net(e) >= 1
      && l.slots == slots + Unnamed(Net(e))
      && StackEffect(l.code) == Net(e)
    decreases e, 0
  {
    assert EmptyCalls(e) == EmptyCalls(e.left) + EmptyCalls(e.right);
    var left := LowerExpression(e.left, slots, arguments, functionNames).value;
    ExpressionSlots(e.left, slots, arguments, functionNames);
    var right := LowerExpression(e.right, left.slots, arguments, functionNames).value;
    ExpressionSlots(e.right, left.slots, arguments, functionNames);
    UnnamedAppend(Net(e.left), Net(e.right));
    PopUnnamed(slots, Net(e.left) + Net(e.right));
    StackEffectAppend(left.code, right.code);
    StackEffectAppend(left.code + right.code, [BinaryOperation(e)]);
    BinaryOperationEffect(e);
  }

  lemma BinaryOperationEffect(e: A.Expression)
    requires e.IsBinary()
    ensures StackEffect([BinaryOperation(e)]) == -1
  {
    assert [BinaryOperation(e)][1..] == [];
  }

  /** The arguments `i..` of a call: each appends its own slots; together they leave at
      least one word per argument. */
  lemma {:induction false} ArgumentsSlots(call: A.Expression, i: nat, slots: Slots, arguments: seq<A.Parameter>, functionNames: seq<string>)
    requires call.Call? && i <= |call.arguments|
    requires EmptyCallsOfArguments(call, i) == 0
    requires LowerArguments(call, i, slots, arguments, functionNames).Some?
    ensures var l := LowerArguments(call, i, slots, arguments, functionNames).value;
      && NetOfArguments(call, i) >= |call.arguments| - i
      && l.slots == slots + Unnamed(NetOfArguments(call, i))
      && StackEffect(l.code) == NetOfArguments(call, i)
    decreases call, 0, |call.arguments| - i
  {
    if i == |call.arguments| {
      assert Unnamed(0) == [];
    } else {
      var head := LowerExpression(call.arguments[i], slots, arguments, functionNames).value;
      ExpressionSlots(call.arguments[i], slots, arguments, functionNames);
      var tail := LowerArguments(call, i + 1, head.slots, arguments, functionNames).value;
      ArgumentsSlots(call, i + 1, head.slots, arguments, functionNames);
      UnnamedAppend(Net(call.arguments[i]), NetOfArguments(call, i + 1));
      StackEffectAppend(head.code, tail.code);
    }
  }

  /** A call whose arguments are call-free appends exactly one slot per argument and none for
      its result, and its code ends with one `Call` of the first declaration with that name. */
  lemma CallSlotPerArgument(call: A.Expression, slots: Slots, arguments: seq<A.Parameter>, functionNames: seq<string>)
    requires call.Call? && |call.arguments| > 0
    requires forall j | 0 <= j < |call.arguments| :: CallFree(call.arguments[j])
    requires LowerExpression(call, slots, arguments, functionNames).Some?
    ensures var l := LowerExpression(call, slots, arguments, functionNames).value;
      && l.slots == slots + Unnamed(|call.arguments|)
      && FirstIndex(functionNames, call.callee).Some?
      && |l.code| >= 1 && l.code[|l.code| - 1] == Call(Truncate(FirstIndex(functionNames, call.callee).value))
  {
    forall j | 0 <= j < |call.arguments| ensures CallsHaveArguments(call.arguments[j]) && Net(call.arguments[j]) == 1 {
      CallFreeLeavesOne(call.arguments[j]);
    }
    ArgumentsAllOne(call, 0);
    ExpressionSlots(call, slots, arguments, functionNames);
  }

  lemma {:induction false} ArgumentsAllOne(call: A.Expression, i: nat)
    requires call.Call? && i <= |call.arguments|
    requires forall j | i <= j < |call.arguments| :: CallsHaveArguments(call.arguments[j]) && Net(call.arguments[j]) == 1
    ensures NetOfArguments(call, i) == |call.arguments| - i && EmptyCallsOfArguments(call, i) == 0
    decreases |call.arguments| - i
  {
    if i < |call.arguments| {
      ArgumentsAllOne(call, i + 1);
    }
  }

  /** Without that condition the bookkeeping can remove a slot it did not add: `f() + g()`
      adds no slot for either call, and the `Add` then pops the enclosing `let`'s slot `x`. */
  lemma ZeroArgumentCallsConsumeSlot()
    ensures var e := A.Add(A.Call("f", []), A.Call("g", []));
      && Net(e) == -1
      && LowerExpression(e, [Some("x")], [], ["f", "g"]) == Some(Lowering([Call(0), Call(1), Add], []))
  {
    var f, g := A.Call("f", []), A.Call("g", []);
    assert LowerArguments(f, 0, [Some("x")], [], ["f", "g"]) == Some(Lowering([], [Some("x")]));
    assert LowerArguments(g, 0, [Some("x")], [], ["f", "g"]) == Some(Lowering([], [Some("x")]));
    assert FirstIndex(["f", "g"], "f") == Some(0);
    assert FirstIndex(["f", "g"], "g") == Some(1) by {
      assert ["f", "g"][1..] == ["g"];
    }
    assert Truncate(0) == 0 && Truncate(1) == 1;
    assert [] + [Call(0)] == [Call(0)] && [] + [Call(1)] == [Call(1)];
    assert LowerExpression(f, [Some("x")], [], ["f", "g"]) == Some(Lowering([Call(0)], [Some("x")]));
    assert LowerExpression(g, [Some("x")], [], ["f", "g"]) == Some(Lowering([Call(1)], [Some("x")]));
    assert [Call(0)] + [Call(1)] + [Add] == [Call(0), Call(1), Add];
  }

  /** The expression a statement lowers. */
  function StatementExpression(s: A.Statement): A.Expression {
    match s
    case Let(_, _, e) => e
    case Expr(e) => e
    case Return(e) => e
  }

  /** The bookkeeping theorem for `let` and expression statements: the slot list changes
      length by exactly the net number of words the emitted code leaves. A `let` (every type
      has size 1) leaves its name on the slot of the initializer's first word; an expression
      statement drops its value's word and slot. */
  lemma StatementSlots(s: A.Statement, slots: Slots, arguments: seq<A.Parameter>, functionNames: seq<string>)
    requires !s.Return? && CallsHaveArguments(StatementExpression(s))
    requires LowerStatement(s, slots, arguments, functionNames).Some?
    ensures Net(StatementExpression(s)) >= 1
    ensures var l := LowerStatement(s, slots, arguments, functionNames).value;
      && |l.slots| == |slots| + StackEffect(l.code)
      && (s.Let? ==> l.slots == slots + [Some(s.name)] + Unnamed(Net(s.initializer) - 1))
      && (s.Expr? ==> l.slots == slots + Unnamed(Net(s.expression) - 1))
  {
    match s
    case Let(name, declared, initializer) =>
      var named := slots + [Some(name)] + Unnamed(0);
      assert named == slots + [Some(name)];
      ExpressionSlots(initializer, named, arguments, functionNames);
      PopUnnamed(named, Net(initializer));
    case Expr(e) =>
      ExpressionSlots(e, slots, arguments, functionNames);
      var l := LowerExpression(e, slots, arguments, functionNames).value;
      PopUnnamed(slots, Net(e));
      StackEffectAppend(l.code, [Pop]);
      assert StackEffect([Pop]) == -1 by {
        assert [Pop][1..] == [];
      }
  }

  /** The bookkeeping theorem for a body of `let` and expression statements: the slot list
      ends as long as the words the body's code leaves on top of the starting slots. */
  lemma {:induction false} BodySlots(body: seq<A.Statement>, slots: Slots, arguments: seq<A.Parameter>, functionNames: seq<string>)
    requires forall i | 0 <= i < |body| :: !body[i].Return? && CallsHaveArguments(StatementExpression(body[i]))
    requires LowerBody(body, slots, arguments, functionNames).Some?
    ensures var l := LowerBody(body, slots, arguments, functionNames).value;
      |l.slots| == |slots| + StackEffect(l.code)
    decreases |body|
  {
    if body != [] {
      var head := LowerStatement(body[0], slots, arguments, functionNames).value;
      StatementSlots(body[0], slots, arguments, functionNames);
      var tail := LowerBody(body[1..], head.slots, arguments, functionNames).value;
      BodySlots(body[1..], head.slots, arguments, functionNames);
      StackEffectAppend(head.code, tail.code);
    }
  }

  /** The code of `return e`: the expression, `Put` to the depth of the word just below the
      saved program counter (the remaining slots plus the two control words), one `Pop` per
      remaining slot, and `Return`; the slot list keeps the expression's extra words. */
  lemma ReturnLowering(e: A.Expression, slots: Slots, arguments: seq<A.Parameter>, functionNames: seq<string>)
    requires CallsHaveArguments(e) && LowerStatement(A.Return(e), slots, arguments, functionNames).Some?
    ensures var l := LowerStatement(A.Return(e), slots, arguments, functionNames).value;
      var depth := |slots| + Net(e) - 1;
      && depth >= |slots|
      && l.slots == slots + Unnamed(depth - |slots|)
      && l.code == LowerExpression(e, slots, arguments, functionNames).value.code
                   + [Put(WrappingAdd(Truncate(depth), 2))] + Pops(depth) + [Return]
  {
    ExpressionSlots(e, slots, arguments, functionNames);
    var x := LowerExpression(e, slots, arguments, functionNames).value;
    PopUnnamed(slots, Net(e));
    var rest := PopSlot(x.slots);
    assert |rest| == |slots| + Net(e) - 1;
    assert LowerStatement(A.Return(e), slots, arguments, functionNames)
           == Some(Lowering(x.code + [Put(WrappingAdd(Truncate(|rest|), 2))] + Pops(|rest|) + [Return], rest));
  }
}
