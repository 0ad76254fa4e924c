/** Compiled functions on the machine: a call-free function body, lowered with the intended
    `let`, runs from its entry to the caller and leaves the value the reference semantics
    gives; and the example of the compiler's documentation, `add`, called from `main`. */
module CompiledRuns {
  import opened Base
  import A = Ast
  import opened Machine
  import opened MachineProperties
  import opened StraightLine
  import opened Compiler
  import opened CompilerCorrectness

  /** A body without `let` statements. */
  predicate LetFree(body: seq<A.Statement>)
    decreases |body|
  {
    body == [] || (!body[0].Let? && LetFree(body[1..]))
  }

  /** Without `let`, the compiler as written and the intended lowering emit the same code. */
  lemma {:induction false} LetFreeLowersAsWritten(body: seq<A.Statement>, slots: Slots, arguments: seq<A.Parameter>,
                                                  functionNames: seq<string>)
    requires LetFree(body)
    ensures LowerBodyIntended(body, slots, arguments, functionNames) == LowerBody(body, slots, arguments, functionNames)
    decreases |body|
  {
    if body != [] {
      match LowerStatement(body[0], slots, arguments, functionNames)
      case None =>
      case Some(l) => LetFreeLowersAsWritten(body[1..], l.slots, arguments, functionNames);
    }
  }

  /** The words a call leaves for the callee: the caller's words, the argument values, then
      the saved program counter and function id. */
  function Entry(f: u32, below: seq<u32>, argumentValues: seq<u32>, pc: u32, fid: u32, heap: seq<u32>): MachineState {
    MachineState(f, 0, Frame(below, argumentValues, pc, fid, []), heap)
  }

  /** A function whose code is the intended lowering of a call-free body that returns at its
      end, entered with its arguments on the stack, takes exactly as many iterations as it
      has instructions to come back to the caller's function at the instruction after the
      call, with the caller's words, the last of them replaced by the value `Interpret`
      gives, and the heap untouched. */
  lemma CompiledBodyReturns(fs: seq<Function>, f: u32, body: seq<A.Statement>, arguments: seq<A.Parameter>,
                            argumentValues: seq<u32>, below: seq<u32>, pc: u32, fid: u32, heap: seq<u32>,
                            functionNames: seq<string>, total: nat, rest: nat)
    requires BodyInFrame(body, arguments, argumentValues, [], [], below, pc, fid, functionNames)
    requires f != U32_MAX && f < |fs|
    requires fs[f].implementation == Code(LowerBodyIntended(body, [], arguments, functionNames).value.code)
    requires |LowerBodyIntended(body, [], arguments, functionNames).value.code| < WORD_MODULUS
    requires rest + |LowerBodyIntended(body, [], arguments, functionNames).value.code| == total
    ensures var env := Bindings(arguments, argumentValues, [], []);
      && Interpret(body, env).Some?
      && LeadsTo(fs, Entry(f, below, argumentValues, pc, fid, heap), total,
                 MachineState(fid, WrappingAdd(pc, 1), ReplaceLast(below + argumentValues, Interpret(body, env).value), heap),
                 rest)
  {
    BodyComputesResult(body, arguments, argumentValues, [], [], below, pc, fid, functionNames);
    var env := Bindings(arguments, argumentValues, [], []);
    var code := LowerBodyIntended(body, [], arguments, functionNames).value.code;
    var n := |code|;
    var result := ReplaceLast(below + argumentValues, Interpret(body, env).value);
    var s := Entry(f, below, argumentValues, pc, fid, heap);
    var t := MachineState(f, n - 1, result + [pc, fid], heap);
    var u := MachineState(fid, WrappingAdd(pc, 1), result, heap);
    assert code[0..n - 1] == code[..n - 1];
    RunsStraight(fs, s, code[..n - 1], t, total, rest + 1);
    assert (result + [pc, fid])[..|result|] == result;
    ReturnLeadsTo(fs, t, u, rest + 1, rest);
    LeadsToTrans(fs, s, total, t, rest + 1, u, rest);
  }

  // ---------------------------------------------------------------------------------------
  // The documented example: `fn add(a: u32, b: u32): u32 { return a + b; }`.

  function AddDeclaration(): A.Declaration {
    A.Function("add", [A.Parameter("a", A.U32), A.Parameter("b", A.U32)], A.U32,
               [A.Return(A.Add(A.Variable("a"), A.Variable("b")))])
  }

  /** Both operands are read at depth 3 (the second after the first has been pushed), and
      the result is put at depth 2, over the first argument. */
  const AddCode: seq<Operation> := [Get(3), Get(3), Add, Put(2), Return]

  // One unfolding of the lowering functions each, for computing the examples' code.

  lemma LowerVariableStep(name: string, slots: Slots, arguments: seq<A.Parameter>, functionNames: seq<string>, d: nat)
    requires VariableDepth(slots, arguments, name) == Some(d)
    ensures LowerExpression(A.Variable(name), slots, arguments, functionNames) == Some(Lowering([Get(Truncate(d))], slots + [None]))
  {
  }

  lemma LowerBinaryStep(e: A.Expression, slots: Slots, arguments: seq<A.Parameter>, functionNames: seq<string>, l: Lowering, r: Lowering)
    requires e.IsBinary()
    requires LowerExpression(e.left, slots, arguments, functionNames) == Some(l)
    requires LowerExpression(e.right, l.slots, arguments, functionNames) == Some(r)
    ensures LowerExpression(e, slots, arguments, functionNames) == Some(Lowering(l.code + r.code + [BinaryOperation(e)], PopSlot(r.slots)))
  {
  }

  lemma LowerReturnStep(e: A.Expression, slots: Slots, arguments: seq<A.Parameter>, functionNames: seq<string>, l: Lowering)
    requires LowerExpression(e, slots, arguments, functionNames) == Some(l)
    ensures var rest := PopSlot(l.slots);
      LowerStatement(A.Return(e), slots, arguments, functionNames)
      == Some(Lowering(l.code + [Put(WrappingAdd(Truncate(|rest|), 2))] + Pops(|rest|) + [Return], rest))
  {
  }

  lemma LowerLiteralStep(n: u32, slots: Slots, arguments: seq<A.Parameter>, functionNames: seq<string>)
    ensures LowerExpression(A.NumLiteral(n), slots, arguments, functionNames) == Some(Lowering([Push(n)], slots + [None]))
  {
  }

  lemma LowerArgumentStep(call: A.Expression, i: nat, slots: Slots, arguments: seq<A.Parameter>, functionNames: seq<string>,
                          l: Lowering, rest: Lowering)
    requires call.Call? && i < |call.arguments|
    requires LowerExpression(call.arguments[i], slots, arguments, functionNames) == Some(l)
    requires LowerArguments(call, i + 1, l.slots, arguments, functionNames) == Some(rest)
    ensures LowerArguments(call, i, slots, arguments, functionNames) == Some(Lowering(l.code + rest.code, rest.slots))
  {
  }

  lemma LowerCallStep(call: A.Expression, slots: Slots, arguments: seq<A.Parameter>, functionNames: seq<string>, l: Lowering, k: nat)
    requires call.Call?
    requires LowerArguments(call, 0, slots, arguments, functionNames) == Some(l)
    requires FirstIndex(functionNames, call.callee) == Some(k)
    ensures LowerExpression(call, slots, arguments, functionNames) == Some(Lowering(l.code + [Call(Truncate(k))], l.slots))
  {
  }

  lemma LowerSingleStep(s: A.Statement, slots: Slots, arguments: seq<A.Parameter>, functionNames: seq<string>, l: Lowering)
    requires LowerStatement(s, slots, arguments, functionNames) == Some(l)
    ensures LowerBody([s], slots, arguments, functionNames) == Some(l)
  {
    assert [s][1..] == [];
    assert l.code + [] == l.code;
  }

  lemma AddDepths(arguments: seq<A.Parameter>)
    requires arguments == [A.Parameter("a", A.U32), A.Parameter("b", A.U32)]
    ensures VariableDepth([], arguments, "a") == Some(3)
    ensures VariableDepth([None], arguments, "b") == Some(3)
  {
    assert ParameterNames(arguments) == ["a", "b"];
    assert ["a", "b"][..1] == ["a"];
    assert LastDistance(["a", "b"], "a") == Some(1);
    assert LastDistance(["a", "b"], "b") == Some(0);
  }

  lemma AddOperandsLower(arguments: seq<A.Parameter>, functionNames: seq<string>)
    requires arguments == [A.Parameter("a", A.U32), A.Parameter("b", A.U32)]
    ensures LowerExpression(A.Variable("a"), [], arguments, functionNames) == Some(Lowering([Get(3)], [None]))
    ensures LowerExpression(A.Variable("b"), [None], arguments, functionNames) == Some(Lowering([Get(3)], [None, None]))
  {
    AddDepths(arguments);
    assert Truncate(3) == 3;
    var none: Slots, one: Slots := [], [None];
    assert none + [None] == [None] && one + [None] == [None, None];
    LowerVariableStep("a", [], arguments, functionNames, 3);
    LowerVariableStep("b", [None], arguments, functionNames, 3);
  }

  /** `a + b` in `add`: both reads at depth 3, then `Add`, leaving one unnamed slot. */
  lemma AddExpressionLowers(functionNames: seq<string>)
    ensures LowerExpression(AddDeclaration().body[0].expression, [], AddDeclaration().arguments, functionNames)
            == Some(Lowering([Get(3), Get(3), Add], [None]))
  {
    var sum := A.Add(A.Variable("a"), A.Variable("b"));
    var arguments := [A.Parameter("a", A.U32), A.Parameter("b", A.U32)];
    var read: seq<Operation> := [Get(3)];
    AddCodeParts();
    AddOperandsLower(arguments, functionNames);
    LowerBinaryStep(sum, [], arguments, functionNames, Lowering(read, [None]), Lowering(read, [None, None]));
  }

  lemma AddCodeParts()
    ensures [Get(3)] + [Get(3)] + [Add] == [Get(3), Get(3), Add] && BinaryOperation(A.Add(A.Variable("a"), A.Variable("b"))) == Add
    ensures PopSlot([None, None]) == [None]
  {
  }

  /** `add` compiles to the documented code, whatever the other declarations are called. */
  lemma AddCompiles(functionNames: seq<string>)
    ensures CompileDeclaration(AddDeclaration(), functionNames) == Some(Function("add", Code(AddCode)))
    ensures LowerBodyIntended(AddDeclaration().body, [], AddDeclaration().arguments, functionNames).value.code == AddCode
  {
    var d := AddDeclaration();
    var l := Lowering([Get(3), Get(3), Add], [None]);
    AddExpressionLowers(functionNames);
    LowerReturnStep(d.body[0].expression, [], d.arguments, functionNames, l);
    assert WrappingAdd(Truncate(0), 2) == 2 && Pops(0) == [];
    assert l.code + [Put(2)] + [] + [Return] == AddCode;
    LowerSingleStep(d.body[0], [], d.arguments, functionNames, Lowering(AddCode, []));
    LetFreeLowersAsWritten(d.body, [], d.arguments, functionNames);
  }

  /** `add` meets the conditions of the correctness theorem in any frame with room for its
      two-word working stack, and the reference semantics adds its arguments. */
  lemma AddInFrame(x: u32, y: u32, below: seq<u32>, pc: u32, fid: u32, functionNames: seq<string>)
    requires |below| + 6 <= WORD_MODULUS
    ensures BodyInFrame(AddDeclaration().body, AddDeclaration().arguments, [x, y], [], [], below, pc, fid, functionNames)
    ensures Interpret(AddDeclaration().body, Bindings(AddDeclaration().arguments, [x, y], [], [])) == Some(WrappingAdd(x, y))
  {
    var d := AddDeclaration();
    AddCompiles(functionNames);
    AddBodyShape();
    TwoArgumentFrame(below, x, y, pc, fid, 0);
    AddInterprets(x, y);
  }

  lemma AddBodyShape()
    ensures var body := AddDeclaration().body;
      CallFreeBody(body) && ReturnsAtEnd(body) && Room(body) == 2
  {
    assert AddDeclaration().body[1..] == [];
  }

  lemma AddInterprets(x: u32, y: u32)
    ensures CallFreeBody(AddDeclaration().body)
    ensures Interpret(AddDeclaration().body, Bindings(AddDeclaration().arguments, [x, y], [], [])) == Some(WrappingAdd(x, y))
  {
    var d := AddDeclaration();
    AddBodyShape();
    var env := Bindings(d.arguments, [x, y], [], []);
    assert ParameterBindings(d.arguments[..1], [x]) == map["a" := x];
    assert env == map["a" := x, "b" := y];
  }

  /** Entered with a frame `[..., x, y, pc, fid]`, `add` returns in five iterations to the
      instruction after the caller's call, leaving `[..., x, x + y]` (wrapping). */
  lemma AddReturnsSum(fs: seq<Function>, f: u32, below: seq<u32>, x: u32, y: u32, pc: u32, fid: u32, heap: seq<u32>,
                      total: nat, rest: nat)
    requires f != U32_MAX && f < |fs| && fs[f].implementation == Code(AddCode)
    requires |below| + 6 <= WORD_MODULUS && rest + 5 == total
    ensures LeadsTo(fs, MachineState(f, 0, below + [x, y, pc, fid], heap), total,
                    MachineState(fid, WrappingAdd(pc, 1), below + [x, WrappingAdd(x, y)], heap), rest)
  {
    var d := AddDeclaration();
    AddCompiles([]);
    AddInFrame(x, y, below, pc, fid, []);
    CompiledBodyReturns(fs, f, d.body, d.arguments, [x, y], below, pc, fid, heap, [], total, rest);
    TwoArgumentFrame(below, x, y, pc, fid, WrappingAdd(x, y));
  }

  lemma TwoArgumentFrame(below: seq<u32>, x: u32, y: u32, pc: u32, fid: u32, v: u32)
    ensures Frame(below, [x, y], pc, fid, []) == below + [x, y, pc, fid]
    ensures ReplaceLast(below + [x, y], v) == below + [x, v]
  {
    assert (below + [x, y])[..|below| + 1] == below + [x];
  }

  /** The documented call: `add(3, 4)` with its arguments pushed returns with 3 and 7. */
  lemma AddThreeFour(fs: seq<Function>, f: u32, below: seq<u32>, pc: u32, fid: u32, heap: seq<u32>)
    requires f != U32_MAX && f < |fs| && fs[f].implementation == Code(AddCode) && |below| + 6 <= WORD_MODULUS
    ensures RunsSafely(fs, MachineState(f, 0, below + [3, 4, pc, fid], heap), 5)
    ensures Exec(fs, MachineState(f, 0, below + [3, 4, pc, fid], heap), 5)
            == MachineState(fid, WrappingAdd(pc, 1), below + [3, 7], heap)
  {
    AddReturnsSum(fs, f, below, 3, 4, pc, fid, heap, 5, 0);
    assert WrappingAdd(3, 4) == 7;
  }

  // ---------------------------------------------------------------------------------------
  // The whole program `fn main(): u32 { return add(3, 4); }` followed by `add`.

  function MainDeclaration(): A.Declaration {
    A.Function("main", [], A.U32, [A.Return(A.Call("add", [A.NumLiteral(3), A.NumLiteral(4)]))])
  }

  /** The arguments are pushed, `add` (declaration 1) is called, and its result, left in the
      first argument's word, is put at depth 3 over `main`'s own result word. */
  const MainCode: seq<Operation> := [Push(3), Push(4), Call(1), Put(3), Pop, Return]

  /** `add(3, 4)` in `main`: both literals pushed, then the call of declaration 1, leaving
      one slot per argument. */
  lemma MainCallLowers(functionNames: seq<string>)
    requires functionNames == ["main", "add"]
    ensures LowerExpression(MainDeclaration().body[0].expression, [], [], functionNames)
            == Some(Lowering([Push(3), Push(4), Call(1)], [None, None]))
  {
    var call := MainDeclaration().body[0].expression;
    assert FirstIndex(functionNames, "add") == Some(1) by {
      assert functionNames[1..] == ["add"];
    }
    assert call.arguments == [A.NumLiteral(3), A.NumLiteral(4)];
    LowerLiteralStep(3, [], [], functionNames);
    LowerLiteralStep(4, [None], [], functionNames);
    var none: Slots, one: Slots := [], [None];
    assert none + [None] == [None] && one + [None] == [None, None];
    assert LowerArguments(call, 2, [None, None], [], functionNames) == Some(Lowering([], [None, None]));
    LowerArgumentStep(call, 1, [None], [], functionNames, Lowering([Push(4)], [None, None]), Lowering([], [None, None]));
    assert [Push(4)] + [] == [Push(4)];
    LowerArgumentStep(call, 0, [], [], functionNames, Lowering([Push(3)], [None]), Lowering([Push(4)], [None, None]));
    assert [Push(3)] + [Push(4)] == [Push(3), Push(4)];
    LowerCallStep(call, [], [], functionNames, Lowering([Push(3), Push(4)], [None, None]), 1);
    assert Truncate(1) == 1 && [Push(3), Push(4)] + [Call(1)] == [Push(3), Push(4), Call(1)];
  }

  lemma MainCompiles(functionNames: seq<string>)
    requires functionNames == ["main", "add"]
    ensures CompileDeclaration(MainDeclaration(), functionNames) == Some(Function("main", Code(MainCode)))
  {
    var d := MainDeclaration();
    var l := Lowering([Push(3), Push(4), Call(1)], [None, None]);
    MainCallLowers(functionNames);
    LowerReturnStep(d.body[0].expression, [], [], functionNames, l);
    assert PopSlot([None, None]) == [None];
    assert WrappingAdd(Truncate(1), 2) == 3 && Pops(1) == [Pop];
    assert l.code + [Put(3)] + [Pop] + [Return] == MainCode;
    LowerSingleStep(d.body[0], [], [], functionNames, Lowering(MainCode, [None]));
  }

  /** A table of two declarations that both compile. */
  lemma TableOfTwo(d0: A.Declaration, d1: A.Declaration, f0: Function, f1: Function)
    requires CompileDeclaration(d0, DeclarationNames([d0, d1])) == Some(f0)
    requires CompileDeclaration(d1, DeclarationNames([d0, d1])) == Some(f1)
    ensures CompiledTable([d0, d1]) == Some([f0, f1])
  {
    var ds, names := [d0, d1], DeclarationNames([d0, d1]);
    assert forall d | d in ds :: CompileDeclaration(d, names).Some?;
    var table := seq(|ds|, i requires 0 <= i < |ds| => CompileDeclaration(ds[i], names).value);
    assert table == [f0, f1];
  }

  /** The function table of the program: `main`, then `add`. */
  lemma AddProgramCompiles()
    ensures CompiledTable([MainDeclaration(), AddDeclaration()])
            == Some([Function("main", Code(MainCode)), Function("add", Code(AddCode))])
  {
    var ds := [MainDeclaration(), AddDeclaration()];
    assert DeclarationNames(ds) == ["main", "add"];
    MainCompiles(["main", "add"]);
    AddCompiles(["main", "add"]);
    TableOfTwo(ds[0], ds[1], Function("main", Code(MainCode)), Function("add", Code(AddCode)));
  }

  predicate LoadsAddProgram(fs: seq<Function>) {
    |fs| == 2 && fs[0].implementation == Code(MainCode) && fs[1].implementation == Code(AddCode)
  }

  /** `main` pushes 3 and 4 and calls `add`. */
  lemma MainCallsAdd(fs: seq<Function>)
    requires LoadsAddProgram(fs)
    ensures LeadsTo(fs, MachineState(0, 0, [0, 0, U32_MAX], []), 11, MachineState(1, 0, [0, 0, U32_MAX, 3, 4, 2, 0], []), 8)
  {
    var s0 := MachineState(0, 0, [0, 0, U32_MAX], []);
    var s1 := MachineState(0, 2, [0, 0, U32_MAX, 3, 4], []);
    var s2 := MachineState(1, 0, [0, 0, U32_MAX, 3, 4, 2, 0], []);
    assert MainCode[0..2] == [Push(3), Push(4)];
    assert RunStraight([Push(3), Push(4)], [0, 0, U32_MAX]) == Some([0, 0, U32_MAX, 3, 4]) by {
      var r := Some([0, 0, U32_MAX, 3, 4]);
      assert RunStraight([], [0, 0, U32_MAX, 3, 4]) == r;
      assert [Push(4)][1..] == [] && [0, 0, U32_MAX, 3] + [4] == [0, 0, U32_MAX, 3, 4];
      assert RunStraight([Push(4)], [0, 0, U32_MAX, 3]) == r;
      assert [Push(3), Push(4)][1..] == [Push(4)] && [0, 0, U32_MAX] + [3] == [0, 0, U32_MAX, 3];
    }
    RunsStraight(fs, s0, [Push(3), Push(4)], s1, 11, 9);
    CallLeadsTo(fs, s1, 1, s2, 9, 8);
    LeadsToTrans(fs, s0, 11, s1, 9, s2, 8);
  }

  /** Back in `main`, the result is moved into `main`'s result word and `main` returns. */
  lemma MainReturnsSeven(fs: seq<Function>)
    requires LoadsAddProgram(fs)
    ensures LeadsTo(fs, MachineState(0, 3, [0, 0, U32_MAX, 3, 7], []), 3, MachineState(U32_MAX, 1, [7], []), 0)
  {
    var s3 := MachineState(0, 3, [0, 0, U32_MAX, 3, 7], []);
    var s4 := MachineState(0, 5, [7, 0, U32_MAX], []);
    assert MainCode[3..5] == [Put(3), Pop];
    assert RunStraight([Put(3), Pop], [0, 0, U32_MAX, 3, 7]) == Some([7, 0, U32_MAX]) by {
      assert [Put(3), Pop][1..] == [Pop] && [Pop][1..] == [];
      assert [0, 0, U32_MAX, 3, 7][..4][0 := 7] == [7, 0, U32_MAX, 3];
      assert [7, 0, U32_MAX, 3][..3] == [7, 0, U32_MAX];
      assert RunStraight([], [7, 0, U32_MAX]) == Some([7, 0, U32_MAX]);
    }
    RunsStraight(fs, s3, [Put(3), Pop], s4, 3, 1);
    assert WrappingAdd(0, 1) == 1;
    ReturnLeadsTo(fs, s4, MachineState(U32_MAX, 1, [7], []), 1, 0);
    LeadsToTrans(fs, s3, 3, s4, 1, MachineState(U32_MAX, 1, [7], []), 0);
  }

  /** From `main`'s entry, eleven iterations: two pushes, the call, the five of `add`, the
      put, the pop and the return that halts with 7 as the only word. */
  lemma AddProgramLeadsToExit(fs: seq<Function>, total: nat)
    requires LoadsAddProgram(fs) && total == 11
    ensures LeadsTo(fs, MachineState(0, 0, [0, 0, U32_MAX], []), total, MachineState(U32_MAX, 1, [7], []), 0)
  {
    var s0, s2 := MachineState(0, 0, [0, 0, U32_MAX], []), MachineState(1, 0, [0, 0, U32_MAX, 3, 4, 2, 0], []);
    var s3, done := MachineState(0, 3, [0, 0, U32_MAX, 3, 7], []), MachineState(U32_MAX, 1, [7], []);
    MainCallsAdd(fs);
    AddReturnsSum(fs, 1, [0, 0, U32_MAX], 3, 4, 2, 0, [], 8, 3);
    assert [0, 0, U32_MAX] + [3, 4, 2, 0] == [0, 0, U32_MAX, 3, 4, 2, 0];
    assert [0, 0, U32_MAX] + [3, WrappingAdd(3, 4)] == [0, 0, U32_MAX, 3, 7];
    assert WrappingAdd(2, 1) == 3;
    LeadsToTrans(fs, s0, 11, s2, 8, s3, 3);
    MainReturnsSeven(fs);
    LeadsToTrans(fs, s0, 11, s3, 3, done, 0);
  }

  lemma AddProgramRuns(fs: seq<Function>, total: nat)
    requires LoadsAddProgram(fs) && total == 11
    ensures RunsSafely(fs, MachineState(0, 0, [0, 0, U32_MAX], []), total)
    ensures Exec(fs, MachineState(0, 0, [0, 0, U32_MAX], []), total) == MachineState(U32_MAX, 1, [7], [])
  {
    var done := MachineState(U32_MAX, 1, [7], []);
    AddProgramLeadsToExit(fs, total);
    HaltedIsFinal(fs, done, 0);
    LeadsToRun(fs, MachineState(0, 0, [0, 0, U32_MAX], []), total, done, 0, done);
  }

  /** The compiled program runs `main`, which calls `add(3, 4)`, and halts after eleven
      iterations with exit code 7. */
  lemma AddProgramExitsSeven()
    ensures CompiledTable([MainDeclaration(), AddDeclaration()]).Some?
    ensures var fs := CompiledTable([MainDeclaration(), AddDeclaration()]).value;
      && RunsSafely(fs, Initial(fs), 11)
      && Halted(Exec(fs, Initial(fs), 11))
      && ExitCode(Exec(fs, Initial(fs), 11).stack) == 7
  {
    AddProgramCompiles();
    var fs := [Function("main", Code(MainCode)), Function("add", Code(AddCode))];
    assert Names(fs) == ["main", "add"];
    assert MainIndex(fs) == 0;
    AddProgramRuns(fs, 11);
  }
}
