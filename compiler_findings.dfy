/** The compiler's `let`, as written, names the new slot before it lowers the initializer:
    while the initializer is lowered, every word it reads is counted one slot too deep. The
    program below returns u32::MAX instead of 5; lowered as intended (the initializer first,
    then its value's slot named) it returns 5, which is what the reference semantics gives. */
module CompilerFindings {
  import opened Base
  import A = Ast
  import opened Machine
  import opened MachineProperties
  import opened StraightLine
  import opened Compiler
  import opened CompilerCorrectness
  import opened CompiledRuns
  import opened CompilerProperties

  const LetX: A.Statement := A.Let("x", Some(A.U32), A.NumLiteral(5))
  const LetY: A.Statement := A.Let("y", Some(A.U32), A.Variable("x"))
  const ReturnY: A.Statement := A.Return(A.Variable("y"))

  /** `fn main(): u32 { let x: u32 = 5; let y: u32 = x; return y; }` */
  function LetDeclaration(): A.Declaration {
    A.Function("main", [], A.U32, [LetX, LetY, ReturnY])
  }

  /** As written, `x` is read at depth 1: the word below the 5, the saved function id. */
  const AsWrittenLetCode: seq<Operation> := [Push(5), Get(1), Get(0), Put(4), Pop, Pop, Return]

  /** As intended, `x` is read at depth 0: the 5 itself. */
  const IntendedLetCode: seq<Operation> := [Push(5), Get(0), Get(0), Put(4), Pop, Pop, Return]

  /** The tail both lowerings share: read `y`, put it over the result word, pop both locals
      and return. */
  const ReturnYCode: seq<Operation> := [Get(0), Put(4), Pop, Pop, Return]

  /** The machine's observable outcome: `steps` iterations run without a panic and leave the
      machine halted with `code` as the exit code. */
  predicate ExitsWith(fs: seq<Function>, steps: nat, code: u32) {
    && RunsSafely(fs, Initial(fs), steps)
    && Halted(Exec(fs, Initial(fs), steps))
    && ExitCode(Exec(fs, Initial(fs), steps).stack) == code
  }

  // One unfolding of the statement and body lowerings each.

  lemma LetStepAsWritten(name: string, initializer: A.Expression, slots: Slots, functionNames: seq<string>, l: Lowering)
    requires LowerExpression(initializer, slots + [Some(name)], [], functionNames) == Some(l)
    ensures LowerStatement(A.Let(name, Some(A.U32), initializer), slots, [], functionNames)
            == Some(Lowering(l.code, PopSlot(l.slots)))
  {
    assert slots + [Some(name)] + Unnamed(0) == slots + [Some(name)];
  }

  lemma LetStepIntended(name: string, initializer: A.Expression, slots: Slots, functionNames: seq<string>, l: Lowering)
    requires LowerExpression(initializer, slots, [], functionNames) == Some(l)
    ensures LowerStatementIntended(A.Let(name, Some(A.U32), initializer), slots, [], functionNames)
            == Some(Lowering(l.code, PopSlot(l.slots) + [Some(name)]))
  {
  }

  lemma PairLowers(s: A.Statement, t: A.Statement, slots: Slots, functionNames: seq<string>, head: Lowering, tail: Lowering)
    requires LowerStatement(s, slots, [], functionNames) == Some(head)
    requires LowerBody([t], head.slots, [], functionNames) == Some(tail)
    ensures LowerBody([s, t], slots, [], functionNames) == Some(Lowering(head.code + tail.code, tail.slots))
  {
    assert [s, t][1..] == [t];
  }

  lemma TripleLowers(s: A.Statement, t: A.Statement, u: A.Statement, slots: Slots, functionNames: seq<string>,
                     head: Lowering, tail: Lowering)
    requires LowerStatement(s, slots, [], functionNames) == Some(head)
    requires LowerBody([t, u], head.slots, [], functionNames) == Some(tail)
    ensures LowerBody([s, t, u], slots, [], functionNames) == Some(Lowering(head.code + tail.code, tail.slots))
  {
    assert [s, t, u][1..] == [t, u];
  }

  lemma PairLowersIntended(s: A.Statement, t: A.Statement, slots: Slots, functionNames: seq<string>, head: Lowering, tail: Lowering)
    requires LowerStatementIntended(s, slots, [], functionNames) == Some(head)
    requires LowerBodyIntended([t], head.slots, [], functionNames) == Some(tail)
    ensures LowerBodyIntended([s, t], slots, [], functionNames) == Some(Lowering(head.code + tail.code, tail.slots))
  {
    assert [s, t][1..] == [t];
  }

  lemma TripleLowersIntended(s: A.Statement, t: A.Statement, u: A.Statement, slots: Slots, functionNames: seq<string>,
                             head: Lowering, tail: Lowering)
    requires LowerStatementIntended(s, slots, [], functionNames) == Some(head)
    requires LowerBodyIntended([t, u], head.slots, [], functionNames) == Some(tail)
    ensures LowerBodyIntended([s, t, u], slots, [], functionNames) == Some(Lowering(head.code + tail.code, tail.slots))
  {
    assert [s, t, u][1..] == [t, u];
  }

  /** `return y;` with `y` on top of the slots `[x, y]`, under either lowering. */
  lemma ReturnYLowers(functionNames: seq<string>)
    ensures LowerBody([ReturnY], [Some("x"), Some("y")], [], functionNames)
            == Some(Lowering(ReturnYCode, [Some("x"), Some("y")]))
    ensures LowerBodyIntended([ReturnY], [Some("x"), Some("y")], [], functionNames)
            == Some(Lowering(ReturnYCode, [Some("x"), Some("y")]))
  {
    var slots: Slots := [Some("x"), Some("y")];
    assert LastDistance(slots, Some("y")) == Some(0);
    assert Truncate(0) == 0;
    LowerVariableStep("y", slots, [], functionNames, 0);
    LowerReturnStep(A.Variable("y"), slots, [], functionNames, Lowering([Get(0)], slots + [None]));
    assert PopSlot(slots + [None]) == slots;
    assert WrappingAdd(Truncate(2), 2) == 4 && Pops(2) == [Pop, Pop];
    assert [Get(0)] + [Put(4)] + [Pop, Pop] + [Return] == ReturnYCode;
    LowerSingleStep(ReturnY, slots, [], functionNames, Lowering(ReturnYCode, slots));
    assert LetFree([ReturnY]) by {
      assert [ReturnY][1..] == [];
    }
    LetFreeLowersAsWritten([ReturnY], slots, [], functionNames);
  }

  /** As written, `let x: u32 = 5;` pushes the 5 while `x` already names the slot below. */
  lemma LetXAsWritten(functionNames: seq<string>)
    ensures LowerStatement(LetX, [], [], functionNames) == Some(Lowering([Push(5)], [Some("x")]))
  {
    var none: Slots := [];
    assert none + [Some("x")] == [Some("x")] && [Some("x")] + [None] == [Some("x"), None];
    LowerLiteralStep(5, [Some("x")], [], functionNames);
    LetStepAsWritten("x", A.NumLiteral(5), [], functionNames, Lowering([Push(5)], [Some("x"), None]));
    assert PopSlot([Some("x"), None]) == [Some("x")];
  }

  /** As written, `let y: u32 = x;` resolves `x` with `y`'s slot already above it: depth 1. */
  lemma LetYAsWritten(functionNames: seq<string>)
    ensures LowerStatement(LetY, [Some("x")], [], functionNames) == Some(Lowering([Get(1)], [Some("x"), Some("y")]))
  {
    var named: Slots := [Some("x"), Some("y")];
    assert [Some("x")] + [Some("y")] == named;
    assert LastDistance(named, Some("x")) == Some(1) by {
      assert named[..1] == [Some("x")];
    }
    assert Truncate(1) == 1;
    LowerVariableStep("x", named, [], functionNames, 1);
    LetStepAsWritten("y", A.Variable("x"), [Some("x")], functionNames, Lowering([Get(1)], named + [None]));
    assert PopSlot(named + [None]) == named;
  }

  /** As intended, the 5 is pushed first and its slot then named `x`. */
  lemma LetXIntended(functionNames: seq<string>)
    ensures LowerStatementIntended(LetX, [], [], functionNames) == Some(Lowering([Push(5)], [Some("x")]))
  {
    var none: Slots := [];
    var pushed := none + [None];
    LowerLiteralStep(5, none, [], functionNames);
    LetStepIntended("x", A.NumLiteral(5), none, functionNames, Lowering([Push(5)], pushed));
    assert PopSlot(pushed) + [Some("x")] == [Some("x")];
  }

  /** As intended, `x` is resolved before `y`'s slot exists: depth 0. */
  lemma LetYIntended(functionNames: seq<string>)
    ensures LowerStatementIntended(LetY, [Some("x")], [], functionNames) == Some(Lowering([Get(0)], [Some("x"), Some("y")]))
  {
    var one: Slots := [Some("x")];
    assert LastDistance(one, Some("x")) == Some(0);
    assert Truncate(0) == 0;
    LowerVariableStep("x", one, [], functionNames, 0);
    LetStepIntended("y", A.Variable("x"), one, functionNames, Lowering([Get(0)], one + [None]));
    assert PopSlot(one + [None]) == one && one + [Some("y")] == [Some("x"), Some("y")];
  }

  /** Both codes split into the `let x`, `let y` and `return y` parts. */
  lemma CodeParts()
    ensures AsWrittenLetCode == [Push(5)] + ([Get(1)] + ReturnYCode)
    ensures IntendedLetCode == [Push(5)] + ([Get(0)] + ReturnYCode)
  {
  }

  lemma BodyAsWritten(functionNames: seq<string>)
    ensures LowerBody([LetX, LetY, ReturnY], [], [], functionNames) == Some(Lowering(AsWrittenLetCode, [Some("x"), Some("y")]))
  {
    var xy: Slots := [Some("x"), Some("y")];
    var readX: seq<Operation> := [Get(1)];
    LetXAsWritten(functionNames);
    LetYAsWritten(functionNames);
    ReturnYLowers(functionNames);
    PairLowers(LetY, ReturnY, [Some("x")], functionNames, Lowering(readX, xy), Lowering(ReturnYCode, xy));
    TripleLowers(LetX, LetY, ReturnY, [], functionNames, Lowering([Push(5)], [Some("x")]), Lowering(readX + ReturnYCode, xy));
    CodeParts();
  }

  /** The intended lowering emits `IntendedLetCode`. */
  lemma BodyAsIntended(functionNames: seq<string>)
    ensures LowerBodyIntended([LetX, LetY, ReturnY], [], [], functionNames) == Some(Lowering(IntendedLetCode, [Some("x"), Some("y")]))
  {
    var xy: Slots := [Some("x"), Some("y")];
    var readX: seq<Operation> := [Get(0)];
    LetXIntended(functionNames);
    LetYIntended(functionNames);
    ReturnYLowers(functionNames);
    PairLowersIntended(LetY, ReturnY, [Some("x")], functionNames, Lowering(readX, xy), Lowering(ReturnYCode, xy));
    TripleLowersIntended(LetX, LetY, ReturnY, [], functionNames, Lowering([Push(5)], [Some("x")]), Lowering(readX + ReturnYCode, xy));
    CodeParts();
  }

  lemma LetBodyCallFree()
    ensures CallFreeBody([LetX, LetY, ReturnY])
  {
    assert Calls(A.NumLiteral(5)) == 0 && Calls(A.Variable("x")) == 0 && Calls(A.Variable("y")) == 0;
    assert [LetX, LetY, ReturnY][1..] == [LetY, ReturnY] && [LetY, ReturnY][1..] == [ReturnY] && [ReturnY][1..] == [];
    assert CallFreeBody([ReturnY]);
    assert CallFreeBody([LetY, ReturnY]);
  }

  /** The reference semantics: `y` is bound to `x`'s value, 5. */
  lemma LetInterpretsToFive()
    ensures CallFreeBody([LetX, LetY, ReturnY])
    ensures Interpret([LetX, LetY, ReturnY], map[]) == Some(5)
  {
    LetBodyCallFree();
    assert [LetX, LetY, ReturnY][1..] == [LetY, ReturnY] && [LetY, ReturnY][1..] == [ReturnY];
    var env1: map<string, u32> := map["x" := 5];
    assert Interpret([ReturnY], env1["y" := 5]) == Some(5);
    assert Interpret([LetY, ReturnY], env1) == Some(5);
  }

  lemma TableOfOne(d: A.Declaration, f: Function)
    requires CompileDeclaration(d, DeclarationNames([d])) == Some(f)
    ensures CompiledTable([d]) == Some([f])
  {
    var names := DeclarationNames([d]);
    assert forall e | e in [d] :: CompileDeclaration(e, names).Some?;
    assert seq(1, i requires 0 <= i < 1 => CompileDeclaration([d][i], names).value) == [f];
  }

  lemma LetTableAsWritten()
    ensures CompiledTable([LetDeclaration()]) == Some([Function("main", Code(AsWrittenLetCode))])
  {
    assert DeclarationNames([LetDeclaration()]) == ["main"];
    BodyAsWritten(["main"]);
    TableOfOne(LetDeclaration(), Function("main", Code(AsWrittenLetCode)));
  }

  /** The words the as-written code computes from `main`'s entry, one instruction at a time:
      it copies u32::MAX (the saved function id) where the 5 was meant. */
  lemma AsWrittenStack()
    ensures RunStraight(AsWrittenLetCode[..6], [0, 0, U32_MAX]) == Some([U32_MAX, 0, U32_MAX])
  {
    var m := U32_MAX;
    var r := Some([m, 0, m]);
    assert AsWrittenLetCode[..6] == [Push(5), Get(1), Get(0), Put(4), Pop, Pop];
    assert RunStraight([], [m, 0, m]) == r;
    assert RunStraight([Pop], [m, 0, m, 5]) == r by {
      assert [Pop][1..] == [] && [m, 0, m, 5][..3] == [m, 0, m];
    }
    assert RunStraight([Pop, Pop], [m, 0, m, 5, m]) == r by {
      assert [Pop, Pop][1..] == [Pop] && [m, 0, m, 5, m][..4] == [m, 0, m, 5];
    }
    assert RunStraight([Put(4), Pop, Pop], [0, 0, m, 5, m, m]) == r by {
      assert [Put(4), Pop, Pop][1..] == [Pop, Pop];
      assert [0, 0, m, 5, m, m][..5][0 := m] == [m, 0, m, 5, m];
    }
    assert RunStraight([Get(0), Put(4), Pop, Pop], [0, 0, m, 5, m]) == r by {
      assert [Get(0), Put(4), Pop, Pop][1..] == [Put(4), Pop, Pop] && [0, 0, m, 5, m] + [m] == [0, 0, m, 5, m, m];
    }
    assert RunStraight([Get(1), Get(0), Put(4), Pop, Pop], [0, 0, m, 5]) == r by {
      assert [Get(1), Get(0), Put(4), Pop, Pop][1..] == [Get(0), Put(4), Pop, Pop] && [0, 0, m, 5] + [m] == [0, 0, m, 5, m];
    }
    assert [Push(5), Get(1), Get(0), Put(4), Pop, Pop][1..] == [Get(1), Get(0), Put(4), Pop, Pop];
    assert [0, 0, m] + [5] == [0, 0, m, 5];
  }

  lemma AsWrittenLeadsToExit(fs: seq<Function>, total: nat)
    requires fs == [Function("main", Code(AsWrittenLetCode))] && total == 7
    ensures LeadsTo(fs, MachineState(0, 0, [0, 0, U32_MAX], []), total, MachineState(U32_MAX, 1, [U32_MAX], []), 0)
  {
    var s0, s6 := MachineState(0, 0, [0, 0, U32_MAX], []), MachineState(0, 6, [U32_MAX, 0, U32_MAX], []);
    var done := MachineState(U32_MAX, 1, [U32_MAX], []);
    AsWrittenStack();
    assert AsWrittenLetCode[0..6] == AsWrittenLetCode[..6];
    RunsStraight(fs, s0, AsWrittenLetCode[..6], s6, total, 1);
    assert WrappingAdd(0, 1) == 1;
    ReturnLeadsTo(fs, s6, done, 1, 0);
    LeadsToTrans(fs, s0, total, s6, 1, done, 0);
  }

  lemma AsWrittenExits(fs: seq<Function>)
    requires fs == [Function("main", Code(AsWrittenLetCode))]
    ensures ExitsWith(fs, 7, U32_MAX)
  {
    var done := MachineState(U32_MAX, 1, [U32_MAX], []);
    assert Names(fs) == ["main"] && MainIndex(fs) == 0;
    AsWrittenLeadsToExit(fs, 7);
    HaltedIsFinal(fs, done, 0);
    LeadsToRun(fs, Initial(fs), 7, done, 0, done);
  }

  /** As written: the program compiles to `AsWrittenLetCode`, and after its seven
      instructions the machine halts with exit code u32::MAX, although the reference
      semantics returns 5. */
  lemma LetReadsWrongWord()
    ensures CompiledTable([LetDeclaration()]) == Some([Function("main", Code(AsWrittenLetCode))])
    ensures ExitsWith([Function("main", Code(AsWrittenLetCode))], 7, U32_MAX)
    ensures CallFreeBody(LetDeclaration().body)
    ensures Interpret(LetDeclaration().body, map[]) == Some(5)
  {
    LetTableAsWritten();
    AsWrittenExits([Function("main", Code(AsWrittenLetCode))]);
    LetInterpretsToFive();
  }

  lemma IntendedInFrame()
    ensures BodyInFrame([LetX, LetY, ReturnY], [], [], [], [], [0], 0, U32_MAX, ["main"])
  {
    var body := [LetX, LetY, ReturnY];
    BodyAsIntended(["main"]);
    LetInterpretsToFive();
    assert body[1..] == [LetY, ReturnY] && body[1..][1..] == [ReturnY] && [ReturnY][1..] == [];
    assert Room([ReturnY]) == 1;
    assert Room(body) == 3;
    assert Frame([0], [], 0, U32_MAX, []) == [0, 0, U32_MAX];
  }

  /** `main`'s entry frame, its return point and its result word. */
  lemma IntendedEntry()
    ensures Entry(0, [0], [], 0, U32_MAX, []) == MachineState(0, 0, [0, 0, U32_MAX], [])
    ensures WrappingAdd(0, 1) == 1 && ReplaceLast([0] + [], 5) == [5]
    ensures Bindings([], [], [], []) == map[]
  {
    assert [0] + [] == [0];
  }

  lemma IntendedLeadsToExit(fs: seq<Function>, total: nat)
    requires fs == [Function("main", Code(IntendedLetCode))] && total == 7
    ensures LeadsTo(fs, MachineState(0, 0, [0, 0, U32_MAX], []), total, MachineState(U32_MAX, 1, [5], []), 0)
  {
    var body := [LetX, LetY, ReturnY];
    var below: seq<u32>, none: seq<u32>, m: u32 := [0], [], U32_MAX;
    IntendedEntry();
    IntendedInFrame();
    BodyAsIntended(["main"]);
    LetInterpretsToFive();
    CompiledBodyReturns(fs, 0, body, [], none, below, 0, m, none, ["main"], total, 0);
  }

  lemma IntendedExits(fs: seq<Function>)
    requires fs == [Function("main", Code(IntendedLetCode))]
    ensures ExitsWith(fs, 7, 5)
  {
    var done := MachineState(U32_MAX, 1, [5], []);
    assert Names(fs) == ["main"] && MainIndex(fs) == 0;
    IntendedLeadsToExit(fs, 7);
    HaltedIsFinal(fs, done, 0);
    LeadsToRun(fs, Initial(fs), 7, done, 0, done);
  }

  /** As intended: the same program lowers to `IntendedLetCode`, which halts after seven
      instructions with exit code 5, the value of the reference semantics; the general
      theorem `CompiledBodyReturns` covers every call-free body in the same way. */
  lemma IntendedLetReturnsBinding()
    ensures LowerBodyIntended(LetDeclaration().body, [], [], ["main"]) == Some(Lowering(IntendedLetCode, [Some("x"), Some("y")]))
    ensures ExitsWith([Function("main", Code(IntendedLetCode))], 7, 5)
    ensures CallFreeBody(LetDeclaration().body)
    ensures Interpret(LetDeclaration().body, map[]) == Some(5)
  {
    BodyAsIntended(["main"]);
    IntendedExits([Function("main", Code(IntendedLetCode))]);
    LetInterpretsToFive();
  }
}
