/** The bytecode compiler of src/compiler.rs: lowering of expressions, statements and whole
    declaration lists to machine operations, together with the `local_vars` bookkeeping that
    tracks, slot for slot, the words the machine holds above a frame's two saved control words.

    Each lowering is first stated as a function returning `None` exactly where the source
    panics (an unresolved variable or function name, a `let` without a type); the compiler
    itself is a set of methods that append to the operation list and push and pop slots the
    way the source does, proved to produce what those functions describe. */
module Compiler {
  import opened Base
  import A = Ast
  import opened Machine

  /** `local_vars`: one entry per word above the saved control words; the slot of a
      let-bound value carries that binding's name. */
  type Slots = seq<Option<string>>

  /** What lowering a piece of syntax contributes: the operations it appends and the slot
      list it leaves behind. */
  datatype Lowering = Lowering(code: seq<Operation>, slots: Slots)

  /** `size_of`: the number of words a value of type `t` occupies. */
  function SizeOf(t: A.Type): (size: u32)
    ensures size == 1
  {
    match t
    case Fun(_, _) => 1
    case U32 => 1
  }

  /** `Vec::pop` on the slot list, whose result the compiler discards: removing from an empty
      list leaves it empty. */
  function PopSlot(slots: Slots): (r: Slots)
    ensures slots != [] ==> r == slots[..|slots| - 1]
    ensures slots == [] ==> r == []
  {
    if slots == [] then [] else slots[..|slots| - 1]
  }

  /** `n` unnamed slots. */
  function Unnamed(n: nat): (r: Slots)
    ensures |r| == n && forall i :: 0 <= i < n ==> r[i].None?
  {
    seq(n, _ => None)
  }

  /** `n` copies of `Pop`. */
  function Pops(n: nat): (r: seq<Operation>)
    ensures |r| == n && forall i :: 0 <= i < n ==> r[i] == Pop
  {
    seq(n, _ => Pop)
  }

  function ParameterNames(arguments: seq<A.Parameter>): (names: seq<string>)
    ensures |names| == |arguments| && forall i :: 0 <= i < |arguments| ==> names[i] == arguments[i].name
  {
    seq(|arguments|, i requires 0 <= i < |arguments| => arguments[i].name)
  }

  /** The depth a reference to `name` reads: the distance from the top of the slot list to
      the most recent slot carrying that name; failing that, the parameter's position counted
      from the end of the parameter list plus the number of slots plus the two saved words.
      `None` is the source's panic on an unresolved name. */
  function VariableDepth(slots: Slots, arguments: seq<A.Parameter>, name: string): (r: Option<nat>)
    ensures r.None? <==> Some(name) !in slots && name !in ParameterNames(arguments)
    ensures Some(name) in slots ==>
      && r.Some? && r.value < |slots| && slots[|slots| - 1 - r.value] == Some(name)
      && forall j :: |slots| - r.value <= j < |slots| ==> slots[j] != Some(name)
    ensures Some(name) !in slots && r.Some? ==>
      var j := r.value - |slots| - 2;
      && 0 <= j < |arguments| && arguments[|arguments| - 1 - j].name == name
      && forall k :: |arguments| - j <= k < |arguments| ==> arguments[k].name != name
  {
    match LastDistance(slots, Some(name))
    case Some(d) => Some(d)
    case None =>
      match LastDistance(ParameterNames(arguments), name)
      case None => None
      case Some(j) => Some(j + |slots| + 2)
  }

  /** The machine instruction of a binary arithmetic expression. */
  function BinaryOperation(e: A.Expression): (op: Operation)
    requires e.IsBinary()
    ensures op.IsBinary()
  {
    match e
    case Add(_, _) => Add
    case Sub(_, _) => Sub
    case Mul(_, _) => Mul
    case Div(_, _) => Div
    case Mod(_, _) => Mod
  }

  /** Put `code` in front of what a later lowering emits. */
  function Prepend(code: seq<Operation>, r: Option<Lowering>): (p: Option<Lowering>)
    ensures p.None? <==> r.None?
    ensures p.Some? ==> p.value.code == code + r.value.code && p.value.slots == r.value.slots
  {
    match r
    case None => None
    case Some(l) => Some(Lowering(code + l.code, l.slots))
  }

  lemma PrependNothing(r: Option<Lowering>)
    ensures Prepend([], r) == r
  {
    if r.Some? {
      assert [] + r.value.code == r.value.code;
    }
  }

  lemma PrependTwice(a: seq<Operation>, b: seq<Operation>, r: Option<Lowering>)
    ensures Prepend(a, Prepend(b, r)) == Prepend(a + b, r)
  {
    if r.Some? {
      assert a + (b + r.value.code) == (a + b) + r.value.code;
    }
  }

  /** `compile_expression` on `e` with slot list `slots`. */
  function LowerExpression(e: A.Expression, slots: Slots, arguments: seq<A.Parameter>, functionNames: seq<string>): Option<Lowering>
    decreases e, 1
  {
    match e
    case Call(f, es) =>
      (match LowerArguments(e, 0, slots, arguments, functionNames)
       case None => None
       case Some(l) =>
         match FirstIndex(functionNames, f)
         case None => None
         case Some(k) => Some(Lowering(l.code + [Call(Truncate(k))], l.slots)))
    case NumLiteral(n) => Some(Lowering([Push(n)], slots + [None]))
    case Variable(name) =>
      (match VariableDepth(slots, arguments, name)
       case None => None
       case Some(d) => Some(Lowering([Get(Truncate(d))], slots + [None])))
    case Add(a, b) => LowerBinary(e, slots, arguments, functionNames)
    case Sub(a, b) => LowerBinary(e, slots, arguments, functionNames)
    case Mul(a, b) => LowerBinary(e, slots, arguments, functionNames)
    case Div(a, b) => LowerBinary(e, slots, arguments, functionNames)
    case Mod(a, b) => LowerBinary(e, slots, arguments, functionNames)
  }

  /** A binary expression: the left operand, the right operand, the instruction, and one
      slot popped. */
  function LowerBinary(e: A.Expression, slots: Slots, arguments: seq<A.Parameter>, functionNames: seq<string>): Option<Lowering>
    requires e.IsBinary()
    decreases e, 0
  {
    match LowerExpression(e.left, slots, arguments, functionNames)
    case None => None
    case Some(l) =>
      match LowerExpression(e.right, l.slots, arguments, functionNames)
      case None => None
      case Some(r) => Some(Lowering(l.code + r.code + [BinaryOperation(e)], PopSlot(r.slots)))
  }

  /** The arguments `i..` of the call `call`, lowered left to right. */
  function LowerArguments(call: A.Expression, i: nat, slots: Slots, arguments: seq<A.Parameter>, functionNames: seq<string>): Option<Lowering>
    requires call.Call? && i <= |call.arguments|
    decreases call, 0, |call.arguments| - i
  {
    if i == |call.arguments| then Some(Lowering([], slots))
    else
      match LowerExpression(call.arguments[i], slots, arguments, functionNames)
      case None => None
      case Some(l) => Prepend(l.code, LowerArguments(call, i + 1, l.slots, arguments, functionNames))
  }

  /** `compile_statement`. */
  function LowerStatement(s: A.Statement, slots: Slots, arguments: seq<A.Parameter>, functionNames: seq<string>): Option<Lowering> {
    match s
    case Let(name, declared, initializer) =>
      if declared.None? then None
      else
        var size := SizeOf(declared.value);
        var named := if size > 0 then slots + [Some(name)] + Unnamed(size - 1) else slots;
        (match LowerExpression(initializer, named, arguments, functionNames)
         case None => None
         case Some(l) => Some(Lowering(l.code, PopSlot(l.slots))))
    case Expr(e) =>
      (match LowerExpression(e, slots, arguments, functionNames)
       case None => None
       case Some(l) => Some(Lowering(l.code + [Pop], PopSlot(l.slots))))
    case Return(e) =>
      match LowerExpression(e, slots, arguments, functionNames)
      case None => None
      case Some(l) =>
        var rest := PopSlot(l.slots);
        Some(Lowering(l.code + [Put(WrappingAdd(Truncate(|rest|), 2))] + Pops(|rest|) + [Return], rest))
  }

  /** The statements of a body, in order, threading the slot list. */
  function LowerBody(body: seq<A.Statement>, slots: Slots, arguments: seq<A.Parameter>, functionNames: seq<string>): Option<Lowering>
    decreases |body|
  {
    if body == [] then Some(Lowering([], slots))
    else
      match LowerStatement(body[0], slots, arguments, functionNames)
      case None => None
      case Some(l) => Prepend(l.code, LowerBody(body[1..], l.slots, arguments, functionNames))
  }

  /** The names of the declarations, in declaration order. */
  function DeclarationNames(declarations: seq<A.Declaration>): (names: seq<string>)
    ensures |names| == |declarations|
    ensures forall i :: 0 <= i < |declarations| ==> names[i] == declarations[i].name
  {
    seq(|declarations|, i requires 0 <= i < |declarations| => declarations[i].name)
  }

  /** One declaration, compiled with an empty slot list against the table of all names. */
  function CompileDeclaration(d: A.Declaration, functionNames: seq<string>): Option<Function> {
    match LowerBody(d.body, [], d.arguments, functionNames)
    case None => None
    case Some(l) => Some(Function(d.name, Code(l.code)))
  }

  /** `compile`'s function table: one entry per declaration, in declaration order; `None`
      when some declaration makes the compiler panic. */
  function CompiledTable(declarations: seq<A.Declaration>): Option<seq<Function>> {
    var names := DeclarationNames(declarations);
    if forall d | d in declarations :: CompileDeclaration(d, names).Some? then
      Some(seq(|declarations|, i requires 0 <= i < |declarations| => CompileDeclaration(declarations[i], names).value))
    else None
  }

  // ---------------------------------------------------------------------------------------
  // The compiler proper: the source's procedures over a growing operation list and a slot
  // list, each proved to emit what the corresponding function above describes.

  /** `compile_expression`: appends `e`'s code to `operations` and leaves the slot list its
      lowering describes. */
  method CompileExpression(e: A.Expression, operations: seq<Operation>, localVars: Slots,
                           arguments: seq<A.Parameter>, functionNames: seq<string>)
      returns (operations': seq<Operation>, localVars': Slots)
    requires LowerExpression(e, localVars, arguments, functionNames).Some?
    ensures var l := LowerExpression(e, localVars, arguments, functionNames).value;
      operations' == operations + l.code && localVars' == l.slots
    decreases e
  {
    match e {
      case Call(f, es) =>
        operations', localVars' := operations, localVars;
        assert operations'[|operations|..] == [];
        PrependNothing(LowerArguments(e, 0, localVars, arguments, functionNames));
        for i := 0 to |es|
          invariant |operations| <= |operations'| && operations'[..|operations|] == operations
          invariant LowerArguments(e, 0, localVars, arguments, functionNames)
                    == Prepend(operations'[|operations|..], LowerArguments(e, i, localVars', arguments, functionNames))
        {
          var before := operations';
          operations', localVars' := CompileExpression(es[i], operations', localVars', arguments, functionNames);
          assert operations'[|operations|..] == before[|operations|..] + operations'[|before|..];
          PrependTwice(before[|operations|..], operations'[|before|..], LowerArguments(e, i + 1, localVars', arguments, functionNames));
        }
        var k := FirstIndex(functionNames, f).value;
        operations' := operations' + [Call(Truncate(k))];
      case NumLiteral(n) =>
        operations' := operations + [Push(n)];
        localVars' := localVars + [None];
      case Variable(name) =>
        var index := VariableDepth(localVars, arguments, name).value;
        operations' := operations + [Get(Truncate(index))];
        localVars' := localVars + [None];
      case Add(a, b) =>
        operations', localVars' := CompileBinary(e, operations, localVars, arguments, functionNames);
      case Sub(a, b) =>
        operations', localVars' := CompileBinary(e, operations, localVars, arguments, functionNames);
      case Mul(a, b) =>
        operations', localVars' := CompileBinary(e, operations, localVars, arguments, functionNames);
      case Div(a, b) =>
        operations', localVars' := CompileBinary(e, operations, localVars, arguments, functionNames);
      case Mod(a, b) =>
        operations', localVars' := CompileBinary(e, operations, localVars, arguments, functionNames);
    }
  }

  /** The arm shared by the five arithmetic expressions. */
  method CompileBinary(e: A.Expression, operations: seq<Operation>, localVars: Slots,
                       arguments: seq<A.Parameter>, functionNames: seq<string>)
      returns (operations': seq<Operation>, localVars': Slots)
    requires e.IsBinary() && LowerBinary(e, localVars, arguments, functionNames).Some?
    ensures var l := LowerBinary(e, localVars, arguments, functionNames).value;
      operations' == operations + l.code && localVars' == l.slots
    decreases e, 0
  {
    operations', localVars' := CompileExpression(e.left, operations, localVars, arguments, functionNames);
    operations', localVars' := CompileExpression(e.right, operations', localVars', arguments, functionNames);
    operations' := operations' + [BinaryOperation(e)];
    localVars' := PopSlot(localVars');
  }

  /** `compile_statement`. */
  method CompileStatement(s: A.Statement, operations: seq<Operation>, localVars: Slots,
                          arguments: seq<A.Parameter>, functionNames: seq<string>)
      returns (operations': seq<Operation>, localVars': Slots)
    requires LowerStatement(s, localVars, arguments, functionNames).Some?
    ensures var l := LowerStatement(s, localVars, arguments, functionNames).value;
      operations' == operations + l.code && localVars' == l.slots
  {
    match s {
      case Let(name, declared, initializer) =>
        var size := SizeOf(declared.value);
        localVars' := localVars;
        if size > 0 {
          localVars' := localVars' + [Some(name)];
          for i := 1 to size
            invariant localVars' == localVars + [Some(name)] + Unnamed(i - 1)
          {
            localVars' := localVars' + [None];
          }
        }
        operations', localVars' := CompileExpression(initializer, operations, localVars', arguments, functionNames);
        localVars' := PopSlot(localVars');
      case Expr(e) =>
        operations', localVars' := CompileExpression(e, operations, localVars, arguments, functionNames);
        operations' := operations' + [Pop];
        localVars' := PopSlot(localVars');
      case Return(e) =>
        operations', localVars' := CompileExpression(e, operations, localVars, arguments, functionNames);
        var code := operations'[|operations|..];
        localVars' := PopSlot(localVars');
        operations' := operations' + [Put(WrappingAdd(Truncate(|localVars'|), 2))];
        for i := 0 to |localVars'|
          invariant operations' == operations + code + [Put(WrappingAdd(Truncate(|localVars'|), 2))] + Pops(i)
        {
          operations' := operations' + [Pop];
        }
        operations' := operations' + [Return];
    }
  }

  /** The body of `compile`'s loop for one declaration: its statements lowered in order
      from an empty slot list. */
  method CompileFunction(declaration: A.Declaration, functionNames: seq<string>) returns (f: Function)
    requires CompileDeclaration(declaration, functionNames).Some?
    ensures Some(f) == CompileDeclaration(declaration, functionNames)
  {
    var localVars: Slots := [];
    var operations: seq<Operation> := [];
    PrependNothing(LowerBody(declaration.body, [], declaration.arguments, functionNames));
    assert declaration.body[0..] == declaration.body;
    for i := 0 to |declaration.body|
      invariant LowerBody(declaration.body, [], declaration.arguments, functionNames)
                == Prepend(operations, LowerBody(declaration.body[i..], localVars, declaration.arguments, functionNames))
    {
      assert declaration.body[i..][1..] == declaration.body[i + 1..];
      var before := operations;
      operations, localVars := CompileStatement(declaration.body[i], operations, localVars, declaration.arguments, functionNames);
      PrependTwice(before, operations[|before|..], LowerBody(declaration.body[i + 1..], localVars, declaration.arguments, functionNames));
      assert operations == before + operations[|before|..];
    }
    assert declaration.body[|declaration.body|..] == [];
    assert operations + [] == operations;
    f := Function(declaration.name, Code(operations));
  }

  /** `compile`: the names of all declarations, then each declaration compiled against them,
      then a machine over the resulting table. */
  method Compile(ast: seq<A.Declaration>) returns (vm: VirtualMachine)
    requires CompiledTable(ast).Some?
    ensures fresh(vm)
    ensures vm.functions == CompiledTable(ast).value
    ensures vm.State() == Initial(vm.functions)
  {
    var functionNames := DeclarationNames(ast);
    var functions: seq<Function> := [];
    for j := 0 to |ast|
      invariant |functions| == j
      invariant forall m :: 0 <= m < j ==> Some(functions[m]) == CompileDeclaration(ast[m], functionNames)
    {
      assert ast[j] in ast;
      var f := CompileFunction(ast[j], functionNames);
      functions := functions + [f];
    }
    assert functions == CompiledTable(ast).value;
    vm := new VirtualMachine.FromFunctions(functions);
  }
}
