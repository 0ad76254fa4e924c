/** The type checker (src/typechecker.rs): every declaration's signature is registered in a
    global environment first, then each body is checked statement by statement against the
    globals overlaid by the function's parameters and by the `let`s seen so far. */
module TypeChecker {
  import opened Base
  import A = Ast

  datatype Error =
    | UndeclaredVariable(name: string)
    | CallingNonFunction(name: string, typ: A.Type)
    | NonMatchingTypes(expected: A.Type, actual: A.Type)

  /** The source's `HashMap<&String, Type>`: inserting an existing name overwrites it. */
  type Env = map<string, A.Type>

  /** `name` occurs in `e`, as a variable or as a callee. */
  predicate Mentions(e: A.Expression, name: string)
    decreases e
  {
    match e
    case Variable(x) => x == name
    case NumLiteral(_) => false
    case Call(f, args) => f == name || exists i :: 0 <= i < |args| && Mentions(args[i], name)
    case Add(l, r) => Mentions(l, name) || Mentions(r, name)
    case Sub(l, r) => Mentions(l, name) || Mentions(r, name)
    case Mul(l, r) => Mentions(l, name) || Mentions(r, name)
    case Div(l, r) => Mentions(l, name) || Mentions(r, name)
    case Mod(l, r) => Mentions(l, name) || Mentions(r, name)
  }

  /** What each error reports is true of the environment: an undeclared name is missing
      from it, a called non-function has that type in it, and mismatching types differ. */
  predicate Explains(err: Error, env: Env) {
    match err
    case UndeclaredVariable(x) => x !in env
    case CallingNonFunction(f, t) => f in env && env[f] == t && !t.Fun?
    case NonMatchingTypes(expected, actual) => expected != actual
  }

  /** `check_expression`: does `e` have type `t` in `env`? The first error, in evaluation
      order, is returned. */
  function CheckExpression(e: A.Expression, t: A.Type, env: Env): (r: Result<(), Error>)
    ensures r.Err? ==> Explains(r.error, env)
    ensures r.Err? && r.error.UndeclaredVariable? ==> Mentions(e, r.error.name)
    ensures r.Err? && r.error.CallingNonFunction? ==> Mentions(e, r.error.name)
    decreases e, 1
  {
    match e
    case Call(f, _) =>
      if f !in env then Err(UndeclaredVariable(f))
      else if !env[f].Fun? then Err(CallingNonFunction(f, env[f]))
      else
        (match CheckArguments(e, env[f].parameters, 0, env)
         case Err(err) => Err(err)
         case Ok(_) => if t != env[f].result then Err(NonMatchingTypes(t, env[f].result)) else Ok(()))
    case Variable(x) =>
      if x !in env then Err(UndeclaredVariable(x))
      else if env[x] == t then Ok(())
      else Err(NonMatchingTypes(t, env[x]))
    case NumLiteral(_) =>
      if !t.U32? then Err(NonMatchingTypes(t, A.U32)) else Ok(())
    case _ =>
      if t != A.U32 then Err(NonMatchingTypes(t, A.U32))
      else
        match CheckExpression(e.left, t, env)
        case Err(err) => Err(err)
        case Ok(_) => CheckExpression(e.right, t, env)
  }

  /** The `zip` of a call's arguments, from the `i`-th on, with the callee's parameter types:
      it stops at the shorter of the two, so extra or missing arguments go unnoticed. */
  function CheckArguments(call: A.Expression, types: seq<A.Type>, i: nat, env: Env): (r: Result<(), Error>)
    requires call.Call? && i <= |call.arguments|
    ensures r.Err? ==> Explains(r.error, env)
    ensures r.Err? && (r.error.UndeclaredVariable? || r.error.CallingNonFunction?) ==>
      exists j :: i <= j < |call.arguments| && Mentions(call.arguments[j], r.error.name)
    decreases call, 0, |call.arguments| - i
  {
    if i == |call.arguments| || i >= |types| then Ok(())
    else
      match CheckExpression(call.arguments[i], types[i], env)
      case Err(err) => Err(err)
      case Ok(_) => CheckArguments(call, types, i + 1, env)
  }

  /** The type registered for a declaration: `Fun(parameter types, return type)`. */
  function Signature(d: A.Declaration): (t: A.Type)
    ensures t.Fun? && |t.parameters| == |d.arguments| && t.result == d.returnType
    ensures forall i :: 0 <= i < |d.arguments| ==> t.parameters[i] == d.arguments[i].typ
  {
    A.Fun(seq(|d.arguments|, i requires 0 <= i < |d.arguments| => d.arguments[i].typ), d.returnType)
  }

  /** The global environment after registering `declarations` in order; a later declaration
      of a name replaces an earlier one. */
  function Globals(declarations: seq<A.Declaration>): Env
    decreases |declarations|
  {
    if declarations == [] then map[]
    else
      var last := declarations[|declarations| - 1];
      Globals(declarations[..|declarations| - 1])[last.name := Signature(last)]
  }

  /** A function's starting environment: the globals, then its parameters inserted in order. */
  function FunctionEnv(globals: Env, parameters: seq<A.Parameter>): Env
    decreases |parameters|
  {
    if parameters == [] then globals
    else
      var last := parameters[|parameters| - 1];
      FunctionEnv(globals, parameters[..|parameters| - 1])[last.name := last.typ]
  }

  /** The statements the checker handles: a standalone expression statement is not
      implemented (`todo!`), and a `let` must carry its type (`unwrap`). */
  predicate Supported(body: seq<A.Statement>) {
    forall i :: 0 <= i < |body| ==> !body[i].Expr? && (body[i].Let? ==> body[i].declared.Some?)
  }

  predicate AllSupported(declarations: seq<A.Declaration>) {
    forall i :: 0 <= i < |declarations| ==> Supported(declarations[i].body)
  }

  /** A body, from its first statement on: a `let` checks its initializer against the
      declared type and only then binds its name; a `return` checks its expression against
      the return type, and checking goes on after it. */
  function CheckBody(body: seq<A.Statement>, returnType: A.Type, env: Env): Result<(), Error>
    requires Supported(body)
    decreases |body|
  {
    if body == [] then Ok(())
    else
      match body[0]
      case Let(name, declared, initializer) =>
        (match CheckExpression(initializer, declared.value, env)
         case Err(err) => Err(err)
         case Ok(_) => CheckBody(body[1..], returnType, env[name := declared.value]))
      case Return(e) =>
        (match CheckExpression(e, returnType, env)
         case Err(err) => Err(err)
         case Ok(_) => CheckBody(body[1..], returnType, env))
  }

  /** The bodies of `declarations`, in order, each in its own environment. */
  function CheckDeclarations(declarations: seq<A.Declaration>, globals: Env): Result<(), Error>
    requires AllSupported(declarations)
    decreases |declarations|
  {
    if declarations == [] then Ok(())
    else
      var d := declarations[0];
      match CheckBody(d.body, d.returnType, FunctionEnv(globals, d.arguments))
      case Err(err) => Err(err)
      case Ok(_) => CheckDeclarations(declarations[1..], globals)
  }

  /** `check`: the first error of the first body that has one. */
  function CheckProgram(declarations: seq<A.Declaration>): Result<(), Error>
    requires AllSupported(declarations)
  {
    CheckDeclarations(declarations, Globals(declarations))
  }

  /** `check`, as the source runs it: one loop registers every signature, then for each
      declaration a fresh environment is filled from the globals and the parameters, and the
      body's statements are checked in order, the environment growing with each `let`. */
  method Check(declarations: seq<A.Declaration>) returns (r: Result<(), Error>)
    requires AllSupported(declarations)
    ensures r == CheckProgram(declarations)
  {
    var globals: Env := map[];
    for i := 0 to |declarations|
      invariant globals == Globals(declarations[..i])
    {
      var d := declarations[i];
      assert declarations[..i + 1][..i] == declarations[..i];
      globals := globals[d.name := Signature(d)];
    }
    assert declarations[..|declarations|] == declarations;
    for i := 0 to |declarations|
      invariant CheckDeclarations(declarations[i..], globals) == CheckProgram(declarations)
    {
      var d := declarations[i];
      var locals := CopyEnv(globals);
      for k := 0 to |d.arguments|
        invariant locals == FunctionEnv(globals, d.arguments[..k])
      {
        assert d.arguments[..k + 1][..k] == d.arguments[..k];
        locals := locals[d.arguments[k].name := d.arguments[k].typ];
      }
      assert d.arguments[..|d.arguments|] == d.arguments;
      r := CheckStatements(d.body, d.returnType, locals);
      if r.Err? {
        return;
      }
      assert declarations[i..][1..] == declarations[i + 1..];
    }
    r := Ok(());
  }

  /** The copy of the globals into a function's environment, one entry at a time. */
  method CopyEnv(globals: Env) returns (locals: Env)
    ensures locals == globals
  {
    locals := map[];
    var pending := globals.Keys;
    while pending != {}
      invariant pending <= globals.Keys
      invariant locals.Keys == globals.Keys - pending
      invariant forall x :: x in locals ==> locals[x] == globals[x]
      decreases |pending|
    {
      var x :| x in pending;
      locals := locals[x := globals[x]];
      pending := pending - {x};
    }
  }

  /** The statement loop of one body: stops at the first error. */
  method CheckStatements(body: seq<A.Statement>, returnType: A.Type, env: Env) returns (r: Result<(), Error>)
    requires Supported(body)
    ensures r == CheckBody(body, returnType, env)
  {
    var locals := env;
    for j := 0 to |body|
      invariant CheckBody(body[j..], returnType, locals) == CheckBody(body, returnType, env)
    {
      assert body[j..][1..] == body[j + 1..];
      match body[j]
      case Let(name, declared, initializer) =>
        var checked := CheckExpression(initializer, declared.value, locals);
        if checked.Err? {
          return Err(checked.error);
        }
        locals := locals[name := declared.value];
      case Return(e) =>
        var checked := CheckExpression(e, returnType, locals);
        if checked.Err? {
          return Err(checked.error);
        }
    }
    assert body[|body|..] == [];
    r := Ok(());
  }
}
