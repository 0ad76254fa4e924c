/** What the type checker accepts, stated declaratively, and the scoping rules it follows. */
module TypeCheckerProperties {
  import opened Base
  import A = Ast
  import opened TypeChecker

  // ---------------------------------------------------------------------------------------
  // Expressions

  /** The typing rules of expressions: a literal is a `u32`; a variable has its type in the
      environment; arithmetic is on `u32`s and gives a `u32`; a call names a function whose
      result type is the expected type, and each argument the function has a parameter for
      has that parameter's type. */
  predicate WellTyped(e: A.Expression, t: A.Type, env: Env)
    decreases e
  {
    match e
    case NumLiteral(_) => t == A.U32
    case Variable(x) => x in env && env[x] == t
    case Call(f, args) =>
      && f in env && env[f].Fun? && env[f].result == t
      && forall i :: 0 <= i < |args| && i < |env[f].parameters| ==> WellTyped(args[i], env[f].parameters[i], env)
    case Add(l, r) => t == A.U32 && WellTyped(l, A.U32, env) && WellTyped(r, A.U32, env)
    case Sub(l, r) => t == A.U32 && WellTyped(l, A.U32, env) && WellTyped(r, A.U32, env)
    case Mul(l, r) => t == A.U32 && WellTyped(l, A.U32, env) && WellTyped(r, A.U32, env)
    case Div(l, r) => t == A.U32 && WellTyped(l, A.U32, env) && WellTyped(r, A.U32, env)
    case Mod(l, r) => t == A.U32 && WellTyped(l, A.U32, env) && WellTyped(r, A.U32, env)
  }

  /** `check_expression` succeeds exactly on well-typed expressions. */
  lemma {:induction false} CheckExpressionDecidesTyping(e: A.Expression, t: A.Type, env: Env)
    ensures CheckExpression(e, t, env).Ok? <==> WellTyped(e, t, env)
    decreases e, 1
  {
    match e
    case Call(f, args) =>
      if f in env && env[f].Fun? {
        CheckArgumentsDecideTyping(e, env[f].parameters, 0, env);
      }
    case Variable(_) =>
    case NumLiteral(_) =>
    case _ =>
      CheckExpressionDecidesTyping(e.left, A.U32, env);
      CheckExpressionDecidesTyping(e.right, A.U32, env);
  }

  lemma {:induction false} CheckArgumentsDecideTyping(call: A.Expression, types: seq<A.Type>, i: nat, env: Env)
    requires call.Call? && i <= |call.arguments|
    ensures CheckArguments(call, types, i, env).Ok? <==>
      forall j :: i <= j < |call.arguments| && j < |types| ==> WellTyped(call.arguments[j], types[j], env)
    decreases call, 0, |call.arguments| - i
  {
    if i < |call.arguments| && i < |types| {
      CheckExpressionDecidesTyping(call.arguments[i], types[i], env);
      CheckArgumentsDecideTyping(call, types, i + 1, env);
    }
  }

  /** The arity of a call is not checked: arguments beyond the callee's parameters are never
      looked at, and a call with fewer arguments than parameters is accepted. */
  lemma ExtraArgumentsIgnored(f: string, args: seq<A.Expression>, extra: seq<A.Expression>, t: A.Type, env: Env)
    requires f in env && env[f].Fun? && |args| >= |env[f].parameters|
    ensures CheckExpression(A.Call(f, args + extra), t, env) == CheckExpression(A.Call(f, args), t, env)
  {
    var ps := env[f].parameters;
    var long, short := A.Call(f, args + extra), A.Call(f, args);
    ArgumentsAgree(long, short, ps, 0, env);
  }

  lemma {:induction false} ArgumentsAgree(long: A.Expression, short: A.Expression, types: seq<A.Type>, i: nat, env: Env)
    requires long.Call? && short.Call? && |types| <= |short.arguments| <= |long.arguments|
    requires short.arguments == long.arguments[..|short.arguments|] && i <= |types|
    ensures CheckArguments(long, types, i, env) == CheckArguments(short, types, i, env)
    decreases |types| - i
  {
    if i < |types| {
      ArgumentsAgree(long, short, types, i + 1, env);
    }
  }

  /** A call with no arguments at all is accepted whatever the callee's parameters are. */
  lemma MissingArgumentsAccepted(f: string, t: A.Type, env: Env)
    requires f in env && env[f].Fun? && env[f].result == t
    ensures CheckExpression(A.Call(f, []), t, env) == Ok(())
  {
    assert CheckArguments(A.Call(f, []), env[f].parameters, 0, env) == Ok(());
  }

  // ---------------------------------------------------------------------------------------
  // Bodies: a `let` is visible to the statements after it, and only to those.

  /** The environment after one statement: a typed `let` binds its name. */
  function Bind(env: Env, s: A.Statement): (r: Env)
    ensures s.Let? && s.declared.Some? ==> s.name in r && r[s.name] == s.declared.value
    ensures !s.Let? ==> r == env
  {
    if s.Let? && s.declared.Some? then env[s.name := s.declared.value] else env
  }

  /** The environment after a prefix of a body. */
  function Scope(env: Env, statements: seq<A.Statement>): Env
    decreases |statements|
  {
    if statements == [] then env
    else Bind(Scope(env, statements[..|statements| - 1]), statements[|statements| - 1])
  }

  predicate WellTypedStatement(s: A.Statement, returnType: A.Type, env: Env) {
    match s
    case Let(_, declared, initializer) => declared.Some? && WellTyped(initializer, declared.value, env)
    case Expr(_) => false
    case Return(e) => WellTyped(e, returnType, env)
  }

  /** Every statement is well typed in the scope of the statements before it. */
  predicate WellTypedBody(body: seq<A.Statement>, returnType: A.Type, env: Env) {
    forall i :: 0 <= i < |body| ==> WellTypedStatement(body[i], returnType, Scope(env, body[..i]))
  }

  /** Scopes compose: a body's scope starts from the scope of its first statement. */
  lemma {:induction false} ScopeCons(env: Env, s: A.Statement, rest: seq<A.Statement>)
    ensures Scope(env, [s] + rest) == Scope(Bind(env, s), rest)
    decreases |rest|
  {
    if rest == [] {
      assert ([s] + rest)[..0] == [];
    } else {
      var n := |rest|;
      assert ([s] + rest)[..n] == [s] + rest[..n - 1];
      ScopeCons(env, s, rest[..n - 1]);
    }
  }

  lemma WellTypedBodyCons(body: seq<A.Statement>, returnType: A.Type, env: Env)
    requires body != []
    ensures WellTypedBody(body, returnType, env) <==>
      WellTypedStatement(body[0], returnType, env) && WellTypedBody(body[1..], returnType, Bind(env, body[0]))
  {
    var tail := body[1..];
    forall i | 0 <= i < |tail|
      ensures Scope(env, body[..i + 1]) == Scope(Bind(env, body[0]), tail[..i])
    {
      assert body[..i + 1] == [body[0]] + tail[..i];
      ScopeCons(env, body[0], tail[..i]);
    }
    assert body[..0] == [];
    if WellTypedStatement(body[0], returnType, env) && WellTypedBody(tail, returnType, Bind(env, body[0])) {
      forall i | 0 <= i < |body| ensures WellTypedStatement(body[i], returnType, Scope(env, body[..i])) {
        if i > 0 {
          assert body[i] == tail[i - 1];
        }
      }
    }
    if WellTypedBody(body, returnType, env) {
      forall i | 0 <= i < |tail| ensures WellTypedStatement(tail[i], returnType, Scope(Bind(env, body[0]), tail[..i])) {
        assert WellTypedStatement(body[i + 1], returnType, Scope(env, body[..i + 1]));
      }
    }
  }

  /** The statement loop accepts a body exactly when every statement is well typed in the
      scope of the statements before it. */
  lemma {:induction false} CheckBodyDecidesTyping(body: seq<A.Statement>, returnType: A.Type, env: Env)
    requires Supported(body)
    ensures CheckBody(body, returnType, env).Ok? <==> WellTypedBody(body, returnType, env)
    decreases |body|
  {
    if body != [] {
      var s := body[0];
      WellTypedBodyCons(body, returnType, env);
      assert Supported(body[1..]) by {
        forall i | 0 <= i < |body[1..]| ensures !body[1..][i].Expr? && (body[1..][i].Let? ==> body[1..][i].declared.Some?) {
          assert body[1..][i] == body[i + 1];
        }
      }
      CheckBodyDecidesTyping(body[1..], returnType, Bind(env, s));
      match s
      case Let(_, declared, initializer) =>
        CheckExpressionDecidesTyping(initializer, declared.value, env);
      case Return(e) =>
        CheckExpressionDecidesTyping(e, returnType, env);
    }
  }

  /** A `let`'s initializer is checked before its name is bound: it cannot refer to the
      name it defines unless that name was already in scope. */
  lemma LetInitializerCannotSeeItself(name: string, t: A.Type, rest: seq<A.Statement>, returnType: A.Type, env: Env)
    requires name !in env && Supported([A.Let(name, Some(t), A.Variable(name))] + rest)
    ensures CheckBody([A.Let(name, Some(t), A.Variable(name))] + rest, returnType, env) == Err(UndeclaredVariable(name))
  {
    assert ([A.Let(name, Some(t), A.Variable(name))] + rest)[0] == A.Let(name, Some(t), A.Variable(name));
  }

  /** ... and the statements after it see the binding with its declared type. */
  lemma LetVisibleAfterwards(name: string, t: A.Type, initializer: A.Expression, env: Env)
    requires WellTyped(initializer, t, env)
    ensures CheckBody([A.Let(name, Some(t), initializer), A.Return(A.Variable(name))], t, env) == Ok(())
  {
    var body := [A.Let(name, Some(t), initializer), A.Return(A.Variable(name))];
    var bound := env[name := t];
    CheckExpressionDecidesTyping(initializer, t, env);
    assert body[1..] == [A.Return(A.Variable(name))] && body[1..][1..] == [];
    assert CheckExpression(A.Variable(name), t, bound) == Ok(());
    assert CheckBody(body[1..], t, bound) == Ok(());
  }

  /** A `return` is checked against the declared return type, wherever it is. */
  lemma ReturnCheckedAgainstReturnType(e: A.Expression, rest: seq<A.Statement>, returnType: A.Type, env: Env)
    requires Supported([A.Return(e)] + rest)
    ensures CheckBody([A.Return(e)] + rest, returnType, env).Ok? ==> WellTyped(e, returnType, env)
    ensures !WellTyped(e, returnType, env) ==> CheckBody([A.Return(e)] + rest, returnType, env) == CheckExpression(e, returnType, env)
  {
    assert ([A.Return(e)] + rest)[0] == A.Return(e);
    CheckExpressionDecidesTyping(e, returnType, env);
  }

  // ---------------------------------------------------------------------------------------
  // Environments

  /** Every declared name is registered, and nothing else: every function is in the global
      environment before any body is checked, whatever its position. */
  lemma {:induction false} GlobalsHaveEveryName(declarations: seq<A.Declaration>, name: string)
    ensures name in Globals(declarations) <==> exists i :: 0 <= i < |declarations| && declarations[i].name == name
    decreases |declarations|
  {
    if declarations != [] {
      var n := |declarations|;
      var init := declarations[..n - 1];
      GlobalsHaveEveryName(init, name);
      if exists i :: 0 <= i < n && declarations[i].name == name {
        var i :| 0 <= i < n && declarations[i].name == name;
        if i < n - 1 {
          assert init[i] == declarations[i];
        }
      }
      if exists i :: 0 <= i < n - 1 && init[i].name == name {
        var i :| 0 <= i < n - 1 && init[i].name == name;
        assert declarations[i] == init[i];
      }
    }
  }

  /** A name's global type is the signature of its last declaration. */
  lemma {:induction false} GlobalsKeepLastDeclaration(declarations: seq<A.Declaration>, i: nat)
    requires i < |declarations|
    requires forall j :: i < j < |declarations| ==> declarations[j].name != declarations[i].name
    ensures declarations[i].name in Globals(declarations)
    ensures Globals(declarations)[declarations[i].name] == Signature(declarations[i])
    decreases |declarations|
  {
    var n := |declarations|;
    if i < n - 1 {
      var init := declarations[..n - 1];
      assert init[i] == declarations[i];
      assert forall j :: i < j < n - 1 ==> init[j] == declarations[j];
      GlobalsKeepLastDeclaration(init, i);
    }
  }

  /** Names that are not parameters keep their global binding. */
  lemma {:induction false} GlobalsVisibleUnlessShadowed(globals: Env, parameters: seq<A.Parameter>, name: string)
    requires forall k :: 0 <= k < |parameters| ==> parameters[k].name != name
    ensures name in FunctionEnv(globals, parameters) <==> name in globals
    ensures name in globals ==> FunctionEnv(globals, parameters)[name] == globals[name]
    decreases |parameters|
  {
    if parameters != [] {
      var init := parameters[..|parameters| - 1];
      assert forall k :: 0 <= k < |init| ==> init[k] == parameters[k];
      GlobalsVisibleUnlessShadowed(globals, init, name);
    }
  }

  /** Parameters shadow globals: the last parameter of a name gives its type. */
  lemma {:induction false} ParametersShadowGlobals(globals: Env, parameters: seq<A.Parameter>, k: nat)
    requires k < |parameters|
    requires forall j :: k < j < |parameters| ==> parameters[j].name != parameters[k].name
    ensures parameters[k].name in FunctionEnv(globals, parameters)
    ensures FunctionEnv(globals, parameters)[parameters[k].name] == parameters[k].typ
    decreases |parameters|
  {
    var n := |parameters|;
    if k < n - 1 {
      var init := parameters[..n - 1];
      assert init[k] == parameters[k];
      assert forall j :: k < j < n - 1 ==> init[j] == parameters[j];
      ParametersShadowGlobals(globals, init, k);
    }
  }

  // ---------------------------------------------------------------------------------------
  // Programs

  /** Every body is well typed in the globals overlaid by its function's parameters. */
  predicate WellTypedProgram(declarations: seq<A.Declaration>) {
    forall i :: 0 <= i < |declarations| ==>
      WellTypedBody(declarations[i].body, declarations[i].returnType, FunctionEnv(Globals(declarations), declarations[i].arguments))
  }

  /** `check` accepts a program exactly when it is well typed. */
  lemma CheckDecidesTyping(declarations: seq<A.Declaration>)
    requires AllSupported(declarations)
    ensures CheckProgram(declarations).Ok? <==> WellTypedProgram(declarations)
  {
    DeclarationsDecideTyping(declarations, Globals(declarations));
  }

  lemma {:induction false} DeclarationsDecideTyping(declarations: seq<A.Declaration>, globals: Env)
    requires AllSupported(declarations)
    ensures CheckDeclarations(declarations, globals).Ok? <==>
      forall i :: 0 <= i < |declarations| ==>
        WellTypedBody(declarations[i].body, declarations[i].returnType, FunctionEnv(globals, declarations[i].arguments))
    decreases |declarations|
  {
    if declarations != [] {
      var d, rest := declarations[0], declarations[1..];
      assert AllSupported(rest) by {
        forall i | 0 <= i < |rest| ensures Supported(rest[i].body) {
          assert rest[i] == declarations[i + 1];
        }
      }
      CheckBodyDecidesTyping(d.body, d.returnType, FunctionEnv(globals, d.arguments));
      DeclarationsDecideTyping(rest, globals);
      assert forall i :: 0 <= i < |rest| ==> rest[i] == declarations[i + 1];
    }
  }
}
