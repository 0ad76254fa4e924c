/** The recursive-descent parser (src/parser.rs). Each `Parsed…` function says what one
    parsing routine makes of the token stream in front of it: the syntax it builds and the
    stream it leaves, or the error it stops with. Each `Parse…` method is that routine as
    the source runs it, advancing a shared `Peekable2` over the tokens. */
module Parser {
  import opened Base
  import opened Lexer
  import opened Lookahead
  import A = Ast

  datatype Error = UnexpectedToken(token: Token) | UnexpectedEof

  /** A successful parse: what was built and the tokens left after it. */
  datatype Parsed<T> = Parsed(value: T, rest: seq<Token>)

  /** The error for whatever `next()` hands out when it was not the token wanted. */
  function Unexpected(ts: seq<Token>): Error {
    if ts == [] then UnexpectedEof else UnexpectedToken(ts[0])
  }

  /** `match tokens.next() { Some(expected) => …, Some(t) => UnexpectedToken(t), None =>
      UnexpectedEof }`: the stream after the expected token. */
  function Skip(ts: seq<Token>, expected: Token): (r: Result<seq<Token>, Error>)
    ensures r.Ok? ==> ts != [] && ts[0] == expected && r.value == ts[1..]
  {
    if ts != [] && ts[0] == expected then Ok(ts[1..]) else Err(Unexpected(ts))
  }

  /** `parse_type`: the only type there is to parse is the identifier `u32`. */
  function ParsedType(ts: seq<Token>): (r: Result<Parsed<A.Type>, Error>)
    ensures r.Ok? ==> ts != [] && r.value.rest == ts[1..]
  {
    if ts == [] then Err(UnexpectedEof)
    else if ts[0] == Identifier("u32") then Ok(Parsed(A.U32, ts[1..]))
    else Err(UnexpectedToken(ts[0]))
  }

  predicate IsAdditiveOperator(t: Token) {
    t == Add || t == Minus
  }

  predicate IsMultiplicativeOperator(t: Token) {
    t == Multiply || t == Divide || t == Mod
  }

  /** The node an operator token builds from its two operands. */
  function Binary(operator: Token, left: A.Expression, right: A.Expression): A.Expression
    requires IsAdditiveOperator(operator) || IsMultiplicativeOperator(operator)
  {
    match operator
    case Add => A.Add(left, right)
    case Minus => A.Sub(left, right)
    case Multiply => A.Mul(left, right)
    case Divide => A.Div(left, right)
    case Mod => A.Mod(left, right)
  }

  /** `parse_expression`. */
  function ParsedExpression(ts: seq<Token>): (r: Result<Parsed<A.Expression>, Error>)
    ensures r.Ok? ==> |r.value.rest| < |ts|
    decreases |ts|, 6
  {
    ParsedAdditive(ts)
  }

  /** `parse_additive`: one multiplicative operand, then the operator loop. */
  function ParsedAdditive(ts: seq<Token>): (r: Result<Parsed<A.Expression>, Error>)
    ensures r.Ok? ==> |r.value.rest| < |ts|
    decreases |ts|, 5
  {
    match ParsedMultiplicative(ts)
    case Err(e) => Err(e)
    case Ok(Parsed(first, rest)) => AdditiveTail(rest, first)
  }

  /** The loop of `parse_additive` with `left` built so far: each `+` or `-` and the operand
      after it extend `left` on the right. */
  function AdditiveTail(ts: seq<Token>, left: A.Expression): (r: Result<Parsed<A.Expression>, Error>)
    ensures r.Ok? ==> |r.value.rest| <= |ts|
    decreases |ts|, 4
  {
    if ts != [] && IsAdditiveOperator(ts[0]) then
      match ParsedMultiplicative(ts[1..])
      case Err(e) => Err(e)
      case Ok(Parsed(right, rest)) => AdditiveTail(rest, Binary(ts[0], left, right))
    else Ok(Parsed(left, ts))
  }

  /** `parse_multiplicative`: one primary operand, then the operator loop. */
  function ParsedMultiplicative(ts: seq<Token>): (r: Result<Parsed<A.Expression>, Error>)
    ensures r.Ok? ==> |r.value.rest| < |ts|
    decreases |ts|, 3
  {
    match ParsedPrimary(ts)
    case Err(e) => Err(e)
    case Ok(Parsed(first, rest)) => MultiplicativeTail(rest, first)
  }

  /** The loop of `parse_multiplicative` with `left` built so far. */
  function MultiplicativeTail(ts: seq<Token>, left: A.Expression): (r: Result<Parsed<A.Expression>, Error>)
    ensures r.Ok? ==> |r.value.rest| <= |ts|
    decreases |ts|, 2
  {
    if ts != [] && IsMultiplicativeOperator(ts[0]) then
      match ParsedPrimary(ts[1..])
      case Err(e) => Err(e)
      case Ok(Parsed(right, rest)) => MultiplicativeTail(rest, Binary(ts[0], left, right))
    else Ok(Parsed(left, ts))
  }

  /** `parse_primary` (reached through `parse_unary`, which adds nothing): a number, a
      variable, a call, or a parenthesised expression. */
  function ParsedPrimary(ts: seq<Token>): (r: Result<Parsed<A.Expression>, Error>)
    ensures r.Ok? ==> |r.value.rest| < |ts|
    decreases |ts|, 1
  {
    if ts == [] then Err(UnexpectedEof)
    else match ts[0]
      case Number(n) => Ok(Parsed(A.NumLiteral(n), ts[1..]))
      case Identifier(name) =>
        if |ts| > 1 && ts[1] == OpenParen then ParsedArguments(ts[2..], name, [])
        else Ok(Parsed(A.Variable(name), ts[1..]))
      case OpenParen =>
        (match ParsedExpression(ts[1..])
         case Err(e) => Err(e)
         case Ok(Parsed(inner, rest)) =>
           if rest != [] && rest[0] == CloseParen then Ok(Parsed(inner, rest[1..]))
           else Err(Unexpected(rest)))
      case t => Err(UnexpectedToken(t))
  }

  /** The argument loop of a call to `callee` with `arguments` read so far: each argument
      must be followed by `,` (consumed) or `)` (left for the loop to consume). */
  function ParsedArguments(ts: seq<Token>, callee: string, arguments: seq<A.Expression>): (r: Result<Parsed<A.Expression>, Error>)
    ensures r.Ok? ==> |r.value.rest| < |ts|
    decreases |ts|, 7
  {
    if ts != [] && ts[0] == CloseParen then Ok(Parsed(A.Call(callee, arguments), ts[1..]))
    else
      match ParsedExpression(ts)
      case Err(e) => Err(e)
      case Ok(Parsed(argument, rest)) =>
        match Separated(rest)
        case Err(e) => Err(e)
        case Ok(next) => ParsedArguments(next, callee, arguments + [argument])
  }

  /** The check after each argument of a call and each parameter of a function: a `,` is
      consumed, a `)` is left for the loop to consume, anything else is an error. */
  function Separated(ts: seq<Token>): (r: Result<seq<Token>, Error>)
    ensures r.Ok? ==> ts != [] && (ts[0] == Comma || ts[0] == CloseParen)
    ensures r.Ok? ==> r.value == if ts[0] == Comma then ts[1..] else ts
  {
    if ts != [] && ts[0] == Comma then Ok(ts[1..])
    else if ts != [] && ts[0] == CloseParen then Ok(ts)
    else Err(Unexpected(ts))
  }

  /** `parse_statement`. A `let` ends after its initializer, leaving the `;` in place; a
      `return` or an expression statement consumes its own `;`. */
  function ParsedStatement(ts: seq<Token>): (r: Result<Parsed<A.Statement>, Error>)
    ensures r.Ok? ==> |r.value.rest| < |ts|
  {
    if ts == [] then Err(UnexpectedEof)
    else if ts[0] == KwLet then
      var afterLet := ts[1..];
      if afterLet == [] || !afterLet[0].Identifier? then Err(Unexpected(afterLet))
      else
        match Skip(afterLet[1..], Colon)
        case Err(e) => Err(e)
        case Ok(afterColon) =>
          match ParsedType(afterColon)
          case Err(e) => Err(e)
          case Ok(Parsed(typ, afterType)) =>
            match Skip(afterType, Equals)
            case Err(e) => Err(e)
            case Ok(afterEquals) =>
              match ParsedExpression(afterEquals)
              case Err(e) => Err(e)
              case Ok(Parsed(value, rest)) => Ok(Parsed(A.Let(afterLet[0].name, Some(typ), value), rest))
    else if ts[0] == KwReturn then
      match ParsedExpression(ts[1..])
      case Err(e) => Err(e)
      case Ok(Parsed(e, afterExpression)) =>
        match Skip(afterExpression, Semicolon)
        case Err(err) => Err(err)
        case Ok(rest) => Ok(Parsed(A.Return(e), rest))
    else
      match ParsedExpression(ts)
      case Err(e) => Err(e)
      case Ok(Parsed(e, afterExpression)) =>
        match Skip(afterExpression, Semicolon)
        case Err(err) => Err(err)
        case Ok(rest) => Ok(Parsed(A.Expr(e), rest))
  }

  /** The body loop of `parse`, with `body` read so far: runs up to and including the `}`.
      After each statement the next token, unless it is `}`, is consumed and must be `;`. */
  function ParsedBody(ts: seq<Token>, body: seq<A.Statement>): (r: Result<Parsed<seq<A.Statement>>, Error>)
    ensures r.Ok? ==> |r.value.rest| < |ts|
    decreases |ts|
  {
    if ts != [] && ts[0] == CloseBrace then Ok(Parsed(body, ts[1..]))
    else
      match ParsedStatement(ts)
      case Err(e) => Err(e)
      case Ok(Parsed(statement, rest)) =>
        if rest == [] then Err(UnexpectedEof)
        else if rest[0] == CloseBrace then ParsedBody(rest, body + [statement])
        else if rest[0] == Semicolon then ParsedBody(rest[1..], body + [statement])
        else Err(UnexpectedToken(rest[0]))
  }

  /** The parameter loop of `parse`, with `parameters` read so far: runs up to and including
      the `)`, or to the end of the tokens. Each `name: type` must be followed by `,`
      (consumed) or `)` (left for the loop to consume). */
  function ParsedParameters(ts: seq<Token>, parameters: seq<A.Parameter>): (r: Result<Parsed<seq<A.Parameter>>, Error>)
    ensures r.Ok? ==> |r.value.rest| <= |ts|
    decreases |ts|
  {
    if ts == [] then Ok(Parsed(parameters, ts))
    else if ts[0] == CloseParen then Ok(Parsed(parameters, ts[1..]))
    else if !ts[0].Identifier? then Err(UnexpectedToken(ts[0]))
    else
      match Skip(ts[1..], Colon)
      case Err(e) => Err(e)
      case Ok(afterColon) =>
        match ParsedType(afterColon)
        case Err(e) => Err(e)
        case Ok(Parsed(typ, rest)) =>
          match Separated(rest)
          case Err(e) => Err(e)
          case Ok(next) => ParsedParameters(next, parameters + [A.Parameter(ts[0].name, typ)])
  }

  /** A function declaration after its `fn`: name, parameters, `:` and return type, body. */
  function ParsedFunction(ts: seq<Token>): (r: Result<Parsed<A.Declaration>, Error>)
    ensures r.Ok? ==> |r.value.rest| < |ts|
  {
    if ts == [] || !ts[0].Identifier? then Err(Unexpected(ts))
    else
      match Skip(ts[1..], OpenParen)
      case Err(e) => Err(e)
      case Ok(afterOpen) =>
        match ParsedParameters(afterOpen, [])
        case Err(e) => Err(e)
        case Ok(Parsed(parameters, afterParameters)) =>
          match Skip(afterParameters, Colon)
          case Err(e) => Err(e)
          case Ok(afterColon) =>
            match ParsedType(afterColon)
            case Err(e) => Err(e)
            case Ok(Parsed(returnType, afterType)) =>
              match Skip(afterType, OpenBrace)
              case Err(e) => Err(e)
              case Ok(afterBrace) =>
                match ParsedBody(afterBrace, [])
                case Err(e) => Err(e)
                case Ok(Parsed(body, rest)) => Ok(Parsed(A.Function(ts[0].name, parameters, returnType, body), rest))
  }

  /** The top-level loop of `parse`, with `declarations` read so far: only `fn` may start a
      declaration. */
  function ParsedProgram(ts: seq<Token>, declarations: seq<A.Declaration>): Result<seq<A.Declaration>, Error>
    decreases |ts|
  {
    if ts == [] then Ok(declarations)
    else if ts[0] != KwFn then Err(UnexpectedToken(ts[0]))
    else
      match ParsedFunction(ts[1..])
      case Err(e) => Err(e)
      case Ok(Parsed(d, rest)) => ParsedProgram(rest, declarations + [d])
  }

  /** `parse`: lexing, then the top-level loop. */
  function ParsedSource(input: string): Result<seq<A.Declaration>, Error>
    requires Lex(input).Some?
  {
    ParsedProgram(Lex(input).value, [])
  }

  /** A routine's outcome agrees with what its `Parsed…` function says: the same value and
      the stream left as it says, or the same error. */
  predicate Agrees<T(==)>(r: Result<T, Error>, stream: seq<Token>, expected: Result<Parsed<T>, Error>) {
    match expected
    case Ok(p) => r == Ok(p.value) && stream == p.rest
    case Err(e) => r == Err(e)
  }

  /** The error arm shared by every `match tokens.next()`: consumes the offending token. */
  method UnexpectedNext(tokens: Peekable2<Token>) returns (e: Error)
    requires tokens.Valid()
    modifies tokens
    ensures tokens.Valid()
    ensures e == Unexpected(old(tokens.Stream()))
  {
    var t := tokens.Next();
    e := if t.Some? then UnexpectedToken(t.value) else UnexpectedEof;
  }

  /** `match tokens.next() { Some(expected) => {}, … }`. */
  method ExpectNext(tokens: Peekable2<Token>, expected: Token) returns (r: Result<(), Error>)
    requires tokens.Valid()
    modifies tokens
    ensures tokens.Valid()
    ensures Skip(old(tokens.Stream()), expected).Ok? ==> r.Ok? && tokens.Stream() == Skip(old(tokens.Stream()), expected).value
    ensures Skip(old(tokens.Stream()), expected).Err? ==> r == Err(Skip(old(tokens.Stream()), expected).error)
  {
    var t := tokens.Next();
    if t == Some(expected) {
      r := Ok(());
    } else {
      r := Err(if t.Some? then UnexpectedToken(t.value) else UnexpectedEof);
    }
  }

  /** `if !(next_if(,).is_some() || first() is )) { match next() { … } }`, after an
      argument or a parameter. */
  method ExpectSeparator(tokens: Peekable2<Token>) returns (r: Result<(), Error>)
    requires tokens.Valid()
    modifies tokens
    ensures tokens.Valid()
    ensures Separated(old(tokens.Stream())).Ok? ==> r.Ok? && tokens.Stream() == Separated(old(tokens.Stream())).value
    ensures Separated(old(tokens.Stream())).Err? ==> r == Err(Separated(old(tokens.Stream())).error)
  {
    var comma := tokens.NextIf(IsComma);
    if comma.None? {
      var peek := tokens.First();
      if peek != Some(CloseParen) {
        var e := UnexpectedNext(tokens);
        return Err(e);
      }
    }
    r := Ok(());
  }

  /** `parse_type`. */
  method ParseType(tokens: Peekable2<Token>) returns (r: Result<A.Type, Error>)
    requires tokens.Valid()
    modifies tokens
    ensures tokens.Valid()
    ensures Agrees(r, tokens.Stream(), ParsedType(old(tokens.Stream())))
  {
    var t := tokens.Next();
    if t.None? {
      return Err(UnexpectedEof);
    }
    if t.value == Identifier("u32") {
      r := Ok(A.U32);
    } else {
      r := Err(UnexpectedToken(t.value));
    }
  }

  /** `parse_expression`. */
  method ParseExpression(tokens: Peekable2<Token>) returns (r: Result<A.Expression, Error>)
    requires tokens.Valid()
    modifies tokens
    ensures tokens.Valid()
    ensures Agrees(r, tokens.Stream(), ParsedExpression(old(tokens.Stream())))
    decreases |tokens.Stream()|, 6
  {
    r := ParseAdditive(tokens);
  }

  /** `parse_additive`: the loop reassigns `expression` with each operator and operand. */
  method ParseAdditive(tokens: Peekable2<Token>) returns (r: Result<A.Expression, Error>)
    requires tokens.Valid()
    modifies tokens
    ensures tokens.Valid()
    ensures Agrees(r, tokens.Stream(), ParsedAdditive(old(tokens.Stream())))
    decreases |tokens.Stream()|, 5
  {
    var first := ParseMultiplicative(tokens);
    if first.Err? {
      return first;
    }
    var expression := first.value;
    while true
      invariant tokens.Valid()
      invariant ParsedAdditive(old(tokens.Stream())) == AdditiveTail(tokens.Stream(), expression)
      decreases |tokens.Stream()|
    {
      var token := tokens.NextIf(IsAdditiveOperator);
      if token.None? {
        break;
      }
      var next := ParseMultiplicative(tokens);
      if next.Err? {
        return next;
      }
      expression := if token.value == Add then A.Add(expression, next.value) else A.Sub(expression, next.value);
    }
    r := Ok(expression);
  }

  /** `parse_multiplicative`. */
  method ParseMultiplicative(tokens: Peekable2<Token>) returns (r: Result<A.Expression, Error>)
    requires tokens.Valid()
    modifies tokens
    ensures tokens.Valid()
    ensures Agrees(r, tokens.Stream(), ParsedMultiplicative(old(tokens.Stream())))
    decreases |tokens.Stream()|, 3
  {
    var first := ParseUnary(tokens);
    if first.Err? {
      return first;
    }
    var expression := first.value;
    while true
      invariant tokens.Valid()
      invariant ParsedMultiplicative(old(tokens.Stream())) == MultiplicativeTail(tokens.Stream(), expression)
      decreases |tokens.Stream()|
    {
      var token := tokens.NextIf(IsMultiplicativeOperator);
      if token.None? {
        break;
      }
      var next := ParseUnary(tokens);
      if next.Err? {
        return next;
      }
      expression :=
        if token.value == Mod then A.Mod(expression, next.value)
        else if token.value == Divide then A.Div(expression, next.value)
        else A.Mul(expression, next.value);
    }
    r := Ok(expression);
  }

  /** `parse_unary`: no unary operators yet, so a primary. */
  method ParseUnary(tokens: Peekable2<Token>) returns (r: Result<A.Expression, Error>)
    requires tokens.Valid()
    modifies tokens
    ensures tokens.Valid()
    ensures Agrees(r, tokens.Stream(), ParsedPrimary(old(tokens.Stream())))
    decreases |tokens.Stream()|, 2
  {
    r := ParsePrimary(tokens);
  }

  /** `parse_primary`; a call's arguments are gathered by a loop that pushes into `args`. */
  method ParsePrimary(tokens: Peekable2<Token>) returns (r: Result<A.Expression, Error>)
    requires tokens.Valid()
    modifies tokens
    ensures tokens.Valid()
    ensures Agrees(r, tokens.Stream(), ParsedPrimary(old(tokens.Stream())))
    decreases |tokens.Stream()|, 1
  {
    ghost var start := tokens.Stream();
    var t := tokens.Next();
    if t.None? {
      return Err(UnexpectedEof);
    }
    match t.value {
      case Number(n) =>
        r := Ok(A.NumLiteral(n));
      case Identifier(name) =>
        var open := tokens.NextIf(IsOpenParen);
        if open.None? {
          return Ok(A.Variable(name));
        }
        assert tokens.Stream() == start[2..];
        var args := [];
        while true
          invariant tokens.Valid()
          invariant ParsedPrimary(start) == ParsedArguments(tokens.Stream(), name, args)
          decreases |tokens.Stream()|
        {
          var close := tokens.NextIf(IsCloseParen);
          if close.Some? {
            break;
          }
          var argument := ParseExpression(tokens);
          if argument.Err? {
            return argument;
          }
          args := args + [argument.value];
          var separator := ExpectSeparator(tokens);
          if separator.Err? {
            return Err(separator.error);
          }
        }
        r := Ok(A.Call(name, args));
      case OpenParen =>
        var inner := ParseExpression(tokens);
        if inner.Err? {
          return inner;
        }
        var close := tokens.Next();
        if close == Some(CloseParen) {
          r := Ok(inner.value);
        } else {
          r := Err(if close.Some? then UnexpectedToken(close.value) else UnexpectedEof);
        }
      case _ =>
        r := Err(UnexpectedToken(t.value));
    }
  }

  predicate IsOpenParen(t: Token) {
    t == OpenParen
  }

  predicate IsCloseParen(t: Token) {
    t == CloseParen
  }

  predicate IsCloseBrace(t: Token) {
    t == CloseBrace
  }

  predicate IsNotCloseBrace(t: Token) {
    t != CloseBrace
  }

  predicate IsComma(t: Token) {
    t == Comma
  }

  /** `parse_statement`. */
  method ParseStatement(tokens: Peekable2<Token>) returns (r: Result<A.Statement, Error>)
    requires tokens.Valid()
    modifies tokens
    ensures tokens.Valid()
    ensures Agrees(r, tokens.Stream(), ParsedStatement(old(tokens.Stream())))
  {
    var first := tokens.First();
    if first.None? {
      return Err(UnexpectedEof);
    }
    if first.value == KwLet {
      var _ := tokens.Next();
      var nameToken := tokens.Next();
      if nameToken.None? {
        return Err(UnexpectedEof);
      }
      if !nameToken.value.Identifier? {
        return Err(UnexpectedToken(nameToken.value));
      }
      var colon := ExpectNext(tokens, Colon);
      if colon.Err? {
        return Err(colon.error);
      }
      var valueType := ParseType(tokens);
      if valueType.Err? {
        return Err(valueType.error);
      }
      var equals := ExpectNext(tokens, Equals);
      if equals.Err? {
        return Err(equals.error);
      }
      var value := ParseExpression(tokens);
      if value.Err? {
        return Err(value.error);
      }
      r := Ok(A.Let(nameToken.value.name, Some(valueType.value), value.value));
    } else if first.value == KwReturn {
      var _ := tokens.Next();
      var expression := ParseExpression(tokens);
      if expression.Err? {
        return Err(expression.error);
      }
      var semicolon := ExpectNext(tokens, Semicolon);
      if semicolon.Err? {
        return Err(semicolon.error);
      }
      r := Ok(A.Return(expression.value));
    } else {
      var expression := ParseExpression(tokens);
      if expression.Err? {
        return Err(expression.error);
      }
      var semicolon := ExpectNext(tokens, Semicolon);
      if semicolon.Err? {
        return Err(semicolon.error);
      }
      r := Ok(A.Expr(expression.value));
    }
  }

  /** `parse`: lexes the input, then reads `fn` declarations until the tokens run out. */
  method Parse(input: string) returns (r: Result<seq<A.Declaration>, Error>)
    requires Lex(input).Some?
    ensures r == ParsedSource(input)
  {
    var tokenList := GetTokens(input);
    var iter := new Peekable2(tokenList);
    var result := [];
    while true
      invariant iter.Valid()
      invariant ParsedSource(input) == ParsedProgram(iter.Stream(), result)
      decreases |iter.Stream()|
    {
      var token := iter.Next();
      if token.None? {
        break;
      }
      if token.value != KwFn {
        return Err(UnexpectedToken(token.value));
      }
      var d := ParseFunction(iter);
      if d.Err? {
        return Err(d.error);
      }
      result := result + [d.value];
    }
    r := Ok(result);
  }

  /** The `fn` arm of `parse`: name, parameter loop, return type and body loop. */
  method ParseFunction(iter: Peekable2<Token>) returns (r: Result<A.Declaration, Error>)
    requires iter.Valid()
    modifies iter
    ensures iter.Valid()
    ensures Agrees(r, iter.Stream(), ParsedFunction(old(iter.Stream())))
  {
    var nameToken := iter.Next();
    if nameToken.None? {
      return Err(UnexpectedEof);
    }
    if !nameToken.value.Identifier? {
      return Err(UnexpectedToken(nameToken.value));
    }
    var open := ExpectNext(iter, OpenParen);
    if open.Err? {
      return Err(open.error);
    }
    var arguments := ParseParameters(iter);
    if arguments.Err? {
      return Err(arguments.error);
    }
    var colon := ExpectNext(iter, Colon);
    if colon.Err? {
      return Err(colon.error);
    }
    var returnType := ParseType(iter);
    if returnType.Err? {
      return Err(returnType.error);
    }
    var brace := ExpectNext(iter, OpenBrace);
    if brace.Err? {
      return Err(brace.error);
    }
    var body := ParseBody(iter);
    if body.Err? {
      return Err(body.error);
    }
    r := Ok(A.Function(nameToken.value.name, arguments.value, returnType.value, body.value));
  }

  /** The parameter loop of `parse`: `while let Some(token) = iter.next() && token != )`. */
  method ParseParameters(iter: Peekable2<Token>) returns (r: Result<seq<A.Parameter>, Error>)
    requires iter.Valid()
    modifies iter
    ensures iter.Valid()
    ensures Agrees(r, iter.Stream(), ParsedParameters(old(iter.Stream()), []))
  {
    var arguments := [];
    while true
      invariant iter.Valid()
      invariant ParsedParameters(old(iter.Stream()), []) == ParsedParameters(iter.Stream(), arguments)
      decreases |iter.Stream()|
    {
      var token := iter.Next();
      if token.None? || token.value == CloseParen {
        break;
      }
      if !token.value.Identifier? {
        return Err(UnexpectedToken(token.value));
      }
      var colon := ExpectNext(iter, Colon);
      if colon.Err? {
        return Err(colon.error);
      }
      var argType := ParseType(iter);
      if argType.Err? {
        return Err(argType.error);
      }
      var separator := ExpectSeparator(iter);
      if separator.Err? {
        return Err(separator.error);
      }
      arguments := arguments + [A.Parameter(token.value.name, argType.value)];
    }
    r := Ok(arguments);
  }

  /** The body loop of `parse`: `while iter.next_if(}).is_none()`, one statement and its
      separator per turn. */
  method ParseBody(iter: Peekable2<Token>) returns (r: Result<seq<A.Statement>, Error>)
    requires iter.Valid()
    modifies iter
    ensures iter.Valid()
    ensures Agrees(r, iter.Stream(), ParsedBody(old(iter.Stream()), []))
  {
    var body := [];
    while true
      invariant iter.Valid()
      invariant ParsedBody(old(iter.Stream()), []) == ParsedBody(iter.Stream(), body)
      decreases |iter.Stream()|
    {
      var close := iter.NextIf(IsCloseBrace);
      if close.Some? {
        break;
      }
      var statement := ParseStatement(iter);
      if statement.Err? {
        return Err(statement.error);
      }
      body := body + [statement.value];
      var separator := iter.NextIf(IsNotCloseBrace);
      if separator.Some? && separator.value != Semicolon {
        return Err(UnexpectedToken(separator.value));
      }
      if separator.None? {
        var peek := iter.First();
        if peek.None? {
          return Err(UnexpectedEof);
        }
      }
    }
    r := Ok(body);
  }
}
