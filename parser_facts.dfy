/** What the parser promises: expressions written with the usual precedence and left
    associativity read back as the same tree, as do statements, bodies and whole programs,
    and the terminator and separator rules behave as the source writes them. */
module ParserProperties {
  import opened Base
  import opened Lexer
  import opened Parser
  import A = Ast

  predicate IsAdditive(e: A.Expression) {
    e.Add? || e.Sub?
  }

  predicate IsMultiplicative(e: A.Expression) {
    e.Mul? || e.Div? || e.Mod?
  }

  /** The operator token of a binary node. */
  function OperatorToken(e: A.Expression): (t: Token)
    requires e.IsBinary()
    ensures IsAdditive(e) ==> IsAdditiveOperator(t) && Binary(t, e.left, e.right) == e
    ensures IsMultiplicative(e) ==> IsMultiplicativeOperator(t) && Binary(t, e.left, e.right) == e
  {
    match e
    case Add(_, _) => Add
    case Sub(_, _) => Minus
    case Mul(_, _) => Multiply
    case Div(_, _) => Divide
    case Mod(_, _) => Mod
  }

  /** `e` written as tokens where an operand of precedence `level` is expected (0: a sum,
      1: a product, 2: a primary), with the fewest parentheses: a left operand shares its
      operator's level, a right operand sits one level tighter. */
  function Print(e: A.Expression, level: nat): seq<Token>
    requires level <= 2
    decreases e, level
  {
    if IsAdditive(e) then
      if level == 0 then Print(e.left, 0) + [OperatorToken(e)] + Print(e.right, 1)
      else [OpenParen] + Print(e, 0) + [CloseParen]
    else if IsMultiplicative(e) then
      if level <= 1 then Print(e.left, 1) + [OperatorToken(e)] + Print(e.right, 2)
      else [OpenParen] + Print(e, 0) + [CloseParen]
    else match e
      case NumLiteral(n) => [Number(n)]
      case Variable(x) => [Identifier(x)]
      case Call(f, arguments) => [Identifier(f), OpenParen] + PrintList(arguments) + [CloseParen]
  }

  /** Call arguments separated by commas. */
  function PrintList(arguments: seq<A.Expression>): seq<Token>
    decreases arguments
  {
    if arguments == [] then []
    else if |arguments| == 1 then Print(arguments[0], 0)
    else Print(arguments[0], 0) + [Comma] + PrintList(arguments[1..])
  }

  /** A token that ends an operand at every level: not an operator, and not a `(` that
      would turn a variable into a call. */
  predicate Ends(rest: seq<Token>) {
    rest == [] || !(IsAdditiveOperator(rest[0]) || IsMultiplicativeOperator(rest[0]) || rest[0] == OpenParen)
  }

  /** One turn of the additive loop. */
  lemma AdditiveStep(ts: seq<Token>, left: A.Expression, right: A.Expression, rest: seq<Token>)
    requires ts != [] && IsAdditiveOperator(ts[0]) && ParsedMultiplicative(ts[1..]) == Ok(Parsed(right, rest))
    ensures AdditiveTail(ts, left) == AdditiveTail(rest, Binary(ts[0], left, right))
  {
  }

  /** The additive loop stops at anything but `+` and `-`. */
  lemma AdditiveStop(ts: seq<Token>, left: A.Expression)
    requires !(ts != [] && IsAdditiveOperator(ts[0]))
    ensures AdditiveTail(ts, left) == Ok(Parsed(left, ts))
  {
  }

  lemma AdditiveStart(ts: seq<Token>, first: A.Expression, rest: seq<Token>)
    requires ParsedMultiplicative(ts) == Ok(Parsed(first, rest))
    ensures ParsedAdditive(ts) == AdditiveTail(rest, first)
  {
  }

  /** One turn of the multiplicative loop. */
  lemma MultiplicativeStep(ts: seq<Token>, left: A.Expression, right: A.Expression, rest: seq<Token>)
    requires ts != [] && IsMultiplicativeOperator(ts[0]) && ParsedPrimary(ts[1..]) == Ok(Parsed(right, rest))
    ensures MultiplicativeTail(ts, left) == MultiplicativeTail(rest, Binary(ts[0], left, right))
  {
  }

  /** The multiplicative loop stops at anything but `*`, `/` and `%`. */
  lemma MultiplicativeStop(ts: seq<Token>, left: A.Expression)
    requires !(ts != [] && IsMultiplicativeOperator(ts[0]))
    ensures MultiplicativeTail(ts, left) == Ok(Parsed(left, ts))
  {
  }

  lemma MultiplicativeStart(ts: seq<Token>, first: A.Expression, rest: seq<Token>)
    requires ParsedPrimary(ts) == Ok(Parsed(first, rest))
    ensures ParsedMultiplicative(ts) == MultiplicativeTail(rest, first)
  {
  }

  lemma PrimaryParenthesised(ts: seq<Token>, inner: A.Expression, rest: seq<Token>)
    requires ts != [] && ts[0] == OpenParen && ParsedExpression(ts[1..]) == Ok(Parsed(inner, [CloseParen] + rest))
    ensures ParsedPrimary(ts) == Ok(Parsed(inner, rest))
  {
    assert ([CloseParen] + rest)[1..] == rest;
  }

  lemma PrimaryCall(ts: seq<Token>, callee: string)
    requires |ts| >= 2 && ts[0] == Identifier(callee) && ts[1] == OpenParen
    ensures ParsedPrimary(ts) == ParsedArguments(ts[2..], callee, [])
  {
  }

  /** The argument loop at its `)`. */
  lemma ArgumentsClose(ts: seq<Token>, callee: string, arguments: seq<A.Expression>)
    requires ts != [] && ts[0] == CloseParen
    ensures ParsedArguments(ts, callee, arguments) == Ok(Parsed(A.Call(callee, arguments), ts[1..]))
  {
  }

  /** One argument of the loop, followed by `,` or `)`. */
  lemma ArgumentsStep(ts: seq<Token>, callee: string, arguments: seq<A.Expression>, argument: A.Expression, rest: seq<Token>)
    requires !(ts != [] && ts[0] == CloseParen) && ParsedExpression(ts) == Ok(Parsed(argument, rest))
    requires rest != [] && (rest[0] == Comma || rest[0] == CloseParen)
    ensures ParsedArguments(ts, callee, arguments)
            == ParsedArguments(if rest[0] == Comma then rest[1..] else rest, callee, arguments + [argument])
  {
  }

  /** Reading a sum stops where its tokens stop, and the operator loop takes over there. */
  lemma {:induction false} SumParses(e: A.Expression, rest: seq<Token>)
    requires rest == [] || !(IsMultiplicativeOperator(rest[0]) || rest[0] == OpenParen)
    ensures ParsedAdditive(Print(e, 0) + rest) == AdditiveTail(rest, e)
    decreases e, if IsAdditive(e) then 1 else if IsMultiplicative(e) then 2 else 4
  {
    if IsAdditive(e) {
      SumParses(e.left, [OperatorToken(e)] + (Print(e.right, 1) + rest));
      TermParses(e.right, rest);
      SumTurn(e, rest);
    } else {
      TermParses(e, rest);
      SumBase(e, rest);
    }
  }

  lemma Regroup(left: seq<Token>, operator: Token, right: seq<Token>, rest: seq<Token>)
    ensures left + [operator] + right + rest == left + ([operator] + (right + rest))
  {
  }

  /** A sum whose operands read back reads back. */
  lemma SumTurn(e: A.Expression, rest: seq<Token>)
    requires IsAdditive(e)
    requires rest == [] || !IsMultiplicativeOperator(rest[0])
    requires ParsedAdditive(Print(e.left, 0) + ([OperatorToken(e)] + (Print(e.right, 1) + rest)))
             == AdditiveTail([OperatorToken(e)] + (Print(e.right, 1) + rest), e.left)
    requires ParsedMultiplicative(Print(e.right, 1) + rest) == MultiplicativeTail(rest, e.right)
    ensures ParsedAdditive(Print(e, 0) + rest) == AdditiveTail(rest, e)
  {
    var operator := OperatorToken(e);
    var tail := [operator] + (Print(e.right, 1) + rest);
    assert Print(e, 0) == Print(e.left, 0) + [operator] + Print(e.right, 1);
    Regroup(Print(e.left, 0), operator, Print(e.right, 1), rest);
    Cons(operator, Print(e.right, 1) + rest);
    MultiplicativeStop(rest, e.right);
    AdditiveStep(tail, e.left, e.right, rest);
  }

  /** A sum of one operand reads back when the operand does. */
  lemma SumBase(e: A.Expression, rest: seq<Token>)
    requires !IsAdditive(e)
    requires rest == [] || !IsMultiplicativeOperator(rest[0])
    requires ParsedMultiplicative(Print(e, 1) + rest) == MultiplicativeTail(rest, e)
    ensures ParsedAdditive(Print(e, 0) + rest) == AdditiveTail(rest, e)
  {
    assert Print(e, 0) == Print(e, 1);
    MultiplicativeStop(rest, e);
    AdditiveStart(Print(e, 0) + rest, e, rest);
  }

  /** Reading a product stops where its tokens stop, and the operator loop takes over. */
  lemma {:induction false} TermParses(e: A.Expression, rest: seq<Token>)
    requires rest == [] || rest[0] != OpenParen
    ensures ParsedMultiplicative(Print(e, 1) + rest) == MultiplicativeTail(rest, e)
    decreases e, if IsAdditive(e) then 3 else if IsMultiplicative(e) then 1 else 3
  {
    if IsMultiplicative(e) {
      TermParses(e.left, [OperatorToken(e)] + (Print(e.right, 2) + rest));
      FactorParses(e.right, rest);
      TermTurn(e, rest);
    } else {
      FactorParses(e, rest);
      TermBase(e, rest);
    }
  }

  /** A product whose operands read back reads back. */
  lemma TermTurn(e: A.Expression, rest: seq<Token>)
    requires IsMultiplicative(e)
    requires ParsedMultiplicative(Print(e.left, 1) + ([OperatorToken(e)] + (Print(e.right, 2) + rest)))
             == MultiplicativeTail([OperatorToken(e)] + (Print(e.right, 2) + rest), e.left)
    requires ParsedPrimary(Print(e.right, 2) + rest) == Ok(Parsed(e.right, rest))
    ensures ParsedMultiplicative(Print(e, 1) + rest) == MultiplicativeTail(rest, e)
  {
    var operator := OperatorToken(e);
    var tail := [operator] + (Print(e.right, 2) + rest);
    assert Print(e, 1) == Print(e.left, 1) + [operator] + Print(e.right, 2);
    Regroup(Print(e.left, 1), operator, Print(e.right, 2), rest);
    Cons(operator, Print(e.right, 2) + rest);
    MultiplicativeStep(tail, e.left, e.right, rest);
  }

  /** A product of one operand reads back when the operand does. */
  lemma TermBase(e: A.Expression, rest: seq<Token>)
    requires !IsMultiplicative(e)
    requires ParsedPrimary(Print(e, 2) + rest) == Ok(Parsed(e, rest))
    ensures ParsedMultiplicative(Print(e, 1) + rest) == MultiplicativeTail(rest, e)
  {
    assert Print(e, 1) == Print(e, 2);
    MultiplicativeStart(Print(e, 1) + rest, e, rest);
  }

  /** A primary reads back exactly: a number, a variable, a call, or a parenthesised
      expression. */
  lemma {:induction false} FactorParses(e: A.Expression, rest: seq<Token>)
    requires rest == [] || rest[0] != OpenParen
    ensures ParsedPrimary(Print(e, 2) + rest) == Ok(Parsed(e, rest))
    decreases e, if IsAdditive(e) then 2 else if IsMultiplicative(e) then 3 else 2
  {
    if e.IsBinary() {
      SumParses(e, [CloseParen] + rest);
      AdditiveStop([CloseParen] + rest, e);
      ParenthesisedParses(e, rest);
    } else if e.Call? {
      ArgumentsParse(e, 0, [], rest);
      CallParses(e, rest);
    } else {
      AtomParses(e, rest);
    }
  }

  /** A number or a variable reads back. */
  lemma AtomParses(e: A.Expression, rest: seq<Token>)
    requires e.NumLiteral? || e.Variable?
    requires rest == [] || rest[0] != OpenParen
    ensures ParsedPrimary(Print(e, 2) + rest) == Ok(Parsed(e, rest))
  {
    Cons(Print(e, 2)[0], rest);
  }

  /** How an operator expression in parentheses splits. */
  lemma ParenthesisedTokens(e: A.Expression, rest: seq<Token>)
    requires e.IsBinary()
    ensures Print(e, 2) + rest == [OpenParen] + (Print(e, 0) + ([CloseParen] + rest))
  {
    assert Print(e, 2) == [OpenParen] + Print(e, 0) + [CloseParen];
    Bracketed(OpenParen, Print(e, 0), CloseParen, rest);
  }

  lemma Bracketed(open: Token, inside: seq<Token>, close: Token, rest: seq<Token>)
    ensures [open] + inside + [close] + rest == [open] + (inside + ([close] + rest))
  {
  }

  lemma Pair(first: Token, second: Token, ts: seq<Token>)
    ensures |[first, second] + ts| >= 2 && ([first, second] + ts)[0] == first && ([first, second] + ts)[1] == second
    ensures ([first, second] + ts)[2..] == ts
  {
  }

  /** Moving the first item of `items` over to `done`. */
  lemma Shift<T>(done: seq<T>, items: seq<T>)
    requires items != []
    ensures done + [items[0]] + items[1..] == done + items
  {
    assert items == [items[0]] + items[1..];
  }

  lemma Whole<T>(items: seq<T>)
    ensures items[0..] == items && [] + items == items
  {
  }

  /** How a printed call splits. */
  lemma CallTokens(e: A.Expression, rest: seq<Token>)
    requires e.Call?
    ensures Print(e, 2) + rest == [Identifier(e.callee), OpenParen] + (PrintList(e.arguments) + [CloseParen] + rest)
  {
  }

  /** A parenthesised operator expression reads back, given that its inside does. */
  lemma ParenthesisedParses(e: A.Expression, rest: seq<Token>)
    requires e.IsBinary()
    requires ParsedExpression(Print(e, 0) + ([CloseParen] + rest)) == Ok(Parsed(e, [CloseParen] + rest))
    ensures ParsedPrimary(Print(e, 2) + rest) == Ok(Parsed(e, rest))
  {
    ParenthesisedTokens(e, rest);
    Cons(OpenParen, Print(e, 0) + ([CloseParen] + rest));
    PrimaryParenthesised(Print(e, 2) + rest, e, rest);
  }

  /** A call reads back, given that its argument loop does. */
  lemma CallParses(e: A.Expression, rest: seq<Token>)
    requires e.Call?
    requires ParsedArguments(PrintList(e.arguments[0..]) + [CloseParen] + rest, e.callee, [])
             == Ok(Parsed(A.Call(e.callee, [] + e.arguments[0..]), rest))
    ensures ParsedPrimary(Print(e, 2) + rest) == Ok(Parsed(e, rest))
  {
    var list := PrintList(e.arguments) + [CloseParen] + rest;
    Whole(e.arguments);
    CallTokens(e, rest);
    Pair(Identifier(e.callee), OpenParen, list);
    PrimaryCall(Print(e, 2) + rest, e.callee);
  }

  /** What follows the first of several printed arguments: `,` and the others, or `)`. */
  function AfterArgument(arguments: seq<A.Expression>, rest: seq<Token>): seq<Token>
    requires arguments != []
  {
    if |arguments| == 1 then [CloseParen] + rest else [Comma] + (PrintList(arguments[1..]) + [CloseParen] + rest)
  }

  lemma RegroupList(first: seq<Token>, others: seq<Token>, rest: seq<Token>)
    ensures first + [Comma] + others + [CloseParen] + rest == first + ([Comma] + (others + [CloseParen] + rest))
  {
  }

  /** How printed arguments split after the first. */
  lemma ArgumentTokens(arguments: seq<A.Expression>, rest: seq<Token>)
    requires arguments != []
    ensures PrintList(arguments) + [CloseParen] + rest == Print(arguments[0], 0) + AfterArgument(arguments, rest)
  {
    if |arguments| == 1 {
      assert PrintList(arguments) == Print(arguments[0], 0);
    } else {
      assert PrintList(arguments) == Print(arguments[0], 0) + [Comma] + PrintList(arguments[1..]);
      RegroupList(Print(arguments[0], 0), PrintList(arguments[1..]), rest);
    }
  }

  lemma TakeOne(items: seq<A.Expression>, i: nat, done: seq<A.Expression>)
    requires i < |items|
    ensures items[i..][0] == items[i] && items[i..][1..] == items[i + 1..]
    ensures done + [items[i]] + items[i + 1..] == done + items[i..]
  {
    assert items[i..] == [items[i]] + items[i + 1..];
  }

  /** The argument loop reads back the arguments from the `i`-th on, then the `)`. */
  lemma {:induction false} ArgumentsParse(call: A.Expression, i: nat, done: seq<A.Expression>, rest: seq<Token>)
    requires call.Call? && i <= |call.arguments|
    ensures ParsedArguments(PrintList(call.arguments[i..]) + [CloseParen] + rest, call.callee, done)
            == Ok(Parsed(A.Call(call.callee, done + call.arguments[i..]), rest))
    decreases call, 0, |call.arguments| - i
  {
    if i == |call.arguments| {
      ArgumentsBase(call, done, rest);
    } else {
      ArgumentsParse(call, i + 1, done + [call.arguments[i]], rest);
      SumParses(call.arguments[i], AfterArgument(call.arguments[i..], rest));
      ArgumentsTurn(call, i, done, rest);
    }
  }

  lemma ArgumentsBase(call: A.Expression, done: seq<A.Expression>, rest: seq<Token>)
    requires call.Call?
    ensures ParsedArguments(PrintList(call.arguments[|call.arguments|..]) + [CloseParen] + rest, call.callee, done)
            == Ok(Parsed(A.Call(call.callee, done + call.arguments[|call.arguments|..]), rest))
  {
    var ts := PrintList(call.arguments[|call.arguments|..]) + [CloseParen] + rest;
    assert call.arguments[|call.arguments|..] == [];
    assert ts == [CloseParen] + rest;
    assert done + [] == done;
    ArgumentsClose(ts, call.callee, done);
  }

  /** One argument of the loop, given that it and the arguments after it read back. */
  lemma ArgumentsTurn(call: A.Expression, i: nat, done: seq<A.Expression>, rest: seq<Token>)
    requires call.Call? && i < |call.arguments|
    requires ParsedArguments(PrintList(call.arguments[i + 1..]) + [CloseParen] + rest, call.callee, done + [call.arguments[i]])
             == Ok(Parsed(A.Call(call.callee, done + [call.arguments[i]] + call.arguments[i + 1..]), rest))
    requires ParsedAdditive(Print(call.arguments[i], 0) + AfterArgument(call.arguments[i..], rest))
             == AdditiveTail(AfterArgument(call.arguments[i..], rest), call.arguments[i])
    ensures ParsedArguments(PrintList(call.arguments[i..]) + [CloseParen] + rest, call.callee, done)
            == Ok(Parsed(A.Call(call.callee, done + call.arguments[i..]), rest))
  {
    var arguments := call.arguments[i..];
    var a := call.arguments[i];
    TakeOne(call.arguments, i, done);
    ArgumentTokens(arguments, rest);
    AfterArgumentShape(arguments, rest);
    PrintStartsOperand(a, 0);
    ArgumentStep(PrintList(arguments) + [CloseParen] + rest, Print(a, 0), AfterArgument(arguments, rest),
                 PrintList(call.arguments[i + 1..]) + [CloseParen] + rest, call.callee, done, a,
                 Ok(Parsed(A.Call(call.callee, done + arguments), rest)));
  }

  /** What follows a printed argument: `)` after the last one, otherwise `,` and the others. */
  lemma AfterArgumentShape(arguments: seq<A.Expression>, rest: seq<Token>)
    requires arguments != []
    ensures var tail := AfterArgument(arguments, rest);
      && tail != [] && (tail[0] == Comma || tail[0] == CloseParen)
      && (if tail[0] == Comma then tail[1..] else tail) == PrintList(arguments[1..]) + [CloseParen] + rest
  {
    if |arguments| == 1 {
      assert arguments[1..] == [];
      assert PrintList(arguments[1..]) + [CloseParen] + rest == [CloseParen] + rest;
    }
  }

  /** One argument of the loop, over the tokens of the argument and those after it. */
  lemma ArgumentStep(ts: seq<Token>, head: seq<Token>, tail: seq<Token>, next: seq<Token>, callee: string,
                     done: seq<A.Expression>, a: A.Expression, result: Result<Parsed<A.Expression>, Error>)
    requires ts == head + tail && head != [] && head[0] != CloseParen
    requires ParsedAdditive(ts) == AdditiveTail(tail, a)
    requires tail != [] && (tail[0] == Comma || tail[0] == CloseParen)
    requires next == if tail[0] == Comma then tail[1..] else tail
    requires ParsedArguments(next, callee, done + [a]) == result
    ensures ParsedArguments(ts, callee, done) == result
  {
    AdditiveStop(tail, a);
    ArgumentsStep(ts, callee, done, a, tail);
  }

  /** A printed operand starts with a number, a name or `(`; never with `)`. */
  lemma {:induction false} PrintStartsOperand(e: A.Expression, level: nat)
    requires level <= 2
    ensures Print(e, level) != [] && (Print(e, level)[0].Number? || Print(e, level)[0].Identifier? || Print(e, level)[0] == OpenParen)
    decreases e, level
  {
    if IsAdditive(e) {
      if level == 0 {
        PrintStartsOperand(e.left, 0);
      }
    } else if IsMultiplicative(e) {
      if level <= 1 {
        PrintStartsOperand(e.left, 1);
      }
    }
  }

  /** Printing then parsing an expression gives it back: `*`, `/` and `%` bind tighter
      than `+` and `-`, both levels associate to the left, and a call's arguments are read
      in order. */
  lemma ExpressionParses(e: A.Expression, rest: seq<Token>)
    requires Ends(rest)
    ensures ParsedExpression(Print(e, 0) + rest) == Ok(Parsed(e, rest))
  {
    SumParses(e, rest);
    AdditiveStop(rest, e);
  }

  /** A statement as tokens, followed by `rest`. A `let` is written up to its initializer,
      since the body loop reads its `;`; a `return` and an expression statement carry their
      own `;`. */
  function PrintStatement(s: A.Statement, rest: seq<Token>): seq<Token> {
    match s
    case Let(x, _, init) => [KwLet] + ([Identifier(x)] + ([Colon] + ([Identifier("u32")] + ([Equals] + (Print(init, 0) + rest)))))
    case Return(e) => [KwReturn] + (Print(e, 0) + ([Semicolon] + rest))
    case Expr(e) => Print(e, 0) + ([Semicolon] + rest)
  }

  /** A statement the parser can produce: the only type it reads is `u32`, and it always
      records the declared type of a `let`. */
  predicate ParsableStatement(s: A.Statement) {
    s.Let? ==> s.declared == Some(A.U32)
  }

  /** A function body through its `}`, followed by `rest`: every statement followed by the
      `;` the body loop consumes. */
  function PrintBody(body: seq<A.Statement>, rest: seq<Token>): seq<Token> {
    if body == [] then [CloseBrace] + rest
    else PrintStatement(body[0], [Semicolon] + PrintBody(body[1..], rest))
  }

  /** Parameters as `name: u32` separated by commas, through the `)`, followed by `rest`. */
  function PrintParameters(parameters: seq<A.Parameter>, rest: seq<Token>): seq<Token> {
    if parameters == [] then [CloseParen] + rest
    else
      var after := if |parameters| == 1 then [CloseParen] + rest else [Comma] + PrintParameters(parameters[1..], rest);
      [Identifier(parameters[0].name)] + ([Colon] + ([Identifier("u32")] + after))
  }

  /** `fn name(parameters): u32 { body }`, followed by `rest`. */
  function PrintFunction(d: A.Declaration, rest: seq<Token>): seq<Token> {
    [KwFn] + ([Identifier(d.name)] + ([OpenParen] + PrintParameters(d.arguments, [Colon] + ([Identifier("u32")] + ([OpenBrace] + PrintBody(d.body, rest))))))
  }

  function PrintProgram(declarations: seq<A.Declaration>): seq<Token> {
    if declarations == [] then [] else PrintFunction(declarations[0], PrintProgram(declarations[1..]))
  }

  /** A declaration the parser can produce: every type in it is `u32`. */
  predicate ParsableDeclaration(d: A.Declaration) {
    && d.returnType == A.U32
    && (forall i :: 0 <= i < |d.arguments| ==> d.arguments[i].typ == A.U32)
    && (forall i :: 0 <= i < |d.body| ==> ParsableStatement(d.body[i]))
  }

  /** Every declaration of a program is one the parser can produce. */
  predicate AllParsable(ds: seq<A.Declaration>) {
    forall i :: 0 <= i < |ds| ==> ParsableDeclaration(ds[i])
  }

  lemma Cons(t: Token, ts: seq<Token>)
    ensures [t] + ts != [] && ([t] + ts)[0] == t && ([t] + ts)[1..] == ts
  {
  }

  lemma SkipCons(t: Token, ts: seq<Token>)
    ensures Skip([t] + ts, t) == Ok(ts)
  {
    Cons(t, ts);
  }

  lemma TypeCons(ts: seq<Token>)
    ensures ParsedType([Identifier("u32")] + ts) == Ok(Parsed(A.U32, ts))
  {
    Cons(Identifier("u32"), ts);
  }

  lemma LetStep(ts: seq<Token>, name: string, afterName: seq<Token>, afterColon: seq<Token>, afterType: seq<Token>,
                afterEquals: seq<Token>, init: A.Expression, rest: seq<Token>)
    requires ts != [] && ts[0] == KwLet && ts[1..] == [Identifier(name)] + afterName
    requires Skip(afterName, Colon) == Ok(afterColon)
    requires ParsedType(afterColon) == Ok(Parsed(A.U32, afterType))
    requires Skip(afterType, Equals) == Ok(afterEquals)
    requires ParsedExpression(afterEquals) == Ok(Parsed(init, rest))
    ensures ParsedStatement(ts) == Ok(Parsed(A.Let(name, Some(A.U32), init), rest))
  {
    Cons(Identifier(name), afterName);
  }

  lemma ReturnStep(ts: seq<Token>, e: A.Expression, afterExpression: seq<Token>, rest: seq<Token>)
    requires ts != [] && ts[0] == KwReturn
    requires ParsedExpression(ts[1..]) == Ok(Parsed(e, afterExpression))
    requires Skip(afterExpression, Semicolon) == Ok(rest)
    ensures ParsedStatement(ts) == Ok(Parsed(A.Return(e), rest))
  {
  }

  lemma ExprStep(ts: seq<Token>, e: A.Expression, afterExpression: seq<Token>, rest: seq<Token>)
    requires ts != [] && ts[0] != KwLet && ts[0] != KwReturn
    requires ParsedExpression(ts) == Ok(Parsed(e, afterExpression))
    requires Skip(afterExpression, Semicolon) == Ok(rest)
    ensures ParsedStatement(ts) == Ok(Parsed(A.Expr(e), rest))
  {
  }

  /** A printed `let` reads back, leaving whatever ends its initializer. */
  lemma LetParses(s: A.Statement, rest: seq<Token>)
    requires s.Let? && s.declared == Some(A.U32) && Ends(rest)
    ensures ParsedStatement(PrintStatement(s, rest)) == Ok(Parsed(s, rest))
  {
    var afterEquals := Print(s.initializer, 0) + rest;
    var afterType := [Equals] + afterEquals;
    var afterColon := [Identifier("u32")] + afterType;
    var afterName := [Colon] + afterColon;
    var ts := [KwLet] + ([Identifier(s.name)] + afterName);
    assert PrintStatement(s, rest) == ts;
    Cons(KwLet, [Identifier(s.name)] + afterName);
    SkipCons(Colon, afterColon);
    TypeCons(afterType);
    SkipCons(Equals, afterEquals);
    ExpressionParses(s.initializer, rest);
    LetStep(ts, s.name, afterName, afterColon, afterType, afterEquals, s.initializer, rest);
  }

  /** A printed `return` reads back, with its `;`. */
  lemma ReturnParses(s: A.Statement, rest: seq<Token>)
    requires s.Return?
    ensures ParsedStatement(PrintStatement(s, rest)) == Ok(Parsed(s, rest))
  {
    var afterExpression := [Semicolon] + rest;
    var ts := [KwReturn] + (Print(s.expression, 0) + afterExpression);
    assert PrintStatement(s, rest) == ts;
    Cons(KwReturn, Print(s.expression, 0) + afterExpression);
    SkipCons(Semicolon, rest);
    ExpressionParses(s.expression, afterExpression);
    ReturnStep(ts, s.expression, afterExpression, rest);
  }

  /** A printed expression statement reads back, with its `;`. */
  lemma ExprParses(s: A.Statement, rest: seq<Token>)
    requires s.Expr?
    ensures ParsedStatement(PrintStatement(s, rest)) == Ok(Parsed(s, rest))
  {
    var afterExpression := [Semicolon] + rest;
    var ts := Print(s.expression, 0) + afterExpression;
    assert PrintStatement(s, rest) == ts;
    PrintStartsOperand(s.expression, 0);
    SkipCons(Semicolon, rest);
    ExpressionParses(s.expression, afterExpression);
    ExprStep(ts, s.expression, afterExpression, rest);
  }

  /** A printed statement reads back as itself. A `let` stops before whatever follows its
      initializer, which must end the expression; the other two consume their `;`. */
  lemma StatementParses(s: A.Statement, rest: seq<Token>)
    requires ParsableStatement(s)
    requires s.Let? ==> Ends(rest)
    ensures ParsedStatement(PrintStatement(s, rest)) == Ok(Parsed(s, rest))
  {
    if s.Let? {
      LetParses(s, rest);
    } else if s.Return? {
      ReturnParses(s, rest);
    } else {
      ExprParses(s, rest);
    }
  }

  /** One turn of the body loop whose statement is followed by `;`. */
  lemma BodyStep(ts: seq<Token>, body: seq<A.Statement>, s: A.Statement, afterStatement: seq<Token>, rest: seq<Token>)
    requires ts != [] && ts[0] != CloseBrace
    requires ParsedStatement(ts) == Ok(Parsed(s, afterStatement))
    requires afterStatement == [Semicolon] + rest
    ensures ParsedBody(ts, body) == ParsedBody(rest, body + [s])
  {
    Cons(Semicolon, rest);
  }

  lemma BodyClose(ts: seq<Token>, body: seq<A.Statement>)
    requires ts != [] && ts[0] == CloseBrace
    ensures ParsedBody(ts, body) == Ok(Parsed(body, ts[1..]))
  {
  }

  /** A printed statement never starts with `}`. */
  lemma PrintStatementStart(s: A.Statement, rest: seq<Token>)
    ensures PrintStatement(s, rest) != [] && PrintStatement(s, rest)[0] != CloseBrace
    ensures PrintStatement(s, rest)[0] != Semicolon
  {
    if s.Expr? {
      PrintStartsOperand(s.expression, 0);
    }
  }

  /** The body loop reads a printed body back, statement by statement, through its `}`. */
  lemma {:induction false} BodyParses(body: seq<A.Statement>, done: seq<A.Statement>, rest: seq<Token>)
    requires forall i :: 0 <= i < |body| ==> ParsableStatement(body[i])
    ensures ParsedBody(PrintBody(body, rest), done) == Ok(Parsed(done + body, rest))
    decreases |body|
  {
    if body == [] {
      Cons(CloseBrace, rest);
      BodyClose(PrintBody(body, rest), done);
      assert done + body == done;
    } else {
      BodyParses(body[1..], done + [body[0]], rest);
      BodyTurn(body, done, rest);
    }
  }

  /** One statement of the body loop, given that the ones after it read back. */
  lemma BodyTurn(body: seq<A.Statement>, done: seq<A.Statement>, rest: seq<Token>)
    requires body != [] && ParsableStatement(body[0])
    requires ParsedBody(PrintBody(body[1..], rest), done + [body[0]]) == Ok(Parsed(done + [body[0]] + body[1..], rest))
    ensures ParsedBody(PrintBody(body, rest), done) == Ok(Parsed(done + body, rest))
  {
    Shift(done, body);
    StatementThen(body[0], done, PrintBody(body[1..], rest));
  }

  /** A printed statement and its `;` hand the body loop over to what follows. */
  lemma StatementThen(s: A.Statement, done: seq<A.Statement>, next: seq<Token>)
    requires ParsableStatement(s)
    ensures ParsedBody(PrintStatement(s, [Semicolon] + next), done) == ParsedBody(next, done + [s])
  {
    StatementParses(s, [Semicolon] + next);
    PrintStatementStart(s, [Semicolon] + next);
    BodyStep(PrintStatement(s, [Semicolon] + next), done, s, [Semicolon] + next, next);
  }

  lemma ParameterStep(ts: seq<Token>, name: string, parameters: seq<A.Parameter>, afterName: seq<Token>,
                      afterColon: seq<Token>, rest: seq<Token>)
    requires ts != [] && ts[0] == Identifier(name) && ts[1..] == afterName
    requires Skip(afterName, Colon) == Ok(afterColon)
    requires ParsedType(afterColon) == Ok(Parsed(A.U32, rest))
    requires rest != [] && (rest[0] == Comma || rest[0] == CloseParen)
    ensures ParsedParameters(ts, parameters)
            == ParsedParameters(if rest[0] == Comma then rest[1..] else rest, parameters + [A.Parameter(name, A.U32)])
  {
  }

  /** The parameter loop reads printed parameters back, through their `)`. */
  lemma {:induction false} ParametersParse(parameters: seq<A.Parameter>, done: seq<A.Parameter>, rest: seq<Token>)
    requires forall i :: 0 <= i < |parameters| ==> parameters[i].typ == A.U32
    ensures ParsedParameters(PrintParameters(parameters, rest), done) == Ok(Parsed(done + parameters, rest))
    decreases |parameters|
  {
    if parameters == [] {
      Cons(CloseParen, rest);
      assert done + parameters == done;
    } else {
      ParametersParse(parameters[1..], done + [parameters[0]], rest);
      ParametersTurn(parameters, done, rest);
    }
  }

  /** One parameter of the loop, given that the ones after it read back. */
  lemma ParametersTurn(parameters: seq<A.Parameter>, done: seq<A.Parameter>, rest: seq<Token>)
    requires parameters != [] && parameters[0].typ == A.U32
    requires ParsedParameters(PrintParameters(parameters[1..], rest), done + [parameters[0]])
             == Ok(Parsed(done + [parameters[0]] + parameters[1..], rest))
    ensures ParsedParameters(PrintParameters(parameters, rest), done) == Ok(Parsed(done + parameters, rest))
  {
    var p := parameters[0];
    var next := PrintParameters(parameters[1..], rest);
    var after := if |parameters| == 1 then [CloseParen] + rest else [Comma] + next;
    assert PrintParameters(parameters, rest) == [Identifier(p.name)] + ([Colon] + ([Identifier("u32")] + after));
    if |parameters| == 1 {
      assert parameters[1..] == [];
      Cons(CloseParen, rest);
    } else {
      Cons(Comma, next);
    }
    assert done + [p] + parameters[1..] == done + parameters;
    PrintedParameterStep(p, done, after);
  }

  /** `name: u32` followed by `,` or `)` adds the parameter and leaves what follows the
      separator. */
  lemma PrintedParameterStep(p: A.Parameter, parameters: seq<A.Parameter>, after: seq<Token>)
    requires p.typ == A.U32
    requires after != [] && (after[0] == Comma || after[0] == CloseParen)
    ensures ParsedParameters([Identifier(p.name)] + ([Colon] + ([Identifier("u32")] + after)), parameters)
            == ParsedParameters(if after[0] == Comma then after[1..] else after, parameters + [p])
  {
    var afterColon := [Identifier("u32")] + after;
    var afterName := [Colon] + afterColon;
    Cons(Identifier(p.name), afterName);
    SkipCons(Colon, afterColon);
    TypeCons(after);
    ParameterStep([Identifier(p.name)] + afterName, p.name, parameters, afterName, afterColon, after);
  }

  /** A function after its `fn`, given how its parameters and body read back. */
  lemma FunctionStep(ts: seq<Token>, name: string, afterName: seq<Token>, afterOpen: seq<Token>,
                     parameters: seq<A.Parameter>, afterParameters: seq<Token>, afterColon: seq<Token>,
                     afterType: seq<Token>, afterBrace: seq<Token>, body: seq<A.Statement>, rest: seq<Token>)
    requires ts != [] && ts[0] == Identifier(name) && ts[1..] == afterName
    requires Skip(afterName, OpenParen) == Ok(afterOpen)
    requires ParsedParameters(afterOpen, []) == Ok(Parsed(parameters, afterParameters))
    requires Skip(afterParameters, Colon) == Ok(afterColon)
    requires ParsedType(afterColon) == Ok(Parsed(A.U32, afterType))
    requires Skip(afterType, OpenBrace) == Ok(afterBrace)
    requires ParsedBody(afterBrace, []) == Ok(Parsed(body, rest))
    ensures ParsedFunction(ts) == Ok(Parsed(A.Function(name, parameters, A.U32, body), rest))
  {
  }

  /** The same, with the punctuation of a printed function in place. */
  lemma PrintedFunctionStep(name: string, afterOpen: seq<Token>, parameters: seq<A.Parameter>,
                            afterBrace: seq<Token>, body: seq<A.Statement>, rest: seq<Token>)
    requires ParsedParameters(afterOpen, []) == Ok(Parsed(parameters, [Colon] + ([Identifier("u32")] + ([OpenBrace] + afterBrace))))
    requires ParsedBody(afterBrace, []) == Ok(Parsed(body, rest))
    ensures ParsedFunction([Identifier(name)] + ([OpenParen] + afterOpen)) == Ok(Parsed(A.Function(name, parameters, A.U32, body), rest))
  {
    var afterType := [OpenBrace] + afterBrace;
    var afterColon := [Identifier("u32")] + afterType;
    var afterParameters := [Colon] + afterColon;
    var afterName := [OpenParen] + afterOpen;
    Cons(Identifier(name), afterName);
    SkipCons(OpenParen, afterOpen);
    SkipCons(Colon, afterColon);
    TypeCons(afterType);
    SkipCons(OpenBrace, afterBrace);
    FunctionStep([Identifier(name)] + afterName, name, afterName, afterOpen, parameters, afterParameters, afterColon, afterType, afterBrace, body, rest);
  }

  /** A printed function reads back after its `fn`. */
  lemma FunctionParses(d: A.Declaration, rest: seq<Token>)
    requires ParsableDeclaration(d)
    ensures PrintFunction(d, rest) != [] && PrintFunction(d, rest)[0] == KwFn
    ensures ParsedFunction(PrintFunction(d, rest)[1..]) == Ok(Parsed(d, rest))
  {
    var afterBrace := PrintBody(d.body, rest);
    var afterParameters := [Colon] + ([Identifier("u32")] + ([OpenBrace] + afterBrace));
    var afterOpen := PrintParameters(d.arguments, afterParameters);
    Cons(KwFn, [Identifier(d.name)] + ([OpenParen] + afterOpen));
    Whole(d.arguments);
    Whole(d.body);
    ParametersParse(d.arguments, [], afterParameters);
    BodyParses(d.body, [], rest);
    PrintedFunctionStep(d.name, afterOpen, d.arguments, afterBrace, d.body, rest);
  }

  lemma ProgramStep(ts: seq<Token>, done: seq<A.Declaration>, d: A.Declaration, rest: seq<Token>)
    requires ts != [] && ts[0] == KwFn
    requires ParsedFunction(ts[1..]) == Ok(Parsed(d, rest))
    ensures ParsedProgram(ts, done) == ParsedProgram(rest, done + [d])
  {
  }

  /** One turn of the top-level loop over a printed function. */
  lemma ProgramTurn(d: A.Declaration, done: seq<A.Declaration>, rest: seq<Token>)
    requires ParsableDeclaration(d)
    ensures ParsedProgram(PrintFunction(d, rest), done) == ParsedProgram(rest, done + [d])
  {
    FunctionParses(d, rest);
    ProgramStep(PrintFunction(d, rest), done, d, rest);
  }

  /** The top-level loop reads a printed program back, declaration by declaration. */
  lemma {:induction false} ProgramParses(declarations: seq<A.Declaration>, done: seq<A.Declaration>)
    requires AllParsable(declarations)
    ensures ParsedProgram(PrintProgram(declarations), done) == Ok(done + declarations)
    decreases |declarations|
  {
    if declarations == [] {
      assert done + declarations == done;
    } else {
      var d := declarations[0];
      var others := declarations[1..];
      ProgramParses(others, done + [d]);
      Shift(done, declarations);
      ProgramTurn(d, done, PrintProgram(others));
    }
  }

  /** `parse_type` accepts exactly the identifier `u32`, consuming it; anything else, or the
      end of the tokens, is reported as found. */
  lemma TypeIsU32(ts: seq<Token>)
    ensures ParsedType(ts).Ok? <==> ts != [] && ts[0] == Identifier("u32")
    ensures ParsedType(ts).Ok? ==> ParsedType(ts).value == Parsed(A.U32, ts[1..])
    ensures ParsedType(ts).Err? ==> ParsedType(ts).error == Unexpected(ts)
  {
  }

  /** Only `fn` may start a declaration: any other token at the top level, a `Comment`
      included, is rejected as found, and running out of tokens there ends the program. */
  lemma OnlyFunctionsAtTopLevel(ts: seq<Token>, done: seq<A.Declaration>)
    ensures ts == [] ==> ParsedProgram(ts, done) == Ok(done)
    ensures ts != [] && ts[0] != KwFn ==> ParsedProgram(ts, done) == Err(UnexpectedToken(ts[0]))
  {
  }

  /** `a + b * c` reads as `a + (b * c)`. */
  lemma ProductBindsTighter(a: string, b: string, c: string)
    ensures ParsedExpression([Identifier(a), Add, Identifier(b), Multiply, Identifier(c)])
            == Ok(Parsed(A.Add(A.Variable(a), A.Mul(A.Variable(b), A.Variable(c))), []))
  {
    var e := A.Add(A.Variable(a), A.Mul(A.Variable(b), A.Variable(c)));
    assert Print(A.Variable(a), 0) == [Identifier(a)];
    assert Print(A.Mul(A.Variable(b), A.Variable(c)), 1) == [Identifier(b), Multiply, Identifier(c)];
    assert Print(e, 0) + [] == [Identifier(a), Add, Identifier(b), Multiply, Identifier(c)];
    ExpressionParses(e, []);
  }

  /** `a - b - c` reads as `(a - b) - c`. */
  lemma DifferenceAssociatesLeft(a: string, b: string, c: string)
    ensures ParsedExpression([Identifier(a), Minus, Identifier(b), Minus, Identifier(c)])
            == Ok(Parsed(A.Sub(A.Sub(A.Variable(a), A.Variable(b)), A.Variable(c)), []))
  {
    var e := A.Sub(A.Sub(A.Variable(a), A.Variable(b)), A.Variable(c));
    assert Print(A.Sub(A.Variable(a), A.Variable(b)), 0) == [Identifier(a), Minus, Identifier(b)];
    assert Print(A.Variable(c), 1) == [Identifier(c)];
    assert Print(e, 0) + [] == [Identifier(a), Minus, Identifier(b), Minus, Identifier(c)];
    ExpressionParses(e, []);
  }

  /** `a / b / c` reads as `(a / b) / c`. */
  lemma QuotientAssociatesLeft(a: string, b: string, c: string)
    ensures ParsedExpression([Identifier(a), Divide, Identifier(b), Divide, Identifier(c)])
            == Ok(Parsed(A.Div(A.Div(A.Variable(a), A.Variable(b)), A.Variable(c)), []))
  {
    var e := A.Div(A.Div(A.Variable(a), A.Variable(b)), A.Variable(c));
    assert Print(A.Div(A.Variable(a), A.Variable(b)), 0) == [Identifier(a), Divide, Identifier(b)];
    assert Print(A.Variable(c), 2) == [Identifier(c)];
    assert Print(e, 0) + [] == [Identifier(a), Divide, Identifier(b), Divide, Identifier(c)];
    ExpressionParses(e, []);
  }

  /** A call's argument list may end with a comma: `f(a,)` reads as `f(a)`. */
  lemma TrailingCommaAccepted(f: string, a: A.Expression, rest: seq<Token>)
    ensures ParsedPrimary([Identifier(f), OpenParen] + (Print(a, 0) + ([Comma] + ([CloseParen] + rest))))
            == Ok(Parsed(A.Call(f, [a]), rest))
  {
    var close := [CloseParen] + rest;
    var tail := [Comma] + close;
    var inside := Print(a, 0) + tail;
    var ts := [Identifier(f), OpenParen] + inside;
    assert ts[2..] == inside;
    assert [] + [a] == [a];
    Cons(Comma, close);
    Cons(CloseParen, rest);
    PrintStartsOperand(a, 0);
    ArgumentsClose(close, f, [a]);
    ExpressionParses(a, tail);
    ArgumentsStep(inside, f, [], a, tail);
    PrimaryCall(ts, f);
  }

  /** Two arguments with nothing between them: the call is rejected at the token after the
      first one. */
  lemma MissingSeparatorRejected(f: string, a: A.Expression, rest: seq<Token>)
    requires Ends(rest) && !(rest != [] && (rest[0] == Comma || rest[0] == CloseParen))
    ensures ParsedPrimary([Identifier(f), OpenParen] + (Print(a, 0) + rest)) == Err(Unexpected(rest))
  {
    var inside := Print(a, 0) + rest;
    var ts := [Identifier(f), OpenParen] + inside;
    assert ts[2..] == inside;
    PrimaryCall(ts, f);
    PrintStartsOperand(a, 0);
    ExpressionParses(a, rest);
  }

  /** A statement that leaves `}` next ends the body: `return e; }` and, since a `let` does
      not consume its `;`, also `let x: u32 = e }`. */
  lemma BodyEndsAfter(ts: seq<Token>, body: seq<A.Statement>, s: A.Statement, rest: seq<Token>)
    requires ts != [] && ts[0] != CloseBrace
    requires ParsedStatement(ts) == Ok(Parsed(s, [CloseBrace] + rest))
    ensures ParsedBody(ts, body) == Ok(Parsed(body + [s], rest))
  {
    Cons(CloseBrace, rest);
    BodyClose([CloseBrace] + rest, body + [s]);
  }

  lemma ReturnClosesBody(e: A.Expression, body: seq<A.Statement>, rest: seq<Token>)
    ensures ParsedBody(PrintStatement(A.Return(e), [CloseBrace] + rest), body) == Ok(Parsed(body + [A.Return(e)], rest))
  {
    ReturnParses(A.Return(e), [CloseBrace] + rest);
    PrintStatementStart(A.Return(e), [CloseBrace] + rest);
    BodyEndsAfter(PrintStatement(A.Return(e), [CloseBrace] + rest), body, A.Return(e), rest);
  }

  lemma LetWithoutSemicolonClosesBody(x: string, e: A.Expression, body: seq<A.Statement>, rest: seq<Token>)
    ensures ParsedBody(PrintStatement(A.Let(x, Some(A.U32), e), [CloseBrace] + rest), body)
            == Ok(Parsed(body + [A.Let(x, Some(A.U32), e)], rest))
  {
    var s := A.Let(x, Some(A.U32), e);
    LetParses(s, [CloseBrace] + rest);
    PrintStatementStart(s, [CloseBrace] + rest);
    BodyEndsAfter(PrintStatement(s, [CloseBrace] + rest), body, s, rest);
  }

  /** A statement whose next token is neither `;` nor `}` stops the body loop at that token. */
  lemma BodyRejectsAfter(ts: seq<Token>, body: seq<A.Statement>, s: A.Statement, rest: seq<Token>)
    requires ts != [] && ts[0] != CloseBrace
    requires ParsedStatement(ts) == Ok(Parsed(s, rest))
    requires rest != [] && rest[0] != CloseBrace && rest[0] != Semicolon
    ensures ParsedBody(ts, body) == Err(UnexpectedToken(rest[0]))
  {
  }

  /** `return e;` consumes its own `;`, so the body loop then wants another `;` or a `}`: a
      statement written straight after it is rejected at its first token. */
  lemma StatementAfterReturnRejected(e: A.Expression, s: A.Statement, body: seq<A.Statement>, rest: seq<Token>)
    ensures ParsedBody(PrintStatement(A.Return(e), PrintStatement(s, rest)), body)
            == Err(UnexpectedToken(PrintStatement(s, rest)[0]))
  {
    var next := PrintStatement(s, rest);
    ReturnParses(A.Return(e), next);
    PrintStatementStart(s, rest);
    PrintStatementStart(A.Return(e), next);
    BodyRejectsAfter(PrintStatement(A.Return(e), next), body, A.Return(e), next);
  }
}
