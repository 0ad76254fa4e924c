/** Lexing and parsing together: a program written out as text, one token per line, reads
    back as the same declarations, and a comment, which the lexer produces but the parser
    does not expect, stops the parse. */
module SourceProperties {
  import opened Base
  import opened Lexer
  import opened LexerProperties
  import opened Parser
  import opened ParserProperties
  import A = Ast

  /** A name the lexer reads back as an identifier: an identifier word that is not a
      keyword. */
  predicate IsName(x: string) {
    IsIdentifierWord(x) && Keyword(x) == Identifier(x)
  }

  /** Every name in the expression is one. */
  predicate NamedExpression(e: A.Expression) {
    match e
    case Call(f, arguments) => IsName(f) && forall i :: 0 <= i < |arguments| ==> NamedExpression(arguments[i])
    case Variable(x) => IsName(x)
    case Add(l, r) => NamedExpression(l) && NamedExpression(r)
    case Sub(l, r) => NamedExpression(l) && NamedExpression(r)
    case Mul(l, r) => NamedExpression(l) && NamedExpression(r)
    case Div(l, r) => NamedExpression(l) && NamedExpression(r)
    case Mod(l, r) => NamedExpression(l) && NamedExpression(r)
    case NumLiteral(_) => true
  }

  predicate NamedStatement(s: A.Statement) {
    match s
    case Let(x, _, init) => IsName(x) && NamedExpression(init)
    case Return(e) => NamedExpression(e)
    case Expr(e) => NamedExpression(e)
  }

  predicate NamedDeclaration(d: A.Declaration) {
    && IsName(d.name)
    && (forall i :: 0 <= i < |d.arguments| ==> IsName(d.arguments[i].name))
    && (forall i :: 0 <= i < |d.body| ==> NamedStatement(d.body[i]))
  }

  predicate AllNamed(ds: seq<A.Declaration>) {
    forall i :: 0 <= i < |ds| ==> NamedDeclaration(ds[i])
  }

  /** Every token can be written out and read back. */
  predicate AllSpellable(ts: seq<Token>) {
    forall i :: 0 <= i < |ts| ==> Spellable(ts[i])
  }

  lemma Join(a: seq<Token>, b: seq<Token>)
    requires AllSpellable(a) && AllSpellable(b)
    ensures AllSpellable(a + b)
  {
    assert forall i :: 0 <= i < |a + b| ==> (a + b)[i] == if i < |a| then a[i] else b[i - |a|];
  }

  lemma TypeNameSpellable()
    ensures Spellable(Identifier("u32"))
  {
    assert IsIdentifierStart('u') && IsIdentifierChar('3') && IsIdentifierChar('2');
  }

  lemma {:induction false} PrintSpellable(e: A.Expression, level: nat)
    requires level <= 2 && NamedExpression(e)
    ensures AllSpellable(Print(e, level))
    decreases e, level
  {
    if IsAdditive(e) {
      if level == 0 {
        PrintSpellable(e.left, 0);
        PrintSpellable(e.right, 1);
        Join(Print(e.left, 0), [OperatorToken(e)]);
        Join(Print(e.left, 0) + [OperatorToken(e)], Print(e.right, 1));
      } else {
        PrintSpellable(e, 0);
        Join([OpenParen], Print(e, 0));
        Join([OpenParen] + Print(e, 0), [CloseParen]);
      }
    } else if IsMultiplicative(e) {
      if level <= 1 {
        PrintSpellable(e.left, 1);
        PrintSpellable(e.right, 2);
        Join(Print(e.left, 1), [OperatorToken(e)]);
        Join(Print(e.left, 1) + [OperatorToken(e)], Print(e.right, 2));
      } else {
        PrintSpellable(e, 0);
        Join([OpenParen], Print(e, 0));
        Join([OpenParen] + Print(e, 0), [CloseParen]);
      }
    } else if e.Call? {
      ListSpellable(e, 0);
      assert e.arguments[0..] == e.arguments;
      Join([Identifier(e.callee), OpenParen], PrintList(e.arguments));
      Join([Identifier(e.callee), OpenParen] + PrintList(e.arguments), [CloseParen]);
    }
  }

  lemma {:induction false} ListSpellable(call: A.Expression, i: nat)
    requires call.Call? && i <= |call.arguments| && NamedExpression(call)
    ensures AllSpellable(PrintList(call.arguments[i..]))
    decreases call, 0, |call.arguments| - i
  {
    var arguments := call.arguments[i..];
    if arguments != [] {
      assert arguments[0] == call.arguments[i];
      assert NamedExpression(call.arguments[i]);
      PrintSpellable(arguments[0], 0);
      if |arguments| > 1 {
        assert arguments[1..] == call.arguments[i + 1..];
        ListSpellable(call, i + 1);
        Join(Print(arguments[0], 0), [Comma]);
        Join(Print(arguments[0], 0) + [Comma], PrintList(arguments[1..]));
      }
    }
  }

  lemma StatementSpellable(s: A.Statement, rest: seq<Token>)
    requires NamedStatement(s) && AllSpellable(rest)
    ensures AllSpellable(PrintStatement(s, rest))
  {
    match s
    case Let(x, _, init) =>
      PrintSpellable(init, 0);
      TypeNameSpellable();
      Join(Print(init, 0), rest);
      Join([Equals], Print(init, 0) + rest);
      Join([Identifier("u32")], [Equals] + (Print(init, 0) + rest));
      Join([Colon], [Identifier("u32")] + ([Equals] + (Print(init, 0) + rest)));
      Join([Identifier(x)], [Colon] + ([Identifier("u32")] + ([Equals] + (Print(init, 0) + rest))));
      Join([KwLet], [Identifier(x)] + ([Colon] + ([Identifier("u32")] + ([Equals] + (Print(init, 0) + rest)))));
    case Return(e) =>
      PrintSpellable(e, 0);
      Join([Semicolon], rest);
      Join(Print(e, 0), [Semicolon] + rest);
      Join([KwReturn], Print(e, 0) + ([Semicolon] + rest));
    case Expr(e) =>
      PrintSpellable(e, 0);
      Join([Semicolon], rest);
      Join(Print(e, 0), [Semicolon] + rest);
  }

  lemma {:induction false} BodySpellable(body: seq<A.Statement>, rest: seq<Token>)
    requires (forall i :: 0 <= i < |body| ==> NamedStatement(body[i])) && AllSpellable(rest)
    ensures AllSpellable(PrintBody(body, rest))
    decreases |body|
  {
    if body == [] {
      Join([CloseBrace], rest);
    } else {
      BodySpellable(body[1..], rest);
      Join([Semicolon], PrintBody(body[1..], rest));
      assert NamedStatement(body[0]);
      StatementSpellable(body[0], [Semicolon] + PrintBody(body[1..], rest));
    }
  }

  lemma {:induction false} ParametersSpellable(parameters: seq<A.Parameter>, rest: seq<Token>)
    requires (forall i :: 0 <= i < |parameters| ==> IsName(parameters[i].name)) && AllSpellable(rest)
    ensures AllSpellable(PrintParameters(parameters, rest))
    decreases |parameters|
  {
    if parameters == [] {
      Join([CloseParen], rest);
    } else {
      var after := if |parameters| == 1 then [CloseParen] + rest else [Comma] + PrintParameters(parameters[1..], rest);
      if |parameters| == 1 {
        Join([CloseParen], rest);
      } else {
        ParametersSpellable(parameters[1..], rest);
        Join([Comma], PrintParameters(parameters[1..], rest));
      }
      assert IsName(parameters[0].name);
      TypeNameSpellable();
      Join([Identifier("u32")], after);
      Join([Colon], [Identifier("u32")] + after);
      Join([Identifier(parameters[0].name)], [Colon] + ([Identifier("u32")] + after));
    }
  }

  lemma FunctionSpellable(d: A.Declaration, rest: seq<Token>)
    requires NamedDeclaration(d) && AllSpellable(rest)
    ensures AllSpellable(PrintFunction(d, rest))
  {
    var afterBrace := PrintBody(d.body, rest);
    var afterParameters := [Colon] + ([Identifier("u32")] + ([OpenBrace] + afterBrace));
    BodySpellable(d.body, rest);
    TypeNameSpellable();
    Join([OpenBrace], afterBrace);
    Join([Identifier("u32")], [OpenBrace] + afterBrace);
    Join([Colon], [Identifier("u32")] + ([OpenBrace] + afterBrace));
    ParametersSpellable(d.arguments, afterParameters);
    var afterOpen := PrintParameters(d.arguments, afterParameters);
    Join([OpenParen], afterOpen);
    Join([Identifier(d.name)], [OpenParen] + afterOpen);
    Join([KwFn], [Identifier(d.name)] + ([OpenParen] + afterOpen));
  }

  lemma {:induction false} ProgramSpellable(declarations: seq<A.Declaration>)
    requires AllNamed(declarations)
    ensures AllSpellable(PrintProgram(declarations))
    decreases |declarations|
  {
    if declarations != [] {
      ProgramSpellable(declarations[1..]);
      assert NamedDeclaration(declarations[0]);
      FunctionSpellable(declarations[0], PrintProgram(declarations[1..]));
    }
  }

  /** A program whose types are all `u32` and whose names are identifier words other than
      the keywords, written as text one token per line, lexes to its tokens and parses back
      to the same declarations. */
  lemma SourceRoundTrip(declarations: seq<A.Declaration>)
    requires AllParsable(declarations) && AllNamed(declarations)
    ensures Lex(Render(PrintProgram(declarations))) == Some(PrintProgram(declarations))
    ensures ParsedSource(Render(PrintProgram(declarations))) == Ok(declarations)
  {
    ProgramSpellable(declarations);
    RenderLexes(PrintProgram(declarations));
    ProgramParses(declarations, []);
    assert [] + declarations == declarations;
  }

  /** The lexer turns `//` and the rest of its line into a `Comment` token, and the
      top-level loop of the parser accepts only `fn`, so a source that starts with a comment
      is rejected at that token. */
  lemma CommentRejected(text: string, rest: string)
    requires '\n' !in text && Lex(rest).Some?
    ensures Lex("//" + text + "\n" + rest).Some?
    ensures ParsedSource("//" + text + "\n" + rest) == Err(UnexpectedToken(Comment))
  {
    var line := "\n" + rest;
    assert "//" + text + "\n" + rest == "//" + text + line;
    CommentLexes(text, line);
    WhitespaceSkipped("\n", rest);
  }
}
