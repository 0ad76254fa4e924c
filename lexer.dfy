/** The lexer (`get_tokens` in src/parser.rs): one pass over the characters of the input,
    each token decided by its first character and at most one character of lookahead per
    step. A character the lexer panics on makes the whole input unlexable (`None`). */
module Lexer {
  import opened Base

  datatype Token =
    | Comment
    | KwFn
    | KwLet
    | KwReturn
    | Number(value: u32)
    | Identifier(name: string)
    | StringLiteral(text: string)
    | OpenParen
    | CloseParen
    | OpenBrace
    | CloseBrace
    | OpenBracket
    | CloseBracket
    | Comma
    | Colon
    | Semicolon
    | Equals
    | Add
    | Minus
    | Mod
    | Divide
    | Multiply
    | Bang
    | BangEquals

  predicate IsDigit(c: char) {
    '0' <= c <= '9'
  }

  /** A character an identifier may start with. */
  predicate IsIdentifierStart(c: char) {
    'a' <= c <= 'z' || 'A' <= c <= 'Z' || c == '_'
  }

  /** A character an identifier may continue with. */
  predicate IsIdentifierChar(c: char) {
    IsDigit(c) || IsIdentifierStart(c)
  }

  function DigitValue(c: char): (d: nat)
    requires IsDigit(c)
    ensures d <= 9
  {
    c as int - '0' as int
  }

  /** The token for a complete identifier-shaped word: exactly three words are keywords. */
  function Keyword(word: string): Token {
    if word == "fn" then KwFn
    else if word == "let" then KwLet
    else if word == "return" then KwReturn
    else Identifier(word)
  }

  /** `t` followed by the tokens of the rest of the input, unless the rest cannot be lexed. */
  function Prepend(t: Token, rest: Option<seq<Token>>): (r: Option<seq<Token>>)
    ensures r.Some? <==> rest.Some?
    ensures r.Some? ==> r.value == [t] + rest.value
  {
    if rest.None? then None else Some([t] + rest.value)
  }

  /** What a line comment leaves: everything from the first newline on (the newline itself
      is left in place). */
  function SkipLine(s: string): (rest: string)
    ensures |rest| <= |s| && rest == s[|s| - |rest|..]
    ensures rest == [] || rest[0] == '\n'
    ensures forall i :: 0 <= i < |s| - |rest| ==> s[i] != '\n'
  {
    if s == [] || s[0] == '\n' then s else SkipLine(s[1..])
  }

  /** The body of a string literal, after its opening quote, with `text` decoded so far:
      the decoded text and what follows the closing quote. Only `\\`, `\n` and `\"` are
      escapes; any other escape, or the input ending first, is a panic. */
  function ScanString(s: string, text: string): (r: Option<(string, string)>)
    ensures r.Some? ==> |r.value.1| < |s|
  {
    if s == [] then None
    else if s[0] == '\\' then
      if |s| < 2 then None
      else if s[1] == '\\' then ScanString(s[2..], text + ['\\'])
      else if s[1] == 'n' then ScanString(s[2..], text + ['\n'])
      else if s[1] == '"' then ScanString(s[2..], text + ['"'])
      else None
    else if s[0] == '"' then Some((text, s[1..]))
    else ScanString(s[1..], text + [s[0]])
  }

  /** The rest of a number after its first digit, with `n` accumulated so far: the value
      and what follows the last digit. Multiplying or adding past `u32::MAX` is a panic. */
  function ScanNumber(s: string, n: u32): (r: Option<(u32, string)>)
    ensures r.Some? ==> |r.value.1| <= |s|
  {
    if s != [] && IsDigit(s[0]) then
      if n * 10 > U32_MAX then None
      else if n * 10 + DigitValue(s[0]) > U32_MAX then None
      else ScanNumber(s[1..], n * 10 + DigitValue(s[0]))
    else Some((n, s))
  }

  /** How many characters at the front of `s` can continue an identifier. */
  function IdentifierLength(s: string): (k: nat)
    ensures k <= |s|
  {
    if s != [] && IsIdentifierChar(s[0]) then 1 + IdentifierLength(s[1..]) else 0
  }

  /** The lexeme at the front of non-empty `s`: the token it stands for (`None` for a
      whitespace character) and the input after it; `None` when the lexer panics there. */
  function Lexeme(s: string): (r: Option<(Option<Token>, string)>)
    requires s != []
    ensures r.Some? ==> |r.value.1| < |s|
  {
    var rest := s[1..];
    match s[0]
    case '(' => Some((Some(OpenParen), rest))
    case ')' => Some((Some(CloseParen), rest))
    case '[' => Some((Some(OpenBracket), rest))
    case ']' => Some((Some(CloseBracket), rest))
    case '{' => Some((Some(OpenBrace), rest))
    case '}' => Some((Some(CloseBrace), rest))
    case '=' => Some((Some(Equals), rest))
    case ':' => Some((Some(Colon), rest))
    case ';' => Some((Some(Semicolon), rest))
    case ',' => Some((Some(Comma), rest))
    case '+' => Some((Some(Add), rest))
    case '-' => Some((Some(Minus), rest))
    case '*' => Some((Some(Multiply), rest))
    case '/' =>
      if rest != [] && rest[0] == '/' then Some((Some(Comment), SkipLine(rest[1..])))
      else Some((Some(Divide), rest))
    case '%' => Some((Some(Mod), rest))
    case '!' =>
      if rest != [] && rest[0] == '=' then Some((Some(BangEquals), rest[1..]))
      else Some((Some(Bang), rest))
    case '"' =>
      (match ScanString(rest, [])
       case None => None
       case Some((text, after)) => Some((Some(StringLiteral(text)), after)))
    case ' ' => Some((None, rest))
    case '\t' => Some((None, rest))
    case '\n' => Some((None, rest))
    case '\r' => Some((None, rest))
    case c =>
      if IsDigit(c) then
        match ScanNumber(rest, DigitValue(c))
        case None => None
        case Some((n, after)) => Some((Some(Number(n)), after))
      else if IsIdentifierStart(c) then
        var k := IdentifierLength(rest);
        Some((Some(Keyword(s[..k + 1])), rest[k..]))
      else None
  }

  /** The tokens of `s`, or `None` when the lexer panics on it. */
  function Lex(s: string): Option<seq<Token>>
    decreases |s|
  {
    if s == [] then Some([])
    else
      match Lexeme(s)
      case None => None
      case Some((t, rest)) => if t.Some? then Prepend(t.value, Lex(rest)) else Lex(rest)
  }

  /** `tokens` followed by the tokens of the rest of the input. */
  function Then(tokens: seq<Token>, rest: Option<seq<Token>>): Option<seq<Token>> {
    if rest.None? then None else Some(tokens + rest.value)
  }

  lemma ThenPrepend(tokens: seq<Token>, t: Token, rest: Option<seq<Token>>)
    ensures Then(tokens, Prepend(t, rest)) == Then(tokens + [t], rest)
  {
    if rest.Some? {
      assert tokens + ([t] + rest.value) == tokens + [t] + rest.value;
    }
  }

  /** `get_tokens`: the main loop over the characters, pushing one token per lexeme. It
      panics exactly where `Lex` gives `None`, so lexable input is required. */
  method GetTokens(input: string) returns (tokens: seq<Token>)
    requires Lex(input).Some?
    ensures Lex(input) == Some(tokens)
  {
    tokens := [];
    var i := 0;
    assert input[i..] == input && [] + Lex(input).value == Lex(input).value;
    while i < |input|
      invariant i <= |input|
      invariant Lex(input) == Then(tokens, Lex(input[i..]))
      decreases |input| - i
    {
      var t, j := NextLexeme(input, i);
      assert Lex(input[i..]) == if t.Some? then Prepend(t.value, Lex(input[j..])) else Lex(input[j..]);
      if t.Some? {
        ThenPrepend(tokens, t.value, Lex(input[j..]));
        tokens := tokens + [t.value];
      }
      i := j;
    }
    assert input[i..] == [] && tokens + [] == tokens;
  }

  /** One turn of the main loop: the lexeme starting at `i` and where the next one starts;
      whitespace yields no token. */
  method NextLexeme(input: string, i: nat) returns (t: Option<Token>, j: nat)
    requires i < |input| && Lexeme(input[i..]).Some?
    ensures i < j <= |input|
    ensures Lexeme(input[i..]) == Some((t, input[j..]))
  {
    ghost var s := input[i..];
    var c := input[i];
    j := i + 1;
    assert s[0] == c && s[1..] == input[j..];
    match c {
      case '(' => t := Some(OpenParen);
      case ')' => t := Some(CloseParen);
      case '[' => t := Some(OpenBracket);
      case ']' => t := Some(CloseBracket);
      case '{' => t := Some(OpenBrace);
      case '}' => t := Some(CloseBrace);
      case '=' => t := Some(Equals);
      case ':' => t := Some(Colon);
      case ';' => t := Some(Semicolon);
      case ',' => t := Some(Comma);
      case '+' => t := Some(Add);
      case '-' => t := Some(Minus);
      case '*' => t := Some(Multiply);
      case '/' =>
        if j < |input| && input[j] == '/' {
          assert input[j..][1..] == input[j + 1..];
          j := SkipComment(input, j + 1);
          t := Some(Comment);
        } else {
          t := Some(Divide);
        }
      case '%' => t := Some(Mod);
      case '!' =>
        if j < |input| && input[j] == '=' {
          assert input[j..][1..] == input[j + 1..];
          j := j + 1;
          t := Some(BangEquals);
        } else {
          t := Some(Bang);
        }
      case '"' =>
        var text;
        text, j := LexString(input, j);
        t := Some(StringLiteral(text));
      case ' ' => t := None;
      case '\t' => t := None;
      case '\n' => t := None;
      case '\r' => t := None;
      case _ =>
        t, j := NumberOrWord(input, i);
    }
  }

  /** The fall-through arm of the character match: a number literal or an identifier,
      whichever the first character starts. */
  method NumberOrWord(input: string, i: nat) returns (t: Option<Token>, j: nat)
    requires i < |input| && (IsDigit(input[i]) || IsIdentifierStart(input[i]))
    requires Lexeme(input[i..]).Some?
    ensures i < j <= |input|
    ensures Lexeme(input[i..]) == Some((t, input[j..]))
  {
    ghost var s := input[i..];
    var c := input[i];
    j := i + 1;
    assert s[0] == c && s[1..] == input[j..];
    if IsDigit(c) {
      var n;
      n, j := LexNumber(input, j, DigitValue(c));
      t := Some(Number(n));
    } else {
      var word;
      word, j := LexIdentifier(input, i);
      assert word == s[..IdentifierLength(s[1..]) + 1];
      t := Some(Keyword(word));
    }
  }

  /** The inner loop of a line comment: skips to the next newline, or to the end. */
  method SkipComment(input: string, start: nat) returns (i: nat)
    requires start <= |input|
    ensures start <= i <= |input| && input[i..] == SkipLine(input[start..])
  {
    i := start;
    while i < |input| && input[i] != '\n'
      invariant start <= i <= |input|
      invariant SkipLine(input[i..]) == SkipLine(input[start..])
      decreases |input| - i
    {
      SkipLineStep(input, i);
      i := i + 1;
    }
    SkipLineStop(input[i..]);
  }

  /** One character of a comment that is not its newline. */
  lemma SkipLineStep(input: string, i: nat)
    requires i < |input| && input[i] != '\n'
    ensures SkipLine(input[i..]) == SkipLine(input[i + 1..])
  {
    assert input[i..][1..] == input[i + 1..];
  }

  /** A comment ends at a newline or at the end of the input. */
  lemma SkipLineStop(s: string)
    requires s == [] || s[0] == '\n'
    ensures SkipLine(s) == s
  {
  }

  /** The loop of a string literal, from just after its opening quote to just after its
      closing one, decoding escapes on the way. */
  method LexString(input: string, start: nat) returns (text: string, i: nat)
    requires start <= |input| && ScanString(input[start..], []).Some?
    ensures i <= |input| && ScanString(input[start..], []) == Some((text, input[i..]))
  {
    text := [];
    i := start;
    while i < |input| && input[i] != '"'
      invariant start <= i <= |input|
      invariant ScanString(input[i..], text) == ScanString(input[start..], [])
      decreases |input| - i
    {
      if input[i] == '\\' {
        assert input[i..][1] == input[i + 1] && input[i..][2..] == input[i + 2..];
        var escaped := input[i + 1];
        if escaped == '\\' {
          text := text + ['\\'];
        } else if escaped == 'n' {
          text := text + ['\n'];
        } else {
          text := text + ['"'];
        }
        i := i + 2;
      } else {
        assert input[i..][1..] == input[i + 1..];
        text := text + [input[i]];
        i := i + 1;
      }
    }
    assert input[i..][1..] == input[i + 1..];
    i := i + 1;
  }

  /** The digit loop of a number whose first digit gave `first`. */
  method LexNumber(input: string, start: nat, first: u32) returns (n: u32, i: nat)
    requires start <= |input| && ScanNumber(input[start..], first).Some?
    ensures i <= |input| && ScanNumber(input[start..], first) == Some((n, input[i..]))
  {
    n := first;
    i := start;
    while i < |input| && IsDigit(input[i])
      invariant start <= i <= |input|
      invariant ScanNumber(input[i..], n) == ScanNumber(input[start..], first)
      decreases |input| - i
    {
      assert input[i..][1..] == input[i + 1..];
      n := n * 10;
      n := n + DigitValue(input[i]);
      i := i + 1;
    }
  }

  /** The word loop of an identifier or keyword starting at `start`: the longest run of
      identifier characters. */
  method LexIdentifier(input: string, start: nat) returns (word: string, i: nat)
    requires start < |input|
    ensures i == start + 1 + IdentifierLength(input[start + 1..])
    ensures i <= |input| && word == input[start..i]
  {
    word := [input[start]];
    i := start + 1;
    while i < |input| && IsIdentifierChar(input[i])
      invariant start < i <= |input| && word == input[start..i]
      invariant i - start - 1 + IdentifierLength(input[i..]) == IdentifierLength(input[start + 1..])
      decreases |input| - i
    {
      assert input[i..][1..] == input[i + 1..];
      word := word + [input[i]];
      i := i + 1;
    }
  }
}
