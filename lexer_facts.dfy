/** What the lexer promises about each kind of lexeme, and that it reads back any token
    sequence written out one token per line. */
module LexerProperties {
  import opened Base
  import opened Lexer

  predicate AllDigits(ds: string) {
    forall i :: 0 <= i < |ds| ==> IsDigit(ds[i])
  }

  function Pow10(k: nat): (p: nat)
    ensures p >= 1
  {
    if k == 0 then 1 else 10 * Pow10(k - 1)
  }

  /** The positional value of a string of decimal digits, most significant first. */
  function DecimalValue(ds: string): nat
    requires AllDigits(ds)
  {
    if ds == [] then 0 else DecimalValue(ds[..|ds| - 1]) * 10 + DigitValue(ds[|ds| - 1])
  }

  /** Splitting off the leading digit. */
  lemma {:induction false} DecimalValueFront(ds: string)
    requires ds != [] && AllDigits(ds)
    ensures DecimalValue(ds) == DigitValue(ds[0]) * Pow10(|ds| - 1) + DecimalValue(ds[1..])
    decreases |ds|
  {
    if |ds| == 1 {
      assert ds[..0] == [] && ds[1..] == [];
    } else {
      var init := ds[..|ds| - 1];
      assert init[0] == ds[0] && init[1..] == ds[1..][..|ds[1..]| - 1];
      DecimalValueFront(init);
      var d, last := DigitValue(ds[0]), DigitValue(ds[|ds| - 1]);
      var p := Pow10(|ds| - 2);
      var v := DecimalValue(init[1..]);
      assert Pow10(|ds| - 1) == 10 * p;
      assert DecimalValue(ds[1..]) == v * 10 + last;
      FrontArithmetic(d, p, v, last);
    }
  }

  lemma FrontArithmetic(d: nat, p: nat, v: nat, last: nat)
    ensures (d * p + v) * 10 + last == d * (10 * p) + (v * 10 + last)
  {
  }

  /** `n` with the digits `ds` appended to its decimal notation. */
  function Shifted(n: nat, ds: string): nat
    requires AllDigits(ds)
  {
    n * Pow10(|ds|) + DecimalValue(ds)
  }

  lemma ShiftedStep(n: nat, ds: string)
    requires ds != [] && AllDigits(ds)
    ensures Shifted(n, ds) == Shifted(n * 10 + DigitValue(ds[0]), ds[1..])
    ensures Shifted(n, ds) >= n * 10 + DigitValue(ds[0])
  {
    DecimalValueFront(ds);
    var p := Pow10(|ds| - 1);
    assert Pow10(|ds|) == 10 * p;
    ShiftArithmetic(n, DigitValue(ds[0]), p, DecimalValue(ds[1..]));
  }

  lemma ShiftArithmetic(n: nat, d: nat, p: nat, q: nat)
    requires p >= 1
    ensures n * (10 * p) + (d * p + q) == (n * 10 + d) * p + q
    ensures (n * 10 + d) * p + q >= n * 10 + d
  {
    var m := n * 10 + d;
    assert n * (10 * p) == (n * 10) * p;
    assert (n * 10) * p + d * p == m * p;
    assert m * p == m + m * (p - 1);
  }

  /** The digit loop reads the whole run of digits and appends it to `n`, panicking when the
      value would leave `u32`. */
  lemma {:induction false} ScanNumberRun(ds: string, rest: string, n: u32)
    requires AllDigits(ds) && (rest == [] || !IsDigit(rest[0]))
    ensures ScanNumber(ds + rest, n) == if Shifted(n, ds) <= U32_MAX then Some((Shifted(n, ds) as u32, rest)) else None
    decreases |ds|
  {
    if ds == [] {
      assert ds + rest == rest;
    } else {
      var s := ds + rest;
      assert s[0] == ds[0] && s[1..] == ds[1..] + rest;
      ShiftedStep(n, ds);
      var m := n * 10 + DigitValue(ds[0]);
      if m <= U32_MAX {
        ScanNumberRun(ds[1..], rest, m);
      }
    }
  }

  /** A run of digits becomes one `Number` holding its decimal value; a value beyond
      `u32::MAX` makes the lexer panic. */
  lemma NumberLexes(ds: string, rest: string)
    requires ds != [] && AllDigits(ds) && (rest == [] || !IsDigit(rest[0]))
    ensures Lex(ds + rest) == if DecimalValue(ds) <= U32_MAX then Prepend(Number(DecimalValue(ds) as u32), Lex(rest)) else None
  {
    NumberLexeme(ds, rest);
  }

  lemma NumberLexeme(ds: string, rest: string)
    requires ds != [] && AllDigits(ds) && (rest == [] || !IsDigit(rest[0]))
    ensures Lexeme(ds + rest) == if DecimalValue(ds) <= U32_MAX then Some((Some(Number(DecimalValue(ds) as u32)), rest)) else None
  {
    var s := ds + rest;
    assert s[0] == ds[0] && s[1..] == ds[1..] + rest;
    DigitLexeme(s);
    DecimalValueFront(ds);
    var d := DigitValue(ds[0]);
    assert Shifted(d, ds[1..]) == DecimalValue(ds);
    ScanNumberRun(ds[1..], rest, d);
  }

  /** A lexeme that starts with a digit is the number the digits scan to. */
  lemma DigitLexeme(s: string)
    requires s != [] && IsDigit(s[0])
    ensures ScanNumber(s[1..], DigitValue(s[0])).None? ==> Lexeme(s) == None
    ensures ScanNumber(s[1..], DigitValue(s[0])).Some? ==>
              Lexeme(s) == Some((Some(Number(ScanNumber(s[1..], DigitValue(s[0])).value.0)), ScanNumber(s[1..], DigitValue(s[0])).value.1))
  {
  }

  /** A word an identifier token can hold. */
  predicate IsIdentifierWord(word: string) {
    word != [] && IsIdentifierStart(word[0]) && forall i :: 0 <= i < |word| ==> IsIdentifierChar(word[i])
  }

  lemma {:induction false} IdentifierLengthOfRun(run: string, rest: string)
    requires forall i :: 0 <= i < |run| ==> IsIdentifierChar(run[i])
    requires rest == [] || !IsIdentifierChar(rest[0])
    ensures IdentifierLength(run + rest) == |run|
    decreases |run|
  {
    if run == [] {
      assert run + rest == rest;
    } else {
      assert (run + rest)[1..] == run[1..] + rest;
      IdentifierLengthOfRun(run[1..], rest);
    }
  }

  /** An identifier is the longest run of identifier characters: the whole word is one
      token, a keyword exactly when it is `fn`, `let` or `return`. */
  lemma IdentifierLexes(word: string, rest: string)
    requires IsIdentifierWord(word) && (rest == [] || !IsIdentifierChar(rest[0]))
    ensures Lex(word + rest) == Prepend(Keyword(word), Lex(rest))
    ensures Keyword(word) == (if word == "fn" then KwFn else if word == "let" then KwLet
                              else if word == "return" then KwReturn else Identifier(word))
  {
    IdentifierLexeme(word, rest);
  }

  lemma IdentifierLexeme(word: string, rest: string)
    requires IsIdentifierWord(word) && (rest == [] || !IsIdentifierChar(rest[0]))
    ensures Lexeme(word + rest) == Some((Some(Keyword(word)), rest))
  {
    var s := word + rest;
    assert s[0] == word[0] && s[1..] == word[1..] + rest;
    IdentifierLengthOfRun(word[1..], rest);
    assert s[..|word|] == word && s[1..][|word| - 1..] == rest;
  }

  lemma {:induction false} SkipLineOfText(text: string, rest: string)
    requires '\n' !in text && (rest == [] || rest[0] == '\n')
    ensures SkipLine(text + rest) == rest
    decreases |text|
  {
    if text == [] {
      assert text + rest == rest;
    } else {
      assert (text + rest)[0] == text[0] && (text + rest)[1..] == text[1..] + rest;
      SkipLineOfText(text[1..], rest);
    }
  }

  /** `//` starts a comment: one `Comment` token, and lexing resumes at the end of the line. */
  lemma CommentLexes(text: string, rest: string)
    requires '\n' !in text && (rest == [] || rest[0] == '\n')
    ensures Lex("//" + text + rest) == Prepend(Comment, Lex(rest))
  {
    CommentLexeme(text, rest);
  }

  lemma CommentLexeme(text: string, rest: string)
    requires '\n' !in text && (rest == [] || rest[0] == '\n')
    ensures Lexeme("//" + text + rest) == Some((Some(Comment), rest))
  {
    var s := "//" + text + rest;
    assert s[0] == '/' && s[1..][0] == '/' && s[1..][1..] == text + rest;
    SkipLineOfText(text, rest);
    SlashLexeme(s);
  }

  /** The lexeme at a `/`: a comment when another `/` follows, otherwise `Divide`. */
  lemma SlashLexeme(s: string)
    requires s != [] && s[0] == '/'
    ensures Lexeme(s) == if s[1..] != [] && s[1..][0] == '/' then Some((Some(Comment), SkipLine(s[1..][1..])))
                         else Some((Some(Divide), s[1..]))
  {
  }

  predicate IsWhitespace(c: char) {
    c == ' ' || c == '\t' || c == '\n' || c == '\r'
  }

  /** Spaces, tabs and line breaks produce no tokens. */
  lemma {:induction false} WhitespaceSkipped(space: string, rest: string)
    requires forall i :: 0 <= i < |space| ==> IsWhitespace(space[i])
    ensures Lex(space + rest) == Lex(rest)
    decreases |space|
  {
    if space != [] {
      assert (space + rest)[0] == space[0] && (space + rest)[1..] == space[1..] + rest;
      WhitespaceSkipped(space[1..], rest);
    } else {
      assert space + rest == rest;
    }
  }

  /** `!` and `/` look one character ahead: `!=` is one `BangEquals` and any other `!` a
      `Bang`; a `/` not followed by another `/` is a `Divide`. The character after a lone
      `!` or `/` starts the next lexeme. */
  lemma OneOrTwoCharacters(rest: string)
    ensures Lex("!=" + rest) == Prepend(BangEquals, Lex(rest))
    ensures (rest == [] || rest[0] != '=') ==> Lex("!" + rest) == Prepend(Bang, Lex(rest))
    ensures (rest == [] || rest[0] != '/') ==> Lex("/" + rest) == Prepend(Divide, Lex(rest))
  {
    OneOrTwoLexemes(rest);
    LexemeLexes("!=" + rest, BangEquals, rest);
    if rest == [] || rest[0] != '=' {
      LexemeLexes("!" + rest, Bang, rest);
    }
    if rest == [] || rest[0] != '/' {
      LexemeLexes("/" + rest, Divide, rest);
    }
  }

  lemma OneOrTwoLexemes(rest: string)
    ensures Lexeme("!=" + rest) == Some((Some(BangEquals), rest))
    ensures (rest == [] || rest[0] != '=') ==> Lexeme("!" + rest) == Some((Some(Bang), rest))
    ensures (rest == [] || rest[0] != '/') ==> Lexeme("/" + rest) == Some((Some(Divide), rest))
  {
    assert ("!=" + rest)[0] == '!' && ("!=" + rest)[1..] == "=" + rest && ("=" + rest)[1..] == rest;
    assert ("!" + rest)[0] == '!' && ("!" + rest)[1..] == rest;
    assert ("/" + rest)[0] == '/' && ("/" + rest)[1..] == rest;
  }

  /** A lexeme that is a token is followed by the tokens of the rest. */
  lemma LexemeLexes(s: string, t: Token, rest: string)
    requires s != [] && Lexeme(s) == Some((Some(t), rest))
    ensures Lex(s) == Prepend(t, Lex(rest))
  {
  }

  /** A character that starts no token and is not whitespace makes the lexer panic, whatever
      follows it. */
  lemma UnknownStartPanics(c: char, rest: string)
    requires !IsDigit(c) && !IsIdentifierStart(c) && !IsWhitespace(c)
    requires c !in "()[]{}=:;,+-*/%!\""
    ensures Lex([c] + rest) == None
  {
    assert ([c] + rest)[0] == c;
  }

  /** The escape sequence written for one character inside a string literal. */
  function EscapeChar(c: char): string {
    if c == '\\' then "\\\\" else if c == '\n' then "\\n" else if c == '"' then "\\\"" else [c]
  }

  /** The body of a string literal that denotes `text`. */
  function Escape(text: string): string {
    if text == [] then [] else EscapeChar(text[0]) + Escape(text[1..])
  }

  /** Decoding the escaped body followed by a closing quote gives the text back. */
  lemma {:induction false} ScanEscaped(text: string, rest: string, decoded: string)
    ensures ScanString(Escape(text) + "\"" + rest, decoded) == Some((decoded + text, rest))
    decreases |text|
  {
    var s := Escape(text) + "\"" + rest;
    if text == [] {
      assert s[0] == '"' && s[1..] == rest;
      assert decoded + text == decoded;
    } else {
      var c := text[0];
      assert Escape(text) == EscapeChar(c) + Escape(text[1..]);
      var tail := Escape(text[1..]) + "\"" + rest;
      assert s == EscapeChar(c) + tail;
      assert decoded + [c] + text[1..] == decoded + text;
      ScanEscaped(text[1..], rest, decoded + [c]);
      if c == '\\' || c == '\n' || c == '"' {
        assert s[0] == '\\' && s[2..] == tail;
      } else {
        assert s[0] == c && s[1..] == tail;
      }
    }
  }

  /** A string literal denotes its text with `\\`, `\n` and `\"` decoded. */
  lemma StringLexes(text: string, rest: string)
    ensures Lex("\"" + Escape(text) + "\"" + rest) == Prepend(StringLiteral(text), Lex(rest))
  {
    StringLexeme(text, rest);
  }

  lemma StringLexeme(text: string, rest: string)
    ensures Lexeme("\"" + Escape(text) + "\"" + rest) == Some((Some(StringLiteral(text)), rest))
  {
    var s := "\"" + Escape(text) + "\"" + rest;
    assert s[0] == '"' && s[1..] == Escape(text) + "\"" + rest;
    ScanEscaped(text, rest, []);
    assert [] + text == text;
  }

  /** Any other escape, wherever it occurs in a literal, makes the lexer panic. */
  lemma {:induction false} UnknownEscapePanics(text: string, c: char, rest: string, decoded: string)
    requires c != '\\' && c != 'n' && c != '"'
    ensures ScanString(Escape(text) + ['\\', c] + rest, decoded) == None
    decreases |text|
  {
    var s := Escape(text) + ['\\', c] + rest;
    if text == [] {
      assert s[0] == '\\' && s[1] == c;
    } else {
      var d := text[0];
      var tail := Escape(text[1..]) + ['\\', c] + rest;
      assert s == EscapeChar(d) + tail;
      UnknownEscapePanics(text[1..], c, rest, decoded + [d]);
      if d == '\\' || d == '\n' || d == '"' {
        assert s[0] == '\\' && s[2..] == tail;
      } else {
        assert s[0] == d && s[1..] == tail;
      }
    }
  }

  /** A literal the input ends inside makes the lexer panic. */
  lemma {:induction false} UnterminatedStringPanics(text: string, decoded: string)
    ensures ScanString(Escape(text), decoded) == None
    decreases |text|
  {
    var s := Escape(text);
    if text != [] {
      var d := text[0];
      var tail := Escape(text[1..]);
      assert s == EscapeChar(d) + tail;
      UnterminatedStringPanics(text[1..], decoded + [d]);
      if d == '\\' || d == '\n' || d == '"' {
        assert s[0] == '\\' && s[2..] == tail;
      } else {
        assert s[0] == d && s[1..] == tail;
      }
    }
  }

  /** The decimal notation of `n`, without leading zeros. */
  function Decimal(n: nat): (ds: string)
    ensures ds != [] && AllDigits(ds)
  {
    var last := (('0' as int) + n % 10) as char;
    if n < 10 then [last] else Decimal(n / 10) + [last]
  }

  lemma {:induction false} DecimalRoundTrip(n: nat)
    ensures DecimalValue(Decimal(n)) == n
  {
    var ds := Decimal(n);
    assert DigitValue(ds[|ds| - 1]) == n % 10;
    if n >= 10 {
      DecimalRoundTrip(n / 10);
      assert ds[..|ds| - 1] == Decimal(n / 10);
    } else {
      assert ds[..0] == [];
    }
  }

  /** The characters a token is written as, when it can be written at all. */
  function Spelling(t: Token): string {
    match t
    case Comment => "//"
    case KwFn => "fn"
    case KwLet => "let"
    case KwReturn => "return"
    case Number(n) => Decimal(n)
    case Identifier(name) => name
    case StringLiteral(text) => "\"" + Escape(text) + "\""
    case OpenParen => "("
    case CloseParen => ")"
    case OpenBrace => "{"
    case CloseBrace => "}"
    case OpenBracket => "["
    case CloseBracket => "]"
    case Comma => ","
    case Colon => ":"
    case Semicolon => ";"
    case Equals => "="
    case Add => "+"
    case Minus => "-"
    case Mod => "%"
    case Divide => "/"
    case Multiply => "*"
    case Bang => "!"
    case BangEquals => "!="
  }

  /** Every token except an identifier whose name is not an identifier word, or is a keyword. */
  predicate Spellable(t: Token) {
    t.Identifier? ==> IsIdentifierWord(t.name) && Keyword(t.name) == t
  }

  /** A token written out and followed by a line break lexes back to itself. */
  lemma SpellingLexes(t: Token, rest: string)
    requires Spellable(t)
    ensures Lex(Spelling(t) + "\n" + rest) == Prepend(t, Lex(rest))
  {
    var tail := "\n" + rest;
    assert Spelling(t) + "\n" + rest == Spelling(t) + tail;
    SpellingLexeme(t, tail);
    WhitespaceSkipped("\n", rest);
  }

  lemma SpellingLexeme(t: Token, tail: string)
    requires Spellable(t) && tail != [] && tail[0] == '\n'
    ensures Lexeme(Spelling(t) + tail) == Some((Some(t), tail))
  {
    if t.Comment? || t.Number? || t.StringLiteral? {
      LiteralLexeme(t, tail);
    } else if t.Identifier? || t.KwFn? || t.KwLet? || t.KwReturn? {
      WordLexeme(t, tail);
    } else {
      SymbolLexeme(t, tail);
    }
  }

  /** A comment, a number or a string literal. */
  lemma LiteralLexeme(t: Token, tail: string)
    requires t.Comment? || t.Number? || t.StringLiteral?
    requires tail != [] && tail[0] == '\n'
    ensures Lexeme(Spelling(t) + tail) == Some((Some(t), tail))
  {
    match t
    case Comment =>
      CommentLexeme("", tail);
      assert "//" + "" + tail == Spelling(t) + tail;
    case Number(n) =>
      DecimalRoundTrip(n);
      NumberLexeme(Decimal(n), tail);
    case StringLiteral(text) =>
      StringLexeme(text, tail);
      assert "\"" + Escape(text) + "\"" + tail == Spelling(t) + tail;
  }

  /** A keyword or an identifier. */
  lemma WordLexeme(t: Token, tail: string)
    requires t.Identifier? || t.KwFn? || t.KwLet? || t.KwReturn?
    requires Spellable(t) && tail != [] && tail[0] == '\n'
    ensures Lexeme(Spelling(t) + tail) == Some((Some(t), tail))
  {
    match t
    case Identifier(name) =>
      IdentifierLexeme(name, tail);
    case KwFn =>
      IdentifierLexeme("fn", tail);
    case KwLet =>
      IdentifierLexeme("let", tail);
    case KwReturn =>
      IdentifierLexeme("return", tail);
  }

  /** An operator or a punctuation mark. */
  lemma SymbolLexeme(t: Token, tail: string)
    requires !(t.Comment? || t.Number? || t.Identifier? || t.KwFn? || t.KwLet? || t.KwReturn? || t.StringLiteral?)
    requires tail != [] && tail[0] == '\n'
    ensures Lexeme(Spelling(t) + tail) == Some((Some(t), tail))
  {
    var s := Spelling(t) + tail;
    if t == BangEquals {
      assert s[0] == '!' && s[1..][0] == '=' && s[1..][1..] == tail;
    } else {
      assert |Spelling(t)| == 1;
      assert s[0] == Spelling(t)[0] && s[1..] == tail;
    }
  }

  /** Tokens written one per line. */
  function Render(tokens: seq<Token>): string {
    if tokens == [] then [] else Spelling(tokens[0]) + "\n" + Render(tokens[1..])
  }

  /** Lexing reads back every sequence of spellable tokens written one per line. */
  lemma {:induction false} RenderLexes(tokens: seq<Token>)
    requires forall i :: 0 <= i < |tokens| ==> Spellable(tokens[i])
    ensures Lex(Render(tokens)) == Some(tokens)
  {
    if tokens != [] {
      RenderLexes(tokens[1..]);
      SpellingLexes(tokens[0], Render(tokens[1..]));
      assert [tokens[0]] + tokens[1..] == tokens;
    }
  }
}
