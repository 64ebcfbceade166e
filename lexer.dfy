/** Lexical analysis of formulas (lexer.py): one left-to-right scan that turns the
    formula text into tokens, always closed by a single end-of-input token. */
module Lexing {
  import opened Results

  datatype TokenType =
    | LParen | RParen | NotOp | AndOp | OrOp | ImpliesOp | BiconditionalOp | Variable | Eof

  /** A token: its kind and the text it was read from (absent for end-of-input). */
  datatype Token = Token(kind: TokenType, lexeme: Option<string>)

  const EofToken: Token := Token(Eof, None)

  /** What the scan expected when it stopped: the rest of `->`, the rest of `<->`,
      or any token at all. */
  datatype LexErrorKind = ExpectedImplies | ExpectedBiconditional | UnexpectedCharacter

  /** A lexical error names the offending character and its zero-based position. */
  datatype LexError = LexError(kind: LexErrorKind, ch: char, position: nat)

  /** The characters Python's `str.isspace` accepts. */
  predicate IsSpace(c: char) {
    var n := c as int;
    || 9 <= n <= 13
    || 28 <= n <= 32
    || n == 0x85 || n == 0xA0 || n == 0x1680
    || 0x2000 <= n <= 0x200A
    || n == 0x2028 || n == 0x2029 || n == 0x202F || n == 0x205F || n == 0x3000
  }

  predicate IsUpper(c: char) {
    'A' <= c <= 'Z'
  }

  /** The token kind of a one-character operator or parenthesis, if `c` is one. */
  function PunctuationKind(c: char): Option<TokenType> {
    match c
    case '(' => Some(LParen)
    case ')' => Some(RParen)
    case '!' => Some(NotOp)
    case '&' => Some(AndOp)
    case '|' => Some(OrOp)
    case _ => None
  }

  /** The character at `i`, or nothing past the end of `s`. */
  function CharAt(s: string, i: nat): Option<char> {
    if i < |s| then Some(s[i]) else None
  }

  /** Puts `ts` in front of a successful scan; an error passes through unchanged. */
  function Prepend(ts: seq<Token>, rest: Result<seq<Token>, LexError>): Result<seq<Token>, LexError> {
    match rest
    case Ok(more) => Ok(ts + more)
    case Err(e) => Err(e)
  }

  /** The outcome of scanning `s` from position `i` to its end: the reference
      definition the lexer's loop is proved against. */
  function LexFrom(s: string, i: nat): Result<seq<Token>, LexError>
    requires i <= |s|
    decreases |s| - i
  {
    if i == |s| then Ok([EofToken])
    else
      var c := s[i];
      if IsSpace(c) then LexFrom(s, i + 1)
      else if c == '(' then Prepend([Token(LParen, Some("("))], LexFrom(s, i + 1))
      else if c == ')' then Prepend([Token(RParen, Some(")"))], LexFrom(s, i + 1))
      else if c == '!' then Prepend([Token(NotOp, Some("!"))], LexFrom(s, i + 1))
      else if c == '&' then Prepend([Token(AndOp, Some("&"))], LexFrom(s, i + 1))
      else if c == '|' then Prepend([Token(OrOp, Some("|"))], LexFrom(s, i + 1))
      else if c == '-' then
        if CharAt(s, i + 1) == Some('>') then Prepend([Token(ImpliesOp, Some("->"))], LexFrom(s, i + 2))
        else Err(LexError(ExpectedImplies, c, i))
      else if c == '<' then
        if CharAt(s, i + 1) == Some('-') && CharAt(s, i + 2) == Some('>') then
          Prepend([Token(BiconditionalOp, Some("<->"))], LexFrom(s, i + 3))
        else Err(LexError(ExpectedBiconditional, c, i))
      else if IsUpper(c) then Prepend([Token(Variable, Some([c]))], LexFrom(s, i + 1))
      else Err(LexError(UnexpectedCharacter, c, i))
  }

  /** Tokens of a whole formula. */
  function LexAll(s: string): Result<seq<Token>, LexError> {
    LexFrom(s, 0)
  }

  /** The shape every successful scan has: end-of-input exactly once and last, every
      other token carries its text, and a variable's text is one upper-case letter. */
  ghost predicate WellFormedTokens(ts: seq<Token>) {
    && |ts| >= 1
    && ts[|ts| - 1] == EofToken
    && (forall k :: 0 <= k < |ts| - 1 ==> ts[k].kind != Eof && ts[k].lexeme.Some?)
    && (forall k :: 0 <= k < |ts| - 1 && ts[k].kind == Variable ==>
          |ts[k].lexeme.value| == 1 && IsUpper(ts[k].lexeme.value[0]))
  }

  class Lexer {
    const input: string
    var position: nat

    ghost predicate Valid()
      reads this
    {
      position <= |input|
    }

    constructor (input: string)
      ensures this.input == input && position == 0 && Valid()
    {
      this.input := input;
      position := 0;
    }

    /** The character `offset` places after the cursor, or nothing past the end. */
    function Peek(offset: nat): (r: Option<char>)
      reads this
      ensures r.Some? <==> position + offset < |input|
      ensures r.Some? ==> r.value == input[position + offset]
    {
      if position + offset < |input| then Some(input[position + offset]) else None
    }

    method Advance(count: nat)
      modifies this
      ensures position == old(position) + count
    {
      position := position + count;
    }

    /** Scans the input from the cursor to its end. */
    method Lex() returns (r: Result<seq<Token>, LexError>)
      requires Valid()
      modifies this
      ensures Valid()
      ensures r == LexFrom(input, old(position))
      ensures r.Ok? ==> position == |input|
    {
      ghost var start := position;
      var tokens: seq<Token> := [];
      PrependNothing(LexFrom(input, position));
      while position < |input|
        invariant start <= position <= |input|
        invariant LexFrom(input, start) == Prepend(tokens, LexFrom(input, position))
        decreases |input| - position
      {
        var c := input[position];
        if IsSpace(c) {
          Advance(1);
        } else if c == '(' {
          PrependAppend(tokens, [Token(LParen, Some("("))], LexFrom(input, position + 1));
          tokens := tokens + [Token(LParen, Some("("))];
          Advance(1);
        } else if c == ')' {
          PrependAppend(tokens, [Token(RParen, Some(")"))], LexFrom(input, position + 1));
          tokens := tokens + [Token(RParen, Some(")"))];
          Advance(1);
        } else if c == '!' {
          PrependAppend(tokens, [Token(NotOp, Some("!"))], LexFrom(input, position + 1));
          tokens := tokens + [Token(NotOp, Some("!"))];
          Advance(1);
        } else if c == '&' {
          PrependAppend(tokens, [Token(AndOp, Some("&"))], LexFrom(input, position + 1));
          tokens := tokens + [Token(AndOp, Some("&"))];
          Advance(1);
        } else if c == '|' {
          PrependAppend(tokens, [Token(OrOp, Some("|"))], LexFrom(input, position + 1));
          tokens := tokens + [Token(OrOp, Some("|"))];
          Advance(1);
        } else if c == '-' {
          if Peek(1) == Some('>') {
            PrependAppend(tokens, [Token(ImpliesOp, Some("->"))], LexFrom(input, position + 2));
            tokens := tokens + [Token(ImpliesOp, Some("->"))];
            Advance(2);
          } else {
            return Err(LexError(ExpectedImplies, c, position));
          }
        } else if c == '<' {
          if Peek(1) == Some('-') && Peek(2) == Some('>') {
            PrependAppend(tokens, [Token(BiconditionalOp, Some("<->"))], LexFrom(input, position + 3));
            tokens := tokens + [Token(BiconditionalOp, Some("<->"))];
            Advance(3);
          } else {
            return Err(LexError(ExpectedBiconditional, c, position));
          }
        } else if IsUpper(c) {
          PrependAppend(tokens, [Token(Variable, Some([c]))], LexFrom(input, position + 1));
          tokens := tokens + [Token(Variable, Some([c]))];
          Advance(1);
        } else {
          return Err(LexError(UnexpectedCharacter, c, position));
        }
      }
      tokens := tokens + [EofToken];
      return Ok(tokens);
    }
  }

  lemma PrependNothing(rest: Result<seq<Token>, LexError>)
    ensures Prepend([], rest) == rest
  {
    if rest.Ok? {
      assert [] + rest.value == rest.value;
    }
  }

  lemma PrependAppend(ts: seq<Token>, us: seq<Token>, rest: Result<seq<Token>, LexError>)
    ensures Prepend(ts, Prepend(us, rest)) == Prepend(ts + us, rest)
  {
    if rest.Ok? {
      assert ts + (us + rest.value) == (ts + us) + rest.value;
    }
  }

  /** Every successful scan is well formed, and it yields at most one token per
      character scanned besides the closing end-of-input. */
  lemma {:induction false} LexWellFormed(s: string, i: nat)
    requires i <= |s| && LexFrom(s, i).Ok?
    ensures WellFormedTokens(LexFrom(s, i).value)
    ensures |LexFrom(s, i).value| - 1 <= |s| - i
    decreases |s| - i
  {
    if i < |s| {
      var c := s[i];
      if IsSpace(c) {
        LexWellFormed(s, i + 1);
      } else if c == '-' {
        LexWellFormed(s, i + 2);
        TokenPrefixWellFormed(Token(ImpliesOp, Some("->")), LexFrom(s, i + 2).value);
      } else if c == '<' {
        LexWellFormed(s, i + 3);
        TokenPrefixWellFormed(Token(BiconditionalOp, Some("<->")), LexFrom(s, i + 3).value);
      } else {
        LexWellFormed(s, i + 1);
        var t := LexFrom(s, i).value[0];
        TokenPrefixWellFormed(t, LexFrom(s, i + 1).value);
      }
    }
  }

  lemma TokenPrefixWellFormed(t: Token, ts: seq<Token>)
    requires WellFormedTokens(ts)
    requires t.kind != Eof && t.lexeme.Some?
    requires t.kind == Variable ==> |t.lexeme.value| == 1 && IsUpper(t.lexeme.value[0])
    ensures WellFormedTokens([t] + ts)
  {
    var us := [t] + ts;
    forall k | 0 <= k < |us| - 1
      ensures us[k].kind != Eof && us[k].lexeme.Some?
    {
      if k > 0 { assert us[k] == ts[k - 1]; }
    }
  }

  /** A run of whitespace produces nothing: scanning from its start is scanning from its end. */
  lemma {:induction false} SkipWhitespace(s: string, i: nat, j: nat)
    requires i <= j <= |s|
    requires forall k :: i <= k < j ==> IsSpace(s[k])
    ensures LexFrom(s, i) == LexFrom(s, j)
    decreases j - i
  {
    if i < j {
      SkipWhitespace(s, i + 1, j);
    }
  }

  /** Each of `(`, `)`, `!`, `&`, `|` is one token of its kind, with the character as text. */
  lemma LexPunctuation(s: string, i: nat)
    requires i < |s| && PunctuationKind(s[i]).Some?
    ensures LexFrom(s, i) == Prepend([Token(PunctuationKind(s[i]).value, Some([s[i]]))], LexFrom(s, i + 1))
  {
  }

  /** Each upper-case letter is its own one-letter variable token. */
  lemma LexVariable(s: string, i: nat)
    requires i < |s| && IsUpper(s[i])
    ensures LexFrom(s, i) == Prepend([Token(Variable, Some([s[i]]))], LexFrom(s, i + 1))
  {
  }

  /** `->` is one implication token of width two; a `-` without `>` after it is an error there. */
  lemma LexArrow(s: string, i: nat)
    requires i < |s| && s[i] == '-'
    ensures i + 1 < |s| && s[i + 1] == '>' ==>
      LexFrom(s, i) == Prepend([Token(ImpliesOp, Some("->"))], LexFrom(s, i + 2))
    ensures !(i + 1 < |s| && s[i + 1] == '>') ==>
      LexFrom(s, i) == Err(LexError(ExpectedImplies, '-', i))
  {
  }

  /** `<->` is one biconditional token of width three; anything else after `<` is an error there. */
  lemma LexDoubleArrow(s: string, i: nat)
    requires i < |s| && s[i] == '<'
    ensures i + 2 < |s| && s[i + 1] == '-' && s[i + 2] == '>' ==>
      LexFrom(s, i) == Prepend([Token(BiconditionalOp, Some("<->"))], LexFrom(s, i + 3))
    ensures !(i + 2 < |s| && s[i + 1] == '-' && s[i + 2] == '>') ==>
      LexFrom(s, i) == Err(LexError(ExpectedBiconditional, '<', i))
  {
  }

  /** Any character that starts no token and is not whitespace is an error at its position. */
  lemma LexUnexpected(s: string, i: nat)
    requires i < |s|
    requires !IsSpace(s[i]) && PunctuationKind(s[i]).None? && s[i] != '-' && s[i] != '<' && !IsUpper(s[i])
    ensures LexFrom(s, i) == Err(LexError(UnexpectedCharacter, s[i], i))
  {
  }

  /** Two adjacent letters are two variables: multi-letter names do not exist. */
  lemma LexTwoLetters()
    ensures LexAll("AB") == Ok([Token(Variable, Some("A")), Token(Variable, Some("B")), EofToken])
  {
    var s := "AB";
    assert s[0] == 'A' && s[1] == 'B';
    assert LexFrom(s, 2) == Ok([EofToken]);
    LexVariable(s, 1);
    assert [s[1]] == "B";
    assert [Token(Variable, Some("B"))] + [EofToken] == [Token(Variable, Some("B")), EofToken];
    assert LexFrom(s, 1) == Ok([Token(Variable, Some("B")), EofToken]);
    LexVariable(s, 0);
    assert [s[0]] == "A";
    assert [Token(Variable, Some("A"))] + [Token(Variable, Some("B")), EofToken]
        == [Token(Variable, Some("A")), Token(Variable, Some("B")), EofToken];
    assert LexFrom(s, 0) == Ok([Token(Variable, Some("A")), Token(Variable, Some("B")), EofToken]);
  }

  /** An implication arrow cut short at the end of the input is an error at the `-`. */
  lemma LexDanglingDash()
    ensures LexAll("A -") == Err(LexError(ExpectedImplies, '-', 2))
  {
  }
}
