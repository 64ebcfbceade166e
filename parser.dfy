/** Recursive-descent parsing of token lists into expression trees (parser.py).
    Precedence from loosest to tightest: `<->`, `->`, `|`, `&`, `!`; `->` nests to
    the right, `<->`, `|` and `&` fold to the left, and a parenthesised formula
    starts again at the loosest level. */
module Parsing {
  import opened Results
  import opened Lexing

  datatype Expr =
    | Var(name: char)
    | Not(operand: Expr)
    | And(left: Expr, right: Expr)
    | Or(left: Expr, right: Expr)
    | Implies(left: Expr, right: Expr)
    | Biconditional(left: Expr, right: Expr)

  datatype ParseError =
    | UnexpectedToken(expected: TokenType, found: TokenType)  // a required token is not there
    | MissingVariableName                                     // a variable token without text
    | ExpectedPrimary(found: TokenType)                       // neither a variable nor `(`
    | TokensRemaining                                         // tokens after a whole formula

  /** A parsed sub-formula and the position of the first token after it. */
  datatype Parsed = Parsed(expr: Expr, next: nat)

  datatype Outcome = Pass | Fail(error: ParseError)

  /** The token at `pos`, or end-of-input past the end of the list. */
  function TokenAt(ts: seq<Token>, pos: nat): Token {
    if pos < |ts| then ts[pos] else EofToken
  }

  /** A variable token that carries text carries one character: the lexer's tokens do. */
  ghost predicate NamedVariables(ts: seq<Token>) {
    forall k :: 0 <= k < |ts| && ts[k].kind == Variable && ts[k].lexeme.Some? ==>
      |ts[k].lexeme.value| == 1
  }

  /** A successful parse from `pos` consumed at least one token, the last of which
      was not end-of-input. */
  ghost predicate Progress(ts: seq<Token>, pos: nat, r: Result<Parsed, ParseError>) {
    r.Ok? ==> pos < r.value.next <= |ts| && ts[r.value.next - 1].kind != Eof
  }

  /** The loop that continues a left fold consumes nothing or a run ending in a
      non-end-of-input token. */
  ghost predicate TailProgress(ts: seq<Token>, pos: nat, r: Result<Parsed, ParseError>) {
    r.Ok? ==> pos <= r.value.next <= |ts| && (r.value.next == pos || ts[r.value.next - 1].kind != Eof)
  }

  // The reference parser: one function per grammar level, each taking the token
  // list and a position and giving the tree and the position after it.

  function PrimaryAt(ts: seq<Token>, pos: nat): (r: Result<Parsed, ParseError>)
    requires pos <= |ts| && NamedVariables(ts)
    ensures Progress(ts, pos, r)
    decreases |ts| - pos, 0
  {
    var t := TokenAt(ts, pos);
    if t.kind == Variable then
      if t.lexeme.None? then Err(MissingVariableName)
      else Ok(Parsed(Var(t.lexeme.value[0]), pos + 1))
    else if t.kind == LParen then
      match BiconditionalAt(ts, pos + 1)
      case Err(e) => Err(e)
      case Ok(p) =>
        if TokenAt(ts, p.next).kind == RParen then Ok(Parsed(p.expr, p.next + 1))
        else Err(UnexpectedToken(RParen, TokenAt(ts, p.next).kind))
    else Err(ExpectedPrimary(t.kind))
  }

  function NotAt(ts: seq<Token>, pos: nat): (r: Result<Parsed, ParseError>)
    requires pos <= |ts| && NamedVariables(ts)
    ensures Progress(ts, pos, r)
    decreases |ts| - pos, 1
  {
    if TokenAt(ts, pos).kind == NotOp then
      match NotAt(ts, pos + 1)
      case Err(e) => Err(e)
      case Ok(p) => Ok(Parsed(Not(p.expr), p.next))
    else PrimaryAt(ts, pos)
  }

  function AndAt(ts: seq<Token>, pos: nat): (r: Result<Parsed, ParseError>)
    requires pos <= |ts| && NamedVariables(ts)
    ensures Progress(ts, pos, r)
    decreases |ts| - pos, 2
  {
    match NotAt(ts, pos)
    case Err(e) => Err(e)
    case Ok(p) => AndTail(ts, p.expr, p.next)
  }

  /** The `&` loop: while an `&` follows, fold the next operand into `left`. */
  function AndTail(ts: seq<Token>, left: Expr, pos: nat): (r: Result<Parsed, ParseError>)
    requires pos <= |ts| && NamedVariables(ts)
    ensures TailProgress(ts, pos, r)
    decreases |ts| - pos, 2
  {
    if TokenAt(ts, pos).kind == AndOp then
      match NotAt(ts, pos + 1)
      case Err(e) => Err(e)
      case Ok(p) => AndTail(ts, And(left, p.expr), p.next)
    else Ok(Parsed(left, pos))
  }

  function OrAt(ts: seq<Token>, pos: nat): (r: Result<Parsed, ParseError>)
    requires pos <= |ts| && NamedVariables(ts)
    ensures Progress(ts, pos, r)
    decreases |ts| - pos, 3
  {
    match AndAt(ts, pos)
    case Err(e) => Err(e)
    case Ok(p) => OrTail(ts, p.expr, p.next)
  }

  /** The `|` loop: while an `|` follows, fold the next operand into `left`. */
  function OrTail(ts: seq<Token>, left: Expr, pos: nat): (r: Result<Parsed, ParseError>)
    requires pos <= |ts| && NamedVariables(ts)
    ensures TailProgress(ts, pos, r)
    decreases |ts| - pos, 3
  {
    if TokenAt(ts, pos).kind == OrOp then
      match AndAt(ts, pos + 1)
      case Err(e) => Err(e)
      case Ok(p) => OrTail(ts, Or(left, p.expr), p.next)
    else Ok(Parsed(left, pos))
  }

  function ImpliesAt(ts: seq<Token>, pos: nat): (r: Result<Parsed, ParseError>)
    requires pos <= |ts| && NamedVariables(ts)
    ensures Progress(ts, pos, r)
    decreases |ts| - pos, 4
  {
    match OrAt(ts, pos)
    case Err(e) => Err(e)
    case Ok(p) =>
      if TokenAt(ts, p.next).kind == ImpliesOp then
        match ImpliesAt(ts, p.next + 1)
        case Err(e) => Err(e)
        case Ok(q) => Ok(Parsed(Implies(p.expr, q.expr), q.next))
      else Ok(p)
  }

  function BiconditionalAt(ts: seq<Token>, pos: nat): (r: Result<Parsed, ParseError>)
    requires pos <= |ts| && NamedVariables(ts)
    ensures Progress(ts, pos, r)
    decreases |ts| - pos, 5
  {
    match ImpliesAt(ts, pos)
    case Err(e) => Err(e)
    case Ok(p) => BiconditionalTail(ts, p.expr, p.next)
  }

  /** The `<->` loop: while a `<->` follows, fold the next operand into `left`. */
  function BiconditionalTail(ts: seq<Token>, left: Expr, pos: nat): (r: Result<Parsed, ParseError>)
    requires pos <= |ts| && NamedVariables(ts)
    ensures TailProgress(ts, pos, r)
    decreases |ts| - pos, 5
  {
    if TokenAt(ts, pos).kind == BiconditionalOp then
      match ImpliesAt(ts, pos + 1)
      case Err(e) => Err(e)
      case Ok(p) => BiconditionalTail(ts, Biconditional(left, p.expr), p.next)
    else Ok(Parsed(left, pos))
  }

  /** A whole formula from `pos`: it must be followed by end-of-input. */
  function ParseFrom(ts: seq<Token>, pos: nat): Result<Expr, ParseError>
    requires pos <= |ts| && NamedVariables(ts)
  {
    match BiconditionalAt(ts, pos)
    case Err(e) => Err(e)
    case Ok(p) => if TokenAt(ts, p.next).kind != Eof then Err(TokensRemaining) else Ok(p.expr)
  }

  function ParseTokens(ts: seq<Token>): Result<Expr, ParseError>
    requires NamedVariables(ts)
  {
    ParseFrom(ts, 0)
  }

  /** The parser never consumes end-of-input, so on a list closed by end-of-input
      every level stops inside the list. */
  lemma StaysInBounds(ts: seq<Token>, pos: nat)
    requires NamedVariables(ts) && pos < |ts| && ts[|ts| - 1].kind == Eof
    ensures BiconditionalAt(ts, pos).Ok? ==> BiconditionalAt(ts, pos).value.next < |ts|
  {
  }

  /** A successful scan is a fit input for the parser: its variable tokens carry
      one letter each and it ends with end-of-input. */
  lemma LexedTokens(s: string)
    requires LexAll(s).Ok?
    ensures NamedVariables(LexAll(s).value)
    ensures |LexAll(s).value| >= 1 && LexAll(s).value[|LexAll(s).value| - 1].kind == Eof
  {
    LexWellFormed(s, 0);
  }

  /** What a parsing method returned and where it left the cursor, against the reference. */
  ghost predicate Agrees(r: Result<Expr, ParseError>, spec: Result<Parsed, ParseError>, position: nat) {
    match spec
    case Ok(p) => r == Ok(p.expr) && position == p.next
    case Err(e) => r == Err(e)
  }

  class Parser {
    const tokens: seq<Token>
    var position: nat

    ghost predicate Valid()
      reads this
    {
      position <= |tokens| && NamedVariables(tokens)
    }

    constructor (tokens: seq<Token>)
      requires NamedVariables(tokens)
      ensures this.tokens == tokens && position == 0 && Valid()
    {
      this.tokens := tokens;
      position := 0;
    }

    /** Steps over the next token if it has the expected kind; otherwise fails and
        leaves the cursor where it was. */
    method Consume(expected: TokenType) returns (o: Outcome)
      requires Valid() && expected != Eof
      modifies this
      ensures Valid()
      ensures TokenAt(tokens, old(position)).kind == expected ==> o == Pass && position == old(position) + 1
      ensures TokenAt(tokens, old(position)).kind != expected ==>
        o == Fail(UnexpectedToken(expected, TokenAt(tokens, old(position)).kind)) && position == old(position)
    {
      if Peek().kind == expected {
        position := position + 1;
        o := Pass;
      } else {
        o := Fail(UnexpectedToken(expected, Peek().kind));
      }
    }

    /** The token under the cursor; past the end of the list, end-of-input. */
    function Peek(): (t: Token)
      reads this
      ensures position < |tokens| ==> t == tokens[position]
      ensures position >= |tokens| ==> t == Token(Eof, None)
    {
      TokenAt(tokens, position)
    }

    method ParsePrimary() returns (r: Result<Expr, ParseError>)
      requires Valid()
      modifies this
      ensures Valid()
      ensures Agrees(r, PrimaryAt(tokens, old(position)), position)
      decreases |tokens| - position, 0
    {
      var token := Peek();
      if token.kind == Variable {
        var _ := Consume(Variable);
        if token.lexeme.None? {
          return Err(MissingVariableName);
        }
        return Ok(Var(token.lexeme.value[0]));
      } else if token.kind == LParen {
        var _ := Consume(LParen);
        var expr := ParseBiconditional();
        if expr.Err? {
          return expr;
        }
        var closed := Consume(RParen);
        if closed.Fail? {
          return Err(closed.error);
        }
        return expr;
      } else {
        return Err(ExpectedPrimary(token.kind));
      }
    }

    method ParseNot() returns (r: Result<Expr, ParseError>)
      requires Valid()
      modifies this
      ensures Valid()
      ensures Agrees(r, NotAt(tokens, old(position)), position)
      decreases |tokens| - position, 1
    {
      if Peek().kind == NotOp {
        var _ := Consume(NotOp);
        var operand := ParseNot();
        if operand.Err? {
          return operand;
        }
        return Ok(Not(operand.value));
      }
      r := ParsePrimary();
    }

    method ParseAnd() returns (r: Result<Expr, ParseError>)
      requires Valid()
      modifies this
      ensures Valid()
      ensures Agrees(r, AndAt(tokens, old(position)), position)
      decreases |tokens| - position, 2
    {
      r := ParseNot();
      if r.Err? {
        return;
      }
      while Peek().kind == AndOp
        invariant Valid() && old(position) < position
        invariant r.Ok? && AndAt(tokens, old(position)) == AndTail(tokens, r.value, position)
        decreases |tokens| - position
      {
        var _ := Consume(AndOp);
        var right := ParseNot();
        if right.Err? {
          return right;
        }
        r := Ok(And(r.value, right.value));
      }
    }

    method ParseOr() returns (r: Result<Expr, ParseError>)
      requires Valid()
      modifies this
      ensures Valid()
      ensures Agrees(r, OrAt(tokens, old(position)), position)
      decreases |tokens| - position, 3
    {
      r := ParseAnd();
      if r.Err? {
        return;
      }
      while Peek().kind == OrOp
        invariant Valid() && old(position) < position
        invariant r.Ok? && OrAt(tokens, old(position)) == OrTail(tokens, r.value, position)
        decreases |tokens| - position
      {
        var _ := Consume(OrOp);
        var right := ParseAnd();
        if right.Err? {
          return right;
        }
        r := Ok(Or(r.value, right.value));
      }
    }

    method ParseImplies() returns (r: Result<Expr, ParseError>)
      requires Valid()
      modifies this
      ensures Valid()
      ensures Agrees(r, ImpliesAt(tokens, old(position)), position)
      decreases |tokens| - position, 4
    {
      r := ParseOr();
      if r.Err? {
        return;
      }
      if Peek().kind == ImpliesOp {
        var _ := Consume(ImpliesOp);
        var right := ParseImplies();
        if right.Err? {
          return right;
        }
        r := Ok(Implies(r.value, right.value));
      }
    }

    method ParseBiconditional() returns (r: Result<Expr, ParseError>)
      requires Valid()
      modifies this
      ensures Valid()
      ensures Agrees(r, BiconditionalAt(tokens, old(position)), position)
      decreases |tokens| - position, 5
    {
      r := ParseImplies();
      if r.Err? {
        return;
      }
      while Peek().kind == BiconditionalOp
        invariant Valid() && old(position) < position
        invariant r.Ok? && BiconditionalAt(tokens, old(position)) == BiconditionalTail(tokens, r.value, position)
        decreases |tokens| - position
      {
        var _ := Consume(BiconditionalOp);
        var right := ParseImplies();
        if right.Err? {
          return right;
        }
        r := Ok(Biconditional(r.value, right.value));
      }
    }

    /** Parses one whole formula from the cursor; anything but end-of-input after it
        is an error. */
    method Parse() returns (r: Result<Expr, ParseError>)
      requires Valid()
      modifies this
      ensures Valid()
      ensures r == ParseFrom(tokens, old(position))
    {
      r := ParseBiconditional();
      if r.Err? {
        return;
      }
      if Peek().kind != Eof {
        return Err(TokensRemaining);
      }
    }
  }
}
