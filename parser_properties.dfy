/** What the grammar promises: a fully parenthesised rendering of any tree parses
    back to that tree, the binary operators associate as designed, the levels nest
    by precedence, and malformed token lists are rejected. */
module ParserProperties {
  import opened Results
  import opened Lexing
  import opened Parsing

  const LParenToken: Token := Token(LParen, Some("("))
  const RParenToken: Token := Token(RParen, Some(")"))
  const NotToken: Token := Token(NotOp, Some("!"))
  const AndToken: Token := Token(AndOp, Some("&"))
  const OrToken: Token := Token(OrOp, Some("|"))
  const ImpliesToken: Token := Token(ImpliesOp, Some("->"))
  const BiconditionalToken: Token := Token(BiconditionalOp, Some("<->"))

  /** The tokens of a tree written with every binary node in parentheses; a
      negation needs none, since `!` binds tightest. */
  function Render(e: Expr): seq<Token> {
    match e
    case Var(c) => [Token(Variable, Some([c]))]
    case Not(x) => [NotToken] + Render(x)
    case And(l, r) => [LParenToken] + Render(l) + [AndToken] + Render(r) + [RParenToken]
    case Or(l, r) => [LParenToken] + Render(l) + [OrToken] + Render(r) + [RParenToken]
    case Implies(l, r) => [LParenToken] + Render(l) + [ImpliesToken] + Render(r) + [RParenToken]
    case Biconditional(l, r) => [LParenToken] + Render(l) + [BiconditionalToken] + Render(r) + [RParenToken]
  }

  /** The operator token of a binary node. */
  function OperatorToken(e: Expr): Token
    requires !e.Var? && !e.Not?
  {
    match e
    case And(_, _) => AndToken
    case Or(_, _) => OrToken
    case Implies(_, _) => ImpliesToken
    case Biconditional(_, _) => BiconditionalToken
  }

  /** A rendering starts with a variable, `!` or `(` and never holds end-of-input. */
  lemma {:induction false} RenderShape(e: Expr)
    ensures |Render(e)| >= 1
    ensures Render(e)[0].kind in {Variable, NotOp, LParen}
    ensures forall k :: 0 <= k < |Render(e)| ==> Render(e)[k].kind != Eof
    ensures NamedVariables(Render(e))
  {
    match e
    case Var(_) =>
    case Not(x) =>
      RenderShape(x);
      Append2(Render(e), [NotToken], Render(x));
    case And(l, r) => RenderBinaryShape(e);
    case Or(l, r) => RenderBinaryShape(e);
    case Implies(l, r) => RenderBinaryShape(e);
    case Biconditional(l, r) => RenderBinaryShape(e);
  }

  lemma {:induction false} RenderBinaryShape(e: Expr)
    requires !e.Var? && !e.Not?
    ensures Render(e) == [LParenToken] + Render(e.left) + [OperatorToken(e)] + Render(e.right) + [RParenToken]
    ensures forall k :: 0 <= k < |Render(e)| ==> Render(e)[k].kind != Eof
    ensures NamedVariables(Render(e))
    decreases e, 0
  {
    RenderShape(e.left);
    RenderShape(e.right);
    var a := [LParenToken] + Render(e.left);
    var b := a + [OperatorToken(e)];
    var c := b + Render(e.right);
    Append2(a, [LParenToken], Render(e.left));
    Append2(b, a, [OperatorToken(e)]);
    Append2(c, b, Render(e.right));
    Append2(Render(e), c, [RParenToken]);
  }

  /** Concatenation keeps both facts the parser relies on: no end-of-input inside,
      and every named variable has a one-character name. */
  lemma Append2(st: seq<Token>, a: seq<Token>, b: seq<Token>)
    requires st == a + b
    requires forall k :: 0 <= k < |a| ==> a[k].kind != Eof
    requires forall k :: 0 <= k < |b| ==> b[k].kind != Eof
    requires NamedVariables(a) && NamedVariables(b)
    ensures forall k :: 0 <= k < |st| ==> st[k].kind != Eof
    ensures NamedVariables(st)
  {
    NamedAppend(st, a, b);
    forall k | 0 <= k < |st|
      ensures st[k].kind != Eof
    {
      if k >= |a| { assert st[k] == b[k - |a|]; }
    }
  }

  lemma NamedAppend(st: seq<Token>, a: seq<Token>, b: seq<Token>)
    requires st == a + b
    requires NamedVariables(a) && NamedVariables(b)
    ensures NamedVariables(st)
  {
    forall k | 0 <= k < |st| && st[k].kind == Variable && st[k].lexeme.Some?
      ensures |st[k].lexeme.value| == 1
    {
      if k >= |a| { assert st[k] == b[k - |a|]; }
    }
  }

  /** `ts` holds the rendering of `e` starting at `pos`. */
  ghost predicate RenderedAt(ts: seq<Token>, pos: nat, e: Expr) {
    pos + |Render(e)| <= |ts| && ts[pos..pos + |Render(e)|] == Render(e)
  }

  // Climbing the precedence levels: a result at one level is the result of the
  // next looser level when the token after it is not that level's operator.

  lemma NotToAnd(ts: seq<Token>, pos: nat, e: Expr, next: nat)
    requires pos <= |ts| && NamedVariables(ts)
    requires NotAt(ts, pos) == Ok(Parsed(e, next)) && TokenAt(ts, next).kind != AndOp
    ensures AndAt(ts, pos) == Ok(Parsed(e, next))
  {
  }

  lemma AndToOr(ts: seq<Token>, pos: nat, e: Expr, next: nat)
    requires pos <= |ts| && NamedVariables(ts)
    requires AndAt(ts, pos) == Ok(Parsed(e, next)) && TokenAt(ts, next).kind != OrOp
    ensures OrAt(ts, pos) == Ok(Parsed(e, next))
  {
  }

  lemma OrToImplies(ts: seq<Token>, pos: nat, e: Expr, next: nat)
    requires pos <= |ts| && NamedVariables(ts)
    requires OrAt(ts, pos) == Ok(Parsed(e, next)) && TokenAt(ts, next).kind != ImpliesOp
    ensures ImpliesAt(ts, pos) == Ok(Parsed(e, next))
  {
  }

  lemma ImpliesToBiconditional(ts: seq<Token>, pos: nat, e: Expr, next: nat)
    requires pos <= |ts| && NamedVariables(ts)
    requires ImpliesAt(ts, pos) == Ok(Parsed(e, next)) && TokenAt(ts, next).kind != BiconditionalOp
    ensures BiconditionalAt(ts, pos) == Ok(Parsed(e, next))
  {
  }

  /** A token that is no binary operator ends a formula at every level. */
  predicate Stops(t: Token) {
    t.kind !in {AndOp, OrOp, ImpliesOp, BiconditionalOp}
  }

  lemma NotToBiconditional(ts: seq<Token>, pos: nat, e: Expr, next: nat)
    requires pos <= |ts| && NamedVariables(ts)
    requires NotAt(ts, pos) == Ok(Parsed(e, next)) && Stops(TokenAt(ts, next))
    ensures AndAt(ts, pos) == Ok(Parsed(e, next))
    ensures OrAt(ts, pos) == Ok(Parsed(e, next))
    ensures ImpliesAt(ts, pos) == Ok(Parsed(e, next))
    ensures BiconditionalAt(ts, pos) == Ok(Parsed(e, next))
  {
    NotToAnd(ts, pos, e, next);
    AndToOr(ts, pos, e, next);
    OrToImplies(ts, pos, e, next);
    ImpliesToBiconditional(ts, pos, e, next);
  }

  /** The rendering of a tree is read back, whole, at the negation level. */
  lemma {:induction false} ParseRendered(ts: seq<Token>, pos: nat, e: Expr, next: nat)
    requires NamedVariables(ts) && RenderedAt(ts, pos, e) && next == pos + |Render(e)|
    ensures NotAt(ts, pos) == Ok(Parsed(e, next))
    decreases e, 1
  {
    assert ts[pos] == Render(e)[0];
    match e
    case Var(c) =>
    case Not(x) =>
      assert Render(e)[1..] == Render(x);
      SliceOfSlice(ts, pos, pos + |Render(e)|, 1, |Render(e)|, pos + 1, pos + 1 + |Render(x)|);
      ParseRendered(ts, pos + 1, x, next);
    case _ =>
      ParseInsideParentheses(ts, pos, e, next);
  }

  /** Where the parts of a rendered binary node sit in the token list. */
  lemma BinaryLayout(ts: seq<Token>, pos: nat, e: Expr, p1: nat, p2: nat)
    requires RenderedAt(ts, pos, e) && !e.Var? && !e.Not?
    requires p1 == pos + 1 + |Render(e.left)| && p2 == p1 + 1 + |Render(e.right)|
    ensures p2 + 1 == pos + |Render(e)| && p2 < |ts|
    ensures ts[pos] == LParenToken && RenderedAt(ts, pos + 1, e.left)
    ensures ts[p1] == OperatorToken(e) && RenderedAt(ts, p1 + 1, e.right) && ts[p2] == RParenToken
  {
    RenderBinaryShape(e);
    Pieces(ts, pos, LParenToken, Render(e.left), OperatorToken(e), Render(e.right), RParenToken, p1, p2);
  }

  /** Where the pieces of `(`, operand, operator, operand, `)` sit in a list
      that holds them from `pos` on. */
  lemma Pieces(ts: seq<Token>, pos: nat, open: Token, l: seq<Token>, op: Token, r: seq<Token>, close: Token,
               p1: nat, p2: nat)
    requires pos + |l| + |r| + 3 <= |ts| && ts[pos..pos + |l| + |r| + 3] == [open] + l + [op] + r + [close]
    requires p1 == pos + 1 + |l| && p2 == p1 + 1 + |r|
    ensures p2 < |ts| && ts[pos] == open && ts[p1] == op && ts[p2] == close
    ensures ts[pos + 1..pos + 1 + |l|] == l && ts[p1 + 1..p1 + 1 + |r|] == r
  {
    var w := ts[pos..pos + |l| + |r| + 3];
    var front := [open] + l + [op];
    assert w == front + r + [close];
    assert w[..|front|] == front;
    assert front[1..] == l + [op];
    assert w[1..1 + |l|] == l;
    assert w[|front|..|front| + |r|] == r;
    SliceOfSlice(ts, pos, pos + |w|, 1, 1 + |l|, pos + 1, pos + 1 + |l|);
    SliceOfSlice(ts, pos, pos + |w|, 2 + |l|, 2 + |l| + |r|, p1 + 1, p1 + 1 + |r|);
    assert ts[pos] == w[0] && ts[p1] == w[1 + |l|] && ts[p2] == w[|w| - 1];
  }

  lemma SliceOfSlice(ts: seq<Token>, a: nat, b: nat, i: nat, j: nat, x: nat, y: nat)
    requires a <= b <= |ts| && i <= j <= b - a && x == a + i && y == a + j
    ensures ts[a..b][i..j] == ts[x..y]
  {
    var u := ts[a..b][i..j];
    var v := ts[x..y];
    assert |u| == |v|;
    forall k | 0 <= k < |u| ensures u[k] == v[k] {
      assert u[k] == ts[a..b][i + k] == ts[a + i + k];
    }
  }

  // One binary operator between two operands that each stand alone: the loosest
  // level reads the node when the token after it ends the formula.

  lemma AndNode(ts: seq<Token>, pos: nat, l: Expr, r: Expr, p1: nat, p2: nat)
    requires pos <= |ts| && NamedVariables(ts)
    requires NotAt(ts, pos) == Ok(Parsed(l, p1)) && TokenAt(ts, p1).kind == AndOp
    requires p1 + 1 <= |ts| && NotAt(ts, p1 + 1) == Ok(Parsed(r, p2)) && Stops(TokenAt(ts, p2))
    ensures BiconditionalAt(ts, pos) == Ok(Parsed(And(l, r), p2))
  {
    assert AndTail(ts, And(l, r), p2) == Ok(Parsed(And(l, r), p2));
    assert AndAt(ts, pos) == Ok(Parsed(And(l, r), p2));
    AndToOr(ts, pos, And(l, r), p2);
    OrToImplies(ts, pos, And(l, r), p2);
    ImpliesToBiconditional(ts, pos, And(l, r), p2);
  }

  lemma OrNode(ts: seq<Token>, pos: nat, l: Expr, r: Expr, p1: nat, p2: nat)
    requires pos <= |ts| && NamedVariables(ts)
    requires NotAt(ts, pos) == Ok(Parsed(l, p1)) && TokenAt(ts, p1).kind == OrOp
    requires p1 + 1 <= |ts| && NotAt(ts, p1 + 1) == Ok(Parsed(r, p2)) && Stops(TokenAt(ts, p2))
    ensures BiconditionalAt(ts, pos) == Ok(Parsed(Or(l, r), p2))
  {
    NotToAnd(ts, pos, l, p1);
    NotToAnd(ts, p1 + 1, r, p2);
    assert OrTail(ts, Or(l, r), p2) == Ok(Parsed(Or(l, r), p2));
    assert OrAt(ts, pos) == Ok(Parsed(Or(l, r), p2));
    OrToImplies(ts, pos, Or(l, r), p2);
    ImpliesToBiconditional(ts, pos, Or(l, r), p2);
  }

  lemma ImpliesNode(ts: seq<Token>, pos: nat, l: Expr, r: Expr, p1: nat, p2: nat)
    requires pos <= |ts| && NamedVariables(ts)
    requires NotAt(ts, pos) == Ok(Parsed(l, p1)) && TokenAt(ts, p1).kind == ImpliesOp
    requires p1 + 1 <= |ts| && NotAt(ts, p1 + 1) == Ok(Parsed(r, p2)) && Stops(TokenAt(ts, p2))
    ensures BiconditionalAt(ts, pos) == Ok(Parsed(Implies(l, r), p2))
  {
    NotToAnd(ts, pos, l, p1);
    AndToOr(ts, pos, l, p1);
    NotToBiconditional(ts, p1 + 1, r, p2);
    assert ImpliesAt(ts, pos) == Ok(Parsed(Implies(l, r), p2));
    ImpliesToBiconditional(ts, pos, Implies(l, r), p2);
  }

  lemma BiconditionalNode(ts: seq<Token>, pos: nat, l: Expr, r: Expr, p1: nat, p2: nat)
    requires pos <= |ts| && NamedVariables(ts)
    requires NotAt(ts, pos) == Ok(Parsed(l, p1)) && TokenAt(ts, p1).kind == BiconditionalOp
    requires p1 + 1 <= |ts| && NotAt(ts, p1 + 1) == Ok(Parsed(r, p2)) && Stops(TokenAt(ts, p2))
    ensures BiconditionalAt(ts, pos) == Ok(Parsed(Biconditional(l, r), p2))
  {
    NotToAnd(ts, pos, l, p1);
    AndToOr(ts, pos, l, p1);
    OrToImplies(ts, pos, l, p1);
    NotToBiconditional(ts, p1 + 1, r, p2);
    assert BiconditionalTail(ts, Biconditional(l, r), p2) == Ok(Parsed(Biconditional(l, r), p2));
  }

  /** Inside the parentheses of a rendered binary node, the loosest level reads
      exactly that node and stops at the closing parenthesis. */
  lemma {:induction false} ParseInsideParentheses(ts: seq<Token>, pos: nat, e: Expr, next: nat)
    requires NamedVariables(ts) && RenderedAt(ts, pos, e) && next == pos + |Render(e)|
    requires !e.Var? && !e.Not?
    ensures NotAt(ts, pos) == Ok(Parsed(e, next))
    decreases e, 0
  {
    var p1 := pos + 1 + |Render(e.left)|;
    var p2 := p1 + 1 + |Render(e.right)|;
    BinaryLayout(ts, pos, e, p1, p2);
    ParseRendered(ts, pos + 1, e.left, p1);
    ParseRendered(ts, p1 + 1, e.right, p2);
    Bracketed(ts, pos, e, p1, p2, next);
  }

  /** `(`, a binary node's operands with its operator between them, `)` is read
      at the negation level as that node. */
  lemma Bracketed(ts: seq<Token>, pos: nat, e: Expr, p1: nat, p2: nat, after: nat)
    requires !e.Var? && !e.Not? && pos < |ts| && NamedVariables(ts) && ts[pos] == LParenToken
    requires NotAt(ts, pos + 1) == Ok(Parsed(e.left, p1)) && p1 < |ts| && ts[p1] == OperatorToken(e)
    requires NotAt(ts, p1 + 1) == Ok(Parsed(e.right, p2)) && p2 < |ts| && ts[p2] == RParenToken
    requires after == p2 + 1
    ensures NotAt(ts, pos) == Ok(Parsed(e, after))
  {
    BinaryNode(ts, pos + 1, e, p1, p2);
    Parenthesised(ts, pos, e, p2, after);
  }

  /** A binary node's operands, each standing alone, with its operator between
      them and a closing parenthesis after them, are read as that node. */
  lemma BinaryNode(ts: seq<Token>, pos: nat, e: Expr, p1: nat, p2: nat)
    requires !e.Var? && !e.Not? && pos <= |ts| && NamedVariables(ts)
    requires NotAt(ts, pos) == Ok(Parsed(e.left, p1)) && p1 < |ts| && ts[p1] == OperatorToken(e)
    requires NotAt(ts, p1 + 1) == Ok(Parsed(e.right, p2)) && p2 < |ts| && ts[p2] == RParenToken
    ensures BiconditionalAt(ts, pos) == Ok(Parsed(e, p2))
  {
    assert TokenAt(ts, p1) == OperatorToken(e);
    assert Stops(TokenAt(ts, p2));
    match e {
      case And(l, r) => AndNode(ts, pos, l, r, p1, p2);
      case Or(l, r) => OrNode(ts, pos, l, r, p1, p2);
      case Implies(l, r) => ImpliesNode(ts, pos, l, r, p1, p2);
      case Biconditional(l, r) => BiconditionalNode(ts, pos, l, r, p1, p2);
    }
  }

  /** `(`, a formula, `)` is read at the negation level as that formula. */
  lemma Parenthesised(ts: seq<Token>, pos: nat, e: Expr, next: nat, after: nat)
    requires pos < |ts| && NamedVariables(ts)
    requires TokenAt(ts, pos).kind == LParen
    requires BiconditionalAt(ts, pos + 1) == Ok(Parsed(e, next)) && TokenAt(ts, next).kind == RParen
    requires after == next + 1
    ensures NotAt(ts, pos) == Ok(Parsed(e, after))
  {
  }

  /** Parsing the fully parenthesised rendering of any tree gives back that tree. */
  lemma RoundTrip(e: Expr)
    ensures NamedVariables(Render(e) + [EofToken])
    ensures ParseTokens(Render(e) + [EofToken]) == Ok(e)
  {
    var ts := Render(e) + [EofToken];
    RenderShape(e);
    NamedAppend(ts, Render(e), [EofToken]);
    ParseRendered(ts, 0, e, |Render(e)|);
    assert ts[|Render(e)|] == EofToken;
    NotToBiconditional(ts, 0, e, |Render(e)|);
  }

  // Formulas put together from rendered operands. The layout lemmas say where
  // each piece sits; the shape lemmas then work on any token list with that shape.

  lemma LayoutTwo(ts: seq<Token>, a: seq<Token>, op: Token, b: seq<Token>, p1: nat, p2: nat)
    requires ts == a + [op] + b + [EofToken]
    requires p1 == |a| && p2 == p1 + 1 + |b|
    ensures p2 + 1 == |ts| && ts[0..0 + |a|] == a && ts[p1] == op
    ensures ts[p1 + 1..p1 + 1 + |b|] == b && ts[p2] == EofToken
  {
    assert ts[0..0 + |a|] == a;
    assert ts[p1 + 1..p1 + 1 + |b|] == b;
  }

  lemma LayoutThree(ts: seq<Token>, a: seq<Token>, op1: Token, b: seq<Token>, op2: Token, c: seq<Token>,
                    p1: nat, p2: nat, p3: nat)
    requires ts == a + [op1] + b + [op2] + c + [EofToken]
    requires p1 == |a| && p2 == p1 + 1 + |b| && p3 == p2 + 1 + |c|
    ensures p3 + 1 == |ts| && ts[0..0 + |a|] == a && ts[p1] == op1
    ensures ts[p1 + 1..p1 + 1 + |b|] == b && ts[p2] == op2
    ensures ts[p2 + 1..p2 + 1 + |c|] == c && ts[p3] == EofToken
  {
    var front := a + [op1] + b;
    assert ts == front + [op2] + c + [EofToken];
    LayoutTwo(front + [EofToken], a, op1, b, p1, p2);
    assert ts[0..p2] == front;
    assert ts[0..0 + |a|] == front[0..0 + |a|];
    assert ts[p1 + 1..p1 + 1 + |b|] == front[p1 + 1..p1 + 1 + |b|];
    assert ts[p2 + 1..p2 + 1 + |c|] == c;
  }

  lemma NamedOperands(a: Expr, b: Expr, tail: seq<Token>, op: Token)
    requires NamedVariables(tail) && op.kind != Variable
    ensures NamedVariables(Render(a) + [op] + Render(b) + tail)
  {
    RenderShape(a);
    RenderShape(b);
    NamedAppend(Render(a) + [op], Render(a), [op]);
    NamedAppend(Render(a) + [op] + Render(b), Render(a), [op] + Render(b));
    NamedAppend(Render(a) + [op] + Render(b) + tail, Render(a) + [op] + Render(b), tail);
  }

  /** `ts` spells operand `a`, a token of kind `k` at `p1`, operand `b`, and
      end-of-input at `p2`. */
  ghost predicate LaidOutTwo(ts: seq<Token>, a: Expr, k: TokenType, b: Expr, p1: nat, p2: nat) {
    && NamedVariables(ts) && p1 == |Render(a)| && p2 == p1 + 1 + |Render(b)| && p2 + 1 == |ts|
    && RenderedAt(ts, 0, a) && ts[p1].kind == k
    && RenderedAt(ts, p1 + 1, b) && ts[p2] == EofToken
  }

  /** The same with three operands and two joining tokens. */
  ghost predicate LaidOutThree(ts: seq<Token>, a: Expr, k1: TokenType, b: Expr, k2: TokenType, c: Expr,
                               p1: nat, p2: nat, p3: nat)
  {
    && NamedVariables(ts) && p1 == |Render(a)| && p2 == p1 + 1 + |Render(b)|
    && p3 == p2 + 1 + |Render(c)| && p3 + 1 == |ts|
    && RenderedAt(ts, 0, a) && ts[p1].kind == k1
    && RenderedAt(ts, p1 + 1, b) && ts[p2].kind == k2
    && RenderedAt(ts, p2 + 1, c) && ts[p3] == EofToken
  }

  lemma NamedThree(ts: seq<Token>, a: Expr, op1: Token, b: Expr, op2: Token, c: Expr)
    requires op1.kind != Variable && op2.kind != Variable
    requires ts == Render(a) + [op1] + Render(b) + [op2] + Render(c) + [EofToken]
    ensures NamedVariables(ts)
  {
    var tail := [op2] + Render(c) + [EofToken];
    RenderShape(c);
    NamedAppend([op2] + Render(c), [op2], Render(c));
    NamedAppend(tail, [op2] + Render(c), [EofToken]);
    NamedOperands(a, b, tail, op1);
    assert Render(a) + [op1] + Render(b) + tail == ts;
  }

  lemma SpelledTwo(ts: seq<Token>, a: Expr, op: Token, b: Expr, p1: nat, p2: nat)
    requires op.kind != Variable
    requires ts == Render(a) + [op] + Render(b) + [EofToken]
    requires p1 == |Render(a)| && p2 == p1 + 1 + |Render(b)|
    ensures LaidOutTwo(ts, a, op.kind, b, p1, p2)
  {
    NamedOperands(a, b, [EofToken], op);
    LayoutTwo(ts, Render(a), op, Render(b), p1, p2);
  }

  lemma SpelledThree(ts: seq<Token>, a: Expr, op1: Token, b: Expr, op2: Token, c: Expr, p1: nat, p2: nat, p3: nat)
    requires op1.kind != Variable && op2.kind != Variable
    requires ts == Render(a) + [op1] + Render(b) + [op2] + Render(c) + [EofToken]
    requires p1 == |Render(a)| && p2 == p1 + 1 + |Render(b)| && p3 == p2 + 1 + |Render(c)|
    ensures LaidOutThree(ts, a, op1.kind, b, op2.kind, c, p1, p2, p3)
  {
    NamedThree(ts, a, op1, b, op2, c);
    LayoutThree(ts, Render(a), op1, Render(b), op2, Render(c), p1, p2, p3);
  }

  /** Each operand of a laid-out list stands alone at the negation level. */
  lemma TwoAtoms(ts: seq<Token>, a: Expr, k: TokenType, b: Expr, p1: nat, p2: nat)
    requires LaidOutTwo(ts, a, k, b, p1, p2)
    ensures NotAt(ts, 0) == Ok(Parsed(a, p1)) && TokenAt(ts, p1).kind == k
    ensures NotAt(ts, p1 + 1) == Ok(Parsed(b, p2)) && TokenAt(ts, p2).kind == Eof
  {
    Operand(ts, 0, a, p1, k);
    Operand(ts, p1 + 1, b, p2, Eof);
  }

  /** Three operands, each read alone at the negation level, with the given
      operator kinds after the first two and the end of input after the third. */
  ghost predicate ReadsThree(ts: seq<Token>, a: Expr, k1: TokenType, b: Expr, k2: TokenType, c: Expr,
                             p1: nat, p2: nat, p3: nat)
  {
    && NamedVariables(ts) && p1 < p2 < p3 && p3 + 1 == |ts|
    && NotAt(ts, 0) == Ok(Parsed(a, p1)) && TokenAt(ts, p1).kind == k1
    && NotAt(ts, p1 + 1) == Ok(Parsed(b, p2)) && TokenAt(ts, p2).kind == k2
    && NotAt(ts, p2 + 1) == Ok(Parsed(c, p3)) && TokenAt(ts, p3).kind == Eof
  }

  lemma ThreeAtoms(ts: seq<Token>, a: Expr, k1: TokenType, b: Expr, k2: TokenType, c: Expr,
                   p1: nat, p2: nat, p3: nat)
    requires LaidOutThree(ts, a, k1, b, k2, c, p1, p2, p3)
    ensures ReadsThree(ts, a, k1, b, k2, c, p1, p2, p3)
  {
    FirstOperand(ts, a, k1, b, k2, c, p1, p2, p3);
    SecondOperand(ts, a, k1, b, k2, c, p1, p2, p3);
    ThirdOperand(ts, a, k1, b, k2, c, p1, p2, p3);
  }

  lemma FirstOperand(ts: seq<Token>, a: Expr, k1: TokenType, b: Expr, k2: TokenType, c: Expr,
                     p1: nat, p2: nat, p3: nat)
    requires LaidOutThree(ts, a, k1, b, k2, c, p1, p2, p3)
    ensures NotAt(ts, 0) == Ok(Parsed(a, p1)) && TokenAt(ts, p1).kind == k1
  {
    Operand(ts, 0, a, p1, k1);
  }

  lemma SecondOperand(ts: seq<Token>, a: Expr, k1: TokenType, b: Expr, k2: TokenType, c: Expr,
                      p1: nat, p2: nat, p3: nat)
    requires LaidOutThree(ts, a, k1, b, k2, c, p1, p2, p3)
    ensures NotAt(ts, p1 + 1) == Ok(Parsed(b, p2)) && TokenAt(ts, p2).kind == k2
  {
    Operand(ts, p1 + 1, b, p2, k2);
  }

  lemma ThirdOperand(ts: seq<Token>, a: Expr, k1: TokenType, b: Expr, k2: TokenType, c: Expr,
                     p1: nat, p2: nat, p3: nat)
    requires LaidOutThree(ts, a, k1, b, k2, c, p1, p2, p3)
    ensures NotAt(ts, p2 + 1) == Ok(Parsed(c, p3)) && TokenAt(ts, p3).kind == Eof
  {
    Operand(ts, p2 + 1, c, p3, Eof);
  }

  /** A rendered operand is read alone at the negation level, up to the token after it. */
  lemma Operand(ts: seq<Token>, pos: nat, e: Expr, next: nat, k: TokenType)
    requires NamedVariables(ts) && RenderedAt(ts, pos, e) && next == pos + |Render(e)|
    requires next < |ts| && ts[next].kind == k
    ensures NotAt(ts, pos) == Ok(Parsed(e, next)) && TokenAt(ts, next).kind == k
  {
    ParseRendered(ts, pos, e, next);
  }

  lemma TwoOperandsShape(ts: seq<Token>, e: Expr, p1: nat, p2: nat)
    requires !e.Var? && !e.Not?
    requires LaidOutTwo(ts, e.left, OperatorToken(e).kind, e.right, p1, p2)
    ensures ParseTokens(ts) == Ok(e)
  {
    TwoAtoms(ts, e.left, OperatorToken(e).kind, e.right, p1, p2);
    match e {
      case And(l, r) => AndNode(ts, 0, l, r, p1, p2);
      case Or(l, r) => OrNode(ts, 0, l, r, p1, p2);
      case Implies(l, r) => ImpliesNode(ts, 0, l, r, p1, p2);
      case Biconditional(l, r) => BiconditionalNode(ts, 0, l, r, p1, p2);
    }
  }

  /** Two operands joined by one operator parse as that operator's node, so `!A & B`
      is a conjunction of a negation and `(A | B) & C` keeps its grouping. */
  lemma TwoOperands(e: Expr)
    requires !e.Var? && !e.Not?
    ensures var ts := Render(e.left) + [OperatorToken(e)] + Render(e.right) + [EofToken];
      NamedVariables(ts) && ParseTokens(ts) == Ok(e)
  {
    var ts := Render(e.left) + [OperatorToken(e)] + Render(e.right) + [EofToken];
    var p1 := |Render(e.left)|;
    var p2 := p1 + 1 + |Render(e.right)|;
    SpelledTwo(ts, e.left, OperatorToken(e), e.right, p1, p2);
    TwoOperandsShape(ts, e, p1, p2);
  }

  lemma AndChain(ts: seq<Token>, a: Expr, b: Expr, c: Expr, p1: nat, p2: nat, p3: nat)
    requires ReadsThree(ts, a, AndOp, b, AndOp, c, p1, p2, p3)
    ensures ParseTokens(ts) == Ok(And(And(a, b), c))
  {
    var e := And(And(a, b), c);
    assert AndTail(ts, e, p3) == Ok(Parsed(e, p3));
    assert AndTail(ts, And(a, b), p2) == Ok(Parsed(e, p3));
    assert AndAt(ts, 0) == Ok(Parsed(e, p3));
    AndToOr(ts, 0, e, p3);
    OrToImplies(ts, 0, e, p3);
    ImpliesToBiconditional(ts, 0, e, p3);
  }

  /** `&` folds to the left: `a & b & c` is `(a & b) & c`. */
  lemma AndLeftAssociative(a: Expr, b: Expr, c: Expr)
    ensures var ts := Render(a) + [AndToken] + Render(b) + [AndToken] + Render(c) + [EofToken];
      NamedVariables(ts) && ParseTokens(ts) == Ok(And(And(a, b), c))
  {
    var ts := Render(a) + [AndToken] + Render(b) + [AndToken] + Render(c) + [EofToken];
    var p1 := |Render(a)|;
    var p2 := p1 + 1 + |Render(b)|;
    var p3 := p2 + 1 + |Render(c)|;
    SpelledThree(ts, a, AndToken, b, AndToken, c, p1, p2, p3);
    ThreeAtoms(ts, a, AndOp, b, AndOp, c, p1, p2, p3);
    AndChain(ts, a, b, c, p1, p2, p3);
  }

  lemma OrChain(ts: seq<Token>, a: Expr, b: Expr, c: Expr, p1: nat, p2: nat, p3: nat)
    requires ReadsThree(ts, a, OrOp, b, OrOp, c, p1, p2, p3)
    ensures ParseTokens(ts) == Ok(Or(Or(a, b), c))
  {
    NotToAnd(ts, 0, a, p1);
    NotToAnd(ts, p1 + 1, b, p2);
    NotToAnd(ts, p2 + 1, c, p3);
    var e := Or(Or(a, b), c);
    assert OrTail(ts, e, p3) == Ok(Parsed(e, p3));
    assert OrTail(ts, Or(a, b), p2) == Ok(Parsed(e, p3));
    assert OrAt(ts, 0) == Ok(Parsed(e, p3));
    OrToImplies(ts, 0, e, p3);
    ImpliesToBiconditional(ts, 0, e, p3);
  }

  /** `|` folds to the left: `a | b | c` is `(a | b) | c`. */
  lemma OrLeftAssociative(a: Expr, b: Expr, c: Expr)
    ensures var ts := Render(a) + [OrToken] + Render(b) + [OrToken] + Render(c) + [EofToken];
      NamedVariables(ts) && ParseTokens(ts) == Ok(Or(Or(a, b), c))
  {
    var ts := Render(a) + [OrToken] + Render(b) + [OrToken] + Render(c) + [EofToken];
    var p1 := |Render(a)|;
    var p2 := p1 + 1 + |Render(b)|;
    var p3 := p2 + 1 + |Render(c)|;
    SpelledThree(ts, a, OrToken, b, OrToken, c, p1, p2, p3);
    ThreeAtoms(ts, a, OrOp, b, OrOp, c, p1, p2, p3);
    OrChain(ts, a, b, c, p1, p2, p3);
  }

  lemma BiconditionalChain(ts: seq<Token>, a: Expr, b: Expr, c: Expr, p1: nat, p2: nat, p3: nat)
    requires ReadsThree(ts, a, BiconditionalOp, b, BiconditionalOp, c, p1, p2, p3)
    ensures ParseTokens(ts) == Ok(Biconditional(Biconditional(a, b), c))
  {
    NotToAnd(ts, 0, a, p1);
    AndToOr(ts, 0, a, p1);
    OrToImplies(ts, 0, a, p1);
    NotToAnd(ts, p1 + 1, b, p2);
    AndToOr(ts, p1 + 1, b, p2);
    OrToImplies(ts, p1 + 1, b, p2);
    NotToBiconditional(ts, p2 + 1, c, p3);
    var e := Biconditional(Biconditional(a, b), c);
    assert BiconditionalTail(ts, e, p3) == Ok(Parsed(e, p3));
    assert BiconditionalTail(ts, Biconditional(a, b), p2) == Ok(Parsed(e, p3));
    assert BiconditionalAt(ts, 0) == Ok(Parsed(e, p3));
  }

  /** `<->` folds to the left: `a <-> b <-> c` is `(a <-> b) <-> c`. */
  lemma BiconditionalLeftAssociative(a: Expr, b: Expr, c: Expr)
    ensures var ts := Render(a) + [BiconditionalToken] + Render(b) + [BiconditionalToken] + Render(c) + [EofToken];
      NamedVariables(ts) && ParseTokens(ts) == Ok(Biconditional(Biconditional(a, b), c))
  {
    var ts := Render(a) + [BiconditionalToken] + Render(b) + [BiconditionalToken] + Render(c) + [EofToken];
    var p1 := |Render(a)|;
    var p2 := p1 + 1 + |Render(b)|;
    var p3 := p2 + 1 + |Render(c)|;
    SpelledThree(ts, a, BiconditionalToken, b, BiconditionalToken, c, p1, p2, p3);
    ThreeAtoms(ts, a, BiconditionalOp, b, BiconditionalOp, c, p1, p2, p3);
    BiconditionalChain(ts, a, b, c, p1, p2, p3);
  }

  lemma ImpliesChain(ts: seq<Token>, a: Expr, b: Expr, c: Expr, p1: nat, p2: nat, p3: nat)
    requires ReadsThree(ts, a, ImpliesOp, b, ImpliesOp, c, p1, p2, p3)
    ensures ParseTokens(ts) == Ok(Implies(a, Implies(b, c)))
  {
    NotToAnd(ts, 0, a, p1);
    AndToOr(ts, 0, a, p1);
    NotToAnd(ts, p1 + 1, b, p2);
    AndToOr(ts, p1 + 1, b, p2);
    NotToBiconditional(ts, p2 + 1, c, p3);
    ImpliesStep(ts, p1 + 1, b, c, p2, p3);
    var e := Implies(a, Implies(b, c));
    ImpliesStep(ts, 0, a, Implies(b, c), p1, p3);
    ImpliesToBiconditional(ts, 0, e, p3);
  }

  /** One `->` step: an operand, the arrow, then a whole implication to its right. */
  lemma ImpliesStep(ts: seq<Token>, pos: nat, l: Expr, r: Expr, mid: nat, next: nat)
    requires pos <= |ts| && NamedVariables(ts) && mid < |ts|
    requires OrAt(ts, pos) == Ok(Parsed(l, mid)) && TokenAt(ts, mid).kind == ImpliesOp
    requires ImpliesAt(ts, mid + 1) == Ok(Parsed(r, next))
    ensures ImpliesAt(ts, pos) == Ok(Parsed(Implies(l, r), next))
  {
  }

  /** `->` nests to the right: `a -> b -> c` is `a -> (b -> c)`. */
  lemma ImpliesRightAssociative(a: Expr, b: Expr, c: Expr)
    ensures var ts := Render(a) + [ImpliesToken] + Render(b) + [ImpliesToken] + Render(c) + [EofToken];
      NamedVariables(ts) && ParseTokens(ts) == Ok(Implies(a, Implies(b, c)))
  {
    var ts := Render(a) + [ImpliesToken] + Render(b) + [ImpliesToken] + Render(c) + [EofToken];
    var p1 := |Render(a)|;
    var p2 := p1 + 1 + |Render(b)|;
    var p3 := p2 + 1 + |Render(c)|;
    SpelledThree(ts, a, ImpliesToken, b, ImpliesToken, c, p1, p2, p3);
    ThreeAtoms(ts, a, ImpliesOp, b, ImpliesOp, c, p1, p2, p3);
    ImpliesChain(ts, a, b, c, p1, p2, p3);
  }

  lemma AndThenOrChain(ts: seq<Token>, a: Expr, b: Expr, c: Expr, p1: nat, p2: nat, p3: nat)
    requires ReadsThree(ts, a, AndOp, b, OrOp, c, p1, p2, p3)
    ensures ParseTokens(ts) == Ok(Or(And(a, b), c))
  {
    assert AndTail(ts, And(a, b), p2) == Ok(Parsed(And(a, b), p2));
    assert AndAt(ts, 0) == Ok(Parsed(And(a, b), p2));
    NotToAnd(ts, p2 + 1, c, p3);
    var e := Or(And(a, b), c);
    assert OrTail(ts, e, p3) == Ok(Parsed(e, p3));
    assert OrAt(ts, 0) == Ok(Parsed(e, p3));
    OrToImplies(ts, 0, e, p3);
    ImpliesToBiconditional(ts, 0, e, p3);
  }

  lemma OrThenAndChain(ts: seq<Token>, a: Expr, b: Expr, c: Expr, p1: nat, p2: nat, p3: nat)
    requires ReadsThree(ts, a, OrOp, b, AndOp, c, p1, p2, p3)
    ensures ParseTokens(ts) == Ok(Or(a, And(b, c)))
  {
    NotToAnd(ts, 0, a, p1);
    assert AndTail(ts, And(b, c), p3) == Ok(Parsed(And(b, c), p3));
    assert AndAt(ts, p1 + 1) == Ok(Parsed(And(b, c), p3));
    var e := Or(a, And(b, c));
    assert OrTail(ts, e, p3) == Ok(Parsed(e, p3));
    assert OrAt(ts, 0) == Ok(Parsed(e, p3));
    OrToImplies(ts, 0, e, p3);
    ImpliesToBiconditional(ts, 0, e, p3);
  }

  /** `&` binds tighter than `|`, on either side: `a & b | c` is `(a & b) | c`
      and `a | b & c` is `a | (b & c)`. */
  lemma AndBindsTighterThanOr(a: Expr, b: Expr, c: Expr)
    ensures var ts := Render(a) + [AndToken] + Render(b) + [OrToken] + Render(c) + [EofToken];
      NamedVariables(ts) && ParseTokens(ts) == Ok(Or(And(a, b), c))
    ensures var ts := Render(a) + [OrToken] + Render(b) + [AndToken] + Render(c) + [EofToken];
      NamedVariables(ts) && ParseTokens(ts) == Ok(Or(a, And(b, c)))
  {
    var p1 := |Render(a)|;
    var p2 := p1 + 1 + |Render(b)|;
    var p3 := p2 + 1 + |Render(c)|;
    var ts := Render(a) + [AndToken] + Render(b) + [OrToken] + Render(c) + [EofToken];
    SpelledThree(ts, a, AndToken, b, OrToken, c, p1, p2, p3);
    ThreeAtoms(ts, a, AndOp, b, OrOp, c, p1, p2, p3);
    AndThenOrChain(ts, a, b, c, p1, p2, p3);
    var us := Render(a) + [OrToken] + Render(b) + [AndToken] + Render(c) + [EofToken];
    SpelledThree(us, a, OrToken, b, AndToken, c, p1, p2, p3);
    ThreeAtoms(us, a, OrOp, b, AndOp, c, p1, p2, p3);
    OrThenAndChain(us, a, b, c, p1, p2, p3);
  }

  lemma OrThenImpliesChain(ts: seq<Token>, a: Expr, b: Expr, c: Expr, p1: nat, p2: nat, p3: nat)
    requires ReadsThree(ts, a, OrOp, b, ImpliesOp, c, p1, p2, p3)
    ensures ParseTokens(ts) == Ok(Implies(Or(a, b), c))
  {
    NotToAnd(ts, 0, a, p1);
    NotToAnd(ts, p1 + 1, b, p2);
    assert OrTail(ts, Or(a, b), p2) == Ok(Parsed(Or(a, b), p2));
    assert OrAt(ts, 0) == Ok(Parsed(Or(a, b), p2));
    NotToBiconditional(ts, p2 + 1, c, p3);
    var e := Implies(Or(a, b), c);
    ImpliesStep(ts, 0, Or(a, b), c, p2, p3);
    ImpliesToBiconditional(ts, 0, e, p3);
  }

  lemma ImpliesThenOrChain(ts: seq<Token>, a: Expr, b: Expr, c: Expr, p1: nat, p2: nat, p3: nat)
    requires ReadsThree(ts, a, ImpliesOp, b, OrOp, c, p1, p2, p3)
    ensures ParseTokens(ts) == Ok(Implies(a, Or(b, c)))
  {
    NotToAnd(ts, 0, a, p1);
    AndToOr(ts, 0, a, p1);
    NotToAnd(ts, p1 + 1, b, p2);
    NotToAnd(ts, p2 + 1, c, p3);
    assert OrTail(ts, Or(b, c), p3) == Ok(Parsed(Or(b, c), p3));
    assert OrAt(ts, p1 + 1) == Ok(Parsed(Or(b, c), p3));
    OrToImplies(ts, p1 + 1, Or(b, c), p3);
    var e := Implies(a, Or(b, c));
    ImpliesStep(ts, 0, a, Or(b, c), p1, p3);
    ImpliesToBiconditional(ts, 0, e, p3);
  }

  /** `|` binds tighter than `->`, on either side: `a | b -> c` is `(a | b) -> c`
      and `a -> b | c` is `a -> (b | c)`. */
  lemma OrBindsTighterThanImplies(a: Expr, b: Expr, c: Expr)
    ensures var ts := Render(a) + [OrToken] + Render(b) + [ImpliesToken] + Render(c) + [EofToken];
      NamedVariables(ts) && ParseTokens(ts) == Ok(Implies(Or(a, b), c))
    ensures var ts := Render(a) + [ImpliesToken] + Render(b) + [OrToken] + Render(c) + [EofToken];
      NamedVariables(ts) && ParseTokens(ts) == Ok(Implies(a, Or(b, c)))
  {
    var p1 := |Render(a)|;
    var p2 := p1 + 1 + |Render(b)|;
    var p3 := p2 + 1 + |Render(c)|;
    var ts := Render(a) + [OrToken] + Render(b) + [ImpliesToken] + Render(c) + [EofToken];
    SpelledThree(ts, a, OrToken, b, ImpliesToken, c, p1, p2, p3);
    ThreeAtoms(ts, a, OrOp, b, ImpliesOp, c, p1, p2, p3);
    OrThenImpliesChain(ts, a, b, c, p1, p2, p3);
    var us := Render(a) + [ImpliesToken] + Render(b) + [OrToken] + Render(c) + [EofToken];
    SpelledThree(us, a, ImpliesToken, b, OrToken, c, p1, p2, p3);
    ThreeAtoms(us, a, ImpliesOp, b, OrOp, c, p1, p2, p3);
    ImpliesThenOrChain(us, a, b, c, p1, p2, p3);
  }

  lemma ImpliesThenBiconditionalChain(ts: seq<Token>, a: Expr, b: Expr, c: Expr, p1: nat, p2: nat, p3: nat)
    requires ReadsThree(ts, a, ImpliesOp, b, BiconditionalOp, c, p1, p2, p3)
    ensures ParseTokens(ts) == Ok(Biconditional(Implies(a, b), c))
  {
    NotToAnd(ts, 0, a, p1);
    AndToOr(ts, 0, a, p1);
    NotToAnd(ts, p1 + 1, b, p2);
    AndToOr(ts, p1 + 1, b, p2);
    OrToImplies(ts, p1 + 1, b, p2);
    ImpliesStep(ts, 0, a, b, p1, p2);
    NotToBiconditional(ts, p2 + 1, c, p3);
    var e := Biconditional(Implies(a, b), c);
    assert BiconditionalTail(ts, e, p3) == Ok(Parsed(e, p3));
    assert BiconditionalTail(ts, Implies(a, b), p2) == Ok(Parsed(e, p3));
    assert BiconditionalAt(ts, 0) == Ok(Parsed(e, p3));
  }

  lemma BiconditionalThenImpliesChain(ts: seq<Token>, a: Expr, b: Expr, c: Expr, p1: nat, p2: nat, p3: nat)
    requires ReadsThree(ts, a, BiconditionalOp, b, ImpliesOp, c, p1, p2, p3)
    ensures ParseTokens(ts) == Ok(Biconditional(a, Implies(b, c)))
  {
    NotToAnd(ts, 0, a, p1);
    AndToOr(ts, 0, a, p1);
    OrToImplies(ts, 0, a, p1);
    NotToAnd(ts, p1 + 1, b, p2);
    AndToOr(ts, p1 + 1, b, p2);
    NotToBiconditional(ts, p2 + 1, c, p3);
    ImpliesStep(ts, p1 + 1, b, c, p2, p3);
    var e := Biconditional(a, Implies(b, c));
    assert BiconditionalTail(ts, e, p3) == Ok(Parsed(e, p3));
    assert BiconditionalTail(ts, a, p1) == Ok(Parsed(e, p3));
    assert BiconditionalAt(ts, 0) == Ok(Parsed(e, p3));
  }

  /** `->` binds tighter than `<->`, on either side: `a -> b <-> c` is
      `(a -> b) <-> c` and `a <-> b -> c` is `a <-> (b -> c)`. */
  lemma ImpliesBindsTighterThanBiconditional(a: Expr, b: Expr, c: Expr)
    ensures var ts := Render(a) + [ImpliesToken] + Render(b) + [BiconditionalToken] + Render(c) + [EofToken];
      NamedVariables(ts) && ParseTokens(ts) == Ok(Biconditional(Implies(a, b), c))
    ensures var ts := Render(a) + [BiconditionalToken] + Render(b) + [ImpliesToken] + Render(c) + [EofToken];
      NamedVariables(ts) && ParseTokens(ts) == Ok(Biconditional(a, Implies(b, c)))
  {
    var p1 := |Render(a)|;
    var p2 := p1 + 1 + |Render(b)|;
    var p3 := p2 + 1 + |Render(c)|;
    var ts := Render(a) + [ImpliesToken] + Render(b) + [BiconditionalToken] + Render(c) + [EofToken];
    SpelledThree(ts, a, ImpliesToken, b, BiconditionalToken, c, p1, p2, p3);
    ThreeAtoms(ts, a, ImpliesOp, b, BiconditionalOp, c, p1, p2, p3);
    ImpliesThenBiconditionalChain(ts, a, b, c, p1, p2, p3);
    var us := Render(a) + [BiconditionalToken] + Render(b) + [ImpliesToken] + Render(c) + [EofToken];
    SpelledThree(us, a, BiconditionalToken, b, ImpliesToken, c, p1, p2, p3);
    ThreeAtoms(us, a, BiconditionalOp, b, ImpliesOp, c, p1, p2, p3);
    BiconditionalThenImpliesChain(us, a, b, c, p1, p2, p3);
  }

  // Rejected token lists.

  /** An error at the conjunction level is the error of the whole formula. */
  lemma FailsUpward(ts: seq<Token>, pos: nat, err: ParseError)
    requires pos <= |ts| && NamedVariables(ts) && AndAt(ts, pos) == Err(err)
    ensures ParseFrom(ts, pos) == Err(err)
  {
    assert OrAt(ts, pos) == Err(err);
    assert ImpliesAt(ts, pos) == Err(err);
    assert BiconditionalAt(ts, pos) == Err(err);
  }

  /** An operator with nothing after it, as in `A &`, fails where an operand was due. */
  lemma DanglingOperator(a: Expr)
    ensures var ts := Render(a) + [AndToken, EofToken];
      NamedVariables(ts) && ParseTokens(ts) == Err(ExpectedPrimary(Eof))
  {
    var ts := Render(a) + [AndToken, EofToken];
    RenderShape(a);
    NamedAppend(ts, Render(a), [AndToken, EofToken]);
    assert ts[0..0 + |Render(a)|] == Render(a);
    ParseRendered(ts, 0, a, |Render(a)|);
    DanglingShape(ts, a, |Render(a)|);
  }

  lemma DanglingShape(ts: seq<Token>, a: Expr, p1: nat)
    requires NamedVariables(ts) && p1 + 2 == |ts|
    requires NotAt(ts, 0) == Ok(Parsed(a, p1)) && ts[p1] == AndToken && ts[p1 + 1] == EofToken
    ensures ParseTokens(ts) == Err(ExpectedPrimary(Eof))
  {
    assert TokenAt(ts, p1 + 1) == EofToken;
    assert PrimaryAt(ts, p1 + 1) == Err(ExpectedPrimary(Eof));
    assert NotAt(ts, p1 + 1) == Err(ExpectedPrimary(Eof));
    assert AndTail(ts, a, p1) == Err(ExpectedPrimary(Eof));
    assert AndAt(ts, 0) == Err(ExpectedPrimary(Eof));
    FailsUpward(ts, 0, ExpectedPrimary(Eof));
  }

  /** Two formulas side by side, as in `A B`, leave tokens after the first. */
  lemma TrailingFormula(a: Expr, b: Expr)
    ensures var ts := Render(a) + Render(b) + [EofToken];
      NamedVariables(ts) && ParseTokens(ts) == Err(TokensRemaining)
  {
    var ts := Render(a) + Render(b) + [EofToken];
    RenderShape(a);
    RenderShape(b);
    NamedAppend(Render(a) + Render(b), Render(a), Render(b));
    NamedAppend(ts, Render(a) + Render(b), [EofToken]);
    assert ts[0..0 + |Render(a)|] == Render(a);
    ParseRendered(ts, 0, a, |Render(a)|);
    assert ts[|Render(a)|] == Render(b)[0];
    TrailingShape(ts, a, |Render(a)|);
  }

  lemma TrailingShape(ts: seq<Token>, a: Expr, p1: nat)
    requires NamedVariables(ts) && p1 < |ts|
    requires NotAt(ts, 0) == Ok(Parsed(a, p1)) && ts[p1].kind in {Variable, NotOp, LParen}
    ensures ParseTokens(ts) == Err(TokensRemaining)
  {
    NotToBiconditional(ts, 0, a, p1);
  }

  /** A `(` left open fails where the `)` was due. */
  lemma UnclosedParenthesis(a: Expr)
    ensures var ts := [LParenToken] + Render(a) + [EofToken];
      NamedVariables(ts) && ParseTokens(ts) == Err(UnexpectedToken(RParen, Eof))
  {
    var ts := [LParenToken] + Render(a) + [EofToken];
    RenderShape(a);
    NamedAppend([LParenToken] + Render(a), [LParenToken], Render(a));
    NamedAppend(ts, [LParenToken] + Render(a), [EofToken]);
    var p1 := 1 + |Render(a)|;
    assert ts[1..1 + |Render(a)|] == Render(a);
    ParseRendered(ts, 1, a, p1);
    UnclosedShape(ts, a, p1);
  }

  lemma UnclosedShape(ts: seq<Token>, a: Expr, p1: nat)
    requires NamedVariables(ts) && 0 < p1 < |ts|
    requires ts[0] == LParenToken && NotAt(ts, 1) == Ok(Parsed(a, p1)) && ts[p1] == EofToken
    ensures ParseTokens(ts) == Err(UnexpectedToken(RParen, Eof))
  {
    NotToBiconditional(ts, 1, a, p1);
    assert TokenAt(ts, p1) == EofToken;
    assert PrimaryAt(ts, 0) == Err(UnexpectedToken(RParen, Eof));
    assert NotAt(ts, 0) == Err(UnexpectedToken(RParen, Eof));
    assert AndAt(ts, 0) == Err(UnexpectedToken(RParen, Eof));
    FailsUpward(ts, 0, UnexpectedToken(RParen, Eof));
  }

  /** An empty formula fails at its first token. */
  lemma EmptyFormula()
    ensures NamedVariables([EofToken]) && ParseTokens([EofToken]) == Err(ExpectedPrimary(Eof))
  {
    var ts := [EofToken];
    assert TokenAt(ts, 0) == EofToken;
    assert PrimaryAt(ts, 0) == Err(ExpectedPrimary(Eof));
    assert NotAt(ts, 0) == Err(ExpectedPrimary(Eof));
    assert AndAt(ts, 0) == Err(ExpectedPrimary(Eof));
    FailsUpward(ts, 0, ExpectedPrimary(Eof));
  }
}
