/** What the expression grammar of parser.c promises, proved about the
    grammar functions of `Parser`: how far each level reads, where an
    operator binds, and that a fully parenthesised rendering of a tree
    parses back to that tree. Every statement is about any token list that
    holds the given tokens, whatever follows them. */
module ParserProps {
  import opened Common
  import opened Ast
  import opened Lexer
  import opened Parser

  // ---------------------------------------------------------------------
  // Token lists holding a given rendering

  /** A token of kind `k` with payload `p`; the parser never looks at the
      source positions. */
  function Tok(k: int, p: nat): Token {
    Token(k, 0, 0, p)
  }

  /** Two tokens the parser cannot tell apart. */
  predicate Same(a: Token, b: Token) {
    a.kind == b.kind && a.payload == b.payload
  }

  /** `ts` holds the tokens `u`, up to positions, from index `i` on. */
  predicate Matches(ts: seq<Token>, i: nat, u: seq<Token>) {
    i + |u| <= |ts| && forall k :: 0 <= k < |u| ==> Same(ts[i + k], u[k])
  }

  /** A slice of a matched rendering is matched at its offset. */
  lemma MatchesSlice(ts: seq<Token>, i: nat, u: seq<Token>, a: nat, b: nat)
    requires Matches(ts, i, u) && a <= b <= |u|
    ensures Matches(ts, i + a, u[a..b])
  {
    forall k | 0 <= k < b - a
      ensures Same(ts[i + a + k], u[a..b][k])
    {
      assert Same(ts[i + (a + k)], u[a + k]);
    }
  }

  /** The trees the parser can build: literals, names it has not yet
      resolved, negations, and binary operators the table yields. */
  predicate Printable(e: Expr) {
    match e
    case Literal(_) => true
    case Name(_, declPos) => declPos == -1
    case Unary(op, x) => op == NEG && Printable(x)
    case Binary(op, l, r) => IsParsedOp(op) && Printable(l) && Printable(r)
    case _ => false
  }

  /** The fully parenthesised rendering of a tree as tokens. */
  function Unparse(e: Expr): (u: seq<Token>)
    requires Printable(e)
    ensures |u| >= 1 && forall k :: 0 <= k < |u| ==> u[k].kind != END_TOKEN
  {
    match e
    case Literal(v) => [Tok(TOKEN_LITERAL, v)]
    case Name(name, _) => [Tok(TOKEN_NAME, name)]
    case Unary(_, x) => [Tok('-' as int, 0)] + Unparse(x)
    case Binary(op, l, r) =>
      [Tok('(' as int, 0)] + Unparse(l) + [Tok(OpToken(op), 0)] + Unparse(r) + [Tok(')' as int, 0)]
  }

  /** Where the parts of the rendering of `Binary(op, l, r)` lie in a
      list that holds it. */
  lemma MatchesBinary(ts: seq<Token>, i: nat, op: Operator, l: Expr, r: Expr)
    requires Printable(Binary(op, l, r)) && Matches(ts, i, Unparse(Binary(op, l, r)))
    ensures var nl, nr := |Unparse(l)|, |Unparse(r)|;
      |Unparse(Binary(op, l, r))| == nl + nr + 3 &&
      ts[i].kind == '(' as int && Matches(ts, i + 1, Unparse(l)) &&
      ts[i + 1 + nl].kind == OpToken(op) && Matches(ts, i + 2 + nl, Unparse(r)) &&
      ts[i + 2 + nl + nr].kind == ')' as int
  {
    var u, ul, ur := Unparse(Binary(op, l, r)), Unparse(l), Unparse(r);
    var nl, nr := |ul|, |ur|;
    assert u == [Tok('(' as int, 0)] + ul + [Tok(OpToken(op), 0)] + ur + [Tok(')' as int, 0)];
    assert Same(ts[i + 0], u[0]);
    assert Same(ts[i + (1 + nl)], u[1 + nl]);
    assert Same(ts[i + (2 + nl + nr)], u[2 + nl + nr]);
    forall k | 0 <= k < nl
      ensures Same(ts[i + 1 + k], ul[k])
    {
      assert Same(ts[i + (1 + k)], u[1 + k]);
    }
    forall k | 0 <= k < nr
      ensures Same(ts[i + 2 + nl + k], ur[k])
    {
      assert Same(ts[i + (2 + nl + k)], u[2 + nl + k]);
    }
  }

  /** ... and of `Unary(NEG, x)`. */
  lemma MatchesUnary(ts: seq<Token>, i: nat, x: Expr)
    requires Printable(Unary(NEG, x)) && Matches(ts, i, Unparse(Unary(NEG, x)))
    ensures |Unparse(Unary(NEG, x))| == |Unparse(x)| + 1 &&
      ts[i].kind == '-' as int && Matches(ts, i + 1, Unparse(x))
  {
    var u, ux := Unparse(Unary(NEG, x)), Unparse(x);
    assert Same(ts[i + 0], u[0]);
    forall k | 0 <= k < |ux|
      ensures Same(ts[i + 1 + k], ux[k])
    {
      assert Same(ts[i + (1 + k)], u[1 + k]);
    }
  }

  /** A rendering inside a terminated list is followed by a token. */
  lemma MatchesBefore(ts: seq<Token>, i: nat, e: Expr)
    requires Printable(e) && Terminated(ts) && Matches(ts, i, Unparse(e))
    ensures i + |Unparse(e)| < |ts|
  {
    var u := Unparse(e);
    assert Same(ts[i + (|u| - 1)], u[|u| - 1]);
  }

  // ---------------------------------------------------------------------
  // How far each level reads

  /** A level that meets none of its operators yields what the level
      below it yields: each level stops at the first token that is not one
      of its operators and leaves that token current. */
  lemma {:induction false} Lift(n: nat, m: nat, ts: seq<Token>, i: nat, e: Expr, q: nat)
    requires n <= m <= 3 && Terminated(ts) && i < |ts|
    requires Level(n, ts, i) == Ok((e, q))
    requires forall k :: n < k <= m ==> !IsLevelOp(k, ts[q].kind)
    ensures Level(m, ts, i) == Ok((e, q))
    decreases m - n
  {
    if n < m {
      Lift(n, m - 1, ts, i, e, q);
      assert Fold(m, ts, q, e) == Ok((e, q));
    }
  }

  /** Two operands around one operator of level `n`: every level from `n`
      up yields the operator applied to both. */
  lemma Pair(n: nat, m: nat, ts: seq<Token>, i: nat, e1: Expr, p: nat, e2: Expr, q: nat)
    requires 1 <= n <= m <= 3 && Terminated(ts) && i < |ts|
    requires Expr0(ts, i) == Ok((e1, p)) && IsLevelOp(n, ts[p].kind)
    requires p + 1 < |ts| && Expr0(ts, p + 1) == Ok((e2, q))
    requires forall k :: 1 <= k <= m ==> !IsLevelOp(k, ts[q].kind)
    ensures Level(m, ts, i) == Ok((Binary(TokenToBinOp(ts[p].kind), e1, e2), q))
  {
    Lift(0, n - 1, ts, i, e1, p);
    Lift(0, n - 1, ts, p + 1, e2, q);
    var b := Binary(TokenToBinOp(ts[p].kind), e1, e2);
    assert Fold(n, ts, q, b) == Ok((b, q));
    assert Fold(n, ts, p, e1) == Ok((b, q));
    Lift(n, m, ts, i, b, q);
  }

  /** Three operands around two operators of the same level: the left
      one binds tighter (left associativity). */
  lemma TripleSame(n: nat, ts: seq<Token>, i: nat, e1: Expr, p: nat, e2: Expr, q: nat, e3: Expr, s: nat)
    requires 1 <= n <= 3 && Terminated(ts) && i < |ts|
    requires Expr0(ts, i) == Ok((e1, p)) && IsLevelOp(n, ts[p].kind)
    requires p + 1 < |ts| && Expr0(ts, p + 1) == Ok((e2, q)) && IsLevelOp(n, ts[q].kind)
    requires q + 1 < |ts| && Expr0(ts, q + 1) == Ok((e3, s)) && !IsBinOpToken(ts[s].kind)
    ensures var o1, o2 := TokenToBinOp(ts[p].kind), TokenToBinOp(ts[q].kind);
      Level(3, ts, i) == Ok((Binary(o2, Binary(o1, e1, e2), e3), s))
  {
    var b12 := Binary(TokenToBinOp(ts[p].kind), e1, e2);
    var b := Binary(TokenToBinOp(ts[q].kind), b12, e3);
    Lift(0, n - 1, ts, i, e1, p);
    Lift(0, n - 1, ts, p + 1, e2, q);
    Lift(0, n - 1, ts, q + 1, e3, s);
    assert Fold(n, ts, s, b) == Ok((b, s));
    assert Fold(n, ts, q, b12) == Ok((b, s));
    assert Fold(n, ts, p, e1) == Ok((b, s));
    Lift(n, 3, ts, i, b, s);
  }

  /** ... of a lower level, then a higher one: the left one binds
      tighter. */
  lemma TripleFirst(n1: nat, n2: nat, ts: seq<Token>, i: nat, e1: Expr, p: nat, e2: Expr, q: nat, e3: Expr, s: nat)
    requires 1 <= n1 < n2 <= 3 && Terminated(ts) && i < |ts|
    requires Expr0(ts, i) == Ok((e1, p)) && IsLevelOp(n1, ts[p].kind)
    requires p + 1 < |ts| && Expr0(ts, p + 1) == Ok((e2, q)) && IsLevelOp(n2, ts[q].kind)
    requires q + 1 < |ts| && Expr0(ts, q + 1) == Ok((e3, s)) && !IsBinOpToken(ts[s].kind)
    ensures var o1, o2 := TokenToBinOp(ts[p].kind), TokenToBinOp(ts[q].kind);
      Level(3, ts, i) == Ok((Binary(o2, Binary(o1, e1, e2), e3), s))
  {
    var b12 := Binary(TokenToBinOp(ts[p].kind), e1, e2);
    var b := Binary(TokenToBinOp(ts[q].kind), b12, e3);
    Pair(n1, n2 - 1, ts, i, e1, p, e2, q);
    Lift(0, n2 - 1, ts, q + 1, e3, s);
    assert Fold(n2, ts, s, b) == Ok((b, s));
    assert Fold(n2, ts, q, b12) == Ok((b, s));
    Lift(n2, 3, ts, i, b, s);
  }

  /** ... of a higher level, then a lower one: the right one binds
      tighter. */
  lemma TripleSecond(n1: nat, n2: nat, ts: seq<Token>, i: nat, e1: Expr, p: nat, e2: Expr, q: nat, e3: Expr, s: nat)
    requires 1 <= n2 < n1 <= 3 && Terminated(ts) && i < |ts|
    requires Expr0(ts, i) == Ok((e1, p)) && IsLevelOp(n1, ts[p].kind)
    requires p + 1 < |ts| && Expr0(ts, p + 1) == Ok((e2, q)) && IsLevelOp(n2, ts[q].kind)
    requires q + 1 < |ts| && Expr0(ts, q + 1) == Ok((e3, s)) && !IsBinOpToken(ts[s].kind)
    ensures var o1, o2 := TokenToBinOp(ts[p].kind), TokenToBinOp(ts[q].kind);
      Level(3, ts, i) == Ok((Binary(o1, e1, Binary(o2, e2, e3)), s))
  {
    var b23 := Binary(TokenToBinOp(ts[q].kind), e2, e3);
    var b := Binary(TokenToBinOp(ts[p].kind), e1, b23);
    Pair(n2, n1 - 1, ts, p + 1, e2, q, e3, s);
    Lift(0, n1 - 1, ts, i, e1, p);
    assert Fold(n1, ts, s, b) == Ok((b, s));
    assert Fold(n1, ts, p, e1) == Ok((b, s));
    Lift(n1, 3, ts, i, b, s);
  }

  /** Three operands around two operators, of levels `n1` and `n2`: the
      operator of the lower level binds tighter, and of two operators at
      the same level the left one does. */
  lemma Triple(n1: nat, n2: nat, ts: seq<Token>, i: nat, e1: Expr, p: nat, e2: Expr, q: nat, e3: Expr, s: nat)
    requires 1 <= n1 <= 3 && 1 <= n2 <= 3 && Terminated(ts) && i < |ts|
    requires Expr0(ts, i) == Ok((e1, p)) && IsLevelOp(n1, ts[p].kind)
    requires p + 1 < |ts| && Expr0(ts, p + 1) == Ok((e2, q)) && IsLevelOp(n2, ts[q].kind)
    requires q + 1 < |ts| && Expr0(ts, q + 1) == Ok((e3, s)) && !IsBinOpToken(ts[s].kind)
    ensures var o1, o2 := TokenToBinOp(ts[p].kind), TokenToBinOp(ts[q].kind);
      Level(3, ts, i) == Ok((if n1 <= n2 then Binary(o2, Binary(o1, e1, e2), e3) else Binary(o1, e1, Binary(o2, e2, e3)), s))
  {
    if n1 == n2 {
      TripleSame(n1, ts, i, e1, p, e2, q, e3, s);
    } else if n1 < n2 {
      TripleFirst(n1, n2, ts, i, e1, p, e2, q, e3, s);
    } else {
      TripleSecond(n1, n2, ts, i, e1, p, e2, q, e3, s);
    }
  }

  /** Negation binds tighter than every binary operator: `- a op b` is
      `(-a) op b`. */
  lemma NegBindsTighter(n: nat, ts: seq<Token>, i: nat, e1: Expr, p: nat, e2: Expr, q: nat)
    requires 1 <= n <= 3 && Terminated(ts) && i + 1 < |ts| && ts[i].kind == '-' as int
    requires Expr0(ts, i + 1) == Ok((e1, p)) && IsLevelOp(n, ts[p].kind)
    requires p + 1 < |ts| && Expr0(ts, p + 1) == Ok((e2, q)) && !IsBinOpToken(ts[q].kind)
    ensures Level(3, ts, i) == Ok((Binary(TokenToBinOp(ts[p].kind), Unary(NEG, e1), e2), q))
  {
    NegStep(ts, i, e1, p);
    Pair(n, 3, ts, i, Unary(NEG, e1), p, e2, q);
  }

  // ---------------------------------------------------------------------
  // Round trip

  /** A `-` before an operand of level 0 negates it; so `- - x` is
      `Unary(NEG, Unary(NEG, x))` (right recursion). */
  lemma NegStep(ts: seq<Token>, i: nat, x: Expr, j: nat)
    requires Terminated(ts) && i + 1 < |ts| && ts[i].kind == '-' as int
    requires Expr0(ts, i + 1) == Ok((x, j))
    ensures Expr0(ts, i) == Ok((Unary(NEG, x), j))
  {
  }

  /** A parenthesised binary operation is read as one operand. */
  lemma ParenStep(ts: seq<Token>, i: nat, op: Operator, l: Expr, p: nat, r: Expr, q: nat)
    requires IsParsedOp(op) && Terminated(ts) && i + 1 < |ts| && ts[i].kind == '(' as int
    requires Expr0(ts, i + 1) == Ok((l, p)) && ts[p].kind == OpToken(op)
    requires p + 1 < |ts| && Expr0(ts, p + 1) == Ok((r, q)) && ts[q].kind == ')' as int
    ensures Expr0(ts, i) == Ok((Binary(op, l, r), q + 1))
  {
    TokenToBinOpInverse(op, 0);
    var n := if IsLevelOp(1, ts[p].kind) then 1 else if IsLevelOp(2, ts[p].kind) then 2 else 3;
    Pair(n, 3, ts, i + 1, l, p, r, q);
    AtomParenOk(ts, i, Binary(op, l, r), q);
  }

  /** `parse_expr_0` reads the rendering of any printable tree back as
      that tree, and stops right after it. */
  lemma {:induction false} UnitParse(e: Expr, ts: seq<Token>, i: nat)
    requires Printable(e) && Terminated(ts) && Matches(ts, i, Unparse(e))
    ensures i + |Unparse(e)| < |ts| && Expr0(ts, i) == Ok((e, i + |Unparse(e)|))
    decreases e, 1
  {
    MatchesBefore(ts, i, e);
    assert Same(ts[i + 0], Unparse(e)[0]);
    match e
    case Literal(v) =>
    case Name(_, _) =>
    case Unary(_, x) => UnitParseNeg(x, ts, i);
    case Binary(op, l, r) => UnitParseParen(op, l, r, ts, i);
  }

  lemma {:induction false} UnitParseNeg(x: Expr, ts: seq<Token>, i: nat)
    requires Printable(Unary(NEG, x)) && Terminated(ts) && Matches(ts, i, Unparse(Unary(NEG, x)))
    ensures i + 1 + |Unparse(x)| < |ts| && Expr0(ts, i) == Ok((Unary(NEG, x), i + 1 + |Unparse(x)|))
    decreases Unary(NEG, x), 0
  {
    MatchesUnary(ts, i, x);
    UnitParse(x, ts, i + 1);
    NegStep(ts, i, x, i + 1 + |Unparse(x)|);
  }

  lemma {:induction false} UnitParseParen(op: Operator, l: Expr, r: Expr, ts: seq<Token>, i: nat)
    requires Printable(Binary(op, l, r)) && Terminated(ts) && Matches(ts, i, Unparse(Binary(op, l, r)))
    ensures var n := |Unparse(Binary(op, l, r))|;
      i + n < |ts| && Expr0(ts, i) == Ok((Binary(op, l, r), i + n))
    decreases Binary(op, l, r), 0
  {
    MatchesBinary(ts, i, op, l, r);
    var p := i + 1 + |Unparse(l)|;
    UnitParse(l, ts, i + 1);
    UnitParse(r, ts, p + 1);
    ParenStep(ts, i, op, l, p, r, p + 1 + |Unparse(r)|);
  }

  /** `parse_expression` reads the rendering of any printable tree back
      as that tree, when the token after it is not a binary operator, and
      leaves that token current. */
  lemma ParseUnparse(e: Expr, ts: seq<Token>)
    requires Printable(e) && Terminated(ts) && Matches(ts, 0, Unparse(e))
    requires |Unparse(e)| < |ts| && !IsBinOpToken(ts[|Unparse(e)|].kind)
    ensures Expression(ts) == Ok((e, |Unparse(e)|))
  {
    UnitParse(e, ts, 0);
    Lift(0, 3, ts, 0, e, |Unparse(e)|);
  }

  // ---------------------------------------------------------------------
  // Operators the table maps oddly, and errors

  /** `<=` is read as `>=`: `token_to_bin_op` gives `OP_GTE` for
      `TOKEN_LTE`. */
  lemma LteAsGte(ts: seq<Token>, i: nat, e1: Expr, p: nat, e2: Expr, q: nat)
    requires Terminated(ts) && i < |ts| && Expr0(ts, i) == Ok((e1, p)) && ts[p].kind == TOKEN_LTE
    requires p + 1 < |ts| && Expr0(ts, p + 1) == Ok((e2, q)) && !IsBinOpToken(ts[q].kind)
    ensures Level(3, ts, i) == Ok((Binary(GTE, e1, e2), q))
  {
    Pair(3, 3, ts, i, e1, p, e2, q);
  }

  /** `%` is an operator of no level: the expression ends before it and
      leaves it current. */
  lemma ModStops(ts: seq<Token>, i: nat, e: Expr, p: nat)
    requires Terminated(ts) && i < |ts| && Expr0(ts, i) == Ok((e, p)) && ts[p].kind == '%' as int
    ensures Level(3, ts, i) == Ok((e, p))
  {
    Lift(0, 3, ts, i, e, p);
  }

  /** An error in the first operand is the error of every level. */
  lemma {:induction false} ErrLift(n: nat, ts: seq<Token>, i: nat)
    requires n <= 3 && Terminated(ts) && i < |ts| && Expr0(ts, i).Err?
    ensures Level(n, ts, i) == Expr0(ts, i)
  {
    if n > 0 {
      ErrLift(n - 1, ts, i);
    }
  }

  /** A token that starts no operand (the end marker, a `)`, an operator
      other than `-`, a keyword) where an expression should start. */
  lemma NoOperand(n: nat, ts: seq<Token>, i: nat)
    requires n <= 3 && Terminated(ts) && i < |ts|
    requires ts[i].kind !in {TOKEN_LITERAL, TOKEN_NAME, '(' as int, '-' as int}
    ensures Level(n, ts, i) == Err(MSG_NO_ATOM)
  {
    AtomCases(ts, i);
    ErrLift(n, ts, i);
  }

  /** The stream of an empty source holds only the end marker, and has no
      expression. */
  lemma EmptyHasNoExpression(ts: seq<Token>)
    requires Terminated(ts) && |ts| == 1
    ensures Expression(ts) == Err(MSG_NO_ATOM)
  {
    NoOperand(3, ts, 0);
  }

  /** A parenthesised expression must be closed: `expect_token(')')`
      fails on any other token. */
  lemma MissingParen(n: nat, ts: seq<Token>, i: nat, e: Expr, j: nat)
    requires n <= 3 && Terminated(ts) && i + 1 < |ts| && ts[i].kind == '(' as int
    requires Level(3, ts, i + 1) == Ok((e, j)) && ts[j].kind != ')' as int
    ensures Level(n, ts, i) == Err(MSG_EXPECTED)
  {
    AtomParenErr(ts, i);
    ErrLift(n, ts, i);
  }

  /** `( e )` is `e` itself. */
  lemma ParenIsInner(ts: seq<Token>, i: nat, e: Expr, j: nat)
    requires Terminated(ts) && i + 1 < |ts| && ts[i].kind == '(' as int
    requires Level(3, ts, i + 1) == Ok((e, j)) && ts[j].kind == ')' as int
    requires j + 1 < |ts| && !IsBinOpToken(ts[j + 1].kind)
    ensures Level(3, ts, i) == Ok((e, j + 1))
  {
    AtomParenOk(ts, i, e, j);
    Lift(0, 3, ts, i, e, j + 1);
  }
}
