/** The expression parser of parser.c: precedence climbing over the
    lexer's token stream.

      level 0   `-` (negation)       right-recursive
      level 1   `*` `/`              left-associative
      level 2   `+` `-`              left-associative
      level 3   `==` `>` `<` `>=` `<=` left-associative

    `parse_expr_1`, `parse_expr_2` and `parse_expr_3` have the same shape
    and differ only in their operator set; they are one method, `ParseLevel`,
    taking the level. The grammar itself is stated as functions over the
    token list `Tokens` of the lexer state, and each method is proved to
    compute what those functions say. */
module Parser {
  import opened Common
  import opened Ast
  import opened Lexer

  /** The C falls out of its `switch` with an uninitialised result when an
      atom starts with any other token; the model reports this error. */
  const MSG_NO_ATOM: string := "Expected an expression"

  /** The token kinds each binary level loops on (`is_token_expr_1` ...
      `is_token_expr_3`). `%` is at none of them. */
  predicate IsLevelOp(n: nat, k: int) {
    (n == 1 && (k == '*' as int || k == '/' as int)) ||
    (n == 2 && (k == '+' as int || k == '-' as int)) ||
    (n == 3 && (k == TOKEN_EQ || k == '>' as int || k == '<' as int || k == TOKEN_GTE || k == TOKEN_LTE))
  }

  predicate IsBinOpToken(k: int) {
    IsLevelOp(1, k) || IsLevelOp(2, k) || IsLevelOp(3, k)
  }

  /** `token_to_bin_op`, on the tokens that have an entry. `TOKEN_LTE` is
      mapped to `OP_GTE`, as the table is written. */
  function TokenToBinOp(k: int): (op: Operator)
    requires IsBinOpToken(k)
    ensures !IsUnary(op) && op != MOD && op != LTE
  {
    if k == '+' as int then ADD
    else if k == '-' as int then SUB
    else if k == '*' as int then MUL
    else if k == '/' as int then DIV
    else if k == TOKEN_EQ then EQ
    else if k == '>' as int then GT
    else if k == '<' as int then LT
    else GTE
  }

  /** The operators the parser can build. */
  predicate IsParsedOp(op: Operator) {
    op == ADD || op == SUB || op == MUL || op == DIV || op == EQ || op == GT || op == LT || op == GTE
  }

  /** The token spelling each parsed operator: `token_to_bin_op` read
      backwards. */
  function OpToken(op: Operator): (k: int)
    requires IsParsedOp(op)
  {
    match op
    case ADD => '+' as int
    case SUB => '-' as int
    case MUL => '*' as int
    case DIV => '/' as int
    case EQ => TOKEN_EQ
    case GT => '>' as int
    case LT => '<' as int
    case GTE => TOKEN_GTE
  }

  /** `OpToken` is a right inverse of the table, and the table is
      injective except that `>=` and `<=` both give `OP_GTE`. */
  lemma TokenToBinOpInverse(op: Operator, k: int)
    requires IsParsedOp(op)
    ensures IsBinOpToken(OpToken(op)) && TokenToBinOp(OpToken(op)) == op
    ensures IsBinOpToken(k) && k != TOKEN_LTE ==> OpToken(TokenToBinOp(k)) == k
    ensures IsBinOpToken(k) ==> (TokenToBinOp(k) == GTE <==> k == TOKEN_GTE || k == TOKEN_LTE)
  {
  }

  // ---------------------------------------------------------------------
  // The grammar, over a token list `ts` ending in the end marker. Each
  // function parses from index `i` and yields the tree and the index of
  // the first token it did not consume.

  /** `parse_atom`: a literal, a name, or a parenthesised expression. */
  function Atom(ts: seq<Token>, i: nat): (r: Result<(Expr, nat)>)
    requires Terminated(ts) && i < |ts|
    ensures r.Ok? ==> i < r.value.1 < |ts|
    decreases |ts| - i, 0, 0
  {
    var k := ts[i].kind;
    if k == TOKEN_LITERAL then Ok((Literal(ts[i].payload % U64_LIMIT), i + 1))
    else if k == TOKEN_NAME then Ok((Name(ts[i].payload, -1), i + 1))
    else if k == '(' as int then
      match Level(3, ts, i + 1)
      case Err(m) => Err(m)
      case Ok((e, j)) => if ts[j].kind == ')' as int then Ok((e, j + 1)) else Err(MSG_EXPECTED)
    else Err(MSG_NO_ATOM)
  }

  /** `parse_expr_0`: any number of `-` prefixes before an atom. */
  function Expr0(ts: seq<Token>, i: nat): (r: Result<(Expr, nat)>)
    requires Terminated(ts) && i < |ts|
    ensures r.Ok? ==> i < r.value.1 < |ts|
    decreases |ts| - i, 0, 1
  {
    if ts[i].kind == '-' as int then
      match Expr0(ts, i + 1)
      case Err(m) => Err(m)
      case Ok((e, j)) => Ok((Unary(NEG, e), j))
    else Atom(ts, i)
  }

  /** Level `n` (0 is `parse_expr_0`, 1 to 3 `parse_expr_1` to
      `parse_expr_3`). It stops at the first token that is an operator of
      none of the levels up to `n`. */
  function Level(n: nat, ts: seq<Token>, i: nat): (r: Result<(Expr, nat)>)
    requires n <= 3 && Terminated(ts) && i < |ts|
    ensures r.Ok? ==> i < r.value.1 < |ts|
    ensures r.Ok? ==> forall m :: 1 <= m <= n ==> !IsLevelOp(m, ts[r.value.1].kind)
    decreases |ts| - i, n, 2
  {
    if n == 0 then Expr0(ts, i)
    else
      match Level(n - 1, ts, i)
      case Err(m) => Err(m)
      case Ok((left, j)) => Fold(n, ts, j, left)
  }

  /** The loop of level `n`: while the current token is one of its
      operators, parse the next operand one level down and fold it into
      `left`. */
  function Fold(n: nat, ts: seq<Token>, i: nat, left: Expr): (r: Result<(Expr, nat)>)
    requires 1 <= n <= 3 && Terminated(ts) && i < |ts|
    requires forall m :: 1 <= m < n ==> !IsLevelOp(m, ts[i].kind)
    ensures r.Ok? ==> i <= r.value.1 < |ts|
    ensures r.Ok? ==> forall m :: 1 <= m <= n ==> !IsLevelOp(m, ts[r.value.1].kind)
    decreases |ts| - i, n, 1
  {
    if IsLevelOp(n, ts[i].kind) then
      match Level(n - 1, ts, i + 1)
      case Err(m) => Err(m)
      case Ok((right, j)) => Fold(n, ts, j, Binary(TokenToBinOp(ts[i].kind), left, right))
    else Ok((left, i))
  }

  /** `parse_expression`. */
  function Expression(ts: seq<Token>): (r: Result<(Expr, nat)>)
    requires Terminated(ts)
    ensures r.Ok? ==> 0 < r.value.1 < |ts| && !IsBinOpToken(ts[r.value.1].kind)
  {
    Level(3, ts, 0)
  }

  // ---------------------------------------------------------------------
  // The parser over the lexer

  /** The method's result `r` and the lexer's state agree with the grammar
      function's result `spec`: on success the tree is the same and the
      stream has moved to the first unconsumed token; on failure the
      message is the same. */
  ghost predicate Agrees(lx: Lexer, ts: seq<Token>, spec: Result<(Expr, nat)>, r: Result<Expr>)
    reads lx, lx.table
  {
    lx.Valid() && (r.Ok? <==> spec.Ok?) &&
    (spec.Ok? ==> r.value == spec.value.0 && Reads(lx.State(), ts, spec.value.1)) &&
    (spec.Err? ==> r.msg == spec.msg)
  }

  /** The lexer state `st` is at `ts[i]`: its current token is `ts[i]`,
      and so on for each token it scans up to the end marker. */
  ghost predicate Reads(st: LState, ts: seq<Token>, i: nat)
    requires Good(st)
    decreases |st.src| + 1 - st.pos, 1
  {
    i < |ts| && st.token == ts[i] && ReadsOn(st, ts, i)
  }

  /** The tokens after the current one are `ts[i + 1..]`. */
  ghost predicate ReadsOn(st: LState, ts: seq<Token>, i: nat)
    requires Good(st)
    decreases |st.src| + 1 - st.pos, 0
  {
    st.token.kind != END_TOKEN ==> Reads(Next(st), ts, i + 1)
  }

  /** A state whose stream is `ts[i..]` reads `ts` from `i`. */
  lemma {:induction false} ReadsFromTokens(st: LState, ts: seq<Token>, i: nat)
    requires Good(st) && Terminated(ts) && i < |ts| && Tokens(st) == ts[i..]
    ensures Reads(st, ts, i)
    decreases |st.src| + 1 - st.pos
  {
    if st.token.kind != END_TOKEN {
      TokensAdvance(st);
      assert ts[i..][1..] == ts[i + 1..];
      ReadsFromTokens(Next(st), ts, i + 1);
    }
    assert ReadsOn(st, ts, i);
  }

  /** The lexer is positioned at `ts[i]`. */
  ghost predicate Positioned(lx: Lexer, ts: seq<Token>, i: nat)
    reads lx, lx.table
  {
    lx.Valid() && Terminated(ts) && Reads(lx.State(), ts, i)
  }

  /** `next_token` on a token that is not the end marker moves the cursor
      one place along `ts`. */
  method Advance(lx: Lexer, ghost ts: seq<Token>, ghost i: nat)
    requires Positioned(lx, ts, i) && lx.token.kind != END_TOKEN
    modifies lx`pos, lx`token, lx.table
    ensures Positioned(lx, ts, i + 1)
  {
    ghost var st := lx.State();
    assert ReadsOn(st, ts, i);
    lx.NextToken();
  }

  /** `expect_token(k)` at `ts[i]`. */
  method Expect(lx: Lexer, k: int, ghost ts: seq<Token>, ghost i: nat) returns (m: Result<bool>)
    requires Positioned(lx, ts, i) && k != END_TOKEN
    modifies lx`pos, lx`token, lx.table
    ensures lx.Valid() && (m.Ok? <==> ts[i].kind == k)
    ensures m.Ok? ==> Positioned(lx, ts, i + 1)
    ensures m.Err? ==> m.msg == MSG_EXPECTED
  {
    ghost var st := lx.State();
    assert ReadsOn(st, ts, i);
    m := lx.ExpectToken(k);
  }

  lemma AtomParenOk(ts: seq<Token>, i: nat, e: Expr, j: nat)
    requires Terminated(ts) && i + 1 < |ts| && ts[i].kind == '(' as int
    requires Level(3, ts, i + 1) == Ok((e, j)) && ts[j].kind == ')' as int
    ensures Atom(ts, i) == Ok((e, j + 1))
  {
  }

  lemma AtomParenErr(ts: seq<Token>, i: nat)
    requires Terminated(ts) && i + 1 < |ts| && ts[i].kind == '(' as int
    ensures Level(3, ts, i + 1).Err? ==> Atom(ts, i) == Err(Level(3, ts, i + 1).msg)
    ensures Level(3, ts, i + 1).Ok? && ts[Level(3, ts, i + 1).value.1].kind != ')' as int ==> Atom(ts, i) == Err(MSG_EXPECTED)
  {
  }

  lemma LevelStart(n: nat, ts: seq<Token>, i: nat)
    requires 1 <= n <= 3 && Terminated(ts) && i < |ts|
    ensures Level(n - 1, ts, i).Err? ==> Level(n, ts, i) == Err(Level(n - 1, ts, i).msg)
    ensures Level(n - 1, ts, i).Ok? ==>
      Level(n, ts, i) == Fold(n, ts, Level(n - 1, ts, i).value.1, Level(n - 1, ts, i).value.0)
  {
  }

  lemma FoldStep(n: nat, ts: seq<Token>, j: nat, left: Expr)
    requires 1 <= n <= 3 && Terminated(ts) && j < |ts| && IsLevelOp(n, ts[j].kind)
    requires forall m :: 1 <= m < n ==> !IsLevelOp(m, ts[j].kind)
    ensures Level(n - 1, ts, j + 1).Err? ==> Fold(n, ts, j, left) == Err(Level(n - 1, ts, j + 1).msg)
    ensures Level(n - 1, ts, j + 1).Ok? ==>
      Fold(n, ts, j, left) == Fold(n, ts, Level(n - 1, ts, j + 1).value.1,
        Binary(TokenToBinOp(ts[j].kind), left, Level(n - 1, ts, j + 1).value.0))
  {
  }

  lemma FoldStop(n: nat, ts: seq<Token>, j: nat, left: Expr)
    requires 1 <= n <= 3 && Terminated(ts) && j < |ts| && !IsLevelOp(n, ts[j].kind)
    requires forall m :: 1 <= m < n ==> !IsLevelOp(m, ts[j].kind)
    ensures Fold(n, ts, j, left) == Ok((left, j))
  {
  }

  lemma AtomCases(ts: seq<Token>, i: nat)
    requires Terminated(ts) && i < |ts|
    ensures ts[i].kind == TOKEN_LITERAL ==> Atom(ts, i) == Ok((Literal(ts[i].payload % U64_LIMIT), i + 1))
    ensures ts[i].kind == TOKEN_NAME ==> Atom(ts, i) == Ok((Name(ts[i].payload, -1), i + 1))
    ensures ts[i].kind != TOKEN_LITERAL && ts[i].kind != TOKEN_NAME && ts[i].kind != '(' as int ==>
      Atom(ts, i) == Err(MSG_NO_ATOM)
  {
  }

  method ParseAtom(lx: Lexer, ghost ts: seq<Token>, ghost i: nat) returns (r: Result<Expr>)
    requires Positioned(lx, ts, i)
    modifies lx`pos, lx`token, lx.table
    ensures Agrees(lx, ts, Atom(ts, i), r)
    decreases |ts| - i, 0, 0
  {
    assert lx.token == ts[i];
    AtomCases(ts, i);
    var k := lx.token.kind;
    if k == TOKEN_LITERAL {
      var v := lx.token.payload % U64_LIMIT;
      Advance(lx, ts, i);
      r := Ok(Literal(v));
    } else if k == TOKEN_NAME {
      var name := lx.token.payload;
      Advance(lx, ts, i);
      r := Ok(Name(name, -1));
    } else if k == '(' as int {
      Advance(lx, ts, i);
      r := ParseLevel(lx, 3, ts, i + 1);
      ghost var inner := Level(3, ts, i + 1);
      AtomParenErr(ts, i);
      if r.Ok? {
        ghost var j := inner.value.1;
        var m := Expect(lx, ')' as int, ts, j);
        if m.Err? {
          r := Err(m.msg);
        } else {
          AtomParenOk(ts, i, r.value, j);
        }
      }
    } else {
      r := Err(MSG_NO_ATOM);
    }
  }

  method ParseExpr0(lx: Lexer, ghost ts: seq<Token>, ghost i: nat) returns (r: Result<Expr>)
    requires Positioned(lx, ts, i)
    modifies lx`pos, lx`token, lx.table
    ensures Agrees(lx, ts, Expr0(ts, i), r)
    decreases |ts| - i, 0, 1
  {
    if lx.token.kind == '-' as int {
      Advance(lx, ts, i);
      var operand := ParseExpr0(lx, ts, i + 1);
      if operand.Ok? {
        r := Ok(Unary(NEG, operand.value));
      } else {
        r := operand;
      }
    } else {
      r := ParseAtom(lx, ts, i);
    }
  }

  /** `parse_expr_n` for the level `n` from 1 to 3, and `parse_expr_0`
      for level 0. */
  method ParseLevel(lx: Lexer, n: nat, ghost ts: seq<Token>, ghost i: nat) returns (r: Result<Expr>)
    requires n <= 3 && Positioned(lx, ts, i)
    modifies lx`pos, lx`token, lx.table
    ensures Agrees(lx, ts, Level(n, ts, i), r)
    decreases |ts| - i, n, 2
  {
    if n == 0 {
      r := ParseExpr0(lx, ts, i);
    } else {
      r := ParseLevel(lx, n - 1, ts, i);
      LevelStart(n, ts, i);
      if r.Ok? {
        r := ParseOperators(lx, n, ts, Level(n - 1, ts, i).value.1, r.value);
      }
    }
  }

  /** The loop of `parse_expr_n`: while the current token is an operator
      of level `n`, read it and the operand of level `n - 1` after it, and
      combine them with the tree so far, `left`. */
  method ParseOperators(lx: Lexer, n: nat, ghost ts: seq<Token>, ghost i: nat, left: Expr) returns (r: Result<Expr>)
    requires 1 <= n <= 3 && Positioned(lx, ts, i)
    requires forall m :: 1 <= m < n ==> !IsLevelOp(m, ts[i].kind)
    modifies lx`pos, lx`token, lx.table
    ensures Agrees(lx, ts, Fold(n, ts, i, left), r)
    decreases |ts| - i, n, 1
  {
    var acc := left;
    ghost var j := i;
    while IsLevelOp(n, lx.token.kind)
      invariant Positioned(lx, ts, j) && i <= j
      invariant forall m :: 1 <= m < n ==> !IsLevelOp(m, ts[j].kind)
      invariant Fold(n, ts, j, acc) == Fold(n, ts, i, left)
      decreases |ts| - j
    {
      assert lx.token == ts[j];
      FoldStep(n, ts, j, acc);
      var op := TokenToBinOp(lx.token.kind);
      Advance(lx, ts, j);
      var right := ParseLevel(lx, n - 1, ts, j + 1);
      if right.Err? {
        return right;
      }
      acc := Binary(op, acc, right.value);
      j := Level(n - 1, ts, j + 1).value.1;
    }
    assert lx.token == ts[j];
    FoldStop(n, ts, j, acc);
    r := Ok(acc);
  }

  /** `parse_expression`, on the stream the lexer is at: it yields the
      tree `Expression` finds in that stream and leaves the lexer at the
      first token after it. */
  method ParseExpression(lx: Lexer) returns (r: Result<Expr>)
    requires lx.Valid()
    modifies lx`pos, lx`token, lx.table
    ensures lx.Valid() && Terminated(old(Tokens(lx.State())))
    ensures var spec := Expression(old(Tokens(lx.State())));
      (r.Ok? <==> spec.Ok?) && (r.Err? ==> r.msg == spec.msg) &&
      (r.Ok? ==> r.value == spec.value.0 && Reads(lx.State(), old(Tokens(lx.State())), spec.value.1))
  {
    ghost var ts := Tokens(lx.State());
    TokensTerminated(lx.State());
    ReadsFromTokens(lx.State(), ts, 0);
    r := ParseLevel(lx, 3, ts, 0);
  }
}
