/** The code generator of compiler.c (`compile_expression`,
    `compile_statement`, `compile_function`): post-order code for operators
    and literals, and if/elif/else chains with back-patched JZ/JMP.
    `ExprCode` and `StmtCode` say which instructions a construct appends when
    the buffer holds `base` instructions; the methods append them to
    `vm.insts` the way the C code does, placeholders and patches included. */
module Compiler {
  import opened Common
  import opened Ast
  import opened Vm

  /** The `internal_error` of the index case. */
  const MSG_INDEX: string := "Indexing operator not yet supported"
  /** The failed `assert` on the two arrays of an if statement. */
  const MSG_IF_COUNTS: string := "sb_count(stmt->stmt_if.conditions) == sb_count(stmt->stmt_if.scopes)"

  /** The two ways compilation fails: an index expression, and an if
      statement whose two arrays differ in length. */
  predicate CompileError(m: string) {
    m == MSG_INDEX || m == MSG_IF_COUNTS
  }

  function Prepend(p: seq<Inst>, r: Result<seq<Inst>>): (q: Result<seq<Inst>>)
    ensures q.Ok? == r.Ok? && (q.Ok? ==> q.value == p + r.value) && (q.Err? ==> q == r)
  {
    match r
    case Ok(c) => Ok(p + c)
    case Err(m) => Err(m)
  }

  /** What `compile_expression` appends; the index case is an error, and
      names and calls append nothing. */
  function ExprCode(e: Expr): (r: Result<seq<Inst>>)
    ensures r.Err? ==> r.msg == MSG_INDEX
  {
    match e
    case Unary(op, right) =>
      (match ExprCode(right)
       case Err(m) => Err(m)
       case Ok(c) => Ok(c + [OP(op)]))
    case Binary(op, left, right) =>
      (match ExprCode(left)
       case Err(m) => Err(m)
       case Ok(cl) =>
         (match ExprCode(right)
          case Err(m) => Err(m)
          case Ok(cr) => Ok(cl + cr + [OP(op)])))
    case Index(_, _) => Err(MSG_INDEX)
    case Funcall(_, _) => Ok([])
    case Name(_, _) => Ok([])
    case Literal(v) => Ok([PUSHO(v)])
  }

  function ExprLen(e: Expr): nat {
    match ExprCode(e)
    case Ok(c) => |c|
    case Err(_) => 0
  }

  /** How many instructions a statement compiles to; the jumps of an if
      chain are patched to the position this length ends at. */
  function StmtLen(s: Stmt): nat
    decreases s, 2, 0
  {
    match s
    case ExprStmt(e) => ExprLen(e) + 1
    case If(conds, scopes, els) =>
      if |conds| != |scopes| then 0
      else BranchOffset(s, 0, |scopes|) + (if els.Some? then StmtLen(els.value) else 0)
    case Scope(body) => BodyLen(s, 0)
    case Assign(_, _) => 0
    case Decl(_) => 0
    case While(_, _) => 0
    case Return(_) => 0
  }

  /** Length of branch `j` of an if chain: condition, JZ, scope, JMP. */
  function BranchLen(s: Stmt, j: nat): nat
    requires s.If? && |s.conds| == |s.scopes| && j < |s.scopes|
    decreases s, 1, 0
  {
    ExprLen(s.conds[j]) + 1 + StmtLen(s.scopes[j]) + 1
  }

  /** Where branch `j` starts, counted from the start of branch `i`. */
  function BranchOffset(s: Stmt, i: nat, j: nat): nat
    requires s.If? && |s.conds| == |s.scopes| && i <= j <= |s.scopes|
    decreases s, 1, j - i
  {
    if i == j then 0 else BranchLen(s, i) + BranchOffset(s, i + 1, j)
  }

  function BodyLen(s: Stmt, i: nat): nat
    requires s.Scope? && i <= |s.body|
    decreases s, 1, |s.body| - i
  {
    if i == |s.body| then 0 else StmtLen(s.body[i]) + BodyLen(s, i + 1)
  }

  /** What `compile_statement` appends when the buffer holds `base`
      instructions: an expression statement pops its value, a scope compiles
      its statements in order, an if chain is laid out as
      `cond_i; JZ next_i; scope_i; JMP end` per branch, then the else scope;
      the other statements append nothing. */
  function StmtCode(s: Stmt, base: int): (r: Result<seq<Inst>>)
    ensures r.Err? ==> CompileError(r.msg)
    decreases s, 2, 0
  {
    match s
    case ExprStmt(e) =>
      (match ExprCode(e)
       case Err(m) => Err(m)
       case Ok(c) => Ok(c + [POPO]))
    case If(conds, scopes, els) =>
      if |conds| != |scopes| then Err(MSG_IF_COUNTS)
      else
        (match Branches(s, 0, base, base + StmtLen(s))
         case Err(m) => Err(m)
         case Ok(bs) =>
           if els.None? then Ok(bs)
           else Prepend(bs, StmtCode(els.value, base + |bs|)))
    case Scope(body) => BodyCode(s, 0, base)
    case Assign(_, _) => Ok([])
    case Decl(_) => Ok([])
    case While(_, _) => Ok([])
    case Return(_) => Ok([])
  }

  /** Branch `i` of an if chain placed at `at`: its condition, a JZ to
      just past the branch, its scope and a JMP to `end`. */
  function BranchHead(s: Stmt, i: nat, at: int, end: int): (r: Result<seq<Inst>>)
    requires s.If? && |s.conds| == |s.scopes| && i < |s.scopes|
    ensures r.Ok? ==> |r.value| >= 2 && r.value[|r.value| - 1] == JMP(end)
    ensures r.Err? ==> CompileError(r.msg)
    decreases s, 1, 0
  {
    match ExprCode(s.conds[i])
    case Err(m) => Err(m)
    case Ok(c) =>
      match StmtCode(s.scopes[i], at + |c| + 1)
      case Err(m) => Err(m)
      case Ok(sc) => Ok(c + [JZ(at + |c| + 1 + |sc| + 1)] + sc + [JMP(end)])
  }

  /** Branches `i..` of an if chain starting at position `at`, each ending
      with a jump to `end`. */
  function Branches(s: Stmt, i: nat, at: int, end: int): (r: Result<seq<Inst>>)
    requires s.If? && |s.conds| == |s.scopes| && i <= |s.scopes|
    ensures r.Err? ==> CompileError(r.msg)
    decreases s, 1, |s.scopes| - i
  {
    if i == |s.scopes| then Ok([])
    else
      match BranchHead(s, i, at, end)
      case Err(m) => Err(m)
      case Ok(h) => Prepend(h, Branches(s, i + 1, at + |h|, end))
  }

  /** Statements `i..` of a scope, compiled in order from position `at`. */
  function BodyCode(s: Stmt, i: nat, at: int): (r: Result<seq<Inst>>)
    requires s.Scope? && i <= |s.body|
    ensures r.Err? ==> CompileError(r.msg)
    decreases s, 1, |s.body| - i
  {
    if i == |s.body| then Ok([])
    else
      match StmtCode(s.body[i], at)
      case Err(m) => Err(m)
      case Ok(c) => Prepend(c, BodyCode(s, i + 1, at + |c|))
  }

  // ---------------------------------------------------------------------
  // Lengths and jump targets

  lemma {:induction false} StmtCodeLen(s: Stmt, base: int)
    ensures StmtCode(s, base).Ok? ==> |StmtCode(s, base).value| == StmtLen(s)
    decreases s, 2, 0
  {
    match s
    case If(conds, scopes, els) =>
      if |conds| == |scopes| {
        BranchesLen(s, 0, base, base + StmtLen(s));
        var r := Branches(s, 0, base, base + StmtLen(s));
        if r.Ok? && els.Some? {
          StmtCodeLen(els.value, base + |r.value|);
        }
      }
    case Scope(body) => BodyCodeLen(s, 0, base);
    case _ =>
  }

  lemma {:induction false} BranchesLen(s: Stmt, i: nat, at: int, end: int)
    requires s.If? && |s.conds| == |s.scopes| && i <= |s.scopes|
    ensures Branches(s, i, at, end).Ok? ==>
      |Branches(s, i, at, end).value| == BranchOffset(s, i, |s.scopes|)
    decreases s, 1, |s.scopes| - i
  {
    if i < |s.scopes| && ExprCode(s.conds[i]).Ok? {
      var c := ExprCode(s.conds[i]).value;
      StmtCodeLen(s.scopes[i], at + |c| + 1);
      var sc := StmtCode(s.scopes[i], at + |c| + 1);
      if sc.Ok? {
        BranchesLen(s, i + 1, at + |c| + 1 + |sc.value| + 1, end);
      }
    }
  }

  lemma {:induction false} BodyCodeLen(s: Stmt, i: nat, at: int)
    requires s.Scope? && i <= |s.body|
    ensures BodyCode(s, i, at).Ok? ==> |BodyCode(s, i, at).value| == BodyLen(s, i)
    decreases s, 1, |s.body| - i
  {
    if i < |s.body| {
      StmtCodeLen(s.body[i], at);
      var c := StmtCode(s.body[i], at);
      if c.Ok? {
        BodyCodeLen(s, i + 1, at + |c.value|);
      }
    }
  }

  /** Every JZ and JMP in `code` targets a position in [lo, hi]. */
  predicate JumpsWithin(code: seq<Inst>, lo: int, hi: int) {
    forall k :: 0 <= k < |code| && (code[k].JZ? || code[k].JMP?) ==> lo <= code[k].target <= hi
  }

  lemma JumpsConcat(a: seq<Inst>, b: seq<Inst>, lo: int, hi: int)
    requires JumpsWithin(a, lo, hi) && JumpsWithin(b, lo, hi)
    ensures JumpsWithin(a + b, lo, hi)
  {
    forall k | 0 <= k < |a + b| && ((a + b)[k].JZ? || (a + b)[k].JMP?)
      ensures lo <= (a + b)[k].target <= hi
    {
      if k >= |a| { assert (a + b)[k] == b[k - |a|]; }
    }
  }

  /** Expression code holds no jumps. */
  lemma {:induction false} ExprNoJumps(e: Expr)
    ensures ExprCode(e).Ok? ==> forall k :: 0 <= k < |ExprCode(e).value| ==>
      !ExprCode(e).value[k].JZ? && !ExprCode(e).value[k].JMP?
  {
    match e
    case Unary(_, right) =>
      ExprNoJumps(right);
    case Binary(_, left, right) =>
      ExprNoJumps(left);
      ExprNoJumps(right);
    case _ =>
  }

  /** Every jump a statement's code holds targets a position inside that
      code or the position just past it, so all patched targets lie in
      [0, final length]. */
  lemma {:induction false} StmtTargets(s: Stmt, base: int)
    ensures StmtCode(s, base).Ok? ==>
      JumpsWithin(StmtCode(s, base).value, base, base + |StmtCode(s, base).value|)
    decreases s, 2, 0
  {
    match s
    case ExprStmt(e) =>
      ExprNoJumps(e);
    case If(conds, scopes, els) =>
      if |conds| == |scopes| && StmtCode(s, base).Ok? {
        var end := base + StmtLen(s);
        StmtCodeLen(s, base);
        BranchesLen(s, 0, base, end);
        var bs := Branches(s, 0, base, end).value;
        BranchTargets(s, 0, base, end);
        if els.Some? {
          var ec := StmtCode(els.value, base + |bs|).value;
          StmtTargets(els.value, base + |bs|);
          Widen(ec, base + |bs|, base + |bs| + |ec|, base, end);
          JumpsConcat(bs, ec, base, end);
        }
      }
    case Scope(body) =>
      BodyTargets(s, 0, base);
    case _ =>
  }

  lemma Widen(code: seq<Inst>, lo: int, hi: int, lo': int, hi': int)
    requires JumpsWithin(code, lo, hi) && lo' <= lo && hi <= hi'
    ensures JumpsWithin(code, lo', hi')
  {
  }

  lemma {:induction false} BranchTargets(s: Stmt, i: nat, at: int, end: int)
    requires s.If? && |s.conds| == |s.scopes| && i <= |s.scopes|
    requires at + BranchOffset(s, i, |s.scopes|) <= end
    ensures Branches(s, i, at, end).Ok? ==> JumpsWithin(Branches(s, i, at, end).value, at, end)
    decreases s, 1, |s.scopes| - i
  {
    if i < |s.scopes| && Branches(s, i, at, end).Ok? {
      assert BranchHead(s, i, at, end).Ok?;
      var c := ExprCode(s.conds[i]).value;
      var jz := at + |c|;
      var sc := StmtCode(s.scopes[i], jz + 1).value;
      var next := jz + 1 + |sc| + 1;
      StmtCodeLen(s.scopes[i], jz + 1);
      ExprNoJumps(s.conds[i]);
      StmtTargets(s.scopes[i], jz + 1);
      BranchTargets(s, i + 1, next, end);
      var head := c + [JZ(next)] + sc + [JMP(end)];
      HeadTargets(c, sc, at, next, end);
      Widen(Branches(s, i + 1, next, end).value, next, end, at, end);
      JumpsConcat(head, Branches(s, i + 1, next, end).value, at, end);
    }
  }

  /** The jumps of one branch head lie in [at, end]: the condition has
      none, the scope's lie inside the scope. */
  lemma HeadTargets(c: seq<Inst>, sc: seq<Inst>, at: int, next: int, end: int)
    requires forall k :: 0 <= k < |c| ==> !c[k].JZ? && !c[k].JMP?
    requires next == at + |c| + 1 + |sc| + 1 <= end
    requires JumpsWithin(sc, at + |c| + 1, at + |c| + 1 + |sc|)
    ensures JumpsWithin(c + [JZ(next)] + sc + [JMP(end)], at, end)
  {
    var head := c + [JZ(next)] + sc + [JMP(end)];
    assert forall k | 0 <= k < |c| :: head[k] == c[k];
    forall k | 0 <= k < |head| && (head[k].JZ? || head[k].JMP?)
      ensures at <= head[k].target <= end
    {
      if |c| < k < |c| + 1 + |sc| {
        assert head[k] == sc[k - |c| - 1];
      }
    }
  }

  lemma {:induction false} BodyTargets(s: Stmt, i: nat, at: int)
    requires s.Scope? && i <= |s.body|
    ensures BodyCode(s, i, at).Ok? ==>
      JumpsWithin(BodyCode(s, i, at).value, at, at + |BodyCode(s, i, at).value|)
    decreases s, 1, |s.body| - i
  {
    if i < |s.body| && BodyCode(s, i, at).Ok? {
      var c := StmtCode(s.body[i], at).value;
      StmtTargets(s.body[i], at);
      BodyTargets(s, i + 1, at + |c|);
      var rest := BodyCode(s, i + 1, at + |c|).value;
      var hi := at + |c| + |rest|;
      Widen(c, at, at + |c|, at, hi);
      Widen(rest, at + |c|, hi, at, hi);
      JumpsConcat(c, rest, at, hi);
    }
  }

  /** Offset, from the start of branch `i`, of the JZ that follows
      condition `j`. */
  function JzAt(s: Stmt, i: nat, j: nat): nat
    requires s.If? && |s.conds| == |s.scopes| && i <= j < |s.scopes|
  {
    BranchOffset(s, i, j) + ExprLen(s.conds[j])
  }

  /** Offset, from the start of branch `i`, of branch `j`'s trailing JMP. */
  function JmpAt(s: Stmt, i: nat, j: nat): int
    requires s.If? && |s.conds| == |s.scopes| && i <= j < |s.scopes|
  {
    BranchOffset(s, i, j + 1) - 1
  }

  /** The layout of an if chain: the JZ after condition `j` jumps to where
      branch `j + 1` starts (the next condition, the else scope or the end),
      which is just past branch `j`'s trailing JMP, and that JMP jumps to
      `end`. Offsets are counted from the chain's start `at`. */
  lemma {:induction false} BranchesLayout(s: Stmt, i: nat, at: int, end: int)
    requires s.If? && |s.conds| == |s.scopes| && i <= |s.scopes|
    requires Branches(s, i, at, end).Ok?
    ensures var code := Branches(s, i, at, end).value;
      forall j | i <= j < |s.scopes| ::
        JzAt(s, i, j) < JmpAt(s, i, j) < |code| &&
        code[JzAt(s, i, j)] == JZ(at + JmpAt(s, i, j) + 1) &&
        code[JmpAt(s, i, j)] == JMP(end)
    decreases |s.scopes| - i
  {
    if i < |s.scopes| {
      var code := Branches(s, i, at, end).value;
      var c := ExprCode(s.conds[i]).value;
      var sc := StmtCode(s.scopes[i], at + |c| + 1).value;
      var next := at + |c| + 1 + |sc| + 1;
      StmtCodeLen(s.scopes[i], at + |c| + 1);
      BranchesLen(s, i + 1, next, end);
      BranchesLayout(s, i + 1, next, end);
      var head := c + [JZ(next)] + sc + [JMP(end)];
      var rest := Branches(s, i + 1, next, end).value;
      assert code == head + rest;
      assert |head| == BranchLen(s, i);
      LayoutAll(s, i, i + 1, at, end, code, c, sc, head, rest);
    }
  }

  /** The layout of every branch from `i` on, given the first branch's
      pieces and the layout of the rest. */
  lemma LayoutAll(s: Stmt, i: nat, n: nat, at: int, end: int, code: seq<Inst>, c: seq<Inst>,
                  sc: seq<Inst>, head: seq<Inst>, rest: seq<Inst>)
    requires s.If? && |s.conds| == |s.scopes| && i < |s.scopes|
    requires |c| == ExprLen(s.conds[i]) && |head| == BranchLen(s, i)
    requires head == c + [JZ(at + |c| + 1 + |sc| + 1)] + sc + [JMP(end)] && code == head + rest
    requires n == i + 1
    requires forall j | n <= j < |s.scopes| ::
        JzAt(s, n, j) < JmpAt(s, n, j) < |rest| &&
        rest[JzAt(s, n, j)] == JZ(at + |head| + JmpAt(s, n, j) + 1) &&
        rest[JmpAt(s, n, j)] == JMP(end)
    ensures forall j | i <= j < |s.scopes| ::
        JzAt(s, i, j) < JmpAt(s, i, j) < |code| &&
        code[JzAt(s, i, j)] == JZ(at + JmpAt(s, i, j) + 1) &&
        code[JmpAt(s, i, j)] == JMP(end)
  {
    forall j | i <= j < |s.scopes|
      ensures JzAt(s, i, j) < JmpAt(s, i, j) < |code|
      ensures code[JzAt(s, i, j)] == JZ(at + JmpAt(s, i, j) + 1)
      ensures code[JmpAt(s, i, j)] == JMP(end)
    {
      if j == i {
        LayoutHere(s, i, at, end, code, c, sc, rest);
      } else {
        LayoutLater(s, i, j, at, end, code, head, rest);
      }
    }
  }

  /** The layout of the first branch of a chain. */
  lemma LayoutHere(s: Stmt, i: nat, at: int, end: int, code: seq<Inst>, c: seq<Inst>,
                   sc: seq<Inst>, rest: seq<Inst>)
    requires s.If? && |s.conds| == |s.scopes| && i < |s.scopes|
    requires |c| == ExprLen(s.conds[i]) && |c| + 1 + |sc| + 1 == BranchLen(s, i)
    requires code == c + [JZ(at + |c| + 1 + |sc| + 1)] + sc + [JMP(end)] + rest
    ensures JzAt(s, i, i) < JmpAt(s, i, i) < |code|
    ensures code[JzAt(s, i, i)] == JZ(at + JmpAt(s, i, i) + 1)
    ensures code[JmpAt(s, i, i)] == JMP(end)
  {
    assert BranchOffset(s, i, i + 1) == BranchLen(s, i) + BranchOffset(s, i + 1, i + 1);
    assert code[|c|] == JZ(at + |c| + 1 + |sc| + 1);
    assert code[|c| + 1 + |sc|] == JMP(end);
  }

  /** The layout of a later branch, shifted by the first branch's length. */
  lemma LayoutLater(s: Stmt, i: nat, j: nat, at: int, end: int, code: seq<Inst>,
                    head: seq<Inst>, rest: seq<Inst>)
    requires s.If? && |s.conds| == |s.scopes| && i < j < |s.scopes|
    requires code == head + rest && |head| == BranchLen(s, i)
    requires JzAt(s, i + 1, j) < JmpAt(s, i + 1, j) < |rest|
    requires rest[JzAt(s, i + 1, j)] == JZ(at + |head| + JmpAt(s, i + 1, j) + 1)
    requires rest[JmpAt(s, i + 1, j)] == JMP(end)
    ensures JzAt(s, i, j) < JmpAt(s, i, j) < |code|
    ensures code[JzAt(s, i, j)] == JZ(at + JmpAt(s, i, j) + 1)
    ensures code[JmpAt(s, i, j)] == JMP(end)
  {
    assert JzAt(s, i, j) == |head| + JzAt(s, i + 1, j);
    assert JmpAt(s, i, j) == |head| + JmpAt(s, i + 1, j);
    assert code[JzAt(s, i, j)] == rest[JzAt(s, i + 1, j)];
    assert code[JmpAt(s, i, j)] == rest[JmpAt(s, i + 1, j)];
  }

  /** For a whole if statement compiled at `base`: JZ `j` goes to the start
      of branch `j + 1` (or of the else scope / the end for the last one),
      just past branch `j`'s JMP, and every trailing JMP goes to the
      instruction count after the else scope. */
  lemma IfChainLayout(s: Stmt, base: int)
    requires s.If? && StmtCode(s, base).Ok?
    ensures |s.conds| == |s.scopes|
    ensures var code := StmtCode(s, base).value;
      forall j | 0 <= j < |s.scopes| ::
        JzAt(s, 0, j) < JmpAt(s, 0, j) < |code| &&
        code[JzAt(s, 0, j)] == JZ(base + JmpAt(s, 0, j) + 1) &&
        code[JmpAt(s, 0, j)] == JMP(base + |code|)
  {
    var end := base + StmtLen(s);
    StmtCodeLen(s, base);
    BranchesLen(s, 0, base, end);
    BranchesLayout(s, 0, base, end);
    var bs := Branches(s, 0, base, end).value;
    var code := StmtCode(s, base).value;
    assert code[..|bs|] == bs;
    forall j | 0 <= j < |s.scopes|
      ensures JzAt(s, 0, j) < JmpAt(s, 0, j) < |code|
      ensures code[JzAt(s, 0, j)] == JZ(base + JmpAt(s, 0, j) + 1)
      ensures code[JmpAt(s, 0, j)] == JMP(base + |code|)
    {
      assert code[JzAt(s, 0, j)] == bs[JzAt(s, 0, j)];
      assert code[JmpAt(s, 0, j)] == bs[JmpAt(s, 0, j)];
    }
  }

  // ---------------------------------------------------------------------
  // The code generator on the instruction buffer

  /** `r` reports the same outcome as `spec`, and on success exactly the
      specified code was appended to `before`. */
  predicate Emitted(r: Result<()>, spec: Result<seq<Inst>>, before: seq<Inst>, after: seq<Inst>) {
    match spec
    case Ok(c) => r.Ok? && after == before + c
    case Err(m) => r.Err? && r.msg == m
  }

  /** `compile_expression(vm, expr)`. */
  method CompileExpression(vm: VM, e: Expr) returns (r: Result<()>)
    modifies vm`insts
    ensures Emitted(r, ExprCode(e), old(vm.insts), vm.insts)
    decreases e
  {
    match e {
      case Unary(op, right) =>
        r := CompileExpression(vm, right);
        if r.Err? { return; }
        vm.Emit(OP(op));
      case Binary(op, left, right) =>
        r := CompileExpression(vm, left);
        if r.Err? { return; }
        r := CompileExpression(vm, right);
        if r.Err? { return; }
        vm.Emit(OP(op));
      case Index(_, _) =>
        r := Err(MSG_INDEX);
      case Funcall(_, _) =>
        r := Ok(());
      case Name(_, _) =>
        r := Ok(());
      case Literal(v) =>
        vm.Emit(PUSHO(v));
        r := Ok(());
    }
  }

  /** `compile_statement(vm, stmt)`. */
  method CompileStatement(vm: VM, s: Stmt) returns (r: Result<()>)
    modifies vm`insts
    ensures Emitted(r, StmtCode(s, |old(vm.insts)|), old(vm.insts), vm.insts)
    decreases s, 1
  {
    match s {
      case ExprStmt(e) =>
        r := CompileExpression(vm, e);
        if r.Err? { return; }
        vm.Emit(POPO);
      case Assign(_, _) =>
        r := Ok(());
      case Decl(_) =>
        r := Ok(());
      case If(_, _, _) =>
        r := CompileIf(vm, s);
      case While(_, _) =>
        r := Ok(());
      case Return(_) =>
        r := Ok(());
      case Scope(_) =>
        r := CompileScope(vm, s);
    }
  }

  /** The `STMT_SCOPE` case: the body's statements in order. */
  method CompileScope(vm: VM, s: Stmt) returns (r: Result<()>)
    requires s.Scope?
    modifies vm`insts
    ensures Emitted(r, StmtCode(s, |old(vm.insts)|), old(vm.insts), vm.insts)
    decreases s, 0
  {
    ghost var base := |vm.insts|;
    var i := 0;
    assert vm.insts[base..] == [];
    assert Prepend([], BodyCode(s, 0, base)) == BodyCode(s, 0, base) by {
      if BodyCode(s, 0, base).Ok? { assert [] + BodyCode(s, 0, base).value == BodyCode(s, 0, base).value; }
    }
    while i < |s.body|
      invariant 0 <= i <= |s.body|
      invariant base <= |vm.insts| && vm.insts[..base] == old(vm.insts)
      invariant Prepend(vm.insts[base..], BodyCode(s, i, |vm.insts|)) == BodyCode(s, 0, base)
    {
      ghost var before := vm.insts;
      r := CompileStatement(vm, s.body[i]);
      if r.Err? {
        return;
      }
      ghost var c := StmtCode(s.body[i], |before|).value;
      assert vm.insts[base..] == before[base..] + c;
      ghost var rest := BodyCode(s, i + 1, |vm.insts|);
      assert Prepend(before[base..], Prepend(c, rest)) == Prepend(before[base..] + c, rest) by {
        if rest.Ok? { assert before[base..] + (c + rest.value) == (before[base..] + c) + rest.value; }
      }
      i := i + 1;
    }
    assert vm.insts == old(vm.insts) + vm.insts[base..];
    r := Ok(());
  }

  /** What one pass of the branch loop leaves: branch `i`'s code with its
      trailing JMP still the placeholder, whose position is `jmp`. */
  predicate BranchEmitted(r: Result<()>, jmp: int, spec: Result<seq<Inst>>,
                          before: seq<Inst>, after: seq<Inst>) {
    match spec
    case Ok(h) =>
      r.Ok? && |h| > 0 && jmp == |before| + |h| - 1 &&
      after == before + h[..|h| - 1] + [JMP(0)]
    case Err(m) => r.Err? && r.msg == m
  }

  /** One pass of the branch loop of the `STMT_IF` case: the condition, a
      JZ placeholder, the branch's scope, a JMP placeholder, then the JZ
      patched to the current count. */
  method CompileBranch(vm: VM, s: Stmt, i: nat, ghost end: int) returns (r: Result<()>, jmp: int)
    requires s.If? && |s.conds| == |s.scopes| && i < |s.scopes|
    modifies vm`insts
    ensures BranchEmitted(r, jmp, BranchHead(s, i, |old(vm.insts)|, end), old(vm.insts), vm.insts)
    decreases s, 0, 0
  {
    jmp := 0;
    r := CompileExpression(vm, s.conds[i]);
    if r.Err? {
      return;
    }
    var jz := |vm.insts|;
    vm.Emit(JZ(0));
    r := CompileStatement(vm, s.scopes[i]);
    if r.Err? {
      return;
    }
    jmp := |vm.insts|;
    vm.Emit(JMP(0));
    vm.Patch(jz, JZ(|vm.insts|));
    ghost var c := ExprCode(s.conds[i]).value;
    ghost var sc := StmtCode(s.scopes[i], jz + 1).value;
    ghost var h := c + [JZ(|vm.insts|)] + sc + [JMP(end)];
    assert BranchHead(s, i, |old(vm.insts)|, end) == Ok(h);
    assert h[..|h| - 1] == c + [JZ(|vm.insts|)] + sc;
  }

  /** The final loop of the `STMT_IF` case: every remembered JMP
      placeholder is patched to the instruction count. */
  method PatchJumps(vm: VM, jmps: seq<int>, ghost base: int, ghost full: seq<Inst>)
    requires 0 <= base && |vm.insts| == base + |full|
    requires forall a, b :: 0 <= a < b < |jmps| ==> jmps[a] < jmps[b]
    requires forall k :: 0 <= k < |jmps| ==>
      base <= jmps[k] < |vm.insts| && full[jmps[k] - base] == JMP(|vm.insts|)
    requires forall j :: base <= j < |vm.insts| ==>
      vm.insts[j] == if j in jmps then JMP(0) else full[j - base]
    modifies vm`insts
    ensures vm.insts == old(vm.insts[..base]) + full
  {
    var k := 0;
    while k < |jmps|
      invariant 0 <= k <= |jmps| && |vm.insts| == base + |full|
      invariant vm.insts[..base] == old(vm.insts[..base])
      invariant forall j :: base <= j < |vm.insts| ==>
        vm.insts[j] == if j in jmps[k..] then JMP(0) else full[j - base]
    {
      vm.Patch(jmps[k], JMP(|vm.insts|));
      k := k + 1;
    }
    assert vm.insts == vm.insts[..base] + full;
  }

  /** The placeholders of an if chain under way: `insts` holds `done` from
      `base` on, except that every position in `jmps` (in increasing order)
      still holds the `JMP(0)` placeholder where `done` has `JMP(end)`. */
  predicate Placeholders(insts: seq<Inst>, base: int, done: seq<Inst>, jmps: seq<int>, end: int) {
    0 <= base && |insts| == base + |done| &&
    (forall a, b :: 0 <= a < b < |jmps| ==> jmps[a] < jmps[b]) &&
    (forall k :: 0 <= k < |jmps| ==> base <= jmps[k] < |insts| && done[jmps[k] - base] == JMP(end)) &&
    (forall j :: base <= j < |insts| ==> insts[j] == if j in jmps then JMP(0) else done[j - base])
  }

  /** One pass of the branch loop of the `STMT_IF` case, with the loop's
      bookkeeping: the new placeholder is remembered in `jmps`. */
  method BranchPass(vm: VM, s: Stmt, i: nat, ghost end: int, ghost base: int,
                    jmps: seq<int>, ghost done: seq<Inst>)
    returns (r: Result<()>, jmps': seq<int>, ghost done': seq<Inst>)
    requires s.If? && |s.conds| == |s.scopes| && i < |s.scopes|
    requires Placeholders(vm.insts, base, done, jmps, end)
    requires Prepend(done, Branches(s, i, |vm.insts|, end)) == Branches(s, 0, base, end)
    modifies vm`insts
    ensures r.Err? ==> Branches(s, 0, base, end) == Err(r.msg)
    ensures r.Ok? ==> Placeholders(vm.insts, base, done', jmps', end)
    ensures r.Ok? ==> vm.insts[..base] == old(vm.insts[..base])
    ensures r.Ok? ==> Prepend(done', Branches(s, i + 1, |vm.insts|, end)) == Branches(s, 0, base, end)
    decreases s, 0, 1
  {
    ghost var before := vm.insts;
    var jmp;
    r, jmp := CompileBranch(vm, s, i, end);
    jmps' := jmps;
    done' := done;
    if r.Err? {
      BranchFailed(s, i, base, end, done, r);
    } else {
      ghost var h := BranchHead(s, i, |before|, end).value;
      BranchDone(s, i, base, end, before, vm.insts, done, jmp);
      AppendBranch(vm.insts, before, jmps, jmp, base, done, h, end);
      PrefixKept(before, h[..|h| - 1] + [JMP(0)], base);
      jmps' := jmps + [jmp];
      done' := done + h;
    }
  }

  /** The branch loop of the `STMT_IF` case: every branch in turn,
      remembering where its JMP placeholder is. */
  method CompileBranches(vm: VM, s: Stmt, ghost end: int)
    returns (r: Result<()>, jmps: seq<int>, ghost done: seq<Inst>)
    requires s.If? && |s.conds| == |s.scopes|
    modifies vm`insts
    ensures r.Err? ==> Branches(s, 0, |old(vm.insts)|, end) == Err(r.msg)
    ensures r.Ok? ==> Branches(s, 0, |old(vm.insts)|, end) == Ok(done)
    ensures r.Ok? ==> Placeholders(vm.insts, |old(vm.insts)|, done, jmps, end)
    ensures r.Ok? ==> vm.insts[..|old(vm.insts)|] == old(vm.insts)
    decreases s, 0, 2
  {
    ghost var base := |vm.insts|;
    jmps := [];
    done := [];
    r := Ok(());
    var i := 0;
    assert Prepend([], Branches(s, 0, base, end)) == Branches(s, 0, base, end) by {
      if Branches(s, 0, base, end).Ok? { assert [] + Branches(s, 0, base, end).value == Branches(s, 0, base, end).value; }
    }
    while i < |s.conds|
      invariant 0 <= i <= |s.conds| && r.Ok?
      invariant Placeholders(vm.insts, base, done, jmps, end)
      invariant vm.insts[..base] == old(vm.insts)
      invariant Prepend(done, Branches(s, i, |vm.insts|, end)) == Branches(s, 0, base, end)
    {
      r, jmps, done := BranchPass(vm, s, i, end, base, jmps, done);
      if r.Err? {
        return;
      }
      i := i + 1;
    }
    assert Branches(s, i, |vm.insts|, end) == Ok([]);
    assert done + [] == done;
  }

  /** The `STMT_IF` case: the branches; the else scope; then the JMP
      placeholders patched to the final instruction count. */
  method CompileIf(vm: VM, s: Stmt) returns (r: Result<()>)
    requires s.If?
    modifies vm`insts
    ensures Emitted(r, StmtCode(s, |old(vm.insts)|), old(vm.insts), vm.insts)
    decreases s, 0, 3
  {
    if |s.conds| != |s.scopes| {
      return Err(MSG_IF_COUNTS);
    }
    ghost var base := |vm.insts|;
    ghost var end := base + StmtLen(s);
    var jmps;
    ghost var done;
    r, jmps, done := CompileBranches(vm, s, end);
    if r.Err? {
      return;
    }
    ghost var mid := vm.insts;
    ghost var ec: seq<Inst> := [];
    if s.elseScope.Some? {
      r := CompileStatement(vm, s.elseScope.value);
      if r.Err? {
        assert StmtCode(s, base) == Prepend(done, StmtCode(s.elseScope.value, |mid|));
        return;
      }
      ec := StmtCode(s.elseScope.value, |mid|).value;
    }
    IfDone(s, base, done, ec, jmps, mid, vm.insts);
    PatchJumps(vm, jmps, base, done + ec);
    r := Ok(());
  }

  /** After the else scope, the buffer is the whole if statement's code
      but for the JMP placeholders, which are to be patched to its end. */
  lemma IfDone(s: Stmt, base: int, done: seq<Inst>, ec: seq<Inst>, jmps: seq<int>,
               mid: seq<Inst>, after: seq<Inst>)
    requires s.If? && |s.conds| == |s.scopes|
    requires Branches(s, 0, base, base + StmtLen(s)) == Ok(done)
    requires Placeholders(mid, base, done, jmps, base + StmtLen(s))
    requires after == mid + ec
    requires if s.elseScope.Some? then StmtCode(s.elseScope.value, |mid|) == Ok(ec) else ec == []
    ensures StmtCode(s, base) == Ok(done + ec)
    ensures after[..base] == mid[..base] && |after| == base + |done + ec|
    ensures forall a, b :: 0 <= a < b < |jmps| ==> jmps[a] < jmps[b]
    ensures forall k :: 0 <= k < |jmps| ==>
      base <= jmps[k] < |after| && (done + ec)[jmps[k] - base] == JMP(|after|)
    ensures forall j :: base <= j < |after| ==>
      after[j] == if j in jmps then JMP(0) else (done + ec)[j - base]
  {
    if s.elseScope.Some? {
      assert StmtCode(s, base) == Prepend(done, StmtCode(s.elseScope.value, base + |done|));
    } else {
      assert done + ec == done;
    }
    StmtCodeLen(s, base);
    AppendElse(after, mid, jmps, base, done, ec, base + StmtLen(s));
  }

  /** The bookkeeping of the else scope of the `STMT_IF` case. */
  lemma AppendElse(after: seq<Inst>, mid: seq<Inst>, jmps: seq<int>,
                   base: int, done: seq<Inst>, ec: seq<Inst>, end: int)
    requires 0 <= base && |mid| == base + |done| && after == mid + ec
    requires forall k :: 0 <= k < |jmps| ==>
      base <= jmps[k] < |mid| && done[jmps[k] - base] == JMP(end)
    requires forall j :: base <= j < |mid| ==>
      mid[j] == if j in jmps then JMP(0) else done[j - base]
    ensures forall k :: 0 <= k < |jmps| ==>
      base <= jmps[k] < |after| && (done + ec)[jmps[k] - base] == JMP(end)
    ensures forall j :: base <= j < |after| ==>
      after[j] == if j in jmps then JMP(0) else (done + ec)[j - base]
  {
    forall j | base <= j < |after|
      ensures after[j] == if j in jmps then JMP(0) else (done + ec)[j - base]
    {
      if j >= |mid| {
        assert j !in jmps;
      }
    }
  }

  /** The invariant of the branch loop survives one pass. */
  lemma BranchDone(s: Stmt, i: nat, base: int, end: int, before: seq<Inst>, after: seq<Inst>,
                   done: seq<Inst>, jmp: int)
    requires s.If? && |s.conds| == |s.scopes| && i < |s.scopes|
    requires Prepend(done, Branches(s, i, |before|, end)) == Branches(s, 0, base, end)
    requires BranchEmitted(Ok(()), jmp, BranchHead(s, i, |before|, end), before, after)
    ensures BranchHead(s, i, |before|, end).Ok?
    ensures var h := BranchHead(s, i, |before|, end).value;
      |h| > 0 && h[|h| - 1] == JMP(end) && jmp == |before| + |h| - 1 &&
      after == before + h[..|h| - 1] + [JMP(0)] && |after| == |before| + |h| &&
      Prepend(done + h, Branches(s, i + 1, |after|, end)) == Branches(s, 0, base, end)
  {
    var h := BranchHead(s, i, |before|, end).value;
    BranchesStep(s, i, |before|, |after|, end, h);
    var rest := Branches(s, i + 1, |after|, end);
    assert Prepend(done, Prepend(h, rest)) == Prepend(done + h, rest) by {
      if rest.Ok? { assert done + (h + rest.value) == (done + h) + rest.value; }
    }
  }

  /** One branch of the chain, when its head compiles. */
  lemma BranchesStep(s: Stmt, i: nat, at: int, next: int, end: int, h: seq<Inst>)
    requires s.If? && |s.conds| == |s.scopes| && i < |s.scopes| && BranchHead(s, i, at, end) == Ok(h)
    requires next == at + |h|
    ensures Branches(s, i, at, end) == Prepend(h, Branches(s, i + 1, next, end))
  {
  }

  /** Appending keeps every prefix. */
  lemma PrefixKept(before: seq<Inst>, tail: seq<Inst>, base: int)
    requires 0 <= base <= |before|
    ensures (before + tail)[..base] == before[..base]
  {
  }

  /** A failing branch fails the whole chain with its message. */
  lemma BranchFailed(s: Stmt, i: nat, base: int, end: int, done: seq<Inst>, r: Result<()>)
    requires s.If? && |s.conds| == |s.scopes| && i < |s.scopes|
    requires Prepend(done, Branches(s, i, base + |done|, end)) == Branches(s, 0, base, end)
    requires r.Err? && BranchHead(s, i, base + |done|, end) == Err(r.msg)
    ensures Branches(s, 0, base, end) == Err(r.msg)
  {
  }

  /** The bookkeeping of one pass of the branch loop. */
  lemma AppendBranch(after: seq<Inst>, before: seq<Inst>, jmps: seq<int>, jmp: int,
                     base: int, done: seq<Inst>, h: seq<Inst>, end: int)
    requires Placeholders(before, base, done, jmps, end)
    requires |h| > 0 && h[|h| - 1] == JMP(end)
    requires jmp == |before| + |h| - 1 && after == before + h[..|h| - 1] + [JMP(0)]
    ensures Placeholders(after, base, done + h, jmps + [jmp], end)
  {
    var jmps' := jmps + [jmp];
    assert forall a, b :: 0 <= a < b < |jmps'| ==> jmps'[a] < jmps'[b] by {
      assert forall k :: 0 <= k < |jmps| ==> jmps'[k] == jmps[k] < |before| <= jmp;
    }
    forall k | 0 <= k < |jmps'|
      ensures base <= jmps'[k] < |after| && (done + h)[jmps'[k] - base] == JMP(end)
    {
      if k < |jmps| {
        assert jmps'[k] == jmps[k];
      }
    }
    forall j | base <= j < |after|
      ensures after[j] == if j in jmps' then JMP(0) else (done + h)[j - base]
    {
      if j < |before| {
        assert j in jmps' <==> j in jmps;
      } else if j < jmp {
        assert j !in jmps';
        assert after[j] == h[j - |before|];
      }
    }
  }

  /** `compile_function(vm, func)`: `ip_start` is the instruction count on
      entry, then the body is compiled. */
  method CompileFunction(vm: VM, f: Function) returns (f': Function, r: Result<()>)
    modifies vm`insts
    ensures f' == f.(ipStart := |old(vm.insts)|)
    ensures Emitted(r, StmtCode(f.body, |old(vm.insts)|), old(vm.insts), vm.insts)
  {
    f' := f.(ipStart := |vm.insts|);
    r := CompileStatement(vm, f.body);
  }
}
