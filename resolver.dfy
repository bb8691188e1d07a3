/** The declaration resolver of compiler.c (`tag_names_in_expr`,
    `tag_names`, `read_declarations`, `read_function_decls`,
    `prepare_function`). The C code overwrites the `decl_pos` of name nodes
    in place; here the syntax tree is a value and each operation returns the
    retagged tree.

    `Resolve` is an independent, lexically scoped reference: it walks a
    statement with an environment from names to slots, and a declaration
    extends the environment for the rest of its scope only. The C algorithm
    instead retags, at each declaration, every same-named reference in the
    rest of the scope including nested scopes, and lets later (inner)
    declarations overwrite those tags; `ReadDeclarations` follows that
    algorithm and is proved to compute `Resolve`. */
module Resolver {
  import opened Common
  import opened Ast

  /** Slot numbers of the names declared so far. */
  type Env = map<nat, int>

  // ---------------------------------------------------------------------
  // Retagging: what a sequence of `tag_names` calls does

  /** Every name node whose name is in `env` gets `env`'s slot. */
  function RetagExpr(e: Expr, env: Env): Expr
    decreases e
  {
    match e
    case Unary(op, x) => Unary(op, RetagExpr(x, env))
    case Binary(op, l, r) => Binary(op, RetagExpr(l, env), RetagExpr(r, env))
    case Index(b, i) => Index(RetagExpr(b, env), RetagExpr(i, env))
    case Funcall(c, args) =>
      Funcall(RetagExpr(c, env), seq(|args|, k requires 0 <= k < |args| => RetagExpr(args[k], env)))
    case Name(n, _) => if n in env then Name(n, env[n]) else e
    case Literal(_) => e
  }

  function RetagStmt(s: Stmt, env: Env): Stmt
    decreases s
  {
    match s
    case ExprStmt(e) => ExprStmt(RetagExpr(e, env))
    case Assign(l, r) => Assign(RetagExpr(l, env), RetagExpr(r, env))
    case Decl(_) => s
    case If(conds, scopes, els) =>
      If(seq(|conds|, k requires 0 <= k < |conds| => RetagExpr(conds[k], env)),
         seq(|scopes|, k requires 0 <= k < |scopes| => RetagStmt(scopes[k], env)),
         if els.Some? then Some(RetagStmt(els.value, env)) else None)
    case While(c, sc) => While(RetagExpr(c, env), RetagStmt(sc, env))
    case Return(e) => Return(RetagExpr(e, env))
    case Scope(body) => Scope(seq(|body|, k requires 0 <= k < |body| => RetagStmt(body[k], env)))
  }

  /** Retagging with the empty environment changes nothing. */
  lemma {:induction false} RetagExprEmpty(e: Expr)
    ensures RetagExpr(e, map[]) == e
    decreases e
  {
    match e
    case Unary(_, x) => RetagExprEmpty(x);
    case Binary(_, l, r) => RetagExprEmpty(l); RetagExprEmpty(r);
    case Index(b, i) => RetagExprEmpty(b); RetagExprEmpty(i);
    case Funcall(c, args) =>
      RetagExprEmpty(c);
      forall k | 0 <= k < |args| ensures RetagExpr(args[k], map[]) == args[k] {
        RetagExprEmpty(args[k]);
      }
    case _ =>
  }

  lemma {:induction false} RetagStmtEmpty(s: Stmt)
    ensures RetagStmt(s, map[]) == s
    decreases s
  {
    match s
    case ExprStmt(e) => RetagExprEmpty(e);
    case Assign(l, r) => RetagExprEmpty(l); RetagExprEmpty(r);
    case Decl(_) =>
    case If(conds, scopes, els) =>
      forall k | 0 <= k < |conds| ensures RetagExpr(conds[k], map[]) == conds[k] {
        RetagExprEmpty(conds[k]);
      }
      forall k | 0 <= k < |scopes| ensures RetagStmt(scopes[k], map[]) == scopes[k] {
        RetagStmtEmpty(scopes[k]);
      }
      if els.Some? {
        RetagStmtEmpty(els.value);
      }
    case While(c, sc) => RetagExprEmpty(c); RetagStmtEmpty(sc);
    case Return(e) => RetagExprEmpty(e);
    case Scope(body) =>
      forall k | 0 <= k < |body| ensures RetagStmt(body[k], map[]) == body[k] {
        RetagStmtEmpty(body[k]);
      }
  }

  /** Retagging twice is retagging once with the later environment
      overriding the earlier one: later tags overwrite earlier ones. */
  lemma {:induction false} RetagExprCompose(e: Expr, e1: Env, e2: Env)
    ensures RetagExpr(RetagExpr(e, e1), e2) == RetagExpr(e, e1 + e2)
    decreases e
  {
    match e
    case Unary(_, x) => RetagExprCompose(x, e1, e2);
    case Binary(_, l, r) => RetagExprCompose(l, e1, e2); RetagExprCompose(r, e1, e2);
    case Index(b, i) => RetagExprCompose(b, e1, e2); RetagExprCompose(i, e1, e2);
    case Funcall(c, args) =>
      RetagExprCompose(c, e1, e2);
      forall k | 0 <= k < |args|
        ensures RetagExpr(RetagExpr(args[k], e1), e2) == RetagExpr(args[k], e1 + e2)
      {
        RetagExprCompose(args[k], e1, e2);
      }
    case _ =>
  }

  lemma {:induction false} RetagStmtCompose(s: Stmt, e1: Env, e2: Env)
    ensures RetagStmt(RetagStmt(s, e1), e2) == RetagStmt(s, e1 + e2)
    decreases s
  {
    match s
    case ExprStmt(e) => RetagExprCompose(e, e1, e2);
    case Assign(l, r) => RetagExprCompose(l, e1, e2); RetagExprCompose(r, e1, e2);
    case Decl(_) =>
    case If(conds, scopes, els) =>
      forall k | 0 <= k < |conds|
        ensures RetagExpr(RetagExpr(conds[k], e1), e2) == RetagExpr(conds[k], e1 + e2)
      {
        RetagExprCompose(conds[k], e1, e2);
      }
      forall k | 0 <= k < |scopes|
        ensures RetagStmt(RetagStmt(scopes[k], e1), e2) == RetagStmt(scopes[k], e1 + e2)
      {
        RetagStmtCompose(scopes[k], e1, e2);
      }
      if els.Some? {
        RetagStmtCompose(els.value, e1, e2);
      }
    case While(c, sc) => RetagExprCompose(c, e1, e2); RetagStmtCompose(sc, e1, e2);
    case Return(e) => RetagExprCompose(e, e1, e2);
    case Scope(body) =>
      forall k | 0 <= k < |body|
        ensures RetagStmt(RetagStmt(body[k], e1), e2) == RetagStmt(body[k], e1 + e2)
      {
        RetagStmtCompose(body[k], e1, e2);
      }
  }

  // ---------------------------------------------------------------------
  // Where `tag_names` may go without tripping its assertion

  /** Every if branch, else branch and while body is a scope block, all the
      way down: `tag_names` asserts this of every statement it recurses
      into. */
  predicate WellScoped(s: Stmt)
    decreases s
  {
    match s
    case If(_, scopes, els) =>
      (forall j | 0 <= j < |scopes| :: scopes[j].Scope? && WellScoped(scopes[j])) &&
      (els.Some? ==> els.value.Scope? && WellScoped(els.value))
    case While(_, sc) => sc.Scope? && WellScoped(sc)
    case Scope(body) => forall k | 0 <= k < |body| :: WellScoped(body[k])
    case _ => true
  }

  /** `read_declarations` calls `tag_names` on the rest of a scope at each
      declaration, so that rest has to be well scoped. */
  predicate DeclsScoped(s: Stmt)
    decreases s
  {
    match s
    case If(_, scopes, els) =>
      (forall j | 0 <= j < |scopes| :: DeclsScoped(scopes[j])) &&
      (els.Some? ==> DeclsScoped(els.value))
    case While(_, sc) => DeclsScoped(sc)
    case Scope(body) =>
      forall i | 0 <= i < |body| ::
        DeclsScoped(body[i]) &&
        (body[i].Decl? ==> forall k | i <= k < |body| :: WellScoped(body[k]))
    case _ => true
  }

  lemma {:induction false} RetagWellScoped(s: Stmt, env: Env)
    ensures WellScoped(RetagStmt(s, env)) == WellScoped(s)
    decreases s
  {
    match s
    case If(conds, scopes, els) =>
      forall j | 0 <= j < |scopes| ensures WellScoped(RetagStmt(scopes[j], env)) == WellScoped(scopes[j]) {
        RetagWellScoped(scopes[j], env);
      }
      var t := RetagStmt(s, env);
      assert forall j | 0 <= j < |scopes| :: t.scopes[j] == RetagStmt(scopes[j], env);
      if els.Some? {
        assert t.elseScope == Some(RetagStmt(els.value, env));
        RetagWellScoped(els.value, env);
      }
    case While(_, sc) => RetagWellScoped(sc, env);
    case Scope(body) =>
      var t := RetagStmt(s, env);
      forall k | 0 <= k < |body| ensures WellScoped(t.body[k]) == WellScoped(body[k]) {
        assert t.body[k] == RetagStmt(body[k], env);
        RetagWellScoped(body[k], env);
      }
    case _ =>
  }

  // ---------------------------------------------------------------------
  // The reference: lexically scoped resolution

  datatype Resolution = Resolution(stmt: Stmt, decls: seq<Declaration>)
  datatype Resolutions = Resolutions(stmts: seq<Stmt>, decls: seq<Declaration>)

  /** `s` with every name tagged by the innermost preceding declaration in
      scope (`env`, extended by the declarations met so far), names with no
      such declaration left as they are, and the declarations `s` holds in
      walking order, the first one getting slot `count`. */
  function Resolve(s: Stmt, env: Env, count: nat): Resolution
    decreases s, 1, 0
  {
    match s
    case ExprStmt(e) => Resolution(ExprStmt(RetagExpr(e, env)), [])
    case Assign(l, r) => Resolution(Assign(RetagExpr(l, env), RetagExpr(r, env)), [])
    case Decl(_) => Resolution(s, [])
    case If(conds, scopes, els) =>
      var bs := ResolveBranches(s, 0, env, count);
      var conds' := seq(|conds|, k requires 0 <= k < |conds| => RetagExpr(conds[k], env));
      if els.None? then Resolution(If(conds', bs.stmts, None), bs.decls)
      else
        var er := Resolve(els.value, env, count + |bs.decls|);
        Resolution(If(conds', bs.stmts, Some(er.stmt)), bs.decls + er.decls)
    case While(c, sc) =>
      var r := Resolve(sc, env, count);
      Resolution(While(RetagExpr(c, env), r.stmt), r.decls)
    case Return(e) => Resolution(Return(RetagExpr(e, env)), [])
    case Scope(body) =>
      var b := ResolveBody(s, 0, env, count);
      Resolution(Scope(b.stmts), b.decls)
  }

  /** The branch scopes `j..` of an if statement, each in the environment
      of the if statement, the slots continuing across them. */
  function ResolveBranches(s: Stmt, j: nat, env: Env, count: nat): Resolutions
    requires s.If? && j <= |s.scopes|
    decreases s, 0, |s.scopes| - j
  {
    if j == |s.scopes| then Resolutions([], [])
    else
      var r := Resolve(s.scopes[j], env, count);
      var rest := ResolveBranches(s, j + 1, env, count + |r.decls|);
      Resolutions([r.stmt] + rest.stmts, r.decls + rest.decls)
  }

  /** The statements `i..` of a scope: a declaration takes the next slot and
      is in scope for the statements after it. */
  function ResolveBody(s: Stmt, i: nat, env: Env, count: nat): Resolutions
    requires s.Scope? && i <= |s.body|
    decreases s, 0, |s.body| - i
  {
    if i == |s.body| then Resolutions([], [])
    else if s.body[i].Decl? then
      var n := s.body[i].declName;
      var rest := ResolveBody(s, i + 1, env[n := count], count + 1);
      Resolutions([s.body[i]] + rest.stmts, [Declaration(n, WORD_SIZE, count)] + rest.decls)
    else
      var r := Resolve(s.body[i], env, count);
      var rest := ResolveBody(s, i + 1, env, count + |r.decls|);
      Resolutions([r.stmt] + rest.stmts, r.decls + rest.decls)
  }

  /** Resolving a statement whose names already carry the tags of `e1` is
      resolving the untagged statement with `e1` in the environment: this is
      why retagging forward at each declaration, and letting inner
      declarations retag again, is lexical scoping. */
  lemma {:induction false} ResolveRetagged(s: Stmt, e1: Env, e2: Env, count: nat)
    ensures Resolve(RetagStmt(s, e1), e2, count) == Resolve(s, e1 + e2, count)
    decreases s, 1, 0
  {
    match s
    case ExprStmt(e) => RetagExprCompose(e, e1, e2);
    case Assign(l, r) => RetagExprCompose(l, e1, e2); RetagExprCompose(r, e1, e2);
    case Decl(_) =>
    case If(_, _, _) => IfRetagged(s, e1, e2, count);
    case While(c, sc) => RetagExprCompose(c, e1, e2); ResolveRetagged(sc, e1, e2, count);
    case Return(e) => RetagExprCompose(e, e1, e2);
    case Scope(body) => BodyRetagged(s, 0, e1, e2, count);
  }

  /** Retagging the conditions of an if statement twice is retagging
      them once in the combined environment. */
  lemma CondsCompose(conds: seq<Expr>, e1: Env, e2: Env)
    ensures var c1 := seq(|conds|, k requires 0 <= k < |conds| => RetagExpr(conds[k], e1));
      seq(|c1|, k requires 0 <= k < |c1| => RetagExpr(c1[k], e2)) ==
      seq(|conds|, k requires 0 <= k < |conds| => RetagExpr(conds[k], e1 + e2))
  {
    forall k | 0 <= k < |conds|
      ensures RetagExpr(RetagExpr(conds[k], e1), e2) == RetagExpr(conds[k], e1 + e2)
    {
      RetagExprCompose(conds[k], e1, e2);
    }
  }

  /** The if case of `ResolveRetagged`. */
  lemma {:induction false} IfRetagged(s: Stmt, e1: Env, e2: Env, count: nat)
    requires s.If?
    ensures Resolve(RetagStmt(s, e1), e2, count) == Resolve(s, e1 + e2, count)
    decreases s, 0, |s.scopes| + 1
  {
    var t := RetagStmt(s, e1);
    CondsCompose(s.conds, e1, e2);
    BranchesRetagged(s, 0, e1, e2, count);
    var bs := ResolveBranches(s, 0, e1 + e2, count);
    assert ResolveBranches(t, 0, e2, count) == bs;
    if s.elseScope.Some? {
      assert t.elseScope == Some(RetagStmt(s.elseScope.value, e1));
      ResolveRetagged(s.elseScope.value, e1, e2, count + |bs.decls|);
    }
  }

  lemma {:induction false} BranchesRetagged(s: Stmt, j: nat, e1: Env, e2: Env, count: nat)
    requires s.If? && j <= |s.scopes|
    ensures ResolveBranches(RetagStmt(s, e1), j, e2, count) == ResolveBranches(s, j, e1 + e2, count)
    decreases s, 0, |s.scopes| - j
  {
    if j < |s.scopes| {
      var t := RetagStmt(s, e1);
      assert t.scopes[j] == RetagStmt(s.scopes[j], e1);
      ResolveRetagged(s.scopes[j], e1, e2, count);
      var r := Resolve(s.scopes[j], e1 + e2, count);
      BranchesRetagged(s, j + 1, e1, e2, count + |r.decls|);
      BranchStep(s, t, j, e2, e1 + e2, count);
    }
  }

  /** One step of `ResolveBranches`, for two if statements whose branch
      `j` resolves alike and whose later branches resolve alike. */
  lemma BranchStep(s: Stmt, t: Stmt, j: nat, e2: Env, env: Env, count: nat)
    requires s.If? && t.If? && j < |s.scopes| == |t.scopes|
    requires Resolve(t.scopes[j], e2, count) == Resolve(s.scopes[j], env, count)
    requires var r := Resolve(s.scopes[j], env, count);
      ResolveBranches(t, j + 1, e2, count + |r.decls|) == ResolveBranches(s, j + 1, env, count + |r.decls|)
    ensures ResolveBranches(t, j, e2, count) == ResolveBranches(s, j, env, count)
  {
  }

  lemma {:induction false} BodyRetagged(s: Stmt, i: nat, e1: Env, e2: Env, count: nat)
    requires s.Scope? && i <= |s.body|
    ensures ResolveBody(RetagStmt(s, e1), i, e2, count) == ResolveBody(s, i, e1 + e2, count)
    decreases s, 0, |s.body| - i
  {
    if i < |s.body| {
      var t := RetagStmt(s, e1);
      assert t.body[i] == RetagStmt(s.body[i], e1);
      if s.body[i].Decl? {
        var n := s.body[i].declName;
        BodyRetagged(s, i + 1, e1, e2[n := count], count + 1);
        assert e1 + e2[n := count] == (e1 + e2)[n := count];
        BodyDeclStep(s, t, i, e2, e1 + e2, count);
      } else {
        ResolveRetagged(s.body[i], e1, e2, count);
        var r := Resolve(s.body[i], e1 + e2, count);
        BodyRetagged(s, i + 1, e1, e2, count + |r.decls|);
        BodyStmtStep(s, t, i, e2, e1 + e2, count);
      }
    }
  }

  /** One declaration step of `ResolveBody`, for two scopes that agree on
      it and whose rests resolve alike. */
  lemma BodyDeclStep(s: Stmt, t: Stmt, i: nat, e2: Env, env: Env, count: nat)
    requires s.Scope? && t.Scope? && i < |s.body| == |t.body|
    requires s.body[i].Decl? && t.body[i] == s.body[i]
    requires var n := s.body[i].declName;
      ResolveBody(t, i + 1, e2[n := count], count + 1) == ResolveBody(s, i + 1, env[n := count], count + 1)
    ensures ResolveBody(t, i, e2, count) == ResolveBody(s, i, env, count)
  {
  }

  /** One statement step of `ResolveBody`, likewise. */
  lemma BodyStmtStep(s: Stmt, t: Stmt, i: nat, e2: Env, env: Env, count: nat)
    requires s.Scope? && t.Scope? && i < |s.body| == |t.body|
    requires !s.body[i].Decl? && !t.body[i].Decl?
    requires Resolve(t.body[i], e2, count) == Resolve(s.body[i], env, count)
    requires var r := Resolve(s.body[i], env, count);
      ResolveBody(t, i + 1, e2, count + |r.decls|) == ResolveBody(s, i + 1, env, count + |r.decls|)
    ensures ResolveBody(t, i, e2, count) == ResolveBody(s, i, env, count)
  {
  }

  // ---------------------------------------------------------------------
  // Slots: the k-th declaration met gets slot k

  /** The declared names of `s` in the order `read_declarations` meets
      them: scope bodies in order, if branches then the else branch, while
      bodies. */
  function DeclNames(s: Stmt): seq<nat>
    decreases s, 1, 0
  {
    match s
    case If(_, scopes, els) =>
      BranchNames(s, 0) + (if els.Some? then DeclNames(els.value) else [])
    case While(_, sc) => DeclNames(sc)
    case Scope(body) => BodyNames(s, 0)
    case _ => []
  }

  function BranchNames(s: Stmt, j: nat): seq<nat>
    requires s.If? && j <= |s.scopes|
    decreases s, 0, |s.scopes| - j
  {
    if j == |s.scopes| then [] else DeclNames(s.scopes[j]) + BranchNames(s, j + 1)
  }

  function BodyNames(s: Stmt, i: nat): seq<nat>
    requires s.Scope? && i <= |s.body|
    decreases s, 0, |s.body| - i
  {
    if i == |s.body| then []
    else if s.body[i].Decl? then [s.body[i].declName] + BodyNames(s, i + 1)
    else DeclNames(s.body[i]) + BodyNames(s, i + 1)
  }

  /** The `k`-th declaration met is named by the `k`-th declaration
      statement and gets slot `count + k` and one word. */
  predicate Slots(decls: seq<Declaration>, names: seq<nat>, count: nat) {
    |decls| == |names| &&
    forall k | 0 <= k < |decls| :: decls[k] == Declaration(names[k], WORD_SIZE, count + k)
  }

  lemma SlotsConcat(d1: seq<Declaration>, n1: seq<nat>, d2: seq<Declaration>, n2: seq<nat>, count: nat)
    requires Slots(d1, n1, count) && Slots(d2, n2, count + |d1|)
    ensures Slots(d1 + d2, n1 + n2, count)
  {
    forall k | 0 <= k < |d1 + d2|
      ensures (d1 + d2)[k] == Declaration((n1 + n2)[k], WORD_SIZE, count + k)
    {
      if k >= |d1| {
        assert (d1 + d2)[k] == d2[k - |d1|];
      }
    }
  }

  lemma {:induction false} ResolveSlots(s: Stmt, env: Env, count: nat)
    ensures Slots(Resolve(s, env, count).decls, DeclNames(s), count)
    decreases s, 1, 0
  {
    match s
    case If(_, scopes, els) =>
      BranchesSlots(s, 0, env, count);
      if els.Some? {
        var bs := ResolveBranches(s, 0, env, count);
        ResolveSlots(els.value, env, count + |bs.decls|);
        SlotsConcat(bs.decls, BranchNames(s, 0), Resolve(els.value, env, count + |bs.decls|).decls,
                    DeclNames(els.value), count);
      } else {
        assert BranchNames(s, 0) + [] == BranchNames(s, 0);
      }
    case While(_, sc) => ResolveSlots(sc, env, count);
    case Scope(_) => BodySlots(s, 0, env, count);
    case _ =>
  }

  lemma {:induction false} BranchesSlots(s: Stmt, j: nat, env: Env, count: nat)
    requires s.If? && j <= |s.scopes|
    ensures Slots(ResolveBranches(s, j, env, count).decls, BranchNames(s, j), count)
    decreases s, 0, |s.scopes| - j
  {
    if j < |s.scopes| {
      var r := Resolve(s.scopes[j], env, count);
      ResolveSlots(s.scopes[j], env, count);
      BranchesSlots(s, j + 1, env, count + |r.decls|);
      SlotsConcat(r.decls, DeclNames(s.scopes[j]),
                  ResolveBranches(s, j + 1, env, count + |r.decls|).decls, BranchNames(s, j + 1), count);
    }
  }

  lemma {:induction false} BodySlots(s: Stmt, i: nat, env: Env, count: nat)
    requires s.Scope? && i <= |s.body|
    ensures Slots(ResolveBody(s, i, env, count).decls, BodyNames(s, i), count)
    decreases s, 0, |s.body| - i
  {
    if i < |s.body| {
      if s.body[i].Decl? {
        var n := s.body[i].declName;
        BodySlots(s, i + 1, env[n := count], count + 1);
        SlotsConcat([Declaration(n, WORD_SIZE, count)], [n],
                    ResolveBody(s, i + 1, env[n := count], count + 1).decls, BodyNames(s, i + 1), count);
      } else {
        var r := Resolve(s.body[i], env, count);
        ResolveSlots(s.body[i], env, count);
        BodySlots(s, i + 1, env, count + |r.decls|);
        SlotsConcat(r.decls, DeclNames(s.body[i]),
                    ResolveBody(s, i + 1, env, count + |r.decls|).decls, BodyNames(s, i + 1), count);
      }
    }
  }

  // ---------------------------------------------------------------------
  // The C algorithm

  /** `tag_names_in_expr(expr, name, pos)`: every name node for `name`
      gets `pos`, the arguments of a call in a loop. */
  method TagNamesInExpr(e: Expr, name: nat, pos: int) returns (r: Expr)
    ensures r == RetagExpr(e, map[name := pos])
    decreases e
  {
    match e {
      case Unary(op, x) =>
        var x' := TagNamesInExpr(x, name, pos);
        r := Unary(op, x');
      case Index(b, i) =>
        var b' := TagNamesInExpr(b, name, pos);
        var i' := TagNamesInExpr(i, name, pos);
        r := Index(b', i');
      case Funcall(c, args) =>
        var c' := TagNamesInExpr(c, name, pos);
        var args' := args;
        var i := 0;
        while i < |args|
          invariant 0 <= i <= |args| && |args'| == |args|
          invariant forall k | 0 <= k < |args| ::
            args'[k] == if k < i then RetagExpr(args[k], map[name := pos]) else args[k]
        {
          var a := TagNamesInExpr(args[i], name, pos);
          args' := args'[i := a];
          i := i + 1;
        }
        r := Funcall(c', args');
      case Binary(op, left, right) =>
        var l' := TagNamesInExpr(left, name, pos);
        var r' := TagNamesInExpr(right, name, pos);
        r := Binary(op, l', r');
      case Name(n, _) =>
        r := if n == name then Name(n, pos) else e;
      case Literal(_) =>
        r := e;
    }
  }

  /** `tag_names(scope, start, name, pos)`: the statements of the scope
      from `start` on are retagged; the scope must be a scope block. */
  method TagNames(scope: Stmt, start: nat, name: nat, pos: int) returns (r: Stmt)
    requires scope.Scope? && forall k | start <= k < |scope.body| :: WellScoped(scope.body[k])
    ensures r.Scope? && |r.body| == |scope.body|
    ensures forall k | 0 <= k < |r.body| ::
      r.body[k] == if k < start then scope.body[k] else RetagStmt(scope.body[k], map[name := pos])
    decreases scope, 0
  {
    var body := scope.body;
    var i := start;
    while i < |scope.body|
      invariant |body| == |scope.body|
      invariant forall k | 0 <= k < |body| ::
        body[k] == if start <= k < i then RetagStmt(scope.body[k], map[name := pos]) else scope.body[k]
    {
      var it := TagStatement(scope.body[i], name, pos);
      body := body[i := it];
      i := i + 1;
    }
    r := Scope(body);
  }

  /** One turn of `tag_names`' loop: the switch on the statement. */
  method TagStatement(it: Stmt, name: nat, pos: int) returns (r: Stmt)
    requires WellScoped(it)
    ensures r == RetagStmt(it, map[name := pos])
    decreases it, 2
  {
    match it {
      case ExprStmt(e) =>
        var e' := TagNamesInExpr(e, name, pos);
        r := ExprStmt(e');
      case Assign(left, right) =>
        var l' := TagNamesInExpr(left, name, pos);
        var r' := TagNamesInExpr(right, name, pos);
        r := Assign(l', r');
      case If(_, _, _) =>
        r := TagIf(it, name, pos);
      case While(c, sc) =>
        var c' := TagNamesInExpr(c, name, pos);
        var sc' := TagNames(sc, 0, name, pos);
        assert sc'.body == RetagStmt(sc, map[name := pos]).body;
        r := While(c', sc');
      case Return(e) =>
        var e' := TagNamesInExpr(e, name, pos);
        r := Return(e');
      case Scope(_) =>
        r := TagNames(it, 0, name, pos);
        assert r.body == RetagStmt(it, map[name := pos]).body;
      case Decl(_) =>
        r := it;
    }
  }

  /** The `STMT_IF` case of `tag_names`: the conditions, then each branch
      scope, then the else scope. */
  method TagIf(it: Stmt, name: nat, pos: int) returns (r: Stmt)
    requires it.If? && WellScoped(it)
    ensures r == RetagStmt(it, map[name := pos])
    decreases it, 1
  {
    var conds := it.conds;
    var i := 0;
    while i < |it.conds|
      invariant 0 <= i <= |it.conds| && |conds| == |it.conds|
      invariant forall k | 0 <= k < |conds| ::
        conds[k] == if k < i then RetagExpr(it.conds[k], map[name := pos]) else it.conds[k]
    {
      var c := TagNamesInExpr(it.conds[i], name, pos);
      conds := conds[i := c];
      i := i + 1;
    }
    var scopes := it.scopes;
    i := 0;
    while i < |it.scopes|
      invariant 0 <= i <= |it.scopes| && |scopes| == |it.scopes|
      invariant forall k | 0 <= k < |scopes| ::
        scopes[k] == if k < i then RetagStmt(it.scopes[k], map[name := pos]) else it.scopes[k]
    {
      var sc := TagNames(it.scopes[i], 0, name, pos);
      assert sc.body == RetagStmt(it.scopes[i], map[name := pos]).body;
      scopes := scopes[i := sc];
      i := i + 1;
    }
    var els := it.elseScope;
    if els.Some? {
      var e := TagNames(els.value, 0, name, pos);
      assert e.body == RetagStmt(els.value, map[name := pos]).body;
      els := Some(e);
    }
    r := If(conds, scopes, els);
  }

  /** `read_declarations(decls, stmt)`: each declaration of a scope body
      appends its `Declaration` with the next slot and retags the rest of
      the scope; other statements are searched for nested scopes. `orig`
      and `env` are for the proof only: `s` is `orig` with the tags of the
      enclosing declarations `env` already applied (for a function body,
      `orig == s` and `env` is empty). */
  method ReadDeclarations(decls: seq<Declaration>, s: Stmt, ghost orig: Stmt, ghost env: Env)
    returns (decls': seq<Declaration>, s': Stmt)
    requires s == RetagStmt(orig, env) && DeclsScoped(orig)
    ensures decls' == decls + Resolve(orig, env, |decls|).decls
    ensures s' == Resolve(orig, env, |decls|).stmt
    decreases orig, 1
  {
    match s {
      case If(_, _, _) =>
        decls', s' := ReadIf(decls, s, orig, env);
      case While(c, sc) =>
        decls', s' := ReadDeclarations(decls, sc, orig.whileScope, env);
        s' := While(c, s');
      case Scope(_) =>
        decls', s' := ReadScope(decls, s, orig, env);
      case ExprStmt(_) =>
        decls', s' := decls, s;
      case Assign(_, _) =>
        decls', s' := decls, s;
      case Decl(_) =>
        decls', s' := decls, s;
      case Return(_) =>
        decls', s' := decls, s;
    }
  }

  /** The `STMT_IF` case of `read_declarations`: each branch scope, then
      the else scope. */
  method ReadIf(decls: seq<Declaration>, s: Stmt, ghost orig: Stmt, ghost env: Env)
    returns (decls': seq<Declaration>, s': Stmt)
    requires s.If? && s == RetagStmt(orig, env) && DeclsScoped(orig)
    ensures decls' == decls + Resolve(orig, env, |decls|).decls
    ensures s' == Resolve(orig, env, |decls|).stmt
    decreases orig, 0
  {
    var scopes := s.scopes;
    decls' := decls;
    var j := 0;
    while j < |s.scopes|
      invariant 0 <= j <= |s.scopes| && |scopes| == |s.scopes|
      invariant forall k | j <= k < |scopes| :: scopes[k] == s.scopes[k]
      invariant IfSoFar(orig, env, decls, j, scopes, decls')
    {
      var sc;
      ghost var ds := decls';
      decls', sc := ReadDeclarations(decls', s.scopes[j], orig.scopes[j], env);
      IfStep(orig, env, decls, j, scopes, ds, decls', sc);
      scopes := scopes[j := sc];
      j := j + 1;
    }
    ghost var ds := decls';
    var els := s.elseScope;
    if els.Some? {
      var e;
      decls', e := ReadDeclarations(decls', els.value, orig.elseScope.value, env);
      els := Some(e);
    }
    IfResolved(orig, s, env, decls, scopes, ds, els, decls');
    s' := If(s.conds, scopes, els);
  }

  /** Replacing element `j` and keeping the prefix up to it. */
  lemma SpliceStep<T>(s: seq<T>, j: nat, x: T, rest: seq<T>)
    requires j < |s|
    ensures s[j := x][..j + 1] + rest == s[..j] + ([x] + rest)
  {
    assert s[j := x][..j + 1] == s[..j] + [x];
  }

  lemma AppendAssoc<T>(a: seq<T>, b: seq<T>, c: seq<T>)
    ensures a + (b + c) == (a + b) + c
  {
  }

  /** The invariant of the branch loop of `ReadIf`: the branches before `j`
      are resolved and the rest resolve from the current slot on. */
  predicate IfSoFar(orig: Stmt, env: Env, ds0: seq<Declaration>, j: nat, scopes: seq<Stmt>,
                    ds: seq<Declaration>) {
    orig.If? && j <= |orig.scopes| && j <= |scopes| &&
    var rest := ResolveBranches(orig, j, env, |ds|);
    var all := ResolveBranches(orig, 0, env, |ds0|);
    scopes[..j] + rest.stmts == all.stmts && ds + rest.decls == ds0 + all.decls
  }

  lemma IfStep(orig: Stmt, env: Env, ds0: seq<Declaration>, j: nat, scopes: seq<Stmt>,
               ds: seq<Declaration>, ds2: seq<Declaration>, sc: Stmt)
    requires IfSoFar(orig, env, ds0, j, scopes, ds) && j < |orig.scopes| && j < |scopes|
    requires var r := Resolve(orig.scopes[j], env, |ds|); ds2 == ds + r.decls && sc == r.stmt
    ensures IfSoFar(orig, env, ds0, j + 1, scopes[j := sc], ds2)
  {
    var r := Resolve(orig.scopes[j], env, |ds|);
    var rest := ResolveBranches(orig, j + 1, env, |ds2|);
    assert ResolveBranches(orig, j, env, |ds|) == Resolutions([sc] + rest.stmts, r.decls + rest.decls);
    SpliceStep(scopes, j, sc, rest.stmts);
    AppendAssoc(ds, r.decls, rest.decls);
  }

  lemma IfResolved(orig: Stmt, s: Stmt, env: Env, ds0: seq<Declaration>, scopes: seq<Stmt>,
                   ds: seq<Declaration>, els: Option<Stmt>, ds': seq<Declaration>)
    requires orig.If? && s == RetagStmt(orig, env) && |scopes| == |orig.scopes|
    requires IfSoFar(orig, env, ds0, |orig.scopes|, scopes, ds)
    requires if orig.elseScope.Some?
      then var er := Resolve(orig.elseScope.value, env, |ds|); els == Some(er.stmt) && ds' == ds + er.decls
      else els == None && ds' == ds
    ensures If(s.conds, scopes, els) == Resolve(orig, env, |ds0|).stmt
    ensures ds' == ds0 + Resolve(orig, env, |ds0|).decls
  {
    assert scopes[..|scopes|] == scopes;
    var conds' := seq(|orig.conds|, k requires 0 <= k < |orig.conds| => RetagExpr(orig.conds[k], env));
    assert forall k | 0 <= k < |s.conds| :: s.conds[k] == conds'[k];
    assert s.conds == conds';
    var bs := ResolveBranches(orig, 0, env, |ds0|);
    assert scopes == bs.stmts && ds == ds0 + bs.decls;
    if orig.elseScope.Some? {
      var er := Resolve(orig.elseScope.value, env, |ds|);
      assert ds' == ds0 + (bs.decls + er.decls);
    }
  }

  /** The `STMT_SCOPE` case of `read_declarations`: a declaration statement
      retags the rest of the scope and appends its `Declaration`; any other
      statement is searched in turn. */
  method ReadScope(decls: seq<Declaration>, s: Stmt, ghost orig: Stmt, ghost env: Env)
    returns (decls': seq<Declaration>, s': Stmt)
    requires s.Scope? && s == RetagStmt(orig, env) && DeclsScoped(orig)
    ensures decls' == decls + Resolve(orig, env, |decls|).decls
    ensures s' == Resolve(orig, env, |decls|).stmt
    decreases orig, 0
  {
    ghost var envi: Env := env;
    var body := s.body;
    decls' := decls;
    var i := 0;
    while i < |body|
      invariant 0 <= i <= |body|
      invariant ScopeSoFar(orig, env, decls, i, body, envi, decls')
    {
      var it := body[i];
      if it.Decl? {
        var slot := |decls'|;
        DeclTagsRest(orig, i, envi, body);
        var t := TagNames(Scope(body), i, it.declName, slot);
        ScopeDeclStep(orig, env, decls, i, body, envi, decls', t.body);
        body := t.body;
        decls' := decls' + [Declaration(it.declName, WORD_SIZE, slot)];
        envi := envi[it.declName := slot];
      } else {
        var x;
        ghost var ds := decls';
        decls', x := ReadDeclarations(decls', it, orig.body[i], envi);
        ScopeStmtStep(orig, env, decls, i, body, envi, ds, decls', x);
        body := body[i := x];
      }
      i := i + 1;
    }
    assert body[..i] == body;
    s' := Scope(body);
  }

  /** The invariant of the loop of `ReadScope`: the statements before `i`
      are resolved, the rest still carry the tags of the declarations in
      scope (`envi`) and resolve from the current slot on. */
  predicate ScopeSoFar(orig: Stmt, env: Env, ds0: seq<Declaration>, i: nat, body: seq<Stmt>,
                       envi: Env, ds: seq<Declaration>) {
    orig.Scope? && DeclsScoped(orig) && i <= |orig.body| == |body| &&
    (forall k | i <= k < |body| :: body[k] == RetagStmt(orig.body[k], envi)) &&
    var rest := ResolveBody(orig, i, envi, |ds|);
    var all := ResolveBody(orig, 0, env, |ds0|);
    body[..i] + rest.stmts == all.stmts && ds + rest.decls == ds0 + all.decls
  }

  lemma ScopeDeclStep(orig: Stmt, env: Env, ds0: seq<Declaration>, i: nat, body: seq<Stmt>,
                      envi: Env, ds: seq<Declaration>, body2: seq<Stmt>)
    requires ScopeSoFar(orig, env, ds0, i, body, envi, ds) && i < |body| && body[i].Decl?
    requires |body2| == |body|
    requires forall k | 0 <= k < |body2| ::
      body2[k] == if k < i then body[k] else RetagStmt(body[k], map[body[i].declName := |ds|])
    ensures var n := body[i].declName;
      ScopeSoFar(orig, env, ds0, i + 1, body2, envi[n := |ds|], ds + [Declaration(n, WORD_SIZE, |ds|)])
  {
    var n := body[i].declName;
    var envi' := envi[n := |ds|];
    assert orig.body[i] == body[i];
    forall k | i + 1 <= k < |body2| ensures body2[k] == RetagStmt(orig.body[k], envi') {
      RetagStmtCompose(orig.body[k], envi, map[n := |ds|]);
      assert envi + map[n := |ds|] == envi';
    }
    var ds' := ds + [Declaration(n, WORD_SIZE, |ds|)];
    var rest := ResolveBody(orig, i + 1, envi', |ds'|);
    assert ResolveBody(orig, i, envi, |ds|) ==
      Resolutions([body[i]] + rest.stmts, [Declaration(n, WORD_SIZE, |ds|)] + rest.decls);
    assert body2[..i + 1] == body[..i] + [body[i]];
    assert body[..i] + ([body[i]] + rest.stmts) == body2[..i + 1] + rest.stmts;
  }

  lemma ScopeStmtStep(orig: Stmt, env: Env, ds0: seq<Declaration>, i: nat, body: seq<Stmt>,
                      envi: Env, ds: seq<Declaration>, ds2: seq<Declaration>, x: Stmt)
    requires ScopeSoFar(orig, env, ds0, i, body, envi, ds) && i < |body| && !body[i].Decl?
    requires var r := Resolve(orig.body[i], envi, |ds|); ds2 == ds + r.decls && x == r.stmt
    ensures ScopeSoFar(orig, env, ds0, i + 1, body[i := x], envi, ds2)
  {
    var r := Resolve(orig.body[i], envi, |ds|);
    assert !orig.body[i].Decl?;
    var rest := ResolveBody(orig, i + 1, envi, |ds2|);
    assert ResolveBody(orig, i, envi, |ds|) == Resolutions([x] + rest.stmts, r.decls + rest.decls);
    SpliceStep(body, i, x, rest.stmts);
    AppendAssoc(ds, r.decls, rest.decls);
  }

  /** What the retagging at a declaration needs and does: the rest of the
      scope is well scoped, and the declaration statement itself keeps its
      form. */
  lemma DeclTagsRest(orig: Stmt, i: nat, envi: Env, body: seq<Stmt>)
    requires orig.Scope? && DeclsScoped(orig) && i < |orig.body| == |body|
    requires orig.body[i].Decl?
    requires forall k | i <= k < |body| :: body[k] == RetagStmt(orig.body[k], envi)
    ensures forall k | i <= k < |body| :: WellScoped(body[k])
    ensures body[i] == orig.body[i]
  {
    forall k | i <= k < |body| ensures WellScoped(body[k]) {
      RetagWellScoped(orig.body[k], envi);
    }
  }

  // ---------------------------------------------------------------------
  // Whole functions

  /** `read_function_decls(func)`: the declarations of the body, the k-th
      one met named by the k-th declaration statement and given slot k, and
      the body with its names resolved. */
  method ReadFunctionDecls(f: Function) returns (decls: seq<Declaration>, body: Stmt)
    requires DeclsScoped(f.body)
    ensures decls == Resolve(f.body, map[], 0).decls && body == Resolve(f.body, map[], 0).stmt
    ensures |decls| == |DeclNames(f.body)|
    ensures forall k | 0 <= k < |decls| :: decls[k] == Declaration(DeclNames(f.body)[k], WORD_SIZE, k)
  {
    RetagStmtEmpty(f.body);
    decls, body := ReadDeclarations([], f.body, f.body, map[]);
    ResolveSlots(f.body, map[], 0);
  }

  /** `prepare_function(func)`: the function with its declarations read
      and its body resolved. */
  method PrepareFunction(f: Function) returns (f': Function)
    requires DeclsScoped(f.body)
    ensures f' == f.(body := Resolve(f.body, map[], 0).stmt, decls := Resolve(f.body, map[], 0).decls)
  {
    var decls, body := ReadFunctionDecls(f);
    f' := f.(body := body, decls := decls);
  }

  /** Slots are distinct: two declarations never share one. */
  lemma SlotsDistinct(decls: seq<Declaration>, names: seq<nat>, count: nat)
    requires Slots(decls, names, count)
    ensures forall a, b | 0 <= a < b < |decls| :: decls[a].declPos != decls[b].declPos
  {
  }

  /** A reference before a declaration keeps its tag, one after it gets the
      slot, an inner redeclaration overrides the outer one inside its scope
      only, and a name never declared is left alone. */
  lemma ResolveExample(x: nat, y: nat)
    requires x != y
    ensures Resolve(ExampleBody(x, y), map[], 0) ==
      Resolution(Scope([ExprStmt(Name(x, -1)), Decl(x), ExprStmt(Name(x, 0)),
                        Scope([ExprStmt(Name(x, 0)), Decl(x), ExprStmt(Name(x, 1))]),
                        ExprStmt(Name(x, 0)), ExprStmt(Name(y, -1))]),
                 [Declaration(x, WORD_SIZE, 0), Declaration(x, WORD_SIZE, 1)])
  {
    var body := ExampleBody(x, y);
    var x0 := ExprStmt(Name(x, 0));
    var inner' := Scope([x0, Decl(x), ExprStmt(Name(x, 1))]);
    var d0, d1 := Declaration(x, WORD_SIZE, 0), Declaration(x, WORD_SIZE, 1);
    ExampleFrom2(x, y);
    assert map[][x := 0] == map[x := 0];
    assert ResolveBody(body, 1, map[], 0) == Resolutions([Decl(x), x0, inner', x0, ExprStmt(Name(y, -1))], [d0, d1]);
    assert ResolveBody(body, 0, map[], 0) ==
      Resolutions([ExprStmt(Name(x, -1)), Decl(x), x0, inner', x0, ExprStmt(Name(y, -1))], [d0, d1]);
  }

  /** The example from its third statement on. */
  lemma ExampleFrom2(x: nat, y: nat)
    requires x != y
    ensures ResolveBody(ExampleBody(x, y), 2, map[x := 0], 1) ==
      Resolutions([ExprStmt(Name(x, 0)), Scope([ExprStmt(Name(x, 0)), Decl(x), ExprStmt(Name(x, 1))]),
                   ExprStmt(Name(x, 0)), ExprStmt(Name(y, -1))], [Declaration(x, WORD_SIZE, 1)])
  {
    var body := ExampleBody(x, y);
    InnerExample(x);
    ExampleFrom4(x, y);
    assert ResolveBody(body, 3, map[x := 0], 1) ==
      Resolutions([Scope([ExprStmt(Name(x, 0)), Decl(x), ExprStmt(Name(x, 1))]),
                   ExprStmt(Name(x, 0)), ExprStmt(Name(y, -1))], [Declaration(x, WORD_SIZE, 1)]);
  }

  /** The example from its fifth statement on. */
  lemma ExampleFrom4(x: nat, y: nat)
    requires x != y
    ensures ResolveBody(ExampleBody(x, y), 4, map[x := 0], 2) ==
      Resolutions([ExprStmt(Name(x, 0)), ExprStmt(Name(y, -1))], [])
  {
    var body := ExampleBody(x, y);
    assert ResolveBody(body, 6, map[x := 0], 2) == Resolutions([], []);
    assert ResolveBody(body, 5, map[x := 0], 2) == Resolutions([ExprStmt(Name(y, -1))], []);
  }

  /** The scope `{ x; decl x; x; { x; decl x; x }; x; y }`, every name
      still untagged (-1). */
  function ExampleBody(x: nat, y: nat): Stmt {
    Scope([ExprStmt(Name(x, -1)), Decl(x), ExprStmt(Name(x, -1)), ExampleInner(x),
           ExprStmt(Name(x, -1)), ExprStmt(Name(y, -1))])
  }

  function ExampleInner(x: nat): Stmt {
    Scope([ExprStmt(Name(x, -1)), Decl(x), ExprStmt(Name(x, -1))])
  }

  lemma InnerExample(x: nat)
    ensures Resolve(ExampleInner(x), map[x := 0], 1) ==
      Resolution(Scope([ExprStmt(Name(x, 0)), Decl(x), ExprStmt(Name(x, 1))]), [Declaration(x, WORD_SIZE, 1)])
  {
    var inner := ExampleInner(x);
    var e1: Env := map[x := 1];
    assert ResolveBody(inner, 3, e1, 2) == Resolutions([], []);
    assert ResolveBody(inner, 2, e1, 2) == Resolutions([ExprStmt(Name(x, 1))], []);
    assert map[x := 0][x := 1] == e1;
    assert ResolveBody(inner, 1, map[x := 0], 1) ==
      Resolutions([Decl(x), ExprStmt(Name(x, 1))], [Declaration(x, WORD_SIZE, 1)]);
    assert ResolveBody(inner, 0, map[x := 0], 1) ==
      Resolutions([ExprStmt(Name(x, 0)), Decl(x), ExprStmt(Name(x, 1))], [Declaration(x, WORD_SIZE, 1)]);
  }
}
