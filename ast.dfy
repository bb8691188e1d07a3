/** The syntax tree of parser.h and the `Declaration` record of compiler.h.
    Identifiers are interned, so a name is the index of its entry in the
    intern table and two names are the same exactly when the indices are. */
module Ast {
  import opened Common

  /** `Operator_Type`, in declaration order (NEG = 0 ... LTE = 11). */
  datatype Operator = NEG | LNEG | ADD | SUB | MUL | DIV | MOD | EQ | GT | LT | GTE | LTE

  predicate IsUnary(op: Operator) {
    op == NEG || op == LNEG
  }

  /** `Expression`; the `line` field is not modelled. */
  datatype Expr =
    | Unary(uop: Operator, operand: Expr)
    | Binary(bop: Operator, left: Expr, right: Expr)
    | Index(base: Expr, index: Expr)
    | Funcall(callee: Expr, args: seq<Expr>)
    | Name(name: nat, declPos: int)
    | Literal(value: u64)

  /** `Statement`; `elseScope` is the nullable `else_scope` field. */
  datatype Stmt =
    | ExprStmt(expr: Expr)
    | Assign(target: Expr, source: Expr)
    | Decl(declName: nat)
    | If(conds: seq<Expr>, scopes: seq<Stmt>, elseScope: Option<Stmt>)
    | While(cond: Expr, whileScope: Stmt)
    | Return(result: Expr)
    | Scope(body: seq<Stmt>)

  /** `Declaration` of compiler.h. */
  datatype Declaration = Declaration(name: nat, size: nat, declPos: int)

  /** `Function` of parser.h. */
  datatype Function = Function(name: nat, argNames: seq<nat>, body: Stmt,
                               decls: seq<Declaration>, ipStart: int)

  /** `sizeof(u64)`, the size every declaration gets. */
  const WORD_SIZE: nat := 8
}
