/** The code generator and the machine together: the post-order code that
    `compile_expression` emits for an operator tree of literals, negations
    and binary operators leaves exactly one new operand on the stack, the
    value of the tree under the operator table's C semantics. */
module Correctness {
  import opened Common
  import opened Ast
  import opened Vm
  import opened Compiler

  /** The value of an expression as the operator table computes it: a
      literal is its u64 constant read as s64, NEG negates, a binary
      operator is `BinaryOp`. None for what the machine cannot evaluate
      from its own code alone (names and calls compile to nothing, the
      index case does not compile, LNEG has no table entry) and for every
      node whose C behaviour is undefined. */
  function Eval(e: Expr): (r: Option<int>)
    ensures r.Some? ==> InS64(r.value) && ExprCode(e).Ok?
  {
    match e
    case Literal(v) => Some(ToS64(v))
    case Unary(op, x) =>
      if op != NEG then None
      else
        (match Eval(x)
         case None => None
         case Some(a) => if InS64(-a) then Some(-a) else None)
    case Binary(op, l, r) =>
      if IsUnary(op) then None
      else
        (match Eval(l)
         case None => None
         case Some(a) =>
           (match Eval(r)
            case None => None
            case Some(b) => BinaryOp(op, a, b)))
    case _ => None
  }

  /** The most operand slots the code of `e` holds at once. */
  function Depth(e: Expr): nat {
    match e
    case Literal(_) => 1
    case Unary(_, x) => Depth(x)
    case Binary(_, l, r) =>
      var dl, dr := Depth(l), 1 + Depth(r);
      if dl < dr then dr else dl
    case _ => 0
  }

  /** `code` sits in `insts` from index `p` on. */
  predicate At(insts: seq<Inst>, p: int, code: seq<Inst>) {
    0 <= p && p + |code| <= |insts| && insts[p..p + |code|] == code
  }

  /** The effect on the operand stack of straight-line code made of PUSHO
      and OP instructions, step by step as `vm_step` executes them; None
      once a step would overflow the stack, hit an undefined operator, or
      meet any other instruction. */
  function Effect(code: seq<Inst>, ops: seq<int>): Option<seq<int>>
    decreases |code|
  {
    if code == [] then Some(ops)
    else match code[0]
      case PUSHO(lit) =>
        if |ops| >= STACK_SIZE then None else Effect(code[1..], ops + [ToS64(lit)])
      case OP(op) =>
        (match OperatorStep(op, ops)
         case None => None
         case Some(ops') => Effect(code[1..], ops'))
      case _ => None
  }

  /** Running two pieces of code one after the other. */
  lemma {:induction false} EffectConcat(c1: seq<Inst>, c2: seq<Inst>, ops: seq<int>)
    ensures Effect(c1 + c2, ops) == match Effect(c1, ops)
      case None => None
      case Some(mid) => Effect(c2, mid)
    decreases |c1|
  {
    if c1 == [] {
      assert c1 + c2 == c2;
    } else {
      assert (c1 + c2)[0] == c1[0] && (c1 + c2)[1..] == c1[1..] + c2;
      match c1[0]
      case PUSHO(lit) =>
        if |ops| < STACK_SIZE {
          EffectConcat(c1[1..], c2, ops + [ToS64(lit)]);
        }
      case OP(op) =>
        if OperatorStep(op, ops).Some? {
          EffectConcat(c1[1..], c2, OperatorStep(op, ops).value);
        }
      case _ =>
    }
  }

  lemma EffectOp(op: Operator, ops: seq<int>)
    ensures Effect([OP(op)], ops) == OperatorStep(op, ops)
  {
    assert [OP(op)][1..] == [];
  }

  lemma Top(ops: seq<int>, a: int)
    ensures |ops + [a]| == |ops| + 1 && (ops + [a])[|ops|] == a
    ensures (ops + [a])[..|ops|] == ops
  {
  }

  /** NEG on a stack whose top is `a`. */
  lemma NegStep(ops: seq<int>, a: int)
    requires InS64(-a)
    ensures OperatorStep(NEG, ops + [a]) == Some(ops + [-a])
  {
    Top(ops, a);
  }

  /** A binary operator on a stack whose top two are `a`, then `b`. */
  lemma BinaryStep(op: Operator, ops: seq<int>, a: int, b: int)
    requires !IsUnary(op) && BinaryOp(op, a, b).Some?
    ensures OperatorStep(op, ops + [a] + [b]) == Some(ops + [BinaryOp(op, a, b).value])
  {
    var st := ops + [a] + [b];
    assert st[|st| - 2] == a && st[|st| - 1] == b;
    assert st[..|st| - 2] == ops;
  }

  /** The code of `e`, started with `|ops| + Depth(e)` slots available,
      pushes exactly the value of `e` and leaves the rest of the stack. */
  lemma {:induction false} ExprEffect(e: Expr, ops: seq<int>)
    requires Eval(e).Some? && |ops| + Depth(e) <= STACK_SIZE
    ensures Effect(ExprCode(e).value, ops) == Some(ops + [Eval(e).value])
  {
    match e
    case Literal(lit) =>
      assert [PUSHO(lit)][1..] == [];
    case Unary(op, x) =>
      var cx, a := ExprCode(x).value, Eval(x).value;
      ExprEffect(x, ops);
      EffectConcat(cx, [OP(NEG)], ops);
      EffectOp(NEG, ops + [a]);
      NegStep(ops, a);
    case Binary(op, l, r) =>
      var cl, cr := ExprCode(l).value, ExprCode(r).value;
      var a, b := Eval(l).value, Eval(r).value;
      assert ExprCode(e).value == (cl + cr) + [OP(op)];
      ExprEffect(l, ops);
      ExprEffect(r, ops + [a]);
      EffectConcat(cl, cr, ops);
      EffectConcat(cl + cr, [OP(op)], ops);
      EffectOp(op, ops + [a] + [b]);
      BinaryStep(op, ops, a, b);
  }

  /** Straight-line code with an effect, sitting at `p`, runs through on
      the machine with exactly that effect; the call stack is untouched. */
  lemma {:induction false} EffectRuns(code: seq<Inst>, insts: seq<Inst>, p: int, ops: seq<int>, calls: seq<int>)
    requires At(insts, p, code) && Effect(code, ops).Some?
    ensures Run(insts, MState(ops, calls, p), |code|)
         == Stepped(Continue, MState(Effect(code, ops).value, calls, p + |code|))
    decreases |code|
  {
    if code != [] {
      var s := MState(ops, calls, p);
      assert insts[p] == code[0];
      assert insts[p + 1..p + 1 + |code[1..]|] == code[1..];
      var next := StepF(insts, s).next;
      match code[0]
      case PUSHO(lit) =>
        assert next.ops == ops + [ToS64(lit)];
        EffectRuns(code[1..], insts, p + 1, ops + [ToS64(lit)], calls);
      case OP(op) =>
        EffectRuns(code[1..], insts, p + 1, OperatorStep(op, ops).value, calls);
    }
  }

  /** The compiled expression, sitting anywhere in the buffer, run from its
      first instruction: after its own instructions the operand stack holds
      one more value, the expression's, and nothing else has changed. */
  lemma ExprRuns(e: Expr, insts: seq<Inst>, p: int, ops: seq<int>, calls: seq<int>)
    requires Eval(e).Some? && At(insts, p, ExprCode(e).value) && |ops| + Depth(e) <= STACK_SIZE
    ensures Run(insts, MState(ops, calls, p), |ExprCode(e).value|)
         == Stepped(Continue, MState(ops + [Eval(e).value], calls, p + |ExprCode(e).value|))
  {
    ExprEffect(e, ops);
    EffectRuns(ExprCode(e).value, insts, p, ops, calls);
  }

  /** The compiled expression followed by HALT, run from instruction 0:
      after its own instructions both stacks are as before except for one
      new operand, the expression's value, and the next step halts. */
  lemma CompiledExpression(e: Expr, insts: seq<Inst>, ops: seq<int>, calls: seq<int>)
    requires Eval(e).Some? && |ops| + Depth(e) <= STACK_SIZE
    requires insts == ExprCode(e).value + [HALT]
    ensures Run(insts, MState(ops, calls, 0), |insts| - 1)
         == Stepped(Continue, MState(ops + [Eval(e).value], calls, |insts| - 1))
    ensures Run(insts, MState(ops, calls, 0), |insts|)
         == Stepped(Halted, MState(ops + [Eval(e).value], calls, |insts|))
  {
    var n := |insts| - 1;
    assert insts[0..n] == ExprCode(e).value && insts[n] == HALT;
    ExprRuns(e, insts, 0, ops, calls);
    ThenHalt(insts, MState(ops, calls, 0), n, MState(ops + [Eval(e).value], calls, n));
  }

  /** A run that continues to a HALT instruction halts one step later. */
  lemma ThenHalt(insts: seq<Inst>, s: MState, n: nat, fin: MState)
    requires Run(insts, s, n) == Stepped(Continue, fin)
    requires 0 <= fin.ip < |insts| && insts[fin.ip] == HALT
    ensures Run(insts, s, n + 1) == Stepped(Halted, fin.(ip := fin.ip + 1))
  {
    RunSplit(insts, s, n, 1);
  }
}
