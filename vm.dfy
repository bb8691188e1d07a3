/** The two-stack bytecode machine of vm.c: an operand stack and a call
    stack of STACK_SIZE signed 64-bit slots each, and an instruction index
    into the instruction buffer. `StepF` is the meaning of one `vm_step`; the
    class `VM` is the machine with its fixed arrays, proved against it. */
module Vm {
  import opened Common
  import opened Ast

  /** `STACK_SIZE` of vm.h. */
  const STACK_SIZE: nat := 1024

  /** An instruction with its one argument. `Jz` and `Jmp` are emitted by the
      code generator; the machine has no case for them. */
  datatype Inst =
    | HALT
    | NOP
    | OP(op: Operator)
    | PUSHC(literal: u64)
    | POPC
    | PUSHO(literal: u64)
    | POPO
    | LOAD(offset: int)
    | SAVE(offset: int)
    | JZ(target: int)
    | JMP(target: int)

  /** The observable machine state: the live parts of both stacks, bottom
      first, and the instruction index. */
  datatype MState = MState(ops: seq<int>, calls: seq<int>, ip: int)

  /** How a step ends. `Undefined` stands for a step whose C behaviour is
      undefined (reading past the buffer, overflowing a stack or an integer,
      dividing by zero, calling the missing LNEG entry); `Fatal` is an
      `internal_error` with its message. */
  datatype Outcome = Continue | Halted | Fatal(msg: string) | Undefined

  datatype Stepped = Stepped(out: Outcome, next: MState)

  /** The `internal_error` messages of `vm_step`, as written (the POPO one
      says PUSHO). */
  const MSG_POPC_EMPTY: string := "POPC executed with an empty call stack"
  const MSG_POPO_EMPTY: string := "PUSHO executed with an empty op stack"
  const MSG_LOAD_PAST: string := "Tried to load from past call stack"
  const MSG_LOAD_BEFORE: string := "Tried to load from before call stack"
  const MSG_SAVE_EMPTY: string := "SAVE executed with an empty op stack"
  const MSG_SAVE_PAST: string := "Tried to save past call stack"
  const MSG_SAVE_BEFORE: string := "Tried to save before call stack"
  const MSG_INVALID: string := "VM read invalid instruction"


  /** C's `/` on s64: the quotient truncated toward zero. */
  function TDiv(x: int, y: int): (q: int)
    requires y != 0
    ensures Abs(q) == Abs(x) / Abs(y) <= Abs(x)
    ensures q != 0 ==> (q > 0 <==> (x > 0) == (y > 0))
  {
    var ax: int, ay: int := Abs(x), Abs(y);
    DivNat(ax, ay);
    if (x >= 0) == (y > 0) then ax / ay else -(ax / ay)
  }

  /** C's `%` on s64: the remainder takes the sign of the dividend. */
  function TMod(x: int, y: int): (r: int)
    requires y != 0
    ensures Abs(r) < Abs(y)
    ensures (x >= 0 ==> r >= 0) && (x < 0 ==> r <= 0)
  {
    var ax: int, ay: int := Abs(x), Abs(y);
    ModNat(ax, ay);
    if x >= 0 then ax % ay else -(ax % ay)
  }

  lemma DivNat(a: int, b: int)
    requires a >= 0 && b > 0
    ensures 0 <= a / b <= a
  {
    var q, r := a / b, a % b;
    assert a == q * b + r && 0 <= r < b;
    MulSign(q, b);
  }

  lemma ModNat(a: int, b: int)
    requires a >= 0 && b > 0
    ensures 0 <= a % b < b
  {
  }

  lemma MulMono(q: int, b: int)
    requires q >= 1 && b >= 1
    ensures q * b >= q && q * b >= b
  {
  }

  lemma MulSign(q: int, b: int)
    requires b >= 1
    ensures q <= -1 ==> q * b <= -b
    ensures q >= 1 ==> q * b >= q
  {
    if q <= -1 {
      MulMono(-q, b);
    } else if q >= 1 {
      MulMono(q, b);
    }
  }

  lemma NegMul(a: int, b: int)
    ensures (-a) * b == -(a * b) && a * (-b) == -(a * b) && (-a) * (-b) == a * b
  {
  }

  /** The two agree as C requires: `(x / y) * y + x % y == x`. */
  lemma {:induction false} TDivMod(x: int, y: int)
    requires y != 0
    ensures TDiv(x, y) * y + TMod(x, y) == x
  {
    var ax: int, ay: int := Abs(x), Abs(y);
    var q: int, m: int := ax / ay, ax % ay;
    assert ax == q * ay + m;
    NegMul(q, ay);
    var d := TDiv(x, y);
    if x >= 0 && y > 0 {
      assert d == q && y == ay;
    } else if x >= 0 {
      assert d == -q && y == -ay;
    } else if y > 0 {
      assert d == -q && y == ay;
    } else {
      assert d == q && y == -ay;
    }
  }

  /** Only a zero divisor or S64_MIN / -1 makes s64 division undefined. */
  lemma {:induction false} TDivRange(x: int, y: int)
    requires y != 0 && InS64(x) && InS64(y)
    ensures InS64(TDiv(x, y)) <==> !(x == S64_MIN && y == -1)
  {
    var ax: int, ay: int := Abs(x), Abs(y);
    if ay == 1 {
      assert ax / ay == ax;
    } else {
      DivHalf(ax, ay);
    }
  }

  lemma DivHalf(a: int, b: int)
    requires a >= 0 && b >= 2
    ensures a / b <= a / 2
  {
    var q := a / b;
    DivNat(a, b);
    assert q * b <= a;
    if q > 0 {
      assert q * 2 <= q * b by { MulMono(q, b - 1); }
    }
  }

  function Abs(x: int): nat { if x < 0 then -x else x }

  predicate InS64(x: int) { S64_MIN <= x <= S64_MAX }

  function Bool(b: bool): int { if b then 1 else 0 }

  /** `x op y` for a binary entry of the operator table; None where C's
      behaviour is undefined (overflow, zero divisor). */
  function BinaryOp(op: Operator, x: int, y: int): (r: Option<int>)
    requires !IsUnary(op)
    ensures r.Some? ==> InS64(r.value)
    ensures match op
      case ADD => r.None? <==> !InS64(x + y)
      case SUB => r.None? <==> !InS64(x - y)
      case MUL => r.None? <==> !InS64(x * y)
      case DIV => InS64(x) && InS64(y) ==> (r.None? <==> y == 0 || (x == S64_MIN && y == -1))
      case MOD => InS64(x) && InS64(y) ==> (r.None? <==> y == 0 || (x == S64_MIN && y == -1))
      case NEG => true
      case LNEG => true
      case _ => r.Some? && (r.value == 0 || r.value == 1)
  {
    if (op == DIV || op == MOD) && y == 0 then None
    else
      assert (op == DIV || op == MOD) && InS64(x) && InS64(y) ==>
        (InS64(TDiv(x, y)) <==> !(x == S64_MIN && y == -1)) by {
        if (op == DIV || op == MOD) && InS64(x) && InS64(y) { TDivRange(x, y); }
      }
      var v := match op
        case ADD => x + y
        case SUB => x - y
        case MUL => x * y
        case DIV => TDiv(x, y)
        case MOD => TMod(x, y)
        case EQ => Bool(x == y)
        case GT => Bool(x > y)
        case LT => Bool(x < y)
        case GTE => Bool(x >= y)
        case LTE => Bool(x <= y);
      if (op == DIV || op == MOD) && !InS64(TDiv(x, y)) then None
      else if !InS64(v) then None
      else Some(v)
  }

  /** One entry of the operator table applied to the operand stack:
      NEG pops x and pushes -x, a binary operator pops y, then x, and pushes
      `x op y`, and the LNEG entry is NULL. */
  function OperatorStep(op: Operator, ops: seq<int>): (r: Option<seq<int>>)
    ensures op == LNEG || |ops| < (if op == NEG then 1 else 2) ==> r.None?
    ensures r.Some? ==> |r.value| == if op == NEG then |ops| else |ops| - 1
  {
    if op == LNEG then None
    else if op == NEG then
      if |ops| == 0 || !InS64(-ops[|ops| - 1]) then None
      else Some(ops[..|ops| - 1] + [-ops[|ops| - 1]])
    else if |ops| < 2 then None
    else match BinaryOp(op, ops[|ops| - 2], ops[|ops| - 1])
      case None => None
      case Some(v) => Some(ops[..|ops| - 2] + [v])
  }

  /** `vm_step`: fetch `insts[ip]`, advance `ip`, and execute. */
  function StepF(insts: seq<Inst>, s: MState): (r: Stepped)
    ensures r.out != Undefined ==> 0 <= s.ip < |insts| && r.next.ip == s.ip + 1
    ensures r.out == Halted <==> 0 <= s.ip < |insts| && insts[s.ip] == HALT
    ensures r.out.Fatal? ==> r.next == s.(ip := s.ip + 1)
  {
    if !(0 <= s.ip < |insts|) then Stepped(Undefined, s)
    else
      var s1 := s.(ip := s.ip + 1);
      var ops, calls := s.ops, s.calls;
      match insts[s.ip]
      case HALT => Stepped(Halted, s1)
      case NOP => Stepped(Continue, s1)
      case OP(op) =>
        (match OperatorStep(op, ops)
         case None => Stepped(Undefined, s)
         case Some(ops') => Stepped(Continue, s1.(ops := ops')))
      case PUSHC(lit) =>
        if |calls| >= STACK_SIZE then Stepped(Undefined, s)
        else Stepped(Continue, s1.(calls := calls + [ToS64(lit)]))
      case POPC =>
        if |calls| == 0 then Stepped(Fatal(MSG_POPC_EMPTY), s1)
        else Stepped(Continue, s1.(calls := calls[..|calls| - 1]))
      case PUSHO(lit) =>
        if |ops| >= STACK_SIZE then Stepped(Undefined, s)
        else Stepped(Continue, s1.(ops := ops + [ToS64(lit)]))
      case POPO =>
        if |ops| == 0 then Stepped(Fatal(MSG_POPO_EMPTY), s1)
        else Stepped(Continue, s1.(ops := ops[..|ops| - 1]))
      case LOAD(off) =>
        if off < 1 then Stepped(Fatal(MSG_LOAD_PAST), s1)
        else if off > |calls| then Stepped(Fatal(MSG_LOAD_BEFORE), s1)
        else if |ops| >= STACK_SIZE then Stepped(Undefined, s)
        else Stepped(Continue, s1.(ops := ops + [calls[|calls| - off]]))
      case SAVE(off) =>
        if |ops| == 0 then Stepped(Fatal(MSG_SAVE_EMPTY), s1)
        else if off < 1 then Stepped(Fatal(MSG_SAVE_PAST), s1)
        else if off > |calls| then Stepped(Fatal(MSG_SAVE_BEFORE), s1)
        else Stepped(Continue, s1.(ops := ops[..|ops| - 1],
                                   calls := calls[|calls| - off := ops[|ops| - 1]]))
      case JZ(_) => Stepped(Fatal(MSG_INVALID), s1)
      case JMP(_) => Stepped(Fatal(MSG_INVALID), s1)
  }

  /** Up to `n` steps from `s`, stopping at the first step that does not
      continue. No instruction the machine executes jumps, so every step
      that continues moves `ip` on by exactly one. */
  function Run(insts: seq<Inst>, s: MState, n: nat): (r: Stepped)
    ensures n == 0 ==> r == Stepped(Continue, s)
    ensures r.out == Continue ==> r.next.ip == s.ip + n
    ensures s.ip <= r.next.ip <= s.ip + n
    decreases n
  {
    if n == 0 then Stepped(Continue, s)
    else
      var r := StepF(insts, s);
      if r.out == Continue then Run(insts, r.next, n - 1) else r
  }

  // ---------------------------------------------------------------------
  // Reference tables for the effect of one instruction

  /** How many operand slots an instruction pops and pushes. */
  function OpsPopped(i: Inst): nat {
    match i
    case OP(op) => if IsUnary(op) then 1 else 2
    case POPO => 1
    case SAVE(_) => 1
    case _ => 0
  }

  function OpsPushed(i: Inst): nat {
    match i
    case OP(_) => 1
    case PUSHO(_) => 1
    case LOAD(_) => 1
    case _ => 0
  }

  function CallsPopped(i: Inst): nat { if i == POPC then 1 else 0 }

  function CallsPushed(i: Inst): nat { if i.PUSHC? then 1 else 0 }

  /** A step that continues pops and pushes exactly what the tables say and
      leaves every operand slot below the ones it pops, and every call slot
      except the one SAVE writes, untouched. */
  lemma {:induction false} StepFrame(insts: seq<Inst>, s: MState)
    requires StepF(insts, s).out == Continue
    ensures var i, t := insts[s.ip], StepF(insts, s).next;
      OpsPopped(i) <= |s.ops| && CallsPopped(i) <= |s.calls| &&
      |t.ops| == |s.ops| - OpsPopped(i) + OpsPushed(i) &&
      |t.calls| == |s.calls| - CallsPopped(i) + CallsPushed(i) &&
      t.ops[..|s.ops| - OpsPopped(i)] == s.ops[..|s.ops| - OpsPopped(i)] &&
      (forall k :: 0 <= k < |s.calls| - CallsPopped(i) && !(i.SAVE? && k == |s.calls| - i.offset) ==>
         t.calls[k] == s.calls[k])
  {
    var i, t := insts[s.ip], StepF(insts, s).next;
    match i
    case OP(op) =>
      if op == NEG {
        assert t.ops == s.ops[..|s.ops| - 1] + [-s.ops[|s.ops| - 1]];
      } else {
        var v := BinaryOp(op, s.ops[|s.ops| - 2], s.ops[|s.ops| - 1]).value;
        assert t.ops == s.ops[..|s.ops| - 2] + [v];
      }
    case _ =>
  }

  /** A binary operator replaces the two top operands x (below) and y (top)
      by `x op y`; NEG replaces the top by its negation; comparisons push 1
      or 0. */
  lemma {:induction false} OperatorResult(op: Operator, ops: seq<int>, x: int, y: int)
    requires op != LNEG && |ops| >= 2 - Bool(op == NEG)
    requires x == ops[|ops| - 2 + Bool(op == NEG)] && y == ops[|ops| - 1]
    requires OperatorStep(op, ops).Some?
    ensures var t := OperatorStep(op, ops).value;
      |t| == |ops| - 1 + Bool(op == NEG) && t[..|t| - 1] == ops[..|t| - 1] &&
      t[|t| - 1] == match op
        case NEG => -y
        case ADD => x + y
        case SUB => x - y
        case MUL => x * y
        case DIV => TDiv(x, y)
        case MOD => TMod(x, y)
        case EQ => if x == y then 1 else 0
        case GT => if x > y then 1 else 0
        case LT => if x < y then 1 else 0
        case GTE => if x >= y then 1 else 0
        case LTE => if x <= y then 1 else 0
  {
    var t := OperatorStep(op, ops).value;
    if op == NEG {
      assert t == ops[..|ops| - 1] + [-y];
    } else {
      assert t == ops[..|ops| - 2] + [BinaryOp(op, x, y).value];
    }
  }

  /** Running `a + b` steps is running `a` steps and then `b` more from there. */
  lemma {:induction false} RunSplit(insts: seq<Inst>, s: MState, a: nat, b: nat)
    requires Run(insts, s, a).out == Continue
    ensures Run(insts, s, a + b) == Run(insts, Run(insts, s, a).next, b)
    decreases a
  {
    if a > 0 {
      var r := StepF(insts, s);
      RunSplit(insts, r.next, a - 1, b);
      assert a + b - 1 == (a - 1) + b;
    }
  }

  /** A run that has halted or failed stays stopped: more steps change
      neither its outcome nor its state. */
  lemma {:induction false} RunStops(insts: seq<Inst>, s: MState, n: nat, m: nat)
    requires Run(insts, s, n).out != Continue
    ensures Run(insts, s, n + m) == Run(insts, s, n)
    decreases n
  {
    var r := StepF(insts, s);
    if r.out == Continue {
      RunStops(insts, r.next, n - 1, m);
      assert n + m - 1 == (n - 1) + m;
    }
  }

  /** The machine of vm.c. `insts` is the growable instruction buffer. */
  class VM {
    var opStack: array<int>
    var opSp: int
    var callStack: array<int>
    var callSp: int
    var ip: int
    var insts: seq<Inst>

    ghost predicate Valid()
      reads this
    {
      opStack.Length == STACK_SIZE && callStack.Length == STACK_SIZE &&
      opStack != callStack &&
      0 <= opSp <= STACK_SIZE && 0 <= callSp <= STACK_SIZE
    }

    ghost function State(): MState
      reads this, opStack, callStack
      requires Valid()
    {
      MState(opStack[..opSp], callStack[..callSp], ip)
    }

    /** A `VM` with its two arrays, initialised by `vm_init`. */
    constructor ()
      ensures Valid() && fresh(opStack) && fresh(callStack)
      ensures State() == MState([], [], 0) && insts == []
    {
      opStack := new int[STACK_SIZE];
      callStack := new int[STACK_SIZE];
      opSp, callSp, ip, insts := 0, 0, 0, [];
    }

    /** `vm_init`: both stack counters and `ip` to 0, no instructions. */
    method Init()
      requires Valid()
      modifies this
      ensures Valid() && opStack == old(opStack) && callStack == old(callStack)
      ensures State() == MState([], [], 0) && insts == []
    {
      opSp := 0;
      callSp := 0;
      ip := 0;
      insts := [];
    }

    /** `sb_push(vm->insts, inst)`, the `EMIT` of the code generator. */
    method Emit(inst: Inst)
      modifies this`insts
      ensures insts == old(insts) + [inst]
    {
      insts := insts + [inst];
    }

    /** `vm->insts[at] = inst`: back-patching one emitted instruction. */
    method Patch(at: int, inst: Inst)
      requires 0 <= at < |insts|
      modifies this`insts
      ensures insts == old(insts)[at := inst]
    {
      insts := insts[at := inst];
    }

    /** `vm_step`; the returned outcome is `Continue` where the C code
        returns true and `Halted` where it returns false. */
    method Step() returns (out: Outcome)
      requires Valid() && StepF(insts, State()).out != Undefined
      modifies this, opStack, callStack
      ensures Valid() && insts == old(insts)
      ensures opStack == old(opStack) && callStack == old(callStack)
      ensures Stepped(out, State()) == StepF(insts, old(State()))
    {
      ghost var s := State();
      ghost var r := StepF(insts, s);
      var inst := insts[ip];
      ip := ip + 1;
      ghost var s1 := s.(ip := ip);
      match inst {
        case HALT =>
          return Halted;
        case NOP =>
        case OP(op) =>
          assert r == Stepped(Continue, s1.(ops := OperatorStep(op, s.ops).value));
          ApplyOperator(op);
        case PUSHC(lit) =>
          assert r == Stepped(Continue, s1.(calls := s.calls + [ToS64(lit)]));
          PushCall(ToS64(lit));
        case POPC =>
          if callSp == 0 {
            return Fatal(MSG_POPC_EMPTY);
          }
          assert r == Stepped(Continue, s1.(calls := s.calls[..|s.calls| - 1]));
          PopCall();
        case PUSHO(lit) =>
          assert r == Stepped(Continue, s1.(ops := s.ops + [ToS64(lit)]));
          PushOperand(ToS64(lit));
        case POPO =>
          if opSp == 0 {
            return Fatal(MSG_POPO_EMPTY);
          }
          assert r == Stepped(Continue, s1.(ops := s.ops[..|s.ops| - 1]));
          PopOperand();
        case LOAD(off) =>
          if off < 1 {
            return Fatal(MSG_LOAD_PAST);
          }
          if off > callSp {
            return Fatal(MSG_LOAD_BEFORE);
          }
          assert r == Stepped(Continue, s1.(ops := s.ops + [s.calls[|s.calls| - off]]));
          PushOperand(callStack[callSp - off]);
        case SAVE(off) =>
          if opSp == 0 {
            return Fatal(MSG_SAVE_EMPTY);
          }
          if off < 1 {
            return Fatal(MSG_SAVE_PAST);
          }
          if off > callSp {
            return Fatal(MSG_SAVE_BEFORE);
          }
          ghost var calls' := s.calls[|s.calls| - off := s.ops[|s.ops| - 1]];
          assert r == Stepped(Continue, s1.(ops := s.ops[..|s.ops| - 1], calls := calls'));
          SaveTop(off);
        case JZ(_) =>
          return Fatal(MSG_INVALID);
        case JMP(_) =>
          return Fatal(MSG_INVALID);
      }
      out := Continue;
    }

    /** `vm->call_stack[vm->call_sp++] = v`. */
    method PushCall(v: int)
      requires Valid() && callSp < STACK_SIZE
      modifies this`callSp, callStack
      ensures Valid() && State() == old(State()).(calls := old(State()).calls + [v])
    {
      callStack[callSp] := v;
      callSp := callSp + 1;
      assert callStack[..callSp] == old(callStack[..callSp]) + [v];
    }

    /** `vm->op_stack[vm->op_sp++] = v`. */
    method PushOperand(v: int)
      requires Valid() && opSp < STACK_SIZE
      modifies this`opSp, opStack
      ensures Valid() && State() == old(State()).(ops := old(State()).ops + [v])
    {
      opStack[opSp] := v;
      opSp := opSp + 1;
      assert opStack[..opSp] == old(opStack[..opSp]) + [v];
    }

    /** `vm->call_sp--`. */
    method PopCall()
      requires Valid() && 0 < callSp
      modifies this`callSp
      ensures Valid() && var s := old(State()); State() == s.(calls := s.calls[..|s.calls| - 1])
    {
      callSp := callSp - 1;
    }

    /** `vm->op_sp--`. */
    method PopOperand()
      requires Valid() && 0 < opSp
      modifies this`opSp
      ensures Valid() && var s := old(State()); State() == s.(ops := s.ops[..|s.ops| - 1])
    {
      opSp := opSp - 1;
    }

    /** `vm->call_stack[vm->call_sp - off] = vm->op_stack[--vm->op_sp]`. */
    method SaveTop(off: int)
      requires Valid() && 0 < opSp && 1 <= off <= callSp
      modifies this`opSp, callStack
      ensures Valid()
      ensures var s := old(State());
        State() == s.(ops := s.ops[..|s.ops| - 1], calls := s.calls[|s.calls| - off := s.ops[|s.ops| - 1]])
    {
      opSp := opSp - 1;
      callStack[callSp - off] := opStack[opSp];
      assert callStack[..callSp] == old(callStack[..callSp])[callSp - off := opStack[opSp]];
    }

    /** `operators[op](vm)`: the unary or binary operator macro, popping and
        pushing in place. */
    method ApplyOperator(op: Operator)
      requires Valid() && OperatorStep(op, opStack[..opSp]).Some?
      modifies this`opSp, opStack
      ensures Valid() && opStack[..opSp] == OperatorStep(op, old(opStack[..opSp])).value
    {
      ghost var ops := opStack[..opSp];
      if op == NEG {
        opSp := opSp - 1;
        var x := opStack[opSp];
        opStack[opSp] := -x;
        opSp := opSp + 1;
        assert opStack[..opSp] == ops[..|ops| - 1] + [-x];
      } else {
        opSp := opSp - 1;
        var y := opStack[opSp];
        opSp := opSp - 1;
        var x := opStack[opSp];
        var v := BinaryOp(op, x, y).value;
        opStack[opSp] := v;
        opSp := opSp + 1;
        assert opStack[..opSp] == ops[..|ops| - 2] + [v];
      }
    }
  }

  /** The program of `vm_test` (vm.c:118-124). */
  const TEST_PROGRAM: seq<Inst> :=
    [PUSHC(12), LOAD(1), PUSHO(3), OP(ADD), SAVE(1), POPC, HALT]

  /** The states `vm_test` passes through: before each of its seven steps
      and after the last. */
  const TEST_TRACE: seq<MState> := [
    MState([], [], 0), MState([], [12], 1), MState([12], [12], 2),
    MState([12, 3], [12], 3), MState([15], [12], 4), MState([], [15], 5),
    MState([], [], 6), MState([], [], 7)]

  /** The first step of the test program pushes the call slot 12. */
  lemma TestTracePushC()
    ensures StepF(TEST_PROGRAM, TEST_TRACE[0]) == Stepped(Continue, TEST_TRACE[1])
  {
  }

  /** The second step loads call slot 1 onto the op stack. */
  lemma TestTraceLoad()
    ensures StepF(TEST_PROGRAM, TEST_TRACE[1]) == Stepped(Continue, TEST_TRACE[2])
  {
  }

  /** The third step pushes the operand 3. */
  lemma TestTracePushO()
    ensures StepF(TEST_PROGRAM, TEST_TRACE[2]) == Stepped(Continue, TEST_TRACE[3])
  {
  }

  /** The fourth step adds 12 and 3. */
  lemma TestTraceAdd()
    ensures StepF(TEST_PROGRAM, TEST_TRACE[3]) == Stepped(Continue, TEST_TRACE[4])
  {
    assert BinaryOp(ADD, 12, 3) == Some(15);
    assert [12, 3][..0] + [15] == [15];
    assert OperatorStep(ADD, [12, 3]) == Some([15]);
  }

  /** The last three steps: the fifth and sixth continue, the seventh
      halts. */
  lemma TestTraceEnd()
    ensures StepF(TEST_PROGRAM, TEST_TRACE[4]) == Stepped(Continue, TEST_TRACE[5])
    ensures StepF(TEST_PROGRAM, TEST_TRACE[5]) == Stepped(Continue, TEST_TRACE[6])
    ensures StepF(TEST_PROGRAM, TEST_TRACE[6]) == Stepped(Halted, TEST_TRACE[7])
  {
  }

  /** `vm_test` without its printing: after `vm_init` and the seven
      `sb_push`es, the do-while loop runs the program. */
  method VmTest() returns (opSp: int, callSp: int, ip: int)
    ensures opSp == 0 && callSp == 0 && ip == 7
  {
    var vm := new VM();
    vm.Init();
    vm.Emit(PUSHC(12));
    vm.Emit(LOAD(1));
    vm.Emit(PUSHO(3));
    vm.Emit(OP(ADD));
    vm.Emit(SAVE(1));
    vm.Emit(POPC);
    vm.Emit(HALT);
    assert vm.insts == TEST_PROGRAM;
    RunTestProgram(vm);
    opSp, callSp, ip := vm.opSp, vm.callSp, vm.ip;
  }

  /** The loop `do { ... } while (vm_step(vm))` on the test program: six
      steps continue and the seventh halts; before POPC the only call slot
      holds 12 + 3 = 15, and both stacks end empty. */
  method RunTestProgram(vm: VM)
    requires vm.Valid() && vm.insts == TEST_PROGRAM && vm.State() == TEST_TRACE[0]
    modifies vm, vm.opStack, vm.callStack
    ensures vm.Valid() && vm.State() == MState([], [], 7)
  {
    TestTracePushC();
    TestTraceLoad();
    TestTracePushO();
    TestTraceAdd();
    TestTraceEnd();
    var o1 := vm.Step();
    assert o1 == Continue && vm.State() == TEST_TRACE[1];
    var o2 := vm.Step();
    assert o2 == Continue && vm.State() == TEST_TRACE[2];
    var o3 := vm.Step();
    assert o3 == Continue && vm.State() == TEST_TRACE[3];
    var o4 := vm.Step();
    assert o4 == Continue && vm.State() == TEST_TRACE[4];
    var o5 := vm.Step();
    assert o5 == Continue && vm.State() == TEST_TRACE[5];
    assert vm.callStack[..vm.callSp] == [15];
    assert vm.callStack[0] == 15;
    var o6 := vm.Step();
    assert o6 == Continue && vm.State() == TEST_TRACE[6];
    var o7 := vm.Step();
    assert o7 == Halted && vm.State() == TEST_TRACE[7];
  }

  /** The test program, run as a whole, halts after seven steps with both
      stacks empty. */
  lemma {:induction false} TestProgramHalts()
    ensures Run(TEST_PROGRAM, TEST_TRACE[0], 7) == Stepped(Halted, MState([], [], 7))
    ensures Run(TEST_PROGRAM, TEST_TRACE[0], 6) == Stepped(Continue, TEST_TRACE[6])
  {
    TestTracePushC();
    TestTraceLoad();
    TestTracePushO();
    TestTraceAdd();
    TestTraceEnd();
    assert Run(TEST_PROGRAM, TEST_TRACE[6], 1) == Stepped(Halted, TEST_TRACE[7]);
    assert Run(TEST_PROGRAM, TEST_TRACE[5], 2) == Stepped(Halted, TEST_TRACE[7]);
    assert Run(TEST_PROGRAM, TEST_TRACE[4], 3) == Stepped(Halted, TEST_TRACE[7]);
    assert Run(TEST_PROGRAM, TEST_TRACE[3], 4) == Stepped(Halted, TEST_TRACE[7]);
    assert Run(TEST_PROGRAM, TEST_TRACE[2], 5) == Stepped(Halted, TEST_TRACE[7]);
    assert Run(TEST_PROGRAM, TEST_TRACE[1], 6) == Stepped(Halted, TEST_TRACE[7]);
    assert Run(TEST_PROGRAM, TEST_TRACE[5], 1) == Stepped(Continue, TEST_TRACE[6]);
    assert Run(TEST_PROGRAM, TEST_TRACE[4], 2) == Stepped(Continue, TEST_TRACE[6]);
    assert Run(TEST_PROGRAM, TEST_TRACE[3], 3) == Stepped(Continue, TEST_TRACE[6]);
    assert Run(TEST_PROGRAM, TEST_TRACE[2], 4) == Stepped(Continue, TEST_TRACE[6]);
    assert Run(TEST_PROGRAM, TEST_TRACE[1], 5) == Stepped(Continue, TEST_TRACE[6]);
  }
}
