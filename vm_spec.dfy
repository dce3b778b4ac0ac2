/** The stack machine as functions on a machine state: the reference the imperative
    machine is proved against. Reads and writes outside the 2000 stack cells, a PC
    outside the code, and division by zero are undefined in the C code; here they are
    faults that stop the machine. */
module VmSpec {
  import opened Structs
  import opened Pm0Constants
  import opened CArith

  const MAXSTACK := 2000
  const MAXCODE := 500

  /** The registers, the stack, the integers still to be read by IN and those written
      by OUT. */
  datatype VmState = VmState(pc: int, bp: int, sp: int, ir: Instruction, stack: seq<int>,
                             input: seq<int>, output: seq<int>)

  /** How a run ends: at the end of the program, on a fault, or when the step bound is
      used up. */
  datatype Outcome = Halted | Faulted | OutOfSteps

  predicate InStack(s: VmState, i: int) {
    0 <= i < |s.stack|
  }

  /** vm: PC = 0, BP = 0, SP = -1, the zeroed stack of calloc and the zeroed global IR. */
  function Initial(input: seq<int>): (r: VmState)
    ensures r.pc == 0 && r.bp == 0 && r.sp == -1 && |r.stack| == MAXSTACK
    ensures forall i :: 0 <= i < |r.stack| ==> r.stack[i] == 0
    ensures r.input == input && r.output == []
  {
    VmState(0, 0, -1, Instruction(0, 0, 0), seq(MAXSTACK, _ => 0), input, [])
  }

  /** endOfProgram: the machine stops when SP is -1 after executing OPR 0 0. */
  predicate EndOfProgram(s: VmState) {
    s.sp == -1 && s.ir == Instruction(OPR, 0, RET)
  }

  /** fetch: IR takes the instruction at PC, and PC moves on by one. */
  function Fetch(code: seq<Instruction>, s: VmState): (r: Option<VmState>)
    ensures r.Some? <==> 0 <= s.pc < |code|
    ensures r.Some? ==> r.value.ir == code[s.pc] && r.value.pc == s.pc + 1
                        && r.value.(ir := s.ir, pc := s.pc) == s
  {
    if 0 <= s.pc < |code| then Some(s.(ir := code[s.pc], pc := s.pc + 1)) else None
  }

  /** base: the frame l static links down from bp; a link read outside the stack is a
      fault. */
  function Base(stack: seq<int>, bp: int, l: int): (r: Option<int>)
    ensures l <= 0 ==> r == Some(bp)
    decreases l
  {
    if l <= 0 then Some(bp)
    else if 0 <= bp < |stack| then Base(stack, stack[bp], l - 1)
    else None
  }

  /** A push onto the stack, as LIT, LOD and IN do. */
  function Push(s: VmState, v: int): Option<VmState> {
    if InStack(s, s.sp + 1) then Some(s.(sp := s.sp + 1, stack := s.stack[s.sp + 1 := v])) else None
  }

  /** The value NEG and ODD leave in place of the top of the stack. */
  function Unary(m: int, a: int): (r: int)
    requires m == NEG || m == ODD
    ensures m == ODD ==> (r == 0 || r == 1) && (r == 1 <==> a % 2 != 0)
    ensures m == NEG ==> r + a == 0
  {
    if m == NEG then -a else if CMod(a, 2) == 0 then 0 else 1
  }

  /** The value a binary OPR leaves in place of its two operands, or None for a division
      or remainder by zero. Comparisons give 1 or 0. */
  function Binary(m: int, a: int, b: int): (r: Option<int>)
    requires ADD <= m <= GEQ && m != ODD
    ensures r.None? <==> (m == DIV || m == MOD) && b == 0
    ensures EQL <= m <= GEQ ==> r.Some? && (r.value == 0 || r.value == 1)
    ensures m == EQL ==> r == Some(if a == b then 1 else 0)
    ensures m == GEQ ==> r == Some(if a >= b then 1 else 0)
  {
    if m == ADD then Some(a + b)
    else if m == SUB then Some(a - b)
    else if m == MUL then Some(a * b)
    else if m == DIV then (if b == 0 then None else Some(CDiv(a, b)))
    else if m == MOD then (if b == 0 then None else Some(CMod(a, b)))
    else if m == EQL then Some(if a == b then 1 else 0)
    else if m == NEQ then Some(if a != b then 1 else 0)
    else if m == LSS then Some(if a < b then 1 else 0)
    else if m == LEQ then Some(if a <= b then 1 else 0)
    else if m == GTR then Some(if a > b then 1 else 0)
    else Some(if a >= b then 1 else 0)
  }

  /** executeOPR: RET, the unary and binary operations; any other M does nothing. */
  function ExecuteOpr(s: VmState): (r: Option<VmState>)
    ensures r.Some? ==> |r.value.stack| == |s.stack| && r.value.ir == s.ir
    ensures r.Some? ==> r.value.input == s.input && r.value.output == s.output
  {
    var m := s.ir.m;
    if m == RET then
      if InStack(s, s.bp + 1) && InStack(s, s.bp + 2) then
        Some(s.(sp := s.bp - 1, pc := s.stack[s.bp + 2], bp := s.stack[s.bp + 1]))
      else None
    else if m == NEG || m == ODD then
      if InStack(s, s.sp) then Some(s.(stack := s.stack[s.sp := Unary(m, s.stack[s.sp])])) else None
    else if ADD <= m <= GEQ then
      if InStack(s, s.sp - 1) && InStack(s, s.sp) then
        match Binary(m, s.stack[s.sp - 1], s.stack[s.sp])
        case None => None
        case Some(v) => Some(s.(sp := s.sp - 1, stack := s.stack[s.sp - 1 := v]))
      else None
    else Some(s)
  }

  /** execute: the instruction in IR; an unknown opcode does nothing. */
  function Execute(s: VmState): (r: Option<VmState>)
    ensures r.Some? ==> |r.value.stack| == |s.stack| && r.value.ir == s.ir
    ensures r.Some? ==> s.output <= r.value.output && |r.value.output| <= |s.output| + 1
    ensures r.Some? ==> r.value.input == s.input || (s.input != [] && r.value.input == s.input[1..])
  {
    var ir := s.ir;
    if ir.op == LIT then Push(s, ir.m)
    else if ir.op == OPR then ExecuteOpr(s)
    else if ir.op == LOD then
      match Base(s.stack, s.bp, ir.l)
      case None => None
      case Some(b) => if InStack(s, b + ir.m) then Push(s, s.stack[b + ir.m]) else None
    else if ir.op == STO then
      match Base(s.stack, s.bp, ir.l)
      case None => None
      case Some(b) =>
        if InStack(s, b + ir.m) && InStack(s, s.sp) then
          Some(s.(stack := s.stack[b + ir.m := s.stack[s.sp]], sp := s.sp - 1))
        else None
    else if ir.op == CAL then
      match Base(s.stack, s.bp, ir.l)
      case None => None
      case Some(b) =>
        if InStack(s, s.sp + 1) && InStack(s, s.sp + 3) then
          Some(s.(stack := s.stack[s.sp + 1 := b][s.sp + 2 := s.bp][s.sp + 3 := s.pc],
                  bp := s.sp + 1, pc := ir.m))
        else None
    else if ir.op == INC then Some(s.(sp := s.sp + ir.m))
    else if ir.op == JMP then Some(s.(pc := ir.m))
    else if ir.op == JPC then
      if InStack(s, s.sp) then
        Some(s.(pc := if s.stack[s.sp] == 0 then ir.m else s.pc, sp := s.sp - 1))
      else None
    else if ir.op == OUT then
      if InStack(s, s.sp) then Some(s.(output := s.output + [s.stack[s.sp]], sp := s.sp - 1)) else None
    else if ir.op == IN then
      if !InStack(s, s.sp + 1) then None
      else if s.input == [] then Some(s.(sp := s.sp + 1))
      else Some(s.(sp := s.sp + 1, stack := s.stack[s.sp + 1 := s.input[0]], input := s.input[1..]))
    else Some(s)
  }

  /** The `while (!endOfProgram())` loop of vm, for at most `steps` fetch-execute cycles.
      A fault in execute ends the run in the fetched state. */
  function Run(code: seq<Instruction>, s: VmState, steps: nat): (VmState, Outcome)
    decreases steps
  {
    if EndOfProgram(s) then (s, Halted)
    else if steps == 0 then (s, OutOfSteps)
    else match Fetch(code, s)
      case None => (s, Faulted)
      case Some(f) =>
        match Execute(f)
        case None => (f, Faulted)
        case Some(t) => Run(code, t, steps - 1)
  }

  /** vm: the integers written and how the run ended. */
  function Vm(code: seq<Instruction>, input: seq<int>, steps: nat): (seq<int>, Outcome) {
    var (s, outcome) := Run(code, Initial(input), steps);
    (s.output, outcome)
  }

  /** opToString: the mnemonic of an opcode, three blanks for an unknown one. */
  function OpToString(op: int): (r: string)
    ensures |r| == 3
    ensures r == "   " <==> !(LIT <= op <= IN)
  {
    if op == LIT then "lit"
    else if op == OPR then "opr"
    else if op == LOD then "lod"
    else if op == STO then "sto"
    else if op == CAL then "cal"
    else if op == INC then "inc"
    else if op == JMP then "jmp"
    else if op == JPC then "jpc"
    else if op == OUT then "out"
    else if op == IN then " in"
    else "   "
  }
}
