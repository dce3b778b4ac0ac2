/** Properties of the stack machine, and how it runs the code the parser emits. */
module VmLemmas {
  import opened Structs
  import opened Pl0Constants
  import opened Pm0Constants
  import opened VmSpec
  import ParseSpec
  import ParseCode

  /** Following a + b static links is following a links and then b more. */
  lemma {:induction false} BaseSplit(stack: seq<int>, bp: int, a: nat, b: nat)
    ensures Base(stack, bp, a + b) == match Base(stack, bp, a) case None => None case Some(x) => Base(stack, x, b)
    decreases a
  {
    if a > 0 && 0 <= bp < |stack| {
      BaseSplit(stack, stack[bp], a - 1, b);
    }
  }

  /** One static link is the cell at BP, where CAL stored base(L) of the caller. */
  lemma BaseOne(stack: seq<int>, bp: int)
    requires 0 <= bp < |stack|
    ensures Base(stack, bp, 1) == Some(stack[bp])
  {
  }

  /** CAL and RET: whatever the called code does, if it returns with BP at the frame CAL
      made and the dynamic link and return address still in place, RET resumes after the
      CAL with the caller's BP and SP. */
  lemma CallReturn(s: VmState, t: VmState)
    requires s.ir.op == CAL && Execute(s).Some?
    requires var c := Execute(s).value;
      t.ir == Instruction(OPR, 0, RET) && t.bp == c.bp && |t.stack| == |c.stack|
      && t.stack[c.bp + 1] == c.stack[c.bp + 1] && t.stack[c.bp + 2] == c.stack[c.bp + 2]
    ensures Execute(s).value.bp == s.sp + 1 && Execute(s).value.pc == s.ir.m
    ensures Execute(t).Some?
    ensures var r := Execute(t).value; r.pc == s.pc && r.bp == s.bp && r.sp == s.sp
  {
  }

  /** CAL writes the static link base(L), the dynamic link BP and the return address PC
      into the three cells above SP, changes no other cell, keeps SP, and enters the new
      frame at SP + 1 with PC = M. */
  lemma CallWrites(s: VmState)
    requires s.ir.op == CAL && Execute(s).Some?
    ensures var t := Execute(s).value;
      Base(s.stack, s.bp, s.ir.l).Some?
      && t.stack == s.stack[s.sp + 1 := Base(s.stack, s.bp, s.ir.l).value][s.sp + 2 := s.bp][s.sp + 3 := s.pc]
      && t.sp == s.sp && t.bp == s.sp + 1 && t.pc == s.ir.m
      && t.input == s.input && t.output == s.output
  {
  }

  /** The single stack cell an instruction other than CAL writes, if any. */
  lemma OneCellWritten(s: VmState)
    requires Execute(s).Some? && s.ir.op != CAL
    ensures var t := Execute(s).value;
      t.stack == s.stack || exists w :: 0 <= w < |s.stack| && t.stack == s.stack[w := t.stack[w]]
  {
    var t := Execute(s).value;
    var op, m := s.ir.op, s.ir.m;
    if op == LIT || op == LOD || op == IN {
      if t.stack != s.stack {
        assert t.stack == s.stack[s.sp + 1 := t.stack[s.sp + 1]];
      }
    } else if op == STO {
      var w := Base(s.stack, s.bp, s.ir.l).value + m;
      assert t.stack == s.stack[w := t.stack[w]];
    } else if op == OPR && (m == NEG || m == ODD) {
      assert t.stack == s.stack[s.sp := t.stack[s.sp]];
    } else if op == OPR && ADD <= m <= GEQ {
      assert t.stack == s.stack[s.sp - 1 := t.stack[s.sp - 1]];
    }
  }

  /** How each instruction moves SP and PC: LIT, LOD and IN push; STO, JPC and OUT pop;
      INC adds M; a binary OPR pops one and leaves its result on top; JMP goes to M; JPC
      goes to M only on 0; RET goes back to the frame below BP. */
  lemma RegisterEffects(s: VmState)
    requires Execute(s).Some?
    ensures var t := Execute(s).value; var op, m := s.ir.op, s.ir.m;
      (op == LIT || op == LOD || op == IN ==> t.sp == s.sp + 1)
      && (op == LIT ==> t.stack[t.sp] == m)
      && (op == STO || op == JPC || op == OUT ==> t.sp == s.sp - 1)
      && (op == OUT ==> t.output == s.output + [s.stack[s.sp]])
      && (op == INC ==> t.sp == s.sp + m)
      && (op == CAL || op == JMP ==> t.sp == s.sp)
      && (op == JMP ==> t.pc == m)
      && (op == JPC ==> t.pc == if s.stack[s.sp] == 0 then m else s.pc)
      && (op == OPR && (m == NEG || m == ODD) ==> t.sp == s.sp)
      && (op == OPR && ADD <= m <= GEQ && m != ODD ==>
            t.sp == s.sp - 1 && Binary(m, s.stack[s.sp - 1], s.stack[s.sp]) == Some(t.stack[t.sp]))
      && (op == OPR && m == RET ==> t.sp == s.bp - 1 && t.bp == s.stack[s.bp + 1] && t.pc == s.stack[s.bp + 2])
      && (op != CAL && op != JMP && op != JPC && !(op == OPR && m == RET) ==> t.pc == s.pc)
  {
  }

  /** An unknown opcode, or an OPR whose M is no sub-operation (such as 14), changes
      nothing beyond the fetch. */
  lemma UnknownDoesNothing(s: VmState)
    requires !(LIT <= s.ir.op <= IN) || (s.ir.op == OPR && !(RET <= s.ir.m <= GEQ))
    ensures Execute(s) == Some(s)
  {
  }

  /** OPR 0 0 in the main frame (BP = 0) sets SP to -1, so the machine stops. */
  lemma MainReturnHalts(s: VmState)
    requires s.bp == 0 && s.ir == Instruction(OPR, 0, RET) && Execute(s).Some?
    ensures EndOfProgram(Execute(s).value)
  {
  }

  /** The machine does not stop before its first instruction. */
  lemma InitialRuns(input: seq<int>)
    ensures !EndOfProgram(Initial(input))
  {
  }

  /** A run stops at the end of the program only when the end is reached, keeps the
      stack's size, only appends to the output, and only consumes the input. */
  lemma {:induction false} RunFacts(code: seq<Instruction>, s: VmState, steps: nat)
    ensures var (t, outcome) := Run(code, s, steps);
      (outcome == Halted ==> EndOfProgram(t)) && (outcome == OutOfSteps ==> !EndOfProgram(t))
      && |t.stack| == |s.stack| && s.output <= t.output
      && |t.input| <= |s.input| && t.input == s.input[|s.input| - |t.input|..]
    decreases steps
  {
    if !EndOfProgram(s) && steps > 0 {
      match Fetch(code, s)
      case None =>
      case Some(f) =>
        match Execute(f)
        case None =>
        case Some(t) =>
          RunFacts(code, t, steps - 1);
          var u := Run(code, t, steps - 1).0;
          assert s.input[|s.input| - |t.input|..][|t.input| - |u.input|..] == s.input[|s.input| - |u.input|..];
    }
  }

  /** The stack depth the expression code is proved against is the machine's: one step of
      expression code moves SP by exactly the change in depth, and moves on to the next
      instruction. */
  lemma ExpressionStepAgrees(s: VmState, d: nat, e: nat)
    requires ParseCode.StackEffect(s.ir, d) == Some(e) && Execute(s).Some?
    ensures Execute(s).value.sp == s.sp + (e - d)
    ensures Execute(s).value.pc == s.pc
  {
  }

  /** Code whose stack depth goes from d to e, run by the machine from its first
      instruction, either faults (a stack cell outside the 2000, a division by zero) or
      runs to its end having moved SP by e - d. */
  lemma {:induction false} StraightLineRun(code: seq<Instruction>, s: VmState, k: nat, d: nat, e: nat)
    requires 0 <= s.pc && s.pc + k <= |code| && !EndOfProgram(s)
    requires ParseCode.StackRun(code[s.pc..s.pc + k], d) == Some(e)
    ensures var (t, outcome) := Run(code, s, k);
      outcome == Faulted || (outcome == OutOfSteps && t.pc == s.pc + k && t.sp == s.sp + e - d)
    decreases k
  {
    if k > 0 {
      var f := Fetch(code, s).value;
      assert code[s.pc..s.pc + k][1..] == code[s.pc + 1..s.pc + k];
      var d1 := ParseCode.StackEffect(code[s.pc], d).value;
      match Execute(f)
      case None =>
      case Some(t) =>
        ExpressionStepAgrees(f, d, d1);
        StraightLineRun(code, t, k - 1, d1, e);
    }
  }

  /** The code of an expression, run by the machine, faults or pushes exactly one value
      and continues after it. */
  lemma ExpressionEvaluates(st: ParseSpec.PState, s: VmState)
    requires st.status.Running? && s.pc == |st.code| && !EndOfProgram(s)
    requires ParseSpec.Expression(st).status.Running?
    ensures var code := ParseSpec.Expression(st).code;
      var (t, outcome) := Run(code, s, |code| - |st.code|);
      outcome == Faulted || (outcome == OutOfSteps && t.pc == |code| && t.sp == s.sp + 1)
  {
    ParseCode.ExpressionPushes(st);
    var code := ParseSpec.Expression(st).code;
    assert code[s.pc..s.pc + (|code| - |st.code|)] == code[|st.code|..];
    StraightLineRun(code, s, |code| - |st.code|, 0, 1);
  }

  /** Conditions are emitted as OPR 0 with the operator's token id, which the machine
      reads as the next comparison: `=` tests `<>`, `<>` tests `<`, `<` tests `<=`, `<=`
      tests `>` and `>` tests `>=`; `>=` becomes OPR 14, which does nothing (see
      UnknownDoesNothing). */
  lemma EmittedComparisons(a: int, b: int)
    ensures Binary(EQL_SYM, a, b) == Some(if a != b then 1 else 0)
    ensures Binary(NEQ_SYM, a, b) == Some(if a < b then 1 else 0)
    ensures Binary(LESS_SYM, a, b) == Some(if a <= b then 1 else 0)
    ensures Binary(LEQ_SYM, a, b) == Some(if a > b then 1 else 0)
    ensures Binary(GTR_SYM, a, b) == Some(if a >= b then 1 else 0)
    ensures !(RET <= GEQ_SYM <= GEQ)
  {
  }

  /** Each opcode has its own mnemonic. */
  lemma OpToStringDistinct(a: int, b: int)
    requires LIT <= a <= IN && LIT <= b <= IN && a != b
    ensures OpToString(a) != OpToString(b)
  {
  }
}
