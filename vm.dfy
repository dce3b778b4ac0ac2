/** The stack machine of vm.h: the globals PC, BP, SP, IR and the stack array as the
    fields of a machine, each C function as a method proved against the reference
    functions of VmSpec. */
module Vm {
  import opened Structs
  import opened Pm0Constants
  import opened CArith
  import Decimal
  import Spec = VmSpec

  class Machine {
    /** The code read by readCode. */
    const code: seq<Instruction>
    const stack: array<int>
    var pc: int
    var bp: int
    var sp: int
    var ir: Instruction
    /** The integers IN will read, and those OUT has printed. */
    var input: seq<int>
    var output: seq<int>

    ghost predicate Valid()
      reads this
    {
      stack.Length == Spec.MAXSTACK
    }

    ghost function State(): Spec.VmState
      reads this, stack
    {
      Spec.VmState(pc, bp, sp, ir, stack[..], input, output)
    }

    /** vm's initialisation: a zeroed stack, PC = 0, BP = 0, SP = -1. */
    constructor (code: seq<Instruction>, input: seq<int>)
      ensures Valid() && this.code == code && State() == Spec.Initial(input)
      ensures fresh(stack)
    {
      this.code := code;
      stack := new int[Spec.MAXSTACK](_ => 0);
      pc, bp, sp := 0, 0, -1;
      ir := Instruction(0, 0, 0);
      this.input := input;
      output := [];
    }

    method EndOfProgram() returns (b: bool)
      requires Valid()
      ensures b == Spec.EndOfProgram(State())
    {
      b := sp == -1 && ir.op == OPR && ir.l == 0 && ir.m == 0;
    }

    /** fetch: fails, changing nothing, when PC is outside the code. */
    method Fetch() returns (ok: bool)
      requires Valid()
      modifies this
      ensures Valid() && Spec.Fetch(code, old(State())) == (if ok then Some(State()) else None)
      ensures !ok ==> State() == old(State())
    {
      if 0 <= pc < |code| {
        ir := code[pc];
        pc := pc + 1;
        ok := true;
      } else {
        ok := false;
      }
    }

    /** base: follows IR.L static links down from BP. */
    method Base() returns (b: Option<int>)
      requires Valid()
      ensures b == Spec.Base(stack[..], bp, ir.l)
    {
      var baseLevel := bp;
      var level := ir.l;
      while level > 0
        invariant Spec.Base(stack[..], baseLevel, level) == Spec.Base(stack[..], bp, ir.l)
        decreases level
      {
        if !(0 <= baseLevel < stack.Length) {
          return None;
        }
        baseLevel := stack[baseLevel];
        level := level - 1;
      }
      return Some(baseLevel);
    }

    method Push(v: int) returns (ok: bool)
      requires Valid()
      modifies this, stack
      ensures Valid() && Spec.Push(old(State()), v) == (if ok then Some(State()) else None)
      ensures !ok ==> State() == old(State())
    {
      if 0 <= sp + 1 < stack.Length {
        sp := sp + 1;
        stack[sp] := v;
        ok := true;
      } else {
        ok := false;
      }
    }

    /** LOD: pushes the cell M above the frame base(L). */
    method Load() returns (ok: bool)
      requires Valid() && ir.op == LOD
      modifies this, stack
      ensures Valid() && Spec.Execute(old(State())) == (if ok then Some(State()) else None)
      ensures !ok ==> State() == old(State())
    {
      var b := Base();
      if b.None? || !(0 <= b.value + ir.m < stack.Length) {
        return false;
      }
      ok := Push(stack[b.value + ir.m]);
    }

    /** STO: pops the top into the cell M above the frame base(L). */
    method Store() returns (ok: bool)
      requires Valid() && ir.op == STO
      modifies this, stack
      ensures Valid() && Spec.Execute(old(State())) == (if ok then Some(State()) else None)
      ensures !ok ==> State() == old(State())
    {
      var b := Base();
      if b.None? || !(0 <= b.value + ir.m < stack.Length) || !(0 <= sp < stack.Length) {
        return false;
      }
      stack[b.value + ir.m] := stack[sp];
      sp := sp - 1;
      ok := true;
    }

    /** CAL: writes the static link base(L), the dynamic link BP and the return address
      PC above SP, makes that the new frame and jumps to M. */
    method Call() returns (ok: bool)
      requires Valid() && ir.op == CAL
      modifies this, stack
      ensures Valid() && Spec.Execute(old(State())) == (if ok then Some(State()) else None)
      ensures !ok ==> State() == old(State())
    {
      var b := Base();
      if b.None? || !(0 <= sp + 1 && sp + 3 < stack.Length) {
        return false;
      }
      stack[sp + 1] := b.value;
      stack[sp + 2] := bp;
      stack[sp + 3] := pc;
      bp := sp + 1;
      pc := ir.m;
      ok := true;
    }

    /** JPC: jumps to M when the top is 0, and pops it either way. */
    method JumpIfZero() returns (ok: bool)
      requires Valid() && ir.op == JPC
      modifies this
      ensures Valid() && Spec.Execute(old(State())) == (if ok then Some(State()) else None)
      ensures !ok ==> State() == old(State())
    {
      if !(0 <= sp < stack.Length) {
        return false;
      }
      if stack[sp] == 0 {
        pc := ir.m;
      }
      sp := sp - 1;
      ok := true;
    }

    /** OUT: prints the top and pops it. */
    method Write() returns (ok: bool)
      requires Valid() && ir.op == OUT
      modifies this
      ensures Valid() && Spec.Execute(old(State())) == (if ok then Some(State()) else None)
      ensures !ok ==> State() == old(State())
    {
      if !(0 <= sp < stack.Length) {
        return false;
      }
      output := output + [stack[sp]];
      sp := sp - 1;
      ok := true;
    }

    /** IN: pushes the next integer read; when none is left, scanf leaves the new top
      as it was. */
    method Read() returns (ok: bool)
      requires Valid() && ir.op == IN
      modifies this, stack
      ensures Valid() && Spec.Execute(old(State())) == (if ok then Some(State()) else None)
      ensures !ok ==> State() == old(State())
    {
      if !(0 <= sp + 1 < stack.Length) {
        return false;
      }
      sp := sp + 1;
      if input != [] {
        stack[sp] := input[0];
        input := input[1..];
      }
      ok := true;
    }

    /** executeOPR. */
    method ExecuteOpr() returns (ok: bool)
      requires Valid() && ir.op == OPR
      modifies this, stack
      ensures Valid() && Spec.ExecuteOpr(old(State())) == (if ok then Some(State()) else None)
      ensures !ok ==> State() == old(State())
    {
      var m := ir.m;
      if m == RET {
        if !(0 <= bp + 1 && bp + 2 < stack.Length) {
          return false;
        }
        sp := bp - 1;
        pc := stack[sp + 3];
        bp := stack[sp + 2];
        ok := true;
      } else if m == NEG || m == ODD {
        if !(0 <= sp < stack.Length) {
          return false;
        }
        if m == NEG {
          stack[sp] := stack[sp] * -1;
        } else {
          stack[sp] := if CMod(stack[sp], 2) == 0 then 0 else 1;
        }
        ok := true;
      } else if ADD <= m <= GEQ {
        ok := Arithmetic();
      } else {
        ok := true;
      }
    }

    /** The binary sub-operations of executeOPR: SP goes down by one and the new top is
      the result of the two operands. */
    method Arithmetic() returns (ok: bool)
      requires Valid() && ADD <= ir.m <= GEQ && ir.m != ODD
      modifies this, stack
      ensures Valid() && Spec.ExecuteOpr(old(State())) == (if ok then Some(State()) else None)
      ensures !ok ==> State() == old(State())
    {
      if !(0 <= sp - 1 && sp < stack.Length) {
        return false;
      }
      var a, b := stack[sp - 1], stack[sp];
      if (ir.m == DIV || ir.m == MOD) && b == 0 {
        return false;
      }
      var m := ir.m;
      var v :=
        if m == ADD then a + b
        else if m == SUB then a - b
        else if m == MUL then a * b
        else if m == DIV then CDiv(a, b)
        else if m == MOD then CMod(a, b)
        else if m == EQL then (if a == b then 1 else 0)
        else if m == NEQ then (if a != b then 1 else 0)
        else if m == LSS then (if a < b then 1 else 0)
        else if m == LEQ then (if a <= b then 1 else 0)
        else if m == GTR then (if a > b then 1 else 0)
        else (if a >= b then 1 else 0);
      assert Spec.Binary(m, a, b) == Some(v);
      sp := sp - 1;
      stack[sp] := v;
      ok := true;
    }

    /** execute: dispatches on the opcode in IR; an unknown opcode does nothing. */
    method Execute() returns (ok: bool)
      requires Valid()
      modifies this, stack
      ensures Valid() && Spec.Execute(old(State())) == (if ok then Some(State()) else None)
      ensures !ok ==> State() == old(State())
    {
      var op := ir.op;
      if op == LIT {
        ok := Push(ir.m);
      } else if op == OPR {
        ok := ExecuteOpr();
      } else if op == LOD {
        ok := Load();
      } else if op == STO {
        ok := Store();
      } else if op == CAL {
        ok := Call();
      } else if op == INC {
        sp := sp + ir.m;
        ok := true;
      } else if op == JMP {
        pc := ir.m;
        ok := true;
      } else if op == JPC {
        ok := JumpIfZero();
      } else if op == OUT {
        ok := Write();
      } else if op == IN {
        ok := Read();
      } else {
        ok := true;
      }
    }

    /** The `while (!endOfProgram())` loop: fetch and execute, for at most `steps`
      cycles. */
    method Run(steps: nat) returns (outcome: Spec.Outcome)
      requires Valid()
      modifies this, stack
      ensures Valid() && (State(), outcome) == Spec.Run(code, old(State()), steps)
    {
      var n := steps;
      while true
        invariant Valid() && Spec.Run(code, State(), n) == Spec.Run(code, old(State()), steps)
        decreases n
      {
        var end := EndOfProgram();
        if end {
          return Spec.Halted;
        }
        if n == 0 {
          return Spec.OutOfSteps;
        }
        var ok := Fetch();
        if !ok {
          return Spec.Faulted;
        }
        ok := Execute();
        if !ok {
          return Spec.Faulted;
        }
        n := n - 1;
      }
    }
  }

  /** vm: runs the code on the given input and returns what OUT printed. */
  method RunProgram(code: seq<Instruction>, input: seq<int>, steps: nat) returns (output: seq<int>, outcome: Spec.Outcome)
    ensures (output, outcome) == Spec.Vm(code, input, steps)
  {
    var machine := new Machine(code, input);
    outcome := machine.Run(steps);
    output := machine.output;
  }

  /** The decimal digits of n, or nothing for 0. */
  ghost function Leading(n: nat): string {
    if n == 0 then [] else Decimal.NatDigits(n)
  }

  /** The last digit of a positive number splits off with `/ 10` and `% 10`. */
  lemma LeadingLast(digits: string, x: nat, tail: string)
    requires x > 0 && digits == Leading(x) + tail
    ensures digits == Leading(x / 10) + ([Decimal.DigitChar(x % 10)] + tail)
    ensures |Leading(x / 10)| + 1 == |Leading(x)|
  {
    assert Leading(x) == Leading(x / 10) + [Decimal.DigitChar(x % 10)];
  }

  /** intToString: counts the digits with repeated `/ 10`, then fills the text from its
      last character with `% 10`, and puts '-' in front of a negative number. */
  method IntToString(num: int) returns (str: string)
    ensures str == Decimal.DecimalText(num)
  {
    if num == 0 {
      return "0";
    }
    var len := DigitCount(num);
    var neg := false;
    var x := num;
    if x < 0 {
      neg := true;
      len := len + 1;
      x := x * -1;
    }
    var buffer := new char[len];
    WriteDigits(buffer, x);
    if neg {
      buffer[0] := '-';
      assert buffer[..] == ['-'] + buffer[1..];
    }
    str := buffer[..];
  }

  /** The first loop of intToString: the number of times n can be divided by 10 before
      it reaches 0, which is the number of its decimal digits. */
  method DigitCount(num: int) returns (len: nat)
    requires num != 0
    ensures len == |Decimal.NatDigits(Abs(num))|
  {
    len := 0;
    var n := num;
    while n != 0
      invariant n != 0 ==> len + |Decimal.NatDigits(Abs(n))| == |Decimal.NatDigits(Abs(num))|
      invariant n == 0 ==> len == |Decimal.NatDigits(Abs(num))|
      decreases Abs(n)
    {
      CDivTenAbs(n);
      len := len + 1;
      n := CDiv(n, 10);
    }
  }

  /** After i rounds of the second loop of intToString over a buffer b, with x left to
      write: the digits still in x followed by the last i characters of b are the
      digits; after a round past the digits, those stay at the end of b. */
  ghost predicate Filled(b: seq<char>, i: nat, x: nat, digits: string) {
    i <= |b| && (x == 0 || i <= |digits|)
    && (i <= |digits| ==> |Leading(x)| == |digits| - i && digits == Leading(x) + b[|b| - i..])
    && (i > |digits| ==> |digits| <= |b| && b[|b| - |digits|..] == digits)
  }

  /** One round writes the last digit of x in front of those written. */
  lemma FilledStep(b: seq<char>, i: nat, x: nat, digits: string)
    requires Filled(b, i, x, digits) && i < |b|
    ensures Filled(b[|b| - i - 1 := Decimal.DigitChar(x % 10)], i + 1, x / 10, digits)
  {
    var c := Decimal.DigitChar(x % 10);
    var b' := b[|b| - i - 1 := c];
    assert b'[|b| - i - 1..] == [c] + b[|b| - i..];
    if i < |digits| {
      LeadingLast(digits, x, b[|b| - i..]);
    } else if i > |digits| {
      assert b'[|b| - |digits|..] == b[|b| - |digits|..];
    }
  }

  /** The second loop of intToString: `buffer.Length` rounds of `% 10` and `/ 10` write
      the digits of x0 right-aligned; one extra round, for the sign, writes a '0' in
      front. */
  method WriteDigits(buffer: array<char>, x0: nat)
    requires x0 > 0
    requires |Decimal.NatDigits(x0)| <= buffer.Length <= |Decimal.NatDigits(x0)| + 1
    modifies buffer
    ensures buffer[buffer.Length - |Decimal.NatDigits(x0)|..] == Decimal.NatDigits(x0)
  {
    ghost var digits := Decimal.NatDigits(x0);
    var len := buffer.Length;
    var x := x0;
    var i := 0;
    assert buffer[len - 0..] == [];
    while i < len
      invariant 0 <= i <= len && x >= 0 && len == buffer.Length
      invariant Filled(buffer[..], i, x, digits)
    {
      ghost var b := buffer[..];
      CDivModNonNegative(x, 10);
      FilledStep(b, i, x, digits);
      var rem := CMod(x, 10);
      x := CDiv(x, 10);
      buffer[len - i - 1] := Decimal.DigitChar(rem);
      assert buffer[..] == b[|b| - i - 1 := Decimal.DigitChar(rem)];
      i := i + 1;
    }
  }
}
