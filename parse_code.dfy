/** The code emitted for expressions is postfix code: run from any stack depth, it
    leaves exactly one more value on the stack. */
module ParseCode {
  import opened Structs
  import opened Pl0Constants
  import opened Pm0Constants
  import opened ParseSpec
  import opened ParseLemmas

  /** The stack depth after one straight-line instruction of expression code, as the
      stack machine executes it, or None when it would pop an empty stack or is not
      expression code. An OPR whose M is no known sub-operation does nothing. */
  function StackEffect(ins: Instruction, d: nat): Option<nat> {
    if ins.op == LIT || ins.op == LOD then Some(d + 1)
    else if ins.op != OPR || ins.m == RET then None
    else if ins.m == NEG || ins.m == ODD then (if d >= 1 then Some(d) else None)
    else if ADD <= ins.m <= GEQ then (if d >= 2 then Some(d - 1) else None)
    else Some(d)
  }

  /** The stack depth after running code from depth d. */
  function StackRun(code: seq<Instruction>, d: nat): Option<nat>
    decreases |code|
  {
    if code == [] then Some(d)
    else match StackEffect(code[0], d)
      case None => None
      case Some(e) => StackRun(code[1..], e)
  }

  lemma {:induction false} StackRunAppend(a: seq<Instruction>, b: seq<Instruction>, d: nat)
    ensures StackRun(a + b, d) == match StackRun(a, d) case None => None case Some(e) => StackRun(b, e)
    decreases |a|
  {
    if a == [] {
      assert a + b == b;
    } else {
      assert (a + b)[0] == a[0] && (a + b)[1..] == a[1..] + b;
      match StackEffect(a[0], d)
      case None =>
        assert StackRun(a, d) == None && StackRun(a + b, d) == None;
      case Some(e) =>
        assert StackRun(a, d) == StackRun(a[1..], e);
        assert StackRun(a + b, d) == StackRun(a[1..] + b, e);
        StackRunAppend(a[1..], b, e);
    }
  }

  /** Code that runs from depth d runs the same way on k more values below. */
  lemma {:induction false} StackRunShift(a: seq<Instruction>, d: nat, e: nat, k: nat)
    requires StackRun(a, d) == Some(e)
    ensures StackRun(a, d + k) == Some(e + k)
    decreases |a|
  {
    if a != [] {
      var d' := StackEffect(a[0], d).value;
      assert StackEffect(a[0], d + k) == Some(d' + k);
      StackRunShift(a[1..], d', e, k);
    }
  }

  /** The code appended from st to r takes the stack from depth `from` to depth `to`. */
  predicate Emits(st: PState, r: PState, from: nat, to: nat) {
    st.code <= r.code && StackRun(r.code[|st.code|..], from) == Some(to)
  }

  lemma EmitsTrans(a: PState, b: PState, c: PState, x: nat, y: nat, z: nat)
    requires Emits(a, b, x, y) && Emits(b, c, y, z)
    ensures Emits(a, c, x, z)
  {
    assert c.code[|a.code|..] == b.code[|a.code|..] + c.code[|b.code|..];
    StackRunAppend(b.code[|a.code|..], c.code[|b.code|..], x);
  }

  lemma EmitsShift(a: PState, b: PState, x: nat, y: nat, k: nat)
    requires Emits(a, b, x, y)
    ensures Emits(a, b, x + k, y + k)
  {
    StackRunShift(b.code[|a.code|..], x, y, k);
  }

  lemma GenEmits(st: PState, op: int, m: int, x: nat, y: nat)
    requires StackEffect(Instruction(op, 0, m), x) == Some(y)
    requires Gen(st, op, 0, m).status.Running?
    ensures Emits(st, Gen(st, op, 0, m), x, y)
  {
    assert Gen(st, op, 0, m).code[|st.code|..] == [Instruction(op, 0, m)];
  }

  /** A factor pushes one value. */
  lemma {:induction false} FactorPushes(st: PState)
    requires st.status.Running?
    ensures Factor(st).status.Running? ==> Emits(st, Factor(st), 0, 1)
    decreases st.fuel
  {
    var s0 := Tick(st);
    if !s0.status.Running? {
    } else if s0.token == IDENT_SYM {
      var (name, s1) := IdenName(s0);
      if s1.status.Running? {
        var (symbol, s2) := Find(s1, name);
        if s2.status.Running? && Gen(s2, LOD, 0, symbol.stackPointer).status.Running? {
          GenEmits(s2, LOD, symbol.stackPointer, 0, 1);
        }
      }
    } else if s0.token == NUM_SYM {
      var (value, s1) := GetNumber(s0);
      if s1.status.Running? && Gen(s1, LIT, 0, value).status.Running? {
        GenEmits(s1, LIT, value, 0, 1);
      }
    } else if s0.token == LPAREN_SYM {
      ExpressionPushes(GetToken(s0));
    }
  }

  /** A term pushes one value. */
  lemma {:induction false} TermPushes(st: PState)
    requires st.status.Running?
    ensures Term(st).status.Running? ==> Emits(st, Term(st), 0, 1)
    decreases st.fuel
  {
    var s0 := Tick(st);
    if s0.status.Running? {
      var s1 := Factor(s0);
      FactorPushes(s0);
      if s1.status.Running? {
        TermLoopKeeps(s1);
        if TermLoop(s1).status.Running? {
          EmitsTrans(st, s1, TermLoop(s1), 0, 1, 1);
        }
      }
    }
  }

  /** The `*`/`/` loop leaves the depth as it found it: each factor pushes and each MUL or
      DIV pops back. */
  lemma {:induction false} TermLoopKeeps(st: PState)
    requires st.status.Running?
    ensures TermLoop(st).status.Running? ==> Emits(st, TermLoop(st), 1, 1)
    decreases st.fuel
  {
    if st.token == MULT_SYM || st.token == SLASH_SYM {
      var s0 := Tick(st);
      if s0.status.Running? {
        var s1 := Factor(GetToken(s0));
        FactorPushes(GetToken(s0));
        if s1.status.Running? {
          EmitsShift(st, s1, 0, 1, 1);
          var s2 := Gen(s1, OPR, 0, if s0.token == MULT_SYM then MUL else DIV);
          if s2.status.Running? {
            GenEmits(s1, OPR, if s0.token == MULT_SYM then MUL else DIV, 2, 1);
            EmitsTrans(st, s1, s2, 1, 2, 1);
            TermLoopKeeps(s2);
            if TermLoop(s2).status.Running? {
              EmitsTrans(st, s2, TermLoop(s2), 1, 1, 1);
            }
          }
        }
      }
    } else {
      assert st.code[|st.code|..] == [];
    }
  }

  /** An expression pushes one value. */
  lemma {:induction false} ExpressionPushes(st: PState)
    requires st.status.Running?
    ensures Expression(st).status.Running? ==> Emits(st, Expression(st), 0, 1)
    decreases st.fuel
  {
    var s0 := Tick(st);
    if s0.status.Running? {
      var s1 :=
        if s0.token == PLUS_SYM || s0.token == MINUS_SYM then
          var s := Term(GetToken(s0));
          if s.status.Running? && s0.token == MINUS_SYM then Gen(s, OPR, 0, NEG) else s
        else Term(s0);
      if s0.token == PLUS_SYM || s0.token == MINUS_SYM {
        var s := Term(GetToken(s0));
        TermPushes(GetToken(s0));
        if s.status.Running? && s0.token == MINUS_SYM && s1.status.Running? {
          GenEmits(s, OPR, NEG, 1, 1);
          EmitsTrans(st, s, s1, 0, 1, 1);
        }
      } else {
        TermPushes(s0);
      }
      if s1.status.Running? {
        ExpressionLoopKeeps(s1);
        if ExpressionLoop(s1).status.Running? {
          EmitsTrans(st, s1, ExpressionLoop(s1), 0, 1, 1);
        }
      }
    }
  }

  /** The `+`/`-` loop leaves the depth as it found it. */
  lemma {:induction false} ExpressionLoopKeeps(st: PState)
    requires st.status.Running?
    ensures ExpressionLoop(st).status.Running? ==> Emits(st, ExpressionLoop(st), 1, 1)
    decreases st.fuel
  {
    if st.token == PLUS_SYM || st.token == MINUS_SYM {
      var s0 := Tick(st);
      if s0.status.Running? {
        var s1 := Term(GetToken(s0));
        TermPushes(GetToken(s0));
        if s1.status.Running? {
          EmitsShift(st, s1, 0, 1, 1);
          var s2 := Gen(s1, OPR, 0, if s0.token == PLUS_SYM then ADD else SUB);
          if s2.status.Running? {
            GenEmits(s1, OPR, if s0.token == PLUS_SYM then ADD else SUB, 2, 1);
            EmitsTrans(st, s1, s2, 1, 2, 1);
            ExpressionLoopKeeps(s2);
            if ExpressionLoop(s2).status.Running? {
              EmitsTrans(st, s2, ExpressionLoop(s2), 1, 1, 1);
            }
          }
        }
      }
    } else {
      assert st.code[|st.code|..] == [];
    }
  }
  /** The instruction a condition ends with when its operator is `>=`: the token id 14,
      which no OPR sub-operation has. */
  const GEQ_TEST := Instruction(OPR, 0, GEQ_SYM)

  /** A condition leaves one value, its truth value, on the stack; except that the
      relational operators are emitted as OPR with their token ids (9 to 14), which are
      the sub-operation codes one past their own, so `>=` becomes OPR 14, which the
      machine ignores, and leaves both operands. */
  lemma {:induction false} ConditionPushes(st: PState)
    requires st.status.Running?
    ensures var r := Condition(st);
      r.status.Running? ==> |st.code| < |r.code| && Emits(st, r, 0, if r.code[|r.code| - 1] == GEQ_TEST then 2 else 1)
  {
    var s0 := Tick(st);
    if !s0.status.Running? {
    } else if s0.token == ODD_SYM {
      var s1 := Expression(GetToken(s0));
      ExpressionPushes(GetToken(s0));
      if s1.status.Running? && Gen(s1, OPR, 0, ODD).status.Running? {
        GenEmits(s1, OPR, ODD, 1, 1);
        EmitsTrans(st, s1, Gen(s1, OPR, 0, ODD), 0, 1, 1);
      }
    } else {
      var s1 := Expression(s0);
      ExpressionPushes(s0);
      if s1.status.Running? && RelationalOperator(s1.token) {
        RelationPushes(st, s1);
      }
    }
  }

  /** The second operand and the comparison of a relational condition. */
  lemma RelationPushes(st: PState, s1: PState)
    requires s1.status.Running? && RelationalOperator(s1.token) && Emits(st, s1, 0, 1)
    ensures var r := Gen(Expression(GetToken(s1)), OPR, 0, s1.token);
      Expression(GetToken(s1)).status.Running? && r.status.Running? ==>
        |st.code| < |r.code| && Emits(st, r, 0, if r.code[|r.code| - 1] == GEQ_TEST then 2 else 1)
  {
    var operator := s1.token;
    var s2 := Expression(GetToken(s1));
    ExpressionPushes(GetToken(s1));
    if s2.status.Running? && Gen(s2, OPR, 0, operator).status.Running? {
      EmitsShift(s1, s2, 0, 1, 1);
      EmitsTrans(st, s1, s2, 0, 1, 2);
      var r := Gen(s2, OPR, 0, operator);
      var top := if operator == GEQ_SYM then 2 else 1;
      GenEmits(s2, OPR, operator, 2, top);
      EmitsTrans(st, s2, r, 0, 2, top);
      assert r.code[|r.code| - 1] == Instruction(OPR, 0, operator);
    }
  }

  /** The code of a condition leaves a test value on top: one or, after `>=`, two values. */
  predicate TestCode(code: seq<Instruction>) {
    StackRun(code, 0) == Some(1) || StackRun(code, 0) == Some(2)
  }

  /** Back-patching the JPC emitted at the end of c's code sets its target and keeps the
      code before it. */
  lemma PatchJump(c: PState, e: PState, m: int)
    requires Gen(c, JPC, 0, 0).status.Running? && Gen(c, JPC, 0, 0).code <= e.code
    ensures var r := Patch(e, |c.code|, m);
      |r.code| == |e.code| && r.code[|c.code|] == Instruction(JPC, 0, m) && r.code[..|c.code|] == c.code
  {
    assert e.code[|c.code|] == Gen(c, JPC, 0, 0).code[|c.code|];
    assert e.code[..|c.code|] == Gen(c, JPC, 0, 0).code[..|c.code|];
  }

  /** An if statement: the condition code, then a JPC whose target is the index just
      past the statement, so a false condition skips exactly the statement. */
  lemma IfBlockJumps(st: PState)
    requires st.status.Running?
    ensures var r := IfBlock(st);
      r.status.Running? ==>
        exists at :: |st.code| < at < |r.code| && r.code[at] == Instruction(JPC, 0, |r.code|)
                     && TestCode(r.code[|st.code|..at])
  {
    var s0 := Tick(st);
    if s0.status.Running? {
      var s1 := Condition(GetToken(s0));
      ConditionPushes(GetToken(s0));
      if s1.status.Running? && s1.token == THEN_SYM {
        var s2 := GetToken(s1);
        var at := |s2.code|;
        var s3 := Gen(s2, JPC, 0, 0);
        if s3.status.Running? {
          var s4 := Statement(s3);
          StatementGrows(s3);
          if s4.status.Running? {
            PatchJump(s2, s4, |s4.code|);
            var r := Patch(s4, at, |s4.code|);
            assert r.code[|st.code|..at] == r.code[..at][|st.code|..];
          }
        }
      }
    }
  }

  /** A while statement: the condition code, a JPC to the index just past the loop, the
      body, and a final JMP back to the first instruction of the condition. */
  lemma WhileBlockJumps(st: PState)
    requires st.status.Running?
    ensures var r := WhileBlock(st);
      r.status.Running? ==>
        |st.code| < |r.code| && r.code[|r.code| - 1] == Instruction(JMP, 0, |st.code|)
        && exists at :: |st.code| < at < |r.code| - 1 && r.code[at] == Instruction(JPC, 0, |r.code|)
                        && TestCode(r.code[|st.code|..at])
  {
    var s0 := Tick(st);
    if s0.status.Running? {
      var s1 := Condition(GetToken(s0));
      ConditionPushes(GetToken(s0));
      if s1.status.Running? {
        var s2 := Gen(s1, JPC, 0, 0);
        if s2.status.Running? && s2.token == DO_SYM {
          var s3 := Statement(GetToken(s2));
          StatementGrows(GetToken(s2));
          var s4 := Gen(s3, JMP, 0, |s0.code|);
          if s3.status.Running? && s4.status.Running? {
            WhileTail(GetToken(s0), s1, s3);
            assert WhileBlock(st) == Patch(s4, |s1.code|, |s4.code|);
          }
        }
      }
    }
  }

  /** The end of a while statement: after the condition code (c to s1), its JPC and the
      body (up to s3), the JMP back to c's end and the JPC patched past it. */
  lemma WhileTail(c: PState, s1: PState, s3: PState)
    requires |c.code| < |s1.code| && Emits(c, s1, 0, if s1.code[|s1.code| - 1] == GEQ_TEST then 2 else 1)
    requires Gen(s1, JPC, 0, 0).status.Running? && Gen(s1, JPC, 0, 0).code <= s3.code
    requires Gen(s3, JMP, 0, |c.code|).status.Running?
    ensures var s4 := Gen(s3, JMP, 0, |c.code|); var r := Patch(s4, |s1.code|, |s4.code|);
      |c.code| < |r.code| && r.code[|r.code| - 1] == Instruction(JMP, 0, |c.code|)
      && exists at :: |c.code| < at < |r.code| - 1 && r.code[at] == Instruction(JPC, 0, |r.code|)
                      && TestCode(r.code[|c.code|..at])
  {
    var s4 := Gen(s3, JMP, 0, |c.code|);
    assert Gen(s1, JPC, 0, 0).code <= s4.code;
    PatchJump(s1, s4, |s4.code|);
    var r := Patch(s4, |s1.code|, |s4.code|);
    assert r.code[|c.code|..|s1.code|] == r.code[..|s1.code|][|c.code|..];
  }
}
