/** Properties of the code the parser emits, proved on the reference functions. */
module ParseLemmas {
  import opened Structs
  import opened Pl0Constants
  import opened Pm0Constants
  import opened ParseSpec

  // ---------------------------------------------------------------------------
  // Code and symbols are only appended to
  // ---------------------------------------------------------------------------

  /** Earlier instructions and symbols are left as they were, any error raised is one of
      the parser's codes, and code that fits the 500-entry code array still fits it. */
  predicate Grows(st: PState, r: PState) {
    st.code <= r.code && st.symbols <= r.symbols && KnownOutcome(r.status)
    && (|st.code| <= MAX_CODE_LENGTH ==> |r.code| <= MAX_CODE_LENGTH)
  }

  lemma GrowsTrans(a: PState, b: PState, c: PState)
    requires Grows(a, b) && Grows(b, c)
    ensures Grows(a, c)
  {
    assert c.code[..|a.code|] == b.code[..|a.code|];
    assert c.symbols[..|a.symbols|] == b.symbols[..|a.symbols|];
  }

  /** A back-patch at or after the end of st's code keeps st's code. */
  lemma PatchGrows(st: PState, r: PState, at: nat, m: int)
    requires Grows(st, r) && |st.code| <= at < |r.code|
    ensures Grows(st, Patch(r, at, m))
  {
    assert Patch(r, at, m).code[..|st.code|] == r.code[..|st.code|];
  }

  lemma GenGrows(st: PState, op: int, l: int, m: int)
    requires KnownOutcome(st.status)
    ensures Grows(st, Gen(st, op, l, m))
  {
  }

  lemma ConstDeclarationGrows(st: PState, address: int)
    requires st.status.Running?
    ensures Grows(st, ConstDeclaration(st, address))
  {
    var s1 := GetToken(st);
    if s1.token == IDENT_SYM {
      var (name, s2) := IdenName(s1);
      if s2.status.Running? {
        var s3 := Enter(s2, name, CONST_SYM, LEX_LEVEL, address);
        if s3.status.Running? {
          var s5 := GetToken(GetToken(s3));
          if s5.token == NUM_SYM {
            var (value, s6) := GetNumber(s5);
            if s6.status.Running? {
              var s7 := Gen(s6, LIT, 0, value);
              GenGrows(s6, LIT, 0, value);
              GenGrows(s7, STO, 0, address);
              GrowsTrans(s6, s7, Gen(s7, STO, 0, address));
              GrowsTrans(st, s6, Gen(s7, STO, 0, address));
            }
          }
        }
      }
    }
  }
  lemma {:induction false} ConstLoopGrows(st: PState, address: int)
    requires st.status.Running?
    ensures Grows(st, ConstLoop(st, address).0)
    decreases |st.rest|
  {
    var s1 := ConstDeclaration(st, address);
    ConstDeclarationGrows(st, address);
    if s1.status.Running? && s1.token == COMMA_SYM {
      ConstLoopGrows(s1, address + 1);
      GrowsTrans(st, s1, ConstLoop(s1, address + 1).0);
    }
  }

  lemma VarDeclarationGrows(st: PState, address: int)
    requires st.status.Running?
    ensures Grows(st, VarDeclaration(st, address))
  {
  }

  lemma {:induction false} VarLoopGrows(st: PState, address: int)
    requires st.status.Running?
    ensures Grows(st, VarLoop(st, address).0)
    decreases |st.rest|
  {
    var s1 := VarDeclaration(st, address);
    VarDeclarationGrows(st, address);
    if s1.status.Running? && s1.token == COMMA_SYM {
      VarLoopGrows(s1, address + 1);
      GrowsTrans(st, s1, VarLoop(s1, address + 1).0);
    }
  }

  lemma DeclarationsGrows(st: PState)
    requires st.status.Running?
    ensures Grows(st, Declarations(st).0)
  {
    var (s1, a1) := if st.token == CONST_SYM then ConstLoop(st, FIRST_ADDRESS) else (st, FIRST_ADDRESS);
    if st.token == CONST_SYM {
      ConstLoopGrows(st, FIRST_ADDRESS);
    }
    var s2 := if st.token == CONST_SYM then EndDeclarations(s1) else s1;
    assert Grows(st, s2);
    if s2.status.Running? && s2.token == VAR_SYM {
      VarLoopGrows(s2, a1);
      var s3 := VarLoop(s2, a1).0;
      GrowsTrans(st, s2, s3);
      GrowsTrans(st, s3, EndDeclarations(s3));
    }
  }

  lemma WriteStatementGrows(st: PState)
    requires st.status.Running?
    ensures Grows(st, WriteStatement(st))
  {
  }

  lemma ReadStatementGrows(st: PState)
    requires st.status.Running?
    ensures Grows(st, ReadStatement(st))
  {
  }

  lemma ProgramGrows(st: PState)
    requires st.status.Running?
    ensures Grows(st, Program(st))
  {
    var s1 := Block(GetToken(st));
    BlockGrows(GetToken(st));
    if s1.status.Running? && s1.token == PERIOD_SYM {
      GrowsTrans(st, s1, Gen(s1, OPR, 0, 0));
    }
  }

  lemma {:induction false} BlockGrows(st: PState)
    requires st.status.Running?
    ensures Grows(st, Block(st))
    decreases st.fuel, 1
  {
    var s0 := Tick(st);
    if s0.status.Running? {
      var start := |s0.code|;
      var s1 := Gen(s0, INC, 0, 0);
      if s1.status.Running? {
        var s2 := Declarations(s1).0;
        DeclarationsGrows(s1);
        GrowsTrans(st, s1, s2);
        if s2.status.Running? {
          var s3 := ProcedureLoop(s2);
          ProcedureLoopGrows(s2);
          GrowsTrans(st, s2, s3);
          if s3.status.Running? {
            var s4 := Statement(s3);
            StatementGrows(s3);
            GrowsTrans(st, s3, s4);
            if s4.status.Running? {
              PatchGrows(st, s4, start, Declarations(s1).1);
            }
          }
        }
      }
    }
  }

  lemma {:induction false} ProcedureLoopGrows(st: PState)
    requires st.status.Running?
    ensures Grows(st, ProcedureLoop(st))
    decreases st.fuel, 1
  {
    if st.token == PROC_SYM {
      var s0 := Tick(st);
      if s0.status.Running? {
        var s2 := GetToken(GetToken(s0));
        if GetToken(s0).token == IDENT_SYM && s2.token == SEMICOLON_SYM {
          var s3 := Block(GetToken(s2));
          BlockGrows(GetToken(s2));
          if s3.status.Running? && s3.token == SEMICOLON_SYM {
            ProcedureLoopGrows(GetToken(s3));
            GrowsTrans(st, s3, ProcedureLoop(GetToken(s3)));
          }
        }
      }
    }
  }

  lemma {:induction false} StatementGrows(st: PState)
    requires st.status.Running?
    ensures Grows(st, Statement(st))
    decreases st.fuel, 1
  {
    var s0 := Tick(st);
    if !s0.status.Running? {
    } else if s0.token == IDENT_SYM {
      AssignmentGrows(st);
    } else if s0.token == CALL_SYM {
    } else if s0.token == BEGIN_SYM {
      BeginEndGrows(st);
    } else if s0.token == IF_SYM {
      IfBlockGrows(s0);
    } else if s0.token == WHILE_SYM {
      WhileBlockGrows(s0);
    } else if s0.token == WRITE_SYM {
      WriteStatementGrows(s0);
    } else if s0.token == READ_SYM {
      ReadStatementGrows(s0);
    }
  }

  /** The assignment branch of statement. */
  lemma {:induction false} AssignmentGrows(st: PState)
    requires Tick(st).status.Running? && Tick(st).token == IDENT_SYM
    ensures Grows(st, Statement(st))
    decreases st.fuel, 0
  {
    var s0 := Tick(st);
    var (symbol, s1) := AssignmentTarget(s0);
    if s1.status.Running? {
      var s2 := Expression(s1);
      ExpressionGrows(s1);
      if s2.status.Running? {
        GrowsTrans(st, s2, Gen(s2, STO, 0, symbol.stackPointer));
      }
    }
  }

  /** The begin-end branch of statement. */
  lemma {:induction false} BeginEndGrows(st: PState)
    requires Tick(st).status.Running? && Tick(st).token == BEGIN_SYM
    ensures Grows(st, Statement(st))
    decreases st.fuel, 0
  {
    var s0 := Tick(st);
    var s1 := Statement(GetToken(s0));
    StatementGrows(GetToken(s0));
    if s1.status.Running? {
      var s2 := StatementLoop(s1);
      StatementLoopGrows(s1);
      GrowsTrans(st, s1, s2);
    }
  }

  lemma {:induction false} StatementLoopGrows(st: PState)
    requires st.status.Running?
    ensures Grows(st, StatementLoop(st))
    decreases st.fuel, 1
  {
    if st.token == SEMICOLON_SYM {
      var s0 := Tick(st);
      if s0.status.Running? {
        var s1 := Statement(GetToken(s0));
        StatementGrows(GetToken(s0));
        if s1.status.Running? {
          StatementLoopGrows(s1);
          GrowsTrans(st, s1, StatementLoop(s1));
        }
      }
    }
  }

  lemma {:induction false} IfBlockGrows(st: PState)
    requires st.status.Running?
    ensures Grows(st, IfBlock(st))
    decreases st.fuel, 1
  {
    var s0 := Tick(st);
    if s0.status.Running? {
      var s1 := Condition(GetToken(s0));
      ConditionGrows(GetToken(s0));
      if s1.status.Running? && s1.token == THEN_SYM {
        var s2 := GetToken(s1);
        var at := |s2.code|;
        var s3 := Gen(s2, JPC, 0, 0);
        GrowsTrans(st, s2, s3);
        if s3.status.Running? {
          var s4 := Statement(s3);
          StatementGrows(s3);
          GrowsTrans(st, s3, s4);
          if s4.status.Running? {
            PatchGrows(st, s4, at, |s4.code|);
          }
        }
      }
    }
  }

  lemma {:induction false} WhileBlockGrows(st: PState)
    requires st.status.Running?
    ensures Grows(st, WhileBlock(st))
    decreases st.fuel, 1
  {
    var s0 := Tick(st);
    if s0.status.Running? {
      var start := |s0.code|;
      var s1 := Condition(GetToken(s0));
      ConditionGrows(GetToken(s0));
      if s1.status.Running? {
        var at := |s1.code|;
        var s2 := Gen(s1, JPC, 0, 0);
        GrowsTrans(st, s1, s2);
        if s2.status.Running? && s2.token == DO_SYM {
          var s3 := Statement(GetToken(s2));
          StatementGrows(GetToken(s2));
          GrowsTrans(st, s2, s3);
          if s3.status.Running? {
            var s4 := Gen(s3, JMP, 0, start);
            GrowsTrans(st, s3, s4);
            if s4.status.Running? {
              PatchGrows(st, s4, at, |s4.code|);
            }
          }
        }
      }
    }
  }

  lemma {:induction false} ConditionGrows(st: PState)
    requires st.status.Running?
    ensures Grows(st, Condition(st))
    decreases st.fuel, 1
  {
    var s0 := Tick(st);
    if !s0.status.Running? {
    } else if s0.token == ODD_SYM {
      var s1 := Expression(GetToken(s0));
      ExpressionGrows(GetToken(s0));
      if s1.status.Running? {
        GrowsTrans(st, s1, Gen(s1, OPR, 0, ODD));
      }
    } else {
      var s1 := Expression(s0);
      ExpressionGrows(s0);
      if s1.status.Running? && RelationalOperator(s1.token) {
        var s2 := Expression(GetToken(s1));
        ExpressionGrows(GetToken(s1));
        GrowsTrans(st, s1, s2);
        if s2.status.Running? {
          GrowsTrans(st, s2, Gen(s2, OPR, 0, s1.token));
        }
      }
    }
  }

  lemma {:induction false} ExpressionGrows(st: PState)
    requires st.status.Running?
    ensures Grows(st, Expression(st))
    decreases st.fuel, 1
  {
    var s0 := Tick(st);
    if s0.status.Running? {
      var s1 :=
        if s0.token == PLUS_SYM || s0.token == MINUS_SYM then
          var s := Term(GetToken(s0));
          if s.status.Running? && s0.token == MINUS_SYM then Gen(s, OPR, 0, NEG) else s
        else Term(s0);
      if s0.token == PLUS_SYM || s0.token == MINUS_SYM {
        var s := Term(GetToken(s0));
        TermGrows(GetToken(s0));
        if s.status.Running? && s0.token == MINUS_SYM {
          GrowsTrans(st, s, Gen(s, OPR, 0, NEG));
        }
      } else {
        TermGrows(s0);
      }
      if s1.status.Running? {
        ExpressionLoopGrows(s1);
        GrowsTrans(st, s1, ExpressionLoop(s1));
      }
    }
  }

  lemma {:induction false} ExpressionLoopGrows(st: PState)
    requires st.status.Running?
    ensures Grows(st, ExpressionLoop(st))
    decreases st.fuel, 1
  {
    if st.token == PLUS_SYM || st.token == MINUS_SYM {
      var s0 := Tick(st);
      if s0.status.Running? {
        var s1 := Term(GetToken(s0));
        TermGrows(GetToken(s0));
        if s1.status.Running? {
          var s2 := Gen(s1, OPR, 0, if s0.token == PLUS_SYM then ADD else SUB);
          GrowsTrans(st, s1, s2);
          if s2.status.Running? {
            ExpressionLoopGrows(s2);
            GrowsTrans(st, s2, ExpressionLoop(s2));
          }
        }
      }
    }
  }

  lemma {:induction false} TermGrows(st: PState)
    requires st.status.Running?
    ensures Grows(st, Term(st))
    decreases st.fuel, 1
  {
    var s0 := Tick(st);
    if s0.status.Running? {
      var s1 := Factor(s0);
      FactorGrows(s0);
      if s1.status.Running? {
        TermLoopGrows(s1);
        GrowsTrans(st, s1, TermLoop(s1));
      }
    }
  }

  lemma {:induction false} TermLoopGrows(st: PState)
    requires st.status.Running?
    ensures Grows(st, TermLoop(st))
    decreases st.fuel, 1
  {
    if st.token == MULT_SYM || st.token == SLASH_SYM {
      var s0 := Tick(st);
      if s0.status.Running? {
        var s1 := Factor(GetToken(s0));
        FactorGrows(GetToken(s0));
        if s1.status.Running? {
          var s2 := Gen(s1, OPR, 0, if s0.token == MULT_SYM then MUL else DIV);
          GrowsTrans(st, s1, s2);
          if s2.status.Running? {
            TermLoopGrows(s2);
            GrowsTrans(st, s2, TermLoop(s2));
          }
        }
      }
    }
  }

  lemma {:induction false} FactorGrows(st: PState)
    requires st.status.Running?
    ensures Grows(st, Factor(st))
    decreases st.fuel, 1
  {
    var s0 := Tick(st);
    if s0.status.Running? && s0.token != IDENT_SYM && s0.token != NUM_SYM && s0.token == LPAREN_SYM {
      ExpressionGrows(GetToken(s0));
    }
  }
}
