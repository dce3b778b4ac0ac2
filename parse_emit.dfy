/** Which instruction each construct emits after the code of its operands: the
    comparison or ODD of a condition, NEG for a leading minus, ADD/SUB and MUL/DIV in
    the loops of expressions and terms, and STO, LOD/OUT and IN/STO for assignments,
    `write` and `read`. */
module ParseEmit {
  import opened Structs
  import opened Pl0Constants
  import opened Pm0Constants
  import opened ParseSpec
  import opened ParseLemmas
  import opened ParseCode

  /** condition ends with OPR 0 ODD after `odd`, and otherwise with OPR 0 and the token id
      of the relational operator read between the two expressions (9 to 14), which is not
      the machine's number for that comparison (see VmLemmas.EmittedComparisons). */
  lemma ConditionEmits(st: PState)
    requires st.status.Running?
    ensures var r := Condition(st);
      r.status.Running? ==>
        |st.code| < |r.code|
        && (st.token == ODD_SYM ==> r.code[|r.code| - 1] == Instruction(OPR, 0, ODD))
        && (st.token != ODD_SYM ==>
              var operator := Expression(Tick(st)).token;
              RelationalOperator(operator) && r.code[|r.code| - 1] == Instruction(OPR, 0, operator))
  {
    var s0 := Tick(st);
    if s0.status.Running? {
      if s0.token == ODD_SYM {
        ExpressionGrows(GetToken(s0));
      } else {
        var s1 := Expression(s0);
        ExpressionGrows(s0);
        if s1.status.Running? && RelationalOperator(s1.token) {
          ExpressionGrows(GetToken(s1));
        }
      }
    }
  }

  /** After a leading `-` the term's code is followed by OPR 0 NEG; after a leading `+`
      nothing is emitted before the `+`/`-` loop. */
  lemma ExpressionSignEmits(st: PState)
    requires st.status.Running? && st.fuel > 0 && (st.token == PLUS_SYM || st.token == MINUS_SYM)
    ensures var t := Term(GetToken(Tick(st))); var r := Expression(st);
      r.status.Running? ==>
        t.status.Running? && Emits(st, t, 0, 1)
        && (st.token == MINUS_SYM ==> |t.code| < |r.code| && r.code[|t.code|] == Instruction(OPR, 0, NEG))
        && (st.token == PLUS_SYM ==> r == ExpressionLoop(t))
  {
    var t := Term(GetToken(Tick(st)));
    TermPushes(GetToken(Tick(st)));
    if t.status.Running? && st.token == MINUS_SYM {
      var s := Gen(t, OPR, 0, NEG);
      if s.status.Running? {
        ExpressionLoopGrows(s);
      }
    }
  }

  /** One round of the `+`/`-` loop: the term's code, which pushes one value, and then
      OPR 0 ADD for `+` or OPR 0 SUB for `-`. */
  lemma ExpressionLoopEmits(st: PState)
    requires st.status.Running? && st.fuel > 0 && (st.token == PLUS_SYM || st.token == MINUS_SYM)
    ensures var t := Term(GetToken(Tick(st))); var r := ExpressionLoop(st);
      r.status.Running? ==>
        t.status.Running? && Emits(st, t, 0, 1) && |t.code| < |r.code|
        && r.code[|t.code|] == Instruction(OPR, 0, if st.token == PLUS_SYM then ADD else SUB)
  {
    var t := Term(GetToken(Tick(st)));
    TermPushes(GetToken(Tick(st)));
    if t.status.Running? {
      var s := Gen(t, OPR, 0, if st.token == PLUS_SYM then ADD else SUB);
      if s.status.Running? {
        ExpressionLoopGrows(s);
      }
    }
  }

  /** One round of the `*`/`/` loop: the factor's code, which pushes one value, and then
      OPR 0 MUL for `*` or OPR 0 DIV for `/`. */
  lemma TermLoopEmits(st: PState)
    requires st.status.Running? && st.fuel > 0 && (st.token == MULT_SYM || st.token == SLASH_SYM)
    ensures var f := Factor(GetToken(Tick(st))); var r := TermLoop(st);
      r.status.Running? ==>
        f.status.Running? && Emits(st, f, 0, 1) && |f.code| < |r.code|
        && r.code[|f.code|] == Instruction(OPR, 0, if st.token == MULT_SYM then MUL else DIV)
  {
    var f := Factor(GetToken(Tick(st)));
    FactorPushes(GetToken(Tick(st)));
    if f.status.Running? {
      var s := Gen(f, OPR, 0, if st.token == MULT_SYM then MUL else DIV);
      if s.status.Running? {
        TermLoopGrows(s);
      }
    }
  }

  /** `name := expression`: the name is declared, its first entry is not a constant, and
      the expression's code, which pushes one value, is followed by STO 0 and that
      entry's address. */
  lemma AssignmentEmits(st: PState)
    requires st.status.Running? && st.token == IDENT_SYM
    ensures var r := Statement(st);
      r.status.Running? ==>
        st.rest != [] && IndexOf(st.symbols, WordText(st.rest[0])).Some?
        && var symbol := st.symbols[IndexOf(st.symbols, WordText(st.rest[0])).value];
           symbol.id != CONST_SYM && |st.code| < |r.code|
           && StackRun(r.code[|st.code|..|r.code| - 1], 0) == Some(1)
           && r.code[|r.code| - 1] == Instruction(STO, 0, symbol.stackPointer)
  {
    var s0 := Tick(st);
    if s0.status.Running? {
      var (symbol, s1) := AssignmentTarget(s0);
      if s1.status.Running? {
        var s2 := Expression(s1);
        ExpressionPushes(s1);
        if s2.status.Running? {
          StoreAfter(s1, s2, symbol.stackPointer);
        }
      }
    }
  }

  /** The one-value code from s1 to s2, followed by STO 0 address. */
  lemma StoreAfter(s1: PState, s2: PState, address: int)
    requires Emits(s1, s2, 0, 1)
    ensures var r := Gen(s2, STO, 0, address);
      r.status.Running? ==>
        |s1.code| < |r.code| && StackRun(r.code[|s1.code|..|r.code| - 1], 0) == Some(1)
        && r.code[|r.code| - 1] == Instruction(STO, 0, address)
  {
    var r := Gen(s2, STO, 0, address);
    if r.status.Running? {
      assert r.code[|s1.code|..|r.code| - 1] == s2.code[|s1.code|..];
    }
  }

  /** `write name`, read from the words `2 name`: LOD 0 and the address of the name's
      first entry, then OUT 0 0. */
  lemma WriteEmits(st: PState)
    requires st.status.Running? && st.token == WRITE_SYM
    ensures var r := WriteStatement(st);
      r.status.Running? ==>
        |st.rest| >= 2 && st.rest[0] == Int(IDENT_SYM) && IndexOf(st.symbols, WordText(st.rest[1])).Some?
        && var symbol := st.symbols[IndexOf(st.symbols, WordText(st.rest[1])).value];
           r.code == st.code + [Instruction(LOD, 0, symbol.stackPointer), Instruction(OUT, 0, 0)]
  {
    var s1 := GetToken(st);
    if s1.token == IDENT_SYM {
      assert s1.rest == st.rest[1..];
    }
  }

  /** `read name`, read from the words `2 name`: IN 0 0, then STO 0 and the address of the
      name's first entry, which is not checked to be a variable. */
  lemma ReadEmits(st: PState)
    requires st.status.Running? && st.token == READ_SYM
    ensures var r := ReadStatement(st);
      r.status.Running? ==>
        |st.rest| >= 2 && st.rest[0] == Int(IDENT_SYM) && IndexOf(st.symbols, WordText(st.rest[1])).Some?
        && var symbol := st.symbols[IndexOf(st.symbols, WordText(st.rest[1])).value];
           r.code == st.code + [Instruction(IN, 0, 0), Instruction(STO, 0, symbol.stackPointer)]
  {
    var s1 := GetToken(st);
    if s1.token == IDENT_SYM {
      assert s1.rest == st.rest[1..];
    }
  }
}
