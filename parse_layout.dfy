/** What the declarations of a block enter and emit, how its frame is laid out, the
    overall shape of a parsed program, behaviours of the parser as written (the
    code-array guard, procedure declarations and `call`), and its error codes. */
module ParseLayout {
  import opened Structs
  import opened Pl0Constants
  import opened Pm0Constants
  import opened ParseSpec
  import opened ParseLemmas

  // ---------------------------------------------------------------------------
  // Declarations
  // ---------------------------------------------------------------------------

  /** `ident = number` read from the words `2 name 9 3 value`: the constant is entered at
      the given address and LIT value; STO 0 address stores it there at run time. The
      token before it is `const` or a comma, never an identifier. */
  lemma ConstDeclarationEffect(st: PState, address: int)
    requires st.status.Running? && st.token != IDENT_SYM
    ensures var r := ConstDeclaration(st, address);
      r.status.Running? ==>
        |st.rest| >= 5 && st.rest[0] == Int(IDENT_SYM) && st.rest[2] == Int(EQL_SYM)
        && st.rest[3] == Int(NUM_SYM) && st.rest[4].Int?
        && r.symbols == st.symbols + [Symbol(WordText(st.rest[1]), CONST_SYM, LEX_LEVEL, address)]
        && r.code == st.code + [Instruction(LIT, 0, st.rest[4].n), Instruction(STO, 0, address)]
  {
    var s1 := GetToken(st);
    if s1.token == IDENT_SYM {
      var (name, s2) := IdenName(s1);
      if s2.status.Running? {
        var s3 := Enter(s2, name, CONST_SYM, LEX_LEVEL, address);
        var s4 := GetToken(s3);
        var s5 := GetToken(s4);
        if s3.status.Running? && s4.token == EQL_SYM && s5.token == NUM_SYM {
          assert s1.rest == st.rest[1..] && s2.rest == st.rest[2..];
          assert s4.rest == st.rest[3..] && s5.rest == st.rest[4..];
        }
      }
    }
  }

  /** `ident` read from the words `2 name`: the variable is entered at the given address
      and nothing is emitted. */
  lemma VarDeclarationEffect(st: PState, address: int)
    requires st.status.Running? && st.token != IDENT_SYM
    ensures var r := VarDeclaration(st, address);
      r.status.Running? ==>
        |st.rest| >= 2 && st.rest[0] == Int(IDENT_SYM)
        && r.symbols == st.symbols + [Symbol(WordText(st.rest[1]), VAR_SYM, LEX_LEVEL, address)]
        && r.code == st.code
  {
  }

  /** The symbols entered from st to r take the consecutive stack addresses from `from`,
      at level 0, and `next` is the first address after them. */
  predicate Allocated(st: PState, r: PState, from: int, next: int) {
    st.symbols <= r.symbols && next == from + (|r.symbols| - |st.symbols|)
    && forall i :: |st.symbols| <= i < |r.symbols| ==>
         r.symbols[i].stackPointer == from + (i - |st.symbols|) && r.symbols[i].level == LEX_LEVEL
  }

  lemma AllocatedTrans(a: PState, b: PState, c: PState, x: int, y: int, z: int)
    requires Allocated(a, b, x, y) && Allocated(b, c, y, z)
    ensures Allocated(a, c, x, z)
  {
    assert c.symbols[..|b.symbols|] == b.symbols;
    forall i | |a.symbols| <= i < |c.symbols|
      ensures c.symbols[i].stackPointer == x + (i - |a.symbols|) && c.symbols[i].level == LEX_LEVEL
    {
      if i < |b.symbols| {
        assert c.symbols[i] == c.symbols[..|b.symbols|][i];
      }
    }
  }

  /** The symbols entered from st to r all have the kind id. */
  predicate EnteredAs(st: PState, r: PState, id: int) {
    forall i :: |st.symbols| <= i < |r.symbols| ==> r.symbols[i].id == id
  }

  lemma EnteredOne(st: PState, r: PState, name: string, id: int, address: int)
    requires r.symbols == st.symbols + [Symbol(name, id, LEX_LEVEL, address)]
    ensures Allocated(st, r, address, address + 1) && EnteredAs(st, r, id)
  {
  }

  lemma EnteredStep(st: PState, s1: PState, r: PState, address: int, next: int, id: int)
    requires Allocated(st, s1, address, address + 1) && EnteredAs(st, s1, id)
    requires Allocated(s1, r, address + 1, next) && EnteredAs(s1, r, id)
    ensures Allocated(st, r, address, next) && EnteredAs(st, r, id)
  {
    AllocatedTrans(st, s1, r, address, address + 1, next);
    assert r.symbols[..|s1.symbols|] == s1.symbols;
    assert r.symbols[|st.symbols|] == r.symbols[..|s1.symbols|][|st.symbols|];
  }

  /** All constants get consecutive addresses from `address`; the result carries the
      address after the last one. */
  lemma {:induction false} ConstLoopAllocates(st: PState, address: int)
    requires st.status.Running? && st.token != IDENT_SYM
    ensures var (r, next) := ConstLoop(st, address);
      r.status.Running? ==> Allocated(st, r, address, next) && EnteredAs(st, r, CONST_SYM)
    decreases |st.rest|
  {
    var s1 := ConstDeclaration(st, address);
    ConstDeclarationEffect(st, address);
    if s1.status.Running? {
      EnteredOne(st, s1, WordText(st.rest[1]), CONST_SYM, address);
      if s1.token == COMMA_SYM {
        ConstLoopAllocates(s1, address + 1);
        var (r, next) := ConstLoop(s1, address + 1);
        if r.status.Running? {
          EnteredStep(st, s1, r, address, next, CONST_SYM);
        }
      }
    }
  }

  /** All variables get consecutive addresses from `address`. */
  lemma {:induction false} VarLoopAllocates(st: PState, address: int)
    requires st.status.Running? && st.token != IDENT_SYM
    ensures var (r, next) := VarLoop(st, address);
      r.status.Running? ==> Allocated(st, r, address, next) && EnteredAs(st, r, VAR_SYM)
    decreases |st.rest|
  {
    var s1 := VarDeclaration(st, address);
    VarDeclarationEffect(st, address);
    if s1.status.Running? {
      EnteredOne(st, s1, WordText(st.rest[1]), VAR_SYM, address);
      if s1.token == COMMA_SYM {
        VarLoopAllocates(s1, address + 1);
        var (r, next) := VarLoop(s1, address + 1);
        if r.status.Running? {
          EnteredStep(st, s1, r, address, next, VAR_SYM);
        }
      }
    }
  }

  /** The constants and then the variables of a block take the addresses 3, 4, ... in
      order, and the result is the address after the last. */
  lemma DeclarationsAllocate(st: PState)
    requires st.status.Running?
    ensures var (r, next) := Declarations(st);
      r.status.Running? ==> Allocated(st, r, FIRST_ADDRESS, next)
  {
    var (s1, a1) := if st.token == CONST_SYM then ConstLoop(st, FIRST_ADDRESS) else (st, FIRST_ADDRESS);
    if st.token == CONST_SYM {
      ConstLoopAllocates(st, FIRST_ADDRESS);
    }
    var s2 := if st.token == CONST_SYM then EndDeclarations(s1) else s1;
    if s2.status.Running? && s2.token == VAR_SYM {
      VarLoopAllocates(s2, a1);
      var (s3, a3) := VarLoop(s2, a1);
      if EndDeclarations(s3).status.Running? {
        AllocatedTrans(st, s2, s3, FIRST_ADDRESS, a1, a3);
      }
    }
  }

  // ---------------------------------------------------------------------------
  // Blocks and programs
  // ---------------------------------------------------------------------------

  /** A block starts with INC 0 size, where size is the 3 frame cells plus one cell for
      each constant and variable its declarations enter, and those entries take the
      addresses 3 to size - 1 in order. */
  lemma BlockFrame(st: PState)
    requires st.status.Running?
    ensures var r := Block(st);
      r.status.Running? ==>
        var declared := Declarations(Gen(Tick(st), INC, 0, 0)).0;
        var size := FIRST_ADDRESS + (|declared.symbols| - |st.symbols|);
        |st.code| < |r.code| && r.code[|st.code|] == Instruction(INC, 0, size)
        && st.symbols <= declared.symbols && declared.symbols <= r.symbols
        && forall i :: |st.symbols| <= i < |declared.symbols| ==>
             r.symbols[i].stackPointer == FIRST_ADDRESS + (i - |st.symbols|)
  {
    var s0 := Tick(st);
    if s0.status.Running? {
      var s1 := Gen(s0, INC, 0, 0);
      if s1.status.Running? {
        var (s2, size) := Declarations(s1);
        DeclarationsAllocate(s1);
        DeclarationsGrows(s1);
        if s2.status.Running? {
          var s3 := ProcedureLoop(s2);
          ProcedureLoopGrows(s2);
          if s3.status.Running? {
            var s4 := Statement(s3);
            StatementGrows(s3);
            GrowsTrans(s2, s3, s4);
            if s4.status.Running? {
              FramePatched(s0, s2, s4, size);
            }
          }
        }
      }
    }
  }

  /** The INC at the start of s0's block, patched once the block's statement is parsed. */
  lemma FramePatched(s0: PState, s2: PState, s4: PState, size: int)
    requires Gen(s0, INC, 0, 0).status.Running?
    requires Grows(Gen(s0, INC, 0, 0), s2) && Allocated(Gen(s0, INC, 0, 0), s2, FIRST_ADDRESS, size)
    requires Grows(s2, s4)
    ensures var r := Patch(s4, |s0.code|, size);
      r.code[|s0.code|] == Instruction(INC, 0, size)
      && size == FIRST_ADDRESS + (|s2.symbols| - |s0.symbols|) && s2.symbols <= r.symbols
      && forall i :: |s0.symbols| <= i < |s2.symbols| ==>
           r.symbols[i].stackPointer == FIRST_ADDRESS + (i - |s0.symbols|)
  {
    var s1 := Gen(s0, INC, 0, 0);
    GrowsTrans(s1, s2, s4);
    assert s4.code[|s0.code|] == s1.code[|s0.code|];
    assert s4.symbols[..|s2.symbols|] == s2.symbols;
    assert forall i :: |s1.symbols| <= i < |s2.symbols| ==> s4.symbols[i] == s4.symbols[..|s2.symbols|][i];
  }

  /** A parsed program is its main block, starting with INC, followed by OPR 0 0, which
      returns from the main frame and halts the machine. */
  lemma ProgramShape(st: PState)
    requires st.status.Running?
    ensures var r := Program(st);
      r.status.Running? ==>
        |st.code| + 2 <= |r.code| && r.code[|st.code|].op == INC
        && r.code[|r.code| - 1] == Instruction(OPR, 0, RET)
  {
    var s1 := Block(GetToken(st));
    BlockFrame(GetToken(st));
    BlockGrows(GetToken(st));
  }

  /** parse: the outcome is success or one of the parser's error codes (or a case the C
      code leaves undefined, or the step bound); on success the code fits the 500-entry
      code array, starts with INC and ends with OPR 0 0; on an error nothing is written. */
  lemma ParseOutcome(words: seq<Word>, fuel: nat)
    ensures var (code, status) := Parse(words, fuel);
      KnownOutcome(status)
      && (status.Running? ==>
            2 <= |code| <= MAX_CODE_LENGTH && code[0].op == INC && code[|code| - 1] == Instruction(OPR, 0, RET))
      && (!status.Running? ==> code == [])
  {
    var st := PState(words, 0, [], [], Running, fuel);
    ProgramGrows(st);
    ProgramShape(st);
  }

  // ---------------------------------------------------------------------------
  // The parser as written
  // ---------------------------------------------------------------------------

  /** gen's guard `codeIndex > MAX_CODE_LENGTH` as written: at codeIndex 500 it writes a
      501st instruction, one past the end of the 500-entry code array. */
  function GenAsWritten(st: PState, op: int, l: int, m: int): (r: PState)
    ensures !GenRefusedAsWritten(|st.code|) ==> r.code == st.code + [Instruction(op, l, m)]
  {
    if GenRefusedAsWritten(|st.code|) then Fail(st, 27)
    else st.(code := st.code + [Instruction(op, l, m)])
  }

  /** With the guard as written, a full code array still takes one more instruction. */
  lemma GenAsWrittenOverruns(st: PState, op: int, l: int, m: int)
    requires |st.code| == MAX_CODE_LENGTH
    ensures |GenAsWritten(st, op, l, m).code| == MAX_CODE_LENGTH + 1
  {
  }

  /** With the corrected guard, code that fits the array still fits it after gen. */
  lemma GenStaysInArray(st: PState, op: int, l: int, m: int)
    requires |st.code| <= MAX_CODE_LENGTH
    ensures |Gen(st, op, l, m).code| <= MAX_CODE_LENGTH
    ensures |st.code| < MAX_CODE_LENGTH ==> Gen(st, op, l, m).code == st.code + [Instruction(op, l, m)]
  {
  }

  /** A procedure declaration is read from the words `30 2 name 18`. After `procedure`,
      the token becomes 2 (an identifier), and the next getToken meets the name, which
      `%d` cannot read: the token stays 2, is not a semicolon, and parsing stops with
      error 5. So no program with a procedure parses. */
  lemma ProcedureDeclarationFails(st: PState, name: string)
    requires st.status.Running? && st.token == PROC_SYM && st.fuel > 0
    requires |st.rest| >= 2 && st.rest[0] == Int(IDENT_SYM) && st.rest[1] == Name(name)
    ensures ProcedureLoop(st).status == Failed(5)
  {
    var s1 := GetToken(Tick(st));
    assert s1.rest == st.rest[1..];
    assert GetToken(s1) == s1;
  }

  /** `call name` is read from the words `27 2 name`: the name is never read, so the
      statement ends with the token still 2 and the name as the next word, and nothing
      is emitted. */
  lemma CallLeavesName(st: PState, name: string)
    requires st.status.Running? && st.token == CALL_SYM
    requires |st.rest| >= 2 && st.rest[0] == Int(IDENT_SYM) && st.rest[1] == Name(name)
    ensures var r := CallStatement(st);
      r.status.Running? && r.token == IDENT_SYM && r.rest == st.rest[1..] && r.code == st.code
  {
    assert GetToken(GetToken(st)) == GetToken(st);
  }

  // ---------------------------------------------------------------------------
  // Error codes
  // ---------------------------------------------------------------------------

  /** getToken on a name, or after the last word, changes nothing. */
  lemma GetTokenStalls(st: PState)
    requires st.rest == [] || st.rest[0].Name?
    ensures GetToken(st) == st
  {
  }

  /** A factor that starts with anything but a name, a number or `(` is error 24. */
  lemma FactorBadStart(st: PState)
    requires st.status.Running? && st.fuel > 0
    requires st.token != IDENT_SYM && st.token != NUM_SYM && st.token != LPAREN_SYM
    ensures Factor(st).status == Failed(24)
  {
  }

  /** A name that was never declared is error 11, in an assignment and in a factor. */
  lemma UndeclaredNameFails(st: PState, name: string)
    requires st.status.Running? && st.fuel > 0 && st.token == IDENT_SYM
    requires st.rest != [] && st.rest[0] == Name(name)
    requires forall i :: 0 <= i < |st.symbols| ==> st.symbols[i].name != name
    ensures Statement(st).status == Failed(11) && Factor(st).status == Failed(11)
  {
  }

  /** Assigning to a name whose first entry is a constant is error 12. */
  lemma AssignToConstantFails(st: PState, name: string, k: nat)
    requires st.status.Running? && st.fuel > 0 && st.token == IDENT_SYM
    requires st.rest != [] && st.rest[0] == Name(name)
    requires k < |st.symbols| && st.symbols[k].name == name && st.symbols[k].id == CONST_SYM
    requires forall i :: 0 <= i < k ==> st.symbols[i].name != name
    ensures Statement(st).status == Failed(12)
  {
    assert IndexOf(st.symbols, name) == Some(k);
  }

  /** Assigning to a declared name whose first entry is not a constant, when the word
      after the name is not `:=` (20), is error 13. */
  lemma MissingBecomesFails(st: PState, name: string, k: nat)
    requires st.status.Running? && st.fuel > 0 && st.token == IDENT_SYM
    requires st.rest != [] && st.rest[0] == Name(name)
    requires k < |st.symbols| && st.symbols[k].name == name && st.symbols[k].id != CONST_SYM
    requires forall i :: 0 <= i < k ==> st.symbols[i].name != name
    requires |st.rest| == 1 || st.rest[1] != Int(BECOMES_SYM)
    ensures Statement(st).status == Failed(13)
  {
    assert IndexOf(st.symbols, name) == Some(k);
  }

  /** An `if` whose condition is not followed by `then` is error 16. */
  lemma MissingThenFails(st: PState)
    requires st.status.Running? && st.fuel > 0
    ensures var c := Condition(GetToken(Tick(st)));
      c.status.Running? && c.token != THEN_SYM ==> IfBlock(st).status == Failed(16)
  {
  }

  /** A `while` whose condition is not followed by `do` is error 18 (once its JPC fits the
      code array). */
  lemma MissingDoFails(st: PState)
    requires st.status.Running? && st.fuel > 0
    ensures var c := Condition(GetToken(Tick(st)));
      c.status.Running? && |c.code| < MAX_CODE_LENGTH && c.token != DO_SYM ==>
        WhileBlock(st).status == Failed(18)
  {
  }

  /** A condition without `odd` whose first expression is not followed by one of the six
      relational operators is error 20. */
  lemma MissingRelationFails(st: PState)
    requires st.status.Running? && st.fuel > 0 && st.token != ODD_SYM
    ensures var e := Expression(Tick(st));
      e.status.Running? && !(EQL_SYM <= e.token <= GEQ_SYM) ==> Condition(st).status == Failed(20)
  {
  }

  /** A parenthesised factor whose expression is not followed by `)` is error 22. */
  lemma MissingRightParenFails(st: PState)
    requires st.status.Running? && st.fuel > 0 && st.token == LPAREN_SYM
    ensures var e := Expression(GetToken(Tick(st)));
      e.status.Running? && e.token != RPAREN_SYM ==> Factor(st).status == Failed(22)
  {
  }

  /** A `begin` whose statements are not followed by `end` is error 26. */
  lemma MissingEndFails(st: PState)
    requires st.status.Running? && st.fuel > 0 && st.token == BEGIN_SYM
    ensures var s1 := Statement(GetToken(Tick(st)));
      s1.status.Running? && StatementLoop(s1).status.Running? && StatementLoop(s1).token != END_SYM ==>
        Statement(st).status == Failed(26)
  {
  }

  /** A program whose block is not followed by `.` is error 9; one that is gets OPR 0 0
      as its last instruction. */
  lemma ProgramEnd(st: PState)
    requires st.status.Running?
    ensures var b := Block(GetToken(st)); var r := Program(st);
      b.status.Running? ==>
        (b.token != PERIOD_SYM ==> r.status == Failed(9))
        && (b.token == PERIOD_SYM && |b.code| < MAX_CODE_LENGTH ==>
              r.status.Running? && r.code == b.code + [Instruction(OPR, 0, RET)])
  {
  }
}
