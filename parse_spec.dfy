/** The parser and code generator as functions on a parser state: the reference the
    imperative parser is proved against, and what the properties of the emitted code
    are stated about. */
module ParseSpec {
  import opened Structs
  import opened Pl0Constants
  import opened Pm0Constants
  import Decimal

  const MAX_STACK_HEIGHT := 2000
  const MAX_CODE_LENGTH := 500

  /** getLexLevel: every declaration and every instruction is at level 0. */
  const LEX_LEVEL := 0

  /** The first stack address of a block's declarations (after the three frame cells). */
  const FIRST_ADDRESS := 3

  /** How parsing stands: still going, stopped by `error(code)` (which exits), stopped
      where the C code has undefined behaviour (a read past the words, a symbol table
      write past its 2000 entries), or stopped by the step bound of the model. */
  datatype Status = Running | Failed(code: nat) | Undefined | OutOfFuel

  /** The error codes the parser can raise. */
  const PARSE_ERRORS: set<nat> := {2, 3, 4, 5, 6, 9, 11, 12, 13, 14, 16, 18, 20, 22, 24, 26, 27, 28}

  predicate KnownOutcome(s: Status) {
    s.Failed? ==> s.code in PARSE_ERRORS
  }

  /** The parser's globals: the words not yet read from the lexeme list, the current
      token, the code emitted so far, the symbol table, the status and the fuel left. */
  datatype PState = PState(rest: seq<Word>, token: int, code: seq<Instruction>,
                           symbols: seq<Symbol>, status: Status, fuel: nat)

  function Fail(st: PState, code: nat): PState {
    st.(status := Failed(code))
  }

  /** One step of the bound on parsing work; parsing stops when it is used up. */
  function Tick(st: PState): PState {
    if st.fuel == 0 then st.(status := OutOfFuel) else st.(fuel := st.fuel - 1)
  }

  // ---------------------------------------------------------------------------
  // Reading words
  // ---------------------------------------------------------------------------

  /** getToken: `%d` reads the next word when it is an integer; on a name or at the end
      of the words it reads nothing and the token stays as it was. */
  function GetToken(st: PState): (r: PState)
    ensures r.fuel == st.fuel && |r.rest| <= |st.rest| && r.code == st.code
    ensures r.symbols == st.symbols && r.status == st.status
  {
    if st.rest != [] && st.rest[0].Int? then st.(rest := st.rest[1..], token := st.rest[0].n)
    else st
  }

  /** The text `%s` reads for a word. */
  function WordText(x: Word): string {
    match x
    case Int(n) => Decimal.DecimalText(n)
    case Name(s) => s
  }

  /** getIdenName: `%s` reads the next word whatever it is; at the end of the words the
      buffer is left uninitialised. */
  function IdenName(st: PState): (r: (string, PState))
    ensures r.1.fuel == st.fuel && |r.1.rest| <= |st.rest| && r.1.code == st.code
    ensures r.1.symbols == st.symbols
    ensures r.1.status.Running? ==> st.status.Running? && |r.1.rest| < |st.rest|
  {
    if st.rest != [] then (WordText(st.rest[0]), st.(rest := st.rest[1..]))
    else ("", st.(status := Undefined))
  }

  /** getNumber: reads the next word with `%d` when the token is a number; otherwise the
      result is uninitialised. */
  function GetNumber(st: PState): (r: (int, PState))
    ensures r.1.fuel == st.fuel && |r.1.rest| <= |st.rest| && r.1.code == st.code
    ensures r.1.symbols == st.symbols
    ensures r.1.status.Running? ==> st.status.Running?
  {
    if st.token == NUM_SYM && st.rest != [] && st.rest[0].Int? then
      (st.rest[0].n, st.(rest := st.rest[1..]))
    else
      (0, st.(status := Undefined))
  }

  /** relationalOperator: the tokens `=`, `<>`, `<`, `<=`, `>`, `>=`. */
  function RelationalOperator(token: int): (r: bool)
    ensures r <==> token in {EQL_SYM, NEQ_SYM, LESS_SYM, LEQ_SYM, GTR_SYM, GEQ_SYM}
  {
    EQL_SYM <= token <= GEQ_SYM
  }

  // ---------------------------------------------------------------------------
  // Emitting code and entering symbols
  // ---------------------------------------------------------------------------

  /** Whether gen refuses to write at codeIndex, as the C code tests it. */
  predicate GenRefusedAsWritten(codeIndex: int) {
    codeIndex > MAX_CODE_LENGTH
  }

  /** Whether gen refuses to write at codeIndex: when the code array is full. */
  predicate GenRefused(codeIndex: int) {
    codeIndex >= MAX_CODE_LENGTH
  }

  /** gen: appends one instruction, or raises error 27 when the code array is full. */
  function Gen(st: PState, op: int, l: int, m: int): (r: PState)
    ensures r.fuel == st.fuel && r.rest == st.rest && r.token == st.token && r.symbols == st.symbols
    ensures r.code == if GenRefused(|st.code|) then st.code else st.code + [Instruction(op, l, m)]
    ensures r.status == if GenRefused(|st.code|) then Failed(27) else st.status
  {
    if GenRefused(|st.code|) then Fail(st, 27)
    else st.(code := st.code + [Instruction(op, l, m)])
  }

  /** Back-patches the M field of an emitted instruction. */
  function Patch(st: PState, at: nat, m: int): (r: PState)
    requires at < |st.code|
  {
    st.(code := st.code[at := st.code[at].(m := m)])
  }

  /** enter: appends a symbol, or raises error 28 when its address is past the stack
      height. The table index itself is not checked by the C code: a write past the
      2000 entries is undefined. */
  function Enter(st: PState, name: string, id: int, level: int, address: int): (r: PState)
    ensures r.fuel == st.fuel && r.rest == st.rest && r.token == st.token && r.code == st.code
    ensures r.symbols == if address > MAX_STACK_HEIGHT || |st.symbols| >= MAX_STACK_HEIGHT then st.symbols
                         else st.symbols + [Symbol(name, id, level, address)]
    ensures r.status == if address > MAX_STACK_HEIGHT then Failed(28)
                        else if |st.symbols| >= MAX_STACK_HEIGHT then Undefined
                        else st.status
  {
    if address > MAX_STACK_HEIGHT then Fail(st, 28)
    else if |st.symbols| >= MAX_STACK_HEIGHT then st.(status := Undefined)
    else st.(symbols := st.symbols + [Symbol(name, id, level, address)])
  }

  /** The index of the first entry named name. */
  function IndexOf(symbols: seq<Symbol>, name: string): (r: Option<nat>)
    ensures r.Some? ==>
      r.value < |symbols| && symbols[r.value].name == name
      && forall j :: 0 <= j < r.value ==> symbols[j].name != name
    ensures r.None? ==> forall j :: 0 <= j < |symbols| ==> symbols[j].name != name
  {
    if symbols == [] then None
    else if symbols[0].name == name then Some(0)
    else match IndexOf(symbols[1..], name)
      case None => None
      case Some(k) => Some(k + 1)
  }

  /** find: the first entry with the name, or error 11. */
  function Find(st: PState, name: string): (r: (Symbol, PState))
    ensures r.1 == st || r.1 == Fail(st, 11)
  {
    match IndexOf(st.symbols, name)
    case Some(i) => (st.symbols[i], st)
    case None => (Symbol("", 0, 0, 0), Fail(st, 11))
  }

  // ---------------------------------------------------------------------------
  // Declarations
  // ---------------------------------------------------------------------------

  /** One `ident = number` of a const declaration: the constant takes the stack address
      `address` and is stored there at run time by LIT value; STO 0 address. */
  function ConstDeclaration(st: PState, address: int): (r: PState)
    requires st.status.Running?
    ensures r.fuel == st.fuel && Keeps(st, r)
    ensures r.status.Running? ==> |r.rest| < |st.rest|
  {
    var s1 := GetToken(st);
    if s1.token != IDENT_SYM then Fail(s1, 4)
    else
      var (name, s2) := IdenName(s1);
      if !s2.status.Running? then s2
      else
        var s3 := Enter(s2, name, CONST_SYM, LEX_LEVEL, address);
        if !s3.status.Running? then s3
        else
          var s4 := GetToken(s3);
          if s4.token != EQL_SYM then Fail(s4, 3)
          else
            var s5 := GetToken(s4);
            if s5.token != NUM_SYM then Fail(s5, 2)
            else
              var (value, s6) := GetNumber(s5);
              if !s6.status.Running? then s6
              else
                var s7 := Gen(s6, LIT, 0, value);
                if !s7.status.Running? then s7
                else
                  var s8 := Gen(s7, STO, 0, address);
                  if !s8.status.Running? then s8 else GetToken(s8)
  }

  /** The `do ... while (token == COMMA_SYM)` loop of a const declaration; the result
      carries the next free address. */
  function ConstLoop(st: PState, address: int): (r: (PState, int))
    requires st.status.Running?
    ensures r.0.fuel == st.fuel && Keeps(st, r.0)
    decreases |st.rest|
  {
    var s1 := ConstDeclaration(st, address);
    if s1.status.Running? && s1.token == COMMA_SYM then ConstLoop(s1, address + 1)
    else (s1, address + 1)
  }

  /** One identifier of a var declaration, at stack address `address`. */
  function VarDeclaration(st: PState, address: int): (r: PState)
    requires st.status.Running?
    ensures r.fuel == st.fuel && Keeps(st, r)
    ensures r.status.Running? ==> |r.rest| < |st.rest|
  {
    var s1 := GetToken(st);
    if s1.token != IDENT_SYM then Fail(s1, 4)
    else
      var (name, s2) := IdenName(s1);
      if !s2.status.Running? then s2
      else
        var s3 := Enter(s2, name, VAR_SYM, LEX_LEVEL, address);
        if !s3.status.Running? then s3 else GetToken(s3)
  }

  /** The `do ... while (token == COMMA_SYM)` loop of a var declaration. */
  function VarLoop(st: PState, address: int): (r: (PState, int))
    requires st.status.Running?
    ensures r.0.fuel == st.fuel && Keeps(st, r.0)
    decreases |st.rest|
  {
    var s1 := VarDeclaration(st, address);
    if s1.status.Running? && s1.token == COMMA_SYM then VarLoop(s1, address + 1)
    else (s1, address + 1)
  }

  /** A declaration list ends with a semicolon, which is read. */
  function EndDeclarations(st: PState): (r: PState)
    ensures r.fuel == st.fuel && Keeps(st, r)
  {
    if !st.status.Running? then st
    else if st.token != SEMICOLON_SYM then Fail(st, 5)
    else GetToken(st)
  }

  /** The const and var parts of a block, from address FIRST_ADDRESS on. */
  function Declarations(st: PState): (r: (PState, int))
    requires st.status.Running?
    ensures r.0.fuel == st.fuel && Keeps(st, r.0)
  {
    var (s1, a1) := if st.token == CONST_SYM then ConstLoop(st, FIRST_ADDRESS) else (st, FIRST_ADDRESS);
    var s2 := if st.token == CONST_SYM then EndDeclarations(s1) else s1;
    if !s2.status.Running? || s2.token != VAR_SYM then (s2, a1)
    else
      var (s3, a3) := VarLoop(s2, a1);
      (EndDeclarations(s3), a3)
  }

  // ---------------------------------------------------------------------------
  // The recursive descent
  // ---------------------------------------------------------------------------

  /** What every step of the descent keeps: fuel only decreases, words are only read,
      and code and symbols only grow. */
  predicate Keeps(st: PState, r: PState) {
    r.fuel <= st.fuel && |r.rest| <= |st.rest| && |st.code| <= |r.code| && |st.symbols| <= |r.symbols|
  }

  /** program: a block followed by a period, then OPR 0 0. */
  function Program(st: PState): (r: PState)
    requires st.status.Running?
    ensures Keeps(st, r)
  {
    var s1 := Block(GetToken(st));
    if !s1.status.Running? then s1
    else if s1.token != PERIOD_SYM then Fail(s1, 9)
    else Gen(s1, OPR, 0, 0)
  }

  /** block: INC 0 0, the declarations, the procedures, the statement, and then the INC
      patched to the frame size: 3 plus the number of consts and vars. */
  function Block(st: PState): (r: PState)
    requires st.status.Running?
    ensures Keeps(st, r)
    decreases st.fuel
  {
    var s0 := Tick(st);
    if !s0.status.Running? then s0
    else
      var start := |s0.code|;
      var s1 := Gen(s0, INC, 0, 0);
      if !s1.status.Running? then s1
      else
        var (s2, address) := Declarations(s1);
        if !s2.status.Running? then s2
        else
          var s3 := ProcedureLoop(s2);
          if !s3.status.Running? then s3
          else
            var s4 := Statement(s3);
            if !s4.status.Running? then s4 else Patch(s4, start, address)
  }

  /** `while (token == PROC_SYM)`: procedure name, semicolon, block, semicolon. */
  function ProcedureLoop(st: PState): (r: PState)
    requires st.status.Running?
    ensures Keeps(st, r)
    decreases st.fuel
  {
    if st.token != PROC_SYM then st
    else
      var s0 := Tick(st);
      if !s0.status.Running? then s0
      else
        var s1 := GetToken(s0);
        if s1.token != IDENT_SYM then Fail(s1, 6)
        else
          var s2 := GetToken(s1);
          if s2.token != SEMICOLON_SYM then Fail(s2, 5)
          else
            var s3 := Block(GetToken(s2));
            if !s3.status.Running? then s3
            else if s3.token != SEMICOLON_SYM then Fail(s3, 5)
            else ProcedureLoop(GetToken(s3))
  }

  /** The target of an assignment: the name, which must not be a constant, then `:=`. */
  function AssignmentTarget(st: PState): (r: (Symbol, PState))
    requires st.status.Running?
    ensures r.1.fuel == st.fuel && Keeps(st, r.1)
  {
    var (name, s1) := IdenName(st);
    if !s1.status.Running? then (Symbol("", 0, 0, 0), s1)
    else
      var (symbol, s2) := Find(s1, name);
      if !s2.status.Running? then (symbol, s2)
      else if symbol.id == CONST_SYM then (symbol, Fail(s2, 12))
      else
        var s3 := GetToken(s2);
        if s3.token != BECOMES_SYM then (symbol, Fail(s3, 13))
        else (symbol, GetToken(s3))
  }

  /** `write ident`: LOD 0 address; OUT 0 0. */
  function WriteStatement(st: PState): (r: PState)
    requires st.status.Running?
    ensures r.fuel == st.fuel && Keeps(st, r)
  {
    var s1 := GetToken(st);
    if s1.token != IDENT_SYM then Fail(s1, 14)
    else
      var (name, s2) := IdenName(s1);
      if !s2.status.Running? then s2
      else
        var (symbol, s3) := Find(s2, name);
        if !s3.status.Running? then s3
        else
          var s4 := Gen(s3, LOD, 0, symbol.stackPointer);
          if !s4.status.Running? then s4
          else
            var s5 := Gen(s4, OUT, 0, 0);
            if !s5.status.Running? then s5 else GetToken(s5)
  }

  /** `read ident`: IN 0 0; STO 0 address. */
  function ReadStatement(st: PState): (r: PState)
    requires st.status.Running?
    ensures r.fuel == st.fuel && Keeps(st, r)
  {
    var s1 := GetToken(st);
    if s1.token != IDENT_SYM then Fail(s1, 14)
    else
      var (name, s2) := IdenName(s1);
      if !s2.status.Running? then s2
      else
        var (symbol, s3) := Find(s2, name);
        if !s3.status.Running? then s3
        else
          var s4 := Gen(s3, IN, 0, 0);
          if !s4.status.Running? then s4
          else
            var s5 := Gen(s4, STO, 0, symbol.stackPointer);
            if !s5.status.Running? then s5 else GetToken(s5)
  }

  /** `call ident`: the name word is left unread and nothing is emitted. */
  function CallStatement(st: PState): (r: PState)
    requires st.status.Running?
    ensures r.fuel == st.fuel && Keeps(st, r)
  {
    var s1 := GetToken(st);
    if s1.token != IDENT_SYM then Fail(s1, 14) else GetToken(s1)
  }

  /** statement: assignment, call, begin-end, if, while, write, read, or nothing. */
  function Statement(st: PState): (r: PState)
    requires st.status.Running?
    ensures Keeps(st, r)
    decreases st.fuel
  {
    var s0 := Tick(st);
    if !s0.status.Running? then s0
    else if s0.token == IDENT_SYM then
      var (symbol, s1) := AssignmentTarget(s0);
      if !s1.status.Running? then s1
      else
        var s2 := Expression(s1);
        if !s2.status.Running? then s2 else Gen(s2, STO, 0, symbol.stackPointer)
    else if s0.token == CALL_SYM then CallStatement(s0)
    else if s0.token == BEGIN_SYM then
      var s1 := Statement(GetToken(s0));
      if !s1.status.Running? then s1
      else
        var s2 := StatementLoop(s1);
        if !s2.status.Running? then s2
        else if s2.token != END_SYM then Fail(s2, 26)
        else GetToken(s2)
    else if s0.token == IF_SYM then IfBlock(s0)
    else if s0.token == WHILE_SYM then WhileBlock(s0)
    else if s0.token == WRITE_SYM then WriteStatement(s0)
    else if s0.token == READ_SYM then ReadStatement(s0)
    else s0
  }

  /** `while (token == SEMICOLON_SYM)` inside begin-end. */
  function StatementLoop(st: PState): (r: PState)
    requires st.status.Running?
    ensures Keeps(st, r)
    decreases st.fuel
  {
    if st.token != SEMICOLON_SYM then st
    else
      var s0 := Tick(st);
      if !s0.status.Running? then s0
      else
        var s1 := Statement(GetToken(s0));
        if !s1.status.Running? then s1 else StatementLoop(s1)
  }

  /** ifBlock: condition, `then`, JPC 0 0, statement; the JPC is patched to the index
      after the statement. */
  function IfBlock(st: PState): (r: PState)
    requires st.status.Running?
    ensures Keeps(st, r)
    decreases st.fuel
  {
    var s0 := Tick(st);
    if !s0.status.Running? then s0
    else
      var s1 := Condition(GetToken(s0));
      if !s1.status.Running? then s1
      else if s1.token != THEN_SYM then Fail(s1, 16)
      else
        var s2 := GetToken(s1);
        var at := |s2.code|;
        var s3 := Gen(s2, JPC, 0, 0);
        if !s3.status.Running? then s3
        else
          var s4 := Statement(s3);
          if !s4.status.Running? then s4 else Patch(s4, at, |s4.code|)
  }

  /** whileBlock: condition, JPC 0 0, `do`, statement, JMP back to the condition; the
      JPC is patched to the index after the JMP. */
  function WhileBlock(st: PState): (r: PState)
    requires st.status.Running?
    ensures Keeps(st, r)
    decreases st.fuel
  {
    var s0 := Tick(st);
    if !s0.status.Running? then s0
    else
      var start := |s0.code|;
      var s1 := Condition(GetToken(s0));
      if !s1.status.Running? then s1
      else
        var at := |s1.code|;
        var s2 := Gen(s1, JPC, 0, 0);
        if !s2.status.Running? then s2
        else if s2.token != DO_SYM then Fail(s2, 18)
        else
          var s3 := Statement(GetToken(s2));
          if !s3.status.Running? then s3
          else
            var s4 := Gen(s3, JMP, 0, start);
            if !s4.status.Running? then s4 else Patch(s4, at, |s4.code|)
  }

  /** condition: `odd` expression, emitting OPR 0 ODD, or expression, relational
      operator, expression, emitting OPR 0 with the operator's token id. */
  function Condition(st: PState): (r: PState)
    requires st.status.Running?
    ensures Keeps(st, r)
    decreases st.fuel
  {
    var s0 := Tick(st);
    if !s0.status.Running? then s0
    else if s0.token == ODD_SYM then
      var s1 := Expression(GetToken(s0));
      if !s1.status.Running? then s1 else Gen(s1, OPR, 0, ODD)
    else
      var s1 := Expression(s0);
      if !s1.status.Running? then s1
      else if !RelationalOperator(s1.token) then Fail(s1, 20)
      else
        var operator := s1.token;
        var s2 := Expression(GetToken(s1));
        if !s2.status.Running? then s2 else Gen(s2, OPR, 0, operator)
  }

  /** expression: an optional sign, a term (then NEG after a minus), and the `+`/`-`
      loop. */
  function Expression(st: PState): (r: PState)
    requires st.status.Running?
    ensures Keeps(st, r)
    decreases st.fuel
  {
    var s0 := Tick(st);
    if !s0.status.Running? then s0
    else
      var s1 :=
        if s0.token == PLUS_SYM || s0.token == MINUS_SYM then
          var s := Term(GetToken(s0));
          if s.status.Running? && s0.token == MINUS_SYM then Gen(s, OPR, 0, NEG) else s
        else Term(s0);
      if !s1.status.Running? then s1 else ExpressionLoop(s1)
  }

  /** `while (token == PLUS_SYM || token == MINUS_SYM)`: a term, then ADD or SUB. */
  function ExpressionLoop(st: PState): (r: PState)
    requires st.status.Running?
    ensures Keeps(st, r)
    decreases st.fuel
  {
    if st.token != PLUS_SYM && st.token != MINUS_SYM then st
    else
      var s0 := Tick(st);
      if !s0.status.Running? then s0
      else
        var s1 := Term(GetToken(s0));
        if !s1.status.Running? then s1
        else
          var s2 := Gen(s1, OPR, 0, if s0.token == PLUS_SYM then ADD else SUB);
          if !s2.status.Running? then s2 else ExpressionLoop(s2)
  }

  /** term: a factor and the `*`/`/` loop. */
  function Term(st: PState): (r: PState)
    requires st.status.Running?
    ensures Keeps(st, r)
    decreases st.fuel
  {
    var s0 := Tick(st);
    if !s0.status.Running? then s0
    else
      var s1 := Factor(s0);
      if !s1.status.Running? then s1 else TermLoop(s1)
  }

  /** `while (token == MULT_SYM || token == SLASH_SYM)`: a factor, then MUL or DIV. */
  function TermLoop(st: PState): (r: PState)
    requires st.status.Running?
    ensures Keeps(st, r)
    decreases st.fuel
  {
    if st.token != MULT_SYM && st.token != SLASH_SYM then st
    else
      var s0 := Tick(st);
      if !s0.status.Running? then s0
      else
        var s1 := Factor(GetToken(s0));
        if !s1.status.Running? then s1
        else
          var s2 := Gen(s1, OPR, 0, if s0.token == MULT_SYM then MUL else DIV);
          if !s2.status.Running? then s2 else TermLoop(s2)
  }

  /** factor: a name (LOD 0 address), a number (LIT 0 value) or a parenthesised
      expression; anything else is error 24. */
  function Factor(st: PState): (r: PState)
    requires st.status.Running?
    ensures Keeps(st, r)
    decreases st.fuel
  {
    var s0 := Tick(st);
    if !s0.status.Running? then s0
    else if s0.token == IDENT_SYM then
      var (name, s1) := IdenName(s0);
      if !s1.status.Running? then s1
      else
        var (symbol, s2) := Find(s1, name);
        if !s2.status.Running? then s2
        else
          var s3 := Gen(s2, LOD, 0, symbol.stackPointer);
          if !s3.status.Running? then s3 else GetToken(s3)
    else if s0.token == NUM_SYM then
      var (value, s1) := GetNumber(s0);
      if !s1.status.Running? then s1
      else
        var s2 := Gen(s1, LIT, 0, value);
        if !s2.status.Running? then s2 else GetToken(s2)
    else if s0.token == LPAREN_SYM then
      var s1 := Expression(GetToken(s0));
      if !s1.status.Running? then s1
      else if s1.token != RPAREN_SYM then Fail(s1, 22)
      else GetToken(s1)
    else Fail(s0, 24)
  }

  /** parse: the code written out and the final status. The code file is written only
      when parsing ends normally; an error exits before it. */
  function Parse(words: seq<Word>, fuel: nat): (seq<Instruction>, Status) {
    var r := Program(PState(words, 0, [], [], Running, fuel));
    (if r.status.Running? then r.code else [], r.status)
  }
}
