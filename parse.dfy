/** The recursive-descent parser and code generator over the lexeme-list words: the
    globals `token`, `codeIndex` and `nextSymbolIndex`, the arrays `parseCode` and
    `symbolTable`, and the procedures that update them. Each procedure is proved to
    leave the parser in the state its reference function in ParseSpec computes. */
module Parse {
  import opened Structs
  import opened Pl0Constants
  import opened Pm0Constants
  import Spec = ParseSpec

  class Parser {
    /** The lexeme-list words and the read position in them. */
    const words: seq<Word>
    var pos: nat
    var token: int
    /** parseCode[MAX_CODE_LENGTH]; codeIndex instructions are emitted. */
    const code: array<Instruction>
    var codeIndex: nat
    /** symbolTable[MAX_STACK_HEIGHT]; nextSymbolIndex entries are used. */
    const symbolTable: array<Symbol>
    var nextSymbolIndex: nat
    /** Whether parsing goes on, and the step bound left. */
    var status: Spec.Status
    var fuel: nat

    ghost predicate Valid()
      reads this
    {
      pos <= |words|
      && code.Length == Spec.MAX_CODE_LENGTH && codeIndex <= code.Length
      && symbolTable.Length == Spec.MAX_STACK_HEIGHT && nextSymbolIndex <= symbolTable.Length
    }

    /** The globals as a parser state. */
    ghost function State(): Spec.PState
      reads this, code, symbolTable
      requires Valid()
    {
      Spec.PState(words[pos..], token, code[..codeIndex], symbolTable[..nextSymbolIndex], status, fuel)
    }

    /** The globals at program start: everything zero, nothing read. */
    constructor (words: seq<Word>, fuel: nat)
      ensures Valid() && State() == Spec.PState(words, 0, [], [], Spec.Running, fuel)
      ensures fresh(code) && fresh(symbolTable)
    {
      this.words := words;
      pos := 0;
      token := 0;
      code := new Instruction[Spec.MAX_CODE_LENGTH](_ => Instruction(0, 0, 0));
      codeIndex := 0;
      symbolTable := new Symbol[Spec.MAX_STACK_HEIGHT](_ => Symbol("", 0, 0, 0));
      nextSymbolIndex := 0;
      status := Spec.Running;
      this.fuel := fuel;
    }

    /** error: parsing stops with the code. */
    method Error(errorId: nat)
      requires Valid()
      modifies this
      ensures Valid() && State() == Spec.Fail(old(State()), errorId)
      ensures pos == old(pos) && token == old(token) && codeIndex == old(codeIndex)
      ensures nextSymbolIndex == old(nextSymbolIndex) && fuel == old(fuel)
    {
      status := Spec.Failed(errorId);
    }

    /** Spends one step of the bound. */
    method Tick()
      requires Valid()
      modifies this
      ensures Valid() && State() == Spec.Tick(old(State()))
    {
      if fuel == 0 {
        status := Spec.OutOfFuel;
      } else {
        fuel := fuel - 1;
      }
    }

    // -------------------------------------------------------------------------
    // Reading words
    // -------------------------------------------------------------------------

    /** getToken: reads the next word only when it is an integer. */
    method GetToken()
      requires Valid()
      modifies this
      ensures Valid() && State() == Spec.GetToken(old(State()))
      ensures old(pos) < |words| && words[old(pos)].Int? ==>
        token == words[old(pos)].n && pos == old(pos) + 1
      ensures !(old(pos) < |words| && words[old(pos)].Int?) ==> token == old(token) && pos == old(pos)
    {
      if pos < |words| && words[pos].Int? {
        token := words[pos].n;
        pos := pos + 1;
      }
    }

    /** getIdenName: reads the next word as text. */
    method GetIdenName() returns (name: string)
      requires Valid()
      modifies this
      ensures Valid() && (name, State()) == Spec.IdenName(old(State()))
    {
      if pos < |words| {
        name := Spec.WordText(words[pos]);
        pos := pos + 1;
      } else {
        name := "";
        status := Spec.Undefined;
      }
    }

    /** getNumber: reads the value after a number token. */
    method GetNumber() returns (num: int)
      requires Valid()
      modifies this
      ensures Valid() && (num, State()) == Spec.GetNumber(old(State()))
    {
      if token == NUM_SYM && pos < |words| && words[pos].Int? {
        num := words[pos].n;
        pos := pos + 1;
      } else {
        num := 0;
        status := Spec.Undefined;
      }
    }

    // -------------------------------------------------------------------------
    // Emitting code and entering symbols
    // -------------------------------------------------------------------------

    /** gen: writes one instruction at codeIndex and advances it; error 27 when the code
        array is full. */
    method Gen(op: int, l: int, m: int)
      requires Valid()
      modifies this, code
      ensures Valid() && State() == Spec.Gen(old(State()), op, l, m)
      ensures old(codeIndex) < Spec.MAX_CODE_LENGTH ==>
        codeIndex == old(codeIndex) + 1 && code[old(codeIndex)] == Instruction(op, l, m)
        && code[..old(codeIndex)] == old(code[..codeIndex]) && status == old(status)
      ensures old(codeIndex) >= Spec.MAX_CODE_LENGTH ==>
        codeIndex == old(codeIndex) && status == Spec.Failed(27)
      ensures pos == old(pos) && token == old(token) && nextSymbolIndex == old(nextSymbolIndex)
    {
      if Spec.GenRefused(codeIndex) {
        Error(27);
      } else {
        code[codeIndex] := Instruction(op, l, m);
        codeIndex := codeIndex + 1;
      }
    }

    /** Back-patches the M field of the instruction at index at. */
    method Patch(at: nat, m: int)
      requires Valid() && at < codeIndex
      modifies code
      ensures Valid() && State() == Spec.Patch(old(State()), at, m)
    {
      code[at] := code[at].(m := m);
    }

    /** enter: writes one symbol at nextSymbolIndex and advances it; error 28 when the
        address is past the stack height. */
    method Enter(name: string, id: int, level: int, address: int)
      requires Valid()
      modifies this, symbolTable
      ensures Valid() && State() == Spec.Enter(old(State()), name, id, level, address)
    {
      if address > Spec.MAX_STACK_HEIGHT {
        Error(28);
      } else if nextSymbolIndex >= Spec.MAX_STACK_HEIGHT {
        status := Spec.Undefined;
      } else {
        symbolTable[nextSymbolIndex] := Symbol(name, id, level, address);
        nextSymbolIndex := nextSymbolIndex + 1;
      }
    }

    /** find: the first entry with the name, scanning up from index 0; error 11 when
        there is none. */
    method Find(name: string) returns (symbol: Symbol)
      requires Valid()
      modifies this
      ensures Valid() && (symbol, State()) == Spec.Find(old(State()), name)
    {
      var i := 0;
      while i < nextSymbolIndex
        invariant 0 <= i <= nextSymbolIndex
        invariant forall j :: 0 <= j < i ==> symbolTable[..nextSymbolIndex][j].name != name
      {
        if symbolTable[i].name == name {
          symbol := symbolTable[i];
          assert symbolTable[..nextSymbolIndex][i] == symbol;
          return;
        }
        i := i + 1;
      }
      Error(11);
      symbol := Symbol("", 0, 0, 0);
    }

    // -------------------------------------------------------------------------
    // Expressions and conditions
    // -------------------------------------------------------------------------

    /** condition: `odd` expression, or expression, relational operator, expression. */
    method Condition()
      requires Valid() && status.Running?
      modifies this, code, symbolTable
      ensures Valid() && State() == Spec.Condition(old(State()))
      decreases fuel
    {
      Tick();
      if !status.Running? {
        return;
      }
      if token == ODD_SYM {
        GetToken();
        Expression();
        if !status.Running? {
          return;
        }
        Gen(OPR, 0, ODD);
      } else {
        Expression();
        if !status.Running? {
          return;
        }
        if !Spec.RelationalOperator(token) {
          Error(20);
          return;
        }
        var relOperator := token;
        GetToken();
        Expression();
        if !status.Running? {
          return;
        }
        Gen(OPR, 0, relOperator);
      }
    }

    /** expression: optional sign, term, then `+`/`-` terms left to right. */
    method Expression()
      requires Valid() && status.Running?
      modifies this, code, symbolTable
      ensures Valid() && State() == Spec.Expression(old(State()))
      decreases fuel
    {
      Tick();
      if !status.Running? {
        return;
      }
      if token == PLUS_SYM || token == MINUS_SYM {
        var addOp := token;
        GetToken();
        Term();
        if status.Running? && addOp == MINUS_SYM {
          Gen(OPR, 0, NEG);
        }
      } else {
        Term();
      }
      if !status.Running? {
        return;
      }
      ExpressionLoop();
    }

    /** The `+`/`-` loop of expression. */
    method ExpressionLoop()
      requires Valid() && status.Running?
      modifies this, code, symbolTable
      ensures Valid() && State() == Spec.ExpressionLoop(old(State()))
      decreases fuel
    {
      ghost var goal := Spec.ExpressionLoop(State());
      while token == PLUS_SYM || token == MINUS_SYM
        invariant Valid() && status.Running? && fuel <= old(fuel)
        invariant Spec.ExpressionLoop(State()) == goal
        decreases fuel
      {
        Tick();
        if !status.Running? {
          break;
        }
        var addOp := token;
        GetToken();
        Term();
        if !status.Running? {
          break;
        }
        if addOp == PLUS_SYM {
          Gen(OPR, 0, ADD);
        } else {
          Gen(OPR, 0, SUB);
        }
        if !status.Running? {
          break;
        }
      }
    }

    /** term: factor, then `*`/`/` factors left to right. */
    method Term()
      requires Valid() && status.Running?
      modifies this, code, symbolTable
      ensures Valid() && State() == Spec.Term(old(State()))
      decreases fuel
    {
      Tick();
      if !status.Running? {
        return;
      }
      Factor();
      if !status.Running? {
        return;
      }
      TermLoop();
    }

    /** The `*`/`/` loop of term. */
    method TermLoop()
      requires Valid() && status.Running?
      modifies this, code, symbolTable
      ensures Valid() && State() == Spec.TermLoop(old(State()))
      decreases fuel
    {
      ghost var goal := Spec.TermLoop(State());
      while token == MULT_SYM || token == SLASH_SYM
        invariant Valid() && status.Running? && fuel <= old(fuel)
        invariant Spec.TermLoop(State()) == goal
        decreases fuel
      {
        Tick();
        if !status.Running? {
          break;
        }
        var mulOp := token;
        GetToken();
        Factor();
        if !status.Running? {
          break;
        }
        if mulOp == MULT_SYM {
          Gen(OPR, 0, MUL);
        } else {
          Gen(OPR, 0, DIV);
        }
        if !status.Running? {
          break;
        }
      }
    }

    /** factor: a name, a number or a parenthesised expression. */
    method Factor()
      requires Valid() && status.Running?
      modifies this, code, symbolTable
      ensures Valid() && State() == Spec.Factor(old(State()))
      decreases fuel
    {
      Tick();
      if !status.Running? {
        return;
      }
      if token == IDENT_SYM {
        var name := GetIdenName();
        if !status.Running? {
          return;
        }
        var foundSymbol := Find(name);
        if !status.Running? {
          return;
        }
        Gen(LOD, 0, foundSymbol.stackPointer);
        if !status.Running? {
          return;
        }
        GetToken();
      } else if token == NUM_SYM {
        var num := GetNumber();
        if !status.Running? {
          return;
        }
        Gen(LIT, 0, num);
        if !status.Running? {
          return;
        }
        GetToken();
      } else if token == LPAREN_SYM {
        GetToken();
        Expression();
        if !status.Running? {
          return;
        }
        if token != RPAREN_SYM {
          Error(22);
          return;
        }
        GetToken();
      } else {
        Error(24);
      }
    }

    // -------------------------------------------------------------------------
    // Statements
    // -------------------------------------------------------------------------

    /** statement: assignment, call, begin-end, if, while, write, read, or nothing. */
    method Statement()
      requires Valid() && status.Running?
      modifies this, code, symbolTable
      ensures Valid() && State() == Spec.Statement(old(State()))
      decreases fuel
    {
      Tick();
      if !status.Running? {
        return;
      }
      if token == IDENT_SYM {
        var foundSymbol := AssignmentTarget();
        if !status.Running? {
          return;
        }
        Expression();
        if !status.Running? {
          return;
        }
        Gen(STO, 0, foundSymbol.stackPointer);
      } else if token == CALL_SYM {
        CallStatement();
      } else if token == BEGIN_SYM {
        GetToken();
        Statement();
        if !status.Running? {
          return;
        }
        StatementLoop();
        if !status.Running? {
          return;
        }
        if token != END_SYM {
          Error(26);
          return;
        }
        GetToken();
      } else if token == IF_SYM {
        IfBlock();
      } else if token == WHILE_SYM {
        WhileBlock();
      } else if token == WRITE_SYM {
        WriteStatement();
      } else if token == READ_SYM {
        ReadStatement();
      }
    }

    /** The `;` loop between begin and end. */
    method StatementLoop()
      requires Valid() && status.Running?
      modifies this, code, symbolTable
      ensures Valid() && State() == Spec.StatementLoop(old(State()))
      decreases fuel
    {
      ghost var goal := Spec.StatementLoop(State());
      while token == SEMICOLON_SYM
        invariant Valid() && status.Running? && fuel <= old(fuel)
        invariant Spec.StatementLoop(State()) == goal
        decreases fuel
      {
        Tick();
        if !status.Running? {
          break;
        }
        GetToken();
        Statement();
        if !status.Running? {
          break;
        }
      }
    }

    /** The name and `:=` of an assignment; the name must not be a constant. */
    method AssignmentTarget() returns (foundSymbol: Symbol)
      requires Valid() && status.Running?
      modifies this
      ensures Valid() && (foundSymbol, State()) == Spec.AssignmentTarget(old(State()))
    {
      var name := GetIdenName();
      if !status.Running? {
        return Symbol("", 0, 0, 0);
      }
      foundSymbol := Find(name);
      if !status.Running? {
        return;
      }
      if foundSymbol.id == CONST_SYM {
        Error(12);
        return;
      }
      GetToken();
      if token != BECOMES_SYM {
        Error(13);
        return;
      }
      GetToken();
    }

    /** `call ident`. */
    method CallStatement()
      requires Valid() && status.Running?
      modifies this
      ensures Valid() && State() == Spec.CallStatement(old(State()))
    {
      GetToken();
      if token != IDENT_SYM {
        Error(14);
        return;
      }
      GetToken();
    }

    /** `write ident`. */
    method WriteStatement()
      requires Valid() && status.Running?
      modifies this, code
      ensures Valid() && State() == Spec.WriteStatement(old(State()))
    {
      GetToken();
      if token != IDENT_SYM {
        Error(14);
        return;
      }
      var name := GetIdenName();
      if !status.Running? {
        return;
      }
      var foundSymbol := Find(name);
      if !status.Running? {
        return;
      }
      Gen(LOD, 0, foundSymbol.stackPointer);
      if !status.Running? {
        return;
      }
      Gen(OUT, 0, 0);
      if !status.Running? {
        return;
      }
      GetToken();
    }

    /** `read ident`. */
    method ReadStatement()
      requires Valid() && status.Running?
      modifies this, code
      ensures Valid() && State() == Spec.ReadStatement(old(State()))
    {
      GetToken();
      if token != IDENT_SYM {
        Error(14);
        return;
      }
      var name := GetIdenName();
      if !status.Running? {
        return;
      }
      var foundSymbol := Find(name);
      if !status.Running? {
        return;
      }
      Gen(IN, 0, 0);
      if !status.Running? {
        return;
      }
      Gen(STO, 0, foundSymbol.stackPointer);
      if !status.Running? {
        return;
      }
      GetToken();
    }

    /** ifBlock: the JPC after the condition is patched to jump past the statement. */
    method IfBlock()
      requires Valid() && status.Running?
      modifies this, code, symbolTable
      ensures Valid() && State() == Spec.IfBlock(old(State()))
      decreases fuel
    {
      Tick();
      if !status.Running? {
        return;
      }
      GetToken();
      Condition();
      if !status.Running? {
        return;
      }
      if token != THEN_SYM {
        Error(16);
        return;
      }
      GetToken();
      var codeIndex1 := codeIndex;
      Gen(JPC, 0, 0);
      if !status.Running? {
        return;
      }
      Statement();
      if !status.Running? {
        return;
      }
      Patch(codeIndex1, codeIndex);
    }

    /** whileBlock: the JMP goes back to the condition and the JPC is patched to jump
        past the JMP. */
    method WhileBlock()
      requires Valid() && status.Running?
      modifies this, code, symbolTable
      ensures Valid() && State() == Spec.WhileBlock(old(State()))
      decreases fuel
    {
      Tick();
      if !status.Running? {
        return;
      }
      var codeIndex1 := codeIndex;
      GetToken();
      Condition();
      if !status.Running? {
        return;
      }
      var codeIndex2 := codeIndex;
      Gen(JPC, 0, 0);
      if !status.Running? {
        return;
      }
      if token != DO_SYM {
        Error(18);
        return;
      }
      GetToken();
      Statement();
      if !status.Running? {
        return;
      }
      Gen(JMP, 0, codeIndex1);
      if !status.Running? {
        return;
      }
      Patch(codeIndex2, codeIndex);
    }

    // -------------------------------------------------------------------------
    // Program, blocks and declarations
    // -------------------------------------------------------------------------

    /** program: a block and the closing period, then OPR 0 0. */
    method Program()
      requires Valid() && status.Running?
      modifies this, code, symbolTable
      ensures Valid() && State() == Spec.Program(old(State()))
    {
      GetToken();
      Block();
      if !status.Running? {
        return;
      }
      if token != PERIOD_SYM {
        Error(9);
        return;
      }
      Gen(OPR, 0, 0);
    }

    /** block: INC 0 0, declarations, procedures, statement, then the INC's M is
        patched to the frame size. */
    method Block()
      requires Valid() && status.Running?
      modifies this, code, symbolTable
      ensures Valid() && State() == Spec.Block(old(State()))
      decreases fuel
    {
      Tick();
      if !status.Running? {
        return;
      }
      var codeIndex1 := codeIndex;
      Gen(INC, 0, 0);
      if !status.Running? {
        return;
      }
      var stackPointer := Declarations();
      if !status.Running? {
        return;
      }
      ProcedureLoop();
      if !status.Running? {
        return;
      }
      Statement();
      if !status.Running? {
        return;
      }
      Patch(codeIndex1, stackPointer);
    }

    /** The `while (token == PROC_SYM)` loop of block. */
    method ProcedureLoop()
      requires Valid() && status.Running?
      modifies this, code, symbolTable
      ensures Valid() && State() == Spec.ProcedureLoop(old(State()))
      decreases fuel
    {
      ghost var goal := Spec.ProcedureLoop(State());
      while token == PROC_SYM
        invariant Valid() && status.Running? && fuel <= old(fuel)
        invariant Spec.ProcedureLoop(State()) == goal
        decreases fuel
      {
        Tick();
        if !status.Running? {
          break;
        }
        GetToken();
        if token != IDENT_SYM {
          Error(6);
          break;
        }
        GetToken();
        if token != SEMICOLON_SYM {
          Error(5);
          break;
        }
        GetToken();
        Block();
        if !status.Running? {
          break;
        }
        if token != SEMICOLON_SYM {
          Error(5);
          break;
        }
        GetToken();
      }
    }

    /** The const and var parts of a block; returns the next free stack address. */
    method Declarations() returns (stackPointer: int)
      requires Valid() && status.Running?
      modifies this, code, symbolTable
      ensures Valid() && (State(), stackPointer) == Spec.Declarations(old(State()))
    {
      stackPointer := Spec.FIRST_ADDRESS;
      if token == CONST_SYM {
        stackPointer := ConstLoop(stackPointer);
        EndDeclarations();
        if !status.Running? {
          return;
        }
      }
      if token == VAR_SYM {
        stackPointer := VarLoop(stackPointer);
        EndDeclarations();
      }
    }

    /** The `do ... while (token == COMMA_SYM)` loop of a const declaration. */
    method ConstLoop(address: int) returns (next: int)
      requires Valid() && status.Running?
      modifies this, code, symbolTable
      ensures Valid() && (State(), next) == Spec.ConstLoop(old(State()), address)
    {
      next := address;
      ghost var goal := Spec.ConstLoop(State(), next);
      while true
        invariant Valid() && status.Running?
        invariant Spec.ConstLoop(State(), next) == goal
        decreases |words| - pos
      {
        ConstDeclaration(next);
        next := next + 1;
        if !status.Running? || token != COMMA_SYM {
          break;
        }
      }
    }

    /** The `do ... while (token == COMMA_SYM)` loop of a var declaration. */
    method VarLoop(address: int) returns (next: int)
      requires Valid() && status.Running?
      modifies this, symbolTable
      ensures Valid() && (State(), next) == Spec.VarLoop(old(State()), address)
    {
      next := address;
      ghost var goal := Spec.VarLoop(State(), next);
      while true
        invariant Valid() && status.Running?
        invariant Spec.VarLoop(State(), next) == goal
        decreases |words| - pos
      {
        VarDeclaration(next);
        next := next + 1;
        if !status.Running? || token != COMMA_SYM {
          break;
        }
      }
    }

    /** The semicolon that ends a declaration list. */
    method EndDeclarations()
      requires Valid()
      modifies this
      ensures Valid() && State() == Spec.EndDeclarations(old(State()))
    {
      if !status.Running? {
        return;
      }
      if token != SEMICOLON_SYM {
        Error(5);
        return;
      }
      GetToken();
    }

    /** One `ident = number` of a const declaration at the given address. */
    method ConstDeclaration(address: int)
      requires Valid() && status.Running?
      modifies this, code, symbolTable
      ensures Valid() && State() == Spec.ConstDeclaration(old(State()), address)
    {
      GetToken();
      if token != IDENT_SYM {
        Error(4);
        return;
      }
      var name := GetIdenName();
      if !status.Running? {
        return;
      }
      Enter(name, CONST_SYM, Spec.LEX_LEVEL, address);
      if !status.Running? {
        return;
      }
      GetToken();
      if token != EQL_SYM {
        Error(3);
        return;
      }
      GetToken();
      if token != NUM_SYM {
        Error(2);
        return;
      }
      var num := GetNumber();
      if !status.Running? {
        return;
      }
      Gen(LIT, 0, num);
      if !status.Running? {
        return;
      }
      Gen(STO, 0, address);
      if !status.Running? {
        return;
      }
      GetToken();
    }

    /** One identifier of a var declaration at the given address. */
    method VarDeclaration(address: int)
      requires Valid() && status.Running?
      modifies this, symbolTable
      ensures Valid() && State() == Spec.VarDeclaration(old(State()), address)
    {
      GetToken();
      if token != IDENT_SYM {
        Error(4);
        return;
      }
      var name := GetIdenName();
      if !status.Running? {
        return;
      }
      Enter(name, VAR_SYM, Spec.LEX_LEVEL, address);
      if !status.Running? {
        return;
      }
      GetToken();
    }
  }

  /** parse: runs program over the words and writes out the code (writeMCode) when no
      error stopped it. */
  method Parse(words: seq<Word>, fuel: nat) returns (code: seq<Instruction>, status: Spec.Status)
    ensures (code, status) == Spec.Parse(words, fuel)
  {
    var parser := new Parser(words, fuel);
    parser.Program();
    status := parser.status;
    code := if status.Running? then parser.code[..parser.codeIndex] else [];
  }
}
