/** The records shared by the three stages. */
module Structs {

  /** An instruction (OP, L, M) of the stack machine. */
  datatype Instruction = Instruction(op: int, l: int, m: int)

  /** A scanned token: its text, grammar id, class (NOT_SET, ALPHA, NUMBER or SYMBOL),
      lexical error code (0 for none) and whether it marks the end of the input. */
  datatype Token = Token(value: string, id: int, kind: int, error: int, endOfFile: bool)

  /** A symbol-table entry: name, kind (CONST_SYM or VAR_SYM), level and stack address. */
  datatype Symbol = Symbol(name: string, id: int, level: int, stackPointer: int)

  /** One whitespace-separated word of the lexeme list, as `%d` sees it: an integer,
      or a name that `%d` cannot read. */
  datatype Word = Int(n: int) | Name(s: string)

  /** A value that may be absent, where the C code uses a sentinel. */
  datatype Option<T> = None | Some(value: T)
}
