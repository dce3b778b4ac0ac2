/** Token ids of the PL/0 grammar and the scanner's token classes. */
module Pl0Constants {

  const NULL_SYM := 1
  const IDENT_SYM := 2
  const NUM_SYM := 3
  const PLUS_SYM := 4
  const MINUS_SYM := 5
  const MULT_SYM := 6
  const SLASH_SYM := 7
  const ODD_SYM := 8
  const EQL_SYM := 9
  const NEQ_SYM := 10
  const LESS_SYM := 11
  const LEQ_SYM := 12
  const GTR_SYM := 13
  const GEQ_SYM := 14
  const LPAREN_SYM := 15
  const RPAREN_SYM := 16
  const COMMA_SYM := 17
  const SEMICOLON_SYM := 18
  const PERIOD_SYM := 19
  const BECOMES_SYM := 20
  const BEGIN_SYM := 21
  const END_SYM := 22
  const IF_SYM := 23
  const THEN_SYM := 24
  const WHILE_SYM := 25
  const DO_SYM := 26
  const CALL_SYM := 27
  const CONST_SYM := 28
  const VAR_SYM := 29
  const PROC_SYM := 30
  const WRITE_SYM := 31
  const READ_SYM := 32
  const ELSE_SYM := 33

  // Token classes, fixed by the first non-blank character of a token
  const NOT_SET := 0
  const ALPHA := 1
  const NUMBER := 2
  const SYMBOL := 3
}
