/** Opcodes of the stack machine and the sub-operations of OPR. */
module Pm0Constants {

  const LIT := 1
  const OPR := 2
  const LOD := 3
  const STO := 4
  const CAL := 5
  const INC := 6
  const JMP := 7
  const JPC := 8
  const OUT := 9
  const IN := 10

  // M values for OP = OPR
  const RET := 0
  const NEG := 1
  const ADD := 2
  const SUB := 3
  const MUL := 4
  const DIV := 5
  const ODD := 6
  const MOD := 7
  const EQL := 8
  const NEQ := 9
  const LSS := 10
  const LEQ := 11
  const GTR := 12
  const GEQ := 13
}
