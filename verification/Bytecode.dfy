/** Instructions, constants and the per-opcode tables that the bytecode passes consult. */
module Bytecode {

  datatype Option<+T> = None | Some(value: T)

  /** Every opcode, in the order of its declaration in source/core/bytecode.h. */
  datatype Opcode =
    | MOVE | LOAD_CONST | LOAD_NUM_IMM | LOAD_NUM | LOAD_BOOL | LOAD_NONE
    | ADD | SUB | MUL | DIV | MOD | ADD_IMM | SUB_IMM | MUL_IMM | DIV_IMM | MOD_IMM | NEG | INC | DEC
    | JUMP | JUMP_IF_FALSE | JUMP_IF_EQ | JUMP_IF_NEQ | JUMP_IF_EQ_NUM | JUMP_IF_NEQ_NUM
    | JUMP_IF_LT | JUMP_IF_GT | JUMP_IF_LTE | JUMP_IF_GTE
    | JUMP_IF_EQ_IMM | JUMP_IF_NEQ_IMM | JUMP_IF_LT_IMM | JUMP_IF_GT_IMM | JUMP_IF_LTE_IMM | JUMP_IF_GTE_IMM
    | JUMP_IF_NONE | JUMP_IF_NOT_NONE
    | JUMP_MATCH_NUM | JUMP_MATCH_STR | JUMP_MATCH_BOOL | JUMP_MATCH_NONE | JUMP_TABLE | SWITCH_STR | SWITCH_NUM
    | CMP_EQ | CMP_NEQ | CMP_EQ_NUM | CMP_NEQ_NUM | CMP_LT | CMP_GT | CMP_LTE | CMP_GTE
    | FOR_INIT | FOR_NEXT | FOR_NEXT_LOOP | TABLE_ITER_INIT | TABLE_ITER_NEXT | POP_ITER | POP_TABLE_ITER
    | TABLE_GET | TABLE_GET_CONST | TABLE_GET_INT | TABLE_GET_NUM | TABLE_GET_KEY_STR
    | TABLE_SET | TABLE_SET_CONST | TABLE_SET_INT | TABLE_SET_NUM | TABLE_SET_KEY_STR | TABLE_APPEND
    | NEW_TABLE | LOAD_TABLE | CONCAT | AND | OR
    | PUSH_ARG | CALL | CALL_BUILTIN | CALL_0 | CALL_1 | CALL_2
    | RETURN | RETURN_NUM | RETURN_NUM_IMM | RETURN_BOOL | RETURN_NONE
    | AWAIT | ASYNC_CALL_BUILTIN | ASYNC_CALL | LOAD_GLOBAL | STORE_GLOBAL | HALT

  datatype Instruction = Instruction(op: Opcode, a: int, b: int, c: int)

  datatype StringSwitchEntry = StringSwitchEntry(hash: bv32, target: int, caseConst: int)
  datatype NumSwitchEntry = NumSwitchEntry(bits: bv64, target: int)

  datatype Constant =
    | Number(n: real)
    | Str(s: string)
    | NoneConst
    | Bool(b: bool)
    | Function(index: int)
    | Table(items: seq<int>, keys: seq<int>, vals: seq<int>, capacity: int)
    | JumpTable(addresses: seq<int>)
    | StrSwitch(addend: bv32, strEntries: seq<StringSwitchEntry>, strDefault: int)
    | NumSwitch(addend: bv32, numEntries: seq<NumSwitchEntry>, numDefault: int)

  datatype FunctionInfo = FunctionInfo(name: string, address: int, arity: int, maxRegisters: int)

  datatype Program = Program(code: seq<Instruction>, functions: seq<FunctionInfo>, constants: seq<Constant>)

  // ----- which operand of an opcode is a code address -----

  /** Opcodes whose first operand is a code address. */
  predicate HasPcInOp0(op: Opcode) {
    match op
    case JUMP | JUMP_IF_FALSE | JUMP_IF_EQ | JUMP_IF_NEQ | JUMP_IF_EQ_NUM | JUMP_IF_NEQ_NUM => true
    case JUMP_IF_LT | JUMP_IF_GT | JUMP_IF_LTE | JUMP_IF_GTE => true
    case JUMP_IF_EQ_IMM | JUMP_IF_NEQ_IMM | JUMP_IF_LT_IMM | JUMP_IF_GT_IMM => true
    case JUMP_IF_LTE_IMM | JUMP_IF_GTE_IMM | JUMP_IF_NONE | JUMP_IF_NOT_NONE => true
    case JUMP_MATCH_NUM | JUMP_MATCH_STR | JUMP_MATCH_BOOL | JUMP_MATCH_NONE => true
    case _ => false
  }

  predicate HasPcInOp1(op: Opcode) { op.FOR_NEXT? || op.FOR_NEXT_LOOP? }

  predicate HasPcInOp2(op: Opcode) { op.TABLE_ITER_NEXT? }

  predicate HasPc(op: Opcode) { HasPcInOp0(op) || HasPcInOp1(op) || HasPcInOp2(op) }

  /** The code address an instruction carries; -1 when it carries none. */
  function PcOperand(i: Instruction): int {
    if HasPcInOp0(i.op) then i.a else if HasPcInOp1(i.op) then i.b else if HasPcInOp2(i.op) then i.c else -1
  }

  function WithPc(i: Instruction, target: int): Instruction {
    if HasPcInOp0(i.op) then i.(a := target)
    else if HasPcInOp1(i.op) then i.(b := target)
    else if HasPcInOp2(i.op) then i.(c := target)
    else i
  }

  // ----- which operand of an opcode is a constant-pool index -----

  predicate PoolInOp1(op: Opcode) {
    op.LOAD_CONST? || op.LOAD_NUM? || op.LOAD_TABLE? || op.CALL_BUILTIN? || op.ASYNC_CALL_BUILTIN? ||
    op.TABLE_SET_CONST? || op.SWITCH_STR? || op.SWITCH_NUM?
  }

  predicate PoolInOp2(op: Opcode) {
    op.JUMP_MATCH_NUM? || op.JUMP_MATCH_STR? || op.TABLE_GET_CONST? || op.JUMP_TABLE?
  }

  /** The pool index sits in the high half of the third operand. */
  predicate PoolPacked(op: Opcode) { op.TABLE_GET_KEY_STR? || op.TABLE_SET_KEY_STR? }

  predicate HasPool(op: Opcode) { PoolInOp1(op) || PoolInOp2(op) || PoolPacked(op) }

  function High(x: int): int { (x / 0x1_0000) % 0x1_0000 }
  function Low(x: int): int { x % 0x1_0000 }

  function PoolOperand(i: Instruction): int {
    if PoolInOp1(i.op) then i.b else if PoolInOp2(i.op) then i.c else if PoolPacked(i.op) then High(i.c) else -1
  }

  function WithPool(i: Instruction, k: int): Instruction {
    if PoolInOp1(i.op) then i.(b := k)
    else if PoolInOp2(i.op) then i.(c := k)
    else if PoolPacked(i.op) then i.(c := k * 0x1_0000 + Low(i.c))
    else i
  }

  predicate IsDirectCall(op: Opcode) { op.CALL? || op.CALL_0? || op.CALL_1? || op.CALL_2? || op.ASYNC_CALL? }

  // ----- tables of the optimizer -----

  predicate IsNop(i: Instruction) { i.op.MOVE? && i.a == i.b }

  predicate IsTerminator(op: Opcode) {
    op.JUMP? || op.RETURN? || op.RETURN_NUM? || op.RETURN_NUM_IMM? || op.RETURN_BOOL? || op.RETURN_NONE? || op.HALT?
  }

  /** op_writes_dest_reg: the opcodes the optimizer believes write register a. */
  predicate WritesDestReg(op: Opcode) {
    match op
    case MOVE | NEG | INC | DEC | LOAD_CONST | LOAD_NUM_IMM | LOAD_NUM | LOAD_BOOL | LOAD_NONE => true
    case ADD | SUB | MUL | DIV | MOD | ADD_IMM | SUB_IMM | MUL_IMM | DIV_IMM | MOD_IMM => true
    case CMP_EQ | CMP_NEQ | CMP_EQ_NUM | CMP_NEQ_NUM | CMP_LT | CMP_GT | CMP_LTE | CMP_GTE => true
    case CALL | CALL_0 | CALL_1 | CALL_2 | CALL_BUILTIN | ASYNC_CALL | ASYNC_CALL_BUILTIN => true
    case LOAD_GLOBAL | TABLE_GET | TABLE_GET_CONST | TABLE_GET_INT | NEW_TABLE | LOAD_TABLE => true
    case CONCAT | AND | OR | AWAIT => true
    case _ => false
  }

  /** op_is_pure: writes register a and has no other effect. */
  predicate IsPure(op: Opcode) {
    match op
    case MOVE | NEG | INC | DEC | LOAD_CONST | LOAD_NUM_IMM | LOAD_NUM | LOAD_BOOL | LOAD_NONE | LOAD_GLOBAL => true
    case ADD | SUB | MUL | DIV | MOD | ADD_IMM | SUB_IMM | MUL_IMM | DIV_IMM | MOD_IMM => true
    case CMP_EQ | CMP_NEQ | CMP_EQ_NUM | CMP_NEQ_NUM | CMP_LT | CMP_GT | CMP_LTE | CMP_GTE => true
    case AND | OR | TABLE_GET | TABLE_GET_CONST | TABLE_GET_INT | CONCAT | NEW_TABLE | LOAD_TABLE => true
    case _ => false
  }

  /** inst_reads_reg: the registers the optimizer believes an instruction reads. */
  predicate ReadsReg(i: Instruction, reg: int) {
    match i.op
    case LOAD_NUM_IMM | LOAD_NUM | LOAD_CONST | LOAD_BOOL | LOAD_NONE | LOAD_GLOBAL | LOAD_TABLE => false
    case MOVE | NEG | ADD | SUB | MUL | DIV | MOD | CMP_EQ | CMP_NEQ | CMP_EQ_NUM | CMP_NEQ_NUM =>
      i.b == reg || i.c == reg
    case CMP_LT | CMP_GT | CMP_LTE | CMP_GTE | AND | OR | CONCAT => i.b == reg || i.c == reg
    case ADD_IMM | SUB_IMM | MUL_IMM | DIV_IMM | MOD_IMM => i.b == reg
    case INC | DEC => i.a == reg
    case TABLE_GET | TABLE_GET_NUM => i.b == reg || i.c == reg
    case TABLE_GET_INT => i.b == reg
    case SWITCH_STR | SWITCH_NUM | PUSH_ARG | STORE_GLOBAL => i.a == reg
    case CALL | CALL_0 | CALL_BUILTIN | ASYNC_CALL_BUILTIN | ASYNC_CALL => false
    case CALL_1 => i.c == reg
    case CALL_2 => i.c == reg || i.c + 1 == reg
    case JUMP_IF_NONE | JUMP_IF_NOT_NONE => i.b == reg
    case RETURN | RETURN_NUM | RETURN_BOOL => i.a == reg
    case RETURN_NONE => false
    case _ => true
  }
}
