/** A small-step machine for the bytecode, following the opcode handlers of source/core/vm.c.
  *
  * What a data opcode computes (arithmetic, comparison, tables, builtins) is a parameter, the
  * Interp: every theorem about the machine holds for every interpretation of those opcodes.
  * Control flow, registers, call frames, loop iterators, globals and the argument stack are
  * modelled outright.  Code addresses occur only in `pc` and `rets`, never in `Data`.
  */
module Machine {
  import opened Bytecode

  datatype Value =
    | VNone | VBool(b: bool) | VNum(n: real) | VStr(s: string)
    | VFunc(name: string) | VTable(handle: int) | VFuture(id: int)

  type Regs = map<int, Value>

  /** What a pool index stands for, all the way down, with code addresses left out. */
  datatype Tree =
    | TCut
    | TNumber(n: real) | TStr(s: string) | TNone | TBool(b: bool)
    | TFunction(name: string, arity: int)
    | TTable(items: seq<Tree>, keys: seq<Tree>, vals: seq<Tree>, capacity: int)
    | TJumpTable(count: nat)
    | TStrSwitch(addend: bv32, strSlots: seq<(bv32, bool, Tree)>)
    | TNumSwitch(addend: bv32, numSlots: seq<(bv64, bool)>)

  /** The tree below constant k, unfolded to the given depth. */
  function Denote(p: Program, k: int, depth: nat): Tree
    decreases depth, 0
  {
    if depth == 0 || !(0 <= k < |p.constants|) then TCut else
    match p.constants[k]
    case Number(n) => TNumber(n)
    case Str(s) => TStr(s)
    case NoneConst => TNone
    case Bool(b) => TBool(b)
    case Function(f) => if 0 <= f < |p.functions| then TFunction(p.functions[f].name, p.functions[f].arity) else TCut
    case Table(items, keys, vals, cap) =>
      TTable(DenoteAll(p, items, depth - 1), DenoteAll(p, keys, depth - 1), DenoteAll(p, vals, depth - 1), cap)
    case JumpTable(addrs) => TJumpTable(|addrs|)
    case StrSwitch(addend, es, _) =>
      TStrSwitch(addend, seq(|es|, i requires 0 <= i < |es| =>
        (es[i].hash, es[i].target >= 0, Denote(p, es[i].caseConst, depth - 1))))
    case NumSwitch(addend, es, _) =>
      TNumSwitch(addend, seq(|es|, i requires 0 <= i < |es| => (es[i].bits, es[i].target >= 0)))
  }

  function DenoteAll(p: Program, ks: seq<int>, depth: nat): seq<Tree>
    decreases depth, 1
  {
    seq(|ks|, i requires 0 <= i < |ks| => Denote(p, ks[i], depth))
  }

  /** An instruction as the data path sees it: address, pool and function operands are replaced
    * by what they stand for. */
  datatype Literal = NoLiteral | Pool(tree: Tree) | Callee(name: string, arity: int) | NoCallee
  datatype View = View(op: Opcode, a: int, b: int, c: int, lit: Literal)

  function Seen(p: Program, i: Instruction, depth: nat): (v: View)
    ensures v == ViewOf(p, i, depth)
  {
    View(i.op, if JumpsByA(i.op) then 0 else i.a,
         if i.op.FOR_NEXT? || i.op.FOR_NEXT_LOOP? || Calls(i.op) || ConstantInB(i.op) then 0 else i.b,
         if i.op.TABLE_ITER_NEXT? || ConstantInC(i.op) then 0 else if ConstantInHighC(i.op) then Low(i.c) else i.c,
         if Calls(i.op) then CalleeAt(p, i.b)
         else if NamesConstant(i.op) then Pool(Denote(p, NamedConstant(i), depth)) else NoLiteral)
  }

  function CalleeAt(p: Program, f: int): Literal {
    if 0 <= f < |p.functions| then Callee(p.functions[f].name, p.functions[f].arity) else NoCallee
  }

  /** Jumps and tests, which lead to their first operand. */
  predicate JumpsByA(op: Opcode): (r: bool)
    ensures r == HasPcInOp0(op)
  {
    match op
    case JUMP | JUMP_IF_FALSE | JUMP_IF_EQ | JUMP_IF_NEQ | JUMP_IF_EQ_NUM | JUMP_IF_NEQ_NUM => true
    case JUMP_IF_LT | JUMP_IF_GT | JUMP_IF_LTE | JUMP_IF_GTE | JUMP_IF_NONE | JUMP_IF_NOT_NONE => true
    case JUMP_IF_EQ_IMM | JUMP_IF_NEQ_IMM | JUMP_IF_LT_IMM | JUMP_IF_GT_IMM => true
    case JUMP_IF_LTE_IMM | JUMP_IF_GTE_IMM => true
    case JUMP_MATCH_NUM | JUMP_MATCH_STR | JUMP_MATCH_BOOL | JUMP_MATCH_NONE => true
    case _ => false
  }

  predicate Calls(op: Opcode): (r: bool)
    ensures r == IsDirectCall(op)
  {
    match op
    case CALL | CALL_0 | CALL_1 | CALL_2 | ASYNC_CALL => true
    case _ => false
  }

  predicate ConstantInB(op: Opcode): (r: bool)
    ensures r == PoolInOp1(op)
  {
    match op
    case LOAD_CONST | LOAD_NUM | LOAD_TABLE | CALL_BUILTIN | ASYNC_CALL_BUILTIN | TABLE_SET_CONST => true
    case SWITCH_STR | SWITCH_NUM => true
    case _ => false
  }

  predicate ConstantInC(op: Opcode): (r: bool)
    ensures r == PoolInOp2(op)
  {
    match op
    case JUMP_MATCH_NUM | JUMP_MATCH_STR | TABLE_GET_CONST | JUMP_TABLE => true
    case _ => false
  }

  predicate ConstantInHighC(op: Opcode): (r: bool)
    ensures r == PoolPacked(op)
  {
    match op
    case TABLE_GET_KEY_STR | TABLE_SET_KEY_STR => true
    case _ => false
  }

  predicate NamesConstant(op: Opcode) { ConstantInB(op) || ConstantInC(op) || ConstantInHighC(op) }

  /** The constant an instruction names; -1 when it names none. */
  function NamedConstant(i: Instruction): (k: int)
    ensures k == PoolOperand(i)
  {
    if ConstantInB(i.op) then i.b else if ConstantInC(i.op) then i.c
    else if ConstantInHighC(i.op) then High(i.c) else -1
  }

  /** Where a branch leads when it is taken. */
  function BranchTarget(i: Instruction): (t: int)
    ensures t == PcOperand(i)
  {
    if JumpsByA(i.op) then i.a
    else if i.op.FOR_NEXT? || i.op.FOR_NEXT_LOOP? then i.b
    else if i.op.TABLE_ITER_NEXT? then i.c else -1
  }

  /** The same view by the tables the passes consult. */
  function ViewOf(p: Program, i: Instruction, depth: nat): View {
    if IsDirectCall(i.op) then
      View(i.op, i.a, 0, i.c,
           if 0 <= i.b < |p.functions| then Callee(p.functions[i.b].name, p.functions[i.b].arity) else NoCallee)
    else
      var e := WithPool(WithPc(i, 0), 0);
      View(e.op, e.a, e.b, e.c, if HasPool(i.op) then Pool(Denote(p, PoolOperand(i), depth)) else NoLiteral)
  }

  lemma ViewOp(p: Program, i: Instruction, depth: nat)
    ensures ViewOf(p, i, depth).op == i.op
  {
    hide Denote, PoolOperand, IsDirectCall, HasPool;
  }

  // ----- machine state -----

  datatype ForIter = ForIter(index: real, end: real, step: real)
  datatype TableIter = TableIter(table: Value, position: int)
  datatype Frame = Frame(dest: int, regs: Regs, iterDepth: nat, tableIterDepth: nat)
  datatype World = World(tables: map<int, map<Value, Value>>, output: seq<Value>)
  datatype Status = Running | Halted | Failed

  /** Everything a run manipulates except code addresses. */
  datatype Data = Data(regs: Regs, frames: seq<Frame>, iters: seq<ForIter>, tableIters: seq<TableIter>,
                       args: seq<Value>, globals: map<int, Value>, world: World, status: Status)

  datatype State = State(pc: int, rets: seq<int>, data: Data)

  datatype Effect = Effect(value: Value, world: World, ok: bool)

  /** The meaning of the data opcodes. */
  datatype Interp = Interp(
    depth: nat,
    data: (Opcode, seq<Value>, int, Literal, World) -> Effect,
    test: (Opcode, Value, Value, int, Literal, World) -> bool,
    pick: (Value, Literal) -> int,
    advance: (TableIter, World) -> Option<(Value, TableIter)>)

  /** Where control goes next, named without a code address. */
  datatype Place = Next | Taken | Slot(i: int) | Default | Enter | Leave | Stay

  datatype Outcome = Outcome(data: Data, place: Place)

  const MAX_CALL_FRAMES := 1024
  const MAX_ITER_STACK := 1024
  const MAX_ARGS_STACK := 64

  function Get(m: Regs, r: int): Value { if r in m then m[r] else VNone }

  function CopyReg(m: Regs, dest: int, src: int): Regs {
    if src in m then m[dest := m[src]] else map r | r in m && r != dest :: m[r]
  }

  function Fail(d: Data): Outcome { Outcome(d.(status := Failed), Stay) }

  /** The registers a data opcode reads, as the handlers of the interpreter read them. */
  function Sources(v: View): seq<int> {
    match v.op
    case NEG | AWAIT => [v.b]
    case INC | DEC => [v.a]
    case ADD | SUB | MUL | DIV | MOD | CMP_EQ | CMP_NEQ | CMP_EQ_NUM | CMP_NEQ_NUM => [v.b, v.c]
    case CMP_LT | CMP_GT | CMP_LTE | CMP_GTE | AND | OR | CONCAT | TABLE_GET | TABLE_GET_NUM => [v.b, v.c]
    case ADD_IMM | SUB_IMM | MUL_IMM | DIV_IMM | MOD_IMM | TABLE_GET_CONST | TABLE_GET_INT => [v.b]
    case TABLE_GET_KEY_STR => [v.b, Low(v.c)]
    case TABLE_SET | TABLE_SET_NUM => [v.a, v.b, v.c]
    case TABLE_SET_CONST | TABLE_SET_INT => [v.a, v.c]
    case TABLE_SET_KEY_STR => [v.a, v.b, Low(v.c)]
    case TABLE_APPEND => [v.a, v.b]
    case _ => []
  }

  /** The immediate a data or branch opcode carries. */
  function Immediate(v: View): int {
    match v.op
    case LOAD_NUM_IMM | LOAD_BOOL | TABLE_SET_INT => v.b
    case ADD_IMM | SUB_IMM | MUL_IMM | DIV_IMM | MOD_IMM | TABLE_GET_INT => v.c
    case JUMP_IF_EQ_IMM | JUMP_IF_NEQ_IMM | JUMP_IF_LT_IMM | JUMP_IF_GT_IMM => v.c
    case JUMP_IF_LTE_IMM | JUMP_IF_GTE_IMM | JUMP_MATCH_BOOL => v.c
    case _ => 0
  }

  /** Branches that compare two registers. */
  predicate TwoRegisterBranch(op: Opcode) {
    op.JUMP_IF_EQ? || op.JUMP_IF_NEQ? || op.JUMP_IF_EQ_NUM? || op.JUMP_IF_NEQ_NUM? ||
    op.JUMP_IF_LT? || op.JUMP_IF_GT? || op.JUMP_IF_LTE? || op.JUMP_IF_GTE?
  }

  /** Data opcodes that store into register a. */
  predicate StoresResult(op: Opcode) {
    !(op.TABLE_SET? || op.TABLE_SET_CONST? || op.TABLE_SET_INT? || op.TABLE_SET_NUM? || op.TABLE_SET_KEY_STR? ||
      op.TABLE_APPEND?)
  }

  /** Opcodes whose inputs are the last c values of the argument stack. */
  predicate TakesArgs(op: Opcode) { op.CALL_BUILTIN? || op.ASYNC_CALL_BUILTIN? || op.ASYNC_CALL? }

  function Values(m: Regs, rs: seq<int>): seq<Value> {
    seq(|rs|, k requires 0 <= k < |rs| => Get(m, rs[k]))
  }

  function ExecData(I: Interp, v: View, d: Data): Outcome {
    if TakesArgs(v.op) && !(0 <= v.c <= |d.args|) then Fail(d) else
    var n := if TakesArgs(v.op) then v.c else 0;
    var inputs := if TakesArgs(v.op) then d.args[|d.args| - n..] else Values(d.regs, Sources(v));
    var e := I.data(v.op, inputs, Immediate(v), v.lit, d.world);
    if !e.ok then Fail(d) else
    Outcome(d.(regs := if StoresResult(v.op) then d.regs[v.a := e.value] else d.regs,
               args := d.args[..|d.args| - n], world := e.world), Next)
  }

  predicate InBounds(it: ForIter) {
    (it.step > 0.0 && it.index <= it.end) || (it.step < 0.0 && it.index >= it.end)
  }

  /** FOR_NEXT (onMore = Next, onDone = Taken) and FOR_NEXT_LOOP (the other way round). */
  function ExecForNext(v: View, d: Data, onMore: Place, onDone: Place): Outcome {
    if d.iters == [] then Fail(d) else
    var it := d.iters[|d.iters| - 1];
    var outer := d.iters[..|d.iters| - 1];
    if InBounds(it) then
      Outcome(d.(regs := d.regs[v.a := VNum(it.index)], iters := outer + [it.(index := it.index + it.step)]), onMore)
    else
      Outcome(d.(iters := outer), onDone)
  }

  function ExecTableNext(I: Interp, v: View, d: Data): Outcome {
    if d.tableIters == [] then Fail(d) else
    var outer := d.tableIters[..|d.tableIters| - 1];
    match I.advance(d.tableIters[|d.tableIters| - 1], d.world)
    case None => Outcome(d.(tableIters := outer), Taken)
    case Some(r) => Outcome(d.(regs := d.regs[v.a := r.0], tableIters := outer + [r.1]), Next)
  }

  /** The slot offset of JUMP_TABLE for a number that equals its cast to a 32-bit int; the subtraction
    * wraps at 32 bits and is compared unsigned. */
  function WholeOffset(n: real, min: int): Option<int> {
    if n.Floor as real == n && -0x8000_0000 <= n.Floor < 0x8000_0000
    then Some((n.Floor - min) % 0x1_0000_0000) else None
  }

  function TableOffset(subject: Value, min: int): Option<int> {
    if subject.VNum? then WholeOffset(subject.n, min) else None
  }

  function ExecJumpTable(v: View, d: Data): Outcome {
    if !(v.lit.Pool? && v.lit.tree.TJumpTable?) then Fail(d) else
    match TableOffset(Get(d.regs, v.a), v.b)
    case None => Outcome(d, Next)
    case Some(k) => Outcome(d, if k < v.lit.tree.count then Slot(k) else Next)
  }

  function ExecSwitch(I: Interp, v: View, d: Data): Outcome {
    if !(v.lit.Pool? && (v.lit.tree.TStrSwitch? || v.lit.tree.TNumSwitch?)) then Fail(d) else
    var n := if v.lit.tree.TStrSwitch? then |v.lit.tree.strSlots| else |v.lit.tree.numSlots|;
    var k := I.pick(Get(d.regs, v.a), v.lit);
    Outcome(d, if 0 <= k < n then Slot(k) else Default)
  }

  /** The first registers of a fresh frame, holding the arguments in order. */
  function ArgRegs(xs: seq<Value>): Regs {
    if xs == [] then map[] else ArgRegs(xs[..|xs| - 1])[|xs| - 1 := xs[|xs| - 1]]
  }

  function CalleeRegs(v: View, d: Data): Option<(Regs, nat)> {
    match v.op
    case CALL =>
      if 0 <= v.c <= |d.args| then Some((ArgRegs(d.args[|d.args| - v.c..]), |d.args| - v.c)) else None
    case CALL_1 => Some((map[0 := Get(d.regs, v.c)], |d.args|))
    case CALL_2 => Some((map[0 := Get(d.regs, v.c), 1 := Get(d.regs, v.c + 1)], |d.args|))
    case _ => Some((map[], |d.args|))
  }

  function ExecCall(v: View, d: Data): Outcome {
    if |d.frames| >= MAX_CALL_FRAMES - 1 || v.lit.NoCallee? then Fail(d) else
    match CalleeRegs(v, d)
    case None => Fail(d)
    case Some(r) =>
      Outcome(d.(regs := r.0, args := d.args[..r.1],
                 frames := d.frames + [Frame(v.a, d.regs, |d.iters|, |d.tableIters|)]), Enter)
  }

  function ReturnValue(v: View, d: Data): Value {
    match v.op
    case RETURN_NUM_IMM => VNum(v.b as real)
    case RETURN_NONE => VNone
    case _ => Get(d.regs, v.a)
  }

  function ExecReturn(v: View, d: Data): Outcome {
    if d.frames == [] then Outcome(d.(status := Halted), Stay) else
    var f := d.frames[|d.frames| - 1];
    var iters := if f.iterDepth <= |d.iters| then d.iters[..f.iterDepth] else d.iters;
    var tableIters := if f.tableIterDepth <= |d.tableIters| then d.tableIters[..f.tableIterDepth] else d.tableIters;
    Outcome(d.(regs := f.regs[f.dest := ReturnValue(v, d)], frames := d.frames[..|d.frames| - 1], iters := iters,
               tableIters := tableIters), Leave)
  }

  function ForStart(a: Value, b: Value, c: Value): ForIter {
    if a.VNum? && b.VNum? && c.VNum? then ForIter(a.n, b.n, c.n) else ForIter(0.0, 0.0, 0.0)
  }

  /** The conditional branches. */
  function ExecTest(I: Interp, v: View, d: Data): Outcome {
    Outcome(d, if I.test(v.op, Get(d.regs, v.b), if TwoRegisterBranch(v.op) then Get(d.regs, v.c) else VNone,
                         Immediate(v), v.lit, d.world) then Taken else Next)
  }

  /** One instruction, on everything but code addresses. */
  function Exec(I: Interp, v: View, d: Data): Outcome {
    match v.op
    case MOVE => Outcome(d.(regs := CopyReg(d.regs, v.a, v.b)), Next)
    case JUMP => Outcome(d, Taken)
    case JUMP_TABLE => ExecJumpTable(v, d)
    case SWITCH_STR | SWITCH_NUM => ExecSwitch(I, v, d)
    case FOR_INIT =>
      if |d.iters| >= MAX_ITER_STACK then Fail(d)
      else Outcome(d.(iters := d.iters + [ForStart(Get(d.regs, v.a), Get(d.regs, v.b), Get(d.regs, v.c))]), Next)
    case FOR_NEXT => if v.c == 0 then ExecForNext(v, d, Next, Taken) else ExecForNext(v, d, Taken, Next)
    case FOR_NEXT_LOOP => ExecForNext(v, d, Taken, Next)
    case TABLE_ITER_INIT =>
      if |d.tableIters| >= MAX_ITER_STACK then Fail(d)
      else Outcome(d.(tableIters := d.tableIters + [TableIter(Get(d.regs, v.a), 0)]), Next)
    case TABLE_ITER_NEXT => ExecTableNext(I, v, d)
    case POP_ITER => Outcome(d.(iters := if d.iters == [] then [] else d.iters[..|d.iters| - 1]), Next)
    case POP_TABLE_ITER =>
      Outcome(d.(tableIters := if d.tableIters == [] then [] else d.tableIters[..|d.tableIters| - 1]), Next)
    case PUSH_ARG =>
      if |d.args| >= MAX_ARGS_STACK then Fail(d) else Outcome(d.(args := d.args + [Get(d.regs, v.a)]), Next)
    case CALL | CALL_0 | CALL_1 | CALL_2 => ExecCall(v, d)
    case RETURN | RETURN_NUM | RETURN_NUM_IMM | RETURN_BOOL | RETURN_NONE => ExecReturn(v, d)
    case LOAD_GLOBAL => Outcome(d.(regs := d.regs[v.a := Get(d.globals, v.b)]), Next)
    case STORE_GLOBAL => Outcome(d.(globals := d.globals[v.b := Get(d.regs, v.a)]), Next)
    case HALT => Outcome(d.(status := Halted), Stay)
    case _ => if JumpsByA(v.op) then ExecTest(I, v, d) else ExecData(I, v, d)
  }

  // ----- code addresses -----

  function SlotTarget(p: Program, k: int, i: int): int {
    if !(0 <= k < |p.constants|) then -1 else
    match p.constants[k]
    case JumpTable(addrs) => if 0 <= i < |addrs| then addrs[i] else -1
    case StrSwitch(_, es, _) => if 0 <= i < |es| then es[i].target else -1
    case NumSwitch(_, es, _) => if 0 <= i < |es| then es[i].target else -1
    case _ => -1
  }

  function DefaultTarget(p: Program, k: int): int {
    if !(0 <= k < |p.constants|) then -1 else
    match p.constants[k]
    case StrSwitch(_, _, t) => t
    case NumSwitch(_, _, t) => t
    case _ => -1
  }

  function EntryTarget(p: Program, f: int): int {
    if 0 <= f < |p.functions| then p.functions[f].address else -1
  }

  function Advance(p: Program, i: Instruction, s: State, o: Outcome): State {
    match o.place
    case Next => State(s.pc + 1, s.rets, o.data)
    case Taken => State(BranchTarget(i), s.rets, o.data)
    case Slot(k) => State(SlotTarget(p, NamedConstant(i), k), s.rets, o.data)
    case Default => State(DefaultTarget(p, NamedConstant(i)), s.rets, o.data)
    case Enter => State(EntryTarget(p, i.b), s.rets + [s.pc + 1], o.data)
    case Leave =>
      if s.rets == [] then s.(data := o.data.(status := Failed))
      else State(s.rets[|s.rets| - 1], s.rets[..|s.rets| - 1], o.data)
    case Stay => s.(data := o.data)
  }

  predicate InCode(p: Program, pc: int) { 0 <= pc < |p.code| }

  function Step(I: Interp, p: Program, s: State): State {
    if !s.data.status.Running? then s
    else if !InCode(p, s.pc) then s.(data := s.data.(status := Failed))
    else Advance(p, p.code[s.pc], s, Exec(I, Seen(p, p.code[s.pc], I.depth), s.data))
  }

  function Run(I: Interp, p: Program, s: State, n: nat): State
    decreases n
  {
    if n == 0 then s else Run(I, p, Step(I, p, s), n - 1)
  }

  predicate Stopped(s: State) { !s.data.status.Running? }

  /** p, started in s, stops in f. */
  ghost predicate StopsIn(I: Interp, p: Program, s: State, f: State) {
    exists n: nat :: Run(I, p, s, n) == f && Stopped(f)
  }

  // ----- basic facts -----

  predicate IsCall(op: Opcode) { op.CALL? || op.CALL_0? || op.CALL_1? || op.CALL_2? }

  predicate IsReturn(op: Opcode) {
    op.RETURN? || op.RETURN_NUM? || op.RETURN_NUM_IMM? || op.RETURN_BOOL? || op.RETURN_NONE?
  }

  /** Opcodes whose whole meaning is one call of Interp.data. */
  predicate IsDataOp(op: Opcode) {
    !HasPc(op) && !IsCall(op) && !IsReturn(op) &&
    !(op.MOVE? || op.JUMP_TABLE? || op.SWITCH_STR? || op.SWITCH_NUM? || op.LOAD_GLOBAL? || IsSimple(op))
  }

  lemma ExecDispatch(I: Interp, v: View, d: Data)
    ensures IsCall(v.op) ==> Exec(I, v, d) == ExecCall(v, d)
    ensures IsReturn(v.op) ==> Exec(I, v, d) == ExecReturn(v, d)
    ensures IsDataOp(v.op) ==> Exec(I, v, d) == ExecData(I, v, d)
    ensures v.op.MOVE? ==> Exec(I, v, d) == Outcome(d.(regs := CopyReg(d.regs, v.a, v.b)), Next)
    ensures v.op.LOAD_GLOBAL? ==> Exec(I, v, d) == Outcome(d.(regs := d.regs[v.a := Get(d.globals, v.b)]), Next)
    ensures v.op.TABLE_ITER_NEXT? ==> Exec(I, v, d) == ExecTableNext(I, v, d)
    ensures v.op.JUMP_TABLE? ==> Exec(I, v, d) == ExecJumpTable(v, d)
    ensures v.op.SWITCH_STR? || v.op.SWITCH_NUM? ==> Exec(I, v, d) == ExecSwitch(I, v, d)
  {
    hide ExecCall, ExecReturn, ExecData, ExecForNext, ExecTableNext, ExecJumpTable, ExecSwitch, CopyReg;
  }

  lemma ExecLoopDispatch(I: Interp, v: View, d: Data)
    requires v.op.FOR_NEXT? || v.op.FOR_NEXT_LOOP?
    ensures Exec(I, v, d) ==
            if v.op.FOR_NEXT? && v.c == 0 then ExecForNext(v, d, Next, Taken) else ExecForNext(v, d, Taken, Next)
  {
    hide ExecForNext;
  }

  /** Branches change no data. */
  lemma ExecBranch(I: Interp, v: View, d: Data)
    requires HasPcInOp0(v.op)
    ensures var y := if TwoRegisterBranch(v.op) then Get(d.regs, v.c) else VNone;
            var taken := v.op.JUMP? || I.test(v.op, Get(d.regs, v.b), y, Immediate(v), v.lit, d.world);
            Exec(I, v, d) == Outcome(d, if taken then Taken else Next)
  {
    hide ExecCall, ExecReturn, ExecData, ExecForNext, ExecTableNext, ExecJumpTable, ExecSwitch, CopyReg;
    hide Immediate, TwoRegisterBranch;
  }

  /** The opcodes with no rule of their own above: iterator stacks, argument stack, globals, stop. */
  predicate IsSimple(op: Opcode) {
    op.FOR_INIT? || op.TABLE_ITER_INIT? || op.POP_ITER? || op.POP_TABLE_ITER? ||
    op.PUSH_ARG? || op.STORE_GLOBAL? || op.HALT?
  }

  /** They leave registers and frames alone. */
  lemma ExecSimple(I: Interp, v: View, d: Data)
    requires IsSimple(v.op)
    ensures var o := Exec(I, v, d);
            o.data.frames == d.frames && o.data.regs == d.regs &&
            (o.place.Next? || (o.place.Stay? && !o.data.status.Running?))
    ensures d.status.Running? && Exec(I, v, d).place.Next? ==> Exec(I, v, d).data.status.Running?
  {
    hide ExecCall, ExecReturn, ExecData, ExecForNext, ExecTableNext, ExecJumpTable, ExecSwitch, CopyReg, ForStart, Get;
  }

  /** And do not look at the frames. */
  lemma ExecSimpleFrames(I: Interp, v: View, d: Data, frames: seq<Frame>)
    requires IsSimple(v.op)
    ensures var o := Exec(I, v, d);
            Exec(I, v, d.(frames := frames)) == o.(data := o.data.(frames := frames))
  {
    hide ExecCall, ExecReturn, ExecData, ExecForNext, ExecTableNext, ExecJumpTable, ExecSwitch, CopyReg, ForStart, Get;
  }

  /** Which ways out an opcode has; an instruction that goes on leaves a running machine running. */
  lemma ExecPlaces(I: Interp, v: View, d: Data)
    ensures var o := Exec(I, v, d);
            (o.place.Enter? ==> IsDirectCall(v.op)) && (o.place.Taken? ==> HasPc(v.op)) &&
            (o.place.Slot? || o.place.Default? ==> HasPool(v.op)) &&
            (d.status.Running? ==> o.place.Stay? || o.data.status.Running?)
  {
    hide Exec;
    ExecDispatch(I, v, d);
    if IsSimple(v.op) { ExecSimple(I, v, d); }
    else if HasPcInOp0(v.op) { ExecBranch(I, v, d); }
    else if v.op.FOR_NEXT? || v.op.FOR_NEXT_LOOP? { ExecLoopDispatch(I, v, d); }
  }

  /** Maps that agree everywhere but at d. */
  ghost predicate AgreeOff(m: Regs, n: Regs, d: int) {
    (forall r :: r != d ==> (r in m <==> r in n)) &&
    (forall r :: r != d && r in m && r in n ==> m[r] == n[r])
  }

  lemma AgreeGet(m: Regs, n: Regs, d: int, r: int)
    requires AgreeOff(m, n, d) && r != d
    ensures Get(m, r) == Get(n, r)
  {
  }

  lemma AgreeValues(m: Regs, n: Regs, d: int, rs: seq<int>)
    requires AgreeOff(m, n, d) && d !in rs
    ensures Values(m, rs) == Values(n, rs)
  {
    forall k | 0 <= k < |rs| ensures Get(m, rs[k]) == Get(n, rs[k]) { AgreeGet(m, n, d, rs[k]); }
  }

  /** Trees do not depend on the code. */
  lemma {:induction false} DenoteSamePool(p: Program, q: Program, k: int, depth: nat)
    requires q.constants == p.constants && q.functions == p.functions
    ensures Denote(q, k, depth) == Denote(p, k, depth)
    decreases depth, 0
  {
    if depth > 0 && 0 <= k < |p.constants| {
      match p.constants[k]
      case Table(items, keys, vals, _) =>
        DenoteAllSamePool(p, q, items, depth - 1);
        DenoteAllSamePool(p, q, keys, depth - 1);
        DenoteAllSamePool(p, q, vals, depth - 1);
      case StrSwitch(_, es, _) =>
        forall j | 0 <= j < |es|
          ensures Denote(q, es[j].caseConst, depth - 1) == Denote(p, es[j].caseConst, depth - 1)
        {
          DenoteSamePool(p, q, es[j].caseConst, depth - 1);
        }
        assert Denote(q, k, depth).strSlots == Denote(p, k, depth).strSlots;
      case _ =>
    }
  }

  lemma {:induction false} DenoteAllSamePool(p: Program, q: Program, ks: seq<int>, depth: nat)
    requires q.constants == p.constants && q.functions == p.functions
    ensures DenoteAll(q, ks, depth) == DenoteAll(p, ks, depth)
    decreases depth, 1
  {
    forall j | 0 <= j < |ks| ensures Denote(q, ks[j], depth) == Denote(p, ks[j], depth) {
      DenoteSamePool(p, q, ks[j], depth);
    }
  }

  lemma ViewSamePool(p: Program, q: Program, i: Instruction, depth: nat)
    requires q.constants == p.constants && q.functions == p.functions
    ensures ViewOf(q, i, depth) == ViewOf(p, i, depth)
  {
    DenoteSamePool(p, q, PoolOperand(i), depth);
  }

  lemma {:induction false} RunAdd(I: Interp, p: Program, s: State, m: nat, n: nat)
    ensures Run(I, p, s, m + n) == Run(I, p, Run(I, p, s, m), n)
    decreases m
  {
    if m > 0 { RunAdd(I, p, Step(I, p, s), m - 1, n); }
  }

  lemma RunTwo(I: Interp, p: Program, s: State)
    ensures Run(I, p, s, 2) == Step(I, p, Step(I, p, s))
  {
    hide Step;
    assert Run(I, p, s, 2) == Run(I, p, Step(I, p, s), 1);
  }

  lemma {:induction false} RunStopped(I: Interp, p: Program, s: State, n: nat)
    requires Stopped(s)
    ensures Run(I, p, s, n) == s
    decreases n
  {
    if n > 0 { RunStopped(I, p, s, n - 1); }
  }

  /** A run that has stopped by step n is in the same state at every later step. */
  lemma RunStable(I: Interp, p: Program, s: State, n: nat, m: nat)
    requires n <= m && Stopped(Run(I, p, s, n))
    ensures Run(I, p, s, m) == Run(I, p, s, n)
  {
    RunAdd(I, p, s, n, m - n);
    RunStopped(I, p, Run(I, p, s, n), m - n);
  }
}
