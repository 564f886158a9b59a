/** Local dead-store elimination: source/compiler/opt_bc_dce.c:38-68, resting on the opcode tables of
  * source/compiler/opt_peephole.c:10-84. The argument is a simulation: a killed store leaves the two
  * machines equal up to one register, in the running frame and in every suspended one, for as long as
  * the scan says that register is dead. It fails exactly at the branches the read table does not
  * treat as reading everything. */
module DeadStores {
  import opened Bytecode
  import opened Machine
  import opened Chunk

  const NOP := Instruction(MOVE, 0, 0, 0)

  /** The forward scan: register d is overwritten, or the range ends, before an instruction reads it. */
  predicate DeadFrom(code: seq<Instruction>, pc: nat, end: nat, d: int)
    requires pc <= end <= |code|
    decreases end - pc
  {
    if pc == end then true
    else if IsNop(code[pc]) then DeadFrom(code, pc + 1, end, d)
    else if ReadsReg(code[pc], d) then false
    else if WritesDestReg(code[pc].op) && code[pc].a == d then true
    else DeadFrom(code, pc + 1, end, d)
  }

  predicate Candidate(i: Instruction, floor: int) {
    !IsNop(i) && WritesDestReg(i.op) && IsPure(i.op) && i.a >= floor
  }

  function KillAt(code: seq<Instruction>, pc: nat, end: nat, floor: int): seq<Instruction>
    requires pc < end <= |code|
  {
    if Candidate(code[pc], floor) && DeadFrom(code, pc + 1, end, code[pc].a) then code[pc := NOP] else code
  }

  /** The stores of pc..end are examined in order, each against the code as already rewritten. */
  function KillFrom(code: seq<Instruction>, pc: nat, end: nat, floor: int): (r: seq<Instruction>)
    requires pc <= end <= |code|
    ensures |r| == |code|
    decreases end - pc
  {
    if pc == end then code else KillFrom(KillAt(code, pc, end, floor), pc + 1, end, floor)
  }

  /** dce_local_range: nothing happens unless the range ends in a terminator. */
  function Eliminate(code: seq<Instruction>, from: nat, end: nat, floor: int): (r: seq<Instruction>)
    requires end <= |code|
    ensures |r| == |code|
  {
    if from >= end || !IsTerminator(code[end - 1].op) then code else KillFrom(code, from, end, floor)
  }

  /** How many of the first n instructions differ. */
  function Changes(x: seq<Instruction>, y: seq<Instruction>, n: nat): nat
    requires n <= |x| == |y|
  {
    if n == 0 then 0 else Changes(x, y, n - 1) + (if x[n - 1] == y[n - 1] then 0 else 1)
  }

  lemma {:induction false} ChangesBelow(x: seq<Instruction>, y: seq<Instruction>, y': seq<Instruction>, n: nat)
    requires n <= |x| == |y| == |y'| && forall k :: 0 <= k < n ==> y'[k] == y[k]
    ensures Changes(x, y', n) == Changes(x, y, n)
  {
    if n > 0 { ChangesBelow(x, y, y', n - 1); }
  }

  lemma {:induction false} NoChanges(x: seq<Instruction>, n: nat)
    requires n <= |x|
    ensures Changes(x, x, n) == 0
  {
    if n > 0 { NoChanges(x, n - 1); }
  }

  /** The forward scan from the store at pc: dead until a reader is met before the next writer. */
  method StoreIsDead(ch: BytecodeChunk, pc: nat, end: nat) returns (dead: bool)
    requires ch.Valid() && pc < end <= ch.codeCount
    ensures dead == DeadFrom(ch.Value().code, pc + 1, end, ch.code[pc].a)
  {
    hide ReadsReg, WritesDestReg;
    var d := ch.code[pc].a;
    ghost var code := ch.code[..ch.codeCount];
    dead := true;
    var q := pc + 1;
    while q < end
      invariant pc < q <= end
      invariant dead && DeadFrom(code, q, end, d) == DeadFrom(code, pc + 1, end, d)
    {
      var nx := ch.code[q];
      assert code[q] == nx;
      if !IsNop(nx) {
        if ReadsReg(nx, d) { dead := false; break; }
        if WritesDestReg(nx.op) && nx.a == d { assert DeadFrom(code, pc + 1, end, d); break; }
      }
      q := q + 1;
    }
  }

  method DceLocalRange(ch: BytecodeChunk, from: nat, end: nat, floor: int) returns (removed: nat)
    requires ch.Valid() && end <= ch.codeCount
    modifies ch.code
    ensures ch.Valid() && ch.Value() == old(ch.Value()).(code := Eliminate(old(ch.Value().code), from, end, floor))
    ensures removed == Changes(old(ch.Value().code), ch.Value().code, end)
  {
    hide DeadFrom, IsPure, WritesDestReg, IsTerminator;
    ghost var before := ch.Value();
    removed := 0;
    NoChanges(before.code, end);
    if from >= end { return; }
    if !IsTerminator(ch.code[end - 1].op) { return; }
    NoChanges(before.code, from);
    for pc := from to end
      invariant removed == Changes(before.code, ch.code[..ch.codeCount], pc)
      invariant forall k :: pc <= k < ch.codeCount ==> ch.code[k] == before.code[k]
      invariant ch.Valid() && ch.Value() == before.(code := ch.Value().code) && |ch.Value().code| == |before.code|
      invariant KillFrom(ch.code[..ch.codeCount], pc, end, floor) == KillFrom(before.code, from, end, floor)
    {
      ghost var code := ch.code[..ch.codeCount];
      var i := ch.code[pc];
      if IsNop(i) || !WritesDestReg(i.op) || !IsPure(i.op) || i.a < floor { continue; }
      var dead := StoreIsDead(ch, pc, end);
      if dead {
        ch.code[pc] := NOP;
        removed := removed + 1;
        assert ch.code[..ch.codeCount] == code[pc := NOP];
        ChangesBelow(before.code, code, ch.code[..ch.codeCount], pc);
      }
    }
  }

  // ----- exactly which stores go -----

  predicate Uses(i: Instruction, d: int) { !IsNop(i) && ReadsReg(i, d) }

  predicate Overwrites(i: Instruction, d: int) { !IsNop(i) && WritesDestReg(i.op) && i.a == d }

  /** Some instruction from pc on uses what register d holds at pc. */
  ghost predicate UsedFrom(code: seq<Instruction>, pc: nat, end: nat, d: int)
    requires end <= |code|
  {
    exists q :: pc <= q < end && Uses(code[q], d) && forall k :: pc <= k < q ==> !Overwrites(code[k], d)
  }

  lemma {:induction false} DeadFromIff(code: seq<Instruction>, pc: nat, end: nat, d: int)
    requires pc <= end <= |code|
    ensures DeadFrom(code, pc, end, d) <==> !UsedFrom(code, pc, end, d)
    decreases end - pc
  {
    hide ReadsReg, WritesDestReg, IsNop;
    if pc < end {
      DeadFromIff(code, pc + 1, end, d);
      if Uses(code[pc], d) {
        assert UsedFrom(code, pc, end, d);
      } else {
        UsedNext(code, pc, end, d);
      }
    }
  }

  lemma UsedNext(code: seq<Instruction>, pc: nat, end: nat, d: int)
    requires pc < end <= |code| && !Uses(code[pc], d)
    ensures UsedFrom(code, pc, end, d) <==> !Overwrites(code[pc], d) && UsedFrom(code, pc + 1, end, d)
  {
    hide Uses, Overwrites;
    if UsedFrom(code, pc, end, d) {
      var q :| pc <= q < end && Uses(code[q], d) && forall k :: pc <= k < q ==> !Overwrites(code[k], d);
      assert pc < q;
    }
    if UsedFrom(code, pc + 1, end, d) && !Overwrites(code[pc], d) {
      var q :| pc < q < end && Uses(code[q], d) && forall k :: pc < k < q ==> !Overwrites(code[k], d);
      assert forall k :: pc <= k < q ==> !Overwrites(code[k], d);
    }
  }

  lemma {:induction false} KillFromAt(code: seq<Instruction>, pc: nat, end: nat, floor: int, k: nat)
    requires pc <= end <= |code| && k < |code|
    ensures KillFrom(code, pc, end, floor)[k] ==
            if pc <= k < end && Candidate(code[k], floor) && DeadFrom(code, k + 1, end, code[k].a)
            then NOP else code[k]
    decreases end - pc
  {
    hide Candidate, DeadFrom;
    if pc < end {
      var code' := KillAt(code, pc, end, floor);
      KillFromAt(code', pc + 1, end, floor, k);
      if pc < k < end { DeadFromLocal(code, code', k + 1, end, code[k].a); }
    }
  }

  /** In a range that ends in a terminator a pure store at or above the floor stays if and only if a later
    * instruction of the range uses the register before anything overwrites it; whatever else stands in the
    * code stays. Other ranges are left alone. */
  lemma StoreStaysIff(code: seq<Instruction>, from: nat, end: nat, floor: int, pc: nat)
    requires end <= |code| && pc < |code|
    ensures var i, r := code[pc], Eliminate(code, from, end, floor)[pc];
            if from <= pc < end && IsTerminator(code[end - 1].op) && !IsNop(i) && WritesDestReg(i.op) &&
               IsPure(i.op) && i.a >= floor
            then (r == i <==> UsedFrom(code, pc + 1, end, i.a)) && (r != i ==> r == Instruction(MOVE, 0, 0, 0))
            else r == i
  {
    hide DeadFrom;
    if from < end && IsTerminator(code[end - 1].op) {
      KillFromAt(code, from, end, floor, pc);
      if pc < end { DeadFromIff(code, pc + 1, end, code[pc].a); }
    }
  }

  // ----- the opcode tables against the machine -----

  /** Data opcodes with a result that the purity table leaves out. */
  predicate PureUnlisted(op: Opcode) { op.TABLE_GET_NUM? || op.TABLE_GET_KEY_STR? || op.AWAIT? }

  /** The pure opcodes are the moves, the loads of globals and the data opcodes with a result and no
    * arguments on the stack, three of these apart. */
  lemma PureIff(op: Opcode)
    ensures IsPure(op) || PureUnlisted(op) <==>
            op.MOVE? || op.LOAD_GLOBAL? || (IsDataOp(op) && StoresResult(op) && !TakesArgs(op))
    ensures !(IsPure(op) && PureUnlisted(op))
  {
    hide IsDataOp, StoresResult, TakesArgs;
    if IsPure(op) { PureKind(op); }
    PureBack(op);
  }

  lemma PureBack(op: Opcode)
    ensures op.MOVE? || op.LOAD_GLOBAL? || (IsDataOp(op) && StoresResult(op) && !TakesArgs(op)) ==>
              IsPure(op) || PureUnlisted(op)
    ensures PureUnlisted(op) ==> !IsPure(op) && IsDataOp(op) && StoresResult(op) && !TakesArgs(op)
  {
  }

  /** Opcodes that count as reading every register. */
  predicate ReadsAll(op: Opcode) {
    (HasPc(op) && !op.JUMP_IF_NONE? && !op.JUMP_IF_NOT_NONE?) || op.JUMP_TABLE? || !(StoresResult(op)) ||
    op.FOR_INIT? || op.TABLE_ITER_INIT? || op.POP_ITER? || op.POP_TABLE_ITER? || op.RETURN_NUM_IMM? || op.HALT? ||
    op.TABLE_GET_CONST? || op.TABLE_GET_KEY_STR? || op.NEW_TABLE? || op.AWAIT?
  }

  /** The registers the machine looks at to run an instruction that is told apart. */
  function Inputs(i: Instruction): seq<int> {
    match i.op
    case MOVE | JUMP_IF_NONE | JUMP_IF_NOT_NONE => [i.b]
    case PUSH_ARG | STORE_GLOBAL | SWITCH_STR | SWITCH_NUM | RETURN | RETURN_NUM | RETURN_BOOL => [i.a]
    case CALL_1 => [i.c]
    case CALL_2 => [i.c, i.c + 1]
    case _ => Sources(View(i.op, i.a, i.b, i.c, NoLiteral))
  }

  /** Where the reading table tells registers apart it names the machine's inputs, and for MOVE and NEG the
    * unused third operand besides. */
  lemma ReadsRegIff(i: Instruction, r: int)
    ensures ReadsReg(i, r) <==> ReadsAll(i.op) || r in Inputs(i) || ((i.op.MOVE? || i.op.NEG?) && r == i.c)
  {
    hide ReadsAll, ReadsReg, Inputs;
    if ReadsAll(i.op) { AllRead(i, r); } else { ToldApart(i, r); }
  }

  lemma AllRead(i: Instruction, r: int)
    requires ReadsAll(i.op)
    ensures ReadsReg(i, r)
  {
  }

  lemma ToldApart(i: Instruction, r: int)
    requires !ReadsAll(i.op)
    ensures ReadsReg(i, r) <==> r in Inputs(i) || ((i.op.MOVE? || i.op.NEG?) && r == i.c)
  {
    KindsToldApart(i.op);
    hide ReadsAll, Straight, HiddenBranch, IsCall;
    if Straight(i.op) { StraightReads(i, r); } else { OtherReads(i, r); }
  }

  lemma KindsToldApart(op: Opcode)
    requires !ReadsAll(op)
    ensures Straight(op) || op.PUSH_ARG? || op.STORE_GLOBAL? || IsCall(op) || op.RETURN? || op.RETURN_NUM? ||
            op.RETURN_BOOL? || op.RETURN_NONE? || HiddenBranch(op)
  {
  }

  lemma StraightReads(i: Instruction, r: int)
    requires Straight(i.op)
    ensures ReadsReg(i, r) <==> r in Inputs(i) || ((i.op.MOVE? || i.op.NEG?) && r == i.c)
  {
  }

  lemma OtherReads(i: Instruction, r: int)
    requires i.op.PUSH_ARG? || i.op.STORE_GLOBAL? || IsCall(i.op) || i.op.RETURN? || i.op.RETURN_NUM? ||
             i.op.RETURN_BOOL? || i.op.RETURN_NONE? || HiddenBranch(i.op)
    ensures ReadsReg(i, r) <==> r in Inputs(i)
    ensures !i.op.MOVE? && !i.op.NEG?
  {
    hide ReadsReg, Inputs;
    if IsCall(i.op) || i.op.RETURN_NONE? { CallReads(i, r); }
    else if HiddenBranch(i.op) { HiddenReads(i, r); }
    else { FirstRead(i, r); }
  }

  lemma HiddenReads(i: Instruction, r: int)
    requires HiddenBranch(i.op)
    ensures ReadsReg(i, r) <==> r in Inputs(i)
  {
    hide Sources;
  }

  lemma FirstRead(i: Instruction, r: int)
    requires i.op.PUSH_ARG? || i.op.STORE_GLOBAL? || i.op.RETURN? || i.op.RETURN_NUM? || i.op.RETURN_BOOL?
    ensures ReadsReg(i, r) <==> r in Inputs(i)
  {
    hide Sources;
  }

  lemma CallReads(i: Instruction, r: int)
    requires IsCall(i.op) || i.op.RETURN_NONE?
    ensures ReadsReg(i, r) <==> r in Inputs(i)
  {
  }

  predicate Leaves(o: Outcome) { o.place.Taken? || o.place.Leave? || o.place.Stay? }

  /** The terminators are the opcodes after which control never goes on to the next instruction, to a callee
    * or through a table. */
  lemma TerminatorIff(op: Opcode)
    ensures IsTerminator(op) <==>
            forall I: Interp, v: View, d: Data :: v.op == op ==> Leaves(Exec(I, v, d))
  {
    hide Exec, IsTerminator, Leaves;
    if IsTerminator(op) {
      forall I: Interp, v: View, d: Data | v.op == op ensures Leaves(Exec(I, v, d)) { TerminatorLeaves(I, v, d); }
    } else {
      var I, v, d := GoesOn(op);
    }
  }

  lemma TerminatorLeaves(I: Interp, v: View, d: Data)
    requires IsTerminator(v.op)
    ensures Leaves(Exec(I, v, d))
  {
    hide Exec, ExecReturn;
    ExecDispatch(I, v, d);
    if IsReturn(v.op) { ReturnLeaves(v, d); }
    else if v.op.JUMP? { ExecBranch(I, v, d); }
    else { HaltStays(I, v, d); }
  }

  lemma ReturnLeaves(v: View, d: Data)
    ensures Leaves(ExecReturn(v, d))
  {
  }

  lemma HaltStays(I: Interp, v: View, d: Data)
    requires v.op.HALT?
    ensures Exec(I, v, d).place.Stay?
  {
  }

  /** A way past an opcode that is not a terminator. */
  lemma GoesOn(op: Opcode) returns (I: Interp, v: View, d: Data)
    requires !IsTerminator(op)
    ensures v.op == op && !Leaves(Exec(I, v, d))
  {
    hide Exec, IsTerminator, IsDataOp, IsCall, IsSimple;
    I := Interp(1, (op, inputs, imm, lit, w) => Effect(VNone, w, true), (op, x, y, imm, lit, w) => false,
                (x, lit) => 0, (it, w) => Some((VNone, it)));
    v := View(op, 0, 0, 0, Pool(if op.JUMP_TABLE? then TJumpTable(0) else TNumSwitch(0, [])));
    d := Data(map[], [], [ForIter(if op.FOR_NEXT? then 0.0 else 1.0, 0.0, 1.0)], [TableIter(VNone, 0)], [], map[],
              World(map[], []), Running);
    if op.FOR_NEXT? || op.FOR_NEXT_LOOP? {
      ExecLoopDispatch(I, v, d);
    } else if HasPcInOp0(op) {
      ExecBranch(I, v, d);
      TestGoesOn(op);
    } else if IsSimple(op) {
      SimpleGoesOn(I, v, d);
    } else {
      OtherGoesOn(I, v, d);
    }
  }

  lemma TestGoesOn(op: Opcode)
    requires HasPcInOp0(op) && !IsTerminator(op)
    ensures !op.JUMP?
  {
  }

  lemma SimpleGoesOn(I: Interp, v: View, d: Data)
    requires IsSimple(v.op) && !IsTerminator(v.op)
    requires |d.iters| == |d.tableIters| == 1 && d.args == []
    ensures !Leaves(Exec(I, v, d))
  {
    hide ForStart, Get;
  }

  lemma OtherGoesOn(I: Interp, v: View, d: Data)
    requires !HasPcInOp0(v.op) && !HasPcInOp1(v.op) && !IsSimple(v.op) && !IsTerminator(v.op)
    requires d.args == [] && d.frames == [] && |d.tableIters| == 1 && v.c == 0
    requires forall inputs, imm :: I.data(v.op, inputs, imm, v.lit, d.world).ok
    requires I.advance(d.tableIters[0], d.world).Some? && Get(d.regs, v.a).VNone?
    requires v.lit == Pool(if v.op.JUMP_TABLE? then TJumpTable(0) else TNumSwitch(0, []))
    ensures !Leaves(Exec(I, v, d))
  {
    hide Exec, Sources, Immediate, IsDataOp;
    ExecDispatch(I, v, d);
    OtherKind(v.op);
    if IsDataOp(v.op) { DataGoesOn(I, v, d); }
  }

  lemma OtherKind(op: Opcode)
    requires !HasPcInOp0(op) && !HasPcInOp1(op) && !IsSimple(op) && !IsTerminator(op)
    ensures IsDataOp(op) || IsCall(op) || op.MOVE? || op.LOAD_GLOBAL? || op.TABLE_ITER_NEXT? || op.JUMP_TABLE? ||
            op.SWITCH_STR? || op.SWITCH_NUM?
  {
  }

  lemma DataGoesOn(I: Interp, v: View, d: Data)
    requires d.args == [] && v.c == 0 && forall inputs, imm :: I.data(v.op, inputs, imm, v.lit, d.world).ok
    ensures !Leaves(ExecData(I, v, d))
  {
  }

  // ----- which opcodes the reading table treats as straight-line code -----

  /** Opcodes that can send control somewhere else inside the function. */
  predicate MayBranch(op: Opcode) { HasPc(op) || op.JUMP_TABLE? || op.SWITCH_STR? || op.SWITCH_NUM? }

  /** Branches the table does not count as reading every register: the scan walks past them. */
  predicate HiddenBranch(op: Opcode) {
    op.JUMP_IF_NONE? || op.JUMP_IF_NOT_NONE? || op.SWITCH_STR? || op.SWITCH_NUM?
  }

  /** The scan walks past a branch exactly for the four hidden ones. */
  lemma ScanPassesBranchIff(op: Opcode)
    ensures (MayBranch(op) && exists i: Instruction, r: int :: i.op == op && !ReadsReg(i, r)) <==> HiddenBranch(op)
  {
    hide MayBranch, HiddenBranch, ReadsReg;
    if HiddenBranch(op) {
      HiddenFromScan(op);
    } else if MayBranch(op) {
      forall i: Instruction, r: int | i.op == op ensures ReadsReg(i, r) { BranchReads(i, r); }
    }
  }

  lemma HiddenFromScan(op: Opcode)
    requires HiddenBranch(op)
    ensures MayBranch(op) && exists i: Instruction, r: int :: i.op == op && !ReadsReg(i, r)
  {
    assert !ReadsReg(Instruction(op, 0, 0, 0), 1);
  }

  lemma BranchReads(i: Instruction, r: int)
    requires MayBranch(i.op) && !HiddenBranch(i.op)
    ensures ReadsReg(i, r)
  {
  }

  lemma AgreeUpdate(m: Regs, n: Regs, d: int, x: Value)
    requires AgreeOff(m, n, d)
    ensures m[d := x] == n[d := x]
  {
    var m', n' := m[d := x], n[d := x];
    assert forall r :: r in m' <==> r in n';
    assert forall r :: r in m' ==> m'[r] == n'[r];
  }

  lemma AgreeCopy(m: Regs, n: Regs, d: int, src: int)
    requires AgreeOff(m, n, d) && src != d
    ensures CopyReg(m, d, src) == CopyReg(n, d, src)
  {
    var m', n' := CopyReg(m, d, src), CopyReg(n, d, src);
    assert forall r :: r in m' <==> r in n';
    assert forall r :: r in m' ==> m'[r] == n'[r];
  }

  /** Straight-line opcodes as the machine has them. */
  predicate Straight(op: Opcode) {
    match op
    case MOVE | NEG | INC | DEC | LOAD_CONST | LOAD_NUM_IMM | LOAD_NUM | LOAD_BOOL | LOAD_NONE | LOAD_GLOBAL => true
    case ADD | SUB | MUL | DIV | MOD | ADD_IMM | SUB_IMM | MUL_IMM | DIV_IMM | MOD_IMM => true
    case CMP_EQ | CMP_NEQ | CMP_EQ_NUM | CMP_NEQ_NUM | CMP_LT | CMP_GT | CMP_LTE | CMP_GTE => true
    case AND | OR | CONCAT | TABLE_GET | TABLE_GET_NUM | TABLE_GET_INT | LOAD_TABLE => true
    case CALL_BUILTIN | ASYNC_CALL_BUILTIN | ASYNC_CALL => true
    case _ => false
  }

  /** What an instruction that passes the scan can be. */
  lemma PassesScan(i: Instruction, d: int)
    requires !ReadsReg(i, d) && !HiddenBranch(i.op)
    ensures Straight(i.op) || i.op.PUSH_ARG? || i.op.STORE_GLOBAL? || IsCall(i.op) ||
            i.op.RETURN? || i.op.RETURN_NUM? || i.op.RETURN_BOOL? || i.op.RETURN_NONE?
  {
  }

  /** Two frames that differ at most in register d, which is written before the caller looks. */
  ghost predicate FrameRel(f: Frame, g: Frame, d: int, deadAtReturn: bool) {
    f == g || (g == f.(regs := g.regs) && AgreeOff(f.regs, g.regs, d) && (f.dest == d || deadAtReturn))
  }

  // ----- one killed store -----

  /** q is p with the store at pc0, dead in pc0 + 1 .. end, turned into a no-op. */
  ghost predicate Killed(p: Program, q: Program, pc0: nat, end: nat, floor: int) {
    pc0 < end <= |p.code| && IsTerminator(p.code[end - 1].op) && Candidate(p.code[pc0], floor) &&
    DeadFrom(p.code, pc0 + 1, end, p.code[pc0].a) && q == p.(code := p.code[pc0 := NOP]) &&
    (forall k :: pc0 < k < end ==> !HiddenBranch(p.code[k].op))
  }

  /** Control at pc will not read d: it is in the scanned part and the scan from there succeeds. */
  predicate DeadAt(q: Program, pc: int, pc0: nat, end: nat, d: int) {
    pc0 < pc < end <= |q.code| && DeadFrom(q.code, pc, end, d)
  }

  ghost predicate Rel(q: Program, s: State, t: State, pc0: nat, end: nat, d: int) {
    t.pc == s.pc && t.rets == s.rets &&
    t.data == s.data.(regs := t.data.regs, frames := t.data.frames) &&
    (s.data.status.Running? ==>
       t.data.regs == s.data.regs || (AgreeOff(s.data.regs, t.data.regs, d) && DeadAt(q, s.pc, pc0, end, d))) &&
    |t.data.frames| == |s.data.frames| == |s.rets| &&
    forall k :: 0 <= k < |s.rets| ==>
      FrameRel(s.data.frames[k], t.data.frames[k], d, DeadAt(q, s.rets[k], pc0, end, d))
  }

  /** The killed opcode has no effect but its result: it never fails and leaves the world alone. */
  ghost predicate EffectFree(I: Interp, op: Opcode) {
    forall inputs, imm, lit, w :: I.data(op, inputs, imm, lit, w).ok && I.data(op, inputs, imm, lit, w).world == w
  }

  /** Straight-line and pure opcodes are moves, reads of globals or data opcodes. */
  lemma StraightIsData(op: Opcode)
    requires Straight(op) || IsPure(op)
    ensures op.MOVE? || op.LOAD_GLOBAL? || IsDataOp(op)
  {
    hide Straight, IsPure, HasPc, IsCall, IsReturn, IsSimple;
    StraightNoPc(op);
    StraightNoCall(op);
    StraightNotSimple(op);
  }

  lemma StraightNoPc(op: Opcode)
    requires Straight(op) || IsPure(op)
    ensures !HasPc(op)
  {
  }

  lemma StraightNoCall(op: Opcode)
    requires Straight(op) || IsPure(op)
    ensures !IsCall(op) && !IsReturn(op)
  {
  }

  lemma StraightNotSimple(op: Opcode)
    requires Straight(op) || IsPure(op)
    ensures !IsSimple(op) && !op.JUMP_TABLE? && !op.SWITCH_STR? && !op.SWITCH_NUM?
  {
  }

  /** Pure stores run to the next instruction and touch only their destination. */
  lemma PureExec(I: Interp, v: View, d: Data)
    requires IsPure(v.op) && EffectFree(I, v.op) && d.status.Running?
    ensures var o := Exec(I, v, d);
            o.place.Next? && o.data == d.(regs := o.data.regs) && AgreeOff(o.data.regs, d.regs, v.a)
  {
    hide Exec, ExecData, Sources, EffectFree;
    ExecDispatch(I, v, d);
    PureKind(v.op);
    if IsDataOp(v.op) { PureData(I, v, d); }
  }

  lemma PureKind(op: Opcode)
    requires IsPure(op)
    ensures op.MOVE? || op.LOAD_GLOBAL? || (IsDataOp(op) && StoresResult(op) && !TakesArgs(op))
  {
    StraightIsData(op);
    hide Straight, IsDataOp;
  }

  lemma PureData(I: Interp, v: View, d: Data)
    requires StoresResult(v.op) && !TakesArgs(v.op) && EffectFree(I, v.op) && d.status.Running?
    ensures var o := ExecData(I, v, d);
            o.place.Next? && o.data == d.(regs := o.data.regs) && AgreeOff(o.data.regs, d.regs, v.a)
  {
    hide Sources, Immediate, StoresResult, TakesArgs;
    assert d.args[..|d.args|] == d.args;
  }

  /** Straight-line opcodes that do not read d compute the same from states that agree off d. */
  lemma StraightExec(I: Interp, p: Program, i: Instruction, s: Data, t: Data, d: int)
    requires Straight(i.op) && !ReadsReg(i, d) && s.status.Running?
    requires t == s.(regs := t.regs) && AgreeOff(s.regs, t.regs, d)
    ensures var v := ViewOf(p, i, I.depth);
            var o, o' := Exec(I, v, s), Exec(I, v, t);
            o'.place == o.place && (o.place.Next? || o.place.Stay?) && o'.data == o.data.(regs := o'.data.regs) &&
            (o.place.Stay? ==> !o.data.status.Running?) &&
            (o.place.Next? ==> AgreeOff(o.data.regs, o'.data.regs, d) &&
                               (WritesDestReg(i.op) && i.a == d ==> o'.data.regs == o.data.regs))
  {
    hide Exec, ExecData, ViewOf, Denote;
    var v := ViewOf(p, i, I.depth);
    StraightView(p, i, I.depth, d);
    ExecDispatch(I, v, s);
    ExecDispatch(I, v, t);
    if i.op.MOVE? {
      if i.a == d { AgreeCopy(s.regs, t.regs, d, i.b); }
    } else if i.op.LOAD_GLOBAL? {
      AgreeUpdate(s.regs, t.regs, d, Get(s.globals, i.b));
    } else {
      AgreeValues(s.regs, t.regs, d, Sources(v));
      DataAgree(I, v, s, t, d);
    }
  }

  lemma StraightView(p: Program, i: Instruction, depth: nat, d: int)
    requires Straight(i.op)
    ensures var v := ViewOf(p, i, depth);
            v.op == i.op && v.a == i.a && (i.op.MOVE? || i.op.LOAD_GLOBAL? ==> v.b == i.b) &&
            (!i.op.MOVE? && !i.op.LOAD_GLOBAL? ==>
               IsDataOp(i.op) && StoresResult(i.op) && (!ReadsReg(i, d) ==> d !in Sources(v)))
  {
    hide Sources, ReadsReg, Denote;
    var v := ViewOf(p, i, depth);
    StraightKind(i.op);
    assert v.op == i.op && v.a == i.a && (v.b == i.b || PoolInOp1(i.op) || IsDirectCall(i.op)) &&
           (v.c == i.c || PoolInOp2(i.op) || PoolPacked(i.op));
    hide ViewOf;
    if !ReadsReg(i, d) { StraightSources(i, v, d); }
  }

  lemma StraightKind(op: Opcode)
    requires Straight(op)
    ensures !op.MOVE? && !op.LOAD_GLOBAL? ==> IsDataOp(op) && StoresResult(op)
  {
    hide IsDataOp;
    StraightIsData(op);
  }

  lemma StraightSources(i: Instruction, v: View, d: int)
    requires Straight(i.op) && !ReadsReg(i, d) && v.op == i.op && v.a == i.a
    requires (v.b == i.b || PoolInOp1(i.op) || IsDirectCall(i.op)) &&
             (v.c == i.c || PoolInOp2(i.op) || PoolPacked(i.op))
    ensures !i.op.MOVE? && !i.op.LOAD_GLOBAL? ==> d !in Sources(v)
  {
  }

  lemma DataAgree(I: Interp, v: View, s: Data, t: Data, d: int)
    requires s.status.Running? && t == s.(regs := t.regs) && AgreeOff(s.regs, t.regs, d)
    requires Values(s.regs, Sources(v)) == Values(t.regs, Sources(v))
    ensures var o, o' := ExecData(I, v, s), ExecData(I, v, t);
            o'.place == o.place && (o.place.Next? || o.place.Stay?) && o'.data == o.data.(regs := o'.data.regs) &&
            (o.place.Stay? ==> !o.data.status.Running?) &&
            (o.place.Next? ==> AgreeOff(o.data.regs, o'.data.regs, d) &&
                               (StoresResult(v.op) && v.a == d ==> o'.data.regs == o.data.regs))
  {
    var o := ExecData(I, v, s);
    if o.place.Next? && StoresResult(v.op) && v.a == d {
      AgreeUpdate(s.regs, t.regs, d, o.data.regs[d]);
    }
  }

  lemma {:induction false} DeadFromLocal(code: seq<Instruction>, code': seq<Instruction>, pc: nat, end: nat, d: int)
    requires pc <= end <= |code| == |code'| && forall k :: pc <= k < end ==> code'[k] == code[k]
    ensures DeadFrom(code', pc, end, d) == DeadFrom(code, pc, end, d)
    decreases end - pc
  {
    if pc < end { DeadFromLocal(code, code', pc + 1, end, d); }
  }

  /** How related states stay related, by the way control leaves the instruction. */
  lemma AdvanceRel(q: Program, i: Instruction, s: State, t: State, o: Outcome, o': Outcome, pc0: nat, end: nat, d: int)
    requires Rel(q, s, t, pc0, end, d) && s.data.status.Running? && o'.place == o.place
    requires o'.data == o.data.(regs := o'.data.regs, frames := o'.data.frames)
    requires match o.place
             case Next => o.data.frames == s.data.frames && o'.data.frames == t.data.frames &&
                          (o'.data.regs == o.data.regs ||
                           (AgreeOff(o.data.regs, o'.data.regs, d) && DeadAt(q, s.pc + 1, pc0, end, d)))
             case Stay => !o.data.status.Running? && o.data.frames == s.data.frames && o'.data.frames == t.data.frames
             case Enter => o'.data.regs == o.data.regs &&
                           exists f, g :: FrameRel(f, g, d, DeadAt(q, s.pc + 1, pc0, end, d)) &&
                             o.data.frames == s.data.frames + [f] && o'.data.frames == t.data.frames + [g]
             case Leave => s.rets != [] && o.data.frames == s.data.frames[..|s.rets| - 1] &&
                 o'.data.frames == t.data.frames[..|s.rets| - 1] &&
                           (o'.data.regs == o.data.regs ||
                            (AgreeOff(o.data.regs, o'.data.regs, d) && DeadAt(q, s.rets[|s.rets| - 1], pc0, end, d)))
             case _ => o'.data.regs == o.data.regs && o.data.frames == s.data.frames && o'.data.frames == t.data.frames
    ensures Rel(q, Advance(q, i, s, o), Advance(q, i, t, o'), pc0, end, d)
  {
    hide DeadAt, AgreeOff;
  }

  /** s and t are related, running, and about to execute i, past which d is dead unless i writes it. */
  ghost predicate Ready(q: Program, i: Instruction, s: State, t: State, pc0: nat, end: nat, d: int) {
    Rel(q, s, t, pc0, end, d) && s.data.status.Running? && AgreeOff(s.data.regs, t.data.regs, d) &&
    !ReadsReg(i, d) && !HiddenBranch(i.op) &&
    (DeadAt(q, s.pc + 1, pc0, end, d) || (WritesDestReg(i.op) && i.a == d) || IsReturn(i.op))
  }

  lemma DeadStraight(I: Interp, p: Program, q: Program, i: Instruction, s: State, t: State, pc0: nat, end: nat, d: int)
    requires Ready(q, i, s, t, pc0, end, d) && Straight(i.op)
    ensures var v := ViewOf(p, i, I.depth);
            Rel(q, Advance(q, i, s, Exec(I, v, s.data)), Advance(q, i, t, Exec(I, v, t.data)), pc0, end, d)
  {
    hide Exec, ViewOf, ReadsReg, DeadAt, AgreeOff;
    StraightFrames(I, p, i, s.data, t.data, d);
    var v := ViewOf(p, i, I.depth);
    AdvanceRel(q, i, s, t, Exec(I, v, s.data), Exec(I, v, t.data), pc0, end, d);
  }

  lemma DeadSimple(I: Interp, p: Program, q: Program, i: Instruction, s: State, t: State, pc0: nat, end: nat, d: int)
    requires Ready(q, i, s, t, pc0, end, d) && (i.op.PUSH_ARG? || i.op.STORE_GLOBAL?)
    ensures var v := ViewOf(p, i, I.depth);
            Rel(q, Advance(q, i, s, Exec(I, v, s.data)), Advance(q, i, t, Exec(I, v, t.data)), pc0, end, d)
  {
    hide Exec, ViewOf, DeadAt;
    SimpleView(p, i, I.depth);
    var v := ViewOf(p, i, I.depth);
    SimpleExec(I, v, s.data, t.data, d);
    AdvanceRel(q, i, s, t, Exec(I, v, s.data), Exec(I, v, t.data), pc0, end, d);
  }

  lemma DeadCall(I: Interp, p: Program, q: Program, i: Instruction, s: State, t: State, pc0: nat, end: nat, d: int)
    requires Ready(q, i, s, t, pc0, end, d) && IsCall(i.op)
    ensures var v := ViewOf(p, i, I.depth);
            Rel(q, Advance(q, i, s, Exec(I, v, s.data)), Advance(q, i, t, Exec(I, v, t.data)), pc0, end, d)
  {
    hide Exec, ViewOf, DeadAt, AgreeOff;
    SimpleView(p, i, I.depth);
    var v := ViewOf(p, i, I.depth);
    CallExec(I, v, s.data, t.data, d);
    var o, o' := Exec(I, v, s.data), Exec(I, v, t.data);
    if o.place.Enter? {
      var f, g := o.data.frames[|s.rets|], o'.data.frames[|s.rets|];
      assert FrameRel(f, g, d, DeadAt(q, s.pc + 1, pc0, end, d));
    }
    AdvanceRel(q, i, s, t, o, o', pc0, end, d);
  }

  lemma DeadReturn(I: Interp, p: Program, q: Program, i: Instruction, s: State, t: State, pc0: nat, end: nat, d: int)
    requires Ready(q, i, s, t, pc0, end, d) && IsReturn(i.op) && !i.op.RETURN_NUM_IMM?
    ensures var v := ViewOf(p, i, I.depth);
            Rel(q, Advance(q, i, s, Exec(I, v, s.data)), Advance(q, i, t, Exec(I, v, t.data)), pc0, end, d)
  {
    hide Exec, ViewOf, DeadAt, AgreeOff;
    SimpleView(p, i, I.depth);
    var v := ViewOf(p, i, I.depth);
    ReturnExec(I, v, s.data, t.data, d);
    var k := |s.rets| - 1;
    ReturnRel(I, v, s.data, t.data, d, k >= 0 && DeadAt(q, s.rets[k], pc0, end, d));
    AdvanceRel(q, i, s, t, Exec(I, v, s.data), Exec(I, v, t.data), pc0, end, d);
  }

  lemma DeadNop(I: Interp, p: Program, q: Program, i: Instruction, s: State, t: State, pc0: nat, end: nat, d: int)
    requires Rel(q, s, t, pc0, end, d) && s.data.status.Running? && IsNop(i)
    requires t.data.regs == s.data.regs || (AgreeOff(s.data.regs, t.data.regs, d) && DeadAt(q, s.pc + 1, pc0, end, d))
    ensures var v := ViewOf(p, i, I.depth);
            Rel(q, Advance(q, i, s, Exec(I, v, s.data)), Advance(q, i, t, Exec(I, v, t.data)), pc0, end, d)
  {
    hide Exec, ViewOf, DeadAt, AgreeOff;
    NopView(p, i, I.depth);
    var v := ViewOf(p, i, I.depth);
    NopExec(I, v, s.data);
    NopExec(I, v, t.data);
    AdvanceRel(q, i, s, t, Exec(I, v, s.data), Exec(I, v, t.data), pc0, end, d);
  }

  lemma NopView(p: Program, i: Instruction, depth: nat)
    requires IsNop(i)
    ensures var v := ViewOf(p, i, depth); v.op.MOVE? && v.a == v.b
  {
  }

  /** Running the instruction at a point where d is dead keeps the two states related. */
  lemma DeadStep(I: Interp, p: Program, q: Program, s: State, t: State, pc0: nat, end: nat, floor: int, d: int)
    requires Killed(p, q, pc0, end, floor) && d == p.code[pc0].a && Rel(q, s, t, pc0, end, d)
    requires s.data.status.Running? && t.data.regs != s.data.regs
    ensures Rel(q, Step(I, p, s), Step(I, q, t), pc0, end, d)
  {
    hide Exec, ViewOf, Denote, DeadFrom, ReadsReg, WritesDestReg, AgreeOff, Advance;
    var i := p.code[s.pc];
    ViewSamePool(p, q, i, I.depth);
    AfterDead(p, q, s.pc, pc0, end, floor, d);
    SameAdvance(p, q, i, s, Exec(I, ViewOf(p, i, I.depth), s.data));
    if IsNop(i) {
      DeadNop(I, p, q, i, s, t, pc0, end, d);
    } else {
      PassesScan(i, d);
      if Straight(i.op) {
        DeadStraight(I, p, q, i, s, t, pc0, end, d);
      } else if i.op.PUSH_ARG? || i.op.STORE_GLOBAL? {
        DeadSimple(I, p, q, i, s, t, pc0, end, d);
      } else if IsCall(i.op) {
        DeadCall(I, p, q, i, s, t, pc0, end, d);
      } else {
        DeadReturn(I, p, q, i, s, t, pc0, end, d);
      }
    }
  }

  lemma SameAdvance(p: Program, q: Program, i: Instruction, s: State, o: Outcome)
    requires q.constants == p.constants && q.functions == p.functions
    ensures Advance(q, i, s, o) == Advance(p, i, s, o)
  {
  }

  lemma SimpleView(p: Program, i: Instruction, depth: nat)
    requires i.op.MOVE? || i.op.PUSH_ARG? || i.op.STORE_GLOBAL? || IsCall(i.op) || IsReturn(i.op)
    ensures var v := ViewOf(p, i, depth);
            v.op == i.op && v.a == i.a && v.c == i.c && (!IsCall(i.op) ==> v.b == i.b)
  {
    hide Denote, PoolOperand, PcOperand;
  }

  lemma NopExec(I: Interp, v: View, d: Data)
    requires v.op.MOVE? && v.a == v.b
    ensures Exec(I, v, d) == Outcome(d, Next)
  {
    assert CopyReg(d.regs, v.a, v.a) == d.regs;
  }

  /** Past an instruction that neither reads nor writes d, d is still dead. */
  lemma AfterDead(p: Program, q: Program, pc: int, pc0: nat, end: nat, floor: int, d: int)
    requires Killed(p, q, pc0, end, floor) && DeadAt(q, pc, pc0, end, d)
    ensures IsNop(q.code[pc]) || !(WritesDestReg(q.code[pc].op) && q.code[pc].a == d) ==>
              DeadAt(q, pc + 1, pc0, end, d) || pc == end - 1
    ensures pc == end - 1 && !IsNop(q.code[pc]) ==> IsReturn(q.code[pc].op)
    ensures IsNop(q.code[pc]) ==> pc < end - 1
    ensures !IsNop(q.code[pc]) ==> !ReadsReg(q.code[pc], d) && !HiddenBranch(q.code[pc].op)
  {
  }

  /** StraightExec for states whose frames differ too: frames are neither read nor changed. */
  lemma StraightFrames(I: Interp, p: Program, i: Instruction, s: Data, t: Data, d: int)
    requires Straight(i.op) && !ReadsReg(i, d) && s.status.Running?
    requires t == s.(regs := t.regs, frames := t.frames) && AgreeOff(s.regs, t.regs, d)
    ensures var v := ViewOf(p, i, I.depth);
            var o, o' := Exec(I, v, s), Exec(I, v, t);
            o'.place == o.place && (o.place.Next? || o.place.Stay?) && (o.place.Stay? ==> !o.data.status.Running?) &&
            o'.data == o.data.(regs := o'.data.regs, frames := t.frames) && o.data.frames == s.frames &&
            (o.place.Next? ==> o.data.status.Running? && AgreeOff(o.data.regs, o'.data.regs, d) &&
                               (WritesDestReg(i.op) && i.a == d ==> o'.data.regs == o.data.regs))
  {
    hide Exec, ViewOf, ReadsReg, WritesDestReg, AgreeOff;
    var v := ViewOf(p, i, I.depth);
    StraightView(p, i, I.depth, d);
    StraightExec(I, p, i, s, s.(regs := t.regs), d);
    assert s.(frames := s.frames) == s && s.(regs := t.regs).(frames := t.frames) == t;
    FramesIgnored(I, v, s, s.frames);
    FramesIgnored(I, v, s.(regs := t.regs), t.frames);
    StraightRuns(I, v, s);
  }

  lemma StraightRuns(I: Interp, v: View, d: Data)
    requires Straight(v.op) && d.status.Running?
    ensures Exec(I, v, d).place.Next? ==> Exec(I, v, d).data.status.Running?
  {
    hide Exec;
    ExecDispatch(I, v, d);
  }

  lemma SimpleExec(I: Interp, v: View, s: Data, t: Data, d: int)
    requires v.op.PUSH_ARG? || v.op.STORE_GLOBAL?
    requires v.a != d && AgreeOff(s.regs, t.regs, d) && t == s.(regs := t.regs, frames := t.frames) && s.status.Running?
    ensures var o, o' := Exec(I, v, s), Exec(I, v, t);
            o'.place == o.place && (o.place.Next? || o.place.Stay?) &&
            o'.data == o.data.(regs := t.regs, frames := t.frames) && o.data.regs == s.regs &&
            o.data.frames == s.frames &&
            (o.place.Stay? ==> !o.data.status.Running?)
  {
    AgreeGet(s.regs, t.regs, d, v.a);
  }

  lemma CallExec(I: Interp, v: View, s: Data, t: Data, d: int)
    requires IsCall(v.op)
    requires v.op.CALL_1? ==> v.c != d
    requires v.op.CALL_2? ==> v.c != d && v.c + 1 != d
    requires AgreeOff(s.regs, t.regs, d) && t == s.(regs := t.regs, frames := t.frames) && s.status.Running?
    requires |s.frames| == |t.frames|
    ensures var o, o' := Exec(I, v, s), Exec(I, v, t);
            o'.place == o.place && (o.place.Enter? || o.place.Stay?) &&
            (o.place.Stay? ==>
               !o.data.status.Running? && o.data.frames == s.frames &&
               o'.data == o.data.(regs := t.regs, frames := t.frames)) &&
            (o.place.Enter? ==> (o.data.status.Running? &&
               o.data.frames == s.frames + [Frame(v.a, s.regs, |s.iters|, |s.tableIters|)] &&
               o'.data == o.data.(frames := t.frames + [Frame(v.a, t.regs, |s.iters|, |s.tableIters|)])))
  {
    hide ArgRegs, Exec;
    ExecDispatch(I, v, s);
    ExecDispatch(I, v, t);
    if v.op.CALL_1? { AgreeGet(s.regs, t.regs, d, v.c); }
    if v.op.CALL_2? { AgreeGet(s.regs, t.regs, d, v.c); AgreeGet(s.regs, t.regs, d, v.c + 1); }
  }

  lemma ReturnExec(I: Interp, v: View, s: Data, t: Data, d: int)
    requires v.op.RETURN? || v.op.RETURN_NUM? || v.op.RETURN_BOOL? || v.op.RETURN_NONE?
    requires !v.op.RETURN_NONE? ==> v.a != d
    requires AgreeOff(s.regs, t.regs, d) && t == s.(regs := t.regs, frames := t.frames) && s.status.Running?
    requires |s.frames| == |t.frames|
    ensures ReturnValue(v, t) == ReturnValue(v, s)
    ensures s.frames == [] ==>
            Exec(I, v, s) == Outcome(s.(status := Halted), Stay) && Exec(I, v, t) == Outcome(t.(status := Halted), Stay)
  {
    hide Exec, AgreeOff;
    ExecDispatch(I, v, s);
    ExecDispatch(I, v, t);
    hide ExecCall, ExecData, CopyReg, ExecTableNext, ExecJumpTable, ExecSwitch, Get;
    if !v.op.RETURN_NONE? { AgreeGet(s.regs, t.regs, d, v.a); }
  }

  /** A return pops related frames into related registers. */
  lemma ReturnRel(I: Interp, v: View, s: Data, t: Data, d: int, dead: bool)
    requires IsReturn(v.op)
    requires t == s.(regs := t.regs, frames := t.frames) && s.status.Running?
    requires |s.frames| == |t.frames| && ReturnValue(v, t) == ReturnValue(v, s)
    requires s.frames != [] ==> FrameRel(s.frames[|s.frames| - 1], t.frames[|t.frames| - 1], d, dead)
    ensures s.frames != [] ==>
              var o, o' := Exec(I, v, s), Exec(I, v, t);
              o.place.Leave? && o'.place.Leave? && o.data.status.Running? &&
              o'.data == o.data.(regs := o'.data.regs, frames := t.frames[..|t.frames| - 1]) &&
              o.data.frames == s.frames[..|s.frames| - 1] &&
              (o'.data.regs == o.data.regs || (AgreeOff(o.data.regs, o'.data.regs, d) && dead))
  {
    hide Exec, ReturnValue;
    ExecDispatch(I, v, s);
    ExecDispatch(I, v, t);
    if s.frames != [] {
      var f, g := s.frames[|s.frames| - 1], t.frames[|t.frames| - 1];
      if f != g { AgreeUpdate(f.regs, g.regs, d, ReturnValue(v, s)); }
    }
  }

  /** Frames matter only to calls and returns. */
  lemma FramesIgnored(I: Interp, v: View, d: Data, frames: seq<Frame>)
    requires !IsCall(v.op) && !IsReturn(v.op)
    ensures var o := Exec(I, v, d);
            Exec(I, v, d.(frames := frames)) == o.(data := o.data.(frames := frames)) && o.data.frames == d.frames
    ensures d.status.Running? ==> var o := Exec(I, v, d);
            !o.place.Enter? && !o.place.Leave? && (o.place.Stay? ==> !o.data.status.Running?)
  {
    hide ExecData, Exec, ExecForNext, ExecTableNext, ExecJumpTable, ExecSwitch;
    ExecDispatch(I, v, d);
    ExecDispatch(I, v, d.(frames := frames));
    if IsDataOp(v.op) {
      DataFramesIgnored(I, v, d, frames);
    } else if HasPcInOp0(v.op) {
      ExecBranch(I, v, d);
      ExecBranch(I, v, d.(frames := frames));
    } else if v.op.FOR_NEXT? || v.op.FOR_NEXT_LOOP? {
      ExecLoopDispatch(I, v, d);
      ExecLoopDispatch(I, v, d.(frames := frames));
      ControlFramesIgnored(I, v, d, frames);
    } else if v.op.TABLE_ITER_NEXT? || v.op.JUMP_TABLE? || v.op.SWITCH_STR? || v.op.SWITCH_NUM? {
      ControlFramesIgnored(I, v, d, frames);
    } else if IsSimple(v.op) {
      ExecSimple(I, v, d);
      ExecSimpleFrames(I, v, d, frames);
    }
  }

  lemma ControlFramesIgnored(I: Interp, v: View, d: Data, frames: seq<Frame>)
    ensures var e := d.(frames := frames);
            (forall x, y :: ExecForNext(v, e, x, y) ==
                var o := ExecForNext(v, d, x, y); o.(data := o.data.(frames := frames))) &&
            (ExecTableNext(I, v, e) == var o := ExecTableNext(I, v, d); o.(data := o.data.(frames := frames))) &&
            (ExecJumpTable(v, e) == var o := ExecJumpTable(v, d); o.(data := o.data.(frames := frames))) &&
            (ExecSwitch(I, v, e) == var o := ExecSwitch(I, v, d); o.(data := o.data.(frames := frames)))
    ensures forall x, y :: ExecForNext(v, d, x, y).data.frames == d.frames
    ensures ExecTableNext(I, v, d).data.frames == d.frames
    ensures ExecJumpTable(v, d).data.frames == d.frames && ExecSwitch(I, v, d).data.frames == d.frames
    ensures d.status.Running? ==>
              (forall x, y :: var o := ExecForNext(v, d, x, y);
               o.place in {x, y} || (o.place.Stay? && !o.data.status.Running?)) &&
              (forall o :: o in {ExecTableNext(I, v, d), ExecJumpTable(v, d), ExecSwitch(I, v, d)} ==>
                 !o.place.Enter? && !o.place.Leave? && (o.place.Stay? ==> !o.data.status.Running?))
  {
  }

  lemma DataFramesIgnored(I: Interp, v: View, d: Data, frames: seq<Frame>)
    ensures var o := ExecData(I, v, d);
            ExecData(I, v, d.(frames := frames)) == o.(data := o.data.(frames := frames)) && o.data.frames == d.frames
    ensures d.status.Running? ==> var o := ExecData(I, v, d);
            !o.place.Enter? && !o.place.Leave? && (o.place.Stay? ==> !o.data.status.Running?)
  {
  }

  /** Equal registers: both programs run the same instruction alike. */
  lemma EqualStep(I: Interp, p: Program, q: Program, i: Instruction, s: State, t: State, pc0: nat, end: nat, d: int)
    requires Rel(q, s, t, pc0, end, d) && s.data.status.Running? && t.data.regs == s.data.regs
    ensures var v := ViewOf(p, i, I.depth);
            Rel(q, Advance(q, i, s, Exec(I, v, s.data)), Advance(q, i, t, Exec(I, v, t.data)), pc0, end, d)
  {
    hide Exec, ViewOf, DeadAt, AgreeOff;
    var v := ViewOf(p, i, I.depth);
    var o, o' := Exec(I, v, s.data), Exec(I, v, t.data);
    ExecDispatch(I, v, s.data);
    ExecDispatch(I, v, t.data);
    if IsReturn(v.op) {
      var k := |s.rets| - 1;
      EqualReturn(I, v, s.data, t.data);
      ReturnRel(I, v, s.data, t.data, d, k >= 0 && DeadAt(q, s.rets[k], pc0, end, d));
    } else if IsCall(v.op) {
      EqualCall(I, v, s.data, t.data);
      if o.place.Enter? {
        var f := o.data.frames[|s.rets|];
        assert FrameRel(f, f, d, DeadAt(q, s.pc + 1, pc0, end, d));
        assert o'.data.frames == t.data.frames + [f];
      }
    } else {
      FramesIgnored(I, v, s.data, t.data.frames);
      assert s.data.(frames := t.data.frames) == t.data;
    }
    AdvanceRel(q, i, s, t, o, o', pc0, end, d);
  }

  lemma EqualReturn(I: Interp, v: View, s: Data, t: Data)
    requires IsReturn(v.op) && t == s.(frames := t.frames) && s.status.Running? && |s.frames| == |t.frames|
    ensures ReturnValue(v, t) == ReturnValue(v, s)
    ensures s.frames == [] ==>
            Exec(I, v, s) == Outcome(s.(status := Halted), Stay) && Exec(I, v, t) == Outcome(t.(status := Halted), Stay)
  {
    hide Exec;
    ExecDispatch(I, v, s);
    ExecDispatch(I, v, t);
  }

  lemma EqualCall(I: Interp, v: View, s: Data, t: Data)
    requires IsCall(v.op) && t == s.(frames := t.frames) && s.status.Running? && |s.frames| == |t.frames|
    ensures var o, o' := Exec(I, v, s), Exec(I, v, t);
            o'.place == o.place && (o.place.Enter? || o.place.Stay?) &&
            (o.place.Stay? ==>
               !o.data.status.Running? && o.data.frames == s.frames && o'.data == o.data.(frames := t.frames)) &&
            (o.place.Enter? ==> (o.data.status.Running? && |o.data.frames| == |s.frames| + 1 &&
               var f := o.data.frames[|s.frames|];
               o.data.frames == s.frames + [f] && o'.data == o.data.(frames := t.frames + [f])))
  {
    hide Exec;
    ExecDispatch(I, v, s);
    ExecDispatch(I, v, t);
    hide CalleeRegs;
    assert CalleeRegs(v, t) == CalleeRegs(v, s) by { CalleeSame(v, s, t); }
  }

  lemma CalleeSame(v: View, s: Data, t: Data)
    requires t == s.(frames := t.frames)
    ensures CalleeRegs(v, t) == CalleeRegs(v, s)
  {
    hide ArgRegs, Get;
  }

  /** At the killed store itself, the two programs part ways only in register d. */
  lemma KilledStep(I: Interp, p: Program, q: Program, s: State, t: State, pc0: nat, end: nat, floor: int, d: int)
    requires Killed(p, q, pc0, end, floor) && d == p.code[pc0].a && Rel(q, s, t, pc0, end, d)
    requires s.data.status.Running? && s.pc == pc0 && EffectFree(I, p.code[pc0].op)
    ensures Rel(q, Step(I, p, s), Step(I, q, t), pc0, end, d)
  {
    hide Exec, ViewOf, EffectFree, ReadsReg, WritesDestReg;
    var i := p.code[pc0];
    DeadFromLocal(p.code, q.code, pc0 + 1, end, d);
    assert pc0 + 1 < end;
    var v := ViewOf(p, i, I.depth);
    StoreView(p, i, I.depth);
    PureExec(I, v, s.data);
    NopView(q, NOP, I.depth);
    NopExec(I, ViewOf(q, NOP, I.depth), t.data);
  }

  lemma StoreView(p: Program, i: Instruction, depth: nat)
    requires IsPure(i.op)
    ensures ViewOf(p, i, depth).op == i.op && ViewOf(p, i, depth).a == i.a
  {
    StraightNoPc(i.op);
    hide Denote, IsPure, HasPc, PoolOperand;
    assert WithPc(i, 0) == i by { assert !HasPc(i.op); NoPcSame(i); }
  }

  lemma NoPcSame(i: Instruction)
    requires !HasPc(i.op)
    ensures WithPc(i, 0) == i
  {
  }

  lemma RelStep(I: Interp, p: Program, q: Program, s: State, t: State, pc0: nat, end: nat, floor: int, d: int)
    requires Killed(p, q, pc0, end, floor) && d == p.code[pc0].a && Rel(q, s, t, pc0, end, d) &&
             EffectFree(I, p.code[pc0].op)
    ensures Rel(q, Step(I, p, s), Step(I, q, t), pc0, end, d)
  {
    hide Exec, ViewOf, Denote, DeadFrom, ReadsReg, WritesDestReg, AgreeOff, EffectFree, Advance;
    if s.data.status.Running? {
      if s.pc == pc0 {
        KilledStep(I, p, q, s, t, pc0, end, floor, d);
      } else if t.data.regs != s.data.regs {
        DeadStep(I, p, q, s, t, pc0, end, floor, d);
      } else if InCode(p, s.pc) {
        var i := p.code[s.pc];
        ViewSamePool(p, q, i, I.depth);
        SameAdvance(p, q, i, s, Exec(I, ViewOf(p, i, I.depth), s.data));
        EqualStep(I, p, q, i, s, t, pc0, end, d);
      }
    }
  }

  lemma {:induction false} RelRun(I: Interp, p: Program, q: Program, s: State, t: State, pc0: nat, end: nat,
                                  floor: int, d: int, n: nat)
    requires Killed(p, q, pc0, end, floor) && d == p.code[pc0].a && Rel(q, s, t, pc0, end, d) &&
             EffectFree(I, p.code[pc0].op)
    ensures Rel(q, Run(I, p, s, n), Run(I, q, t, n), pc0, end, d)
    decreases n
  {
    hide Step, Rel, Killed, EffectFree;
    if n > 0 {
      RelStep(I, p, q, s, t, pc0, end, floor, d);
      RelRun(I, p, q, Step(I, p, s), Step(I, q, t), pc0, end, floor, d, n - 1);
    }
  }

  // ----- what an observer sees -----

  /** Everything but the contents of registers, plus the value a return instruction is about to pass. */
  datatype Observation = Observation(pc: int, rets: seq<int>, status: Status, globals: map<int, Value>, world: World,
                                     args: seq<Value>, iters: seq<ForIter>, tableIters: seq<TableIter>,
                                     returning: Option<Value>)

  function Observe(p: Program, s: State): Observation {
    var d := s.data;
    var returning := d.status.Running? && InCode(p, s.pc) && IsReturn(p.code[s.pc].op);
    Observation(s.pc, s.rets, d.status, d.globals, d.world, d.args, d.iters, d.tableIters,
                if returning then Some(ReturnValue(ViewOf(p, p.code[s.pc], 0), d)) else None)
  }

  /** The call stack holds a return address for every frame. */
  predicate Aligned(s: State) { |s.rets| == |s.data.frames| }

  lemma RelObserve(p: Program, q: Program, s: State, t: State, pc0: nat, end: nat, floor: int, d: int)
    requires Killed(p, q, pc0, end, floor) && d == p.code[pc0].a && Rel(q, s, t, pc0, end, d)
    ensures Observe(q, t) == Observe(p, s)
  {
    hide ViewOf, DeadFrom, WritesDestReg;
    if s.data.status.Running? && InCode(p, s.pc) && IsReturn(p.code[s.pc].op) {
      var i := p.code[s.pc];
      assert q.code[s.pc] == i;
      SimpleView(p, i, 0);
      SimpleView(q, i, 0);
      if t.data.regs != s.data.regs {
        AfterDead(p, q, s.pc, pc0, end, floor, d);
        if !i.op.RETURN_NONE? { AgreeGet(s.data.regs, t.data.regs, d, i.a); }
      }
    }
  }

  /** The hypotheses on a range: no hidden branch in it, and its pure opcodes have no other effect. */
  ghost predicate Eliminable(I: Interp, code: seq<Instruction>, from: nat, end: nat) {
    from <= end <= |code| &&
    forall k :: from <= k < end ==> !HiddenBranch(code[k].op) && (IsPure(code[k].op) ==> EffectFree(I, code[k].op))
  }

  lemma {:induction false} KillFromPreserves(I: Interp, p: Program, from: nat, end: nat, floor: int, s: State, n: nat)
    requires Eliminable(I, p.code, from, end) && from <= end && (from < end ==> IsTerminator(p.code[end - 1].op)) &&
             Aligned(s)
    ensures var q := p.(code := KillFrom(p.code, from, end, floor));
            Observe(q, Run(I, q, s, n)) == Observe(p, Run(I, p, s, n))
    decreases end - from
  {
    hide Observe, Rel, EffectFree, ReadsReg, WritesDestReg, DeadFrom;
    if from < end {
      var code' := KillAt(p.code, from, end, floor);
      var p' := p.(code := code');
      if code' != p.code {
        var d := p.code[from].a;
        assert Killed(p, p', from, end, floor);
        RelRefl(p', s, from, end, d);
        RelRun(I, p, p', s, s, from, end, floor, d, n);
        RelObserve(p, p', Run(I, p, s, n), Run(I, p', s, n), from, end, floor, d);
      }
      KillFromPreserves(I, p', from + 1, end, floor, s, n);
    }
  }

  lemma RelRefl(q: Program, s: State, pc0: nat, end: nat, d: int)
    requires Aligned(s)
    ensures Rel(q, s, s, pc0, end, d)
  {
  }

  /** Dead-store elimination cannot be observed: at every step of every run the pc, the return
    * addresses, globals, pushed arguments, output and the value being returned are the same. */
  lemma EliminationPreservesRuns(I: Interp, p: Program, from: nat, end: nat, floor: int, s: State, n: nat)
    requires Eliminable(I, p.code, from, end) && Aligned(s)
    ensures var q := p.(code := Eliminate(p.code, from, end, floor));
            Observe(q, Run(I, q, s, n)) == Observe(p, Run(I, p, s, n))
  {
    if from < end && IsTerminator(p.code[end - 1].op) { KillFromPreserves(I, p, from, end, floor, s, n); }
  }

  // ----- each hidden branch breaks it -----

  const ONE := Instruction(LOAD_NUM_IMM, 0, 1, 0)
  const TWO := Instruction(LOAD_NUM_IMM, 0, 2, 0)
  const GIVE := Instruction(RETURN, 0, 0, 0)

  /** r0 := 1; br; r0 := 2; return r0. */
  function Around(br: Instruction): seq<Instruction> { [ONE, br, TWO, GIVE] }

  /** If r1 is none, or is not, goto 3; or a switch on r1 that has no case for none and defaults to 3. */
  function Hidden(op: Opcode): Instruction {
    if op.SWITCH_STR? then Instruction(op, 1, 0, 0)
    else if op.SWITCH_NUM? then Instruction(op, 1, 1, 0)
    else Instruction(op, 3, 1, 0)
  }

  /** Four cases that lead to 2 and twelve blank slots. */
  function StrSlots(): seq<StringSwitchEntry> { seq(16, k => StringSwitchEntry(0, if k < 4 then 2 else -1, 0)) }

  function NumSlots(): seq<NumSwitchEntry> { seq(16, k => NumSwitchEntry(0, if k < 4 then 2 else -1)) }

  const SWITCHES := [StrSwitch(0, StrSlots(), 3), NumSwitch(0, NumSlots(), 3)]

  function Skipping(op: Opcode): Program { Program(Around(Hidden(op)), [], SWITCHES) }

  /** r1 is set exactly for the branch that asks for a value. */
  function StartFor(op: Opcode): State {
    State(0, [], Data(if op.JUMP_IF_NOT_NONE? then map[1 := VNum(5.0)] else map[], [], [], [], [], map[],
                      World(map[], []), Running))
  }

  /** Loads give their immediate, tests compare with none, no switch finds a case. */
  const NUMBERS := Interp(1,
    (op: Opcode, inputs: seq<Value>, imm: int, lit: Literal, w: World) => Effect(VNum(imm as real), w, true),
    (op: Opcode, x: Value, y: Value, imm: int, lit: Literal, w: World) => (x == VNone) == op.JUMP_IF_NONE?,
    (x: Value, lit: Literal) => -1,
    (it: TableIter, w: World) => None)

  lemma KillStep(code: seq<Instruction>, pc: nat, end: nat, floor: int)
    requires pc < end <= |code|
    ensures KillFrom(code, pc, end, floor) == KillFrom(KillAt(code, pc, end, floor), pc + 1, end, floor)
  {
  }

  lemma KillDone(code: seq<Instruction>, end: nat, floor: int)
    requires end <= |code|
    ensures KillFrom(code, end, end, floor) == code
  {
  }

  /** Nothing of br, TWO, GIVE reads r0 before TWO writes it; GIVE does. */
  lemma ScanAround(code: seq<Instruction>, br: Instruction)
    requires |code| == 4 && code[1..] == [br, TWO, GIVE] && !IsNop(br) && !ReadsReg(br, 0) && !WritesDestReg(br.op)
    ensures DeadFrom(code, 1, 4, 0) && !DeadFrom(code, 3, 4, 0)
  {
    assert code[1] == code[1..][0] && code[2] == code[1..][1] && code[3] == code[1..][2];
    assert DeadFrom(code, 2, 4, 0) by { StoreFacts(); }
    assert !DeadFrom(code, 3, 4, 0) by { StoreFacts(); }
    hide ReadsReg, WritesDestReg;
  }

  lemma StoreFacts()
    ensures !IsNop(TWO) && !ReadsReg(TWO, 0) && Candidate(ONE, 0) && Candidate(TWO, 0)
    ensures !IsNop(GIVE) && ReadsReg(GIVE, 0) && !WritesDestReg(GIVE.op)
  {
  }

  /** The scan walks past the branch to the second store and takes the first one for dead. */
  lemma HiddenKills(br: Instruction)
    requires !IsNop(br) && !ReadsReg(br, 0) && !WritesDestReg(br.op)
    ensures Eliminate(Around(br), 0, 4, 0) == [NOP, br, TWO, GIVE]
  {
    hide KillFrom, ReadsReg, WritesDestReg, IsPure, DeadFrom;
    var code, code1 := Around(br), [NOP, br, TWO, GIVE];
    StoreFacts();
    ScanAround(code, br);
    ScanAround(code1, br);
    KillStep(code, 0, 4, 0);
    KillStep(code1, 1, 4, 0);
    KillStep(code1, 2, 4, 0);
    KillStep(code1, 3, 4, 0);
    KillDone(code1, 4, 0);
    assert code[0 := NOP] == code1;
  }

  lemma LoadsOne(p: Program, s: State)
    requires |p.code| == 4 && p.code[0] == ONE && s.pc == 0 && s.data.status.Running?
    ensures Step(NUMBERS, p, s) == s.(pc := 1, data := s.data.(regs := s.data.regs[0 := VNum(1.0)]))
  {
    hide Exec, ViewOf;
    LoadView(p, p.code[0]);
    LoadRuns(ViewOf(p, p.code[0], 1), s.data);
  }

  lemma LoadView(p: Program, i: Instruction)
    requires i.op.LOAD_NUM_IMM?
    ensures ViewOf(p, i, 1) == View(LOAD_NUM_IMM, i.a, i.b, i.c, NoLiteral)
  {
    hide Denote;
  }

  lemma LoadRuns(v: View, d: Data)
    requires v == View(LOAD_NUM_IMM, 0, 1, 0, NoLiteral)
    ensures Exec(NUMBERS, v, d) == Outcome(d.(regs := d.regs[0 := VNum(1.0)]), Next)
  {
    hide Exec;
    ExecDispatch(NUMBERS, v, d);
    assert d.args[..|d.args|] == d.args;
  }

  lemma HiddenView(p: Program, op: Opcode)
    requires HiddenBranch(op) && p.constants == SWITCHES
    ensures var v := ViewOf(p, Hidden(op), 1);
            v.op == op && if op.SWITCH_STR? then v.a == 1 && v.lit.Pool? && v.lit.tree.TStrSwitch?
                          else if op.SWITCH_NUM? then v.a == 1 && v.lit.Pool? && v.lit.tree.TNumSwitch?
                          else v.b == 1
  {
    if op.SWITCH_STR? {
      assert Hidden(op) == Instruction(SWITCH_STR, 1, 0, 0);
    } else if op.SWITCH_NUM? {
      assert Hidden(op) == Instruction(SWITCH_NUM, 1, 1, 0);
    } else {
      hide Denote;
    }
  }

  /** Each of the four leads from address 1 to address 3 here. */
  lemma HiddenSkips(p: Program, op: Opcode, s: State)
    requires HiddenBranch(op) && |p.code| == 4 && p.code[1] == Hidden(op) && p.constants == SWITCHES
    requires s.pc == 1 && s.data.status.Running? && Get(s.data.regs, 1) == Get(StartFor(op).data.regs, 1)
    ensures Step(NUMBERS, p, s) == s.(pc := 3)
  {
    hide Exec, ViewOf;
    var v := ViewOf(p, Hidden(op), 1);
    HiddenView(p, op);
    if op.SWITCH_STR? || op.SWITCH_NUM? { ExecDispatch(NUMBERS, v, s.data); } else { ExecBranch(NUMBERS, v, s.data); }
  }

  lemma Returns(p: Program, s: State)
    requires |p.code| == 4 && p.code[3] == GIVE && s.pc == 3 && s.data.status.Running?
    ensures Observe(p, s).returning == Some(Get(s.data.regs, 0))
  {
    SimpleView(p, p.code[3], 0);
  }

  lemma NopStarts(q: Program, s: State)
    requires |q.code| == 4 && q.code[0] == NOP && s.pc == 0 && s.data.status.Running?
    ensures Step(NUMBERS, q, s) == s.(pc := 1)
  {
    hide Exec;
    NopView(q, NOP, 1);
    NopExec(NUMBERS, ViewOf(q, NOP, 1), s.data);
  }

  lemma HiddenFields(op: Opcode)
    requires HiddenBranch(op)
    ensures var br := Hidden(op); !IsNop(br) && !ReadsReg(br, 0) && !WritesDestReg(br.op)
  {
  }

  lemma GivesOne(p: Program, op: Opcode)
    requires HiddenBranch(op) && p == Program(Around(Hidden(op)), [], SWITCHES)
    ensures Observe(p, Run(NUMBERS, p, StartFor(op), 2)).returning == Some(VNum(1.0))
  {
    hide Step, Observe, Run, HiddenBranch;
    var s := StartFor(op);
    LoadsOne(p, s);
    HiddenSkips(p, op, Step(NUMBERS, p, s));
    RunTwo(NUMBERS, p, s);
    Returns(p, Run(NUMBERS, p, s, 2));
  }

  lemma GivesNone(q: Program, op: Opcode)
    requires HiddenBranch(op) && q == Program([NOP, Hidden(op), TWO, GIVE], [], SWITCHES)
    ensures Observe(q, Run(NUMBERS, q, StartFor(op), 2)).returning == Some(VNone)
  {
    hide Step, Observe, Run, HiddenBranch;
    var s := StartFor(op);
    NopStarts(q, s);
    HiddenSkips(q, op, Step(NUMBERS, q, s));
    RunTwo(NUMBERS, q, s);
    Returns(q, Run(NUMBERS, q, s, 2));
  }

  /** With a hidden branch in the range the pass changes results: the program returns 1, and none
    * after elimination. */
  lemma HiddenBranchLosesStore(op: Opcode)
    requires HiddenBranch(op)
    ensures var p, s := Skipping(op), StartFor(op);
            var q := p.(code := Eliminate(p.code, 0, 4, 0));
            Observe(p, Run(NUMBERS, p, s, 2)).returning == Some(VNum(1.0)) &&
            Observe(q, Run(NUMBERS, q, s, 2)).returning == Some(VNone)
  {
    hide Observe, Run, HiddenBranch, ReadsReg, WritesDestReg, Eliminate;
    HiddenFields(op);
    HiddenKills(Hidden(op));
    var p := Skipping(op);
    GivesOne(p, op);
    GivesNone(p.(code := Eliminate(p.code, 0, 4, 0)), op);
  }

  /** A range with no branching opcode but op, whose pure opcodes have no other effect. */
  ghost predicate OnlyBranch(op: Opcode, I: Interp, code: seq<Instruction>, from: nat, end: nat) {
    from <= end <= |code| &&
    forall k :: from <= k < end ==>
      (MayBranch(code[k].op) ==> code[k].op == op) && (IsPure(code[k].op) ==> EffectFree(I, code[k].op))
  }

  /** A run of a program with such a range in which elimination shows. */
  ghost predicate Shows(op: Opcode, I: Interp, p: Program, from: nat, end: nat, floor: int, s: State, n: nat) {
    OnlyBranch(op, I, p.code, from, end) && Aligned(s) &&
    var q := p.(code := Eliminate(p.code, from, end, floor));
    Observe(q, Run(I, q, s, n)) != Observe(p, Run(I, p, s, n))
  }

  /** A branching opcode as the only branch of a range can make elimination observable if and only if it
    * is one of the four hidden ones. */
  lemma HiddenIffShows(op: Opcode)
    requires MayBranch(op)
    ensures HiddenBranch(op) <==>
            exists I, p, from: nat, end: nat, floor, s, n: nat :: Shows(op, I, p, from, end, floor, s, n)
  {
    hide Observe, Run, EffectFree, MayBranch, HiddenBranch;
    if HiddenBranch(op) {
      HiddenShows(op);
    } else if I, p, from: nat, end: nat, floor, s, n: nat :| Shows(op, I, p, from, end, floor, s, n) {
      VisibleHides(op, I, p, from, end, floor, s, n);
      assert false;
    }
  }

  lemma HiddenShows(op: Opcode)
    requires HiddenBranch(op)
    ensures Shows(op, NUMBERS, Skipping(op), 0, 4, 0, StartFor(op), 2)
  {
    hide Observe, Run, Eliminate, OnlyBranch;
    HiddenBranchLosesStore(op);
    OnlyHidden(op);
  }

  lemma OnlyHidden(op: Opcode)
    requires HiddenBranch(op)
    ensures OnlyBranch(op, NUMBERS, Skipping(op).code, 0, 4)
  {
    hide MayBranch, IsPure, EffectFree, HiddenBranch;
    NoBranches();
    forall k | 0 <= k < 4 ensures EffectFree(NUMBERS, Skipping(op).code[k].op) {
      NumbersEffectFree(Skipping(op).code[k].op);
    }
  }

  lemma NoBranches()
    ensures !MayBranch(ONE.op) && !MayBranch(TWO.op) && !MayBranch(GIVE.op)
  {
  }

  lemma NumbersEffectFree(op: Opcode)
    ensures EffectFree(NUMBERS, op)
  {
  }

  lemma VisibleHides(op: Opcode, I: Interp, p: Program, from: nat, end: nat, floor: int, s: State, n: nat)
    requires MayBranch(op) && !HiddenBranch(op) && OnlyBranch(op, I, p.code, from, end) && Aligned(s)
    ensures !Shows(op, I, p, from, end, floor, s, n)
  {
    hide Observe, Run, EffectFree, Eliminate;
    assert Eliminable(I, p.code, from, end) by {
      forall k | from <= k < end ensures !HiddenBranch(p.code[k].op) { HiddenBranches(p.code[k].op); }
    }
    EliminationPreservesRuns(I, p, from, end, floor, s, n);
  }

  lemma HiddenBranches(op: Opcode)
    ensures HiddenBranch(op) ==> MayBranch(op)
  {
  }
}
