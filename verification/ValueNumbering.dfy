/** The value-numbering cache kept while code is emitted: source/compiler/opt_lvn.c, with the points
  * where source/compiler/codegen.c and codegen_internal.h keep or drop it. */
module ValueNumbering {
  import opened Bytecode
  import opened Machine
  import opened JumpThreading
  import MatchDispatch

  /** Operation, inputs and the register that holds its result; unused inputs are -1 or 0. */
  datatype Entry = Entry(op: Opcode, left: int, right: int, imm: int, result: int)

  const CAPACITY := 16

  predicate SameKey(e: Entry, op: Opcode, left: int, right: int, imm: int) {
    e.op == op && e.left == left && e.right == right && e.imm == imm
  }

  /** The first entry with the given key, or -1. */
  function Find(es: seq<Entry>, op: Opcode, left: int, right: int, imm: int): int {
    if es == [] then -1
    else if SameKey(es[0], op, left, right, imm) then es[0].result
    else Find(es[1..], op, left, right, imm)
  }

  /** In-place results are stale at once and are not recorded; a full cache records nothing. */
  function Recorded(es: seq<Entry>, e: Entry): seq<Entry> {
    if (e.result >= 0 && (e.result == e.left || e.result == e.right)) || |es| >= CAPACITY then es else es + [e]
  }

  /** Removal by moving the last entry into the hole and looking at it again. */
  function Drop(es: seq<Entry>, i: nat, bad: Entry -> bool): (r: seq<Entry>)
    requires i <= |es| && forall k :: 0 <= k < i ==> !bad(es[k])
    ensures |r| <= |es| && forall e :: e in r <==> e in es && !bad(e)
    decreases |es| - i
  {
    if i == |es| then es
    else if !bad(es[i]) then Drop(es, i + 1, bad)
    else
      var last := |es| - 1;
      var rest := es[i := es[last]][..last];
      assert forall e :: e in es ==> e in rest || e == es[i] by {
        forall e | e in es ensures e in rest || e == es[i] {
          var k :| 0 <= k < |es| && es[k] == e;
          if k == last && i < last { assert rest[i] == e; } else if k < last && k != i { assert rest[k] == e; }
        }
      }
      assert forall e :: e in rest ==> e in es;
      Drop(rest, i, bad)
  }

  lemma DropMoves(es: seq<Entry>, i: nat, bad: Entry -> bool)
    requires i < |es| && (forall k :: 0 <= k < i ==> !bad(es[k])) && bad(es[i])
    ensures Drop(es, i, bad) == Drop(es[i := es[|es| - 1]][..|es| - 1], i, bad)
  {
  }

  lemma DropPasses(es: seq<Entry>, i: nat, bad: Entry -> bool)
    requires i < |es| && (forall k :: 0 <= k < i ==> !bad(es[k])) && !bad(es[i])
    ensures Drop(es, i, bad) == Drop(es, i + 1, bad)
  {
  }

  lemma DropAll(es: seq<Entry>, bad: Entry -> bool)
    requires forall k :: 0 <= k < |es| ==> !bad(es[k])
    ensures Drop(es, |es|, bad) == es
  {
  }

  function Touches(reg: int): Entry -> bool {
    (e: Entry) => e.left == reg || e.right == reg || e.result == reg
  }

  function LoadsGlobal(g: int): Entry -> bool {
    (e: Entry) => e.op.LOAD_GLOBAL? && e.imm == g
  }

  function ReadsTable(t: int): Entry -> bool {
    (e: Entry) => (e.op.TABLE_GET_CONST? || e.op.TABLE_GET_INT?) && e.left == t
  }

  predicate ClearsCache(op: Opcode) {
    op.CALL? || op.CALL_0? || op.CALL_1? || op.CALL_2? || op.CALL_BUILTIN? || op.ASYNC_CALL? || op.ASYNC_CALL_BUILTIN?
  }

  predicate WritesTable(op: Opcode) {
    op.TABLE_SET? || op.TABLE_SET_CONST? || op.TABLE_SET_INT? || op.TABLE_SET_NUM? || op.TABLE_SET_KEY_STR? ||
    op.TABLE_APPEND?
  }

  /** imm_lvn_on_emit. */
  function AfterInstruction(es: seq<Entry>, i: Instruction): seq<Entry> {
    if ClearsCache(i.op) then []
    else if i.op.STORE_GLOBAL? then Drop(es, 0, LoadsGlobal(i.b))
    else if WritesTable(i.op) then Drop(es, 0, ReadsTable(i.a))
    else if WritesDestReg(i.op) then Drop(es, 0, Touches(i.a))
    else es
  }

  /** emit resolves the address of a jump that is not a placeholder. */
  const RESOLVE_HOPS := 16

  function Resolved(code: seq<Instruction>, i: Instruction): Instruction {
    if HasPcInOp0(i.op) && i.a != 0 then i.(a := ThreadTarget(code, i.a, RESOLVE_HOPS)) else i
  }

  predicate BreaksCache(i: Instruction) { HasPcInOp0(i.op) && (i.op.JUMP? || i.a != 0) }

  /** The emitter: the code so far and the cache, plus two facts only the proof looks at, the place of
    * the last full reset and the places backward jumps may go. */
  datatype Emission = Emission(code: seq<Instruction>, cache: seq<Entry>, reset: nat, labels: set<nat>)

  const FRESH := Emission([], [], 0, {0})

  function Emit(em: Emission, i: Instruction): Emission {
    var i' := Resolved(em.code, i);
    if BreaksCache(i') then Emission(em.code + [i'], [], |em.code| + 1, em.labels)
    else em.(code := em.code + [i'], cache := AfterInstruction(em.cache, i'))
  }

  /** PATCH_JUMP and the patching of loop exits: instruction k goes to `target`, which is the current end
    * or an address passed before; the current end is now a merge point. */
  function PatchTo(em: Emission, k: nat, target: int): Emission
    requires k < |em.code|
  {
    var t := ThreadTarget(em.code, target, RESOLVE_HOPS);
    Emission(em.code[k := WithPc(em.code[k], t)], [], |em.code|, em.labels)
  }

  /** The cache is emptied and the place becomes a target: loop tops and the ends of loops and matches. */
  function LoopTop(em: Emission): Emission {
    em.(cache := [], reset := |em.code|, labels := em.labels + {|em.code|})
  }

  /** The instruction that starts each turn of a loop is a target itself, and so is the body after it. */
  function LoopHead(em: Emission, i: Instruction): Emission {
    LoopTop(Emit(em.(labels := em.labels + {|em.code|}), i))
  }

  /** The start of a case body that a dispatch enters: recorded, the cache left as it is. */
  function BodyStart(em: Emission): Emission {
    em.(reset := |em.code|, labels := em.labels + {|em.code|})
  }

  function Record(em: Emission, e: Entry): Emission { em.(cache := Recorded(em.cache, e)) }

  // ----- exactly what is found, recorded and kept -----

  /** The first entry with the key decides, and only an absent key gives -1. */
  lemma {:induction false} FindIff(es: seq<Entry>, op: Opcode, left: int, right: int, imm: int, k: nat)
    requires k <= |es| && forall j :: 0 <= j < k ==> es[j] != Entry(op, left, right, imm, es[j].result)
    ensures k < |es| && es[k] == Entry(op, left, right, imm, es[k].result) ==>
              Find(es, op, left, right, imm) == es[k].result
    ensures k == |es| ==> Find(es, op, left, right, imm) == -1
    decreases k
  {
    if k > 0 {
      assert es[0] != Entry(op, left, right, imm, es[0].result);
      FindIff(es[1..], op, left, right, imm, k - 1);
    }
  }

  /** Recording loses nothing, and the new entry is there unless its result is one of its inputs or
    * sixteen entries are. */
  lemma RecordedIff(es: seq<Entry>, e: Entry, e': Entry)
    ensures e' in Recorded(es, e) <==>
            e' in es || (e' == e && |es| < 16 && (e.result < 0 || (e.result != e.left && e.result != e.right)))
  {
  }

  /** Instruction i makes entry e worthless: it may run other code, it stores the global or into the table
    * that e was read from, or it is known to write a register of e. */
  predicate Spoils(i: Instruction, e: Entry) {
    IsCall(i.op) || TakesArgs(i.op) ||
    (i.op.STORE_GLOBAL? && e.op.LOAD_GLOBAL? && e.imm == i.b) ||
    (!StoresResult(i.op) && (e.op.TABLE_GET_CONST? || e.op.TABLE_GET_INT?) && e.left == i.a) ||
    (StoresReg(i.op) && !UnseenWrite(i.op) && (e.left == i.a || e.right == i.a || e.result == i.a))
  }

  /** An entry survives an instruction exactly when that neither spoils it nor is a jump or a branch whose
    * address is known. */
  lemma EmitKeepsIff(em: Emission, i: Instruction, e: Entry)
    ensures e in Emit(em, i).cache <==>
            e in em.cache && !Spoils(i, e) && !(JumpsByA(i.op) && (i.op.JUMP? || i.a != 0))
  {
    hide Drop, ThreadTarget, StoresReg, UnseenWrite, WritesDestReg, Spoils, ClearsCache, WritesTable;
    if HasPcInOp0(i.op) && i.a != 0 { TargetNotZero(em.code, i.a, RESOLVE_HOPS); }
    var i' := Resolved(em.code, i);
    if BreaksCache(i') {
    } else {
      KeptIff(em.cache, i', e);
      if i' != i { BranchSpoilsNothing(i, e); BranchSpoilsNothing(i', e); }
    }
  }

  lemma {:induction false} TargetNotZero(code: seq<Instruction>, t: int, hops: nat)
    requires t != 0
    ensures ThreadTarget(code, t, hops) != 0
    decreases hops
  {
    if hops > 0 && 0 <= t < |code| && code[t].op.JUMP? && code[t].a != 0 && code[t].a != t {
      TargetNotZero(code, code[t].a, hops - 1);
    }
  }

  lemma BranchSpoilsNothing(i: Instruction, e: Entry)
    requires HasPcInOp0(i.op)
    ensures !Spoils(i, e)
  {
  }

  lemma KeptIff(es: seq<Entry>, i: Instruction, e: Entry)
    ensures e in AfterInstruction(es, i) <==> e in es && !Spoils(i, e)
  {
    hide Drop, StoresReg, UnseenWrite, WritesDestReg, ClearsCache, WritesTable, TakesArgs, StoresResult, IsCall;
    UnseenWriteIff(i.op);
    WritersStore(i.op);
    SpoilKinds(i.op);
  }

  lemma SpoilKinds(op: Opcode)
    ensures ClearsCache(op) <==> IsCall(op) || TakesArgs(op)
    ensures WritesTable(op) <==> !StoresResult(op)
    ensures WritesTable(op) || op.STORE_GLOBAL? ==> !WritesDestReg(op) && !ClearsCache(op)
    ensures op.STORE_GLOBAL? ==> !WritesTable(op)
  {
    TableWriters(op);
    hide WritesTable, WritesDestReg, StoresResult;
  }

  lemma TableWriters(op: Opcode)
    ensures WritesTable(op) <==> !StoresResult(op)
    ensures WritesTable(op) || op.STORE_GLOBAL? ==> !WritesDestReg(op) && !ClearsCache(op)
    ensures op.STORE_GLOBAL? ==> !WritesTable(op)
  {
  }

  /** An emitted branch goes to the end of the jumps that its address starts, when at most sixteen lead
    * there; nothing else about the instruction or the code before it changes. */
  lemma EmitResolves(em: Emission, i: Instruction, y: int, n: nat)
    requires JumpsByA(i.op) && i.a != 0 ==> EndsAt(em.code, i.a, y, n) && n <= 16
    ensures Emit(em, i).code == em.code + [if JumpsByA(i.op) && i.a != 0 then i.(a := y) else i]
  {
    hide EndsAt, ThreadTarget;
    if JumpsByA(i.op) && i.a != 0 { TargetEnds(em.code, i.a, y, n, RESOLVE_HOPS); }
  }

  lemma PatchResolves(em: Emission, k: nat, target: int, y: int, n: nat)
    requires k < |em.code| && EndsAt(em.code, target, y, n) && n <= 16
    ensures PatchTo(em, k, target).code == em.code[k := WithPc(em.code[k], y)]
  {
    hide EndsAt, ThreadTarget;
    TargetEnds(em.code, target, y, n, RESOLVE_HOPS);
  }

  lemma TargetEnds(code: seq<Instruction>, x: int, y: int, n: nat, hops: nat)
    requires EndsAt(code, x, y, n) && n <= hops
    ensures ThreadTarget(code, x, hops) == y
  {
    hide EndsAt, ThreadTarget;
    forall k | 0 <= k < |code| ensures Retargeted(code, code[k], code[k]) { ByJumpsRefl(code, PcOperand(code[k])); }
    ThreadTargetEnds(code, code, x, y, n, hops);
  }

  // ----- the cache as the generator keeps it -----

  class Generator {
    var code: seq<Instruction>
    var entries: array<Entry>
    var count: nat
    ghost var reset: nat
    ghost var labels: set<nat>

    ghost predicate Valid()
      reads this
    {
      entries.Length == CAPACITY && count <= CAPACITY
    }

    ghost function Value(): Emission
      requires Valid()
      reads this, entries
    {
      Emission(code, entries[..count], reset, labels)
    }

    constructor ()
      ensures Valid() && fresh(entries) && Value() == FRESH
    {
      code, count, reset, labels := [], 0, 0, {0};
      entries := new Entry[CAPACITY](_ => Entry(MOVE, 0, 0, 0, 0));
    }

    method Lookup(op: Opcode, left: int, right: int, imm: int) returns (r: int)
      requires Valid()
      ensures r == Find(Value().cache, op, left, right, imm)
    {
      for i := 0 to count
        invariant Find(entries[..count], op, left, right, imm) == Find(entries[i..count], op, left, right, imm)
      {
        assert entries[i..count][1..] == entries[i + 1..count];
        if SameKey(entries[i], op, left, right, imm) { return entries[i].result; }
      }
      return -1;
    }

    method Add(e: Entry)
      requires Valid()
      modifies this`count, entries
      ensures Valid() && Value() == Record(old(Value()), e)
    {
      if e.result >= 0 && (e.result == e.left || e.result == e.right) { return; }
      if count >= CAPACITY { return; }
      entries[count] := e;
      count := count + 1;
    }

    /** The last entry takes the place of entry i. */
    method SwapRemove(i: nat)
      requires Valid() && i < count
      modifies this`count, entries
      ensures Valid() && count == old(count) - 1
      ensures entries[..count] == (var es := old(entries[..count]); es[i := es[|es| - 1]][..|es| - 1])
    {
      entries[i] := entries[count - 1];
      count := count - 1;
    }

    /** The shared compaction loop of the invalidations. */
    method RemoveIf(bad: Entry -> bool)
      requires Valid()
      modifies this`count, entries
      ensures Valid() && Value() == old(Value()).(cache := Drop(old(Value().cache), 0, bad))
    {
      hide Drop;
      var i := 0;
      while i < count
        invariant Valid() && i <= count && code == old(code) && reset == old(reset) && labels == old(labels)
        invariant forall k :: 0 <= k < i ==> !bad(entries[k])
        invariant Drop(entries[..count], i, bad) == Drop(old(entries[..count]), 0, bad)
        decreases count - i
      {
        ghost var es := entries[..count];
        if bad(entries[i]) {
          DropMoves(es, i, bad);
          SwapRemove(i);
        } else {
          DropPasses(es, i, bad);
          i := i + 1;
        }
      }
      DropAll(entries[..count], bad);
    }

    method OnEmit(i: Instruction)
      requires Valid()
      modifies this`count, entries
      ensures Valid() && Value() == old(Value()).(cache := AfterInstruction(old(Value().cache), i))
    {
      if ClearsCache(i.op) { count := 0; return; }
      if i.op.STORE_GLOBAL? { RemoveIf(LoadsGlobal(i.b)); return; }
      if WritesTable(i.op) { RemoveIf(ReadsTable(i.a)); return; }
      if WritesDestReg(i.op) { RemoveIf(Touches(i.a)); }
    }

    method ResolveJumpTarget(target: int) returns (t: int)
      requires Valid()
      ensures t == ThreadTarget(code, target, RESOLVE_HOPS)
    {
      t := target;
      for hop := 0 to RESOLVE_HOPS
        invariant ThreadTarget(code, t, RESOLVE_HOPS - hop) == ThreadTarget(code, target, RESOLVE_HOPS)
      {
        if t < 0 || t >= |code| || !code[t].op.JUMP? { break; }
        var next := code[t].a;
        if next == 0 || next == t { break; }
        t := next;
      }
    }

    method EmitInstruction(inst: Instruction)
      requires Valid()
      modifies this`code, this`count, this`reset, entries
      ensures Valid() && Value() == Emit(old(Value()), inst)
    {
      var i := inst;
      if HasPcInOp0(i.op) && i.a != 0 {
        var t := ResolveJumpTarget(i.a);
        i := i.(a := t);
      }
      if HasPcInOp0(i.op) && (i.op.JUMP? || i.a != 0) {
        count := 0;
        reset := |code| + 1;
      } else {
        OnEmit(i);
      }
      code := code + [i];
    }

    method PatchJump(k: nat, target: int)
      requires Valid() && k < |code|
      modifies this`code, this`count, this`reset
      ensures Valid() && Value() == PatchTo(old(Value()), k, target)
    {
      var t := ResolveJumpTarget(target);
      reset := |code|;
      code := code[k := WithPc(code[k], t)];
      count := 0;
    }

    method EmitLoopHead(i: Instruction)
      requires Valid()
      modifies this, entries
      ensures Valid() && entries == old(entries) && Value() == LoopHead(old(Value()), i)
    {
      labels := labels + {|code|};
      EmitInstruction(i);
      MarkLoopTop();
    }

    method MarkLoopTop()
      requires Valid()
      modifies this`count, this`reset, this`labels
      ensures Valid() && Value() == LoopTop(old(Value()))
    {
      count := 0;
      reset, labels := |code|, labels + {|code|};
    }
  }

  // ----- what an entry promises -----

  /** Operations whose results are recorded and reused. */
  predicate Cacheable(op: Opcode) {
    op.ADD? || op.SUB? || op.MUL? || op.DIV? || op.MOD? || op.ADD_IMM? || op.SUB_IMM? || op.MUL_IMM? || op.DIV_IMM? ||
    op.MOD_IMM? || op.LOAD_CONST? || op.LOAD_GLOBAL?
  }

  predicate Loads(op: Opcode) { op.LOAD_CONST? || op.LOAD_GLOBAL? }

  predicate RegisterPair(op: Opcode) { op.ADD? || op.SUB? || op.MUL? || op.DIV? || op.MOD? }

  /** The instruction that computes an entry's operation into the given register. */
  function Computes(e: Entry, dest: int): Instruction {
    if Loads(e.op) then Instruction(e.op, dest, e.imm, 0)
    else Instruction(e.op, dest, e.left, if RegisterPair(e.op) then e.right else e.imm)
  }

  /** Keys as the callers build them. */
  predicate WellKeyed(e: Entry) {
    Cacheable(e.op) && e.result >= 0 &&
    (Loads(e.op) ==> e.left == e.right == -1) && (!RegisterPair(e.op) ==> e.right == -1)
  }

  function EntryValue(I: Interp, p: Program, e: Entry, d: Data): Value {
    if e.op.LOAD_GLOBAL? then Get(d.globals, e.imm)
    else
      var v := ViewOf(p, Computes(e, e.result), I.depth);
      I.data(v.op, Values(d.regs, Sources(v)), Immediate(v), v.lit, d.world).value
  }

  /** The entry's register holds what its operation would compute now. */
  ghost predicate Holds(I: Interp, p: Program, e: Entry, d: Data) {
    e.result in d.regs && d.regs[e.result] == EntryValue(I, p, e, d)
  }

  ghost predicate AllHold(I: Interp, p: Program, es: seq<Entry>, d: Data) {
    forall e :: e in es ==> Holds(I, p, e, d)
  }

  /** Recorded operations do not look at the heap. */
  ghost predicate HeapFree(I: Interp) {
    forall op, inputs, imm, lit, w, w' :: Cacheable(op) ==>
      I.data(op, inputs, imm, lit, w).value == I.data(op, inputs, imm, lit, w').value
  }

  // ----- paths through the emitted code -----

  /** One step inside the function; a call comes back to the next instruction with its result stored
    * and anything outside the registers changed. */
  ghost predicate Flow(I: Interp, p: Program, pc: int, d: Data, pc': int, d': Data) {
    InCode(p, pc) && d.status.Running? && d'.status.Running? &&
    if IsCall(p.code[pc].op) then
      var dest := p.code[pc].a;
      pc' == pc + 1 && dest in d'.regs && d'.regs == d.regs[dest := d'.regs[dest]]
    else
      var o := Exec(I, ViewOf(p, p.code[pc], I.depth), d);
      d' == o.data && GoesTo(p, pc, o.place, pc')
  }

  /** The places inside the function an instruction can lead to, dispatches included. */
  predicate GoesTo(p: Program, pc: int, place: Place, pc': int)
    requires InCode(p, pc)
  {
    match place
    case Next => pc' == pc + 1
    case Taken => pc' == PcOperand(p.code[pc])
    case Slot(k) => pc' == SlotTarget(p, PoolOperand(p.code[pc]), k)
    case Default => pc' == DefaultTarget(p, PoolOperand(p.code[pc]))
    case _ => false
  }

  ghost predicate IsPath(I: Interp, p: Program, path: seq<(int, Data)>) {
    path != [] && path[0].1.status.Running? &&
    forall k :: 0 <= k < |path| - 1 ==> Flow(I, p, path[k].0, path[k].1, path[k + 1].0, path[k + 1].1)
  }

  /** d is reached at k by falling through every instruction from r on. */
  ghost predicate Along(I: Interp, p: Program, r: nat, k: nat, d: Data)
    decreases k, 1
  {
    d.status.Running? && (k > r ==> exists d0 :: FellFrom(I, p, r, k, d0, d))
  }

  ghost predicate FellFrom(I: Interp, p: Program, r: nat, k: nat, d0: Data, d: Data)
    requires k > 0
    decreases k, 0
  {
    Along(I, p, r, k - 1, d0) && Flow(I, p, k - 1, d0, k, d)
  }

  // ----- histories of emission -----

  datatype Event =
    | EmitEvent(i: Instruction)
    | LoopHeadEvent(i: Instruction)
    | PatchEvent(k: nat, target: int)
    | LoopTopEvent
    | BodyStartEvent
    | RecordEvent(e: Entry)

  /** Opcodes that store into register a when they run. */
  predicate StoresReg(op: Opcode) {
    (IsDataOp(op) && StoresResult(op)) || IsCall(op) ||
    op.MOVE? || op.LOAD_GLOBAL? || op.FOR_NEXT? || op.FOR_NEXT_LOOP? || op.TABLE_ITER_NEXT?
  }

  /** The write table misses exactly these five. */
  predicate UnseenWrite(op: Opcode) {
    op.TABLE_GET_NUM? || op.TABLE_GET_KEY_STR? || op.FOR_NEXT? || op.FOR_NEXT_LOOP? || op.TABLE_ITER_NEXT?
  }

  lemma UnseenWriteIff(op: Opcode)
    ensures StoresReg(op) && !WritesDestReg(op) <==> UnseenWrite(op)
  {
    hide StoresReg, WritesDestReg, UnseenWrite;
    UnseenStores(op);
    StorersWrite(op);
  }

  lemma UnseenStores(op: Opcode)
    ensures UnseenWrite(op) ==> StoresReg(op) && !WritesDestReg(op)
  {
  }

  lemma StorersWrite(op: Opcode)
    ensures StoresReg(op) ==> WritesDestReg(op) || UnseenWrite(op)
  {
    if IsDataOp(op) {
    } else if IsCall(op) {
    } else {
    }
  }

  lemma WritersStore(op: Opcode)
    ensures WritesDestReg(op) ==> StoresReg(op)
  {
    hide HasPc, IsReturn, IsSimple, StoresResult;
    WritersNoPc(op);
    WritersPlain(op);
    WritersResult(op);
  }

  lemma WritersNoPc(op: Opcode)
    ensures WritesDestReg(op) ==> !HasPc(op)
  {
  }

  lemma WritersResult(op: Opcode)
    ensures WritesDestReg(op) ==> StoresResult(op)
  {
  }

  lemma WritersPlain(op: Opcode)
    ensures WritesDestReg(op) ==> !IsReturn(op) && !IsSimple(op)
  {
  }

  predicate IsDispatch(op: Opcode) { op.JUMP_TABLE? || op.SWITCH_STR? || op.SWITCH_NUM? }

  predicate Untouched(es: seq<Entry>, a: int) { forall e :: e in es ==> !Touches(a)(e) }

  /** An address that may be emitted: a placeholder or a recorded target. */
  predicate Known(em: Emission, i: Instruction) {
    HasPc(i.op) ==> PcOperand(i) == 0 || PcOperand(i) in em.labels
  }

  /** What the emitter may do next. A store the write table misses must touch no live entry, except that
    * FOR_NEXT_LOOP stores only when it jumps back; a case body must start with an empty cache. */
  predicate Legal(em: Emission, ev: Event) {
    match ev
    case EmitEvent(i) =>
      Known(em, i) && (UnseenWrite(i.op) && !i.op.FOR_NEXT_LOOP? ==> Untouched(em.cache, i.a))
    case LoopHeadEvent(i) => (i.op.FOR_NEXT? || i.op.TABLE_ITER_NEXT?) && Known(em, i)
    case PatchEvent(k, t) => k < |em.code| && HasPc(em.code[k].op) && (t == |em.code| || t in em.labels)
    case LoopTopEvent => true
    case BodyStartEvent => em.cache == []
    case RecordEvent(e) => WellKeyed(e) && em.reset < |em.code| && em.code[|em.code| - 1] == Computes(e, e.result)
  }

  function Apply(em: Emission, ev: Event): Emission
    requires Legal(em, ev)
  {
    match ev
    case EmitEvent(i) => Emit(em, i)
    case LoopHeadEvent(i) => LoopHead(em, i)
    case PatchEvent(k, t) => PatchTo(em, k, t)
    case LoopTopEvent => LoopTop(em)
    case BodyStartEvent => BodyStart(em)
    case RecordEvent(e) => Record(em, e)
  }

  /** em is what the legal events evs leave behind. */
  ghost predicate BuiltBy(evs: seq<Event>, em: Emission)
    decreases |evs|, 1
  {
    if evs == [] then em == FRESH else exists before :: BuiltFrom(evs, before, em)
  }

  ghost predicate BuiltFrom(evs: seq<Event>, before: Emission, em: Emission)
    requires evs != []
    decreases |evs|, 0
  {
    var last := |evs| - 1;
    BuiltBy(evs[..last], before) && Legal(before, evs[last]) && em == Apply(before, evs[last])
  }

  // ----- the invariant -----

  /** No address leads into the stretch emitted since the last reset. */
  ghost predicate Sealed(em: Emission) {
    em.reset <= |em.code| && (forall l :: l in em.labels ==> l <= em.reset) &&
    forall k :: 0 <= k < |em.code| && HasPc(em.code[k].op) ==> PcOperand(em.code[k]) <= em.reset
  }

  ghost predicate Keyed(es: seq<Entry>) {
    forall e :: e in es ==> WellKeyed(e) && e.result != e.left && e.result != e.right
  }

  ghost predicate Inv(I: Interp, fs: seq<FunctionInfo>, cs: seq<Constant>, em: Emission) {
    Sealed(em) && Keyed(em.cache) &&
    forall d :: Along(I, Program(em.code, fs, cs), em.reset, |em.code|, d) ==>
        AllHold(I, Program(em.code, fs, cs), em.cache, d)
  }

  /** Falling through a stretch depends only on the instructions in it. */
  lemma {:induction false} AlongSame(I: Interp, p: Program, q: Program, r: nat, k: nat, d: Data)
    requires r <= k <= |p.code| && k <= |q.code| && q.functions == p.functions && q.constants == p.constants
    requires forall j :: r <= j < k ==> q.code[j] == p.code[j]
    requires Along(I, p, r, k, d)
    ensures Along(I, q, r, k, d)
    decreases k
  {
    hide Exec, ViewOf;
    if k > r {
      var d0 :| FellFrom(I, p, r, k, d0, d);
      AlongSame(I, p, q, r, k - 1, d0);
      ViewSamePool(p, q, p.code[k - 1], I.depth);
      assert FellFrom(I, q, r, k, d0, d);
    }
  }

  lemma HoldsSame(I: Interp, p: Program, q: Program, es: seq<Entry>, d: Data)
    requires q.functions == p.functions && q.constants == p.constants && AllHold(I, p, es, d)
    ensures AllHold(I, q, es, d)
  {
    hide ViewOf;
    forall e | e in es ensures Holds(I, q, e, d) {
      ViewSamePool(p, q, Computes(e, e.result), I.depth);
    }
  }

  lemma KeyedKind(op: Opcode)
    requires Cacheable(op)
    ensures !op.LOAD_GLOBAL? ==> IsDataOp(op) && StoresResult(op) && !TakesArgs(op)
    ensures !IsDirectCall(op) && !PoolPacked(op) && !PoolInOp2(op) && (PoolInOp1(op) ==> op.LOAD_CONST?)
  {
  }

  /** What an entry's computation reads. */
  lemma EntrySources(p: Program, e: Entry, depth: nat, dest: int)
    requires WellKeyed(e)
    ensures var v := ViewOf(p, Computes(e, dest), depth);
            v.op == e.op && v.a == dest &&
            (e.op.LOAD_GLOBAL? ==> v.b == e.imm) &&
            (!e.op.LOAD_GLOBAL? ==> IsDataOp(e.op) && StoresResult(e.op) && !TakesArgs(e.op)) &&
            (forall r :: r in Sources(v) ==> r == e.left || r == e.right)
    ensures var v, v' := ViewOf(p, Computes(e, dest), depth), ViewOf(p, Computes(e, e.result), depth);
            Sources(v) == Sources(v') && Immediate(v) == Immediate(v') && v.lit == v'.lit
  {
    hide Denote, IsDataOp, StoresResult, TakesArgs, PoolInOp1, PoolInOp2, PoolPacked, IsDirectCall;
    KeyedKind(e.op);
  }

  /** An entry survives when its registers keep their values, and its global too if it loads one. */
  lemma HoldsKept(I: Interp, p: Program, e: Entry, d: Data, d': Data, a: int)
    requires HeapFree(I) && WellKeyed(e) && Holds(I, p, e, d)
    requires AgreeOff(d.regs, d'.regs, a) || d'.regs == d.regs
    requires d'.regs != d.regs ==> !Touches(a)(e)
    requires e.op.LOAD_GLOBAL? ==> Get(d'.globals, e.imm) == Get(d.globals, e.imm)
    ensures Holds(I, p, e, d')
  {
    hide ViewOf;
    EntrySources(p, e, I.depth, e.result);
    if d'.regs != d.regs {
      AgreeGet(d.regs, d'.regs, a, e.result);
      if !e.op.LOAD_GLOBAL? {
        AgreeValues(d.regs, d'.regs, a, Sources(ViewOf(p, Computes(e, e.result), I.depth)));
      }
    }
  }

  /** What running an instruction other than a call changes. */
  lemma ExecWrites(I: Interp, v: View, d: Data)
    requires !IsCall(v.op)
    ensures var o := Exec(I, v, d);
            o.place.Next? || o.place.Taken? || o.place.Slot? || o.place.Default? ==>
              (if WritesDestReg(v.op) || UnseenWrite(v.op) then AgreeOff(d.regs, o.data.regs, v.a)
               else o.data.regs == d.regs) &&
              (v.op.FOR_NEXT_LOOP? && o.place.Next? ==> o.data.regs == d.regs) &&
              (forall g :: !(v.op.STORE_GLOBAL? && g == v.b) ==> Get(o.data.globals, g) == Get(d.globals, g))
  {
    hide Exec, WritesDestReg, StoresResult, Immediate, TableOffset, ExecData, ExecForNext, ExecTableNext;
    UnseenStores(v.op);
    StorersWrite(v.op);
    WritersStore(v.op);
    ExecDispatch(I, v, d);
    if HasPcInOp0(v.op) {
      ExecBranch(I, v, d);
    } else if IsSimple(v.op) {
      ExecSimple(I, v, d);
      SimpleGlobals(I, v, d);
    } else if v.op.FOR_NEXT? || v.op.FOR_NEXT_LOOP? {
      ExecLoopDispatch(I, v, d);
      ForWrites(v, d, Next, Taken);
      ForWrites(v, d, Taken, Next);
    } else if v.op.TABLE_ITER_NEXT? {
      TableNextWrites(I, v, d);
    } else if IsDataOp(v.op) {
      DataWrites(I, v, d);
    }
  }

  lemma DataWrites(I: Interp, v: View, d: Data)
    ensures var o := ExecData(I, v, d);
            o.data.globals == d.globals &&
            if StoresResult(v.op) then AgreeOff(d.regs, o.data.regs, v.a) else o.data.regs == d.regs
  {
    hide Sources, Immediate, StoresResult;
  }

  lemma ForWrites(v: View, d: Data, onMore: Place, onDone: Place)
    requires onMore != onDone
    ensures var o := ExecForNext(v, d, onMore, onDone);
            o.data.globals == d.globals && AgreeOff(d.regs, o.data.regs, v.a) &&
            (o.place == onDone && !onDone.Stay? ==> o.data.regs == d.regs)
  {
  }

  lemma TableNextWrites(I: Interp, v: View, d: Data)
    ensures var o := ExecTableNext(I, v, d);
            o.data.globals == d.globals && AgreeOff(d.regs, o.data.regs, v.a)
  {
  }

  lemma SimpleGlobals(I: Interp, v: View, d: Data)
    requires IsSimple(v.op)
    ensures Exec(I, v, d).data.globals == if v.op.STORE_GLOBAL? then d.globals[v.b := Get(d.regs, v.a)] else d.globals
  {
    hide ExecCall, ExecReturn, ExecData, ExecForNext, ExecTableNext, ExecJumpTable, ExecSwitch, CopyReg;
  }

  lemma PlainView(p: Program, i: Instruction, depth: nat)
    ensures var v := ViewOf(p, i, depth);
            v.op == i.op && (!HasPcInOp0(i.op) ==> v.a == i.a) && (i.op.STORE_GLOBAL? ==> v.b == i.b)
  {
    hide Denote;
  }

  /** Entries the cache keeps across an instruction still hold after it. */
  lemma FlowKeeps(I: Interp, p: Program, es: seq<Entry>, pc: int, d: Data, pc': int, d': Data)
    requires HeapFree(I) && Keyed(es) && AllHold(I, p, es, d) && Flow(I, p, pc, d, pc', d')
    requires var i := p.code[pc];
             UnseenWrite(i.op) ==> Untouched(es, i.a) || (i.op.FOR_NEXT_LOOP? && PcOperand(i) != pc')
    ensures AllHold(I, p, AfterInstruction(es, p.code[pc]), d')
  {
    hide Exec, ViewOf, Drop, EntryValue;
    var i := p.code[pc];
    var es' := AfterInstruction(es, i);
    PlainView(p, i, I.depth);
    if !ClearsCache(i.op) {
      ExecWrites(I, ViewOf(p, i, I.depth), d);
      ExecPlaces(I, ViewOf(p, i, I.depth), d);
      forall e | e in es' ensures Holds(I, p, e, d') {
        assert e in es;
        HoldsKept(I, p, e, d, d', i.a);
      }
    }
  }

  lemma ThreadBound(em: Emission, t: int, hops: nat)
    requires Sealed(em) && t <= em.reset
    ensures ThreadTarget(em.code, t, hops) <= em.reset
    decreases hops
  {
    if hops > 0 && 0 <= t < |em.code| && em.code[t].op.JUMP? && em.code[t].a != 0 && em.code[t].a != t {
      ThreadBound(em, em.code[t].a, hops - 1);
    }
  }

  lemma SealedApply(em: Emission, ev: Event)
    requires Sealed(em) && Legal(em, ev)
    ensures Sealed(Apply(em, ev))
  {
    match ev
    case EmitEvent(i) => SealedEmit(em, i);
    case LoopHeadEvent(i) => SealedEmit(em, i);
    case PatchEvent(_, t) => if t != |em.code| { ThreadBound(em, t, RESOLVE_HOPS); }
    case _ =>
  }

  lemma SealedEmit(em: Emission, i: Instruction)
    requires Sealed(em) && Known(em, i)
    ensures Sealed(Emit(em, i))
  {
    if HasPcInOp0(i.op) && i.a != 0 { ThreadBound(em, i.a, RESOLVE_HOPS); }
  }

  lemma KeyedApply(em: Emission, ev: Event)
    requires Keyed(em.cache) && Legal(em, ev)
    ensures Keyed(Apply(em, ev).cache)
  {
    hide Drop;
  }

  /** Emitting an instruction that keeps the cache. */
  lemma EmitKeepsInv(I: Interp, fs: seq<FunctionInfo>, cs: seq<Constant>, em: Emission, i: Instruction)
    requires HeapFree(I) && Inv(I, fs, cs, em) && Legal(em, EmitEvent(i)) && !BreaksCache(Resolved(em.code, i))
    ensures Inv(I, fs, cs, Emit(em, i))
  {
    hide Drop, Flow, AfterInstruction, Holds;
    SealedApply(em, EmitEvent(i));
    KeyedApply(em, EmitEvent(i));
    var n, em' := |em.code|, Emit(em, i);
    var p, q := Program(em.code, fs, cs), Program(em'.code, fs, cs);
    forall d' | Along(I, q, em.reset, n + 1, d') ensures AllHold(I, q, em'.cache, d') {
      var d :| FellFrom(I, q, em.reset, n + 1, d, d');
      AlongSame(I, q, p, em.reset, n, d);
      HoldsSame(I, p, q, em.cache, d);
      FlowKeeps(I, q, em.cache, n, d, n + 1, d');
    }
  }

  lemma AlongBefore(I: Interp, p: Program, r: nat, k: nat, d: Data) returns (d0: Data)
    requires k > r && Along(I, p, r, k, d)
    ensures FellFrom(I, p, r, k, d0, d)
  {
    hide Flow;
    d0 :| FellFrom(I, p, r, k, d0, d);
  }

  /** Right after its instruction, a recorded entry holds. */
  lemma RecordKeepsInv(I: Interp, fs: seq<FunctionInfo>, cs: seq<Constant>, em: Emission, e: Entry)
    requires HeapFree(I) && Inv(I, fs, cs, em) && Legal(em, RecordEvent(e))
    ensures Inv(I, fs, cs, Record(em, e))
  {
    hide Flow, Holds;
    KeyedApply(em, RecordEvent(e));
    var n, p := |em.code|, Program(em.code, fs, cs);
    if Recorded(em.cache, e) != em.cache {
      forall d | Along(I, p, em.reset, n, d) ensures AllHold(I, p, Recorded(em.cache, e), d) {
        var d0 := AlongBefore(I, p, em.reset, n, d);
        ComputedHolds(I, p, e, n - 1, d0, n, d);
      }
    }
  }

  lemma ComputedHolds(I: Interp, p: Program, e: Entry, pc: int, d: Data, pc': int, d': Data)
    requires HeapFree(I) && WellKeyed(e) && e.result != e.left && e.result != e.right
    requires InCode(p, pc) && p.code[pc] == Computes(e, e.result) && Flow(I, p, pc, d, pc', d')
    ensures Holds(I, p, e, d')
  {
    if e.op.LOAD_GLOBAL? { LoadedHolds(I, p, e, pc, d, pc', d'); } else { OperationHolds(I, p, e, pc, d, pc', d'); }
  }

  lemma LoadedHolds(I: Interp, p: Program, e: Entry, pc: int, d: Data, pc': int, d': Data)
    requires WellKeyed(e) && e.op.LOAD_GLOBAL?
    requires InCode(p, pc) && p.code[pc] == Computes(e, e.result) && Flow(I, p, pc, d, pc', d')
    ensures Holds(I, p, e, d')
  {
    hide Exec, ExecCall, ExecReturn, ExecData, ExecTableNext, ExecJumpTable, ExecSwitch, CopyReg;
    var v := ViewOf(p, Computes(e, e.result), I.depth);
    assert v.op.LOAD_GLOBAL? && v.a == e.result && v.b == e.imm;
    hide ViewOf;
    ExecDispatch(I, v, d);
  }

  lemma OperationHolds(I: Interp, p: Program, e: Entry, pc: int, d: Data, pc': int, d': Data)
    requires HeapFree(I) && WellKeyed(e) && e.result != e.left && e.result != e.right && !e.op.LOAD_GLOBAL?
    requires InCode(p, pc) && p.code[pc] == Computes(e, e.result) && Flow(I, p, pc, d, pc', d')
    ensures Holds(I, p, e, d')
  {
    hide Exec, ViewOf, ExecCall, ExecReturn, ExecTableNext, ExecJumpTable, ExecSwitch, Sources, Immediate;
    var v := ViewOf(p, Computes(e, e.result), I.depth);
    EntrySources(p, e, I.depth, e.result);
    ExecDispatch(I, v, d);
    assert AgreeOff(d.regs, d'.regs, e.result);
    AgreeValues(d.regs, d'.regs, e.result, Sources(v));
  }

  lemma ApplyKeepsInv(I: Interp, fs: seq<FunctionInfo>, cs: seq<Constant>, em: Emission, ev: Event)
    requires HeapFree(I) && Inv(I, fs, cs, em) && Legal(em, ev)
    ensures Inv(I, fs, cs, Apply(em, ev))
  {
    match ev
    case EmitEvent(i) =>
      if BreaksCache(Resolved(em.code, i)) { SealedApply(em, ev); } else { EmitKeepsInv(I, fs, cs, em, i); }
    case RecordEvent(e) => RecordKeepsInv(I, fs, cs, em, e);
    case _ => SealedApply(em, ev);
  }

  lemma {:induction false} BuiltInv(I: Interp, fs: seq<FunctionInfo>, cs: seq<Constant>, evs: seq<Event>, em: Emission)
    requires HeapFree(I) && BuiltBy(evs, em)
    ensures Inv(I, fs, cs, em)
    decreases |evs|
  {
    hide Inv, Legal, Apply;
    if evs == [] {
      FreshInv(I, fs, cs);
    } else {
      var before :| BuiltFrom(evs, before, em);
      BuiltInv(I, fs, cs, evs[..|evs| - 1], before);
      ApplyKeepsInv(I, fs, cs, before, evs[|evs| - 1]);
    }
  }

  lemma FreshInv(I: Interp, fs: seq<FunctionInfo>, cs: seq<Constant>)
    ensures Inv(I, fs, cs, FRESH)
  {
  }

  /** Every path that enters the sealed stretch runs through it from its start. */
  lemma {:induction false} PathAlong(I: Interp, em: Emission, p: Program, path: seq<(int, Data)>, k: nat)
    requires Sealed(em) && p.code == em.code && TablesRecorded(em, p)
    requires IsPath(I, p, path) && path[0].0 <= em.reset && k < |path| && em.reset < path[k].0 <= |em.code|
    ensures Along(I, p, em.reset, path[k].0, path[k].1)
    decreases k
  {
    hide Exec, ViewOf, TablesRecorded;
    var (pc0, d0) := path[k - 1];
    var (pc, d) := path[k];
    assert Flow(I, p, path[k - 1].0, path[k - 1].1, path[k - 1 + 1].0, path[k - 1 + 1].1);
    FlowLands(I, em, p, pc0, d0, pc, d);
    if pc0 > em.reset { PathAlong(I, em, p, path, k - 1); }
    assert FellFrom(I, p, em.reset, pc, d0, d);
  }

  /** Past the reset point control arrives only from the instruction before. */
  lemma FlowLands(I: Interp, em: Emission, p: Program, pc0: int, d0: Data, pc: int, d: Data)
    requires Sealed(em) && p.code == em.code && TablesRecorded(em, p)
    requires Flow(I, p, pc0, d0, pc, d) && em.reset < pc <= |em.code|
    ensures pc == pc0 + 1
  {
    hide Exec, ViewOf;
    PlainView(p, p.code[pc0], I.depth);
    ExecPlaces(I, ViewOf(p, p.code[pc0], I.depth), d0);
    DispatchOnly(I, ViewOf(p, p.code[pc0], I.depth), d0);
    if !IsCall(p.code[pc0].op) && IsDispatch(p.code[pc0].op) {
      var o := Exec(I, ViewOf(p, p.code[pc0], I.depth), d0);
      assert TableRecorded(em, p, pc0);
      if o.place.Slot? { assert Landing(em, SlotTarget(p, PoolOperand(p.code[pc0]), o.place.i)); }
    }
  }

  lemma DispatchOnly(I: Interp, v: View, d: Data)
    ensures Exec(I, v, d).place.Slot? || Exec(I, v, d).place.Default? ==> IsDispatch(v.op)
  {
    hide Exec;
    ExecDispatch(I, v, d);
    if HasPcInOp0(v.op) {
      ExecBranch(I, v, d);
    } else if IsSimple(v.op) {
      ExecSimple(I, v, d);
    } else if v.op.FOR_NEXT? || v.op.FOR_NEXT_LOOP? {
      ExecLoopDispatch(I, v, d);
    }
  }

  /** Where a table may lead: to a recorded target, past the code emitted so far, or nowhere. */
  predicate Landing(em: Emission, t: int) { t in em.labels || t < 0 || t > |em.code| }

  ghost predicate TableRecorded(em: Emission, p: Program, pc: int)
    requires InCode(p, pc)
  {
    Landing(em, DefaultTarget(p, PoolOperand(p.code[pc]))) &&
    forall j :: Landing(em, SlotTarget(p, PoolOperand(p.code[pc]), j))
  }

  /** Every dispatch emitted so far leads to recorded body starts or to bodies still to come. */
  ghost predicate TablesRecorded(em: Emission, p: Program) {
    forall pc :: InCode(p, pc) && IsDispatch(p.code[pc].op) ==> TableRecorded(em, p, pc)
  }

  /** After any legal emission history, on every path from the function entry to the point reached,
    * every live entry's register holds what its operation would compute there. */
  lemma LiveEntriesHold(I: Interp, fs: seq<FunctionInfo>, cs: seq<Constant>, evs: seq<Event>, em: Emission,
                        path: seq<(int, Data)>, e: Entry)
    requires HeapFree(I) && BuiltBy(evs, em) && TablesRecorded(em, Program(em.code, fs, cs)) && e in em.cache
    requires IsPath(I, Program(em.code, fs, cs), path) && path[0].0 == 0 && path[|path| - 1].0 == |em.code|
    ensures Holds(I, Program(em.code, fs, cs), e, path[|path| - 1].1)
  {
    hide Flow, Along, Holds, BuiltBy, TablesRecorded;
    BuiltInv(I, fs, cs, evs, em);
    var p, last := Program(em.code, fs, cs), |path| - 1;
    if em.reset < |em.code| {
      PathAlong(I, em, p, path, last);
    } else {
      AlongStart(I, p, em.reset, path);
    }
  }

  lemma AlongStart(I: Interp, p: Program, r: nat, path: seq<(int, Data)>)
    requires IsPath(I, p, path)
    ensures Along(I, p, r, r, path[|path| - 1].1)
  {
    var last := |path| - 1;
    if last > 0 { assert Flow(I, p, path[last - 1].0, path[last - 1].1, path[last - 1 + 1].0, path[last - 1 + 1].1); }
  }

  lemma {:induction false} FindFinds(es: seq<Entry>, op: Opcode, left: int, right: int, imm: int) returns (k: nat)
    requires Find(es, op, left, right, imm) >= 0
    ensures k < |es| && SameKey(es[k], op, left, right, imm) && es[k].result == Find(es, op, left, right, imm)
    decreases |es|
  {
    if SameKey(es[0], op, left, right, imm) {
      k := 0;
    } else {
      k := FindFinds(es[1..], op, left, right, imm);
      k := k + 1;
    }
  }

  /** A cache hit may replace the operation: copying the hit register into dest has the effect of
    * computing the operation into dest, on every path reaching the point. */
  lemma ReuseEqualsRecompute(I: Interp, fs: seq<FunctionInfo>, cs: seq<Constant>, evs: seq<Event>, em: Emission,
                             path: seq<(int, Data)>, e: Entry, dest: int)
    requires HeapFree(I) && BuiltBy(evs, em) && TablesRecorded(em, Program(em.code, fs, cs))
    requires e.result == Find(em.cache, e.op, e.left, e.right, e.imm) >= 0
    requires IsPath(I, Program(em.code, fs, cs), path) && path[0].0 == 0 && path[|path| - 1].0 == |em.code|
    ensures var p, d := Program(em.code, fs, cs), path[|path| - 1].1;
            var computed := Exec(I, ViewOf(p, Computes(e, dest), I.depth), d);
            computed.place.Next? ==> computed.data.regs == CopyReg(d.regs, dest, e.result)
  {
    hide Exec, Flow, ViewOf, BuiltBy;
    var p, d := Program(em.code, fs, cs), path[|path| - 1].1;
    var k := FindFinds(em.cache, e.op, e.left, e.right, e.imm);
    assert em.cache[k] == e;
    LiveEntriesHold(I, fs, cs, evs, em, path, e);
    BuiltInv(I, fs, cs, evs, em);
    EntrySources(p, e, I.depth, dest);
    EntrySources(p, e, I.depth, e.result);
    var v := ViewOf(p, Computes(e, dest), I.depth);
    ExecDispatch(I, v, d);
    if !e.op.LOAD_GLOBAL? {
      assert EntryValue(I, p, e, d) == I.data(v.op, Values(d.regs, Sources(v)), Immediate(v), v.lit, d.world).value;
    }
    assert Holds(I, p, e, d);
  }

  // ----- stores the write table misses -----

  /** The instruction is over and the function goes on. */
  ghost predicate Continues(I: Interp, p: Program, i: Instruction, d: Data) {
    var o := Exec(I, ViewOf(p, i, I.depth), d);
    o.place.Next? || o.place.Taken?
  }

  /** Whatever the opcodes compute, entries that hold before i hold after it. */
  ghost predicate Preserves(p: Program, es: seq<Entry>, i: Instruction) {
    forall I, d :: HeapFree(I) && AllHold(I, p, es, d) && Continues(I, p, i, d) ==>
      AllHold(I, p, es, Exec(I, ViewOf(p, i, I.depth), d).data)
  }

  /** The cache keeps every entry across the five unseen stores; all of them stay right, whatever is
    * computed and read, if and only if the store touches none of them. */
  lemma UnseenWriteKeepsIff(p: Program, es: seq<Entry>, i: Instruction)
    requires Keyed(es) && UnseenWrite(i.op) && i.a >= 0
    ensures AfterInstruction(es, i) == es
    ensures Preserves(p, es, i) <==> Untouched(es, i.a)
  {
    hide Exec, ViewOf, HeapFree, Holds, Drop;
    if Untouched(es, i.a) {
      forall I, d | HeapFree(I) && AllHold(I, p, es, d) && Continues(I, p, i, d)
        ensures AllHold(I, p, es, Exec(I, ViewOf(p, i, I.depth), d).data)
      {
        UntouchedKept(I, p, es, i, d);
      }
    } else {
      var e :| e in es && Touches(i.a)(e);
      var I, d := TouchedBreaks(p, es, i, e);
    }
  }

  lemma UntouchedKept(I: Interp, p: Program, es: seq<Entry>, i: Instruction, d: Data)
    requires HeapFree(I) && Keyed(es) && AllHold(I, p, es, d) && UnseenWrite(i.op) && Untouched(es, i.a)
    requires Continues(I, p, i, d)
    ensures AllHold(I, p, es, Exec(I, ViewOf(p, i, I.depth), d).data)
  {
    hide Exec, ViewOf, EntryValue;
    var d' := Exec(I, ViewOf(p, i, I.depth), d).data;
    PlainView(p, i, I.depth);
    ExecWrites(I, ViewOf(p, i, I.depth), d);
    forall e | e in es ensures Holds(I, p, e, d') { HoldsKept(I, p, e, d, d', i.a); }
  }

  /** Cached operations tell whether an operand is 1; everything else computes and iterates over 1. */
  const ONE_DETECTOR := Interp(0,
    (op: Opcode, inputs: seq<Value>, imm: int, lit: Literal, w: World) =>
      Effect(if Cacheable(op) then VBool(VNum(1.0) in inputs) else VNum(1.0), w, true),
    (op: Opcode, x: Value, y: Value, imm: int, lit: Literal, w: World) => false,
    (x: Value, lit: Literal) => -1,
    (it: TableIter, w: World) => Some((VNum(1.0), it)))

  /** No operand is 1 yet and every entry's register says so. */
  function NoOnes(es: seq<Entry>): Data {
    Data(map r | r in Results(es) :: VBool(false), [], [ForIter(1.0, 1.0, 1.0)], [TableIter(VNone, 0)],
         [], map g | g in Immediates(es) :: VBool(false), World(map[], []), Running)
  }

  function Results(es: seq<Entry>): set<int> { set e | e in es :: e.result }

  function Immediates(es: seq<Entry>): set<int> { set e | e in es :: e.imm }

  lemma NoOnesHold(p: Program, es: seq<Entry>, e: Entry)
    requires Keyed(es) && e in es
    ensures Holds(ONE_DETECTOR, p, e, NoOnes(es))
  {
    hide ViewOf;
    EntrySources(p, e, 0, e.result);
  }

  /** An unseen store writes the 1. */
  lemma StoresOne(p: Program, i: Instruction, d: Data)
    requires UnseenWrite(i.op) && d.status.Running?
    requires d.iters == [ForIter(1.0, 1.0, 1.0)] && d.tableIters == [TableIter(VNone, 0)]
    ensures Continues(ONE_DETECTOR, p, i, d)
    ensures var d' := Exec(ONE_DETECTOR, ViewOf(p, i, 0), d).data;
            d'.regs == d.regs[i.a := VNum(1.0)] && d'.globals == d.globals
  {
    hide Exec, ViewOf;
    var v := ViewOf(p, i, 0);
    PlainView(p, i, 0);
    ExecDispatch(ONE_DETECTOR, v, d);
    if v.op.FOR_NEXT? || v.op.FOR_NEXT_LOOP? { ExecLoopDispatch(ONE_DETECTOR, v, d); }
  }

  /** A store into a live entry's result or operand: a computation under which all entries held and
    * this one no longer does. */
  lemma TouchedBreaks(p: Program, es: seq<Entry>, i: Instruction, e: Entry) returns (I: Interp, d: Data)
    requires Keyed(es) && e in es && UnseenWrite(i.op) && i.a >= 0 && Touches(i.a)(e)
    ensures HeapFree(I) && AllHold(I, p, es, d) && Continues(I, p, i, d)
    ensures !Holds(I, p, e, Exec(I, ViewOf(p, i, I.depth), d).data)
  {
    hide Exec, ViewOf, Continues;
    I, d := ONE_DETECTOR, NoOnes(es);
    forall x | x in es ensures Holds(I, p, x, d) { NoOnesHold(p, es, x); }
    StoresOne(p, i, d);
    OneShows(p, es, e, i.a, Exec(I, ViewOf(p, i, I.depth), d).data);
  }

  lemma OneShows(p: Program, es: seq<Entry>, e: Entry, a: int, d: Data)
    requires Keyed(es) && e in es && a >= 0 && Touches(a)(e)
    requires d.regs == NoOnes(es).regs[a := VNum(1.0)] && d.globals == NoOnes(es).globals
    ensures !Holds(ONE_DETECTOR, p, e, d)
  {
    hide ViewOf;
    EntrySources(p, e, 0, e.result);
    EntryReads(p, e);
    if a != e.result {
      var xs := Values(d.regs, Sources(ViewOf(p, Computes(e, e.result), 0)));
      if a == e.left { assert xs[0] == VNum(1.0); } else { assert xs[1] == VNum(1.0); }
    }
  }

  /** The operands of an entry are registers its computation reads. */
  lemma EntryReads(p: Program, e: Entry)
    requires WellKeyed(e)
    ensures var rs := Sources(ViewOf(p, Computes(e, e.result), 0));
            !Loads(e.op) ==> |rs| >= 1 && rs[0] == e.left && (RegisterPair(e.op) ==> |rs| == 2 && rs[1] == e.right)
  {
    hide Denote;
  }

  // ----- the starts of case bodies -----

  /** A dispatch changes no data: a path that ends in one leading to the current end goes on to it with
    * the same data, so an entry holds there just when it held at the dispatch. */
  lemma DispatchCarries(I: Interp, p: Program, path: seq<(int, Data)>) returns (longer: seq<(int, Data)>)
    requires IsPath(I, p, path)
    requires var (pc, d) := path[|path| - 1];
             InCode(p, pc) && IsDispatch(p.code[pc].op) &&
             GoesTo(p, pc, Exec(I, ViewOf(p, p.code[pc], I.depth), d).place, |p.code|)
    ensures IsPath(I, p, longer) && longer[0] == path[0]
    ensures longer[|longer| - 1] == (|p.code|, path[|path| - 1].1)
  {
    hide Exec, ViewOf;
    var (pc, d) := path[|path| - 1];
    if |path| > 1 {
      var k := |path| - 2;
      assert Flow(I, p, path[k].0, path[k].1, path[k + 1].0, path[k + 1].1);
    }
    PlainView(p, p.code[pc], I.depth);
    ExecDispatch(I, ViewOf(p, p.code[pc], I.depth), d);
    longer := path + [(|p.code|, d)];
    assert Flow(I, p, pc, d, |p.code|, d);
    forall k | 0 <= k < |longer| - 1
      ensures Flow(I, p, longer[k].0, longer[k].1, longer[k + 1].0, longer[k + 1].1)
    {
      if k < |path| - 1 { assert Flow(I, p, path[k].0, path[k].1, path[k + 1].0, path[k + 1].1); }
    }
  }

  /** A path from the entry to the current end, with tables that lead only to recorded body starts, to
    * the current end, or to bodies still to come. */
  ghost predicate ReachesEnd(I: Interp, em: Emission, fs: seq<FunctionInfo>, cs: seq<Constant>,
                             path: seq<(int, Data)>) {
    TablesRecorded(BodyStart(em), Program(em.code, fs, cs)) && IsPath(I, Program(em.code, fs, cs), path) &&
    path[0].0 == 0 && path[|path| - 1].0 == |em.code|
  }

  /** What is read from the entry's register is what its operation would compute now. */
  ghost predicate Reusable(I: Interp, p: Program, e: Entry, d: Data) {
    Get(d.regs, e.result) == EntryValue(I, p, e, d)
  }

  /** Every live entry can be reused on every such path: a case body may start here. */
  ghost predicate CleanHere(em: Emission, fs: seq<FunctionInfo>) {
    forall I, cs, path: seq<(int, Data)>, e :: HeapFree(I) && ReachesEnd(I, em, fs, cs, path) && e in em.cache ==>
      Reusable(I, Program(em.code, fs, cs), e, path[|path| - 1].1)
  }

  /** After a dispatch at the function's entry, a case body may start where the code ends if and only if
    * the cache is empty there. */
  lemma BodyStartCleanIff(em: Emission, fs: seq<FunctionInfo>)
    requires Keyed(em.cache) && |em.code| > 0 && Dispatches(em.code[0])
    ensures CleanHere(em, fs) <==> em.cache == []
  {
    hide Exec, Reusable, HeapFree, IsPath, TablesRecorded;
    if em.cache != [] {
      var e := em.cache[0];
      var cs, path := EntryIsStale(em, fs, e);
      assert ReachesEnd(ALWAYS_TRUE, em, fs, cs, path);
    }
  }

  /** A jump-table dispatch with a 32-bit least case and a pool index. */
  predicate Dispatches(i: Instruction) {
    i.op.JUMP_TABLE? && i.c >= 0 && -0x8000_0000 <= i.b < 0x8000_0000
  }

  /** Every operation yields true. */
  const ALWAYS_TRUE := ONE_DETECTOR.(depth := 1,
    data := (op: Opcode, inputs: seq<Value>, imm: int, lit: Literal, w: World) => Effect(VBool(true), w, true))

  /** Three cases: the one selected starts at n, the others behind it. */
  function TablesTo(i: Instruction, n: nat): seq<Constant>
    requires i.c >= 0
  {
    seq(i.c + 1, k requires 0 <= k < i.c + 1 => JumpTable([n, n + 1, n + 2]))
  }

  /** The subject selects the first case; e's register holds false, and its global, if it loads one, true. */
  function Selecting(i: Instruction, e: Entry): Data {
    Data(map[e.result := VBool(false), i.a := VNum(i.b as real)], [], [], [], [], map[e.imm := VBool(true)],
         World(map[], []), Running)
  }

  /** Every entry a body leaves live is wrong for the next body on some dispatch: its register is set, and
    * to something else than its operation would compute. */
  lemma EntryIsStale(em: Emission, fs: seq<FunctionInfo>, e: Entry)
    returns (cs: seq<Constant>, path: seq<(int, Data)>)
    requires Keyed(em.cache) && e in em.cache && |em.code| > 0 && Dispatches(em.code[0])
    ensures HeapFree(ALWAYS_TRUE) && ReachesEnd(ALWAYS_TRUE, em, fs, cs, path)
    ensures var d := path[|path| - 1].1;
            e.result in d.regs && !Reusable(ALWAYS_TRUE, Program(em.code, fs, cs), e, d)
  {
    hide Exec, ViewOf;
    var i, n := em.code[0], |em.code|;
    cs := TablesTo(i, n);
    var p, d := Program(em.code, fs, cs), Selecting(i, e);
    TableSelects(p, i, n, e);
    path := DispatchCarries(ALWAYS_TRUE, p, [(0, d)]);
    assert path[|path| - 1].1 == d;
  }

  lemma TableView(p: Program, i: Instruction, n: nat)
    requires Dispatches(i) && p.constants == TablesTo(i, n)
    ensures p.constants[i.c] == JumpTable([n, n + 1, n + 2]) && PoolOperand(i) == i.c
    ensures var v := ViewOf(p, i, 1); v.op == i.op && v.a == i.a && v.b == i.b && v.lit == Pool(TJumpTable(3))
  {
    assert p.constants[i.c] == JumpTable([n, n + 1, n + 2]);
  }

  lemma TableSelects(p: Program, i: Instruction, n: nat, e: Entry)
    requires Dispatches(i) && p.constants == TablesTo(i, n)
    ensures var o := Exec(ALWAYS_TRUE, ViewOf(p, i, 1), Selecting(i, e));
            o.place == Slot(0) && SlotTarget(p, PoolOperand(i), 0) == n
  {
    hide Exec;
    TableView(p, i, n);
    hide ViewOf;
    var v := ViewOf(p, i, 1);
    ExecDispatch(ALWAYS_TRUE, v, Selecting(i, e));
    assert (i.b as real).Floor == i.b;
  }

  lemma Extend(evs: seq<Event>, em: Emission, ev: Event)
    requires BuiltBy(evs, em) && Legal(em, ev)
    ensures BuiltBy(evs + [ev], Apply(em, ev))
  {
    hide Legal, Apply;
    assert (evs + [ev])[..|evs|] == evs;
    assert BuiltFrom(evs + [ev], em, Apply(em, ev));
  }

  /** match r0 over 1, 2, 3 whose first case is r2 := r0 + r1; return r2.  The second body starts at 4. */
  const DISPATCH := Instruction(JUMP_TABLE, 0, 1, 0)
  const MISS := Instruction(JUMP, 0, 0, 0)
  const SUM := Instruction(ADD, 2, 0, 1)
  const ANSWER := Instruction(RETURN, 2, 0, 0)
  const SUM_ENTRY := Entry(ADD, 0, 1, 0, 2)
  const FIRST_CASE := [EmitEvent(DISPATCH), EmitEvent(MISS), BodyStartEvent, EmitEvent(SUM), RecordEvent(SUM_ENTRY)]
  const AFTER_FIRST_CASE := Emission([DISPATCH, MISS, SUM, ANSWER], [SUM_ENTRY], 2, {0, 2})

  lemma EmitOnEmpty(em: Emission, i: Instruction)
    requires em.cache == [] && !HasPcInOp0(i.op)
    ensures Emit(em, i) == em.(code := em.code + [i])
  {
  }

  lemma EmitUnresolvedJump(em: Emission, i: Instruction)
    requires i.op.JUMP? && i.a == 0
    ensures Emit(em, i) == Emission(em.code + [i], [], |em.code| + 1, em.labels)
  {
  }

  lemma EmitReturn(em: Emission, i: Instruction)
    requires i.op.RETURN?
    ensures Emit(em, i) == em.(code := em.code + [i])
  {
  }

  predicate Leads(em: Emission, ev: Event, em': Emission) { Legal(em, ev) && Apply(em, ev) == em' }

  const AT_BODY := Emission([DISPATCH, MISS], [], 2, {0, 2})
  const AT_ANSWER := Emission([DISPATCH, MISS, SUM], [SUM_ENTRY], 2, {0, 2})

  lemma Emits(em: Emission, i: Instruction)
    requires (em.cache == [] || i.op.RETURN?) && !HasPc(i.op) && !UnseenWrite(i.op)
    ensures Leads(em, EmitEvent(i), em.(code := em.code + [i]))
  {
    if em.cache == [] { EmitOnEmpty(em, i); } else { EmitReturn(em, i); }
  }

  lemma Follows(evs: seq<Event>, em: Emission, ev: Event, em': Emission, evs': seq<Event>)
    requires BuiltBy(evs, em) && Leads(em, ev, em') && evs' == evs + [ev]
    ensures BuiltBy(evs', em')
  {
    hide BuiltBy;
    Extend(evs, em, ev);
  }

  lemma JumpsOver(e1: Emission)
    requires e1 == Emission([DISPATCH], [], 0, {0})
    ensures Leads(e1, EmitEvent(MISS), AT_BODY.(labels := {0}))
    ensures Leads(AT_BODY.(labels := {0}), BodyStartEvent, AT_BODY)
  {
    hide Emit;
    EmitUnresolvedJump(e1, MISS);
  }

  lemma RecordsSum(e: Emission)
    requires e == AT_ANSWER.(cache := [])
    ensures Leads(e, RecordEvent(SUM_ENTRY), AT_ANSWER)
  {
  }

  /** The compiler gets there: the body returns, so no jump is emitted after it and its entry stays. */
  lemma FirstCaseBuilt()
    ensures BuiltBy(FIRST_CASE + [EmitEvent(ANSWER)], AFTER_FIRST_CASE)
  {
    hide BuiltBy, Leads;
    var e1, e2, e3 := Emission([DISPATCH], [], 0, {0}), AT_BODY.(labels := {0}), AT_ANSWER.(cache := []);
    assert FRESH.code + [DISPATCH] == e1.code && AT_BODY.code + [SUM] == e3.code;
    assert AT_ANSWER.code + [ANSWER] == AFTER_FIRST_CASE.code;
    BuiltEmpty();
    Emits(FRESH, DISPATCH);
    JumpsOver(e1);
    Emits(AT_BODY, SUM);
    RecordsSum(e3);
    Emits(AT_ANSWER, ANSWER);
    Follows([], FRESH, FIRST_CASE[0], e1, FIRST_CASE[..1]);
    Follows(FIRST_CASE[..1], e1, FIRST_CASE[1], e2, FIRST_CASE[..2]);
    Follows(FIRST_CASE[..2], e2, FIRST_CASE[2], AT_BODY, FIRST_CASE[..3]);
    Follows(FIRST_CASE[..3], AT_BODY, FIRST_CASE[3], e3, FIRST_CASE[..4]);
    Follows(FIRST_CASE[..4], e3, FIRST_CASE[4], AT_ANSWER, FIRST_CASE);
    Follows(FIRST_CASE, AT_ANSWER, EmitEvent(ANSWER), AFTER_FIRST_CASE, FIRST_CASE + [EmitEvent(ANSWER)]);
  }

  lemma BuiltEmpty()
    ensures BuiltBy([], FRESH)
  {
  }

  /** Addition of numbers; every other operation yields none. */
  const ADDER := ONE_DETECTOR.(depth := 1,
    data := (op: Opcode, inputs: seq<Value>, imm: int, lit: Literal, w: World) =>
      Effect(if op.ADD? && |inputs| == 2 && inputs[0].VNum? && inputs[1].VNum? then VNum(inputs[0].n + inputs[1].n)
             else VNone, w, true))

  /** A match that gets a jump table, whose second body starts with the first one's entry live: matching
    * 2, the dispatch reaches that body at address 4, where r2 holds 0. Asked there for r0 + r1 in r3, the
    * compiler copies r2 and r3 is 0; added up it is 3. */
  lemma CaseBodyStartsStale(d: Data)
    requires d.status.Running? && d.regs == map[0 := VNum(2.0), 1 := VNum(1.0), 2 := VNum(0.0)]
    ensures MatchDispatch.Dense([MatchDispatch.PNum(1.0), MatchDispatch.PNum(2.0), MatchDispatch.PNum(3.0)])
    ensures var em := AFTER_FIRST_CASE;
            var p := Program(em.code, [], [JumpTable([2, 4, 6])]);
            BuiltBy(FIRST_CASE + [EmitEvent(ANSWER)], em) && !Legal(em, BodyStartEvent) &&
            Step(ADDER, p, State(0, [], d)) == State(|em.code|, [], d) &&
            Find(em.cache, ADD, 0, 1, 0) == 2 && CopyReg(d.regs, 3, 2) == d.regs[3 := VNum(0.0)] &&
            Exec(ADDER, ViewOf(p, Computes(SUM_ENTRY, 3), 1), d).data.regs == d.regs[3 := VNum(3.0)]
  {
    hide Exec, BuiltBy, ViewOf, Find, Advance;
    MatchDispatch.OneTwoThree();
    FirstCaseBuilt();
    FindsSum();
    var p := Program(AFTER_FIRST_CASE.code, [], [JumpTable([2, 4, 6])]);
    DispatchesToSecond(ADDER, p, DISPATCH, d);
    AddsUp(p, d);
  }

  lemma FindsSum()
    ensures Find(AFTER_FIRST_CASE.cache, ADD, 0, 1, 0) == 2
  {
  }

  lemma AddsUp(p: Program, d: Data)
    requires d.status.Running? && Get(d.regs, 0) == VNum(2.0) && Get(d.regs, 1) == VNum(1.0)
    ensures Exec(ADDER, ViewOf(p, Computes(SUM_ENTRY, 3), 1), d).data.regs == d.regs[3 := VNum(3.0)]
  {
    SumView(p);
    hide Exec, ViewOf;
    ExecDispatch(ADDER, View(ADD, 3, 0, 1, NoLiteral), d);
  }

  lemma SumView(p: Program)
    ensures ViewOf(p, Computes(SUM_ENTRY, 3), 1) == View(ADD, 3, 0, 1, NoLiteral)
  {
    hide Denote;
    assert Computes(SUM_ENTRY, 3) == Instruction(ADD, 3, 0, 1);
  }

  lemma DispatchesToSecond(I: Interp, p: Program, i: Instruction, d: Data)
    requires i.op.JUMP_TABLE? && i.a == 0 && i.b == 1 && i.c == 0
    requires |p.constants| == 1 && p.constants[0] == JumpTable([2, 4, 6]) && I.depth > 0
    requires d.status.Running? && 0 in d.regs && d.regs[0] == VNum(2.0)
    ensures Advance(p, i, State(0, [], d), Exec(I, ViewOf(p, i, I.depth), d)) == State(4, [], d)
  {
    hide Exec;
    var v := ViewOf(p, i, I.depth);
    assert v.op == i.op && v.a == i.a && v.b == i.b && v.lit == Pool(TJumpTable(3));
    ExecDispatch(I, v, d);
  }
}
