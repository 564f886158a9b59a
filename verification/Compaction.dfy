/** Removal of no-ops and jumps to the next kept instruction, with every code address renumbered:
  * source/compiler/opt_bc_dce.c, compact_bytecode. */
module Compaction {
  import opened Bytecode
  import opened Machine
  import opened Chunk

  // ----- what is dropped -----

  /** A no-op, or a forward jump over dropped instructions only. */
  predicate Removable(code: seq<Instruction>, pc: nat)
    requires pc < |code|
    decreases |code| - pc
  {
    IsNop(code[pc]) ||
    (code[pc].op.JUMP? && pc < code[pc].a <= |code| &&
     forall k :: pc < k < code[pc].a ==> Removable(code, k))
  }

  /** How many instructions before pc are kept: the new address of pc. */
  function NewPc(code: seq<Instruction>, pc: nat): nat
    requires pc <= |code|
  {
    if pc == 0 then 0 else NewPc(code, pc - 1) + (if Removable(code, pc - 1) then 0 else 1)
  }

  /** Addresses outside the chunk are left alone. */
  function MapPc(code: seq<Instruction>, pc: int): int {
    if 0 <= pc <= |code| then NewPc(code, pc) else pc
  }

  /** The kept instructions before pc, in order. */
  function Kept(code: seq<Instruction>, pc: nat): (r: seq<Instruction>)
    requires pc <= |code|
    ensures |r| == NewPc(code, pc)
  {
    if pc == 0 then []
    else if Removable(code, pc - 1) then Kept(code, pc - 1) else Kept(code, pc - 1) + [code[pc - 1]]
  }

  function RemapInstruction(code: seq<Instruction>, i: Instruction): Instruction {
    if HasPc(i.op) then WithPc(i, MapPc(code, PcOperand(i))) else i
  }

  function RemapAddresses(code: seq<Instruction>, addrs: seq<int>): seq<int> {
    seq(|addrs|, j requires 0 <= j < |addrs| => MapPc(code, addrs[j]))
  }

  function RemapStrEntries(code: seq<Instruction>, es: seq<StringSwitchEntry>): seq<StringSwitchEntry> {
    seq(|es|, j requires 0 <= j < |es| => es[j].(target := MapPc(code, es[j].target)))
  }

  function RemapNumEntries(code: seq<Instruction>, es: seq<NumSwitchEntry>): seq<NumSwitchEntry> {
    seq(|es|, j requires 0 <= j < |es| => es[j].(target := MapPc(code, es[j].target)))
  }

  function RemapConstant(code: seq<Instruction>, c: Constant): Constant {
    match c
    case JumpTable(addrs) => JumpTable(RemapAddresses(code, addrs))
    case StrSwitch(addend, es, t) => StrSwitch(addend, RemapStrEntries(code, es), MapPc(code, t))
    case NumSwitch(addend, es, t) => NumSwitch(addend, RemapNumEntries(code, es), MapPc(code, t))
    case _ => c
  }

  function RemapFunction(code: seq<Instruction>, f: FunctionInfo): FunctionInfo {
    f.(address := MapPc(code, f.address))
  }

  function Compact(p: Program): Program {
    var kept := Kept(p.code, |p.code|);
    Program(
      seq(|kept|, k requires 0 <= k < |kept| => RemapInstruction(p.code, kept[k])),
      seq(|p.functions|, k requires 0 <= k < |p.functions| => RemapFunction(p.code, p.functions[k])),
      seq(|p.constants|, k requires 0 <= k < |p.constants| => RemapConstant(p.code, p.constants[k])))
  }

  // ----- facts about the renumbering -----

  lemma {:induction false} NewPcMonotone(code: seq<Instruction>, x: nat, y: nat)
    requires x <= y <= |code|
    ensures NewPc(code, x) <= NewPc(code, y) <= NewPc(code, x) + (y - x)
    decreases y
  {
    if x < y { NewPcMonotone(code, x, y - 1); }
  }

  /** Equal new addresses mean that everything in between is dropped, and conversely. */
  lemma {:induction false} SameNewPc(code: seq<Instruction>, x: nat, y: nat)
    requires x <= y <= |code|
    ensures NewPc(code, x) == NewPc(code, y) <==> forall k :: x <= k < y ==> Removable(code, k)
    decreases y
  {
    if x < y {
      SameNewPc(code, x, y - 1);
      NewPcMonotone(code, x, y - 1);
      if Removable(code, y - 1) {
        assert NewPc(code, y) == NewPc(code, y - 1);
      } else {
        var last := y - 1;
        assert x <= last < y && !Removable(code, last);
      }
    }
  }

  /** A kept instruction sits at its new address. */
  lemma {:induction false} KeptAt(code: seq<Instruction>, pc: nat, end: nat)
    requires pc < end <= |code| && !Removable(code, pc)
    ensures NewPc(code, pc) < |Kept(code, end)| && Kept(code, end)[NewPc(code, pc)] == code[pc]
    decreases end
  {
    if pc < end - 1 {
      KeptAt(code, pc, end - 1);
    } else {
      assert Kept(code, end) == Kept(code, pc) + [code[pc]];
    }
  }

  /** Every instruction of the compacted chunk comes from a kept one. */
  lemma {:induction false} KeptFrom(code: seq<Instruction>, k: nat, end: nat) returns (pc: nat)
    requires end <= |code| && k < |Kept(code, end)|
    ensures pc < end && !Removable(code, pc) && NewPc(code, pc) == k && Kept(code, end)[k] == code[pc]
    decreases end
  {
    if Removable(code, end - 1) || k < |Kept(code, end - 1)| {
      pc := KeptFrom(code, k, end - 1);
    } else {
      pc := end - 1;
    }
  }

  // ----- the pass -----

  /** The marks made so far are all justified, and no-ops are all marked. */
  ghost predicate Marked(code: seq<Instruction>, remove: seq<bool>) {
    |remove| == |code| &&
    forall pc :: 0 <= pc < |code| ==> (IsNop(code[pc]) ==> remove[pc]) && (remove[pc] ==> Removable(code, pc))
  }

  function CountKept(remove: seq<bool>, pc: nat): nat
    requires pc <= |remove|
  {
    if pc == 0 then 0 else CountKept(remove, pc - 1) + (if remove[pc - 1] then 0 else 1)
  }

  lemma CountStep(remove: seq<bool>, pc: nat)
    requires pc <= |remove|
    ensures CountKept(remove, 0) == 0
    ensures pc < |remove| ==> CountKept(remove, pc + 1) == CountKept(remove, pc) + (if remove[pc] then 0 else 1)
  {
  }

  lemma {:induction false} CountKeptMonotone(remove: seq<bool>, x: nat, y: nat)
    requires x <= y <= |remove|
    ensures CountKept(remove, x) <= CountKept(remove, y) <= CountKept(remove, x) + (y - x)
    ensures CountKept(remove, x) == CountKept(remove, y) <==> forall k :: x <= k < y ==> remove[k]
    decreases y
  {
    if x < y { CountKeptMonotone(remove, x, y - 1); }
  }

  /** The test of the marking loop: one kept instruction, pc itself, between pc and its target. */
  lemma LandsOnNextKept(remove: seq<bool>, pc: nat, target: nat)
    requires pc < |remove| && target <= |remove| && !remove[pc]
    ensures CountKept(remove, target) == CountKept(remove, pc) + 1
       <==> pc < target && forall k :: pc < k < target ==> remove[k]
  {
    if target <= pc {
      CountKeptMonotone(remove, target, pc);
    } else {
      CountKeptMonotone(remove, pc + 1, target);
    }
  }

  lemma JumpJustified(code: seq<Instruction>, remove: seq<bool>, pc: nat)
    requires Marked(code, remove) && pc < |code| && !remove[pc]
    requires code[pc].op.JUMP? && 0 <= code[pc].a <= |code|
    requires CountKept(remove, code[pc].a) == CountKept(remove, pc) + 1
    ensures Removable(code, pc)
  {
    LandsOnNextKept(remove, pc, code[pc].a);
  }

  /** Marks that can no longer grow are exactly the removable instructions. */
  lemma {:induction false} StableMarks(code: seq<Instruction>, remove: seq<bool>, pc: nat)
    requires Marked(code, remove) && pc < |code|
    requires forall k :: 0 <= k < |code| && !remove[k] && code[k].op.JUMP? && 0 <= code[k].a <= |code|
                  ==> CountKept(remove, code[k].a) != CountKept(remove, k) + 1
    ensures remove[pc] == Removable(code, pc)
    decreases |code| - pc
  {
    if Removable(code, pc) && !remove[pc] {
      var t := code[pc].a;
      forall k | pc < k < t ensures remove[k] { StableMarks(code, remove, k); }
      LandsOnNextKept(remove, pc, t);
      assert false;
    }
  }

  lemma {:induction false} CountIsNewPc(code: seq<Instruction>, remove: seq<bool>, pc: nat)
    requires |remove| == |code| && pc <= |code|
    requires forall k :: 0 <= k < |code| ==> remove[k] == Removable(code, k)
    ensures CountKept(remove, pc) == NewPc(code, pc)
    decreases pc
  {
    if pc > 0 { CountIsNewPc(code, remove, pc - 1); }
  }

  /** tmp_map and map of the pass: the running count of kept instructions. */
  method BuildMap(remove: array<bool>, total: nat) returns (m: array<int>)
    requires remove.Length == total
    ensures fresh(m) && m.Length == total + 1
    ensures forall pc :: 0 <= pc <= total ==> m[pc] == CountKept(remove[..], pc)
  {
    hide CountKept;
    m := new int[total + 1];
    var nc := 0;
    ghost var marks := remove[..];
    CountStep(marks, 0);
    for pc := 0 to total
      invariant nc == CountKept(marks, pc)
      invariant forall k :: 0 <= k < pc ==> m[k] == CountKept(marks, k)
    {
      CountStep(marks, pc);
      m[pc] := nc;
      if !remove[pc] { nc := nc + 1; }
    }
    m[total] := nc;
  }

  function Unmarked(remove: seq<bool>): nat { CountKept(remove, |remove|) }

  lemma {:induction false} MarkingShrinks(a: seq<bool>, b: seq<bool>, n: nat)
    requires |a| == |b| && n <= |a|
    requires forall k :: 0 <= k < n && a[k] ==> b[k]
    ensures CountKept(b, n) <= CountKept(a, n)
    ensures (exists k :: 0 <= k < n && b[k] && !a[k]) ==> CountKept(b, n) < CountKept(a, n)
    decreases n
  {
    if n > 0 { MarkingShrinks(a, b, n - 1); }
  }

  /** One sweep of the marking loop; the map is not refreshed while marks are added. */
  method MarkPass(ch: BytecodeChunk, remove: array<bool>) returns (changed: bool)
    requires ch.Valid() && remove.Length == ch.codeCount && Marked(ch.code[..ch.codeCount], remove[..])
    modifies remove
    ensures Marked(ch.code[..ch.codeCount], remove[..])
    ensures forall k :: 0 <= k < remove.Length && old(remove[k]) ==> remove[k]
    ensures changed ==> exists k :: 0 <= k < remove.Length && remove[k] && !old(remove[k])
    ensures !changed ==> forall pc :: 0 <= pc < remove.Length ==> remove[pc] == Removable(ch.code[..ch.codeCount], pc)
  {
    hide Removable, CountKept;
    changed := false;
    var total := ch.codeCount;
    ghost var code, was := ch.code[..total], remove[..];
    var tmpMap := BuildMap(remove, total);
    for pc := 0 to total
      invariant ch.code[..total] == code && ch.codeCount == total && was == old(remove[..])
      invariant forall k :: 0 <= k <= total ==> tmpMap[k] == CountKept(was, k)
      invariant Marked(code, remove[..])
      invariant forall k :: 0 <= k < total && was[k] ==> remove[k]
      invariant !changed ==> remove[..] == was
      invariant changed ==> exists k :: 0 <= k < total && remove[k] && !was[k]
      invariant !changed ==> forall k :: 0 <= k < pc && !was[k] && code[k].op.JUMP? && 0 <= code[k].a <= total
                               ==> CountKept(was, code[k].a) != CountKept(was, k) + 1
    {
      if remove[pc] { continue; }
      var i := ch.code[pc];
      if !i.op.JUMP? { continue; }
      var t := i.a;
      if t < 0 || t > total { continue; }
      if tmpMap[t] == tmpMap[pc] + 1 {
        assert code[pc] == i;
        JumpJustified(code, was, pc);
        remove[pc] := true;
        assert remove[pc] && !was[pc];
        changed := true;
      }
    }
    if !changed {
      forall pc | 0 <= pc < total ensures remove[pc] == Removable(code, pc) { StableMarks(code, remove[..], pc); }
    }
  }

  /** Passes 1 and 2: mark until nothing changes. */
  method MarkRemovable(ch: BytecodeChunk) returns (remove: array<bool>)
    requires ch.Valid()
    ensures fresh(remove) && remove.Length == ch.codeCount
    ensures forall pc :: 0 <= pc < ch.codeCount ==> remove[pc] == Removable(ch.code[..ch.codeCount], pc)
  {
    var total := ch.codeCount;
    remove := new bool[total](_ => false);
    for pc := 0 to total
      invariant forall k :: 0 <= k < total ==> remove[k] == (k < pc && IsNop(ch.code[k]))
    {
      if IsNop(ch.code[pc]) { remove[pc] := true; }
    }
    var changed := true;
    while changed
      invariant Marked(ch.code[..total], remove[..])
      invariant !changed ==> forall pc :: 0 <= pc < total ==> remove[pc] == Removable(ch.code[..total], pc)
      decreases changed, Unmarked(remove[..])
    {
      ghost var was := remove[..];
      changed := MarkPass(ch, remove);
      if changed { MarkingShrinks(was, remove[..], total); }
    }
  }

  function Remap(m: seq<int>, pc: int): int {
    if 0 <= pc < |m| then m[pc] else pc
  }

  /** Pass 3: shift the kept instructions down, recording where every address went. */
  method ShiftKept(ch: BytecodeChunk, remove: array<bool>) returns (m: array<int>)
    requires ch.Valid() && remove.Length == ch.codeCount
    requires forall pc :: 0 <= pc < ch.codeCount ==> remove[pc] == Removable(ch.code[..ch.codeCount], pc)
    modifies ch.code, ch`codeCount
    ensures ch.Valid() && fresh(m) && ch.code[..ch.codeCount] == Kept(old(ch.code[..ch.codeCount]), old(ch.codeCount))
    ensures m.Length == old(ch.codeCount) + 1
    ensures forall pc :: 0 <= pc < m.Length ==> m[pc] == NewPc(old(ch.code[..ch.codeCount]), pc)
  {
    hide Removable, Kept, NewPc;
    var total := ch.codeCount;
    ghost var code := ch.code[..total];
    m := new int[total + 1];
    var newCount := 0;
    KeptNone(code);
    for pc := 0 to total
      invariant ch.codeCount == total && newCount == NewPc(code, pc) <= pc
      invariant ch.code[..newCount] == Kept(code, pc)
      invariant forall k :: pc <= k < total ==> ch.code[k] == code[k]
      invariant forall k :: 0 <= k < pc ==> m[k] == NewPc(code, k)
      invariant forall k :: 0 <= k < total ==> remove[k] == Removable(code, k)
    {
      m[pc] := newCount;
      KeptStep(code, pc);
      if remove[pc] { continue; }
      if newCount != pc { ch.code[newCount] := ch.code[pc]; }
      newCount := newCount + 1;
      assert ch.code[..newCount] == ch.code[..newCount - 1] + [code[pc]];
    }
    m[total] := newCount;
    ch.codeCount := newCount;
  }

  lemma KeptNone(code: seq<Instruction>)
    ensures NewPc(code, 0) == 0 && Kept(code, 0) == []
  {
  }

  lemma KeptStep(code: seq<Instruction>, pc: nat)
    requires pc < |code|
    ensures NewPc(code, pc + 1) == NewPc(code, pc) + (if Removable(code, pc) then 0 else 1)
    ensures Kept(code, pc + 1) == if Removable(code, pc) then Kept(code, pc) else Kept(code, pc) + [code[pc]]
  {
  }

  method RemapSeq(m: array<int>, xs: seq<int>) returns (ys: seq<int>)
    ensures |ys| == |xs| && forall j :: 0 <= j < |xs| ==> ys[j] == Remap(m[..], xs[j])
  {
    ys := xs;
    for j := 0 to |xs|
      invariant |ys| == |xs|
      invariant forall k :: 0 <= k < |xs| ==> ys[k] == if k < j then Remap(m[..], xs[k]) else xs[k]
    {
      if xs[j] >= 0 && xs[j] < m.Length { ys := ys[j := m[xs[j]]]; }
    }
  }

  method RemapStr(m: array<int>, es: seq<StringSwitchEntry>) returns (fs: seq<StringSwitchEntry>)
    ensures |fs| == |es| && forall j :: 0 <= j < |es| ==> fs[j] == es[j].(target := Remap(m[..], es[j].target))
  {
    fs := es;
    for j := 0 to |es|
      invariant |fs| == |es|
      invariant forall k :: 0 <= k < |es| ==>
                  fs[k] == if k < j then es[k].(target := Remap(m[..], es[k].target)) else es[k]
    {
      var t := es[j].target;
      if t >= 0 && t < m.Length { fs := fs[j := es[j].(target := m[t])]; }
    }
  }

  method RemapNum(m: array<int>, es: seq<NumSwitchEntry>) returns (fs: seq<NumSwitchEntry>)
    ensures |fs| == |es| && forall j :: 0 <= j < |es| ==> fs[j] == es[j].(target := Remap(m[..], es[j].target))
  {
    fs := es;
    for j := 0 to |es|
      invariant |fs| == |es|
      invariant forall k :: 0 <= k < |es| ==>
                  fs[k] == if k < j then es[k].(target := Remap(m[..], es[k].target)) else es[k]
    {
      var t := es[j].target;
      if t >= 0 && t < m.Length { fs := fs[j := es[j].(target := m[t])]; }
    }
  }

  ghost predicate IsMap(code: seq<Instruction>, m: seq<int>) {
    |m| == |code| + 1 && forall pc :: 0 <= pc <= |code| ==> m[pc] == NewPc(code, pc)
  }

  method RemapCode(ch: BytecodeChunk, m: array<int>, ghost code: seq<Instruction>)
    requires ch.Valid() && IsMap(code, m[..])
    modifies ch.code
    ensures forall k :: 0 <= k < ch.codeCount ==> ch.code[k] == RemapInstruction(code, old(ch.code[k]))
  {
    for pc := 0 to ch.codeCount
      invariant IsMap(code, m[..])
      invariant forall k :: 0 <= k < pc ==> ch.code[k] == RemapInstruction(code, old(ch.code[k]))
      invariant forall k :: pc <= k < ch.codeCount ==> ch.code[k] == old(ch.code[k])
    {
      var i := ch.code[pc];
      if HasPcInOp0(i.op) {
        if i.a >= 0 && i.a < m.Length { ch.code[pc] := i.(a := m[i.a]); }
      }
      if i.op.FOR_NEXT? || i.op.FOR_NEXT_LOOP? {
        if i.b >= 0 && i.b < m.Length { ch.code[pc] := i.(b := m[i.b]); }
      }
      if i.op.TABLE_ITER_NEXT? {
        if i.c >= 0 && i.c < m.Length { ch.code[pc] := i.(c := m[i.c]); }
      }
    }
  }

  method RemapFunctions(ch: BytecodeChunk, m: array<int>, ghost code: seq<Instruction>)
    requires ch.Valid() && IsMap(code, m[..])
    modifies ch.functions
    ensures forall k :: 0 <= k < ch.funcCount ==> ch.functions[k] == RemapFunction(code, old(ch.functions[k]))
  {
    for f := 0 to ch.funcCount
      invariant forall k :: 0 <= k < f ==> ch.functions[k] == RemapFunction(code, old(ch.functions[k]))
      invariant forall k :: f <= k < ch.funcCount ==> ch.functions[k] == old(ch.functions[k])
    {
      var address := ch.functions[f].address;
      if address >= 0 && address < m.Length { ch.functions[f] := ch.functions[f].(address := m[address]); }
    }
  }

  method RemapConstants(ch: BytecodeChunk, m: array<int>, ghost code: seq<Instruction>)
    requires ch.Valid() && IsMap(code, m[..])
    modifies ch.constants
    ensures forall k :: 0 <= k < ch.constCount ==> ch.constants[k] == RemapConstant(code, old(ch.constants[k]))
  {
    for k := 0 to ch.constCount
      invariant forall j :: 0 <= j < k ==> ch.constants[j] == RemapConstant(code, old(ch.constants[j]))
      invariant forall j :: k <= j < ch.constCount ==> ch.constants[j] == old(ch.constants[j])
    {
      match ch.constants[k] {
        case JumpTable(addrs) =>
          var addrs' := RemapSeq(m, addrs);
          assert addrs' == RemapAddresses(code, addrs);
          ch.constants[k] := JumpTable(addrs');
        case StrSwitch(addend, es, t) =>
          var es' := RemapStr(m, es);
          assert es' == RemapStrEntries(code, es);
          ch.constants[k] := StrSwitch(addend, es', if t >= 0 && t < m.Length then m[t] else t);
        case NumSwitch(addend, es, t) =>
          var es' := RemapNum(m, es);
          assert es' == RemapNumEntries(code, es);
          ch.constants[k] := NumSwitch(addend, es', if t >= 0 && t < m.Length then m[t] else t);
        case _ =>
      }
    }
  }

  /** The whole pass, in place. */
  method CompactBytecode(ch: BytecodeChunk)
    requires ch.Valid()
    modifies ch`codeCount, ch.code, ch.functions, ch.constants
    ensures ch.Valid() && ch.Value() == Compact(old(ch.Value()))
  {
    ghost var p := ch.Value();
    if ch.codeCount == 0 { NothingToCompact(p); return; }
    var remove := MarkRemovable(ch);
    var m := ShiftKept(ch, remove);
    RemapCode(ch, m, p.code);
    RemapFunctions(ch, m, p.code);
    RemapConstants(ch, m, p.code);
    assert ch.Value() == Compact(p);
  }

  lemma NothingToCompact(p: Program)
    requires p.code == []
    ensures Compact(p) == p
  {
    forall pc: int ensures MapPc(p.code, pc) == pc {}
    IdentityMap(p);
  }

  /** When no address moves, the pass rebuilds the program it was given. */
  lemma IdentityMap(p: Program)
    requires forall pc: int :: MapPc(p.code, pc) == pc
    requires Kept(p.code, |p.code|) == p.code
    ensures Compact(p) == p
  {
    var q := Compact(p);
    assert q.code == p.code;
    assert q.functions == p.functions;
    forall k | 0 <= k < |p.constants| ensures RemapConstant(p.code, p.constants[k]) == p.constants[k] {
      match p.constants[k]
      case JumpTable(xs) => assert RemapAddresses(p.code, xs) == xs;
      case StrSwitch(_, es, _) => assert RemapStrEntries(p.code, es) == es;
      case NumSwitch(_, es, _) => assert RemapNumEntries(p.code, es) == es;
      case _ =>
    }
    assert q.constants == p.constants;
  }

  // ----- a second run changes nothing -----

  lemma {:induction false} NothingLeft(p: Program, k: nat)
    requires k < |Compact(p).code|
    ensures !Removable(Compact(p).code, k)
    decreases |Compact(p).code| - k
  {
    var q := Compact(p).code;
    var pc := KeptFrom(p.code, k, |p.code|);
    if Removable(q, k) {
      var t := p.code[pc].a;
      if k + 1 < q[k].a { NothingLeft(p, k + 1); }
      assert q[k].a == k + 1 == MapPc(p.code, t);
      NewPcMonotone(p.code, 0, |p.code|);
      assert 0 <= t <= |p.code|;
      if t <= pc {
        NewPcMonotone(p.code, t, pc);
      } else {
        KeptStep(p.code, pc);
        SameNewPc(p.code, pc + 1, t);
        assert forall j :: pc < j < t ==> Removable(p.code, j);
      }
      assert false;
    }
  }

  /** In other words: no MOVE of a register to itself and no jump to the next instruction. */
  lemma CompactedTight(p: Program, k: nat)
    requires k < |Compact(p).code|
    ensures var i := Compact(p).code[k];
            !(i.op == MOVE && i.a == i.b) && !(i.op == JUMP && i.a == k + 1)
  {
    NothingLeft(p, k);
  }

  /** The instructions that are kept stay in order, unchanged but for the address they carry, by opcode; a
    * function entry changes its address only. */
  lemma KeptInOrder(p: Program, pc: nat)
    requires pc < |p.code| && !Removable(p.code, pc)
    ensures NewPc(p.code, pc) < |Compact(p).code|
    ensures var i, j := p.code[pc], Compact(p).code[NewPc(p.code, pc)];
            if JumpsByA(i.op) then j == i.(a := MapPc(p.code, i.a))
            else if i.op == FOR_NEXT || i.op == FOR_NEXT_LOOP then j == i.(b := MapPc(p.code, i.b))
            else if i.op == TABLE_ITER_NEXT then j == i.(c := MapPc(p.code, i.c)) else j == i
    ensures |Compact(p).functions| == |p.functions| && forall f :: 0 <= f < |p.functions| ==>
              Compact(p).functions[f] == p.functions[f].(address := MapPc(p.code, p.functions[f].address))
  {
    hide Removable;
    KeptAt(p.code, pc, |p.code|);
  }

  lemma {:induction false} AllKept(code: seq<Instruction>, pc: nat)
    requires pc <= |code| && forall k :: 0 <= k < |code| ==> !Removable(code, k)
    ensures NewPc(code, pc) == pc && Kept(code, pc) == code[..pc]
    decreases pc
  {
    if pc > 0 { AllKept(code, pc - 1); }
  }

  lemma CompactIdempotent(p: Program)
    ensures Compact(Compact(p)) == Compact(p)
  {
    var q := Compact(p);
    forall k | 0 <= k < |q.code| ensures !Removable(q.code, k) { NothingLeft(p, k); }
    forall pc: int ensures MapPc(q.code, pc) == pc {
      if 0 <= pc <= |q.code| { AllKept(q.code, pc); }
    }
    AllKept(q.code, |q.code|);
    IdentityMap(q);
  }

  // ----- runs -----

  /** A state of the original, seen in the compacted program. */
  function MapState(code: seq<Instruction>, s: State): State {
    State(MapPc(code, s.pc), seq(|s.rets|, k requires 0 <= k < |s.rets| => MapPc(code, s.rets[k])), s.data)
  }

  lemma {:induction false} DenoteCompact(p: Program, k: int, depth: nat)
    ensures Denote(Compact(p), k, depth) == Denote(p, k, depth)
    decreases depth, 0
  {
    var q := Compact(p);
    if depth > 0 && 0 <= k < |p.constants| {
      assert q.constants[k] == RemapConstant(p.code, p.constants[k]);
      match p.constants[k]
      case Table(items, keys, vals, _) =>
        DenoteAllCompact(p, items, depth - 1);
        DenoteAllCompact(p, keys, depth - 1);
        DenoteAllCompact(p, vals, depth - 1);
      case StrSwitch(_, es, _) =>
        forall j | 0 <= j < |es|
          ensures Denote(q, es[j].caseConst, depth - 1) == Denote(p, es[j].caseConst, depth - 1)
        {
          DenoteCompact(p, es[j].caseConst, depth - 1);
        }
        assert Denote(q, k, depth).strSlots == Denote(p, k, depth).strSlots;
      case NumSwitch(_, es, _) =>
        assert Denote(q, k, depth).numSlots == Denote(p, k, depth).numSlots;
      case _ =>
    }
  }

  lemma {:induction false} DenoteAllCompact(p: Program, ks: seq<int>, depth: nat)
    ensures DenoteAll(Compact(p), ks, depth) == DenoteAll(p, ks, depth)
    decreases depth, 1
  {
    forall j | 0 <= j < |ks| ensures Denote(Compact(p), ks[j], depth) == Denote(p, ks[j], depth) {
      DenoteCompact(p, ks[j], depth);
    }
  }

  lemma ViewCompact(p: Program, i: Instruction, depth: nat)
    ensures ViewOf(Compact(p), RemapInstruction(p.code, i), depth) == ViewOf(p, i, depth)
    ensures PoolOperand(RemapInstruction(p.code, i)) == PoolOperand(i)
    ensures HasPc(i.op) ==> PcOperand(RemapInstruction(p.code, i)) == MapPc(p.code, PcOperand(i))
    ensures IsDirectCall(i.op) ==> RemapInstruction(p.code, i) == i
  {
    SameFunctions(p);
    hide Denote, Compact, MapPc;
    if HasPool(i.op) { DenoteCompact(p, PoolOperand(i), depth); }
  }

  lemma SameFunctions(p: Program)
    ensures |Compact(p).functions| == |p.functions|
    ensures forall f :: 0 <= f < |p.functions| ==>
              Compact(p).functions[f].name == p.functions[f].name &&
              Compact(p).functions[f].arity == p.functions[f].arity
  {
  }

  lemma TargetsCompact(p: Program, k: int, j: int)
    ensures SlotTarget(Compact(p), k, j) == MapPc(p.code, SlotTarget(p, k, j))
    ensures DefaultTarget(Compact(p), k) == MapPc(p.code, DefaultTarget(p, k))
    ensures EntryTarget(Compact(p), k) == MapPc(p.code, EntryTarget(p, k))
  {
    if 0 <= k < |p.constants| { assert Compact(p).constants[k] == RemapConstant(p.code, p.constants[k]); }
  }

  /** A dropped instruction only moves the pc, forward, to an address with the same image. */
  lemma DroppedStep(I: Interp, p: Program, s: State)
    requires s.data.status.Running? && InCode(p, s.pc) && Removable(p.code, s.pc)
    ensures s.pc < Step(I, p, s).pc <= |p.code|
    ensures Step(I, p, s) == s.(pc := Step(I, p, s).pc)
    ensures MapState(p.code, Step(I, p, s)) == MapState(p.code, s)
  {
    var i := p.code[s.pc];
    if IsNop(i) {
      assert CopyReg(s.data.regs, i.a, i.a) == s.data.regs;
      SameNewPc(p.code, s.pc, s.pc + 1);
    } else {
      SameNewPc(p.code, s.pc, i.a);
    }
  }

  /** Every other step of the original is one step of the compacted program. */
  lemma KeptStepMatches(I: Interp, p: Program, s: State)
    requires s.data.status.Running? && InCode(p, s.pc) ==> !Removable(p.code, s.pc)
    ensures Step(I, Compact(p), MapState(p.code, s)) == MapState(p.code, Step(I, p, s))
  {
    hide Exec, Removable;
    var q, t := Compact(p), MapState(p.code, s);
    NewPcMonotone(p.code, 0, |p.code|);
    if s.data.status.Running? && InCode(p, s.pc) {
      var i := p.code[s.pc];
      KeptAt(p.code, s.pc, |p.code|);
      KeptStep(p.code, s.pc);
      assert q.code[t.pc] == RemapInstruction(p.code, i);
      ViewCompact(p, i, I.depth);
      var v := ViewOf(p, i, I.depth);
      var o := Exec(I, v, s.data);
      ExecPlaces(I, v, s.data);
      AdvanceCompact(p, i, s, o);
    }
  }

  lemma AdvanceCompact(p: Program, i: Instruction, s: State, o: Outcome)
    requires InCode(p, s.pc) && NewPc(p.code, s.pc + 1) == NewPc(p.code, s.pc) + 1
    requires o.place.Enter? ==> IsDirectCall(i.op)
    requires o.place.Taken? ==> HasPc(i.op)
    ensures Advance(Compact(p), RemapInstruction(p.code, i), MapState(p.code, s), o) ==
            MapState(p.code, Advance(p, i, s, o))
  {
    hide Removable, Compact;
    ViewCompact(p, i, 0);
    match o.place
    case Slot(k) => TargetsCompact(p, PoolOperand(i), k);
    case Default => TargetsCompact(p, PoolOperand(i), 0);
    case Enter => TargetsCompact(p, i.b, 0);
    case _ =>
  }

  lemma {:induction false} CompactForward(I: Interp, p: Program, s: State, n: nat) returns (m: nat)
    ensures m <= n && Run(I, Compact(p), MapState(p.code, s), m) == MapState(p.code, Run(I, p, s, n))
    decreases n
  {
    hide Step, Removable, Compact, MapState;
    if n == 0 { m := 0; } else {
      m := CompactForward(I, p, Step(I, p, s), n - 1);
      if s.data.status.Running? && InCode(p, s.pc) && Removable(p.code, s.pc) {
        DroppedStep(I, p, s);
      } else {
        KeptStepMatches(I, p, s);
        m := m + 1;
      }
    }
  }

  /** Dropped instructions cannot be run forever: a kept one, or the end, is reached. */
  lemma {:induction false} SkipDropped(I: Interp, p: Program, s: State) returns (n: nat)
    ensures MapState(p.code, Run(I, p, s, n)) == MapState(p.code, s)
    ensures var t := Run(I, p, s, n); t.data.status.Running? && InCode(p, t.pc) ==> !Removable(p.code, t.pc)
    decreases |p.code| - s.pc
  {
    n := 0;
    if s.data.status.Running? && InCode(p, s.pc) && Removable(p.code, s.pc) {
      DroppedStep(I, p, s);
      var m := SkipDropped(I, p, Step(I, p, s));
      n := m + 1;
    }
  }

  lemma {:induction false} CompactBackward(I: Interp, p: Program, s: State, m: nat) returns (n: nat)
    ensures n >= m && Run(I, Compact(p), MapState(p.code, s), m) == MapState(p.code, Run(I, p, s, n))
    decreases m
  {
    hide Step, Removable, Compact, MapState;
    if m == 0 { n := 0; } else {
      var k := SkipDropped(I, p, s);
      var t := Run(I, p, s, k);
      KeptStepMatches(I, p, t);
      var r := CompactBackward(I, p, Step(I, p, t), m - 1);
      RunAdd(I, p, s, k, r + 1);
      assert Run(I, p, t, r + 1) == Run(I, p, Step(I, p, t), r);
      n := k + r + 1;
    }
  }

  /** Compaction preserves every run of every program: stopping states correspond both ways under
    * the address map, return addresses included, and so do the states of unending runs. */
  lemma CompactionPreservesRuns(I: Interp, p: Program, s: State, g: State)
    ensures StopsIn(I, Compact(p), MapState(p.code, s), g) <==>
            exists f :: StopsIn(I, p, s, f) && g == MapState(p.code, f)
  {
    hide Run, Compact, MapPc;
    var q, t := Compact(p), MapState(p.code, s);
    if StopsIn(I, q, t, g) {
      var m: nat :| Run(I, q, t, m) == g && Stopped(g);
      var n := CompactBackward(I, p, s, m);
      assert StopsIn(I, p, s, Run(I, p, s, n));
    }
    if f :| StopsIn(I, p, s, f) && g == MapState(p.code, f) {
      var n: nat :| Run(I, p, s, n) == f && Stopped(f);
      var m := CompactForward(I, p, s, n);
    }
  }
}
