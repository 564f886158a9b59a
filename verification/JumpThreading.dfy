/** Jump threading: source/compiler/opt_jump_targets.c, thread_target and thread_jumps. */
module JumpThreading {
  import opened Bytecode
  import opened Machine
  import opened Chunk

  const MAX_HOPS := 32

  /** Follow at most `hops` unconditional jumps; a zero operand is an unpatched placeholder. */
  function ThreadTarget(code: seq<Instruction>, target: int, hops: nat): int
    decreases hops
  {
    if hops == 0 || !(0 <= target < |code|) || !code[target].op.JUMP? then target
    else
      var next := code[target].a;
      if next == 0 || next == target then target else ThreadTarget(code, next, hops - 1)
  }

  function ThreadInstruction(code: seq<Instruction>, i: Instruction): Instruction {
    if HasPc(i.op) then WithPc(i, ThreadTarget(code, PcOperand(i), MAX_HOPS)) else i
  }

  /** Instructions from pc on are rewritten one after the other, each reading the code as the
    * earlier rewrites left it. */
  function ThreadCode(code: seq<Instruction>, pc: nat): (r: seq<Instruction>)
    requires pc <= |code|
    ensures |r| == |code|
    decreases |code| - pc
  {
    if pc == |code| then code
    else ThreadCode(code[pc := ThreadInstruction(code, code[pc])], pc + 1)
  }

  function ThreadAddresses(code: seq<Instruction>, addrs: seq<int>): seq<int> {
    seq(|addrs|, j requires 0 <= j < |addrs| => ThreadTarget(code, addrs[j], MAX_HOPS))
  }

  function ThreadStrEntries(code: seq<Instruction>, es: seq<StringSwitchEntry>): seq<StringSwitchEntry> {
    seq(|es|, j requires 0 <= j < |es| => es[j].(target := ThreadTarget(code, es[j].target, MAX_HOPS)))
  }

  function ThreadNumEntries(code: seq<Instruction>, es: seq<NumSwitchEntry>): seq<NumSwitchEntry> {
    seq(|es|, j requires 0 <= j < |es| => es[j].(target := ThreadTarget(code, es[j].target, MAX_HOPS)))
  }

  function ThreadConstant(code: seq<Instruction>, c: Constant): Constant {
    match c
    case JumpTable(addrs) => JumpTable(ThreadAddresses(code, addrs))
    case StrSwitch(addend, es, t) => StrSwitch(addend, ThreadStrEntries(code, es), ThreadTarget(code, t, MAX_HOPS))
    case NumSwitch(addend, es, t) => NumSwitch(addend, ThreadNumEntries(code, es), ThreadTarget(code, t, MAX_HOPS))
    case _ => c
  }

  function ThreadConstants(code: seq<Instruction>, cs: seq<Constant>): seq<Constant> {
    seq(|cs|, k requires 0 <= k < |cs| => ThreadConstant(code, cs[k]))
  }

  function Thread(p: Program): Program {
    var code := ThreadCode(p.code, 0);
    Program(code, p.functions, ThreadConstants(code, p.constants))
  }

  // ----- the pass itself -----

  method FollowJumps(ch: BytecodeChunk, target: int) returns (t: int)
    requires ch.Valid()
    ensures t == ThreadTarget(ch.code[..ch.codeCount], target, MAX_HOPS)
  {
    t := target;
    for hop := 0 to MAX_HOPS
      invariant ThreadTarget(ch.code[..ch.codeCount], t, MAX_HOPS - hop) ==
                ThreadTarget(ch.code[..ch.codeCount], target, MAX_HOPS)
    {
      if t < 0 || t >= ch.codeCount { break; }
      if !ch.code[t].op.JUMP? { break; }
      var next := ch.code[t].a;
      if next == 0 || next == t { break; }
      t := next;
    }
  }

  method FollowAll(ch: BytecodeChunk, old_: seq<int>) returns (addrs: seq<int>)
    requires ch.Valid()
    ensures addrs == ThreadAddresses(ch.code[..ch.codeCount], old_)
  {
    addrs := old_;
    for j := 0 to |old_|
      invariant |addrs| == |old_|
      invariant forall k :: 0 <= k < j ==> addrs[k] == ThreadTarget(ch.code[..ch.codeCount], old_[k], MAX_HOPS)
      invariant forall k :: j <= k < |old_| ==> addrs[k] == old_[k]
    {
      if addrs[j] < 0 || addrs[j] >= ch.codeCount { continue; }
      var t := FollowJumps(ch, addrs[j]);
      addrs := addrs[j := t];
    }
  }

  method FollowStrEntries(ch: BytecodeChunk, old_: seq<StringSwitchEntry>) returns (es: seq<StringSwitchEntry>)
    requires ch.Valid()
    ensures es == ThreadStrEntries(ch.code[..ch.codeCount], old_)
  {
    es := old_;
    for j := 0 to |old_|
      invariant |es| == |old_|
      invariant forall k :: 0 <= k < j ==>
                  es[k] == old_[k].(target := ThreadTarget(ch.code[..ch.codeCount], old_[k].target, MAX_HOPS))
      invariant forall k :: j <= k < |old_| ==> es[k] == old_[k]
    {
      if es[j].target < 0 || es[j].target >= ch.codeCount { continue; }
      var t := FollowJumps(ch, es[j].target);
      es := es[j := es[j].(target := t)];
    }
  }

  method FollowNumEntries(ch: BytecodeChunk, old_: seq<NumSwitchEntry>) returns (es: seq<NumSwitchEntry>)
    requires ch.Valid()
    ensures es == ThreadNumEntries(ch.code[..ch.codeCount], old_)
  {
    es := old_;
    for j := 0 to |old_|
      invariant |es| == |old_|
      invariant forall k :: 0 <= k < j ==>
                  es[k] == old_[k].(target := ThreadTarget(ch.code[..ch.codeCount], old_[k].target, MAX_HOPS))
      invariant forall k :: j <= k < |old_| ==> es[k] == old_[k]
    {
      if es[j].target < 0 || es[j].target >= ch.codeCount { continue; }
      var t := FollowJumps(ch, es[j].target);
      es := es[j := es[j].(target := t)];
    }
  }

  /** Retarget every jump; the code array is updated while it is being read. */
  method RetargetCode(ch: BytecodeChunk)
    requires ch.Valid() && ch.code != ch.constants as object && ch.code != ch.functions as object
    modifies ch.code
    ensures ch.Valid() && ch.Value() == old(ch.Value()).(code := ThreadCode(old(ch.Value()).code, 0))
  {
    ghost var before := ch.Value();
    var n := ch.codeCount;
    for pc := 0 to n
      invariant ch.Valid() && |before.code| == n
      invariant ThreadCode(ch.code[..n], pc) == ThreadCode(before.code, 0)
      invariant ch.functions[..ch.funcCount] == before.functions && ch.constants[..ch.constCount] == before.constants
    {
      var i := ch.code[pc];
      if HasPc(i.op) {
        var t := FollowJumps(ch, PcOperand(i));
        ghost var was := ch.code[..n];
        if t != PcOperand(i) { ch.code[pc] := WithPc(i, t); }
        assert ch.code[..n] == was[pc := WithPc(i, t)];
      } else {
        assert ch.code[..n] == ch.code[..n][pc := i];
      }
    }
  }

  /** Then every table. */
  method RetargetTables(ch: BytecodeChunk)
    requires ch.Valid() && ch.code != ch.constants as object && ch.functions != ch.constants as object
    modifies ch.constants
    ensures ch.Valid()
    ensures ch.Value() == old(ch.Value()).(constants := ThreadConstants(ch.Value().code, old(ch.Value()).constants))
  {
    ghost var before := ch.Value();
    for k := 0 to ch.constCount
      invariant ch.Valid() && ch.code[..ch.codeCount] == before.code && ch.functions[..ch.funcCount] == before.functions
      invariant forall j :: 0 <= j < k ==> ch.constants[j] == ThreadConstant(before.code, before.constants[j])
      invariant forall j :: k <= j < ch.constCount ==> ch.constants[j] == before.constants[j]
    {
      match ch.constants[k] {
        case JumpTable(addrs) =>
          var addrs' := FollowAll(ch, addrs);
          ch.constants[k] := JumpTable(addrs');
        case StrSwitch(addend, es, t) =>
          var es' := FollowStrEntries(ch, es);
          var t' := FollowJumps(ch, t);
          ch.constants[k] := StrSwitch(addend, es', t');
        case NumSwitch(addend, es, t) =>
          var es' := FollowNumEntries(ch, es);
          var t' := FollowJumps(ch, t);
          ch.constants[k] := NumSwitch(addend, es', t');
        case _ =>
      }
    }
    assert ch.constants[..ch.constCount] == ThreadConstants(before.code, before.constants);
  }

  method ThreadJumps(ch: BytecodeChunk)
    requires ch.Valid()
    modifies ch.code, ch.constants
    ensures ch.Valid() && ch.Value() == Thread(old(ch.Value()))
  {
    RetargetCode(ch);
    RetargetTables(ch);
  }

  // ----- every new target is reached from the old one by unconditional jumps of the original code -----

  /** y is n unconditional jumps after x. */
  predicate Reaches(code: seq<Instruction>, x: int, y: int, n: nat)
    decreases n
  {
    if n == 0 then x == y else 0 <= x < |code| && code[x].op.JUMP? && Reaches(code, code[x].a, y, n - 1)
  }

  ghost predicate ByJumps(code: seq<Instruction>, x: int, y: int) {
    exists n: nat :: Reaches(code, x, y, n)
  }

  lemma {:induction false} ReachesTransitive(code: seq<Instruction>, x: int, y: int, z: int, m: nat, n: nat)
    requires Reaches(code, x, y, m) && Reaches(code, y, z, n)
    ensures Reaches(code, x, z, m + n)
    decreases m
  {
    if m > 0 { ReachesTransitive(code, code[x].a, y, z, m - 1, n); }
  }

  lemma ByJumpsTransitive(code: seq<Instruction>, x: int, y: int, z: int)
    requires ByJumps(code, x, y) && ByJumps(code, y, z)
    ensures ByJumps(code, x, z)
  {
    var m: nat :| Reaches(code, x, y, m);
    var n: nat :| Reaches(code, y, z, n);
    ReachesTransitive(code, x, y, z, m, n);
  }

  lemma ByJumpsRefl(code: seq<Instruction>, x: int)
    ensures ByJumps(code, x, x)
  {
    assert Reaches(code, x, x, 0);
  }

  /** i' is i with its address moved forward along jumps of `code`. */
  ghost predicate Retargeted(code: seq<Instruction>, i: Instruction, i': Instruction) {
    i' == WithPc(i, PcOperand(i')) && ByJumps(code, PcOperand(i), PcOperand(i'))
  }

  ghost predicate CodeRetargeted(code: seq<Instruction>, code': seq<Instruction>) {
    |code'| == |code| && forall k :: 0 <= k < |code| ==> Retargeted(code, code[k], code'[k])
  }

  /** Following jumps in partly rewritten code stays on jump chains of the original code. */
  lemma {:induction false} ThreadTargetReaches(orig: seq<Instruction>, code: seq<Instruction>, target: int, hops: nat)
    requires CodeRetargeted(orig, code)
    ensures ByJumps(orig, target, ThreadTarget(code, target, hops))
    decreases hops
  {
    ByJumpsRefl(orig, target);
    if hops > 0 && 0 <= target < |code| && code[target].op.JUMP? {
      var next := code[target].a;
      if next != 0 && next != target {
        assert Retargeted(orig, orig[target], code[target]);
        var m: nat :| Reaches(orig, orig[target].a, next, m);
        assert Reaches(orig, target, next, m + 1);
        ThreadTargetReaches(orig, code, next, hops - 1);
        ByJumpsTransitive(orig, target, next, ThreadTarget(code, target, hops));
      }
    }
  }

  lemma {:induction false} ThreadCodeRetargets(orig: seq<Instruction>, code: seq<Instruction>, pc: nat)
    requires CodeRetargeted(orig, code) && pc <= |code|
    ensures CodeRetargeted(orig, ThreadCode(code, pc))
    decreases |code| - pc
  {
    hide Retargeted, ThreadInstruction;
    if pc < |code| {
      ThreadInstructionRetargets(orig, code, orig[pc], code[pc]);
      ThreadCodeRetargets(orig, code[pc := ThreadInstruction(code, code[pc])], pc + 1);
    }
  }

  lemma ThreadInstructionRetargets(orig: seq<Instruction>, code: seq<Instruction>, i: Instruction, i': Instruction)
    requires CodeRetargeted(orig, code) && Retargeted(orig, i, i')
    ensures Retargeted(orig, i, ThreadInstruction(code, i'))
  {
    hide ByJumps, ThreadTarget;
    if HasPc(i'.op) {
      ThreadTargetReaches(orig, code, PcOperand(i'), MAX_HOPS);
      ByJumpsTransitive(orig, PcOperand(i), PcOperand(i'), ThreadTarget(code, PcOperand(i'), MAX_HOPS));
    }
  }

  ghost predicate ConstantRetargeted(code: seq<Instruction>, c: Constant, c': Constant) {
    match (c, c')
    case (JumpTable(xs), JumpTable(ys)) =>
      |xs| == |ys| && forall j :: 0 <= j < |xs| ==> ByJumps(code, xs[j], ys[j])
    case (StrSwitch(a, xs, d), StrSwitch(b, ys, e)) =>
      a == b && |xs| == |ys| && ByJumps(code, d, e) &&
      forall j :: 0 <= j < |xs| ==> ys[j] == xs[j].(target := ys[j].target) && ByJumps(code, xs[j].target, ys[j].target)
    case (NumSwitch(a, xs, d), NumSwitch(b, ys, e)) =>
      a == b && |xs| == |ys| && ByJumps(code, d, e) &&
      forall j :: 0 <= j < |xs| ==> ys[j] == xs[j].(target := ys[j].target) && ByJumps(code, xs[j].target, ys[j].target)
    case _ => c == c'
  }

  /** q is p with every code address moved forward along p's own unconditional jumps. */
  ghost predicate Threads(p: Program, q: Program) {
    CodeRetargeted(p.code, q.code) && q.functions == p.functions && |q.constants| == |p.constants| &&
    forall k :: 0 <= k < |p.constants| ==> ConstantRetargeted(p.code, p.constants[k], q.constants[k])
  }

  /** The in-place pass moves every address along jump chains of the code as it was before. */
  lemma ThreadThreads(p: Program)
    ensures Threads(p, Thread(p))
  {
    forall k | 0 <= k < |p.code| ensures Retargeted(p.code, p.code[k], p.code[k]) {
      ByJumpsRefl(p.code, PcOperand(p.code[k]));
    }
    ThreadCodeRetargets(p.code, p.code, 0);
    var code := ThreadCode(p.code, 0);
    forall t: int ensures ByJumps(p.code, t, ThreadTarget(code, t, MAX_HOPS)) {
      ThreadTargetReaches(p.code, code, t, MAX_HOPS);
    }
    forall k | 0 <= k < |p.constants|
      ensures ConstantRetargeted(p.code, p.constants[k], ThreadConstant(code, p.constants[k])) {
    }
  }

  // ----- nothing followable is left -----

  /** From x, n jumps lead to y, where no jump stands; none of them has the placeholder 0. */
  predicate EndsAt(code: seq<Instruction>, x: int, y: int, n: nat)
    decreases n
  {
    if n == 0 then x == y && !(0 <= y < |code| && code[y].op.JUMP?)
    else 0 <= x < |code| && code[x].op.JUMP? && code[x].a != 0 && EndsAt(code, code[x].a, y, n - 1)
  }

  /** A point further along a chain that ends has fewer jumps to go. */
  lemma {:induction false} EndsFurther(code: seq<Instruction>, x: int, y: int, n: nat, z: int, m: nat)
    requires EndsAt(code, x, y, n) && Reaches(code, x, z, m)
    ensures m <= n && EndsAt(code, z, y, n - m) && (m > 0 ==> z != 0 && z != x)
    decreases n
  {
    if m > 0 {
      EndsFurther(code, code[x].a, y, n - 1, z, m - 1);
      if z == x { EndsOnce(code, x, y, n, n - m); }
    }
  }

  lemma {:induction false} EndsOnce(code: seq<Instruction>, x: int, y: int, n: nat, n': nat)
    requires EndsAt(code, x, y, n) && EndsAt(code, x, y, n')
    ensures n == n'
    decreases n
  {
    if n > 0 && n' > 0 { EndsOnce(code, code[x].a, y, n - 1, n' - 1); }
  }

  /** Partly rewritten code is followed to the end of the original's chain. */
  lemma {:induction false} ThreadTargetEnds(orig: seq<Instruction>, code: seq<Instruction>, x: int, y: int, n: nat,
                                            hops: nat)
    requires CodeRetargeted(orig, code) && EndsAt(orig, x, y, n) && n <= hops
    ensures ThreadTarget(code, x, hops) == y
    decreases n
  {
    if 0 <= x < |orig| { assert Retargeted(orig, orig[x], code[x]); }
    if n > 0 {
      var next := code[x].a;
      var m: nat :| Reaches(orig, orig[x].a, next, m);
      assert Reaches(orig, x, next, m + 1);
      EndsFurther(orig, x, y, n, next, m + 1);
      ThreadTargetEnds(orig, code, next, y, n - m - 1, hops - 1);
    }
  }

  lemma {:induction false} ThreadCodeEnds(orig: seq<Instruction>, code: seq<Instruction>, pc: nat, k: nat, y: int,
                                          n: nat)
    requires CodeRetargeted(orig, code) && pc <= |code| && k < |code| && n <= 32 && HasPc(orig[k].op)
    requires if k < pc then code[k] == WithPc(orig[k], y)
             else code[k] == orig[k] && EndsAt(orig, PcOperand(orig[k]), y, n)
    ensures ThreadCode(code, pc)[k] == WithPc(orig[k], y)
    decreases |code| - pc
  {
    hide EndsAt, ThreadTarget, Retargeted;
    if pc < |code| {
      ThreadInstructionRetargets(orig, code, orig[pc], code[pc]) by {
        assert Retargeted(orig, orig[pc], code[pc]);
      }
      if k == pc { ThreadTargetEnds(orig, code, PcOperand(orig[k]), y, n, MAX_HOPS); }
      ThreadCodeEnds(orig, code[pc := ThreadInstruction(code, code[pc])], pc + 1, k, y, n);
    }
  }

  /** An address from which at most 32 jumps lead to something else than a jump is moved all the way there,
    * in the code and in every table, unless a placeholder stands on the way. */
  lemma ThreadedToEnd(p: Program, x: int, y: int, n: nat)
    requires EndsAt(p.code, x, y, n) && n <= 32
    ensures var q := Thread(p); |q.code| == |p.code| && |q.constants| == |p.constants|
    ensures forall k :: 0 <= k < |p.code| && HasPc(p.code[k].op) && BranchTarget(p.code[k]) == x ==>
              BranchTarget(Thread(p).code[k]) == y
    ensures forall k :: 0 <= k < |p.constants| ==> TableEnds(p.constants[k], Thread(p).constants[k], x, y)
  {
    hide EndsAt, ThreadTarget;
    forall k | 0 <= k < |p.code| ensures Retargeted(p.code, p.code[k], p.code[k]) {
      ByJumpsRefl(p.code, PcOperand(p.code[k]));
    }
    forall k | 0 <= k < |p.code| && HasPc(p.code[k].op) && BranchTarget(p.code[k]) == x
      ensures BranchTarget(Thread(p).code[k]) == y
    {
      ThreadCodeEnds(p.code, p.code, 0, k, y, n);
    }
    ThreadCodeRetargets(p.code, p.code, 0);
    ThreadTargetEnds(p.code, ThreadCode(p.code, 0), x, y, n, MAX_HOPS);
  }

  /** Wherever c leads to x, c' leads to y. */
  ghost predicate TableEnds(c: Constant, c': Constant, x: int, y: int) {
    match c
    case JumpTable(xs) =>
      c'.JumpTable? && |c'.addresses| == |xs| && forall j :: 0 <= j < |xs| && xs[j] == x ==> c'.addresses[j] == y
    case StrSwitch(_, es, t) =>
      c'.StrSwitch? && |c'.strEntries| == |es| && (t == x ==> c'.strDefault == y) &&
      forall j :: 0 <= j < |es| && es[j].target == x ==> c'.strEntries[j].target == y
    case NumSwitch(_, es, t) =>
      c'.NumSwitch? && |c'.numEntries| == |es| && (t == x ==> c'.numDefault == y) &&
      forall j :: 0 <= j < |es| && es[j].target == x ==> c'.numEntries[j].target == y
    case _ => true
  }

  // ----- runs -----

  /** Every unconditional jump has a non-negative operand, as the emitter leaves them. */
  predicate JumpsPatched(p: Program) {
    forall k :: 0 <= k < |p.code| && p.code[k].op.JUMP? ==> p.code[k].a >= 0
  }

  lemma {:induction false} ReachesKeepsSign(p: Program, x: int, y: int, n: nat)
    requires JumpsPatched(p) && Reaches(p.code, x, y, n)
    ensures x >= 0 <==> y >= 0
    decreases n
  {
    if n > 0 { ReachesKeepsSign(p, p.code[x].a, y, n - 1); }
  }

  lemma ByJumpsKeepsSign(p: Program, x: int, y: int)
    requires JumpsPatched(p) && ByJumps(p.code, x, y)
    ensures x >= 0 <==> y >= 0
  {
    var n: nat :| Reaches(p.code, x, y, n);
    ReachesKeepsSign(p, x, y, n);
  }

  lemma {:induction false} DenoteThreaded(p: Program, q: Program, k: int, depth: nat)
    requires Threads(p, q) && JumpsPatched(p)
    ensures Denote(q, k, depth) == Denote(p, k, depth)
    decreases depth, 0
  {
    hide ByJumps, Retargeted;
    if depth > 0 && 0 <= k < |p.constants| {
      assert ConstantRetargeted(p.code, p.constants[k], q.constants[k]);
      match p.constants[k]
      case Table(items, keys, vals, _) =>
        DenoteAllThreaded(p, q, items, depth - 1);
        DenoteAllThreaded(p, q, keys, depth - 1);
        DenoteAllThreaded(p, q, vals, depth - 1);
      case StrSwitch(_, es, _) =>
        var es' := q.constants[k].strEntries;
        forall j | 0 <= j < |es|
          ensures es'[j].hash == es[j].hash && (es'[j].target >= 0 <==> es[j].target >= 0)
          ensures es'[j].caseConst == es[j].caseConst
          ensures Denote(q, es[j].caseConst, depth - 1) == Denote(p, es[j].caseConst, depth - 1)
        {
          ByJumpsKeepsSign(p, es[j].target, es'[j].target);
          DenoteThreaded(p, q, es[j].caseConst, depth - 1);
        }
        assert Denote(q, k, depth).strSlots == Denote(p, k, depth).strSlots;
      case NumSwitch(_, es, _) =>
        forall j | 0 <= j < |es| {
          ByJumpsKeepsSign(p, es[j].target, q.constants[k].numEntries[j].target);
        }
        assert Denote(q, k, depth).numSlots == Denote(p, k, depth).numSlots;
      case _ =>
    }
  }

  lemma {:induction false} DenoteAllThreaded(p: Program, q: Program, ks: seq<int>, depth: nat)
    requires Threads(p, q) && JumpsPatched(p)
    ensures DenoteAll(q, ks, depth) == DenoteAll(p, ks, depth)
    decreases depth, 1
  {
    forall j | 0 <= j < |ks| { DenoteThreaded(p, q, ks[j], depth); }
  }

  /** Running through n unconditional jumps changes nothing but the pc. */
  lemma {:induction false} RunJumps(I: Interp, p: Program, s: State, y: int, n: nat)
    requires s.data.status.Running? && Reaches(p.code, s.pc, y, n)
    ensures Run(I, p, s, n) == s.(pc := y)
    decreases n
  {
    if n > 0 { RunJumps(I, p, s.(pc := p.code[s.pc].a), y, n - 1); }
  }

  /** The same outcome leads to an address reached by jumps from where it led before. */
  lemma AdvanceRetargeted(p: Program, q: Program, s: State, o: Outcome)
    requires Threads(p, q) && InCode(p, s.pc)
    requires o.place.Enter? ==> IsDirectCall(p.code[s.pc].op)
    requires o.place.Taken? ==> HasPc(p.code[s.pc].op)
    ensures var x, y := Advance(p, p.code[s.pc], s, o), Advance(q, q.code[s.pc], s, o);
            y == x.(pc := y.pc) &&
            if o.place.Taken? || o.place.Slot? || o.place.Default? then ByJumps(p.code, x.pc, y.pc) else y == x
  {
    hide ByJumps, SlotTarget, DefaultTarget;
    var i, i' := p.code[s.pc], q.code[s.pc];
    assert Retargeted(p.code, i, i');
    if o.place.Slot? || o.place.Default? { PoolTargetsRetargeted(p, q, PoolOperand(i), o.place); }
  }

  lemma AdvanceData(p: Program, s: State, o: Outcome)
    requires InCode(p, s.pc) && (o.place.Taken? || o.place.Slot? || o.place.Default?)
    ensures Advance(p, p.code[s.pc], s, o).data == o.data
  {
  }

  /** One step of the threaded program is one step of the original followed by n jumps. */
  lemma ThreadedStep(I: Interp, p: Program, q: Program, s: State) returns (n: nat)
    requires Threads(p, q) && JumpsPatched(p)
    ensures n > 0 ==> Step(I, p, s).data.status.Running?
    ensures Reaches(p.code, Step(I, p, s).pc, Step(I, q, s).pc, n)
    ensures Step(I, q, s) == Step(I, p, s).(pc := Step(I, q, s).pc)
  {
    hide Exec, ViewOf, Denote, Advance;
    n := 0;
    if s.data.status.Running? && InCode(p, s.pc) {
      var i := p.code[s.pc];
      assert Retargeted(p.code, i, q.code[s.pc]);
      if HasPool(i.op) { DenoteThreaded(p, q, PoolOperand(i), I.depth); }
      SameView(p, q, i, q.code[s.pc], I.depth);
      ViewOp(p, i, I.depth);
      var o := Exec(I, ViewOf(p, i, I.depth), s.data);
      ExecPlaces(I, ViewOf(p, i, I.depth), s.data);
      AdvanceRetargeted(p, q, s, o);
      if o.place.Taken? || o.place.Slot? || o.place.Default? {
        AdvanceData(p, s, o);
        n :| Reaches(p.code, Step(I, p, s).pc, Step(I, q, s).pc, n);
      }
    }
  }

  /** Running through jumps keeps the data at every point on the way. */
  lemma JumpsKeepData(I: Interp, p: Program, s: State, y: int, n: nat, k: nat)
    requires s.data.status.Running? && Reaches(p.code, s.pc, y, n) && k <= n
    ensures Run(I, p, s, k).data == s.data
  {
    var z := Prefix(p.code, s.pc, y, n, k);
    RunJumps(I, p, s, z, k);
  }

  lemma {:induction false} Prefix(code: seq<Instruction>, x: int, y: int, n: nat, k: nat) returns (z: int)
    requires k <= n && Reaches(code, x, y, n)
    ensures Reaches(code, x, z, k)
    decreases k
  {
    if k == 0 { z := x; } else { z := Prefix(code, code[x].a, y, n - 1, k - 1); }
  }

  lemma SameView(p: Program, q: Program, i: Instruction, i': Instruction, depth: nat)
    requires Threads(p, q) && i' == WithPc(i, PcOperand(i'))
    requires HasPool(i.op) ==> Denote(q, PoolOperand(i), depth) == Denote(p, PoolOperand(i), depth)
    ensures ViewOf(q, i', depth) == ViewOf(p, i, depth) && PoolOperand(i') == PoolOperand(i)
  {
    hide Denote;
  }

  lemma PoolTargetsRetargeted(p: Program, q: Program, k: int, place: Place)
    requires Threads(p, q)
    ensures place.Slot? ==> ByJumps(p.code, SlotTarget(p, k, place.i), SlotTarget(q, k, place.i))
    ensures place.Default? ==> ByJumps(p.code, DefaultTarget(p, k), DefaultTarget(q, k))
  {
    ByJumpsRefl(p.code, -1);
    if 0 <= k < |p.constants| { assert ConstantRetargeted(p.code, p.constants[k], q.constants[k]); }
  }

  /** Every state the threaded program reaches is one the original reaches, no later than it does. */
  lemma {:induction false} ThreadedRun(I: Interp, p: Program, q: Program, s: State, n: nat) returns (m: nat)
    requires Threads(p, q) && JumpsPatched(p)
    ensures m >= n && Run(I, q, s, n) == Run(I, p, s, m)
    decreases n
  {
    hide Step;
    if n == 0 { m := 0; } else {
      var k := ThreadedStep(I, p, q, s);
      var s1 := Step(I, p, s);
      if k > 0 { RunJumps(I, p, s1, Step(I, q, s).pc, k); }
      assert Run(I, p, s, 1 + k) == Run(I, p, s1, k);
      var r := ThreadedRun(I, p, q, Step(I, q, s), n - 1);
      RunAdd(I, p, s, 1 + k, r);
      m := 1 + k + r;
    }
  }

  /** Everything the original computes, the threaded program computes too, no later. */
  lemma {:induction false} ThreadedSees(I: Interp, p: Program, q: Program, s: State, n: nat) returns (m: nat)
    requires Threads(p, q) && JumpsPatched(p)
    ensures m <= n && Run(I, q, s, m).data == Run(I, p, s, n).data
    decreases n
  {
    hide Step;
    if n == 0 { m := 0; } else {
      var k := ThreadedStep(I, p, q, s);
      var s1 := Step(I, p, s);
      if n - 1 <= k {
        m := 1;
        if k > 0 { JumpsKeepData(I, p, s1, Step(I, q, s).pc, k, n - 1); }
        assert Run(I, q, s, 1) == Run(I, q, Step(I, q, s), 0);
      } else {
        if k > 0 { RunJumps(I, p, s1, Step(I, q, s).pc, k); }
        RunAdd(I, p, s1, k, n - 1 - k);
        var r := ThreadedSees(I, p, q, Step(I, q, s), n - 1 - k);
        m := 1 + r;
      }
    }
  }

  /** Jump threading preserves every run: the threaded program stops in exactly the same states. */
  lemma ThreadingPreservesRuns(I: Interp, p: Program, s: State, f: State)
    requires JumpsPatched(p)
    ensures StopsIn(I, Thread(p), s, f) <==> StopsIn(I, p, s, f)
  {
    hide Run, Step, Thread;
    ThreadThreads(p);
    var q := Thread(p);
    if StopsIn(I, q, s, f) {
      var i: nat :| Run(I, q, s, i) == f && Stopped(f);
      var j := ThreadedRun(I, p, q, s, i);
    }
    if StopsIn(I, p, s, f) {
      var i: nat :| Run(I, p, s, i) == f && Stopped(f);
      var j := ThreadedRun(I, p, q, s, i);
      RunStable(I, p, s, i, j);
    }
  }

  /** Also when neither ever stops: every state of the threaded program is a state of the original, and
    * whatever the original has computed after n steps the threaded program computes after k <= n. */
  lemma ThreadingKeepsPace(I: Interp, p: Program, s: State, n: nat) returns (m: nat, k: nat)
    requires JumpsPatched(p)
    ensures m >= n && Run(I, Thread(p), s, n) == Run(I, p, s, m)
    ensures k <= n && Run(I, Thread(p), s, k).data == Run(I, p, s, n).data
  {
    ThreadThreads(p);
    m := ThreadedRun(I, p, Thread(p), s, n);
    k := ThreadedSees(I, p, Thread(p), s, n);
  }
}
