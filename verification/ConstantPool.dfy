/** Dropping dead functions and constants and renumbering the rest:
  * source/compiler/opt_bc_dce.c, compact_functions_and_constants. */
module ConstantPool {
  import opened Bytecode
  import opened Machine
  import opened Chunk
  import opened Counting

  // ----- liveness -----

  /** The pool indices a constant refers to. */
  function Children(c: Constant): seq<int> {
    match c
    case Table(items, keys, vals, _) => keys + items + vals
    case StrSwitch(_, es, _) => seq(|es|, j requires 0 <= j < |es| => es[j].caseConst)
    case _ => []
  }

  /** Constant k is named by an instruction. */
  ghost predicate IsRoot(p: Program, k: int) {
    exists pc :: 0 <= pc < |p.code| && HasPool(p.code[pc].op) && PoolOperand(p.code[pc]) == k
  }

  /** used contains the constants named by the code and is closed under reference. */
  ghost predicate Closed(p: Program, used: seq<bool>) {
    |used| == |p.constants| &&
    (forall k :: 0 <= k < |used| && IsRoot(p, k) ==> used[k]) &&
    (forall k, j :: 0 <= k < |used| && used[k] && 0 <= j < |Children(p.constants[k])| ==>
       var c := Children(p.constants[k])[j]; 0 <= c < |used| ==> used[c])
  }

  /** used is the least such set. */
  ghost predicate Least(p: Program, used: seq<bool>) {
    forall other :: Closed(p, other) ==> forall k :: 0 <= k < |used| && k < |other| && used[k] ==> other[k]
  }

  // ----- renumbering -----

  function Index(used: seq<bool>, k: nat): nat
    requires k <= |used|
  {
    if k == 0 then 0 else Index(used, k - 1) + (if used[k - 1] then 1 else 0)
  }

  /** Live indices get their rank; dead and dangling ones stay as they are. */
  function MapIndex(used: seq<bool>, k: int): int {
    if 0 <= k < |used| && used[k] then Index(used, k) else k
  }

  function MapAll(used: seq<bool>, ks: seq<int>): seq<int> {
    seq(|ks|, j requires 0 <= j < |ks| => MapIndex(used, ks[j]))
  }

  /** The entries selected by used, in order. */
  function Select<T>(xs: seq<T>, used: seq<bool>, n: nat): (r: seq<T>)
    requires n <= |xs| == |used|
    ensures |r| == Index(used, n)
  {
    if n == 0 then [] else Select(xs, used, n - 1) + (if used[n - 1] then [xs[n - 1]] else [])
  }

  function RenumberCall(funcs: seq<bool>, i: Instruction): Instruction {
    if IsDirectCall(i.op) then i.(b := MapIndex(funcs, i.b)) else i
  }

  function RenumberPool(used: seq<bool>, i: Instruction): Instruction {
    var k := PoolOperand(i);
    if HasPool(i.op) && MapIndex(used, k) != k then WithPool(i, MapIndex(used, k)) else i
  }

  function RenumberFunctionConst(funcs: seq<bool>, c: Constant): Constant {
    if c.Function? then Function(MapIndex(funcs, c.index)) else c
  }

  function RenumberStrEntries(used: seq<bool>, es: seq<StringSwitchEntry>): seq<StringSwitchEntry> {
    seq(|es|, j requires 0 <= j < |es| => es[j].(caseConst := MapIndex(used, es[j].caseConst)))
  }

  function RenumberRefs(used: seq<bool>, c: Constant): Constant {
    match c
    case Table(items, keys, vals, cap) => Table(MapAll(used, items), MapAll(used, keys), MapAll(used, vals), cap)
    case StrSwitch(addend, es, t) => StrSwitch(addend, RenumberStrEntries(used, es), t)
    case _ => c
  }

  /** Function renumbering: calls, function constants, and the table itself. */
  function DropFunctions(p: Program, funcs: seq<bool>): Program
    requires |funcs| == |p.functions|
  {
    Program(seq(|p.code|, k requires 0 <= k < |p.code| => RenumberCall(funcs, p.code[k])),
            Select(p.functions, funcs, |funcs|),
            seq(|p.constants|, k requires 0 <= k < |p.constants| => RenumberFunctionConst(funcs, p.constants[k])))
  }

  function LiveRefs(used: seq<bool>, cs: seq<Constant>): seq<Constant>
    requires |used| == |cs|
  {
    seq(|cs|, k requires 0 <= k < |cs| => if used[k] then RenumberRefs(used, cs[k]) else cs[k])
  }

  /** Constant renumbering: pool operands, references inside live constants, and the pool itself. */
  function DropConstants(p: Program, used: seq<bool>): Program
    requires |used| == |p.constants|
  {
    Program(seq(|p.code|, k requires 0 <= k < |p.code| => RenumberPool(used, p.code[k])),
            p.functions,
            Select(LiveRefs(used, p.constants), used, |used|))
  }

  // ----- facts about selection -----

  lemma {:induction false} IndexBounds(used: seq<bool>, x: nat, y: nat)
    requires x <= y <= |used|
    ensures Index(used, x) <= Index(used, y) <= Index(used, x) + (y - x)
    decreases y
  {
    if x < y { IndexBounds(used, x, y - 1); }
  }

  lemma {:induction false} SelectAt<T>(xs: seq<T>, used: seq<bool>, k: nat, n: nat)
    requires k < n <= |xs| == |used| && used[k]
    ensures Index(used, k) < |Select(xs, used, n)| && Select(xs, used, n)[Index(used, k)] == xs[k]
    decreases n
  {
    if k < n - 1 { SelectAt(xs, used, k, n - 1); }
  }

  lemma {:induction false} AllUsed<T>(xs: seq<T>, used: seq<bool>, n: nat)
    requires n <= |xs| == |used| && Index(used, |used|) == |used|
    ensures Index(used, n) == n && Select(xs, used, n) == xs[..n]
    ensures forall k :: 0 <= k < n ==> used[k]
    decreases n
  {
    IndexBounds(used, 0, n);
    IndexBounds(used, n, |used|);
    if n > 0 { AllUsed(xs, used, n - 1); }
  }

  // ----- the pass -----

  /** Step 2: mark what the code names. */
  method MarkRoots(ch: BytecodeChunk) returns (used: array<bool>)
    requires ch.Valid()
    ensures fresh(used) && used.Length == ch.constCount
    ensures forall k :: 0 <= k < used.Length ==> used[k] == IsRoot(ch.Value(), k)
  {
    ghost var p := ch.Value();
    used := new bool[ch.constCount](_ => false);
    for pc := 0 to ch.codeCount
      invariant forall k :: 0 <= k < used.Length && used[k] ==> IsRoot(p, k)
      invariant forall q :: 0 <= q < pc && HasPool(p.code[q].op) && 0 <= PoolOperand(p.code[q]) < used.Length
                  ==> used[PoolOperand(p.code[q])]
    {
      var i := ch.code[pc];
      assert p.code[pc] == i;
      if HasPool(i.op) {
        var k := PoolOperand(i);
        if k >= 0 && k < used.Length { used[k] := true; }
      }
    }
  }

  /** What the worklist loop keeps: pending entries are marked, distinct and not yet expanded, and
    * every expanded constant has all its children marked. */
  ghost predicate Frontier(p: Program, used: seq<bool>, pending: seq<int>, expanded: set<int>) {
    |used| == |p.constants| &&
    (forall k :: 0 <= k < |used| && IsRoot(p, k) ==> used[k]) &&
    (forall i :: 0 <= i < |pending| ==> 0 <= pending[i] < |used| && used[pending[i]] && pending[i] !in expanded) &&
    (forall i, j :: 0 <= i < j < |pending| ==> pending[i] != pending[j]) &&
    (forall k :: k in expanded ==> 0 <= k < |used| && used[k]) &&
    (forall k :: 0 <= k < |used| && used[k] ==> k in expanded || k in pending)
  }

  ghost predicate ChildrenMarked(p: Program, used: seq<bool>, k: int) {
    |used| == |p.constants| && 0 <= k < |used| &&
    forall j :: 0 <= j < |Children(p.constants[k])| ==>
      0 <= Children(p.constants[k])[j] < |used| ==> used[Children(p.constants[k])[j]]
  }

  /** Nothing is marked that some closed set leaves out. */
  ghost predicate Needed(p: Program, used: seq<bool>) {
    forall other :: Closed(p, other) ==> forall k :: 0 <= k < |used| && k < |other| && used[k] ==> other[k]
  }

  /** An unmarked constant is not pending, and pending entries are distinct: the buffer has room. */
  lemma PendingFits(p: Program, used: seq<bool>, pending: seq<int>, expanded: set<int>, k: int)
    requires Frontier(p, used, pending, expanded) && 0 <= k < |used| && !used[k]
    ensures |pending| < |used|
  {
    DistinctFit(pending, Upto(|used|) - {k});
  }

  lemma FrontierAdd(p: Program, used: seq<bool>, pending: seq<int>, expanded: set<int>, c: int)
    requires Frontier(p, used, pending, expanded) && 0 <= c < |used| && !used[c]
    ensures Frontier(p, used[c := true], pending + [c], expanded)
  {
    var q := pending + [c];
    forall k | 0 <= k < |used| && used[c := true][k] ensures k in expanded || k in q {
      if k == c { assert q[|pending|] == c; }
    }
  }

  lemma FrontierTake(p: Program, used: seq<bool>, pending: seq<int>, expanded: set<int>, k: int)
    requires Frontier(p, used, pending + [k], expanded)
    ensures Frontier(p, used, pending, expanded + {k}) && k !in expanded && 0 <= k < |used|
  {
    var q := pending + [k];
    assert q[|pending|] == k;
    forall i | 0 <= i < |pending| ensures q[i] == pending[i] && pending[i] != k {}
  }

  lemma FrontierStart(p: Program, used: seq<bool>, pending: seq<int>)
    requires |used| == |p.constants|
    requires forall k :: 0 <= k < |used| ==> used[k] == IsRoot(p, k)
    requires forall x :: 0 <= x < |pending| ==> 0 <= pending[x] < |used| && used[pending[x]]
    requires forall x, y :: 0 <= x < y < |pending| ==> pending[x] != pending[y]
    requires forall k :: 0 <= k < |used| && used[k] ==> k in pending
    ensures Frontier(p, used, pending, {}) && Needed(p, used)
  {
  }

  /** A child of a needed constant is needed. */
  lemma NeededAdd(p: Program, used: seq<bool>, k: int, j: int)
    requires Needed(p, used) && |used| == |p.constants| && 0 <= k < |used| && used[k]
    requires 0 <= j < |Children(p.constants[k])| && 0 <= Children(p.constants[k])[j] < |used|
    ensures Needed(p, used[Children(p.constants[k])[j] := true])
  {
    var c := Children(p.constants[k])[j];
    forall other | Closed(p, other) ensures forall i :: 0 <= i < |used| && i < |other| && used[c := true][i] ==>
        other[i] {
      assert other[k];
      assert other[c];
    }
  }

  lemma MarksGrow(p: Program, a: seq<bool>, b: seq<bool>, k: int)
    requires ChildrenMarked(p, a, k) && |b| == |a| && forall i :: 0 <= i < |a| && a[i] ==> b[i]
    ensures ChildrenMarked(p, b, k)
  {
  }

  lemma FrontierDone(p: Program, used: seq<bool>, expanded: set<int>)
    requires Frontier(p, used, [], expanded) && Needed(p, used)
    requires forall k :: k in expanded ==> ChildrenMarked(p, used, k)
    ensures Closed(p, used) && Least(p, used)
  {
    forall k | 0 <= k < |used| && used[k] ensures ChildrenMarked(p, used, k) { assert k in expanded; }
  }

  /** Mark and enqueue the children of k that are not marked yet. */
  method Expand(ghost p: Program, children: seq<int>, used: array<bool>, wl: array<int>, count: nat,
                ghost expanded: set<int>, ghost k: int)
    returns (wn: nat)
    requires used.Length == wl.Length == |p.constants| && count <= wl.Length && used != wl as object
    requires Frontier(p, used[..], wl[..count], expanded) && Needed(p, used[..])
    requires 0 <= k < used.Length && used[k] && children == Children(p.constants[k])
    modifies used, wl
    ensures wn <= wl.Length && Frontier(p, used[..], wl[..wn], expanded) && Needed(p, used[..])
    ensures ChildrenMarked(p, used[..], k)
    ensures forall x :: ChildrenMarked(p, old(used[..]), x) ==> ChildrenMarked(p, used[..], x)
  {
    hide Frontier, Needed;
    wn := count;
    for j := 0 to |children|
      invariant wn <= wl.Length && Frontier(p, used[..], wl[..wn], expanded)
      invariant forall i :: 0 <= i < used.Length && old(used[i]) ==> used[i]
      invariant forall i :: 0 <= i < j && 0 <= children[i] < used.Length ==> used[children[i]]
      invariant Needed(p, used[..])
    {
      var c := children[j];
      if c >= 0 && c < used.Length && !used[c] {
        ghost var was, pending := used[..], wl[..wn];
        PendingFits(p, was, pending, expanded, c);
        NeededAdd(p, was, k, j);
        FrontierAdd(p, was, pending, expanded, c);
        used[c] := true;
        wl[wn] := c;
        wn := wn + 1;
        assert used[..] == was[c := true];
        assert wl[..wn] == pending + [c];
      }
    }
    forall x | ChildrenMarked(p, old(used[..]), x) ensures ChildrenMarked(p, used[..], x) {
      MarksGrow(p, old(used[..]), used[..], x);
    }
  }

  /** The worklist starts with every marked constant, once. */
  method Enqueue(used: array<bool>, wl: array<int>) returns (wn: nat)
    requires used.Length == wl.Length && used != wl as object
    modifies wl
    ensures wn <= wl.Length
    ensures forall x :: 0 <= x < wn ==> 0 <= wl[x] < used.Length && used[wl[x]]
    ensures forall x, y :: 0 <= x < y < wn ==> wl[x] != wl[y]
    ensures forall k :: 0 <= k < used.Length && used[k] ==> k in wl[..wn]
  {
    wn := 0;
    for i := 0 to used.Length
      invariant wn <= i
      invariant forall x :: 0 <= x < wn ==> 0 <= wl[x] < i && used[wl[x]]
      invariant forall x, y :: 0 <= x < y < wn ==> wl[x] != wl[y]
      invariant forall k :: 0 <= k < i && used[k] ==> k in wl[..wn]
    {
      if used[i] {
        ghost var was := wl[..wn];
        wl[wn] := i;
        wn := wn + 1;
        assert wl[..wn] == was + [i];
      }
    }
  }

  /** Step 2b: close the marks under reference; wl never holds more than one entry per constant. */
  method Propagate(ghost p: Program, constants: array<Constant>, used: array<bool>)
    requires used.Length == |p.constants| <= constants.Length && used != constants as object
    requires constants[..used.Length] == p.constants
    requires forall k :: 0 <= k < used.Length ==> used[k] == IsRoot(p, k)
    modifies used
    ensures Closed(p, used[..]) && Least(p, used[..])
  {
    hide Frontier, Needed, ChildrenMarked, Closed, Least, IsRoot, Children;
    var nc := used.Length;
    var wl := new int[nc];
    var wn: nat := Enqueue(used, wl);
    FrontierStart(p, used[..], wl[..wn]);
    ghost var expanded: set<int> := {};
    while wn > 0
      invariant wn <= nc && Frontier(p, used[..], wl[..wn], expanded) && expanded <= Upto(nc)
      invariant forall k :: k in expanded ==> ChildrenMarked(p, used[..], k)
      invariant Needed(p, used[..])
      decreases |Upto(nc) - expanded|
    {
      wn := wn - 1;
      var k := wl[wn];
      ghost var before := expanded;
      assert wl[..wn + 1] == wl[..wn] + [k];
      FrontierTake(p, used[..], wl[..wn], expanded, k);
      expanded := expanded + {k};
      FrontierMarks(p, used[..], wl[..wn], expanded, k);
      assert Upto(nc) - before == (Upto(nc) - expanded) + {k};
      assert constants[k] == p.constants[k];
      wn := Expand(p, Children(constants[k]), used, wl, wn, expanded, k);
    }
    assert wl[..wn] == [];
    FrontierDone(p, used[..], expanded);
  }

  lemma FrontierMarks(p: Program, used: seq<bool>, pending: seq<int>, expanded: set<int>, k: int)
    requires Frontier(p, used, pending, expanded) && k in expanded
    ensures 0 <= k < |used| && used[k]
  {
  }

  method BuildIndexMap(used: array<bool>) returns (m: array<int>, count: nat)
    ensures fresh(m) && m.Length == used.Length && count == Index(used[..], used.Length)
    ensures forall k :: 0 <= k < used.Length ==> m[k] == if used[k] then Index(used[..], k) else -1
  {
    m := new int[used.Length];
    count := 0;
    for k := 0 to used.Length
      invariant count == Index(used[..], k)
      invariant forall j :: 0 <= j < k ==> m[j] == if used[j] then Index(used[..], j) else -1
    {
      if used[k] { m[k] := count; count := count + 1; } else { m[k] := -1; }
    }
  }

  ghost predicate IsIndexMap(used: seq<bool>, m: seq<int>) {
    |m| == |used| && forall k :: 0 <= k < |m| ==> m[k] == if used[k] then Index(used, k) else -1
  }

  function Lookup(m: seq<int>, k: int): int {
    if 0 <= k < |m| && m[k] >= 0 then m[k] else k
  }

  method LookupAll(m: array<int>, ks: seq<int>, ghost used: seq<bool>) returns (r: seq<int>)
    requires IsIndexMap(used, m[..])
    ensures r == MapAll(used, ks)
  {
    r := ks;
    for j := 0 to |ks|
      invariant |r| == |ks|
      invariant forall i :: 0 <= i < |ks| ==> r[i] == if i < j then MapIndex(used, ks[i]) else ks[i]
    {
      if ks[j] >= 0 && ks[j] < m.Length && m[ks[j]] >= 0 { r := r[j := m[ks[j]]]; }
    }
  }

  method LookupEntries(m: array<int>, es: seq<StringSwitchEntry>, ghost used: seq<bool>)
    returns (r: seq<StringSwitchEntry>)
    requires IsIndexMap(used, m[..])
    ensures r == RenumberStrEntries(used, es)
  {
    r := es;
    for j := 0 to |es|
      invariant |r| == |es|
      invariant forall i :: 0 <= i < |es| ==>
                  r[i] == if i < j then es[i].(caseConst := MapIndex(used, es[i].caseConst)) else es[i]
    {
      var k := es[j].caseConst;
      if k >= 0 && k < m.Length && m[k] >= 0 { r := r[j := es[j].(caseConst := m[k])]; }
    }
  }

  /** Step 1: the function table. */
  method CompactFunctions(ch: BytecodeChunk, funcs: array<bool>)
    requires ch.Valid() && funcs.Length == ch.funcCount
    requires funcs != ch.constants as object && funcs != ch.code as object && funcs != ch.functions as object
    modifies ch.code, ch.constants, ch.functions, ch`funcCount
    ensures ch.Valid() && ch.Value() == DropFunctions(old(ch.Value()), funcs[..])
    ensures ch.constCount == old(ch.constCount)
  {
    hide MapIndex, Index, Select;
    ghost var p, used := ch.Value(), funcs[..];
    var m, count := BuildIndexMap(funcs);
    if count == ch.funcCount {
      NoFunctionDropped(p, used);
      return;
    }
    RewriteCalls(ch, m, used);
    RewriteFunctionConsts(ch, m, used);
    var w := ShiftSelected(ch.functions, ch.funcCount, funcs);
    ch.funcCount := w;
  }

  lemma NoFunctionDropped(p: Program, used: seq<bool>)
    requires |used| == |p.functions| && Index(used, |used|) == |used|
    ensures DropFunctions(p, used) == p
  {
    AllUsed(p.functions, used, |used|);
    forall k: int ensures MapIndex(used, k) == k {
      if 0 <= k < |used| { AllUsed(p.functions, used, k); }
    }
  }

  method RewriteCalls(ch: BytecodeChunk, m: array<int>, ghost used: seq<bool>)
    requires ch.Valid() && IsIndexMap(used, m[..]) && |used| == ch.funcCount
    requires m != ch.constants as object && m != ch.code as object && m != ch.functions as object
    modifies ch.code
    ensures ch.Valid() && ch.Value() == old(ch.Value()).(code := DropFunctions(old(ch.Value()), used).code)
  {
    hide Index, Select;
    ghost var p := ch.Value();
    for pc := 0 to ch.codeCount
      invariant ch.Valid() && ch.functions[..ch.funcCount] == p.functions
      invariant ch.constants[..ch.constCount] == p.constants
      invariant forall k :: 0 <= k < ch.codeCount ==>
                  ch.code[k] == if k < pc then RenumberCall(used, p.code[k]) else p.code[k]
    {
      var i := ch.code[pc];
      if IsDirectCall(i.op) && i.b >= 0 && i.b < m.Length && m[i.b] >= 0 { ch.code[pc] := i.(b := m[i.b]); }
    }
    assert ch.code[..ch.codeCount] == DropFunctions(p, used).code;
  }

  method RewriteFunctionConsts(ch: BytecodeChunk, m: array<int>, ghost used: seq<bool>)
    requires ch.Valid() && IsIndexMap(used, m[..]) && |used| == ch.funcCount
    requires m != ch.constants as object && m != ch.code as object && m != ch.functions as object
    modifies ch.constants
    ensures ch.Valid() && ch.Value() == old(ch.Value()).(constants := DropFunctions(old(ch.Value()), used).constants)
  {
    hide Index, Select;
    ghost var p := ch.Value();
    for c := 0 to ch.constCount
      invariant ch.Valid() && ch.functions[..ch.funcCount] == p.functions && ch.code[..ch.codeCount] == p.code
      invariant forall k :: 0 <= k < ch.constCount ==>
                  ch.constants[k] == if k < c then RenumberFunctionConst(used, p.constants[k]) else p.constants[k]
    {
      var x := ch.constants[c];
      if x.Function? && x.index >= 0 && x.index < m.Length && m[x.index] >= 0 {
        ch.constants[c] := Function(m[x.index]);
      }
    }
    assert ch.constants[..ch.constCount] == DropFunctions(p, used).constants;
  }

  /** Compaction in place of the first n entries. */
  method ShiftSelected<T>(a: array<T>, n: nat, used: array<bool>) returns (w: nat)
    requires n <= a.Length && used.Length == n && a != used as object
    modifies a
    ensures w <= n && a[..w] == Select(old(a[..n]), used[..], n)
  {
    ghost var xs, sel := a[..n], used[..];
    w := 0;
    for i := 0 to n
      invariant w == Index(sel, i) <= i && used[..] == sel
      invariant a[..w] == Select(xs, sel, i)
      invariant forall k :: i <= k < n ==> a[k] == xs[k]
    {
      if !used[i] { continue; }
      if w != i { a[w] := a[i]; }
      w := w + 1;
      assert a[..w] == a[..w - 1] + [xs[i]];
    }
  }

  /** Step 3: the constant pool. */
  method CompactConstants(ch: BytecodeChunk, live: array<bool>)
    requires ch.Valid() && live.Length == ch.constCount
    requires live != ch.constants as object && live != ch.code as object && live != ch.functions as object
    modifies ch.code, ch.constants, ch`constCount
    ensures ch.Valid() && ch.Value() == DropConstants(old(ch.Value()), live[..])
  {
    hide RenumberPool, LiveRefs, Index, Select;
    ghost var p, used := ch.Value(), live[..];
    var m, count := BuildIndexMap(live);
    if count == ch.constCount {
      NothingDropped(p, used);
      return;
    }
    RewritePoolOperands(ch, m, used);
    RewriteReferences(ch, m, live);
    var w := ShiftSelected(ch.constants, ch.constCount, live);
    ch.constCount := w;
  }

  method RewritePoolOperands(ch: BytecodeChunk, m: array<int>, ghost used: seq<bool>)
    requires ch.Valid() && IsIndexMap(used, m[..]) && |used| == ch.constCount
    requires m != ch.constants as object && m != ch.code as object && m != ch.functions as object
    modifies ch.code
    ensures ch.Valid() && ch.Value() == old(ch.Value()).(code := DropConstants(old(ch.Value()), used).code)
  {
    hide LiveRefs, Index, Select, WithPool, PoolOperand, HasPool;
    ghost var p := ch.Value();
    for pc := 0 to ch.codeCount
      invariant ch.Valid() && ch.functions[..ch.funcCount] == p.functions
      invariant ch.constants[..ch.constCount] == p.constants
      invariant forall k :: 0 <= k < ch.codeCount ==>
                  ch.code[k] == if k < pc then RenumberPool(used, p.code[k]) else p.code[k]
    {
      var i := ch.code[pc];
      var k := PoolOperand(i);
      if HasPool(i.op) && k >= 0 && k < m.Length && m[k] >= 0 && m[k] != k { ch.code[pc] := WithPool(i, m[k]); }
    }
    assert ch.code[..ch.codeCount] == DropConstants(p, used).code;
  }

  /** References inside live constants; the dead ones are left as they are. */
  method RewriteReferences(ch: BytecodeChunk, m: array<int>, live: array<bool>)
    requires ch.Valid() && live.Length == ch.constCount && IsIndexMap(live[..], m[..])
    requires live != ch.constants as object && m != ch.constants as object
    requires ch.code != ch.constants as object && ch.functions != ch.constants as object
    modifies ch.constants
    ensures ch.Valid() && ch.Value() == old(ch.Value()).(constants := LiveRefs(live[..], old(ch.Value()).constants))
  {
    hide MapAll, RenumberStrEntries, IsIndexMap;
    ghost var cs := ch.constants[..ch.constCount];
    for c := 0 to ch.constCount
      invariant forall k :: 0 <= k < ch.constCount ==>
                  ch.constants[k] == if k < c then LiveRefs(live[..], cs)[k] else cs[k]
    {
      if !live[c] { continue; }
      match ch.constants[c] {
        case Table(items, keys, vals, cap) =>
          var keys' := LookupAll(m, keys, live[..]);
          var items' := LookupAll(m, items, live[..]);
          var vals' := LookupAll(m, vals, live[..]);
          ch.constants[c] := Table(items', keys', vals', cap);
        case StrSwitch(addend, es, t) =>
          var es' := LookupEntries(m, es, live[..]);
          ch.constants[c] := StrSwitch(addend, es', t);
        case _ =>
      }
    }
    assert ch.constants[..ch.constCount] == LiveRefs(live[..], cs);
  }

  lemma NothingDropped(p: Program, used: seq<bool>)
    requires |used| == |p.constants| && Index(used, |used|) == |used|
    ensures DropConstants(p, used) == p
  {
    AllUsed(p.constants, used, |used|);
    forall k: int ensures MapIndex(used, k) == k {
      if 0 <= k < |used| { AllUsed(p.constants, used, k); }
    }
    forall k | 0 <= k < |p.constants| ensures RenumberRefs(used, p.constants[k]) == p.constants[k] {
      match p.constants[k]
      case Table(items, keys, vals, _) =>
        assert MapAll(used, items) == items && MapAll(used, keys) == keys && MapAll(used, vals) == vals;
      case StrSwitch(_, es, _) => assert RenumberStrEntries(used, es) == es;
      case _ =>
    }
    assert LiveRefs(used, p.constants) == p.constants;
    AllUsed(LiveRefs(used, p.constants), used, |used|);
    assert DropConstants(p, used).code == p.code;
  }

  /** The whole pass; the live set is returned for the reader. */
  method CompactFunctionsAndConstants(ch: BytecodeChunk, funcs: array<bool>) returns (ghost used: seq<bool>)
    requires ch.Valid() && funcs.Length == ch.funcCount
    requires funcs != ch.constants as object && funcs != ch.code as object && funcs != ch.functions as object
    modifies ch.code, ch.constants, ch.functions, ch`funcCount, ch`constCount
    ensures ch.Valid()
    ensures var p := DropFunctions(old(ch.Value()), funcs[..]);
            Closed(p, used) && Least(p, used) && ch.Value() == DropConstants(p, used)
  {
    CompactFunctions(ch, funcs);
    var live := MarkRoots(ch);
    Propagate(ch.Value(), ch.constants, live);
    used := live[..];
    CompactConstants(ch, live);
  }

  // ----- what the renumbered program means -----

  /** The given function set covers every direct call and every live function constant. */
  ghost predicate Covers(p: Program, funcs: seq<bool>, used: seq<bool>) {
    |funcs| == |p.functions| && |used| == |p.constants| &&
    (forall pc :: 0 <= pc < |p.code| && IsDirectCall(p.code[pc].op) && 0 <= p.code[pc].b < |funcs| ==>
        funcs[p.code[pc].b]) &&
    (forall k :: 0 <= k < |used| && used[k] && p.constants[k].Function? && 0 <= p.constants[k].index < |funcs|
       ==> funcs[p.constants[k].index])
  }

  function Renumber(p: Program, funcs: seq<bool>, used: seq<bool>): Program
    requires |funcs| == |p.functions| && |used| == |p.constants|
  {
    DropConstants(DropFunctions(p, funcs), used)
  }

  /** Liveness does not depend on the function table. */
  lemma ClosedDropFunctions(p: Program, funcs: seq<bool>, used: seq<bool>)
    requires |funcs| == |p.functions| && |used| == |p.constants| && Closed(DropFunctions(p, funcs), used)
    ensures Closed(p, used)
  {
    var p1 := DropFunctions(p, funcs);
    forall k | 0 <= k < |used| ensures IsRoot(p1, k) <==> IsRoot(p, k) {
      if pc :| 0 <= pc < |p.code| && HasPool(p.code[pc].op) && PoolOperand(p.code[pc]) == k {
        assert p1.code[pc] == RenumberCall(funcs, p.code[pc]);
      }
    }
    forall k | 0 <= k < |used| ensures Children(p1.constants[k]) == Children(p.constants[k]) {}
  }

  lemma ConstantAt(p: Program, funcs: seq<bool>, used: seq<bool>, k: int)
    requires |funcs| == |p.functions| && |used| == |p.constants|
    ensures 0 <= k < |used| && used[k] ==>
              0 <= MapIndex(used, k) < |Renumber(p, funcs, used).constants| &&
              Renumber(p, funcs, used).constants[MapIndex(used, k)]
              == RenumberRefs(used, RenumberFunctionConst(funcs, p.constants[k]))
    ensures !(0 <= k < |used|) ==>
              MapIndex(used, k) == k && !(0 <= k < |Renumber(p, funcs, used).constants|)
  {
    IndexBounds(used, 0, |used|);
    if 0 <= k < |used| && used[k] {
      SelectAt(LiveRefs(used, DropFunctions(p, funcs).constants), used, k, |used|);
    }
  }

  lemma FunctionAt(p: Program, funcs: seq<bool>, used: seq<bool>, f: int)
    requires |funcs| == |p.functions| && |used| == |p.constants|
    requires 0 <= f < |funcs| ==> funcs[f]
    ensures var q, g := Renumber(p, funcs, used), MapIndex(funcs, f);
            if 0 <= f < |funcs| then 0 <= g < |q.functions| && q.functions[g] == p.functions[f]
            else g == f && !(0 <= f < |q.functions|)
  {
    IndexBounds(funcs, 0, |funcs|);
    if 0 <= f < |funcs| { SelectAt(p.functions, funcs, f, |funcs|); }
  }

  /** Every live constant denotes the same tree as before, to every depth. */
  lemma {:induction false} DenoteRenumbered(p: Program, funcs: seq<bool>, used: seq<bool>, k: int, depth: nat)
    requires Covers(p, funcs, used) && Closed(p, used)
    requires 0 <= k < |used| ==> used[k]
    ensures Denote(Renumber(p, funcs, used), MapIndex(used, k), depth) == Denote(p, k, depth)
    decreases depth, 0
  {
    hide Renumber, MapIndex;
    var q := Renumber(p, funcs, used);
    ConstantAt(p, funcs, used, k);
    if depth > 0 && 0 <= k < |used| {
      var c := p.constants[k];
      match c
      case Function(f) => FunctionAt(p, funcs, used, f);
      case Table(items, keys, vals, _) =>
        ChildrenLive(p, used, k, keys, items + vals, 0);
        ChildrenLive(p, used, k, items, vals, |keys|);
        ChildrenLive(p, used, k, vals, [], |keys| + |items|);
        DenoteAllRenumbered(p, funcs, used, items, depth - 1);
        DenoteAllRenumbered(p, funcs, used, keys, depth - 1);
        DenoteAllRenumbered(p, funcs, used, vals, depth - 1);
      case StrSwitch(_, es, _) =>
        forall j | 0 <= j < |es|
          ensures Denote(q, MapIndex(used, es[j].caseConst), depth - 1) == Denote(p, es[j].caseConst, depth - 1)
        {
          assert Children(c)[j] == es[j].caseConst;
          DenoteRenumbered(p, funcs, used, es[j].caseConst, depth - 1);
        }
        assert Denote(q, MapIndex(used, k), depth).strSlots == Denote(p, k, depth).strSlots;
      case _ =>
    }
  }

  lemma ChildrenLive(p: Program, used: seq<bool>, k: int, part: seq<int>, rest: seq<int>, from: nat)
    requires Closed(p, used) && 0 <= k < |used| && used[k]
    requires from + |part| <= |Children(p.constants[k])| && Children(p.constants[k])[from..] == part + rest
    ensures forall j :: 0 <= j < |part| && 0 <= part[j] < |used| ==> used[part[j]]
  {
    forall j | 0 <= j < |part| && 0 <= part[j] < |used| ensures used[part[j]] {
      assert part[j] == Children(p.constants[k])[from..][j] == Children(p.constants[k])[from + j];
    }
  }

  lemma {:induction false} DenoteAllRenumbered(p: Program, funcs: seq<bool>, used: seq<bool>, ks: seq<int>, depth: nat)
    requires Covers(p, funcs, used) && Closed(p, used)
    requires forall j :: 0 <= j < |ks| && 0 <= ks[j] < |used| ==> used[ks[j]]
    ensures DenoteAll(Renumber(p, funcs, used), MapAll(used, ks), depth) == DenoteAll(p, ks, depth)
    decreases depth, 1
  {
    hide Renumber, MapIndex;
    forall j | 0 <= j < |ks|
      ensures Denote(Renumber(p, funcs, used), MapIndex(used, ks[j]), depth) == Denote(p, ks[j], depth)
    {
      DenoteRenumbered(p, funcs, used, ks[j], depth);
    }
  }

  function RenumberInstruction(funcs: seq<bool>, used: seq<bool>, i: Instruction): Instruction {
    RenumberPool(used, RenumberCall(funcs, i))
  }

  lemma PoolOperandRenumbered(funcs: seq<bool>, used: seq<bool>, i: Instruction)
    ensures var i' := RenumberInstruction(funcs, used, i);
            i'.op == i.op && (HasPool(i.op) ==> PoolOperand(i') == MapIndex(used, PoolOperand(i)))
    ensures var i' := RenumberInstruction(funcs, used, i);
            if IsDirectCall(i.op) then i' == i.(b := MapIndex(funcs, i.b)) else WithPool(i', 0) == WithPool(i, 0)
  {
    var k := PoolOperand(i);
    if 0 <= k < |used| && used[k] { IndexBounds(used, 0, k); }
    var k' := MapIndex(used, k);
    if PoolPacked(i.op) {
      assert 0 <= k' < 0x1_0000 || k' == k;
      PackedParts(k', Low(i.c));
    }
  }

  lemma PackedParts(h: int, l: int)
    requires 0 <= h < 0x1_0000 && 0 <= l < 0x1_0000
    ensures High(h * 0x1_0000 + l) == h && Low(h * 0x1_0000 + l) == l
  {
  }

  /** An instruction of the renumbered program looks to the data path like the original one and
    * goes to the same addresses. */
  lemma StepRenumbered(I: Interp, p: Program, funcs: seq<bool>, used: seq<bool>, s: State)
    requires Covers(p, funcs, used) && Closed(p, used)
    ensures Step(I, Renumber(p, funcs, used), s) == Step(I, p, s)
  {
    hide Exec, MapIndex, Index, Select, RenumberRefs, RenumberInstruction, ViewOf, Denote;
    var q := Renumber(p, funcs, used);
    assert |q.code| == |p.code|;
    if s.data.status.Running? && InCode(p, s.pc) {
      var i := p.code[s.pc];
      var i' := q.code[s.pc];
      CodeAt(p, funcs, used, s.pc);
      PoolOperandRenumbered(funcs, used, i);
      var k := PoolOperand(i);
      if HasPool(i.op) {
        assert 0 <= k < |used| ==> IsRoot(p, k);
        DenoteRenumbered(p, funcs, used, k, I.depth);
        TargetsRenumbered(p, funcs, used, k);
      }
      if IsDirectCall(i.op) { FunctionAt(p, funcs, used, i.b); }
      var v := ViewOf(p, i, I.depth);
      ViewOp(p, i, I.depth);
      ViewRenumbered(p, funcs, used, i, i', I.depth);
      ExecPlaces(I, v, s.data);
    }
  }

  lemma CodeAt(p: Program, funcs: seq<bool>, used: seq<bool>, pc: int)
    requires |funcs| == |p.functions| && |used| == |p.constants| && 0 <= pc < |p.code|
    ensures |Renumber(p, funcs, used).code| == |p.code|
    ensures Renumber(p, funcs, used).code[pc] == RenumberInstruction(funcs, used, p.code[pc])
  {
  }

  /** The constant an instruction names to the machine, by whichever operand, is live, and the operand it
    * gets names a constant with the same tree. */
  lemma NamedConstantKept(p: Program, funcs: seq<bool>, used: seq<bool>, pc: int, depth: nat)
    requires Covers(p, funcs, used) && Closed(DropFunctions(p, funcs), used)
    requires 0 <= pc < |p.code| && NamesConstant(p.code[pc].op)
    ensures var q, k := Renumber(p, funcs, used), NamedConstant(p.code[pc]);
            var k' := NamedConstant(q.code[pc]);
            Denote(q, k', depth) == Denote(p, k, depth) &&
            (if 0 <= k < |p.constants| then used[k] && 0 <= k' < |q.constants| else k' == k)
  {
    hide Renumber, MapIndex, Denote, PoolOperand;
    var i := p.code[pc];
    ClosedDropFunctions(p, funcs, used);
    CodeAt(p, funcs, used, pc);
    PoolOperandRenumbered(funcs, used, i);
    var k := PoolOperand(i);
    assert 0 <= k < |used| ==> IsRoot(p, k);
    DenoteRenumbered(p, funcs, used, k, depth);
    ConstantAt(p, funcs, used, k);
  }

  lemma ViewRenumbered(p: Program, funcs: seq<bool>, used: seq<bool>, i: Instruction, i': Instruction, depth: nat)
    requires Covers(p, funcs, used) && i'.op == i.op
    requires if IsDirectCall(i.op) then i' == i.(b := MapIndex(funcs, i.b)) else WithPool(i', 0) == WithPool(i, 0)
    requires IsDirectCall(i.op) && 0 <= i.b < |funcs| ==> funcs[i.b]
    requires HasPool(i.op) ==>
             Denote(Renumber(p, funcs, used), PoolOperand(i'), depth) == Denote(p, PoolOperand(i), depth)
    ensures ViewOf(Renumber(p, funcs, used), i', depth) == ViewOf(p, i, depth)
    ensures HasPc(i.op) ==> PcOperand(i') == PcOperand(i)
  {
    hide Renumber, MapIndex;
    if IsDirectCall(i.op) { FunctionAt(p, funcs, used, i.b); }
  }

  lemma TargetsRenumbered(p: Program, funcs: seq<bool>, used: seq<bool>, k: int)
    requires |funcs| == |p.functions| && |used| == |p.constants|
    requires 0 <= k < |used| ==> used[k]
    ensures var q := Renumber(p, funcs, used);
            DefaultTarget(q, MapIndex(used, k)) == DefaultTarget(p, k) &&
            forall j :: SlotTarget(q, MapIndex(used, k), j) == SlotTarget(p, k, j)
  {
    hide Renumber, MapIndex;
    ConstantAt(p, funcs, used, k);
  }

  /** The renumbered program runs exactly as the original, state by state. */
  lemma {:induction false} RenumberPreservesRuns(I: Interp, p: Program, funcs: seq<bool>, used: seq<bool>, s: State,
                                                 n: nat)
    requires Covers(p, funcs, used) && Closed(DropFunctions(p, funcs), used)
    ensures Run(I, Renumber(p, funcs, used), s, n) == Run(I, p, s, n)
    decreases n
  {
    hide Step, Renumber;
    ClosedDropFunctions(p, funcs, used);
    if n > 0 {
      StepRenumbered(I, p, funcs, used, s);
      RenumberPreservesRuns(I, p, funcs, used, Step(I, p, s), n - 1);
    }
  }
}
