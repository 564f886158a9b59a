/** The bytecode passes in the order codegen_generate runs them: source/compiler/codegen.c:217-219. Of the
  * first, dce_functions_and_globals, the part that renumbers functions and constants is here. */
module PassPipeline {
  import opened Bytecode
  import opened Machine
  import opened Chunk
  import opened ConstantPool
  import opened JumpThreading
  import opened Compaction

  /** thread_jumps, then compact_bytecode. */
  method PostPasses(ch: BytecodeChunk)
    requires ch.Valid()
    modifies ch`codeCount, ch.code, ch.functions, ch.constants
    ensures ch.Valid() && ch.Value() == Compact(Thread(old(ch.Value())))
  {
    ThreadJumps(ch);
    CompactBytecode(ch);
  }

  /** The finished chunk stops exactly where the emitted one does, with the same data. */
  lemma PostPassesPreserveRuns(I: Interp, p: Program, s: State, g: State)
    requires JumpsPatched(p)
    ensures var q := Thread(p);
            StopsIn(I, Compact(q), MapState(q.code, s), g) <==>
            exists f :: StopsIn(I, p, s, f) && g == MapState(q.code, f)
  {
    hide Run, Compact, Thread, MapState, StopsIn;
    var q := Thread(p);
    CompactionPreservesRuns(I, q, s, g);
    if f :| StopsIn(I, q, s, f) && g == MapState(q.code, f) { ThreadingPreservesRuns(I, p, s, f); }
    if f :| StopsIn(I, p, s, f) && g == MapState(q.code, f) { ThreadingPreservesRuns(I, p, s, f); }
  }

  /** Whatever either has computed at some point of its run, the other computes too, stopping or not. */
  lemma PostPassesKeepPace(I: Interp, p: Program, s: State, n: nat) returns (m: nat, k: nat)
    requires JumpsPatched(p)
    ensures var q := Thread(p);
            Run(I, Compact(q), MapState(q.code, s), m).data == Run(I, p, s, n).data &&
            Run(I, Compact(q), MapState(q.code, s), n).data == Run(I, p, s, k).data
  {
    hide Run, Compact, Thread, MapState;
    var q := Thread(p);
    var _, j := ThreadingKeepsPace(I, p, s, n);
    m := CompactForward(I, q, s, j);
    MapKeepsData(q.code, Run(I, q, s, j));
    var i := CompactBackward(I, q, s, n);
    MapKeepsData(q.code, Run(I, q, s, i));
    var k', _ := ThreadingKeepsPace(I, p, s, i);
    k := k';
  }

  lemma MapKeepsData(code: seq<Instruction>, s: State)
    ensures MapState(code, s).data == s.data
  {
  }

  // ----- with the renumbering in front -----

  /** Renumbering, threading and compaction, one after the other; the live set is returned for the reader. */
  method AllPasses(ch: BytecodeChunk, funcs: array<bool>) returns (ghost used: seq<bool>)
    requires ch.Valid() && funcs.Length == ch.funcCount
    requires funcs != ch.constants as object && funcs != ch.code as object && funcs != ch.functions as object
    modifies ch.code, ch.constants, ch.functions, ch`funcCount, ch`constCount, ch`codeCount
    ensures ch.Valid()
    ensures var p := old(ch.Value());
            Closed(DropFunctions(p, funcs[..]), used) && Least(DropFunctions(p, funcs[..]), used) &&
            ch.Value() == Compact(Thread(Renumber(p, funcs[..], used)))
  {
    hide Compact, Thread, DropFunctions, DropConstants, Closed, Least;
    used := CompactFunctionsAndConstants(ch, funcs);
    PostPasses(ch);
  }

  /** The three passes together: the finished chunk stops exactly where the emitted one does. */
  lemma AllPassesPreserveRuns(I: Interp, p: Program, funcs: seq<bool>, used: seq<bool>, s: State, g: State)
    requires JumpsPatched(p) && Covers(p, funcs, used) && Closed(DropFunctions(p, funcs), used)
    ensures var q := Thread(Renumber(p, funcs, used));
            StopsIn(I, Compact(q), MapState(q.code, s), g) <==>
            exists f :: StopsIn(I, p, s, f) && g == MapState(q.code, f)
  {
    hide Run, Compact, Thread, MapState, StopsIn, Renumber, Closed;
    var p1 := Renumber(p, funcs, used);
    RenumberedPatched(p, funcs, used);
    PostPassesPreserveRuns(I, p1, s, g);
    forall f ensures StopsIn(I, p1, s, f) <==> StopsIn(I, p, s, f) { RenumberedStops(I, p, funcs, used, s, f); }
  }

  lemma RenumberedStops(I: Interp, p: Program, funcs: seq<bool>, used: seq<bool>, s: State, f: State)
    requires Covers(p, funcs, used) && Closed(DropFunctions(p, funcs), used)
    ensures StopsIn(I, Renumber(p, funcs, used), s, f) <==> StopsIn(I, p, s, f)
  {
    hide Run, Renumber, Closed;
    var q := Renumber(p, funcs, used);
    if n: nat :| Run(I, q, s, n) == f && Stopped(f) { RenumberPreservesRuns(I, p, funcs, used, s, n); }
    if n: nat :| Run(I, p, s, n) == f && Stopped(f) { RenumberPreservesRuns(I, p, funcs, used, s, n); }
  }

  lemma RenumberedPatched(p: Program, funcs: seq<bool>, used: seq<bool>)
    requires JumpsPatched(p) && |funcs| == |p.functions| && |used| == |p.constants|
    ensures JumpsPatched(Renumber(p, funcs, used))
  {
    assert |Renumber(p, funcs, used).code| == |p.code|;
    hide Renumber;
    forall k | 0 <= k < |Renumber(p, funcs, used).code| && Renumber(p, funcs, used).code[k].op.JUMP?
      ensures Renumber(p, funcs, used).code[k].a >= 0
    {
      CodeAt(p, funcs, used, k);
    }
  }
}
