/** The parser's scoped symbol table with its hash index: source/core/parser.c:739-867. */
module SymbolTable {

  /** Kind, type, parameter count, flags and line of a declaration. */
  datatype Info = Info(kind: int, type_: int, params: int, isConstant: bool, line: int)

  datatype Symbol = Symbol(name: string, level: int, info: Info)

  /** A link of a bucket's chain; index -1 marks it invalid. */
  datatype HashEntry = HashEntry(name: string, index: int, level: int)

  // ----- the table as a value -----

  datatype State = State(syms: seq<Symbol>, scope: int) {
    /** Declared names are distinct within a scope, and inner scopes come after outer ones. */
    ghost predicate Valid() {
      scope >= 0 && (forall i :: 0 <= i < |syms| ==> 0 <= syms[i].level <= scope) &&
      (forall i, j :: 0 <= i < j < |syms| ==> syms[i].level <= syms[j].level) &&
      (forall i, j :: 0 <= i < j < |syms| ==> syms[i].level != syms[j].level || syms[i].name != syms[j].name)
    }

    ghost predicate DeclaredHere(name: string) {
      exists i :: 0 <= i < |syms| && syms[i].name == name && syms[i].level == scope
    }

    function Enter(): State { this.(scope := scope + 1) }

    ghost function Declare(name: string, info: Info): State {
      if DeclaredHere(name) then this else this.(syms := syms + [Symbol(name, scope, info)])
    }

    function Exit(): State { State(Without(syms, scope), scope - 1) }
  }

  /** syms less those at the given level. */
  function Without(syms: seq<Symbol>, level: int): seq<Symbol> {
    if syms == [] then []
    else if syms[|syms| - 1].level == level then Without(syms[..|syms| - 1], level)
    else Without(syms[..|syms| - 1], level) + [syms[|syms| - 1]]
  }

  /** The reverse linear scan: the last declaration of name, or -1. */
  function LastIndex(syms: seq<Symbol>, name: string): int {
    if syms == [] then -1
    else if syms[|syms| - 1].name == name then |syms| - 1
    else LastIndex(syms[..|syms| - 1], name)
  }

  lemma {:induction false} LastIndexIs(syms: seq<Symbol>, name: string)
    ensures var i := LastIndex(syms, name);
            -1 <= i < |syms| && (i >= 0 ==> syms[i].name == name) && forall j :: i < j < |syms| ==> syms[j].name != name
  {
    if syms != [] { LastIndexIs(syms[..|syms| - 1], name); }
  }

  lemma WithoutStep(syms: seq<Symbol>, n: nat, level: int)
    requires n <= |syms|
    ensures n == 0 ==> Without(syms[..n], level) == []
    ensures n < |syms| ==>
              var more := if syms[n].level == level then [] else [syms[n]];
              Without(syms[..n + 1], level) == Without(syms[..n], level) + more
  {
    if n < |syms| { assert syms[..n + 1][..n] == syms[..n]; }
  }

  /** In a valid table the symbols of the innermost scope are at the end: leaving it truncates. */
  lemma {:induction false} WithoutTruncates(syms: seq<Symbol>, scope: int, k: nat)
    requires k <= |syms| && (forall i :: 0 <= i < k ==> syms[i].level != scope) && forall i :: k <= i < |syms| ==>
               syms[i].level == scope
    ensures Without(syms, scope) == syms[..k]
  {
    if k < |syms| {
      WithoutTruncates(syms[..|syms| - 1], scope, k);
      assert syms[..|syms| - 1][..k] == syms[..k];
    } else if syms != [] {
      WithoutTruncates(syms[..|syms| - 1], scope, k - 1);
      assert syms[..|syms| - 1][..k - 1] + [syms[k - 1]] == syms[..k];
    } else {
      assert syms[..k] == [];
    }
  }

  /** Where the innermost scope's symbols begin. */
  lemma {:induction false} ScopeStart(syms: seq<Symbol>, scope: int) returns (k: nat)
    requires forall i :: 0 <= i < |syms| ==> syms[i].level <= scope
    requires forall i, j :: 0 <= i < j < |syms| ==> syms[i].level <= syms[j].level
    ensures k <= |syms| && (forall i :: 0 <= i < k ==> syms[i].level < scope) && forall i :: k <= i < |syms| ==>
              syms[i].level == scope
  {
    k := |syms|;
    while k > 0 && syms[k - 1].level == scope
      invariant k <= |syms| && forall i :: k <= i < |syms| ==> syms[i].level == scope
    {
      k := k - 1;
    }
  }

  lemma EnterDeclareKeepValid(st: State, name: string, info: Info)
    requires st.Valid()
    ensures st.Enter().Valid() && st.Declare(name, info).Valid()
  {
  }

  /** Leaving a scope cuts the symbols off at some k. */
  lemma ExitTruncates(st: State) returns (k: nat)
    requires st.Valid()
    ensures k <= |st.syms| && st.Exit() == State(st.syms[..k], st.scope - 1)
    ensures (forall i :: 0 <= i < k ==> st.syms[i].level < st.scope) && forall i :: k <= i < |st.syms| ==>
              st.syms[i].level == st.scope
    ensures st.scope > 0 ==> st.Exit().Valid()
  {
    k := ScopeStart(st.syms, st.scope);
    WithoutTruncates(st.syms, st.scope, k);
  }

  // ----- the hash index -----

  type Hash = string -> nat

  ghost predicate GoodEntry(syms: seq<Symbol>, e: HashEntry) {
    0 <= e.index < |syms| && syms[e.index].name == e.name && syms[e.index].level == e.level
  }

  ghost predicate Listed(chain: seq<HashEntry>, i: int) { exists k :: 0 <= k < |chain| && chain[k].index == i }

  /** Every link of every chain points at the symbol it names, in the bucket of that name; every symbol
    * has its link. */
  ghost predicate Indexed(syms: seq<Symbol>, buckets: seq<seq<HashEntry>>, hash: Hash) {
    |buckets| > 0 &&
    (forall b, k :: 0 <= b < |buckets| && 0 <= k < |buckets[b]| ==>
       GoodEntry(syms, buckets[b][k]) && hash(buckets[b][k].name) % |buckets| == b) &&
    (forall i :: 0 <= i < |syms| ==> Listed(buckets[hash(syms[i].name) % |buckets|], i))
  }

  /** A bucket's chain has a link for exactly the symbols of its names. */
  lemma ChainOf(syms: seq<Symbol>, buckets: seq<seq<HashEntry>>, hash: Hash, name: string)
    requires Indexed(syms, buckets, hash)
    ensures var chain := buckets[hash(name) % |buckets|];
            (forall k :: 0 <= k < |chain| ==> GoodEntry(syms, chain[k])) &&
            (forall i :: 0 <= i < |syms| && syms[i].name == name ==> Listed(chain, i))
  {
  }

  /** The symbols held in parallel arrays. */
  function Zip(names: seq<string>, levels: seq<int>, infos: seq<Info>): (s: seq<Symbol>)
    requires |names| == |levels| == |infos|
    ensures |s| == |names| && forall i :: 0 <= i < |s| ==> s[i] == Symbol(names[i], levels[i], infos[i])
  {
    seq(|names|, i requires 0 <= i < |names| => Symbol(names[i], levels[i], infos[i]))
  }

  /** Walks one chain, keeping the links of other scopes. */
  method UnlinkChain(chain: seq<HashEntry>, scope: int) returns (kept: seq<HashEntry>)
    ensures kept == Unlinked(chain, scope)
  {
    kept := [];
    for k := 0 to |chain|
      invariant kept == Unlinked(chain[..k], scope)
    {
      assert chain[..k + 1][..k] == chain[..k];
      if chain[k].level != scope { kept := kept + [chain[k]]; }
    }
    assert chain[..|chain|] == chain;
  }

  class ParserSymbols {
    const hash: Hash
    var names: array<string>
    var levels: array<int>
    var infos: array<Info>
    var count: nat
    var currentScope: int
    const buckets: array<seq<HashEntry>>

    ghost predicate Shape()
      reads this
    {
      count <= names.Length == levels.Length == infos.Length && buckets.Length == 64
    }

    ghost function Contents(): (st: State)
      requires Shape()
      reads this, names, levels, infos
      ensures |st.syms| == count
    {
      State(Zip(names[..count], levels[..count], infos[..count]), currentScope)
    }

    ghost predicate Valid()
      reads this, names, levels, infos, buckets
    {
      Shape() && Contents().Valid() && Indexed(Contents().syms, buckets[..], hash)
    }

    constructor (hash: Hash)
      ensures Valid() && Contents() == State([], 0) && fresh(names) && fresh(levels) && fresh(infos) && fresh(buckets)
    {
      this.hash := hash;
      names := new string[0];
      levels := new int[0];
      infos := new Info[0];
      count := 0;
      currentScope := 0;
      buckets := new seq<HashEntry>[64](_ => []);
    }

    /** symbol_index_in_scope. */
    method IndexInScope(name: string, scope: int) returns (index: int)
      requires Valid()
      ensures -1 <= index < count
      ensures index >= 0 ==> names[index] == name && levels[index] == scope
      ensures index == -1 ==> forall i :: 0 <= i < count ==> names[i] != name || levels[i] != scope
    {
      ghost var syms := Contents().syms;
      var chain := buckets[hash(name) % buckets.Length];
      ChainOf(syms, buckets[..], hash, name);
      for k := 0 to |chain|
        invariant forall j :: 0 <= j < k ==> chain[j].level != scope || chain[j].name != name
      {
        if chain[k].index >= 0 && chain[k].level == scope && chain[k].name == name { return chain[k].index; }
      }
      forall i | 0 <= i < count ensures names[i] != name || levels[i] != scope {
        if syms[i].name == name {
          assert Listed(chain, i);
          var k :| 0 <= k < |chain| && chain[k].index == i;
          assert GoodEntry(syms, chain[k]);
        }
      }
      return -1;
    }

    /** symbol_index_recursive: the hash lookups from the innermost scope outwards find exactly what a
      * reverse linear scan of the declarations finds. */
    method IndexRecursive(name: string) returns (index: int)
      requires Valid()
      ensures index == LastIndex(Contents().syms, name)
    {
      ghost var syms := Contents().syms;
      LastIndexIs(syms, name);
      var scope := currentScope;
      while scope >= 0
        invariant -1 <= scope <= currentScope
        invariant forall i :: 0 <= i < count && syms[i].name == name ==> syms[i].level <= scope
        decreases scope
      {
        index := IndexInScope(name, scope);
        if index >= 0 {
          assert syms[index].name == name;
          ghost var last := LastIndex(syms, name);
          assert last >= index;
          assert syms[last].level >= syms[index].level;
          return;
        }
        forall i | 0 <= i < count && syms[i].name == name ensures syms[i].level <= scope - 1 {
          assert names[i] == name;
        }
        scope := scope - 1;
      }
      return -1;
    }

    /** Opening a scope, as the statement parsers do before a block. */
    method EnterScope()
      requires Valid()
      modifies this`currentScope
      ensures Valid() && Contents() == old(Contents()).Enter()
    {
      EnterDeclareKeepValid(Contents(), "", Info(0, 0, 0, false, 0));
      currentScope := currentScope + 1;
    }

    /** First step of leaving a scope: take its links out of every chain. */
    method UnlinkScope(scope: int)
      requires buckets.Length == 64
      modifies buckets
      ensures forall b :: 0 <= b < buckets.Length ==> buckets[b] == Unlinked(old(buckets[b]), scope)
    {
      hide Unlinked;
      for b := 0 to buckets.Length
        invariant forall c :: b <= c < buckets.Length ==> buckets[c] == old(buckets[c])
        invariant forall c :: 0 <= c < b ==> buckets[c] == Unlinked(old(buckets[c]), scope)
      {
        var kept := UnlinkChain(buckets[b], scope);
        buckets[b] := kept;
      }
    }

    method MoveDown(read: nat, write: nat)
      requires Shape() && write < read < count
      modifies names, levels, infos
      ensures names[..] == old(names[..])[write := names[read]]
      ensures levels[..] == old(levels[..])[write := levels[read]]
      ensures infos[..] == old(infos[..])[write := infos[read]]
    {
      names[write] := names[read];
      levels[write] := levels[read];
      infos[write] := infos[read];
    }

    /** Second step: move the other scopes' symbols to the front. */
    method Compact(scope: int) returns (write: nat)
      requires Shape()
      modifies names, levels, infos
      ensures write <= count
      ensures Zip(names[..write], levels[..write], infos[..write]) ==
              Without(old(Zip(names[..count], levels[..count], infos[..count])), scope)
    {
      hide Without;
      ghost var all := Zip(names[..count], levels[..count], infos[..count]);
      write := 0;
      WithoutStep(all, 0, scope);
      for read := 0 to count
        invariant write <= read && Zip(names[..write], levels[..write], infos[..write]) == Without(all[..read], scope)
        invariant forall i :: read <= i < count ==> all[i] == Symbol(names[i], levels[i], infos[i])
      {
        WithoutStep(all, read, scope);
        if levels[read] != scope {
          if write != read { MoveDown(read, write); }
          write := write + 1;
        }
      }
      assert all[..count] == all;
    }

    /** Third step: invalidate links past the end. */
    method InvalidateFrom(write: nat)
      requires buckets.Length == 64
      modifies buckets
      ensures forall b :: 0 <= b < buckets.Length ==> |buckets[b]| == |old(buckets[b])|
      ensures forall b, k :: 0 <= b < buckets.Length && 0 <= k < |buckets[b]| ==>
                buckets[b][k] == (var e := old(buckets[b])[k]; if e.index >= write then e.(index := -1) else e)
    {
      for b := 0 to buckets.Length
        invariant forall c :: b <= c < buckets.Length ==> buckets[c] == old(buckets[c])
        invariant forall c :: 0 <= c < buckets.Length ==> |buckets[c]| == |old(buckets[c])|
        invariant forall c, k :: 0 <= c < b && 0 <= k < |buckets[c]| ==>
                    buckets[c][k] == (var e := old(buckets[c])[k]; if e.index >= write then e.(index := -1) else e)
      {
        var chain := buckets[b];
        for k := 0 to |chain|
          invariant |chain| == |old(buckets[b])|
          invariant forall m :: k <= m < |chain| ==> chain[m] == old(buckets[b])[m]
          invariant forall m :: 0 <= m < k ==>
                      chain[m] == (var e := old(buckets[b])[m]; if e.index >= write then e.(index := -1) else e)
        {
          if chain[k].index >= write { chain := chain[k := chain[k].(index := -1)]; }
        }
        buckets[b] := chain;
      }
    }

    /** The first step leaves the index right for the symbols that stay. */
    method UnlinkIndexed(ghost k: nat)
      requires Valid() && k <= count
      requires forall i :: 0 <= i < count ==> (levels[i] == currentScope <==> k <= i)
      modifies buckets
      ensures Shape() && Indexed(Contents().syms[..k], buckets[..], hash)
    {
      ghost var syms, chains := Contents().syms, buckets[..];
      UnlinkScope(currentScope);
      IndexShrinks(syms, chains, buckets[..], hash, currentScope, k);
    }

    /** The last step changes nothing in an index that is right. */
    method InvalidateNone(ghost syms: seq<Symbol>)
      requires Shape() && |syms| == count && Indexed(syms, buckets[..], hash)
      modifies buckets
      ensures buckets[..] == old(buckets[..])
    {
      ghost var chains := buckets[..];
      InvalidateFrom(count);
      NoneStale(syms, chains, buckets[..], hash);
    }

    /** The three steps together. */
    method RemoveScope(ghost k: nat)
      requires Valid() && k <= count && Without(Contents().syms, currentScope) == Contents().syms[..k]
      requires forall i :: 0 <= i < count ==> (levels[i] == currentScope <==> k <= i)
      modifies this`count, names, levels, infos, buckets
      ensures Shape() && Contents().syms == old(Contents()).syms[..k] && Indexed(Contents().syms, buckets[..], hash)
    {
      hide Indexed, Without, State.Valid;
      ghost var syms := Contents().syms;
      UnlinkIndexed(k);
      count := Compact(currentScope);
      assert Contents().syms == syms[..k];
      InvalidateNone(syms[..k]);
    }

    /** Where the current scope's symbols begin, in the table's own terms. */
    lemma Cut() returns (k: nat)
      requires Valid()
      ensures k <= count && Without(Contents().syms, currentScope) == Contents().syms[..k]
      ensures forall i :: 0 <= i < count ==> (levels[i] == currentScope <==> k <= i)
      ensures currentScope > 0 ==> State(Contents().syms[..k], currentScope - 1).Valid()
    {
      k := ExitTruncates(Contents());
      assert forall i :: 0 <= i < count ==> levels[i] == Contents().syms[i].level;
    }

    /** parser_exit_scope. The symbols left are those of the outer scopes; as these come first, the
      * arrays are in effect only truncated, and no link goes stale. */
    method ExitScope()
      requires Valid() && currentScope > 0
      modifies this`count, this`currentScope, names, levels, infos, buckets
      ensures Valid() && Contents() == old(Contents()).Exit()
      ensures count <= old(count) && Contents().syms == old(Contents()).syms[..count]
    {
      hide Indexed, Without, State.Valid, Zip;
      ghost var k := Cut();
      RemoveScope(k);
      currentScope := currentScope - 1;
    }

    /** symbols_grow. */
    method Grow()
      requires Shape()
      modifies this`names, this`levels, this`infos
      ensures Shape() && count < names.Length && Contents() == old(Contents())
      ensures (fresh(names) && fresh(levels) && fresh(infos)) ||
              (names == old(names) && levels == old(levels) && infos == old(infos))
    {
      if count < names.Length { return; }
      var capacity := if names.Length == 0 then 16 else names.Length * 2;
      var newNames := new string[capacity](_ => "");
      var newLevels := new int[capacity](_ => 0);
      var newInfos := new Info[capacity](_ => Info(0, 0, 0, false, 0));
      ghost var was := Contents();
      for i := 0 to count
        invariant Shape() && Contents() == was && names == old(names) && levels == old(levels) && infos == old(infos)
        invariant forall j :: 0 <= j < i ==>
                  newNames[j] == names[j] && newLevels[j] == levels[j] && newInfos[j] == infos[j]
      {
        newNames[i], newLevels[i], newInfos[i] := names[i], levels[i], infos[i];
      }
      names, levels, infos := newNames, newLevels, newInfos;
      assert Contents().syms == was.syms;
    }

    /** The new symbol goes at the end of the arrays, its link at the head of its chain. */
    method Append(name: string, info: Info)
      requires Shape() && count < names.Length && Indexed(Contents().syms, buckets[..], hash)
      modifies this`count, names, levels, infos, buckets
      ensures Shape() && Contents() == State(old(Contents()).syms + [Symbol(name, currentScope, info)], currentScope)
      ensures Indexed(Contents().syms, buckets[..], hash)
    {
      hide Indexed;
      ghost var syms, chains := Contents().syms, buckets[..];
      IndexGrows(syms, chains, hash, Symbol(name, currentScope, info));
      var i := count;
      count := count + 1;
      names[i], levels[i], infos[i] := name, currentScope, info;
      var h := hash(name) % buckets.Length;
      buckets[h] := [HashEntry(name, i, currentScope)] + buckets[h];
      assert Contents().syms == syms + [Symbol(name, currentScope, info)];
      assert buckets[..] == chains[h := [HashEntry(name, i, currentScope)] + chains[h]];
    }

    /** parser_declare_symbol: false, and nothing changed, when the scope already has the name. */
    method Declare(name: string, info: Info) returns (ok: bool)
      requires Valid()
      modifies this, names, levels, infos, buckets
      ensures Valid() && Contents() == old(Contents()).Declare(name, info) && ok == !old(Contents()).DeclaredHere(name)
      ensures (fresh(names) && fresh(levels) && fresh(infos)) ||
              (names == old(names) && levels == old(levels) && infos == old(infos))
    {
      hide Indexed, State.Valid;
      EnterDeclareKeepValid(Contents(), name, info);
      ghost var st := Contents();
      var existing := IndexInScope(name, currentScope);
      assert existing >= 0 <==> st.DeclaredHere(name) by {
        if existing >= 0 { assert st.syms[existing].name == name && st.syms[existing].level == st.scope; }
      }
      if existing >= 0 { return false; }
      Grow();
      Append(name, info);
      return true;
    }
  }

  /** Adding a symbol at the end and a link at the head of its chain keeps the index right. */
  lemma IndexGrows(syms: seq<Symbol>, chains: seq<seq<HashEntry>>, hash: Hash, s: Symbol)
    requires Indexed(syms, chains, hash)
    ensures var h := hash(s.name) % |chains|;
            Indexed(syms + [s], chains[h := [HashEntry(s.name, |syms|, s.level)] + chains[h]], hash)
  {
    var h := hash(s.name) % |chains|;
    var e := HashEntry(s.name, |syms|, s.level);
    var now, all := chains[h := [e] + chains[h]], syms + [s];
    forall b, k | 0 <= b < |now| && 0 <= k < |now[b]|
      ensures GoodEntry(all, now[b][k]) && hash(now[b][k].name) % |now| == b
    {
      if b == h && k > 0 { assert now[b][k] == chains[b][k - 1]; }
    }
    forall i | 0 <= i < |all| ensures Listed(now[hash(all[i].name) % |now|], i) {
      if i == |syms| {
        assert now[h][0].index == i;
      } else {
        var b := hash(syms[i].name) % |chains|;
        assert Listed(chains[b], i);
        var k :| 0 <= k < |chains[b]| && chains[b][k].index == i;
        assert now[b][if b == h then k + 1 else k].index == i;
      }
    }
  }

  /** The links of other scopes, in order. */
  function Unlinked(chain: seq<HashEntry>, scope: int): seq<HashEntry> {
    if chain == [] then []
    else if chain[|chain| - 1].level != scope then Unlinked(chain[..|chain| - 1], scope) + [chain[|chain| - 1]]
    else Unlinked(chain[..|chain| - 1], scope)
  }

  lemma {:induction false} UnlinkedHas(chain: seq<HashEntry>, scope: int)
    ensures forall e :: e in Unlinked(chain, scope) <==> e in chain && e.level != scope
  {
    if chain != [] {
      UnlinkedHas(chain[..|chain| - 1], scope);
      assert chain == chain[..|chain| - 1] + [chain[|chain| - 1]];
    }
  }

  /** With the scope's links gone, the index is right for the symbols before it. */
  lemma IndexShrinks(syms: seq<Symbol>, chains: seq<seq<HashEntry>>, now: seq<seq<HashEntry>>, hash: Hash, scope: int,
                     k: nat)
    requires Indexed(syms, chains, hash) && |now| == |chains| && k <= |syms|
    requires forall b :: 0 <= b < |now| ==> now[b] == Unlinked(chains[b], scope)
    requires (forall i :: 0 <= i < k ==> syms[i].level != scope) && forall i :: k <= i < |syms| ==>
               syms[i].level == scope
    ensures Indexed(syms[..k], now, hash)
  {
    forall b, m | 0 <= b < |now| && 0 <= m < |now[b]|
      ensures GoodEntry(syms[..k], now[b][m]) && hash(now[b][m].name) % |now| == b
    {
      UnlinkedHas(chains[b], scope);
      assert now[b][m] in chains[b];
    }
    forall i | 0 <= i < k ensures Listed(now[hash(syms[i].name) % |now|], i) {
      var b := hash(syms[i].name) % |chains|;
      assert Listed(chains[b], i);
      var m :| 0 <= m < |chains[b]| && chains[b][m].index == i;
      assert GoodEntry(syms, chains[b][m]);
      UnlinkedHas(chains[b], scope);
      assert chains[b][m] in now[b];
    }
  }

  /** Invalidating links past the end finds none. */
  lemma NoneStale(syms: seq<Symbol>, chains: seq<seq<HashEntry>>, now: seq<seq<HashEntry>>, hash: Hash)
    requires Indexed(syms, chains, hash) && |now| == |chains| && forall b :: 0 <= b < |now| ==> |now[b]| == |chains[b]|
    requires forall b, k :: 0 <= b < |now| && 0 <= k < |now[b]| ==>
               now[b][k] == (var e := chains[b][k]; if e.index >= |syms| then e.(index := -1) else e)
    ensures now == chains
  {
    forall b | 0 <= b < |now| ensures now[b] == chains[b] {
      forall k | 0 <= k < |now[b]| ensures now[b][k] == chains[b][k] { assert GoodEntry(syms, chains[b][k]); }
    }
  }

  // ----- against a stack of scopes, each a map -----

  datatype Op = OpEnter | OpDeclare(name: string, info: Info) | OpExit

  type Scopes = seq<map<string, Info>>

  /** Every exit has its entry. */
  predicate Paired(ops: seq<Op>, depth: nat) {
    ops == [] ||
    (match ops[0]
     case OpEnter => Paired(ops[1..], depth + 1)
     case OpDeclare(_, _) => Paired(ops[1..], depth)
     case OpExit => depth > 0 && Paired(ops[1..], depth - 1))
  }

  ghost function Apply(st: State, op: Op): State {
    match op
    case OpEnter => st.Enter()
    case OpDeclare(name, info) => st.Declare(name, info)
    case OpExit => st.Exit()
  }

  function ApplyScopes(ss: Scopes, op: Op): Scopes
    requires ss != []
  {
    var top := |ss| - 1;
    match op
    case OpEnter => ss + [map[]]
    case OpDeclare(name, info) => if name in ss[top] then ss else ss[top := ss[top][name := info]]
    case OpExit => if top == 0 then ss else ss[..top]
  }

  ghost function RunOps(st: State, ops: seq<Op>): State
    decreases |ops|
  {
    if ops == [] then st else RunOps(Apply(st, ops[0]), ops[1..])
  }

  function RunScopes(ss: Scopes, ops: seq<Op>): Scopes
    requires ss != []
    decreases |ops|
  {
    if ops == [] then ss else RunScopes(ApplyScopes(ss, ops[0]), ops[1..])
  }

  datatype Found = Found(info: Info) | Missing

  /** The innermost scope that has the name decides. */
  function FindIn(ss: Scopes, name: string): Found {
    if ss == [] then Missing
    else if name in ss[|ss| - 1] then Found(ss[|ss| - 1][name])
    else FindIn(ss[..|ss| - 1], name)
  }

  ghost predicate Has(syms: seq<Symbol>, name: string, level: int, info: Info) { Symbol(name, level, info) in syms }

  ghost predicate Same(st: State, ss: Scopes) {
    |ss| == st.scope + 1 && (forall s :: s in st.syms ==> 0 <= s.level < |ss|) &&
    (forall s :: s in st.syms ==> s.name in ss[s.level] && ss[s.level][s.name] == s.info) &&
    (forall l, name :: 0 <= l < |ss| && name in ss[l] ==> Has(st.syms, name, l, ss[l][name]))
  }

  lemma SameDeclare(st: State, ss: Scopes, name: string, info: Info)
    requires st.Valid() && Same(st, ss)
    ensures Same(st.Declare(name, info), ApplyScopes(ss, OpDeclare(name, info)))
  {
    assert ss != [];
    hide State.Valid;
    HereIff(st, ss, name);
    if name !in ss[|ss| - 1] {
      hide State.DeclaredHere;
      SameAppend(st, ss, name, info);
    }
  }

  lemma HereIff(st: State, ss: Scopes, name: string)
    requires ss != [] && Same(st, ss)
    ensures st.DeclaredHere(name) <==> name in ss[|ss| - 1]
  {
    var top := |ss| - 1;
    if name in ss[top] {
      assert Has(st.syms, name, top, ss[top][name]);
    } else {
      forall i | 0 <= i < |st.syms| && st.syms[i].level == top ensures st.syms[i].name != name {
        assert st.syms[i] in st.syms;
      }
    }
  }

  lemma SameAppend(st: State, ss: Scopes, name: string, info: Info)
    requires ss != [] && Same(st, ss) && name !in ss[|ss| - 1]
    ensures var top := |ss| - 1;
            Same(st.(syms := st.syms + [Symbol(name, top, info)]), ss[top := ss[top][name := info]])
  {
    var top := |ss| - 1;
    var now, ss' := st.syms + [Symbol(name, top, info)], ss[top := ss[top][name := info]];
    forall s | s in now ensures 0 <= s.level < |ss'| && s.name in ss'[s.level] && ss'[s.level][s.name] == s.info {
      if s !in st.syms { assert s == Symbol(name, top, info); }
    }
    forall l, x | 0 <= l < |ss'| && x in ss'[l] ensures Has(now, x, l, ss'[l][x]) {
      if l == top && x == name {
        assert now[|st.syms|] == Symbol(name, top, info);
      } else {
        assert Has(st.syms, x, l, ss[l][x]);
      }
    }
  }

  lemma SameExit(st: State, ss: Scopes)
    requires st.Valid() && Same(st, ss) && st.scope > 0
    ensures Same(st.Exit(), ApplyScopes(ss, OpExit))
  {
    var k := ExitTruncates(st);
    var now, ss' := st.Exit(), ss[..|ss| - 1];
    forall s | s in now.syms ensures s in st.syms && s.level < st.scope {
      var i :| 0 <= i < k && now.syms[i] == s;
      assert st.syms[i] == s;
    }
    forall l, x | 0 <= l < |ss'| && x in ss'[l] ensures Has(now.syms, x, l, ss'[l][x]) {
      assert Has(st.syms, x, l, ss[l][x]);
      var i :| 0 <= i < |st.syms| && st.syms[i] == Symbol(x, l, ss[l][x]);
      assert now.syms[i] == st.syms[i];
    }
  }

  /** After any paired sequence of entries, declarations and exits the table is valid and holds what
    * the stack of scopes holds. */
  lemma {:induction false} RunRefines(st: State, ss: Scopes, ops: seq<Op>)
    requires st.Valid() && ss != [] && Same(st, ss) && Paired(ops, st.scope)
    ensures RunOps(st, ops).Valid() && Same(RunOps(st, ops), RunScopes(ss, ops))
    decreases |ops|
  {
    hide State.Valid, Same;
    if ops != [] {
      match ops[0]
      case OpEnter =>
        EnterDeclareKeepValid(st, "", Info(0, 0, 0, false, 0));
        SameEnter(st, ss);
        RunRefines(st.Enter(), ss + [map[]], ops[1..]);
      case OpDeclare(name, info) =>
        EnterDeclareKeepValid(st, name, info);
        SameDeclare(st, ss, name, info);
        assert ApplyScopes(ss, ops[0]) != [];
        RunRefines(st.Declare(name, info), ApplyScopes(ss, ops[0]), ops[1..]);
      case OpExit =>
        var _ := ExitTruncates(st);
        SameExit(st, ss);
        RunRefines(st.Exit(), ApplyScopes(ss, ops[0]), ops[1..]);
    }
  }

  lemma SameEnter(st: State, ss: Scopes)
    requires st.Valid() && Same(st, ss)
    ensures Same(st.Enter(), ss + [map[]])
  {
    forall l, name | 0 <= l < |ss + [map[]]| && name in (ss + [map[]])[l]
      ensures Has(st.syms, name, l, (ss + [map[]])[l][name])
    {
      assert l < |ss| && Has(st.syms, name, l, ss[l][name]);
    }
  }

  lemma {:induction false} FindInIs(ss: Scopes, name: string, l: nat)
    requires l < |ss| && name in ss[l] && forall m :: l < m < |ss| ==> name !in ss[m]
    ensures FindIn(ss, name) == Found(ss[l][name])
  {
    if l < |ss| - 1 { FindInIs(ss[..|ss| - 1], name, l); }
  }

  lemma {:induction false} FindInMissing(ss: Scopes, name: string)
    requires forall m :: 0 <= m < |ss| ==> name !in ss[m]
    ensures FindIn(ss, name) == Missing
  {
    if ss != [] { FindInMissing(ss[..|ss| - 1], name); }
  }

  /** So a lookup, which is the reverse linear scan, finds the innermost declaration in scope. */
  lemma LookupFindsInnermost(ops: seq<Op>, name: string)
    requires Paired(ops, 0)
    ensures var st, ss := RunOps(State([], 0), ops), RunScopes([map[]], ops); var i := LastIndex(st.syms, name);
            -1 <= i < |st.syms| && FindIn(ss, name) == if i >= 0 then Found(st.syms[i].info) else Missing
  {
    RunRefines(State([], 0), [map[]], ops);
    var st, ss := RunOps(State([], 0), ops), RunScopes([map[]], ops);
    LastIndexIs(st.syms, name);
    LastIsInnermost(st, ss, name);
  }

  lemma Declaration(st: State, ss: Scopes, name: string, level: nat) returns (j: nat)
    requires Same(st, ss) && level < |ss| && name in ss[level]
    ensures j < |st.syms| && st.syms[j].name == name && st.syms[j].level == level
  {
    assert Has(st.syms, name, level, ss[level][name]);
    j :| 0 <= j < |st.syms| && st.syms[j] == Symbol(name, level, ss[level][name]);
  }

  lemma LastIsInnermost(st: State, ss: Scopes, name: string)
    requires st.Valid() && Same(st, ss)
    ensures var i := LastIndex(st.syms, name);
            -1 <= i < |st.syms| && FindIn(ss, name) == if i >= 0 then Found(st.syms[i].info) else Missing
  {
    LastIndexIs(st.syms, name);
    hide FindIn, LastIndex;
    var i := LastIndex(st.syms, name);
    if i >= 0 {
      assert st.syms[i] in st.syms;
      NoneAbove(st, ss, name, i);
      FindInIs(ss, name, st.syms[i].level);
    } else {
      forall m | 0 <= m < |ss| ensures name !in ss[m] {
        if name in ss[m] {
          var j := Declaration(st, ss, name, m);
        }
      }
      FindInMissing(ss, name);
    }
  }

  /** Levels rise along the table, so no scope above the last declaration's has the name. */
  lemma NoneAbove(st: State, ss: Scopes, name: string, i: nat)
    requires st.Valid() && Same(st, ss) && i < |st.syms|
    requires forall j :: i < j < |st.syms| ==> st.syms[j].name != name
    ensures forall m :: st.syms[i].level < m < |ss| ==> name !in ss[m]
  {
    assert st.syms[i] in st.syms;
    forall m | st.syms[i].level < m < |ss| ensures name !in ss[m] {
      if name in ss[m] {
        var j := Declaration(st, ss, name, m);
      }
    }
  }
}
