/** Dispatch of match statements: jump tables and hash switches against the plain chain of checks.
  * source/compiler/codegen_match.c:42-237, 240-476, 480-528; lookups as in source/core/vm.c:2722-2850. */
module MatchDispatch {
  import opened Sequences

  import Machine

  type Bytes = seq<bv8>

  // ----- doubles -----

  /** The two 32-bit halves of a bit pattern. */
  datatype Bits = Bits(lo: bv32, hi: bv32)

  /** 2 to the power e. */
  function Scale(e: int): real
    decreases if e < 0 then -e else e
  {
    if e == 0 then 1.0 else if e > 0 then 2.0 * Scale(e - 1) else Scale(e + 1) / 2.0
  }

  /** The fields of IEEE 754's binary64 format, section 3.4. */
  function Exponent(b: Bits): int { ((b.hi >> 20) & 0x7FF) as int }

  function Fraction(b: Bits): real {
    ((b.hi & 0xF_FFFF) as int * 0x1_0000_0000 + b.lo as int) as real / 0x10_0000_0000_0000 as real
  }

  predicate Finite(b: Bits) { Exponent(b) != 0x7FF }

  function Decode(b: Bits): real {
    var (e, f) := (Exponent(b), Fraction(b));
    var size := if e == 0 then f * Scale(-1022) else (1.0 + f) * Scale(e - 1023);
    if b.hi >> 31 == 0 then size else -size
  }

  ghost predicate IsDouble(x: real) { exists b :: Finite(b) && Decode(b) == x }

  /** Reading a double's bits, with -0.0 folded into 0.0. */
  type Encoding = real -> Bits

  ghost predicate Encodes(enc: Encoding) {
    enc(0.0) == Bits(0, 0) && forall x :: IsDouble(x) ==> Finite(enc(x)) && Decode(enc(x)) == x
  }

  // ----- patterns and subjects -----

  datatype Pattern = PNum(v: real) | PStr(s: Bytes) | PBool(b: bool) | PNone

  datatype Subject = SNum(v: real) | SStr(s: Bytes) | SBool(b: bool) | SNone | SOther

  /** Numbers are doubles; NaN, which matches nothing, does not occur. */
  ghost predicate Storable(s: Subject) { s.SNum? ==> IsDouble(s.v) }

  ghost predicate DoubleCases(cases: seq<Pattern>) {
    forall i :: 0 <= i < |cases| && cases[i].PNum? ==> IsDouble(cases[i].v)
  }

  // ----- the chain: the first case that matches, else the fallback -----

  predicate Matches(p: Pattern, s: Subject) {
    match p
    case PNum(v) => s.SNum? && s.v == v
    case PStr(t) => s.SStr? && s.s == t
    case PBool(b) => s.SBool? && s.b == b
    case PNone => s.SNone?
  }

  function FirstMatch(cases: seq<Pattern>, s: Subject, i: nat): nat
    requires i <= |cases|
    decreases |cases| - i
  {
    if i == |cases| || Matches(cases[i], s) then i else FirstMatch(cases, s, i + 1)
  }

  function ChainTarget(cases: seq<Pattern>, targets: seq<nat>, fallback: nat, s: Subject): nat
    requires |targets| == |cases|
  {
    var i := FirstMatch(cases, s, 0);
    if i < |cases| then targets[i] else fallback
  }

  lemma {:induction false} FirstMatchIs(cases: seq<Pattern>, s: Subject, i: nat, k: nat)
    requires i <= k <= |cases| && (k < |cases| ==> Matches(cases[k], s))
    requires forall j :: i <= j < k ==> !Matches(cases[j], s)
    ensures FirstMatch(cases, s, i) == k
    decreases k - i
  {
    if i < k { FirstMatchIs(cases, s, i + 1, k); }
  }

  /** With at most one matching case the chain is a plain lookup. */
  lemma ChainIs(cases: seq<Pattern>, targets: seq<nat>, fallback: nat, s: Subject, k: nat)
    requires |targets| == |cases| && k <= |cases| && forall j :: 0 <= j < |cases| ==> (Matches(cases[j], s) <==> j == k)
    ensures ChainTarget(cases, targets, fallback, s) == if k < |cases| then targets[k] else fallback
  {
    FirstMatchIs(cases, s, 0, k);
  }

  datatype Attempt<T> = Built(plan: T) | Declined

  // ----- jump tables -----

  const INT_MIN: int := -0x8000_0000
  const INT_MAX: int := 0x7fff_ffff

  /** pattern_int_value. */
  predicate IsInt(p: Pattern) { p.PNum? && p.v == p.v.Floor as real && INT_MIN <= p.v.Floor <= INT_MAX }

  function IntOf(p: Pattern): int
    requires IsInt(p)
  {
    p.v.Floor
  }

  datatype JumpTable = JumpTable(min: int, addresses: seq<int>)

  /** JUMP_TABLE, with the machine's own slot offset, followed by the jump taken on a miss. */
  function SelectJump(t: JumpTable, fallback: nat, s: Subject): int {
    if !s.SNum? then fallback else
    match Machine.WholeOffset(s.v, t.min)
    case None => fallback
    case Some(k) => if k < |t.addresses| then t.addresses[k] else fallback
  }

  function MinOf(vs: seq<int>, k: nat): int
    requires k <= |vs|
  {
    if k == 0 then INT_MAX else if vs[k - 1] < MinOf(vs, k - 1) then vs[k - 1] else MinOf(vs, k - 1)
  }

  function MaxOf(vs: seq<int>, k: nat): int
    requires k <= |vs|
  {
    if k == 0 then INT_MIN else if vs[k - 1] > MaxOf(vs, k - 1) then vs[k - 1] else MaxOf(vs, k - 1)
  }

  lemma {:induction false} MinMax(vs: seq<int>, k: nat)
    requires k <= |vs| && forall i :: 0 <= i < |vs| ==> INT_MIN <= vs[i] <= INT_MAX
    ensures INT_MIN <= MaxOf(vs, k) <= INT_MAX && INT_MIN <= MinOf(vs, k) <= INT_MAX
    ensures forall i :: 0 <= i < k ==> MinOf(vs, k) <= vs[i] <= MaxOf(vs, k)
  {
    if k > 0 { MinMax(vs, k - 1); }
  }

  ghost predicate AllInts(cases: seq<Pattern>) { forall i :: 0 <= i < |cases| ==> IsInt(cases[i]) }

  ghost function Ints(cases: seq<Pattern>): (vs: seq<int>)
    requires AllInts(cases)
  {
    seq(|cases|, i requires 0 <= i < |cases| => IntOf(cases[i]))
  }

  /** What makes a jump table worth building: enough distinct integer cases, close together. */
  ghost predicate Dense(cases: seq<Pattern>) {
    |cases| >= 3 && AllInts(cases) && Distinct(Ints(cases)) &&
    var span := MaxOf(Ints(cases), |cases|) - MinOf(Ints(cases), |cases|) + 1;
    span <= 16 * |cases| && span <= 512
  }

  /** Case i is a number that a 32-bit int holds. */
  predicate Whole32(p: Pattern) {
    p.PNum? && p.v == p.v.Floor as real && -2147483648.0 <= p.v <= 2147483647.0
  }

  /** Three or more different int cases, no two of them further apart than 512 slots or sixteen for each case. */
  lemma DenseIff(cases: seq<Pattern>)
    ensures Dense(cases) <==>
            |cases| >= 3 && (forall i :: 0 <= i < |cases| ==> Whole32(cases[i])) &&
            (forall i, j :: 0 <= i < j < |cases| ==> cases[i].v != cases[j].v) &&
            forall i, j :: 0 <= i < |cases| && 0 <= j < |cases| ==>
              cases[i].v - cases[j].v < 512.0 && cases[i].v - cases[j].v < 16.0 * |cases| as real
  {
    if |cases| >= 3 && forall i :: 0 <= i < |cases| ==> Whole32(cases[i]) {
      var vs := Ints(cases);
      MinMax(vs, |vs|);
      var a := WhereMin(vs, |vs|);
      var b := WhereMax(vs, |vs|);
      assert vs[b] - vs[a] == MaxOf(vs, |vs|) - MinOf(vs, |vs|);
      assert cases[b].v - cases[a].v == (vs[b] - vs[a]) as real;
      forall i, j | 0 <= i < |cases| && 0 <= j < |cases| ensures cases[i].v - cases[j].v <= cases[b].v - cases[a].v {
        assert vs[i] <= vs[b] && vs[a] <= vs[j];
      }
      DistinctValues(cases);
    }
  }

  lemma DistinctValues(cases: seq<Pattern>)
    requires AllInts(cases)
    ensures Distinct(Ints(cases)) <==> forall i, j :: 0 <= i < j < |cases| ==> cases[i].v != cases[j].v
  {
    var vs := Ints(cases);
    forall i, j | 0 <= i < j < |cases| ensures vs[i] == vs[j] <==> cases[i].v == cases[j].v {}
  }

  lemma {:induction false} WhereMin(vs: seq<int>, k: nat) returns (i: nat)
    requires 0 < k <= |vs| && forall i :: 0 <= i < |vs| ==> vs[i] <= INT_MAX
    ensures i < k && vs[i] == MinOf(vs, k)
  {
    if vs[k - 1] < MinOf(vs, k - 1) || k == 1 { i := k - 1; } else { i := WhereMin(vs, k - 1); }
  }

  lemma {:induction false} WhereMax(vs: seq<int>, k: nat) returns (i: nat)
    requires 0 < k <= |vs| && forall i :: 0 <= i < |vs| ==> vs[i] >= INT_MIN
    ensures i < k && vs[i] == MaxOf(vs, k)
  {
    if vs[k - 1] > MaxOf(vs, k - 1) || k == 1 { i := k - 1; } else { i := WhereMax(vs, k - 1); }
  }

  /** The smallest match that gets a jump table. */
  lemma OneTwoThree()
    ensures Dense([PNum(1.0), PNum(2.0), PNum(3.0)])
  {
    var cases := [PNum(1.0), PNum(2.0), PNum(3.0)];
    assert AllInts(cases);
    var vs := Ints(cases);
    assert vs == [1, 2, 3];
    assert MinOf(vs, 1) == 1 && MinOf(vs, 2) == 1 && MinOf(vs, 3) == 1;
    assert MaxOf(vs, 1) == 1 && MaxOf(vs, 2) == 2 && MaxOf(vs, 3) == 3;
  }

  /** Every address of the table is a case's or the fallback. */
  ghost predicate Fills(vs: seq<int>, targets: seq<nat>, fallback: nat, t: JumpTable) {
    |targets| == |vs| && INT_MIN <= t.min && t.min + |t.addresses| - 1 <= INT_MAX &&
    (forall i :: 0 <= i < |vs| ==>
       t.min <= vs[i] < t.min + |t.addresses| && t.addresses[vs[i] - t.min] == targets[i]) &&
    (forall k :: 0 <= k < |t.addresses| && t.min + k !in vs ==> t.addresses[k] == fallback)
  }

  /** The cases as integers, with the least and the greatest. */
  method ReadInts(cases: seq<Pattern>) returns (r: Attempt<seq<int>>, minV: int, maxV: int)
    ensures r.Built? <==> AllInts(cases)
    ensures r.Built? ==> r.plan == Ints(cases) && minV == MinOf(r.plan, |cases|) && maxV == MaxOf(r.plan, |cases|)
  {
    var n := |cases|;
    var values := new int[n];
    minV, maxV := INT_MAX, INT_MIN;
    for i := 0 to n
      invariant forall j :: 0 <= j < i ==> IsInt(cases[j]) && values[j] == IntOf(cases[j])
      invariant minV == MinOf(values[..], i) && maxV == MaxOf(values[..], i)
    {
      if !IsInt(cases[i]) { return Declined, minV, maxV; }
      ghost var was := values[..];
      values[i] := IntOf(cases[i]);
      SamePrefix(was, values[..], i);
      if values[i] < minV { minV := values[i]; }
      if values[i] > maxV { maxV := values[i]; }
    }
    assert values[..] == Ints(cases);
    return Built(values[..]), minV, maxV;
  }

  method AllDistinct(vs: seq<int>) returns (ok: bool)
    ensures ok <==> Distinct(vs)
  {
    for i := 0 to |vs|
      invariant forall j, k :: 0 <= j < i && j < k < |vs| ==> vs[j] != vs[k]
    {
      for j := i + 1 to |vs|
        invariant forall k :: i < k < j ==> vs[i] != vs[k]
      {
        if vs[i] == vs[j] { return false; }
      }
    }
    return true;
  }

  /** Table slots, once the bodies' addresses are known; -1 marks a hole until the end. */
  method FillTable(vs: seq<int>, targets: seq<nat>, fallback: nat, minV: int, span: nat) returns (addresses: array<int>)
    requires |targets| == |vs| && Distinct(vs) && forall i :: 0 <= i < |vs| ==> minV <= vs[i] < minV + span
    ensures fresh(addresses) && addresses.Length == span
    ensures forall i :: 0 <= i < |vs| ==> addresses[vs[i] - minV] == targets[i]
    ensures forall k :: 0 <= k < span && minV + k !in vs ==> addresses[k] == fallback
  {
    addresses := new int[span](_ => -1);
    for i := 0 to |vs|
      invariant forall j :: 0 <= j < i ==> addresses[vs[j] - minV] == targets[j]
      invariant forall k :: 0 <= k < span && minV + k !in vs ==> addresses[k] == -1
    {
      addresses[vs[i] - minV] := targets[i];
    }
    for k := 0 to span
      invariant forall j :: 0 <= j < |vs| ==> addresses[vs[j] - minV] == targets[j]
      invariant forall m :: 0 <= m < span && minV + m !in vs ==> addresses[m] == if m < k then fallback else -1
    {
      if addresses[k] == -1 { addresses[k] := fallback; }
    }
  }

  /** try_match_jump_table. */
  method TryJumpTable(cases: seq<Pattern>, targets: seq<nat>, fallback: nat) returns (r: Attempt<JumpTable>)
    requires |targets| == |cases|
    ensures r.Built? <==> Dense(cases)
    ensures r.Built? ==> Fills(Ints(cases), targets, fallback, r.plan)
  {
    hide MinOf, MaxOf;
    if |cases| < 3 { return Declined; }
    var values, minV, maxV := ReadInts(cases);
    if values.Declined? { return Declined; }
    var vs := values.plan;
    var ok := AllDistinct(vs);
    if !ok { return Declined; }
    MinMax(vs, |vs|);
    assert minV <= vs[0] <= maxV;
    var span := maxV - minV + 1;
    if span > 16 * |cases| || span > 512 { return Declined; }
    var addresses := FillTable(vs, targets, fallback, minV, span);
    r := Built(JumpTable(minV, addresses[..]));
  }

  lemma {:induction false} SamePrefix(a: seq<int>, b: seq<int>, k: nat)
    requires k <= |a| == |b| && a[..k] == b[..k]
    ensures MinOf(a, k) == MinOf(b, k) && MaxOf(a, k) == MaxOf(b, k)
  {
    if k > 0 {
      assert a[k - 1] == a[..k][k - 1] == b[k - 1];
      assert a[..k - 1] == a[..k][..k - 1] == b[..k - 1];
      SamePrefix(a, b, k - 1);
    }
  }

  /** Only a subject inside the table has a wrapped offset inside it. */
  lemma WrapHarmless(k: int, min: int, count: nat)
    requires INT_MIN <= k <= INT_MAX && INT_MIN <= min && min + count - 1 <= INT_MAX
    ensures (k - min) % 0x1_0000_0000 < count <==> min <= k < min + count
    ensures min <= k < min + count ==> (k - min) % 0x1_0000_0000 == k - min
  {
    if k < min { assert (k - min) % 0x1_0000_0000 == k - min + 0x1_0000_0000; }
  }

  /** A jump table selects what the chain selects, for every subject. */
  lemma JumpTableIsChain(cases: seq<Pattern>, targets: seq<nat>, fallback: nat, t: JumpTable, s: Subject)
    requires Dense(cases) && Fills(Ints(cases), targets, fallback, t)
    ensures |targets| == |cases| && SelectJump(t, fallback, s) == ChainTarget(cases, targets, fallback, s)
  {
    hide MinOf, MaxOf, FirstMatch, ChainTarget;
    var vs := Ints(cases);
    if s.SNum? && s.v == s.v.Floor as real && INT_MIN <= s.v.Floor <= INT_MAX {
      var k := s.v.Floor;
      forall i | 0 <= i < |cases| ensures Matches(cases[i], s) <==> vs[i] == k { }
      WrapHarmless(k, t.min, |t.addresses|);
      if k in vs {
        var i :| 0 <= i < |vs| && vs[i] == k;
        ChainIs(cases, targets, fallback, s, i);
      } else {
        ChainIs(cases, targets, fallback, s, |cases|);
      }
    } else {
      ChainIs(cases, targets, fallback, s, |cases|);
    }
  }

  // ----- hash switches -----

  function DjbStep(h: bv32, c: bv8): bv32 { (h << 5) + h + c as bv32 }

  /** sw_djb2, which is also the hash the machine gives a string. */
  function Djb2(s: Bytes): bv32 { if s == [] then 5381 else DjbStep(Djb2(s[..|s| - 1]), s[|s| - 1]) }

  method SwDjb2(s: Bytes) returns (h: bv32)
    ensures h == Djb2(s)
  {
    hide DjbStep;
    h := 5381;
    for i := 0 to |s|
      invariant h == Djb2(s[..i])
    {
      assert s[..i + 1][..i] == s[..i];
      h := DjbStep(h, s[i]);
    }
    assert s[..|s|] == s;
  }

  /** The machine's hash of a number when it runs SWITCH_NUM. */
  function RunHash(b: Bits): bv32 { (((2166136261 ^ b.lo) * 16777619) ^ b.hi) * 16777619 }

  /** num_sw_hash, used when the table is built: the same hash with a last scrambling step. */
  function BuildHash(b: Bits): bv32 {
    var h := RunHash(b);
    var g := (h ^ (h >> 15)) * 2246822519;
    g ^ (g >> 13)
  }

  /** The three hashes on a number with both halves in use, 0.1, and on the text "apex". */
  lemma SampleHashes()
    ensures RunHash(Bits(0x9999_999A, 0x3FB9_9999)) == 3021014908
    ensures BuildHash(Bits(0x9999_999A, 0x3FB9_9999)) == 3167229661
    ensures Djb2([0x61, 0x70, 0x65, 0x78]) == 2090084915
  {
    var a: Bytes, p: Bytes, e: Bytes := [0x61], [0x61, 0x70], [0x61, 0x70, 0x65];
    Djb2Append([], 0x61);
    assert [] + [0x61] == a;
    Djb2Append(a, 0x70);
    assert a + [0x70] == p;
    Djb2Append(p, 0x65);
    assert p + [0x65] == e;
    Djb2Append(e, 0x78);
    assert e + [0x78] == [0x61, 0x70, 0x65, 0x78];
  }

  lemma Djb2Append(s: Bytes, c: bv8)
    ensures Djb2(s + [c]) == DjbStep(Djb2(s), c)
  {
    assert (s + [c])[..|s|] == s;
  }

  function Slot(h: bv32, addend: bv32, mask: bv32): bv32 { (h ^ addend) & mask }

  /** Slots are in bounds: a table has mask + 1 of them. */
  lemma SlotBound(h: bv32, addend: bv32, mask: bv32)
    ensures Slot(h, addend, mask) <= mask
  {
  }

  function Xor(p: bv32, q: bv32): bv32 { p ^ q }

  lemma SlotSplit(x: bv32, a: bv32, m: bv32)
    ensures Slot(x, a, m) == Xor(Slot(x, 0, m), a & m)
  {
  }

  lemma XorTwice(p: bv32, r: bv32)
    ensures Xor(Xor(p, r), r) == p
  {
  }

  /** XOR by a constant moves slots about but never separates two hashes. */
  lemma XorKeepsCollisions(g: bv32, h: bv32, addend: bv32, mask: bv32)
    ensures Slot(g, addend, mask) == Slot(h, addend, mask) <==> Slot(g, 0, mask) == Slot(h, 0, mask)
  {
    hide Slot, Xor;
    SlotSplit(g, addend, mask);
    SlotSplit(h, addend, mask);
    var t := addend & mask;
    XorTwice(Slot(g, 0, mask), t);
    XorTwice(Slot(h, 0, mask), t);
  }

  /** No two hashes share a slot. */
  ghost predicate Perfect(hashes: seq<bv32>, addend: bv32, mask: bv32) {
    forall i, j :: 0 <= j < i < |hashes| ==> Slot(hashes[i], addend, mask) != Slot(hashes[j], addend, mask)
  }

  lemma PerfectForAll(hashes: seq<bv32>, addend: bv32, mask: bv32)
    ensures Perfect(hashes, addend, mask) <==> Perfect(hashes, 0, mask)
  {
    hide Slot;
    forall i, j | 0 <= j < i < |hashes|
      ensures Slot(hashes[i], addend, mask) == Slot(hashes[j], addend, mask) <==>
              Slot(hashes[i], 0, mask) == Slot(hashes[j], 0, mask)
    {
      XorKeepsCollisions(hashes[i], hashes[j], addend, mask);
    }
  }

  /** sw_find_perfect_addend: it searches 65536 addends, yet succeeds exactly when the masked hashes
    * are already distinct, and then with addend 0. */
  method FindPerfectAddend(hashes: seq<bv32>, mask: bv32) returns (found: bool, addend: bv32)
    ensures found <==> Perfect(hashes, 0, mask)
    ensures found ==> addend == 0
  {
    hide Slot;
    addend := 0;
    for tries := 0 to 65536
      invariant tries == 0 ==> addend == 0
      invariant tries > 0 ==> !Perfect(hashes, 0, mask)
    {
      var ok := true;
      var i := 0;
      while i < |hashes| && ok
        invariant 0 <= i <= |hashes|
        invariant ok ==> forall p, q :: 0 <= q < p < i ==>
                    Slot(hashes[p], addend, mask) != Slot(hashes[q], addend, mask)
        invariant !ok ==> !Perfect(hashes, addend, mask)
        decreases |hashes| - i
      {
        var hi := Slot(hashes[i], addend, mask);
        for j := 0 to i
          invariant ok && forall q :: 0 <= q < j ==> hi != Slot(hashes[q], addend, mask)
        {
          if hi == Slot(hashes[j], addend, mask) {
            ok := false;
            break;
          }
        }
        i := i + 1;
      }
      PerfectForAll(hashes, addend, mask);
      if ok { return true, addend; }
      addend := addend + 1;
    }
    return false, addend;
  }

  function Mask(cap: nat): bv32
    requires cap > 0
  {
    ((cap - 1) % 0x1_0000_0000) as bv32
  }

  /** The table sizes tried: doubling, at most ten and not beyond 4096 after the first. */
  function Sizes(cap: nat, bumps: nat): (s: seq<nat>)
    requires cap > 0
    ensures forall k :: 0 <= k < |s| ==> s[k] > 0
    decreases bumps
  {
    if bumps == 0 then [] else [cap] + (if 2 * cap > 4096 then [] else Sizes(2 * cap, bumps - 1))
  }

  function FirstSize(n: nat, cap: nat): (c: nat)
    requires cap > 0
    ensures c >= cap
    decreases 4 * n - cap
  {
    if cap < 4 * n then FirstSize(n, 2 * cap) else cap
  }

  /** 8, 16, 32, .. */
  function Doubled(k: nat): (c: nat)
    ensures c >= 8
  {
    if k == 0 then 8 else 2 * Doubled(k - 1)
  }

  lemma {:induction false} DoubledGrows(i: nat, k: nat)
    requires i < k
    ensures 2 * Doubled(i) <= Doubled(k)
    decreases k
  {
    if i < k - 1 { DoubledGrows(i, k - 1); }
  }

  /** The sizes tried for n cases: powers of two with four slots a case or more, up to 4096, or the least
    * of them when that is beyond 4096. */
  ghost predicate Tried(n: nat, c: nat) {
    (exists k :: Doubled(k) == c) && c >= 4 * n && (c <= 4096 || c < 8 * n)
  }

  lemma {:induction false} SizesAt(j: nat, bumps: nat, c: nat)
    ensures c in Sizes(Doubled(j), bumps) <==>
            exists i :: j <= i < j + bumps && Doubled(i) == c && (i == j || c <= 4096)
    decreases bumps
  {
    if bumps > 0 {
      SizesAt(j + 1, bumps - 1, c);
      assert Doubled(j + 1) == 2 * Doubled(j);
      forall i | j + 1 < i ensures 2 * Doubled(j + 1) <= Doubled(i) { DoubledGrows(j + 1, i); }
    }
  }

  lemma {:induction false} FirstSizeAt(n: nat, j: nat) returns (k: nat)
    ensures FirstSize(n, Doubled(j)) == Doubled(k) && k >= j && Doubled(k) >= 4 * n && (k == j || Doubled(k) < 8 * n)
    decreases 4 * n - Doubled(j)
  {
    k := j;
    if Doubled(j) < 4 * n {
      assert Doubled(j + 1) == 2 * Doubled(j);
      k := FirstSizeAt(n, j + 1);
    }
  }

  lemma TriedIff(n: nat, c: nat)
    ensures c in Sizes(FirstSize(n, 8), 10) <==> Tried(n, c)
  {
    hide Doubled, Sizes, FirstSize, Tried;
    Doubled0();
    var k := FirstSizeAt(n, 0);
    SizesAt(k, 10, c);
    if i :| k <= i < k + 10 && Doubled(i) == c && (i == k || c <= 4096) { AtLeastFirst(n, k, i); }
    if Tried(n, c) { var i := WhichTried(n, k, c); }
  }

  lemma Doubled0()
    ensures Doubled(0) == 8
  {
  }

  lemma AtLeastFirst(n: nat, k: nat, i: nat)
    requires k <= i && Doubled(k) >= 4 * n && (k == 0 || Doubled(k) < 8 * n) && (i == k || Doubled(i) <= 4096)
    ensures Tried(n, Doubled(i))
  {
    if k < i { DoubledGrows(k, i); }
  }

  lemma WhichTried(n: nat, k: nat, c: nat) returns (i: nat)
    requires Tried(n, c) && Doubled(k) >= 4 * n && (k == 0 || Doubled(k) < 8 * n)
    ensures k <= i < k + 10 && Doubled(i) == c && (i == k || c <= 4096)
  {
    i :| Doubled(i) == c;
    if i < k { DoubledGrows(i, k); }
    if k < i {
      DoubledGrows(k, i);
      TenSizes();
      if 9 < i { DoubledGrows(9, i); }
    }
  }

  lemma TenSizes()
    ensures Doubled(9) == 4096
  {
    assert Doubled(1) == 16 && Doubled(2) == 32 && Doubled(3) == 64 && Doubled(4) == 128 && Doubled(5) == 256;
    assert Doubled(6) == 512 && Doubled(7) == 1024 && Doubled(8) == 2048;
  }

  ghost predicate Ascends(s: seq<nat>) { forall i, j :: 0 <= i < j < |s| ==> s[i] < s[j] }

  lemma {:induction false} SizesAscend(cap: nat, bumps: nat)
    requires cap > 0
    ensures Ascends(Sizes(cap, bumps))
    ensures forall i :: 0 <= i < |Sizes(cap, bumps)| ==> Sizes(cap, bumps)[i] >= cap
    decreases bumps
  {
    if bumps > 0 {
      var s, rest := Sizes(cap, bumps), Sizes(2 * cap, bumps - 1);
      SizesAscend(2 * cap, bumps - 1);
      forall i, j | 0 <= i < j < |s| ensures s[i] < s[j] {
        assert s[j] == rest[j - 1] >= 2 * cap;
        if i > 0 {
          assert s[i] == rest[i - 1];
          assert Ascends(rest) && 0 <= i - 1 < j - 1 < |rest|;
        }
      }
    }
  }

  lemma {:induction false} FirstMaskIs(hashes: seq<bv32>, sizes: seq<nat>, k: nat)
    requires (forall i :: 0 <= i < |sizes| ==> sizes[i] > 0) && k < |sizes| && Perfect(hashes, 0, Mask(sizes[k]))
    requires forall i :: 0 <= i < k ==> !Perfect(hashes, 0, Mask(sizes[i]))
    ensures FirstMask(hashes, sizes) == Mask(sizes[k])
    decreases k
  {
    hide Perfect, Mask;
    if k > 0 { FirstMaskIs(hashes, sizes[1..], k - 1); }
  }

  /** A switch can be built exactly when some size tried separates the hashes, and the least such is taken. */
  lemma SizeChosen(hashes: seq<bv32>, c: nat)
    requires Tried(|hashes|, c) && Perfect(hashes, 0, Mask(c))
    requires forall d :: 0 < d < c && Tried(|hashes|, d) ==> !Perfect(hashes, 0, Mask(d))
    ensures ChosenMask(hashes) == Mask(c)
  {
    hide Perfect, Mask, Tried, Sizes, FirstMask;
    var sizes := Sizes(FirstSize(|hashes|, 8), 10);
    TriedIff(|hashes|, c);
    SizesAscend(FirstSize(|hashes|, 8), 10);
    var k :| 0 <= k < |sizes| && sizes[k] == c;
    forall i | 0 <= i < k ensures !Perfect(hashes, 0, Mask(sizes[i])) { TriedIff(|hashes|, sizes[i]); }
    FirstMaskIs(hashes, sizes, k);
  }

  lemma SeparableIff(hashes: seq<bv32>)
    ensures Separable(hashes, Sizes(FirstSize(|hashes|, 8), 10)) <==>
            exists c :: c > 0 && Tried(|hashes|, c) && Perfect(hashes, 0, Mask(c))
  {
    hide Perfect, Mask, Tried, Sizes;
    var sizes := Sizes(FirstSize(|hashes|, 8), 10);
    if k :| 0 <= k < |sizes| && Perfect(hashes, 0, Mask(sizes[k])) { TriedIff(|hashes|, sizes[k]); }
    if c :| c > 0 && Tried(|hashes|, c) && Perfect(hashes, 0, Mask(c)) {
      TriedIff(|hashes|, c);
      var k :| 0 <= k < |sizes| && sizes[k] == c;
    }
  }

  /** Some size tried separates the hashes. */
  ghost predicate Separable(hashes: seq<bv32>, sizes: seq<nat>) {
    exists k :: 0 <= k < |sizes| && sizes[k] > 0 && Perfect(hashes, 0, Mask(sizes[k]))
  }

  /** The mask of the first size tried that separates the hashes. */
  ghost function FirstMask(hashes: seq<bv32>, sizes: seq<nat>): bv32
    requires forall k :: 0 <= k < |sizes| ==> sizes[k] > 0
  {
    if sizes == [] then 0
    else if Perfect(hashes, 0, Mask(sizes[0])) then Mask(sizes[0])
    else FirstMask(hashes, sizes[1..])
  }

  ghost function ChosenMask(hashes: seq<bv32>): bv32 { FirstMask(hashes, Sizes(FirstSize(|hashes|, 8), 10)) }

  /** Choosing the table size, as both hash switches do. */
  method ChooseMask(hashes: seq<bv32>) returns (found: bool, mask: bv32, addend: bv32)
    ensures found <==> Separable(hashes, Sizes(FirstSize(|hashes|, 8), 10))
    ensures found ==> addend == 0 && mask == ChosenMask(hashes) && Perfect(hashes, 0, mask)
  {
    hide Perfect, Slot, Mask, FirstMask, Separable, Sizes;
    var cap := 8;
    while cap < |hashes| * 4
      invariant cap > 0 && FirstSize(|hashes|, cap) == FirstSize(|hashes|, 8)
      decreases 4 * |hashes| - cap
    {
      cap := cap * 2;
    }
    ghost var all, chosen := Separable(hashes, Sizes(cap, 10)), ChosenMask(hashes);
    var bump := 0;
    while bump < 10
      invariant 0 <= bump <= 10 && cap > 0 && (all <==> Separable(hashes, Sizes(cap, 10 - bump)))
      invariant all ==> chosen == FirstMask(hashes, Sizes(cap, 10 - bump))
      decreases 10 - bump
    {
      SeparableStep(hashes, cap, 10 - bump);
      mask := Mask(cap);
      found, addend := FindPerfectAddend(hashes, mask);
      if found { return true, mask, addend; }
      cap := cap * 2;
      if cap > 4096 { return false, mask, addend; }
      bump := bump + 1;
    }
    NoneSeparate(hashes, cap);
    return false, 0, 0;
  }

  lemma NoneSeparate(hashes: seq<bv32>, cap: nat)
    requires cap > 0
    ensures !Separable(hashes, Sizes(cap, 0))
  {
  }

  lemma SeparableStep(hashes: seq<bv32>, cap: nat, bumps: nat)
    requires cap > 0 && bumps > 0
    ensures Separable(hashes, Sizes(cap, bumps)) <==>
            Perfect(hashes, 0, Mask(cap)) || (2 * cap <= 4096 && Separable(hashes, Sizes(2 * cap, bumps - 1)))
    ensures FirstMask(hashes, Sizes(cap, bumps)) ==
            if Perfect(hashes, 0, Mask(cap)) then Mask(cap)
            else if 2 * cap <= 4096 then FirstMask(hashes, Sizes(2 * cap, bumps - 1)) else 0
  {
    hide Perfect, Mask;
    var s, rest := Sizes(cap, bumps), Sizes(2 * cap, bumps - 1);
    assert s[0] == cap && s[1..] == if 2 * cap <= 4096 then rest else [];
    if 2 * cap <= 4096 {
      assert forall k :: 0 <= k < |rest| ==> s[k + 1] == rest[k];
      if k :| 0 <= k < |rest| && Perfect(hashes, 0, Mask(rest[k])) { assert Perfect(hashes, 0, Mask(s[k + 1])); }
      if k :| 0 < k < |s| && Perfect(hashes, 0, Mask(s[k])) { assert Perfect(hashes, 0, Mask(rest[k - 1])); }
    }
  }

  /** Hashes that repeat are separated by no table size. */
  lemma RepeatsNeverSeparate(hashes: seq<bv32>, sizes: seq<nat>, i: nat, j: nat)
    requires j < i < |hashes| && hashes[i] == hashes[j]
    ensures !Separable(hashes, sizes)
  {
    hide Slot, Mask;
  }

  /** One slot; target -1 marks an empty one. The key is the case's text or bits. */
  datatype Entry<K> = Entry(hash: bv32, key: K, target: int)

  /** The slots by index; those up to mask are the ones allocated. */
  datatype Table<K> = Table(mask: bv32, addend: bv32, entries: bv32 -> Entry<K>, defaultPc: nat)

  /** SWITCH_STR and SWITCH_NUM: the slot of the subject's hash, and there a comparison of the key. */
  function Lookup<K(==)>(t: Table<K>, hash: bv32, key: K): int {
    var e := t.entries(Slot(hash, t.addend, t.mask));
    if e.target >= 0 && e.key == key then e.target else t.defaultPc
  }

  /** Every case sits in its own slot with its target; the other slots are empty. */
  ghost predicate Holds<K>(t: Table<K>, hashes: seq<bv32>, keys: seq<K>, targets: seq<nat>) {
    |hashes| == |keys| == |targets| &&
    (forall i :: 0 <= i < |keys| ==>
       t.entries(Slot(hashes[i], t.addend, t.mask)) == Entry(hashes[i], keys[i], targets[i])) &&
    (forall k :: t.entries(k).target >= 0 ==> Taken(hashes, t.addend, t.mask, k))
  }

  ghost predicate Taken(hashes: seq<bv32>, addend: bv32, mask: bv32, k: bv32) {
    exists i :: 0 <= i < |hashes| && k == Slot(hashes[i], addend, mask)
  }

  /** No case is put beyond the slots allocated. */
  lemma SlotsInBounds<K>(t: Table<K>, hashes: seq<bv32>, keys: seq<K>, targets: seq<nat>)
    requires Holds(t, hashes, keys, targets)
    ensures forall k :: t.entries(k).target >= 0 ==> k <= t.mask
  {
    hide Slot;
    forall k | t.entries(k).target >= 0 ensures k <= t.mask {
      var i :| 0 <= i < |hashes| && k == Slot(hashes[i], t.addend, t.mask);
      SlotBound(hashes[i], t.addend, t.mask);
    }
  }

  function Put<K>(entries: bv32 -> Entry<K>, k: bv32, e: Entry<K>): bv32 -> Entry<K> {
    i => if i == k then e else entries(i)
  }

  /** Fills the slots, all of them in bounds, then publishes each body's address; no case overwrites another. */
  method BuildTable<K>(hashes: seq<bv32>, keys: seq<K>, targets: seq<nat>, mask: bv32, addend: bv32, fallback: nat,
                       blank: K)
    returns (t: Table<K>)
    requires |hashes| == |keys| == |targets| && Perfect(hashes, addend, mask)
    ensures Holds(t, hashes, keys, targets) && t.mask == mask && t.addend == addend && t.defaultPc == fallback
    ensures forall k :: t.entries(k).target >= 0 ==> k <= mask
  {
    hide Slot;
    var entries: bv32 -> Entry<K> := _ => Entry(0, blank, -1);
    for i := 0 to |keys|
      invariant forall k :: entries(k).target == -1
      invariant forall j :: 0 <= j < i ==> entries(Slot(hashes[j], addend, mask)) == Entry(hashes[j], keys[j], -1)
    {
      entries := Put(entries, Slot(hashes[i], addend, mask), Entry(hashes[i], keys[i], -1));
    }
    for i := 0 to |keys|
      invariant forall j :: 0 <= j < |keys| ==>
                  entries(Slot(hashes[j], addend, mask)) == Entry(hashes[j], keys[j], if j < i then targets[j] else -1)
      invariant forall k :: entries(k).target >= 0 ==> Taken(hashes, addend, mask, k)
    {
      var idx := Slot(hashes[i], addend, mask);
      assert Taken(hashes, addend, mask, idx);
      entries := Put(entries, idx, entries(idx).(target := targets[i]));
    }
    t := Table(mask, addend, entries, fallback);
    SlotsInBounds(t, hashes, keys, targets);
  }

  /** Looking up a case's key finds its target just when the hash leads to its slot; any other key
    * gets the default. */
  lemma LookupCase<K>(t: Table<K>, hashes: seq<bv32>, keys: seq<K>, targets: seq<nat>, i: nat, hash: bv32)
    requires Holds(t, hashes, keys, targets) && Distinct(keys) && i < |keys|
    ensures Lookup(t, hash, keys[i]) ==
            if Slot(hash, t.addend, t.mask) == Slot(hashes[i], t.addend, t.mask) then targets[i] else t.defaultPc
  {
    hide Slot;
    var k := Slot(hash, t.addend, t.mask);
    if t.entries(k).target >= 0 {
      assert Taken(hashes, t.addend, t.mask, k);
      var j :| 0 <= j < |hashes| && k == Slot(hashes[j], t.addend, t.mask);
      assert t.entries(k).key == keys[j];
      if j < i { assert keys[j] != keys[i]; } else if i < j { assert keys[i] != keys[j]; }
    }
  }

  lemma LookupOther<K>(t: Table<K>, hashes: seq<bv32>, keys: seq<K>, targets: seq<nat>, key: K, hash: bv32)
    requires Holds(t, hashes, keys, targets) && key !in keys
    ensures Lookup(t, hash, key) == t.defaultPc
  {
    hide Slot;
    var k := Slot(hash, t.addend, t.mask);
    if t.entries(k).target >= 0 {
      assert Taken(hashes, t.addend, t.mask, k);
      var j :| 0 <= j < |hashes| && k == Slot(hashes[j], t.addend, t.mask);
      assert t.entries(k).key == keys[j];
    }
  }

  // ----- string switches -----

  ghost predicate AllStrings(cases: seq<Pattern>) { forall i :: 0 <= i < |cases| ==> cases[i].PStr? }

  ghost function Texts(cases: seq<Pattern>): seq<Bytes>
    requires AllStrings(cases)
  {
    seq(|cases|, i requires 0 <= i < |cases| => cases[i].s)
  }

  ghost function StrHashes(texts: seq<Bytes>): seq<bv32> { seq(|texts|, i requires 0 <= i < |texts| => Djb2(texts[i])) }

  /** When a string switch is built at all. */
  ghost predicate StrSwitchable(cases: seq<Pattern>) {
    |cases| >= 4 && AllStrings(cases) && Separable(StrHashes(Texts(cases)), Sizes(FirstSize(|cases|, 8), 10))
  }

  function SelectStr(t: Table<Bytes>, s: Subject): int
  {
    if s.SStr? then Lookup(t, Djb2(s.s), s.s) else t.defaultPc
  }

  /** try_match_str_switch. */
  method TryStrSwitch(cases: seq<Pattern>, targets: seq<nat>, fallback: nat) returns (r: Attempt<Table<Bytes>>)
    requires |targets| == |cases|
    ensures r.Built? <==> StrSwitchable(cases)
    ensures r.Built? ==> Holds(r.plan, StrHashes(Texts(cases)), Texts(cases), targets) && r.plan.defaultPc == fallback
    ensures r.Built? ==> r.plan.addend == 0 && r.plan.mask == ChosenMask(StrHashes(Texts(cases)))
    ensures r.Built? ==> Perfect(StrHashes(Texts(cases)), r.plan.addend, r.plan.mask)
  {
    hide Perfect, Slot, Separable, Holds, ChosenMask;
    if |cases| < 4 { return Declined; }
    for i := 0 to |cases|
      invariant forall j :: 0 <= j < i ==> cases[j].PStr?
    {
      if !cases[i].PStr? { return Declined; }
    }
    var texts, hashes := [], [];
    for i := 0 to |cases|
      invariant |texts| == |hashes| == i && forall j :: 0 <= j < i ==>
                texts[j] == cases[j].s && hashes[j] == Djb2(cases[j].s)
    {
      var h := SwDjb2(cases[i].s);
      texts, hashes := texts + [cases[i].s], hashes + [h];
    }
    assert texts == Texts(cases) && hashes == StrHashes(texts);
    var found, mask, addend := ChooseMask(hashes);
    if !found { return Declined; }
    var t := BuildTable(hashes, texts, targets, mask, addend, fallback, []);
    r := Built(t);
  }

  /** A string switch selects what the chain selects. */
  lemma StrSwitchIsChain(cases: seq<Pattern>, targets: seq<nat>, fallback: nat, t: Table<Bytes>, s: Subject)
    requires |targets| == |cases| && AllStrings(cases) && t.defaultPc == fallback
    requires Holds(t, StrHashes(Texts(cases)), Texts(cases), targets) &&
             Perfect(StrHashes(Texts(cases)), t.addend, t.mask)
    ensures SelectStr(t, s) == ChainTarget(cases, targets, fallback, s)
  {
    hide Slot, FirstMatch, Lookup, Holds;
    var texts, hashes := Texts(cases), StrHashes(Texts(cases));
    PerfectDistinct(texts, hashes, t.addend, t.mask);
    if s.SStr? && s.s in texts {
      var i :| 0 <= i < |texts| && texts[i] == s.s;
      forall j | 0 <= j < |cases| ensures Matches(cases[j], s) <==> j == i { assert texts[j] == cases[j].s; }
      ChainIs(cases, targets, fallback, s, i);
      LookupCase(t, hashes, texts, targets, i, Djb2(s.s));
    } else {
      forall j | 0 <= j < |cases| ensures !Matches(cases[j], s) { assert texts[j] == cases[j].s; }
      ChainIs(cases, targets, fallback, s, |cases|);
      if s.SStr? { LookupOther(t, hashes, texts, targets, s.s, Djb2(s.s)); }
    }
  }

  lemma PerfectDistinct(texts: seq<Bytes>, hashes: seq<bv32>, addend: bv32, mask: bv32)
    requires hashes == StrHashes(texts) && Perfect(hashes, addend, mask)
    ensures Distinct(texts)
  {
    hide Slot;
    forall i, j | 0 <= i < j < |texts| ensures texts[i] != texts[j] {
      assert Slot(hashes[j], addend, mask) != Slot(hashes[i], addend, mask);
    }
  }

  /** A repeated string case always falls back to the chain. */
  lemma RepeatedStringsFallBack(cases: seq<Pattern>, i: nat, j: nat)
    requires j < i < |cases| && AllStrings(cases) && cases[i] == cases[j]
    ensures !StrSwitchable(cases)
  {
    hide Separable;
    var hashes := StrHashes(Texts(cases));
    RepeatsNeverSeparate(hashes, Sizes(FirstSize(|cases|, 8), 10), i, j);
  }

  // ----- number switches -----

  ghost predicate AllNumbers(cases: seq<Pattern>) { forall i :: 0 <= i < |cases| ==> cases[i].PNum? }

  ghost function Keys(cases: seq<Pattern>, enc: Encoding): seq<Bits>
    requires AllNumbers(cases)
  {
    seq(|cases|, i requires 0 <= i < |cases| => enc(cases[i].v))
  }

  ghost function NumHashes(keys: seq<Bits>): seq<bv32> { seq(|keys|, i requires 0 <= i < |keys| => BuildHash(keys[i])) }

  ghost predicate NumSwitchable(cases: seq<Pattern>, enc: Encoding) {
    |cases| >= 4 && AllNumbers(cases) && Distinct(Keys(cases, enc)) &&
    Separable(NumHashes(Keys(cases, enc)), Sizes(FirstSize(|cases|, 8), 10))
  }

  /** Four or more strings, or four or more numbers with different bits, that some size tried separates. */
  lemma SwitchableIff(cases: seq<Pattern>, enc: Encoding)
    ensures StrSwitchable(cases) <==>
            |cases| >= 4 && (forall i :: 0 <= i < |cases| ==> cases[i].PStr?) &&
            exists c :: c > 0 && Tried(|cases|, c) && Perfect(StrHashes(Texts(cases)), 0, Mask(c))
    ensures NumSwitchable(cases, enc) <==>
            |cases| >= 4 && (forall i :: 0 <= i < |cases| ==> cases[i].PNum?) &&
            (forall i, j :: 0 <= i < j < |cases| ==> enc(cases[i].v) != enc(cases[j].v)) &&
            exists c :: c > 0 && Tried(|cases|, c) && Perfect(NumHashes(Keys(cases, enc)), 0, Mask(c))
  {
    hide Perfect, Mask, Tried, Separable, Djb2, BuildHash, Sizes, FirstSize;
    if AllStrings(cases) { SeparableIff(StrHashes(Texts(cases))); }
    if AllNumbers(cases) {
      SeparableIff(NumHashes(Keys(cases, enc)));
      KeysDistinct(cases, enc);
    }
  }

  lemma KeysDistinct(cases: seq<Pattern>, enc: Encoding)
    requires AllNumbers(cases)
    ensures Distinct(Keys(cases, enc)) <==>
            forall i, j :: 0 <= i < j < |cases| ==> enc(cases[i].v) != enc(cases[j].v)
  {
    var keys := Keys(cases, enc);
    forall i, j | 0 <= i < j < |cases| ensures keys[i] == keys[j] <==> enc(cases[i].v) == enc(cases[j].v) {}
  }

  function SelectNum(t: Table<Bits>, enc: Encoding, s: Subject): int
  {
    if s.SNum? then Lookup(t, RunHash(enc(s.v)), enc(s.v)) else t.defaultPc
  }

  /** The table the compiler builds for number cases. */
  ghost predicate IsNumTable(cases: seq<Pattern>, targets: seq<nat>, fallback: nat, enc: Encoding, t: Table<Bits>) {
    AllNumbers(cases) && Holds(t, NumHashes(Keys(cases, enc)), Keys(cases, enc), targets) &&
    t.addend == 0 && t.mask == NumMask(cases, enc) && t.defaultPc == fallback
  }

  ghost function NumMask(cases: seq<Pattern>, enc: Encoding): bv32
    requires AllNumbers(cases)
  {
    ChosenMask(NumHashes(Keys(cases, enc)))
  }

  /** try_match_num_switch. */
  method TryNumSwitch(cases: seq<Pattern>, targets: seq<nat>, fallback: nat, enc: Encoding)
    returns (r: Attempt<Table<Bits>>)
    requires |targets| == |cases|
    ensures r.Built? <==> NumSwitchable(cases, enc)
    ensures r.Built? ==> IsNumTable(cases, targets, fallback, enc, r.plan)
  {
    hide Perfect, Slot, Separable, Holds, BuildHash, ChosenMask;
    if |cases| < 4 { return Declined; }
    for i := 0 to |cases|
      invariant forall j :: 0 <= j < i ==> cases[j].PNum?
    {
      if !cases[i].PNum? { return Declined; }
    }
    var keys, hashes := [], [];
    for i := 0 to |cases|
      invariant |keys| == |hashes| == i && forall j :: 0 <= j < i ==>
                keys[j] == enc(cases[j].v) && hashes[j] == BuildHash(keys[j])
    {
      keys, hashes := keys + [enc(cases[i].v)], hashes + [BuildHash(enc(cases[i].v))];
    }
    assert keys == Keys(cases, enc) && hashes == NumHashes(keys);
    for i := 0 to |keys|
      invariant forall j, k :: 0 <= j < i && j < k < |keys| ==> keys[j] != keys[k]
    {
      for j := i + 1 to |keys|
        invariant forall k :: i < k < j ==> keys[i] != keys[k]
      {
        if keys[i] == keys[j] { return Declined; }
      }
    }
    var found, mask, addend := ChooseMask(hashes);
    if !found { return Declined; }
    var t := BuildTable(hashes, keys, targets, mask, addend, fallback, Bits(0, 0));
    r := Built(t);
  }

  /** The slot the builder puts a case in is the slot the machine looks in. */
  ghost predicate SlotAgrees(cases: seq<Pattern>, enc: Encoding, i: nat)
    requires AllNumbers(cases) && i < |cases|
  {
    var b, mask := enc(cases[i].v), NumMask(cases, enc);
    Slot(RunHash(b), 0, mask) == Slot(BuildHash(b), 0, mask)
  }

  /** The builder scrambles the hash once more than the machine does, so a number switch selects what
    * the chain selects, for every subject, just when each case's two hashes fall in the same slot of the
    * size chosen for the cases, or its body is where the fallback goes anyway. */
  lemma NumSwitchIsChainIff(cases: seq<Pattern>, targets: seq<nat>, fallback: nat, enc: Encoding, t: Table<Bits>)
    requires |targets| == |cases| && NumSwitchable(cases, enc) && Encodes(enc) && DoubleCases(cases)
    requires IsNumTable(cases, targets, fallback, enc, t)
    ensures (forall s :: Storable(s) ==> SelectNum(t, enc, s) == ChainTarget(cases, targets, fallback, s)) <==>
            forall i :: 0 <= i < |cases| ==> SlotAgrees(cases, enc, i) || targets[i] == fallback
  {
    hide Slot, FirstMatch, Lookup, Separable, ChainTarget, BuildHash, RunHash, ChosenMask, IsDouble, Encodes;
    forall i | 0 <= i < |cases|
      ensures Storable(SNum(cases[i].v))
      ensures SelectNum(t, enc, SNum(cases[i].v)) == ChainTarget(cases, targets, fallback, SNum(cases[i].v)) <==>
              SlotAgrees(cases, enc, i) || targets[i] == fallback
    {
      NumCase(cases, targets, fallback, enc, t, i);
    }
    forall s | Storable(s) && !exists i :: 0 <= i < |cases| && s == SNum(cases[i].v)
      ensures SelectNum(t, enc, s) == ChainTarget(cases, targets, fallback, s)
    {
      NumOther(cases, targets, fallback, enc, t, s);
    }
  }

  lemma NumCase(cases: seq<Pattern>, targets: seq<nat>, fallback: nat, enc: Encoding, t: Table<Bits>, i: nat)
    requires |targets| == |cases| && NumSwitchable(cases, enc)
    requires IsNumTable(cases, targets, fallback, enc, t) && i < |cases|
    ensures SelectNum(t, enc, SNum(cases[i].v)) == ChainTarget(cases, targets, fallback, SNum(cases[i].v)) <==>
            SlotAgrees(cases, enc, i) || targets[i] == fallback
  {
    hide Slot, FirstMatch, Lookup, Separable, ChainTarget, BuildHash, RunHash, ChosenMask;
    var keys, s := Keys(cases, enc), SNum(cases[i].v);
    forall j | 0 <= j < |cases| ensures Matches(cases[j], s) <==> j == i {
      assert keys[j] == enc(cases[j].v) && keys[i] == enc(cases[i].v);
      if j < i { assert keys[j] != keys[i]; } else if i < j { assert keys[i] != keys[j]; }
    }
    ChainIs(cases, targets, fallback, s, i);
    LookupCase(t, NumHashes(keys), keys, targets, i, RunHash(enc(cases[i].v)));
  }

  lemma NumOther(cases: seq<Pattern>, targets: seq<nat>, fallback: nat, enc: Encoding, t: Table<Bits>, s: Subject)
    requires |targets| == |cases| && NumSwitchable(cases, enc) && Encodes(enc) && DoubleCases(cases) && Storable(s)
    requires IsNumTable(cases, targets, fallback, enc, t)
    requires forall i :: 0 <= i < |cases| ==> s != SNum(cases[i].v)
    ensures SelectNum(t, enc, s) == ChainTarget(cases, targets, fallback, s)
  {
    hide Slot, FirstMatch, Lookup, Separable, ChainTarget, BuildHash, RunHash, IsDouble, Decode;
    ChainIs(cases, targets, fallback, s, |cases|);
    if s.SNum? {
      var keys := Keys(cases, enc);
      forall j | 0 <= j < |keys| ensures keys[j] != enc(s.v) { assert s != SNum(cases[j].v); }
      LookupOther(t, NumHashes(keys), keys, targets, enc(s.v), RunHash(enc(s.v)));
    }
  }

  /** The cases 0.5, 1.5, 2.5 and 3.5. */
  const HALVES := [PNum(0.5), PNum(1.5), PNum(2.5), PNum(3.5)]

  ghost predicate Halves(cases: seq<Pattern>, enc: Encoding) {
    cases == HALVES && Encodes(enc) &&
    enc(0.5) == Bits(0, 0x3FE0_0000) && enc(1.5) == Bits(0, 0x3FF8_0000) &&
    enc(2.5) == Bits(0, 0x4004_0000) && enc(3.5) == Bits(0, 0x400C_0000)
  }

  /** There is such an encoding: these are the bits of the four doubles. */
  lemma HalvesExist() returns (enc: Encoding)
    ensures Halves(HALVES, enc) && DoubleCases(HALVES)
  {
    hide Decode, Finite;
    HalvesDecode();
    enc := x => if x == 0.0 then Bits(0, 0) else if x == 0.5 then Bits(0, 0x3FE0_0000)
                else if x == 1.5 then Bits(0, 0x3FF8_0000) else if x == 2.5 then Bits(0, 0x4004_0000)
                else if x == 3.5 then Bits(0, 0x400C_0000) else SomeBits(x);
    assert forall x :: IsDouble(x) ==> Finite(enc(x)) && Decode(enc(x)) == x;
  }

  ghost function SomeBits(x: real): (b: Bits)
    ensures IsDouble(x) ==> Finite(b) && Decode(b) == x
  {
    if IsDouble(x) then var b :| Finite(b) && Decode(b) == x; b else Bits(0, 0)
  }

  lemma HalvesDecode()
    ensures Finite(Bits(0, 0)) && Decode(Bits(0, 0)) == 0.0
    ensures Finite(Bits(0, 0x3FE0_0000)) && Decode(Bits(0, 0x3FE0_0000)) == 0.5
    ensures Finite(Bits(0, 0x3FF8_0000)) && Decode(Bits(0, 0x3FF8_0000)) == 1.5
    ensures Finite(Bits(0, 0x4004_0000)) && Decode(Bits(0, 0x4004_0000)) == 2.5
    ensures Finite(Bits(0, 0x400C_0000)) && Decode(Bits(0, 0x400C_0000)) == 3.5
  {
    assert Scale(-1) == 0.5 && Scale(0) == 1.0 && Scale(1) == 2.0;
  }

  lemma HalvesKeys(cases: seq<Pattern>, enc: Encoding)
    requires Halves(cases, enc)
    ensures AllNumbers(cases)
    ensures Keys(cases, enc) == [Bits(0, 0x3FE0_0000), Bits(0, 0x3FF8_0000), Bits(0, 0x4004_0000), Bits(0, 0x400C_0000)]
  {
  }

  /** For these a switch with 16 slots is built. */
  lemma HalvesAccepted(cases: seq<Pattern>, enc: Encoding)
    requires Halves(cases, enc)
    ensures NumSwitchable(cases, enc) && NumMask(cases, enc) == 15
  {
    HalvesKeys(cases, enc);
    var keys := Keys(cases, enc);
    hide Slot, BuildHash, RunHash, Halves, Keys, Mask;
    var hashes := NumHashes(keys);
    assert |hashes| == 4 && hashes[0] == BuildHash(keys[0]) && hashes[1] == BuildHash(keys[1]) &&
        hashes[2] == BuildHash(keys[2]) && hashes[3] == BuildHash(keys[3]);
    ConcreteSlots();
    Mask16();
    assert FirstSize(4, 8) == 16 && Sizes(16, 10)[0] == 16;
    assert Perfect(hashes, 0, Mask(16));
  }

  lemma Mask16()
    ensures Mask(16) == 15
  {
  }

  /** On the switch the compiler builds for them the machine never reaches the second body: it looks for
    * 1.5 in another slot. */
  lemma NumSwitchMissesACase(cases: seq<Pattern>, targets: seq<nat>, fallback: nat, enc: Encoding, t: Table<Bits>)
    requires Halves(cases, enc) && |targets| == 4
    requires IsNumTable(cases, targets, fallback, enc, t)
    ensures NumSwitchable(cases, enc) && !Dense(cases) && !SlotAgrees(cases, enc, 1)
    ensures SelectNum(t, enc, SNum(1.5)) == fallback && ChainTarget(cases, targets, fallback, SNum(1.5)) == targets[1]
  {
    HalvesKeys(cases, enc);
    HalvesAccepted(cases, enc);
    ConcreteSlots();
    SecondCase(cases, targets, fallback);
    hide Slot, BuildHash, RunHash, Keys, Lookup, NumMask;
    var keys := Keys(cases, enc);
    assert !IsInt(cases[0]);
    LookupCase(t, NumHashes(keys), keys, targets, 1, RunHash(keys[1]));
  }

  lemma SecondCase(cases: seq<Pattern>, targets: seq<nat>, fallback: nat)
    requires cases == HALVES && |targets| == 4
    ensures ChainTarget(cases, targets, fallback, SNum(1.5)) == targets[1]
  {
    FirstMatchIs(cases, SNum(1.5), 0, 1);
  }

  lemma ConcreteSlots()
    ensures Slot(BuildHash(Bits(0, 0x3FE0_0000)), 0, 15) == 13 && Slot(BuildHash(Bits(0, 0x3FF8_0000)), 0, 15) == 1
    ensures Slot(BuildHash(Bits(0, 0x4004_0000)), 0, 15) == 5 && Slot(BuildHash(Bits(0, 0x400C_0000)), 0, 15) == 2
    ensures Slot(RunHash(Bits(0, 0x3FF8_0000)), 0, 15) == 13
  {
  }

  // ----- the whole statement -----

  datatype Plan = Jump(table: JumpTable) | Str(strs: Table<Bytes>) | Num(nums: Table<Bits>) | Chain

  function Select(plan: Plan, cases: seq<Pattern>, targets: seq<nat>, fallback: nat, enc: Encoding, s: Subject): int
    requires |targets| == |cases|
  {
    match plan
    case Jump(t) => SelectJump(t, fallback, s)
    case Str(t) => SelectStr(t, s)
    case Num(t) => SelectNum(t, enc, s)
    case Chain => ChainTarget(cases, targets, fallback, s)
  }

  ghost predicate Selects(plan: Plan, cases: seq<Pattern>, targets: seq<nat>, fallback: nat, enc: Encoding, s: Subject)
    requires |targets| == |cases|
  {
    Select(plan, cases, targets, fallback, enc, s) == ChainTarget(cases, targets, fallback, s)
  }

  /** codegen_match_statement: a jump table if the cases are dense, else a string or number switch,
    * else the chain. Whatever is chosen selects what the chain selects, for every subject, except that
    * a number switch does so just when its slots agree. */
  method MatchStatement(cases: seq<Pattern>, targets: seq<nat>, fallback: nat, enc: Encoding) returns (plan: Plan)
    requires |targets| == |cases|
    ensures plan.Jump? <==> Dense(cases)
    ensures plan.Str? <==> StrSwitchable(cases)
    ensures plan.Num? <==> NumSwitchable(cases, enc) && !Dense(cases)
    ensures !plan.Num? ==> forall s :: Selects(plan, cases, targets, fallback, enc, s)
    ensures plan.Num? && Encodes(enc) && DoubleCases(cases) ==>
              ((forall s :: Storable(s) ==> Selects(plan, cases, targets, fallback, enc, s)) <==>
               AllNumbers(cases) &&
               forall i :: 0 <= i < |cases| ==> SlotAgrees(cases, enc, i) || targets[i] == fallback)
  {
    hide SelectJump, SelectStr, SelectNum, ChainTarget, Holds, Fills, Perfect, SlotAgrees, Separable, MinOf, MaxOf;
    hide ChosenMask, IsNumTable, Encodes, IsDouble;
    var jump := TryJumpTable(cases, targets, fallback);
    if jump.Built? {
      forall s ensures SelectJump(jump.plan, fallback, s) == ChainTarget(cases, targets, fallback, s) {
        JumpTableIsChain(cases, targets, fallback, jump.plan, s);
      }
      assert IsInt(cases[0]);
      return Jump(jump.plan);
    }
    var strs := TryStrSwitch(cases, targets, fallback);
    if strs.Built? {
      forall s ensures SelectStr(strs.plan, s) == ChainTarget(cases, targets, fallback, s) {
        StrSwitchIsChain(cases, targets, fallback, strs.plan, s);
      }
      assert cases[0].PStr?;
      return Str(strs.plan);
    }
    var nums := TryNumSwitch(cases, targets, fallback, enc);
    if nums.Built? {
      plan := Num(nums.plan);
      if Encodes(enc) && DoubleCases(cases) { NumSwitchIsChainIff(cases, targets, fallback, enc, nums.plan); }
      assert forall s :: Selects(plan, cases, targets, fallback, enc, s) <==>
                         SelectNum(nums.plan, enc, s) == ChainTarget(cases, targets, fallback, s);
      return;
    }
    return Chain;
  }
}
