/** Register allocation by linear scan over live ranges: source/compiler/opt_linear_scan.c:53-136. */
module LinearScan {
  import opened Counting
  import opened Sequences

  const INF := 0x7fffffff

  /** Live ranges of the local slots; a slot that is never used has a negative first position. */
  datatype Ranges = Ranges(params: nat, first: seq<int>, last: seq<int>) {
    ghost predicate Valid() {
      params <= |first| == |last| && forall i :: 0 <= i < |first| && first[i] >= 0 ==> first[i] <= last[i]
    }

    predicate Body(i: int) { params <= i < |first| }

    predicate Used(i: int) { Body(i) && first[i] >= 0 }

    predicate LiveAt(i: int, t: int)
      requires |first| == |last|
    {
      Used(i) && first[i] <= t <= last[i]
    }

    predicate Overlap(i: int, j: int)
      requires |first| == |last|
    {
      Used(i) && Used(j) && first[i] <= last[j] && first[j] <= last[i]
    }

    /** The body locals live at position t. */
    ghost function Live(t: int): set<int>
      requires |first| == |last|
    {
      set i | i in Upto(|first|) && LiveAt(i, t)
    }

    /** The sort key: unused slots come last. */
    function Key(i: int): int {
      if 0 <= i < |first| && first[i] >= 0 then first[i] else INF
    }

    /** The order of the scan; slots that begin together keep their numbers' order. */
    predicate Earlier(i: int, j: int) { Key(i) < Key(j) || (Key(i) == Key(j) && i < j) }
  }

  /** No two overlapping body locals share a register, and none takes a parameter's. */
  ghost predicate Sound(rs: Ranges, regs: seq<int>, next: int) {
    |regs| == |rs.first| == |rs.last| &&
    (forall i :: rs.Used(i) ==> rs.params <= regs[i] < next) &&
    (forall i, j :: rs.Used(i) && rs.Used(j) && i != j && rs.Overlap(i, j) ==> regs[i] != regs[j])
  }

  /** Some position needs as many registers as were handed out. */
  ghost predicate Tight(rs: Ranges, next: int)
    requires |rs.first| == |rs.last|
  {
    next == rs.params || exists t :: |rs.Live(t)| >= next - rs.params
  }

  /** Slot j, begun before slot i and still live when i begins, has register r. */
  predicate Takes(rs: Ranges, regs: seq<int>, j: int, i: int, r: int)
    requires |regs| == |rs.first| == |rs.last| && rs.Used(i)
  {
    rs.Used(j) && rs.Earlier(j, i) && rs.first[i] <= rs.last[j] && regs[j] == r
  }

  ghost predicate Taken(rs: Ranges, regs: seq<int>, i: int, r: int)
    requires |regs| == |rs.first| == |rs.last| && rs.Used(i)
  {
    exists j :: Takes(rs, regs, j, i, r)
  }

  /** Every slot has the lowest register that is free when it begins. */
  ghost predicate FirstFit(rs: Ranges, regs: seq<int>)
    requires |regs| == |rs.first| == |rs.last|
  {
    forall i, r :: rs.Used(i) && rs.params <= r < regs[i] ==> Taken(rs, regs, i, r)
  }

  /** Which leaves no choice: two sound first-fit allocations are the same. */
  lemma {:induction false} FirstFitUnique(rs: Ranges, regs: seq<int>, next: int, regs': seq<int>, next': int, i: int)
    requires rs.Valid() && Sound(rs, regs, next) && Sound(rs, regs', next')
    requires FirstFit(rs, regs) && FirstFit(rs, regs') && rs.Used(i)
    ensures regs[i] == regs'[i]
    decreases rs.first[i], i
  {
    if regs[i] < regs'[i] {
      assert Taken(rs, regs', i, regs[i]);
      var j :| Takes(rs, regs', j, i, regs[i]);
      FirstFitUnique(rs, regs, next, regs', next', j);
      assert rs.Overlap(i, j);
    } else if regs'[i] < regs[i] {
      assert Taken(rs, regs, i, regs'[i]);
      var j :| Takes(rs, regs, j, i, regs'[i]);
      FirstFitUnique(rs, regs, next, regs', next', j);
      assert rs.Overlap(i, j);
    }
  }

  // ----- sorting the slots by first position -----

  predicate SortedUpto(rs: Ranges, order: seq<int>, n: nat)
    requires n <= |order|
  {
    forall i, j :: 0 <= i < j < n ==> rs.Earlier(order[i], order[j])
  }

  /** From n on the slots stand in the order of their numbers, all of them above those before. */
  predicate Ascending(order: seq<int>, n: nat) {
    forall i, j :: 0 <= i < j < |order| && n <= j ==> order[i] < order[j]
  }

  /** order lists every body slot once. */
  ghost predicate Lists(rs: Ranges, order: seq<int>) {
    Distinct(order) && (forall k :: 0 <= k < |order| ==> rs.Body(order[k])) && (forall i :: rs.Body(i) ==> i in order)
  }

  /** Filling the hole at j with the key gives a listing of all slots. */
  lemma HoleMoves(rs: Ranges, order: seq<int>, j: nat, key: int)
    requires j + 1 < |order| && Lists(rs, order[j + 1 := key])
    ensures Lists(rs, order[j + 1 := order[j]][j := key])
  {
    var a, b := order[j + 1 := key], order[j + 1 := order[j]][j := key];
    assert forall k :: 0 <= k < |order| ==> b[k] == if k == j then a[j + 1] else if k == j + 1 then a[j] else a[k];
    forall i | rs.Body(i) ensures i in b {
      var k :| 0 <= k < |a| && a[k] == i;
      assert b[if k == j then j + 1 else if k == j + 1 then j else k] == i;
    }
  }

  /** Slot i is being inserted into the sorted slots before it; there is a hole at j + 1 and everything
    * between that and i comes after it. */
  ghost predicate Inserting(rs: Ranges, order: seq<int>, i: nat, j: int, key: int) {
    -1 <= j < i < |order| && Lists(rs, order[j + 1 := key]) &&
    (forall a, b :: 0 <= a < b < |order| && a != j + 1 && b != j + 1 ==>
       if b <= i then rs.Earlier(order[a], order[b]) else order[a] < order[b]) &&
    (forall b :: j + 1 < b <= i ==> rs.Key(key) < rs.Key(order[b])) &&
    (forall a :: 0 <= a <= i && a != j + 1 ==> order[a] < key) &&
    forall b :: i < b < |order| ==> key < order[b]
  }

  lemma InsertStart(rs: Ranges, order: seq<int>, i: nat)
    requires i < |order| && Lists(rs, order) && SortedUpto(rs, order, i) && Ascending(order, i)
    ensures Inserting(rs, order, i, i - 1, order[i])
  {
    hide Lists, rs.Earlier, rs.Key;
    assert order[i := order[i]] == order;
  }

  lemma InsertMove(rs: Ranges, order: seq<int>, i: nat, j: nat, key: int)
    requires Inserting(rs, order, i, j, key) && rs.Key(key) < rs.Key(order[j])
    ensures Inserting(rs, order[j + 1 := order[j]], i, j - 1, key)
  {
    hide Lists, rs.Earlier, rs.Key;
    HoleMoves(rs, order, j, key);
  }

  lemma InsertEnd(rs: Ranges, order: seq<int>, i: nat, j: int, key: int)
    requires Inserting(rs, order, i, j, key) && (j >= 0 ==> rs.Key(order[j]) <= rs.Key(key))
    ensures var order' := order[j + 1 := key];
            Lists(rs, order') && SortedUpto(rs, order', i + 1) && Ascending(order', i + 1)
  {
    hide Lists, rs.Key;
    var order' := order[j + 1 := key];
    forall a | 0 <= a <= j ensures rs.Earlier(order[a], key) {
      if a < j { assert rs.Earlier(order[a], order[j]); }
    }
  }

  method SortSlots(rs: Ranges, order: array<int>)
    requires rs.Valid() && order.Length > 0 && Lists(rs, order[..]) && Ascending(order[..], 0)
    modifies order
    ensures Lists(rs, order[..]) && SortedUpto(rs, order[..], order.Length)
  {
    hide Lists, SortedUpto, Ascending, Inserting, rs.Key;
    SortedOne(rs, order[..]);
    for i := 1 to order.Length
      invariant Lists(rs, order[..]) && SortedUpto(rs, order[..], i) && Ascending(order[..], i)
    {
      var key := order[i];
      var kf := rs.Key(key);
      var j := i - 1;
      InsertStart(rs, order[..], i);
      while j >= 0
        invariant -1 <= j < i && Inserting(rs, order[..], i, j, key)
        decreases j
      {
        if rs.Key(order[j]) <= kf { break; }
        ghost var was := order[..];
        InsertMove(rs, was, i, j, key);
        order[j + 1] := order[j];
        assert order[..] == was[j + 1 := was[j]];
        j := j - 1;
      }
      ghost var was := order[..];
      InsertEnd(rs, was, i, j, key);
      order[j + 1] := key;
      assert order[..] == was[j + 1 := key];
    }
  }

  lemma SortedOne(rs: Ranges, order: seq<int>)
    requires order != [] && Ascending(order, 0)
    ensures SortedUpto(rs, order, 1) && Ascending(order, 1)
  {
  }

  // ----- the scan -----

  /** The slots done so far, in order of first position up to `now`, and the arrays holder/release:
    * a register in use remembers its slot and when it dies; a slot that lost its register died
    * before `now`. */
  ghost predicate Scanned(rs: Ranges, done: seq<int>, holder: seq<int>, release: seq<int>, regs: seq<int>, now: int,
                          maxUsed: int) {
    rs.Valid() && |regs| == |rs.first| && |holder| == |release| && rs.params - 1 <= maxUsed < |holder| &&
    Distinct(done) && (forall k :: 0 <= k < |done| ==> rs.Used(done[k]) && rs.first[done[k]] <= now) &&
    (forall k :: 0 <= k < |done| ==> rs.params <= regs[done[k]] <= maxUsed) &&
    (forall k :: 0 <= k < |done| ==> holder[regs[done[k]]] == done[k] || rs.last[done[k]] < now) &&
    (forall r :: rs.params <= r < |holder| && holder[r] >= 0 ==>
       holder[r] in done && regs[holder[r]] == r && release[r] == rs.last[holder[r]]) &&
    (forall j, k :: 0 <= j < k < |done| && rs.Overlap(done[j], done[k]) ==> regs[done[j]] != regs[done[k]])
  }

  /** Every register still held is held by a slot live at t. */
  ghost predicate HeldLive(rs: Ranges, holder: seq<int>, t: int)
    requires |rs.first| == |rs.last|
  {
    forall r :: rs.params <= r < |holder| && holder[r] >= 0 ==> rs.LiveAt(holder[r], t)
  }

  /** Drop the registers whose slot died before f. */
  method ReleaseDead(holder: array<int>, release: array<int>, params: nat, f: int)
    requires holder.Length == release.Length && params <= holder.Length && holder != release
    modifies holder, release
    ensures forall r :: 0 <= r < holder.Length ==>
              var dies := params <= r && old(holder[r]) >= 0 && old(release[r]) < f;
              holder[r] == (if dies then -1 else old(holder[r])) && release[r] == (if dies then -1 else old(release[r]))
  {
    for r := params to holder.Length
      invariant forall k :: 0 <= k < holder.Length ==>
                  var dies := params <= k < r && old(holder[k]) >= 0 && old(release[k]) < f;
                  holder[k] == (if dies then -1 else old(holder[k])) &&
                      release[k] == (if dies then -1 else old(release[k]))
    {
      if holder[r] >= 0 && release[r] < f {
        holder[r] := -1;
        release[r] := -1;
      }
    }
  }

  /** The lowest free register at or above params, or -1. */
  method LowestFree(holder: array<int>, params: nat) returns (r: int)
    requires params <= holder.Length
    ensures r == -1 || params <= r < holder.Length
    ensures r >= 0 ==> holder[r] < 0 && forall k :: params <= k < r ==> holder[k] >= 0
    ensures r == -1 ==> forall k :: params <= k < holder.Length ==> holder[k] >= 0
  {
    for k := params to holder.Length
      invariant forall j :: params <= j < k ==> holder[j] >= 0
    {
      if holder[k] < 0 { return k; }
    }
    return -1;
  }

  lemma AfterRelease(rs: Ranges, done: seq<int>, holder: seq<int>, release: seq<int>, holder': seq<int>,
                     release': seq<int>, regs: seq<int>, now: int, maxUsed: int, f: int)
    requires Scanned(rs, done, holder, release, regs, now, maxUsed) && now <= f
    requires |holder'| == |holder| && |release'| == |release|
    requires forall r :: 0 <= r < |holder| ==>
               var dies := rs.params <= r && holder[r] >= 0 && release[r] < f;
               holder'[r] == (if dies then -1 else holder[r]) && release'[r] == (if dies then -1 else release[r])
    ensures Scanned(rs, done, holder', release', regs, f, maxUsed) && HeldLive(rs, holder', f)
  {
  }

  /** Registers in use are held by different slots of the body. */
  lemma HeldDistinct(rs: Ranges, done: seq<int>, holder: seq<int>, release: seq<int>, regs: seq<int>, now: int,
                     maxUsed: int, lo: nat, hi: nat)
    requires Scanned(rs, done, holder, release, regs, now, maxUsed) && rs.params <= lo <= hi <= |holder|
    requires forall r :: lo <= r < hi ==> holder[r] >= 0
    ensures Distinct(holder[lo..hi]) && forall k :: 0 <= k < hi - lo ==> rs.Used(holder[lo..hi][k])
  {
    var held := holder[lo..hi];
    forall i, j | 0 <= i < j < |held| ensures held[i] != held[j] {
      assert regs[holder[lo + i]] == lo + i && regs[holder[lo + j]] == lo + j;
    }
    forall k | 0 <= k < |held| ensures rs.Used(held[k]) { assert holder[lo + k] in done; }
  }

  /** n + 16 registers are always enough: the branch that would grow the arrays is never taken. */
  lemma SomeRegisterFree(rs: Ranges, done: seq<int>, holder: seq<int>, release: seq<int>, regs: seq<int>, now: int,
                         maxUsed: int)
    requires Scanned(rs, done, holder, release, regs, now, maxUsed) && |holder| > |rs.first|
    ensures exists r :: rs.params <= r < |holder| && holder[r] < 0
  {
    if forall r :: rs.params <= r < |holder| ==> holder[r] >= 0 {
      var held := holder[rs.params..|holder|];
      HeldDistinct(rs, done, holder, release, regs, now, maxUsed, rs.params, |holder|);
      forall k | 0 <= k < |held| ensures held[k] in Upto(|rs.first|) - Upto(rs.params) {
        assert rs.Used(held[k]);
      }
      UptoDiff(rs.params, |rs.first|);
      DistinctFit(held, Upto(|rs.first|) - Upto(rs.params));
      assert false;
    }
  }

  /** A register handed out above all others is needed: everything below it is live at f. */
  lemma NeededAt(rs: Ranges, done: seq<int>, holder: seq<int>, release: seq<int>, regs: seq<int>, maxUsed: int,
                 slot: int, r: nat)
    requires rs.Used(slot) && slot !in done && Scanned(rs, done, holder, release, regs, rs.first[slot], maxUsed)
    requires HeldLive(rs, holder, rs.first[slot]) && rs.params <= r < |holder|
    requires forall k :: rs.params <= k < r ==> holder[k] >= 0
    ensures |rs.Live(rs.first[slot])| >= r + 1 - rs.params
  {
    var held := holder[rs.params..r] + [slot];
    HeldDistinct(rs, done, holder, release, regs, rs.first[slot], maxUsed, rs.params, r);
    forall k | 0 <= k < |held| ensures held[k] in rs.Live(rs.first[slot]) {
      if k < r - rs.params { assert rs.LiveAt(holder[rs.params + k], rs.first[slot]); }
    }
    forall i, j | 0 <= i < j < |held| ensures held[i] != held[j] {
      if j == r - rs.params {
        assert holder[rs.params + i] in done;
      } else {
        assert held[i] == holder[rs.params..r][i] && held[j] == holder[rs.params..r][j];
      }
    }
    DistinctFit(held, rs.Live(rs.first[slot]));
  }

  lemma AfterAssign(rs: Ranges, done: seq<int>, holder: seq<int>, release: seq<int>, regs: seq<int>, maxUsed: int,
                    slot: int, r: nat)
    requires rs.Used(slot) && slot !in done && Scanned(rs, done, holder, release, regs, rs.first[slot], maxUsed)
    requires HeldLive(rs, holder, rs.first[slot]) && rs.params <= r < |holder| && holder[r] < 0
    ensures Scanned(rs, done + [slot], holder[r := slot], release[r := rs.last[slot]], regs[slot := r], rs.first[slot],
                    if r > maxUsed then r else maxUsed)
  {
    var done', regs' := done + [slot], regs[slot := r];
    forall k | 0 <= k < |done| && rs.Overlap(done[k], slot) ensures regs[done[k]] != r {
      assert rs.last[done[k]] >= rs.first[slot];
      assert holder[regs[done[k]]] == done[k];
    }
    forall k | 0 <= k < |done'| ensures regs'[done'[k]] == if k < |done| then regs[done[k]] else r {
      if k < |done| { assert done[k] in done; }
    }
    var holder' := holder[r := slot];
    forall x | rs.params <= x < |holder| && holder'[x] >= 0 ensures holder'[x] in done' && regs'[holder'[x]] == x {
      if x == r { assert done'[|done|] == slot; } else { assert holder[x] in done; }
    }
  }

  class Locals {
    var registers: array<int>
    var nextRegister: int
    var maxRegisters: int
  }

  /** Steps up to the scan proper: parameters keep the registers 0 .. params - 1. */
  method Seed(rs: Ranges) returns (holder: array<int>, release: array<int>)
    requires rs.Valid() && rs.params < |rs.first|
    ensures fresh(holder) && fresh(release) && holder != release
    ensures holder.Length == release.Length == |rs.first| + 16
    ensures forall r :: rs.params <= r < holder.Length ==> holder[r] == -1
  {
    var cap := |rs.first| + 16;
    holder := new int[cap](_ => -1);
    release := new int[cap](_ => -1);
    for p := 0 to rs.params
      invariant forall r :: rs.params <= r < holder.Length ==> holder[r] == -1
    {
      holder[p] := p;
      release[p] := if rs.last[p] > 0 then rs.last[p] else 0;
    }
  }

  lemma IdentityLists(rs: Ranges, order: seq<int>)
    requires rs.params <= |rs.first| && |order| == |rs.first| - rs.params
    requires forall k :: 0 <= k < |order| ==> order[k] == rs.params + k
    ensures Lists(rs, order)
  {
    forall i | rs.Body(i) ensures i in order { assert order[i - rs.params] == i; }
  }

  /** The scan is at order[i]: done holds the used slots before it. */
  ghost predicate Progress(rs: Ranges, order: seq<int>, i: nat, done: seq<int>, now: int) {
    i <= |order| && (forall k :: 0 <= k < |done| ==> done[k] in order[..i]) &&
    (forall k :: 0 <= k < i && rs.Used(order[k]) ==> order[k] in done) &&
    (forall k :: i <= k < |order| ==> rs.Key(order[k]) >= now)
  }

  lemma ProgressSkip(rs: Ranges, order: seq<int>, i: nat, done: seq<int>, now: int)
    requires Progress(rs, order, i, done, now) && i < |order| && !rs.Used(order[i])
    ensures Progress(rs, order, i + 1, done, now)
  {
    assert order[..i + 1] == order[..i] + [order[i]];
  }

  lemma ProgressAdd(rs: Ranges, order: seq<int>, i: nat, done: seq<int>, now: int)
    requires Progress(rs, order, i, done, now) && i < |order| && rs.Used(order[i])
    requires SortedUpto(rs, order, |order|) && Lists(rs, order)
    ensures order[i] !in done && rs.first[order[i]] >= now
    ensures Progress(rs, order, i + 1, done + [order[i]], rs.first[order[i]])
  {
    assert order[..i + 1] == order[..i] + [order[i]];
    var done' := done + [order[i]];
    forall k | 0 <= k < i + 1 && rs.Used(order[k]) ensures order[k] in done' {
      if k == i { assert done'[|done|] == order[i]; }
    }
  }

  /** The slots done stand in the order of the scan, before those to come. */
  ghost predicate InOrder(rs: Ranges, order: seq<int>, i: nat, done: seq<int>) {
    i <= |order| && (forall j, k :: 0 <= j < k < |done| ==> rs.Earlier(done[j], done[k])) &&
    forall j, k :: 0 <= j < |done| && i <= k < |order| ==> rs.Earlier(done[j], order[k])
  }

  lemma InOrderAdd(rs: Ranges, order: seq<int>, i: nat, done: seq<int>)
    requires InOrder(rs, order, i, done) && i < |order| && SortedUpto(rs, order, |order|)
    ensures InOrder(rs, order, i + 1, done) && InOrder(rs, order, i + 1, done + [order[i]])
  {
    hide rs.Earlier;
  }

  /** Some slot done, still live at position f, has register r. */
  ghost predicate Held(rs: Ranges, done: seq<int>, regs: seq<int>, r: int, f: int)
    requires |regs| == |rs.first| == |rs.last|
  {
    exists j :: 0 <= j < |done| && rs.Used(done[j]) && regs[done[j]] == r && f <= rs.last[done[j]]
  }

  /** Each slot done found the registers below its own held by those done before it. */
  ghost predicate Fitted(rs: Ranges, done: seq<int>, regs: seq<int>)
    requires |regs| == |rs.first| == |rs.last|
  {
    forall k, r :: 0 <= k < |done| && rs.Used(done[k]) && rs.params <= r < regs[done[k]] ==>
      Held(rs, done[..k], regs, r, rs.first[done[k]])
  }

  lemma FittedAdd(rs: Ranges, done: seq<int>, regs: seq<int>, slot: int, x: int)
    requires |regs| == |rs.first| == |rs.last| && rs.Used(slot) && slot !in done && Fitted(rs, done, regs)
    requires forall r :: rs.params <= r < x ==> Held(rs, done, regs, r, rs.first[slot])
    ensures Fitted(rs, done + [slot], regs[slot := x])
  {
    var done', regs' := done + [slot], regs[slot := x];
    forall k, r | 0 <= k < |done'| && rs.Used(done'[k]) && rs.params <= r < regs'[done'[k]]
      ensures Held(rs, done'[..k], regs', r, rs.first[done'[k]])
    {
      if k < |done| { assert done[k] in done; }
      assert Held(rs, done[..k], regs, r, rs.first[done'[k]]) by { assert k == |done| ==> done[..k] == done; }
      var j :| 0 <= j < k && rs.Used(done[..k][j]) && regs[done[..k][j]] == r &&
        rs.first[done'[k]] <= rs.last[done[..k][j]];
      assert done'[..k][j] == done[..k][j] == done[j] && done[j] in done;
    }
  }

  lemma FittedSkip(rs: Ranges, done: seq<int>, regs: seq<int>, slot: int)
    requires |regs| == |rs.first| == |rs.last| && rs.Body(slot) && !rs.Used(slot) && Fitted(rs, done, regs)
    ensures Fitted(rs, done, regs[slot := 0])
  {
    var regs' := regs[slot := 0];
    forall k, r | 0 <= k < |done| && rs.Used(done[k]) && rs.params <= r < regs'[done[k]]
      ensures Held(rs, done[..k], regs', r, rs.first[done[k]])
    {
      assert Held(rs, done[..k], regs, r, rs.first[done[k]]);
      var j :| 0 <= j < k && rs.Used(done[..k][j]) && regs[done[..k][j]] == r &&
        rs.first[done[k]] <= rs.last[done[..k][j]];
      assert regs'[done[..k][j]] == r;
    }
  }

  lemma FitsFirst(rs: Ranges, order: seq<int>, done: seq<int>, regs: seq<int>)
    requires |regs| == |rs.first| == |rs.last| && Fitted(rs, done, regs) && InOrder(rs, order, |order|, done)
    requires forall i :: rs.Used(i) ==> i in done
    ensures FirstFit(rs, regs)
  {
    forall i, r | rs.Used(i) && rs.params <= r < regs[i] ensures Taken(rs, regs, i, r) {
      var k :| 0 <= k < |done| && done[k] == i;
      assert Held(rs, done[..k], regs, r, rs.first[i]);
      var j :| 0 <= j < k && rs.Used(done[..k][j]) && regs[done[..k][j]] == r && rs.first[i] <= rs.last[done[..k][j]];
      assert Takes(rs, regs, done[j], i, r);
    }
  }

  /** The registers below a free one that is the lowest are held by slots done and still live. */
  lemma BelowHeld(rs: Ranges, done: seq<int>, holder: seq<int>, release: seq<int>, regs: seq<int>, now: int,
                  maxUsed: int, free: int)
    requires Scanned(rs, done, holder, release, regs, now, maxUsed) && HeldLive(rs, holder, now)
    requires free <= |holder| && forall k :: rs.params <= k < free ==> holder[k] >= 0
    ensures forall r :: rs.params <= r < free ==> Held(rs, done, regs, r, now)
  {
    forall r | rs.params <= r < free ensures Held(rs, done, regs, r, now) {
      assert holder[r] in done && rs.LiveAt(holder[r], now);
      var j :| 0 <= j < |done| && done[j] == holder[r];
    }
  }

  /** One turn of the scan for a used slot: release what died, take the lowest free register. */
  method PlaceSlot(rs: Ranges, holder: array<int>, release: array<int>, registers: array<int>, slot: int,
                   maxUsed: int, ghost done: seq<int>, ghost now: int)
    returns (maxUsed': int)
    requires holder != release && holder != registers && release != registers &&
             holder.Length == release.Length > |rs.first|
    requires rs.Used(slot) && slot !in done && rs.first[slot] >= now
    requires Scanned(rs, done, holder[..], release[..], registers[..], now, maxUsed)
    modifies holder, release, registers
    ensures Scanned(rs, done + [slot], holder[..], release[..], registers[..], rs.first[slot], maxUsed')
    ensures maxUsed' == maxUsed || (maxUsed' > maxUsed && |rs.Live(rs.first[slot])| >= maxUsed' + 1 - rs.params)
    ensures registers[..] == old(registers[..])[slot := registers[slot]]
    ensures forall r :: rs.params <= r < registers[slot] ==> Held(rs, done, old(registers[..]), r, rs.first[slot])
  {
    assert rs.Valid() && registers.Length == |rs.first| && rs.params <= maxUsed + 1;
    hide Scanned, HeldLive, Held;
    var f := rs.first[slot];
    ghost var h, l, regs := holder[..], release[..], registers[..];
    ReleaseDead(holder, release, rs.params, f);
    AfterRelease(rs, done, h, l, holder[..], release[..], regs, now, maxUsed, f);
    var free := LowestFree(holder, rs.params);
    if free < 0 {
      SomeRegisterFree(rs, done, holder[..], release[..], regs, f, maxUsed);
      assert false;
    }
    h, l := holder[..], release[..];
    BelowHeld(rs, done, h, l, regs, f, maxUsed, free);
    AfterAssign(rs, done, h, l, regs, maxUsed, slot, free);
    if free > maxUsed { NeededAt(rs, done, h, l, regs, maxUsed, slot, free); }
    holder[free] := slot;
    release[free] := rs.last[slot];
    registers[slot] := free;
    assert holder[..] == h[free := slot] && release[..] == l[free := rs.last[slot]] &&
        registers[..] == regs[slot := free];
    maxUsed' := if free > maxUsed then free else maxUsed;
  }

  /** The scan has come to slots[i]. */
  ghost predicate Midway(rs: Ranges, slots: seq<int>, i: nat, done: seq<int>, holder: seq<int>, release: seq<int>,
                         regs: seq<int>, now: int, maxUsed: int, was: seq<int>) {
    Progress(rs, slots, i, done, now) && Scanned(rs, done, holder, release, regs, now, maxUsed) &&
    InOrder(rs, slots, i, done) && Fitted(rs, done, regs) && Untouched(rs, slots, i, was, regs)
  }

  lemma ScanSkips(rs: Ranges, slots: seq<int>, i: nat, done: seq<int>, holder: seq<int>, release: seq<int>,
                  regs: seq<int>, now: int, maxUsed: int, was: seq<int>)
    requires Midway(rs, slots, i, done, holder, release, regs, now, maxUsed, was) && i < |slots|
    requires Lists(rs, slots) && SortedUpto(rs, slots, |slots|) && rs.first[slots[i]] < 0
    ensures Midway(rs, slots, i + 1, done, holder, release, regs[slots[i] := 0], now, maxUsed, was)
  {
    SlotFacts(rs, slots, i);
    hide Lists, Scanned, SortedUpto, Progress, Untouched, InOrder, Fitted;
    ProgressSkip(rs, slots, i, done, now);
    InOrderAdd(rs, slots, i, done);
    UnusedKeeps(rs, done, holder, release, regs, now, maxUsed, slots[i]);
    UntouchedStep(rs, slots, i, was, regs, 0);
    FittedSkip(rs, done, regs, slots[i]);
  }

  lemma ScanPlaces(rs: Ranges, slots: seq<int>, i: nat, done: seq<int>, holder: seq<int>, release: seq<int>,
                   regs: seq<int>, now: int, maxUsed: int, was: seq<int>, holder': seq<int>, release': seq<int>, x: int,
                   maxUsed': int)
    requires Midway(rs, slots, i, done, holder, release, regs, now, maxUsed, was) && i < |slots|
    requires Lists(rs, slots) && SortedUpto(rs, slots, |slots|) && rs.Used(slots[i])
    requires Scanned(rs, done + [slots[i]], holder', release', regs[slots[i] := x], rs.first[slots[i]], maxUsed')
    requires forall r :: rs.params <= r < x ==> Held(rs, done, regs, r, rs.first[slots[i]])
    ensures Midway(rs, slots, i + 1, done + [slots[i]], holder', release', regs[slots[i] := x], rs.first[slots[i]],
                   maxUsed', was)
  {
    assert |regs| == |rs.first| == |rs.last|;
    hide Lists, Scanned, SortedUpto, Progress, Untouched, InOrder, Fitted, Held;
    ProgressAdd(rs, slots, i, done, now);
    InOrderAdd(rs, slots, i, done);
    UntouchedStep(rs, slots, i, was, regs, x);
    FittedAdd(rs, done, regs, slots[i], x);
  }

  /** One turn: a slot that is never used gets register 0, any other is placed. */
  method ScanSlot(rs: Ranges, slots: seq<int>, i: nat, holder: array<int>, release: array<int>, registers: array<int>,
                  maxUsed: int, ghost done: seq<int>, ghost now: int, ghost was: seq<int>)
    returns (maxUsed': int, ghost done': seq<int>, ghost now': int)
    requires rs.Valid() && registers.Length == |rs.first| && Lists(rs, slots) && SortedUpto(rs, slots, |slots|)
    requires holder != release && holder != registers && release != registers && i < |slots|
    requires holder.Length == release.Length > |rs.first|
    requires Midway(rs, slots, i, done, holder[..], release[..], registers[..], now, maxUsed, was)
    modifies holder, release, registers
    ensures Midway(rs, slots, i + 1, done', holder[..], release[..], registers[..], now', maxUsed', was)
    ensures maxUsed' == maxUsed || (maxUsed' > maxUsed && |rs.Live(now')| >= maxUsed' + 1 - rs.params)
  {
    var slot := slots[i];
    SlotFacts(rs, slots, i);
    ghost var h, l, regs := holder[..], release[..], registers[..];
    hide *;
    if rs.first[slot] < 0 {
      ScanSkips(rs, slots, i, done, h, l, regs, now, maxUsed, was);
      registers[slot] := 0;
      assert registers[..] == regs[slot := 0];
      return maxUsed, done, now;
    }
    BeforePlace(rs, slots, i, done, h, l, regs, now, maxUsed, was);
    maxUsed' := PlaceSlot(rs, holder, release, registers, slot, maxUsed, done, now);
    ScanPlaces(rs, slots, i, done, h, l, regs, now, maxUsed, was, holder[..], release[..], registers[slot], maxUsed');
    done', now' := done + [slot], rs.first[slot];
  }

  /** The scan over the sorted slots. */
  method ScanSlots(rs: Ranges, slots: seq<int>, holder: array<int>, release: array<int>, registers: array<int>)
    returns (maxUsed: int)
    requires rs.Valid() && registers.Length == |rs.first| && Lists(rs, slots) && SortedUpto(rs, slots, |slots|)
    requires holder != release && holder != registers && release != registers
    requires holder.Length == release.Length == |rs.first| + 16
    requires forall r :: rs.params <= r < holder.Length ==> holder[r] == -1
    modifies holder, release, registers
    ensures forall k :: 0 <= k < rs.params ==> registers[k] == old(registers[k])
    ensures Sound(rs, registers[..], maxUsed + 1) && Tight(rs, maxUsed + 1) && maxUsed + 1 >= rs.params
    ensures FirstFit(rs, registers[..])
    ensures forall i :: rs.Body(i) && !rs.Used(i) ==> registers[i] == 0
  {
    maxUsed := rs.params - 1;
    ghost var done, now, busiest, was := [], -1, 0, registers[..];
    BeforeScan(rs, slots, holder[..], release[..], registers[..]);
    hide *;
    for i := 0 to |slots|
      invariant Midway(rs, slots, i, done, holder[..], release[..], registers[..], now, maxUsed, was)
      invariant rs.params - 1 <= maxUsed
      invariant maxUsed == rs.params - 1 || |rs.Live(busiest)| >= maxUsed + 1 - rs.params
    {
      var higher;
      higher, done, now := ScanSlot(rs, slots, i, holder, release, registers, maxUsed, done, now, was);
      if higher > maxUsed { busiest := now; }
      maxUsed := higher;
    }
    AfterScan(rs, slots, done, holder[..], release[..], registers[..], now, maxUsed, was);
    TightAt(rs, maxUsed + 1, busiest);
  }

  lemma TightAt(rs: Ranges, next: int, t: int)
    requires |rs.first| == |rs.last| && (next == rs.params || |rs.Live(t)| >= next - rs.params)
    ensures Tight(rs, next)
  {
  }

  lemma BeforePlace(rs: Ranges, slots: seq<int>, i: nat, done: seq<int>, holder: seq<int>, release: seq<int>,
                    regs: seq<int>, now: int, maxUsed: int, was: seq<int>)
    requires Midway(rs, slots, i, done, holder, release, regs, now, maxUsed, was) && i < |slots|
    requires Lists(rs, slots) && SortedUpto(rs, slots, |slots|) && rs.Used(slots[i])
    ensures slots[i] !in done && rs.first[slots[i]] >= now
    ensures Scanned(rs, done, holder, release, regs, now, maxUsed)
  {
    hide Lists, Scanned, SortedUpto, Progress, Untouched, InOrder, Fitted;
    ProgressAdd(rs, slots, i, done, now);
  }

  /** assign_registers_linear_scan. */
  method AssignRegisters(loc: Locals, rs: Ranges)
    requires rs.Valid() && loc.registers.Length == |rs.first|
    modifies loc`nextRegister, loc`maxRegisters, loc.registers
    ensures forall i :: 0 <= i < rs.params ==> loc.registers[i] == old(loc.registers[i])
    ensures rs.params == |rs.first| ==>
            loc.nextRegister == old(loc.nextRegister) && loc.maxRegisters == old(loc.maxRegisters)
    ensures rs.params < |rs.first| ==>
              Sound(rs, loc.registers[..], loc.nextRegister) && Tight(rs, loc.nextRegister) &&
              FirstFit(rs, loc.registers[..]) &&
              loc.nextRegister == loc.maxRegisters >= rs.params &&
              forall i :: rs.Body(i) && !rs.Used(i) ==> loc.registers[i] == 0
  {
    var n, registers := |rs.first|, loc.registers;
    if n - rs.params <= 0 { return; }
    var order := new int[n - rs.params](k => rs.params + k);
    IdentityLists(rs, order[..]);
    SortSlots(rs, order);
    var holder, release := Seed(rs);
    var maxUsed := ScanSlots(rs, order[..], holder, release, registers);
    loc.nextRegister := maxUsed + 1;
    loc.maxRegisters := loc.nextRegister;
  }

  ghost predicate Untouched(rs: Ranges, slots: seq<int>, i: nat, was: seq<int>, regs: seq<int>) {
    |was| == |regs| == |rs.first| && i <= |slots| && rs.params <= |regs| &&
    (forall k :: 0 <= k < rs.params ==> regs[k] == was[k]) &&
    (forall k :: 0 <= k < i && !rs.Used(slots[k]) ==> Zero(regs, slots[k]))
  }

  predicate Zero(regs: seq<int>, slot: int) { 0 <= slot < |regs| && regs[slot] == 0 }

  lemma UntouchedStep(rs: Ranges, slots: seq<int>, i: nat, was: seq<int>, regs: seq<int>, r: int)
    requires Untouched(rs, slots, i, was, regs) && i < |slots| && Lists(rs, slots)
    requires rs.Used(slots[i]) || r == 0
    ensures Untouched(rs, slots, i + 1, was, regs[slots[i] := r])
  {
    assert rs.Body(slots[i]);
  }

  lemma BeforeScan(rs: Ranges, order: seq<int>, holder: seq<int>, release: seq<int>, regs: seq<int>)
    requires rs.Valid() && |regs| == |rs.first| && |holder| == |release| == |rs.first| + 16
    requires forall r :: rs.params <= r < |holder| ==> holder[r] == -1
    ensures Midway(rs, order, 0, [], holder, release, regs, -1, rs.params - 1, regs)
  {
  }

  lemma SlotFacts(rs: Ranges, order: seq<int>, i: nat)
    requires Lists(rs, order) && i < |order|
    ensures rs.Body(order[i]) && forall k :: 0 <= k < |order| && k != i ==> order[k] != order[i]
    ensures 0 <= order[i] < |rs.first| && (rs.Used(order[i]) <==> rs.first[order[i]] >= 0)
  {
  }

  lemma UnusedKeeps(rs: Ranges, done: seq<int>, holder: seq<int>, release: seq<int>, regs: seq<int>, now: int,
                    maxUsed: int, slot: int)
    requires Scanned(rs, done, holder, release, regs, now, maxUsed) && rs.Body(slot) && !rs.Used(slot)
    ensures Scanned(rs, done, holder, release, regs[slot := 0], now, maxUsed)
  {
  }

  lemma AfterScan(rs: Ranges, order: seq<int>, done: seq<int>, holder: seq<int>, release: seq<int>, regs: seq<int>,
                  now: int, maxUsed: int, was: seq<int>)
    requires Midway(rs, order, |order|, done, holder, release, regs, now, maxUsed, was) && Lists(rs, order)
    ensures Sound(rs, regs, maxUsed + 1) && FirstFit(rs, regs)
    ensures forall i :: rs.Body(i) && !rs.Used(i) ==> regs[i] == 0
    ensures forall k :: 0 <= k < rs.params ==> regs[k] == was[k]
  {
    AfterUntouched(rs, order, regs, was);
    AllDone(rs, order, done, now);
    FitsFirst(rs, order, done, regs);
    ScannedSound(rs, done, holder, release, regs, now, maxUsed);
  }

  lemma AllDone(rs: Ranges, order: seq<int>, done: seq<int>, now: int)
    requires Lists(rs, order) && Progress(rs, order, |order|, done, now)
    ensures forall i :: rs.Used(i) ==> i in done
  {
    forall i | rs.Used(i) ensures i in done {
      var k :| 0 <= k < |order| && order[k] == i;
    }
  }

  lemma AfterUntouched(rs: Ranges, order: seq<int>, regs: seq<int>, was: seq<int>)
    requires Lists(rs, order) && Untouched(rs, order, |order|, was, regs)
    ensures forall i :: rs.Body(i) && !rs.Used(i) ==> regs[i] == 0
    ensures forall k :: 0 <= k < rs.params ==> regs[k] == was[k]
  {
    forall i | rs.Body(i) && !rs.Used(i) ensures regs[i] == 0 {
      var k :| 0 <= k < |order| && order[k] == i;
    }
  }

  lemma ScannedSound(rs: Ranges, done: seq<int>, holder: seq<int>, release: seq<int>, regs: seq<int>, now: int,
                     maxUsed: int)
    requires Scanned(rs, done, holder, release, regs, now, maxUsed) && forall i :: rs.Used(i) ==> i in done
    ensures Sound(rs, regs, maxUsed + 1)
  {
    forall i, j | rs.Used(i) && rs.Used(j) && i != j && rs.Overlap(i, j) ensures regs[i] != regs[j] {
      var a :| 0 <= a < |done| && done[a] == i;
      var b :| 0 <= b < |done| && done[b] == j;
      assert rs.Overlap(done[if a < b then a else b], done[if a < b then b else a]);
    }
  }

  // ----- optimality -----

  lemma {:induction false} InjectionFits(s: set<int>, n: nat, regs: seq<int>, t: set<int>)
    requires s <= Upto(n) && n <= |regs|
    requires forall i :: i in s ==> regs[i] in t
    requires forall i, j :: i in s && j in s && i != j ==> regs[i] != regs[j]
    ensures |s| <= |t|
  {
    if n > 0 {
      if n - 1 in s {
        InjectionFits(s - {n - 1}, n - 1, regs, t - {regs[n - 1]});
      } else {
        InjectionFits(s, n - 1, regs, t);
      }
    }
  }

  /** A sound allocation has room for everything that is ever live at once. */
  lemma LiveFits(rs: Ranges, regs: seq<int>, next: int, t: int)
    requires rs.Valid() && Sound(rs, regs, next) && next >= rs.params
    ensures |rs.Live(t)| <= next - rs.params
  {
    var s, range := rs.Live(t), Upto(next) - Upto(rs.params);
    forall i, j | i in s && j in s && i != j ensures regs[i] != regs[j] { assert rs.Overlap(i, j); }
    InjectionFits(s, |regs|, regs, range);
    UptoDiff(rs.params, next);
  }

  /** The register count is the parameter count plus the largest number of body locals live at one
    * position, and no sound allocation of any kind uses fewer registers. */
  lemma ScanIsOptimal(rs: Ranges, regs: seq<int>, next: int, regs': seq<int>, next': int)
    requires rs.Valid() && Sound(rs, regs, next) && Tight(rs, next) && next >= rs.params
    requires Sound(rs, regs', next') && next' >= rs.params
    ensures (forall t :: |rs.Live(t)| <= next - rs.params) &&
            (next > rs.params ==> exists t :: |rs.Live(t)| == next - rs.params)
    ensures next <= next'
  {
    forall t ensures |rs.Live(t)| <= next - rs.params { LiveFits(rs, regs, next, t); }
    if next > rs.params {
      var t :| |rs.Live(t)| >= next - rs.params;
      LiveFits(rs, regs, next, t);
      LiveFits(rs, regs', next', t);
    }
  }
}
