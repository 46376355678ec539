/** Choosing the coding tables of a block: which table each group of fifty symbols uses, and the lengths of each table. */
module ChooseTables {
  import opened Bits
  import opened HuffmanTree
  import opened OptimalCodes
  import opened CodeLengths
  import opened CanonicalCodes
  import opened GenerateMtf
  import opened DecodeMachine
  import opened BlockFormat

  const LESSER_ICOST := 0
  const GREATER_ICOST := 15
  const N_ITERS := 4
  const ENCODER_MAX_LEN := 17

  /** The k-th 16-bit symbol, read through the 32-bit words. */
  function Mtfv(ptr: array<int>, k: int): (v: int)
    requires 0 <= k < 2 * ptr.Length
    reads ptr
    ensures v == Half(ptr[..], k)
  {
    if k % 2 == 0 then ptr[k / 2] % 65536 else ptr[k / 2] / 65536 % 65536
  }

  /** The array holds these symbols, all below alphaSize. */
  ghost predicate Holds(w: seq<int>, syms: seq<int>, alphaSize: int) {
    |syms| <= 2 * |w| && forall k :: 0 <= k < |syms| ==> Half(w, k) == syms[k] && 0 <= syms[k] < alphaSize
  }

  function GroupsFor(nMTF: int): (n: int)
    ensures 2 <= n <= 6
  {
    if nMTF < 200 then 2 else if nMTF < 600 then 3 else if nMTF < 1200 then 4 else if nMTF < 2400 then 5 else 6
  }

  /** More symbols never mean fewer tables, and these are the counts at which one more is used. */
  lemma GroupsGrow(a: int, b: int)
    requires a <= b
    ensures GroupsFor(a) <= GroupsFor(b)
    ensures GroupsFor(199) == 2 && GroupsFor(200) == GroupsFor(599) == 3 && GroupsFor(600) == GroupsFor(1199) == 4
    ensures GroupsFor(1200) == GroupsFor(2399) == 5 && GroupsFor(2400) == 6
  {
  }

  // ---------- scaling the Kraft sum ----------

  lemma {:induction false} KraftScale(len: seq<int>, t: nat, k: nat)
    requires forall i :: 0 <= i < |len| ==> 0 <= len[i] <= t
    ensures Kraft(len, t + k) == Kraft(len, t) * Pow2(k)
  {
    if len != [] {
      var m := |len| - 1;
      KraftScale(len[..m], t, k);
      Pow2Add(t - len[m], k);
      Distribute(Kraft(len[..m], t), Pow2(t - len[m]), Pow2(k));
    }
  }

  /** Lengths up to 17 with Kraft sum one are decodable by a decoder that allows 20. */
  lemma CompleteDecodable(len: seq<int>, t: nat)
    requires t <= 20 && (forall i :: 0 <= i < |len| ==> 1 <= len[i] <= t) && Kraft(len, t) == Pow2(t)
    ensures Decodable(len, 20)
  {
    hide Kraft, Pow2;
    KraftScale(len, t, 20 - t);
    Pow2Add(t, 20 - t);
  }

  // ---------- symbol counts ----------

  lemma {:induction false} FreqSumBound(f: seq<int>, k: nat)
    requires k <= |f| && forall i :: 0 <= i < |f| ==> f[i] >= 0
    ensures 0 <= Total(f[..k]) && FreqSum(f, k) <= Total(f[..k]) + k
  {
    if k > 0 {
      FreqSumBound(f, k - 1);
      assert f[..k][..k - 1] == f[..k - 1];
    }
  }

  /** Frequencies of each table's symbols, no more in all than symbols counted. */
  ghost predicate Counted(rfreq: seq<seq<int>>, alphaSize: int, n: int) {
    forall t :: 0 <= t < |rfreq| ==> |rfreq[t]| == alphaSize && Total(rfreq[t]) <= n && forall v :: 0 <= v < alphaSize ==> rfreq[t][v] >= 0
  }

  lemma CountOneMore(rfreq: seq<seq<int>>, alphaSize: int, n: int, t: int, v: int)
    requires Counted(rfreq, alphaSize, n) && 0 <= t < |rfreq| && 0 <= v < alphaSize
    ensures |rfreq[t]| == alphaSize
    ensures Counted(rfreq[t := rfreq[t][v := rfreq[t][v] + 1]], alphaSize, n + 1)
  {
    TotalUpdate(rfreq[t], v, rfreq[t][v] + 1);
    hide Total;
  }

  lemma CountNone(rfreq: seq<seq<int>>, alphaSize: int)
    requires forall t :: 0 <= t < |rfreq| ==> |rfreq[t]| == alphaSize && forall v :: 0 <= v < alphaSize ==> rfreq[t][v] == 0
    ensures Counted(rfreq, alphaSize, 0)
  {
    forall t | 0 <= t < |rfreq| ensures Total(rfreq[t]) == 0 {
      TotalZero(rfreq[t]);
    }
  }

  /** How often each symbol comes up, among the first n, in the groups that use table t. */
  ghost function Counts(syms: seq<int>, sel: seq<int>, t: int, alpha: nat, n: nat): (c: seq<int>)
    ensures |c| == alpha
  {
    if n == 0 then seq(alpha, _ => 0)
    else
      var c := Counts(syms, sel, t, alpha, n - 1);
      var g := (n - 1) / GROUP_SIZE;
      if n <= |syms| && g < |sel| && sel[g] == t && 0 <= syms[n - 1] < alpha then c[syms[n - 1] := c[syms[n - 1]] + 1] else c
  }

  /** The group that comes next does not change what has been counted. */
  lemma {:induction false} CountsKept(syms: seq<int>, sel: seq<int>, bt: int, t: int, alpha: nat, n: nat)
    requires n <= |sel| * GROUP_SIZE
    ensures Counts(syms, sel + [bt], t, alpha, n) == Counts(syms, sel, t, alpha, n)
    decreases n
  {
    if n > 0 {
      CountsKept(syms, sel, bt, t, alpha, n - 1);
      assert (n - 1) / GROUP_SIZE < |sel|;
    }
  }

  lemma CountsNext(syms: seq<int>, sel: seq<int>, t: int, alpha: nat, n: nat)
    requires n < |syms| && n / GROUP_SIZE < |sel| && 0 <= syms[n] < alpha
    ensures Counts(syms, sel, t, alpha, n + 1)
         == if sel[n / GROUP_SIZE] == t then Counts(syms, sel, t, alpha, n)[syms[n] := Counts(syms, sel, t, alpha, n)[syms[n]] + 1]
            else Counts(syms, sel, t, alpha, n)
  {
  }

  /** Each row counts the symbols of the groups that use its table. */
  ghost predicate CountedFor(rfreq: seq<seq<int>>, syms: seq<int>, sel: seq<int>, alpha: nat, n: nat) {
    forall t :: 0 <= t < |rfreq| ==> rfreq[t] == Counts(syms, sel, t, alpha, n)
  }

  lemma CountedStart(rfreq: seq<seq<int>>, syms: seq<int>, alpha: nat)
    requires forall t :: 0 <= t < |rfreq| ==> rfreq[t] == seq(alpha, _ => 0)
    ensures CountedFor(rfreq, syms, [], alpha, 0)
  {
  }

  lemma CountedKept(rfreq: seq<seq<int>>, syms: seq<int>, sel: seq<int>, bt: int, alpha: nat, n: nat)
    requires CountedFor(rfreq, syms, sel, alpha, n) && n <= |sel| * GROUP_SIZE
    ensures CountedFor(rfreq, syms, sel + [bt], alpha, n)
  {
    hide Counts;
    forall t | 0 <= t < |rfreq| ensures rfreq[t] == Counts(syms, sel + [bt], t, alpha, n) {
      CountsKept(syms, sel, bt, t, alpha, n);
    }
  }

  lemma CountedNext(rfreq: seq<seq<int>>, syms: seq<int>, sel: seq<int>, bt: int, alpha: nat, n: nat)
    requires CountedFor(rfreq, syms, sel, alpha, n) && n < |syms| && n / GROUP_SIZE < |sel| && sel[n / GROUP_SIZE] == bt
    requires 0 <= syms[n] < alpha && 0 <= bt < |rfreq|
    ensures |rfreq[bt]| == alpha
    ensures CountedFor(rfreq[bt := rfreq[bt][syms[n] := rfreq[bt][syms[n]] + 1]], syms, sel, alpha, n + 1)
  {
    hide Counts;
    forall t | 0 <= t < |rfreq| ensures |rfreq[t]| == alpha && rfreq[bt := rfreq[bt][syms[n] := rfreq[bt][syms[n]] + 1]][t] == Counts(syms, sel, t, alpha, n + 1) {
      assert rfreq[bt] == Counts(syms, sel, bt, alpha, n);
      CountsNext(syms, sel, t, alpha, n);
    }
  }

  // ---------- the choice ----------

  /** Tables of costs: all as long as the alphabet. */
  predicate Shape(lens: seq<seq<int>>, nGroups: int, alphaSize: int) {
    |lens| == nGroups && forall t :: 0 <= t < nGroups ==> |lens[t]| == alphaSize
  }

  /** The first tables: each prefers one stretch of the alphabet. */
  method InitialTables(nGroups: int, alphaSize: int, nMTF: int, mtfFreq: array<int>) returns (lens: seq<seq<int>>)
    requires 2 <= nGroups <= 6 && 3 <= alphaSize <= mtfFreq.Length
    ensures Shape(lens, nGroups, alphaSize)
    ensures forall t, v :: 0 <= t < nGroups && 0 <= v < alphaSize ==> 0 <= lens[t][v] <= ENCODER_MAX_LEN
  {
    var greater := seq(alphaSize, _ => GREATER_ICOST);
    lens := seq(nGroups, _ => greater);
    var nPart, remF, gs := nGroups, nMTF, 0;
    while nPart > 0
      invariant 0 <= nPart <= nGroups && Shape(lens, nGroups, alphaSize) && 0 <= gs <= alphaSize
      invariant forall t, v :: 0 <= t < nGroups && 0 <= v < alphaSize ==> 0 <= lens[t][v] <= ENCODER_MAX_LEN
    {
      var tFreq := if remF >= 0 then remF / nPart else -((-remF) / nPart);
      var ge := gs - 1;
      var aFreq := 0;
      while aFreq < tFreq && ge < alphaSize - 1
        invariant gs - 1 <= ge <= alphaSize - 1
        decreases alphaSize - ge
      {
        ge := ge + 1;
        aFreq := aFreq + mtfFreq[ge];
      }
      if ge > gs && nPart != nGroups && nPart != 1 && (nGroups - nPart) % 2 == 1 {
        aFreq := aFreq - mtfFreq[ge];
        ge := ge - 1;
      }
      lens := lens[nPart - 1 := seq(alphaSize, v => if gs <= v <= ge then LESSER_ICOST else GREATER_ICOST)];
      nPart := nPart - 1;
      gs := ge + 1;
      remF := remF - aFreq;
    }
  }

  /** The bits a table spends on symbols. */
  ghost function Cost(len: seq<int>, s: seq<int>): int {
    if s == [] then 0 else Cost(len, s[..|s| - 1]) + if 0 <= s[|s| - 1] < |len| then len[s[|s| - 1]] else 0
  }

  lemma CostNone(lens: seq<seq<int>>, syms: seq<int>, gs: int)
    requires 0 <= gs <= |syms|
    ensures forall t :: 0 <= t < |lens| ==> Cost(lens[t], syms[gs..gs]) == 0
  {
  }

  lemma CostNext(len: seq<int>, syms: seq<int>, gs: int, i: int)
    requires 0 <= gs <= i < |syms| && 0 <= syms[i] < |len|
    ensures Cost(len, syms[gs..i + 1]) == Cost(len, syms[gs..i]) + len[syms[i]]
  {
    assert syms[gs..i + 1][..i - gs] == syms[gs..i];
  }

  /** bt is the first of the tables that spend the fewest bits on these symbols. */
  ghost predicate Cheapest(lens: seq<seq<int>>, s: seq<int>, bt: int) {
    && 0 <= bt < |lens|
    && (forall t :: 0 <= t < |lens| ==> Cost(lens[bt], s) <= Cost(lens[t], s))
    && (forall t :: 0 <= t < bt ==> Cost(lens[bt], s) < Cost(lens[t], s))
  }

  /** The symbols of group i. */
  function GroupOf(syms: seq<int>, i: nat): seq<int> {
    if i * GROUP_SIZE > |syms| then [] else if i * GROUP_SIZE + GROUP_SIZE > |syms| then syms[i * GROUP_SIZE..] else syms[i * GROUP_SIZE..i * GROUP_SIZE + GROUP_SIZE]
  }

  /** Every group has gone to the cheapest table. */
  ghost predicate Assigned(lens: seq<seq<int>>, syms: seq<int>, sel: seq<int>) {
    forall i :: 0 <= i < |sel| ==> Cheapest(lens, GroupOf(syms, i), sel[i])
  }

  /** The cost of a group of symbols under each table, and the cheapest table. */
  method CheapestTable(ptr: array<int>, gs: int, ge: int, lens: seq<seq<int>>, nGroups: int, alphaSize: int, ghost syms: seq<int>)
    returns (bt: int)
    requires Shape(lens, nGroups, alphaSize) && 2 <= nGroups && Holds(ptr[..], syms, alphaSize) && 0 <= gs <= ge < |syms|
    requires forall t, v :: 0 <= t < nGroups && 0 <= v < alphaSize ==> 0 <= lens[t][v] <= ENCODER_MAX_LEN
    requires ge - gs < GROUP_SIZE
    ensures Cheapest(lens, syms[gs..ge + 1], bt)
  {
    hide Cost, Half;
    var cost := seq(nGroups, _ => 0);
    CostNone(lens, syms, gs);
    for i := gs to ge + 1
      invariant |cost| == nGroups && forall t :: 0 <= t < nGroups ==> 0 <= cost[t] <= ENCODER_MAX_LEN * (i - gs)
      invariant forall t :: 0 <= t < nGroups ==> cost[t] == Cost(lens[t], syms[gs..i])
    {
      var icv := Mtfv(ptr, i);
      for t := 0 to nGroups
        invariant |cost| == nGroups
        invariant forall u :: 0 <= u < t ==> 0 <= cost[u] <= ENCODER_MAX_LEN * (i + 1 - gs)
        invariant forall u :: t <= u < nGroups ==> 0 <= cost[u] <= ENCODER_MAX_LEN * (i - gs)
        invariant forall u :: 0 <= u < t ==> cost[u] == Cost(lens[u], syms[gs..i + 1])
        invariant forall u :: t <= u < nGroups ==> cost[u] == Cost(lens[u], syms[gs..i])
      {
        CostNext(lens[t], syms, gs, i);
        cost := cost[t := cost[t] + lens[t][icv]];
      }
    }
    assert forall t :: 0 <= t < nGroups ==> cost[t] < 0x1_0000;  // the sums fit their sixteen bits
    var bc := 999999999;
    bt := -1;
    for t := 0 to nGroups
      invariant -1 <= bt && (bt < t || t == 0) && (t == 0 ==> bt == -1 && bc == 999999999)
      invariant t > 0 ==> 0 <= bt < t && bc == cost[bt] && forall u :: 0 <= u < t ==> cost[bt] <= cost[u]
      invariant forall u :: 0 <= u < bt ==> cost[bt] < cost[u]
    {
      if cost[t] < bc { bc, bt := cost[t], t; }
    }
  }

  /** The groups before place gs have their tables, and their symbols are counted. */
  ghost predicate Halfway(lens: seq<seq<int>>, syms: seq<int>, alphaSize: nat, gs: int, sel: seq<int>, rfreq: seq<seq<int>>) {
    && 0 <= gs <= |syms| && |sel| == (gs + GROUP_SIZE - 1) / GROUP_SIZE && (gs < |syms| ==> gs % GROUP_SIZE == 0)
    && (forall i :: 0 <= i < |sel| ==> 0 <= sel[i] < |lens|) && Assigned(lens, syms, sel)
    && |rfreq| == |lens| && Counted(rfreq, alphaSize, gs) && CountedFor(rfreq, syms, sel, alphaSize, gs)
  }

  /** One pass over the groups: a table for each, and the frequencies each table then has to code. */
  method AssignGroups(ptr: array<int>, nMTF: int, lens: seq<seq<int>>, nGroups: int, alphaSize: int, ghost syms: seq<int>)
    returns (sel: seq<int>, rfreq: seq<seq<int>>)
    requires Shape(lens, nGroups, alphaSize) && 2 <= nGroups && Holds(ptr[..], syms, alphaSize) && nMTF == |syms| && 3 <= alphaSize
    requires forall t, v :: 0 <= t < nGroups && 0 <= v < alphaSize ==> 0 <= lens[t][v] <= ENCODER_MAX_LEN
    ensures |sel| == (nMTF + GROUP_SIZE - 1) / GROUP_SIZE && forall i :: 0 <= i < |sel| ==> 0 <= sel[i] < nGroups
    ensures |rfreq| == nGroups && Counted(rfreq, alphaSize, nMTF) && CountedFor(rfreq, syms, sel, alphaSize, nMTF)
    ensures Assigned(lens, syms, sel)
  {
    rfreq := seq(nGroups, _ => seq(alphaSize, _ => 0));
    CountNone(rfreq, alphaSize);
    CountedStart(rfreq, syms, alphaSize);
    hide Counted, CountedFor, Cheapest, GroupOf, Assigned, Holds;
    sel := [];
    NoneAssigned(lens, syms);
    var gs := 0;
    assert Halfway(lens, syms, alphaSize, gs, sel, rfreq);
    hide Halfway;
    while gs < nMTF
      invariant gs <= nMTF && Halfway(lens, syms, alphaSize, gs, sel, rfreq)
    {
      gs, sel, rfreq := AssignGroup(ptr, nMTF, lens, nGroups, alphaSize, syms, gs, sel, rfreq);
    }
    HalfwayParts(lens, syms, alphaSize, gs, sel, rfreq);
  }

  lemma HalfwayParts(lens: seq<seq<int>>, syms: seq<int>, alphaSize: nat, gs: int, sel: seq<int>, rfreq: seq<seq<int>>)
    requires Halfway(lens, syms, alphaSize, gs, sel, rfreq)
    ensures |sel| == (gs + GROUP_SIZE - 1) / GROUP_SIZE && (forall i :: 0 <= i < |sel| ==> 0 <= sel[i] < |lens|)
    ensures |rfreq| == |lens| && Counted(rfreq, alphaSize, gs) && CountedFor(rfreq, syms, sel, alphaSize, gs) && Assigned(lens, syms, sel)
  {
    hide Counted, CountedFor, Assigned;
  }

  /** The group at gs. */
  method AssignGroup(ptr: array<int>, nMTF: int, lens: seq<seq<int>>, nGroups: int, alphaSize: int, ghost syms: seq<int>,
                     gs0: int, sel0: seq<int>, rfreq0: seq<seq<int>>) returns (gs: int, sel: seq<int>, rfreq: seq<seq<int>>)
    requires Shape(lens, nGroups, alphaSize) && 2 <= nGroups && Holds(ptr[..], syms, alphaSize) && nMTF == |syms| && 3 <= alphaSize
    requires forall t, v :: 0 <= t < nGroups && 0 <= v < alphaSize ==> 0 <= lens[t][v] <= ENCODER_MAX_LEN
    requires gs0 < nMTF && Halfway(lens, syms, alphaSize, gs0, sel0, rfreq0)
    ensures gs0 < gs <= nMTF && Halfway(lens, syms, alphaSize, gs, sel, rfreq)
  {
    hide Counted, CountedFor, Cheapest, GroupOf, Assigned, Holds;
    var ge := gs0 + GROUP_SIZE - 1;
    if ge >= nMTF { ge := nMTF - 1; }
    GroupStep(gs0, ge, nMTF, |sel0|);
    var bt := CheapestTable(ptr, gs0, ge, lens, nGroups, alphaSize, syms);
    CountedKept(rfreq0, syms, sel0, bt, alphaSize, gs0);
    GroupIs(syms, |sel0|, gs0, ge);
    AssignNext(lens, syms, sel0, bt);
    sel := sel0 + [bt];
    rfreq := CountGroup(ptr, gs0, ge, bt, rfreq0, alphaSize, syms, sel);
    gs := ge + 1;
  }

  /** The count of groups and the place of the next one. */
  lemma GroupStep(gs: int, ge: int, n: int, m: int)
    requires 0 <= gs < n && gs % GROUP_SIZE == 0 && m == (gs + GROUP_SIZE - 1) / GROUP_SIZE
    requires ge == if gs + GROUP_SIZE - 1 >= n then n - 1 else gs + GROUP_SIZE - 1
    ensures m * GROUP_SIZE == gs && gs / GROUP_SIZE == m && gs <= ge < n && ge < gs + GROUP_SIZE
    ensures m + 1 == (ge + 1 + GROUP_SIZE - 1) / GROUP_SIZE && (ge + 1 < n ==> (ge + 1) % GROUP_SIZE == 0)
  {
  }

  lemma GroupIs(syms: seq<int>, i: nat, gs: int, ge: int)
    requires gs == i * GROUP_SIZE < |syms| && ge == if gs + GROUP_SIZE - 1 >= |syms| then |syms| - 1 else gs + GROUP_SIZE - 1
    ensures GroupOf(syms, i) == syms[gs..ge + 1]
  {
  }

  lemma NoneAssigned(lens: seq<seq<int>>, syms: seq<int>)
    ensures Assigned(lens, syms, [])
  {
  }

  lemma AssignNext(lens: seq<seq<int>>, syms: seq<int>, sel: seq<int>, bt: int)
    requires Assigned(lens, syms, sel) && Cheapest(lens, GroupOf(syms, |sel|), bt)
    ensures Assigned(lens, syms, sel + [bt]) && 0 <= bt < |lens|
  {
    hide Cost, GroupOf;
  }

  /** The symbols of one group are counted for the table it uses. */
  method CountGroup(ptr: array<int>, gs: int, ge: int, bt: int, rfreq0: seq<seq<int>>, alphaSize: int, ghost syms: seq<int>, ghost sel: seq<int>)
    returns (rfreq: seq<seq<int>>)
    requires Holds(ptr[..], syms, alphaSize) && 0 <= gs <= ge < |syms| && 3 <= alphaSize && 0 <= bt < |rfreq0|
    requires gs % GROUP_SIZE == 0 && ge < gs + GROUP_SIZE && gs / GROUP_SIZE < |sel| && sel[gs / GROUP_SIZE] == bt
    requires Counted(rfreq0, alphaSize, gs) && CountedFor(rfreq0, syms, sel, alphaSize, gs)
    ensures |rfreq| == |rfreq0| && Counted(rfreq, alphaSize, ge + 1) && CountedFor(rfreq, syms, sel, alphaSize, ge + 1)
  {
    hide Counted, CountedFor, Half;
    rfreq := rfreq0;
    for i := gs to ge + 1
      invariant |rfreq| == |rfreq0| && Counted(rfreq, alphaSize, i) && CountedFor(rfreq, syms, sel, alphaSize, i)
    {
      var v := Mtfv(ptr, i);
      assert i / GROUP_SIZE == gs / GROUP_SIZE;
      CountedNext(rfreq, syms, sel, bt, alphaSize, i);
      CountOneMore(rfreq, alphaSize, i, bt, v);
      rfreq := rfreq[bt := rfreq[bt][v := rfreq[bt][v] + 1]];
    }
  }

  /** New lengths for every table from the frequencies it has to code. */
  method Recompute(rfreq: seq<seq<int>>, nGroups: int, alphaSize: int, ghost nMTF: int) returns (lens: seq<seq<int>>)
    requires |rfreq| == nGroups && Counted(rfreq, alphaSize, nMTF) && 0 <= nMTF <= 900001 && 3 <= alphaSize <= MAX_ALPHA
    ensures Shape(lens, nGroups, alphaSize)
    ensures forall t :: 0 <= t < nGroups ==> GoodTable(lens[t]) && BestWithin(rfreq[t], ENCODER_MAX_LEN, lens[t])
  {
    lens := [];
    hide Kraft, Pow2, Total, BestWithin;
    for t := 0 to nGroups
      invariant |lens| == t && forall u :: 0 <= u < t ==> |lens[u]| == alphaSize && GoodTable(lens[u]) && BestWithin(rfreq[u], ENCODER_MAX_LEN, lens[u])
    {
      var row := rfreq[t];
      var freq, len := new int[alphaSize](i requires 0 <= i < |row| => row[i]), new int[alphaSize];
      assert freq[..] == row;
      FreqSumBound(row, alphaSize);
      assert row[..alphaSize] == row;
      MakeCodeLengths(len, freq, alphaSize, ENCODER_MAX_LEN);
      assert len[..alphaSize] == len[..];
      lens := lens + [len[..]];
    }
  }

  /** Lengths the encoder may use: from 1 to 17, with a Kraft sum of exactly one. */
  predicate GoodTable(len: seq<int>) {
    (forall i :: 0 <= i < |len| ==> 1 <= len[i] <= ENCODER_MAX_LEN) && Kraft(len, ENCODER_MAX_LEN) == Pow2(ENCODER_MAX_LEN)
  }

  /** One round: every group goes to the table that was cheapest for it, and the tables are then fitted to their groups. */
  ghost predicate Round(before: seq<seq<int>>, plan: Plan, syms: seq<int>, alphaSize: nat) {
    |plan.lens| == |before| && Assigned(before, syms, plan.sel) && Fitted(plan, syms, alphaSize)
  }

  /** Each plan is one round on from the one before it. */
  ghost predicate Rounds(plans: seq<Plan>, syms: seq<int>, alphaSize: nat)
    decreases |plans|
  {
    var n := |plans|;
    n <= 1 || (Round(plans[n - 2].lens, plans[n - 1], syms, alphaSize) && Rounds(plans[..n - 1], syms, alphaSize))
  }

  lemma FirstRound(plans: seq<Plan>, syms: seq<int>, alphaSize: nat)
    requires |plans| == 1
    ensures Rounds(plans, syms, alphaSize)
  {
  }

  lemma NextRound(plans: seq<Plan>, next: Plan, syms: seq<int>, alphaSize: nat)
    requires plans != [] && Rounds(plans, syms, alphaSize) && Round(plans[|plans| - 1].lens, next, syms, alphaSize)
    ensures Rounds(plans + [next], syms, alphaSize)
  {
    hide Round;
    assert (plans + [next])[..|plans|] == plans;
  }

  /** Every table is the best one, within the length limit, for the symbols of the groups that use it. */
  ghost predicate Fitted(plan: Plan, syms: seq<int>, alphaSize: nat) {
    forall t :: 0 <= t < |plan.lens| ==> BestWithin(Counts(syms, plan.sel, t, alphaSize, |syms|), ENCODER_MAX_LEN, plan.lens[t])
  }

  /**
   * Four rounds of assigning groups to tables and recomputing the tables.  Whatever the heuristics choose, every
   * selector names a table, every table is a complete code with lengths from 1 to 17 and the best one for the groups
   * that ended up with it, and the counts fit the format.
   */
  method Choose(ptr: array<int>, nMTF: int, alphaSize: int, mtfFreq: array<int>, ghost syms: seq<int>) returns (plan: Plan)
    requires Holds(ptr[..], syms, alphaSize) && 1 <= nMTF == |syms| <= 900001
    requires 3 <= alphaSize <= MAX_ALPHA && alphaSize <= mtfFreq.Length
    ensures GoodPlan(plan, alphaSize, nMTF) && |plan.lens| == GroupsFor(nMTF) && |plan.sel| <= 18002
    ensures forall t :: 0 <= t < |plan.lens| ==> GoodTable(plan.lens[t])
    ensures Fitted(plan, syms, alphaSize)
    ensures exists plans :: |plans| == N_ITERS + 1 && plans[N_ITERS] == plan && Rounds(plans, syms, alphaSize)
  {
    hide BestWithin, Counts, Counted, Kraft, Pow2, Assigned, Rounds;
    assert nMTF > 0;  // assertion 3001
    var nGroups := GroupsFor(nMTF);
    var lens := InitialTables(nGroups, alphaSize, nMTF, mtfFreq);
    var sel: seq<int>, rfreq: seq<seq<int>> := [], [];
    ghost var plans := [Plan(sel, lens)];
    assert Rounds(plans, syms, alphaSize) by { FirstRound(plans, syms, alphaSize); }
    for iter := 0 to N_ITERS
      invariant Shape(lens, nGroups, alphaSize)
      invariant iter == 0 ==> forall t, v :: 0 <= t < nGroups && 0 <= v < alphaSize ==> 0 <= lens[t][v] <= ENCODER_MAX_LEN
      invariant iter > 0 ==> |sel| == (nMTF + GROUP_SIZE - 1) / GROUP_SIZE && forall i :: 0 <= i < |sel| ==> 0 <= sel[i] < nGroups
      invariant iter > 0 ==> forall t :: 0 <= t < nGroups ==> GoodTable(lens[t])
      invariant iter > 0 ==> Fitted(Plan(sel, lens), syms, alphaSize)
      invariant |plans| == iter + 1 && plans[iter] == Plan(sel, lens) && Rounds(plans, syms, alphaSize)
    {
      ghost var before := lens;
      sel, rfreq := AssignGroups(ptr, nMTF, lens, nGroups, alphaSize, syms);
      lens := Recompute(rfreq, nGroups, alphaSize, nMTF);
      assert Round(before, Plan(sel, lens), syms, alphaSize);
      NextRound(plans, Plan(sel, lens), syms, alphaSize);
      plans := plans + [Plan(sel, lens)];
    }
    assert nGroups < 8 && |sel| < 32768 && |sel| <= 18002;  // assertions 3002 and 3003
    plan := Plan(sel, lens);
    forall t | 0 <= t < nGroups ensures GoodLengths(lens[t], alphaSize) && Decodable(lens[t], 20) {
      assert GoodTable(lens[t]);
      CompleteDecodable(lens[t], ENCODER_MAX_LEN);
    }
  }
}
