/** The bits of a compressed block, as the encoder lays them out. */
module BlockFormat {
  import opened Permutations
  import opened Bits
  import opened CanonicalCodes
  import opened MoveToFront
  import opened GenerateMtf
  import opened DecodeMachine

  /** The tables chosen for a block, and the table each group of fifty symbols uses. */
  datatype Plan = Plan(sel: seq<int>, lens: seq<seq<int>>)

  ghost predicate GoodPlan(p: Plan, alpha: int, nMTF: int) {
    && 2 <= |p.lens| <= 6
    && (forall t :: 0 <= t < |p.lens| ==> GoodLengths(p.lens[t], alpha) && Decodable(p.lens[t], 20))
    && |p.sel| == (nMTF + GROUP_SIZE - 1) / GROUP_SIZE && 1 <= |p.sel| < 32768
    && forall i :: 0 <= i < |p.sel| ==> 0 <= p.sel[i] < |p.lens|
  }

  function Bytes(m: seq<int>): seq<bool> {
    if m == [] then [] else ToBits(m[0], 8) + Bytes(m[1..])
  }

  // ---------- the mapping table ----------

  ghost predicate GroupUsed(inUse: seq<bool>, g: int)
    requires |inUse| == 256 && 0 <= g < 16
  {
    exists j :: 16 * g <= j < 16 * g + 16 && inUse[j]
  }

  ghost function Groups(inUse: seq<bool>): (s: seq<bool>)
    requires |inUse| == 256
    ensures |s| == 16
  {
    seq(16, g requires 0 <= g < 16 => GroupUsed(inUse, g))
  }

  /** The bits of the marked groups, from byte k on. */
  ghost function MapFrom(used16: seq<bool>, inUse: seq<bool>, k: nat): seq<bool>
    requires |used16| == 16 && |inUse| == 256 && k <= 256
    decreases 256 - k
  {
    if k == 256 then []
    else if !used16[k / 16] then MapFrom(used16, inUse, k + 1)
    else [inUse[k]] + MapFrom(used16, inUse, k + 1)
  }

  // ---------- selectors ----------

  /** Move-to-front coding of the selectors. */
  ghost function Select(pos: seq<int>, sel: seq<int>): (mtf: seq<int>)
    requires Injective(pos) && AllIn(sel, pos)
    ensures |mtf| == |sel| && forall i :: 0 <= i < |mtf| ==> 0 <= mtf[i] < |pos|
    decreases |sel|
  {
    if sel == [] then []
    else
      RestIn(sel, pos);
      FrontMembers(pos, PosOf(pos, sel[0]));
      [PosOf(pos, sel[0])] + Select(Front(pos, PosOf(pos, sel[0])), sel[1..])
  }

  function Unary(j: nat): seq<bool> {
    if j == 0 then [false] else [true] + Unary(j - 1)
  }

  function Unaries(js: seq<int>): seq<bool>
    requires forall i :: 0 <= i < |js| ==> js[i] >= 0
  {
    if js == [] then [] else Unary(js[0]) + Unaries(js[1..])
  }

  // ---------- code lengths ----------

  /** Steps from curr to the wanted length. */
  function Delta(curr: int, want: int): seq<bool>
    decreases if curr < want then want - curr else curr - want
  {
    if curr < want then [true, false] + Delta(curr + 1, want)
    else if curr > want then [true, true] + Delta(curr - 1, want)
    else [false]
  }

  function Deltas(curr: int, len: seq<int>): seq<bool>
    decreases |len|
  {
    if len == [] then [] else Delta(curr, len[0]) + Deltas(len[0], len[1..])
  }

  function LengthBits(len: seq<int>): seq<bool>
    requires len != []
  {
    ToBits(len[0], 5) + Deltas(len[0], len)
  }

  function TableBits(lens: seq<seq<int>>): seq<bool>
    requires forall t :: 0 <= t < |lens| ==> lens[t] != []
  {
    if lens == [] then [] else LengthBits(lens[0]) + TableBits(lens[1..])
  }

  // ---------- code lengths as any encoder may write them ----------

  /** Steps up (false) and down (true), and the end of a length. */
  function StepBits(signs: seq<bool>): seq<bool> {
    if signs == [] then [false] else [true, signs[0]] + StepBits(signs[1..])
  }

  function OneStep(curr: int, down: bool): int { if down then curr - 1 else curr + 1 }

  function Reached(curr: int, signs: seq<bool>): int
    decreases |signs|
  {
    if signs == [] then curr else Reached(OneStep(curr, signs[0]), signs[1..])
  }

  /** No length on the way is out of range. */
  predicate InRange(curr: int, signs: seq<bool>)
    decreases |signs|
  {
    1 <= curr <= 20 && (signs == [] || InRange(OneStep(curr, signs[0]), signs[1..]))
  }

  function StepsBits(steps: seq<seq<bool>>): seq<bool> {
    if steps == [] then [] else StepBits(steps[0]) + StepsBits(steps[1..])
  }

  /** From curr, step by step, these are the lengths. */
  predicate StepsGive(curr: int, steps: seq<seq<bool>>, len: seq<int>)
    decreases |steps|
  {
    && |steps| == |len|
    && (steps == [] || (InRange(curr, steps[0]) && Reached(curr, steps[0]) == len[0] && StepsGive(len[0], steps[1..], len[1..])))
  }

  /** How a table is sent: a first length, and the steps to each symbol's. */
  datatype Descent = Descent(start: int, steps: seq<seq<bool>>)

  predicate LegalWalk(w: Descent, len: seq<int>) {
    0 <= w.start < 32 && StepsGive(w.start, w.steps, len)
  }

  function WalkBits(w: Descent): seq<bool> {
    ToBits(w.start, 5) + StepsBits(w.steps)
  }

  function WalksBits(ws: seq<Descent>): seq<bool> {
    if ws == [] then [] else WalkBits(ws[0]) + WalksBits(ws[1..])
  }

  // ---------- symbols ----------

  ghost predicate GoodSymbols(p: Plan, syms: seq<int>) {
    && (forall x :: 0 <= x < |syms| ==> x / GROUP_SIZE < |p.sel|)
    && (forall i :: 0 <= i < |p.sel| ==> 0 <= p.sel[i] < |p.lens|)
    && forall t, x :: 0 <= t < |p.lens| && 0 <= x < |syms| ==> 0 <= syms[x] < |p.lens[t]| && p.lens[t][syms[x]] >= 0
  }

  ghost function SymbolBits(p: Plan, syms: seq<int>, x: nat): seq<bool>
    requires GoodSymbols(p, syms) && x <= |syms|
    decreases |syms| - x
  {
    if x == |syms| then []
    else Word(p.lens[p.sel[x / GROUP_SIZE]], syms[x]) + SymbolBits(p, syms, x + 1)
  }

  // ---------- a whole block ----------

  ghost function HeadBits(crc: int, orig: int): seq<bool> {
    Bytes(BLOCK_MAGIC) + ToBits(crc, 32) + ToBits(0, 1) + ToBits(orig, 24)
  }

  ghost function MapBits(inUse: seq<bool>): seq<bool>
    requires |inUse| == 256
  {
    Groups(inUse) + MapFrom(Groups(inUse), inUse, 0)
  }

  ghost function SelectorBits(p: Plan): seq<bool>
    requires 1 <= |p.lens| && forall i :: 0 <= i < |p.sel| ==> 0 <= p.sel[i] < |p.lens|
  {
    SelectorsIn(p);
    ToBits(|p.lens|, 3) + ToBits(|p.sel|, 15) + Unaries(Select(Numbers(|p.lens|), p.sel))
  }

  lemma SelectorsIn(p: Plan)
    requires forall i :: 0 <= i < |p.sel| ==> 0 <= p.sel[i] < |p.lens|
    ensures Injective(Numbers(|p.lens|)) && AllIn(p.sel, Numbers(|p.lens|))
  {
    forall v | v in p.sel ensures v in Numbers(|p.lens|) {
      assert Numbers(|p.lens|)[v] == v;
    }
  }

  ghost predicate GoodBlock(inUse: seq<bool>, p: Plan, syms: seq<int>) {
    GoodMap(inUse) && GoodPlan(p, AlphaSize(inUse), |syms|) && GoodSymbols(p, syms)
  }

  ghost function BlockBits(crc: int, orig: int, inUse: seq<bool>, p: Plan, syms: seq<int>): seq<bool>
    requires GoodBlock(inUse, p, syms)
  {
    HeadBits(crc, orig) + MapBits(inUse) + SelectorBits(p) + TableBits(p.lens) + SymbolBits(p, syms, 0)
  }

  function StreamHead(level: int): seq<bool> {
    Bytes(STREAM_MAGIC + [HDR_0 + level])
  }

  function StreamTail(crc: int): seq<bool> {
    Bytes(END_MAGIC) + ToBits(crc, 32)
  }
}
