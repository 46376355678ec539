/** Selectors and code lengths parsed back. */
module TableRoundTrip {
  import opened Permutations
  import opened Bits
  import opened MoveToFront
  import opened GenerateMtf
  import opened DecodeMachine
  import opened BlockFormat
  import opened FormatRoundTrip

  // ---------- selectors ----------

  /** The selectors' own move-to-front coding is undone. */
  lemma {:induction false} UnselectSelect(pos: seq<int>, sel: seq<int>)
    requires Injective(pos) && AllIn(sel, pos)
    ensures Unselect(pos, Select(pos, sel)) == sel
    decreases |sel|
  {
    if sel != [] {
      RestIn(sel, pos);
      var k := PosOf(pos, sel[0]);
      FrontMembers(pos, k);
      UnselectSelect(Front(pos, k), sel[1..]);
      assert Select(pos, sel)[1..] == Select(Front(pos, k), sel[1..]);
    }
  }

  ghost predicate AllBelow(mtf: seq<int>, n: int) {
    forall i :: 0 <= i < |mtf| ==> 0 <= mtf[i] < n
  }

  lemma {:induction false} UnaryDrives(h: Header, inUse: seq<bool>, nGroups: int, nSelectors: int, mtf: seq<int>, j: int, want: int)
    requires GoodMap(inUse) && 2 <= nGroups <= 6 && |mtf| < nSelectors && AllBelow(mtf, nGroups) && 0 <= j <= want < nGroups
    ensures Drives(Selector(h, inUse, nGroups, nSelectors, mtf, j), Unary(want - j), AfterSelector(h, inUse, nGroups, nSelectors, mtf + [want]))
    decreases want - j
  {
    hide Drives, AfterSelector, Used;
    var st := Selector(h, inUse, nGroups, nSelectors, mtf, j);
    DrivesBit(st, j < want);
    if j < want {
      UnaryDrives(h, inUse, nGroups, nSelectors, mtf, j + 1, want);
      DrivesJoin(st, [true], Selector(h, inUse, nGroups, nSelectors, mtf, j + 1), Unary(want - (j + 1)),
                 AfterSelector(h, inUse, nGroups, nSelectors, mtf + [want]));
    }
  }

  lemma {:induction false} UnariesDrive(h: Header, inUse: seq<bool>, nGroups: int, mtf: seq<int>, k: nat)
    requires GoodMap(inUse) && 2 <= nGroups <= 6 && k < |mtf| && AllBelow(mtf, nGroups)
    ensures Drives(Selector(h, inUse, nGroups, |mtf|, mtf[..k], 0), Unaries(mtf[k..]), AfterSelector(h, inUse, nGroups, |mtf|, mtf))
    decreases |mtf| - k
  {
    hide Drives, Used, Unary;
    var st := Selector(h, inUse, nGroups, |mtf|, mtf[..k], 0);
    UnaryDrives(h, inUse, nGroups, |mtf|, mtf[..k], 0, mtf[k]);
    assert mtf[..k] + [mtf[k]] == mtf[..k + 1] && mtf[k..][0] == mtf[k] && mtf[k..][1..] == mtf[k + 1..];
    if k + 1 < |mtf| {
      UnariesDrive(h, inUse, nGroups, mtf, k + 1);
      hide AfterSelector;
      DrivesJoin(st, Unary(mtf[k]), Selector(h, inUse, nGroups, |mtf|, mtf[..k + 1], 0), Unaries(mtf[k + 1..]),
                 AfterSelector(h, inUse, nGroups, |mtf|, mtf));
    } else {
      assert mtf[..k + 1] == mtf && mtf[k + 1..] == [] && Unary(mtf[k]) + [] == Unary(mtf[k]);
    }
  }

  lemma SelectorsDrive(h: Header, inUse: seq<bool>, p: Plan)
    requires GoodMap(inUse) && 2 <= |p.lens| <= 6 && 1 <= |p.sel| < 32768 && AllBelow(p.sel, |p.lens|)
    ensures Drives(GroupCount(h, inUse), SelectorBits(p), FirstLength(Body(h, inUse, p.sel, []), |p.lens|))
  {
    hide Drives, Used, Select, Unaries, Unselect;
    var n := |p.lens|;
    SelectorsIn(p);
    var mtf := Select(Numbers(n), p.sel);
    UnselectSelect(Numbers(n), p.sel);
    SmallPowers();
    DrivesField(GroupCount(h, inUse), 3, n);
    DrivesField(SelectorCount(h, inUse, n), 15, |p.sel|);
    assert mtf[..0] == [] && mtf[0..] == mtf;
    UnariesDrive(h, inUse, n, mtf, 0);
    assert AfterSelector(h, inUse, n, |mtf|, mtf) == FirstLength(Body(h, inUse, p.sel, []), n);
    hide AfterSelector;
    DrivesJoin(GroupCount(h, inUse), ToBits(n, 3), SelectorCount(h, inUse, n), ToBits(|p.sel|, 15), Selector(h, inUse, n, |p.sel|, [], 0));
    DrivesJoin(GroupCount(h, inUse), ToBits(n, 3) + ToBits(|p.sel|, 15), Selector(h, inUse, n, |p.sel|, [], 0), Unaries(mtf),
               FirstLength(Body(h, inUse, p.sel, []), n));
  }

  // ---------- code lengths ----------

  /** A body and the lengths read so far of its next table. */
  ghost predicate Lengthy(b: Body, nGroups: int, cur: seq<int>) {
    GoodBody(b, nGroups) && |b.lens| < nGroups && |cur| < AlphaSize(b.inUse) && GoodLengths(cur, |cur|)
  }

  /** Any steps within range lead to the length they reach. */
  lemma {:induction false} StepDrives(b: Body, nGroups: int, cur: seq<int>, curr: int, signs: seq<bool>)
    requires Lengthy(b, nGroups, cur) && InRange(curr, signs)
    ensures 1 <= Reached(curr, signs) <= 20 && GoodLengths(cur + [Reached(curr, signs)], |cur| + 1)
    ensures Drives(CheckLength(b, nGroups, cur, curr), StepBits(signs), AfterLength(b, nGroups, cur + [Reached(curr, signs)], Reached(curr, signs)))
    decreases |signs|
  {
    hide Drives, AfterLength, Used, GoodBody;
    var st := LengthMore(b, nGroups, cur, curr);
    LengthyStates(b, nGroups, cur, curr);
    if signs == [] {
      DrivesBit(st, false);
    } else {
      var sign, curr' := LengthSign(b, nGroups, cur, curr), OneStep(curr, signs[0]);
      StepDrives(b, nGroups, cur, curr', signs[1..]);
      var r := Reached(curr, signs);
      DrivesBit(st, true);
      DrivesBit(sign, signs[0]);
      DrivesJoin(st, [true], sign, [signs[0]], CheckLength(b, nGroups, cur, curr'));
      DrivesJoin(st, [true] + [signs[0]], CheckLength(b, nGroups, cur, curr'), StepBits(signs[1..]), AfterLength(b, nGroups, cur + [r], r));
      assert [true] + [signs[0]] == [true, signs[0]];
    }
  }

  lemma LengthyStates(b: Body, nGroups: int, cur: seq<int>, curr: int)
    requires Lengthy(b, nGroups, cur) && 1 <= curr <= 20
    ensures Sane(LengthMore(b, nGroups, cur, curr)) && Sane(LengthSign(b, nGroups, cur, curr))
  {
  }

  lemma {:induction false} StepsDrive(b: Body, nGroups: int, len: seq<int>, curr: int, steps: seq<seq<bool>>, k: nat)
    requires GoodBody(b, nGroups) && |b.lens| < nGroups && GoodLengths(len, AlphaSize(b.inUse)) && k < |len|
    requires StepsGive(curr, steps, len[k..])
    ensures Drives(CheckLength(b, nGroups, len[..k], curr), StepsBits(steps), AfterLength(b, nGroups, len, len[|len| - 1]))
    decreases |len| - k
  {
    hide Drives, Used, GoodBody, StepBits, InRange, Reached;
    assert Lengthy(b, nGroups, len[..k]);
    StepDrives(b, nGroups, len[..k], curr, steps[0]);
    var st := CheckLength(b, nGroups, len[..k], curr);
    var rest := len[k..];
    assert len[..k] + [len[k]] == len[..k + 1] && rest[0] == len[k] && rest[1..] == len[k + 1..];
    if k + 1 < |len| {
      StepsDrive(b, nGroups, len, len[k], steps[1..], k + 1);
      hide CheckLength;
      DrivesJoin(st, StepBits(steps[0]), CheckLength(b, nGroups, len[..k + 1], len[k]), StepsBits(steps[1..]),
                 AfterLength(b, nGroups, len, len[|len| - 1]));
    } else {
      assert len[..k + 1] == len && steps[1..] == [] && StepBits(steps[0]) + [] == StepBits(steps[0]);
    }
  }

  /** One table, however its lengths are walked to. */
  lemma WalkDrives(b: Body, nGroups: int, len: seq<int>, w: Descent)
    requires GoodBody(b, nGroups) && |b.lens| < nGroups && GoodLengths(len, AlphaSize(b.inUse)) && len != [] && LegalWalk(w, len)
    ensures Drives(FirstLength(b, nGroups), WalkBits(w), AfterLength(b, nGroups, len, len[|len| - 1]))
  {
    hide Drives, Used, GoodBody, AfterLength, CheckLength, StepsBits, InRange;
    SmallPowers();
    var st := FirstLength(b, nGroups);
    DrivesField(st, 5, w.start);
    assert len[..0] == [] && len[0..] == len;
    StepsDrive(b, nGroups, len, w.start, w.steps, 0);
    DrivesJoin(st, ToBits(w.start, 5), CheckLength(b, nGroups, [], w.start), StepsBits(w.steps), AfterLength(b, nGroups, len, len[|len| - 1]));
  }

  /** The first symbol can be read. */
  ghost function Start(b: Body): (st: State)
    requires GoodBody(b, |b.lens|)
  {
    NextSymbol(b, -1, 0, Runs(Numbers(256), -1, 1, []))
  }

  ghost predicate LegalWalks(ws: seq<Descent>, lens: seq<seq<int>>) {
    |ws| == |lens| && forall t :: 0 <= t < |ws| ==> LegalWalk(ws[t], lens[t])
  }

  lemma {:induction false} WalksDrive(b: Body, lens: seq<seq<int>>, ws: seq<Descent>, k: nat)
    requires GoodBody(b.(lens := lens), |lens|) && k < |lens| && b.lens == lens[..k] && LegalWalks(ws, lens)
    ensures Drives(FirstLength(b, |lens|), WalksBits(ws[k..]), Start(b.(lens := lens)))
    decreases |lens| - k
  {
    hide Drives, Used, WalkBits, NextSymbol, LegalWalk;
    var len, n := lens[k], |lens|;
    assert GoodLengths(len, AlphaSize(b.inUse));
    assert GoodBody(b, n);
    WalkDrives(b, n, len, ws[k]);
    var b' := b.(lens := b.lens + [len]);
    assert b'.lens == lens[..k + 1] && ws[k..][0] == ws[k] && ws[k..][1..] == ws[k + 1..];
    var st := FirstLength(b, n);
    if k + 1 < n {
      assert AfterLength(b, n, len, len[|len| - 1]) == FirstLength(b', n);
      WalksDrive(b', lens, ws, k + 1);
      hide GoodBody, Start;
      DrivesJoin(st, WalkBits(ws[k]), FirstLength(b', n), WalksBits(ws[k + 1..]), Start(b.(lens := lens)));
    } else {
      assert lens[..k + 1] == lens && ws[k + 1..] == [] && WalkBits(ws[k]) + [] == WalkBits(ws[k]);
      assert b' == b.(lens := lens);
    }
  }

  // ---------- the encoder's walks ----------

  /** The shortest way from curr to want. */
  function Straight(curr: int, want: int): seq<bool>
    decreases if curr < want then want - curr else curr - want
  {
    if curr < want then [false] + Straight(curr + 1, want)
    else if curr > want then [true] + Straight(curr - 1, want)
    else []
  }

  lemma {:induction false} StraightIs(curr: int, want: int)
    requires 1 <= curr <= 20 && 1 <= want <= 20
    ensures Delta(curr, want) == StepBits(Straight(curr, want))
    ensures InRange(curr, Straight(curr, want)) && Reached(curr, Straight(curr, want)) == want
    decreases if curr < want then want - curr else curr - want
  {
    if curr != want {
      var curr' := if curr < want then curr + 1 else curr - 1;
      StraightIs(curr', want);
      assert Straight(curr, want) == [curr > want] + Straight(curr', want);
      assert Straight(curr, want)[1..] == Straight(curr', want);
    }
  }

  function StraightSteps(curr: int, len: seq<int>): (steps: seq<seq<bool>>)
    ensures |steps| == |len|
    decreases |len|
  {
    if len == [] then [] else [Straight(curr, len[0])] + StraightSteps(len[0], len[1..])
  }

  lemma {:induction false} StraightStepsAre(curr: int, len: seq<int>)
    requires 1 <= curr <= 20 && forall i :: 0 <= i < |len| ==> 1 <= len[i] <= 20
    ensures Deltas(curr, len) == StepsBits(StraightSteps(curr, len)) && StepsGive(curr, StraightSteps(curr, len), len)
    decreases |len|
  {
    hide Delta, StepBits, Straight, InRange, Reached;
    if len != [] {
      StraightIs(curr, len[0]);
      StraightStepsAre(len[0], len[1..]);
      var s := StraightSteps(curr, len);
      assert s[0] == Straight(curr, len[0]) && s[1..] == StraightSteps(len[0], len[1..]);
    }
  }

  function StraightWalks(lens: seq<seq<int>>): (ws: seq<Descent>)
    requires forall t :: 0 <= t < |lens| ==> lens[t] != []
    ensures |ws| == |lens| && forall t :: 0 <= t < |ws| ==> ws[t] == Descent(lens[t][0], StraightSteps(lens[t][0], lens[t]))
  {
    seq(|lens|, t requires 0 <= t < |lens| => Descent(lens[t][0], StraightSteps(lens[t][0], lens[t])))
  }

  lemma {:induction false} StraightWalksAre(lens: seq<seq<int>>)
    requires forall t :: 0 <= t < |lens| ==> lens[t] != [] && forall i :: 0 <= i < |lens[t]| ==> 1 <= lens[t][i] <= 20
    ensures TableBits(lens) == WalksBits(StraightWalks(lens)) && LegalWalks(StraightWalks(lens), lens)
    decreases |lens|
  {
    hide StraightSteps, StepsGive, StepsBits, Deltas;
    forall t | 0 <= t < |lens| ensures LegalWalk(StraightWalks(lens)[t], lens[t]) {
      StraightStepsAre(lens[t][0], lens[t]);
    }
    if lens != [] {
      StraightStepsAre(lens[0][0], lens[0]);
      StraightWalksAre(lens[1..]);
      assert StraightWalks(lens)[1..] == StraightWalks(lens[1..]);
    }
  }

  /** All tables of a plan. */
  lemma TablesDrive(b: Body, lens: seq<seq<int>>)
    requires GoodBody(b.(lens := lens), |lens|) && b.lens == []
    ensures forall t :: 0 <= t < |lens| ==> lens[t] != []
    ensures Drives(FirstLength(b, |lens|), TableBits(lens), Start(b.(lens := lens)))
  {
    hide Drives, Used, TableBits, WalksBits, StraightWalks, LegalWalk, NextSymbol;
    forall t | 0 <= t < |lens| ensures lens[t] != [] && forall i :: 0 <= i < |lens[t]| ==> 1 <= lens[t][i] <= 20 {
      assert GoodLengths(lens[t], AlphaSize(b.inUse));
    }
    StraightWalksAre(lens);
    WalksDrive(b, lens, StraightWalks(lens), 0);
    assert StraightWalks(lens)[0..] == StraightWalks(lens) && lens[..0] == [];
  }
}
