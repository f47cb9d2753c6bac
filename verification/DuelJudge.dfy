/** The multi-stage judge of a duel: its votes and aggregators, over exact numbers, and their symmetry. */
module DuelJudge {
  import opened Wrappers

  datatype Choice = A | B | Draw

  function Flip(c: Choice): Choice {
    match c
    case A => B
    case B => A
    case Draw => Draw
  }

  function Abs(x: real): real { if x < 0.0 then -x else x }

  const S1_DRAW := 0.7
  const S1_BOTH_BAD_AVG := 8.0
  const S1_BOTH_BAD_MAX_DIFF := 1.5
  const S1_SPLIT_CONSISTENCY := 0.65
  const S1_SPLIT_MIN_SIGNED := 3
  const S2_BV_MIN_GAP := 1.0
  const S2_AC_MIN_GAP := 1.0
  const S2_CL_MIN_GAP := 2
  const S2_MIN_CONSENSUS := 2
  const S2_STRONG_BV_GAP := 2.0
  const S2_STRONG_CL_GAP := 6
  const S2_CL_MAIN_BONUS := 3
  const S3_PALE_MIN := 0.10
  const S3_GRAYISH_MIN := 0.60
  const S3_DIFF := 2.0
  const S4_K := 3

  // ---------------------------------------------------------------- the vision model

  /** A model's renders; the empty prefix stands for none. */
  type Views = string

  datatype Task = Front(angle: nat) | BestView | Artifacts | Gray

  /** Penalties of the first and the second model shown, or the neutral answer after a failure. */
  datatype Penalty = Penalty(first: int, second: int, failed: bool)

  datatype Match = Yes | Partial | No

  datatype Verification = Verification(checks: seq<Match>, mainObject: bool)

  /** Sampled foreground pixels of a gray render. */
  datatype Pixels = Pixels(foreground: nat, pale: nat, grayish: nat)

  /** Everything that is observed about renders: each answer depends on what is shown, in the order shown. */
  datatype Observer = Observer(
    compare: (Task, string, string) -> Penalty,
    bestView: Views -> Option<string>,
    checklist: bool,
    verify: Views -> Option<Verification>,
    pixels: Views -> Option<Pixels>,
    garbage: (Views, nat) -> bool)

  // ---------------------------------------------------------------- stage 1

  datatype Angle = Angle(weight: real, penA: real, penB: real, contradictory: bool)

  function Half(x: int): real { x as real / 2.0 }

  /** Whether the two orders of showing disagree about who is better. */
  predicate Contradict(ab: Penalty, ba: Penalty) {
    var diffAb, diffBa := ab.first - ab.second, ba.second - ba.first;
    (diffAb > 0 && diffBa < 0) || (diffAb < 0 && diffBa > 0)
  }

  function AngleOf(ab: Penalty, ba: Penalty, weight: real): Angle {
    Angle(weight, Half(ab.first + ba.second), Half(ab.second + ba.first),
          ab.failed || ba.failed || Contradict(ab, ba))
  }

  /** The four front angles; all weigh the same. */
  const S1_ANGLES := 4

  function Weight(angle: nat): real { 1.0 }

  function AngleAt(o: Observer, a: Views, b: Views, i: nat): Angle {
    AngleOf(o.compare(Front(i), a, b), o.compare(Front(i), b, a), Weight(i))
  }

  function Angles(o: Observer, a: Views, b: Views): (r: seq<Angle>)
    ensures |r| == S1_ANGLES && forall i :: 0 <= i < |r| ==> r[i] == AngleAt(o, a, b, i)
  {
    seq(S1_ANGLES, i requires 0 <= i < S1_ANGLES => AngleAt(o, a, b, i))
  }

  method RunStage1(o: Observer, a: Views, b: Views) returns (angles: seq<Angle>)
    ensures angles == Angles(o, a, b)
  {
    var raw: seq<Penalty> := [];
    for i := 0 to S1_ANGLES
      invariant |raw| == 2 * i
      invariant forall k :: 0 <= k < i ==> raw[2 * k] == o.compare(Front(k), a, b) && raw[2 * k + 1] == o.compare(Front(k), b, a)
    {
      raw := raw + [o.compare(Front(i), a, b), o.compare(Front(i), b, a)];
    }
    angles := [];
    for i := 0 to S1_ANGLES
      invariant |angles| == i && forall k :: 0 <= k < i ==> angles[k] == Angles(o, a, b)[k]
    {
      var ab, ba := raw[2 * i], raw[2 * i + 1];
      var penAAb, penBAb, penABa, penBBa := ab.first, ab.second, ba.second, ba.first;
      var diffAb, diffBa := penAAb - penBAb, penABa - penBBa;
      var failed := ab.failed || ba.failed;
      var contradictory := failed || (diffAb > 0 && diffBa < 0) || (diffAb < 0 && diffBa > 0);
      angles := angles + [Angle(Weight(i), Half(penAAb + penABa), Half(penBAb + penBBa), contradictory)];
    }
  }

  predicate Weighted(angles: seq<Angle>) {
    forall i :: 0 <= i < |angles| ==> angles[i].weight > 0.0
  }

  function Consistent(angles: seq<Angle>): (r: seq<Angle>)
    ensures Weighted(angles) ==> Weighted(r)
    ensures |r| <= |angles|
    ensures forall x :: x in r <==> x in angles && !x.contradictory
  {
    if angles == [] then []
    else
      var rest, last := Consistent(angles[..|angles| - 1]), angles[|angles| - 1];
      assert forall x :: x in angles <==> x in angles[..|angles| - 1] || x == last;
      if last.contradictory then rest else rest + [last]
  }

  /** Sums of the weights, of the weighted penalties of A and of those of B. */
  datatype Totals = Totals(weight: real, a: real, b: real)

  function Product(x: real, y: real): real { x * y }

  function Sum(angles: seq<Angle>): (t: Totals)
    ensures Weighted(angles) ==> t.weight >= 0.0 && (angles != [] ==> t.weight > 0.0)
  {
    if angles == [] then Totals(0.0, 0.0, 0.0)
    else
      var t, last := Sum(angles[..|angles| - 1]), angles[|angles| - 1];
      Totals(t.weight + last.weight, t.a + Product(last.weight, last.penA), t.b + Product(last.weight, last.penB))
  }

  /** Weight of the angles that lean to A and to B, and how many lean at all. */
  datatype Lean = Lean(a: real, b: real, signed: nat)

  function LeanOf(angles: seq<Angle>): (l: Lean)
    ensures Weighted(angles) ==> l.a >= 0.0 && l.b >= 0.0
    ensures Weighted(angles) && l.signed > 0 ==> l.a + l.b > 0.0
  {
    if angles == [] then Lean(0.0, 0.0, 0)
    else
      var l, last := LeanOf(angles[..|angles| - 1]), angles[|angles| - 1];
      if last.penA == last.penB then l
      else if last.penA > last.penB then Lean(l.a, l.b + last.weight, l.signed + 1)
      else Lean(l.a + last.weight, l.b, l.signed + 1)
  }

  function Consistency(l: Lean): real {
    if l.a + l.b == 0.0 then 1.0 else Abs(l.a - l.b) / (l.a + l.b)
  }

  method DirectionConsistency(angles: seq<Angle>) returns (consistency: real, signed: nat)
    requires Weighted(angles)
    ensures consistency == Consistency(LeanOf(angles)) && signed == LeanOf(angles).signed
  {
    var wA, wB := 0.0, 0.0;
    signed := 0;
    for i := 0 to |angles|
      invariant Lean(wA, wB, signed) == LeanOf(angles[..i])
    {
      assert angles[..i + 1][..i] == angles[..i];
      if angles[i].penA == angles[i].penB {
        continue;
      }
      signed := signed + 1;
      if angles[i].penA > angles[i].penB {
        wB := wB + angles[i].weight;
      } else {
        wA := wA + angles[i].weight;
      }
    }
    assert angles[..|angles|] == angles;
    var total := wA + wB;
    if total == 0.0 {
      return 1.0, 0;
    }
    consistency := Abs(wA - wB) / total;
  }

  /** The verdict on consistent angles. */
  function Verdict(t: Totals, l: Lean): Choice
    requires t.weight > 0.0
  {
    var diff := t.a / t.weight - t.b / t.weight;
    var avg := (t.a / t.weight + t.b / t.weight) / 2.0;
    if avg >= S1_BOTH_BAD_AVG && Abs(diff) <= S1_BOTH_BAD_MAX_DIFF then Draw
    else if Abs(diff) <= S1_DRAW then Draw
    else if l.signed >= S1_SPLIT_MIN_SIGNED && Consistency(l) < S1_SPLIT_CONSISTENCY then Draw
    else if diff < 0.0 then A
    else B
  }

  function Aggregate(angles: seq<Angle>): Choice
    requires Weighted(angles)
  {
    var consistent := Consistent(angles);
    if consistent == [] then Draw else Verdict(Sum(consistent), LeanOf(consistent))
  }

  // ---------------------------------------------------------------- stage 2

  /** Penalties of A and of B, each from both orders. */
  datatype Pair = Pair(a: real, b: real)

  function PairOf(ab: Penalty, ba: Penalty): Pair {
    Pair(Half(ab.first + ba.second), Half(ab.second + ba.first))
  }

  function BestViewPair(o: Observer, a: Views, b: Views): Option<Pair> {
    var viewA, viewB := o.bestView(a), o.bestView(b);
    if viewA.None? || viewB.None? then None
    else Some(PairOf(o.compare(BestView, viewA.value, viewB.value), o.compare(BestView, viewB.value, viewA.value)))
  }

  function MatchScore(checks: seq<Match>): int {
    if checks == [] then 0
    else
      var last := checks[|checks| - 1];
      MatchScore(checks[..|checks| - 1]) + if last.Yes? then 2 else if last.Partial? then 1 else 0
  }

  function Score(v: Verification): int {
    MatchScore(v.checks) + if v.mainObject then S2_CL_MAIN_BONUS else 0
  }

  /** The gap between the checklist scores; zero when the checklist or a verification failed. */
  function Gap(o: Observer, a: Views, b: Views): int {
    if o.checklist && o.verify(a).Some? && o.verify(b).Some? then Score(o.verify(a).value) - Score(o.verify(b).value)
    else 0
  }

  /** Lower penalties win; no vote below the gap. */
  function PenaltyVote(p: Option<Pair>, minGap: real): Option<Choice> {
    if p.None? || Abs(p.value.a - p.value.b) < minGap then None
    else if p.value.a - p.value.b < 0.0 then Some(A) else Some(B)
  }

  /** Higher scores win. */
  function ChecklistVote(gap: int, minGap: int): Option<Choice> {
    if -minGap < gap < minGap then None
    else if gap > 0 then Some(A) else Some(B)
  }

  /** One very confident sub-judge decides, unless another is as confident of the opposite. */
  function StrongVoter(p: Option<Pair>, gap: int): Option<Choice> {
    var bestView, checklist := PenaltyVote(p, S2_STRONG_BV_GAP), ChecklistVote(gap, S2_STRONG_CL_GAP);
    if bestView.None? then checklist
    else if checklist.None? || checklist == bestView then bestView
    else None
  }

  function Count(votes: seq<Option<Choice>>, c: Choice): nat {
    if votes == [] then 0
    else Count(votes[..|votes| - 1], c) + if votes[|votes| - 1] == Some(c) then 1 else 0
  }

  /** A side wins with enough votes and more than the other side. */
  function Majority(votes: seq<Option<Choice>>, minAgree: nat): Choice {
    var a, b := Count(votes, A), Count(votes, B);
    if a >= minAgree && a > b then A
    else if b >= minAgree && b > a then B
    else Draw
  }

  predicate SideVotes(votes: seq<Option<Choice>>) {
    forall i :: 0 <= i < |votes| ==> votes[i] != Some(Draw)
  }

  predicate Sides(order: seq<Choice>) {
    |order| <= 2 && (|order| == 2 ==> order[0] != order[1]) && forall i :: 0 <= i < |order| ==> order[i] != Draw
  }

  lemma OnlyTwoSides(order: seq<Choice>, v: Choice)
    requires Sides(order) && v !in order && v != Draw
    ensures |order| < 2
  {
    assert forall i :: 0 <= i < |order| ==> v != order[i];
  }

  lemma NoVotes(votes: seq<Option<Choice>>)
    ensures forall k :: Count(votes[..0], k) == 0
  {
  }

  lemma CountNext(votes: seq<Option<Choice>>, i: nat, c: Choice)
    requires i < |votes|
    ensures Count(votes[..i + 1], c) == Count(votes[..i], c) + if votes[i] == Some(c) then 1 else 0
  {
    assert votes[..i + 1][..i] == votes[..i];
  }

  /** The tally as it is kept: sides in the order in which they were first voted for, the first of the best on top. */
  method Consensus(votes: seq<Option<Choice>>, minAgree: nat) returns (c: Choice)
    requires SideVotes(votes) && minAgree > 0
    ensures c == Majority(votes, minAgree)
  {
    hide Count;
    assert forall k :: Count(votes[..0], k) == 0 by { NoVotes(votes); }
    var counts: map<Choice, nat> := map[];
    var order: seq<Choice> := [];
    for i := 0 to |votes|
      invariant forall k :: k in order <==> k in counts
      invariant forall k :: k in counts ==> k != Draw && counts[k] == Count(votes[..i], k) > 0
      invariant forall k :: k !in counts ==> Count(votes[..i], k) == 0
      invariant Sides(order)
    {
      forall k ensures Count(votes[..i + 1], k) == Count(votes[..i], k) + if votes[i] == Some(k) then 1 else 0 {
        CountNext(votes, i, k);
      }
      if votes[i].Some? {
        var v := votes[i].value;
        if v in counts {
          counts := counts[v := counts[v] + 1];
        } else {
          OnlyTwoSides(order, v);
          counts, order := counts[v := 1], order + [v];
        }
      }
    }
    assert votes[..|votes|] == votes;
    if |order| == 0 {
      return Draw;
    }
    var top := order[0];
    if |order| == 2 && counts[order[1]] > counts[order[0]] {
      top := order[1];
    }
    if counts[top] < minAgree {
      return Draw;
    }
    var others := if |order| == 2 then counts[if top == order[0] then order[1] else order[0]] else 0;
    c := if counts[top] > others then top else Draw;
  }

  // ---------------------------------------------------------------- stage 3

  function AddPixels(p: Pixels, q: Pixels): Pixels {
    Pixels(p.foreground + q.foreground, p.pale + q.pale, p.grayish + q.grayish)
  }

  /** The gate: the foreground of both renders together is pale and grayish. */
  predicate WhiteUnsafe(p: Pixels) {
    && p.foreground > 0
    && p.pale as real / p.foreground as real >= S3_PALE_MIN
    && p.grayish as real / p.foreground as real >= S3_GRAYISH_MIN
  }

  function Rescue(o: Observer, a: Views, b: Views): Choice {
    var pixelsA, pixelsB := o.pixels(a), o.pixels(b);
    if pixelsA.None? || pixelsB.None? || !WhiteUnsafe(AddPixels(pixelsA.value, pixelsB.value)) then Draw
    else
      var ab, ba := o.compare(Gray, a, b), o.compare(Gray, b, a);
      var p := PairOf(ab, ba);
      if Contradict(ab, ba) || Abs(p.a - p.b) < S3_DIFF then Draw
      else if p.a - p.b < 0.0 then A
      else B
  }

  // ---------------------------------------------------------------- stage 4

  const S4_ANGLES := 4

  function GarbageCount(o: Observer, v: Views, n: nat): nat {
    if n == 0 then 0 else GarbageCount(o, v, n - 1) + if o.garbage(v, n - 1) then 1 else 0
  }

  predicate SideIsGarbage(o: Observer, v: Views) {
    GarbageCount(o, v, S4_ANGLES) >= S4_K
  }

  function StepDown(primary: Choice, badA: bool, badB: bool): Choice {
    if badA == badB then primary
    else if badA then (if primary == A then Draw else if primary == Draw then B else primary)
    else if primary == B then Draw
    else if primary == Draw then A
    else primary
  }

  // ---------------------------------------------------------------- the whole duel

  function Primary(o: Observer, a: Views, b: Views): Choice {
    var bestView, gap := BestViewPair(o, a, b), Gap(o, a, b);
    var strong := StrongVoter(bestView, gap);
    if strong.Some? then strong.value
    else
      var artifacts := Some(PairOf(o.compare(Artifacts, a, b), o.compare(Artifacts, b, a)));
      var consensus := Majority([PenaltyVote(bestView, S2_BV_MIN_GAP), PenaltyVote(artifacts, S2_AC_MIN_GAP),
                                 ChecklistVote(gap, S2_CL_MIN_GAP)], S2_MIN_CONSENSUS);
      if consensus != Draw then consensus else Rescue(o, a, b)
  }

  lemma AnglesAreWeighted(o: Observer, a: Views, b: Views)
    ensures Weighted(Angles(o, a, b))
  {
  }

  function Evaluate(o: Observer, a: Views, b: Views): Choice {
    if a == "" && b == "" then Draw
    else if a == "" then B
    else if b == "" then A
    else
      AnglesAreWeighted(o, a, b);
      var first := Aggregate(Angles(o, a, b));
      if first != Draw then first
      else StepDown(Primary(o, a, b), SideIsGarbage(o, a), SideIsGarbage(o, b))
  }

  // ---------------------------------------------------------------- neither side is favoured

  function SwapAngle(a: Angle): Angle { a.(penA := a.penB, penB := a.penA) }

  function SwapAngles(angles: seq<Angle>): (r: seq<Angle>)
    ensures |r| == |angles| && forall i :: 0 <= i < |r| ==> r[i] == SwapAngle(angles[i])
  {
    seq(|angles|, i requires 0 <= i < |angles| => SwapAngle(angles[i]))
  }

  lemma AnglesSwap(o: Observer, a: Views, b: Views)
    ensures Angles(o, b, a) == SwapAngles(Angles(o, a, b))
  {
    hide Half;
    forall i | 0 <= i < S1_ANGLES ensures Angles(o, b, a)[i] == SwapAngle(Angles(o, a, b)[i]) {
      var ab, ba := o.compare(Front(i), a, b), o.compare(Front(i), b, a);
      assert ab.first + ba.second == ba.second + ab.first && ab.second + ba.first == ba.first + ab.second;
    }
  }

  lemma {:induction false} ConsistentSwaps(angles: seq<Angle>)
    ensures Consistent(SwapAngles(angles)) == SwapAngles(Consistent(angles))
  {
    if angles != [] {
      var fewer := angles[..|angles| - 1];
      ConsistentSwaps(fewer);
      assert SwapAngles(angles)[..|angles| - 1] == SwapAngles(fewer);
    }
  }

  lemma {:induction false} SumSwaps(angles: seq<Angle>)
    ensures var t := Sum(angles); Sum(SwapAngles(angles)) == Totals(t.weight, t.b, t.a)
  {
    hide Product;
    if angles != [] {
      var fewer := angles[..|angles| - 1];
      SumSwaps(fewer);
      assert SwapAngles(angles)[..|angles| - 1] == SwapAngles(fewer);
    }
  }

  lemma {:induction false} LeanSwaps(angles: seq<Angle>)
    ensures var l := LeanOf(angles); LeanOf(SwapAngles(angles)) == Lean(l.b, l.a, l.signed)
  {
    if angles != [] {
      var fewer := angles[..|angles| - 1];
      LeanSwaps(fewer);
      assert SwapAngles(angles)[..|angles| - 1] == SwapAngles(fewer);
    }
  }

  lemma VerdictSwaps(t: Totals, l: Lean)
    requires t.weight > 0.0
    ensures Verdict(Totals(t.weight, t.b, t.a), Lean(l.b, l.a, l.signed)) == Flip(Verdict(t, l))
  {
    assert Consistency(Lean(l.b, l.a, l.signed)) == Consistency(l);
  }

  lemma AggregateSwaps(angles: seq<Angle>)
    requires Weighted(angles)
    ensures Weighted(SwapAngles(angles)) && Aggregate(SwapAngles(angles)) == Flip(Aggregate(angles))
  {
    var consistent := Consistent(angles);
    ConsistentSwaps(angles);
    if consistent != [] {
      SumSwaps(consistent);
      LeanSwaps(consistent);
      VerdictSwaps(Sum(consistent), LeanOf(consistent));
    }
  }

  function FlipVote(v: Option<Choice>): Option<Choice> {
    if v.Some? then Some(Flip(v.value)) else None
  }

  lemma RescueSwaps(o: Observer, a: Views, b: Views)
    ensures Rescue(o, b, a) == Flip(Rescue(o, a, b))
  {
  }

  lemma PrimarySwaps(o: Observer, a: Views, b: Views)
    ensures Primary(o, b, a) == Flip(Primary(o, a, b))
  {
    RescueSwaps(o, a, b);
    hide Rescue, Score, Contradict, Half;
    MajoritySwaps(PenaltyVote(BestViewPair(o, a, b), S2_BV_MIN_GAP),
                  PenaltyVote(Some(PairOf(o.compare(Artifacts, a, b), o.compare(Artifacts, b, a))), S2_AC_MIN_GAP),
                  ChecklistVote(Gap(o, a, b), S2_CL_MIN_GAP));
    hide Majority;
  }

  lemma MajoritySwaps(x: Option<Choice>, y: Option<Choice>, z: Option<Choice>)
    ensures Majority([FlipVote(x), FlipVote(y), FlipVote(z)], S2_MIN_CONSENSUS)
            == Flip(Majority([x, y, z], S2_MIN_CONSENSUS))
  {
    forall c ensures Count([FlipVote(x), FlipVote(y), FlipVote(z)], Flip(c)) == Count([x, y, z], c) {
      CountThree(x, y, z, c);
      CountThree(FlipVote(x), FlipVote(y), FlipVote(z), Flip(c));
    }
    assert Flip(A) == B && Flip(B) == A;
    hide Count;
  }

  lemma CountThree(x: Option<Choice>, y: Option<Choice>, z: Option<Choice>, c: Choice)
    ensures Count([x, y, z], c)
            == (if x == Some(c) then 1 else 0) + (if y == Some(c) then 1 else 0) + (if z == Some(c) then 1 else 0)
  {
    assert [x, y, z][..2] == [x, y] && [x, y][..1] == [x] && [x][..0] == [];
    assert Count([x], c) == if x == Some(c) then 1 else 0;
    assert Count([x, y], c) == Count([x], c) + if y == Some(c) then 1 else 0;
  }

  /** Whoever is called left, the same model wins. */
  lemma DuelIsSymmetric(o: Observer, a: Views, b: Views)
    ensures Evaluate(o, b, a) == Flip(Evaluate(o, a, b))
  {
    AnglesAreWeighted(o, a, b);
    AnglesSwap(o, a, b);
    AggregateSwaps(Angles(o, a, b));
    PrimarySwaps(o, a, b);
    hide Aggregate, Angles, Primary, SideIsGarbage;
  }

  /** A model never beats itself. */
  lemma SameModelDraws(o: Observer, a: Views)
    ensures Evaluate(o, a, a) == Draw
  {
    DuelIsSymmetric(o, a, a);
  }

  // ---------------------------------------------------------------- what the aggregators amount to

  predicate LeansToA(angles: seq<Angle>) { exists i :: 0 <= i < |angles| && angles[i].penA < angles[i].penB }
  predicate LeansToB(angles: seq<Angle>) { exists i :: 0 <= i < |angles| && angles[i].penA > angles[i].penB }

  /** With equal weights the leaning weights are numbers of angles. */
  lemma {:induction false} LeanCounts(angles: seq<Angle>) returns (toA: nat, toB: nat)
    requires forall i :: 0 <= i < |angles| ==> angles[i].weight == 1.0
    ensures LeanOf(angles) == Lean(toA as real, toB as real, toA + toB) && toA + toB <= |angles|
    ensures (toA > 0 <==> LeansToA(angles)) && (toB > 0 <==> LeansToB(angles))
  {
    toA, toB := 0, 0;
    if angles != [] {
      var fewer, last := angles[..|angles| - 1], angles[|angles| - 1];
      toA, toB := LeanCounts(fewer);
      LeansSplit(fewer, last);
      assert angles == fewer + [last];
      hide LeansToA, LeansToB;
      if last.penA < last.penB { toA := toA + 1; }
      if last.penA > last.penB { toB := toB + 1; }
    }
  }

  lemma LeansSplit(fewer: seq<Angle>, last: Angle)
    ensures LeansToA(fewer + [last]) <==> LeansToA(fewer) || last.penA < last.penB
    ensures LeansToB(fewer + [last]) <==> LeansToB(fewer) || last.penA > last.penB
  {
    var angles := fewer + [last];
    assert angles[|fewer|] == last && forall i :: 0 <= i < |fewer| ==> angles[i] == fewer[i];
    if i :| 0 <= i < |fewer| && fewer[i].penA < fewer[i].penB { assert angles[i].penA < angles[i].penB; }
    if i :| 0 <= i < |fewer| && fewer[i].penA > fewer[i].penB { assert angles[i].penA > angles[i].penB; }
  }

  lemma {:induction false} ConsistentWeights(angles: seq<Angle>)
    requires forall i :: 0 <= i < |angles| ==> angles[i].weight == 1.0
    ensures forall i :: 0 <= i < |Consistent(angles)| ==> Consistent(angles)[i].weight == 1.0
  {
    if angles != [] { ConsistentWeights(angles[..|angles| - 1]); }
  }

  /** On at most four angles of equal weight the split rule fires exactly when three or more lean and disagree. */
  lemma SplitMeansDisagreement(angles: seq<Angle>)
    requires |angles| <= 4 && forall i :: 0 <= i < |angles| ==> angles[i].weight == 1.0
    ensures var l := LeanOf(angles);
            (l.signed >= S1_SPLIT_MIN_SIGNED && Consistency(l) < S1_SPLIT_CONSISTENCY)
            <==> l.signed >= S1_SPLIT_MIN_SIGNED && LeansToA(angles) && LeansToB(angles)
  {
    var toA, toB := LeanCounts(angles);
    if toA + toB >= 3 { SplitCounts(toA, toB); }
    hide Consistency, LeanOf, LeansToA, LeansToB;
  }

  lemma SplitCounts(toA: nat, toB: nat)
    requires 3 <= toA + toB <= 4
    ensures Consistency(Lean(toA as real, toB as real, toA + toB)) < S1_SPLIT_CONSISTENCY <==> toA > 0 && toB > 0
  {
    if toA == 0 || toB == 0 {
      var n := (toA + toB) as real;
      assert n / n == 1.0;
    } else {
      assert (toA == 1 && toB == 2) || (toA == 2 && toB == 1) || (toA == 1 && toB == 3) || (toA == 3 && toB == 1)
             || (toA == 2 && toB == 2);
    }
  }

  /** By how much the mean penalty of the other side exceeds the winner's. */
  function Margin(t: Totals, winner: Choice): real
    requires t.weight > 0.0
  {
    var diff := t.a / t.weight - t.b / t.weight;
    if winner == A then -diff else diff
  }

  /** The sides are apart, and not merely two bad ones about as bad. */
  predicate IsClear(t: Totals, winner: Choice)
    requires t.weight > 0.0
  {
    && Margin(t, winner) > 0.7
    && (Margin(t, winner) > 1.5 || (t.a / t.weight + t.b / t.weight) / 2.0 < 8.0)
  }

  /** Whom no angle leans to, the sums do not favour. */
  lemma {:induction false} SumsFollowLeans(angles: seq<Angle>)
    requires Weighted(angles)
    ensures !LeansToA(angles) ==> Sum(angles).a >= Sum(angles).b
    ensures !LeansToB(angles) ==> Sum(angles).a <= Sum(angles).b
  {
    if angles != [] {
      var fewer, last := angles[..|angles| - 1], angles[|angles| - 1];
      SumsFollowLeans(fewer);
      LeansSplit(fewer, last);
      assert angles == fewer + [last];
      hide LeansToA, LeansToB;
      ProductGrows(last.weight, last.penA, last.penB);
    }
  }

  /** With equal weights the sums are plain ones: each angle adds its penalties, and counts once. */
  lemma EqualWeightsAddUp(angles: seq<Angle>, last: Angle)
    requires last.weight == 1.0
    ensures var t, more := Sum(angles), Sum(angles + [last]);
            more.a == t.a + last.penA && more.b == t.b + last.penB && more.weight == t.weight + 1.0
  {
    assert (angles + [last])[..|angles|] == angles;
  }

  lemma ProductGrows(weight: real, x: real, y: real)
    requires weight > 0.0
    ensures x <= y ==> Product(weight, x) <= Product(weight, y)
    ensures x >= y ==> Product(weight, x) >= Product(weight, y)
  {
  }

  lemma MarginFollowsSums(t: Totals)
    requires t.weight > 0.0
    ensures t.a >= t.b ==> t.a / t.weight >= t.b / t.weight
    ensures t.a <= t.b ==> t.a / t.weight <= t.b / t.weight
  {
  }

  /** The first stage decides for a side exactly when the consistent angles are clearly in its favour and, should three
    * or more of them lean, none leans to the other side.
    */
  lemma FrontWinnerIsClear(o: Observer, a: Views, b: Views)
    requires Weighted(Angles(o, a, b))
    ensures var angles, first := Consistent(Angles(o, a, b)), Aggregate(Angles(o, a, b));
            && (first == A <==> angles != [] && IsClear(Sum(angles), A)
                                && (LeanOf(angles).signed >= S1_SPLIT_MIN_SIGNED ==> !LeansToB(angles)))
            && (first == B <==> angles != [] && IsClear(Sum(angles), B)
                                && (LeanOf(angles).signed >= S1_SPLIT_MIN_SIGNED ==> !LeansToA(angles)))
  {
    var angles := Consistent(Angles(o, a, b));
    ConsistentWeights(Angles(o, a, b));
    SplitMeansDisagreement(angles);
    SumsFollowLeans(angles);
    if angles != [] { MarginFollowsSums(Sum(angles)); }
    hide Sum, LeanOf, Consistency, LeansToA, LeansToB, Consistent, Angles;
  }

  /** Two of the three sub-judges must agree, and that is enough. */
  lemma MajorityOfThree(x: Option<Choice>, y: Option<Choice>, z: Option<Choice>, c: Choice)
    requires c != Draw && SideVotes([x, y, z])
    ensures Majority([x, y, z], S2_MIN_CONSENSUS) == c
            <==> (x == y == Some(c)) || (y == z == Some(c)) || (x == z == Some(c))
  {
    CountThree(x, y, z, A);
    CountThree(x, y, z, B);
    hide Count;
  }

  /** The model's mean penalty is lower by at least the gap. */
  predicate LessPenalised(p: Option<Pair>, c: Choice, gap: real) {
    p.Some? && if c == A then p.value.b - p.value.a >= gap else p.value.a - p.value.b >= gap
  }

  /** The model's score is higher by at least the gap. */
  predicate ScoresHigher(lead: int, c: Choice, gap: int) {
    if c == A then lead >= gap else -lead >= gap
  }

  lemma LowerPenaltyWins(p: Option<Pair>, gap: real, c: Choice)
    requires gap > 0.0 && c != Draw
    ensures PenaltyVote(p, gap) == Some(c) <==> LessPenalised(p, c, gap)
  {
  }

  lemma HigherScoreWins(lead: int, gap: int, c: Choice)
    requires gap > 0 && c != Draw
    ensures ChecklistVote(lead, gap) == Some(c) <==> ScoresHigher(lead, c, gap)
  {
  }

  /** A checklist is worth two points for every match, one for every partial one, and three for the main object. */
  lemma {:induction false} ScoreCounts(v: Verification)
    ensures Score(v) == 2 * multiset(v.checks)[Yes] + multiset(v.checks)[Partial] + if v.mainObject then 3 else 0
  {
    MatchesCount(v.checks);
  }

  lemma {:induction false} MatchesCount(checks: seq<Match>)
    ensures MatchScore(checks) == 2 * multiset(checks)[Yes] + multiset(checks)[Partial]
  {
    if checks != [] {
      var n := |checks| - 1;
      MatchesCount(checks[..n]);
      assert checks == checks[..n] + [checks[n]];
    }
  }

  /** A model that is better on the checklist leads by the difference; without a checklist or an answer nobody leads. */
  lemma LeadIsInScore(o: Observer, a: Views, b: Views)
    ensures Gap(o, a, b) > 0 <==> o.checklist && o.verify(a).Some? && o.verify(b).Some?
                                  && Score(o.verify(a).value) > Score(o.verify(b).value)
    ensures o.checklist && o.verify(a).Some? && o.verify(b).Some? ==>
              Score(o.verify(a).value) == Score(o.verify(b).value) + Gap(o, a, b)
    ensures !o.checklist || o.verify(a).None? || o.verify(b).None? ==> Gap(o, a, b) == 0
  {
    hide Score;
  }

  /** A model's penalty is the mean of what it got when it was shown first and when it was shown second. */
  lemma PairIsOfMeans(ab: Penalty, ba: Penalty)
    ensures 2.0 * PairOf(ab, ba).a == (ab.first + ba.second) as real
    ensures 2.0 * PairOf(ab, ba).b == (ab.second + ba.first) as real
  {
  }

  /** The gate opens when a tenth of the foreground is pale and six tenths of it are grayish. */
  lemma GateInTenths(p: Pixels)
    ensures WhiteUnsafe(p) <==> p.foreground > 0 && 10 * p.pale >= p.foreground && 10 * p.grayish >= 6 * p.foreground
  {
    if p.foreground > 0 {
      ShareAtLeast(p.pale, p.foreground, S3_PALE_MIN);
      ShareAtLeast(p.grayish, p.foreground, S3_GRAYISH_MIN);
    }
  }

  lemma ShareAtLeast(part: nat, whole: nat, share: real)
    requires whole > 0
    ensures part as real / whole as real >= share <==> part as real >= share * whole as real
  {
    var q := part as real / whole as real;
    assert q * whole as real == part as real;
    if q >= share { assert (q - share) * whole as real >= 0.0; }
    if q < share { assert (share - q) * whole as real > 0.0; }
  }

  /** One sub-judge is sure of this model. */
  predicate IsSure(views: Option<Pair>, lead: int, c: Choice) {
    LessPenalised(views, c, 2.0) || ScoresHigher(lead, c, 6)
  }

  lemma StrongVoterIsSure(views: Option<Pair>, lead: int, c: Choice)
    requires c != Draw
    ensures StrongVoter(views, lead) == Some(c) <==> IsSure(views, lead, c) && !IsSure(views, lead, Flip(c))
    ensures StrongVoter(views, lead) == None <==> (IsSure(views, lead, c) <==> IsSure(views, lead, Flip(c)))
  {
    LowerPenaltyWins(views, 2.0, A);
    LowerPenaltyWins(views, 2.0, B);
    HigherScoreWins(lead, 6, A);
    HigherScoreWins(lead, 6, B);
  }

  /** Two of the three sub-judges prefer this model. */
  predicate TwoPrefer(views: Option<Pair>, artifacts: Option<Pair>, lead: int, c: Choice) {
    || (LessPenalised(views, c, 1.0) && LessPenalised(artifacts, c, 1.0))
    || (LessPenalised(views, c, 1.0) && ScoresHigher(lead, c, 2))
    || (LessPenalised(artifacts, c, 1.0) && ScoresHigher(lead, c, 2))
  }

  /** The second stage, and the third where that finds nothing, decide for a model exactly when a sub-judge is sure of it
    * and none of the other; or else when two prefer it; or else, two preferring neither, when the gray views do.
    */
  lemma PrimaryWinner(o: Observer, a: Views, b: Views, c: Choice)
    requires c != Draw
    ensures var views, lead := BestViewPair(o, a, b), Gap(o, a, b);
            var artifacts := Some(PairOf(o.compare(Artifacts, a, b), o.compare(Artifacts, b, a)));
            var sure, other := IsSure(views, lead, c), IsSure(views, lead, Flip(c));
            Primary(o, a, b) == c
            <==> if sure != other then sure
                 else TwoPrefer(views, artifacts, lead, c)
                      || (!TwoPrefer(views, artifacts, lead, Flip(c)) && Rescue(o, a, b) == c)
  {
    var views, lead := BestViewPair(o, a, b), Gap(o, a, b);
    var artifacts := Some(PairOf(o.compare(Artifacts, a, b), o.compare(Artifacts, b, a)));
    hide BestViewPair, Gap, PairOf, Rescue, Count, Score;
    StrongVoterIsSure(views, lead, c);
    forall d: Choice | d != Draw
      ensures Majority([PenaltyVote(views, S2_BV_MIN_GAP), PenaltyVote(artifacts, S2_AC_MIN_GAP),
                        ChecklistVote(lead, S2_CL_MIN_GAP)], S2_MIN_CONSENSUS) == d
              <==> TwoPrefer(views, artifacts, lead, d)
    {
      LowerPenaltyWins(views, 1.0, d);
      LowerPenaltyWins(artifacts, 1.0, d);
      HigherScoreWins(lead, 2, d);
      MajorityOfThree(PenaltyVote(views, S2_BV_MIN_GAP), PenaltyVote(artifacts, S2_AC_MIN_GAP),
                      ChecklistVote(lead, S2_CL_MIN_GAP), d);
    }
    hide Majority, StrongVoter, TwoPrefer, IsSure, PenaltyVote, ChecklistVote;
  }

  /** The gray views decide only when the foreground is pale and grayish, both orders agree, and the penalties are apart. */
  lemma RescueWinner(o: Observer, a: Views, b: Views, c: Choice)
    requires c != Draw
    ensures Rescue(o, a, b) == c
            <==> && o.pixels(a).Some? && o.pixels(b).Some?
                 && WhiteUnsafe(AddPixels(o.pixels(a).value, o.pixels(b).value))
                 && !Contradict(o.compare(Gray, a, b), o.compare(Gray, b, a))
                 && LessPenalised(Some(PairOf(o.compare(Gray, a, b), o.compare(Gray, b, a))), c, 2.0)
  {
    hide Half, Contradict, WhiteUnsafe;
  }

  /** Two orders of showing contradict each other when each finds another model the better one. */
  lemma ContradictionIsDisagreement(ab: Penalty, ba: Penalty)
    ensures Contradict(ab, ba)
            <==> (ab.first < ab.second && ba.first < ba.second) || (ab.first > ab.second && ba.first > ba.second)
  {
  }

  predicate GarbageBut(o: Observer, v: Views, k: nat) {
    forall i: nat :: i < 4 && i != k ==> o.garbage(v, i)
  }

  /** A side is garbage when at most one of its four views is not. */
  lemma GarbageIsThreeOfFour(o: Observer, v: Views)
    ensures SideIsGarbage(o, v) <==> exists k: nat :: k < 4 && GarbageBut(o, v, k)
  {
    assert GarbageCount(o, v, 4) == (if o.garbage(v, 0) then 1 else 0) + (if o.garbage(v, 1) then 1 else 0)
                                    + (if o.garbage(v, 2) then 1 else 0) + (if o.garbage(v, 3) then 1 else 0) by {
      assert GarbageCount(o, v, 1) == if o.garbage(v, 0) then 1 else 0;
      assert GarbageCount(o, v, 2) == GarbageCount(o, v, 1) + if o.garbage(v, 1) then 1 else 0;
      assert GarbageCount(o, v, 3) == GarbageCount(o, v, 2) + if o.garbage(v, 2) then 1 else 0;
    }
    if SideIsGarbage(o, v) {
      var k := if !o.garbage(v, 0) then 0 else if !o.garbage(v, 1) then 1 else if !o.garbage(v, 2) then 2 else 3;
      assert GarbageBut(o, v, k);
    }
    if k: nat :| k < 4 && GarbageBut(o, v, k) {
      assert forall i: nat :: i == 0 || i == 1 || i == 2 || i == 3 ==> i == k || o.garbage(v, i);
    }
  }

  /** Who wins a duel: the model that is there; of two, the one the first stage prefers; and when that is drawn, the one
    * that the later stages prefer, unless it alone is garbage, or the one that alone is not garbage when they prefer none.
    */
  lemma DuelWinner(o: Observer, a: Views, b: Views)
    ensures a == "" ==> Evaluate(o, a, b) == if b == "" then Draw else B
    ensures a != "" && b == "" ==> Evaluate(o, a, b) == A
    ensures a != "" && b != "" && Weighted(Angles(o, a, b)) ==>
              var first, primary := Aggregate(Angles(o, a, b)), Primary(o, a, b);
              var badA, badB := SideIsGarbage(o, a), SideIsGarbage(o, b);
              && (Evaluate(o, a, b) == A
                  <==> first == A || (first == Draw && ((primary == A && (badA ==> badB)) || (primary == Draw && badB && !badA))))
              && (Evaluate(o, a, b) == B
                  <==> first == B || (first == Draw && ((primary == B && (badB ==> badA)) || (primary == Draw && badA && !badB))))
  {
    hide Aggregate, Angles, Primary, SideIsGarbage;
  }

  /** The side guard never turns a decision around, and it never lets a flagged model beat one that is not. */
  lemma GuardOnlyStepsDown(primary: Choice, badA: bool, badB: bool)
    ensures var c := StepDown(primary, badA, badB);
            && (primary != Draw ==> c == primary || c == Draw)
            && (badA && !badB ==> c != A) && (badB && !badA ==> c != B)
            && (badA == badB ==> c == primary)
            && (primary == Draw && badA && !badB ==> c == B)
            && StepDown(Flip(primary), badB, badA) == Flip(c)
  {
  }

  /** A model whose sides are garbage wins only on the front views, or against another one like it. */
  lemma GarbageDoesNotWin(o: Observer, a: Views, b: Views)
    requires a != "" && b != "" && SideIsGarbage(o, a) && !SideIsGarbage(o, b)
    requires (AnglesAreWeighted(o, a, b); Aggregate(Angles(o, a, b)) == Draw)
    ensures Evaluate(o, a, b) != A
  {
    hide Primary, SideIsGarbage;
  }

  /** The first stage's decision as it is made: the leaning angles are weighed only when the means are apart. */
  method AggregateAngles(angles: seq<Angle>) returns (c: Choice)
    requires Weighted(angles)
    ensures c == Aggregate(angles)
  {
    hide Sum, LeanOf, Consistency;
    var consistent := Consistent(angles);
    if consistent == [] {
      return Draw;
    }
    var t := Sum(consistent);
    var diff, avg := t.a / t.weight - t.b / t.weight, (t.a / t.weight + t.b / t.weight) / 2.0;
    if avg >= S1_BOTH_BAD_AVG && Abs(diff) <= S1_BOTH_BAD_MAX_DIFF {
      return Draw;
    }
    if Abs(diff) <= S1_DRAW {
      return Draw;
    }
    var consistency, signed := DirectionConsistency(consistent);
    if signed >= S1_SPLIT_MIN_SIGNED && consistency < S1_SPLIT_CONSISTENCY {
      return Draw;
    }
    c := if diff < 0.0 then A else B;
  }

  /** The duel as it is run, stage after stage. */
  method EvaluateDuel(o: Observer, a: Views, b: Views) returns (c: Choice)
    ensures c == Evaluate(o, a, b)
  {
    hide Half, Contradict, Score, GarbageCount;
    if a == "" && b == "" {
      return Draw;
    }
    if a == "" {
      return B;
    }
    if b == "" {
      return A;
    }
    AnglesAreWeighted(o, a, b);
    var angles := RunStage1(o, a, b);
    var first := AggregateAngles(angles);
    if first != Draw {
      return first;
    }
    var bestView, gap := BestViewPair(o, a, b), Gap(o, a, b);
    var artifacts := Some(PairOf(o.compare(Artifacts, a, b), o.compare(Artifacts, b, a)));
    var primary := Draw;
    var strong := StrongVoter(bestView, gap);
    if strong.Some? {
      primary := strong.value;
    } else {
      primary := Consensus([PenaltyVote(bestView, S2_BV_MIN_GAP), PenaltyVote(artifacts, S2_AC_MIN_GAP),
                            ChecklistVote(gap, S2_CL_MIN_GAP)], S2_MIN_CONSENSUS);
      if primary == Draw {
        primary := Rescue(o, a, b);
      }
    }
    c := StepDown(primary, SideIsGarbage(o, a), SideIsGarbage(o, b));
  }
}
