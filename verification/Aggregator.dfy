/** Criterion scores to one overall number and a recommendation band.

  Weights are exact reals. Scores and coverage are whole hundredths, since both are
  rounded to two places: 100 is the score 1.00, 50 the coverage 0.50.
*/
module Aggregator {
  import opened Text
  import Rubric

  const MIN_BAND: int := 100
  const MAX_BAND: int := 500
  const MIN_COVERAGE: int := 50

  datatype Recommendation = InsufficientEvidence | NoHire | Borderline | Hire | StrongHire

  datatype Entry = Entry(weight: real, score: Option<int>)

  datatype Outcome = Outcome(overall: Option<int>, recommendation: Recommendation, coverage: int, graded: nat, total: nat)

  function BandFor(overall: int): Recommendation {
    if overall >= 450 then StrongHire
    else if overall >= 350 then Hire
    else if overall >= 250 then Borderline
    else NoHire
  }

  /** The sums the outcome rests on: of all weights, of the graded ones, of graded weight times score. */
  datatype Tally = Tally(weight: real, graded: real, weighted: real, count: nat, entries: nat)

  function Counted(e: Entry, t: Tally): Tally {
    match e.score
    case None => t.(weight := e.weight + t.weight, entries := t.entries + 1)
    case Some(score) =>
      Tally(e.weight + t.weight, e.weight + t.graded, e.weight * score as real + t.weighted, t.count + 1, t.entries + 1)
  }

  function TallyOf(entries: seq<Entry>): Tally {
    if entries == [] then Tally(0.0, 0.0, 0.0, 0, 0) else Counted(entries[0], TallyOf(entries[1..]))
  }

  /** `quantize` with ROUND_HALF_UP: to the nearest, ties away from zero. */
  function RoundHalfUp(x: real): int {
    if x >= 0.0 then (x + 0.5).Floor else -((0.5 - x).Floor)
  }

  /** The mean over the graded weights alone. */
  function Mean(t: Tally): real
    requires t.graded != 0.0
  {
    t.weighted / t.graded
  }

  function Coverage(t: Tally): int
    requires t.weight != 0.0
  {
    Rubric.RoundHalfEven(t.graded / t.weight * 100.0)
  }

  function Clamp(x: int): int {
    if x < MIN_BAND then MIN_BAND else if x > MAX_BAND then MAX_BAND else x
  }

  function Conclude(t: Tally, participated: bool): Option<Outcome> {
    if t.weight <= 0.0 || t.count == 0 then
      if participated && t.weight > 0.0
      then Some(Outcome(Some(MIN_BAND), NoHire, 0, 0, t.entries))
      else Some(Outcome(None, InsufficientEvidence, 0, 0, t.entries))
    else if Coverage(t) < MIN_COVERAGE && !participated then
      Some(Outcome(None, InsufficientEvidence, Coverage(t), t.count, t.entries))
    else if t.graded == 0.0 then None
    else
      var overall := Clamp(RoundHalfUp(Mean(t)));
      Some(Outcome(Some(overall), BandFor(overall), Coverage(t), t.count, t.entries))
  }

  /** `None` is a division by a graded weight of zero, which the source raises on. */
  function Aggregate(entries: seq<Entry>, participated: bool): Option<Outcome> {
    Conclude(TallyOf(entries), participated)
  }

  // ---------------------------------------------------------------------------
  // The sums
  // ---------------------------------------------------------------------------

  ghost predicate Within(e: Entry, lo: int, hi: int) {
    e.weight > 0.0 && (e.score.Some? ==> lo <= e.score.value <= hi)
  }

  ghost predicate AllWithin(entries: seq<Entry>, lo: int, hi: int) {
    forall i :: 0 <= i < |entries| ==> Within(entries[i], lo, hi)
  }

  /** What the rubric and the scorer promise: weights above zero, scores from 1 to 5. */
  ghost predicate Sound(entries: seq<Entry>) {
    AllWithin(entries, MIN_BAND, MAX_BAND)
  }

  ghost predicate SoundTally(t: Tally) {
    && 0.0 <= t.graded <= t.weight
    && (t.weight > 0.0 <==> t.entries > 0)
    && (t.graded > 0.0 <==> t.count > 0)
  }

  lemma Distribute(a: real, x: real, y: real)
    ensures a * (x + y) == a * x + a * y
  {
  }

  lemma Scale(a: real, b: real, w: real)
    requires w > 0.0
    ensures a <= b ==> a * w <= b * w && w * a <= w * b
    ensures a < b ==> a * w < b * w
  {
  }

  /** The mean of a tally, times its graded weight, lies between these. */
  ghost predicate Between(t: Tally, lo: int, hi: int) {
    lo as real * t.graded <= t.weighted <= hi as real * t.graded
  }

  lemma CountedBetween(e: Entry, t: Tally, lo: int, hi: int)
    requires Within(e, lo, hi) && Between(t, lo, hi)
    ensures Between(Counted(e, t), lo, hi)
  {
    if e.score.Some? {
      Distribute(lo as real, e.weight, t.graded);
      Distribute(hi as real, e.weight, t.graded);
      Scale(lo as real, e.score.value as real, e.weight);
      Scale(e.score.value as real, hi as real, e.weight);
    }
  }

  lemma {:induction false} TallyBetween(entries: seq<Entry>, lo: int, hi: int)
    requires AllWithin(entries, lo, hi)
    ensures Between(TallyOf(entries), lo, hi)
  {
    if entries != [] {
      var e, t := entries[0], TallyOf(entries[1..]);
      assert Within(e, lo, hi);
      TallyBetween(entries[1..], lo, hi);
      CountedBetween(e, t, lo, hi);
      assert TallyOf(entries) == Counted(e, t);
    }
  }

  lemma {:induction false} TallyIsSound(entries: seq<Entry>)
    requires Sound(entries)
    ensures SoundTally(TallyOf(entries)) && TallyOf(entries).entries == |entries|
  {
    if entries != [] {
      assert Within(entries[0], MIN_BAND, MAX_BAND);
      TallyIsSound(entries[1..]);
    }
  }

  lemma QuotientBetween(x: real, y: real, lo: real, hi: real)
    requires y > 0.0 && lo * y <= x <= hi * y
    ensures lo <= x / y <= hi
  {
    var q := x / y;
    assert q * y == x;
    Scale(q, lo, y);
    Scale(hi, q, y);
  }

  lemma RoundWithin(x: real, lo: int, hi: int)
    requires 0 <= lo && lo as real <= x <= hi as real
    ensures lo <= RoundHalfUp(x) <= hi
    ensures -0.5 <= RoundHalfUp(x) as real - x <= 0.5
  {
  }

  // ---------------------------------------------------------------------------
  // What is summed
  // ---------------------------------------------------------------------------

  function Together(s: Tally, t: Tally): Tally {
    Tally(s.weight + t.weight, s.graded + t.graded, s.weighted + t.weighted, s.count + t.count, s.entries + t.entries)
  }

  lemma CountedTogether(e: Entry, s: Tally, t: Tally)
    ensures Counted(e, Together(s, t)) == Together(Counted(e, s), t)
  {
  }

  /** A rubric counts as its parts do together, however it is divided. */
  lemma {:induction false} TallyOfParts(a: seq<Entry>, b: seq<Entry>)
    ensures TallyOf(a + b) == Together(TallyOf(a), TallyOf(b))
  {
    if a == [] {
      assert a + b == b;
    } else {
      assert (a + b)[1..] == a[1..] + b;
      TallyOfParts(a[1..], b);
      CountedTogether(a[0], TallyOf(a[1..]), TallyOf(b));
      hide Counted, Together;
    }
  }

  /** And one criterion with its weight and, if it is graded, with its weight times its score. */
  lemma TallyOfOne(e: Entry)
    ensures TallyOf([e]) == match e.score
      case None => Tally(e.weight, 0.0, 0.0, 0, 1)
      case Some(score) => Tally(e.weight, e.weight, e.weight * score as real, 1, 1)
  {
    assert [e][1..] == [];
  }

  function GradedIn(entries: seq<Entry>): nat {
    if entries == [] then 0
    else GradedIn(entries[..|entries| - 1]) + if entries[|entries| - 1].score.Some? then 1 else 0
  }

  lemma {:induction false} CountIsGraded(entries: seq<Entry>)
    ensures TallyOf(entries).count == GradedIn(entries) && TallyOf(entries).entries == |entries|
  {
    if entries != [] {
      var n := |entries| - 1;
      CountIsGraded(entries[..n]);
      assert entries == entries[..n] + [entries[n]];
      TallyOfParts(entries[..n], [entries[n]]);
      TallyOfOne(entries[n]);
    }
  }

  // ---------------------------------------------------------------------------
  // What the overall is
  // ---------------------------------------------------------------------------

  /** Less than 49.5% of the rubric's weight was graded: what rounding to two places makes of "below 0.5". */
  ghost predicate Withheld(t: Tally) {
    t.graded < 0.495 * t.weight
  }

  lemma CoverageBelowHalf(t: Tally)
    requires t.weight > 0.0 && 0.0 <= t.graded <= t.weight
    ensures Coverage(t) < MIN_COVERAGE <==> Withheld(t)
    ensures 0 <= Coverage(t) <= 100
  {
    var c := t.graded / t.weight;
    ShareBelow(t.graded, t.weight, c, 0.495);
    QuotientBetween(t.graded, t.weight, 0.0, 1.0);
    HalfEvenBelow50(c * 100.0);
  }

  lemma ShareBelow(x: real, y: real, share: real, bound: real)
    requires y > 0.0 && share == x / y
    ensures share < bound <==> x < bound * y
  {
    assert share * y == x;
    Scale(share, bound, y);
    Scale(bound, share, y);
  }

  lemma HalfEvenBelow50(x: real)
    requires 0.0 <= x <= 100.0
    ensures Rubric.RoundHalfEven(x) < 50 <==> x < 49.5
    ensures 0 <= Rubric.RoundHalfEven(x) <= 100
  {
  }

  /** No overall number exactly when there is no rubric, or when an interview that was not taken part in
      had less than 49.5% of its weight graded; and a rubric with sound entries is never divided by zero. */
  lemma WhenNoOverall(entries: seq<Entry>, participated: bool)
    requires Sound(entries)
    ensures var outcome := Aggregate(entries, participated);
      && outcome.Some?
      && (outcome.value.overall.None? <==> entries == [] || (!participated && Withheld(TallyOf(entries))))
      && (outcome.value.overall.None? <==> outcome.value.recommendation == InsufficientEvidence)
  {
    TallyIsSound(entries);
    if entries != [] {
      CoverageBelowHalf(TallyOf(entries));
    }
  }

  /** Whether the outcome comes from the weighted mean. */
  ghost predicate ByMean(t: Tally, participated: bool) {
    t.count > 0 && (participated || !Withheld(t))
  }

  lemma ConclusionIsBetween(t: Tally, participated: bool, lo: int, hi: int)
    requires SoundTally(t) && Between(t, lo, hi) && ByMean(t, participated) && MIN_BAND <= lo && hi <= MAX_BAND
    ensures Conclude(t, participated).Some? && t.graded > 0.0
    ensures Conclude(t, participated).value.overall == Some(RoundHalfUp(Mean(t)))
    ensures lo <= RoundHalfUp(Mean(t)) <= hi && -0.5 <= RoundHalfUp(Mean(t)) as real - Mean(t) <= 0.5
  {
    CoverageBelowHalf(t);
    QuotientBetween(t.weighted, t.graded, lo as real, hi as real);
    RoundWithin(Mean(t), lo, hi);
  }

  /** The overall lies between the least and the greatest graded score, so the clamp never acts, and it is
      within half a hundredth of the exact mean. */
  lemma OverallIsBetween(entries: seq<Entry>, participated: bool, lo: int, hi: int)
    requires Sound(entries) && AllWithin(entries, lo, hi) && MIN_BAND <= lo && hi <= MAX_BAND
    requires ByMean(TallyOf(entries), participated)
    ensures var t, outcome := TallyOf(entries), Aggregate(entries, participated);
      && t.graded > 0.0
      && outcome.Some? && outcome.value.overall == Some(RoundHalfUp(Mean(t)))
      && lo <= RoundHalfUp(Mean(t)) <= hi
      && -0.5 <= RoundHalfUp(Mean(t)) as real - Mean(t) <= 0.5
  {
    TallyIsSound(entries);
    TallyBetween(entries, lo, hi);
    ConclusionIsBetween(TallyOf(entries), participated, lo, hi);
  }

  /** Whatever the weights and the scores, a number that is given lies on the scale. */
  lemma OverallIsOnTheScale(entries: seq<Entry>, participated: bool)
    ensures var outcome := Aggregate(entries, participated);
      outcome.Some? && outcome.value.overall.Some? ==> 100 <= outcome.value.overall.value <= 500
  {
  }

  /** The division raises exactly for a candidate who took part in a rubric of some weight, graded only where the weights
      cancel out or are nothing. */
  lemma WhenItDividesByZero(entries: seq<Entry>, participated: bool)
    ensures var t := TallyOf(entries);
      Aggregate(entries, participated).None? <==> participated && t.weight > 0.0 && GradedIn(entries) > 0 && t.graded == 0.0
  {
    CountIsGraded(entries);
    var t := TallyOf(entries);
    if t.weight > 0.0 && t.graded == 0.0 {
      assert t.graded / t.weight == 0.0;
    }
  }

  /** Nothing graded at all: a candidate who took part gets the lowest score and no hire, anybody else no number. */
  lemma NothingGraded(entries: seq<Entry>, participated: bool)
    requires Sound(entries) && GradedIn(entries) == 0
    ensures Aggregate(entries, participated) ==
      if participated && entries != [] then Some(Outcome(Some(100), NoHire, 0, 0, |entries|))
      else Some(Outcome(None, InsufficientEvidence, 0, 0, |entries|))
  {
    TallyIsSound(entries);
    CountIsGraded(entries);
  }

  /** The recommendation in terms of the exact mean, in hundredths: strong hire from 4.495 on, hire from 3.495, borderline
      from 2.495, and no hire below. */
  lemma RecommendationFromMean(entries: seq<Entry>, participated: bool)
    requires Sound(entries) && ByMean(TallyOf(entries), participated)
    ensures var t, outcome := TallyOf(entries), Aggregate(entries, participated);
      && t.graded > 0.0 && outcome.Some?
      && outcome.value.recommendation ==
           if Mean(t) >= 449.5 then StrongHire else if Mean(t) >= 349.5 then Hire else if Mean(t) >= 249.5 then Borderline else NoHire
  {
    hide TallyOf;
    TallyIsSound(entries);
    TallyBetween(entries, MIN_BAND, MAX_BAND);
    ConclusionIsBetween(TallyOf(entries), participated, MIN_BAND, MAX_BAND);
    BandOfRounded(Mean(TallyOf(entries)));
    CoverageBelowHalf(TallyOf(entries));
  }

  lemma BandOfRounded(x: real)
    requires 0.0 <= x
    ensures BandFor(RoundHalfUp(x)) ==
      if x >= 449.5 then StrongHire else if x >= 349.5 then Hire else if x >= 249.5 then Borderline else NoHire
  {
  }

  /** What is said beside the number: how many criteria there are and how many were graded, and the graded share of the
      weight to the nearest hundredth. */
  lemma OutcomeCounts(entries: seq<Entry>, participated: bool)
    requires Sound(entries) && GradedIn(entries) > 0
    ensures var t, outcome := TallyOf(entries), Aggregate(entries, participated);
      && t.weight > 0.0 && outcome.Some?
      && outcome.value.total == |entries| && outcome.value.graded == GradedIn(entries)
      && -0.5 <= outcome.value.coverage as real - t.graded / t.weight * 100.0 <= 0.5
  {
    hide TallyOf;
    TallyIsSound(entries);
    CountIsGraded(entries);
    Rubric.RoundHalfEvenIsNearest(TallyOf(entries).graded / TallyOf(entries).weight * 100.0);
  }

  /** Criteria never reached do not drag the number down: when every graded score is the same, so is the overall. */
  lemma EqualScoresStand(entries: seq<Entry>, participated: bool, score: int)
    requires Sound(entries) && AllWithin(entries, score, score) && MIN_BAND <= score <= MAX_BAND
    requires ByMean(TallyOf(entries), participated)
    ensures Aggregate(entries, participated).Some?
    ensures Aggregate(entries, participated).value.overall == Some(score)
    ensures Aggregate(entries, participated).value.recommendation == BandFor(score)
  {
    OverallIsBetween(entries, participated, score, score);
  }

  // ---------------------------------------------------------------------------
  // What the overall does not depend on
  // ---------------------------------------------------------------------------

  lemma CountedInEitherOrder(a: Entry, b: Entry, t: Tally)
    ensures Counted(a, Counted(b, t)) == Counted(b, Counted(a, t))
  {
  }

  lemma {:induction false} TallyWithout(entries: seq<Entry>, k: nat)
    requires k < |entries|
    ensures TallyOf(entries) == Counted(entries[k], TallyOf(entries[..k] + entries[k + 1..]))
  {
    if k == 0 {
      assert entries[..0] + entries[1..] == entries[1..];
    } else {
      var rest, without := entries[1..], entries[..k] + entries[k + 1..];
      TallyWithout(rest, k - 1);
      assert without[0] == entries[0] && without[1..] == rest[..k - 1] + rest[k..];
      assert TallyOf(entries) == Counted(entries[0], TallyOf(rest));
      assert TallyOf(without) == Counted(entries[0], TallyOf(without[1..]));
      CountedInEitherOrder(entries[0], entries[k], TallyOf(without[1..]));
    }
  }

  lemma WithoutOne(a: seq<Entry>, b: seq<Entry>) returns (k: nat)
    requires multiset(a) == multiset(b) && a != []
    ensures k < |b| && b[k] == a[0]
    ensures multiset(a[1..]) == multiset(b[..k] + b[k + 1..])
  {
    assert a[0] in multiset(b);
    k :| 0 <= k < |b| && b[k] == a[0];
    assert a == [a[0]] + a[1..];
    assert b == b[..k] + [b[k]] + b[k + 1..];
    assert multiset(a[1..]) == multiset(a) - multiset{a[0]};
    assert multiset(b[..k] + b[k + 1..]) == multiset(b) - multiset{b[k]};
  }

  lemma {:induction false} TallyOfPermutation(a: seq<Entry>, b: seq<Entry>)
    requires multiset(a) == multiset(b)
    ensures TallyOf(a) == TallyOf(b)
  {
    if a == [] {
      assert |multiset(b)| == 0;
    } else {
      var k := WithoutOne(a, b);
      TallyOfPermutation(a[1..], b[..k] + b[k + 1..]);
      TallyWithout(b, k);
    }
  }

  /** The order of the criteria makes no difference. */
  lemma OrderDoesNotMatter(a: seq<Entry>, b: seq<Entry>, participated: bool)
    requires multiset(a) == multiset(b)
    ensures Aggregate(a, participated) == Aggregate(b, participated)
  {
    TallyOfPermutation(a, b);
  }

  function ScaledEntry(e: Entry, factor: real): Entry {
    e.(weight := e.weight * factor)
  }

  function Rescaled(entries: seq<Entry>, factor: real): seq<Entry> {
    if entries == [] then [] else [ScaledEntry(entries[0], factor)] + Rescaled(entries[1..], factor)
  }

  function ScaledTally(t: Tally, factor: real): Tally {
    t.(weight := t.weight * factor, graded := t.graded * factor, weighted := t.weighted * factor)
  }

  lemma CountedScaled(e: Entry, t: Tally, factor: real)
    ensures Counted(ScaledEntry(e, factor), ScaledTally(t, factor)) == ScaledTally(Counted(e, t), factor)
  {
    Distribute(factor, e.weight, t.weight);
    if e.score.Some? {
      var score := e.score.value as real;
      Distribute(factor, e.weight, t.graded);
      Distribute(factor, e.weight * score, t.weighted);
      assert (e.weight * factor) * score == factor * (e.weight * score);
    }
  }

  lemma TallyOfCons(e: Entry, rest: seq<Entry>)
    ensures TallyOf([e] + rest) == Counted(e, TallyOf(rest))
  {
    assert ([e] + rest)[1..] == rest;
  }

  lemma {:induction false} RescaledTally(entries: seq<Entry>, factor: real)
    ensures TallyOf(Rescaled(entries, factor)) == ScaledTally(TallyOf(entries), factor)
  {
    if entries != [] {
      var e, rest := entries[0], entries[1..];
      calc {
        TallyOf(Rescaled(entries, factor));
        TallyOf([ScaledEntry(e, factor)] + Rescaled(rest, factor));
        { TallyOfCons(ScaledEntry(e, factor), Rescaled(rest, factor)); }
        Counted(ScaledEntry(e, factor), TallyOf(Rescaled(rest, factor)));
        { RescaledTally(rest, factor); }
        Counted(ScaledEntry(e, factor), ScaledTally(TallyOf(rest), factor));
        { CountedScaled(e, TallyOf(rest), factor); }
        ScaledTally(Counted(e, TallyOf(rest)), factor);
        ScaledTally(TallyOf(entries), factor);
      }
    }
  }

  lemma CancelFactor(x: real, y: real, factor: real)
    requires y != 0.0 && factor > 0.0
    ensures y * factor != 0.0 && (x * factor) / (y * factor) == x / y
  {
    var q := x / y;
    assert q * y == x;
    assert q * (y * factor) == x * factor;
    assert (q * (y * factor)) / (y * factor) == q;
  }

  /** The same signs, counts and ratios. */
  ghost predicate Proportional(s: Tally, t: Tally) {
    && s.count == t.count && s.entries == t.entries
    && (s.weight > 0.0 <==> t.weight > 0.0)
    && (s.graded == 0.0 <==> t.graded == 0.0)
    && (s.weight > 0.0 && t.weight > 0.0 ==> s.graded / s.weight == t.graded / t.weight)
    && (s.graded != 0.0 && t.graded != 0.0 ==> s.weighted / s.graded == t.weighted / t.graded)
  }

  lemma ScaledIsProportional(t: Tally, factor: real)
    requires factor > 0.0
    ensures Proportional(ScaledTally(t, factor), t)
  {
    SignKept(t.weight, factor);
    SignKept(t.graded, factor);
    if t.weight > 0.0 {
      CancelFactor(t.graded, t.weight, factor);
    }
    if t.graded != 0.0 {
      CancelFactor(t.weighted, t.graded, factor);
    }
  }

  lemma SameConclusion(s: Tally, t: Tally, participated: bool)
    requires Proportional(s, t)
    ensures Conclude(s, participated) == Conclude(t, participated)
  {
  }

  /** Nor does the unit the weights are in: only their proportions count. */
  lemma OnlyProportionsMatter(entries: seq<Entry>, participated: bool, factor: real)
    requires factor > 0.0
    ensures Aggregate(Rescaled(entries, factor), participated) == Aggregate(entries, participated)
  {
    RescaledTally(entries, factor);
    ScaledIsProportional(TallyOf(entries), factor);
    SameConclusion(ScaledTally(TallyOf(entries), factor), TallyOf(entries), participated);
  }

  lemma SignKept(x: real, factor: real)
    requires factor > 0.0
    ensures x * factor > 0.0 <==> x > 0.0
    ensures x * factor == 0.0 <==> x == 0.0
  {
  }

  lemma {:induction false} UngradedTally(entries: seq<Entry>, ungraded: seq<Entry>)
    requires forall i :: 0 <= i < |ungraded| ==> ungraded[i].score.None? && ungraded[i].weight > 0.0
    ensures var t, all := TallyOf(entries), TallyOf(ungraded + entries);
      all == t.(weight := all.weight, entries := t.entries + |ungraded|) && t.weight <= all.weight
  {
    if ungraded == [] {
      assert ungraded + entries == entries;
    } else {
      assert (ungraded + entries)[1..] == ungraded[1..] + entries;
      UngradedTally(entries, ungraded[1..]);
    }
  }

  /** For a candidate who took part, criteria that were not graded lower the coverage and change nothing else. */
  lemma UngradedDoNotCount(entries: seq<Entry>, ungraded: seq<Entry>)
    requires Sound(entries) && entries != []
    requires forall i :: 0 <= i < |ungraded| ==> ungraded[i].score.None? && ungraded[i].weight > 0.0
    ensures var before, after := Aggregate(entries, true), Aggregate(ungraded + entries, true);
      && before.Some? && after.Some? && after.value.coverage <= before.value.coverage
      && after.value == before.value.(coverage := after.value.coverage, total := |entries| + |ungraded|)
  {
    var t, all := TallyOf(entries), TallyOf(ungraded + entries);
    TallyIsSound(entries);
    UngradedTally(entries, ungraded);
    CoverageFalls(t.graded, t.weight, all.weight);
  }

  lemma CoverageFalls(g: real, t: real, more: real)
    requires 0.0 <= g && 0.0 < t <= more
    ensures Rubric.RoundHalfEven(g / more * 100.0) <= Rubric.RoundHalfEven(g / t * 100.0)
  {
    var p, q := g / more, g / t;
    assert p * more == g && q * t == g;
    if p > 0.0 {
      Scale(t, more, p);
    }
    QuotientBetween(g, t, p, q);
    Rubric.RoundHalfEvenMonotone(p * 100.0, q * 100.0);
  }

  // ---------------------------------------------------------------------------
  // Better scores
  // ---------------------------------------------------------------------------

  ghost predicate Raised(a: Entry, b: Entry) {
    a.weight == b.weight && a.score.Some? == b.score.Some? && (a.score.Some? ==> a.score.value <= b.score.value)
  }

  /** The same criteria, graded in the same places, no score lower. */
  ghost predicate NoWorse(a: seq<Entry>, b: seq<Entry>) {
    |a| == |b| && forall i :: 0 <= i < |a| ==> Raised(a[i], b[i])
  }

  /** The same sums but for a weighted sum that is no less. */
  ghost predicate TallyRaised(s: Tally, t: Tally) {
    t == s.(weighted := t.weighted) && s.weighted <= t.weighted
  }

  lemma CountedRaised(a: Entry, b: Entry, s: Tally, t: Tally)
    requires a.weight > 0.0 && Raised(a, b) && TallyRaised(s, t)
    ensures TallyRaised(Counted(a, s), Counted(b, t))
  {
    if a.score.Some? {
      Scale(a.score.value as real, b.score.value as real, a.weight);
    }
  }

  lemma {:induction false} RaisedTally(a: seq<Entry>, b: seq<Entry>)
    requires Sound(a) && NoWorse(a, b)
    ensures TallyRaised(TallyOf(a), TallyOf(b))
  {
    if a != [] {
      assert Raised(a[0], b[0]) && Within(a[0], MIN_BAND, MAX_BAND);
      RaisedTally(a[1..], b[1..]);
      CountedRaised(a[0], b[0], TallyOf(a[1..]), TallyOf(b[1..]));
      assert TallyOf(a) == Counted(a[0], TallyOf(a[1..])) && TallyOf(b) == Counted(b[0], TallyOf(b[1..]));
    }
  }

  function Rank(r: Recommendation): int {
    match r
    case InsufficientEvidence => 0
    case NoHire => 1
    case Borderline => 2
    case Hire => 3
    case StrongHire => 4
  }

  lemma BetterMean(x: real, y: real, graded: real)
    requires graded > 0.0 && x <= y
    ensures Clamp(RoundHalfUp(x / graded)) <= Clamp(RoundHalfUp(y / graded))
  {
    assert x / graded * graded == x && y / graded * graded == y;
    QuotientBetween(y, graded, x / graded, y / graded);
  }

  /** Higher scores never lower the overall or the recommendation, and never take away a number. */
  lemma HigherScoresNeverHurt(a: seq<Entry>, b: seq<Entry>, participated: bool)
    requires Sound(a) && NoWorse(a, b)
    ensures var before, after := Aggregate(a, participated), Aggregate(b, participated);
      && before.Some? && after.Some?
      && after.value.coverage == before.value.coverage
      && (before.value.overall.None? <==> after.value.overall.None?)
      && (before.value.overall.Some? ==> before.value.overall.value <= after.value.overall.value)
      && Rank(before.value.recommendation) <= Rank(after.value.recommendation)
  {
    var t := TallyOf(a);
    TallyIsSound(a);
    RaisedTally(a, b);
    if t.count > 0 {
      BetterMean(t.weighted, TallyOf(b).weighted, t.graded);
    }
  }
}
