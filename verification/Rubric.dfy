/** Rubric arithmetic: weights rescaled to sum to exactly one, over-long rubrics trimmed.

  Weights are exact reals; a stored weight is a whole number of quanta (four decimal
  places, so 10 000 quanta make 1).
*/
module Rubric {

  const QUANTA: int := 10_000
  const MAX_CRITERIA: nat := 6

  function Total(ws: seq<real>): real {
    if ws == [] then 0.0 else ws[0] + Total(ws[1..])
  }

  function Sum(qs: seq<int>): int {
    if qs == [] then 0 else qs[0] + Sum(qs[1..])
  }

  /** `Decimal.quantize` in the default context. */
  function RoundHalfEven(x: real): int {
    var f := x.Floor;
    var d := x - f as real;
    if d < 0.5 || (d == 0.5 && f % 2 == 0) then f else f + 1
  }

  /** A weight's exact share of the whole, in quanta. */
  function Share(w: real, total: real): real
    requires total > 0.0
  {
    w / total * 10_000.0
  }

  function Shares(ws: seq<real>, total: real): seq<real>
    requires total > 0.0
  {
    seq(|ws|, i requires 0 <= i < |ws| => Share(ws[i], total))
  }

  function Quantised(ws: seq<real>, total: real): seq<int>
    requires total > 0.0
  {
    seq(|ws|, i requires 0 <= i < |ws| => RoundHalfEven(Share(ws[i], total)))
  }

  /** The first index of the greatest entry, as Python's `max` finds it. */
  function FirstMax(qs: seq<int>): (m: nat)
    requires qs != []
    ensures m < |qs|
    ensures forall i :: 0 <= i < |qs| ==> qs[i] <= qs[m]
    ensures forall i :: 0 <= i < m ==> qs[i] < qs[m]
  {
    if |qs| == 1 then 0
    else
      var rest := FirstMax(qs[..|qs| - 1]);
      if qs[|qs| - 1] > qs[rest] then |qs| - 1 else rest
  }

  /** The remainder goes onto the heaviest criterion. */
  function Settled(qs: seq<int>): seq<int>
    requires qs != []
  {
    var m := FirstMax(qs);
    qs[m := qs[m] + (QUANTA - Sum(qs))]
  }

  predicate Acceptable(ws: seq<real>)
    ensures Acceptable(ws) ==> ws != []
  {
    0.5 <= Total(ws) <= 1.5
  }

  function Normalised(ws: seq<real>): seq<int>
    requires Acceptable(ws)
  {
    Settled(Quantised(ws, Total(ws)))
  }

  function Weight(q: int): real {
    q as real / 10_000.0
  }

  function Weights(qs: seq<int>): seq<real> {
    seq(|qs|, i requires 0 <= i < |qs| => Weight(qs[i]))
  }

  // ---------------------------------------------------------------------------
  // Sums
  // ---------------------------------------------------------------------------

  lemma {:induction false} TotalSnoc(ws: seq<real>, w: real)
    ensures Total(ws + [w]) == Total(ws) + w
  {
    if ws == [] {
      assert [] + [w] == [w];
    } else {
      assert (ws + [w])[1..] == ws[1..] + [w];
      TotalSnoc(ws[1..], w);
    }
  }

  lemma {:induction false} SumSplit(qs: seq<int>, m: nat)
    requires m < |qs|
    ensures Sum(qs) == qs[m] + Sum(qs[..m] + qs[m + 1..])
  {
    if m == 0 {
      assert qs[..0] + qs[1..] == qs[1..];
    } else {
      SumSplit(qs[1..], m - 1);
      assert (qs[..m] + qs[m + 1..])[1..] == qs[1..][..m - 1] + qs[1..][m..];
    }
  }

  lemma {:induction false} TotalSplit(ws: seq<real>, m: nat)
    requires m < |ws|
    ensures Total(ws) == ws[m] + Total(ws[..m] + ws[m + 1..])
  {
    if m == 0 {
      assert ws[..0] + ws[1..] == ws[1..];
    } else {
      TotalSplit(ws[1..], m - 1);
      assert (ws[..m] + ws[m + 1..])[1..] == ws[1..][..m - 1] + ws[1..][m..];
    }
  }

  lemma {:induction false} TotalOfWeights(qs: seq<int>)
    ensures Total(Weights(qs)) == Weight(Sum(qs))
  {
    if qs != [] {
      TotalOfWeights(qs[1..]);
      assert Weights(qs)[1..] == Weights(qs[1..]);
    }
  }

  lemma ShareAdds(a: real, b: real, total: real)
    requires total > 0.0
    ensures Share(a + b, total) == Share(a, total) + Share(b, total)
  {
    var x, y := a / total, b / total;
    assert (x + y) * total == a + b;
    assert (a + b) / total == x + y;
  }

  /** The shares of a rubric make up the whole. */
  lemma {:induction false} SharesTotal(ws: seq<real>, total: real)
    requires total > 0.0
    ensures Total(Shares(ws, total)) == Share(Total(ws), total)
  {
    if ws != [] {
      SharesTotal(ws[1..], total);
      assert Shares(ws, total)[1..] == Shares(ws[1..], total);
      ShareAdds(ws[0], Total(ws[1..]), total);
    }
  }

  lemma WholeShare(total: real)
    requires total > 0.0
    ensures Share(total, total) == 10_000.0
  {
  }

  /** Rounding n entries moves their sum by half a quantum each at most. */
  lemma {:induction false} RoundingDrift(qs: seq<int>, xs: seq<real>)
    requires |qs| == |xs|
    requires forall i :: 0 <= i < |qs| ==> -0.5 <= qs[i] as real - xs[i] <= 0.5
    ensures -(|qs| as real) / 2.0 <= Sum(qs) as real - Total(xs) <= |qs| as real / 2.0
  {
    if qs != [] {
      RoundingDrift(qs[1..], xs[1..]);
    }
  }

  // ---------------------------------------------------------------------------
  // What normalising gives
  // ---------------------------------------------------------------------------

  lemma RoundHalfEvenIsNearest(x: real)
    ensures -0.5 <= RoundHalfEven(x) as real - x <= 0.5
  {
  }

  /** To the nearest, ties to the even neighbour, so that rounding favours neither side. */
  lemma RoundHalfEvenIsFair(x: real)
    ensures RoundHalfEven(-x) == -RoundHalfEven(x)
    ensures RoundHalfEven(x) as real - x in {-0.5, 0.5} ==> RoundHalfEven(x) % 2 == 0
  {
    assert (-x).Floor == if x == x.Floor as real then -x.Floor else -x.Floor - 1;
  }

  lemma WholeIsFixed(n: int)
    ensures RoundHalfEven(n as real) == n
  {
  }

  lemma RoundHalfEvenMonotone(x: real, y: real)
    requires x <= y
    ensures RoundHalfEven(x) <= RoundHalfEven(y)
  {
  }

  /** The weights sum to exactly one, whatever the rounding left over. */
  lemma NormalisedSumsToOne(ws: seq<real>)
    requires Acceptable(ws)
    ensures |Normalised(ws)| == |ws| && Sum(Normalised(ws)) == QUANTA
  {
    var qs := Quantised(ws, Total(ws));
    var m := FirstMax(qs);
    var out := Normalised(ws);
    SumSplit(qs, m);
    SumSplit(out, m);
    assert out[..m] + out[m + 1..] == qs[..m] + qs[m + 1..];
  }

  lemma QuantisedIsNearest(ws: seq<real>, total: real)
    requires total > 0.0
    ensures forall i :: 0 <= i < |ws| ==> -0.5 <= Quantised(ws, total)[i] as real - Shares(ws, total)[i] <= 0.5
  {
    forall i | 0 <= i < |ws|
      ensures -0.5 <= Quantised(ws, total)[i] as real - Shares(ws, total)[i] <= 0.5
    {
      RoundHalfEvenIsNearest(Shares(ws, total)[i]);
    }
  }

  /** Where the remainder goes, the error is at most what rounding the others left over. */
  lemma RemainderIsClose(qs: seq<int>, xs: seq<real>, m: nat)
    requires |qs| == |xs| && m < |qs| && Total(xs) == 10_000.0
    requires forall i :: 0 <= i < |qs| ==> -0.5 <= qs[i] as real - xs[i] <= 0.5
    ensures var error := (qs[m] + (QUANTA - Sum(qs))) as real - xs[m];
      -((|qs| - 1) as real) / 2.0 <= error <= (|qs| - 1) as real / 2.0
  {
    var others, exact := qs[..m] + qs[m + 1..], xs[..m] + xs[m + 1..];
    assert forall i :: 0 <= i < |others| ==>
      others[i] == qs[if i < m then i else i + 1] && exact[i] == xs[if i < m then i else i + 1];
    RoundingDrift(others, exact);
    SumSplit(qs, m);
    TotalSplit(xs, m);
  }

  /** Every weight but the heaviest is within half a quantum of its exact share; the heaviest,
      which takes the remainder, within (n - 1) / 2 quanta. */
  lemma NormalisedIsClose(ws: seq<real>)
    requires Acceptable(ws)
    ensures |Normalised(ws)| == |ws|
    ensures var total, heaviest := Total(ws), FirstMax(Quantised(ws, Total(ws)));
      forall i :: 0 <= i < |ws| ==>
        var error := Normalised(ws)[i] as real - Share(ws[i], total);
        if i != heaviest then -0.5 <= error <= 0.5
        else -((|ws| - 1) as real) / 2.0 <= error <= (|ws| - 1) as real / 2.0
  {
    hide Share, RoundHalfEven, Total, Sum;
    var total := Total(ws);
    QuantisedIsNearest(ws, total);
    SharesTotal(ws, total);
    WholeShare(total);
    RemainderIsClose(Quantised(ws, total), Shares(ws, total), FirstMax(Quantised(ws, total)));
  }

  lemma SharePositive(w: real, total: real)
    requires w > 0.0 && total > 0.0
    ensures Share(w, total) > 0.0
  {
    var share := w / total;
    assert share * total == w;
  }

  lemma QuantisedNearWhole(ws: seq<real>)
    requires Acceptable(ws)
    ensures -(|ws| as real) / 2.0 <= Sum(Quantised(ws, Total(ws))) as real - 10_000.0 <= |ws| as real / 2.0
  {
    var total := Total(ws);
    QuantisedIsNearest(ws, total);
    RoundingDrift(Quantised(ws, total), Shares(ws, total));
    SharesTotal(ws, total);
    WholeShare(total);
  }

  lemma QuantisedNonNegative(ws: seq<real>)
    requires Acceptable(ws) && forall i :: 0 <= i < |ws| ==> ws[i] > 0.0
    ensures forall i :: 0 <= i < |ws| ==> 0 <= Quantised(ws, Total(ws))[i]
    ensures forall i :: 0 <= i < |ws| && Share(ws[i], Total(ws)) > 0.5 ==> 0 < Quantised(ws, Total(ws))[i]
  {
    forall i | 0 <= i < |ws|
      ensures 0 <= RoundHalfEven(Share(ws[i], Total(ws)))
    {
      SharePositive(ws[i], Total(ws));
    }
  }

  /** Taking the remainder pushes no criterion below zero or above one, up to 141 criteria. */
  lemma NormalisedInRange(ws: seq<real>)
    requires Acceptable(ws) && |ws| * (|ws| - 1) < 2 * QUANTA
    requires forall i :: 0 <= i < |ws| ==> ws[i] > 0.0
    ensures |Normalised(ws)| == |ws|
    ensures forall i :: 0 <= i < |ws| ==> 0 <= Normalised(ws)[i] <= QUANTA
    ensures forall i :: 0 <= i < |ws| && Share(ws[i], Total(ws)) > 0.5 ==> Normalised(ws)[i] > 0
  {
    var qs, out := Quantised(ws, Total(ws)), Normalised(ws);
    NormalisedSumsToOne(ws);
    QuantisedNearWhole(ws);
    QuantisedNonNegative(ws);
    HeaviestTakesRemainder(qs);
    forall i | 0 <= i < |ws|
      ensures out[i] <= QUANTA
    {
      NoPartExceedsSum(out, i);
    }
  }

  /** Six criteria, the most the validated rubric can hold, are well within that. */
  lemma SixInRange(ws: seq<real>)
    requires Acceptable(ws) && |ws| <= MAX_CRITERIA && forall i :: 0 <= i < |ws| ==> ws[i] > 0.0
    ensures |Normalised(ws)| == |ws| && forall i :: 0 <= i < |ws| ==> 0 <= Normalised(ws)[i] <= QUANTA
  {
    assert |ws| * (|ws| - 1) <= 6 * 5;
    NormalisedInRange(ws);
  }

  lemma {:induction false} MaxTimesLength(qs: seq<int>, bound: int)
    requires forall i :: 0 <= i < |qs| ==> qs[i] <= bound
    ensures Sum(qs) <= |qs| * bound
  {
    if qs != [] {
      MaxTimesLength(qs[1..], bound);
    }
  }

  lemma {:induction false} NoPartExceedsSum(qs: seq<int>, k: nat)
    requires forall i :: 0 <= i < |qs| ==> 0 <= qs[i]
    ensures 0 <= Sum(qs)
    ensures k < |qs| ==> qs[k] <= Sum(qs)
  {
    if qs != [] {
      NoPartExceedsSum(qs[1..], if k == 0 then 0 else k - 1);
    }
  }

  lemma ProductKeepsOrder(k: nat, a: int, b: int)
    requires a <= b
    ensures k * a <= k * b
  {
  }

  lemma ExcessIsSmall(n: nat, excess: int)
    requires 0 < n && n * (n - 1) < 2 * QUANTA && 2 * excess <= n
    ensures n * excess < QUANTA + excess
  {
    ProductKeepsOrder(n - 1, 2 * excess, n);
    assert (n - 1) * (2 * excess) == 2 * (n * excess) - 2 * excess && (n - 1) * n == n * (n - 1);
  }

  /** The heaviest is at least the mean, and so larger than any excess the rounding can leave. */
  lemma HeaviestTakesRemainder(qs: seq<int>)
    requires qs != [] && |qs| * (|qs| - 1) < 2 * QUANTA && 2 * (Sum(qs) - QUANTA) <= |qs|
    requires forall i :: 0 <= i < |qs| ==> 0 <= qs[i]
    ensures Settled(qs)[FirstMax(qs)] > 0
  {
    var excess := Sum(qs) - QUANTA;
    ExcessIsSmall(|qs|, excess);
    if qs[FirstMax(qs)] <= excess {
      MaxTimesLength(qs, excess);
    }
  }

  /** Normalising a rubric that is already normalised changes nothing. */
  lemma NormalisedTwice(qs: seq<int>)
    requires qs != [] && Sum(qs) == QUANTA
    ensures Acceptable(Weights(qs)) && Normalised(Weights(qs)) == qs
  {
    TotalOfWeights(qs);
    var ws := Weights(qs);
    forall i | 0 <= i < |qs|
      ensures RoundHalfEven(Share(ws[i], 1.0)) == qs[i]
    {
      WholeIsFixed(qs[i]);
    }
    assert Quantised(ws, 1.0) == qs;
  }

  // ---------------------------------------------------------------------------
  // In place
  // ---------------------------------------------------------------------------

  method TotalWeight(weights: array<real>) returns (total: real)
    ensures total == Total(weights[..])
  {
    total := 0.0;
    for i := 0 to weights.Length
      invariant total == Total(weights[..i])
    {
      assert weights[..i + 1] == weights[..i] + [weights[i]];
      TotalSnoc(weights[..i], weights[i]);
      total := total + weights[i];
    }
    assert weights[..weights.Length] == weights[..];
  }

  method QuantiseWeights(weights: array<real>, total: real)
    requires total > 0.0
    modifies weights
    ensures weights[..] == Weights(Quantised(old(weights[..]), total))
  {
    for i := 0 to weights.Length
      invariant forall k :: 0 <= k < i ==> weights[k] == Weight(RoundHalfEven(Share(old(weights[k]), total)))
      invariant forall k :: i <= k < weights.Length ==> weights[k] == old(weights[k])
    {
      weights[i] := RoundHalfEven(weights[i] / total * 10_000.0) as real / 10_000.0;
    }
  }

  method Heaviest(weights: array<real>, ghost qs: seq<int>) returns (heaviest: nat)
    requires qs != [] && weights[..] == Weights(qs)
    ensures heaviest == FirstMax(qs)
  {
    heaviest := 0;
    for i := 1 to weights.Length
      invariant heaviest < i && heaviest == FirstMax(qs[..i])
    {
      assert weights[i] == Weight(qs[i]) && weights[heaviest] == Weight(qs[heaviest]);
      assert qs[..i + 1][..i] == qs[..i];
      if weights[heaviest] < weights[i] {
        heaviest := i;
      }
    }
    assert qs[..weights.Length] == qs;
  }

  method NormaliseWeights(weights: array<real>) returns (accepted: bool)
    modifies weights
    ensures accepted <==> Acceptable(old(weights[..]))
    ensures weights[..] == if accepted then Weights(Normalised(old(weights[..]))) else old(weights[..])
  {
    var total := TotalWeight(weights);
    if !(0.5 <= total <= 1.5) {
      return false;
    }
    ghost var qs := Quantised(weights[..], total);
    QuantiseWeights(weights, total);
    var drift := TotalWeight(weights);
    drift := 1.0 - drift;
    TotalOfWeights(qs);
    var heaviest := Heaviest(weights, qs);
    weights[heaviest] := weights[heaviest] + drift;
    assert weights[heaviest] == Weight(Settled(qs)[heaviest]);
    return true;
  }

  // ---------------------------------------------------------------------------
  // Trimming an over-long rubric
  // ---------------------------------------------------------------------------

  datatype Entry = Entry(weight: real, detail: string)

  /** Entry `i` is ranked ahead of entry `j`: heavier, or as heavy and earlier. */
  predicate Ahead(entries: seq<Entry>, i: nat, j: nat)
    requires i < |entries| && j < |entries|
  {
    entries[i].weight > entries[j].weight || (entries[i].weight == entries[j].weight && i < j)
  }

  ghost predicate Ranking(entries: seq<Entry>, ranks: seq<nat>) {
    && (forall a :: 0 <= a < |ranks| ==> ranks[a] < |entries|)
    && (forall a, b :: 0 <= a < b < |ranks| ==> Ahead(entries, ranks[a], ranks[b]))
  }

  /** Put index `n` behind every index at least as heavy: one step of a stable descending sort. */
  function Insert(entries: seq<Entry>, ranks: seq<nat>, n: nat): (r: seq<nat>)
    requires n < |entries| && forall a :: 0 <= a < |ranks| ==> ranks[a] < n
    ensures |r| == |ranks| + 1
    ensures forall a :: 0 <= a < |r| ==> r[a] <= n
    ensures forall a :: 0 <= a < |ranks| ==> ranks[a] in r
    ensures n in r
  {
    if ranks == [] || entries[ranks[|ranks| - 1]].weight >= entries[n].weight then ranks + [n]
    else
      var init := ranks[..|ranks| - 1];
      var front := Insert(entries, init, n);
      assert forall a :: 0 <= a < |init| ==> init[a] in front;
      front + [ranks[|ranks| - 1]]
  }

  /** Everything in the result of an insertion is ahead of `last` if everything it was made of is. */
  lemma {:induction false} InsertBefore(entries: seq<Entry>, ranks: seq<nat>, n: nat, last: nat)
    requires n < |entries| && last < |entries| && forall a :: 0 <= a < |ranks| ==> ranks[a] < n
    requires Ahead(entries, n, last) && forall a :: 0 <= a < |ranks| ==> Ahead(entries, ranks[a], last)
    ensures forall a :: 0 <= a <= |ranks| ==> Ahead(entries, Insert(entries, ranks, n)[a], last)
  {
    if ranks != [] && entries[ranks[|ranks| - 1]].weight < entries[n].weight {
      InsertBefore(entries, ranks[..|ranks| - 1], n, last);
    }
  }

  lemma {:induction false} InsertKeepsRanking(entries: seq<Entry>, ranks: seq<nat>, n: nat)
    requires n < |entries| && Ranking(entries, ranks) && forall a :: 0 <= a < |ranks| ==> ranks[a] < n
    ensures Ranking(entries, Insert(entries, ranks, n))
  {
    var last := |ranks| - 1;
    if ranks != [] && entries[ranks[last]].weight < entries[n].weight {
      InsertKeepsRanking(entries, ranks[..last], n);
      InsertBefore(entries, ranks[..last], n, ranks[last]);
      assert Insert(entries, ranks, n) == Insert(entries, ranks[..last], n) + [ranks[last]];
      hide Insert;
    }
  }

  /** The first `n` indices, heaviest first, ties in the original order. */
  function Ranked(entries: seq<Entry>, n: nat): (r: seq<nat>)
    requires n <= |entries|
    ensures |r| == n
    ensures forall a :: 0 <= a < n ==> r[a] < n
    ensures forall i :: 0 <= i < n ==> i in r
  {
    if n == 0 then []
    else
      var front := Ranked(entries, n - 1);
      var r := Insert(entries, front, n - 1);
      assert forall i :: 0 <= i < n - 1 ==> i in front && i in r;
      r
  }

  lemma EmptyIsRanking(entries: seq<Entry>)
    ensures Ranking(entries, [])
  {
  }

  lemma {:induction false} RankedIsRanking(entries: seq<Entry>, n: nat)
    requires n <= |entries|
    ensures Ranking(entries, Ranked(entries, n))
  {
    hide Insert, Ranking;
    if n == 0 {
      EmptyIsRanking(entries);
    } else {
      RankedIsRanking(entries, n - 1);
      InsertKeepsRanking(entries, Ranked(entries, n - 1), n - 1);
    }
  }

  function Heaviest6(entries: seq<Entry>): seq<nat>
    requires |entries| > MAX_CRITERIA
  {
    Ranked(entries, |entries|)[..MAX_CRITERIA]
  }

  /** `c in kept` compares contents, so an entry equal to a kept one is kept as well. */
  predicate IsKept(entries: seq<Entry>, i: nat)
    requires |entries| > MAX_CRITERIA && i < |entries|
  {
    exists r :: r in Heaviest6(entries) && r < |entries| && entries[r] == entries[i]
  }

  function KeptIndices(entries: seq<Entry>, n: nat): (ks: seq<nat>)
    requires |entries| > MAX_CRITERIA && n <= |entries|
    ensures forall i :: i in ks <==> 0 <= i < n && IsKept(entries, i)
    ensures forall a :: 0 <= a < |ks| ==> ks[a] < n
    ensures forall a, b :: 0 <= a < b < |ks| ==> ks[a] < ks[b]
  {
    if n == 0 then []
    else
      var front := KeptIndices(entries, n - 1);
      if IsKept(entries, n - 1) then front + [n - 1] else front
  }

  function Trimmed(entries: seq<Entry>): seq<Entry> {
    if |entries| <= MAX_CRITERIA then entries
    else
      var ks := KeptIndices(entries, |entries|);
      seq(|ks|, a requires 0 <= a < |ks| => entries[ks[a]])
  }

  ghost function ToSet(s: seq<nat>): set<nat> {
    set x | x in s
  }

  lemma {:induction false} DistinctCount(s: seq<nat>)
    requires forall a, b :: 0 <= a < b < |s| ==> s[a] != s[b]
    ensures |ToSet(s)| == |s|
  {
    if s == [] {
      assert ToSet(s) == {};
    } else {
      DistinctCount(s[1..]);
      assert s[0] !in ToSet(s[1..]);
      assert ToSet(s) == ToSet(s[1..]) + {s[0]};
    }
  }

  /** Nothing dropped outweighs anything kept. */
  lemma TrimKeepsHeaviest(entries: seq<Entry>, kept: nat, dropped: nat)
    requires |entries| > MAX_CRITERIA && kept < |entries| && dropped < |entries|
    requires IsKept(entries, kept) && !IsKept(entries, dropped)
    ensures entries[kept].weight >= entries[dropped].weight
    ensures PairwiseDifferent(entries) ==> Ahead(entries, kept, dropped)
  {
    var a := RankOfKept(entries, kept);
    var b := RankOfDropped(entries, dropped);
    RankedIsRanking(entries, |entries|);
    assert Ahead(entries, Ranked(entries, |entries|)[a], dropped);
    if PairwiseDifferent(entries) {
      assert Ranked(entries, |entries|)[a] == kept;
    }
  }

  lemma RankOfKept(entries: seq<Entry>, kept: nat) returns (a: nat)
    requires |entries| > MAX_CRITERIA && kept < |entries| && IsKept(entries, kept)
    ensures a < MAX_CRITERIA
    ensures entries[Ranked(entries, |entries|)[a]] == entries[kept]
  {
    var r :| r in Heaviest6(entries) && r < |entries| && entries[r] == entries[kept];
    a :| 0 <= a < |Heaviest6(entries)| && Heaviest6(entries)[a] == r;
  }

  lemma RankOfDropped(entries: seq<Entry>, dropped: nat) returns (b: nat)
    requires |entries| > MAX_CRITERIA && dropped < |entries| && !IsKept(entries, dropped)
    ensures MAX_CRITERIA <= b < |entries| && Ranked(entries, |entries|)[b] == dropped
  {
    assert dropped in Ranked(entries, |entries|);
    b :| 0 <= b < |entries| && Ranked(entries, |entries|)[b] == dropped;
    if b < MAX_CRITERIA {
      TopIsKept(entries, b);
      assert false;
    }
  }

  lemma TopIsKept(entries: seq<Entry>, a: nat)
    requires |entries| > MAX_CRITERIA && a < MAX_CRITERIA
    ensures var r := Heaviest6(entries)[a]; r < |entries| && IsKept(entries, r)
  {
    var r := Heaviest6(entries)[a];
    assert r in Heaviest6(entries) && Ranked(entries, |entries|)[a] == r;
  }

  lemma TopIsDistinct(entries: seq<Entry>, a: nat, b: nat)
    requires |entries| > MAX_CRITERIA && a < b < MAX_CRITERIA
    ensures Heaviest6(entries)[a] != Heaviest6(entries)[b]
  {
    RankedIsRanking(entries, |entries|);
    assert Ahead(entries, Ranked(entries, |entries|)[a], Ranked(entries, |entries|)[b]);
  }

  /** No entry below the cut is a copy of one above it. */
  ghost predicate NoCopyBelow(entries: seq<Entry>)
    requires |entries| > MAX_CRITERIA
  {
    forall i, r :: 0 <= i < |entries| && i !in Heaviest6(entries) && r in Heaviest6(entries) && r < |entries| ==>
      entries[i] != entries[r]
  }

  /** Exactly six survive, unless an entry below the cut is a copy of one above it. */
  lemma TrimLeavesSix(entries: seq<Entry>)
    requires |entries| > MAX_CRITERIA
    ensures |Trimmed(entries)| >= MAX_CRITERIA
    ensures |Trimmed(entries)| == MAX_CRITERIA <==> NoCopyBelow(entries)
  {
    hide NoCopyBelow, KeptIndices, Ranked, IsKept;
    var top, ks := Heaviest6(entries), KeptIndices(entries, |entries|);
    HeaviestAreKept(entries);
    SubsequenceCounts(top, ks);
    KeptBelowTheCut(entries);
  }

  lemma KeptBelowTheCut(entries: seq<Entry>)
    requires |entries| > MAX_CRITERIA
    ensures NoCopyBelow(entries) <==> forall i :: i in KeptIndices(entries, |entries|) ==> i in Heaviest6(entries)
  {
    hide KeptIndices, Heaviest6, Ranked;
    if !NoCopyBelow(entries) {
      var i, r :| 0 <= i < |entries| && i !in Heaviest6(entries) && r in Heaviest6(entries) && r < |entries| && entries[i] == entries[r];
      assert IsKept(entries, i) && i in KeptIndices(entries, |entries|);
    }
  }

  lemma HeaviestAreKept(entries: seq<Entry>)
    requires |entries| > MAX_CRITERIA
    ensures var top, ks := Heaviest6(entries), KeptIndices(entries, |entries|);
      && (forall a, b :: 0 <= a < b < |top| ==> top[a] != top[b])
      && (forall a :: 0 <= a < |top| ==> top[a] in ks)
  {
    var top, ks := Heaviest6(entries), KeptIndices(entries, |entries|);
    forall a, b | 0 <= a < b < |top|
      ensures top[a] != top[b]
    {
      TopIsDistinct(entries, a, b);
    }
    forall a | 0 <= a < |top|
      ensures top[a] in ks
    {
      TopIsKept(entries, a);
    }
  }

  /** Two lists without repeats, one inside the other. */
  lemma SubsequenceCounts(top: seq<nat>, ks: seq<nat>)
    requires forall a, b :: 0 <= a < b < |top| ==> top[a] != top[b]
    requires forall a, b :: 0 <= a < b < |ks| ==> ks[a] < ks[b]
    requires forall a :: 0 <= a < |top| ==> top[a] in ks
    ensures |top| <= |ks| && (|top| == |ks| <==> forall i :: i in ks ==> i in top)
  {
    DistinctCount(top);
    DistinctCount(ks);
    SubsetCount(ToSet(top), ToSet(ks));
    if ToSet(top) == ToSet(ks) {
      assert forall i :: i in ks ==> i in ToSet(ks);
    }
  }

  lemma SubsetCount(a: set<nat>, b: set<nat>)
    requires a <= b
    ensures |a| <= |b| && (|a| == |b| <==> a == b)
  {
    assert b == a + (b - a);
  }

  ghost predicate PairwiseDifferent(entries: seq<Entry>) {
    forall i, j :: 0 <= i < j < |entries| ==> entries[i] != entries[j]
  }

  /** A rubric that is not too long is left alone. */
  lemma TrimOfFew(entries: seq<Entry>)
    requires |entries| <= 6
    ensures Trimmed(entries) == entries
  {
  }

  /** Pairwise different entries: six of them, in their original order. */
  lemma TrimOfDistinct(entries: seq<Entry>)
    requires |entries| > MAX_CRITERIA && PairwiseDifferent(entries)
    ensures |Trimmed(entries)| == |KeptIndices(entries, |entries|)| == MAX_CRITERIA
    ensures forall a :: 0 <= a < MAX_CRITERIA ==> Trimmed(entries)[a] == entries[KeptIndices(entries, |entries|)[a]]
  {
    TrimLeavesSix(entries);
  }
}
