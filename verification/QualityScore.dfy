/** The technical score of a quality run: a severity-weighted mean of 0/100 scores, rounded to the
    nearest integer with ties to even, after apps/quality-api/app/services/execution_service.py. */
module QualityScore {
  import opened Values
  import opened QualityRules

  /** The score of one evaluated rule. */
  datatype Graded = Graded(severity: Severity, score: int)

  function Weight(s: Severity): nat {
    match s
    case Low => 1
    case Medium => 2
    case High => 3
    case Critical => 4
  }

  function Total(gs: seq<Graded>): int {
    if gs == [] then 0 else Total(gs[..|gs| - 1]) + Weight(gs[|gs| - 1].severity) * gs[|gs| - 1].score
  }

  function WeightSum(gs: seq<Graded>): nat {
    if gs == [] then 0 else WeightSum(gs[..|gs| - 1]) + Weight(gs[|gs| - 1].severity)
  }

  /** roundTiesToEven of total / weight. */
  function RoundHalfEven(total: int, weight: nat): int
    requires weight > 0
  {
    var q, r := total / weight, total % weight;
    if 2 * r < weight || (2 * r == weight && q % 2 == 0) then q else q + 1
  }

  function TechnicalScore(gs: seq<Graded>): Option<int> {
    if WeightSum(gs) == 0 then None else Some(RoundHalfEven(Total(gs), WeightSum(gs)))
  }

  method Score(gs: seq<Graded>) returns (score: Option<int>)
    ensures score == TechnicalScore(gs)
  {
    if gs == [] { return None; }
    var total, weights := 0, 0;
    for i := 0 to |gs|
      invariant total == Total(gs[..i]) && weights == WeightSum(gs[..i])
    {
      assert gs[..i + 1][..i] == gs[..i];
      total := total + Weight(gs[i].severity) * gs[i].score;
      weights := weights + Weight(gs[i].severity);
    }
    assert gs[..|gs|] == gs;
    WeightIsPositive(gs);
    score := Some(RoundHalfEven(total, weights));
  }

  // ---------------------------------------------------------------- rounding

  /** A nearest integer to total / weight, and the even one of two. */
  predicate Nearest(q: int, total: int, weight: nat) {
    && -(weight as int) <= 2 * (weight * q - total) <= weight
    && (2 * (weight * q - total) == weight || 2 * (weight * q - total) == -(weight as int) ==> q % 2 == 0)
  }

  lemma Multiples(w: int, d: int)
    requires w > 0
    ensures d <= -1 ==> w * d <= -w
    ensures d == 0 ==> w * d == 0
    ensures d == 1 ==> w * d == w
    ensures d >= 2 ==> w * d >= 2 * w
  {
  }

  lemma Spread(w: int, q: int, f: int)
    ensures w * q - w * f == w * (q - f)
  {
  }

  /** The same on quotient f and remainder r. */
  lemma NearestByRemainder(w: nat, f: int, r: int, q: int, total: int)
    requires w > 0 && 0 <= r < w && total == w * f + r
    ensures Nearest(q, total, w) <==> q == if 2 * r < w || (2 * r == w && f % 2 == 0) then f else f + 1
  {
    Multiples(w, q - f);
    Spread(w, q, f);
    var p, d := w * (q - f), q - f;
    assert 2 * (w * q - total) == 2 * p - 2 * r;
    assert Nearest(q, total, w) <==>
      -(w as int) <= 2 * p - 2 * r <= w && (2 * p - 2 * r == w || 2 * p - 2 * r == -(w as int) ==> q % 2 == 0);
    hide Nearest;
  }

  lemma Divided(total: int, weight: nat) returns (f: int, r: int)
    requires weight > 0
    ensures 0 <= r < weight && total == weight * f + r
    ensures RoundHalfEven(total, weight) == if 2 * r < weight || (2 * r == weight && f % 2 == 0) then f else f + 1
  {
    f, r := total / weight, total % weight;
  }

  /** The rounding is to the nearest with ties to even, and nothing else is. */
  lemma RoundingIsNearest(total: int, weight: nat, q: int)
    requires weight > 0
    ensures Nearest(q, total, weight) <==> q == RoundHalfEven(total, weight)
  {
    hide RoundHalfEven, Nearest;
    var f, r := Divided(total, weight);
    NearestByRemainder(weight, f, r, q, total);
  }

  lemma RoundingIsMonotone(less: int, more: int, weight: nat)
    requires weight > 0 && less <= more
    ensures RoundHalfEven(less, weight) <= RoundHalfEven(more, weight)
  {
    var p, q := RoundHalfEven(less, weight), RoundHalfEven(more, weight);
    RoundingIsNearest(less, weight, p);
    RoundingIsNearest(more, weight, q);
    hide RoundHalfEven;
    Multiples(weight, p - q);
    Spread(weight, p, q);
    var wp, wq := weight * p, weight * q;
    assert 2 * (wp - less) <= weight && -(weight as int) <= 2 * (wq - more);
  }

  // ---------------------------------------------------------------- the score

  lemma {:induction false} WeightIsPositive(gs: seq<Graded>)
    ensures WeightSum(gs) == 0 <==> gs == []
  {
  }

  predicate Scored(gs: seq<Graded>) { forall g | g in gs :: 0 <= g.score <= 100 }

  lemma {:induction false} TotalInRange(gs: seq<Graded>)
    requires Scored(gs)
    ensures 0 <= Total(gs) <= 100 * WeightSum(gs)
  {
    if gs != [] {
      var g := gs[|gs| - 1];
      TotalInRange(gs[..|gs| - 1]);
      assert 0 <= Weight(g.severity) * g.score <= 100 * Weight(g.severity);
    }
  }

  /** The score is null exactly when nothing was evaluated, and lies in 0..100 otherwise. */
  lemma ScoreInRange(gs: seq<Graded>)
    requires Scored(gs)
    ensures TechnicalScore(gs).None? <==> gs == []
    ensures gs != [] ==>
      0 <= TechnicalScore(gs).value <= 100 && Nearest(TechnicalScore(gs).value, Total(gs), WeightSum(gs))
  {
    WeightIsPositive(gs);
    TotalInRange(gs);
    if gs != [] {
      var w := WeightSum(gs);
      RoundingIsNearest(Total(gs), w, TechnicalScore(gs).value);
      RoundingIsNearest(0, w, 0);
      RoundingIsNearest(100 * w, w, 100);
      RoundingIsMonotone(0, Total(gs), w);
      RoundingIsMonotone(Total(gs), 100 * w, w);
    }
  }

  lemma {:induction false} WithoutOne(gs: seq<Graded>, i: nat)
    requires i < |gs|
    ensures var rest := gs[..i] + gs[i + 1..];
      && Total(gs) == Total(rest) + Weight(gs[i].severity) * gs[i].score
      && WeightSum(gs) == WeightSum(rest) + Weight(gs[i].severity)
      && multiset(gs) == multiset(rest) + multiset{gs[i]}
  {
    var n, rest := |gs| - 1, gs[..i] + gs[i + 1..];
    assert gs == gs[..i] + [gs[i]] + gs[i + 1..];
    if i == n {
      assert rest == gs[..n];
    } else {
      WithoutOne(gs[..n], i);
      assert rest[..n - 1] == gs[..n][..i] + gs[..n][i + 1..] && rest[n - 1] == gs[n];
    }
  }

  /** The score does not depend on the order of the rules. */
  lemma {:induction false} SumsIgnoreOrder(a: seq<Graded>, b: seq<Graded>)
    requires multiset(a) == multiset(b)
    ensures Total(a) == Total(b) && WeightSum(a) == WeightSum(b)
    decreases |a|
  {
    if a == [] {
      assert |multiset(b)| == 0;
    } else {
      var p, q := Peeled(a, b);
      hide Total, WeightSum;
      SumsIgnoreOrder(p, q);
    }
  }

  /** Both sequences without one grade that they share. */
  lemma Peeled(a: seq<Graded>, b: seq<Graded>) returns (p: seq<Graded>, q: seq<Graded>)
    requires multiset(a) == multiset(b) && a != []
    ensures |p| < |a| && multiset(p) == multiset(q)
    ensures Total(a) - Total(p) == Total(b) - Total(q) && WeightSum(a) - WeightSum(p) == WeightSum(b) - WeightSum(q)
  {
    var i := Somewhere(a[0], b, multiset(a));
    WithoutOne(a, 0);
    WithoutOne(b, i);
    TakeOut(a, 0);
    TakeOut(b, i);
    p, q := a[..0] + a[1..], b[..i] + b[i + 1..];
  }

  lemma Somewhere(g: Graded, b: seq<Graded>, m: multiset<Graded>) returns (i: nat)
    requires m == multiset(b) && g in m
    ensures i < |b| && b[i] == g
  {
    i :| 0 <= i < |b| && b[i] == g;
  }

  lemma TakeOut(s: seq<Graded>, i: nat)
    requires i < |s|
    ensures multiset(s[..i] + s[i + 1..]) == multiset(s) - multiset{s[i]}
  {
    assert s == s[..i] + [s[i]] + s[i + 1..];
  }

  lemma ScoreIgnoresOrder(a: seq<Graded>, b: seq<Graded>)
    requires multiset(a) == multiset(b)
    ensures TechnicalScore(a) == TechnicalScore(b)
  {
    SumsIgnoreOrder(a, b);
  }

  /** Raising the score of one rule, as when it passes instead of failing, never lowers the whole. */
  lemma PassingNeverHurts(gs: seq<Graded>, i: nat, better: int)
    requires i < |gs| && gs[i].score <= better
    ensures TechnicalScore(gs).Some? && TechnicalScore(gs[i := gs[i].(score := better)]).Some?
    ensures TechnicalScore(gs).value <= TechnicalScore(gs[i := gs[i].(score := better)]).value
  {
    var up := gs[i := gs[i].(score := better)];
    WithoutOne(gs, i);
    WithoutOne(up, i);
    assert up[..i] + up[i + 1..] == gs[..i] + gs[i + 1..];
    assert Weight(gs[i].severity) * gs[i].score <= Weight(gs[i].severity) * better;
    WeightIsPositive(gs);
    RoundingIsMonotone(Total(gs), Total(up), WeightSum(gs));
  }
}
