/** The drawdown folds: the analytics backtest (services/analytics/analytics/backtest.py) and the
    operator UI's equity curve (apps/operator-ui/src/pages/AnalyticsReports.jsx). */
module Drawdown {
  import opened Rounding

  // ---------- definitions over the whole curve ----------

  /** The equity after the first `i` amounts, left to right. */
  function Equity(xs: seq<real>, i: nat): real
    requires i <= |xs|
  {
    if i == 0 then 0.0 else Equity(xs, i - 1) + xs[i - 1]
  }

  function Final(xs: seq<real>): real {
    Equity(xs, |xs|)
  }

  /** `p` is the highest equity, the opening zero included. */
  ghost predicate IsPeak(xs: seq<real>, p: real) {
    && (exists i :: 0 <= i <= |xs| && Equity(xs, i) == p)
    && forall i :: 0 <= i <= |xs| ==> Equity(xs, i) <= p
  }

  /** `t` is the lowest equity, the opening zero included. */
  ghost predicate IsTrough(xs: seq<real>, t: real) {
    && (exists i :: 0 <= i <= |xs| && Equity(xs, i) == t)
    && forall i :: 0 <= i <= |xs| ==> t <= Equity(xs, i)
  }

  /** `d` is the largest fall from an earlier equity to a later one. */
  ghost predicate IsMaxDrawdown(xs: seq<real>, d: real) {
    && (exists i, j :: 0 <= i <= j <= |xs| && Equity(xs, i) - Equity(xs, j) == d)
    && forall i, j :: 0 <= i <= j <= |xs| ==> Equity(xs, i) - Equity(xs, j) <= d
  }

  // ---------- one pass ----------

  function Max(a: real, b: real): real {
    if b > a then b else a
  }

  function Min(a: real, b: real): real {
    if b < a then b else a
  }

  /** What the backtest loop carries. */
  datatype Curve = Curve(equity: real, peak: real, maxDd: real)

  function Step(c: Curve, x: real): Curve {
    var equity := c.equity + x;
    var peak := Max(c.peak, equity);
    Curve(equity, peak, Max(c.maxDd, peak - equity))
  }

  function Fold(xs: seq<real>): Curve {
    if xs == [] then Curve(0.0, 0.0, 0.0) else Step(Fold(xs[..|xs| - 1]), xs[|xs| - 1])
  }

  lemma {:induction false} EquityPrefix(xs: seq<real>, n: nat, i: nat)
    requires i <= n <= |xs|
    ensures Equity(xs[..n], i) == Equity(xs, i)
  {
    if i > 0 {
      EquityPrefix(xs, n, i - 1);
    }
  }

  lemma PrefixEquities(xs: seq<real>)
    requires xs != []
    ensures forall i :: 0 <= i < |xs| ==> Equity(xs[..|xs| - 1], i) == Equity(xs, i)
  {
    forall i | 0 <= i < |xs| ensures Equity(xs[..|xs| - 1], i) == Equity(xs, i) {
      EquityPrefix(xs, |xs| - 1, i);
    }
  }

  lemma PeakStep(xs: seq<real>, p: real)
    requires xs != [] && IsPeak(xs[..|xs| - 1], p)
    ensures IsPeak(xs, Max(p, Final(xs)))
  {
    var n := |xs| - 1;
    PrefixEquities(xs);
    var k :| 0 <= k <= n && Equity(xs[..n], k) == p;
    assert Equity(xs, k) == p && Equity(xs, |xs|) == Final(xs);
    forall i | 0 <= i <= n ensures Equity(xs, i) <= p {
      assert Equity(xs[..n], i) <= p;
    }
  }

  lemma DrawdownBound(xs: seq<real>, p: real, d: real, a: nat, b: nat)
    requires xs != [] && IsPeak(xs[..|xs| - 1], p) && IsMaxDrawdown(xs[..|xs| - 1], d)
    requires a <= b <= |xs|
    ensures Equity(xs, a) - Equity(xs, b) <= Max(d, Max(p, Final(xs)) - Final(xs))
  {
    var n := |xs| - 1;
    PrefixEquities(xs);
    if b <= n {
      assert Equity(xs[..n], a) - Equity(xs[..n], b) <= d;
    } else if a <= n {
      assert Equity(xs[..n], a) <= p;
    }
  }

  lemma DrawdownStep(xs: seq<real>, p: real, d: real)
    requires xs != [] && IsPeak(xs[..|xs| - 1], p) && IsMaxDrawdown(xs[..|xs| - 1], d)
    ensures IsMaxDrawdown(xs, Max(d, Max(p, Final(xs)) - Final(xs)))
  {
    var n, e := |xs| - 1, Final(xs);
    PrefixEquities(xs);
    var k :| 0 <= k <= n && Equity(xs[..n], k) == p;
    var i, j :| 0 <= i <= j <= n && Equity(xs[..n], i) - Equity(xs[..n], j) == d;
    assert Equity(xs, k) - Equity(xs, |xs|) == p - e && Equity(xs, |xs|) - Equity(xs, |xs|) == 0.0;
    assert Equity(xs, i) - Equity(xs, j) == d;
    forall a, b | 0 <= a <= b <= |xs|
      ensures Equity(xs, a) - Equity(xs, b) <= Max(d, Max(p, e) - e)
    {
      DrawdownBound(xs, p, d, a, b);
    }
  }

  /** The one-pass fold computes the definitions: total, highest equity and largest fall. */
  lemma {:induction false} FoldIs(xs: seq<real>)
    ensures Fold(xs).equity == Final(xs)
    ensures IsPeak(xs, Fold(xs).peak)
    ensures IsMaxDrawdown(xs, Fold(xs).maxDd)
  {
    hide Equity, Final, IsPeak, IsMaxDrawdown, Max;
    if xs == [] {
      NothingFolds();
    } else {
      var init := xs[..|xs| - 1];
      FoldIs(init);
      FinalStep(xs);
      PeakStep(xs, Fold(init).peak);
      DrawdownStep(xs, Fold(init).peak, Fold(init).maxDd);
    }
  }

  lemma NothingFolds()
    ensures Final([]) == 0.0 && IsPeak([], 0.0) && IsMaxDrawdown([], 0.0)
  {
    var none: seq<real> := [];
    assert Equity(none, 0) == 0.0 && Equity(none, 0) - Equity(none, 0) == 0.0;
  }

  lemma FinalStep(xs: seq<real>)
    requires xs != []
    ensures Final(xs) == Final(xs[..|xs| - 1]) + xs[|xs| - 1]
  {
    EquityPrefix(xs, |xs| - 1, |xs| - 1);
  }

  lemma FoldSnoc(xs: seq<real>, x: real)
    ensures Fold(xs + [x]) == Step(Fold(xs), x)
    ensures Final(xs + [x]) == Final(xs) + x && Fold(xs).equity == Final(xs)
  {
    assert (xs + [x])[..|xs|] == xs;
    EquityPrefix(xs + [x], |xs|, |xs|);
    FoldIs(xs);
  }

  // ---------- the curve of two periods ----------

  function Trough(xs: seq<real>): real {
    if xs == [] then 0.0 else Min(Trough(xs[..|xs| - 1]), Final(xs))
  }

  lemma {:induction false} TroughIs(xs: seq<real>)
    ensures IsTrough(xs, Trough(xs))
  {
    if xs == [] {
      assert Equity(xs, 0) == 0.0;
    } else {
      var n := |xs| - 1;
      TroughIs(xs[..n]);
      forall i | 0 <= i <= n ensures Equity(xs[..n], i) == Equity(xs, i) {
        EquityPrefix(xs, n, i);
      }
      assert Equity(xs, n + 1) == Final(xs);
      var k :| 0 <= k <= n && Equity(xs[..n], k) == Trough(xs[..n]);
      assert Equity(xs, k) == Trough(xs[..n]);
    }
  }

  /** A period's curve in four numbers. */
  datatype Summary = Summary(total: real, peak: real, trough: real, maxDd: real) {
    function Then(next: Summary): Summary {
      Summary(total + next.total,
              Max(peak, total + next.peak),
              Min(trough, total + next.trough),
              Max(Max(maxDd, next.maxDd), peak - (total + next.trough)))
    }
  }

  function Summarise(xs: seq<real>): Summary {
    Summary(Final(xs), Fold(xs).peak, Trough(xs), Fold(xs).maxDd)
  }

  lemma SummaryBounds(xs: seq<real>)
    ensures var s := Summarise(xs);
      s.trough <= 0.0 <= s.peak && s.trough <= s.total <= s.peak && s.peak - s.total <= s.maxDd && 0.0 <= s.maxDd
  {
    FoldIs(xs);
    TroughIs(xs);
    assert Equity(xs, 0) == 0.0 && Equity(xs, |xs|) - Equity(xs, |xs|) == 0.0;
    var i :| 0 <= i <= |xs| && Equity(xs, i) == Fold(xs).peak;
    assert Equity(xs, i) - Equity(xs, |xs|) <= Fold(xs).maxDd;
  }

  function One(x: real): Summary {
    Summary(x, Max(0.0, x), Min(0.0, x), Max(0.0, 0.0 - x))
  }

  lemma SummarySnoc(xs: seq<real>, x: real)
    ensures Summarise(xs + [x]) == Summarise(xs).Then(One(x))
    ensures Final(xs + [x]) == Final(xs) + x
  {
    assert (xs + [x])[..|xs|] == xs;
    FoldSnoc(xs, x);
    SummaryBounds(xs);
  }

  lemma ThenAssociative(a: Summary, b: Summary, c: Summary)
    ensures a.Then(b).Then(c) == a.Then(b.Then(c))
  {
  }

  /** Two periods end to end: the summary of the whole follows from the two summaries alone, so a
      long history can be reported period by period. */
  lemma {:induction false} SummaryConcat(xs: seq<real>, ys: seq<real>)
    ensures Summarise(xs + ys) == Summarise(xs).Then(Summarise(ys))
  {
    if ys == [] {
      assert xs + ys == xs;
      SummaryBounds(xs);
    } else {
      var init, y := ys[..|ys| - 1], ys[|ys| - 1];
      assert ys == init + [y] && xs + ys == (xs + init) + [y];
      SummaryConcat(xs, init);
      SummarySnoc(xs + init, y);
      SummarySnoc(init, y);
      ThenAssociative(Summarise(xs), Summarise(init), One(y));
    }
  }

  // ---------- the operator UI ----------

  function Points(xs: seq<real>): seq<real> {
    seq(|xs| + 1, i requires 0 <= i <= |xs| => if i == 0 then 0.0 else JsRound2(Equity(xs, i)))
  }

  function UiPeak(pts: seq<real>): real {
    if pts == [] then 0.0 else Max(UiPeak(pts[..|pts| - 1]), pts[|pts| - 1])
  }

  function UiMaxDd(pts: seq<real>): real {
    if pts == [] then 0.0 else Max(UiMaxDd(pts[..|pts| - 1]), UiPeak(pts) - pts[|pts| - 1])
  }

  /** Lines 61 to 65: the rounded curve, starting at zero. */
  method EquityPoints(xs: seq<real>) returns (pts: seq<real>)
    ensures pts == Points(xs)
  {
    var acc := 0.0;
    pts := [0.0];
    for i := 0 to |xs|
      invariant acc == Equity(xs, i)
      invariant |pts| == i + 1
      invariant forall k :: 0 <= k <= i ==> pts[k] == Points(xs)[k]
    {
      acc := acc + xs[i];
      pts := pts + [JsRound2(acc)];
    }
  }

  /** Lines 74 and 75: one loop over the points. */
  method UiDrawdown(equity: seq<real>) returns (peak: real, maxDD: real)
    ensures peak == UiPeak(equity) && maxDD == UiMaxDd(equity)
  {
    peak, maxDD := 0.0, 0.0;
    for i := 0 to |equity|
      invariant peak == UiPeak(equity[..i]) && maxDD == UiMaxDd(equity[..i])
    {
      assert equity[..i + 1][..i] == equity[..i];
      var v := equity[i];
      if v > peak {
        peak := v;
      }
      var dd := peak - v;
      if dd > maxDD {
        maxDD := dd;
      }
    }
    assert equity[..|equity|] == equity;
  }

  lemma PointsSnoc(xs: seq<real>, x: real)
    ensures Points(xs + [x]) == Points(xs) + [JsRound2(Final(xs + [x]))]
  {
    forall i | 0 <= i <= |xs| ensures Equity(xs + [x], i) == Equity(xs, i) {
      EquityPrefix(xs + [x], |xs|, i);
      assert (xs + [x])[..|xs|] == xs;
    }
  }

  lemma UiPointsSnoc(pts: seq<real>, v: real)
    ensures UiPeak(pts + [v]) == Max(UiPeak(pts), v)
    ensures UiMaxDd(pts + [v]) == Max(UiMaxDd(pts), Max(UiPeak(pts), v) - v)
  {
    assert (pts + [v])[..|pts|] == pts;
  }

  /** One more amount moves both reports by one step. */
  lemma UiSnoc(init: seq<real>, x: real)
    ensures var pts, v, e, c := Points(init), JsRound2(Final(init + [x])), Final(init + [x]), Fold(init);
      && UiPeak(Points(init + [x])) == Max(UiPeak(pts), v)
      && UiMaxDd(Points(init + [x])) == Max(UiMaxDd(pts), Max(UiPeak(pts), v) - v)
      && e == Final(init) + x
      && Fold(init + [x]).peak == Max(c.peak, e)
      && Fold(init + [x]).maxDd == Max(c.maxDd, Max(c.peak, e) - e)
  {
    PointsSnoc(init, x);
    UiPointsSnoc(Points(init), JsRound2(Final(init + [x])));
    FoldSnoc(init, x);
  }

  lemma UiNothing()
    ensures UiPeak(Points([])) == 0.0 && UiMaxDd(Points([])) == 0.0
  {
    assert Points([]) == [0.0] && Points([])[..0] == [];
  }

  predicate Near(a: real, b: real, margin: real) {
    -margin <= a - b <= margin
  }

  lemma UiNearStep(init: seq<real>, x: real)
    requires Near(UiPeak(Points(init)), Fold(init).peak, 0.005) && Near(UiMaxDd(Points(init)), Fold(init).maxDd, 0.01)
    ensures Near(UiPeak(Points(init + [x])), Fold(init + [x]).peak, 0.005)
    ensures Near(UiMaxDd(Points(init + [x])), Fold(init + [x]).maxDd, 0.01)
  {
    hide Points, UiPeak, UiMaxDd, Fold, Final, JsRound2;
    UiSnoc(init, x);
    JsRound2Near(Final(init + [x]));
  }

  /** The two reports agree: for any amounts the UI, which rounds every point, shows a peak within
      half a cent of the backtest's and a drawdown within one cent. */
  lemma {:induction false} UiIsNear(xs: seq<real>)
    ensures Near(UiPeak(Points(xs)), Fold(xs).peak, 0.005)
    ensures Near(UiMaxDd(Points(xs)), Fold(xs).maxDd, 0.01)
  {
    if xs == [] {
      UiNothing();
    } else {
      var init, x := xs[..|xs| - 1], xs[|xs| - 1];
      UiIsNear(init);
      UiNearStep(init, x);
      assert xs == init + [x];
    }
  }

  lemma {:induction false} CentsFinal(xs: seq<real>)
    requires forall i :: 0 <= i < |xs| ==> WholeCents(xs[i])
    ensures WholeCents(Final(xs))
  {
    if xs != [] {
      var init, x := xs[..|xs| - 1], xs[|xs| - 1];
      assert xs == init + [x];
      CentsFinal(init);
      FoldSnoc(init, x);
      WholeCentsSum(Final(init), x);
    }
  }

  lemma UiExactStep(init: seq<real>, x: real)
    requires UiPeak(Points(init)) == Fold(init).peak && UiMaxDd(Points(init)) == Fold(init).maxDd
    requires WholeCents(Final(init + [x]))
    ensures UiPeak(Points(init + [x])) == Fold(init + [x]).peak && UiMaxDd(Points(init + [x])) == Fold(init + [x]).maxDd
  {
    hide Points, UiPeak, UiMaxDd, Fold, Final, JsRound2;
    UiSnoc(init, x);
    JsRound2Near(Final(init + [x]));
  }

  /** Over whole cents the two reports are equal. */
  lemma {:induction false} UiIsExactOnCents(xs: seq<real>)
    requires forall i :: 0 <= i < |xs| ==> WholeCents(xs[i])
    ensures UiPeak(Points(xs)) == Fold(xs).peak && UiMaxDd(Points(xs)) == Fold(xs).maxDd
  {
    if xs == [] {
      UiNothing();
    } else {
      var init, x := xs[..|xs| - 1], xs[|xs| - 1];
      UiIsExactOnCents(init);
      CentsFinal(xs);
      assert xs == init + [x];
      UiExactStep(init, x);
    }
  }
}
