/** The equity-curve backtest over the event log (services/analytics/analytics/backtest.py). */
module Backtest {
  import opened Rounding
  import opened Grouping
  import opened Events
  import opened LeaderLaws
  import opened Drawdown

  datatype BacktestResult = BacktestResult(exits: nat, totalRealizedUsd: real, peakEquityUsd: real,
                                           maxDrawdownUsd: real)

  lemma NoAmounts(events: seq<Event>)
    ensures ExitAmounts(events[..0]) == [] && Fold(ExitAmounts(events[..0])) == Curve(0.0, 0.0, 0.0)
  {
  }

  lemma AmountsGrow(events: seq<Event>, i: nat)
    requires i < |events|
    ensures ExitAmounts(events[..i + 1]) ==
      if IsExit(events[i]) then ExitAmounts(events[..i]) + [events[i].realized.x] else ExitAmounts(events[..i])
  {
    assert events[..i + 1] == events[..i] + [events[i]];
    FlatMapSnoc(events[..i], events[i], ExitAmount());
    assert ExitAmounts(events[..i]) + [] == ExitAmounts(events[..i]);
  }

  /** One pass over the log gives the rounded total, highest equity and largest fall of its realised
      amounts, as `Drawdown` defines them over the whole curve. */
  method RunBacktest(events: seq<Event>) returns (r: BacktestResult)
    ensures var xs := ExitAmounts(events);
      && r.exits == |xs|
      && r.totalRealizedUsd == Round2(Final(xs))
      && IsPeak(xs, Fold(xs).peak) && r.peakEquityUsd == Round2(Fold(xs).peak)
      && IsMaxDrawdown(xs, Fold(xs).maxDd) && r.maxDrawdownUsd == Round2(Fold(xs).maxDd)
    ensures var xs := ExitAmounts(events);
      && ToCents(r.totalRealizedUsd, Final(xs)) && ToCents(r.peakEquityUsd, Fold(xs).peak)
      && ToCents(r.maxDrawdownUsd, Fold(xs).maxDd)
  {
    hide ToCents, ToThousandths, ToTenThousandths, IsPeak, IsMaxDrawdown, Round2, Final, ExitAmounts, Fold;
    NoAmounts(events);
    var equity, peak, maxDd, exits := 0.0, 0.0, 0.0, 0;
    for i := 0 to |events|
      invariant exits == |ExitAmounts(events[..i])|
      invariant Curve(equity, peak, maxDd) == Fold(ExitAmounts(events[..i]))
    {
      ghost var xs := ExitAmounts(events[..i]);
      AmountsGrow(events, i);
      var ev := events[i];
      if ev.kind !in EXIT_KINDS {
        continue;
      }
      var realized := Num(ev.realized);
      if realized.None? {
        continue;
      }
      FoldSnoc(xs, realized.value);
      exits := exits + 1;
      equity := equity + realized.value;
      peak := Max(peak, equity);
      maxDd := Max(maxDd, peak - equity);
    }
    assert events[..|events|] == events;
    FoldIs(ExitAmounts(events));
    RoundsAre(equity);
    RoundsAre(peak);
    RoundsAre(maxDd);
    return BacktestResult(exits, Round2(equity), Round2(peak), Round2(maxDd));
  }
}
