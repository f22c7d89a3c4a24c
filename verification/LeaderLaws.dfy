/** Laws of the leader reports: conservation, order, chunking and windows. */
module LeaderLaws {
  import opened Wrappers
  import opened Rounding
  import opened Grouping
  import opened Events
  import opened Leaders
  import Drawdown

  // ---------- conservation ----------

  /** The sum of all amounts filed. */
  function Grand(items: seq<(string, Chunk)>): real {
    if items == [] then 0.0 else Grand(items[..|items| - 1]) + items[|items| - 1].1.amount
  }

  lemma GrandSnoc(items: seq<(string, Chunk)>, item: (string, Chunk))
    ensures Grand(items + [item]) == Grand(items) + item.1.amount
  {
    assert (items + [item])[..|items|] == items;
  }

  lemma {:induction false} GrandUpdate(items: seq<(string, Chunk)>, j: nat, item: (string, Chunk))
    requires j < |items|
    ensures Grand(items[j := item]) == Grand(items) - items[j].1.amount + item.1.amount
  {
    var n := |items| - 1;
    if j < n {
      GrandUpdate(items[..n], j, item);
      assert items[j := item][..n] == items[..n][j := item];
    } else {
      assert items[j := item][..n] == items[..n];
    }
  }

  /** Filing one more item changes the sum of the netted groups by the item's amount. */
  lemma GrandGroupedSnoc(init: seq<(string, Chunk)>, k: string, c: Chunk)
    ensures Grand(Grouped(init + [(k, c)], Net())) == Grand(Grouped(init, Net())) + c.amount
  {
    GroupedSnoc(init, k, c, Net());
    var g, g' := Grouped(init, Net()), Grouped(init + [(k, c)], Net());
    if k !in Keys(init) {
      NetNothing();
      NetSnoc([], c);
      assert [] + [c] == [c];
      GrandSnoc(g, (k, Net()(k, [c])));
    } else {
      var next := (k, Net()(k, Values(init, k) + [c]));
      var j :| 0 <= j < |g| && Keys(init)[j] == k && g' == g[j := next];
      NetSnoc(Values(init, k), c);
      GrandUpdate(g, j, next);
    }
  }

  /** Netting the groups loses nothing. */
  lemma {:induction false} GrandGrouped(items: seq<(string, Chunk)>)
    ensures Grand(Grouped(items, Net())) == Grand(items)
  {
    if items != [] {
      var init := items[..|items| - 1];
      var (k, c) := items[|items| - 1];
      GrandGrouped(init);
      GrandGroupedSnoc(init, k, c);
      assert items == init + [(k, c)];
    }
  }

  lemma {:induction false} GrandWithLeader(positions: seq<(string, Chunk)>, leaders: map<string, string>)
    ensures Grand(FlatMap(positions, WithLeader(leaders))) == Grand(positions)
  {
    if positions != [] {
      var init, p := positions[..|positions| - 1], positions[|positions| - 1];
      GrandWithLeader(init, leaders);
      GrandSnoc(FlatMap(init, WithLeader(leaders)), (LeaderIn(leaders, p.0), p.1));
    }
  }

  function ExitAmount(): Event -> seq<real> {
    (ev: Event) => if IsExit(ev) then [ev.realized.x] else []
  }

  /** Every realised amount in the log, with or without a known leader: the backtest's input. */
  function ExitAmounts(events: seq<Event>): seq<real> {
    FlatMap(events, ExitAmount())
  }

  function OrphanAmount(leaders: map<string, string>): Event -> seq<real> {
    (ev: Event) => if IsExit(ev) && ev.positionId !in leaders then [ev.realized.x] else []
  }

  /** The amounts of exits whose position has no known leader. */
  function Orphans(events: seq<Event>): seq<real> {
    FlatMap(events, OrphanAmount(PosLeader(events)))
  }

  lemma {:induction false} FinalIsSum(xs: seq<real>)
    ensures Drawdown.Final(xs) == Sum(xs)
  {
    if xs != [] {
      var n := |xs| - 1;
      FinalIsSum(xs[..n]);
      Drawdown.EquityPrefix(xs, n, n);
    }
  }

  lemma {:induction false} SumConcat(s: seq<real>, t: seq<real>)
    ensures Sum(s + t) == Sum(s) + Sum(t)
  {
    if t == [] {
      assert s + t == s;
    } else {
      assert s + t == (s + t[..|t| - 1]) + [t[|t| - 1]];
      SumConcat(s, t[..|t| - 1]);
      SumSnoc(s + t[..|t| - 1], t[|t| - 1]);
    }
  }

  lemma {:induction false} GrandConcat(s: seq<(string, Chunk)>, t: seq<(string, Chunk)>)
    ensures Grand(s + t) == Grand(s) + Grand(t)
  {
    if t == [] {
      assert s + t == s;
    } else {
      assert s + t == (s + t[..|t| - 1]) + [t[|t| - 1]];
      GrandConcat(s, t[..|t| - 1]);
      GrandSnoc(s + t[..|t| - 1], t[|t| - 1]);
    }
  }

  lemma ExitSplits(ev: Event, leaders: map<string, string>)
    ensures Sum(ExitAmount()(ev)) == Grand(Join(leaders, None)(ev)) + Sum(OrphanAmount(leaders)(ev))
  {
    if IsExit(ev) {
      SumSnoc([], ev.realized.x);
      GrandSnoc([], (ev.positionId, Chunk(ev.realized.x, ev.ts)));
      assert [] + [ev.realized.x] == [ev.realized.x];
    }
  }

  lemma {:induction false} ExitsSplit(events: seq<Event>, leaders: map<string, string>)
    ensures Sum(FlatMap(events, ExitAmount())) ==
      Grand(FlatMap(events, Join(leaders, None))) + Sum(FlatMap(events, OrphanAmount(leaders)))
  {
    if events != [] {
      var init, ev := events[..|events| - 1], events[|events| - 1];
      ExitsSplit(init, leaders);
      ExitSplits(ev, leaders);
      SumConcat(FlatMap(init, ExitAmount()), ExitAmount()(ev));
      GrandConcat(FlatMap(init, Join(leaders, None)), Join(leaders, None)(ev));
      SumConcat(FlatMap(init, OrphanAmount(leaders)), OrphanAmount(leaders)(ev));
    }
  }

  /** Each report row rounds the leader's netted total. */
  lemma RowsRoundTotals(items: seq<(string, Chunk)>)
    ensures var totals, rows := Grouped(items, Net()), Grouped(items, MetricsOf());
      && |rows| == |totals|
      && forall i :: 0 <= i < |rows| ==>
           && rows[i].1.leaderAddress == totals[i].0 && rows[i].1.totalRealizedUsd == Round2(totals[i].1.amount)
           && ToCents(rows[i].1.totalRealizedUsd, totals[i].1.amount)
  {
    var totals, rows := Grouped(items, Net()), Grouped(items, MetricsOf());
    forall i | 0 <= i < |rows|
      ensures rows[i].1.leaderAddress == totals[i].0 && rows[i].1.totalRealizedUsd == Round2(totals[i].1.amount)
      ensures ToCents(rows[i].1.totalRealizedUsd, totals[i].1.amount)
    {
      RoundsAre(totals[i].1.amount);
      var k := Keys(items)[i];
      assert rows[i].1 == MetricsRow(k, Amounts(Values(items, k)), Latest(Values(items, k)));
      assert totals[i].1 == Net()(k, Values(items, k));
    }
  }

  /** Conservation across the three reports: the leaders' unrounded totals (those `RowsRoundTotals`
      ties to the report rows) plus the exits without a leader make up the backtest's unrounded total. */
  lemma Conservation(events: seq<Event>)
    ensures Grand(Grouped(ByLeader(events, None), Net())) + Sum(Orphans(events)) == Drawdown.Final(ExitAmounts(events))
  {
    ExitsSplit(events, PosLeader(events));
    FinalIsSum(ExitAmounts(events));
    GrandGrouped(Joined(events, None));
    GrandWithLeader(Positions(events, None), PosLeader(events));
    GrandGrouped(ByLeader(events, None));
  }

  // ---------- the order of exits ----------

  function IfEntry(): Event -> seq<Event> {
    (ev: Event) => if NamesLeader(ev) then [ev] else []
  }

  function IfExit(): Event -> seq<Event> {
    (ev: Event) => if IsExit(ev) then [ev] else []
  }

  lemma PosLeaderSnoc(events: seq<Event>, ev: Event)
    ensures PosLeader(events + [ev]) ==
      if NamesLeader(ev) then PosLeader(events)[ev.positionId := LeaderOf(ev)] else PosLeader(events)
  {
    assert (events + [ev])[..|events|] == events;
  }

  /** The join looks at the entries and, apart from them, at the exits. */
  lemma {:induction false} JoinReads(events: seq<Event>, leaders: map<string, string>, cutoff: Option<int>)
    ensures PosLeader(events) == PosLeader(FlatMap(events, IfEntry()))
    ensures FlatMap(events, Join(leaders, cutoff)) == FlatMap(FlatMap(events, IfExit()), Join(leaders, cutoff))
  {
    if events != [] {
      var init, ev := events[..|events| - 1], events[|events| - 1];
      JoinReads(init, leaders, cutoff);
      var entries, exits := FlatMap(init, IfEntry()), FlatMap(init, IfExit());
      if NamesLeader(ev) {
        PosLeaderSnoc(entries, ev);
      } else {
        assert entries + [] == entries;
      }
      if IsExit(ev) {
        FlatMapSnoc(exits, ev, Join(leaders, cutoff));
      } else {
        assert exits + [] == exits;
        assert FlatMap(init, Join(leaders, cutoff)) + [] == FlatMap(init, Join(leaders, cutoff));
      }
    }
  }

  lemma {:induction false} SumPerm(s: seq<real>, t: seq<real>)
    requires Perm(s, t)
    ensures Sum(s) == Sum(t)
  {
    if s == [] {
      EmptyPerm(s, t);
    } else {
      var i := PermSplit(s, t);
      SumPerm(s[..|s| - 1], t[..i] + t[i + 1..]);
      SumConcat(t[..i], t[i + 1..]);
      SumConcat(t[..i] + [t[i]], t[i + 1..]);
      SumSnoc(t[..i], t[i]);
    }
  }

  lemma PermMember<A>(s: seq<A>, t: seq<A>, x: A)
    requires Perm(s, t)
    ensures x in s <==> x in t
    ensures |s| == |t|
  {
    assert x in s <==> x in multiset(s);
    assert x in t <==> x in multiset(t);
    assert |multiset(s)| == |s| && |multiset(t)| == |t|;
  }

  lemma {:induction false} LatestIs(cs: seq<Chunk>)
    ensures Latest(cs).None? ==> forall c :: c in cs ==> c.ts.None?
    ensures Latest(cs).Some? ==> exists c :: c in cs && c.ts == Latest(cs)
    ensures Latest(cs).Some? ==> forall c :: c in cs && c.ts.Some? ==> c.ts.value <= Latest(cs).value
  {
    if cs != [] {
      LatestIs(cs[..|cs| - 1]);
      assert cs == cs[..|cs| - 1] + [cs[|cs| - 1]];
    }
  }

  lemma {:induction false} BestIs(rs: seq<real>)
    requires rs != []
    ensures Best(rs) in rs && forall r :: r in rs ==> r <= Best(rs)
    ensures Worst(rs) in rs && forall r :: r in rs ==> Worst(rs) <= r
  {
    if |rs| > 1 {
      BestIs(rs[..|rs| - 1]);
      assert rs == rs[..|rs| - 1] + [rs[|rs| - 1]];
    }
  }

  lemma LatestBlind(s: seq<Chunk>, t: seq<Chunk>)
    requires Perm(s, t)
    ensures Latest(s) == Latest(t)
  {
    LatestIs(s);
    LatestIs(t);
    forall c ensures c in s <==> c in t {
      PermMember(s, t, c);
    }
  }

  lemma NetBlind(s: seq<Chunk>, t: seq<Chunk>)
    requires Perm(s, t)
    ensures Perm(Amounts(s), Amounts(t)) && Sum(Amounts(s)) == Sum(Amounts(t)) && Latest(s) == Latest(t)
  {
    FlatMapPerm(s, t, AmountOf());
    SumPerm(Amounts(s), Amounts(t));
    LatestBlind(s, t);
  }

  lemma ExtremesBlind(s: seq<real>, t: seq<real>)
    requires Perm(s, t)
    ensures Best(s) == Best(t) && Worst(s) == Worst(t)
  {
    if s == [] {
      EmptyPerm(s, t);
    } else {
      PermMember(s, t, s[0]);
      BestIs(s);
      BestIs(t);
      PermMember(s, t, Best(s));
      PermMember(s, t, Best(t));
      PermMember(s, t, Worst(s));
      PermMember(s, t, Worst(t));
    }
  }

  lemma RowBlind(leader: string, s: seq<real>, t: seq<real>, last: Option<int>)
    requires Perm(s, t)
    ensures MetricsRow(leader, s, last) == MetricsRow(leader, t, last)
  {
    SumPerm(s, t);
    ExtremesBlind(s, t);
    FlatMapPerm(s, t, Positive());
    FlatMapPerm(s, t, Negative());
    SumPerm(FlatMap(s, Positive()), FlatMap(t, Positive()));
    SumPerm(FlatMap(s, Negative()), FlatMap(t, Negative()));
    PermMember(s, t, 0.0);
    PermMember(FlatMap(s, Positive()), FlatMap(t, Positive()), 0.0);
    PermMember(FlatMap(s, Negative()), FlatMap(t, Negative()), 0.0);
  }

  lemma ReportsAreOrderBlind()
    ensures OrderBlind(Net()) && OrderBlind(MetricsOf())
  {
    forall k: string, s: seq<Chunk>, t: seq<Chunk> | Perm(s, t)
      ensures Net()(k, s) == Net()(k, t) && MetricsOf()(k, s) == MetricsOf()(k, t)
    {
      NetBlind(s, t);
      RowBlind(k, Amounts(s), Amounts(t), Latest(s));
    }
  }

  function Single<A, B>(p: A -> B): A -> seq<B> {
    (x: A) => [p(x)]
  }

  lemma {:induction false} MapIsFlatMap<A, B>(xs: seq<A>, p: A -> B)
    ensures Map(xs, p) == FlatMap(xs, Single(p))
  {
    if xs != [] {
      MapIsFlatMap(xs[..|xs| - 1], p);
      assert Map(xs, p) == Map(xs[..|xs| - 1], p) + [p(xs[|xs| - 1])];
    }
  }

  /** The rows before ranking, in order of each leader's first counted exit. */
  function Rows(events: seq<Event>, cutoff: Option<int>): seq<LeaderMetrics> {
    Map(Grouped(ByLeader(events, cutoff), MetricsOf()), Second())
  }

  /** Reordering exits, with the entries as they were, changes no leader's row: the reports are
      permutations of each other, so they can differ only in how equal scores are ordered. */
  lemma ExitOrderIsIrrelevant(a: seq<Event>, b: seq<Event>, cutoff: Option<int>)
    requires FlatMap(a, IfEntry()) == FlatMap(b, IfEntry())
    requires Perm(FlatMap(a, IfExit()), FlatMap(b, IfExit()))
    ensures Perm(Metrics(a, cutoff), Metrics(b, cutoff))
  {
    var leaders := PosLeader(a);
    JoinReads(a, leaders, cutoff);
    JoinReads(b, leaders, cutoff);
    FlatMapPerm(FlatMap(a, IfExit()), FlatMap(b, IfExit()), Join(leaders, cutoff));
    ReportsAreOrderBlind();
    GroupedPerm(Joined(a, cutoff), Joined(b, cutoff), Net());
    FlatMapPerm(Positions(a, cutoff), Positions(b, cutoff), WithLeader(leaders));
    var ga, gb := Grouped(ByLeader(a, cutoff), MetricsOf()), Grouped(ByLeader(b, cutoff), MetricsOf());
    GroupedPerm(ByLeader(a, cutoff), ByLeader(b, cutoff), MetricsOf());
    MapIsFlatMap(ga, Second());
    MapIsFlatMap(gb, Second());
    FlatMapPerm(ga, gb, Single(Second<string, LeaderMetrics>()));
    SortDescIs(Rows(a, cutoff), MetricsRank(), 0.0);
    SortDescIs(Rows(b, cutoff), MetricsRank(), 0.0);
  }

  /** The scoring script is as blind to the order of exits. */
  lemma ExitOrderIsIrrelevantToScores(a: seq<Event>, b: seq<Event>)
    requires FlatMap(a, IfEntry()) == FlatMap(b, IfEntry())
    requires Perm(FlatMap(a, IfExit()), FlatMap(b, IfExit()))
    ensures Perm(Scores(a), Scores(b))
  {
    ExitOrderIsIrrelevant(a, b, None);
    ReportsAgree(a);
    ReportsAgree(b);
    MapIsFlatMap(Metrics(a, None), AsScore());
    MapIsFlatMap(Metrics(b, None), AsScore());
    FlatMapPerm(Metrics(a, None), Metrics(b, None), Single(AsScore()));
  }

  // ---------- partial sells ----------

  lemma {:induction false} KeysMerge(a: seq<(string, Chunk)>, k: string, c1: Chunk, c2: Chunk, c: Chunk,
                                     b: seq<(string, Chunk)>)
    ensures Keys(a + [(k, c1), (k, c2)] + b) == Keys(a + [(k, c)] + b)
  {
    if b == [] {
      KeysSnoc(a, k, c1);
      KeysSnoc(a, k, c);
      KeysSnoc(a + [(k, c1)], k, c2);
      assert a + [(k, c1), (k, c2)] + b == a + [(k, c1)] + [(k, c2)] && a + [(k, c)] + b == a + [(k, c)];
    } else {
      var init := b[..|b| - 1];
      var (key, v) := b[|b| - 1];
      KeysMerge(a, k, c1, c2, c, init);
      assert a + [(k, c1), (k, c2)] + b == (a + [(k, c1), (k, c2)] + init) + [(key, v)];
      assert a + [(k, c)] + b == (a + [(k, c)] + init) + [(key, v)];
      KeysSnoc(a + [(k, c1), (k, c2)] + init, key, v);
      KeysSnoc(a + [(k, c)] + init, key, v);
    }
  }

  /** `c` is what `c1` and `c2`, sold at the same time, come to together. */
  predicate Merges(c1: Chunk, c2: Chunk, c: Chunk) {
    c1.amount + c2.amount == c.amount && c1.ts == c.ts && c2.ts == c.ts
  }

  lemma {:induction false} NetMerge(a: seq<Chunk>, c1: Chunk, c2: Chunk, c: Chunk, b: seq<Chunk>)
    requires Merges(c1, c2, c)
    ensures Sum(Amounts(a + [c1] + [c2] + b)) == Sum(Amounts(a + [c] + b))
    ensures Latest(a + [c1] + [c2] + b) == Latest(a + [c] + b)
  {
    if b == [] {
      NetSnoc(a, c);
      NetSnoc(a, c1);
      NetSnoc(a + [c1], c2);
      assert a + [c1] + [c2] + b == a + [c1] + [c2] && a + [c] + b == a + [c];
    } else {
      var init, v := b[..|b| - 1], b[|b| - 1];
      NetMerge(a, c1, c2, c, init);
      assert a + [c1] + [c2] + b == (a + [c1] + [c2] + init) + [v];
      assert a + [c] + b == (a + [c] + init) + [v];
      NetSnoc(a + [c1] + [c2] + init, v);
      NetSnoc(a + [c] + init, v);
    }
  }

  lemma ValuesMerge(a: seq<(string, Chunk)>, k: string, c1: Chunk, c2: Chunk, c: Chunk, b: seq<(string, Chunk)>,
                    key: string)
    requires Merges(c1, c2, c)
    ensures Net()(key, Values(a + [(k, c1), (k, c2)] + b, key)) == Net()(key, Values(a + [(k, c)] + b, key))
  {
    var at := ValueAt<string, Chunk>(key);
    var va, vb := Values(a, key), Values(b, key);
    FlatMapAround(a, [(k, c1), (k, c2)], b, at);
    FlatMapAround(a, [(k, c)], b, at);
    FlatMapOne((k, c), at);
    FlatMapTwo((k, c1), (k, c2), at);
    if key == k {
      NetMerge(va, c1, c2, c, vb);
      Assoc(va, [c1], [c2]);
      assert at((k, c)) == [c] && at((k, c1)) == [c1] && at((k, c2)) == [c2];
    } else {
      var none: seq<Chunk> := [];
      assert at((k, c)) == none && at((k, c1)) == none && at((k, c2)) == none && none + none == none;
    }
  }

  lemma PositionsMerge(a: seq<(string, Chunk)>, k: string, c1: Chunk, c2: Chunk, c: Chunk, b: seq<(string, Chunk)>)
    requires Merges(c1, c2, c)
    ensures Grouped(a + [(k, c1), (k, c2)] + b, Net()) == Grouped(a + [(k, c)] + b, Net())
  {
    KeysMerge(a, k, c1, c2, c, b);
    forall key ensures
      Net()(key, Values(a + [(k, c1), (k, c2)] + b, key)) == Net()(key, Values(a + [(k, c)] + b, key))
    {
      ValuesMerge(a, k, c1, c2, c, b, key);
    }
  }

  /** `e1` and `e2` are two partial sells that make up the exit `e`. */
  predicate Splits(e: Event, e1: Event, e2: Event) {
    && e.kind in EXIT_KINDS && e.realized.Number? && e1.realized.Number? && e2.realized.Number?
    && e1 == e.(realized := e1.realized) && e2 == e.(realized := e2.realized)
    && e1.realized.x + e2.realized.x == e.realized.x
  }

  /** Partial sells count as one trade: splitting an exit in two leaves the whole ranked report, with
      or without a window, exactly as it was. */
  lemma SplitExitIsOneTrade(before: seq<Event>, e: Event, after: seq<Event>, e1: Event, e2: Event, cutoff: Option<int>)
    requires Splits(e, e1, e2)
    ensures Metrics(before + [e1, e2] + after, cutoff) == Metrics(before + [e] + after, cutoff)
  {
    var whole, split := before + [e] + after, before + [e1, e2] + after;
    SplitSameLeaders(before, e, after, e1, e2);
    var leaders := PosLeader(whole);
    var join := Join(leaders, cutoff);
    FlatMapAround(before, [e], after, join);
    FlatMapAround(before, [e1, e2], after, join);
    FlatMapOne(e, join);
    FlatMapTwo(e1, e2, join);
    if Counts(leaders, cutoff, e) {
      var k := e.positionId;
      var c, c1, c2 := Chunk(e.realized.x, e.ts), Chunk(e1.realized.x, e.ts), Chunk(e2.realized.x, e.ts);
      assert FlatMap([e], join) == [(k, c)] && FlatMap([e1, e2], join) == [(k, c1), (k, c2)];
      PositionsMerge(FlatMap(before, join), k, c1, c2, c, FlatMap(after, join));
    } else {
      assert FlatMap([e], join) == [] && FlatMap([e1, e2], join) == [];
    }
    assert Positions(split, cutoff) == Positions(whole, cutoff);
  }

  /** And so does the scoring script. */
  lemma SplitExitIsOneTradeInScores(before: seq<Event>, e: Event, after: seq<Event>, e1: Event, e2: Event)
    requires Splits(e, e1, e2)
    ensures Scores(before + [e1, e2] + after) == Scores(before + [e] + after)
  {
    SplitExitIsOneTrade(before, e, after, e1, e2, None);
    ReportsAgree(before + [e1, e2] + after);
    ReportsAgree(before + [e] + after);
  }

  lemma WithoutEntries(before: seq<Event>, mid: seq<Event>, after: seq<Event>)
    requires FlatMap(mid, IfEntry()) == []
    ensures PosLeader(before + mid + after) == PosLeader(FlatMap(before, IfEntry()) + FlatMap(after, IfEntry()))
  {
    JoinReads(before + mid + after, map[], None);
    FlatMapAround(before, mid, after, IfEntry());
    assert FlatMap(before, IfEntry()) + [] == FlatMap(before, IfEntry());
  }

  lemma SplitSameLeaders(before: seq<Event>, e: Event, after: seq<Event>, e1: Event, e2: Event)
    requires Splits(e, e1, e2)
    ensures PosLeader(before + [e1, e2] + after) == PosLeader(before + [e] + after)
  {
    FlatMapOne(e, IfEntry());
    FlatMapTwo(e1, e2, IfEntry());
    WithoutEntries(before, [e], after);
    WithoutEntries(before, [e1, e2], after);
  }

  // ---------- windows ----------

  function KeepWindow(cutoff: Option<int>): Event -> seq<Event> {
    (ev: Event) => if ev.kind in EXIT_KINDS && !Recent(cutoff, ev.ts) then [] else [ev]
  }

  lemma KeptReads(kept: seq<Event>, ev: Event, leaders: map<string, string>, cutoff: Option<int>)
    ensures PosLeader(kept + KeepWindow(cutoff)(ev)) == PosLeader(kept + [ev])
    ensures FlatMap(kept + KeepWindow(cutoff)(ev), Join(leaders, None)) ==
      FlatMap(kept, Join(leaders, None)) + Join(leaders, cutoff)(ev)
  {
    PosLeaderSnoc(kept, ev);
    FlatMapSnoc(kept, ev, Join(leaders, None));
    var joined := FlatMap(kept, Join(leaders, None));
    if ev.kind in EXIT_KINDS && !Recent(cutoff, ev.ts) {
      assert KeepWindow(cutoff)(ev) == [] && kept + [] == kept;
      assert Join(leaders, cutoff)(ev) == [] && joined + [] == joined;
    } else {
      assert KeepWindow(cutoff)(ev) == [ev];
      assert Join(leaders, cutoff)(ev) == Join(leaders, None)(ev);
    }
  }

  lemma {:induction false} WindowReads(events: seq<Event>, leaders: map<string, string>, cutoff: Option<int>)
    ensures PosLeader(FlatMap(events, KeepWindow(cutoff))) == PosLeader(events)
    ensures FlatMap(FlatMap(events, KeepWindow(cutoff)), Join(leaders, None)) == FlatMap(events, Join(leaders, cutoff))
  {
    if events != [] {
      var init, ev := events[..|events| - 1], events[|events| - 1];
      WindowReads(init, leaders, cutoff);
      KeptReads(FlatMap(init, KeepWindow(cutoff)), ev, leaders, cutoff);
      PosLeaderSnoc(FlatMap(init, KeepWindow(cutoff)), ev);
    }
  }

  /** A window is a filter: the windowed report is the unwindowed report on the log without the exits
      that are too old or have no readable time; entries count however old they are. */
  lemma WindowIsFilter(events: seq<Event>, cutoff: Option<int>)
    ensures Metrics(events, cutoff) == Metrics(FlatMap(events, KeepWindow(cutoff)), None)
  {
    WindowReads(events, PosLeader(events), cutoff);
  }

  /** `wide` admits every exit that `narrow` admits. */
  predicate Wider(wide: Option<int>, narrow: Option<int>) {
    wide.Some? ==> narrow.Some? && wide.value <= narrow.value
  }

  /** The number of trades the report shows for a leader. */
  function Trades(events: seq<Event>, cutoff: Option<int>, leader: string): nat {
    |Values(ByLeader(events, cutoff), leader)|
  }

  /** That is what the leader's row shows. */
  lemma RowShowsTrades(events: seq<Event>, cutoff: Option<int>, i: nat)
    requires i < |Rows(events, cutoff)|
    ensures Rows(events, cutoff)[i].leaderAddress == Keys(ByLeader(events, cutoff))[i]
    ensures Rows(events, cutoff)[i].trades == Trades(events, cutoff, Rows(events, cutoff)[i].leaderAddress)
  {
    var items := ByLeader(events, cutoff);
    var k := Keys(items)[i];
    assert Rows(events, cutoff)[i] == MetricsRow(k, Amounts(Values(items, k)), Latest(Values(items, k)));
    AmountsLength(Values(items, k));
  }

  lemma ReportRows(events: seq<Event>, cutoff: Option<int>, row: LeaderMetrics)
    ensures row in Metrics(events, cutoff) <==> row in Rows(events, cutoff)
  {
    SortDescIs(Rows(events, cutoff), MetricsRank(), 0.0);
    PermMember(SortDesc(Rows(events, cutoff), MetricsRank()), Rows(events, cutoff), row);
  }

  /** A leader has a row exactly with a trade to show. */
  lemma LeaderHasRow(events: seq<Event>, cutoff: Option<int>, leader: string)
    ensures Trades(events, cutoff, leader) > 0 <==>
      exists row :: row in Metrics(events, cutoff) && row.leaderAddress == leader
  {
    var rows, ks := Rows(events, cutoff), Keys(ByLeader(events, cutoff));
    NoValues(ByLeader(events, cutoff), leader);
    forall i | 0 <= i < |rows| ensures rows[i].leaderAddress == ks[i] {
      RowShowsTrades(events, cutoff, i);
    }
    forall row ensures row in Metrics(events, cutoff) <==> row in rows {
      ReportRows(events, cutoff, row);
    }
    if leader in ks {
      var i :| 0 <= i < |ks| && ks[i] == leader;
      assert rows[i] in rows;
    }
  }

  /** The window in the caller's terms: an exit is recent when it is no older than the window. */
  lemma CutoffMeans(now: Option<int>, window: Option<int>, ts: Option<int>)
    ensures Recent(Cutoff(now, window), ts) <==>
      (now.Some? && window.Some? ==> ts.Some? && now.value - ts.value <= window.value)
  {
  }

  lemma {:induction false} WiderKeys(events: seq<Event>, leaders: map<string, string>, wide: Option<int>,
                                     narrow: Option<int>, pid: string)
    requires Wider(wide, narrow)
    requires pid in Keys(FlatMap(events, Join(leaders, narrow)))
    ensures pid in Keys(FlatMap(events, Join(leaders, wide)))
  {
    if events != [] {
      var init, ev := events[..|events| - 1], events[|events| - 1];
      var w, n := FlatMap(init, Join(leaders, wide)), FlatMap(init, Join(leaders, narrow));
      if Counts(leaders, wide, ev) {
        KeysSnoc(w, ev.positionId, Chunk(ev.realized.x, ev.ts));
        KeysSnoc(n, ev.positionId, Chunk(ev.realized.x, ev.ts));
      } else {
        assert w + [] == w;
      }
      if !Counts(leaders, narrow, ev) {
        assert n + [] == n;
      }
      if pid in Keys(n) {
        WiderKeys(init, leaders, wide, narrow, pid);
      }
    }
  }

  /** The positions among the first `n` that belong to `leader`. */
  function PositionsOf(keys: seq<string>, leaders: map<string, string>, leader: string): set<string> {
    set pid | pid in keys && LeaderIn(leaders, pid) == leader
  }

  lemma PositionsOfSnoc(keys: seq<string>, pid: string, leaders: map<string, string>, leader: string)
    requires pid !in keys
    ensures |PositionsOf(keys + [pid], leaders, leader)| ==
      |PositionsOf(keys, leaders, leader)| + (if LeaderIn(leaders, pid) == leader then 1 else 0)
  {
    assert PositionsOf(keys + [pid], leaders, leader) ==
      PositionsOf(keys, leaders, leader) + (if LeaderIn(leaders, pid) == leader then {pid} else {});
  }

  lemma ValuesGrow(items: seq<(string, Chunk)>, l: string, c: Chunk, leader: string)
    ensures |Values(items + [(l, c)], leader)| == |Values(items, leader)| + (if l == leader then 1 else 0)
  {
    ValuesSnoc(items, l, c, leader);
  }

  lemma NoPositions(leaders: map<string, string>, leader: string)
    ensures FlatMap([], WithLeader(leaders)) == [] && Values<string, Chunk>([], leader) == []
    ensures PositionsOf([], leaders, leader) == {}
  {
  }

  lemma {:induction false} ValuesArePositions(positions: seq<(string, Chunk)>, keys: seq<string>,
                                              leaders: map<string, string>, leader: string)
    requires |keys| == |positions| && Distinct(keys)
    requires forall i :: 0 <= i < |keys| ==> positions[i].0 == keys[i]
    ensures |Values(FlatMap(positions, WithLeader(leaders)), leader)| == |PositionsOf(keys, leaders, leader)|
  {
    hide Values, PositionsOf;
    if keys == [] {
      NoPositions(leaders, leader);
    } else {
      var n := |keys| - 1;
      ValuesArePositions(positions[..n], keys[..n], leaders, leader);
      LastWithLeader(positions, leaders);
      ValuesGrow(FlatMap(positions[..n], WithLeader(leaders)), LeaderIn(leaders, keys[n]), positions[n].1, leader);
      PositionsOfSnoc(keys[..n], keys[n], leaders, leader);
      assert keys == keys[..n] + [keys[n]];
    }
  }

  lemma TradesArePositions(events: seq<Event>, cutoff: Option<int>, leader: string)
    ensures Trades(events, cutoff, leader) ==
      |PositionsOf(Keys(Joined(events, cutoff)), PosLeader(events), leader)|
  {
    KeysAre(Joined(events, cutoff));
    ValuesArePositions(Positions(events, cutoff), Keys(Joined(events, cutoff)), PosLeader(events), leader);
  }

  lemma SubsetSize<A>(a: set<A>, b: set<A>)
    requires a <= b
    ensures |a| <= |b|
  {
    assert b == a + (b - a);
  }

  /** A wider window never lowers a leader's trade count. */
  lemma WiderWindowNeverLosesTrades(events: seq<Event>, wide: Option<int>, narrow: Option<int>, leader: string)
    requires Wider(wide, narrow)
    ensures Trades(events, wide, leader) >= Trades(events, narrow, leader)
  {
    TradesArePositions(events, wide, leader);
    TradesArePositions(events, narrow, leader);
    var leaders := PosLeader(events);
    forall pid | pid in Keys(Joined(events, narrow)) ensures pid in Keys(Joined(events, wide)) {
      WiderKeys(events, leaders, wide, narrow, pid);
    }
    SubsetSize(PositionsOf(Keys(Joined(events, narrow)), leaders, leader),
               PositionsOf(Keys(Joined(events, wide)), leaders, leader));
  }

  /** The positions of a leader with an exit that counts. */
  function CountedPositions(events: seq<Event>, cutoff: Option<int>, leader: string): set<string> {
    set ev | ev in events && Counts(PosLeader(events), cutoff, ev) && PosLeader(events)[ev.positionId] == leader ::
      ev.positionId
  }

  lemma {:induction false} JoinedPositions(events: seq<Event>, leaders: map<string, string>, cutoff: Option<int>,
                                           pid: string)
    ensures pid in Keys(FlatMap(events, Join(leaders, cutoff))) <==>
      exists ev :: ev in events && Counts(leaders, cutoff, ev) && ev.positionId == pid
  {
    hide Counts, Join, Keys;
    if events == [] {
      NoKeys();
    } else {
      var init, ev := events[..|events| - 1], events[|events| - 1];
      JoinedPositions(init, leaders, cutoff, pid);
      JoinedLast(FlatMap(init, Join(leaders, cutoff)), leaders, cutoff, ev, pid);
      assert forall e :: e in events <==> e in init || e == ev;
    }
  }

  lemma NoKeys()
    ensures Keys<string, Chunk>([]) == []
  {
  }

  lemma JoinedLast(joined: seq<(string, Chunk)>, leaders: map<string, string>, cutoff: Option<int>, ev: Event,
                   pid: string)
    ensures pid in Keys(joined + Join(leaders, cutoff)(ev)) <==>
      pid in Keys(joined) || (Counts(leaders, cutoff, ev) && ev.positionId == pid)
  {
    if Counts(leaders, cutoff, ev) {
      KeysSnoc(joined, ev.positionId, Chunk(ev.realized.x, ev.ts));
    } else {
      assert joined + [] == joined;
    }
  }

  lemma TradesAreCounted(events: seq<Event>, cutoff: Option<int>, leader: string)
    ensures Trades(events, cutoff, leader) == |CountedPositions(events, cutoff, leader)|
  {
    var leaders := PosLeader(events);
    TradesArePositions(events, cutoff, leader);
    forall pid ensures pid in PositionsOf(Keys(Joined(events, cutoff)), leaders, leader) <==>
                       pid in CountedPositions(events, cutoff, leader)
    {
      JoinedPositions(events, leaders, cutoff, pid);
    }
    assert PositionsOf(Keys(Joined(events, cutoff)), leaders, leader) == CountedPositions(events, cutoff, leader);
  }

  /** What the report shows as trades: the number of the leader's positions with an exit that counts,
      however many exits each has. */
  lemma RowsShowTrades(events: seq<Event>, cutoff: Option<int>, row: LeaderMetrics)
    requires row in Metrics(events, cutoff)
    ensures row.trades == |CountedPositions(events, cutoff, row.leaderAddress)| > 0
  {
    ReportRows(events, cutoff, row);
    var i :| 0 <= i < |Rows(events, cutoff)| && Rows(events, cutoff)[i] == row;
    RowShowsTrades(events, cutoff, i);
    TradesAreCounted(events, cutoff, row.leaderAddress);
    LeaderHasRow(events, cutoff, row.leaderAddress);
  }

  /** A wider window drops no leader from the report and lowers no trade count. */
  lemma WiderWindowKeepsRows(events: seq<Event>, wide: Option<int>, narrow: Option<int>, row: LeaderMetrics)
    requires Wider(wide, narrow) && row in Metrics(events, narrow)
    ensures exists other :: other in Metrics(events, wide) && other.leaderAddress == row.leaderAddress &&
                            other.trades >= row.trades
  {
    var leader := row.leaderAddress;
    RowsShowTrades(events, narrow, row);
    TradesAreCounted(events, narrow, leader);
    TradesAreCounted(events, wide, leader);
    WiderWindowNeverLosesTrades(events, wide, narrow, leader);
    LeaderHasRow(events, wide, leader);
    var other :| other in Metrics(events, wide) && other.leaderAddress == leader;
    RowsShowTrades(events, wide, other);
  }

  // ---------- the upper bound ----------

  predicate After(ts: Option<int>, now: int) {
    ts.Some? && ts.value > now
  }

  /** The log up to `now`: without the exits that are later. */
  function KeepUpTo(now: int): Event -> seq<Event> {
    (ev: Event) => if ev.kind in EXIT_KINDS && After(ev.ts, now) then [] else [ev]
  }

  lemma KeptUpToReads(kept: seq<Event>, ev: Event, now: int)
    ensures PosLeader(kept + KeepUpTo(now)(ev)) == PosLeader(kept + [ev])
  {
    PosLeaderSnoc(kept, ev);
    if ev.kind in EXIT_KINDS && After(ev.ts, now) {
      assert KeepUpTo(now)(ev) == [] && kept + [] == kept;
    }
  }

  lemma {:induction false} UpToReads(events: seq<Event>, now: int)
    ensures PosLeader(FlatMap(events, KeepUpTo(now))) == PosLeader(events)
    ensures forall ev :: ev in FlatMap(events, KeepUpTo(now)) && IsExit(ev) ==> !After(ev.ts, now)
  {
    if events != [] {
      var init, ev := events[..|events| - 1], events[|events| - 1];
      UpToReads(init, now);
      KeptUpToReads(FlatMap(init, KeepUpTo(now)), ev, now);
      PosLeaderSnoc(FlatMap(init, KeepUpTo(now)), ev);
    }
  }

  /** Without a counted exit after `now`, the join does not see what is left out. */
  lemma {:induction false} UpToJoins(events: seq<Event>, leaders: map<string, string>, cutoff: Option<int>, now: int)
    requires forall ev :: ev in events && Counts(leaders, cutoff, ev) ==> !After(ev.ts, now)
    ensures FlatMap(FlatMap(events, KeepUpTo(now)), Join(leaders, cutoff)) == FlatMap(events, Join(leaders, cutoff))
  {
    if events != [] {
      var init, ev := events[..|events| - 1], events[|events| - 1];
      UpToJoins(init, leaders, cutoff, now);
      var kept, joined := FlatMap(init, KeepUpTo(now)), FlatMap(init, Join(leaders, cutoff));
      if ev.kind in EXIT_KINDS && After(ev.ts, now) {
        assert !Counts(leaders, cutoff, ev);
        assert kept + [] == kept && joined + [] == joined;
      } else {
        FlatMapSnoc(kept, ev, Join(leaders, cutoff));
      }
    }
  }

  /** Something filed is later than `now`. */
  ghost predicate HoldsLater(items: seq<(string, Chunk)>, now: int) {
    exists item :: item in items && After(item.1.ts, now)
  }

  /** A row shows an exit later than `now`. */
  ghost predicate ShowsLater(rows: seq<LeaderMetrics>, now: int) {
    exists row :: row in rows && After(row.lastExitTs, now)
  }

  lemma {:induction false} JoinedLater(events: seq<Event>, leaders: map<string, string>, cutoff: Option<int>, now: int)
    ensures HoldsLater(FlatMap(events, Join(leaders, cutoff)), now) <==>
      exists ev :: ev in events && Counts(leaders, cutoff, ev) && After(ev.ts, now)
  {
    if events != [] {
      var init, ev := events[..|events| - 1], events[|events| - 1];
      JoinedLater(init, leaders, cutoff, now);
      assert events == init + [ev];
      LaterConcat(FlatMap(init, Join(leaders, cutoff)), Join(leaders, cutoff)(ev), now);
      if Counts(leaders, cutoff, ev) {
        LaterOne(ev.positionId, Chunk(ev.realized.x, ev.ts), now);
      }
    }
  }

  lemma LaterOne(k: string, c: Chunk, now: int)
    ensures HoldsLater([(k, c)], now) <==> After(c.ts, now)
  {
    assert (k, c) in [(k, c)];
  }

  lemma LaterConcat(s: seq<(string, Chunk)>, t: seq<(string, Chunk)>, now: int)
    ensures HoldsLater(s + t, now) <==> HoldsLater(s, now) || HoldsLater(t, now)
  {
    forall item | item in s || item in t ensures item in s + t {}
  }

  lemma {:induction false} LeadersLater(positions: seq<(string, Chunk)>, leaders: map<string, string>, now: int)
    ensures HoldsLater(FlatMap(positions, WithLeader(leaders)), now) <==> HoldsLater(positions, now)
  {
    if positions != [] {
      var init, p := positions[..|positions| - 1], positions[|positions| - 1];
      LeadersLater(init, leaders, now);
      assert positions == init + [p];
      LaterConcat(init, [p], now);
      LaterConcat(FlatMap(init, WithLeader(leaders)), [(LeaderIn(leaders, p.0), p.1)], now);
      LaterOne(p.0, p.1, now);
      LaterOne(LeaderIn(leaders, p.0), p.1, now);
    }
  }

  lemma {:induction false} ValuesMember(items: seq<(string, Chunk)>, k: string, c: Chunk)
    ensures c in Values(items, k) <==> (k, c) in items
  {
    if items != [] {
      var init, item := items[..|items| - 1], items[|items| - 1];
      ValuesMember(init, k, c);
      assert items == init + [item];
      ValuesSnoc(init, item.0, item.1, k);
    }
  }

  /** A group's latest time is after `now` exactly if one of its members' is. */
  lemma GroupLater(items: seq<(string, Chunk)>, k: string, now: int)
    ensures After(Latest(Values(items, k)), now) <==> exists c :: (k, c) in items && After(c.ts, now)
  {
    LatestIs(Values(items, k));
    forall c ensures c in Values(items, k) <==> (k, c) in items {
      ValuesMember(items, k, c);
    }
  }

  lemma SomeGroupLater(items: seq<(string, Chunk)>, now: int)
    ensures HoldsLater(items, now) <==> exists k :: k in Keys(items) && After(Latest(Values(items, k)), now)
  {
    KeysAre(items);
    if HoldsLater(items, now) {
      var item :| item in items && After(item.1.ts, now);
      var i :| 0 <= i < |items| && items[i] == item;
      assert (item.0, item.1) in items;
      GroupLater(items, item.0, now);
      assert item.0 in Keys(items);
    }
    if k :| k in Keys(items) && After(Latest(Values(items, k)), now) {
      GroupLater(items, k, now);
    }
  }

  lemma NettedLater(items: seq<(string, Chunk)>, now: int)
    ensures HoldsLater(Grouped(items, Net()), now) <==> HoldsLater(items, now)
  {
    SomeGroupLater(items, now);
    var g, ks := Grouped(items, Net()), Keys(items);
    assert forall i :: 0 <= i < |ks| ==> g[i].1.ts == Latest(Values(items, ks[i]));
    forall k | k in ks && After(Latest(Values(items, k)), now) ensures HoldsLater(g, now) {
      var i :| 0 <= i < |ks| && ks[i] == k;
      assert g[i] in g;
    }
  }

  lemma RowsLater(items: seq<(string, Chunk)>, now: int)
    ensures ShowsLater(Map(Grouped(items, MetricsOf()), Second()), now) <==> HoldsLater(items, now)
  {
    SomeGroupLater(items, now);
    var rows, ks := Map(Grouped(items, MetricsOf()), Second()), Keys(items);
    forall i | 0 <= i < |ks| ensures rows[i].lastExitTs == Latest(Values(items, ks[i])) {
      assert rows[i] == MetricsRow(ks[i], Amounts(Values(items, ks[i])), Latest(Values(items, ks[i])));
    }
    forall k | k in ks && After(Latest(Values(items, k)), now) ensures ShowsLater(rows, now) {
      var i :| 0 <= i < |ks| && ks[i] == k;
      assert rows[i] in rows;
    }
  }

  /** No counted exit hides: the report shows a last exit after `now` exactly if some exit it counts
      is after `now`. */
  lemma ReportShowsLater(events: seq<Event>, cutoff: Option<int>, now: int)
    ensures ShowsLater(Metrics(events, cutoff), now) <==>
      exists ev :: ev in events && Counts(PosLeader(events), cutoff, ev) && After(ev.ts, now)
  {
    JoinedLater(events, PosLeader(events), cutoff, now);
    NettedLater(Joined(events, cutoff), now);
    LeadersLater(Positions(events, cutoff), PosLeader(events), now);
    RowsLater(ByLeader(events, cutoff), now);
    var rows := Rows(events, cutoff);
    SortDescIs(rows, MetricsRank(), 0.0);
    forall row ensures row in SortDesc(rows, MetricsRank()) <==> row in rows {
      PermMember(SortDesc(rows, MetricsRank()), rows, row);
    }
  }

  /** The docstring's upper bound is not in the code. The report is that of the log up to `now` if and
      only if no exit that counts is later than `now`. */
  lemma UpperBoundIff(events: seq<Event>, cutoff: Option<int>, now: int)
    ensures Metrics(events, cutoff) == Metrics(FlatMap(events, KeepUpTo(now)), cutoff) <==>
      forall i :: 0 <= i < |events| && Counts(PosLeader(events), cutoff, events[i]) && events[i].ts.Some? ==>
        events[i].ts.value <= now
  {
    var kept := FlatMap(events, KeepUpTo(now));
    UpToReads(events, now);
    ReportShowsLater(events, cutoff, now);
    ReportShowsLater(kept, cutoff, now);
    if ShowsLater(Metrics(events, cutoff), now) {
      assert !ShowsLater(Metrics(kept, cutoff), now);
    } else {
      UpToJoins(events, PosLeader(events), cutoff, now);
    }
  }

  /** They do differ: an exit one microsecond in the future is a row of the report, whatever the
      window, and no row of the report up to now. */
  lemma FutureExitCounts(now: int, window: nat)
    ensures var entry := Event(PaperEntry, "p1", "A", "", Absent, None);
      var exit := Event(PaperExit, "p1", "", "", Number(5.0), Some(now + 1));
      var (log, cutoff) := ([entry, exit], Cutoff(Some(now), Some(window)));
      && Metrics(log, cutoff) == [MetricsRow("A", [5.0], Some(now + 1))]
      && Metrics(FlatMap(log, KeepUpTo(now)), cutoff) == []
  {
    var entry := Event(PaperEntry, "p1", "A", "", Absent, None);
    var exit := Event(PaperExit, "p1", "", "", Number(5.0), Some(now + 1));
    OneExit(entry, exit, Cutoff(Some(now), Some(window)));
    FlatMapTwo(entry, exit, KeepUpTo(now));
    assert FlatMap([entry, exit], KeepUpTo(now)) == [entry] + [] == [entry];
    NoExit(entry, Cutoff(Some(now), Some(window)));
  }

  lemma NoExit(entry: Event, cutoff: Option<int>)
    requires !IsExit(entry)
    ensures Metrics([entry], cutoff) == []
  {
    FlatMapOne(entry, Join(PosLeader([entry]), cutoff));
    assert Joined([entry], cutoff) == [];
  }

  lemma OneExit(entry: Event, exit: Event, cutoff: Option<int>)
    requires NamesLeader(entry) && !NamesLeader(exit) && !IsExit(entry) && IsExit(exit)
    requires exit.positionId == entry.positionId && Recent(cutoff, exit.ts)
    ensures Metrics([entry, exit], cutoff) == [MetricsRow(LeaderOf(entry), [exit.realized.x], exit.ts)]
  {
    var log, leaders := [entry, exit], PosLeader([entry, exit]);
    var pid, leader, c := entry.positionId, LeaderOf(entry), Chunk(exit.realized.x, exit.ts);
    PosLeaderSnoc([], entry);
    PosLeaderSnoc([entry], exit);
    assert [] + [entry] == [entry] && [entry] + [exit] == log;
    assert leaders == map[pid := leader];
    FlatMapTwo(entry, exit, Join(leaders, cutoff));
    assert Joined(log, cutoff) == [(pid, c)];
    OneChunk(pid, c);
    FlatMapOne((pid, c), WithLeader(leaders));
    assert ByLeader(log, cutoff) == [(leader, c)];
    OneChunk(leader, c);
    SortOne(MetricsRow(leader, [c.amount], c.ts));
  }

  lemma OneItem(k: string, c: Chunk)
    ensures Keys([(k, c)]) == [k] && Values([(k, c)], k) == [c]
  {
    KeysSnoc([], k, c);
    assert [] + [(k, c)] == [(k, c)];
    FlatMapOne((k, c), ValueAt<string, Chunk>(k));
  }

  lemma NetOfOne(c: Chunk)
    ensures Amounts([c]) == [c.amount] && Sum(Amounts([c])) == c.amount && Latest([c]) == c.ts
  {
    NetNothing();
    NetSnoc([], c);
    assert [] + [c] == [c];
  }

  lemma OneChunk(k: string, c: Chunk)
    ensures Grouped([(k, c)], Net()) == [(k, c)]
    ensures Map(Grouped([(k, c)], MetricsOf()), Second()) == [MetricsRow(k, [c.amount], c.ts)]
  {
    hide MetricsRow, FlatMap, Keys, Values, Amounts, Sum, Latest;
    OneItem(k, c);
    NetOfOne(c);
  }

  lemma SortOne(row: LeaderMetrics)
    ensures SortDesc([row], MetricsRank()) == [row]
  {
    assert [row][1..] == [];
  }
}
