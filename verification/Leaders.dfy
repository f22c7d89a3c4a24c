/** The two leader reports: score_leaders.py and leader_report.py under services/analytics/analytics. */
module Leaders {
  import opened Wrappers
  import opened Rounding
  import opened Grouping
  import opened Events

  // ---------- what the reports are ----------

  datatype LeaderScore = LeaderScore(leaderAddress: string, trades: nat, wins: nat, winRate: real,
                                     totalRealizedUsd: real, avgRealizedUsd: real, score: real)

  datatype LeaderMetrics = LeaderMetrics(
    leaderAddress: string, trades: nat, wins: nat, losses: nat, winRate: real,
    totalRealizedUsd: real, avgRealizedUsd: real, grossProfitUsd: real, grossLossUsd: real,
    profitFactor: Option<real>, avgWinUsd: real, avgLossUsd: real, bestUsd: real, worstUsd: real,
    lastExitTs: Option<int>, score: real)

  function Ratio(a: real, n: nat): real {
    if n > 0 then a / n as real else 0.0
  }

  function Expectancy(total: real, winRate: real): real {
    total * (0.5 + 0.5 * winRate)
  }

  /** score_leaders.py keeps three running numbers a leader. */
  datatype Tally = Tally(trades: nat, wins: nat, total: real)

  function Count(t: Tally, amount: real): Tally {
    Tally(t.trades + 1, if amount > 0.0 then t.wins + 1 else t.wins, t.total + amount)
  }

  function TallyOf(cs: seq<Chunk>): Tally {
    if cs == [] then Tally(0, 0, 0.0) else Count(TallyOf(cs[..|cs| - 1]), cs[|cs| - 1].amount)
  }

  function ScoreRow(leader: string, a: Tally): LeaderScore {
    var winRate := Ratio(a.wins as real, a.trades);
    LeaderScore(leader, a.trades, a.wins, Round4(winRate), Round2(a.total), Round2(Ratio(a.total, a.trades)),
                Round2(Expectancy(a.total, winRate)))
  }

  function Positive(): real -> seq<real> {
    (r: real) => if r > 0.0 then [r] else []
  }

  function Negative(): real -> seq<real> {
    (r: real) => if r < 0.0 then [r] else []
  }

  function Best(rs: seq<real>): real {
    if |rs| <= 1 then (if rs == [] then 0.0 else rs[0])
    else if rs[|rs| - 1] > Best(rs[..|rs| - 1]) then rs[|rs| - 1] else Best(rs[..|rs| - 1])
  }

  function Worst(rs: seq<real>): real {
    if |rs| <= 1 then (if rs == [] then 0.0 else rs[0])
    else if rs[|rs| - 1] < Worst(rs[..|rs| - 1]) then rs[|rs| - 1] else Worst(rs[..|rs| - 1])
  }

  /** leader_report.py keeps the list of position results a leader, and works from the list. */
  function MetricsRow(leader: string, rs: seq<real>, last: Option<int>): LeaderMetrics {
    var wins, losses := FlatMap(rs, Positive()), FlatMap(rs, Negative());
    Report(leader, |rs|, |wins|, |losses|, Sum(rs), Sum(wins), Sum(losses), Best(rs), Worst(rs), last)
  }

  function Report(leader: string, n: nat, wins: nat, losses: nat, total: real, sumWins: real, sumLosses: real,
                  best: real, worst: real, last: Option<int>): LeaderMetrics
  {
    var winRate, grossLoss := Ratio(wins as real, n), -sumLosses;
    LeaderMetrics(
      leader, n, wins, losses, Round4(winRate),
      Round2(total), Round2(Ratio(total, n)), Round2(sumWins), Round2(grossLoss),
      if grossLoss > 0.0 then Some(Round3(sumWins / grossLoss)) else None,
      Round2(Ratio(sumWins, wins)), Round2(Ratio(sumLosses, losses)),
      Round2(best), Round2(worst), last, Round2(Expectancy(total, winRate)))
  }

  function ScoreOf(): (string, seq<Chunk>) -> LeaderScore {
    (leader: string, cs: seq<Chunk>) => ScoreRow(leader, TallyOf(cs))
  }

  function MetricsOf(): (string, seq<Chunk>) -> LeaderMetrics {
    (leader: string, cs: seq<Chunk>) => MetricsRow(leader, Amounts(cs), Latest(cs))
  }

  function ScoreRank(): LeaderScore -> real {
    (s: LeaderScore) => s.score
  }

  function MetricsRank(): LeaderMetrics -> real {
    (m: LeaderMetrics) => m.score
  }

  /** score_leaders.py, as a function of the log. */
  function Scores(events: seq<Event>): seq<LeaderScore> {
    SortDesc(Map(Grouped(ByLeader(events, None), ScoreOf()), Second()), ScoreRank())
  }

  /** leader_report.py, as a function of the log and the cutoff. */
  function Metrics(events: seq<Event>, cutoff: Option<int>): seq<LeaderMetrics> {
    SortDesc(Map(Grouped(ByLeader(events, cutoff), MetricsOf()), Second()), MetricsRank())
  }

  // ---------- score_leaders.py ----------

  datatype Position = Position(leader: string, total: real)

  function PositionOf(leaders: map<string, string>): (string, seq<Chunk>) -> Position {
    (pid: string, cs: seq<Chunk>) => Position(LeaderIn(leaders, pid), Sum(Amounts(cs)))
  }

  function TallyFor(): (string, seq<Chunk>) -> Tally {
    (_: string, cs: seq<Chunk>) => TallyOf(cs)
  }

  /** One turn of the exit loop. */
  function AddExit(pos: Dict<string, Position>, leaders: map<string, string>, ev: Event): Dict<string, Position> {
    if !Counts(leaders, None, ev) then pos else
    var d := pos.Get(ev.positionId, Position(leaders[ev.positionId], 0.0));
    pos.Put(ev.positionId, d.(total := d.total + ev.realized.x))
  }

  function AddExits(events: seq<Event>, leaders: map<string, string>): Dict<string, Position> {
    if events == [] then Dict([], map[])
    else AddExit(AddExits(events[..|events| - 1], leaders), leaders, events[|events| - 1])
  }

  lemma AddExitFiles(items: seq<(string, Chunk)>, leaders: map<string, string>, ev: Event)
    ensures AddExit(Tabulate(items, PositionOf(leaders)), leaders, ev) ==
      Tabulate(items + Join(leaders, None)(ev), PositionOf(leaders))
  {
    if Counts(leaders, None, ev) {
      var pid, c := ev.positionId, Chunk(ev.realized.x, ev.ts);
      TabulateSnoc(items, pid, c, PositionOf(leaders));
      TabulateGet(items, pid, PositionOf(leaders));
      NetSnoc(Values(items, pid), c);
      NetNothing();
      assert PositionOf(leaders)(pid, []) == Position(leaders[pid], 0.0);
      assert Join(leaders, None)(ev) == [(pid, c)];
    } else {
      assert items + [] == items;
    }
  }

  /** The loop files each counted exit under its position. */
  lemma {:induction false} AddExitsIs(events: seq<Event>, leaders: map<string, string>)
    ensures AddExits(events, leaders) == Tabulate(FlatMap(events, Join(leaders, None)), PositionOf(leaders))
  {
    if events != [] {
      var init, ev := events[..|events| - 1], events[|events| - 1];
      AddExitsIs(init, leaders);
      AddExitFiles(FlatMap(init, Join(leaders, None)), leaders, ev);
    }
  }

  method PositionsRealized(events: seq<Event>) returns (pos: Dict<string, Position>)
    ensures pos == Tabulate(Joined(events, None), PositionOf(PosLeader(events)))
  {
    var posLeader := MapPositions(events);
    pos := Dict([], map[]);
    for i := 0 to |events|
      invariant pos == AddExits(events[..i], posLeader)
    {
      assert events[..i + 1][..i] == events[..i];
      var ev := events[i];
      if ev.kind !in EXIT_KINDS {
        continue;
      }
      var realized, pid := Num(ev.realized), ev.positionId;
      if pid !in posLeader || realized.None? {
        continue;
      }
      var d := pos.Get(pid, Position(posLeader[pid], 0.0));
      pos := pos.Put(pid, d.(total := d.total + realized.value));
    }
    assert events[..|events|] == events;
    AddExitsIs(events, posLeader);
  }

  /** One turn of the position loop. */
  function AddTally(agg: Dict<string, Tally>, leader: string, amount: real): Dict<string, Tally> {
    agg.Put(leader, Count(agg.Get(leader, Tally(0, 0, 0.0)), amount))
  }

  /** The loop over positions, in dictionary order. */
  function AddTallies(positions: seq<Position>): Dict<string, Tally> {
    if positions == [] then Dict([], map[]) else
    var p := positions[|positions| - 1];
    AddTally(AddTallies(positions[..|positions| - 1]), p.leader, p.total)
  }

  function Entries<K, W>(d: Dict<K, W>): seq<W>
    requires forall k :: k in d.keys ==> k in d.values
  {
    seq(|d.keys|, i requires 0 <= i < |d.keys| => d.values[d.keys[i]])
  }

  lemma LastWithLeader(positions: seq<(string, Chunk)>, leaders: map<string, string>)
    requires positions != []
    ensures var n := |positions| - 1;
      FlatMap(positions, WithLeader(leaders)) ==
      FlatMap(positions[..n], WithLeader(leaders)) + [(LeaderIn(leaders, positions[n].0), positions[n].1)]
  {
  }

  lemma AddTallyFiles(items: seq<(string, Chunk)>, leader: string, c: Chunk)
    ensures AddTally(Tabulate(items, TallyFor()), leader, c.amount) == Tabulate(items + [(leader, c)], TallyFor())
  {
    TabulateSnoc(items, leader, c, TallyFor());
    TabulateGet(items, leader, TallyFor());
    var cs := Values(items, leader);
    assert (cs + [c])[..|cs|] == cs;
  }

  /** Position by position, the loop files each net result under its leader. */
  lemma {:induction false} AddTalliesIs(positions: seq<(string, Chunk)>, ps: seq<Position>,
                                        leaders: map<string, string>)
    requires |ps| == |positions|
    requires forall i :: 0 <= i < |ps| ==> ps[i] == Position(LeaderIn(leaders, positions[i].0), positions[i].1.amount)
    ensures AddTallies(ps) == Tabulate(FlatMap(positions, WithLeader(leaders)), TallyFor())
  {
    if ps != [] {
      var n := |ps| - 1;
      AddTalliesIs(positions[..n], ps[..n], leaders);
      LastWithLeader(positions, leaders);
      AddTallyFiles(FlatMap(positions[..n], WithLeader(leaders)), LeaderIn(leaders, positions[n].0), positions[n].1);
    }
  }

  method TallyLeaders(pos: Dict<string, Position>) returns (agg: Dict<string, Tally>)
    requires forall k :: k in pos.keys ==> k in pos.values
    ensures agg == AddTallies(Entries(pos))
  {
    agg := Dict([], map[]);
    ghost var ps := Entries(pos);
    for i := 0 to |pos.keys|
      invariant agg == AddTallies(ps[..i])
    {
      assert ps[..i + 1][..i] == ps[..i];
      var d := pos.values[pos.keys[i]];
      var a := agg.Get(d.leader, Tally(0, 0, 0.0));
      agg := agg.Put(d.leader, Count(a, d.total));
    }
    assert ps[..|ps|] == ps;
  }

  lemma TalliesOf(events: seq<Event>, pos: Dict<string, Position>)
    requires pos == Tabulate(Joined(events, None), PositionOf(PosLeader(events)))
    ensures forall k :: k in pos.keys ==> k in pos.values
    ensures AddTallies(Entries(pos)) == Tabulate(ByLeader(events, None), TallyFor())
  {
    TabulateIs(Joined(events, None), PositionOf(PosLeader(events)));
    AddTalliesIs(Positions(events, None), Entries(pos), PosLeader(events));
  }

  method ScoreLeaders(events: seq<Event>) returns (scores: seq<LeaderScore>)
    ensures scores == Scores(events)
  {
    var pos := PositionsRealized(events);
    TalliesOf(events, pos);
    var agg := TallyLeaders(pos);
    RowsAre(ByLeader(events, None), TallyFor(), RowOfTally(), ScoreOf());
    scores := ScoreRows(agg);
    scores := SortDesc(scores, ScoreRank());
  }

  function RowOfTally(): (string, Tally) -> LeaderScore {
    (leader: string, a: Tally) => ScoreRow(leader, a)
  }

  method ScoreRows(agg: Dict<string, Tally>) returns (scores: seq<LeaderScore>)
    requires forall k :: k in agg.keys ==> k in agg.values
    ensures scores == RowsFrom(agg, RowOfTally())
  {
    var row := RowOfTally();
    scores := [];
    for i := 0 to |agg.keys|
      invariant |scores| == i
      invariant forall k :: 0 <= k < i ==> scores[k] == RowsFrom(agg, row)[k]
    {
      scores := scores + [row(agg.keys[i], agg.values[agg.keys[i]])];
    }
  }

  // ---------- leader_report.py ----------

  datatype PositionState = PositionState(leader: string, total: real, last: Option<int>)
  datatype LeaderState = LeaderState(r: seq<real>, last: Option<int>)

  function StateOf(leaders: map<string, string>): (string, seq<Chunk>) -> PositionState {
    (pid: string, cs: seq<Chunk>) => PositionState(LeaderIn(leaders, pid), Sum(Amounts(cs)), Latest(cs))
  }

  function ListOf(): (string, seq<Chunk>) -> LeaderState {
    (_: string, cs: seq<Chunk>) => LeaderState(Amounts(cs), Latest(cs))
  }

  /** The cutoff exists only when both `now` and the window are given. */
  function Cutoff(now: Option<int>, window: Option<int>): Option<int> {
    if now.Some? && window.Some? then Some(now.value - window.value) else None
  }

  /** One turn of the exit loop. */
  function AddState(pos: Dict<string, PositionState>, leaders: map<string, string>, cutoff: Option<int>, ev: Event)
    : Dict<string, PositionState>
  {
    if !Counts(leaders, cutoff, ev) then pos else
    var leader := leaders[ev.positionId];
    var d := pos.Get(ev.positionId, PositionState(leader, 0.0, None));
    pos.Put(ev.positionId, PositionState(leader, d.total + ev.realized.x, Later(d.last, ev.ts)))
  }

  function AddStates(events: seq<Event>, leaders: map<string, string>, cutoff: Option<int>):
    Dict<string, PositionState>
  {
    if events == [] then Dict([], map[])
    else AddState(AddStates(events[..|events| - 1], leaders, cutoff), leaders, cutoff, events[|events| - 1])
  }

  lemma AddStateFiles(items: seq<(string, Chunk)>, leaders: map<string, string>, cutoff: Option<int>, ev: Event)
    ensures AddState(Tabulate(items, StateOf(leaders)), leaders, cutoff, ev) ==
      Tabulate(items + Join(leaders, cutoff)(ev), StateOf(leaders))
  {
    if Counts(leaders, cutoff, ev) {
      var pid, c := ev.positionId, Chunk(ev.realized.x, ev.ts);
      TabulateSnoc(items, pid, c, StateOf(leaders));
      TabulateGet(items, pid, StateOf(leaders));
      NetSnoc(Values(items, pid), c);
      NetNothing();
      assert StateOf(leaders)(pid, []) == PositionState(leaders[pid], 0.0, None);
      assert Join(leaders, cutoff)(ev) == [(pid, c)];
    } else {
      assert items + [] == items;
    }
  }

  lemma {:induction false} AddStatesIs(events: seq<Event>, leaders: map<string, string>, cutoff: Option<int>)
    ensures AddStates(events, leaders, cutoff) ==
      Tabulate(FlatMap(events, Join(leaders, cutoff)), StateOf(leaders))
  {
    if events != [] {
      var init, ev := events[..|events| - 1], events[|events| - 1];
      AddStatesIs(init, leaders, cutoff);
      AddStateFiles(FlatMap(init, Join(leaders, cutoff)), leaders, cutoff, ev);
    }
  }

  method PositionStates(events: seq<Event>, posLeader: map<string, string>, cutoff: Option<int>)
    returns (pos: Dict<string, PositionState>)
    ensures pos == Tabulate(FlatMap(events, Join(posLeader, cutoff)), StateOf(posLeader))
  {
    pos := Dict([], map[]);
    for i := 0 to |events|
      invariant pos == AddStates(events[..i], posLeader, cutoff)
    {
      assert events[..i + 1][..i] == events[..i];
      var ev := events[i];
      if ev.kind !in EXIT_KINDS {
        continue;
      }
      var realized, pid := Num(ev.realized), ev.positionId;
      if pid !in posLeader || realized.None? {
        continue;
      }
      if cutoff.Some? && (ev.ts.None? || ev.ts.value < cutoff.value) {
        continue;
      }
      var d := pos.Get(pid, PositionState(posLeader[pid], 0.0, None));
      pos := pos.Put(pid, PositionState(posLeader[pid], d.total + realized.value, Later(d.last, ev.ts)));
    }
    assert events[..|events|] == events;
    AddStatesIs(events, posLeader, cutoff);
  }

  /** One turn of the position loop. */
  function AddList(agg: Dict<string, LeaderState>, leader: string, total: real, last: Option<int>)
    : Dict<string, LeaderState>
  {
    var a := agg.Get(leader, LeaderState([], None));
    agg.Put(leader, LeaderState(a.r + [total], Later(a.last, last)))
  }

  function AddLists(positions: seq<PositionState>): Dict<string, LeaderState> {
    if positions == [] then Dict([], map[]) else
    var p := positions[|positions| - 1];
    AddList(AddLists(positions[..|positions| - 1]), p.leader, p.total, p.last)
  }

  lemma AddListFiles(items: seq<(string, Chunk)>, leader: string, c: Chunk)
    ensures AddList(Tabulate(items, ListOf()), leader, c.amount, c.ts) == Tabulate(items + [(leader, c)], ListOf())
  {
    TabulateSnoc(items, leader, c, ListOf());
    TabulateGet(items, leader, ListOf());
    NetSnoc(Values(items, leader), c);
  }

  lemma {:induction false} AddListsIs(positions: seq<(string, Chunk)>, ps: seq<PositionState>,
                                      leaders: map<string, string>)
    requires |ps| == |positions|
    requires forall i :: 0 <= i < |ps| ==>
      ps[i] == PositionState(LeaderIn(leaders, positions[i].0), positions[i].1.amount, positions[i].1.ts)
    ensures AddLists(ps) == Tabulate(FlatMap(positions, WithLeader(leaders)), ListOf())
  {
    if ps != [] {
      var n := |ps| - 1;
      AddListsIs(positions[..n], ps[..n], leaders);
      LastWithLeader(positions, leaders);
      AddListFiles(FlatMap(positions[..n], WithLeader(leaders)), LeaderIn(leaders, positions[n].0), positions[n].1);
    }
  }

  method ListLeaders(pos: Dict<string, PositionState>) returns (agg: Dict<string, LeaderState>)
    requires forall k :: k in pos.keys ==> k in pos.values
    ensures agg == AddLists(Entries(pos))
  {
    agg := Dict([], map[]);
    ghost var ps := Entries(pos);
    for i := 0 to |pos.keys|
      invariant agg == AddLists(ps[..i])
    {
      assert ps[..i + 1][..i] == ps[..i];
      var d := pos.values[pos.keys[i]];
      var a := agg.Get(d.leader, LeaderState([], None));
      agg := agg.Put(d.leader, LeaderState(a.r + [d.total], Later(a.last, d.last)));
    }
    assert ps[..|ps|] == ps;
  }

  lemma ListsOf(events: seq<Event>, cutoff: Option<int>, pos: Dict<string, PositionState>)
    requires pos == Tabulate(Joined(events, cutoff), StateOf(PosLeader(events)))
    ensures forall k :: k in pos.keys ==> k in pos.values
    ensures AddLists(Entries(pos)) == Tabulate(ByLeader(events, cutoff), ListOf())
  {
    TabulateIs(Joined(events, cutoff), StateOf(PosLeader(events)));
    AddListsIs(Positions(events, cutoff), Entries(pos), PosLeader(events));
  }

  method LeaderReport(events: seq<Event>, now: Option<int>, window: Option<int>) returns (out: seq<LeaderMetrics>)
    ensures out == Metrics(events, Cutoff(now, window))
  {
    var posLeader := MapPositions(events);
    var cutoff := Cutoff(now, window);
    var pos := PositionStates(events, posLeader, cutoff);
    ListsOf(events, cutoff, pos);
    var agg := ListLeaders(pos);
    RowsAre(ByLeader(events, cutoff), ListOf(), RowOfList(), MetricsOf());
    out := MetricsRows(agg);
    out := SortDesc(out, MetricsRank());
  }

  function RowOfList(): (string, LeaderState) -> LeaderMetrics {
    (leader: string, a: LeaderState) => MetricsRow(leader, a.r, a.last)
  }

  method MetricsRows(agg: Dict<string, LeaderState>) returns (out: seq<LeaderMetrics>)
    requires forall k :: k in agg.keys ==> k in agg.values
    ensures out == RowsFrom(agg, RowOfList())
  {
    hide MetricsRow;
    var row := RowOfList();
    out := [];
    for i := 0 to |agg.keys|
      invariant |out| == i
      invariant forall k :: 0 <= k < i ==> out[k] == RowsFrom(agg, row)[k]
    {
      var a := agg.values[agg.keys[i]];
      out := out + [row(agg.keys[i], a)];
    }
  }

  // ---------- the two implementations agree ----------

  function AsScore(): LeaderMetrics -> LeaderScore {
    (m: LeaderMetrics) => LeaderScore(m.leaderAddress, m.trades, m.wins, m.winRate, m.totalRealizedUsd,
                                      m.avgRealizedUsd, m.score)
  }

  lemma {:induction false} TallyIs(cs: seq<Chunk>)
    ensures TallyOf(cs) == Tally(|Amounts(cs)|, |FlatMap(Amounts(cs), Positive())|, Sum(Amounts(cs)))
  {
    if cs != [] {
      var init, c := cs[..|cs| - 1], cs[|cs| - 1];
      assert cs == init + [c];
      TallyIs(init);
      NetSnoc(init, c);
      FlatMapSnoc(Amounts(init), c.amount, Positive());
    }
  }

  /** For every log, the report without a window and the scoring script list the same leaders in the
      same order with equal trades, wins, win rate, total, average and score. */
  lemma ReportsAgree(events: seq<Event>)
    ensures Map(Metrics(events, None), AsScore()) == Scores(events)
  {
    var items := ByLeader(events, None);
    var metrics := Map(Grouped(items, MetricsOf()), Second());
    forall i | 0 <= i < |Keys(items)| {
      TallyIs(Values(items, Keys(items)[i]));
    }
    assert Map(metrics, AsScore()) == Map(Grouped(items, ScoreOf()), Second());
    SortDescMap(metrics, MetricsRank(), AsScore(), ScoreRank());
  }
}
