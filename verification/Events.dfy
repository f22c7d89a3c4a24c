/** The engine's event log and the join of exits to leaders, which both analytics reports share. */
module Events {
  import opened Wrappers
  import opened Grouping

  /** The `realized_usd` field: only a finite number counts (`_num`); any other value is Absent. */
  datatype Realized = Absent | Boolean(b: bool) | NonFinite | Number(x: real)

  /** The event kinds the reports tell apart. */
  datatype Kind =
    | PaperEntry | LiveEntry | ReconciledOrphanEntry
    | PaperExit | LiveExit | ReconciledExit
    | OtherKind(name: string)

  /** A missing text field is the empty string: the code treats the two alike. `ts` is the parsed
      timestamp in microseconds, None when it does not parse. */
  datatype Event = Event(kind: Kind, positionId: string, leader: string, leaderAddress: string,
                         realized: Realized, ts: Option<int>)

  const ENTRY_KINDS: set<Kind> := {PaperEntry, LiveEntry, ReconciledOrphanEntry}
  const EXIT_KINDS: set<Kind> := {PaperExit, LiveExit, ReconciledExit}

  function Num(v: Realized): Option<real> {
    if v.Number? then Some(v.x) else None
  }

  function LeaderOf(ev: Event): string {
    if ev.leader != "" then ev.leader else ev.leaderAddress
  }

  predicate NamesLeader(ev: Event) {
    ev.kind in ENTRY_KINDS && ev.positionId != "" && LeaderOf(ev) != ""
  }

  /** Which events name a leader, and which: the field `leader` counts before `leader_address`. */
  lemma NamesLeaderIff(ev: Event)
    ensures NamesLeader(ev) <==>
      && (ev.kind == PaperEntry || ev.kind == LiveEntry || ev.kind == ReconciledOrphanEntry)
      && ev.positionId != "" && (ev.leader != "" || ev.leaderAddress != "")
    ensures ev.leader != "" ==> LeaderOf(ev) == ev.leader
    ensures ev.leader == "" ==> LeaderOf(ev) == ev.leaderAddress
  {
  }

  // ---------- the join ----------

  /** Position to leader; the last entry of a position wins. */
  function PosLeader(events: seq<Event>): map<string, string> {
    if events == [] then map[] else
    var before, ev := PosLeader(events[..|events| - 1]), events[|events| - 1];
    if NamesLeader(ev) then before[ev.positionId := LeaderOf(ev)] else before
  }

  /** `i` is the last entry that names a leader for `pid`. */
  predicate LastEntry(events: seq<Event>, pid: string, i: nat) {
    && i < |events| && NamesLeader(events[i]) && events[i].positionId == pid
    && forall j :: i < j < |events| && NamesLeader(events[j]) ==> events[j].positionId != pid
  }

  lemma {:induction false} PosLeaderKnows(events: seq<Event>, pid: string) returns (i: nat)
    requires pid in PosLeader(events)
    ensures LastEntry(events, pid, i) && PosLeader(events)[pid] == LeaderOf(events[i])
  {
    var n := |events| - 1;
    if NamesLeader(events[n]) && events[n].positionId == pid {
      i := n;
    } else {
      i := PosLeaderKnows(events[..n], pid);
      assert forall j :: 0 <= j < n ==> events[..n][j] == events[j];
    }
  }

  lemma {:induction false} PosLeaderHas(events: seq<Event>, i: nat)
    requires i < |events| && NamesLeader(events[i])
    ensures events[i].positionId in PosLeader(events)
  {
    if i < |events| - 1 {
      PosLeaderHas(events[..|events| - 1], i);
    }
  }

  /** Exactly which positions have a leader, and which: the leader their last naming entry names. */
  lemma PosLeaderIff(events: seq<Event>, pid: string)
    ensures pid in PosLeader(events) <==> exists i: nat :: LastEntry(events, pid, i)
    ensures pid in PosLeader(events) ==>
      exists i: nat :: LastEntry(events, pid, i) && PosLeader(events)[pid] == LeaderOf(events[i])
  {
    if pid in PosLeader(events) {
      var i := PosLeaderKnows(events, pid);
    }
    forall i: nat | LastEntry(events, pid, i) ensures pid in PosLeader(events) {
      PosLeaderHas(events, i);
    }
  }

  /** A piece of realised profit or loss, and when. */
  datatype Chunk = Chunk(amount: real, ts: Option<int>)

  predicate IsExit(ev: Event) {
    ev.kind in EXIT_KINDS && Num(ev.realized).Some?
  }

  /** Which events realise an amount: exits of the three kinds with a finite number, which a Boolean is not. */
  lemma IsExitIff(ev: Event)
    ensures IsExit(ev) <==>
      (ev.kind == PaperExit || ev.kind == LiveExit || ev.kind == ReconciledExit) && ev.realized.Number?
  {
  }

  predicate Recent(cutoff: Option<int>, ts: Option<int>) {
    cutoff.Some? ==> ts.Some? && ts.value >= cutoff.value
  }

  predicate Counts(leaders: map<string, string>, cutoff: Option<int>, ev: Event) {
    IsExit(ev) && ev.positionId in leaders && Recent(cutoff, ev.ts)
  }

  function Join(leaders: map<string, string>, cutoff: Option<int>): Event -> seq<(string, Chunk)> {
    (ev: Event) =>
      if Counts(leaders, cutoff, ev) then [(ev.positionId, Chunk(Num(ev.realized).value, ev.ts))] else []
  }

  /** The exits that count, by position. */
  function Joined(events: seq<Event>, cutoff: Option<int>): seq<(string, Chunk)> {
    FlatMap(events, Join(PosLeader(events), cutoff))
  }

  function LeaderIn(leaders: map<string, string>, pid: string): string {
    if pid in leaders then leaders[pid] else ""
  }

  function WithLeader(leaders: map<string, string>): ((string, Chunk)) -> seq<(string, Chunk)> {
    (item: (string, Chunk)) => [(LeaderIn(leaders, item.0), item.1)]
  }

  // ---------- sums ----------

  function Sum(rs: seq<real>): real {
    if rs == [] then 0.0 else Sum(rs[..|rs| - 1]) + rs[|rs| - 1]
  }

  function AmountOf(): Chunk -> seq<real> {
    (c: Chunk) => [c.amount]
  }

  function Amounts(cs: seq<Chunk>): seq<real> {
    FlatMap(cs, AmountOf())
  }

  /** The later of two timestamps; an absent one never wins. */
  function Later(last: Option<int>, ts: Option<int>): Option<int> {
    if ts.Some? && (last.None? || ts.value > last.value) then ts else last
  }

  function Latest(cs: seq<Chunk>): Option<int> {
    if cs == [] then None else Later(Latest(cs[..|cs| - 1]), cs[|cs| - 1].ts)
  }

  /** A position's (or a leader's) chunks netted into one. */
  function Net(): (string, seq<Chunk>) -> Chunk {
    (_: string, cs: seq<Chunk>) => Chunk(Sum(Amounts(cs)), Latest(cs))
  }

  /** One entry a position: all its chunks count as one trade. */
  function Positions(events: seq<Event>, cutoff: Option<int>): seq<(string, Chunk)> {
    Grouped(Joined(events, cutoff), Net())
  }

  /** The same entries filed under the position's leader. */
  function ByLeader(events: seq<Event>, cutoff: Option<int>): seq<(string, Chunk)> {
    FlatMap(Positions(events, cutoff), WithLeader(PosLeader(events)))
  }

  lemma SumSnoc(rs: seq<real>, r: real)
    ensures Sum(rs + [r]) == Sum(rs) + r
  {
    assert (rs + [r])[..|rs|] == rs;
  }

  lemma NetNothing()
    ensures Amounts([]) == [] && Sum(Amounts([])) == 0.0 && Latest([]) == None
  {
  }

  lemma NetSnoc(cs: seq<Chunk>, c: Chunk)
    ensures Amounts(cs + [c]) == Amounts(cs) + [c.amount]
    ensures Sum(Amounts(cs + [c])) == Sum(Amounts(cs)) + c.amount
    ensures Latest(cs + [c]) == Later(Latest(cs), c.ts)
  {
    FlatMapSnoc(cs, c, AmountOf());
    SumSnoc(Amounts(cs), c.amount);
    assert (cs + [c])[..|cs|] == cs;
  }

  lemma {:induction false} AmountsLength(cs: seq<Chunk>)
    ensures |Amounts(cs)| == |cs|
  {
    if cs != [] {
      AmountsLength(cs[..|cs| - 1]);
    }
  }

  // ---------- the first loop of both reports ----------

  method MapPositions(events: seq<Event>) returns (posLeader: map<string, string>)
    ensures posLeader == PosLeader(events)
  {
    posLeader := map[];
    for i := 0 to |events|
      invariant posLeader == PosLeader(events[..i])
    {
      assert events[..i + 1][..i] == events[..i];
      var ev := events[i];
      if ev.kind in ENTRY_KINDS {
        var pid, leader := ev.positionId, LeaderOf(ev);
        if pid != "" && leader != "" {
          posLeader := posLeader[pid := leader];
        }
      }
    }
    assert events[..|events|] == events;
  }
}
