/** Does a mint, once resolved, stay as it is? What the resolver of `TokenMeta` promises and does not. */
module Resolved {
  import opened Wrappers
  import opened TokenMeta

  /** Exactly when a step keeps every cached value: unless it is a reply that answers a cached mint
      differently. */
  lemma ValuesKeptIff(s: State, e: Event)
    requires Enabled(s, e)
    ensures (forall m :: m in s.cache ==> m in Apply(s, e).cache && Apply(s, e).cache[m] == s.cache[m]) <==>
      (e.ReplyOk? ==> forall m :: m in s.inFlight[e.id] && m in s.cache ==> Lookup(e.tokens, m) == s.cache[m])
  {
  }

  lemma AskedTwice(m: Mint)
    requires m != ""
    ensures Enabled(INIT, Request([m])) && Apply(INIT, Request([m])) == State(map[], [m], Some(0), {0}, map[], 1)
    ensures var s1, s2 := State(map[], [m], Some(0), {0}, map[], 1), State(map[], [], None, {}, map[1 := [m]], 2);
      Enabled(s1, Fire(0)) && Apply(s1, Fire(0)) == s2
    ensures var s2, s3 := State(map[], [], None, {}, map[1 := [m]], 2),
                          State(map[], [m], Some(2), {2}, map[1 := [m]], 3);
      Enabled(s2, Request([m])) && Apply(s2, Request([m])) == s3
    ensures var s3, s4 := State(map[], [m], Some(2), {2}, map[1 := [m]], 3),
                          State(map[], [], None, {}, map[1 := [m], 3 := [m]], 4);
      Enabled(s3, Fire(2)) && Apply(s3, Fire(2)) == s4
  {
    EnqueueOne(m);
  }

  lemma AnsweredTwice(m: Mint, meta: Meta)
    ensures var s4, s5 := State(map[], [], None, {}, map[1 := [m], 3 := [m]], 4),
                          State(map[m := Some(meta)], [], None, {}, map[3 := [m]], 4);
      Enabled(s4, ReplyOk(1, map[m := meta])) && Apply(s4, ReplyOk(1, map[m := meta])) == s5
    ensures var s5, s6 := State(map[m := Some(meta)], [], None, {}, map[3 := [m]], 4),
                          State(map[m := None], [], None, {}, map[], 4);
      Enabled(s5, ReplyOk(3, map[])) && Apply(s5, ReplyOk(3, map[])) == s6
  {
    assert map[1 := [m], 3 := [m]] - {1} == map[3 := [m]] && map[3 := [m]] - {3} == map[];
  }

  /** It can happen: a mint asked for again while its request is in flight is sent twice, and the
      second reply can turn a resolved mint into a known miss. */
  lemma ResolvedMayRegress(m: Mint, meta: Meta) returns (es: seq<Event>)
    requires m != ""
    ensures Runs(INIT, es) && |es| == 6
    ensures var before := es[..5];
      Runs(INIT, before) && m in Exec(INIT, before).cache && Exec(INIT, before).cache[m] == Some(meta)
    ensures m in Exec(INIT, es).cache && Exec(INIT, es).cache[m] == None
  {
    hide Apply, Enabled;
    var e0, e1, e2, e3 := Request([m]), Fire(0), Request([m]), Fire(2);
    var e4, e5 := ReplyOk(1, map[m := meta]), ReplyOk(3, map[]);
    var s1 := State(map[], [m], Some(0), {0}, map[], 1);
    var s2 := State(map[], [], None, {}, map[1 := [m]], 2);
    var s3 := State(map[], [m], Some(2), {2}, map[1 := [m]], 3);
    var s4 := State(map[], [], None, {}, map[1 := [m], 3 := [m]], 4);
    var s5 := State(map[m := Some(meta)], [], None, {}, map[3 := [m]], 4);
    var s6 := State(map[m := None], [], None, {}, map[], 4);
    AskedTwice(m);
    AnsweredTwice(m, meta);
    es := [e0, e1, e2, e3, e4, e5];
    RunsSix(INIT, s1, s2, s3, s4, s5, s6, es);
  }

  lemma EnqueueOne(m: Mint)
    requires m != ""
    ensures Enqueue(map[], [], [m]) == [m] && Uncached(map[], [m]) == [m] && [m][..Take([m])] == [m]
  {
    assert [m][1..] == [] && Add([], m) == [m];
  }

  lemma RunsSix(s0: State, s1: State, s2: State, s3: State, s4: State, s5: State, s6: State, es: seq<Event>)
    requires |es| == 6
    requires Enabled(s0, es[0]) && Apply(s0, es[0]) == s1 && Enabled(s1, es[1]) && Apply(s1, es[1]) == s2
    requires Enabled(s2, es[2]) && Apply(s2, es[2]) == s3 && Enabled(s3, es[3]) && Apply(s3, es[3]) == s4
    requires Enabled(s4, es[4]) && Apply(s4, es[4]) == s5 && Enabled(s5, es[5]) && Apply(s5, es[5]) == s6
    ensures Runs(s0, es) && Exec(s0, es) == s6 && Runs(s0, es[..5]) && Exec(s0, es[..5]) == s5
  {
    hide Apply, Enabled;
    assert Runs(s5, []) && Runs(s6, []);
    RunsCons(s5, es[5], []);
    RunsCons(s4, es[4], [es[5]]); RunsCons(s4, es[4], []);
    RunsCons(s3, es[3], [es[4], es[5]]); RunsCons(s3, es[3], [es[4]]);
    RunsCons(s2, es[2], [es[3], es[4], es[5]]); RunsCons(s2, es[2], [es[3], es[4]]);
    RunsCons(s1, es[1], [es[2], es[3], es[4], es[5]]); RunsCons(s1, es[1], [es[2], es[3], es[4]]);
    RunsCons(s0, es[0], [es[1], es[2], es[3], es[4], es[5]]); RunsCons(s0, es[0], [es[1], es[2], es[3], es[4]]);
    assert es == [es[0]] + [es[1], es[2], es[3], es[4], es[5]];
    assert es[..5] == [es[0]] + [es[1], es[2], es[3], es[4]];
  }

  lemma RunsCons(s: State, e: Event, es: seq<Event>)
    requires Enabled(s, e) && Runs(Apply(s, e), es)
    ensures Runs(s, [e] + es) && Exec(s, [e] + es) == Exec(Apply(s, e), es)
  {
    assert ([e] + es)[1..] == es;
  }

  /** No mint in flight is anywhere else too: not in the cache, in the queue or in another request. */
  ghost predicate Exclusive(s: State) {
    && Awaited(s) !! s.cache.Keys + Elements(s.queue)
    && forall i, j :: i in s.inFlight && j in s.inFlight && i != j ==>
         Elements(s.inFlight[i]) !! Elements(s.inFlight[j])
  }

  /** A caller that never asks for a mint in flight. */
  predicate Polite(s: State, e: Event) {
    e.Request? ==> forall m :: m in e.mints && m != "" ==> forall id :: id in s.inFlight ==> m !in s.inFlight[id]
  }

  /** A request keeps every mint in flight out of other places if and only if it asks for none of them. */
  lemma RequestExclusiveIff(s: State, mints: seq<Mint>)
    requires Inv(s) && Exclusive(s)
    ensures Exclusive(Apply(s, Request(mints))) <==> Polite(s, Request(mints))
  {
    var s' := Apply(s, Request(mints));
    EnqueueIs(s.cache, s.queue, mints);
    assert Awaited(s') == Awaited(s);
    if !Polite(s, Request(mints)) {
      var m, id :| m in mints && m != "" && id in s.inFlight && m in s.inFlight[id];
      assert m in Awaited(s) && m in Truthy(mints);
      assert m in Elements(s'.queue);
    }
  }

  /** What is sent was queued, and is neither cached nor queued any more. */
  lemma FireFrom(s: State, t: nat)
    requires Inv(s) && t in s.pending
    ensures Distinct(BatchOf(s)) && Elements(BatchOf(s)) <= Elements(s.queue) && Elements(BatchOf(s)) !! s.cache.Keys
    ensures Elements(OnFire(s, t).queue) <= Elements(s.queue) && Elements(BatchOf(s)) !! Elements(OnFire(s, t).queue)
  {
    FireSends(s, t);
    FireSplits(s);
    if BatchOf(s) == [] {
      assert Elements(BatchOf(s)) == {};
    }
  }

  lemma Apart(batch: set<Mint>, queued: set<Mint>, cached: set<Mint>, awaited: set<Mint>, left: set<Mint>)
    requires batch <= queued && batch !! cached && awaited !! cached + queued && left <= queued && batch !! left
    ensures batch !! cached + awaited && awaited + batch !! cached + left
  {
  }

  lemma OneAwaited(s: State, id: nat)
    requires id in s.inFlight
    ensures Elements(s.inFlight[id]) <= Awaited(s)
  {
  }

  lemma FireKeepsApart(s: State, t: nat, i: nat, j: nat)
    requires Inv(s) && Exclusive(s) && t in s.pending
    requires i in OnFire(s, t).inFlight && j in OnFire(s, t).inFlight && i != j
    ensures Elements(OnFire(s, t).inFlight[i]) !! Elements(OnFire(s, t).inFlight[j])
  {
    FireSends(s, t);
    FireFrom(s, t);
    hide Awaited, BatchOf;
    if i in s.inFlight && i != s.nextHandle {
      OneAwaited(s, i);
    }
    if j in s.inFlight && j != s.nextHandle {
      OneAwaited(s, j);
    }
  }

  lemma FireExclusive(s: State, t: nat)
    requires Inv(s) && Exclusive(s) && t in s.pending
    ensures Exclusive(OnFire(s, t))
  {
    hide OnFire, Awaited, BatchOf;
    FireAwaits(s, t);
    FireFrom(s, t);
    Apart(Elements(BatchOf(s)), Elements(s.queue), s.cache.Keys, Awaited(s), Elements(OnFire(s, t).queue));
    forall i, j | i in OnFire(s, t).inFlight && j in OnFire(s, t).inFlight && i != j
      ensures Elements(OnFire(s, t).inFlight[i]) !! Elements(OnFire(s, t).inFlight[j])
    {
      FireKeepsApart(s, t, i, j);
    }
  }

  lemma ReplyExclusive(s: State, id: nat, tokens: map<Mint, Meta>)
    requires Inv(s) && Exclusive(s) && id in s.inFlight
    ensures Exclusive(OnReplyOk(s, id, tokens)) && Exclusive(OnReplyFail(s, id))
  {
    AwaitedWithout(s, id);
    OthersDisjoint(s, id);
    AddAllIs(s.queue, s.inFlight[id]);
    var left := Awaited(s.(inFlight := s.inFlight - {id}));
    assert Awaited(OnReplyOk(s, id, tokens)) == left && Awaited(OnReplyFail(s, id)) == left;
  }

  lemma StepExclusive(s: State, e: Event)
    requires Inv(s) && Exclusive(s) && Enabled(s, e) && Polite(s, e)
    ensures Exclusive(Apply(s, e))
  {
    match e
    case Request(mints) => RequestExclusiveIff(s, mints);
    case Fire(t) => FireExclusive(s, t);
    case ReplyOk(id, tokens) => ReplyExclusive(s, id, tokens);
    case ReplyFail(id) => ReplyExclusive(s, id, map[]);
  }

  lemma OthersDisjoint(s: State, id: nat)
    requires Exclusive(s) && id in s.inFlight
    ensures Awaited(s.(inFlight := s.inFlight - {id})) !! Elements(s.inFlight[id])
  {
  }

  predicate PoliteRun(s: State, es: seq<Event>)
    requires Runs(s, es)
    decreases es
  {
    es == [] || (Polite(s, es[0]) && PoliteRun(Apply(s, es[0]), es[1..]))
  }

  /** If no caller asks for a mint in flight, a resolved mint keeps its value for ever. */
  lemma {:induction false} PoliteRunKeepsValues(s: State, es: seq<Event>)
    requires Inv(s) && Exclusive(s) && Runs(s, es) && PoliteRun(s, es)
    ensures forall m :: m in s.cache ==> m in Exec(s, es).cache && Exec(s, es).cache[m] == s.cache[m]
    decreases es
  {
    if es != [] {
      var s' := Apply(s, es[0]);
      StepKeepsInv(s, es[0]);
      StepExclusive(s, es[0]);
      assert es[0].ReplyOk? ==> forall m :: m in s.inFlight[es[0].id] ==> m in Awaited(s);
      ValuesKeptIff(s, es[0]);
      PoliteRunKeepsValues(s', es[1..]);
    }
  }

  // ---------- exactly when it does ----------

  /** Every value cached in `s` is the same in `t`. */
  ghost predicate Kept(s: State, t: State) {
    forall m :: m in s.cache ==> m in t.cache && t.cache[m] == s.cache[m]
  }

  /** Whatever happens from `s` on, as long as callers are polite, no mint once resolved changes. */
  ghost predicate Stable(s: State) {
    forall es, more ::
      Runs(s, es) && PoliteRun(s, es) && Runs(Exec(s, es), more) && PoliteRun(Exec(s, es), more) ==>
        Kept(Exec(s, es), Exec(Exec(s, es), more))
  }

  lemma {:induction false} PoliteRunExclusive(s: State, es: seq<Event>)
    requires Inv(s) && Exclusive(s) && Runs(s, es) && PoliteRun(s, es)
    ensures Inv(Exec(s, es)) && Exclusive(Exec(s, es))
    decreases es
  {
    if es != [] {
      StepKeepsInv(s, es[0]);
      StepExclusive(s, es[0]);
      PoliteRunExclusive(Apply(s, es[0]), es[1..]);
    }
  }

  lemma {:induction false} QuietIsPolite(s: State, es: seq<Event>)
    requires Runs(s, es) && Quiet(es)
    ensures PoliteRun(s, es)
    decreases es
  {
    if es != [] {
      QuietIsPolite(Apply(s, es[0]), es[1..]);
    }
  }

  lemma RunsOne(s: State, e: Event)
    requires Enabled(s, e)
    ensures Runs(s, [e]) && Exec(s, [e]) == Apply(s, e) && (Polite(s, e) ==> PoliteRun(s, [e]))
  {
    assert Runs(Apply(s, e), []);
    RunsCons(s, e, []);
    assert [e] + [] == [e] && [e][1..] == [];
  }

  /** Two replies in flight for one mint can disagree. */
  lemma RepliesDisagree(s: State, i: nat, j: nat, m: Mint, meta: Meta)
    requires i in s.inFlight && j in s.inFlight && i != j && m in s.inFlight[i] && m in s.inFlight[j]
    ensures var s' := Apply(s, ReplyOk(i, map[m := meta]));
      && m in s'.cache && s'.cache[m] == Some(meta)
      && Enabled(s', ReplyOk(j, map[]))
      && m in Apply(s', ReplyOk(j, map[])).cache && Apply(s', ReplyOk(j, map[])).cache[m] == None
  {
    var s' := Apply(s, ReplyOk(i, map[m := meta]));
    assert j in s'.inFlight && s'.inFlight[j] == s.inFlight[j];
  }

  /** The run `before` resolves `m` to `meta`, and the reply `last` then turns it into a known miss. */
  ghost predicate Regresses(s: State, m: Mint, meta: Meta, before: seq<Event>, last: Event) {
    && Runs(s, before) && Quiet(before) && Failures(before) == 0
    && var t := Exec(s, before);
       && m in t.cache && t.cache[m] == Some(meta)
       && last.ReplyOk? && Enabled(t, last) && m in Apply(t, last).cache && Apply(t, last).cache[m] == None
  }

  lemma RegressesCons(s: State, e: Event, m: Mint, meta: Meta, before: seq<Event>, last: Event)
    requires Enabled(s, e) && !e.Request? && !e.ReplyFail? && Regresses(Apply(s, e), m, meta, before, last)
    ensures Regresses(s, m, meta, [e] + before, last)
  {
    RunsCons(s, e, before);
    assert ([e] + before)[1..] == before;
    assert forall i :: 1 <= i < |[e] + before| ==> ([e] + before)[i] == before[i - 1];
  }

  lemma TwoInFlightRegress(s: State, i: nat, j: nat, m: Mint, meta: Meta) returns (before: seq<Event>, last: Event)
    requires i in s.inFlight && j in s.inFlight && i != j && m in s.inFlight[i] && m in s.inFlight[j]
    ensures Regresses(s, m, meta, before, last)
  {
    before, last := [ReplyOk(i, map[m := meta])], ReplyOk(j, map[]);
    RepliesDisagree(s, i, j, m, meta);
    RunsOne(s, before[0]);
  }

  /** A timeout that fires with `m` queued sends it, or leaves it queued behind a full batch. */
  lemma FireMoves(s: State, t: nat, m: Mint)
    requires Inv(s) && t in s.pending && m in s.queue && m !in s.cache
    ensures var s' := OnFire(s, t);
      && s.nextHandle !in s.inFlight && s'.inFlight == s.inFlight[s.nextHandle := BatchOf(s)]
      && |s'.queue| < |s.queue| && (m in BatchOf(s) || m in s'.queue)
  {
    FireSends(s, t);
    FireSplits(s);
    assert m in Elements(s.queue) - s.cache.Keys;
  }

  /** A mint both queued and in flight is sent a second time, once a timeout is pending. */
  lemma {:induction false} QueuedInFlightRegress(s: State, id: nat, m: Mint, meta: Meta)
    returns (before: seq<Event>, last: Event)
    requires Inv(s) && s.pending != {} && id in s.inFlight && m in s.inFlight[id] && m in s.queue && m !in s.cache
    ensures Regresses(s, m, meta, before, last)
    decreases |s.queue|
  {
    var t :| t in s.pending;
    var fire, other := Fire(t), s.nextHandle;
    var s1 := Apply(s, fire);
    StepKeepsInv(s, fire);
    FireMoves(s, t, m);
    if m in BatchOf(s) {
      before, last := TwoInFlightRegress(s1, id, other, m, meta);
    } else {
      var reply := ReplyOk(other, map[]);
      var s2 := Apply(s1, reply);
      StepKeepsInv(s1, reply);
      before, last := QueuedInFlightRegress(s2, id, m, meta);
      RegressesCons(s1, reply, m, meta, before, last);
      before := [reply] + before;
    }
    RegressesCons(s, fire, m, meta, before, last);
    before := [fire] + before;
  }

  /** A request for a mint in flight always can turn that mint, once resolved, into a known miss: to
      whatever it is first resolved, with no further request and no failed reply. */
  lemma ImpoliteRegresses(s: State, mints: seq<Mint>, meta: Meta) returns (m: Mint, before: seq<Event>, last: Event)
    requires Inv(s) && Exclusive(s) && !Polite(s, Request(mints))
    ensures m in mints && Regresses(Apply(s, Request(mints)), m, meta, before, last)
  {
    var mint, id :| mint in mints && mint != "" && id in s.inFlight && mint in s.inFlight[id];
    m := mint;
    var s' := Apply(s, Request(mints));
    StepKeepsInv(s, Request(mints));
    EnqueueIs(s.cache, s.queue, mints);
    assert m in Awaited(s) && m in Truthy(mints);
    assert m in Elements(s'.queue) && m !in Elements(s.queue);
    before, last := QueuedInFlightRegress(s', id, m, meta);
  }

  /** A mint nobody knows. */
  lemma Fresh(known: set<Mint>) returns (m: Mint)
    ensures m != "" && m !in known && forall k :: k in known ==> |k| < |m|
  {
    if known == {} {
      m := "m";
    } else {
      var k :| k in known;
      m := Fresh(known - {k});
      if |m| <= |k| {
        m := k + "m";
      }
    }
  }

  lemma RegressIsUnstable(s: State, m: Mint, meta: Meta, before: seq<Event>, last: Event)
    requires Regresses(s, m, meta, before, last)
    ensures !Stable(s)
  {
    QuietIsPolite(s, before);
    RunsOne(Exec(s, before), last);
    assert !Kept(Exec(s, before), Exec(Exec(s, before), [last]));
  }

  /** What is unstable after a polite step is unstable before it. */
  lemma StepUnstable(s: State, e: Event)
    requires Enabled(s, e) && Polite(s, e) && !Stable(Apply(s, e))
    ensures !Stable(s)
  {
    var s' := Apply(s, e);
    var es, more :| Runs(s', es) && PoliteRun(s', es) && Runs(Exec(s', es), more) && PoliteRun(Exec(s', es), more) &&
      !Kept(Exec(s', es), Exec(Exec(s', es), more));
    RunsCons(s, e, es);
    assert ([e] + es)[1..] == es;
    assert PoliteRun(s, [e] + es);
  }

  lemma CachedInFlightUnstable(s: State, id: nat, m: Mint)
    requires id in s.inFlight && m in s.inFlight[id] && m in s.cache
    ensures !Stable(s)
  {
    var tokens := if s.cache[m] == None then map[m := Meta("", "", "")] else map[];
    RunsOne(s, ReplyOk(id, tokens));
    assert Lookup(tokens, m) != s.cache[m];
    assert Runs(s, []) && PoliteRun(s, []) && Exec(s, []) == s;
    assert !Kept(s, Exec(s, [ReplyOk(id, tokens)]));
  }

  lemma QueuedInFlightUnstable(s: State, id: nat, m: Mint)
    requires Inv(s) && id in s.inFlight && m in s.inFlight[id] && m in s.queue && m !in s.cache
    ensures !Stable(s)
  {
    var meta := Meta("", "", "");
    if s.pending != {} {
      var before, last := QueuedInFlightRegress(s, id, m, meta);
      RegressIsUnstable(s, m, meta, before, last);
    } else {
      var other := Fresh(Known(s));
      var ask := Request([other]);
      var s' := Apply(s, ask);
      StepKeepsInv(s, ask);
      EnqueueIs(s.cache, s.queue, [other]);
      assert other in Truthy([other]) - s.cache.Keys;
      assert other in Elements(s'.queue) && other !in Elements(s.queue);
      forall i | i in s.inFlight ensures other !in s.inFlight[i] {
        assert other !in Awaited(s);
      }
      var before, last := QueuedInFlightRegress(s', id, m, meta);
      RegressIsUnstable(s', m, meta, before, last);
      StepUnstable(s, ask);
    }
  }

  /** The exact condition: from a state on, every resolved mint stays as it is if and only if no mint
      in flight is also cached, queued or in another request. */
  lemma StableIff(s: State)
    requires Inv(s)
    ensures Stable(s) <==> Exclusive(s)
  {
    if Exclusive(s) {
      forall es, more | Runs(s, es) && PoliteRun(s, es) && Runs(Exec(s, es), more) && PoliteRun(Exec(s, es), more)
        ensures Kept(Exec(s, es), Exec(Exec(s, es), more))
      {
        PoliteRunExclusive(s, es);
        PoliteRunKeepsValues(Exec(s, es), more);
      }
    } else if m :| m in Awaited(s) && m in s.cache.Keys + Elements(s.queue) {
      var id :| id in s.inFlight && m in s.inFlight[id];
      if m in s.cache {
        CachedInFlightUnstable(s, id, m);
      } else {
        QueuedInFlightUnstable(s, id, m);
      }
    } else {
      var i, j :| i in s.inFlight && j in s.inFlight && i != j && !(Elements(s.inFlight[i]) !! Elements(s.inFlight[j]));
      var m :| m in Elements(s.inFlight[i]) && m in Elements(s.inFlight[j]);
      var before, last := TwoInFlightRegress(s, i, j, m, Meta("", "", ""));
      RegressIsUnstable(s, m, Meta("", "", ""), before, last);
    }
  }

  /** In a caller's terms: a request leaves every resolved mint safe if and only if it asks for no mint
      in flight. */
  lemma PoliteIff(s: State, mints: seq<Mint>)
    requires Inv(s) && Exclusive(s)
    ensures Stable(Apply(s, Request(mints))) <==> Polite(s, Request(mints))
  {
    StepKeepsInv(s, Request(mints));
    RequestExclusiveIff(s, mints);
    StableIff(Apply(s, Request(mints)));
  }

  // ---------- each mint is asked for once ----------

  lemma FireOnce(s: State, t: nat)
    requires Inv(s) && Exclusive(s) && t in s.pending
    ensures Distinct(BatchOf(s)) && Elements(BatchOf(s)) !! s.cache.Keys + Awaited(s)
    ensures Awaited(OnFire(s, t)) == Awaited(s) + Elements(BatchOf(s)) && OnFire(s, t).cache == s.cache
  {
    FireAwaits(s, t);
    FireFrom(s, t);
    Apart(Elements(BatchOf(s)), Elements(s.queue), s.cache.Keys, Awaited(s), Elements(OnFire(s, t).queue));
  }

  /** What is cached or in flight stays so, unless a reply fails. */
  lemma StepHolds(s: State, e: Event)
    requires Inv(s) && Exclusive(s) && Enabled(s, e) && !e.ReplyFail?
    ensures s.cache.Keys + Awaited(s) <= Apply(s, e).cache.Keys + Awaited(Apply(s, e))
  {
    match e
    case Request(mints) => assert Awaited(Apply(s, e)) == Awaited(s);
    case Fire(t) => FireOnce(s, t);
    case ReplyOk(id, tokens) =>
      AwaitedWithout(s, id);
      ReplyConserves(s, id, tokens);
      assert Awaited(Apply(s, e)) == Awaited(s.(inFlight := s.inFlight - {id}));
  }

  lemma DistinctConcat(a: seq<Mint>, b: seq<Mint>)
    requires Distinct(a) && Distinct(b) && Elements(a) !! Elements(b)
    ensures Distinct(a + b) && Elements(a + b) == Elements(a) + Elements(b)
  {
    forall i, j | 0 <= i < |a| <= j < |a| + |b| ensures (a + b)[i] != (a + b)[j] {
      assert a[i] in Elements(a) && b[j - |a|] in Elements(b);
    }
  }

  /** With polite callers and no failed reply, no mint is ever sent twice, and none that is cached or
      in flight at the start is sent at all. */
  lemma {:induction false} SentOnce(s: State, es: seq<Event>)
    requires Inv(s) && Exclusive(s) && Runs(s, es) && PoliteRun(s, es) && Failures(es) == 0
    ensures Distinct(Concat(Sent(s, es)))
    ensures Elements(Concat(Sent(s, es))) !! s.cache.Keys + Awaited(s)
    decreases es
  {
    if es != [] {
      var s', rest := Apply(s, es[0]), Sent(Apply(s, es[0]), es[1..]);
      StepKeepsInv(s, es[0]);
      StepExclusive(s, es[0]);
      StepHolds(s, es[0]);
      SentOnce(s', es[1..]);
      if es[0].Fire? && BatchOf(s) != [] {
        FireOnce(s, es[0].timeout);
        assert ([BatchOf(s)] + rest)[1..] == rest;
        DistinctConcat(BatchOf(s), Concat(rest));
      } else {
        assert Sent(s, es) == [] + rest == rest;
      }
    }
  }
}
