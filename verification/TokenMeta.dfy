/** The batched token-metadata resolver as a state machine (apps/operator-ui/src/api/useTokenMeta.js).
    A step is what runs between two awaits: a request, the head of `flush`, or its continuation. */
module TokenMeta {
  import opened Wrappers

  type Mint = string
  datatype Meta = Meta(symbol: string, name: string, icon: string)

  /** `cache`, `queue` (a JavaScript Set, so in insertion order) and `timer` are the module's own
      variables; the scheduled timeouts and the awaited requests belong to the event loop. */
  datatype State = State(
    cache: map<Mint, Option<Meta>>,
    queue: seq<Mint>,
    timer: Option<nat>,
    pending: set<nat>,
    inFlight: map<nat, seq<Mint>>,
    nextHandle: nat
  )

  const INIT := State(map[], [], None, {}, map[], 0)
  const BATCH := 100

  datatype Event =
    | Request(mints: seq<Mint>)
    | Fire(timeout: nat)
    | ReplyOk(id: nat, tokens: map<Mint, Meta>)
    | ReplyFail(id: nat)

  // ---------- the pieces of a step ----------

  function Elements<T>(s: seq<T>): set<T> {
    set x | x in s
  }

  /** `Set.add` */
  function Add(q: seq<Mint>, m: Mint): seq<Mint> {
    if m in q then q else q + [m]
  }

  function AddAll(q: seq<Mint>, ms: seq<Mint>): seq<Mint>
    decreases ms
  {
    if ms == [] then q else AddAll(Add(q, ms[0]), ms[1..])
  }

  /** A falsy mint (the empty string) is skipped, and so is a cached one. */
  predicate Wanted(cache: map<Mint, Option<Meta>>, m: Mint) {
    m != "" && m !in cache
  }

  function Enqueue(cache: map<Mint, Option<Meta>>, q: seq<Mint>, ms: seq<Mint>): seq<Mint>
    decreases ms
  {
    if ms == [] then q
    else Enqueue(cache, if Wanted(cache, ms[0]) then Add(q, ms[0]) else q, ms[1..])
  }

  function Uncached(cache: map<Mint, Option<Meta>>, q: seq<Mint>): seq<Mint> {
    if q == [] then []
    else if q[0] in cache then Uncached(cache, q[1..])
    else [q[0]] + Uncached(cache, q[1..])
  }

  function Take(q: seq<Mint>): nat {
    if |q| < BATCH then |q| else BATCH
  }

  function Lookup(tokens: map<Mint, Meta>, m: Mint): Option<Meta> {
    if m in tokens then Some(tokens[m]) else None
  }

  function Resolve(cache: map<Mint, Option<Meta>>, batch: seq<Mint>, tokens: map<Mint, Meta>): map<Mint, Option<Meta>> {
    cache + map m | m in batch :: Lookup(tokens, m)
  }

  /** A new timeout is scheduled, and `timer` names it. */
  function Arm(s: State): State {
    s.(timer := Some(s.nextHandle), pending := s.pending + {s.nextHandle}, nextHandle := s.nextHandle + 1)
  }

  // ---------- the steps ----------

  predicate Enabled(s: State, e: Event) {
    match e
    case Request(_) => true
    case Fire(t) => t in s.pending
    case ReplyOk(id, _) => id in s.inFlight
    case ReplyFail(id) => id in s.inFlight
  }

  function OnRequest(s: State, mints: seq<Mint>): State {
    var s' := s.(queue := Enqueue(s.cache, s.queue, mints));
    if |s'.queue| > |s.queue| && s.timer.None? then Arm(s') else s'
  }

  /** The batch a firing timeout sends: the first uncached mints of the queue. */
  function BatchOf(s: State): seq<Mint> {
    var q := Uncached(s.cache, s.queue);
    q[..Take(q)]
  }

  function OnFire(s: State, t: nat): State {
    var q := Uncached(s.cache, s.queue);
    var s' := s.(timer := None, pending := s.pending - {t}, queue := q[Take(q)..]);
    if BatchOf(s) == [] then (if s'.queue != [] then Arm(s') else s')
    else s'.(inFlight := s.inFlight[s.nextHandle := BatchOf(s)], nextHandle := s.nextHandle + 1)
  }

  function OnReplyOk(s: State, id: nat, tokens: map<Mint, Meta>): State
    requires id in s.inFlight
  {
    var s' := s.(inFlight := s.inFlight - {id}, cache := Resolve(s.cache, s.inFlight[id], tokens));
    if s'.queue != [] then Arm(s') else s'
  }

  function OnReplyFail(s: State, id: nat): State
    requires id in s.inFlight
  {
    Arm(s.(inFlight := s.inFlight - {id}, queue := AddAll(s.queue, s.inFlight[id])))
  }

  function Apply(s: State, e: Event): State
    requires Enabled(s, e)
  {
    match e
    case Request(mints) => OnRequest(s, mints)
    case Fire(t) => OnFire(s, t)
    case ReplyOk(id, tokens) => OnReplyOk(s, id, tokens)
    case ReplyFail(id) => OnReplyFail(s, id)
  }

  /** A run: every event is enabled where it happens. */
  predicate Runs(s: State, es: seq<Event>)
    decreases es
  {
    es == [] || (Enabled(s, es[0]) && Runs(Apply(s, es[0]), es[1..]))
  }

  function Exec(s: State, es: seq<Event>): State
    requires Runs(s, es)
    decreases es
  {
    if es == [] then s else Exec(Apply(s, es[0]), es[1..])
  }

  // ---------- the invariant ----------

  predicate GoodBatch(b: seq<Mint>) {
    1 <= |b| <= BATCH && Distinct(b)
  }

  ghost predicate Inv(s: State) {
    && Distinct(s.queue)
    && (s.timer.Some? ==> s.timer.value in s.pending)
    && (forall t :: t in s.pending ==> t < s.nextHandle)
    && (forall id :: id in s.inFlight ==> id < s.nextHandle && GoodBatch(s.inFlight[id]))
    && (s.queue != [] ==> s.pending != {} || s.inFlight != map[])
  }

  /** The mints awaited by some request. */
  ghost function Awaited(s: State): set<Mint> {
    set id, m | id in s.inFlight && m in s.inFlight[id] :: m
  }

  /** Every mint the resolver knows of. */
  ghost function Known(s: State): set<Mint> {
    s.cache.Keys + Elements(s.queue) + Awaited(s)
  }

  function Truthy(mints: seq<Mint>): set<Mint> {
    Elements(mints) - {""}
  }

  lemma ElementsCons<T>(s: seq<T>)
    requires s != []
    ensures Elements(s) == {s[0]} + Elements(s[1..])
  {
    assert s == [s[0]] + s[1..];
  }

  lemma {:induction false} AddAllIs(q: seq<Mint>, ms: seq<Mint>)
    requires Distinct(q)
    ensures Distinct(AddAll(q, ms)) && q <= AddAll(q, ms) && |AddAll(q, ms)| <= |q| + |ms|
    ensures Elements(AddAll(q, ms)) == Elements(q) + Elements(ms)
    decreases ms
  {
    if ms != [] {
      AddAllIs(Add(q, ms[0]), ms[1..]);
      ElementsCons(ms);
    }
  }

  lemma EnqueueOnce(cache: map<Mint, Option<Meta>>, q: seq<Mint>, m: Mint, others: set<Mint>)
    requires Distinct(q)
    ensures var next := if Wanted(cache, m) then Add(q, m) else q;
      && Distinct(next) && q <= next
      && Elements(next) + (others - {""} - cache.Keys) == Elements(q) + (({m} + others) - {""} - cache.Keys)
  {
    assert Elements(q + [m]) == Elements(q) + {m};
  }

  lemma {:induction false} EnqueueIs(cache: map<Mint, Option<Meta>>, q: seq<Mint>, ms: seq<Mint>)
    requires Distinct(q)
    ensures Distinct(Enqueue(cache, q, ms)) && q <= Enqueue(cache, q, ms)
    ensures Elements(Enqueue(cache, q, ms)) == Elements(q) + (Truthy(ms) - cache.Keys)
    decreases ms
  {
    if ms != [] {
      var next := if Wanted(cache, ms[0]) then Add(q, ms[0]) else q;
      EnqueueIs(cache, next, ms[1..]);
      ElementsCons(ms);
      EnqueueOnce(cache, q, ms[0], Elements(ms[1..]));
    }
  }

  lemma {:induction false} UncachedIs(cache: map<Mint, Option<Meta>>, q: seq<Mint>)
    ensures Distinct(q) ==> Distinct(Uncached(cache, q))
    ensures |Uncached(cache, q)| <= |q|
    ensures Elements(Uncached(cache, q)) == Elements(q) - cache.Keys
  {
    if q != [] {
      var rest := Uncached(cache, q[1..]);
      UncachedIs(cache, q[1..]);
      ElementsCons(q);
      forall m | m in rest ensures m in q[1..] {
        assert m in Elements(rest) && m in Elements(q[1..]);
      }
      if q[0] !in cache {
        assert Elements([q[0]] + rest) == {q[0]} + Elements(rest);
      }
    }
  }

  /** What a firing timeout sends and leaves. */
  lemma FireSplits(s: State)
    requires Distinct(s.queue)
    ensures var q := Uncached(s.cache, s.queue);
      && BatchOf(s) + q[Take(q)..] == q && Distinct(q) && Distinct(BatchOf(s)) && Distinct(q[Take(q)..])
      && |q| <= |s.queue| && |BatchOf(s)| <= BATCH
      && (BatchOf(s) == [] ==> q == [])
      && Elements(BatchOf(s)) + Elements(q[Take(q)..]) == Elements(s.queue) - s.cache.Keys
  {
    var q := Uncached(s.cache, s.queue);
    UncachedIs(s.cache, s.queue);
    assert q == q[..Take(q)] + q[Take(q)..];
    assert Elements(q) == Elements(q[..Take(q)]) + Elements(q[Take(q)..]);
  }

  /** Every step keeps the invariant: a set `timer` is a timeout still scheduled, although a firing
      timeout clears it whichever timeout it names and a failed reply overwrites it; and a nonempty
      queue always has a timeout or a reply to come. */
  lemma StepKeepsInv(s: State, e: Event)
    requires Inv(s) && Enabled(s, e)
    ensures Inv(Apply(s, e))
  {
    match e
    case Request(mints) => EnqueueIs(s.cache, s.queue, mints);
    case Fire(t) =>
      FireSplits(s);
      if BatchOf(s) != [] {
        assert s.nextHandle in Apply(s, e).inFlight;
      }
    case ReplyOk(id, tokens) =>
    case ReplyFail(id) => AddAllIs(s.queue, s.inFlight[id]);
  }

  /** No wakeup is lost, in any interleaving. */
  lemma {:induction false} RunKeepsInv(s: State, es: seq<Event>)
    requires Inv(s) && Runs(s, es)
    ensures Inv(Exec(s, es))
    decreases es
  {
    if es != [] {
      StepKeepsInv(s, es[0]);
      RunKeepsInv(Apply(s, es[0]), es[1..]);
    }
  }

  lemma ReachableInv(es: seq<Event>)
    requires Runs(INIT, es)
    ensures Inv(Exec(INIT, es))
  {
    RunKeepsInv(INIT, es);
  }

  // ---------- conservation of mints ----------

  function Asked(es: seq<Event>): set<Mint> {
    if es == [] then {} else (if es[0].Request? then Truthy(es[0].mints) else {}) + Asked(es[1..])
  }

  lemma AwaitedWithout(s: State, id: nat)
    requires id in s.inFlight
    ensures Awaited(s) == Awaited(s.(inFlight := s.inFlight - {id})) + Elements(s.inFlight[id])
  {
    var s' := s.(inFlight := s.inFlight - {id});
    forall m | m in Awaited(s) ensures m in Awaited(s') + Elements(s.inFlight[id]) {
      var k :| k in s.inFlight && m in s.inFlight[k];
      assert k != id ==> k in s'.inFlight && s'.inFlight[k] == s.inFlight[k];
    }
  }

  lemma AwaitedWith(s: State, id: nat, b: seq<Mint>)
    requires id !in s.inFlight
    ensures Awaited(s.(inFlight := s.inFlight[id := b])) == Awaited(s) + Elements(b)
  {
    var s' := s.(inFlight := s.inFlight[id := b]);
    forall m | m in Awaited(s) + Elements(b) ensures m in Awaited(s') {
      if m in b {
        assert s'.inFlight[id] == b;
      } else {
        var k :| k in s.inFlight && m in s.inFlight[k];
        assert s'.inFlight[k] == s.inFlight[k];
      }
    }
  }

  lemma RequestConserves(s: State, mints: seq<Mint>)
    requires Inv(s)
    ensures Known(OnRequest(s, mints)) == Known(s) + Truthy(mints)
  {
    EnqueueIs(s.cache, s.queue, mints);
    assert Awaited(OnRequest(s, mints)) == Awaited(s);
  }

  lemma FireAwaits(s: State, t: nat)
    requires Inv(s) && t in s.pending
    ensures Awaited(OnFire(s, t)) == Awaited(s) + Elements(BatchOf(s)) && OnFire(s, t).cache == s.cache
  {
    var s' := OnFire(s, t);
    if BatchOf(s) != [] {
      var sent := s.(inFlight := s.inFlight[s.nextHandle := BatchOf(s)]);
      AwaitedWith(s, s.nextHandle, BatchOf(s));
      assert s'.inFlight == sent.inFlight;
      assert Awaited(s') == Awaited(sent);
    } else {
      assert s'.inFlight == s.inFlight && Elements(BatchOf(s)) == {};
      assert Awaited(s') == Awaited(s);
    }
  }

  lemma MoveToBatch(cached: set<Mint>, queued: set<Mint>, batch: set<Mint>, left: set<Mint>, awaited: set<Mint>)
    requires batch + left == queued - cached
    ensures cached + left + (awaited + batch) == cached + queued + awaited
  {
    assert cached + (batch + left) == cached + queued;
  }

  lemma FireConserves(s: State, t: nat)
    requires Inv(s) && t in s.pending
    ensures Known(OnFire(s, t)) == Known(s)
  {
    FireSplits(s);
    var s' := OnFire(s, t);
    var batch := Elements(BatchOf(s));
    FireAwaits(s, t);
    MoveToBatch(s.cache.Keys, Elements(s.queue), batch, Elements(s'.queue), Awaited(s));
  }

  lemma ReplyConserves(s: State, id: nat, tokens: map<Mint, Meta>)
    requires Inv(s) && id in s.inFlight
    ensures Known(OnReplyOk(s, id, tokens)) == Known(s) && Known(OnReplyFail(s, id)) == Known(s)
    ensures OnReplyOk(s, id, tokens).cache.Keys == s.cache.Keys + Elements(s.inFlight[id])
  {
    hide Awaited;
    ReplyAwaits(s, id, tokens);
    AwaitedWithout(s, id);
    AddAllIs(s.queue, s.inFlight[id]);
    assert Resolve(s.cache, s.inFlight[id], tokens).Keys == s.cache.Keys + Elements(s.inFlight[id]);
    var left, batch := Awaited(s.(inFlight := s.inFlight - {id})), Elements(s.inFlight[id]);
    assert (s.cache.Keys + batch) + Elements(s.queue) + left == s.cache.Keys + Elements(s.queue) + (left + batch);
    assert s.cache.Keys + (Elements(s.queue) + batch) + left == s.cache.Keys + Elements(s.queue) + (left + batch);
  }

  lemma ReplyAwaits(s: State, id: nat, tokens: map<Mint, Meta>)
    requires id in s.inFlight
    ensures Awaited(OnReplyOk(s, id, tokens)) == Awaited(s.(inFlight := s.inFlight - {id}))
    ensures Awaited(OnReplyFail(s, id)) == Awaited(s.(inFlight := s.inFlight - {id}))
  {
  }

  /** Each step adds to the known mints exactly what it is asked for, and forgets none. */
  lemma StepConserves(s: State, e: Event)
    requires Inv(s) && Enabled(s, e)
    ensures Known(Apply(s, e)) == Known(s) + (if e.Request? then Truthy(e.mints) else {})
    ensures s.cache.Keys <= Apply(s, e).cache.Keys
  {
    match e
    case Request(mints) => RequestConserves(s, mints);
    case Fire(t) => FireConserves(s, t);
    case ReplyOk(id, tokens) => ReplyConserves(s, id, tokens);
    case ReplyFail(id) => ReplyConserves(s, id, map[]);
  }

  /** No requested mint is lost and none is invented: over every run, the mints in the cache, in the
      queue or in flight are those known at the start and those asked for since. */
  lemma {:induction false} RunConserves(s: State, es: seq<Event>)
    requires Inv(s) && Runs(s, es)
    ensures Known(Exec(s, es)) == Known(s) + Asked(es)
    ensures s.cache.Keys <= Exec(s, es).cache.Keys
    decreases es
  {
    if es != [] {
      StepConserves(s, es[0]);
      StepKeepsInv(s, es[0]);
      RunConserves(Apply(s, es[0]), es[1..]);
    }
  }

  /** What a timeout sends in any reachable state: nothing, and then the queue is left empty, or one
      batch of 1 to 100 distinct mints of the queue, none of them cached. The re-arming of an empty
      batch (line 21) is never reached. */
  lemma FireSends(s: State, t: nat)
    requires Inv(s) && Enabled(s, Fire(t))
    ensures var s' := Apply(s, Fire(t));
      if BatchOf(s) == [] then
        s' == s.(timer := None, pending := s.pending - {t}, queue := [])
      else
        && s'.inFlight == s.inFlight[s.nextHandle := BatchOf(s)] && s.nextHandle !in s.inFlight
        && GoodBatch(BatchOf(s)) && Elements(BatchOf(s)) <= Elements(s.queue)
        && Elements(BatchOf(s)) !! s.cache.Keys && Elements(BatchOf(s)) !! Elements(s'.queue)
        && (|BatchOf(s)| < BATCH ==> s'.queue == [])
  {
    FireSplits(s);
    var q := Uncached(s.cache, s.queue);
    forall i, j | 0 <= i < Take(q) <= j < |q| ensures q[i] != q[j] {}
  }

  /** What a timeout takes, by number: of the queued mints that are not cached a hundred, or all of
      them if there are fewer; the others stay queued. */
  lemma FireTakes(s: State, t: nat)
    requires Inv(s) && Enabled(s, Fire(t))
    ensures var (s', waiting) := (Apply(s, Fire(t)), |Elements(s.queue) - s.cache.Keys|);
      && (waiting == 0 ==> s'.inFlight == s.inFlight)
      && (waiting > 0 ==>
            && s.nextHandle in s'.inFlight
            && |s'.inFlight[s.nextHandle]| == (if waiting < 100 then waiting else 100)
            && |s'.queue| == waiting - |s'.inFlight[s.nextHandle]|)
  {
    var q := Uncached(s.cache, s.queue);
    UncachedIs(s.cache, s.queue);
    DistinctSize(q);
    FireSends(s, t);
  }

  /** What a good reply stores: the metadata of each mint of its batch that the reply has, a known miss
      for each that it has not, and nothing else; every other cached mint keeps its value. */
  lemma ReplyStores(s: State, id: nat, tokens: map<Mint, Meta>)
    requires id in s.inFlight
    ensures var s' := Apply(s, ReplyOk(id, tokens));
      && (forall m :: m in s'.cache <==> m in s.cache || m in s.inFlight[id])
      && (forall m :: m in s.inFlight[id] ==> s'.cache[m] == if m in tokens then Some(tokens[m]) else None)
      && (forall m :: m in s.cache && m !in s.inFlight[id] ==> s'.cache[m] == s.cache[m])
      && s'.queue == s.queue && s'.inFlight == s.inFlight - {id}
    ensures var s' := Apply(s, ReplyFail(id));
      s'.cache == s.cache && s'.inFlight == s.inFlight - {id} && s'.timer == Some(s.nextHandle)
  {
  }

  // ---------- draining ----------

  /** The work left: each step that is not a request or a failure does some of it. */
  function Work(s: State): nat {
    2 * |s.queue| + 2 * |s.inFlight| + |s.pending|
  }

  function Failures(es: seq<Event>): nat {
    if es == [] then 0 else (if es[0].ReplyFail? then 1 else 0) + Failures(es[1..])
  }

  predicate Quiet(es: seq<Event>) {
    forall i :: 0 <= i < |es| ==> !es[i].Request?
  }

  lemma WithoutOne(m: map<nat, seq<Mint>>, id: nat)
    requires id in m
    ensures |m - {id}| == |m| - 1
  {
    assert (m - {id}).Keys == m.Keys - {id};
  }

  lemma ArmWorks(s: State)
    requires forall t :: t in s.pending ==> t < s.nextHandle
    ensures Work(Arm(s)) == Work(s) + 1
  {
  }

  lemma FireWorks(s: State, t: nat)
    requires Inv(s) && t in s.pending
    ensures Work(OnFire(s, t)) + 1 <= Work(s)
  {
    FireSends(s, t);
    FireSplits(s);
    assert |s.pending - {t}| == |s.pending| - 1;
    if BatchOf(s) != [] {
      assert s.inFlight[s.nextHandle := BatchOf(s)].Keys == s.inFlight.Keys + {s.nextHandle};
    }
  }

  lemma StepWorks(s: State, e: Event)
    requires Inv(s) && Enabled(s, e) && !e.Request?
    ensures Work(Apply(s, e)) + 1 <= Work(s) + (if e.ReplyFail? then 2 * BATCH else 0)
  {
    match e
    case Fire(t) => FireWorks(s, t);
    case ReplyOk(id, tokens) =>
      WithoutOne(s.inFlight, id);
      ArmWorks(s.(inFlight := s.inFlight - {id}, cache := Resolve(s.cache, s.inFlight[id], tokens)));
    case ReplyFail(id) =>
      WithoutOne(s.inFlight, id);
      AddAllIs(s.queue, s.inFlight[id]);
      ArmWorks(s.(inFlight := s.inFlight - {id}, queue := AddAll(s.queue, s.inFlight[id])));
  }

  /** Without new requests every run is finite, and this many steps long at most: the work at hand
      plus 200 for each failed reply. */
  lemma {:induction false} QuietRunIsShort(s: State, es: seq<Event>)
    requires Inv(s) && Runs(s, es) && Quiet(es)
    ensures |es| + Work(Exec(s, es)) <= Work(s) + 2 * BATCH * Failures(es)
    decreases es
  {
    if es != [] {
      StepWorks(s, es[0]);
      StepKeepsInv(s, es[0]);
      QuietRunIsShort(Apply(s, es[0]), es[1..]);
    }
  }

  /** Nothing is scheduled and nothing is awaited. */
  predicate Halted(s: State) {
    s.pending == {} && s.inFlight == map[]
  }

  /** The resolver drains: a run without new requests that can go no further ends with an empty queue
      and every known mint resolved. */
  lemma QuietRunDrains(s: State, es: seq<Event>)
    requires Inv(s) && Runs(s, es) && Quiet(es)
    requires forall e: Event :: Enabled(Exec(s, es), e) ==> e.Request?
    ensures Halted(Exec(s, es)) && Exec(s, es).queue == []
    ensures Exec(s, es).cache.Keys == Known(s)
  {
    var end := Exec(s, es);
    RunKeepsInv(s, es);
    RunConserves(s, es);
    QuietAsksNothing(es);
    forall t ensures t !in end.pending { assert !Enabled(end, Fire(t)); }
    forall id ensures id !in end.inFlight { assert !Enabled(end, ReplyFail(id)); }
    assert Awaited(end) == {};
  }

  lemma {:induction false} QuietAsksNothing(es: seq<Event>)
    requires Quiet(es)
    ensures Asked(es) == {}
  {
    if es != [] {
      QuietAsksNothing(es[1..]);
    }
  }

  // ---------- the cost of a burst ----------

  /** The batches a run sends, in order. */
  function Sent(s: State, es: seq<Event>): seq<seq<Mint>>
    requires Runs(s, es)
    decreases es
  {
    if es == [] then [] else
    (if es[0].Fire? && BatchOf(s) != [] then [BatchOf(s)] else []) + Sent(Apply(s, es[0]), es[1..])
  }

  function Chunks(q: seq<Mint>): seq<seq<Mint>> {
    if q == [] then [] else [q[..Take(q)]] + Chunks(q[Take(q)..])
  }

  /** At most one timeout or request is outstanding, and no mint is in two places. */
  ghost predicate Serial(s: State) {
    && Inv(s)
    && Elements(s.queue) !! s.cache.Keys
    && (s.inFlight == map[] || exists id :: s.inFlight.Keys == {id})
    && (s.pending == {} || exists t :: s.pending == {t})
    && (s.pending == {} || s.inFlight == map[])
    && Elements(s.queue) !! Awaited(s)
  }

  lemma {:induction false} AllUncached(cache: map<Mint, Option<Meta>>, q: seq<Mint>)
    requires Elements(q) !! cache.Keys
    ensures Uncached(cache, q) == q
  {
    if q != [] {
      assert q[0] in Elements(q) && forall m :: m in q[1..] ==> m in Elements(q);
      AllUncached(cache, q[1..]);
    }
  }

  lemma SerialFire(s: State, t: nat)
    requires Serial(s) && Enabled(s, Fire(t))
    ensures Serial(Apply(s, Fire(t)))
    ensures Chunks(s.queue) == (if BatchOf(s) != [] then [BatchOf(s)] else []) + Chunks(Apply(s, Fire(t)).queue)
  {
    var s' := Apply(s, Fire(t));
    StepKeepsInv(s, Fire(t));
    FireSends(s, t);
    AllUncached(s.cache, s.queue);
    if BatchOf(s) != [] {
      AwaitedWith(s, s.nextHandle, BatchOf(s));
      assert s'.inFlight.Keys == {s.nextHandle};
      assert Awaited(s) == {};
    }
  }

  lemma SerialReply(s: State, id: nat, tokens: map<Mint, Meta>)
    requires Serial(s) && Enabled(s, ReplyOk(id, tokens))
    ensures Serial(Apply(s, ReplyOk(id, tokens))) && Apply(s, ReplyOk(id, tokens)).queue == s.queue
  {
    var s' := Apply(s, ReplyOk(id, tokens));
    StepKeepsInv(s, ReplyOk(id, tokens));
    AwaitedWithout(s, id);
    assert s'.inFlight == map[];
    assert Awaited(s') == {};
    assert s.pending == {};
  }

  /** From such a state, a run without requests or failures that ends halted sends the queue cut into
      hundreds, in order and each mint once. */
  lemma {:induction false} SerialRunSends(s: State, es: seq<Event>)
    requires Serial(s) && Runs(s, es) && Quiet(es) && Failures(es) == 0 && Halted(Exec(s, es))
    ensures Sent(s, es) == Chunks(s.queue)
    decreases es
  {
    if es != [] {
      match es[0]
      case Fire(t) =>
        SerialFire(s, t);
        SerialRunSends(Apply(s, es[0]), es[1..]);
      case ReplyOk(id, tokens) =>
        SerialReply(s, id, tokens);
        SerialRunSends(Apply(s, es[0]), es[1..]);
    }
  }

  function Concat(parts: seq<seq<Mint>>): seq<Mint> {
    if parts == [] then [] else parts[0] + Concat(parts[1..])
  }

  lemma {:induction false} ChunksAre(q: seq<Mint>)
    ensures |Chunks(q)| == (|q| + BATCH - 1) / BATCH && Concat(Chunks(q)) == q
    decreases |q|
  {
    if q != [] {
      ChunksAre(q[Take(q)..]);
      assert q == q[..Take(q)] + q[Take(q)..];
    }
  }

  /** The cost of a burst on an idle resolver: k distinct new mints cost exactly ceil(k / 100)
      requests, which together send each of them once, whatever the order of events. */
  lemma BurstCost(s: State, mints: seq<Mint>, es: seq<Event>)
    requires Inv(s) && s.queue == [] && Halted(s)
    requires Runs(s, [Request(mints)] + es) && Quiet(es) && Failures(es) == 0
    requires Halted(Exec(s, [Request(mints)] + es))
    ensures var sent := Sent(s, [Request(mints)] + es);
      var wanted := Truthy(mints) - s.cache.Keys;
      && Distinct(Concat(sent)) && Elements(Concat(sent)) == wanted
      && |Concat(sent)| == |wanted|
      && |sent| == (|wanted| + BATCH - 1) / BATCH
  {
    var s' := OnRequest(s, mints);
    RequestThen(s, mints, es);
    SerialRequest(s, mints);
    SerialRunSends(s', es);
    ChunksAre(s'.queue);
    DistinctSize(s'.queue);
  }

  lemma RequestThen(s: State, mints: seq<Mint>, es: seq<Event>)
    requires Runs(s, [Request(mints)] + es)
    ensures Runs(OnRequest(s, mints), es)
    ensures Exec(s, [Request(mints)] + es) == Exec(OnRequest(s, mints), es)
    ensures Sent(s, [Request(mints)] + es) == Sent(OnRequest(s, mints), es)
  {
    assert ([Request(mints)] + es)[1..] == es;
    assert Sent(s, [Request(mints)] + es) == [] + Sent(OnRequest(s, mints), es);
  }

  lemma SerialRequest(s: State, mints: seq<Mint>)
    requires Inv(s) && s.queue == [] && Halted(s)
    ensures Serial(OnRequest(s, mints)) && Elements(OnRequest(s, mints).queue) == Truthy(mints) - s.cache.Keys
  {
    var s' := OnRequest(s, mints);
    StepKeepsInv(s, Request(mints));
    EnqueueIs(s.cache, [], mints);
    assert Awaited(s') == {};
    assert s'.pending == {} || s'.pending == {s.nextHandle};
  }

  lemma {:induction false} DistinctSize<T>(s: seq<T>)
    requires Distinct(s)
    ensures |Elements(s)| == |s|
  {
    if s != [] {
      DistinctSize(s[1..]);
      assert Elements(s) == {s[0]} + Elements(s[1..]);
    }
  }
}
