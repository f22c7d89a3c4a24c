/** The resolver's code over its mutable variables, proved to take the steps of `TokenMeta`. */
module Resolver {
  import opened Wrappers
  import opened TokenMeta

  /** `Set.delete` */
  function Delete(q: seq<Mint>, m: Mint): seq<Mint> {
    if q == [] then [] else if q[0] == m then q[1..] else [q[0]] + Delete(q[1..], m)
  }

  lemma {:induction false} DeleteMiddle(a: seq<Mint>, m: Mint, b: seq<Mint>)
    requires m !in a
    ensures Delete(a + ([m] + b), m) == a + b
  {
    var q := a + ([m] + b);
    if a == [] {
      assert q[1..] == b && a + b == b;
    } else {
      assert q[1..] == a[1..] + ([m] + b);
      DeleteMiddle(a[1..], m, b);
      assert a + b == [a[0]] + (a[1..] + b);
    }
  }

  lemma {:induction false} UncachedSnoc(cache: map<Mint, Option<Meta>>, q: seq<Mint>, m: Mint)
    ensures Uncached(cache, q + [m]) == if m in cache then Uncached(cache, q) else Uncached(cache, q) + [m]
  {
    if q == [] {
      assert [m][1..] == [];
    } else {
      assert (q + [m])[1..] == q[1..] + [m];
      UncachedSnoc(cache, q[1..], m);
    }
  }

  lemma {:induction false} UncachedIsWithin(cache: map<Mint, Option<Meta>>, q: seq<Mint>, m: Mint)
    requires m !in q
    ensures m !in Uncached(cache, q)
  {
    if q != [] {
      UncachedIsWithin(cache, q[1..], m);
    }
  }

  lemma DropStep(cache: map<Mint, Option<Meta>>, a: seq<Mint>, m: Mint, b: seq<Mint>)
    requires m !in a
    ensures var now := Uncached(cache, a) + ([m] + b);
      (if m in cache then Delete(now, m) else now) == Uncached(cache, a + [m]) + b
  {
    var kept := Uncached(cache, a);
    UncachedIsWithin(cache, a, m);
    UncachedSnoc(cache, a, m);
    DeleteMiddle(kept, m, b);
    Assoc(kept, [m], b);
  }

  lemma ResolveSnoc(cache: map<Mint, Option<Meta>>, batch: seq<Mint>, m: Mint, tokens: map<Mint, Meta>)
    ensures Resolve(cache, batch + [m], tokens) == Resolve(cache, batch, tokens)[m := Lookup(tokens, m)]
  {
  }

  lemma DropEnds(cache: map<Mint, Option<Meta>>, s: seq<Mint>)
    ensures Uncached(cache, s[..0]) + s[0..] == s
    ensures Uncached(cache, s[..|s|]) + s[|s|..] == Uncached(cache, s)
    ensures Distinct(s) ==> Distinct(Uncached(cache, s))
  {
    UncachedIs(cache, s);
    assert s[..|s|] == s && s[|s|..] == [];
  }

  class TokenMetaResolver {
    var cache: map<Mint, Option<Meta>>
    var queue: seq<Mint>
    var timer: Option<nat>
    // the event loop's share of the state
    var pending: set<nat>
    var inFlight: map<nat, seq<Mint>>
    var nextHandle: nat

    ghost function Abstract(): State
      reads this
    {
      State(cache, queue, timer, pending, inFlight, nextHandle)
    }

    constructor ()
      ensures Abstract() == INIT
    {
      cache, queue, timer, pending, inFlight, nextHandle := map[], [], None, {}, map[], 0;
    }

    /** Schedules a timeout and names it in `timer`. */
    method SetTimer()
      modifies this`timer, this`pending, this`nextHandle
      ensures Abstract() == Arm(old(Abstract()))
    {
      timer, pending, nextHandle := Some(nextHandle), pending + {nextHandle}, nextHandle + 1;
    }

    method RequestTokenMeta(mints: seq<Mint>)
      modifies this
      ensures Abstract() == Apply(old(Abstract()), Request(mints))
    {
      var added := false;
      for i := 0 to |mints|
        invariant Enqueue(cache, queue, mints[i..]) == Enqueue(cache, old(queue), mints)
        invariant |queue| >= |old(queue)| && (added <==> |queue| > |old(queue)|)
        invariant Abstract() == old(Abstract()).(queue := queue)
      {
        assert mints[i..][1..] == mints[i + 1..];
        var m := mints[i];
        if m != "" && m !in cache && m !in queue {
          queue := queue + [m];
          added := true;
        }
      }
      assert mints[|mints|..] == [];
      if added && timer.None? {
        SetTimer();
      }
    }

    /** `flush` from the firing of a timeout to its `await`. */
    method Flush(timeout: nat)
      requires timeout in pending
      requires Distinct(queue)
      modifies this
      ensures Abstract() == Apply(old(Abstract()), Fire(timeout))
    {
      pending := pending - {timeout};
      timer := None;
      DropCached();
      var batch := queue[..Take(queue)];
      DropBatch(Take(queue));
      if batch == [] {
        if queue != [] {
          SetTimer();
        }
        return;
      }
      inFlight, nextHandle := inFlight[nextHandle := batch], nextHandle + 1;
    }

    /** Line 18: drop the mints resolved since they were queued. */
    method DropCached()
      requires Distinct(queue)
      modifies this`queue
      ensures queue == Uncached(cache, old(queue)) && Distinct(queue)
    {
      hide Uncached, Delete;
      var snapshot := queue;
      DropEnds(cache, snapshot);
      for i := 0 to |snapshot|
        invariant queue == Uncached(cache, snapshot[..i]) + snapshot[i..]
      {
        assert snapshot[i..] == [snapshot[i]] + snapshot[i + 1..];
        assert snapshot[..i + 1] == snapshot[..i] + [snapshot[i]];
        DropStep(cache, snapshot[..i], snapshot[i], snapshot[i + 1..]);
        if snapshot[i] in cache {
          queue := Delete(queue, snapshot[i]);
        }
      }
    }

    /** Line 20: the batch leaves the queue mint by mint. */
    method DropBatch(n: nat)
      requires n <= |queue|
      modifies this`queue
      ensures queue == old(queue)[n..]
    {
      var batch := queue[..n];
      for i := 0 to |batch|
        invariant queue == old(queue)[i..]
      {
        queue := Delete(queue, batch[i]);
      }
    }

    /** The continuation of `flush` when its request is answered; None is a failed call. */
    method Reply(id: nat, answer: Option<map<Mint, Meta>>)
      requires id in inFlight
      modifies this
      ensures Abstract() == Apply(old(Abstract()), if answer.Some? then ReplyOk(id, answer.value) else ReplyFail(id))
    {
      var batch := inFlight[id];
      inFlight := inFlight - {id};
      if answer.None? {
        Requeue(batch);
        SetTimer();
        return;
      }
      Store(batch, answer.value);
      if queue != [] {
        SetTimer();
      }
    }

    /** Line 26: the batch of a failed request goes back to the queue. */
    method Requeue(batch: seq<Mint>)
      modifies this`queue
      ensures queue == AddAll(old(queue), batch)
    {
      for i := 0 to |batch|
        invariant AddAll(queue, batch[i..]) == AddAll(old(queue), batch)
      {
        assert batch[i..][1..] == batch[i + 1..];
        queue := Add(queue, batch[i]);
      }
    }

    /** Line 32: every mint of the batch is cached, a miss as None. */
    method Store(batch: seq<Mint>, tokens: map<Mint, Meta>)
      modifies this`cache
      ensures cache == Resolve(old(cache), batch, tokens)
    {
      for i := 0 to |batch|
        invariant cache == Resolve(old(cache), batch[..i], tokens)
      {
        assert batch[..i + 1] == batch[..i] + [batch[i]];
        ResolveSnoc(old(cache), batch[..i], batch[i], tokens);
        cache := cache[batch[i] := Lookup(tokens, batch[i])];
      }
      assert batch[..|batch|] == batch;
    }
  }
}
