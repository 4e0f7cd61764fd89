/** What every interleaving of the JWKS cache protocol guarantees. */
module JwksProperties {
  import opened JwksProtocol
  import opened Runs
  import opened Wrappers

  /* ----- where the cached body comes from ----- */

  // Before states[i], some request read `body` from the endpoint.
  ghost predicate Fetched(run: Trace, i: nat, body: string) {
    exists k :: 0 <= k < i <= |run.events| && run.events[k].ReadBody? && run.events[k].outcome == Success(body)
  }

  // Every body a request holds or has returned, and the cached one, was read from the endpoint.
  ghost predicate BodiesFetched(run: Trace, i: nat)
    requires i < |run.states|
  {
    var s := run.states[i];
    && (s.cached.Some? ==> Fetched(run, i, s.cached.value))
    && (forall r :: r in s.pcs && (s.pcs[r].WaitWrite? || s.pcs[r].HasWrite?) ==> Fetched(run, i, s.pcs[r].body))
    && (forall r :: r in s.pcs && s.pcs[r].Done? && s.pcs[r].result.Success? ==> Fetched(run, i, s.pcs[r].result.value))
  }

  lemma {:induction false} BodiesAreFetched(run: Trace, i: nat)
    requires From(Next, run, INIT) && i < |run.states|
    ensures BodiesFetched(run, i)
  {
    if i > 0 {
      BodiesAreFetched(run, i - 1);
      assert StepAt(Next, run, i - 1);
      var e := run.events[i - 1];
      assert forall body :: Fetched(run, i - 1, body) ==> Fetched(run, i, body);
      if e.ReadBody? && e.outcome.Success? {
        assert run.events[i - 1].ReadBody?;
        assert Fetched(run, i, e.outcome.value);
      }
    }
  }

  lemma {:induction false} CacheStaysSome(run: Trace, i: nat, j: nat)
    requires From(Next, run, INIT) && i <= j < |run.states| && run.states[i].cached.Some?
    ensures run.states[j].cached.Some?
  {
    if i < j {
      CacheStaysSome(run, i, j - 1);
      assert StepAt(Next, run, j - 1);
    }
  }

  /** The cache goes from empty to full once, and only ever holds what a successful fetch returned. */
  lemma CacheIsFetchedAndKept(run: Trace, i: nat, j: nat)
    requires From(Next, run, INIT) && i <= j < |run.states|
    ensures run.states[i].cached.Some? ==> run.states[j].cached.Some?
    ensures run.states[j].cached.Some? ==> Fetched(run, j, run.states[j].cached.value)
  {
    BodiesAreFetched(run, j);
    if run.states[i].cached.Some? {
      CacheStaysSome(run, i, j);
    }
  }

  lemma {:induction false} FinishedStays(run: Trace, i: nat, j: nat, r: RequestId)
    requires From(Next, run, INIT) && i <= j < |run.states|
    requires r in run.states[i].pcs && run.states[i].pcs[r].Finished()
    ensures r in run.states[j].pcs && run.states[j].pcs[r] == run.states[i].pcs[r]
  {
    if i < j {
      FinishedStays(run, i, j - 1, r);
      assert StepAt(Next, run, j - 1);
    }
  }

  /** A request that failed or was dropped has, over the whole run, never changed the cache. */
  lemma UnsuccessfulNeverStores(run: Trace, i: nat, k: nat, r: RequestId)
    requires From(Next, run, INIT) && k < i < |run.states|
    requires r in run.states[i].pcs && run.states[i].pcs[r].Unsuccessful() && run.events[k].r == r
    ensures run.states[k + 1].cached == run.states[k].cached
  {
    assert StepAt(Next, run, k);
    if run.events[k].Store? {
      FinishedStays(run, k + 1, i, r);
    }
  }

  /* ----- when the cached body is final ----- */

  // The requests that saw an empty cache and may still store.
  function Missers(s: State): set<RequestId> {
    set r | r in s.pcs && s.pcs[r].Missed()
  }

  function Stores(run: Trace, i: nat, j: nat): nat
    requires i <= j <= |run.events|
  {
    if i == j then 0 else Stores(run, i, j - 1) + if run.events[j - 1].Store? then 1 else 0
  }

  lemma MissersStep(s: State, e: Event)
    requires Enabled(s, e) && s.cached.Some?
    ensures Missers(Apply(s, e)) <= Missers(s)
    ensures e.r in Missers(s) && Apply(s, e).pcs[e.r].Finished() ==> Missers(Apply(s, e)) == Missers(s) - {e.r}
  {
  }

  /**
   Settling: once the cache is full the set of missers only shrinks, and each later store uses up one of them.
   So a run stores at most as often as there were missers at the first store, and not at all once they are gone.
   */
  lemma {:induction false} StoresUseUpMissers(run: Trace, i: nat, j: nat)
    requires From(Next, run, INIT) && i <= j < |run.states| && run.states[i].cached.Some?
    ensures Missers(run.states[j]) <= Missers(run.states[i])
    ensures Stores(run, i, j) + |Missers(run.states[j])| <= |Missers(run.states[i])|
  {
    if i < j {
      StoresUseUpMissers(run, i, j - 1);
      CacheStaysSome(run, i, j - 1);
      assert StepAt(Next, run, j - 1);
      MissersCount(run.states[j - 1], run.events[j - 1]);
    }
  }

  lemma MissersCount(s: State, e: Event)
    requires Enabled(s, e) && s.cached.Some?
    ensures Missers(Apply(s, e)) <= Missers(s)
    ensures |Missers(Apply(s, e))| + (if e.Store? then 1 else 0) <= |Missers(s)|
  {
    MissersStep(s, e);
    if e.Store? {
      assert e.r in Missers(s);
    } else {
      Smaller(Missers(Apply(s, e)), Missers(s));
    }
  }

  lemma Smaller(a: set<RequestId>, b: set<RequestId>)
    requires a <= b
    ensures |a| <= |b|
  {
    assert |b| == |a| + |b - a| by {
      assert b == a + (b - a);
    }
  }

  // Every request that may still store holds the cached body already.
  predicate Settled(s: State) {
    && s.cached.Some?
    && forall r :: r in Missers(s) ==> !s.pcs[r].Fetching() && s.pcs[r].body == s.cached.value
  }

  // From a settled cache a step leads to one with the same body, and whoever is answered gets that body.
  lemma SettledStep(s: State, e: Event)
    requires Settled(s) && Enabled(s, e)
    ensures Settled(Apply(s, e)) && Apply(s, e).cached == s.cached
    ensures NextPc(s, e).Done? ==> NextPc(s, e).result == Success(s.cached.value)
  {
    MissersStep(s, e);
    if e.Store? || e.Respond? || e.ReadBody? {
      assert e.r in Missers(s);
    }
  }

  lemma {:induction false} SettledStays(s: State, run: Trace, i: nat)
    requires From(Next, run, s) && Settled(s) && i < |run.states|
    ensures Settled(run.states[i]) && run.states[i].cached == s.cached
  {
    if i > 0 {
      SettledStays(s, run, i - 1);
      assert StepAt(Next, run, i - 1);
      SettledStep(run.states[i - 1], run.events[i - 1]);
    }
  }

  function UnfinishedExcept(s: State, m: RequestId): set<RequestId> {
    set r | r in s.pcs && r != m && !s.pcs[r].Finished()
  }

  // The timeout can leave `m` alone without touching it or the cache.
  lemma {:induction false} DropOthers(s: State, run: Trace, m: RequestId) returns (longer: Trace)
    requires From(Next, run, s) && LockInv(run.Last()) && m in run.Last().pcs
    ensures From(Next, longer, s) && LockInv(longer.Last()) && UnfinishedExcept(longer.Last(), m) == {}
    ensures m in longer.Last().pcs && longer.Last().pcs[m] == run.Last().pcs[m]
    ensures longer.Last().cached == run.Last().cached
    decreases UnfinishedExcept(run.Last(), m)
  {
    var others := UnfinishedExcept(run.Last(), m);
    if others == {} {
      longer := run;
    } else {
      var r :| r in others;
      longer := Advance(Next, s, run, Drop(r), Apply(run.Last(), Drop(r)));
      LockStep(run.Last(), Drop(r));
      assert UnfinishedExcept(longer.Last(), m) == others - {r};
      longer := DropOthers(s, longer, m);
    }
  }

  lemma AloneInQueue(s: State, m: RequestId)
    requires LockInv(s) && UnfinishedExcept(s, m) == {} && m in s.pcs && s.pcs[m].WaitWrite?
    ensures Enabled(s, GrantWrite(m))
  {
    forall r | r in s.pcs && r != m ensures s.pcs[r].Finished() {
      assert r !in UnfinishedExcept(s, m);
    }
    assert m in s.lock.queue;
    assert s.lock.queue[0] in s.lock.queue;
    assert s.lock.readers == {};
  }

  lemma StoreAlone(s: State, run: Trace, m: RequestId) returns (longer: Trace)
    requires From(Next, run, s) && LockInv(run.Last()) && UnfinishedExcept(run.Last(), m) == {}
    requires m in run.Last().pcs && (run.Last().pcs[m].WaitWrite? || run.Last().pcs[m].HasWrite?)
    ensures From(Next, longer, s) && longer.Last().cached == Some(run.Last().pcs[m].body)
  {
    longer := run;
    if run.Last().pcs[m].WaitWrite? {
      AloneInQueue(run.Last(), m);
      longer := Advance(Next, s, run, GrantWrite(m), Apply(run.Last(), GrantWrite(m)));
    }
    longer := Advance(Next, s, longer, Store(m), Apply(longer.Last(), Store(m)));
  }

  lemma FetchAlone(s: State, run: Trace, m: RequestId, body: string) returns (longer: Trace)
    requires From(Next, run, s) && LockInv(run.Last()) && UnfinishedExcept(run.Last(), m) == {}
    requires m in run.Last().pcs && run.Last().pcs[m].Fetching()
    ensures From(Next, longer, s) && LockInv(longer.Last()) && UnfinishedExcept(longer.Last(), m) == {}
    ensures m in longer.Last().pcs && longer.Last().pcs[m] == WaitWrite(body)
  {
    longer := run;
    if run.Last().pcs[m].Sending? {
      LockStep(run.Last(), Respond(m, None));
      longer := Advance(Next, s, run, Respond(m, None), Apply(run.Last(), Respond(m, None)));
    }
    var read := ReadBody(m, Success(body));
    LockStep(longer.Last(), read);
    longer := Advance(Next, s, longer, read, Apply(longer.Last(), read));
  }

  // A misser that does not already hold the cached body can go on to replace it.
  lemma DissenterCanStore(s: State, m: RequestId) returns (run: Trace)
    requires LockInv(s) && s.cached.Some? && m in Missers(s)
    requires s.pcs[m].Fetching() || s.pcs[m].body != s.cached.value
    ensures From(Next, run, s) && run.Last().cached.Some? && run.Last().cached != s.cached
  {
    run := DropOthers(s, Run([s], []), m);
    if s.pcs[m].Fetching() {
      run := FetchAlone(s, run, m, s.cached.value + "'");
    }
    run := StoreAlone(s, run, m);
  }

  /**
   The cached body is final, whatever happens next, if and only if every request that may still store already
   holds that very body. In particular it is final once the requests that raced for the first fetch are gone,
   and it is not before, because `get_jwks_json` stores without looking again.
   */
  lemma FinalIffSettled(s: State)
    requires LockInv(s) && s.cached.Some?
    ensures Settled(s) <==> forall run: Trace :: From(Next, run, s) ==> run.Last().cached == s.cached
  {
    if Settled(s) {
      forall run: Trace | From(Next, run, s) ensures run.Last().cached == s.cached {
        SettledStays(s, run, |run.events|);
      }
    } else {
      var m :| m in Missers(s) && (s.pcs[m].Fetching() || s.pcs[m].body != s.cached.value);
      var run := DissenterCanStore(s, m);
      assert From(Next, run, s);
    }
  }

  const FREE: Lock := Lock([], {}, None)

  lemma HeadWaits(s: State)
    requires LockInv(s) && s.lock.queue != []
    ensures exists r :: r in s.pcs && s.pcs[r].Waiting()
  {
    assert s.lock.queue[0] in s.lock.queue;
  }

  lemma FreeWhenFinished(s: State)
    requires LockInv(s) && forall r :: r in s.pcs ==> s.pcs[r].Finished()
    ensures s.lock == FREE
  {
    if s.lock.queue != [] {
      HeadWaits(s);
      assert false;
    }
    match s.lock.writer
    case Some(w) => assert false;
    case None =>
  }

  lemma MissOnFreeLock(run: Trace, r: RequestId) returns (longer: Trace)
    requires From(Next, run, INIT) && run.Last().lock == FREE && run.Last().cached.None? && r !in run.Last().pcs
    ensures From(Next, longer, INIT) && longer.Last() == run.Last().(pcs := run.Last().pcs[r := Sending])
    ensures run.events <= longer.events
  {
    longer := Advance(Next, INIT, run, Arrive(r), Apply(run.Last(), Arrive(r)));
    longer := Advance(Next, INIT, longer, GrantRead(r), Apply(longer.Last(), GrantRead(r)));
    longer := Advance(Next, INIT, longer, Check(r), Apply(longer.Last(), Check(r)));
  }

  lemma StoreOnFreeLock(run: Trace, r: RequestId, body: string) returns (longer: Trace)
    requires From(Next, run, INIT) && run.Last().lock == FREE && r in run.Last().pcs && run.Last().pcs[r].Sending?
    ensures From(Next, longer, INIT) && run.events <= longer.events
    ensures longer.Last() == State(Some(body), FREE, run.Last().pcs[r := Done(Success(body))])
  {
    longer := Advance(Next, INIT, run, Respond(r, None), Apply(run.Last(), Respond(r, None)));
    longer := Advance(Next, INIT, longer, ReadBody(r, Success(body)), Apply(longer.Last(), ReadBody(r, Success(body))));
    longer := Advance(Next, INIT, longer, GrantWrite(r), Apply(longer.Last(), GrantWrite(r)));
    longer := Advance(Next, INIT, longer, Store(r), Apply(longer.Last(), Store(r)));
  }

  /** The first stored body need not stay: of two requests that race for it, the later answer can win. */
  lemma FirstBodyCanBeReplaced() returns (first: Trace, second: Trace)
    ensures From(Next, first, INIT) && first.Last().cached == Some("old")
    ensures From(Next, second, INIT) && first.events <= second.events && second.Last().cached == Some("new")
  {
    first := MissOnFreeLock(Run([INIT], []), 0);
    first := MissOnFreeLock(first, 1);
    first := StoreOnFreeLock(first, 0, "old");
    second := StoreOnFreeLock(first, 1, "new");
  }

  /* ----- how often the endpoint is asked ----- */

  // Before states[i], the requests that looked at the cache, and how many of them went on to fetch.
  function Checkers(run: Trace, i: nat): set<RequestId>
    requires i <= |run.events|
  {
    if i == 0 then {}
    else Checkers(run, i - 1) + if run.events[i - 1].Check? then {run.events[i - 1].r} else {}
  }

  function Fetches(run: Trace, i: nat): nat
    requires i <= |run.events| < |run.states|
  {
    if i == 0 then 0
    else Fetches(run, i - 1) + if run.events[i - 1].Check? && run.states[i - 1].cached.None? then 1 else 0
  }

  lemma {:induction false} CheckersHaveChecked(run: Trace, i: nat)
    requires From(Next, run, INIT) && i <= |run.events|
    ensures forall r :: r in Checkers(run, i) ==>
              r in run.states[i].pcs && !run.states[i].pcs[r].WaitRead? && !run.states[i].pcs[r].HasRead?
  {
    if i > 0 {
      CheckersHaveChecked(run, i - 1);
      assert StepAt(Next, run, i - 1);
    }
  }

  lemma {:induction false} EarlyCheckersFetch(run: Trace, i: nat)
    requires From(Next, run, INIT) && i <= |run.events| && run.states[i].cached.None?
    ensures Fetches(run, i) == |Checkers(run, i)|
  {
    if i > 0 {
      assert StepAt(Next, run, i - 1);
      EarlyCheckersFetch(run, i - 1);
      CheckersHaveChecked(run, i - 1);
    }
  }

  /**
   From the first store on, nothing is fetched any more: over the whole run the endpoint is asked exactly as
   often as there were requests that looked at the cache before that store.
   */
  lemma {:induction false} FetchesEndWithFirstStore(run: Trace, first: nat, i: nat)
    requires From(Next, run, INIT) && first < i <= |run.events|
    requires run.states[first].cached.None? && run.states[first + 1].cached.Some?
    ensures Fetches(run, i) == |Checkers(run, first)|
  {
    if i == first + 1 {
      EarlyCheckersFetch(run, first);
      assert StepAt(Next, run, first);
    } else {
      FetchesEndWithFirstStore(run, first, i - 1);
      CacheStaysSome(run, first + 1, i - 1);
    }
  }

  /* ----- progress ----- */

  function Rank(pc: Pc): nat {
    match pc
    case WaitRead => 6
    case HasRead => 5
    case Sending => 4
    case ReadingBody => 3
    case WaitWrite(_) => 2
    case HasWrite(_) => 1
    case Done(_) => 0
    case Dropped => 0
  }

  function StepsOf(run: Trace, r: RequestId, i: nat): nat
    requires i <= |run.events|
  {
    if i == 0 then 0 else StepsOf(run, r, i - 1) + if run.events[i - 1].r == r then 1 else 0
  }

  /** A request takes at most seven steps of its own, however the others interleave. */
  lemma {:induction false} StepsAreBounded(run: Trace, r: RequestId, i: nat)
    requires From(Next, run, INIT) && i <= |run.events|
    ensures var s := run.states[i];
            StepsOf(run, r, i) <= if r in s.pcs then 7 - Rank(s.pcs[r]) else 0
  {
    if i > 0 {
      StepsAreBounded(run, r, i - 1);
      assert StepAt(Next, run, i - 1);
    }
  }

  // Some request can take a step of its own, other than being dropped.
  ghost predicate CanStep(s: State) {
    exists e: Event :: Enabled(s, e) && !e.Drop? && !e.Arrive?
  }

  // The same without any help from the endpoint.
  ghost predicate CanStepAlone(s: State) {
    exists e: Event :: Enabled(s, e) && !e.Drop? && !e.Arrive? && !e.FromEndpoint()
  }

  /**
   No deadlock, and the lock never waits for the endpoint: while any request is neither finished nor itself
   fetching, the service can advance some request even if the endpoint stays silent for ever.
   */
  lemma LockNeverWaitsForEndpoint(s: State, r: RequestId)
    requires LockInv(s) && r in s.pcs && !s.pcs[r].Finished() && !s.pcs[r].Fetching()
    ensures CanStepAlone(s)
  {
    if s.lock.writer.Some? {
      var w := s.lock.writer.value;
      assert s.lock.writer == Some(w);
      assert Enabled(s, Store(w));
    } else if s.lock.readers != {} {
      var q :| q in s.lock.readers;
      assert Enabled(s, Check(q));
    } else {
      assert s.lock.writer != Some(r) && r !in s.lock.readers;
      assert r in s.lock.queue;
      var q := s.lock.queue[0];
      assert q in s.lock.queue;
      if s.pcs[q].WaitRead? {
        assert Enabled(s, GrantRead(q));
      } else {
        assert Enabled(s, GrantWrite(q));
      }
    }
  }

  /** A state in which nothing can step, in any run, is one where every request has finished. */
  lemma StuckOnlyWhenFinished(run: Trace, i: nat)
    requires From(Next, run, INIT) && i < |run.states|
    ensures !CanStep(run.states[i]) <==> forall r :: r in run.states[i].pcs ==> run.states[i].pcs[r].Finished()
  {
    var s := run.states[i];
    LockHolds(run, i);
    forall r | r in s.pcs && !s.pcs[r].Finished() ensures CanStep(s) {
      if s.pcs[r].Sending? {
        assert Enabled(s, Respond(r, None));
      } else if s.pcs[r].ReadingBody? {
        assert Enabled(s, ReadBody(r, Success("")));
      } else {
        LockNeverWaitsForEndpoint(s, r);
      }
    }
  }
}
