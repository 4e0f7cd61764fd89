/**
 The `/users` routes behind the JWT gate: the cache protocol and the user store running together. A request is
 screened on arrival, waits for the cache if it must, is judged in the very step in which the cache answers it,
 and only then begins as a user request.
 */
module Service {
  import opened Auth
  import opened Clock
  import opened Http
  import opened Problems
  import opened Runs
  import opened Wrappers
  import Jwks = JwksProtocol
  import JwksProperties
  import Store = Users
  import UserProperties

  type RequestId = nat

  // What is fixed when the service starts.
  datatype Deployment = Deployment(lib: Library, config: GateConfig, jwksConfigured: bool)

  // What the gate remembers of a request that waits for the cache.
  datatype Ticket = Ticket(token: string, header: JwtHeader, request: Store.Request)

  datatype State = State(
    cache: Jwks.State,
    store: Store.State,
    tickets: map<RequestId, Ticket>,
    denied: map<RequestId, ProblemDetails>)

  datatype Event =
    | Arrive(r: RequestId, headers: HeaderMap, request: Store.Request, newId: Store.Uuid)
    | CacheStep(cacheEvent: Jwks.Event, newId: Store.Uuid, now: Time)
    | StoreStep(storeEvent: Store.Event)

  function Verdict(d: Deployment, ticket: Ticket, json: Result<string, Jwks.FetchError>, now: Time)
    : Option<ProblemDetails>
  {
    Judge(d.lib, d.config, ticket.token, ticket.header, json, now)
  }

  // The step of the cache protocol that an event takes, if any.
  function CacheEvent(d: Deployment, e: Event): Option<Jwks.Event> {
    match e
    case Arrive(r, headers, _, _) =>
      if d.jwksConfigured && Screen(d.lib, headers).Success? then Some(Jwks.Arrive(r)) else None
    case CacheStep(event, _, _) => Some(event)
    case StoreStep(_) => None
  }

  // What the cache answers to the request in this step, if it answers.
  function CacheAnswer(s: State, e: Jwks.Event): Option<Result<string, Jwks.FetchError>>
    requires Jwks.Enabled(s.cache, e)
  {
    var pc := Jwks.NextPc(s.cache, e);
    if pc.Done? then Some(pc.result) else None
  }

  predicate Enabled(d: Deployment, s: State, e: Event) {
    match e
    case Arrive(r, _, _, _) => r !in s.cache.pcs && r !in s.store.phases && r !in s.denied
    case CacheStep(event, _, _) =>
      !event.Arrive? && Jwks.Enabled(s.cache, event) && event.r in s.tickets && event.r !in s.store.phases
    case StoreStep(event) => !event.Begin? && Store.Enabled(s.store, event)
  }

  // The step of the user store that an event takes, if any: an admitted request begins at once.
  function StoreEvent(d: Deployment, s: State, e: Event): Option<Store.Event>
    requires Enabled(d, s, e)
  {
    match e
    case Arrive(r, _, request, newId) => if d.jwksConfigured then None else Some(Store.Begin(r, request, newId))
    case CacheStep(event, newId, now) =>
      var answer := CacheAnswer(s, event);
      var ticket := s.tickets[event.r];
      if answer.Some? && Verdict(d, ticket, answer.value, now).None?
      then Some(Store.Begin(event.r, ticket.request, newId))
      else None
    case StoreStep(event) => Some(event)
  }

  function NextTickets(d: Deployment, s: State, e: Event): map<RequestId, Ticket> {
    if !e.Arrive? || !d.jwksConfigured then s.tickets
    else
      match Screen(d.lib, e.headers)
      case Success((token, header)) => s.tickets[e.r := Ticket(token, header, e.request)]
      case Failure(_) => s.tickets
  }

  function NextDenied(d: Deployment, s: State, e: Event): map<RequestId, ProblemDetails>
    requires Enabled(d, s, e)
  {
    match e
    case Arrive(r, headers, _, _) =>
      if d.jwksConfigured && Screen(d.lib, headers).Failure? then s.denied[r := Screen(d.lib, headers).error]
      else s.denied
    case CacheStep(event, _, now) =>
      var answer := CacheAnswer(s, event);
      var refusal := if answer.Some? then Verdict(d, s.tickets[event.r], answer.value, now) else None;
      if refusal.Some? then s.denied[event.r := refusal.value] else s.denied
    case StoreStep(_) => s.denied
  }

  function Apply(d: Deployment, s: State, e: Event): State
    requires Enabled(d, s, e)
  {
    var c := CacheEvent(d, e);
    var t := StoreEvent(d, s, e);
    State(if c.Some? then Jwks.Apply(s.cache, c.value) else s.cache,
          if t.Some? then Store.Apply(s.store, t.value) else s.store,
          NextTickets(d, s, e),
          NextDenied(d, s, e))
  }

  ghost predicate Start(s: State) {
    s.cache == Jwks.INIT && Store.Start(s.store) && s.tickets == map[] && s.denied == map[]
  }

  type Trace = Run<State, Event>

  // The step relation of a deployment.
  ghost function Steps(d: Deployment): (State, Event, State) -> bool {
    (s: State, e: Event, t: State) => Enabled(d, s, e) && t == Apply(d, s, e)
  }

  lemma Stepped(d: Deployment, run: Trace, i: nat)
    requires IsRun(d, run) && i < |run.events|
    ensures Enabled(d, run.states[i], run.events[i]) && run.states[i + 1] == Apply(d, run.states[i], run.events[i])
  {
    var next := Steps(d);
    assert StepAt(next, run, i);
    assert next(run.states[i], run.events[i], run.states[i + 1]);
  }

  ghost predicate IsRun(d: Deployment, run: Trace) {
    |run.states| > 0 && From(Steps(d), run, run.states[0]) && Start(run.states[0])
  }

  /* ----- the two components keep all their properties ----- */

  // The run of the cache protocol inside a run of the service.
  ghost function CacheRun(d: Deployment, run: Trace, i: nat): Jwks.Trace
    requires IsRun(d, run) && i <= |run.events|
  {
    if i == 0 then Run([Jwks.INIT], [])
    else
      var past := CacheRun(d, run, i - 1);
      var e := CacheEvent(d, run.events[i - 1]);
      if e.None? then past else Run(past.states + [run.states[i].cache], past.events + [e.value])
  }

  // The step of the user store that events[k] takes, if any.
  ghost function StoreStepAt(d: Deployment, run: Trace, k: nat): Option<Store.Event>
    requires IsRun(d, run) && k < |run.events|
  {
    Stepped(d, run, k);
    StoreEvent(d, run.states[k], run.events[k])
  }

  // The run of the user store inside a run of the service.
  ghost function StoreRun(d: Deployment, run: Trace, i: nat): Store.Trace
    requires IsRun(d, run) && i <= |run.events|
  {
    if i == 0 then Run([run.states[0].store], [])
    else
      var past := StoreRun(d, run, i - 1);
      var e := StoreStepAt(d, run, i - 1);
      if e.None? then past else Run(past.states + [run.states[i].store], past.events + [e.value])
  }

  lemma CacheStepped(d: Deployment, run: Trace, i: nat)
    requires IsRun(d, run) && i < |run.events|
    ensures var e := CacheEvent(d, run.events[i]);
            if e.None? then run.states[i + 1].cache == run.states[i].cache
            else Jwks.Enabled(run.states[i].cache, e.value)
                 && run.states[i + 1].cache == Jwks.Apply(run.states[i].cache, e.value)
  {
    Stepped(d, run, i);
  }

  lemma StoreStepped(d: Deployment, run: Trace, i: nat)
    requires IsRun(d, run) && i < |run.events|
    ensures var e := StoreStepAt(d, run, i);
            if e.None? then run.states[i + 1].store == run.states[i].store
            else Store.Enabled(run.states[i].store, e.value)
                 && run.states[i + 1].store == Store.Apply(run.states[i].store, e.value)
  {
    Stepped(d, run, i);
  }

  lemma {:induction false} CacheComponentRuns(d: Deployment, run: Trace, i: nat)
    requires IsRun(d, run) && i <= |run.events|
    ensures From(Jwks.Next, CacheRun(d, run, i), Jwks.INIT) && CacheRun(d, run, i).Last() == run.states[i].cache
  {
    if i > 0 {
      CacheComponentRuns(d, run, i - 1);
      var past, e := CacheRun(d, run, i - 1), CacheEvent(d, run.events[i - 1]);
      CacheStepped(d, run, i - 1);
      if e.Some? {
        var longer := Advance(Jwks.Next, Jwks.INIT, past, e.value, run.states[i].cache);
        assert CacheRun(d, run, i) == longer;
      }
    }
  }

  lemma {:induction false} StoreComponentRuns(d: Deployment, run: Trace, i: nat)
    requires IsRun(d, run) && i <= |run.events|
    ensures From(Store.Next, StoreRun(d, run, i), run.states[0].store)
    ensures StoreRun(d, run, i).Last() == run.states[i].store
  {
    if i > 0 {
      StoreComponentRuns(d, run, i - 1);
      var past, e := StoreRun(d, run, i - 1), StoreStepAt(d, run, i - 1);
      StoreStepped(d, run, i - 1);
      if e.Some? {
        var longer := Advance(Store.Next, run.states[0].store, past, e.value, run.states[i].store);
        assert StoreRun(d, run, i) == longer;
      }
    }
  }

  /**
   The gate and the handlers do not disturb one another: seen from the cache every run of the service is a run of
   the cache protocol, and seen from the table it is a run of the user requests. So whatever is proved of those
   holds of the service.
   */
  lemma ComponentsRun(d: Deployment, run: Trace, i: nat)
    requires IsRun(d, run) && i <= |run.events|
    ensures From(Jwks.Next, CacheRun(d, run, i), Jwks.INIT) && CacheRun(d, run, i).Last() == run.states[i].cache
    ensures Store.IsRun(StoreRun(d, run, i)) && StoreRun(d, run, i).Last() == run.states[i].store
    ensures StoreRun(d, run, i).states[0] == run.states[0].store
  {
    CacheComponentRuns(d, run, i);
    StoreComponentRuns(d, run, i);
  }

  /* ----- who gets in ----- */

  // Requests are never both denied and begun, and the cache keeps a ticket for whoever entered it.
  ghost predicate Inv(d: Deployment, s: State) {
    && s.cache.pcs.Keys == s.tickets.Keys
    && (!d.jwksConfigured ==> s.tickets == map[])
    && (forall r :: r in s.store.phases ==> r !in s.denied)
    && (forall r :: r in s.store.phases && d.jwksConfigured ==> r in s.cache.pcs && s.cache.pcs[r].Done?)
    && (forall r :: r in s.denied && r in s.cache.pcs ==> s.cache.pcs[r].Done?)
    && (forall r :: r in s.cache.pcs && s.cache.pcs[r].Done? ==> r in s.denied || r in s.store.phases)
  }

  lemma {:induction false} InvHolds(d: Deployment, run: Trace, i: nat)
    requires IsRun(d, run) && i <= |run.events|
    ensures Inv(d, run.states[i])
  {
    if i > 0 {
      InvHolds(d, run, i - 1);
      Stepped(d, run, i - 1);
    }
  }

  /** The gate never holds back a step of the cache, and a denied request never reaches the handlers. */
  lemma GateDoesNotInterfere(d: Deployment, run: Trace, i: nat, e: Jwks.Event, newId: Store.Uuid, now: Time)
    requires IsRun(d, run) && i <= |run.events| && d.jwksConfigured
    ensures Enabled(d, run.states[i], CacheStep(e, newId, now)) <==> !e.Arrive? && Jwks.Enabled(run.states[i].cache, e)
    ensures run.states[i].denied.Keys !! run.states[i].store.phases.Keys
  {
    InvHolds(d, run, i);
  }

  /* ----- where each request is ----- */

  // Queued for the cache, fetching, or dropped there.
  predicate AtCache(s: State, r: RequestId) {
    r in s.cache.pcs && !s.cache.pcs[r].Done?
  }

  ghost predicate Arrived(run: Trace, i: nat, r: RequestId) {
    exists k :: 0 <= k < i <= |run.events| && run.events[k].Arrive? && run.events[k].r == r
  }

  // A step changes the place of one request, and only an arrival makes one known.
  lemma Known(d: Deployment, s: State, e: Event, r: RequestId)
    requires Enabled(d, s, e) && Inv(d, s)
    ensures r in Apply(d, s, e).cache.pcs || r in Apply(d, s, e).denied || r in Apply(d, s, e).store.phases
       <==> r in s.cache.pcs || r in s.denied || r in s.store.phases || (e.Arrive? && e.r == r)
  {
  }

  lemma {:induction false} KnownExactlyWhenArrived(d: Deployment, run: Trace, i: nat, r: RequestId)
    requires IsRun(d, run) && i <= |run.events|
    ensures var s := run.states[i];
            Arrived(run, i, r) <==> r in s.cache.pcs || r in s.denied || r in s.store.phases
  {
    if i > 0 {
      KnownExactlyWhenArrived(d, run, i - 1, r);
      InvHolds(d, run, i - 1);
      Stepped(d, run, i - 1);
      Known(d, run.states[i - 1], run.events[i - 1], r);
      if Arrived(run, i - 1, r) {
        var k :| 0 <= k < i - 1 && run.events[k].Arrive? && run.events[k].r == r;
        assert run.events[k].Arrive?;
      }
      if run.events[i - 1].Arrive? && run.events[i - 1].r == r {
        assert run.events[i - 1].Arrive?;
      }
    }
  }

  /** Nobody is lost: a request that has arrived is at the cache, denied, or with its handler, and only one of these. */
  lemma EveryRequestIsInOnePlace(d: Deployment, run: Trace, i: nat, r: RequestId)
    requires IsRun(d, run) && i <= |run.events|
    ensures var s := run.states[i];
            && (Arrived(run, i, r) <==> AtCache(s, r) || r in s.denied || r in s.store.phases)
            && !(AtCache(s, r) && r in s.denied)
            && !(AtCache(s, r) && r in s.store.phases)
            && !(r in s.denied && r in s.store.phases)
  {
    InvHolds(d, run, i);
    KnownExactlyWhenArrived(d, run, i, r);
  }

  /**
   What an arrival leads to: without JWKS the handler begins at once. With it, a request without a bearer token, or
   with one whose header does not decode, is denied in that step and told so; any other joins the cache's queue.
   */
  lemma ArrivalIsScreened(d: Deployment, run: Trace, k: nat, token: string)
    requires IsRun(d, run) && k < |run.events| && run.events[k].Arrive?
    ensures var e, t := run.events[k], run.states[k + 1];
            && (!d.jwksConfigured
                ==> Store.Next(run.states[k].store, Store.Begin(e.r, e.request, e.newId), t.store))
            && (d.jwksConfigured && (forall other :: !CarriesBearer(e.headers, other))
                ==> e.r in t.denied && t.denied[e.r] == Promised401(NO_TOKEN))
            && (d.jwksConfigured && CarriesBearer(e.headers, token) ==>
                  match d.lib.decodeHeader(token)
                  case None => e.r in t.denied && t.denied[e.r] == Promised401(BAD_FORMAT)
                  case Some(header) =>
                    && t.denied == run.states[k].denied
                    && t.cache.pcs == run.states[k].cache.pcs[e.r := Jwks.WaitRead]
                    && t.cache.lock.queue == run.states[k].cache.lock.queue + [e.r]
                    && t.tickets == run.states[k].tickets[e.r := Ticket(token, header, e.request)])
  {
    Stepped(d, run, k);
    var e := run.events[k];
    TokenIsFirstBearer(e.headers, token);
    if ExtractBearerToken(e.headers).Some? {
      TokenIsFirstBearer(e.headers, ExtractBearerToken(e.headers).value);
    }
    RefusalIsPromised(NO_TOKEN);
    RefusalIsPromised(BAD_FORMAT);
  }

  // The token verifies under the key that the body the cache answers with yields.
  ghost predicate Verifies(d: Deployment, token: string, header: JwtHeader, answer: Result<string, Jwks.FetchError>,
                           now: Time) {
    answer.Success?
    && exists key ::
         && Yields(d.lib, answer.value, header.kid, key)
         && d.lib.verify(token, key, Validation(header.alg, d.config.issuer, d.config.audience), now)
  }

  /**
   What an answer of the cache leads to, in the same step: the handler begins the request exactly when its token
   verifies, and otherwise it is denied, for want of a key if the fetch failed or the body yields none.
   */
  lemma AnswerIsJudged(d: Deployment, run: Trace, k: nat)
    requires IsRun(d, run) && k < |run.events| && run.events[k].CacheStep?
    requires Enabled(d, run.states[k], run.events[k]) && CacheAnswer(run.states[k], run.events[k].cacheEvent).Some?
    ensures var r, t := run.events[k].cacheEvent.r, run.states[k + 1];
            var ticket, answer := run.states[k].tickets[r], CacheAnswer(run.states[k], run.events[k].cacheEvent).value;
            if Verifies(d, ticket.token, ticket.header, answer, run.events[k].now)
            then Store.Next(run.states[k].store, Store.Begin(r, ticket.request, run.events[k].newId), t.store)
            else r in t.denied && t.denied[r] ==
                 Promised401(if answer.Failure? || forall key :: !Yields(d.lib, answer.value, ticket.header.kid, key)
                             then NO_KEY else BAD_TOKEN)
  {
    Stepped(d, run, k);
    var r := run.events[k].cacheEvent.r;
    var ticket, answer := run.states[k].tickets[r], CacheAnswer(run.states[k], run.events[k].cacheEvent).value;
    if answer.Success? {
      JudgesExactly(d.lib, d.config, ticket.token, ticket.header, answer.value, run.events[k].now);
    }
    RefusalIsPromised(NO_KEY);
    RefusalIsPromised(BAD_TOKEN);
  }

  // The event drops `r`, at the cache or at its handler.
  predicate Drops(e: Event, r: RequestId) {
    || (e.CacheStep? && e.cacheEvent == Jwks.Drop(r))
    || (e.StoreStep? && e.storeEvent == Store.Drop(r))
  }

  ghost predicate WasDropped(run: Trace, i: nat, r: RequestId) {
    exists k :: 0 <= k < i <= |run.events| && Drops(run.events[k], r)
  }

  predicate IsDropped(s: State, r: RequestId) {
    || (r in s.cache.pcs && s.cache.pcs[r].Dropped?)
    || (r in s.store.phases && s.store.phases[r].Dropped?)
  }

  lemma DropStep(d: Deployment, s: State, e: Event, r: RequestId)
    requires Enabled(d, s, e)
    ensures IsDropped(Apply(d, s, e), r) <==> IsDropped(s, r) || Drops(e, r)
  {
  }

  /** A request is dropped in a state exactly when some earlier event of the run dropped it. */
  lemma {:induction false} DroppedExactly(d: Deployment, run: Trace, i: nat, r: RequestId)
    requires IsRun(d, run) && i <= |run.events|
    ensures IsDropped(run.states[i], r) <==> WasDropped(run, i, r)
  {
    if i > 0 {
      DroppedExactly(d, run, i - 1, r);
      Stepped(d, run, i - 1);
      DropStep(d, run.states[i - 1], run.events[i - 1], r);
      if WasDropped(run, i - 1, r) {
        var k :| 0 <= k < i - 1 && Drops(run.events[k], r);
        assert Drops(run.events[k], r);
      }
      if Drops(run.events[i - 1], r) {
        assert WasDropped(run, i, r);
      }
    }
  }

  // Before states[i], the endpoint returned this body.
  ghost predicate BodyRead(run: Trace, i: nat, body: string) {
    exists k :: 0 <= k < i <= |run.events| && run.events[k].CacheStep?
                && run.events[k].cacheEvent.ReadBody? && run.events[k].cacheEvent.outcome == Success(body)
  }

  // Before states[i], `r` arrived with this request and with headers that screen to this token and header.
  ghost predicate Presented(d: Deployment, run: Trace, i: nat, r: RequestId, ticket: Ticket) {
    exists k :: 0 <= k < i <= |run.events| && run.events[k].Arrive? && run.events[k].r == r
                && run.events[k].request == ticket.request
                && Screen(d.lib, run.events[k].headers) == Success((ticket.token, ticket.header))
  }

  // At events[k] the cache answers `r` with a body that the endpoint has returned, and the token verifies, at the
  // clock reading of that step, under the key selected from that body.
  ghost predicate VerifiedAt(d: Deployment, run: Trace, k: nat, r: RequestId, ticket: Ticket) {
    && k < |run.events| && k < |run.states| && run.events[k].CacheStep? && run.events[k].cacheEvent.r == r
    && Jwks.Enabled(run.states[k].cache, run.events[k].cacheEvent)
    && exists body ::
         && CacheAnswer(run.states[k], run.events[k].cacheEvent) == Some(Success(body))
         && BodyRead(run, k + 1, body)
         && Verifies(d, ticket.token, ticket.header, Success(body), run.events[k].now)
  }

  ghost predicate Authorised(d: Deployment, run: Trace, i: nat, r: RequestId, request: Store.Request) {
    exists ticket: Ticket, k ::
      ticket.request == request && Presented(d, run, i, r, ticket) && 0 <= k < i && VerifiedAt(d, run, k, r, ticket)
  }

  lemma {:induction false} BodiesOfCacheRun(d: Deployment, run: Trace, i: nat, k: nat, body: string)
    requires IsRun(d, run) && i <= |run.events| && k < |CacheRun(d, run, i).events|
    requires CacheRun(d, run, i).events[k].ReadBody? && CacheRun(d, run, i).events[k].outcome == Success(body)
    ensures BodyRead(run, i, body)
  {
    var past := CacheRun(d, run, i - 1);
    if k < |past.events| {
      BodiesOfCacheRun(d, run, i - 1, k, body);
      var l :| 0 <= l < i - 1 && run.events[l].CacheStep?
               && run.events[l].cacheEvent.ReadBody? && run.events[l].cacheEvent.outcome == Success(body);
      assert run.events[l].CacheStep?;
    } else {
      assert run.events[i - 1].CacheStep?;
    }
  }

  lemma {:induction false} TicketsWerePresented(d: Deployment, run: Trace, i: nat, r: RequestId)
    requires IsRun(d, run) && i <= |run.events| && r in run.states[i].tickets
    ensures Presented(d, run, i, r, run.states[i].tickets[r])
  {
    var s, e := run.states[i - 1], run.events[i - 1];
    Stepped(d, run, i - 1);
    if e.Arrive? && e.r == r && d.jwksConfigured && Screen(d.lib, e.headers).Success? {
      assert run.events[i - 1].Arrive?;
    } else {
      TicketsWerePresented(d, run, i - 1, r);
      var k :| 0 <= k < i - 1 && run.events[k].Arrive? && run.events[k].r == r
               && run.events[k].request == s.tickets[r].request
               && Screen(d.lib, run.events[k].headers) == Success((s.tickets[r].token, s.tickets[r].header));
      assert run.events[k].Arrive?;
    }
  }

  // A body the cache answers with was read from the endpoint.
  lemma AnswerWasRead(d: Deployment, run: Trace, i: nat)
    requires IsRun(d, run) && 0 < i <= |run.events| && run.events[i - 1].CacheStep?
    requires Enabled(d, run.states[i - 1], run.events[i - 1])
    requires var answer := CacheAnswer(run.states[i - 1], run.events[i - 1].cacheEvent);
             answer.Some? && answer.value.Success?
    ensures BodyRead(run, i, CacheAnswer(run.states[i - 1], run.events[i - 1].cacheEvent).value.value)
  {
    Stepped(d, run, i - 1);
    var body := CacheAnswer(run.states[i - 1], run.events[i - 1].cacheEvent).value.value;
    CacheComponentRuns(d, run, i);
    var cache := CacheRun(d, run, i);
    JwksProperties.BodiesAreFetched(cache, |cache.events|);
    var k :| 0 <= k < |cache.events| && cache.events[k].ReadBody? && cache.events[k].outcome == Success(body);
    BodiesOfCacheRun(d, run, i, k, body);
  }

  // A request admitted by a step of the cache is authorised.
  lemma AdmittedIsAuthorised(d: Deployment, run: Trace, i: nat)
    requires IsRun(d, run) && 0 < i <= |run.events| && run.events[i - 1].CacheStep?
    requires StoreStepAt(d, run, i - 1).Some?
    ensures var r := run.events[i - 1].cacheEvent.r;
            r in run.states[i - 1].tickets && Authorised(d, run, i, r, run.states[i - 1].tickets[r].request)
  {
    Stepped(d, run, i - 1);
    var s, r := run.states[i - 1], run.events[i - 1].cacheEvent.r;
    var ticket, body := s.tickets[r], CacheAnswer(s, run.events[i - 1].cacheEvent).value.value;
    TicketsWerePresented(d, run, i, r);
    AnswerWasRead(d, run, i);
    JudgesExactly(d.lib, d.config, ticket.token, ticket.header, body, run.events[i - 1].now);
    assert BodyRead(run, i, body);
    assert VerifiedAt(d, run, i - 1, r, ticket);
  }

  lemma AuthorisedMeansRead(d: Deployment, run: Trace, i: nat, r: RequestId, request: Store.Request)
    returns (body: string)
    requires i <= |run.events| && Authorised(d, run, i, r, request)
    ensures BodyRead(run, i, body)
  {
    var ticket: Ticket, k: nat :| Presented(d, run, i, r, ticket) && k < i && VerifiedAt(d, run, k, r, ticket);
    assert VerifiedAt(d, run, k, r, ticket);
    body :| CacheAnswer(run.states[k], run.events[k].cacheEvent) == Some(Success(body))
            && BodyRead(run, k + 1, body)
            && Verifies(d, ticket.token, ticket.header, Success(body), run.events[k].now);
    var l :| 0 <= l < k + 1 && run.events[l].CacheStep?
             && run.events[l].cacheEvent.ReadBody? && run.events[l].cacheEvent.outcome == Success(body);
    assert run.events[l].CacheStep?;
  }

  lemma AuthorisedStays(d: Deployment, run: Trace, i: nat, j: nat, r: RequestId, request: Store.Request)
    requires i <= j <= |run.events| && Authorised(d, run, i, r, request)
    ensures Authorised(d, run, j, r, request)
  {
  }

  /** With JWKS configured, a request reaches a handler only with a verified token, and as the request it came as. */
  lemma {:induction false} OnlyAuthorisedBegin(d: Deployment, run: Trace, i: nat, k: nat)
    requires IsRun(d, run) && i <= |run.events| && d.jwksConfigured
    requires k < |StoreRun(d, run, i).events| && StoreRun(d, run, i).events[k].Begin?
    ensures var e := StoreRun(d, run, i).events[k]; Authorised(d, run, i, e.r, e.request)
  {
    var e := StoreRun(d, run, i).events[k];
    if k < |StoreRun(d, run, i - 1).events| {
      OnlyAuthorisedBegin(d, run, i - 1, k);
      AuthorisedStays(d, run, i - 1, i, e.r, e.request);
    } else {
      Stepped(d, run, i - 1);
      AdmittedIsAuthorised(d, run, i);
    }
  }

  // The step at which a row beyond the initial ones was committed.
  lemma {:induction false} RowCommit(d: Deployment, run: Trace, i: nat, u: Store.User) returns (k: nat)
    requires IsRun(d, run) && i <= |run.events|
    requires u in run.states[i].store.table && u !in run.states[0].store.table
    ensures k < i && run.events[k].StoreStep? && Store.Commits(run.states[k].store, run.events[k].storeEvent)
    ensures var s, e := run.states[k].store, run.events[k].storeEvent;
            u == Store.NewRow(Store.StatementOf(s, e.r).value, e.now)
  {
    StoreStepped(d, run, i - 1);
    if u in run.states[i - 1].store.table {
      k := RowCommit(d, run, i - 1, u);
    } else {
      Stepped(d, run, i - 1);
      k := i - 1;
    }
  }

  // A statement that is still to run is the one an authorised request was validated into.
  lemma StatementIsAuthorised(d: Deployment, run: Trace, k: nat, r: RequestId)
    returns (request: Store.Request, newId: Store.Uuid)
    requires IsRun(d, run) && k <= |run.events| && d.jwksConfigured
    requires r in run.states[k].store.phases && Store.StatementOf(run.states[k].store, r).Some?
    ensures Authorised(d, run, k, r, request)
    ensures Store.Validate(request, newId) == Success(Store.StatementOf(run.states[k].store, r).value)
  {
    ComponentsRun(d, run, k);
    var inner := StoreRun(d, run, k);
    var b := UserProperties.BeginOf(inner, |inner.events|, r);
    UserProperties.StatementFromRequest(inner, b, |inner.events|);
    OnlyAuthorisedBegin(d, run, k, b);
    request, newId := inner.events[b].request, inner.events[b].newId;
  }

  /**
   Safety of the gate over all runs: with JWKS configured, every row beyond the initial ones was committed for a
   request that had asked for it and whose bearer token had verified under a key from a body the endpoint returned.
   */
  lemma EveryNewRowIsAuthorised(d: Deployment, run: Trace, i: nat, u: Store.User)
    returns (k: nat, request: Store.Request)
    requires IsRun(d, run) && i <= |run.events| && d.jwksConfigured
    requires u in run.states[i].store.table && u !in run.states[0].store.table
    ensures k < i && run.events[k].StoreStep? && Store.Commits(run.states[k].store, run.events[k].storeEvent)
    ensures var s, e := run.states[k].store, run.events[k].storeEvent;
            && u == Store.NewRow(Store.StatementOf(s, e.r).value, e.now)
            && Authorised(d, run, k, e.r, request)
    ensures Store.Validate(request, u.id) == Success(Store.Insert(u.id, u.name, u.email))
  {
    k := RowCommit(d, run, i, u);
    var newId: Store.Uuid;
    request, newId := StatementIsAuthorised(d, run, k, run.events[k].storeEvent.r);
  }

  /** Fail closed: while no fetch has succeeded, no request has reached a handler and the table is untouched. */
  lemma NoBodyNoEntry(d: Deployment, run: Trace, i: nat)
    requires IsRun(d, run) && i <= |run.events| && d.jwksConfigured
    requires forall body :: !BodyRead(run, i, body)
    ensures run.states[i].store == run.states[0].store
  {
    ComponentsRun(d, run, i);
    var inner := StoreRun(d, run, i);
    if inner.events != [] {
      assert StepAt(Store.Next, inner, 0);
      OnlyAuthorisedBegin(d, run, i, 0);
      var body := AuthorisedMeansRead(d, run, i, inner.events[0].r, inner.events[0].request);
      assert false;
    }
  }

  /* ----- the gate behind a settled cache ----- */

  lemma {:induction false} CacheStaysSettled(d: Deployment, run: Trace, i: nat, j: nat)
    requires IsRun(d, run) && i <= j <= |run.events| && JwksProperties.Settled(run.states[i].cache)
    ensures JwksProperties.Settled(run.states[j].cache) && run.states[j].cache.cached == run.states[i].cache.cached
  {
    if i < j {
      CacheStaysSettled(d, run, i, j - 1);
      CacheStepped(d, run, j - 1);
      var e := CacheEvent(d, run.events[j - 1]);
      if e.Some? {
        JwksProperties.SettledStep(run.states[j - 1].cache, e.value);
      }
    }
  }

  // At events[j] the cache answers a request, which begins if nothing is held against it, and is denied otherwise.
  ghost predicate Judged(run: Trace, j: nat, verdict: Option<ProblemDetails>)
    requires j < |run.events| < |run.states| && run.events[j].CacheStep?
  {
    var r, after := run.events[j].cacheEvent.r, run.states[j + 1];
    if verdict.None? then r in after.store.phases
    else r !in after.store.phases && r in after.denied && after.denied[r] == verdict.value
  }

  /**
   Once the cache has settled, every later judgement, for the rest of the run, is the verdict on that one body: the
   request begins exactly when it passes, and is denied with that refusal otherwise.
   */
  lemma SettledVerdicts(d: Deployment, run: Trace, i: nat, j: nat)
    requires IsRun(d, run) && i <= j < |run.events| && JwksProperties.Settled(run.states[i].cache)
    requires run.events[j].CacheStep? && Enabled(d, run.states[j], run.events[j])
    requires CacheAnswer(run.states[j], run.events[j].cacheEvent).Some?
    ensures var ticket := run.states[j].tickets[run.events[j].cacheEvent.r];
            Judged(run, j, Verdict(d, ticket, Success(run.states[i].cache.cached.value), run.events[j].now))
  {
    CacheStaysSettled(d, run, i, j);
    JwksProperties.SettledStep(run.states[j].cache, run.events[j].cacheEvent);
    Stepped(d, run, j);
  }

  // Every successful read of the endpoint in the run returned this body.
  ghost predicate Serves(run: Trace, body: string) {
    forall k :: 0 <= k < |run.events| && run.events[k].CacheStep? && run.events[k].cacheEvent.ReadBody?
                && run.events[k].cacheEvent.outcome.Success?
                ==> run.events[k].cacheEvent.outcome.value == body
  }

  /**
   The cache is transparent to the gate: while the endpoint serves one body, every judgement of the run is the
   verdict on that body, except that a request whose own fetch fails in this step is denied for want of a key.
   */
  lemma ServedVerdicts(d: Deployment, run: Trace, j: nat, body: string)
    requires IsRun(d, run) && j < |run.events| && Serves(run, body)
    requires run.events[j].CacheStep? && Enabled(d, run.states[j], run.events[j])
    requires CacheAnswer(run.states[j], run.events[j].cacheEvent).Some?
    ensures var e := run.events[j].cacheEvent;
            Judged(run, j,
                   if (e.Respond? && e.failure.Some?) || (e.ReadBody? && e.outcome.Failure?)
                   then Some(Unauthorized(NO_KEY))
                   else Verdict(d, run.states[j].tickets[e.r], Success(body), run.events[j].now))
  {
    Stepped(d, run, j);
    var answer := CacheAnswer(run.states[j], run.events[j].cacheEvent).value;
    if answer.Success? {
      AnswerWasRead(d, run, j + 1);
      var k :| 0 <= k < j + 1 && run.events[k].CacheStep?
               && run.events[k].cacheEvent.ReadBody? && run.events[k].cacheEvent.outcome == Success(answer.value);
      assert run.events[k].CacheStep?;
    }
  }

  // A request with these headers would be let through on this body at this time.
  ghost predicate Passes(d: Deployment, headers: HeaderMap, body: string, now: Time) {
    exists token, header ::
      CarriesBearer(headers, token) && d.lib.decodeHeader(token) == Some(header)
      && Verifies(d, token, header, Success(body), now)
  }

  lemma PassesExactly(d: Deployment, headers: HeaderMap, body: string, now: Time)
    ensures Passes(d, headers, body, now) <==>
            match Screen(d.lib, headers)
            case Success((token, header)) => Judge(d.lib, d.config, token, header, Success(body), now).None?
            case Failure(_) => false
  {
    forall token ensures ExtractBearerToken(headers) == Some(token) <==> CarriesBearer(headers, token) {
      TokenIsFirstBearer(headers, token);
    }
    match Screen(d.lib, headers)
    case Success((token, header)) => JudgesExactly(d.lib, d.config, token, header, body, now);
    case Failure(_) =>
  }

  ghost predicate Admits(d: Deployment, body: string) {
    exists headers, now :: Passes(d, headers, body, now)
  }

  lemma UnparsableAdmitsNobody(d: Deployment, body: string)
    requires d.lib.parseSet(body).None? || d.lib.parseSet(body) == Some([])
    ensures !Admits(d, body)
  {
  }

  // Behind a settled body that admits nobody, no further request begins.
  lemma {:induction false} NobodyBegins(d: Deployment, run: Trace, i: nat, j: nat)
    requires IsRun(d, run) && i <= j <= |run.events| && d.jwksConfigured
    requires JwksProperties.Settled(run.states[i].cache) && !Admits(d, run.states[i].cache.cached.value)
    ensures run.states[j].store.phases.Keys == run.states[i].store.phases.Keys
  {
    if i < j {
      NobodyBegins(d, run, i, j - 1);
      CacheStaysSettled(d, run, i, j - 1);
      Stepped(d, run, j - 1);
      var s, e := run.states[j - 1], run.events[j - 1];
      if e.CacheStep? {
        JwksProperties.SettledStep(s.cache, e.cacheEvent);
        HolderPasses(d, run, j - 1, e.cacheEvent.r, run.states[i].cache.cached.value, e.now);
      }
    }
  }

  // Whoever holds a ticket that passes came with headers that pass.
  lemma HolderPasses(d: Deployment, run: Trace, i: nat, r: RequestId, body: string, now: Time)
    requires IsRun(d, run) && i <= |run.events| && r in run.states[i].tickets
    ensures Verdict(d, run.states[i].tickets[r], Success(body), now).None? ==> Admits(d, body)
  {
    var ticket := run.states[i].tickets[r];
    TicketsWerePresented(d, run, i, r);
    var k :| 0 <= k < i && run.events[k].Arrive? && run.events[k].r == r && run.events[k].request == ticket.request
             && Screen(d.lib, run.events[k].headers) == Success((ticket.token, ticket.header));
    PassesExactly(d, run.events[k].headers, body, now);
    if Verdict(d, ticket, Success(body), now).None? {
      assert Passes(d, run.events[k].headers, body, now);
    }
  }

  ghost predicate Extends(d: Deployment, run: Trace, longer: Trace) {
    IsRun(d, longer) && run.states <= longer.states && run.events <= longer.events
  }

  lemma Take(d: Deployment, run: Trace, e: Event) returns (longer: Trace)
    requires IsRun(d, run) && Enabled(d, run.Last(), e)
    ensures Extends(d, run, longer) && longer.Last() == Apply(d, run.Last(), e)
    ensures longer.events == run.events + [e]
  {
    longer := Advance(Steps(d), run.states[0], run, e, Apply(d, run.Last(), e));
  }

  // A step in which the cache answers nobody moves nothing but the cache.
  lemma TakeQuietly(d: Deployment, run: Trace, e: Jwks.Event) returns (longer: Trace)
    requires IsRun(d, run) && d.jwksConfigured
    requires !e.Arrive? && Jwks.Enabled(run.Last().cache, e) && !Jwks.NextPc(run.Last().cache, e).Done?
    ensures Extends(d, run, longer) && longer.Last() == run.Last().(cache := Jwks.Apply(run.Last().cache, e))
    ensures longer.events == run.events + [CacheStep(e, "", 0)]
  {
    GateDoesNotInterfere(d, run, |run.events|, e, "", 0);
    longer := Take(d, run, CacheStep(e, "", 0));
  }

  function Unfinished(s: Jwks.State): set<RequestId> {
    set r | r in s.pcs && !s.pcs[r].Finished()
  }

  // The timeout can clear the lock without touching the cached body or the handlers.
  lemma {:induction false} ClearLock(d: Deployment, run: Trace) returns (longer: Trace)
    requires IsRun(d, run) && d.jwksConfigured
    ensures Extends(d, run, longer) && longer.Last().cache.lock == JwksProperties.FREE
    ensures longer.Last().cache.cached == run.Last().cache.cached && longer.Last().store == run.Last().store
    decreases Unfinished(run.Last().cache)
  {
    var s := run.Last().cache;
    if Unfinished(s) == {} {
      longer := run;
      CacheComponentRuns(d, run, |run.events|);
      var cache := CacheRun(d, run, |run.events|);
      Jwks.LockHolds(cache, |cache.events|);
      forall r | r in s.pcs ensures s.pcs[r].Finished() {
        assert r !in Unfinished(s);
      }
      JwksProperties.FreeWhenFinished(s);
    } else {
      var r :| r in Unfinished(s);
      longer := TakeQuietly(d, run, Jwks.Drop(r));
      assert Unfinished(longer.Last().cache) == Unfinished(s) - {r};
      longer := ClearLock(d, longer);
    }
  }

  // On a free lock and a full cache, a request with headers that pass gets in.
  lemma OneGetsIn(d: Deployment, run: Trace, headers: HeaderMap, now: Time) returns (longer: Trace, r: RequestId)
    requires IsRun(d, run) && d.jwksConfigured
    requires run.Last().cache.lock == JwksProperties.FREE && run.Last().cache.cached.Some?
    requires Passes(d, headers, run.Last().cache.cached.value, now)
    ensures Extends(d, run, longer) && r in longer.Last().store.phases && r !in run.Last().store.phases
  {
    PassesExactly(d, headers, run.Last().cache.cached.value, now);
    var s := run.Last();
    r := UserProperties.FreshRequest(s.cache.pcs.Keys + s.store.phases.Keys + s.denied.Keys);
    assert r !in s.cache.pcs.Keys + s.store.phases.Keys + s.denied.Keys;
    longer := Take(d, run, Arrive(r, headers, Store.List, ""));
    longer := TakeQuietly(d, longer, Jwks.GrantRead(r));
    GateDoesNotInterfere(d, longer, |longer.events|, Jwks.Check(r), "", now);
    longer := Take(d, longer, CacheStep(Jwks.Check(r), "", now));
  }

  /**
   The exact condition under which the service still lets anybody in once its cache has settled: some headers pass
   on the cached body at some time. Nothing is ever fetched again, so otherwise it is shut for good.
   */
  lemma OpenExactlyWhenBodyAdmits(d: Deployment, run: Trace)
    requires IsRun(d, run) && d.jwksConfigured && JwksProperties.Settled(run.Last().cache)
    ensures Admits(d, run.Last().cache.cached.value)
       <==> exists longer, r ::
              Extends(d, run, longer) && r in longer.Last().store.phases && r !in run.Last().store.phases
  {
    if Admits(d, run.Last().cache.cached.value) {
      var headers, now :| Passes(d, headers, run.Last().cache.cached.value, now);
      var longer := ClearLock(d, run);
      var r: RequestId;
      longer, r := OneGetsIn(d, longer, headers, now);
    } else {
      forall longer | Extends(d, run, longer)
        ensures longer.Last().store.phases.Keys == run.Last().store.phases.Keys
      {
        assert longer.states[|run.events|] == run.Last();
        NobodyBegins(d, longer, |run.events|, |longer.events|);
      }
    }
  }

  // From the start, the first request looks at the cache and finds it empty.
  lemma FirstMiss(d: Deployment, headers: HeaderMap, request: Store.Request) returns (run: Trace)
    requires d.jwksConfigured && Screen(d.lib, headers).Success?
    ensures IsRun(d, run) && run.states[0].store.table == [] && run.Last().store == run.states[0].store
    ensures run.Last().cache == Jwks.INIT.(pcs := map[0 := Jwks.Sending])
    ensures var (token, header) := Screen(d.lib, headers).value;
            run.Last().tickets == map[0 := Ticket(token, header, request)]
  {
    run := Run([Open(Store.State([], map[], map[]))], []);
    run := Take(d, run, Arrive(0, headers, request, ""));
    run := TakeQuietly(d, run, Jwks.GrantRead(0));
    run := TakeQuietly(d, run, Jwks.Check(0));
  }

  // From the start, the first request misses the cache and reads this body from the endpoint.
  lemma FirstFetch(d: Deployment, headers: HeaderMap, request: Store.Request, body: string) returns (run: Trace)
    requires d.jwksConfigured && Screen(d.lib, headers).Success?
    ensures IsRun(d, run) && run.states[0].store.table == [] && run.Last().store == run.states[0].store
    ensures run.Last().cache == Jwks.State(None, Jwks.Lock([], {}, Some(0)), map[0 := Jwks.HasWrite(body)])
    ensures var (token, header) := Screen(d.lib, headers).value;
            run.Last().tickets == map[0 := Ticket(token, header, request)]
  {
    run := FirstMiss(d, headers, request);
    run := TakeQuietly(d, run, Jwks.Respond(0, None));
    run := TakeQuietly(d, run, Jwks.ReadBody(0, Success(body)));
    run := TakeQuietly(d, run, Jwks.GrantWrite(0));
  }

  /**
   For every first body that admits nobody, an error page for instance, a run from the start that stores it and
   settles, after which no request ever begins.
   */
  lemma FirstBodyCanShutService(d: Deployment, headers: HeaderMap, request: Store.Request, body: string)
    returns (run: Trace)
    requires d.jwksConfigured && Screen(d.lib, headers).Success? && !Admits(d, body)
    ensures IsRun(d, run) && run.states[0].store.table == []
    ensures JwksProperties.Settled(run.Last().cache) && run.Last().cache.cached == Some(body)
    ensures forall longer :: Extends(d, run, longer) ==> longer.Last().store.phases == map[]
  {
    run := FirstFetch(d, headers, request, body);
    PassesExactly(d, headers, body, 0);
    assert !Passes(d, headers, body, 0);
    GateDoesNotInterfere(d, run, |run.events|, Jwks.Store(0), "", 0);
    run := Take(d, run, CacheStep(Jwks.Store(0), "", 0));
    forall longer | Extends(d, run, longer) ensures longer.Last().store.phases == map[] {
      assert longer.states[|run.events|] == run.Last();
      NobodyBegins(d, longer, |run.events|, |longer.events|);
    }
  }

  /* ----- no JWKS ----- */

  // The service state in which only the user store has done anything.
  function Open(store: Store.State): State {
    State(Jwks.INIT, store, map[], map[])
  }

  function Lift(e: Store.Event, headers: HeaderMap): Event {
    if e.Begin? then Arrive(e.r, headers, e.request, e.newId) else StoreStep(e)
  }

  ghost predicate IsLift(e: Event, inner: Store.Event) {
    exists headers :: e == Lift(inner, headers)
  }

  lemma LiftedStep(d: Deployment, s: Store.State, e: Store.Event, headers: HeaderMap)
    requires !d.jwksConfigured
    ensures Enabled(d, Open(s), Lift(e, headers)) <==> Store.Enabled(s, e)
    ensures Store.Enabled(s, e) ==> Apply(d, Open(s), Lift(e, headers)) == Open(Store.Apply(s, e))
  {
  }

  /** Without JWKS the gated service can do whatever the handlers alone can do, whatever headers requests carry. */
  lemma OpenGateAdmitsAll(d: Deployment, inner: Store.Trace, headers: seq<HeaderMap>) returns (run: Trace)
    requires !d.jwksConfigured && Store.IsRun(inner) && |headers| == |inner.events|
    ensures IsRun(d, run) && |run.events| == |inner.events|
    ensures forall i :: 0 <= i < |inner.states| ==> run.states[i] == Open(inner.states[i])
    ensures forall i :: 0 <= i < |inner.events| ==> run.events[i] == Lift(inner.events[i], headers[i])
  {
    run := Run(seq(|inner.states|, i requires 0 <= i < |inner.states| => Open(inner.states[i])),
               seq(|inner.events|, i requires 0 <= i < |inner.events| => Lift(inner.events[i], headers[i])));
    forall i | 0 <= i < |run.events| ensures StepAt(Steps(d), run, i) {
      assert StepAt(Store.Next, inner, i);
      LiftedStep(d, inner.states[i], inner.events[i], headers[i]);
    }
  }

  // One step behind an open gate is one step of the handlers.
  lemma OpenStep(d: Deployment, run: Trace, i: nat)
    requires !d.jwksConfigured && IsRun(d, run) && i < |run.events|
    requires run.states[i] == Open(run.states[i].store)
    ensures run.states[i + 1] == Open(run.states[i + 1].store)
    ensures var e := StoreStepAt(d, run, i); e.Some? && IsLift(run.events[i], e.value)
  {
    Stepped(d, run, i);
    var e, inner := run.events[i], StoreStepAt(d, run, i).value;
    assert e == Lift(inner, if e.Arrive? then e.headers else map[]);
  }

  /** And it can do nothing else: every run of it is a lifted run of the handlers, step for step. */
  lemma {:induction false} OpenGateAddsNothing(d: Deployment, run: Trace, i: nat)
    requires !d.jwksConfigured && IsRun(d, run) && i <= |run.events|
    ensures var inner := StoreRun(d, run, i);
            && Store.IsRun(inner) && |inner.events| == i
            && (forall k :: 0 <= k <= i ==> run.states[k] == Open(inner.states[k]))
            && (forall k :: 0 <= k < i ==> IsLift(run.events[k], inner.events[k]))
  {
    StoreComponentRuns(d, run, i);
    if i > 0 {
      OpenGateAddsNothing(d, run, i - 1);
      OpenStep(d, run, i - 1);
    }
  }

  /* ----- progress ----- */

  // `r` has arrived and has not been answered, refused or dropped.
  predicate Pending(s: State, r: RequestId) {
    || (r in s.cache.pcs && !s.cache.pcs[r].Finished())
    || (r in s.store.phases && !s.store.phases[r].Finished())
  }

  // Some request can advance, without a new arrival and without being cut short.
  ghost predicate CanAdvance(d: Deployment, s: State) {
    exists e: Event :: Enabled(d, s, e) && match e
                       case Arrive(_, _, _, _) => false
                       case CacheStep(event, _, _) => !event.Drop?
                       case StoreStep(event) => !event.Drop? && !event.Fail? && !event.RunOrphan?
  }

  /** While a request is pending, in any run, the service is not stuck. */
  lemma NeverStuck(d: Deployment, run: Trace, i: nat, r: RequestId)
    requires IsRun(d, run) && i <= |run.events| && Pending(run.states[i], r)
    ensures CanAdvance(d, run.states[i])
  {
    var s := run.states[i];
    if r in s.store.phases && !s.store.phases[r].Finished() {
      var e :=
        match s.store.phases[r]
        case Acquiring(_) => Store.Send(r)
        case Sent(Insert(_, _, _)) => Store.RunInsert(r, 0, DbError(true, None, ""))
        case Sent(SelectAll) => Store.RunSelectAll(r, s.store.table)
        case Sent(SelectById(_)) => Store.RunSelectById(r)
        case _ => Store.Deliver(r);
      assert Enabled(d, s, StoreStep(e));
    } else {
      ComponentsRun(d, run, i);
      InvHolds(d, run, i);
      var cache := CacheRun(d, run, i);
      JwksProperties.StuckOnlyWhenFinished(cache, |cache.events|);
      var e: Jwks.Event :| Jwks.Enabled(s.cache, e) && !e.Drop? && !e.Arrive?;
      assert Enabled(d, s, CacheStep(e, "", 0));
    }
  }
}
