/** The layers around every route, from the inside out: CORS, security headers, the cancelling timeout. */
module Router {
  import opened Http
  import opened Problems
  import opened Runs
  import opened Security
  import opened Wrappers
  import Service
  import Store = Users
  import UserProperties

  const ALLOW_ORIGIN := "access-control-allow-origin"

  // What the routes hand to the layers: a response in time, or nothing before the deadline.
  datatype Inner = Timely(response: Response) | Overdue

  // The names the CORS layer writes.
  predicate CorsOwned(name: string) {
    name == "vary" || "access-control-" <= name
  }

  // `others` is whatever the layer writes besides the allowed origin, such as `vary`.
  function WithCors(policy: CorsPolicy, origin: Option<string>, others: HeaderMap, response: Response): Response {
    var own := map name | name in others && CorsOwned(name) && name != ALLOW_ORIGIN :: others[name];
    var written := response.headers + own;
    var allowed := AllowedOrigin(policy, origin);
    response.(headers := if allowed.None? then written else Insert(written, ALLOW_ORIGIN, allowed.value))
  }

  function WithSecurityHeaders(response: Response): Response {
    response.(headers := Harden(response.headers))
  }

  // The timeout layer's own answer; the inner layers never see it.
  const TIMED_OUT := Response(408, map[], "")

  function Leaving(policy: CorsPolicy, origin: Option<string>, others: HeaderMap, inner: Inner): Response {
    match inner
    case Timely(response) => WithSecurityHeaders(WithCors(policy, origin, others, response))
    case Overdue => TIMED_OUT
  }

  lemma NamesAreApart()
    ensures forall name :: name in PROMISED ==> !CorsOwned(name)
    ensures CorsOwned(ALLOW_ORIGIN) && !CorsOwned(CONTENT_TYPE) && CONTENT_TYPE !in PROMISED
  {
    assert "access-control-"[0] == 'a' && "vary"[0] == 'v';
  }

  // The CORS layer leaves every header alone that is not its own, and sets the allowed origin as the policy decides.
  lemma CorsLeaves(policy: CorsPolicy, origin: Option<string>, others: HeaderMap, response: Response)
    ensures var r := WithCors(policy, origin, others, response);
            && r.status == response.status && r.body == response.body
            && (forall name :: !CorsOwned(name) ==> Get(r.headers, name) == Get(response.headers, name))
            && (forall name :: CorsOwned(name) && name != ALLOW_ORIGIN && name in others
                               ==> Get(r.headers, name) == others[name])
            && Get(r.headers, ALLOW_ORIGIN) ==
               match AllowedOrigin(policy, origin)
               case Some(value) => [value]
               case None => Get(response.headers, ALLOW_ORIGIN)
  {
    NamesAreApart();
  }

  lemma TimeoutIsBare()
    ensures !Hardened(TIMED_OUT.headers)
  {
    assert NOSNIFF in PROMISED && Get(TIMED_OUT.headers, NOSNIFF) == [];
  }

  /**
   A response carries the seven headers, each with its one value, exactly when it is not the timeout's own. Status,
   body and every header that neither layer owns get through, and the policy alone decides the allowed origin.
   */
  lemma HardenedUnlessTimedOut(policy: CorsPolicy, origin: Option<string>, others: HeaderMap, inner: Inner)
    ensures Hardened(Leaving(policy, origin, others, inner).headers) <==> inner.Timely?
    ensures inner.Timely? ==>
              var r := Leaving(policy, origin, others, inner);
              && r.status == inner.response.status && r.body == inner.response.body
              && (forall name :: name !in PROMISED && !CorsOwned(name)
                                 ==> Get(r.headers, name) == Get(inner.response.headers, name))
              && (forall name :: CorsOwned(name) && name != ALLOW_ORIGIN && name in others
                                 ==> Get(r.headers, name) == others[name])
              && Get(r.headers, ALLOW_ORIGIN) ==
                 match AllowedOrigin(policy, origin)
                 case Some(value) => [value]
                 case None => Get(inner.response.headers, ALLOW_ORIGIN)
  {
    NamesAreApart();
    match inner
    case Timely(response) =>
      CorsLeaves(policy, origin, others, response);
      HardenIsExact(WithCors(policy, origin, others, response).headers);
    case Overdue =>
      TimeoutIsBare();
  }

  /* ----- the replies of the service ----- */

  // The JSON text of a successful answer.
  type Renderer = Store.Answer -> string

  function Render(a: Store.Answer, render: Renderer): Response {
    match a
    case Refused(error) => IntoResponse(ToProblem(error))
    case Created(_) => Response(201, map[CONTENT_TYPE := ["application/json"]], render(a))
    case _ => Response(200, map[CONTENT_TYPE := ["application/json"]], render(a))
  }

  // What becomes of a request of the service, once it has ended.
  function Reply(s: Service.State, r: Service.RequestId, render: Renderer): Option<Inner> {
    if r in s.denied then Some(Timely(IntoResponse(s.denied[r])))
    else if r in s.store.phases then
      match s.store.phases[r]
      case Answered(a) => Some(Timely(Render(a, render)))
      case Dropped => Some(Overdue)
      case _ => None
    else if r in s.cache.pcs && s.cache.pcs[r].Dropped? then Some(Overdue)
    else None
  }

  /** A request has a reply exactly when it has arrived and ended; that is the timeout's exactly when it was dropped. */
  lemma RepliedExactlyWhenEnded(d: Service.Deployment, run: Service.Trace, i: nat, r: Service.RequestId,
                                render: Renderer)
    requires Service.IsRun(d, run) && i <= |run.events|
    ensures Reply(run.states[i], r, render).Some? <==> Service.Arrived(run, i, r) && !Service.Pending(run.states[i], r)
    ensures Reply(run.states[i], r, render) == Some(Overdue) <==> Service.WasDropped(run, i, r)
  {
    Service.InvHolds(d, run, i);
    Service.EveryRequestIsInOnePlace(d, run, i, r);
    Service.DroppedExactly(d, run, i, r);
  }

  predicate IsJson(reply: Response, text: string) {
    reply.body == text && Get(reply.headers, "content-type") == ["application/json"]
  }

  // What a client is to find in the reply to a request that was denied or answered.
  ghost predicate Conveys(s: Service.State, r: Service.RequestId, render: Renderer, reply: Response) {
    && (r in s.denied ==> reply.status == 401 && ReadProblem(reply.body) == Some(s.denied[r]))
    && (r in s.store.phases && s.store.phases[r].Answered? ==>
          var a := s.store.phases[r].answer;
          match a
          case Created(_) => reply.status == 201 && IsJson(reply, render(a))
          case Listed(_) => reply.status == 200 && IsJson(reply, render(a))
          case Found(_) => reply.status == 200 && IsJson(reply, render(a))
          case Refused(error) =>
            reply.status == PromisedStatus(error) && ReadProblem(reply.body) == Some(Promised(error)))
  }

  lemma ReplyConveys(d: Service.Deployment, run: Service.Trace, i: nat, r: Service.RequestId, render: Renderer)
    requires Service.IsRun(d, run) && i <= |run.events|
    ensures match Reply(run.states[i], r, render)
            case Some(Timely(response)) => Conveys(run.states[i], r, render, response)
            case _ => true
  {
    var s := run.states[i];
    Service.InvHolds(d, run, i);
    if r in s.denied {
      DenialsAre401(d, run, i, r);
      BodyRoundTrip(s.denied[r]);
    } else if r in s.store.phases && s.store.phases[r].Answered? && s.store.phases[r].answer.Refused? {
      ErrorResponseAgrees(s.store.phases[r].answer.error);
    }
  }

  lemma {:induction false} DenialsAre401(d: Service.Deployment, run: Service.Trace, i: nat, r: Service.RequestId)
    requires Service.IsRun(d, run) && i <= |run.events| && r in run.states[i].denied
    ensures run.states[i].denied[r].status == 401
  {
    var s, e := run.states[i - 1], run.events[i - 1];
    Service.Stepped(d, run, i - 1);
    if r in s.denied && run.states[i].denied[r] == s.denied[r] {
      DenialsAre401(d, run, i - 1, r);
    }
  }

  // A handler refuses with one of four codes.
  lemma RefusalCodes(inner: Store.Trace, r: Store.RequestId, error: AppError)
    requires Store.IsRun(inner) && r in inner.Last().phases
    requires inner.Last().phases[r] == Store.Answered(Store.Refused(error))
    ensures PromisedStatus(error) in {400, 404, 409, 500}
  {
    var k := UserProperties.AnswerOrigin(inner, |inner.events|, r, Store.Refused(error));
    assert StepAt(Store.Next, inner, k);
  }

  // A problem on its way out keeps its document and gains the headers.
  lemma ProblemLeaves(problem: ProblemDetails, policy: CorsPolicy, origin: Option<string>, others: HeaderMap)
    requires problem.status in {400, 401, 404, 409, 500}
    ensures var reply := Leaving(policy, origin, others, Timely(IntoResponse(problem)));
            && reply.status == problem.status
            && Get(reply.headers, CONTENT_TYPE) == [PROBLEM_JSON]
            && ReadProblem(reply.body) == Some(problem)
  {
    HardenedUnlessTimedOut(policy, origin, others, Timely(IntoResponse(problem)));
    NamesAreApart();
    BodyRoundTrip(problem);
  }

  ghost predicate CarriesProblem(response: Response) {
    exists problem: ProblemDetails :: problem.status in {400, 401, 404, 409, 500} && response == IntoResponse(problem)
  }

  lemma RefusalCarriesProblem(error: AppError)
    requires PromisedStatus(error) in {400, 404, 409, 500}
    ensures CarriesProblem(IntoResponse(ToProblem(error)))
  {
    ToProblemKeepsPromise(error);
  }

  // What a timely reply carries: a success, or a problem with one of five codes.
  lemma ReplyKinds(d: Service.Deployment, run: Service.Trace, i: nat, r: Service.RequestId, render: Renderer)
    requires Service.IsRun(d, run) && i <= |run.events| && Reply(run.states[i], r, render).Some?
    ensures match Reply(run.states[i], r, render).value
            case Overdue => true
            case Timely(response) => response.status in {200, 201} || CarriesProblem(response)
  {
    var s := run.states[i];
    if r in s.denied {
      DenialsAre401(d, run, i, r);
    } else if r in s.store.phases && s.store.phases[r].Answered? && s.store.phases[r].answer.Refused? {
      Service.ComponentsRun(d, run, i);
      var error := s.store.phases[r].answer.error;
      RefusalCodes(Service.StoreRun(d, run, i), r, error);
      RefusalCarriesProblem(error);
    }
  }

  /**
   End to end, over every run of the service: a reply has one of eight codes. It is a bare 408 if and only if an event
   of the run dropped the request; every other reply carries the security headers and conveys the answer the request
   got, and every other error is a problem document that a client reads back with that code.
   */
  lemma EveryReply(d: Service.Deployment, run: Service.Trace, i: nat, r: Service.RequestId, render: Renderer,
                   policy: CorsPolicy, origin: Option<string>, others: HeaderMap)
    requires Service.IsRun(d, run) && i <= |run.events| && Reply(run.states[i], r, render).Some?
    ensures var inner := Reply(run.states[i], r, render).value;
            var reply := Leaving(policy, origin, others, inner);
            && reply.status in {200, 201, 400, 401, 404, 408, 409, 500}
            && (reply.status == 408 <==> Service.WasDropped(run, i, r))
            && (reply.status == 408 ==> reply == Response(408, map[], ""))
            && (reply.status != 408 <==> Hardened(reply.headers))
            && (reply.status != 408 ==> Conveys(run.states[i], r, render, reply))
            && (reply.status >= 400 && reply.status != 408 ==>
                  && Get(reply.headers, CONTENT_TYPE) == [PROBLEM_JSON]
                  && ReadProblem(reply.body).Some? && ReadProblem(reply.body).value.status == reply.status)
  {
    var inner := Reply(run.states[i], r, render).value;
    HardenedUnlessTimedOut(policy, origin, others, inner);
    RepliedExactlyWhenEnded(d, run, i, r, render);
    NamesAreApart();
    ReplyConveys(d, run, i, r, render);
    ReplyKinds(d, run, i, r, render);
    if inner.Timely? && inner.response.status !in {200, 201} {
      var problem: ProblemDetails :|
        problem.status in {400, 401, 404, 409, 500} && inner.response == IntoResponse(problem);
      ProblemLeaves(problem, policy, origin, others);
    }
  }
}
