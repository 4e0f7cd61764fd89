# Verification of the service template

A Dafny model of the Rust service template (`murilofelipe/template-servico-rust`) and proofs about it. The model
covers the lazy JWKS cache as a protocol run by any number of concurrent requests, the user handlers interleaving
on one table, the JWT gate that joins the two, configuration loading, the CORS and security-header layers, and
the problem-details error model of section 3.1 of RFC 7807 down to its JSON text. `dafny verify dfyconfig.toml`
checks the whole project.

## How the service is modelled

* **Concurrency.** `JwksProtocol`, `Users` and `Service` are state machines. A state holds the shared data and one
  program counter (or phase) per request; an event is what one request does between two `.await` points, and
  carries everything the environment decides: endpoint answers, generated ids, clock readings, row orders,
  database failures. A `Run` is a list of states and the events between them, and theorems quantify over all runs.
  Dropping a request (the 10 s timeout, or a client that leaves) is an event enabled at every point of a request's
  life, also between a commit and its response, and between the grant of a lock and its use. A request
  first waits for a connection, then its statement is on its way, then its answer. A query may fail at any of these
  points. Neither a drop nor a failure recalls a statement that is on its way, unless the failure is the server's
  own report: such an `INSERT` stays behind as an orphan, which the database may run at any later step, or never.
  An orphaned `SELECT` has no effect and is not kept.
  Waiting for the request body (`src/error.rs:374-379`) is merged with the step in which a request begins, because
  between the gate and the validation it touches nothing shared.
* **Imperative parts.** `JwksCache.Cache` and `UserStore.Store` are the shared objects: each method changes the
  fields as the source does between two suspension points and is proved equal to the machine's step, and
  `GetJwksJson`, `CreateUser`, `ListUsers` and `GetUserById` are the whole functions when nobody interferes.
  `Config.Load`, `Security.SecurityHeaders` and `Auth.Authenticate` are the source's own mutations. The builders
  `with_type` and `with_invalid_params` take and return an owned value, so they are updates of a value here.
* **Libraries.** What a library decides is a parameter or an event, with these assumptions only: tokio's lock
  grants waiters in arrival order, readers together and a writer alone; the database runs a statement atomically,
  enforces the primary key and the unique email, reports a violated constraint as one, and reports an
  error only for a statement that has had and will have no effect; a `SELECT` without
  `ORDER BY` returns the rows in any order; envy decodes every field and fails as a whole; tower-http matches an
  origin by equality and refuses a list holding `*`; `HeaderMap::insert` replaces. Nothing is assumed of JWT
  decoding, key construction and verification; the verdict on a token may also depend on a clock reading that the
  judging step carries, since the claims hold an expiry.

## What turns out not to hold

* A request that was answered 408, or 500 for a lost connection, may still create its user afterwards: `LateCommit`
  is a run of either kind in which a list that began after that answer does not show the row yet. `OvertakenExactlyWhenCutOff` gives
  the exact condition: requests that begin later can take effect before one that has ended if and only if its
  `INSERT` was on its way when it was dropped or failed without the server's own report. While it waits for a
  connection, and once the server has rejected it, this cannot happen.
* `get_jwks_json` stores without looking again, so the first stored body need not stay
  (`FirstBodyCanBeReplaced`). `FinalIffSettled` gives the exact condition.
* The cache is never filled again and the status of the endpoint's response is not looked at. Once it has settled,
  every judgement is the verdict on that one body (`SettledVerdicts`), so a key published later is never accepted.
  `OpenExactlyWhenBodyAdmits` gives the exact condition under which anybody gets in from then on: some headers
  screen to a token that passes on that body. `FirstBodyCanShutService` is, for every body that admits nobody, an
  error page for instance (`UnparsableAdmitsNobody`), a run from the start that stores it and stays shut for good.
* `security_headers_middleware` promises its headers on all responses, but the timeout layer is outside it:
  `HardenedUnlessTimedOut` and `EveryReply` show that exactly the 408 goes without.
* A failure worded like a constraint violation that is not the server's own report is answered 409 even after its
  own request committed. This is the only way in which a 400, 404 or 409 can hide a committed row
  (`MisleadsExactlyWhenMisworded`); `ConflictExactly` shows exactly when a 409 is answered.
* `ALLOWED_ORIGINS` with an entry `*` stops a production service from starting (`PanicsOnWildcard`).

## Model

| member | source | states |
|---|---|---|
| JwksProtocol.LockHolds | src/auth.rs:50-67 | in every run the lock knows exactly who waits and who holds a guard, and a writer is alone |
| JwksProtocol.LockDiscipline | src/auth.rs:50-67 | no guard is held across a fetch or while queueing, and a writer never coexists with a reader or another writer |
| JwksProperties.BodiesAreFetched | src/auth.rs:49-68 | the cached body, every body in hand and every body returned was read from the endpoint earlier in the run |
| JwksProperties.CacheIsFetchedAndKept | src/auth.rs:49-68 | the cache goes from empty to full once and holds only bodies a fetch returned |
| JwksProperties.UnsuccessfulNeverStores | src/auth.rs:58-66 | a request that failed or was dropped never changed the cache |
| JwksProperties.MissersStep | src/auth.rs:49-68 | once the cache is full the set of requests that may still store never grows and loses each one that finishes |
| JwksProperties.StoresUseUpMissers | src/auth.rs:49-68 | from a full cache on, stores are at most as many as the missers that were in flight |
| JwksProperties.SettledStays | src/auth.rs:49-68 | when every misser already holds the cached body, no continuation changes it |
| JwksProperties.FinalIffSettled | src/auth.rs:65-67 | the cached body is final in all continuations if and only if every misser already holds that body |
| JwksProperties.FirstBodyCanBeReplaced | src/auth.rs:65-67 | a run from the start in which the first stored body is overwritten by another |
| JwksProperties.FetchesEndWithFirstStore | src/auth.rs:49-68 | the endpoint is asked exactly as often as there were requests that looked before the first store |
| JwksProperties.StepsAreBounded | src/auth.rs:49-68 | a request takes at most seven steps of its own under any interleaving |
| JwksProperties.LockNeverWaitsForEndpoint | src/auth.rs:50-67 | while some request neither fetches nor has finished, the service can step without the endpoint |
| JwksProperties.StuckOnlyWhenFinished | src/auth.rs:49-68 | a reachable state is stuck if and only if every request has finished |
| JwksCache.Cache.constructor | src/auth.rs:41-46 | a new cache is empty, with a free lock and no requests |
| JwksCache.Cache.LookUp | src/auth.rs:50-55 | the read block returns the cached body and is the protocol's check step |
| JwksCache.Cache.StoreAndReturn | src/auth.rs:65-67 | the write block overwrites the cache with the body it returns and is the protocol's store step |
| JwksCache.Cache.DropRequest | src/routes.rs:137-140 | cancelling a request gives back its place or its guard and leaves the cache |
| JwksCache.Cache.GetJwksJson | src/auth.rs:49-68 | undisturbed, a hit returns the cached body without fetching, a miss stores exactly what it returns, an error stores nothing |
| Auth.SelectsFirstEligible | src/auth.rs:76-84 | the selected key is the first with the wanted kid, or the first of all without one; selection fails exactly when there is none |
| Auth.DecodesExactly | src/auth.rs:71-88 | on a body, get_decoding_key answers a key if and only if the body parses to a set whose first key eligible for the kid builds that key |
| Auth.FailsExactly | src/auth.rs:71-88 | it fails for exactly one of five reasons: no body, no set, an unknown kid, an empty set, or a key that cannot be built |
| Auth.FailuresAreOwn | src/auth.rs:58-63 | a request fails only because the endpoint failed that very request |
| Auth.KeysComeFromEndpoint | src/auth.rs:71-88 | every answer of get_decoding_key is the key that some body the endpoint returned yields, or that it yields none, or the request's own failure |
| Auth.CacheIsTransparent | src/auth.rs:49-88 | while the endpoint serves one body, every answer is what that body yields, unless the request's own fetch failed |
| Auth.Authenticate | src/auth.rs:98-161 | a request is let through if and only if its token decodes and verifies, with the configured issuer and audience, under the key the body yields for its kid; otherwise it is told which of the four things is wrong, with a 401 |
| Users.ValidatesExactly | src/handlers.rs:46-58 | validation accepts exactly the statement a request asks for, and refuses with the detail for a blank name, an email without an at sign, or what an extractor rejected |
| Users.ValidatedStatement | src/handlers.rs:46-56 | only trimmed non-empty names and emails with an at sign reach the INSERT |
| Users.InvHolds | src/handlers.rs:46-74 | every reachable state keeps the table invariant and holds only valid statements |
| Users.TableIsSound | migrations/20260813000000_create_users_table.sql:1-7 | ids and emails stay distinct, rows valid, and every earlier row stays unchanged in place |
| UserStore.Store.BeginRequest | src/handlers.rs:46-58 | the validation prefix is the machine's first step |
| UserStore.Store.ExecuteInsert | src/handlers.rs:60-72 | the INSERT commits or meets a conflict as the machine's step does |
| UserStore.Store.ExecuteOrphan | src/handlers.rs:60-72 | an INSERT whose request has ended commits or not, as the machine's step does, and answers nobody |
| UserStore.Store.FailQuery | src/handlers.rs:60-72 | a failed query is answered with its error, and leaves an INSERT behind only when that is on its way and the server has not rejected it |
| UserStore.Store.DropRequest | src/routes.rs:137-140 | cancelling a request leaves the table, and leaves behind its INSERT when that is on its way |
| UserStore.Store.CreateUser | src/handlers.rs:42-75 | undisturbed, which of the two 400s, 409 or 201 is answered, and the exact table each leaves |
| UserStore.Store.ListUsers | src/handlers.rs:85-96 | undisturbed, the list is the table's rows, each as often as it occurs |
| UserStore.Store.GetUserById | src/handlers.rs:110-127 | undisturbed, the row with the id is found, and 404 is answered exactly when there is none |
| UserProperties.AnswerOrigin | src/handlers.rs:42-127 | every answer comes from the request's validation, its one statement or the failure of its query |
| UserProperties.OneEffect | src/handlers.rs:58-72 | a request's statement takes effect at most once, before or after the request has ended |
| UserProperties.EffectIsLegal | src/handlers.rs:60-72 | each statement's effect and answer are ones a sequential server on a set of users may give |
| UserProperties.HistoryIsLegal | src/handlers.rs:42-127 | linearizability: the statements in order of effect form a legal sequential history that leaves the table's rows |
| UserProperties.DeliveredIsRecorded | src/handlers.rs:42-127 | linearizability: for a delivered answer the history holds one operation of its request, which is what the request asked for and has that answer |
| UserProperties.HistoryRespectsRealTime | src/handlers.rs:42-127 | linearizability: a request that ended before another began precedes it in the history, unless it was cut off while its INSERT was on its way |
| UserProperties.EndLeavesOrphan | src/routes.rs:137-140 | a request that ends leaves a statement behind exactly when it is cut off while its INSERT is on its way, and not by the server's own error |
| UserProperties.OvertakenExactlyWhenCutOff | src/routes.rs:137-140 | some continuation lets a request that begins after an ended one take effect before it, if and only if the ended one was cut off while its INSERT was on its way |
| UserProperties.LateCommit | src/handlers.rs:60-72 | for every valid payload, a run from the start in which the row is committed after its request was dropped, or answered a failure that is not the server's report, and after a later list missed it |
| UserProperties.LaterReadsSeeCreated | src/handlers.rs:74-126 | a user answered 201 appears unchanged in every later-begun list and get; such a request is refused only with the failure of its own query, never with a 404 |
| UserProperties.ConflictExactly | src/error.rs:288-310 | an answer is a 409 if and only if the insert met that id or email, or the query failed with an error worded like a conflict |
| UserProperties.RefusedChangesNothing | src/handlers.rs:46-74 | requests answered 400, 404 or 409 change nothing, before or after their answer, unless a failure that the server has not reported was worded like a conflict |
| UserProperties.RejectedNeverRuns | src/handlers.rs:60-72 | a statement that the server rejects has had no effect and never has one later |
| UserProperties.MisleadsExactlyWhenMisworded | src/error.rs:290-304 | a failure can leave a request answered 400, 404 or 409 although its row is committed, if and only if it is worded like a conflict and is not the server's own report |
| UserProperties.MisleadingConflict | src/error.rs:295-298 | for every valid payload and every such failure, a run from the start that answers 409 after committing the row |
| UserProperties.RowCount | src/handlers.rs:58-74 | the table grew by the 201 answers plus the commits without one, which are pending, dropped, or failed without the server's own report |
| UserRaces.RowOrigin | src/handlers.rs:60-72 | a row beyond the initial ones was committed by some request's insert |
| UserRaces.CommittedRow | src/handlers.rs:46-72 | a committed row carries the generated id, the trimmed name and the email of its request |
| UserRaces.RaceHasOneWinner | src/handlers.rs:58-74 | of undisturbed creates racing for one fresh email exactly one gets 201 and all others 409 |
| Service.ComponentsRun | src/routes.rs:101-110 | every run of the gated service is a run of the cache protocol and a run of the user requests |
| Service.EveryRequestIsInOnePlace | src/auth.rs:98-161 | a request that has arrived is at the cache, denied, or with its handler, exactly one of these, and nobody else is |
| Service.ArrivalIsScreened | src/auth.rs:98-127 | in the step in which it arrives a request without a bearer token, or with one that does not decode, is denied and told which; any other joins the cache's queue; without JWKS its handler begins |
| Service.AnswerIsJudged | src/auth.rs:129-161 | in the step in which the cache answers, the handler begins the request if and only if its token verifies under the key the body yields; otherwise it is denied for want of a key or for the token |
| Service.DroppedExactly | src/routes.rs:137-140 | a request is dropped in a state if and only if an event of the run dropped it |
| Service.GateDoesNotInterfere | src/auth.rs:130-139 | the gate delays no step of the cache, and a denied request never reaches a handler |
| Service.OnlyAuthorisedBegin | src/auth.rs:98-161 | with JWKS configured a request reaches a handler only unchanged and with a token that verified, in the step in which the cache answered it, under a key of the body it answered with |
| Service.EveryNewRowIsAuthorised | src/auth.rs:98-161 | the very request whose statement committed a new row had asked for that row, with a token verified under a key from a fetched body |
| Service.NoBodyNoEntry | src/auth.rs:130-139 | while no fetch has succeeded no request reaches a handler and the table is untouched |
| Service.SettledVerdicts | src/auth.rs:49-88 | behind a settled cache every later judgement is the verdict on its one body, whatever the endpoint would serve by then |
| Service.ServedVerdicts | src/auth.rs:49-161 | while the endpoint serves one body, every judgement of a run is the verdict on that body, or the request is denied because its own fetch failed |
| Service.OpenExactlyWhenBodyAdmits | src/auth.rs:49-161 | behind a settled cache some continuation lets a further request begin, if and only if some headers screen to a token that passes on the cached body at some time |
| Service.FirstBodyCanShutService | src/auth.rs:58-67 | for every body that admits nobody, a run from the start stores it and settles, and no continuation lets any request begin |
| Service.OpenGateAdmitsAll | src/auth.rs:103-106 | without JWKS every run of the handlers is a run of the gated service, whatever the headers |
| Service.OpenGateAddsNothing | src/auth.rs:103-106 | without JWKS every run of the gated service is step for step a run of the handlers |
| Service.NeverStuck | src/routes.rs:101-110 | while a request is pending, some request can advance |
| Config.FromStrAccepts | src/config.rs:59-70 | exactly the blank-padded names, in any ASCII case, parse to an environment |
| Config.DisplayRoundTrip | src/config.rs:49-70 | printing and parsing an environment is the identity under any case change and padding |
| Config.SerdeAccepts | src/config.rs:6-30 | the deserializer accepts exactly the listed spellings |
| Config.SerdeSpellingsParse | src/config.rs:6-30 | every spelling the deserializer accepts parses to the same variant |
| Config.ParseMembers | src/config.rs:89-94 | exactly the non-empty trimmed segments are listed |
| Config.ParseIsClean | src/config.rs:89-94 | every listed origin is non-empty, trimmed and comma-free |
| Config.ParseConcat | src/config.rs:89-94 | parsing turns a comma into list concatenation, for all strings, keeping order and duplicates |
| Config.ParseWritten | src/config.rs:89-94 | parsing undoes writing with any padding and any empty segments, also of no segments at all |
| Config.ParseJoinParse | src/config.rs:89-94 | parsing, joining and parsing again changes nothing, for every string |
| Config.ParseU16Accepts | src/config.rs:139-142 | exactly the decimal numerals below 2^16, with any zeros and at most a plus sign before them, parse, and to their number |
| Config.Load | src/config.rs:126-187 | whichever decoding path ran, every field is what the environment means by it: the first variable set of `ENVIRONMENT`, `APP_ENV`, `RUST_ENV` decides alone, and a port or environment that is no numeral or name gives the default |
| Config.MeaningIsUnique | src/config.rs:126-187 | the environment determines the whole configuration |
| Config.EnvyFailsExactly | src/config.rs:97-136 | the manual path runs exactly when `DATABASE_URL` is missing or a port or environment that is set is malformed |
| Security.PanicsOnWildcard | src/security.rs:30-40 | a production service fails to start exactly when a segment is a lone asterisk |
| Security.EchoedExactlyWhenListed | src/security.rs:29-44 | an Origin is echoed exactly when it is a header-valid trimmed segment of the variable |
| Security.CorsFromEnvironment | src/security.rs:29-44 | outside production every origin is allowed whatever is listed; in production the variable decides, and without it or without an Origin nothing is allowed |
| Security.EchoOfConcat | src/security.rs:31-35 | joining two lists with a comma allows exactly the union |
| Security.MalformedNeighbourIsHarmless | src/security.rs:31-35 | a blank or malformed neighbour changes no answer |
| Security.SecurityHeaders | src/security.rs:56-83 | the in-place inserts leave exactly the hardened header map |
| Security.HardenIsExact | src/security.rs:56-83 | each promised header has its one value, every other is untouched, and hardening twice is hardening once |
| Router.HardenedUnlessTimedOut | src/routes.rs:129-140 | exactly the responses other than the timeout's own leave hardened, with status, body and every header that no layer owns, and the allowed origin the policy decides |
| Router.DenialsAre401 | src/auth.rs:113-158 | every denial of the gate is a 401 |
| Router.RepliedExactlyWhenEnded | src/routes.rs:129-141 | over all service runs a request has a reply if and only if it has arrived and ended, and the timeout's if and only if an event dropped it |
| Router.EveryReply | src/routes.rs:101-141 | over all service runs: eight codes; a bare 408 if and only if the request was dropped; otherwise hardened, 201 or 200 with the rendered answer, and every denial and refusal a document that reads back with its code and detail |
| Problems.DecodeEncoded | src/error.rs:14-46 | the JSON object loses nothing; absent options are omitted and restored, an empty list stays apart from none |
| Problems.BodyRoundTrip | src/error.rs:165-184 | the body text, read back, is the problem that was sent; HTTP status and `status` agree exactly for three-digit codes |
| Problems.RepeatedMemberIsRefused | src/error.rs:14-46 | no problem is read out of an object in which one of its members is repeated |
| Problems.BodyIdentifiesProblem | src/error.rs:165-184 | two problems have the same body only if they are equal |
| Problems.ClassifierIsExact | src/error.rs:288-298 | a failure counts as a conflict if and only if the driver flags it, its code is 23505, or its text holds one of the words for its kind in any ASCII case |
| Problems.ErrorResponseAgrees | src/error.rs:239-323 | every error is answered with its promised code and the whole promised document: type, title, detail, parameters |
| Problems.HiddenErrorsRevealOnlyVerdict | src/error.rs:288-315 | responses to internal and database errors are equal exactly when their unique-violation verdicts are |
| Problems.VerdictIgnoresCase | src/error.rs:290-298 | the verdict does not depend on the case of ASCII letters in the messages |
| Json.EscapeVerbatim | src/error.rs:169-170 | a string is written unchanged exactly when it has no quote, backslash or control character |
| Json.ReadEscaped | src/error.rs:169-170 | reading a JSON string undoes escaping for every string and stops at its closing quote |
| Json.ReadPrinted | src/error.rs:169-170 | reading a printed JSON value gives that value and the text after it |

## Left out

* JWT cryptography, claim checking, JWK parsing and key construction: unconstrained parameters of the model.
* The URL in the cache's error messages: the middleware answers every one of them with the same 401.
* `VARCHAR(255)` limits and other server-side rejections: they are among the server errors that `Fail` covers.
* The size of the connection pool and its acquire timeout: a wait for a connection may end or fail at any moment.
* Rows changed or removed by anything but this service: the handlers only insert and select.
* envy's acceptance of lower-case variable names and `.env` loading: variables have their exact upper-case names.
* Variables that are not valid Unicode: `env::var` and `envy` treat them differently, values here are strings.
* `str::to_lowercase` on non-ASCII letters: left unchanged here, which only concerns the wording of database errors.
* JSON white space and surrogate-pair escapes: `serde_json` never writes them; the reader here is for compact text.
* An Origin that is not valid UTF-8: it equals no configured origin.
* CORS methods, request headers and preflight answers, and the values of `vary` and
  `access-control-expose-headers`: decided by tower-http, here a parameter that may set any header the layer owns.
* `with_instance`: nothing in the service calls it.
* The routes `/health`, `/metrics`, the API documentation and the 404 fallback, and the choice of route: no state.
* 405 answers of axum for known paths: not produced by the service's code.
* JSON text of successful answers: a parameter of `Router.EveryReply`.
* Clock readings and the 10 s themselves: a timeout may strike at any moment.
* Logging, tracing, metrics, the Redis wrapper, start-up and shutdown, pool creation and migrations.
* OpenAPI documents, scripts, container and audit configuration.
