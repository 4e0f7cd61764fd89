/** Bearer tokens, key selection and the verdict of the JWT gate. */
module Auth {
  import opened Clock
  import opened Http
  import opened JwksProtocol
  import opened JwksProperties
  import opened Problems
  import opened Runs
  import opened Wrappers

  datatype Jwk = Jwk(kid: Option<string>, material: string)

  datatype JwtHeader = JwtHeader(kid: Option<string>, alg: string)

  datatype Validation = Validation(alg: string, issuer: Option<string>, audience: Option<string>)

  type Key = string

  // What the JWT library decides; nothing is assumed about these functions. A verdict on a token may depend on the
  // clock, as its claims carry an expiry.
  datatype Library = Library(
    decodeHeader: string -> Option<JwtHeader>,
    parseSet: string -> Option<seq<Jwk>>,
    buildKey: Jwk -> Option<Key>,
    verify: (string, Key, Validation, Time) -> bool)

  datatype KeyError = Unfetched(error: FetchError) | BadSet | UnknownKid(kid: string) | EmptySet | BadKey

  function FindKid(keys: seq<Jwk>, kid: string): Option<Jwk> {
    if keys == [] then None
    else if keys[0].kid == Some(kid) then Some(keys[0])
    else FindKid(keys[1..], kid)
  }

  function SelectKey(keys: seq<Jwk>, kid: Option<string>): Result<Jwk, KeyError> {
    match kid
    case Some(k) =>
      var found := FindKid(keys, k);
      if found.Some? then Success(found.value) else Failure(UnknownKid(k))
    case None => if keys == [] then Failure(EmptySet) else Success(keys[0])
  }

  // `get_decoding_key`, given what `get_jwks_json` answered.
  function DecodingKey(lib: Library, json: Result<string, FetchError>, kid: Option<string>): Result<Key, KeyError> {
    if json.Failure? then Failure(Unfetched(json.error))
    else
      var keys := lib.parseSet(json.value);
      if keys.None? then Failure(BadSet)
      else
        var jwk := SelectKey(keys.value, kid);
        if jwk.Failure? then Failure(jwk.error)
        else
          var key := lib.buildKey(jwk.value);
          if key.None? then Failure(BadKey) else Success(key.value)
  }

  predicate Eligible(jwk: Jwk, kid: Option<string>) {
    kid.Some? ==> jwk.kid == kid
  }

  /** The selected key is the first eligible one, and selection fails only when there is none. */
  lemma {:induction false} SelectsFirstEligible(keys: seq<Jwk>, kid: Option<string>)
    ensures SelectKey(keys, kid).Failure? <==> forall i :: 0 <= i < |keys| ==> !Eligible(keys[i], kid)
    ensures SelectKey(keys, kid).Success? ==>
              exists i :: 0 <= i < |keys| && keys[i] == SelectKey(keys, kid).value && Eligible(keys[i], kid)
                          && forall j :: 0 <= j < i ==> !Eligible(keys[j], kid)
  {
    if keys != [] {
      if Eligible(keys[0], kid) {
        assert keys[0] == SelectKey(keys, kid).value;
      } else {
        var rest := keys[1..];
        SelectsFirstEligible(rest, kid);
        assert forall i :: 1 <= i < |keys| ==> keys[i] == rest[i - 1];
        if SelectKey(keys, kid).Success? {
          var i :| 0 <= i < |rest| && rest[i] == SelectKey(rest, kid).value && Eligible(rest[i], kid)
                   && forall j :: 0 <= j < i ==> !Eligible(rest[j], kid);
          assert keys[i + 1] == rest[i];
        }
      }
    }
  }

  predicate FirstEligible(keys: seq<Jwk>, kid: Option<string>, i: nat) {
    i < |keys| && Eligible(keys[i], kid) && forall j :: 0 <= j < i ==> !Eligible(keys[j], kid)
  }

  // The body parses to a set of keys whose first eligible one builds this key.
  ghost predicate Yields(lib: Library, body: string, kid: Option<string>, key: Key) {
    exists keys, i ::
      lib.parseSet(body) == Some(keys) && FirstEligible(keys, kid, i) && lib.buildKey(keys[i]) == Some(key)
  }

  lemma SelectedIsFirst(keys: seq<Jwk>, kid: Option<string>) returns (i: nat)
    requires SelectKey(keys, kid).Success?
    ensures FirstEligible(keys, kid, i) && keys[i] == SelectKey(keys, kid).value
  {
    SelectsFirstEligible(keys, kid);
    i :| i < |keys| && keys[i] == SelectKey(keys, kid).value && Eligible(keys[i], kid)
         && forall j :: 0 <= j < i ==> !Eligible(keys[j], kid);
  }

  lemma FirstIsSelected(keys: seq<Jwk>, kid: Option<string>, i: nat)
    requires FirstEligible(keys, kid, i)
    ensures SelectKey(keys, kid) == Success(keys[i])
  {
    SelectsFirstEligible(keys, kid);
    var k := SelectedIsFirst(keys, kid);
    assert !(k < i) && !(i < k);
  }

  /** `get_decoding_key`, once it has a body, answers exactly the keys the body yields. */
  lemma DecodesExactly(lib: Library, body: string, kid: Option<string>, key: Key)
    ensures DecodingKey(lib, Success(body), kid) == Success(key) <==> Yields(lib, body, kid, key)
  {
    var parsed := lib.parseSet(body);
    if parsed.Some? {
      var keys := parsed.value;
      SelectsFirstEligible(keys, kid);
      if i: nat :| FirstEligible(keys, kid, i) {
        FirstIsSelected(keys, kid, i);
      }
      if SelectKey(keys, kid).Success? {
        var k := SelectedIsFirst(keys, kid);
      }
    }
  }

  /** And it fails for exactly one of five reasons. */
  lemma FailsExactly(lib: Library, json: Result<string, FetchError>, kid: Option<string>, error: KeyError)
    ensures DecodingKey(lib, json, kid) == Failure(error) <==>
            match error
            case Unfetched(e) => json == Failure(e)
            case BadSet => json.Success? && lib.parseSet(json.value).None?
            case EmptySet => json.Success? && lib.parseSet(json.value) == Some([]) && kid.None?
            case UnknownKid(k) =>
              json.Success? && kid == Some(k) && lib.parseSet(json.value).Some?
              && forall jwk :: jwk in lib.parseSet(json.value).value ==> jwk.kid != kid
            case BadKey =>
              json.Success? && lib.parseSet(json.value).Some?
              && exists i: nat :: FirstEligible(lib.parseSet(json.value).value, kid, i)
                             && lib.buildKey(lib.parseSet(json.value).value[i]).None?
  {
    if json.Success? && lib.parseSet(json.value).Some? {
      SetFailsExactly(lib, lib.parseSet(json.value).value, kid);
    }
  }

  lemma SetFailsExactly(lib: Library, keys: seq<Jwk>, kid: Option<string>)
    ensures SelectKey(keys, kid).Failure? <==> forall jwk :: jwk in keys ==> !Eligible(jwk, kid)
    ensures SelectKey(keys, kid).Success? && lib.buildKey(SelectKey(keys, kid).value).None?
       <==> exists i: nat :: FirstEligible(keys, kid, i) && lib.buildKey(keys[i]).None?
  {
    if SelectKey(keys, kid).Success? {
      var k := SelectedIsFirst(keys, kid);
      forall i: nat | FirstEligible(keys, kid, i) ensures keys[i] == keys[k] {
        FirstIsSelected(keys, kid, i);
      }
    } else {
      SelectsFirstEligible(keys, kid);
    }
  }

  // The answer is what this body yields: the key if there is one, and a failure otherwise.
  ghost predicate AnswersFrom(lib: Library, body: string, kid: Option<string>, answer: Result<Key, KeyError>) {
    (answer.Success? ==> Yields(lib, body, kid, answer.value))
    && (answer.Failure? ==> !answer.error.Unfetched? && forall key :: !Yields(lib, body, kid, key))
  }

  lemma DecodedAnswers(lib: Library, body: string, kid: Option<string>)
    ensures AnswersFrom(lib, body, kid, DecodingKey(lib, Success(body), kid))
  {
    forall key ensures DecodingKey(lib, Success(body), kid) == Success(key) <==> Yields(lib, body, kid, key) {
      DecodesExactly(lib, body, kid, key);
    }
  }

  /* ----- the cache seen through the keys it yields ----- */

  // Before states[i], the endpoint failed the request `r` itself.
  ghost predicate EndpointFailed(run: Trace, i: nat, r: RequestId) {
    exists k :: 0 <= k < i <= |run.events| && run.events[k].r == r
                && (   (run.events[k].Respond? && run.events[k].failure.Some?)
                    || (run.events[k].ReadBody? && run.events[k].outcome.Failure?))
  }

  lemma {:induction false} FailuresAreOwn(run: Trace, i: nat, r: RequestId)
    requires From(Next, run, INIT) && i < |run.states|
    requires r in run.states[i].pcs && run.states[i].pcs[r].Done? && run.states[i].pcs[r].result.Failure?
    ensures EndpointFailed(run, i, r)
  {
    var s, e := run.states[i - 1], run.events[i - 1];
    assert StepAt(Next, run, i - 1);
    if e.r == r {
      assert run.events[i - 1].r == r;
    } else {
      FailuresAreOwn(run, i - 1, r);
    }
  }

  // Every successful read of the endpoint in the run returned this body.
  ghost predicate Serves(run: Trace, body: string) {
    forall k :: 0 <= k < |run.events| && run.events[k].ReadBody? && run.events[k].outcome.Success?
                ==> run.events[k].outcome.value == body
  }

  /** Whatever the interleaving, a key comes from a body the endpoint returned, or the request's own fetch failed. */
  lemma KeysComeFromEndpoint(run: Trace, i: nat, r: RequestId, lib: Library, kid: Option<string>)
    requires From(Next, run, INIT) && i < |run.states|
    requires r in run.states[i].pcs && run.states[i].pcs[r].Done?
    ensures var answer := DecodingKey(lib, run.states[i].pcs[r].result, kid);
            if answer.Failure? && answer.error.Unfetched? then EndpointFailed(run, i, r)
            else exists body :: Fetched(run, i, body) && AnswersFrom(lib, body, kid, answer)
  {
    BodiesAreFetched(run, i);
    var result := run.states[i].pcs[r].result;
    if result.Failure? {
      FailuresAreOwn(run, i, r);
    } else {
      DecodedAnswers(lib, result.value, kid);
    }
  }

  /**
   The cache is transparent: while the endpoint serves one body, every finished request gets exactly the key an
   uncached fetch, parse and selection gives, unless its own fetch failed.
   */
  lemma CacheIsTransparent(run: Trace, i: nat, r: RequestId, body: string, lib: Library, kid: Option<string>)
    requires From(Next, run, INIT) && i < |run.states| && Serves(run, body)
    requires r in run.states[i].pcs && run.states[i].pcs[r].Done?
    ensures var answer := DecodingKey(lib, run.states[i].pcs[r].result, kid);
            if answer.Failure? && answer.error.Unfetched? then EndpointFailed(run, i, r)
            else AnswersFrom(lib, body, kid, answer)
  {
    BodiesAreFetched(run, i);
    var result := run.states[i].pcs[r].result;
    if result.Failure? {
      FailuresAreOwn(run, i, r);
    } else {
      DecodedAnswers(lib, result.value, kid);
    }
  }

  /* ----- the middleware ----- */

  const AUTHORIZATION := "authorization"
  const BEARER := "Bearer "

  // `HeaderValue::to_str` succeeds.
  predicate Visible(value: string) {
    forall k :: 0 <= k < |value| ==> value[k] == '\t' || ' ' <= value[k] <= '~'
  }

  function ExtractBearerToken(headers: HeaderMap): Option<string> {
    var values := Get(headers, AUTHORIZATION);
    if values == [] || !Visible(values[0]) || !(BEARER <= values[0]) then None
    else Some(values[0][|BEARER|..])
  }

  // The first Authorization header is this token after the scheme, and all of it visible.
  predicate CarriesBearer(headers: HeaderMap, token: string) {
    var values := Get(headers, AUTHORIZATION);
    && values != [] && values[0] == BEARER + token
    && forall k :: 0 <= k < |token| ==> token[k] as int == 0x09 || 0x20 <= token[k] as int < 0x7F
  }

  /** Exactly the visible text after the first header's "Bearer " is a token; later headers never matter. */
  lemma TokenIsFirstBearer(headers: HeaderMap, token: string)
    ensures ExtractBearerToken(headers) == Some(token) <==> CarriesBearer(headers, token)
  {
  }

  // The settings the gate reads.
  datatype GateConfig = GateConfig(issuer: Option<string>, audience: Option<string>)

  function ValidationFor(config: GateConfig, alg: string): Validation {
    Validation(alg, config.issuer, config.audience)
  }

  const NO_TOKEN := "Missing or malformed Authorization header. Expected: 'Bearer <token>'."
  const BAD_FORMAT := "Invalid JWT token format."
  const NO_KEY := "Unable to retrieve token validation key. Please try again."
  const BAD_TOKEN := "Invalid or expired token."

  // The checks made before the cache is consulted: a token and its header, or the refusal.
  function Screen(lib: Library, headers: HeaderMap): Result<(string, JwtHeader), ProblemDetails> {
    var token := ExtractBearerToken(headers);
    if token.None? then Failure(Unauthorized(NO_TOKEN))
    else
      var header := lib.decodeHeader(token.value);
      if header.None? then Failure(Unauthorized(BAD_FORMAT)) else Success((token.value, header.value))
  }

  // The checks made once the cache has answered: `None` lets the request through.
  function Judge(lib: Library, config: GateConfig, token: string, header: JwtHeader, json: Result<string, FetchError>,
                 now: Time)
    : Option<ProblemDetails>
  {
    var key := DecodingKey(lib, json, header.kid);
    if key.Failure? then Some(Unauthorized(NO_KEY))
    else if lib.verify(token, key.value, ValidationFor(config, header.alg), now) then None
    else Some(Unauthorized(BAD_TOKEN))
  }

  // Once the cache has answered with a body, the request passes exactly when its token verifies under a key it yields.
  lemma JudgesExactly(lib: Library, config: GateConfig, token: string, header: JwtHeader, body: string, now: Time)
    ensures Judge(lib, config, token, header, Success(body), now).None? <==>
            exists key :: Yields(lib, body, header.kid, key)
                          && lib.verify(token, key, Validation(header.alg, config.issuer, config.audience), now)
    ensures Judge(lib, config, token, header, Success(body), now) == Some(Unauthorized(NO_KEY)) <==>
            forall key :: !Yields(lib, body, header.kid, key)
  {
    DecodedAnswers(lib, body, header.kid);
    var answer := DecodingKey(lib, Success(body), header.kid);
    forall key ensures answer == Success(key) <==> Yields(lib, body, header.kid, key) {
      DecodesExactly(lib, body, header.kid, key);
    }
  }

  // The document of a 401.
  ghost function Promised401(detail: string): ProblemDetails {
    Promised(UnauthorizedError(detail))
  }

  lemma RefusalIsPromised(detail: string)
    ensures Unauthorized(detail) == Promised401(detail)
  {
  }

  // What is wrong with a request that is refused with this detail.
  ghost predicate Deserves(lib: Library, config: GateConfig, headers: HeaderMap, json: Result<string, FetchError>,
                           now: Time, detail: string) {
    || (detail == NO_TOKEN && forall token :: !CarriesBearer(headers, token))
    || (detail == BAD_FORMAT && exists token :: CarriesBearer(headers, token) && lib.decodeHeader(token).None?)
    || (detail == NO_KEY
        && exists token, header ::
             CarriesBearer(headers, token) && lib.decodeHeader(token) == Some(header)
             && (json.Failure? || forall key :: !Yields(lib, json.value, header.kid, key)))
    || (detail == BAD_TOKEN && json.Success?
        && exists token, header, key ::
             CarriesBearer(headers, token) && lib.decodeHeader(token) == Some(header)
             && Yields(lib, json.value, header.kid, key)
             && !lib.verify(token, key, Validation(header.alg, config.issuer, config.audience), now))
  }

  /** The middleware from the token on, with its in-place setters on the validation. */
  method Authenticate(lib: Library, config: GateConfig, headers: HeaderMap, json: Result<string, FetchError>, now: Time)
    returns (refusal: Option<ProblemDetails>)
    ensures refusal.None? <==>
              exists token, header, key ::
                && CarriesBearer(headers, token)
                && lib.decodeHeader(token) == Some(header)
                && json.Success? && Yields(lib, json.value, header.kid, key)
                && lib.verify(token, key, Validation(header.alg, config.issuer, config.audience), now)
    ensures refusal.Some? ==> Deserves(lib, config, headers, json, now, refusal.value.detail)
    ensures refusal.Some? ==> refusal == Some(Promised401(refusal.value.detail))
    ensures refusal == match Screen(lib, headers)
                       case Failure(problem) => Some(problem)
                       case Success((token, header)) => Judge(lib, config, token, header, json, now)
  {
    var screened := Screen(lib, headers);
    if screened.Failure? {
      refusal := Some(screened.error);
    } else {
      var (token, header) := screened.value;
      var key := DecodingKey(lib, json, header.kid);
      if json.Success? {
        DecodedAnswers(lib, json.value, header.kid);
        forall k ensures Yields(lib, json.value, header.kid, k) <==> key == Success(k) {
          DecodesExactly(lib, json.value, header.kid, k);
        }
      }
      if key.Failure? {
        refusal := Some(Unauthorized(NO_KEY));
      } else {
        var validation := Validation(header.alg, None, None);
        if config.issuer.Some? {
          validation := validation.(issuer := config.issuer);
        }
        if config.audience.Some? {
          validation := validation.(audience := config.audience);
        }
        refusal := if lib.verify(token, key.value, validation, now) then None else Some(Unauthorized(BAD_TOKEN));
      }
      TokenIsFirstBearer(headers, token);
    }
    forall token | CarriesBearer(headers, token)
      ensures ExtractBearerToken(headers) == Some(token)
    {
      TokenIsFirstBearer(headers, token);
    }
  }
}
